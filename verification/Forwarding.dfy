/** Sending one event (Send in sink.go), and what becomes of an event that cannot be sent:
    the client refuses the request, so the poll loop stops at it for good. */
module Forwarding {
  import opened BinaryRequest
  import opened Delivery
  import opened Prelude
  import opened SinkClient
  import HeaderValue

  /** What the HTTP call meets, once the client lets the request go: no answer, though the
      sink may have it, or a status. */
  datatype Answer = NoAnswer(arrived: bool) | Status(code: int)

  datatype SendError = BuildFailed | Retryable | Permanent

  predicate Success(a: Answer) {
    a.Status? && 200 <= a.code < 300
  }

  predicate WorthRetrying(a: Answer) {
    a.NoAnswer? || a.code == 408 || a.code == 429 || a.code >= 500
  }

  predicate Allowed(req: Request) {
    forall h | h in req.headers :: HeaderValue.Sendable(req.headers[h])
  }

  /** What the delivery protocol sees of one send. */
  function OutcomeOf(req: Request, a: Answer): (o: Outcome)
    ensures o.Acked? <==> Allowed(req) && a.Status? && 200 <= a.code <= 299
    ensures o.Undelivered? <==> !Allowed(req) || (a.NoAnswer? && !a.arrived)
  {
    if !Allowed(req) || a == NoAnswer(false) then Undelivered
    else if Success(a) then Acked
    else Unconfirmed
  }

  /** What a forwarder makes of the envelope's event, and the overrides it puts on top. */
  datatype Forwarder = Forwarder(decode: Event -> CloudEvent, overrides: map<string, string>)

  function Overridden(ev: CloudEvent, extensions: Extensions): CloudEvent {
    ev.(extensions := extensions)
  }

  /** The request is one that Send may build for the event. */
  ghost predicate RequestFor(req: Request, ev: CloudEvent, overrides: map<string, string>, order: seq<string>) {
    RangeOrder(overrides, order) && Encodes(req, Overridden(ev, Applied(ev.extensions, overrides, order)))
  }

  /** An error is returned exactly if the sink did not acknowledge the event, and it is
      permanent exactly if the sink refused it with a status that is no reason to ask
      again. */
  method Send(ev: CloudEvent, overrides: map<string, string>, sinkParses: bool, answer: Answer)
    returns (err: Option<SendError>, ghost req: Request, ghost order: seq<string>)
    ensures RequestFor(req, ev, overrides, order)
    ensures err == Some(BuildFailed) <==> !sinkParses
    ensures sinkParses ==> (err == None <==> OutcomeOf(req, answer).Acked?)
    ensures sinkParses && (!Allowed(req) || answer.NoAnswer?) ==> err == Some(Retryable)
    ensures sinkParses && Allowed(req) && answer.Status? ==>
              && (err == None <==> 200 <= answer.code <= 299)
              && (err == Some(Permanent) <==>
                    !(200 <= answer.code <= 299) && answer.code != 408 && answer.code != 429 && answer.code < 500)
  {
    var sent;
    sent, order := ApplyOverrides(ev, overrides);
    var built := BuildBinaryRequest(sent);
    req := built;
    if !sinkParses {
      return Some(BuildFailed), req, order;
    }
    if !Allowed(built) || answer.NoAnswer? {
      return Some(Retryable), req, order;
    }
    if answer.code >= 200 && answer.code < 300 {
      return None, req, order;
    }
    if answer.code == 408 || answer.code == 429 || answer.code >= 500 {
      return Some(Retryable), req, order;
    }
    err := Some(Permanent);
  }

  // ---------------------------------------------------------------------------
  // An event that is never acknowledged
  // ---------------------------------------------------------------------------

  /** In whatever order the overrides are set, some value is not one HTTP can carry. */
  ghost predicate Unsendable(fw: Forwarder, e: Event) {
    forall order | RangeOrder(fw.overrides, order) ::
      !SendableEvent(Overridden(fw.decode(e), Applied(fw.decode(e).extensions, fw.overrides, order)))
  }

  /** Which answers the sink may give to an event. */
  type Sink = (Event, Answer) -> bool

  ghost predicate MayEnd(fw: Forwarder, sink: Sink, e: Event, o: Outcome) {
    exists req, order, answer ::
      RequestFor(req, fw.decode(e), fw.overrides, order) && sink(e, answer) && o == OutcomeOf(req, answer)
  }

  /** Every outcome of the run is that of a send to this sink. */
  ghost predicate SentBy(fw: Forwarder, sink: Sink, s: Setup, w: World, actions: seq<Action>)
    decreases |actions|
  {
    actions == [] ||
    (Enabled(s, w, actions[0]) ==>
       && (match actions[0]
           case Emit(o) => MayEnd(fw, sink, w.phase.batch[w.phase.sent], o)
           case StreamEvent(e, o) => MayEnd(fw, sink, e, o)
           case _ => true)
       && SentBy(fw, sink, s, Step(s, w, actions[0]), actions[1..]))
  }

  /** The event cannot be sent, or the sink answers it with no status from 200 to 299. */
  ghost predicate Hopeless(fw: Forwarder, sink: Sink, e: Event) {
    Unsendable(fw, e) || forall a | sink(e, a) :: a.NoAnswer? || a.code < 200 || a.code > 299
  }

  lemma HopelessFails(fw: Forwarder, sink: Sink, e: Event, o: Outcome)
    requires Hopeless(fw, sink, e) && MayEnd(fw, sink, e, o)
    ensures !o.Acked?
  {
    var req, order, answer :|
      RequestFor(req, fw.decode(e), fw.overrides, order) && sink(e, answer) && o == OutcomeOf(req, answer);
    SendableHeaders(req, Overridden(fw.decode(e), Applied(fw.decode(e).extensions, fw.overrides, order)));
  }

  lemma {:induction false} NeverAcknowledged(fw: Forwarder, sink: Sink, s: Setup, w: World, actions: seq<Action>,
                                             end: World, id: Id)
    requires Runs(s, w, actions, end) && SentBy(fw, sink, s, w, actions)
    requires id !in w.acked && forall e: Event | e.id == id :: Hopeless(fw, sink, e)
    ensures id !in end.acked
    decreases |actions|
  {
    if actions != [] {
      match actions[0] {
        case Emit(o) =>
          var e := w.phase.batch[w.phase.sent];
          if e.id == id {
            HopelessFails(fw, sink, e, o);
          }
        case StreamEvent(e, o) =>
          if e.id == id {
            HopelessFails(fw, sink, e, o);
          }
        case _ =>
      }
      NeverAcknowledged(fw, sink, s, Step(s, w, actions[0]), actions[1..], end, id);
    }
  }

  /** An event that cannot be sent, or to which the sink never answers with success, is
      never passed by a cursor, in memory or on disk: whatever comes after it in the log
      waits for good. An event is known by its id. */
  lemma HopelessNeverPassed(fw: Forwarder, sink: Sink, s: Setup, start: World, actions: seq<Action>, w: World, i: nat)
    requires ValidSetup(s) && Initial(s, start) && Runs(s, start, actions, w) && SentBy(fw, sink, s, start, actions)
    requires i < |w.log| && w.log[i].WellFormed?
    requires forall e: Event | e.id == w.log[i].event.id :: Hopeless(fw, sink, e)
    ensures MemoryPosition(s, w) <= i && DiskPosition(s, w.files) <= i
  {
    NeverAcknowledged(fw, sink, s, start, actions, w, w.log[i].event.id);
    UnacknowledgedNeverPassed(s, start, actions, w, i);
  }

  /** An event with a value HTTP cannot carry is such an event, whatever the sink. */
  lemma UnsendableNeverPassed(fw: Forwarder, sink: Sink, s: Setup, start: World, actions: seq<Action>, w: World, i: nat)
    requires ValidSetup(s) && Initial(s, start) && Runs(s, start, actions, w) && SentBy(fw, sink, s, start, actions)
    requires i < |w.log| && w.log[i].WellFormed?
    requires forall e: Event | e.id == w.log[i].event.id :: Unsendable(fw, e)
    ensures MemoryPosition(s, w) <= i && DiskPosition(s, w.files) <= i
  {
    HopelessNeverPassed(fw, sink, s, start, actions, w, i);
  }

  /** And so is one the sink always refuses, be it with 404, 429 or 503. */
  lemma RefusedNeverPassed(fw: Forwarder, sink: Sink, s: Setup, start: World, actions: seq<Action>, w: World, i: nat)
    requires ValidSetup(s) && Initial(s, start) && Runs(s, start, actions, w) && SentBy(fw, sink, s, start, actions)
    requires i < |w.log| && w.log[i].WellFormed?
    requires forall e: Event, a | e.id == w.log[i].event.id && sink(e, a) :: a.Status? && !(200 <= a.code <= 299)
    ensures MemoryPosition(s, w) <= i && DiskPosition(s, w.files) <= i
  {
    HopelessNeverPassed(fw, sink, s, start, actions, w, i);
  }
}
