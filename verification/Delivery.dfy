/** Cursor-resumed delivery (poll.go with run.go): what the sink has received, after
    any history of ticks, fetch errors, sink failures, lost acknowledgements, failed
    persists, session restarts, mode flips and crashes. */
module Delivery {
  import opened Prelude
  import opened CursorFile

  type Id = string
  type Cursor = string

  datatype Event = Event(id: Id, body: string)

  /** One element of the poll response: it decodes to an event, or is skipped. */
  datatype Envelope = WellFormed(event: Event) | Malformed

  // ---------------------------------------------------------------------------
  // Sequences of envelopes and events
  // ---------------------------------------------------------------------------

  /** The events fetch returns for the raw envelopes of a response. */
  function Decode(raw: seq<Envelope>): seq<Event> {
    if raw == [] then []
    else
      var last := raw[|raw| - 1];
      Decode(raw[..|raw| - 1]) + (if last.WellFormed? then [last.event] else [])
  }

  lemma {:induction false} DecodeConcat(a: seq<Envelope>, b: seq<Envelope>)
    ensures Decode(a + b) == Decode(a) + Decode(b)
  {
    if b == [] {
      assert a + b == a;
    } else {
      var n := |b| - 1;
      assert (a + b)[..|a + b| - 1] == a + b[..n];
      DecodeConcat(a, b[..n]);
    }
  }

  /** The events below a position, and up to a later one. */
  lemma DecodeSlice(log: seq<Envelope>, lo: nat, hi: nat)
    requires lo <= hi <= |log|
    ensures Decode(log[..hi]) == Decode(log[..lo]) + Decode(log[lo..hi])
  {
    assert log[..hi] == log[..lo] + log[lo..hi];
    DecodeConcat(log[..lo], log[lo..hi]);
  }

  lemma DecodePrefix(log: seq<Envelope>, n: nat)
    requires n <= |log|
    ensures Decode(log[..n]) <= Decode(log)
  {
    assert log[..|log|] == log;
    DecodeSlice(log, n, |log|);
  }

  function Ids(events: seq<Event>): set<Id> {
    if events == [] then {} else Ids(events[..|events| - 1]) + {events[|events| - 1].id}
  }

  lemma IdsAppend(events: seq<Event>, e: Event)
    ensures Ids(events + [e]) == Ids(events) + {e.id}
  {
    assert (events + [e])[..|events|] == events;
  }

  lemma {:induction false} IdsOf(events: seq<Event>, k: nat)
    requires k < |events|
    ensures events[k].id in Ids(events)
  {
    if k < |events| - 1 {
      IdsOf(events[..|events| - 1], k);
    }
  }

  /** What a receiver that remembers ids keeps: the first event with each id. */
  function Dedupe(received: seq<Event>): seq<Event> {
    if received == [] then []
    else
      var init, last := received[..|received| - 1], received[|received| - 1];
      if last.id in Ids(init) then Dedupe(init) else Dedupe(init) + [last]
  }

  lemma {:induction false} DedupeKeepsIds(received: seq<Event>)
    ensures Ids(Dedupe(received)) == Ids(received)
  {
    if received != [] {
      var init, last := received[..|received| - 1], received[|received| - 1];
      DedupeKeepsIds(init);
      IdsAppend(Dedupe(init), last);
    }
  }

  lemma DedupeAppend(received: seq<Event>, e: Event)
    ensures Dedupe(received + [e]) == if e.id in Ids(received) then Dedupe(received) else Dedupe(received) + [e]
  {
    assert (received + [e])[..|received|] == received;
  }

  lemma {:induction false} IdsMember(events: seq<Event>, id: Id) returns (k: nat)
    requires id in Ids(events)
    ensures k < |events| && events[k].id == id
  {
    var n := |events| - 1;
    if events[n].id == id {
      k := n;
    } else {
      k := IdsMember(events[..n], id);
    }
  }

  /** What is kept, in the order it came: the k-th kept event is the first of its id. */
  lemma {:induction false} DedupeKeepsFirsts(received: seq<Event>, k: nat) returns (i: nat)
    requires k < |Dedupe(received)|
    ensures i < |received| && received[i] == Dedupe(received)[k] && |Dedupe(received[..i])| == k
    ensures forall j | 0 <= j < i :: received[j].id != received[i].id
  {
    var n := |received| - 1;
    if k < |Dedupe(received[..n])| {
      i := DedupeKeepsFirsts(received[..n], k);
      assert received[..n][..i] == received[..i];
    } else {
      i := n;
      forall j | 0 <= j < n ensures received[j].id != received[n].id {
        IdsOf(received[..n], j);
      }
    }
  }

  /** And none is missing: every id that came is kept once. */
  lemma DedupeKeepsAll(received: seq<Event>, i: nat) returns (k: nat)
    requires i < |received|
    ensures k < |Dedupe(received)| && Dedupe(received)[k].id == received[i].id
  {
    IdsOf(received, i);
    DedupeKeepsIds(received);
    k := IdsMember(Dedupe(received), received[i].id);
  }

  ghost predicate DistinctIds(log: seq<Envelope>) {
    forall i, j | 0 <= i < j < |log| && log[i].WellFormed? && log[j].WellFormed? ::
      log[i].event.id != log[j].event.id
  }

  /** Every decoded event comes from an envelope of the log. */
  lemma {:induction false} DecodedFrom(log: seq<Envelope>, k: nat) returns (i: nat)
    requires k < |Decode(log)|
    ensures i < |log| && log[i] == WellFormed(Decode(log)[k])
    ensures k == |Decode(log[..i])|
  {
    var n := |log| - 1;
    if k < |Decode(log[..n])| {
      i := DecodedFrom(log[..n], k);
      assert log[..n][..i] == log[..i];
    } else {
      i := n;
    }
  }

  lemma DecodedIdsDistinct(log: seq<Envelope>, j: nat, k: nat)
    requires DistinctIds(log) && j < k < |Decode(log)|
    ensures Decode(log)[j].id != Decode(log)[k].id
  {
    var a := DecodedFrom(log, j);
    var b := DecodedFrom(log, k);
    assert a != b;
  }

  // ---------------------------------------------------------------------------
  // The step system
  // ---------------------------------------------------------------------------

  /** The server's contract, which is not part of this repository: every cursor
      stands for a position in the log, and the empty one, which the client leaves
      out of the query, for its beginning. */
  datatype Setup = Setup(position: Cursor -> nat, path: Option<Path>)

  ghost predicate ValidSetup(s: Setup) { s.position("") == 0 }

  /** `clean` says the session read the cursor file without an error. */
  datatype Phase =
    | Down
    | Waiting(cursor: Cursor, clean: bool)
    | Emitting(cursor: Cursor, clean: bool, next: Cursor, upto: nat, batch: seq<Event>, sent: nat)
    | Persisting(cursor: Cursor, clean: bool, before: Files, temp: Path)
    | Streaming

  /** `received` is everything that arrived at the sink, in order; `acked` the ids
      for which the sink's acknowledgement came back. */
  datatype World = World(log: seq<Envelope>, files: Files, received: seq<Event>, acked: set<Id>, phase: Phase)

  /** Acked: a 2xx came back. Unconfirmed: the sink has the event, the client got an
      error. Undelivered: the event never arrived. */
  datatype Outcome = Acked | Unconfirmed | Undelivered

  datatype Action =
    | Append(envelope: Envelope)
    | StartPoll(readable: bool)
    | FetchFailed
    | Fetched(next: Cursor, upto: nat)
    | Emit(outcome: Outcome)
    | BatchDone(temp: Path)
    | DiskMoves(files: Files)
    | PersistReturns(ok: bool)
    | StartStream
    | StreamEvent(event: Event, streamed: Outcome)
    | EndSession
    | Crash

  ghost predicate Enabled(s: Setup, w: World, a: Action) {
    match a
    case Append(e) => DistinctIds(w.log + [e])
    case StartPoll(_) => w.phase.Down?
    case FetchFailed => w.phase.Waiting?
    case Fetched(next, upto) =>
      // A contiguous slice from the cursor's position, never backwards. A response
      // without next_cursor may end anywhere.
      && w.phase.Waiting?
      && s.position(w.phase.cursor) <= upto <= |w.log|
      && (next != "" ==> s.position(next) == upto)
    case Emit(_) => w.phase.Emitting? && w.phase.sent < |w.phase.batch|
    case BatchDone(_) => w.phase.Emitting? && w.phase.sent == |w.phase.batch|
    case DiskMoves(files) =>
      w.phase.Persisting? && CrashState(s.path, w.phase.temp, w.phase.before, w.phase.cursor, files)
    case PersistReturns(ok) =>
      // An error leaves the register alone; success means the replacement happened.
      && w.phase.Persisting?
      && (if ok && s.path.Some? then w.files == w.phase.before[s.path.value := w.phase.cursor]
          else Register(s.path, w.files) == Register(s.path, w.phase.before))
    case StartStream => w.phase.Down?
    case StreamEvent(_, _) => w.phase.Streaming?
    case EndSession => w.phase.Waiting? || w.phase.Streaming?
    case Crash => true
  }

  function Receive(received: seq<Event>, e: Event, o: Outcome): seq<Event> {
    if o.Undelivered? then received else received + [e]
  }

  function Acknowledge(acked: set<Id>, e: Event, o: Outcome): set<Id> {
    if o.Acked? then acked + {e.id} else acked
  }

  ghost function Step(s: Setup, w: World, a: Action): World
    requires Enabled(s, w, a)
  {
    match a
    case Append(e) => w.(log := w.log + [e])
    case StartPoll(readable) => w.(phase := Waiting(ReadCursor(s.path, w.files, readable), readable))
    case FetchFailed => w
    case Fetched(next, upto) =>
      var c := w.phase.cursor;
      w.(phase := Emitting(c, w.phase.clean, next, upto, Decode(w.log[s.position(c)..upto]), 0))
    case Emit(o) =>
      var e := w.phase.batch[w.phase.sent];
      // The first failure abandons the batch; the cursor stays where it was.
      w.(received := Receive(w.received, e, o),
         acked := Acknowledge(w.acked, e, o),
         phase := if o.Acked? then w.phase.(sent := w.phase.sent + 1) else Waiting(w.phase.cursor, w.phase.clean))
    case BatchDone(temp) =>
      if w.phase.next != "" && w.phase.next != w.phase.cursor
      then w.(phase := Persisting(w.phase.next, w.phase.clean, w.files, temp))
      else w.(phase := Waiting(w.phase.cursor, w.phase.clean))
    case DiskMoves(files) => w.(files := files)
    case PersistReturns(_) => w.(phase := Waiting(w.phase.cursor, w.phase.clean))
    case StartStream => w.(phase := Streaming)
    case StreamEvent(e, o) => w.(received := Receive(w.received, e, o), acked := Acknowledge(w.acked, e, o))
    case EndSession => w.(phase := Down)
    case Crash => w.(phase := Down)
  }

  /** What the theorems leave to the environment: at any moment an event may arrive at the
      server or the process may die; a fetch may fail, any emit may end in any way, the
      disk may be found in any state a write passes through, and a session may begin
      without being able to read the cursor and end whenever it waits. */
  lemma EnvironmentIsFree(s: Setup, w: World, e: Envelope, o: Outcome, readable: bool, files: Files)
    ensures DistinctIds(w.log + [e]) ==> Enabled(s, w, Append(e))
    ensures Enabled(s, w, Crash) && Step(s, w, Crash) == w.(phase := Down)
    ensures w.phase.Down? ==> Enabled(s, w, StartStream) && Enabled(s, w, StartPoll(readable))
    ensures w.phase.Waiting? ==> Enabled(s, w, FetchFailed) && Enabled(s, w, EndSession)
    ensures w.phase.Emitting? && w.phase.sent < |w.phase.batch| ==> Enabled(s, w, Emit(o))
    ensures w.phase.Persisting? && CrashState(s.path, w.phase.temp, w.phase.before, w.phase.cursor, files) ==>
              Enabled(s, w, DiskMoves(files)) && Step(s, w, DiskMoves(files)).files == files
  {
  }

  /** `end` is reached from `w` by exactly these actions. Every prefix of a run is a
      run, so what holds at the end of all runs holds at every moment of each. */
  ghost predicate Runs(s: Setup, w: World, actions: seq<Action>, end: World)
    decreases |actions|
  {
    if actions == [] then w == end
    else Enabled(s, w, actions[0]) && Runs(s, Step(s, w, actions[0]), actions[1..], end)
  }

  lemma {:induction false} RunsConcat(s: Setup, w: World, a: seq<Action>, mid: World, b: seq<Action>, end: World)
    requires Runs(s, w, a, mid) && Runs(s, mid, b, end)
    ensures Runs(s, w, a + b, end)
    decreases |a|
  {
    if a == [] {
      assert a + b == b;
    } else {
      assert (a + b)[0] == a[0] && (a + b)[1..] == a[1..] + b;
      RunsConcat(s, Step(s, w, a[0]), a[1..], mid, b, end);
    }
  }

  /** First boot: an empty volume, and nothing delivered. The server's log may
      already hold events. */
  ghost predicate Initial(s: Setup, w: World) {
    && DistinctIds(w.log)
    && Register(s.path, w.files) == None
    && w.received == [] && w.acked == {} && w.phase == Down
  }

  // ---------------------------------------------------------------------------
  // At-least-once, with mode flips
  // ---------------------------------------------------------------------------

  /** Every well-formed event below position n was acknowledged by the sink. */
  ghost predicate Covered(w: World, n: nat) {
    n <= |w.log| && forall i | 0 <= i < n && w.log[i].WellFormed? :: w.log[i].event.id in w.acked
  }

  function DiskPosition(s: Setup, files: Files): nat {
    match Register(s.path, files)
    case None => 0
    case Some(c) => s.position(c)
  }

  ghost predicate Safe(s: Setup, w: World) {
    && DistinctIds(w.log)
    && w.acked <= Ids(w.received)
    && Covered(w, DiskPosition(s, w.files))
    && match w.phase
       case Down => true
       case Streaming => true
       case Waiting(cursor, clean) =>
         Covered(w, s.position(cursor)) && (clean && s.path.Some? ==> DiskPosition(s, w.files) <= s.position(cursor))
       case Emitting(cursor, clean, next, upto, batch, sent) =>
         && Covered(w, s.position(cursor))
         && (clean && s.path.Some? ==> DiskPosition(s, w.files) <= s.position(cursor))
         && s.position(cursor) <= upto <= |w.log|
         && (next != "" ==> s.position(next) == upto)
         && batch == Decode(w.log[s.position(cursor)..upto])
         && sent <= |batch|
         && Ids(batch[..sent]) <= w.acked
       case Persisting(cursor, clean, before, temp) =>
         && Covered(w, s.position(cursor))
         && Covered(w, DiskPosition(s, before))
         && (clean && s.path.Some? ==> DiskPosition(s, before) <= s.position(cursor))
         && CrashState(s.path, temp, before, cursor, w.files)
  }

  /** A fully acknowledged batch covers everything up to its end. */
  lemma BatchCovers(w: World, lo: nat, upto: nat)
    requires lo <= upto <= |w.log| && Covered(w, lo)
    requires Ids(Decode(w.log[lo..upto])) <= w.acked
    ensures Covered(w, upto)
  {
    forall i | lo <= i < upto && w.log[i].WellFormed? ensures w.log[i].event.id in w.acked {
      assert w.log[lo..upto][i - lo] == w.log[i];
      var k := DecodedMember(w.log[lo..upto], i - lo);
      IdsOf(Decode(w.log[lo..upto]), k);
    }
  }

  lemma {:induction false} DecodedMember(raw: seq<Envelope>, i: nat) returns (k: nat)
    requires i < |raw| && raw[i].WellFormed?
    ensures k < |Decode(raw)| && Decode(raw)[k] == raw[i].event
  {
    if i < |raw| - 1 {
      k := DecodedMember(raw[..|raw| - 1], i);
    } else {
      k := |Decode(raw)| - 1;
    }
  }

  lemma AppendSafe(s: Setup, w: World, e: Envelope)
    requires Safe(s, w) && DistinctIds(w.log + [e])
    ensures Safe(s, w.(log := w.log + [e]))
  {
    var log := w.log + [e];
    assert forall i | 0 <= i < |w.log| :: log[i] == w.log[i];
    if w.phase.Emitting? {
      assert log[s.position(w.phase.cursor)..w.phase.upto] == w.log[s.position(w.phase.cursor)..w.phase.upto];
    }
  }

  lemma CoveredStays(w: World, w': World, n: nat)
    requires Covered(w, n) && w.log <= w'.log && w.acked <= w'.acked
    ensures Covered(w', n)
  {
  }

  lemma SentGrows(batch: seq<Event>, sent: nat, acked: set<Id>, o: Outcome)
    requires sent < |batch| && Ids(batch[..sent]) <= acked && o.Acked?
    ensures Ids(batch[..sent + 1]) <= Acknowledge(acked, batch[sent], o)
  {
    assert batch[..sent + 1] == batch[..sent] + [batch[sent]];
    IdsAppend(batch[..sent], batch[sent]);
  }

  lemma EmitSafe(s: Setup, w: World, o: Outcome)
    requires Safe(s, w) && Enabled(s, w, Emit(o))
    ensures Safe(s, Step(s, w, Emit(o)))
  {
    var w' := Step(s, w, Emit(o));
    EmitKeepsIds(w, w.phase.batch[w.phase.sent], o);
    CoveredStays(w, w', DiskPosition(s, w.files));
    CoveredStays(w, w', s.position(w.phase.cursor));
    if o.Acked? {
      SentGrows(w.phase.batch, w.phase.sent, w.acked, o);
    }
  }

  lemma BatchDoneSafe(s: Setup, w: World, temp: Path)
    requires Safe(s, w) && Enabled(s, w, BatchDone(temp))
    ensures Safe(s, Step(s, w, BatchDone(temp)))
  {
    assert w.phase.batch[..w.phase.sent] == w.phase.batch;
    BatchCovers(w, s.position(w.phase.cursor), w.phase.upto);
  }

  lemma StepSafe(s: Setup, w: World, a: Action)
    requires ValidSetup(s) && Safe(s, w) && Enabled(s, w, a)
    ensures Safe(s, Step(s, w, a))
  {
    match a
    case Append(e) => AppendSafe(s, w, e);
    case Emit(o) => EmitSafe(s, w, o);
    case StreamEvent(e, o) => EmitKeepsIds(w, e, o);
    case BatchDone(temp) => BatchDoneSafe(s, w, temp);
    case DiskMoves(files) => CrashLeavesOldOrNew(s.path, w.phase.temp, w.phase.before, w.phase.cursor, files);
    case _ =>
  }

  lemma EmitKeepsIds(w: World, e: Event, o: Outcome)
    requires w.acked <= Ids(w.received)
    ensures Acknowledge(w.acked, e, o) <= Ids(Receive(w.received, e, o))
    ensures w.acked <= Acknowledge(w.acked, e, o)
  {
    IdsAppend(w.received, e);
  }

  lemma {:induction false} RunSafe(s: Setup, w: World, actions: seq<Action>, end: World)
    requires ValidSetup(s) && Safe(s, w) && Runs(s, w, actions, end)
    ensures Safe(s, end)
    decreases |actions|
  {
    if actions != [] {
      StepSafe(s, w, actions[0]);
      RunSafe(s, Step(s, w, actions[0]), actions[1..], end);
    }
  }

  lemma InitialSafe(s: Setup, w: World)
    requires ValidSetup(s) && Initial(s, w)
    ensures Safe(s, w)
  {
  }

  /** Where the running poll session resumes from, or the whole log if there is no
      such session. */
  function MemoryPosition(s: Setup, w: World): nat {
    match w.phase
    case Down => 0
    case Streaming => 0
    case _ => s.position(w.phase.cursor)
  }

  /** What the invariant says about the cursors. */
  lemma SafeMeans(s: Setup, w: World)
    requires Safe(s, w) && ValidSetup(s)
    ensures MemoryPosition(s, w) <= |w.log| && DiskPosition(s, w.files) <= |w.log|
    ensures forall i | 0 <= i < |w.log| && w.log[i].WellFormed?
              && (i < MemoryPosition(s, w) || i < DiskPosition(s, w.files)) ::
              w.log[i].event.id in w.acked && w.log[i].event.id in Ids(w.received)
    ensures s.path.Some? && !w.phase.Down? && !w.phase.Streaming? && w.phase.clean ==>
              DiskPosition(s, w.files) <= MemoryPosition(s, w)
  {
    if w.phase.Persisting? {
      CrashLeavesOldOrNew(s.path, w.phase.temp, w.phase.before, w.phase.cursor, w.files);
    }
  }

  /** At-least-once, over every run with poll and stream sessions, lost
      acknowledgements, failed persists and crashes: whatever lies below the cursor
      in memory or on disk reached the sink and was acknowledged. Within a session
      that could read the file, the disk never runs ahead of memory. */
  lemma AtLeastOnce(s: Setup, start: World, actions: seq<Action>, w: World)
    requires ValidSetup(s) && Initial(s, start) && Runs(s, start, actions, w)
    ensures MemoryPosition(s, w) <= |w.log| && DiskPosition(s, w.files) <= |w.log|
    ensures forall i | 0 <= i < |w.log| && w.log[i].WellFormed?
              && (i < MemoryPosition(s, w) || i < DiskPosition(s, w.files)) ::
              w.log[i].event.id in w.acked && w.log[i].event.id in Ids(w.received)
    ensures s.path.Some? && !w.phase.Down? && !w.phase.Streaming? && w.phase.clean ==>
              DiskPosition(s, w.files) <= MemoryPosition(s, w)
  {
    InitialSafe(s, start);
    RunSafe(s, start, actions, w);
    SafeMeans(s, w);
  }

  /** An event the sink never acknowledges, whatever status it answers with, is never
      passed: no cursor ever moves beyond it, in memory or on disk. */
  lemma UnacknowledgedNeverPassed(s: Setup, start: World, actions: seq<Action>, w: World, i: nat)
    requires ValidSetup(s) && Initial(s, start) && Runs(s, start, actions, w)
    requires i < |w.log| && w.log[i].WellFormed? && w.log[i].event.id !in w.acked
    ensures MemoryPosition(s, w) <= i && DiskPosition(s, w.files) <= i
  {
    AtLeastOnce(s, start, actions, w);
  }

  /** A stream session, however long, leaves every file as it found it. */
  lemma {:induction false} StreamLeavesCursorAlone(s: Setup, w: World, actions: seq<Action>, end: World)
    requires w.phase.Streaming? && Runs(s, w, actions, end)
    requires EndSession !in actions && Crash !in actions
    ensures end.phase.Streaming? && end.files == w.files
    decreases |actions|
  {
    if actions != [] {
      assert actions[0] in actions;
      StreamLeavesCursorAlone(s, Step(s, w, actions[0]), actions[1..], end);
    }
  }

  // ---------------------------------------------------------------------------
  // Exactly-once after deduplication, poll only
  // ---------------------------------------------------------------------------

  ghost predicate PollOnly(actions: seq<Action>) {
    StartStream !in actions
  }

  /** How many events lie below a position. */
  function EventsBelow(log: seq<Envelope>, n: nat): nat {
    if n <= |log| then |Decode(log[..n])| else 0
  }

  /** The deduplicated sink log is a prefix of the server's events, and it reaches at
      least as far as every cursor and as the part of the batch already sent. */
  ghost predicate InStep(s: Setup, w: World) {
    var kept := Dedupe(w.received);
    && kept <= Decode(w.log)
    && EventsBelow(w.log, DiskPosition(s, w.files)) <= |kept|
    && match w.phase
       case Down => true
       case Streaming => false
       case Waiting(cursor, _) => EventsBelow(w.log, s.position(cursor)) <= |kept|
       case Emitting(cursor, _, _, _, _, sent) => EventsBelow(w.log, s.position(cursor)) + sent <= |kept|
       case Persisting(cursor, _, before, _) =>
         && EventsBelow(w.log, s.position(cursor)) <= |kept|
         && EventsBelow(w.log, DiskPosition(s, before)) <= |kept|
  }

  /** Later events of the server's order are not among the first n. */
  lemma {:induction false} LaterIsNew(log: seq<Envelope>, n: nat, j: nat)
    requires DistinctIds(log) && n <= j < |Decode(log)|
    ensures Decode(log)[j].id !in Ids(Decode(log)[..n])
  {
    if n > 0 {
      var all := Decode(log);
      LaterIsNew(log, n - 1, j);
      DecodedIdsDistinct(log, n - 1, j);
      assert all[..n] == all[..n - 1] + [all[n - 1]];
      IdsAppend(all[..n - 1], all[n - 1]);
    }
  }

  lemma PrefixGrows<T>(kept: seq<T>, all: seq<T>)
    requires kept <= all && |kept| < |all|
    ensures kept + [all[|kept|]] <= all
  {
  }

  /** Receiving element j of a sequence without repeated ids, when at least j of its
      elements are already kept: the kept ones stay a prefix and now include it. */
  lemma ReceiveNext(all: seq<Event>, received: seq<Event>, j: nat)
    requires j < |all| && all[j].id !in Ids(all[..j])
    requires Dedupe(received) <= all && j <= |Dedupe(received)|
    ensures Dedupe(received) <= Dedupe(received + [all[j]]) <= all
    ensures |Dedupe(received + [all[j]])| > j
  {
    var kept := Dedupe(received);
    DedupeAppend(received, all[j]);
    DedupeKeepsIds(received);
    if j < |kept| {
      IdsOf(kept, j);
    } else {
      assert kept == all[..j];
      PrefixGrows(kept, all);
    }
  }

  lemma StepInStep(s: Setup, w: World, a: Action)
    requires ValidSetup(s) && Safe(s, w) && InStep(s, w) && Enabled(s, w, a)
    requires a != StartStream
    ensures InStep(s, Step(s, w, a))
  {
    match a
    case Append(e) => AppendInStep(s, w, e);
    case Emit(o) => EmitInStep(s, w, o);
    case BatchDone(_) => DecodeSlice(w.log, s.position(w.phase.cursor), w.phase.upto);
    case DiskMoves(files) => CrashLeavesOldOrNew(s.path, w.phase.temp, w.phase.before, w.phase.cursor, files);
    case _ =>
  }

  lemma AppendInStep(s: Setup, w: World, e: Envelope)
    requires Safe(s, w) && InStep(s, w)
    ensures InStep(s, w.(log := w.log + [e]))
  {
    DecodeConcat(w.log, [e]);
    forall n | 0 <= n <= |w.log| ensures EventsBelow(w.log + [e], n) == EventsBelow(w.log, n) {
      assert (w.log + [e])[..n] == w.log[..n];
    }
    if w.phase.Persisting? {
      CrashLeavesOldOrNew(s.path, w.phase.temp, w.phase.before, w.phase.cursor, w.files);
    }
  }

  lemma EmitInStep(s: Setup, w: World, o: Outcome)
    requires Safe(s, w) && InStep(s, w) && Enabled(s, w, Emit(o))
    ensures InStep(s, Step(s, w, Emit(o)))
  {
    var lo := s.position(w.phase.cursor);
    var j := EventsBelow(w.log, lo) + w.phase.sent;
    DecodeSlice(w.log, lo, w.phase.upto);
    DecodePrefix(w.log, w.phase.upto);
    assert w.phase.batch[w.phase.sent] == Decode(w.log)[j];
    LaterIsNew(w.log, j, j);
    ReceiveNext(Decode(w.log), w.received, j);
  }

  lemma {:induction false} RunInStep(s: Setup, w: World, actions: seq<Action>, end: World)
    requires ValidSetup(s) && Safe(s, w) && InStep(s, w) && Runs(s, w, actions, end)
    requires PollOnly(actions)
    ensures InStep(s, end)
    decreases |actions|
  {
    if actions != [] {
      assert actions[0] in actions;
      StepSafe(s, w, actions[0]);
      StepInStep(s, w, actions[0]);
      RunInStep(s, Step(s, w, actions[0]), actions[1..], end);
    }
  }

  lemma InStepMeans(s: Setup, w: World)
    requires ValidSetup(s) && Safe(s, w) && InStep(s, w)
    ensures MemoryPosition(s, w) <= |w.log| && DiskPosition(s, w.files) <= |w.log|
    ensures Decode(w.log[..MemoryPosition(s, w)]) <= Dedupe(w.received)
    ensures Decode(w.log[..DiskPosition(s, w.files)]) <= Dedupe(w.received)
  {
    SafeMeans(s, w);
    DecodePrefix(w.log, MemoryPosition(s, w));
    DecodePrefix(w.log, DiskPosition(s, w.files));
  }

  /** Exactly-once after deduplication: in every poll-only run the first occurrences
      in the sink's log are the server's well-formed events, in order, without a gap,
      up to some point; and that point is not before any cursor. */
  lemma ExactlyOnceAfterDedupe(s: Setup, start: World, actions: seq<Action>, w: World)
    requires ValidSetup(s) && Initial(s, start) && Runs(s, start, actions, w)
    requires PollOnly(actions)
    ensures MemoryPosition(s, w) <= |w.log| && DiskPosition(s, w.files) <= |w.log|
    ensures Dedupe(w.received) <= Decode(w.log)
    ensures Decode(w.log[..MemoryPosition(s, w)]) <= Dedupe(w.received)
    ensures Decode(w.log[..DiskPosition(s, w.files)]) <= Dedupe(w.received)
  {
    InitialSafe(s, start);
    RunSafe(s, start, actions, w);
    RunInStep(s, start, actions, w);
    InStepMeans(s, w);
  }

  lemma DecodeTwo(first: Event, second: Event)
    ensures Decode([WellFormed(first), WellFormed(second)]) == [first, second]
  {
    var log := [WellFormed(first), WellFormed(second)];
    assert log[..1] == [WellFormed(first)] && log[..1][..0] == [];
    assert Decode(log[..1]) == [first];
  }

  /** The restriction to polling is needed: a stream may deliver a later event first,
      and then no prefix of the server's order is what the receiver kept. */
  lemma StreamBreaksOrder(first: Event, second: Event, s: Setup)
    returns (start: World, actions: seq<Action>, w: World)
    requires first.id != second.id && ValidSetup(s)
    ensures Initial(s, start) && Runs(s, start, actions, w) && !(Dedupe(w.received) <= Decode(w.log))
  {
    start := World([WellFormed(first), WellFormed(second)], map[], [], {}, Down);
    var deliver := StreamEvent(second, Acked);
    var streaming := Step(s, start, StartStream);
    w := Step(s, streaming, deliver);
    actions := [StartStream, deliver];
    assert actions[1..] == [deliver] && [deliver][1..] == [];
    assert Runs(s, w, [], w);
    assert Runs(s, streaming, [deliver], w);
    DecodeTwo(first, second);
    DedupeAppend([], second);
    assert Dedupe(w.received)[0] == second;
  }
}
