/** The poll loop itself (poll.go), as code that changes the cursor, the cursor file
    and the sink step by step. Every session it runs is a run of the step system in
    module Delivery, so the theorems there hold of it. */
module PollClient {
  import Prelude
  import opened CursorFile
  import opened Delivery

  datatype Response = FetchError | Batch(next: Cursor, raw: seq<Envelope>)

  /** What one tick meets: the server's response, the sink's answer to each event
      (nothing is delivered once the context has ended), the disk. */
  datatype Tick = Tick(response: Response, outcomes: seq<Outcome>, faults: Faults)

  function OutcomeAt(outcomes: seq<Outcome>, i: nat): Outcome {
    if i < |outcomes| then outcomes[i] else Undelivered
  }

  /** The state of a session, and of the sink it talks to. */
  datatype Client = Client(cursor: Cursor, files: Files, received: seq<Event>, acked: set<Id>)

  /** The first failure stops the batch: the index emit is last called on, if the
      batch fails, or its length. */
  function FirstFailure(outcomes: seq<Outcome>, n: nat): (k: nat)
    ensures k <= n
    ensures forall i | 0 <= i < k :: OutcomeAt(outcomes, i).Acked?
    ensures k < n ==> !OutcomeAt(outcomes, k).Acked?
  {
    if n == 0 then 0
    else
      var k := FirstFailure(outcomes, n - 1);
      if k < n - 1 || !OutcomeAt(outcomes, n - 1).Acked? then k else n
  }

  /** The events emit is called on. */
  function Emitted(events: seq<Event>, outcomes: seq<Outcome>): (calls: seq<Event>)
    ensures calls <= events
  {
    var k := FirstFailure(outcomes, |events|);
    if k < |events| then events[..k + 1] else events
  }

  /** The sink's log after emit was called on these events in order. */
  function Delivered(received: seq<Event>, calls: seq<Event>, outcomes: seq<Outcome>): seq<Event> {
    if calls == [] then received
    else
      var n := |calls| - 1;
      Receive(Delivered(received, calls[..n], outcomes), calls[n], OutcomeAt(outcomes, n))
  }

  function Confirmed(acked: set<Id>, calls: seq<Event>, outcomes: seq<Outcome>): set<Id> {
    if calls == [] then acked
    else
      var n := |calls| - 1;
      Acknowledge(Confirmed(acked, calls[..n], outcomes), calls[n], OutcomeAt(outcomes, n))
  }

  function AfterTick(path: Prelude.Option<Path>, c: Client, t: Tick): Client {
    match t.response
    case FetchError => c
    case Batch(next, raw) =>
      var events := Decode(raw);
      var calls := Emitted(events, t.outcomes);
      var c1 := c.(received := Delivered(c.received, calls, t.outcomes), acked := Confirmed(c.acked, calls, t.outcomes));
      if FirstFailure(t.outcomes, |events|) == |events| && next != "" && next != c.cursor
      then c1.(cursor := next, files := Settled(path, c.files, next, t.faults))
      else c1
  }

  function AfterTicks(path: Prelude.Option<Path>, c: Client, ticks: seq<Tick>): Client {
    if ticks == [] then c else AfterTick(path, AfterTicks(path, c, ticks[..|ticks| - 1]), ticks[|ticks| - 1])
  }

  /** The sink as the client sees it: what arrives, and what is acknowledged. */
  class Sink {
    var received: seq<Event>
    var acked: set<Id>

    constructor ()
      ensures received == [] && acked == {}
    {
      received, acked := [], {};
    }

    method Send(e: Event, o: Outcome) returns (ok: bool)
      modifies this
      ensures received == Receive(old(received), e, o) && acked == Acknowledge(old(acked), e, o)
      ensures ok == o.Acked?
    {
      if !o.Undelivered? {
        received := received + [e];
      }
      if o.Acked? {
        acked := acked + {e.id};
      }
      ok := o.Acked?;
    }
  }

  class PollClient {
    const store: CursorStore
    const sink: Sink

    constructor (store: CursorStore, sink: Sink)
      ensures this.store == store && this.sink == sink
    {
      this.store := store;
      this.sink := sink;
    }

    /** fetch's loop over the raw envelopes: a malformed one is skipped. */
    method Fetch(raw: seq<Envelope>) returns (events: seq<Event>)
      ensures events == Decode(raw)
    {
      events := [];
      for i := 0 to |raw|
        invariant events == Decode(raw[..i])
      {
        assert raw[..i + 1][..i] == raw[..i];
        match raw[i]
        case Malformed =>
        case WellFormed(e) => events := events + [e];
      }
      assert raw[..|raw|] == raw;
    }

    /** The inner loop of Run: emit in order, stop at the first error. */
    method EmitAll(events: seq<Event>, outcomes: seq<Outcome>) returns (allOk: bool, ghost calls: seq<Event>)
      modifies sink
      ensures calls == Emitted(events, outcomes)
      ensures allOk <==> FirstFailure(outcomes, |events|) == |events|
      ensures sink.received == Delivered(old(sink.received), calls, outcomes)
      ensures sink.acked == Confirmed(old(sink.acked), calls, outcomes)
    {
      allOk, calls := true, [];
      for i := 0 to |events|
        invariant calls == events[..i]
        invariant FirstFailure(outcomes, i) == i
        invariant sink.received == Delivered(old(sink.received), calls, outcomes)
        invariant sink.acked == Confirmed(old(sink.acked), calls, outcomes)
      {
        var ok := sink.Send(events[i], OutcomeAt(outcomes, i));
        calls := events[..i + 1];
        assert calls[..i] == events[..i];
        if !ok {
          FailureSticks(outcomes, i, |events|);
          return false, calls;
        }
      }
      assert events[..|events|] == events;
    }

    /** One poll session: it ends when its context does, which is the end of the
        ticks. `readable` is whether the cursor file could be read at the start. */
    method Run(readable: bool, ticks: seq<Tick>) returns (cursor: Cursor)
      requires store as object != sink
      modifies store, sink
      ensures Client(cursor, store.files, sink.received, sink.acked)
              == AfterTicks(store.path, Client(ReadCursor(store.path, old(store.files), readable), old(store.files),
                                               old(sink.received), old(sink.acked)), ticks)
    {
      cursor := ReadCursor(store.path, store.files, readable);
      ghost var first := Client(cursor, store.files, sink.received, sink.acked);
      for i := 0 to |ticks|
        invariant Client(cursor, store.files, sink.received, sink.acked) == AfterTicks(store.path, first, ticks[..i])
      {
        assert ticks[..i + 1][..i] == ticks[..i];
        match ticks[i].response
        case FetchError => continue;
        case Batch(next, raw) =>
          var events := Fetch(raw);
          var allOk, calls := EmitAll(events, ticks[i].outcomes);
          if !allOk {
            continue;
          }
          if next != "" && next != cursor {
            cursor := next;
            // An error is logged; memory has moved on and disk has not.
            var ok, quiet := store.WriteCursor(cursor, ticks[i].faults);
          }
      }
      assert ticks[..|ticks|] == ticks;
    }
  }

  lemma {:induction false} FailureSticks(outcomes: seq<Outcome>, i: nat, n: nat)
    requires i < n && FirstFailure(outcomes, i) == i && !OutcomeAt(outcomes, i).Acked?
    ensures FirstFailure(outcomes, n) == i
  {
    if n > i + 1 {
      FailureSticks(outcomes, i, n - 1);
    }
  }

  // ---------------------------------------------------------------------------
  // What a tick does to the cursor, its file and the sink
  // ---------------------------------------------------------------------------

  lemma {:induction false} AllAcked(received: seq<Event>, acked: set<Id>, calls: seq<Event>, outcomes: seq<Outcome>)
    requires |calls| <= |outcomes| && forall i | 0 <= i < |calls| :: outcomes[i].Acked?
    ensures Delivered(received, calls, outcomes) == received + calls
    ensures Confirmed(acked, calls, outcomes) == acked + Ids(calls)
  {
    if calls == [] {
      assert received + calls == received;
    } else {
      var n := |calls| - 1;
      AllAcked(received, acked, calls[..n], outcomes);
      assert received + calls[..n] + [calls[n]] == received + calls;
    }
  }

  /** A batch the sink acknowledged is in its log, all of it and in order, and the cursor
      moves to the server's next one if there is one. If it does, and the disk works, the
      file holds it, and nothing else on disk has changed. */
  lemma AcknowledgedTick(path: Prelude.Option<Path>, c: Client, t: Tick)
    requires t.response.Batch? && |Decode(t.response.raw)| <= |t.outcomes|
    requires forall i | 0 <= i < |Decode(t.response.raw)| :: t.outcomes[i].Acked?
    ensures var c' := AfterTick(path, c, t);
            && c'.received == c.received + Decode(t.response.raw)
            && c'.acked == c.acked + Ids(Decode(t.response.raw))
            && c'.cursor == (if t.response.next == "" then c.cursor else t.response.next)
            && (c'.cursor == c.cursor ==> c'.files == c.files)
            && (c'.cursor != c.cursor && path.Some? && DiskWorks(path.value, c.files, t.faults) ==>
                  c'.files == c.files[path.value := c'.cursor])
  {
    AllAcked(c.received, c.acked, Decode(t.response.raw), t.outcomes);
  }

  /** Every system call of a write works, and the name of the temporary file is free. */
  predicate DiskWorks(path: Path, files: Files, f: Faults) {
    f.mkdirOk && f.createOk && TempName(path, f.suffix) !in files && f.writeOk && f.closeOk && f.renameOk
  }

  /** A batch with a failure: what comes before it is acknowledged, it may have arrived,
      what comes after it is not sent, and the cursor stays, in memory and on disk. */
  lemma FailedTick(path: Prelude.Option<Path>, c: Client, t: Tick, k: nat)
    requires t.response.Batch? && k < |Decode(t.response.raw)| && k < |t.outcomes|
    requires !t.outcomes[k].Acked? && forall i | 0 <= i < k :: t.outcomes[i].Acked?
    ensures var c', events := AfterTick(path, c, t), Decode(t.response.raw);
            && c'.cursor == c.cursor && c'.files == c.files
            && c'.received == c.received + events[..k] + (if t.outcomes[k].Unconfirmed? then [events[k]] else [])
            && c'.acked == c.acked + Ids(events[..k])
  {
    var events := Decode(t.response.raw);
    FailsAt(t.outcomes, k, |events|);
    assert events[..k + 1][..k] == events[..k];
    AllAcked(c.received, c.acked, events[..k], t.outcomes);
  }

  lemma FailsAt(outcomes: seq<Outcome>, k: nat, n: nat)
    requires k < n && k < |outcomes| && !outcomes[k].Acked? && forall i | 0 <= i < k :: outcomes[i].Acked?
    ensures FirstFailure(outcomes, n) == k
  {
    var f := FirstFailure(outcomes, n);
    assert f < n ==> !OutcomeAt(outcomes, f).Acked?;
    assert k < f ==> OutcomeAt(outcomes, k).Acked?;
  }

  /** A fetch that fails changes nothing. */
  lemma FailedFetch(path: Prelude.Option<Path>, c: Client, t: Tick)
    requires t.response.FetchError?
    ensures AfterTick(path, c, t) == c
  {
  }

  /** The file holds the cursor of the session; no file stands for the empty one. */
  predicate Persisted(path: Path, c: Client) {
    c.cursor == if path in c.files then c.files[path] else ""
  }

  lemma TickPersists(path: Path, c: Client, t: Tick)
    requires Persisted(path, c) && DiskWorks(path, c.files, t.faults)
    ensures Persisted(path, AfterTick(Prelude.Some(path), c, t))
  {
  }

  /** Over a whole session: if no write fails, the file holds the session's cursor after
      every tick, as it does when the session has just read it. */
  lemma {:induction false} SessionPersists(path: Path, c: Client, ticks: seq<Tick>)
    requires Persisted(path, c)
    requires forall i | 0 <= i < |ticks| ::
               DiskWorks(path, AfterTicks(Prelude.Some(path), c, ticks[..i]).files, ticks[i].faults)
    ensures Persisted(path, AfterTicks(Prelude.Some(path), c, ticks))
  {
    if ticks != [] {
      var n := |ticks| - 1;
      forall i | 0 <= i < n
        ensures DiskWorks(path, AfterTicks(Prelude.Some(path), c, ticks[..n][..i]).files, ticks[..n][i].faults)
      {
        assert ticks[..n][..i] == ticks[..i];
      }
      SessionPersists(path, c, ticks[..n]);
      TickPersists(path, AfterTicks(Prelude.Some(path), c, ticks[..n]), ticks[n]);
    }
  }
}
