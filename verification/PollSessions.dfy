/** The loops refine the step system: a session of PollClient.Run against a server that
    keeps its contract, or of StreamOnce, is one of the runs Delivery reasons about. From
    that, and from what a batch achieves, how fast a backlog drains. */
module PollSessions {
  import opened CursorFile
  import opened Delivery
  import Fleet
  import opened PollClient

  /** The response has the events of a contiguous slice of the log, which ends where its
      next cursor stands. What does not decode may be left out. */
  ghost predicate Covers(s: Setup, log: seq<Envelope>, c: Client, t: Tick, upto: nat) {
    && t.response.Batch?
    && s.position(c.cursor) <= upto <= |log|
    && Decode(t.response.raw) == Decode(log[s.position(c.cursor)..upto])
    && (t.response.next != "" ==> s.position(t.response.next) == upto)
  }

  /** The response is what the server's contract allows at this cursor. */
  ghost predicate ValidTick(s: Setup, log: seq<Envelope>, c: Client, t: Tick) {
    t.response.Batch? ==> exists upto: nat :: Covers(s, log, c, t, upto)
  }

  /** A poll session neither switches to a stream nor writes the server's log. */
  ghost predicate PollSteps(actions: seq<Action>) {
    forall a | a in actions :: a != StartStream && !a.Append?
  }

  /** Every response of a session, at the cursor the session has reached. `log` is the
      server's log at its end: what it held earlier is a prefix. */
  ghost predicate ValidTicks(s: Setup, log: seq<Envelope>, c: Client, ticks: seq<Tick>) {
    forall i | 0 <= i < |ticks| :: ValidTick(s, log, AfterTicks(s.path, c, ticks[..i]), ticks[i])
  }

  function At(log: seq<Envelope>, c: Client, clean: bool): World {
    World(log, c.files, c.received, c.acked, Waiting(c.cursor, clean))
  }

  lemma RunsSnoc(s: Setup, w: World, actions: seq<Action>, mid: World, a: Action)
    requires Runs(s, w, actions, mid) && Enabled(s, mid, a)
    ensures Runs(s, w, actions + [a], Step(s, mid, a))
  {
    var end := Step(s, mid, a);
    assert Runs(s, end, [], end);
    assert [a][0] == a && [a][1..] == [];
    RunsConcat(s, w, actions, mid, [a], end);
  }

  /** The first n emits of a batch, all acknowledged. */
  lemma {:induction false} EmitsRun(s: Setup, w: World, outcomes: seq<Outcome>, n: nat) returns (actions: seq<Action>)
    requires w.phase.Emitting? && w.phase.sent == 0
    requires n <= FirstFailure(outcomes, |w.phase.batch|)
    ensures PollSteps(actions)
    ensures Runs(s, w, actions, w.(received := Delivered(w.received, w.phase.batch[..n], outcomes),
                                   acked := Confirmed(w.acked, w.phase.batch[..n], outcomes),
                                   phase := w.phase.(sent := n)))
  {
    if n == 0 {
      actions := [];
      assert w.phase.(sent := 0) == w.phase;
    } else {
      var batch := w.phase.batch;
      var before := EmitsRun(s, w, outcomes, n - 1);
      var mid := w.(received := Delivered(w.received, batch[..n - 1], outcomes),
                    acked := Confirmed(w.acked, batch[..n - 1], outcomes),
                    phase := w.phase.(sent := n - 1));
      assert batch[..n][..n - 1] == batch[..n - 1];
      RunsSnoc(s, w, before, mid, Emit(Acked));
      actions := before + [Emit(Acked)];
    }
  }

  /** A batch with a failure: the prefix, the failing emit, and back to waiting. */
  lemma FailedBatchRun(s: Setup, w: World, outcomes: seq<Outcome>) returns (actions: seq<Action>)
    requires w.phase.Emitting? && w.phase.sent == 0
    requires FirstFailure(outcomes, |w.phase.batch|) < |w.phase.batch|
    ensures PollSteps(actions)
    ensures Runs(s, w, actions, w.(received := Delivered(w.received, Emitted(w.phase.batch, outcomes), outcomes),
                                   acked := Confirmed(w.acked, Emitted(w.phase.batch, outcomes), outcomes),
                                   phase := Waiting(w.phase.cursor, w.phase.clean)))
  {
    var batch := w.phase.batch;
    var k := FirstFailure(outcomes, |batch|);
    var sent := EmitsRun(s, w, outcomes, k);
    var mid := w.(received := Delivered(w.received, batch[..k], outcomes),
                  acked := Confirmed(w.acked, batch[..k], outcomes),
                  phase := w.phase.(sent := k));
    assert batch[..k + 1][..k] == batch[..k];
    RunsSnoc(s, w, sent, mid, Emit(OutcomeAt(outcomes, k)));
    actions := sent + [Emit(OutcomeAt(outcomes, k))];
  }

  /** The persist: the disk moves where WriteCursor leaves it, then the call returns. */
  lemma PersistRun(s: Setup, w: World, f: Faults) returns (actions: seq<Action>)
    requires w.phase.Persisting? && w.files == w.phase.before
    requires s.path.Some? ==> w.phase.temp == TempName(s.path.value, f.suffix)
    ensures PollSteps(actions)
    ensures Runs(s, w, actions, w.(files := Settled(s.path, w.files, w.phase.cursor, f),
                                   phase := Waiting(w.phase.cursor, w.phase.clean)))
  {
    var after := Settled(s.path, w.files, w.phase.cursor, f);
    var moved := w.(files := after);
    var finish := PersistReturns(Succeeds(s.path, w.files, f));
    assert Runs(s, w, [], w);
    RunsSnoc(s, w, [], w, DiskMoves(after));
    RunsSnoc(s, w, [] + [DiskMoves(after)], moved, finish);
    actions := [] + [DiskMoves(after)] + [finish];
  }

  /** A batch without a failure: every emit, then the cursor moves and is persisted,
      or stays. */
  lemma FullBatchRun(s: Setup, w: World, outcomes: seq<Outcome>, f: Faults) returns (actions: seq<Action>)
    requires w.phase.Emitting? && w.phase.sent == 0
    requires FirstFailure(outcomes, |w.phase.batch|) == |w.phase.batch|
    ensures PollSteps(actions)
    ensures var advance := w.phase.next != "" && w.phase.next != w.phase.cursor;
            Runs(s, w, actions, w.(received := Delivered(w.received, w.phase.batch, outcomes),
                                   acked := Confirmed(w.acked, w.phase.batch, outcomes),
                                   files := if advance then Settled(s.path, w.files, w.phase.next, f) else w.files,
                                   phase := Waiting(if advance then w.phase.next else w.phase.cursor, w.phase.clean)))
  {
    var batch := w.phase.batch;
    var sent := EmitsRun(s, w, outcomes, |batch|);
    assert batch[..|batch|] == batch;
    var mid := w.(received := Delivered(w.received, batch, outcomes),
                  acked := Confirmed(w.acked, batch, outcomes), phase := w.phase.(sent := |batch|));
    var done := BatchDone(if s.path.Some? then TempName(s.path.value, f.suffix) else Path("", ""));
    RunsSnoc(s, w, sent, mid, done);
    var after := Step(s, mid, done);
    actions := sent + [done];
    if after.phase.Persisting? {
      var persist := PersistRun(s, after, f);
      var end := after.(files := Settled(s.path, w.files, w.phase.next, f), phase := Waiting(w.phase.next, w.phase.clean));
      RunsConcat(s, w, actions, after, persist, end);
      actions := actions + persist;
    }
  }

  lemma TickIsRun(s: Setup, log: seq<Envelope>, c: Client, t: Tick, clean: bool) returns (actions: seq<Action>)
    requires ValidTick(s, log, c, t)
    ensures PollSteps(actions)
    ensures Runs(s, At(log, c, clean), actions, At(log, AfterTick(s.path, c, t), clean))
  {
    var w, end := At(log, c, clean), At(log, AfterTick(s.path, c, t), clean);
    assert Runs(s, w, [], w);
    match t.response
    case FetchError =>
      RunsSnoc(s, w, [], w, FetchFailed);
      actions := [] + [FetchFailed];
    case Batch(next, raw) =>
      var upto: nat :| Covers(s, log, c, t, upto);
      var fetched := Fetched(next, upto);
      RunsSnoc(s, w, [], w, fetched);
      var fetch, emitting := [] + [fetched], Step(s, w, fetched);
      assert emitting.phase.batch == Decode(raw);
      var rest;
      if FirstFailure(t.outcomes, |Decode(raw)|) < |Decode(raw)| {
        rest := FailedBatchRun(s, emitting, t.outcomes);
      } else {
        rest := FullBatchRun(s, emitting, t.outcomes, t.faults);
      }
      RunsConcat(s, w, fetch, emitting, rest, end);
      actions := fetch + rest;
  }

  /** The whole session, from a cursor already read. */
  lemma {:induction false} TicksAreRun(s: Setup, log: seq<Envelope>, c: Client, ticks: seq<Tick>, clean: bool)
    returns (actions: seq<Action>)
    requires ValidTicks(s, log, c, ticks)
    ensures PollSteps(actions)
    ensures Runs(s, At(log, c, clean), actions, At(log, AfterTicks(s.path, c, ticks), clean))
  {
    if ticks == [] {
      actions := [];
    } else {
      var n := |ticks| - 1;
      forall i | 0 <= i < n ensures ValidTick(s, log, AfterTicks(s.path, c, ticks[..n][..i]), ticks[..n][i]) {
        assert ticks[..n][..i] == ticks[..i];
      }
      var before := TicksAreRun(s, log, c, ticks[..n], clean);
      var c1 := AfterTicks(s.path, c, ticks[..n]);
      var last := TickIsRun(s, log, c1, ticks[n], clean);
      RunsConcat(s, At(log, c, clean), before, At(log, c1, clean), last, At(log, AfterTicks(s.path, c, ticks), clean));
      actions := before + last;
    }
  }

  /** Any history, then one more poll session of the code: still a run, so at-least-once
      holds of what PollClient.Run leaves behind. */
  lemma SessionKeepsDelivery(s: Setup, start: World, history: seq<Action>, w: World, readable: bool, ticks: seq<Tick>)
    returns (actions: seq<Action>)
    requires ValidSetup(s) && Initial(s, start) && Runs(s, start, history, w) && w.phase.Down?
    requires ValidTicks(s, w.log, Client(ReadCursor(s.path, w.files, readable), w.files, w.received, w.acked), ticks)
    ensures var c := AfterTicks(s.path, Client(ReadCursor(s.path, w.files, readable), w.files, w.received, w.acked), ticks);
            && Runs(s, start, actions, At(w.log, c, readable))
            && (StartStream !in history ==> StartStream !in actions && Dedupe(c.received) <= Decode(w.log))
            && forall i | 0 <= i < |w.log| && w.log[i].WellFormed? && i < s.position(c.cursor) ::
                 w.log[i].event.id in c.acked
  {
    var c0 := Client(ReadCursor(s.path, w.files, readable), w.files, w.received, w.acked);
    RunsSnoc(s, start, history, w, StartPoll(readable));
    var session := TicksAreRun(s, w.log, c0, ticks, readable);
    var end := At(w.log, AfterTicks(s.path, c0, ticks), readable);
    RunsConcat(s, start, history + [StartPoll(readable)], At(w.log, c0, readable), session, end);
    actions := history + [StartPoll(readable)] + session;
    AtLeastOnce(s, start, actions, end);
    if StartStream !in history {
      ExactlyOnceAfterDedupe(s, start, actions, end);
    }
  }

  /** The session of one pod among others, against what the server shows it: whatever the
      pods did before, its ticks are moves of the fleet. */
  lemma SessionAmongOthers(s: Setup, f: Fleet.Fleet, p: nat, readable: bool, ticks: seq<Tick>)
    returns (moves: seq<Fleet.Move>)
    requires p < |f.pods| && f.pods[p].phase.Down?
    requires var w := Fleet.View(f, p);
             ValidTicks(s, w.log, Client(ReadCursor(s.path, w.files, readable), w.files, w.received, w.acked), ticks)
    ensures var w := Fleet.View(f, p);
            var c := Client(ReadCursor(s.path, w.files, readable), w.files, w.received, w.acked);
            Fleet.History(s, f, moves, Fleet.With(f, p, At(w.log, AfterTicks(s.path, c, ticks), readable)))
    ensures forall m, wants | m in moves :: Fleet.Agrees(m, wants)
  {
    var w := Fleet.View(f, p);
    var c := Client(ReadCursor(s.path, w.files, readable), w.files, w.received, w.acked);
    var session := TicksAreRun(s, w.log, c, ticks, readable);
    assert Runs(s, w, [], w);
    RunsSnoc(s, w, [], w, StartPoll(readable));
    RunsConcat(s, w, [] + [StartPoll(readable)], At(w.log, c, readable), session,
               At(w.log, AfterTicks(s.path, c, ticks), readable));
    var actions := [] + [StartPoll(readable)] + session;
    moves := Fleet.PodRuns(s, f, p, actions, At(w.log, AfterTicks(s.path, c, ticks), readable));
  }

  /** A stream connection of the code, with the events StreamOnce emits, is a run too:
      it moves the sink and nothing else. */
  lemma {:induction false} StreamIsRun(s: Setup, w: World, calls: seq<Event>, outcomes: seq<Outcome>)
    returns (actions: seq<Action>)
    requires w.phase.Streaming?
    ensures EndSession !in actions && Crash !in actions
    ensures Runs(s, w, actions, w.(received := Delivered(w.received, calls, outcomes),
                                   acked := Confirmed(w.acked, calls, outcomes)))
  {
    if calls == [] {
      actions := [];
      assert w.(received := w.received, acked := w.acked) == w;
    } else {
      var n := |calls| - 1;
      var before := StreamIsRun(s, w, calls[..n], outcomes);
      var mid := w.(received := Delivered(w.received, calls[..n], outcomes),
                    acked := Confirmed(w.acked, calls[..n], outcomes));
      RunsSnoc(s, w, before, mid, StreamEvent(calls[n], OutcomeAt(outcomes, n)));
      actions := before + [StreamEvent(calls[n], OutcomeAt(outcomes, n))];
    }
  }

  // ---------------------------------------------------------------------------
  // Draining a backlog
  // ---------------------------------------------------------------------------

  function Remaining(s: Setup, log: seq<Envelope>, c: Client): nat {
    if s.position(c.cursor) <= |log| then |log| - s.position(c.cursor) else 0
  }

  /** The tick fetches, every emit succeeds, and the server moves on while anything
      is left. Whether the cursor file can be written does not matter. */
  ghost predicate Successful(s: Setup, log: seq<Envelope>, c: Client, t: Tick) {
    && ValidTick(s, log, c, t)
    && t.response.Batch?
    && FirstFailure(t.outcomes, |Decode(t.response.raw)|) == |Decode(t.response.raw)|
    && (Remaining(s, log, c) > 0 ==> t.response.next != "" && s.position(t.response.next) > s.position(c.cursor))
  }

  ghost function Successes(s: Setup, log: seq<Envelope>, c: Client, ticks: seq<Tick>): nat {
    if ticks == [] then 0
    else
      var n := |ticks| - 1;
      Successes(s, log, c, ticks[..n]) + (if Successful(s, log, AfterTicks(s.path, c, ticks[..n]), ticks[n]) then 1 else 0)
  }

  /** Such a tick is one whose response holds the log from the cursor on, up to a cursor
      that is further, and whose events are all acknowledged. */
  lemma AcknowledgedTickSucceeds(s: Setup, log: seq<Envelope>, c: Client, t: Tick, upto: nat)
    requires t.response.Batch? && s.position(c.cursor) < upto <= |log|
    requires t.response.raw == log[s.position(c.cursor)..upto]
    requires t.response.next != "" && s.position(t.response.next) == upto
    requires forall i | 0 <= i < |Decode(t.response.raw)| :: i < |t.outcomes| && t.outcomes[i].Acked?
    ensures Successful(s, log, c, t)
  {
    assert Covers(s, log, c, t, upto);
    var k := FirstFailure(t.outcomes, |Decode(t.response.raw)|);
    assert k < |Decode(t.response.raw)| ==> OutcomeAt(t.outcomes, k).Acked?;
  }

  lemma TickDrains(s: Setup, log: seq<Envelope>, c: Client, t: Tick)
    requires s.position(c.cursor) <= |log| && ValidTick(s, log, c, t)
    ensures var c' := AfterTick(s.path, c, t);
            && s.position(c.cursor) <= s.position(c'.cursor) <= |log|
            && (Successful(s, log, c, t) && Remaining(s, log, c) > 0 ==> Remaining(s, log, c') < Remaining(s, log, c))
  {
  }

  /** A backlog of n envelopes is gone after n successful ticks, with any number of
      failed ones between them. */
  lemma {:induction false} Drains(s: Setup, log: seq<Envelope>, c: Client, ticks: seq<Tick>)
    requires s.position(c.cursor) <= |log| && ValidTicks(s, log, c, ticks)
    ensures s.position(AfterTicks(s.path, c, ticks).cursor) <= |log|
    ensures Remaining(s, log, AfterTicks(s.path, c, ticks)) + Successes(s, log, c, ticks) <= Remaining(s, log, c)
            || Remaining(s, log, AfterTicks(s.path, c, ticks)) == 0
  {
    if ticks != [] {
      var n := |ticks| - 1;
      forall i | 0 <= i < n ensures ValidTick(s, log, AfterTicks(s.path, c, ticks[..n][..i]), ticks[..n][i]) {
        assert ticks[..n][..i] == ticks[..i];
      }
      Drains(s, log, c, ticks[..n]);
      TickDrains(s, log, AfterTicks(s.path, c, ticks[..n]), ticks[n]);
    }
  }

  /** From any reachable state: once the session has had as many successful ticks as
      envelopes were left at its cursor, every event of the log is acknowledged. */
  lemma BacklogDelivered(s: Setup, start: World, history: seq<Action>, w: World, readable: bool, ticks: seq<Tick>)
    requires ValidSetup(s) && Initial(s, start) && Runs(s, start, history, w) && w.phase.Down?
    requires ValidTicks(s, w.log, Client(ReadCursor(s.path, w.files, readable), w.files, w.received, w.acked), ticks)
    requires var c := Client(ReadCursor(s.path, w.files, readable), w.files, w.received, w.acked);
             Successes(s, w.log, c, ticks) >= Remaining(s, w.log, c)
    ensures var c := AfterTicks(s.path, Client(ReadCursor(s.path, w.files, readable), w.files, w.received, w.acked), ticks);
            forall i | 0 <= i < |w.log| && w.log[i].WellFormed? :: w.log[i].event.id in c.acked
  {
    var c := Client(ReadCursor(s.path, w.files, readable), w.files, w.received, w.acked);
    AtLeastOnce(s, start, history, w);
    Drains(s, w.log, c, ticks);
    var actions := SessionKeepsDelivery(s, start, history, w, readable, ticks);
  }
}
