/** Any number of adapters at once. The Deployment sets no strategy, so a rollout starts a
    pod before it ends the one before; each has a cursor volume of its own, which is an
    EmptyDir and goes when the pod goes (deployment.go), and the event filters of the spec
    it was rendered from. They ask one server and send to one sink. */
module Fleet {
  import CursorFile
  import opened Delivery

  /** The event filters a pod sends with its queries. */
  type Filter = Event -> bool

  datatype Pod = Pod(wants: Filter, files: CursorFile.Files, phase: Phase)

  datatype Fleet = Fleet(log: seq<Envelope>, received: seq<Event>, acked: set<Id>, pods: seq<Pod>)

  /** The log as the server shows it under a filter: what does not match is left out, and
      cursors stand for the same positions. */
  function Shown(log: seq<Envelope>, wants: Filter): (shown: seq<Envelope>)
    ensures |shown| == |log|
  {
    if log == [] then []
    else
      var last := log[|log| - 1];
      Shown(log[..|log| - 1], wants) + [if last.WellFormed? && !wants(last.event) then Malformed else last]
  }

  lemma {:induction false} ShownAt(log: seq<Envelope>, wants: Filter, i: nat)
    requires i < |log|
    ensures Shown(log, wants)[i] == if log[i].WellFormed? && !wants(log[i].event) then Malformed else log[i]
  {
    if i < |log| - 1 {
      ShownAt(log[..|log| - 1], wants, i);
    }
  }

  lemma ShownDistinct(log: seq<Envelope>, wants: Filter)
    requires DistinctIds(log)
    ensures DistinctIds(Shown(log, wants))
  {
    forall i | 0 <= i < |log|
      ensures Shown(log, wants)[i].WellFormed? ==> log[i].WellFormed? && Shown(log, wants)[i] == log[i]
    {
      ShownAt(log, wants, i);
    }
  }

  lemma ShownNext(log: seq<Envelope>, e: Envelope, wants: Filter)
    ensures Shown(log, wants) <= Shown(log + [e], wants)
  {
    assert (log + [e])[..|log|] == log;
  }

  /** The world as one pod sees it. */
  function View(f: Fleet, p: nat): World
    requires p < |f.pods|
  {
    World(Shown(f.log, f.pods[p].wants), f.pods[p].files, f.received, f.acked, f.pods[p].phase)
  }

  function FreshPod(wants: Filter): Pod {
    Pod(wants, map[], Down)
  }

  /** The server gets an event, a pod takes a step, one is started, or one is replaced, its
      volume with it. */
  datatype Move =
    | Arrives(envelope: Envelope)
    | Acts(pod: nat, action: Action)
    | Started(wants: Filter)
    | Replaced(gone: nat, wants: Filter)

  ghost predicate Possible(s: Setup, f: Fleet, m: Move) {
    match m
    case Arrives(e) => DistinctIds(f.log + [e])
    case Acts(p, a) => p < |f.pods| && !a.Append? && Enabled(s, View(f, p), a)
    case Started(_) => true
    case Replaced(p, _) => p < |f.pods|
  }

  ghost function Moved(s: Setup, f: Fleet, m: Move): Fleet
    requires Possible(s, f, m)
  {
    match m
    case Arrives(e) => f.(log := f.log + [e])
    case Acts(p, a) => With(f, p, Step(s, View(f, p), a))
    case Started(wants) => f.(pods := f.pods + [FreshPod(wants)])
    case Replaced(p, wants) => f.(pods := f.pods[p := FreshPod(wants)])
  }

  /** The fleet with what this pod has made of it. */
  function With(f: Fleet, p: nat, w: World): Fleet
    requires p < |f.pods|
  {
    Fleet(f.log, w.received, w.acked, f.pods[p := Pod(f.pods[p].wants, w.files, w.phase)])
  }

  ghost predicate History(s: Setup, f: Fleet, moves: seq<Move>, end: Fleet)
    decreases |moves|
  {
    if moves == [] then f == end
    else Possible(s, f, moves[0]) && History(s, Moved(s, f, moves[0]), moves[1..], end)
  }

  lemma {:induction false} HistoryConcat(s: Setup, f: Fleet, a: seq<Move>, mid: Fleet, b: seq<Move>, end: Fleet)
    requires History(s, f, a, mid) && History(s, mid, b, end)
    ensures History(s, f, a + b, end)
    decreases |a|
  {
    if a == [] {
      assert a + b == b;
    } else {
      assert (a + b)[0] == a[0] && (a + b)[1..] == a[1..] + b;
      HistoryConcat(s, Moved(s, f, a[0]), a[1..], mid, b, end);
    }
  }

  /** Before the first pod. */
  ghost predicate Empty(f: Fleet) {
    DistinctIds(f.log) && f.received == [] && f.acked == {} && f.pods == []
  }

  // ---------------------------------------------------------------------------
  // What one pod does is safe for the others
  // ---------------------------------------------------------------------------

  /** The shared part has grown, and this pod has not moved. */
  ghost predicate Grown(w: World, w': World) {
    && w.log <= w'.log && w.acked <= w'.acked && DistinctIds(w'.log) && w'.acked <= Ids(w'.received)
    && w'.files == w.files && w'.phase == w.phase
  }

  lemma GrownSafe(s: Setup, w: World, w': World)
    requires Safe(s, w) && Grown(w, w')
    ensures Safe(s, w')
  {
    CoveredStays(w, w', DiskPosition(s, w.files));
    match w.phase
    case Down =>
    case Streaming =>
    case Waiting(cursor, _) => CoveredStays(w, w', s.position(cursor));
    case Emitting(cursor, _, _, upto, _, _) =>
      CoveredStays(w, w', s.position(cursor));
      assert w'.log[s.position(cursor)..upto] == w.log[s.position(cursor)..upto];
    case Persisting(cursor, _, before, _) =>
      CoveredStays(w, w', s.position(cursor));
      CoveredStays(w, w', DiskPosition(s, before));
  }

  lemma EventsBelowStays(log: seq<Envelope>, log': seq<Envelope>, n: nat)
    requires log <= log' && n <= |log|
    ensures EventsBelow(log', n) == EventsBelow(log, n)
  {
    assert log'[..n] == log[..n];
  }

  lemma GrownInStep(s: Setup, w: World, w': World)
    requires Safe(s, w) && InStep(s, w) && Grown(w, w')
    requires Dedupe(w.received) <= Dedupe(w'.received) <= Decode(w'.log)
    ensures InStep(s, w')
  {
    EventsBelowStays(w.log, w'.log, DiskPosition(s, w.files));
    match w.phase
    case Down =>
    case Waiting(cursor, _) => EventsBelowStays(w.log, w'.log, s.position(cursor));
    case Emitting(cursor, _, _, _, _, _) => EventsBelowStays(w.log, w'.log, s.position(cursor));
    case Persisting(cursor, _, before, _) =>
      EventsBelowStays(w.log, w'.log, s.position(cursor));
      EventsBelowStays(w.log, w'.log, DiskPosition(s, before));
  }

  /** A step only adds to the log, to what was acknowledged and to what was received. */
  lemma StepGrows(s: Setup, w: World, a: Action)
    requires Enabled(s, w, a)
    ensures var w' := Step(s, w, a); w.log <= w'.log && w.acked <= w'.acked && Dedupe(w.received) <= Dedupe(w'.received)
  {
    match a
    case Emit(o) => DedupeAppend(w.received, w.phase.batch[w.phase.sent]);
    case StreamEvent(e, o) => DedupeAppend(w.received, e);
    case _ =>
  }

  // ---------------------------------------------------------------------------
  // Every history
  // ---------------------------------------------------------------------------

  ghost predicate AllSafe(s: Setup, f: Fleet) {
    DistinctIds(f.log) && f.acked <= Ids(f.received) && forall p: nat | p < |f.pods| :: Safe(s, View(f, p))
  }

  /** All pods have this filter, and none has broken the order of what it shows. */
  ghost predicate AllInStep(s: Setup, f: Fleet, wants: Filter) {
    && Dedupe(f.received) <= Decode(Shown(f.log, wants))
    && forall p: nat | p < |f.pods| :: f.pods[p].wants == wants && InStep(s, View(f, p))
  }

  lemma ActsView(s: Setup, f: Fleet, p: nat, a: Action)
    requires Possible(s, f, Acts(p, a))
    ensures View(Moved(s, f, Acts(p, a)), p) == Step(s, View(f, p), a)
  {
    assert Step(s, View(f, p), a).log == View(f, p).log;
  }

  lemma ActsSafe(s: Setup, f: Fleet, p: nat, a: Action)
    requires ValidSetup(s) && AllSafe(s, f) && Possible(s, f, Acts(p, a))
    ensures AllSafe(s, Moved(s, f, Acts(p, a)))
    ensures forall q: nat | q < |f.pods| && q != p :: Grown(View(f, q), View(Moved(s, f, Acts(p, a)), q))
  {
    var f' := Moved(s, f, Acts(p, a));
    StepSafe(s, View(f, p), a);
    StepGrows(s, View(f, p), a);
    ActsView(s, f, p, a);
    forall q: nat | q < |f.pods| && q != p ensures Grown(View(f, q), View(f', q)) && Safe(s, View(f', q)) {
      ShownDistinct(f.log, f.pods[q].wants);
      GrownSafe(s, View(f, q), View(f', q));
    }
  }

  lemma ArrivesSafe(s: Setup, f: Fleet, e: Envelope)
    requires AllSafe(s, f) && DistinctIds(f.log + [e])
    ensures AllSafe(s, f.(log := f.log + [e]))
    ensures forall q: nat | q < |f.pods| :: Grown(View(f, q), View(f.(log := f.log + [e]), q))
  {
    var f' := f.(log := f.log + [e]);
    forall q: nat | q < |f.pods| ensures Grown(View(f, q), View(f', q)) && Safe(s, View(f', q)) {
      ShownNext(f.log, e, f.pods[q].wants);
      ShownDistinct(f'.log, f.pods[q].wants);
      GrownSafe(s, View(f, q), View(f', q));
    }
  }

  lemma FreshSafe(s: Setup, f: Fleet, p: nat, wants: Filter)
    requires ValidSetup(s) && DistinctIds(f.log) && f.acked <= Ids(f.received)
    requires p < |f.pods| && f.pods[p] == FreshPod(wants)
    ensures Safe(s, View(f, p))
    ensures Dedupe(f.received) <= Decode(Shown(f.log, wants)) ==> InStep(s, View(f, p))
  {
    ShownDistinct(f.log, wants);
    assert CursorFile.Register(s.path, FreshPod(wants).files).None?;
    assert View(f, p).log[..0] == [];
  }

  /** One fresh pod, all others as they were. */
  lemma FreshPods(s: Setup, f: Fleet, f': Fleet, p: nat, wants: Filter)
    requires ValidSetup(s) && AllSafe(s, f) && f' == f.(pods := f'.pods)
    requires p < |f'.pods| && f'.pods[p] == FreshPod(wants)
    requires forall q: nat | q < |f'.pods| && q != p :: q < |f.pods| && f'.pods[q] == f.pods[q]
    ensures AllSafe(s, f') && (AllInStep(s, f, wants) ==> AllInStep(s, f', wants))
  {
    FreshSafe(s, f', p, wants);
    forall q: nat | q < |f'.pods| && q != p ensures View(f', q) == View(f, q) {
    }
  }

  lemma MoveSafe(s: Setup, f: Fleet, m: Move)
    requires ValidSetup(s) && AllSafe(s, f) && Possible(s, f, m)
    ensures AllSafe(s, Moved(s, f, m))
  {
    var f' := Moved(s, f, m);
    match m
    case Arrives(e) => ArrivesSafe(s, f, e);
    case Acts(p, a) => ActsSafe(s, f, p, a);
    case Started(wants) => FreshPods(s, f, f', |f.pods|, wants);
    case Replaced(p, wants) => FreshPods(s, f, f', p, wants);
  }

  lemma StartedInStep(s: Setup, f: Fleet, wants: Filter)
    requires ValidSetup(s) && AllSafe(s, f) && AllInStep(s, f, wants)
    ensures AllInStep(s, Moved(s, f, Started(wants)), wants)
  {
    FreshPods(s, f, Moved(s, f, Started(wants)), |f.pods|, wants);
  }

  lemma ReplacedInStep(s: Setup, f: Fleet, p: nat, wants: Filter)
    requires ValidSetup(s) && AllSafe(s, f) && AllInStep(s, f, wants) && p < |f.pods|
    ensures AllInStep(s, Moved(s, f, Replaced(p, wants)), wants)
  {
    FreshPods(s, f, Moved(s, f, Replaced(p, wants)), p, wants);
  }

  lemma ArrivesInStep(s: Setup, f: Fleet, e: Envelope, wants: Filter)
    requires AllSafe(s, f) && AllInStep(s, f, wants) && DistinctIds(f.log + [e])
    ensures AllInStep(s, Moved(s, f, Arrives(e)), wants)
  {
    var f' := f.(log := f.log + [e]);
    ShownNext(f.log, e, wants);
    var shown, shown' := Shown(f.log, wants), Shown(f'.log, wants);
    assert shown'[..|shown|] == shown;
    DecodePrefix(shown', |shown|);
    ArrivesSafe(s, f, e);
    forall q: nat | q < |f.pods| ensures InStep(s, View(f', q)) {
      GrownInStep(s, View(f, q), View(f', q));
    }
  }

  lemma OtherInStep(s: Setup, f: Fleet, p: nat, a: Action, q: nat, wants: Filter)
    requires ValidSetup(s) && AllSafe(s, f) && AllInStep(s, f, wants) && Possible(s, f, Acts(p, a))
    requires q < |f.pods| && q != p && Dedupe(Moved(s, f, Acts(p, a)).received) <= Decode(Shown(f.log, wants))
    ensures InStep(s, View(Moved(s, f, Acts(p, a)), q))
  {
    var f' := Moved(s, f, Acts(p, a));
    StepGrows(s, View(f, p), a);
    ActsSafe(s, f, p, a);
    GrownInStep(s, View(f, q), View(f', q));
  }

  lemma ActsInStep(s: Setup, f: Fleet, p: nat, a: Action, wants: Filter)
    requires ValidSetup(s) && AllSafe(s, f) && AllInStep(s, f, wants) && Possible(s, f, Acts(p, a)) && a != StartStream
    ensures AllInStep(s, Moved(s, f, Acts(p, a)), wants)
  {
    var f' := Moved(s, f, Acts(p, a));
    StepInStep(s, View(f, p), a);
    ActsView(s, f, p, a);
    assert Dedupe(f'.received) <= Decode(Shown(f.log, wants));
    forall q: nat | q < |f'.pods| ensures f'.pods[q].wants == wants && InStep(s, View(f', q)) {
      if q != p {
        OtherInStep(s, f, p, a, q, wants);
      }
    }
  }

  /** The move keeps to this filter and to polling. */
  ghost predicate Agrees(m: Move, wants: Filter) {
    match m
    case Arrives(_) => true
    case Acts(_, a) => a != StartStream
    case Started(w) => w == wants
    case Replaced(_, w) => w == wants
  }

  lemma MoveInStep(s: Setup, f: Fleet, m: Move, wants: Filter)
    requires ValidSetup(s) && AllSafe(s, f) && AllInStep(s, f, wants) && Possible(s, f, m) && Agrees(m, wants)
    ensures AllInStep(s, Moved(s, f, m), wants)
  {
    match m
    case Arrives(e) => ArrivesInStep(s, f, e, wants);
    case Acts(p, a) => ActsInStep(s, f, p, a, wants);
    case Started(_) => StartedInStep(s, f, wants);
    case Replaced(p, _) => ReplacedInStep(s, f, p, wants);
  }

  lemma {:induction false} HistorySafe(s: Setup, f: Fleet, moves: seq<Move>, end: Fleet)
    requires ValidSetup(s) && AllSafe(s, f) && History(s, f, moves, end)
    ensures AllSafe(s, end)
    decreases |moves|
  {
    if moves != [] {
      MoveSafe(s, f, moves[0]);
      HistorySafe(s, Moved(s, f, moves[0]), moves[1..], end);
    }
  }

  lemma {:induction false} HistoryInStep(s: Setup, f: Fleet, moves: seq<Move>, end: Fleet, wants: Filter)
    requires ValidSetup(s) && AllSafe(s, f) && AllInStep(s, f, wants) && History(s, f, moves, end)
    requires forall m | m in moves :: Agrees(m, wants)
    ensures AllInStep(s, end, wants)
    decreases |moves|
  {
    if moves != [] {
      assert moves[0] in moves;
      MoveSafe(s, f, moves[0]);
      MoveInStep(s, f, moves[0], wants);
      HistoryInStep(s, Moved(s, f, moves[0]), moves[1..], end, wants);
    }
  }

  /** At-least-once for any number of pods, started, replaced and rolled over at will, in
      either mode and with filters of their own: whatever a pod's filter shows below its
      cursor, in memory or on disk, reached the sink and was acknowledged. */
  lemma AtLeastOnce(s: Setup, start: Fleet, moves: seq<Move>, f: Fleet, p: nat)
    requires ValidSetup(s) && Empty(start) && History(s, start, moves, f) && p < |f.pods|
    ensures MemoryPosition(s, View(f, p)) <= |f.log| && DiskPosition(s, f.pods[p].files) <= |f.log|
    ensures forall i | 0 <= i < |f.log| && f.log[i].WellFormed? && f.pods[p].wants(f.log[i].event)
              && (i < MemoryPosition(s, View(f, p)) || i < DiskPosition(s, f.pods[p].files)) ::
              f.log[i].event.id in f.acked && f.log[i].event.id in Ids(f.received)
  {
    HistorySafe(s, start, moves, f);
    SafeMeans(s, View(f, p));
    forall i | 0 <= i < |f.log| && f.log[i].WellFormed? && f.pods[p].wants(f.log[i].event)
      ensures View(f, p).log[i] == f.log[i]
    {
      ShownAt(f.log, f.pods[p].wants, i);
    }
  }

  /** Exactly-once after deduplication for any number of pods that poll with one filter,
      each from its own cursor and with its own crashes and lost volumes: the first
      occurrences in the sink's log are the server's well-formed events under that filter,
      in order and without a gap, at least as far as any cursor. */
  lemma ExactlyOnceAfterDedupe(s: Setup, start: Fleet, moves: seq<Move>, f: Fleet, wants: Filter)
    requires ValidSetup(s) && Empty(start) && History(s, start, moves, f)
    requires forall m | m in moves :: Agrees(m, wants)
    ensures Dedupe(f.received) <= Decode(Shown(f.log, wants))
    ensures forall p: nat | p < |f.pods| ::
              && MemoryPosition(s, View(f, p)) <= |f.log| && DiskPosition(s, f.pods[p].files) <= |f.log|
              && Decode(Shown(f.log, wants)[..MemoryPosition(s, View(f, p))]) <= Dedupe(f.received)
              && Decode(Shown(f.log, wants)[..DiskPosition(s, f.pods[p].files)]) <= Dedupe(f.received)
  {
    HistorySafe(s, start, moves, f);
    HistoryInStep(s, start, moves, f, wants);
    forall p: nat | p < |f.pods|
      ensures MemoryPosition(s, View(f, p)) <= |f.log| && DiskPosition(s, f.pods[p].files) <= |f.log|
      ensures Decode(Shown(f.log, wants)[..MemoryPosition(s, View(f, p))]) <= Dedupe(f.received)
      ensures Decode(Shown(f.log, wants)[..DiskPosition(s, f.pods[p].files)]) <= Dedupe(f.received)
    {
      InStepMeans(s, View(f, p));
    }
  }

  /** What one pod alone may do, it may do among others: its runs, and so the sessions of
      PollClient.Run, are parts of a history. */
  lemma {:induction false} PodRuns(s: Setup, f: Fleet, p: nat, actions: seq<Action>, w: World)
    returns (moves: seq<Move>)
    requires p < |f.pods| && Runs(s, View(f, p), actions, w) && forall a | a in actions :: !a.Append?
    ensures History(s, f, moves, With(f, p, w))
    ensures StartStream !in actions ==> forall m, wants | m in moves :: Agrees(m, wants)
    decreases |actions|
  {
    if actions == [] {
      moves := [];
      assert f.pods[p := f.pods[p]] == f.pods;
    } else {
      assert actions[0] in actions;
      var m := Acts(p, actions[0]);
      var next := Moved(s, f, m);
      ActsView(s, f, p, actions[0]);
      var rest := PodRuns(s, next, p, actions[1..], w);
      moves := [m] + rest;
      assert With(next, p, w).pods == With(f, p, w).pods;
      assert moves[0] == m && moves[1..] == rest;
    }
  }

  lemma FirstDelivered(s: Setup, w: World) returns (actions: seq<Action>, end: World)
    requires ValidSetup(s) && w.phase.Down? && Decode(w.log) != []
    ensures Runs(s, w, actions, end) && end.received == w.received + [Decode(w.log)[0]]
    ensures forall a | a in actions :: !a.Append?
  {
    var start, fetch, emit := StartPoll(false), Fetched("", |w.log|), Emit(Acked);
    var waiting := Step(s, w, start);
    assert w.log[0..|w.log|] == w.log;
    var emitting := Step(s, waiting, fetch);
    end := Step(s, emitting, emit);
    assert Runs(s, end, [], end);
    assert [emit][1..] == [];
    assert Runs(s, emitting, [emit], end);
    assert [fetch, emit][1..] == [emit];
    assert Runs(s, waiting, [fetch, emit], end);
    actions := [start, fetch, emit];
    assert actions[1..] == [fetch, emit];
  }

  /** A pod that starts and polls has the first event its filter shows delivered. */
  lemma FirstShownDelivered(s: Setup, f: Fleet, wants: Filter) returns (moves: seq<Move>, end: Fleet)
    requires ValidSetup(s) && Decode(Shown(f.log, wants)) != []
    ensures History(s, f, moves, end) && end.log == f.log
    ensures end.received == f.received + [Decode(Shown(f.log, wants))[0]]
  {
    var next := Moved(s, f, Started(wants));
    var actions, w := FirstDelivered(s, View(next, |f.pods|));
    var rest := PodRuns(s, next, |f.pods|, actions, w);
    moves, end := [Started(wants)] + rest, With(next, |f.pods|, w);
    assert moves[0] == Started(wants) && moves[1..] == rest;
  }

  lemma DecodeLast(e: Envelope, last: Event)
    ensures Decode([e, WellFormed(last)]) == if e.WellFormed? then [e.event, last] else [last]
  {
    var raw := [e, WellFormed(last)];
    assert raw[..1] == [e] && [e][..0] == [];
    assert Decode([e]) == if e.WellFormed? then [e.event] else [];
  }

  lemma ShownTwo(first: Event, second: Event, wants: Filter)
    requires wants(second)
    ensures Decode(Shown([WellFormed(first), WellFormed(second)], wants))
            == if wants(first) then [first, second] else [second]
  {
    var log := [WellFormed(first), WellFormed(second)];
    var e := if wants(first) then WellFormed(first) else Malformed;
    ShownAt(log, wants, 0);
    ShownAt(log, wants, 1);
    assert Shown(log, wants) == [e, WellFormed(second)];
    DecodeLast(e, second);
  }

  lemma DedupeTwo(a: Event, b: Event)
    requires a.id != b.id
    ensures Dedupe([a, b]) == [a, b]
  {
    assert [a, b][..1] == [a] && [a][..0] == [];
    assert Dedupe([a]) == [a] && Ids([a]) == {a.id};
  }

  lemma BothDelivered(s: Setup, start: Fleet, first: Event, second: Event, narrow: Filter, wide: Filter)
    returns (moves: seq<Move>, f: Fleet)
    requires ValidSetup(s) && start == Fleet([WellFormed(first), WellFormed(second)], [], {}, [])
    requires !narrow(first) && narrow(second) && wide(first) && wide(second)
    ensures History(s, start, moves, f) && f.log == start.log && f.received == [second, first]
  {
    ShownTwo(first, second, narrow);
    ShownTwo(first, second, wide);
    var before, mid := FirstShownDelivered(s, start, narrow);
    var after, end := FirstShownDelivered(s, mid, wide);
    HistoryConcat(s, start, before, mid, after, end);
    moves, f := before + after, end;
  }

  /** One filter is needed: a rollout that widens it can deliver an earlier event after a
      later one, and then the sink has neither the old order nor the new one. */
  lemma FiltersDisagree(s: Setup, first: Event, second: Event, narrow: Filter, wide: Filter)
    returns (start: Fleet, moves: seq<Move>, f: Fleet)
    requires ValidSetup(s) && first.id != second.id
    requires !narrow(first) && narrow(second) && wide(first) && wide(second)
    ensures Empty(start) && History(s, start, moves, f)
    ensures !(Dedupe(f.received) <= Decode(Shown(f.log, narrow))) && !(Dedupe(f.received) <= Decode(Shown(f.log, wide)))
  {
    start := Fleet([WellFormed(first), WellFormed(second)], [], {}, []);
    moves, f := BothDelivered(s, start, first, second, narrow, wide);
    DedupeTwo(second, first);
    ShownTwo(first, second, narrow);
    ShownTwo(first, second, wide);
    assert [second, first][0] != [first, second][0];
  }
}
