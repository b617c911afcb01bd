/** The shared informer factory (factory.go): one mutex, one WaitGroup, and threads
    that call Start, InformerFor, Shutdown and WaitForCacheSync in any interleaving,
    beside the goroutines Start launches. */
module InformerFactory {
  import opened Prelude

  type Kind = string

  /** A constructed informer: the how-manieth call of a constructor made it. */
  type Informer = nat

  /** What the mutex and the WaitGroup protect, and four histories: constructor calls,
      what InformerFor returned, launched goroutines, and finished ones. */
  datatype Shared = Shared(informers: map<Kind, Informer>, started: set<Kind>, shuttingDown: bool, wg: int,
                           built: multiset<Kind>, returned: set<(Kind, Informer)>,
                           launched: multiset<Kind>, running: multiset<Kind>, finished: nat)

  /** Where a thread stands. From Starting to Copying it holds the lock. */
  datatype Pc =
    | Outside
    | WantsStart | WantsInformer(wanted: Kind) | WantsShutdown | WantsSync
    | Starting | Looping(todo: set<Kind>) | Added(k: Kind, todo: set<Kind>) | Launched(k: Kind, todo: set<Kind>)
    | Looking(k: Kind) | Building(k: Kind) | Inserting(k: Kind, informer: Informer)
    | Flagging
    | Copying(todo: set<Kind>, copied: set<Kind>)
    | Draining
    | Syncing(waitFor: set<Kind>)

  /** `down` says that some call of Shutdown has returned. */
  datatype State = State(shared: Shared, lock: Option<nat>, threads: seq<Pc>, down: bool)

  predicate Holding(pc: Pc) {
    pc.Starting? || pc.Looping? || pc.Added? || pc.Launched? || pc.Looking? || pc.Building? || pc.Inserting?
    || pc.Flagging? || pc.Copying?
  }

  /** One step of thread `t`; `k` is the map entry a range loop comes to next, in an
      order Go leaves open. Finish is a goroutine's informer.Run returning and its
      deferred wg.Done. */
  datatype Action = Call(t: nat, wants: Pc) | Acquire(t: nat) | Advance(t: nat, k: Kind) | Finish(k: Kind)

  predicate Enabled(s: State, a: Action) {
    match a
    case Call(t, wants) =>
      t < |s.threads| && s.threads[t].Outside?
      && (wants.WantsStart? || wants.WantsInformer? || wants.WantsShutdown? || wants.WantsSync?)
    case Acquire(t) =>
      t < |s.threads| && s.lock.None?
      && (s.threads[t].WantsStart? || s.threads[t].WantsInformer? || s.threads[t].WantsShutdown? || s.threads[t].WantsSync?)
    case Advance(t, k) =>
      t < |s.threads|
      && (match s.threads[t]
          case Outside => false
          case WantsStart => false
          case WantsInformer(_) => false
          case WantsShutdown => false
          case WantsSync => false
          case Looping(todo) => todo == {} || k in todo
          case Copying(todo, _) => todo == {} || k in todo
          // wg.Wait returns only at zero.
          case Draining => s.shared.wg == 0
          case _ => true)
    case Finish(k) => k in s.shared.running
  }

  /** What the theorems leave to the scheduler: any thread that is outside may call, any
      that wants in may have the lock when it is free, and any running goroutine may
      finish. */
  lemma SchedulerIsFree(s: State, t: nat, k: Kind)
    requires t < |s.threads|
    ensures s.threads[t] == Outside ==>
              && Enabled(s, Call(t, WantsStart)) && Enabled(s, Call(t, WantsInformer(k)))
              && Enabled(s, Call(t, WantsShutdown)) && Enabled(s, Call(t, WantsSync))
    ensures s.threads[t] in {WantsStart, WantsInformer(k), WantsShutdown, WantsSync} && s.lock == None ==>
              Enabled(s, Acquire(t))
    ensures k in s.shared.running ==> Enabled(s, Finish(k))
  {
  }

  function Entered(pc: Pc, sh: Shared): Pc {
    match pc
    case WantsStart => Starting
    case WantsInformer(k) => Looking(k)
    case WantsShutdown => Flagging
    case _ => Copying(sh.informers.Keys, {})
  }

  /** The next statement of a thread, and whether it releases the lock after it. */
  function Execute(sh: Shared, pc: Pc, k: Kind): (r: (Shared, Pc, bool)) {
    match pc
    case Starting => if sh.shuttingDown then (sh, Outside, true) else (sh, Looping(sh.informers.Keys), false)
    case Looping(todo) =>
      if todo == {} then (sh, Outside, true)
      else if k in sh.started then (sh, Looping(todo - {k}), false)
      else (sh.(wg := sh.wg + 1), Added(k, todo - {k}), false)
    case Added(j, todo) =>
      (sh.(launched := sh.launched + multiset{j}, running := sh.running + multiset{j}), Launched(j, todo), false)
    case Launched(j, todo) => (sh.(started := sh.started + {j}), Looping(todo), false)
    case Looking(j) =>
      if j in sh.informers then (sh.(returned := sh.returned + {(j, sh.informers[j])}), Outside, true)
      else (sh, Building(j), false)
    case Building(j) => (sh.(built := sh.built + multiset{j}), Inserting(j, |sh.built|), false)
    case Inserting(j, informer) =>
      (sh.(informers := sh.informers[j := informer], returned := sh.returned + {(j, informer)}), Outside, true)
    case Flagging => (sh.(shuttingDown := true), Draining, true)
    case Copying(todo, copied) =>
      if todo == {} then (sh, Syncing(copied), true)
      else (sh, Copying(todo - {k}, if k in sh.started then copied + {k} else copied), false)
    case _ => (sh, Outside, false)
  }

  function Step(s: State, a: Action): State
    requires Enabled(s, a)
  {
    match a
    case Call(t, wants) => s.(threads := s.threads[t := wants])
    case Acquire(t) => s.(lock := Some(t), threads := s.threads[t := Entered(s.threads[t], s.shared)])
    case Advance(t, k) =>
      var (sh, pc, release) := Execute(s.shared, s.threads[t], k);
      State(sh, if release then None else s.lock, s.threads[t := pc], s.down || s.threads[t].Draining?)
    case Finish(k) =>
      s.(shared := s.shared.(running := s.shared.running - multiset{k}, wg := s.shared.wg - 1,
                             finished := s.shared.finished + 1))
  }

  predicate Runs(s: State, actions: seq<Action>, end: State)
    decreases |actions|
  {
    if actions == [] then s == end
    else Enabled(s, actions[0]) && Runs(Step(s, actions[0]), actions[1..], end)
  }

  predicate Initial(s: State) {
    && s.shared == Shared(map[], {}, false, 0, multiset{}, {}, multiset{}, multiset{}, 0)
    && s.lock == None && !s.down
    && forall t | 0 <= t < |s.threads| :: s.threads[t].Outside?
  }

  // ---------------------------------------------------------------------------
  // The invariant
  // ---------------------------------------------------------------------------

  function Holder(s: State): Pc {
    if s.lock.Some? && s.lock.value < |s.threads| then s.threads[s.lock.value] else Outside
  }

  /** One constructor call per registered type, and one answer for all time. */
  ghost predicate Registry(sh: Shared, pc: Pc) {
    && sh.built == multiset(if pc.Inserting? then sh.informers.Keys + {pc.k} else sh.informers.Keys)
    && (pc.Building? || pc.Inserting? ==> pc.k !in sh.informers)
    && Answers(sh.returned, sh.informers)
  }

  ghost predicate Answers(returned: set<(Kind, Informer)>, informers: map<Kind, Informer>) {
    forall r | r in returned :: r.0 in informers && informers[r.0] == r.1
  }

  /** One launch per started type, and the WaitGroup counts those not finished. */
  ghost predicate Counters(sh: Shared, pc: Pc) {
    && sh.launched == multiset(if pc.Launched? then sh.started + {pc.k} else sh.started)
    && (pc.Added? || pc.Launched? ==> pc.k !in sh.started)
    && sh.running <= sh.launched
    && |sh.launched| == |sh.running| + sh.finished
    && sh.wg == |sh.running| + (if pc.Added? then 1 else 0)
  }

  /** Start's loop skips nothing and does not run while shutting down; the copy of
      WaitForCacheSync holds what is started. */
  ghost predicate Loops(sh: Shared, pc: Pc) {
    && sh.started <= sh.informers.Keys
    && (pc.Added? || pc.Launched? ==> pc.k in sh.informers)
    && (pc.Looping? || pc.Added? || pc.Launched? ==> !sh.shuttingDown && pc.todo <= sh.informers.Keys)
    && (pc.Looping? ==> sh.informers.Keys <= sh.started + pc.todo)
    && (pc.Added? || pc.Launched? ==> sh.informers.Keys <= sh.started + pc.todo + {pc.k})
    && (pc.Copying? ==> pc.todo <= sh.informers.Keys && pc.copied == sh.started - pc.todo)
  }

  /** What the shared state satisfies while the lock's holder stands at pc. */
  ghost predicate Consistent(sh: Shared, pc: Pc) {
    Registry(sh, pc) && Counters(sh, pc) && Loops(sh, pc)
  }

  ghost predicate Invariant(s: State) {
    && Consistent(s.shared, Holder(s))
    && (s.lock.Some? ==> s.lock.value < |s.threads|)
    && (forall t | 0 <= t < |s.threads| :: Holding(s.threads[t]) <==> s.lock == Some(t))
    && (forall t | 0 <= t < |s.threads| :: s.threads[t].Draining? ==> s.shared.shuttingDown)
    && (s.down ==> s.shared.shuttingDown && s.shared.wg == 0)
  }

  /** The holder after a statement: none once it has released the lock. */
  function Next(sh: Shared, pc: Pc, k: Kind): (Shared, Pc) {
    var (sh', pc', release) := Execute(sh, pc, k);
    (sh', if release then Outside else pc')
  }

  predicate Comes(pc: Pc, k: Kind) {
    pc.Looping? || pc.Copying? ==> pc.todo == {} || k in pc.todo
  }

  lemma AddToMultiset(s: set<Kind>, k: Kind)
    requires k !in s
    ensures multiset(s + {k}) == multiset(s) + multiset{k}
  {
  }

  lemma AnswersAgain(returned: set<(Kind, Informer)>, informers: map<Kind, Informer>, k: Kind)
    requires Answers(returned, informers) && k in informers
    ensures Answers(returned + {(k, informers[k])}, informers)
  {
  }

  lemma AnswersNew(returned: set<(Kind, Informer)>, informers: map<Kind, Informer>, k: Kind, i: Informer)
    requires Answers(returned, informers) && k !in informers
    ensures Answers(returned + {(k, i)}, informers[k := i])
  {
  }

  lemma LookingRegistry(sh: Shared, pc: Pc, k: Kind)
    requires Registry(sh, pc) && pc.Looking?
    ensures var (sh', pc') := Next(sh, pc, k); Registry(sh', pc')
  {
    if pc.k in sh.informers {
      AnswersAgain(sh.returned, sh.informers, pc.k);
    }
  }

  lemma InsertingRegistry(sh: Shared, pc: Pc, k: Kind)
    requires Registry(sh, pc) && pc.Inserting?
    ensures var (sh', pc') := Next(sh, pc, k); Registry(sh', pc')
  {
    AnswersNew(sh.returned, sh.informers, pc.k, pc.informer);
    assert sh.informers[pc.k := pc.informer].Keys == sh.informers.Keys + {pc.k};
  }

  lemma BuildingRegistry(sh: Shared, pc: Pc, k: Kind)
    requires Registry(sh, pc) && pc.Building?
    ensures var (sh', pc') := Next(sh, pc, k); Registry(sh', pc')
  {
    AddToMultiset(sh.informers.Keys, pc.k);
  }

  lemma OtherRegistry(sh: Shared, pc: Pc, k: Kind)
    requires Registry(sh, pc) && !pc.Looking? && !pc.Inserting? && !pc.Building?
    ensures var (sh', pc') := Next(sh, pc, k); Registry(sh', pc')
  {
    var (sh', pc') := Next(sh, pc, k);
    assert sh'.built == sh.built && sh'.informers == sh.informers && sh'.returned == sh.returned;
    assert !pc'.Building? && !pc'.Inserting?;
  }

  lemma ExecuteRegistry(sh: Shared, pc: Pc, k: Kind)
    requires Registry(sh, pc)
    ensures var (sh', pc') := Next(sh, pc, k); Registry(sh', pc')
  {
    match pc
    case Looking(_) => LookingRegistry(sh, pc, k);
    case Inserting(_, _) => InsertingRegistry(sh, pc, k);
    case Building(_) => BuildingRegistry(sh, pc, k);
    case _ => OtherRegistry(sh, pc, k);
  }

  lemma LaunchCounters(sh: Shared, pc: Pc, k: Kind)
    requires Counters(sh, pc) && pc.Added?
    ensures var (sh', pc') := Next(sh, pc, k); Counters(sh', pc')
  {
    AddToMultiset(sh.started, pc.k);
  }

  lemma LoopCounters(sh: Shared, pc: Pc, k: Kind)
    requires Counters(sh, pc) && (pc.Looping? || pc.Launched?)
    ensures var (sh', pc') := Next(sh, pc, k); Counters(sh', pc')
  {
  }

  lemma ExecuteCounters(sh: Shared, pc: Pc, k: Kind)
    requires Counters(sh, pc) && Holding(pc) && Comes(pc, k)
    ensures var (sh', pc') := Next(sh, pc, k); Counters(sh', pc')
  {
    if pc.Added? {
      LaunchCounters(sh, pc, k);
    } else if pc.Looping? || pc.Launched? {
      LoopCounters(sh, pc, k);
    } else {
      var (sh', pc') := Next(sh, pc, k);
      assert sh'.wg == sh.wg && sh'.launched == sh.launched && sh'.running == sh.running && sh'.started == sh.started;
    }
  }

  lemma ExecuteLoops(sh: Shared, pc: Pc, k: Kind)
    requires Loops(sh, pc) && Holding(pc) && Comes(pc, k)
    ensures var (sh', pc') := Next(sh, pc, k); Loops(sh', pc')
  {
    match pc
    case Inserting(j, informer) => assert sh.informers[j := informer].Keys == sh.informers.Keys + {j};
    case _ =>
  }

  lemma ExecuteConsistent(sh: Shared, pc: Pc, k: Kind)
    requires Consistent(sh, pc) && Holding(pc) && Comes(pc, k)
    ensures var (sh', pc') := Next(sh, pc, k); Consistent(sh', pc')
  {
    ExecuteRegistry(sh, pc, k);
    ExecuteCounters(sh, pc, k);
    ExecuteLoops(sh, pc, k);
  }

  /** A thread gives up the lock exactly when it leaves its critical section, and once
      the factory is shutting down no statement launches or counts anything. */
  lemma ExecuteFrame(sh: Shared, pc: Pc, k: Kind)
    requires Loops(sh, pc) && Holding(pc)
    ensures var (sh', pc', release) := Execute(sh, pc, k);
            && (release <==> !Holding(pc'))
            && (sh.shuttingDown ==> sh'.shuttingDown && sh'.wg == sh.wg && sh'.launched == sh.launched && sh'.running == sh.running)
            && (pc'.Draining? ==> sh'.shuttingDown)
  {
  }

  lemma FinishConsistent(sh: Shared, pc: Pc, k: Kind)
    requires Consistent(sh, pc) && k in sh.running
    ensures Consistent(sh.(running := sh.running - multiset{k}, wg := sh.wg - 1, finished := sh.finished + 1), pc)
  {
    assert |sh.running - multiset{k}| == |sh.running| - 1;
  }

  lemma AdvanceInvariant(s: State, t: nat, k: Kind)
    requires Invariant(s) && Enabled(s, Advance(t, k))
    ensures Invariant(Step(s, Advance(t, k)))
  {
    var pc := s.threads[t];
    if Holding(pc) {
      assert s.lock == Some(t) && Holder(s) == pc;
      ExecuteConsistent(s.shared, pc, k);
      ExecuteFrame(s.shared, pc, k);
    }
  }

  lemma FinishInvariant(s: State, k: Kind)
    requires Invariant(s) && Enabled(s, Finish(k))
    ensures Invariant(Step(s, Finish(k)))
  {
    FinishConsistent(s.shared, Holder(s), k);
    assert s.shared.wg > 0;
  }

  lemma AcquireInvariant(s: State, t: nat)
    requires Invariant(s) && Enabled(s, Acquire(t))
    ensures Invariant(Step(s, Acquire(t)))
  {
    assert Holder(s) == Outside;
  }

  lemma StepInvariant(s: State, a: Action)
    requires Invariant(s) && Enabled(s, a)
    ensures Invariant(Step(s, a))
  {
    match a
    case Advance(t, k) => AdvanceInvariant(s, t, k);
    case Finish(k) => FinishInvariant(s, k);
    case Acquire(t) => AcquireInvariant(s, t);
    case Call(t, _) =>
  }

  lemma {:induction false} RunInvariant(s: State, actions: seq<Action>, end: State)
    requires Invariant(s) && Runs(s, actions, end)
    ensures Invariant(end)
    decreases |actions|
  {
    if actions != [] {
      StepInvariant(s, actions[0]);
      RunInvariant(Step(s, actions[0]), actions[1..], end);
    }
  }

  lemma Reachable(s: State, actions: seq<Action>, end: State)
    requires Initial(s) && Runs(s, actions, end)
    ensures Invariant(end)
  {
    RunInvariant(s, actions, end);
  }

  // ---------------------------------------------------------------------------
  // What callers can rely on, under any interleaving
  // ---------------------------------------------------------------------------

  /** The constructor of a type runs at most once, every InformerFor for it got the same
      informer, each type's informer is launched at most once, and the WaitGroup stands
      at what was launched and has not finished, plus the Add of a Start that is about
      to launch. */
  lemma OncePerType(s: State, actions: seq<Action>, end: State)
    requires Initial(s) && Runs(s, actions, end)
    ensures forall k :: end.shared.built[k] <= 1 && end.shared.launched[k] <= 1
    ensures forall r1, r2 | r1 in end.shared.returned && r2 in end.shared.returned && r1.0 == r2.0 :: r1 == r2
    ensures end.shared.wg == |end.shared.launched| - end.shared.finished + (if Holder(end).Added? then 1 else 0)
    ensures forall k | k in end.shared.launched :: k in end.shared.informers
  {
    Reachable(s, actions, end);
    var sh := end.shared;
    assert Registry(sh, Holder(end)) && Counters(sh, Holder(end)) && Loops(sh, Holder(end));
  }

  /** When Start leaves its loop, every informer registered so far has been launched. */
  lemma StartLaunchesAll(s: State, actions: seq<Action>, end: State, t: nat)
    requires Initial(s) && Runs(s, actions, end)
    requires t < |end.threads| && end.threads[t] == Looping({})
    ensures end.shared.started == end.shared.informers.Keys
    ensures forall k | k in end.shared.informers :: end.shared.launched[k] == 1
  {
    Reachable(s, actions, end);
    assert Holding(end.threads[t]) && Holder(end) == Looping({});
    assert Loops(end.shared, Looping({})) && Counters(end.shared, Looping({}));
  }

  /** WaitForCacheSync waits for exactly what was started when it took its copy. */
  lemma SyncCopiesStarted(s: State, actions: seq<Action>, end: State, t: nat)
    requires Initial(s) && Runs(s, actions, end)
    requires t < |end.threads| && end.threads[t].Copying? && end.threads[t].todo == {}
    ensures end.threads[t].copied == end.shared.started
  {
    Reachable(s, actions, end);
    assert Holding(end.threads[t]) && Holder(end) == end.threads[t];
    assert Loops(end.shared, end.threads[t]);
  }

  /** One step of a factory that is shutting down. */
  lemma ShutDownStep(s: State, a: Action)
    requires Invariant(s) && Enabled(s, a) && s.shared.shuttingDown
    ensures var s' := Step(s, a);
            && s'.shared.shuttingDown && s'.shared.launched == s.shared.launched
            && s'.shared.wg <= s.shared.wg && s'.shared.running <= s.shared.running && (s.down ==> s'.down)
  {
    if a.Advance? && Holding(s.threads[a.t]) {
      assert Holder(s) == s.threads[a.t];
      ExecuteFrame(s.shared, s.threads[a.t], a.k);
    }
  }

  /** From the moment some Shutdown has set the flag, nothing is launched and the
      counter never rises again, whatever the threads call. */
  lemma {:induction false} ShutDownForGood(s: State, actions: seq<Action>, end: State)
    requires Invariant(s) && s.shared.shuttingDown && Runs(s, actions, end)
    ensures end.shared.shuttingDown && end.shared.launched == s.shared.launched
    ensures end.shared.wg <= s.shared.wg && end.shared.running <= s.shared.running
    ensures s.down ==> end.down
    decreases |actions|
  {
    if actions != [] {
      ShutDownStep(s, actions[0]);
      StepInvariant(s, actions[0]);
      ShutDownForGood(Step(s, actions[0]), actions[1..], end);
    }
  }

  /** Once a Shutdown has returned no goroutine of the factory runs, then or ever. While
      one is still waiting, no thread is about to Add, which is what makes reusing the
      WaitGroup safe. */
  lemma ReturnedShutdownIsFinal(s: State, before: seq<Action>, mid: State, after: seq<Action>, end: State)
    requires Initial(s) && Runs(s, before, mid) && Runs(mid, after, end)
    ensures mid.down ==> end.shared.running == multiset{} && end.shared.wg == 0
                         && end.shared.launched == mid.shared.launched
    ensures (exists t | 0 <= t < |mid.threads| :: mid.threads[t].Draining?) ==>
              forall t | 0 <= t < |end.threads| :: !end.threads[t].Looping? && !end.threads[t].Added?
  {
    Reachable(s, before, mid);
    RunInvariant(mid, after, end);
    if mid.shared.shuttingDown {
      ShutDownForGood(mid, after, end);
      assert Loops(end.shared, Holder(end));
      forall t | 0 <= t < |end.threads| ensures !end.threads[t].Looping? && !end.threads[t].Added? {
        assert Holding(end.threads[t]) <==> end.lock == Some(t);
      }
    }
    if mid.down {
      assert Counters(end.shared, Holder(end));
      assert |end.shared.running| == 0;
    }
  }
}
