/** The critical sections of the factory's methods as code that changes its maps. Each
    one is, statement by statement, what a thread of the protocol in InformerFactory
    does between taking the lock and giving it back. */
module FactorySections {
  import opened InformerFactory

  /** A thread that runs alone through the statements ks picks the map entries for. */
  function Alone(sh: Shared, pc: Pc, ks: seq<Kind>): (Shared, Pc) {
    if ks == [] then (sh, pc)
    else
      var (sh', pc') := Alone(sh, pc, ks[..|ks| - 1]);
      var (after, at, release) := Execute(sh', pc', ks[|ks| - 1]);
      (after, at)
  }

  lemma AloneNext(sh: Shared, pc: Pc, ks: seq<Kind>, k: Kind)
    ensures var (sh', pc') := Alone(sh, pc, ks);
            Alone(sh, pc, ks + [k]) == (Execute(sh', pc', k).0, Execute(sh', pc', k).1)
  {
    assert (ks + [k])[..|ks|] == ks;
  }

  function WithLaunched(sh: Shared, k: Kind): Shared {
    if k in sh.started then sh
    else sh.(wg := sh.wg + 1, launched := sh.launched + multiset{k}, running := sh.running + multiset{k},
             started := sh.started + {k})
  }

  /** One turn of Start's loop: an informer that is not started takes three statements. */
  lemma AloneTurn(sh: Shared, pc: Pc, ks: seq<Kind>, mid: Shared, todo: set<Kind>, k: Kind) returns (more: seq<Kind>)
    requires Alone(sh, pc, ks) == (mid, Looping(todo)) && k in todo
    ensures Alone(sh, pc, more) == (WithLaunched(mid, k), Looping(todo - {k}))
  {
    AloneNext(sh, pc, ks, k);
    more := ks + [k];
    if k !in mid.started {
      AloneNext(sh, pc, more, k);
      more := more + [k];
      AloneNext(sh, pc, more, k);
      more := more + [k];
    }
  }

  function WithInformer(sh: Shared, k: Kind): Shared {
    if k in sh.informers then sh.(returned := sh.returned + {(k, sh.informers[k])})
    else sh.(informers := sh.informers[k := |sh.built|], built := sh.built + multiset{k},
             returned := sh.returned + {(k, |sh.built|)})
  }

  /** InformerFor takes one statement for a type it has, and three for a new one. */
  lemma AloneLookup(sh: Shared, k: Kind) returns (ks: seq<Kind>)
    ensures Alone(sh, Looking(k), ks) == (WithInformer(sh, k), Outside)
  {
    AloneNext(sh, Looking(k), [], k);
    ks := [] + [k];
    if k !in sh.informers {
      AloneNext(sh, Looking(k), ks, k);
      ks := ks + [k];
      AloneNext(sh, Looking(k), ks, k);
      ks := ks + [k];
    }
  }

  class SharedInformerFactory {
    var informers: map<Kind, Informer>
    var started: set<Kind>
    var shuttingDown: bool
    var wg: int
    var built: multiset<Kind>
    var returned: set<(Kind, Informer)>
    var launched: multiset<Kind>
    var running: multiset<Kind>
    var finished: nat

    function View(): Shared
      reads this
    {
      Shared(informers, started, shuttingDown, wg, built, returned, launched, running, finished)
    }

    constructor ()
      ensures View() == Shared(map[], {}, false, 0, multiset{}, {}, multiset{}, multiset{}, 0)
    {
      informers, started, shuttingDown, wg := map[], {}, false, 0;
      built, returned, launched, running, finished := multiset{}, {}, multiset{}, multiset{}, 0;
    }

    method LaunchUnlessStarted(k: Kind)
      modifies this
      ensures View() == WithLaunched(old(View()), k)
    {
      if k !in started {
        wg := wg + 1;
        launched, running := launched + multiset{k}, running + multiset{k};
        started := started + {k};
      }
    }

    method Start() returns (ghost ks: seq<Kind>)
      modifies this
      ensures Alone(old(View()), Starting, ks) == (View(), Outside)
      ensures informers == old(informers)
      ensures started == if old(shuttingDown) then old(started) else old(started) + informers.Keys
    {
      ghost var before := View();
      AloneNext(before, Starting, [], "");
      ks := [] + [""];
      if shuttingDown {
        return;
      }
      var todo := informers.Keys;
      while todo != {}
        invariant Alone(before, Starting, ks) == (View(), Looping(todo))
        invariant informers == before.informers && todo <= informers.Keys
        invariant started == before.started + (informers.Keys - todo)
      {
        var k :| k in todo;
        ks := AloneTurn(before, Starting, ks, View(), todo, k);
        LaunchUnlessStarted(k);
        todo := todo - {k};
      }
      AloneNext(before, Starting, ks, "");
      ks := ks + [""];
    }

    /** newFunc is called only for a type that has no informer yet. */
    method InformerFor(k: Kind) returns (informer: Informer, ghost ks: seq<Kind>)
      modifies this
      ensures Alone(old(View()), Looking(k), ks) == (View(), Outside)
      ensures k in informers && informer == informers[k] && (k, informer) in returned
      ensures k in old(informers) ==> informers == old(informers) && built == old(built)
      ensures k !in old(informers) ==> informers == old(informers)[k := informer] && built == old(built) + multiset{k}
    {
      ks := AloneLookup(View(), k);
      if k in informers {
        informer := informers[k];
        returned := returned + {(k, informer)};
        return;
      }
      informer := |built|;
      built := built + multiset{k};
      informers := informers[k := informer];
      returned := returned + {(k, informer)};
    }

    /** The locked part of Shutdown; what follows is wg.Wait. */
    method MarkShuttingDown()
      modifies this`shuttingDown
      ensures Alone(old(View()), Flagging, [""]) == (View(), Draining)
    {
      AloneNext(View(), Flagging, [], "");
      assert [] + [""] == [""];
      shuttingDown := true;
    }

    /** The locked part of WaitForCacheSync. */
    method CopyStarted() returns (copied: set<Kind>, ghost ks: seq<Kind>)
      requires started <= informers.Keys
      ensures copied == started
      ensures Alone(View(), Copying(informers.Keys, {}), ks) == (View(), Syncing(copied))
    {
      var todo := informers.Keys;
      copied, ks := {}, [];
      while todo != {}
        invariant Alone(View(), Copying(informers.Keys, {}), ks) == (View(), Copying(todo, copied))
        invariant todo <= informers.Keys && copied == started - todo
      {
        var k :| k in todo;
        AloneNext(View(), Copying(informers.Keys, {}), ks, k);
        ks := ks + [k];
        if k in started {
          copied := copied + {k};
        }
        todo := todo - {k};
      }
      AloneNext(View(), Copying(informers.Keys, {}), ks, "");
      ks := ks + [""];
    }
  }
}
