/** The generated reconciler around ReconcileKind (reconciler.go, state.go): who may
    reconcile, and writing the status back under conflicts. */
module StatusUpdate {
  import opened Prelude
  import opened ApiServer
  import AdapterDeployment
  import opened Lifecycle
  import opened SourceReconciler

  datatype StatusValue = StatusValue(conditions: Conditions, sinkUri: Option<string>, observedGeneration: int,
                                     attributes: seq<string>, deploymentName: string)

  /** A YipYapSource as the API server holds it. */
  datatype SourceObject = SourceObject(name: string, childName: string, spec: AdapterDeployment.SourceSpec,
                                       generation: int, deleting: bool, status: StatusValue)

  /** retry.DefaultRetry. */
  const STEPS: nat := 5

  /** What one attempt meets: the writes of others before its Get and between its read
      and its write, a Get that fails, and a write that is refused, or that is applied
      while its answer is lost. */
  datatype Attempt = Attempt(before: History<SourceObject>, getFails: bool, between: History<SourceObject>, putFault: Fault)

  /** What a call of UpdateStatus did to the history: others' writes, in order, and at
      most one of its own, the last, which is the version before it with the desired
      status and nothing else changed. */
  ghost predicate OnlyStatus(before: History<SourceObject>, after: History<SourceObject>, others: History<SourceObject>,
                             wrote: bool, desired: StatusValue)
  {
    if wrote
    then
      var h := before + others;
      Latest(h).Some? && after == h + [Some(Latest(h).value.item.(status := desired))]
    else after == before + others
  }

  /** What follows from that: every version that was there or that others wrote stays,
      and the spec and generation they last wrote are still the current ones. */
  lemma NothingLost(before: History<SourceObject>, after: History<SourceObject>, others: History<SourceObject>,
                    wrote: bool, desired: StatusValue)
    requires OnlyStatus(before, after, others, wrote, desired)
    ensures before + others <= after && |after| <= |before + others| + 1
    ensures Latest(after).Some? <==> Latest(before + others).Some?
    ensures Latest(after).Some? ==>
              Latest(after).value.item == Latest(before + others).value.item.(status := Latest(after).value.item.status)
  {
    if wrote {
      var h := before + others;
      assert after[|after| - 1] == Some(Latest(h).value.item.(status := desired));
    }
  }

  /** The write of one attempt: with the version that was read, or not at all. */
  method PutStatus(api: Store<SourceObject>, read: Versioned<SourceObject>, desired: StatusValue, fault: Fault)
    returns (err: Option<ApiError>, ghost wrote: bool)
    requires Genuine(api.history, read) && read.item.status != desired
    modifies api
    ensures OnlyStatus(old(api.history), api.history, [], wrote, desired)
    ensures err.None? ==> wrote
    ensures wrote ==> |api.history| == |old(api.history)| + 1 && api.history[|old(api.history)|].Some?
                      && api.history[|old(api.history)|].value.status == desired
    ensures !wrote ==> api.history == old(api.history)
    ensures err == Some(Conflict) ==> !wrote && |old(api.history)| > read.version + 1
    ensures err == Some(NotFound) ==> Latest(api.history).None?
    ensures err == Some(Failed) ==> !fault.Works?
    ensures err != Some(AlreadyExists)
  {
    wrote := false;
    ghost var h := api.history;
    assert h + [] == h;
    if fault.Refused? {
      return Some(Failed), false;
    }
    var r := api.Replace(read.(item := read.item.(status := desired)));
    if r.Err? {
      return Some(r.error), false;
    }
    ReplacedWhatWasRead(h, read, read.item.(status := desired));
    wrote := true;
    err := if fault.LostAnswer? then Some(Failed) else None;
  }

  lemma OthersConcat(before: History<SourceObject>, others: History<SourceObject>, more: History<SourceObject>)
    ensures (before + others) + more == before + (others + more)
  {
  }

  lemma OnlyStatusFrom(before: History<SourceObject>, others: History<SourceObject>, after: History<SourceObject>,
                       wrote: bool, desired: StatusValue)
    requires OnlyStatus(before + others, after, [], wrote, desired)
    ensures OnlyStatus(before, after, others, wrote, desired)
  {
    assert (before + others) + [] == before + others;
  }

  /** What an error from updateStatus takes: the object is gone, some call failed, or in
      every attempt others wrote between its read and its write; only the first may
      also have been given an old copy. */
  predicate Explained(err: ApiError, before: History<SourceObject>, after: History<SourceObject>, version: nat,
                      script: seq<Attempt>)
    requires |script| == STEPS
  {
    match err
    case NotFound => Latest(after).None?
    case Failed => exists a | 0 <= a < STEPS :: script[a].getFails || !script[a].putFault.Works?
    case Conflict => (script[0].between != [] || |before| > version + 1) && Contended(script, STEPS)
    case AlreadyExists => false
  }

  predicate Contended(script: seq<Attempt>, n: nat)
    requires n <= |script|
  {
    forall a | 1 <= a < n :: script[a].between != []
  }

  /** updateStatus. `carrier` is the version a nil return vouches for. */
  method UpdateStatus(api: Store<SourceObject>, original: Versioned<SourceObject>, desired: StatusValue,
                      script: seq<Attempt>)
    returns (err: Option<ApiError>, ghost others: History<SourceObject>, ghost wrote: bool, ghost carrier: nat)
    requires |script| == 5 && Genuine(api.history, original)
    modifies api
    ensures OnlyStatus(old(api.history), api.history, others, wrote, desired)
    ensures err.None? ==> carrier < |api.history| && api.history[carrier].Some?
                          && api.history[carrier].value.status == desired
    ensures err.None? && original.item.status != desired ==> carrier > original.version
    ensures original.item.status == desired ==> err.None? && !wrote && others == []
    ensures err.Some? ==> Explained(err.value, old(api.history), api.history, original.version, script)
    ensures err == Some(Conflict) ==> forall a | 1 <= a < 5 :: script[a].between != []
    ensures err == Some(Conflict) ==> script[0].between != [] || |old(api.history)| > original.version + 1
    ensures err == Some(NotFound) ==> Latest(api.history).None?
    ensures err == Some(Failed) ==> exists a | 0 <= a < 5 :: script[a].getFails || !script[a].putFault.Works?
    ensures err != Some(AlreadyExists)
  {
    others, wrote, carrier := [], false, 0;
    var existing := original;
    for attempts := 0 to STEPS
      invariant api.history == old(api.history) + others && !wrote
      invariant attempts == 0 ==> existing == original && others == []
      invariant attempts > 0 ==> original.item.status != desired && |api.history| > original.version + 1
      invariant attempts > 0 ==> script[0].between != [] || |old(api.history)| > original.version + 1
      invariant Contended(script, attempts)
    {
      if attempts > 0 {
        OthersConcat(old(api.history), others, script[attempts].before);
        api.Others(script[attempts].before);
        others := others + script[attempts].before;
        if script[attempts].getFails {
          return Some(Failed), others, false, carrier;
        }
        var got := api.Get();
        if got.None? {
          return Some(NotFound), others, false, carrier;
        }
        existing := got.value;
      }
      if existing.item.status == desired {
        return None, others, false, existing.version;
      }
      OthersConcat(old(api.history), others, script[attempts].between);
      api.Others(script[attempts].between);
      others := others + script[attempts].between;
      carrier := |api.history|;
      err, wrote := PutStatus(api, existing, desired, script[attempts].putFault);
      OnlyStatusFrom(old(api.history), others, api.history, wrote, desired);
      if err != Some(Conflict) {
        return;
      }
    }
    err := Some(Conflict);
  }

  // ---------------------------------------------------------------------------
  // Reconcile
  // ---------------------------------------------------------------------------

  datatype Work = DoReconcileKind | DoObserveKind | DoFinalizeKind | NoWork

  /** state.go: what there is to do for this replica and object. */
  function ReconcileMethodFor(deleting: bool, isLeader: bool, isObserver: bool, isFinalizer: bool): Work {
    if !deleting then if isLeader then DoReconcileKind else if isObserver then DoObserveKind else NoWork
    else if isLeader && isFinalizer then DoFinalizeKind else NoWork
  }

  const NEW_GENERATION: Detail := Detail("NewObservedGenFailure", "unsuccessfully observed a new generation")

  /** The conditions after the generated code's preparation: defaults are filled in, the
      conditions initialised, and a new generation resets Ready. */
  function Prepared(s: SourceObject): Conditions {
    var cs := Initialized(s.status.conditions);
    if s.status.observedGeneration == s.generation then cs else cs[Ready := ResetReady(cs, NEW_GENERATION)]
  }

  /** A status seen at another generation has its Ready reset, and what else is set stays. */
  lemma PreparedMeans(s: SourceObject, t: CondType)
    ensures t in Prepared(s)
    ensures t in s.status.conditions && (t != Ready || s.status.observedGeneration == s.generation) ==>
              Prepared(s)[t] == s.status.conditions[t]
    ensures s.status.observedGeneration != s.generation ==>
              && Prepared(s)[Ready].status != True
              && Prepared(s)[Ready].detail
                 == Detail("NewObservedGenFailure", "unsuccessfully observed a new generation")
  {
  }

  /** The status of a reconcile that ended so. */
  function FinalStatus(s: SourceObject, uri: Result<string, string>, known: seq<string>, e: Ending): StatusValue {
    StatusValue(ApplyAll(Initialized(Prepared(s)), MarksOf(if uri.Ok? then uri.value else "", e)),
                if uri.Ok? then Some(uri.value) else s.status.sinkUri,
                s.generation, known,
                if e.Done? then s.childName else s.status.deploymentName)
  }

  lemma FinalStatusMeans(s: SourceObject, uri: Result<string, string>, known: seq<string>, e: Ending)
    ensures var final := FinalStatus(s, uri, known, e);
            && final.observedGeneration == s.generation && final.attributes == known
            && final.sinkUri == (if uri.Ok? then Some(uri.value) else s.status.sinkUri)
            && final.deploymentName == (if e.Done? then s.childName else s.status.deploymentName)
            && final.conditions == ApplyAll(Initialized(Prepared(s)), MarksOf(if uri.Ok? then uri.value else "", e))
  {
  }

  /** What the lister answers for the key: an error, that there is no such source, or a
      copy of it. */
  datatype Listing = ListerFails | NotListed | Listed(copy: Versioned<SourceObject>)

  class ReconcilerImpl {
    const sources: Store<SourceObject>
    const reconciler: Reconciler

    constructor (sources: Store<SourceObject>, reconciler: Reconciler)
      ensures this.sources == sources && this.reconciler == reconciler
    {
      this.sources, this.reconciler := sources, reconciler;
    }

    /** The copy that is reconciled: the lister's, with defaults filled in, conditions
        initialised, and Ready reset on a new generation. */
    method Prepare(s: SourceObject) returns (src: YipYapSource)
      ensures fresh(src) && fresh(src.status)
      ensures src.name == s.name && src.childName == s.childName && src.generation == s.generation
      ensures src.spec == AdapterDeployment.Defaulted(s.spec)
      ensures src.status.conditions == Prepared(s) && src.status.sinkUri == s.status.sinkUri
      ensures src.attributes == s.status.attributes && src.deploymentName == s.status.deploymentName
    {
      var holder := new AdapterDeployment.SpecHolder(s.spec);
      holder.SetDefaults();
      var status := new SourceStatus();
      status.conditions, status.sinkUri := s.status.conditions, s.status.sinkUri;
      status.InitializeConditions();
      if s.status.observedGeneration != s.generation {
        status.MarkUnknown(Ready, NEW_GENERATION);
      }
      src := new YipYapSource(s.name, s.childName, holder.spec, s.generation, status, s.status.observedGeneration,
                              s.status.attributes, s.status.deploymentName);
    }

    /** Reconcile of one key, from what the lister has under it. The reconciler neither
        observes nor finalises, so a replica that is not the leader, a lister's error, and
        a source that is gone or being deleted cause no write at all. Otherwise the source's spec is
        defaulted in memory only, and the API server sees at most a status. */
    method Reconcile(isLeader: bool, original: Listing, uri: Result<string, string>, cache: Cache,
                     meanwhile: History<Deployment>, fault: Fault, error: string, script: seq<Attempt>)
      returns (ending: Option<Ending>, err: Option<ApiError>, ghost others: History<SourceObject>, ghost wrote: bool)
      requires sources as object != reconciler.deployments
      requires |script| == 5 && (original.Listed? ==> Genuine(sources.history, original.copy))
      modifies sources, reconciler.deployments
      ensures ending.None? ==>
                && err == (if isLeader && original.ListerFails? then Some(Failed) else None)
                && sources.history == old(sources.history)
                && reconciler.deployments.history == old(reconciler.deployments.history)
      ensures ending.Some? <==> isLeader && original.Listed? && !original.copy.item.deleting
      ensures ending.Some? ==>
                var s := original.copy.item;
                var final := FinalStatus(s, uri, reconciler.known, ending.value);
                && OnlyStatus(old(sources.history), sources.history, others, wrote, final)
                && (final == s.status ==> sources.history == old(sources.history) && err.None?)
                && (err.Some? ==> Explained(err.value, old(sources.history), sources.history, original.copy.version, script))
                && (err.None? && final != s.status ==> exists n | original.copy.version < n < |sources.history| ::
                      sources.history[n].Some? && sources.history[n].value.status == final)
      ensures ending.Some? && uri.Ok? && cache.Cached? ==>
                var s := original.copy.item;
                var expected := Rendered(reconciler.SiteOf(s.name), AdapterDeployment.Defaulted(s.spec), uri.value);
                reconciler.deployments.history
                == AfterReconcile(reconciler.admit, old(reconciler.deployments.history), cache.deployment, expected,
                                  meanwhile, fault)
      ensures ending.Some? && (uri.Err? || cache.CacheError?) ==>
                reconciler.deployments.history == old(reconciler.deployments.history)
    {
      ending, err, others, wrote := None, None, [], false;
      if !isLeader {
        return;
      }
      if original.ListerFails? {
        return None, Some(Failed), [], false;
      }
      if original.NotListed? {
        return;
      }
      var s := original.copy.item;
      if ReconcileMethodFor(s.deleting, isLeader, false, false).NoWork? {
        return;
      }
      var src := Prepare(s);
      var e := reconciler.ReconcileKind(src, uri, cache, meanwhile, fault, error);
      ending := Some(e);
      var final := StatusValue(src.status.conditions, src.status.sinkUri, s.generation, src.attributes,
                               src.deploymentName);
      assert final == FinalStatus(s, uri, reconciler.known, e);
      if s.status == final {
        return;
      }
      ghost var carrier;
      err, others, wrote, carrier := UpdateStatus(sources, original.copy, final, script);
    }
  }
}
