/** The controller's own reconcile step (yipyapsource.go): render the adapter Deployment,
    create or replace it from a cache that may lag, and surface its availability. */
module SourceReconciler {
  import opened Prelude
  import opened ApiServer
  import AdapterConfig
  import AdapterDeployment
  import opened Lifecycle

  /** A condition of the Deployment's status: of type Available, or of another type. */
  datatype DeploymentCondition = DeploymentCondition(isAvailable: bool, status: Truth, detail: Detail)

  /** `rest` is every other field: metadata, selector, strategy, what others set. */
  datatype Deployment = Deployment(template: AdapterDeployment.Template, replicas: int, rest: string,
                                   conditions: seq<DeploymentCondition>)

  /** The server may fill in template fields the controller left out. */
  type Admission = AdapterDeployment.Template -> AdapterDeployment.Template

  function Admitted(admit: Admission, d: Deployment): Deployment {
    d.(template := admit(d.template))
  }

  datatype Decision = CreateIt | Overwrite(v: Versioned<Deployment>) | Keep

  /** What the switch decides from the lister's answer. */
  function Decide(cached: Option<Versioned<Deployment>>, expected: Deployment): Decision {
    match cached
    case None => CreateIt
    case Some(v) =>
      if expected.template != v.item.template || expected.replicas != v.item.replicas
      then Overwrite(v.(item := v.item.(template := expected.template, replicas := expected.replicas)))
      else Keep
  }

  /** The call the decision leads to, at the server. */
  function Written(admit: Admission, h: History<Deployment>, cached: Option<Versioned<Deployment>>, expected: Deployment)
    : (r: (History<Deployment>, Result<Versioned<Deployment>, ApiError>))
    ensures r.0 == h || (|r.0| == |h| + 1 && r.0[..|h|] == h)
  {
    match Decide(cached, expected)
    case CreateIt => Created(h, Admitted(admit, expected))
    case Overwrite(v) => Replaced(h, v.(item := Admitted(admit, v.item)))
    case Keep => (h, Ok(cached.value))
  }

  // ---------------------------------------------------------------------------
  // Safety with a lagging cache and other writers
  // ---------------------------------------------------------------------------

  /** One source and its controller: the source's name, the image and the library calls
      its Deployment is rendered with, and the server's defaulting. */
  datatype Site = Site(name: string, image: string, lib: AdapterConfig.Library, admit: Admission)

  /** The Deployment a source asks for: one replica, owned by the source. */
  function Rendered(site: Site, spec: AdapterDeployment.SourceSpec, uri: string): Deployment {
    Deployment(AdapterDeployment.RenderTemplate(site.name, spec, uri, site.image, site.lib), 1, "owned by " + site.name, [])
  }

  lemma RenderedMeans(site: Site, spec: AdapterDeployment.SourceSpec, uri: string)
    ensures var d := Rendered(site, spec, uri);
            && d.replicas == 1 && d.conditions == []
            && d.template == AdapterDeployment.RenderTemplate(site.name, spec, uri, site.image, site.lib)
  {
  }

  type Seen = Option<Versioned<Deployment>>

  /** Who made a version: others, or a reconcile that had read the Deployment `cached`, the
      spec and the sink's URI. */
  datatype Author = Others | Controller(cached: Seen, spec: AdapterDeployment.SourceSpec, uri: string)

  datatype World = World(history: History<Deployment>, authors: seq<Author>)

  /** Others write anything. A reconcile calls the server with what some read, however
      long ago, had shown it; any number of reconciles may be in flight. */
  datatype Action =
    | External(write: Option<Deployment>)
    | Call(cached: Seen, spec: AdapterDeployment.SourceSpec, uri: string)

  ghost predicate Enabled(w: World, a: Action) {
    a.Call? && a.cached.Some? ==> Genuine(w.history, a.cached.value)
  }

  ghost function Step(site: Site, w: World, a: Action): World
    requires Enabled(w, a)
  {
    match a
    case External(write) => World(w.history + [write], w.authors + [Others])
    case Call(cached, spec, uri) =>
      var h := Written(site.admit, w.history, cached, Rendered(site, spec, uri)).0;
      World(h, if h == w.history then w.authors else w.authors + [Controller(cached, spec, uri)])
  }

  ghost predicate Runs(site: Site, w: World, actions: seq<Action>, end: World)
    decreases |actions|
  {
    if actions == [] then w == end
    else Enabled(w, actions[0]) && Runs(site, Step(site, w, actions[0]), actions[1..], end)
  }

  /** A version by the controller was made in one of two safe ways: over nothing, or over
      exactly the version it had read, keeping everything but the template and the
      replicas, which are the rendered ones. */
  ghost predicate MadeSafely(admit: Admission, h: History<Deployment>, n: nat, cached: Seen, expected: Deployment)
    requires n < |h|
  {
    match cached
    case None => (n == 0 || h[n - 1] == None) && h[n] == Some(Admitted(admit, expected))
    case Some(v) =>
      && v.version == n - 1 && h[v.version] == Some(v.item)
      && h[n] == Some(Admitted(admit, v.item.(template := expected.template, replicas := expected.replicas)))
  }

  /** What was rendered is the rendering of what that reconcile read. */
  ghost predicate SafeVersion(site: Site, w: World, n: nat)
    requires n < |w.history| == |w.authors|
  {
    w.authors[n].Controller? ==>
      MadeSafely(site.admit, w.history, n, w.authors[n].cached, Rendered(site, w.authors[n].spec, w.authors[n].uri))
  }

  ghost predicate Safe(site: Site, w: World) {
    |w.history| == |w.authors| && forall n: nat | n < |w.history| :: SafeVersion(site, w, n)
  }

  lemma WrittenSafely(admit: Admission, h: History<Deployment>, cached: Seen, expected: Deployment)
    requires cached.Some? ==> Genuine(h, cached.value)
    ensures var h' := Written(admit, h, cached, expected).0;
            h' != h ==> |h'| == |h| + 1 && h'[..|h|] == h && MadeSafely(admit, h', |h|, cached, expected)
  {
    var h' := Written(admit, h, cached, expected).0;
    if h' != h && cached.Some? {
      var v := cached.value;
      assert h'[..|h|][v.version] == h[v.version];
      ReplacedWhatWasRead(h, v, Admitted(admit, v.item.(template := expected.template, replicas := expected.replicas)));
    }
  }

  /** A version stays safely made however the history goes on. */
  lemma SafeStays(site: Site, w: World, w': World, n: nat)
    requires n < |w.history| == |w.authors| && |w'.history| == |w'.authors| && SafeVersion(site, w, n)
    requires w.history <= w'.history && w.authors <= w'.authors
    ensures SafeVersion(site, w', n)
  {
  }

  lemma StepSafe(site: Site, w: World, a: Action)
    requires Safe(site, w) && Enabled(w, a)
    ensures Safe(site, Step(site, w, a))
    ensures w.history <= Step(site, w, a).history && w.authors <= Step(site, w, a).authors
  {
    var w' := Step(site, w, a);
    if a.Call? {
      WrittenSafely(site.admit, w.history, a.cached, Rendered(site, a.spec, a.uri));
    }
    forall n: nat | n < |w'.history| ensures SafeVersion(site, w', n) {
      if n < |w.history| {
        SafeStays(site, w, w', n);
      }
    }
  }

  /** Stale-cache safety, over every interleaving of reconciles with caches of any age
      and other writers: the history only grows, so no write of others is lost, and
      every version the controller made is a safe one, with the template rendered from
      the spec that reconcile read. */
  lemma {:induction false} StaleCacheSafety(site: Site, w: World, actions: seq<Action>, end: World)
    requires Safe(site, w) && Runs(site, w, actions, end)
    ensures Safe(site, end) && w.history <= end.history && w.authors <= end.authors
    decreases |actions|
  {
    if actions != [] {
      StepSafe(site, w, actions[0]);
      StaleCacheSafety(site, Step(site, w, actions[0]), actions[1..], end);
    }
  }

  /** The Deployment's history after a reconcile, `meanwhile` being what others write before
      the call reaches the server. */
  function AfterReconcile(admit: Admission, h: History<Deployment>, cached: Seen, expected: Deployment,
                          meanwhile: History<Deployment>, fault: Fault): History<Deployment>
  {
    if Decide(cached, expected).Keep? then h
    else if fault.Refused? then h + meanwhile
    else Written(admit, h + meanwhile, cached, expected).0
  }

  lemma {:induction false} ExternalsRun(site: Site, w: World, writes: History<Deployment>, last: seq<Action>, end: World)
    returns (actions: seq<Action>)
    requires Runs(site, World(w.history + writes, w.authors + seq(|writes|, _ => Others)), last, end)
    ensures Runs(site, w, actions, end)
    ensures forall a | a in actions :: a.External? || a in last
    decreases |writes|
  {
    if writes == [] {
      assert w.history + writes == w.history && w.authors + seq(|writes|, _ => Others) == w.authors;
      actions := last;
    } else {
      var first := External(writes[0]);
      var next := Step(site, w, first);
      assert next.history + writes[1..] == w.history + writes;
      assert next.authors + seq(|writes[1..]|, _ => Others) == w.authors + seq(|writes|, _ => Others);
      var rest := ExternalsRun(site, next, writes[1..], last, end);
      actions := [first] + rest;
      assert actions[0] == first && actions[1..] == rest;
    }
  }

  /** A reconcile of the code is a run of this system: the writes of others, and at most one
      call, with what it had read. */
  lemma ReconcileIsRun(site: Site, w: World, cached: Seen, spec: AdapterDeployment.SourceSpec, uri: string,
                       meanwhile: History<Deployment>, fault: Fault)
    returns (actions: seq<Action>, end: World)
    requires cached.Some? ==> Genuine(w.history, cached.value)
    ensures Runs(site, w, actions, end)
    ensures end.history == AfterReconcile(site.admit, w.history, cached, Rendered(site, spec, uri), meanwhile, fault)
    ensures forall a | a in actions :: a.External? || a == Call(cached, spec, uri)
  {
    var expected := Rendered(site, spec, uri);
    if Decide(cached, expected).Keep? {
      actions, end := [], w;
    } else {
      var mid := World(w.history + meanwhile, w.authors + seq(|meanwhile|, _ => Others));
      var last: seq<Action> := [];
      end := mid;
      if !fault.Refused? {
        last := [Call(cached, spec, uri)];
        end := Step(site, mid, last[0]);
        assert last[1..] == [];
      }
      assert Runs(site, end, [], end);
      assert Runs(site, mid, last, end);
      actions := ExternalsRun(site, w, meanwhile, last, end);
    }
  }

  // ---------------------------------------------------------------------------
  // Convergence with a fresh cache
  // ---------------------------------------------------------------------------

  /** One reconcile whose cache is up to date always succeeds. The Deployment then has
      the rendered replicas and, as the server admits it, the rendered template; an
      existing one keeps every other field. */
  lemma FreshReconcile(admit: Admission, h: History<Deployment>, expected: Deployment)
    ensures var (h', r) := Written(admit, h, Latest(h), expected);
            && r.Ok? && Latest(h') == Some(r.value)
            && r.value.item.replicas == expected.replicas
            && r.value.item.template == (if Decide(Latest(h), expected).Keep? then expected.template else admit(expected.template))
            && (Latest(h).Some? ==> r.value.item.rest == Latest(h).value.item.rest
                                    && r.value.item.conditions == Latest(h).value.item.conditions)
            && (Latest(h).None? ==> r.value.item.rest == expected.rest)
  {
  }

  /** How many of the next n reconciles of the same spec call the server to write. */
  function Calls(admit: Admission, h: History<Deployment>, expected: Deployment, n: nat): nat
    decreases n
  {
    if n == 0 then 0
    else (if Decide(Latest(h), expected).Keep? then 0 else 1)
         + Calls(admit, Written(admit, h, Latest(h), expected).0, expected, n - 1)
  }

  /** After one reconcile the controller is quiet for good if and only if the server
      admits the rendered template as it is; otherwise every reconcile writes again. */
  lemma {:induction false} QuietIffAdmittedUnchanged(admit: Admission, h: History<Deployment>, expected: Deployment, n: nat)
    requires Latest(h).Some? && Latest(h).value.item.replicas == expected.replicas
    requires Latest(h).value.item.template in {expected.template, admit(expected.template)}
    ensures Calls(admit, h, expected, n) == if Latest(h).value.item.template == expected.template then 0 else n
  {
    if n > 0 {
      FreshReconcile(admit, h, expected);
      QuietIffAdmittedUnchanged(admit, Written(admit, h, Latest(h), expected).0, expected, n - 1);
    }
  }

  lemma Convergence(admit: Admission, h: History<Deployment>, expected: Deployment, n: nat)
    requires !Decide(Latest(h), expected).Keep?
    ensures var h' := Written(admit, h, Latest(h), expected).0;
            Calls(admit, h', expected, n) == if admit(expected.template) == expected.template then 0 else n
  {
    FreshReconcile(admit, h, expected);
    QuietIffAdmittedUnchanged(admit, Written(admit, h, Latest(h), expected).0, expected, n);
  }

  // ---------------------------------------------------------------------------
  // ReconcileKind
  // ---------------------------------------------------------------------------

  /** The Available condition, if the Deployment has one: the first of that type. */
  function Availability(conditions: seq<DeploymentCondition>): Option<DeploymentCondition> {
    if conditions == [] then None
    else if conditions[0].isAvailable then Some(conditions[0])
    else Availability(conditions[1..])
  }

  /** The first Available condition, wherever it stands and whatever precedes it. */
  lemma {:induction false} AvailabilityAt(conditions: seq<DeploymentCondition>, i: nat)
    requires i < |conditions| && conditions[i].isAvailable && forall j | 0 <= j < i :: !conditions[j].isAvailable
    ensures Availability(conditions) == Some(conditions[i])
  {
    if i > 0 {
      AvailabilityAt(conditions[1..], i - 1);
    }
  }

  lemma {:induction false} AvailabilityNone(conditions: seq<DeploymentCondition>)
    requires forall j | 0 <= j < |conditions| :: !conditions[j].isAvailable
    ensures Availability(conditions).None?
  {
    if conditions != [] {
      AvailabilityNone(conditions[1..]);
    }
  }

  function AvailabilityMarks(a: Option<DeploymentCondition>): seq<Mark> {
    if a.None? then []
    else match a.value.status
         case True => [IsDeployed]
         case False => [NotDeployed(a.value.detail)]
         case Unknown => [Deploying(a.value.detail)]
  }

  /** What the lister answers: an error, or what the cache has under the name. */
  datatype Cache = CacheError | Cached(deployment: Option<Versioned<Deployment>>)

  /** How a reconcile ends. */
  datatype Ending = SinkUnresolved(error: string) | LookupFailed | WriteFailed(detail: Detail) | Done(current: Deployment)

  /** The marks a reconcile leaves on the status, in order. */
  function MarksOf(uri: string, e: Ending): seq<Mark> {
    match e
    case SinkUnresolved(error) => [NoSink(Detail("NotFound", error))]
    case LookupFailed => [Sink(Some(uri))]
    case WriteFailed(detail) => [Sink(Some(uri)), NotDeployed(detail)]
    case Done(current) => [Sink(Some(uri))] + AvailabilityMarks(Availability(current.conditions))
  }

  /** The resource as a reconcile holds it: `childName` is the Deployment's name, which
      kmeta.ChildName derives from the source's name and UID. */
  class YipYapSource {
    const name: string
    const childName: string
    const spec: AdapterDeployment.SourceSpec
    const generation: int
    const status: SourceStatus
    var observedGeneration: int
    var attributes: seq<string>
    var deploymentName: string

    constructor (name: string, childName: string, spec: AdapterDeployment.SourceSpec, generation: int,
                 status: SourceStatus, observedGeneration: int, attributes: seq<string>, deploymentName: string)
      ensures this.name == name && this.childName == childName && this.spec == spec && this.generation == generation
      ensures this.status == status && this.observedGeneration == observedGeneration
      ensures this.attributes == attributes && this.deploymentName == deploymentName
    {
      this.name, this.childName, this.spec, this.generation, this.status := name, childName, spec, generation, status;
      this.observedGeneration, this.attributes, this.deploymentName := observedGeneration, attributes, deploymentName;
    }
  }

  /** What an Available condition makes of Deployed: its own status, and its own words
      unless it is True. */
  function DeployedBy(c: DeploymentCondition): (d: Condition)
    ensures d.status == c.status && d.detail == if c.status == True then Detail("", "") else c.detail
  {
    Condition(c.status, if c.status == True then SILENT else c.detail)
  }

  class Reconciler {
    const deployments: Store<Deployment>
    const admit: Admission
    const image: string
    const lib: AdapterConfig.Library
    /** The event types of knownCloudEventAttributes. */
    const known: seq<string>

    constructor (deployments: Store<Deployment>, admit: Admission, image: string, lib: AdapterConfig.Library,
                 known: seq<string>)
      ensures this.deployments == deployments && this.admit == admit && this.image == image && this.lib == lib
      ensures this.known == known
    {
      this.deployments, this.admit, this.image, this.lib, this.known := deployments, admit, image, lib, known;
    }

    function SiteOf(name: string): Site {
      Site(name, image, lib, admit)
    }

    method PropagateAvailability(status: SourceStatus, current: Deployment)
      modifies status`conditions
      ensures status.conditions
              == ApplyAll(old(status.conditions), AvailabilityMarks(Availability(current.conditions)))
      ensures forall i | 0 <= i < |current.conditions| && current.conditions[i].isAvailable
                         && (forall j | 0 <= j < i :: !current.conditions[j].isAvailable) ::
                Deployed in status.conditions && status.conditions[Deployed] == DeployedBy(current.conditions[i])
      ensures (forall i | 0 <= i < |current.conditions| :: !current.conditions[i].isAvailable) ==>
                status.conditions == old(status.conditions)
    {
      for i := 0 to |current.conditions|
        invariant Availability(current.conditions) == Availability(current.conditions[i..])
        invariant forall j | 0 <= j < i :: !current.conditions[j].isAvailable
        invariant status.conditions == old(status.conditions)
      {
        if !current.conditions[i].isAvailable {
          continue;
        }
        ghost var marks := AvailabilityMarks(Some(current.conditions[i]));
        assert marks[..0] == [];
        match current.conditions[i].status {
          case True => status.MarkDeployed();
          case False => status.MarkNotDeployed(current.conditions[i].detail);
          case Unknown => status.MarkDeploying(current.conditions[i].detail);
        }
        return;
      }
    }

    /** The switch on the lister's answer: create, update or nothing, and what may happen
        to the call. */
    method Deploy(cached: Seen, expected: Deployment, meanwhile: History<Deployment>, fault: Fault)
      returns (r: Result<Versioned<Deployment>, ApiError>)
      modifies deployments
      ensures deployments.history
              == AfterReconcile(admit, old(deployments.history), cached, expected, meanwhile, fault)
      ensures r == if Decide(cached, expected).Keep? || fault.Works?
                   then Written(admit, old(deployments.history) + meanwhile, cached, expected).1 else Err(Failed)
      ensures cached.None? && fault.Works? && Latest(old(deployments.history) + meanwhile).Some? ==> r == Err(AlreadyExists)
      ensures cached.Some? && fault.Works? && Latest(old(deployments.history) + meanwhile).Some?
              && cached.value.version != Latest(old(deployments.history) + meanwhile).value.version
              && (expected.template != cached.value.item.template || expected.replicas != cached.value.item.replicas) ==>
                r == Err(Conflict)
      ensures cached.Some? && expected.template == cached.value.item.template
              && expected.replicas == cached.value.item.replicas ==>
                r == Ok(cached.value) && deployments.history == old(deployments.history)
    {
      var decision := Decide(cached, expected);
      if decision.Keep? {
        return Ok(cached.value);
      }
      deployments.Others(meanwhile);
      if fault.Refused? {
        return Err(Failed);
      }
      if decision.CreateIt? {
        r := deployments.Create(Admitted(admit, expected));
      } else {
        r := deployments.Replace(decision.v.(item := Admitted(admit, decision.v.item)));
      }
      if fault.LostAnswer? {
        r := Err(Failed);
      }
    }

    /** `uri` is the resolver's answer or the text of its error, and `error` the text of the
        API server's, should it answer with one. */
    method ReconcileKind(src: YipYapSource, uri: Result<string, string>, cache: Cache, meanwhile: History<Deployment>,
                         fault: Fault, error: string)
      returns (ending: Ending)
      modifies src, src.status, deployments
      ensures src.observedGeneration == src.generation && src.attributes == known
      ensures uri.Err? ==> ending == SinkUnresolved(uri.error)
      ensures uri.Ok? && cache.CacheError? ==> ending == LookupFailed
      ensures uri.Ok? && cache.Cached? ==>
                var expected := Rendered(SiteOf(src.name), src.spec, uri.value);
                var decision := Decide(cache.deployment, expected);
                var r := Written(admit, old(deployments.history) + meanwhile, cache.deployment, expected).1;
                && deployments.history
                   == AfterReconcile(admit, old(deployments.history), cache.deployment, expected, meanwhile, fault)
                && ending == (if decision.Keep? || (fault.Works? && r.Ok?) then Done(r.value.item)
                              else WriteFailed(Detail(FailureReason(decision), error)))
      ensures ending.WriteFailed? ==>
                cache.Cached?
                && ending.detail == Detail(if cache.deployment.None? then "CreateFailed" else "UpdateFailed", error)
      ensures uri.Err? || cache.CacheError? ==> deployments.history == old(deployments.history)
      ensures src.status.conditions
              == ApplyAll(Initialized(old(src.status.conditions)), MarksOf(if uri.Ok? then uri.value else "", ending))
      ensures src.status.sinkUri == if uri.Ok? then Some(uri.value) else old(src.status.sinkUri)
      ensures !ending.Done? ==> src.deploymentName == old(src.deploymentName)
      ensures ending.Done? ==> src.deploymentName == src.childName
    {
      src.status.InitializeConditions();
      src.observedGeneration := src.generation;
      src.attributes := known;
      ghost var initial := src.status.conditions;
      if uri.Err? {
        src.status.MarkNoSink(Detail("NotFound", uri.error));
        ending := SinkUnresolved(uri.error);
        UnresolvedMarks(initial, "", uri.error);
        return;
      }
      src.status.MarkSink(Some(uri.value));
      if cache.CacheError? {
        LookupFailedMarks(initial, uri.value);
        return LookupFailed;
      }
      var expected := Rendered(SiteOf(src.name), src.spec, uri.value);
      var r := Deploy(cache.deployment, expected, meanwhile, fault);
      if r.Err? {
        ending := WriteFailed(Detail(FailureReason(Decide(cache.deployment, expected)), error));
        src.status.MarkNotDeployed(ending.detail);
        WriteFailedMarks(initial, uri.value, ending.detail);
        return;
      }
      var current := r.value.item;
      src.deploymentName := src.childName;
      PropagateAvailability(src.status, current);
      DoneMarks(initial, uri.value, current);
      ending := Done(current);
    }
  }

  function FailureReason(d: Decision): string {
    if d.CreateIt? then "CreateFailed" else "UpdateFailed"
  }

  /** The marks of each ending, one by one. */
  lemma UnresolvedMarks(cs: Conditions, uri: string, error: string)
    ensures ApplyAll(cs, MarksOf(uri, SinkUnresolved(error))) == Apply(cs, NoSink(Detail("NotFound", error)))
  {
    ApplyOne(cs, NoSink(Detail("NotFound", error)));
  }

  lemma LookupFailedMarks(cs: Conditions, uri: string)
    ensures ApplyAll(cs, MarksOf(uri, LookupFailed)) == Apply(cs, Sink(Some(uri)))
  {
    ApplyOne(cs, Sink(Some(uri)));
  }

  lemma WriteFailedMarks(cs: Conditions, uri: string, detail: Detail)
    ensures ApplyAll(cs, MarksOf(uri, WriteFailed(detail))) == Apply(Apply(cs, Sink(Some(uri))), NotDeployed(detail))
  {
    assert [Sink(Some(uri)), NotDeployed(detail)][..1] == [Sink(Some(uri))];
    ApplyOne(cs, Sink(Some(uri)));
  }

  lemma DoneMarks(cs: Conditions, uri: string, current: Deployment)
    ensures ApplyAll(cs, MarksOf(uri, Done(current)))
            == ApplyAll(Apply(cs, Sink(Some(uri))), AvailabilityMarks(Availability(current.conditions)))
  {
    ApplyOne(cs, Sink(Some(uri)));
    ApplyAllConcat(cs, [Sink(Some(uri))], AvailabilityMarks(Availability(current.conditions)));
  }

  lemma ApplyOne(cs: Conditions, m: Mark)
    ensures ApplyAll(cs, [m]) == Apply(cs, m)
  {
    assert [m][..0] == [];
  }

  lemma {:induction false} ApplyAllConcat(cs: Conditions, a: seq<Mark>, b: seq<Mark>)
    ensures ApplyAll(ApplyAll(cs, a), b) == ApplyAll(cs, a + b)
  {
    if b == [] {
      assert a + b == a;
    } else {
      assert (a + b)[..|a + b| - 1] == a + b[..|b| - 1];
      ApplyAllConcat(cs, a, b[..|b| - 1]);
    }
  }

  // ---------------------------------------------------------------------------
  // What the status says afterwards
  // ---------------------------------------------------------------------------

  /** What the conditions say after a reconcile, ending by ending. */
  lemma EndingMeans(cs: Conditions, uri: string, e: Ending)
    ensures var after := ApplyAll(cs, MarksOf(uri, e));
            && SinkProvided in after
            && (e.SinkUnresolved? ==> after[SinkProvided] == after[Ready] == Condition(False, Detail("NotFound", e.error)))
            && (!e.SinkUnresolved? && uri != "" ==> after[SinkProvided] == Condition(True, Detail("", "")))
            && (e.WriteFailed? ==> Deployed in after && after[Deployed] == after[Ready] == Condition(False, e.detail))
            && (e.SinkUnresolved? || e.LookupFailed? ==>
                  (Deployed in after <==> Deployed in cs) && (Deployed in cs ==> after[Deployed] == cs[Deployed]))
  {
    match e
    case SinkUnresolved(error) => UnresolvedMarks(cs, uri, error);
    case LookupFailed => LookupFailedMarks(cs, uri);
    case WriteFailed(detail) => WriteFailedMarks(cs, uri, detail);
    case Done(current) => DoneEndingMeans(cs, uri, current);
  }

  /** A Deployment that is there: its first Available condition decides, and one that has
      none leaves Deployed alone. */
  lemma DoneEndingMeans(cs: Conditions, uri: string, current: Deployment)
    ensures var after := ApplyAll(cs, MarksOf(uri, Done(current)));
            && SinkProvided in after && (uri != "" ==> after[SinkProvided] == Condition(True, Detail("", "")))
            && (forall i | 0 <= i < |current.conditions| && current.conditions[i].isAvailable
                           && (forall j | 0 <= j < i :: !current.conditions[j].isAvailable) ::
                  Deployed in after && after[Deployed] == DeployedBy(current.conditions[i]))
            && ((forall i | 0 <= i < |current.conditions| :: !current.conditions[i].isAvailable) ==>
                  (Deployed in after <==> Deployed in cs) && (Deployed in cs ==> after[Deployed] == cs[Deployed]))
  {
    DoneMarks(cs, uri, current);
    if forall i | 0 <= i < |current.conditions| :: !current.conditions[i].isAvailable {
      AvailabilityNone(current.conditions);
    }
    forall i | 0 <= i < |current.conditions| && current.conditions[i].isAvailable
               && (forall j | 0 <= j < i :: !current.conditions[j].isAvailable)
      ensures Availability(current.conditions) == Some(current.conditions[i])
    {
      AvailabilityAt(current.conditions, i);
    }
    AvailabilityMark(Apply(cs, Sink(Some(uri))), Availability(current.conditions));
  }

  lemma AvailabilityMark(cs: Conditions, a: Option<DeploymentCondition>)
    ensures var after := ApplyAll(cs, AvailabilityMarks(a));
            && (a.None? ==> after == cs)
            && (a.Some? ==> Deployed in after && after[Deployed] == DeployedBy(a.value)
                            && (SinkProvided in after <==> SinkProvided in cs)
                            && (SinkProvided in cs ==> after[SinkProvided] == cs[SinkProvided]))
  {
    if a.Some? {
      ApplyOne(cs, AvailabilityMarks(a)[0]);
      assert AvailabilityMarks(a) == [AvailabilityMarks(a)[0]];
    }
  }

  /** After a reconcile that went through, the source is Ready if and only if the sink
      has a URI and the Deployment is available; but a Deployment that reports nothing
      yet leaves the Deployed condition as the previous reconcile had it. */
  lemma ReadyAfterReconcile(before: Conditions, uri: string, current: Deployment)
    ensures var after := ApplyAll(Initialized(before), MarksOf(uri, Done(current)));
            var available := Availability(current.conditions);
            Is(after, Ready, True) <==>
              uri != "" && (if available.Some? then available.value.status == True else Is(Initialized(before), Deployed, True))
  {
    var marks := MarksOf(uri, Done(current));
    MarksStand(Initialized(before), marks);
    assert marks[..|marks| - 1] == if |marks| == 1 then [] else [Sink(Some(uri))];
    assert [Sink(Some(uri))][..0] == [];
  }

  /** A reconcile that did not go through never leaves the source Ready, except when the
      cache failed after the sink resolved: then Ready follows the old Deployed. */
  lemma ReadyAfterFailure(before: Conditions, uri: string, e: Ending)
    requires !e.Done?
    ensures var after := ApplyAll(Initialized(before), MarksOf(uri, e));
            Is(after, Ready, True) <==> e.LookupFailed? && uri != "" && Is(Initialized(before), Deployed, True)
  {
    var marks := MarksOf(uri, e);
    MarksStand(Initialized(before), marks);
    assert marks[..|marks| - 1] == if |marks| == 1 then [] else [Sink(Some(uri))];
    assert [Sink(Some(uri))][..0] == [];
  }

  /** So the promise that a Deployment without an Available condition shows as deploying
      fails: replace an available Deployment by a new one, and the source stays Ready. */
  lemma StaleReady(before: Conditions, uri: string, current: Deployment)
    requires uri != "" && Is(before, Deployed, True) && current.conditions == []
    ensures Is(ApplyAll(Initialized(before), MarksOf(uri, Done(current))), Ready, True)
    ensures Is(ApplyAll(Initialized(before), MarksOf(uri, Done(current))), Deployed, True)
  {
    ReadyAfterReconcile(before, uri, current);
    MarksStand(Initialized(before), MarksOf(uri, Done(current)));
    assert MarksOf(uri, Done(current)) == [Sink(Some(uri))];
    assert [Sink(Some(uri))][..0] == [];
  }
}
