/** From a YipYapSource to its adapter: API defaults (yipyapsource_defaults.go), the
    rendered pod template (deployment.go), and what the adapter reads back from it. */
module AdapterDeployment {
  import opened Prelude
  import Text
  import opened AdapterConfig
  import opened EnvExpansion
  import Mode

  /** The fields of the spec the controller uses. `sink` is the destination the URI
      resolver gets; a filter or overrides may be absent. */
  datatype SourceSpec = SourceSpec(sink: string, baseUrl: string, apiKeyName: string, apiKeyKey: string, mode: string,
                                   filterTypes: Option<seq<string>>, overrides: Option<Overrides>,
                                   serviceAccountName: string)

  function Defaulted(s: SourceSpec): SourceSpec {
    s.(apiKeyKey := DefaultStr(s.apiKeyKey, "api-key"),
       baseUrl := DefaultStr(s.baseUrl, DEFAULT_BASE_URL),
       mode := DefaultStr(s.mode, "auto"))
  }

  /** The object the webhook and the reconciler default in place. */
  class SpecHolder {
    var spec: SourceSpec

    constructor (spec: SourceSpec)
      ensures this.spec == spec
    {
      this.spec := spec;
    }

    method SetDefaults()
      modifies this
      ensures spec == Defaulted(old(spec))
      ensures spec.mode == (if old(spec.mode) == "" then "auto" else old(spec.mode))
      ensures spec.apiKeyKey == (if old(spec.apiKeyKey) == "" then "api-key" else old(spec.apiKeyKey))
      ensures spec.baseUrl == (if old(spec.baseUrl) == "" then "https://console.yipyap.run" else old(spec.baseUrl))
      ensures spec == old(spec).(mode := spec.mode, apiKeyKey := spec.apiKeyKey, baseUrl := spec.baseUrl)
    {
      if spec.apiKeyKey == "" {
        spec := spec.(apiKeyKey := "api-key");
      }
      if spec.baseUrl == "" {
        spec := spec.(baseUrl := DEFAULT_BASE_URL);
      }
      if spec.mode == "" {
        spec := spec.(mode := "auto");
      }
    }
  }

  datatype EnvVar = Literal(name: Var, value: string) | FromSecret(name: Var, secret: string, key: string)

  /** The parts of the pod template that depend on the source. The container's name,
      ports, probes and cursor volume are the same for all of them. */
  datatype Template = Template(labels: map<string, string>, image: string, env: seq<EnvVar>, serviceAccountName: string)

  const SOURCE_LABEL_KEY: string := "sources.yipyap.run/source"

  function FilterEnv(spec: SourceSpec): seq<EnvVar> {
    if spec.filterTypes.Some? && |spec.filterTypes.value| > 0
    then [Literal(YIPYAP_EVENT_FILTER, Text.Join(spec.filterTypes.value))]
    else []
  }

  function OverridesEnv(spec: SourceSpec, lib: Library): seq<EnvVar> {
    if spec.overrides.Some? && |spec.overrides.value| > 0 && lib.marshal(spec.overrides.value).Some?
    then [Literal(K_CE_OVERRIDES, lib.marshal(spec.overrides.value).value)]
    else []
  }

  function RenderEnv(spec: SourceSpec, sinkUri: string, lib: Library): seq<EnvVar> {
    [Literal(K_SINK, sinkUri), Literal(YIPYAP_BASE_URL, spec.baseUrl),
     FromSecret(YIPYAP_API_KEY, spec.apiKeyName, spec.apiKeyKey), Literal(YIPYAP_MODE, spec.mode)]
    + FilterEnv(spec) + OverridesEnv(spec, lib)
  }

  function RenderTemplate(name: string, spec: SourceSpec, sinkUri: string, image: string, lib: Library): Template {
    Template(map[SOURCE_LABEL_KEY := name], image, RenderEnv(spec, sinkUri, lib), spec.serviceAccountName)
  }

  /** What the template says of the source, entry by entry. */
  lemma TemplateMeans(name: string, spec: SourceSpec, sinkUri: string, image: string, lib: Library)
    ensures var t := RenderTemplate(name, spec, sinkUri, image, lib);
            && t.labels == map["sources.yipyap.run/source" := name] && t.image == image
            && t.serviceAccountName == spec.serviceAccountName
            && 4 <= |t.env| <= 6
            && t.env[0] == Literal(K_SINK, sinkUri) && t.env[1] == Literal(YIPYAP_BASE_URL, spec.baseUrl)
            && t.env[2] == FromSecret(YIPYAP_API_KEY, spec.apiKeyName, spec.apiKeyKey)
            && t.env[3] == Literal(YIPYAP_MODE, spec.mode)
  {
  }

  /** The optional entries are there exactly if there is something to say. */
  lemma OptionalEntries(spec: SourceSpec, sinkUri: string, lib: Library)
    ensures var env := RenderEnv(spec, sinkUri, lib);
            var filters := spec.filterTypes.Some? && spec.filterTypes.value != [];
            var overrides := spec.overrides.Some? && |spec.overrides.value| > 0
                             && lib.marshal(spec.overrides.value).Some?;
            && |env| == 4 + (if filters then 1 else 0) + (if overrides then 1 else 0)
            && (filters ==> env[4] == Literal(YIPYAP_EVENT_FILTER, Text.Join(spec.filterTypes.value)))
            && (overrides ==> env[|env| - 1] == Literal(K_CE_OVERRIDES, lib.marshal(spec.overrides.value).value))
  {
  }

  /** MakeAdapterDeployment's template, built up as the code builds it. */
  method MakeTemplate(name: string, spec: SourceSpec, sinkUri: string, image: string, lib: Library) returns (t: Template)
    ensures t == RenderTemplate(name, spec, sinkUri, image, lib)
  {
    var env := [Literal(K_SINK, sinkUri), Literal(YIPYAP_BASE_URL, spec.baseUrl),
                FromSecret(YIPYAP_API_KEY, spec.apiKeyName, spec.apiKeyKey), Literal(YIPYAP_MODE, spec.mode)];
    if spec.filterTypes.Some? && |spec.filterTypes.value| > 0 {
      env := env + [Literal(YIPYAP_EVENT_FILTER, Text.Join(spec.filterTypes.value))];
    }
    if spec.overrides.Some? && |spec.overrides.value| > 0 {
      var v := lib.marshal(spec.overrides.value);
      if v.Some? {
        env := env + [Literal(K_CE_OVERRIDES, v.value)];
      }
    }
    t := Template(map[SOURCE_LABEL_KEY := name], image, env, "");
    if spec.serviceAccountName != "" {
      t := t.(serviceAccountName := spec.serviceAccountName);
    }
  }

  // ---------------------------------------------------------------------------
  // What the adapter reads back
  // ---------------------------------------------------------------------------

  /** Where the kubelet finds values: the Secrets of the namespace, by name and key, and
      the variables of the namespace's services. */
  datatype Cluster = Cluster(secrets: (string, string) -> string, services: Mapping)

  function VarNamed(name: string): Option<Var> {
    if name == "K_SINK" then Some(K_SINK)
    else if name == "K_CE_OVERRIDES" then Some(K_CE_OVERRIDES)
    else if name == "YIPYAP_API_KEY" then Some(YIPYAP_API_KEY)
    else if name == "YIPYAP_BASE_URL" then Some(YIPYAP_BASE_URL)
    else if name == "YIPYAP_EVENT_FILTER" then Some(YIPYAP_EVENT_FILTER)
    else if name == "YIPYAP_MODE" then Some(YIPYAP_MODE)
    else if name == "YIPYAP_POLL_INTERVAL" then Some(YIPYAP_POLL_INTERVAL)
    else if name == "YIPYAP_CURSOR_PATH" then Some(YIPYAP_CURSOR_PATH)
    else if name == "YIPYAP_HEALTH_ADDR" then Some(YIPYAP_HEALTH_ADDR)
    else None
  }

  lemma VariablesNamed()
    ensures VarNamed("K_SINK") == Some(K_SINK) && VarNamed("K_CE_OVERRIDES") == Some(K_CE_OVERRIDES)
    ensures VarNamed("YIPYAP_API_KEY") == Some(YIPYAP_API_KEY) && VarNamed("YIPYAP_BASE_URL") == Some(YIPYAP_BASE_URL)
    ensures VarNamed("YIPYAP_EVENT_FILTER") == Some(YIPYAP_EVENT_FILTER) && VarNamed("YIPYAP_MODE") == Some(YIPYAP_MODE)
  {
  }

  /** What the kubelet makes of an environment list: the last entry of a name counts, and
      a literal is expanded with what the entries before it and the services define. */
  function Assigned(env: seq<EnvVar>, c: Cluster, v: Var): Option<string>
    decreases |env|, 0
  {
    if env == [] then None
    else
      var n := |env| - 1;
      if env[n].name != v then Assigned(env[..n], c, v)
      else match env[n]
           case Literal(_, value) => Some(Expand(value, References(env[..n], c)))
           case FromSecret(_, secret, key) => Some(c.secrets(secret, key))
  }

  function References(env: seq<EnvVar>, c: Cluster): Mapping
    decreases |env|, 1
  {
    (name: string) =>
      var v := VarNamed(name);
      var own := if v.Some? then Assigned(env, c, v.value) else None;
      if own.Some? then own else c.services(name)
  }

  function ContainerEnv(t: Template, c: Cluster): Env {
    v => if Assigned(t.env, c, v).Some? then Assigned(t.env, c, v).value else ""
  }

  ghost predicate DistinctNames(env: seq<EnvVar>) {
    forall j, k | 0 <= j < k < |env| :: env[j].name != env[k].name
  }

  /** What an entry comes to, if its name occurs once. */
  function ValueAt(env: seq<EnvVar>, c: Cluster, k: nat): string
    requires k < |env|
  {
    match env[k]
    case Literal(_, value) => Expand(value, References(env[..k], c))
    case FromSecret(_, secret, key) => c.secrets(secret, key)
  }

  lemma {:induction false} AssignedOnce(env: seq<EnvVar>, c: Cluster, k: nat)
    requires k < |env| && DistinctNames(env)
    ensures Assigned(env, c, env[k].name) == Some(ValueAt(env, c, k))
  {
    var n := |env| - 1;
    if k < n {
      assert env[n].name != env[k].name;
      assert env[..n][..k] == env[..k];
      AssignedOnce(env[..n], c, k);
    }
  }

  lemma {:induction false} AssignedAbsent(env: seq<EnvVar>, c: Cluster, v: Var)
    requires forall j | 0 <= j < |env| :: env[j].name != v
    ensures Assigned(env, c, v) == None
  {
    if env != [] {
      AssignedAbsent(env[..|env| - 1], c, v);
    }
  }

  /** No literal has a $$ or a reference that expands to something else. */
  ghost predicate Carried(env: seq<EnvVar>, c: Cluster) {
    forall k: nat | k < |env| && env[k].Literal? :: Unexpanded(env[k].value, References(env[..k], c))
  }

  ghost predicate TameAll(env: seq<EnvVar>, c: Cluster) {
    forall k: nat | k < |env| && env[k].Literal? :: Tame(env[k].value, References(env[..k], c))
  }

  ghost predicate Verbatim(env: seq<EnvVar>, c: Cluster) {
    forall k: nat | k < |env| && env[k].Literal? :: Assigned(env, c, env[k].name) == Some(env[k].value)
  }

  /** The container has every literal as the list has it if the list is carried; and only
      then, unless a literal refers to a variable whose value refers to that same one. */
  lemma VerbatimIffCarried(env: seq<EnvVar>, c: Cluster)
    requires DistinctNames(env)
    ensures Carried(env, c) ==> Verbatim(env, c)
    ensures TameAll(env, c) ==> (Verbatim(env, c) <==> Carried(env, c))
  {
    forall k: nat | k < |env| && env[k].Literal?
      ensures var m := References(env[..k], c);
              && (Unexpanded(env[k].value, m) ==> Assigned(env, c, env[k].name) == Some(env[k].value))
              && (Tame(env[k].value, m) && Assigned(env, c, env[k].name) == Some(env[k].value) ==> Unexpanded(env[k].value, m))
    {
      var m := References(env[..k], c);
      AssignedOnce(env, c, k);
      if Unexpanded(env[k].value, m) {
        UnexpandedStays(env[k].value, m);
      } else if Tame(env[k].value, m) {
        ComesThrough(env[k].value, m);
      }
    }
  }

  lemma DistinctRendered(spec: SourceSpec, sinkUri: string, lib: Library)
    ensures DistinctNames(RenderEnv(spec, sinkUri, lib))
  {
    var env := RenderEnv(spec, sinkUri, lib);
    assert env[0].name == K_SINK && env[1].name == YIPYAP_BASE_URL;
    assert env[2].name == YIPYAP_API_KEY && env[3].name == YIPYAP_MODE;
    assert |env| > 4 ==> env[4].name == YIPYAP_EVENT_FILTER || env[4].name == K_CE_OVERRIDES;
    assert |env| > 5 ==> env[4].name == YIPYAP_EVENT_FILTER && env[5].name == K_CE_OVERRIDES;
  }

  /** The entries under carried names. */
  lemma CarriedAt(env: seq<EnvVar>, c: Cluster, k: nat)
    requires k < |env| && DistinctNames(env) && Carried(env, c)
    ensures Assigned(env, c, env[k].name)
            == Some(if env[k].Literal? then env[k].value else c.secrets(env[k].secret, env[k].key))
  {
    AssignedOnce(env, c, k);
    if env[k].Literal? {
      UnexpandedStays(env[k].value, References(env[..k], c));
    }
  }

  lemma ReadBackFixed(spec: SourceSpec, sinkUri: string, lib: Library, c: Cluster)
    requires Carried(RenderEnv(spec, sinkUri, lib), c)
    ensures var env := RenderEnv(spec, sinkUri, lib);
            && Assigned(env, c, K_SINK) == Some(sinkUri)
            && Assigned(env, c, YIPYAP_BASE_URL) == Some(spec.baseUrl)
            && Assigned(env, c, YIPYAP_API_KEY) == Some(c.secrets(spec.apiKeyName, spec.apiKeyKey))
            && Assigned(env, c, YIPYAP_MODE) == Some(spec.mode)
  {
    var env := RenderEnv(spec, sinkUri, lib);
    DistinctRendered(spec, sinkUri, lib);
    CarriedAt(env, c, 0);
    CarriedAt(env, c, 1);
    CarriedAt(env, c, 2);
    CarriedAt(env, c, 3);
  }

  lemma ReadBackUnset(spec: SourceSpec, sinkUri: string, lib: Library, c: Cluster, v: Var)
    requires v.YIPYAP_POLL_INTERVAL? || v.YIPYAP_CURSOR_PATH? || v.YIPYAP_HEALTH_ADDR?
    ensures Assigned(RenderEnv(spec, sinkUri, lib), c, v) == None
  {
    AssignedAbsent(RenderEnv(spec, sinkUri, lib), c, v);
  }

  /** The controller sets no poll interval: what loads has the default one. */
  lemma IntervalIsDefault(name: string, spec: SourceSpec, sinkUri: string, image: string, lib: Library, c: Cluster)
    requires Load(ContainerEnv(RenderTemplate(name, spec, sinkUri, image, lib), c), lib).Ok?
    ensures Load(ContainerEnv(RenderTemplate(name, spec, sinkUri, image, lib), c), lib).value.pollInterval
            == DEFAULT_POLL_INTERVAL
  {
    ReadBackUnset(spec, sinkUri, lib, c, YIPYAP_POLL_INTERVAL);
  }

  lemma ReadBackFilter(spec: SourceSpec, sinkUri: string, lib: Library, c: Cluster)
    ensures var env := RenderEnv(spec, sinkUri, lib);
            Assigned(env, c, YIPYAP_EVENT_FILTER)
            == if FilterEnv(spec) == [] then None
               else Some(Expand(Text.Join(spec.filterTypes.value), References(env[..4], c)))
  {
    var env := RenderEnv(spec, sinkUri, lib);
    DistinctRendered(spec, sinkUri, lib);
    if FilterEnv(spec) == [] {
      AssignedAbsent(env, c, YIPYAP_EVENT_FILTER);
    } else {
      AssignedOnce(env, c, 4);
    }
  }

  lemma ReadBackOverrides(spec: SourceSpec, sinkUri: string, lib: Library, c: Cluster)
    ensures var env, n := RenderEnv(spec, sinkUri, lib), |RenderEnv(spec, sinkUri, lib)| - 1;
            Assigned(env, c, K_CE_OVERRIDES)
            == if OverridesEnv(spec, lib) == [] then None
               else Some(Expand(OverridesEnv(spec, lib)[0].value, References(env[..n], c)))
  {
    var env := RenderEnv(spec, sinkUri, lib);
    DistinctRendered(spec, sinkUri, lib);
    if OverridesEnv(spec, lib) == [] {
      AssignedAbsent(env, c, K_CE_OVERRIDES);
    } else {
      AssignedOnce(env, c, |env| - 1);
    }
  }

  /** What the user asked for, as far as the adapter can know it. */
  function FiltersOf(spec: SourceSpec): seq<string> {
    if spec.filterTypes.Some? then FiltersOfAll(spec.filterTypes.value) else []
  }

  function OverridesOf(spec: SourceSpec, lib: Library): Overrides {
    if spec.overrides.Some? && lib.marshal(spec.overrides.value).Some? then spec.overrides.value else map[]
  }

  /** The configuration a spec asks for. */
  function Intended(spec: SourceSpec, sinkUri: string, apiKey: string, lib: Library): Config {
    Config(sinkUri, OverridesOf(spec, lib), apiKey, DefaultStr(spec.baseUrl, DEFAULT_BASE_URL), FiltersOf(spec), spec.mode,
           DEFAULT_POLL_INTERVAL, "/var/run/yipyap/cursor", ":8080", "/etc/yipyap/source-mode")
  }

  lemma FiltersReadBack(spec: SourceSpec)
    ensures Filters(if spec.filterTypes.Some? then Text.Join(spec.filterTypes.value) else "") == FiltersOf(spec)
  {
    ParseJoin([]);
    if spec.filterTypes.Some? {
      ParseJoin(spec.filterTypes.value);
    }
  }

  lemma LoadIntended(env: Env, spec: SourceSpec, sinkUri: string, key: string, lib: Library)
    requires Inverse(lib)
    requires env(K_SINK) == sinkUri && env(YIPYAP_API_KEY) == key && env(YIPYAP_MODE) == spec.mode
    requires env(YIPYAP_BASE_URL) == spec.baseUrl && Filters(env(YIPYAP_EVENT_FILTER)) == FiltersOf(spec)
    requires env(YIPYAP_POLL_INTERVAL) == env(YIPYAP_CURSOR_PATH) == env(YIPYAP_HEALTH_ADDR) == ""
    requires env(K_CE_OVERRIDES) == if OverridesEnv(spec, lib) != [] then OverridesEnv(spec, lib)[0].value else ""
    ensures Load(env, lib) == if sinkUri == "" then Err(SinkRequired) else if key == "" then Err(ApiKeyRequired)
                              else if !AcceptedMode(spec.mode) then Err(InvalidMode(spec.mode))
                              else Ok(Intended(spec, sinkUri, key, lib))
  {
  }

  /** The meaning of a spec survives an environment that is carried. The adapter starts
      if and only if the sink and the API key are not empty and the mode is one
      LoadConfig takes, and then its configuration is the one the spec asks for. */
  lemma MeaningPreserved(name: string, spec: SourceSpec, sinkUri: string, image: string, lib: Library, c: Cluster)
    requires Inverse(lib) && Carried(RenderEnv(spec, sinkUri, lib), c)
    ensures var r := Load(ContainerEnv(RenderTemplate(name, spec, sinkUri, image, lib), c), lib);
            var key := c.secrets(spec.apiKeyName, spec.apiKeyKey);
            && (r.Ok? <==> sinkUri != "" && key != "" && AcceptedMode(spec.mode))
            && (r.Ok? ==> r.value == Intended(spec, sinkUri, key, lib))
            && (sinkUri != "" && key != "" && !AcceptedMode(spec.mode) ==> r == Err(InvalidMode(spec.mode)))
  {
    var env := RenderEnv(spec, sinkUri, lib);
    ReadBackFixed(spec, sinkUri, lib, c);
    ReadBackUnset(spec, sinkUri, lib, c, YIPYAP_POLL_INTERVAL);
    ReadBackUnset(spec, sinkUri, lib, c, YIPYAP_CURSOR_PATH);
    ReadBackUnset(spec, sinkUri, lib, c, YIPYAP_HEALTH_ADDR);
    ReadBackFilter(spec, sinkUri, lib, c);
    ReadBackOverrides(spec, sinkUri, lib, c);
    if FilterEnv(spec) != [] {
      UnexpandedStays(env[4].value, References(env[..4], c));
    }
    if OverridesEnv(spec, lib) != [] {
      UnexpandedStays(env[|env| - 1].value, References(env[..|env| - 1], c));
    }
    FiltersReadBack(spec);
    LoadIntended(ContainerEnv(RenderTemplate(name, spec, sinkUri, image, lib), c), spec, sinkUri,
                 c.secrets(spec.apiKeyName, spec.apiKeyKey), lib);
  }

  /** Field by field, the configuration of the adapter is what the spec says. */
  lemma IntendedMeans(spec: SourceSpec, sinkUri: string, apiKey: string, lib: Library)
    ensures var cfg := Intended(spec, sinkUri, apiKey, lib);
            && cfg.sink == sinkUri && cfg.apiKey == apiKey && cfg.mode == spec.mode
            && cfg.baseUrl == (if spec.baseUrl == "" then "https://console.yipyap.run" else spec.baseUrl)
            && (spec.overrides.Some? && lib.marshal(spec.overrides.value).Some? ==> cfg.ceOverrides == spec.overrides.value)
            && (spec.overrides.None? ==> cfg.ceOverrides == map[])
            && (spec.filterTypes.Some? && (forall t | t in spec.filterTypes.value :: Plain(t)) ==>
                  cfg.eventFilters == spec.filterTypes.value)
            && (spec.filterTypes.None? ==> cfg.eventFilters == [])
            && cfg.pollInterval == 5_000_000_000 && cfg.cursorPath == "/var/run/yipyap/cursor"
            && cfg.healthAddr == ":8080" && cfg.crModeFilePath == "/etc/yipyap/source-mode"
  {
    if spec.filterTypes.Some? && forall t | t in spec.filterTypes.value :: Plain(t) {
      PlainSurvive(spec.filterTypes.value);
    }
  }

  lemma ModeReadBack(name: string, spec: SourceSpec, sinkUri: string, image: string, lib: Library, c: Cluster)
    requires '$' !in spec.mode
    ensures ContainerEnv(RenderTemplate(name, spec, sinkUri, image, lib), c)(YIPYAP_MODE) == spec.mode
  {
    var env := RenderEnv(spec, sinkUri, lib);
    DistinctRendered(spec, sinkUri, lib);
    AssignedOnce(env, c, 3);
    NoDollarInert(spec.mode);
    InertUnexpanded(spec.mode, References(env[..3], c));
    UnexpandedStays(spec.mode, References(env[..3], c));
  }

  lemma NamedModeResolves(env: Env, lib: Library, file: Option<string>, hint: Option<Mode.Hint>)
    requires Load(env, lib).Ok? && (env(YIPYAP_MODE) == "poll" || env(YIPYAP_MODE) == "stream")
    ensures var r := Mode.Resolve(Load(env, lib).value, file, hint);
            r.Ok? && r.value.mode == (if env(YIPYAP_MODE) == "poll" then Mode.Poll else Mode.Stream)
  {
    LoadedModeAccepted(env, lib);
    Mode.AcceptedResolves(Load(env, lib).value, file, hint);
  }

  /** A mode of poll or stream reaches the transport, whatever becomes of the other
      values: no mode file and no server hint can change it. */
  lemma ModeReachesTransport(name: string, spec: SourceSpec, sinkUri: string, image: string, lib: Library, c: Cluster,
                             env: Env, file: Option<string>, hint: Option<Mode.Hint>)
    requires spec.mode == "poll" || spec.mode == "stream"
    requires env == ContainerEnv(RenderTemplate(name, spec, sinkUri, image, lib), c) && Load(env, lib).Ok?
    ensures var r := Mode.Resolve(Load(env, lib).value, file, hint);
            r.Ok? && r.value.mode == (if spec.mode == "poll" then Mode.Poll else Mode.Stream)
  {
    ModeReadBack(name, spec, sinkUri, image, lib, c);
    NamedModeResolves(env, lib, file, hint);
  }

  /** Defaulting breaks the chain: once SetDefaults has run, a source that names no mode
      says "auto", which the adapter refuses, whatever the other values are. */
  lemma AutoNeverStarts(name: string, spec: SourceSpec, sinkUri: string, image: string, lib: Library, c: Cluster)
    requires spec.mode == "" || spec.mode == "auto"
    ensures Load(ContainerEnv(RenderTemplate(name, Defaulted(spec), sinkUri, image, lib), c), lib).Err?
  {
    ModeReadBack(name, Defaulted(spec), sinkUri, image, lib, c);
  }

  /** A defaulted source has an adapter that starts exactly when its user wrote poll or
      stream. */
  lemma DefaultedStartsIffModeNamed(name: string, spec: SourceSpec, sinkUri: string, image: string, lib: Library,
                                    c: Cluster)
    requires Inverse(lib) && Carried(RenderEnv(Defaulted(spec), sinkUri, lib), c)
    requires sinkUri != "" && c.secrets(Defaulted(spec).apiKeyName, Defaulted(spec).apiKeyKey) != ""
    ensures var r := Load(ContainerEnv(RenderTemplate(name, Defaulted(spec), sinkUri, image, lib), c), lib);
            && (r.Ok? <==> spec.mode == "poll" || spec.mode == "stream")
            && (spec.mode == "" || spec.mode == "auto" ==> r == Err(InvalidMode("auto")))
  {
    MeaningPreserved(name, Defaulted(spec), sinkUri, image, lib, c);
  }

  /** The globs reach the adapter as they are exactly if the list can carry each, when the
      environment carries the list. */
  lemma GlobsReachAdapter(name: string, spec: SourceSpec, sinkUri: string, image: string, lib: Library, c: Cluster)
    requires spec.filterTypes.Some?
    requires Unexpanded(Text.Join(spec.filterTypes.value), References(RenderEnv(spec, sinkUri, lib)[..4], c))
    ensures Filters(ContainerEnv(RenderTemplate(name, spec, sinkUri, image, lib), c)(YIPYAP_EVENT_FILTER))
            == spec.filterTypes.value
            <==> forall t | t in spec.filterTypes.value :: Plain(t)
  {
    ReadBackFilter(spec, sinkUri, lib, c);
    UnexpandedStays(Text.Join(spec.filterTypes.value), References(RenderEnv(spec, sinkUri, lib)[..4], c));
    FilterRoundTrip(spec.filterTypes.value);
  }

  lemma NameCloses(name: string)
    requires VarNamed(name) == Some(YIPYAP_API_KEY)
    ensures ')' !in name
  {
  }

  lemma KeyIsEarlier(spec: SourceSpec, sinkUri: string, lib: Library, c: Cluster, name: string)
    requires VarNamed(name) == Some(YIPYAP_API_KEY) && OverridesEnv(spec, lib) != []
    ensures var env := RenderEnv(spec, sinkUri, lib);
            References(env[..|env| - 1], c)(name) == Some(c.secrets(spec.apiKeyName, spec.apiKeyKey))
  {
    var env := RenderEnv(spec, sinkUri, lib);
    var earlier := env[..|env| - 1];
    DistinctRendered(spec, sinkUri, lib);
    assert earlier[2] == FromSecret(YIPYAP_API_KEY, spec.apiKeyName, spec.apiKeyKey);
    AssignedOnce(earlier, c, 2);
  }

  /** An override value that refers to the API key's variable reaches the adapter as the
      key itself. */
  lemma OverrideReadsKey(template: string, spec: SourceSpec, sinkUri: string, image: string, lib: Library, c: Cluster,
                         before: string, name: string, after: string)
    requires '$' !in before && '$' !in after && VarNamed(name) == Some(YIPYAP_API_KEY)
    requires OverridesEnv(spec, lib) == [Literal(K_CE_OVERRIDES, before + (Reference(name) + after))]
    ensures ContainerEnv(RenderTemplate(template, spec, sinkUri, image, lib), c)(K_CE_OVERRIDES)
            == before + (c.secrets(spec.apiKeyName, spec.apiKeyKey) + after)
  {
    var env := RenderEnv(spec, sinkUri, lib);
    NameCloses(name);
    KeyIsEarlier(spec, sinkUri, lib, c, name);
    ReadBackOverrides(spec, sinkUri, lib, c);
    ReplacedBetween(before, name, after, References(env[..|env| - 1], c));
  }
}
