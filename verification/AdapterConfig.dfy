/** The adapter's configuration (config.go): from the container's environment to a
    Config, or to the error that ends the process. */
module AdapterConfig {
  import opened Prelude
  import opened Text

  datatype Var =
    | K_SINK | K_CE_OVERRIDES | YIPYAP_API_KEY | YIPYAP_BASE_URL | YIPYAP_EVENT_FILTER
    | YIPYAP_MODE | YIPYAP_POLL_INTERVAL | YIPYAP_CURSOR_PATH | YIPYAP_HEALTH_ADDR

  /** os.Getenv: the empty string for a variable that is not set. */
  type Env = Var -> string

  type Overrides = map<string, string>

  /** The library calls: encoding/json on the overrides envelope {"extensions": ...},
      whose field may be absent, and time.ParseDuration. */
  datatype Library = Library(marshal: Overrides -> Option<string>,
                             unmarshal: string -> Option<Option<Overrides>>,
                             parseDuration: string -> Option<int>)

  /** json.Unmarshal undoes json.Marshal, which never writes nothing. */
  ghost predicate Inverse(lib: Library) {
    forall m: Overrides :: lib.marshal(m).Some? ==>
      lib.marshal(m).value != "" && lib.unmarshal(lib.marshal(m).value) == Some(Some(m))
  }

  datatype Config = Config(sink: string, ceOverrides: Overrides, apiKey: string, baseUrl: string,
                           eventFilters: seq<string>, mode: string, pollInterval: int,
                           cursorPath: string, healthAddr: string, crModeFilePath: string)

  datatype ConfigError = SinkRequired | ApiKeyRequired | InvalidOverrides | InvalidInterval | InvalidMode(mode: string)

  const DEFAULT_BASE_URL: string := "https://console.yipyap.run"
  const DEFAULT_POLL_INTERVAL: int := 5_000_000_000

  function DefaultStr(v: string, def: string): (r: string)
    ensures v != "" ==> r == v
    ensures v == "" ==> r == def
  {
    if v == "" then def else v
  }

  // ---------------------------------------------------------------------------
  // The event filter list
  // ---------------------------------------------------------------------------

  /** Trim every part, drop the empty ones. */
  function Fields(parts: seq<string>): seq<string> {
    if parts == [] then []
    else
      var n := |parts| - 1;
      var f := TrimSpace(parts[n]);
      Fields(parts[..n]) + (if f != "" then [f] else [])
  }

  function Filters(raw: string): seq<string> {
    Fields(Split(raw))
  }

  method ParseEventFilters(raw: string) returns (filters: seq<string>)
    ensures filters == Filters(raw)
  {
    filters := [];
    var parts := Split(raw);
    for i := 0 to |parts|
      invariant filters == Fields(parts[..i])
    {
      assert parts[..i + 1][..i] == parts[..i];
      var f := TrimSpace(parts[i]);
      if f != "" {
        filters := filters + [f];
      }
    }
    assert parts[..|parts|] == parts;
  }

  /** A glob the comma-separated list can carry. */
  predicate Plain(t: string) {
    t != "" && Trimmed(t) && ',' !in t
  }

  lemma {:induction false} FieldsConcat(a: seq<string>, b: seq<string>)
    ensures Fields(a + b) == Fields(a) + Fields(b)
  {
    if b == [] {
      assert a + b == a;
    } else {
      var n := |b| - 1;
      assert (a + b)[..|a + b| - 1] == a + b[..n];
      FieldsConcat(a, b[..n]);
    }
  }

  lemma {:induction false} FieldsPlain(parts: seq<string>)
    requires forall p | p in parts :: ',' !in p
    ensures forall f | f in Fields(parts) :: Plain(f)
  {
    if parts != [] {
      var n := |parts| - 1;
      FieldsPlain(parts[..n]);
      TrimDrops(parts[n], ',');
    }
  }

  /** Every filter the adapter ends up with is one the list can carry. */
  lemma FiltersPlain(raw: string)
    ensures forall f | f in Filters(raw) :: Plain(f)
  {
    FieldsPlain(Split(raw));
  }

  /** The filters of each glob on its own, one after the other. */
  function FiltersOfAll(ts: seq<string>): seq<string> {
    if ts == [] then [] else Filters(ts[0]) + FiltersOfAll(ts[1..])
  }

  /** What the filters of any text are: one by one of what stands between its commas, and
      of each what is left when its outer spaces are trimmed, if that is anything. */
  lemma FiltersAtComma(a: string, b: string)
    ensures Filters(a + "," + b) == Filters(a) + Filters(b)
  {
    SplitAtComma(a, b);
    FieldsConcat(Split(a), Split(b));
  }

  lemma FiltersOfOne(s: string)
    requires ',' !in s
    ensures Filters(s) == if TrimSpace(s) == "" then [] else [TrimSpace(s)]
  {
    assert Split(s) == [s] && Fields([s][..0]) == [];
    assert Fields([s]) == if TrimSpace(s) == "" then [] else [TrimSpace(s)];
  }

  /** Parsing the joined list is parsing its elements one by one. */
  lemma {:induction false} ParseJoin(ts: seq<string>)
    ensures Filters(Join(ts)) == FiltersOfAll(ts)
  {
    if |ts| == 0 {
      assert Split("") == [""] && Fields([""]) == [];
    } else if |ts| == 1 {
      assert FiltersOfAll(ts[1..]) == [];
    } else {
      FiltersAtComma(ts[0], Join(ts[1..]));
      ParseJoin(ts[1..]);
    }
  }

  lemma {:induction false} PlainSurvive(ts: seq<string>)
    requires forall t | t in ts :: Plain(t)
    ensures FiltersOfAll(ts) == ts
  {
    if ts != [] {
      var t := ts[0];
      assert t in ts;
      assert Fields([t][..0]) == [];
      assert Filters(t) == [t];
      PlainSurvive(ts[1..]);
    }
  }

  /** The list comes back exactly when every glob is non-empty, free of outer spaces
      and free of commas. Nothing enforces that on a YipYapSource. */
  lemma FilterRoundTrip(ts: seq<string>)
    ensures Filters(Join(ts)) == ts <==> forall t | t in ts :: Plain(t)
  {
    if forall t | t in ts :: Plain(t) {
      ParseJoin(ts);
      PlainSurvive(ts);
    } else {
      FiltersPlain(Join(ts));
    }
  }

  /** What was parsed once is a fixed point of joining and parsing again. */
  lemma FilterFixedPoint(raw: string)
    ensures Filters(Join(Filters(raw))) == Filters(raw)
  {
    FiltersPlain(raw);
    FilterRoundTrip(Filters(raw));
  }

  // ---------------------------------------------------------------------------
  // LoadConfig
  // ---------------------------------------------------------------------------

  predicate AcceptedMode(mode: string) {
    mode == "" || mode == "poll" || mode == "stream"
  }

  function Load(env: Env, lib: Library): Result<Config, ConfigError> {
    var raw, interval := env(K_CE_OVERRIDES), env(YIPYAP_POLL_INTERVAL);
    if env(K_SINK) == "" then Err(SinkRequired)
    else if env(YIPYAP_API_KEY) == "" then Err(ApiKeyRequired)
    else if raw != "" && lib.unmarshal(raw).None? then Err(InvalidOverrides)
    else if interval != "" && lib.parseDuration(interval).None? then Err(InvalidInterval)
    else if !AcceptedMode(env(YIPYAP_MODE)) then Err(InvalidMode(env(YIPYAP_MODE)))
    else
      Ok(Config(env(K_SINK),
                if raw != "" && lib.unmarshal(raw).value.Some? then lib.unmarshal(raw).value.value else map[],
                env(YIPYAP_API_KEY),
                DefaultStr(env(YIPYAP_BASE_URL), DEFAULT_BASE_URL),
                Filters(env(YIPYAP_EVENT_FILTER)),
                env(YIPYAP_MODE),
                if interval != "" then lib.parseDuration(interval).value else DEFAULT_POLL_INTERVAL,
                DefaultStr(env(YIPYAP_CURSOR_PATH), "/var/run/yipyap/cursor"),
                DefaultStr(env(YIPYAP_HEALTH_ADDR), ":8080"),
                "/etc/yipyap/source-mode"))
  }

  lemma LoadedModeAccepted(env: Env, lib: Library)
    requires Load(env, lib).Ok?
    ensures Load(env, lib).value.mode == env(YIPYAP_MODE) && AcceptedMode(env(YIPYAP_MODE))
  {
  }

  /** The parser as it runs: a configuration with its defaults, filled in field by
      field, and given up at the first error. */
  method LoadConfig(env: Env, lib: Library) returns (r: Result<Config, ConfigError>)
    ensures r == Load(env, lib)
    ensures r.Ok? <==>
              && env(K_SINK) != "" && env(YIPYAP_API_KEY) != ""
              && (env(K_CE_OVERRIDES) != "" ==> lib.unmarshal(env(K_CE_OVERRIDES)).Some?)
              && (env(YIPYAP_POLL_INTERVAL) != "" ==> lib.parseDuration(env(YIPYAP_POLL_INTERVAL)).Some?)
              && (env(YIPYAP_MODE) == "" || env(YIPYAP_MODE) == "poll" || env(YIPYAP_MODE) == "stream")
    ensures r.Err? ==>
              r.error == (if env(K_SINK) == "" then SinkRequired
                          else if env(YIPYAP_API_KEY) == "" then ApiKeyRequired
                          else if env(K_CE_OVERRIDES) != "" && lib.unmarshal(env(K_CE_OVERRIDES)).None? then InvalidOverrides
                          else if env(YIPYAP_POLL_INTERVAL) != "" && lib.parseDuration(env(YIPYAP_POLL_INTERVAL)).None?
                          then InvalidInterval
                          else InvalidMode(env(YIPYAP_MODE)))
    ensures r.Ok? ==>
              && r.value.sink == env(K_SINK) && r.value.apiKey == env(YIPYAP_API_KEY) && r.value.mode == env(YIPYAP_MODE)
              && r.value.baseUrl == (if env(YIPYAP_BASE_URL) == "" then "https://console.yipyap.run" else env(YIPYAP_BASE_URL))
              && r.value.cursorPath
                 == (if env(YIPYAP_CURSOR_PATH) == "" then "/var/run/yipyap/cursor" else env(YIPYAP_CURSOR_PATH))
              && r.value.healthAddr == (if env(YIPYAP_HEALTH_ADDR) == "" then ":8080" else env(YIPYAP_HEALTH_ADDR))
              && r.value.crModeFilePath == "/etc/yipyap/source-mode"
              && r.value.eventFilters == Filters(env(YIPYAP_EVENT_FILTER))
              && r.value.pollInterval == (if env(YIPYAP_POLL_INTERVAL) == "" then 5_000_000_000
                                          else lib.parseDuration(env(YIPYAP_POLL_INTERVAL)).value)
              && r.value.ceOverrides
                 == (if env(K_CE_OVERRIDES) == "" || lib.unmarshal(env(K_CE_OVERRIDES)).value.None? then map[]
                     else lib.unmarshal(env(K_CE_OVERRIDES)).value.value)
  {
    var filters := ParseEventFilters(env(YIPYAP_EVENT_FILTER));
    var cfg := Config(env(K_SINK), map[], env(YIPYAP_API_KEY), DefaultStr(env(YIPYAP_BASE_URL), DEFAULT_BASE_URL),
                      filters, env(YIPYAP_MODE), DEFAULT_POLL_INTERVAL,
                      DefaultStr(env(YIPYAP_CURSOR_PATH), "/var/run/yipyap/cursor"),
                      DefaultStr(env(YIPYAP_HEALTH_ADDR), ":8080"), "/etc/yipyap/source-mode");
    if cfg.sink == "" {
      return Err(SinkRequired);
    }
    if cfg.apiKey == "" {
      return Err(ApiKeyRequired);
    }
    var raw := env(K_CE_OVERRIDES);
    if raw != "" {
      var envelope := lib.unmarshal(raw);
      if envelope.None? {
        return Err(InvalidOverrides);
      }
      if envelope.value.Some? {
        cfg := cfg.(ceOverrides := envelope.value.value);
      }
    }
    var interval := env(YIPYAP_POLL_INTERVAL);
    if interval != "" {
      var d := lib.parseDuration(interval);
      if d.None? {
        return Err(InvalidInterval);
      }
      cfg := cfg.(pollInterval := d.value);
    }
    if !AcceptedMode(cfg.mode) {
      return Err(InvalidMode(cfg.mode));
    }
    r := Ok(cfg);
  }
}
