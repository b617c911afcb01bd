/** Which transport the adapter uses, and for how long (mode.go). */
module Mode {
  import opened Prelude
  import opened Text
  import opened Durations
  import opened AdapterConfig

  datatype Layer = FromEnv | FromCR | FromServer | FromDefault

  /** What a mode string says once it is trimmed and lower-cased. */
  datatype Word = Blank | Auto | Poll | Stream | Other

  datatype Resolution = Resolution(mode: Word, pollInterval: int, refreshAfter: int, source: Layer)

  /** GET /api/v1/knative/source-config; its integers are Go ints. */
  datatype Hint = Hint(recommendedMode: string, pollIntervalSeconds: int, refreshAfterSeconds: int)

  const DEFAULT_REFRESH_AFTER: int := 300_000_000_000

  /** Every layer is read this way. */
  function WordOf(s: string): Word {
    var n := ToLower(TrimSpace(s));
    if n == "" then Blank else if n == "auto" then Auto else if n == "poll" then Poll
    else if n == "stream" then Stream else Other
  }

  /** time.Duration(n) * time.Second, in an int64. */
  function Seconds(n: int): int {
    Wrap64(n * 1_000_000_000)
  }

  /** Anything but "stream" is poll. */
  function ResolutionFromHint(h: Hint, cfg: Config): Resolution {
    Resolution(if WordOf(h.recommendedMode).Stream? then Stream else Poll,
               if h.pollIntervalSeconds > 0 then Seconds(h.pollIntervalSeconds) else cfg.pollInterval,
               if h.refreshAfterSeconds > 0 then Seconds(h.refreshAfterSeconds) else DEFAULT_REFRESH_AFTER,
               FromServer)
  }

  /** ResolveMode on what it reads: the configuration, the controller's mode file if
      readable, the server's hint if the call succeeds. A blank or unrecognised file
      has no opinion. */
  function Resolve(cfg: Config, file: Option<string>, hint: Option<Hint>): Result<Resolution, string> {
    match WordOf(cfg.mode)
    case Poll => Ok(Resolution(Poll, cfg.pollInterval, DEFAULT_REFRESH_AFTER, FromEnv))
    case Stream => Ok(Resolution(Stream, 0, DEFAULT_REFRESH_AFTER, FromEnv))
    case Other => Err(cfg.mode)
    case _ =>
      var crMode := if file.Some? then WordOf(file.value) else Blank;
      if crMode.Poll? || crMode.Stream? then Ok(Resolution(crMode, cfg.pollInterval, DEFAULT_REFRESH_AFTER, FromCR))
      else if hint.Some? then Ok(ResolutionFromHint(hint.value, cfg))
      else Ok(Resolution(Poll, cfg.pollInterval, DEFAULT_REFRESH_AFTER, FromDefault))
  }

  lemma WordBlank()
    ensures WordOf("") == Blank
  {
  }

  lemma WordAuto()
    ensures WordOf("auto") == Auto
  {
    assert Trimmed("auto");
    assert ToLower("auto") == "auto";
  }

  lemma WordPoll()
    ensures WordOf("poll") == Poll
  {
    assert Trimmed("poll");
    assert ToLower("poll") == "poll";
  }

  lemma WordStream()
    ensures WordOf("stream") == Stream
  {
    assert Trimmed("stream");
    assert ToLower("stream") == "stream";
  }

  /** The modes LoadConfig accepts mean what they say. */
  lemma AcceptedWords(mode: string)
    requires AcceptedMode(mode)
    ensures WordOf(mode) == if mode == "" then Blank else if mode == "poll" then Poll else Stream
  {
    if mode == "" {
      WordBlank();
    } else if mode == "poll" {
      WordPoll();
    } else {
      WordStream();
    }
  }

  /** A mode LoadConfig accepts always resolves, and poll or stream wins over every
      other layer. */
  lemma AcceptedResolves(cfg: Config, file: Option<string>, hint: Option<Hint>)
    requires AcceptedMode(cfg.mode)
    ensures Resolve(cfg, file, hint).Ok?
    ensures cfg.mode == "poll" ==> Resolve(cfg, file, hint).value.mode == Poll
    ensures cfg.mode == "stream" ==> Resolve(cfg, file, hint).value.mode == Stream
    ensures cfg.mode != "" ==> Resolve(cfg, file, hint).value.source == FromEnv
  {
    AcceptedWords(cfg.mode);
  }

  /** ResolveMode would take "auto" as it takes an empty mode, but LoadConfig does not
      let it get there. */
  lemma AutoWouldResolve(cfg: Config, file: Option<string>, hint: Option<Hint>)
    ensures Resolve(cfg.(mode := "auto"), file, hint).Ok?
    ensures Resolve(cfg.(mode := "auto"), file, hint) == Resolve(cfg.(mode := ""), file, hint)
    ensures !AcceptedMode("auto")
  {
    WordAuto();
    WordBlank();
  }

  /** A word is read in any case and with any space around it. */
  lemma WordOfPadded(a: string, w: string, b: string)
    requires AllSpace(a) && AllSpace(b) && w != "" && Trimmed(w)
    ensures WordOf(a + w + b).Poll? <==> ToLower(w) == "poll"
    ensures WordOf(a + w + b).Stream? <==> ToLower(w) == "stream"
    ensures WordOf(a + w + b).Auto? <==> ToLower(w) == "auto"
    ensures !WordOf(a + w + b).Blank?
  {
    TrimPadded(a, w, b);
  }

  /** Every text is such a word, or all space. */
  lemma BlankIsSpace(s: string)
    ensures WordOf(s).Blank? <==> AllSpace(s)
  {
    var a, b := TrimSpaceMeans(s);
    assert TrimSpace(s) != "" ==> s[|a|] == TrimSpace(s)[0];
  }

  /** The chain, layer by layer: a configured mode decides; a blank one or auto leaves it to
      the file, if that says poll or stream; then to the server's hint, for which anything
      but stream is poll; and then it is poll. */
  lemma EachLayer(cfg: Config, file: Option<string>, hint: Option<Hint>)
    ensures var word, r := WordOf(cfg.mode), Resolve(cfg, file, hint);
            && (r.Err? <==> word.Other?)
            && (word.Poll? ==> r == Ok(Resolution(Poll, cfg.pollInterval, 300_000_000_000, FromEnv)))
            && (word.Stream? ==> r == Ok(Resolution(Stream, 0, 300_000_000_000, FromEnv)))
            && (word.Blank? || word.Auto? ==>
                  if file.Some? && (WordOf(file.value).Poll? || WordOf(file.value).Stream?)
                  then r == Ok(Resolution(WordOf(file.value), cfg.pollInterval, 300_000_000_000, FromCR))
                  else if hint.Some? then r.Ok? && r.value.source == FromServer && FollowsHint(cfg, hint.value, r.value)
                  else r == Ok(Resolution(Poll, cfg.pollInterval, 300_000_000_000, FromDefault)))
  {
    if hint.Some? {
      HintFollowed(cfg, hint.value);
    }
  }

  /** What a hint means: its mode, and its seconds as far as they fit. */
  predicate FollowsHint(cfg: Config, h: Hint, r: Resolution) {
    && r.mode == (if WordOf(h.recommendedMode).Stream? then Stream else Poll)
    && (h.pollIntervalSeconds <= 0 ==> r.pollInterval == cfg.pollInterval)
    && (0 < h.pollIntervalSeconds <= 9_223_372_036 ==> r.pollInterval == h.pollIntervalSeconds * 1_000_000_000)
    && (h.refreshAfterSeconds <= 0 ==> r.refreshAfter == 300_000_000_000)
    && (0 < h.refreshAfterSeconds <= 9_223_372_036 ==> r.refreshAfter == h.refreshAfterSeconds * 1_000_000_000)
  }

  lemma HintFollowed(cfg: Config, h: Hint)
    ensures FollowsHint(cfg, h, ResolutionFromHint(h, cfg))
  {
    assert TWO_63 == 9_223_372_036_854_775_808;
  }

  /** In particular a hint of "stream" streams, and no other hint does. */
  lemma StreamIffHinted(cfg: Config, file: Option<string>, h: Hint)
    requires cfg.mode == "" && file.None?
    ensures var r := Resolve(cfg, file, Some(h));
            r.Ok? && (r.value.mode.Stream? <==> ToLower(TrimSpace(h.recommendedMode)) == "stream")
                  && (r.value.mode.Poll? <==> ToLower(TrimSpace(h.recommendedMode)) != "stream")
  {
    WordBlank();
  }

  /** A layer is consulted only when those above it are silent: what an upper layer
      decided does not depend on the lower ones. */
  lemma Precedence(cfg: Config, file: Option<string>, hint: Option<Hint>, file': Option<string>, hint': Option<Hint>)
    requires Resolve(cfg, file, hint).Ok?
    ensures Resolve(cfg, file, hint).value.source.FromEnv? ==> Resolve(cfg, file', hint') == Resolve(cfg, file, hint)
    ensures Resolve(cfg, file, hint).value.source.FromCR? ==> Resolve(cfg, file, hint') == Resolve(cfg, file, hint)
    ensures Resolve(cfg, file, hint).value.source.FromServer? ==> hint.Some?
    ensures Resolve(cfg, file, hint).value.source.FromDefault? ==> hint.None?
  {
  }

  // ---------------------------------------------------------------------------
  // Durations
  // ---------------------------------------------------------------------------

  /** The product is exact exactly up to 9223372036 seconds. */
  lemma SecondsExact(n: int)
    requires 0 < n < TWO_63
    ensures Seconds(n) == n * 1_000_000_000 <==> n <= 9_223_372_036
    ensures n <= 9_223_372_036 ==> Seconds(n) > 0
  {
    assert TWO_63 == 9_223_372_036_854_775_808;
  }

  /** An int64 keeps the remainder of a half range after an even count of them, and is
      negative after an odd one. */
  lemma WrapSign(x: int, count: int, rest: int)
    requires x == count * TWO_63 + rest && 0 <= rest < TWO_63
    ensures if count % 2 == 0 then Wrap64(x) == rest else Wrap64(x) == rest - TWO_63
  {
    var j := count / 2;
    if count % 2 == 0 {
      assert x + TWO_63 == 2 * TWO_63 * j + (rest + TWO_63);
    } else {
      assert x + TWO_63 == 2 * TWO_63 * (j + 1) + rest;
    }
  }

  /** A billion is 2^9 times an odd number, which has an inverse modulo 2^55: a product
      that 2^64 divides comes of a factor that 2^55 divides. */
  lemma OddFactor(n: int, q: int)
    requires n * 1_953_125 == q * 0x80_0000_0000_0000
    ensures n % 0x80_0000_0000_0000 == 0
  {
    assert n == 0x80_0000_0000_0000 * (20_211_507_185_753_197 * q - 1_095_668 * n);
  }

  lemma SecondsZero(n: int)
    ensures Seconds(n) == 0 <==> n % 0x80_0000_0000_0000 == 0
  {
    var x := n * 1_000_000_000;
    var count, rest := x / TWO_63, x % TWO_63;
    WrapSign(x, count, rest);
    if Seconds(n) == 0 {
      assert x == count / 2 * 0x1_0000_0000_0000_0000;
      OddFactor(n, count / 2);
    }
    if n % 0x80_0000_0000_0000 == 0 {
      var i := n / 0x80_0000_0000_0000;
      assert x == 2 * (1_953_125 * i) * TWO_63;
      WrapSign(x, 2 * (1_953_125 * i), 0);
    }
  }

  /** The seconds of a hint whose product, which may overflow, is still positive: not a
      multiple of 2^55, and an even count of half ranges long. */
  predicate PositiveSeconds(n: int) {
    n % 0x80_0000_0000_0000 != 0 && (n * 1_000_000_000 / TWO_63) % 2 == 0
  }

  lemma SecondsSign(n: int)
    ensures Seconds(n) > 0 <==> PositiveSeconds(n)
  {
    var x := n * 1_000_000_000;
    WrapSign(x, x / TWO_63, x % TWO_63);
    SecondsZero(n);
  }

  /** Up to 9223372036 seconds nothing overflows, one more gives a negative interval, and
      9223372036 + 9223372037 a positive one again. */
  lemma SecondsOverflow()
    ensures forall n | 0 < n <= 9_223_372_036 :: PositiveSeconds(n)
    ensures Seconds(9_223_372_037) < 0
    ensures Seconds(18_446_744_074) > 0
  {
    assert TWO_63 == 9_223_372_036_854_775_808;
  }

  /** The interval a poll session hands to time.NewTicker, which panics unless it is
      positive: it is exactly if the hint in force names seconds that stay positive, or
      if there is none and the configured interval is. */
  lemma TickerPositive(cfg: Config, file: Option<string>, hint: Option<Hint>)
    requires Resolve(cfg, file, hint).Ok? && Resolve(cfg, file, hint).value.mode == Poll
    ensures Resolve(cfg, file, hint).value.pollInterval > 0 <==>
              if Resolve(cfg, file, hint).value.source.FromServer? && hint.value.pollIntervalSeconds > 0
              then PositiveSeconds(hint.value.pollIntervalSeconds)
              else cfg.pollInterval > 0
  {
    if hint.Some? {
      SecondsSign(hint.value.pollIntervalSeconds);
    }
  }

  /** Exactly these environments of mode poll load: the interval has to be a duration, of
      whatever sign. It is then the interval of every poll session. */
  lemma NonPositiveIntervalLoads(env: Env, lib: Library, file: Option<string>, hint: Option<Hint>)
    requires env(YIPYAP_MODE) == "poll"
    ensures Load(env, lib).Ok? <==>
              && env(K_SINK) != "" && env(YIPYAP_API_KEY) != ""
              && (env(K_CE_OVERRIDES) != "" ==> lib.unmarshal(env(K_CE_OVERRIDES)).Some?)
              && (env(YIPYAP_POLL_INTERVAL) != "" ==> lib.parseDuration(env(YIPYAP_POLL_INTERVAL)).Some?)
    ensures Load(env, lib).Ok? ==>
              var r := Resolve(Load(env, lib).value, file, hint);
              r.Ok? && r.value.mode == Poll
              && r.value.pollInterval == (if env(YIPYAP_POLL_INTERVAL) == "" then DEFAULT_POLL_INTERVAL
                                          else lib.parseDuration(env(YIPYAP_POLL_INTERVAL)).value)
  {
    if Load(env, lib).Ok? {
      AcceptedResolves(Load(env, lib).value, file, hint);
    }
  }
}
