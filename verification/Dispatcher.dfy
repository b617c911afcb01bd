/** The adapter's core loop (Run in run.go), timed: resolve, run the chosen transport
    for the resolution's window, resolve again. */
module Dispatcher {
  import opened Prelude
  import Durations
  import opened AdapterConfig
  import opened Mode
  import AdapterDeployment
  import Backoff

  const MIN_REFRESH_AFTER: int := 60_000_000_000
  const RESOLVE_ERR_BACKOFF: int := 30_000_000_000

  /** One turn of the poll loop's select: how long until the ticker fires, how long the
      tick keeps the loop busy, and which case is picked when both are ready. */
  datatype Turn = Turn(untilTick: nat, busy: nat, tickFirst: bool)

  /** What one pass of the loop meets: the files and answers ResolveMode reads, how
      long it took, how late the error wait ended, and what the transport goes through. */
  datatype Pass = Pass(crFile: Option<string>, hint: Option<Hint>, resolveTook: nat, late: nat,
                       turns: seq<Turn>, connections: seq<Backoff.Connection>)

  /** When the select loop of PollClient.Run has left, if its first n turns bring it that
      far, and else when the n-th has finished. Only the end of its context leaves it. */
  function Polled(window: nat, turns: seq<Turn>, n: nat): (r: (bool, nat))
    requires n <= |turns|
    ensures r.0 ==> r.1 >= window
  {
    if n == 0 then (false, 0)
    else
      var (left, t) := Polled(window, turns, n - 1);
      var fires, ends := t + turns[n - 1].untilTick, Durations.Max(t, window);
      if left then (true, t)
      else if fires > ends || (fires == ends && !turns[n - 1].tickFirst) then (true, ends)
      else (false, fires + turns[n - 1].busy)
  }

  lemma {:induction false} LeftStays(window: nat, turns: seq<Turn>, i: nat, n: nat)
    requires i <= n <= |turns| && Polled(window, turns, i).0
    ensures Polled(window, turns, n) == Polled(window, turns, i)
  {
    if i < n {
      LeftStays(window, turns, i, n - 1);
    }
  }

  /** When it leaves: in the first turn in which the context ends before the ticker fires,
      or with it; at the end of the window, or of a tick that goes on for longer. */
  lemma {:induction false} LeavesWhenOver(window: nat, turns: seq<Turn>, n: nat) returns (i: nat)
    requires n <= |turns| && Polled(window, turns, n).0
    ensures i < n && !Polled(window, turns, i).0
    ensures var busy, end := Polled(window, turns, i).1, Polled(window, turns, n).1;
            && end == (if busy < window then window else busy) && busy + turns[i].untilTick >= end
  {
    if Polled(window, turns, n - 1).0 {
      i := LeavesWhenOver(window, turns, n - 1);
    } else {
      i := n - 1;
    }
  }

  /** Until then every tick has fired and run its course, none after the window unless the
      tick before it took so long. */
  lemma {:induction false} TicksUntilThen(window: nat, turns: seq<Turn>, n: nat, i: nat)
    requires i <= n <= |turns| && !Polled(window, turns, n).0
    ensures Polled(window, turns, i) == (false, Lasted(turns, i))
    ensures i < n ==>
              Lasted(turns, i) + turns[i].untilTick <= (if Lasted(turns, i) < window then window else Lasted(turns, i))
  {
    if n > 0 {
      if i < n {
        TicksUntilThen(window, turns, n - 1, i);
      } else {
        TicksUntilThen(window, turns, n - 1, n - 1);
      }
    }
  }

  /** The first n turns, one after the other. */
  function Lasted(turns: seq<Turn>, n: nat): nat
    requires n <= |turns|
  {
    if n == 0 then 0 else Lasted(turns, n - 1) + turns[n - 1].untilTick + turns[n - 1].busy
  }

  method PollSession(window: nat, turns: seq<Turn>) returns (done: bool, end: nat)
    ensures (done, end) == Polled(window, turns, |turns|)
  {
    done, end := false, 0;
    for i := 0 to |turns|
      invariant (false, end) == Polled(window, turns, i) && !done
    {
      var fires, ends := end + turns[i].untilTick, Durations.Max(end, window);
      if fires > ends || (fires == ends && !turns[i].tickFirst) {
        done, end := true, ends;
        LeftStays(window, turns, i + 1, |turns|);
        return;
      }
      end := fires + turns[i].busy;
    }
  }

  function SessionWindow(r: Resolution): (w: int)
    ensures w == if r.refreshAfter < 60_000_000_000 then 60_000_000_000 else r.refreshAfter
  {
    if r.refreshAfter < MIN_REFRESH_AFTER then MIN_REFRESH_AFTER else r.refreshAfter
  }

  type Resolved = Result<Resolution, string>

  /** The least time from one resolution to the next: 30 s after an error, and after a
      success the session's whole window. */
  function LeastGap(r: Resolved): (gap: int)
    ensures gap >= 30_000_000_000
    ensures r.Ok? ==> gap >= 60_000_000_000
  {
    if r.Ok? then SessionWindow(r.value) else RESOLVE_ERR_BACKOFF
  }

  /** time.NewTicker panics: the resolution is for polling at an interval that is not
      positive. */
  predicate Panics(r: Resolved) {
    r.Ok? && r.value.mode.Poll? && r.value.pollInterval <= 0
  }

  /** How long one pass takes before the loop goes round; None if it panics or if the
      transport is still running when the pass's script ends. */
  function PassTook(r: Resolved, p: Pass): (took: Option<nat>)
    ensures took.Some? ==> took.value >= LeastGap(r)
    ensures r.Err? ==> took == Some(p.resolveTook + 30_000_000_000 + p.late)
  {
    if r.Err? then Some(p.resolveTook + RESOLVE_ERR_BACKOFF + p.late)
    else if Panics(r) then None
    else
      var window := SessionWindow(r.value);
      var (over, t) := if r.value.mode.Poll? then Polled(window, p.turns, |p.turns|)
                       else Backoff.After(window, p.connections, |p.connections|);
      if over then Some(p.resolveTook + t) else None
  }

  /** A poll resolution runs the poll loop and a stream resolution the stream, each for the
      session's window. */
  lemma TransportOfMode(r: Resolution, p: Pass)
    requires !Panics(Ok(r))
    ensures r.mode.Poll? ==>
              PassTook(Ok(r), p) == if Polled(SessionWindow(r), p.turns, |p.turns|).0
                                    then Some(p.resolveTook + Polled(SessionWindow(r), p.turns, |p.turns|).1) else None
    ensures r.mode.Stream? ==>
              PassTook(Ok(r), p) == if Backoff.After(SessionWindow(r), p.connections, |p.connections|).0
                                    then Some(p.resolveTook
                                              + Backoff.After(SessionWindow(r), p.connections, |p.connections|).1)
                                    else None
  {
  }

  /** When the loop comes to its k-th resolution: at once, or when the pass before it has
      gone its length. */
  predicate ComesAt(passes: seq<Pass>, results: seq<Resolved>, starts: seq<nat>, k: nat, now: nat)
    requires k <= |results| == |starts| <= |passes|
  {
    if k == 0 then now == 0
    else PassTook(results[k - 1], passes[k - 1]).Some?
         && now == starts[k - 1] + PassTook(results[k - 1], passes[k - 1]).value
  }

  /** The k-th resolution is ResolveMode's, made when the loop comes to it. */
  ghost predicate MadeInTurn(cfg: Config, passes: seq<Pass>, results: seq<Resolved>, starts: seq<nat>, k: nat)
    requires k < |results| == |starts| <= |passes|
  {
    results[k] == Resolve(cfg, passes[k].crFile, passes[k].hint) && ComesAt(passes, results, starts, k, starts[k])
  }

  /** What the loop has resolved and when. */
  ghost predicate Timeline(cfg: Config, passes: seq<Pass>, results: seq<Resolved>, starts: seq<nat>) {
    && |results| == |starts| <= |passes|
    && forall k: nat | k < |results| :: MadeInTurn(cfg, passes, results, starts, k)
  }

  /** The loop, for as long as the parent context lives. It stops before its script
      does only in a pass that does not come to an end, which is a panic if the poll
      interval is not positive and a running transport otherwise. */
  method Run(cfg: Config, passes: seq<Pass>) returns (starts: seq<nat>, results: seq<Resolved>, panicked: bool)
    ensures Timeline(cfg, passes, results, starts)
    ensures passes != [] ==> results != []
    ensures 0 < |results| < |passes| ==> PassTook(results[|results| - 1], passes[|results| - 1]).None?
    ensures panicked <==> results != [] && Panics(results[|results| - 1])
  {
    starts, results, panicked := [], [], false;
    var now: nat := 0;
    for i := 0 to |passes|
      invariant |results| == i && !panicked && Timeline(cfg, passes, results, starts)
      invariant ComesAt(passes, results, starts, i, now)
    {
      var result, took, panics := OnePass(cfg, passes[i]);
      TimelineNext(cfg, passes, results, starts, result, now);
      starts, results := starts + [now], results + [result];
      if panics {
        panicked := true;
        return;
      }
      if took.None? {
        return;
      }
      now := now + took.value;
    }
  }

  lemma TimelineNext(cfg: Config, passes: seq<Pass>, results: seq<Resolved>, starts: seq<nat>, r: Resolved, now: nat)
    requires Timeline(cfg, passes, results, starts) && |results| < |passes|
    requires r == Resolve(cfg, passes[|results|].crFile, passes[|results|].hint)
    requires ComesAt(passes, results, starts, |results|, now)
    ensures Timeline(cfg, passes, results + [r], starts + [now])
  {
    forall k: nat | k <= |results| ensures MadeInTurn(cfg, passes, results + [r], starts + [now], k) {
      if k < |results| {
        assert MadeInTurn(cfg, passes, results, starts, k);
      }
    }
  }

  method OnePass(cfg: Config, p: Pass) returns (result: Resolved, took: Option<nat>, panics: bool)
    ensures result == Resolve(cfg, p.crFile, p.hint)
    ensures took == PassTook(result, p)
    ensures panics == Panics(result)
  {
    result := Resolve(cfg, p.crFile, p.hint);
    if result.Err? {
      return result, Some(p.resolveTook + RESOLVE_ERR_BACKOFF + p.late), false;
    }
    var refresh := result.value.refreshAfter;
    if refresh < MIN_REFRESH_AFTER {
      refresh := MIN_REFRESH_AFTER;
    }
    var done, end := true, 0;
    if result.value.mode.Poll? {
      if result.value.pollInterval <= 0 {
        return result, None, true;
      }
      done, end := PollSession(refresh, p.turns);
    } else if result.value.mode.Stream? {
      var attempts, waits;
      attempts, waits, done, end := Backoff.Run(refresh, p.connections);
    }
    took := if done then Some(p.resolveTook + end) else None;
    panics := false;
  }

  /** From one resolution to the next it takes at least the gap. */
  lemma TimelineGap(cfg: Config, passes: seq<Pass>, results: seq<Resolved>, starts: seq<nat>, k: nat)
    requires Timeline(cfg, passes, results, starts) && 0 < k < |starts|
    ensures starts[k] - starts[k - 1] >= LeastGap(results[k - 1])
  {
    assert MadeInTurn(cfg, passes, results, starts, k);
  }

  /** At least 30 s from one resolution to the next, and a minute if none fails. */
  lemma {:induction false} ResolvesApart(cfg: Config, passes: seq<Pass>, results: seq<Resolved>, starts: seq<nat>,
                                         i: nat, j: nat)
    requires Timeline(cfg, passes, results, starts) && i <= j < |starts|
    ensures starts[j] - starts[i] >= 30_000_000_000 * (j - i)
    ensures (forall r | r in results :: r.Ok?) ==> starts[j] - starts[i] >= 60_000_000_000 * (j - i)
    decreases j
  {
    if i < j {
      ResolvesApart(cfg, passes, results, starts, i, j - 1);
      TimelineGap(cfg, passes, results, starts, j);
      assert results[j - 1] in results;
    }
  }

  lemma AcceptedNeverErrs(cfg: Config, passes: seq<Pass>, results: seq<Resolved>, starts: seq<nat>)
    requires AcceptedMode(cfg.mode) && Timeline(cfg, passes, results, starts)
    ensures forall r | r in results :: r.Ok?
  {
    forall k: nat | k < |results| ensures results[k].Ok? {
      assert MadeInTurn(cfg, passes, results, starts, k);
      AcceptedResolves(cfg, passes[k].crFile, passes[k].hint);
    }
  }

  /** A configuration that loaded never has an error to wait out: in any run of the
      loop its resolutions are at least a minute apart, whatever the server hints. */
  lemma NoResolveStorm(env: Env, lib: Library, passes: seq<Pass>, results: seq<Resolved>, starts: seq<nat>, i: nat, j: nat)
    requires Load(env, lib).Ok? && Timeline(Load(env, lib).value, passes, results, starts)
    requires i <= j < |starts|
    ensures starts[j] - starts[i] >= 60_000_000_000 * (j - i)
  {
    LoadedModeAccepted(env, lib);
    AcceptedNeverErrs(Load(env, lib).value, passes, results, starts);
    ResolvesApart(Load(env, lib).value, passes, results, starts, i, j);
  }

  /** An environment whose interval is minus five seconds: it loads, and every session
      panics, whatever the mode file and the server say. */
  lemma NegativeIntervalPanics(env: Env, lib: Library, file: Option<string>, hint: Option<Hint>)
    requires env(K_SINK) == "s" && env(YIPYAP_API_KEY) == "k" && env(K_CE_OVERRIDES) == "" && env(YIPYAP_MODE) == "poll"
    requires env(YIPYAP_POLL_INTERVAL) == "-5s" && lib.parseDuration("-5s") == Some(-5_000_000_000)
    ensures Load(env, lib).Ok? && Panics(Resolve(Load(env, lib).value, file, hint))
  {
    NonPositiveIntervalLoads(env, lib, file, hint);
  }

  /** The hint is in force and its seconds overflow to an interval that is not positive. */
  predicate HintOverflows(r: Resolved, hint: Option<Hint>) {
    && r.Ok? && r.value.mode.Poll? && r.value.source.FromServer?
    && hint.Some? && hint.value.pollIntervalSeconds > 0 && !PositiveSeconds(hint.value.pollIntervalSeconds)
  }

  lemma PanicsIffHintOverflows(cfg: Config, file: Option<string>, hint: Option<Hint>)
    requires AcceptedMode(cfg.mode) && cfg.pollInterval > 0
    ensures Panics(Resolve(cfg, file, hint)) <==> HintOverflows(Resolve(cfg, file, hint), hint)
  {
    AcceptedResolves(cfg, file, hint);
    if Resolve(cfg, file, hint).value.mode.Poll? {
      TickerPositive(cfg, file, hint);
    }
  }

  /** An adapter the controller rendered panics only by a server's hint, and exactly by one
      in force that overflows. */
  lemma RenderedPanicsIffHintOverflows(name: string, spec: AdapterDeployment.SourceSpec, sinkUri: string, image: string,
                                       lib: Library, c: AdapterDeployment.Cluster, env: Env, file: Option<string>,
                                       hint: Option<Hint>)
    requires env == AdapterDeployment.ContainerEnv(AdapterDeployment.RenderTemplate(name, spec, sinkUri, image, lib), c)
    requires Load(env, lib).Ok?
    ensures Panics(Resolve(Load(env, lib).value, file, hint))
            <==> HintOverflows(Resolve(Load(env, lib).value, file, hint), hint)
  {
    AdapterDeployment.IntervalIsDefault(name, spec, sinkUri, image, lib, c);
    LoadedModeAccepted(env, lib);
    PanicsIffHintOverflows(Load(env, lib).value, file, hint);
  }
}
