/** The reconnect loop of a stream session (run in stream.go), timed. */
module Backoff {
  import Durations

  /** 250 ms and 30 s. */
  const BACKOFF_INITIAL: int := 250_000_000
  const BACKOFF_CAP: int := 30_000_000_000

  /** One connection: how long it lasted, whether it saw an event, and how much later
      than the backoff the timer let the loop go on. */
  datatype Connection = Connection(lasted: nat, gotEvent: bool, late: nat)

  function Pow2(k: nat): (p: nat)
    ensures p >= 1
  {
    if k == 0 then 1 else 2 * Pow2(k - 1)
  }

  /** The closed form of the wait after k fruitless disconnects. */
  function Wait(k: nat): (w: int)
    ensures BACKOFF_INITIAL <= w <= BACKOFF_CAP
  {
    Durations.Min(250_000_000 * Pow2(k), 30_000_000_000)
  }

  /** The disconnects since the latest one, up to i, whose connection saw an event, or
      since the first. */
  function Fruitless(connections: seq<Connection>, i: nat): (k: nat)
    requires i < |connections|
    ensures k <= i
  {
    if i == 0 || connections[i].gotEvent then 0 else Fruitless(connections, i - 1) + 1
  }

  /** That count is what its name says: it reaches back exactly to the latest
      disconnect that saw an event, or to the first one. */
  lemma {:induction false} FruitlessReachesBack(connections: seq<Connection>, i: nat, j: nat)
    requires j <= i < |connections|
    ensures j == i - Fruitless(connections, i) <==>
              && (j == 0 || connections[j].gotEvent)
              && forall m | j < m <= i :: !connections[m].gotEvent
  {
    if i > 0 && !connections[i].gotEvent && j < i {
      FruitlessReachesBack(connections, i - 1, j);
    }
  }

  lemma {:induction false} Pow2Monotone(j: nat, k: nat)
    requires j <= k
    ensures Pow2(j) <= Pow2(k)
  {
    if j < k {
      Pow2Monotone(j, k - 1);
    }
  }

  /** Doubling and capping the wait is the wait one disconnect later. */
  lemma NextWait(k: nat)
    ensures Durations.Min(2 * Wait(k), BACKOFF_CAP) == Wait(k + 1)
  {
    assert Pow2(k + 1) == 2 * Pow2(k);
  }

  /** When the next attempt is due: at once, or when the latest wait is over. */
  function Due(script: seq<Connection>, starts: seq<nat>, waits: seq<int>): int
    requires |starts| == |waits| <= |script|
  {
    if starts == [] then 0
    else
      var n := |starts| - 1;
      starts[n] + script[n].lasted + waits[n] + script[n].late
  }

  /** What a session does, attempt and wait in turn: `starts` are the times of its
      connection attempts, counted from the session's start, `waits` the backoffs. */
  ghost predicate Session(window: nat, script: seq<Connection>, starts: seq<nat>, waits: seq<int>)
    decreases |starts| + |waits|
  {
    if starts == [] then waits == []
    else
      var n := |starts| - 1;
      if |starts| == |waits|
      then n < |script| && waits[n] == Wait(Fruitless(script, n)) && Session(window, script, starts, waits[..n])
      else n == |waits| < |script| && starts[n] == Due(script, starts[..n], waits) && starts[n] <= window
           && Session(window, script, starts[..n], waits)
  }

  lemma StartNext(window: nat, script: seq<Connection>, starts: seq<nat>, waits: seq<int>, t: nat)
    requires Session(window, script, starts, waits) && |starts| == |waits| < |script|
    requires t == Due(script, starts, waits) <= window
    ensures Session(window, script, starts + [t], waits)
  {
    assert (starts + [t])[..|starts|] == starts;
  }

  lemma WaitNext(window: nat, script: seq<Connection>, starts: seq<nat>, waits: seq<int>, d: int)
    requires Session(window, script, starts, waits) && |starts| == |waits| + 1 <= |script|
    requires d == Wait(Fruitless(script, |waits|))
    ensures Session(window, script, starts, waits + [d])
    ensures Due(script, starts, waits + [d]) == starts[|waits|] + script[|waits|].lasted + d + script[|waits|].late
  {
    assert (waits + [d])[..|waits|] == waits;
  }

  /** A session up to its i-th attempt is a session. */
  lemma {:induction false} SessionUpTo(window: nat, script: seq<Connection>, starts: seq<nat>, waits: seq<int>, i: nat)
    requires Session(window, script, starts, waits) && i < |starts|
    ensures |waits| <= |starts| <= |waits| + 1 && |starts| <= |script|
    ensures Session(window, script, starts[..i], waits[..i])
    ensures starts[i] == Due(script, starts[..i], waits[..i]) && starts[i] <= window
    decreases |starts| + |waits|
  {
    var n := |starts| - 1;
    if |starts| == |waits| {
      SessionUpTo(window, script, starts, waits[..n], i);
      assert waits[..n][..i] == waits[..i];
    } else if i < n {
      SessionUpTo(window, script, starts[..n], waits, i);
      assert starts[..n][..i] == starts[..i];
    } else {
      assert waits[..n] == waits;
    }
    if n > 0 && i == n && |starts| != |waits| {
      SessionUpTo(window, script, starts[..n], waits, 0);
    }
  }

  /** Every wait of a session in closed form: 250 ms doubled once for each disconnect
      since the latest that saw an event, and never more than 30 s. */
  lemma {:induction false} WaitsClosedForm(window: nat, script: seq<Connection>, starts: seq<nat>, waits: seq<int>, i: nat)
    requires Session(window, script, starts, waits) && i < |waits|
    ensures i < |script| && waits[i] == Durations.Min(250_000_000 * Pow2(Fruitless(script, i)), 30_000_000_000)
    decreases |starts| + |waits|
  {
    var n := |starts| - 1;
    if |starts| == |waits| {
      if i < n {
        WaitsClosedForm(window, script, starts, waits[..n], i);
      }
    } else {
      WaitsClosedForm(window, script, starts[..n], waits, i);
    }
  }

  /** When the session is over, if its first n connections bring it that far, and else
      when the next attempt is due. It is never over before its window is. */
  function After(window: nat, script: seq<Connection>, n: nat): (r: (bool, nat))
    requires n <= |script|
    ensures r.0 ==> r.1 >= window
  {
    if n == 0 then (false, 0)
    else
      var (over, t) := After(window, script, n - 1);
      if over then (true, t) else OneRound(window, script[n - 1], Wait(Fruitless(script, n - 1)), t)
  }

  /** The context can end while the connection lasts or during the wait after it. */
  function OneRound(window: nat, c: Connection, wait: nat, t: nat): (r: (bool, nat))
    ensures r.0 ==> r.1 >= window
  {
    if t + c.lasted >= window then (true, t + c.lasted)
    else if t + c.lasted + wait + c.late > window then (true, window)
    else (false, t + c.lasted + wait + c.late)
  }

  lemma {:induction false} OverStays(window: nat, script: seq<Connection>, i: nat, n: nat)
    requires i <= n <= |script| && After(window, script, i).0
    ensures After(window, script, n) == After(window, script, i)
  {
    if i < n {
      OverStays(window, script, i, n - 1);
    }
  }

  /** The variable backoff when the loop has gone round i times. */
  function Held(script: seq<Connection>, i: nat): int
    requires i <= |script|
  {
    if i == 0 then BACKOFF_INITIAL else Wait(Fruitless(script, i - 1) + 1)
  }

  lemma HeldNext(script: seq<Connection>, i: nat)
    requires i < |script|
    ensures (if script[i].gotEvent then BACKOFF_INITIAL else Held(script, i)) == Wait(Fruitless(script, i))
    ensures Durations.Min(2 * Wait(Fruitless(script, i)), BACKOFF_CAP) == Held(script, i + 1)
  {
    assert Pow2(0) == 1;
    NextWait(Fruitless(script, i));
  }

  /** The session has gone round for each attempt so far and `t` is when the next is due. */
  ghost predicate Going(window: nat, script: seq<Connection>, starts: seq<nat>, waits: seq<int>, t: nat) {
    && Session(window, script, starts, waits)
    && |starts| == |waits| <= |script|
    && t == Due(script, starts, waits) && t <= window
    && After(window, script, |starts|) == (false, t)
  }

  /** The session returned at `end`, during its last connection or in the wait after it. */
  ghost predicate Returned(window: nat, script: seq<Connection>, starts: seq<nat>, waits: seq<int>, end: nat) {
    && Session(window, script, starts, waits)
    && After(window, script, |script|) == (true, end)
    && 0 < |starts| <= |script|
    && (|waits| < |starts| ==> |waits| == |starts| - 1 && end == starts[|waits|] + script[|waits|].lasted >= window)
    && (|waits| >= |starts| ==> |waits| == |starts| && Due(script, starts, waits) > window == end)
  }

  lemma EndsConnected(window: nat, script: seq<Connection>, starts: seq<nat>, waits: seq<int>, t: nat)
    requires Going(window, script, starts, waits, t) && |starts| < |script|
    requires t + script[|starts|].lasted >= window
    ensures Returned(window, script, starts + [t], waits, t + script[|starts|].lasted)
  {
    StartNext(window, script, starts, waits, t);
    OverStays(window, script, |starts| + 1, |script|);
  }

  lemma RoundNext(window: nat, script: seq<Connection>, starts: seq<nat>, waits: seq<int>, t: nat, d: int)
    requires Going(window, script, starts, waits, t) && |starts| < |script| && d == Wait(Fruitless(script, |starts|))
    requires t + script[|starts|].lasted < window
    ensures var due := t + script[|starts|].lasted + d + script[|starts|].late;
            if due <= window then Going(window, script, starts + [t], waits + [d], due)
            else Returned(window, script, starts + [t], waits + [d], window)
  {
    StartNext(window, script, starts, waits, t);
    WaitNext(window, script, starts + [t], waits, d);
    if t + script[|starts|].lasted + d + script[|starts|].late > window {
      OverStays(window, script, |starts| + 1, |script|);
    }
  }

  /** The loop of run. `done` says that it returned, which it does only with its
      context's error; otherwise the script ended first. */
  method Run(window: nat, script: seq<Connection>)
    returns (starts: seq<nat>, waits: seq<int>, done: bool, end: nat)
    ensures done ==> Returned(window, script, starts, waits, end)
    ensures !done ==> |starts| == |script| && Going(window, script, starts, waits, end)
  {
    starts, waits, done, end := [], [], false, 0;
    var backoff := BACKOFF_INITIAL;
    for i := 0 to |script|
      invariant |starts| == i && !done && Going(window, script, starts, waits, end)
      invariant backoff == Held(script, i)
    {
      ghost var started := starts;
      starts := starts + [end];
      var cut := end + script[i].lasted;
      if cut >= window {
        EndsConnected(window, script, started, waits, end);
        done, end := true, cut;
        return;
      }
      if script[i].gotEvent {
        backoff := BACKOFF_INITIAL;
      }
      HeldNext(script, i);
      RoundNext(window, script, started, waits, end, backoff);
      waits := waits + [backoff];
      var due := cut + backoff + script[i].late;
      if due > window {
        // The context ends during the wait.
        done, end := true, window;
        return;
      }
      end := due;
      backoff := backoff * 2;
      if backoff > BACKOFF_CAP {
        backoff := BACKOFF_CAP;
      }
    }
  }

  // ---------------------------------------------------------------------------
  // How many connections fit in a session
  // ---------------------------------------------------------------------------

  /** The first n waits of a session without an event, added up. */
  function Sum(n: nat): int {
    if n == 0 then 0 else Sum(n - 1) + Wait(n - 1)
  }

  /** Seven doubling waits, then 30 seconds each. */
  lemma {:induction false} SumClosedForm(n: nat)
    ensures n <= 7 ==> Sum(n) == 250_000_000 * (Pow2(n) - 1)
    ensures n >= 7 ==> Sum(n) == 31_750_000_000 + 30_000_000_000 * (n - 7)
  {
    assert Pow2(7) == 128 by {
      assert Pow2(1) == 2 && Pow2(2) == 4 && Pow2(3) == 8 && Pow2(4) == 16 && Pow2(5) == 32 && Pow2(6) == 64;
    }
    if n > 0 {
      SumClosedForm(n - 1);
      if n <= 7 {
        Pow2Monotone(n - 1, 6);
        assert Pow2(6) == 64;
      } else {
        Pow2Monotone(7, n - 1);
      }
    }
  }

  /** The first n connections fail at once, and the timers after them are exact. */
  predicate Instant(script: seq<Connection>, n: nat) {
    forall j | 0 <= j < n && j < |script| :: script[j].lasted == 0 && script[j].late == 0
  }

  /** A session without events runs its attempts at least the sum of the waits apart. */
  lemma {:induction false} AttemptNotBefore(window: nat, script: seq<Connection>, starts: seq<nat>, waits: seq<int>, i: nat)
    requires Session(window, script, starts, waits) && i < |starts|
    requires forall j | 0 <= j < |script| :: !script[j].gotEvent
    ensures starts[i] >= Sum(i)
    ensures Instant(script, i) ==> starts[i] == Sum(i)
  {
    SessionUpTo(window, script, starts, waits, i);
    if i > 0 {
      AttemptNotBefore(window, script, starts, waits, i - 1);
      WaitsClosedForm(window, script, starts, waits, i - 1);
      FruitlessReachesBack(script, i - 1, 0);
      var c := script[i - 1];
      assert starts[i] == starts[i - 1] + c.lasted + Wait(i - 1) + c.late;
    }
  }

  lemma {:induction false} AttemptsApart(window: nat, script: seq<Connection>, starts: seq<nat>, waits: seq<int>, i: nat)
    requires Session(window, script, starts, waits) && i < |starts|
    ensures starts[i] >= 250_000_000 * i
  {
    if i > 0 {
      SessionUpTo(window, script, starts, waits, i);
      AttemptsApart(window, script, starts, waits, i - 1);
      WaitsClosedForm(window, script, starts, waits, i - 1);
    }
  }

  /** Any session, whatever its connections see: at most one attempt per 250 ms. */
  lemma AttemptBound(window: nat, script: seq<Connection>, starts: seq<nat>, waits: seq<int>)
    requires Session(window, script, starts, waits)
    ensures |starts| <= window / 250_000_000 + 1
  {
    if starts != [] {
      SessionUpTo(window, script, starts, waits, |starts| - 1);
      AttemptsApart(window, script, starts, waits, |starts| - 1);
    }
  }

  lemma OutageBound(window: nat, script: seq<Connection>, starts: seq<nat>, waits: seq<int>)
    requires Session(window, script, starts, waits)
    requires forall j | 0 <= j < |script| :: !script[j].gotEvent
    requires window >= 31_750_000_000
    ensures |starts| <= 8 + (window - 31_750_000_000) / 30_000_000_000
  {
    if starts != [] {
      SessionUpTo(window, script, starts, waits, |starts| - 1);
      AttemptNotBefore(window, script, starts, waits, |starts| - 1);
      SumClosedForm(|starts| - 1);
    }
  }

  /** Connections that fail at once are due exactly when the waits add up. */
  lemma DueInstant(window: nat, script: seq<Connection>, starts: seq<nat>, waits: seq<int>)
    requires Session(window, script, starts, waits) && 0 < |starts| == |waits| < |script|
    requires forall j | 0 <= j < |script| :: !script[j].gotEvent
    requires Instant(script, |script|)
    ensures Due(script, starts, waits) == Sum(|starts|)
  {
    var n := |starts|;
    SessionUpTo(window, script, starts, waits, n - 1);
    AttemptNotBefore(window, script, starts, waits, n - 1);
    WaitsClosedForm(window, script, starts, waits, n - 1);
    FruitlessReachesBack(script, n - 1, 0);
  }

  /** During an outage of at least 31.75 s: eight attempts, then one per 30 s. The
      bound is met when connections fail at once and timers are exact. */
  lemma OutageAttemptBound(window: nat, script: seq<Connection>, starts: seq<nat>, waits: seq<int>)
    requires Session(window, script, starts, waits)
    requires forall j | 0 <= j < |script| :: !script[j].gotEvent
    requires window >= 31_750_000_000
    ensures |starts| <= 8 + (window - 31_750_000_000) / 30_000_000_000
    ensures Instant(script, |script|) && 0 < |starts| == |waits| < |script| && Due(script, starts, waits) > window ==>
              |starts| == 8 + (window - 31_750_000_000) / 30_000_000_000
  {
    OutageBound(window, script, starts, waits);
    if Instant(script, |script|) && 0 < |starts| == |waits| < |script| {
      DueInstant(window, script, starts, waits);
      SumClosedForm(|starts|);
      if |starts| < 8 {
        Pow2Monotone(|starts|, 7);
        SumClosedForm(7);
      }
    }
  }
}
