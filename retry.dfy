/** The retry controller of retry.go: a configuration made usable by
    replacing non-positive settings with defaults, then a bounded loop of
    attempts with capped exponential backoff between them, checking for
    cancellation before each attempt and during each wait.

    What the loop cannot see from inside (whether the context is done at
    each check, what each attempt returns, and which of the two ready
    cases a `select` takes) is handed in as a `World`. Durations are whole
    nanoseconds, as in time.Duration. */
module Retry {
  import opened Wrappers
  import opened Text
  import opened Errors

  /** One second in time.Duration units. */
  const Second: int := 1_000_000_000

  /** RetryConfig (retry.go:10-20). */
  datatype RetryConfig = RetryConfig(
    maxAttempts: int,
    initialDelay: int,
    maxDelay: int,
    multiplier: real)

  /** DefaultRetryConfig (retry.go:22-30): three attempts, a first wait of
      two seconds, waits capped at thirty seconds, doubling each time. */
  function DefaultRetryConfig(): (r: RetryConfig)
    ensures r.maxAttempts == 3 && r.initialDelay == 2 * Second
    ensures r.maxDelay == 30 * Second && r.multiplier == 2.0
  {
    RetryConfig(3, 2 * Second, 30 * Second, 2.0)
  }

  /** A configuration the attempt loop can run with: every setting positive. */
  predicate Usable(c: RetryConfig) {
    c.maxAttempts > 0 && c.initialDelay > 0 && c.maxDelay > 0 && c.multiplier > 0.0
  }

  /** The start of ExecuteWithRetry (retry.go:34-45): each setting that is
      zero or negative is replaced by its default, and every positive
      setting is kept. */
  function Normalize(c: RetryConfig): (r: RetryConfig)
    ensures Usable(r)
    ensures r.maxAttempts == (if c.maxAttempts > 0 then c.maxAttempts else 1)
    ensures r.initialDelay == (if c.initialDelay > 0 then c.initialDelay else 2 * Second)
    ensures r.maxDelay == (if c.maxDelay > 0 then c.maxDelay else 30 * Second)
    ensures r.multiplier == (if c.multiplier > 0.0 then c.multiplier else 2.0)
    ensures Usable(c) ==> r == c
  {
    RetryConfig(
      if c.maxAttempts <= 0 then 1 else c.maxAttempts,
      if c.initialDelay <= 0 then 2 * Second else c.initialDelay,
      if c.maxDelay <= 0 then 30 * Second else c.maxDelay,
      if c.multiplier <= 0.0 then 2.0 else c.multiplier)
  }

  /** Normalizing twice changes nothing more, and the defaults need no
      normalizing. */
  lemma NormalizeSettles(c: RetryConfig)
    ensures Normalize(Normalize(c)) == Normalize(c)
    ensures Normalize(DefaultRetryConfig()) == DefaultRetryConfig()
  {
  }

  /** A zeroed configuration is not the default one: normalization fills in
      the default delays and multiplier, but a single attempt where the
      default makes three. */
  lemma ZeroConfig()
    ensures var z := Normalize(RetryConfig(0, 0, 0, 0.0)); var d := DefaultRetryConfig();
      && z.initialDelay == d.initialDelay && z.maxDelay == d.maxDelay && z.multiplier == d.multiplier
      && z.maxAttempts == 1 < d.maxAttempts
  {
  }

  /** The wait after the one of `delay` (retry.go:84-87): the delay times
      the multiplier, truncated to whole nanoseconds, but never above
      `maxDelay`. */
  function NextDelay(delay: int, multiplier: real, maxDelay: int): (r: int)
    ensures r <= maxDelay
    ensures maxDelay as real <= delay as real * multiplier ==> r == maxDelay
    ensures delay as real * multiplier < maxDelay as real ==>
              r as real <= delay as real * multiplier < r as real + 1.0
  {
    var grown := delay as real * multiplier;
    if grown < maxDelay as real then grown.Floor else maxDelay
  }

  /** With a multiplier of at least one, each wait below the cap is at most
      the next: the backoff never shrinks. */
  lemma BackoffGrows(delay: int, multiplier: real, maxDelay: int)
    requires 0 <= delay <= maxDelay && multiplier >= 1.0
    ensures delay <= NextDelay(delay, multiplier, maxDelay)
  {
    var d := delay as real;
    assert d * multiplier == d + d * (multiplier - 1.0);
    assert d * (multiplier - 1.0) >= 0.0;
  }

  /** Everything outside the loop: whether the context is done at the
      check before attempt k, what attempt k returns (None for success),
      whether the wait after attempt k ends by cancellation rather than
      the timer, and what ctx.Err() reports. Attempts count from 1. */
  datatype World = World(
    cancelledBefore: nat -> bool,
    result: nat -> Option<Error>,
    cancelledDuring: nat -> bool,
    contextError: Error)

  /** What ExecuteWithRetry returns (None for nil), with how many attempts
      it made and the delay of every wait it began. */
  datatype Outcome = Outcome(err: Option<Error>, attempts: nat, waits: seq<int>)

  /** fmt.Errorf("context cancelled after %d attempts: %w", n, err). */
  function Cancelled(n: nat, err: Error): Error {
    Wrapped("context cancelled after " + Decimal(n) + " attempts: ", err)
  }

  /** fmt.Errorf("failed after %d attempts: %w", n, err). */
  function GaveUp(n: nat, err: Error): Error {
    Wrapped("failed after " + Decimal(n) + " attempts: ", err)
  }

  /** The attempt loop (retry.go:52-91) from attempt `attempt` on, with the
      current wait `delay`, the last error seen and the waits so far. */
  function Run(c: RetryConfig, w: World, attempt: nat, delay: int, lastErr: Option<Error>, waits: seq<int>): (r: Outcome)
    requires Usable(c) && 1 <= attempt
    requires attempt > 1 ==> lastErr.Some?
    ensures r.attempts <= c.maxAttempts
    ensures waits <= r.waits
    decreases c.maxAttempts + 1 - attempt
  {
    if attempt > c.maxAttempts then
      Outcome(Some(GaveUp(c.maxAttempts, lastErr.value)), c.maxAttempts, waits)
    else if w.cancelledBefore(attempt) then
      Outcome(Some(if lastErr.Some? then Cancelled(attempt - 1, lastErr.value) else w.contextError), attempt - 1, waits)
    else
      match w.result(attempt)
      case None => Outcome(None, attempt, waits)
      case Some(e) =>
        if attempt == c.maxAttempts then
          Outcome(Some(GaveUp(c.maxAttempts, e)), attempt, waits)
        else if w.cancelledDuring(attempt) then
          Outcome(Some(Cancelled(attempt, e)), attempt, waits + [delay])
        else
          Run(c, w, attempt + 1, NextDelay(delay, c.multiplier, c.maxDelay), Some(e), waits + [delay])
  }

  /** The whole of ExecuteWithRetry under configuration `c`. */
  function Retry(c: RetryConfig, w: World): (r: Outcome)
    ensures r.attempts <= Normalize(c).maxAttempts
  {
    var n := Normalize(c);
    Run(n, w, 1, n.initialDelay, None, [])
  }

  /** ExecuteWithRetry (retry.go:33-92), with the configuration copy it
      normalizes and the loop that updates `lastErr` and `delay`. */
  method ExecuteWithRetry(retryCfg: RetryConfig, w: World) returns (err: Option<Error>, attempts: nat, waits: seq<int>)
    ensures Outcome(err, attempts, waits) == Retry(retryCfg, w)
  {
    var cfg := retryCfg;
    if cfg.maxAttempts <= 0 {
      cfg := cfg.(maxAttempts := 1);
    }
    if cfg.initialDelay <= 0 {
      cfg := cfg.(initialDelay := 2 * Second);
    }
    if cfg.maxDelay <= 0 {
      cfg := cfg.(maxDelay := 30 * Second);
    }
    if cfg.multiplier <= 0.0 {
      cfg := cfg.(multiplier := 2.0);
    }
    assert cfg == Normalize(retryCfg);

    var lastErr: Option<Error> := None;
    var delay := cfg.initialDelay;
    waits := [];
    var attempt := 1;
    while attempt <= cfg.maxAttempts
      invariant 1 <= attempt <= cfg.maxAttempts + 1
      invariant attempt > 1 ==> lastErr.Some?
      invariant Run(cfg, w, attempt, delay, lastErr, waits) == Retry(retryCfg, w)
      decreases cfg.maxAttempts + 1 - attempt
    {
      if w.cancelledBefore(attempt) {
        if lastErr.Some? {
          err := Some(Cancelled(attempt - 1, lastErr.value));
        } else {
          err := Some(w.contextError);
        }
        attempts := attempt - 1;
        return;
      }
      var result := w.result(attempt);
      if result.None? {
        err, attempts := None, attempt;
        return;
      }
      lastErr := result;
      if attempt == cfg.maxAttempts {
        break;
      }
      waits := waits + [delay];
      if w.cancelledDuring(attempt) {
        err, attempts := Some(Cancelled(attempt, lastErr.value)), attempt;
        return;
      }
      delay := NextDelay(delay, cfg.multiplier, cfg.maxDelay);
      attempt := attempt + 1;
    }
    err, attempts := Some(GaveUp(cfg.maxAttempts, lastErr.value)), cfg.maxAttempts;
  }

  // -------------------------------------------------------------------------
  // Properties of the attempt loop
  // -------------------------------------------------------------------------

  /** From attempt `attempt` on: the waits so far are kept as a prefix, at
      most one wait is begun per attempt and none after the last attempt,
      and no more than the configured number of attempts is made. */
  lemma {:induction false} RunBounds(c: RetryConfig, w: World, attempt: nat, delay: int, lastErr: Option<Error>, waits: seq<int>)
    requires Usable(c) && 1 <= attempt <= c.maxAttempts
    requires attempt > 1 ==> lastErr.Some?
    ensures var o := Run(c, w, attempt, delay, lastErr, waits);
      && attempt - 1 <= o.attempts <= c.maxAttempts
      && |waits| <= |o.waits| && o.waits[..|waits|] == waits
      && |o.waits| - |waits| <= o.attempts - (attempt - 1)
      && |o.waits| - |waits| <= c.maxAttempts - attempt
    decreases c.maxAttempts - attempt
  {
    if !w.cancelledBefore(attempt) && w.result(attempt).Some? && attempt < c.maxAttempts && !w.cancelledDuring(attempt) {
      var next := waits + [delay];
      RunBounds(c, w, attempt + 1, NextDelay(delay, c.multiplier, c.maxDelay), w.result(attempt), next);
      var o := Run(c, w, attempt + 1, NextDelay(delay, c.multiplier, c.maxDelay), w.result(attempt), next);
      assert o.waits[..|waits|] == o.waits[..|next|][..|waits|];
    }
  }

  /** ExecuteWithRetry makes at most MaxAttempts attempts and begins at
      most MaxAttempts - 1 waits, never more than one per attempt. */
  lemma AttemptBounds(c: RetryConfig, w: World)
    ensures var o := Retry(c, w);
      o.attempts <= Normalize(c).maxAttempts
      && |o.waits| <= o.attempts
      && |o.waits| <= Normalize(c).maxAttempts - 1
  {
    var n := Normalize(c);
    RunBounds(n, w, 1, n.initialDelay, None, []);
  }

  /** The waits from attempt `attempt` on: the first is `delay` and each
      later one is NextDelay of the one before. */
  lemma {:induction false} RunDelays(c: RetryConfig, w: World, attempt: nat, delay: int, lastErr: Option<Error>, waits: seq<int>, k: nat)
    requires Usable(c) && 1 <= attempt <= c.maxAttempts
    requires attempt > 1 ==> lastErr.Some?
    requires |waits| <= k < |Run(c, w, attempt, delay, lastErr, waits).waits|
    ensures var o := Run(c, w, attempt, delay, lastErr, waits);
      (k == |waits| ==> o.waits[k] == delay)
      && (k + 1 < |o.waits| ==> o.waits[k + 1] == NextDelay(o.waits[k], c.multiplier, c.maxDelay))
    decreases c.maxAttempts - attempt
  {
    var o := Run(c, w, attempt, delay, lastErr, waits);
    var next := waits + [delay];
    if !w.cancelledBefore(attempt) && w.result(attempt).Some? && attempt < c.maxAttempts && !w.cancelledDuring(attempt) {
      var d' := NextDelay(delay, c.multiplier, c.maxDelay);
      RunBounds(c, w, attempt + 1, d', w.result(attempt), next);
      assert o.waits[..|next|] == next;
      assert o.waits[|waits|] == next[|waits|];
      if k + 1 < |o.waits| {
        RunDelays(c, w, attempt + 1, d', w.result(attempt), next, k + 1);
        if k > |waits| {
          RunDelays(c, w, attempt + 1, d', w.result(attempt), next, k);
        }
      }
    } else {
      assert o.waits == waits || o.waits == next;
    }
  }

  /** Capped exponential backoff: the first wait is InitialDelay, each later
      wait is the previous one times the multiplier capped at MaxDelay, so
      every wait after the first is at most MaxDelay. The first wait itself
      is not capped. */
  lemma Backoff(c: RetryConfig, w: World, k: nat)
    requires k < |Retry(c, w).waits|
    ensures var n := Normalize(c); var o := Retry(c, w);
      (k == 0 ==> o.waits[0] == n.initialDelay)
      && (k > 0 ==> o.waits[k] == NextDelay(o.waits[k - 1], n.multiplier, n.maxDelay) && o.waits[k] <= n.maxDelay)
  {
    var n := Normalize(c);
    if k == 0 {
      RunDelays(n, w, 1, n.initialDelay, None, [], 0);
    } else {
      RunDelays(n, w, 1, n.initialDelay, None, [], k - 1);
    }
  }

  /** What happens from attempt `attempt` on, when the context is never done
      and attempts `attempt` up to `last` - 1 fail: success at `last` ends the
      run with nil after exactly `last` attempts. */
  lemma {:induction false} RunSucceeds(c: RetryConfig, w: World, attempt: nat, delay: int, lastErr: Option<Error>, waits: seq<int>, last: nat)
    requires Usable(c) && 1 <= attempt <= last <= c.maxAttempts
    requires attempt > 1 ==> lastErr.Some?
    requires forall j :: attempt <= j <= last ==> !w.cancelledBefore(j) && !w.cancelledDuring(j)
    requires forall j :: attempt <= j < last ==> w.result(j).Some?
    requires w.result(last).None?
    ensures var o := Run(c, w, attempt, delay, lastErr, waits);
      o.err == None && o.attempts == last
    decreases last - attempt
  {
    if attempt < last {
      RunSucceeds(c, w, attempt + 1, NextDelay(delay, c.multiplier, c.maxDelay), w.result(attempt), waits + [delay], last);
    }
  }

  /** The result is nil exactly when some attempt succeeded, and that is the
      last attempt made: the first success returns at once. */
  lemma {:induction false} RunNilIffSuccess(c: RetryConfig, w: World, attempt: nat, delay: int, lastErr: Option<Error>, waits: seq<int>)
    requires Usable(c) && 1 <= attempt <= c.maxAttempts
    requires attempt > 1 ==> lastErr.Some?
    ensures var o := Run(c, w, attempt, delay, lastErr, waits);
      o.err.None? <==> (o.attempts >= attempt && w.result(o.attempts).None?)
    ensures var o := Run(c, w, attempt, delay, lastErr, waits);
      forall j :: attempt <= j < o.attempts ==> w.result(j).Some?
    decreases c.maxAttempts - attempt
  {
    if !w.cancelledBefore(attempt) && w.result(attempt).Some? && attempt < c.maxAttempts && !w.cancelledDuring(attempt) {
      RunNilIffSuccess(c, w, attempt + 1, NextDelay(delay, c.multiplier, c.maxDelay), w.result(attempt), waits + [delay]);
      RunBounds(c, w, attempt + 1, NextDelay(delay, c.multiplier, c.maxDelay), w.result(attempt), waits + [delay]);
    }
  }

  /** ExecuteWithRetry returns nil exactly when its last attempt succeeded;
      every attempt before it failed; and if the context stays live, an
      attempt that succeeds after failures before it is the last one made. */
  lemma SuccessIsFinal(c: RetryConfig, w: World, last: nat)
    ensures var o := Retry(c, w);
      (o.err.None? <==> (o.attempts >= 1 && w.result(o.attempts).None?))
      && (forall j :: 1 <= j < o.attempts ==> w.result(j).Some?)
    ensures var o := Retry(c, w);
      1 <= last <= Normalize(c).maxAttempts
      && (forall j :: 1 <= j <= last ==> !w.cancelledBefore(j) && !w.cancelledDuring(j))
      && (forall j :: 1 <= j < last ==> w.result(j).Some?)
      && w.result(last).None?
      ==> o.err == None && o.attempts == last
  {
    var n := Normalize(c);
    RunNilIffSuccess(n, w, 1, n.initialDelay, None, []);
    if 1 <= last <= n.maxAttempts
      && (forall j :: 1 <= j <= last ==> !w.cancelledBefore(j) && !w.cancelledDuring(j))
      && (forall j :: 1 <= j < last ==> w.result(j).Some?)
      && w.result(last).None?
    {
      RunSucceeds(n, w, 1, n.initialDelay, None, [], last);
    }
  }

  /** From attempt `attempt` on, when the context is never done and every
      attempt fails: the run makes every remaining attempt and gives up
      with the last attempt's error. */
  lemma {:induction false} RunExhausts(c: RetryConfig, w: World, attempt: nat, delay: int, lastErr: Option<Error>, waits: seq<int>)
    requires Usable(c) && 1 <= attempt <= c.maxAttempts
    requires attempt > 1 ==> lastErr.Some?
    requires forall j :: attempt <= j <= c.maxAttempts ==> !w.cancelledBefore(j) && !w.cancelledDuring(j) && w.result(j).Some?
    ensures var o := Run(c, w, attempt, delay, lastErr, waits);
      o.err == Some(GaveUp(c.maxAttempts, w.result(c.maxAttempts).value))
      && o.attempts == c.maxAttempts
      && |o.waits| == |waits| + c.maxAttempts - attempt
    decreases c.maxAttempts - attempt
  {
    if attempt < c.maxAttempts {
      RunExhausts(c, w, attempt + 1, NextDelay(delay, c.multiplier, c.maxDelay), w.result(attempt), waits + [delay]);
    }
  }

  /** When no attempt succeeds and the context is never done, the result is
      "failed after N attempts: " wrapping the last attempt's error, after
      N attempts and N - 1 waits. */
  lemma Exhausted(c: RetryConfig, w: World)
    requires forall j :: 1 <= j <= Normalize(c).maxAttempts ==>
               !w.cancelledBefore(j) && !w.cancelledDuring(j) && w.result(j).Some?
    ensures var n := Normalize(c); var o := Retry(c, w);
      o.err == Some(GaveUp(n.maxAttempts, w.result(n.maxAttempts).value))
      && o.attempts == n.maxAttempts
      && |o.waits| == n.maxAttempts - 1
      && Message(o.err.value) == "failed after " + Decimal(n.maxAttempts) + " attempts: "
                                 + Message(w.result(n.maxAttempts).value)
  {
    var n := Normalize(c);
    RunExhausts(n, w, 1, n.initialDelay, None, []);
  }

  /** From attempt `attempt` on, with attempts `attempt` up to `k` - 1
      failing and the context live until then: if the context is done at
      the check before attempt k the run stops there, reporting k - 1
      attempts; if instead attempt k fails and the context ends the wait
      after it, the run stops reporting k attempts. */
  lemma {:induction false} RunCancelled(c: RetryConfig, w: World, attempt: nat, delay: int, lastErr: Option<Error>, waits: seq<int>, k: nat)
    requires Usable(c) && 1 <= attempt <= k <= c.maxAttempts
    requires attempt > 1 ==> lastErr.Some?
    requires lastErr == (if attempt == 1 then None else w.result(attempt - 1))
    requires forall j :: attempt <= j < k ==> !w.cancelledBefore(j) && !w.cancelledDuring(j) && w.result(j).Some?
    ensures var o := Run(c, w, attempt, delay, lastErr, waits);
      w.cancelledBefore(k) ==>
        o.attempts == k - 1
        && o.err == Some(if k == 1 then w.contextError else Cancelled(k - 1, w.result(k - 1).value))
    ensures var o := Run(c, w, attempt, delay, lastErr, waits);
      !w.cancelledBefore(k) && w.result(k).Some? && k < c.maxAttempts && w.cancelledDuring(k) ==>
        o.attempts == k && o.err == Some(Cancelled(k, w.result(k).value))
    decreases k - attempt
  {
    if attempt < k {
      RunCancelled(c, w, attempt + 1, NextDelay(delay, c.multiplier, c.maxDelay), w.result(attempt), waits + [delay], k);
    }
  }

  /** Cancellation: seen before attempt k, it returns ctx.Err() when nothing
      has failed yet (k = 1) and otherwise "context cancelled after k - 1
      attempts: " wrapping the last error; seen during the wait after a
      failed attempt k, it returns "context cancelled after k attempts: "
      wrapping that attempt's error. */
  lemma CancelledReports(c: RetryConfig, w: World, k: nat)
    requires 1 <= k <= Normalize(c).maxAttempts
    requires forall j :: 1 <= j < k ==> !w.cancelledBefore(j) && !w.cancelledDuring(j) && w.result(j).Some?
    ensures var o := Retry(c, w);
      w.cancelledBefore(k) ==>
        o.attempts == k - 1
        && o.err == Some(if k == 1 then w.contextError else Cancelled(k - 1, w.result(k - 1).value))
    ensures var o := Retry(c, w);
      !w.cancelledBefore(k) && w.result(k).Some? && k < Normalize(c).maxAttempts && w.cancelledDuring(k) ==>
        o.attempts == k && o.err == Some(Cancelled(k, w.result(k).value))
  {
    var n := Normalize(c);
    RunCancelled(n, w, 1, n.initialDelay, None, [], k);
  }
}
