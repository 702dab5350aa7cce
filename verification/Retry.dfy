/** Exponential backoff with full jitter, resilience/retry.go, and the load a
    retried call puts on a failing server when it runs inside the circuit
    breaker, as natsbus/reliable.go does for every publish and replay.

    Delays are whole nanoseconds and the multiplier an exact real.  The called
    function, the random draws and the context are oracles indexed by attempt.
 */
module Retry {
  import B = Breaker

  datatype Config = Config(maxAttempts: int, initialDelay: int, maxDelay: int, multiplier: real) {
    predicate Valid() {
      maxAttempts >= 1 && initialDelay >= 1 && maxDelay >= 1 && multiplier >= 1.0
    }

    function WithDefaults(): (c: Config)
      ensures c.Valid()
      ensures c.maxAttempts == maxAttempts || (maxAttempts < 1 && c.maxAttempts == 3)
      ensures c.initialDelay == initialDelay || (initialDelay <= 0 && c.initialDelay == 100_000_000)
      ensures c.maxDelay == maxDelay || (maxDelay <= 0 && c.maxDelay == 10_000_000_000)
      ensures c.multiplier == multiplier || (multiplier < 1.0 && c.multiplier == if multiplier > 0.0 then 1.0 else 2.0)
    {
      var m := if multiplier <= 0.0 then 2.0 else multiplier;
      Config(if maxAttempts < 1 then 3 else maxAttempts,
             if initialDelay <= 0 then 100_000_000 else initialDelay,
             if maxDelay <= 0 then 10_000_000_000 else maxDelay,
             if m < 1.0 then 1.0 else m)
    }
  }

  datatype Error = Error(permanent: bool, code: int)

  datatype Attempt = Success | Failed(err: Error)

  // IsRetryable of the source: absent, or a test.
  datatype Classifier = Anything | Only(retryable: Error -> bool) {
    predicate Stops(e: Error) { Only? && !retryable(e) }
  }

  // The select on a backoff takes the timer, or the context, done after so many
  // nanoseconds; it may take either when both are ready.
  datatype Wait = Fires | Cancelled(after: nat)

  datatype Outcome =
    | Done
    | Permanent(attempts: nat, err: Error)
    | NonRetryable(attempts: nat, err: Error)
    | Interrupted
    | Exhausted(attempts: nat, err: Error)

  // ---------------------------------------------------------------------------
  // Backoff windows

  function Power(m: real, k: nat): real {
    if k == 0 then 1.0 else m * Power(m, k - 1)
  }

  // The delay after attempt k before it is capped and cut to whole nanoseconds.
  function Uncut(cfg: Config, k: nat): real { cfg.initialDelay as real * Power(cfg.multiplier, k) }

  function Cut(d: real, cap: int): int { (if d > cap as real then cap as real else d).Floor }

  // The jitter of attempt k is drawn from [0, Window(k)).
  function Window(cfg: Config, k: nat): int { Cut(Uncut(cfg, k), cfg.maxDelay) }

  function Delay(cfg: Config, k: nat, draw: nat): int {
    var w := Window(cfg, k);
    if w <= 0 then 0 else draw % w
  }

  lemma {:induction false} PowerGrows(m: real, j: nat, k: nat)
    requires m >= 1.0 && j <= k
    ensures 1.0 <= Power(m, j) <= Power(m, k)
    decreases k
  {
    if j < k {
      PowerGrows(m, j, k - 1);
      assert Power(m, k - 1) <= m * Power(m, k - 1);
    } else if j > 0 {
      PowerGrows(m, j - 1, j - 1);
      assert Power(m, j - 1) <= m * Power(m, j - 1);
    }
  }

  lemma ScaleMono(d: int, p: real, q: real)
    requires d >= 1 && 1.0 <= p <= q
    ensures 1.0 <= d as real * p <= d as real * q
  {
    assert d as real * (q - p) >= 0.0;
    assert (d as real - 1.0) * p >= 0.0;
  }

  // Jitter windows never shrink from one attempt to the next, never exceed
  // maxDelay, and are never empty.
  lemma WindowsGrow(cfg: Config, j: nat, k: nat)
    requires cfg.Valid() && j <= k
    ensures 1 <= Window(cfg, j) <= Window(cfg, k) <= cfg.maxDelay
  {
    PowerGrows(cfg.multiplier, j, k);
    ScaleMono(cfg.initialDelay, Power(cfg.multiplier, j), Power(cfg.multiplier, k));
  }

  // --- The curve

  lemma UncutStep(cfg: Config, k: nat)
    ensures Uncut(cfg, k + 1) == cfg.multiplier * Uncut(cfg, k)
  {
    var i, m, p := cfg.initialDelay as real, cfg.multiplier, Power(cfg.multiplier, k);
    assert i * (m * p) == m * (i * p);
  }

  lemma FloorStep(m: real, d: real, e: real, w: real, next: real)
    requires m >= 1.0 && 0.0 <= w <= d < w + 1.0 && e == m * d && next <= e < next + 1.0
    ensures m * w - 1.0 < next < m * (w + 1.0)
  {
    MulMonoReal(m, w, d);
    var up := w + 1.0;
    MulStrict(m, d, up);
    assert next <= e < m * up;
    assert m * up == m * (w + 1.0);
  }

  lemma MulStrict(m: real, x: real, y: real)
    requires m > 0.0 && x < y
    ensures m * x < m * y
  {
    assert m * (y - x) > 0.0;
  }

  lemma CutStep(m: real, d: real, e: real, cap: int)
    requires m >= 1.0 && d >= 0.0 && d <= e && e == m * d
    ensures Cut(e, cap) == cap || m * Cut(d, cap) as real - 1.0 < Cut(e, cap) as real < m * (Cut(d, cap) as real + 1.0)
  {
    if e <= cap as real {
      FloorStep(m, d, e, Cut(d, cap) as real, Cut(e, cap) as real);
    } else {
      assert (cap as real).Floor == cap;
    }
  }

  lemma UncutPositive(cfg: Config, k: nat)
    requires cfg.Valid()
    ensures Uncut(cfg, k) >= 1.0
  {
    PowerGrows(cfg.multiplier, k, k);
    ScaleMono(cfg.initialDelay, 1.0, Power(cfg.multiplier, k));
  }

  // Until the cap each delay is the multiplier times the one before, and a window
  // is that in whole nanoseconds.
  lemma WindowStep(cfg: Config, k: nat)
    requires cfg.Valid()
    ensures Uncut(cfg, 0) == cfg.initialDelay as real && Uncut(cfg, k + 1) == cfg.multiplier * Uncut(cfg, k)
    ensures Uncut(cfg, k) <= cfg.maxDelay as real ==> Window(cfg, k) == Uncut(cfg, k).Floor
    ensures var m, w := cfg.multiplier, Window(cfg, k) as real;
      Window(cfg, k + 1) == cfg.maxDelay || m * w - 1.0 < Window(cfg, k + 1) as real < m * (w + 1.0)
  {
    UncutStep(cfg, k);
    UncutPositive(cfg, k);
    MulMonoReal(Uncut(cfg, k), 1.0, cfg.multiplier);
    CutStep(cfg.multiplier, Uncut(cfg, k), Uncut(cfg, k + 1), cfg.maxDelay);
  }

  lemma WholeWindow(cfg: Config, k: nat, d: int)
    requires Uncut(cfg, k) == d as real
    ensures Window(cfg, k) == if d > cfg.maxDelay then cfg.maxDelay else d
  {
  }

  lemma {:induction false} WholeUncut(cfg: Config, n: nat, k: nat) returns (d: nat)
    requires cfg.initialDelay >= 0 && cfg.multiplier == n as real
    ensures Uncut(cfg, k) == d as real && Uncut(cfg, k + 1) == (n * d) as real
  {
    if k == 0 {
      d := cfg.initialDelay;
    } else {
      d := WholeUncut(cfg, n, k - 1);
      d := n * d;
    }
    UncutStep(cfg, k);
  }

  // A whole multiplier multiplies the windows exactly, up to the cap.
  lemma WindowDoubles(cfg: Config, n: nat, k: nat)
    requires cfg.Valid() && cfg.multiplier == n as real
    ensures Window(cfg, k + 1) == if n * Window(cfg, k) < cfg.maxDelay then n * Window(cfg, k) else cfg.maxDelay
  {
    var d := WholeUncut(cfg, n, k);
    WholeWindow(cfg, k, d);
    WholeWindow(cfg, k + 1, n * d);
    WholeStep(n, d, cfg.maxDelay);
  }

  lemma WholeStep(n: nat, d: nat, cap: int)
    requires n >= 1 && cap >= 1
    ensures var w := if d > cap then cap else d;
      (if n * d > cap then cap else n * d) == if n * w < cap then n * w else cap
  {
    assert (n - 1) * d >= 0 && n * d == d + (n - 1) * d;
    assert (n - 1) * cap >= 0 && n * cap == cap + (n - 1) * cap;
  }

  // Bernoulli's inequality.
  lemma {:induction false} PowerAtLeast(m: real, k: nat)
    requires m >= 1.0
    ensures Power(m, k) >= 1.0 + k as real * (m - 1.0)
  {
    if k > 0 {
      PowerAtLeast(m, k - 1);
      var d, j, p := m - 1.0, (k - 1) as real, Power(m, k - 1);
      assert j * d >= 0.0;
      MulMonoReal(m, 1.0 + j * d, p);
      assert m * (1.0 + j * d) == 1.0 + j * d + d + (j * d) * d;
      assert (j * d) * d >= 0.0;
      assert k as real == j + 1.0 && (j + 1.0) * d == j * d + d;
    }
  }

  lemma MulMonoReal(m: real, x: real, y: real)
    requires m >= 0.0 && x <= y
    ensures m * x <= m * y
  {
    assert m * (y - x) >= 0.0;
  }

  // The backoff starts at the initial delay and, if it grows at all, reaches
  // maxDelay after at most maxDelay / (multiplier - 1) attempts and stays there.
  lemma BackoffReachesCap(cfg: Config, k: nat)
    requires cfg.Valid()
    ensures Window(cfg, 0) == if cfg.initialDelay > cfg.maxDelay then cfg.maxDelay else cfg.initialDelay
    ensures k as real * (cfg.multiplier - 1.0) >= cfg.maxDelay as real ==> Window(cfg, k) == cfg.maxDelay
  {
    PowerAtLeast(cfg.multiplier, k);
    ScaleMono(cfg.initialDelay, 1.0, Power(cfg.multiplier, 0));
    if k as real * (cfg.multiplier - 1.0) >= cfg.maxDelay as real {
      ScaleMono(1, 1.0, Power(cfg.multiplier, k));
      var d, p := cfg.initialDelay as real, Power(cfg.multiplier, k);
      assert (d - 1.0) * p >= 0.0;
      assert d * p == p + (d - 1.0) * p;
    }
  }

  // Full jitter: every delay of the window can be drawn, and no other.
  lemma FullJitter(cfg: Config, k: nat, d: int)
    requires cfg.Valid()
    ensures (exists draw: nat :: Delay(cfg, k, draw) == d) <==> 0 <= d < Window(cfg, k)
  {
    WindowsGrow(cfg, k, k);
    if 0 <= d < Window(cfg, k) {
      assert Delay(cfg, k, d) == d;
    }
  }

  lemma DelayBound(cfg: Config, k: nat, draw: nat)
    requires cfg.Valid()
    ensures 0 <= Delay(cfg, k, draw) < cfg.maxDelay
  {
    WindowsGrow(cfg, k, k);
  }

  // ---------------------------------------------------------------------------
  // The retry loop

  // Attempt i is the last one, for one of the source's reasons, and then:
  function Verdict(cfg: Config, cls: Classifier, a: Attempt, w: Wait, i: nat, delay: int): (o: Outcome)
    requires Last(cfg, cls, a, w, i, delay)
  {
    if a.Success? then Done
    else if a.err.permanent then Permanent(i + 1, a.err)
    else if cls.Stops(a.err) then NonRetryable(i + 1, a.err)
    else if i == cfg.maxAttempts - 1 then Exhausted(cfg.maxAttempts, a.err)
    else Interrupted
  }

  predicate Last(cfg: Config, cls: Classifier, a: Attempt, w: Wait, i: nat, delay: int) {
    || a.Success?
    || a.err.permanent
    || cls.Stops(a.err)
    || i >= cfg.maxAttempts - 1
    || (w.Cancelled? && w.after <= delay)
  }

  // Retry makes attempts up to the first one that ends it, and no more.  Its
  // sleeps add up to less than (maxAttempts - 1) * maxDelay exactly when more
  // than one attempt is configured: with one attempt both are zero.
  method Retry(config: Config, cls: Classifier, fn: nat -> Attempt, draws: nat -> nat, waits: nat -> Wait)
    returns (out: Outcome, attempts: nat, slept: int)
    ensures var c := config.WithDefaults();
      && 1 <= attempts <= c.maxAttempts
      && Last(c, cls, fn(attempts - 1), waits(attempts - 1), attempts - 1, Delay(c, attempts - 1, draws(attempts - 1)))
      && (forall i: nat :: i < attempts - 1 ==> !Last(c, cls, fn(i), waits(i), i, Delay(c, i, draws(i))))
      && out == Verdict(c, cls, fn(attempts - 1), waits(attempts - 1), attempts - 1, Delay(c, attempts - 1, draws(attempts - 1)))
      && 0 <= slept
      && (slept < (c.maxAttempts - 1) * c.maxDelay <==> c.maxAttempts > 1)
    // Spelled out: every attempt before the last failed, could be retried and was
    // slept after in full; the last one says why it is the last.
    ensures forall i: nat :: i < attempts - 1 ==> fn(i).Failed? && !fn(i).err.permanent && !cls.Stops(fn(i).err)
    ensures out == Done <==> fn(attempts - 1).Success?
    ensures fn(attempts - 1).Failed? ==>
      var err, c := fn(attempts - 1).err, config.WithDefaults();
      if err.permanent then out == Permanent(attempts, err)
      else if cls.Stops(err) then out == NonRetryable(attempts, err)
      else if attempts == c.maxAttempts then out == Exhausted(attempts, err)
      else out == Interrupted && waits(attempts - 1).Cancelled?
  {
    var cfg := config.WithDefaults();
    slept := 0;
    var attempt := 0;
    while attempt < cfg.maxAttempts
      invariant 0 <= attempt < cfg.maxAttempts
      invariant forall i: nat :: i < attempt ==> !Last(cfg, cls, fn(i), waits(i), i, Delay(cfg, i, draws(i)))
      invariant 0 <= slept <= attempt * (cfg.maxDelay - 1)
      decreases cfg.maxAttempts - attempt
    {
      var result := fn(attempt);
      attempts := attempt + 1;
      DelayBound(cfg, attempt, draws(attempt));
      var delay := Delay(cfg, attempt, draws(attempt));
      var wait := waits(attempt);
      if Last(cfg, cls, result, wait, attempt, delay) {
        SleepTotal(cfg, attempt, slept);
      }
      if result.Success? {
        return Done, attempts, slept;
      }
      var err := result.err;
      if err.permanent {
        return Permanent(attempt + 1, err), attempts, slept;
      }
      if cls.Stops(err) {
        return NonRetryable(attempt + 1, err), attempts, slept;
      }
      if attempt == cfg.maxAttempts - 1 {
        return Exhausted(cfg.maxAttempts, err), attempts, slept;
      }
      if wait.Cancelled? && wait.after <= delay {
        SleepTotal(cfg, attempt + 1, slept + wait.after);
        return Interrupted, attempts, slept + wait.after;
      }
      slept := slept + delay;
      assert (attempt + 1) * (cfg.maxDelay - 1) == attempt * (cfg.maxDelay - 1) + (cfg.maxDelay - 1);
      attempt := attempt + 1;
    }
    assert false;
  }

  lemma SleepTotal(cfg: Config, sleeps: nat, slept: int)
    requires cfg.Valid() && sleeps <= cfg.maxAttempts - 1
    requires 0 <= slept <= sleeps * (cfg.maxDelay - 1)
    ensures slept < (cfg.maxAttempts - 1) * cfg.maxDelay <==> cfg.maxAttempts > 1
  {
    var n := cfg.maxAttempts - 1;
    MulMono(sleeps, n, cfg.maxDelay - 1);
    assert n * (cfg.maxDelay - 1) == n * cfg.maxDelay - n;
  }

  // ---------------------------------------------------------------------------
  // Load during an outage

  // One sequential publishMessage, seen from the breaker: the clock when it
  // entered and returned, and the attempts its retry loop makes if let through.
  datatype Round = Round(before: int, after: int, attempts: nat)

  // publishMessage of natsbus/reliable.go: a retry loop inside one breaker call.
  method PublishMessage(b: B.Breaker, config: Config, cls: Classifier, js: nat -> Attempt, draws: nat -> nat,
                        waits: nat -> Wait, before: int, after: int)
    returns (ok: bool, attempts: nat)
    modifies b
    ensures attempts <= config.WithDefaults().maxAttempts
    ensures var a := B.Admit(b.cfg, old(b.View()), before);
      && (attempts == 0 <==> !a.admitted)
      && b.View() == if a.admitted then B.Settle(b.cfg, a.core, a.probe, ok, after) else a.core
    ensures ok <==> attempts > 0 && js(attempts - 1).Success?
    ensures var c := config.WithDefaults();
      && (attempts > 0 ==>
            Last(c, cls, js(attempts - 1), waits(attempts - 1), attempts - 1, Delay(c, attempts - 1, draws(attempts - 1))))
      && (forall i: nat :: i < attempts - 1 ==> !Last(c, cls, js(i), waits(i), i, Delay(c, i, draws(i))))
    ensures (forall i :: js(i).Failed?) ==>
      !ok && (b.View(), attempts) == FailingRound(b.cfg, old(b.View()), Round(before, after, attempts))
  {
    var admitted, probe := b.Before(before);
    if !admitted {
      return false, 0;
    }
    var out, n, slept := Retry(config, cls, js, draws, waits);
    b.After(probe, out.Done?, after);
    ok, attempts := out.Done?, n;
    if forall i :: js(i).Failed? {
      assert js(n - 1).Failed?;
    }
  }

  // A round in which every JetStream attempt fails: the new breaker state and
  // the attempts made.
  function FailingRound(cfg: B.Config, c: B.Core, r: Round): (B.Core, nat) {
    var a := B.Admit(cfg, c, r.before);
    if a.admitted then (B.Settle(cfg, a.core, a.probe, false, r.after), r.attempts) else (a.core, 0)
  }

  function Attempts(cfg: B.Config, c: B.Core, rounds: seq<Round>): nat
    decreases |rounds|
  {
    if rounds == [] then 0
    else
      var (c', n) := FailingRound(cfg, c, rounds[0]);
      n + Attempts(cfg, c', rounds[1..])
  }

  function RoundsAdmitted(cfg: B.Config, c: B.Core, rounds: seq<Round>): nat
    decreases |rounds|
  {
    if rounds == [] then 0
    else
      (if B.Admit(cfg, c, rounds[0].before).admitted then 1 else 0)
      + RoundsAdmitted(cfg, FailingRound(cfg, c, rounds[0]).0, rounds[1..])
  }

  // No round enters at or after openedAt + resetTimeout.
  predicate BeforeReset(cfg: B.Config, c: B.Core, rounds: seq<Round>)
    decreases |rounds|
  {
    rounds == [] ||
    ((c.phase.Open? ==> rounds[0].before < c.openedAt + cfg.resetTimeout)
     && BeforeReset(cfg, FailingRound(cfg, c, rounds[0]).0, rounds[1..]))
  }

  // Calls the breaker still lets through: one for each failure short of the threshold.
  function Budget(cfg: B.Config, c: B.Core): int {
    if c.phase.Closed? then cfg.failureThreshold - c.consecutiveFail else 0
  }

  lemma {:induction false} OutageRun(cfg: B.Config, c: B.Core, rounds: seq<Round>, maxAttempts: nat)
    requires cfg.Valid() && !c.phase.HalfOpen? && BeforeReset(cfg, c, rounds)
    requires c.phase.Closed? ==> c.consecutiveFail < cfg.failureThreshold
    requires forall i :: 0 <= i < |rounds| ==> rounds[i].attempts <= maxAttempts
    ensures RoundsAdmitted(cfg, c, rounds) == if |rounds| < Budget(cfg, c) then |rounds| else Budget(cfg, c)
    ensures Attempts(cfg, c, rounds) <= RoundsAdmitted(cfg, c, rounds) * maxAttempts
    decreases |rounds|
  {
    if rounds != [] {
      var (c', n) := FailingRound(cfg, c, rounds[0]);
      OutageRun(cfg, c', rounds[1..], maxAttempts);
      var m := RoundsAdmitted(cfg, c', rounds[1..]);
      assert (m + 1) * maxAttempts == m * maxAttempts + maxAttempts;
    }
  }

  // While every attempt fails, sequential publishes and replays from a freshly
  // closed breaker let exactly failureThreshold calls through before the reset
  // timeout, so at most failureThreshold * maxAttempts attempts reach JetStream.
  lemma OutageLoadBound(cfg: B.Config, openedAt: int, rounds: seq<Round>, retry: Config)
    requires cfg.Valid() && retry.Valid()
    requires forall i :: 0 <= i < |rounds| ==> rounds[i].attempts <= retry.maxAttempts
    requires BeforeReset(cfg, B.Core(B.Closed, 0, openedAt, 0), rounds)
    ensures var c := B.Core(B.Closed, 0, openedAt, 0);
      && RoundsAdmitted(cfg, c, rounds) == (if |rounds| < cfg.failureThreshold then |rounds| else cfg.failureThreshold)
      && Attempts(cfg, c, rounds) <= cfg.failureThreshold * retry.maxAttempts
  {
    var c := B.Core(B.Closed, 0, openedAt, 0);
    OutageRun(cfg, c, rounds, retry.maxAttempts);
    MulMono(RoundsAdmitted(cfg, c, rounds), cfg.failureThreshold, retry.maxAttempts);
  }

  lemma MulMono(a: int, b: int, m: nat)
    requires a <= b
    ensures a * m <= b * m
  {
    assert (b - a) * m >= 0;
  }
}
