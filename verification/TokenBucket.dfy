/** The in-memory token bucket of ratelimit/ratelimit.go.

    Times are nanoseconds as integers, tokens and rates exact reals; a rate is in
    tokens per second.
 */
module TokenBucket {

  const SECOND: int := 1_000_000_000
  const MILLISECOND: int := 1_000_000

  // ---------------------------------------------------------------------------
  // Arithmetic

  // Tokens accrued at a rate over a number of nanoseconds.
  function Gain(rate: real, ns: int): real {
    (ns as real / 1_000_000_000.0) * rate
  }

  function Min(x: real, y: real): real { if x > y then y else x }

  function Max(x: int, y: int): int { if x < y then y else x }

  function Ceil(x: real): (n: int)
    ensures n as real - 1.0 < x <= n as real
  {
    -((-x).Floor)
  }

  lemma GainAdds(rate: real, m: int, n: int)
    ensures Gain(rate, m + n) == Gain(rate, m) + Gain(rate, n)
  {
    assert (m + n) as real / 1_000_000_000.0 == m as real / 1_000_000_000.0 + n as real / 1_000_000_000.0;
  }

  // A rate is in tokens per second.
  lemma GainPerSecond(rate: real, seconds: int)
    ensures Gain(rate, seconds * SECOND) == seconds as real * rate
  {
    assert (seconds * SECOND) as real == seconds as real * 1_000_000_000.0;
  }

  lemma GainNonneg(rate: real, n: int)
    requires rate >= 0.0 && n >= 0
    ensures Gain(rate, n) >= 0.0
  {
  }

  lemma GainMono(rate: real, m: int, n: int)
    requires rate >= 0.0 && m <= n
    ensures Gain(rate, m) <= Gain(rate, n)
  {
    GainAdds(rate, m, n - m);
    GainNonneg(rate, n - m);
  }

  // The nanoseconds needed to gain d tokens: the source's deficit / rate * 1e9.
  function Needed(d: real, rate: real): real
    requires rate > 0.0
  {
    (d / rate) * 1_000_000_000.0
  }

  lemma GainReaches(rate: real, d: real, n: int)
    requires rate > 0.0
    ensures Gain(rate, n) >= d <==> n as real >= Needed(d, rate)
    ensures Gain(rate, n) >= d <==> n >= Ceil(Needed(d, rate))
  {
    var x := Needed(d, rate);
    var s, q := n as real / 1_000_000_000.0, d / rate;
    assert q * rate == d;
    assert (s - q) * rate == Gain(rate, n) - d;
    if s >= q {
      assert (s - q) * rate >= 0.0;
    } else {
      assert (q - s) * rate > 0.0;
    }
  }

  // ---------------------------------------------------------------------------
  // The bucket

  datatype Bucket = Bucket(rate: real, burst: int, tokens: real, lastTime: int) {
    predicate Valid() {
      rate >= 0.0 && burst >= 0 && 0.0 <= tokens <= burst as real
    }
  }

  function New(rate: real, burst: int, now: int): Bucket {
    Bucket(rate, burst, burst as real, now)
  }

  // Lazy refill up to now, a reading before lastTime counting as lastTime.
  function Refill(b: Bucket, now: int): Bucket {
    var t := Max(b.lastTime, now);
    b.(tokens := Min(b.tokens + Gain(b.rate, t - b.lastTime), b.burst as real), lastTime := t)
  }

  predicate Allows(b: Bucket, now: int) { Refill(b, now).tokens >= 1.0 }

  function Allow(b: Bucket, now: int): Bucket {
    var r := Refill(b, now);
    if r.tokens >= 1.0 then r.(tokens := r.tokens - 1.0) else r
  }

  // The wait reported to a denied caller.
  function Hint(b: Bucket, now: int): int {
    var r := Refill(b, now);
    if r.rate <= 0.0 then SECOND
    else Max(MILLISECOND, Ceil(Needed(1.0 - r.tokens, r.rate)))
  }

  function Reconfigure(b: Bucket, rate: real, burst: int, now: int): Bucket {
    var r := Refill(b, now);
    Bucket(rate, burst, Min(r.tokens, burst as real), r.lastTime)
  }

  class TokenBucket {
    var rate: real
    var burst: int
    var tokens: real
    var lastTime: int

    ghost function View(): Bucket
      reads this
    {
      Bucket(rate, burst, tokens, lastTime)
    }

    constructor (r: real, b: int, now: int)
      ensures View() == New(r, b, now)
    {
      rate, burst, tokens, lastTime := r, b, b as real, now;
    }

    constructor Restore(b: Bucket)
      ensures View() == b
    {
      rate, burst, tokens, lastTime := b.rate, b.burst, b.tokens, b.lastTime;
    }

    // The lazy refill both methods begin with.
    method RefillTo(at: int)
      modifies this
      ensures View() == Refill(old(View()), at)
    {
      var now := at;
      if now < lastTime {
        now := lastTime;
      }
      var elapsed := now - lastTime;
      lastTime := now;
      tokens := tokens + Gain(rate, elapsed);
      if tokens > burst as real {
        tokens := burst as real;
      }
    }

    method AllowAt(at: int) returns (allowed: bool, retryAfter: int)
      modifies this
      ensures View() == Allow(old(View()), at)
      ensures allowed <==> Allows(old(View()), at)
      ensures retryAfter == if allowed then 0 else Hint(old(View()), at)
    {
      RefillTo(at);
      if tokens >= 1.0 {
        tokens := tokens - 1.0;
        return true, 0;
      }
      if rate <= 0.0 {
        return false, SECOND;
      }
      var deficit := 1.0 - tokens;
      retryAfter := Ceil(Needed(deficit, rate));
      if retryAfter < MILLISECOND {
        retryAfter := MILLISECOND;
      }
      allowed := false;
    }

    method ReconfigureAt(newRate: real, newBurst: int, at: int)
      modifies this
      ensures View() == Reconfigure(old(View()), newRate, newBurst, at)
    {
      RefillTo(at);
      rate := newRate;
      burst := newBurst;
      if tokens > burst as real {
        tokens := burst as real;
      }
    }
  }

  // ---------------------------------------------------------------------------
  // Runs

  datatype Op = AllowOp(at: int) | ReconfigureOp(rate: real, burst: int, at: int) {
    predicate Valid() { ReconfigureOp? ==> rate >= 0.0 && burst >= 0 }
  }

  function Apply(b: Bucket, op: Op): Bucket {
    match op
    case AllowOp(t) => Allow(b, t)
    case ReconfigureOp(r, n, t) => Reconfigure(b, r, n, t)
  }

  function Run(b: Bucket, ops: seq<Op>): Bucket
    decreases |ops|
  {
    if ops == [] then b else Run(Apply(b, ops[0]), ops[1..])
  }

  predicate ValidOps(ops: seq<Op>) { forall i :: 0 <= i < |ops| ==> ops[i].Valid() }

  function Taken(b: Bucket, op: Op): nat { if op.AllowOp? && Allows(b, op.at) then 1 else 0 }

  // Requests allowed in a run.
  function Allowed(b: Bucket, ops: seq<Op>): nat
    decreases |ops|
  {
    if ops == [] then 0 else Taken(b, ops[0]) + Allowed(Apply(b, ops[0]), ops[1..])
  }

  // What the rates accrue over a run, each over the time it was in force, the
  // clock never running backwards.  Knows nothing of tokens.
  function Accrual(rate: real, clock: int, ops: seq<Op>): real
    decreases |ops|
  {
    if ops == [] then 0.0
    else
      var t := Max(clock, ops[0].at);
      Gain(rate, t - clock) + Accrual(if ops[0].ReconfigureOp? then ops[0].rate else rate, t, ops[1..])
  }

  lemma RefillValid(b: Bucket, now: int)
    requires b.Valid()
    ensures Refill(b, now).Valid()
    ensures Refill(b, now).tokens <= b.tokens + Gain(b.rate, Max(b.lastTime, now) - b.lastTime)
  {
    GainNonneg(b.rate, Max(b.lastTime, now) - b.lastTime);
  }

  // Tokens stay in [0, burst], whatever the clocks and the policy changes, and
  // the requests allowed in any stretch of a run, plus what is left at its end,
  // never exceed what was there at its start plus what accrued.
  lemma {:induction false} RateBound(b: Bucket, ops: seq<Op>)
    requires b.Valid() && ValidOps(ops)
    ensures Run(b, ops).Valid()
    ensures Allowed(b, ops) as real + Run(b, ops).tokens <= b.tokens + Accrual(b.rate, b.lastTime, ops)
    ensures Allowed(b, ops) as real <= b.burst as real + Accrual(b.rate, b.lastTime, ops)
    decreases |ops|
  {
    if ops != [] {
      var b' := Apply(b, ops[0]);
      RefillValid(b, ops[0].at);
      assert ops[0].Valid();
      RateBound(b', ops[1..]);
    }
  }

  // The same over a window of a longer run: the burst is the one in force at its start.
  lemma RateBoundWindow(b: Bucket, before: seq<Op>, window: seq<Op>)
    requires b.Valid() && ValidOps(before) && ValidOps(window)
    ensures var s := Run(b, before);
      s.Valid() && Allowed(s, window) as real <= s.burst as real + Accrual(s.rate, s.lastTime, window)
  {
    RateBound(b, before);
    RateBound(Run(b, before), window);
  }

  // With one policy throughout: at most burst + rate * elapsed.
  lemma {:induction false} FixedPolicyAccrual(rate: real, clock: int, ops: seq<Op>, end: int)
    requires rate >= 0.0 && clock <= end
    requires forall i :: 0 <= i < |ops| ==> ops[i].AllowOp? && ops[i].at <= end
    ensures Accrual(rate, clock, ops) <= Gain(rate, end - clock)
    decreases |ops|
  {
    if ops == [] {
      GainNonneg(rate, end - clock);
    } else {
      var t := Max(clock, ops[0].at);
      FixedPolicyAccrual(rate, t, ops[1..], end);
      GainAdds(rate, t - clock, end - t);
    }
  }

  lemma FixedPolicyBound(b: Bucket, ops: seq<Op>, end: int)
    requires b.Valid() && b.lastTime <= end
    requires forall i :: 0 <= i < |ops| ==> ops[i].AllowOp? && ops[i].at <= end
    ensures Allowed(b, ops) as real <= b.burst as real + Gain(b.rate, end - b.lastTime)
  {
    RateBound(b, ops);
    FixedPolicyAccrual(b.rate, b.lastTime, ops, end);
  }

  // Switching a caller to another policy and back at one instant never adds to
  // its allowance, and costs it only what the other burst cannot hold.
  lemma TogglingGainsNothing(b: Bucket, rate: real, burst: int, now: int)
    requires b.Valid() && rate >= 0.0 && burst >= 0
    ensures var r := Refill(b, now);
      var toggled := Reconfigure(Reconfigure(b, rate, burst, now), b.rate, b.burst, now);
      && toggled.tokens <= r.tokens
      && (toggled == r <==> r.tokens <= burst as real)
  {
    RefillValid(b, now);
    var mid := Reconfigure(b, rate, burst, now);
    assert Refill(mid, now) == mid;
  }

  // ---------------------------------------------------------------------------
  // Denials are free

  // Refilling in two steps is refilling once.
  lemma RefillTwice(b: Bucket, t: int, u: int)
    requires b.Valid() && t <= u
    ensures Refill(Refill(b, t), u) == Refill(b, u)
  {
    var m, n := Max(b.lastTime, t), Max(b.lastTime, u);
    GainAdds(b.rate, m - b.lastTime, n - m);
    GainNonneg(b.rate, n - m);
    GainNonneg(b.rate, m - b.lastTime);
  }

  lemma RefillMono(b: Bucket, t: int, u: int)
    requires b.Valid() && t <= u
    ensures Refill(b, t).tokens <= Refill(b, u).tokens
  {
    GainMono(b.rate, Max(b.lastTime, t) - b.lastTime, Max(b.lastTime, u) - b.lastTime);
  }

  // A run with its denied requests erased.
  function Erased(b: Bucket, ops: seq<Op>): seq<Op>
    decreases |ops|
  {
    if ops == [] then []
    else
      var rest := Erased(Apply(b, ops[0]), ops[1..]);
      if ops[0].AllowOp? && !Allows(b, ops[0].at) then rest else [ops[0]] + rest
  }

  // Every policy change reads a clock at least as late as every request before
  // it, unless an earlier policy change, or the bucket's own time, had read one
  // already.  changed is the latest of those, asked the latest request.
  predicate ChangesKeepUp(changed: int, asked: int, ops: seq<Op>)
    decreases |ops|
  {
    ops == [] ||
    match ops[0]
    case AllowOp(t) => ChangesKeepUp(changed, Max(asked, t), ops[1..])
    case ReconfigureOp(_, _, t) => asked <= Max(changed, t) && ChangesKeepUp(Max(changed, t), asked, ops[1..])
  }

  // c is b without the refills of requests denied since, the last at most at m.
  predicate Lags(c: Bucket, b: Bucket, m: int) {
    c == b || (c.lastTime < b.lastTime <= m && Refill(c, b.lastTime) == b && b.tokens < 1.0)
  }

  lemma LagDecides(c: Bucket, b: Bucket, m: int, t: int)
    requires c.Valid() && b.Valid() && Lags(c, b, m)
    ensures Allows(b, t) <==> Allows(c, t)
    ensures Allows(b, t) || b.lastTime <= t ==> Refill(b, t) == Refill(c, t)
  {
    if c != b {
      if t < b.lastTime {
        RefillMono(c, t, b.lastTime);
        assert Refill(b, t) == b;
      } else {
        RefillTwice(c, b.lastTime, t);
      }
    }
  }

  lemma DeniedLags(c: Bucket, b: Bucket, m: int, t: int)
    requires c.Valid() && b.Valid() && Lags(c, b, m) && !Allows(b, t)
    ensures Lags(c, Allow(b, t), Max(m, t))
  {
    if b.lastTime < t {
      if c != b {
        RefillTwice(c, b.lastTime, t);
      }
    } else {
      assert Refill(b, t) == b;
    }
  }

  predicate AllAllowed(b: Bucket, ops: seq<Op>) {
    forall i :: 0 <= i < |ops| && ops[i].AllowOp? ==> Allows(Run(b, ops[..i]), ops[i].at)
  }

  lemma AllowedFromHead(b: Bucket, op: Op, ops: seq<Op>)
    requires op.AllowOp? ==> Allows(b, op.at)
    requires AllAllowed(Apply(b, op), ops)
    ensures AllAllowed(b, [op] + ops)
  {
    var all := [op] + ops;
    forall i | 0 <= i < |all| && all[i].AllowOp? ensures Allows(Run(b, all[..i]), all[i].at) {
      if i > 0 {
        assert all[..i][1..] == ops[..i - 1] && all[..i][0] == op;
        assert all[i] == ops[i - 1];
      }
    }
  }

  // Erasing the requests denied in a run from b, for a bucket c beside it,
  // changes no decision: what is left is allowed to the last one, and every
  // later request is decided the same way.
  ghost predicate Harmless(b: Bucket, c: Bucket, ops: seq<Op>) {
    && Allowed(c, Erased(b, ops)) == Allowed(b, ops)
    && AllAllowed(c, Erased(b, ops))
    && forall t :: Allows(Run(b, ops), t) <==> Allows(Run(c, Erased(b, ops)), t)
  }

  lemma HarmlessDenied(b: Bucket, c: Bucket, ops: seq<Op>)
    requires ops != [] && ops[0].AllowOp? && !Allows(b, ops[0].at)
    requires Harmless(Apply(b, ops[0]), c, ops[1..])
    ensures Harmless(b, c, ops)
  {
    assert Erased(b, ops) == Erased(Apply(b, ops[0]), ops[1..]);
  }

  lemma HarmlessKept(b: Bucket, c: Bucket, ops: seq<Op>)
    requires ops != [] && (ops[0].AllowOp? ==> Allows(b, ops[0].at) && Allows(c, ops[0].at))
    requires Apply(b, ops[0]) == Apply(c, ops[0])
    requires Harmless(Apply(b, ops[0]), Apply(c, ops[0]), ops[1..])
    ensures Harmless(b, c, ops)
  {
    var e, all := Erased(Apply(b, ops[0]), ops[1..]), Erased(b, ops);
    assert all == [ops[0]] + e && all[1..] == e;
    AllowedFromHead(c, ops[0], e);
  }

  lemma {:induction false} ErasingIsHarmless(b: Bucket, c: Bucket, changed: int, m: int, ops: seq<Op>)
    requires c.Valid() && b.Valid() && Lags(c, b, m) && changed <= c.lastTime
    requires ValidOps(ops) && ChangesKeepUp(changed, m, ops)
    ensures Harmless(b, c, ops)
    decreases |ops|
  {
    if ops == [] {
      forall t ensures Allows(b, t) <==> Allows(c, t) { LagDecides(c, b, m, t); }
    } else {
      var op, rest := ops[0], ops[1..];
      var b' := Apply(b, op);
      LagDecides(c, b, m, op.at);
      RefillValid(b, op.at);
      assert op.Valid();
      if op.AllowOp? && !Allows(b, op.at) {
        DeniedLags(c, b, m, op.at);
        ErasingIsHarmless(b', c, changed, Max(m, op.at), rest);
        HarmlessDenied(b, c, ops);
      } else {
        assert Refill(b, op.at) == Refill(c, op.at);
        assert c.rate == b.rate && c.burst == b.burst;
        ErasingIsHarmless(b', b', if op.AllowOp? then changed else Max(changed, op.at),
                          if op.AllowOp? then Max(m, op.at) else m, rest);
        HarmlessKept(b, c, ops);
      }
    }
  }

  lemma DenialsAreFree(b: Bucket, ops: seq<Op>)
    requires b.Valid() && ValidOps(ops) && ChangesKeepUp(b.lastTime, b.lastTime, ops)
    ensures Allowed(b, Erased(b, ops)) == Allowed(b, ops)
    ensures AllAllowed(b, Erased(b, ops))
    ensures forall t :: Allows(Run(b, ops), t) <==> Allows(Run(b, Erased(b, ops)), t)
  {
    ErasingIsHarmless(b, b, b.lastTime, b.lastTime, ops);
  }

  // --- And only then

  // The same requests and policy changes at the same readings, to other policies.
  predicate SameReadings(ops: seq<Op>, qs: seq<Op>) {
    |qs| == |ops| && forall i :: 0 <= i < |ops| ==> qs[i].AllowOp? == ops[i].AllowOp? && qs[i].at == ops[i].at
  }

  predicate ReadUpTo(ops: seq<Op>, end: int) { forall i :: 0 <= i < |ops| ==> ops[i].at <= end }

  // Every policy change sets the same rate, and a burst of one.
  function Uniform(ops: seq<Op>, rate: real): (qs: seq<Op>)
    requires rate >= 0.0
    ensures SameReadings(ops, qs) && ValidOps(qs)
  {
    if ops == [] then []
    else [if ops[0].AllowOp? then ops[0] else ReconfigureOp(rate, 1, ops[0].at)] + Uniform(ops[1..], rate)
  }

  // A run with denied requests up to end, and the same without them, tell apart
  // by a request at end.
  ghost predicate ToldApart(b: Bucket, c: Bucket, qs: seq<Op>, end: int) {
    !Allows(Run(b, qs), end) && Allows(Run(c, Erased(b, qs)), end)
  }

  lemma ToldApartDenied(b: Bucket, c: Bucket, op: Op, qs: seq<Op>, end: int)
    requires op.AllowOp? && !Allows(b, op.at) && ToldApart(Apply(b, op), c, qs, end)
    ensures ToldApart(b, c, [op] + qs, end)
  {
    var all := [op] + qs;
    assert all[1..] == qs;
  }

  lemma ToldApartChange(b: Bucket, c: Bucket, op: Op, qs: seq<Op>, end: int)
    requires op.ReconfigureOp? && ToldApart(Apply(b, op), Apply(c, op), qs, end)
    ensures ToldApart(b, c, [op] + qs, end)
  {
    var all, kept := [op] + qs, [op] + Erased(Apply(b, op), qs);
    assert all[1..] == qs && kept[1..] == Erased(Apply(b, op), qs);
    assert Erased(b, all) == kept;
  }

  // Empty at since, b has gained at one rate from then on.
  predicate Gaining(b: Bucket, rate: real, since: int, end: int) {
    b == Bucket(rate, 1, Gain(rate, b.lastTime - since), b.lastTime) && since <= b.lastTime <= end
  }

  lemma GainsOn(b: Bucket, rate: real, since: int, end: int, t: int)
    requires rate >= 0.0 && Gaining(b, rate, since, end) && Gain(rate, end - since) <= 1.0 && t <= end
    ensures Gaining(Refill(b, t), rate, since, end)
    ensures Refill(b, t).tokens == Gain(rate, Max(b.lastTime, t) - since)
    ensures Reconfigure(b, rate, 1, t) == Refill(b, t)
  {
    var u := Max(b.lastTime, t);
    GainAdds(rate, b.lastTime - since, u - b.lastTime);
    GainMono(rate, u - since, end - since);
  }

  lemma {:induction false} GainApart(b: Bucket, c: Bucket, rate: real, m: int, g: int, end: int, ops: seq<Op>)
    requires rate > 0.0 && Gaining(b, rate, m, end) && Gaining(c, rate, g, end)
    requires Gain(rate, end - m) < 1.0 && Gain(rate, end - g) == 1.0 && ReadUpTo(ops, end)
    ensures ToldApart(b, c, Uniform(ops, rate), end)
    decreases |ops|
  {
    if ops == [] {
      GainsOn(b, rate, m, end, end);
      GainsOn(c, rate, g, end, end);
    } else {
      var t, rest := ops[0].at, Uniform(ops[1..], rate);
      GainsOn(b, rate, m, end, t);
      GainsOn(c, rate, g, end, t);
      if ops[0].AllowOp? {
        GainMono(rate, Max(b.lastTime, t) - m, end - m);
        GainApart(Refill(b, t), c, rate, m, g, end, ops[1..]);
        ToldApartDenied(b, c, ops[0], rest, end);
      } else {
        GainApart(Refill(b, t), Refill(c, t), rate, m, g, end, ops[1..]);
        ToldApartChange(b, c, ReconfigureOp(rate, 1, t), rest, end);
      }
    }
  }

  // The rate that gains one token from g to end.
  lemma OneTokenRate(g: int, m: int, end: int) returns (rate: real)
    requires g < m <= end
    ensures rate > 0.0 && Gain(rate, end - g) == 1.0 && Gain(rate, end - m) < 1.0
  {
    var d := (end - g) as real / 1_000_000_000.0;
    rate := 1.0 / d;
    assert d * rate == 1.0;
    GainAdds(rate, end - m, m - g);
    assert (m - g) as real / 1_000_000_000.0 > 0.0;
    assert Gain(rate, m - g) > 0.0;
  }

  function Empty(t: int): Bucket { Bucket(0.0, 1, 0.0, t) }

  lemma EmptyStays(x: int, t: int)
    ensures Refill(Empty(x), t) == Empty(Max(x, t)) && Reconfigure(Empty(x), 0.0, 1, t) == Empty(Max(x, t))
  {
  }

  // A policy change that does not keep up starts its rate earlier when the
  // request before it has been erased.
  lemma {:induction false} LateChangeTells(changed: int, asked: int, ops: seq<Op>, end: int) returns (qs: seq<Op>)
    requires !ChangesKeepUp(changed, asked, ops) && ReadUpTo(ops, end) && asked <= end && changed <= end
    ensures SameReadings(ops, qs) && ValidOps(qs)
    ensures ToldApart(Empty(Max(changed, asked)), Empty(changed), qs, end)
    decreases |ops|
  {
    var op, x, t := ops[0], Max(changed, asked), ops[0].at;
    EmptyStays(x, t);
    EmptyStays(changed, t);
    if op.AllowOp? {
      qs := LateChangeTells(changed, Max(asked, t), ops[1..], end);
      ToldApartDenied(Empty(x), Empty(changed), op, qs, end);
      qs := [op] + qs;
    } else {
      var g := Max(changed, t);
      if asked <= g {
        op := ReconfigureOp(0.0, 1, t);
        qs := LateChangeTells(g, asked, ops[1..], end);
      } else {
        var rate := OneTokenRate(g, asked, end);
        op, qs := ReconfigureOp(rate, 1, t), Uniform(ops[1..], rate);
        assert Gain(rate, 0) == 0.0;
        GainApart(Bucket(rate, 1, 0.0, asked), Bucket(rate, 1, 0.0, g), rate, asked, g, end, ops[1..]);
      }
      ToldApartChange(Empty(x), Empty(changed), op, qs, end);
      qs := [op] + qs;
    }
  }

  function LastReading(start: int, ops: seq<Op>): (end: int)
    ensures start <= end && ReadUpTo(ops, end)
  {
    if ops == [] then start else Max(ops[0].at, LastReading(start, ops[1..]))
  }

  ghost predicate AlwaysHarmless(start: int, ops: seq<Op>) {
    forall b: Bucket, qs: seq<Op> :: b.Valid() && b.lastTime == start && ValidOps(qs) && SameReadings(ops, qs) ==>
      Harmless(b, b, qs)
  }

  lemma {:induction false} KeepUpByReadings(changed: int, asked: int, ops: seq<Op>, qs: seq<Op>)
    requires SameReadings(ops, qs)
    ensures ChangesKeepUp(changed, asked, ops) == ChangesKeepUp(changed, asked, qs)
    decreases |ops|
  {
    if ops != [] {
      var t := ops[0].at;
      KeepUpByReadings(changed, Max(asked, t), ops[1..], qs[1..]);
      KeepUpByReadings(Max(changed, t), asked, ops[1..], qs[1..]);
    }
  }

  // Whatever the bucket and the policies, erasing the denied requests of a run
  // changes no decision, exactly when its policy changes keep up with its requests.
  lemma DenialsFreeIff(start: int, ops: seq<Op>)
    ensures AlwaysHarmless(start, ops) <==> ChangesKeepUp(start, start, ops)
  {
    if ChangesKeepUp(start, start, ops) {
      forall b: Bucket, qs: seq<Op> | b.Valid() && b.lastTime == start && ValidOps(qs) && SameReadings(ops, qs)
        ensures Harmless(b, b, qs)
      {
        KeepUpByReadings(start, start, ops, qs);
        ErasingIsHarmless(b, b, start, start, qs);
      }
    } else {
      var qs := LateChangeTells(start, start, ops, LastReading(start, ops));
      assert !Harmless(Empty(start), Empty(start), qs);
    }
  }

  // The smallest case: one request and one policy change.
  lemma LateReconfigureIff(start: int, u: int, t: int, rate: real, burst: int)
    requires start <= t
    ensures AlwaysHarmless(start, [AllowOp(u), ReconfigureOp(rate, burst, t)]) <==> u <= t
  {
    var ops := [AllowOp(u), ReconfigureOp(rate, burst, t)];
    DenialsFreeIff(start, ops);
    assert ops[1..][0] == ReconfigureOp(rate, burst, t) && ops[1..][1..] == [];
    assert ChangesKeepUp(start, Max(start, u), ops[1..]) <==> Max(start, u) <= Max(start, t);
  }

  // ---------------------------------------------------------------------------
  // Hints are right

  // A denied caller that has the bucket to itself is allowed at exactly the
  // readings at or past the one the wait was computed from plus that wait; above
  // the millisecond floor the hint is that wait to the nanosecond.
  lemma HintIsLeast(b: Bucket, now: int, later: int)
    requires b.Valid() && b.rate > 0.0 && b.burst >= 1 && !Allows(b, now)
    ensures var wait := Ceil(Needed(1.0 - Refill(b, now).tokens, b.rate));
      && wait >= 1
      && (Allows(Allow(b, now), later) <==> later >= Max(b.lastTime, now) + wait)
      && Hint(b, now) == (if wait < MILLISECOND then MILLISECOND else wait)
  {
    var r := Refill(b, now);
    var d := 1.0 - r.tokens;
    RefillValid(b, now);
    GainReaches(b.rate, d, 0);
    GainReaches(b.rate, d, Max(r.lastTime, later) - r.lastTime);
    GainNonneg(b.rate, Max(r.lastTime, later) - r.lastTime);
  }

  // The whole seconds of the Retry-After header.
  function RetrySeconds(hint: int): int {
    Max(1, Ceil(hint as real / 1_000_000_000.0))
  }

  // Waiting the hint, or the header's seconds, is enough, with readings that do not go back.
  lemma HintSuffices(b: Bucket, now: int)
    requires b.Valid() && b.rate > 0.0 && b.burst >= 1 && !Allows(b, now) && b.lastTime <= now
    ensures Allows(Allow(b, now), now + Hint(b, now))
    ensures Allows(Allow(b, now), now + RetrySeconds(Hint(b, now)) * SECOND)
    ensures RetrySeconds(Hint(b, now)) > 1 ==>
              !Allows(Allow(b, now), now + (RetrySeconds(Hint(b, now)) - 1) * SECOND)
  {
    var h := Hint(b, now);
    HintIsLeast(b, now, now + h);
    var k := RetrySeconds(h);
    HintIsLeast(b, now, now + k * SECOND);
    HintIsLeast(b, now, now + (k - 1) * SECOND);
    assert h as real / 1_000_000_000.0 * 1_000_000_000.0 == h as real;
  }
}
