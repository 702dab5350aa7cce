/** The token bucket script of ratelimit/redis.go, and its agreement with the
    in-memory bucket.

    The script keeps time in milliseconds.  Key expiry is not modelled: a key is
    absent until its first request.
 */
module RedisBucket {
  import opened Options
  import opened TokenBucket

  // The two fields of the hash stored under a key.
  datatype Hash = Hash(tokens: real, updatedAtMs: int)

  // The script on one key: the stored hash, whether the request is allowed, and
  // the wait in milliseconds.
  function Loaded(h: Option<Hash>, nowMs: int, burst: int): Hash {
    match h
    case None => Hash(burst as real, nowMs)
    case Some(v) => v
  }

  function Settled(h: Hash, nowMs: int, rate: real, burst: int): Hash {
    if nowMs > h.updatedAtMs
    then Hash(Min(h.tokens + ((nowMs - h.updatedAtMs) as real / 1000.0) * rate, burst as real), nowMs)
    else h
  }

  predicate ScriptAllows(h: Option<Hash>, nowMs: int, rate: real, burst: int) {
    Settled(Loaded(h, nowMs, burst), nowMs, rate, burst).tokens >= 1.0
  }

  function ScriptStores(h: Option<Hash>, nowMs: int, rate: real, burst: int): Hash {
    var s := Settled(Loaded(h, nowMs, burst), nowMs, rate, burst);
    if s.tokens >= 1.0 then s.(tokens := s.tokens - 1.0) else s
  }

  function ScriptRetryMs(h: Option<Hash>, nowMs: int, rate: real, burst: int, ttlMs: int): int {
    var s := Settled(Loaded(h, nowMs, burst), nowMs, rate, burst);
    if s.tokens >= 1.0 then 0
    else if rate > 0.0 then Ceil(((1.0 - s.tokens) / rate) * 1000.0)
    else ttlMs
  }

  class Redis {
    var hashes: map<string, Hash>

    constructor ()
      ensures hashes == map[]
    {
      hashes := map[];
    }

    ghost function Stored(key: string): Option<Hash>
      reads this
    {
      if key in hashes then Some(hashes[key]) else None
    }

    method RunScript(key: string, nowMs: int, rate: real, burst: int, ttlMs: int)
      returns (allowed: bool, retryAfterMs: int)
      modifies this
      ensures hashes == old(hashes)[key := ScriptStores(old(Stored(key)), nowMs, rate, burst)]
      ensures allowed <==> ScriptAllows(old(Stored(key)), nowMs, rate, burst)
      ensures retryAfterMs == ScriptRetryMs(old(Stored(key)), nowMs, rate, burst, ttlMs)
    {
      var tokens, updatedAtMs := burst as real, nowMs;
      if key in hashes {
        tokens, updatedAtMs := hashes[key].tokens, hashes[key].updatedAtMs;
      }
      if nowMs > updatedAtMs {
        var elapsedSeconds := (nowMs - updatedAtMs) as real / 1000.0;
        tokens := Min(tokens + elapsedSeconds * rate, burst as real);
        updatedAtMs := nowMs;
      }
      allowed, retryAfterMs := false, 0;
      if tokens >= 1.0 {
        tokens := tokens - 1.0;
        allowed := true;
      } else if rate > 0.0 {
        retryAfterMs := Ceil(((1.0 - tokens) / rate) * 1000.0);
      } else {
        retryAfterMs := ttlMs;
      }
      hashes := hashes[key := Hash(tokens, updatedAtMs)];
    }
  }

  // The wait allowRedis hands to the middleware, in nanoseconds.
  function RedisHint(retryMs: int): int {
    if retryMs * MILLISECOND <= 0 then MILLISECOND else retryMs * MILLISECOND
  }

  // ---------------------------------------------------------------------------
  // The two implementations agree

  // The local bucket a first request at nowMs would create, or the one in step with the hash.
  function Twin(h: Option<Hash>, nowMs: int, rate: real, burst: int): Bucket {
    match h
    case None => New(rate, burst, nowMs * MILLISECOND)
    case Some(v) => Bucket(rate, burst, v.tokens, v.updatedAtMs * MILLISECOND)
  }

  lemma GainMs(rate: real, ms: int)
    ensures Gain(rate, ms * MILLISECOND) == (ms as real / 1000.0) * rate
  {
    assert (ms * MILLISECOND) as real == ms as real * 1_000_000.0;
    assert (ms * MILLISECOND) as real / 1_000_000_000.0 == ms as real / 1000.0;
  }

  lemma OneStepAgrees(h: Option<Hash>, nowMs: int, rate: real, burst: int)
    requires Twin(h, nowMs, rate, burst).Valid()
    ensures var b := Twin(h, nowMs, rate, burst);
      && (Allows(b, nowMs * MILLISECOND) <==> ScriptAllows(h, nowMs, rate, burst))
      && Allow(b, nowMs * MILLISECOND) == Twin(Some(ScriptStores(h, nowMs, rate, burst)), nowMs, rate, burst)
      && Refill(b, nowMs * MILLISECOND).tokens == Settled(Loaded(h, nowMs, burst), nowMs, rate, burst).tokens
      && Allow(b, nowMs * MILLISECOND).Valid()
  {
    var b := Twin(h, nowMs, rate, burst);
    var l := Loaded(h, nowMs, burst);
    RefillValid(b, nowMs * MILLISECOND);
    if nowMs > l.updatedAtMs {
      GainMs(rate, nowMs - l.updatedAtMs);
      assert Max(b.lastTime, nowMs * MILLISECOND) - b.lastTime == (nowMs - l.updatedAtMs) * MILLISECOND;
    } else {
      assert Refill(b, nowMs * MILLISECOND) == b;
    }
  }

  lemma CeilOfScaled(x: real)
    requires x > 0.0
    ensures var ns, ms := Ceil(x * 1_000_000.0), Ceil(x) * MILLISECOND;
      ns <= ms < ns + MILLISECOND && MILLISECOND <= ms
  {
    var n := Ceil(x);
    assert (n * MILLISECOND) as real == n as real * 1_000_000.0;
  }

  // Denied by both, a caller gets a wait from the script that is never shorter
  // than the local one and less than a millisecond longer.
  predicate Close(script: int, local: int) { local <= script < local + MILLISECOND }

  lemma OneHintAgrees(h: Option<Hash>, nowMs: int, rate: real, burst: int, ttlMs: int)
    requires rate > 0.0 && Twin(h, nowMs, rate, burst).Valid()
    requires !ScriptAllows(h, nowMs, rate, burst)
    ensures Close(RedisHint(ScriptRetryMs(h, nowMs, rate, burst, ttlMs)), Hint(Twin(h, nowMs, rate, burst), nowMs * MILLISECOND))
  {
    OneStepAgrees(h, nowMs, rate, burst);
    var d := 1.0 - Settled(Loaded(h, nowMs, burst), nowMs, rate, burst).tokens;
    var x := (d / rate) * 1000.0;
    assert d / rate > 0.0;
    CeilOfScaled(x);
    assert Needed(d, rate) == x * 1_000_000.0;
  }

  // What the middleware hears of each request of a run on one key.
  datatype Reply = Reply(allowed: bool, wait: int)

  function ScriptReplies(h: Option<Hash>, times: seq<int>, rate: real, burst: int, ttlMs: int): (rs: seq<Reply>)
    ensures |rs| == |times|
    decreases |times|
  {
    if times == [] then []
    else
      var t := times[0];
      [Reply(ScriptAllows(h, t, rate, burst), RedisHint(ScriptRetryMs(h, t, rate, burst, ttlMs)))]
      + ScriptReplies(Some(ScriptStores(h, t, rate, burst)), times[1..], rate, burst, ttlMs)
  }

  function LocalReplies(b: Bucket, times: seq<int>): (rs: seq<Reply>)
    ensures |rs| == |times|
    decreases |times|
  {
    if times == [] then []
    else
      var t := times[0] * MILLISECOND;
      [Reply(Allows(b, t), if Allows(b, t) then 0 else Hint(b, t))] + LocalReplies(Allow(b, t), times[1..])
  }

  predicate Agree(script: Reply, local: Reply, rate: real) {
    && script.allowed == local.allowed
    && (!local.allowed && rate > 0.0 ==> Close(script.wait, local.wait))
  }

  lemma {:induction false} RepliesAgree(h: Option<Hash>, times: seq<int>, rate: real, burst: int, ttlMs: int, i: nat)
    requires i < |times| && Twin(h, times[0], rate, burst).Valid()
    ensures Agree(ScriptReplies(h, times, rate, burst, ttlMs)[i],
                  LocalReplies(Twin(h, times[0], rate, burst), times)[i], rate)
    decreases |times|
  {
    OneStepAgrees(h, times[0], rate, burst);
    if i > 0 {
      RepliesAgree(Some(ScriptStores(h, times[0], rate, burst)), times[1..], rate, burst, ttlMs, i - 1);
    } else if rate > 0.0 && !ScriptAllows(h, times[0], rate, burst) {
      OneHintAgrees(h, times[0], rate, burst, ttlMs);
    }
  }

  // From an absent key, for any millisecond-aligned readings in any order, the
  // script and the local bucket decide every request alike, and tell a denied
  // caller the same wait up to the script's whole milliseconds.
  lemma ImplementationsAgree(times: seq<int>, rate: real, burst: int, ttlMs: int, i: nat)
    requires rate >= 0.0 && burst >= 0 && i < |times|
    ensures Agree(ScriptReplies(None, times, rate, burst, ttlMs)[i],
                  LocalReplies(New(rate, burst, times[0] * MILLISECOND), times)[i], rate)
  {
    RepliesAgree(None, times, rate, burst, ttlMs, i);
  }
}
