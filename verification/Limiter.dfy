/** The keyed limiter of ratelimit/ratelimit.go: one token bucket a key, created
    on first use, reconfigured when a request's policy differs, and dropped by a
    background sweep once idle for longer than maxAge.
 */
module Limiter {
  import opened Options
  import opened TokenBucket
  import opened Text

  datatype Policy = Policy(rate: real, burst: int, scope: string, exempt: bool)

  datatype Entry = Entry(bucket: Bucket, lastSeen: int)

  type Entries = map<string, Entry>

  // ---------------------------------------------------------------------------
  // Policies

  datatype Config = Config(rate: real, burst: int, maxAge: int) {
    predicate Valid() { rate > 0.0 && burst > 0 && maxAge > 0 }

    // 100 requests a second, bursts of 200, five minutes idle.
    function WithDefaults(): (c: Config)
      ensures c.Valid()
      ensures c.rate == rate || (rate <= 0.0 && c.rate == 100.0)
      ensures c.burst == burst || (burst <= 0 && c.burst == 200)
      ensures c.maxAge == maxAge || (maxAge <= 0 && c.maxAge == 300 * SECOND)
    {
      Config(if rate <= 0.0 then 100.0 else rate,
             if burst <= 0 then 200 else burst,
             if maxAge <= 0 then 300 * SECOND else maxAge)
    }
  }

  function OrElse(name: string, other: string): string { if name != "" then name else other }

  // policyForRequest: scope is what ScopeFunc returned, path the URL path, and
  // override what PolicyFunc returned, if there is one.  No override can turn a
  // positive rate or burst into anything else, or an exempt path into another.
  function PolicyForRequest(cfg: Config, scope: string, path: string, exemptPath: bool, override: Option<Policy>)
    : (p: Policy)
    requires cfg.Valid()
    ensures p.rate > 0.0 && p.burst > 0
    ensures p.rate == cfg.rate || (override.Some? && p.rate == override.value.rate)
    ensures override.Some? && override.value.rate > 0.0 ==> p.rate == override.value.rate
    ensures p.burst == cfg.burst || (override.Some? && p.burst == override.value.burst)
    ensures override.Some? && override.value.burst > 0 ==> p.burst == override.value.burst
    ensures p.scope != ""
    ensures var own := OrElse(TrimSpace(scope), OrElse(path, "unknown"));
      p.scope == if override.Some? then OrElse(TrimSpace(override.value.scope), own) else own
    ensures p.exempt <==> exemptPath || (override.Some? && override.value.exempt)
  {
    var named := if TrimSpace(scope) == "" then path else TrimSpace(scope);
    var base := Policy(cfg.rate, cfg.burst, named, exemptPath);
    var p := match override
      case None => base
      case Some(o) =>
        Policy(if o.rate > 0.0 then o.rate else base.rate,
               if o.burst > 0 then o.burst else base.burst,
               if TrimSpace(o.scope) != "" then TrimSpace(o.scope) else base.scope,
               base.exempt || o.exempt);
    if p.scope == "" then p.(scope := "unknown") else p
  }

  // ---------------------------------------------------------------------------
  // The limiter

  // The bucket a request meets: new, reconfigured, or as it was.
  function Met(m: Entries, key: string, rate: real, burst: int, now: int): Bucket {
    if key !in m then New(rate, burst, now)
    else if m[key].bucket.rate != rate || m[key].bucket.burst != burst
    then Reconfigure(m[key].bucket, rate, burst, now)
    else m[key].bucket
  }

  function After(m: Entries, key: string, rate: real, burst: int, now: int): Entries {
    m[key := Entry(Allow(Met(m, key, rate, burst, now), now), now)]
  }

  function Swept(m: Entries, now: int, maxAge: int): Entries {
    map k | k in m && m[k].lastSeen >= now - maxAge :: m[k]
  }

  class Limiter {
    const maxAge: int
    var entries: Entries

    constructor (cfg: Config)
      ensures maxAge == cfg.WithDefaults().maxAge && entries == map[]
    {
      maxAge := cfg.WithDefaults().maxAge;
      entries := map[];
    }

    method AllowLocal(policy: Policy, key: string, now: int) returns (allowed: bool, retryAfter: int)
      modifies this
      ensures entries == After(old(entries), key, policy.rate, policy.burst, now)
      ensures allowed <==> Allows(Met(old(entries), key, policy.rate, policy.burst, now), now)
      ensures retryAfter ==
        if allowed then 0 else Hint(Met(old(entries), key, policy.rate, policy.burst, now), now)
    {
      var tb: TokenBucket;
      if key !in entries {
        tb := new TokenBucket(policy.rate, policy.burst, now);
      } else {
        var b := entries[key].bucket;
        tb := new TokenBucket.Restore(b);
        if b.rate != policy.rate || b.burst != policy.burst {
          tb.ReconfigureAt(policy.rate, policy.burst, now);
        }
      }
      allowed, retryAfter := tb.AllowAt(now);
      entries := entries[key := Entry(Bucket(tb.rate, tb.burst, tb.tokens, tb.lastTime), now)];
    }

    // One tick of the cleanup goroutine.
    method Cleanup(now: int)
      modifies this
      ensures entries == Swept(old(entries), now, maxAge)
    {
      var cutoff := now - maxAge;
      var keys := entries.Keys;
      while keys != {}
        invariant keys <= entries.Keys <= old(entries).Keys
        invariant forall k :: k in entries ==> entries[k] == old(entries)[k]
        invariant forall k :: k in old(entries) && k !in keys ==> (k in entries <==> old(entries)[k].lastSeen >= cutoff)
        decreases |keys|
      {
        var key :| key in keys;
        keys := keys - {key};
        if entries[key].lastSeen < cutoff {
          entries := entries - {key};
        }
      }
      assert entries == Swept(old(entries), now, maxAge);
    }
  }

  // ---------------------------------------------------------------------------
  // Changing policies

  // A request for a key under the policy it came with, or a tick of the cleanup.
  datatype Act = Ask(key: string, rate: real, burst: int, at: int) | SweepAt(at: int) {
    predicate Valid() { Ask? ==> rate >= 0.0 && burst >= 0 }
  }

  predicate ValidActs(acts: seq<Act>) { forall i :: 0 <= i < |acts| ==> acts[i].Valid() }

  function Next(m: Entries, maxAge: int, a: Act): Entries {
    match a
    case Ask(k, r, n, t) => After(m, k, r, n, t)
    case SweepAt(t) => Swept(m, t, maxAge)
  }

  // The decisions on one key's requests, among those for any keys.
  function DecisionsFor(m: Entries, k: string, maxAge: int, acts: seq<Act>): seq<bool>
    decreases |acts|
  {
    if acts == [] then []
    else
      var a := acts[0];
      (if a.Ask? && a.key == k then [Allows(Met(m, k, a.rate, a.burst, a.at), a.at)] else [])
      + DecisionsFor(Next(m, maxAge, a), k, maxAge, acts[1..])
  }

  // --- One key by itself

  function EntryOf(m: Entries, k: string): Option<Entry> { if k in m then Some(m[k]) else None }

  function Only(k: string, e: Option<Entry>): Entries { if e.None? then map[] else map[k := e.value] }

  function OnlyActs(k: string, acts: seq<Act>): seq<Act> {
    if acts == [] then []
    else (if acts[0].Ask? && acts[0].key != k then [] else [acts[0]]) + OnlyActs(k, acts[1..])
  }

  // Keys do not interfere: a key is decided as if it were alone, first request,
  // policy changes and sweeps included.
  lemma {:induction false} LimiterIsBucket(m: Entries, k: string, maxAge: int, acts: seq<Act>)
    ensures DecisionsFor(m, k, maxAge, acts) == DecisionsFor(Only(k, EntryOf(m, k)), k, maxAge, OnlyActs(k, acts))
    decreases |acts|
  {
    if acts != [] {
      var a, alone := acts[0], Only(k, EntryOf(m, k));
      LimiterIsBucket(Next(m, maxAge, a), k, maxAge, acts[1..]);
      if a.Ask? && a.key != k {
        assert OnlyActs(k, acts) == OnlyActs(k, acts[1..]);
      } else {
        assert Only(k, EntryOf(Next(m, maxAge, a), k)) == Next(alone, maxAge, a);
        var only := [a] + OnlyActs(k, acts[1..]);
        assert OnlyActs(k, acts) == only && only[1..] == OnlyActs(k, acts[1..]);
      }
    }
  }

  // --- Conservation

  // What a key's entry says besides its tokens.
  datatype Life = Gone | Live(rate: real, clock: int, lastSeen: int)

  function LifeOf(e: Option<Entry>): Life {
    match e
    case None => Gone
    case Some(v) => Live(v.bucket.rate, v.bucket.lastTime, v.lastSeen)
  }

  function NextLife(l: Life, k: string, maxAge: int, a: Act): Life {
    match a
    case Ask(j, r, _, t) => if j != k then l else Live(r, if l.Gone? then t else Max(l.clock, t), t)
    case SweepAt(t) => if l.Live? && l.lastSeen < t - maxAge then Gone else l
  }

  // What one act grants the key: a burst to a request that finds no entry, else
  // what the rate in force accrued.  Knows nothing of tokens.
  function Granted(l: Life, k: string, a: Act): real {
    if !a.Ask? || a.key != k then 0.0
    else if l.Gone? then a.burst as real
    else Gain(l.rate, Max(l.clock, a.at) - l.clock)
  }

  function Grants(l: Life, k: string, maxAge: int, acts: seq<Act>): real
    decreases |acts|
  {
    if acts == [] then 0.0
    else Granted(l, k, acts[0]) + Grants(NextLife(l, k, maxAge, acts[0]), k, maxAge, acts[1..])
  }

  function Count(ds: seq<bool>): nat {
    if ds == [] then 0 else (if ds[0] then 1 else 0) + Count(ds[1..])
  }

  function TokensOf(m: Entries, k: string): real { if k in m then m[k].bucket.tokens else 0.0 }

  ghost predicate ValidEntry(m: Entries, k: string) { k in m ==> m[k].bucket.Valid() }

  lemma OneGrant(m: Entries, k: string, maxAge: int, a: Act)
    requires ValidEntry(m, k) && a.Valid()
    ensures var m' := Next(m, maxAge, a);
      && ValidEntry(m', k)
      && LifeOf(EntryOf(m', k)) == NextLife(LifeOf(EntryOf(m, k)), k, maxAge, a)
      && (if a.Ask? && a.key == k && Allows(Met(m, k, a.rate, a.burst, a.at), a.at) then 1.0 else 0.0) + TokensOf(m', k)
         <= TokensOf(m, k) + Granted(LifeOf(EntryOf(m, k)), k, a)
  {
    if a.Ask? && a.key == k {
      var b := Met(m, k, a.rate, a.burst, a.at);
      if k in m {
        RefillValid(m[k].bucket, a.at);
      }
      RefillValid(b, a.at);
      assert Gain(b.rate, 0) == 0.0;
    }
  }

  // However the policies of its requests change and whenever the sweep runs, a
  // key is allowed no more than it had, plus what each rate accrued while in
  // force, plus one burst for each request that found it without an entry: its
  // first, and the first after each sweep that dropped it.
  lemma {:induction false} LimiterRateBound(m: Entries, k: string, maxAge: int, acts: seq<Act>)
    requires ValidEntry(m, k) && ValidActs(acts)
    ensures Count(DecisionsFor(m, k, maxAge, acts)) as real
         <= TokensOf(m, k) + Grants(LifeOf(EntryOf(m, k)), k, maxAge, acts)
    decreases |acts|
  {
    if acts != [] {
      var a := acts[0];
      assert a.Valid();
      OneGrant(m, k, maxAge, a);
      var rest := DecisionsFor(Next(m, maxAge, a), k, maxAge, acts[1..]);
      LimiterRateBound(Next(m, maxAge, a), k, maxAge, acts[1..]);
      if a.Ask? && a.key == k {
        var d := Allows(Met(m, k, a.rate, a.burst, a.at), a.at);
        assert ([d] + rest)[1..] == rest;
      } else {
        assert [] + rest == rest;
      }
    }
  }

  function Sweeps(acts: seq<Act>): nat {
    if acts == [] then 0 else (if acts[0].SweepAt? then 1 else 0) + Sweeps(acts[1..])
  }

  predicate InOrder(acts: seq<Act>, from: int, to: int) {
    && (forall i :: 0 <= i < |acts| ==> from <= acts[i].at <= to)
    && (forall i, j :: 0 <= i < j < |acts| ==> acts[i].at <= acts[j].at)
  }

  predicate Capped(acts: seq<Act>, rate: real, burst: int) {
    forall i :: 0 <= i < |acts| && acts[i].Ask? ==> acts[i].rate <= rate && acts[i].burst <= burst
  }

  // The most a key can still be granted without a sweep, its requests capped.
  function Room(l: Life, rate: real, burst: int, from: int, to: int): real {
    if l.Gone? then burst as real + Gain(rate, to - from) else Gain(rate, to - l.clock)
  }

  lemma RoomShrinks(l: Life, k: string, maxAge: int, a: Act, rate: real, burst: int, from: int, to: int)
    requires rate >= 0.0 && burst >= 0 && from <= a.at <= to && a.Valid()
    requires a.Ask? ==> a.rate <= rate && a.burst <= burst
    requires l.Live? ==> 0.0 <= l.rate <= rate && l.clock <= from
    ensures Granted(l, k, a) + Room(NextLife(l, k, maxAge, a), rate, burst, a.at, to)
         <= Room(l, rate, burst, from, to) + if a.SweepAt? then burst as real else 0.0
  {
    GainMono(rate, to - a.at, to - from);
    if l.Live? {
      GainAdds(rate, a.at - l.clock, to - a.at);
      GainCapped(l.rate, rate, a.at - l.clock);
      GainNonneg(rate, a.at - l.clock);
    }
  }

  lemma GainCapped(r: real, rate: real, n: int)
    requires r <= rate && n >= 0
    ensures Gain(r, n) <= Gain(rate, n)
  {
    assert (n as real / 1_000_000_000.0) * (rate - r) >= 0.0;
  }

  function SweepBursts(acts: seq<Act>, burst: int): real {
    if acts == [] then 0.0 else (if acts[0].SweepAt? then burst as real else 0.0) + SweepBursts(acts[1..], burst)
  }

  lemma {:induction false} SweepBurstsTotal(acts: seq<Act>, burst: int)
    ensures SweepBursts(acts, burst) == (Sweeps(acts) * burst) as real
  {
    if acts != [] {
      SweepBurstsTotal(acts[1..], burst);
      assert (Sweeps(acts[1..]) + 1) * burst == Sweeps(acts[1..]) * burst + burst;
    }
  }

  lemma {:induction false} GrantsCapped(l: Life, k: string, maxAge: int, acts: seq<Act>, rate: real, burst: int, from: int, to: int)
    requires rate >= 0.0 && burst >= 0 && from <= to && InOrder(acts, from, to) && Capped(acts, rate, burst) && ValidActs(acts)
    requires l.Live? ==> 0.0 <= l.rate <= rate && l.clock <= from
    ensures Grants(l, k, maxAge, acts) <= Room(l, rate, burst, from, to) + SweepBursts(acts, burst)
    decreases |acts|
  {
    if acts == [] {
      GainNonneg(rate, to - if l.Live? then l.clock else from);
    } else {
      var a := acts[0];
      assert a.Valid() && from <= a.at <= to;
      RoomShrinks(l, k, maxAge, a, rate, burst, from, to);
      GrantsCapped(NextLife(l, k, maxAge, a), k, maxAge, acts[1..], rate, burst, a.at, to);
    }
  }

  // From an empty limiter, with readings in order: at most one burst, one more
  // for each sweep, and the highest rate over the time that passed.
  lemma LimiterWorstCase(k: string, maxAge: int, acts: seq<Act>, rate: real, burst: int, from: int, to: int)
    requires rate >= 0.0 && burst >= 0 && from <= to && InOrder(acts, from, to) && Capped(acts, rate, burst) && ValidActs(acts)
    ensures Count(DecisionsFor(map[], k, maxAge, acts)) as real
         <= ((1 + Sweeps(acts)) * burst) as real + Gain(rate, to - from)
  {
    SweepBurstsTotal(acts, burst);
    assert (1 + Sweeps(acts)) * burst == burst + Sweeps(acts) * burst;
    LimiterRateBound(map[], k, maxAge, acts);
    GrantsCapped(Gone, k, maxAge, acts, rate, burst, from, to);
  }

  // What a sweep gives the next request: the part of its burst that the entry,
  // kept, would not have had.  If the policy has meanwhile been raised past the
  // old burst that is never nothing, however long the key was idle.
  lemma SweepGives(m: Entries, k: string, maxAge: int, swept: int, rate: real, burst: int, now: int)
    requires k in m && m[k].bucket.Valid() && m[k].lastSeen < swept - maxAge && rate >= 0.0 && burst >= 0
    ensures var kept := Refill(Met(m, k, rate, burst, now), now).tokens;
      var full := Refill(Met(Swept(m, swept, maxAge), k, rate, burst, now), now).tokens;
      && full - kept == burst as real - Min(Refill(m[k].bucket, now).tokens, burst as real)
      && (burst > m[k].bucket.burst ==> full - kept >= (burst - m[k].bucket.burst) as real)
  {
    var b := m[k].bucket;
    RefillValid(b, now);
    assert Gain(rate, 0) == 0.0;
  }

  // ---------------------------------------------------------------------------
  // Requests that overlap

  // A request finds its bucket under the limiter's lock and asks it under the
  // bucket's own lock.  In between others may find, reconfigure and ask the same
  // bucket, and a sweep may drop its entry.

  datatype Held = Held(bucket: nat, lastSeen: int)

  // A bucket and its history: the key it was created for, the requests it has
  // allowed, its first burst, and what its rates have accrued.
  datatype Account = Account(key: string, bucket: Bucket, taken: nat, first: int, accrued: real)

  // A request between the two locks: its own key, and the bucket it found.
  datatype Found = Found(key: string, bucket: nat, at: int)

  datatype Shared = Shared(
    entries: map<string, Held>,
    accounts: seq<Account>,        // every bucket ever created
    found: map<nat, Found>)

  datatype Move =
    | Find(id: nat, key: string, rate: real, burst: int, at: int)
    | AskFound(id: nat)
    | Drop(at: int)

  function Start(): Shared { Shared(map[], [], map[]) }

  predicate LegalMove(s: Shared, a: Move) {
    match a
    case Find(id, key, rate, burst, _) =>
      id !in s.found && rate >= 0.0 && burst >= 0 && (key in s.entries ==> s.entries[key].bucket < |s.accounts|)
    case AskFound(id) => id in s.found && s.found[id].bucket < |s.accounts|
    case Drop(_) => true
  }

  function Accrued(b: Bucket, at: int): real { Gain(b.rate, Max(b.lastTime, at) - b.lastTime) }

  function Changed(x: Account, rate: real, burst: int, at: int): Account {
    if x.bucket.rate == rate && x.bucket.burst == burst then x
    else x.(bucket := Reconfigure(x.bucket, rate, burst, at), accrued := x.accrued + Accrued(x.bucket, at))
  }

  function Asked(x: Account, at: int): Account {
    Account(x.key, Allow(x.bucket, at), x.taken + if Allows(x.bucket, at) then 1 else 0, x.first,
            x.accrued + Accrued(x.bucket, at))
  }

  function MoveStep(s: Shared, maxAge: int, a: Move): Shared
    requires LegalMove(s, a)
  {
    match a
    case Find(id, key, rate, burst, at) =>
      var b := if key in s.entries then s.entries[key].bucket else |s.accounts|;
      Shared(s.entries[key := Held(b, at)],
             if key in s.entries then s.accounts[b := Changed(s.accounts[b], rate, burst, at)]
             else s.accounts + [Account(key, New(rate, burst, at), 0, burst, 0.0)],
             s.found[id := Found(key, b, at)])
    case AskFound(id) =>
      var f := s.found[id];
      s.(accounts := s.accounts[f.bucket := Asked(s.accounts[f.bucket], f.at)], found := s.found - {id})
    case Drop(t) => s.(entries := map k | k in s.entries && s.entries[k].lastSeen >= t - maxAge :: s.entries[k])
  }

  ghost predicate LegalMoves(s: Shared, maxAge: int, acts: seq<Move>)
    decreases |acts|
  {
    acts == [] || (LegalMove(s, acts[0]) && LegalMoves(MoveStep(s, maxAge, acts[0]), maxAge, acts[1..]))
  }

  ghost function RunMoves(s: Shared, maxAge: int, acts: seq<Move>): Shared
    requires LegalMoves(s, maxAge, acts)
    decreases |acts|
  {
    if acts == [] then s else RunMoves(MoveStep(s, maxAge, acts[0]), maxAge, acts[1..])
  }

  predicate Conserved(x: Account) {
    x.bucket.Valid() && x.first >= 0 && x.taken as real + x.bucket.tokens <= x.first as real + x.accrued
  }

  // Every bucket has kept to its account, and every request has found its own key's.
  ghost predicate SharedInv(s: Shared) {
    && (forall i :: 0 <= i < |s.accounts| ==> Conserved(s.accounts[i]))
    && (forall k :: k in s.entries ==> s.entries[k].bucket < |s.accounts| && s.accounts[s.entries[k].bucket].key == k)
    && (forall id :: id in s.found ==>
          s.found[id].bucket < |s.accounts| && s.accounts[s.found[id].bucket].key == s.found[id].key)
  }

  lemma AccountConserves(x: Account, rate: real, burst: int, at: int)
    requires Conserved(x) && rate >= 0.0 && burst >= 0
    ensures Conserved(Changed(x, rate, burst, at)) && Changed(x, rate, burst, at).key == x.key
    ensures Conserved(Asked(x, at)) && Asked(x, at).key == x.key
  {
    RefillValid(x.bucket, at);
  }

  lemma MoveKeepsInv(s: Shared, maxAge: int, a: Move)
    requires SharedInv(s) && LegalMove(s, a)
    ensures SharedInv(MoveStep(s, maxAge, a))
  {
    match a
    case Find(_, key, rate, burst, at) =>
      if key in s.entries {
        AccountConserves(s.accounts[s.entries[key].bucket], rate, burst, at);
      }
    case AskFound(id) => AccountConserves(s.accounts[s.found[id].bucket], 0.0, 0, s.found[id].at);
    case Drop(_) =>
  }

  lemma {:induction false} MovesKeepInv(s: Shared, maxAge: int, acts: seq<Move>)
    requires SharedInv(s) && LegalMoves(s, maxAge, acts)
    ensures SharedInv(RunMoves(s, maxAge, acts))
    decreases |acts|
  {
    if acts != [] {
      MoveKeepsInv(s, maxAge, acts[0]);
      MovesKeepInv(MoveStep(s, maxAge, acts[0]), maxAge, acts[1..]);
    }
  }

  // --- All the buckets of one key

  function TakenFor(xs: seq<Account>, k: string): nat {
    if xs == [] then 0 else TakenFor(xs[..|xs| - 1], k) + if xs[|xs| - 1].key == k then xs[|xs| - 1].taken else 0
  }

  function AccruedFor(xs: seq<Account>, k: string): real {
    if xs == [] then 0.0 else AccruedFor(xs[..|xs| - 1], k) + if xs[|xs| - 1].key == k then xs[|xs| - 1].accrued else 0.0
  }

  function CreatedFor(xs: seq<Account>, k: string): nat {
    if xs == [] then 0 else CreatedFor(xs[..|xs| - 1], k) + if xs[|xs| - 1].key == k then 1 else 0
  }

  predicate FirstsUpTo(xs: seq<Account>, k: string, burst: int) {
    forall i :: 0 <= i < |xs| && xs[i].key == k ==> xs[i].first <= burst
  }

  lemma {:induction false} KeyBound(xs: seq<Account>, k: string, burst: nat)
    requires FirstsUpTo(xs, k, burst) && forall i :: 0 <= i < |xs| ==> Conserved(xs[i])
    ensures TakenFor(xs, k) as real <= (CreatedFor(xs, k) * burst) as real + AccruedFor(xs, k)
  {
    if xs != [] {
      var h, x := xs[..|xs| - 1], xs[|xs| - 1];
      assert Conserved(x) && (x.key == k ==> x.first <= burst);
      KeyBound(h, k, burst);
      assert (CreatedFor(h, k) + 1) * burst == CreatedFor(h, k) * burst + burst;
    }
  }

  lemma {:induction false} CreatedByKey(xs: seq<Account>, ys: seq<Account>, k: string)
    requires |xs| == |ys| && forall i :: 0 <= i < |xs| ==> xs[i].key == ys[i].key
    ensures CreatedFor(xs, k) == CreatedFor(ys, k)
  {
    if xs != [] {
      CreatedByKey(xs[..|xs| - 1], ys[..|ys| - 1], k);
    }
  }

  function Drops(acts: seq<Move>): nat {
    if acts == [] then 0 else (if acts[0].Drop? then 1 else 0) + Drops(acts[1..])
  }

  // Buckets of a key that are no longer its entry's.
  function Past(s: Shared, k: string): int { CreatedFor(s.accounts, k) - if k in s.entries then 1 else 0 }

  lemma MovePast(s: Shared, maxAge: int, a: Move, k: string)
    requires LegalMove(s, a)
    ensures Past(MoveStep(s, maxAge, a), k) <= Past(s, k) + if a.Drop? then 1 else 0
  {
    var t := MoveStep(s, maxAge, a);
    if a.Find? && a.key !in s.entries {
      assert t.accounts[..|t.accounts| - 1] == s.accounts;
    } else {
      CreatedByKey(s.accounts, t.accounts, k);
    }
  }

  lemma {:induction false} MovesPast(s: Shared, maxAge: int, acts: seq<Move>, k: string)
    requires LegalMoves(s, maxAge, acts)
    ensures Past(RunMoves(s, maxAge, acts), k) <= Past(s, k) + Drops(acts)
    decreases |acts|
  {
    if acts != [] {
      MovePast(s, maxAge, acts[0], k);
      MovesPast(MoveStep(s, maxAge, acts[0]), maxAge, acts[1..], k);
    }
  }

  predicate BurstsUpTo(acts: seq<Move>, k: string, burst: int) {
    forall i :: 0 <= i < |acts| && acts[i].Find? && acts[i].key == k ==> acts[i].burst <= burst
  }

  lemma {:induction false} FirstBursts(s: Shared, maxAge: int, acts: seq<Move>, k: string, burst: int)
    requires LegalMoves(s, maxAge, acts) && BurstsUpTo(acts, k, burst)
    requires FirstsUpTo(s.accounts, k, burst)
    ensures FirstsUpTo(RunMoves(s, maxAge, acts).accounts, k, burst)
    decreases |acts|
  {
    if acts != [] {
      assert acts[0].Find? && acts[0].key == k ==> acts[0].burst <= burst;
      FirstBursts(MoveStep(s, maxAge, acts[0]), maxAge, acts[1..], k, burst);
    }
  }

  lemma MoreBursts(n: nat, m: nat, burst: nat)
    requires n <= m
    ensures n * burst <= m * burst
  {
    assert (m - n) * burst >= 0 && m * burst == n * burst + (m - n) * burst;
  }

  // However requests, policy changes and sweeps overlap, and whatever clocks they
  // read: a key is allowed at most one burst, one more for each sweep, and what
  // the rates in force accrued.
  lemma OverlappingRateBound(maxAge: int, acts: seq<Move>, k: string, burst: nat)
    requires LegalMoves(Start(), maxAge, acts) && BurstsUpTo(acts, k, burst)
    ensures var xs := RunMoves(Start(), maxAge, acts).accounts;
      && CreatedFor(xs, k) <= 1 + Drops(acts)
      && TakenFor(xs, k) as real <= ((1 + Drops(acts)) * burst) as real + AccruedFor(xs, k)
  {
    MovesKeepInv(Start(), maxAge, acts);
    MovesPast(Start(), maxAge, acts, k);
    FirstBursts(Start(), maxAge, acts, k, burst);
    var xs := RunMoves(Start(), maxAge, acts).accounts;
    KeyBound(xs, k, burst);
    MoreBursts(CreatedFor(xs, k), 1 + Drops(acts), burst);
  }

  // Every request asks a bucket of its own key, swept meanwhile or not, and each
  // bucket allows at most its first burst and what its rates accrued.
  lemma OverlappingOwnBucket(maxAge: int, acts: seq<Move>)
    requires LegalMoves(Start(), maxAge, acts)
    ensures var s := RunMoves(Start(), maxAge, acts);
      && (forall id :: id in s.found ==>
            s.found[id].bucket < |s.accounts| && s.accounts[s.found[id].bucket].key == s.found[id].key)
      && (forall i :: 0 <= i < |s.accounts| ==>
            s.accounts[i].taken as real <= s.accounts[i].first as real + s.accounts[i].accrued)
  {
    MovesKeepInv(Start(), maxAge, acts);
    var xs := RunMoves(Start(), maxAge, acts).accounts;
    forall i | 0 <= i < |xs| ensures xs[i].taken as real <= xs[i].first as real + xs[i].accrued {
      assert Conserved(xs[i]);
    }
  }

  // ---------------------------------------------------------------------------
  // Eviction

  datatype Event = Request(key: string, at: int) | Sweep(at: int)

  // The policy of a key, unchanged throughout a run.
  datatype Limit = Limit(rate: real, burst: int)

  type Limits = string -> Limit

  function Step(lim: Limits, maxAge: int, evicts: bool, m: Entries, op: Event): Entries {
    match op
    case Request(k, t) => After(m, k, lim(k).rate, lim(k).burst, t)
    case Sweep(t) => if evicts then Swept(m, t, maxAge) else m
  }

  // The decisions of a limiter that sweeps, or of one that keeps everything.
  function Decisions(lim: Limits, maxAge: int, evicts: bool, m: Entries, ops: seq<Event>): seq<bool>
    decreases |ops|
  {
    if ops == [] then []
    else
      (match ops[0]
       case Request(k, t) => [Allows(Met(m, k, lim(k).rate, lim(k).burst, t), t)]
       case Sweep(_) => [])
      + Decisions(lim, maxAge, evicts, Step(lim, maxAge, evicts, m, ops[0]), ops[1..])
  }

  function RunFrom(lim: Limits, maxAge: int, evicts: bool, m: Entries, ops: seq<Event>): Entries
    decreases |ops|
  {
    if ops == [] then m else RunFrom(lim, maxAge, evicts, Step(lim, maxAge, evicts, m, ops[0]), ops[1..])
  }

  predicate Ordered(ops: seq<Event>) {
    forall i, j :: 0 <= i < j < |ops| ==> ops[i].at <= ops[j].at
  }

  // An entry idle past maxAge has refilled its bucket.
  predicate Refills(l: Limit, maxAge: int) {
    Gain(l.rate, maxAge + 1) >= l.burst as real
  }

  // Sweeping is never seen by any caller, in any run with nondecreasing readings.
  ghost predicate EvictionInvisible(lim: Limits, maxAge: int) {
    forall ops: seq<Event> :: Ordered(ops) ==>
      Decisions(lim, maxAge, true, map[], ops) == Decisions(lim, maxAge, false, map[], ops)
  }

  // --- Sufficient

  ghost predicate Simulates(lim: Limits, kept: Entries, swept: Entries, t: int) {
    && swept.Keys <= kept.Keys
    && (forall k :: k in swept ==> swept[k] == kept[k])
    && (forall k :: k in kept ==>
          && kept[k].bucket.Valid() && kept[k].bucket.rate == lim(k).rate && kept[k].bucket.burst == lim(k).burst
          && kept[k].bucket.lastTime == kept[k].lastSeen <= t)
    && (forall k :: k in kept && k !in swept ==> Refill(kept[k].bucket, t).tokens == lim(k).burst as real)
  }

  lemma SimulatesLater(lim: Limits, kept: Entries, swept: Entries, t: int, u: int)
    requires Simulates(lim, kept, swept, t) && t <= u
    ensures Simulates(lim, kept, swept, u)
  {
    forall k | k in kept && k !in swept ensures Refill(kept[k].bucket, u).tokens == lim(k).burst as real {
      RefillMono(kept[k].bucket, t, u);
    }
  }

  lemma RequestSimulates(lim: Limits, maxAge: int, kept: Entries, swept: Entries, k: string, t: int)
    requires Simulates(lim, kept, swept, t) && lim(k).rate >= 0.0 && lim(k).burst >= 0
    ensures Simulates(lim, After(kept, k, lim(k).rate, lim(k).burst, t), After(swept, k, lim(k).rate, lim(k).burst, t), t)
    ensures Allows(Met(kept, k, lim(k).rate, lim(k).burst, t), t) <==> Allows(Met(swept, k, lim(k).rate, lim(k).burst, t), t)
  {
    var b, c := Met(kept, k, lim(k).rate, lim(k).burst, t), Met(swept, k, lim(k).rate, lim(k).burst, t);
    RefillValid(b, t);
    RefillValid(c, t);
    assert Refill(b, t) == Refill(c, t);
  }

  lemma SweepSimulates(lim: Limits, maxAge: int, kept: Entries, swept: Entries, t: int)
    requires Simulates(lim, kept, swept, t) && maxAge >= 0
    requires forall k :: Refills(lim(k), maxAge)
    ensures Simulates(lim, kept, Swept(swept, t, maxAge), t)
  {
    var next := Swept(swept, t, maxAge);
    forall k | k in kept && k !in next ensures Refill(kept[k].bucket, t).tokens == lim(k).burst as real {
      if k in swept {
        assert Refills(lim(k), maxAge);
        GainMono(lim(k).rate, maxAge + 1, t - kept[k].lastSeen);
      }
    }
  }

  lemma {:induction false} SameDecisions(lim: Limits, maxAge: int, kept: Entries, swept: Entries, ops: seq<Event>, t: int)
    requires maxAge >= 0 && Ordered(ops) && (ops != [] ==> t <= ops[0].at)
    requires forall k :: Refills(lim(k), maxAge) && lim(k).rate >= 0.0 && lim(k).burst >= 0
    requires Simulates(lim, kept, swept, t)
    ensures Decisions(lim, maxAge, true, swept, ops) == Decisions(lim, maxAge, false, kept, ops)
    decreases |ops|
  {
    if ops != [] {
      var u := ops[0].at;
      SimulatesLater(lim, kept, swept, t, u);
      match ops[0] {
        case Request(k, _) => RequestSimulates(lim, maxAge, kept, swept, k, u);
        case Sweep(_) => SweepSimulates(lim, maxAge, kept, swept, u);
      }
      SameDecisions(lim, maxAge, Step(lim, maxAge, false, kept, ops[0]), Step(lim, maxAge, true, swept, ops[0]), ops[1..], u);
    }
  }

  // --- Necessary

  function Repeat(op: Event, n: nat): seq<Event> { seq(n, i => op) }

  predicate AllTrue(ds: seq<bool>) { forall i :: 0 <= i < |ds| ==> ds[i] }

  // Tokens a key can spend at time t.
  function Available(lim: Limits, m: Entries, k: string, t: int): real {
    Refill(Met(m, k, lim(k).rate, lim(k).burst, t), t).tokens
  }

  lemma DrainOne(lim: Limits, m: Entries, k: string, t: int)
    requires Available(lim, m, k, t) >= 1.0 && Met(m, k, lim(k).rate, lim(k).burst, t).lastTime <= t
    ensures var m' := After(m, k, lim(k).rate, lim(k).burst, t);
      && m'[k] == Entry(Bucket(lim(k).rate, lim(k).burst, Available(lim, m, k, t) - 1.0, t), t)
      && Available(lim, m', k, t) == Available(lim, m, k, t) - 1.0
  {
    var m' := After(m, k, lim(k).rate, lim(k).burst, t);
    assert Met(m', k, lim(k).rate, lim(k).burst, t) == m'[k].bucket;
    assert Gain(lim(k).rate, 0) == 0.0;
  }

  // n requests at one instant all pass exactly when n tokens are there.
  lemma {:induction false} Drain(lim: Limits, maxAge: int, evicts: bool, m: Entries, k: string, t: int, n: nat)
    requires Available(lim, m, k, t) >= 0.0 && Met(m, k, lim(k).rate, lim(k).burst, t).lastTime <= t
    ensures AllTrue(Decisions(lim, maxAge, evicts, m, Repeat(Request(k, t), n))) <==> Available(lim, m, k, t) >= n as real
    ensures var a, r := Available(lim, m, k, t), RunFrom(lim, maxAge, evicts, m, Repeat(Request(k, t), n));
      a >= n as real && n > 0 ==> k in r && r[k] == Entry(Bucket(lim(k).rate, lim(k).burst, a - n as real, t), t)
    decreases n
  {
    if n > 0 {
      var ops, a := Repeat(Request(k, t), n), Available(lim, m, k, t);
      assert ops[0] == Request(k, t) && ops[1..] == Repeat(Request(k, t), n - 1);
      var m' := After(m, k, lim(k).rate, lim(k).burst, t);
      var rest := Decisions(lim, maxAge, evicts, m', ops[1..]);
      assert Decisions(lim, maxAge, evicts, m, ops) == [a >= 1.0] + rest;
      AllTrueAppend([a >= 1.0], rest);
      if a >= 1.0 {
        DrainOne(lim, m, k, t);
        Drain(lim, maxAge, evicts, m', k, t, n - 1);
      } else {
        assert ![a >= 1.0][0];
      }
    }
  }

  lemma {:induction false} DecisionsAppend(lim: Limits, maxAge: int, evicts: bool, m: Entries, a: seq<Event>, b: seq<Event>)
    ensures Decisions(lim, maxAge, evicts, m, a + b)
         == Decisions(lim, maxAge, evicts, m, a) + Decisions(lim, maxAge, evicts, RunFrom(lim, maxAge, evicts, m, a), b)
    decreases |a|
  {
    if a == [] {
      assert a + b == b;
    } else {
      assert (a + b)[1..] == a[1..] + b && (a + b)[0] == a[0];
      DecisionsAppend(lim, maxAge, evicts, Step(lim, maxAge, evicts, m, a[0]), a[1..], b);
    }
  }

  // Spend the burst at 0, sweep just past maxAge, and spend it again.
  function Probe(k: string, maxAge: int, burst: nat): seq<Event> {
    Repeat(Request(k, 0), burst) + ([Sweep(maxAge + 1)] + Repeat(Request(k, maxAge + 1), burst))
  }

  // The key's tokens at the second burst.
  lemma AfterSweep(lim: Limits, maxAge: int, evicts: bool, m: Entries, k: string)
    requires lim(k).rate >= 0.0 && lim(k).burst >= 1 && maxAge >= 0
    requires k in m && m[k] == Entry(Bucket(lim(k).rate, lim(k).burst, 0.0, 0), 0)
    ensures var a := Available(lim, Step(lim, maxAge, evicts, m, Sweep(maxAge + 1)), k, maxAge + 1);
      a >= 0.0 && (a >= lim(k).burst as real <==> evicts || Refills(lim(k), maxAge))
  {
    GainNonneg(lim(k).rate, maxAge + 1);
  }

  lemma AllTrueAppend(a: seq<bool>, b: seq<bool>)
    ensures AllTrue(a + b) <==> AllTrue(a) && AllTrue(b)
  {
    assert forall i :: 0 <= i < |a| ==> (a + b)[i] == a[i];
    assert forall i :: 0 <= i < |b| ==> (a + b)[|a| + i] == b[i];
  }

  lemma ProbeDecisions(lim: Limits, maxAge: int, evicts: bool, k: string)
    requires lim(k).rate >= 0.0 && lim(k).burst >= 1 && maxAge >= 0
    ensures var ds := Decisions(lim, maxAge, evicts, map[], Probe(k, maxAge, lim(k).burst));
      AllTrue(ds) <==> evicts || Refills(lim(k), maxAge)
  {
    var n, u := lim(k).burst, maxAge + 1;
    var a, c := Repeat(Request(k, 0), n), Repeat(Request(k, u), n);
    Drain(lim, maxAge, evicts, map[], k, 0, n);
    var m := RunFrom(lim, maxAge, evicts, map[], a);
    assert m[k] == Entry(Bucket(lim(k).rate, n, 0.0, 0), 0);
    AfterSweep(lim, maxAge, evicts, m, k);
    var m' := Step(lim, maxAge, evicts, m, Sweep(u));
    Drain(lim, maxAge, evicts, m', k, u, n);
    DecisionsAppend(lim, maxAge, evicts, map[], a, [Sweep(u)] + c);
    SweepDecides(lim, maxAge, evicts, m, u, c);
    AllTrueAppend(Decisions(lim, maxAge, evicts, map[], a), Decisions(lim, maxAge, evicts, m', c));
  }

  lemma SweepDecides(lim: Limits, maxAge: int, evicts: bool, m: Entries, u: int, ops: seq<Event>)
    ensures Decisions(lim, maxAge, evicts, m, [Sweep(u)] + ops)
         == Decisions(lim, maxAge, evicts, Step(lim, maxAge, evicts, m, Sweep(u)), ops)
  {
    assert ([Sweep(u)] + ops)[1..] == ops;
  }

  // Eviction is invisible exactly when every key's rate refills its burst within
  // maxAge + 1 ns, the shortest idle time the sweep ever drops.
  lemma EvictionInvisibleIff(lim: Limits, maxAge: int)
    requires maxAge >= 0 && forall k :: lim(k).rate >= 0.0 && lim(k).burst >= 1
    ensures EvictionInvisible(lim, maxAge) <==> forall k :: Refills(lim(k), maxAge)
  {
    if forall k :: Refills(lim(k), maxAge) {
      forall ops: seq<Event> | Ordered(ops)
        ensures Decisions(lim, maxAge, true, map[], ops) == Decisions(lim, maxAge, false, map[], ops)
      {
        SameDecisions(lim, maxAge, map[], map[], ops, if ops == [] then 0 else ops[0].at);
      }
    } else {
      var k :| !Refills(lim(k), maxAge);
      ProbeDecisions(lim, maxAge, true, k);
      ProbeDecisions(lim, maxAge, false, k);
      assert Ordered(Probe(k, maxAge, lim(k).burst));
    }
  }
}
