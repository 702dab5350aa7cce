/** Token introspection with a stale-on-error cache, IntrospectProto of
    identityclient/client.go.

    The cache is asked first, the identity service always; the cached answer is
    used only when the service could not answer.  Calls run one at a time.  What
    the service did, and the clock at the lookup and at the store, are inputs.
 */
module Introspection {
  import opened LruCache
  import L = LruRuns
  import opened Options
  import opened Sets

  datatype Response = Response(active: bool, subject: string, scopes: seq<string>)

  datatype Cached = Cached(expiresAt: int, result: Response)

  datatype Body = Unreadable | Undecodable | Decoded(response: Response)

  datatype Upstream = BuildFailed | TransportFailed | Answered(status: int, body: Body)

  datatype Outcome =
    | Fresh(response: Response)
    | FromCache(response: Response)
    | BuildError
    | Unavailable
    | InvalidToken
    | InactiveToken

  // What the service told about the token.
  datatype Verdict = NotAsked | Transient | Rejected | Inactive | Active(response: Response)

  function Judge(up: Upstream): Verdict {
    match up
    case BuildFailed => NotAsked
    case TransportFailed => Transient
    case Answered(status, body) =>
      if status == 200 then
        match body
        case Unreadable => Transient
        case Undecodable => Transient
        case Decoded(r) => if r.active then Active(r) else Inactive
      else if status == 408 || status == 429 || status >= 500 then Transient
      else Rejected
  }

  type Contents = seq<Entry<string, Cached>>

  predicate Caches(ttl: int, token: string) { ttl > 0 && token != "" }

  function Expired(now: int): (string, Cached) -> bool {
    (k: string, c: Cached) => now > c.expiresAt
  }

  // cachedIntrospection: the answer, if one is held and still good.
  ghost predicate Usable(s: Contents, ttl: int, token: string, now: int) {
    Caches(ttl, token) && Holds(s, token) && now <= Lookup(s, token).value.expiresAt
  }

  ghost function LookedUp(s: Contents, ttl: int, token: string, now: int): Contents {
    if !Caches(ttl, token) || !Holds(s, token) then s
    else if now > Lookup(s, token).value.expiresAt then Without(Got(s, token), token)
    else Got(s, token)
  }

  ghost function Saved(s: Contents, ttl: int, maxSize: int, token: string, r: Response, now: int): Contents {
    if Caches(ttl, token) then Stored(Pruned(s, Expired(now)), token, Cached(now + ttl, r), maxSize) else s
  }

  ghost function Evicted(s: Contents, token: string): Contents {
    if token == "" then s else Without(s, token)
  }

  datatype Call = Call(token: string, up: Upstream, lookedUpAt: int, storedAt: int)

  ghost function Next(s: Contents, ttl: int, maxSize: int, c: Call): Contents {
    var l := LookedUp(s, ttl, c.token, c.lookedUpAt);
    match Judge(c.up)
    case NotAsked => l
    case Transient => l
    case Rejected => Evicted(l, c.token)
    case Inactive => Evicted(l, c.token)
    case Active(r) => Saved(l, ttl, maxSize, c.token, r, c.storedAt)
  }

  ghost function Result(s: Contents, ttl: int, c: Call): Outcome {
    match Judge(c.up)
    case NotAsked => BuildError
    case Transient =>
      if Usable(s, ttl, c.token, c.lookedUpAt) then FromCache(Lookup(s, c.token).value.result) else Unavailable
    case Rejected => InvalidToken
    case Inactive => InactiveToken
    case Active(r) => Fresh(r)
  }

  // What the service said decides the kind of answer.
  predicate Follows(up: Upstream, out: Outcome) {
    && (out.Fresh? <==> up.Answered? && up.status == 200 && up.body.Decoded? && up.body.response.active)
    && (out.Fresh? ==> out.response == up.body.response)
    && (out.InactiveToken? <==> up.Answered? && up.status == 200 && up.body.Decoded? && !up.body.response.active)
    && (out.InvalidToken? <==> up.Answered? && up.status !in {200, 408, 429} && up.status < 500)
    && (out.FromCache? || out.Unavailable? <==>
          || up.TransportFailed?
          || (up.Answered? && (up.status in {408, 429} || up.status >= 500 || (up.status == 200 && !up.body.Decoded?))))
    && (out.BuildError? <==> up.BuildFailed?)
  }

  // ---------------------------------------------------------------------------
  // The client

  class Client {
    const cacheTTL: int
    const introspection: LruCache<string, Cached>

    ghost predicate Valid()
      reads introspection
    {
      introspection.Valid()
    }

    ghost function View(): Contents
      reads introspection, introspection.Repr()
    {
      introspection.Contents()
    }

    // A size of zero or less means 10000.
    constructor (ttl: int, maxCacheSize: int)
      ensures Valid() && fresh(introspection) && View() == [] && cacheTTL == ttl
      ensures introspection.maxSize == if maxCacheSize <= 0 then 10000 else maxCacheSize
    {
      cacheTTL := ttl;
      introspection := new LruCache(if maxCacheSize <= 0 then 10000 else maxCacheSize);
    }

    method CachedIntrospection(token: string, now: int) returns (cached: Option<Response>)
      requires Valid()
      modifies introspection
      ensures Valid() && View() == LookedUp(old(View()), cacheTTL, token, now)
      ensures cached == if old(Usable(View(), cacheTTL, token, now))
                        then Some(old(Lookup(View(), token).value.result)) else None
      ensures introspection.Repr() <= old(introspection.Repr())
    {
      if cacheTTL <= 0 || token == "" {
        return None;
      }
      var found, elem := introspection.Get(token);
      if !found {
        return None;
      }
      if now > elem.value.expiresAt {
        introspection.Delete(token);
        return None;
      }
      return Some(elem.value.result);
    }

    method StoreIntrospection(token: string, r: Response, now: int)
      requires Valid()
      modifies introspection, introspection.Repr()
      ensures Valid() && View() == Saved(old(View()), cacheTTL, introspection.maxSize, token, r, now)
      ensures fresh(introspection.Repr() - old(introspection.Repr()))
    {
      if cacheTTL <= 0 || token == "" {
        return;
      }
      introspection.DeleteFunc(Expired(now));
      introspection.Put(token, Cached(now + cacheTTL, r));
    }

    method EvictIntrospection(token: string)
      requires Valid()
      modifies introspection
      ensures Valid() && View() == Evicted(old(View()), token)
      ensures introspection.Repr() <= old(introspection.Repr())
    {
      if token == "" {
        return;
      }
      introspection.Delete(token);
    }

    method Introspect(token: string, up: Upstream, lookedUpAt: int, storedAt: int) returns (out: Outcome)
      requires Valid()
      modifies introspection, introspection.Repr()
      ensures Valid()
      ensures View() == Next(old(View()), cacheTTL, introspection.maxSize, Call(token, up, lookedUpAt, storedAt))
      ensures out == Result(old(View()), cacheTTL, Call(token, up, lookedUpAt, storedAt)) && Follows(up, out)
      ensures fresh(introspection.Repr() - old(introspection.Repr()))
    {
      ResultFollows(View(), cacheTTL, Call(token, up, lookedUpAt, storedAt));
      var cached := CachedIntrospection(token, lookedUpAt);
      var fallback := if cached.Some? then FromCache(cached.value) else Unavailable;
      if up.BuildFailed? {
        return BuildError;
      }
      if up.TransportFailed? || up.status == 408 || up.status == 429 {
        return fallback;
      }
      if up.status != 200 {
        if up.status >= 500 {
          return fallback;
        }
        EvictIntrospection(token);
        return InvalidToken;
      }
      if !up.body.Decoded? {
        return fallback;
      }
      if !up.body.response.active {
        EvictIntrospection(token);
        return InactiveToken;
      }
      StoreIntrospection(token, up.body.response, storedAt);
      return Fresh(up.body.response);
    }
  }

  lemma ResultFollows(s: Contents, ttl: int, c: Call)
    ensures Follows(c.up, Result(s, ttl, c))
  {
  }

  // ---------------------------------------------------------------------------
  // Runs

  ghost function Run(ttl: int, maxSize: int, calls: seq<Call>): Contents {
    if calls == [] then []
    else Next(Run(ttl, maxSize, calls[..|calls| - 1]), ttl, maxSize, calls[|calls| - 1])
  }

  // The service's most recent definitive answer about a token, from the run alone.
  datatype Answer = Unknown | Refused | Accepted(response: Response, at: int)

  function LastAnswer(calls: seq<Call>, token: string): Answer {
    if calls == [] then Unknown
    else
      var c := calls[|calls| - 1];
      var before := LastAnswer(calls[..|calls| - 1], token);
      if c.token != token then before
      else
        match Judge(c.up)
        case NotAsked => before
        case Transient => before
        case Rejected => Refused
        case Inactive => Refused
        case Active(r) => Accepted(r, c.storedAt)
  }

  // --- Nothing is held that the service did not last say

  ghost predicate Backed(s: Contents, ttl: int, calls: seq<Call>) {
    forall i :: 0 <= i < |s| ==> Vouched(s[i], ttl, calls)
  }

  ghost predicate Vouched(e: Entry<string, Cached>, ttl: int, calls: seq<Call>) {
    Caches(ttl, e.key) && LastAnswer(calls, e.key) == Accepted(e.value.result, e.value.expiresAt - ttl)
  }

  lemma BackedWithout(s: Contents, ttl: int, calls: seq<Call>, k: string)
    requires Backed(s, ttl, calls)
    ensures Backed(Without(s, k), ttl, calls)
    ensures forall i :: 0 <= i < |Without(s, k)| ==> Without(s, k)[i].key != k
  {
    var p := (e: Entry<string, Cached>) => e.key != k;
    var t := Without(s, k);
    WithoutIsKeep(s, k, p);
    forall i | 0 <= i < |t| ensures t[i].key != k && Vouched(t[i], ttl, calls) { KeepMember(s, p, t[i]); }
  }

  lemma BackedPruned(s: Contents, ttl: int, calls: seq<Call>, fn: (string, Cached) -> bool)
    requires Backed(s, ttl, calls)
    ensures Backed(Pruned(s, fn), ttl, calls)
  {
    var p := (e: Entry<string, Cached>) => !fn(e.key, e.value);
    var t := Pruned(s, fn);
    PrunedIsKeep(s, fn, p);
    forall i | 0 <= i < |t| ensures Vouched(t[i], ttl, calls) { KeepMember(s, p, t[i]); }
  }

  lemma BackedLookedUp(s: Contents, ttl: int, calls: seq<Call>, token: string, now: int)
    requires Backed(s, ttl, calls)
    ensures Backed(LookedUp(s, ttl, token, now), ttl, calls)
  {
    if Holds(s, token) {
      BackedWithout(s, ttl, calls, token);
      BackedWithout(Got(s, token), ttl, calls, token);
    }
  }

  // What one more call leaves unsaid about the other tokens, or about all.
  lemma AnswerAfter(calls: seq<Call>, c: Call, token: string)
    ensures LastAnswer(calls + [c], token) ==
      if c.token != token then LastAnswer(calls, token)
      else match Judge(c.up)
        case NotAsked => LastAnswer(calls, token)
        case Transient => LastAnswer(calls, token)
        case Rejected => Refused
        case Inactive => Refused
        case Active(r) => Accepted(r, c.storedAt)
  {
    assert (calls + [c])[..|calls|] == calls;
  }

  lemma BackedStep(s: Contents, ttl: int, maxSize: int, calls: seq<Call>, c: Call)
    requires Backed(s, ttl, calls)
    ensures Backed(Next(s, ttl, maxSize, c), ttl, calls + [c])
  {
    var l, k := LookedUp(s, ttl, c.token, c.lookedUpAt), c.token;
    BackedLookedUp(s, ttl, calls, k, c.lookedUpAt);
    forall token ensures token != k || Judge(c.up).NotAsked? || Judge(c.up).Transient? ==>
        LastAnswer(calls + [c], token) == LastAnswer(calls, token)
    {
      AnswerAfter(calls, c, token);
    }
    AnswerAfter(calls, c, k);
    BackedWithout(l, ttl, calls, k);
    if Judge(c.up).Active? {
      BackedPruned(l, ttl, calls, Expired(c.storedAt));
      BackedWithout(Pruned(l, Expired(c.storedAt)), ttl, calls, k);
    }
  }

  lemma {:induction false} BackedRun(ttl: int, maxSize: int, calls: seq<Call>)
    ensures Backed(Run(ttl, maxSize, calls), ttl, calls)
  {
    if calls != [] {
      BackedRun(ttl, maxSize, calls[..|calls| - 1]);
      BackedStep(Run(ttl, maxSize, calls[..|calls| - 1]), ttl, maxSize, calls[..|calls| - 1], calls[|calls| - 1]);
      assert calls == calls[..|calls| - 1] + [calls[|calls| - 1]];
    }
  }

  // --- Said of the run alone

  // The service said that the token is good, and what of.
  predicate SaysActive(up: Upstream, r: Response) { up == Answered(200, Decoded(r)) && r.active }

  // The service said nothing about the token.
  predicate SaysNothing(up: Upstream) {
    match up
    case BuildFailed => true
    case TransportFailed => true
    case Answered(status, body) => status in {408, 429} || status >= 500 || (status == 200 && !body.Decoded?)
  }

  lemma SilenceIsTransient(up: Upstream)
    requires SaysNothing(up) && !up.BuildFailed?
    ensures Judge(up) == Transient
  {
  }

  // Call i was the last to hear about its token, and heard that it is good.
  predicate LastHeard(calls: seq<Call>, token: string, i: nat, r: Response) {
    && i < |calls| && calls[i].token == token && SaysActive(calls[i].up, r)
    && forall j :: i < j < |calls| && calls[j].token == token ==> SaysNothing(calls[j].up)
  }

  lemma {:induction false} AcceptedIsLastHeard(calls: seq<Call>, token: string) returns (i: nat)
    requires LastAnswer(calls, token).Accepted?
    ensures LastHeard(calls, token, i, LastAnswer(calls, token).response) && calls[i].storedAt == LastAnswer(calls, token).at
  {
    var n := |calls| - 1;
    if calls[n].token == token && Judge(calls[n].up).Active? {
      i := n;
    } else {
      i := AcceptedIsLastHeard(calls[..n], token);
      assert forall j :: 0 <= j < n ==> calls[..n][j] == calls[j];
    }
  }

  lemma {:induction false} LastHeardIsAccepted(calls: seq<Call>, token: string, i: nat, r: Response)
    requires LastHeard(calls, token, i, r)
    ensures LastAnswer(calls, token) == Accepted(r, calls[i].storedAt)
  {
    var n := |calls| - 1;
    if i < n {
      assert calls[n].token == token ==> SaysNothing(calls[n].up);
      assert forall j :: 0 <= j < n ==> calls[..n][j] == calls[j];
      LastHeardIsAccepted(calls[..n], token, i, r);
    }
  }

  // Nothing but good tokens is held, each with the last the service said of it.
  lemma HeldAreActive(ttl: int, maxSize: int, calls: seq<Call>, j: nat) returns (i: nat)
    requires j < |Run(ttl, maxSize, calls)|
    ensures var e := Run(ttl, maxSize, calls)[j];
      && e.value.result.active && LastHeard(calls, e.key, i, e.value.result)
      && e.value.expiresAt == calls[i].storedAt + ttl && ttl > 0 && e.key != ""
  {
    BackedRun(ttl, maxSize, calls);
    var e := Run(ttl, maxSize, calls)[j];
    assert Vouched(e, ttl, calls);
    i := AcceptedIsLastHeard(calls, e.key);
  }

  // A token refused or inactive is forgotten.
  lemma RefusalForgets(s: Contents, ttl: int, maxSize: int, c: Call)
    requires c.token != "" && Result(s, ttl, c) in {InvalidToken, InactiveToken}
    ensures !Holds(Next(s, ttl, maxSize, c), c.token)
  {
    var l := LookedUp(s, ttl, c.token, c.lookedUpAt);
    var p := (e: Entry<string, Cached>) => e.key != c.token;
    WithoutIsKeep(l, c.token, p);
    var t := Without(l, c.token);
    forall i | 0 <= i < |t| ensures t[i].key != c.token { KeepMember(l, p, t[i]); }
  }

  // Storing an answer clears out what has expired.
  lemma NothingExpiredAfterStore(s: Contents, ttl: int, maxSize: int, token: string, r: Response, now: int, i: nat)
    requires ttl > 0 && token != "" && i < |Saved(s, ttl, maxSize, token, r, now)|
    ensures now <= Saved(s, ttl, maxSize, token, r, now)[i].value.expiresAt
  {
    var fn := Expired(now);
    var q, p := Pruned(s, fn), (e: Entry<string, Cached>) => !fn(e.key, e.value);
    var other := (e: Entry<string, Cached>) => e.key != token;
    PrunedIsKeep(s, fn, p);
    WithoutIsKeep(q, token, other);
    var t := Saved(s, ttl, maxSize, token, r, now);
    if i > 0 {
      assert t[i] == Without(q, token)[i - 1];
      KeepMember(q, other, t[i]);
      KeepMember(s, p, t[i]);
    }
  }

  // A cached answer is given only when the service said nothing about the token,
  // is the last it did say, that the token is good, and is at most ttl old.
  lemma FallbackSound(ttl: int, maxSize: int, calls: seq<Call>, c: Call) returns (i: nat)
    requires Result(Run(ttl, maxSize, calls), ttl, c).FromCache?
    ensures SaysNothing(c.up) && !c.up.BuildFailed?
    ensures var r := Result(Run(ttl, maxSize, calls), ttl, c).response;
      r.active && LastHeard(calls, c.token, i, r) && c.lookedUpAt <= calls[i].storedAt + ttl
  {
    BackedRun(ttl, maxSize, calls);
    var s := Run(ttl, maxSize, calls);
    var j :| 0 <= j < |s| && s[j] == Lookup(s, c.token);
    assert Vouched(s[j], ttl, calls);
    i := AcceptedIsLastHeard(calls, c.token);
  }

  // --- Nothing the service last said is missing, with room for every token

  function Tokens(calls: seq<Call>): set<string> { set c | c in calls :: c.token }

  // Each call reads the clock twice, and no reading goes back.
  predicate Ordered(calls: seq<Call>) {
    && (forall i :: 0 <= i < |calls| ==> calls[i].lookedUpAt <= calls[i].storedAt)
    && (forall i :: 0 < i < |calls| ==> calls[i - 1].storedAt <= calls[i].lookedUpAt)
  }

  lemma HoldsWithout(s: Contents, k: string, x: string)
    requires Holds(s, x) && x != k
    ensures Holds(Without(s, k), x)
  {
    var p := (e: Entry<string, Cached>) => e.key != k;
    var i :| 0 <= i < |s| && s[i].key == x;
    WithoutIsKeep(s, k, p);
    KeepMember(s, p, s[i]);
  }

  lemma HoldsGot(s: Contents, k: string, x: string)
    requires Holds(s, x)
    ensures Holds(Got(s, k), x)
  {
    if x != k {
      HoldsWithout(s, k, x);
      if Holds(s, k) {
        var i :| 0 <= i < |Without(s, k)| && Without(s, k)[i].key == x;
        assert Got(s, k)[i + 1].key == x;
      }
    } else {
      assert Got(s, k)[0].key == k;
    }
  }

  lemma HoldsPruned(s: Contents, fn: (string, Cached) -> bool, i: nat)
    requires i < |s| && !fn(s[i].key, s[i].value)
    ensures Holds(Pruned(s, fn), s[i].key)
  {
    var p := (e: Entry<string, Cached>) => !fn(e.key, e.value);
    PrunedIsKeep(s, fn, p);
    KeepMember(s, p, s[i]);
  }

  lemma {:induction false} DistinctBound(s: Contents, keys: set<string>)
    requires Distinct(s) && forall i :: 0 <= i < |s| ==> s[i].key in keys
    ensures |s| <= |keys|
  {
    if s != [] {
      DistinctBound(s[1..], keys - {s[0].key});
    }
  }

  // With room for one more distinct key, storing pushes nothing out.
  lemma HoldsStored(s: Contents, k: string, v: Cached, maxSize: int, keys: set<string>, x: string)
    requires Distinct(s) && k in keys && |keys| <= maxSize && (forall i :: 0 <= i < |s| ==> s[i].key in keys)
    requires Holds(s, x) || x == k
    ensures Holds(Stored(s, k, v, maxSize), x)
  {
    var t, p := [Entry(k, v)] + Without(s, k), (e: Entry<string, Cached>) => e.key != k;
    L.FrontDistinct(s, Entry(k, v));
    WithoutIsKeep(s, k, p);
    forall i | 0 <= i < |t| ensures t[i].key in keys {
      if i > 0 { KeepMember(s, p, t[i]); }
    }
    DistinctBound(t, keys);
    if x == k {
      assert t[0].key == x;
    } else {
      HoldsWithout(s, k, x);
      var i :| 0 <= i < |Without(s, k)| && Without(s, k)[i].key == x;
      assert t[i + 1].key == x;
    }
  }

  // Every answer still good at now is held.
  ghost predicate Complete(s: Contents, ttl: int, calls: seq<Call>, now: int) {
    forall x {:trigger Holds(s, x)} :: x != "" && LastAnswer(calls, x).Accepted? && LastAnswer(calls, x).at + ttl >= now ==> Holds(s, x)
  }

  ghost predicate Sound(s: Contents, ttl: int, maxSize: int, calls: seq<Call>) {
    Backed(s, ttl, calls) && Distinct(s) && |s| <= maxSize
  }

  lemma DistinctNext(s: Contents, ttl: int, maxSize: int, c: Call)
    requires Distinct(s) && |s| <= maxSize
    ensures var l := LookedUp(s, ttl, c.token, c.lookedUpAt); Distinct(l) && |l| <= maxSize
    ensures Distinct(Next(s, ttl, maxSize, c)) && |Next(s, ttl, maxSize, c)| <= maxSize
  {
    var l := LookedUp(s, ttl, c.token, c.lookedUpAt);
    L.WellFormed(s, maxSize, L.GetOp(c.token));
    L.WellFormed(Got(s, c.token), maxSize, L.DeleteOp(c.token));
    L.WellFormed(l, maxSize, L.DeleteOp(c.token));
    L.WellFormed(l, maxSize, L.DeleteFuncOp(Expired(c.storedAt)));
    if Judge(c.up).Active? {
      var v := Cached(c.storedAt + ttl, Judge(c.up).response);
      L.WellFormed(Pruned(l, Expired(c.storedAt)), maxSize, L.PutOp(c.token, v));
    }
  }

  lemma {:induction false} SoundRun(ttl: int, maxSize: int, calls: seq<Call>)
    requires maxSize >= 0
    ensures Sound(Run(ttl, maxSize, calls), ttl, maxSize, calls)
  {
    BackedRun(ttl, maxSize, calls);
    if calls != [] {
      SoundRun(ttl, maxSize, calls[..|calls| - 1]);
      DistinctNext(Run(ttl, maxSize, calls[..|calls| - 1]), ttl, maxSize, calls[|calls| - 1]);
    }
  }

  lemma {:induction false} AnsweredToken(calls: seq<Call>, x: string)
    requires !LastAnswer(calls, x).Unknown?
    ensures x in Tokens(calls)
  {
    if calls[|calls| - 1].token != x || Judge(calls[|calls| - 1].up).NotAsked? || Judge(calls[|calls| - 1].up).Transient? {
      AnsweredToken(calls[..|calls| - 1], x);
    }
  }

  // A held token is still held after the lookup, unless it has expired.
  lemma HoldsLookedUp(s: Contents, ttl: int, calls: seq<Call>, token: string, now: int, x: string)
    requires Backed(s, ttl, calls) && Holds(s, x) && LastAnswer(calls, x).at + ttl >= now && LastAnswer(calls, x).Accepted?
    ensures Holds(LookedUp(s, ttl, token, now), x)
  {
    HoldsGot(s, token, x);
    if x != token {
      HoldsWithout(Got(s, token), token, x);
    } else {
      var i :| 0 <= i < |s| && s[i] == Lookup(s, x);
    }
  }

  lemma HoldsSaved(l: Contents, ttl: int, maxSize: int, calls: seq<Call>, c: Call, r: Response, x: string)
    requires Caches(ttl, c.token) && Sound(l, ttl, maxSize, calls) && |Tokens(calls + [c])| <= maxSize
    requires x == c.token || (Holds(l, x) && LastAnswer(calls, x).Accepted? && LastAnswer(calls, x).at + ttl >= c.storedAt)
    ensures Holds(Saved(l, ttl, maxSize, c.token, r, c.storedAt), x)
  {
    var keys, q := Tokens(calls + [c]), Pruned(l, Expired(c.storedAt));
    L.WellFormed(l, maxSize, L.DeleteFuncOp(Expired(c.storedAt)));
    BackedPruned(l, ttl, calls, Expired(c.storedAt));
    assert Tokens(calls) <= keys && c.token in keys by {
      assert forall d :: d in calls ==> d in calls + [c];
      assert c in calls + [c];
    }
    forall i | 0 <= i < |q| ensures q[i].key in keys {
      assert Vouched(q[i], ttl, calls);
      AnsweredToken(calls, q[i].key);
    }
    if x != c.token {
      var i :| 0 <= i < |l| && l[i].key == x;
      assert Vouched(l[i], ttl, calls);
      HoldsPruned(l, Expired(c.storedAt), i);
    }
    HoldsStored(q, c.token, Cached(c.storedAt + ttl, r), maxSize, keys, x);
  }

  lemma CompleteStep(s: Contents, ttl: int, maxSize: int, calls: seq<Call>, c: Call, now: int, x: string)
    requires ttl > 0 && Sound(s, ttl, maxSize, calls) && Complete(s, ttl, calls, now)
    requires now <= c.lookedUpAt <= c.storedAt && |Tokens(calls + [c])| <= maxSize
    requires x != "" && LastAnswer(calls + [c], x).Accepted? && LastAnswer(calls + [c], x).at + ttl >= c.storedAt
    ensures Holds(Next(s, ttl, maxSize, c), x)
  {
    AnswerAfter(calls, c, x);
    var l := LookedUp(s, ttl, c.token, c.lookedUpAt);
    BackedLookedUp(s, ttl, calls, c.token, c.lookedUpAt);
    DistinctNext(s, ttl, maxSize, c);
    var answeredNow := x == c.token && Judge(c.up).Active?;
    if !answeredNow {
      assert Holds(s, x);
      HoldsLookedUp(s, ttl, calls, c.token, c.lookedUpAt, x);
    }
    if Judge(c.up).Active? {
      if Caches(ttl, c.token) {
        HoldsSaved(l, ttl, maxSize, calls, c, Judge(c.up).response, x);
      }
    } else if x != c.token {
      HoldsWithout(l, c.token, x);
    }
  }

  lemma {:induction false} CompleteRun(ttl: int, maxSize: int, calls: seq<Call>)
    requires ttl > 0 && maxSize >= 0 && Ordered(calls) && calls != [] && |Tokens(calls)| <= maxSize
    ensures Complete(Run(ttl, maxSize, calls), ttl, calls, calls[|calls| - 1].storedAt)
  {
    var h, c := calls[..|calls| - 1], calls[|calls| - 1];
    var s := Run(ttl, maxSize, h);
    assert calls == h + [c];
    SoundRun(ttl, maxSize, h);
    var now := if h == [] then c.lookedUpAt else h[|h| - 1].storedAt;
    if h != [] {
      assert Tokens(h) <= Tokens(calls) by { assert forall d :: d in h ==> d in calls; }
      SubsetSize(Tokens(h), Tokens(calls));
      CompleteRun(ttl, maxSize, h);
    }
    forall x | x != "" && LastAnswer(calls, x).Accepted? && LastAnswer(calls, x).at + ttl >= c.storedAt
      ensures Holds(Run(ttl, maxSize, calls), x)
    {
      CompleteStep(s, ttl, maxSize, h, c, now, x);
    }
  }

  // With readings that do not go back and room for every token, a call the
  // service cannot answer gets the token's last definitive answer exactly when
  // that answer was active and is at most ttl old.
  lemma FallbackExact(ttl: int, maxSize: int, calls: seq<Call>, c: Call)
    requires ttl > 0 && maxSize >= 0 && Ordered(calls + [c]) && |Tokens(calls)| <= maxSize
    requires c.token != "" && SaysNothing(c.up) && !c.up.BuildFailed?
    ensures var a := LastAnswer(calls, c.token);
      Result(Run(ttl, maxSize, calls), ttl, c) ==
      if a.Accepted? && c.lookedUpAt <= a.at + ttl then FromCache(a.response) else Unavailable
  {
    SilenceIsTransient(c.up);
    var s, a := Run(ttl, maxSize, calls), LastAnswer(calls, c.token);
    SoundRun(ttl, maxSize, calls);
    if calls != [] {
      assert Ordered(calls) by { assert forall i :: 0 <= i < |calls| ==> calls[i] == (calls + [c])[i]; }
      assert calls[|calls| - 1] == (calls + [c])[|calls| - 1] && (calls + [c])[|calls|] == c;
      CompleteRun(ttl, maxSize, calls);
    }
    if Holds(s, c.token) {
      var i :| 0 <= i < |s| && s[i] == Lookup(s, c.token);
      assert Vouched(s[i], ttl, calls);
    }
  }

  // Said of the run alone: it does get the last the service said of its token, if
  // that was that it is good, and at most ttl ago.
  lemma FallbackGiven(ttl: int, maxSize: int, calls: seq<Call>, c: Call, i: nat, r: Response)
    requires ttl > 0 && maxSize >= 0 && Ordered(calls + [c]) && |Tokens(calls)| <= maxSize
    requires c.token != "" && SaysNothing(c.up) && !c.up.BuildFailed?
    requires LastHeard(calls, c.token, i, r) && c.lookedUpAt <= calls[i].storedAt + ttl
    ensures Result(Run(ttl, maxSize, calls), ttl, c) == FromCache(r)
  {
    LastHeardIsAccepted(calls, c.token, i, r);
    FallbackExact(ttl, maxSize, calls, c);
  }
}
