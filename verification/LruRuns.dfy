/** What holds of the LRU cache over every run of its operations. */
module LruRuns {
  import opened LruCache

  datatype Op<!K, !V> =
    | GetOp(key: K)
    | PutOp(key: K, value: V)
    | DeleteOp(key: K)
    | DeleteFuncOp(fn: (K, V) -> bool)

  ghost function Apply<K, V>(s: seq<Entry<K, V>>, maxSize: int, op: Op<K, V>): seq<Entry<K, V>> {
    match op
    case GetOp(k) => Got(s, k)
    case PutOp(k, v) => Stored(s, k, v, maxSize)
    case DeleteOp(k) => Without(s, k)
    case DeleteFuncOp(fn) => Pruned(s, fn)
  }

  // The contents of an initially empty cache after a run.
  ghost function Run<K, V>(maxSize: int, ops: seq<Op<K, V>>): seq<Entry<K, V>> {
    if ops == [] then [] else Apply(Run(maxSize, ops[..|ops| - 1]), maxSize, ops[|ops| - 1])
  }

  // ---------------------------------------------------------------------------
  // Well-formedness

  lemma FrontDistinct<K, V>(s: seq<Entry<K, V>>, e: Entry<K, V>)
    requires Distinct(s)
    ensures Distinct([e] + Without(s, e.key))
    ensures Holds(s, e.key) ==> |[e] + Without(s, e.key)| == |s|
    ensures !Holds(s, e.key) ==> |[e] + Without(s, e.key)| == |s| + 1
  {
    var p := (x: Entry<K, V>) => x.key != e.key;
    var t := Without(s, e.key);
    WithoutIsKeep(s, e.key, p);
    KeepDistinct(s, p);
    forall i | 0 <= i < |t| ensures t[i].key != e.key { KeepMember(s, p, t[i]); }
    if Holds(s, e.key) {
      var i :| 0 <= i < |s| && s[i].key == e.key;
      WithoutAt(s, i);
    } else {
      WithoutAbsent(s, e.key);
    }
  }

  lemma WellFormed<K, V>(s: seq<Entry<K, V>>, maxSize: int, op: Op<K, V>)
    requires Distinct(s) && |s| <= maxSize
    ensures Distinct(Apply(s, maxSize, op)) && |Apply(s, maxSize, op)| <= maxSize
  {
    match op
    case GetOp(k) => if Holds(s, k) { FrontDistinct(s, Lookup(s, k)); }
    case PutOp(k, v) => FrontDistinct(s, Entry(k, v));
    case DeleteOp(k) =>
      var p := (e: Entry<K, V>) => e.key != k;
      KeepDistinct(s, p);
      WithoutIsKeep(s, k, p);
    case DeleteFuncOp(fn) =>
      var p := (e: Entry<K, V>) => !fn(e.key, e.value);
      KeepDistinct(s, p);
      PrunedIsKeep(s, fn, p);
  }

  lemma {:induction false} RunWellFormed<K, V>(maxSize: int, ops: seq<Op<K, V>>)
    requires maxSize >= 0
    ensures Distinct(Run(maxSize, ops)) && |Run(maxSize, ops)| <= maxSize
  {
    if ops != [] {
      RunWellFormed(maxSize, ops[..|ops| - 1]);
      WellFormed(Run(maxSize, ops[..|ops| - 1]), maxSize, ops[|ops| - 1]);
    }
  }

  // ---------------------------------------------------------------------------
  // What each operation means for one entry

  // Reading changes nothing held; deleting removes exactly what it names or picks.
  lemma ReadsAndDeletes<K, V>(s: seq<Entry<K, V>>, k: K, fn: (K, V) -> bool, e: Entry<K, V>)
    requires Distinct(s)
    ensures e in Got(s, k) <==> e in s
    ensures e in Without(s, k) <==> e in s && e.key != k
    ensures e in Pruned(s, fn) <==> e in s && !fn(e.key, e.value)
  {
    var p, q := (x: Entry<K, V>) => x.key != k, (x: Entry<K, V>) => !fn(x.key, x.value);
    WithoutIsKeep(s, k, p);
    PrunedIsKeep(s, fn, q);
    KeepMember(s, p, e);
    KeepMember(s, q, e);
    if Holds(s, k) {
      var i :| 0 <= i < |s| && s[i] == Lookup(s, k);
      assert e in s && e.key == k ==> e == Lookup(s, k);
    }
  }

  // A write is read back, and drops another key only when the cache was full.
  lemma Writes<K, V>(s: seq<Entry<K, V>>, maxSize: int, k: K, v: V, e: Entry<K, V>)
    requires Distinct(s) && |s| <= maxSize && maxSize >= 1
    ensures Holds(Stored(s, k, v, maxSize), k) && Lookup(Stored(s, k, v, maxSize), k) == Entry(k, v)
    ensures e.key != k && e in Stored(s, k, v, maxSize) ==> e in s
    ensures e.key != k && e in s && (Holds(s, k) || |s| < maxSize) ==> e in Stored(s, k, v, maxSize)
    ensures |Stored(s, k, v, maxSize)| == if Holds(s, k) || |s| == maxSize then |s| else |s| + 1
  {
    var p, t := (x: Entry<K, V>) => x.key != k, [Entry(k, v)] + Without(s, k);
    WithoutIsKeep(s, k, p);
    KeepMember(s, p, e);
    FrontDistinct(s, Entry(k, v));
    WellFormed(s, maxSize, PutOp(k, v));
    assert Stored(s, k, v, maxSize)[0] == Entry(k, v);
    if e.key != k && e in Stored(s, k, v, maxSize) {
      assert e in t;
    }
  }

  // ---------------------------------------------------------------------------
  // Inclusion

  // s is l with some entries left out.
  ghost predicate Within<K, V>(s: seq<Entry<K, V>>, l: seq<Entry<K, V>>)
    decreases |l|
  {
    s == [] || (l != [] && if s[0] == l[0] then Within(s[1..], l[1..]) else Within(s, l[1..]))
  }

  lemma {:induction false} WithinMember<K, V>(s: seq<Entry<K, V>>, l: seq<Entry<K, V>>, e: Entry<K, V>)
    requires Within(s, l) && e in s
    ensures e in l
    decreases |l|
  {
    if s[0] != l[0] {
      WithinMember(s, l[1..], e);
    } else if e != s[0] {
      WithinMember(s[1..], l[1..], e);
    }
  }

  lemma {:induction false} WithinTail<K, V>(s: seq<Entry<K, V>>, l: seq<Entry<K, V>>)
    requires Within(s, l)
    ensures s != [] ==> Within(s[1..], l)
    ensures |s| <= |l|
    decreases |l|
  {
    if s != [] {
      if s[0] == l[0] {
        WithinTail(s[1..], l[1..]);
        if s[1..] != [] && s[1..][0] == l[0] {
          assert Within(s[1..][1..], l[1..]);
        }
      } else {
        WithinTail(s, l[1..]);
        if s[1..] != [] && s[1..][0] == l[0] {
          WithinTail(s[1..], l[1..]);
        }
      }
    }
  }

  lemma WithinCons<K, V>(s: seq<Entry<K, V>>, e: Entry<K, V>, l: seq<Entry<K, V>>)
    requires Within(s, l)
    ensures Within(s, [e] + l) && Within([e] + s, [e] + l)
  {
    WithinTail(s, l);
    assert ([e] + l)[1..] == l && ([e] + s)[1..] == s;
  }

  // Removing from both by the same test keeps the one within the other, and
  // takes at least as many from the larger.
  lemma {:induction false} WithinKeep<K, V>(s: seq<Entry<K, V>>, l: seq<Entry<K, V>>, p: Entry<K, V> -> bool)
    requires Within(s, l)
    ensures Within(Keep(s, p), Keep(l, p))
    ensures |Keep(l, p)| - |Keep(s, p)| <= |l| - |s|
    decreases |l|
  {
    if l != [] {
      var k := Keep(l[1..], p);
      assert Keep(l, p) == if p(l[0]) then [l[0]] + k else k;
      if s != [] && s[0] == l[0] {
        var j := Keep(s[1..], p);
        assert Keep(s, p) == if p(l[0]) then [l[0]] + j else j;
        WithinKeep(s[1..], l[1..], p);
        WithinCons(j, l[0], k);
      } else {
        WithinKeep(s, l[1..], p);
        WithinCons(Keep(s, p), l[0], k);
      }
    }
  }

  lemma {:induction false} WithinInit<K, V>(s: seq<Entry<K, V>>, l: seq<Entry<K, V>>)
    requires Within(s, l) && s != []
    ensures Within(s[..|s| - 1], l[..|l| - 1])
    decreases |l|
  {
    if |s| > 1 {
      var s', l' := s[..|s| - 1], l[..|l| - 1];
      WithinTail(s, l);
      if s[0] == l[0] {
        WithinInit(s[1..], l[1..]);
        assert s'[1..] == s[1..][..|s| - 2] && l'[1..] == l[1..][..|l| - 2];
      } else {
        WithinTail(s, l[1..]);
        WithinInit(s, l[1..]);
        assert l'[1..] == l[1..][..|l| - 2];
      }
    }
  }

  lemma {:induction false} WithinShorter<K, V>(s: seq<Entry<K, V>>, l: seq<Entry<K, V>>)
    requires Within(s, l) && s != []
    ensures Within(s[..|s| - 1], l)
    decreases |l|
  {
    if |s| > 1 {
      var s' := s[..|s| - 1];
      if s[0] == l[0] {
        WithinShorter(s[1..], l[1..]);
        assert s'[1..] == s[1..][..|s| - 2];
      } else {
        WithinShorter(s, l[1..]);
      }
    }
  }

  // A smaller cache beside a larger one: an order-preserving part of it, with no
  // more missing than the sizes differ by.
  ghost predicate Included<K, V>(s: seq<Entry<K, V>>, m: int, l: seq<Entry<K, V>>, n: int) {
    && Distinct(s) && Distinct(l) && |s| <= m && |l| <= n
    && Within(s, l) && |l| - |s| <= n - m
  }

  lemma IncludedWithout<K, V>(s: seq<Entry<K, V>>, m: int, l: seq<Entry<K, V>>, n: int, k: K)
    requires Included(s, m, l, n)
    ensures Within(Without(s, k), Without(l, k)) && |Without(l, k)| - |Without(s, k)| <= |l| - |s|
  {
    var p := (e: Entry<K, V>) => e.key != k;
    WithoutIsKeep(s, k, p);
    WithoutIsKeep(l, k, p);
    WithinKeep(s, l, p);
  }

  lemma IncludedLookup<K, V>(s: seq<Entry<K, V>>, m: int, l: seq<Entry<K, V>>, n: int, k: K)
    requires Included(s, m, l, n) && Holds(s, k)
    ensures Holds(l, k) && Lookup(l, k) == Lookup(s, k)
  {
    WithinMember(s, l, Lookup(s, k));
    var i :| 0 <= i < |l| && l[i] == Lookup(s, k);
  }

  lemma IncludedGet<K, V>(s: seq<Entry<K, V>>, m: int, l: seq<Entry<K, V>>, n: int, k: K)
    requires Included(s, m, l, n) && m <= n
    ensures Included(Got(s, k), m, Got(l, k), n)
  {
    WellFormed(s, m, GetOp(k));
    WellFormed(l, n, GetOp(k));
    IncludedWithout(s, m, l, n, k);
    if Holds(s, k) {
      IncludedLookup(s, m, l, n, k);
      WithinCons(Without(s, k), Lookup(s, k), Without(l, k));
      FrontDistinct(s, Lookup(s, k));
      FrontDistinct(l, Lookup(l, k));
    } else if Holds(l, k) {
      WithoutAbsent(s, k);
      WithinCons(s, Lookup(l, k), Without(l, k));
      FrontDistinct(l, Lookup(l, k));
    }
  }

  lemma IncludedPut<K, V>(s: seq<Entry<K, V>>, m: int, l: seq<Entry<K, V>>, n: int, k: K, v: V)
    requires Included(s, m, l, n) && 0 <= m <= n
    ensures Included(Stored(s, k, v, m), m, Stored(l, k, v, n), n)
  {
    WellFormed(s, m, PutOp(k, v));
    WellFormed(l, n, PutOp(k, v));
    IncludedWithout(s, m, l, n, k);
    var e := Entry(k, v);
    var s', l' := [e] + Without(s, k), [e] + Without(l, k);
    WithinCons(Without(s, k), e, Without(l, k));
    FrontDistinct(s, e);
    FrontDistinct(l, e);
    if |s'| > m {
      WithinInit(s', l');
      WithinShorter(s', l');
    }
  }

  lemma IncludedStep<K, V>(s: seq<Entry<K, V>>, m: int, l: seq<Entry<K, V>>, n: int, op: Op<K, V>)
    requires Included(s, m, l, n) && 0 <= m <= n
    ensures Included(Apply(s, m, op), m, Apply(l, n, op), n)
  {
    WellFormed(s, m, op);
    WellFormed(l, n, op);
    match op
    case GetOp(k) => IncludedGet(s, m, l, n, k);
    case PutOp(k, v) => IncludedPut(s, m, l, n, k, v);
    case DeleteOp(k) => IncludedWithout(s, m, l, n, k);
    case DeleteFuncOp(fn) =>
      var p := (e: Entry<K, V>) => !fn(e.key, e.value);
      WithinKeep(s, l, p);
      PrunedIsKeep(s, fn, p);
      PrunedIsKeep(l, fn, p);
  }

  lemma {:induction false} IncludedRun<K, V>(m: int, n: int, ops: seq<Op<K, V>>)
    requires 0 <= m <= n
    ensures Included(Run(m, ops), m, Run(n, ops), n)
  {
    if ops != [] {
      IncludedRun(m, n, ops[..|ops| - 1]);
      IncludedStep(Run(m, ops[..|ops| - 1]), m, Run(n, ops[..|ops| - 1]), n, ops[|ops| - 1]);
    }
  }

  // The same operations on a smaller and a larger cache: every key the smaller
  // holds, the larger holds with the same value.
  lemma Inclusion<K, V>(m: int, n: int, ops: seq<Op<K, V>>, k: K)
    requires 0 <= m <= n && Holds(Run(m, ops), k)
    ensures Holds(Run(n, ops), k) && Lookup(Run(n, ops), k) == Lookup(Run(m, ops), k)
  {
    IncludedRun(m, n, ops);
    IncludedLookup(Run(m, ops), m, Run(n, ops), n, k);
  }

  // ---------------------------------------------------------------------------
  // Recency and freshness, from the run alone

  ghost predicate Touches<K, V>(op: Op<K, V>, k: K) { (op.GetOp? || op.PutOp?) && op.key == k }

  // When a key was last read or written; -1 for never.
  ghost function LastTouch<K, V>(ops: seq<Op<K, V>>, k: K): int {
    if ops == [] then -1
    else if Touches(ops[|ops| - 1], k) then |ops| - 1
    else LastTouch(ops[..|ops| - 1], k)
  }

  // A key was last written with this value, and not deleted by name since.
  ghost predicate LastWritten<K, V>(ops: seq<Op<K, V>>, e: Entry<K, V>) {
    ops != [] &&
    match ops[|ops| - 1]
    case PutOp(k, v) => if k == e.key then v == e.value else LastWritten(ops[..|ops| - 1], e)
    case DeleteOp(k) => k != e.key && LastWritten(ops[..|ops| - 1], e)
    case _ => LastWritten(ops[..|ops| - 1], e)
  }

  ghost predicate ByRecency<K, V>(s: seq<Entry<K, V>>, ops: seq<Op<K, V>>) {
    && (forall i, j :: 0 <= i < j < |s| ==> LastTouch(ops, s[i].key) > LastTouch(ops, s[j].key))
    && (forall i :: 0 <= i < |s| ==> LastWritten(ops, s[i]))
  }

  lemma ConsByRecency<K, V>(e: Entry<K, V>, t: seq<Entry<K, V>>, ops: seq<Op<K, V>>)
    requires ByRecency(t, ops) && LastWritten(ops, e)
    requires forall i :: 0 <= i < |t| ==> LastTouch(ops, e.key) > LastTouch(ops, t[i].key)
    ensures ByRecency([e] + t, ops)
  {
    var s := [e] + t;
    assert s[0] == e && forall i :: 1 <= i < |s| ==> s[i] == t[i - 1];
  }

  lemma {:induction false} KeepByRecency<K, V>(s: seq<Entry<K, V>>, ops: seq<Op<K, V>>, p: Entry<K, V> -> bool)
    requires ByRecency(s, ops)
    ensures ByRecency(Keep(s, p), ops)
  {
    if s != [] {
      var rest, t := s[1..], Keep(s[1..], p);
      assert ByRecency(rest, ops) by { assert forall i :: 0 <= i < |rest| ==> rest[i] == s[i + 1]; }
      KeepByRecency(rest, ops, p);
      forall i | 0 <= i < |t| ensures LastTouch(ops, s[0].key) > LastTouch(ops, t[i].key) {
        KeepMember(rest, p, t[i]);
        var j :| 0 <= j < |rest| && rest[j] == t[i];
        assert s[j + 1] == t[i];
      }
      ConsByRecency(s[0], t, ops);
      assert Keep(s, p) == if p(s[0]) then [s[0]] + t else t;
    }
  }

  lemma {:induction false} TouchedBefore<K, V>(ops: seq<Op<K, V>>, k: K)
    ensures LastTouch(ops, k) < |ops|
  {
    if ops != [] {
      TouchedBefore(ops[..|ops| - 1], k);
    }
  }

  // Everything but k, moved on by one operation that only touches k.
  lemma OthersByRecency<K, V>(s: seq<Entry<K, V>>, ops: seq<Op<K, V>>, op: Op<K, V>, k: K)
    requires ByRecency(s, ops) && Touches(op, k)
    ensures ByRecency(Without(s, k), ops + [op])
    ensures forall i :: 0 <= i < |Without(s, k)| ==> LastTouch(ops + [op], Without(s, k)[i].key) < |ops|
  {
    var p := (e: Entry<K, V>) => e.key != k;
    var t := Without(s, k);
    WithoutIsKeep(s, k, p);
    KeepByRecency(s, ops, p);
    assert (ops + [op])[..|ops|] == ops;
    forall i | 0 <= i < |t| ensures t[i].key != k && LastTouch(ops, t[i].key) < |ops| {
      KeepMember(s, p, t[i]);
      TouchedBefore(ops, t[i].key);
    }
  }

  // Everything, moved on by one operation that touches none of it.
  lemma UntouchedByRecency<K, V>(s: seq<Entry<K, V>>, ops: seq<Op<K, V>>, op: Op<K, V>)
    requires ByRecency(s, ops) && forall i :: 0 <= i < |s| ==> !Touches(op, s[i].key) && op != DeleteOp(s[i].key)
    ensures ByRecency(s, ops + [op])
  {
    var all := ops + [op];
    assert all[..|ops|] == ops && all[|ops|] == op;
    forall i | 0 <= i < |s| ensures LastTouch(all, s[i].key) == LastTouch(ops, s[i].key) && LastWritten(all, s[i]) { }
  }

  lemma GetByRecency<K, V>(s: seq<Entry<K, V>>, ops: seq<Op<K, V>>, k: K)
    requires ByRecency(s, ops)
    ensures ByRecency(Got(s, k), ops + [GetOp(k)])
  {
    var all := ops + [GetOp(k)];
    if Holds(s, k) {
      OthersByRecency(s, ops, GetOp(k), k);
      assert all[..|ops|] == ops && LastWritten(all, Lookup(s, k)) && LastTouch(all, k) == |ops|;
      ConsByRecency(Lookup(s, k), Without(s, k), all);
    } else {
      UntouchedByRecency(s, ops, GetOp(k));
    }
  }

  lemma PutByRecency<K, V>(s: seq<Entry<K, V>>, maxSize: int, ops: seq<Op<K, V>>, k: K, v: V)
    requires ByRecency(s, ops) && maxSize >= 0
    ensures ByRecency(Stored(s, k, v, maxSize), ops + [PutOp(k, v)])
  {
    var all := ops + [PutOp(k, v)];
    OthersByRecency(s, ops, PutOp(k, v), k);
    assert all[..|ops|] == ops && LastWritten(all, Entry(k, v)) && LastTouch(all, k) == |ops|;
    ConsByRecency(Entry(k, v), Without(s, k), all);
  }

  lemma RecencyStep<K, V>(s: seq<Entry<K, V>>, maxSize: int, ops: seq<Op<K, V>>, op: Op<K, V>)
    requires ByRecency(s, ops) && maxSize >= 0
    ensures ByRecency(Apply(s, maxSize, op), ops + [op])
  {
    match op
    case GetOp(k) => GetByRecency(s, ops, k);
    case PutOp(k, v) => PutByRecency(s, maxSize, ops, k, v);
    case DeleteOp(k) =>
      var p, t := (e: Entry<K, V>) => e.key != k, Without(s, k);
      WithoutIsKeep(s, k, p);
      KeepByRecency(s, ops, p);
      forall i | 0 <= i < |t| ensures t[i].key != k { KeepMember(s, p, t[i]); }
      UntouchedByRecency(t, ops, op);
    case DeleteFuncOp(fn) =>
      var p := (e: Entry<K, V>) => !fn(e.key, e.value);
      PrunedIsKeep(s, fn, p);
      KeepByRecency(s, ops, p);
      UntouchedByRecency(Pruned(s, fn), ops, op);
  }

  // After every run the cache is in order of last use, and each key has the
  // value last written under it.
  lemma {:induction false} RunByRecency<K, V>(maxSize: int, ops: seq<Op<K, V>>)
    requires maxSize >= 0
    ensures ByRecency(Run(maxSize, ops), ops)
  {
    if ops != [] {
      RunByRecency(maxSize, ops[..|ops| - 1]);
      RecencyStep(Run(maxSize, ops[..|ops| - 1]), maxSize, ops[..|ops| - 1], ops[|ops| - 1]);
      assert ops == ops[..|ops| - 1] + [ops[|ops| - 1]];
    }
  }

  // A key that a Put pushes out was used longer ago than every key that stays.
  lemma EvictsLeastRecent<K, V>(maxSize: int, ops: seq<Op<K, V>>, k: K, v: V, e: Entry<K, V>, x: Entry<K, V>)
    requires maxSize >= 0 && e in Run(maxSize, ops) && e.key != k
    requires !Holds(Run(maxSize, ops + [PutOp(k, v)]), e.key) && x in Run(maxSize, ops + [PutOp(k, v)])
    ensures LastTouch(ops + [PutOp(k, v)], x.key) > LastTouch(ops + [PutOp(k, v)], e.key)
  {
    var s, op := Run(maxSize, ops), PutOp(k, v);
    var all, t := ops + [op], [Entry(k, v)] + Without(s, k);
    assert all[..|ops|] == ops && Run(maxSize, all) == Stored(s, k, v, maxSize);
    RunByRecency(maxSize, ops);
    OthersByRecency(s, ops, op, k);
    var p := (y: Entry<K, V>) => y.key != k;
    WithoutIsKeep(s, k, p);
    KeepMember(s, p, e);
    var i :| 0 <= i < |Without(s, k)| && Without(s, k)[i] == e;
    assert t[i + 1] == e;
    var j :| 0 <= j < |Run(maxSize, all)| && Run(maxSize, all)[j] == x;
    assert t[j] == x;
    assert forall q :: 0 <= q < |Run(maxSize, all)| ==> Run(maxSize, all)[q] == t[q];
    assert |Run(maxSize, all)| <= i + 1;
  }
}
