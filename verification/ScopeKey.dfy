/** The canonical cache key of a scope list, cacheScopesKey in
    identityclient/client.go: trim, drop blanks, sort, drop duplicates in place,
    join with NUL.
 */
module ScopeKey {
  import opened Text

  const NUL: char := '\0'

  // ---------------------------------------------------------------------------
  // What the stages compute

  // A scope trimmed, or nothing if blank.
  function Kept(scope: string): seq<string> {
    if TrimSpace(scope) == "" then [] else [TrimSpace(scope)]
  }

  function Trimmed(scopes: seq<string>): seq<string> {
    if scopes == [] then [] else Kept(scopes[0]) + Trimmed(scopes[1..])
  }

  // A list without the elements equal to the one kept before them.
  function Deduped(s: seq<string>): seq<string> {
    if s == [] then []
    else
      var d := Deduped(s[..|s| - 1]);
      if d != [] && d[|d| - 1] == s[|s| - 1] then d else d + [s[|s| - 1]]
  }

  function Join(s: seq<string>): string {
    if s == [] then ""
    else if |s| == 1 then s[0]
    else s[0] + [NUL] + Join(s[1..])
  }

  function Canonical(scopes: seq<string>): seq<string> { Deduped(Sort(Trimmed(scopes))) }

  function Key(scopes: seq<string>): string { Join(Canonical(scopes)) }

  // The scopes a list stands for.
  ghost function ScopeSet(scopes: seq<string>): set<string> {
    set i | 0 <= i < |scopes| && TrimSpace(scopes[i]) != "" :: TrimSpace(scopes[i])
  }

  // ---------------------------------------------------------------------------
  // The method

  method Normalize(scopes: seq<string>) returns (normalized: seq<string>)
    ensures normalized == Trimmed(scopes)
  {
    normalized := [];
    for i := 0 to |scopes|
      invariant normalized == Trimmed(scopes[..i])
    {
      var trimmed := TrimSpace(scopes[i]);
      assert scopes[..i + 1] == scopes[..i] + [scopes[i]];
      TrimmedAppend(scopes[..i], scopes[i]);
      if trimmed == "" {
        continue;
      }
      normalized := normalized + [trimmed];
    }
    assert scopes[..|scopes|] == scopes;
  }

  lemma {:induction false} TrimmedAppend(s: seq<string>, x: string)
    ensures Trimmed(s + [x]) == Trimmed(s) + Kept(x)
  {
    var all := s + [x];
    if s == [] {
      assert all[1..] == [];
    } else {
      TrimmedAppend(s[1..], x);
      assert all[0] == s[0] && all[1..] == s[1..] + [x];
      assert Kept(s[0]) + (Trimmed(s[1..]) + Kept(x)) == (Kept(s[0]) + Trimmed(s[1..])) + Kept(x);
    }
  }

  // The in-place loop: deduped shares the array it is reading, and the position
  // written never passes the position read.
  method DedupeInPlace(a: array<string>) returns (n: nat)
    modifies a
    ensures n <= a.Length && a[..n] == Deduped(old(a[..]))
  {
    n := 0;
    for i := 0 to a.Length
      invariant n <= i
      invariant a[..n] == Deduped(old(a[..])[..i])
      invariant a[i..] == old(a[..])[i..]
    {
      var scope := a[i];
      assert scope == a[i..][0] == old(a[..])[i];
      assert old(a[..])[..i + 1][..i] == old(a[..])[..i];
      assert a[i + 1..] == a[i..][1..] == old(a[..])[i + 1..];
      if n != 0 && a[n - 1] == scope {
        continue;
      }
      a[n] := scope;
      n := n + 1;
    }
    assert old(a[..])[..a.Length] == old(a[..]);
  }

  method CacheScopesKey(scopes: seq<string>) returns (key: string)
    ensures key == Key(scopes)
  {
    var normalized := Normalize(scopes);
    var sorted := Sort(normalized);
    var a := new string[|sorted|](i requires 0 <= i < |sorted| => sorted[i]);
    assert a[..] == sorted;
    var n := DedupeInPlace(a);
    key := Join(a[..n]);
  }

  // ---------------------------------------------------------------------------
  // Same set, same canonical list

  lemma {:induction false} TrimmedElements(scopes: seq<string>)
    ensures Elements(Trimmed(scopes)) == ScopeSet(scopes)
    ensures "" !in Trimmed(scopes)
  {
    if scopes != [] {
      TrimmedElements(scopes[1..]);
      var t := TrimSpace(scopes[0]);
      assert Elements(Trimmed(scopes)) == (if t == "" then {} else {t}) + Elements(Trimmed(scopes[1..]));
      assert ScopeSet(scopes) == (if t == "" then {} else {t}) + ScopeSet(scopes[1..]) by {
        forall x | x in ScopeSet(scopes) ensures x in (if t == "" then {} else {t}) + ScopeSet(scopes[1..]) {
          var i :| 0 <= i < |scopes| && TrimSpace(scopes[i]) == x && x != "";
          assert i > 0 ==> scopes[1..][i - 1] == scopes[i];
        }
        forall x | x in ScopeSet(scopes[1..]) ensures x in ScopeSet(scopes) {
          var i :| 0 <= i < |scopes[1..]| && TrimSpace(scopes[1..][i]) == x && x != "";
          assert scopes[i + 1] == scopes[1..][i];
        }
      }
    }
  }

  // Of a sorted list the loop keeps each element once, in strictly ascending order.
  lemma {:induction false} DedupedAscends(s: seq<string>)
    requires Sorted(s)
    ensures Ascending(Deduped(s)) && Elements(Deduped(s)) == Elements(s)
  {
    if s != [] {
      var h, x := s[..|s| - 1], s[|s| - 1];
      var d := Deduped(h);
      assert s == h + [x];
      assert Sorted(h) by { assert forall i :: 0 <= i < |h| ==> h[i] == s[i]; }
      DedupedAscends(h);
      assert Elements(s) == Elements(h) + {x};
      if d == [] || d[|d| - 1] != x {
        assert Elements(d + [x]) == Elements(d) + {x};
        forall i | 0 <= i < |d| ensures Less(d[i], x) { BelowLast(h, x, d, i); }
        assert Ascending(d + [x]);
      } else {
        assert x in d && x in Elements(d);
      }
    }
  }

  lemma BelowLast(h: seq<string>, x: string, d: seq<string>, i: nat)
    requires Sorted(h + [x]) && Ascending(d) && Elements(d) == Elements(h)
    requires i < |d| && d[|d| - 1] != x
    ensures Less(d[i], x)
  {
    var last := d[|d| - 1];
    assert last in Elements(d);
    var j :| 0 <= j < |h| && h[j] == last;
    assert (h + [x])[j] == last && (h + [x])[|h|] == x;
    if i < |d| - 1 {
      LessTransitive(d[i], last, x);
    }
  }

  lemma CanonicalOf(scopes: seq<string>)
    ensures Ascending(Canonical(scopes)) && Elements(Canonical(scopes)) == ScopeSet(scopes)
    ensures "" !in Canonical(scopes)
  {
    TrimmedElements(scopes);
    SortElements(Trimmed(scopes));
    DedupedAscends(Sort(Trimmed(scopes)));
    assert "" in Canonical(scopes) ==> "" in Elements(Canonical(scopes));
  }

  // ---------------------------------------------------------------------------
  // Joining is injective

  predicate Clean(s: seq<string>) {
    forall i :: 0 <= i < |s| ==> s[i] != "" && NUL !in s[i]
  }

  // The text before the first NUL, and after it, are determined by the whole.
  lemma FirstNul(a: string, b: string, x: string, y: string)
    requires NUL !in a && NUL !in b && a + [NUL] + x == b + [NUL] + y
    ensures a == b && x == y
  {
    var l, r := a + [NUL] + x, b + [NUL] + y;
    assert l[|a|] == NUL && r[|b|] == NUL;
    assert |a| == |b|;
    assert l[..|a|] == a && r[..|a|] == b;
    assert l[|a| + 1..] == x && r[|a| + 1..] == y;
  }

  lemma {:induction false} JoinInjective(s: seq<string>, t: seq<string>)
    requires Clean(s) && Clean(t) && Join(s) == Join(t)
    ensures s == t
  {
    JoinHasNul(s);
    JoinHasNul(t);
    if |s| > 1 {
      FirstNul(s[0], t[0], Join(s[1..]), Join(t[1..]));
      JoinInjective(s[1..], t[1..]);
      assert s == [s[0]] + s[1..] && t == [t[0]] + t[1..];
    }
  }

  // A joined list shows how long it is, up to two: empty, without NUL, with NUL.
  lemma JoinHasNul(s: seq<string>)
    requires Clean(s)
    ensures Join(s) == "" <==> s == []
    ensures NUL in Join(s) <==> |s| > 1
  {
    if |s| > 1 {
      assert Join(s)[|s[0]|] == NUL;
    }
  }

  predicate NulFree(scopes: seq<string>) {
    forall i :: 0 <= i < |scopes| ==> NUL !in scopes[i]
  }

  lemma CanonicalClean(scopes: seq<string>)
    requires NulFree(scopes)
    ensures Clean(Canonical(scopes))
  {
    CanonicalOf(scopes);
    var c := Canonical(scopes);
    forall i | 0 <= i < |c| ensures NUL !in c[i] {
      assert c[i] in Elements(c);
      var j :| 0 <= j < |scopes| && TrimSpace(scopes[j]) == c[i];
    }
  }

  // Two scope lists share a key exactly when they name the same scopes.
  lemma KeyCanonical(s: seq<string>, t: seq<string>)
    requires NulFree(s) && NulFree(t)
    ensures Key(s) == Key(t) <==> ScopeSet(s) == ScopeSet(t)
  {
    CanonicalOf(s);
    CanonicalOf(t);
    CanonicalClean(s);
    CanonicalClean(t);
    if ScopeSet(s) == ScopeSet(t) {
      AscendingUnique(Canonical(s), Canonical(t));
    } else if Key(s) == Key(t) {
      JoinInjective(Canonical(s), Canonical(t));
    }
  }

  // A scope that contains the separator passes for the two it joins.
  lemma NulCollides(a: string, b: string)
    requires TrimSpace(a) == a != "" && TrimSpace(b) == b != "" && Less(a, b)
    ensures ScopeSet([a + [NUL] + b]) != ScopeSet([a, b])
    ensures Key([a + [NUL] + b]) == Key([a, b]) == a + "\0" + b
  {
    var ab := a + [NUL] + b;
    assert ab[0] == a[0] && ab[|ab| - 1] == b[|b| - 1];
    TrimKeeps(ab);
    OneScope(ab);
    TwoScopes(a, b);
    assert ab != a && ab != b by { assert |ab| > |a| && |ab| > |b|; }
  }

  lemma TwoScopes(a: string, b: string)
    requires TrimSpace(a) == a != "" && TrimSpace(b) == b != "" && Less(a, b)
    ensures ScopeSet([a, b]) == {a, b} && Key([a, b]) == a + [NUL] + b
  {
    var two := [a, b];
    assert ScopeSet(two) == {a, b} by { assert two[0] == a && two[1] == b; }
    assert Elements(two) == {a, b} by { assert two[0] == a && two[1] == b; }
    assert Ascending(two);
    CanonicalOf(two);
    AscendingUnique(Canonical(two), two);
    JoinTwo(a, b);
  }

  lemma JoinTwo(a: string, b: string)
    ensures Join([a, b]) == a + [NUL] + b
  {
    assert [a, b][1..] == [b];
  }

  lemma TrimKeeps(s: string)
    requires s != "" && !IsSpace(s[0]) && !IsSpace(s[|s| - 1])
    ensures TrimSpace(s) == s
  {
  }

  lemma OneScope(s: string)
    requires s != "" && TrimSpace(s) == s
    ensures ScopeSet([s]) == {s} && Canonical([s]) == [s] && Key([s]) == s
  {
    var one := [s];
    assert TrimSpace(one[0]) == s;
    assert ScopeSet(one) == {s};
    assert Elements(one) == {s} by { assert one[0] in one; }
    CanonicalOf(one);
    AscendingUnique(Canonical(one), one);
  }

  // ---------------------------------------------------------------------------
  // Exactly which lists share their key with another

  // A scope as the key holds it.
  predicate Proper(s: string) { s != "" && !IsSpace(s[0]) && !IsSpace(s[|s| - 1]) }

  predicate SplitsAt(s: string, i: nat) {
    i < |s| && s[i] == NUL && Proper(s[..i]) && Proper(s[i + 1..]) && Less(s[..i], s[i + 1..])
  }

  // At some NUL it parts into two scopes in order.
  predicate Splits(s: string) { exists i :: 0 <= i < |s| && SplitsAt(s, i) }

  ghost predicate Collides(scopes: seq<string>) {
    exists others :: ScopeSet(others) != ScopeSet(scopes) && Key(others) == Key(scopes)
  }

  lemma CanonicalProper(scopes: seq<string>)
    ensures forall i :: 0 <= i < |Canonical(scopes)| ==> Proper(Canonical(scopes)[i])
  {
    CanonicalOf(scopes);
    var c := Canonical(scopes);
    forall i | 0 <= i < |c| ensures Proper(c[i]) {
      assert c[i] in Elements(c);
    }
  }

  lemma {:induction false} JoinProper(c: seq<string>)
    requires c != [] && forall i :: 0 <= i < |c| ==> Proper(c[i])
    ensures Proper(Join(c)) && |Join(c)| >= |c[0]|
  {
    if |c| > 1 {
      JoinProper(c[1..]);
      var j := Join(c);
      assert j[0] == c[0][0] && j[|j| - 1] == Join(c[1..])[|Join(c[1..])| - 1];
    }
  }

  lemma {:induction false} LessExtended(a: string, b: string, c: string)
    requires Less(a, b)
    ensures Less(a, b + c)
  {
    if a != [] && a[0] == b[0] {
      LessExtended(a[1..], b[1..], c);
      assert (b + c)[1..] == b[1..] + c;
    }
  }

  lemma LessJoin(a: string, c: seq<string>)
    requires c != [] && Less(a, c[0])
    ensures Less(a, Join(c))
  {
    if |c| > 1 {
      LessExtended(a, c[0], [NUL] + Join(c[1..]));
      assert Join(c) == c[0] + ([NUL] + Join(c[1..]));
    }
  }

  // Two scopes or more share their key with the one scope their key spells.
  lemma ManyCollide(scopes: seq<string>)
    requires |Canonical(scopes)| > 1
    ensures Collides(scopes)
  {
    var c := Canonical(scopes);
    var one := Join(c);
    CanonicalOf(scopes);
    CanonicalProper(scopes);
    JoinProper(c);
    TrimKeeps(one);
    OneScope(one);
    LessTotal(c[0], c[1]);
    assert c[0] in Elements(c) && c[1] in Elements(c) && c[0] != c[1];
    assert ScopeSet([one]) != ScopeSet(scopes);
  }

  lemma SplitCollides(scopes: seq<string>, s: string, i: nat)
    requires ScopeSet(scopes) == {s} && Key(scopes) == s && SplitsAt(s, i)
    ensures Collides(scopes)
  {
    var a, b := s[..i], s[i + 1..];
    TrimKeeps(a);
    TrimKeeps(b);
    assert s == a + [NUL] + b;
    TwoScopes(a, b);
    assert a in {a, b} && |a| < |s|;
    assert ScopeSet([a, b]) != ScopeSet(scopes);
  }

  // One scope shares it exactly when it splits.
  lemma OneCollidesIff(scopes: seq<string>, s: string)
    requires Canonical(scopes) == [s]
    ensures Collides(scopes) <==> Splits(s)
  {
    CanonicalOf(scopes);
    CanonicalProper(scopes);
    ElementsOfOne(Canonical(scopes));
    assert Canonical(scopes)[0] == s;
    if Splits(s) {
      var i :| 0 <= i < |s| && SplitsAt(s, i);
      SplitCollides(scopes, s, i);
    } else if Collides(scopes) {
      var others :| ScopeSet(others) != ScopeSet(scopes) && Key(others) == Key(scopes);
      OtherSplits(others, s);
    }
  }

  lemma ElementsOfOne(d: seq<string>)
    ensures |d| == 1 ==> Elements(d) == {d[0]}
  {
  }

  lemma JoinSplits(d: seq<string>)
    requires |d| > 1 && Ascending(d) && forall i :: 0 <= i < |d| ==> Proper(d[i])
    ensures SplitsAt(Join(d), |d[0]|)
  {
    var j, rest := Join(d), Join(d[1..]);
    JoinProper(d[1..]);
    LessJoin(d[0], d[1..]);
    assert j == d[0] + [NUL] + rest;
    assert j[..|d[0]|] == d[0] && j[|d[0]| + 1..] == rest;
  }

  lemma OtherSplits(others: seq<string>, s: string)
    requires Proper(s) && Key(others) == s && ScopeSet(others) != {s}
    ensures Splits(s)
  {
    var d := Canonical(others);
    CanonicalOf(others);
    CanonicalProper(others);
    ElementsOfOne(d);
    JoinSplits(d);
  }

  // A list shares its key with a list of other scopes exactly when it has two
  // different scopes, or one that splits.
  lemma CollidesIff(scopes: seq<string>)
    ensures Collides(scopes) <==>
      || (exists x, y :: x in ScopeSet(scopes) && y in ScopeSet(scopes) && x != y)
      || (exists x :: x in ScopeSet(scopes) && Splits(x))
  {
    var c := Canonical(scopes);
    CanonicalOf(scopes);
    if |c| > 1 {
      ManyCollide(scopes);
      LessTotal(c[0], c[1]);
      assert c[0] in Elements(c) && c[1] in Elements(c) && c[0] != c[1];
    } else if |c| == 1 {
      assert c == [c[0]];
      OneCollidesIff(scopes, c[0]);
      ElementsOfOne(c);
      assert c[0] in ScopeSet(scopes);
    } else {
      assert ScopeSet(scopes) == {};
      NoneCollides(scopes);
    }
  }

  lemma NoneCollides(scopes: seq<string>)
    requires Canonical(scopes) == []
    ensures !Collides(scopes)
  {
    CanonicalOf(scopes);
    forall others | Key(others) == "" ensures ScopeSet(others) == {} {
      CanonicalOf(others);
      CanonicalProper(others);
      if Canonical(others) != [] {
        JoinProper(Canonical(others));
      }
    }
    assert ScopeSet(scopes) == {};
  }
}
