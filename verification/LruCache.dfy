/** The LRU cache of identityclient/client.go: a map from keys to elements of a
    list that is kept in order of use, most recent first.

    Elements are objects shared by the map and the list, as in the source, whose
    entries are updated in place.  The list of container/list is a sequence of
    them.  A sequence of entries is the abstract value.
 */
module LruCache {

  datatype Entry<K, V> = Entry(key: K, value: V)

  // ---------------------------------------------------------------------------
  // The abstract cache

  function Keep<K, V>(s: seq<Entry<K, V>>, p: Entry<K, V> -> bool): seq<Entry<K, V>> {
    if s == [] then [] else (if p(s[0]) then [s[0]] else []) + Keep(s[1..], p)
  }

  function Without<K(==), V>(s: seq<Entry<K, V>>, k: K): seq<Entry<K, V>> {
    Keep(s, (e: Entry<K, V>) => e.key != k)
  }

  ghost predicate Holds<K, V>(s: seq<Entry<K, V>>, k: K) { exists i :: 0 <= i < |s| && s[i].key == k }

  ghost predicate Distinct<K, V>(s: seq<Entry<K, V>>) {
    forall i, j :: 0 <= i < j < |s| ==> s[i].key != s[j].key
  }

  // The entry of a key the cache holds.
  ghost function Lookup<K, V>(s: seq<Entry<K, V>>, k: K): Entry<K, V>
    requires Holds(s, k)
  {
    var i :| 0 <= i < |s| && s[i].key == k;
    s[i]
  }

  ghost function Got<K, V>(s: seq<Entry<K, V>>, k: K): seq<Entry<K, V>> {
    if Holds(s, k) then [Lookup(s, k)] + Without(s, k) else s
  }

  ghost function Stored<K, V>(s: seq<Entry<K, V>>, k: K, v: V, maxSize: int): seq<Entry<K, V>> {
    var t := [Entry(k, v)] + Without(s, k);
    if |t| > maxSize then t[..|t| - 1] else t
  }

  ghost function Pruned<K, V>(s: seq<Entry<K, V>>, fn: (K, V) -> bool): seq<Entry<K, V>> {
    Keep(s, (e: Entry<K, V>) => !fn(e.key, e.value))
  }

  // --- Facts about keeping

  lemma {:induction false} KeepMember<K, V>(s: seq<Entry<K, V>>, p: Entry<K, V> -> bool, e: Entry<K, V>)
    ensures e in Keep(s, p) <==> e in s && p(e)
  {
    if s != [] {
      KeepMember(s[1..], p, e);
      assert s == [s[0]] + s[1..];
    }
  }

  lemma {:induction false} KeepDistinct<K, V>(s: seq<Entry<K, V>>, p: Entry<K, V> -> bool)
    requires Distinct(s)
    ensures Distinct(Keep(s, p)) && |Keep(s, p)| <= |s|
  {
    if s != [] {
      var t := Keep(s[1..], p);
      KeepDistinct(s[1..], p);
      forall i | 0 <= i < |t| ensures t[i].key != s[0].key {
        KeepMember(s[1..], p, t[i]);
        var j :| 0 <= j < |s[1..]| && s[1..][j] == t[i];
        assert s[j + 1] == t[i];
      }
    }
  }

  lemma {:induction false} KeepAppend<K, V>(a: seq<Entry<K, V>>, b: seq<Entry<K, V>>, p: Entry<K, V> -> bool)
    ensures Keep(a + b, p) == Keep(a, p) + Keep(b, p)
  {
    if a == [] {
      assert a + b == b;
    } else {
      KeepAppend(a[1..], b, p);
      assert (a + b)[0] == a[0] && (a + b)[1..] == a[1..] + b;
      var h, x, y := if p(a[0]) then [a[0]] else [], Keep(a[1..], p), Keep(b, p);
      assert Keep(a + b, p) == h + (x + y) && Keep(a, p) == h + x;
      assert h + (x + y) == (h + x) + y;
    }
  }

  lemma {:induction false} KeepAll<K, V>(s: seq<Entry<K, V>>, p: Entry<K, V> -> bool)
    requires forall i :: 0 <= i < |s| ==> p(s[i])
    ensures Keep(s, p) == s
  {
    if s != [] {
      KeepAll(s[1..], p);
    }
  }

  lemma {:induction false} KeepAllBut<K, V>(s: seq<Entry<K, V>>, p: Entry<K, V> -> bool, i: nat)
    requires i < |s| && !p(s[i]) && forall j :: 0 <= j < |s| && j != i ==> p(s[j])
    ensures Keep(s, p) == s[..i] + s[i + 1..]
  {
    if i == 0 {
      KeepAll(s[1..], p);
    } else {
      KeepAllBut(s[1..], p, i - 1);
      assert Keep(s, p) == [s[0]] + (s[1..][..i - 1] + s[1..][i..]);
    }
  }

  lemma WithoutAt<K, V>(s: seq<Entry<K, V>>, i: nat)
    requires Distinct(s) && i < |s|
    ensures Without(s, s[i].key) == s[..i] + s[i + 1..]
  {
    var k := s[i].key;
    var p := (e: Entry<K, V>) => e.key != k;
    WithoutIsKeep(s, k, p);
    KeepAllBut(s, p, i);
  }

  lemma WithoutIsKeep<K, V>(s: seq<Entry<K, V>>, k: K, p: Entry<K, V> -> bool)
    requires forall e :: p(e) <==> e.key != k
    ensures Without(s, k) == Keep(s, p)
  {
    SameKeep(s, (e: Entry<K, V>) => e.key != k, p);
  }

  lemma PrunedIsKeep<K, V>(s: seq<Entry<K, V>>, fn: (K, V) -> bool, p: Entry<K, V> -> bool)
    requires forall e :: p(e) <==> !fn(e.key, e.value)
    ensures Pruned(s, fn) == Keep(s, p)
  {
    SameKeep(s, (e: Entry<K, V>) => !fn(e.key, e.value), p);
  }

  lemma {:induction false} SameKeep<K, V>(s: seq<Entry<K, V>>, p: Entry<K, V> -> bool, q: Entry<K, V> -> bool)
    requires forall e :: p(e) <==> q(e)
    ensures Keep(s, p) == Keep(s, q)
  {
    if s != [] {
      SameKeep(s[1..], p, q);
    }
  }

  lemma WithoutAbsent<K, V>(s: seq<Entry<K, V>>, k: K)
    requires !Holds(s, k)
    ensures Without(s, k) == s
  {
    KeepAll(s, (e: Entry<K, V>) => e.key != k);
  }

  lemma PrunedNext<K, V>(s: seq<Entry<K, V>>, i: nat, fn: (K, V) -> bool)
    requires i < |s|
    ensures Pruned(s[..i + 1], fn) == Pruned(s[..i], fn) + if fn(s[i].key, s[i].value) then [] else [s[i]]
  {
    var p := (e: Entry<K, V>) => !fn(e.key, e.value);
    assert s[..i + 1] == s[..i] + [s[i]];
    KeepAppend(s[..i], [s[i]], p);
    assert Keep([s[i]], p) == if p(s[i]) then [s[i]] else [];
    PrunedIsKeep(s[..i + 1], fn, p);
    PrunedIsKeep(s[..i], fn, p);
  }

  lemma RemovedMiddle<T>(a: seq<T>, b: seq<T>)
    requires b != []
    ensures Removed(a + b, |a|) == a + b[1..] && (a + [b[0]]) + b[1..] == a + b
  {
  }

  // Storing under a held key changes its value and evicts nothing.
  lemma PutExisting<K, V>(s: seq<Entry<K, V>>, i: nat, v: V, maxSize: int)
    requires Distinct(s) && i < |s| <= maxSize
    ensures var t := s[i := Entry(s[i].key, v)];
      Distinct(t) && Stored(s, s[i].key, v, maxSize) == [Entry(s[i].key, v)] + Without(t, s[i].key)
  {
    var t := s[i := Entry(s[i].key, v)];
    WithoutAt(s, i);
    WithoutAt(t, i);
    assert t[..i] == s[..i] && t[i + 1..] == s[i + 1..];
  }

  // ---------------------------------------------------------------------------
  // The cache object

  class Element<K, V> {
    const key: K
    var value: V

    constructor (k: K, v: V)
      ensures key == k && value == v
    {
      key, value := k, v;
    }
  }

  // The map and the list point at the same elements, one a key.
  ghost predicate Linked<K, V>(items: map<K, Element<K, V>>, order: seq<Element<K, V>>) {
    && (forall i, j :: 0 <= i < j < |order| ==> order[i] != order[j])
    && (forall e :: e in order ==> e.key in items && items[e.key] == e)
    && (forall k :: k in items ==> items[k].key == k && items[k] in order)
  }

  ghost function View<K, V>(order: seq<Element<K, V>>): seq<Entry<K, V>>
    reads order
  {
    seq(|order|, i requires 0 <= i < |order| reads order => Entry(order[i].key, order[i].value))
  }

  lemma LinkedKeys<K, V>(items: map<K, Element<K, V>>, order: seq<Element<K, V>>)
    requires Linked(items, order)
    ensures Distinct(View(order))
    ensures forall k :: k in items <==> Holds(View(order), k)
    ensures forall k :: k in items ==> Lookup(View(order), k) == Entry(k, items[k].value)
  {
    forall i, j | 0 <= i < j < |order| ensures order[i].key != order[j].key {
      assert order[i] in order && order[j] in order;
    }
    forall k | k in items ensures Holds(View(order), k) && Lookup(View(order), k) == Entry(k, items[k].value) {
      var i :| 0 <= i < |order| && order[i] == items[k];
      assert View(order)[i].key == k;
    }
    forall k | Holds(View(order), k) ensures k in items {
      var i :| 0 <= i < |View(order)| && View(order)[i].key == k;
      assert order[i] in order;
    }
  }

  function Removed<T>(s: seq<T>, i: nat): seq<T>
    requires i < |s|
  {
    s[..i] + s[i + 1..]
  }

  lemma RemovedMembers<T>(s: seq<T>, i: nat)
    requires i < |s| && forall j :: 0 <= j < |s| && j != i ==> s[j] != s[i]
    ensures forall x :: x in Removed(s, i) <==> x in s && x != s[i]
  {
    var t := Removed(s, i);
    forall x | x in s && x != s[i] ensures x in t {
      var j :| 0 <= j < |s| && s[j] == x;
      assert x == t[if j < i then j else j - 1];
    }
    forall x | x in t ensures x in s && x != s[i] {
      var j :| 0 <= j < |t| && t[j] == x;
      assert x == s[if j < i then j else j + 1];
    }
  }

  lemma UnlinkAt<K, V>(items: map<K, Element<K, V>>, order: seq<Element<K, V>>, i: nat)
    requires Linked(items, order) && i < |order|
    ensures Linked(items - {order[i].key}, Removed(order, i))
    ensures forall e :: e in Removed(order, i) <==> e in order && e != order[i]
  {
    var gone, rest := order[i], Removed(order, i);
    RemovedMembers(order, i);
    assert gone in order;
    forall e | e in rest ensures e.key in items - {gone.key} && items[e.key] == e { }
    forall k | k in items - {gone.key} ensures items[k] in rest { }
  }

  lemma UnlinkedView<K, V>(items: map<K, Element<K, V>>, order: seq<Element<K, V>>, i: nat)
    requires Linked(items, order) && i < |order|
    ensures View(Removed(order, i)) == Removed(View(order), i) == Without(View(order), order[i].key)
  {
    LinkedKeys(items, order);
    WithoutAt(View(order), i);
  }

  lemma LinkFront<K, V>(items: map<K, Element<K, V>>, order: seq<Element<K, V>>, e: Element<K, V>)
    requires Linked(items, order) && e.key !in items
    ensures Linked(items[e.key := e], [e] + order)
    ensures View([e] + order) == [Entry(e.key, e.value)] + View(order)
  {
    forall x | x in order ensures x != e && x.key != e.key { }
  }

  class LruCache<K(==), V> {
    const maxSize: int
    var items: map<K, Element<K, V>>
    var order: seq<Element<K, V>>     // front is most recently used

    ghost predicate Valid()
      reads this
    {
      Linked(items, order) && |order| <= maxSize
    }

    ghost function Contents(): seq<Entry<K, V>>
      reads this, Repr()
    {
      View(order)
    }

    // The elements, which Put may write to.
    ghost function Repr(): set<object>
      reads this
    {
      set e | e in order
    }

    constructor (size: int)
      requires size >= 0
      ensures Valid() && Contents() == [] && maxSize == size
    {
      maxSize := size;
      items := map[];
      order := [];
    }

    // list.PushFront of an element the map does not know.
    method PushFront(elem: Element<K, V>)
      requires Linked(items, order) && elem.key !in items
      modifies this
      ensures Linked(items, order) && |order| == old(|order|) + 1
      ensures Repr() == old(Repr()) + {elem}
      ensures Contents() == [Entry(elem.key, elem.value)] + old(Contents())
    {
      LinkFront(items, order, elem);
      order := [elem] + order;
      items := items[elem.key := elem];
    }

    // list.MoveToFront.
    method MoveToFront(elem: Element<K, V>)
      requires Valid() && elem in order
      modifies this
      ensures Valid() && items == old(items)
      ensures Contents() == [Entry(elem.key, elem.value)] + Without(old(Contents()), elem.key)
      ensures Repr() == old(Repr())
    {
      ghost var n := |order|;
      var i :| 0 <= i < |order| && order[i] == elem;
      UnlinkAt(items, order, i);
      UnlinkedView(items, order, i);
      LinkFront(items - {elem.key}, Removed(order, i), elem);
      order := [elem] + Removed(order, i);
      assert items - {elem.key} + map[elem.key := elem] == items;
      assert (items - {elem.key})[elem.key := elem] == items;
    }

    method Get(key: K) returns (found: bool, elem: Element?<K, V>)
      requires Valid()
      modifies this
      ensures Valid() && items == old(items)
      ensures Contents() == Got(old(Contents()), key)
      ensures found <==> Holds(old(Contents()), key)
      ensures found <==> elem != null
      ensures found ==> Lookup(old(Contents()), key) == Entry(key, elem.value)
      ensures Repr() == old(Repr())
    {
      LinkedKeys(items, order);
      if key !in items {
        return false, null;
      }
      MoveToFront(items[key]);
      return true, items[key];
    }

    method Put(key: K, value: V)
      requires Valid()
      modifies this, Repr()
      ensures Valid()
      ensures Contents() == Stored(old(Contents()), key, value, maxSize)
      ensures fresh(Repr() - old(Repr()))
    {
      if key in items {
        var elem := items[key];
        Overwrite(elem, value);
        MoveToFront(elem);
        return;
      }
      Insert(key, value);
    }

    method Insert(key: K, value: V)
      requires Valid() && key !in items
      modifies this
      ensures Valid()
      ensures Contents() == Stored(old(Contents()), key, value, maxSize)
      ensures fresh(Repr() - old(Repr()))
    {
      LinkedKeys(items, order);
      WithoutAbsent(Contents(), key);
      var elem := new Element(key, value);
      PushFront(elem);
      assert Contents() == [Entry(key, value)] + Without(old(Contents()), key);
      if |order| > maxSize {
        EvictBack();
      }
    }

    // entry.value = value
    method Overwrite(elem: Element<K, V>, value: V)
      requires Valid() && elem in order
      modifies elem
      ensures Valid() && elem.value == value
      ensures Stored(old(Contents()), elem.key, value, maxSize)
           == [Entry(elem.key, value)] + Without(Contents(), elem.key)
    {
      LinkedKeys(items, order);
      ghost var before := Contents();
      ghost var i :| 0 <= i < |order| && order[i] == elem;
      elem.value := value;
      assert Contents() == before[i := Entry(elem.key, value)];
      PutExisting(before, i, value, maxSize);
    }

    // Removes the least recently used element.
    method EvictBack()
      requires Linked(items, order) && order != []
      modifies this
      ensures Linked(items, order) && |order| == old(|order|) - 1
      ensures Repr() <= old(Repr())
      ensures Contents() == old(Contents())[..|old(order)| - 1]
    {
      var n := |order| - 1;
      UnlinkAt(items, order, n);
      assert Removed(order, n) == order[..n];
      items := items - {order[n].key};
      order := order[..n];
    }

    // list.Remove of the element at position i, and delete of its key.
    method RemoveAt(i: nat)
      requires Valid() && i < |order|
      modifies this
      ensures Valid() && |order| == old(|order|) - 1 && Repr() <= old(Repr())
      ensures Contents() == Removed(old(Contents()), i) == Without(old(Contents()), old(order[i]).key)
    {
      UnlinkAt(items, order, i);
      UnlinkedView(items, order, i);
      items := items - {order[i].key};
      order := Removed(order, i);
    }

    method Delete(key: K)
      requires Valid()
      modifies this
      ensures Valid()
      ensures Contents() == Without(old(Contents()), key)
      ensures Repr() <= old(Repr())
    {
      LinkedKeys(items, order);
      if key !in items {
        WithoutAbsent(Contents(), key);
        return;
      }
      var i :| 0 <= i < |order| && order[i] == items[key];
      RemoveAt(i);
    }

    // Walks the list from the front, removing as it goes.
    method DeleteFunc(fn: (K, V) -> bool)
      requires Valid()
      modifies this
      ensures Valid()
      ensures Contents() == Pruned(old(Contents()), fn)
      ensures Repr() <= old(Repr())
    {
      ghost var all := Contents();
      ghost var done := 0;
      var i := 0;
      while i < |order|
        invariant Valid() && 0 <= i <= |order| && 0 <= done <= |all|
        invariant Repr() <= old(Repr())
        invariant Contents() == Pruned(all[..done], fn) + all[done..]
        invariant i == |Pruned(all[..done], fn)|
        decreases |order| - i
      {
        var elem := order[i];
        ghost var kept, rest := Pruned(all[..done], fn), all[done..];
        assert (kept + rest)[i] == rest[0] == all[done] && rest[1..] == all[done + 1..];
        PrunedNext(all, done, fn);
        RemovedMiddle(kept, rest);
        if fn(elem.key, elem.value) {
          RemoveAt(i);
          assert Pruned(all[..done + 1], fn) == kept;
        } else {
          i := i + 1;
        }
        done := done + 1;
      }
      assert all[..done] == all;
    }
  }
}
