/** Python's `sorted(..., key=..., reverse=...)` (a stable sort), list filtering and
    `distinct()`, as the application and its database queries use them. */
module Sorting {

  // ---------------------------------------------------------------------------
  // Stable sort, descending by a real-valued key

  /** Every element's key is at least the key of every later element. */
  ghost predicate Descending<T>(s: seq<T>, key: T -> real)
  {
    forall i, j :: 0 <= i < j < |s| ==> key(s[i]) >= key(s[j])
  }

  /** The elements of `s` whose key is `v`, in the order of `s`. */
  function WithKey<T>(s: seq<T>, key: T -> real, v: real): seq<T>
  {
    if s == [] then []
    else (if key(s[0]) == v then [s[0]] else []) + WithKey(s[1..], key, v)
  }

  /** Puts `x` after the elements with a strictly greater key and before the others. */
  function InsertDesc<T>(x: T, s: seq<T>, key: T -> real): (r: seq<T>)
    ensures |r| == |s| + 1
    ensures multiset(r) == multiset(s) + multiset{x}
  {
    if s == [] || key(s[0]) <= key(x) then [x] + s
    else
      var rest := InsertDesc(x, s[1..], key);
      assert s == [s[0]] + s[1..];
      [s[0]] + rest
  }

  /** Python `sorted(s, key=key, reverse=True)`. */
  function SortDesc<T>(s: seq<T>, key: T -> real): (r: seq<T>)
    ensures multiset(r) == multiset(s)
  {
    if s == [] then []
    else
      assert s == [s[0]] + s[1..];
      InsertDesc(s[0], SortDesc(s[1..], key), key)
  }

  /** Python `sorted(s, key=key)`: ascending by `key`, which is descending by `-key`. */
  function SortAsc<T>(s: seq<T>, key: T -> real): (r: seq<T>)
    ensures multiset(r) == multiset(s)
  {
    SortDesc(s, x => -key(x))
  }

  lemma {:induction false} InsertDescKeepsOrder<T>(x: T, s: seq<T>, key: T -> real)
    requires Descending(s, key)
    ensures Descending(InsertDesc(x, s, key), key)
    decreases |s|
  {
    var r := InsertDesc(x, s, key);
    if s == [] || key(s[0]) <= key(x) {
      assert r == [x] + s;
    } else {
      var rest := InsertDesc(x, s[1..], key);
      InsertDescKeepsOrder(x, s[1..], key);
      assert r == [s[0]] + rest;
      forall j | 0 < j < |r| ensures key(r[0]) >= key(r[j]) {
        assert r[j] in multiset(rest);
        assert r[j] == x || r[j] in multiset(s[1..]);
      }
    }
  }

  lemma {:induction false} InsertDescWithKey<T>(x: T, s: seq<T>, key: T -> real, v: real)
    ensures WithKey(InsertDesc(x, s, key), key, v)
         == (if key(x) == v then [x] else []) + WithKey(s, key, v)
    decreases |s|
  {
    var r := InsertDesc(x, s, key);
    if s == [] || key(s[0]) <= key(x) {
      assert r == [x] + s && r[1..] == s;
    } else {
      var rest := InsertDesc(x, s[1..], key);
      InsertDescWithKey(x, s[1..], key, v);
      assert r == [s[0]] + rest && r[1..] == rest;
      var head := if key(s[0]) == v then [s[0]] else [];
      var mid := if key(x) == v then [x] else [];
      assert WithKey(r, key, v) == head + (mid + WithKey(s[1..], key, v));
      assert WithKey(s, key, v) == head + WithKey(s[1..], key, v);
      // `x` and `s[0]` have different keys here, so at most one of them carries `v`.
      assert head == [] || mid == [];
    }
  }

  /** After a stable descending sort the first of the elements with the largest
      key comes first. */
  lemma FirstMaximumLeads<T>(s: seq<T>, r: seq<T>, key: T -> real, k: nat)
    requires k < |s|
    requires multiset(r) == multiset(s) && Descending(r, key)
    requires WithKey(r, key, key(s[k])) == WithKey(s, key, key(s[k]))
    requires forall c :: 0 <= c < |s| ==> key(s[c]) <= key(s[k])
    requires forall c :: 0 <= c < k ==> key(s[c]) < key(s[k])
    ensures |r| > 0 && r[0] == s[k]
  {
    var v := key(s[k]);
    assert s[k] in multiset(r);
    var m' :| 0 <= m' < |r| && r[m'] == s[k];
    assert r[0] in multiset(s);
    var m :| 0 <= m < |s| && s[m] == r[0];
    assert key(r[0]) >= key(r[m']);
    FirstWithKey(s, key, v, k);
    FirstWithKey(r, key, v, 0);
  }

  /** The first element of a list carrying key `v` is the first element of the
      list of those elements. */
  lemma {:induction false} FirstWithKey<T>(s: seq<T>, key: T -> real, v: real, k: nat)
    requires k < |s| && key(s[k]) == v
    requires forall j :: 0 <= j < k ==> key(s[j]) != v
    ensures |WithKey(s, key, v)| > 0 && WithKey(s, key, v)[0] == s[k]
    decreases k
  {
    if k > 0 {
      FirstWithKey(s[1..], key, v, k - 1);
    }
  }

  /** The sort result is in descending key order. */
  lemma {:induction false} SortDescSorted<T>(s: seq<T>, key: T -> real)
    ensures Descending(SortDesc(s, key), key)
    decreases |s|
  {
    if s != [] {
      SortDescSorted(s[1..], key);
      InsertDescKeepsOrder(s[0], SortDesc(s[1..], key), key);
    }
  }

  /** The sort is stable: for every key value, the elements carrying it keep their
      relative order. */
  lemma {:induction false} SortDescStable<T>(s: seq<T>, key: T -> real, v: real)
    ensures WithKey(SortDesc(s, key), key, v) == WithKey(s, key, v)
    decreases |s|
  {
    if s != [] {
      SortDescStable(s[1..], key, v);
      InsertDescWithKey(s[0], SortDesc(s[1..], key), key, v);
    }
  }

  /** The ascending sort puts keys in ascending order. */
  lemma SortAscSorted<T>(s: seq<T>, key: T -> real)
    ensures forall i, j :: 0 <= i < j < |SortAsc(s, key)| ==> key(SortAsc(s, key)[i]) <= key(SortAsc(s, key)[j])
  {
    var neg := x => -key(x);
    SortDescSorted(s, neg);
    var r := SortAsc(s, key);
    forall i, j | 0 <= i < j < |r| ensures key(r[i]) <= key(r[j]) {
      assert neg(r[i]) >= neg(r[j]);
    }
  }

  // ---------------------------------------------------------------------------
  // Filtering and distinct values

  /** The elements of `s` satisfying `p`, in order (a list comprehension with `if`). */
  function Filter<T>(s: seq<T>, p: T -> bool): (r: seq<T>)
    ensures |r| <= |s|
    ensures forall i :: 0 <= i < |r| ==> r[i] in s && p(r[i])
    ensures forall i :: 0 <= i < |s| && p(s[i]) ==> s[i] in r
  {
    if s == [] then []
    else (if p(s[0]) then [s[0]] else []) + Filter(s[1..], p)
  }

  lemma {:induction false} FilterAppend<T>(a: seq<T>, b: seq<T>, p: T -> bool)
    ensures Filter(a + b, p) == Filter(a, p) + Filter(b, p)
    decreases |a|
  {
    if a != [] {
      FilterAppend(a[1..], b, p);
      assert (a + b)[1..] == a[1..] + b;
    } else {
      assert a + b == b;
    }
  }

  /** Filtering a list with one more element at the end. */
  lemma FilterSnoc<T>(s: seq<T>, x: T, p: T -> bool)
    ensures Filter(s + [x], p) == Filter(s, p) + (if p(x) then [x] else [])
  {
    FilterAppend(s, [x], p);
  }

  /** Filtering by two predicates that agree on every element gives the same list. */
  lemma {:induction false} FilterPointwise<T>(s: seq<T>, p: T -> bool, q: T -> bool)
    requires forall i :: 0 <= i < |s| ==> p(s[i]) == q(s[i])
    ensures Filter(s, p) == Filter(s, q)
    decreases |s|
  {
    if s != [] {
      FilterPointwise(s[1..], p, q);
    }
  }

  /** A predicate every element satisfies filters nothing out. */
  lemma {:induction false} FilterAll<T>(s: seq<T>, p: T -> bool)
    requires forall i :: 0 <= i < |s| ==> p(s[i])
    ensures Filter(s, p) == s
    decreases |s|
  {
    if s != [] {
      FilterAll(s[1..], p);
    }
  }

  /** Filtering keeps each element that satisfies the predicate as often as it occurs,
      and no other. */
  lemma {:induction false} FilterMultiplicity<T>(s: seq<T>, p: T -> bool, x: T)
    ensures multiset(Filter(s, p))[x] == if p(x) then multiset(s)[x] else 0
    decreases |s|
  {
    if s != [] {
      FilterMultiplicity(s[1..], p, x);
      assert s == [s[0]] + s[1..];
    }
  }

  /** Every element of the filtered list satisfies the predicate. */
  lemma FilterMembers<T>(s: seq<T>, p: T -> bool)
    ensures forall x :: x in Filter(s, p) ==> p(x)
  {
    forall x | x in Filter(s, p) ensures p(x) {
      var i :| 0 <= i < |Filter(s, p)| && Filter(s, p)[i] == x;
    }
  }

  /** Two orderings of the same multiset hold the same elements. */
  lemma SameElements<T>(s: seq<T>, t: seq<T>)
    requires multiset(s) == multiset(t)
    ensures forall k :: 0 <= k < |t| ==> t[k] in s
    ensures forall k :: 0 <= k < |s| ==> s[k] in t
  {
    forall k | 0 <= k < |t| ensures t[k] in s {
      assert t[k] in multiset(t);
    }
    forall k | 0 <= k < |s| ensures s[k] in t {
      assert s[k] in multiset(s);
    }
  }

  predicate NoDuplicates<T(==)>(s: seq<T>)
  {
    forall i, j :: 0 <= i < j < |s| ==> s[i] != s[j]
  }

  /** SQL `DISTINCT` over a column: each value once, in order of first appearance. */
  function Distinct<T(==)>(s: seq<T>): (r: seq<T>)
    ensures forall i :: 0 <= i < |r| ==> r[i] in s
    ensures forall i :: 0 <= i < |s| ==> s[i] in r
    ensures NoDuplicates(r)
  {
    if s == [] then []
    else
      var init := s[..|s| - 1];
      var d := Distinct(init);
      assert forall i :: 0 <= i < |init| ==> init[i] == s[i];
      if s[|s| - 1] in d then d else d + [s[|s| - 1]]
  }

  // ---------------------------------------------------------------------------
  // Unique keys

  /** No two elements share a key (a primary key column). */
  predicate KeyUnique<T>(s: seq<T>, key: T -> nat)
  {
    forall i, j :: 0 <= i < j < |s| ==> key(s[i]) != key(s[j])
  }

  lemma {:induction false} KeyUniqueFilter<T>(s: seq<T>, key: T -> nat, p: T -> bool)
    requires KeyUnique(s, key)
    ensures KeyUnique(Filter(s, p), key)
    decreases |s|
  {
    if |s| > 0 {
      var rest := Filter(s[1..], p);
      KeyUniqueFilter(s[1..], key, p);
      if p(s[0]) {
        var f := Filter(s, p);
        assert f == [s[0]] + rest;
        forall j | 0 < j < |f| ensures key(f[0]) != key(f[j]) {
          assert f[j] == rest[j - 1];
          var m :| 0 <= m < |s[1..]| && s[1..][m] == f[j];
          assert s[m + 1] == f[j];
        }
      }
    }
  }

  /** Removing the element at index `m`. */
  function RemoveAt<T>(s: seq<T>, m: nat): (r: seq<T>)
    requires m < |s|
    ensures |r| == |s| - 1
    ensures multiset(r) == multiset(s) - multiset{s[m]}
    ensures forall i :: 0 <= i < |r| ==> r[i] == if i < m then s[i] else s[i + 1]
  {
    assert s == s[..m] + [s[m]] + s[m + 1..];
    s[..m] + s[m + 1..]
  }

  lemma KeyUniqueRemoveAt<T>(s: seq<T>, m: nat, key: T -> nat)
    requires m < |s| && KeyUnique(s, key)
    ensures KeyUnique(RemoveAt(s, m), key)
    ensures forall i :: 0 <= i < |s| - 1 ==> key(RemoveAt(s, m)[i]) != key(s[m])
  {
    var r := RemoveAt(s, m);
    forall i, j | 0 <= i < j < |r| ensures key(r[i]) != key(r[j]) {
      var i' := if i < m then i else i + 1;
      var j' := if j < m then j else j + 1;
      assert r[i] == s[i'] && r[j] == s[j'] && i' < j';
    }
    forall i | 0 <= i < |r| ensures key(r[i]) != key(s[m]) {
      var i' := if i < m then i else i + 1;
      assert r[i] == s[i'] && i' != m;
    }
  }

  /** A reordering of a list with unique keys has unique keys. */
  lemma {:induction false} KeyUniquePermutation<T>(s: seq<T>, t: seq<T>, key: T -> nat)
    requires KeyUnique(s, key) && multiset(s) == multiset(t)
    ensures KeyUnique(t, key)
    decreases |t|
  {
    if |t| > 0 {
      assert t == [t[0]] + t[1..];
      assert t[0] in multiset(s);
      var m :| 0 <= m < |s| && s[m] == t[0];
      var s' := RemoveAt(s, m);
      KeyUniqueRemoveAt(s, m, key);
      assert multiset(t[1..]) == multiset(t) - multiset{t[0]};
      KeyUniquePermutation(s', t[1..], key);
      KeyAbsent(s', t[1..], key, key(t[0]));
      KeyUniqueCons(t, key);
    }
  }

  /** A key no element of `u` has is had by no element of a reordering of `u`. */
  lemma KeyAbsent<T>(u: seq<T>, v: seq<T>, key: T -> nat, k0: nat)
    requires multiset(u) == multiset(v)
    requires forall i :: 0 <= i < |u| ==> key(u[i]) != k0
    ensures forall j :: 0 <= j < |v| ==> key(v[j]) != k0
  {
    SameElements(u, v);
    forall j | 0 <= j < |v| ensures key(v[j]) != k0 {
      var i :| 0 <= i < |u| && u[i] == v[j];
    }
  }

  lemma KeyUniqueCons<T>(t: seq<T>, key: T -> nat)
    requires |t| > 0 && KeyUnique(t[1..], key)
    requires forall j :: 0 <= j < |t| - 1 ==> key(t[1..][j]) != key(t[0])
    ensures KeyUnique(t, key)
  {
    forall i, j | 0 <= i < j < |t| ensures key(t[i]) != key(t[j]) {
      assert t[j] == t[1..][j - 1];
      if i > 0 {
        assert t[i] == t[1..][i - 1];
      }
    }
  }
}
