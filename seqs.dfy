/** The two query primitives every service relies on: a `where` filter over a
    table and an `orderBy: { field: 'desc' }` ordering. The database does not
    fix the order of rows with equal keys, so the ordering is specified only
    as "a permutation of the rows, sorted by the key". */
module Seqs {

  /** The rows of `s` that satisfy `p`, in table order. */
  function Filter<T(!new)>(s: seq<T>, p: T -> bool): (r: seq<T>)
    ensures |r| <= |s|
    ensures forall x :: x in r <==> x in s && p(x)
    ensures forall x :: multiset(r)[x] == if p(x) then multiset(s)[x] else 0
  {
    if s == [] then []
    else
      assert s == [s[0]] + s[1..];
      if p(s[0]) then [s[0]] + Filter(s[1..], p) else Filter(s[1..], p)
  }

  /** `f` applied to every row, as `Array.prototype.map` does. */
  function Map<T, U>(s: seq<T>, f: T -> U): (r: seq<U>)
    ensures |r| == |s|
    ensures forall i :: 0 <= i < |s| ==> r[i] == f(s[i])
  {
    seq(|s|, i requires 0 <= i < |s| => f(s[i]))
  }

  /** Keys never increase from left to right. */
  ghost predicate SortedDesc<T>(s: seq<T>, key: T -> int)
  {
    forall i, j :: 0 <= i < j < |s| ==> key(s[i]) >= key(s[j])
  }

  /** A row whose key bounds every key of a sorted table may lead it. */
  lemma SortedDescCons<T>(a: T, t: seq<T>, key: T -> int)
    requires SortedDesc(t, key)
    requires forall y :: y in t ==> key(y) <= key(a)
    ensures SortedDesc([a] + t, key)
  {
    var u := [a] + t;
    forall i, j | 0 <= i < j < |u| ensures key(u[i]) >= key(u[j]) {
      if i > 0 {
        assert u[i] == t[i - 1] && u[j] == t[j - 1];
      } else {
        assert u[j] == t[j - 1] && u[j] in t;
      }
    }
  }

  function Insert<T(!new)>(x: T, s: seq<T>, key: T -> int): (r: seq<T>)
    requires SortedDesc(s, key)
    ensures SortedDesc(r, key)
    ensures multiset(r) == multiset(s) + multiset{x}
  {
    if s == [] then [x]
    else if key(x) >= key(s[0]) then
      SortedDescCons(x, s, key);
      [x] + s
    else
      assert s == [s[0]] + s[1..];
      var t := Insert(x, s[1..], key);
      InsertBound(x, s, key, t);
      SortedDescCons(s[0], t, key);
      [s[0]] + t
  }

  lemma InsertBound<T>(x: T, s: seq<T>, key: T -> int, t: seq<T>)
    requires s != [] && SortedDesc(s, key) && key(x) < key(s[0])
    requires multiset(t) == multiset(s[1..]) + multiset{x}
    ensures forall y :: y in t ==> key(y) <= key(s[0])
  {
    forall y | y in t ensures key(y) <= key(s[0]) {
      assert y in multiset(t);
      if y != x {
        assert y in multiset(s[1..]);
        var k :| 0 <= k < |s[1..]| && s[1..][k] == y;
        assert s[k + 1] == y;
      }
    }
  }

  /** The rows of `s` ordered by descending key. */
  function SortDesc<T(!new)>(s: seq<T>, key: T -> int): (r: seq<T>)
    ensures SortedDesc(r, key)
    ensures multiset(r) == multiset(s)
    ensures |r| == |s|
    ensures forall y :: y in r <==> y in s
  {
    if s == [] then []
    else
      assert s == [s[0]] + s[1..];
      var r := Insert(s[0], SortDesc(s[1..], key), key);
      assert |multiset(r)| == |r|;
      assert forall y :: y in r <==> y in multiset(r);
      r
  }
}
