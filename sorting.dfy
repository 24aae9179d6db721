/** Ordering a vector of numbers from largest to smallest, as the standard
    library's `sort_unstable` followed by `reverse` (or a sort with the reversed
    comparator) does. */
module Sorting {
  predicate SortedDesc(s: seq<int>) {
    forall i, j :: 0 <= i < j < |s| ==> s[i] >= s[j]
  }

  function InsertDesc(x: int, s: seq<int>): (r: seq<int>)
    requires SortedDesc(s)
    ensures SortedDesc(r) && |r| == |s| + 1
    ensures multiset(r) == multiset(s) + multiset{x}
    ensures r[0] == x || (s != [] && r[0] == s[0])
    decreases |s|
  {
    if s == [] || x >= s[0] then
      ConsSorted(x, s);
      [x] + s
    else
      var t := InsertDesc(x, s[1..]);
      ConsSorted(s[0], t);
      assert s == [s[0]] + s[1..];
      [s[0]] + t
  }

  /** A value no smaller than the head of a descending sequence extends it. */
  lemma ConsSorted(h: int, t: seq<int>)
    requires SortedDesc(t) && (t == [] || h >= t[0])
    ensures SortedDesc([h] + t)
  {
  }

  /** The descending permutation of `s`. */
  function SortDesc(s: seq<int>): (r: seq<int>)
    ensures SortedDesc(r) && multiset(r) == multiset(s) && |r| == |s|
    decreases |s|
  {
    if s == [] then []
    else
      assert s == [s[0]] + s[1..];
      InsertDesc(s[0], SortDesc(s[1..]))
  }

  /** The first element of the descending permutation is the maximum. */
  lemma SortDescFirstIsMax(s: seq<int>)
    requires |s| > 0
    ensures SortDesc(s)[0] in s
    ensures forall i :: 0 <= i < |s| ==> s[i] <= SortDesc(s)[0]
  {
    var r := SortDesc(s);
    assert r[0] in multiset(r);
    forall i | 0 <= i < |s| ensures s[i] <= r[0] {
      assert s[i] in multiset(s);
      var k :| 0 <= k < |r| && r[k] == s[i];
    }
  }

  /** Two descending orderings of the same values are the same sequence, so any
      descending permutation is `SortDesc`'s. */
  lemma MultisetTail(a: seq<int>)
    requires a != []
    ensures multiset(a[1..]) == multiset(a) - multiset{a[0]}
  {
    assert a == [a[0]] + a[1..];
  }

  lemma SortedDescHead(a: seq<int>, b: seq<int>)
    requires SortedDesc(a) && SortedDesc(b) && multiset(a) == multiset(b) && a != [] && b != []
    ensures a[0] == b[0] && SortedDesc(a[1..]) && SortedDesc(b[1..])
  {
    assert a[0] in multiset(b);
    assert b[0] in multiset(a);
    var i :| 0 <= i < |b| && b[i] == a[0];
    var j :| 0 <= j < |a| && a[j] == b[0];
  }

  lemma {:induction false} SortedDescUnique(a: seq<int>, b: seq<int>)
    requires SortedDesc(a) && SortedDesc(b) && multiset(a) == multiset(b)
    ensures a == b
    decreases |a|
  {
    assert |a| == |multiset(a)| == |multiset(b)| == |b|;
    if a != [] {
      SortedDescHead(a, b);
      MultisetTail(a);
      MultisetTail(b);
      SortedDescUnique(a[1..], b[1..]);
      assert a == [a[0]] + a[1..] && b == [b[0]] + b[1..];
    }
  }

  /** A descending permutation of `s` is its sort. */
  lemma SortDescIs(s: seq<int>, t: seq<int>)
    requires SortedDesc(t) && multiset(t) == multiset(s)
    ensures SortDesc(s) == t
  {
    SortedDescUnique(SortDesc(s), t);
  }
}
