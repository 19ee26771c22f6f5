/** Sequence operations the handlers and pages use: `Array.prototype.filter`,
    counting, `.limit(n)`, and `.sort({ field: -1 })` (newest first).
 */
module Seqs {

  /** `s.filter(p)`: the elements of `s` that satisfy `p`, in their original order. */
  function Filter<T>(s: seq<T>, p: T -> bool): (r: seq<T>)
    ensures |r| <= |s|
    ensures forall i :: 0 <= i < |r| ==> p(r[i])
    ensures forall i :: 0 <= i < |r| ==> r[i] in s
    ensures forall i :: 0 <= i < |s| && p(s[i]) ==> s[i] in r
  {
    if |s| == 0 then []
    else
      var rest := Filter(s[1..], p);
      assert s == [s[0]] + s[1..];
      if p(s[0]) then [s[0]] + rest else rest
  }

  /** The filter holds no element more often than `s`. */
  lemma {:induction false} FilterWithin<T>(s: seq<T>, p: T -> bool)
    ensures multiset(Filter(s, p)) <= multiset(s)
  {
    if |s| > 0 {
      FilterWithin(s[1..], p);
      assert s == [s[0]] + s[1..];
    }
  }

  /** Filtering twice is filtering by both conditions. */
  lemma {:induction false} FilterFilter<T>(s: seq<T>, p: T -> bool, q: T -> bool)
    ensures Filter(Filter(s, p), q) == Filter(s, x => p(x) && q(x))
  {
    if |s| > 0 {
      FilterFilter(s[1..], p, q);
    }
  }

  /** A filter whose condition holds of every element keeps the sequence. */
  lemma {:induction false} FilterAll<T>(s: seq<T>, p: T -> bool)
    requires forall i :: 0 <= i < |s| ==> p(s[i])
    ensures Filter(s, p) == s
  {
    if |s| > 0 {
      FilterAll(s[1..], p);
    }
  }

  /** Filtering keeps the order: the filter of `a + b` is the filter of
      `a` followed by the filter of `b`. */
  lemma {:induction false} FilterAppend<T>(a: seq<T>, b: seq<T>, p: T -> bool)
    ensures Filter(a + b, p) == Filter(a, p) + Filter(b, p)
  {
    if |a| > 0 {
      assert (a + b)[1..] == a[1..] + b;
      FilterAppend(a[1..], b, p);
    } else {
      assert a + b == b;
    }
  }

  /** The number of elements of `s` that satisfy `p`. */
  function Count<T>(s: seq<T>, p: T -> bool): (n: nat)
    ensures n <= |s|
    ensures n == 0 <==> forall i :: 0 <= i < |s| ==> !p(s[i])
  {
    if |s| == 0 then 0
    else (if p(s[0]) then 1 else 0) + Count(s[1..], p)
  }

  /** Counting is the length of the filter. */
  lemma {:induction false} CountIsFilterLength<T>(s: seq<T>, p: T -> bool)
    ensures Count(s, p) == |Filter(s, p)|
  {
    if |s| > 0 {
      CountIsFilterLength(s[1..], p);
    }
  }

  /** Counting over a concatenation adds up. */
  lemma {:induction false} CountAppend<T>(a: seq<T>, b: seq<T>, p: T -> bool)
    ensures Count(a + b, p) == Count(a, p) + Count(b, p)
  {
    if |a| == 0 {
      assert a + b == b;
    } else {
      assert (a + b)[1..] == a[1..] + b;
      CountAppend(a[1..], b, p);
    }
  }

  /** Mongo `updateMany(filter, update)` over a sequence: every element `p`
      picks becomes `f` of it, every other one stays, and the count is the
      number of elements replaced. */
  method UpdateWhere<T>(s: seq<T>, p: T -> bool, f: T -> T) returns (r: seq<T>, count: nat)
    ensures |r| == |s|
    ensures forall i :: 0 <= i < |s| ==> r[i] == if p(s[i]) then f(s[i]) else s[i]
    ensures count == Count(s, p)
  {
    r := [];
    count := 0;
    var i := 0;
    while i < |s|
      invariant 0 <= i <= |s|
      invariant |r| == i
      invariant forall j :: 0 <= j < i ==> r[j] == if p(s[j]) then f(s[j]) else s[j]
      invariant count == Count(s[..i], p)
    {
      assert s[..i + 1] == s[..i] + [s[i]];
      assert [s[i]][1..] == [];
      CountAppend(s[..i], [s[i]], p);
      r := r + [if p(s[i]) then f(s[i]) else s[i]];
      if p(s[i]) {
        count := count + 1;
      }
      i := i + 1;
    }
    assert s[..i] == s;
  }

  /** `s.slice(0, n)` / Mongo `.limit(n)` with `n > 0`: at most `n` leading elements. */
  function Take<T>(s: seq<T>, n: nat): (r: seq<T>)
    ensures |r| == if |s| < n then |s| else n
    ensures r == s[..|r|]
  {
    if |s| < n then s else s[..n]
  }

  /** What `Take` keeps, it takes from `s`: no element more often than `s`
      holds it. */
  lemma TakeWithin<T>(s: seq<T>, n: nat)
    ensures multiset(Take(s, n)) <= multiset(s)
  {
    var r := Take(s, n);
    assert s == r + s[|r|..];
  }

  /** `s` is ordered by `key`, largest first. */
  predicate SortedDesc<T>(s: seq<T>, key: T -> int) {
    forall i, j :: 0 <= i < j < |s| ==> key(s[i]) >= key(s[j])
  }

  /** The position of an element of `s` with the largest key. */
  function MaxIndex<T>(s: seq<T>, key: T -> int): (m: nat)
    requires |s| > 0
    ensures m < |s|
    ensures forall i :: 0 <= i < |s| ==> key(s[i]) <= key(s[m])
  {
    if |s| == 1 then 0
    else
      var m' := MaxIndex(s[1..], key);
      assert forall i :: 1 <= i < |s| ==> s[i] == s[1..][i - 1];
      if key(s[0]) >= key(s[1 + m']) then 0 else 1 + m'
  }

  /** `s` without its element at position `m`. */
  function RemoveAt<T>(s: seq<T>, m: nat): (r: seq<T>)
    requires m < |s|
    ensures |r| == |s| - 1
    ensures multiset(r) + multiset{s[m]} == multiset(s)
    ensures forall i :: 0 <= i < |r| ==> r[i] in s
  {
    assert s == s[..m] + [s[m]] + s[m + 1..];
    s[..m] + s[m + 1..]
  }

  /** A member of `s` is bounded by any bound of all of `s`'s keys. */
  lemma MemberBounded<T>(s: seq<T>, key: T -> int, b: int, x: T)
    requires forall i :: 0 <= i < |s| ==> key(s[i]) <= b
    requires x in s
    ensures key(x) <= b
  {
    var i :| 0 <= i < |s| && s[i] == x;
  }

  /** Putting an element in front of a sorted sequence whose keys it bounds
      keeps the sequence sorted. */
  lemma PrependSorted<T>(top: T, tail: seq<T>, key: T -> int)
    requires SortedDesc(tail, key)
    requires forall j :: 0 <= j < |tail| ==> key(tail[j]) <= key(top)
    ensures SortedDesc([top] + tail, key)
  {
    var r := [top] + tail;
    forall i, j | 0 <= i < j < |r|
      ensures key(r[i]) >= key(r[j])
    {
      assert r[j] == tail[j - 1];
      if i > 0 {
        assert r[i] == tail[i - 1];
      }
    }
  }

  /** Every element of a rearrangement of `s` is bounded by a bound of `s`. */
  lemma PermutationBounded<T>(s: seq<T>, t: seq<T>, key: T -> int, b: int)
    requires forall i :: 0 <= i < |s| ==> key(s[i]) <= b
    requires multiset(t) <= multiset(s)
    ensures forall j :: 0 <= j < |t| ==> key(t[j]) <= b
  {
    forall j | 0 <= j < |t|
      ensures key(t[j]) <= b
    {
      assert t[j] in multiset(t);
      MemberBounded(s, key, b, t[j]);
    }
  }

  /** The elements of `s` reordered by `key`, largest first (a selection sort;
      elements with equal keys may come in any order, as with Mongo's sort). */
  function SortDesc<T>(s: seq<T>, key: T -> int): (r: seq<T>)
    ensures |r| == |s|
    ensures multiset(r) == multiset(s)
    ensures SortedDesc(r, key)
    decreases |s|
  {
    if |s| == 0 then []
    else
      var m := MaxIndex(s, key);
      var rest := RemoveAt(s, m);
      var tail := SortDesc(rest, key);
      PermutationBounded(s, tail, key, key(s[m]));
      PrependSorted(s[m], tail, key);
      [s[m]] + tail
  }

  /** Sorting keeps exactly the elements it was given. */
  lemma SortDescMembers<T>(s: seq<T>, key: T -> int, x: T)
    ensures x in SortDesc(s, key) <==> x in s
  {
    var r := SortDesc(s, key);
    assert x in r <==> x in multiset(r);
    assert x in s <==> x in multiset(s);
  }

  /** `find(filter).sort({ key: -1 })`: the elements satisfying `p`, largest
      key first. */
  function SortedFilter<T>(s: seq<T>, p: T -> bool, key: T -> int): (r: seq<T>)
    ensures |r| == Count(s, p)
    ensures forall i :: 0 <= i < |r| ==> p(r[i]) && r[i] in s
    ensures forall x :: x in s && p(x) ==> x in r
    ensures SortedDesc(r, key)
  {
    SortedFilterMembers(s, p, key);
    SortDesc(Filter(s, p), key)
  }

  /** The sorted filter is a rearrangement of the filter, so it holds each
      element at most as often as `s` does. */
  lemma SortedFilterPermutes<T>(s: seq<T>, p: T -> bool, key: T -> int)
    ensures multiset(SortedFilter(s, p, key)) == multiset(Filter(s, p))
    ensures multiset(SortedFilter(s, p, key)) <= multiset(s)
  {
    FilterWithin(s, p);
  }

  /** The first `n` of a sorted filter hold no element more often than `s`. */
  lemma TopWithin<T>(s: seq<T>, p: T -> bool, key: T -> int, n: nat)
    ensures multiset(Take(SortedFilter(s, p, key), n)) <= multiset(s)
  {
    SortedFilterPermutes(s, p, key);
    TakeWithin(SortedFilter(s, p, key), n);
  }

  /** The members of the sorted filter are exactly the elements satisfying `p`. */
  lemma SortedFilterMembers<T>(s: seq<T>, p: T -> bool, key: T -> int)
    ensures var r := SortDesc(Filter(s, p), key);
      && |r| == Count(s, p)
      && (forall i :: 0 <= i < |r| ==> p(r[i]) && r[i] in s)
      && (forall x :: x in s && p(x) ==> x in r)
  {
    var mine := Filter(s, p);
    CountIsFilterLength(s, p);
    var r := SortDesc(mine, key);
    forall i | 0 <= i < |r|
      ensures p(r[i]) && r[i] in s
    {
      SortDescMembers(mine, key, r[i]);
      var j :| 0 <= j < |mine| && mine[j] == r[i];
    }
    forall x | x in s && p(x)
      ensures x in r
    {
      var j :| 0 <= j < |s| && s[j] == x;
      SortDescMembers(mine, key, x);
    }
  }

  /** Elements drawn from `s` keep what every element of `s` has: `p`, and
      membership in `t`. */
  lemma MembersInherit<T>(w: seq<T>, s: seq<T>, p: T -> bool, t: seq<T>)
    requires forall i :: 0 <= i < |w| ==> w[i] in s
    requires forall i :: 0 <= i < |s| ==> p(s[i]) && s[i] in t
    ensures forall i :: 0 <= i < |w| ==> p(w[i]) && w[i] in t
  {
    forall i | 0 <= i < |w|
      ensures p(w[i]) && w[i] in t
    {
      var j :| 0 <= j < |s| && s[j] == w[i];
    }
  }

  /** `s.findIndex(p)`, with `|s|` standing for "not found". */
  function IndexWhere<T>(s: seq<T>, p: T -> bool): (k: nat)
    ensures k <= |s|
    ensures k < |s| ==> p(s[k])
    ensures forall j :: 0 <= j < k ==> !p(s[j])
  {
    if |s| == 0 then 0
    else if p(s[0]) then 0
    else 1 + IndexWhere(s[1..], p)
  }

  /** The first `n` of a sorted filter: as many as there are matches, up to
      `n`; matching members of `s`, sorted; and every match left behind is
      bounded by every element kept. */
  lemma TopOfSortedFilter<T>(s: seq<T>, p: T -> bool, key: T -> int, n: nat)
    ensures var r := Take(SortedFilter(s, p, key), n);
      && |r| == (if Count(s, p) < n then Count(s, p) else n)
      && (forall i :: 0 <= i < |r| ==> p(r[i]) && r[i] in s)
      && SortedDesc(r, key)
      && forall x :: x in s && p(x) && x !in r ==> forall i :: 0 <= i < |r| ==> key(x) <= key(r[i])
  {
    var sorted := SortedFilter(s, p, key);
    var r := Take(sorted, n);
    assert forall i :: 0 <= i < |r| ==> r[i] == sorted[i];
    forall x | x in s && p(x) && x !in r
      ensures forall i :: 0 <= i < |r| ==> key(x) <= key(r[i])
    {
      var j :| 0 <= j < |sorted| && sorted[j] == x;
      forall i | 0 <= i < |r|
        ensures key(x) <= key(r[i])
      {
        assert r[i] == sorted[i];
      }
    }
  }
}
