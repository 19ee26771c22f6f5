/** Server-side paging of a sorted list: `page`/`limit` query parameters,
    the `skip`/`limit` window the store returns, and the page count sent
    back with it.
 */
module Pagination {

  import opened Wrappers
  import Seqs

  /** `parseInt(param) || fallback`: a missing or unparsable parameter
      (`None`) and a zero both fall back. */
  function ParamOr(param: Option<int>, fallback: int): (v: int)
    ensures param.Some? && param.value != 0 ==> v == param.value
    ensures param.None? || param.value == 0 ==> v == fallback
    ensures fallback != 0 ==> v != 0
  {
    if param.None? || param.value == 0 then fallback else param.value
  }

  /** `(page - 1) * limit`. */
  function Skip(page: int, limit: int): int {
    (page - 1) * limit
  }

  /** `.skip(skip).limit(limit)` on a result list: a negative skip is a store
      error; a zero limit means no limit; a negative limit is taken as its
      absolute value. */
  function Window<T>(items: seq<T>, skip: int, limit: int): (r: Result<seq<T>>)
    ensures skip < 0 <==> r.Err?
    ensures r.Err? ==> r.code == InternalError
    ensures r.Ok? && skip >= |items| ==> r.value == []
    ensures r.Ok? && skip < |items| ==>
      var n := if limit == 0 then |items| - skip else if limit > 0 then limit else -limit;
      var end := if skip + n < |items| then skip + n else |items|;
      r.value == items[skip..end]
    ensures r.Ok? ==> multiset(r.value) <= multiset(items)
  {
    if skip < 0 then Err(InternalError)
    else if skip >= |items| then Ok([])
    else
      var n := if limit == 0 then |items| - skip else if limit > 0 then limit else -limit;
      var end := if skip + n < |items| then skip + n else |items|;
      assert items == items[..skip] + items[skip..end] + items[end..];
      Ok(items[skip..end])
  }

  /** `Math.ceil(total / limit)` for a non-zero limit. */
  function Pages(total: nat, limit: int): (p: int)
    requires limit != 0
    ensures limit > 0 ==> p * limit >= total && (p - 1) * limit < total
    ensures limit > 0 ==> p >= 0
    ensures limit > 0 && total > 0 ==> p >= 1
  {
    if limit > 0 then (total + limit - 1) / limit
    else -(total / -limit)
  }

  /** With a positive limit and a page from 1 on, the page is non-empty
      exactly when it is within the advertised page count. */
  lemma {:induction false} PageWithinCount<T>(items: seq<T>, page: int, limit: int)
    requires limit > 0 && page >= 1
    ensures Window(items, Skip(page, limit), limit).Ok?
    ensures Window(items, Skip(page, limit), limit).value != [] <==> page <= Pages(|items|, limit)
  {
    var skip := Skip(page, limit);
    assert skip >= 0 by {
      assert page - 1 >= 0;
    }
    var p := Pages(|items|, limit);
    if page <= p {
      assert (page - 1) * limit <= (p - 1) * limit by {
        MultiplyMonotone(page - 1, p - 1, limit);
      }
    } else {
      assert p * limit <= (page - 1) * limit by {
        MultiplyMonotone(p, page - 1, limit);
      }
    }
  }

  /** Multiplying by a positive number keeps the order. */
  lemma MultiplyMonotone(a: int, b: int, k: int)
    requires a <= b && k > 0
    ensures a * k <= b * k
  {
  }

  /** Every item of a non-empty list lies on exactly one page of the
      advertised range: item `i` is on page `i / limit + 1`. */
  lemma ItemOnItsPage<T>(items: seq<T>, limit: int, i: nat)
    requires limit > 0 && i < |items|
    ensures var page := i / limit + 1;
      && 1 <= page <= Pages(|items|, limit)
      && Skip(page, limit) <= i < Skip(page, limit) + limit
  {
    var page := i / limit + 1;
    assert Skip(page, limit) == (i / limit) * limit;
    assert (i / limit) * limit + i % limit == i;
    PageWithinCount(items, page, limit);
  }

  /** A window of a list drawn from `t` is drawn from `t`: no element more
      often than `t` holds it. */
  lemma WindowWithin<T>(s: seq<T>, t: seq<T>, skip: int, limit: int)
    requires multiset(s) <= multiset(t)
    ensures Window(s, skip, limit).Ok? ==> multiset(Window(s, skip, limit).value) <= multiset(t)
  {
  }

  /** A window of a sorted list is sorted and holds only elements of the list. */
  lemma WindowOfSorted<T>(s: seq<T>, key: T -> int, skip: int, limit: int)
    requires Seqs.SortedDesc(s, key)
    ensures Window(s, skip, limit).Ok? ==>
      var w := Window(s, skip, limit).value;
      && Seqs.SortedDesc(w, key)
      && (forall i :: 0 <= i < |w| ==> w[i] in s)
      && (limit > 0 ==> |w| <= limit)
  {
    if 0 <= skip < |s| {
      var w := Window(s, skip, limit).value;
      var n := if limit == 0 then |s| - skip else if limit > 0 then limit else -limit;
      var end := if skip + n < |s| then skip + n else |s|;
      assert forall i :: 0 <= i < |w| ==> w[i] == s[skip + i];
    }
  }

  /** A page of a sorted list whose elements all satisfy `p` and come from
      `all`: it is sorted, its elements satisfy `p` and come from `all`, it
      holds no element more often than `all`, and it is at most `limit`
      long. */
  lemma WindowFacts<T>(all: seq<T>, s: seq<T>, p: T -> bool, key: T -> int, skip: int, limit: int)
    requires Seqs.SortedDesc(s, key)
    requires forall i :: 0 <= i < |s| ==> p(s[i]) && s[i] in all
    requires multiset(s) <= multiset(all)
    ensures Window(s, skip, limit).Ok? ==>
      var w := Window(s, skip, limit).value;
      && Seqs.SortedDesc(w, key)
      && (forall i :: 0 <= i < |w| ==> p(w[i]) && w[i] in all)
      && multiset(w) <= multiset(all)
      && (limit > 0 ==> |w| <= limit)
  {
    WindowOfSorted(s, key, skip, limit);
    WindowWithin(s, all, skip, limit);
    if Window(s, skip, limit).Ok? {
      Seqs.MembersInherit(Window(s, skip, limit).value, s, p, all);
    }
  }
}
