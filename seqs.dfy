/** The list idioms the components use on their React state arrays:
    `filter`, `map`, `[...xs, x]`, and the page slice of a paginated view. */
module Seqs {

  /** `xs.filter(p)`. */
  function Filter<T>(xs: seq<T>, p: T -> bool): (r: seq<T>)
    ensures |r| <= |xs|
  {
    if xs == [] then []
    else (if p(xs[0]) then [xs[0]] else []) + Filter(xs[1..], p)
  }

  /** A filter keeps exactly the elements that pass its test. */
  lemma {:induction false} FilterMembers<T>(xs: seq<T>, p: T -> bool)
    ensures forall x :: x in Filter(xs, p) <==> x in xs && p(x)
  {
    if xs != [] {
      FilterMembers(xs[1..], p);
      assert forall x :: x in xs <==> x == xs[0] || x in xs[1..];
    }
  }

  /** `a` is `b` with some elements left out, the rest in their original order. */
  predicate IsSubsequence<T(==)>(a: seq<T>, b: seq<T>)
    decreases |b|
  {
    if a == [] then true
    else if b == [] then false
    else (a[0] == b[0] && IsSubsequence(a[1..], b[1..])) || IsSubsequence(a, b[1..])
  }

  /** A filter keeps its survivors in their original order. */
  lemma {:induction false} FilterIsSubsequence<T>(xs: seq<T>, p: T -> bool)
    ensures IsSubsequence(Filter(xs, p), xs)
  {
    if xs != [] {
      FilterIsSubsequence(xs[1..], p);
      if p(xs[0]) {
        assert Filter(xs, p) == [xs[0]] + Filter(xs[1..], p);
        assert Filter(xs, p)[1..] == Filter(xs[1..], p);
      } else {
        assert Filter(xs, p) == Filter(xs[1..], p);
      }
    }
  }

  /** A filter whose test holds everywhere returns the list unchanged. */
  lemma {:induction false} FilterAll<T>(xs: seq<T>, p: T -> bool)
    requires forall x :: x in xs ==> p(x)
    ensures Filter(xs, p) == xs
  {
    if xs != [] {
      FilterAll(xs[1..], p);
    }
  }

  /** A filter whose test holds nowhere returns nothing. */
  lemma {:induction false} FilterNone<T>(xs: seq<T>, p: T -> bool)
    requires forall x :: x in xs ==> !p(x)
    ensures Filter(xs, p) == []
  {
    if xs != [] {
      FilterNone(xs[1..], p);
    }
  }

  /** A filter keeps every occurrence of an element that passes and none of
      one that fails. */
  lemma {:induction false} FilterMultiset<T>(xs: seq<T>, p: T -> bool)
    ensures forall x :: multiset(Filter(xs, p))[x] == if p(x) then multiset(xs)[x] else 0
  {
    if xs != [] {
      FilterMultiset(xs[1..], p);
      assert xs == [xs[0]] + xs[1..];
    }
  }

  /** Two filters in a row are one filter with both tests. */
  lemma {:induction false} FilterFilter<T>(xs: seq<T>, p: T -> bool, q: T -> bool, r: T -> bool)
    requires forall x :: r(x) == (p(x) && q(x))
    ensures Filter(Filter(xs, p), q) == Filter(xs, r)
  {
    if xs != [] {
      FilterFilter(xs[1..], p, q, r);
      if p(xs[0]) {
        var f := Filter(xs, p);
        assert f == [xs[0]] + Filter(xs[1..], p);
        assert f[0] == xs[0] && f[1..] == Filter(xs[1..], p);
        assert Filter(f, q) == (if q(xs[0]) then [xs[0]] else []) + Filter(Filter(xs[1..], p), q);
      } else {
        assert Filter(xs, p) == Filter(xs[1..], p);
      }
    }
  }

  lemma {:induction false} FilterConcat<T>(xs: seq<T>, ys: seq<T>, p: T -> bool)
    ensures Filter(xs + ys, p) == Filter(xs, p) + Filter(ys, p)
  {
    if xs == [] {
      assert xs + ys == ys;
    } else {
      var zs := xs + ys;
      assert zs[0] == xs[0] && zs[1..] == xs[1..] + ys;
      FilterConcat(xs[1..], ys, p);
      var head := if p(xs[0]) then [xs[0]] else [];
      assert Filter(zs, p) == head + Filter(zs[1..], p);
      assert Filter(xs, p) == head + Filter(xs[1..], p);
    }
  }

  /** A filter whose test holds at every index returns the list unchanged. */
  lemma {:induction false} FilterKeepsAll<T>(xs: seq<T>, p: T -> bool)
    requires forall i :: 0 <= i < |xs| ==> p(xs[i])
    ensures Filter(xs, p) == xs
  {
    if xs != [] {
      FilterKeepsAll(xs[1..], p);
    }
  }

  lemma FilterDropsHead<T>(x: T, xs: seq<T>, p: T -> bool)
    requires !p(x)
    ensures Filter([x] + xs, p) == Filter(xs, p)
  {
    assert ([x] + xs)[0] == x && ([x] + xs)[1..] == xs;
  }

  lemma FilterAround<T>(xs: seq<T>, p: T -> bool, k: nat)
    requires k < |xs|
    ensures Filter(xs, p) == Filter(xs[..k], p) + Filter([xs[k]] + xs[k + 1..], p)
  {
    var a, b := xs[..k], xs[k + 1..];
    assert xs == a + ([xs[k]] + b);
    FilterConcat(a, [xs[k]] + b, p);
  }

  lemma FilterKeepsSuffix<T>(xs: seq<T>, p: T -> bool, k: nat)
    requires k < |xs|
    requires forall i :: k < i < |xs| ==> p(xs[i])
    ensures Filter(xs[k + 1..], p) == xs[k + 1..]
  {
    var b := xs[k + 1..];
    assert forall i :: 0 <= i < |b| ==> b[i] == xs[k + 1 + i];
    FilterKeepsAll(b, p);
  }

  /** A filter that rejects exactly one element removes just that one. */
  lemma FilterDropsOne<T>(xs: seq<T>, p: T -> bool, k: nat)
    requires k < |xs| && !p(xs[k])
    requires forall i :: 0 <= i < |xs| && i != k ==> p(xs[i])
    ensures Filter(xs, p) == xs[..k] + xs[k + 1..]
  {
    FilterAround(xs, p, k);
    FilterKeepsAll(xs[..k], p);
    FilterKeepsSuffix(xs, p, k);
    FilterDropsHead(xs[k], xs[k + 1..], p);
  }

  /** `xs.map(f)`. */
  function Map<T, U>(xs: seq<T>, f: T -> U): (r: seq<U>)
    ensures |r| == |xs|
    ensures forall i :: 0 <= i < |xs| ==> r[i] == f(xs[i])
  {
    if xs == [] then [] else [f(xs[0])] + Map(xs[1..], f)
  }

  // ---------------------------------------------------------------------
  // Pagination: page p (from 1) of a list shown k items per page is
  // `list.slice((p - 1) * k, p * k)`; the pager counts `Math.ceil(n / k)` pages.

  function Min(a: int, b: int): int { if a <= b then a else b }

  /** `xs.slice(start, end)` for non-negative bounds: both are clamped to the length. */
  function Slice<T>(xs: seq<T>, start: nat, end: nat): (r: seq<T>)
    ensures |r| <= |xs|
  {
    var s := Min(start, |xs|);
    var e := Min(end, |xs|);
    if s <= e then xs[s..e] else []
  }

  function Page<T>(xs: seq<T>, page: nat, perPage: nat): (r: seq<T>)
    requires page >= 1
  {
    Slice(xs, (page - 1) * perPage, page * perPage)
  }

  function TotalPages(n: nat, perPage: nat): nat
    requires perPage > 0
  {
    (n + perPage - 1) / perPage
  }

  lemma MulMonotone(a: nat, b: nat, k: nat)
    requires a <= b
    ensures a * k <= b * k
  {
  }

  /** `TotalPages` pages of `perPage` items cover the list, and one page fewer
      does not. */
  lemma CeilFacts(n: nat, perPage: nat)
    requires perPage > 0
    ensures TotalPages(n, perPage) * perPage >= n
    ensures TotalPages(n, perPage) > 0 ==> (TotalPages(n, perPage) - 1) * perPage < n
  {
    var t := TotalPages(n, perPage);
    var r := (n + perPage - 1) % perPage;
    assert n + perPage - 1 == t * perPage + r;
    assert 0 <= r < perPage;
    if t > 0 {
      assert (t - 1) * perPage == t * perPage - perPage;
    }
  }

  /** A page never holds more than `perPage` items, and a page in
      1..TotalPages is never empty, while every later page is. */
  lemma PageSize<T>(xs: seq<T>, page: nat, perPage: nat)
    requires page >= 1 && perPage > 0
    ensures |Page(xs, page, perPage)| <= perPage
    ensures page <= TotalPages(|xs|, perPage) ==> |Page(xs, page, perPage)| > 0
    ensures page > TotalPages(|xs|, perPage) ==> Page(xs, page, perPage) == []
  {
    var t := TotalPages(|xs|, perPage);
    CeilFacts(|xs|, perPage);
    assert page * perPage == (page - 1) * perPage + perPage;
    if page <= t {
      MulMonotone(page - 1, t - 1, perPage);
    } else {
      MulMonotone(t, page - 1, perPage);
    }
  }

  /** Pages 1..m laid end to end. */
  function Pages<T>(xs: seq<T>, m: nat, perPage: nat): seq<T>
  {
    if m == 0 then [] else Pages(xs, m - 1, perPage) + Page(xs, m, perPage)
  }

  lemma {:induction false} PagesPrefix<T>(xs: seq<T>, m: nat, perPage: nat)
    ensures Pages(xs, m, perPage) == xs[..Min(m * perPage, |xs|)]
  {
    if m > 0 {
      PagesPrefix(xs, m - 1, perPage);
      assert m * perPage == (m - 1) * perPage + perPage;
    }
  }

  /** The pages the pager offers partition the list: laid end to end they
      give the list back. */
  lemma PagesPartition<T>(xs: seq<T>, perPage: nat)
    requires perPage > 0
    ensures Pages(xs, TotalPages(|xs|, perPage), perPage) == xs
  {
    var t := TotalPages(|xs|, perPage);
    PagesPrefix(xs, t, perPage);
    CeilFacts(|xs|, perPage);
  }
}
