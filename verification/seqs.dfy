/**
 The two list idioms the code is built from: the comprehension
 `[x for x in xs if keep(x)]` (Filter) and the loop that returns the first
 element with a matching key, or None (FirstIndex / First).
 */
module Seqs {
  import opened Wrappers

  /** `a` is what remains of `b` after deleting some elements; the order of the rest is kept. */
  ghost predicate Subseq<T>(a: seq<T>, b: seq<T>)
    decreases |b|
  {
    a == [] || (b != [] && ((a[0] == b[0] && Subseq(a[1..], b[1..])) || Subseq(a, b[1..])))
  }

  /**
   `[x for x in xs if keep(x)]`: keeps every occurrence of every element that
   satisfies `keep`, drops every other one, and does not reorder.
   */
  function Filter<T(!new)>(xs: seq<T>, keep: T -> bool): (r: seq<T>)
    ensures |r| <= |xs|
    ensures Subseq(r, xs)
    ensures forall x :: multiset(r)[x] == if keep(x) then multiset(xs)[x] else 0
    ensures forall x :: x in r <==> x in xs && keep(x)
  {
    if xs == [] then []
    else
      var rest := Filter(xs[1..], keep);
      assert xs == [xs[0]] + xs[1..];
      if keep(xs[0]) then
        assert ([xs[0]] + rest)[1..] == rest;
        [xs[0]] + rest
      else
        rest
  }

  /** Filtering distributes over concatenation. */
  lemma {:induction false} FilterAppend<T(!new)>(xs: seq<T>, ys: seq<T>, keep: T -> bool)
    ensures Filter(xs + ys, keep) == Filter(xs, keep) + Filter(ys, keep)
  {
    if xs == [] {
      assert xs + ys == ys;
    } else {
      assert (xs + ys)[1..] == xs[1..] + ys;
      FilterAppend(xs[1..], ys, keep);
    }
  }

  /** When every element is kept, filtering is the identity. */
  lemma {:induction false} FilterKeepsAll<T(!new)>(xs: seq<T>, keep: T -> bool)
    requires forall k :: 0 <= k < |xs| ==> keep(xs[k])
    ensures Filter(xs, keep) == xs
  {
    if xs != [] {
      FilterKeepsAll(xs[1..], keep);
    }
  }

  /** A relation that holds between every earlier and later element still holds after filtering. */
  lemma {:induction false} FilterPairwise<T(!new)>(xs: seq<T>, keep: T -> bool, ok: (T, T) -> bool)
    requires forall i, j :: 0 <= i < j < |xs| ==> ok(xs[i], xs[j])
    ensures forall i, j :: 0 <= i < j < |Filter(xs, keep)| ==> ok(Filter(xs, keep)[i], Filter(xs, keep)[j])
  {
    if xs != [] {
      var tail := xs[1..];
      forall i, j | 0 <= i < j < |tail|
        ensures ok(tail[i], tail[j])
      {
        assert tail[i] == xs[i + 1] && tail[j] == xs[j + 1];
      }
      FilterPairwise(tail, keep, ok);
      if keep(xs[0]) {
        forall y | y in tail
          ensures ok(xs[0], y)
        {
          var m :| 0 <= m < |tail| && tail[m] == y;
          assert xs[m + 1] == y;
        }
        PairwiseCons(xs[0], Filter(tail, keep), ok);
        assert Filter(xs, keep) == [xs[0]] + Filter(tail, keep);
      }
    }
  }

  /** Prepending an element related to every later one keeps a sequence pairwise related. */
  lemma PairwiseCons<T>(x: T, rest: seq<T>, ok: (T, T) -> bool)
    requires forall i, j :: 0 <= i < j < |rest| ==> ok(rest[i], rest[j])
    requires forall y :: y in rest ==> ok(x, y)
    ensures forall i, j :: 0 <= i < j < |[x] + rest| ==> ok(([x] + rest)[i], ([x] + rest)[j])
  {
    var r := [x] + rest;
    forall i, j | 0 <= i < j < |r|
      ensures ok(r[i], r[j])
    {
      if i == 0 {
        assert r[j] == rest[j - 1];
      } else {
        assert r[i] == rest[i - 1] && r[j] == rest[j - 1];
      }
    }
  }

  /** Position of the first element of `xs` that `matches`, if any. */
  function FirstIndex<T>(xs: seq<T>, matches: T -> bool): (r: Option<nat>)
    ensures r.None? <==> forall k :: 0 <= k < |xs| ==> !matches(xs[k])
    ensures r.Some? ==> r.value < |xs| && matches(xs[r.value])
    ensures r.Some? ==> forall k :: 0 <= k < r.value ==> !matches(xs[k])
  {
    if xs == [] then None
    else if matches(xs[0]) then Some(0)
    else
      match FirstIndex(xs[1..], matches)
      case None => None
      case Some(i) => Some(i + 1)
  }

  /** `for x in xs: if matches(x): return x` followed by `return None`. */
  function First<T>(xs: seq<T>, matches: T -> bool): (r: Option<T>)
    ensures r.None? <==> forall k :: 0 <= k < |xs| ==> !matches(xs[k])
    ensures r.Some? ==> exists k :: 0 <= k < |xs| && xs[k] == r.value && matches(r.value)
                                    && forall j :: 0 <= j < k ==> !matches(xs[j])
  {
    match FirstIndex(xs, matches)
    case None => None
    case Some(i) => Some(xs[i])
  }
}
