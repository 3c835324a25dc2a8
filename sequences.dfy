/** `Array.prototype.filter` with a criterion: the order-preserving sublist of the elements that
    `keep` accepts together with the criterion `c` (a search term, a group key). */
module Sequences {

  /** The filter of the first `n` elements. */
  function FilterUpTo<T, C>(xs: seq<T>, c: C, keep: (T, C) -> bool, n: nat): (r: seq<T>)
    requires n <= |xs|
    ensures |r| <= n
  {
    if n == 0 then []
    else FilterUpTo(xs, c, keep, n - 1) + (if keep(xs[n - 1], c) then [xs[n - 1]] else [])
  }

  function Filter<T, C>(xs: seq<T>, c: C, keep: (T, C) -> bool): (r: seq<T>)
    ensures |r| <= |xs|
  {
    FilterUpTo(xs, c, keep, |xs|)
  }

  lemma {:induction false} FilterUpToMembers<T, C>(xs: seq<T>, c: C, keep: (T, C) -> bool, n: nat)
    requires n <= |xs|
    ensures forall x :: x in FilterUpTo(xs, c, keep, n) <==> (exists i :: 0 <= i < n && xs[i] == x) && keep(x, c)
  {
    if n > 0 {
      FilterUpToMembers(xs, c, keep, n - 1);
    }
  }

  /** An element is in the filter of the first `n` exactly when one of them is it and it is accepted. */
  lemma {:induction false} FilterUpToMember<T, C>(xs: seq<T>, c: C, keep: (T, C) -> bool, n: nat, x: T)
    requires n <= |xs|
    ensures x in FilterUpTo(xs, c, keep, n) <==> (exists i :: 0 <= i < n && xs[i] == x) && keep(x, c)
  {
    FilterUpToMembers(xs, c, keep, n);
  }

  /** The filter holds exactly the accepted elements. */
  lemma {:induction false} FilterMembers<T, C>(xs: seq<T>, c: C, keep: (T, C) -> bool)
    ensures forall x :: x in Filter(xs, c, keep) <==> x in xs && keep(x, c)
  {
    FilterUpToMembers(xs, c, keep, |xs|);
  }

  lemma {:induction false} FilterUpToPrefix<T, C>(a: seq<T>, b: seq<T>, c: C, keep: (T, C) -> bool, n: nat)
    requires n <= |a|
    ensures FilterUpTo(a + b, c, keep, n) == FilterUpTo(a, c, keep, n)
  {
    if n > 0 {
      FilterUpToPrefix(a, b, c, keep, n - 1);
      assert (a + b)[n - 1] == a[n - 1];
    }
  }

  lemma {:induction false} FilterUpToShift<T, C>(a: seq<T>, b: seq<T>, c: C, keep: (T, C) -> bool, m: nat)
    requires m <= |b|
    ensures FilterUpTo(a + b, c, keep, |a| + m) == Filter(a, c, keep) + FilterUpTo(b, c, keep, m)
  {
    if m == 0 {
      FilterUpToPrefix(a, b, c, keep, |a|);
    } else {
      FilterUpToShift(a, b, c, keep, m - 1);
      assert (a + b)[|a| + m - 1] == b[m - 1];
    }
  }

  /** Filtering keeps the order: the filter of a concatenation is the concatenation of the
      filters. With `FilterOfOne` this determines the filter completely. */
  lemma {:induction false} FilterAppend<T, C>(a: seq<T>, b: seq<T>, c: C, keep: (T, C) -> bool)
    ensures Filter(a + b, c, keep) == Filter(a, c, keep) + Filter(b, c, keep)
  {
    FilterUpToShift(a, b, c, keep, |b|);
  }

  lemma FilterOfOne<T, C>(x: T, c: C, keep: (T, C) -> bool)
    ensures Filter([x], c, keep) == if keep(x, c) then [x] else []
  {
  }
}
