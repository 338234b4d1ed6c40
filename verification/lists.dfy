/** `Array.prototype.filter` on lists, shared by the service toggle of the contact
    form and the project queries. */
module Lists {

  /** `a` is `b` with some elements left out, the rest kept in order. */
  ghost predicate IsSubsequence<T>(a: seq<T>, b: seq<T>)
    decreases |b|
  {
    |a| == 0 || (|b| > 0 && ((a[0] == b[0] && IsSubsequence(a[1..], b[1..])) || IsSubsequence(a, b[1..])))
  }

  /** `xs.filter(keep)`: the elements that pass, in order. */
  function Filter<T(!new)>(xs: seq<T>, keep: T -> bool): (r: seq<T>)
    ensures |r| <= |xs|
    ensures forall x {:trigger x in r} :: x in r <==> x in xs && keep(x)
    decreases |xs|
  {
    if |xs| == 0 then []
    else if keep(xs[0]) then [xs[0]] + Filter(xs[1..], keep)
    else Filter(xs[1..], keep)
  }

  /** Each passing element is kept as often as it occurs; the others are dropped. */
  lemma {:induction false} FilterCounts<T(!new)>(xs: seq<T>, keep: T -> bool)
    ensures forall x {:trigger multiset(Filter(xs, keep))[x]} :: multiset(Filter(xs, keep))[x] == if keep(x) then multiset(xs)[x] else 0
    decreases |xs|
  {
    if |xs| > 0 {
      assert xs == [xs[0]] + xs[1..];
      FilterCounts(xs[1..], keep);
    }
  }

  /** The result keeps the order of the input. */
  lemma {:induction false} FilterIsSubsequence<T(!new)>(xs: seq<T>, keep: T -> bool)
    ensures IsSubsequence(Filter(xs, keep), xs)
    decreases |xs|
  {
    if |xs| > 0 {
      FilterIsSubsequence(xs[1..], keep);
      var rest := Filter(xs[1..], keep);
      if keep(xs[0]) {
        assert ([xs[0]] + rest)[1..] == rest;
      }
    }
  }

  /** Filtering with a predicate and with its negation splits the list in two. */
  lemma FilterPartition<T(!new)>(xs: seq<T>, keep: T -> bool, drop: T -> bool)
    requires forall x :: drop(x) == !keep(x)
    ensures multiset(Filter(xs, keep)) + multiset(Filter(xs, drop)) == multiset(xs)
    ensures |Filter(xs, keep)| + |Filter(xs, drop)| == |xs|
    ensures forall x :: x in xs ==> (x in Filter(xs, keep) <==> x !in Filter(xs, drop))
  {
    FilterCounts(xs, keep);
    FilterCounts(xs, drop);
    var a, b := multiset(Filter(xs, keep)), multiset(Filter(xs, drop));
    assert forall x :: (a + b)[x] == multiset(xs)[x];
    assert a + b == multiset(xs);
    assert |a + b| == |multiset(xs)|;
  }

  /** Filtering a concatenation filters each part. */
  lemma {:induction false} FilterAppend<T(!new)>(a: seq<T>, b: seq<T>, keep: T -> bool)
    ensures Filter(a + b, keep) == Filter(a, keep) + Filter(b, keep)
    decreases |a|
  {
    if |a| == 0 {
      assert a + b == b;
    } else {
      assert (a + b)[1..] == a[1..] + b;
      FilterAppend(a[1..], b, keep);
    }
  }

  /** When every element passes, the filter returns the list itself. */
  lemma {:induction false} FilterKeepsAll<T(!new)>(xs: seq<T>, keep: T -> bool)
    requires forall i :: 0 <= i < |xs| ==> keep(xs[i])
    ensures Filter(xs, keep) == xs
    decreases |xs|
  {
    if |xs| > 0 {
      assert xs == [xs[0]] + xs[1..];
      FilterKeepsAll(xs[1..], keep);
    }
  }

  /** When no element passes, the filter returns the empty list. */
  lemma {:induction false} FilterKeepsNone<T(!new)>(xs: seq<T>, keep: T -> bool)
    requires forall i :: 0 <= i < |xs| ==> !keep(xs[i])
    ensures Filter(xs, keep) == []
    decreases |xs|
  {
    if |xs| > 0 {
      FilterKeepsNone(xs[1..], keep);
    }
  }

  /** When exactly element `k` passes, the filter returns that element alone. */
  lemma {:induction false} FilterKeepsOne<T(!new)>(xs: seq<T>, keep: T -> bool, k: nat)
    requires k < |xs| && keep(xs[k])
    requires forall i :: 0 <= i < |xs| && i != k ==> !keep(xs[i])
    ensures Filter(xs, keep) == [xs[k]]
    decreases k
  {
    if k == 0 {
      assert forall i :: 0 <= i < |xs[1..]| ==> xs[1..][i] == xs[i + 1];
      FilterKeepsNone(xs[1..], keep);
    } else {
      FilterKeepsOne(xs[1..], keep, k - 1);
    }
  }
}
