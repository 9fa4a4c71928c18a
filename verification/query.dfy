/**
 * `Array.prototype.filter`: the order-preserving selection both search boxes
 * run on every keystroke, with the facts the pages rely on (the result is a
 * subsequence, the kept and dropped parts partition the input, re-filtering
 * changes nothing).
 */
module Query {

  /** `a` can be obtained from `b` by deleting elements (order is kept). */
  predicate IsSubsequence<T(==,!new)>(a: seq<T>, b: seq<T>)
    decreases |b|
  {
    if a == [] then true
    else if b == [] then false
    else if a[0] == b[0] then IsSubsequence(a[1..], b[1..])
    else IsSubsequence(a, b[1..])
  }

  /** `xs.filter(keep)`: exactly the elements that pass `keep`, in input order. */
  function Filter<T(==,!new)>(xs: seq<T>, keep: T -> bool): (r: seq<T>)
    ensures |r| <= |xs|
    ensures forall x :: x in r <==> x in xs && keep(x)
    decreases |xs|
  {
    if xs == [] then []
    else if keep(xs[0]) then [xs[0]] + Filter(xs[1..], keep)
    else Filter(xs[1..], keep)
  }

  /** What the filter makes of a single element: itself if it passes, nothing otherwise. */
  function Kept<T>(x: T, keep: T -> bool): (r: seq<T>)
    ensures |r| <= 1
  {
    if keep(x) then [x] else []
  }

  /** One step of the filter: the head is kept or dropped, then the tail is filtered. */
  lemma FilterUnfold<T(!new)>(xs: seq<T>, keep: T -> bool)
    requires xs != []
    ensures Filter(xs, keep) == Kept(xs[0], keep) + Filter(xs[1..], keep)
  {
  }

  /** The filter over a list of five, one element at a time. */
  lemma FilterFive<T(!new)>(xs: seq<T>, keep: T -> bool)
    requires |xs| == 5
    ensures Filter(xs, keep) ==
      Kept(xs[0], keep) + Kept(xs[1], keep) + Kept(xs[2], keep) + Kept(xs[3], keep) + Kept(xs[4], keep)
  {
    var p1 := [xs[0]];
    var p2 := p1 + [xs[1]];
    var p3 := p2 + [xs[2]];
    var p4 := p3 + [xs[3]];
    assert xs == p4 + [xs[4]];
    FilterSingle(xs[0], keep);
    FilterSingle(xs[1], keep);
    FilterSingle(xs[2], keep);
    FilterSingle(xs[3], keep);
    FilterSingle(xs[4], keep);
    FilterAppend(p1, [xs[1]], keep);
    FilterAppend(p2, [xs[2]], keep);
    FilterAppend(p3, [xs[3]], keep);
    FilterAppend(p4, [xs[4]], keep);
  }

  lemma FilterSingle<T(!new)>(x: T, keep: T -> bool)
    ensures Filter([x], keep) == Kept(x, keep)
  {
    FilterUnfold([x], keep);
    assert [x][1..] == [];
  }

  /** Filtering distributes over concatenation. */
  lemma {:induction false} FilterAppend<T(!new)>(a: seq<T>, b: seq<T>, keep: T -> bool)
    ensures Filter(a + b, keep) == Filter(a, keep) + Filter(b, keep)
    decreases |a|
  {
    if a == [] {
      assert a + b == b;
    } else {
      assert (a + b)[1..] == a[1..] + b;
      FilterAppend(a[1..], b, keep);
    }
  }

  /** The filtered list keeps the input's order: it is a subsequence of it. */
  lemma {:induction false} FilterIsSubsequence<T(!new)>(xs: seq<T>, keep: T -> bool)
    ensures IsSubsequence(Filter(xs, keep), xs)
    decreases |xs|
  {
    if xs != [] {
      FilterIsSubsequence(xs[1..], keep);
      if keep(xs[0]) {
        assert Filter(xs, keep) == [xs[0]] + Filter(xs[1..], keep);
        assert (Filter(xs, keep))[1..] == Filter(xs[1..], keep);
      } else {
        SubsequenceDropFront(Filter(xs, keep), xs);
      }
    }
  }

  /** Putting an element in front of `b` keeps every subsequence of `b`. */
  lemma {:induction false} SubsequenceDropFront<T(!new)>(a: seq<T>, b: seq<T>)
    requires b != []
    requires IsSubsequence(a, b[1..])
    ensures IsSubsequence(a, b)
    decreases |b|, 1
  {
    if a != [] && a[0] == b[0] {
      SubsequenceTail(a, b[1..]);
    }
  }

  /** Dropping the first element of a subsequence leaves a subsequence. */
  lemma {:induction false} SubsequenceTail<T(!new)>(a: seq<T>, b: seq<T>)
    requires a != []
    requires IsSubsequence(a, b)
    ensures IsSubsequence(a[1..], b)
    decreases |b|, 2
  {
    if a[0] == b[0] {
      if a[1..] != [] {
        SubsequenceTail(a[1..], b[1..]);
        SubsequenceDropFront(a[1..], b);
      }
    } else {
      SubsequenceTail(a, b[1..]);
      if a[1..] != [] {
        SubsequenceDropFront(a[1..], b);
      }
    }
  }

  /** A test every element passes keeps the whole list, order included. */
  lemma {:induction false} FilterKeepsAll<T(!new)>(xs: seq<T>, keep: T -> bool)
    requires forall x :: x in xs ==> keep(x)
    ensures Filter(xs, keep) == xs
    decreases |xs|
  {
    if xs != [] {
      FilterKeepsAll(xs[1..], keep);
    }
  }

  /** Filtering an already filtered list with the same test changes nothing. */
  lemma FilterIdempotent<T(!new)>(xs: seq<T>, keep: T -> bool)
    ensures Filter(Filter(xs, keep), keep) == Filter(xs, keep)
  {
    FilterKeepsAll(Filter(xs, keep), keep);
  }

  /** Two tests that agree on every element of `xs` select the same list. */
  lemma {:induction false} FilterCongruent<T(!new)>(xs: seq<T>, k1: T -> bool, k2: T -> bool)
    requires forall x :: x in xs ==> k1(x) == k2(x)
    ensures Filter(xs, k1) == Filter(xs, k2)
    decreases |xs|
  {
    if xs != [] {
      FilterCongruent(xs[1..], k1, k2);
    }
  }

  /** The kept and the dropped elements together are the input, counted with multiplicity. */
  lemma {:induction false} FilterPartition<T(!new)>(xs: seq<T>, keep: T -> bool)
    ensures multiset(Filter(xs, keep)) + multiset(Filter(xs, x => !keep(x))) == multiset(xs)
    decreases |xs|
  {
    if xs != [] {
      FilterPartition(xs[1..], keep);
      assert xs == [xs[0]] + xs[1..];
    }
  }

  /** Elements pairwise distinct. */
  predicate Distinct<T(==,!new)>(xs: seq<T>) {
    forall i, j :: 0 <= i < j < |xs| ==> xs[i] != xs[j]
  }

  /** Filtering a list without repetitions yields a list without repetitions. */
  lemma {:induction false} FilterDistinct<T(!new)>(xs: seq<T>, keep: T -> bool)
    requires Distinct(xs)
    ensures Distinct(Filter(xs, keep))
    decreases |xs|
  {
    if xs != [] {
      FilterDistinct(xs[1..], keep);
      if keep(xs[0]) {
        var r := Filter(xs, keep);
        assert r == [xs[0]] + Filter(xs[1..], keep);
        assert xs[0] !in xs[1..];
        forall i, j | 0 <= i < j < |r|
          ensures r[i] != r[j]
        {
          if i == 0 {
            assert r[j] in Filter(xs[1..], keep);
          } else {
            assert r[i] == Filter(xs[1..], keep)[i - 1];
            assert r[j] == Filter(xs[1..], keep)[j - 1];
          }
        }
      }
    }
  }
}
