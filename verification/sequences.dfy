/** Folds and filters over sequences shared by the ledger and the recipe model. */
module Sequences {
  import opened Results

  /** The sum of a sequence, added up from the front. */
  function Sum(xs: seq<int>): int
  {
    if |xs| == 0 then 0 else xs[0] + Sum(xs[1..])
  }

  /** Left fold of `+` seeded with `acc`. */
  function FoldAdd(acc: int, xs: seq<int>): int
    decreases |xs|
  {
    if |xs| == 0 then acc else FoldAdd(acc + xs[0], xs[1..])
  }

  lemma {:induction false} FoldAddIsSum(acc: int, xs: seq<int>)
    ensures FoldAdd(acc, xs) == acc + Sum(xs)
    decreases |xs|
  {
    if |xs| > 0 {
      FoldAddIsSum(acc + xs[0], xs[1..]);
    }
  }

  /** `xs.reduce((prev, curr) => prev + curr)` without an initial value: the first
      element seeds a left fold over the rest, and an empty array has nothing to
      seed with, which JavaScript reports by throwing. */
  function ReduceAdd(xs: seq<int>): (r: Option<int>)
    ensures r.None? <==> |xs| == 0
    ensures r.Some? ==> r.value == Sum(xs)
  {
    if |xs| == 0 then None
    else
      FoldAddIsSum(xs[0], xs[1..]);
      Some(FoldAdd(xs[0], xs[1..]))
  }

  /** `Array.prototype.filter`: the elements satisfying `keep`, in their original order. */
  function Filter<T(==)>(xs: seq<T>, keep: T -> bool): (r: seq<T>)
    ensures |r| <= |xs|
    ensures forall i :: 0 <= i < |r| ==> r[i] in xs && keep(r[i])
    ensures forall i :: 0 <= i < |xs| && keep(xs[i]) ==> xs[i] in r
  {
    if |xs| == 0 then []
    else (if keep(xs[0]) then [xs[0]] else []) + Filter(xs[1..], keep)
  }

  /** Filtering distributes over concatenation, so it never reorders what it keeps. */
  lemma {:induction false} FilterConcat<T>(a: seq<T>, b: seq<T>, keep: T -> bool)
    ensures Filter(a + b, keep) == Filter(a, keep) + Filter(b, keep)
  {
    if |a| == 0 {
      assert a + b == b;
    } else {
      assert (a + b)[0] == a[0];
      assert (a + b)[1..] == a[1..] + b;
      FilterConcat(a[1..], b, keep);
    }
  }

  /** A single element is kept exactly once or dropped; with `FilterConcat` this
      fixes the filter of every sequence, multiplicities included. */
  lemma FilterOne<T>(x: T, keep: T -> bool)
    ensures Filter([x], keep) == if keep(x) then [x] else []
  {
    assert [x][1..] == [];
  }

  /** A sequence all of whose elements pass the test is its own filter. */
  lemma {:induction false} FilterKeepsAll<T>(xs: seq<T>, keep: T -> bool)
    requires forall i :: 0 <= i < |xs| ==> keep(xs[i])
    ensures Filter(xs, keep) == xs
  {
    if |xs| > 0 {
      FilterKeepsAll(xs[1..], keep);
      assert [xs[0]] + xs[1..] == xs;
    }
  }

  lemma FilterIdempotent<T>(xs: seq<T>, keep: T -> bool)
    ensures Filter(Filter(xs, keep), keep) == Filter(xs, keep)
  {
    FilterKeepsAll(Filter(xs, keep), keep);
  }
}
