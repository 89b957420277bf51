/**
  The two-way, order-preserving partition that `SplitInner` performs: every
  input element is appended, in input order, to one of two outputs chosen by
  a per-element side flag (`true` = the `lte` output, `false` = `gt`).
*/
module Partition {

  /** The elements of `xs` whose flag equals `side`, in input order. */
  function Select(xs: seq<int>, keep: seq<bool>, side: bool): (r: seq<int>)
    requires |keep| == |xs|
    ensures |r| <= |xs|
    decreases |xs|
  {
    if xs == [] then []
    else
      var n := |xs| - 1;
      Select(xs[..n], keep[..n], side) + (if keep[n] == side then [xs[n]] else [])
  }

  /** The input positions whose flag equals `side`, in input order. */
  function Positions(keep: seq<bool>, side: bool): (pos: seq<nat>)
    ensures |pos| <= |keep|
    ensures forall j :: 0 <= j < |pos| ==> pos[j] < |keep| && keep[pos[j]] == side
    decreases |keep|
  {
    if keep == [] then []
    else
      var n := |keep| - 1;
      Positions(keep[..n], side) + (if keep[n] == side then [n] else [])
  }

  /** Partitioning a concatenation partitions each part. */
  lemma {:induction false} SelectAppend(xs: seq<int>, ys: seq<int>, kx: seq<bool>, ky: seq<bool>, side: bool)
    requires |kx| == |xs| && |ky| == |ys|
    ensures Select(xs + ys, kx + ky, side) == Select(xs, kx, side) + Select(ys, ky, side)
    decreases |ys|
  {
    if ys == [] {
      assert xs + ys == xs && kx + ky == kx;
    } else {
      var n := |ys| - 1;
      var m := |xs + ys| - 1;
      assert (xs + ys)[..m] == xs + ys[..n];
      assert (kx + ky)[..m] == kx + ky[..n];
      SelectAppend(xs, ys[..n], kx, ky[..n], side);
    }
  }

  /** Extending the input by one element extends one output by that element;
      an output of a prefix is never longer than the output of the whole. */
  lemma SelectPrefixStep(xs: seq<int>, keep: seq<bool>, i: nat, side: bool)
    requires |keep| == |xs| && i < |xs|
    ensures Select(xs[..i + 1], keep[..i + 1], side) ==
      Select(xs[..i], keep[..i], side) + (if keep[i] == side then [xs[i]] else [])
    ensures |Select(xs[..i + 1], keep[..i + 1], side)| <= |Select(xs, keep, side)|
  {
    assert xs[..i + 1][..i] == xs[..i] && keep[..i + 1][..i] == keep[..i];
    assert xs == xs[..i + 1] + xs[i + 1..] && keep == keep[..i + 1] + keep[i + 1..];
    SelectAppend(xs[..i + 1], xs[i + 1..], keep[..i + 1], keep[i + 1..], side);
  }

  /** The two outputs together are exactly as long as the input. */
  lemma {:induction false} SelectLengths(xs: seq<int>, keep: seq<bool>)
    requires |keep| == |xs|
    ensures |Select(xs, keep, true)| + |Select(xs, keep, false)| == |xs|
    decreases |xs|
  {
    if xs != [] {
      var n := |xs| - 1;
      SelectLengths(xs[..n], keep[..n]);
    }
  }

  /** Every element lands in exactly one output: together the two outputs
      are a permutation of the input. */
  lemma {:induction false} SelectPermutation(xs: seq<int>, keep: seq<bool>)
    requires |keep| == |xs|
    ensures multiset(Select(xs, keep, true)) + multiset(Select(xs, keep, false)) == multiset(xs)
    decreases |xs|
  {
    if xs != [] {
      var n := |xs| - 1;
      SelectPermutation(xs[..n], keep[..n]);
      assert xs == xs[..n] + [xs[n]];
    }
  }

  /** The positions of one side are listed in strictly increasing order and
      include every position whose flag is that side. */
  lemma {:induction false} PositionsIncreasing(keep: seq<bool>, side: bool)
    ensures forall j1, j2 :: 0 <= j1 < j2 < |Positions(keep, side)| ==>
      Positions(keep, side)[j1] < Positions(keep, side)[j2]
    ensures forall k :: 0 <= k < |keep| && keep[k] == side ==> k in Positions(keep, side)
    decreases |keep|
  {
    if keep != [] {
      var n := |keep| - 1;
      PositionsIncreasing(keep[..n], side);
      forall k | 0 <= k < n && keep[k] == side
        ensures k in Positions(keep[..n], side)
      {
        assert keep[..n][k] == side;
      }
    }
  }

  /** Each output keeps input order: its j-th element is the input element
      at the j-th position of that side. */
  lemma {:induction false} SelectStable(xs: seq<int>, keep: seq<bool>, side: bool)
    requires |keep| == |xs|
    ensures |Positions(keep, side)| == |Select(xs, keep, side)|
    ensures forall j :: 0 <= j < |Select(xs, keep, side)| ==>
      Select(xs, keep, side)[j] == xs[Positions(keep, side)[j]]
    decreases |xs|
  {
    if xs != [] {
      var n := |xs| - 1;
      SelectStable(xs[..n], keep[..n], side);
      var r, pre := Select(xs[..n], keep[..n], side), Positions(keep[..n], side);
      forall j | 0 <= j < |r|
        ensures r[j] == xs[pre[j]]
      {
        assert r[j] == xs[..n][pre[j]];
      }
    }
  }

  /** The element at position `k` is found in the output its flag names. */
  lemma {:induction false} SelectMember(xs: seq<int>, keep: seq<bool>, k: nat)
    requires |keep| == |xs| && k < |xs|
    ensures xs[k] in Select(xs, keep, keep[k])
  {
    SelectStable(xs, keep, keep[k]);
    PositionsIncreasing(keep, keep[k]);
    var pos := Positions(keep, keep[k]);
    var j :| 0 <= j < |pos| && pos[j] == k;
    assert Select(xs, keep, keep[k])[j] == xs[k];
  }

  /** The state after the first `i` elements have been appended: each
      output buffer begins with its side of `xs[..i]`, in input order, and is
      unchanged (from `lte0`/`gt0`) past its written prefix. */
  ghost predicate Placed(lte: seq<int>, gt: seq<int>, lteCount: int, gtCount: int,
                         xs: seq<int>, keep: seq<bool>, i: int, lte0: seq<int>, gt0: seq<int>)
  {
    && 0 <= i <= |xs| == |keep|
    && 0 <= lteCount <= |lte| == |lte0| && 0 <= gtCount <= |gt| == |gt0|
    && lteCount + gtCount == i
    && lte[..lteCount] == Select(xs[..i], keep[..i], true)
    && gt[..gtCount] == Select(xs[..i], keep[..i], false)
    && lte[lteCount..] == lte0[lteCount..]
    && gt[gtCount..] == gt0[gtCount..]
  }
}
