/**
  Gradient histogram construction of the dense pairwise ranking bin,
  floating-point path (`ConstructHistogramInner` and the four
  `ConstructHistogram` entry points).

  A kernel walks the positions `[start, end)`, resolves each position to a
  pair (through `data_indices` or directly), the pair to its bin code `b`,
  and adds the position's gradient to histogram slot `2b`, and either its
  hessian to slot `2b + 1` or one to the counter overlaid on slot `2b + 1`.
  `hist_t` is modelled as `real` (no rounding), and the `hist_cnt_t`
  counters, which share memory with the odd slots, as a separate `int`
  array indexed by the same slot number.
*/
module Histogram {
  import opened Wrappers
  import opened PairwiseBin

  /** The compile-time kernel flags `USE_INDICES`, `USE_PREFETCH`, `USE_HESSIAN`. */
  datatype KernelFlags = KernelFlags(useIndices: bool, usePrefetch: bool, useHessian: bool)

  /** How a kernel turns positions into bin codes: through `data_indices`
      when `useIndices`, with the position itself as the pair otherwise. */
  datatype Walk = Walk(pb: DenseBin, useIndices: bool, dataIndices: seq<int>) {

    /** Position `i` resolves to a pair the bin can translate. */
    predicate PositionOk(i: int) {
      if useIndices then 0 <= i < |dataIndices| && pb.IsPair(dataIndices[i]) else pb.IsPair(i)
    }

    /** Every position of `[start, end)` resolves. */
    predicate Covers(start: int, end: int) {
      pb.Valid() && forall i :: start <= i < end ==> PositionOk(i)
    }

    /** The pair at position `i`: `USE_INDICES ? data_indices[i] : i`. */
    function PairAt(i: int): (pair: int)
      requires PositionOk(i)
      ensures 0 <= i && pb.IsPair(pair)
    {
      if useIndices then dataIndices[i] else i
    }

    /** The bin code at position `i`. */
    function BinAt(i: int): (b: nat)
      requires pb.Valid() && PositionOk(i)
      ensures b < pb.CodeLimit()
    {
      pb.BinOfPair(PairAt(i))
    }

    /** Every position of `[start, end)` has a bin below `bins`. */
    predicate BinsBelow(start: int, end: int, bins: nat)
      requires Covers(start, end)
    {
      forall i :: start <= i < end ==> BinAt(i) < bins
    }
  }

  /** The end of the positions a kernel over `[start, end)` visits: an
      empty or reversed range visits nothing. */
  function Stop(start: int, end: int): (s: int)
    ensures start <= s && (start < end ==> s == end) && (end <= start ==> s == start)
  {
    if start < end then end else start
  }

  /** The histogram buffer: the `hist_t` slots and the counters overlaid on them. */
  datatype Hist = Hist(sums: seq<real>, counts: seq<int>) {
    /** Room for `bins` bins, two slots each. */
    predicate Holds(bins: nat) {
      |counts| == |sums| && 2 * bins <= |sums|
    }
  }

  /** One position's contribution to bin `b`: `grad[2b] += g`, then
      `hess[2b] += hv` (slot `2b + 1`) or `++cnt[2b]` (the counter on slot
      `2b + 1`). */
  function AddToBin(h: Hist, b: nat, g: real, hv: real, useHessian: bool): (r: Hist)
    requires h.Holds(b + 1)
    ensures |r.sums| == |h.sums| && |r.counts| == |h.counts|
  {
    if useHessian then
      Hist(h.sums[2 * b := h.sums[2 * b] + g][2 * b + 1 := h.sums[2 * b + 1] + hv], h.counts)
    else
      Hist(h.sums[2 * b := h.sums[2 * b] + g], h.counts[2 * b + 1 := h.counts[2 * b + 1] + 1])
  }

  /** `AddToBin` slot by slot: only the two slots of bin `b` change, the
      even one by the gradient, the odd one by the hessian or, without
      hessians, its counter by one. */
  lemma AddToBinSlot(h: Hist, b: nat, g: real, hv: real, useHessian: bool, s: nat)
    requires h.Holds(b + 1) && s < |h.sums|
    ensures AddToBin(h, b, g, hv, useHessian).sums[s] == h.sums[s] +
      (if s / 2 != b then 0.0 else if s % 2 == 0 then g else if useHessian then hv else 0.0)
    ensures AddToBin(h, b, g, hv, useHessian).counts[s] == h.counts[s] +
      (if s / 2 == b && s % 2 == 1 && !useHessian then 1 else 0)
  {
  }

  /** The inputs a float kernel reads besides the buffer. */
  datatype FloatInputs = FloatInputs(walk: Walk, useHessian: bool, grads: seq<real>, hess: seq<real>) {
    /** Positions `[start, end)` resolve, have bins below `bins`, and have a
        gradient (and a hessian when one is read). */
    predicate Readable(start: int, end: int, bins: nat) {
      && walk.Covers(start, end) && walk.BinsBelow(start, end, bins)
      && (start < end ==> end <= |grads| && (useHessian ==> end <= |hess|))
    }

    /** The hessian read at position `i`; no hessian is read without `USE_HESSIAN`. */
    function HessAt(i: int): real
      requires 0 <= i && (useHessian ==> i < |hess|)
    {
      if useHessian then hess[i] else 0.0
    }
  }

  /** The buffer after the positions `[start, i)` of a walk over
      `[start, end)` have been added to `h0`, in order. */
  function Accumulated(h0: Hist, bins: nat, inp: FloatInputs, start: int, end: int, i: int): (h: Hist)
    requires inp.Readable(start, end, bins) && h0.Holds(bins) && start <= i <= Stop(start, end)
    ensures h.Holds(bins) && |h.sums| == |h0.sums|
    decreases i - start
  {
    if i == start then h0
    else
      var h := Accumulated(h0, bins, inp, start, end, i - 1);
      assert inp.walk.PositionOk(i - 1);
      AddToBin(h, inp.walk.BinAt(i - 1), inp.grads[i - 1], inp.HessAt(i - 1), inp.useHessian)
  }

  /** The sum of `vals` over the positions of `[start, i)` whose bin is `b`. */
  function SumIn(walk: Walk, vals: seq<real>, start: int, end: int, i: int, b: nat): real
    requires walk.Covers(start, end) && start <= i <= Stop(start, end) && (start < end ==> end <= |vals|)
    decreases i - start
  {
    if i == start then 0.0
    else
      assert walk.PositionOk(i - 1);
      SumIn(walk, vals, start, end, i - 1, b) + (if walk.BinAt(i - 1) == b then vals[i - 1] else 0.0)
  }

  /** The number of positions of `[start, i)` whose bin is `b`. */
  function CountIn(walk: Walk, start: int, end: int, i: int, b: nat): nat
    requires walk.Covers(start, end) && start <= i <= Stop(start, end)
    decreases i - start
  {
    if i == start then 0
    else
      assert walk.PositionOk(i - 1);
      CountIn(walk, start, end, i - 1, b) + (if walk.BinAt(i - 1) == b then 1 else 0)
  }

  /** Closed form of the buffer: each position of `[start, i)` is added
      exactly once, to its own bin; slot `2b` gains the gradients of bin
      `b`, slot `2b + 1` its hessians or its counter the number of its
      positions, and nothing else changes. */
  lemma {:induction false} AccumulatedSlot(h0: Hist, bins: nat, inp: FloatInputs, start: int, end: int, i: int, s: nat)
    requires inp.Readable(start, end, bins) && h0.Holds(bins) && start <= i <= Stop(start, end) && s < |h0.sums|
    ensures Accumulated(h0, bins, inp, start, end, i).sums[s] == h0.sums[s] +
      (if s % 2 == 0 then SumIn(inp.walk, inp.grads, start, end, i, s / 2)
       else if inp.useHessian then SumIn(inp.walk, inp.hess, start, end, i, s / 2)
       else 0.0)
    ensures Accumulated(h0, bins, inp, start, end, i).counts[s] == h0.counts[s] +
      (if s % 2 == 1 && !inp.useHessian then CountIn(inp.walk, start, end, i, s / 2) else 0)
    decreases i - start
  {
    if i != start {
      AccumulatedSlot(h0, bins, inp, start, end, i - 1, s);
      assert inp.walk.PositionOk(i - 1);
      var h := Accumulated(h0, bins, inp, start, end, i - 1);
      AddToBinSlot(h, inp.walk.BinAt(i - 1), inp.grads[i - 1], inp.HessAt(i - 1), inp.useHessian, s);
    }
  }

  /** Resuming a walk at position `k` (as the cleanup loop does after the
      prefetching loop) accumulates the same buffer as one pass. */
  lemma {:induction false} AccumulatedResume(h0: Hist, bins: nat, inp: FloatInputs, start: int, end: int, k: int, i: int)
    requires inp.Readable(start, end, bins) && h0.Holds(bins) && start <= k <= i <= Stop(start, end)
    ensures inp.Readable(k, end, bins) && i <= Stop(k, end)
    ensures Accumulated(Accumulated(h0, bins, inp, start, end, k), bins, inp, k, end, i) ==
      Accumulated(h0, bins, inp, start, end, i)
    decreases i - k
  {
    assert inp.Readable(k, end, bins);
    if i != k {
      AccumulatedResume(h0, bins, inp, start, end, k, i - 1);
    }
  }

  /** Sum of the counts of bins `0 .. bins - 1`. */
  function TotalCount(walk: Walk, start: int, end: int, i: int, bins: nat): nat
    requires walk.Covers(start, end) && start <= i <= Stop(start, end)
  {
    if bins == 0 then 0 else TotalCount(walk, start, end, i, bins - 1) + CountIn(walk, start, end, i, bins - 1)
  }

  lemma {:induction false} TotalCountStep(walk: Walk, start: int, end: int, i: int, bins: nat)
    requires walk.Covers(start, end) && start < i <= Stop(start, end)
    ensures walk.PositionOk(i - 1)
    ensures TotalCount(walk, start, end, i, bins) ==
      TotalCount(walk, start, end, i - 1, bins) + (if walk.BinAt(i - 1) < bins then 1 else 0)
  {
    assert walk.PositionOk(i - 1);
    if bins != 0 {
      TotalCountStep(walk, start, end, i, bins - 1);
    }
  }

  lemma {:induction false} CountsOfEmpty(walk: Walk, start: int, end: int, bins: nat)
    requires walk.Covers(start, end)
    ensures TotalCount(walk, start, end, start, bins) == 0
  {
    if bins != 0 {
      CountsOfEmpty(walk, start, end, bins - 1);
    }
  }

  /** Every position is counted exactly once: when all bins are below
      `bins`, the counters of those bins together gain `i - start`. */
  lemma {:induction false} CountsAddUp(walk: Walk, start: int, end: int, i: int, bins: nat)
    requires walk.Covers(start, end) && walk.BinsBelow(start, end, bins) && start <= i <= Stop(start, end)
    ensures TotalCount(walk, start, end, i, bins) == i - start
    decreases i - start
  {
    if i == start {
      CountsOfEmpty(walk, start, end, bins);
    } else {
      TotalCountStep(walk, start, end, i, bins);
      assert walk.BinAt(i - 1) < bins;
      CountsAddUp(walk, start, end, i - 1, bins);
    }
  }

  /** A worked scenario: four examples with bin codes 0, 1, 2, 3 and three
      pairs resolved through their first examples 0, 2 and 0. */
  const WorkedPairBin := DenseBin(U8, false, [0, 2, 0], [0, 1, 2, 3])

  /** With unit gradients and hessians over the three pairs and eight zeroed
      bins, bin 0 gains 2 in both of its slots (pairs 0 and 2), bin 2 gains 1
      (pair 1), and every other slot stays 0. */
  lemma WorkedHistogram()
    ensures var inp := FloatInputs(Walk(WorkedPairBin, false, []), true, [1.0, 1.0, 1.0], [1.0, 1.0, 1.0]);
      var h0 := Hist(seq(16, _ => 0.0), seq(16, _ => 0));
      && inp.Readable(0, 3, 8) && h0.Holds(8)
      && var h := Accumulated(h0, 8, inp, 0, 3, 3);
      && h.counts == h0.counts
      && forall s :: 0 <= s < 16 ==>
           h.sums[s] == if s / 2 == 0 then 2.0 else if s / 2 == 2 then 1.0 else 0.0
  {
    var inp := FloatInputs(Walk(WorkedPairBin, false, []), true, [1.0, 1.0, 1.0], [1.0, 1.0, 1.0]);
    var h0 := Hist(seq(16, _ => 0.0), seq(16, _ => 0));
    assert WorkedPairBin.Valid();
    assert inp.walk.BinAt(0) == 0 && inp.walk.BinAt(1) == 2 && inp.walk.BinAt(2) == 0;
    assert inp.Readable(0, 3, 8);
    var h1 := Accumulated(h0, 8, inp, 0, 3, 1);
    assert h1 == AddToBin(h0, 0, 1.0, 1.0, true);
    var h2 := Accumulated(h0, 8, inp, 0, 3, 2);
    assert h2 == AddToBin(h1, 2, 1.0, 1.0, true);
    var h3 := Accumulated(h0, 8, inp, 0, 3, 3);
    assert h3 == AddToBin(h2, 0, 1.0, 1.0, true);
    forall s | 0 <= s < 16
      ensures h3.sums[s] == if s / 2 == 0 then 2.0 else if s / 2 == 2 then 1.0 else 0.0
    {
      AddToBinSlot(h0, 0, 1.0, 1.0, true, s);
      AddToBinSlot(h1, 2, 1.0, 1.0, true, s);
      AddToBinSlot(h2, 0, 1.0, 1.0, true, s);
    }
  }

  /** `get_unpaired_index(USE_INDICES ? data_indices[pos] : pos)`: the
      storage index of the pair at position `pos`, which must lie in the
      walked range. */
  method UnpairedIndexAt(walk: Walk, start: int, end: int, pos: int) returns (idx: int)
    requires walk.Covers(start, end) && start <= pos < end
    ensures walk.PositionOk(pos) && 0 <= idx < |walk.pb.data|
    ensures walk.pb.data[idx] == walk.BinAt(pos)
  {
    assert walk.PositionOk(pos);
    var pairedIdx := if walk.useIndices then walk.dataIndices[pos] else pos;
    idx := walk.pb.unpairedIndex[pairedIdx];
  }

  /** `grad[ti] += g` and `hess[ti] += hv` or `++cnt[ti]`, with `ti = b << 1`. */
  method AddToBuffer(out: array<real>, cnt: array<int>, b: nat, g: real, hv: real, useHessian: bool)
    requires 2 * b + 1 < out.Length == cnt.Length
    modifies out, cnt
    ensures Hist(out[..], cnt[..]) == AddToBin(Hist(old(out[..]), old(cnt[..])), b, g, hv, useHessian)
  {
    var ti := 2 * b;
    if useHessian {
      out[ti] := out[ti] + g;
      out[ti + 1] := out[ti + 1] + hv;
    } else {
      out[ti] := out[ti] + g;
      // `cnt` starts one slot after `out`, so its entry `ti` is slot `ti + 1`
      cnt[ti + 1] := cnt[ti + 1] + 1;
    }
  }

  /** The body both loops share: resolve position `i` and add its gradient,
      and its hessian or a count, to its bin. */
  method AddPosition(walk: Walk, useHessian: bool, grads: seq<real>, hess: seq<real>, start: int, end: int, i: int,
                     out: array<real>, cnt: array<int>, ghost h0: Hist)
    requires out.Length == cnt.Length && start <= i < end && h0.Holds(out.Length / 2)
    requires FloatInputs(walk, useHessian, grads, hess).Readable(start, end, out.Length / 2)
    requires Hist(out[..], cnt[..]) == Accumulated(h0, out.Length / 2, FloatInputs(walk, useHessian, grads, hess), start, end, i)
    modifies out, cnt
    ensures Hist(out[..], cnt[..]) == Accumulated(h0, out.Length / 2, FloatInputs(walk, useHessian, grads, hess), start, end, i + 1)
  {
    var idx := UnpairedIndexAt(walk, start, end, i);
    var hv := if useHessian then hess[i] else 0.0;
    AddToBuffer(out, cnt, walk.pb.data[idx], grads[i], hv, useHessian);
  }

  /** The prefetching loop: positions `i0, i0 + 1, ...` while the position
      one cache line of codes ahead is still below `end`; that look-ahead
      pair is resolved as well. Returns the first position it did not
      visit. */
  method PrefetchLoop(walk: Walk, useHessian: bool, grads: seq<real>, hess: seq<real>, start: int, end: int, i0: int,
                      out: array<real>, cnt: array<int>, ghost h0: Hist) returns (i: int)
    requires out.Length == cnt.Length && start <= i0 <= Stop(start, end) && h0.Holds(out.Length / 2)
    requires FloatInputs(walk, useHessian, grads, hess).Readable(start, end, out.Length / 2)
    requires Hist(out[..], cnt[..]) == Accumulated(h0, out.Length / 2, FloatInputs(walk, useHessian, grads, hess), start, end, i0)
    modifies out, cnt
    ensures i0 <= i <= Stop(start, end)
    ensures Hist(out[..], cnt[..]) == Accumulated(h0, out.Length / 2, FloatInputs(walk, useHessian, grads, hess), start, end, i)
  {
    var pfOffset := PrefetchOffset(walk.pb.valType);
    var pfEnd := end - pfOffset;
    i := i0;
    while i < pfEnd
      invariant i0 <= i <= Stop(start, end)
      invariant Hist(out[..], cnt[..]) == Accumulated(h0, out.Length / 2, FloatInputs(walk, useHessian, grads, hess), start, end, i)
    {
      // the look-ahead pair is resolved only to compute a cache hint
      var pfIdx := UnpairedIndexAt(walk, start, end, i + pfOffset);
      AddPosition(walk, useHessian, grads, hess, start, end, i, out, cnt, h0);
      i := i + 1;
    }
  }

  /** The cleanup loop: every remaining position `i0 .. end - 1`. Returns
      the position it stops at, which is where the walk ends. */
  method CleanupLoop(walk: Walk, useHessian: bool, grads: seq<real>, hess: seq<real>, start: int, end: int, i0: int,
                     out: array<real>, cnt: array<int>, ghost h0: Hist) returns (i: int)
    requires out.Length == cnt.Length && start <= i0 <= Stop(start, end) && h0.Holds(out.Length / 2)
    requires FloatInputs(walk, useHessian, grads, hess).Readable(start, end, out.Length / 2)
    requires Hist(out[..], cnt[..]) == Accumulated(h0, out.Length / 2, FloatInputs(walk, useHessian, grads, hess), start, end, i0)
    modifies out, cnt
    ensures i == Stop(start, end)
    ensures Hist(out[..], cnt[..]) == Accumulated(h0, out.Length / 2, FloatInputs(walk, useHessian, grads, hess), start, end, i)
  {
    i := i0;
    while i < end
      invariant i0 <= i <= Stop(start, end)
      invariant Hist(out[..], cnt[..]) == Accumulated(h0, out.Length / 2, FloatInputs(walk, useHessian, grads, hess), start, end, i)
    {
      AddPosition(walk, useHessian, grads, hess, start, end, i, out, cnt, h0);
      i := i + 1;
    }
  }

  /** `ConstructHistogramInner<USE_INDICES, USE_PREFETCH, USE_HESSIAN>`:
      with prefetching, a first loop runs while a look-ahead of one cache
      line of codes stays inside the range, and a cleanup loop finishes it;
      both advance the same position `i`. */
  method ConstructHistogramInner(pb: DenseBin, k: KernelFlags, dataIndices: seq<int>, start: int, end: int,
                                 grads: seq<real>, hess: seq<real>, out: array<real>, cnt: array<int>)
    requires out.Length == cnt.Length
    requires FloatInputs(Walk(pb, k.useIndices, dataIndices), k.useHessian, grads, hess).Readable(start, end, out.Length / 2)
    modifies out, cnt
    ensures Hist(out[..], cnt[..]) ==
      Accumulated(Hist(old(out[..]), old(cnt[..])), out.Length / 2,
                  FloatInputs(Walk(pb, k.useIndices, dataIndices), k.useHessian, grads, hess), start, end, Stop(start, end))
  {
    var walk := Walk(pb, k.useIndices, dataIndices);
    ghost var h0 := Hist(out[..], cnt[..]);
    var i := start;
    if k.usePrefetch {
      i := PrefetchLoop(walk, k.useHessian, grads, hess, start, end, i, out, cnt, h0);
    }
    i := CleanupLoop(walk, k.useHessian, grads, hess, start, end, i, out, cnt, h0);
  }

  /** The flags the entry points fix: prefetching exactly when positions go
      through `data_indices`, the hessian variant exactly when hessians are
      passed. */
  function EntryFlags(withIndices: bool, withHessians: bool): (k: KernelFlags)
    ensures k.useIndices == withIndices && k.usePrefetch == withIndices && k.useHessian == withHessians
  {
    KernelFlags(withIndices, withIndices, withHessians)
  }

  /** The four `ConstructHistogram` overloads: `dataIndices` and `hessians`
      are `None` where the overload has no such parameter. */
  method ConstructHistogram(pb: DenseBin, dataIndices: Option<seq<int>>, start: int, end: int,
                            grads: seq<real>, hessians: Option<seq<real>>, out: array<real>, cnt: array<int>)
    requires out.Length == cnt.Length
    requires FloatInputs(Walk(pb, dataIndices.Some?, if dataIndices.Some? then dataIndices.value else []),
                         hessians.Some?, grads, if hessians.Some? then hessians.value else []).Readable(start, end, out.Length / 2)
    modifies out, cnt
    ensures Hist(out[..], cnt[..]) ==
      Accumulated(Hist(old(out[..]), old(cnt[..])), out.Length / 2,
                  FloatInputs(Walk(pb, dataIndices.Some?, if dataIndices.Some? then dataIndices.value else []),
                              hessians.Some?, grads, if hessians.Some? then hessians.value else []),
                  start, end, Stop(start, end))
  {
    var k := EntryFlags(dataIndices.Some?, hessians.Some?);
    var indices := if dataIndices.Some? then dataIndices.value else [];
    var hess := if hessians.Some? then hessians.value else [];
    ConstructHistogramInner(pb, k, indices, start, end, grads, hess, out, cnt);
  }
}
