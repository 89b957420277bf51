/**
  The routing rules of the dense pairwise split, each stated on its own, and
  what they mean for the two outputs of a node split as a whole.
*/
module SplitRules {
  import opened PairwiseBin
  import opened Partition
  import opened Split

  /** Without wrap-around, `th` is `threshold + min_bin`, minus one when the
      most-frequent bin is 0. */
  lemma ThWithoutWrap(vt: ValType, p: SplitParams)
    requires p.threshold + p.minBin < vt.Modulus()
    requires p.mostFreqBin == 0 ==> p.threshold + p.minBin >= 1
    ensures Th(vt, p) == p.threshold + p.minBin - (if p.mostFreqBin == 0 then 1 else 0)
  {
    var s := p.threshold + p.minBin;
    assert s % Uint32Modulus == s;
    assert NarrowSum(vt, p.threshold, p.minBin) == s;
  }

  /** With no missing-value kind, a pair whose code lies in `[minb, maxb]`
      goes to `lte` exactly when its code is at most `th`. */
  lemma ThresholdRule(vt: ValType, f: SplitFlags, p: SplitParams, bin: nat)
    requires !f.missIsZero && !f.missIsNa
    requires p.minBin < p.maxBin && !InDefaultBucket(vt, f, p, bin)
    ensures GoesLeft(vt, f, p, bin) <==> bin <= Th(vt, p)
  {
  }

  /** A pair in the default bucket (outside `[minb, maxb]`, or code 0 without
      the range check) that is not an explicit missing value goes to `lte`
      exactly when the most-frequent bin is at most the threshold, unless
      the missing kind coincides with the most-frequent bin, in which case
      it follows `default_left`. */
  lemma DefaultBucketRule(vt: ValType, f: SplitFlags, p: SplitParams, bin: nat)
    requires f.Consistent() && p.minBin < p.maxBin
    requires InDefaultBucket(vt, f, p, bin) && !MissingHit(vt, f, p, bin)
    ensures GoesLeft(vt, f, p, bin) <==>
      if f.MfbAbsorbsMissing() then p.defaultLeft else p.mostFreqBin <= p.threshold
  {
  }

  /** Missing-as-zero, zero not the most-frequent bin: a pair with code
      `t_zero_bin` goes to `lte` exactly when `default_left`, whichever loop
      runs. */
  lemma MissingZeroRule(vt: ValType, f: SplitFlags, p: SplitParams, bin: nat)
    requires f.missIsZero && !f.mfbIsZero && bin == TZeroBin(vt, p)
    ensures GoesLeft(vt, f, p, bin) <==> p.defaultLeft
  {
  }

  /** Missing-as-NaN, NaN not the most-frequent bin: a pair with code `maxb`
      goes to `lte` exactly when `default_left`, whichever loop runs. */
  lemma MissingNaNRule(vt: ValType, f: SplitFlags, p: SplitParams, bin: nat)
    requires f.Consistent() && f.missIsNa && !f.mfbIsNa && bin == Narrow(vt, p.maxBin)
    ensures GoesLeft(vt, f, p, bin) <==> p.defaultLeft
  {
  }

  /** The single-bin branch (`min_bin >= max_bin`): the code `maxb` is
      compared with `th` unless missing-NaN claims it; every other code that
      is not an explicit zero goes to the default bucket's side. */
  lemma SingleBinRule(vt: ValType, f: SplitFlags, p: SplitParams, bin: nat)
    requires f.Consistent() && !(p.minBin < p.maxBin)
    requires !(f.missIsZero && !f.mfbIsZero && bin == TZeroBin(vt, p))
    ensures bin == Narrow(vt, p.maxBin) && !(f.missIsNa && !f.mfbIsNa) ==>
      (GoesLeft(vt, f, p, bin) <==> Narrow(vt, p.maxBin) <= Th(vt, p))
    ensures bin == Narrow(vt, p.maxBin) && f.missIsNa && !f.mfbIsNa ==>
      (GoesLeft(vt, f, p, bin) <==> p.defaultLeft)
    ensures bin != Narrow(vt, p.maxBin) ==>
      (GoesLeft(vt, f, p, bin) <==>
        if f.MfbAbsorbsMissing() then p.defaultLeft else p.mostFreqBin <= p.threshold)
  {
  }

  /** The side of a pair is a function of its bin code: two pairs with the
      same code end up in the same output. */
  lemma SideIsFunctionOfCode(pb: DenseBin, f: SplitFlags, p: SplitParams, pairs: seq<int>, k1: nat, k2: nat)
    requires pb.Valid() && AllPairs(pb, pairs)
    requires k1 < |pairs| && k2 < |pairs| && pb.BinOfPair(pairs[k1]) == pb.BinOfPair(pairs[k2])
    ensures Routing(pb, f, p, pairs)[k1] == Routing(pb, f, p, pairs)[k2]
  {
  }

  /** Every pair of the node is placed exactly once: the two outputs are
      together as long as the input, and are a permutation of it. */
  lemma SplitPlacesEveryPair(pb: DenseBin, f: SplitFlags, p: SplitParams, pairs: seq<int>)
    requires pb.Valid() && AllPairs(pb, pairs)
    ensures |LteOf(pb, f, p, pairs)| + |GtOf(pb, f, p, pairs)| == |pairs|
    ensures multiset(LteOf(pb, f, p, pairs)) + multiset(GtOf(pb, f, p, pairs)) == multiset(pairs)
  {
    var route := Routing(pb, f, p, pairs);
    SelectLengths(pairs, route);
    SelectPermutation(pairs, route);
  }

  /** Each pair is found in the output that `GoesLeft` names for its code. */
  lemma SplitPlacesBySide(pb: DenseBin, f: SplitFlags, p: SplitParams, pairs: seq<int>, k: nat)
    requires pb.Valid() && AllPairs(pb, pairs) && k < |pairs|
    ensures GoesLeft(pb.valType, f, p, pb.BinOfPair(pairs[k])) ==> pairs[k] in LteOf(pb, f, p, pairs)
    ensures !GoesLeft(pb.valType, f, p, pb.BinOfPair(pairs[k])) ==> pairs[k] in GtOf(pb, f, p, pairs)
  {
    SelectMember(pairs, Routing(pb, f, p, pairs), k);
  }

  /** Each output keeps input order: its `j`-th entry is the pair at the
      `j`-th input position routed to that side, and those positions
      increase. */
  lemma SplitKeepsOrder(pb: DenseBin, f: SplitFlags, p: SplitParams, pairs: seq<int>, side: bool)
    requires pb.Valid() && AllPairs(pb, pairs)
    ensures var out := Select(pairs, Routing(pb, f, p, pairs), side);
      var pos := Positions(Routing(pb, f, p, pairs), side);
      && |pos| == |out|
      && (forall j :: 0 <= j < |out| ==> out[j] == pairs[pos[j]])
      && (forall j :: 0 <= j < |pos| ==> GoesLeft(pb.valType, f, p, pb.BinOfPair(pairs[pos[j]])) == side)
      && (forall j1, j2 :: 0 <= j1 < j2 < |pos| ==> pos[j1] < pos[j2])
  {
    var route := Routing(pb, f, p, pairs);
    SelectStable(pairs, route, side);
    PositionsIncreasing(route, side);
  }

  /** The worked example: a node of four pairs with codes 1..4 in a bin
      with `min_bin = 1`, `max_bin = 4`, most-frequent bin 1, no missing kind
      and threshold 2. */
  const WorkedBin := DenseBin(U8, false, [0, 1, 2, 3], [1, 2, 3, 4])
  const WorkedFlags := DispatchFlags(MissingType.None, 1, 4, 1, 1, true)
  const WorkedParams := SplitParams(1, 4, 1, 1, false, 2)

  /** In the worked example `th` is 3, so the first three pairs go to `lte`
      and the last to `gt`. */
  lemma WorkedSplit()
    ensures WorkedBin.Valid() && AllPairs(WorkedBin, [0, 1, 2, 3])
    ensures LteOf(WorkedBin, WorkedFlags, WorkedParams, [0, 1, 2, 3]) == [0, 1, 2]
    ensures GtOf(WorkedBin, WorkedFlags, WorkedParams, [0, 1, 2, 3]) == [3]
  {
    WorkedRouting();
    WorkedSelect();
  }

  /** The sides of the codes of the worked example. */
  lemma WorkedSides(b: nat)
    requires 1 <= b <= 4
    ensures GoesLeft(U8, WorkedFlags, WorkedParams, b) <==> b <= 3
  {
    assert WorkedFlags == SplitFlags(false, false, false, false, true);
    ThWithoutWrap(U8, WorkedParams);
    ThresholdRule(U8, WorkedFlags, WorkedParams, b);
  }

  /** The worked example's bin is well formed and resolves its four pairs. */
  lemma WorkedBinValid()
    ensures WorkedBin.Valid() && AllPairs(WorkedBin, [0, 1, 2, 3])
    ensures WorkedBin.BinOfPair(0) == 1 && WorkedBin.BinOfPair(1) == 2
    ensures WorkedBin.BinOfPair(2) == 3 && WorkedBin.BinOfPair(3) == 4
  {
  }

  /** The sides of the pairs of the worked example. */
  lemma WorkedRouting()
    ensures WorkedBin.Valid() && AllPairs(WorkedBin, [0, 1, 2, 3])
    ensures Routing(WorkedBin, WorkedFlags, WorkedParams, [0, 1, 2, 3]) == [true, true, true, false]
  {
    WorkedBinValid();
    WorkedSides(1);
    WorkedSides(2);
    WorkedSides(3);
    WorkedSides(4);
    var route := Routing(WorkedBin, WorkedFlags, WorkedParams, [0, 1, 2, 3]);
    assert WorkedBin.valType == U8;
    assert route[0] == GoesLeft(U8, WorkedFlags, WorkedParams, 1);
    assert route[1] == GoesLeft(U8, WorkedFlags, WorkedParams, 2);
    assert route[2] == GoesLeft(U8, WorkedFlags, WorkedParams, 3);
    assert route[3] == GoesLeft(U8, WorkedFlags, WorkedParams, 4);
  }

  /** The worked example's sides, applied to its pairs. */
  lemma WorkedSelect()
    ensures Select([0, 1, 2, 3], [true, true, true, false], true) == [0, 1, 2]
    ensures Select([0, 1, 2, 3], [true, true, true, false], false) == [3]
  {
    assert [0, 1, 2, 3][..3] == [0, 1, 2] && [true, true, true, false][..3] == [true, true, true];
    assert [0, 1, 2][..2] == [0, 1] && [true, true, true][..2] == [true, true];
    assert [0, 1][..1] == [0] && [true, true][..1] == [true];
    assert Select([0], [true], true) == [0] && Select([0], [true], false) == [];
    assert Select([0, 1], [true, true], true) == [0, 1] && Select([0, 1], [true, true], false) == [];
  }
}
