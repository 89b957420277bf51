/**
  `SplitInner` and the two public `Split` overloads of the dense pairwise
  ranking bin, over the caller's `lte` and `gt` index buffers.
*/
module SplitKernel {
  import opened PairwiseBin
  import opened Partition
  import opened Split

  /** `indices[(*count)++] = x` through the buffer and counter chosen before
      the loop: `toLte` picks `lte`/`lte_count`, otherwise `gt`/`gt_count`.
      Placing the `i`-th pair on its routed side keeps the loop invariant. */
  method Place(lte: array<int>, gt: array<int>, lteCount: int, gtCount: int, x: int, toLte: bool,
               ghost pairs: seq<int>, ghost route: seq<bool>, ghost i: int, ghost lte0: seq<int>, ghost gt0: seq<int>)
      returns (lteCount': int, gtCount': int)
    requires lte != gt
    requires Placed(lte[..], gt[..], lteCount, gtCount, pairs, route, i, lte0, gt0)
    requires i < |pairs| && pairs[i] == x && route[i] == toLte
    requires |Select(pairs, route, true)| <= lte.Length && |Select(pairs, route, false)| <= gt.Length
    modifies lte, gt
    ensures Placed(lte[..], gt[..], lteCount', gtCount', pairs, route, i + 1, lte0, gt0)
  {
    SelectPrefixStep(pairs, route, i, true);
    SelectPrefixStep(pairs, route, i, false);
    if toLte {
      lte[lteCount] := x;
      lteCount', gtCount' := lteCount + 1, gtCount;
      assert lte[..lteCount'] == old(lte[..lteCount]) + [x];
    } else {
      gt[gtCount] := x;
      lteCount', gtCount' := lteCount, gtCount + 1;
      assert gt[..gtCount'] == old(gt[..gtCount]) + [x];
    }
  }

  /** The `i`-th pair of the node resolves, and its side is the one its code
      is routed to. */
  lemma RouteOfPair(pb: DenseBin, f: SplitFlags, p: SplitParams, dataIndices: seq<int>, cnt: int, i: int)
    requires pb.Valid() && 0 <= i < cnt <= |dataIndices| && AllPairs(pb, dataIndices[..cnt])
    ensures dataIndices[..cnt][i] == dataIndices[i] && pb.IsPair(dataIndices[i])
    ensures Routing(pb, f, p, dataIndices[..cnt])[i] == GoesLeft(pb.valType, f, p, pb.BinOfPair(dataIndices[i]))
  {
    assert dataIndices[..cnt][i] == dataIndices[i];
  }

  /** The branch chain of the `min_bin < max_bin` loop: which of the
      destinations chosen before the loop receives a pair with code `bin`. */
  method RangedSide(vt: ValType, f: SplitFlags, p: SplitParams, bin: nat, th: nat, tZeroBin: nat,
                    minb: nat, maxb: nat, missingToLte: bool, defaultToLte: bool) returns (toLte: bool)
    requires p.minBin < p.maxBin
    requires th == Th(vt, p) && tZeroBin == TZeroBin(vt, p)
    requires minb == Narrow(vt, p.minBin) && maxb == Narrow(vt, p.maxBin)
    requires missingToLte == MissingLeft(f, p) && defaultToLte == DefaultLeft(p)
    ensures toLte == GoesLeft(vt, f, p, bin)
  {
    if (f.missIsZero && !f.mfbIsZero && bin == tZeroBin) || (f.missIsNa && !f.mfbIsNa && bin == maxb) {
      toLte := missingToLte;
    } else if (f.useMinBin && (bin < minb || bin > maxb)) || (!f.useMinBin && bin == 0) {
      if (f.missIsNa && f.mfbIsNa) || (f.missIsZero && f.mfbIsZero) {
        toLte := missingToLte;
      } else {
        toLte := defaultToLte;
      }
    } else if bin > th {
      toLte := false;
    } else {
      toLte := true;
    }
  }

  /** The branch chain of the `min_bin >= max_bin` loop, where only the code
      `maxb` is compared with the threshold. */
  method SingleBinSide(vt: ValType, f: SplitFlags, p: SplitParams, bin: nat, th: nat, tZeroBin: nat,
                       maxb: nat, missingToLte: bool, defaultToLte: bool, maxBinToLte: bool) returns (toLte: bool)
    requires !(p.minBin < p.maxBin)
    requires th == Th(vt, p) && tZeroBin == TZeroBin(vt, p) && maxb == Narrow(vt, p.maxBin)
    requires missingToLte == MissingLeft(f, p) && defaultToLte == DefaultLeft(p)
    requires maxBinToLte == (maxb <= th)
    ensures toLte == GoesLeft(vt, f, p, bin)
  {
    if f.missIsZero && !f.mfbIsZero && bin == tZeroBin {
      toLte := missingToLte;
    } else if bin != maxb {
      if (f.missIsNa && f.mfbIsNa) || (f.missIsZero && f.mfbIsZero) {
        toLte := missingToLte;
      } else {
        toLte := defaultToLte;
      }
    } else {
      if f.missIsNa && !f.mfbIsNa {
        toLte := missingToLte;
      } else {
        toLte := maxBinToLte;
      }
    }
  }

  /** What `SplitInner` and each of its loops promise: every pair of
      `pairs`, in input order, appended to the output its bin code is routed
      to, `lte_count` returned, and nothing past the written prefixes changed. */
  twostate predicate SplitDone(pb: DenseBin, f: SplitFlags, p: SplitParams, pairs: seq<int>,
                               lte: array<int>, gt: array<int>, lteCount: int)
    requires pb.Valid() && AllPairs(pb, pairs)
    reads lte, gt
  {
    && 0 <= lteCount <= |pairs| && lteCount <= lte.Length && |pairs| - lteCount <= gt.Length
    && lte[..lteCount] == LteOf(pb, f, p, pairs)
    && gt[..|pairs| - lteCount] == GtOf(pb, f, p, pairs)
    && lte[lteCount..] == old(lte[lteCount..])
    && gt[|pairs| - lteCount..] == old(gt[|pairs| - lteCount..])
  }

  /** One iteration of the `min_bin < max_bin` loop: resolve the `i`-th
      pair's code and append the pair to the output chosen for it. */
  method RangedStep(pb: DenseBin, f: SplitFlags, p: SplitParams, dataIndices: seq<int>, cnt: int, i: int,
                    lte: array<int>, gt: array<int>, lteCount: int, gtCount: int,
                    th: nat, tZeroBin: nat, minb: nat, maxb: nat, missingToLte: bool, defaultToLte: bool,
                    ghost lte0: seq<int>, ghost gt0: seq<int>)
      returns (lteCount': int, gtCount': int)
    requires pb.Valid() && p.minBin < p.maxBin
    requires 0 <= i < cnt <= |dataIndices| && AllPairs(pb, dataIndices[..cnt])
    requires lte != gt
    requires |LteOf(pb, f, p, dataIndices[..cnt])| <= lte.Length
    requires |GtOf(pb, f, p, dataIndices[..cnt])| <= gt.Length
    requires th == Th(pb.valType, p) && tZeroBin == TZeroBin(pb.valType, p)
    requires minb == Narrow(pb.valType, p.minBin) && maxb == Narrow(pb.valType, p.maxBin)
    requires missingToLte == MissingLeft(f, p) && defaultToLte == DefaultLeft(p)
    requires Placed(lte[..], gt[..], lteCount, gtCount, dataIndices[..cnt], Routing(pb, f, p, dataIndices[..cnt]), i, lte0, gt0)
    modifies lte, gt
    ensures Placed(lte[..], gt[..], lteCount', gtCount', dataIndices[..cnt], Routing(pb, f, p, dataIndices[..cnt]), i + 1, lte0, gt0)
  {
    var pairedIdx := dataIndices[i];
    RouteOfPair(pb, f, p, dataIndices, cnt, i);
    // idx = get_unpaired_index(paired_idx); bin = data(idx)
    var idx := pb.unpairedIndex[pairedIdx];
    var bin := pb.data[idx];
    var toLte := RangedSide(pb.valType, f, p, bin, th, tZeroBin, minb, maxb, missingToLte, defaultToLte);
    lteCount', gtCount' := Place(lte, gt, lteCount, gtCount, pairedIdx, toLte,
                                 dataIndices[..cnt], Routing(pb, f, p, dataIndices[..cnt]), i, lte0, gt0);
  }

  /** One iteration of the `min_bin >= max_bin` loop. */
  method SingleBinStep(pb: DenseBin, f: SplitFlags, p: SplitParams, dataIndices: seq<int>, cnt: int, i: int,
                       lte: array<int>, gt: array<int>, lteCount: int, gtCount: int,
                       th: nat, tZeroBin: nat, maxb: nat, missingToLte: bool, defaultToLte: bool, maxBinToLte: bool,
                       ghost lte0: seq<int>, ghost gt0: seq<int>)
      returns (lteCount': int, gtCount': int)
    requires pb.Valid() && !(p.minBin < p.maxBin)
    requires 0 <= i < cnt <= |dataIndices| && AllPairs(pb, dataIndices[..cnt])
    requires lte != gt
    requires |LteOf(pb, f, p, dataIndices[..cnt])| <= lte.Length
    requires |GtOf(pb, f, p, dataIndices[..cnt])| <= gt.Length
    requires th == Th(pb.valType, p) && tZeroBin == TZeroBin(pb.valType, p) && maxb == Narrow(pb.valType, p.maxBin)
    requires missingToLte == MissingLeft(f, p) && defaultToLte == DefaultLeft(p)
    requires maxBinToLte == (maxb <= th)
    requires Placed(lte[..], gt[..], lteCount, gtCount, dataIndices[..cnt], Routing(pb, f, p, dataIndices[..cnt]), i, lte0, gt0)
    modifies lte, gt
    ensures Placed(lte[..], gt[..], lteCount', gtCount', dataIndices[..cnt], Routing(pb, f, p, dataIndices[..cnt]), i + 1, lte0, gt0)
  {
    var pairedIdx := dataIndices[i];
    RouteOfPair(pb, f, p, dataIndices, cnt, i);
    // idx = get_unpaired_index(paired_idx); bin = data(idx)
    var idx := pb.unpairedIndex[pairedIdx];
    var bin := pb.data[idx];
    var toLte := SingleBinSide(pb.valType, f, p, bin, th, tZeroBin, maxb, missingToLte, defaultToLte, maxBinToLte);
    lteCount', gtCount' := Place(lte, gt, lteCount, gtCount, pairedIdx, toLte,
                                 dataIndices[..cnt], Routing(pb, f, p, dataIndices[..cnt]), i, lte0, gt0);
  }

  /** The `min_bin < max_bin` loop of `SplitInner`. */
  method SplitLoopRanged(pb: DenseBin, f: SplitFlags, p: SplitParams, dataIndices: seq<int>, cnt: int,
                         lte: array<int>, gt: array<int>, th: nat, tZeroBin: nat, minb: nat, maxb: nat,
                         missingToLte: bool, defaultToLte: bool)
      returns (lteCount: int)
    requires pb.Valid() && p.minBin < p.maxBin
    requires 0 <= cnt <= |dataIndices| && AllPairs(pb, dataIndices[..cnt])
    requires lte != gt
    requires |LteOf(pb, f, p, dataIndices[..cnt])| <= lte.Length
    requires |GtOf(pb, f, p, dataIndices[..cnt])| <= gt.Length
    requires th == Th(pb.valType, p) && tZeroBin == TZeroBin(pb.valType, p)
    requires minb == Narrow(pb.valType, p.minBin) && maxb == Narrow(pb.valType, p.maxBin)
    requires missingToLte == MissingLeft(f, p) && defaultToLte == DefaultLeft(p)
    modifies lte, gt
    ensures SplitDone(pb, f, p, dataIndices[..cnt], lte, gt, lteCount)
  {
    ghost var lte0, gt0 := lte[..], gt[..];
    ghost var pairs := dataIndices[..cnt];
    ghost var route := Routing(pb, f, p, pairs);
    lteCount := 0;
    var gtCount := 0;
    var i := 0;
    while i < cnt
      invariant Placed(lte[..], gt[..], lteCount, gtCount, pairs, route, i, lte0, gt0)
    {
      lteCount, gtCount := RangedStep(pb, f, p, dataIndices, cnt, i, lte, gt, lteCount, gtCount,
                                      th, tZeroBin, minb, maxb, missingToLte, defaultToLte, lte0, gt0);
      i := i + 1;
    }
    assert pairs[..i] == pairs && route[..i] == route;
  }

  /** The `min_bin >= max_bin` loop of `SplitInner`. */
  method SplitLoopSingleBin(pb: DenseBin, f: SplitFlags, p: SplitParams, dataIndices: seq<int>, cnt: int,
                            lte: array<int>, gt: array<int>, th: nat, tZeroBin: nat, maxb: nat,
                            missingToLte: bool, defaultToLte: bool)
      returns (lteCount: int)
    requires pb.Valid() && !(p.minBin < p.maxBin)
    requires 0 <= cnt <= |dataIndices| && AllPairs(pb, dataIndices[..cnt])
    requires lte != gt
    requires |LteOf(pb, f, p, dataIndices[..cnt])| <= lte.Length
    requires |GtOf(pb, f, p, dataIndices[..cnt])| <= gt.Length
    requires th == Th(pb.valType, p) && tZeroBin == TZeroBin(pb.valType, p) && maxb == Narrow(pb.valType, p.maxBin)
    requires missingToLte == MissingLeft(f, p) && defaultToLte == DefaultLeft(p)
    modifies lte, gt
    ensures SplitDone(pb, f, p, dataIndices[..cnt], lte, gt, lteCount)
  {
    // max_bin_indices: where pairs in the single usable bin go
    var maxBinToLte := false;
    if maxb <= th {
      maxBinToLte := true;
    }
    ghost var lte0, gt0 := lte[..], gt[..];
    ghost var pairs := dataIndices[..cnt];
    ghost var route := Routing(pb, f, p, pairs);
    lteCount := 0;
    var gtCount := 0;
    var i := 0;
    while i < cnt
      invariant Placed(lte[..], gt[..], lteCount, gtCount, pairs, route, i, lte0, gt0)
    {
      lteCount, gtCount := SingleBinStep(pb, f, p, dataIndices, cnt, i, lte, gt, lteCount, gtCount,
                                         th, tZeroBin, maxb, missingToLte, defaultToLte, maxBinToLte, lte0, gt0);
      i := i + 1;
    }
    assert pairs[..i] == pairs && route[..i] == route;
  }

  /** `SplitInner<MISS_IS_ZERO, MISS_IS_NA, MFB_IS_ZERO, MFB_IS_NA, USE_MIN_BIN>`:
      computes the threshold code and the zero-value code in the bin's width,
      chooses, before scanning, the output of the default bucket and of the
      missing bucket, then runs the ranged or the single-bin loop. */
  method SplitInner(pb: DenseBin, f: SplitFlags, p: SplitParams, dataIndices: seq<int>, cnt: int,
                    lte: array<int>, gt: array<int>) returns (lteCount: int)
    requires pb.Valid() && p.InUint32Range()
    requires 0 <= cnt <= |dataIndices| && AllPairs(pb, dataIndices[..cnt])
    requires lte != gt
    requires |LteOf(pb, f, p, dataIndices[..cnt])| <= lte.Length
    requires |GtOf(pb, f, p, dataIndices[..cnt])| <= gt.Length
    modifies lte, gt
    ensures SplitDone(pb, f, p, dataIndices[..cnt], lte, gt, lteCount)
  {
    var vt := pb.valType;
    var th := NarrowSum(vt, p.threshold, p.minBin);
    var tZeroBin := NarrowSum(vt, p.minBin, p.defaultBin);
    if p.mostFreqBin == 0 {
      th := Decrement(vt, th);
      tZeroBin := Decrement(vt, tZeroBin);
    }
    var minb, maxb := Narrow(vt, p.minBin), Narrow(vt, p.maxBin);
    // default_indices and missing_default_indices start out as gt_indices
    var defaultToLte, missingToLte := false, false;
    if p.mostFreqBin <= p.threshold {
      defaultToLte := true;
    }
    if f.missIsZero || f.missIsNa {
      if p.defaultLeft {
        missingToLte := true;
      }
    }
    if p.minBin < p.maxBin {
      lteCount := SplitLoopRanged(pb, f, p, dataIndices, cnt, lte, gt, th, tZeroBin, minb, maxb, missingToLte, defaultToLte);
    } else {
      lteCount := SplitLoopSingleBin(pb, f, p, dataIndices, cnt, lte, gt, th, tZeroBin, maxb, missingToLte, defaultToLte);
    }
  }

  /** The spec-level flags and parameters a `Split` call resolves to. */
  function SplitSetup(minBin: nat, maxBin: nat, defaultBin: nat, mostFreqBin: nat, missingType: MissingType,
                      defaultLeft: bool, threshold: nat, useMinBin: bool): (SplitFlags, SplitParams)
  {
    (DispatchFlags(missingType, minBin, maxBin, defaultBin, mostFreqBin, useMinBin),
     SplitParams(minBin, maxBin, defaultBin, mostFreqBin, defaultLeft, threshold))
  }

  /** `Split` with an explicit `min_bin`: range-checked specialisations. */
  method SplitRanged(pb: DenseBin, minBin: nat, maxBin: nat, defaultBin: nat, mostFreqBin: nat,
                     missingType: MissingType, defaultLeft: bool, threshold: nat,
                     dataIndices: seq<int>, cnt: int, lte: array<int>, gt: array<int>) returns (lteCount: int)
    requires pb.Valid()
    requires SplitSetup(minBin, maxBin, defaultBin, mostFreqBin, missingType, defaultLeft, threshold, true).1.InUint32Range()
    requires 0 <= cnt <= |dataIndices| && AllPairs(pb, dataIndices[..cnt])
    requires lte != gt
    requires var (f, p) := SplitSetup(minBin, maxBin, defaultBin, mostFreqBin, missingType, defaultLeft, threshold, true);
      |LteOf(pb, f, p, dataIndices[..cnt])| <= lte.Length && |GtOf(pb, f, p, dataIndices[..cnt])| <= gt.Length
    modifies lte, gt
    ensures var (f, p) := SplitSetup(minBin, maxBin, defaultBin, mostFreqBin, missingType, defaultLeft, threshold, true);
      SplitDone(pb, f, p, dataIndices[..cnt], lte, gt, lteCount)
  {
    var (f, p) := SplitSetup(minBin, maxBin, defaultBin, mostFreqBin, missingType, defaultLeft, threshold, true);
    lteCount := SplitInner(pb, f, p, dataIndices, cnt, lte, gt);
  }

  /** `Split` without `min_bin`: `min_bin` is 1 and bin code 0 is the default
      bucket (no range check). */
  method SplitFromBinOne(pb: DenseBin, maxBin: nat, defaultBin: nat, mostFreqBin: nat,
                         missingType: MissingType, defaultLeft: bool, threshold: nat,
                         dataIndices: seq<int>, cnt: int, lte: array<int>, gt: array<int>) returns (lteCount: int)
    requires pb.Valid()
    requires SplitSetup(1, maxBin, defaultBin, mostFreqBin, missingType, defaultLeft, threshold, false).1.InUint32Range()
    requires 0 <= cnt <= |dataIndices| && AllPairs(pb, dataIndices[..cnt])
    requires lte != gt
    requires var (f, p) := SplitSetup(1, maxBin, defaultBin, mostFreqBin, missingType, defaultLeft, threshold, false);
      |LteOf(pb, f, p, dataIndices[..cnt])| <= lte.Length && |GtOf(pb, f, p, dataIndices[..cnt])| <= gt.Length
    modifies lte, gt
    ensures var (f, p) := SplitSetup(1, maxBin, defaultBin, mostFreqBin, missingType, defaultLeft, threshold, false);
      SplitDone(pb, f, p, dataIndices[..cnt], lte, gt, lteCount)
  {
    var (f, p) := SplitSetup(1, maxBin, defaultBin, mostFreqBin, missingType, defaultLeft, threshold, false);
    lteCount := SplitInner(pb, f, p, dataIndices, cnt, lte, gt);
  }
}
