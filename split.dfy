/**
  Node split of the dense pairwise ranking bin: partition a node's pair
  indices into the `lte` and `gt` outputs at a threshold bin.

  The five compile-time template flags of `SplitInner` become the fields of
  `SplitFlags`; the public `Split` overloads pick them from the missing-value
  kind with `DispatchFlags`. The side a pair goes to is a function of its
  bin code alone, `GoesLeft`; `SplitInner` is proved to append each pair, in
  input order, to the output `GoesLeft` names.
*/
module Split {
  import opened PairwiseBin
  import opened Partition

  /** How missing feature values are encoded. */
  datatype MissingType = None | Zero | NaN

  /** `MISS_IS_ZERO`, `MISS_IS_NA`, `MFB_IS_ZERO`, `MFB_IS_NA`, `USE_MIN_BIN`. */
  datatype SplitFlags = SplitFlags(missIsZero: bool, missIsNa: bool, mfbIsZero: bool, mfbIsNa: bool, useMinBin: bool) {
    /** The combinations the dispatchers can produce: at most one missing
        kind, and the most-frequent-bin flag only together with its kind. */
    predicate Consistent() {
      && !(missIsZero && missIsNa)
      && (mfbIsZero ==> missIsZero)
      && (mfbIsNa ==> missIsNa)
    }

    /** The most-frequent bin already holds the missing values, so missing
        values are not told apart from the default bucket. */
    predicate MfbAbsorbsMissing() {
      (missIsNa && mfbIsNa) || (missIsZero && mfbIsZero)
    }
  }

  /** The `uint32_t` arguments of a split, and `default_left`. */
  datatype SplitParams = SplitParams(minBin: nat, maxBin: nat, defaultBin: nat, mostFreqBin: nat,
                                     defaultLeft: bool, threshold: nat) {
    predicate InUint32Range() {
      IsUint32(minBin) && IsUint32(maxBin) && IsUint32(defaultBin) && IsUint32(mostFreqBin) && IsUint32(threshold)
    }
  }

  /** `--x` on a `VAL_T`: decrement with wrap-around, so that 0 becomes the
      largest value of the type. */
  function Decrement(vt: ValType, x: nat): (r: nat)
    requires x < vt.Modulus()
    ensures r < vt.Modulus()
    ensures (r + 1) % vt.Modulus() == x
  {
    if x == 0 then vt.Modulus() - 1 else x - 1
  }

  /** Low bits of a `uint32_t` sum: `static_cast<VAL_T>(a + b)`. */
  function NarrowSum(vt: ValType, a: nat, b: nat): (r: nat)
    ensures r < vt.Modulus()
    ensures r == (a + b) % vt.Modulus()
  {
    NarrowOfUint32(vt, a + b);
    Narrow(vt, (a + b) % Uint32Modulus)
  }

  /** The bin width divides 32 bits, so truncating to 32 bits first does not
      change the low bits. */
  lemma NarrowOfUint32(vt: ValType, x: nat)
    ensures Narrow(vt, x % Uint32Modulus) == x % vt.Modulus()
  {
    match vt
    case U8 => LowByteOfUint32(x);
    case U16 => LowHalfOfUint32(x);
    case U32 =>
  }

  lemma LowByteOfUint32(x: nat)
    ensures (x % 0x1_0000_0000) % 0x100 == x % 0x100
  {
    var r, k := x % 0x1_0000_0000, x / 0x1_0000_0000;
    assert x == 0x1_0000_0000 * k + r;
    assert r == 0x100 * (r / 0x100) + r % 0x100;
    assert x == 0x100 * (0x100_0000 * k + r / 0x100) + r % 0x100;
  }

  lemma LowHalfOfUint32(x: nat)
    ensures (x % 0x1_0000_0000) % 0x1_0000 == x % 0x1_0000
  {
    var r, k := x % 0x1_0000_0000, x / 0x1_0000_0000;
    assert x == 0x1_0000_0000 * k + r;
    assert r == 0x1_0000 * (r / 0x1_0000) + r % 0x1_0000;
    assert x == 0x1_0000 * (0x1_0000 * k + r / 0x1_0000) + r % 0x1_0000;
  }

  /** The threshold bin `th`: `threshold + min_bin` in the bin's width, one
      lower (with wrap-around) when the most-frequent bin is 0. */
  function Th(vt: ValType, p: SplitParams): (th: nat)
    ensures th < vt.Modulus()
    ensures (th + (if p.mostFreqBin == 0 then 1 else 0)) % vt.Modulus() == (p.threshold + p.minBin) % vt.Modulus()
  {
    var th := NarrowSum(vt, p.threshold, p.minBin);
    if p.mostFreqBin == 0 then Decrement(vt, th) else th
  }

  /** The bin code of a zero feature value, `t_zero_bin`: `min_bin +
      default_bin`, adjusted like `th`. */
  function TZeroBin(vt: ValType, p: SplitParams): (z: nat)
    ensures z < vt.Modulus()
    ensures (z + (if p.mostFreqBin == 0 then 1 else 0)) % vt.Modulus() == (p.minBin + p.defaultBin) % vt.Modulus()
  {
    var z := NarrowSum(vt, p.minBin, p.defaultBin);
    if p.mostFreqBin == 0 then Decrement(vt, z) else z
  }

  /** The side of pairs in the missing bucket: `default_left` when a missing
      kind is in force, `gt` otherwise. */
  function MissingLeft(f: SplitFlags, p: SplitParams): bool {
    (f.missIsZero || f.missIsNa) && p.defaultLeft
  }

  /** The side of pairs in the default bucket: where the most-frequent bin
      lies relative to the threshold. */
  function DefaultLeft(p: SplitParams): bool {
    p.mostFreqBin <= p.threshold
  }

  /** The pair is caught as an explicit missing value (`bin == t_zero_bin`
      for missing-zero, `bin == maxb` for missing-NaN) in the ranged loop. */
  predicate MissingHit(vt: ValType, f: SplitFlags, p: SplitParams, bin: nat) {
    || (f.missIsZero && !f.mfbIsZero && bin == TZeroBin(vt, p))
    || (f.missIsNa && !f.mfbIsNa && bin == Narrow(vt, p.maxBin))
  }

  /** The pair's bin lies in the default bucket: outside `[minb, maxb]` when
      the range is checked, bin code 0 when it is not. */
  predicate InDefaultBucket(vt: ValType, f: SplitFlags, p: SplitParams, bin: nat) {
    if f.useMinBin then bin < Narrow(vt, p.minBin) || bin > Narrow(vt, p.maxBin)
    else bin == 0
  }

  /** Whether a pair with bin code `bin` is placed in the `lte` output. */
  function GoesLeft(vt: ValType, f: SplitFlags, p: SplitParams, bin: nat): bool {
    var defaultSide := if f.MfbAbsorbsMissing() then MissingLeft(f, p) else DefaultLeft(p);
    var maxb := Narrow(vt, p.maxBin);
    if p.minBin < p.maxBin then
      if MissingHit(vt, f, p, bin) then MissingLeft(f, p)
      else if InDefaultBucket(vt, f, p, bin) then defaultSide
      else bin <= Th(vt, p)
    else
      if f.missIsZero && !f.mfbIsZero && bin == TZeroBin(vt, p) then MissingLeft(f, p)
      else if bin != maxb then defaultSide
      else if f.missIsNa && !f.mfbIsNa then MissingLeft(f, p)
      else maxb <= Th(vt, p)
  }

  /** Flag selection of the two public `Split` overloads. The short
      overload is this with `min_bin = 1` and `useMinBin = false`. */
  function DispatchFlags(missingType: MissingType, minBin: nat, maxBin: nat, defaultBin: nat,
                         mostFreqBin: nat, useMinBin: bool): (f: SplitFlags)
    ensures f.Consistent() && f.useMinBin == useMinBin
    ensures f.missIsZero <==> missingType.Zero?
    ensures f.missIsNa <==> missingType.NaN?
    ensures f.mfbIsZero <==> missingType.Zero? && defaultBin == mostFreqBin
    ensures f.mfbIsNa <==> missingType.NaN? && maxBin == (mostFreqBin + minBin) % Uint32Modulus && mostFreqBin > 0
  {
    match missingType
    case None =>
      SplitFlags(false, false, false, false, useMinBin)
    case Zero =>
      if defaultBin == mostFreqBin then SplitFlags(true, false, true, false, useMinBin)
      else SplitFlags(true, false, false, false, useMinBin)
    case NaN =>
      if maxBin == (mostFreqBin + minBin) % Uint32Modulus && mostFreqBin > 0 then
        SplitFlags(false, true, false, true, useMinBin)
      else SplitFlags(false, true, false, false, useMinBin)
  }

  predicate AllPairs(pb: DenseBin, pairs: seq<int>) {
    forall k :: 0 <= k < |pairs| ==> pb.IsPair(pairs[k])
  }

  /** The side flag of every pair of the node, in input order. */
  function Routing(pb: DenseBin, f: SplitFlags, p: SplitParams, pairs: seq<int>): (route: seq<bool>)
    requires pb.Valid() && AllPairs(pb, pairs)
  {
    seq(|pairs|, k requires 0 <= k < |pairs| => GoesLeft(pb.valType, f, p, pb.BinOfPair(pairs[k])))
  }

  /** The specified `lte` output. */
  function LteOf(pb: DenseBin, f: SplitFlags, p: SplitParams, pairs: seq<int>): seq<int>
    requires pb.Valid() && AllPairs(pb, pairs)
  {
    Select(pairs, Routing(pb, f, p, pairs), true)
  }

  /** The specified `gt` output. */
  function GtOf(pb: DenseBin, f: SplitFlags, p: SplitParams, pairs: seq<int>): seq<int>
    requires pb.Valid() && AllPairs(pb, pairs)
  {
    Select(pairs, Routing(pb, f, p, pairs), false)
  }
}
