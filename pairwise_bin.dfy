/** Optional values, used for the entry points whose index or hessian
    arrays may be absent (passed as `nullptr` by the C++ overloads). */
module Wrappers {
  datatype Option<T> = None | Some(value: T)
}

/**
  The dense pairwise ranking bin: a pair-indexed view over the per-example
  bin storage of one feature.

  The pair-to-example translation (`get_unpaired_index`) and the storage
  lookup (`unpaired_bin_->data`) live in code outside this model; they are
  represented here by their graphs: `unpairedIndex[p]` is the example that
  pair `p` is resolved through, and `data[u]` is the bin code stored for
  example `u`. `Valid()` is the range contract the read path relies on.
*/
module PairwiseBin {

  /** Storage type of one bin code (`VAL_T`). */
  datatype ValType = U8 | U16 | U32 {
    /** `sizeof(VAL_T)` */
    function Bytes(): nat {
      match this
      case U8 => 1
      case U16 => 2
      case U32 => 4
    }

    /** Number of distinct values of `VAL_T`. */
    function Modulus(): nat {
      match this
      case U8 => 0x100
      case U16 => 0x1_0000
      case U32 => 0x1_0000_0000
    }
  }

  const Uint32Modulus: nat := 0x1_0000_0000

  predicate IsUint32(x: int) {
    0 <= x < Uint32Modulus
  }

  /** `static_cast<VAL_T>(x)` for an unsigned `x`: keep the low bits. */
  function Narrow(vt: ValType, x: nat): (r: nat)
    ensures r < vt.Modulus()
    ensures x < vt.Modulus() ==> r == x
    ensures (x - r) % vt.Modulus() == 0
  {
    x % vt.Modulus()
  }

  /** Prefetch look-ahead distance of the histogram kernels: one 64-byte
      cache line worth of bin codes, `64 / sizeof(VAL_T)`. */
  function PrefetchOffset(vt: ValType): (d: nat)
    ensures d > 0 && d * vt.Bytes() == 64
  {
    64 / vt.Bytes()
  }

  /** One feature's dense pairwise bin. `is4Bit` is the packed 4-bit
      storage variant, which keeps `VAL_T = uint8_t`. */
  datatype DenseBin = DenseBin(valType: ValType, is4Bit: bool, unpairedIndex: seq<int>, data: seq<nat>) {

    /** Largest bin code plus one that the storage can hold. */
    function CodeLimit(): nat {
      if is4Bit then 16 else valType.Modulus()
    }

    predicate Valid() {
      && (is4Bit ==> valType == U8)
      && (forall u :: 0 <= u < |data| ==> data[u] < CodeLimit())
      && (forall p :: 0 <= p < |unpairedIndex| ==> 0 <= unpairedIndex[p] < |data|)
    }

    /** `p` is a pair index the mapper can translate. */
    predicate IsPair(p: int) {
      0 <= p < |unpairedIndex|
    }

    /** `unpaired_bin_->data(get_unpaired_index(p))`: the bin code of pair `p`. */
    function BinOfPair(p: int): (b: nat)
      requires Valid() && IsPair(p)
      ensures b < CodeLimit() <= valType.Modulus()
      ensures exists u :: 0 <= u < |data| && b == data[u]
    {
      var u := unpairedIndex[p];
      data[u]
    }
  }
}
