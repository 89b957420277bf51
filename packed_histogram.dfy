/**
  Gradient histogram construction of the dense pairwise ranking bin,
  packed-integer path (`ConstructHistogramIntInner` and the twelve
  `ConstructHistogramInt8/16/32` entry points).

  Each position carries one 16-bit value whose high byte is a signed
  gradient and whose low byte is a hessian. A kernel adds, for every
  position of `[start, end)`, a packed value to the one cell of its bin.
  The cell is an `int16_t`, `int32_t` or `int64_t` for `HIST_BITS` 8, 16
  or 32. Above 8 bits, the packed value holds the signed high byte shifted
  left by `HIST_BITS`, OR'd with the low byte (hessian variant) or with 1
  (count variant). At 8 bits the raw 16-bit value is added in both
  variants. The cells wrap around in two's complement.
*/
module PackedHistogram {
  import opened Wrappers
  import opened PairwiseBin
  import opened Histogram

  /** `HIST_BITS` (8, 16 or 32) and the cell type `PACKED_HIST_T` it comes
      with (`int16_t`, `int32_t`, `int64_t`). */
  datatype Width = W8 | W16 | W32 {
    /** `1 << HIST_BITS`: the weight of the high field of a cell. */
    function FieldBase(): nat {
      match this
      case W8 => 0x100
      case W16 => 0x1_0000
      case W32 => 0x1_0000_0000
    }

    /** `x` is a value of the signed cell type, of `2 * HIST_BITS` bits. */
    predicate InRange(x: int) {
      match this
      case W8 => -0x8000 <= x < 0x8000
      case W16 => -0x8000_0000 <= x < 0x8000_0000
      case W32 => -0x8000_0000_0000_0000 <= x < 0x8000_0000_0000_0000
    }
  }

  /** The 16-bit values the kernel reads from `ordered_gradients`. */
  newtype int16 = x: int | -0x8000 <= x < 0x8000

  /** `static_cast<int8_t>(g >> 8)`, with `>>` taken as the arithmetic shift,
      which floors; the result already fits a signed byte. */
  function HighByte(g: int16): (h: int)
    ensures -0x80 <= h < 0x80
  {
    (g as int) / 0x100
  }

  /** `g & 0xff`: the low byte of the two's complement representation. */
  function LowByte(g: int16): (l: int)
    ensures 0 <= l < 0x100
  {
    (g as int) % 0x100
  }

  /** The two bytes make up the 16-bit value. */
  lemma BytesOf(g: int16)
    ensures g as int == HighByte(g) * 0x100 + LowByte(g)
  {
  }

  /** `h << HIST_BITS` for a signed `h` (the shift of a negative value is
      taken as the multiplication it is on two's complement hardware). */
  function Shift(w: Width, h: int): int {
    match w
    case W8 => h * 0x100
    case W16 => h * 0x1_0000
    case W32 => h * 0x1_0000_0000
  }

  /** Shifting distributes over addition. */
  lemma ShiftAdd(w: Width, a: int, b: int)
    ensures Shift(w, a + b) == Shift(w, a) + Shift(w, b)
  {
  }

  /** The value added to a cell for one position. The shifted high byte has
      its low `HIST_BITS` bits clear, so OR-ing in a byte or 1 adds it. */
  function Packed(w: Width, useHessian: bool, g: int16): (r: int)
    ensures w.InRange(r)
  {
    if w == W8 then g as int
    else Shift(w, HighByte(g)) + (if useHessian then LowByte(g) else 1)
  }

  /** Above 8 bits the packed value has the high byte in its high field and
      the low byte, or 1, in its low field; at 8 bits it is the raw value,
      which splits the same way into the two bytes. Either way it is a value
      of the cell type. */
  lemma PackedFields(w: Width, useHessian: bool, g: int16)
    ensures Packed(w, useHessian, g) ==
      Shift(w, HighByte(g)) + (if useHessian || w == W8 then LowByte(g) else 1)
    ensures w.InRange(Packed(w, useHessian, g))
  {
    BytesOf(g);
  }

  /** The cell type's wrap-around: the value of the cell type congruent to
      `x` modulo `2^(2 * HIST_BITS)`. */
  function Wrap(w: Width, x: int): (r: int)
    ensures w.InRange(r)
    ensures w.InRange(x) ==> r == x
    ensures match w
      case W8 => (x - r) % 0x1_0000 == 0
      case W16 => (x - r) % 0x1_0000_0000 == 0
      case W32 => (x - r) % 0x1_0000_0000_0000_0000 == 0
  {
    match w
    case W8 => (x + 0x8000) % 0x1_0000 - 0x8000
    case W16 => (x + 0x8000_0000) % 0x1_0000_0000 - 0x8000_0000
    case W32 => (x + 0x8000_0000_0000_0000) % 0x1_0000_0000_0000_0000 - 0x8000_0000_0000_0000
  }

  /** Reducing modulo `m` before adding `y` does not change the result
      modulo `m`, for each cell modulus `m` (written out per modulus so that
      the arithmetic stays linear). */
  lemma ModAdd16(a: int, y: int)
    ensures (a % 0x1_0000 + y) % 0x1_0000 == (a + y) % 0x1_0000
  {
    var q, r := a / 0x1_0000, a % 0x1_0000;
    assert a + y == 0x1_0000 * q + (r + y);
  }

  lemma ModAdd32(a: int, y: int)
    ensures (a % 0x1_0000_0000 + y) % 0x1_0000_0000 == (a + y) % 0x1_0000_0000
  {
    var q, r := a / 0x1_0000_0000, a % 0x1_0000_0000;
    assert a + y == 0x1_0000_0000 * q + (r + y);
  }

  lemma ModAdd64(a: int, y: int)
    ensures (a % 0x1_0000_0000_0000_0000 + y) % 0x1_0000_0000_0000_0000 == (a + y) % 0x1_0000_0000_0000_0000
  {
    var q, r := a / 0x1_0000_0000_0000_0000, a % 0x1_0000_0000_0000_0000;
    assert a + y == 0x1_0000_0000_0000_0000 * q + (r + y);
  }

  /** Wrapping after every addition wraps the total `z = x + y` once. */
  lemma WrapAdd(w: Width, x: int, y: int, z: int)
    requires z == x + y
    ensures Wrap(w, Wrap(w, x) + y) == Wrap(w, z)
  {
    match w
    case W8 =>
      assert Wrap(w, x) + y + 0x8000 == (x + 0x8000) % 0x1_0000 + y;
      ModAdd16(x + 0x8000, y);
    case W16 =>
      assert Wrap(w, x) + y + 0x8000_0000 == (x + 0x8000_0000) % 0x1_0000_0000 + y;
      ModAdd32(x + 0x8000_0000, y);
    case W32 =>
      assert Wrap(w, x) + y + 0x8000_0000_0000_0000 == (x + 0x8000_0000_0000_0000) % 0x1_0000_0000_0000_0000 + y;
      ModAdd64(x + 0x8000_0000_0000_0000, y);
  }

  /** The inputs an integer kernel reads besides the cells. */
  datatype IntInputs = IntInputs(walk: Walk, width: Width, useHessian: bool, grads: seq<int16>) {
    /** Positions `[start, end)` resolve and have a 16-bit input. */
    predicate Reads(start: int, end: int) {
      walk.Covers(start, end) && (start < end ==> end <= |grads|)
    }

    /** ... and their bins are below `bins`. */
    predicate Readable(start: int, end: int, bins: nat) {
      Reads(start, end) && walk.BinsBelow(start, end, bins)
    }
  }

  /** The sum, without wrap-around, of the packed values of the positions of
      `[start, i)` whose bin is `b`. */
  function PackedSum(inp: IntInputs, start: int, end: int, i: int, b: nat): int
    requires inp.Reads(start, end) && start <= i <= Stop(start, end)
    decreases i - start
  {
    if i == start then 0
    else
      assert inp.walk.PositionOk(i - 1);
      PackedSum(inp, start, end, i - 1, b) +
        (if inp.walk.BinAt(i - 1) == b then Packed(inp.width, inp.useHessian, inp.grads[i - 1]) else 0)
  }

  /** The sum of the high bytes (the gradients) of the positions of
      `[start, i)` whose bin is `b`. */
  function HighSum(inp: IntInputs, start: int, end: int, i: int, b: nat): int
    requires inp.Reads(start, end) && start <= i <= Stop(start, end)
    decreases i - start
  {
    if i == start then 0
    else
      assert inp.walk.PositionOk(i - 1);
      HighSum(inp, start, end, i - 1, b) + (if inp.walk.BinAt(i - 1) == b then HighByte(inp.grads[i - 1]) else 0)
  }

  /** The sum of the low bytes (the hessians) of the positions of
      `[start, i)` whose bin is `b`. */
  function LowSum(inp: IntInputs, start: int, end: int, i: int, b: nat): int
    requires inp.Reads(start, end) && start <= i <= Stop(start, end)
    decreases i - start
  {
    if i == start then 0
    else
      assert inp.walk.PositionOk(i - 1);
      LowSum(inp, start, end, i - 1, b) + (if inp.walk.BinAt(i - 1) == b then LowByte(inp.grads[i - 1]) else 0)
  }

  /** The low field of a bin: its hessian sum, or its number of positions in
      the count variant above 8 bits. */
  function LowField(inp: IntInputs, start: int, end: int, i: int, b: nat): int
    requires inp.Reads(start, end) && start <= i <= Stop(start, end)
  {
    if inp.useHessian || inp.width == W8 then LowSum(inp, start, end, i, b)
    else CountIn(inp.walk, start, end, i, b)
  }

  /** The cell type holds each of `cells`. */
  predicate AllInRange(w: Width, cells: seq<int>) {
    forall c :: 0 <= c < |cells| ==> w.InRange(cells[c])
  }

  /** The cells after the positions `[start, i)` of a walk over
      `[start, end)` have been added to `cells0`: each cell holds, wrapped
      to the cell type, its initial value plus the packed values of the
      positions of its bin. */
  function PackedCells(cells0: seq<int>, inp: IntInputs, start: int, end: int, i: int): (cells: seq<int>)
    requires inp.Reads(start, end) && start <= i <= Stop(start, end)
    ensures |cells| == |cells0| && AllInRange(inp.width, cells)
  {
    seq(|cells0|, c requires 0 <= c < |cells0| => Wrap(inp.width, cells0[c] + PackedSum(inp, start, end, i, c)))
  }

  /** Before the first position the cells are the initial ones. */
  lemma PackedCellsStart(cells0: seq<int>, inp: IntInputs, start: int, end: int)
    requires inp.Reads(start, end) && AllInRange(inp.width, cells0)
    ensures PackedCells(cells0, inp, start, end, start) == cells0
  {
  }

  /** The wrapped total of one cell before and after a position: it gains
      the packed value `p` when the position's bin is the cell's (`hit`). */
  lemma CellStep(w: Width, x0: int, before: int, after: int, p: int, hit: bool)
    requires after == before + (if hit then p else 0)
    ensures Wrap(w, x0 + after) == if hit then Wrap(w, Wrap(w, x0 + before) + p) else Wrap(w, x0 + before)
  {
    if hit {
      WrapAdd(w, x0 + before, p, x0 + after);
    }
  }

  /** One position more is one `out_ptr[ti] += gradient_packed`: the cell of
      the position's bin gains its packed value and wraps, the other cells
      stay. Wrapping after every addition thus gives the wrapped totals. */
  lemma PackedCellsStep(cells0: seq<int>, inp: IntInputs, start: int, end: int, i: int)
    requires inp.Reads(start, end) && start <= i < end
    ensures inp.walk.PositionOk(i) && inp.walk.BinAt(i) < |cells0| ==>
      PackedCells(cells0, inp, start, end, i + 1) ==
        var cells, b := PackedCells(cells0, inp, start, end, i), inp.walk.BinAt(i);
        cells[b := Wrap(inp.width, cells[b] + Packed(inp.width, inp.useHessian, inp.grads[i]))]
  {
    assert inp.walk.PositionOk(i);
    var cells, b := PackedCells(cells0, inp, start, end, i), inp.walk.BinAt(i);
    if b < |cells0| {
      var next := PackedCells(cells0, inp, start, end, i + 1);
      var bumped := cells[b := Wrap(inp.width, cells[b] + Packed(inp.width, inp.useHessian, inp.grads[i]))];
      forall c | 0 <= c < |cells0|
        ensures next[c] == bumped[c]
      {
        var before, after := PackedSum(inp, start, end, i, c), PackedSum(inp, start, end, i + 1, c);
        CellStep(inp.width, cells0[c], before, after, Packed(inp.width, inp.useHessian, inp.grads[i]), b == c);
      }
    }
  }

  /** The packed total of a bin is its gradient sum in the high field plus
      its low field. */
  lemma {:induction false} PackedSumFields(inp: IntInputs, start: int, end: int, i: int, b: nat)
    requires inp.Reads(start, end) && start <= i <= Stop(start, end)
    ensures PackedSum(inp, start, end, i, b) == Shift(inp.width, HighSum(inp, start, end, i, b)) + LowField(inp, start, end, i, b)
    decreases i - start
  {
    if i != start {
      PackedSumFields(inp, start, end, i - 1, b);
      assert inp.walk.PositionOk(i - 1);
      var g := inp.grads[i - 1];
      PackedFields(inp.width, inp.useHessian, g);
      if inp.walk.BinAt(i - 1) == b {
        ShiftAdd(inp.width, HighSum(inp, start, end, i - 1, b), HighByte(g));
      }
    }
  }

  /** Splitting a cell into its fields: a value `x` made of a high field `h`
      and a low field `0 <= l < 2^HIST_BITS` gives back `h` as the floored
      quotient by `2^HIST_BITS` and `l` as the remainder. */
  lemma DecodeFields(w: Width, h: int, l: int, x: int)
    requires 0 <= l < w.FieldBase() && x == Shift(w, h) + l
    ensures x / w.FieldBase() == h && x % w.FieldBase() == l
  {
    match w
    case W8 =>
    case W16 =>
    case W32 =>
  }

  /** Starting from a zeroed cell, as long as its total fits the cell type,
      the high field of the cell is the gradient sum of its bin and its low
      field the hessian sum (or the count): the packing loses nothing. */
  lemma PackedExact(cells0: seq<int>, inp: IntInputs, start: int, end: int, c: nat)
    requires inp.Reads(start, end) && c < |cells0| && cells0[c] == 0
    requires 0 <= LowField(inp, start, end, Stop(start, end), c) < inp.width.FieldBase()
    requires inp.width.InRange(PackedSum(inp, start, end, Stop(start, end), c))
    ensures var cell := PackedCells(cells0, inp, start, end, Stop(start, end))[c];
      && cell / inp.width.FieldBase() == HighSum(inp, start, end, Stop(start, end), c)
      && cell % inp.width.FieldBase() == LowField(inp, start, end, Stop(start, end), c)
  {
    var s := Stop(start, end);
    PackedSumFields(inp, start, end, s, c);
    DecodeFields(inp.width, HighSum(inp, start, end, s, c), LowField(inp, start, end, s, c),
                 PackedCells(cells0, inp, start, end, s)[c]);
  }

  /** `out_ptr[ti] += gradient_packed`, with `ti` the bin code. */
  method AddPacked(cells: array<int>, b: nat, w: Width, useHessian: bool, g: int16)
    requires b < cells.Length
    modifies cells
    ensures cells[..] == old(cells[..])[b := Wrap(w, old(cells[b]) + Packed(w, useHessian, g))]
  {
    var packed: int;
    if w == W8 {
      packed := g as int;
    } else if useHessian {
      packed := Shift(w, HighByte(g)) + LowByte(g);
    } else {
      packed := Shift(w, HighByte(g)) + 1;
    }
    cells[b] := Wrap(w, cells[b] + packed);
  }

  /** The body both loops share: resolve position `i` and add its packed
      value to the cell of its bin. */
  method AddPackedPosition(inp: IntInputs, start: int, end: int, i: int, cells: array<int>, ghost cells0: seq<int>)
    requires start <= i < end && |cells0| == cells.Length
    requires inp.Readable(start, end, cells.Length)
    requires cells[..] == PackedCells(cells0, inp, start, end, i)
    modifies cells
    ensures cells[..] == PackedCells(cells0, inp, start, end, i + 1)
  {
    var idx := UnpairedIndexAt(inp.walk, start, end, i);
    PackedCellsStep(cells0, inp, start, end, i);
    AddPacked(cells, inp.walk.pb.data[idx], inp.width, inp.useHessian, inp.grads[i]);
  }

  /** The prefetching loop, as in the floating-point kernel: it runs while
      the look-ahead position one cache line of codes ahead is below `end`,
      and resolves that look-ahead pair too. */
  method PackedPrefetchLoop(inp: IntInputs, start: int, end: int, i0: int, cells: array<int>, ghost cells0: seq<int>)
    returns (i: int)
    requires start <= i0 <= Stop(start, end) && |cells0| == cells.Length
    requires inp.Readable(start, end, cells.Length)
    requires cells[..] == PackedCells(cells0, inp, start, end, i0)
    modifies cells
    ensures i0 <= i <= Stop(start, end)
    ensures cells[..] == PackedCells(cells0, inp, start, end, i)
  {
    var pfOffset := PrefetchOffset(inp.walk.pb.valType);
    var pfEnd := end - pfOffset;
    i := i0;
    while i < pfEnd
      invariant i0 <= i <= Stop(start, end)
      invariant cells[..] == PackedCells(cells0, inp, start, end, i)
    {
      // the look-ahead pair is resolved only to compute a cache hint
      var pfIdx := UnpairedIndexAt(inp.walk, start, end, i + pfOffset);
      AddPackedPosition(inp, start, end, i, cells, cells0);
      i := i + 1;
    }
  }

  /** The cleanup loop: every remaining position `i0 .. end - 1`. Returns
      the position it stops at, which is where the walk ends. */
  method PackedCleanupLoop(inp: IntInputs, start: int, end: int, i0: int, cells: array<int>, ghost cells0: seq<int>)
    returns (i: int)
    requires start <= i0 <= Stop(start, end) && |cells0| == cells.Length
    requires inp.Readable(start, end, cells.Length)
    requires cells[..] == PackedCells(cells0, inp, start, end, i0)
    modifies cells
    ensures i == Stop(start, end)
    ensures cells[..] == PackedCells(cells0, inp, start, end, i)
  {
    i := i0;
    while i < end
      invariant i0 <= i <= Stop(start, end)
      invariant cells[..] == PackedCells(cells0, inp, start, end, i)
    {
      AddPackedPosition(inp, start, end, i, cells, cells0);
      i := i + 1;
    }
  }

  /** `ConstructHistogramIntInner<USE_INDICES, USE_PREFETCH, USE_HESSIAN,
      PACKED_HIST_T, HIST_BITS>`: the same two loops as the floating-point
      kernel, adding packed values to one cell per bin. */
  method ConstructHistogramIntInner(pb: DenseBin, k: KernelFlags, w: Width, dataIndices: seq<int>, start: int, end: int,
                                    grads: seq<int16>, cells: array<int>)
    requires IntInputs(Walk(pb, k.useIndices, dataIndices), w, k.useHessian, grads).Readable(start, end, cells.Length)
    requires AllInRange(w, cells[..])
    modifies cells
    ensures cells[..] ==
      PackedCells(old(cells[..]), IntInputs(Walk(pb, k.useIndices, dataIndices), w, k.useHessian, grads),
                        start, end, Stop(start, end))
  {
    var inp := IntInputs(Walk(pb, k.useIndices, dataIndices), w, k.useHessian, grads);
    ghost var cells0 := cells[..];
    PackedCellsStart(cells0, inp, start, end);
    var i := start;
    if k.usePrefetch {
      i := PackedPrefetchLoop(inp, start, end, i, cells, cells0);
    }
    i := PackedCleanupLoop(inp, start, end, i, cells, cells0);
  }

  /** The twelve `ConstructHistogramInt8/16/32` overloads: `w` names the
      overload's width, `dataIndices` is `None` where the overload has no
      such parameter, and `withHessians` says whether it takes the (unread)
      `ordered_hessians` parameter, which selects the hessian variant. */
  method ConstructHistogramInt(w: Width, pb: DenseBin, dataIndices: Option<seq<int>>, start: int, end: int,
                               grads: seq<int16>, withHessians: bool, cells: array<int>)
    requires IntInputs(Walk(pb, dataIndices.Some?, if dataIndices.Some? then dataIndices.value else []),
                       w, withHessians, grads).Readable(start, end, cells.Length)
    requires AllInRange(w, cells[..])
    modifies cells
    ensures cells[..] ==
      PackedCells(old(cells[..]),
                        IntInputs(Walk(pb, dataIndices.Some?, if dataIndices.Some? then dataIndices.value else []),
                                  w, withHessians, grads),
                        start, end, Stop(start, end))
  {
    var k := EntryFlags(dataIndices.Some?, withHessians);
    var indices := if dataIndices.Some? then dataIndices.value else [];
    ConstructHistogramIntInner(pb, k, w, indices, start, end, grads, cells);
  }
}
