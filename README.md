# Dense pairwise ranking bin: node split and histogram construction

This project models the read path of LightGBM's dense pairwise ranking bin
(`DensePairwiseRankingBin` in `src/io/pairwise_lambdarank_bin.cpp`). The bin
gives tree-building code a pair-indexed view of one feature. Each pair index
is resolved to an example index (`get_unpaired_index`), and that example's
bin code is read from the per-example storage (`unpaired_bin_->data`). Two
families of operations read the bin through that view:

- **Node split.** `SplitInner` and the two public `Split` overloads
  partition a node's list of pair indices into an `lte` buffer and a `gt`
  buffer at a threshold bin, and return the number placed in `lte`. The
  routing accounts for:
  - the missing-value kind (none, zero, NaN);
  - the most-frequent bin;
  - the default bucket;
  - the degenerate single-bin range.
- **Histogram construction.** `ConstructHistogramInner` and its four
  `ConstructHistogram` entry points accumulate floating-point gradients into
  two slots per bin. In those two slots the hessian, or a counter, sits
  beside the gradient. `ConstructHistogramIntInner` and its twelve
  `ConstructHistogramInt8/16/32` entry points instead add bit-packed 16-bit
  gradients into one integer cell per bin. With `data_indices`, a kernel
  runs a prefetching loop and then a cleanup loop over the same position
  counter; without them, only the cleanup loop.

The modules follow the structure of the code:

| file | module | contents |
|---|---|---|
| `pairwise_bin.dfy` | `Wrappers`, `PairwiseBin` | the bin (`DenseBin`), its code width `VAL_T`, the narrowing cast, the prefetch distance |
| `partition.dfy` | `Partition` | the order-preserving two-way partition (`Select`) and its properties |
| `split.dfy` | `Split` | template flags, `th` / `t_zero_bin`, the routing function `GoesLeft`, flag dispatch |
| `split_kernel.dfy` | `SplitKernel` | `SplitInner`, its two loops over the caller's `lte`/`gt` arrays, the two `Split` overloads |
| `split_rules.dfy` | `SplitRules` | each routing rule on its own, plus permutation, stability and a worked example |
| `histogram.dfy` | `Histogram` | the floating-point kernel over `out`/`cnt` arrays and its specification `Accumulated` |
| `packed_histogram.dfy` | `PackedHistogram` | the packing rule, two's complement cells, the packed-integer kernel and its specification `PackedCells` |

How the model represents the source:

- **Pair-to-bin translation.** `get_unpaired_index` and the storage lookup
  are modelled by their graphs. `DenseBin.unpairedIndex` maps a pair to an
  example, and `DenseBin.data` maps an example to its bin code.
  `DenseBin.Valid` is the range contract the read path relies on.
- **Template flags.** They become ordinary booleans: `SplitFlags` for the
  split and `KernelFlags` for the kernels. The histogram width becomes
  `Width`.
- **Redirected counters.** `SplitInner` chooses the `default_indices`,
  `missing_default_indices` and `max_bin_indices` destinations before its loop.
  The model chooses the matching booleans before the loop and appends
  through `Place`.
- **Kernel specifications.** Each kernel's result is tied to a function of
  its inputs:
  - `SplitInner`: `LteOf` / `GtOf`, a `Select` of the pairs by `Routing`;
  - the float kernel: `Accumulated`;
  - the packed kernel: `PackedCells`.

  The properties the code promises are proved about these functions.
- **Worked split.** For `min_bin = 1`, `max_bin = 4`, `default_bin = 1`,
  `most_freq_bin = 1`, no missing kind, `threshold = 2` and pairs 0..3 with
  codes 1..4, the code computes `th = threshold + min_bin = 3`. It therefore
  places pairs 0, 1, 2 in `lte` and pair 3 in `gt` (`SplitRules.WorkedSplit`).

## Model

| member | source | states |
|---|---|---|
| PairwiseBin.Narrow | src/io/pairwise_lambdarank_bin.cpp:323-324 | `static_cast<VAL_T>` keeps a value below the width's modulus, leaves smaller values unchanged, and differs from its input by a multiple of the modulus |
| PairwiseBin.PrefetchOffset | src/io/pairwise_lambdarank_bin.cpp:65 | the look-ahead `64 / sizeof(VAL_T)` is positive and spans exactly one 64-byte cache line of codes |
| PairwiseBin.DenseBin.BinOfPair | src/io/pairwise_lambdarank_bin.cpp:343-345 | a pair's bin code is a code stored for some example, and is below the storage's code limit |
| Partition.Select | src/io/pairwise_lambdarank_bin.cpp:342-360 | one output of the partition is never longer than its input |
| Partition.Positions | src/io/pairwise_lambdarank_bin.cpp:342-360 | the positions routed to one side are valid input positions whose flag is that side |
| Partition.SelectAppend | src/io/pairwise_lambdarank_bin.cpp:342-360 | partitioning a concatenation partitions each part and concatenates the results |
| Partition.SelectPrefixStep | src/io/pairwise_lambdarank_bin.cpp:342-360 | one more input element appends that element to exactly the output its flag names, and a prefix's output is never longer than the whole output |
| Partition.SelectLengths | src/io/pairwise_lambdarank_bin.cpp:325-391 | the two outputs together are exactly as long as the input (`lte_count + gt_count == cnt`) |
| Partition.SelectPermutation | src/io/pairwise_lambdarank_bin.cpp:325-391 | the two outputs together are a permutation of the input (multiset equality) |
| Partition.PositionsIncreasing | src/io/pairwise_lambdarank_bin.cpp:342-360 | the positions of one side strictly increase and include every position with that side |
| Partition.SelectStable | src/io/pairwise_lambdarank_bin.cpp:342-360 | the `j`-th element of an output is the input element at the `j`-th position of that side (input order kept) |
| Partition.SelectMember | src/io/pairwise_lambdarank_bin.cpp:342-360 | every input element is found in the output its flag names |
| Split.Decrement | src/io/pairwise_lambdarank_bin.cpp:319-322 | `--x` on a `VAL_T` stays in the width, and adding one back (with wrap-around) gives `x` |
| Split.NarrowSum | src/io/pairwise_lambdarank_bin.cpp:317-318 | the `uint32_t` sum cast to `VAL_T` is the exact sum modulo the width's modulus, since the width divides 32 bits |
| Split.NarrowOfUint32 | src/io/pairwise_lambdarank_bin.cpp:317 | truncating to 32 bits before narrowing to `VAL_T` does not change the low bits |
| Split.LowByteOfUint32 | src/io/pairwise_lambdarank_bin.cpp:317 | the low byte of a value is the low byte of its low 32 bits |
| Split.LowHalfOfUint32 | src/io/pairwise_lambdarank_bin.cpp:317 | the low 16 bits of a value are the low 16 bits of its low 32 bits |
| Split.Th | src/io/pairwise_lambdarank_bin.cpp:317-322 | `th` is in the width and, adding back the decrement taken when `most_freq_bin == 0`, equals `threshold + min_bin` modulo the width |
| Split.TZeroBin | src/io/pairwise_lambdarank_bin.cpp:318-322 | `t_zero_bin` is in the width and, adding back the decrement, equals `min_bin + default_bin` modulo the width |
| Split.GoesLeft | src/io/pairwise_lambdarank_bin.cpp:341-389 | the side a pair's code is routed to, with `default_left` deciding the missing bucket (`MissingLeft`) and `most_freq_bin <= threshold` the default bucket (`DefaultLeft`, lines 327-340); its contract is stated case by case by `SplitRules.ThresholdRule`, `DefaultBucketRule`, `MissingZeroRule`, `MissingNaNRule` and `SingleBinRule` |
| Split.DispatchFlags | src/io/pairwise_lambdarank_bin.cpp:404-418 | in both `Split` overloads (the short one, lines 432-446, passes `min_bin = 1` and no `min_bin` flag): `None` sets no missing flag; `Zero` sets zero-is-most-frequent exactly when `default_bin == most_freq_bin`; `NaN` sets NaN-is-most-frequent exactly when `max_bin == most_freq_bin + min_bin` (as `uint32_t`) and `most_freq_bin > 0`; the flags are consistent |
| SplitKernel.Place | src/io/pairwise_lambdarank_bin.cpp:348-359 | appending the `i`-th pair at the chosen counter keeps both outputs equal to the partition of the first `i + 1` pairs, with nothing past the counters changed |
| SplitKernel.RouteOfPair | src/io/pairwise_lambdarank_bin.cpp:343-345 | the `i`-th pair of the node resolves, and its routed side is `GoesLeft` of its bin code |
| SplitKernel.RangedSide | src/io/pairwise_lambdarank_bin.cpp:346-360 | the branch chain of the ranged loop, using the counters chosen before the loop, picks exactly the side `GoesLeft` specifies |
| SplitKernel.SingleBinSide | src/io/pairwise_lambdarank_bin.cpp:363-387 | the branch chain of the single-bin loop, with `max_bin_indices` chosen from `maxb <= th`, picks exactly the side `GoesLeft` specifies |
| SplitKernel.RangedStep | src/io/pairwise_lambdarank_bin.cpp:342-361 | one iteration of the ranged loop extends the placed prefix by one pair |
| SplitKernel.SingleBinStep | src/io/pairwise_lambdarank_bin.cpp:369-388 | one iteration of the single-bin loop extends the placed prefix by one pair |
| SplitKernel.SplitLoopRanged | src/io/pairwise_lambdarank_bin.cpp:341-361 | the ranged loop leaves `lte[..lte_count]` and `gt[..gt_count]` equal to the specified outputs, returns `lte_count`, and changes nothing past them |
| SplitKernel.SplitLoopSingleBin | src/io/pairwise_lambdarank_bin.cpp:362-389 | the same for the single-bin loop |
| SplitKernel.SplitInner | src/io/pairwise_lambdarank_bin.cpp:308-391 | every pair, in input order, is appended to the output its code is routed to, `lte_count` is returned, and nothing past the written prefixes changes |
| SplitKernel.SplitRanged | src/io/pairwise_lambdarank_bin.cpp:393-420 | `Split` with `min_bin` runs `SplitInner` with the dispatched, range-checked flags and has its result |
| SplitKernel.SplitFromBinOne | src/io/pairwise_lambdarank_bin.cpp:422-448 | `Split` without `min_bin` runs `SplitInner` with `min_bin = 1`, no range check, and `NaN` most-frequent exactly when `max_bin == most_freq_bin + 1` |
| SplitRules.ThWithoutWrap | src/io/pairwise_lambdarank_bin.cpp:317-322 | without wrap-around, `th` is `threshold + min_bin`, minus one when `most_freq_bin == 0` |
| SplitRules.ThresholdRule | src/io/pairwise_lambdarank_bin.cpp:356-360 | with no missing kind, a pair inside `[minb, maxb]` goes to `lte` if and only if its code is at most `th` |
| SplitRules.DefaultBucketRule | src/io/pairwise_lambdarank_bin.cpp:327-355 | a pair in the default bucket goes to `lte` if and only if `most_freq_bin <= threshold`, or `default_left` when the most-frequent bin absorbs the missing kind |
| SplitRules.MissingZeroRule | src/io/pairwise_lambdarank_bin.cpp:335-348 | missing-as-zero, zero not most frequent: a pair with code `t_zero_bin` goes to `lte` if and only if `default_left`, in either loop |
| SplitRules.MissingNaNRule | src/io/pairwise_lambdarank_bin.cpp:335-348 | missing-as-NaN, NaN not most frequent: a pair with code `maxb` goes to `lte` if and only if `default_left`, in either loop |
| SplitRules.SingleBinRule | src/io/pairwise_lambdarank_bin.cpp:362-389 | single-bin branch: code `maxb` goes to `lte` if and only if `maxb <= th`, or by `default_left` under missing-NaN-not-most-frequent; every other code that is not an explicit zero goes to the default bucket's side |
| SplitRules.SideIsFunctionOfCode | src/io/pairwise_lambdarank_bin.cpp:342-360 | two pairs with the same bin code are routed to the same side |
| SplitRules.SplitPlacesEveryPair | src/io/pairwise_lambdarank_bin.cpp:325-391 | the two outputs are together as long as the input and a permutation of it |
| SplitRules.SplitPlacesBySide | src/io/pairwise_lambdarank_bin.cpp:342-360 | each pair is found in `lte` when `GoesLeft` of its code holds, in `gt` otherwise |
| SplitRules.SplitKeepsOrder | src/io/pairwise_lambdarank_bin.cpp:342-360 | each output lists the pairs routed to its side at strictly increasing input positions |
| SplitRules.WorkedSplit | src/io/pairwise_lambdarank_bin.cpp:341-361 | codes 1..4, `min_bin = 1`, `max_bin = 4`, `most_freq_bin = 1`, threshold 2: `lte = [0, 1, 2]`, `gt = [3]` |
| SplitRules.WorkedSides | src/io/pairwise_lambdarank_bin.cpp:356-360 | in the worked example a code from 1 to 4 goes left if and only if it is at most 3 |
| SplitRules.WorkedBinValid | src/io/pairwise_lambdarank_bin.cpp:343-345 | the worked example's bin is well formed and resolves pairs 0..3 to codes 1..4 |
| SplitRules.WorkedRouting | src/io/pairwise_lambdarank_bin.cpp:341-361 | the worked example routes its pairs left, left, left, right |
| SplitRules.WorkedSelect | src/io/pairwise_lambdarank_bin.cpp:342-360 | partitioning pairs 0..3 by left, left, left, right gives `[0, 1, 2]` and `[3]` |
| Histogram.Walk.PairAt | src/io/pairwise_lambdarank_bin.cpp:68 | `USE_INDICES ? data_indices[i] : i` is a pair the bin can translate |
| Histogram.Walk.BinAt | src/io/pairwise_lambdarank_bin.cpp:89-91 | the bin code at a position is below the storage's code limit |
| Histogram.AddToBin | src/io/pairwise_lambdarank_bin.cpp:78-85 | one position's addition keeps the buffer's size |
| Histogram.AddToBinSlot | src/io/pairwise_lambdarank_bin.cpp:78-85 | only slots `2b` and `2b + 1` change: the gradient goes to `2b`; the hessian to `2b + 1`, or, without hessians, one to the counter on `2b + 1` |
| Histogram.Accumulated | src/io/pairwise_lambdarank_bin.cpp:88-99 | the buffer after a prefix of the walk keeps its size and bins |
| Histogram.AccumulatedSlot | src/io/pairwise_lambdarank_bin.cpp:59-99 | each position is added exactly once, to its own bin: slot `2b` gains bin `b`'s gradient sum, slot `2b + 1` its hessian sum or its counter its number of positions, and every other slot is unchanged (`start == end` changes nothing) |
| Histogram.AccumulatedResume | src/io/pairwise_lambdarank_bin.cpp:59-99 | accumulating `[start, k)` and then `[k, i)` gives the buffer of `[start, i)`: the cleanup loop resumes the prefetch loop without loss or repetition |
| Histogram.TotalCountStep | src/io/pairwise_lambdarank_bin.cpp:95-98 | one more position adds one to the total count of the bins below `bins` if its bin is one of them |
| Histogram.CountsOfEmpty | src/io/pairwise_lambdarank_bin.cpp:59 | before the first position all counts are zero |
| Histogram.CountsAddUp | src/io/pairwise_lambdarank_bin.cpp:88-99 | when every bin is below `bins`, the counters of those bins together gain exactly the number of positions walked |
| Histogram.WorkedHistogram | src/io/pairwise_lambdarank_bin.cpp:172-173 | three pairs through examples 0, 2, 0 with codes 0, 2, 0 and unit inputs: bin 0 gets 2 in both slots, bin 2 gets 1, every other slot stays 0 |
| Histogram.UnpairedIndexAt | src/io/pairwise_lambdarank_bin.cpp:68-69 | the storage index of a position inside the walked range is in bounds and holds the position's bin code |
| Histogram.AddToBuffer | src/io/pairwise_lambdarank_bin.cpp:78-85 | `grad[ti] += g` and `hess[ti] += h` or `++cnt[ti]` with `ti = b << 1` is `AddToBin` on the buffer |
| Histogram.AddPosition | src/io/pairwise_lambdarank_bin.cpp:89-98 | one loop body advances the buffer from `Accumulated(.., i)` to `Accumulated(.., i + 1)` |
| Histogram.PrefetchLoop | src/io/pairwise_lambdarank_bin.cpp:64-87 | the prefetch loop's look-ahead read stays inside `[start, end)`, and the loop leaves the buffer accumulated up to the position it stops at |
| Histogram.CleanupLoop | src/io/pairwise_lambdarank_bin.cpp:88-99 | the cleanup loop ends at the end of the walk with the buffer accumulated over it |
| Histogram.ConstructHistogramInner | src/io/pairwise_lambdarank_bin.cpp:51-100 | with or without prefetching, the buffer ends as `Accumulated` over the whole walk |
| Histogram.ConstructHistogram | src/io/pairwise_lambdarank_bin.cpp:157-192 | each of the four overloads ends with the buffer accumulated over its walk |
| PackedHistogram.HighByte | src/io/pairwise_lambdarank_bin.cpp:131 | `static_cast<int8_t>(g >> 8)` is a signed byte |
| PackedHistogram.LowByte | src/io/pairwise_lambdarank_bin.cpp:131 | `g & 0xff` is an unsigned byte |
| PackedHistogram.BytesOf | src/io/pairwise_lambdarank_bin.cpp:131 | the signed high byte times 256 plus the low byte is the 16-bit value |
| PackedHistogram.ShiftAdd | src/io/pairwise_lambdarank_bin.cpp:131 | shifting left by `HIST_BITS` distributes over addition |
| PackedHistogram.Packed | src/io/pairwise_lambdarank_bin.cpp:130-135 | the value `gradient_packed` added for one position fits the cell type; its two fields are stated by `PackedFields`, and their sums over a bin by `PackedSumFields` and `PackedExact` |
| PackedHistogram.PackedFields | src/io/pairwise_lambdarank_bin.cpp:130-135 | the packed value has the high byte in its high field and the low byte, or 1 in the count variant above 8 bits, in its low field, and fits the cell type |
| PackedHistogram.Wrap | src/io/pairwise_lambdarank_bin.cpp:132 | two's complement wrap-around gives the value of the cell type congruent to its input modulo `2^(2 * HIST_BITS)`, which is the input itself when it already fits |
| PackedHistogram.ModAdd16 | src/io/pairwise_lambdarank_bin.cpp:132 | reducing modulo 2^16 before an addition does not change the sum modulo 2^16 |
| PackedHistogram.ModAdd32 | src/io/pairwise_lambdarank_bin.cpp:132 | the same modulo 2^32 |
| PackedHistogram.ModAdd64 | src/io/pairwise_lambdarank_bin.cpp:132 | the same modulo 2^64 |
| PackedHistogram.WrapAdd | src/io/pairwise_lambdarank_bin.cpp:132 | wrapping after an addition to a wrapped value equals wrapping the exact total once |
| PackedHistogram.PackedCells | src/io/pairwise_lambdarank_bin.cpp:140-154 | the cells after a prefix of the walk keep their number and are all values of the cell type |
| PackedHistogram.PackedCellsStart | src/io/pairwise_lambdarank_bin.cpp:109 | before the first position the cells are the initial ones (`start == end` changes nothing) |
| PackedHistogram.CellStep | src/io/pairwise_lambdarank_bin.cpp:148 | one cell's wrapped total after a position equals its wrapped total before, plus the packed value and wrapped again when the position's bin is the cell's |
| PackedHistogram.PackedCellsStep | src/io/pairwise_lambdarank_bin.cpp:143-153 | one more position is one `out_ptr[ti] += gradient_packed`: the cell of its bin gains its packed value with wrap-around, and the other cells stay |
| PackedHistogram.PackedSumFields | src/io/pairwise_lambdarank_bin.cpp:145-153 | a bin's unwrapped packed total is its gradient sum shifted into the high field plus its hessian sum, or its count in the count variant above 8 bits |
| PackedHistogram.DecodeFields | src/io/pairwise_lambdarank_bin.cpp:131 | a value made of a high field and a low field below `2^HIST_BITS` gives back both by floored division and remainder |
| PackedHistogram.PackedExact | src/io/pairwise_lambdarank_bin.cpp:102-155 | from a zeroed cell, as long as the total fits the cell type and the low field fits its bits, the cell's high field is the bin's gradient sum and its low field the hessian sum or count: the packing loses nothing |
| PackedHistogram.AddPacked | src/io/pairwise_lambdarank_bin.cpp:143-153 | `out_ptr[ti] += gradient_packed` adds the packed value to cell `ti` with wrap-around and changes no other cell |
| PackedHistogram.AddPackedPosition | src/io/pairwise_lambdarank_bin.cpp:141-153 | one loop body advances the cells from `PackedCells(.., i)` to `PackedCells(.., i + 1)` |
| PackedHistogram.PackedPrefetchLoop | src/io/pairwise_lambdarank_bin.cpp:113-139 | the look-ahead read stays inside `[start, end)`, and the cells are accumulated up to where the loop stops |
| PackedHistogram.PackedCleanupLoop | src/io/pairwise_lambdarank_bin.cpp:140-154 | the cleanup loop ends at the end of the walk with the cells accumulated over it |
| PackedHistogram.ConstructHistogramIntInner | src/io/pairwise_lambdarank_bin.cpp:102-155 | with or without prefetching, each cell ends as its initial value plus the packed values of its bin's positions, wrapped to the cell type |
| PackedHistogram.ConstructHistogramInt | src/io/pairwise_lambdarank_bin.cpp:194-306 | each of the twelve overloads ends with the cells accumulated over its walk at its width, in the hessian variant exactly when it takes `ordered_hessians` |

## Left out

- The pass-through lifecycle methods (`InitStreaming`, `Push`, `CopySubrow`,
  `SaveBinaryToFile`, `LoadFromMemory`, `SizesInByte`, `num_data`, `ReSize`,
  lines 11-49). They only forward to the per-example storage, which is not
  part of this model, and they include file I/O.
- The bodies of `get_unpaired_index`, of the First/Second/Diff iterators and
  of `unpaired_bin_->data`, including the 4-bit unpacking. They live in
  headers that are not part of this model. The model takes their results as
  data (`DenseBin.unpairedIndex`, `DenseBin.data`), with the range contract
  `DenseBin.Valid`. For 4-bit storage only the code limit 16 is modelled.
- `PREFETCH_T0`. It is a cache hint with no effect on results. The model
  keeps only the look-ahead resolution and proves that its index stays in
  range. It does not model `pf_idx >> 1` for 4-bit storage, which only forms
  the hint's address.
- Floating-point rounding. `hist_t` and `score_t` are modelled as `real`, so
  the float kernel's sums are exact sums.
- The `reinterpret_cast` overlays:
  - The `hist_cnt_t` counters that share memory with the odd `hist_t` slots
    are a separate `int` array `cnt`, indexed by the same slot number.
  - The packed cells that overlay the `hist_t` buffer are an `array<int>`
    with one cell per bin.
  - The `int16_t` view of `ordered_gradients` is a `seq<int16>`.
- Histogram.AddToBuffer: writes slot `2 * b` without bound. The source's
  `static_cast<uint32_t>(data(idx)) << 1` wraps for a `uint32_t` code
  `b >= 2^31`, and would then index slot `2 * b - 2^32`. The model does not
  capture that wrap. Such a code can only reach the model with a buffer of
  more than `2^32` slots, since it requires `2 * b + 1 < out.Length`.
  Overflow of the `hist_cnt_t` counters is not modelled either.
- PackedHistogram.Wrap: the `int16_t` cells (`HIST_BITS == 8`) add in `int`
  and convert back. That conversion is implementation-defined before C++20
  and modular from C++20 on. Overflow of the `int32_t` and `int64_t` cells is
  undefined behaviour. All three are modelled as the two's complement
  wrap-around the hardware performs. Left-shifting a negative high byte is
  modelled as multiplication by `2^HIST_BITS`, and the OR with the low byte
  or 1 is written as an addition, which it equals because the shifted value's
  low `HIST_BITS` bits are clear. The right shift of a negative `int16_t`
  (`HighByte`) is taken as the arithmetic (flooring) shift, which is
  implementation-defined before C++20.
- PackedHistogram.PackedExact: it states exactness only under the caller's
  obligation that the total and its low field fit the cell. The code does
  not check this.
- The macro instantiation matrix (lines 451-531). It is build plumbing that
  instantiates the templates for each iterator and `VAL_T`.
- Concurrency. Callers run these kernels on disjoint buffers from several
  threads, which is outside this code.
- SplitKernel.SplitInner: the model requires the `lte` buffer to hold at
  least the pairs routed to `lte`, the `gt` buffer at least those routed to
  `gt`, and the two buffers to be distinct arrays.
