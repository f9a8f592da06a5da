# Gemmini, verified

A Dafny model of the functional Gemmini accelerator (`software/libgemmini/gemmini.cc`): a machine with a row-addressed
scratchpad, an accumulator, the array's own registers, byte-addressed main memory, configuration registers and
normalisation statistics, its micro-instructions, and the two loop instructions that expand into them. The loop
instructions add no functionality over the micro-instructions; what the project proves is that each one is a program
that computes the plain mathematical operator the repository's tests compare it with.

All sizes (`DIM`, scratchpad and accumulator rows, block lengths) are symbolic; the shipped values appear only where a
numeric bound is claimed. Accumulator arithmetic wraps as int32 does; `Wrap32` is written out everywhere it can matter.
Scales are real numbers, and the integer exponential, GELU, square root and reciprocals of the normalisation enter only
as the functions the source computes.

Layers, lowest first:

1. Arithmetic and memory: `arith.dfy`, `scaling.dfy`, `dram.dfy`, `state.dfy`, `words.dfy`.
2. Where a move-in lands: `patch.dfy` (strides, blocks, repeated pixels), `layout.dfy`, `tiles.dfy`, `chunks.dfy`.
3. The machine: `machine.dfy` (class `Gemmini`), `norm.dfy`, `pool.dfy`.
4. `loop_ws`: `loop_ws*.dfy`, with `norm_pass.dfy`, `row_norm.dfy` and `outputs.dfy` for the activations and
   `resadd.dfy` for residual addition.
5. Whole products: `tiling.dfy`, `tiled_*.dfy` and `auto_tiling.dfy` for the host's `tiled_matmul`.
6. `loop_conv_ws`: `conv*.dfy`, from the layouts of one call up to sequences of calls.
7. Command traces and test programs: `traces.dfy`, `roundtrip.dfy`, `manual_conv.dfy`, `im2col.dfy`, `reference.dfy`.

The main results, with where to find them:

- `LoopWs.LoopWs` and `LoopWsMatrix.ProductIsMatMul`: an accepted call leaves C equal to the scaled and activated
  D + A*B, although weights are loaded once per (k, j) and stores of C are interleaved with later loads.
  `LoopWsChain.RunChain` extends this to products split over several accumulating calls, and
  `LoopWsChain.ThirtyOneCallsAreSafe` says how many of them cannot overflow.
- `TiledRun.TiledMatmulOuter` and `AutoTiling.TiledMatmulAuto`: the host's loop of `loop_ws` calls, with last-tile sizes
  and paddings, bias on the first slice, stores on the last and up to two tiles of either operand kept resident, leaves
  the product of the whole matrices, whatever tiles were chosen. It fails exactly when "no activation" follows a softmax
  (`TiledMeaning.PlainIffNoSoftmax`).
- `LoopWsNorm.StoreNormalised` and `LoopWsNorm.OwnStatistics`: three interleaved passes over four statistic slots give
  each row the statistics it would have alone, and hand every slot back reset. `NormPass.OwnIffLastBlock` is the exact
  condition: it fails when the last block of a row is all padding, because the finishing commands are then not issued
  (`NormPass.StaleLayernorm` and `NormPass.StaleSoftmax` are outputs that differ).
- `LoopConvWs.LoopConvWs`, `ConvMeaning.TotalIsDirect`, `ConvMeaning.DirectIsReference` and
  `ConvResult.StoredIsReference`: the tiled convolution, for every stride, padding, kernel and input dilation, rotation,
  layout flag, packed first layer and pooled store, is the naive convolution of the tests.
- `ConvSequence.RunGroups` and `ConvSequence.StoredIsWhole`: over any sequence of bias-to-output groups the calls of a
  group meet in one accumulator half, so that channel-split calls sum to the whole convolution.
- `ConvTensors.StoresConvolution`, `LoopWsMeaning.StoresLayernorm`, `LoopWsMeaning.StoresSoftmax`,
  `TiledMeaning.StoresPlain` and `Traces.SpadResult`: what ends up in memory, stated in plain arithmetic on the stored
  tensors, matrices and operands (nearest integers, quotients toward zero, square roots, contiguous indices).
- `Traces.RunTrace`: every finite trace of preload/compute pairs, in either dataflow and to either memory, equals its
  recursive gold definition.
- `LoopWsReuse.NullIsReload`: a null operand address gives the C that loading the resident operand again would.
- `RoundTrip.ReturnsIffMovable`: exactly which shapes survive mvin followed by mvout.
- `LoopWsResadd.Resadd` with `InPlaceIsInOrder`: residual addition is correct in place.

Conventions: memories are read through the total accessor `At`, so that contracts can speak of every cell; a `Start`
record holds the registers and memories a loop instruction began with, and every later contract is stated in terms of
it; `Completed` says what an instruction leaves behind.

## Model

| member | source | states |
|---|---|---|
| `Scaling.RoundIsNearest` | software/libgemmini/gemmini_params.h:52-60 | ROUND_NEAR_EVEN returns a nearest integer, and an even one on a tie |
| `Scaling.RoundUnique` | software/libgemmini/gemmini_params.h:52-60 | that property determines the integer, so it is the whole specification of the macro |
| `Scaling.RoundMonotone` | software/libgemmini/gemmini_params.h:52-60 | rounding keeps order |
| `Scaling.ScaleIdentity` | software/libgemmini/gemmini_params.h:68-72 | at identity scale ACC_SCALE and MVIN_SCALE are plain saturation to int8 |
| `Scaling.ScaleMonotone` | software/libgemmini/gemmini.cc:1848-1859 | for a non-negative scale, scaling keeps order |
| `Scaling.ShiftIsNearest` | software/libgemmini/gemmini_params.h:40-44 | ROUNDING_RIGHT_SHIFT by any amount is division by the power of two rounded to nearest, ties to even |
| `Scaling.NearestQuotientUnique` | software/libgemmini/gemmini_params.h:40-44 | the nearest-even quotient is unique, so the bit formula and the definition agree everywhere |
| `Scaling.ShiftMonotone` | software/libgemmini/gemmini.cc:1861-1872 | sys_shift, rounding and saturation included, keeps order |
| `Scaling.ScaleIsNearest` | software/libgemmini/gemmini_params.h:52-72 | for every value, scale and r nearest to their product, ACC_SCALE and MVIN_SCALE give r saturated to int8 |
| `Scaling.ActivateIsClip` | software/libgemmini/gemmini.cc:1690-1696 | ReLU clips what is below zero and nothing else |
| `Scaling.ShiftsToNearest` | software/libgemmini/gemmini.cc:1861-1872 | for every r nearest to the value over two to the shift, sys_shift gives r saturated to int8 |
| `Dram.FourBytes` | software/libgemmini/gemmini.cc:59-66 | four little-endian bytes of an int32 read back as that int32 |
| `Dram.StoreOutSpec` | software/libgemmini/gemmini.cc:110-115 | a stored output reads back as itself, at either width, and no byte outside it changes |
| `Dram.StrideKeepsApart` | software/libgemmini/gemmini.cc:233-298 | rows that do not run into each other keep all elements of a strided store apart |
| `Words.PackRoundTrip` | software/libgemmini/gemmini.cc:119-124 | rows, columns and address come back out of a packed operand word |
| `Words.DestRoundTrip` | software/libgemmini/gemmini.cc:626-630 | every destination below row 2^29, and the all-ones "no operand", survives encoding and decoding |
| `Words.SourceRoundTrip` | software/libgemmini/gemmini.cc:220-227 | every mvout source below row 2^26 (width flag and norm command included) survives encoding and decoding |
| `Words.FieldsInPlace` | software/libgemmini/gemmini.cc:119-227 | rows from bit 48, columns from bit 32, accumulator, accumulate, width and norm command at bits 31, 30, 29 and 26 |
| `Words.SameRowBothWays` | software/libgemmini/gemmini.cc:119-227 | mvin keeps 29 row bits and mvout 26: a destination means the same row to both exactly below row 2^26 |
| `Patches.LandsIffSource` | software/libgemmini/gemmini.cc:138-150 | an element of a strided, multi-block or multi-pixel mvin lands exactly on the cells whose source it is |
| `Machine.Gemmini.MvinSpadElement` | software/libgemmini/gemmini.cc:149-206 | one element is written to its cell and repeated for its `pixels` left neighbours, never below row 0; no other cell changes |
| `Machine.Gemmini.MvinAccElement` | software/libgemmini/gemmini.cc:149-186 | the same into the accumulator, overwriting or accumulating |
| `Machine.Gemmini.MvinSpad` | software/libgemmini/gemmini.cc:119-218 | every scratchpad cell after mvin: the last scaled element to land there or what it held; when no cell is hit twice, the one element whose place it is |
| `Machine.Gemmini.MvinAcc` | software/libgemmini/gemmini.cc:119-218 | every accumulator cell after mvin: int32 or scaled int8, on top of or instead of the old value, also where elements collide |
| `Machine.Gemmini.PreloadArray` | software/libgemmini/gemmini.cc:534-566 | after a preload the array holds the (transposed) block, zero outside its rows and columns |
| `Machine.Gemmini.DotWs` | software/libgemmini/gemmini.cc:575-597 | one weight-stationary result: bias plus the dot product, with int32 wrap-around |
| `Machine.Gemmini.DotOs` | software/libgemmini/gemmini.cc:599-610 | one output-stationary result: the running value plus the dot product |
| `Machine.Gemmini.MatMulWs` | software/libgemmini/gemmini.cc:568-613 | all DIM x DIM weight-stationary results; the array is kept |
| `Machine.Gemmini.MatMulOs` | software/libgemmini/gemmini.cc:568-613 | all DIM x DIM running sums are updated in the array |
| `Machine.Gemmini.WriteBackAcc` | software/libgemmini/gemmini.cc:624-651 | results go unshifted to the strided output rows one after the other, overwriting or accumulating, repeated rows included; with distinct rows each cell gets its one result |
| `Machine.Gemmini.WriteBackSpad` | software/libgemmini/gemmini.cc:652-664 | results go shifted, saturated and activated to the strided output rows, a later row replacing an earlier one; other cells are kept |
| `Machine.Gemmini.Compute` | software/libgemmini/gemmini.cc:521-668 | the whole effect on array, accumulator and scratchpad, for both dataflows and any preload choice |
| `Machine.SysOutIs` | software/libgemmini/gemmini.cc:652-664 | a result on its way to the scratchpad: divided by two to the shift and rounded to nearest (output stationary) or unshifted (weight stationary), saturated, clipped by ReLU |
| `State.ExecuteFields` | software/libgemmini/gemmini.cc:378-432 | config_ex sets its seven fields, each from its own argument, and no other |
| `State.LoadStatesIndependent` | software/libgemmini/gemmini.cc:434-447 | setting one of the three load states reads back as set and changes nothing else |
| `State.SoftmaxSticks` | software/libgemmini/gemmini.cc:452-476 | activation code 0 keeps an earlier softmax: exactly when a later store configuration overrides an earlier one |
| `State.ResetKept` | software/libgemmini/gemmini.cc:1763-1769 | storing keeps every statistic slot that was reset reset, so a normalising call may follow any other |
| `Machine.Gemmini.SumRow` | software/libgemmini/gemmini.cc:1771-1778 | running sum of values or of squared deviations, with wrap-around |
| `Machine.Gemmini.MaxRow` | software/libgemmini/gemmini.cc:1779-1782 | running maximum |
| `Machine.Gemmini.ExpRow` | software/libgemmini/gemmini.cc:1783-1789 | running sum of integer exponentials relative to the maximum |
| `Machine.Gemmini.ApplyNorm` | software/libgemmini/gemmini.cc:1749-1804 | one norm command on one block: pending reset, gathering, final division, and whether to write |
| `Machine.Gemmini.NormRow` | software/libgemmini/gemmini.cc:233-252 | a row of several blocks is shown to the statistic with the non-terminating command on all but the last |
| `Machine.Gemmini.MvoutRow` | software/libgemmini/gemmini.cc:255-297 | one row reaches main memory element by element |
| `Machine.Gemmini.Mvout` | software/libgemmini/gemmini.cc:220-300 | un-pooled mvout: main memory after storing element by element, overlaps included; apart, every element is in place; no other byte changed; nothing written unless the command is RESET |
| `Norm.TruncDivIs` | software/libgemmini/gemmini.cc:1791-1795 | integer division is the quotient rounded toward zero |
| `Norm.SqrtIsRoot` | software/libgemmini/gemmini.cc:1794-1795 | the deviation is the integer square root: s * s <= v < (s + 1) * (s + 1) |
| `Norm.InvStddevIs` | software/libgemmini/gemmini.cc:1793-1797 | its inverse, that of one when the variance is zero |
| `Norm.IExpIs` | software/libgemmini/gemmini.cc:1715-1728 | the exponential is the polynomial of the remainder divided by two to the number of logarithms of two, rounded down |
| `Norm.IGeluIs` | software/libgemmini/gemmini.cc:1706-1713 | q ((c + qb)^2 + 2 qc) above zero and -q (c + qb)^2 below, c the magnitude of q limited to -qb |
| `Norm.NormStepSame` | software/libgemmini/gemmini.cc:1749-1804 | a norm command looks at its first `len` values only |
| `Pooling.Window` | software/libgemmini/gemmini.cc:316-345 | the running maximum over one window |
| `Pooling.MvoutPooled` | software/libgemmini/gemmini.cc:302-357 | every pooled pixel and channel is stored in turn, overlaps included; apart, every value is in place; no other byte changes |
| `Pooling.PoolMaxIsMaximum` | software/libgemmini/gemmini.cc:319-345 | the pooled value bounds its zero-padded window and is attained in it |
| `Pooling.PoolsUnpooledValues` | software/libgemmini/gemmini.cc:253-283 | what enters the maximum is what un-pooled mvout writes, from the scratchpad and, with no activation or ReLU, from the accumulator |
| `Pooling.PoolIsScaledMaximum` | software/libgemmini/gemmini.cc:302-357 | for a non-negative scale and a window inside the tile, the pooled value is the scaled, activated largest sum |
| `RoundTrip.CopyThroughSpad` | software/libgemmini/gemmini.cc:138-298 | mvin at identity scale then mvout: every element written is the last one to land in its cell, and for movable shapes the element itself, columns beyond DIM included, even onto overlapping memory |
| `RoundTrip.CopyThroughAcc` | software/libgemmini/gemmini.cc:138-298 | mvin then full-width mvout: every word written is the last one to land in its cell, and for movable shapes all four bytes of the element itself |
| `RoundTrip.ReturnsIffMovable` | software/libgemmini/gemmini.cc:138-250 | the exact condition, for any pixel count mvin accepts: every element is found where it was put if and only if the columns fit one block, or blocks are DIM rows apart and the rows fit between them |
| `RoundTrip.CopyFails` | software/libgemmini/gemmini.cc:138-250 | whenever the condition fails there is a matrix whose one non-zero element the copy loses, through either memory |
| `Traces.DataflowsAgree` | software/libgemmini/gemmini.cc:535-645 | output- and weight-stationary computation of one product agree for all operands, partial shapes and transposes |
| `Traces.StaleContentsIgnored` | software/libgemmini/gemmini.cc:534-612 | scratchpads that agree on the declared rows and columns of the operands give the same results and the same array after preload and compute, in either dataflow |
| `Traces.RunTrace` | software/libgemmini/gemmini.cc:360-668 | any finite trace of preload/compute pairs, in either dataflow, to either memory or none, with any strides, leaves array, accumulator and scratchpad at their recursive gold values |
| `Traces.ResultIsGold` | software/libgemmini/gemmini.cc:534-612 | one step computes its gold value from the original operands |
| `Traces.SpadResult` | software/gemmini-rocc-tests/bareMetalC/matmul_os.c:101-117 | a scratchpad result that was not overwritten: its gold value divided by two to the shift and rounded to nearest (output stationary) or as it is (weight stationary), saturated, clipped by ReLU |
| `Traces.LastWeights` | software/gemmini-rocc-tests/bareMetalC/matmul_ws.c:112-128 | in the weight-stationary dataflow a step multiplies with the last preloaded weights |
| `Traces.RunningSum` | software/gemmini-rocc-tests/bareMetalC/matmul_os.c:101-117 | in the output-stationary dataflow a step without a preload continues the sum of the step before it |
| `Traces.ChainsAreGold` | software/gemmini-rocc-tests/bareMetalC/matmul_ws.c:112-192 | every finished accumulation chain is in the accumulator at the gold value of the chain |
| `Traces.EndedApart` | software/gemmini-rocc-tests/bareMetalC/matmul_ws.c:145-156 | an output whose chain has ended is never written again |
| `LoopWsLayout.Regions` | software/libgemmini/gemmini.cc:691-704 | an accepted call keeps its A, B and C rows in range and A apart from B, for every choice of spad ids |
| `LoopWsLayout.SizeTestExact` | software/libgemmini/gemmini.cc:692-697 | as long as the row counts are int32 values the size test refuses exactly the oversized calls |
| `LoopWsLayout.SizeTestSound` | software/libgemmini/gemmini.cc:692-697 | it never refuses a call that fits, and one that slips through has a count of 2^31 or more |
| `LoopWsLayout.OversizedSlips` | software/libgemmini/gemmini.cc:692-697 | such a call: I = J = 16384, K = 4096 |
| `LoopWsSteps.ALoaded` | software/libgemmini/gemmini.cc:764-781 | loading an A block keeps what was loaded before |
| `LoopWsSteps.ResultIsBlockProduct` | software/libgemmini/gemmini.cc:802-823 | one compute multiplies exactly the blocks (i, k) and (k, j), transposes undone |
| `LoopWsSteps.AccStep` | software/libgemmini/gemmini.cc:802-823 | it adds that product to C block (i, j) and to no other |
| `LoopWsSteps.CStep` | software/libgemmini/gemmini.cc:825-837 | a stored C block is final and the stores before it stay |
| `LoopWs.LoadBias` | software/libgemmini/gemmini.cc:737-753 | the bias tile is in the accumulator before the first product |
| `LoopWs.PartialIsSum` | software/libgemmini/gemmini.cc:755-823 | the running value is start plus the block products so far, wrapped once |
| `LoopWs.FinalIsProduct` | software/libgemmini/gemmini.cc:670-837 | the finished value is start plus one sum over the unpadded inner dimension |
| `LoopWs.LoopWs` | software/libgemmini/gemmini.cc:670-889 | refuses exactly the oversized calls; otherwise C is the scaled, activated (or normalised) A*B on top of the start value, the accumulator holds the product, other bytes are kept, A and B stay resident, and scratchpad rows that were not loaded to are untouched |
| `LoopWsMatrix.ProductIsMatMul` | software/libgemmini/gemmini.cc:737-837 | the blocks and addresses are those of ordinary row-major matrices: D + A*B, either operand transposed, D kept only when accumulating |
| `LoopWsMatrix.SeparateBuffers` | software/libgemmini/gemmini.cc:765-837 | C apart from A and B (D may overlap C), with rows that do not run together, is enough |
| `LoopWsReuse.ReuseIsReload` | software/libgemmini/gemmini.cc:691-800 | with a null A, a null B or both, the product is that of a call which loads the resident operand again |
| `LoopWsReuse.NullIsReload` | software/libgemmini/gemmini.cc:691-837 | so both calls leave the same accumulator and the same C, normalised outputs included |
| `LoopWsReuse.LeftByPrevious` | software/libgemmini/gemmini.cc:691-837 | a completed call leaves both operands resident and still in main memory for a next call of the same shape and spad ids |
| `LoopWsReuse.StaysResident` | software/libgemmini/gemmini.cc:691-800 | any call leaves resident, A or B, whatever its own loads do not cover |
| `LoopWsReuse.ApartLoads` | software/libgemmini/gemmini.cc:699-704 | operands under different spad ids, or in one half with room for both, do not cover each other |
| `LoopWsReuse.NullKeeps` | software/libgemmini/gemmini.cc:764-800 | so a call that names no A, or no B, leaves the resident one for the call after it |
| `LoopWsMatrix.SumRange` | software/libgemmini/gemmini.cc:691-697 | an accepted call moves every running sum by at most 2^26 |
| `LoopWsMatrix.NoOverflow` | software/libgemmini/gemmini.cc:755-823 | no int32 the call forms wraps: neither the sums inside a block product nor, from a start below 2^31 - 2^26, the running value after any block product |
| `LoopWsChain.CompletedLinks` | software/libgemmini/gemmini.cc:755-823 | an accumulating call starts from what the completed call before it left |
| `LoopWsChain.ThirtyOneCallsAreSafe` | software/libgemmini/gemmini.cc:691-823 | over 31 linked calls from zero no in-block sum and no accumulator value wraps, and each value is the exact sum so far |
| `LoopWsChain.RunChain` | software/libgemmini/gemmini.cc:737-837 | a sequence of calls, all but the first accumulating and only the last storing, stores the sum of all their products, under any activation |
| `LoopWsChain.ChainIsProduct` | software/libgemmini/gemmini.cc:755-823 | when the calls split the inner dimension, that sum is the one product over the whole of it |
| `LoopWsChain.ShortChainsAreExact` | software/libgemmini/gemmini.cc:691-823 | chains of at most 31 calls from zero hold the exact integers |
| `LoopWsMeaning.StoresPlain` | software/libgemmini/gemmini.cc:825-837 | with no activation or ReLU a stored element is the product scaled, rounded to nearest, saturated and clipped, or at full width the product itself |
| `LoopWsMeaning.StoresGelu` | software/libgemmini/gemmini.cc:825-837 | GELU of the product in plain arithmetic, then scaled |
| `LoopWsMeaning.StoresLayernorm` | software/libgemmini/gemmini.cc:839-884 | the mean of the row toward zero, the integer deviation around it, their quotient toward zero, then scaled: no function of the model in between |
| `LoopWsMeaning.StoresSoftmax` | software/libgemmini/gemmini.cc:839-884 | the exponential relative to the row maximum as its share of 127, rounded and saturated, then scaled |
| `NormPass.MeanPass` | software/libgemmini/gemmini.cc:839-884 | the first layernorm pass over the blocks of a row leaves the sum, count and mean of the whole row |
| `NormPass.StddevPass` | software/libgemmini/gemmini.cc:839-884 | the second leaves the squared deviations from that mean and its inverse deviation |
| `NormPass.MaxPass` | software/libgemmini/gemmini.cc:839-884 | the first softmax pass leaves the maximum of the whole row |
| `NormPass.ExpPass` | software/libgemmini/gemmini.cc:839-884 | the second leaves the sum of exponentials relative to that maximum |
| `NormPass.ResetPass` | software/libgemmini/gemmini.cc:1763-1769 | the write pass changes no statistic that outputs depend on and leaves the slot reset if it wrote a column |
| `NormPass.TwoPasses` | software/libgemmini/gemmini.cc:839-884 | two passes give a slot the statistics of its own row alone, whatever it held |
| `NormPass.OwnIffLastBlock` | software/libgemmini/gemmini.cc:839-884 | the exact condition: every reset slot ends with the statistics of its own row if and only if the last block has a column |
| `NormPass.EmptyLastBlock` | software/libgemmini/gemmini.cc:864-880 | when the last block is all padding no pass finishes: mean, deviation and exponential sum stay those of an earlier row, only the softmax maximum is the row's own |
| `NormPass.StaleLayernorm` | software/libgemmini/gemmini.cc:839-884 | such a row after an ordinary one: layernorm stores -1 where the row's own statistics give 0 |
| `NormPass.StaleSoftmax` | software/libgemmini/gemmini.cc:839-884 | and softmax stores 127 for each of several equal values |
| `LoopWsNorm.RowIsReady` | software/libgemmini/gemmini.cc:826-839 | the passes read only fully accumulated tiles |
| `LoopWsNorm.RowPass` | software/libgemmini/gemmini.cc:859-881 | one pass of one slot, interleaved with up to three others, advances that slot alone |
| `LoopWsNorm.RowGroup` | software/libgemmini/gemmini.cc:855-882 | up to four rows at a time, their passes interleaved, leave every slot as if each row had gone through its slot alone, and C written under those statistics |
| `LoopWsNorm.StoreNormalised` | software/libgemmini/gemmini.cc:839-884 | a whole block row is stored normalised, the slots handed from group to group |
| `LoopWsNorm.BankReset` | software/libgemmini/gemmini.cc:1763-1769 | slots that start reset are reset again after any number of groups and block rows |
| `LoopWsNorm.OwnStatistics` | software/libgemmini/gemmini.cc:839-884 | from reset slots, and with a column in the last block, every output is normalised by the statistics of its own row alone |
| `Outputs.PlainOut` | software/libgemmini/gemmini.cc:1690-1747 | what a store makes of a value with no activation or ReLU |
| `Outputs.GeluOut` | software/libgemmini/gemmini.cc:1706-1732 | with GELU |
| `Outputs.LayernormOut` | software/libgemmini/gemmini.cc:1733-1737 | with layernorm, from the values of the row alone |
| `Outputs.SoftmaxOut` | software/libgemmini/gemmini.cc:1738-1743 | with softmax, from the values of the row alone |
| `RowNorm.Gathering` | software/libgemmini/gemmini.cc:1806-1817 | between its blocks a finishing command is issued as the gathering one |
| `RowNorm.MoveIsPass` | software/libgemmini/gemmini.cc:233-252 | one multi-block mvout of a row is one pass over its blocks |
| `RowNorm.ThreeMoves` | software/gemmini-rocc-tests/include/gemmini.h:3464-3499 | two finishing mvouts leave a reset slot with the statistics of the row, and the writing one leaves it reset |
| `RowNorm.NormaliseRow` | software/gemmini-rocc-tests/include/gemmini.h:3464-3499 | a whole accumulator row is stored normalised by its own statistics, other slots and bytes kept |
| `RowNorm.RowLayernorm` | software/gemmini-rocc-tests/include/gemmini.h:3464-3499 | what is stored with layernorm, in plain arithmetic on the row |
| `RowNorm.RowSoftmax` | software/gemmini-rocc-tests/include/gemmini.h:3464-3499 | and with softmax |
| `LoopWsResadd.Resadd` | software/libgemmini/gemmini.cc:705-735 | the residual-add form stores the scaled, activated sum of both operands and changes nothing else |
| `LoopWsResadd.StoresSum` | software/libgemmini/gemmini.cc:705-735 | each element of C is both int8 elements scaled, rounded and saturated, added, and the sum scaled, rounded, saturated and clipped, at row-major addresses |
| `LoopWsResadd.StillOriginal` | software/libgemmini/gemmini.cc:708-731 | when a block is read its operands are still the originals |
| `LoopWsResadd.InPlaceIsInOrder` | software/libgemmini/gemmini.cc:705-735 | C may be the very buffer of A or of B, or both |
| `Tiling.TilesCover` | software/gemmini-rocc-tests/include/gemmini.h:730-742 | the tiles cover the blocks: all but the last are full and the last is not empty |
| `Tiling.TileSpan` | software/gemmini-rocc-tests/include/gemmini.h:738-748 | block x of tile t is block t * tile + x of the whole, with the same number of elements, last-tile padding included |
| `Tiling.SameAddresses` | software/gemmini-rocc-tests/include/gemmini.h:818-842 | tile origin plus block offset is the address of the block in the whole matrix, for A, B, D and C |
| `Tiling.CallAccepted` | software/gemmini-rocc-tests/include/gemmini.h:1170-1195 | a tile that fits makes every one of its loop_ws calls acceptable |
| `Tiling.ActivationInForce` | software/gemmini-rocc-tests/include/gemmini.h:759-788 | the activation in force is the one asked for, except that no activation does not end an earlier softmax |
| `TiledMatmul.TermSame` | software/gemmini-rocc-tests/include/gemmini.h:830-845 | the products a call sums are the next slice of the inner dimension, operands loaded or still resident |
| `TiledMatmul.CallSum` | software/gemmini-rocc-tests/include/gemmini.h:811-856 | after call k0 of a tile its sums are the start value plus the inner dimension so far, wrapped once |
| `TiledMatmul.OtherAStays` | software/gemmini-rocc-tests/include/gemmini.h:805-845 | a reused A tile is in the half of the scratchpad that no other call loads over |
| `TiledMatmul.OtherBStays` | software/gemmini-rocc-tests/include/gemmini.h:805-845 | the same for B |
| `TiledMatmul.TileStores` | software/gemmini-rocc-tests/include/gemmini.h:828-856 | the last call of a tile stores it, finished, and leaves the tiles before it |
| `TiledRun.TiledMatmulOuter` | software/gemmini-rocc-tests/include/gemmini.h:717-859 | for every size, tiling, stride and transposition C ends as one loop_ws call on the whole matrices would leave it; no other byte changes; nothing is stored when the inner dimension is empty |
| `TiledMeaning.ArgumentsInForce` | software/gemmini-rocc-tests/include/gemmini.h:759-788 | scales, strides and, for GELU and softmax, constants in force are those of the arguments |
| `TiledMeaning.ProductIsJob` | software/gemmini-rocc-tests/include/gemmini.h:717-859 | the product behind C is bias plus the sum of scaled elements of the stored matrices, transposed or not |
| `TiledMeaning.StoresPlain` | software/gemmini-rocc-tests/include/gemmini.h:717-859 | C is that product scaled, rounded to nearest, saturated and clipped, for all operand scales |
| `TiledMeaning.StoresGelu` | software/gemmini-rocc-tests/include/gemmini.h:765-774 | or its GELU under the constants of the job |
| `TiledMeaning.StoresLayernorm` | software/gemmini-rocc-tests/include/gemmini.h:1215-1222 | or its layernorm over whole rows, in plain arithmetic |
| `TiledMeaning.StoresSoftmax` | software/gemmini-rocc-tests/include/gemmini.h:776-788 | or its softmax over whole rows under the constants of the job |
| `TiledMeaning.StoresFullMatmul` | software/gemmini-rocc-tests/bareMetalC/tiled_matmul_option.c:23-103 | at unit operand scales C is full_matmul with its bias, then full_matscale and full_matrelu |
| `TiledMeaning.PlainIffNoSoftmax` | software/libgemmini/gemmini.cc:452-471 | the exact condition: outputs are the scaled values for every state of the statistics if and only if no activation does not follow a softmax |
| `TiledMeaning.WholeRows` | software/gemmini-rocc-tests/include/gemmini.h:1215-1222 | with a single column tile layernorm and softmax see whole rows of the product, under the constants of the job |
| `AutoTiling.ChooseTiles` | software/gemmini-rocc-tests/include/gemmini.h:1293-1335 | the search ends with the tiles its rounds (column, row, depth) fill up to, which cannot be enlarged, lie within the matrices, and fit exactly when the ones it started from do |
| `AutoTiling.LimitsAre` | software/gemmini-rocc-tests/include/gemmini.h:1277-1281 | the limits are the integer root of the C blocks in half the accumulator and the depth of which that many fit |
| `AutoTiling.StartFits` | software/gemmini-rocc-tests/include/gemmini.h:1277-1302 | the square it starts from always fits |
| `AutoTiling.PassesChecks` | software/gemmini-rocc-tests/include/gemmini.h:1139-1213 | the checks pass exactly for tiles that are not empty, lie within the matrices, fit both memories and the size registers, with at most one operand transposed |
| `AutoTiling.TiledMatmulAuto` | software/gemmini-rocc-tests/include/gemmini.h:1139-1372 | tiles chosen and checked, C is the whole product; the checks pass for every plain product up to the width of the size registers |
| `Layouts.RowRun` | software/libgemmini/gemmini.cc:1348-1389 | in a four-index local layout, the row t below a run start is the run element t and nothing else |
| `Layouts.ChunkHit` | software/libgemmini/gemmini.cc:1139-1306 | a multi-block mvin along such a layout lands exactly on its own cells |
| `ConvLoad.LoadBias` | software/libgemmini/gemmini.cc:1139-1168 | bias (or zero) of every channel at every output pixel, nothing outside the bias rows changed |
| `ConvLoad.LoadInput` | software/libgemmini/gemmini.cc:1173-1249 | the padded image tile, zero in the padding, in plain, packed or transposed layout; nothing outside the A rows changed |
| `ConvLoad.LoadTransInput` | software/libgemmini/gemmini.cc:1177-1236 | the transposed form: images innermost, up to a block of them per mvin |
| `ConvLoad.LoadWeights` | software/libgemmini/gemmini.cc:1251-1316 | the weight tile, in any of the three memory layouts |
| `Chunks.PackedHit` | software/libgemmini/gemmini.cc:146-206 | a multi-pixel mvin fills each row with its pixel and its right-hand neighbours |
| `ConvTaps.TapInTile` | software/libgemmini/gemmini.cc:1339-1381 | every scratchpad row a tap reads lies inside the loaded tile |
| `ConvTaps.PadSplit` | software/libgemmini/gemmini.cc:1098-1112 | removing inserted zeros from a padded coordinate halves it and stays in range |
| `ConvTaps.TapColStep` | software/libgemmini/gemmini.cc:1350-1414 | stepping two output columns on dilated input is stepping one scratchpad row |
| `ConvTaps.SkippedIsZero` | software/libgemmini/gemmini.cc:1339-1347 | a tap that is skipped would have contributed zero |
| `ConvGroups.GroupBRow` | software/libgemmini/gemmini.cc:1383-1389 | the preloaded weights are those of the (rotated) taps, inside the weight rows |
| `ConvGroups.GroupResult` | software/libgemmini/gemmini.cc:1348-1410 | one compute multiplies the right pixels by the right weights, packed and transposed forms included |
| `ConvGroups.GroupHit` | software/libgemmini/gemmini.cc:1354-1414 | the rows a group writes are exactly those of its own outputs |
| `ConvGroups.GroupStep` | software/libgemmini/gemmini.cc:1339-1414 | a group adds its taps to its own outputs; outputs it passes over needed none |
| `ConvCompute.Tap` | software/libgemmini/gemmini.cc:1335-1420 | one channel block of one tap over all images and rows, weights preloaded once |
| `ConvCompute.PackedStep` | software/libgemmini/gemmini.cc:1335-1410 | a step over several packed pixels is the sum of its taps |
| `ConvCompute.Compute` | software/libgemmini/gemmini.cc:1318-1421 | afterwards every output holds its start value plus the whole convolution sum |
| `ConvStore.StoreOutputs` | software/libgemmini/gemmini.cc:1428-1447 | every output is stored, scaled and activated, in either output layout; no other byte changes |
| `ConvPool.StorePooled` | software/libgemmini/gemmini.cc:1448-1484 | the pooled store writes the max-pool of the outputs and nothing else |
| `LoopConvWs.LoopConvWs` | software/libgemmini/gemmini.cc:1028-1485 | the whole instruction: sums, stored outputs, untouched memory, resident operands, toggled accumulator halves, scratchpad rows outside the loaded operands kept, for every flag modelled |
| `ConvMeaning.TotalIsDirect` | software/libgemmini/gemmini.cc:1318-1421 | the sum each output receives is the direct convolution of its pixel and channel |
| `ConvMeaning.OffData` | software/libgemmini/gemmini.cc:1339-1347 | a tap is skipped exactly when it is against an inserted zero; any other tap reads a stored element or padding |
| `ConvMeaning.ImageIsDilated` | software/libgemmini/gemmini.cc:1098-1112 | halved coordinates read the zero-inserted image |
| `ConvMeaning.DirectIsReference` | software/gemmini-rocc-tests/bareMetalC/conv_with_kernel_dilation.c:93-152 | walking only the taps and walking the whole zero-dilated kernel give the same sum |
| `ConvMeaning.ReferencePixel` | software/gemmini-rocc-tests/bareMetalC/conv_with_kernel_dilation.c:123-155 | the reference loops compute the saturated int32 sum of bias and products |
| `ConvResult.StoredIsReference` | software/gemmini-rocc-tests/bareMetalC/conv_with_kernel_dilation.c:123-155 | at unit scale a completed call stores, byte for byte, what the reference loops leave |
| `ConvMeaning.ValueIsReference` | software/gemmini-rocc-tests/bareMetalC/conv_with_rot180.c:107-148 | a finished output is bias plus the reference convolution, rotated weights and dilations included |
| `ConvMeaning.UnitScaleIsClip` | software/gemmini-rocc-tests/bareMetalC/conv_with_input_dilation.c:112-143 | at unit scale the instruction saturates as the reference clips |
| `ConvMeaning.PackingIsTransparent` | software/libgemmini/gemmini.cc:1335-1410 | pixel packing leaves the same sums as one pixel per row |
| `ConvResult.LayoutsAreTransparent` | software/libgemmini/gemmini.cc:1177-1442 | calls that hold the same tensors in differently permuted memory leave the same sums and store the same outputs, each at its own address |
| `ConvResult.PooledLayoutsAreTransparent` | software/libgemmini/gemmini.cc:1177-1484 | the same for pooled stores |
| `ConvMeaning.SlicesAddUp` | software/libgemmini/gemmini.cc:1120-1135 | convolving two channel slices separately and adding gives the whole convolution |
| `ConvSequence.RunGroup` | software/libgemmini/gemmini.cc:1120-1135 | a bias-first, output-last group of calls, reconfigured in between or not, biases, accumulates and stores (pooled or not) in one accumulator half, leaving the other alone |
| `ConvSequence.RunGroups` | software/libgemmini/gemmini.cc:1120-1135 | over any number of groups, group g works in half g mod 2, each from the memory and under the configuration the ones before it left |
| `ConvSequence.OtherIdSpares` | software/libgemmini/gemmini.cc:1120-1130 | operands under different spad ids are in different halves, so loading one spares the other |
| `ConvSequence.StillPacked` | software/libgemmini/gemmini.cc:1335-1410 | packed input left by one call serves a later call that names no input |
| `ConvSequence.StillHeld` | software/libgemmini/gemmini.cc:1173-1316 | it outlives any calls in between that load nothing over it |
| `ConvSequence.GroupIsWhole` | software/libgemmini/gemmini.cc:1120-1135 | calls that split the channels sum to the convolution over all of them |
| `ConvSequence.ValueIsWhole` | software/libgemmini/gemmini.cc:1120-1135 | the sums of such a group are the bias plus that convolution |
| `ConvSequence.StoredIsWhole` | software/libgemmini/gemmini.cc:1120-1437 | an un-pooled group stores them scaled and activated |
| `ConvSequence.PooledIsWhole` | software/libgemmini/gemmini.cc:1448-1484 | a pooled group takes its maximum over them |
| `ConvTensors.DirectIsConvolution` | software/libgemmini/gemmini.cc:1177-1316 | with the image stored as batch, row, column, channel and the kernels as row, column, input channel, output channel, or permuted as the layout flags say, the direct sum is the convolution of those tensors |
| `ConvTensors.StoresConvolution` | software/libgemmini/gemmini.cc:1028-1447 | each output byte, at its contiguous (or permuted) place, is bias plus that convolution, scaled, rounded to nearest, saturated and clipped |
| `ConvTensors.SumsConvolution` | software/libgemmini/gemmini.cc:1318-1421 | a call without a bias adds that convolution to its sums |
| `ConvTensors.StoresPooled` | software/libgemmini/gemmini.cc:1448-1484 | each pooled byte, at its contiguous place, is the largest of the outputs under its zero-padded window |
| `ConvTensors.GroupStoresConvolution` | software/libgemmini/gemmini.cc:1120-1447 | a channel-split group stores the convolution of the whole tensors |
| `ReferenceLoops.FullMatmul` | software/gemmini-rocc-tests/bareMetalC/tiled_matmul_option.c:23-65 | C accumulates the (repeated) bias and the products in place, for each transposed variant |
| `ReferenceLoops.FullMatscale` | software/gemmini-rocc-tests/bareMetalC/tiled_matmul_option.c:83-97 | every element is scaled, rounded to nearest and saturated |
| `ReferenceLoops.FullMatrelu` | software/gemmini-rocc-tests/bareMetalC/tiled_matmul_option.c:99-103 | every element is clipped at zero, in place or not |
| `ReferenceLoops.StoresFullMatmul` | software/gemmini-rocc-tests/bareMetalC/tiled_matmul_option.c:23-103 | the C a completed loop_ws stores is full_matmul with its bias, scaled, rounded to nearest, saturated and clipped, for every choice of transposes |
| `ReferenceLoops.FullIsExact` | software/gemmini-rocc-tests/bareMetalC/tiled_matmul_option.c:23-33 | with the shipped scratchpad and a bias below 2^31 - 2^26 the 64-bit reference value is the int32 one |
| `ReferenceLoops.Pool` | software/gemmini-rocc-tests/bareMetalC/conv_with_pool.c:121-151 | each output cell ends as the maximum of its zero-padded window |
| `ReferenceLoops.StoresReferencePool` | software/gemmini-rocc-tests/bareMetalC/conv_with_pool.c:121-151 | a pooled loop_conv_ws stores the reference pool of its own outputs |
| `ReferenceLoops.Dilate` | software/gemmini-rocc-tests/bareMetalC/conv_with_input_dilation.c:97-110 | the running index places every input element on the dilated grid, zeros elsewhere |
| `ReferenceLoops.ConvolvesDilatedImage` | software/gemmini-rocc-tests/bareMetalC/conv_with_input_dilation.c:97-130 | with input_dilated the image loop_conv_ws convolves is that dilated image |
| `Im2col.Unroll` | software/gemmini-rocc-tests/bareMetalC/shen_test_conv_manual.c:47-80 | the patch matrix, entry by entry, from the running patch and column indices |
| `Im2col.FlattenWeights` | software/gemmini-rocc-tests/bareMetalC/shen_test_conv_manual.c:82-100 | the weight matrix, entry by entry |
| `Im2col.ConvCpu` | software/gemmini-rocc-tests/bareMetalC/shen_test_conv_manual.c:102-136 | the direct convolution, taps outside the image skipped, saturated |
| `Im2col.ProductIsDirect` | software/gemmini-rocc-tests/bareMetalC/shen_test_conv_manual.c:47-136 | patches times weights is the direct convolution, for every shape |
| `ManualConv.SplitMultiply` | software/gemmini-rocc-tests/bareMetalC/shen_test_conv_manual.c:214-272 | the hand-written command sequence stores the saturated whole product |
| `ManualConv.SplitIsWhole` | software/gemmini-rocc-tests/bareMetalC/shen_test_conv_manual.c:252-266 | an overwriting step then an accumulating step, split anywhere, give the whole product |
| `ManualConv.ProductIsConv` | software/gemmini-rocc-tests/bareMetalC/shen_test_conv_manual.c:214-272 | on unrolled patches and flattened weights, that product is the direct convolution |

## Left out

- Machine.Gemmini.MvinSpad: out-of-range rows and packed columns beyond DIM, which make the source throw, are preconditions.
- Machine.Gemmini.MvinAcc: the same preconditions.
- Scaling.ScaleIdentity: scales are real numbers; float rounding of the product and of values above 2^24 is not modelled.
- LoopWs.LoopWs: the size test is taken without int overflow; `LoopWsLayout.SizeTestExact` says where the two agree and `LoopWsLayout.OversizedSlips` is a call the source lets through; with K = 0 nothing is stored; A and C row strides are 1, as the instruction does not set them; exiting the process on an oversized call is a returned `false`.
- LoopConvWs.LoopConvWs: fitting the memories and a matching configuration (weight-stationary, transposes, strides) are preconditions because the source checks neither; addresses and sizes are mathematical integers, so the 16-bit truncations of tile sizes are not modelled; several pixels per row are covered for 1 to DIM packed channels, undilated and unrotated kernels, undilated input, untransposed input, weights not in the 0132 layout and A based at row 0, the cases for which the host library packs at all.
- ConvSequence.RunGroups: packed input that a call finds resident was loaded by an earlier call of the sequence, and the static accumulator rows start equal, at row 0 or at the half.
- Depthwise convolution (`dw`) and `downsample`: their address formulas rely on element size 1 and on even column counts that only host code guarantees.
- `compute_cisc`: its dispatch is commented out in the source.
- Accuracy of the integer GELU and exponential as approximations, and of float square roots and reciprocals; a zero count, zero sum or undefined shift gives 0 here, and a negative variance counts as 0.
- Signed int32 overflow, undefined in C++, is two's complement wrap-around here.
- Garbage addresses for operand A and registers before the first configuration.
- Decoding of configuration words other than operand words; reset; performance counters; disassembly and the simulator's own glue.
- Float builds (`ELEM_T_IS_FLOAT`).
- The reference programs' tensors are functions or sequences of elements; only what their loops write is an array. Filling `weights_dilated` and `weights_rot180` is the function `DilatedWeight` and `Rot`, without its loops.
- TiledRun.TiledMatmulOuter: weight stationary only (the output-stationary `sp_tiled_matmul_os` is not modelled); the constants for GELU and softmax, computed from `bert_scale` in floating point, are arguments; `size_t` arithmetic does not overflow.
- AutoTiling.TiledMatmulAuto: the square root is the integer one; a failed check, which exits, is a returned `false`; the CPU path is `full_matmul` (`matmul_cpu` itself rounds the layernorm quotient to nearest, where the simulator and the model truncate).
- The rest of the host library (`tiled_conv`, residual addition and pooling wrappers), network drivers and the hardware's timing, reordering and address translation.
