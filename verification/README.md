# Verified model of the MXFP4 tag codecs, TQ streams, residency selection and checkpoint runner

A Dafny 4.11 model of the exact combinatorial parts of the repository and proofs of what they
promise. `dafny verify dfyconfig.toml` checks everything.

- **In-band tags** (`TagRepair`, `DistinctPair`, `TagSearch`, `TagEncode`). A 32-weight block hides a
  tag in the XOR or parity of its own symbols. One lemma over the label group
  (`TwoRepairsSuffice`) carries all five schemes: two-bit XOR, low-two-bit XOR and low-bit parity over
  eight symbols, the shared low bit of two tags, and two lane parities of binary symbols. Costs are an
  arbitrary table, one number for each position and symbol.
- **Row and matrix codecs** (`HardEm`, `Mxfp4`, `BlockCodec`, `MatrixCodec`, `Packing`, `BitBuffer`,
  `Bitwise`). Alternating refinement, tag-by-tag materialisation, bit packing and the physical round
  trip of six formats: SQ1, SQ2 and eight-state SQ3 with eight states a row, XOR-SQ, hybrid SQ and
  hybrid SQ3 with four. `TagKernel` proves that the Metal kernel's population counts and XOR folds over
  packed words read the same tags.
- **Two-state rows and catalogs** (`TwoState`, `GreedyCatalog`) and **projection** to MXFP4
  (`Mxfp4Projection`; formats of the OCP Microscaling Formats (MX) Specification v1.0, sections 5.3.3
  and 5.4.1).
- **TQ streams** (`TqBudget`, `TqBacking`, `TqGenerate`, `TqPlan`, `TqSegment`, `TqReader`, `TqTensor`,
  `TqRows`, `TqSelect`, `Slices`). From byte budgets over generated segments to random reads and row
  tensors: what `MakeSegments` writes is what `Read` and `Rows` require, so generated fixtures are
  always readable, and `TqPlan` shows a whole generated model to be as large as its reference.
- **Dense repacking** (`DensePack`), **residency** (`ResidencyRank`, `ResidencySelect`,
  `ResidencySwaps`), **row clustering** (`RowPairing`, `RowSeeding`) and the **checkpoint runner**
  (`CheckpointRunner`, `ShardMerge`), the last as a state machine over all interleavings.

Conventions. Floating-point quantities are exact reals. `argmin` is the first least index. Errors the
source raises are results (`Option`, a `raised` flag, or a named outcome); a `raised` flag proved
false says the check cannot fail. Loops over arrays and buffers are methods proved against the
functions the lemmas are about. Sampled values, expected counts, seeds and permutations enter as
parameters.

Where code and text disagree: the clustering guard's message promises N/4 <= K, but its floor division
also admits K = floor(N/4) for N = 4q + 2, which then raises in the merge loop. `RowSeeding.Seed`
follows the code and gives the exact condition; `RowSeeding.GuardIsLoose` gives an input.

## Model

| member | source | states |
|---|---|---|
| TagRepair.TwoRepairsSuffice | bench/dsv4f_mxfp4_xor_sq.py:139-183 | any symbol vector with another tag can be undone, back to the unconstrained best block, in all but at most two positions without losing its tag and without costing more: why repairing one or two symbols can stand for a search over all vectors |
| TagRepair.PartialCopyCheaper | bench/dsv4f_mxfp4_xor_sq.py:158-183 | a block that takes each symbol either from the position-wise cheapest block or from a given block never costs more than the given block |
| TagRepair.SomePositionChangesBy | bench/dsv4f_mxfp4_xor_sq.py:165-176 | a tag change that no single position makes is made of two positions whose label changes XOR to it |
| TagRepair.TablesAreMasks | bench/dsv4f_mxfp4_sq3_eight.py:193-199 | the label tables used by the model are the low bit and the low two bits of a symbol |
| TagRepair.XorIsBitwise | bench/dsv4f_mxfp4_xor_sq.py:158-164 | the four-valued tag group is two-bit XOR, bit for bit |
| TagRepair.ConstrainedMinUnique | bench/dsv4f_mxfp4_xor_sq.py:139-183 | the constrained minimum of a block and tag is one number, so search and materialisation cannot both be it and differ |
| DistinctPair.SecondSmallest | bench/dsv4f_mxfp4_xor_sq.py:116-117 | the partition-based second smallest is the second order statistic, multiplicities counted |
| DistinctPair.PairCostIsLeast | bench/dsv4f_mxfp4_xor_sq.py:120-136 | the case split on coinciding argmins is never above the cost of a pair of different positions |
| DistinctPair.PairIndices | bench/dsv4f_mxfp4_xor_sq.py:349-372 | the index form picks two different positions and attains exactly the predicted pair cost |
| TagSearch.PairErrorBelowAll | bench/dsv4f_mxfp4_xor_sq.py:139-183 | two-bit (and low-two-bit) XOR search: never above the cost of any vector carrying the tag |
| TagSearch.PairErrorAttained | bench/dsv4f_mxfp4_xor_sq.py:139-183 | and some vector carrying the tag costs exactly that |
| TagSearch.PairRepairedCorrect | bench/dsv4f_mxfp4_sq3_eight.py:364-427 | the written block carries the asked tag and costs the base error plus the predicted adjustment, whether one or two symbols are repaired |
| TagSearch.ParityRepairedCorrect | bench/dsv4f_mxfp4_sq3_hybrid.py:354-392 | one repaired symbol gives the asked low-bit parity at the predicted cost |
| TagSearch.ParityErrorBelowAll | bench/dsv4f_mxfp4_sq3_hybrid.py:164-204 | no eight-symbol vector of that low-bit parity is cheaper |
| TagSearch.LaneRepairedCorrect | bench/dsv4f_mxfp4_sq1.py:120-144 | flipping the cheapest even and/or odd position gives both asked lane parities at the predicted cost |
| TagSearch.LaneErrorBelowAll | bench/dsv4f_mxfp4_sq1.py:85-117 | no binary vector with those two lane parities is cheaper |
| TagSearch.SharedLowBitRepairedCorrect | bench/dsv4f_mxfp4_hybrid_sq.py:294-304 | the better of the two tags that share a low bit carries that bit at the smaller of the two costs |
| TagSearch.SharedLowBitErrorBelowAll | bench/dsv4f_mxfp4_hybrid_sq.py:115-118 | the minimum over the two tags sharing a low bit is below every vector with that low bit |
| TagSearch.SearchIsExact | bench/dsv4f_mxfp4_xor_sq.py:139-183 | for every scheme, every block of at least two weights, every cost table and every tag, the search value is the minimum over all symbol vectors carrying the tag |
| TagSearch.RepairMeetsSearch | bench/dsv4f_mxfp4_xor_sq.py:375-417 | for every scheme the materialised vector carries the tag and costs exactly the searched value |
| TagSearch.ConstraintsKeepUnconstrained | bench/dsv4f_mxfp4_xor_sq.py:178-183 | the unconstrained error is below every tag and equals the least tag: the "lost the unconstrained state" error is unreachable |
| TagEncode.CandidateErrors | bench/dsv4f_mxfp4_xor_sq.py:139-183 | the table-filling loop holds the constrained minimum for every tag, state and block, and its final check never raises |
| TagEncode.TaggedErrors | bench/dsv4f_mxfp4_hybrid_sq.py:115-147 | the table of a shared low bit, folded from the four full tags, is the exact candidate table of its two tags; no check raises |
| TagEncode.RepairPairBlock | bench/dsv4f_mxfp4_xor_sq.py:391-411 | in-place repair of a pair-scheme block yields the specified repaired block |
| TagEncode.RepairParityBlock | bench/dsv4f_mxfp4_sq3_hybrid.py:369-387 | in-place parity repair yields the specified repaired block |
| TagEncode.RepairLaneBlock | bench/dsv4f_mxfp4_sq1.py:128-143 | in-place even-then-odd flips yield the specified repaired block |
| TagEncode.RepairBlock | bench/dsv4f_mxfp4_sq3_eight.py:364-427 | whatever the scheme, the block written carries the tag at the global constrained minimum |
| TagEncode.QuantizeBlocks | bench/dsv4f_mxfp4_xor_sq.py:375-417 | every block is written with its tag at minimum cost, errors listed are the written costs, and the embed check never raises |
| TagEncode.QuantizeSharedLowBit | bench/dsv4f_mxfp4_hybrid_sq.py:294-304 | trying both tags and keeping the cheaper writes every block at the minimum for the shared low bit |
| HardEm.BestTagsOptimal | bench/dsv4f_mxfp4_sq2.py:244-246 | with states fixed, argmin tags cost no more than any tags and cost exactly the returned error |
| HardEm.BestStatesOptimal | bench/dsv4f_mxfp4_sq2.py:239-243 | with tags fixed, updated states cost no more than any other states, empty tags included |
| HardEm.StepNeverIncreases | bench/dsv4f_mxfp4_sq2.py:238-246 | one alternation never costs more than what it started from |
| HardEm.RunNeverIncreases | bench/dsv4f_mxfp4_sq2.py:236-260 | along a run, from the second step on, the constrained error never increases |
| HardEm.FixedPointStays | bench/dsv4f_mxfp4_sq2.py:254-258 | a step that changes nothing would change nothing ever after, so the break loses no steps |
| HardEm.FixedPointOptimal | bench/dsv4f_mxfp4_sq2.py:254-258 | at a break the states are optimal for the tags and the tags for the states |
| HardEm.BestIsLast | bench/dsv4f_mxfp4_sq2.py:247-263 | the best-so-far error is the error of the last step and the cost of the returned states and tags |
| HardEm.RefineFromAssignments | bench/dsv4f_mxfp4_sq2.py:229-263 | the loop returns the minimum over its steps with the states and tags that attain it; it fails only for no steps; a reported break is a fixed point |
| HardEm.RefineConstrainedStates | bench/dsv4f_mxfp4_xor_sq.py:263-295 | the XOR form, which scores its start as step 0, is also never worse than its start |
| Packing.Pack | bench/cuda_mxfp4_sq_fixtures.py:30-38 | the bit-by-bit oracle: refuses exactly the out-of-range values, else the bytes whose bits are the fields in order and zero padding |
| Packing.PacksUnique | bench/cuda_mxfp4_sq_fixtures.py:30-38 | there is only one such byte string |
| Packing.FixedWidthPacks | bench/dsv4f_mxfp4_sq3.py:140-148 | the fixed-width packer gives the oracle bytes |
| Packing.UnpackFixedWidthInverts | bench/dsv4f_mxfp4_sq3.py:140-165 | unpacking packed values of any width from 1 to 16 gives them back |
| Packing.PackTwoBitMatchesOracle | bench/dsv4f_mxfp4_xor_sq.py:420-429 | the two-bit packer gives the oracle bytes |
| Packing.UnpackTwoBitInverts | bench/dsv4f_mxfp4_xor_sq.py:420-439 | two-bit symbols survive pack and unpack |
| Packing.PackNibblesMatchesOracle | bench/dsv4f_mxfp4_xor_sq.py:442-446 | the palette-code packer gives the oracle bytes |
| Packing.UnpackNibblesInverts | bench/dsv4f_mxfp4_xor_sq.py:442-456 | palette codes survive pack and unpack |
| Packing.PackBitsMatchesOracle | bench/dsv4f_mxfp4_sq3.py:187-189 | packed selector bits are the oracle bytes of width-one fields |
| Packing.UnpackPackBits | bench/dsv4f_mxfp4_sq3.py:187-202 | block selector bits survive pack and unpack at any count |
| BlockCodec.RefinedIsBlockOptimal | bench/dsv4f_mxfp4_sq2.py:295-354 | the error the refinement reports is the sum of block-wise constrained minima of its own answer |
| BlockCodec.SolveRow | bench/dsv4f_mxfp4_sq2.py:295-354 | for eight states or four, starting from tags or from states: the row solution is block-optimal, its error is that sum, no internal check raises, and it is at least as good as the run from every start |
| BlockCodec.MaterializeRow | bench/dsv4f_mxfp4_sq2.py:444-466 | writing tag by tag stores every block under its own tag at its constrained minimum |
| BlockCodec.SearchMeetsMaterialize | bench/dsv4f_mxfp4_sq2.py:474-484 | searched and materialised errors are equal, so the SSE-mismatch error is unreachable |
| MatrixCodec.UnpackUsable | bench/dsv4f_mxfp4_sq2.py:357-411 | any payload bytes of the right sizes unpack to in-range symbols and codes in every format: no decoder lookup can fail |
| MatrixCodec.UnpackSerialize | bench/dsv4f_mxfp4_sq2.py:357-411 | unpacking a serialised matrix of any of the six formats gives back its symbols, selector bits, scales and palette codes |
| MatrixCodec.CatalogIndex | bench/dsv4f_mxfp4_sq2.py:431-435 | the catalog dictionary maps an id to an index that holds that id |
| MatrixCodec.ViewIsStored | bench/dsv4f_mxfp4_sq2.py:414-513 | the decoder sees, for every block, the tag, scale and nibbles the encoder stored |
| MatrixCodec.TagRestored | bench/dsv4f_mxfp4_hybrid_sq.py:238-244 | explicit bit above, parity or XOR below: the decoder derives exactly the tag the encoder chose, whatever the tag rule |
| TagKernel.LowOfOneIsTag | cpp_runtime/backends/metal/ops/mlx_mxfp4_sq.cpp:58-61 | population counts of the even and odd bits of the one word are the two lane parities |
| TagKernel.LowOfTwoIsTag | cpp_runtime/backends/metal/ops/mlx_mxfp4_sq.cpp:62-68 | folding the XOR of two words four times leaves the XOR of all 32 symbols |
| TagKernel.LowOfThreeIsTag | cpp_runtime/backends/metal/ops/mlx_mxfp4_sq.cpp:69-84 | population counts under masks that rotate over three words are the XOR of the low two bits of all 32 symbols |
| TagKernel.KernelReadsTags | cpp_runtime/backends/metal/ops/mlx_mxfp4_sq.cpp:48-90 | for every matrix of one-, two- or three-bit symbols and every block, the tag the kernel reads from packed words and selector bytes is the one the encoder chose |
| MatrixCodec.PhysicalRoundTrip | bench/dsv4f_mxfp4_sq3_hybrid.py:440-529 | decoding the serialised payload returns exactly the nibbles, scales and tags written, so the "physical payload changed" errors are unreachable: for one-, two- and three-bit symbols with eight states and two-bit scale offsets, and for XOR-SQ, hybrid SQ and hybrid SQ3 with four states, scale bytes and no or one explicit tag bit |
| MatrixCodec.StoredError | bench/dsv4f_mxfp4_sq3_eight.py:482-579 | a stored block costs the squared error of the weights its nibbles and scale decode to |
| MatrixCodec.SearchedIsPhysical | bench/dsv4f_mxfp4_sq3_eight.py:482-579 | a searched row error is the squared error of the decoded row |
| MatrixCodec.EncodeMatrix | bench/dsv4f_mxfp4_sq2.py:414-513 | the encoding loop raises nothing, and its payload decodes to rows whose squared errors are the searched ones |
| GreedyCatalog.Grow | bench/dsv4f_mxfp4_sq2_palette_screen.py:41-60 | fails exactly for an empty seed, a size below it or more palettes than exist; otherwise extends the seed to that size, each pick the first of the unused palettes that bring the summed least error over the selection down furthest |
| GreedyCatalog.Diminishing | bench/dsv4f_mxfp4_sq2_palette_screen.py:53-59 | a palette gains no more on top of a larger selection |
| GreedyCatalog.JointGain | bench/dsv4f_mxfp4_sq2_palette_screen.py:53-59 | any palettes together gain at most their number times the best single gain |
| GreedyCatalog.GapShrinks | bench/dsv4f_mxfp4_sq2_palette_screen.py:53-59 | the gap to any m rival palettes shrinks by the factor (m-1)/m at every pick |
| GreedyCatalog.GreedyGuarantee | bench/dsv4f_mxfp4_sq2_palette_screen.py:41-60 | after any number of picks the reduction over the seed is at least 1-((m-1)/m)^picks of what any m palettes could add to the seed |
| TwoState.BlockErrorIsSse | bench/dsv4f_mxfp4_adaptive_sq.py:204-275 | histogram times distortion equals the per-weight nearest-level squared error of the block |
| TwoState.BestSelectors | bench/dsv4f_mxfp4_adaptive_sq.py:341-349 | comparing block errors gives the best selector bits for two states |
| TwoState.ExactTwoStateRow | bench/dsv4f_mxfp4_adaptive_sq.py:307-349 | the answer is the least over every pair of different states and every selector vector |
| TwoState.AggregationIsFaithful | bench/dsv4f_mxfp4_adaptive_sq.py:290-298 | summing histograms per source scale first changes no partition error |
| TwoState.BestStateForPartition | bench/dsv4f_mxfp4_adaptive_sq.py:278-304 | the first of the best states for a partition among all exponents and palettes; none exactly for an empty partition |
| TwoState.RefineStep | bench/dsv4f_mxfp4_adaptive_sq.py:372-412 | one alternation is at least as good as any two states under the starting partition; it fails exactly for a one-sided partition |
| TwoState.RefineTwoStateRow | bench/dsv4f_mxfp4_adaptive_sq.py:359-418 | the answer is the first of the best of all the alternations allowed, those skipped once a partition has settled included, and never worse than any two states under the balanced starting partition; it fails exactly for fewer than two blocks or no steps |
| TwoState.FullCatalogRow | bench/dsv4f_mxfp4_adaptive_sq.py:421-468 | never worse than any pair of fixed-catalog states with any selectors, nor than any alternation from any start or, where a start is skipped as the inverse of an earlier one, from that inverse |
| TwoState.StoredBlockError | bench/dsv4f_mxfp4_adaptive_sq.py:471-527 | stored nibbles under the chosen scale decode at exactly the block error |
| TwoState.MaterializeRow | bench/dsv4f_mxfp4_adaptive_sq.py:471-527 | searched row error equals the sum of stored squared errors |
| Mxfp4Projection.NearestIsClosest | bench/dsv4f_mxfp4_row_vq.py:118-125 | counting thresholds yields a closest E2M1 magnitude for every nonnegative real |
| Mxfp4Projection.BaseExists | bench/dsv4f_mxfp4_row_vq.py:171-173 | every positive peak has a search base ceil(log2(peak / 6)) |
| Mxfp4Projection.BaseUnique | bench/dsv4f_mxfp4_row_vq.py:171-173 | and only one |
| Mxfp4Projection.ProjectIsBest | bench/dsv4f_mxfp4_row_vq.py:158-187 | no block on the grid of any searched exponent is closer |
| Mxfp4Projection.ExponentIsSearched | bench/dsv4f_mxfp4_row_vq.py:171-178 | the exponent of a representable block is from the base to three above it, hence among the exponents tried by default |
| Mxfp4Projection.RepresentableAtBase | bench/dsv4f_mxfp4_row_vq.py:171-178 | a block representable with any in-range exponent is representable with the clamped base itself |
| Mxfp4Projection.ProjectFixesRepresentable | bench/dsv4f_mxfp4_row_vq.py:158-187 | a block already representable with an in-range exponent comes back unchanged, for any offset range that holds 0 |
| Mxfp4Projection.FixesExactly | bench/dsv4f_mxfp4_row_vq.py:129-187 | an offset range keeps every representable block of 32 exactly when it holds 0 |
| Mxfp4Projection.ProjectIsRepresentable | bench/dsv4f_mxfp4_row_vq.py:158-187 | every projected block lies on one in-range exponent grid |
| Mxfp4Projection.ProjectIdempotent | bench/dsv4f_mxfp4_row_vq.py:129-208 | projecting twice is projecting once, for every real block, by default and for every offset range but two families |
| Mxfp4Projection.IdempotentExactly | bench/dsv4f_mxfp4_row_vq.py:129-208 | those families exactly: projecting every block of 32 twice is projecting it once if and only if the highest offset is at least 0 and the lowest is not 4 |
| Mxfp4Projection.StorageDecodes | bench/dsv4f_mxfp4_row_vq.py:188-208 | the stored codes and scale byte decode to exactly the returned block |
| Mxfp4Projection.ProjectMatrix | bench/dsv4f_mxfp4_row_vq.py:129-208 | refused exactly for a column count off the block size, an empty chunk or an empty offset range; otherwise every chunk size projects every block alike |
| BitBuffer.GetBits | bench/cuda_format_comparison/e8_dense_group_pack.h:7-11 | reads the value of the stream bits it names, at any bit offset |
| BitBuffer.PutBits | bench/cuda_format_comparison/e8_dense_group_pack.h:12-14 | ORs a field into the stream at its bits and changes no other bit |
| DensePack.GroupsLength | bench/cuda_format_comparison/e8_dense_group_pack.h:40-50 | groups fill a row without gaps, a short last group included |
| DensePack.RowLength | bench/cuda_format_comparison/e8_dense_group_pack.h:31-31 | the fields of a row are exactly its row_bits |
| DensePack.BeforeLength | bench/cuda_format_comparison/e8_dense_group_pack.h:41-41 | the computed target of a group is the number of bits of everything before it |
| DensePack.PackRows | bench/cuda_format_comparison/e8_dense_group_pack.h:36-50 | the packed bits are every row field once, in order, then zero padding |
| DensePack.FieldPositions | bench/cuda_format_comparison/e8_dense_group_pack.h:53-69 | each state, index and sign field is read back where the reader computes its position |
| DensePack.PackDense | bench/cuda_format_comparison/e8_dense_group_pack.h:25-73 | unsupported, malformed and truncated inputs are refused as named; every other input is packed, never larger than its three sources, and no round-trip check raises |
| TqBudget.BudgetBounds | bench/generate_tq_fixture.py:156-162 | a floor-difference budget gives one to eight bits for every row of any range |
| TqBudget.BudgetsTelescope | bench/generate_tq_fixture.py:160-162 | budgets of consecutive ranges sum to the span they cover |
| TqBudget.BudgetsSumToTotal | bench/generate_tq_fixture.py:160-162 | and to the whole bit sum over all ranges |
| TqBudget.LookupNeverFails | bench/tq_fixture.py:35-40 | every block asks for one of the at most three stored histogram keys |
| TqBudget.CandidateExists | bench/generate_tq_fixture.py:62-65 | while the bit sum is off, a level that can move exists |
| TqBudget.Repair | bench/generate_tq_fixture.py:61-68 | the repair loop ends with the same rows and the exact bit sum |
| TqBudget.RoundExpected | bench/generate_tq_fixture.py:57-60 | rounding keeps the row count and is within one of every expected count |
| TqBudget.Histogram | bench/generate_tq_fixture.py:42-69 | a histogram has exactly the asked rows and bits, whatever the expected counts |
| TqBudget.ShareFits | bench/generate_tq_fixture.py:122-127 | a rounded share never exceeds its own capacity and what is left still fits the rest |
| TqBudget.Apportion | bench/generate_tq_fixture.py:112-131 | every target stays in its bounds, all move one way, they sum to the reference total, and "Byte budget was not assigned" is unreachable |
| TqBacking.Backing.constructor | bench/generate_tq_fixture.py:134-135 | starts at the first byte of the first file |
| TqBacking.Backing.Take | bench/generate_tq_fixture.py:136-150 | hands out the next bytes of the files, in order and without gaps; fails exactly when too few are left |
| TqBacking.PiecesAreSlice | bench/generate_tq_fixture.py:136-150 | consecutive pieces read one contiguous slice of the files laid end to end |
| TqGenerate.Histograms | bench/generate_tq_fixture.py:163-176 | stores exactly the keys the reader can ask for, each with the right rows and bits |
| TqGenerate.MakeSegment | bench/generate_tq_fixture.py:156-180 | a generated segment satisfies everything the reader and the tensor checks rely on and is fully backed; it fails exactly when the source files are too small |
| TqGenerate.MakeSegments | bench/generate_tq_fixture.py:82-182 | the fewest segments that fit hold the rows and bits of the tensor exactly and lie consecutively in the files; refused exactly for an invalid group size or files too small for all of them |
| TqPlan.ClipIsIdle | bench/generate_tq_fixture.py:153-153 | a target between its bounds asks, rounded, for one to eight bits a row, so the clip never acts on an apportioned target |
| TqPlan.BytesNearTarget | bench/generate_tq_fixture.py:153-182 | the bytes of the segments of a tensor are its target to within a sixteenth of its width and half a byte a segment |
| TqPlan.Generate | bench/generate_tq_fixture.py:82-182 | all tensors: targets within bounds summing to the reference bytes, segments of each following those before it in the source files; refused exactly for an invalid group size, a reference out of reach, or too small files |
| TqPlan.ModelNearReference | bench/generate_tq_fixture.py:183-187 | the whole model is as large as its reference but for that rounding |
| TqSegment.ShufflePermutes | bench/tq_fixture.py:41-46 | the shuffle permutes |
| TqSegment.ShuffleInPlace | bench/tq_fixture.py:41-47 | the in-place swaps compute the specified shuffle |
| TqSegment.Bits | bench/tq_fixture.py:35-47 | the bits of a block are the shuffled expansion of its histogram |
| TqSegment.BlockBitsExact | bench/tq_fixture.py:35-47 | rows of a block carry one to eight bits and together its budget |
| TqSegment.RowsAreConsecutive | bench/tq_fixture.py:49-58 | the running bit sum continues across block boundaries and ends at the bit sum |
| TqSegment.OffsetsTile | bench/tq_fixture.py:55-57 | row word offsets follow one another and the last row ends at the packed length |
| TqSegment.DescriptorFields | bench/tq_fixture.py:57-58 | offset, precision and anchor are read back from a descriptor |
| TqReader.BlockDescriptors | bench/tq_fixture.py:51-58 | the descriptors of a block come from the running sum |
| TqReader.Descriptors | bench/tq_fixture.py:49-60 | descriptors of any row range, cut anywhere across blocks |
| TqReader.DescriptorSlice | bench/tq_fixture.py:49-60 | descriptor bytes of a row range are that slice of the whole table |
| TqReader.Scales | bench/tq_fixture.py:62-74 | scale bytes of any range, the odd trailing nibble masked only when in range |
| TqReader.Packed | bench/tq_fixture.py:76-88 | any range of the packed stream from its backing pieces; the truncation error is unreachable |
| TqReader.Read | bench/tq_fixture.py:90-109 | every in-range read is that slice of header, descriptors, scales and packed bytes laid end to end; everything else is refused |
| TqTensor.FieldsAreMasks | mfq/formats/tq.py:112-122 | offset, upper bits and precision by remainder and quotient are the masks and shifts of the source |
| TqTensor.WithOffsetFields | mfq/formats/tq_rows.py:62-63 | replacing the low 32 bits of a descriptor keeps everything above them |
| TqTensor.AddedOffsetFields | bench/tq_fixture.py:145-150 | so does adding to the whole descriptor while the offset does not overflow |
| Bitwise.LoneBit | mfq/formats/tq.py:74-77 | the mask test on group sizes passes exactly the powers of two |
| TqTensor.SelectorsRoundTrip | mfq/formats/tq_rows.py:72-80 | repacking selectors, an odd count too, loses none |
| TqTensor.SliceViews | mfq/formats/tq_rows.py:50-81 | cutting a row range keeps the precision, anchor, payload and selectors of every row |
| TqTensor.JoinViews | bench/tq_fixture.py:143-160 | joining tensors keeps all of them, in order |
| TqTensor.PayloadIsPacked | mfq/formats/tq.py:95-99 | the row payloads account for every packed byte |
| TqTensor.TensorOfParts | mfq/formats/tq.py:69-110 | rebased and joined parts pass the tensor checks: geometry, group size, reserved bits, anchors, offsets, sizes |
| TqRows.HeaderReadsBack | mfq/formats/tq_rows.py:16-40 | the constructor accepts the header of every segment, raising none of its errors, and finds the sizes of that segment in it |
| TqRows.SegmentIsTensor | mfq/formats/tq.py:69-110 | the bytes of a valid segment satisfy every check a tensor makes: geometry, group size, reserved bits, finite nonnegative anchors, row offsets, sizes |
| TqRows.SliceRows | mfq/formats/tq_rows.py:50-81 | rows read from a segment form a valid tensor saying exactly what those rows of the segment say; only bad ranges are refused |
| TqRows.Chunks | bench/tq_fixture.py:134-142 | one chunk for every segment holding wanted rows, together exactly the wanted rows |
| TqRows.Rows | bench/tq_fixture.py:130-162 | rows of a tensor across segments: a valid tensor with exactly the rows asked for; refused exactly for a bad range or a payload beyond 32-bit word offsets |
| TqSelect.RepairRowBits | bench/tq_random.py:27-37 | for every sample and every choice of rows the repair ends, all rows within 1..8, on the exact bit sum, no row having moved away from it |
| TqSelect.RowBits | bench/tq_random.py:10-37 | impossible sums are refused, all others met exactly |
| TqSelect.PieceSlice | bench/tq_hip_model.py:64-69 | a row whose descriptor has the precision asked is copied whole, and the copy is its payload in its profile |
| TqSelect.GatherStep | bench/tq_hip_model.py:63-70 | one more row keeps all earlier ones in place |
| TqSelect.ValidIsPrecise | bench/tq_hip_model.py:61-71 | the finished tensor passes its checks only if every row copied had the precision it was copied at |
| TqSelect.UniformBankServes | bench/tq_hip_model.py:49-71 | profiles with k bits in every row of the k-th never fail a selection |
| TqSelect.SelectRows | bench/tq_hip_model.py:49-71 | the row bits meet the clipped total; a tensor results exactly when the profiles are alike, every row has the precision of its profile and the words are addressable, and then every row says exactly what the row of its profile says |
| ResidencyRank.OneOrder | bench/residency_rank_reference.h:28-38 | the order is total, so any sort of the same items gives the same sequence |
| ResidencyRank.PairUp | bench/residency_rank_reference.h:39-43 | the loop with its break appends the leading pairs gaining at least 1.5 |
| ResidencyRank.GroupIsSwapSet | bench/residency_rank_reference.h:22-43 | pairs are one-to-one, cold with heat at least 2 for resident, gains at least 1.5 and nonincreasing |
| ResidencyRank.StoppingIsBest | bench/residency_rank_reference.h:39-43 | stopping at the first poor pair is best: the early break loses nothing |
| ResidencyRank.GroupIsBest | bench/residency_rank_reference.h:34-43 | no one-to-one set of legal swaps of the group is worth more, at 1.5 a swap |
| ResidencyRank.PayingExactly | bench/residency_rank_reference.h:34-43 | n one-to-one legal swaps of gain at least 1.5 can be made exactly when the n hottest absent experts, paired crosswise with the n coldest resident ones, all gain that much |
| ResidencyRank.MostSwapsExactly | bench/residency_rank_reference.h:34-43 | more such swaps exist than are selected exactly when, for some n, the n-th pair straight across gains less than 1.5 while the n crossed pairs all gain that much |
| ResidencyRank.NotMostSwaps | bench/residency_rank_reference.h:34-43 | an input where this happens: two swaps exist, one is selected |
| ResidencySelect.SortPairsSorts | bench/residency_rank_reference.h:45-45 | the final sort permutes and orders by falling gain |
| ResidencySelect.Buckets | bench/residency_rank_reference.h:20-27 | each bucket holds the cold and hot items of its group, in entry order |
| ResidencySelect.Reference | bench/residency_rank_reference.h:16-47 | the reference selector computes the specified selection |
| ResidencySelect.Layout | bench/residency_rank_reference.h:9-14 | the layout refuses exactly the out-of-range groups |
| ResidencySelect.Ranker.Make | cpp_runtime/core/include/mfq/moe_residency_ranker.h:30-40 | refuses exactly the layouts with an expert out of range; otherwise keeps the layout and starts with no pairs |
| ResidencySelect.Ranker.Rank | cpp_runtime/core/include/mfq/moe_residency_ranker.h:42-65 | ranking depends on heat and state alone, not on earlier rankings |
| ResidencySelect.RankerMeetsReference | bench/moe_residency_bench.cpp:65-67 | ranker and reference select the same pairs in the same order, for any entries and any layout wide enough |
| ResidencySwaps.SwapsConserve | bench/moe_residency_bench.cpp:69-74 | any legal one-to-one swaps keep the resident count of the group and add exactly their gains to its resident heat |
| ResidencySwaps.SelectionConserves | bench/moe_residency_bench.cpp:69-74 | applying the whole selection does so for every group |
| ResidencySwaps.GroupSettles | bench/residency_rank_reference.h:34-43 | with unchanged heat a swapped group has no pairs left |
| ResidencySwaps.SelectionSettles | bench/moe_residency_bench.cpp:65-74 | ranking again right after applying selects nothing |
| ResidencySwaps.ResidentTable.constructor | bench/moe_residency_bench.cpp:54-56 | holds the given table |
| ResidencySwaps.ResidentTable.Apply | bench/moe_residency_bench.cpp:69-74 | every expert of the table is resident if it came in, absent if it went out, else as before |
| ResidencySwaps.ResidentTable.Exchange | bench/moe_residency_bench.cpp:60-74 | one window: the selection meets everything applying it needs, the table ends as the pairs say, each group keeps its resident count and gains the heat promised, and ranking the table again selects nothing |
| RowPairing.NearestActive | bench/dsv4f_mxfp4_row_vq.py:262-265 | first nearest active row, none exactly when no row is active |
| RowPairing.OrderedNearestPairing | bench/dsv4f_mxfp4_row_vq.py:250-272 | fails exactly for an odd number of rows, else a perfect matching with its true score: rows are taken in the given order, each joined to the first of the nearest rows left |
| RowPairing.TakeEdges | bench/dsv4f_mxfp4_row_vq.py:275-299 | greedy disjoint edges, each as short as any free one, as many as asked or half the rows |
| RowPairing.GloballyGreedyPairing | bench/dsv4f_mxfp4_row_vq.py:275-299 | fails exactly for an odd number of rows, else a greedy perfect matching with its true score |
| RowSeeding.NormForm | bench/dsv4f_mxfp4_row_vq.py:236-247 | norms minus twice the dot product is the squared distance; the clamp never acts |
| RowSeeding.PairGroup | bench/dsv4f_mxfp4_row_vq.py:269-269 | half the squared distance is the squared error of a pair about its mean |
| RowSeeding.QuadGroup | bench/dsv4f_mxfp4_row_vq.py:359-360 | a merged group costs its two pairs plus the squared distance of their centroids, in any dimension |
| RowSeeding.GroupsPartition | bench/dsv4f_mxfp4_row_vq.py:365-372 | the groups hold every row exactly once |
| RowSeeding.ReportedCost | bench/dsv4f_mxfp4_row_vq.py:389-389 | base_pair_sse + merge_penalty is the squared error within the groups |
| RowSeeding.MergePairs | bench/dsv4f_mxfp4_row_vq.py:343-364 | as many greedy merges as wanted or half the pairs, with the pairs left over |
| RowSeeding.Seed | bench/dsv4f_mxfp4_row_vq.py:303-395 | from the first least-scoring of all candidate pairings, exactly K groups of two or four rows, true means and true cost; the refusals, each with its exact condition |
| RowSeeding.Candidates | bench/dsv4f_mxfp4_row_vq.py:329-339 | the globally greedy pairing, then one ordered pairing for each permutation, each with its true score |
| RowSeeding.GuardIsLoose | bench/dsv4f_mxfp4_row_vq.py:321-324 | the size guard admits six rows and one cluster, for which fewer merges exist than are wanted; in general it admits too few merges exactly when 4K < N |
| CheckpointRunner.StepKeeps | bench/tq_hip_checkpoint.py:117-218 | every worker step keeps the invariant on queue, hands, completed and failed work, exceptions on start-up, through the handler and in the finally block included |
| CheckpointRunner.RunKeeps | bench/tq_hip_checkpoint.py:117-222 | so does every interleaving |
| CheckpointRunner.RunIsBounded | bench/tq_hip_checkpoint.py:117-218 | no run is longer than the work there was |
| CheckpointRunner.NeverStuck | bench/tq_hip_checkpoint.py:117-218 | some worker can move until all have left |
| CheckpointRunner.NeverTwice | bench/tq_hip_checkpoint.py:146-198 | no (tensor, width) is completed twice in any run, failures and fatal exits included |
| CheckpointRunner.CountMeansEach | bench/tq_hip_checkpoint.py:225-225 | as many distinct entries as pairs means every pair, and conversely |
| CheckpointRunner.VerifiedMeansDone | bench/tq_hip_checkpoint.py:223-229 | a verified report means nothing failed and every (tensor, width) was completed exactly once, and conversely |
| CheckpointRunner.OnlyFailuresSpoil | bench/tq_hip_checkpoint.py:220-229 | when all workers have left without a crash, the count can fall short only after a recorded failure |
| ShardMerge.ShardJobs | bench/tq_hip_checkpoint.py:73-73 | the strided slice has exactly the jobs of its residue |
| ShardMerge.ShardsPartition | bench/tq_hip_checkpoint.py:73-73 | every job is in exactly one shard, at one place |
| ShardMerge.Merge | bench/tq_hip_multiprocess.py:30-51 | lists every entry of every report; names exactly the failed jobs, missing reports and nonzero statuses; verifies exactly when each child exited with 0 and left a verified report without failures |
| ShardMerge.ZeroMeansDone | bench/tq_hip_multiprocess.py:28-43 | a child that exits with 0 completed its whole shard, each pair once |
| ShardMerge.MergedVerdict | bench/tq_hip_multiprocess.py:28-51 | the merged verdict holds exactly when all exit statuses are 0, and then every (tensor, width) was completed exactly once over all processes |
| ShardMerge.StaleIsRefused | bench/tq_hip_multiprocess.py:28-51 | whatever files earlier runs left, the verdict holds exactly when no exception escaped from any child and no tensor failed; every other child is named with its status |

## Left out

- Floating-point rounding, half precision and float32 casts, and the bisection for maximum-entropy slopes: exact reals, with the expected or sampled counts as parameters.
- The two-state SQ3 format without tags, and the mixed-rate container of `mfq/formats/mxfp4_sq.py`: other field counts and a header around the modelled streams.
- Seeding of the refinement starts (cluster ranks, `_greedy_assignments`, unconstrained state sets, orders of a state set): starts are parameters, and the results hold for all of them.
- Candidate exponent ranges and distortion tables kept per scale pair: exponents are a parameter, table entries are computed where used.
- Compact TQ tensors (width not a multiple of 256) and `gather_rows`: tensors here have complete rings. Only the header check knows the compact form.
- `partial_sort` is modelled as a full sort whose leading part is used, and the final sort by gain as a stable one: the library leaves the order of equal gains open.
- Ward linkage, Lloyd iterations, codebook quality and the choice of K from a byte budget: not decided by exact reasoning on the code shown.
- GPU kernels, timing drivers, file hashing and resume checks: whether a checkpoint is reusable does not matter to the proofs, so completing is one step either way.
- Progress publishing and partial progress files of the runner: they influence no verdict.
- CheckpointRunner.NeverTwice: names jobs by position, so tensors of equal name in different files count as different jobs.
