# CPUAttn in Dafny

CPUAttn compiles one definition of attention to several algorithms that must all compute the same thing. This
project models those algorithms as the kernels write them, in place and loop by loop, and proves that each one
equals the plain meaning of the definition. Floats are exact reals.

**Linear attention.** `ScanReference` is the ordered scan of Scale, Rank1 and Outer steps. `LinearBlocks`,
`DeltaKernel` and `ChunkedKernel` are the block kernels, `BlockAlgebra` the algebra between them and the scan,
`ScanKernel` the DV-block decomposition, `RowScan` the plain scan kernel over whole rows, whose fused tail
`FusedReadout` compares with the separate passes bit for bit. `Recogniser` decides which operators may use the block
kernels and proves that an accepted operator still computes its own scan. `Elementwise` is the loop that applies an
input modifier along a vector, and `LinearAttention` puts all of it together: whole calls over batch and heads, from
the caller's raw tensors, whose elements `LinearMeaning` finds in every vector of the program.

**Parallel attention.** `Softmax` and `RowNorms` are the row-by-row references, `NormInstances` the built-in norms,
`NormMeaning` what their weights sum to. `Scores` computes masked scores
from query rows, K (direct or packed) and the score and mask expressions, whose scalar and vector forms
`Expressions`, `Lowering` and `Arguments` give a meaning. `BlockedSoftmax` and `BlockedGeneric` are the blocked
kernels, `Merging`, `SplitK` and `Grid` the split-key and 2D ones. `Attention` and `SplitAttention` put them
together: whole calls over the caller's tensors, directly or through the stream cache. `AttentionMeaning` says what a
score is in those tensors.

**The stream cache.** `Packing` is the transposed copy of K and its writers, `Stream` the executor and runtime
around it as objects with their fields, `Planning` and `Launches` the sizes and worker sets they run with, and
`Parallelism` sets those beside the work there is.

Division is real division, the exponential is any function with exp(0) = 1, exp > 0 and exp(a + b) = exp(a) exp(b),
tanh is the one it defines, and the logarithm is any function. The running maximum is minus infinity or a real.

Where the code and its own words part ways, the code is modelled:

- The fused outer update and readout is documented as bit-exact (`src/cpuattn/native/emit/linear.py:358-361`).
  The separate update multiplies and adds in two roundings past the last whole vector
  (`src/cpuattn/kernels/simd/linear.h:26`), the fused pass in one. `FusedReadout.FusionExact` gives the exact
  condition, `FusedReadout.FusionLosesBits` a call that breaks it.
- A call that the kernel refuses raises after the executor has made its plan's workspace the live one
  (`src/cpuattn/native/executor.py:119` and `212-214`) and before the runtime counts the run
  (`src/cpuattn/runtime.py:464-465`). A stream of another plan then still looks current, and its next growing call
  keeps rows that the new zeroed workspace does not hold. `Stream.Runtime.RunRefused` gives the exact condition for
  the cache, `Stream.AroundRefusal` the exact condition for the stream's next call, and `Stream.LostRow` a run that
  reads a wrong K: two plans of equal sizes, split keys and 2D.
- The planner filters 2D launches (`src/cpuattn/schedule/planning.py:127-136`), yet the kernel may refuse one it lets
  through: `Launches.PlannedYetRefused` is such a launch, `Launches.ProposedTaken` the exact condition. A plan chosen at
  the edge of its key-length bucket may be refused inside the bucket: `Launches.EdgeYetRefused` is such a plan,
  `Launches.EdgePlanTaken` the exact condition.
- The vector emitter accepts a `where` between truth values (`src/cpuattn/native/emit/expression.py:110-111`). Where
  masks are vectors (`src/cpuattn/kernels/simd/x86/avx2.h:9-10`) the select works on them too, and the model's does;
  on the other instruction sets the output is ill-typed exactly then (`Lowering.VectorCompiles`).
- `src/cpuattn/kernels/parallel_split_k.c.j2:116` tests a causal limit the template never defines, so split-key
  calls are not pruned; neither is the model's.

The mask that rounds sizes up (`src/cpuattn/schedule/planning.py:325-326`) is right exactly for powers of two
(`Planning.AlignRoundsUp`). That is a precondition which every key tile the backends enumerate meets
(`src/cpuattn/native/backends/base.py:64-106`), and page sizes are checked for it.

## Model

| member | source | states |
|---|---|---|
| `ScanReference.ColumnsIndependent` | tests/_reference.py:92-136 | the state of the ordered scan evolves one column at a time: column dv after any number of tokens depends on column dv before and on nothing else |
| `ScanReference.CutAndResume` | tests/_reference.py:92-136 | stopping the scan anywhere and resuming from the state reached gives the state of the uncut scan |
| `ScanReference.OutputsResume` | tests/_reference.py:92-142 | and the same outputs, for both read timings |
| `LinearBlocks.DecayProducts` | src/cpuattn/kernels/common/linear_block_decay.c.j2:1-16 | prefix, suffix and block scale are the gate products over exactly the ranges their readers need, for both timings |
| `LinearBlocks.ReadoutBlock` | src/cpuattn/kernels/simd/linear.h:54-85 | each valid row is its gate times query times state; rows past the valid ones are never stored |
| `LinearBlocks.ValuesBlock` | src/cpuattn/kernels/simd/linear.h:87-114 | adds the weighted value rows to the valid output rows and leaves the others alone |
| `LinearBlocks.StateUpdateBlock` | src/cpuattn/kernels/simd/linear.h:116-143 | every state element is its gated old value plus the suffix-weighted sum of keys times values |
| `LinearBlocks.DeltaSolve` | src/cpuattn/kernels/simd/linear.h:202-216 | forward substitution in place: the result W satisfies (I + L) W = the old contents, row by row and column by column |
| `LinearBlocks.DotProduct` | src/cpuattn/kernels/simd/linear.h:37-48 | per-lane partial sums plus a scalar tail are the dot product, for every lane count and length |
| `LinearBlocks.FoldState` | src/cpuattn/kernels/common/linear_block_finish.c.j2:20-28 | the block state update moves each state column exactly as token-by-token updates with the same values would |
| `BlockAlgebra.DeltaColumn` | src/cpuattn/kernels/linear_delta.c.j2:74-96 | driven by its residuals, the delta rule Scale, Rank1(-beta k, k), Outer(k, beta v) is a plain gated sum of outer products |
| `BlockAlgebra.SolutionIsResidual` | src/cpuattn/kernels/linear_delta.c.j2:83-96 | any solution of the triangular system with the kernel's right-hand side is the sequence of residuals the ordered scan would see |
| `BlockAlgebra.OutputBridge` | src/cpuattn/kernels/linear_delta.c.j2:98-114 | gated readout of the entry state plus the score row times the solution is the readout of the state after t tokens |
| `BlockAlgebra.StateBridge` | src/cpuattn/kernels/common/linear_block_finish.c.j2:20-28 | the suffix-weighted element update is the element of the state after the whole block |
| `DeltaKernel.FillScores` | src/cpuattn/kernels/linear_delta.c.j2:83-95 | the running between-products fill L (strictly lower) and A (with the diagonal) with beta times dot times the gates in between, zero elsewhere |
| `DeltaKernel.Residuals` | src/cpuattn/kernels/linear_delta.c.j2:70-96 | after projection, subtraction and solve, each column of W holds the residuals of the ordered scan started from the block's entry state |
| `DeltaKernel.DeltaBlock` | src/cpuattn/kernels/linear_delta.c.j2:66-117 | one block leaves the state and writes the outputs of the token-by-token gated delta scan, and touches no other output row |
| `DeltaKernel.DeltaRow` | src/cpuattn/kernels/linear_delta.c.j2:61-118 | for every block size, sequence length, tail, gate, beta and initial state the delta lowering equals the ordered scan |
| `ChunkedKernel.FillWeights` | src/cpuattn/kernels/linear_chunked.c.j2:72-87 | a weight is the dot product times the gates strictly between the two tokens, zero for tokens the read timing does not see |
| `ChunkedKernel.ChunkBlock` | src/cpuattn/kernels/linear_chunked.c.j2:64-92 | one block of the chunked lowering is that stretch of the ordered scan |
| `ChunkedKernel.ChunkedRow` | src/cpuattn/kernels/linear_chunked.c.j2:59-93 | the chunked lowering equals the ordered scan for every block size and length, reading before or after the update |
| `ScanKernel.StepSlice` | src/cpuattn/native/emit/linear.py:244-320 | each Scale, Rank1 or Outer step on a slice moves exactly the slice's columns, as the scan's own step does |
| `ScanKernel.ScanItem` | src/cpuattn/kernels/linear_2d.c.j2:52-107 | a work item scans all tokens of its slice, before- and after-readout alike, and leaves every other column as it was |
| `ScanKernel.OwnerHolds` | src/cpuattn/kernels/linear_2d.c.j2:33-60 | every (row, column) has a work item inside the launch whose decoded slice holds it |
| `ScanKernel.OwnerUnique` | src/cpuattn/kernels/linear_2d.c.j2:53-60 | and no other item's slice does, so the items' writes are disjoint |
| `ScanKernel.Scan2D` | src/cpuattn/kernels/linear_2d.c.j2:51-108 | under any schedule of the items the DV-block decomposition equals the whole-width scan of every row, for every program |
| `FusedReadout.FusedOuterReadout` | src/cpuattn/native/emit/linear.py:351-387 | the fused pass leaves every state column with one fused multiply-add per element and reads it out in component order |
| `FusedReadout.OuterPass` | src/cpuattn/native/emit/linear.py:306-320 | the separate update uses fused multiply-adds in whole vectors and a multiply and an add in the tail |
| `FusedReadout.Matvec` | src/cpuattn/kernels/simd/linear.h:181-200 | the separate readout accumulates in component order |
| `FusedReadout.SeparatePasses` | src/cpuattn/native/emit/linear.py:306-338 | the separate update followed by the separate readout, as one result |
| `FusedReadout.FusionExact` | src/cpuattn/native/emit/linear.py:356-361 | from equal states the fused pass and the two separate passes leave the same state and output for all inputs of a size if and only if the state is empty, the width is whole vectors, or the two ways of multiplying and adding never differ |
| `FusedReadout.FusionLosesBits` | src/cpuattn/native/emit/linear.py:356-361 | with single-precision rounding, factors 1 + 2^-12, a state of 2^-24, four lanes and width five, state and output both differ by one unit in the last place |
| `RowScan.FusedTail` | src/cpuattn/native/emit/linear.py:351-387 | without rounding the fused pass is the outer step followed by the readout of the state it leaves |
| `RowScan.ScanRow` | src/cpuattn/native/emit/linear.py:390-412 | a whole state row through all tokens, read before, in the fused tail or after, is the ordered scan |
| `Recogniser.CoefficientSound` | src/cpuattn/native/lowering.py:71-94 | a returned coefficient c satisfies e = c * x in every environment and reads no variable e does not |
| `Spellings.CoefficientsFound` | src/cpuattn/native/lowering.py:71-94 | an expression has a coefficient exactly when it is x, c x, x c, c (-x), (-x) c or a negation of one of these, for every c, the variable itself included, and then the coefficient is that spelling's |
| `Spellings.CoefficientValue` | src/cpuattn/native/lowering.py:71-94 | that coefficient is c, or one for the bare variable, with the spelling's sign in every environment |
| `Spellings.DeltaForms` | src/cpuattn/native/lowering.py:25-68 | the delta lowering has a plan for exactly the operators written as an optional per-token gate, a correction with coefficient -beta and a value with coefficient beta, q read afterwards, and it is that gate and that beta |
| `Spellings.DeltaSpellings` | src/cpuattn/native/lowering.py:71-77 | each of the six spellings of -beta k with beta v in either order is taken, behind any per-token gate |
| `Spellings.ChunkForms` | src/cpuattn/native/lowering.py:97-127 | the chunked lowering has a plan for exactly an optional per-token gate and the outer product of k and v, q read before or after |
| `Spellings.StepsChecked` | src/cpuattn/native/emit/linear.py:127-168 | the renderer accepts exactly the operators whose expressions along D read neither v nor an argument along DV, and whose value expressions read neither q, k nor an argument along D |
| `Recogniser.BetaIsPerToken` | src/cpuattn/native/emit/linear.py:127-167 | an operator accepted by the delta plan and the context check has a beta (and gate) that reads no q, k, v and no argument along D or DV |
| `Recogniser.DeltaRecognised` | src/cpuattn/native/lowering.py:25-68 | its program acts on every state as the gated delta rule with those scalars, with a gate of one when no Scale is present |
| `Recogniser.ChunkRecognised` | src/cpuattn/native/lowering.py:97-127 | an operator accepted by the block plan acts on every state as one gate and one outer product |
| `LinearAttention.ScanCall` | src/cpuattn/kernels/linear_2d.c.j2:51-108 | a whole call from raw tensors: any operator that passes the renderer's checks, scanned in DV blocks taken in any order, leaves in every state head its own token-by-token scan of the modified inputs, groups shared as h * G / H; a refused one touches nothing |
| `LinearAttention.RowCall` | src/cpuattn/kernels/linear_delta.c.j2:60-118 | likewise compiled by the delta, the chunked or the plain scan lowering, for every block size, tile and lane count and any order of the state heads |
| `LinearMeaning.ProgramMeans` | tests/_reference.py:74-136 | at every batch, state head, token and component of an accepted call, each vector of each step and the query are their expressions' values where every argument name is its tensor's element at that batch, head, group, token and component, and q, k and v are the modified inputs; the group is the one whose stretch of the heads holds the head |
| `LinearMeaning.Environments` | src/cpuattn/native/emit/expression.py:139-159 | and every site has such an environment, the one the emitted accesses build |
| `LinearMeaning.RowAccepts` | src/cpuattn/native/lowering.py:25-127 | past the checks the plain scan takes every operator and each block lowering exactly its own written form |
| `LinearMeaning.DefinitionChecked` | src/cpuattn/native/emit/linear.py:127-168 | the checks of a whole definition, modifiers included: they read no vector and no argument of the other component |
| `LinearAttention.LoadToken` | src/cpuattn/kernels/common/linear_block_load.c.j2:13-48 | a token's vectors, aliased or loaded through the modifiers, are the modifiers' meaning element by element |
| `Elementwise.MapSpan` | src/cpuattn/kernels/common/linear_block_load.c.j2:18-39 | whole vectors and then the scalar tail write the modifier's value at exactly the positions of the span |
| `Elementwise.MapTiled` | src/cpuattn/kernels/linear.c.j2:67-94 | and tile by tile, for every tile, lane count and length |
| `LinearAttention.TokenRespects` | src/cpuattn/native/emit/expression.py:139-161 | an argument without a D or DV axis has one element all along it, whatever its other axes, which is what the recogniser's per-token test relies on |
| `Recogniser.Scalars` | src/cpuattn/kernels/common/linear_block_load.c.j2:40-43 | the emitted gate and beta of every token are the expressions' values there |
| `Softmax.SumPositive` | src/cpuattn/core/rownorm.py:258-265 | the running sum is positive exactly when a key was active, which is what the zero tests on it mean |
| `Softmax.RowMoves` | src/cpuattn/kernels/simd/parallel.h:81-82 | moving the maximum multiplies every weighted sum by the rescale factor, also when that factor is the zero of an empty row |
| `Softmax.FinishedRow` | src/cpuattn/core/rownorm.py:283-303 | weighted sums under the running maximum, times the final scale, are the two-pass reference over the active keys |
| `BlockedSoftmax.SoftmaxTile` | src/cpuattn/kernels/simd/parallel.h:72-112 | new maximum, sum and factor of every row, and each score replaced by its weight |
| `BlockedSoftmax.ElementStep` | src/cpuattn/kernels/parallel.c.j2:163-170 | an output element goes through a tile correctly although a rescale by zero is skipped: an empty sum means it is already zero |
| `BlockedSoftmax.KeyTile` | src/cpuattn/kernels/parallel.c.j2:126-170 | after each key tile maximum, sum and output row are max s, sum exp(s - m) and sum exp(s - m) v over the keys seen |
| `BlockedSoftmax.PastLimit` | src/cpuattn/kernels/parallel.c.j2:121-125 | every key past the causal limit of a query block is masked for all its rows |
| `BlockedSoftmax.SoftmaxBlock` | src/cpuattn/kernels/parallel.c.j2:82-251 | one query block, for every tile size, score and mask expression, direct or packed K, pruned or not, is the softmax reference row by row |
| `RowNorms.Interpret` | src/cpuattn/core/rownorm.py:142-162 | the in-place interpreter returns the recursively defined online weights |
| `RowNorms.RunIsOnline` | src/cpuattn/core/rownorm.py:142-162 | running over a masked row is the protocol over its active scores alone |
| `BlockedGeneric.Forward` | src/cpuattn/kernels/parallel.c.j2:197-218 | the forward pass leaves each cell's weight and rescale factor; a factor that is itself zero is not mistaken for a masked cell |
| `BlockedGeneric.Backward` | src/cpuattn/kernels/parallel.c.j2:220-225 | the backward pass multiplies each weight by the product of the later factors |
| `BlockedGeneric.KeyTile` | src/cpuattn/kernels/parallel.c.j2:171-238 | a tile moves state and output row from the keys before it to the keys through it, for arbitrary update, rescale and weight functions |
| `BlockedGeneric.GenericBlock` | src/cpuattn/kernels/parallel.c.j2:82-251 | one query block of the generic path is the sum of online weights times values over the active keys |
| `NormInstances.SoftmaxMeetsReference` | src/cpuattn/core/rownorm.py:258-309 | the online softmax protocol and the whole-row softmax give the same output |
| `NormMeaning.SoftmaxMeans` | src/cpuattn/core/rownorm.py:282-306 | the reference without its maximum: the exponentials of the scaled active scores share out the values, and a row without an active key gives zero |
| `NormInstances.IdentityMeetsReference` | src/cpuattn/core/rownorm.py:312-323 | the identity norm's online weights are its reference weights |
| `NormInstances.L1MeetsReference` | src/cpuattn/core/rownorm.py:326-344 | likewise l1, with the sum clamped below at one |
| `NormMeaning.L1Normalises` | src/cpuattn/core/rownorm.py:326-344 | the absolute l1 weights sum to the absolute scaled scores' sum, or to one where that is larger; below one the weights are the scaled scores, above it each is its share, and no sign changes |
| `NormInstances.SigmoidMeetsReference` | src/cpuattn/core/rownorm.py:347-370 | likewise the sigmoid norm, zero when its sum is |
| `NormMeaning.SigmoidNormalises` | src/cpuattn/core/rownorm.py:347-368 | the weights sum to one in the proportions of the values, or all are zero where the values sum to nothing positive |
| `Arguments.ArrayOffset` | src/cpuattn/native/emit/expression.py:197-204 | the emitted offset is the row-major one |
| `Arguments.OffsetInjective` | src/cpuattn/native/emit/expression.py:197-204 | two indices share an offset exactly when they agree on every axis |
| `Arguments.RowMajor` | src/cpuattn/native/emit/expression.py:197-204 | a step of the first axis passes over a whole tensor of the others, so the last axis is the fastest |
| `Arguments.OffsetMoves` | src/cpuattn/native/emit/expression.py:183-193 | moving one axis by i moves the offset by i strides, whatever the axis list |
| `Arguments.StrideSpans` | src/cpuattn/native/emit/expression.py:183-189 | an axis's stride is the size of the tensor of the later axes |
| `Arguments.LoadStrided` | src/cpuattn/kernels/simd/expr.h:6-12 | lane i is the element i strides on, with or without the contiguous shortcut |
| `Arguments.Argument.LoadLanes` | src/cpuattn/native/emit/expression.py:163-204 | the emitted offset, stride and load give an argument's elements at consecutive positions of the vector axis, or one element repeated |
| `Arguments.Argument.LaneIsAccess` | src/cpuattn/native/emit/expression.py:163-194 | lane i of an argument's vector load is its scalar access i positions further along the axis, and is in bounds |
| `Expressions.WellTyped` | src/cpuattn/core/expr.py:206-260 | a well-typed expression evaluates to a value of its type |
| `Lowering.EmitMeans` | src/cpuattn/native/emit/expression.py:11-63 | the scalar C form of every well-typed expression evaluates to the expression's meaning |
| `Lowering.TanhLane` | src/cpuattn/kernels/simd/expr.h:32-39 | the derived vector tanh is tanh in every lane |
| `Lowering.TanhBySigmoid` | src/cpuattn/kernels/simd/expr.h:32-39 | twice the sigmoid of 2x, less one, is the hyperbolic tangent of x, from the laws of exp |
| `Lowering.VectorMeans` | src/cpuattn/native/emit/expression.py:66-114 | lane i of every well-typed expression's vector form is its meaning in lane i's environment |
| `Lowering.VectorCompiles` | src/cpuattn/native/emit/expression.py:66-114 | where masks have a type of their own, the vector form of a well-typed expression is well-typed C exactly when no selection in it is between truth values |
| `Expressions.CausalMaskSound` | src/cpuattn/native/emit/parallel.py:135-149 | an accepted mask is true only where key_index <= query_index |
| `Expressions.CausalMasks` | src/cpuattn/native/emit/parallel.py:135-149 | a mask is recognised as causal exactly when one of its conjuncts compares the two indices, in either spelling |
| `BlockedSoftmax.LimitReached` | src/cpuattn/kernels/parallel.c.j2:121-125 | the limit cuts exactly the keys that no query of the block is at or past, and only under a recognised mask |
| `Scores.PackedTile` | src/cpuattn/kernels/simd/parallel.h:8-43 | the packed tile holds query times panel column for a whole tile of columns, for every column grouping and component blocking |
| `Scores.QkTile` | src/cpuattn/kernels/simd/parallel.h:8-70 | from any starting key, direct and packed tiles agree on the valid columns, and loads past a padded row stay inside the memory whenever a tile fits behind the copies, as `Planning.BucketPlanFits` derives it does |
| `Scores.Source.LaneCell` | src/cpuattn/kernels/parallel.c.j2:137-151 | a lane of the vector body decides and scores its key as the scalar meaning does, arguments included |
| `Scores.LoadVectors` | src/cpuattn/kernels/parallel.c.j2:137-146 | every name is bound to its value at each of the vector's keys |
| `Scores.MaskRow` | src/cpuattn/kernels/parallel.c.j2:137-161 | vector body plus scalar tail is the elementwise masked, modified, scaled score, for every lane count and tile width |
| `Scores.FlagRow` | src/cpuattn/kernels/parallel.c.j2:172-196 | likewise for the generic path's zeroed scores and flags |
| `Scores.CellCongruent` | src/cpuattn/kernels/parallel_split_k.c.j2:120-162 | a key's cell is the same in any tile, share or copy it is read from |
| `Attention.BlockedAttention` | src/cpuattn/kernels/parallel.c.j2:58-256 | in any static or dynamic order of the work items, taken by any workers, every output row is the reference over the caller's tensors, grouped heads and ragged blocks included |
| `AttentionMeaning.ScoreMeans` | tests/_reference.py:21-60 | every score of the reference rows from the caller's tensors: the query's row times the shared head's key, mask and score expressions at that query and key index and at every argument's element there; the values are the shared head's |
| `AttentionMeaning.Environment` | src/cpuattn/native/emit/expression.py:128-136 | and every score has such an environment, the one the emitted accesses build |
| `Integers.SharedHeadGroups` | src/cpuattn/kernels/parallel.c.j2:86 | a head reads shared head g of its own batch exactly when g HQ <= h HKV < (g + 1) HQ |
| `Integers.SharedHeadConsecutive` | tests/_reference.py:23 | where the shared heads divide the heads, each serves the same number of consecutive heads |
| `Attention.ItemRows` | src/cpuattn/kernels/parallel.c.j2:59-88 | the decode of a work item covers exactly the rows of its block, and every row has an item inside the launch |
| `Attention.StaticTurns` | src/cpuattn/kernels/parallel.c.j2:81-86 | the static schedule hands every item to a worker of the launch |
| `Attention.StoredHead` | src/cpuattn/kernels/parallel.c.j2:90-100 | any slot's packed copy of a head is the caller's head |
| `Attention.StreamedAttention` | src/cpuattn/runtime.py:435-470 | a cached streaming call of a blocked plan, end to end: taken exactly when its workspace is large enough, it computes the reference over the current K and V however many packed rows the cache kept and whichever copy each worker reads; refused, it writes nothing and spoils the stream state exactly when it displaces another plan's |
| `Merging.MergeLaws` | src/cpuattn/core/rownorm.py:164-188 | merging parts of disjoint key sets is commutative and associative, and the empty part is its identity |
| `Merging.SoftmaxMerges` | src/cpuattn/core/rownorm.py:267-281 | the softmax merge of two parts is the part of the union of their keys, empty parts included |
| `Merging.AdditiveMerges` | src/cpuattn/core/rownorm.py:312-370 | so is the merge of identity, l1 and sigmoid |
| `SplitK.GenericPart` | src/cpuattn/kernels/parallel_split_k.c.j2:83-210 | a worker's share through the generic path is the part of its keys |
| `SplitK.SoftmaxPart` | src/cpuattn/kernels/parallel_split_k.c.j2:164-172 | a worker's share through the softmax path is the same part |
| `SplitK.MergeGroup` | src/cpuattn/kernels/parallel_split_k.c.j2:222-252 | a group's root ends with the part of all the group's keys and no other slot changes |
| `SplitK.MergeRoots` | src/cpuattn/kernels/parallel_split_k.c.j2:254-290 | merging the roots in group order and scaling gives the finished part of all members' keys |
| `SplitK.SharesCover` | src/cpuattn/kernels/parallel_split_k.c.j2:83-85 | the members' shares, gathered by group, are all the keys |
| `SplitK.SplitRow` | src/cpuattn/kernels/parallel_split_k.c.j2:86-291 | a split row is the unsplit online output for every division among workers and NUMA groups |
| `SplitK.SplitSoftmaxRow` | src/cpuattn/kernels/parallel_split_k.c.j2:86-291 | and the softmax reference on the fast path |
| `Grid.ChooseKeyParts` | src/cpuattn/kernels/parallel_2d.c.j2:42-58 | zero exactly when no divisor from two up to the workers fits the cap; otherwise the smallest divisor that keeps the most workers active |
| `Grid.ActiveWorkers` | src/cpuattn/kernels/parallel_2d.c.j2:51-52 | what that count means: a worker is among the counted first ones exactly when some row falls to its query part |
| `Launches.PlannedYetRefused` | src/cpuattn/schedule/planning.py:93-136 | on nine cores of one node, with five query blocks and two key tiles, the planner proposes nine workers, for which the kernel has no divisor |
| `Launches.ProposedTaken` | src/cpuattn/schedule/planning.py:127-136 | any proposed 2D launch has a divisor exactly when its workers' least one is at most the key tiles |
| `Launches.EdgePlanTaken` | src/cpuattn/runtime.py:214-242 | a 2D plan chosen at a bucket's edge has a divisor at every length of the bucket exactly when the least one fits the key tiles of the shortest length |
| `Launches.EdgeYetRefused` | src/cpuattn/runtime.py:214-242 | nine workers pass at the edge of 64 keys and have no divisor at 20 |
| `Grid.LeastDivisorDecides` | src/cpuattn/kernels/parallel_2d.c.j2:42-58 | a 2D launch has a divisor exactly when the workers' least one fits the key tiles; every even launch has |
| `Grid.GridPartition` | src/cpuattn/kernels/parallel_2d.c.j2:99-104 | every (row, key) pair has exactly one worker |
| `Grid.SplitKLaunch` | src/cpuattn/kernels/parallel_split_k.c.j2:37-291 | -1 exactly with fewer than two workers, then -2 exactly in too small a workspace, both without a write; otherwise every row is whole |
| `Grid.Split2DLaunch` | src/cpuattn/kernels/parallel_2d.c.j2:36-295 | -1, -3 and -2 exactly when they are due, in this order and without a write; otherwise every row is whole |
| `SplitAttention.RunSplit` | src/cpuattn/kernels/parallel_2d.c.j2:36-295 | both split lowerings are refused exactly when their checks fail, without a write, and otherwise give the blocked call's reference rows over the caller's tensors, each worker reading its own slot |
| `SplitAttention.StreamedSplit` | src/cpuattn/runtime.py:435-470 | a cached call of a split plan, end to end: accepted exactly when its kernel's checks pass, then the reference over the current K and V; refused, it writes nothing and spoils the stream state exactly when it displaces another plan's, equal sizes or not |
| `SplitAttention.AdditiveRowsLawful` | src/cpuattn/core/rownorm.py:312-370 | the additive norms meet the merge laws those calls ask for, on every row |
| `Packing.Layout.AddressInjective` | src/cpuattn/kernels/common/packing.h:49-56 | no two packed cells share an address |
| `Packing.GroupPosition` | src/cpuattn/kernels/common/threading.h:69-85 | rank and count of a worker within its group |
| `Packing.PanelHasOneWriter` | src/cpuattn/kernels/common/packing.h:36-51 | every panel of every owner's copy has exactly one writing worker |
| `Packing.CellDuring` | src/cpuattn/kernels/common/packing.h:51-61 | at every moment of any interleaving a cell holds its old value or its target |
| `Packing.AnyOrderPacks` | src/cpuattn/kernels/common/packing.h:51-61 | any interleaving of all the workers' writes ends in the full zero-padded transposed pack exactly when the retained prefix was valid |
| `Packing.NoBarrierNeeded` | src/cpuattn/kernels/parallel.c.j2:76-78 | with nothing to pack the memory reads as fully packed throughout, so the barrier may be skipped |
| `Packing.PackAll` | src/cpuattn/kernels/common/packing.h:21-62 | the workers' loops, run to the end, leave a full pack exactly when the prefix was valid, and nothing behind the copies changes |
| `Packing.WorkerSlots` | src/cpuattn/kernels/common/packing.h:7-19 | every worker reads a copy there is, its own group's when that keeps one |
| `Integers.SharesPartition` | src/cpuattn/kernels/common/threading.h:63-67 | the static ranges partition the items |
| `Integers.SharesBalanced` | src/cpuattn/kernels/common/threading.h:63-67 | no share is smaller than the quotient or larger than it rounded up, and together they run from the first index to the last |
| `Stream.Executor.WorkspaceFor` | src/cpuattn/native/executor.py:43-52 | a new plan gets a fresh workspace and forgets every cached template; the same plan keeps its workspace |
| `Stream.Executor.Run` | src/cpuattn/native/executor.py:102-215 | a native call reads packed copies of the current K exactly when the workspace it finds, its plan's own as it was left or a zeroed one, holds the rows it is told to keep |
| `Stream.Runtime.Call` | src/cpuattn/runtime.py:435-470 | so does a cached call, whatever state the cache is in, and the cache records exactly this call |
| `Stream.Runtime.KeepsWhileStrideHolds` | src/cpuattn/runtime.py:421-433 | a longer call on the same buffer keeps the packed rows exactly while the padded stride has room for it |
| `Stream.Runtime.ReasonTells` | src/cpuattn/runtime.py:403-433 | an earlier stream run's rows are kept exactly when none of the four named reasons holds, and each reason is named exactly in its own case, the stride's in terms of the room left |
| `Stream.Runtime.PrefixIsPacked` | src/cpuattn/runtime.py:403-433 | the gates are enough: the retained rows are the call's own rows, packed where the kernel will look |
| `Stream.Runtime.RunCached` | src/cpuattn/runtime.py:435-470 | every packed cell a cached call reads is its K transposed or zero padding, and the cache records exactly this call |
| `Stream.Runtime.RunRefused` | src/cpuattn/native/executor.py:113-119 | a refused call leaves the cache sound exactly when the latest run was no stream call of another plan |
| `Stream.Runtime.DisplacedRowsLost` | src/cpuattn/runtime.py:403-433 | otherwise that stream's next growing call keeps its rows, and its packed copy is right only if those rows are all zero |
| `Stream.AroundRefusal` | src/cpuattn/runtime.py:435-470 | a stream call, a refused call, one more row, the stream's next call: it reads its K exactly when the refused plan was the stream's, the padded stride had no room left, or all earlier rows are zero |
| `Stream.LostRow` | src/cpuattn/native/executor.py:43-52 | one row, a refused 2D call of a plan otherwise equal to the split-key stream's, a second row: the stream's next call does not read its K |
| `Stream.Runtime.Measure` | src/cpuattn/runtime.py:359-400 | a tuning measurement reads coherent copies too and outdates the recorded stream state |
| `Stream.Session` | src/cpuattn/runtime.py:403-489 | over every sequence of stream calls, tuning runs, refused calls, appends and edits in place on any number of buffers, every packing call read the K of its own moment; packed rows must stay unedited only until the next growing call of their stream, and a refused call must not displace a stream |
| `Planning.AlignRoundsUp` | src/cpuattn/schedule/planning.py:325-326 | the mask rounds every value up to the alignment exactly when the alignment is a power of two |
| `Planning.PowerTest` | src/cpuattn/schedule/planning.py:74-75 | the bit test the planner applies finds exactly the powers of two |
| `Planning.TilesThatSuffice` | src/cpuattn/schedule/planning.py:206-213 | plans pass the kernel's size check, whatever the sizes, exactly when the key tile is a power of two |
| `Planning.KvBucketLeast` | src/cpuattn/runtime.py:57-61 | the bucket is the least 64 * 2^n at or above the length |
| `Planning.KvBucketStable` | src/cpuattn/runtime.py:214-242 | growing changes the bucket exactly when the length leaves it |
| `Planning.BuildMemory` | src/cpuattn/schedule/planning.py:204-246 | for every key tile, regions are aligned, disjoint, evenly divisible and end at the total, the workers' region right behind the packed copies with one page-rounded area each |
| `Planning.MemoryPlans` | src/cpuattn/schedule/planning.py:203-248 | one valid candidate per owner group, and one for all groups when the launch crosses nodes |
| `Planning.BucketPlanFits` | src/cpuattn/kernels/parallel.c.j2:42-53 | a plan sized at the bucket's edge is a valid plan of the stream cache, with a tile of room behind its copies, and passes the kernel's size check at every shorter key length of the bucket |
| `Planning.Need.AreaHoldsTile` | src/cpuattn/schedule/planning.py:186-201 | a worker's page-rounded area holds a key tile: blocked scratch by its own size, partial rows because a page does |
| `Planning.BuffersFill` | src/cpuattn/schedule/planning.py:25-67 | the buffers each linear or blocked kernel lays out in a worker's scratch end exactly where the planned scratch does |
| `Planning.BuffersApart` | src/cpuattn/kernels/linear_delta.c.j2:43-55 | buffers laid out one behind the other within a stride never overlap, within a worker or between workers, and end inside the strides of all workers |
| `Planning.AreaFills` | src/cpuattn/kernels/parallel.c.j2:51-52 | whatever the area, the buffers laid out in it end where the floats that the kernel counts do |
| `Planning.PlannedBuffersApart` | src/cpuattn/kernels/parallel.c.j2:102-106 | in a workspace planned for some key length, at every call up to it, all buffers of all workers at the kernel's own stride lie behind the packed copies and inside the workspace, and no two share a byte |
| `Planning.RegionStarts` | src/cpuattn/kernels/parallel.c.j2:42-53 | a call of the planned length begins its workers' buffers where the plan's region begins and fills that region |
| `Planning.PlannedPartialsApart` | src/cpuattn/kernels/parallel_split_k.c.j2:101-102 | likewise each element of each partial row, values and states: no two share a byte, all inside |
| `Launches.PhysicalCpus` | src/cpuattn/schedule/planning.py:282-291 | one CPU of every core, none twice |
| `Launches.GroupByNode` | src/cpuattn/schedule/planning.py:315-322 | groups in ascending node order that partition the CPUs |
| `Launches.BalancedCpus` | src/cpuattn/schedule/planning.py:293-313 | terminates with exactly as many distinct CPUs as requested or available, dealt from each node in turn |
| `Launches.DealIsBalanced` | src/cpuattn/schedule/planning.py:301-312 | no node gives two CPUs more than another that still has some to give |
| `Launches.LaunchPlans` | src/cpuattn/schedule/planning.py:99-123 | for every worker count tried, exactly the leading CPUs of each node that has enough and one deal over all nodes are listed; each launch uses one CPU per core, no more workers than the work allows, and groups that partition them |
| `Launches.PlannedLaunches` | src/cpuattn/schedule/planning.py:93-168 | for each decomposition exactly the listed launches that it keeps are proposed |
| `Launches.WorkerCounts` | src/cpuattn/schedule/planning.py:105-110 | the doubling loop and the node sizes gather exactly one, the limit, the powers of two and each node's size up to the limit |
| `Launches.KeptWorkers` | src/cpuattn/schedule/planning.py:125-148 | what is kept, decomposition by decomposition: two workers for split keys, four with a proper divisor for the grid, and for DV blocks two where there are two blocks |
| `Parallelism.BlocksForAll` | src/cpuattn/schedule/planning.py:150-161 | a proposed query-block launch has no more workers than the blocked kernel has work items |
| `Parallelism.KeysForAll` | src/cpuattn/kernels/parallel_split_k.c.j2:37-38 | a proposed split-key launch is never refused as too small, and every one of its workers has keys |
| `Parallelism.PartsForAll` | src/cpuattn/kernels/parallel_2d.c.j2:102-103 | whichever key parts the kernel picks for a proposed 2D launch, each of them has keys |
| `Parallelism.ItemsForAll` | src/cpuattn/schedule/planning.py:137-147 | a proposed DV-block launch has no more workers than the scan has items, and is proposed only where there are more items than state heads |
| `Launches.WorkerGroups` | src/cpuattn/native/executor.py:54-68 | every worker is handed its own node's group, and every group has a worker |

## Left out

- Floating-point rounding, underflow and NaN, the exp and log polynomials and the instruction sets: arithmetic is exact. The skipped rescale relies on exp > 0.
- SIMD register blocking appears as lane counts where lanes carry partial results or evaluate expressions (dot products, score transforms, packed score tiles, fused readout, strided loads); the other vector loops are modelled element by element.
- Expressions: boolean arguments.
- Row-norm expressions: norms are protocols of functions. The recogniser that compares a norm with the built-in softmax expression is not modelled, and the sigmoid norm's value function is arbitrary.
- SplitK.SplitRow: a row's shares are computed one after another; the kernel computes all rows of a share before its barrier. Nothing is shared between rows.
- Packing.PackAll: runs the workers one after another; every interleaving of their writes is covered by the trace lemmas beside it.
- LinearAttention.RowCall: loads all tokens of a state head, and for the scan evaluates their step expressions, before its blocks or steps; the kernels do so in between. Nothing writes q, k or v.
- LinearAttention.ScanCall: evaluates a token's step expressions before its steps; the kernel evaluates them in between, from the same inputs. Each item loads only its own slice of v.
- Stream.Runtime.RunRefused: calls refused by the kernel's own checks. A call that fails after packing (worker affinity) is outside the model, as are K buffers with a pitch.
- Stream.Executor.Run: whatever a kernel leaves beyond the packed copies is arbitrary scratch.
- Launches.PlannedLaunches: the order of the launches and the removal of duplicates.
- Planning.BucketPlanFits: a partial-rows area is assumed to have pages of at least one key tile.
- Thread teams, affinity, template rendering, compilation, caches and locks, host detection, tuning scores, NumPy validation, benchmarks and diagnostics.
