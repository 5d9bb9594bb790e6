# Verified model of the expert encoder, its allocators and its measurements

This project models, in Dafny, the parts of the repository where an error would be silent: the calibrated LDLQ encoder of
`reproducibility/r10/lineage/encode_tr3_v31.py` with its three faster forms, the exact-rate allocators and the factory
selection under `scripts/`, and the two ways the per-token divergence is computed. Code that updates tensors, records and
buffers in place is modelled by methods over arrays and by classes; every such method is proved against a function of its
inputs, and the properties are then proved of that function for all inputs.

`dafny verify dfyconfig.toml` checks everything.

## Two readings of arithmetic

Statements that two forms of the code are *identical* (lockstep against sequential LDLQ, pooled against sequential scale
search, phases against the one-function encoder, batch against loop) leave the scalars, their operations and the per-tile
quantizer unspecified: both sides do the same operations on the same operands in the same order, whatever the operations
round. Only the bracket of the scale search is a real in both of its forms, which move it by the same steps. The one
assumption about the quantizer is that a tile's result depends on that tile alone.

Statements about *values* (the LDLQ loss, the block LDL factor, the Hadamard round trip, the golden section, the
divergences, the allocators' optimality) use exact reals. The golden ratio is a positive `phi` with `phi * phi == phi + 1`,
the Hadamard scale an `s` with `s * s * n == 1`, the square root a function with its defining laws, and the exponential a
function known only by `exp(x + y) == exp(x) * exp(y)` and `exp(x) >= 1 + x`, with a logarithm inverse to it.

## Where to look

| area | modules | main results |
|---|---|---|
| LDLQ | Tiles, Ldlq, Feedback, Loss, BlockLdl, Calibrated | `BlockedIsUnblocked`, `EveryTile`, `SpanIndependent`, `LdlqLoss`, `BlockLdl`, `CalibratedLoss` |
| faster forms | Lockstep, ZeroFeedback, GssPool, Pipeline, RealPrologue | `LockstepLdlq`, `ZeroLdlqIsBatch`, `GScaleGssLockstep`, `EncodePhased` with `EncodeAll` |
| whole encoder | CalibratedRun | `CalibratedOutput` |
| scale search | GoldenSection | `NextKeepsInv`, `BestIsMinimum`, `ScaleIsNearMinimiser` |
| transforms | Hadamard, Regularize | `WalshOrthogonal`, `RowScale`, `RoundTrip`, `RecoversExactly` |
| allocators | Sorting, Density, CalibratedDensity, Surplus | `NoBetterList`, `LeastDamageAtSameBytes`, `LeastDamageWithinBytesIff`, `LeastDamageAtSameCount`, `CalibratedIsOptimal`, `Conservation`, `RunSurplusInRangeIff`, `ClosingCheckIff` |
| selection | FactoryUnion | `Run`, `ChosenIff`, `AtMostEverySwap` |
| divergence | TokenKld | `TokenKld`, `IndependentTokenKld`, `DivergenceIs`, `ZeroIff` |
| files | LayerCommit, SafeTensors | `NeverWrong`, `NeverWrongIff`, `PassEnds`, `NeverRewrittenIff`, `RoundTrip`, `PrefixCompleteIff` |
| calibration | Routing | `RowsOfToken`, `SegmentsPartition`, `BuildExpertHessians`, `HessianForm` |

Arithmetic, ByteStrings, Descending, Options, Sums and Linear hold what the others share.

## What the code does not do

Some properties one would expect are false of the code as it stands. Each is stated as the exact condition under which the
code has it; where that condition can fail on inputs the code accepts without an error, a lemma gives such an input, the
header limit of safetensors files apart.

- Regularize: decoding a regularized weight does not always give it back. A column that is not zero but faint against the
  mean column scale is stored as zero (`FaintColumnIsLost`); the round trip holds exactly if every column is zero or has at
  least the threshold's sum of squares (`RecoversExactly`).
- Surplus: the closing check of the carried-surplus allocator can fire at 3.5 bits with an even number of layers.
  `layers - 1 <= M / 2` does not prevent it for M = 2 (`TwoLayersOfTwoWeights`); `ClosingCheckIff` gives the exact bound, and
  `AlternatesIff` shows that from M = 4 on that inequality is exactly the condition for alternating. A base below eight bits
  does not keep the surplus between nothing and one projection: below one bit a weight it is negative, because a layer
  cannot spend less (`HalfABit`), and above eight bits it piles up. `RunSurplusInRangeIff` gives the exact condition on rate,
  size and number of layers, `AllSurplusInRangeIff` the one for runs of every length.
- Density: with unequal increments the density-ranked half is best among choices of exactly its bytes; among all choices
  of no more bytes it is best if and only if it is empty or its last density is not negative (`LeastDamageWithinBytesIff`,
  with `HarmfulUpgrades` for two units that a fourth bit makes worse).
- LayerCommit: a layer can be reported done with bytes that are not its encoding. `layer_done` compares the hash of the
  shard with the recorded one and nothing else, so a shard and its record left in the work directory by a run with other
  output scales, another capture or another routing threshold are accepted (`ForeignEncoding`) and stay (`WrongStays`).
  `NeverWrongIff` says that this is the only way: no run from a start is ever wrong exactly if no layer is at the start.
- LayerCommit: a done layer can be written again. A record of the layer's own encoding whose shard is missing or another one
  makes the layer done as soon as the new shard is renamed into place, and its record is then written a second time
  (`OrphanRecord`, `Rewritten`); `NeverRewrittenIff` says that this is the only way.
- SafeTensors: a tensor named `__metadata__` written without metadata is not found by the reader and not counted by the
  completeness test (`StrayTensorIsLost`); a file is accepted exactly up to a padded header of 100 MiB (`AcceptedIff`; no
  lemma builds a header that long).
- TokenKld: the in-place divergence overwrites float64 logits of its caller, because for float64 the slices are views;
  float32 logits are left alone. The overwritten logits give the same values again (`SameAgain`).
- Ldlq: `ldlq` asserts that the span height divides the width but not the height; the stepped walk asserts both. With a
  height that is no multiple the last span starts at a negative row and its first product does not fit, so that `ldlq` and
  the reference loop succeed exactly for multiples. The encoder only calls them with heights divisible by 128 (line 1288).

## Model

| member | source | states |
|---|---|---|
| Tiles.TensorCorePerm | reproducibility/r10/lineage/encode_tr3_v31.py:384-402 | the table loop over 32 lanes of 8 entries fills in a permutation of 0..255 |
| Tiles.TensorCoreLane | reproducibility/r10/lineage/encode_tr3_v31.py:392-402 | what a tile sends to the quantizer, entry by entry: eight neighbours are rows 2q, 2q+1, 2q+8 and 2q+9 of column c and then of column c + 8 |
| Tiles.ArgsortOfPerm | reproducibility/r10/lineage/encode_tr3_v31.py:406-408 | every argsort of the table is its inverse permutation, so the library may return any |
| Tiles.TakePermThenInverse | reproducibility/r10/lineage/encode_tr3_v31.py:927-929 | permuting a tile and permuting back gives the tile |
| Tiles.RowsOfTilesOf | reproducibility/r10/lineage/encode_tr3_v31.py:926-930 | scattering the gathered tiles of a 16-row block gives the block back |
| Tiles.TilesOfRowsOf | reproducibility/r10/lineage/encode_tr3_v31.py:926-930 | gathering the rows scattered from tiles gives the tiles back: the two views are inverse both ways |
| Ldlq.Compensate | reproducibility/r10/lineage/encode_tr3_v31.py:917-927 | the in-place compensation update writes only its own 16 cache rows, and the tiles gathered are those of the specified machine |
| Ldlq.StoreBlock | reproducibility/r10/lineage/encode_tr3_v31.py:929-932 | the un-permuted values and the indices land in the block's rows and nowhere else |
| Ldlq.FeedForward | reproducibility/r10/lineage/encode_tr3_v31.py:938-940 | the span-end update gives the cache the specified machine has after the span |
| Ldlq.QuantizeSpan | reproducibility/r10/lineage/encode_tr3_v31.py:906-932 | a whole span, from any state: what is left of the run afterwards gives the same final result |
| Ldlq.Ldlq | reproducibility/r10/lineage/encode_tr3_v31.py:873-945 | succeeds exactly if the span height divides the height; then the two-level loop over arrays ends in the result of the step machine that the other forms are proved against |
| Ldlq.RunOn | reproducibility/r10/lineage/encode_tr3_v31.py:903-940 | one block on, inside a span or across its end, the rest of the run still gives the same result |
| Ldlq.StepFrame | reproducibility/r10/lineage/encode_tr3_v31.py:917-932 | a block leaves the cache of other blocks, the rows below it and all other index blocks untouched |
| Ldlq.WholeSpans | reproducibility/r10/lineage/encode_tr3_v31.py:895-904 | a height divisible by the span height is walked in whole spans, for every span height |
| Feedback.BlockedIsUnblocked | reproducibility/r10/lineage/encode_tr3_v31.py:895-940 | in exact arithmetic the rows given to the quantizer for block b are W[b] plus the sum over all rows r below it of L[r,b]^T (W - Wq)[r], with no cache and no spans |
| Feedback.TileOfBlock | reproducibility/r10/lineage/encode_tr3_v31.py:926-932 | tile by tile an unblocked result holds the quantizer's value and index of that tile of the weight plus the feedback from below |
| Feedback.EveryTile | reproducibility/r10/lineage/encode_tr3_v31.py:903-940 | so does every result of LDLQ in exact arithmetic |
| Feedback.UnblockedUnique | reproducibility/r10/lineage/encode_tr3_v31.py:895-940 | that equation has exactly one solution, so it determines values and indices |
| Feedback.SpanIndependent | reproducibility/r10/lineage/encode_tr3_v31.py:895-940 | the output is the same for every two span heights the assertions allow |
| Feedback.RunKeepsInv | reproducibility/r10/lineage/encode_tr3_v31.py:903-940 | from any reachable position the running cache of a row still to come is the feedback of all rows already fed forward; writes to processed rows are never read |
| Feedback.CompIsFeed | reproducibility/r10/lineage/encode_tr3_v31.py:918-924 | span-local product plus cache equals the feedback of every row below the block |
| Loss.ResidualIsProjection | reproducibility/r10/lineage/encode_tr3_v31.py:1174-1176 | the local rounding residual is (I + L)^T (W - Wq) |
| Loss.BlockTrace | reproducibility/r10/lineage/encode_tr3_v31.py:1187-1198 | summing the trace in column blocks gives the same number for every block size |
| Loss.TraceIsForms | reproducibility/r10/lineage/encode_tr3_v31.py:1187-1198 | that number is the sum over columns of the quadratic forms of H |
| Loss.LdlqLoss | reproducibility/r10/lineage/encode_tr3_v31.py:873-945 | for H = (I + L) D (I + L)^T, every run leaves trace(E^T H E) equal to the sum over blocks and columns of the D-forms of the blocks' own roundings; no term couples two blocks |
| Loss.ResidualIsRounding | reproducibility/r10/lineage/encode_tr3_v31.py:917-932 | in a result, the residual of a block is exactly what the quantizer rounded off its fed rows |
| BlockLdl.Factor | reproducibility/r10/lineage/encode_tr3_v31.py:823-848 | the retry loop stops after at most ten dampings, at the first factorization that succeeds, with the matrix damped that often; it fails only after ten |
| BlockLdl.DampedIs | reproducibility/r10/lineage/encode_tr3_v31.py:840-840 | t retries multiply the mean of the diagonal by (1 + 2 sigma)^t and add the same amount to every diagonal entry and nothing elsewhere |
| BlockLdl.DampedTrace | reproducibility/r10/lineage/encode_tr3_v31.py:840-840 | in terms of entries: t retries multiply the sum of the diagonal by (1 + 2 sigma)^t and add the same to each of its entries |
| BlockLdl.NormalizeBlocks | reproducibility/r10/lineage/encode_tr3_v31.py:860-865 | the in-place column normalization multiplies every column block by the inverse of its original diagonal block |
| BlockLdl.NormalizedShape | reproducibility/r10/lineage/encode_tr3_v31.py:860-865 | a normalized diagonal block is the identity and everything above it is zero |
| BlockLdl.SetIdentity | reproducibility/r10/lineage/encode_tr3_v31.py:867-869 | the diagonal blocks become the identity and nothing else is written |
| BlockLdl.IdentityAlready | reproducibility/r10/lineage/encode_tr3_v31.py:867-869 | overwriting diagonal blocks that normalization has already made the identity changes nothing |
| BlockLdl.LdlReconstructs | reproducibility/r10/lineage/encode_tr3_v31.py:860-870 | L diag(C_b C_b^T) L^T is C C^T, entry by entry |
| BlockLdl.BlockLdl | reproducibility/r10/lineage/encode_tr3_v31.py:814-870 | for every block height that divides the size, succeeds exactly if one of the eleven damped matrices has a Cholesky factor; then the returned H is the input with that damping and L is unit block lower with L D L^T = H |
| Calibrated.ZeroDiagonalIsStrict | reproducibility/r10/lineage/encode_tr3_v31.py:1174-1176 | zeroing the diagonal of the factor leaves exactly the strict part that LDLQ feeds back, and I plus it is the factor |
| Calibrated.CalibratedLoss | reproducibility/r10/lineage/encode_tr3_v31.py:1347-1351 | with the factor of the damped Hessian the proxy numerator trace(E^T H E) is a sum of squares of block-weighted roundings, hence never negative |
| ZeroFeedback.ZeroLdlqIsAlone | reproducibility/r10/lineage/encode_tr3_v31.py:1317-1324 | LDLQ with L = 0 quantizes every 16-row block by itself, for any per-tile quantizer and any neutral arithmetic |
| ZeroFeedback.ExactIsNeutral | reproducibility/r10/lineage/encode_tr3_v31.py:1317-1321 | exact arithmetic is neutral, so the equivalence holds there |
| ZeroFeedback.SameTile | reproducibility/r10/lineage/encode_tr3_v31.py:1227-1228 | the whole-matrix view and the per-block view visit the same tiles |
| ZeroFeedback.WholeIsAlone | reproducibility/r10/lineage/encode_tr3_v31.py:1217-1233 | one batch over the whole matrix quantizes every block by itself |
| ZeroFeedback.TrellisQuantAllTiles | reproducibility/r10/lineage/encode_tr3_v31.py:1217-1233 | the one-batch routine returns the block-by-block result |
| ZeroFeedback.ReferenceFallbackQuant | reproducibility/r10/lineage/encode_tr3_v31.py:1236-1262 | succeeds exactly if the span height divides the height, and then returns the block-by-block result |
| ZeroFeedback.AloneUnique | reproducibility/r10/lineage/encode_tr3_v31.py:1321-1327 | there is only one block-by-block result, so the three routines agree in values and indices |
| ZeroFeedback.TileAlone | reproducibility/r10/lineage/encode_tr3_v31.py:1252-1261 | tile by tile a block-by-block result holds the quantizer's value and index of that tile of the weight |
| ZeroFeedback.ZeroLdlqIsBatch | reproducibility/r10/lineage/encode_tr3_v31.py:1316-1330 | where adding a product with zeros changes nothing, LDLQ with L = 0, the batch and the reference loop give equal values and indices |
| ZeroFeedback.SelfCheck | reproducibility/r10/lineage/encode_tr3_v31.py:1320-1330 | passes exactly if LDLQ with L = 0 quantizes every block by itself, which it does on every weight where adding a product with zeros changes nothing |
| Lockstep.LDLQWalk.constructor | reproducibility/r10/lineage/encode_tr3_v31.py:979-1005 | a new walk is at the start of the sequential run on its own weight and L |
| Lockstep.LDLQWalk.Prepare | reproducibility/r10/lineage/encode_tr3_v31.py:1007-1029 | prepare returns the tiles of the current block and keeps the invariant that finishing from here gives the sequential result |
| Lockstep.LDLQWalk.Commit | reproducibility/r10/lineage/encode_tr3_v31.py:1031-1053 | commit consumes exactly 16 rows of work, keeps that invariant, and publishes the buffers when the walk is done |
| Lockstep.BatchRows | reproducibility/r10/lineage/encode_tr3_v31.py:1081-1088 | quantizing a concatenation and slicing at the running offset is quantizing the part: batch composition does not matter |
| Lockstep.CatSlice | reproducibility/r10/lineage/encode_tr3_v31.py:1081-1088 | the running offset cuts out exactly what was put there |
| Lockstep.TotalDrops | reproducibility/r10/lineage/encode_tr3_v31.py:1077-1091 | the rows left over a pool go strictly down as soon as one walk advances |
| Lockstep.CommitAll | reproducibility/r10/lineage/encode_tr3_v31.py:1083-1091 | every active walk takes its own rows and the walks left are exactly the unfinished ones, in order |
| Lockstep.LockstepLdlq | reproducibility/r10/lineage/encode_tr3_v31.py:1056-1094 | for any pool of walks of mixed sizes and any limit of at least one it terminates, and every walk holds exactly the values and indices of its own sequential LDLQ; walks may share weights and L |
| GoldenSection.NextKeepsInv | reproducibility/r10/lineage/encode_tr3_v31.py:541-549 | a strictly better lower point moves the upper end in, anything else the lower end; the interior points stay golden, keep their true values, and the width shrinks by phi - 1 |
| GoldenSection.Reuse | reproducibility/r10/lineage/encode_tr3_v31.py:543-547 | reusing an interior point as an interior point of the smaller bracket is exact |
| GoldenSection.NextDrops | reproducibility/r10/lineage/encode_tr3_v31.py:541-549 | the loop terminates for every bracket and every positive tolerance |
| GoldenSection.GoldenSearch | reproducibility/r10/lineage/encode_tr3_v31.py:533-550 | the loop returns the midpoint and mean value of the specified final bracket |
| GoldenSection.BestIsMinimum | reproducibility/r10/lineage/encode_tr3_v31.py:533-550 | for any objective min(f1, f2) at the end is the minimum over everything evaluated, and is attained |
| GoldenSection.ScaleIsNearMinimiser | reproducibility/r10/lineage/encode_tr3_v31.py:533-550 | for a strictly unimodal objective the returned scale is within tol / 2 of the minimiser |
| GoldenSection.ScaleInBracket | reproducibility/r10/lineage/encode_tr3_v31.py:535-550 | the returned scale lies in the starting bracket, so the encoder's scales are positive |
| GoldenSection.ThirteenEvaluations | reproducibility/r10/lineage/encode_tr3_v31.py:533-550 | the encoder's bracket and tolerance take exactly thirteen evaluations |
| GssPool.SampleTiles | reproducibility/r10/lineage/encode_tr3_v31.py:517-526 | the sampling loops give the specified sample in its order |
| GssPool.SampleIs | reproducibility/r10/lineage/encode_tr3_v31.py:517-526 | entry 3i + w of the sample is tile (i + w) mod the tile columns of tile row i mod the tile rows, in tensor-core order |
| GssPool.ErrorIs | reproducibility/r10/lineage/encode_tr3_v31.py:529-531 | the objective is the error of the quantizer's values of all sampled tiles times the scale |
| GssPool.SampleCovers | reproducibility/r10/lineage/encode_tr3_v31.py:521-525 | every row of tiles and every column of tiles is sampled |
| GssPool.GssSearch.constructor | reproducibility/r10/lineage/encode_tr3_v31.py:650-652 | a primed coroutine waits for its first point |
| GssPool.GssSearch.Send | reproducibility/r10/lineage/encode_tr3_v31.py:601-612 | each value sent either asks for exactly one more candidate or closes the bracket and sets the scale; finishing from here gives the plain loop's bracket and the same candidates in the same order |
| GssPool.Errors | reproducibility/r10/lineage/encode_tr3_v31.py:657-667 | each search's error is computed on its own rows of the pooled batch |
| GssPool.GssWave | reproducibility/r10/lineage/encode_tr3_v31.py:654-676 | one wave sends every open search its value; exactly the searches still open go on |
| GssPool.GScaleGss | reproducibility/r10/lineage/encode_tr3_v31.py:513-550 | the sequential search of a slice returns its specified scale and the mean of the last two errors |
| GssPool.ScaleIsNearBest | reproducibility/r10/lineage/encode_tr3_v31.py:533-550 | the scale is from 0.1 to 1.9, and within 0.005 of the best one where the error has a single valley |
| GssPool.GScaleGssLockstep | reproducibility/r10/lineage/encode_tr3_v31.py:618-687 | the pooled search terminates; every slice gets exactly the scale of its own sequential search, after being asked for the same candidates in the same order, also when brackets close at different waves |
| Pipeline.FinalizeCaptureH | reproducibility/r10/lineage/encode_tr3_v31.py:1116-1184 | first use finalizes the record (mean, damping, sign draw, rotation, factor without diagonal), with no factor exactly if no rows were captured or the mean of the diagonal is tiny; every later use leaves record and generator alone |
| Pipeline.FinalizedIs | reproducibility/r10/lineage/encode_tr3_v31.py:1139-1184 | a finalization operation by operation: which matrix is damped, what the diagonal and the signs are taken from, when there is no factor, and what the factor is of |
| Pipeline.ProloguePre | reproducibility/r10/lineage/encode_tr3_v31.py:1528-1572 | whether or not the record was finalized before, the first prologue leaves the slice regularized as planned, on fresh arrays apart from the shared factor |
| RealPrologue.RegularizeClone | reproducibility/r10/lineage/encode_tr3_v31.py:1559-1566 | drawing, cloning and the in-place regularization over arrays give the regularized values the phases are proved with, and only read the shared row signs |
| RealPrologue.ProloguePre | reproducibility/r10/lineage/encode_tr3_v31.py:1528-1572 | over exact reals without a zero divisor the prologue that runs the in-place regularization meets the contract of the prologue over values |
| Pipeline.ProloguePost | reproducibility/r10/lineage/encode_tr3_v31.py:1575-1619 | the second prologue applies the scale in place and, in the fallback only, quantizes |
| Pipeline.RegularizePost | reproducibility/r10/lineage/encode_tr3_v31.py:801-805 | the scale goes into every entry of the weight and out of every sign, in place |
| Pipeline.RunWalks | reproducibility/r10/lineage/encode_tr3_v31.py:1949-1951 | after the lockstep walks every slice of the group holds its planned values and indices |
| Pipeline.EncodeGroup | reproducibility/r10/lineage/encode_tr3_v31.py:1915-1958 | all pre-prologues, the pooled search, all posts, the walks and the epilogues of a group give each slice its planned output |
| Pipeline.EncodePhased | reproducibility/r10/lineage/encode_tr3_v31.py:1905-1971 | for any group size and any number of walks in flight every output is the one determined by the records, weights and seeds at the start; a slice whose record has no captured rows or a tiny diagonal is quantized block by block, every other slice by LDLQ on its scaled weight with the factor left in its record |
| Pipeline.EncodeSlice | reproducibility/r10/lineage/encode_tr3_v31.py:1270-1384 | the one-function encoder gives the planned output |
| Pipeline.Prologue | reproducibility/r10/lineage/encode_tr3_v31.py:1398-1470 | the prologue alone leaves a slice coded in the fallback and waiting for its walk otherwise, as planned |
| Pipeline.WalkOne | reproducibility/r10/lineage/encode_tr3_v31.py:2489-2495 | a single walk through the lockstep pool leaves the planned values and indices |
| Pipeline.EncodeSplit | reproducibility/r10/lineage/encode_tr3_v31.py:1398-1470 | prologue, walk and epilogue give the planned output |
| Pipeline.EncodeAll | reproducibility/r10/lineage/encode_tr3_v31.py:1270-1384 | encoding one slice after the other gives the same outputs, the same records and the same choice between feedback and fallback |
| Pipeline.OutputIs | reproducibility/r10/lineage/encode_tr3_v31.py:1299-1311 | an output operation by operation: which seed the signs come from, what is regularized, and the searched scale in every entry of the weight and out of every sign |
| CalibratedRun.RecordIsFactored | reproducibility/r10/lineage/encode_tr3_v31.py:1170-1184 | over exact reals a calibrated record holds the damped Hessian and its block LDL factor with zeros on the diagonal |
| CalibratedRun.CalibratedOutput | reproducibility/r10/lineage/encode_tr3_v31.py:1299-1351 | over exact reals what either encoder returns for a slice with a calibrated record is unblocked error feedback on its scaled weight with the factor of the record's Hessian, and its proxy loss is a sum of squares |
| Pipeline.PlannedScale | reproducibility/r10/lineage/encode_tr3_v31.py:1937-1939 | the scale that the sequential search would return on a regularized slice is the planned one |
| Pipeline.BatchIsAlone | reproducibility/r10/lineage/encode_tr3_v31.py:1333-1344 | the fallback result of a slice is the one-batch result |
| Hadamard.GuardIsPowerOfTwo | reproducibility/r10/lineage/encode_tr3_v31.py:416-416 | n & (n - 1) == 0 accepts exactly the powers of two |
| Hadamard.HadamardF16 | reproducibility/r10/lineage/encode_tr3_v31.py:412-426 | the doubling loop builds, for every power of two, the matrix with entry minus one to the number of bits i and j share |
| Hadamard.WalshQuadrants | reproducibility/r10/lineage/encode_tr3_v31.py:419-425 | the lower right quadrant is the negative of the other three, which are equal |
| Hadamard.WalshSymmetric | reproducibility/r10/lineage/encode_tr3_v31.py:412-426 | the matrix is symmetric |
| Hadamard.WalshOrthogonal | reproducibility/r10/lineage/encode_tr3_v31.py:412-426 | H H = n I for every power of two |
| Hadamard.LeftTwice | reproducibility/r10/lineage/encode_tr3_v31.py:436-463 | the scaled left transform, block by block, undoes itself |
| Hadamard.LeftIs | reproducibility/r10/lineage/encode_tr3_v31.py:456-463 | a row of a block after the left transform is the signed sum of the block's rows, scaled |
| Hadamard.RightTwice | reproducibility/r10/lineage/encode_tr3_v31.py:446-473 | the scaled right transform, block by block, undoes itself |
| Hadamard.RightIs | reproducibility/r10/lineage/encode_tr3_v31.py:466-473 | a column of a block after the right transform is the signed sum of the block's columns, scaled |
| Hadamard.BlockwisePreapplyHadL | reproducibility/r10/lineage/encode_tr3_v31.py:456-463 | the in-place loop over row blocks is the left transform of the whole matrix |
| Hadamard.BlockwisePreapplyHadR | reproducibility/r10/lineage/encode_tr3_v31.py:466-473 | the in-place loop over column blocks is the right transform of the whole matrix |
| Regularize.BlockRms | reproducibility/r10/lineage/encode_tr3_v31.py:476-483 | summing squares in blocks gives the root mean square |
| Regularize.RegularizePre | reproducibility/r10/lineage/encode_tr3_v31.py:746-798 | for every setting of the output scales the routine decides as specified, reads the shared row signs without changing them, returns the row scales in a new array, clears or replaces the column signs, and leaves the specified weight in place unless a divisor is zero |
| Regularize.DivideBy | reproducibility/r10/lineage/encode_tr3_v31.py:784-786 | column divisors are a new array where output channels are scaled, and the column signs themselves elsewhere |
| Regularize.ColumnScale | reproducibility/r10/lineage/encode_tr3_v31.py:771-788 | up to the nudge a scaled column is divided by its root mean square relative to the mean one, with its sign, and by a tenth where that vanishes; a vanished column decodes to zero |
| Regularize.RowScale | reproducibility/r10/lineage/encode_tr3_v31.py:791-794 | up to the nudge a row is divided so that it gets the root mean square of the codebook, with its sign, and by a tenth of that where it vanishes |
| Regularize.DecidedBySkew | reproducibility/r10/lineage/encode_tr3_v31.py:758-764 | without a setting a calibrated weight is scaled exactly if the largest fiftieth of the diagonal's roots is less than 15% of their sum, whichever falling order the sort returns |
| Regularize.Decisions | reproducibility/r10/lineage/encode_tr3_v31.py:758-782 | the decision on the output channels in every case of setting, diagonal, fallback and all-zero weight |
| Descending.FallingUnique | reproducibility/r10/lineage/encode_tr3_v31.py:702-702 | there is one falling order of given values, so the library's sort is determined |
| Regularize.Decode | reproducibility/r10/lineage/encode_tr3_v31.py:1369-1372 | the epilogue's decoder is the specified composition of transforms and scalings |
| Regularize.RoundTrip | reproducibility/r10/lineage/encode_tr3_v31.py:715-742 | decoding what was regularized, with the global scale moved between weight and signs, gives back every column, except that a column whose scale vanished comes back as zero |
| Regularize.RecoversIff | reproducibility/r10/lineage/encode_tr3_v31.py:715-742 | the whole weight comes back if and only if every column whose scale vanished is exactly zero |
| Regularize.VanishesIff | reproducibility/r10/lineage/encode_tr3_v31.py:715-724 | a column's scale vanishes exactly if its sum of squares is below the threshold set by the mean scale |
| Regularize.RecoversExactly | reproducibility/r10/lineage/encode_tr3_v31.py:715-742 | the round trip holds if and only if every column is exactly zero or has at least the threshold's sum of squares |
| Regularize.FaintColumnIsLost | reproducibility/r10/lineage/encode_tr3_v31.py:715-742 | a concrete legal weight (ones, first column 1e-40) that decoding does not give back |
| Sorting.AscendingUnique | scripts/run_qwen_fast_kld.py:74-79 | there is one strictly ascending list of given elements, so a library sort by a strict key is determined |
| Sorting.SortIgnoresOrder | scripts/run_qwen_fast_kld.py:74-79 | sorting does not depend on the order of its input |
| Density.Collect | scripts/run_qwen_fast_kld.py:58-61 | the grouping loop builds the candidate table and lists every unit once |
| Density.LastRowWins | scripts/run_qwen_fast_kld.py:61-61 | of several rows for a unit and a width the last one counts |
| Density.TableIgnoresOrder | scripts/run_qwen_fast_kld.py:58-61 | without such duplicates the table does not depend on the order of the rows |
| Density.RankingIgnoresOrder | scripts/run_qwen_fast_kld.py:65-75 | neither does the ranking |
| Density.Allocate | scripts/run_qwen_fast_kld.py:57-94 | succeeds exactly if there are as many units as expected, each with both candidates and a fourth bit that costs bytes; then the result is the allocation of the top half by benefit per byte |
| Density.ChoicesAre | scripts/run_qwen_fast_kld.py:76-94 | the list names every unit once in rising order, half of them with four bits, and the bytes and the damage beside it are the totals of the candidates it takes |
| Density.NoBetterList | scripts/run_qwen_fast_kld.py:71-94 | no list that names every unit once and stores as many bytes does less damage |
| Density.FourBeforeThree | scripts/run_qwen_fast_kld.py:71-75 | a four-bit unit saves more damage for a byte than a three-bit one, or as much and more in all, or the same and comes first by layer, expert and projection |
| Density.TextLessIff | scripts/run_qwen_fast_kld.py:74-74 | projections are compared at the first character where they differ, a prefix first |
| Density.PlainDamage | scripts/run_qwen_fast_kld.py:79-83 | without scales the damage is the sum of the damages taken |
| Density.Lagrange | scripts/run_qwen_fast_kld.py:71-75 | the exchange inequality: a set split from the rest by a price is worth more than any other by at least the price of the difference in cost |
| Density.SelectedAt | scripts/run_qwen_fast_kld.py:74-75 | unit j of the ranking is selected exactly if j < k |
| Density.SelectedCount | scripts/run_qwen_fast_kld.py:73-75 | exactly k units are selected |
| Density.LeastDamageAtSameBytes | scripts/run_qwen_fast_kld.py:65-94 | with unequal increments, the selection does the least damage among all choices of any size that store exactly as many bytes |
| Density.LeastDamageWithinBytesIff | scripts/run_qwen_fast_kld.py:65-94 | it does the least damage among all choices that store no more bytes if and only if it is empty or the threshold density is not negative |
| Density.HarmfulUpgrades | scripts/run_qwen_fast_kld.py:65-94 | a concrete table of two units made worse by a fourth bit: upgrading none stores less and does less damage than the selection |
| Density.AllocationIsOptimal | scripts/run_qwen_fast_kld.py:57-94 | what the allocator returns does the least damage at its bytes |
| CalibratedDensity.DirectScores | scripts/allocate_qwen_mcg_causal_exact_3p5.py:81-94 | succeeds exactly if every listed layer has a score for each expert and exactly the wanted experts are scored; then every expert has the score of the last row for its layer |
| CalibratedDensity.DirectUnique | scripts/allocate_qwen_mcg_causal_exact_3p5.py:81-94 | there is at most one table of last scores |
| CalibratedDensity.AddScores | scripts/allocate_qwen_mcg_causal_exact_3p5.py:90-91 | the inner loop writes one layer's scores and keeps all others |
| CalibratedDensity.LastLayerRow | scripts/allocate_qwen_mcg_causal_exact_3p5.py:81-94 | of several rows for a layer the scores of the last one count |
| CalibratedDensity.Scales | scripts/allocate_qwen_mcg_causal_exact_3p5.py:113-131 | succeeds exactly if every scored expert has all three projections and a positive anchor; then the scales are score over anchor |
| CalibratedDensity.AnchoredIff | scripts/allocate_qwen_mcg_causal_exact_3p5.py:119-124 | an expert can be scaled exactly if its three units are there and their four-bit damages add up to more than nothing |
| CalibratedDensity.ScaledDamagesAreScore | scripts/allocate_qwen_mcg_causal_exact_3p5.py:117-126 | the scaled four-bit damages of an expert's three units add up to its score |
| CalibratedDensity.OneIncrement | scripts/allocate_qwen_mcg_causal_exact_3p5.py:140-146 | the set of increments has one element exactly if all increments are equal |
| CalibratedDensity.Allocate | scripts/allocate_qwen_mcg_causal_exact_3p5.py:97-182 | succeeds exactly if every expert is scored, inventory, anchors and increments are in order, the control lists every unit and the selection stores the control's payload; the choices are those of the scores of the last rows |
| CalibratedDensity.AllocatableIff | scripts/allocate_qwen_mcg_causal_exact_3p5.py:108-182 | what the allocator asks of its inputs, item by item |
| Density.LeastDamageAtSameCount | scripts/allocate_qwen_mcg_causal_exact_3p5.py:141-162 | with equal increments all choices of as many units store the same bytes, and the selection does the least scaled damage among them, negative benefits included |
| CalibratedDensity.CalibratedIsOptimal | scripts/allocate_qwen_mcg_causal_exact_3p5.py:147-182 | the calibrated allocation is least over all exact-half choices, and any control that upgrades half of the same units passes the payload check |
| Surplus.Chosen | scripts/allocate_turboderp_v001_expert_exact_3p5.py:41-44 | the row chosen spends the most that stays strictly below the budget, or the least option when none does |
| Surplus.OwnBudget | scripts/allocate_turboderp_v001_expert_exact_3p5.py:38-38 | a layer's own budget is the target rate over its projections, cut off towards zero, and one bit |
| Surplus.RowsAre | scripts/allocate_turboderp_v001_expert_exact_3p5.py:39-41 | the four rows of a base below eight bits and the one row from eight bits on |
| Surplus.SurplusInRangeIff | scripts/allocate_turboderp_v001_expert_exact_3p5.py:33-44 | what one layer carries on is between nothing and one projection if and only if its budget is from 3 to 25 times the projection |
| Surplus.RunSurplusInRangeIff | scripts/allocate_turboderp_v001_expert_exact_3p5.py:47-79 | over a run of any number of layers the carry stays between nothing and one projection if and only if there are no layers, or a layer's own budget is at least three projections and its excess over 24 projections, times the layers, is at most one |
| Surplus.AllSurplusInRangeIff | scripts/allocate_turboderp_v001_expert_exact_3p5.py:47-79 | it does so in runs of every length if and only if the own budget is from 3 to 24 times the projection |
| Surplus.HalfABit | scripts/allocate_turboderp_v001_expert_exact_3p5.py:33-44 | at half a bit a weight a projection of two weights carries minus two bits |
| Surplus.Conservation | scripts/allocate_turboderp_v001_expert_exact_3p5.py:47-79 | over any number of layers, used bits plus terminal surplus are layers times (int(bpw total) + 1) |
| Surplus.Build | scripts/allocate_turboderp_v001_expert_exact_3p5.py:47-107 | the document lists the projections in the order layer, expert, projection, each with its layer's bits, and the closing check fires exactly if the counts are not both half |
| Surplus.ListedInOrder | scripts/allocate_turboderp_v001_expert_exact_3p5.py:52-66 | place x of the document is projection x mod 3 of expert x / 3 mod the experts of layer x / 3 / the experts |
| Surplus.CountIs | scripts/allocate_turboderp_v001_expert_exact_3p5.py:80-81 | the counts are how often the bits occur in the list |
| Surplus.Steady | scripts/allocate_turboderp_v001_expert_exact_3p5.py:33-44 | at 3.5 bits and three weights or more a layer is K3/K3/K4 or K3/K4/K4 and carries between one bit and a projection |
| Surplus.RunCounts | scripts/allocate_turboderp_v001_expert_exact_3p5.py:50-79 | what n layers spend is nine projections a layer plus one for every four-bit projection |
| Surplus.ClosingCheckIff | scripts/allocate_turboderp_v001_expert_exact_3p5.py:104-105 | at 3.5 bits and an even number of layers the check passes if and only if a projection has at least three weights and the layers are at most M for even M, 2M for odd M |
| Surplus.TwoLayersOfTwoWeights | scripts/allocate_turboderp_v001_expert_exact_3p5.py:104-105 | two layers of projections of two weights: layers - 1 is at most M / 2, and the check fires |
| Surplus.AlternatesIff | scripts/allocate_turboderp_v001_expert_exact_3p5.py:33-44 | for even M from four on, an even number of layers alternates K3/K3/K4 and K3/K4/K4 if and only if layers - 1 is at most M / 2; the check then passes |
| FactoryUnion.Install | scripts/measure_qwen_candidate_factory_union.py:218-230 | copying into a layer's two tensors changes that layer and no other |
| FactoryUnion.Snapshot | scripts/measure_qwen_candidate_factory_union.py:210-215 | a snapshot is the layer's content at that moment |
| FactoryUnion.SingleSwaps | scripts/measure_qwen_mcg_factory_union.py:272-305 | every row is the swap's score against the baseline, and the model is the baseline again |
| FactoryUnion.Try | scripts/measure_qwen_mcg_factory_union.py:314-345 | one trial keeps the loop state: the model is the baseline with exactly the selected layers replaced, the current mean is its score, accepted means fall, snapshots are the baseline's |
| FactoryUnion.Greedy | scripts/measure_qwen_mcg_factory_union.py:307-345 | the loop accepts exactly the specified layers and keeps that state throughout |
| FactoryUnion.ChosenIff | scripts/measure_qwen_mcg_factory_union.py:312-342 | a layer is selected exactly if its swap improves on its own and lowers the mean beside the layers selected before it, and the selected layers are in ranked order |
| FactoryUnion.RankedByScore | scripts/measure_qwen_mcg_factory_union.py:312-312 | the ranking has every layer once, by the mean of its swap and then by its index |
| FactoryUnion.ScoreIsMean | scripts/measure_qwen_mcg_factory_union.py:286-292 | a score is the mean divergence of the baseline with the challenger's weights in the given layers |
| FactoryUnion.AtMostEverySwap | scripts/measure_qwen_mcg_factory_union.py:307-345 | the final mean is at most the baseline's and at most that of every single swap, because the best swap is tried first |
| FactoryUnion.MeanMinus | scripts/measure_qwen_mcg_factory_union.py:286-294 | the mean of the differences is the difference of the means, so improving by delta and by mean are the same |
| FactoryUnion.RestoreAll | scripts/measure_qwen_mcg_factory_union.py:365-366 | the last loop gives back exactly the baseline |
| FactoryUnion.Run | scripts/measure_qwen_mcg_factory_union.py:244-374 | the swaps are ranked by mean and then by layer; a layer is selected exactly if its swap improves on its own and lowers the mean beside the layers selected before it; the recapture check never fires, the validation of the union sees exactly the selected layers replaced, and the model left behind is the baseline |
| TokenKld.LogAddExpIs | scripts/measure_qwen_mcg_causal_allocation.py:71-72 | folding logaddexp over a row is the logarithm of the sum of exponentials |
| TokenKld.TokenKld | scripts/measure_qwen_mcg_causal_allocation.py:59-74 | for every chunk size, both in-place forms and also when teacher and student are one array, the values are the divergences of the original rows; float64 logits are overwritten with log-probabilities, all others are left alone |
| TokenKld.Normalize | scripts/run_qwen_fast_kld.py:122-125 | the two in-place subtractions leave log-probabilities, with folded logaddexp or with the logarithm of the sum |
| TokenKld.SameAgain | scripts/measure_qwen_mcg_causal_allocation.py:65-72 | calling again on overwritten logits gives the same values |
| TokenKld.ProbabilityForm | scripts/verify_qwen_mcg_causal_kld.py:51-61 | the probability and partition form gives the same value |
| TokenKld.IndependentTokenKld | scripts/verify_qwen_mcg_causal_kld.py:43-62 | the verifier gives the same divergences for every chunk size, without touching its inputs |
| TokenKld.ShiftInvariant | scripts/measure_qwen_mcg_causal_allocation.py:69-72 | adding a constant to a row changes no value |
| TokenKld.Gibbs | scripts/measure_qwen_mcg_causal_allocation.py:73-73 | every value is at least zero, and zero exactly for equal log-probabilities |
| TokenKld.DivergenceIs | scripts/measure_qwen_mcg_causal_allocation.py:71-73 | the teacher's probabilities weigh by how much the logarithms of its probabilities exceed the student's |
| TokenKld.ZeroIff | scripts/measure_qwen_mcg_causal_allocation.py:59-74 | a value is zero if and only if the two rows of logits differ by a constant |
| LayerCommit.NeverWrong | reproducibility/r10/lineage/encode_tr3_v31.py:1870-1879 | in every run from any files, with crashes anywhere, a layer reported done has exactly the bytes of its encoding, or else its files are untouched since the start |
| LayerCommit.NeverWrongIff | reproducibility/r10/lineage/encode_tr3_v31.py:1870-1879 | from a start, no run ever reports a layer done with other bytes than its encoding if and only if no layer is so at the start |
| LayerCommit.WrongStays | reproducibility/r10/lineage/encode_tr3_v31.py:2096-2101 | a layer that is done with other bytes at the start is never repaired by any run |
| LayerCommit.ForeignEncoding | reproducibility/r10/lineage/encode_tr3_v31.py:1870-1879 | a concrete setting over bytes and a start with the shard and record of another encoding, which is accepted as done |
| LayerCommit.StaysDone | reproducibility/r10/lineage/encode_tr3_v31.py:2007-2045 | a layer once done is done for the rest of the run, with the same shard |
| LayerCommit.NeverRewritten | reproducibility/r10/lineage/encode_tr3_v31.py:2096-2101 | in a run that starts with every record of an own encoding beside its shard, no file of a done layer is ever written again |
| LayerCommit.NeverRewrittenIff | reproducibility/r10/lineage/encode_tr3_v31.py:2096-2101 | from a start, no run ever touches a done layer if and only if every record of an own encoding stands beside its shard |
| LayerCommit.Rewritten | reproducibility/r10/lineage/encode_tr3_v31.py:2007-2045 | otherwise there is a run that makes such a layer done by renaming the new shard and then writes its record again |
| LayerCommit.OrphanRecord | reproducibility/r10/lineage/encode_tr3_v31.py:1870-1879 | a concrete setting over bytes and a start with a record of the own encoding whose shard is missing |
| LayerCommit.OwnedOnce | reproducibility/r10/lineage/encode_tr3_v31.py:2093-2093 | index i belongs to the rank i mod workers and to no other |
| LayerCommit.Apart | reproducibility/r10/lineage/encode_tr3_v31.py:2093-2093 | two workers are never on the same layer |
| LayerCommit.NextKeeps | reproducibility/r10/lineage/encode_tr3_v31.py:293-304 | every write, rename, crash and restart keeps the invariant |
| LayerCommit.PassCompletes | reproducibility/r10/lineage/encode_tr3_v31.py:2093-2101 | when the workers of a run without a crash have come to their ends every layer is done, whatever happened before |
| LayerCommit.StepGoesDown | reproducibility/r10/lineage/encode_tr3_v31.py:2093-2101 | each step leaves strictly fewer moves for all workers together |
| LayerCommit.LeftNonneg | reproducibility/r10/lineage/encode_tr3_v31.py:2096-2101 | the number of moves left is never negative |
| LayerCommit.PassEnds | reproducibility/r10/lineage/encode_tr3_v31.py:2096-2101 | a run of steps without a crash takes at most as many steps as there are moves left at its start, and where no worker is dead and nothing can step every layer is done |
| LayerCommit.PassExists | reproducibility/r10/lineage/encode_tr3_v31.py:2096-2101 | from every reachable state there is such a run that comes to its end |
| LayerCommit.CanStep | reproducibility/r10/lineage/encode_tr3_v31.py:2093-2101 | a worker that has not come to its end can always go on |
| SafeTensors.PackUnpack | reproducibility/r10/lineage/encode_tr3_v31.py:294-294 | the eight-byte length field round-trips |
| SafeTensors.UnpackPack | reproducibility/r10/lineage/encode_tr3_v31.py:294-294 | every row of bytes is the packing of its number |
| SafeTensors.LittleEndian | reproducibility/r10/lineage/encode_tr3_v31.py:294-294 | the first byte is the lowest |
| SafeTensors.KeyCount | reproducibility/r10/lineage/encode_tr3_v31.py:273-285 | the duplicate check passes exactly if all names are different, also from the metadata key where there is metadata |
| SafeTensors.EveryDimension | reproducibility/r10/lineage/encode_tr3_v31.py:279-281 | one dimension more, in whatever place, multiplies the bytes of a tensor, and none leaves those of one element |
| SafeTensors.OrderIs | reproducibility/r10/lineage/encode_tr3_v31.py:273-285 | the keys are the metadata key, where there is metadata, and the names in their order |
| SafeTensors.PaddedIs | reproducibility/r10/lineage/encode_tr3_v31.py:287-288 | fewer than eight spaces are added to the header, at its end |
| SafeTensors.WriteSafetensors | reproducibility/r10/lineage/encode_tr3_v31.py:269-305 | succeeds exactly for a writable list; then the whole file stands under its name, the temporary file is gone, and the hashes returned are those of the payloads and of all bytes of the file; otherwise no file but the temporary one changed |
| SafeTensors.StreamPayloads | reproducibility/r10/lineage/encode_tr3_v31.py:297-303 | a payload of the wrong length stops the stream, and only then; what is hashed in pieces is what is written |
| SafeTensors.Tiles | reproducibility/r10/lineage/encode_tr3_v31.py:276-284 | the offsets tile the data area |
| SafeTensors.PayloadAt | reproducibility/r10/lineage/encode_tr3_v31.py:297-303 | the bytes between a tensor's offsets are its payload |
| SafeTensors.FileParses | reproducibility/r10/lineage/encode_tr3_v31.py:201-211 | the written file parses to the header that was written, padding included |
| SafeTensors.OpenReader | reproducibility/r10/lineage/encode_tr3_v31.py:199-211 | the reader finds the places of all tensors but the metadata key, or nothing if the header is no header |
| SafeTensors.StreamBytes | reproducibility/r10/lineage/encode_tr3_v31.py:223-235 | reading in chunks of any size gives the range, or reports a short file exactly when it is short |
| SafeTensors.RoundTrip | reproducibility/r10/lineage/encode_tr3_v31.py:217-221 | a written tensor is found if and only if its name is not the metadata key, and then with its type, shape and exact payload |
| SafeTensors.NoOtherName | reproducibility/r10/lineage/encode_tr3_v31.py:205-211 | the reader finds no other name |
| SafeTensors.StFileComplete | reproducibility/r10/lineage/encode_tr3_v31.py:238-255 | the size test against the largest end is the test that every tensor ends in the file |
| SafeTensors.CompleteIff | reproducibility/r10/lineage/encode_tr3_v31.py:238-255 | a complete file has sixteen bytes, a header of at most 100 MiB that can be read, and all bytes of its tensors |
| SafeTensors.PrefixCompleteIff | reproducibility/r10/lineage/encode_tr3_v31.py:238-255 | a prefix of a written file passes exactly if the header is within its limit, the prefix holds it, and it holds every tensor not named like the metadata key |
| SafeTensors.AcceptedIff | reproducibility/r10/lineage/encode_tr3_v31.py:238-255 | a written file is accepted if and only if its padded header is at most 100 MiB |
| SafeTensors.TruncatedIsRejected | reproducibility/r10/lineage/encode_tr3_v31.py:238-255 | without a tensor of that name every proper prefix is rejected |
| SafeTensors.StrayTensorIsLost | reproducibility/r10/lineage/encode_tr3_v31.py:206-208 | one byte under the metadata key is written, not found by the reader, and missed by the completeness test |
| Routing.ArgsortIsGrouped | reproducibility/r10/lineage/encode_tr3_v31.py:1683-1683 | there is one stable argsort: the experts' positions one expert after the other |
| Routing.Bincount | reproducibility/r10/lineage/encode_tr3_v31.py:1684-1684 | the counts are the numbers of positions |
| Routing.Starts | reproducibility/r10/lineage/encode_tr3_v31.py:1685-1685 | the prefix sums are where the experts' segments start |
| Routing.RowsAre | reproducibility/r10/lineage/encode_tr3_v31.py:1683-1697 | an expert's rows are the tokens with a slot for it, rising, each as often as it has such slots |
| Routing.RowsOfToken | reproducibility/r10/lineage/encode_tr3_v31.py:1683-1697 | a token is among an expert's rows as often as the expert is among the token's eight slots |
| Routing.SegmentsPartition | reproducibility/r10/lineage/encode_tr3_v31.py:1682-1686 | the segments of all experts partition all entries |
| Routing.LayerCalib.ExpertRows | reproducibility/r10/lineage/encode_tr3_v31.py:1695-1697 | the slice of the token array is the specified list of rows |
| Routing.LayerCalib.LayerH | reproducibility/r10/lineage/encode_tr3_v31.py:1719-1731 | the layer Hessian is accumulated on first use and kept, and every caller gets an own copy of it |
| Routing.Accumulate | reproducibility/r10/lineage/encode_tr3_v31.py:1725-1727 | accumulation in chunks of any size is the Gram matrix of all rows |
| Routing.HessianForm | reproducibility/r10/lineage/encode_tr3_v31.py:1725-1727 | an accumulated matrix is symmetric, and its form at any vector is the sum of the squares of the rows' products with it, hence never negative |
| Routing.LayerForm | reproducibility/r10/lineage/encode_tr3_v31.py:1719-1731 | the layer's Hessian is that of all tokens, each once |
| Routing.OwnBlockForm | reproducibility/r10/lineage/encode_tr3_v31.py:1769-1779 | the form of a rank's Hessian is the sum of squares over that rank's slice of the activations |
| Routing.BlockIsGram | reproducibility/r10/lineage/encode_tr3_v31.py:1770-1779 | a diagonal block of the Gram matrix is the Gram matrix of its own columns |
| Routing.BuildExpertHessians | reproducibility/r10/lineage/encode_tr3_v31.py:1734-1783 | gate and up share the Gram matrix of the expert's tokens, each rank's down slice has the Gram matrix of its own activations, and an expert with too few tokens falls back to the layer and the sample |

## Left out

- The tile quantizer, trellis packing and reconstruction of the CUDA extension: the source is not part of this model; the quantizer is a function of one tile, the rest a function of a slice's values and indices.
- Rounding of floating point: see the two readings above; no statement bounds a rounding error.
- Non-finite numbers: there are none among the reals, so the finiteness checks of logits, Hessians and losses are absent.
- Streams, devices, transfers, locks and the out-of-memory fallback of the factorization.
- Ldlq: one device, so the copies between device and buffer device are absent.
- BlockLdl: which Cholesky factor and which inverse the library returns are parameters; the factorization may fail.
- Calibrated.CalibratedLoss: the metric's denominator and the final quotient are not stated; they add no property.
- Pipeline.FinalizeCaptureH: the branch for a record on the meta device, which draws new signs at every call; the driver makes no such record.
- Pipeline.EncodeSlice: the one-time self-check is modelled apart, as ZeroFeedback.SelfCheck, and packing, unpacking and reconstruction with their assertions belong to the extension.
- Pipeline: rotation, factorization, regularization and the output of a slice are unspecified functions of their arguments; their contents are the subject of BlockLdl, Hadamard and Regularize, and RealPrologue puts the in-place regularization in the place of the function. The random generator is a pure function of its state. A factorization that fails for good ends a run of the encoder with an exception and is not modelled there, nor is freeing records between groups.
- Regularize.RegularizePre: nothing is promised of the weight when a divisor is exactly zero, where the code goes on with infinities; the flag for an all-zero weight goes into the decision but is not stored.
- CalibratedRun.CalibratedOutput: the record's rotated Hessian has a factor at one of the eleven dampings; where it has none the encoder ends with an exception.
- RealPrologue.ProloguePre: a slice with a divisor that is exactly zero is excluded for the same reason; RealPrologue.RegularizeClone too.
- Regularize.RoundTrip: weights for which a computed scale is exactly zero are excluded, because the code divides by it.
- Regularize.RecoversIff: the same weights are excluded.
- Regularize.RecoversExactly: the same weights are excluded.
- GoldenSection: the objective is any function; that the quantization error is strictly unimodal is a hypothesis of `ScaleIsNearMinimiser` only.
- Density: receipts, seals, hashes, the per-expert report, the total of unscaled damage and the count of changed matrices are absent, the fixed counts of layers, experts and projections are parameters, and the kinds of error are merged into one.
- Surplus.Build: the target rate is an exact real; no layers, no experts or no weights make the code divide by zero and are excluded.
- FactoryUnion.Run: capture and scoring are one deterministic function of the model, means are exact; bootstrap intervals, resuming from logs and saved files are absent.
- TokenKld.TokenKld: teacher and student are one array or two that do not overlap.
- LayerCommit.NeverWrong: the encoding is a function of the layer, one orchestrator runs at a time, and time stamps in records are arbitrary.
- SafeTensors.RoundTrip: the JSON of a header is an encode and decode pair tolerant of trailing spaces; a hash is any function that takes its bytes in pieces; waiting for a download is absent.
- Routing.LayerCalib.ExpertRows: the argsort is any stable argsort, and the random subsample of tokens for cold experts is a parameter.
- Command lines, logging, timing, model loading, forward passes, uploads, receipts and the scripts that only compare fields for equality: easy members or calls into libraries.
