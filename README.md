# HiGHS Go wrapper: encoding, buffer registry and dispatch

This project models the boundary layer of a Go wrapper around the HiGHS
linear and mixed-integer optimisation engine, and proves properties of that
model. The layer sits between a caller's dense model and the engine's C API.
The caller supplies column costs, column bounds, constraint rows and optional
integrality. The wrapper copies them into C buffers, hands the buffers to the
engine, runs it and copies a solution back. The solver itself is not modelled.

The model has four parts.

- **Row packer** (`packMatrix` / `packRows`). `Packing.Pack` is the
  specification: dense rows become the row-wise compressed triple
  `(arStart, arIndex, arValue)`, and zero coefficients are dropped. The
  append loops of the source are `Packing.PackMatrix` and
  `HighsInterface.PackRows`, each proved equal to `Pack`. Lemmas state the
  offsets, lengths, index order and ranges, and stored values. The inverse
  `Packing.Unpack` is proved to give every row back.
- **Bound splitter** (`separateBounds`). `Packing.Separate` cuts augmented
  rows `[lb, coefficients..., ub]` at the width of the first row.
  `Packing.SeparateBounds` is the loop, and `Packing.Join` is its inverse for
  rectangular input.
- **The two `Highs` objects.**
  - `HighsInterface.Highs` (highs.go) owns a shim handle and the `allocs` list
    of C buffers that `Free` drains.
  - `HighsCApi.Highs` (pkg/highs.go) holds the model and the `ptrs` record. It
    allocates the model in three steps, passes it to the engine as an LP or a
    MIP, runs it and reads a solution back.
  - The C heap is `Memory.Heap`: a map from pointers to live buffers, a set of
    freed pointers, and a log of every `free` of a pointer that was not live.
  - Each engine call is recorded in a ghost `calls` log. The value the engine
    returns or writes is a method parameter.
- **Status and enumeration tables** (constants.go, duplicated at the top of
  pkg/highs.go). These are the fixed ordinals and the verbatim label array of
  `ModelStatus.String`, typos included.

Three behaviours of the code shape the model:

- Every `allocate*` step returns an error for a mismatched length
  (pkg/highs.go:178-184, 205-207, 247-249), and `allocate` discards all three
  (pkg/highs.go:170-174). The as-written `RunSolver` therefore goes on to the
  engine with whatever pointers allocation left (see Findings).
- `destroy` frees every tracked pointer (pkg/highs.go:128-130), while
  `GetSolution` tracks its four scratch buffers and also frees them itself
  (pkg/highs.go:391-416), so they are freed twice (see Findings).
- A model without rows panics at `h.rows[0]` (pkg/highs.go:205), so
  `RunSolver` and `Allocate` require at least one row. Only the corrected
  `RunSolverChecked` reports such a model, as an error.

## Model

| member | source | states |
|---|---|---|
| Packing.RowEntries | utils.go:18-23 | one row's segment holds exactly its nonzero positions, strictly increasing and in range, each paired with the nonzero value at that position |
| Packing.PackShape | utils.go:15-25 | one start per row; as many indices as values, and that count is the number of nonzero coefficients |
| Packing.PackStarts | pkg/highs.go:438-448 | the start of row i is the nonzero count of rows 0..i-1, so consecutive empty rows share a start |
| Packing.PackWellFormed | pkg/highs.go:433-451 | the packed starts begin at 0, never decrease and never pass the end of the index array, and there are as many indices as values |
| Packing.PackSegment | pkg/highs.go:441-446 | row i's segment of `arIndex`/`arValue` (from its start up to the next row's start) is exactly that row's nonzero positions and values |
| Packing.ExpandRow | utils.go:18-23 | expanding a row's own segment back to the row's width reproduces the row; zeros come back as zeros |
| Packing.UnpackPack | utils.go:10-28 | for rows of one width, unpacking the packed matrix reproduces every row (packing loses nothing) |
| Packing.PackMatrix | utils.go:10-28 | the nested append loop with its running `idx` returns exactly `Pack(matrix)` |
| Packing.PackExample | pkg/highs_test.go:70-77 | the test matrix packs to starts `[0,1,3]`, indices `[1,0,1,0,1]` and values `[1,1,2,2,1]` |
| Packing.ExampleRows | pkg/highs_test.go:71 | nonzero positions and values of each of the test matrix's three rows |
| Packing.SeparateWith | utils.go:37-41 | cutting every row at a given width gives three outputs as long as the input, with `lbs[i] = row[0]`, `ubs[i] = row[w-1]` and `rows[i] = row[1..w-1)` |
| Packing.Separate | utils.go:31-44 | the same, with the width of the FIRST row; each coefficient row has that width minus 2; the requires is the non-empty input, first width at least 2 and every row at least that wide without which the slicing panics |
| Packing.SeparateRoundTrip | utils.go:31-44 | when every row has the first row's width, putting each pair of bounds back around its coefficient row gives the input back |
| Packing.SeparateBounds | pkg/highs.go:454-467 | the append loop returns exactly `Separate(boundRows)` |
| Packing.SeparateExample | highs_test.go:51-62 | the test's augmented rows split into lbs `[-1,10,8]`, ubs `[2,14,20]` and rows `[[0,1],[1,2],[2,1]]` |
| Packing.DemoLpSplit | internal/call_highs_from_c.c:31-32 | the demo LP's augmented rows split into its row bounds `[-1e30,10,8]` and `[6,14,1e30]` and the test matrix |
| Packing.DemoLpEncoding | internal/call_highs_from_c.c:35-37 | splitting and packing the demo LP's rows gives the hand-packed `arstart`, `arindex` and `arvalue` of the C demo |
| Constants.String | constants.go:24-42 | a label exists only for ordinals 0..15; each label starts with "Model ", and it is "Model Optimal" exactly for `ModelOptimal` |
| Constants.StatusOrdinals | constants.go:5-22 | the 16 statuses are the ordinals 0..15 in declared order (so `ModelOptimal` is 7), each has a label, and the 16 labels are pairwise distinct |
| Constants.IntToString | pkg/highs.go:276 | the decimal text `fmt` prints inside the recovered panic: digits with no leading zero denoting n, after a '-' when n is negative |
| Constants.Describe | pkg/highs.go:276 | what `%s` prints for a status: its label for 0..15; otherwise the recovered index panic, the prefix, then the ordinal in decimal, then `])` for a negative ordinal and `] with length 16)` for one past the array |
| Constants.DescribeSixteen | pkg/highs.go:37-54 | ordinal 16 prints as the panic text with index `[16]` and `with length 16)` |
| Memory.Malloc | pkg/highs.go:472-479 | a new buffer of n zeroed doubles or ints, by `kind`, at the fresh address `next`, which was neither live nor freed and is used up; every other buffer, the freed set and the log are kept |
| Memory.StoreDoubles | pkg/highs.go:515-527 | the buffer then holds exactly the given doubles; no other buffer changes |
| Memory.StoreInts | pkg/highs.go:486-498 | the buffer then holds exactly the given ints; no other buffer changes |
| Memory.Free | pkg/highs.go:482-484 | only that pointer stops being live; a live pointer is added to the freed set with the log kept, any other is appended to the invalid-free log with the freed set kept |
| Memory.FreeEach | pkg/highs.go:128-130 | the loop freeing every tracked pointer in order is `FreeAll` |
| Memory.FreeAllEffect | pkg/highs.go:128-130 | after the free loop, none of the pointers is live, the rest is untouched, the live ones are marked freed and the log only grows |
| Memory.FreeAllClean | pkg/highs.go:128-130 | the free loop logs no invalid free if and only if the pointers are pairwise distinct and all live |
| Memory.FreeAllDead | pkg/highs.go:128-130 | freeing pointers none of which is live logs every one of them, in order |
| Memory.CopyDoubles | pkg/highs.go:529-536 | the element-by-element copy returns the first n doubles of the buffer |
| Layout.ColumnBlocksHold | highs.go:48-58 | the three column buffers hold the costs, the lower bounds and the upper bounds, at three consecutive fresh addresses |
| Layout.RowBlocksHold | highs.go:82-100 | the five row buffers hold `arStart`, `arIndex`, `arValue` and the row bounds, at five consecutive fresh addresses |
| HighsInterface.PackRows | highs.go:126-144 | the `packRows` loop returns the triple of `Pack(rows)` |
| HighsInterface.Highs.constructor | highs.go:20-28 | a new object holds the shim's handle and tracks nothing |
| HighsInterface.Highs.Free | highs.go:30-40 | with a handle: every tracked buffer is freed exactly once (no invalid free), then the handle and `allocs` are cleared; without one nothing changes, so a second call is a no-op |
| HighsInterface.Highs.TrackDoubles | highs.go:48-50 | a buffer holding the doubles is placed at the fresh address and appended to `allocs` |
| HighsInterface.Highs.TrackInts | highs.go:82-84 | a buffer holding the ints is placed at the fresh address and appended to `allocs` |
| HighsInterface.Highs.AddColumns | highs.go:42-72 | unequal lengths: the error, with nothing allocated or called; otherwise three buffers (costs, lb, ub) placed and tracked, the shim called with them, and an error exactly when it returns 0, the buffers staying tracked |
| HighsInterface.Highs.TrackRows | highs.go:80-100 | five buffers (arStart, arIndex, arValue, lb, ub) placed in that order and tracked |
| HighsInterface.Highs.AddRows | highs.go:74-117 | bound vectors not as long as the rows: the error, nothing allocated; otherwise the packed rows and bounds in five tracked buffers, the shim called with `nnz = |arIndex|`, and an error exactly when it returns 0 |
| HighsInterface.Highs.Run | highs.go:119-123 | the shim's run is called and no error is ever returned |
| HighsCApi.Filled | pkg/highs.go:403 | after the engine writes a solution, the four buffers hold its four vectors and nothing else changes |
| HighsCApi.FreeFour | pkg/highs.go:406-416 | freeing the four live scratch buffers in order releases them with no invalid free |
| HighsCApi.SolutionScratchCycle | pkg/highs.go:391-416 | malloc, fill and free of the four scratch buffers leaves the live buffers as they were, the four addresses used up and freed |
| HighsCApi.AllocationPlaces | pkg/highs.go:170-257 | `allocate` places the column, row and integrality buffers of the steps that succeed in one run of fresh addresses, tracks them in that order and records each step's pointers at its offset |
| HighsCApi.AllocationKeepsColumnPtrs | pkg/highs.go:170-202 | with a bound count different from the column count, allocation leaves the three column pointers as they were and goes on: the row and integrality steps run from the unchanged registry, so rows of the right width land at the addresses the columns would have taken |
| HighsCApi.DestroyAfterSolution | pkg/highs.go:123-134 | after `GetSolution` on a clean registry, the destroy loop logs exactly the four scratch pointers as invalid frees |
| HighsCApi.SolverError | pkg/highs.go:308 | the error is "solver error: " followed by what `%s` prints for the status: its label for 0..15, the recovered panic text otherwise |
| HighsCApi.ShapeError | pkg/highs.go:176-257 | the corrected validation: no error exactly for a well-shaped model (bounds per column, at least one row, every row as wide as the columns plus 2, integrality empty or one per column); a bound count mismatch is always an error |
| HighsCApi.WellShapedAllocates | pkg/highs.go:170-257 | a well-shaped model can be allocated without a panic, and every column and row pointer is then set (and the integrality pointer when integrality is given) |
| HighsCApi.DroppedErrorWitness | pkg/highs.go:170-174 | a model with a column but no bound pair passes `allocate` without a panic: the three column pointers stay nil while all five row pointers are set |
| HighsCApi.DroppedErrorRun | pkg/highs.go:259-266 | any model with columns, no bound pairs and rows that fit, run through `RunSolver` with an optimal status: the engine is handed nil column pointers next to all five placed row pointers, and no error comes back |
| HighsCApi.DoubleFreeWitness | pkg/highs.go:385-419 | for any model set on a fresh object, New, GetSolution, destroy frees the scratch pointers 0,1,2,3 a second time |
| HighsCApi.Highs.constructor | pkg/highs.go:105-121 | a new object holds the engine handle, an empty model, zero pointers, and tracks nothing |
| HighsCApi.Highs.Destroy | pkg/highs.go:123-134 | with a handle: every tracked pointer freed in order, then handle, `allocs` and `ptrs` cleared; no invalid free exactly when the tracked pointers were live and distinct; without a handle nothing changes |
| HighsCApi.Highs.SetColumns | pkg/highs.go:136-138 | the costs become the given slice |
| HighsCApi.Highs.SetRows | pkg/highs.go:140-142 | the rows become the given slice |
| HighsCApi.Highs.SetBounds | pkg/highs.go:144-146 | the bounds become the given slice |
| HighsCApi.Highs.SetIntegrality | pkg/highs.go:148-150 | the integrality becomes the given slice |
| HighsCApi.Highs.GetLowerBounds | pkg/highs.go:152-159 | one entry per column: each pair's lower bound, then zeros |
| HighsCApi.Highs.GetUpperBounds | pkg/highs.go:161-168 | one entry per column: each pair's upper bound, then zeros |
| HighsCApi.Highs.TrackDoubles | pkg/highs.go:186-188 | a buffer holding the doubles is placed at the fresh address and appended to `allocs` |
| HighsCApi.Highs.TrackInts | pkg/highs.go:251-253 | a buffer holding the ints is placed at the fresh address and appended to `allocs` |
| HighsCApi.Highs.TrackColumns | pkg/highs.go:186-199 | three buffers (costs, lower, upper bounds) placed in order and tracked |
| HighsCApi.Highs.AllocateColumns | pkg/highs.go:176-202 | more bound pairs than columns or fewer: the matching error, nothing allocated; otherwise costs and both bound vectors placed, tracked and recorded in `ptrs` |
| HighsCApi.Highs.TrackRows | pkg/highs.go:216-240 | five buffers (arStart, arIndex, arValue, row lbs, row ubs) placed in order and tracked |
| HighsCApi.Highs.AllocateRows | pkg/highs.go:204-243 | a first row whose width is not the column count plus 2: the error, nothing allocated; otherwise the split and packed rows and the row bounds placed, tracked and recorded with both packed sizes |
| HighsCApi.Highs.AllocateIntegrality | pkg/highs.go:245-257 | integrality not one per column (an empty one included): the error, nothing allocated; otherwise placed, tracked and recorded |
| HighsCApi.Highs.Allocate | pkg/highs.go:170-174 | the registry becomes `Allocation`: the three steps in order, each error dropped |
| HighsCApi.Highs.PassLp | pkg/highs.go:311-328 | the engine is passed the column count, the row count, `ArIndexSize`, the row-wise format flag 1 and the recorded pointers, without integrality; its status comes back |
| HighsCApi.Highs.PassMip | pkg/highs.go:279-298 | as `PassLp`, with the integrality pointer |
| HighsCApi.Highs.Run | pkg/highs.go:369-372 | the engine's run status comes back as a `SolutionStatus` |
| HighsCApi.Highs.GetModelStatus | pkg/highs.go:421-424 | the engine's model status comes back unchanged, whatever its value |
| HighsCApi.Highs.SetObjectiveSense | pkg/highs.go:334-336 | the sense is handed to the engine |
| HighsCApi.Highs.GetObjectiveSense | pkg/highs.go:338-344 | a one-int buffer is placed, tracked, written by the engine and read back, and stays tracked |
| HighsCApi.Highs.Scratch | pkg/highs.go:391-392 | a zeroed scratch buffer is placed at the fresh address and tracked |
| HighsCApi.Highs.ScratchSolution | pkg/highs.go:391-401 | four scratch buffers, two per column count and two per row count, placed and appended to `allocs` |
| HighsCApi.Highs.FillSolution | pkg/highs.go:403 | the engine's call is recorded and its solution written into the four buffers |
| HighsCApi.Highs.ReadAndFree | pkg/highs.go:406-407 | the first n doubles of the buffer are copied out, then the buffer is freed |
| HighsCApi.Highs.ReadSolution | pkg/highs.go:405-418 | the four buffers are copied into a `Solution` and released |
| HighsCApi.Highs.GetSolution | pkg/highs.go:385-419 | the engine's four vectors come back unchanged; the four scratch pointers end up freed yet still in `allocs`, so the registry is no longer clean |
| HighsCApi.Highs.Solve | pkg/highs.go:302-308 | run, then model status; a solution and no error exactly for `ModelOptimal`, otherwise the empty solution and the error naming the status |
| HighsCApi.Highs.RunLpSolver | pkg/highs.go:300-309 | the model is passed as an LP, then solved as in `Solve` |
| HighsCApi.Highs.RunMipsSolver | pkg/highs.go:268-277 | the model is passed as a MIP, then solved as in `Solve` |
| HighsCApi.Highs.RunSolver | pkg/highs.go:259-266 | allocation with errors dropped, then the MIP path exactly when integrality is non-empty; a solution with no error exactly for an optimal status, otherwise the empty solution and the status error |
| HighsCApi.Highs.CheckShape | pkg/highs.go:176-257 | the loop over the rows computes `ShapeError` |
| HighsCApi.Highs.AllocateChecked | pkg/highs.go:170-174 | corrected `allocate`: returns the first shape error with nothing allocated, or allocates in full with every model pointer set |
| HighsCApi.Highs.UntrackedScratch | pkg/highs.go:391-401 | the four scratch buffers placed without being tracked |
| HighsCApi.Highs.GetSolutionScoped | pkg/highs.go:385-419 | corrected `GetSolution`: the same solution comes back, `allocs` is unchanged and a clean registry stays clean |
| HighsCApi.Highs.SolveScoped | pkg/highs.go:302-308 | `Solve` over the corrected solution read: same results, `allocs` unchanged |
| HighsCApi.Highs.PassAndSolveScoped | pkg/highs.go:262-265 | the MIP entry point exactly when integrality is given, then the corrected solve: a solution and no error exactly for an optimal status, otherwise the empty solution and the error naming the status |
| HighsCApi.Highs.AllocateAndSolveScoped | pkg/highs.go:259-266 | a well-shaped model is allocated in full, passed and solved, with the solution exactly for an optimal status and the status error otherwise; a clean registry stays clean |
| HighsCApi.Highs.RunSolverChecked | pkg/highs.go:259-266 | corrected `RunSolver`: a shape error comes back with nothing allocated or called; otherwise the full model is passed and solved, the solution comes back exactly for an optimal status and the status error otherwise, and a clean registry stays clean |

## Left out

- Engine calls (`C.Highs_*` and `C.highsiface_*`) are not modelled: their results are method parameters and each call is recorded in a ghost log. The optima of the tests and demos are not stated.
- Engine-written solution lengths: `GetSolution` and the solver methods require the engine's four vectors to have the column and row counts; the engine writes whatever it writes.
- `runtime.SetFinalizer` in `New` (pkg/highs.go:115-117) is driven by the garbage collector and is not modelled.
- `SetStringOptionValue`, `GetStringOptionValue` and `callLpSolver` pass straight through to the engine or do nothing, and are not modelled.
- IEEE doubles are modelled as `real`: infinities, the `1e30` sentinel, `-0.0` (dropped by the packer, as `== 0`) and NaN (kept) are not represented.
- The `C.int` conversions of counts and integrality ordinals are not truncated to 32 bits.
- `cMalloc` never fails in the model; its panic on a nil result is an abort. Fresh buffers read as zeros, and addresses are never reused after a free.
- Each `Highs` object has a heap of its own, so buffers of two objects cannot be confused.
- Slices are values: the `Set*` methods in Go share the caller's slice, so a later change by the caller is not seen by the model.
- `cSetArrayInt`, `cSetArrayDouble`, `copyInts` and the `cGetArray*` helpers are folded into `Memory.StoreInts`, `Memory.StoreDoubles` and `Memory.CopyDoubles`.
- The copies of `packMatrix`, `separateBounds` and the status tables in pkg/highs.go (lines 16-78 and 433-467) are identical to utils.go and constants.go and are modelled by the same members.
- highs-interface.cpp, highs-interface.h and internal/call_highs_from_c.c are demo programs and declarations; only the demo's data is used.
- The tests' constructor with arguments, `dims` and `SetBoolOptionValue` are not part of this model.
- HighsCApi.Highs.RunSolver: the panic of a model without rows, or of a later row narrower than the first when the first row's width fits, is a requires (`RowsReadable`) rather than a modelled crash.
- HighsCApi.Highs.Allocate: the same `RowsReadable` requires stands for the panic of `allocateRows`.
- HighsCApi.Highs.AllocateRows: the same `RowsReadable` requires stands for the panic of its first-row index and row slicing.
- HighsCApi.Highs.GetLowerBounds: more bound pairs than columns panics in Go; the model requires `|bounds| <= |cols|`.
- HighsCApi.Highs.GetUpperBounds: the same requires stands for the same panic.
- Packing.SeparateBounds: the slicing and indexing panics are the requires `Separable`; a Go slice may reach past a row's length into its capacity, which the model does not allow.
- Constants.String: only defined for 0..15, where the Go index panics for any other ordinal; `Constants.Describe` gives the text `fmt` prints after recovering that panic.

## Findings

| source | as written | input that shows it | evidently intended | confidence | as-written member | corrected member |
|---|---|---|---|---|---|---|
| pkg/highs.go:170-174 | `allocate` drops the errors of all three allocation steps, so `RunSolver` passes a model with nil or stale pointers to the engine; on the LP path the integrality step fails whenever the model has at least one column, and is silently skipped | one column `[1]`, no bound pair, one row `[0,2,5]`, no integrality: the column step fails, rows are still allocated, and the engine is handed a nil cost pointer | check the whole model first and return the first error before allocating or calling the engine | not executed | HighsCApi.DroppedErrorWitness | HighsCApi.Highs.RunSolverChecked |
| pkg/highs.go:385-419 | `GetSolution` appends its four scratch buffers to `allocs` and frees them itself, so `destroy` (lines 128-130) frees them a second time | `New`, then `GetSolution` on any model (an empty one included), then `destroy`: the pointers of the four scratch buffers are freed twice | free the scratch buffers where they are read and never track them, so `destroy` frees each buffer once | not executed | HighsCApi.DoubleFreeWitness | HighsCApi.Highs.GetSolutionScoped |
