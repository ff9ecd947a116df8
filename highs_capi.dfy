/**
 * The `Highs` object of `pkg/` (pkg/highs.go), which drives the engine's C API
 * directly. The caller sets columns, bounds, augmented rows and integrality;
 * `RunSolver` copies them into C buffers, passes the model to the engine,
 * runs it and reads a solution back. Every buffer goes into `allocs`, which
 * `Destroy` drains. Engine calls are not modelled: each is recorded in a
 * ghost log, and the values it returns or writes are parameters.
 */
module HighsCApi {
  import opened Results
  import opened Memory
  import opened Packing
  import opened Layout
  import opened Constants

  /** The handle `Highs_create` returned. */
  type EngineRef = nat

  /** The buffers handed to the engine (`None` for a nil pointer) and the two packed sizes. */
  datatype Ptrs = Ptrs(
    pCols: Option<Ptr>, pColLbs: Option<Ptr>, pColUbs: Option<Ptr>,
    pArStart: Option<Ptr>, pArIndex: Option<Ptr>, pArValue: Option<Ptr>,
    pRowLbs: Option<Ptr>, pRowUbs: Option<Ptr>, pIntg: Option<Ptr>,
    arStartSize: int, arIndexSize: int)

  /** The zero value `highsPtrs{}`. */
  const NoPtrs := Ptrs(None, None, None, None, None, None, None, None, None, 0, 0)

  /**
   * The matrix format flag both pass entry points are given: 1 names the
   * row-wise packing (`arStart` per row) that `packMatrix` produces.
   */
  const RowWise := 1

  /** The calls made into the engine, with the counts, the matrix format and the buffers passed. */
  datatype Call =
    | PassModelCall(mip: bool, numCol: int, numRow: int, numNz: int, aFormat: int, ptrs: Ptrs)
    | RunCall
    | ModelStatusCall
    | SolutionCall(pColValue: Ptr, pColDual: Ptr, pRowValue: Ptr, pRowDual: Ptr)
    | ChangeSenseCall(sense: Sense)
    | GetSenseCall(p: Ptr)
    | DestroyCall

  /** Primal and dual values of the columns and of the rows. */
  datatype Solution = Solution(colValue: seq<real>, colDual: seq<real>, rowValue: seq<real>, rowDual: seq<real>)

  /** `NewSolution()`, and also the zero `Solution{}` returned with an error: both hold no values. */
  const EmptySolution := Solution([], [], [], [])

  const ErrUnderBounded := "columns are under bounded"
  const ErrOverBounded := "columns are over bounded"
  const ErrRowSize := "row size mismatch len(row[i]) != len(col)"
  const ErrIntegrality := "integrality len does not match column len"
  const SolverErrorPrefix := "solver error: "
  /** The error of the checked allocation for a model without rows. */
  const ErrNoRows := "no rows"

  /** The lower bound of each column bound pair. */
  function Firsts(bounds: seq<(real, real)>): seq<real>
  {
    seq(|bounds|, i requires 0 <= i < |bounds| => bounds[i].0)
  }

  /** The upper bound of each column bound pair. */
  function Seconds(bounds: seq<(real, real)>): seq<real>
  {
    seq(|bounds|, i requires 0 <= i < |bounds| => bounds[i].1)
  }

  /** What `allocateColumns` places: the three column buffers when the bounds match, nothing otherwise. */
  function ColumnPlan(cols: seq<real>, bounds: seq<(real, real)>): seq<Block>
  {
    if |cols| == |bounds| then ColumnBlocks(cols, Firsts(bounds), Seconds(bounds)) else []
  }

  /** What `allocateRows` needs to run without a panic: a first row, and every row as wide as it when its width fits. */
  predicate RowsReadable(rows: seq<seq<real>>, cols: seq<real>)
  {
    && |rows| > 0
    && (|rows[0]| - 2 == |cols| ==> forall i :: 0 <= i < |rows| ==> |rows[i]| >= |rows[0]|)
  }

  /** What `allocateRows` places: the packed coefficient rows and the row bounds when the width fits. */
  function RowPlan(rows: seq<seq<real>>, cols: seq<real>): seq<Block>
    requires RowsReadable(rows, cols)
  {
    if |rows[0]| - 2 == |cols| then
      var s := Separate(rows);
      RowBlocks(Pack(s.rows), s.lbs, s.ubs)
    else []
  }

  /** What `allocateIntegrality` places: the integrality buffer when its length matches. */
  function IntegralityPlan(cols: seq<real>, integrality: seq<int>): seq<Block>
  {
    if |cols| == |integrality| then [Ints(integrality)] else []
  }

  /** The pointers `allocateColumns` records when it places its buffers from `p` on. */
  function ColumnPtrs(ptrs: Ptrs, p: Ptr, cols: seq<real>, bounds: seq<(real, real)>): Ptrs
  {
    if |cols| == |bounds| then ptrs.(pCols := Some(p), pColLbs := Some(p + 1), pColUbs := Some(p + 2))
    else ptrs
  }

  /** The pointers and sizes `allocateRows` records when it places its buffers from `p` on. */
  function RowPtrs(ptrs: Ptrs, p: Ptr, rows: seq<seq<real>>, cols: seq<real>): Ptrs
    requires RowsReadable(rows, cols)
  {
    if |rows[0]| - 2 == |cols| then
      var pm := Pack(Separate(rows).rows);
      ptrs.(arStartSize := |pm.arStart|, arIndexSize := |pm.arIndex|,
            pArStart := Some(p), pArIndex := Some(p + 1), pArValue := Some(p + 2),
            pRowLbs := Some(p + 3), pRowUbs := Some(p + 4))
    else ptrs
  }

  /** The pointer `allocateIntegrality` records when it places its buffer at `p`. */
  function IntegralityPtrs(ptrs: Ptrs, p: Ptr, cols: seq<real>, integrality: seq<int>): Ptrs
  {
    if |cols| == |integrality| then ptrs.(pIntg := Some(p)) else ptrs
  }

  /** The heap after `GetSolution` mallocs its four zero-filled scratch buffers for n columns and m rows. */
  function ScratchHeap(h: Heap, n: nat, m: nat): Heap
  {
    var p, z, w := h.next, Doubles(ZeroDoubles(n)), Doubles(ZeroDoubles(m));
    h.(blocks := h.blocks[p := z][p + 1 := z][p + 2 := w][p + 3 := w], next := p + 4)
  }

  /** The four buffers from `p` on are live doubles sized for n columns and m rows. */
  predicate ScratchReady(h: Heap, p: Ptr, n: nat, m: nat)
  {
    && p in h.blocks && h.blocks[p].Doubles? && |h.blocks[p].ds| == n
    && p + 1 in h.blocks && h.blocks[p + 1].Doubles? && |h.blocks[p + 1].ds| == n
    && p + 2 in h.blocks && h.blocks[p + 2].Doubles? && |h.blocks[p + 2].ds| == m
    && p + 3 in h.blocks && h.blocks[p + 3].Doubles? && |h.blocks[p + 3].ds| == m
  }

  /** The heap after the engine writes a solution into the four buffers from `p` on. */
  function Filled(h: Heap, p: Ptr, s: Solution): (r: Heap)
    requires ScratchReady(h, p, |s.colValue|, |s.rowValue|)
    requires |s.colDual| == |s.colValue| && |s.rowDual| == |s.rowValue|
    ensures HoldsDoubles(r, p, s.colValue) && HoldsDoubles(r, p + 1, s.colDual)
    ensures HoldsDoubles(r, p + 2, s.rowValue) && HoldsDoubles(r, p + 3, s.rowDual)
    ensures r.blocks.Keys == h.blocks.Keys
    ensures forall q :: q in h.blocks && q !in ScratchPtrs(p) ==> r.blocks[q] == h.blocks[q]
    ensures r.next == h.next && r.freed == h.freed && r.invalidFrees == h.invalidFrees
  {
    h.(blocks := h.blocks[p := Doubles(s.colValue)][p + 1 := Doubles(s.colDual)]
      [p + 2 := Doubles(s.rowValue)][p + 3 := Doubles(s.rowDual)])
  }

  /** The four scratch addresses from `p` on. */
  function ScratchPtrs(p: Ptr): set<Ptr>
  {
    {p, p + 1, p + 2, p + 3}
  }

  /** The heap after the four scratch buffers from `p` on are released: no longer live, and marked freed. */
  function Released(h: Heap, p: Ptr): Heap
  {
    h.(blocks := h.blocks - {p} - {p + 1} - {p + 2} - {p + 3}, freed := h.freed + ScratchPtrs(p))
  }

  /** Freeing four live buffers from `p` on, in order, releases them and records no invalid free. */
  lemma FreeFour(f: Heap, p: Ptr)
    requires p in f.blocks && p + 1 in f.blocks && p + 2 in f.blocks && p + 3 in f.blocks
    ensures Free(Free(Free(Free(f, p), p + 1), p + 2), p + 3) == Released(f, p)
  {
    var f1 := Free(f, p);
    var f2 := Free(f1, p + 1);
    var f3 := Free(f2, p + 2);
    assert f1.freed + {p + 1} + {p + 2} + {p + 3} == f.freed + ScratchPtrs(p);
  }

  /**
   * The scratch cycle of `GetSolution`: placing four zeroed buffers, letting the
   * engine fill them and releasing them again leaves the live buffers as they
   * were, with the four addresses used up and marked freed, and no invalid free.
   */
  lemma SolutionScratchCycle(h: Heap, s: Solution)
    requires Valid(h)
    requires |s.colDual| == |s.colValue| && |s.rowDual| == |s.rowValue|
    ensures var n, m, p := |s.colValue|, |s.rowValue|, h.next;
      var h1 := ScratchHeap(h, n, m);
      && ScratchReady(h1, p, n, m)
      && Released(Filled(h1, p, s), p) == h.(next := p + 4, freed := h.freed + ScratchPtrs(p))
  {
    ScratchHeapReady(h, |s.colValue|, |s.rowValue|);
    ScratchBlocksRestored(h, s);
  }

  /** Releasing the filled scratch buffers leaves exactly the live buffers there were before they were placed. */
  lemma ScratchBlocksRestored(h: Heap, s: Solution)
    requires h.next !in h.blocks && h.next + 1 !in h.blocks && h.next + 2 !in h.blocks && h.next + 3 !in h.blocks
    requires |s.colDual| == |s.colValue| && |s.rowDual| == |s.rowValue|
    ensures var n, m, p := |s.colValue|, |s.rowValue|, h.next;
      ScratchReady(ScratchHeap(h, n, m), p, n, m)
      && Released(Filled(ScratchHeap(h, n, m), p, s), p).blocks == h.blocks
  {
    var n, m, p := |s.colValue|, |s.rowValue|, h.next;
    var z, w := Doubles(ZeroDoubles(n)), Doubles(ZeroDoubles(m));
    var v0, v1, v2, v3 := Doubles(s.colValue), Doubles(s.colDual), Doubles(s.rowValue), Doubles(s.rowDual);
    ScratchHeapReady(h, n, m);
    var b1 := h.blocks[p := z][p + 1 := z][p + 2 := w][p + 3 := w];
    var b2 := b1[p := v0][p + 1 := v1][p + 2 := v2][p + 3 := v3];
    assert Filled(ScratchHeap(h, n, m), p, s).blocks == b2;
    MapScratchRoundTrip(h.blocks, p, z, w, v0, v1, v2, v3);
  }

  /** The four scratch buffers are live, zeroed doubles sized for n columns and m rows. */
  lemma ScratchHeapReady(h: Heap, n: nat, m: nat)
    ensures ScratchReady(ScratchHeap(h, n, m), h.next, n, m)
  {
  }

  /** The part of a `Highs` object that allocation changes: the heap, the tracked pointers and `ptrs`. */
  datatype Registry = Registry(mem: Heap, allocs: seq<Ptr>, ptrs: Ptrs)

  /**
   * The registry after `GetSolution`: four more addresses used up and marked
   * freed, the live buffers as they were, and the four pointers still tracked.
   */
  function AfterSolution(g: Registry): Registry
  {
    var p := g.mem.next;
    Registry(g.mem.(next := p + 4, freed := g.mem.freed + ScratchPtrs(p)), g.allocs + [p, p + 1, p + 2, p + 3], g.ptrs)
  }

  /** The registry after the scoped solution read: the heap as after `GetSolution`, nothing more tracked. */
  function ScopedSolve(g: Registry, optimal: bool): Registry
  {
    if optimal then g.(mem := AfterSolution(g).mem) else g
  }

  /**
   * Once `GetSolution` has run, draining `allocs` frees its four scratch
   * buffers a second time, even when every other tracked pointer was live
   * and tracked once.
   */
  lemma DestroyAfterSolution(g: Registry)
    requires Valid(g.mem) && Distinct(g.allocs) && forall q :: q in g.allocs ==> q in g.mem.blocks
    ensures var a, p := AfterSolution(g), g.mem.next;
      FreeAll(a.mem, a.allocs).invalidFrees == g.mem.invalidFrees + [p, p + 1, p + 2, p + 3]
  {
    var a, p := AfterSolution(g), g.mem.next;
    var scratch := [p, p + 1, p + 2, p + 3];
    FreeAllAppend(a.mem, g.allocs, scratch);
    FreeAllClean(a.mem, g.allocs);
    FreeAllBlocks(a.mem, g.allocs);
    FreeAllDead(FreeAll(a.mem, g.allocs), scratch);
  }

  /** The registry after `allocateColumns`. */
  function ColumnStep(g: Registry, cols: seq<real>, bounds: seq<(real, real)>): Registry
  {
    var plan := ColumnPlan(cols, bounds);
    Registry(PlaceAll(g.mem, plan), g.allocs + Fresh(g.mem.next, |plan|), ColumnPtrs(g.ptrs, g.mem.next, cols, bounds))
  }

  /** The registry after `allocateRows`. */
  function RowStep(g: Registry, rows: seq<seq<real>>, cols: seq<real>): Registry
    requires RowsReadable(rows, cols)
  {
    var plan := RowPlan(rows, cols);
    Registry(PlaceAll(g.mem, plan), g.allocs + Fresh(g.mem.next, |plan|), RowPtrs(g.ptrs, g.mem.next, rows, cols))
  }

  /** The registry after `allocateIntegrality`. */
  function IntegralityStep(g: Registry, cols: seq<real>, integrality: seq<int>): Registry
  {
    var plan := IntegralityPlan(cols, integrality);
    Registry(PlaceAll(g.mem, plan), g.allocs + Fresh(g.mem.next, |plan|), IntegralityPtrs(g.ptrs, g.mem.next, cols, integrality))
  }

  /** The registry after `allocate`: the three steps in order, whatever each one concluded. */
  function Allocation(g: Registry, cols: seq<real>, bounds: seq<(real, real)>, rows: seq<seq<real>>, integrality: seq<int>): Registry
    requires RowsReadable(rows, cols)
  {
    IntegralityStep(RowStep(ColumnStep(g, cols, bounds), rows, cols), cols, integrality)
  }

  /** Everything `allocate` places, in order. */
  function AllocationPlan(cols: seq<real>, bounds: seq<(real, real)>, rows: seq<seq<real>>, integrality: seq<int>): seq<Block>
    requires RowsReadable(rows, cols)
  {
    ColumnPlan(cols, bounds) + RowPlan(rows, cols) + IntegralityPlan(cols, integrality)
  }

  /**
   * `allocate` places all of its buffers in one run of fresh addresses, tracks
   * them in that order, and records each step's pointers at that step's offset.
   */
  lemma AllocationPlaces(g: Registry, cols: seq<real>, bounds: seq<(real, real)>, rows: seq<seq<real>>, integrality: seq<int>)
    requires RowsReadable(rows, cols)
    ensures var plan := AllocationPlan(cols, bounds, rows, integrality);
      var c, r := |ColumnPlan(cols, bounds)|, |RowPlan(rows, cols)|;
      var p := g.mem.next;
      Allocation(g, cols, bounds, rows, integrality) == Registry(
        PlaceAll(g.mem, plan),
        g.allocs + Fresh(p, |plan|),
        IntegralityPtrs(RowPtrs(ColumnPtrs(g.ptrs, p, cols, bounds), p + c, rows, cols), p + c + r, cols, integrality))
  {
    var c, r, i := ColumnPlan(cols, bounds), RowPlan(rows, cols), IntegralityPlan(cols, integrality);
    PlaceAllNext(g.mem, c);
    PlaceAllNext(PlaceAll(g.mem, c), r);
    PlaceAllAppend(g.mem, c, r);
    PlaceAllAppend(g.mem, c + r, i);
    FreshAppend3(g.allocs, g.mem.next, |c|, |r|, |i|);
  }

  /**
   * A model the engine can take as it is: bounds for every column, at least one
   * row, every row `[lb, one coefficient per column..., ub]`, and integrality
   * either absent or given for every column.
   */
  predicate WellShaped(cols: seq<real>, bounds: seq<(real, real)>, rows: seq<seq<real>>, integrality: seq<int>)
  {
    && |cols| == |bounds|
    && |rows| > 0
    && (forall i :: 0 <= i < |rows| ==> |rows[i]| == |cols| + 2)
    && (|integrality| == 0 || |integrality| == |cols|)
  }

  /** The calls `runLpSolver` and `runMipsSolver` make after passing the model, for scratch buffers from `p` on. */
  function SolveCalls(optimal: bool, p: Ptr): seq<Call>
  {
    [RunCall, ModelStatusCall] + (if optimal then [SolutionCall(p, p + 1, p + 2, p + 3)] else [])
  }

  /** The error `fmt.Errorf("solver error: %s", status)` builds for a status other than optimal. */
  function SolverError(status: ModelStatus): (e: string)
    ensures SolverErrorPrefix <= e
    ensures 0 <= status as int < 16 ==> e == SolverErrorPrefix + StatusLabels[status]
    ensures e == SolverErrorPrefix + Describe(status)
  {
    SolverErrorPrefix + Describe(status)
  }

  /** Every buffer of the model was placed: the costs, the column bounds, the packed rows and the row bounds. */
  predicate ModelPlaced(ptrs: Ptrs)
  {
    && ptrs.pCols.Some? && ptrs.pColLbs.Some? && ptrs.pColUbs.Some?
    && ptrs.pArStart.Some? && ptrs.pArIndex.Some? && ptrs.pArValue.Some?
    && ptrs.pRowLbs.Some? && ptrs.pRowUbs.Some?
  }

  /**
   * The first shape problem of a model, checked in the order the three
   * allocation steps would meet it, with every row checked rather than the
   * first; `None` exactly for a model the engine can take as it is.
   */
  function ShapeError(cols: seq<real>, bounds: seq<(real, real)>, rows: seq<seq<real>>, integrality: seq<int>): (r: Option<string>)
    ensures r.None? <==> WellShaped(cols, bounds, rows, integrality)
    ensures |cols| != |bounds| ==> r.Some?
  {
    if |cols| < |bounds| then Some(ErrUnderBounded)
    else if |cols| > |bounds| then Some(ErrOverBounded)
    else if |rows| == 0 then Some(ErrNoRows)
    else if exists i :: 0 <= i < |rows| && |rows[i]| != |cols| + 2 then Some(ErrRowSize)
    else if |integrality| != 0 && |integrality| != |cols| then Some(ErrIntegrality)
    else None
  }

  /** A well-shaped model can be allocated without a panic, and every buffer of it is placed and recorded. */
  lemma WellShapedAllocates(g: Registry, cols: seq<real>, bounds: seq<(real, real)>, rows: seq<seq<real>>, integrality: seq<int>)
    requires WellShaped(cols, bounds, rows, integrality)
    ensures RowsReadable(rows, cols)
    ensures ModelPlaced(Allocation(g, cols, bounds, rows, integrality).ptrs)
    ensures |integrality| > 0 ==> Allocation(g, cols, bounds, rows, integrality).ptrs.pIntg.Some?
  {
    assert |rows[0]| == |cols| + 2;
  }

  /**
   * `allocate` drops the column step's error: when the bound count is off the
   * column pointers keep whatever they held, yet the later steps go on.
   */
  lemma AllocationKeepsColumnPtrs(g: Registry, cols: seq<real>, bounds: seq<(real, real)>, rows: seq<seq<real>>, integrality: seq<int>)
    requires RowsReadable(rows, cols) && |cols| != |bounds|
    ensures var r := Allocation(g, cols, bounds, rows, integrality).ptrs;
      r.pCols == g.ptrs.pCols && r.pColLbs == g.ptrs.pColLbs && r.pColUbs == g.ptrs.pColUbs
    ensures Allocation(g, cols, bounds, rows, integrality) == IntegralityStep(RowStep(g, rows, cols), cols, integrality)
    ensures var p, r := g.mem.next, Allocation(g, cols, bounds, rows, integrality).ptrs;
      |rows[0]| - 2 == |cols| ==>
        && r.pArStart == Some(p) && r.pArIndex == Some(p + 1) && r.pArValue == Some(p + 2)
        && r.pRowLbs == Some(p + 3) && r.pRowUbs == Some(p + 4)
  {
    assert ColumnStep(g, cols, bounds) == g by {
      assert g.allocs + Fresh(g.mem.next, 0) == g.allocs;
    }
  }

  class Highs {
    var obj: Option<EngineRef>
    var allocs: seq<Ptr>
    var cols: seq<real>
    var bounds: seq<(real, real)>
    var rows: seq<seq<real>>
    var integrality: seq<int>
    var ptrs: Ptrs
    var mem: Heap
    ghost var calls: seq<Call>

    /** The heap is consistent and every tracked pointer was handed out by it. */
    ghost predicate Valid()
      reads this
    {
      && Memory.Valid(mem)
      && forall p :: p in allocs ==> p < mem.next
    }

    /** The allocation state of the object. */
    function State(): Registry
      reads this
    {
      Registry(mem, allocs, ptrs)
    }

    /** Every tracked pointer is live and tracked once: `Destroy` can release them all exactly once. */
    ghost predicate Tracked()
      reads this
    {
      && Distinct(allocs)
      && forall p :: p in allocs ==> p in mem.blocks
    }

    /** `New`: a handle from `Highs_create`, an empty model and nothing tracked. */
    constructor (created: Option<EngineRef>)
      ensures Valid() && Tracked()
      ensures obj == created && allocs == [] && ptrs == NoPtrs && mem == EmptyHeap && calls == []
      ensures cols == [] && bounds == [] && rows == [] && integrality == []
    {
      obj := created;
      allocs := [];
      cols := [];
      bounds := [];
      rows := [];
      integrality := [];
      ptrs := NoPtrs;
      mem := EmptyHeap;
      calls := [];
    }

    /**
     * `destroy`: releases the engine and frees every tracked pointer in order,
     * then forgets them all; a second call does nothing. No free goes wrong
     * exactly when the tracked pointers were all live and distinct.
     */
    method Destroy()
      requires Valid()
      modifies this`obj, this`allocs, this`ptrs, this`mem, this`calls
      ensures Valid()
      ensures old(obj).None? ==>
        obj == old(obj) && allocs == old(allocs) && ptrs == old(ptrs) && mem == old(mem) && calls == old(calls)
      ensures old(obj).Some? ==>
        && obj == None && allocs == [] && ptrs == NoPtrs && calls == old(calls) + [DestroyCall] && Tracked()
        && mem == FreeAll(old(mem), old(allocs))
        && mem.blocks == old(mem.blocks) - (set p | p in old(allocs))
        && (mem.invalidFrees == old(mem.invalidFrees) <==> old(Tracked()))
    {
      if obj.Some? {
        calls := calls + [DestroyCall];
        obj := None;
        FreeAllEffect(mem, allocs);
        FreeAllClean(mem, allocs);
        mem := FreeEach(mem, allocs);
        allocs := [];
        ptrs := NoPtrs;
      }
    }

    /** `SetColumns`: the objective coefficients, one per column. */
    method SetColumns(c: seq<real>)
      modifies this`cols
      ensures cols == c
    {
      cols := c;
    }

    /** `SetRows`: the augmented rows `[lb, coefficients..., ub]`. */
    method SetRows(r: seq<seq<real>>)
      modifies this`rows
      ensures rows == r
    {
      rows := r;
    }

    /** `SetBounds`: a lower and upper bound per column. */
    method SetBounds(b: seq<(real, real)>)
      modifies this`bounds
      ensures bounds == b
    {
      bounds := b;
    }

    /** `SetIntegrality`: an `Integrality` ordinal per column, or nothing for an LP. */
    method SetIntegrality(i: seq<int>)
      modifies this`integrality
      ensures integrality == i
    {
      integrality := i;
    }

    /**
     * `GetLowerBounds`: one entry per column, the lower bound where a bound pair
     * exists and 0 after the last one. More pairs than columns index past the
     * end of the result, which panics.
     */
    method GetLowerBounds() returns (lbs: seq<real>)
      requires |bounds| <= |cols|
      ensures |lbs| == |cols|
      ensures forall i :: 0 <= i < |bounds| ==> lbs[i] == bounds[i].0
      ensures forall i :: |bounds| <= i < |cols| ==> lbs[i] == 0.0
    {
      lbs := seq(|cols|, _ => 0.0);
      for i := 0 to |bounds|
        invariant |lbs| == |cols|
        invariant forall k :: 0 <= k < i ==> lbs[k] == bounds[k].0
        invariant forall k :: i <= k < |cols| ==> lbs[k] == 0.0
      {
        lbs := lbs[i := bounds[i].0];
      }
    }

    /** `GetUpperBounds`: as `GetLowerBounds`, with the upper bound of each pair. */
    method GetUpperBounds() returns (ubs: seq<real>)
      requires |bounds| <= |cols|
      ensures |ubs| == |cols|
      ensures forall i :: 0 <= i < |bounds| ==> ubs[i] == bounds[i].1
      ensures forall i :: |bounds| <= i < |cols| ==> ubs[i] == 0.0
    {
      ubs := seq(|cols|, _ => 0.0);
      for i := 0 to |bounds|
        invariant |ubs| == |cols|
        invariant forall k :: 0 <= k < i ==> ubs[k] == bounds[k].1
        invariant forall k :: i <= k < |cols| ==> ubs[k] == 0.0
      {
        ubs := ubs[i := bounds[i].1];
      }
    }

    /** `cMalloc` + `append` to `allocs` + `cSetArrayDoubles`: the buffer is placed and tracked. */
    method TrackDoubles(vs: seq<real>) returns (p: Ptr)
      requires Valid()
      modifies this`allocs, this`mem
      ensures Valid() && (old(Tracked()) ==> Tracked())
      ensures p == old(mem.next) && allocs == old(allocs) + [p]
      ensures mem == Place(old(mem), Doubles(vs))
    {
      MallocStore(mem, Doubles(vs));
      p := mem.next;
      if Tracked() {
        FreshDistinct(mem, allocs, 1);
      }
      mem := Malloc(mem, CDouble, |vs|);
      allocs := allocs + [p];
      mem := StoreDoubles(mem, p, vs);
    }

    /** `cMalloc` + `append` to `allocs` + `cSetArrayInts`: the buffer is placed and tracked. */
    method TrackInts(vs: seq<int>) returns (p: Ptr)
      requires Valid()
      modifies this`allocs, this`mem
      ensures Valid() && (old(Tracked()) ==> Tracked())
      ensures p == old(mem.next) && allocs == old(allocs) + [p]
      ensures mem == Place(old(mem), Ints(vs))
    {
      MallocStore(mem, Ints(vs));
      p := mem.next;
      if Tracked() {
        FreshDistinct(mem, allocs, 1);
      }
      mem := Malloc(mem, CInt, |vs|);
      allocs := allocs + [p];
      mem := StoreInts(mem, p, vs);
    }

    /** The three tracked buffers of `allocateColumns`, placed from the fresh address `p` on. */
    method TrackColumns(cs: seq<real>, lbs: seq<real>, ubs: seq<real>) returns (p: Ptr)
      requires Valid()
      modifies this`allocs, this`mem
      ensures Valid() && (old(Tracked()) ==> Tracked())
      ensures p == old(mem.next) && allocs == old(allocs) + Fresh(p, 3)
      ensures mem == PlaceAll(old(mem), ColumnBlocks(cs, lbs, ubs))
    {
      ghost var h0 := mem;
      p := TrackDoubles(cs);
      var pLb := TrackDoubles(lbs);
      var pUb := TrackDoubles(ubs);
      PlaceAllSnoc(h0, [], Doubles(cs));
      PlaceAllSnoc(h0, [Doubles(cs)], Doubles(lbs));
      PlaceAllSnoc(h0, [Doubles(cs), Doubles(lbs)], Doubles(ubs));
      assert [] + [Doubles(cs)] == [Doubles(cs)];
      assert [Doubles(cs)] + [Doubles(lbs)] == [Doubles(cs), Doubles(lbs)];
      assert [Doubles(cs), Doubles(lbs)] + [Doubles(ubs)] == ColumnBlocks(cs, lbs, ubs);
      assert Fresh(p, 3) == [p, pLb, pUb];
    }

    /**
     * `allocateColumns`: fewer columns than bound pairs or more are errors that
     * allocate nothing; otherwise the costs, the lower bounds and the upper
     * bounds are placed, tracked and recorded in `ptrs`.
     */
    method AllocateColumns() returns (err: Option<string>)
      requires Valid()
      modifies this`allocs, this`mem, this`ptrs
      ensures Valid() && (old(Tracked()) ==> Tracked())
      ensures err == if |cols| < |bounds| then Some(ErrUnderBounded)
                     else if |cols| > |bounds| then Some(ErrOverBounded)
                     else None
      ensures State() == ColumnStep(old(State()), cols, bounds)
    {
      var n := |cols|;
      if n < |bounds| {
        err := Some(ErrUnderBounded);
      } else if n > |bounds| {
        err := Some(ErrOverBounded);
      } else {
        var lbs := GetLowerBounds();
        var ubs := GetUpperBounds();
        assert lbs == Firsts(bounds) && ubs == Seconds(bounds);
        var p := TrackColumns(cols, lbs, ubs);
        ptrs := ptrs.(pCols := Some(p), pColLbs := Some(p + 1), pColUbs := Some(p + 2));
        err := None;
      }
    }

    /** The five tracked buffers of `allocateRows`, placed from the fresh address `p` on. */
    method TrackRows(arStart: seq<int>, arIndex: seq<int>, arValue: seq<real>, lbs: seq<real>, ubs: seq<real>)
      returns (p: Ptr)
      requires Valid()
      modifies this`allocs, this`mem
      ensures Valid() && (old(Tracked()) ==> Tracked())
      ensures p == old(mem.next) && allocs == old(allocs) + Fresh(p, 5)
      ensures mem == PlaceAll(old(mem), RowBlocks(PackedMatrix(arStart, arIndex, arValue), lbs, ubs))
    {
      ghost var h0 := mem;
      ghost var bs: seq<Block> := [];
      p := TrackInts(arStart);
      PlaceAllSnoc(h0, bs, Ints(arStart));
      bs := bs + [Ints(arStart)];
      var pArIndex := TrackInts(arIndex);
      PlaceAllSnoc(h0, bs, Ints(arIndex));
      bs := bs + [Ints(arIndex)];
      var pArValue := TrackDoubles(arValue);
      PlaceAllSnoc(h0, bs, Doubles(arValue));
      bs := bs + [Doubles(arValue)];
      var pLb := TrackDoubles(lbs);
      PlaceAllSnoc(h0, bs, Doubles(lbs));
      bs := bs + [Doubles(lbs)];
      var pUb := TrackDoubles(ubs);
      PlaceAllSnoc(h0, bs, Doubles(ubs));
      bs := bs + [Doubles(ubs)];
      assert bs == RowBlocks(PackedMatrix(arStart, arIndex, arValue), lbs, ubs);
      assert Fresh(p, 5) == [p, pArIndex, pArValue, pLb, pUb];
    }

    /**
     * `allocateRows`: a first row whose width is not the column count plus the
     * two bounds is an error that allocates nothing; otherwise the rows are split
     * into coefficients and bounds, the coefficients are packed, and the packed
     * triple and the two bound vectors are placed, tracked and recorded in
     * `ptrs` with the two packed sizes. A model without rows panics.
     */
    method AllocateRows() returns (err: Option<string>)
      requires Valid() && RowsReadable(rows, cols)
      modifies this`allocs, this`mem, this`ptrs
      ensures Valid() && (old(Tracked()) ==> Tracked())
      ensures err == if |rows[0]| - 2 != |cols| then Some(ErrRowSize) else None
      ensures State() == RowStep(old(State()), rows, cols)
    {
      if |rows[0]| - 2 != |cols| {
        err := Some(ErrRowSize);
      } else {
        var coefficients, lbs, ubs := SeparateBounds(rows);
        var pm := PackMatrix(coefficients);
        ptrs := ptrs.(arStartSize := |pm.arStart|, arIndexSize := |pm.arIndex|);
        var p := TrackRows(pm.arStart, pm.arIndex, pm.arValue, lbs, ubs);
        ptrs := ptrs.(pArStart := Some(p), pArIndex := Some(p + 1), pArValue := Some(p + 2),
                      pRowLbs := Some(p + 3), pRowUbs := Some(p + 4));
        err := None;
      }
    }

    /**
     * `allocateIntegrality`: an integrality vector whose length is not the
     * column count is an error that allocates nothing (so is an empty one, for
     * an LP with columns); otherwise it is placed, tracked and recorded in `ptrs`.
     */
    method AllocateIntegrality() returns (err: Option<string>)
      requires Valid()
      modifies this`allocs, this`mem, this`ptrs
      ensures Valid() && (old(Tracked()) ==> Tracked())
      ensures err == if |cols| != |integrality| then Some(ErrIntegrality) else None
      ensures State() == IntegralityStep(old(State()), cols, integrality)
    {
      if |cols| != |integrality| {
        err := Some(ErrIntegrality);
      } else {
        ghost var h0 := mem;
        var p := TrackInts(integrality);
        ptrs := ptrs.(pIntg := Some(p));
        PlaceAllSnoc(h0, [], Ints(integrality));
        assert [] + [Ints(integrality)] == IntegralityPlan(cols, integrality);
        assert Fresh(p, 1) == [p];
        err := None;
      }
    }

    /**
     * `allocate`: the three steps in order, each one's error dropped, so the
     * buffers of a step that failed are simply missing and `ptrs` keeps what
     * it held before.
     */
    method Allocate()
      requires Valid() && RowsReadable(rows, cols)
      modifies this`allocs, this`mem, this`ptrs
      ensures Valid() && (old(Tracked()) ==> Tracked())
      ensures State() == Allocation(old(State()), cols, bounds, rows, integrality)
    {
      var _ := AllocateColumns();
      var _ := AllocateRows();
      var _ := AllocateIntegrality();
    }

    /** `PassLp`: hands the model's sizes and buffers to the engine and converts its status. */
    method PassLp(engineStatus: int) returns (s: SolutionStatus)
      modifies this`calls
      ensures calls == old(calls) + [PassModelCall(false, |cols|, |rows|, ptrs.arIndexSize, RowWise, ptrs)]
      ensures s as int == engineStatus
    {
      calls := calls + [PassModelCall(false, |cols|, |rows|, ptrs.arIndexSize, RowWise, ptrs)];
      s := engineStatus as SolutionStatus;
    }

    /** `PassMip`: as `PassLp`, with the integrality buffer as well. */
    method PassMip(engineStatus: int) returns (s: SolutionStatus)
      modifies this`calls
      ensures calls == old(calls) + [PassModelCall(true, |cols|, |rows|, ptrs.arIndexSize, RowWise, ptrs)]
      ensures s as int == engineStatus
    {
      calls := calls + [PassModelCall(true, |cols|, |rows|, ptrs.arIndexSize, RowWise, ptrs)];
      s := engineStatus as SolutionStatus;
    }

    /** `Run`: starts the engine and converts its status. */
    method Run(engineStatus: int) returns (s: SolutionStatus)
      modifies this`calls
      ensures calls == old(calls) + [RunCall]
      ensures s as int == engineStatus
    {
      calls := calls + [RunCall];
      s := engineStatus as SolutionStatus;
    }

    /** `GetModelStatus`: the engine's model status, which may be any integer. */
    method GetModelStatus(engineStatus: int) returns (s: ModelStatus)
      modifies this`calls
      ensures calls == old(calls) + [ModelStatusCall]
      ensures s as int == engineStatus
    {
      calls := calls + [ModelStatusCall];
      s := engineStatus as ModelStatus;
    }

    /** `SetObjectiveSense`: hands the sense to the engine. */
    method SetObjectiveSense(sense: Sense)
      modifies this`calls
      ensures calls == old(calls) + [ChangeSenseCall(sense)]
    {
      calls := calls + [ChangeSenseCall(sense)];
    }

    /**
     * `GetObjectiveSense`: a one-int buffer, tracked, that the engine fills with
     * its sense, which is read back. The buffer stays tracked until `Destroy`.
     */
    method GetObjectiveSense(engineSense: Sense) returns (s: Sense)
      requires Valid()
      modifies this`allocs, this`mem, this`calls
      ensures Valid() && (old(Tracked()) ==> Tracked())
      ensures s == engineSense
      ensures var p := old(mem.next);
        && allocs == old(allocs) + [p]
        && mem == Place(old(mem), Ints([engineSense as int]))
        && calls == old(calls) + [GetSenseCall(p)]
    {
      MallocStore(mem, Ints([engineSense as int]));
      var pS := mem.next;
      if Tracked() {
        FreshDistinct(mem, allocs, 1);
      }
      mem := Malloc(mem, CInt, 1);
      allocs := allocs + [pS];
      calls := calls + [GetSenseCall(pS)];
      mem := StoreInts(mem, pS, [engineSense as int]);
      s := mem.blocks[pS].ns[0] as Sense;
    }

    /** `cMalloc` of n doubles + `append` to `allocs`: a scratch buffer the engine writes into. */
    method Scratch(n: nat) returns (p: Ptr)
      requires Valid()
      modifies this`allocs, this`mem
      ensures Valid()
      ensures p == old(mem.next) && allocs == old(allocs) + [p]
      ensures mem == Place(old(mem), Doubles(ZeroDoubles(n)))
    {
      p := mem.next;
      mem := Malloc(mem, CDouble, n);
      allocs := allocs + [p];
    }

    /** The four scratch buffers of `GetSolution`, for n columns and m rows, from the fresh address `p` on. */
    method ScratchSolution(n: nat, m: nat) returns (p: Ptr)
      requires Valid()
      modifies this`allocs, this`mem
      ensures Valid()
      ensures p == old(mem.next) && allocs == old(allocs) + [p, p + 1, p + 2, p + 3]
      ensures mem == ScratchHeap(old(mem), n, m)
    {
      p := Scratch(n);
      var pColDual := Scratch(n);
      var pRowValue := Scratch(m);
      var pRowDual := Scratch(m);
      assert mem.blocks == old(mem.blocks)[p := Doubles(ZeroDoubles(n))][p + 1 := Doubles(ZeroDoubles(n))]
        [p + 2 := Doubles(ZeroDoubles(m))][p + 3 := Doubles(ZeroDoubles(m))];
    }

    /** `Highs_getSolution`: the engine writes the solution into the four scratch buffers from `p` on. */
    method FillSolution(p: Ptr, s: Solution)
      requires ScratchReady(mem, p, |s.colValue|, |s.rowValue|)
      requires |s.colDual| == |s.colValue| && |s.rowDual| == |s.rowValue|
      modifies this`mem, this`calls
      ensures calls == old(calls) + [SolutionCall(p, p + 1, p + 2, p + 3)]
      ensures mem == Filled(old(mem), p, s)
    {
      calls := calls + [SolutionCall(p, p + 1, p + 2, p + 3)];
      mem := StoreDoubles(mem, p, s.colValue);
      mem := StoreDoubles(mem, p + 1, s.colDual);
      mem := StoreDoubles(mem, p + 2, s.rowValue);
      mem := StoreDoubles(mem, p + 3, s.rowDual);
    }

    /** `copyDoubles` of n doubles from a live buffer, then `cFree` of it. */
    method ReadAndFree(p: Ptr, n: nat) returns (gs: seq<real>)
      requires p in mem.blocks && mem.blocks[p].Doubles? && n <= |mem.blocks[p].ds|
      modifies this`mem
      ensures gs == old(mem.blocks[p].ds[..n])
      ensures mem == Free(old(mem), p)
    {
      gs := CopyDoubles(mem, p, n);
      mem := Free(mem, p);
    }

    /** The copy-out half of `GetSolution`: each filled buffer is copied and then freed, in order. */
    method ReadSolution(p: Ptr, n: nat, m: nat) returns (s: Solution)
      requires ScratchReady(mem, p, n, m)
      modifies this`mem
      ensures s == Solution(old(mem.blocks[p].ds), old(mem.blocks[p + 1].ds), old(mem.blocks[p + 2].ds), old(mem.blocks[p + 3].ds))
      ensures mem == Released(old(mem), p)
    {
      FreeFour(mem, p);
      s := EmptySolution;
      var cv := ReadAndFree(p, n);
      s := s.(colValue := cv);
      var cd := ReadAndFree(p + 1, n);
      s := s.(colDual := cd);
      var rv := ReadAndFree(p + 2, m);
      s := s.(rowValue := rv);
      var rd := ReadAndFree(p + 3, m);
      s := s.(rowDual := rd);
      assert cv == old(mem.blocks[p].ds) && cd == old(mem.blocks[p + 1].ds);
    }

    /**
     * `GetSolution`: four scratch buffers sized from the current column and row
     * counts, tracked, filled by the engine, copied out element by element and
     * freed. The engine's values come back unchanged. The freed buffers are
     * still in `allocs`, so the registry is no longer `Tracked()` afterwards and
     * `Destroy` will free them a second time.
     */
    method GetSolution(colValue: seq<real>, colDual: seq<real>, rowValue: seq<real>, rowDual: seq<real>)
      returns (s: Solution)
      requires Valid()
      requires |colValue| == |colDual| == |cols| && |rowValue| == |rowDual| == |rows|
      modifies this`allocs, this`mem, this`calls
      ensures Valid()
      ensures s == Solution(colValue, colDual, rowValue, rowDual)
      ensures State() == AfterSolution(old(State()))
      ensures var p := old(mem.next); calls == old(calls) + [SolutionCall(p, p + 1, p + 2, p + 3)]
      ensures !Tracked()
    {
      var n := |cols|;
      var m := |rows|;
      var sol := Solution(colValue, colDual, rowValue, rowDual);
      SolutionScratchCycle(mem, sol);
      var p := ScratchSolution(n, m);
      FillSolution(p, sol);
      s := ReadSolution(p, n, m);
      assert allocs[|old(allocs)|] == p && p !in mem.blocks;
    }
    /**
     * What `runLpSolver` and `runMipsSolver` do once the model is passed: run
     * the engine and read its model status; only an optimal model has its
     * solution read, and any other status becomes an error naming it.
     */
    method Solve(runStatus: int, modelStatus: int, engine: Solution) returns (s: Solution, err: Option<string>)
      requires Valid()
      requires |engine.colValue| == |engine.colDual| == |cols| && |engine.rowValue| == |engine.rowDual| == |rows|
      modifies this`allocs, this`mem, this`calls
      ensures Valid()
      ensures var optimal := modelStatus == ModelOptimal as int;
        && calls == old(calls) + SolveCalls(optimal, old(mem.next))
        && State() == (if optimal then AfterSolution(old(State())) else old(State()))
        && (err.None? <==> optimal)
        && s == (if optimal then engine else EmptySolution)
        && (!optimal ==> err == Some(SolverError(modelStatus as ModelStatus)))
    {
      var _ := Run(runStatus);
      var status := GetModelStatus(modelStatus);
      if status == ModelOptimal {
        s := GetSolution(engine.colValue, engine.colDual, engine.rowValue, engine.rowDual);
        err := None;
      } else {
        s := EmptySolution;
        err := Some(SolverError(status));
      }
    }

    /** `runLpSolver`: passes the model as an LP, then solves. */
    method RunLpSolver(passStatus: int, runStatus: int, modelStatus: int, engine: Solution)
      returns (s: Solution, err: Option<string>)
      requires Valid()
      requires |engine.colValue| == |engine.colDual| == |cols| && |engine.rowValue| == |engine.rowDual| == |rows|
      modifies this`allocs, this`mem, this`calls
      ensures Valid()
      ensures var optimal := modelStatus == ModelOptimal as int;
        && calls == old(calls) + [PassModelCall(false, |cols|, |rows|, ptrs.arIndexSize, RowWise, ptrs)] + SolveCalls(optimal, old(mem.next))
        && State() == (if optimal then AfterSolution(old(State())) else old(State()))
        && (err.None? <==> optimal)
        && s == (if optimal then engine else EmptySolution)
        && (!optimal ==> err == Some(SolverError(modelStatus as ModelStatus)))
    {
      var _ := PassLp(passStatus);
      s, err := Solve(runStatus, modelStatus, engine);
    }

    /** `runMipsSolver`: passes the model as a MIP, integrality included, then solves. */
    method RunMipsSolver(passStatus: int, runStatus: int, modelStatus: int, engine: Solution)
      returns (s: Solution, err: Option<string>)
      requires Valid()
      requires |engine.colValue| == |engine.colDual| == |cols| && |engine.rowValue| == |engine.rowDual| == |rows|
      modifies this`allocs, this`mem, this`calls
      ensures Valid()
      ensures var optimal := modelStatus == ModelOptimal as int;
        && calls == old(calls) + [PassModelCall(true, |cols|, |rows|, ptrs.arIndexSize, RowWise, ptrs)] + SolveCalls(optimal, old(mem.next))
        && State() == (if optimal then AfterSolution(old(State())) else old(State()))
        && (err.None? <==> optimal)
        && s == (if optimal then engine else EmptySolution)
        && (!optimal ==> err == Some(SolverError(modelStatus as ModelStatus)))
    {
      var _ := PassMip(passStatus);
      s, err := Solve(runStatus, modelStatus, engine);
    }

    /**
     * `RunSolver`: allocates the model (dropping every allocation error), then
     * takes the MIP path exactly when integrality is given and the LP path
     * otherwise. A solution comes back, with no error, only for an optimal
     * model; the engine is handed whatever pointers allocation left in `ptrs`.
     */
    method RunSolver(passStatus: int, runStatus: int, modelStatus: int, engine: Solution)
      returns (s: Solution, err: Option<string>)
      requires Valid() && RowsReadable(rows, cols)
      requires |engine.colValue| == |engine.colDual| == |cols| && |engine.rowValue| == |engine.rowDual| == |rows|
      modifies this`allocs, this`mem, this`ptrs, this`calls
      ensures Valid()
      ensures var g, optimal := Allocation(old(State()), cols, bounds, rows, integrality), modelStatus == ModelOptimal as int;
        && calls == old(calls) + [PassModelCall(|integrality| > 0, |cols|, |rows|, g.ptrs.arIndexSize, RowWise, g.ptrs)]
                                + SolveCalls(optimal, g.mem.next)
        && State() == (if optimal then AfterSolution(g) else g)
        && (err.None? <==> optimal)
        && s == (if optimal then engine else EmptySolution)
        && (!optimal ==> err == Some(SolverError(modelStatus as ModelStatus)))
    {
      Allocate();
      if |integrality| > 0 {
        s, err := RunMipsSolver(passStatus, runStatus, modelStatus, engine);
      } else {
        s, err := RunLpSolver(passStatus, runStatus, modelStatus, engine);
      }
    }

    /** The shape check of the corrected allocation: the row widths are checked one by one. */
    method CheckShape() returns (err: Option<string>)
      ensures err == ShapeError(cols, bounds, rows, integrality)
    {
      if |cols| < |bounds| {
        err := Some(ErrUnderBounded);
      } else if |cols| > |bounds| {
        err := Some(ErrOverBounded);
      } else if |rows| == 0 {
        err := Some(ErrNoRows);
      } else {
        var i := 0;
        while i < |rows| && |rows[i]| == |cols| + 2
          invariant 0 <= i <= |rows|
          invariant forall k :: 0 <= k < i ==> |rows[k]| == |cols| + 2
        {
          i := i + 1;
        }
        if i < |rows| {
          err := Some(ErrRowSize);
        } else if |integrality| != 0 && |integrality| != |cols| {
          err := Some(ErrIntegrality);
        } else {
          err := None;
        }
      }
    }

    /**
     * `allocate` as evidently intended: the whole model is checked first and
     * the first problem is returned with nothing allocated; a well-shaped
     * model is allocated in full.
     */
    method AllocateChecked() returns (err: Option<string>)
      requires Valid()
      modifies this`allocs, this`mem, this`ptrs
      ensures Valid() && (old(Tracked()) ==> Tracked())
      ensures err == ShapeError(cols, bounds, rows, integrality)
      ensures err.Some? ==> State() == old(State())
      ensures err.None? ==> RowsReadable(rows, cols) && State() == Allocation(old(State()), cols, bounds, rows, integrality)
      ensures err.None? ==> ModelPlaced(ptrs)
    {
      err := CheckShape();
      if err.None? {
        WellShapedAllocates(State(), cols, bounds, rows, integrality);
        Allocate();
      }
    }

    /** Four untracked scratch buffers for n columns and m rows, from the fresh address `p` on. */
    method UntrackedScratch(n: nat, m: nat) returns (p: Ptr)
      requires Valid()
      modifies this`mem
      ensures Valid()
      ensures p == old(mem.next) && mem == ScratchHeap(old(mem), n, m)
    {
      p := mem.next;
      mem := Malloc(mem, CDouble, n);
      mem := Malloc(mem, CDouble, n);
      mem := Malloc(mem, CDouble, m);
      mem := Malloc(mem, CDouble, m);
      assert mem.blocks == old(mem.blocks)[p := Doubles(ZeroDoubles(n))][p + 1 := Doubles(ZeroDoubles(n))]
        [p + 2 := Doubles(ZeroDoubles(m))][p + 3 := Doubles(ZeroDoubles(m))];
    }

    /**
     * `GetSolution` as evidently intended: the scratch buffers are freed where
     * they are read and never tracked, so the registry stays clean.
     */
    method GetSolutionScoped(colValue: seq<real>, colDual: seq<real>, rowValue: seq<real>, rowDual: seq<real>)
      returns (s: Solution)
      requires Valid()
      requires |colValue| == |colDual| == |cols| && |rowValue| == |rowDual| == |rows|
      modifies this`mem, this`calls
      ensures Valid() && (old(Tracked()) ==> Tracked())
      ensures s == Solution(colValue, colDual, rowValue, rowDual)
      ensures allocs == old(allocs) && mem == AfterSolution(old(State())).mem
      ensures var p := old(mem.next); calls == old(calls) + [SolutionCall(p, p + 1, p + 2, p + 3)]
    {
      var sol := Solution(colValue, colDual, rowValue, rowDual);
      SolutionScratchCycle(mem, sol);
      var p := UntrackedScratch(|cols|, |rows|);
      FillSolution(p, sol);
      s := ReadSolution(p, |cols|, |rows|);
    }

    /** `Solve` over the scoped solution read. */
    method SolveScoped(runStatus: int, modelStatus: int, engine: Solution) returns (s: Solution, err: Option<string>)
      requires Valid()
      requires |engine.colValue| == |engine.colDual| == |cols| && |engine.rowValue| == |engine.rowDual| == |rows|
      modifies this`mem, this`calls
      ensures Valid() && (old(Tracked()) ==> Tracked())
      ensures var optimal := modelStatus == ModelOptimal as int;
        && calls == old(calls) + SolveCalls(optimal, old(mem.next))
        && allocs == old(allocs)
        && mem == (if optimal then AfterSolution(old(State())).mem else old(mem))
        && (err.None? <==> optimal)
        && s == (if optimal then engine else EmptySolution)
        && (!optimal ==> err == Some(SolverError(modelStatus as ModelStatus)))
    {
      var _ := Run(runStatus);
      var status := GetModelStatus(modelStatus);
      if status == ModelOptimal {
        s := GetSolutionScoped(engine.colValue, engine.colDual, engine.rowValue, engine.rowDual);
        err := None;
      } else {
        s := EmptySolution;
        err := Some(SolverError(status));
      }
    }

    /** The corrected solver path after allocation: the model goes to the engine as a MIP exactly when integrality is given. */
    method PassAndSolveScoped(passStatus: int, runStatus: int, modelStatus: int, engine: Solution)
      returns (s: Solution, err: Option<string>)
      requires Valid()
      requires |engine.colValue| == |engine.colDual| == |cols| && |engine.rowValue| == |engine.rowDual| == |rows|
      modifies this`mem, this`calls
      ensures Valid() && (old(Tracked()) ==> Tracked())
      ensures var optimal := modelStatus == ModelOptimal as int;
        && calls == old(calls) + [PassModelCall(|integrality| > 0, |cols|, |rows|, ptrs.arIndexSize, RowWise, ptrs)]
                                + SolveCalls(optimal, old(mem.next))
        && State() == ScopedSolve(old(State()), optimal)
        && (err.None? <==> optimal)
        && s == (if optimal then engine else EmptySolution)
        && (!optimal ==> err == Some(SolverError(modelStatus as ModelStatus)))
    {
      if |integrality| > 0 {
        var _ := PassMip(passStatus);
      } else {
        var _ := PassLp(passStatus);
      }
      s, err := SolveScoped(runStatus, modelStatus, engine);
    }

    /** The corrected solver path for a well-shaped model: allocate it in full, pass it, solve. */
    method AllocateAndSolveScoped(passStatus: int, runStatus: int, modelStatus: int, engine: Solution)
      returns (s: Solution, err: Option<string>)
      requires Valid() && WellShaped(cols, bounds, rows, integrality)
      requires |engine.colValue| == |engine.colDual| == |cols| && |engine.rowValue| == |engine.rowDual| == |rows|
      modifies this`allocs, this`mem, this`ptrs, this`calls
      ensures Valid() && (old(Tracked()) ==> Tracked())
      ensures RowsReadable(rows, cols)
      ensures var g, optimal := Allocation(old(State()), cols, bounds, rows, integrality), modelStatus == ModelOptimal as int;
        && calls == old(calls) + [PassModelCall(|integrality| > 0, |cols|, |rows|, g.ptrs.arIndexSize, RowWise, g.ptrs)]
                                + SolveCalls(optimal, g.mem.next)
        && State() == ScopedSolve(g, optimal)
        && (err.None? <==> optimal)
        && s == (if optimal then engine else EmptySolution)
        && (!optimal ==> err == Some(SolverError(modelStatus as ModelStatus)))
    {
      WellShapedAllocates(State(), cols, bounds, rows, integrality);
      Allocate();
      s, err := PassAndSolveScoped(passStatus, runStatus, modelStatus, engine);
    }

    /**
     * `RunSolver` as evidently intended: a model with a shape problem is
     * refused before anything is allocated or passed; otherwise the engine is
     * handed every buffer of the model, and the registry stays clean.
     */
    method RunSolverChecked(passStatus: int, runStatus: int, modelStatus: int, engine: Solution)
      returns (s: Solution, err: Option<string>)
      requires Valid()
      requires |engine.colValue| == |engine.colDual| == |cols| && |engine.rowValue| == |engine.rowDual| == |rows|
      modifies this`allocs, this`mem, this`ptrs, this`calls
      ensures Valid() && (old(Tracked()) ==> Tracked())
      ensures ShapeError(cols, bounds, rows, integrality).Some? ==>
        && s == EmptySolution && err == ShapeError(cols, bounds, rows, integrality)
        && State() == old(State()) && calls == old(calls)
      ensures ShapeError(cols, bounds, rows, integrality).None? ==>
        && RowsReadable(rows, cols)
        && var g, optimal := Allocation(old(State()), cols, bounds, rows, integrality), modelStatus == ModelOptimal as int;
        && calls == old(calls) + [PassModelCall(|integrality| > 0, |cols|, |rows|, g.ptrs.arIndexSize, RowWise, g.ptrs)]
                                + SolveCalls(optimal, g.mem.next)
        && State() == ScopedSolve(g, optimal)
        && (err.None? <==> optimal)
        && s == (if optimal then engine else EmptySolution)
        && (!optimal ==> err == Some(SolverError(modelStatus as ModelStatus)))
    {
      err := CheckShape();
      if err.Some? {
        s := EmptySolution;
      } else {
        s, err := AllocateAndSolveScoped(passStatus, runStatus, modelStatus, engine);
      }
    }
  }


  /**
   * A model with one column but no bound pair, whose one row fits, on a fresh
   * object: `RunSolver` can run it, yet allocation leaves the column pointers
   * nil, so the engine is handed a nil cost pointer and, for an optimal
   * status, `RunSolver` still reports no error.
   */
  lemma DroppedErrorWitness()
    ensures var cols, bounds, rows, integrality := [1.0], [], [[0.0, 2.0, 5.0]], [];
      && RowsReadable(rows, cols)
      && var r := Allocation(Registry(EmptyHeap, [], NoPtrs), cols, bounds, rows, integrality).ptrs;
      && !ModelPlaced(r)
      && r.pCols.None? && r.pColLbs.None? && r.pColUbs.None?
      && r.pArStart.Some? && r.pArIndex.Some? && r.pArValue.Some? && r.pRowLbs.Some? && r.pRowUbs.Some?
  {
    var cols: seq<real>, rows: seq<seq<real>> := [1.0], [[0.0, 2.0, 5.0]];
    assert RowsReadable(rows, cols) by {
      assert |rows[0]| == 3;
    }
    AllocationKeepsColumnPtrs(Registry(EmptyHeap, [], NoPtrs), cols, [], rows, []);
  }

  /**
   * A fresh registry given columns without bound pairs and rows that fit:
   * after allocation and the solution read, the column pointers are nil and
   * the five row pointers are set.
   */
  lemma DroppedPtrs(cols: seq<real>, rows: seq<seq<real>>)
    requires |cols| > 0 && |rows| > 0 && forall i :: 0 <= i < |rows| ==> |rows[i]| == |cols| + 2
    ensures RowsReadable(rows, cols)
    ensures var r := AfterSolution(Allocation(Registry(EmptyHeap, [], NoPtrs), cols, [], rows, [])).ptrs;
      && r.pCols.None? && r.pColLbs.None? && r.pColUbs.None?
      && r.pArStart.Some? && r.pArIndex.Some? && r.pArValue.Some? && r.pRowLbs.Some? && r.pRowUbs.Some?
  {
    assert |rows[0]| == |cols| + 2;
    AllocationKeepsColumnPtrs(Registry(EmptyHeap, [], NoPtrs), cols, [], rows, []);
  }

  /**
   * Any model with columns but no bound pairs, whose rows all fit, run through
   * `RunSolver` on a fresh object with an optimal status: the pointers handed
   * to the engine hold nil column buffers next to the placed rows, and no
   * error comes back.
   */
  method DroppedErrorRun(cols: seq<real>, rows: seq<seq<real>>, engine: Solution) returns (passed: Ptrs, err: Option<string>)
    requires |cols| > 0 && |rows| > 0 && forall i :: 0 <= i < |rows| ==> |rows[i]| == |cols| + 2
    requires |engine.colValue| == |engine.colDual| == |cols| && |engine.rowValue| == |engine.rowDual| == |rows|
    ensures passed.pCols.None? && passed.pColLbs.None? && passed.pColUbs.None?
    ensures passed.pArStart.Some? && passed.pArIndex.Some? && passed.pArValue.Some?
    ensures passed.pRowLbs.Some? && passed.pRowUbs.Some?
    ensures err.None?
  {
    DroppedPtrs(cols, rows);
    var h := NewModel(cols, rows);
    var _, e := h.RunSolver(1, 1, ModelOptimal as int, engine);
    passed := h.ptrs;
    err := e;
  }

  /** `New`, then `SetColumns` and `SetRows`: a fresh object holding the model, with nothing allocated. */
  method NewModel(cols: seq<real>, rows: seq<seq<real>>) returns (h: Highs)
    ensures fresh(h) && h.Valid() && h.obj.Some?
    ensures h.State() == Registry(EmptyHeap, [], NoPtrs)
    ensures h.cols == cols && h.rows == rows && h.bounds == [] && h.integrality == []
  {
    h := new Highs(Some(0));
    h.SetColumns(cols);
    h.SetRows(rows);
  }

  /**
   * Any model set on a fresh object, read back once and then destroyed: the
   * four scratch buffers of `GetSolution` are freed twice, the second time by
   * `Destroy`.
   */
  method DoubleFreeWitness(cols: seq<real>, rows: seq<seq<real>>, engine: Solution) returns (invalid: seq<Ptr>)
    requires |engine.colValue| == |engine.colDual| == |cols| && |engine.rowValue| == |engine.rowDual| == |rows|
    ensures invalid == [0, 1, 2, 3]
  {
    var h := NewModel(cols, rows);
    DestroyAfterSolution(h.State());
    var _ := h.GetSolution(engine.colValue, engine.colDual, engine.rowValue, engine.rowDual);
    h.Destroy();
    invalid := h.mem.invalidFrees;
  }
}
