/**
 * The `Highs` object of the root package (highs.go): it owns an engine handle
 * made by the C shim, and an `allocs` list of every C buffer it has handed to
 * the engine, which `Free` drains. Engine calls are not modelled: each one is
 * recorded in a ghost log, and the value it returns is a parameter.
 */
module HighsInterface {
  import opened Results
  import opened Memory
  import opened Packing
  import opened Layout

  /** The handle `highsiface_create` returned. */
  type EngineRef = nat

  /** The calls made into the C shim, with the counts and buffers passed. */
  datatype Call =
    | AddColsCall(numCol: int, pCols: Ptr, pLb: Ptr, pUb: Ptr)
    | AddRowsCall(numRow: int, pLb: Ptr, pUb: Ptr, numNz: int, pArStart: Ptr, pArIndex: Ptr, pArValue: Ptr)
    | RunCall
    | FreeCall

  /** `packRows`: the packing loop, returned as a triple instead of a record. */
  method PackRows(rows: seq<seq<real>>) returns (arStart: seq<int>, arIndex: seq<int>, arValue: seq<real>)
    ensures PackedMatrix(arStart, arIndex, arValue) == Pack(rows)
  {
    var pm := PackMatrix(rows);
    arStart, arIndex, arValue := pm.arStart, pm.arIndex, pm.arValue;
  }

  /** The errors the methods return, as the wrapper spells them (the engine's 0 printed with `%d`). */
  const ErrColumnLengths := "all slice parameters must be equal length."
  const ErrAddColumns := "unable to add columns; returned error: 0"
  const ErrRowBounds := "an upper and lower bound must be specified for all rows, len(row[0]) != len(ub) or len(lb)"
  const ErrAddRows := "unable to add rows; returned error: 0"

  class Highs {
    var matrix: Option<EngineRef>
    var allocs: seq<Ptr>
    var mem: Heap
    ghost var calls: seq<Call>

    /** Every tracked buffer is live and tracked once: `Free` can release them all exactly once. */
    ghost predicate Valid()
      reads this
    {
      && Memory.Valid(mem)
      && Distinct(allocs)
      && (forall p :: p in allocs ==> p in mem.blocks)
    }

    /** `New`: a fresh engine handle (whatever `highsiface_create` returned) and nothing tracked. */
    constructor (created: Option<EngineRef>)
      ensures Valid()
      ensures matrix == created && allocs == [] && mem == EmptyHeap && calls == []
    {
      matrix := created;
      allocs := [];
      mem := EmptyHeap;
      calls := [];
    }

    /** `Free`: releases the engine and every tracked buffer, once; a second call does nothing. */
    method Free()
      requires Valid()
      modifies this
      ensures Valid()
      ensures old(matrix).None? ==>
        matrix == old(matrix) && allocs == old(allocs) && mem == old(mem) && calls == old(calls)
      ensures old(matrix).Some? ==>
        && matrix == None && allocs == [] && calls == old(calls) + [FreeCall]
        && mem == FreeAll(old(mem), old(allocs))
        && mem.blocks == old(mem.blocks) - (set p | p in old(allocs))
        && mem.invalidFrees == old(mem.invalidFrees)
    {
      if matrix.Some? {
        calls := calls + [FreeCall];
        matrix := None;
        FreeAllEffect(mem, allocs);
        FreeAllClean(mem, allocs);
        mem := FreeEach(mem, allocs);
        allocs := [];
      }
    }

    /** `cMalloc` + `append` to `allocs` + `cSetArrayDoubles`: the buffer is placed and tracked. */
    method TrackDoubles(vs: seq<real>) returns (p: Ptr)
      requires Valid()
      modifies this`allocs, this`mem
      ensures Valid()
      ensures p == old(mem.next) && allocs == old(allocs) + [p]
      ensures mem == Place(old(mem), Doubles(vs))
    {
      MallocStore(mem, Doubles(vs));
      FreshDistinct(mem, allocs, 1);
      p := mem.next;
      mem := Malloc(mem, CDouble, |vs|);
      allocs := allocs + [p];
      mem := StoreDoubles(mem, p, vs);
    }

    /** `cMalloc` + `append` to `allocs` + `cSetArrayInts`: the buffer is placed and tracked. */
    method TrackInts(vs: seq<int>) returns (p: Ptr)
      requires Valid()
      modifies this`allocs, this`mem
      ensures Valid()
      ensures p == old(mem.next) && allocs == old(allocs) + [p]
      ensures mem == Place(old(mem), Ints(vs))
    {
      MallocStore(mem, Ints(vs));
      FreshDistinct(mem, allocs, 1);
      p := mem.next;
      mem := Malloc(mem, CInt, |vs|);
      allocs := allocs + [p];
      mem := StoreInts(mem, p, vs);
    }

    /**
     * `AddColumns`: refuses mismatched lengths before allocating anything;
     * otherwise places and tracks three buffers holding costs and bounds, hands
     * them to the engine, and reports an error iff the engine returned 0. The
     * buffers stay tracked either way.
     */
    method AddColumns(cols: seq<real>, lb: seq<real>, ub: seq<real>, engineResult: int) returns (err: Option<string>)
      requires Valid()
      modifies this`allocs, this`mem, this`calls
      ensures Valid()
      ensures !(|cols| == |lb| == |ub|) ==>
        && err == Some(ErrColumnLengths)
        && allocs == old(allocs) && mem == old(mem) && calls == old(calls)
      ensures |cols| == |lb| == |ub| ==>
        var p := old(mem.next);
        && mem == PlaceAll(old(mem), ColumnBlocks(cols, lb, ub))
        && allocs == old(allocs) + Fresh(p, 3)
        && calls == old(calls) + [AddColsCall(|cols|, p, p + 1, p + 2)]
        && (err == if engineResult == 0 then Some(ErrAddColumns) else None)
    {
      var n := |cols|;
      if n != |lb| || n != |ub| {
        err := Some(ErrColumnLengths);
      } else {
        ghost var h0 := mem;
        var pCols := TrackDoubles(cols);
        var pLb := TrackDoubles(lb);
        var pUb := TrackDoubles(ub);
        PlaceAllSnoc(h0, [], Doubles(cols));
        PlaceAllSnoc(h0, [Doubles(cols)], Doubles(lb));
        PlaceAllSnoc(h0, [Doubles(cols), Doubles(lb)], Doubles(ub));
        assert [] + [Doubles(cols)] == [Doubles(cols)];
        assert [Doubles(cols)] + [Doubles(lb)] == [Doubles(cols), Doubles(lb)];
        assert [Doubles(cols), Doubles(lb)] + [Doubles(ub)] == [Doubles(cols), Doubles(lb), Doubles(ub)];
        assert Fresh(pCols, 3) == [pCols, pLb, pUb];
        assert ColumnBlocks(cols, lb, ub) == [Doubles(cols), Doubles(lb), Doubles(ub)];
        calls := calls + [AddColsCall(n, pCols, pLb, pUb)];
        err := if engineResult == 0 then Some(ErrAddColumns) else None;
      }
    }

    /**
     * The allocation half of `AddRows`: places and tracks `arStart`, `arIndex`,
     * `arValue`, `lb` and `ub`, in that order, from the fresh address `p` on.
     */
    method TrackRows(arStart: seq<int>, arIndex: seq<int>, arValue: seq<real>, lb: seq<real>, ub: seq<real>)
      returns (p: Ptr)
      requires Valid()
      modifies this`allocs, this`mem
      ensures Valid()
      ensures p == old(mem.next) && allocs == old(allocs) + Fresh(p, 5)
      ensures mem == PlaceAll(old(mem), RowBlocks(PackedMatrix(arStart, arIndex, arValue), lb, ub))
    {
      ghost var h0 := mem;
      ghost var bs: seq<Block> := [];
      p := TrackInts(arStart);
      PlaceAllSnoc(h0, bs, Ints(arStart));
      bs := bs + [Ints(arStart)];
      var pArIndex := TrackInts(arIndex);
      PlaceAllSnoc(h0, bs, Ints(arIndex));
      bs := bs + [Ints(arIndex)];
      var pArValue := TrackDoubles(arValue);
      PlaceAllSnoc(h0, bs, Doubles(arValue));
      bs := bs + [Doubles(arValue)];
      var pLb := TrackDoubles(lb);
      PlaceAllSnoc(h0, bs, Doubles(lb));
      bs := bs + [Doubles(lb)];
      var pUb := TrackDoubles(ub);
      PlaceAllSnoc(h0, bs, Doubles(ub));
      bs := bs + [Doubles(ub)];
      assert bs == RowBlocks(PackedMatrix(arStart, arIndex, arValue), lb, ub);
      assert Fresh(p, 5) == [p, pArIndex, pArValue, pLb, pUb];
    }

    /**
     * `AddRows`: refuses bound vectors whose length is not the row count before
     * allocating anything; otherwise packs the rows, places and tracks five
     * buffers (`arStart`, `arIndex`, `arValue`, `lb`, `ub`, in that order), hands
     * them to the engine with `nnz = |arIndex|`, and reports an error iff the
     * engine returned 0.
     */
    method AddRows(rows: seq<seq<real>>, lb: seq<real>, ub: seq<real>, engineResult: int) returns (err: Option<string>)
      requires Valid()
      modifies this`allocs, this`mem, this`calls
      ensures Valid()
      ensures !(|rows| == |lb| == |ub|) ==>
        && err == Some(ErrRowBounds)
        && allocs == old(allocs) && mem == old(mem) && calls == old(calls)
      ensures |rows| == |lb| == |ub| ==>
        var p := old(mem.next);
        var pm := Pack(rows);
        && mem == PlaceAll(old(mem), RowBlocks(pm, lb, ub))
        && allocs == old(allocs) + Fresh(p, 5)
        && calls == old(calls) + [AddRowsCall(|rows|, p + 3, p + 4, |pm.arIndex|, p, p + 1, p + 2)]
        && (err == if engineResult == 0 then Some(ErrAddRows) else None)
    {
      var n := |rows|;
      if n != |lb| || n != |ub| {
        err := Some(ErrRowBounds);
      } else {
        var arStart, arIndex, arValue := PackRows(rows);
        var pArStart := TrackRows(arStart, arIndex, arValue, lb, ub);
        var pArIndex, pArValue, pLb, pUb := pArStart + 1, pArStart + 2, pArStart + 3, pArStart + 4;
        calls := calls + [AddRowsCall(n, pLb, pUb, |arIndex|, pArStart, pArIndex, pArValue)];
        err := if engineResult == 0 then Some(ErrAddRows) else None;
      }
    }

    /** `Run`: starts the engine and always reports success. */
    method Run() returns (err: Option<string>)
      modifies this`calls
      ensures calls == old(calls) + [RunCall]
      ensures err == None
    {
      calls := calls + [RunCall];
      err := None;
    }
  }
}
