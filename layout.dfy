/**
 * The buffers each allocation step of the two `Highs` objects hands to the
 * engine, in the order the wrapper allocates them. Both packages lay columns
 * and rows out the same way.
 */
module Layout {
  import opened Memory
  import opened Packing

  /** Column costs, then lower bounds, then upper bounds. */
  function ColumnBlocks(cols: seq<real>, lb: seq<real>, ub: seq<real>): seq<Block>
  {
    [Doubles(cols), Doubles(lb), Doubles(ub)]
  }

  /** The packed triple (`arStart`, `arIndex`, `arValue`), then row lower and upper bounds. */
  function RowBlocks(pm: PackedMatrix, lb: seq<real>, ub: seq<real>): seq<Block>
  {
    [Ints(pm.arStart), Ints(pm.arIndex), Doubles(pm.arValue), Doubles(lb), Doubles(ub)]
  }

  /** After placing the column buffers, the three fresh addresses hold costs, lower and upper bounds. */
  lemma ColumnBlocksHold(h: Heap, cols: seq<real>, lb: seq<real>, ub: seq<real>)
    requires Valid(h)
    ensures var r := PlaceAll(h, ColumnBlocks(cols, lb, ub));
      && HoldsDoubles(r, h.next, cols)
      && HoldsDoubles(r, h.next + 1, lb)
      && HoldsDoubles(r, h.next + 2, ub)
      && r.next == h.next + 3
  {
    PlaceAllEffect(h, ColumnBlocks(cols, lb, ub));
    assert ColumnBlocks(cols, lb, ub)[0] == Doubles(cols);
    assert ColumnBlocks(cols, lb, ub)[1] == Doubles(lb);
    assert ColumnBlocks(cols, lb, ub)[2] == Doubles(ub);
  }

  /** After placing the row buffers, the five fresh addresses hold the packed matrix and the row bounds. */
  lemma RowBlocksHold(h: Heap, pm: PackedMatrix, lb: seq<real>, ub: seq<real>)
    requires Valid(h)
    ensures var r := PlaceAll(h, RowBlocks(pm, lb, ub));
      && HoldsInts(r, h.next, pm.arStart)
      && HoldsInts(r, h.next + 1, pm.arIndex)
      && HoldsDoubles(r, h.next + 2, pm.arValue)
      && HoldsDoubles(r, h.next + 3, lb)
      && HoldsDoubles(r, h.next + 4, ub)
      && r.next == h.next + 5
  {
    var bs := RowBlocks(pm, lb, ub);
    PlaceAllEffect(h, bs);
    assert bs[0] == Ints(pm.arStart) && bs[1] == Ints(pm.arIndex) && bs[2] == Doubles(pm.arValue);
    assert bs[3] == Doubles(lb) && bs[4] == Doubles(ub);
  }
}
