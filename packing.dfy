/**
 * The two pure transforms the wrapper applies before handing a model to the
 * engine: the row packer (`packMatrix` / `packRows`), which turns dense rows into
 * the row-wise compressed triple `(arStart, arIndex, arValue)`, and the bound
 * splitter (`separateBounds`), which cuts augmented rows `[lb, coeffs.., ub]` into
 * coefficient rows and two bound vectors. Coefficients are opaque values: the
 * only operations the wrapper performs on them are `!= 0` and copying.
 */
module Packing {

  /** Row-wise compressed matrix: `arStart[i]` is the offset of row i's segment. */
  datatype PackedMatrix = PackedMatrix(arStart: seq<int>, arIndex: seq<int>, arValue: seq<real>)

  /** Positions of the nonzero entries of `row`, left to right. */
  function RowIndex(row: seq<real>): seq<int>
  {
    if row == [] then []
    else RowIndex(row[..|row| - 1]) + (if row[|row| - 1] != 0.0 then [|row| - 1] else [])
  }

  /** The nonzero entries of `row`, left to right. */
  function RowValues(row: seq<real>): (r: seq<real>)
    ensures |r| == |RowIndex(row)|
  {
    if row == [] then []
    else RowValues(row[..|row| - 1]) + (if row[|row| - 1] != 0.0 then [row[|row| - 1]] else [])
  }

  /**
   * What one row contributes to the packed arrays: exactly its nonzero positions,
   * strictly increasing and in range, each paired with the (nonzero) value there.
   */
  lemma {:induction false} RowEntries(row: seq<real>)
    ensures |RowIndex(row)| == |RowValues(row)|
    ensures forall i {:trigger i in RowIndex(row)} :: i in RowIndex(row) <==> 0 <= i < |row| && row[i] != 0.0
    ensures forall k :: 0 <= k < |RowIndex(row)| ==>
      0 <= RowIndex(row)[k] < |row| && RowValues(row)[k] == row[RowIndex(row)[k]] && RowValues(row)[k] != 0.0
    ensures forall j, k :: 0 <= j < k < |RowIndex(row)| ==> RowIndex(row)[j] < RowIndex(row)[k]
  {
    if row != [] {
      var init := row[..|row| - 1];
      RowEntries(init);
      assert forall i :: 0 <= i < |init| ==> init[i] == row[i];
    }
  }

  /** Number of nonzero coefficients in the first |m| rows. */
  function Nnz(m: seq<seq<real>>): nat
  {
    if m == [] then 0 else Nnz(m[..|m| - 1]) + |RowIndex(m[|m| - 1])|
  }

  /** The packed form, row by row in the order the packing loop appends it. */
  function Pack(m: seq<seq<real>>): PackedMatrix
  {
    if m == [] then PackedMatrix([], [], [])
    else
      var p := Pack(m[..|m| - 1]);
      var row := m[|m| - 1];
      PackedMatrix(p.arStart + [|p.arIndex|], p.arIndex + RowIndex(row), p.arValue + RowValues(row))
  }

  /** Appending a row extends the packed arrays by that row's segment. */
  lemma PackSnoc(m: seq<seq<real>>, row: seq<real>)
    ensures Pack(m + [row]) == PackedMatrix(Pack(m).arStart + [|Pack(m).arIndex|],
                                            Pack(m).arIndex + RowIndex(row),
                                            Pack(m).arValue + RowValues(row))
  {
    assert (m + [row])[..|m|] == m;
  }

  /** End offset of row i's segment: the next row's start, or the total count for the last row. */
  function SegmentEnd(p: PackedMatrix, i: nat): int
    requires i < |p.arStart|
  {
    if i + 1 < |p.arStart| then p.arStart[i + 1] else |p.arIndex|
  }

  /** Shape every packed matrix handed to the engine has. */
  ghost predicate WellFormed(p: PackedMatrix)
  {
    && |p.arIndex| == |p.arValue|
    && (forall i :: 0 <= i < |p.arStart| ==> 0 <= p.arStart[i] <= |p.arIndex|)
    && (forall i, j :: 0 <= i <= j < |p.arStart| ==> p.arStart[i] <= p.arStart[j])
    && (|p.arStart| > 0 ==> p.arStart[0] == 0)
  }

  /** One start per row, and as many indices and values as there are nonzero coefficients. */
  lemma {:induction false} PackShape(m: seq<seq<real>>)
    ensures |Pack(m).arStart| == |m|
    ensures |Pack(m).arIndex| == |Pack(m).arValue| == Nnz(m)
  {
    if m != [] {
      PackShape(m[..|m| - 1]);
    }
  }

  /** Row i starts after the nonzero coefficients of the rows before it. */
  lemma {:induction false} PackStarts(m: seq<seq<real>>)
    ensures |Pack(m).arStart| == |m|
    ensures forall i :: 0 <= i < |m| ==> Pack(m).arStart[i] == Nnz(m[..i])
  {
    PackShape(m);
    if m != [] {
      var init := m[..|m| - 1];
      PackStarts(init);
      PackShape(init);
      forall i | 0 <= i < |m|
        ensures Pack(m).arStart[i] == Nnz(m[..i])
      {
        if i < |init| {
          assert m[..i] == init[..i];
        } else {
          assert m[..i] == init;
        }
      }
    }
  }

  /** The packer's output is well formed: starts from 0, never decreasing, never past the end. */
  lemma {:induction false} PackWellFormed(m: seq<seq<real>>)
    ensures WellFormed(Pack(m))
  {
    PackShape(m);
    if m != [] {
      var init := m[..|m| - 1];
      PackWellFormed(init);
      PackShape(init);
      var q, p := Pack(init), Pack(m);
      assert p.arStart == q.arStart + [|q.arIndex|];
      assert |q.arIndex| <= |p.arIndex|;
      forall i, j | 0 <= i <= j < |p.arStart|
        ensures p.arStart[i] <= p.arStart[j]
      {
        if j < |q.arStart| {
          assert p.arStart[i] == q.arStart[i] && p.arStart[j] == q.arStart[j];
        }
      }
    }
  }

  /** Row i's segment of the packed arrays holds exactly row i's nonzero positions and values. */
  lemma {:induction false} PackSegment(m: seq<seq<real>>, i: nat)
    requires i < |m|
    ensures WellFormed(Pack(m)) && |Pack(m).arStart| == |m|
    ensures Pack(m).arIndex[Pack(m).arStart[i]..SegmentEnd(Pack(m), i)] == RowIndex(m[i])
    ensures Pack(m).arValue[Pack(m).arStart[i]..SegmentEnd(Pack(m), i)] == RowValues(m[i])
  {
    PackWellFormed(m);
    var init, row := m[..|m| - 1], m[|m| - 1];
    assert m == init + [row];
    PackSnoc(init, row);
    PackShape(init);
    PackShape(m);
    if i < |init| {
      PackSegment(init, i);
      assert m[i] == init[i];
      SegmentKept(Pack(init), RowIndex(row), RowValues(row), i);
    } else {
      var q, p := Pack(init), Pack(m);
      assert p.arStart[i] == |q.arIndex| == |q.arValue|;
      assert SegmentEnd(p, i) == |p.arIndex|;
    }
  }

  /** Appending a segment leaves every earlier row's segment where it was. */
  lemma SegmentKept(q: PackedMatrix, index: seq<int>, values: seq<real>, i: nat)
    requires WellFormed(q) && i < |q.arStart|
    ensures var p := PackedMatrix(q.arStart + [|q.arIndex|], q.arIndex + index, q.arValue + values);
      && p.arStart[i] == q.arStart[i] && SegmentEnd(p, i) == SegmentEnd(q, i)
      && p.arIndex[p.arStart[i]..SegmentEnd(p, i)] == q.arIndex[q.arStart[i]..SegmentEnd(q, i)]
      && p.arValue[p.arStart[i]..SegmentEnd(p, i)] == q.arValue[q.arStart[i]..SegmentEnd(q, i)]
  {
    assert SegmentEnd(q, i) <= |q.arIndex|;
  }

  /** The value a packed segment gives to column j: the stored value, or zero when absent. */
  function Lookup(idx: seq<int>, vals: seq<real>, j: int): real
    requires |idx| == |vals|
  {
    if idx == [] then 0.0
    else if idx[0] == j then vals[0]
    else Lookup(idx[1..], vals[1..], j)
  }

  /** A column with no entry in the segment reads as zero. */
  lemma {:induction false} LookupAbsent(idx: seq<int>, vals: seq<real>, j: int)
    requires |idx| == |vals| && j !in idx
    ensures Lookup(idx, vals, j) == 0.0
  {
    if idx != [] {
      LookupAbsent(idx[1..], vals[1..], j);
    }
  }

  /** In a segment with strictly increasing indices, each index reads back its own value. */
  lemma {:induction false} LookupAt(idx: seq<int>, vals: seq<real>, k: nat)
    requires |idx| == |vals| && k < |idx|
    requires forall a, b :: 0 <= a < b < |idx| ==> idx[a] < idx[b]
    ensures Lookup(idx, vals, idx[k]) == vals[k]
  {
    if k > 0 {
      assert idx[0] < idx[k];
      assert idx[1..][k - 1] == idx[k];
      LookupAt(idx[1..], vals[1..], k - 1);
    }
  }

  /** Expands one packed segment back to a dense row of width n. */
  function Expand(idx: seq<int>, vals: seq<real>, n: nat): (r: seq<real>)
    requires |idx| == |vals|
    ensures |r| == n
  {
    seq(n, j => Lookup(idx, vals, j))
  }

  /** Expanding a row's own segment gives the row back: zeros return as zeros. */
  lemma {:induction false} ExpandRow(row: seq<real>)
    ensures Expand(RowIndex(row), RowValues(row), |row|) == row
  {
    var idx, vals := RowIndex(row), RowValues(row);
    RowEntries(row);
    var e := Expand(idx, vals, |row|);
    forall j | 0 <= j < |row|
      ensures e[j] == row[j]
    {
      assert e[j] == Lookup(idx, vals, j);
      if row[j] != 0.0 {
        assert j in idx;
        var k :| 0 <= k < |idx| && idx[k] == j;
        LookupAt(idx, vals, k);
      } else {
        assert j !in idx;
        LookupAbsent(idx, vals, j);
      }
    }
  }

  /** Inverse of the packer for rows of width n: expands every segment. */
  function Unpack(p: PackedMatrix, n: nat): (m: seq<seq<real>>)
    requires WellFormed(p)
    ensures |m| == |p.arStart|
  {
    seq(|p.arStart|, i requires 0 <= i < |p.arStart| =>
      Expand(p.arIndex[p.arStart[i]..SegmentEnd(p, i)], p.arValue[p.arStart[i]..SegmentEnd(p, i)], n))
  }

  /** Packing loses nothing: expanding the segments reproduces every row. */
  lemma {:induction false} UnpackPack(m: seq<seq<real>>, n: nat)
    requires forall i :: 0 <= i < |m| ==> |m[i]| == n
    ensures WellFormed(Pack(m)) && Unpack(Pack(m), n) == m
  {
    PackWellFormed(m);
    PackShape(m);
    var p := Pack(m);
    forall i | 0 <= i < |m|
      ensures Unpack(p, n)[i] == m[i]
    {
      PackSegment(m, i);
      ExpandRow(m[i]);
    }
  }

  /** The packing loop of utils.go, appending to three growing slices. */
  method PackMatrix(matrix: seq<seq<real>>) returns (pm: PackedMatrix)
    ensures pm == Pack(matrix)
  {
    var arStart: seq<int> := [];
    var arIndex: seq<int> := [];
    var arValue: seq<real> := [];
    var idx := 0;
    for r := 0 to |matrix|
      invariant PackedMatrix(arStart, arIndex, arValue) == Pack(matrix[..r])
      invariant idx == |arIndex|
    {
      var cols := matrix[r];
      ghost var before := PackedMatrix(arStart, arIndex, arValue);
      arStart := arStart + [idx];
      for i := 0 to |cols|
        invariant arStart == before.arStart + [|before.arIndex|]
        invariant arIndex == before.arIndex + RowIndex(cols[..i])
        invariant arValue == before.arValue + RowValues(cols[..i])
      {
        assert cols[..i + 1][..i] == cols[..i];
        if cols[i] != 0.0 {
          arIndex := arIndex + [i];
          arValue := arValue + [cols[i]];
        }
      }
      assert cols[..|cols|] == cols;
      assert matrix[..r + 1][..r] == matrix[..r];
      idx := |arIndex|;
    }
    assert matrix[..|matrix|] == matrix;
    pm := PackedMatrix(arStart, arIndex, arValue);
  }

  /** Nonzero positions and values of a two-entry row. */
  lemma PairRow(x: real, y: real)
    ensures RowIndex([x, y]) == (if x != 0.0 then [0] else []) + (if y != 0.0 then [1] else [])
    ensures RowValues([x, y]) == (if x != 0.0 then [x] else []) + (if y != 0.0 then [y] else [])
  {
    assert [x, y][..1] == [x];
    assert [x][..0] == [];
    assert RowIndex([x]) == (if x != 0.0 then [0] else []);
    assert RowValues([x]) == (if x != 0.0 then [x] else []);
  }

  /** Three rows pack into three consecutive segments. */
  lemma PackThree(r0: seq<real>, r1: seq<real>, r2: seq<real>)
    ensures Pack([r0, r1, r2]) == PackedMatrix(
      [0, |RowIndex(r0)|, |RowIndex(r0)| + |RowIndex(r1)|],
      RowIndex(r0) + RowIndex(r1) + RowIndex(r2),
      RowValues(r0) + RowValues(r1) + RowValues(r2))
  {
    PackTwo(r0, r1);
    PackSnoc([r0, r1], r2);
    assert [r0, r1] + [r2] == [r0, r1, r2];
  }

  /** Two rows pack into two consecutive segments. */
  lemma PackTwo(r0: seq<real>, r1: seq<real>)
    ensures Pack([r0, r1]) == PackedMatrix([0, |RowIndex(r0)|], RowIndex(r0) + RowIndex(r1), RowValues(r0) + RowValues(r1))
  {
    PackOne(r0);
    PackSnoc([r0], r1);
    assert [r0] + [r1] == [r0, r1];
  }

  /** One row packs into one segment at offset 0. */
  lemma PackOne(r0: seq<real>)
    ensures Pack([r0]) == PackedMatrix([0], RowIndex(r0), RowValues(r0))
  {
    PackSnoc([], r0);
    assert [] + [r0] == [r0];
  }


  /** The three rows of the wrapper's own test, one at a time. */
  lemma ExampleRows()
    ensures RowIndex([0.0, 1.0]) == [1] && RowValues([0.0, 1.0]) == [1.0]
    ensures RowIndex([1.0, 2.0]) == [0, 1] && RowValues([1.0, 2.0]) == [1.0, 2.0]
    ensures RowIndex([2.0, 1.0]) == [0, 1] && RowValues([2.0, 1.0]) == [2.0, 1.0]
  {
    PairRow(0.0, 1.0);
    PairRow(1.0, 2.0);
    PairRow(2.0, 1.0);
  }

  /** The packer on the matrix of the wrapper's own test. */
  lemma PackExample()
    ensures Pack([[0.0, 1.0], [1.0, 2.0], [2.0, 1.0]])
         == PackedMatrix([0, 1, 3], [1, 0, 1, 0, 1], [1.0, 1.0, 2.0, 2.0, 1.0])
  {
    ExampleRows();
    PackThree([0.0, 1.0], [1.0, 2.0], [2.0, 1.0]);
  }

  // ---------------------------------------------------------------------------
  // Bound splitter

  /** Coefficient rows and bound vectors cut out of augmented rows. */
  datatype Separated = Separated(rows: seq<seq<real>>, lbs: seq<real>, ubs: seq<real>)

  /**
   * What `separateBounds` needs to run without a panic: it reads the width L of
   * the first row, then slices `row[1:L-1]` and indexes `row[L-1]` of every row.
   */
  predicate Separable(boundRows: seq<seq<real>>)
  {
    && |boundRows| > 0
    && |boundRows[0]| >= 2
    && forall i :: 0 <= i < |boundRows| ==> |boundRows[i]| >= |boundRows[0]|
  }

  /** Every row cut at the width `width`: the rows of `boundRows` in order. */
  function SeparateWith(boundRows: seq<seq<real>>, width: nat): (r: Separated)
    requires width >= 2
    requires forall i :: 0 <= i < |boundRows| ==> |boundRows[i]| >= width
    ensures |r.rows| == |r.lbs| == |r.ubs| == |boundRows|
    ensures forall i :: 0 <= i < |boundRows| ==>
      && r.lbs[i] == boundRows[i][0]
      && r.ubs[i] == boundRows[i][width - 1]
      && r.rows[i] == boundRows[i][1..width - 1]
  {
    if boundRows == [] then Separated([], [], [])
    else
      var init := boundRows[..|boundRows| - 1];
      var row := boundRows[|boundRows| - 1];
      assert forall i :: 0 <= i < |init| ==> init[i] == boundRows[i];
      var s := SeparateWith(init, width);
      Separated(s.rows + [row[1..width - 1]], s.lbs + [row[0]], s.ubs + [row[width - 1]])
  }

  /** `separateBounds`: every row is cut at the width of the FIRST row. */
  function Separate(boundRows: seq<seq<real>>): (r: Separated)
    requires Separable(boundRows)
    ensures |r.rows| == |r.lbs| == |r.ubs| == |boundRows|
    ensures forall i :: 0 <= i < |boundRows| ==>
      && r.lbs[i] == boundRows[i][0]
      && r.ubs[i] == boundRows[i][|boundRows[0]| - 1]
      && r.rows[i] == boundRows[i][1..|boundRows[0]| - 1]
      && |r.rows[i]| == |boundRows[0]| - 2
  {
    SeparateWith(boundRows, |boundRows[0]|)
  }

  /** Puts the bounds back around each coefficient row. */
  function Join(s: Separated): (m: seq<seq<real>>)
    requires |s.rows| == |s.lbs| == |s.ubs|
    ensures |m| == |s.rows|
  {
    seq(|s.rows|, i requires 0 <= i < |s.rows| => [s.lbs[i]] + s.rows[i] + [s.ubs[i]])
  }

  /** When every row has the first row's width, splitting then joining is the identity. */
  lemma {:induction false} SeparateRoundTrip(boundRows: seq<seq<real>>)
    requires Separable(boundRows)
    requires forall i :: 0 <= i < |boundRows| ==> |boundRows[i]| == |boundRows[0]|
    ensures Join(Separate(boundRows)) == boundRows
  {
    var s := Separate(boundRows);
    var w := |boundRows[0]|;
    forall i | 0 <= i < |boundRows|
      ensures Join(s)[i] == boundRows[i]
    {
      var row := boundRows[i];
      assert s.rows[i] == row[1..w - 1];
      assert [row[0]] + row[1..w - 1] + [row[w - 1]] == row;
    }
  }

  /** The loop of `separateBounds`, appending to three growing slices. */
  method SeparateBounds(boundRows: seq<seq<real>>) returns (rows: seq<seq<real>>, lbs: seq<real>, ubs: seq<real>)
    requires Separable(boundRows)
    ensures Separated(rows, lbs, ubs) == Separate(boundRows)
  {
    var colSize := |boundRows[0]|;
    rows, lbs, ubs := [], [], [];
    for i := 0 to |boundRows|
      invariant Separated(rows, lbs, ubs) == SeparateWith(boundRows[..i], colSize)
    {
      var row := boundRows[i];
      assert boundRows[..i + 1][..i] == boundRows[..i];
      rows := rows + [row[1..colSize - 1]];
      lbs := lbs + [row[0]];
      ubs := ubs + [row[colSize - 1]];
    }
    assert boundRows[..|boundRows|] == boundRows;
  }

  /** The bound splitter on the augmented rows of the wrapper's own test. */
  lemma SeparateExample()
    ensures Separate([[-1.0, 0.0, 1.0, 2.0], [10.0, 1.0, 2.0, 14.0], [8.0, 2.0, 1.0, 20.0]])
         == Separated([[0.0, 1.0], [1.0, 2.0], [2.0, 1.0]], [-1.0, 10.0, 8.0], [2.0, 14.0, 20.0])
  {
    var m := [[-1.0, 0.0, 1.0, 2.0], [10.0, 1.0, 2.0, 14.0], [8.0, 2.0, 1.0, 20.0]];
    var s := Separate(m);
    assert s.rows[0] == m[0][1..3] == [0.0, 1.0];
    assert s.rows[1] == m[1][1..3] == [1.0, 2.0];
    assert s.rows[2] == m[2][1..3] == [2.0, 1.0];
  }

  /** The engine's "infinite" bound as the wrapper's tests write it. */
  const Infinity: real := 1000000000000000000000000000000.0

  /** The augmented rows `[lb, coefficients..., ub]` of the demo LP. */
  const DemoLp: seq<seq<real>> := [[-Infinity, 0.0, 1.0, 6.0], [10.0, 1.0, 2.0, 14.0], [8.0, 2.0, 1.0, Infinity]]

  /** Splitting the demo LP's rows gives its row bounds and the test matrix. */
  lemma DemoLpSplit()
    ensures Separable(DemoLp)
    ensures var s := Separate(DemoLp);
      && s.lbs == [-Infinity, 10.0, 8.0]
      && s.ubs == [6.0, 14.0, Infinity]
      && s.rows == [[0.0, 1.0], [1.0, 2.0], [2.0, 1.0]]
  {
    var s := Separate(DemoLp);
    assert s.rows[0] == DemoLp[0][1..3] == [0.0, 1.0];
    assert s.rows[1] == DemoLp[1][1..3] == [1.0, 2.0];
    assert s.rows[2] == DemoLp[2][1..3] == [2.0, 1.0];
  }

  /**
   * Splitting and then packing the augmented rows of the demo LP gives the row
   * bounds and the compressed matrix the C demo writes out by hand.
   */
  lemma DemoLpEncoding()
    ensures Separable(DemoLp)
    ensures Pack(Separate(DemoLp).rows) == PackedMatrix([0, 1, 3], [1, 0, 1, 0, 1], [1.0, 1.0, 2.0, 2.0, 1.0])
  {
    DemoLpSplit();
    PackExample();
  }
}
