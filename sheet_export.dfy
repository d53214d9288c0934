/**
 * The used range and the value grid of one worksheet, as `export_sheet`
 * of the XLSX exporter computes them before writing its files.
 */
module SheetExport {
  import opened Wrappers
  import opened Text
  import opened SheetCoords
  import opened SheetDates
  import opened SheetCells

  function SeqMin(xs: seq<nat>): (m: nat)
    requires xs != []
    ensures forall k :: 0 <= k < |xs| ==> m <= xs[k]
    ensures exists k :: 0 <= k < |xs| && xs[k] == m
  {
    if |xs| == 1 then xs[0]
    else
      var m := SeqMin(xs[1..]);
      assert forall k :: 1 <= k < |xs| ==> xs[k] == xs[1..][k - 1];
      if xs[0] <= m then xs[0] else m
  }

  function SeqMax(xs: seq<nat>): (m: nat)
    requires xs != []
    ensures forall k :: 0 <= k < |xs| ==> xs[k] <= m
    ensures exists k :: 0 <= k < |xs| && xs[k] == m
  {
    if |xs| == 1 then xs[0]
    else
      var m := SeqMax(xs[1..]);
      assert forall k :: 1 <= k < |xs| ==> xs[k] == xs[1..][k - 1];
      if xs[0] >= m then xs[0] else m
  }

  function Rows(cells: seq<SheetCell>): (rs: seq<nat>)
    ensures |rs| == |cells| && forall k :: 0 <= k < |cells| ==> rs[k] == cells[k].row
  {
    seq(|cells|, k requires 0 <= k < |cells| => cells[k].row)
  }

  function Cols(cells: seq<SheetCell>): (cs: seq<nat>)
    ensures |cs| == |cells| && forall k :: 0 <= k < |cells| ==> cs[k] == cells[k].col
  {
    seq(|cells|, k requires 0 <= k < |cells| => cells[k].col)
  }

  /** The dimension reference counts when it is present and non-empty. */
  predicate HasDimension(dimRef: Option<string>)
  {
    dimRef.Some? && dimRef.value != ""
  }

  /** The used range: the sheet's dimension reference when it has one, otherwise the
      bounding box of the cells, otherwise the single cell A1. */
  function UsedRange(dimRef: Option<string>, cells: seq<SheetCell>): (r: Result<Range, CoordError>)
    ensures HasDimension(dimRef) ==> r == ParseRange(dimRef.value)
    ensures !HasDimension(dimRef) && cells == [] ==> r == Ok(Range(1, 1, 1, 1))
    ensures !HasDimension(dimRef) && cells != [] ==> r.Ok?
    ensures !HasDimension(dimRef) && cells != [] ==>
      forall k :: 0 <= k < |cells| ==>
        r.value.minRow <= cells[k].row <= r.value.maxRow && r.value.minCol <= cells[k].col <= r.value.maxCol
    ensures !HasDimension(dimRef) && cells != [] ==>
      (exists k :: 0 <= k < |cells| && cells[k].row == r.value.minRow)
      && (exists k :: 0 <= k < |cells| && cells[k].row == r.value.maxRow)
      && (exists k :: 0 <= k < |cells| && cells[k].col == r.value.minCol)
      && (exists k :: 0 <= k < |cells| && cells[k].col == r.value.maxCol)
    ensures r.Ok? && (forall k :: 0 <= k < |cells| ==> cells[k].col >= 1) ==>
      r.value.minRow <= r.value.maxRow && 1 <= r.value.minCol <= r.value.maxCol
  {
    if HasDimension(dimRef) then ParseRange(dimRef.value)
    else if cells != [] then
      var rs := Rows(cells);
      var cs := Cols(cells);
      var g := Range(SeqMin(rs), SeqMin(cs), SeqMax(rs), SeqMax(cs));
      assert rs[0] == cells[0].row && cs[0] == cells[0].col;
      Ok(g)
    else Ok(Range(1, 1, 1, 1))
  }

  /** `by_rc`: each coordinate mapped to the record of the last cell that has it. */
  function CellIndex(cells: seq<SheetCell>): map<(nat, nat), CellRecord>
  {
    if cells == [] then map[]
    else
      var last := cells[|cells| - 1];
      CellIndex(cells[..|cells| - 1])[(last.row, last.col) := last.rec]
  }

  /** A coordinate is in the index exactly when some cell has it, and it holds the record
      of the last such cell: later duplicates win. */
  lemma {:induction false} CellIndexLastWins(cells: seq<SheetCell>, row: nat, col: nat)
    ensures (row, col) in CellIndex(cells) <==> exists k :: 0 <= k < |cells| && cells[k].row == row && cells[k].col == col
    ensures forall k :: (0 <= k < |cells| && cells[k].row == row && cells[k].col == col
                         && (forall j :: k < j < |cells| ==> !(cells[j].row == row && cells[j].col == col)))
                         ==> CellIndex(cells)[(row, col)] == cells[k].rec
  {
    if cells != [] {
      var init := cells[..|cells| - 1];
      CellIndexLastWins(init, row, col);
      assert forall k :: 0 <= k < |init| ==> init[k] == cells[k];
    }
  }

  /** Builds `by_rc` one cell at a time. */
  method BuildCellIndex(cells: seq<SheetCell>) returns (index: map<(nat, nat), CellRecord>)
    ensures index == CellIndex(cells)
  {
    index := map[];
    var i := 0;
    while i < |cells|
      invariant 0 <= i <= |cells|
      invariant index == CellIndex(cells[..i])
    {
      var c := cells[i];
      assert cells[..i + 1][..i] == cells[..i];
      index := index[(c.row, c.col) := c.rec];
      i := i + 1;
    }
    assert cells[..i] == cells;
  }

  /** One grid entry: a label, a row number, a blank, or a cell value. */
  datatype GridCell = Blank | Label(s: string) | RowNumber(n: nat) | Value(v: CellValue)

  /** The grid entry for a coordinate: blank when there is no cell or it is empty-typed. */
  function GridValue(index: map<(nat, nat), CellRecord>, row: nat, col: nat): GridCell
  {
    if (row, col) !in index || index[(row, col)].valueType == EmptyType then Blank
    else if index[(row, col)].value == NoValue then Blank
    else Value(index[(row, col)].value)
  }

  /** Number of values in the inclusive interval lo..hi. */
  function Span(lo: nat, hi: nat): nat
  {
    if hi >= lo then hi - lo + 1 else 0
  }

  /** The labels of `count` columns starting at column `lo`. */
  function ColumnLabels(lo: nat, count: nat): (ls: seq<GridCell>)
    ensures |ls| == count && forall j :: 0 <= j < count ==> ls[j] == Label(ColumnLetters(lo + j))
  {
    if count == 0 then [] else ColumnLabels(lo, count - 1) + [Label(ColumnLetters(lo + count - 1))]
  }

  /** The values of `count` columns of one row starting at column `lo`. */
  function RowValues(index: map<(nat, nat), CellRecord>, row: nat, lo: nat, count: nat): (vs: seq<GridCell>)
    ensures |vs| == count && forall j :: 0 <= j < count ==> vs[j] == GridValue(index, row, lo + j)
  {
    if count == 0 then [] else RowValues(index, row, lo, count - 1) + [GridValue(index, row, lo + count - 1)]
  }

  /** The header row: "_row" and the letters of every column of the range. */
  function HeaderRow(g: Range): seq<GridCell>
  {
    [Label("_row")] + ColumnLabels(g.minCol, Span(g.minCol, g.maxCol))
  }

  /** The data row of one sheet row: its number, then the value of every column. */
  function DataRow(g: Range, index: map<(nat, nat), CellRecord>, row: nat): seq<GridCell>
  {
    [RowNumber(row)] + RowValues(index, row, g.minCol, Span(g.minCol, g.maxCol))
  }

  /** The grid of a range: the header, then one data row per sheet row, in order. */
  predicate IsGrid(grid: seq<seq<GridCell>>, g: Range, index: map<(nat, nat), CellRecord>)
  {
    |grid| == 1 + Span(g.minRow, g.maxRow)
    && grid[0] == HeaderRow(g)
    && forall i :: 1 <= i < |grid| ==> grid[i] == DataRow(g, index, g.minRow + i - 1)
  }

  /** Every entry of the grid is where it belongs: the header holds the column letters,
      each data row starts with its row number, and a cell that is absent or
      empty-typed reads as a blank. */
  lemma GridEntries(grid: seq<seq<GridCell>>, g: Range, index: map<(nat, nat), CellRecord>, i: nat, j: nat)
    requires IsGrid(grid, g, index) && j < Span(g.minCol, g.maxCol)
    ensures grid[0][0] == Label("_row") && grid[0][1 + j] == Label(ColumnLetters(g.minCol + j))
    ensures 1 <= i < |grid| ==> |grid[i]| == 1 + Span(g.minCol, g.maxCol)
    ensures 1 <= i < |grid| ==> grid[i][0] == RowNumber(g.minRow + i - 1)
    ensures 1 <= i < |grid| ==> grid[i][1 + j] == GridValue(index, g.minRow + i - 1, g.minCol + j)
    ensures (1 <= i < |grid| && ((g.minRow + i - 1, g.minCol + j) !in index
             || index[(g.minRow + i - 1, g.minCol + j)].valueType == EmptyType)) ==> grid[i][1 + j] == Blank
  {
  }

  /** Builds the CSV grid: the header, then one row per sheet row of the range. */
  method BuildGrid(g: Range, index: map<(nat, nat), CellRecord>) returns (grid: seq<seq<GridCell>>)
    ensures IsGrid(grid, g, index)
  {
    var width := Span(g.minCol, g.maxCol);
    var header := [Label("_row")];
    var j := 0;
    while j < width
      invariant 0 <= j <= width
      invariant header == [Label("_row")] + ColumnLabels(g.minCol, j)
    {
      header := header + [Label(ColumnLetters(g.minCol + j))];
      j := j + 1;
    }
    grid := [header];
    var r := g.minRow;
    while r <= g.maxRow
      invariant g.minRow <= r && (r <= g.maxRow + 1 || r == g.minRow)
      invariant |grid| == 1 + (r - g.minRow)
      invariant grid[0] == HeaderRow(g)
      invariant forall i :: 1 <= i < |grid| ==> grid[i] == DataRow(g, index, g.minRow + i - 1)
    {
      var rowVals := [RowNumber(r)];
      var k := 0;
      while k < width
        invariant 0 <= k <= width
        invariant rowVals == [RowNumber(r)] + RowValues(index, r, g.minCol, k)
      {
        rowVals := rowVals + [GridValue(index, r, g.minCol + k)];
        k := k + 1;
      }
      grid := grid + [rowVals];
      r := r + 1;
    }
  }

  /** What the sheet export reports: the used range with its A1 form, the number of cells,
      and the grid written as CSV. */
  datatype SheetExport = SheetExport(usedRange: Range, usedRangeA1: string, cellCount: nat, grid: seq<seq<GridCell>>)

  /** The used-range and grid part of `export_sheet`. The A1 form of the used range is
      computed last, and fails for a range that starts at row 0. */
  method ExportSheet(dimRef: Option<string>, xml: seq<CellXml>, sharedStrings: seq<string>,
                     styles: Styles, parseFloat: string -> Option<PyFloat>)
    returns (r: Result<SheetExport, CellError>)
    ensures ReferencedCells(xml, sharedStrings, styles, parseFloat).Err? ==>
      r == Err(ReferencedCells(xml, sharedStrings, styles, parseFloat).error)
    ensures r.Ok? <==>
      ReferencedCells(xml, sharedStrings, styles, parseFloat).Ok?
      && UsedRange(dimRef, ReferencedCells(xml, sharedStrings, styles, parseFloat).value).Ok?
      && UsedRange(dimRef, ReferencedCells(xml, sharedStrings, styles, parseFloat).value).value.minRow >= 1
    ensures r.Ok? ==>
      var cells := ReferencedCells(xml, sharedStrings, styles, parseFloat).value;
      var g := UsedRange(dimRef, cells).value;
      var e := r.value;
      e.usedRange == g && e.cellCount == |cells|
      && e.usedRangeA1 == ColumnLetters(g.minCol) + NatToString(g.minRow) + ":"
                          + ColumnLetters(g.maxCol) + NatToString(g.maxRow)
      && IsGrid(e.grid, g, CellIndex(cells))
  {
    var parsed := ReferencedCells(xml, sharedStrings, styles, parseFloat);
    if parsed.Err? {
      return Err(parsed.error);
    }
    var cells := parsed.value;
    var used := UsedRange(dimRef, cells);
    if used.Err? {
      return Err(BadReference(used.error));
    }
    var g := used.value;
    var index := BuildCellIndex(cells);
    var grid := BuildGrid(g, index);
    var lo := RcToA1(g.minRow, g.minCol);
    var hi := RcToA1(g.maxRow, g.maxCol);
    if lo.Err? {
      return Err(BadReference(lo.error));
    }
    // The upper corner is never before the lower one, so it prints whenever the lower one does.
    assert hi.Ok?;
    r := Ok(SheetExport(g, lo.value + ":" + hi.value, |cells|, grid));
  }
}
