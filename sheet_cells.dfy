/**
 * Typing of worksheet cells (the `c` element of SpreadsheetML, ECMA-376
 * Part 1, section 18.3.1.4, whose `t` attribute names the cell type):
 * `Styles.get_num_fmt`, `cell_value_from_xml` and `iter_sheet_cells` of
 * the XLSX exporter. The XML is given already parsed: each cell is the
 * attributes and child texts the exporter reads.
 */
module SheetCells {
  import opened Wrappers
  import opened Text
  import opened SheetCoords
  import opened SheetDates

  /** The styles part: the number-format id of each cell format, and the custom codes. */
  datatype Styles = Styles(cellXfsNumFmtId: seq<int>, numFmts: map<int, string>)
  {
    /** `get_num_fmt(style_idx)`: the format id and code of a style index. */
    function GetNumFmt(styleIdx: Option<int>): (r: (Option<int>, Option<string>))
      ensures r.0.None? <==> styleIdx.None? || !(0 <= styleIdx.value < |cellXfsNumFmtId|)
      ensures r.0.None? ==> r.1.None?
      ensures r.0.Some? ==> r.0.value == cellXfsNumFmtId[styleIdx.value]
      ensures r.0.Some? ==> (r.1.Some? <==> r.0.value in numFmts)
      ensures r.1.Some? ==> r.1.value == numFmts[r.0.value]
    {
      if styleIdx.None? || styleIdx.value < 0 || styleIdx.value >= |cellXfsNumFmtId| then (None, None)
      else
        var id := cellXfsNumFmtId[styleIdx.value];
        (Some(id), if id in numFmts then Some(numFmts[id]) else None)
    }
  }

  /** One `c` element as the exporter sees it. `v` and `f` are the texts of those children
      (None when the child or its text is missing); `inline` is the texts of the `t`
      descendants of an `is` child, when there is one. */
  datatype CellXml = CellXml(
    r: Option<string>,
    t: Option<string>,
    s: Option<string>,
    f: Option<string>,
    v: Option<string>,
    inline: Option<seq<Option<string>>>)

  datatype ValueType = StringType | BooleanType | EmptyType | NumberType | DateType
  {
    function Name(): string
    {
      match this
      case StringType => "string"
      case BooleanType => "boolean"
      case EmptyType => "empty"
      case NumberType => "number"
      case DateType => "date"
    }
  }

  /** A cell value. A date keeps its serial and the whole-day offset the exporter derives
      from it; the ISO rendering is not modelled. */
  datatype CellValue = NoValue | Text(s: string) | Bool(b: bool) | Number(x: PyFloat) | DateValue(serial: real, days: int)

  /** The record `cell_value_from_xml` returns. */
  datatype CellRecord = CellRecord(
    a1: Option<string>,
    valueType: ValueType,
    value: CellValue,
    raw: string,
    formula: Option<string>,
    styleIdx: Option<nat>,
    numFmtId: Option<int>,
    numFmtCode: Option<string>)

  predicate IsUnderscoreDigit(c: char) { IsDigit(c) || c == '_' }

  /** The digits of a Python integer literal: digits with single underscores between them. */
  predicate IsGroupedDigits(b: string)
  {
    b != [] && IsDigit(b[0]) && IsDigit(b[|b| - 1])
    && (forall i :: 0 <= i < |b| ==> IsUnderscoreDigit(b[i]))
    && (forall i :: 0 <= i < |b| - 1 ==> b[i] == '_' ==> b[i + 1] != '_')
  }

  function RemoveUnderscores(s: string): (r: string)
    ensures (forall i :: 0 <= i < |s| ==> IsUnderscoreDigit(s[i])) ==> AllDigits(r)
  {
    if s == [] then [] else (if s[0] == '_' then [] else [s[0]]) + RemoveUnderscores(s[1..])
  }

  /** Python's `int(s)` for a decimal string: surrounding whitespace, an optional sign,
      and underscores between digits are accepted; anything else is a `ValueError` (None). */
  function PyInt(s: string): Option<int>
  {
    var t := Strip(s);
    var neg := |t| > 0 && t[0] == '-';
    var body := if |t| > 0 && (t[0] == '+' || t[0] == '-') then t[1..] else t;
    if IsGroupedDigits(body) then
      var v := DigitsValue(RemoveUnderscores(body));
      var n: int := if neg then -(v as int) else v;
      Some(n)
    else None
  }

  lemma {:induction false} RemoveUnderscoresOfDigits(s: string)
    requires AllDigits(s)
    ensures RemoveUnderscores(s) == s
  {
    if s != [] {
      RemoveUnderscoresOfDigits(s[1..]);
    }
  }

  /** `int(str(n)) == n`. */
  lemma PyIntOfNatToString(n: nat)
    ensures PyInt(NatToString(n)) == Some(n)
  {
    var s := NatToString(n);
    assert !IsSpace(s[0]) && !IsSpace(s[|s| - 1]);
    assert TrimStart(s) == s;
    assert Strip(s) == s;
    assert IsDigit(s[0]) && s[0] != '+' && s[0] != '-';
    assert IsGroupedDigits(s);
    RemoveUnderscoresOfDigits(s);
    NatToStringValue(n);
  }

  /** The value of a shared-string cell: the table entry, or "" when the index is not
      an integer or is outside the table. */
  function SharedString(raw: string, sharedStrings: seq<string>): (r: string)
    ensures PyInt(raw).Some? && 0 <= PyInt(raw).value < |sharedStrings| ==> r == sharedStrings[PyInt(raw).value]
    ensures PyInt(raw).None? || !(0 <= PyInt(raw).value < |sharedStrings|) ==> r == ""
  {
    match PyInt(raw)
    case None => ""
    case Some(i) => if 0 <= i < |sharedStrings| then sharedStrings[i] else ""
  }

  lemma SharedStringAt(i: nat, sharedStrings: seq<string>)
    requires i < |sharedStrings|
    ensures SharedString(NatToString(i), sharedStrings) == sharedStrings[i]
  {
    PyIntOfNatToString(i);
  }

  /** The style index: the `s` attribute when it is a non-empty run of digits. */
  function StyleIndex(s: Option<string>): (r: Option<nat>)
    ensures r.Some? <==> s.Some? && s.value != "" && AllDigits(s.value)
    ensures r.Some? ==> r.value == DigitsValue(s.value)
  {
    if s.Some? && s.value != "" && AllDigits(s.value) then Some(DigitsValue(s.value)) else None
  }

  /** The formula: the stripped text of `f`, when it has a non-empty text. */
  function Formula(f: Option<string>): Option<string>
  {
    if f.Some? && f.value != "" then Some(Strip(f.value)) else None
  }

  function InlineText(inline: Option<seq<Option<string>>>): string
  {
    if inline.None? then "" else Concat(TextsOrEmpty(inline.value))
  }

  function TextsOrEmpty(ts: seq<Option<string>>): (r: seq<string>)
    ensures |r| == |ts| && forall i :: 0 <= i < |ts| ==> r[i] == ts[i].GetOr("")
  {
    if ts == [] then [] else [ts[0].GetOr("")] + TextsOrEmpty(ts[1..])
  }

  /** The cell types `cell_value_from_xml` dispatches on before it looks at the raw value. */
  predicate IsTextTyped(c: CellXml)
  {
    c.t in {Some("s"), Some("inlineStr"), Some("b"), Some("str")}
  }

  /** The cells read as numbers: not text-typed, with a raw value that `float` accepts. */
  predicate IsNumeric(c: CellXml, parseFloat: string -> Option<PyFloat>)
  {
    !IsTextTyped(c) && c.v.GetOr("") != "" && parseFloat(c.v.GetOr("")).Some?
  }

  /** The numeric cells whose style looks like a date, so that the serial is converted. */
  predicate IsDateCell(c: CellXml, styles: Styles, parseFloat: string -> Option<PyFloat>)
  {
    IsNumeric(c, parseFloat) && IsLikelyDateFormat(styles.GetNumFmt(StyleIndex(c.s)).0, styles.GetNumFmt(StyleIndex(c.s)).1)
  }

  /** `cell_value_from_xml`. `parseFloat` stands for Python's `float(raw)`, None when it
      raises. The result is an error exactly when a date cell's serial cannot be
      converted, which the exporter does not catch. */
  function CellValueFromXml(c: CellXml, sharedStrings: seq<string>, styles: Styles,
                            parseFloat: string -> Option<PyFloat>): (r: Result<CellRecord, DateError>)
    ensures r.Err? <==> IsDateCell(c, styles, parseFloat) && ExcelSerialToDatetime(parseFloat(c.v.GetOr("")).value).Err?
    ensures r.Err? ==> r.error == ExcelSerialToDatetime(parseFloat(c.v.GetOr("")).value).error
    ensures r.Ok? ==> var rec := r.value;
      rec.a1 == c.r && rec.raw == c.v.GetOr("") && rec.formula == Formula(c.f)
      && rec.styleIdx == StyleIndex(c.s)
      && (rec.numFmtId, rec.numFmtCode) == styles.GetNumFmt(rec.styleIdx)
    ensures r.Ok? && c.t == Some("s") ==>
      r.value.valueType == StringType && r.value.value == Text(SharedString(r.value.raw, sharedStrings))
    ensures r.Ok? && c.t == Some("inlineStr") ==>
      r.value.valueType == StringType && r.value.value == Text(InlineText(c.inline))
    ensures r.Ok? ==> (r.value.valueType == BooleanType <==> c.t == Some("b"))
    ensures r.Ok? && r.value.valueType == BooleanType ==> r.value.value == Bool(r.value.raw == "1")
    ensures r.Ok? && c.t == Some("str") ==> r.value.valueType == StringType && r.value.value == Text(r.value.raw)
    ensures r.Ok? ==> (r.value.valueType == EmptyType <==> r.value.value == NoValue)
    ensures r.Ok? ==> (r.value.valueType == EmptyType <==> !IsTextTyped(c) && r.value.raw == "")
    ensures r.Ok? ==> (r.value.valueType in {NumberType, DateType} <==> IsNumeric(c, parseFloat))
    ensures r.Ok? ==> (r.value.valueType == DateType <==> IsDateCell(c, styles, parseFloat))
    ensures r.Ok? && r.value.valueType == NumberType ==> r.value.value == Number(parseFloat(r.value.raw).value)
    ensures r.Ok? && r.value.valueType == DateType ==>
      var f := parseFloat(r.value.raw).value;
      f.Finite? && r.value.value == DateValue(f.x, ExcelDayOffset(f.x))
    ensures r.Ok? && !IsTextTyped(c) && r.value.raw != "" && parseFloat(r.value.raw).None? ==>
      r.value.valueType == StringType && r.value.value == Text(r.value.raw)
  {
    var styleIdx := StyleIndex(c.s);
    var formula := Formula(c.f);
    var raw := c.v.GetOr("");
    var (numFmtId, fmtCode) := styles.GetNumFmt(styleIdx);
    var empty := CellRecord(c.r, EmptyType, NoValue, raw, formula, styleIdx, numFmtId, fmtCode);
    if c.t == Some("s") then Ok(empty.(valueType := StringType, value := Text(SharedString(raw, sharedStrings))))
    else if c.t == Some("inlineStr") then Ok(empty.(valueType := StringType, value := Text(InlineText(c.inline))))
    else if c.t == Some("b") then Ok(empty.(valueType := BooleanType, value := Bool(raw == "1")))
    else if c.t == Some("str") then Ok(empty.(valueType := StringType, value := Text(raw)))
    else if raw == "" then Ok(empty)
    else match parseFloat(raw)
      case None => Ok(empty.(valueType := StringType, value := Text(raw)))
      case Some(f) =>
        if IsLikelyDateFormat(numFmtId, fmtCode) then
          match ExcelSerialToDatetime(f)
          case Err(e) => Err(e)
          case Ok(_) => Ok(empty.(valueType := DateType, value := DateValue(f.x, ExcelDayOffset(f.x))))
        else Ok(empty.(valueType := NumberType, value := Number(f)))
  }

  /** A date cell whose serial is far beyond 31 December 9999 (3000000 under the
      built-in date format 14) makes `cell_value_from_xml` raise. */
  lemma FarDateRaises(c: CellXml, sharedStrings: seq<string>, styles: Styles,
                      parseFloat: string -> Option<PyFloat>)
    requires c.t == None && c.s == Some("0") && c.v == Some("3000000")
    requires styles.cellXfsNumFmtId == [14] && parseFloat("3000000") == Some(Finite(3000000.0))
    ensures CellValueFromXml(c, sharedStrings, styles, parseFloat) == Err(DateOutOfRange)
  {
    assert StyleIndex(c.s) == Some(0) by { assert DigitsValue("0") == 0; }
    SerialOutOfRange(3000000.0);
  }

  /** A date cell holding NaN raises too, while the same value under a number format is
      kept as a number. */
  lemma NanDateRaises(c: CellXml, sharedStrings: seq<string>, styles: Styles,
                      parseFloat: string -> Option<PyFloat>)
    requires c.t == None && c.v.Some? && c.v.value != "" && parseFloat(c.v.value) == Some(NaN)
    ensures IsLikelyDateFormat(styles.GetNumFmt(StyleIndex(c.s)).0, styles.GetNumFmt(StyleIndex(c.s)).1) ==>
      CellValueFromXml(c, sharedStrings, styles, parseFloat) == Err(NanToInt)
    ensures !IsLikelyDateFormat(styles.GetNumFmt(StyleIndex(c.s)).0, styles.GetNumFmt(StyleIndex(c.s)).1) ==>
      CellValueFromXml(c, sharedStrings, styles, parseFloat).Ok?
      && CellValueFromXml(c, sharedStrings, styles, parseFloat).value.value == Number(NaN)
  {
  }

  /** A typed cell together with its coordinates, as `iter_sheet_cells` yields it. */
  datatype SheetCell = SheetCell(rec: CellRecord, row: nat, col: nat, colLetters: string)

  /** A cell takes part when its `r` attribute is present and non-empty. */
  predicate Referenced(c: CellXml)
  {
    c.r.Some? && c.r.value != ""
  }

  /** The cells that take part, in document order. */
  function ReferencedOnly(cells: seq<CellXml>): (r: seq<CellXml>)
    ensures forall k :: 0 <= k < |r| ==> Referenced(r[k])
    decreases |cells|
  {
    if cells == [] then []
    else if Referenced(cells[0]) then [cells[0]] + ReferencedOnly(cells[1..])
    else ReferencedOnly(cells[1..])
  }

  /** A yielded cell's position is the one its reference names, and its column letters
      spell its column. */
  predicate WellPlaced(sc: SheetCell)
  {
    sc.col >= 1 && sc.colLetters == ColumnLetters(sc.col)
    && sc.rec.a1.Some? && A1ToRcSpec(sc.rec.a1.value) == Ok((sc.row, sc.col))
  }

  /** What stops `iter_sheet_cells`: a reference that `a1_to_rc` refuses, or a date serial
      that `excel_serial_to_datetime` cannot convert. */
  datatype CellError = BadReference(coord: CoordError) | BadDate(date: DateError)

  /** A referenced cell stops the export when its value raises or its reference does not
      match. */
  ghost predicate CellFails(c: CellXml, sharedStrings: seq<string>, styles: Styles,
                      parseFloat: string -> Option<PyFloat>)
  {
    Referenced(c) && (CellValueFromXml(c, sharedStrings, styles, parseFloat).Err? || !MatchesA1(c.r.value))
  }

  /** The error a failing cell raises: its value is read first, its reference after. */
  function FailureOf(c: CellXml, sharedStrings: seq<string>, styles: Styles,
                     parseFloat: string -> Option<PyFloat>): CellError
    requires CellFails(c, sharedStrings, styles, parseFloat)
  {
    if CellValueFromXml(c, sharedStrings, styles, parseFloat).Err? then
      BadDate(CellValueFromXml(c, sharedStrings, styles, parseFloat).error)
    else BadReference(UnsupportedCellReference(c.r.value))
  }

  /** `iter_sheet_cells`, consumed to the end: the referenced cells in document order,
      or the error of the first cell that fails, its value being read before its
      reference is parsed. */
  function ReferencedCells(cells: seq<CellXml>, sharedStrings: seq<string>, styles: Styles,
                      parseFloat: string -> Option<PyFloat>): (r: Result<seq<SheetCell>, CellError>)
    ensures r.Ok? <==> forall i :: 0 <= i < |cells| ==> !CellFails(cells[i], sharedStrings, styles, parseFloat)
    ensures r.Ok? ==> forall k :: 0 <= k < |r.value| ==> WellPlaced(r.value[k])
    decreases |cells|
  {
    if cells == [] then Ok([])
    else
      var c := cells[0];
      var rest := ReferencedCells(cells[1..], sharedStrings, styles, parseFloat);
      assert forall i :: 1 <= i < |cells| ==> cells[i] == cells[1..][i - 1];
      if !Referenced(c) then rest
      else
        SplitA1Matches(c.r.value);
        match CellValueFromXml(c, sharedStrings, styles, parseFloat)
        case Err(e) => Err(BadDate(e))
        case Ok(rec) =>
          match A1ToRcSpec(c.r.value)
          case Err(e) => Err(BadReference(e))
          case Ok((row, col)) =>
            ColumnNumberPositive(SplitA1(c.r.value).value.0);
            match rest
            case Err(e) => Err(e)
            case Ok(later) => Ok([SheetCell(rec, row, col, ColumnLetters(col))] + later)
  }

  /** One step of a failing run: a failing first cell reports its own error, and
      otherwise the run fails as the rest of the cells do. */
  lemma ReferencedCellsHead(cells: seq<CellXml>, sharedStrings: seq<string>, styles: Styles,
                            parseFloat: string -> Option<PyFloat>)
    requires cells != []
    ensures var r := ReferencedCells(cells, sharedStrings, styles, parseFloat);
      CellFails(cells[0], sharedStrings, styles, parseFloat) ==>
        r.Err? && r.error == FailureOf(cells[0], sharedStrings, styles, parseFloat)
    ensures var r := ReferencedCells(cells, sharedStrings, styles, parseFloat);
      var rest := ReferencedCells(cells[1..], sharedStrings, styles, parseFloat);
      !CellFails(cells[0], sharedStrings, styles, parseFloat) ==>
        (r.Err? <==> rest.Err?) && (r.Err? ==> r.error == rest.error)
  {
    var c := cells[0];
    if Referenced(c) {
      SplitA1Matches(c.r.value);
    }
  }

  /** A failed run reports the first failing cell in document order, with the error that
      cell raises first. */
  lemma {:induction false} ReferencedCellsFirstFailure(cells: seq<CellXml>, sharedStrings: seq<string>, styles: Styles,
                                                       parseFloat: string -> Option<PyFloat>)
    requires ReferencedCells(cells, sharedStrings, styles, parseFloat).Err?
    ensures var r := ReferencedCells(cells, sharedStrings, styles, parseFloat);
      exists i :: 0 <= i < |cells| && CellFails(cells[i], sharedStrings, styles, parseFloat)
        && (forall j :: 0 <= j < i ==> !CellFails(cells[j], sharedStrings, styles, parseFloat))
        && r.error == FailureOf(cells[i], sharedStrings, styles, parseFloat)
    decreases |cells|
  {
    ReferencedCellsHead(cells, sharedStrings, styles, parseFloat);
    if !CellFails(cells[0], sharedStrings, styles, parseFloat) {
      var tail := cells[1..];
      ReferencedCellsFirstFailure(tail, sharedStrings, styles, parseFloat);
      var i :| 0 <= i < |tail| && CellFails(tail[i], sharedStrings, styles, parseFloat)
        && (forall j :: 0 <= j < i ==> !CellFails(tail[j], sharedStrings, styles, parseFloat))
        && ReferencedCells(tail, sharedStrings, styles, parseFloat).error == FailureOf(tail[i], sharedStrings, styles, parseFloat);
      assert cells[i + 1] == tail[i];
      forall j | 0 <= j < i + 1
        ensures !CellFails(cells[j], sharedStrings, styles, parseFloat)
      {
        if j > 0 { assert cells[j] == tail[j - 1]; }
      }
    }
  }

  /** A yielded cell is the given cell typed by `cell_value_from_xml` and placed where its
      reference names. */
  predicate Yielded(sc: SheetCell, c: CellXml, sharedStrings: seq<string>, styles: Styles,
                    parseFloat: string -> Option<PyFloat>)
  {
    CellValueFromXml(c, sharedStrings, styles, parseFloat) == Ok(sc.rec)
    && c.r.Some? && A1ToRcSpec(c.r.value) == Ok((sc.row, sc.col))
  }

  /** One step of `iter_sheet_cells`: a referenced first cell is yielded before the rest. */
  lemma ReferencedCellsStep(cells: seq<CellXml>, sharedStrings: seq<string>, styles: Styles,
                            parseFloat: string -> Option<PyFloat>)
    requires cells != [] && ReferencedCells(cells, sharedStrings, styles, parseFloat).Ok?
    ensures ReferencedCells(cells[1..], sharedStrings, styles, parseFloat).Ok?
    ensures var all := ReferencedCells(cells, sharedStrings, styles, parseFloat).value;
      var rest := ReferencedCells(cells[1..], sharedStrings, styles, parseFloat).value;
      if Referenced(cells[0]) then
        all != [] && all == [all[0]] + rest && Yielded(all[0], cells[0], sharedStrings, styles, parseFloat)
      else all == rest
  {
  }

  /** Pairing extends by one yielded cell at the front. */
  lemma YieldedCons(x: SheetCell, rest: seq<SheetCell>, c: CellXml, later: seq<CellXml>,
                    sharedStrings: seq<string>, styles: Styles, parseFloat: string -> Option<PyFloat>)
    requires Yielded(x, c, sharedStrings, styles, parseFloat)
    requires |rest| == |later| && forall k :: 0 <= k < |later| ==> Yielded(rest[k], later[k], sharedStrings, styles, parseFloat)
    ensures var all := [x] + rest; var refs := [c] + later;
      |all| == |refs| && forall k :: 0 <= k < |refs| ==> Yielded(all[k], refs[k], sharedStrings, styles, parseFloat)
  {
    var all := [x] + rest;
    var refs := [c] + later;
    forall k | 0 <= k < |refs| ensures Yielded(all[k], refs[k], sharedStrings, styles, parseFloat) {
      if k > 0 {
        assert all[k] == rest[k - 1] && refs[k] == later[k - 1];
      }
    }
  }

  /** A successful `iter_sheet_cells` yields one cell per referenced cell, in document
      order, typed from that cell and placed where its reference names. */
  lemma {:induction false} ReferencedCellsContents(cells: seq<CellXml>, sharedStrings: seq<string>, styles: Styles,
                                                   parseFloat: string -> Option<PyFloat>)
    requires ReferencedCells(cells, sharedStrings, styles, parseFloat).Ok?
    ensures var r := ReferencedCells(cells, sharedStrings, styles, parseFloat).value;
      var refs := ReferencedOnly(cells);
      |r| == |refs| && forall k :: 0 <= k < |refs| ==> Yielded(r[k], refs[k], sharedStrings, styles, parseFloat)
    decreases |cells|
  {
    if cells != [] {
      ReferencedCellsStep(cells, sharedStrings, styles, parseFloat);
      ReferencedCellsContents(cells[1..], sharedStrings, styles, parseFloat);
      var all := ReferencedCells(cells, sharedStrings, styles, parseFloat).value;
      var rest := ReferencedCells(cells[1..], sharedStrings, styles, parseFloat).value;
      if Referenced(cells[0]) {
        YieldedCons(all[0], rest, cells[0], ReferencedOnly(cells[1..]), sharedStrings, styles, parseFloat);
      }
    }
  }

  /** The column label `rc_to_a1(1, col).rstrip("1")` is the column letters. */
  lemma ColumnLabel(col: nat)
    requires col >= 1
    ensures RcToA1Spec(1, col) == Ok(ColumnLetters(col) + "1")
  {
  }
}
