/**
 * Cell coordinates of an Excel worksheet: A1 references and (row, column)
 * pairs, 1-based. Columns are written in bijective base 26 ("A" = 1,
 * "Z" = 26, "AA" = 27). Models `a1_to_rc`, `rc_to_a1` and `parse_range`
 * of the XLSX exporter.
 */
module SheetCoords {
  import opened Wrappers
  import opened Text

  /** Why a coordinate could not be converted (both are `ValueError` in the exporter). */
  datatype CoordError =
    | UnsupportedCellReference(reference: string)
    | InvalidRc(row: int, col: int)

  /** A used range: minimum and maximum row and column, inclusive. */
  datatype Range = Range(minRow: nat, minCol: nat, maxRow: nat, maxCol: nat)

  predicate IsUpper(c: char) { 'A' <= c <= 'Z' }

  predicate AllUpper(s: string)
  {
    forall i :: 0 <= i < |s| ==> IsUpper(s[i])
  }

  /** The column number that column letters denote, read most significant letter first. */
  function ColumnNumber(letters: string): nat
    requires AllUpper(letters)
  {
    if letters == [] then 0
    else ColumnNumber(letters[..|letters| - 1]) * 26 + (letters[|letters| - 1] as int - 'A' as int + 1)
  }

  /** The column letters of a column number; column 0 has none. */
  function ColumnLetters(col: nat): (r: string)
    ensures AllUpper(r)
    ensures |r| == 0 <==> col == 0
  {
    if col == 0 then [] else ColumnLetters((col - 1) / 26) + [('A' as int + (col - 1) % 26) as char]
  }

  lemma {:induction false} ColumnNumberPositive(letters: string)
    requires AllUpper(letters) && letters != []
    ensures ColumnNumber(letters) >= 1
  {
  }

  /** Reading the letters of a column gives the column back. */
  lemma {:induction false} ColumnNumberOfLetters(col: nat)
    ensures ColumnNumber(ColumnLetters(col)) == col
  {
    if col > 0 {
      var s := ColumnLetters(col);
      assert s[..|s| - 1] == ColumnLetters((col - 1) / 26);
      ColumnNumberOfLetters((col - 1) / 26);
    }
  }

  /** Writing the number of any upper-case letter string gives the string back:
      the letters and the numbers are in one-to-one correspondence. */
  lemma {:induction false} ColumnLettersOfNumber(letters: string)
    requires AllUpper(letters)
    ensures ColumnLetters(ColumnNumber(letters)) == letters
  {
    if letters != [] {
      var init := letters[..|letters| - 1];
      var d := letters[|letters| - 1] as int - 'A' as int;
      var n := ColumnNumber(letters);
      assert n - 1 == ColumnNumber(init) * 26 + d;
      assert (n - 1) / 26 == ColumnNumber(init) && (n - 1) % 26 == d;
      ColumnLettersOfNumber(init);
      assert letters == init + [letters[|letters| - 1]];
    }
  }

  /** Python's `$` also matches just before a final newline, so a reference may end in "\n". */
  function A1Body(s: string): string
  {
    if |s| > 0 && s[|s| - 1] == '\n' then s[..|s| - 1] else s
  }

  /** Length of the leading run of upper-case letters. */
  function UpperPrefixLength(s: string): (k: nat)
    ensures k <= |s| && AllUpper(s[..k])
    ensures k < |s| ==> !IsUpper(s[k])
  {
    if |s| > 0 && IsUpper(s[0]) then
      var k := 1 + UpperPrefixLength(s[1..]);
      assert s[..k] == [s[0]] + s[1..][..k - 1];
      k
    else 0
  }

  lemma {:induction false} UpperPrefixUnique(s: string, j: nat)
    requires j < |s| && AllUpper(s[..j]) && !IsUpper(s[j])
    ensures UpperPrefixLength(s) == j
  {
    if j > 0 {
      assert s[1..][..j - 1] == s[..j][1..];
      UpperPrefixUnique(s[1..], j - 1);
    }
  }

  /** `re.match(r"^([A-Z]+)([0-9]+)$", s)`: the letters group and the digits group. */
  function SplitA1(s: string): Option<(string, string)>
  {
    var b := A1Body(s);
    var k := UpperPrefixLength(b);
    if 0 < k < |b| && AllDigits(b[k..]) then Some((b[..k], b[k..])) else None
  }

  /** The language of the pattern, stated declaratively: one or more capitals, then
      one or more decimal digits, then optionally one newline. */
  ghost predicate MatchesA1(s: string)
  {
    exists k :: 0 < k < |A1Body(s)| && AllUpper(A1Body(s)[..k]) && AllDigits(A1Body(s)[k..])
  }

  lemma SplitA1Matches(s: string)
    ensures SplitA1(s).Some? <==> MatchesA1(s)
    ensures SplitA1(s).Some? ==>
      var (l, d) := SplitA1(s).value;
      l != [] && d != [] && AllUpper(l) && AllDigits(d) && A1Body(s) == l + d
  {
    var b := A1Body(s);
    var k := UpperPrefixLength(b);
    if MatchesA1(s) {
      var j :| 0 < j < |b| && AllUpper(b[..j]) && AllDigits(b[j..]);
      assert b[j..][0] == b[j];
      UpperPrefixUnique(b, j);
    }
    if SplitA1(s).Some? {
      assert b == b[..k] + b[k..];
    }
  }

  /** `a1_to_rc` as a value: the row is the decimal digits (leading zeros allowed,
      row 0 accepted), the column the bijective base-26 value of the letters. */
  function A1ToRcSpec(a1: string): Result<(nat, nat), CoordError>
  {
    match SplitA1(a1)
    case None => Err(UnsupportedCellReference(a1))
    case Some((letters, digits)) =>
      SplitA1Matches(a1);
      Ok((DigitsValue(digits), ColumnNumber(letters)))
  }

  /** `a1_to_rc`: match the pattern, then accumulate the column letter by letter. */
  method A1ToRc(a1: string) returns (r: Result<(nat, nat), CoordError>)
    ensures r == A1ToRcSpec(a1)
    ensures r.Ok? <==> MatchesA1(a1)
    ensures r.Ok? ==> r.value.1 >= 1
  {
    SplitA1Matches(a1);
    var m := SplitA1(a1);
    if m.None? {
      return Err(UnsupportedCellReference(a1));
    }
    var (letters, digits) := m.value;
    var col: nat := 0;
    var i := 0;
    while i < |letters|
      invariant 0 <= i <= |letters|
      invariant col == ColumnNumber(letters[..i])
    {
      assert letters[..i + 1][..i] == letters[..i];
      col := col * 26 + (letters[i] as int - 'A' as int + 1);
      i := i + 1;
    }
    assert letters[..i] == letters;
    ColumnNumberPositive(letters);
    r := Ok((DigitsValue(digits), col));
  }

  function Reverse(s: string): (r: string)
    ensures |r| == |s|
  {
    if s == [] then [] else [s[|s| - 1]] + Reverse(s[..|s| - 1])
  }

  /** `rc_to_a1` as a value: column letters followed by the decimal row. */
  function RcToA1Spec(row: int, col: int): Result<string, CoordError>
  {
    if row < 1 || col < 1 then Err(InvalidRc(row, col)) else Ok(ColumnLetters(col) + NatToString(row))
  }

  /** `rc_to_a1`: collect the letters least significant first, then reverse them. */
  method RcToA1(row: int, col: int) returns (r: Result<string, CoordError>)
    ensures r == RcToA1Spec(row, col)
    ensures r.Ok? <==> row >= 1 && col >= 1
  {
    if row < 1 || col < 1 {
      return Err(InvalidRc(row, col));
    }
    var letters: string := [];
    var x: nat := col;
    while x != 0
      invariant ColumnLetters(col) == ColumnLetters(x) + Reverse(letters)
    {
      var rem := (x - 1) % 26;
      var ch := ('A' as int + rem) as char;
      assert (letters + [ch])[..|letters|] == letters;
      x := (x - 1) / 26;
      letters := letters + [ch];
    }
    assert ColumnLetters(x) + Reverse(letters) == Reverse(letters);
    r := Ok(Reverse(letters) + NatToString(row));
  }

  lemma {:induction false} UpperPrefixOfLettersDigits(l: string, d: string)
    requires AllUpper(l) && AllDigits(d) && d != []
    ensures UpperPrefixLength(l + d) == |l|
  {
    if l != [] {
      assert (l + d)[1..] == l[1..] + d;
      UpperPrefixOfLettersDigits(l[1..], d);
    } else {
      assert (l + d)[0] == d[0];
    }
  }

  /** Printing a valid (row, column) and parsing it back gives the same pair. */
  lemma RoundTripRc(row: nat, col: nat)
    requires row >= 1 && col >= 1
    ensures RcToA1Spec(row, col).Ok?
    ensures A1ToRcSpec(RcToA1Spec(row, col).value) == Ok((row, col))
  {
    var l := ColumnLetters(col);
    var d := NatToString(row);
    var s := l + d;
    assert A1Body(s) == s;
    UpperPrefixOfLettersDigits(l, d);
    assert s[..|l|] == l && s[|l|..] == d;
    assert SplitA1(s) == Some((l, d));
    NatToStringValue(row);
    ColumnNumberOfLetters(col);
  }

  lemma {:induction false} DigitsValuePositive(d: string)
    requires AllDigits(d) && d != [] && d[0] != '0'
    ensures DigitsValue(d) >= 1
  {
    if |d| > 1 {
      DigitsValuePositive(d[..|d| - 1]);
    }
  }

  /** A digit string without leading zero is the rendering of its value. */
  lemma {:induction false} NatToStringOfDigits(d: string)
    requires AllDigits(d) && d != [] && d[0] != '0'
    ensures NatToString(DigitsValue(d)) == d
  {
    if |d| > 1 {
      var init := d[..|d| - 1];
      DigitsValuePositive(init);
      NatToStringOfDigits(init);
      assert d == init + [d[|d| - 1]];
    }
  }

  /** The row digits of a reference do not start with a zero. */
  predicate NoLeadingZeroRow(a1: string)
  {
    match SplitA1(a1)
    case None => false
    case Some((_, d)) => d != [] && d[0] != '0'
  }

  /** Parsing a reference and printing it back gives the reference itself when it is
      canonical: no leading zero in the row, and no final newline. */
  lemma RoundTripA1(a1: string)
    requires MatchesA1(a1) && a1 != [] && a1[|a1| - 1] != '\n' && NoLeadingZeroRow(a1)
    ensures A1ToRcSpec(a1).Ok?
    ensures var (row, col) := A1ToRcSpec(a1).value; RcToA1Spec(row, col) == Ok(a1)
  {
    SplitA1Matches(a1);
    var (l, d) := SplitA1(a1).value;
    NatToStringOfDigits(d);
    ColumnLettersOfNumber(l);
    ColumnNumberPositive(l);
    DigitsValuePositive(d);
  }

  /** Python's `ref.split(":", 1)` when the reference contains a colon. */
  function SplitAtColon(s: string): (r: (string, string))
    requires ':' in s
    ensures ':' !in r.0 && s == r.0 + ":" + r.1
  {
    if s[0] == ':' then ("", s[1..])
    else
      var (a, b) := SplitAtColon(s[1..]);
      ([s[0]] + a, b)
  }

  /** `parse_range`: "A1:D10" in either corner order, or a single cell. */
  function ParseRange(ref: string): (r: Result<Range, CoordError>)
    ensures r.Ok? ==> r.value.minRow <= r.value.maxRow && r.value.minCol <= r.value.maxCol
    ensures r.Ok? ==> r.value.minCol >= 1
  {
    if ':' in ref then
      var (a, b) := SplitAtColon(ref);
      match A1ToRcSpec(a)
      case Err(e) => Err(e)
      case Ok((r1, c1)) =>
        match A1ToRcSpec(b)
        case Err(e) => Err(e)
        case Ok((r2, c2)) =>
          SplitA1Matches(a);
          SplitA1Matches(b);
          ColumnNumberPositive(SplitA1(a).value.0);
          ColumnNumberPositive(SplitA1(b).value.0);
          Ok(Range(Min(r1, r2), Min(c1, c2), Max(r1, r2), Max(c1, c2)))
    else
      match A1ToRcSpec(ref)
      case Err(e) => Err(e)
      case Ok((r0, c0)) =>
        SplitA1Matches(ref);
        ColumnNumberPositive(SplitA1(ref).value.0);
        Ok(Range(r0, c0, r0, c0))
  }

  function Min(a: nat, b: nat): nat { if a <= b then a else b }
  function Max(a: nat, b: nat): nat { if a <= b then b else a }

  /** A single cell is the one-cell range. */
  lemma ParseRangeSingle(ref: string)
    requires ':' !in ref
    ensures ParseRange(ref).Ok? <==> MatchesA1(ref)
    ensures ParseRange(ref).Ok? ==>
      var (row, col) := A1ToRcSpec(ref).value; ParseRange(ref) == Ok(Range(row, col, row, col))
  {
    SplitA1Matches(ref);
  }

  /** A two-corner range parses exactly when both corners do. */
  lemma ParseRangeOkIff(a: string, b: string)
    requires ':' !in a
    ensures ParseRange(a + ":" + b).Ok? <==> MatchesA1(a) && MatchesA1(b)
  {
    ColonSplit(a, b);
    SplitA1Matches(a);
    SplitA1Matches(b);
  }

  /** The corner order does not matter. */
  lemma ParseRangeSymmetric(a: string, b: string)
    requires ':' !in a && ':' !in b
    requires MatchesA1(a) && MatchesA1(b)
    ensures ParseRange(a + ":" + b) == ParseRange(b + ":" + a)
  {
    var ab := ParseRange(a + ":" + b);
    var ba := ParseRange(b + ":" + a);
    ParseRangeOkIff(a, b);
    ParseRangeOkIff(b, a);
    assert ab.Ok? && ba.Ok?;
    ParseRangeSpansCorners(a, b);
    ParseRangeSpansCorners(b, a);
    assert ab.value == ba.value;
  }

  /** The range of two corners is the smallest one that holds both. */
  lemma ParseRangeSpansCorners(a: string, b: string)
    requires ':' !in a
    requires ParseRange(a + ":" + b).Ok?
    ensures A1ToRcSpec(a).Ok? && A1ToRcSpec(b).Ok?
    ensures
      var (r1, c1) := A1ToRcSpec(a).value;
      var (r2, c2) := A1ToRcSpec(b).value;
      ParseRange(a + ":" + b).value == Range(Min(r1, r2), Min(c1, c2), Max(r1, r2), Max(c1, c2))
  {
    ColonSplit(a, b);
  }

  lemma {:induction false} ColonSplit(a: string, b: string)
    requires ':' !in a
    ensures ':' in a + ":" + b && SplitAtColon(a + ":" + b) == (a, b)
  {
    assert (a + ":" + b)[|a|] == ':';
    if a != [] {
      assert (a + ":" + b)[1..] == a[1..] + ":" + b;
      assert a[0] != ':' && ':' !in a[1..];
      ColonSplit(a[1..], b);
      assert [a[0]] + a[1..] == a;
    } else {
      assert (a + ":" + b)[1..] == b;
    }
  }

  /** The examples that pin the column numbering down. */
  lemma ColumnExamples()
    ensures ColumnLetters(1) == "A" && ColumnLetters(26) == "Z" && ColumnLetters(27) == "AA"
  {
  }

  /** Row 0 is accepted by the parser but refused by the printer. */
  lemma RowZeroExample()
    ensures A1ToRcSpec("A0") == Ok((0, 1)) && RcToA1Spec(0, 1).Err?
  {
    assert "A0"[1..] == "0" && UpperPrefixLength("0") == 0;
    assert "A0"[..1] == "A";
    assert SplitA1("A0") == Some(("A", "0"));
    assert ColumnNumber("A") == 1 by { assert "A"[..0] == ""; }
  }

  /** A leading zero in the row is accepted and dropped when printed back. */
  lemma LeadingZeroExample()
    ensures A1ToRcSpec("A01") == Ok((1, 1))
    ensures RcToA1Spec(1, 1) == Ok("A1")
  {
    assert "A01"[1..] == "01" && UpperPrefixLength("01") == 0;
    assert UpperPrefixLength("A01") == 1;
    assert "A01"[..1] == "A" && "A01"[1..] == "01";
    assert SplitA1("A01") == Some(("A", "01"));
    assert DigitsValue("01") == 1 by {
      assert "01"[..1] == "0" && "0"[..0] == "";
    }
    assert ColumnNumber("A") == 1 by { assert "A"[..0] == ""; }
    assert NatToString(1) == "1";
    assert ColumnLetters(1) + NatToString(1) == "A1";
  }

  /** Lower-case letters and absolute references are refused; a final newline is not. */
  lemma PatternExamples()
    ensures A1ToRcSpec("a1").Err? && A1ToRcSpec("$A$1").Err?
    ensures A1ToRcSpec("B2\n") == Ok((2, 2))
  {
    assert "B2\n"[..2] == "B2";
    assert "B2"[1..] == "2" && UpperPrefixLength("2") == 0;
    assert "B2"[..1] == "B" && "B2"[1..] == "2";
    assert SplitA1("B2\n") == Some(("B", "2"));
    assert ColumnNumber("B") == 2 by { assert "B"[..0] == ""; }
  }
}
