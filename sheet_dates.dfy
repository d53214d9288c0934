/**
 * Date handling of the XLSX exporter: the heuristic that decides whether
 * a number format denotes a date (`is_likely_date_format`), and the whole
 * day of an Excel 1900-date-system serial (`excel_serial_to_datetime`,
 * whose day count reproduces Excel's fictitious 29 February 1900).
 */
module SheetDates {
  import opened Wrappers
  import opened Text

  /** The built-in number formats of Office Open XML (ECMA-376 Part 1, section 18.8.30)
      that the exporter treats as dates or times. */
  predicate IsBuiltinDateFormat(id: int)
  {
    14 <= id <= 22 || id == 45 || id == 46 || id == 47
  }

  /** The elapsed-time markers that keep a custom format from counting as a date. */
  predicate HasElapsedMarker(code: string)
  {
    var c := AsciiLower(code);
    Contains(c, "[h]") || Contains(c, "[m]") || Contains(c, "[s]")
  }

  /** The date and time tokens whose presence makes a custom format a date. */
  predicate HasDateToken(code: string)
  {
    var c := AsciiLower(code);
    Contains(c, "yy") || Contains(c, "yyyy") || Contains(c, "mm") || Contains(c, "dd")
    || Contains(c, "hh") || Contains(c, "ss")
  }

  /** `is_likely_date_format(num_fmt_id, fmt_code)`. Lower-casing is ASCII only: no other
      character lower-cases to one of the ASCII letters of the tokens. */
  function IsLikelyDateFormat(numFmtId: Option<int>, fmtCode: Option<string>): bool
  {
    if numFmtId.None? then false
    else if IsBuiltinDateFormat(numFmtId.value) then true
    else if fmtCode.Some? && fmtCode.value != "" then
      if HasElapsedMarker(fmtCode.value) then false else HasDateToken(fmtCode.value)
    else false
  }

  /** Without a format id nothing is a date, whatever the code says. */
  lemma NoIdIsNeverDate(fmtCode: Option<string>)
    ensures !IsLikelyDateFormat(None, fmtCode)
  {
  }

  /** A built-in date format is a date, even if its code has an elapsed-time marker. */
  lemma BuiltinIsDate(id: int, fmtCode: Option<string>)
    requires IsBuiltinDateFormat(id)
    ensures IsLikelyDateFormat(Some(id), fmtCode)
  {
  }

  /** For any other id the decision is made by the code alone, in the stated precedence. */
  lemma CustomFormatRule(id: int, fmtCode: Option<string>)
    requires !IsBuiltinDateFormat(id)
    ensures IsLikelyDateFormat(Some(id), fmtCode) <==>
      fmtCode.Some? && !HasElapsedMarker(fmtCode.value) && HasDateToken(fmtCode.value)
  {
    if fmtCode.Some? && fmtCode.value == "" {
      assert !Contains(AsciiLower(""), "yy") && !Contains(AsciiLower(""), "mm");
      assert !Contains(AsciiLower(""), "dd") && !Contains(AsciiLower(""), "hh");
      assert !Contains(AsciiLower(""), "ss") && !Contains(AsciiLower(""), "yyyy");
    }
  }

  /** "[h]:mm:ss" is a date under the built-in id 46, and not under a custom id. */
  lemma ElapsedExample(code: string)
    requires code == "[h]:mm:ss"
    ensures IsLikelyDateFormat(Some(46), Some(code))
    ensures !IsLikelyDateFormat(Some(164), Some(code))
  {
    assert AsciiLower(code)[..3] == "[h]";
    ContainsAt(AsciiLower(code), "[h]", 0);
  }

  /** "YYYY-MM-DD" under a custom id is a date. */
  lemma CustomDateExample(code: string)
    requires code == "YYYY-MM-DD"
    ensures IsLikelyDateFormat(Some(164), Some(code))
  {
    LowerDateCode(code);
    assert '[' !in AsciiLower(code);
    NoBracketNoElapsed(code);
    assert AsciiLower(code)[..2] == "yy";
    YearTokenFirst(code);
  }

  /** A code without '[' has no elapsed-time marker. */
  lemma NoBracketNoElapsed(code: string)
    requires '[' !in AsciiLower(code)
    ensures !HasElapsedMarker(code)
  {
    var c := AsciiLower(code);
    NotContainsChar(c, "[h]");
    NotContainsChar(c, "[m]");
    NotContainsChar(c, "[s]");
  }

  /** A code that starts with "yy" in lower case has a date token. */
  lemma YearTokenFirst(code: string)
    requires |code| >= 2 && AsciiLower(code)[..2] == "yy"
    ensures HasDateToken(code)
  {
    ContainsAt(AsciiLower(code), "yy", 0);
  }

  lemma LowerDateCode(code: string)
    requires code == "YYYY-MM-DD"
    ensures AsciiLower(code) == "yyyy-mm-dd"
  {
    var c := AsciiLower(code);
    forall i | 0 <= i < 10 ensures c[i] == "yyyy-mm-dd"[i] {
      assert c[i] == AsciiLowerChar(code[i]);
    }
  }

  /** A string without '[' contains no token that starts with '['. */
  lemma {:induction false} NotContainsChar(s: string, t: string)
    requires t != [] && t[0] == '[' && '[' !in s
    ensures !Contains(s, t)
    decreases |s|
  {
    if s != [] {
      assert s[1..] == s[1..] && '[' !in s[1..];
      NotContainsChar(s[1..], t);
    }
  }

  /** Python's `int(x)` on a float: truncation toward zero. */
  function TruncToInt(x: real): int
  {
    if x >= 0.0 then x.Floor else -((-x).Floor)
  }

  /** The whole number of days after 31 December 1899 that a serial denotes. From serial 60
      on, one day is taken off, because Excel counts a 29 February 1900 that never was. */
  function ExcelDayOffset(serial: real): (days: int)
    ensures 0.0 <= serial < 60.0 ==> days == serial.Floor
    ensures serial >= 60.0 ==> days == serial.Floor - 1
  {
    var d := TruncToInt(serial);
    if d >= 60 then d - 1 else d
  }

  /** A Python float as `float(raw)` returns it: a finite value, NaN, or an infinity
      ("inf", "nan" and out-of-range literals such as "1e400" all parse). */
  datatype PyFloat = Finite(x: real) | NaN | Infinity(negative: bool)

  /** Why `excel_serial_to_datetime` raises: `int(nan)` is a ValueError, `int(inf)` an
      OverflowError, and a result outside the years 1 to 9999 an OverflowError of
      `datetime + timedelta` (or of `timedelta` itself, for a day count beyond its range). */
  datatype DateError = NanToInt | InfinityToInt | DateOutOfRange

  /** Python's `round(x)` on a float: to the nearest integer, a tie to the even one. */
  function RoundHalfEven(x: real): (n: int)
    ensures x - 0.5 <= n as real <= x + 0.5
    ensures (n as real == x - 0.5 || n as real == x + 0.5) ==> n % 2 == 0
  {
    var f := x.Floor;
    var d := x - f as real;
    if d < 0.5 then f else if d > 0.5 then f + 1 else if f % 2 == 0 then f else f + 1
  }

  /** Seconds from 31 December 1899, 00:00 to 1 January 1 and to 31 December 9999,
      23:59:59, the range of a Python `datetime` with whole seconds. */
  const MinSeconds: int := -693594 * 86400
  const MaxSeconds: int := 2958464 * 86400 + 86399

  /** The instant a finite serial denotes, in seconds from 31 December 1899: the day
      count, plus the fraction of the serial rounded to whole seconds. The fraction is
      taken before the leap-day correction, and is negative for a negative serial. */
  function SerialSeconds(serial: real): int
  {
    ExcelDayOffset(serial) * 86400 + RoundHalfEven((serial - TruncToInt(serial) as real) * 86400.0)
  }

  /** `excel_serial_to_datetime(serial)`, as the instant in seconds from 31 December 1899,
      or the error it raises. */
  function ExcelSerialToDatetime(serial: PyFloat): (r: Result<int, DateError>)
    ensures r.Ok? ==> serial.Finite? && MinSeconds <= r.value <= MaxSeconds
    ensures r.Ok? ==> ExcelDayOffset(serial.x) * 86400 - 86400 <= r.value <= ExcelDayOffset(serial.x) * 86400 + 86400
  {
    match serial
    case NaN => Err(NanToInt)
    case Infinity(_) => Err(InfinityToInt)
    case Finite(x) =>
      var t := SerialSeconds(x);
      if MinSeconds <= t <= MaxSeconds then Ok(t) else Err(DateOutOfRange)
  }

  /** NaN and the infinities cannot be converted: `int()` raises before any date is built. */
  lemma NonFiniteSerialRaises(negative: bool)
    ensures ExcelSerialToDatetime(NaN) == Err(NanToInt)
    ensures ExcelSerialToDatetime(Infinity(negative)) == Err(InfinityToInt)
  {
  }

  /** Every serial from -693593 (2 January 1) to 2958465 (31 December 9999) converts. */
  lemma SerialInRange(serial: real)
    requires -693593.0 <= serial <= 2958465.0
    ensures ExcelSerialToDatetime(Finite(serial)).Ok?
  {
    var d := TruncToInt(serial);
    var s := RoundHalfEven((serial - d as real) * 86400.0);
    assert -1.0 < serial - d as real < 1.0;
    assert -86400 <= s <= 86400;
    if serial >= 0.0 {
      assert d as real <= serial;
      assert serial < 2958465.0 ==> d <= 2958464;
      assert serial == 2958465.0 ==> d == 2958465 && s == 0;
    } else {
      assert d >= -693593 && s <= 0;
    }
  }

  /** A serial from 2958466 on lies after 31 December 9999, and one at -693595 or below
      before 1 January 1: both raise. */
  lemma SerialOutOfRange(serial: real)
    requires serial >= 2958466.0 || serial <= -693595.0
    ensures ExcelSerialToDatetime(Finite(serial)) == Err(DateOutOfRange)
  {
    var d := TruncToInt(serial);
    var s := RoundHalfEven((serial - d as real) * 86400.0);
    if serial >= 0.0 {
      assert d >= 2958466 && s >= 0;
    } else {
      assert d <= -693595 && s <= 0;
    }
  }

  /** The last second of the last day converts; a serial whose fraction rounds up to the
      next midnight does not. */
  lemma LastDayBoundary()
    ensures ExcelSerialToDatetime(Finite(2958465.0 + 86399.0 / 86400.0)) == Ok(MaxSeconds)
    ensures ExcelSerialToDatetime(Finite(2958465.0 + 86399.75 / 86400.0)) == Err(DateOutOfRange)
  {
    assert TruncToInt(2958465.0 + 86399.0 / 86400.0) == 2958465;
    assert TruncToInt(2958465.0 + 86399.75 / 86400.0) == 2958465;
    assert RoundHalfEven(86399.0) == 86399;
    assert RoundHalfEven(86399.75) == 86400;
  }

  /** Day -693594 is 1 January of year 1, the first day a `datetime` can hold. */
  lemma DayOfFirstDate(days: int)
    requires days == -693594
    ensures DateAfterBase(days) == Date(1, 1, 1)
  {
    var z := days - 25568 + 719468;
    assert z == 306 && z / 146097 == 0;
    var doe := z - 0 * 146097;
    assert doe == 306;
    var yoe := (doe - doe / 1460 + doe / 36524 - doe / 146096) / 365;
    assert yoe == 0;
    var doy := doe - (365 * yoe + yoe / 4 - yoe / 100);
    assert doy == 306;
    var mp := (5 * doy + 2) / 153;
    assert mp == 10 && (153 * mp + 2) / 5 == 306;
  }

  /** Day -693595 is 31 December of year 0. */
  lemma DayBeforeFirstDate(days: int)
    requires days == -693595
    ensures DateAfterBase(days) == Date(0, 12, 31)
  {
    var z := days - 25568 + 719468;
    assert z == 305 && z / 146097 == 0;
    var doe := z - 0 * 146097;
    assert doe == 305;
    var yoe := (doe - doe / 1460 + doe / 36524 - doe / 146096) / 365;
    assert yoe == 0;
    var doy := doe - (365 * yoe + yoe / 4 - yoe / 100);
    assert doy == 305;
    var mp := (5 * doy + 2) / 153;
    assert mp == 9 && (153 * mp + 2) / 5 == 275;
  }

  /** Day 2958464 is 31 December 9999, the last day a `datetime` can hold. */
  lemma DayOfLastDate(days: int)
    requires days == 2958464
    ensures DateAfterBase(days) == Date(9999, 12, 31)
  {
    var z := days - 25568 + 719468;
    assert z == 3652364 && z / 146097 == 24;
    var doe := z - 24 * 146097;
    assert doe == 146036;
    var yoe := (doe - doe / 1460 + doe / 36524 - doe / 146096) / 365;
    assert yoe == 399;
    var doy := doe - (365 * yoe + yoe / 4 - yoe / 100);
    assert doy == 305;
    var mp := (5 * doy + 2) / 153;
    assert mp == 9 && (153 * mp + 2) / 5 == 275;
  }

  /** Day 2958465 is 1 January 10000. */
  lemma DayAfterLastDate(days: int)
    requires days == 2958465
    ensures DateAfterBase(days) == Date(10000, 1, 1)
  {
    var z := days - 25568 + 719468;
    assert z == 3652365 && z / 146097 == 24;
    var doe := z - 24 * 146097;
    assert doe == 146037;
    var yoe := (doe - doe / 1460 + doe / 36524 - doe / 146096) / 365;
    assert yoe == 399;
    var doy := doe - (365 * yoe + yoe / 4 - yoe / 100);
    assert doy == 306;
    var mp := (5 * doy + 2) / 153;
    assert mp == 10 && (153 * mp + 2) / 5 == 306;
  }

  /** The range ends are the first and the last day a `datetime` can hold. */
  lemma RangeEndDates(first: int, last: int)
    requires first * 86400 == MinSeconds && last * 86400 + 86399 == MaxSeconds
    ensures DateAfterBase(first) == Date(1, 1, 1) && DateAfterBase(first - 1) == Date(0, 12, 31)
    ensures DateAfterBase(last) == Date(9999, 12, 31) && DateAfterBase(last + 1) == Date(10000, 1, 1)
  {
    DayOfFirstDate(first);
    DayBeforeFirstDate(first - 1);
    DayOfLastDate(last);
    DayAfterLastDate(last + 1);
  }

  /** Serials 59 and 60 fall on the same day: Excel's phantom leap day maps onto 28 February. */
  lemma PhantomLeapDay()
    ensures ExcelDayOffset(59.0) == ExcelDayOffset(60.0) == 59
    ensures ExcelDayOffset(61.0) == 60
  {
  }

  /** The offset never decreases as the serial grows. */
  lemma DayOffsetMonotone(a: real, b: real)
    requires 0.0 <= a <= b
    ensures ExcelDayOffset(a) <= ExcelDayOffset(b)
  {
  }

  /** A calendar date of the proleptic Gregorian calendar. */
  datatype Date = Date(year: int, month: int, day: int)

  /** The date `days` days after 31 December 1899 (the civil-from-days conversion,
      counted from 1 March of year 0). */
  function DateAfterBase(days: int): Date
  {
    var z := days - 25568 + 719468;
    var era := z / 146097;
    var doe := z - era * 146097;
    var yoe := (doe - doe / 1460 + doe / 36524 - doe / 146096) / 365;
    var doy := doe - (365 * yoe + yoe / 4 - yoe / 100);
    var mp := (5 * doy + 2) / 153;
    var d := doy - (153 * mp + 2) / 5 + 1;
    var m := if mp < 10 then mp + 3 else mp - 9;
    var y := yoe + era * 400 + (if m <= 2 then 1 else 0);
    Date(y, m, d)
  }

  /** The date part of `excel_serial_to_datetime` for a whole-day serial. */
  function ExcelSerialDate(serial: real): Date
  {
    DateAfterBase(ExcelDayOffset(serial))
  }

  lemma FirstSerialExample()
    ensures ExcelSerialDate(1.0) == Date(1900, 1, 1)
  {
    assert ExcelDayOffset(1.0) == 1;
    assert DateAfterBase(1) == Date(1900, 1, 1) by {
      assert 693901 / 146097 == 4;
      assert (109513 - 109513 / 1460 + 109513 / 36524 - 109513 / 146096) / 365 == 299;
      assert 109513 - (365 * 299 + 299 / 4 - 299 / 100) == 306;
      assert (5 * 306 + 2) / 153 == 10;
    }
  }

  lemma LeapDayExample()
    ensures ExcelSerialDate(59.0) == Date(1900, 2, 28)
    ensures ExcelSerialDate(60.0) == Date(1900, 2, 28)
  {
    assert ExcelDayOffset(59.0) == 59 && ExcelDayOffset(60.0) == 59;
    assert DateAfterBase(59) == Date(1900, 2, 28) by {
      var z := 693959;
      assert z / 146097 == 4;
      assert (109571 - 109571 / 1460 + 109571 / 36524 - 109571 / 146096) / 365 == 299;
      assert (5 * 364 + 2) / 153 == 11;
    }
  }

  lemma MarchExample()
    ensures ExcelSerialDate(61.0) == Date(1900, 3, 1)
  {
    assert ExcelDayOffset(61.0) == 60;
    assert DateAfterBase(60) == Date(1900, 3, 1) by {
      assert 693960 / 146097 == 4;
      assert (109572 - 109572 / 1460 + 109572 / 36524 - 109572 / 146096) / 365 == 300;
      assert (5 * 0 + 2) / 153 == 0;
    }
  }

  lemma EpochExample()
    ensures ExcelSerialDate(25569.0) == Date(1970, 1, 1)
  {
    assert ExcelDayOffset(25569.0) == 25568;
    assert DateAfterBase(25568) == Date(1970, 1, 1) by {
      assert 719468 / 146097 == 4;
      assert (135080 - 135080 / 1460 + 135080 / 36524 - 135080 / 146096) / 365 == 369;
      assert 135080 - (365 * 369 + 369 / 4 - 369 / 100) == 306;
      assert (5 * 306 + 2) / 153 == 10;
    }
  }
}
