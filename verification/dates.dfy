/** Calendar dates as Python's `datetime.date` holds them, the
    `strptime(s, "%m/%d/%Y")` parser the adapters use, and the ISO
    `YYYY-MM-DD` text the store persists. */
module Dates {
  import opened Wrappers
  import opened Text

  datatype Ymd = Ymd(year: int, month: int, day: int)

  predicate IsLeapYear(y: int) {
    y % 4 == 0 && (y % 100 != 0 || y % 400 == 0)
  }

  function DaysInMonth(y: int, m: int): int
    requires 1 <= m <= 12
  {
    if m == 2 then (if IsLeapYear(y) then 29 else 28)
    else if m == 4 || m == 6 || m == 9 || m == 11 then 30
    else 31
  }

  /** The values `datetime.date` accepts (years MINYEAR = 1 to MAXYEAR = 9999). */
  predicate IsValid(d: Ymd) {
    1 <= d.year <= 9999 && 1 <= d.month <= 12 && 1 <= d.day <= DaysInMonth(d.year, d.month)
  }

  type Date = d: Ymd | IsValid(d) witness Ymd(1970, 1, 1)

  /** `datetime.strptime(s, "%m/%d/%Y").date()`: a month of one or two digits
      (1 to 12), a day of one or two digits (1 to 31), a year of exactly four
      digits, separated by '/', naming a day that exists. */
  function ParseMonthDayYear(s: string): Option<Date> {
    var parts := Split(s, '/');
    if |parts| != 3 then None
    else
      var ms, ds, ys := parts[0], parts[1], parts[2];
      if 1 <= |ms| <= 2 && AllDigits(ms) && 1 <= |ds| <= 2 && AllDigits(ds)
         && |ys| == 4 && AllDigits(ys)
      then
        var d := Ymd(DigitsValue(ys), DigitsValue(ms), DigitsValue(ds));
        if IsValid(d) then Some(d) else None
      else None
  }

  /** `d.strftime("%m/%d/%Y")`, the text the parser above reads back. */
  function FormatMonthDayYear(d: Date): string {
    PadNat(d.month, 2) + "/" + PadNat(d.day, 2) + "/" + PadNat(d.year, 4)
  }

  /** The three fields of a date render as four, two and two digits
      holding the year, the month and the day. */
  lemma DateFieldWidths(d: Date)
    ensures |PadNat(d.year, 4)| == 4 && |PadNat(d.month, 2)| == 2 && |PadNat(d.day, 2)| == 2
    ensures AllDigits(PadNat(d.year, 4)) && DigitsValue(PadNat(d.year, 4)) == d.year
    ensures AllDigits(PadNat(d.month, 2)) && DigitsValue(PadNat(d.month, 2)) == d.month
    ensures AllDigits(PadNat(d.day, 2)) && DigitsValue(PadNat(d.day, 2)) == d.day
  {
    assert Pow10(2) == 100;
    assert Pow10(4) == 10000;
    PadNatDigits(d.year, 4);
    PadNatDigits(d.month, 2);
    PadNatDigits(d.day, 2);
  }

  /** Every date survives formatting and re-parsing as `MM/DD/YYYY`. */
  lemma ParseFormatMonthDayYear(d: Date)
    ensures ParseMonthDayYear(FormatMonthDayYear(d)) == Some(d)
  {
    DateFieldWidths(d);
    var m, dd, y := PadNat(d.month, 2), PadNat(d.day, 2), PadNat(d.year, 4);
    assert '/' !in m && '/' !in dd && '/' !in y by {
      assert forall i :: 0 <= i < |m| ==> IsDigit(m[i]);
      assert forall i :: 0 <= i < |dd| ==> IsDigit(dd[i]);
      assert forall i :: 0 <= i < |y| ==> IsDigit(y[i]);
    }
    assert FormatMonthDayYear(d) == m + ['/'] + (dd + ['/'] + y);
    SplitAtFirstSep(m, '/', dd + ['/'] + y);
    SplitAtFirstSep(dd, '/', y);
    SplitWithoutSep(y, '/');
  }

  /** `d.isoformat()` */
  function IsoFormat(d: Date): string {
    PadNat(d.year, 4) + "-" + PadNat(d.month, 2) + "-" + PadNat(d.day, 2)
  }

  /** `date.fromisoformat(s)` for the `YYYY-MM-DD` form. */
  function ParseIso(s: string): (r: Option<Date>)
    ensures r.Some? ==> |s| == 10
  {
    if |s| == 10 && s[4] == '-' && s[7] == '-'
       && AllDigits(s[..4]) && AllDigits(s[5..7]) && AllDigits(s[8..])
    then
      var d := Ymd(DigitsValue(s[..4]), DigitsValue(s[5..7]), DigitsValue(s[8..]));
      if IsValid(d) then Some(d) else None
    else None
  }

  /** The ISO text of a date reads back as the same date. */
  lemma ParseIsoFormat(d: Date)
    ensures |IsoFormat(d)| == 10
    ensures ParseIso(IsoFormat(d)) == Some(d)
  {
    DateFieldWidths(d);
    var s := IsoFormat(d);
    assert s[..4] == PadNat(d.year, 4);
    assert s[5..7] == PadNat(d.month, 2);
    assert s[8..] == PadNat(d.day, 2);
  }

  /** Calendar order: `a` is on or before `b`. */
  predicate DateLe(a: Date, b: Date) {
    a.year < b.year || (a.year == b.year && (a.month < b.month || (a.month == b.month && a.day <= b.day)))
  }

  /** The text order of two fixed-width digit fields joined by a separator
      decides on the first field unless the two first fields hold the same
      number. */
  lemma FieldThenRest(n: nat, m: nat, width: nat, x: string, y: string)
    requires 1 <= width && n < Pow10(width) && m < Pow10(width)
    ensures LexLe(PadNat(n, width) + x, PadNat(m, width) + y) <==> n < m || (n == m && LexLe(x, y))
  {
    var a, b := PadNat(n, width), PadNat(m, width);
    PadNatDigits(n, width);
    PadNatDigits(m, width);
    LexLeConcat(a, x, b, y);
    DigitOrder(a, b);
  }

  /** `-DD` against `-DD`: day order. */
  lemma DayFieldOrder(d: nat, e: nat)
    requires d < 100 && e < 100
    ensures LexLe("-" + PadNat(d, 2), "-" + PadNat(e, 2)) <==> d <= e
  {
    assert Pow10(2) == 100;
    PadNatDigits(d, 2);
    PadNatDigits(e, 2);
    LexLeConcat("-", PadNat(d, 2), "-", PadNat(e, 2));
    DigitOrder(PadNat(d, 2), PadNat(e, 2));
  }

  /** `-MM-DD` against `-MM-DD`: month order, then day order. */
  lemma MonthDayFieldOrder(m: nat, d: nat, n: nat, e: nat)
    requires m < 100 && d < 100 && n < 100 && e < 100
    ensures LexLe("-" + PadNat(m, 2) + "-" + PadNat(d, 2), "-" + PadNat(n, 2) + "-" + PadNat(e, 2))
            <==> m < n || (m == n && d <= e)
  {
    assert Pow10(2) == 100;
    var x, y := "-" + PadNat(d, 2), "-" + PadNat(e, 2);
    assert "-" + PadNat(m, 2) + "-" + PadNat(d, 2) == "-" + (PadNat(m, 2) + x);
    assert "-" + PadNat(n, 2) + "-" + PadNat(e, 2) == "-" + (PadNat(n, 2) + y);
    LexLeConcat("-", PadNat(m, 2) + x, "-", PadNat(n, 2) + y);
    FieldThenRest(m, n, 2, x, y);
    DayFieldOrder(d, e);
  }

  /** ISO text order is calendar order, so sorting the stored ISO dates as
      text sorts them by date. */
  lemma IsoOrderIsDateOrder(a: Date, b: Date)
    ensures LexLe(IsoFormat(a), IsoFormat(b)) <==> DateLe(a, b)
  {
    assert Pow10(4) == 10000;
    var x := "-" + PadNat(a.month, 2) + "-" + PadNat(a.day, 2);
    var y := "-" + PadNat(b.month, 2) + "-" + PadNat(b.day, 2);
    assert IsoFormat(a) == PadNat(a.year, 4) + x;
    assert IsoFormat(b) == PadNat(b.year, 4) + y;
    FieldThenRest(a.year, b.year, 4, x, y);
    MonthDayFieldOrder(a.month, a.day, b.month, b.day);
  }
}
