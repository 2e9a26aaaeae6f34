/** Calendar helpers: the month-abbreviation table, the 30-day month in
    seconds, and the `DD MON YYYY` label. The conversion of a Unix timestamp
    into a local calendar day, month and year (JavaScript's `Date`) is taken
    as given: the formatter receives those three numbers. */
module DateUtil {
  import opened Wrappers
  import opened JsText

  /** `monthMap`: a zero-based month number to its three-letter label. */
  const MonthMap: map<int, string> := map[
    0 := "JAN", 1 := "FEB", 2 := "MAR", 3 := "APR", 4 := "MAY", 5 := "JUN",
    6 := "JUL", 7 := "AUG", 8 := "SEP", 9 := "OCT", 10 := "NOV", 11 := "DEC"]

  /** Three upper-case ASCII letters. */
  predicate IsMonthLabel(s: string) {
    |s| == 3 && forall i :: 0 <= i < 3 ==> 'A' <= s[i] <= 'Z'
  }

  /** The table is defined on exactly the months 0..11, and its labels are
      twelve distinct three-letter upper-case words. */
  lemma MonthMapShape()
    ensures forall m :: m in MonthMap <==> 0 <= m < 12
    ensures forall m :: m in MonthMap ==> IsMonthLabel(MonthMap[m])
    ensures forall m, n :: m in MonthMap && n in MonthMap && m != n ==> MonthMap[m] != MonthMap[n]
  {
  }

  /** `monthMap[m]` spliced into a template literal: a key outside the table
      reads `undefined`. */
  function MonthLabel(month: int): (s: string)
    ensures month in MonthMap ==> IsMonthLabel(s)
  {
    MonthMapShape();
    if month in MonthMap then MonthMap[month] else "undefined"
  }

  /** `monthsToSeconds`: a month counts as 30 days of 86 400 seconds. */
  function MonthsToSeconds(numberOfMonths: int): int
  {
    numberOfMonths * 30 * (24 * 60 * 60)
  }

  /** Month lengths add up, and one month is the auto-repayment period. */
  lemma MonthsToSecondsAdditive(a: int, b: int)
    ensures MonthsToSeconds(a + b) == MonthsToSeconds(a) + MonthsToSeconds(b)
    ensures MonthsToSeconds(1) == 30 * 24 * 60 * 60 == 2592000
    ensures MonthsToSeconds(0) == 0
  {
  }

  /** `s.padStart(2, '0')`. */
  function PadStart2(s: string): (r: string)
    ensures |s| >= 2 ==> r == s
    ensures |s| < 2 ==> |r| == 2 && r[2 - |s|..] == s
    ensures forall i :: 0 <= i < |r| - |s| ==> r[i] == '0'
  {
    if |s| >= 2 then s
    else if |s| == 1 then "0" + s
    else "00"
  }

  /** The day-of-month part: `String(day).padStart(2, '0')`. */
  function DayPart(day: nat): string
  {
    PadStart2(NatToDecimal(day))
  }

  /** Every day of a month prints as two digits whose value is the day. */
  lemma DayPartTwoDigits(day: nat)
    requires day <= 99
    ensures |DayPart(day)| == 2 && AllDigits(DayPart(day))
    ensures DecimalValue(DayPart(day)) == day
  {
    var d := NatToDecimal(day);
    NatToDecimalValue(day);
    if day < 10 {
      assert d == [DigitChar(day)];
      var p := DayPart(day);
      assert p == ['0', d[0]];
      assert p[..1] == ['0'] && p[..1][..0] == [];
    } else {
      assert d == NatToDecimal(day / 10) + [DigitChar(day % 10)];
      assert day / 10 < 10;
      assert |d| == 2;
    }
  }

  /** `unixToDateString` once the timestamp has become a calendar date:
      `DD MON YYYY`. */
  function DateString(day: nat, month: int, year: int): string
  {
    DayPart(day) + " " + MonthLabel(month) + " " + IntToDecimal(year)
  }

  lemma NoSpaceInDigits(s: string)
    requires AllDigits(s)
    ensures ' ' !in s
  {
    forall i | 0 <= i < |s|
      ensures s[i] != ' '
    {
      assert IsDigit(s[i]);
    }
  }

  /** The label reads back: splitting at the spaces gives a two-digit day
      whose value is the day, the month's label from the table, and a year
      that `parseInt` returns unchanged. */
  lemma DateStringRoundTrip(day: nat, month: int, year: int)
    requires 1 <= day <= 31 && 0 <= month < 12
    ensures var parts := Split(DateString(day, month, year), ' ');
      && |parts| == 3
      && |parts[0]| == 2 && AllDigits(parts[0]) && DecimalValue(parts[0]) == day
      && parts[1] == MonthMap[month]
      && ParseInt(parts[2]) == Some(year)
  {
    var parts := [DayPart(day), MonthLabel(month), IntToDecimal(year)];
    DayPartTwoDigits(day);
    NoSpaceInDigits(DayPart(day));
    assert IsMonthLabel(MonthLabel(month));
    assert ' ' !in MonthLabel(month) by {
      forall i | 0 <= i < 3
        ensures MonthLabel(month)[i] != ' '
      {
        assert 'A' <= MonthLabel(month)[i];
      }
    }
    var n: nat := if year < 0 then -year else year;
    NoSpaceInDigits(NatToDecimal(n));
    assert ' ' !in IntToDecimal(year);
    assert Join(parts, ' ') == DateString(day, month, year) by {
      assert Join(parts[2..], ' ') == IntToDecimal(year);
      assert parts[1..][1..] == parts[2..];
    }
    SplitJoin(parts, ' ');
    ParseIntOfDecimal(year);
  }
}
