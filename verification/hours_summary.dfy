/** The summary report of worked hours: the "H hs M min" spelling of a
    duration, the half-month ("quincena") the report covers, the clamping of
    the period picker, and the column totals with the night-only mode. */
module HoursSummary {
  import opened Common
  import opened Strings

  // ---------------------------------------------------------------- durations

  /** `minutesToCommonHours`: negative durations show as zero; whole hours
      as "H hs", otherwise "H hs M min". */
  function CommonHours(minutes: int): string {
    var m := Max(0, minutes);
    NatToString(m / 60) + " hs" + MinutesPart(m % 60)
  }

  function MinutesPart(mins: nat): string {
    if mins == 0 then "" else " " + NatToString(mins) + " min"
  }

  /** A whole number of hours has no minutes part. */
  lemma CommonHoursWhole(hours: nat)
    ensures CommonHours(60 * hours) == NatToString(hours) + " hs"
  {
    var m := 60 * hours;
    assert Max(0, m) == m;
    assert m / 60 == hours && m % 60 == 0;
  }

  /** Nothing below zero is shown. */
  lemma CommonHoursNegative(minutes: int)
    requires minutes <= 0
    ensures CommonHours(minutes) == "0 hs"
  {
  }

  /** The number of digits a text starts with. */
  function LeadingDigits(w: string): (r: nat)
    ensures r <= |w|
  {
    if |w| == 0 || !IsDigit(w[0]) then 0 else 1 + LeadingDigits(w[1..])
  }

  /** Digits followed by a space: the digits are exactly the leading ones. */
  lemma {:induction false} LeadingDigitsBeforeSpace(s: string, x: string)
    requires AllDigits(s) && |x| > 0 && x[0] == ' '
    ensures LeadingDigits(s + x) == |s|
  {
    if |s| > 0 {
      LeadingDigitsBeforeSpace(s[1..], x);
      assert (s + x)[1..] == s[1..] + x;
    }
  }

  /** Two digit strings followed by texts that start with a space are equal
      when the concatenations are. */
  lemma DigitsPrefix(s: string, t: string, x: string, y: string)
    requires AllDigits(s) && AllDigits(t)
    requires |x| > 0 && x[0] == ' ' && |y| > 0 && y[0] == ' '
    requires s + x == t + y
    ensures s == t && x == y
  {
    LeadingDigitsBeforeSpace(s, x);
    LeadingDigitsBeforeSpace(t, y);
    assert s == (s + x)[..|s|];
    assert t == (t + y)[..|t|];
    assert x == (s + x)[|s|..];
    assert y == (t + y)[|t|..];
  }

  /** The minutes part determines the minutes. */
  lemma MinutesPartInjective(a: nat, b: nat)
    requires MinutesPart(a) == MinutesPart(b)
    ensures a == b
  {
    if a != 0 && b != 0 {
      assert NatToString(a) + " min" == MinutesPart(a)[1..];
      assert NatToString(b) + " min" == MinutesPart(b)[1..];
      DigitsPrefix(NatToString(a), NatToString(b), " min", " min");
      DigitsValueOfNatToString(a);
      DigitsValueOfNatToString(b);
    } else {
      assert |MinutesPart(a)| == 0 <==> a == 0;
      assert |MinutesPart(b)| == 0 <==> b == 0;
    }
  }

  /** The hours part and the rest are determined by the spelling. */
  lemma HoursPartInjective(a: nat, b: nat, xa: string, xb: string)
    requires NatToString(a) + " hs" + xa == NatToString(b) + " hs" + xb
    ensures a == b && xa == xb
  {
    var ha, hb := NatToString(a), NatToString(b);
    assert ha + (" hs" + xa) == ha + " hs" + xa;
    assert hb + (" hs" + xb) == hb + " hs" + xb;
    DigitsPrefix(ha, hb, " hs" + xa, " hs" + xb);
    DigitsValueOfNatToString(a);
    DigitsValueOfNatToString(b);
    assert xa == (" hs" + xa)[3..] && xb == (" hs" + xb)[3..];
  }

  /** The spelling never confuses two durations: it determines the
      (clamped) number of minutes. */
  lemma CommonHoursInjective(a: int, b: int)
    requires CommonHours(a) == CommonHours(b)
    ensures Max(0, a) == Max(0, b)
  {
    var ma, mb := Max(0, a), Max(0, b);
    HoursPartInjective(ma / 60, mb / 60, MinutesPart(ma % 60), MinutesPart(mb % 60));
    MinutesPartInjective(ma % 60, mb % 60);
  }

  // ---------------------------------------------------------------- half-month periods

  /** A calendar day; `month` counts from 0, as in JavaScript dates. */
  datatype Day = Day(year: int, month: int, day: int)

  /** `new Date(year, …)` reads the years 0 to 99 as 1900 to 1999. */
  function CalendarYear(year: int): int {
    if 0 <= year <= 99 then 1900 + year else year
  }

  predicate LeapYear(y: int) {
    y % 4 == 0 && (y % 100 != 0 || y % 400 == 0)
  }

  function DaysInMonth(y: int, m: int): (r: int)
    requires 0 <= m < 12
    ensures 28 <= r <= 31
    ensures m == 1 ==> (r == 29 <==> LeapYear(y))
  {
    if m == 1 then (if LeapYear(y) then 29 else 28)
    else if m == 3 || m == 5 || m == 8 || m == 10 then 30
    else 31
  }

  /** `getQuincenaRange(year, monthIndex, half)`: the first and last day
      of the period; a month index out of 0..11 rolls into a neighbouring
      year, as `Date` does. */
  function QuincenaRange(year: int, monthIndex: int, half: string): (r: (Day, Day))
    ensures var y := CalendarYear(year) + monthIndex / 12;
      var m := monthIndex % 12;
      r.0.year == r.1.year == y && r.0.month == r.1.month == m
      && 1 <= r.0.day <= r.1.day <= DaysInMonth(y, m)
      && (r.0.day == 16 <==> half == "2") && (r.0.day == 1 <==> half != "2")
      && (r.1.day == 15 <==> half == "1") && (half != "1" ==> r.1.day == DaysInMonth(y, m))
  {
    var y := CalendarYear(year) + monthIndex / 12;
    var m := monthIndex % 12;
    var startDay := if half == "2" then 16 else 1;
    var endDay := if half == "1" then 15 else DaysInMonth(y, m);
    (Day(y, m, startDay), Day(y, m, endDay))
  }

  /** The two halves are adjacent and together make the whole month; a
      half that is neither "1" nor "2" is the whole month. */
  lemma QuincenaHalves(year: int, monthIndex: int, half: string)
    ensures var first, second, whole := QuincenaRange(year, monthIndex, "1"), QuincenaRange(year, monthIndex, "2"), QuincenaRange(year, monthIndex, "all");
      first.0 == whole.0 && second.1 == whole.1
      && first.1.day + 1 == second.0.day
      && (half != "1" && half != "2" ==> QuincenaRange(year, monthIndex, half) == whole)
  {
  }

  /** The period picker of the report. */
  datatype Period = Period(year: int, monthIndex: int, half: string, from: Day, to: Day)

  /** `x` brought into `lo..hi`: kept inside, the nearer bound outside. */
  function Clamp(lo: int, hi: int, x: int): (r: int)
    requires lo <= hi
    ensures lo <= r <= hi
    ensures lo <= x <= hi ==> r == x
    ensures x < lo ==> r == lo
    ensures x > hi ==> r == hi
  {
    Min(hi, Max(lo, x))
  }

  /** `updateQuincena`: `rawYear` and `rawMonth` are the merged form values
      read as numbers (`None` when not a number), `currentYear` stands for
      the clock. A non-number keeps the previous value, a zero year means
      the current one, the year is clamped to 2000..2100, the month to
      0..11, and an unknown half becomes "all". */
  function UpdateQuincena(prev: Period, rawYear: Option<int>, rawMonth: Option<int>, half: string, currentYear: int): (r: Period)
    ensures 2000 <= r.year <= 2100 && 0 <= r.monthIndex <= 11
    ensures r.half == (if half == "1" || half == "2" || half == "all" then half else "all")
    ensures (r.from, r.to) == QuincenaRange(r.year, r.monthIndex, r.half)
    ensures rawYear.Some? && 2000 <= rawYear.value <= 2100 ==> r.year == rawYear.value
    ensures rawMonth.Some? && 0 <= rawMonth.value <= 11 ==> r.monthIndex == rawMonth.value
    ensures rawMonth.None? && 0 <= prev.monthIndex <= 11 ==> r.monthIndex == prev.monthIndex
    ensures rawYear.Some? && rawYear.value != 0 && rawYear.value < 2000 ==> r.year == 2000
    ensures rawYear.Some? && rawYear.value > 2100 ==> r.year == 2100
    ensures rawYear == Some(0) ==> r.year == Clamp(2000, 2100, currentYear)
    ensures rawYear.None? && prev.year != 0 ==> r.year == Clamp(2000, 2100, prev.year)
    ensures rawYear.None? && prev.year == 0 ==> r.year == Clamp(2000, 2100, currentYear)
    ensures rawMonth.Some? && rawMonth.value < 0 ==> r.monthIndex == 0
    ensures rawMonth.Some? && rawMonth.value > 11 ==> r.monthIndex == 11
    ensures rawMonth.None? ==> r.monthIndex == Clamp(0, 11, prev.monthIndex)
  {
    var baseYear := if rawYear.None? then prev.year else rawYear.value;
    var safeYear := Clamp(2000, 2100, if baseYear != 0 then baseYear else currentYear);
    var normalizedMonth := if rawMonth.None? then prev.monthIndex else rawMonth.value;
    var safeMonth := Clamp(0, 11, normalizedMonth);
    var nextHalf := if half == "1" || half == "2" || half == "all" then half else "all";
    var range := QuincenaRange(safeYear, safeMonth, nextHalf);
    Period(safeYear, safeMonth, nextHalf, range.0, range.1)
  }

  /** Submitting the picker unchanged changes nothing. */
  lemma UpdateQuincenaIdempotent(prev: Period, rawYear: Option<int>, rawMonth: Option<int>, half: string, currentYear: int, otherYear: int)
    ensures var p := UpdateQuincena(prev, rawYear, rawMonth, half, currentYear);
      UpdateQuincena(p, Some(p.year), Some(p.monthIndex), p.half, otherYear) == p
  {
  }

  /** The period always lies in one month of the years 2000 to 2100. */
  lemma UpdateQuincenaInRange(prev: Period, rawYear: Option<int>, rawMonth: Option<int>, half: string, currentYear: int)
    ensures var p := UpdateQuincena(prev, rawYear, rawMonth, half, currentYear);
      p.from.year == p.to.year == p.year && p.from.month == p.to.month == p.monthIndex
      && 1 <= p.from.day <= p.to.day <= DaysInMonth(p.year, p.monthIndex)
  {
  }

  // ---------------------------------------------------------------- totals

  /** One row of the server's summary; missing counters are 0. */
  datatype SummaryRow = SummaryRow(userId: string, username: string, displayName: string, normal: int, holiday: int, night: int)

  datatype Totals = Totals(normal: int, holiday: int, night: int)

  function AddRow(t: Totals, row: SummaryRow): Totals {
    Totals(t.normal + row.normal, t.holiday + row.holiday, t.night + row.night)
  }

  /** The `totals` reduce: the column sums. */
  function ColumnTotals(rows: seq<SummaryRow>): Totals
    decreases |rows|
  {
    if |rows| == 0 then Totals(0, 0, 0) else AddRow(ColumnTotals(rows[..|rows| - 1]), rows[|rows| - 1])
  }

  /** The totals of a split list are the sums of the parts' totals. */
  lemma {:induction false} ColumnTotalsConcat(a: seq<SummaryRow>, b: seq<SummaryRow>)
    ensures var ta, tb, t := ColumnTotals(a), ColumnTotals(b), ColumnTotals(a + b);
      t == Totals(ta.normal + tb.normal, ta.holiday + tb.holiday, ta.night + tb.night)
    decreases |b|
  {
    if |b| > 0 {
      ColumnTotalsConcat(a, b[..|b| - 1]);
      assert (a + b)[..|a + b| - 1] == a + b[..|b| - 1];
    } else {
      assert a + b == a;
    }
  }

  /** The name shown on a row. */
  function RowName(row: SummaryRow): string {
    OrElse(row.displayName, row.username)
  }

  /** The "total" of a row: only the night minutes in night-only mode. */
  function RowTotal(row: SummaryRow, nightOnly: bool): int {
    if nightOnly then row.night else row.normal + row.holiday + row.night
  }

  /** The footer: in night-only mode the normal and holiday columns show 0
      and the total is the night column. */
  datatype Footer = Footer(normal: int, holiday: int, night: int, total: int)

  function FooterOf(t: Totals, nightOnly: bool): (r: Footer)
    ensures r.night == t.night
    ensures r.total == r.normal + r.holiday + r.night
    ensures nightOnly ==> r.normal == 0 && r.holiday == 0
    ensures !nightOnly ==> r.normal == t.normal && r.holiday == t.holiday
  {
    if nightOnly then Footer(0, 0, t.night, t.night)
    else Footer(t.normal, t.holiday, t.night, t.normal + t.holiday + t.night)
  }

  function SumRowTotals(rows: seq<SummaryRow>, nightOnly: bool): int
    decreases |rows|
  {
    if |rows| == 0 then 0 else SumRowTotals(rows[..|rows| - 1], nightOnly) + RowTotal(rows[|rows| - 1], nightOnly)
  }

  /** The footer's total is the sum of the rows' totals, in either mode. */
  lemma {:induction false} FooterTotalIsSumOfRows(rows: seq<SummaryRow>, nightOnly: bool)
    ensures FooterOf(ColumnTotals(rows), nightOnly).total == SumRowTotals(rows, nightOnly)
    decreases |rows|
  {
    if |rows| > 0 {
      FooterTotalIsSumOfRows(rows[..|rows| - 1], nightOnly);
    }
  }
}
