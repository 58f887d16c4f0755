/** Clock arithmetic of the timesheet engine: "HH:MM" strings to minutes
    since midnight, the length of a shift that may cross midnight, and the
    minutes of a shift that fall inside the night windows. */
module TimeOfDay {
  import opened Common
  import opened Strings
  import opened Schemas

  const DayMinutes := 24 * 60
  const DayMs := 24 * 60 * 60 * 1000

  /** `Number(s)` on the spellings the model covers: optional surrounding
      whitespace around decimal digits, the empty string being 0. Any other
      spelling is NaN (None). */
  function NumberOf(s: string): (r: Option<nat>)
    ensures AllDigits(s) ==> r == Some(DigitsValue(s))
  {
    var t := Trim(s);
    if AllDigits(s) then
      assert t == s by { TrimDigits(s); }
      Some(DigitsValue(s))
    else if AllDigits(t) then Some(DigitsValue(t))
    else None
  }

  lemma TrimDigits(s: string)
    requires AllDigits(s)
    ensures Trim(s) == s
  {
    TrimStartNoop(s);
    TrimEndNoop(s);
  }

  /** `parseTimeToMinutes`: an empty string or one without ':' gives None; so
      do hours outside 0-23, minutes outside 0-59 and non-numeric parts.
      Only the first two ':'-separated parts are read. */
  function ParseTimeToMinutes(time: string): (r: Option<int>)
    ensures r.Some? ==> 0 <= r.value < DayMinutes
    ensures r.Some? ==> ':' in time
  {
    if time == "" || ':' !in time then None
    else
      SplitAtLeastTwo(time, ':');
      var parts := Split(time, ':');
      var hours := NumberOf(parts[0]);
      var minutes := NumberOf(parts[1]);
      if hours.None? || minutes.None? || hours.value > 23 || minutes.value > 59 then None
      else Some(hours.value * 60 + minutes.value)
  }

  function DigitValue(c: char): int { c as int - '0' as int }

  /** The minutes a string matching the clock pattern denotes: 60 * HH + MM. */
  function ClockValue(t: string): int
    requires TimePattern(t)
  {
    (10 * DigitValue(t[0]) + DigitValue(t[1])) * 60 + 10 * DigitValue(t[3]) + DigitValue(t[4])
  }

  /** Two-digit, zero-padded "HH:MM" for a minute of the day. */
  function FormatTime(m: int): (t: string)
    requires 0 <= m < DayMinutes
    ensures TimePattern(t)
  {
    var h := m / 60;
    var mm := m % 60;
    [DigitChar(h / 10), DigitChar(h % 10), ':', DigitChar(mm / 10), DigitChar(mm % 10)]
  }

  lemma SplitClock(t: string)
    requires TimePattern(t)
    ensures ':' in t
    ensures Split(t, ':') == [t[..2], t[3..]]
  {
    assert t[2] == ':';
    assert t == t[..2] + [':'] + t[3..];
    SplitPrefix(t[..2], t[3..], ':');
    SplitNoSep(t[3..], ':');
  }

  lemma DigitsValueTwo(s: string)
    requires |s| == 2 && AllDigits(s)
    ensures DigitsValue(s) == 10 * DigitValue(s[0]) + DigitValue(s[1])
  {
    var p := s[..1];
    assert p[..0] == [];
    assert DigitsValue(p) == DigitValue(s[0]);
    assert s[..|s| - 1] == p;
  }

  /** Every string the clock pattern accepts parses, to 60 * HH + MM, which
      lies in [0, 1439]. */
  lemma ParseAcceptedTime(t: string)
    requires TimePattern(t)
    ensures ParseTimeToMinutes(t) == Some(ClockValue(t))
    ensures 0 <= ClockValue(t) < DayMinutes
  {
    SplitClock(t);
    var hh, mm := t[..2], t[3..];
    DigitsValueTwo(hh);
    DigitsValueTwo(mm);
    assert NumberOf(hh) == Some(10 * DigitValue(t[0]) + DigitValue(t[1]));
    assert NumberOf(mm) == Some(10 * DigitValue(t[3]) + DigitValue(t[4]));
  }

  lemma DigitCharValue(d: nat)
    requires d < 10
    ensures DigitValue(DigitChar(d)) == d
  {
  }

  /** Formatting and parsing are inverse: every minute of the day survives a
      round trip through "HH:MM", and every accepted string is the format of
      its own value. */
  lemma FormatParseRoundTrip(m: int)
    requires 0 <= m < DayMinutes
    ensures ParseTimeToMinutes(FormatTime(m)) == Some(m)
  {
    var t := FormatTime(m);
    var h, mm := m / 60, m % 60;
    assert h * 60 + mm == m;
    assert 10 * (h / 10) + h % 10 == h;
    assert 10 * (mm / 10) + mm % 10 == mm;
    DigitCharValue(h / 10);
    DigitCharValue(h % 10);
    DigitCharValue(mm / 10);
    DigitCharValue(mm % 10);
    assert ClockValue(t) == m;
    ParseAcceptedTime(t);
  }

  lemma ParseFormatRoundTrip(t: string)
    requires TimePattern(t)
    ensures FormatTime(ClockValue(t)) == t
  {
    var h := 10 * DigitValue(t[0]) + DigitValue(t[1]);
    var mm := 10 * DigitValue(t[3]) + DigitValue(t[4]);
    assert ClockValue(t) == h * 60 + mm;
    assert ClockValue(t) / 60 == h && ClockValue(t) % 60 == mm;
    assert h / 10 == DigitValue(t[0]) && h % 10 == DigitValue(t[1]);
    assert mm / 10 == DigitValue(t[3]) && mm % 10 == DigitValue(t[4]);
  }

  /** The parser alone accepts strings the pattern refuses: ":30" is 30
      minutes and "7:5" is 07:05, which is why the pattern is the gate. */
  lemma ParserLooserThanPattern()
    ensures ParseTimeToMinutes(":30") == Some(30) && !TimePattern(":30")
    ensures ParseTimeToMinutes("7:5") == Some(425) && !TimePattern("7:5")
  {
    ParsesEmptyHours();
    ParsesSingleDigits();
  }

  /** ":30" parses to 30 minutes. */
  lemma ParsesEmptyHours()
    ensures ParseTimeToMinutes(":30") == Some(30)
  {
    var zero, thirty := "", "30";
    DigitsValueTwo(thirty);
    ParseColonPair(zero, thirty);
    assert zero + [':'] + thirty == ":30";
  }

  /** "7:5" parses to 7 * 60 + 5 minutes. */
  lemma ParsesSingleDigits()
    ensures ParseTimeToMinutes("7:5") == Some(425)
  {
    var zero, seven, five := "", "7", "5";
    assert DigitsValue(seven) == 7 by { assert seven[..0] == zero; }
    assert DigitsValue(five) == 5 by { assert five[..0] == zero; }
    ParseColonPair(seven, five);
    assert seven + [':'] + five == "7:5";
  }

  /** "a:b" with digit parts parses exactly when a is at most 23 and b at
      most 59, and then to 60 * a + b. */
  lemma ParseColonPair(a: string, b: string)
    requires AllDigits(a) && AllDigits(b)
    ensures ParseTimeToMinutes(a + [':'] + b).Some? <==> DigitsValue(a) <= 23 && DigitsValue(b) <= 59
    ensures ParseTimeToMinutes(a + [':'] + b).Some? ==>
      ParseTimeToMinutes(a + [':'] + b).value == 60 * DigitsValue(a) + DigitsValue(b)
  {
    assert ':' !in a by { assert forall k :: 0 <= k < |a| ==> IsDigit(a[k]); }
    assert ':' !in b by { assert forall k :: 0 <= k < |b| ==> IsDigit(b[k]); }
    SplitFirstColon(a, b);
  }

  lemma SplitFirstColon(a: string, b: string)
    requires ':' !in a && ':' !in b
    ensures ':' in a + [':'] + b
    ensures Split(a + [':'] + b, ':') == [a, b]
  {
    assert (a + [':'] + b)[|a|] == ':';
    SplitPrefix(a, b, ':');
    SplitNoSep(b, ':');
  }

  // ---------------------------------------------------------------- duration

  /** `computeDuration`: end - start, plus a day when that is not positive. */
  function ComputeDuration(startMinutes: int, endMinutes: int): (d: int)
    ensures d > 0 <== endMinutes - startMinutes > -DayMinutes
  {
    var diff := endMinutes - startMinutes;
    if diff <= 0 then diff + DayMinutes else diff
  }

  /** For two minutes of the day, a shift lasts between 1 and 1440 minutes,
      1440 exactly when it starts and ends at the same time, and it ends at
      its end time: start + duration is congruent to end modulo a day. */
  lemma DurationProperties(s: int, e: int)
    requires 0 <= s < DayMinutes && 0 <= e < DayMinutes
    ensures 1 <= ComputeDuration(s, e) <= DayMinutes
    ensures ComputeDuration(s, e) == DayMinutes <==> s == e
    ensures (s + ComputeDuration(s, e)) % DayMinutes == e
  {
  }

  // ---------------------------------------------------------------- night minutes

  /** The two night windows, 21:00-24:00 and 24:00-30:00, in minutes from the
      start day's midnight. */
  const NightWindows: seq<(int, int)> := [(21 * 60, 24 * 60), (24 * 60, 30 * 60)]

  /** The windows followed by their copies one day later. */
  function NightRanges(): seq<(int, int)> {
    NightWindows + seq(|NightWindows|, i requires 0 <= i < |NightWindows| =>
      (NightWindows[i].0 + DayMinutes, NightWindows[i].1 + DayMinutes))
  }

  /** An end at or before the start is read as the next day. */
  function AdjustedEnd(startMinutes: int, endMinutes: int): int {
    if endMinutes <= startMinutes then endMinutes + DayMinutes else endMinutes
  }

  /** The length of [lo, hi) intersected with [a, b), or 0. */
  function Overlap(lo: int, hi: int, a: int, b: int): (r: int)
    ensures r >= 0
  {
    var os := Max(lo, a);
    var oe := Min(hi, b);
    if oe > os then oe - os else 0
  }

  /** The overlaps of [lo, hi) with each range, added up in order. */
  function OverlapSum(ranges: seq<(int, int)>, lo: int, hi: int): (r: int)
    ensures r >= 0
  {
    if |ranges| == 0 then 0
    else OverlapSum(ranges[..|ranges| - 1], lo, hi)
         + Overlap(lo, hi, ranges[|ranges| - 1].0, ranges[|ranges| - 1].1)
  }

  /** What `computeNightMinutes` returns: the summed overlaps, capped at the
      length of the shift. */
  function NightMinutes(startMinutes: int, endMinutes: int): int {
    var adjustedEnd := AdjustedEnd(startMinutes, endMinutes);
    Min(OverlapSum(NightRanges(), startMinutes, adjustedEnd), adjustedEnd - startMinutes)
  }

  /** `computeNightMinutes`, accumulating the overlap of the shift with each
      of the four ranges. */
  method ComputeNightMinutes(startMinutes: int, endMinutes: int) returns (minutes: int)
    ensures minutes == NightMinutes(startMinutes, endMinutes)
  {
    var adjustedEnd := if endMinutes <= startMinutes then endMinutes + DayMinutes else endMinutes;
    var ranges := NightRanges();
    minutes := 0;
    var i := 0;
    while i < |ranges|
      invariant 0 <= i <= |ranges|
      invariant minutes == OverlapSum(ranges[..i], startMinutes, adjustedEnd)
    {
      var (rangeStart, rangeEnd) := ranges[i];
      var overlapStart := Max(startMinutes, rangeStart);
      var overlapEnd := Min(adjustedEnd, rangeEnd);
      if overlapEnd > overlapStart {
        minutes := minutes + overlapEnd - overlapStart;
      }
      assert ranges[..i + 1][..i] == ranges[..i];
      i := i + 1;
    }
    assert ranges[..i] == ranges;
    minutes := Min(minutes, adjustedEnd - startMinutes);
  }

  /** The reference reading: minute t (counted from the start day's midnight)
      earns night credit when it lies in 21:00-06:00 of the start day's night
      or of the following night. */
  predicate IsNightMinute(t: int) {
    (21 * 60 <= t < 30 * 60) || (21 * 60 + DayMinutes <= t < 30 * 60 + DayMinutes)
  }

  /** The number of night minutes in [lo, hi). */
  function NightCount(lo: int, hi: int): (r: int)
    ensures 0 <= r <= Max(hi - lo, 0)
    decreases hi - lo
  {
    if hi <= lo then 0
    else NightCount(lo, hi - 1) + (if IsNightMinute(hi - 1) then 1 else 0)
  }

  lemma {:induction false} NightCountIsOverlap(lo: int, hi: int)
    ensures NightCount(lo, hi) == Overlap(lo, hi, 21 * 60, 30 * 60) + Overlap(lo, hi, 21 * 60 + DayMinutes, 30 * 60 + DayMinutes)
    decreases hi - lo
  {
    if hi > lo {
      NightCountIsOverlap(lo, hi - 1);
    }
  }

  /** For a shift given by two minutes of the day, the computed night minutes
      are exactly the shift's minutes that fall in a night window; they never
      exceed the shift's duration. */
  lemma NightMinutesCountsNight(s: int, e: int)
    requires 0 <= s < DayMinutes && 0 <= e < DayMinutes
    ensures NightMinutes(s, e) == NightCount(s, AdjustedEnd(s, e))
    ensures 0 <= NightMinutes(s, e) <= ComputeDuration(s, e)
  {
    var hi := AdjustedEnd(s, e);
    var rs := NightRanges();
    assert rs == [(1260, 1440), (1440, 1800), (2700, 2880), (2880, 3240)];
    assert rs[..3] == [(1260, 1440), (1440, 1800), (2700, 2880)];
    assert rs[..3][..2] == [(1260, 1440), (1440, 1800)];
    assert rs[..3][..2][..1] == [(1260, 1440)];
    assert rs[..3][..2][..1][..0] == [];
    assert OverlapSum(rs[..3][..2][..1], s, hi) == Overlap(s, hi, 1260, 1440);
    assert OverlapSum(rs[..3][..2], s, hi) == Overlap(s, hi, 1260, 1440) + Overlap(s, hi, 1440, 1800);
    assert OverlapSum(rs[..3], s, hi) == Overlap(s, hi, 1260, 1440) + Overlap(s, hi, 1440, 1800)
                                         + Overlap(s, hi, 2700, 2880);
    assert OverlapSum(rs, s, hi) == Overlap(s, hi, 1260, 1440) + Overlap(s, hi, 1440, 1800)
                                    + Overlap(s, hi, 2700, 2880) + Overlap(s, hi, 2880, 3240);
    NightCountIsOverlap(s, hi);
  }

  /** The minutes 00:00-06:00 of a shift that starts after midnight and does
      not wrap earn nothing: no window covers minutes 0-360 of the start day. */
  lemma EarlyMorningEarnsNothing(s: int, e: int)
    requires 0 <= s < e <= 21 * 60
    ensures NightMinutes(s, e) == 0
  {
    NightMinutesCountsNight(s, e);
    NightCountIsOverlap(s, e);
  }

  /** Worked examples: 22:00-07:00 has 480 night minutes of 540; 21:00-00:00
      has 180; 06:00-14:00 and 02:00-05:00 have none; a full day starting at
      00:00 has 180. */
  lemma NightExamples()
    ensures ComputeDuration(22 * 60, 7 * 60) == 540 && NightMinutes(22 * 60, 7 * 60) == 480
    ensures NightMinutes(21 * 60, 0) == 180
    ensures NightMinutes(6 * 60, 14 * 60) == 0
    ensures NightMinutes(2 * 60, 5 * 60) == 0
    ensures ComputeDuration(0, 0) == DayMinutes && NightMinutes(0, 0) == 180
  {
    NightMinutesCountsNight(22 * 60, 7 * 60);
    NightCountIsOverlap(22 * 60, 31 * 60);
    NightMinutesCountsNight(21 * 60, 0);
    NightCountIsOverlap(21 * 60, 24 * 60);
    EarlyMorningEarnsNothing(6 * 60, 14 * 60);
    EarlyMorningEarnsNothing(2 * 60, 5 * 60);
    NightMinutesCountsNight(0, 0);
    NightCountIsOverlap(0, DayMinutes);
  }
}
