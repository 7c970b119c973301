/**
 * Time as integer seconds since the Unix epoch, in UTC (timezone.now() returns an
 * aware UTC datetime). A timedelta of n days is n * DAY seconds; replacing the
 * time of day by 00:00:00 is rounding down to a multiple of DAY.
 */
module Clock {
  import Text

  const DAY: int := 86400

  /** timedelta(days=n) in seconds. */
  function Days(n: int): int { n * DAY }

  /** t.replace(hour=0, minute=0, second=0, microsecond=0). */
  function StartOfDay(t: int): (r: int)
    ensures r <= t < r + DAY
    ensures r % DAY == 0
  {
    t - t % DAY
  }

  /**
   * (now + timedelta(days=1)).replace(hour=0, ...): the first midnight strictly
   * after now.
   */
  function Tomorrow(now: int): (r: int)
    ensures now < r <= now + DAY
    ensures r % DAY == 0
  {
    StartOfDay(now + DAY)
  }

  /** No midnight lies strictly between now and Tomorrow(now). */
  lemma TomorrowIsNextMidnight(now: int, m: int)
    requires m % DAY == 0 && now < m
    ensures Tomorrow(now) <= m
  {
  }

  /** timedelta(seconds=s).days: whole days, rounded towards minus infinity. */
  function WholeDays(s: int): (r: int)
    ensures Days(r) <= s < Days(r + 1)
  {
    s / DAY
  }

  // ---- Calendar rendering, for strftime('%y%m%d%H%M%S') ----

  predicate IsLeap(y: int) { y % 4 == 0 && (y % 100 != 0 || y % 400 == 0) }

  function DaysInYear(y: int): int { if IsLeap(y) then 366 else 365 }

  function DaysInMonth(y: int, m: int): (r: int)
    requires 1 <= m <= 12
    ensures 28 <= r <= 31
  {
    if m == 2 then (if IsLeap(y) then 29 else 28)
    else if m == 4 || m == 6 || m == 9 || m == 11 then 30
    else 31
  }

  /** Days in months m..12 of year y. */
  function DaysFromMonth(y: int, m: int): int
    requires 1 <= m <= 12
    decreases 12 - m
  {
    if m == 12 then 31 else DaysInMonth(y, m) + DaysFromMonth(y, m + 1)
  }

  lemma DaysFromJanuary(y: int)
    ensures DaysFromMonth(y, 1) == DaysInYear(y)
  {
  }

  datatype Civil = Civil(year: int, month: int, day: int, hour: int, minute: int, second: int)

  predicate ValidCivil(c: Civil)
  {
    1 <= c.month <= 12 && 1 <= c.day <= 31 &&
    0 <= c.hour < 24 && 0 <= c.minute < 60 && 0 <= c.second < 60
  }

  /** Days from January 1 of year y0 to January 1 of year y1. */
  function YearsSpan(y0: int, y1: int): int
    requires y0 <= y1
    decreases y1 - y0
  {
    if y0 == y1 then 0 else DaysInYear(y0) + YearsSpan(y0 + 1, y1)
  }

  /** Days from the first of month m0 to the first of month m1, in year y. */
  function MonthsSpan(y: int, m0: int, m1: int): int
    requires 1 <= m0 <= m1 <= 12
    decreases m1 - m0
  {
    if m0 == m1 then 0 else DaysInMonth(y, m0) + MonthsSpan(y, m0 + 1, m1)
  }

  /** The year containing day d (counted from January 1 of year y), and the day within it. */
  function YearAndDay(d: nat, y: int): (r: (int, nat))
    ensures r.0 >= y && r.1 < DaysInYear(r.0)
    ensures YearsSpan(y, r.0) + r.1 == d
    decreases d
  {
    if d < DaysInYear(y) then (y, d) else YearAndDay(d - DaysInYear(y), y + 1)
  }

  /** The month containing day-of-year d (counted from the first of month m), and the day within it. */
  function MonthAndDay(y: int, m: int, d: nat): (r: (int, nat))
    requires 1 <= m <= 12 && d < DaysFromMonth(y, m)
    ensures m <= r.0 <= 12 && r.1 < DaysInMonth(y, r.0)
    ensures MonthsSpan(y, m, r.0) + r.1 == d
    decreases 12 - m
  {
    if d < DaysInMonth(y, m) then (m, d) else MonthAndDay(y, m + 1, d - DaysInMonth(y, m))
  }

  /**
   * The UTC calendar date and time of a non-negative epoch time: the whole days
   * of t are the days of the years since 1970, of the months before c.month and
   * c.day - 1 more, with c.day within its month; the rest of t is the time of day.
   */
  function ToCivil(t: nat): (c: Civil)
    ensures ValidCivil(c) && c.year >= 1970 && c.day <= DaysInMonth(c.year, c.month)
    ensures YearsSpan(1970, c.year) + MonthsSpan(c.year, 1, c.month) + (c.day - 1) == t / DAY
    ensures c.hour * 3600 + c.minute * 60 + c.second == t % DAY
  {
    var yd := YearAndDay(t / DAY, 1970);
    DaysFromJanuary(yd.0);
    var md := MonthAndDay(yd.0, 1, yd.1);
    var s := t % DAY;
    Civil(yd.0, md.0, md.1 + 1, s / 3600, s % 3600 / 60, s % 60)
  }

  /**
   * strftime('%y%m%d%H%M%S'): twelve digits whose pairs read as the year within
   * its century, the month, the day, the hour, the minute and the second of t.
   */
  function Strftime12(t: nat): (r: string)
    ensures |r| == 12 && Text.AllDigits(r)
    ensures var c := ToCivil(t);
            && Text.DigitsValue(r[0..2]) == c.year % 100
            && Text.DigitsValue(r[2..4]) == c.month
            && Text.DigitsValue(r[4..6]) == c.day
            && Text.DigitsValue(r[6..8]) == c.hour
            && Text.DigitsValue(r[8..10]) == c.minute
            && Text.DigitsValue(r[10..12]) == c.second
  {
    var c := ToCivil(t);
    var yy := Text.TwoDigits(c.year % 100);
    var mo := Text.TwoDigits(c.month);
    var dd := Text.TwoDigits(c.day);
    var hh := Text.TwoDigits(c.hour);
    var mi := Text.TwoDigits(c.minute);
    var ss := Text.TwoDigits(c.second);
    var r := yy + mo + dd + hh + mi + ss;
    assert r[0..2] == yy && r[2..4] == mo && r[4..6] == dd;
    assert r[6..8] == hh && r[8..10] == mi && r[10..12] == ss;
    r
  }

  /** The epoch is 1970-01-01 00:00:00, and day 59 of 1970 at 13:05:09 is March 1. */
  lemma StampExamples()
    ensures Strftime12(0) == "700101000000"
    ensures ToCivil(59 * DAY + 13 * 3600 + 5 * 60 + 9) == Civil(1970, 3, 1, 13, 5, 9)
  {
    assert ToCivil(0) == Civil(1970, 1, 1, 0, 0, 0);
  }
}
