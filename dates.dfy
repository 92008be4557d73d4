/**
 * Calendar dates of the `date` column and the text keys derived from them:
 * `YYYY-MM-DD` (what `toISOString().split('T')[0]` yields for a date at
 * midnight UTC), `YYYY-MM` (year and zero-padded month) and `YYYY`.
 * Zero padding is what makes the order of the keys as strings the order of
 * the dates in time.
 */
module Dates {
  import Text

  type Year = y: int | 1000 <= y <= 9999 witness 2000
  type MonthNumber = m: int | 1 <= m <= 12 witness 1
  type DayOfMonth = d: int | 1 <= d <= 31 witness 1

  datatype Date = Date(year: Year, month: MonthNumber, day: DayOfMonth)

  /** The granularities of the period selector. */
  datatype Period = DayPeriod | MonthPeriod | YearPeriod

  /** `date.getFullYear().toString()`. */
  function YearKey(y: Year): (s: string)
    ensures |s| == 4 && Text.AllDigits(s) && Text.DigitsValue(s) == y
  {
    Text.FourDigits(y);
    Text.NatToString(y)
  }

  /** `toISOString().split('T')[0]`. */
  function DayKey(d: Date): string {
    YearKey(d.year) + "-" + Text.Pad2(d.month) + "-" + Text.Pad2(d.day)
  }

  /** `` `${getFullYear()}-${String(getMonth() + 1).padStart(2, '0')}` ``. */
  function MonthKey(d: Date): string {
    YearKey(d.year) + "-" + Text.Pad2(d.month)
  }

  /** The grouping key of `processDataByPeriod` for each period (its `default` case computes the day key too). */
  function PeriodKey(d: Date, p: Period): string {
    match p
    case DayPeriod => DayKey(d)
    case MonthPeriod => MonthKey(d)
    case YearPeriod => YearKey(d.year)
  }

  /** `a` falls in an earlier period than `b`, in time. */
  predicate PeriodBefore(a: Date, b: Date, p: Period) {
    match p
    case YearPeriod => a.year < b.year
    case MonthPeriod => a.year < b.year || (a.year == b.year && a.month < b.month)
    case DayPeriod =>
      a.year < b.year || (a.year == b.year && (a.month < b.month || (a.month == b.month && a.day < b.day)))
  }

  /** `a` and `b` fall in the same period. */
  predicate SamePeriod(a: Date, b: Date, p: Period) {
    match p
    case YearPeriod => a.year == b.year
    case MonthPeriod => a.year == b.year && a.month == b.month
    case DayPeriod => a == b
  }

  /** Fixed-width numbers: string order is numeric order, and equal strings are equal numbers. */
  lemma YearKeyOrder(a: Year, b: Year)
    ensures Text.StrLess(YearKey(a), YearKey(b)) <==> a < b
    ensures YearKey(a) == YearKey(b) <==> a == b
  {
    Text.DigitStringOrder(YearKey(a), YearKey(b));
  }

  lemma Pad2Order(a: int, b: int)
    requires 0 <= a < 100 && 0 <= b < 100
    ensures Text.StrLess(Text.Pad2(a), Text.Pad2(b)) <==> a < b
    ensures Text.Pad2(a) == Text.Pad2(b) <==> a == b
  {
    Text.DigitStringOrder(Text.Pad2(a), Text.Pad2(b));
  }

  /** Comparing `x + "-" + rest` keys whose `x` parts have equal length. */
  lemma DashConcat(x1: string, r1: string, x2: string, r2: string)
    requires |x1| == |x2|
    ensures Text.StrLess(x1 + "-" + r1, x2 + "-" + r2) <==> Text.StrLess(x1, x2) || (x1 == x2 && Text.StrLess(r1, r2))
    ensures x1 + "-" + r1 == x2 + "-" + r2 <==> x1 == x2 && r1 == r2
  {
    assert x1 + "-" + r1 == x1 + ("-" + r1);
    assert x2 + "-" + r2 == x2 + ("-" + r2);
    Text.StrLessConcat(x1, "-" + r1, x2, "-" + r2);
    Text.StrLessConcat("-", r1, "-", r2);
    if x1 + "-" + r1 == x2 + "-" + r2 {
      assert (x1 + "-" + r1)[..|x1|] == x1 && (x2 + "-" + r2)[..|x2|] == x2;
      assert (x1 + "-" + r1)[|x1| + 1..] == r1 && (x2 + "-" + r2)[|x2| + 1..] == r2;
    }
  }

  lemma MonthKeyOrder(a: Date, b: Date)
    ensures Text.StrLess(MonthKey(a), MonthKey(b)) <==> PeriodBefore(a, b, MonthPeriod)
    ensures MonthKey(a) == MonthKey(b) <==> SamePeriod(a, b, MonthPeriod)
  {
    YearKeyOrder(a.year, b.year);
    Pad2Order(a.month, b.month);
    DashConcat(YearKey(a.year), Text.Pad2(a.month), YearKey(b.year), Text.Pad2(b.month));
  }

  /** Comparing `x + "-" + y + "-" + z` keys whose `x` and `y` parts have equal lengths. */
  lemma DashConcat3(x1: string, y1: string, z1: string, x2: string, y2: string, z2: string)
    requires |x1| == |x2| && |y1| == |y2|
    ensures Text.StrLess(x1 + "-" + y1 + "-" + z1, x2 + "-" + y2 + "-" + z2)
            <==> Text.StrLess(x1, x2) || (x1 == x2 && (Text.StrLess(y1, y2) || (y1 == y2 && Text.StrLess(z1, z2))))
    ensures x1 + "-" + y1 + "-" + z1 == x2 + "-" + y2 + "-" + z2 <==> x1 == x2 && y1 == y2 && z1 == z2
  {
    assert x1 + "-" + y1 + "-" + z1 == x1 + "-" + (y1 + "-" + z1);
    assert x2 + "-" + y2 + "-" + z2 == x2 + "-" + (y2 + "-" + z2);
    DashConcat(x1, y1 + "-" + z1, x2, y2 + "-" + z2);
    DashConcat(y1, z1, y2, z2);
  }

  lemma DayKeyOrder(a: Date, b: Date)
    ensures Text.StrLess(DayKey(a), DayKey(b)) <==> PeriodBefore(a, b, DayPeriod)
    ensures DayKey(a) == DayKey(b) <==> SamePeriod(a, b, DayPeriod)
  {
    YearKeyOrder(a.year, b.year);
    Pad2Order(a.month, b.month);
    Pad2Order(a.day, b.day);
    DashConcat3(YearKey(a.year), Text.Pad2(a.month), Text.Pad2(a.day), YearKey(b.year), Text.Pad2(b.month), Text.Pad2(b.day));
  }

  /**
   * The keys sort as the periods do in time: `localeCompare` on the keys puts
   * `a`'s period before `b`'s exactly when it is earlier, and two dates share a
   * key exactly when they fall in the same period.
   */
  lemma KeyOrderIsChronological(a: Date, b: Date, p: Period)
    ensures Text.StrLess(PeriodKey(a, p), PeriodKey(b, p)) <==> PeriodBefore(a, b, p)
    ensures PeriodKey(a, p) == PeriodKey(b, p) <==> SamePeriod(a, b, p)
  {
    match p
    case YearPeriod => YearKeyOrder(a.year, b.year);
    case MonthPeriod => MonthKeyOrder(a, b);
    case DayPeriod => DayKeyOrder(a, b);
  }

  /** Every key starts with the four-digit year, so `key.startsWith(String(y))` holds exactly for dates in year `y`. */
  lemma KeyStartsWithYear(d: Date, p: Period, y: Year)
    ensures Text.IsPrefix(YearKey(y), PeriodKey(d, p)) <==> d.year == y
  {
    YearKeyOrder(d.year, y);
    YearKeyIsPrefix(d, p);
    PrefixOfEqualLength(YearKey(y), YearKey(d.year), PeriodKey(d, p));
  }

  lemma YearKeyIsPrefix(d: Date, p: Period)
    ensures Text.IsPrefix(YearKey(d.year), PeriodKey(d, p))
  {
    var yd := YearKey(d.year);
    var m, dd := Text.Pad2(d.month), Text.Pad2(d.day);
    PrefixOfConcat(yd, yd, "-");
    PrefixOfConcat(yd, yd + "-", m);
    PrefixOfConcat(yd, yd + "-" + m, "-");
    PrefixOfConcat(yd, yd + "-" + m + "-", dd);
  }

  /** A prefix of `s` is a prefix of every extension of `s`. */
  lemma PrefixOfConcat(x: string, s: string, t: string)
    requires x == s || Text.IsPrefix(x, s)
    ensures Text.IsPrefix(x, s + t)
  {
    assert (s + t)[..|s|] == s;
    assert (s + t)[..|x|] == s[..|x|];
  }

  /** Of two strings of one length, only the one that starts `s` can start it. */
  lemma PrefixOfEqualLength(x: string, y: string, s: string)
    requires |x| == |y| && Text.IsPrefix(y, s)
    ensures Text.IsPrefix(x, s) <==> x == y
  {
  }

  const MsPerDay: int := 24 * 60 * 60 * 1000

  /** The year `d` falls in when years are taken to start on 1 March. */
  function MarchYear(d: Date): int {
    if d.month <= 2 then d.year - 1 else d.year
  }

  /** Days from 1970-01-01 to 1 March of year `y`, counted in 400-year eras of 146097 days. */
  function DaysToMarchYear(y: int): int {
    var era := y / 400;
    var yoe := y - era * 400;
    era * 146097 + yoe * 365 + yoe / 4 - yoe / 100 - 719468
  }

  /** Days from 1 March to `day` of `month` in a year that starts on 1 March. */
  function DayOfMarchYear(month: MonthNumber, day: DayOfMonth): int {
    var mp := if month > 2 then month - 3 else month + 9;
    (153 * mp + 2) / 5 + day - 1
  }

  /** Days from 1970-01-01 to `d` in the proleptic Gregorian calendar. */
  function DayNumber(d: Date): int {
    DaysToMarchYear(MarchYear(d)) + DayOfMarchYear(d.month, d.day)
  }

  /** `new Date(key).getTime()`: midnight UTC of `d`, in milliseconds since the epoch. */
  function Instant(d: Date): int {
    DayNumber(d) * MsPerDay
  }

  /** The day count starts at the epoch, runs one per day within a month, and is continuous across a month end, a leap day and a year end. */
  lemma DayNumberCalibration(d: Date)
    requires d.day < 31
    ensures DayNumber(Date(1970, 1, 1)) == 0
    ensures DayNumber(Date(2024, 3, 1)) == DayNumber(Date(2024, 2, 29)) + 1
    ensures DayNumber(Date(2025, 1, 1)) == DayNumber(Date(2024, 12, 31)) + 1
    ensures DayNumber(d.(day := d.day + 1)) == DayNumber(d) + 1
  {
    assert DaysToMarchYear(1969) == -306;
    assert DayOfMarchYear(1, 1) == 306;
    assert DaysToMarchYear(2024) == DaysToMarchYear(2023) + 366;
    assert DayOfMarchYear(2, 29) == 365;
    assert DayOfMarchYear(12, 31) == 305 && DayOfMarchYear(1, 1) == 306;
    assert MarchYear(d.(day := d.day + 1)) == MarchYear(d);
  }
}
