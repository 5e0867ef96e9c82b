/** Proleptic Gregorian calendar dates as Python's `datetime.date` handles
    them: day ordinals (`toordinal`, 0001-01-01 is day 1), weekdays with
    Monday as 0, stepping back by whole days, and ISO formatting. */
module Dates {
  import opened Text
  import opened Wrappers

  datatype Date = Date(year: int, month: int, day: int)

  const MinYear := 1
  const MaxYear := 9999

  predicate IsLeap(y: int) {
    y % 4 == 0 && (y % 100 != 0 || y % 400 == 0)
  }

  function DaysInMonth(y: int, m: int): (n: int)
    requires 1 <= m <= 12
    ensures 28 <= n <= 31
  {
    if m == 2 then (if IsLeap(y) then 29 else 28)
    else if m == 4 || m == 6 || m == 9 || m == 11 then 30
    else 31
  }

  function DaysInYear(y: int): int {
    if IsLeap(y) then 366 else 365
  }

  predicate Valid(d: Date) {
    MinYear <= d.year <= MaxYear && 1 <= d.month <= 12 && 1 <= d.day <= DaysInMonth(d.year, d.month)
  }

  /** Days in the years before `y`. */
  function DaysBeforeYear(y: int): int
    requires y >= 1
  {
    var k := y - 1;
    k * 365 + k / 4 - k / 100 + k / 400
  }

  /** Days in the months of year `y` before month `m`. */
  function DaysBeforeMonth(y: int, m: int): (n: int)
    requires 1 <= m <= 12
    ensures n >= 0
    decreases m
  {
    if m == 1 then 0 else DaysBeforeMonth(y, m - 1) + DaysInMonth(y, m - 1)
  }

  /** `date.toordinal()`. */
  function Ordinal(d: Date): int
    requires Valid(d)
  {
    DaysBeforeYear(d.year) + DaysBeforeMonth(d.year, d.month) + d.day
  }

  /** `date.weekday()`: Monday is 0, Sunday is 6. */
  function Weekday(d: Date): (w: int)
    requires Valid(d)
    ensures 0 <= w < 7
  {
    WeekdayOf(Ordinal(d))
  }

  /** The weekday of day ordinal `o`, Monday being 0 (day 1 was a Monday). */
  function WeekdayOf(o: int): (w: int)
    ensures 0 <= w < 7
  {
    (o + 6) % 7
  }

  lemma {:induction false} YearLength(y: int)
    requires y >= 1
    ensures DaysBeforeYear(y + 1) == DaysBeforeYear(y) + DaysInYear(y)
  {
    var k := y - 1;
    assert y / 4 - k / 4 == (if y % 4 == 0 then 1 else 0);
    assert y / 100 - k / 100 == (if y % 100 == 0 then 1 else 0);
    assert y / 400 - k / 400 == (if y % 400 == 0 then 1 else 0);
  }

  lemma DecemberEnd(y: int)
    ensures DaysBeforeMonth(y, 12) + 31 == DaysInYear(y)
  {
  }

  /** The day before `d` (`d - timedelta(days=1)`); there is none before
      0001-01-01. */
  function PrevDay(d: Date): (r: Date)
    requires Valid(d) && d != Date(MinYear, 1, 1)
    ensures Valid(r) && Ordinal(r) == Ordinal(d) - 1
  {
    if d.day > 1 then Date(d.year, d.month, d.day - 1)
    else if d.month > 1 then
      MonthBoundary(d.year, d.month - 1);
      Date(d.year, d.month - 1, DaysInMonth(d.year, d.month - 1))
    else
      YearBoundary(d.year - 1);
      Date(d.year - 1, 12, 31)
  }

  /** The first of month `m + 1` follows the last of month `m`. */
  lemma MonthBoundary(y: int, m: int)
    requires MinYear <= y <= MaxYear && 1 <= m < 12
    ensures Valid(Date(y, m, DaysInMonth(y, m))) && Valid(Date(y, m + 1, 1))
    ensures Ordinal(Date(y, m + 1, 1)) == Ordinal(Date(y, m, DaysInMonth(y, m))) + 1
  {
    assert DaysBeforeMonth(y, m + 1) == DaysBeforeMonth(y, m) + DaysInMonth(y, m);
  }

  /** New Year's day of `y + 1` follows the last day of `y`. */
  lemma YearBoundary(y: int)
    requires MinYear <= y < MaxYear
    ensures Valid(Date(y, 12, 31)) && Valid(Date(y + 1, 1, 1))
    ensures Ordinal(Date(y + 1, 1, 1)) == Ordinal(Date(y, 12, 31)) + 1
  {
    YearLength(y);
    DecemberEnd(y);
  }

  /** `d - timedelta(days=k)`, defined while the result stays a date. */
  function SubDays(d: Date, k: nat): (r: Date)
    requires Valid(d) && Ordinal(d) > k
    ensures Valid(r) && Ordinal(r) == Ordinal(d) - k
    decreases k
  {
    if k == 0 then d
    else SubDays(PrevDay(d), k - 1)
  }

  /** The day after `d` (`d + timedelta(days=1)`); there is none after
      9999-12-31. */
  function NextDay(d: Date): (r: Date)
    requires Valid(d) && d != Date(MaxYear, 12, 31)
    ensures Valid(r) && Ordinal(r) == Ordinal(d) + 1
  {
    if d.day < DaysInMonth(d.year, d.month) then Date(d.year, d.month, d.day + 1)
    else if d.month < 12 then
      MonthBoundary(d.year, d.month);
      Date(d.year, d.month + 1, 1)
    else
      YearBoundary(d.year);
      Date(d.year + 1, 1, 1)
  }

  /** `d + timedelta(days=k)`, or `None` where Python raises `OverflowError`
      for leaving the supported range. */
  function AddDays(d: Date, k: nat): (r: Option<Date>)
    requires Valid(d)
    ensures r.Some? ==> Valid(r.value) && Ordinal(r.value) == Ordinal(d) + k
    decreases k
  {
    if k == 0 then Some(d)
    else if d == Date(MaxYear, 12, 31) then None
    else AddDays(NextDay(d), k - 1)
  }

  /** `d - timedelta(days=k)`, or `None` before 0001-01-01. */
  function SubDaysChecked(d: Date, k: nat): (r: Option<Date>)
    requires Valid(d)
    ensures r.Some? <==> Ordinal(d) > k
    ensures r.Some? ==> Valid(r.value) && Ordinal(r.value) == Ordinal(d) - k
  {
    if Ordinal(d) > k then Some(SubDays(d, k)) else None
  }

  /** `d + timedelta(days=k)` for a signed `k`. */
  function ShiftDays(d: Date, k: int): (r: Option<Date>)
    requires Valid(d)
    ensures r.Some? ==> Valid(r.value) && Ordinal(r.value) == Ordinal(d) + k
    ensures k <= 0 ==> (r.Some? <==> Ordinal(d) > -k)
  {
    if k >= 0 then AddDays(d, k) else SubDaysChecked(d, -k)
  }

  /** Every valid date has ordinal at least 1, so a date may always step back
      to the Monday of its own week. */
  lemma OrdinalPositive(d: Date)
    requires Valid(d)
    ensures Ordinal(d) >= 1
  {
  }

  /** `today - timedelta(days=today.weekday())`. */
  function WeekStart(today: Date): (r: Date)
    requires Valid(today)
    ensures Valid(r) && Ordinal(r) == Ordinal(today) - Weekday(today)
    ensures Ordinal(today) - 6 <= Ordinal(r) <= Ordinal(today)
  {
    OrdinalPositive(today);
    assert Ordinal(today) > Weekday(today) by {
      assert Ordinal(today) >= 1;
    }
    SubDays(today, Weekday(today))
  }

  /** The week starts on a Monday (and, by `WeekStart`'s contract, on or
      before today and at most six days back). */
  lemma WeekStartIsMonday(today: Date)
    requires Valid(today)
    ensures Weekday(WeekStart(today)) == 0
  {
    var o := Ordinal(today);
    var start := Ordinal(WeekStart(today));
    assert start == o - WeekdayOf(o);
    MondayArithmetic(o);
    assert WeekdayOf(start) == 0;
  }

  /** Stepping back `weekday` days from ordinal `o` lands on a Monday. */
  lemma MondayArithmetic(o: int)
    ensures WeekdayOf(o - WeekdayOf(o)) == 0
  {
    var q := (o + 6) / 7;
    assert o + 6 == 7 * q + WeekdayOf(o);
    assert o - WeekdayOf(o) + 6 == 7 * q;
  }

  /** Lexicographic order of (year, month, day), which is how Odoo compares a
      date field with an ISO date string in a domain. */
  predicate Leq(a: Date, b: Date) {
    a.year < b.year
    || (a.year == b.year && a.month < b.month)
    || (a.year == b.year && a.month == b.month && a.day <= b.day)
  }

  function YearStart(y: int): Date { Date(y, 1, 1) }

  function YearEnd(y: int): Date { Date(y, 12, 31) }

  function MonthStart(d: Date): Date { Date(d.year, d.month, 1) }

  /** A date lies between 1 January and 31 December of `y`, both included,
      exactly when its year is `y`. */
  lemma WithinYear(d: Date, y: int)
    requires Valid(d)
    ensures Leq(YearStart(y), d) && Leq(d, YearEnd(y)) <==> d.year == y
  {
  }

  /** `date.isoformat()`: `YYYY-MM-DD`. */
  function IsoFormat(d: Date): (s: string)
    requires Valid(d)
    ensures |s| == 10 && s[4] == '-' && s[7] == '-'
  {
    Pad4(d.year) + "-" + Pad2(d.month) + "-" + Pad2(d.day)
  }

  /** Distinct dates have distinct ISO renderings. */
  lemma IsoFormatInjective(a: Date, b: Date)
    requires Valid(a) && Valid(b) && IsoFormat(a) == IsoFormat(b)
    ensures a == b
  {
    var s := IsoFormat(a);
    assert s[..4] == Pad4(a.year) && s[..4] == Pad4(b.year);
    assert s[5..7] == Pad2(a.month) && s[5..7] == Pad2(b.month);
    assert s[8..] == Pad2(a.day) && s[8..] == Pad2(b.day);
    ParsePad4(a.year);
    ParsePad4(b.year);
    ParsePad2(a.month);
    ParsePad2(b.month);
    ParsePad2(a.day);
    ParsePad2(b.day);
  }
}
