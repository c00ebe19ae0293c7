/**
 * Proleptic Gregorian civil dates, as Python's `datetime.date` counts them, and
 * local date-times at minute resolution. `DayNumber` counts days from 0001-01-01
 * (Python's `toordinal() - 1`), so `Weekday` is Monday = 0 ... Sunday = 6 as
 * `date.weekday()` gives it.
 */
module Civil {

  datatype Date = Date(year: int, month: int, day: int)

  /** A local wall-clock instant: a date and the minute of that day. */
  datatype DateTime = DateTime(date: Date, minute: int) {
    function Hour(): int { minute / 60 }
    function MinuteOfHour(): int { minute % 60 }
  }

  predicate IsLeap(y: int) { y % 4 == 0 && (y % 100 != 0 || y % 400 == 0) }

  function DaysInMonth(y: int, m: int): (n: int)
    requires 1 <= m <= 12
    ensures 28 <= n <= 31
  {
    if m == 2 then (if IsLeap(y) then 29 else 28)
    else if m == 4 || m == 6 || m == 9 || m == 11 then 30
    else 31
  }

  predicate ValidDate(d: Date) {
    1 <= d.month <= 12 && 1 <= d.day <= DaysInMonth(d.year, d.month)
  }

  predicate ValidDateTime(t: DateTime) {
    ValidDate(t.date) && 0 <= t.minute < 1440
  }

  /** Python's `date < date`: lexicographic on (year, month, day). */
  predicate Before(a: Date, b: Date) {
    a.year < b.year || (a.year == b.year && (a.month < b.month || (a.month == b.month && a.day < b.day)))
  }

  function DaysBeforeYear(y: int): int {
    365 * (y - 1) + (y - 1) / 4 - (y - 1) / 100 + (y - 1) / 400
  }

  function DaysBeforeMonth(y: int, m: int): int
    requires 1 <= m <= 12
  {
    var cum := [0, 31, 59, 90, 120, 151, 181, 212, 243, 273, 304, 334];
    cum[m - 1] + (if m > 2 && IsLeap(y) then 1 else 0)
  }

  /** Days elapsed since 0001-01-01. */
  function DayNumber(d: Date): int
    requires ValidDate(d)
  {
    DaysBeforeYear(d.year) + DaysBeforeMonth(d.year, d.month) + d.day - 1
  }

  /** `date.weekday()`: Monday is 0 and Sunday is 6. */
  function Weekday(d: Date): (w: int)
    requires ValidDate(d)
    ensures 0 <= w < 7
  {
    DayNumber(d) % 7
  }

  function NextDay(d: Date): (r: Date)
    requires ValidDate(d)
    ensures ValidDate(r)
  {
    if d.day < DaysInMonth(d.year, d.month) then Date(d.year, d.month, d.day + 1)
    else if d.month < 12 then Date(d.year, d.month + 1, 1)
    else Date(d.year + 1, 1, 1)
  }

  function PrevDay(d: Date): (r: Date)
    requires ValidDate(d)
    ensures ValidDate(r)
  {
    if d.day > 1 then Date(d.year, d.month, d.day - 1)
    else if d.month > 1 then Date(d.year, d.month - 1, DaysInMonth(d.year, d.month - 1))
    else Date(d.year - 1, 12, 31)
  }

  /** `d + timedelta(days=n)`. */
  function AddDays(d: Date, n: int): (r: Date)
    requires ValidDate(d)
    ensures ValidDate(r)
    decreases if n < 0 then -n else n
  {
    if n == 0 then d
    else if n > 0 then AddDays(NextDay(d), n - 1)
    else AddDays(PrevDay(d), n + 1)
  }

  lemma FloorDivStep(y: int)
    ensures y / 4 - (y - 1) / 4 == if y % 4 == 0 then 1 else 0
    ensures y / 100 - (y - 1) / 100 == if y % 100 == 0 then 1 else 0
    ensures y / 400 - (y - 1) / 400 == if y % 400 == 0 then 1 else 0
  {
  }

  /** The remainder by `k` is determined by any decomposition `a == k * q + r` with `0 <= r < k`. */
  lemma ModUnique(a: int, k: int, q: int, r: int)
    requires k > 0 && a == k * q + r && 0 <= r < k
    ensures a % k == r && a / k == q
  {
    var q', r' := a / k, a % k;
    assert a == k * q' + r' && 0 <= r' < k;
    if q > q' {
      MulAtLeast(k, q - q');
    } else if q < q' {
      MulAtLeast(k, q' - q);
    }
  }

  lemma {:induction false} MulAtLeast(k: int, t: int)
    requires k > 0 && t >= 1
    ensures k * t >= k
    decreases t
  {
    if t > 1 {
      MulAtLeast(k, t - 1);
      assert k * t == k * (t - 1) + k;
    }
  }

  lemma ModOfMultiple(a: int, k: int, q: int)
    requires k > 0 && a == k * q
    ensures a % k == 0
  {
    ModUnique(a, k, q, 0);
  }

  lemma DaysBeforeNextYear(y: int)
    ensures DaysBeforeYear(y + 1) == DaysBeforeYear(y) + (if IsLeap(y) then 366 else 365)
  {
    FloorDivStep(y);
    if y % 400 == 0 {
      ModOfMultiple(y, 100, 4 * (y / 400));
    }
    if y % 100 == 0 {
      ModOfMultiple(y, 4, 25 * (y / 100));
    }
  }

  lemma DayNumberNext(d: Date)
    requires ValidDate(d)
    ensures DayNumber(NextDay(d)) == DayNumber(d) + 1
  {
    if d.day == DaysInMonth(d.year, d.month) && d.month == 12 {
      DaysBeforeNextYear(d.year);
    }
  }

  lemma DayNumberPrev(d: Date)
    requires ValidDate(d)
    ensures DayNumber(PrevDay(d)) == DayNumber(d) - 1
  {
    if d.day == 1 && d.month == 1 {
      DaysBeforeNextYear(d.year - 1);
    }
  }

  /** Adding `n` days moves the day count by exactly `n`. */
  lemma {:induction false} DayNumberAddDays(d: Date, n: int)
    requires ValidDate(d)
    ensures DayNumber(AddDays(d, n)) == DayNumber(d) + n
    decreases if n < 0 then -n else n
  {
    if n > 0 {
      DayNumberNext(d);
      DayNumberAddDays(NextDay(d), n - 1);
    } else if n < 0 {
      DayNumberPrev(d);
      DayNumberAddDays(PrevDay(d), n + 1);
    }
  }

  /** Adding `n` days advances the weekday by `n` modulo 7. */
  lemma WeekdayAddDays(d: Date, n: int)
    requires ValidDate(d)
    ensures Weekday(AddDays(d, n)) == (Weekday(d) + n) % 7
  {
    DayNumberAddDays(d, n);
    var x := DayNumber(d);
    var a := x + n;
    ModUnique(x % 7 + n, 7, a / 7 - x / 7, a % 7);
  }

  lemma WeekdayNextDay(d: Date)
    requires ValidDate(d)
    ensures Weekday(NextDay(d)) == (Weekday(d) + 1) % 7
  {
    WeekdayAddDays(d, 1);
  }

  /** Two valid dates with the same day count are the same date. */
  lemma DayNumberInjective(a: Date, b: Date)
    requires ValidDate(a) && ValidDate(b) && DayNumber(a) == DayNumber(b)
    ensures a == b
  {
    if a.year != b.year {
      var lo := if a.year < b.year then a else b;
      var hi := if a.year < b.year then b else a;
      YearBounds(lo);
      YearBounds(hi);
      DaysBeforeYearMonotone(lo.year + 1, hi.year);
    } else if a.month != b.month {
      var lo := if a.month < b.month then a else b;
      var hi := if a.month < b.month then b else a;
      MonthBounds(lo.year, lo.month, hi.month);
    }
  }

  lemma YearBounds(d: Date)
    requires ValidDate(d)
    ensures DaysBeforeYear(d.year) <= DayNumber(d) < DaysBeforeYear(d.year + 1)
  {
    DaysBeforeNextYear(d.year);
  }

  lemma {:induction false} DaysBeforeYearMonotone(a: int, b: int)
    requires a <= b
    ensures DaysBeforeYear(a) <= DaysBeforeYear(b)
    decreases b - a
  {
    if a < b {
      DaysBeforeNextYear(a);
      DaysBeforeYearMonotone(a + 1, b);
    }
  }

  lemma MonthBounds(y: int, m1: int, m2: int)
    requires 1 <= m1 < m2 <= 12
    ensures DaysBeforeMonth(y, m1) + DaysInMonth(y, m1) <= DaysBeforeMonth(y, m2)
  {
  }

  /** The instant as a count of minutes; only differences of it matter. */
  function ToMinutes(t: DateTime): int
    requires ValidDateTime(t)
  {
    DayNumber(t.date) * 1440 + t.minute
  }

  /** `t + timedelta(minutes=k)`. */
  function AddMinutes(t: DateTime, k: int): (r: DateTime)
    requires ValidDateTime(t)
    ensures ValidDateTime(r)
  {
    var total := t.minute + k;
    DateTime(AddDays(t.date, total / 1440), total % 1440)
  }

  lemma AddMinutesExact(t: DateTime, k: int)
    requires ValidDateTime(t)
    ensures ToMinutes(AddMinutes(t, k)) == ToMinutes(t) + k
  {
    var total := t.minute + k;
    DayNumberAddDays(t.date, total / 1440);
  }

  /** `datetime.combine(date, time(h, m))`. */
  function At(d: Date, h: int, m: int): DateTime { DateTime(d, h * 60 + m) }
}
