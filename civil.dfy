/**
 * Proleptic Gregorian calendar arithmetic standing in for the parts of the
 * JavaScript `Date` object the pages and routes rely on: month lengths,
 * `new Date(y, m, 1)` and `new Date(y, m, 0)` with month roll-over,
 * `setDate` with day roll-over, and `getDay` (0 = Sunday).
 * Time of day and time zones are not modelled: a `Date` is a calendar day.
 */
module Civil {

  datatype Date = Date(year: int, month: int, day: int)

  predicate IsLeap(y: int)
  {
    y % 4 == 0 && (y % 100 != 0 || y % 400 == 0)
  }

  /** Days in month `m` (1 = January) of year `y`. */
  function DaysInMonth(y: int, m: int): (n: int)
    requires 1 <= m <= 12
    ensures 28 <= n <= 31
    ensures n == 29 <==> m == 2 && IsLeap(y)
    ensures n == 31 <==> m in {1, 3, 5, 7, 8, 10, 12}
  {
    if m == 2 then (if IsLeap(y) then 29 else 28)
    else if m == 4 || m == 6 || m == 9 || m == 11 then 30
    else 31
  }

  predicate ValidDate(d: Date)
  {
    1 <= d.month <= 12 && 1 <= d.day <= DaysInMonth(d.year, d.month)
  }

  function YearLength(y: int): int
  {
    if IsLeap(y) then 366 else 365
  }

  /** Days of year `y` before the first of month `m` (13 stands for the next January). */
  function DaysBeforeMonth(y: int, m: int): (n: int)
    requires 1 <= m <= 13
    ensures 0 <= n
    ensures m <= 12 ==> n + DaysInMonth(y, m) <= YearLength(y)
    ensures m == 13 ==> n == YearLength(y)
  {
    var common :=
      if m == 1 then 0 else if m == 2 then 31 else if m == 3 then 59 else if m == 4 then 90
      else if m == 5 then 120 else if m == 6 then 151 else if m == 7 then 181 else if m == 8 then 212
      else if m == 9 then 243 else if m == 10 then 273 else if m == 11 then 304 else if m == 12 then 334
      else 365;
    common + if m > 2 && IsLeap(y) then 1 else 0
  }

  /** Each month starts where the previous one ends. */
  lemma DaysBeforeMonthStep(y: int, m: int)
    requires 1 <= m <= 12
    ensures DaysBeforeMonth(y, m + 1) == DaysBeforeMonth(y, m) + DaysInMonth(y, m)
  {
  }

  /** Days from 0001-01-01 (proleptic) shifted so that day 0 is 0000-01-01. */
  function DaysBeforeYear(y: int): int
  {
    365 * y + (y - 1) / 4 - (y - 1) / 100 + (y - 1) / 400
  }

  /** Serial day number: consecutive days have consecutive numbers. */
  function DayNumber(d: Date): int
    requires 1 <= d.month <= 12
  {
    DaysBeforeYear(d.year) + DaysBeforeMonth(d.year, d.month) + d.day - 1
  }

  /** `getDay()`: 0 = Sunday .. 6 = Saturday. */
  function Weekday(d: Date): (w: int)
    requires 1 <= d.month <= 12
    ensures 0 <= w < 7
  {
    DayNumber(d) % 7
  }

  lemma MulSign(k: int, x: int)
    requires k > 0
    ensures x >= 1 ==> k * x >= k
    ensures x <= -1 ==> k * x <= -k
  {
    assert k * x == k * (x - 1) + k;
    assert k * x == k * (x + 1) - k;
  }

  /** Euclidean quotient and remainder are unique. */
  lemma DivUnique(y: int, k: int, q: int, r: int)
    requires 0 < k && 0 <= r < k && y == k * q + r
    ensures y / k == q && y % k == r
  {
    var q', r' := y / k, y % k;
    assert k * (q - q') == r' - r;
    MulSign(k, q - q');
  }

  /** Stepping a year adds exactly one to `y / k` iff `k` divides `y`. */
  lemma DivStep(y: int, k: int)
    requires 0 < k
    ensures y / k - (y - 1) / k == if y % k == 0 then 1 else 0
  {
    var q, r := y / k, y % k;
    if r == 0 {
      DivUnique(y - 1, k, q - 1, k - 1);
    } else {
      DivUnique(y - 1, k, q, r - 1);
    }
  }

  lemma {:induction false} DaysBeforeYearStep(y: int)
    ensures DaysBeforeYear(y + 1) == DaysBeforeYear(y) + YearLength(y)
  {
    DivStep(y, 4);
    DivStep(y, 100);
    DivStep(y, 400);
    if y % 100 == 0 {
      DivUnique(y, 4, (y / 100) * 25, 0);
    }
    if y % 400 == 0 {
      DivUnique(y, 100, (y / 400) * 4, 0);
    }
  }

  /** Years are laid end to end: a later year starts after an earlier one ends. */
  lemma {:induction false} DaysBeforeYearMonotone(a: int, b: int)
    requires a < b
    ensures DaysBeforeYear(a) + YearLength(a) <= DaysBeforeYear(b)
    decreases b - a
  {
    DaysBeforeYearStep(a);
    if a + 1 < b {
      DaysBeforeYearMonotone(a + 1, b);
    }
  }

  lemma DaysBeforeMonthMonotone(y: int, a: int, b: int)
    requires 1 <= a < b <= 13
    ensures DaysBeforeMonth(y, a) + DaysInMonth(y, a) <= DaysBeforeMonth(y, b)
  {
    DaysBeforeMonthStep(y, a);
  }

  /** A valid date's serial number lies inside its year and inside its month. */
  lemma DayNumberBounds(d: Date)
    requires ValidDate(d)
    ensures DaysBeforeYear(d.year) <= DayNumber(d) < DaysBeforeYear(d.year) + YearLength(d.year)
    ensures DayNumber(Date(d.year, d.month, 1)) <= DayNumber(d) <= DayNumber(Date(d.year, d.month, DaysInMonth(d.year, d.month)))
  {
  }

  /** Two dates less than a year apart lie in the same or in adjacent years. */
  lemma NearbyYears(a: Date, b: Date)
    requires ValidDate(a) && ValidDate(b)
    requires -365 < DayNumber(a) - DayNumber(b) < 365
    ensures b.year - 1 <= a.year <= b.year + 1
  {
    DayNumberBounds(a);
    DayNumberBounds(b);
    YearsApart(a.year, b.year, DayNumber(a), DayNumber(b));
  }

  /** Two serial numbers less than a year apart fall in the same or in adjacent years. */
  lemma YearsApart(ya: int, yb: int, na: int, nb: int)
    requires DaysBeforeYear(ya) <= na < DaysBeforeYear(ya) + YearLength(ya)
    requires DaysBeforeYear(yb) <= nb < DaysBeforeYear(yb) + YearLength(yb)
    requires -365 < na - nb < 365
    ensures yb - 1 <= ya <= yb + 1
  {
    if ya < yb - 1 {
      DaysBeforeYearMonotone(ya, yb - 1);
      DaysBeforeYearStep(yb - 1);
    } else if yb < ya - 1 {
      DaysBeforeYearMonotone(yb, ya - 1);
      DaysBeforeYearStep(ya - 1);
    }
  }

  /** Serial numbers order valid dates lexicographically by (year, month, day). */
  lemma DayNumberOrder(a: Date, b: Date)
    requires ValidDate(a) && ValidDate(b)
    requires a.year < b.year || (a.year == b.year && a.month < b.month) ||
             (a.year == b.year && a.month == b.month && a.day < b.day)
    ensures DayNumber(a) < DayNumber(b)
  {
    if a.year < b.year {
      DaysBeforeYearMonotone(a.year, b.year);
    } else if a.month < b.month {
      DaysBeforeMonthMonotone(a.year, a.month, b.month);
    }
  }

  /** Distinct valid dates have distinct serial numbers. */
  lemma DayNumberInjective(a: Date, b: Date)
    requires ValidDate(a) && ValidDate(b) && DayNumber(a) == DayNumber(b)
    ensures a == b
  {
    if a.year < b.year || (a.year == b.year && a.month < b.month) ||
       (a.year == b.year && a.month == b.month && a.day < b.day) {
      DayNumberOrder(a, b);
    } else if b.year < a.year || (a.year == b.year && b.month < a.month) ||
              (a.year == b.year && a.month == b.month && b.day < a.day) {
      DayNumberOrder(b, a);
    }
  }

  /** The day after `d`, rolling over month and year ends. */
  function NextDay(d: Date): (r: Date)
    requires ValidDate(d)
    ensures ValidDate(r)
    ensures DayNumber(r) == DayNumber(d) + 1
  {
    if d.day < DaysInMonth(d.year, d.month) then
      Date(d.year, d.month, d.day + 1)
    else if d.month < 12 then
      DaysBeforeMonthStep(d.year, d.month);
      Date(d.year, d.month + 1, 1)
    else
      DaysBeforeMonthStep(d.year, 12);
      DaysBeforeYearStep(d.year);
      Date(d.year + 1, 1, 1)
  }

  /** The day before `d`, rolling back over month and year starts. */
  function PrevDay(d: Date): (r: Date)
    requires ValidDate(d)
    ensures ValidDate(r)
    ensures DayNumber(r) == DayNumber(d) - 1
  {
    if d.day > 1 then
      Date(d.year, d.month, d.day - 1)
    else if d.month > 1 then
      Date(d.year, d.month - 1, DaysInMonth(d.year, d.month - 1))
    else
      DaysBeforeMonthStep(d.year - 1, 12);
      DaysBeforeYearStep(d.year - 1);
      Date(d.year - 1, 12, 31)
  }

  /** `date.setDate(date.getDate() + n)`: move `n` days, forwards or backwards. */
  function AddDays(d: Date, n: int): (r: Date)
    requires ValidDate(d)
    ensures ValidDate(r)
    ensures DayNumber(r) == DayNumber(d) + n
    decreases if n < 0 then -n else n
  {
    if n == 0 then d
    else if n > 0 then AddDays(NextDay(d), n - 1)
    else AddDays(PrevDay(d), n + 1)
  }

  /** A week later is the same day of the week. */
  lemma WeekdayWeekLater(a: Date, b: Date)
    requires ValidDate(a) && ValidDate(b) && DayNumber(b) == DayNumber(a) + 7
    ensures Weekday(b) == Weekday(a)
  {
    var n := DayNumber(a);
    assert n == 7 * (n / 7) + n % 7;
    DivUnique(n + 7, 7, n / 7 + 1, n % 7);
  }

  /** Moving `n` days moves the weekday by `n` modulo 7. */
  lemma WeekdayAfter(d: Date, n: int)
    requires ValidDate(d)
    ensures Weekday(AddDays(d, n)) == (Weekday(d) + n) % 7
  {
    var k, m := DayNumber(d), DayNumber(AddDays(d, n));
    var q, r := k / 7, k % 7;
    var q', r' := (r + n) / 7, (r + n) % 7;
    DivUnique(m, 7, q + q', r');
  }

  lemma ModSevenShift(k: int, n: int)
    ensures (k + n) % 7 == (k % 7 + n) % 7
  {
    DivUnique(k, 7, k / 7, k % 7);
    DivUnique(k + n, 7, (k + n) / 7, (k + n) % 7);
    DivUnique(k % 7 + n, 7, (k % 7 + n) / 7, (k % 7 + n) % 7);
    assert k + n == 7 * (k / 7 + (k % 7 + n) / 7) + (k % 7 + n) % 7;
    DivUnique(k + n, 7, k / 7 + (k % 7 + n) / 7, (k % 7 + n) % 7);
  }

  /** Within a month the weekday advances by one per day. */
  lemma WeekdayInMonth(y: int, m: int, d: int)
    requires 1 <= m <= 12
    ensures Weekday(Date(y, m, d)) == (Weekday(Date(y, m, 1)) + d - 1) % 7
  {
    assert DayNumber(Date(y, m, d)) == DayNumber(Date(y, m, 1)) + (d - 1);
    ModSevenShift(DayNumber(Date(y, m, 1)), d - 1);
  }

  /** The calendar is anchored: 1 January 1970 was a Thursday and 1 January 2024 a Monday. */
  lemma WeekdayAnchors()
    ensures Weekday(Date(1970, 1, 1)) == 4
    ensures Weekday(Date(2024, 1, 1)) == 1
  {
  }

  /** Normalise a JavaScript month index (0 = January, may be out of range) to (year, month 1..12). */
  function NormalizeMonth(y: int, monthIndex: int): (r: (int, int))
    ensures 1 <= r.1 <= 12
    ensures r.0 * 12 + (r.1 - 1) == y * 12 + monthIndex
  {
    var total := y * 12 + monthIndex;
    (total / 12, total % 12 + 1)
  }

  /** `new Date(y, monthIndex, 1)`: the first day of the (normalised) month. */
  function FirstOfMonth(y: int, monthIndex: int): (r: Date)
    ensures ValidDate(r) && r.day == 1
  {
    var (yy, mm) := NormalizeMonth(y, monthIndex);
    Date(yy, mm, 1)
  }

  /** `new Date(y, monthIndex, 0)`: day zero is the last day of the month before `monthIndex`. */
  function DayZero(y: int, monthIndex: int): (r: Date)
    ensures ValidDate(r)
    ensures 28 <= r.day <= 31
  {
    var (yy, mm) := NormalizeMonth(y, monthIndex - 1);
    Date(yy, mm, DaysInMonth(yy, mm))
  }

  /** Day zero of a month is the day before its first day. */
  lemma DayZeroPrecedes(y: int, monthIndex: int)
    ensures NextDay(DayZero(y, monthIndex)) == FirstOfMonth(y, monthIndex)
  {
    NormalizeSuccessor(y, monthIndex);
  }

  /** The month after normalised month `monthIndex - 1` is normalised month `monthIndex`. */
  lemma NormalizeSuccessor(y: int, monthIndex: int)
    ensures var (a, b) := NormalizeMonth(y, monthIndex - 1);
            var (c, d) := NormalizeMonth(y, monthIndex);
            if b < 12 then c == a && d == b + 1 else c == a + 1 && d == 1
  {
    var (a, b) := NormalizeMonth(y, monthIndex - 1);
    var (c, d) := NormalizeMonth(y, monthIndex);
    if b < 12 {
      DivUnique(y * 12 + monthIndex, 12, a, b);
    } else {
      DivUnique(y * 12 + monthIndex, 12, a + 1, 0);
    }
  }

  /** `new Date(y, m, 0)` with a 1-based month `m` is the last day of that month, and
      `new Date(y, m - 1, 1)` its first day: together they bound one calendar month. */
  lemma MonthBounds(y: int, m: int)
    ensures FirstOfMonth(y, m - 1).year == DayZero(y, m).year
    ensures FirstOfMonth(y, m - 1).month == DayZero(y, m).month
    ensures DayZero(y, m).day == DaysInMonth(DayZero(y, m).year, DayZero(y, m).month)
    ensures 1 <= m <= 12 ==> FirstOfMonth(y, m - 1) == Date(y, m, 1)
  {
    if 1 <= m <= 12 {
      DivUnique(y * 12 + m - 1, 12, y, m - 1);
    }
  }

  /** A valid date lies between the first and the last day of a month exactly when it is in that month. */
  lemma InMonthIff(d: Date, y: int, m: int)
    requires ValidDate(d) && 1 <= m <= 12
    ensures DayNumber(Date(y, m, 1)) <= DayNumber(d) <= DayNumber(Date(y, m, DaysInMonth(y, m)))
            <==> d.year == y && d.month == m
  {
    var first, last := Date(y, m, 1), Date(y, m, DaysInMonth(y, m));
    if d.year < y || (d.year == y && d.month < m) {
      DayNumberOrder(d, first);
    } else if d.year > y || (d.year == y && d.month > m) {
      DayNumberOrder(last, d);
    }
  }
}
