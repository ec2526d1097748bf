/** The proleptic Gregorian calendar over all years, as day numbers: year 0 is a leap year. */
module Calendar {
  const DAYS_PER_CYCLE := 146_097

  datatype Date = Date(year: int, month: int, day: int)

  predicate IsLeap(y: int) {
    y % 4 == 0 && (y % 100 != 0 || y % 400 == 0)
  }

  function YearLength(y: int): int {
    if IsLeap(y) then 366 else 365
  }

  /** Days from the start of year 0 to the start of year `y`. */
  function YearStart(y: int): int {
    365 * y + (y + 3) / 4 - (y + 99) / 100 + (y + 399) / 400
  }

  /** Days from the start of a year to the start of month `m`; month 13 is the year's end. */
  function MonthStart(leap: bool, m: int): (n: int)
    requires 1 <= m <= 13
    ensures m == 1 ==> n == 0
    ensures m == 13 ==> n == if leap then 366 else 365
  {
    var table := [0, 31, 59, 90, 120, 151, 181, 212, 243, 273, 304, 334, 365];
    table[m - 1] + if leap && m > 2 then 1 else 0
  }

  predicate Valid(d: Date) {
    1 <= d.month <= 12 && 1 <= d.day <= MonthStart(IsLeap(d.year), d.month + 1) - MonthStart(IsLeap(d.year), d.month)
  }

  /** Days from 1 January of year 0. */
  function DayNumber(d: Date): int
    requires 1 <= d.month <= 12
  {
    YearStart(d.year) + MonthStart(IsLeap(d.year), d.month) + d.day - 1
  }

  // --- years ------------------------------------------------------------------------------------

  lemma Div4(q: int, r: int)
    requires 0 <= r < 4
    ensures (4 * q + r) / 4 == q && (4 * q + r) % 4 == r
  {
  }

  lemma Div100(q: int, r: int)
    requires 0 <= r < 100
    ensures (100 * q + r) / 100 == q && (100 * q + r) % 100 == r
  {
  }

  lemma Div400(q: int, r: int)
    requires 0 <= r < 400
    ensures (400 * q + r) / 400 == q && (400 * q + r) % 400 == r
  {
  }

  lemma Step4(y: int)
    ensures (y + 4) / 4 == (y + 3) / 4 + if y % 4 == 0 then 1 else 0
  {
    var q, r := y / 4, y % 4;
    Div4(q + 1, r);
    if r == 0 { Div4(q, 3); } else { Div4(q + 1, r - 1); }
  }

  lemma Step100(y: int)
    ensures (y + 100) / 100 == (y + 99) / 100 + if y % 100 == 0 then 1 else 0
    ensures y % 100 == 0 ==> y % 4 == 0
  {
    var q, r := y / 100, y % 100;
    Div100(q + 1, r);
    if r == 0 {
      Div100(q, 99);
      Div4(25 * q, 0);
    } else {
      Div100(q + 1, r - 1);
    }
  }

  lemma Step400(y: int)
    ensures (y + 400) / 400 == (y + 399) / 400 + if y % 400 == 0 then 1 else 0
    ensures y % 400 == 0 ==> y % 100 == 0
  {
    var q, r := y / 400, y % 400;
    Div400(q + 1, r);
    if r == 0 {
      Div400(q, 399);
      Div100(4 * q, 0);
    } else {
      Div400(q + 1, r - 1);
    }
  }

  /** Each year starts where the one before it ends. */
  lemma NextYear(y: int)
    ensures YearStart(y + 1) == YearStart(y) + YearLength(y)
  {
    Step4(y);
    Step100(y);
    Step400(y);
  }

  /** The calendar repeats every 400 years. */
  lemma Repeats(y: int, k: int)
    ensures YearStart(y + 400 * k) == YearStart(y) + DAYS_PER_CYCLE * k
    ensures IsLeap(y + 400 * k) == IsLeap(y)
  {
    Shift4(y, k);
    Shift4(y + 3, k);
    Shift100(y, k);
    Shift100(y + 99, k);
    Shift400(y, k);
    Shift400(y + 399, k);
  }

  lemma Shift4(a: int, k: int)
    ensures (a + 400 * k) / 4 == a / 4 + 100 * k && (a + 400 * k) % 4 == a % 4
  {
    Div4(a / 4 + 100 * k, a % 4);
  }

  lemma Shift100(a: int, k: int)
    ensures (a + 400 * k) / 100 == a / 100 + 4 * k && (a + 400 * k) % 100 == a % 100
  {
    Div100(a / 100 + 4 * k, a % 100);
  }

  lemma Shift400(a: int, k: int)
    ensures (a + 400 * k) / 400 == a / 400 + k && (a + 400 * k) % 400 == a % 400
  {
    Div400(a / 400 + k, a % 400);
  }

  lemma {:induction false} YearsAscend(y: int, z: int)
    requires y < z
    ensures YearStart(y) + YearLength(y) <= YearStart(z)
    decreases z - y
  {
    NextYear(y);
    if y + 1 < z {
      YearsAscend(y + 1, z);
    }
  }

  /** The year day `n` falls in, looking from year `y` on. */
  function YearFrom(n: int, y: int): (r: int)
    requires YearStart(y) <= n
    ensures r >= y && YearStart(r) <= n < YearStart(r) + YearLength(r)
    decreases n - YearStart(y)
  {
    NextYear(y);
    if n < YearStart(y) + YearLength(y) then y else YearFrom(n, y + 1)
  }

  function MonthFrom(leap: bool, n: int, m: int): (r: int)
    requires 1 <= m <= 12 && MonthStart(leap, m) <= n < MonthStart(leap, 13)
    ensures m <= r <= 12 && MonthStart(leap, r) <= n < MonthStart(leap, r + 1)
    decreases 12 - m
  {
    if n < MonthStart(leap, m + 1) then m else MonthFrom(leap, n, m + 1)
  }

  lemma CycleStart(n: int)
    ensures YearStart(400 * (n / DAYS_PER_CYCLE)) <= n
  {
    hide YearStart;
    YearZero();
    WholeCycles(n);
    Repeats(0, n / DAYS_PER_CYCLE);
  }

  lemma YearZero()
    ensures YearStart(0) == 0
  {
  }

  lemma WholeCycles(n: int)
    ensures DAYS_PER_CYCLE * (n / DAYS_PER_CYCLE) <= n
  {
  }

  /** The date of day `n`. */
  function DateOf(n: int): Date {
    CycleStart(n);
    var y := YearFrom(n, 400 * (n / DAYS_PER_CYCLE));
    var m := MonthFrom(IsLeap(y), n - YearStart(y), 1);
    Date(y, m, n - YearStart(y) - MonthStart(IsLeap(y), m) + 1)
  }

  lemma DateOfDay(n: int)
    ensures Valid(DateOf(n)) && DayNumber(DateOf(n)) == n
  {
    hide YearStart, IsLeap, YearFrom, MonthFrom, MonthStart;
  }

  lemma MonthsAscend(leap: bool, a: int, b: int)
    requires 1 <= a < b <= 13
    ensures MonthStart(leap, a + 1) <= MonthStart(leap, b)
  {
  }

  /** A day has one date only. */
  lemma DateUnique(a: Date, b: Date)
    requires Valid(a) && Valid(b) && DayNumber(a) == DayNumber(b)
    ensures a == b
  {
    InYear(a);
    InYear(b);
    if a.year < b.year {
      YearsAscend(a.year, b.year);
    } else if b.year < a.year {
      YearsAscend(b.year, a.year);
    } else if a.month < b.month {
      MonthsAscend(IsLeap(a.year), a.month, b.month);
    } else if b.month < a.month {
      MonthsAscend(IsLeap(a.year), b.month, a.month);
    }
  }

  lemma InYear(d: Date)
    requires Valid(d)
    ensures YearStart(d.year) <= DayNumber(d) < YearStart(d.year) + YearLength(d.year)
  {
  }

  /** Moving a date by whole cycles moves its day by whole cycles. */
  lemma DateRepeats(d: Date, k: int)
    requires Valid(d)
    ensures Valid(d.(year := d.year + 400 * k))
    ensures DayNumber(d.(year := d.year + 400 * k)) == DayNumber(d) + DAYS_PER_CYCLE * k
  {
    Repeats(d.year, k);
  }

  // --- the calendar by itself -------------------------------------------------------------------

  /** Thirty days hath September. */
  function MonthLength(y: int, m: int): int {
    if m == 2 then (if y % 400 == 0 || (y % 4 == 0 && y % 100 != 0) then 29 else 28)
    else if m == 4 || m == 6 || m == 9 || m == 11 then 30
    else 31
  }

  function Tomorrow(d: Date): Date {
    if d.day < MonthLength(d.year, d.month) then Date(d.year, d.month, d.day + 1)
    else if d.month < 12 then Date(d.year, d.month + 1, 1)
    else Date(d.year + 1, 1, 1)
  }

  lemma MonthIs(y: int, m: int)
    requires 1 <= m <= 12
    ensures MonthStart(IsLeap(y), m + 1) - MonthStart(IsLeap(y), m) == MonthLength(y, m)
  {
    assert IsLeap(y) <==> y % 400 == 0 || (y % 4 == 0 && y % 100 != 0);
  }

  lemma ValidExactly(d: Date)
    ensures Valid(d) <==> 1 <= d.month <= 12 && 1 <= d.day <= MonthLength(d.year, d.month)
  {
    hide MonthStart, MonthLength, IsLeap;
    if 1 <= d.month <= 12 { MonthIs(d.year, d.month); }
  }

  lemma EpochDay()
    ensures DayNumber(Date(1970, 1, 1)) == 719_528
  {
  }

  /** The numbers count the days, one by one, from 1 January 1970. */
  lemma DaysCount(d: Date)
    requires Valid(d)
    ensures Valid(Tomorrow(d)) && DayNumber(Tomorrow(d)) == DayNumber(d) + 1
    ensures DayNumber(Date(1970, 1, 1)) == 719_528
  {
    EpochDay();
    NextYear(d.year);
    ValidExactly(d);
    ValidExactly(Tomorrow(d));
    MonthIs(d.year, d.month);
    assert MonthLength(d.year, 12) == 31 && forall y, m :: MonthLength(y, m) >= 1;
    hide MonthStart, MonthLength, IsLeap, YearStart, Valid;
  }
}
