/** The proleptic Gregorian calendar: dates, their day numbers, and the day after. */
module Calendar {
  datatype Date = Date(year: int, month: int, day: int)

  predicate IsLeap(y: int) {
    y % 4 == 0 && (y % 100 != 0 || y % 400 == 0)
  }

  function DaysIn(month: int, year: int): int
    requires 1 <= month <= 12
  {
    if month == 2 then (if IsLeap(year) then 29 else 28)
    else if month in [4, 6, 9, 11] then 30
    else 31
  }

  predicate ValidDate(d: Date) {
    1 <= d.month <= 12 && 1 <= d.day <= DaysIn(d.month, d.year)
  }

  // Days from 1 January of year 1 to 1 January of year y; negative for earlier years.
  function YearStart(y: int): int {
    365 * (y - 1) + (y - 1) / 4 - (y - 1) / 100 + (y - 1) / 400
  }

  function MonthStart(month: int, year: int): int
    requires 1 <= month <= 13
  {
    if month == 1 then 0 else MonthStart(month - 1, year) + DaysIn(month - 1, year)
  }

  // Days from 1 January of year 1; that day is number 0.
  function DayNumber(d: Date): int
    requires ValidDate(d)
  {
    YearStart(d.year) + MonthStart(d.month, d.year) + d.day - 1
  }

  predicate Earlier(a: Date, b: Date) {
    a.year < b.year || (a.year == b.year && (a.month < b.month || (a.month == b.month && a.day < b.day)))
  }

  // The date one day later, as time.Date normalises a day past the end of its month.
  function NextDay(d: Date): (n: Date)
    requires ValidDate(d)
    ensures ValidDate(n)
  {
    if d.day < DaysIn(d.month, d.year) then Date(d.year, d.month, d.day + 1)
    else if d.month < 12 then Date(d.year, d.month + 1, 1)
    else Date(d.year + 1, 1, 1)
  }

  // ---------- Laws ----------

  lemma LeapYears(y: int)
    ensures IsLeap(y) <==> y % 400 == 0 || (y % 4 == 0 && y % 100 != 0)
  {
    if y % 400 == 0 { assert y == 4 * (100 * (y / 400)); }
  }

  // The real dates: the lengths of the months, and February by the divisibility of the year.
  lemma RealDates(d: Date)
    ensures ValidDate(d) <==>
      && 1 <= d.day && 1 <= d.month <= 12
      && (d.month in [1, 3, 5, 7, 8, 10, 12] ==> d.day <= 31)
      && (d.month in [4, 6, 9, 11] ==> d.day <= 30)
      && (d.month == 2 ==>
            d.day <= if d.year % 400 == 0 || (d.year % 4 == 0 && d.year % 100 != 0) then 29 else 28)
  {
    LeapYears(d.year);
  }

  // Days are counted from the first day of year 1; the first day of 1970 is day 719162.
  lemma DayZero()
    ensures DayNumber(Date(1, 1, 1)) == 0 && DayNumber(Date(1970, 1, 1)) == 719162
  {
  }

  // A quotient grows by one exactly at the multiples of its divisor.
  lemma QuotientsGrow(y: int)
    ensures y / 4 == (y - 1) / 4 + (if y % 4 == 0 then 1 else 0)
    ensures y / 100 == (y - 1) / 100 + (if y % 100 == 0 then 1 else 0)
    ensures y / 400 == (y - 1) / 400 + (if y % 400 == 0 then 1 else 0)
  {
  }

  lemma MonthsOfYear(y: int)
    ensures MonthStart(13, y) == if IsLeap(y) then 366 else 365
  {
    var f := if IsLeap(y) then 29 else 28;
    assert MonthStart(2, y) == 31;
    assert MonthStart(3, y) == 31 + f;
    assert MonthStart(5, y) == MonthStart(3, y) + 61;
    assert MonthStart(7, y) == MonthStart(5, y) + 61;
    assert MonthStart(9, y) == MonthStart(7, y) + 62;
    assert MonthStart(11, y) == MonthStart(9, y) + 61;
    assert MonthStart(13, y) == MonthStart(11, y) + 61;
  }

  // Every fourth year is leap, but of the centuries only every fourth.
  lemma LeapCount(y: int)
    ensures (if y % 4 == 0 then 1 else 0) - (if y % 100 == 0 then 1 else 0) + (if y % 400 == 0 then 1 else 0)
      == if IsLeap(y) then 1 else 0
  {
  }

  lemma YearLength(y: int)
    ensures YearStart(y + 1) == YearStart(y) + (if IsLeap(y) then 366 else 365)
    ensures MonthStart(13, y) == if IsLeap(y) then 366 else 365
  {
    QuotientsGrow(y);
    LeapCount(y);
    MonthsOfYear(y);
  }

  lemma {:induction false} YearsGrow(a: int, b: int)
    requires a <= b
    ensures YearStart(a) + 365 * (b - a) <= YearStart(b)
    decreases b - a
  {
    if a < b {
      YearsGrow(a, b - 1);
      YearLength(b - 1);
    }
  }

  lemma {:induction false} MonthsGrow(year: int, m: int, n: int)
    requires 1 <= m <= n <= 13
    ensures m < n ==> MonthStart(m, year) + DaysIn(m, year) <= MonthStart(n, year)
    ensures 0 <= MonthStart(m, year) <= MonthStart(n, year)
    decreases n
  {
    if m < n {
      MonthsGrow(year, m, n - 1);
    } else if m > 1 {
      MonthsGrow(year, m - 1, m - 1);
    }
  }

  // A date lies within its year.
  lemma DayInYear(d: Date)
    requires ValidDate(d)
    ensures YearStart(d.year) <= DayNumber(d) < YearStart(d.year + 1)
  {
    MonthsGrow(d.year, d.month, 13);
    YearLength(d.year);
  }

  // Day numbers order dates exactly as year, month and day do.
  lemma DayNumberIsOrder(a: Date, b: Date)
    requires ValidDate(a) && ValidDate(b)
    ensures DayNumber(a) < DayNumber(b) <==> Earlier(a, b)
    ensures DayNumber(a) == DayNumber(b) <==> a == b
  {
    if a.year < b.year {
      DayInYear(a); DayInYear(b); YearsGrow(a.year + 1, b.year);
    } else if b.year < a.year {
      DayInYear(a); DayInYear(b); YearsGrow(b.year + 1, a.year);
    } else if a.month < b.month {
      MonthsGrow(a.year, a.month, b.month);
    } else if b.month < a.month {
      MonthsGrow(a.year, b.month, a.month);
    }
  }

  // The next day is exactly one day later, across month ends, leap days and year ends.
  lemma NextDayIsOneLater(d: Date)
    requires ValidDate(d)
    ensures DayNumber(NextDay(d)) == DayNumber(d) + 1
  {
    if d.day == DaysIn(d.month, d.year) && d.month == 12 {
      YearLength(d.year);
      assert MonthStart(13, d.year) == MonthStart(12, d.year) + 31;
    }
  }

  // ---------- The date of a day number ----------

  function YearOf(n: int, y: int): (r: int)
    ensures YearStart(r) <= n < YearStart(r + 1)
    decreases n < YearStart(y), if n < YearStart(y) then YearStart(y) - n else n - YearStart(y)
  {
    YearLength(y);
    if n < YearStart(y) then
      YearLength(y - 1);
      YearOf(n, y - 1)
    else if n >= YearStart(y + 1) then YearOf(n, y + 1)
    else y
  }

  function MonthOf(k: int, year: int, m: int): (r: int)
    requires 1 <= m <= 12 && MonthStart(m, year) <= k < MonthStart(13, year)
    ensures 1 <= r <= 12 && MonthStart(r, year) <= k < MonthStart(r, year) + DaysIn(r, year)
    decreases 12 - m
  {
    if k < MonthStart(m + 1, year) then m else MonthOf(k, year, m + 1)
  }

  // The date with a given day number.
  function DateOf(n: int): (d: Date)
    ensures ValidDate(d) && DayNumber(d) == n
  {
    var y := YearOf(n, n / 366);
    YearLength(y);
    var k := n - YearStart(y);
    var m := MonthOf(k, y, 1);
    Date(y, m, k - MonthStart(m, y) + 1)
  }

  lemma DateOfInverse(d: Date)
    requires ValidDate(d)
    ensures DateOf(DayNumber(d)) == d
  {
    DayNumberIsOrder(DateOf(DayNumber(d)), d);
  }
}
