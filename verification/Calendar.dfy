/**
 * The proleptic Gregorian calendar, as `Date.UTC` normalises it: a month index
 * that may run past either end of a year, and a day inside that month.
 */
module Calendar {

  /** `month` counts from January of year 0, so year = month / 12. */
  datatype Date = Date(month: int, day: int)

  predicate Leap(year: int) {
    year % 4 == 0 && (year % 100 != 0 || year % 400 == 0)
  }

  function DaysInMonth(month: int): (n: int)
    ensures 28 <= n <= 31
  {
    var k := month % 12;
    if k == 1 then (if Leap(month / 12) then 29 else 28)
    else if k == 3 || k == 5 || k == 8 || k == 10 then 30
    else 31
  }

  predicate Valid(d: Date) {
    1 <= d.day <= DaysInMonth(d.month)
  }

  /** Day number of the first of a month; day 0 is 1 January of year 0. */
  function MonthStart(month: int): int
    decreases if month < 0 then -month else month
  {
    if month == 0 then 0
    else if month > 0 then MonthStart(month - 1) + DaysInMonth(month - 1)
    else MonthStart(month + 1) - DaysInMonth(month)
  }

  function DayNumber(d: Date): int {
    MonthStart(d.month) + d.day - 1
  }

  lemma MonthStartStep(month: int)
    ensures MonthStart(month + 1) == MonthStart(month) + DaysInMonth(month)
  {
    if month < 0 {
      assert MonthStart(month) == MonthStart(month + 1) - DaysInMonth(month);
    }
  }

  /** Days before 1 January of a year, counted with one leap day in four years, none in most centuries. */
  function YearStart(year: int): int {
    365 * year + (year + 3) / 4 - (year + 99) / 100 + (year + 399) / 400
  }

  /** Days before the first of a month in its year. */
  function DaysBefore(month: nat): int
    requires month <= 12
  {
    [0, 31, 59, 90, 120, 151, 181, 212, 243, 273, 304, 334, 365][month]
  }

  lemma YearStartStep(year: int)
    ensures YearStart(year + 1) - YearStart(year)
         == if year % 4 == 0 && (year % 100 != 0 || year % 400 == 0) then 366 else 365
  {
    Quotients(year);
  }

  /** Rounded up, the quotient steps by one past each multiple. */
  lemma Quotients(year: int)
    ensures (year + 4) / 4 - (year + 3) / 4 == if year % 4 == 0 then 1 else 0
    ensures (year + 100) / 100 - (year + 99) / 100 == if year % 100 == 0 then 1 else 0
    ensures (year + 400) / 400 - (year + 399) / 400 == if year % 400 == 0 then 1 else 0
  {
    FourthYear(year / 4, year % 4);
    Century(year / 100, year % 100);
    FourthCentury(year / 400, year % 400);
  }

  lemma FourthYear(q: int, r: nat)
    requires r < 4
    ensures (4 * q + r + 4) / 4 == q + 1 && (4 * q + r + 3) / 4 == if r == 0 then q else q + 1
  {
  }

  lemma Century(q: int, r: nat)
    requires r < 100
    ensures (100 * q + r + 100) / 100 == q + 1 && (100 * q + r + 99) / 100 == if r == 0 then q else q + 1
  {
  }

  lemma FourthCentury(q: int, r: nat)
    requires r < 400
    ensures (400 * q + r + 400) / 400 == q + 1 && (400 * q + r + 399) / 400 == if r == 0 then q else q + 1
  {
  }

  lemma {:induction false} MonthInYear(year: int, k: nat)
    requires k <= 12
    ensures MonthStart(12 * year + k) == MonthStart(12 * year) + DaysBefore(k)
              + (if k >= 2 && year % 4 == 0 && (year % 100 != 0 || year % 400 == 0) then 1 else 0)
  {
    if k > 0 {
      MonthInYear(year, k - 1);
      MonthStartStep(12 * year + (k - 1));
      assert (12 * year + (k - 1)) / 12 == year && (12 * year + (k - 1)) % 12 == k - 1;
    }
  }

  lemma {:induction false} YearStartsThere(year: int)
    ensures MonthStart(12 * year) == YearStart(year)
    decreases if year < 0 then -year else year
  {
    if year > 0 {
      YearStartsThere(year - 1);
      YearStartStep(year - 1);
      MonthInYear(year - 1, 12);
      assert 12 * year == 12 * (year - 1) + 12;
    } else if year < 0 {
      YearStartsThere(year + 1);
      YearStartStep(year);
      MonthInYear(year, 12);
      assert 12 * (year + 1) == 12 * year + 12;
    }
  }

  /** The whole calendar in closed form: the first of every month of every year. */
  lemma MonthStartClosed(year: int, k: nat)
    requires k < 12
    ensures MonthStart(12 * year + k)
         == 365 * year + (year + 3) / 4 - (year + 99) / 100 + (year + 399) / 400
            + [0, 31, 59, 90, 120, 151, 181, 212, 243, 273, 304, 334][k]
            + (if k >= 2 && year % 4 == 0 && (year % 100 != 0 || year % 400 == 0) then 1 else 0)
  {
    YearStartsThere(year);
    MonthInYear(year, k);
  }

  /** It repeats every four hundred years. */
  lemma FourCenturies(month: int)
    ensures MonthStart(month + 4800) == MonthStart(month) + 146097
  {
    var year, k := month / 12, month % 12;
    assert month == 12 * year + k && month + 4800 == 12 * (year + 400) + k;
    MonthStartClosed(year, k);
    MonthStartClosed(year + 400, k);
    CenturiesOn(year);
  }

  lemma CenturiesOn(year: int)
    ensures YearStart(year + 400) == YearStart(year) + 146097
    ensures (year + 400) % 4 == year % 4 && (year + 400) % 100 == year % 100 && (year + 400) % 400 == year % 400
  {
    assert (year + 403) / 4 == (year + 3) / 4 + 100;
    assert (year + 499) / 100 == (year + 99) / 100 + 4;
    assert (year + 799) / 400 == (year + 399) / 400 + 1;
  }

  /** Thirty days have April, June, September and November; February has 28, and 29 in a leap year. */
  lemma MonthLength(year: int, k: nat)
    requires k < 12
    ensures DaysInMonth(12 * year + k)
         == if k == 1 then (if year % 4 == 0 && (year % 100 != 0 || year % 400 == 0) then 29 else 28)
            else if k in {3, 5, 8, 10} then 30 else 31
  {
    assert (12 * year + k) / 12 == year && (12 * year + k) % 12 == k;
  }

  lemma {:induction false} MonthStartGap(a: int, b: int)
    requires a <= b
    ensures 28 * (b - a) <= MonthStart(b) - MonthStart(a)
    decreases b - a
  {
    if a < b {
      MonthStartStep(b - 1);
      MonthStartGap(a, b - 1);
    }
  }

  /** Day numbers order valid dates exactly as (month, day) does, as the ISO text of a date does. */
  lemma DayNumberOrder(a: Date, b: Date)
    requires Valid(a) && Valid(b)
    ensures DayNumber(a) < DayNumber(b) <==> a.month < b.month || (a.month == b.month && a.day < b.day)
    ensures DayNumber(a) == DayNumber(b) <==> a == b
  {
    MonthStartStep(a.month);
    MonthStartStep(b.month);
    if a.month < b.month {
      MonthStartGap(a.month + 1, b.month);
    } else if b.month < a.month {
      MonthStartGap(b.month + 1, a.month);
    }
  }

  function NextDay(d: Date): (r: Date)
    requires Valid(d)
    ensures Valid(r)
  {
    if d.day < DaysInMonth(d.month) then Date(d.month, d.day + 1) else Date(d.month + 1, 1)
  }

  function PrevDay(d: Date): (r: Date)
    requires Valid(d)
    ensures Valid(r)
  {
    if d.day > 1 then Date(d.month, d.day - 1) else Date(d.month - 1, DaysInMonth(d.month - 1))
  }

  lemma DayStep(d: Date)
    requires Valid(d)
    ensures DayNumber(NextDay(d)) == DayNumber(d) + 1
    ensures DayNumber(PrevDay(d)) == DayNumber(d) - 1
    ensures NextDay(PrevDay(d)) == d && PrevDay(NextDay(d)) == d
  {
    if d.day < DaysInMonth(d.month) {
    } else {
      MonthStartStep(d.month);
    }
    if d.day > 1 {
    } else {
      MonthStartStep(d.month - 1);
    }
  }

  /** The date with a given day number, searched month by month from `month`. */
  function DateFrom(month: int, n: int): (d: Date)
    ensures Valid(d) && DayNumber(d) == n
    decreases if n < MonthStart(month) then MonthStart(month) - n else n - MonthStart(month)
  {
    MonthStartStep(month);
    MonthStartStep(month - 1);
    if n < MonthStart(month - 1) then DateFrom(month - 1, n)
    else if n < MonthStart(month) then Date(month - 1, n - MonthStart(month - 1) + 1)
    else if n >= MonthStart(month + 1) then DateFrom(month + 1, n)
    else Date(month, n - MonthStart(month) + 1)
  }

  const EPOCH_MONTH := 12 * 1970
  const DAY_MS := 86400000

  /** `date.toISOString().slice(0, 10)` for a time in milliseconds since 1970. */
  function DateOfMillis(ms: int): (d: Date)
    ensures Valid(d) && DayNumber(d) == MonthStart(EPOCH_MONTH) + ms / DAY_MS
  {
    DateFrom(EPOCH_MONTH, MonthStart(EPOCH_MONTH) + ms / DAY_MS)
  }

  /** 1 January 1970 has 719 528 days before it. */
  lemma EpochDay()
    ensures DayNumber(Date(12 * 1970, 1)) == 719528
  {
    MonthStartClosed(1970, 0);
  }

  lemma DayOfMillis(ms: int, n: int)
    ensures ms / 86400000 == n <==> 86400000 * n <= ms < 86400000 * n + 86400000
  {
  }

  /** Midnight of 1 January 1970 is instant zero, and a date lasts 86 400 000 milliseconds. */
  lemma MillisOfDate(ms: int, d: Date)
    requires Valid(d)
    ensures DateOfMillis(ms) == d
       <==> 86400000 * (DayNumber(d) - 719528) <= ms < 86400000 * (DayNumber(d) - 719528) + 86400000
  {
    EpochDay();
    DayNumberOrder(DateOfMillis(ms), d);
    DayOfMillis(ms, DayNumber(d) - 719528);
  }
}
