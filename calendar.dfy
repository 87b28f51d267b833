/** The proleptic Gregorian calendar of Python's datetime.date: years 1 to
    9999, day numbers counted from 0001-01-01 (a Monday), weekday() with
    Monday = 0, and stepping by whole days with the OverflowError at either
    end of the range. */
module Calendar {
  import opened Wrappers

  datatype Date = Date(year: int, month: int, day: int)

  const MinYear := 1
  const MaxYear := 9999

  predicate IsLeap(y: int) {
    y % 4 == 0 && (y % 100 != 0 || y % 400 == 0)
  }

  function DaysInMonth(y: int, m: int): (n: int)
    requires 1 <= m <= 12
    ensures 28 <= n <= 31
    ensures n == 29 <==> m == 2 && IsLeap(y)
  {
    if m == 2 then (if IsLeap(y) then 29 else 28)
    else if m == 4 || m == 6 || m == 9 || m == 11 then 30
    else 31
  }

  function YearDays(y: int): int {
    if IsLeap(y) then 366 else 365
  }

  /** A date that datetime.date accepts. */
  predicate ValidDate(d: Date) {
    MinYear <= d.year <= MaxYear && 1 <= d.month <= 12 && 1 <= d.day <= DaysInMonth(d.year, d.month)
  }

  const FirstDate := Date(MinYear, 1, 1)
  const LastDate := Date(MaxYear, 12, 31)

  /** Days in the years before y. */
  function DaysBeforeYear(y: int): int
    requires y >= 1
  {
    var k := y - 1;
    365 * k + k / 4 - k / 100 + k / 400
  }

  /** Days in the months of year y before month m. */
  function DaysBeforeMonth(y: int, m: int): int
    requires 1 <= m <= 12
  {
    [0, 31, 59, 90, 120, 151, 181, 212, 243, 273, 304, 334][m - 1]
      + (if m > 2 && IsLeap(y) then 1 else 0)
  }

  /** date.toordinal() - 1: the number of days since 0001-01-01. */
  function DayNumber(d: Date): int
    requires ValidDate(d)
  {
    DaysBeforeYear(d.year) + DaysBeforeMonth(d.year, d.month) + d.day - 1
  }

  /** date.weekday(): Monday is 0 and Sunday is 6. */
  function Weekday(d: Date): (w: int)
    requires ValidDate(d)
    ensures 0 <= w < 7
  {
    DayNumber(d) % 7
  }

  predicate IsWorkday(d: Date)
    requires ValidDate(d)
  {
    Weekday(d) < 5
  }

  lemma YearStep(y: int)
    requires y >= 1
    ensures DaysBeforeYear(y + 1) == DaysBeforeYear(y) + YearDays(y)
  {
    var k := y - 1;
    DivStep(k, 4);
    DivStep(k, 100);
    DivStep(k, 400);
    if y % 100 == 0 { Divides(y, 4, 25); }
    if y % 400 == 0 { Divides(y, 100, 4); }
  }

  /** How k / m changes when k grows by one. */
  lemma DivStep(k: nat, m: nat)
    requires m == 4 || m == 100 || m == 400
    ensures (k + 1) / m == k / m + (if (k + 1) % m == 0 then 1 else 0)
  {
    var q, r := k / m, k % m;
    assert k == q * m + r;
    if r + 1 < m {
      assert k + 1 == q * m + (r + 1);
      DivUnique(k + 1, m, q, r + 1);
    } else {
      assert k + 1 == (q + 1) * m;
      DivUnique(k + 1, m, q + 1, 0);
    }
  }

  lemma DivUnique(n: int, m: int, q: int, r: int)
    requires m == 4 || m == 7 || m == 100 || m == 400
    requires n == q * m + r && 0 <= r < m
    ensures n / m == q && n % m == r
  {
  }

  lemma Divides(y: int, a: int, b: int)
    requires (a == 4 && b == 25) || (a == 100 && b == 4)
    requires y % (a * b) == 0
    ensures y % a == 0
  {
    var q := y / (a * b);
    if a == 4 {
      assert y == 100 * q;
      DivUnique(y, 4, 25 * q, 0);
    } else {
      assert y == 400 * q;
      DivUnique(y, 100, 4 * q, 0);
    }
  }

  lemma MonthStep(y: int, m: int)
    requires 1 <= m < 12
    ensures DaysBeforeMonth(y, m + 1) == DaysBeforeMonth(y, m) + DaysInMonth(y, m)
  {
  }

  lemma MonthWithinYear(y: int, m: int)
    requires 1 <= m <= 12
    ensures DaysBeforeMonth(y, m) + DaysInMonth(y, m) <= YearDays(y)
    ensures m == 12 ==> DaysBeforeMonth(y, m) + DaysInMonth(y, m) == YearDays(y)
  {
  }

  lemma YearsIncrease(y1: int, y2: int)
    requires 1 <= y1 < y2
    ensures DaysBeforeYear(y1) + YearDays(y1) <= DaysBeforeYear(y2)
  {
    YearStep(y1);
    var k1, k2 := y1, y2 - 1;
    assert k1 <= k2;
  }

  lemma MonthsIncrease(y: int, m1: int, m2: int)
    requires 1 <= m1 < m2 <= 12
    ensures DaysBeforeMonth(y, m1) + DaysInMonth(y, m1) <= DaysBeforeMonth(y, m2)
  {
  }

  lemma DayNumberBounds(d: Date)
    requires ValidDate(d)
    ensures DaysBeforeYear(d.year) <= DayNumber(d) < DaysBeforeYear(d.year) + YearDays(d.year)
  {
    MonthWithinYear(d.year, d.month);
  }

  /** Python compares dates as (year, month, day) tuples. */
  predicate DateLe(a: Date, b: Date) {
    a.year < b.year
    || (a.year == b.year && (a.month < b.month || (a.month == b.month && a.day <= b.day)))
  }

  /** The tuple order on valid dates is the order of their day numbers. */
  lemma DayNumberOrder(a: Date, b: Date)
    requires ValidDate(a) && ValidDate(b)
    ensures DateLe(a, b) <==> DayNumber(a) <= DayNumber(b)
    ensures a == b <==> DayNumber(a) == DayNumber(b)
  {
    if a.year != b.year {
      var (p, q) := if a.year < b.year then (a, b) else (b, a);
      DayNumberBounds(p);
      DayNumberBounds(q);
      YearsIncrease(p.year, q.year);
    } else if a.month != b.month {
      var (p, q) := if a.month < b.month then (a, b) else (b, a);
      MonthsIncrease(a.year, p.month, q.month);
    }
  }

  lemma FirstDateNumber()
    ensures ValidDate(FirstDate) && DayNumber(FirstDate) == 0
  {
  }

  lemma DayNumberNonNegative(d: Date)
    requires ValidDate(d)
    ensures DayNumber(d) >= 0
  {
    DayNumberOrder(FirstDate, d);
  }

  /** date + timedelta(days=1); None where Python raises OverflowError. */
  function NextDay(d: Date): (r: Option<Date>)
    requires ValidDate(d)
    ensures r.Some? ==> ValidDate(r.value)
  {
    if d.day < DaysInMonth(d.year, d.month) then Some(Date(d.year, d.month, d.day + 1))
    else if d.month < 12 then Some(Date(d.year, d.month + 1, 1))
    else if d.year < MaxYear then Some(Date(d.year + 1, 1, 1))
    else None
  }

  /** date - timedelta(days=1); None where Python raises OverflowError. */
  function PrevDay(d: Date): (r: Option<Date>)
    requires ValidDate(d)
    ensures r.Some? ==> ValidDate(r.value)
  {
    if d.day > 1 then Some(Date(d.year, d.month, d.day - 1))
    else if d.month > 1 then Some(Date(d.year, d.month - 1, DaysInMonth(d.year, d.month - 1)))
    else if d.year > MinYear then Some(Date(d.year - 1, 12, 31))
    else None
  }

  lemma NextDayNumber(d: Date)
    requires ValidDate(d)
    ensures NextDay(d).None? <==> d == LastDate
    ensures NextDay(d).Some? ==> DayNumber(NextDay(d).value) == DayNumber(d) + 1
  {
    if d.day == DaysInMonth(d.year, d.month) {
      if d.month < 12 {
        MonthStep(d.year, d.month);
      } else if d.year < MaxYear {
        YearStep(d.year);
        MonthWithinYear(d.year, 12);
      }
    }
  }

  lemma PrevDayNumber(d: Date)
    requires ValidDate(d)
    ensures PrevDay(d).None? <==> d == FirstDate
    ensures PrevDay(d).Some? ==> DayNumber(PrevDay(d).value) == DayNumber(d) - 1
  {
    if d.day == 1 {
      if d.month > 1 {
        MonthStep(d.year, d.month - 1);
      } else if d.year > MinYear {
        YearStep(d.year - 1);
        MonthWithinYear(d.year - 1, 12);
      }
    }
  }

  /** date + timedelta(days=n) for n >= 0. */
  function AddDays(d: Date, n: nat): (r: Option<Date>)
    requires ValidDate(d)
    ensures r.Some? ==> ValidDate(r.value)
    decreases n
  {
    if n == 0 then Some(d)
    else match NextDay(d)
      case None => None
      case Some(e) => AddDays(e, n - 1)
  }

  /** date - timedelta(days=n) for n >= 0. */
  function SubDays(d: Date, n: nat): (r: Option<Date>)
    requires ValidDate(d)
    ensures r.Some? ==> ValidDate(r.value)
    decreases n
  {
    if n == 0 then Some(d)
    else match PrevDay(d)
      case None => None
      case Some(e) => SubDays(e, n - 1)
  }

  lemma {:induction false} AddDaysNumber(d: Date, n: nat)
    requires ValidDate(d)
    ensures ValidDate(LastDate)
    ensures AddDays(d, n).Some? <==> DayNumber(d) + n <= DayNumber(LastDate)
    ensures AddDays(d, n).Some? ==> DayNumber(AddDays(d, n).value) == DayNumber(d) + n
    decreases n
  {
    DayNumberOrder(d, LastDate);
    if n > 0 {
      NextDayNumber(d);
      if NextDay(d).Some? {
        AddDaysNumber(NextDay(d).value, n - 1);
      }
    }
  }

  lemma {:induction false} SubDaysNumber(d: Date, n: nat)
    requires ValidDate(d)
    ensures SubDays(d, n).Some? <==> n <= DayNumber(d)
    ensures SubDays(d, n).Some? ==> DayNumber(SubDays(d, n).value) == DayNumber(d) - n
    decreases n
  {
    DayNumberNonNegative(d);
    if n > 0 {
      PrevDayNumber(d);
      if PrevDay(d).Some? {
        SubDaysNumber(PrevDay(d).value, n - 1);
      } else {
        FirstDateNumber();
      }
    }
  }

  /** Stepping one day forward advances the weekday by one, modulo 7. */
  lemma NextDayWeekday(d: Date)
    requires ValidDate(d) && NextDay(d).Some?
    ensures Weekday(NextDay(d).value) == (Weekday(d) + 1) % 7
  {
    NextDayNumber(d);
    ModSucc(DayNumber(d));
  }

  lemma ModSucc(n: int)
    ensures (n + 1) % 7 == (n % 7 + 1) % 7
    ensures (n - 1) % 7 == (n % 7 + 6) % 7
  {
    var q, r := n / 7, n % 7;
    assert n == 7 * q + r;
    if r < 6 {
      DivUnique(n + 1, 7, q, r + 1);
    } else {
      DivUnique(n + 1, 7, q + 1, 0);
    }
    if r > 0 {
      DivUnique(n - 1, 7, q, r - 1);
    } else {
      DivUnique(n - 1, 7, q - 1, 6);
    }
  }

  lemma PrevDayWeekday(d: Date)
    requires ValidDate(d) && PrevDay(d).Some?
    ensures Weekday(PrevDay(d).value) == (Weekday(d) + 6) % 7
  {
    PrevDayNumber(d);
    ModSucc(DayNumber(d));
  }

  /** 0001-01-01 is a Monday, so every date has a Monday on or before it:
      subtracting weekday() days never overflows. */
  lemma MondayOnOrBefore(d: Date)
    requires ValidDate(d)
    ensures SubDays(d, Weekday(d)).Some?
    ensures Weekday(SubDays(d, Weekday(d)).value) == 0
  {
    var n := DayNumber(d);
    var w := Weekday(d);
    assert w == n % 7;
    DayNumberNonNegative(d);
    SubDaysNumber(d, w);
    RoundDownToWeek(n);
    var e := SubDays(d, w).value;
    assert DayNumber(e) == n - w;
  }

  lemma RoundDownToWeek(n: int)
    requires 0 <= n
    ensures n % 7 <= n
    ensures (n - n % 7) % 7 == 0
  {
    var q := n / 7;
    assert n == 7 * q + n % 7;
    DivUnique(n - n % 7, 7, q, 0);
  }
}
