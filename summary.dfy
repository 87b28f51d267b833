/** The monthly hours accounting of summary.py: hours logged per day, paid
    and unpaid totals for the month so far, working days (Monday to Friday)
    in the month and so far, and the hours required for the week and the
    month at eight hours a working day. Hours are exact reals. */
module Summary {
  import opened Wrappers
  import opened Calendar
  import Text

  /** LoggedHours(hours, is_unpaid). */
  datatype LoggedHours = LoggedHours(hours: real, isUnpaid: bool)

  type HoursByDay = map<Date, seq<LoggedHours>>

  const HoursPerDay := 8

  // ---------------------------------------------------------------------
  // Sums of logged hours

  /** The hours of one kind in a list: paid ones when `unpaid` is false,
      unpaid ones when it is true. */
  function SumKind(logs: seq<LoggedHours>, unpaid: bool): real {
    if logs == [] then 0.0
    else SumKind(logs[..|logs| - 1], unpaid) + KindHours(logs[|logs| - 1], unpaid)
  }

  function KindHours(x: LoggedHours, unpaid: bool): real {
    if x.isUnpaid == unpaid then x.hours else 0.0
  }

  /** All the hours in a list. */
  function SumAll(logs: seq<LoggedHours>): real {
    if logs == [] then 0.0 else SumAll(logs[..|logs| - 1]) + logs[|logs| - 1].hours
  }

  /** Every logged amount is either paid or unpaid. */
  lemma {:induction false} SumKindSplit(logs: seq<LoggedHours>)
    ensures SumKind(logs, false) + SumKind(logs, true) == SumAll(logs)
  {
    if logs != [] {
      SumKindSplit(logs[..|logs| - 1]);
    }
  }

  lemma SumKindAppend(logs: seq<LoggedHours>, x: LoggedHours, unpaid: bool)
    ensures SumKind(logs + [x], unpaid) == SumKind(logs, unpaid) + KindHours(x, unpaid)
  {
    assert (logs + [x])[..|logs|] == logs;
  }

  /** hours_by_day.get(day, []). */
  function LogsOn(byDay: HoursByDay, d: Date): seq<LoggedHours> {
    if d in byDay then byDay[d] else []
  }

  function HoursOn(byDay: HoursByDay, d: Date, unpaid: bool): real {
    SumKind(LogsOn(byDay, d), unpaid)
  }

  /** The hours of one kind logged on days 1 to `last` of a month. */
  function MonthHours(byDay: HoursByDay, y: int, m: int, last: nat, unpaid: bool): real {
    if last == 0 then 0.0
    else MonthHours(byDay, y, m, last - 1, unpaid) + HoursOn(byDay, Date(y, m, last), unpaid)
  }

  /** All hours logged on days 1 to `last` of a month. */
  function MonthAll(byDay: HoursByDay, y: int, m: int, last: nat): real {
    if last == 0 then 0.0
    else MonthAll(byDay, y, m, last - 1) + SumAll(LogsOn(byDay, Date(y, m, last)))
  }

  /** The paid and the unpaid totals of the month add up to everything
      logged in it. */
  lemma {:induction false} MonthHoursSplit(byDay: HoursByDay, y: int, m: int, last: nat)
    ensures MonthHours(byDay, y, m, last, false) + MonthHours(byDay, y, m, last, true) == MonthAll(byDay, y, m, last)
  {
    if last > 0 {
      MonthHoursSplit(byDay, y, m, last - 1);
      SumKindSplit(LogsOn(byDay, Date(y, m, last)));
    }
  }

  /** The table after add_day_hours. */
  function Added(byDay: HoursByDay, day: Date, x: LoggedHours): HoursByDay {
    byDay[day := LogsOn(byDay, day) + [x]]
  }

  /** Logging hours on a day of the month adds them to that month's total
      of their kind, from that day on, and to nothing else. */
  lemma {:induction false} MonthHoursAdded(byDay: HoursByDay, day: Date, x: LoggedHours, y: int, m: int, last: nat, unpaid: bool)
    ensures MonthHours(Added(byDay, day, x), y, m, last, unpaid)
         == MonthHours(byDay, y, m, last, unpaid)
            + (if day.year == y && day.month == m && 1 <= day.day <= last then KindHours(x, unpaid) else 0.0)
  {
    if last > 0 {
      MonthHoursAdded(byDay, day, x, y, m, last - 1, unpaid);
      if day == Date(y, m, last) {
        SumKindAppend(LogsOn(byDay, day), x, unpaid);
      }
    }
  }

  // ---------------------------------------------------------------------
  // Working days

  predicate ValidMonth(y: int, m: int) {
    MinYear <= y <= MaxYear && 1 <= m <= 12
  }

  /** The Monday-to-Friday dates among days 1 to `last` of a month. */
  function Workdays(y: int, m: int, last: nat): (r: nat)
    requires ValidMonth(y, m) && last <= DaysInMonth(y, m)
    ensures r <= last
  {
    if last == 0 then 0
    else Workdays(y, m, last - 1) + (if IsWorkday(Date(y, m, last)) then 1 else 0)
  }

  /** More days never have fewer working days, nor more working days than
      days added. */
  lemma {:induction false} WorkdaysMonotone(y: int, m: int, a: nat, b: nat)
    requires ValidMonth(y, m) && a <= b <= DaysInMonth(y, m)
    ensures Workdays(y, m, a) <= Workdays(y, m, b) <= Workdays(y, m, a) + (b - a)
    decreases b - a
  {
    if a < b {
      WorkdaysMonotone(y, m, a, b - 1);
    }
  }

  /** Day k of a month is a working day when the day number of the 1st,
      plus k - 1, is not a Saturday or Sunday number. */
  lemma DayOfMonth(y: int, m: int, k: int)
    requires ValidMonth(y, m) && 1 <= k <= DaysInMonth(y, m)
    ensures DayNumber(Date(y, m, k)) == DayNumber(Date(y, m, 1)) + k - 1
    ensures IsWorkday(Date(y, m, k)) <==> (DayNumber(Date(y, m, 1)) + k - 1) % 7 < 5
  {
  }

  /** How many of the day numbers b to b + n - 1 are Monday to Friday. */
  function WeekdayCount(b: int, n: nat): nat
  {
    if n == 0 then 0 else WeekdayCount(b, n - 1) + (if (b + n - 1) % 7 < 5 then 1 else 0)
  }

  /** The working days of a month so far are the Monday-to-Friday numbers
      counted from the 1st's day number. */
  lemma {:induction false} WorkdaysCount(y: int, m: int, last: nat)
    requires ValidMonth(y, m) && last <= DaysInMonth(y, m)
    ensures Workdays(y, m, last) == WeekdayCount(DayNumber(Date(y, m, 1)), last)
  {
    if last > 0 {
      WorkdaysCount(y, m, last - 1);
      DayOfMonth(y, m, last);
    }
  }

  /** Any seven day numbers in a row hold five Monday-to-Friday numbers. */
  lemma SevenDays(b: int, d: nat)
    ensures WeekdayCount(b, d + 7) == WeekdayCount(b, d) + 5
  {
    FiveOfSeven(b + d);
    assert WeekdayCount(b, d + 7) == WeekdayCount(b, d + 6) + (if (b + d + 6) % 7 < 5 then 1 else 0);
    assert WeekdayCount(b, d + 6) == WeekdayCount(b, d + 5) + (if (b + d + 5) % 7 < 5 then 1 else 0);
    assert WeekdayCount(b, d + 5) == WeekdayCount(b, d + 4) + (if (b + d + 4) % 7 < 5 then 1 else 0);
    assert WeekdayCount(b, d + 4) == WeekdayCount(b, d + 3) + (if (b + d + 3) % 7 < 5 then 1 else 0);
    assert WeekdayCount(b, d + 3) == WeekdayCount(b, d + 2) + (if (b + d + 2) % 7 < 5 then 1 else 0);
    assert WeekdayCount(b, d + 2) == WeekdayCount(b, d + 1) + (if (b + d + 1) % 7 < 5 then 1 else 0);
  }

  lemma FiveOfSeven(b: int)
    ensures (if b % 7 < 5 then 1 else 0) + (if (b + 1) % 7 < 5 then 1 else 0) + (if (b + 2) % 7 < 5 then 1 else 0)
          + (if (b + 3) % 7 < 5 then 1 else 0) + (if (b + 4) % 7 < 5 then 1 else 0)
          + (if (b + 5) % 7 < 5 then 1 else 0) + (if (b + 6) % 7 < 5 then 1 else 0) == 5
  {
    ModShift(b, 1);
    ModShift(b, 2);
    ModShift(b, 3);
    ModShift(b, 4);
    ModShift(b, 5);
    ModShift(b, 6);
  }

  lemma ModShift(b: int, k: int)
    requires 0 <= k < 7
    ensures (b + k) % 7 == if b % 7 + k < 7 then b % 7 + k else b % 7 + k - 7
  {
    assert b + k == 7 * (b / 7) + (b % 7 + k);
  }

  /** working_days_in_month: the working days of the reference month. */
  function WorkingDaysInMonth(reference: Date): nat
    requires ValidDate(reference)
  {
    Workdays(reference.year, reference.month, DaysInMonth(reference.year, reference.month))
  }

  /** More day numbers never hold fewer Monday-to-Friday numbers, nor more
      than the numbers added. */
  lemma {:induction false} WeekdayCountMonotone(b: int, n: nat, n': nat)
    requires n <= n'
    ensures WeekdayCount(b, n) <= WeekdayCount(b, n') <= WeekdayCount(b, n) + (n' - n)
    decreases n' - n
  {
    if n < n' {
      WeekdayCountMonotone(b, n, n' - 1);
    }
  }

  /** 28 to 31 day numbers in a row hold 20 to 23 Monday-to-Friday ones. */
  lemma MonthLongCount(b: int, n: nat)
    requires 28 <= n <= 31
    ensures 20 <= WeekdayCount(b, n) <= 23
  {
    SevenDays(b, 0);
    SevenDays(b, 7);
    SevenDays(b, 14);
    SevenDays(b, 21);
    WeekdayCountMonotone(b, 28, n);
  }

  /** A month has 20 to 23 working days. */
  lemma MonthWorkdays(y: int, m: int)
    requires ValidMonth(y, m)
    ensures 20 <= Workdays(y, m, DaysInMonth(y, m)) <= 23
  {
    WorkdaysCount(y, m, DaysInMonth(y, m));
    MonthLongCount(DayNumber(Date(y, m, 1)), DaysInMonth(y, m));
  }

  /** total_month_hours: eight hours for each working day of the month, so
      160 to 184. */
  function TotalMonthHours(reference: Date): (r: int)
    requires ValidDate(reference)
    ensures 160 <= r <= 184
  {
    MonthWorkdays(reference.year, reference.month);
    WorkingDaysInMonth(reference) * HoursPerDay
  }

  /** The working days so far never exceed those of the whole month, so the
      hours required so far never exceed the month's. */
  lemma SoFarWithinMonth(reference: Date)
    requires ValidDate(reference)
    ensures Workdays(reference.year, reference.month, reference.day) <= WorkingDaysInMonth(reference)
    ensures HoursPerDay * Workdays(reference.year, reference.month, reference.day) <= TotalMonthHours(reference)
  {
    WorkdaysMonotone(reference.year, reference.month, reference.day, DaysInMonth(reference.year, reference.month));
  }

  // ---------------------------------------------------------------------
  // The week

  /** get_start_of_week: the Monday on or before the reference date, or,
      within the current month, the later of that Monday and the 1st. The
      days the week loop adds to it are real dates: a Monday is at least
      four days before 9999-12-31, a Friday, and the 1st at least six. */
  function StartOfWeek(reference: Date, withinCurrentMonth: bool): (r: Date)
    requires ValidDate(reference)
    ensures ValidDate(r)
    ensures DayNumber(r) + 5 <= DayNumber(LastDate) + 1 && DayNumber(r) + Weekday(r) <= DayNumber(LastDate) + 1
  {
    MondayOnOrBefore(reference);
    var lastMonday := SubDays(reference, Weekday(reference)).value;
    var startOfMonth := Date(reference.year, reference.month, 1);
    WeekStartFits(lastMonday);
    WeekStartFits(startOfMonth);
    if withinCurrentMonth && !DateLe(startOfMonth, lastMonday) then startOfMonth else lastMonday
  }

  /** A Monday is at least four days before 9999-12-31, a Friday, and the
      1st of a month at least six. */
  lemma WeekStartFits(d: Date)
    requires ValidDate(d) && (Weekday(d) == 0 || d.day == 1)
    ensures DayNumber(d) + 5 <= DayNumber(LastDate) + 1 && DayNumber(d) + Weekday(d) <= DayNumber(LastDate) + 1
  {
    LastDateNumber();
    DayNumberOrder(d, LastDate);
    if d.day == 1 {
      DayOfMonth(d.year, d.month, 7);
      DayNumberOrder(Date(d.year, d.month, 7), LastDate);
    } else {
      MondayFits(DayNumber(d));
    }
  }

  lemma MondayFits(n: int)
    requires n % 7 == 0 && n <= 3652058
    ensures n + 4 <= 3652058
  {
  }

  /** Without the month limit the week starts on the Monday on or before
      the reference date. */
  lemma StartOfWeekMonday(reference: Date)
    requires ValidDate(reference)
    ensures var r := StartOfWeek(reference, false);
      Weekday(r) == 0 && DayNumber(r) <= DayNumber(reference) < DayNumber(r) + 7
  {
    MondayOnOrBefore(reference);
    SubDaysNumber(reference, Weekday(reference));
  }

  /** Within the month the week starts in the reference month, on or before
      the reference date, on that Monday when it is in the month and on
      the 1st otherwise. */
  lemma StartOfWeekInMonth(reference: Date)
    requires ValidDate(reference)
    ensures var r := StartOfWeek(reference, true);
      var monday := StartOfWeek(reference, false);
      && r.year == reference.year && r.month == reference.month && 1 <= r.day <= reference.day
      && (if monday.year == reference.year && monday.month == reference.month then r == monday else r.day == 1)
  {
    var monday := StartOfWeek(reference, false);
    var first := Date(reference.year, reference.month, 1);
    StartOfWeekMonday(reference);
    DayNumberOrder(first, monday);
    DayNumberOrder(monday, reference);
    DayOfMonth(reference.year, reference.month, reference.day);
  }

  lemma LastDateNumber()
    ensures ValidDate(LastDate) && DayNumber(LastDate) == 3652058 && Weekday(LastDate) == 4
  {
  }

  /** Paid hours on the days start + lo to start + (hi - 1). */
  function PaidOver(byDay: HoursByDay, start: Date, lo: int, hi: int): real
    requires ValidDate(start) && 0 <= lo
    requires DayNumber(start) + lo <= DayNumber(LastDate) + 1 && DayNumber(start) + hi <= DayNumber(LastDate) + 1
    decreases hi - lo
  {
    if hi <= lo then 0.0
    else
      AddDaysNumber(start, hi - 1);
      PaidOver(byDay, start, lo, hi - 1) + HoursOn(byDay, AddDays(start, hi - 1).value, false)
  }

  /** The corrected loop visits the week start and each day after it up to
      the Friday, all working days. */
  lemma WeekDaysVisited(start: Date, i: int)
    requires ValidDate(start) && 0 <= i < 5 - Weekday(start) && DayNumber(start) + 5 <= DayNumber(LastDate) + 1
    ensures AddDays(start, i).Some? && Weekday(AddDays(start, i).value) == Weekday(start) + i
    ensures IsWorkday(AddDays(start, i).value)
  {
    AddDaysNumber(start, i);
    WeekdayAfter(start, AddDays(start, i).value, i);
  }

  /** A date i days after d, with d's weekday plus i still before Saturday,
      falls on that weekday. */
  lemma WeekdayAfter(d: Date, x: Date, i: int)
    requires ValidDate(d) && ValidDate(x) && DayNumber(x) == DayNumber(d) + i && 0 <= Weekday(d) + i < 5
    ensures Weekday(x) == Weekday(d) + i
  {
    var n := DayNumber(d);
    ModAdd(n, i);
    assert Weekday(x) == (n + i) % 7;
  }

  lemma ModAdd(n: int, i: int)
    requires 0 <= n % 7 + i < 7
    ensures (n + i) % 7 == n % 7 + i
  {
    assert n + i == 7 * (n / 7) + (n % 7 + i);
  }

  /** From a Monday both loops sum Monday to Friday. */
  lemma WeekFromMonday(byDay: HoursByDay, reference: Date)
    requires ValidDate(reference)
    ensures var s := StartOfWeek(reference, false);
      PaidOver(byDay, s, Weekday(s), 5) == PaidOver(byDay, s, 0, 5 - Weekday(s))
      && PaidOver(byDay, s, 0, 5) == PaidOver(byDay, s, 0, 5 - Weekday(s))
  {
    StartOfWeekMonday(reference);
    MondaySums(byDay, StartOfWeek(reference, false));
  }

  lemma MondaySums(byDay: HoursByDay, s: Date)
    requires ValidDate(s) && Weekday(s) == 0 && DayNumber(s) + 5 <= DayNumber(LastDate) + 1
    ensures PaidOver(byDay, s, Weekday(s), 5) == PaidOver(byDay, s, 0, 5 - Weekday(s))
    ensures PaidOver(byDay, s, 0, 5) == PaidOver(byDay, s, 0, 5 - Weekday(s))
  {
  }

  /** On Friday 2025-01-03 the week within the month starts on Wednesday
      the 1st; the loop as written sums the 3rd to the 5th and misses the
      8 hours of the 1st, which the corrected loop counts. */
  lemma WeekSumSkipsMonthStart()
    ensures var reference := Date(2025, 1, 3);
      var byDay := map[Date(2025, 1, 1) := [LoggedHours(8.0, false)]];
      var s := StartOfWeek(reference, true);
      s == Date(2025, 1, 1) && Weekday(s) == 2
      && PaidOver(byDay, s, Weekday(s), 5) == 0.0
      && PaidOver(byDay, s, 0, 5 - Weekday(s)) == 8.0
  {
    NewYearWeekStart();
    NewYearWeekSums();
  }

  lemma NewYearWeekStart()
    ensures StartOfWeek(Date(2025, 1, 3), true) == Date(2025, 1, 1)
    ensures DayNumber(Date(2025, 1, 1)) == 739251 && Weekday(Date(2025, 1, 1)) == 2
  {
    var reference := Date(2025, 1, 3);
    assert DayNumber(reference) == 739253;
    assert Weekday(reference) == 4;
    assert SubDays(reference, 4) == Some(Date(2024, 12, 30));
    assert !DateLe(Date(2025, 1, 1), Date(2024, 12, 30));
  }

  lemma NewYearWeekSums()
    ensures var byDay := map[Date(2025, 1, 1) := [LoggedHours(8.0, false)]];
      var s := Date(2025, 1, 1);
      DayNumber(s) == 739251
      && PaidOver(byDay, s, 2, 5) == 0.0 && PaidOver(byDay, s, 0, 3) == 8.0
  {
    var byDay := map[Date(2025, 1, 1) := [LoggedHours(8.0, false)]];
    var s := Date(2025, 1, 1);
    assert DayNumber(s) == 739251;
    assert AddDays(s, 1) == Some(Date(2025, 1, 2));
    assert AddDays(s, 2) == Some(Date(2025, 1, 3));
    assert AddDays(s, 3) == Some(Date(2025, 1, 4));
    assert AddDays(s, 4) == Some(Date(2025, 1, 5));
    assert PaidOver(byDay, s, 2, 5) == 0.0;
  }

  /** get_required_hours_for_week: eight hours for each day of the week up
      to the reference date, at most five, and within the month no more
      than the days of the month so far. */
  function RequiredHoursForWeek(reference: Date, withinCurrentMonth: bool): (r: int)
    requires ValidDate(reference)
    ensures 8 <= r <= 40 && r % 8 == 0
    ensures r <= HoursPerDay * (Weekday(reference) + 1)
    ensures withinCurrentMonth ==> r <= HoursPerDay * reference.day
    ensures r == 40 || r == HoursPerDay * (Weekday(reference) + 1) || (withinCurrentMonth && r == HoursPerDay * reference.day)
  {
    var days := if withinCurrentMonth then Min(Min(Weekday(reference) + 1, reference.day), 5)
                else Min(Weekday(reference) + 1, 5);
    days * HoursPerDay
  }

  function Min(a: int, b: int): int {
    if a <= b then a else b
  }

  // ---------------------------------------------------------------------
  // get_left_justified_string

  const JustifyWidth := 50

  /** left.ljust(width, pad) + "".join(rest). */
  function LeftJustified(left: string, rest: seq<string>, width: nat, pad: char): string {
    var fill := if |left| < width then width - |left| else 0;
    left + seq(fill, _ => pad) + Text.Concat(rest)
  }

  /** The left string comes first, then padding up to the width (none when
      it is already that long), then the rest. */
  lemma LeftJustifiedShape(left: string, rest: seq<string>, width: nat, pad: char)
    ensures var r := LeftJustified(left, rest, width, pad);
      var w := if |left| < width then width else |left|;
      && |r| == w + |Text.Concat(rest)|
      && r[..|left|] == left
      && (forall i :: |left| <= i < w ==> r[i] == pad)
      && r[w..] == Text.Concat(rest)
  {
  }

  // ---------------------------------------------------------------------
  // The summary object

  class LogsSummary {
    var hoursByDay: HoursByDay
    const referenceDate: Date

    predicate Valid() {
      ValidDate(referenceDate)
    }

    /** LogsSummary(reference_date), with today's date as a parameter for
        when none is given. */
    constructor (referenceDate: Option<Date>, today: Date)
      requires ValidDate(today) && (referenceDate.Some? ==> ValidDate(referenceDate.value))
      ensures Valid()
      ensures this.referenceDate == referenceDate.GetOr(today) && hoursByDay == map[]
    {
      this.referenceDate := referenceDate.GetOr(today);
      hoursByDay := map[];
    }

    /** add_day_hours: one more entry at the end of that day's list. */
    method AddDayHours(day: Date, hours: real, unpaid: bool)
      modifies this
      ensures hoursByDay == Added(old(hoursByDay), day, LoggedHours(hours, unpaid))
      ensures day in hoursByDay && |hoursByDay[day]| == |LogsOn(old(hoursByDay), day)| + 1
      ensures forall d :: d != day ==> LogsOn(hoursByDay, d) == LogsOn(old(hoursByDay), d)
    {
      if day !in hoursByDay {
        hoursByDay := hoursByDay[day := []];
      }
      hoursByDay := hoursByDay[day := hoursByDay[day] + [LoggedHours(hours, unpaid)]];
    }

    /** The loop of get_total_week_paid_hours over the day offsets lo to
        hi - 1 from start. */
    method PaidHoursOver(start: Date, lo: int, hi: int) returns (total: real)
      requires ValidDate(start) && 0 <= lo
      requires DayNumber(start) + lo <= DayNumber(LastDate) + 1 && DayNumber(start) + hi <= DayNumber(LastDate) + 1
      ensures total == PaidOver(hoursByDay, start, lo, hi)
    {
      total := 0.0;
      var day := lo;
      while day < hi
        invariant lo <= day <= (if lo <= hi then hi else lo)
        invariant total == PaidOver(hoursByDay, start, lo, day)
      {
        AddDaysNumber(start, day);
        var date := AddDays(start, day).value;
        total := total + HoursOn(hoursByDay, date, false);
        day := day + 1;
      }
    }

    /** get_total_week_paid_hours as written: the offsets run from the
        start's weekday to 4, counted from the start itself. */
    method TotalWeekPaidHoursAsWritten(withinCurrentMonth: bool) returns (total: real)
      requires Valid()
      ensures var s := StartOfWeek(referenceDate, withinCurrentMonth);
        total == PaidOver(hoursByDay, s, Weekday(s), 5)
    {
      var start := StartOfWeek(referenceDate, withinCurrentMonth);
      var w := Weekday(start);
      assert DayNumber(start) + w <= DayNumber(LastDate) + 1;
      total := PaidHoursOver(start, w, 5);
    }

    /** get_total_week_paid_hours as intended: the paid hours of the week
        start and the days after it up to the Friday. */
    method TotalWeekPaidHours(withinCurrentMonth: bool) returns (total: real)
      requires Valid()
      ensures var s := StartOfWeek(referenceDate, withinCurrentMonth);
        total == PaidOver(hoursByDay, s, 0, 5 - Weekday(s))
    {
      var start := StartOfWeek(referenceDate, withinCurrentMonth);
      var w := Weekday(start);
      assert DayNumber(start) + (5 - w) <= DayNumber(LastDate) + 1;
      total := PaidHoursOver(start, 0, 5 - w);
    }

    /** The loop of total_month_paid_hours_so_far (unpaid false) and of
        total_month_unpaid_hours_so_far (unpaid true). */
    method MonthHoursSoFar(unpaid: bool) returns (total: real)
      requires Valid()
      ensures total == MonthHours(hoursByDay, referenceDate.year, referenceDate.month, referenceDate.day, unpaid)
    {
      total := 0.0;
      var day := 1;
      while day <= referenceDate.day
        invariant 1 <= day <= referenceDate.day + 1
        invariant total == MonthHours(hoursByDay, referenceDate.year, referenceDate.month, day - 1, unpaid)
      {
        var date := Date(referenceDate.year, referenceDate.month, day);
        total := total + HoursOn(hoursByDay, date, unpaid);
        day := day + 1;
      }
    }

    /** total_month_paid_hours_so_far. */
    method TotalMonthPaidHoursSoFar() returns (total: real)
      requires Valid()
      ensures total == MonthHours(hoursByDay, referenceDate.year, referenceDate.month, referenceDate.day, false)
    {
      total := MonthHoursSoFar(false);
    }

    /** total_month_unpaid_hours_so_far. */
    method TotalMonthUnpaidHoursSoFar() returns (total: real)
      requires Valid()
      ensures total == MonthHours(hoursByDay, referenceDate.year, referenceDate.month, referenceDate.day, true)
    {
      total := MonthHoursSoFar(true);
    }

    /** working_days_in_month_so_far. */
    method WorkingDaysInMonthSoFar() returns (workingDays: nat)
      requires Valid()
      ensures workingDays == Workdays(referenceDate.year, referenceDate.month, referenceDate.day)
    {
      workingDays := 0;
      var day := 1;
      while day <= referenceDate.day
        invariant 1 <= day <= referenceDate.day + 1
        invariant workingDays == Workdays(referenceDate.year, referenceDate.month, day - 1)
      {
        var date := Date(referenceDate.year, referenceDate.month, day);
        if Weekday(date) < 5 {
          workingDays := workingDays + 1;
        }
        day := day + 1;
      }
    }

    /** required_hours_for_month: eight hours for each working day so far;
        never more than the month's total. */
    method RequiredHoursForMonth() returns (hours: int)
      requires Valid()
      ensures hours == HoursPerDay * Workdays(referenceDate.year, referenceDate.month, referenceDate.day)
      ensures 0 <= hours <= TotalMonthHours(referenceDate)
    {
      var days := WorkingDaysInMonthSoFar();
      SoFarWithinMonth(referenceDate);
      hours := days * HoursPerDay;
    }

    /** month_work_required_difference: what was logged this month so far,
        paid or unpaid, less what was required. */
    method MonthWorkRequiredDifference() returns (difference: real)
      requires Valid()
      ensures difference == MonthAll(hoursByDay, referenceDate.year, referenceDate.month, referenceDate.day)
                            - (HoursPerDay * Workdays(referenceDate.year, referenceDate.month, referenceDate.day)) as real
    {
      var paid := TotalMonthPaidHoursSoFar();
      var unpaid := TotalMonthUnpaidHoursSoFar();
      var required := RequiredHoursForMonth();
      MonthHoursSplit(hoursByDay, referenceDate.year, referenceDate.month, referenceDate.day);
      difference := paid + unpaid - required as real;
    }
  }
}
