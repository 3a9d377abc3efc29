/** The appointment calendar: proleptic Gregorian dates as day numbers counted
    from 1970-01-01, month navigation, and the six-week grid of a month with
    the number of scheduled appointments on each day. Months are numbered
    0 (January) to 11 (December), as the calendar's cursor numbers them. */
module Calendar {
  import opened Seqs
  import opened Records

  predicate IsLeap(y: int)
  {
    y % 4 == 0 && (y % 100 != 0 || y % 400 == 0)
  }

  function DaysInMonth(y: int, m: int): int
    requires 0 <= m < 12
  {
    if m == 1 then (if IsLeap(y) then 29 else 28)
    else if m == 3 || m == 5 || m == 8 || m == 10 then 30
    else 31
  }

  /** Years are counted from March, so that the leap day ends a year: January
      and February belong to the previous shifted year, March is shifted month 0. */
  function ShiftedYear(y: int, m: int): int { if m < 2 then y - 1 else y }

  function ShiftedMonth(m: int): int
    requires 0 <= m < 12
  {
    if m >= 2 then m - 2 else m + 10
  }

  /** Days from the start of a shifted year to the start of its shifted month `mp`. */
  function DaysBeforeMonth(mp: int): int { (153 * mp + 2) / 5 }

  /** Days from 0000-03-01 to the first of March of year `yy`, by 400-year eras. */
  function DaysBeforeYear(yy: int): int
  {
    var era := yy / 400;
    var yoe := yy % 400;
    era * 146097 + yoe * 365 + yoe / 4 - yoe / 100
  }

  /** The day number of year `y`, month `m`, day `d`; day 0 is 1970-01-01. */
  function DaysFromCivil(y: int, m: int, d: int): Day
    requires 0 <= m < 12
  {
    DaysBeforeYear(ShiftedYear(y, m)) + DaysBeforeMonth(ShiftedMonth(m)) + d - 1 - 719468
  }

  /** `getDay()`: 0 is Sunday. Day 0, 1970-01-01, was a Thursday. */
  function Weekday(n: Day): (w: int)
    ensures 0 <= w < 7
  {
    (n + 4) % 7
  }

  lemma Epoch()
    ensures DaysFromCivil(1970, 0, 1) == 0 && Weekday(0) == 4
  {
    assert 1969 / 400 == 4 && 1969 % 400 == 369;
    assert DaysBeforeYear(1969) == 719162;
    assert DaysBeforeMonth(10) == 306;
  }

  function FirstOfMonth(y: int, m: int): Day
    requires 0 <= m < 12
  {
    DaysFromCivil(y, m, 1)
  }

  /** Day `n` belongs to month `m` of year `y`. */
  predicate InMonth(y: int, m: int, n: Day)
    requires 0 <= m < 12
  {
    FirstOfMonth(y, m) <= n < FirstOfMonth(y, m) + DaysInMonth(y, m)
  }

  /** The "next month" button: one month later, wrapping December into January
      of the following year. */
  function NextMonth(y: int, m: int): (r: (int, int))
    requires 0 <= m < 12
    ensures 0 <= r.1 < 12 && r.0 * 12 + r.1 == y * 12 + m + 1
  {
    if m + 1 > 11 then (y + 1, 0) else (y, m + 1)
  }

  /** The "previous month" button: one month earlier, wrapping January into
      December of the preceding year. */
  function PrevMonth(y: int, m: int): (r: (int, int))
    requires 0 <= m < 12
    ensures 0 <= r.1 < 12 && r.0 * 12 + r.1 == y * 12 + m - 1
  {
    if m - 1 < 0 then (y - 1, 11) else (y, m - 1)
  }

  /** Going forward then back, or back then forward, returns to the same month. */
  lemma NavigationInverse(y: int, m: int)
    requires 0 <= m < 12
    ensures PrevMonth(NextMonth(y, m).0, NextMonth(y, m).1) == (y, m)
    ensures NextMonth(PrevMonth(y, m).0, PrevMonth(y, m).1) == (y, m)
  {
  }

  lemma Step400(yy: int)
    ensures yy % 400 < 399 ==> (yy + 1) / 400 == yy / 400 && (yy + 1) % 400 == yy % 400 + 1
    ensures yy % 400 == 399 ==> (yy + 1) / 400 == yy / 400 + 1 && (yy + 1) % 400 == 0
  {
  }

  /** Within an era, the leap years are read off the year of the era. */
  lemma LeapInEra(era: int, yoe: int)
    requires 0 <= yoe < 400
    ensures IsLeap(era * 400 + yoe) <==> yoe % 4 == 0 && (yoe % 100 != 0 || yoe == 0)
  {
    var y := era * 400 + yoe;
    var centuries := era * 4;
    var quads := era * 100;
    assert y == 4 * quads + yoe && y == 100 * centuries + yoe;
    assert y % 4 == yoe % 4;
    assert y % 100 == yoe % 100;
    assert y % 400 == yoe;
  }

  lemma QuarterStep(yoe: int)
    requires 0 <= yoe < 399
    ensures (yoe + 1) / 4 - yoe / 4 == if (yoe + 1) % 4 == 0 then 1 else 0
    ensures (yoe + 1) / 100 - yoe / 100 == if (yoe + 1) % 100 == 0 then 1 else 0
  {
  }

  /** A shifted year has 365 days, or 366 when the following February has a leap day. */
  lemma YearLength(yy: int)
    ensures DaysBeforeYear(yy + 1) - DaysBeforeYear(yy) == if IsLeap(yy + 1) then 366 else 365
  {
    var era, yoe := yy / 400, yy % 400;
    Step400(yy);
    if yoe < 399 {
      QuarterStep(yoe);
      LeapInEra(era, yoe + 1);
      assert yy + 1 == era * 400 + (yoe + 1);
    } else {
      LeapInEra(era + 1, 0);
      assert yy + 1 == (era + 1) * 400 + 0;
    }
  }

  /** The day after the last day of a month is the first day of the next month. */
  lemma MonthsAdjacent(y: int, m: int)
    requires 0 <= m < 12
    ensures FirstOfMonth(y, m) + DaysInMonth(y, m) == FirstOfMonth(NextMonth(y, m).0, NextMonth(y, m).1)
  {
    if m == 1 {
      YearLength(y - 1);
    }
  }

  /** A day of the grid is in the displayed month exactly when it is the `d`-th
      day of that month for some `d` between 1 and the month's length. */
  lemma InMonthMeaning(y: int, m: int, n: Day)
    requires 0 <= m < 12
    ensures InMonth(y, m, n) <==> exists d :: 1 <= d <= DaysInMonth(y, m) && DaysFromCivil(y, m, d) == n
  {
    if InMonth(y, m, n) {
      var d := n - FirstOfMonth(y, m) + 1;
      assert DaysFromCivil(y, m, d) == n;
    }
  }

  /** One calendar cell: its day, whether it lies in the displayed month, whether
      it is today, and how many scheduled appointments fall on it. */
  datatype Cell = Cell(day: Day, inMonth: bool, isToday: bool, scheduled: nat)

  /** The number of scheduled appointments on day `n`; completed and cancelled ones are not shown. */
  function ScheduledOn(appointments: seq<Appointment>, n: Day): (k: nat)
    ensures k <= |appointments|
    ensures k == 0 <==> forall a :: a in appointments ==> a.date != n || a.status != Scheduled
  {
    var onDay := Filter(appointments, (a: Appointment) => a.date == n && a.status == Scheduled);
    assert onDay != [] ==> onDay[0] in onDay;
    |onDay|
  }

  function CellFor(y: int, m: int, today: Day, appointments: seq<Appointment>, n: Day): Cell
    requires 0 <= m < 12
  {
    Cell(n, InMonth(y, m, n), n == today, ScheduledOn(appointments, n))
  }

  /** The Sunday on or before a day is a Sunday, at most six days earlier. */
  lemma SundayOnOrBefore(n: Day)
    ensures Weekday(n - Weekday(n)) == 0 && n - 6 <= n - Weekday(n) <= n
  {
  }

  /** The `d`-th day of a month is `d - 1` days after its first. */
  lemma DayOfMonth(y: int, m: int, d: int)
    requires 0 <= m < 12
    ensures DaysFromCivil(y, m, d) == FirstOfMonth(y, m) + d - 1
  {
  }

  /** The month view: 42 consecutive days starting on the Sunday on or before the
      first of the month, so every day of the month is shown. */
  method BuildGrid(year: int, month: int, today: Day, appointments: seq<Appointment>)
    returns (cells: seq<Cell>)
    requires 0 <= month < 12
    ensures |cells| == 42
    ensures Weekday(cells[0].day) == 0
    ensures FirstOfMonth(year, month) - 6 <= cells[0].day <= FirstOfMonth(year, month)
    ensures forall i :: 0 <= i < 42 ==> cells[i] == CellFor(year, month, today, appointments, cells[0].day + i)
    ensures forall d :: 1 <= d <= DaysInMonth(year, month) ==>
      exists i :: 0 <= i < 42 && cells[i].day == DaysFromCivil(year, month, d)
  {
    var first := FirstOfMonth(year, month);
    var length := DaysInMonth(year, month);
    var start := first - Weekday(first);
    SundayOnOrBefore(first);
    cells := [];
    var current := start;
    var i := 0;
    while i < 42
      invariant 0 <= i <= 42 && current == start + i && |cells| == i
      invariant forall k :: 0 <= k < i ==> cells[k] == CellFor(year, month, today, appointments, start + k)
    {
      var inMonth := first <= current < first + length;
      cells := cells + [Cell(current, inMonth, current == today, ScheduledOn(appointments, current))];
      current := current + 1;
      i := i + 1;
    }
    forall d | 1 <= d <= length
      ensures exists i :: 0 <= i < 42 && cells[i].day == DaysFromCivil(year, month, d)
    {
      DayOfMonth(year, month, d);
      var k := first + d - 1 - start;
      assert cells[k].day == DaysFromCivil(year, month, d);
    }
  }

  /** The greyed-out cells belong to the neighbouring months: a day of the grid
      outside the displayed month lies in the previous or in the next month. */
  lemma OtherMonthCells(y: int, m: int, n: Day)
    requires 0 <= m < 12
    requires var first := FirstOfMonth(y, m); first - Weekday(first) <= n < first - Weekday(first) + 42
    requires !InMonth(y, m, n)
    ensures InMonth(PrevMonth(y, m).0, PrevMonth(y, m).1, n) || InMonth(NextMonth(y, m).0, NextMonth(y, m).1, n)
  {
    var (py, pm) := PrevMonth(y, m);
    NavigationInverse(y, m);
    MonthsAdjacent(py, pm);
    MonthsAdjacent(y, m);
  }
}
