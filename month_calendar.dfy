/**
 * The employee month view shared by the employee dashboard and the employee
 * shift page: a Monday-first grid of 7-day weeks with the neighbouring months'
 * days as padding, each day of the month carrying its shift and request, and a
 * monthly summary of work and off days.
 */
module MonthCalendar {
  import opened Wrappers
  import opened Civil
  import opened Text
  import opened Dict
  import Seqs

  datatype Status = Confirmed | Tentative | Off

  /** One day of the employee's schedule; times are "HH:MM" or empty on a day off. */
  datatype DayShift = DayShift(startTime: string, endTime: string, status: Status, note: string)

  /** A shift wish for one day, as submitted from the request form. */
  datatype DayRequest = DayRequest(kind: string, startTime: string, endTime: string, note: string)

  datatype Cell = Cell(
    date: int,
    isOtherMonth: bool,
    isToday: bool,
    isWeekend: bool,
    isSaturday: bool,
    shift: Option<DayShift>,
    request: Option<DayRequest>,
    dateKey: Option<string>)

  /** The month on screen (`month` is the 0-based `getMonth()`), today's date and the lookups `shifts[dateKey]` and `shiftRequests[dateKey]`. */
  datatype MonthView = MonthView(
    year: int,
    month: int,
    today: Date,
    shiftAt: string -> Option<DayShift>,
    requestAt: string -> Option<DayRequest>)

  predicate ValidView(v: MonthView)
  {
    0 <= v.month <= 11
  }

  /**
   * What the grid is laid out from: the Monday-first column of the 1st
   * (`getDay()` with Sunday moved from 0 to 7), the month's last date
   * (`new Date(year, month + 1, 0).getDate()`), the number the leading
   * padding counts up to (`new Date(year, month - 1, 0).getDate()`) and the
   * `YYYY-MM` prefix of the month's date keys.
   */
  datatype Layout = Layout(firstColumn: int, lastDate: int, leadingEnd: int, monthKey: string)

  predicate GoodLayout(g: Layout)
  {
    1 <= g.firstColumn <= 7 && 28 <= g.lastDate <= 31
  }

  /** The dates `generateCalendar` starts from: the 1st of the month, its last day and the day before the 1st of month - 1. */
  function LayoutOf(year: int, month: int): (g: Layout)
    requires 0 <= month <= 11
    ensures GoodLayout(g)
    ensures g.firstColumn % 7 == Weekday(Date(year, month + 1, 1))
    ensures g.lastDate == DaysInMonth(year, month + 1)
    ensures g.monthKey == MonthKey(year, month + 1)
    ensures g.leadingEnd == DayZero(year, month - 1).day
  {
    var first := FirstOfMonth(year, month);
    var last := DayZero(year, month + 1);
    MonthEnds(year, month);
    var w := Weekday(first);
    MondayFirst(w);
    Layout(if w == 0 then 7 else w, last.day, DayZero(year, month - 1).day, MonthKey(year, month + 1))
  }

  /** `new Date(year, month, 1)` and `new Date(year, month + 1, 0)` are the first and last day of the month. */
  lemma MonthEnds(year: int, month: int)
    requires 0 <= month <= 11
    ensures FirstOfMonth(year, month) == Date(year, month + 1, 1)
    ensures DayZero(year, month + 1) == Date(year, month + 1, DaysInMonth(year, month + 1))
  {
    MonthBounds(year, month + 1);
  }

  /** Moving Sunday from 0 to 7 keeps the weekday modulo 7. */
  lemma MondayFirst(w: int)
    requires 0 <= w < 7
    ensures 1 <= (if w == 0 then 7 else w) <= 7
    ensures (if w == 0 then 7 else w) % 7 == w
  {
  }

  /** Number of weeks drawn: the loop stops after the week in which the last day was placed. */
  function Weeks(g: Layout): (w: int)
    requires GoodLayout(g)
    ensures 4 <= w <= 6
    ensures 7 * (w - 1) < g.firstColumn - 1 + g.lastDate <= 7 * w
  {
    (g.firstColumn - 1 + g.lastDate + 6) / 7
  }

  /** The cell at position `n` of the grid, counting row by row from the top left. */
  function CellAt(v: MonthView, g: Layout, n: nat): (c: Cell)
    requires v.month >= 0
    ensures !c.isOtherMonth <==> g.firstColumn - 1 <= n && n - g.firstColumn + 2 <= g.lastDate
    ensures !c.isOtherMonth ==> 1 <= c.date <= g.lastDate && c.dateKey == Some(g.monthKey + "-" + Pad2(c.date))
    ensures c.isOtherMonth ==> !c.isToday && c.dateKey.None? && c.shift.None? && c.request.None?
    ensures c.isWeekend <==> n % 7 == 6
  {
    var column := n % 7 + 1;
    if n < g.firstColumn - 1 then
      Cell(g.leadingEnd - (g.firstColumn - 2 - n), true, false, column == 7, column == 6, None, None, None)
    else if n - g.firstColumn + 2 <= g.lastDate then
      var d := n - g.firstColumn + 2;
      var key := g.monthKey + "-" + Pad2(d);
      Cell(d, false, v.today == Date(v.year, v.month + 1, d), column == 7, column == 6,
           v.shiftAt(key), v.requestAt(key), Some(key))
    else
      Cell(1, true, false, column == 7, column == 6, None, None, None)
  }

  /** The value of the page's `date` counter when the loop reaches position `n`. */
  function DateBefore(g: Layout, n: nat): int
  {
    if n < g.firstColumn - 1 then 1
    else if n - g.firstColumn + 2 <= g.lastDate then n - g.firstColumn + 2
    else g.lastDate + 1
  }

  /** Row `w` of the grid: positions 7w to 7w + 6. */
  function Row(v: MonthView, g: Layout, w: nat): seq<Cell>
    requires v.month >= 0
  {
    seq(7, c requires 0 <= c < 7 => CellAt(v, g, 7 * w + c))
  }

  /** The grid is `Weeks` rows of seven cells, cell (w, c) being `CellAt` position 7w + c. */
  ghost predicate IsGrid(calendar: seq<seq<Cell>>, v: MonthView, g: Layout)
    requires v.month >= 0 && GoodLayout(g)
  {
    |calendar| == Weeks(g) &&
    (forall w :: 0 <= w < |calendar| ==> |calendar[w]| == 7) &&
    (forall w, c :: 0 <= w < |calendar| && 0 <= c < 7 ==> calendar[w][c] == CellAt(v, g, 7 * w + c))
  }

  /** `generateCalendar`: the grid row by row. */
  method GenerateCalendar(v: MonthView) returns (calendar: seq<seq<Cell>>)
    requires ValidView(v)
    ensures IsGrid(calendar, v, LayoutOf(v.year, v.month))
  {
    calendar := FillGrid(v, LayoutOf(v.year, v.month));
  }

  /** The loops of `generateCalendar`, once the first column, the last date and the leading end are known. */
  method FillGrid(v: MonthView, g: Layout) returns (calendar: seq<seq<Cell>>)
    requires ValidView(v) && GoodLayout(g)
    ensures IsGrid(calendar, v, g)
  {
    ghost var weeks := Weeks(g);
    calendar := [];
    var date := 1;
    var week := 0;
    while week < 6
      invariant 0 <= week <= weeks
      invariant week < weeks || week == 6
      invariant |calendar| == week
      invariant date == DateBefore(g, 7 * week)
      invariant forall w :: 0 <= w < week ==> calendar[w] == Row(v, g, w)
    {
      var weekData;
      weekData, date := FillWeek(v, g, week, date);
      calendar := calendar + [weekData];
      WeekBoundary(g, week);
      if date > g.lastDate {
        break;
      }
      week := week + 1;
    }
    GridOfRows(calendar, v, g);
  }

  lemma GridOfRows(calendar: seq<seq<Cell>>, v: MonthView, g: Layout)
    requires v.month >= 0 && GoodLayout(g) && |calendar| == Weeks(g)
    requires forall w :: 0 <= w < |calendar| ==> calendar[w] == Row(v, g, w)
    ensures IsGrid(calendar, v, g)
  {
    forall w, c | 0 <= w < |calendar| && 0 <= c < 7
      ensures calendar[w][c] == CellAt(v, g, 7 * w + c)
    {
      assert calendar[w] == Row(v, g, w);
    }
  }

  /** The inner loop of `generateCalendar`: the seven cells of one week, moving the date counter past the days placed. */
  method FillWeek(v: MonthView, g: Layout, week: int, date0: int) returns (weekData: seq<Cell>, date: int)
    requires ValidView(v) && GoodLayout(g) && 0 <= week
    requires date0 == DateBefore(g, 7 * week)
    ensures date == DateBefore(g, 7 * week + 7)
    ensures weekData == Row(v, g, week)
  {
    weekData := [];
    date := date0;
    var day := 1;
    while day <= 7
      invariant 1 <= day <= 8
      invariant |weekData| == day - 1
      invariant date == DateBefore(g, 7 * week + day - 1)
      invariant CellsFrom(weekData, v, g, week)
    {
      var cell;
      cell, date := DayCell(v, g, week, day, date);
      AppendCell(v, g, week, weekData, cell);
      weekData := weekData + [cell];
      day := day + 1;
    }
    RowOfCells(v, g, week, weekData);
  }

  /** One pass of the inner loop: a padding cell, or a day cell after which the counter moves on. */
  method DayCell(v: MonthView, g: Layout, week: int, day: int, date0: int) returns (cell: Cell, date: int)
    requires ValidView(v) && GoodLayout(g) && 0 <= week && 1 <= day <= 7
    requires date0 == DateBefore(g, 7 * week + day - 1)
    ensures cell == CellAt(v, g, 7 * week + day - 1)
    ensures date == DateBefore(g, 7 * week + day)
  {
    date := date0;
    CounterStep(g, week, day, date);
    if (week == 0 && day < g.firstColumn) || date > g.lastDate {
      PaddingStep(v, g, week, day, date);
      var displayDate;
      if week == 0 && day < g.firstColumn {
        displayDate := g.leadingEnd - (g.firstColumn - day - 1);
      } else {
        displayDate := date - g.lastDate;
      }
      cell := Cell(displayDate, true, false, day == 7, day == 6, None, None, None);
    } else {
      DayStep(v, g, week, day, date);
      var dateKey := g.monthKey + "-" + Pad2(date);
      var shift := v.shiftAt(dateKey);
      var request := v.requestAt(dateKey);
      var isToday := v.year == v.today.year && v.month + 1 == v.today.month && date == v.today.day;
      cell := Cell(date, false, isToday, day == 7, day == 6, shift, request, Some(dateKey));
      date := date + 1;
    }
  }

  /** The cells pushed so far are the first cells of row `week`. */
  ghost predicate CellsFrom(cells: seq<Cell>, v: MonthView, g: Layout, week: nat)
    requires v.month >= 0
  {
    |cells| <= 7 && cells == Row(v, g, week)[..|cells|]
  }

  lemma AppendCell(v: MonthView, g: Layout, week: nat, cells: seq<Cell>, cell: Cell)
    requires v.month >= 0 && CellsFrom(cells, v, g, week) && |cells| < 7
    requires cell == CellAt(v, g, 7 * week + |cells|)
    ensures CellsFrom(cells + [cell], v, g, week)
  {
    var row := Row(v, g, week);
    assert row[|cells|] == cell;
    assert row[..|cells| + 1] == row[..|cells|] + [row[|cells|]];
  }

  lemma RowOfCells(v: MonthView, g: Layout, week: nat, cells: seq<Cell>)
    requires v.month >= 0 && |cells| == 7 && CellsFrom(cells, v, g, week)
    ensures cells == Row(v, g, week)
  {
    assert Row(v, g, week)[..7] == Row(v, g, week);
  }

  /** The counter moves on exactly at the days of the month. */
  lemma CounterStep(g: Layout, week: int, day: int, date: int)
    requires GoodLayout(g) && 0 <= week && 1 <= day <= 7
    requires date == DateBefore(g, 7 * week + day - 1)
    ensures DateBefore(g, 7 * week + day) == if (week == 0 && day < g.firstColumn) || date > g.lastDate then date else date + 1
  {
  }

  /** One padding step of the inner loop: the cell it pushes is the one at that position. */
  lemma PaddingStep(v: MonthView, g: Layout, week: int, day: int, date: int)
    requires ValidView(v) && GoodLayout(g) && 0 <= week && 1 <= day <= 7
    requires date == DateBefore(g, 7 * week + day - 1)
    requires (week == 0 && day < g.firstColumn) || date > g.lastDate
    ensures CellAt(v, g, 7 * week + day - 1) ==
      Cell(if week == 0 && day < g.firstColumn then g.leadingEnd - (g.firstColumn - day - 1) else date - g.lastDate,
           true, false, day == 7, day == 6, None, None, None)
  {
    DivUnique(7 * week + day - 1, 7, week, day - 1);
  }

  /** One day step of the inner loop: the cell it pushes is the one at that position. */
  lemma DayStep(v: MonthView, g: Layout, week: int, day: int, date: int)
    requires ValidView(v) && GoodLayout(g) && 0 <= week && 1 <= day <= 7
    requires date == DateBefore(g, 7 * week + day - 1)
    requires !((week == 0 && day < g.firstColumn) || date > g.lastDate)
    ensures var key := g.monthKey + "-" + Pad2(date);
      CellAt(v, g, 7 * week + day - 1) ==
        Cell(date, false, v.year == v.today.year && v.month + 1 == v.today.month && date == v.today.day,
             day == 7, day == 6, v.shiftAt(key), v.requestAt(key), Some(key))
  {
    DivUnique(7 * week + day - 1, 7, week, day - 1);
  }

  /** The counter passes the last date exactly at the end of the last drawn week. */
  lemma WeekBoundary(g: Layout, week: int)
    requires GoodLayout(g) && 0 <= week < Weeks(g)
    ensures DateBefore(g, 7 * (week + 1)) > g.lastDate <==> week + 1 == Weeks(g)
  {
  }

  /** Every day of the month is placed once, in order, within the drawn weeks; the 1st sits in its Monday-first column. */
  lemma CurrentDaysPlaced(v: MonthView, g: Layout, d: int)
    requires v.month >= 0 && GoodLayout(g) && 1 <= d <= g.lastDate && g.monthKey == MonthKey(v.year, v.month + 1)
    ensures 0 <= d + g.firstColumn - 2 < 7 * Weeks(g)
    ensures var cell := CellAt(v, g, d + g.firstColumn - 2);
      !cell.isOtherMonth && cell.date == d && cell.dateKey == Some(DateKey(Date(v.year, v.month + 1, d)))
    ensures d == 1 ==> (d + g.firstColumn - 2) % 7 + 1 == g.firstColumn
  {
  }

  /** A cell of the month shows the day its position gives, so the days appear once each and increase left to right, top to bottom. */
  lemma CurrentCellsInOrder(v: MonthView, g: Layout, n: nat, m: nat)
    requires v.month >= 0 && GoodLayout(g) && n < m
    requires !CellAt(v, g, n).isOtherMonth && !CellAt(v, g, m).isOtherMonth
    ensures 1 <= CellAt(v, g, n).date < CellAt(v, g, m).date <= g.lastDate
    ensures CellAt(v, g, m).date - CellAt(v, g, n).date == m - n
  {
  }

  /** Exactly the first `firstDayOfWeek - 1` cells are leading padding, numbered consecutively up to `leadingEnd`. */
  lemma LeadingCells(v: MonthView, g: Layout, n: nat)
    requires v.month >= 0 && GoodLayout(g)
    ensures n < g.firstColumn - 1 <==> CellAt(v, g, n).isOtherMonth && n < 7
    ensures n < g.firstColumn - 1 ==> CellAt(v, g, n).date == g.leadingEnd - (g.firstColumn - 2 - n)
    ensures n + 1 < g.firstColumn - 1 ==> CellAt(v, g, n + 1).date == CellAt(v, g, n).date + 1
  {
  }

  /**
   * The leading cells count up to the length of the month two before the one
   * on screen, not the previous one: `new Date(y, m - 1, 0)` is the last day of month m - 2.
   */
  lemma LeadingEndTwoMonthsBack(v: MonthView)
    requires ValidView(v)
    ensures var back := FirstOfMonth(v.year, v.month - 2);
      LayoutOf(v.year, v.month).leadingEnd == DaysInMonth(back.year, back.month)
  {
    MonthBounds(v.year, v.month - 1);
  }

  /** As written, every trailing cell is numbered `date - lastDay` with the counter stuck at `lastDay + 1`: all show 1. */
  lemma TrailingCellsAllOne(v: MonthView, g: Layout, n: nat)
    requires v.month >= 0 && GoodLayout(g) && g.firstColumn - 1 + g.lastDate <= n
    ensures CellAt(v, g, n).isOtherMonth && CellAt(v, g, n).date == 1
  {
  }

  /** January 2024 starts on a Monday and has 31 days: its grid has four trailing cells, and the page shows all of them as 1. */
  lemma TrailingRepeatsInJanuary2024(v: MonthView)
    requires v.year == 2024 && v.month == 0
    ensures var g := LayoutOf(2024, 0);
      g.firstColumn == 1 && g.lastDate == 31 && g.leadingEnd == 30 && Weeks(g) == 5
    ensures CellAt(v, LayoutOf(2024, 0), 31).date == 1 && CellAt(v, LayoutOf(2024, 0), 32).date == 1
    ensures CellAt(v, LayoutOf(2024, 0), 31).isOtherMonth && CellAt(v, LayoutOf(2024, 0), 32).isOtherMonth
  {
    assert FirstOfMonth(2024, 0) == Date(2024, 1, 1);
    WeekdayAnchors();
    assert DayZero(2024, 1) == Date(2024, 1, 31);
    assert DayZero(2024, -1) == Date(2023, 11, 30);
  }

  /** March 2024 starts on a Friday: the page numbers its leading cells 28 to 31, while February 2024 ends on the 29th. */
  lemma LeadingMismatchInMarch2024(v: MonthView)
    requires v.year == 2024 && v.month == 2
    ensures var g := LayoutOf(2024, 2);
      g.firstColumn == 5 && g.lastDate == 31 && g.leadingEnd == 31
    ensures CellAt(v, LayoutOf(2024, 2), 0).date == 28 && CellAt(v, LayoutOf(2024, 2), 3).date == 31
    ensures DaysInMonth(2024, 2) == 29
  {
    assert FirstOfMonth(2024, 2) == Date(2024, 3, 1);
    assert Weekday(Date(2024, 3, 1)) == 5;
    assert DayZero(2024, 3) == Date(2024, 3, 31);
    assert DayZero(2024, 1) == Date(2024, 1, 31);
  }

  /**
   * The numbering the padding evidently means: leading cells end on the last
   * day of the previous month, trailing cells count 1, 2, ... into the next.
   */
  function IntendedCellAt(v: MonthView, n: nat): Cell
    requires ValidView(v)
  {
    var g := LayoutOf(v.year, v.month);
    var cell := CellAt(v, g, n);
    if n < g.firstColumn - 1 then cell.(date := DayZero(v.year, v.month).day - (g.firstColumn - 2 - n))
    else if n - g.firstColumn + 2 <= g.lastDate then cell
    else cell.(date := n - (g.firstColumn - 1 + g.lastDate) + 1)
  }

  /** With the intended numbering the leading cells are the previous month's last days, ending on the day before the 1st. */
  lemma IntendedLeadingDates(v: MonthView, n: nat)
    requires ValidView(v) && n < LayoutOf(v.year, v.month).firstColumn - 1
    ensures var prev := DayZero(v.year, v.month);
      var cell := IntendedCellAt(v, n);
      ValidDate(Date(prev.year, prev.month, cell.date)) &&
      cell.date + (LayoutOf(v.year, v.month).firstColumn - 2 - n) == DaysInMonth(prev.year, prev.month) &&
      NextDay(prev) == Date(v.year, v.month + 1, 1)
  {
    MonthBounds(v.year, v.month);
    MonthBounds(v.year, v.month + 1);
    DayZeroPrecedes(v.year, v.month);
  }

  /** With the intended numbering the trailing cells are the next month's first days, counting from 1. */
  lemma IntendedTrailingDates(v: MonthView, n: nat)
    requires ValidView(v)
    requires var g := LayoutOf(v.year, v.month);
      g.firstColumn - 1 + g.lastDate <= n < 7 * Weeks(g)
    ensures var g := LayoutOf(v.year, v.month);
      var next := FirstOfMonth(v.year, v.month + 1);
      var cell := IntendedCellAt(v, n);
      ValidDate(Date(next.year, next.month, cell.date)) &&
      cell.date == n - (g.firstColumn - 1 + g.lastDate) + 1 &&
      cell.isOtherMonth
  {
  }

  /** Column 7 is flagged as the weekend and column 6 as Saturday, wherever the cell is. */
  lemma CellFlags(v: MonthView, g: Layout, n: nat)
    requires v.month >= 0
    ensures CellAt(v, g, n).isWeekend <==> n % 7 == 6
    ensures CellAt(v, g, n).isSaturday <==> n % 7 == 5
  {
  }

  /** With the 1st in Monday-first column `f`, day `d` lands on a Sunday or Saturday exactly at positions 6 and 5 modulo 7. */
  lemma WeekdayColumn(y: int, m: int, d: int, f: int)
    requires 1 <= m <= 12 && 1 <= f <= 7 && 1 <= d && f % 7 == Weekday(Date(y, m, 1))
    ensures (d + f - 2) % 7 == 6 <==> Weekday(Date(y, m, d)) == 0
    ensures (d + f - 2) % 7 == 5 <==> Weekday(Date(y, m, d)) == 6
  {
    WeekdayInMonth(y, m, d);
    ColumnOfDay(f, d);
  }

  lemma ColumnOfDay(f: int, d: int)
    requires 1 <= f <= 7 && 1 <= d
    ensures (d + f - 2) % 7 == 6 <==> (f % 7 + d - 1) % 7 == 0
    ensures (d + f - 2) % 7 == 5 <==> (f % 7 + d - 1) % 7 == 6
  {
    ModSevenShift(f, d - 1);
    ModSevenShift(d + f - 2, 1);
  }

  /** A cell of the month is marked today iff it is today's date. */
  lemma TodayCell(v: MonthView, g: Layout, d: int)
    requires v.month >= 0 && GoodLayout(g) && 1 <= d <= g.lastDate
    ensures CellAt(v, g, d + g.firstColumn - 2).isToday <==> v.today == Date(v.year, v.month + 1, d)
  {
  }

  /** A four-digit year gives a day key that reads back as the day itself. */
  lemma CellKeyRoundTrip(v: MonthView, d: int)
    requires ValidView(v) && 1 <= d <= LayoutOf(v.year, v.month).lastDate && 1000 <= v.year <= 9999
    ensures var g := LayoutOf(v.year, v.month);
      var cell := CellAt(v, g, d + g.firstColumn - 2);
      cell.dateKey.Some? && ParseDateKey(cell.dateKey.value) == Some(Date(v.year, v.month + 1, d))
  {
    DateKeyRoundTrip(Date(v.year, v.month + 1, d));
  }

  /** Either time is empty, or both are "HH:MM": what `calculateDuration` can read without producing NaN. */
  predicate ReadableTimes(startTime: string, endTime: string)
  {
    startTime == "" || endTime == "" || (IsClock(startTime) && IsClock(endTime))
  }

  /** `calculateDuration`, in whole minutes: 0 when either time is empty, else end minus start. */
  function DurationMinutes(startTime: string, endTime: string): (m: int)
    requires ReadableTimes(startTime, endTime)
    ensures startTime == "" || endTime == "" ==> m == 0
  {
    if startTime == "" || endTime == "" then 0
    else ClockMinutes(endTime) - ClockMinutes(startTime)
  }

  /** A duration between whole-hour labels is the hour difference, and swapping the times negates it. */
  lemma DurationOfHours(a: nat, b: nat)
    requires a < 100 && b < 100
    ensures DurationMinutes(FormatHour(a), FormatHour(b)) == 60 * (b - a)
    ensures DurationMinutes(FormatHour(b), FormatHour(a)) == -DurationMinutes(FormatHour(a), FormatHour(b))
  {
    FormatHourRoundTrip(a);
    FormatHourRoundTrip(b);
  }

  /** Durations chain: start to middle plus middle to end is start to end. */
  lemma DurationAdditive(a: string, b: string, c: string)
    requires IsClock(a) && IsClock(b) && IsClock(c)
    ensures DurationMinutes(a, b) + DurationMinutes(b, c) == DurationMinutes(a, c)
  {
  }

  /** The entry is a day of the month with that key prefix. */
  predicate InMonth(e: (string, DayShift), monthKey: string)
  {
    IsPrefix(monthKey, e.0)
  }

  predicate WorkDay(e: (string, DayShift), monthKey: string)
  {
    InMonth(e, monthKey) && e.1.status != Off
  }

  predicate OffDay(e: (string, DayShift), monthKey: string)
  {
    InMonth(e, monthKey) && e.1.status == Off
  }

  function IsInMonth(monthKey: string): ((string, DayShift)) -> bool
  {
    e => InMonth(e, monthKey)
  }

  function IsWorkDay(monthKey: string): ((string, DayShift)) -> bool
  {
    e => WorkDay(e, monthKey)
  }

  function IsOffDay(monthKey: string): ((string, DayShift)) -> bool
  {
    e => OffDay(e, monthKey)
  }

  /** Every work day of the month has readable times. */
  predicate SummaryReadable(shifts: Dict<DayShift>, monthKey: string)
  {
    forall i :: 0 <= i < |shifts| && WorkDay(shifts[i], monthKey) ==>
      ReadableTimes(shifts[i].1.startTime, shifts[i].1.endTime)
  }

  /** No entry is a work day of the month. */
  predicate NoWorkDays(shifts: Dict<DayShift>, monthKey: string)
  {
    forall i :: 0 <= i < |shifts| ==> !WorkDay(shifts[i], monthKey)
  }

  /** Every work day of the month ends no earlier than it starts. */
  predicate ForwardWorkDays(shifts: Dict<DayShift>, monthKey: string)
    requires SummaryReadable(shifts, monthKey)
  {
    forall i :: 0 <= i < |shifts| && WorkDay(shifts[i], monthKey) ==>
      DurationMinutes(shifts[i].1.startTime, shifts[i].1.endTime) >= 0
  }

  /** Minutes worked on the work days of the month among the first entries. */
  function WorkMinutes(shifts: Dict<DayShift>, monthKey: string): (m: int)
    requires SummaryReadable(shifts, monthKey)
    ensures NoWorkDays(shifts, monthKey) ==> m == 0
    ensures ForwardWorkDays(shifts, monthKey) ==> m >= 0
    decreases |shifts|
  {
    if shifts == [] then 0
    else
      var last := shifts[|shifts| - 1];
      var init := shifts[..|shifts| - 1];
      assert SummaryReadable(init, monthKey) by {
        forall i | 0 <= i < |init| && WorkDay(init[i], monthKey)
          ensures ReadableTimes(init[i].1.startTime, init[i].1.endTime)
        {
          assert init[i] == shifts[i];
        }
      }
      WorkMinutes(init, monthKey) +
        (if WorkDay(last, monthKey) then DurationMinutes(last.1.startTime, last.1.endTime) else 0)
  }

  /** The monthly figures; `avgHours` is `None` where the page shows '0.0'. */
  datatype Summary = Summary(workDays: nat, totalMinutes: int, totalHours: int, avgHours: Option<real>, offDays: nat)

  /** `Math.round(minutes / 60)`: the nearest whole hour, a half rounding up. */
  function RoundHours(minutes: int): (h: int)
    ensures 60 * h - 30 <= minutes < 60 * h + 30
  {
    (minutes + 30) / 60
  }

  /** `totalHours / workDays`, absent when there are no work days: the average spread back over the days gives the total. */
  function AverageHours(totalMinutes: int, workDays: nat): (avg: Option<real>)
    ensures avg.None? <==> workDays == 0
    ensures avg.Some? ==> avg.value * workDays as real == totalMinutes as real / 60.0
  {
    if workDays > 0 then Some(totalMinutes as real / 60.0 / workDays as real) else None
  }

  /** `updateSummary`: count the month's keys into work and off days and add up the work minutes. */
  method UpdateSummary(shifts: Dict<DayShift>, year: int, month: int) returns (s: Summary)
    requires 0 <= month <= 11
    requires SummaryReadable(shifts, MonthKey(year, month + 1))
    ensures var monthKey := MonthKey(year, month + 1);
      s.workDays == Seqs.CountIf(shifts, IsWorkDay(monthKey)) &&
      s.offDays == Seqs.CountIf(shifts, IsOffDay(monthKey)) &&
      s.totalMinutes == WorkMinutes(shifts, monthKey)
    ensures s.totalHours == RoundHours(s.totalMinutes)
    ensures s.avgHours == AverageHours(s.totalMinutes, s.workDays)
  {
    var monthKey := MonthKey(year, month + 1);
    var workDays, totalMinutes, offDays := TallyMonth(shifts, monthKey);
    s := Summary(workDays, totalMinutes, RoundHours(totalMinutes), AverageHours(totalMinutes, workDays), offDays);
  }

  /** The `forEach` of `updateSummary`: keys starting with the month key are counted as off days or work days, and work minutes are added up. */
  method TallyMonth(shifts: Dict<DayShift>, monthKey: string) returns (workDays: nat, totalMinutes: int, offDays: nat)
    requires SummaryReadable(shifts, monthKey)
    ensures workDays == Seqs.CountIf(shifts, IsWorkDay(monthKey))
    ensures offDays == Seqs.CountIf(shifts, IsOffDay(monthKey))
    ensures totalMinutes == WorkMinutes(shifts, monthKey)
  {
    workDays, totalMinutes, offDays := 0, 0, 0;
    var i := 0;
    assert shifts[..0] == [];
    while i < |shifts|
      invariant 0 <= i <= |shifts|
      invariant SummaryReadable(shifts[..i], monthKey)
      invariant workDays == Seqs.CountIf(shifts[..i], IsWorkDay(monthKey))
      invariant offDays == Seqs.CountIf(shifts[..i], IsOffDay(monthKey))
      invariant totalMinutes == WorkMinutes(shifts[..i], monthKey)
    {
      var (dateKey, shift) := shifts[i];
      TallyStep(shifts, i, monthKey);
      workDays, totalMinutes, offDays := TallyEntry(dateKey, shift, monthKey, workDays, totalMinutes, offDays);
      i := i + 1;
    }
    assert shifts[..i] == shifts;
  }

  /** The body of the `forEach` for one entry: a key of the month counts as an off day or as a work day with its minutes. */
  method TallyEntry(dateKey: string, shift: DayShift, monthKey: string, workDays0: nat, totalMinutes0: int, offDays0: nat)
    returns (workDays: nat, totalMinutes: int, offDays: nat)
    requires WorkDay((dateKey, shift), monthKey) ==> ReadableTimes(shift.startTime, shift.endTime)
    ensures workDays == workDays0 + (if WorkDay((dateKey, shift), monthKey) then 1 else 0)
    ensures offDays == offDays0 + (if OffDay((dateKey, shift), monthKey) then 1 else 0)
    ensures totalMinutes == totalMinutes0 +
      (if WorkDay((dateKey, shift), monthKey) then DurationMinutes(shift.startTime, shift.endTime) else 0)
  {
    workDays, totalMinutes, offDays := workDays0, totalMinutes0, offDays0;
    if IsPrefix(monthKey, dateKey) {
      if shift.status == Off {
        offDays := offDays + 1;
      } else {
        workDays := workDays + 1;
        totalMinutes := totalMinutes + DurationMinutes(shift.startTime, shift.endTime);
      }
    }
  }

  /** One entry more: each count and the minutes grow by that entry's share. */
  lemma TallyStep(shifts: Dict<DayShift>, i: int, monthKey: string)
    requires 0 <= i < |shifts| && SummaryReadable(shifts, monthKey)
    ensures SummaryReadable(shifts[..i + 1], monthKey)
    ensures WorkDay(shifts[i], monthKey) ==> ReadableTimes(shifts[i].1.startTime, shifts[i].1.endTime)
    ensures Seqs.CountIf(shifts[..i + 1], IsWorkDay(monthKey)) ==
      Seqs.CountIf(shifts[..i], IsWorkDay(monthKey)) + (if WorkDay(shifts[i], monthKey) then 1 else 0)
    ensures Seqs.CountIf(shifts[..i + 1], IsOffDay(monthKey)) ==
      Seqs.CountIf(shifts[..i], IsOffDay(monthKey)) + (if OffDay(shifts[i], monthKey) then 1 else 0)
    ensures SummaryReadable(shifts[..i], monthKey) ==>
      WorkMinutes(shifts[..i + 1], monthKey) == WorkMinutes(shifts[..i], monthKey) +
        (if WorkDay(shifts[i], monthKey) then DurationMinutes(shifts[i].1.startTime, shifts[i].1.endTime) else 0)
  {
    var a, b := shifts[..i], shifts[..i + 1];
    assert b == a + [shifts[i]];
    assert b[..i] == a;
    forall j | 0 <= j < |b| ensures b[j] == shifts[j] { }
    Seqs.CountConcat(a, [shifts[i]], IsWorkDay(monthKey));
    Seqs.CountConcat(a, [shifts[i]], IsOffDay(monthKey));
  }

  /** Work days and off days together are exactly the month's entries. */
  lemma SummaryPartition(shifts: Dict<DayShift>, monthKey: string)
    ensures Seqs.CountIf(shifts, IsWorkDay(monthKey)) + Seqs.CountIf(shifts, IsOffDay(monthKey)) ==
            Seqs.CountIf(shifts, IsInMonth(monthKey))
  {
    Seqs.CountSplit(shifts, IsInMonth(monthKey), IsWorkDay(monthKey), IsOffDay(monthKey));
  }

  /** With non-negative years only the month's own date keys are counted. */
  lemma SummaryCountsOwnMonth(d: Date, s: DayShift, year: nat, month: int)
    requires ValidDate(d) && d.year >= 0 && 0 <= month <= 11
    ensures InMonth((DateKey(d), s), MonthKey(year, month + 1)) <==> d.year == year && d.month == month + 1
  {
    MonthKeyPrefixIff(d, year, month + 1);
  }

  /** The employee dashboard: shifts and requests by date, the detail modal and the request form. */
  class EmployeeDashboard {
    var year: int
    var month: int
    var shifts: Dict<DayShift>
    var shiftRequests: Dict<DayRequest>
    var selectedShift: Option<(string, DayShift)>
    var showModal: bool
    var editingDate: Option<string>

    /** The page as first rendered for the month of `now`, with the demonstration data loaded. */
    constructor (now: Date)
      requires 1 <= now.month <= 12
      ensures year == now.year && month == now.month - 1
      ensures shifts == DemoShifts() && shiftRequests == DemoRequests()
      ensures selectedShift == None && !showModal && editingDate == None
    {
      year := now.year;
      month := now.month - 1;
      shifts := DemoShifts();
      shiftRequests := DemoRequests();
      selectedShift := None;
      showModal := false;
      editingDate := None;
    }

    method ShowShiftDetail(dateKey: string, shift: DayShift)
      modifies this`selectedShift, this`showModal
      ensures selectedShift == Some((dateKey, shift)) && showModal
    {
      selectedShift := Some((dateKey, shift));
      showModal := true;
    }

    /** `closeModal`: hide the modal and forget the selected shift and the date being edited. */
    method CloseModal()
      modifies this`showModal, this`selectedShift, this`editingDate
      ensures !showModal && selectedShift == None && editingDate == None
    {
      showModal := false;
      selectedShift := None;
      editingDate := None;
    }

    method OpenRequestModal(dateKey: string)
      modifies this`editingDate, this`showModal
      ensures editingDate == Some(dateKey) && showModal
    {
      editingDate := Some(dateKey);
      showModal := true;
    }

    /** `handleRequestSubmit`: without a date being edited nothing happens; otherwise that date's request is replaced and the modal closes. */
    method HandleRequestSubmit(form: DayRequest)
      modifies this`shiftRequests, this`showModal, this`selectedShift, this`editingDate
      ensures old(editingDate).None? || old(editingDate) == Some("") ==>
        shiftRequests == old(shiftRequests) && showModal == old(showModal) &&
        selectedShift == old(selectedShift) && editingDate == old(editingDate)
      ensures old(editingDate).Some? && old(editingDate) != Some("") ==>
        shiftRequests == Set(old(shiftRequests), old(editingDate).value, form) &&
        !showModal && selectedShift == None && editingDate == None
    {
      if editingDate.None? || editingDate == Some("") {
        return;
      }
      shiftRequests := Set(shiftRequests, editingDate.value, form);
      CloseModal();
    }

    /** `deleteRequest`: after a confirmed prompt, only that date's request goes. */
    method DeleteRequest(dateKey: string, confirmed: bool)
      modifies this`shiftRequests
      ensures shiftRequests == if confirmed then Delete(old(shiftRequests), dateKey) else old(shiftRequests)
    {
      if confirmed {
        shiftRequests := Delete(shiftRequests, dateKey);
      }
    }

    method Calendar(today: Date) returns (calendar: seq<seq<Cell>>)
      requires 0 <= month <= 11
      ensures var v := MonthView(year, month, today, Lookup(shifts), Lookup(shiftRequests));
        IsGrid(calendar, v, LayoutOf(v.year, v.month))
    {
      calendar := GenerateCalendar(MonthView(year, month, today, Lookup(shifts), Lookup(shiftRequests)));
    }
  }

  /** The employee shift page: the same month grid without requests, and a detail modal. */
  class ShiftsPage {
    var year: int
    var month: int
    var shifts: Dict<DayShift>
    var selectedShift: Option<(string, DayShift)>
    var showModal: bool

    constructor (now: Date)
      requires 1 <= now.month <= 12
      ensures year == now.year && month == now.month - 1
      ensures shifts == DemoShifts() && selectedShift == None && !showModal
    {
      year := now.year;
      month := now.month - 1;
      shifts := DemoShifts();
      selectedShift := None;
      showModal := false;
    }

    method ShowShiftDetail(dateKey: string, shift: DayShift)
      modifies this`selectedShift, this`showModal
      ensures selectedShift == Some((dateKey, shift)) && showModal
    {
      selectedShift := Some((dateKey, shift));
      showModal := true;
    }

    /** `closeModal`: hide the modal and forget the selected shift. */
    method CloseModal()
      modifies this`showModal, this`selectedShift
      ensures !showModal && selectedShift == None
    {
      showModal := false;
      selectedShift := None;
    }

    /** `generateCalendar` of this page: cells never carry a request. */
    method Calendar(today: Date) returns (calendar: seq<seq<Cell>>)
      requires 0 <= month <= 11
      ensures var v := MonthView(year, month, today, Lookup(shifts), Lookup([]));
        IsGrid(calendar, v, LayoutOf(v.year, v.month))
      ensures forall w, c :: 0 <= w < |calendar| && 0 <= c < |calendar[w]| ==> calendar[w][c].request == None
    {
      calendar := GenerateCalendar(MonthView(year, month, today, Lookup(shifts), Lookup([])));
    }

    method Summary() returns (s: Summary)
      requires 0 <= month <= 11
      requires SummaryReadable(shifts, MonthKey(year, month + 1))
      ensures var monthKey := MonthKey(year, month + 1);
        s.workDays == Seqs.CountIf(shifts, IsWorkDay(monthKey)) &&
        s.offDays == Seqs.CountIf(shifts, IsOffDay(monthKey)) &&
        s.workDays + s.offDays == Seqs.CountIf(shifts, IsInMonth(monthKey)) &&
        s.totalMinutes == WorkMinutes(shifts, monthKey)
      ensures s.totalHours == RoundHours(s.totalMinutes)
      ensures s.avgHours == AverageHours(s.totalMinutes, s.workDays)
      ensures s.avgHours.None? <==> s.workDays == 0
    {
      ghost var monthKey := MonthKey(year, month + 1);
      s := UpdateSummary(shifts, year, month);
      SummaryPartition(shifts, monthKey);
    }
  }

  /** The demonstration schedule both pages load (January 2024). */
  function DemoShifts(): Dict<DayShift>
  {
    [("2024-01-01", DayShift("09:00", "18:00", Confirmed, "")),
     ("2024-01-03", DayShift("13:00", "22:00", Confirmed, "遅番")),
     ("2024-01-05", DayShift("09:00", "15:00", Tentative, "短時間勤務")),
     ("2024-01-08", DayShift("10:00", "19:00", Confirmed, "")),
     ("2024-01-10", DayShift("09:00", "18:00", Confirmed, "")),
     ("2024-01-12", DayShift("", "", Off, "休日")),
     ("2024-01-15", DayShift("09:00", "18:00", Confirmed, "")),
     ("2024-01-17", DayShift("14:00", "20:00", Tentative, "午後から")),
     ("2024-01-19", DayShift("", "", Off, "休日")),
     ("2024-01-22", DayShift("09:00", "18:00", Confirmed, "")),
     ("2024-01-24", DayShift("09:00", "18:00", Confirmed, "")),
     ("2024-01-26", DayShift("", "", Off, "休日")),
     ("2024-01-27", DayShift("09:00", "17:00", Confirmed, "早上がり"))]
  }

  function DemoRequests(): Dict<DayRequest>
  {
    [("2024-01-15", DayRequest("work", "09:00", "18:00", "")),
     ("2024-01-22", DayRequest("work", "13:00", "22:00", "遅番希望"))]
  }
}
