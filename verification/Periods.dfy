/** Budget windows: anchored to the start date, clamped in short months, tiling time without gap or overlap. */
module Periods {
  import opened Calendar
  import opened Domain

  datatype Period = Weekly | Monthly | Yearly

  datatype Anchor = Anchor(period: Period, startDate: Date)

  datatype BudgetWindow = BudgetWindow(from: Date, to: Date, index: int)

  function WindowStart(a: Anchor, index: int): Date {
    match a.period
    case Weekly => AddDays(a.startDate, index * 7)
    case Monthly => AddMonths(a.startDate, index)
    case Yearly => AddMonths(a.startDate, index * 12)
  }

  function WindowByIndex(a: Anchor, index: int): BudgetWindow {
    BudgetWindow(WindowStart(a, index), AddDays(WindowStart(a, index + 1), -1), index)
  }

  function EstimateIndex(a: Anchor, date: Date): int {
    if a.period.Weekly? then DaysBetween(a.startDate, date) / 7
    else
      var months := (date.year - a.startDate.year) * 12 + (date.month - a.startDate.month);
      if a.period.Monthly? then months else months / 12
  }

  predicate Contains(w: BudgetWindow, date: Date) {
    NotAfter(w.from, date) && NotAfter(date, w.to)
  }

  /** Windows start later the higher their index, and window 0 starts on the anchor. */
  lemma WindowStartAscends(a: Anchor, i: int, j: int)
    ensures i < j <==> Earlier(WindowStart(a, i), WindowStart(a, j))
    ensures WindowStart(a, 0) == a.startDate
  {
    match a.period
    case Weekly => AddDaysIsAnAction(a.startDate, i * 7, j * 7);
    case Monthly => AddMonthsLands(a.startDate, i, j);
    case Yearly => AddMonthsLands(a.startDate, i * 12, j * 12);
  }

  /**
   Where a window starts: so many weeks of seven days from the anchor, or in the month so many
   months, or twelve times as many, later, on the anchor's day or the last of a shorter month.
   */
  lemma WindowStartsWhere(a: Anchor, i: int)
    ensures var from := WindowByIndex(a, i).from;
            match a.period
            case Weekly => DaysBetween(a.startDate, from) == 7 * i && DaysBetween(from, WindowByIndex(a, i).to) == 6
            case Monthly => MonthIndex(from) == MonthIndex(a.startDate) + i && SameDayOf(from, a.startDate.day)
            case Yearly =>
              from.year == a.startDate.year + i && from.month == a.startDate.month && SameDayOf(from, a.startDate.day)
  {
    match a.period
    case Weekly =>
      AddDaysIsAnAction(a.startDate, i * 7, i * 7);
      AddDaysIsAnAction(a.startDate, i * 7, (i + 1) * 7);
      AddDaysIsAnAction(AddDays(a.startDate, i * 7), 7, -1);
      AddDaysIsAnAction(a.startDate, i * 7, 7);
      AddDaysIsAnAction(AddDays(a.startDate, i * 7), 0, 6);
    case Monthly => AddMonthsLands(a.startDate, 0, i);
    case Yearly => AddMonthsLands(a.startDate, 0, i * 12);
  }

  /** The day before a day is the last one earlier than it. */
  lemma DayBeforeIsLast(date: Date, next: Date)
    ensures NotAfter(date, AddDays(next, -1)) <==> Earlier(date, next)
    ensures AddDays(AddDays(next, -1), 1) == next
  {
    DayNumberOrder(date, next);
    DayNumberOrder(AddDays(next, -1), date);
    AddDaysIsAnAction(next, -1, 1);
  }

  lemma EarlierChain(d: Date, e: Date, f: Date)
    requires Earlier(d, e) && NotAfter(e, f)
    ensures Earlier(d, f)
  {
  }

  lemma ContainsMeans(a: Anchor, i: int, date: Date)
    ensures Contains(WindowByIndex(a, i), date) <==>
            NotAfter(WindowStart(a, i), date) && Earlier(date, WindowStart(a, i + 1))
  {
    DayBeforeIsLast(date, WindowStart(a, i + 1));
  }

  /** Each window ends the day before the next begins: no gap and no overlap, clamped or not. */
  lemma WindowsAreAdjacent(a: Anchor, i: int)
    ensures AddDays(WindowByIndex(a, i).to, 1) == WindowByIndex(a, i + 1).from
    ensures NotAfter(WindowByIndex(a, i).from, WindowByIndex(a, i).to)
    ensures Earlier(WindowByIndex(a, i).to, WindowByIndex(a, i + 1).from)
  {
    DayBeforeIsLast(WindowStart(a, i), WindowStart(a, i + 1));
    DayBeforeIsLast(AddDays(WindowStart(a, i + 1), -1), WindowStart(a, i + 1));
    WindowStartAscends(a, i, i + 1);
  }

  /** No date is in two windows. */
  lemma WindowIsUnique(a: Anchor, i: int, j: int, date: Date)
    requires Contains(WindowByIndex(a, i), date) && Contains(WindowByIndex(a, j), date)
    ensures i == j
  {
    hide WindowStart, WindowByIndex, Contains;
    ContainsMeans(a, i, date);
    ContainsMeans(a, j, date);
    if i < j {
      WindowStartAscends(a, j, i + 1);
      EarlierChain(date, WindowStart(a, i + 1), WindowStart(a, j));
    } else if j < i {
      WindowStartAscends(a, i, j + 1);
      EarlierChain(date, WindowStart(a, j + 1), WindowStart(a, i));
    }
  }

  /** The estimate is the right index or one above it. */
  lemma EstimateIsClose(a: Anchor, date: Date)
    requires NotAfter(a.startDate, date)
    ensures var e := EstimateIndex(a, date);
            && e >= 0 && Earlier(date, WindowStart(a, e + 1))
            && (NotAfter(WindowStart(a, e), date) || (e > 0 && NotAfter(WindowStart(a, e - 1), date)))
  {
    if a.period.Weekly? { WeeklyEstimate(a, date); } else { MonthlyEstimate(a, date); }
  }

  lemma WeeklyEstimate(a: Anchor, date: Date)
    requires NotAfter(a.startDate, date) && a.period.Weekly?
    ensures var e := EstimateIndex(a, date);
            e >= 0 && Earlier(date, WindowStart(a, e + 1)) && NotAfter(WindowStart(a, e), date)
  {
    hide DayNumber, AddDays;
    var e := EstimateIndex(a, date);
    AddDaysNumber(a.startDate, e * 7);
    AddDaysNumber(a.startDate, (e + 1) * 7);
    DayNumberOrder(date, a.startDate);
    DayNumberOrder(date, WindowStart(a, e + 1));
    DayNumberOrder(date, WindowStart(a, e));
  }

  lemma MonthlyEstimate(a: Anchor, date: Date)
    requires NotAfter(a.startDate, date) && !a.period.Weekly?
    ensures var e := EstimateIndex(a, date);
            && e >= 0 && Earlier(date, WindowStart(a, e + 1))
            && (NotAfter(WindowStart(a, e), date) || (e > 0 && NotAfter(WindowStart(a, e - 1), date)))
  {
    hide AddMonths, DaysInMonth, Earlier;
    var e := EstimateIndex(a, date);
    var step := if a.period.Monthly? then 1 else 12;
    AddMonthsLands(a.startDate, 0, (e - 1) * step);
    AddMonthsLands(a.startDate, 0, e * step);
    AddMonthsLands(a.startDate, 0, (e + 1) * step);
    EarlierMonth(date, a.startDate);
    EarlierMonth(date, WindowStart(a, e + 1));
    EarlierMonth(date, WindowStart(a, e - 1));
  }

  /** Every date from the start on is in exactly one window, with a non-negative index. */
  lemma WindowsTile(a: Anchor, date: Date) returns (k: nat)
    requires NotAfter(a.startDate, date)
    ensures Contains(WindowByIndex(a, k), date)
    ensures EstimateIndex(a, date) == if NotAfter(WindowStart(a, EstimateIndex(a, date)), date) then k else k + 1
    ensures forall i :: i == k <==> Contains(WindowByIndex(a, i), date)
  {
    hide WindowStart, WindowByIndex, Contains, EstimateIndex;
    EstimateIsClose(a, date);
    var e := EstimateIndex(a, date);
    if NotAfter(WindowStart(a, e), date) {
      k := e;
    } else {
      k := e - 1;
    }
    ContainsMeans(a, k, date);
    forall i | Contains(WindowByIndex(a, i), date) ensures i == k {
      WindowIsUnique(a, i, k, date);
    }
  }

  /**
   The window containing a date, found by estimate and correction; none before the start.
   `downs` and `ups` count the turns of the two correction loops.
   */
  method WindowFor(a: Anchor, date: Date) returns (w: Option<BudgetWindow>, ghost downs: nat, ghost ups: nat)
    ensures w.None? <==> Earlier(date, a.startDate)
    ensures w.Some? ==> w.value.index >= 0 && w.value == WindowByIndex(a, w.value.index) && Contains(w.value, date)
    ensures w.Some? ==> forall i :: Contains(WindowByIndex(a, i), date) ==> i == w.value.index
    ensures downs <= 1 && ups == 0
  {
    hide WindowStart, EstimateIndex;
    downs, ups := 0, 0;
    if Earlier(date, a.startDate) { return None, downs, ups; }
    ghost var k := WindowsTile(a, date);
    ContainsMeans(a, k, date);
    var index := EstimateIndex(a, date);
    while index > 0 && Earlier(date, WindowStart(a, index))
      invariant k <= index <= k + 1 && downs + index <= k + 1
      invariant index == k + 1 ==> Earlier(date, WindowStart(a, index))
      decreases index
    {
      index := index - 1;
      downs := downs + 1;
    }
    while NotAfter(WindowStart(a, index + 1), date)
      invariant index >= k && ups == index - k && NotAfter(WindowStart(a, index), date)
      decreases DaysBetween(WindowStart(a, index), date)
    {
      WindowStartAscends(a, index, index + 1);
      DayNumberOrder(WindowStart(a, index), WindowStart(a, index + 1));
      DayNumberOrder(date, WindowStart(a, index + 1));
      index := index + 1;
      ups := ups + 1;
    }
    ContainsMeans(a, index, date);
    return Some(WindowByIndex(a, index)), downs, ups;
  }
}
