/**
 Budget spending and rollover. Conversion to the budget's currency is a parameter: a
 function that may have no answer for a transaction.
 */
module Spend {
  import opened Calendar
  import opened Domain
  import opened Periods

  datatype Budget = Budget(
    categoryIds: seq<string>,
    amount: int,
    currency: string,
    rollover: bool,
    anchor: Anchor)

  type Conversion = (Transaction, string) -> Option<int>

  /** Only categorised expenses count; `covered`, where given, replaces the budget's own list. */
  predicate CountsTowards(b: Budget, t: Transaction, covered: Option<set<string>>) {
    && t.kind.Expense? && t.categoryId.Some?
    && match covered
       case Some(ids) => t.categoryId.value in ids
       case None => t.categoryId.value in b.categoryIds
  }

  predicate Dated(t: Transaction, from: Date, to: Date) {
    NotAfter(from, t.date) && NotAfter(t.date, to)
  }

  /** What one transaction adds to the spending of a range; nothing if it has no converted value. */
  function Share(b: Budget, covered: Option<set<string>>, convert: Conversion, from: Date, to: Date,
                 t: Transaction): int {
    if !CountsTowards(b, t, covered) || !Dated(t, from, to) then 0
    else match convert(t, b.currency) case None => 0 case Some(amount) => amount
  }

  /** Converted counted spending dated in a range. */
  function SpentBetween(b: Budget, covered: Option<set<string>>, convert: Conversion, from: Date, to: Date,
                        ts: seq<Transaction>): int {
    if ts == [] then 0
    else SpentBetween(b, covered, convert, from, to, ts[..|ts| - 1])
         + Share(b, covered, convert, from, to, ts[|ts| - 1])
  }

  ghost function Unconverted(b: Budget, covered: Option<set<string>>, convert: Conversion, from: Date, to: Date,
                             ts: seq<Transaction>): set<int> {
    set i | 0 <= i < |ts| && CountsTowards(b, ts[i], covered) && Dated(ts[i], from, to)
      && convert(ts[i], b.currency).None?
  }

  /** Spending in a window, and how many of its counted transactions could not be converted. */
  method SpendDetail(b: Budget, w: BudgetWindow, ts: seq<Transaction>, covered: Option<set<string>>,
                     convert: Conversion)
    returns (spent: int, unconverted: nat)
    ensures spent == SpentBetween(b, covered, convert, w.from, w.to, ts)
    ensures unconverted == |Unconverted(b, covered, convert, w.from, w.to, ts)|
  {
    spent, unconverted := 0, 0;
    for i := 0 to |ts|
      invariant spent == SpentBetween(b, covered, convert, w.from, w.to, ts[..i])
      invariant unconverted == |Unconverted(b, covered, convert, w.from, w.to, ts[..i])|
    {
      var t := ts[i];
      assert ts[..i + 1][..i] == ts[..i] && ts[..i + 1][i] == t;
      UnconvertedStep(b, covered, convert, w.from, w.to, ts, i);
      if !CountsTowards(b, t, covered) { continue; }
      if Earlier(t.date, w.from) || Earlier(w.to, t.date) { continue; }
      match convert(t, b.currency)
      case None => unconverted := unconverted + 1;
      case Some(amount) => spent := spent + amount;
    }
    assert ts[..|ts|] == ts;
  }

  lemma UnconvertedStep(b: Budget, covered: Option<set<string>>, convert: Conversion, from: Date, to: Date,
                        ts: seq<Transaction>, i: nat)
    requires i < |ts|
    ensures Unconverted(b, covered, convert, from, to, ts[..i + 1]) ==
            Unconverted(b, covered, convert, from, to, ts[..i]) +
            if CountsTowards(b, ts[i], covered) && Dated(ts[i], from, to)
               && convert(ts[i], b.currency).None? then {i} else {}
    ensures i !in Unconverted(b, covered, convert, from, to, ts[..i])
  {
  }

  // What counts

  /** Nothing is spent or left unconverted where there are no transactions. */
  lemma NothingSpent(b: Budget, covered: Option<set<string>>, convert: Conversion, from: Date, to: Date)
    ensures SpentBetween(b, covered, convert, from, to, []) == 0
    ensures |Unconverted(b, covered, convert, from, to, [])| == 0
  {
  }

  /**
   One transaction more. If it is an expense dated in the range with a category in `covered`, or in
   the budget's own list where none is given, it adds its value in the budget's currency to what is
   spent, or one to what is unconverted if it has none; any other transaction adds nothing to either.
   */
  lemma OnlyCoveredExpensesCount(b: Budget, covered: Option<set<string>>, convert: Conversion, from: Date, to: Date,
                                 ts: seq<Transaction>, t: Transaction)
    ensures var spent, unconverted :=
              SpentBetween(b, covered, convert, from, to, ts + [t]) - SpentBetween(b, covered, convert, from, to, ts),
              |Unconverted(b, covered, convert, from, to, ts + [t])| - |Unconverted(b, covered, convert, from, to, ts)|;
            var inRange := !Earlier(t.date, from) && !Earlier(to, t.date);
            var listed :=
              match t.categoryId
              case None => false
              case Some(id) => if covered.Some? then id in covered.value else id in b.categoryIds;
            match t.kind
            case Income => spent == 0 && unconverted == 0
            case Transfer => spent == 0 && unconverted == 0
            case Expense =>
              if !inRange || !listed then spent == 0 && unconverted == 0
              else
                match convert(t, b.currency)
                case Some(amount) => spent == amount && unconverted == 0
                case None => spent == 0 && unconverted == 1
  {
    var more := ts + [t];
    assert more[..|ts|] == ts && more[..|more| - 1] == ts && more[..|more|] == more;
    UnconvertedStep(b, covered, convert, from, to, more, |ts|);
  }

  /** Ranges that meet end to start add up: a transaction falls in exactly one of them. */
  lemma {:induction false} SpendingAddsUp(b: Budget, covered: Option<set<string>>, convert: Conversion, from: Date,
                                          mid: Date, to: Date, ts: seq<Transaction>)
    requires NotAfter(from, AddDays(mid, 1)) && NotAfter(mid, to)
    ensures SpentBetween(b, covered, convert, from, mid, ts)
            + SpentBetween(b, covered, convert, AddDays(mid, 1), to, ts)
            == SpentBetween(b, covered, convert, from, to, ts)
  {
    if ts != [] {
      var t := ts[|ts| - 1];
      SpendingAddsUp(b, covered, convert, from, mid, to, ts[..|ts| - 1]);
      NextDaySplits(from, mid, to, t.date);
    }
  }

  lemma NextDaySplits(from: Date, mid: Date, to: Date, date: Date)
    requires NotAfter(from, AddDays(mid, 1)) && NotAfter(mid, to)
    ensures NotAfter(AddDays(mid, 1), date) <==> !NotAfter(date, mid)
    ensures !NotAfter(date, mid) ==> NotAfter(from, date)
    ensures NotAfter(date, mid) ==> NotAfter(date, to)
  {
    DayNumberOrder(AddDays(mid, 1), date);
    DayNumberOrder(date, AddDays(mid, 1));
    DayNumberOrder(mid, date);
    DayNumberOrder(date, mid);
  }

  /** Spending of the first `n` windows together is spending from the start to the end of the last of them. */
  function SpentInWindows(b: Budget, covered: Option<set<string>>, convert: Conversion, n: nat,
                          ts: seq<Transaction>): int {
    if n == 0 then 0
    else
      var w := WindowByIndex(b.anchor, n - 1);
      SpentInWindows(b, covered, convert, n - 1, ts) + SpentBetween(b, covered, convert, w.from, w.to, ts)
  }

  lemma {:induction false} WindowsTelescope(b: Budget, covered: Option<set<string>>, convert: Conversion, n: nat,
                                            ts: seq<Transaction>)
    requires n > 0
    ensures SpentInWindows(b, covered, convert, n, ts) ==
            SpentBetween(b, covered, convert, b.anchor.startDate, WindowByIndex(b.anchor, n - 1).to, ts)
  {
    hide WindowByIndex, WindowStart, SpentBetween, AddDays;
    WindowZeroStarts(b.anchor);
    if n == 1 {
      assert SpentInWindows(b, covered, convert, 0, ts) == 0;
    } else {
      WindowsTelescope(b, covered, convert, n - 1, ts);
      WindowsAreAdjacent(b.anchor, n - 2);
      WindowsAreAdjacent(b.anchor, n - 1);
      StartNotAfterWindow(b.anchor, n - 1);
      var before, last := WindowByIndex(b.anchor, n - 2), WindowByIndex(b.anchor, n - 1);
      SpendingAddsUp(b, covered, convert, b.anchor.startDate, before.to, last.to, ts);
    }
  }

  lemma WindowZeroStarts(a: Anchor)
    ensures WindowByIndex(a, 0).from == a.startDate
  {
    WindowStartAscends(a, 0, 0);
  }

  lemma StartNotAfterWindow(a: Anchor, k: nat)
    ensures NotAfter(a.startDate, WindowByIndex(a, k).from)
  {
    WindowStartAscends(a, k, 0);
  }

  /** What the earlier periods leave over; an overspend carries as a negative. */
  method CarriedInto(b: Budget, index: int, ts: seq<Transaction>, covered: Option<set<string>>, convert: Conversion)
    returns (carry: int)
    ensures !b.rollover || index <= 0 ==> carry == 0
    ensures b.rollover && index > 0 ==>
              carry == index * b.amount
                       - SpentBetween(b, covered, convert,
                                      b.anchor.startDate, WindowByIndex(b.anchor, index - 1).to, ts)
  {
    hide WindowByIndex, WindowStart, SpentBetween;
    if !b.rollover || index <= 0 { return 0; }
    carry := 0;
    for period := 0 to index
      invariant carry == period * b.amount - SpentInWindows(b, covered, convert, period, ts)
    {
      var spent, _ := SpendDetail(b, WindowByIndex(b.anchor, period), ts, covered, convert);
      carry := carry + (b.amount - spent);
      assert (period + 1) * b.amount == period * b.amount + b.amount;
    }
    WindowsTelescope(b, covered, convert, index, ts);
  }

  datatype Progress = Progress(
    window: BudgetWindow,
    unconverted: nat,
    limit: int,
    carried: int,
    allowance: int,
    spent: int,
    remaining: int,
    over: bool)

  /**
   Progress in the period containing a date. With rollover, what remains in period k is
   k + 1 limits less everything spent from the start to the end of that period.
   */
  method ProgressFor(b: Budget, ts: seq<Transaction>, asOf: Date, covered: Option<set<string>>, convert: Conversion)
    returns (p: Option<Progress>)
    ensures p.None? <==> Earlier(asOf, b.anchor.startDate)
    ensures p.Some? ==> p.value.window == WindowByIndex(b.anchor, p.value.window.index) && p.value.window.index >= 0
    ensures p.Some? ==> Contains(p.value.window, asOf)
    ensures p.Some? ==> p.value.spent == SpentBetween(b, covered, convert, p.value.window.from, p.value.window.to, ts)
    ensures p.Some? ==>
              p.value.unconverted ==
              |Unconverted(b, covered, convert, p.value.window.from, p.value.window.to, ts)|
    ensures p.Some? ==> p.value.limit == b.amount && p.value.allowance == b.amount + p.value.carried
    ensures p.Some? ==> p.value.over == (p.value.remaining < 0)
    ensures p.Some? ==> p.value.remaining == p.value.allowance - p.value.spent
    ensures p.Some? && b.rollover ==>
              p.value.remaining == (p.value.window.index + 1) * b.amount
                                   - SpentBetween(b, covered, convert, b.anchor.startDate, p.value.window.to, ts)
    ensures p.Some? && !b.rollover ==> p.value.carried == 0 && p.value.remaining == b.amount - p.value.spent
  {
    hide WindowByIndex, WindowStart, SpentBetween, Contains, Earlier;
    var w, _, _ := WindowFor(b.anchor, asOf);
    if w.None? { return None; }
    var window := w.value;
    var carried := CarriedInto(b, window.index, ts, covered, convert);
    var allowance := b.amount + carried;
    var spent, unconverted := SpendDetail(b, window, ts, covered, convert);
    var remaining := allowance - spent;
    if b.rollover {
      WindowsTelescope(b, covered, convert, window.index + 1, ts);
      if window.index > 0 { WindowsTelescope(b, covered, convert, window.index, ts); }
      assert SpentInWindows(b, covered, convert, 0, ts) == 0;
      assert (window.index + 1) * b.amount == window.index * b.amount + b.amount;
    }
    return Some(Progress(window, unconverted, b.amount, carried, allowance, spent, remaining, remaining < 0));
  }

  /** With rollover, a transaction in the span counts in exactly one period. */
  lemma CountedOnce(b: Budget, t: Transaction, k: nat)
    requires NotAfter(b.anchor.startDate, t.date) && NotAfter(t.date, WindowByIndex(b.anchor, k).to)
    ensures exists i :: 0 <= i <= k && Contains(WindowByIndex(b.anchor, i), t.date)
    ensures forall i, j ::
              Contains(WindowByIndex(b.anchor, i), t.date) && Contains(WindowByIndex(b.anchor, j), t.date) ==> i == j
  {
    hide WindowStart;
    var i := WindowsTile(b.anchor, t.date);
    if i > k {
      ContainsMeans(b.anchor, i, t.date);
      DayBeforeIsLast(t.date, WindowStart(b.anchor, k + 1));
      WindowStartAscends(b.anchor, i, k + 1);
      EarlierChain(t.date, WindowStart(b.anchor, k + 1), WindowStart(b.anchor, i));
    }
  }
}
