/**
 Reports: the one-pass net-worth sweep, monthly flow and totals. Conversion to the
 reporting currency is a parameter, for transactions and for opening balances.
 */
module Reports {
  import opened Orders
  import opened Calendar
  import opened Domain

  datatype DateRange = DateRange(from: Date, to: Date)

  /** A `YYYY-MM` bucket; months compare as their texts do. */
  datatype MonthFields = MonthFields(year: int, month: int)

  type YearMonth = m: MonthFields | 1 <= m.month <= 12 witness MonthFields(1970, 1)

  type Conversion = Transaction -> Option<int>

  const MONTHS_BOUND := 1_200

  predicate Within(date: Date, r: DateRange) {
    NotAfter(r.from, date) && NotAfter(date, r.to)
  }

  function MonthKey(date: Date): YearMonth {
    MonthFields(date.year, date.month)
  }

  /** The month `n` months after year 0, January. */
  function MonthAt(index: int): YearMonth {
    MonthFields(index / 12, index % 12 + 1)
  }

  /** How many months a range touches; none if it is reversed. */
  function MonthSpan(r: DateRange): nat {
    if Earlier(r.to, r.from) then 0 else MonthIndex(r.to) - MonthIndex(r.from) + 1
  }

  function ListedMonths(r: DateRange): nat {
    Min(MonthSpan(r), MONTHS_BOUND)
  }

  /** The listed months in order, from the one the range starts in. */
  function MonthsOf(r: DateRange): seq<YearMonth> {
    seq(ListedMonths(r), i requires 0 <= i < ListedMonths(r) => MonthNo(r, i))
  }

  /** The listed months are consecutive from the range's first, up to its last or 1,200 of them. */
  lemma MonthsAreListed(r: DateRange, m: YearMonth)
    ensures forall i, j :: 0 <= i < j < |MonthsOf(r)| ==> IndexOf(MonthsOf(r)[j]) - IndexOf(MonthsOf(r)[i]) == j - i
    ensures m in MonthsOf(r) <==>
            && !Earlier(r.to, r.from)
            && MonthIndex(r.from) <= IndexOf(m) <= MonthIndex(r.to) && IndexOf(m) < MonthIndex(r.from) + 1_200
  {
    EarlierMonth(r.from, r.to);
    var i := IndexOf(m) - MonthIndex(r.from);
    if 0 <= i < ListedMonths(r) { assert MonthsOf(r)[i] == m; }
  }

  /** Months counted from year 0. */
  function IndexOf(m: YearMonth): int {
    m.year * 12 + m.month - 1
  }

  /** Every month from the range's first to its last, up to the bound. */
  method MonthsIn(r: DateRange) returns (months: seq<YearMonth>)
    ensures months == MonthsOf(r)
  {
    if Earlier(r.to, r.from) { return []; }
    months := [];
    var year, month := r.from.year, r.from.month;
    for guard := 0 to MONTHS_BOUND
      invariant year * 12 + month - 1 == MonthIndex(r.from) + guard && 1 <= month <= 12
      invariant guard < MonthSpan(r) && |months| == guard
      invariant forall i :: 0 <= i < guard ==> months[i] == MonthNo(r, i)
    {
      months := months + [MonthFields(year, month)];
      if year > r.to.year || (year == r.to.year && month >= r.to.month) { break; }
      month := month + 1;
      if month > 12 {
        month := 1;
        year := year + 1;
      }
    }
  }

  /** The last day of a month, clamped to the range. */
  function LastDayOf(m: YearMonth, r: DateRange): Date {
    var end: Date := Ymd(m.year, m.month, DaysInMonth(m.year, m.month));
    if Earlier(r.to, end) then r.to else end
  }

  /** The range's month number `i`, and the date its point is drawn at. */
  function MonthNo(r: DateRange, i: int): YearMonth {
    MonthAt(MonthIndex(r.from) + i)
  }

  function Cutoff(r: DateRange, i: int): Date {
    LastDayOf(MonthNo(r, i), r)
  }

  lemma CutoffMeans(r: DateRange, i: int, date: Date)
    ensures NotAfter(date, Cutoff(r, i)) <==> NotAfter(date, r.to) && MonthIndex(date) <= MonthIndex(r.from) + i
  {
  }

  // Sums over transactions

  function Total(ts: seq<Transaction>, value: Transaction -> int): int {
    if ts == [] then 0 else Total(ts[..|ts| - 1], value) + value(ts[|ts| - 1])
  }

  lemma {:induction false} TotalOfConcat(a: seq<Transaction>, b: seq<Transaction>, value: Transaction -> int)
    ensures Total(a + b, value) == Total(a, value) + Total(b, value)
  {
    if b == [] {
      assert a + b == a;
    } else {
      var n := |b| - 1;
      assert (a + b)[..|a + b| - 1] == a + b[..n];
      TotalOfConcat(a, b[..n], value);
    }
  }

  lemma {:induction false} TotalOfInsert(lt: (Transaction, Transaction) -> bool, s: seq<Transaction>, x: Transaction,
                                         value: Transaction -> int)
    ensures Total(Insert(lt, s, x), value) == Total(s, value) + value(x)
  {
    if s == [] || !lt(x, s[|s| - 1]) {
      assert (s + [x])[..|s|] == s;
    } else {
      var front, last := s[..|s| - 1], s[|s| - 1];
      TotalOfInsert(lt, front, x, value);
      assert (Insert(lt, front, x) + [last])[..|Insert(lt, front, x)|] == Insert(lt, front, x);
    }
  }

  /** A total does not depend on the order of the ledger. */
  lemma {:induction false} TotalOfSort(lt: (Transaction, Transaction) -> bool, s: seq<Transaction>,
                                       value: Transaction -> int)
    ensures Total(SortBy(lt, s), value) == Total(s, value)
  {
    if s != [] {
      TotalOfSort(lt, s[..|s| - 1], value);
      TotalOfInsert(lt, SortBy(lt, s[..|s| - 1]), s[|s| - 1], value);
    }
  }

  lemma {:induction false} TotalSame(ts: seq<Transaction>, f: Transaction -> int, g: Transaction -> int)
    requires forall t :: t in ts ==> f(t) == g(t)
    ensures Total(ts, f) == Total(ts, g)
  {
    if ts != [] { TotalSame(ts[..|ts| - 1], f, g); }
  }

  lemma {:induction false} TotalZero(ts: seq<Transaction>, f: Transaction -> int)
    requires forall t :: t in ts ==> f(t) == 0
    ensures Total(ts, f) == 0
  {
    if ts != [] { TotalZero(ts[..|ts| - 1], f); }
  }

  lemma {:induction false} TotalAdds(ts: seq<Transaction>, f: Transaction -> int, g: Transaction -> int,
                                     h: Transaction -> int)
    requires forall t :: t in ts ==> h(t) == f(t) + g(t)
    ensures Total(ts, h) == Total(ts, f) + Total(ts, g)
  {
    if ts != [] { TotalAdds(ts[..|ts| - 1], f, g, h); }
  }

  // What one transaction contributes

  /** Effect on net worth; transfers and what cannot be converted contribute nothing. */
  function Delta(t: Transaction, convert: Conversion): int {
    if t.kind.Transfer? then 0
    else match convert(t) case None => 0 case Some(amount) => if t.kind.Income? then amount else -amount
  }

  function Value(t: Transaction, kind: TransactionKind, convert: Conversion): int {
    if t.kind != kind then 0 else match convert(t) case None => 0 case Some(amount) => amount
  }

  function DeltaUntil(cutoff: Date, convert: Conversion): Transaction -> int {
    (t: Transaction) => if NotAfter(t.date, cutoff) then Delta(t, convert) else 0
  }

  function DeltaAlways(convert: Conversion): Transaction -> int {
    (t: Transaction) => Delta(t, convert)
  }

  function ValueIn(r: DateRange, kind: TransactionKind, convert: Conversion): Transaction -> int {
    (t: Transaction) => if Within(t.date, r) then Value(t, kind, convert) else 0
  }

  function ValueInMonth(r: DateRange, m: YearMonth, kind: TransactionKind, convert: Conversion): Transaction -> int {
    (t: Transaction) => if Within(t.date, r) && MonthKey(t.date) == m then Value(t, kind, convert) else 0
  }

  // Net worth

  /** Opening balances at the latest known rates; one without a rate is left out. */
  function Opening(accounts: seq<Account>, opening: Account -> Option<int>): int {
    if accounts == [] then 0
    else
      Opening(accounts[..|accounts| - 1], opening)
      + match opening(accounts[|accounts| - 1]) case None => 0 case Some(amount) => amount
  }

  datatype NetWorthPoint = NetWorthPoint(date: Date, amount: int)

  predicate ByDate(a: Transaction, b: Transaction) {
    Earlier(a.date, b.date)
  }

  /** Net worth by definition: everything that ever happened up to a date. */
  function NetWorthAt(opening: int, ts: seq<Transaction>, cutoff: Date, convert: Conversion): int {
    opening + Total(ts, DeltaUntil(cutoff, convert))
  }

  /** Before anything happened net worth is what the accounts opened with, account by account. */
  lemma OpeningsAddUp(accounts: seq<Account>, more: seq<Account>, account: Account, opening: Account -> Option<int>)
    ensures Opening([], opening) == 0
    ensures Opening([account], opening) == match opening(account) case None => 0 case Some(amount) => amount
    ensures Opening(accounts + more, opening) == Opening(accounts, opening) + Opening(more, opening)
  {
    if more == [] {
      assert accounts + more == accounts;
    } else {
      var n := |more| - 1;
      assert (accounts + more)[..|accounts + more| - 1] == accounts + more[..n];
      OpeningsAddUp(accounts, more[..n], account, opening);
    }
  }

  /**
   One transaction more, if dated by the cutoff and converted: income raises net worth by its
   value, an expense lowers it, a transfer leaves it alone. Without transactions it is the opening.
   */
  lemma NetWorthMoves(start: int, ts: seq<Transaction>, t: Transaction, cutoff: Date, convert: Conversion)
    ensures NetWorthAt(start, [], cutoff, convert) == start
    ensures var change := NetWorthAt(start, ts + [t], cutoff, convert) - NetWorthAt(start, ts, cutoff, convert);
            if Earlier(cutoff, t.date) || convert(t).None? then change == 0
            else
              match t.kind
              case Income => change == convert(t).value
              case Expense => change == -convert(t).value
              case Transfer => change == 0
  {
    assert (ts + [t])[..|ts + [t]| - 1] == ts;
  }

  /** Net worth at the end of each month, in one pass over the transactions in date order. */
  method NetWorthOver(accounts: seq<Account>, ts: seq<Transaction>, r: DateRange, convert: Conversion,
                      opening: Account -> Option<int>)
    returns (points: seq<NetWorthPoint>)
    ensures |points| == ListedMonths(r)
    ensures forall i :: 0 <= i < |points| ==>
              points[i] == NetWorthPoint(Cutoff(r, i),
                                         NetWorthAt(Opening(accounts, opening), ts, Cutoff(r, i), convert))
  {
    hide Opening, Delta, SortBy, LastDayOf, MonthAt, Ascending, DeltaUntil, Total, DeltaAlways, ByDate, Earlier,
         NotAfter;
    var start := Opening(accounts, opening);
    var ordered := SortBy(ByDate, ts);
    ByDateIsWeak();
    SortByIsSorted(ByDate, ts);
    points := [];
    var running, index := start, 0;
    NothingSummed(ordered, convert);
    var months := MonthsIn(r);
    for i := 0 to |months|
      invariant |points| == i && 0 <= index <= |ordered|
      invariant running == start + Total(ordered[..index], DeltaAlways(convert))
      invariant forall k :: 0 <= k < index ==> i > 0 && NotAfter(ordered[k].date, Cutoff(r, i - 1))
      invariant forall k :: 0 <= k < i ==>
                  points[k] == NetWorthPoint(Cutoff(r, k), NetWorthAt(start, ts, Cutoff(r, k), convert))
    {
      var cutoff := LastDayOf(months[i], r);
      forall k | 0 <= k < index ensures NotAfter(ordered[k].date, cutoff) {
        CutoffMeans(r, i - 1, ordered[k].date);
        CutoffMeans(r, i, ordered[k].date);
      }
      while index < |ordered| && NotAfter(ordered[index].date, cutoff)
        invariant 0 <= index <= |ordered|
        invariant running == start + Total(ordered[..index], DeltaAlways(convert))
        invariant forall k :: 0 <= k < index ==> NotAfter(ordered[k].date, cutoff)
      {
        TotalOfNext(ordered, index, convert);
        running := running + Delta(ordered[index], convert);
        index := index + 1;
      }
      SweepIsSum(ordered, index, cutoff, convert);
      TotalOfSort(ByDate, ts, DeltaUntil(cutoff, convert));
      points := points + [NetWorthPoint(cutoff, running)];
    }
  }

  lemma ByDateIsWeak()
    ensures StrictWeak(ByDate)
  {
  }

  lemma NothingSummed(ordered: seq<Transaction>, convert: Conversion)
    ensures Total(ordered[..0], DeltaAlways(convert)) == 0
  {
  }

  lemma TotalOfNext(ordered: seq<Transaction>, index: nat, convert: Conversion)
    requires index < |ordered|
    ensures Total(ordered[..index + 1], DeltaAlways(convert)) ==
            Total(ordered[..index], DeltaAlways(convert)) + Delta(ordered[index], convert)
  {
    assert ordered[..index + 1][..index] == ordered[..index];
  }

  /** In date order, what is dated by the cutoff is a beginning, and its deltas are the total up to the cutoff. */
  lemma SweepIsSum(ordered: seq<Transaction>, index: nat, cutoff: Date, convert: Conversion)
    requires index <= |ordered| && Ascending(ByDate, ordered)
    requires forall k :: 0 <= k < index ==> NotAfter(ordered[k].date, cutoff)
    requires index < |ordered| ==> !NotAfter(ordered[index].date, cutoff)
    ensures Total(ordered, DeltaUntil(cutoff, convert)) == Total(ordered[..index], DeltaAlways(convert))
  {
    hide Delta, Total;
    var f := DeltaUntil(cutoff, convert);
    assert ordered == ordered[..index] + ordered[index..];
    TotalOfConcat(ordered[..index], ordered[index..], f);
    TotalSame(ordered[..index], f, DeltaAlways(convert));
    forall t | t in ordered[index..] ensures f(t) == 0 {
      var k :| 0 <= k < |ordered[index..]| && ordered[index..][k] == t;
      if k > 0 { assert !ByDate(ordered[index + k], ordered[index]); }
    }
    TotalZero(ordered[index..], f);
  }

  // Flow and totals

  datatype MonthlyFlow = MonthlyFlow(month: YearMonth, income: int, expense: int, net: int)

  function FlowOf(ts: seq<Transaction>, r: DateRange, m: YearMonth, convert: Conversion): MonthlyFlow {
    var income, expense := Total(ts, ValueInMonth(r, m, Income, convert)),
                           Total(ts, ValueInMonth(r, m, Expense, convert));
    MonthlyFlow(m, income, expense, income - expense)
  }

  /** A month's bucket while the ledger is being read: income and expense so far, the net not yet set. */
  predicate BucketHolds(b: MonthlyFlow, ts: seq<Transaction>, r: DateRange, m: YearMonth, convert: Conversion) {
    && b.month == m && b.net == 0
    && b.income == Total(ts, ValueInMonth(r, m, Income, convert))
    && b.expense == Total(ts, ValueInMonth(r, m, Expense, convert))
  }

  /** One more transaction: it changes the bucket of its month, by its value, or none. */
  lemma BucketStep(b: MonthlyFlow, b': MonthlyFlow, ts: seq<Transaction>, i: nat, r: DateRange, m: YearMonth,
                   convert: Conversion)
    requires i < |ts| && BucketHolds(b, ts[..i], r, m, convert)
    requires b' == if Within(ts[i].date, r) && MonthKey(ts[i].date) == m
                   then b.(income := b.income + Value(ts[i], Income, convert),
                           expense := b.expense + Value(ts[i], Expense, convert))
                   else b
    ensures BucketHolds(b', ts[..i + 1], r, m, convert)
  {
    assert ts[..i + 1][..i] == ts[..i] && ts[..i + 1][i] == ts[i];
  }

  /** A bucket per listed month, in order, empty ones included. */
  method FlowByMonth(ts: seq<Transaction>, r: DateRange, convert: Conversion) returns (flows: seq<MonthlyFlow>)
    ensures |flows| == ListedMonths(r)
    ensures forall i :: 0 <= i < |flows| ==> flows[i] == FlowOf(ts, r, MonthNo(r, i), convert)
  {
    hide MonthNo, Within, BucketHolds;
    var months := MonthsIn(r);
    var buckets: map<YearMonth, MonthlyFlow> := map m | m in months :: MonthlyFlow(m, 0, 0, 0);
    assert ts[..0] == [];
    forall m | m in buckets ensures BucketHolds(buckets[m], ts[..0], r, m, convert) { NoBucketYet(r, m, convert); }
    for i := 0 to |ts|
      invariant buckets.Keys == set m | m in months
      invariant forall m :: m in buckets ==> BucketHolds(buckets[m], ts[..i], r, m, convert)
    {
      var t, key := ts[i], MonthKey(ts[i].date);
      ghost var before := buckets;
      if Within(t.date, r) && key in buckets {
        var bucket := buckets[key];
        match convert(t)
        case None =>
        case Some(amount) =>
          if t.kind.Income? { buckets := buckets[key := bucket.(income := bucket.income + amount)]; }
          else if t.kind.Expense? { buckets := buckets[key := bucket.(expense := bucket.expense + amount)]; }
      }
      forall m | m in buckets ensures BucketHolds(buckets[m], ts[..i + 1], r, m, convert) {
        BucketStep(before[m], buckets[m], ts, i, r, m, convert);
      }
    }
    assert ts[..|ts|] == ts;
    flows := [];
    for i := 0 to |months|
      invariant |flows| == i
      invariant forall k :: 0 <= k < i ==> flows[k] == FlowOf(ts, r, months[k], convert)
    {
      assert months[i] in months;
      var bucket := buckets[months[i]];
      BucketIsFlow(bucket, ts, r, months[i], convert);
      flows := flows + [bucket.(net := bucket.income - bucket.expense)];
    }
  }

  lemma NoBucketYet(r: DateRange, m: YearMonth, convert: Conversion)
    ensures BucketHolds(MonthlyFlow(m, 0, 0, 0), [], r, m, convert)
  {
  }

  lemma BucketIsFlow(b: MonthlyFlow, ts: seq<Transaction>, r: DateRange, m: YearMonth, convert: Conversion)
    requires BucketHolds(b, ts, r, m, convert)
    ensures b.(net := b.income - b.expense) == FlowOf(ts, r, m, convert)
  {
  }

  /** Income and expense in a range, transfers on neither side. */
  method TotalsFor(ts: seq<Transaction>, r: DateRange, convert: Conversion)
    returns (income: int, expense: int, net: int)
    ensures income == Total(ts, ValueIn(r, Income, convert)) && expense == Total(ts, ValueIn(r, Expense, convert))
    ensures net == income - expense
  {
    income, expense := 0, 0;
    for i := 0 to |ts|
      invariant income == Total(ts[..i], ValueIn(r, Income, convert))
                && expense == Total(ts[..i], ValueIn(r, Expense, convert))
    {
      var t := ts[i];
      assert ts[..i + 1][..i] == ts[..i] && ts[..i + 1][i] == t;
      if !Within(t.date, r) { continue; }
      match convert(t)
      case None =>
      case Some(amount) =>
        if t.kind.Income? { income := income + amount; }
        else if t.kind.Expense? { expense := expense + amount; }
    }
    assert ts[..|ts|] == ts;
    net := income - expense;
  }

  lemma NothingFlows(r: DateRange, m: YearMonth, convert: Conversion)
    ensures FlowOf([], r, m, convert) == MonthlyFlow(m, 0, 0, 0)
    ensures Total([], ValueIn(r, Income, convert)) == Total([], ValueIn(r, Expense, convert)) == 0
  {
  }

  /**
   One transaction more: it is in the month's bucket if it is dated in the range and in that month,
   and in the totals if it is dated in the range. There, if converted, it adds its value to income
   or to expense; a transfer adds to neither. The net is income less expense.
   */
  lemma OneMoreFlows(ts: seq<Transaction>, t: Transaction, r: DateRange, m: YearMonth, convert: Conversion)
    ensures var inRange := !Earlier(t.date, r.from) && !Earlier(r.to, t.date) && convert(t).Some?;
            var inMonth := inRange && t.date.year == m.year && t.date.month == m.month;
            var before, after := FlowOf(ts, r, m, convert), FlowOf(ts + [t], r, m, convert);
            && after.month == m && after.net == after.income - after.expense
            && after.income - before.income == (if inMonth && t.kind.Income? then convert(t).value else 0)
            && after.expense - before.expense == (if inMonth && t.kind.Expense? then convert(t).value else 0)
            && Total(ts + [t], ValueIn(r, Income, convert)) - Total(ts, ValueIn(r, Income, convert))
               == (if inRange && t.kind.Income? then convert(t).value else 0)
            && Total(ts + [t], ValueIn(r, Expense, convert)) - Total(ts, ValueIn(r, Expense, convert))
               == (if inRange && t.kind.Expense? then convert(t).value else 0)
  {
    assert (ts + [t])[..|ts + [t]| - 1] == ts;
  }

  /** From one month's end to the next, net worth moves by exactly the later month's net flow. */
  lemma PointsDifferByFlow(opening: int, ts: seq<Transaction>, r: DateRange, i: nat, convert: Conversion)
    requires 0 < i < ListedMonths(r)
    ensures NetWorthAt(opening, ts, Cutoff(r, i), convert)
            - NetWorthAt(opening, ts, Cutoff(r, i - 1), convert)
            == FlowOf(ts, r, MonthNo(r, i), convert).net
  {
    hide Total, DeltaUntil, ValueInMonth, Cutoff, MonthNo, ListedMonths;
    var before, after := DeltaUntil(Cutoff(r, i - 1), convert), DeltaUntil(Cutoff(r, i), convert);
    var income, expense := ValueInMonth(r, MonthNo(r, i), Income, convert),
                           ValueInMonth(r, MonthNo(r, i), Expense, convert);
    var step := (t: Transaction) => income(t) - expense(t);
    forall t | t in ts ensures after(t) == before(t) + step(t) { MonthsStep(r, i, t, convert); }
    TotalAdds(ts, before, step, after);
    TotalAdds(ts, step, expense, income);
  }

  /** What one transaction adds between two cutoffs is its income less its expense of that month. */
  lemma MonthsStep(r: DateRange, i: nat, t: Transaction, convert: Conversion)
    requires i > 0
    ensures DeltaUntil(Cutoff(r, i), convert)(t) == DeltaUntil(Cutoff(r, i - 1), convert)(t)
            + ValueInMonth(r, MonthNo(r, i), Income, convert)(t) - ValueInMonth(r, MonthNo(r, i), Expense, convert)(t)
  {
    hide LastDayOf, MonthAt;
    CutoffMeans(r, i, t.date);
    CutoffMeans(r, i - 1, t.date);
    MonthNamesIndex(t.date, MonthIndex(r.from) + i);
    EarlierMonth(r.from, t.date);
  }

  lemma MonthNamesIndex(date: Date, index: int)
    ensures MonthKey(date) == MonthAt(index) <==> MonthIndex(date) == index
  {
  }

  /** The first `n` buckets' values of one kind. */
  function BucketSum(ts: seq<Transaction>, r: DateRange, n: nat, kind: TransactionKind, convert: Conversion): int
    requires n <= ListedMonths(r)
  {
    if n == 0 then 0
    else BucketSum(ts, r, n - 1, kind, convert) + Total(ts, ValueInMonth(r, MonthNo(r, n - 1), kind, convert))
  }

  lemma {:induction false} BucketsCoverMonths(ts: seq<Transaction>, r: DateRange, n: nat, kind: TransactionKind,
                                              convert: Conversion)
    requires 0 < n <= ListedMonths(r)
    ensures BucketSum(ts, r, n, kind, convert) == Total(ts, ValueIn(DateRange(r.from, Cutoff(r, n - 1)), kind, convert))
  {
    hide Total, LastDayOf, MonthAt;
    var m := MonthNo(r, n - 1);
    var here := ValueInMonth(r, m, kind, convert);
    var upTo := ValueIn(DateRange(r.from, Cutoff(r, n - 1)), kind, convert);
    if n == 1 {
      forall t | t in ts ensures upTo(t) == here(t) {
        CutoffMeans(r, 0, t.date);
        MonthNamesIndex(t.date, MonthIndex(r.from));
        EarlierMonth(r.from, t.date);
      }
      TotalSame(ts, upTo, here);
      assert BucketSum(ts, r, 0, kind, convert) == 0;
    } else {
      BucketsCoverMonths(ts, r, n - 1, kind, convert);
      var before := ValueIn(DateRange(r.from, Cutoff(r, n - 2)), kind, convert);
      forall t | t in ts ensures upTo(t) == before(t) + here(t) {
        CutoffMeans(r, n - 1, t.date);
        CutoffMeans(r, n - 2, t.date);
        MonthNamesIndex(t.date, MonthIndex(r.from) + n - 1);
        EarlierMonth(r.from, t.date);
      }
      TotalAdds(ts, before, here, upTo);
    }
  }

  /**
   The buckets add up to the totals of the range as far as the months reach; that is the
   whole range exactly when it touches no more months than the bound.
   */
  lemma BucketsSumToTotals(ts: seq<Transaction>, r: DateRange, kind: TransactionKind, convert: Conversion)
    requires NotAfter(r.from, r.to)
    ensures var last := Cutoff(r, ListedMonths(r) - 1);
            && BucketSum(ts, r, ListedMonths(r), kind, convert) ==
               Total(ts, ValueIn(DateRange(r.from, last), kind, convert))
            && (last == r.to <==> MonthSpan(r) <= 1_200)
  {
    EarlierMonth(r.from, r.to);
    BucketsCoverMonths(ts, r, ListedMonths(r), kind, convert);
  }
}
