/** Card billing cycles: when a statement closes, when it is due, and what is owed. */
module Statements {
  import opened Calendar
  import opened Domain

  /** A day of the month, clamped into a month that may be shorter. */
  function DayOfMonth(year: int, month: int, day: int): Date
    requires 1 <= month <= 12
  {
    Ymd(year, month, Min(if day < 1 then 1 else day, DaysInMonth(year, month)))
  }

  /** The clamped day in the month counted from year 0. */
  function DayInMonthIndex(index: int, day: int): Date {
    DayOfMonth(index / 12, index % 12 + 1, day)
  }

  function StatementClose(statementDay: int, date: Date): Date {
    DayOfMonth(date.year, date.month, statementDay)
  }

  /** The most recent closing date on or before `asOf`. */
  function LastStatementDate(statementDay: int, asOf: Date): Date {
    var thisMonth := DayOfMonth(asOf.year, asOf.month, statementDay);
    if NotAfter(thisMonth, asOf) then thisMonth else StatementClose(statementDay, AddMonths(thisMonth, -1))
  }

  /** The next date carrying the due day, strictly after the close. */
  function DueDateFor(dueDay: int, statementDate: Date): Date {
    var sameMonth := DayOfMonth(statementDate.year, statementDate.month, dueDay);
    if Earlier(statementDate, sameMonth) then sameMonth
    else
      var next := AddMonths(statementDate, 1);
      DayOfMonth(next.year, next.month, dueDay)
  }

  /** The day asked for in that month, or its last where it is shorter; a day below 1 is the first. */
  lemma DayInMonthLands(index: int, day: int)
    ensures MonthIndex(DayInMonthIndex(index, day)) == index
    ensures if day < 1 then DayInMonthIndex(index, day).day == 1 else SameDayOf(DayInMonthIndex(index, day), day)
  {
  }

  lemma DayInMonthOf(date: Date, day: int)
    ensures DayInMonthIndex(MonthIndex(date), day) == DayOfMonth(date.year, date.month, day)
  {
  }

  /** Over all months, the last statement date is the greatest closing date not after `asOf`. */
  lemma LastStatementIsGreatest(statementDay: int, asOf: Date)
    ensures NotAfter(LastStatementDate(statementDay, asOf), asOf)
    ensures exists index :: LastStatementDate(statementDay, asOf) == DayInMonthIndex(index, statementDay)
    ensures forall index :: NotAfter(DayInMonthIndex(index, statementDay), asOf) ==>
              NotAfter(DayInMonthIndex(index, statementDay), LastStatementDate(statementDay, asOf))
  {
    var m := MonthIndex(asOf);
    var thisMonth := DayOfMonth(asOf.year, asOf.month, statementDay);
    DayInMonthOf(asOf, statementDay);
    AddMonthsLands(thisMonth, -1, 0);
    var before := AddMonths(thisMonth, -1);
    DayInMonthOf(before, statementDay);
    DayInMonthLands(m - 1, statementDay);
    var last := LastStatementDate(statementDay, asOf);
    assert last == DayInMonthIndex(MonthIndex(last), statementDay);
    EarlierMonth(last, asOf);
    forall index | NotAfter(DayInMonthIndex(index, statementDay), asOf)
      ensures NotAfter(DayInMonthIndex(index, statementDay), last)
    {
      DayInMonthLands(index, statementDay);
      EarlierMonth(asOf, DayInMonthIndex(index, statementDay));
      EarlierMonth(DayInMonthIndex(index, statementDay), last);
    }
  }

  /** Over all months, the due date is the least due day strictly after the close. */
  lemma DueDateIsLeast(dueDay: int, statementDate: Date)
    ensures Earlier(statementDate, DueDateFor(dueDay, statementDate))
    ensures exists index :: DueDateFor(dueDay, statementDate) == DayInMonthIndex(index, dueDay)
    ensures forall index :: Earlier(statementDate, DayInMonthIndex(index, dueDay)) ==>
              NotAfter(DueDateFor(dueDay, statementDate), DayInMonthIndex(index, dueDay))
  {
    DayInMonthOf(statementDate, dueDay);
    AddMonthsLands(statementDate, 0, 1);
    var next := AddMonths(statementDate, 1);
    DayInMonthOf(next, dueDay);
    var due := DueDateFor(dueDay, statementDate);
    assert due == DayInMonthIndex(MonthIndex(due), dueDay);
    EarlierMonth(statementDate, due);
    forall index | Earlier(statementDate, DayInMonthIndex(index, dueDay))
      ensures NotAfter(due, DayInMonthIndex(index, dueDay))
    {
      DayInMonthLands(index, dueDay);
      EarlierMonth(statementDate, DayInMonthIndex(index, dueDay));
      EarlierMonth(due, DayInMonthIndex(index, dueDay));
    }
  }

  // Balances

  /** A transaction's effect on an account's ledger balance. */
  function SignedFor(accountId: string, t: Transaction): int {
    match t.kind
    case Income => if t.accountId == accountId then t.amount else 0
    case Expense => if t.accountId == accountId then -t.amount else 0
    case Transfer =>
      if t.accountId == accountId then -t.amount
      else if t.counterAccountId == Some(accountId) then t.amount
      else 0
  }

  /** The sum of the effects that satisfy a condition on date and effect. */
  function Effects(accountId: string, ts: seq<Transaction>, keep: (Date, int) -> bool): int {
    if ts == [] then 0
    else
      var t := ts[|ts| - 1];
      Effects(accountId, ts[..|ts| - 1], keep)
      + if keep(t.date, SignedFor(accountId, t)) then SignedFor(accountId, t) else 0
  }

  function Until(date: Date): (Date, int) -> bool {
    (d: Date, e: int) => NotAfter(d, date)
  }

  /** Money in, dated after `from` up to `to`. */
  function PaymentsIn(from: Date, to: Date): (Date, int) -> bool {
    (d: Date, e: int) => Earlier(from, d) && NotAfter(d, to) && e > 0
  }

  /** Money out, dated after `from` up to `to`. */
  function SpendingIn(from: Date, to: Date): (Date, int) -> bool {
    (d: Date, e: int) => Earlier(from, d) && NotAfter(d, to) && e < 0
  }

  lemma NoEffects(accountId: string, date: Date)
    ensures Effects(accountId, [], Until(date)) == 0
  {
  }

  /**
   One transaction more, if dated by the day: income raises its account by the amount, an expense
   lowers it, a transfer lowers the account it leaves and raises the one it reaches, and no other
   account is touched.
   */
  lemma OneMoreTransaction(accountId: string, ts: seq<Transaction>, t: Transaction, date: Date)
    ensures var change := Effects(accountId, ts + [t], Until(date)) - Effects(accountId, ts, Until(date));
            if Earlier(date, t.date) then change == 0
            else if accountId == t.accountId then change == if t.kind.Income? then t.amount else -t.amount
            else if t.kind.Transfer? && Some(accountId) == t.counterAccountId then change == t.amount
            else change == 0
  {
    assert (ts + [t])[..|ts + [t]| - 1] == ts;
  }

  /** A transfer between two accounts leaves their sum as it was. */
  lemma TransfersBalance(a: string, b: string, ts: seq<Transaction>, t: Transaction, date: Date)
    requires t.kind.Transfer? && t.accountId == a && t.counterAccountId == Some(b) && a != b
    ensures Effects(a, ts + [t], Until(date)) + Effects(b, ts + [t], Until(date)) ==
            Effects(a, ts, Until(date)) + Effects(b, ts, Until(date))
  {
    OneMoreTransaction(a, ts, t, date);
    OneMoreTransaction(b, ts, t, date);
  }

  method BalanceAsOf(account: Account, ts: seq<Transaction>, date: Date) returns (total: int)
    ensures total == account.openingBalance + Effects(account.id, ts, Until(date))
  {
    total := account.openingBalance;
    for i := 0 to |ts|
      invariant total == account.openingBalance + Effects(account.id, ts[..i], Until(date))
    {
      assert ts[..i + 1][..i] == ts[..i];
      if Earlier(date, ts[i].date) { continue; }
      total := total + SignedFor(account.id, ts[i]);
    }
    assert ts[..|ts|] == ts;
  }

  datatype StatementSummary = StatementSummary(
    closedOn: Date,
    dueOn: Date,
    statementBalance: int,
    paidSince: int,
    remaining: int,
    currentBalance: int)

  /** What happened up to a later date is what happened up to an earlier one, and since. */
  lemma {:induction false} EffectsSince(accountId: string, ts: seq<Transaction>, from: Date, to: Date)
    requires NotAfter(from, to)
    ensures Effects(accountId, ts, Until(to)) ==
            Effects(accountId, ts, Until(from)) + Effects(accountId, ts, PaymentsIn(from, to))
            + Effects(accountId, ts, SpendingIn(from, to))
  {
    if ts != [] { EffectsSince(accountId, ts[..|ts| - 1], from, to); }
  }

  lemma {:induction false} SpendingIsOut(accountId: string, ts: seq<Transaction>, from: Date, to: Date)
    ensures Effects(accountId, ts, SpendingIn(from, to)) <= 0 <= Effects(accountId, ts, PaymentsIn(from, to))
  {
    if ts != [] { SpendingIsOut(accountId, ts[..|ts| - 1], from, to); }
  }

  /**
   A card's cycle, or none without terms. What is owed now is the statement balance less
   payments since the close plus spending since the close.
   */
  method SummariseStatement(account: Account, ts: seq<Transaction>, asOf: Date) returns (s: Option<StatementSummary>)
    ensures s.Some? <==> account.statementDay.Some? && account.dueDay.Some?
    ensures s.Some? ==>
      && s.value.closedOn == LastStatementDate(account.statementDay.value, asOf)
      && s.value.dueOn == DueDateFor(account.dueDay.value, s.value.closedOn)
      && NotAfter(s.value.closedOn, asOf) && Earlier(s.value.closedOn, s.value.dueOn)
    ensures s.Some? ==>
      && s.value.statementBalance == -(account.openingBalance + Effects(account.id, ts, Until(s.value.closedOn)))
      && s.value.paidSince == Effects(account.id, ts, PaymentsIn(s.value.closedOn, asOf)) >= 0
      && s.value.remaining == (if s.value.statementBalance > s.value.paidSince
                               then s.value.statementBalance - s.value.paidSince else 0)
      && s.value.currentBalance ==
         s.value.statementBalance - s.value.paidSince - Effects(account.id, ts, SpendingIn(s.value.closedOn, asOf))
      && s.value.currentBalance >= s.value.statementBalance - s.value.paidSince
  {
    hide LastStatementDate, DueDateFor;
    if account.statementDay.None? || account.dueDay.None? { return None; }
    var closedOn := LastStatementDate(account.statementDay.value, asOf);
    var dueOn := DueDateFor(account.dueDay.value, closedOn);
    LastStatementIsGreatest(account.statementDay.value, asOf);
    DueDateIsLeast(account.dueDay.value, closedOn);
    var atClose := BalanceAsOf(account, ts, closedOn);
    var now := BalanceAsOf(account, ts, asOf);

    var paidSince := 0;
    for i := 0 to |ts|
      invariant paidSince == Effects(account.id, ts[..i], PaymentsIn(closedOn, asOf))
    {
      assert ts[..i + 1][..i] == ts[..i];
      if NotAfter(ts[i].date, closedOn) || Earlier(asOf, ts[i].date) { continue; }
      var effect := SignedFor(account.id, ts[i]);
      if effect > 0 { paidSince := paidSince + effect; }
    }
    assert ts[..|ts|] == ts;
    EffectsSince(account.id, ts, closedOn, asOf);
    SpendingIsOut(account.id, ts, closedOn, asOf);
    var left := -atClose - paidSince;
    return Some(StatementSummary(closedOn, dueOn, -atClose, paidSince, if left > 0 then left else 0, -now));
  }
}
