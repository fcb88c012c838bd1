/**
 What the log says a recurring rule has produced. The log keeps deletions, so an occurrence
 counts as made once it was ever written; what a rule is missing is read from here.
 */
module Histories {
  import opened Text
  import opened Calendar
  import opened Hlc
  import opened Domain
  import opened Oplog
  import opened LedgerServices
  import opened Schedules

  // The transaction an occurrence stands for

  function Trim(s: string): string {
    if s != [] && IsSpace(s[0]) then Trim(s[1..])
    else if s != [] && IsSpace(s[|s| - 1]) then Trim(s[..|s| - 1])
    else s
  }

  function ToTransaction(rule: RecurringRule, date: Date, now: int): Transaction {
    Transaction(rule.kind, rule.amount, rule.currency, None,
                rule.accountId, rule.counterAccountId, rule.categoryId, date,
                if Trim(rule.payee) == "" then rule.name else Trim(rule.payee), rule.note, rule.tags, false, now)
  }

  /** `trimmed` is the text without the white space around it. */
  ghost predicate IsTrimmed(text: string, trimmed: string) {
    && (trimmed != "" ==> !IsSpace(trimmed[0]) && !IsSpace(trimmed[|trimmed| - 1]))
    && exists front, back :: text == front + trimmed + back && AllSpace(front) && AllSpace(back)
  }

  predicate AllSpace(text: string) {
    forall i :: 0 <= i < |text| ==> IsSpace(text[i])
  }

  /**
   The transaction is the rule's payment on a date: dated that day, with the rule's kind, amount,
   currency, accounts, category, note and tags, no rate, not cleared, and paid to the trimmed
   payee, or to the name of the rule where that is empty.
   */
  ghost predicate PaysFor(t: Transaction, rule: RecurringRule, date: Date) {
    && t.date == date && t.kind == rule.kind && t.amount == rule.amount && t.currency == rule.currency
    && t.accountId == rule.accountId && t.counterAccountId == rule.counterAccountId
    && t.categoryId == rule.categoryId && t.note == rule.note && t.tags == rule.tags
    && t.rate.None? && !t.cleared
    && exists payee :: IsTrimmed(rule.payee, payee) && t.payee == if payee == "" then rule.name else payee
  }

  lemma {:induction false} TrimIsTrimmed(s: string)
    ensures IsTrimmed(s, Trim(s))
  {
    hide IsSpace, IsTrimmed;
    if s != [] && IsSpace(s[0]) {
      TrimIsTrimmed(s[1..]);
      SpaceInFront(s, Trim(s));
    } else if s != [] && IsSpace(s[|s| - 1]) {
      TrimIsTrimmed(s[..|s| - 1]);
      SpaceBehind(s, Trim(s));
    } else {
      TrimmedAlready(s);
    }
  }

  lemma SpaceInFront(s: string, trimmed: string)
    requires s != [] && IsSpace(s[0]) && IsTrimmed(s[1..], trimmed)
    ensures IsTrimmed(s, trimmed)
  {
    hide IsSpace, AllSpace;
    var front, back :| s[1..] == front + trimmed + back && AllSpace(front) && AllSpace(back);
    OneMoreSpace(front, s[0]);
    assert s == ([s[0]] + front) + trimmed + back;
  }

  lemma SpaceBehind(s: string, trimmed: string)
    requires s != [] && IsSpace(s[|s| - 1]) && IsTrimmed(s[..|s| - 1], trimmed)
    ensures IsTrimmed(s, trimmed)
  {
    hide IsSpace, AllSpace;
    var n := |s| - 1;
    var front, back :| s[..n] == front + trimmed + back && AllSpace(front) && AllSpace(back);
    OneMoreSpace(back, s[n]);
    assert s == front + trimmed + (back + [s[n]]);
  }

  lemma TrimmedAlready(s: string)
    requires s != [] ==> !IsSpace(s[0]) && !IsSpace(s[|s| - 1])
    ensures IsTrimmed(s, s)
  {
    hide IsSpace;
    assert AllSpace([]) && s == [] + s + [];
  }

  lemma OneMoreSpace(spaces: string, c: char)
    requires AllSpace(spaces) && IsSpace(c)
    ensures AllSpace([c] + spaces) && AllSpace(spaces + [c])
  {
    hide IsSpace;
  }

  /** What a run writes is the rule's payment on the date, made now. */
  lemma ToTransactionPays(rule: RecurringRule, date: Date, now: int)
    ensures PaysFor(ToTransaction(rule, date, now), rule, date) && ToTransaction(rule, date, now).createdAt == now
  {
    hide Trim, IsTrimmed;
    TrimIsTrimmed(rule.payee);
  }

  // What the log says of a rule

  function OccurrenceKey(ruleId: string, d: Date): Key
    requires FourDigitYear(d)
  {
    Key(Transactions, OccurrenceId(ruleId, d))
  }

  ghost predicate HasOccurrence(oplog: Log, ruleId: string, date: Date) {
    FourDigitYear(date) && EverLogged(oplog, OccurrenceKey(ruleId, date))
  }

  /** The dates of a list that no log entry has ever been about, in order. */
  ghost function Missing(oplog: Log, ruleId: string, dates: seq<Date>): seq<Date> {
    if dates == [] then []
    else (if HasOccurrence(oplog, ruleId, dates[0]) then [] else [dates[0]]) + Missing(oplog, ruleId, dates[1..])
  }

  /** The occurrences due by a date that the log has never held, in order. */
  ghost function MissingFor(db: Db, rule: RecurringRule, asOf: Date): seq<Date> {
    Missing(db.oplog, rule.id, FullSchedule(rule.schedule, asOf))
  }

  ghost predicate Scheduled(s: Schedule, date: Date) {
    date !in s.skipped && exists i :: 0 <= i < MAX_SCAN && OccurrenceAt(s, i) == date && WithinLimits(s, i, date)
  }

  /** Nothing scheduled is missing behind the furthest occurrence logged. */
  ghost predicate NoGap(oplog: Log, rule: RecurringRule) {
    forall d: Date, f: Date ::
      HasOccurrence(oplog, rule.id, f) && Scheduled(rule.schedule, d) && NotAfter(d, f) ==>
        HasOccurrence(oplog, rule.id, d)
  }

  predicate CleanId(id: string) {
    id != "" && OneLine(id) && forall i :: 0 <= i < |id| ==> id[i] != ':' && id[i] < '\U{FFFF}'
  }

  /** Only a rule's own occurrences carry its prefix. */
  ghost predicate OwnPrefix(oplog: Log, ruleId: string) {
    forall id :: id in LoggedIds(oplog, Transactions) && InPrefixRange(id, ruleId + ":") ==>
                   exists d: Date :: FourDigitYear(d) && id == OccurrenceId(ruleId, d)
  }

  /** What the materialiser relies on about a rule and the log, and keeps: that ids name rules and dates. */
  ghost predicate RuleNamed(oplog: Log, rule: RecurringRule) {
    CleanId(rule.id) && FourDigitYear(rule.schedule.startDate) && OwnPrefix(oplog, rule.id)
  }

  ghost predicate RuleReady(oplog: Log, rule: RecurringRule) {
    RuleNamed(oplog, rule) && NoGap(oplog, rule)
  }

  lemma LoggedIdOf(oplog: Log, entity: EntityName, id: string)
    ensures EverLogged(oplog, Key(entity, id)) <==> id in LoggedIds(oplog, entity)
  {
    if EverLogged(oplog, Key(entity, id)) {
      var s :| s in oplog && oplog[s].op.key == Key(entity, id);
      assert oplog[s].op.key.entity == entity;
    }
    if id in LoggedIds(oplog, entity) {
      var s :| s in oplog && oplog[s].op.key.entity == entity && oplog[s].op.key.id == id;
      assert oplog[s].op.key == Key(entity, id);
    }
  }

  /** A rule with no history is ready: every catch-up starts here. */
  lemma NoHistoryIsReady(oplog: Log, rule: RecurringRule)
    requires CleanId(rule.id) && FourDigitYear(rule.schedule.startDate)
    requires forall id :: id in LoggedIds(oplog, Transactions) ==> !InPrefixRange(id, rule.id + ":")
    ensures RuleReady(oplog, rule)
    ensures forall dates :: Missing(oplog, rule.id, dates) == dates
  {
    hide InPrefixRange, LoggedIds, Scheduled, EverLogged, Missing;
    forall d: Date | FourDigitYear(d) ensures !HasOccurrence(oplog, rule.id, d) {
      OccurrenceInRange(rule.id, d);
      LoggedIdOf(oplog, Transactions, OccurrenceId(rule.id, d));
    }
    forall dates ensures Missing(oplog, rule.id, dates) == dates {
      NoneLogged(oplog, rule.id, dates);
    }
  }

  lemma {:induction false} NoneLogged(oplog: Log, ruleId: string, dates: seq<Date>)
    requires forall d :: d in dates ==> !HasOccurrence(oplog, ruleId, d)
    ensures Missing(oplog, ruleId, dates) == dates
  {
    hide HasOccurrence;
    if dates != [] {
      NoneLogged(oplog, ruleId, dates[1..]);
      assert dates == [dates[0]] + dates[1..];
    }
  }

  lemma OccurrenceInRange(ruleId: string, d: Date)
    requires FourDigitYear(d)
    ensures InPrefixRange(OccurrenceId(ruleId, d), ruleId + ":")
  {
    ParseFormat(d);
    var text := FormatDate(d);
    LessTrichotomy(ruleId + ":", ruleId + ":");
    LessOfCommonHead(ruleId + ":", text, "");
    assert ruleId + ":" + "" == ruleId + ":";
    LessOfCommonHead(ruleId + ":", "\U{FFFF}", text);
    assert text[0] == text[..4][0] && IsDigit(10, text[0]);
  }

  // The furthest occurrence, and what comes next

  ghost predicate IsFurthest(oplog: Log, ruleId: string, furthest: Option<Date>) {
    && (furthest.Some? ==> HasOccurrence(oplog, ruleId, furthest.value))
    && forall d: Date :: HasOccurrence(oplog, ruleId, d) ==> furthest.Some? && NotAfter(d, furthest.value)
  }

  lemma FurthestIsUnique(oplog: Log, ruleId: string, a: Option<Date>, b: Option<Date>)
    requires IsFurthest(oplog, ruleId, a) && IsFurthest(oplog, ruleId, b)
    ensures a == b
  {
    hide HasOccurrence;
  }

  /** If the key is that of an occurrence, it is not later than `furthest`. */
  ghost predicate NotPast(key: Key, ruleId: string, furthest: Option<Date>) {
    forall d: Date :: NamesDate(key, ruleId, d) ==> furthest.Some? && NotAfter(d, furthest.value)
  }

  /** The latest occurrence among some log entries. */
  lemma {:induction false} FurthestAmong(oplog: Log, ruleId: string, stamps: set<Stamp>)
    returns (furthest: Option<Date>)
    requires stamps <= oplog.Keys
    ensures furthest.Some? ==> HasOccurrence(oplog, ruleId, furthest.value)
    ensures forall s :: s in stamps ==> NotPast(oplog[s].op.key, ruleId, furthest)
    decreases |stamps|
  {
    if stamps == {} {
      furthest := None;
    } else {
      hide NotAfter, NotPast, HasOccurrence;
      var s :| s in stamps;
      var rest := FurthestAmong(oplog, ruleId, stamps - {s});
      furthest := OneMoreDate(oplog, ruleId, s, rest);
      forall t | t in stamps ensures NotPast(oplog[t].op.key, ruleId, furthest) {
        if t != s { NotPastLater(oplog[t].op.key, ruleId, rest, furthest); }
      }
    }
  }

  lemma OneMoreDate(oplog: Log, ruleId: string, s: Stamp, rest: Option<Date>) returns (furthest: Option<Date>)
    requires s in oplog && (rest.Some? ==> HasOccurrence(oplog, ruleId, rest.value))
    ensures furthest.Some? ==> HasOccurrence(oplog, ruleId, furthest.value)
    ensures NotPast(oplog[s].op.key, ruleId, furthest)
    ensures rest.Some? ==> furthest.Some? && NotAfter(rest.value, furthest.value)
  {
    furthest := rest;
    if d: Date :| NamesDate(oplog[s].op.key, ruleId, d) {
      assert HasOccurrence(oplog, ruleId, d);
      furthest := if rest.Some? && NotAfter(d, rest.value) then rest else Some(d);
      forall e: Date | NamesDate(oplog[s].op.key, ruleId, e) ensures e == d {
        OccurrenceIdFaithful(ruleId, d, e);
      }
    }
  }

  lemma NotPastLater(key: Key, ruleId: string, a: Option<Date>, b: Option<Date>)
    requires NotPast(key, ruleId, a) && (a.Some? ==> b.Some? && NotAfter(a.value, b.value))
    ensures NotPast(key, ruleId, b)
  {
    hide NamesDate;
  }

  ghost predicate NamesDate(key: Key, ruleId: string, d: Date) {
    FourDigitYear(d) && key == OccurrenceKey(ruleId, d)
  }

  lemma FurthestExists(oplog: Log, ruleId: string)
    ensures exists furthest :: IsFurthest(oplog, ruleId, furthest)
  {
    hide NotAfter;
    var furthest := FurthestAmong(oplog, ruleId, oplog.Keys);
    forall d: Date | HasOccurrence(oplog, ruleId, d) ensures furthest.Some? && NotAfter(d, furthest.value) {
      var s :| s in oplog && oplog[s].op.key == OccurrenceKey(ruleId, d);
      assert NotPast(oplog[s].op.key, ruleId, furthest) && NamesDate(oplog[s].op.key, ruleId, d);
    }
    assert IsFurthest(oplog, ruleId, furthest);
  }

  /** The furthest occurrence the log ever held, which a run resumes from. */
  ghost function FurthestOf(oplog: Log, ruleId: string): (furthest: Option<Date>)
    ensures IsFurthest(oplog, ruleId, furthest)
  {
    FurthestExists(oplog, ruleId);
    var furthest :| IsFurthest(oplog, ruleId, furthest);
    furthest
  }

  /** What a run makes next, in order: what is due past the furthest occurrence. */
  ghost function NextFor(oplog: Log, rule: RecurringRule, asOf: Date): seq<Date> {
    if rule.schedule.interval < 1 then [] else Scan(rule.schedule, asOf, FurthestOf(oplog, rule.id), 0)
  }

  lemma SameHistorySameNext(before: Log, after: Log, rule: RecurringRule, asOf: Date)
    requires forall d: Date :: HasOccurrence(after, rule.id, d) <==> HasOccurrence(before, rule.id, d)
    ensures NextFor(after, rule, asOf) == NextFor(before, rule, asOf)
  {
    hide HasOccurrence, NotAfter, Scan;
    FurthestIsUnique(after, rule.id, FurthestOf(before, rule.id), FurthestOf(after, rule.id));
  }

  /** It is ascending, and consists of the due dates past the furthest, which are all new. */
  lemma NextIs(oplog: Log, rule: RecurringRule, asOf: Date)
    ensures DatesAscend(NextFor(oplog, rule, asOf))
    ensures var furthest := FurthestOf(oplog, rule.id);
            forall d :: d in NextFor(oplog, rule, asOf) <==>
              d in FullSchedule(rule.schedule, asOf) && (furthest.Some? ==> !NotAfter(d, furthest.value))
    ensures forall d :: d in NextFor(oplog, rule, asOf) ==> !HasOccurrence(oplog, rule.id, d)
  {
    hide HasOccurrence, NotAfter, Scan;
    var furthest, all := FurthestOf(oplog, rule.id), FullSchedule(rule.schedule, asOf);
    FullScheduleAscends(rule.schedule, asOf);
    if rule.schedule.interval >= 1 && furthest.Some? {
      ScanAfter(rule.schedule, asOf, furthest.value, 0);
      LaterOf(all, furthest.value);
    }
  }

  lemma {:induction false} LaterOf(xs: seq<Date>, after: Date)
    ensures forall d :: d in Later(xs, after) <==> d in xs && !NotAfter(d, after)
    ensures DatesAscend(xs) ==> DatesAscend(Later(xs, after))
  {
    hide NotAfter, Earlier;
    if xs != [] {
      LaterOf(xs[1..], after);
      assert xs == [xs[0]] + xs[1..];
      if DatesAscend(xs) {
        forall d | d in Later(xs[1..], after) ensures Earlier(xs[0], d) {
          var k :| 0 <= k < |xs[1..]| && xs[1..][k] == d;
          assert Earlier(xs[0], xs[k + 1]);
        }
      }
    }
  }

  // What is missing, as a list

  lemma {:induction false} MissingIsSublist(oplog: Log, ruleId: string, dates: seq<Date>)
    ensures forall d :: d in Missing(oplog, ruleId, dates) <==> d in dates && !HasOccurrence(oplog, ruleId, d)
    ensures DatesAscend(dates) ==> DatesAscend(Missing(oplog, ruleId, dates))
  {
    hide HasOccurrence;
    if dates != [] {
      assert dates == [dates[0]] + dates[1..];
      MissingIsSublist(oplog, ruleId, dates[1..]);
      if DatesAscend(dates) {
        forall d | d in Missing(oplog, ruleId, dates[1..]) ensures Earlier(dates[0], d) {
          var k :| 0 <= k < |dates[1..]| && dates[1..][k] == d;
          assert Earlier(dates[0], dates[k + 1]);
        }
      }
    }
  }

  lemma FullScheduleAscends(s: Schedule, asOf: Date)
    ensures DatesAscend(FullSchedule(s, asOf))
  {
    if s.interval >= 1 { ScheduleIsExact(s, asOf); }
  }

  /** Dates that ascend are determined by which dates they are. */
  lemma {:induction false} DatesAreUnique(xs: seq<Date>, ys: seq<Date>)
    requires DatesAscend(xs) && DatesAscend(ys)
    requires forall d :: d in xs <==> d in ys
    ensures xs == ys
  {
    assert xs != [] ==> xs[0] in ys;
    assert ys != [] ==> ys[0] in xs;
    if xs != [] {
      assert xs[0] == ys[0];
      assert xs == [xs[0]] + xs[1..] && ys == [ys[0]] + ys[1..];
      forall d ensures d in xs[1..] <==> d in ys[1..] {
        NotAgain(xs, d);
        NotAgain(ys, d);
      }
      DatesAreUnique(xs[1..], ys[1..]);
    }
  }

  lemma NotAgain(xs: seq<Date>, d: Date)
    requires DatesAscend(xs) && xs != []
    ensures d in xs[1..] <==> d in xs && d != xs[0]
  {
    assert xs == [xs[0]] + xs[1..];
    if d in xs[1..] {
      var k :| 0 <= k < |xs[1..]| && xs[1..][k] == d;
      assert Earlier(xs[0], xs[k + 1]);
    }
  }

  /** Dropping the first `n`. */
  function Drop<T>(n: nat, xs: seq<T>): seq<T> {
    if |xs| <= n then [] else xs[n..]
  }

  lemma TakeAndDrop(xs: seq<Date>, n: nat)
    requires DatesAscend(xs)
    ensures xs == Take(n, xs) + Drop(n, xs)
    ensures DatesAscend(Take(n, xs)) && DatesAscend(Drop(n, xs))
    ensures forall d :: d in xs <==> d in Take(n, xs) || d in Drop(n, xs)
    ensures forall d :: d in Drop(n, xs) ==> d !in Take(n, xs)
  {
    hide Earlier;
    assert xs == Take(n, xs) + Drop(n, xs);
    forall i, j | 0 <= i < |Take(n, xs)| && 0 <= j < |Drop(n, xs)| ensures Take(n, xs)[i] != Drop(n, xs)[j] {
      NotEarlierThanItself(xs, i, n + j);
    }
  }

  lemma NotEarlierThanItself(xs: seq<Date>, i: nat, j: nat)
    requires DatesAscend(xs) && i < j < |xs|
    ensures xs[i] != xs[j]
  {
  }

  // The date the catch-up resumes from

  /** Where the resume date splits the schedule as the log does, scanning past it finds what is missing. */
  lemma {:induction false} LaterIsMissing(oplog: Log, ruleId: string, xs: seq<Date>, after: Date)
    requires forall d :: d in xs ==> (NotAfter(d, after) <==> HasOccurrence(oplog, ruleId, d))
    ensures Later(xs, after) == Missing(oplog, ruleId, xs)
  {
    if xs != [] {
      assert xs[0] in xs;
      LaterIsMissing(oplog, ruleId, xs[1..], after);
    }
  }

  lemma ScheduledWhenListed(s: Schedule, asOf: Date, d: Date)
    requires d in FullSchedule(s, asOf)
    ensures s.interval >= 1 && Scheduled(s, d) && NotAfter(d, asOf) && NotAfter(s.startDate, d)
  {
    hide OccurrenceAt, WithinLimits, Scan;
    ScheduleIsExact(s, asOf);
    var i :| Due(s, asOf, i) && OccurrenceAt(s, i) == d;
    OccurrenceZero(s);
    if i > 0 { OccurrencesAscend(s, 0, i); }
  }

  lemma OccurrenceZero(s: Schedule)
    ensures OccurrenceAt(s, 0) == s.startDate
  {
    AddDaysIsAnAction(s.startDate, 0, 0);
    AddMonthsLands(s.startDate, 0, 0);
  }

  /** Every date due up to the resume date has history. */
  ghost predicate FilledUpTo(oplog: Log, rule: RecurringRule, asOf: Date, after: Option<Date>) {
    after.Some? ==>
      forall d :: d in FullSchedule(rule.schedule, asOf) && NotAfter(d, after.value) ==>
                         HasOccurrence(oplog, rule.id, d)
  }

  /**
   Resuming from the furthest logged occurrence finds exactly what was never logged if and only
   if everything due up to there has history: no date up to there is ever found again.
   */
  lemma ResumeIsExact(oplog: Log, rule: RecurringRule, asOf: Date, after: Option<Date>)
    requires rule.schedule.interval >= 1
    requires forall d: Date :: HasOccurrence(oplog, rule.id, d) ==> after.Some? && NotAfter(d, after.value)
    ensures Scan(rule.schedule, asOf, after, 0) == Missing(oplog, rule.id, FullSchedule(rule.schedule, asOf))
            <==> FilledUpTo(oplog, rule, asOf, after)
    ensures after.Some? ==> forall d :: NotAfter(d, after.value) ==> d !in Scan(rule.schedule, asOf, after, 0)
  {
    hide HasOccurrence, NotAfter, Scan;
    var all := FullSchedule(rule.schedule, asOf);
    if after.None? {
      NoneLogged(oplog, rule.id, all);
    } else {
      ScanAfter(rule.schedule, asOf, after.value, 0);
      LaterIsAfter(all, after.value);
      MissingIsSublist(oplog, rule.id, all);
      if FilledUpTo(oplog, rule, asOf, after) { LaterIsMissing(oplog, rule.id, all, after.value); }
    }
  }

  lemma {:induction false} LaterIsAfter(xs: seq<Date>, after: Date)
    ensures forall d :: d in Later(xs, after) ==> !NotAfter(d, after)
  {
    if xs != [] { LaterIsAfter(xs[1..], after); }
  }

  /** A rule without gaps is to make next exactly what is missing. */
  lemma ResumeFindsMissing(oplog: Log, rule: RecurringRule, asOf: Date)
    requires NoGap(oplog, rule)
    ensures NextFor(oplog, rule, asOf) == Missing(oplog, rule.id, FullSchedule(rule.schedule, asOf))
  {
    hide HasOccurrence, Scheduled, NotAfter, Scan;
    if rule.schedule.interval >= 1 {
      var furthest := FurthestOf(oplog, rule.id);
      ResumeIsExact(oplog, rule, asOf, furthest);
      forall d | d in FullSchedule(rule.schedule, asOf) && furthest.Some? && NotAfter(d, furthest.value)
        ensures HasOccurrence(oplog, rule.id, d)
      {
        ScheduledWhenListed(rule.schedule, asOf, d);
      }
    }
  }

  /** A due date behind the furthest occurrence that has no history stays missing: no scan returns it. */
  lemma GapIsLost(oplog: Log, rule: RecurringRule, asOf: Date, d: Date, furthest: Date)
    requires HasOccurrence(oplog, rule.id, furthest)
    requires forall e: Date :: HasOccurrence(oplog, rule.id, e) ==> NotAfter(e, furthest)
    requires d in FullSchedule(rule.schedule, asOf) && NotAfter(d, furthest) && !HasOccurrence(oplog, rule.id, d)
    ensures !NoGap(oplog, rule) && d in Missing(oplog, rule.id, FullSchedule(rule.schedule, asOf))
    ensures d !in Scan(rule.schedule, asOf, Some(furthest), 0)
  {
    hide Scan, FullSchedule, Scheduled, HasOccurrence, NotAfter, Missing;
    ScheduledWhenListed(rule.schedule, asOf, d);
    MissingIsSublist(oplog, rule.id, FullSchedule(rule.schedule, asOf));
    ResumeIsExact(oplog, rule, asOf, Some(furthest));
  }

  /** A monthly rent whose first payment is in the log, and the same rule moved to start earlier. */
  function MonthlyRule(startDate: Date): RecurringRule {
    RecurringRule("rent", "Rent", Expense, 100_000, "EUR", "bank", None, None, "", "", [],
                  Schedule(1, Month, startDate, None, None, []), false)
  }

  ghost function OnePayment(date: Date, stamp: Stamp): Log
    requires FourDigitYear(date)
  {
    var row := Row(OccurrenceId("rent", date), stamp, TransactionContent(ToTransaction(MonthlyRule(date), date, 0)));
    map[stamp := LogEntry(Operation(stamp, OccurrenceKey("rent", date), PutOp, Some(row), "a"), true)]
  }

  /**
   A concrete gap. The rule that logged 15 January is ready. Moved to start on 15 November it is
   due then, has no history there, and no run at any date will scan that date again.
   */
  lemma MovedStartLeavesAGap(stamp: Stamp, asOf: Date)
    requires NotAfter(Ymd(2024, 1, 15), asOf)
    ensures RuleReady(OnePayment(Ymd(2024, 1, 15), stamp), MonthlyRule(Ymd(2024, 1, 15)))
    ensures var november: Date, oplog := Ymd(2023, 11, 15), OnePayment(Ymd(2024, 1, 15), stamp);
            var rule := MonthlyRule(november);
            && !NoGap(oplog, rule)
            && november in Missing(oplog, rule.id, FullSchedule(rule.schedule, asOf))
            && november !in Scan(rule.schedule, asOf, Some(Ymd(2024, 1, 15)), 0)
  {
    hide Scan, FullSchedule, Scheduled, HasOccurrence, OwnPrefix, OnePayment, NoGap, Missing;
    var january: Date, november: Date := Ymd(2024, 1, 15), Ymd(2023, 11, 15);
    var oplog, rule := OnePayment(january, stamp), MonthlyRule(november);
    OnlyThatPayment(january, stamp);
    FirstIsDue(rule.schedule, asOf);
    GapIsLost(oplog, rule, asOf, november, january);
    NothingBeforeTheStart(oplog, MonthlyRule(january));
  }

  lemma OnlyThatPayment(date: Date, stamp: Stamp)
    requires FourDigitYear(date)
    ensures forall d: Date :: HasOccurrence(OnePayment(date, stamp), "rent", d) <==> d == date
    ensures OwnPrefix(OnePayment(date, stamp), "rent")
  {
    var oplog := OnePayment(date, stamp);
    assert oplog[stamp].op.key == OccurrenceKey("rent", date);
    forall d: Date | HasOccurrence(oplog, "rent", d) ensures d == date {
      OccurrenceIdFaithful("rent", d, date);
    }
  }

  /** The start is scheduled and due from its own date on, unless it is skipped or out of bounds. */
  lemma FirstIsDue(s: Schedule, asOf: Date)
    requires s.interval >= 1 && s.startDate !in s.skipped && NotAfter(s.startDate, asOf)
    requires s.maxOccurrences.None? && s.endDate.None?
    ensures s.startDate in FullSchedule(s, asOf) && Scheduled(s, s.startDate)
  {
    OccurrenceZero(s);
    assert Due(s, asOf, 0);
    ScheduleIsExact(s, asOf);
  }

  /** A rule whose only history is its start has no gap. */
  lemma NothingBeforeTheStart(oplog: Log, rule: RecurringRule)
    requires rule.schedule.interval >= 1
    requires forall d: Date :: HasOccurrence(oplog, rule.id, d) ==> d == rule.schedule.startDate
    ensures HasOccurrence(oplog, rule.id, rule.schedule.startDate) ==> NoGap(oplog, rule)
  {
    hide HasOccurrence, OccurrenceAt, WithinLimits;
    forall d: Date | Scheduled(rule.schedule, d) ensures NotAfter(rule.schedule.startDate, d) {
      var i :| 0 <= i < MAX_SCAN && OccurrenceAt(rule.schedule, i) == d && WithinLimits(rule.schedule, i, d);
      OccurrenceZero(rule.schedule);
      if i > 0 { OccurrencesAscend(rule.schedule, 0, i); }
    }
  }

  // A ready rule's history is a beginning of its schedule

  /** While what is missing is a tail of the schedule, what is logged of it is the matching beginning. */
  lemma TailMissing(oplog: Log, rule: RecurringRule, asOf: Date, n: nat)
    requires MissingFrom(oplog, rule, asOf, n)
    ensures forall d :: d in FullSchedule(rule.schedule, asOf) ==>
                          (HasOccurrence(oplog, rule.id, d) <==> d in Take(n, FullSchedule(rule.schedule, asOf)))
  {
    hide HasOccurrence, Missing, Take, Drop, FullSchedule;
    var all := FullSchedule(rule.schedule, asOf);
    MissingIsSublist(oplog, rule.id, all);
    FullScheduleAscends(rule.schedule, asOf);
    TakeAndDrop(all, n);
  }

  ghost predicate MissingFrom(oplog: Log, rule: RecurringRule, asOf: Date, n: nat) {
    Missing(oplog, rule.id, FullSchedule(rule.schedule, asOf)) == Drop(n, FullSchedule(rule.schedule, asOf))
  }

  /**
   Of a rule without gaps the log holds, at every date, exactly a beginning of the schedule;
   its length is what is due less what is missing.
   */
  lemma LoggedIsAPrefix(oplog: Log, rule: RecurringRule, asOf: Date)
    requires NoGap(oplog, rule)
    ensures var all := FullSchedule(rule.schedule, asOf);
            var n := |all| - |Missing(oplog, rule.id, all)|;
            && 0 <= n && MissingFrom(oplog, rule, asOf, n)
            && forall d :: d in all ==> (HasOccurrence(oplog, rule.id, d) <==> d in Take(n, all))
  {
    hide HasOccurrence, Take, Drop, FullSchedule, Scheduled;
    var all := FullSchedule(rule.schedule, asOf);
    var missing := Missing(oplog, rule.id, all);
    FullScheduleAscends(rule.schedule, asOf);
    forall d, f | d in all && f in all && NotAfter(d, f) && HasOccurrence(oplog, rule.id, f)
      ensures HasOccurrence(oplog, rule.id, d)
    {
      ScheduledWhenListed(rule.schedule, asOf, d);
    }
    MissingIsTail(oplog, rule.id, all);
    TailMissing(oplog, rule, asOf, |all| - |missing|);
  }

  lemma {:induction false} MissingIsTail(oplog: Log, ruleId: string, dates: seq<Date>)
    requires DatesAscend(dates)
    requires forall d, f :: d in dates && f in dates && NotAfter(d, f) && HasOccurrence(oplog, ruleId, f) ==>
                              HasOccurrence(oplog, ruleId, d)
    ensures |Missing(oplog, ruleId, dates)| <= |dates|
    ensures Missing(oplog, ruleId, dates) == Drop(|dates| - |Missing(oplog, ruleId, dates)|, dates)
  {
    hide HasOccurrence;
    if dates != [] {
      assert dates == [dates[0]] + dates[1..];
      if HasOccurrence(oplog, ruleId, dates[0]) {
        MissingIsTail(oplog, ruleId, dates[1..]);
      } else {
        forall d | d in dates ensures !HasOccurrence(oplog, ruleId, d) {
          var k :| 0 <= k < |dates| && dates[k] == d;
          assert k == 0 || Earlier(dates[0], dates[k]);
          assert dates[0] in dates && NotAfter(dates[0], d);
        }
        NoneLogged(oplog, ruleId, dates);
      }
    }
  }

  // How history grows

  ghost predicate HistoryKept(before: Log, after: Log) {
    forall k :: EverLogged(before, k) ==> EverLogged(after, k)
  }

  ghost predicate HistoryGrew(before: Log, after: Log, ruleId: string, dates: seq<Date>) {
    && HistoryKept(before, after)
    && (forall k :: EverLogged(after, k) && !EverLogged(before, k) ==> IsOccurrenceIn(k, ruleId, dates))
    && (forall d :: d in dates ==> HasOccurrence(after, ruleId, d))
  }

  ghost predicate IsOccurrenceIn(key: Key, ruleId: string, dates: seq<Date>) {
    exists d :: d in dates && FourDigitYear(d) && key == OccurrenceKey(ruleId, d)
  }

  lemma GrownOccurrences(before: Log, after: Log, ruleId: string, dates: seq<Date>)
    requires ruleId != "" && HistoryGrew(before, after, ruleId, dates)
    ensures MadeExactly(before, after, ruleId, dates)
  {
    hide EverLogged;
    forall d: Date | HasOccurrence(after, ruleId, d) && !HasOccurrence(before, ruleId, d) ensures d in dates {
      var e :| e in dates && FourDigitYear(e) && OccurrenceKey(ruleId, d) == OccurrenceKey(ruleId, e);
      OccurrenceIdFaithful(ruleId, d, e);
    }
  }

  lemma HistoryGrowsByOne(before: Log, mid: Log, after: Log, ruleId: string, dates: seq<Date>, d: Date)
    requires FourDigitYear(d) && HistoryGrew(before, mid, ruleId, dates)
    requires forall k :: EverLogged(after, k) <==> EverLogged(mid, k) || k == OccurrenceKey(ruleId, d)
    ensures HistoryGrew(before, after, ruleId, dates + [d])
  {
    hide EverLogged;
    forall k | EverLogged(after, k) && !EverLogged(before, k) ensures IsOccurrenceIn(k, ruleId, dates + [d]) {
      if EverLogged(mid, k) {
        var e :| e in dates && FourDigitYear(e) && k == OccurrenceKey(ruleId, e);
        assert e in dates + [d];
      } else {
        assert d in dates + [d];
      }
    }
  }

  /** The history of a rule gained exactly these dates. */
  ghost predicate MadeExactly(before: Log, after: Log, ruleId: string, dates: seq<Date>) {
    forall d: Date :: HasOccurrence(after, ruleId, d) <==> HasOccurrence(before, ruleId, d) || d in dates
  }

  /** Making the next dates in order, however many of them, leaves no gap where there was none. */
  lemma StillNoGap(before: Log, after: Log, rule: RecurringRule, asOf: Date, n: nat)
    requires NoGap(before, rule) && MadeExactly(before, after, rule.id, Take(n, NextFor(before, rule, asOf)))
    ensures NoGap(after, rule)
  {
    hide HasOccurrence, NextFor, Take;
    forall d: Date, f: Date | HasOccurrence(after, rule.id, f) && Scheduled(rule.schedule, d) && NotAfter(d, f)
      ensures HasOccurrence(after, rule.id, d)
    {
      if !HasOccurrence(before, rule.id, f) && !HasOccurrence(before, rule.id, d) {
        EarlierIsTaken(before, rule, asOf, n, d, f);
      }
    }
  }

  /** A scheduled, unlogged date up to one of the next `n` is itself among them, if there is no gap. */
  lemma EarlierIsTaken(oplog: Log, rule: RecurringRule, asOf: Date, n: nat, d: Date, f: Date)
    requires NoGap(oplog, rule)
    requires Scheduled(rule.schedule, d) && !HasOccurrence(oplog, rule.id, d) && NotAfter(d, f)
    requires f in Take(n, NextFor(oplog, rule, asOf))
    ensures d in Take(n, NextFor(oplog, rule, asOf))
  {
    hide HasOccurrence, FullSchedule, Scheduled, NextFor, NotAfter;
    var next := NextFor(oplog, rule, asOf);
    NextIs(oplog, rule, asOf);
    TakeAndDrop(next, n);
    assert f in next && f in FullSchedule(rule.schedule, asOf);
    EarlierScheduledIsListed(rule.schedule, asOf, d, f);
    EarlierNextIsTaken(next, n, d, f);
  }

  /** Making the next `n` due by a date leaves the rest next, at that date and at every earlier one. */
  lemma NextAfter(before: Log, after: Log, rule: RecurringRule, date: Date, asOf: Date, n: nat)
    requires NotAfter(date, asOf)
    requires MadeExactly(before, after, rule.id, Take(n, NextFor(before, rule, asOf)))
    ensures NextFor(after, rule, date) == Drop(n, NextFor(before, rule, date))
  {
    hide HasOccurrence, Take, FullSchedule, NotAfter, DatesAscend, NextFor;
    var next, early := NextFor(before, rule, asOf), NextFor(before, rule, date);
    NextIs(before, rule, asOf);
    NextIs(before, rule, date);
    NextIs(after, rule, date);
    NextExtends(before, rule, date, asOf);
    TakeAndDrop(early, n);
    if Take(n, next) == [] {
      SameHistorySameNext(before, after, rule, date);
      NothingTaken(next, early, n);
    } else {
      var last := Take(n, next)[|Take(n, next)| - 1];
      FurthestAfter(before, after, rule, asOf, n);
      FurthestIsUnique(after, rule.id, FurthestOf(after, rule.id), Some(last));
      PastTheTaken(next, early, n);
      NextMovesOn(before, after, rule, asOf, date, n);
      DatesAreUnique(NextFor(after, rule, date), Drop(n, early));
    }
  }

  /** What is next by an earlier date is a beginning of it. */
  lemma NextExtends(oplog: Log, rule: RecurringRule, date: Date, asOf: Date)
    requires NotAfter(date, asOf)
    ensures NextFor(oplog, rule, date) <= NextFor(oplog, rule, asOf)
  {
    hide NotAfter, Scan;
    if rule.schedule.interval >= 1 {
      ScanExtends(rule.schedule, date, asOf, FurthestOf(oplog, rule.id), 0);
    }
  }

  lemma NothingTaken(next: seq<Date>, early: seq<Date>, n: nat)
    requires early <= next && Take(n, next) == []
    ensures Drop(n, early) == early
  {
  }

  /** The last of what was made is the furthest occurrence then. */
  lemma FurthestAfter(before: Log, after: Log, rule: RecurringRule, asOf: Date, n: nat)
    requires MadeExactly(before, after, rule.id, Take(n, NextFor(before, rule, asOf)))
    requires Take(n, NextFor(before, rule, asOf)) != []
    ensures var made := Take(n, NextFor(before, rule, asOf));
            IsFurthest(after, rule.id, Some(made[|made| - 1])) && made[|made| - 1] in NextFor(before, rule, asOf)
  {
    hide HasOccurrence, NextFor, FullSchedule, Earlier;
    var next := NextFor(before, rule, asOf);
    var made := Take(n, next);
    var last := made[|made| - 1];
    NextIs(before, rule, asOf);
    assert last in made && last == next[|made| - 1] && last in next;
    forall d: Date | HasOccurrence(after, rule.id, d) ensures NotAfter(d, last) {
      if d in made {
        var k :| 0 <= k < |made| && made[k] == d;
        AscendingNotAfter(next, k, |made| - 1);
      } else {
        NotAfterThrough(d, FurthestOf(before, rule.id).value, last);
      }
    }
  }

  lemma AscendingNotAfter(xs: seq<Date>, i: nat, j: nat)
    requires DatesAscend(xs) && i <= j < |xs|
    ensures NotAfter(xs[i], xs[j]) && (i < j ==> !NotAfter(xs[j], xs[i]))
  {
    if i < j { assert Earlier(xs[i], xs[j]); }
  }

  lemma NotAfterThrough(d: Date, furthest: Date, last: Date)
    requires NotAfter(d, furthest) && !NotAfter(last, furthest)
    ensures NotAfter(d, last) && !NotAfter(last, d)
  {
  }

  /** Past the last date taken from a list there is, of any beginning of it, what dropping as many leaves. */
  lemma PastTheTaken(next: seq<Date>, early: seq<Date>, n: nat)
    requires DatesAscend(next) && early <= next && Take(n, next) != []
    ensures var last := Take(n, next)[|Take(n, next)| - 1];
            forall d :: d in early ==> (!NotAfter(d, last) <==> d in Drop(n, early))
  {
    hide Earlier, NotAfter, DatesAscend;
    var m := |Take(n, next)| - 1;
    assert Take(n, next)[m] == next[m];
    forall k | 0 <= k < |early| ensures !NotAfter(early[k], next[m]) <==> early[k] in Drop(n, early) {
      AscendingNotAfter(next, if k <= m then k else m, if k <= m then m else k);
      if k >= n {
        assert Drop(n, early)[k - n] == early[k];
      } else if early[k] in Drop(n, early) {
        var j :| 0 <= j < |Drop(n, early)| && Drop(n, early)[j] == early[k];
        AscendingNotAfter(next, k, n + j);
      }
    }
  }

  lemma NextMovesOn(before: Log, after: Log, rule: RecurringRule, asOf: Date, date: Date, n: nat)
    requires NotAfter(date, asOf) && Take(n, NextFor(before, rule, asOf)) != []
    requires var made := Take(n, NextFor(before, rule, asOf));
             FurthestOf(after, rule.id) == Some(made[|made| - 1])
    requires var made, early := Take(n, NextFor(before, rule, asOf)), NextFor(before, rule, date);
             forall d :: d in early ==> (!NotAfter(d, made[|made| - 1]) <==> d in Drop(n, early))
    ensures forall d :: d in NextFor(after, rule, date) <==> d in Drop(n, NextFor(before, rule, date))
  {
    hide HasOccurrence, NextFor, FullSchedule, Take;
    var made, early := Take(n, NextFor(before, rule, asOf)), NextFor(before, rule, date);
    var last := made[|made| - 1];
    NextIs(before, rule, asOf);
    NextIs(before, rule, date);
    NextIs(after, rule, date);
    TakeAndDrop(early, n);
    TakeAndDrop(NextFor(before, rule, asOf), n);
    assert last in made;
    forall d | d in NextFor(after, rule, date) ensures d in early {
      if FurthestOf(before, rule.id).Some? && NotAfter(d, FurthestOf(before, rule.id).value) {
        NotAfterThrough(d, FurthestOf(before, rule.id).value, last);
      }
    }
  }

  lemma EarlierScheduledIsListed(s: Schedule, asOf: Date, d: Date, f: Date)
    requires Scheduled(s, d) && f in FullSchedule(s, asOf) && NotAfter(d, f)
    ensures d in FullSchedule(s, asOf)
  {
    hide OccurrenceAt, WithinLimits, Scan;
    ScheduledWhenListed(s, asOf, f);
    ScheduleIsExact(s, asOf);
    var i :| 0 <= i < MAX_SCAN && OccurrenceAt(s, i) == d && WithinLimits(s, i, d);
    assert Due(s, asOf, i);
  }

  lemma EarlierNextIsTaken(missing: seq<Date>, n: nat, d: Date, f: Date)
    requires DatesAscend(missing) && d in missing && f in Take(n, missing) && NotAfter(d, f)
    ensures d in Take(n, missing)
  {
    var i :| 0 <= i < |missing| && missing[i] == d;
    var j :| 0 <= j < |Take(n, missing)| && Take(n, missing)[j] == f;
    if j < i { assert Earlier(missing[j], missing[i]); }
    assert Take(n, missing)[i] == d;
  }

  /** Another rule's occurrences never fall in this rule's prefix range. */
  lemma OwnPrefixGrows(before: Log, after: Log, ruleId: string, otherId: string, dates: seq<Date>)
    requires CleanId(ruleId) && CleanId(otherId) && OwnPrefix(before, ruleId)
    requires HistoryGrew(before, after, otherId, dates)
    ensures OwnPrefix(after, ruleId)
  {
    hide CleanId, InPrefixRange, EverLogged, HasOccurrence, LoggedIds;
    forall id | id in LoggedIds(after, Transactions) && InPrefixRange(id, ruleId + ":")
      ensures exists d: Date :: FourDigitYear(d) && id == OccurrenceId(ruleId, d)
    {
      LoggedIdOf(after, Transactions, id);
      LoggedIdOf(before, Transactions, id);
      if !EverLogged(before, Key(Transactions, id)) {
        var d: Date :| d in dates && FourDigitYear(d) && Key(Transactions, id) == OccurrenceKey(otherId, d);
        PrefixNamesRule(ruleId, otherId, d);
      }
    }
  }

  lemma PrefixNamesRule(ruleId: string, otherId: string, d: Date)
    requires CleanId(ruleId) && CleanId(otherId) && FourDigitYear(d)
    requires InPrefixRange(OccurrenceId(otherId, d), ruleId + ":")
    ensures ruleId == otherId
  {
    hide InPrefixRange, FormatDate, OneLine;
    var id := OccurrenceId(otherId, d);
    DateTextIsLow(d);
    assert forall i :: 0 <= i < |id| ==> id[i] < '\U{FFFF}';
    RangeIsPrefix(id, ruleId + ":");
    assert id == otherId + ":" + FormatDate(d);
    SameBeforeColon(ruleId, otherId, FormatDate(d));
  }

  lemma DateTextIsLow(d: Date)
    requires FourDigitYear(d)
    ensures forall i :: 0 <= i < |FormatDate(d)| ==> FormatDate(d)[i] < '\U{FFFF}'
  {
    ParseFormat(d);
    var text := FormatDate(d);
    assert text == text[..4] + [text[4]] + text[5..7] + [text[7]] + text[8..];
  }

  /** Where neither has a colon, what stands before the first one is determined. */
  lemma SameBeforeColon(a: string, b: string, text: string)
    requires ':' !in a && ':' !in b && a + ":" <= b + ":" + text
    ensures a == b
  {
    var whole := b + ":" + text;
    assert whole[|a|] == (a + ":")[|a|] == ':' && whole[|b|] == ':';
    assert forall i :: 0 <= i < |a| ==> whole[i] == (a + ":")[i] == a[i] && a[i] in a;
    assert forall i :: 0 <= i < |b| ==> whole[i] == b[i] && b[i] in b;
    assert |a| == |b|;
    assert a == whole[..|a|] && b == whole[..|b|];
  }

  lemma OtherRuleHistory(before: Log, after: Log, ruleId: string, otherId: string, done: seq<Date>)
    requires HistoryGrew(before, after, ruleId, done) && ruleId != otherId
    ensures forall d: Date :: HasOccurrence(after, otherId, d) <==> HasOccurrence(before, otherId, d)
  {
    hide EverLogged;
    forall d: Date | HasOccurrence(after, otherId, d) ensures HasOccurrence(before, otherId, d) {
      if !EverLogged(before, OccurrenceKey(otherId, d)) {
        var e: Date :| e in done && FourDigitYear(e) && OccurrenceKey(otherId, d) == OccurrenceKey(ruleId, e);
        IdNamesRule(otherId, d, ruleId, e);
      }
    }
  }

  lemma IdNamesRule(a: string, d: Date, b: string, e: Date)
    requires FourDigitYear(d) && FourDigitYear(e) && OccurrenceId(a, d) == OccurrenceId(b, e)
    ensures a == b
  {
    ParseFormat(d);
    ParseFormat(e);
    assert OccurrenceId(a, d)[..|a|] == a && OccurrenceId(b, e)[..|b|] == b;
  }

  /** Whatever else is logged, a rule stands as the occurrences of its own prefix say. */
  lemma SameHistoryStays(before: Log, after: Log, rule: RecurringRule)
    requires RuleNamed(before, rule)
    requires forall id :: InPrefixRange(id, rule.id + ":") ==>
                            (EverLogged(after, Key(Transactions, id)) <==> EverLogged(before, Key(Transactions, id)))
    ensures RuleNamed(after, rule) && MadeExactly(before, after, rule.id, [])
    ensures NoGap(before, rule) ==> NoGap(after, rule)
  {
    hide EverLogged, InPrefixRange, LoggedIds, Scheduled, Earlier;
    forall d: Date ensures HasOccurrence(after, rule.id, d) <==> HasOccurrence(before, rule.id, d) {
      if FourDigitYear(d) { OccurrenceInRange(rule.id, d); }
    }
    forall id | InPrefixRange(id, rule.id + ":")
      ensures id in LoggedIds(after, Transactions) <==> id in LoggedIds(before, Transactions)
    {
      LoggedIdOf(after, Transactions, id);
      LoggedIdOf(before, Transactions, id);
    }
  }

  // Finding the furthest occurrence

  /** Ids of one rule sort by date, so the highest id in the prefix range is the furthest occurrence. */
  lemma FurthestIsLatest(oplog: Log, rule: RecurringRule, furthest: Option<string>)
    requires RuleNamed(oplog, rule)
    requires furthest.None? <==>
             forall id :: id in LoggedIds(oplog, Transactions) ==> !InPrefixRange(id, rule.id + ":")
    requires furthest.Some? ==>
               furthest.value in LoggedIds(oplog, Transactions) && InPrefixRange(furthest.value, rule.id + ":")
    requires furthest.Some? ==>
               forall id :: id in LoggedIds(oplog, Transactions) && InPrefixRange(id, rule.id + ":") ==>
                              !Less(furthest.value, id)
    ensures furthest.Some? ==>
              exists f: Date :: NamesOccurrence(oplog, rule.id, furthest.value, f)
    ensures forall d: Date :: HasOccurrence(oplog, rule.id, d) ==>
              furthest.Some? && !Less(furthest.value, OccurrenceId(rule.id, d))
  {
    hide Less, InPrefixRange, EverLogged, LoggedIds;
    forall d: Date | HasOccurrence(oplog, rule.id, d)
      ensures OccurrenceId(rule.id, d) in LoggedIds(oplog, Transactions)
      ensures InPrefixRange(OccurrenceId(rule.id, d), rule.id + ":")
    {
      OccurrenceInRange(rule.id, d);
      LoggedIdOf(oplog, Transactions, OccurrenceId(rule.id, d));
    }
    if furthest.Some? {
      var f: Date :| FourDigitYear(f) && furthest.value == OccurrenceId(rule.id, f);
      OccurrenceIdFaithful(rule.id, f, f);
      LoggedIdOf(oplog, Transactions, furthest.value);
      assert NamesOccurrence(oplog, rule.id, furthest.value, f);
    }
  }

  ghost predicate NamesOccurrence(oplog: Log, ruleId: string, id: string, f: Date) {
    && HasOccurrence(oplog, ruleId, f) && id == OccurrenceId(ruleId, f)
    && ParseOccurrenceId(id) == AnOccurrence(ruleId, f)
  }

  lemma FurthestDate(oplog: Log, rule: RecurringRule, furthest: string, f: Date)
    requires FourDigitYear(f) && furthest == OccurrenceId(rule.id, f)
    requires forall d: Date :: HasOccurrence(oplog, rule.id, d) ==> !Less(furthest, OccurrenceId(rule.id, d))
    ensures forall d: Date :: HasOccurrence(oplog, rule.id, d) ==> NotAfter(d, f)
  {
    hide Less, EverLogged;
    forall d: Date | HasOccurrence(oplog, rule.id, d) ensures NotAfter(d, f) {
      OccurrenceIdFaithful(rule.id, f, d);
    }
  }

  /** What is next is due by `asOf` and not before the start, so its ids have four-digit years. */
  lemma NextHaveIds(oplog: Log, rule: RecurringRule, asOf: Date)
    requires FourDigitYear(rule.schedule.startDate) && FourDigitYear(asOf)
    ensures forall d :: d in NextFor(oplog, rule, asOf) ==> FourDigitYear(d) && !HasOccurrence(oplog, rule.id, d)
  {
    hide HasOccurrence, Scheduled, NextFor, Scan;
    NextIs(oplog, rule, asOf);
    forall d | d in NextFor(oplog, rule, asOf) ensures FourDigitYear(d) {
      ScheduledWhenListed(rule.schedule, asOf, d);
    }
  }
}
