/**
 Turning recurring rules into transactions. What a rule has produced is read from the
 log, where deletions stay, and never from the table; each run is bounded and resumes
 past the furthest occurrence ever logged.
 */
module Materialisers {
  import opened Orders
  import opened Text
  import opened Calendar
  import opened Hlc
  import opened Domain
  import opened Oplog
  import opened Ledgers
  import opened LedgerServices
  import opened Schedules
  import opened Histories

  // One write

  ghost predicate LedgerOk(l: Ledger) {
    LedgerInv(l, LogOps(l.db.oplog)) && KeyedByStamp(l.db.oplog)
  }

  ghost predicate SameRow(before: Db, after: Db, key: Key) {
    (key in after.tables <==> key in before.tables) && (key in after.tables ==> after.tables[key] == before.tables[key])
  }

  /** A write to one key: its history and its row change, nothing else does. */
  ghost predicate WroteRow(before: Db, after: Db, key: Key, content: Option<Content>) {
    && (forall k :: EverLogged(after.oplog, k) <==> EverLogged(before.oplog, k) || k == key)
    && (forall k :: k != key ==> SameRow(before, after, k))
    && (content.Some? ==> key in after.tables && after.tables[key].content == content.value)
    && (content.None? ==> key !in after.tables)
  }

  lemma WriteExtendsHistory(l: Ledger, key: Key, content: Option<Content>, wall: int)
    requires LedgerOk(l) && Write(l, key, content, wall).Wrote?
    ensures LedgerOk(Write(l, key, content, wall).ledger)
    ensures WroteRow(l.db, Write(l, key, content, wall).ledger.db, key, content)
  {
    hide Before, Resolve, Reflects, IsTop;
    var known := LogOps(l.db.oplog);
    LocalWriteWins(l, known, key, content, wall);
    var Wrote(l', op) := Write(l, key, content, wall);
    WrittenIsNew(l.db.oplog, op);
    WrittenLogOps(l.db.oplog, op);
    forall k ensures EverLogged(l'.db.oplog, k) <==> EverLogged(l.db.oplog, k) || k == key {
      WrittenHistory(l.db.oplog, op, k);
    }
  }

  lemma WrittenIsNew(oplog: Log, op: Operation)
    requires KeyedByStamp(oplog) && forall o :: o in LogOps(oplog) ==> Before(o.hlc, op.hlc)
    ensures op.hlc !in oplog
  {
    if op.hlc in oplog {
      assert oplog[op.hlc].op in LogOps(oplog);
      BeforeIsTotal();
    }
  }

  lemma WrittenHistory(oplog: Log, op: Operation, key: Key)
    requires op.hlc !in oplog
    ensures EverLogged(oplog[op.hlc := LogEntry(op, false)], key) <==> EverLogged(oplog, key) || key == op.key
  {
    var oplog' := oplog[op.hlc := LogEntry(op, false)];
    if EverLogged(oplog, key) {
      var s :| s in oplog && oplog[s].op.key == key;
      assert s in oplog' && oplog'[s].op.key == key;
    }
    assert op.hlc in oplog' && oplog'[op.hlc].op.key == op.key;
  }

  lemma WrittenLogOps(oplog: Log, op: Operation)
    requires op.hlc !in oplog
    ensures LogOps(oplog[op.hlc := LogEntry(op, false)]) == LogOps(oplog) + {op}
  {
    var oplog' := oplog[op.hlc := LogEntry(op, false)];
    forall o | o in LogOps(oplog) + {op} ensures o in LogOps(oplog') {
      if o == op {
        assert oplog'[op.hlc].op == op;
      } else {
        var s :| s in oplog && oplog[s].op == o;
        assert oplog'[s].op == o;
      }
    }
  }

  /** A row in a table was once written, so its key has history. */
  lemma RowHasHistory(l: Ledger, key: Key)
    requires LedgerOk(l) && key in l.db.tables
    ensures EverLogged(l.db.oplog, key)
  {
    var o := TopOf(LogOps(l.db.oplog), key);
    var s :| s in l.db.oplog && l.db.oplog[s].op == o;
  }

  /** Every key the log was ever about. */
  ghost function HistoryKeys(oplog: Log): set<Key> {
    set s | s in oplog :: oplog[s].op.key
  }

  lemma HistoryKeysAre(oplog: Log, key: Key)
    ensures key in HistoryKeys(oplog) <==> EverLogged(oplog, key)
  {
  }

  lemma OneMoreKey(before: Log, after: Log, key: Key)
    requires !EverLogged(before, key)
    requires forall k :: EverLogged(after, k) <==> EverLogged(before, k) || k == key
    ensures |HistoryKeys(after)| == |HistoryKeys(before)| + 1
  {
    hide EverLogged, HistoryKeys;
    forall k ensures k in HistoryKeys(after) <==> k in HistoryKeys(before) + {key} {
      HistoryKeysAre(before, k);
      HistoryKeysAre(after, k);
    }
    HistoryKeysAre(before, key);
    assert HistoryKeys(after) == HistoryKeys(before) + {key};
  }

  // One rule's part of a run

  /** `parseOccurrenceId(furthest)?.date ?? null` */
  function ResumeDate(furthest: Option<string>): Option<Date> {
    match furthest
    case None => None
    case Some(id) =>
      match ParseOccurrenceId(id)
      case NotAnOccurrence => None
      case AnOccurrence(_, date) => if Calendar.Valid(date) then Some(date) else None
  }

  /** The rows of keys that had history, or have none, are as they were. */
  ghost predicate OtherRowsKept(before: Db, after: Db) {
    forall k :: EverLogged(before.oplog, k) || !EverLogged(after.oplog, k) ==> SameRow(before, after, k)
  }

  /** The log holds the occurrence and the table the rule's payment on that date. */
  ghost predicate MadeRow(db: Db, rule: RecurringRule, d: Date) {
    && HasOccurrence(db.oplog, rule.id, d) && OccurrenceKey(rule.id, d) in db.tables
    && var content := db.tables[OccurrenceKey(rule.id, d)].content;
       content.TransactionContent? && PaysFor(content.transaction, rule, d)
  }

  ghost predicate RowsFor(db: Db, rule: RecurringRule, dates: seq<Date>) {
    forall d :: d in dates ==> MadeRow(db, rule, d)
  }

  datatype Creation = Created | Existed | NoStamp

  /** The rule's payment on the date was written under the occurrence's key, and nothing else. */
  ghost predicate WrotePayment(before: Db, after: Db, rule: RecurringRule, d: Date, createdAt: int)
    requires FourDigitYear(d)
  {
    exists t :: PaysFor(t, rule, d) && t.createdAt == createdAt &&
                WroteRow(before, after, OccurrenceKey(rule.id, d), Some(TransactionContent(t)))
  }

  /** One occurrence considered: created unless its id ever existed or the clock gave no stamp. */
  ghost predicate Considered(before: Db, after: Db, rule: RecurringRule, d: Date, createdAt: int, r: Creation)
    requires FourDigitYear(d)
  {
    var key := OccurrenceKey(rule.id, d);
    && (r.Existed? <==> EverLogged(before.oplog, key))
    && (!r.Created? ==> after == before)
    && (r.Created? ==> WrotePayment(before, after, rule, d, createdAt))
  }

  /** How far a run has got through `done`, and that nothing else has changed. */
  ghost predicate Progress(before: Db, after: Db, rule: RecurringRule, done: seq<Date>, created: nat) {
    && HistoryGrew(before.oplog, after.oplog, rule.id, done)
    && OtherRowsKept(before, after)
    && (created == 0 ==> after == before)
    && |HistoryKeys(after.oplog)| == |HistoryKeys(before.oplog)| + created
    && ((forall d :: d in done ==> !HasOccurrence(before.oplog, rule.id, d)) ==>
          created == |done| && RowsFor(after, rule, done))
  }

  lemma NoProgressYet(db: Db, rule: RecurringRule)
    ensures Progress(db, db, rule, [], 0)
  {
  }

  lemma ProgressByOne(before: Db, mid: Db, after: Db, rule: RecurringRule, done: seq<Date>, created: nat,
                      d: Date, createdAt: int, r: Creation)
    requires rule.id != "" && FourDigitYear(d) && d !in done && !r.NoStamp?
    requires Progress(before, mid, rule, done, created) && Considered(mid, after, rule, d, createdAt, r)
    ensures Progress(before, after, rule, done + [d], if r.Created? then created + 1 else created)
  {
    hide HasOccurrence, OtherRowsKept, RowsFor, HistoryKeys, EverLogged, SameRow, HistoryGrew;
    HistoryGrowsByOne(before.oplog, mid.oplog, after.oplog, rule.id, done, d);
    OtherRowsStay(before, mid, after, rule, done, d, createdAt, r);
    if r.Created? { OneMoreKey(mid.oplog, after.oplog, OccurrenceKey(rule.id, d)); }
    if forall e :: e in done + [d] ==> !HasOccurrence(before.oplog, rule.id, e) {
      assert d in done + [d] && forall e :: e in done ==> e in done + [d];
      GrownOccurrences(before.oplog, mid.oplog, rule.id, done);
      NotYetLogged(mid.oplog, rule.id, d);
      RowsByOne(mid, after, rule, done, d, createdAt);
    }
  }

  lemma NotYetLogged(oplog: Log, ruleId: string, d: Date)
    requires FourDigitYear(d)
    ensures HasOccurrence(oplog, ruleId, d) <==> EverLogged(oplog, OccurrenceKey(ruleId, d))
  {
  }

  lemma OtherRowsStay(before: Db, mid: Db, after: Db, rule: RecurringRule, done: seq<Date>,
                      d: Date, createdAt: int, r: Creation)
    requires FourDigitYear(d) && OtherRowsKept(before, mid) && Considered(mid, after, rule, d, createdAt, r)
    requires HistoryGrew(before.oplog, mid.oplog, rule.id, done)
    ensures OtherRowsKept(before, after)
  {
    hide EverLogged, HasOccurrence, IsOccurrenceIn;
    forall k | EverLogged(before.oplog, k) || !EverLogged(after.oplog, k) ensures SameRow(before, after, k) {
      assert SameRow(before, mid, k) && SameRow(mid, after, k);
    }
  }

  lemma RowsByOne(mid: Db, after: Db, rule: RecurringRule, done: seq<Date>, d: Date, createdAt: int)
    requires rule.id != "" && FourDigitYear(d) && d !in done && RowsFor(mid, rule, done)
    requires !EverLogged(mid.oplog, OccurrenceKey(rule.id, d))
    requires WrotePayment(mid, after, rule, d, createdAt)
    ensures RowsFor(after, rule, done + [d])
  {
    hide EverLogged, PaysFor;
    assert MadeRow(after, rule, d);
    forall e | e in done ensures MadeRow(after, rule, e) {
      assert MadeRow(mid, rule, e);
      OccurrenceIdFaithful(rule.id, e, d);
      assert SameRow(mid, after, OccurrenceKey(rule.id, e));
    }
  }

  /** What a run's progress amounts to once it has been through the next `n` dates. */
  lemma ProgressOfNext(before: Db, after: Db, rule: RecurringRule, asOf: Date, n: nat, created: nat)
    requires RuleNamed(before.oplog, rule) && FourDigitYear(asOf)
    requires n <= |NextFor(before.oplog, rule, asOf)|
    requires Progress(before, after, rule, Take(n, NextFor(before.oplog, rule, asOf)), created)
    ensures created == n && RuleNamed(after.oplog, rule)
    ensures MadeExactly(before.oplog, after.oplog, rule.id, Take(n, NextFor(before.oplog, rule, asOf)))
    ensures RowsFor(after, rule, Take(n, NextFor(before.oplog, rule, asOf)))
  {
    hide HasOccurrence, OwnPrefix, FullSchedule, RowsFor, OtherRowsKept, HistoryGrew, NextFor;
    var next := NextFor(before.oplog, rule, asOf);
    NextIs(before.oplog, rule, asOf);
    assert forall d :: d in Take(n, next) ==> d in next;
    GrownOccurrences(before.oplog, after.oplog, rule.id, Take(n, next));
    OwnPrefixGrows(before.oplog, after.oplog, rule.id, rule.id, Take(n, next));
  }

  /** What one rule's part of a run did, however far it got. */
  ghost predicate RuleRan(before: Db, after: Db, rule: RecurringRule, asOf: Date, limit: int,
                          created: nat, incomplete: bool, ok: bool) {
    var next := NextFor(before.oplog, rule, asOf);
    && RuleNamed(after.oplog, rule)
    && created <= |Take(Excess(limit), next)|
    && (ok <==> created == |Take(Excess(limit), next)|)
    && incomplete == (|Take(Excess(limit), next)| == limit)
    && Progress(before, after, rule, Take(created, next), created)
    && RowsFor(after, rule, Take(created, next))
    && MadeExactly(before.oplog, after.oplog, rule.id, Take(created, next))
  }

  lemma DueIsNew(db: Db, rule: RecurringRule, asOf: Date, limit: int, due: seq<Date>)
    requires RuleNamed(db.oplog, rule) && FourDigitYear(asOf)
    requires due == Take(Excess(limit), NextFor(db.oplog, rule, asOf))
    ensures rule.id != ""
    ensures forall k :: 0 <= k < |due| ==> FourDigitYear(due[k]) && due[k] !in due[..k]
  {
    hide FullSchedule, HasOccurrence, Scheduled, Missing, NoGap, OwnPrefix, Earlier, NextFor;
    var next := NextFor(db.oplog, rule, asOf);
    NextHaveIds(db.oplog, rule, asOf);
    NextIs(db.oplog, rule, asOf);
    forall k | 0 <= k < |due| ensures FourDigitYear(due[k]) && due[k] !in due[..k] {
      assert due[k] == next[k] && due[k] in next && due[..k] == Take(k, next);
      TakeAndDrop(next, k);
      assert due[k] == Drop(k, next)[0] && due[k] in Drop(k, next);
    }
  }

  lemma RuleStops(before: Db, after: Db, rule: RecurringRule, asOf: Date, limit: int, due: seq<Date>,
                  n: nat, created: nat, ok: bool)
    requires RuleNamed(before.oplog, rule) && FourDigitYear(asOf)
    requires due == Take(Excess(limit), NextFor(before.oplog, rule, asOf))
    requires n <= |due| && (ok <==> n == |due|)
    requires Progress(before, after, rule, due[..n], created)
    ensures RuleRan(before, after, rule, asOf, limit, created, |due| == limit, ok)
  {
    hide RuleNamed, Progress, NextFor, RowsFor;
    assert due[..n] == Take(n, NextFor(before.oplog, rule, asOf));
    ProgressOfNext(before, after, rule, asOf, n, created);
  }

  /** The clock after so many writes; it refuses only once its counter, had it never been reset, is used up. */
  ghost predicate ClockMoved(before: HlcState, after: HlcState, created: nat, ok: bool) {
    && !StateBefore(after, before) && after.counter <= before.counter + created
    && (!ok ==> before.counter + created >= MAX_COUNTER)
  }

  lemma ClockStill(state: HlcState)
    ensures ClockMoved(state, state, 0, true)
  {
  }

  lemma ClockMovedTwice(a: HlcState, b: HlcState, c: HlcState, m: nat, n: nat, ok: bool)
    requires ClockMoved(a, b, m, true) && ClockMoved(b, c, n, ok)
    ensures ClockMoved(a, c, m + n, ok)
  {
  }

  /** The clock gives no stamp to a write whose readings start here. */
  predicate RefusesNext(clock: HlcState, now: nat -> int, read: nat) {
    Tick(clock, now(read + 1)).Refused?
  }

  lemma ClockMovesOn(before: HlcState, mid: HlcState, created: nat, now: nat -> int, read: nat)
    requires ClockMoved(before, mid, created, true)
    ensures match Tick(mid, now(read + 1))
            case Advanced(next) => ClockMoved(before, next, created + 1, true)
            case Refused(_) => ClockMoved(before, mid, created, false) && RefusesNext(mid, now, read)
  {
  }

  // Whole runs

  predicate IsRule(tables: Tables, key: Key) {
    key.entity.RecurringRules? && key in tables && tables[key].content.RuleContent?
  }

  predicate IsLiveRule(tables: Tables, key: Key) {
    IsRule(tables, key) && !tables[key].content.rule.archived
  }

  ghost predicate RulesNamed(db: Db) {
    forall key :: IsRule(db.tables, key) ==>
                    db.tables[key].content.rule.id == key.id && RuleNamed(db.oplog, db.tables[key].content.rule)
  }

  /** Rows of other entities are as they were. */
  ghost predicate RulesKept(before: Db, after: Db) {
    forall key: Key :: !key.entity.Transactions? ==> SameRow(before, after, key)
  }

  /** Of a rule exactly the next `n` occurrences have been made, and they stand as the rule describes them. */
  ghost predicate RanFor(before: Db, after: Db, key: Key, asOf: Date, n: nat)
    requires IsRule(before.tables, key)
  {
    var rule := before.tables[key].content.rule;
    && MadeExactly(before.oplog, after.oplog, rule.id, Take(n, NextFor(before.oplog, rule, asOf)))
    && RowsFor(after, rule, Take(n, NextFor(before.oplog, rule, asOf)))
  }

  /** How many occurrences a run that is not cut short makes for a rule. */
  ghost function Goal(db: Db, key: Key, asOf: Date, limit: int): nat
    requires IsRule(db.tables, key)
  {
    |Take(Excess(limit), NextFor(db.oplog, db.tables[key].content.rule, asOf))|
  }

  ghost predicate MovedOn(before: Db, after: Db, key: Key, asOf: Date, limit: int, ok: bool)
    requires IsRule(before.tables, key)
  {
    exists n: nat ::
      n <= Goal(before, key, asOf, limit) && (ok ==> n == Goal(before, key, asOf, limit)) &&
      RanFor(before, after, key, asOf, n)
  }

  ghost predicate NothingNext(db: Db, asOf: Date) {
    forall key :: IsLiveRule(db.tables, key) ==> NextFor(db.oplog, db.tables[key].content.rule, asOf) == []
  }

  /** An occurrence some live rule was due to make next. */
  ghost predicate IsDueOccurrence(db: Db, k: Key, asOf: Date, limit: int) {
    exists key ::
      IsLiveRule(db.tables, key) && IsNextOf(k, db, db.tables[key].content.rule, asOf, limit)
  }

  ghost predicate IsNextOf(k: Key, db: Db, rule: RecurringRule, asOf: Date, limit: int) {
    IsOccurrenceIn(k, rule.id, Take(Excess(limit), NextFor(db.oplog, rule, asOf)))
  }

  /** What is new in the log is due occurrences only; every other row, deleted ones included, is as it was. */
  ghost predicate OnlyDueAdded(before: Db, after: Db, asOf: Date, limit: int) {
    && HistoryKept(before.oplog, after.oplog) && OtherRowsKept(before, after) && RulesKept(before, after)
    && forall k :: EverLogged(after.oplog, k) && !EverLogged(before.oplog, k) ==>
                     IsDueOccurrence(before, k, asOf, limit)
  }

  /** The rule has not reached its goal. */
  ghost predicate FellShort(before: Db, after: Db, key: Key, asOf: Date, limit: int) {
    IsLiveRule(before.tables, key) && !RanFor(before, after, key, asOf, Goal(before, key, asOf, limit))
  }

  lemma ShortOfGoal(before: Db, after: Db, key: Key, asOf: Date, limit: int, n: nat)
    requires IsLiveRule(before.tables, key)
    requires n < Goal(before, key, asOf, limit) && RanFor(before, after, key, asOf, n)
    ensures FellShort(before, after, key, asOf, limit)
  {
    hide RowsFor, NextFor, HasOccurrence, FullSchedule, DatesAscend, NotAfter;
    var rule := before.tables[key].content.rule;
    var next, goal := NextFor(before.oplog, rule, asOf), Goal(before, key, asOf, limit);
    NextIs(before.oplog, rule, asOf);
    TakeAndDrop(next, n);
    var d := next[n];
    assert Drop(n, next)[0] == d && Take(goal, next)[n] == d && d in next;
    assert d in Take(goal, next) && d !in Take(n, next);
  }

  /** What a run does, whether it went through or the clock refused a stamp on the way. */
  ghost predicate Ran(before: Db, after: Db, asOf: Date, limit: int, ok: bool) {
    && RulesNamed(after)
    && OnlyDueAdded(before, after, asOf, limit)
    && (forall key :: IsLiveRule(before.tables, key) ==> MovedOn(before, after, key, asOf, limit, ok))
    && (!ok ==> exists key :: FellShort(before, after, key, asOf, limit))
    && (NothingNext(before, asOf) ==> after == before)
  }

  /** An archived rule makes nothing in a run; any other makes what is next for it, as far as the run gets. */
  lemma ArchivedRulesRest(before: Db, after: Db, key: Key, asOf: Date, limit: int, ok: bool)
    requires RulesNamed(before) && IsRule(before.tables, key) && Ran(before, after, asOf, limit, ok)
    ensures var rule := before.tables[key].content.rule;
            if rule.archived then MadeExactly(before.oplog, after.oplog, rule.id, [])
            else MovedOn(before, after, key, asOf, limit, ok)
  {
    hide RuleNamed, EverLogged, MovedOn, NextFor, OtherRowsKept, RulesKept, Take;
    var rule := before.tables[key].content.rule;
    forall d: Date | rule.archived && HasOccurrence(after.oplog, rule.id, d)
      ensures HasOccurrence(before.oplog, rule.id, d)
    {
      var k := OccurrenceKey(rule.id, d);
      if !EverLogged(before.oplog, k) {
        assert IsDueOccurrence(before, k, asOf, limit);
        var other :| IsLiveRule(before.tables, other)
          && IsNextOf(k, before, before.tables[other].content.rule, asOf, limit);
        var maker := before.tables[other].content.rule;
        var e :| e in Take(Excess(limit), NextFor(before.oplog, maker, asOf)) && FourDigitYear(e)
                 && k == OccurrenceKey(maker.id, e);
        IdNamesRule(rule.id, d, maker.id, e);
      }
    }
  }

  /** Rules done have reached their goal; rules still to do are missing what they were. */
  ghost predicate Halfway(start: Db, db: Db, asOf: Date, limit: int, live: set<Key>, todo: set<Key>) {
    && RulesNamed(db)
    && OnlyDueAdded(start, db, asOf, limit)
    && (forall key :: key in live ==> IsLiveRule(start.tables, key))
    && (forall key :: key in live - todo ==>
                        IsRule(start.tables, key) && RanFor(start, db, key, asOf, Goal(start, key, asOf, limit)))
    && (forall key :: key in todo ==> IsRule(start.tables, key) && RanFor(start, db, key, asOf, 0))
    && (NothingNext(start, asOf) ==> db == start)
  }

  lemma RunBegins(db: Db, asOf: Date, limit: int, live: set<Key>)
    requires RulesNamed(db) && forall key :: key in live ==> IsLiveRule(db.tables, key)
    ensures Halfway(db, db, asOf, limit, live, live)
  {
    hide RuleNamed, NextFor;
  }

  lemma RuleRowKept(start: Db, db: Db, asOf: Date, limit: int, live: set<Key>, todo: set<Key>, key: Key)
    requires Halfway(start, db, asOf, limit, live, todo) && todo <= live && key in todo
    ensures IsLiveRule(start.tables, key) && IsLiveRule(db.tables, key) && db.tables[key] == start.tables[key]
    ensures db.tables[key].content.rule.id == key.id && RuleNamed(db.oplog, db.tables[key].content.rule)
  {
    hide RuleNamed, NextFor, RanFor, Goal, EverLogged, IsDueOccurrence, NothingNext;
    assert IsLiveRule(start.tables, key);
    assert SameRow(start, db, key);
  }

  /** Changes one after another: what neither touched is as it was. */
  lemma OnlyDueAddedTwice(start: Db, mid: Db, db: Db, asOf: Date, limit: int, key: Key, done: seq<Date>, created: nat)
    requires OnlyDueAdded(start, mid, asOf, limit) && IsLiveRule(start.tables, key)
    requires Progress(mid, db, start.tables[key].content.rule, done, created)
    requires forall d :: d in done ==>
                           d in Take(Excess(limit), NextFor(start.oplog, start.tables[key].content.rule, asOf))
    ensures OnlyDueAdded(start, db, asOf, limit)
  {
    hide EverLogged, HasOccurrence, NextFor, RowsFor, HistoryKeys, Take;
    var rule := start.tables[key].content.rule;
    forall k | EverLogged(db.oplog, k) && !EverLogged(start.oplog, k) ensures IsDueOccurrence(start, k, asOf, limit) {
      if !EverLogged(mid.oplog, k) {
        var d :| d in done && FourDigitYear(d) && k == OccurrenceKey(rule.id, d);
        assert IsNextOf(k, start, rule, asOf, limit);
      }
    }
    forall k: Key | !k.entity.Transactions? ensures SameRow(start, db, k) {
      assert !EverLogged(db.oplog, k) || EverLogged(mid.oplog, k);
      assert SameRow(start, mid, k) && SameRow(mid, db, k);
    }
    forall k | EverLogged(start.oplog, k) || !EverLogged(db.oplog, k) ensures SameRow(start, db, k) {
      assert SameRow(start, mid, k) && SameRow(mid, db, k);
    }
  }

  lemma OtherRuleUnaffected(before: Db, after: Db, rule: RecurringRule, other: RecurringRule,
                            done: seq<Date>, created: nat)
    requires CleanId(rule.id) && RuleNamed(before.oplog, other) && rule.id != other.id
    requires Progress(before, after, rule, done, created)
    ensures RuleNamed(after.oplog, other) && MadeExactly(before.oplog, after.oplog, other.id, [])
  {
    hide HasOccurrence, OwnPrefix, HistoryGrew, OtherRowsKept, HistoryKeys, CleanId;
    OtherRuleHistory(before.oplog, after.oplog, rule.id, other.id, done);
    OwnPrefixGrows(before.oplog, after.oplog, other.id, rule.id, done);
  }

  /** Rows already made have history, so a later turn leaves them alone. */
  lemma MadeRowsStay(mid: Db, db: Db, rule: RecurringRule, dates: seq<Date>)
    requires RowsFor(mid, rule, dates) && OtherRowsKept(mid, db) && HistoryKept(mid.oplog, db.oplog)
    ensures RowsFor(db, rule, dates)
  {
    hide EverLogged, PaysFor;
    forall d | d in dates ensures MadeRow(db, rule, d) {
      assert MadeRow(mid, rule, d);
      assert SameRow(mid, db, OccurrenceKey(rule.id, d));
    }
  }

  lemma OthersThroughTurn(mid: Db, db: Db, key: Key, done: seq<Date>, created: nat)
    requires RulesNamed(mid) && IsRule(mid.tables, key) && RulesKept(mid, db)
    requires Progress(mid, db, mid.tables[key].content.rule, done, created)
    requires RuleNamed(db.oplog, mid.tables[key].content.rule)
    ensures RulesNamed(db)
    ensures forall k :: IsRule(mid.tables, k) && k != key ==>
                          MadeExactly(mid.oplog, db.oplog, mid.tables[k].content.rule.id, [])
  {
    hide MadeExactly, Progress;
    var rule := mid.tables[key].content.rule;
    assert rule.id == key.id && CleanId(rule.id);
    hide RuleNamed;
    forall k | IsRule(mid.tables, k) && k != key
      ensures RuleNamed(db.oplog, mid.tables[k].content.rule)
      ensures MadeExactly(mid.oplog, db.oplog, mid.tables[k].content.rule.id, [])
    {
      OtherRuleUnaffected(mid, db, rule, mid.tables[k].content.rule, done, created);
    }
    forall k | IsRule(db.tables, k) ensures IsRule(mid.tables, k) && db.tables[k] == mid.tables[k] {
      assert SameRow(mid, db, k);
    }
  }

  /** One rule's progress leaves rows of other entities alone. */
  lemma ProgressIsOwn(before: Db, after: Db, rule: RecurringRule, done: seq<Date>, created: nat)
    requires Progress(before, after, rule, done, created)
    ensures RulesKept(before, after)
  {
    hide HasOccurrence, RowsFor, HistoryKeys;
    forall key: Key | !key.entity.Transactions? ensures SameRow(before, after, key) {
      assert EverLogged(after.oplog, key) ==> EverLogged(before.oplog, key);
    }
  }

  /** What one rule's turn means for the run. */
  lemma RunTurn(start: Db, mid: Db, db: Db, asOf: Date, limit: int, live: set<Key>, todo: set<Key>, key: Key,
                n: nat, more: bool, ok: bool)
    requires Halfway(start, mid, asOf, limit, live, todo) && todo <= live && key in todo
    requires IsRule(start.tables, key) && RuleRan(mid, db, start.tables[key].content.rule, asOf, limit, n, more, ok)
    ensures n <= Goal(start, key, asOf, limit) && (ok <==> n == Goal(start, key, asOf, limit))
    ensures more <==> Goal(start, key, asOf, limit) == limit
    ensures RanFor(start, db, key, asOf, n)
    ensures RulesNamed(db) && OnlyDueAdded(start, db, asOf, limit)
    ensures forall k :: k in live - todo ==>
                          IsRule(start.tables, k) && RanFor(start, db, k, asOf, Goal(start, k, asOf, limit))
    ensures forall k :: k in todo && k != key ==> IsRule(start.tables, k) && RanFor(start, db, k, asOf, 0)
    ensures NothingNext(start, asOf) ==> db == start
    ensures |HistoryKeys(db.oplog)| == |HistoryKeys(mid.oplog)| + n
  {
    hide RuleNamed, NextFor, RowsFor, OnlyDueAdded, RulesNamed, HistoryKeys, HistoryGrew, OtherRowsKept, HistoryKept,
         HasOccurrence;
    RuleRowKept(start, mid, asOf, limit, live, todo, key);
    var rule := start.tables[key].content.rule;
    assert RanFor(start, mid, key, asOf, 0);
    SameHistorySameNext(start.oplog, mid.oplog, rule, asOf);
    var done := Take(n, NextFor(start.oplog, rule, asOf));
    ProgressIsOwn(mid, db, rule, done, n);
    OnlyDueAddedTwice(start, mid, db, asOf, limit, key, done, n);
    OthersThroughTurn(mid, db, key, done, n);
    forall k, m | k in live && k != key && IsRule(start.tables, k) && RanFor(start, mid, k, asOf, m)
      ensures RanFor(start, db, k, asOf, m)
    {
      OtherTurn(start, mid, db, asOf, limit, k, rule, done, n, m);
    }
  }

  /** A turn that went through leaves one rule fewer to do; one that was refused ends the run. */
  lemma TurnTaken(start: Db, mid: Db, db: Db, asOf: Date, limit: int, live: set<Key>, todo: set<Key>, key: Key,
                  n: nat, more: bool, ok: bool)
    requires forall k :: k in live <==> IsLiveRule(start.tables, k)
    requires Halfway(start, mid, asOf, limit, live, todo) && todo <= live && key in todo
    requires IsRule(start.tables, key) && RuleRan(mid, db, start.tables[key].content.rule, asOf, limit, n, more, ok)
    ensures ok ==> Halfway(start, db, asOf, limit, live, todo - {key})
    ensures !ok ==> Ran(start, db, asOf, limit, false)
    ensures more <==> Goal(start, key, asOf, limit) == limit
    ensures |HistoryKeys(db.oplog)| == |HistoryKeys(mid.oplog)| + n
  {
    hide RuleNamed, NextFor, OnlyDueAdded, RulesNamed, HistoryKeys, RanFor, Goal, RuleRan, NothingNext, Ran;
    RunTurn(start, mid, db, asOf, limit, live, todo, key, n, more, ok);
    assert forall k :: k in live - (todo - {key}) ==> k == key || k in live - todo;
    if !ok { RunEnds(start, db, asOf, limit, live, todo, key, n); }
  }

  lemma AllTurnsTaken(start: Db, db: Db, asOf: Date, limit: int, live: set<Key>)
    requires forall k :: k in live <==> IsLiveRule(start.tables, k)
    requires Halfway(start, db, asOf, limit, live, {})
    ensures Ran(start, db, asOf, limit, true)
  {
    hide RanFor, Goal, RulesNamed, OnlyDueAdded, Ran;
    RunEnds(start, db, asOf, limit, live, {}, Key(RecurringRules, ""), 0);
  }

  lemma OtherTurn(start: Db, mid: Db, db: Db, asOf: Date, limit: int, k: Key,
                  rule: RecurringRule, done: seq<Date>, n: nat, m: nat)
    requires IsLiveRule(start.tables, k) && OnlyDueAdded(start, mid, asOf, limit) && RanFor(start, mid, k, asOf, m)
    requires Progress(mid, db, rule, done, n)
    requires IsRule(mid.tables, k) ==> MadeExactly(mid.oplog, db.oplog, mid.tables[k].content.rule.id, [])
    ensures RanFor(start, db, k, asOf, m)
  {
    hide NextFor, RowsFor, HistoryKept, OtherRowsKept, IsDueOccurrence, EverLogged, HasOccurrence, HistoryKeys;
    assert SameRow(start, mid, k);
    var own := start.tables[k].content.rule;
    MadeRowsStay(mid, db, own, Take(m, NextFor(start.oplog, own, asOf)));
  }

  /** The run as a whole, after its last turn or at the turn that was refused. */
  lemma RunEnds(start: Db, db: Db, asOf: Date, limit: int, live: set<Key>, todo: set<Key>, key: Key, n: nat)
    requires RulesNamed(db) && OnlyDueAdded(start, db, asOf, limit) && (NothingNext(start, asOf) ==> db == start)
    requires forall k :: k in live <==> IsLiveRule(start.tables, k)
    requires forall k :: k in live - todo ==>
                           IsRule(start.tables, k) && RanFor(start, db, k, asOf, Goal(start, k, asOf, limit))
    requires forall k :: k in todo && k in live && k != key ==> IsRule(start.tables, k) && RanFor(start, db, k, asOf, 0)
    requires key in todo && key in live ==>
               IsRule(start.tables, key) && n <= Goal(start, key, asOf, limit) && RanFor(start, db, key, asOf, n)
    requires todo != {} ==> key in todo && key in live && n < Goal(start, key, asOf, limit)
    ensures Ran(start, db, asOf, limit, todo == {})
  {
    hide RulesNamed, OnlyDueAdded, NothingNext, RanFor, Goal, FellShort;
    if todo != {} { ShortOfGoal(start, db, key, asOf, limit, n); }
    forall k | IsLiveRule(start.tables, k) ensures MovedOn(start, db, k, asOf, limit, todo == {}) {
      if k !in todo {
        assert k in live - todo && RanFor(start, db, k, asOf, Goal(start, k, asOf, limit));
      } else if k == key {
        assert RanFor(start, db, k, asOf, n);
      } else {
        assert RanFor(start, db, k, asOf, 0);
      }
    }
  }

  /** Of the rules done, exactly those that reached the limit are reported. */
  ghost predicate Reported(start: Db, incomplete: seq<string>, done: set<Key>, asOf: Date, limit: int) {
    && (forall id :: id in incomplete ==> Key(RecurringRules, id) in done)
    && (forall key :: key in done ==>
                        IsRule(start.tables, key) && (key.id in incomplete <==> Goal(start, key, asOf, limit) == limit))
  }

  lemma NothingReported(start: Db, live: set<Key>, asOf: Date, limit: int)
    ensures Reported(start, [], live - live, asOf, limit)
  {
  }

  lemma ReportOne(start: Db, incomplete: seq<string>, live: set<Key>, todo: set<Key>, key: Key, asOf: Date, limit: int)
    requires Reported(start, incomplete, live - todo, asOf, limit)
    requires key in todo && todo <= live && IsRule(start.tables, key)
    ensures var listed := if Goal(start, key, asOf, limit) == limit then incomplete + [key.id] else incomplete;
            Reported(start, listed, live - (todo - {key}), asOf, limit)
  {
    hide Goal;
    assert key == Key(RecurringRules, key.id);
    forall k | k in live - todo ensures k.id != key.id {
      assert k == Key(RecurringRules, k.id);
    }
  }

  /** The rules that reached the limit, and no other live rule, are listed. */
  ghost predicate Listed(db: Db, incomplete: seq<string>, asOf: Date, limit: int) {
    forall key :: IsLiveRule(db.tables, key) ==> (key.id in incomplete <==> Goal(db, key, asOf, limit) == limit)
  }

  lemma ReportIsExact(start: Db, incomplete: seq<string>, live: set<Key>, asOf: Date, limit: int)
    requires Reported(start, incomplete, live - {}, asOf, limit)
    requires forall k :: k in live <==> IsLiveRule(start.tables, k)
    ensures Listed(start, incomplete, asOf, limit)
  {
  }

  // Skipping

  predicate ByDate(a: Date, b: Date) {
    Earlier(a, b)
  }

  function SkippedRule(rule: RecurringRule, date: Date): RecurringRule {
    rule.(schedule := rule.schedule.(skipped := SortBy(ByDate, rule.schedule.skipped + [date])))
  }

  /** A skipped rule skips what it did and the new date, in date order. */
  lemma SkippedRuleSkips(rule: RecurringRule, date: Date)
    ensures forall d :: d in SkippedRule(rule, date).schedule.skipped <==> d in rule.schedule.skipped || d == date
    ensures Ascending(ByDate, SkippedRule(rule, date).schedule.skipped)
  {
    SortByIsSorted(ByDate, rule.schedule.skipped + [date]);
  }

  /** A rule that lists a date as skipped is never missing it, at any time. */
  lemma SkippedIsNeverMissing(oplog: Log, rule: RecurringRule, date: Date, asOf: Date)
    requires date in rule.schedule.skipped
    ensures date !in Missing(oplog, rule.id, FullSchedule(rule.schedule, asOf))
  {
    MissingIsSublist(oplog, rule.id, FullSchedule(rule.schedule, asOf));
    if rule.schedule.interval >= 1 { ScheduleIsExact(rule.schedule, asOf); }
  }

  /** A rule that skips one date more stands as it did. */
  lemma SkippedStays(oplog: Log, rule: RecurringRule, date: Date)
    ensures RuleNamed(oplog, rule) ==> RuleNamed(oplog, SkippedRule(rule, date))
    ensures NoGap(oplog, rule) ==> NoGap(oplog, SkippedRule(rule, date))
  {
    hide HasOccurrence, OwnPrefix, Earlier;
    SkippedRuleSkips(rule, date);
    var rule' := SkippedRule(rule, date);
    forall d: Date | Scheduled(rule'.schedule, d) ensures Scheduled(rule.schedule, d) {
      var i :| 0 <= i < MAX_SCAN && OccurrenceAt(rule'.schedule, i) == d && WithinLimits(rule'.schedule, i, d);
      assert OccurrenceAt(rule.schedule, i) == d && WithinLimits(rule.schedule, i, d);
    }
    hide Scheduled, SkippedRule;
  }

  /** The id looks like an occurrence of some rule. */
  ghost predicate InRuleRange(tables: Tables, id: string) {
    exists key :: IsRule(tables, key) && InPrefixRange(id, tables[key].content.rule.id + ":")
  }

  /** A write that makes no new id in the range of a rule leaves the naming of every rule intact. */
  lemma WriteKeepsNamed(before: Db, after: Db, key: Key, content: Option<Content>)
    requires RulesNamed(before) && WroteRow(before, after, key, content)
    requires key.entity.Transactions? ==> EverLogged(before.oplog, key) || !InRuleRange(before.tables, key.id)
    requires key.entity.RecurringRules? && content.Some? && content.value.RuleContent? ==>
               content.value.rule.id == key.id && RuleNamed(before.oplog, content.value.rule)
    ensures RulesNamed(after)
  {
    hide RuleNamed, EverLogged, InPrefixRange;
    forall k | IsRule(after.tables, k)
      ensures after.tables[k].content.rule.id == k.id && RuleNamed(after.oplog, after.tables[k].content.rule)
    {
      if k != key { assert SameRow(before, after, k) && IsRule(before.tables, k); }
      SameHistoryStays(before.oplog, after.oplog, after.tables[k].content.rule);
    }
  }

  /** The date is recorded on the rule; the row of the occurrence is as `removed` says, others are as they were. */
  ghost predicate SkipRecorded(before: Db, after: Db, ruleId: string, date: Date, removed: bool)
    requires FourDigitYear(date)
  {
    var key, occurrence := Key(RecurringRules, ruleId), OccurrenceKey(ruleId, date);
    && IsRule(before.tables, key) && IsRule(after.tables, key)
    && after.tables[key].content.rule == SkippedRule(before.tables[key].content.rule, date)
    && (forall k :: EverLogged(after.oplog, k) <==> EverLogged(before.oplog, k) || k == key)
    && (forall k :: k != key && k != occurrence ==> SameRow(before, after, k))
    && (if removed then occurrence !in after.tables
        else occurrence in after.tables && SameRow(before, after, occurrence))
  }

  predicate AlreadySkipped(tables: Tables, ruleId: string, date: Date) {
    var key := Key(RecurringRules, ruleId);
    !IsRule(tables, key) || date in tables[key].content.rule.schedule.skipped
  }

  /**
   What a skip does. The two writes are separate: when the clock refuses the second, the rule
   lists the date but the transaction stays, and since the date is listed no later skip removes it.
   */
  ghost predicate Skipped(before: Db, after: Db, ruleId: string, date: Date, ok: bool)
    requires FourDigitYear(date)
  {
    if AlreadySkipped(before.tables, ruleId, date) then ok && after == before
    else if ok then SkipRecorded(before, after, ruleId, date, true)
    else after == before || SkipRecorded(before, after, ruleId, date, false)
  }

  /** Whether a skip goes through: the clock has to give a stamp for each write it needs. */
  predicate SkipFinishes(clock: HlcState, tables: Tables, ruleId: string, date: Date, now: nat -> int)
    requires FourDigitYear(date)
  {
    || AlreadySkipped(tables, ruleId, date)
    || (Tick(clock, now(0)).Advanced?
        && (OccurrenceKey(ruleId, date) in tables ==> Tick(Tick(clock, now(0)).state, now(1)).Advanced?))
  }

  /** A skip cut short is final: repeating it changes nothing, and the transaction is still there. */
  lemma SkipCutShortStays(before: Db, after: Db, later: Db, ruleId: string, date: Date, again: bool)
    requires FourDigitYear(date) && SkipRecorded(before, after, ruleId, date, false)
    requires Skipped(after, later, ruleId, date, again)
    ensures again && later == after && OccurrenceKey(ruleId, date) in later.tables
  {
    hide SkippedRule;
    SkippedRuleSkips(before.tables[Key(RecurringRules, ruleId)].content.rule, date);
  }

  class MaterialiserService {
    const ledger: LedgerService

    constructor (ledger: LedgerService)
      ensures this.ledger == ledger
    {
      this.ledger := ledger;
    }

    ghost predicate Valid()
      reads this, ledger, ledger.clock
    {
      ledger.Valid() && LedgerOk(ledger.View())
    }

    /** The date to resume a rule from: that of the highest occurrence id ever logged. */
    method Furthest(rule: RecurringRule) returns (after: Option<Date>)
      requires Valid() && RuleNamed(ledger.oplog, rule)
      ensures after == FurthestOf(ledger.oplog, rule.id)
    {
      hide RuleNamed, LedgerOk, InPrefixRange, LoggedIds, EverLogged, Less;
      var furthest := ledger.LatestEntityIdWithPrefix(Transactions, rule.id + ":");
      FurthestIsLatest(ledger.oplog, rule, furthest);
      after := ResumeDate(furthest);
      if furthest.Some? {
        ghost var f: Date :| NamesOccurrence(ledger.oplog, rule.id, furthest.value, f);
        assert FourDigitYear(f);
        FurthestDate(ledger.oplog, rule, furthest.value, f);
      }
      FurthestIsUnique(ledger.oplog, rule.id, after, FurthestOf(ledger.oplog, rule.id));
    }

    /** Creates one occurrence unless the log has ever held its id; `createdAt` and `wall` are two readings. */
    method Consider(rule: RecurringRule, d: Date, createdAt: int, wall: int) returns (r: Creation)
      requires Valid() && FourDigitYear(d)
      modifies ledger, ledger.clock
      ensures Valid() && Considered(old(ledger.View()).db, ledger.View().db, rule, d, createdAt, r)
      ensures var tick := Tick(old(ledger.clock.state), wall);
              && r == (if EverLogged(old(ledger.oplog), OccurrenceKey(rule.id, d)) then Existed
                       else if tick.Advanced? then Created else NoStamp)
              && ledger.clock.state == if r.Created? then tick.state else old(ledger.clock.state)
    {
      hide WroteRow, LedgerOk, PaysFor, ToTransaction;
      ToTransactionPays(rule, d, createdAt);
      var id := OccurrenceId(rule.id, d);
      var ever := ledger.HasHistory(Transactions, id);
      if ever { return Existed; }
      var content := TransactionContent(ToTransaction(rule, d, createdAt));
      if Write(ledger.View(), Key(Transactions, id), Some(content), wall).Wrote? {
        WriteExtendsHistory(ledger.View(), Key(Transactions, id), Some(content), wall);
      }
      var result := ledger.Put(Transactions, id, content, wall);
      return if result.Failed? then NoStamp else Created;
    }

    /** The occurrences a rule's part of a run will consider: the next ones past the furthest ever logged. */
    method DueFor(rule: RecurringRule, asOf: Date, limit: int) returns (due: seq<Date>)
      requires Valid() && RuleNamed(ledger.oplog, rule)
      ensures due == Take(Excess(limit), NextFor(ledger.oplog, rule, asOf))
    {
      hide RuleNamed, LedgerOk, Scan, FurthestOf;
      var after := Furthest(rule);
      due := OccurrencesUpTo(rule.schedule, asOf, limit, after);
    }

    /**
     One rule's part of a run: the next occurrences it is missing, at most `limit`, in order.
     `now` is the time source; each write reads it twice, from reading `read` on.
     */
    method RunRule(rule: RecurringRule, asOf: Date, limit: int, now: nat -> int, read: nat)
      returns (created: nat, incomplete: bool, ok: bool)
      requires Valid() && RuleNamed(ledger.oplog, rule) && FourDigitYear(asOf)
      modifies ledger, ledger.clock
      ensures Valid()
      ensures RuleRan(old(ledger.View()).db, ledger.View().db, rule, asOf, limit, created, incomplete, ok)
      ensures ClockMoved(old(ledger.clock.state), ledger.clock.state, created, ok)
      ensures !ok ==> RefusesNext(ledger.clock.state, now, read + 2 * created)
    {
      hide RuleNamed, Progress, Considered, NextFor, RuleRan, LedgerOk, Take, ClockMoved, Tick, RefusesNext;
      assert ClockMoved(ledger.clock.state, ledger.clock.state, 0, true) by { ClockStill(ledger.clock.state); }
      ghost var before := ledger.View().db;
      var due := DueFor(rule, asOf, limit);
      incomplete := |due| == limit;
      created := 0;
      DueIsNew(before, rule, asOf, limit, due);
      NoProgressYet(before, rule);
      for k := 0 to |due|
        invariant Valid()
        invariant Progress(before, ledger.View().db, rule, due[..k], created)
        invariant ClockMoved(old(ledger.clock.state), ledger.clock.state, created, true)
      {
        assert due[..k + 1] == due[..k] + [due[k]];
        ghost var mid := ledger.View().db;
        var reading := read + 2 * created;
        ClockMovesOn(old(ledger.clock.state), ledger.clock.state, created, now, reading);
        var r := Consider(rule, due[k], now(reading), now(reading + 1));
        if r.NoStamp? {
          NothingChanged(mid, ledger.View().db, rule, due[k], now(reading), r);
          RuleStops(before, ledger.View().db, rule, asOf, limit, due, k, created, false);
          return created, incomplete, false;
        }
        ProgressByOne(before, mid, ledger.View().db, rule, due[..k], created, due[k], now(reading), r);
        if r.Created? { created := created + 1; }
      }
      RuleStops(before, ledger.View().db, rule, asOf, limit, due, |due|, created, true);
      return created, incomplete, true;
    }

    /**
     One run over every live rule. `Ran` says what becomes of every row and of the log;
     `created` counts the keys new to the log.
     */
    method Run(asOf: Date, limit: int, now: nat -> int) returns (created: nat, incomplete: seq<string>, ok: bool)
      requires Valid() && FourDigitYear(asOf) && RulesNamed(ledger.View().db)
      modifies ledger, ledger.clock
      ensures Valid() && Ran(old(ledger.View()).db, ledger.View().db, asOf, limit, ok)
      ensures |HistoryKeys(ledger.oplog)| == |HistoryKeys(old(ledger.oplog))| + created
      ensures ClockMoved(old(ledger.clock.state), ledger.clock.state, created, ok)
      ensures !ok ==> RefusesNext(ledger.clock.state, now, 2 * created)
      ensures ok ==> Listed(old(ledger.View()).db, incomplete, asOf, limit)
    {
      hide RuleNamed, Goal, RulesNamed, RuleRan, LedgerOk, Halfway, Ran, HistoryKeys, Reported, ClockMoved, Listed,
           RefusesNext;
      ClockStill(ledger.clock.state);
      created, incomplete := 0, [];
      ghost var start := ledger.View().db;
      var live := set key | key in ledger.tables && IsLiveRule(ledger.tables, key);
      var todo := live;
      RunBegins(start, asOf, limit, live);
      assert Reported(start, [], live - todo, asOf, limit) by { NothingReported(start, live, asOf, limit); }
      while todo != {}
        invariant Valid() && todo <= live
        invariant Halfway(start, ledger.View().db, asOf, limit, live, todo)
        invariant |HistoryKeys(ledger.oplog)| == |HistoryKeys(start.oplog)| + created
        invariant ClockMoved(old(ledger.clock.state), ledger.clock.state, created, true)
        invariant Reported(start, incomplete, live - todo, asOf, limit)
        decreases |todo|
      {
        var key :| key in todo;
        ghost var mid, clock := ledger.View().db, ledger.clock.state;
        RuleRowKept(start, mid, asOf, limit, live, todo, key);
        var rule := ledger.tables[key].content.rule;
        var n, more, fine := RunRule(rule, asOf, limit, now, 2 * created);
        ClockMovedTwice(old(ledger.clock.state), clock, ledger.clock.state, created, n, fine);
        TurnTaken(start, mid, ledger.View().db, asOf, limit, live, todo, key, n, more, fine);
        created := created + n;
        if !fine { return created, incomplete, false; }
        ReportOne(start, incomplete, live, todo, key, asOf, limit);
        todo := todo - {key};
        if more { incomplete := incomplete + [rule.id]; }
      }
      AllTurnsTaken(start, ledger.View().db, asOf, limit, live);
      ReportIsExact(start, incomplete, live, asOf, limit);
      ok := true;
    }

    /** Skips an occurrence: recorded on the rule, and its transaction removed if it is there. */
    method Skip(ruleId: string, date: Date, now: nat -> int) returns (ok: bool)
      requires Valid() && FourDigitYear(date) && RulesNamed(ledger.View().db)
      modifies ledger, ledger.clock
      ensures Valid() && RulesNamed(ledger.View().db)
      ensures Skipped(old(ledger.View()).db, ledger.View().db, ruleId, date, ok)
      ensures ok == SkipFinishes(old(ledger.clock.state), old(ledger.tables), ruleId, date, now)
      ensures !ok && Tick(old(ledger.clock.state), now(0)).Advanced? ==>
                SkipRecorded(old(ledger.View()).db, ledger.View().db, ruleId, date, false)
    {
      hide RuleNamed, LedgerOk, RulesNamed, SkippedRule, EverLogged;
      var key := Key(RecurringRules, ruleId);
      if AlreadySkipped(ledger.tables, ruleId, date) { return true; }
      var rule := ledger.tables[key].content.rule;
      var occurrence := OccurrenceKey(ruleId, date);
      ghost var before := ledger.View();
      var content := RuleContent(SkippedRule(rule, date));
      if Write(before, key, Some(content), now(0)).Wrote? { WriteExtendsHistory(before, key, Some(content), now(0)); }
      var result := ledger.Put(RecurringRules, ruleId, content, now(0));
      if result.Failed? { return false; }
      ghost var mid := ledger.View();
      SkipWritten(before.db, mid.db, key, date);
      if occurrence !in ledger.tables { return true; }
      RowHasHistory(mid, occurrence);
      if Write(mid, occurrence, None, now(1)).Wrote? { WriteExtendsHistory(mid, occurrence, None, now(1)); }
      var removed := ledger.Remove(Transactions, OccurrenceId(ruleId, date), now(1));
      if removed.Failed? { return false; }
      WriteKeepsNamed(mid.db, ledger.View().db, occurrence, None);
      return true;
    }
  }

  lemma SkipWritten(before: Db, mid: Db, key: Key, date: Date)
    requires RulesNamed(before) && IsRule(before.tables, key)
    requires WroteRow(before, mid, key, Some(RuleContent(SkippedRule(before.tables[key].content.rule, date))))
    ensures RulesNamed(mid)
  {
    hide RuleNamed, WroteRow;
    SkippedStays(before.oplog, before.tables[key].content.rule, date);
    WriteKeepsNamed(before, mid, key, Some(RuleContent(SkippedRule(before.tables[key].content.rule, date))));
  }

  lemma NothingChanged(before: Db, after: Db, rule: RecurringRule, d: Date, createdAt: int, r: Creation)
    requires FourDigitYear(d) && Considered(before, after, rule, d, createdAt, r) && r.NoStamp?
    ensures after == before
  {
  }
}
