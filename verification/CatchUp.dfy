/**
 Catching up over time. A history is any sequence of materialiser runs, complete or refused
 part-way, of skips, and of ordinary edits between them; each step is what the method or the
 one write behind it ensures.
 */
module CatchUps {
  import opened Calendar
  import opened Hlc
  import opened Domain
  import opened Oplog
  import opened Ledgers
  import opened LedgerServices
  import opened Schedules
  import opened Histories
  import opened Materialisers

  datatype Change =
    | Materialise(asOf: Date, limit: int, ok: bool)
    | SkipDate(ruleId: string, date: Date, ok: bool)
    | Edit(key: Key, content: Option<Content>)

  /**
   Any edit that leaves ids naming what they do: no new transaction id in the range of a rule, and
   no rule under an id or prefix that is taken. Rules may be added, changed, archived and deleted.
   */
  ghost predicate Ordinary(db: Db, key: Key, content: Option<Content>) {
    && (key.entity.Transactions? ==> EverLogged(db.oplog, key) || !InRuleRange(db.tables, key.id))
    && (key.entity.RecurringRules? && content.Some? && content.value.RuleContent? ==>
          content.value.rule.id == key.id && RuleNamed(db.oplog, content.value.rule))
  }

  ghost predicate Follows(before: Ledger, change: Change, after: Ledger) {
    match change
    case Materialise(asOf, limit, ok) =>
      var created := |HistoryKeys(after.db.oplog)| - |HistoryKeys(before.db.oplog)|;
      Ran(before.db, after.db, asOf, limit, ok) && created >= 0 && ClockMoved(before.clock, after.clock, created, ok)
    case SkipDate(ruleId, date, ok) => FourDigitYear(date) && Skipped(before.db, after.db, ruleId, date, ok)
    case Edit(key, content) => Ordinary(before.db, key, content) && WroteRow(before.db, after.db, key, content)
  }

  ghost predicate IsHistory(states: seq<Ledger>, changes: seq<Change>) {
    && |states| == |changes| + 1
    && forall i :: 0 <= i < |changes| ==> Follows(states[i], changes[i], states[i + 1])
  }

  lemma HistoryButLast(states: seq<Ledger>, changes: seq<Change>)
    requires IsHistory(states, changes) && changes != []
    ensures IsHistory(states[..|changes|], changes[..|changes| - 1])
    ensures Follows(states[|changes| - 1], changes[|changes| - 1], states[|changes|])
  {
    hide Follows;
    var n := |changes| - 1;
    forall i | 0 <= i < n ensures Follows(states[..n + 1][i], changes[..n][i], states[..n + 1][i + 1]) {
      assert Follows(states[i], changes[i], states[i + 1]);
    }
  }

  // A run with room on the clock is complete

  /** The occurrences that a complete run would make. */
  ghost function DueKeys(db: Db, asOf: Date, limit: int): set<Key> {
    set key, d | key in db.tables && IsLiveRule(db.tables, key)
                 && d in Take(Excess(limit), NextFor(db.oplog, db.tables[key].content.rule, asOf)) && FourDigitYear(d)
      :: OccurrenceKey(db.tables[key].content.rule.id, d)
  }

  ghost predicate HasRoom(l: Ledger, asOf: Date, limit: int) {
    l.clock.counter + |DueKeys(l.db, asOf, limit)| < MAX_COUNTER
  }

  lemma NewKeysAreDue(before: Db, after: Db, asOf: Date, limit: int)
    requires OnlyDueAdded(before, after, asOf, limit)
    ensures |HistoryKeys(after.oplog)| <= |HistoryKeys(before.oplog)| + |DueKeys(before, asOf, limit)|
  {
    hide EverLogged, HistoryKeys, NextFor, Take, SameRow;
    forall k | k in HistoryKeys(after.oplog) ensures k in HistoryKeys(before.oplog) + DueKeys(before, asOf, limit) {
      HistoryKeysAre(before.oplog, k);
      HistoryKeysAre(after.oplog, k);
      if !EverLogged(before.oplog, k) {
        var key :| IsLiveRule(before.tables, key) && IsNextOf(k, before, before.tables[key].content.rule, asOf, limit);
      }
    }
    SubsetIsNoLarger(HistoryKeys(after.oplog), HistoryKeys(before.oplog) + DueKeys(before, asOf, limit));
  }

  lemma {:induction false} SubsetIsNoLarger<T>(a: set<T>, b: set<T>)
    requires a <= b
    ensures |a| <= |b|
    decreases |a|
  {
    if a != {} {
      var x :| x in a;
      SubsetIsNoLarger(a - {x}, b - {x});
    }
  }

  /** The clock refuses no run whose writes its counter has room for, whatever the time source reads. */
  lemma RunWithRoomIsComplete(before: Ledger, asOf: Date, limit: int, ok: bool, after: Ledger)
    requires Follows(before, Materialise(asOf, limit, ok), after) && HasRoom(before, asOf, limit)
    ensures ok
  {
    hide DueKeys, HistoryKeys, RulesNamed, OnlyDueAdded, MovedOn, NothingNext;
    NewKeysAreDue(before.db, after.db, asOf, limit);
  }

  // One change

  /** The rule row as the change leaves it, for a rule that is not edited by hand: at most with more dates skipped. */
  ghost predicate OnlySkips(before: RecurringRule, after: RecurringRule) {
    && after == before.(schedule := before.schedule.(skipped := after.schedule.skipped))
    && forall d :: d in before.schedule.skipped ==> d in after.schedule.skipped
  }

  lemma SkipKeepsNamed(before: Db, after: Db, ruleId: string, date: Date, ok: bool)
    requires FourDigitYear(date) && RulesNamed(before) && Skipped(before, after, ruleId, date, ok)
    ensures RulesNamed(after) && HistoryKept(before.oplog, after.oplog)
    ensures forall key: Key :: key.entity.Transactions? ==>
              (EverLogged(after.oplog, key) <==> EverLogged(before.oplog, key))
    ensures forall key :: IsRule(before.tables, key) ==>
              IsRule(after.tables, key) && OnlySkips(before.tables[key].content.rule, after.tables[key].content.rule)
    ensures forall key :: IsRule(before.tables, key) && NoGap(before.oplog, before.tables[key].content.rule) ==>
              IsRule(after.tables, key) && NoGap(after.oplog, after.tables[key].content.rule)
  {
    hide RuleNamed, NoGap, EverLogged, InPrefixRange, SkippedRule;
    if after != before {
      forall key | IsRule(after.tables, key)
        ensures IsRule(before.tables, key) && after.tables[key].content.rule.id == key.id
        ensures RuleNamed(after.oplog, after.tables[key].content.rule)
        ensures OnlySkips(before.tables[key].content.rule, after.tables[key].content.rule)
        ensures NoGap(before.oplog, before.tables[key].content.rule) ==>
                  NoGap(after.oplog, after.tables[key].content.rule)
      {
        var rule := if key == Key(RecurringRules, ruleId) then before.tables[key].content.rule
                    else after.tables[key].content.rule;
        if key != Key(RecurringRules, ruleId) { assert SameRow(before, after, key); }
        SkippedStays(before.oplog, rule, date);
        SkippedOnlySkips(rule, date);
        SameHistoryStays(before.oplog, after.oplog, after.tables[key].content.rule);
      }
      forall key | IsRule(before.tables, key) ensures IsRule(after.tables, key) {
        if key != Key(RecurringRules, ruleId) { assert SameRow(before, after, key); }
      }
    }
  }

  lemma SkippedOnlySkips(rule: RecurringRule, date: Date)
    ensures OnlySkips(rule, SkippedRule(rule, date)) && OnlySkips(rule, rule) && SkippedRule(rule, date).id == rule.id
  {
    SkippedRuleSkips(rule, date);
  }

  /** Rules keep their names, history is kept, and a rule not edited by hand keeps its terms and has no new gap. */
  lemma ChangeKeepsRules(before: Ledger, change: Change, after: Ledger, key: Key)
    requires RulesNamed(before.db) && Follows(before, change, after)
    requires IsLiveRule(before.db.tables, key) && (change.Edit? ==> change.key != key)
    ensures RulesNamed(after.db) && HistoryKept(before.db.oplog, after.db.oplog) && IsLiveRule(after.db.tables, key)
    ensures var rule, rule' := before.db.tables[key].content.rule, after.db.tables[key].content.rule;
            && OnlySkips(rule, rule') && (!change.SkipDate? ==> rule' == rule)
            && (NoGap(before.db.oplog, rule) ==> NoGap(after.db.oplog, rule'))
  {
    hide RuleNamed, NoGap, EverLogged, NothingNext, InRuleRange, NextFor, HistoryKeys, ClockMoved, Take, InPrefixRange;
    var rule := before.db.tables[key].content.rule;
    match change
    case Materialise(asOf, limit, ok) =>
      assert SameRow(before.db, after.db, key);
      assert MovedOn(before.db, after.db, key, asOf, limit, ok);
      var n: nat :| n <= Goal(before.db, key, asOf, limit) && RanFor(before.db, after.db, key, asOf, n);
      RanForKeepsNoGap(before.db, after.db, key, asOf, n);
    case SkipDate(ruleId, date, ok) => SkipKeepsNamed(before.db, after.db, ruleId, date, ok);
    case Edit(k, content) =>
      WriteKeepsNamed(before.db, after.db, k, content);
      assert SameRow(before.db, after.db, key);
      EditKeepsHistory(before.db, after.db, k, content, key);
  }

  lemma RanForKeepsNoGap(before: Db, after: Db, key: Key, asOf: Date, n: nat)
    requires IsRule(before.tables, key) && RanFor(before, after, key, asOf, n)
    ensures var rule := before.tables[key].content.rule; NoGap(before.oplog, rule) ==> NoGap(after.oplog, rule)
  {
    hide NoGap, MadeExactly, NextFor, RowsFor;
    var rule := before.tables[key].content.rule;
    if NoGap(before.oplog, rule) { StillNoGap(before.oplog, after.oplog, rule, asOf, n); }
  }

  /** An ordinary edit logs nothing in the range of a rule that was not there. */
  lemma EditKeepsHistory(before: Db, after: Db, k: Key, content: Option<Content>, key: Key)
    requires RulesNamed(before) && Ordinary(before, k, content) && WroteRow(before, after, k, content)
    requires IsRule(before.tables, key)
    ensures var rule := before.tables[key].content.rule;
            && MadeExactly(before.oplog, after.oplog, rule.id, [])
            && (NoGap(before.oplog, rule) ==> NoGap(after.oplog, rule))
  {
    hide NoGap, EverLogged, InPrefixRange, MadeExactly;
    SameHistoryStays(before.oplog, after.oplog, before.tables[key].content.rule);
  }

  predicate Touches(change: Change, key: Key) {
    match change
    case Materialise(_, _, _) => false
    case SkipDate(ruleId, date, _) =>
      key == Key(RecurringRules, ruleId) || (FourDigitYear(date) && key == OccurrenceKey(ruleId, date))
    case Edit(k, _) => k == key
  }

  /** A change that is not a put to a deleted key leaves it deleted. */
  lemma ChangeLeavesDeleted(before: Ledger, change: Change, after: Ledger, key: Key)
    requires Follows(before, change, after) && EverLogged(before.db.oplog, key) && key !in before.db.tables
    requires change.Edit? && change.key == key ==> change.content.None?
    ensures EverLogged(after.db.oplog, key) && key !in after.db.tables
  {
    hide RulesNamed, EverLogged, MovedOn, NothingNext, InRuleRange, SkippedRule, HistoryKeys, ClockMoved;
    if !Touches(change, key) { ChangeLeavesRow(before, change, after, key); }
  }

  /** Whatever was deleted before or between the runs, no run or skip on the device brings back. */
  lemma {:induction false} DeletedStaysDeleted(states: seq<Ledger>, changes: seq<Change>, key: Key)
    requires IsHistory(states, changes)
    requires EverLogged(states[0].db.oplog, key) && key !in states[0].db.tables
    requires forall i :: 0 <= i < |changes| && changes[i].Edit? && changes[i].key == key ==> changes[i].content.None?
    ensures EverLogged(states[|changes|].db.oplog, key) && key !in states[|changes|].db.tables
    decreases |changes|
  {
    hide Follows, EverLogged;
    if changes != [] {
      var n := |changes| - 1;
      HistoryButLast(states, changes);
      DeletedStaysDeleted(states[..n + 1], changes[..n], key);
      ChangeLeavesDeleted(states[n], changes[n], states[n + 1], key);
    }
  }

  lemma ChangeLeavesRow(before: Ledger, change: Change, after: Ledger, key: Key)
    requires Follows(before, change, after) && EverLogged(before.db.oplog, key) && !Touches(change, key)
    ensures EverLogged(after.db.oplog, key) && SameRow(before.db, after.db, key)
  {
    hide RulesNamed, EverLogged, MovedOn, NothingNext, InRuleRange, SkippedRule, HistoryKeys, ClockMoved;
  }

  /** A row that is neither edited nor skipped is never changed by a run, be it an occurrence or not. */
  lemma {:induction false} RowsStayAsLeft(states: seq<Ledger>, changes: seq<Change>, key: Key)
    requires IsHistory(states, changes) && EverLogged(states[0].db.oplog, key)
    requires forall i :: 0 <= i < |changes| ==> !Touches(changes[i], key)
    ensures EverLogged(states[|changes|].db.oplog, key) && SameRow(states[0].db, states[|changes|].db, key)
    decreases |changes|
  {
    hide Follows, EverLogged, Touches;
    if changes != [] {
      var n := |changes| - 1;
      HistoryButLast(states, changes);
      RowsStayAsLeft(states[..n + 1], changes[..n], key);
      ChangeLeavesRow(states[n], changes[n], states[n + 1], key);
    }
  }

  // What a run takes off

  /** A complete run takes `limit` off what comes next, at its date and at every earlier one, gap or no gap. */
  lemma RunTakesOff(before: Db, after: Db, key: Key, asOf: Date, limit: int, date: Date)
    requires Ran(before, after, asOf, limit, true) && IsLiveRule(before.tables, key) && NotAfter(date, asOf)
    ensures var rule := before.tables[key].content.rule;
            NextFor(after.oplog, rule, date) == Drop(Excess(limit), NextFor(before.oplog, rule, date))
  {
    hide RulesNamed, OnlyDueAdded, RowsFor, NextFor, NothingNext, NotAfter, MadeExactly;
    var rule := before.tables[key].content.rule;
    assert MovedOn(before, after, key, asOf, limit, true);
    assert RanFor(before, after, key, asOf, Goal(before, key, asOf, limit));
    TakeOfTake(Excess(limit), NextFor(before.oplog, rule, asOf));
    NextAfter(before.oplog, after.oplog, rule, date, asOf, Excess(limit));
  }

  lemma TakeOfTake<T>(n: nat, xs: seq<T>)
    ensures Take(|Take(n, xs)|, xs) == Take(n, xs)
  {
  }

  ghost predicate AllLogged(db: Db, rule: RecurringRule, asOf: Date) {
    forall d :: d in FullSchedule(rule.schedule, asOf) ==> HasOccurrence(db.oplog, rule.id, d)
  }

  lemma NothingMissingMeansLogged(db: Db, rule: RecurringRule, asOf: Date)
    ensures MissingFor(db, rule, asOf) == [] <==> AllLogged(db, rule, asOf)
  {
    hide HasOccurrence, FullSchedule;
    MissingIsSublist(db.oplog, rule.id, FullSchedule(rule.schedule, asOf));
    if MissingFor(db, rule, asOf) != [] {
      assert MissingFor(db, rule, asOf)[0] in MissingFor(db, rule, asOf);
    }
  }

  // Any number of changes

  /** How many occurrences the complete runs at dates on or after `date` may make. */
  function Allowed(changes: seq<Change>, date: Date): nat {
    if changes == [] then 0
    else
      var last := changes[|changes| - 1];
      Allowed(changes[..|changes| - 1], date)
      + if last.Materialise? && last.ok && NotAfter(date, last.asOf) then Excess(last.limit) else 0
  }

  predicate NotByHand(changes: seq<Change>, key: Key) {
    forall i :: 0 <= i < |changes| && changes[i].Edit? ==> changes[i].key != key
  }

  /**
   What holds of a rule that is not edited by hand, whatever becomes of the other rules: it keeps
   its terms, gets no gap, and what it is missing shrinks by what the complete runs may make.
   */
  ghost predicate Worn(first: Ledger, last: Ledger, key: Key, date: Date, allowed: nat)
    requires IsLiveRule(first.db.tables, key)
  {
    && RulesNamed(last.db) && HistoryKept(first.db.oplog, last.db.oplog) && IsLiveRule(last.db.tables, key)
    && var rule, rule' := first.db.tables[key].content.rule, last.db.tables[key].content.rule;
    && OnlySkips(rule, rule') && NoGap(last.db.oplog, rule')
    && |MissingFor(last.db, rule', date)| <= Excess(|MissingFor(first.db, rule, date)| - allowed)
  }

  lemma {:induction false} MissingWearsOff(states: seq<Ledger>, changes: seq<Change>, key: Key, date: Date)
    requires IsHistory(states, changes) && NotByHand(changes, key)
    requires RulesNamed(states[0].db) && IsLiveRule(states[0].db.tables, key)
    requires NoGap(states[0].db.oplog, states[0].db.tables[key].content.rule)
    ensures Worn(states[0], states[|changes|], key, date, Allowed(changes, date))
    decreases |changes|
  {
    hide Follows, RulesNamed, MissingFor, EverLogged, NoGap, NotAfter;
    if changes != [] {
      var n := |changes| - 1;
      HistoryButLast(states, changes);
      assert NotByHand(changes[..n], key);
      MissingWearsOff(states[..n + 1], changes[..n], key, date);
      ChangeKeepsRules(states[n], changes[n], states[n + 1], key);
      ChangeWearsOff(states[n], changes[n], states[n + 1], key, date);
    }
  }

  lemma ChangeWearsOff(before: Ledger, change: Change, after: Ledger, key: Key, date: Date)
    requires Follows(before, change, after) && HistoryKept(before.db.oplog, after.db.oplog)
    requires IsLiveRule(before.db.tables, key) && IsLiveRule(after.db.tables, key)
    requires var rule, rule' := before.db.tables[key].content.rule, after.db.tables[key].content.rule;
             && OnlySkips(rule, rule') && (!change.SkipDate? ==> rule' == rule)
             && NoGap(before.db.oplog, rule) && NoGap(after.db.oplog, rule')
    ensures var was := |MissingFor(before.db, before.db.tables[key].content.rule, date)|;
            var left := |MissingFor(after.db, after.db.tables[key].content.rule, date)|;
            && left <= was
            && (change.Materialise? && change.ok && NotAfter(date, change.asOf) ==>
                  left == Excess(was - Excess(change.limit)))
  {
    hide EverLogged, Ran, Ordinary, WroteRow, NotAfter, Missing, FullSchedule, NoGap, OnlySkips, NextFor, Skipped,
         HistoryKeys;
    var rule, rule' := before.db.tables[key].content.rule, after.db.tables[key].content.rule;
    LessIsMissing(before.db.oplog, after.db.oplog, rule, rule', date);
    if change.Materialise? && change.ok && NotAfter(date, change.asOf) {
      RunTakesOff(before.db, after.db, key, change.asOf, change.limit, date);
      ResumeFindsMissing(before.db.oplog, rule, date);
      ResumeFindsMissing(after.db.oplog, rule, date);
    }
  }

  /** More history and more skipped dates, less missing. */
  lemma LessIsMissing(before: Log, after: Log, rule: RecurringRule, rule': RecurringRule, date: Date)
    requires HistoryKept(before, after) && OnlySkips(rule, rule')
    ensures |Missing(after, rule'.id, FullSchedule(rule'.schedule, date))|
            <= |Missing(before, rule.id, FullSchedule(rule.schedule, date))|
  {
    hide EverLogged, Missing, FullSchedule, DatesAscend;
    var all, all' := FullSchedule(rule.schedule, date), FullSchedule(rule'.schedule, date);
    MissingIsSublist(before, rule.id, all);
    MissingIsSublist(after, rule'.id, all');
    FullScheduleAscends(rule.schedule, date);
    FullScheduleAscends(rule'.schedule, date);
    SkippingShortens(rule, rule', date);
    SubsetIsNoLonger(Missing(after, rule'.id, all'), Missing(before, rule.id, all));
  }

  lemma SkippingShortens(rule: RecurringRule, rule': RecurringRule, date: Date)
    requires OnlySkips(rule, rule')
    ensures forall d :: d in FullSchedule(rule'.schedule, date) ==> d in FullSchedule(rule.schedule, date)
  {
    hide Scan, NotAfter, Earlier;
    var s, s' := rule.schedule, rule'.schedule;
    if s.interval >= 1 {
      ScheduleIsExact(s, date);
      ScheduleIsExact(s', date);
      forall d | d in FullSchedule(s', date) ensures d in FullSchedule(s, date) {
        var i :| Due(s', date, i) && OccurrenceAt(s', i) == d;
        assert OccurrenceAt(s, i) == d && Due(s, date, i);
      }
    }
  }

  lemma {:induction false} SubsetIsNoLonger(xs: seq<Date>, ys: seq<Date>)
    requires DatesAscend(xs) && DatesAscend(ys) && forall d :: d in xs ==> d in ys
    ensures |xs| <= |ys|
  {
    if xs != [] {
      assert xs[0] in ys;
      var k :| 0 <= k < |ys| && ys[k] == xs[0];
      forall d | d in xs[1..] ensures d in ys[k + 1..] {
        var i :| 0 <= i < |xs[1..]| && xs[1..][i] == d;
        assert Earlier(xs[0], xs[i + 1]) && d in ys;
        var j :| 0 <= j < |ys| && ys[j] == d;
        LaterIsBehind(ys, k, j);
        assert ys[k + 1..][j - k - 1] == d;
      }
      SubsetIsNoLonger(xs[1..], ys[k + 1..]);
    }
  }

  lemma LaterIsBehind(ys: seq<Date>, k: nat, j: nat)
    requires DatesAscend(ys) && k < |ys| && j < |ys| && Earlier(ys[k], ys[j])
    ensures k < j
  {
  }

  /** What is logged of a rule lies on its schedule, skipped since or not. */
  ghost predicate OnlyOnSchedule(db: Db, rule: RecurringRule) {
    forall d: Date :: HasOccurrence(db.oplog, rule.id, d) ==> OnSchedule(rule.schedule, d)
  }

  ghost predicate OnSchedule(s: Schedule, date: Date) {
    exists i :: 0 <= i < MAX_SCAN && OccurrenceAt(s, i) == date && WithinLimits(s, i, date)
  }

  lemma {:induction false} OnlyScheduledIsLogged(states: seq<Ledger>, changes: seq<Change>, key: Key)
    requires IsHistory(states, changes) && NotByHand(changes, key)
    requires RulesNamed(states[0].db) && IsLiveRule(states[0].db.tables, key)
    requires OnlyOnSchedule(states[0].db, states[0].db.tables[key].content.rule)
    ensures RulesNamed(states[|changes|].db) && IsLiveRule(states[|changes|].db.tables, key)
    ensures OnlyOnSchedule(states[|changes|].db, states[|changes|].db.tables[key].content.rule)
    decreases |changes|
  {
    hide Follows, RulesNamed, OnlyOnSchedule, HistoryKept, NoGap, OnlySkips;
    if changes != [] {
      var n := |changes| - 1;
      HistoryButLast(states, changes);
      assert NotByHand(changes[..n], key);
      OnlyScheduledIsLogged(states[..n + 1], changes[..n], key);
      ChangeKeepsRules(states[n], changes[n], states[n + 1], key);
      ChangeLogsScheduled(states[n], changes[n], states[n + 1], key);
    }
  }

  lemma ChangeLogsScheduled(before: Ledger, change: Change, after: Ledger, key: Key)
    requires Follows(before, change, after) && RulesNamed(before.db) && IsLiveRule(before.db.tables, key)
    requires IsLiveRule(after.db.tables, key)
    requires OnlySkips(before.db.tables[key].content.rule, after.db.tables[key].content.rule)
    requires OnlyOnSchedule(before.db, before.db.tables[key].content.rule)
    ensures OnlyOnSchedule(after.db, after.db.tables[key].content.rule)
  {
    hide EverLogged, MovedOn, OnSchedule, InPrefixRange, NothingNext, OtherRowsKept, RulesKept, NextFor, SkippedRule,
         HistoryKeys, ClockMoved;
    var rule, rule' := before.db.tables[key].content.rule, after.db.tables[key].content.rule;
    forall d: Date | HasOccurrence(after.db.oplog, rule.id, d) ensures OnSchedule(rule'.schedule, d) {
      var k := OccurrenceKey(rule.id, d);
      OccurrenceInRange(rule.id, d);
      if EverLogged(before.db.oplog, k) {
        assert HasOccurrence(before.db.oplog, rule.id, d);
      } else if change.Materialise? {
        assert IsDueOccurrence(before.db, k, change.asOf, change.limit);
        NewIsScheduled(before.db, key, d, change.asOf, change.limit);
      }
      SameTermsSameDates(rule, rule', d);
    }
  }

  lemma SameTermsSameDates(rule: RecurringRule, rule': RecurringRule, d: Date)
    requires OnlySkips(rule, rule') && OnSchedule(rule.schedule, d)
    ensures OnSchedule(rule'.schedule, d)
  {
    hide NotAfter, Earlier;
    var i :| 0 <= i < MAX_SCAN && OccurrenceAt(rule.schedule, i) == d && WithinLimits(rule.schedule, i, d);
    assert OccurrenceAt(rule'.schedule, i) == d && WithinLimits(rule'.schedule, i, d);
  }

  lemma NewIsScheduled(db: Db, key: Key, d: Date, asOf: Date, limit: int)
    requires RulesNamed(db) && IsRule(db.tables, key) && FourDigitYear(d)
    requires IsDueOccurrence(db, OccurrenceKey(db.tables[key].content.rule.id, d), asOf, limit)
    ensures OnSchedule(db.tables[key].content.rule.schedule, d)
  {
    hide RuleNamed, NextFor, FullSchedule, HasOccurrence, OccurrenceAt, WithinLimits;
    var rule := db.tables[key].content.rule;
    var other :| IsLiveRule(db.tables, other)
                 && IsNextOf(OccurrenceKey(rule.id, d), db, db.tables[other].content.rule, asOf, limit);
    var maker := db.tables[other].content.rule;
    var e :| e in Take(Excess(limit), NextFor(db.oplog, maker, asOf)) && FourDigitYear(e)
             && OccurrenceKey(rule.id, d) == OccurrenceKey(maker.id, e);
    IdNamesRule(rule.id, d, maker.id, e);
    assert other == key;
    OccurrenceIdFaithful(rule.id, d, e);
    NextIs(db.oplog, rule, asOf);
    ScheduledWhenListed(rule.schedule, asOf, d);
  }

  /**
   Exactly once, and resumable. Start from no history of a rule and let anything happen: runs at
   any dates with any limits, complete or refused part-way, skips, and edits of anything but this
   rule. Then at every date what is logged of its schedule is a beginning of it, nothing off the
   schedule is logged, and once the complete runs were allowed as many as are due, all are logged.
   */
  lemma CatchUp(states: seq<Ledger>, changes: seq<Change>, key: Key, date: Date)
    requires IsHistory(states, changes) && NotByHand(changes, key)
    requires RulesNamed(states[0].db) && IsLiveRule(states[0].db.tables, key)
    requires forall d: Date :: !HasOccurrence(states[0].db.oplog, states[0].db.tables[key].content.rule.id, d)
    ensures var last := states[|changes|].db;
            && IsLiveRule(last.tables, key)
            && var first, rule := states[0].db.tables[key].content.rule, last.tables[key].content.rule;
            var all := FullSchedule(rule.schedule, date);
            var n := |all| - |MissingFor(last, rule, date)|;
            && OnlySkips(first, rule) && 0 <= n
            && (forall d :: d in all ==> (HasOccurrence(last.oplog, rule.id, d) <==> d in Take(n, all)))
            && OnlyOnSchedule(last, rule)
            && (Allowed(changes, date) >= |FullSchedule(first.schedule, date)| ==> AllLogged(last, rule, date))
  {
    hide Follows, HasOccurrence, RulesNamed, Take, FullSchedule, OnSchedule, AllLogged, Missing, OnlySkips, NotByHand,
         Scheduled;
    var first := states[0].db.tables[key].content.rule;
    NoHistoryNoGap(states[0].db.oplog, first);
    MissingWearsOff(states, changes, key, date);
    OnlyScheduledIsLogged(states, changes, key);
    var last := states[|changes|].db;
    var rule := last.tables[key].content.rule;
    LoggedIsAPrefix(last.oplog, rule, date);
    NoneLogged(states[0].db.oplog, first.id, FullSchedule(first.schedule, date));
    NothingMissingMeansLogged(last, rule, date);
  }

  lemma NoHistoryNoGap(oplog: Log, rule: RecurringRule)
    requires forall d: Date :: !HasOccurrence(oplog, rule.id, d)
    ensures NoGap(oplog, rule)
  {
    hide HasOccurrence;
  }

  /**
   The row is as it was and exactly the first `n` of what came next are made: nothing is left to
   make if `n` covers it, only then, and where there was no gap all that is due is then logged.
   */
  ghost predicate Made(first: Db, last: Db, key: Key, asOf: Date, n: nat)
    requires IsRule(first.tables, key)
  {
    var rule := first.tables[key].content.rule;
    && IsLiveRule(last.tables, key) && last.tables[key] == first.tables[key]
    && NextFor(last.oplog, rule, asOf) == Drop(n, NextFor(first.oplog, rule, asOf))
    && (NoGap(first.oplog, rule) ==> NoGap(last.oplog, rule))
    && (NoGap(first.oplog, rule) ==> (n >= |MissingFor(first, rule, asOf)| <==> AllLogged(last, rule, asOf)))
  }

  /** What so many runs with one limit may make together. */
  function Allowance(runs: nat, limit: int): nat {
    if runs == 0 then 0 else Allowance(runs - 1, limit) + Excess(limit)
  }

  /** Complete runs at one date, one after another. */
  lemma {:induction false} RepeatedRuns(states: seq<Db>, key: Key, asOf: Date, limit: int)
    requires states != [] && IsLiveRule(states[0].tables, key)
    requires forall i :: 0 < i < |states| ==> Ran(states[i - 1], states[i], asOf, limit, true)
    ensures Made(states[0], states[|states| - 1], key, asOf, Allowance(|states| - 1, limit))
  {
    hide MissingFor, AllLogged, Excess, Ran, NoGap, NextFor;
    var rule, runs := states[0].tables[key].content.rule, |states| - 1;
    if runs > 0 {
      RepeatedRuns(states[..runs], key, asOf, limit);
      assert Ran(states[runs - 1], states[runs], asOf, limit, true);
      RunTakesOff(states[runs - 1], states[runs], key, asOf, limit, asOf);
      DropAgain(NextFor(states[0].oplog, rule, asOf), Allowance(runs - 1, limit), Excess(limit));
      RunKeepsRule(states[runs - 1], states[runs], asOf, limit, key);
    }
    if NoGap(states[0].oplog, rule) {
      MissingIsNext(states[0], rule, asOf);
      MissingIsNext(states[runs], rule, asOf);
      NothingMissingMeansLogged(states[runs], rule, asOf);
    }
  }

  lemma MissingIsNext(db: Db, rule: RecurringRule, asOf: Date)
    requires NoGap(db.oplog, rule)
    ensures MissingFor(db, rule, asOf) == NextFor(db.oplog, rule, asOf)
  {
    ResumeFindsMissing(db.oplog, rule, asOf);
  }

  lemma DropAgain(next: seq<Date>, m: nat, n: nat)
    ensures Drop(n, Drop(m, next)) == Drop(m + n, next)
  {
  }

  lemma RunKeepsRule(before: Db, after: Db, asOf: Date, limit: int, key: Key)
    requires Ran(before, after, asOf, limit, true) && IsLiveRule(before.tables, key)
    ensures IsLiveRule(after.tables, key) && after.tables[key] == before.tables[key]
    ensures var rule := before.tables[key].content.rule; NoGap(before.oplog, rule) ==> NoGap(after.oplog, rule)
  {
    hide RulesNamed, NothingNext, OtherRowsKept, HistoryKept, NextFor, NoGap, MadeExactly;
    assert SameRow(before, after, key);
    assert MovedOn(before, after, key, asOf, limit, true);
    RanForKeepsNoGap(before, after, key, asOf, Goal(before, key, asOf, limit));
  }
}
