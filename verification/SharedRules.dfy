/**
 Recurring rules on several devices. Each device materialises and skips on its own ledger; the
 protocol carries the writes. Rules and occurrences are rows like any other, so at rest the
 winning write decides what a rule skips and whether a deleted occurrence stays away.
 */
module SharedRules {
  import opened Calendar
  import opened Hlc
  import opened Domain
  import opened Oplog
  import opened Ledgers
  import opened LedgerServices
  import opened Replication
  import opened Runs
  import opened SyncServices
  import opened Reachability
  import opened Schedules
  import opened Histories
  import opened Materialisers

  // The ledgers of the protocol

  /** A ledger that keeps the protocol's invariant is one the materialiser may be started on. */
  lemma ProtocolLedgerIsOk(l: Ledger, known: set<Operation>)
    requires LedgerInv(l, known) && KeyedByStamp(l.db.oplog)
    ensures LedgerOk(l)
  {
    hide Before, Consistent, Resolve;
    TablesAgreeWithLog(l.db, known);
    LogCoversItself(l.db.oplog, known);
  }

  /** So the materialiser's precondition holds of every device at every moment of every run. */
  lemma EveryLedgerIsOk(ids: set<string>, events: seq<(string, Event)>, id: string)
    requires id in Run(Start(ids), events).devices
    ensures LedgerOk(Run(Start(ids), events).devices[id].ledger)
  {
    hide LedgerInv, KeyedByStamp, LedgerOk, SysInv;
    StartInv(ids);
    RunKeeps(Start(ids), events);
    var d := DeviceOf(Run(Start(ids), events), id);
    ProtocolLedgerIsOk(d.ledger, d.known);
  }

  /** The log holds exactly the keys of what is known, so merging unites histories. */
  lemma HistoryIsKnownKeys(db: Db, known: set<Operation>, key: Key)
    requires Reflects(db, known)
    ensures EverLogged(db.oplog, key) <==> key in Keys(known)
  {
    if key in Keys(known) {
      var o :| o in known && o.key == key;
      assert Stale(db.oplog, o);
    }
  }

  // Two devices that materialise one rule

  /**
   Two devices that materialised the same rule, and then one merges what it lacks of the other:
   an occurrence has history exactly if it had on either, there is still no gap, and so the next
   run on the merged log repeats nothing either of them made.
   */
  lemma MergedDevicesStayReady(db1: Db, known1: set<Operation>, db2: Db, known2: set<Operation>,
                               clock: HlcState, ops: seq<Operation>, rule: RecurringRule)
    requires Reflects(db1, known1) && Reflects(db2, known2)
    requires known1 + Usable(ops) == known1 + known2 && Consistent(known1 + known2)
    requires RuleReady(db1.oplog, rule) && RuleReady(db2.oplog, rule)
    ensures var merged := Merge(db1, clock, ops).0;
            && RuleReady(merged.oplog, rule)
            && forall d: Date ::
                 HasOccurrence(merged.oplog, rule.id, d) <==>
                 HasOccurrence(db1.oplog, rule.id, d) || HasOccurrence(db2.oplog, rule.id, d)
  {
    hide RuleReady, EverLogged, Consistent, Merge;
    var merged := Merge(db1, clock, ops).0;
    MergeReflects(db1, clock, known1, ops);
    forall k ensures EverLogged(merged.oplog, k) <==> EverLogged(db1.oplog, k) || EverLogged(db2.oplog, k) {
      HistoryIsKnownKeys(db1, known1, k);
      HistoryIsKnownKeys(db2, known2, k);
      HistoryIsKnownKeys(merged, known1 + known2, k);
      assert Keys(known1 + known2) == Keys(known1) + Keys(known2);
    }
    UnitedStaysReady(db1.oplog, db2.oplog, merged.oplog, rule);
  }

  lemma UnitedStaysReady(a: Log, b: Log, both: Log, rule: RecurringRule)
    requires RuleReady(a, rule) && RuleReady(b, rule)
    requires forall k :: EverLogged(both, k) <==> EverLogged(a, k) || EverLogged(b, k)
    ensures RuleReady(both, rule)
    ensures forall d: Date :: HasOccurrence(both, rule.id, d) <==>
            HasOccurrence(a, rule.id, d) || HasOccurrence(b, rule.id, d)
  {
    hide EverLogged, Scheduled, Earlier, LoggedIds;
    forall id
      ensures id in LoggedIds(both, Transactions) <==>
              id in LoggedIds(a, Transactions) || id in LoggedIds(b, Transactions)
    {
      LoggedIdOf(both, Transactions, id);
      LoggedIdOf(a, Transactions, id);
      LoggedIdOf(b, Transactions, id);
    }
  }

  // Skips at rest

  /** The operation puts this rule. */
  predicate PutsRule(o: Operation, rule: RecurringRule) {
    o.kind.PutOp? && o.value.Some? && o.value.value.content == RuleContent(rule)
  }

  /** The write makes the rule skip the date. */
  predicate ListsDate(o: Operation, date: Date) {
    && o.kind.PutOp? && o.value.Some? && o.value.value.content.RuleContent?
    && date in o.value.value.content.rule.schedule.skipped
  }

  predicate SkippedOn(tables: Tables, ruleId: string, date: Date) {
    var key := Key(RecurringRules, ruleId);
    IsRule(tables, key) && date in tables[key].content.rule.schedule.skipped
  }

  /** At rest a date is skipped, on every device alike, exactly if the rule's winning write lists it. */
  lemma SkippedExactlyIfWinnerLists(ids: set<string>, events: seq<(string, Event)>, id: string, ruleId: string,
                                    date: Date)
    requires Quiescent(Run(Start(ids), events)) && id in Run(Start(ids), events).devices
    ensures var sys := Run(Start(ids), events);
            SkippedOn(sys.devices[id].ledger.db.tables, ruleId, date)
            <==> exists o :: IsTop(sys.authored, Key(RecurringRules, ruleId), o) && ListsDate(o, date)
  {
    hide Before, Resolve, Quiescent, IsTop;
    var sys, key := Run(Start(ids), events), Key(RecurringRules, ruleId);
    Convergence(ids, events);
    RunIsConsistent(ids, events);
    if key in Keys(sys.authored) {
      var top := TopOf(sys.authored, key);
      ResolveAt(sys.authored, key, top);
      forall o | IsTop(sys.authored, key, o) ensures SameWrite(o, top) {
        TopsAreOneWrite(sys.authored, key, o, top);
      }
    } else {
      NoTopNoRow(sys.authored, key);
    }
  }

  lemma NoTopNoRow(ops: set<Operation>, key: Key)
    requires key !in Keys(ops)
    ensures key !in Resolve(ops) && forall o :: !IsTop(ops, key, o)
  {
  }

  lemma RunIsConsistent(ids: set<string>, events: seq<(string, Event)>)
    ensures SysInv(Run(Start(ids), events)) && Consistent(Run(Start(ids), events).authored)
  {
    StartInv(ids);
    RunKeeps(Start(ids), events);
  }

  /** An occurrence falls on the date, due by `asOf`, skipped or not. */
  ghost predicate DueOn(s: Schedule, date: Date, asOf: Date) {
    exists i :: Due(s, asOf, i) && OccurrenceAt(s, i) == date
  }

  /**
   What a rule is missing at rest: the dates on its schedule, due by then, that its winning write
   does not list and that no device ever wrote an occurrence for.
   */
  lemma MissingAtRest(ids: set<string>, events: seq<(string, Event)>, id: string, top: Operation,
                      rule: RecurringRule, date: Date, asOf: Date)
    requires Quiescent(Run(Start(ids), events)) && id in Run(Start(ids), events).devices
    requires IsTop(Run(Start(ids), events).authored, Key(RecurringRules, rule.id), top) && PutsRule(top, rule)
    requires FourDigitYear(date) && rule.schedule.interval >= 1
    ensures var sys := Run(Start(ids), events); var db := sys.devices[id].ledger.db;
            && IsRule(db.tables, Key(RecurringRules, rule.id))
            && db.tables[Key(RecurringRules, rule.id)].content.rule == rule
            && (date in MissingFor(db, rule, asOf) <==>
                  && DueOn(rule.schedule, date, asOf) && !ListsDate(top, date)
                  && OccurrenceKey(rule.id, date) !in Keys(sys.authored))
  {
    hide Before, Resolve, Quiescent, IsTop, Scan, Due;
    var sys, key := Run(Start(ids), events), Key(RecurringRules, rule.id);
    Convergence(ids, events);
    RunIsConsistent(ids, events);
    ResolveAt(sys.authored, key, top);
    RestHistory(sys, id, OccurrenceKey(rule.id, date));
    var db := sys.devices[id].ledger.db;
    MissingIsSublist(db.oplog, rule.id, FullSchedule(rule.schedule, asOf));
    ScheduleIsExact(rule.schedule, asOf);
  }

  /** At rest every device's log is about exactly the keys ever written. */
  lemma RestHistory(sys: System, id: string, key: Key)
    requires SysInv(sys) && Quiescent(sys) && id in sys.devices
    ensures EverLogged(sys.devices[id].ledger.db.oplog, key) <==> key in Keys(sys.authored)
  {
    hide Quiescent;
    var d := DeviceOf(sys, id);
    QuiescentKnowsAll(sys, id);
    HistoryIsKnownKeys(d.ledger.db, d.known, key);
  }

  // A later write on a device that does not know of the earlier one

  ghost function WriteAt(id: string, key: Key, content: Option<Content>, wall: int): seq<(string, Event)> {
    [(id, LocalWrite(key, content, wall))]
  }

  /** A write whose reading is past the clock goes through and concerns nobody else. */
  lemma WriteGoesThrough(sys: System, id: string, key: Key, content: Option<Content>, wall: int)
    requires id in sys.devices && sys.devices[id].ledger.device == id
    requires wall > sys.devices[id].ledger.clock.physical
    ensures var sys' := Run(sys, WriteAt(id, key, content, wall));
            && sys'.authored == sys.authored + {Authored(id, Stamp(wall, 0, id), key, content)}
            && sys'.devices.Keys == sys.devices.Keys
            && forall other :: other in sys.devices && other != id ==> sys'.devices[other] == sys.devices[other]
  {
    RunOfOne(sys, id, LocalWrite(key, content, wall));
  }

  /** A write by a clock that is ahead of everybody's prevails on every device once at rest. */
  lemma LateWritePrevails(ids: set<string>, before: seq<(string, Event)>, id: string, key: Key,
                          content: Option<Content>)
    returns (wall: nat, after: seq<(string, Event)>)
    requires id in ids
    ensures var sys := Run(Start(ids), before + WriteAt(id, key, content, wall) + after);
            && Quiescent(sys) && sys.devices.Keys == ids
            && sys.authored == Run(Start(ids), before).authored + {Authored(id, Stamp(wall, 0, id), key, content)}
            && ShownEverywhere(sys, key, content)
  {
    hide Before, Resolve, Quiescent, SysInv, Consistent, Step;
    RunIsConsistent(ids, before);
    RunKeepsDevices(Start(ids), before);
    var sys := Run(Start(ids), before);
    var d := DeviceOf(sys, id);
    var stamps := set o | o in sys.authored :: o.hlc;
    wall := Ahead(stamps, d.ledger.clock.physical);
    var write := WriteAt(id, key, content, wall);
    WriteGoesThrough(sys, id, key, content, wall);
    RunConcat(Start(ids), before, write);
    after := ConvergenceIsReachable(ids, before + write);
    var rest := Run(Start(ids), before + write + after);
    RunIsConsistent(ids, before + write + after);
    var op := Authored(id, Stamp(wall, 0, id), key, content);
    forall o | o in rest.authored ensures AtMost(o.hlc, op.hlc) {
      if o != op { assert o.hlc in stamps; AheadIsBefore(o.hlc, op.hlc); }
    }
    assert IsTop(rest.authored, key, op);
    ResolveAt(rest.authored, key, op);
  }

  lemma AheadIsBefore(a: Stamp, b: Stamp)
    requires a.physical < b.physical
    ensures Before(a, b)
  {
  }

  ghost predicate ShownEverywhere(sys: System, key: Key, content: Option<Content>) {
    forall id :: id in sys.devices ==>
      var tables := sys.devices[id].ledger.db.tables;
      (key in tables <==> content.Some?) && (content.Some? ==> tables[key].content == content.value)
  }

  const RENT := Key(RecurringRules, "rent")

  /** The rent rule is written on one device and reaches all. */
  lemma RentEverywhere(ids: set<string>, a: string, rule: RecurringRule) returns (events: seq<(string, Event)>)
    requires a in ids
    ensures var sys := Run(Start(ids), events);
            && Quiescent(sys) && sys.devices.Keys == ids && ShownEverywhere(sys, RENT, Some(RuleContent(rule)))
            && forall o :: o in sys.authored ==> o.key == RENT
  {
    var wall, after := LateWritePrevails(ids, [], a, RENT, Some(RuleContent(rule)));
    events := [] + WriteAt(a, RENT, Some(RuleContent(rule)), wall) + after;
  }

  /** Every device has the rule in these terms, does not skip the date, and has still to make it. */
  ghost predicate DueEverywhere(sys: System, rule: RecurringRule, date: Date, asOf: Date) {
    forall id :: id in sys.devices ==>
      var db := sys.devices[id].ledger.db;
      && IsRule(db.tables, RENT) && db.tables[RENT].content.rule == rule
      && !SkippedOn(db.tables, "rent", date) && date in MissingFor(db, rule, asOf)
  }

  lemma RuleAloneIsDue(ids: set<string>, events: seq<(string, Event)>, rule: RecurringRule, date: Date, asOf: Date)
    requires var sys := Run(Start(ids), events);
             && Quiescent(sys) && ShownEverywhere(sys, RENT, Some(RuleContent(rule)))
             && forall o :: o in sys.authored ==> o.key == RENT
    requires rule.id == "rent" && rule.schedule == MonthlyRule(date).schedule
    requires FourDigitYear(date) && NotAfter(date, asOf)
    ensures DueEverywhere(Run(Start(ids), events), rule, date, asOf)
  {
    hide Quiescent, Scan, Scheduled, Step, EverLogged, Missing;
    var sys := Run(Start(ids), events);
    RunIsConsistent(ids, events);
    hide SysInv, Run;
    FirstIsDue(rule.schedule, asOf);
    forall id | id in sys.devices ensures date in MissingFor(sys.devices[id].ledger.db, rule, asOf) {
      RestHistory(sys, id, OccurrenceKey("rent", date));
      MissingIsSublist(sys.devices[id].ledger.db.oplog, rule.id, FullSchedule(rule.schedule, asOf));
    }
  }

  /**
   A skip lost. All devices have the rule; one of them skips its first date, another that has not
   heard of it renames the rule a moment later. At rest no device skips the date, and all of them
   are missing it: a later run makes the occurrence.
   */
  lemma SkipIsLost(ids: set<string>, a: string, b: string, date: Date, asOf: Date)
    returns (start: seq<(string, Event)>, skipAt: int, editAt: int, after: seq<(string, Event)>)
    requires a in ids && b in ids && a != b && FourDigitYear(date) && NotAfter(date, asOf)
    ensures var edited := MonthlyRule(date).(name := "Flat");
            var skip := WriteAt(a, RENT, Some(RuleContent(SkippedRule(MonthlyRule(date), date))), skipAt);
            var edit := WriteAt(b, RENT, Some(RuleContent(edited)), editAt);
            && SkippedHereOnly(Run(Start(ids), start + skip), a, b, MonthlyRule(date), date)
            && Quiescent(Run(Start(ids), start + skip + edit + after))
            && Run(Start(ids), start + skip + edit + after).devices.Keys == ids
            && DueEverywhere(Run(Start(ids), start + skip + edit + after), edited, date, asOf)
  {
    hide Quiescent, SkippedRule, Step, Run, EverLogged, SameRow, DueEverywhere;
    var rule := MonthlyRule(date);
    var edited := rule.(name := "Flat");
    start := RentEverywhere(ids, a, rule);
    skipAt := Run(Start(ids), start).devices[a].ledger.clock.physical + 1;
    var content := Some(RuleContent(SkippedRule(rule, date)));
    var skip := WriteAt(a, RENT, content, skipAt);
    WriteIsShown(ids, start, a, RENT, content, skipAt);
    SkippedRuleSkips(rule, date);
    editAt, after := LateWritePrevails(ids, start + skip, b, RENT, Some(RuleContent(edited)));
    RuleAloneIsDue(ids, start + skip + WriteAt(b, RENT, Some(RuleContent(edited)), editAt) + after, edited, date, asOf);
  }

  /** One device skips the date, the other still has the rule as it was. */
  ghost predicate SkippedHereOnly(sys: System, a: string, b: string, rule: RecurringRule, date: Date) {
    && a in sys.devices && b in sys.devices && SkippedOn(sys.devices[a].ledger.db.tables, "rent", date)
    && IsRule(sys.devices[b].ledger.db.tables, RENT) && sys.devices[b].ledger.db.tables[RENT].content.rule == rule
  }

  function FirstPayment(date: Date): Content {
    TransactionContent(ToTransaction(MonthlyRule(date), date, 0))
  }

  /** One device made the occurrence and deleted it; the other has never heard of it and has it still to make. */
  ghost predicate DeletedHereOnly(sys: System, a: string, b: string, date: Date, asOf: Date)
    requires FourDigitYear(date)
  {
    var key := OccurrenceKey("rent", date);
    && a in sys.devices && b in sys.devices
    && EverLogged(sys.devices[a].ledger.db.oplog, key) && key !in sys.devices[a].ledger.db.tables
    && IsRule(sys.devices[b].ledger.db.tables, RENT)
    && sys.devices[b].ledger.db.tables[RENT].content.rule == MonthlyRule(date)
    && !EverLogged(sys.devices[b].ledger.db.oplog, key)
    && date in MissingFor(sys.devices[b].ledger.db, MonthlyRule(date), asOf)
  }

  /**
   A delete undone. One device makes the first occurrence and deletes it; another that has not
   heard of either makes it in turn, a moment later. At rest all devices have it.
   */
  lemma DeletedComesBack(ids: set<string>, a: string, b: string, date: Date, asOf: Date)
    returns (start: seq<(string, Event)>, putAt: int, deleteAt: int, makeAt: int, after: seq<(string, Event)>)
    requires a in ids && b in ids && a != b && FourDigitYear(date) && NotAfter(date, asOf)
    ensures var key := OccurrenceKey("rent", date);
            var put := WriteAt(a, key, Some(FirstPayment(date)), putAt);
            var delete := WriteAt(a, key, None, deleteAt);
            var make := WriteAt(b, key, Some(FirstPayment(date)), makeAt);
            && DeletedHereOnly(Run(Start(ids), start + put + delete), a, b, date, asOf)
            && Quiescent(Run(Start(ids), start + put + delete + make + after))
            && Run(Start(ids), start + put + delete + make + after).devices.Keys == ids
            && ShownEverywhere(Run(Start(ids), start + put + delete + make + after), key, Some(FirstPayment(date)))
  {
    hide Quiescent, Step, Run, EverLogged, SameRow, DueEverywhere, ToTransaction, Missing;
    var key := OccurrenceKey("rent", date);
    start := RentEverywhere(ids, a, MonthlyRule(date));
    RuleAloneIsDue(ids, start, MonthlyRule(date), date, asOf);
    StillUnheardOf(ids, start, b, date, asOf);
    putAt := Run(Start(ids), start).devices[a].ledger.clock.physical + 1;
    var put := WriteAt(a, key, Some(FirstPayment(date)), putAt);
    WriteIsShown(ids, start, a, key, Some(FirstPayment(date)), putAt);
    deleteAt := Run(Start(ids), start + put).devices[a].ledger.clock.physical + 1;
    var delete := WriteAt(a, key, None, deleteAt);
    WriteIsShown(ids, start + put, a, key, None, deleteAt);
    makeAt, after := LateWritePrevails(ids, start + put + delete, b, key, Some(FirstPayment(date)));
  }

  lemma StillUnheardOf(ids: set<string>, events: seq<(string, Event)>, id: string, date: Date, asOf: Date)
    requires FourDigitYear(date) && DueEverywhere(Run(Start(ids), events), MonthlyRule(date), date, asOf)
    requires id in Run(Start(ids), events).devices
    ensures var db := Run(Start(ids), events).devices[id].ledger.db;
            && IsRule(db.tables, RENT) && db.tables[RENT].content.rule == MonthlyRule(date)
            && !EverLogged(db.oplog, OccurrenceKey("rent", date)) && date in MissingFor(db, MonthlyRule(date), asOf)
  {
    hide Run, EverLogged, FullSchedule;
    var db := Run(Start(ids), events).devices[id].ledger.db;
    MissingIsSublist(db.oplog, "rent", FullSchedule(MonthlyRule(date).schedule, asOf));
  }

  /** What a write past the clock leaves on its device, which the others do not have yet. */
  lemma WriteIsShown(ids: set<string>, before: seq<(string, Event)>, id: string, key: Key, content: Option<Content>,
                     wall: int)
    requires id in Run(Start(ids), before).devices
    requires wall > Run(Start(ids), before).devices[id].ledger.clock.physical
    ensures var sys, sys' := Run(Start(ids), before), Run(Start(ids), before + WriteAt(id, key, content, wall));
            && sys'.devices.Keys == sys.devices.Keys
            && sys'.authored == sys.authored + {Authored(id, Stamp(wall, 0, id), key, content)}
            && (forall other :: other in sys.devices && other != id ==> sys'.devices[other] == sys.devices[other])
            && (forall k :: EverLogged(sys'.devices[id].ledger.db.oplog, k)
                            <==> EverLogged(sys.devices[id].ledger.db.oplog, k) || k == key)
            && (forall k :: k != key ==> SameRow(sys.devices[id].ledger.db, sys'.devices[id].ledger.db, k))
            && var tables := sys'.devices[id].ledger.db.tables;
            (key in tables <==> content.Some?) && (content.Some? ==> tables[key].content == content.value)
  {
    hide SysInv, LedgerOk, EverLogged;
    var sys := Run(Start(ids), before);
    RunIsConsistent(ids, before);
    var d := DeviceOf(sys, id);
    RunConcat(Start(ids), before, WriteAt(id, key, content, wall));
    WriteGoesThrough(sys, id, key, content, wall);
    EveryLedgerIsOk(ids, before, id);
    WriteExtendsHistory(d.ledger, key, content, wall);
    RunOfOne(sys, id, LocalWrite(key, content, wall));
  }
}
