/**
 One device's ledger: local writes, merging, the persisted clock and the push backlog.
 The class is the service; the functions above it are its specification.
 */
module Ledgers {
  import opened Orders
  import opened Hlc
  import opened Domain
  import opened Oplog

  /** A device as far as its ledger goes; `clock` is in memory, `db` survives a crash. */
  datatype Ledger = Ledger(device: string, clock: HlcState, db: Db)

  datatype WriteResult = Wrote(ledger: Ledger, op: Operation) | NotWritten(error: ClockError)

  /** The operation a local write records: a put of `content`, or a delete where there is none. */
  function Authored(device: string, hlc: Stamp, key: Key, content: Option<Content>): Operation {
    match content
    case Some(c) => Operation(hlc, key, PutOp, Some(Row(key.id, hlc, c)), device)
    case None => Operation(hlc, key, DeleteOp, None, device)
  }

  /** `put` and `remove`: tick, then row, log entry and clock in one transaction. */
  function Write(l: Ledger, key: Key, content: Option<Content>, wall: int): WriteResult {
    match Tick(l.clock, wall)
    case Refused(error) => NotWritten(error)
    case Advanced(next) =>
      var op := Authored(l.device, Stamp(next.physical, next.counter, l.device), key, content);
      Wrote(l.(clock := next, db := Written(l.db, op, false).(savedClock := next)), op)
  }

  /** `observeStamps`: the heads of a pull in turn, each at its own reading; a refusal keeps the progress made. */
  function ObserveHeads(l: Ledger, heads: seq<Stamp>, walls: seq<int>): (Ledger, bool)
    requires |heads| == |walls|
  {
    var (clock, ok) := ObserveAll(l.clock, heads, walls);
    (l.(clock := clock), ok)
  }

  /** `merge`, which also saves the clock as it runs. */
  function MergeInto(l: Ledger, ops: seq<Operation>): (Ledger, nat) {
    var (db, n) := Merge(l.db, l.clock, ops);
    (l.(db := db), n)
  }

  /** A restart restores the clock from disk. */
  function Restart(l: Ledger): Ledger {
    l.(clock := l.db.savedClock)
  }

  /**
   What holds of a device at every moment of every run: its database reflects what it knows,
   the saved clock has reached all of it, and the running clock is not behind the saved one.
   */
  ghost predicate LedgerInv(l: Ledger, known: set<Operation>) {
    && Reflects(l.db, known)
    && (forall o :: o in known ==> Reached(l.db.savedClock, o.hlc))
    && !StateBefore(l.clock, l.db.savedClock)
  }

  lemma FreshLedgerInv(device: string)
    ensures LedgerInv(Ledger(device, HlcState(0, 0), EMPTY_DB), {})
  {
    assert Resolve({}) == map[];
  }

  /** A local write comes after everything known, decides its key, and keeps the invariant. */
  lemma LocalWriteWins(l: Ledger, known: set<Operation>, key: Key, content: Option<Content>, wall: int)
    requires LedgerInv(l, known) && Write(l, key, content, wall).Wrote?
    ensures var Wrote(l', op) := Write(l, key, content, wall);
            && LedgerInv(l', known + {op})
            && (forall o :: o in known ==> Before(o.hlc, op.hlc))
            && IsTop(known + {op}, key, op)
            && (key in l'.db.tables <==> content.Some?)
            && (content.Some? ==> l'.db.tables[key].content == content.value)
            && (forall k :: k != key ==> (k in l'.db.tables <==> k in l.db.tables))
            && (forall k :: k != key && k in l.db.tables ==> l'.db.tables[k] == l.db.tables[k])
  {
    hide Before, Resolve;
    BeforeIsTotal();
    var Wrote(l', op) := Write(l, key, content, wall);
    forall o | o in known ensures Before(o.hlc, op.hlc) && Reached(l'.db.savedClock, o.hlc) {
      TickDominates(l.clock, wall, l.device, o.hlc);
    }
    forall s | s in l.db.oplog && l.db.oplog[s].op.key == key ensures !AtMost(op.hlc, s) {
      assert l.db.oplog[s].op in known;
    }
    WrittenReflects(l.db, known, op, false);
  }

  /** Observing moves the clock on, past everything the heads bound if it goes through. */
  lemma ObserveKeepsInv(l: Ledger, known: set<Operation>, heads: seq<Stamp>, walls: seq<int>)
    requires |heads| == |walls| && LedgerInv(l, known)
    ensures var (l', ok) := ObserveHeads(l, heads, walls);
            && LedgerInv(l', known) && l' == l.(clock := l'.clock) && !StateBefore(l'.clock, l.clock)
            && (ok ==> forall h, s :: h in heads && AtMost(s, h) ==> Reached(l'.clock, s))
  {
    ObserveAllDominates(l.clock, heads, walls);
  }

  /** Merged operations join what is known, provided the running clock has reached them. */
  lemma MergeKeepsInv(l: Ledger, known: set<Operation>, ops: seq<Operation>)
    requires LedgerInv(l, known) && Consistent(known + Usable(ops))
    requires forall o :: o in ops ==> Reached(l.clock, o.hlc)
    ensures LedgerInv(MergeInto(l, ops).0, known + Usable(ops))
  {
    MergeReflects(l.db, l.clock, known, ops);
    assert ops == [] ==> known + Usable(ops) == known;
  }

  lemma RestartKeepsInv(l: Ledger, known: set<Operation>)
    requires LedgerInv(l, known)
    ensures LedgerInv(Restart(l), known)
    ensures Restart(l) == Ledger(l.device, l.db.savedClock, l.db)
  {
  }

  // The push backlog

  ghost predicate KeyedByStamp(oplog: Log) {
    forall s :: s in oplog ==> oplog[s].op.hlc == s
  }

  ghost predicate Unsent(oplog: Log, o: Operation) {
    o.hlc in oplog && oplog[o.hlc] == LogEntry(o, false)
  }

  ghost predicate StampsAscend(ops: seq<Operation>) {
    forall i, j :: 0 <= i < j < |ops| ==> Before(ops[i].hlc, ops[j].hlc)
  }

  /** The unsent operations in stamp order. */
  ghost predicate IsBacklog(oplog: Log, ops: seq<Operation>) {
    StampsAscend(ops) && forall o :: o in ops <==> Unsent(oplog, o)
  }

  ghost function UnsentStamps(oplog: Log): set<Stamp> {
    set s | s in oplog && !oplog[s].synced
  }

  function OpsAt(oplog: Log, stamps: seq<Stamp>): seq<Operation>
    requires forall s :: s in stamps ==> s in oplog
  {
    seq(|stamps|, i requires 0 <= i < |stamps| => oplog[stamps[i]].op)
  }

  /** The table's `synced` index read in key order. */
  ghost function Backlog(oplog: Log): (ops: seq<Operation>)
    requires KeyedByStamp(oplog)
    ensures IsBacklog(oplog, ops)
  {
    BeforeIsStrictTotal();
    EnumerateIsAscending(Before, UnsentStamps(oplog));
    var stamps := Enumerate(Before, UnsentStamps(oplog));
    var ops := OpsAt(oplog, stamps);
    BacklogOfStamps(oplog, stamps);
    ops
  }

  lemma BacklogOfStamps(oplog: Log, stamps: seq<Stamp>)
    requires KeyedByStamp(oplog) && StrictlyAscending(Before, stamps)
    requires forall s :: s in stamps <==> s in UnsentStamps(oplog)
    ensures IsBacklog(oplog, OpsAt(oplog, stamps))
  {
    var ops := OpsAt(oplog, stamps);
    forall i | 0 <= i < |ops| ensures Unsent(oplog, ops[i]) {
      assert stamps[i] in stamps;
    }
    forall o ensures o in ops <==> Unsent(oplog, o) {
      if Unsent(oplog, o) {
        assert o.hlc in stamps;
        var i :| 0 <= i < |stamps| && stamps[i] == o.hlc;
        assert ops[i] == o;
      }
    }
  }

  /** The backlog is determined by what is unsent. */
  lemma {:induction false} BacklogUnique(a: seq<Operation>, b: seq<Operation>)
    requires StampsAscend(a) && StampsAscend(b)
    requires forall o :: o in a <==> o in b
    ensures a == b
    decreases |a|
  {
    BeforeIsTotal();
    assert a != [] ==> a[0] in b;
    assert b != [] ==> b[0] in a;
    if a != [] {
      assert a == [a[0]] + a[1..] && b == [b[0]] + b[1..];
      assert a[0] == b[0];
      forall o ensures o in a[1..] <==> o in b[1..] {
        assert a[0] !in a[1..] && b[0] !in b[1..];
        assert o in a <==> o == a[0] || o in a[1..];
        assert o in b <==> o == b[0] || o in b[1..];
      }
      BacklogUnique(a[1..], b[1..]);
    }
  }

  lemma IsTheBacklog(oplog: Log, ops: seq<Operation>)
    requires KeyedByStamp(oplog) && IsBacklog(oplog, ops)
    ensures ops == Backlog(oplog)
  {
    BacklogUnique(ops, Backlog(oplog));
  }

  function MarkSynced(oplog: Log, stamps: seq<Stamp>): Log {
    map s | s in oplog :: if s in stamps then oplog[s].(synced := true) else oplog[s]
  }

  function StampsOf(ops: seq<Operation>): seq<Stamp> {
    seq(|ops|, i requires 0 <= i < |ops| => ops[i].hlc)
  }

  /** A local write goes to the end of the backlog. */
  lemma BacklogAfterWrite(oplog: Log, op: Operation)
    requires KeyedByStamp(oplog)
    requires forall s :: s in oplog ==> Before(s, op.hlc)
    ensures Backlog(oplog[op.hlc := LogEntry(op, false)]) == Backlog(oplog) + [op]
  {
    BeforeIsTotal();
    var oplog' := oplog[op.hlc := LogEntry(op, false)];
    forall o ensures o in Backlog(oplog) + [op] <==> Unsent(oplog', o) {
      assert o in Backlog(oplog) <==> Unsent(oplog, o);
    }
    forall i | 0 <= i < |Backlog(oplog)| ensures Before(Backlog(oplog)[i].hlc, op.hlc) {
      assert Backlog(oplog)[i] in Backlog(oplog);
    }
    IsTheBacklog(oplog', Backlog(oplog) + [op]);
  }

  /** Recording what another device wrote leaves the backlog alone. */
  lemma BacklogAfterMerged(oplog: Log, op: Operation)
    requires KeyedByStamp(oplog) && op.hlc !in oplog
    ensures Backlog(oplog[op.hlc := LogEntry(op, true)]) == Backlog(oplog)
  {
    var oplog' := oplog[op.hlc := LogEntry(op, true)];
    forall o ensures o in Backlog(oplog) <==> Unsent(oplog', o) {
      assert o in Backlog(oplog) <==> Unsent(oplog, o);
    }
    IsTheBacklog(oplog', Backlog(oplog));
  }

  /** Marking the first `n` of the backlog leaves the rest of it. */
  lemma BacklogAfterMark(oplog: Log, n: nat)
    requires KeyedByStamp(oplog) && n <= |Backlog(oplog)|
    ensures KeyedByStamp(MarkSynced(oplog, StampsOf(Backlog(oplog)[..n])))
    ensures Backlog(MarkSynced(oplog, StampsOf(Backlog(oplog)[..n]))) == Backlog(oplog)[n..]
  {
    BeforeIsTotal();
    var queue := Backlog(oplog);
    var sent := StampsOf(queue[..n]);
    var oplog' := MarkSynced(oplog, sent);
    assert queue == queue[..n] + queue[n..];
    forall o ensures o in queue[n..] <==> Unsent(oplog', o) {
      assert o in queue <==> Unsent(oplog, o);
      if o in queue[..n] {
        var i :| 0 <= i < n && queue[i] == o;
        assert sent[i] == o.hlc;
      }
      if o.hlc in sent {
        var i :| 0 <= i < n && sent[i] == o.hlc;
        assert queue[i] in queue;
      }
    }
    IsTheBacklog(oplog', queue[n..]);
  }

  lemma MarkedEntries(oplog: Log, stamps: seq<Stamp>)
    ensures MarkSynced(oplog, stamps).Keys == oplog.Keys
    ensures forall s :: s in oplog ==> MarkSynced(oplog, stamps)[s].op == oplog[s].op
  {
  }

  lemma MarkedCovers(oplog: Log, known: set<Operation>, stamps: seq<Stamp>)
    requires LogCovers(oplog, known)
    ensures LogCovers(MarkSynced(oplog, stamps), known)
  {
    hide Stale, MarkSynced;
    MarkedEntries(oplog, stamps);
    forall o | o in known ensures Stale(MarkSynced(oplog, stamps), o) {
      assert Stale(oplog, o);
      StaleWhenMarked(oplog, stamps, o);
    }
  }

  lemma StaleWhenMarked(oplog: Log, stamps: seq<Stamp>, o: Operation)
    requires Stale(oplog, o)
    ensures Stale(MarkSynced(oplog, stamps), o)
  {
    hide AtMost, MarkSynced;
    MarkedEntries(oplog, stamps);
    var s :| s in oplog && oplog[s].op.key == o.key && AtMost(o.hlc, s);
    assert s in MarkSynced(oplog, stamps) && MarkSynced(oplog, stamps)[s].op.key == o.key;
  }

  /** Marking changes neither the tables nor what the log says. */
  lemma MarkKeepsInv(l: Ledger, known: set<Operation>, stamps: seq<Stamp>)
    requires LedgerInv(l, known)
    ensures LedgerInv(l.(db := l.db.(oplog := MarkSynced(l.db.oplog, stamps))), known)
  {
    MarkedCovers(l.db.oplog, known, stamps);
  }

  /** The log as it was, with entries added that are not pending. */
  ghost predicate OnlySyncedAdded(before: Log, after: Log) {
    && KeyedByStamp(before) && KeyedByStamp(after) && Backlog(after) == Backlog(before)
    && forall s :: s in before ==> s in after && after[s] == before[s]
  }

  lemma MergeOneKeepsBacklog(db: Db, known: set<Operation>, op: Operation)
    requires Reflects(db, known) && Consistent(known + Usable([op]))
    ensures OnlySyncedAdded(db.oplog, MergeOne(db, op).0.oplog)
  {
    hide Consistent, Before, Stale;
    if !Stale(db.oplog, op) && Applicable(op) {
      assert Usable([op]) == {op};
      if op.hlc in db.oplog { LoggedStampIsStale(db, known, op); }
      BacklogAfterMerged(db.oplog, op);
    }
  }

  /** Merging leaves the backlog alone: only local writes are ever pending. */
  lemma {:induction false} MergeAllKeepsBacklog(db: Db, known: set<Operation>, ops: seq<Operation>)
    requires Reflects(db, known) && Consistent(known + Usable(ops))
    ensures OnlySyncedAdded(db.oplog, MergeAll(db, ops).0.oplog)
    decreases |ops|
  {
    hide MergeOne, Consistent, Backlog;
    if ops == [] {
      assert KeyedByStamp(db.oplog);
    } else {
      var op := ops[0];
      FirstAndRest(known, ops);
      MergeOneKeepsBacklog(db, known, op);
      MergeOneReflects(db, known, op);
      hide Reflects;
      MergeAllKeepsBacklog(MergeOne(db, op).0, known + Usable([op]), ops[1..]);
    }
  }

  lemma MergeKeepsBacklog(db: Db, clock: HlcState, known: set<Operation>, ops: seq<Operation>)
    requires Reflects(db, known) && Consistent(known + Usable(ops))
    ensures var oplog' := Merge(db, clock, ops).0.oplog;
            && KeyedByStamp(oplog') && Backlog(oplog') == Backlog(db.oplog)
            && forall s :: s in db.oplog ==> s in oplog' && oplog'[s] == db.oplog[s]
  {
    hide Before, SortBy, MergeAll, Consistent;
    if ops != [] {
      ByStampIsWeak();
      SortByIsSorted(ByStamp, ops);
      assert Usable(SortBy(ByStamp, ops)) == Usable(ops);
      MergeAllKeepsBacklog(db, known, SortBy(ByStamp, ops));
    }
  }
}
