/**
 Operations, the operation log, and what a set of operations means: for each entity the
 write with the highest stamp wins.
 */
module Oplog {
  import opened Orders
  import opened Hlc
  import opened Domain

  datatype OpKind = PutOp | DeleteOp

  datatype Operation = Operation(hlc: Stamp, key: Key, kind: OpKind, value: Option<Row>, device: string)

  datatype LogEntry = LogEntry(op: Operation, synced: bool)

  /** The operation log, keyed by stamp. */
  type Log = map<Stamp, LogEntry>

  type Tables = map<Key, Row>

  /** The persistent part of a device: entity tables, log, and the saved clock. */
  datatype Db = Db(tables: Tables, oplog: Log, savedClock: HlcState)

  const EMPTY_DB := Db(map[], map[], HlcState(0, 0))

  /** A put without a value is malformed and skipped by `merge`. */
  predicate Applicable(op: Operation) {
    op.kind.DeleteOp? || op.value.Some?
  }

  /** What every author writes: a put carries the row it is about, under its own stamp. */
  predicate Coherent(op: Operation) {
    op.kind.PutOp? && op.value.Some? ==> op.value.value.id == op.key.id && op.value.value.updatedAt == op.hlc
  }

  predicate SameWrite(a: Operation, b: Operation) {
    a.key == b.key && a.kind == b.kind && (a.kind.PutOp? ==> a.value == b.value)
  }

  /** Operations that can have come from one vault: a stamp identifies a write. */
  ghost predicate Consistent(ops: set<Operation>) {
    && (forall o :: o in ops ==> Applicable(o) && Coherent(o))
    && (forall a, b :: a in ops && b in ops && a.hlc == b.hlc ==> SameWrite(a, b))
  }

  // The meaning of a set of operations

  ghost predicate IsTop(ops: set<Operation>, key: Key, o: Operation) {
    o in ops && o.key == key && forall p :: p in ops && p.key == key ==> AtMost(p.hlc, o.hlc)
  }

  ghost function Keys(ops: set<Operation>): set<Key> {
    set o | o in ops :: o.key
  }

  lemma {:induction false} TopExists(ops: set<Operation>, key: Key)
    requires key in Keys(ops)
    ensures exists o :: IsTop(ops, key, o)
  {
    BeforeIsTotal();
    var o :| o in ops && o.key == key;
    var rest := ops - {o};
    if key in Keys(rest) {
      TopExists(rest, key);
      var p :| IsTop(rest, key, p);
      if Before(o.hlc, p.hlc) {
        assert IsTop(ops, key, p);
      } else {
        assert IsTop(ops, key, o);
      }
    } else {
      assert forall p :: p in ops && p.key == key ==> p == o || p in rest;
      assert IsTop(ops, key, o);
    }
  }

  ghost function TopOf(ops: set<Operation>, key: Key): (o: Operation)
    requires key in Keys(ops)
    ensures IsTop(ops, key, o)
  {
    TopExists(ops, key);
    var o :| IsTop(ops, key, o);
    o
  }

  /** Last writer wins: a row for every key whose highest-stamped write is a put. */
  ghost function Resolve(ops: set<Operation>): Tables {
    map key | key in Keys(ops) && TopOf(ops, key).kind.PutOp? && TopOf(ops, key).value.Some?
      :: TopOf(ops, key).value.value
  }

  lemma TopsAreOneWrite(ops: set<Operation>, key: Key, a: Operation, b: Operation)
    requires Consistent(ops) && IsTop(ops, key, a) && IsTop(ops, key, b)
    ensures a.hlc == b.hlc && SameWrite(a, b)
  {
    BeforeIsTotal();
  }

  /** Which of several highest-stamped records is looked at does not matter. */
  lemma ResolveAt(ops: set<Operation>, key: Key, o: Operation)
    requires Consistent(ops) && IsTop(ops, key, o)
    ensures key in Resolve(ops) <==> o.kind.PutOp?
    ensures o.kind.PutOp? ==> o.value == Some(Resolve(ops)[key])
  {
    assert key in Keys(ops);
    TopsAreOneWrite(ops, key, o, TopOf(ops, key));
  }

  /** `more` adds nothing that beats what `ops` already says about `key`. */
  ghost predicate Outranked(ops: set<Operation>, o: Operation) {
    exists p :: p in ops && p.key == o.key && AtMost(o.hlc, p.hlc)
  }

  /** Operations that are outranked do not change the meaning. */
  lemma OutrankedAddsNothing(ops: set<Operation>, more: set<Operation>)
    requires Consistent(ops + more)
    requires forall o :: o in more ==> Outranked(ops, o)
    ensures Resolve(ops + more) == Resolve(ops)
  {
    BeforeIsTotal();
    forall key ensures key in Resolve(ops + more) <==> key in Resolve(ops)
               ensures key in Resolve(ops) ==> Resolve(ops + more)[key] == Resolve(ops)[key]
    {
      if key in Keys(ops) {
        var o := TopOf(ops, key);
        assert IsTop(ops + more, key, o);
        ResolveAt(ops, key, o);
        ResolveAt(ops + more, key, o);
      } else {
        assert key !in Keys(ops + more);
      }
    }
  }

  /** An operation above everything known about its key decides that key and no other. */
  lemma HighestDecides(ops: set<Operation>, o: Operation)
    requires Consistent(ops + {o})
    requires forall p :: p in ops && p.key == o.key ==> Before(p.hlc, o.hlc)
    ensures Resolve(ops + {o}) ==
            if o.kind.DeleteOp? then Resolve(ops) - {o.key} else Resolve(ops)[o.key := o.value.value]
  {
    BeforeIsTotal();
    var all := ops + {o};
    assert IsTop(all, o.key, o);
    ResolveAt(all, o.key, o);
    forall key | key != o.key
      ensures key in Resolve(all) <==> key in Resolve(ops)
      ensures key in Resolve(ops) ==> Resolve(all)[key] == Resolve(ops)[key]
    {
      if key in Keys(ops) {
        var p := TopOf(ops, key);
        assert IsTop(all, key, p);
        ResolveAt(ops, key, p);
        ResolveAt(all, key, p);
      } else {
        assert key !in Keys(all);
      }
    }
  }

  // The log

  ghost function LogOps(oplog: Log): set<Operation> {
    set s | s in oplog :: oplog[s].op
  }

  /** Something at or after this operation's stamp is logged for its key. */
  predicate Stale(oplog: Log, op: Operation) {
    exists s :: s in oplog && oplog[s].op.key == op.key && AtMost(op.hlc, s)
  }

  /** The log holds only operations from `known`, and matches or beats every one of them. */
  ghost predicate LogCovers(oplog: Log, known: set<Operation>) {
    && (forall s :: s in oplog ==> oplog[s].op.hlc == s && oplog[s].op in known)
    && (forall o {:trigger Stale(oplog, o)} :: o in known ==> Stale(oplog, o))
  }

  /**
   The database reflects the set of operations `known`: its log covers them and its tables
   are their meaning. The log need not hold all of `known`, because `merge` drops what is stale.
   */
  ghost predicate Reflects(db: Db, known: set<Operation>) {
    Consistent(known) && LogCovers(db.oplog, known) && db.tables == Resolve(known)
  }

  lemma LogCoversItself(oplog: Log, known: set<Operation>)
    requires Consistent(known) && LogCovers(oplog, known)
    ensures LogOps(oplog) <= known && Consistent(LogOps(oplog)) && LogCovers(oplog, LogOps(oplog))
    ensures forall o :: o in known ==> Outranked(LogOps(oplog), o)
  {
    forall o | o in known ensures Outranked(LogOps(oplog), o) {
      assert Stale(oplog, o);
      var s :| s in oplog && oplog[s].op.key == o.key && AtMost(o.hlc, s);
      assert oplog[s].op in LogOps(oplog);
    }
  }

  /** The tables and the log never disagree: the rows are what the log itself resolves to. */
  lemma TablesAgreeWithLog(db: Db, known: set<Operation>)
    requires Reflects(db, known)
    ensures Reflects(db, LogOps(db.oplog))
  {
    var logged := LogOps(db.oplog);
    LogCoversItself(db.oplog, known);
    assert logged + known == known;
    OutrankedAddsNothing(logged, known);
    assert Resolve(logged) == Resolve(known);
  }

  // Writing and merging

  function Written(db: Db, op: Operation, synced: bool): Db
    requires Applicable(op)
  {
    var tables :=
      if op.kind.DeleteOp? then db.tables - {op.key}
      else db.tables[Key(op.key.entity, op.value.value.id) := op.value.value];
    db.(tables := tables, oplog := db.oplog[op.hlc := LogEntry(op, synced)])
  }

  lemma WrittenTables(db: Db, known: set<Operation>, op: Operation, synced: bool)
    requires Reflects(db, known) && Consistent(known + {op}) && !Stale(db.oplog, op)
    ensures Written(db, op, synced).tables == Resolve(known + {op})
  {
    forall p | p in known && p.key == op.key ensures Before(p.hlc, op.hlc) {
      BeforeIsTotal();
      assert Stale(db.oplog, p);
      var s :| s in db.oplog && db.oplog[s].op.key == p.key && AtMost(p.hlc, s);
      assert !AtMost(op.hlc, s);
    }
    HighestDecides(known, op);
    assert op in known + {op};
  }

  /** A stamp that is logged at all is logged for the same key. */
  lemma LoggedStampIsStale(db: Db, known: set<Operation>, op: Operation)
    requires Reflects(db, known) && Consistent(known + {op}) && op.hlc in db.oplog
    ensures Stale(db.oplog, op)
  {
    assert db.oplog[op.hlc].op in known + {op} && op in known + {op};
    assert SameWrite(db.oplog[op.hlc].op, op);
  }

  lemma WrittenCovers(oplog: Log, known: set<Operation>, op: Operation, synced: bool)
    requires LogCovers(oplog, known) && op.hlc !in oplog
    ensures LogCovers(oplog[op.hlc := LogEntry(op, synced)], known + {op})
  {
    var oplog' := oplog[op.hlc := LogEntry(op, synced)];
    forall o | o in known + {op} ensures Stale(oplog', o) {
      if o == op {
        assert op.hlc in oplog' && AtMost(op.hlc, op.hlc);
      } else {
        assert Stale(oplog, o);
        var s :| s in oplog && oplog[s].op.key == o.key && AtMost(o.hlc, s);
        assert s in oplog' && oplog'[s].op.key == o.key;
      }
    }
  }

  lemma WrittenReflects(db: Db, known: set<Operation>, op: Operation, synced: bool)
    requires Reflects(db, known) && Consistent(known + {op}) && !Stale(db.oplog, op)
    ensures Reflects(Written(db, op, synced), known + {op})
  {
    if op.hlc in db.oplog { LoggedStampIsStale(db, known, op); }
    WrittenCovers(db.oplog, known, op, synced);
    WrittenTables(db, known, op, synced);
  }

  /** One turn of merge's loop: the database after it, and whether the operation was applied. */
  function MergeOne(db: Db, op: Operation): (Db, bool) {
    if Stale(db.oplog, op) || !Applicable(op) then (db, false) else (Written(db, op, true), true)
  }

  function MergeAll(db: Db, ops: seq<Operation>): (Db, nat)
    decreases |ops|
  {
    if ops == [] then (db, 0)
    else
      var (db', applied) := MergeOne(db, ops[0]);
      var (db'', n) := MergeAll(db', ops[1..]);
      (db'', (if applied then 1 else 0) + n)
  }

  predicate ByStamp(a: Operation, b: Operation) {
    Before(a.hlc, b.hlc)
  }

  lemma ByStampIsWeak()
    ensures StrictWeak(ByStamp)
  {
    BeforeIsTotal();
  }

  /** `merge`: apply in stamp order, then save the clock; an empty batch does nothing at all. */
  function Merge(db: Db, clock: HlcState, ops: seq<Operation>): (Db, nat) {
    if ops == [] then (db, 0)
    else var (db', n) := MergeAll(db, SortBy(ByStamp, ops)); (db'.(savedClock := clock), n)
  }

  ghost function Usable(ops: seq<Operation>): set<Operation> {
    set o | o in ops && Applicable(o)
  }

  lemma {:induction false} MergeAllReflects(db: Db, known: set<Operation>, ops: seq<Operation>)
    requires Reflects(db, known) && Consistent(known + Usable(ops))
    ensures Reflects(MergeAll(db, ops).0, known + Usable(ops))
    ensures MergeAll(db, ops).0.savedClock == db.savedClock
    decreases |ops|
  {
    hide MergeOne, Consistent, Reflects;
    if ops == [] {
      assert known + Usable(ops) == known;
    } else {
      FirstAndRest(known, ops);
      MergeOneReflects(db, known, ops[0]);
      MergeAllReflects(MergeOne(db, ops[0]).0, known + Usable([ops[0]]), ops[1..]);
    }
  }

  lemma FirstAndRest(known: set<Operation>, ops: seq<Operation>)
    requires ops != [] && Consistent(known + Usable(ops))
    ensures known + Usable(ops) == known + Usable([ops[0]]) + Usable(ops[1..])
    ensures Consistent(known + Usable([ops[0]]))
  {
    hide Applicable, Coherent, SameWrite;
    assert forall o :: o in ops <==> o in [ops[0]] || o in ops[1..];
  }

  lemma MergeOneReflects(db: Db, known: set<Operation>, op: Operation)
    requires Reflects(db, known) && Consistent(known + Usable([op]))
    ensures Reflects(MergeOne(db, op).0, known + Usable([op]))
    ensures MergeOne(db, op).0.savedClock == db.savedClock
  {
    if !Applicable(op) {
      assert known + Usable([op]) == known;
    } else {
      assert Usable([op]) == {op};
      if Stale(db.oplog, op) {
        StaleAddsNothing(db, known, op);
      } else {
        WrittenReflects(db, known, op, true);
      }
    }
  }

  lemma StaleAddsNothing(db: Db, known: set<Operation>, op: Operation)
    requires Reflects(db, known) && Consistent(known + {op}) && Stale(db.oplog, op)
    ensures Reflects(db, known + {op})
  {
    var s :| s in db.oplog && db.oplog[s].op.key == op.key && AtMost(op.hlc, s);
    assert db.oplog[s].op in known;
    OutrankedAddsNothing(known, {op});
  }

  /** Merging adds exactly the usable operations of the batch to what the device knows. */
  lemma MergeReflects(db: Db, clock: HlcState, known: set<Operation>, ops: seq<Operation>)
    requires Reflects(db, known) && Consistent(known + Usable(ops))
    ensures Reflects(Merge(db, clock, ops).0, known + Usable(ops))
    ensures Merge(db, clock, ops).0.tables == Resolve(known + Usable(ops))
  {
    if ops == [] {
      assert known + Usable(ops) == known;
    } else {
      ByStampIsWeak();
      SortByIsSorted(ByStamp, ops);
      assert Usable(SortBy(ByStamp, ops)) == Usable(ops);
      MergeAllReflects(db, known, SortBy(ByStamp, ops));
    }
  }

  // What merge answers

  lemma MergeOneCounts(db: Db, known: set<Operation>, op: Operation)
    requires Reflects(db, known) && Consistent(known + Usable([op]))
    ensures var (db', applied) := MergeOne(db, op);
            |db'.oplog| == |db.oplog| + if applied then 1 else 0
  {
    hide Coherent, Resolve;
    if Applicable(op) && !Stale(db.oplog, op) {
      assert Usable([op]) == {op};
      if op.hlc in db.oplog { LoggedStampIsStale(db, known, op); }
    }
  }

  lemma {:induction false} MergeAllCounts(db: Db, known: set<Operation>, ops: seq<Operation>)
    requires Reflects(db, known) && Consistent(known + Usable(ops))
    ensures MergeAll(db, ops).1 == |MergeAll(db, ops).0.oplog| - |db.oplog|
    decreases |ops|
  {
    hide MergeOne, Consistent, Reflects;
    if ops != [] {
      FirstAndRest(known, ops);
      MergeOneCounts(db, known, ops[0]);
      MergeOneReflects(db, known, ops[0]);
      MergeAllCounts(MergeOne(db, ops[0]).0, known + Usable([ops[0]]), ops[1..]);
    }
  }

  /** The number a merge answers is how many more stamps the log holds after it. */
  lemma MergeCountsNewStamps(db: Db, clock: HlcState, known: set<Operation>, ops: seq<Operation>)
    requires Reflects(db, known) && Consistent(known + Usable(ops))
    ensures var (db', count) := Merge(db, clock, ops); count == |db'.oplog| - |db.oplog|
  {
    hide MergeAll, Reflects, Consistent;
    if ops != [] {
      ByStampIsWeak();
      SortByIsSorted(ByStamp, ops);
      assert Usable(SortBy(ByStamp, ops)) == Usable(ops);
      MergeAllCounts(db, known, SortBy(ByStamp, ops));
    }
  }

  /** A run of merges, each with the clock of its moment. */
  function MergeBatches(db: Db, clocks: seq<HlcState>, batches: seq<seq<Operation>>): Db
    requires |clocks| == |batches|
    decreases |batches|
  {
    if batches == [] then db
    else MergeBatches(Merge(db, clocks[0], batches[0]).0, clocks[1..], batches[1..])
  }

  ghost function Delivered(batches: seq<seq<Operation>>): set<Operation> {
    if batches == [] then {} else Usable(batches[0]) + Delivered(batches[1..])
  }

  lemma {:induction false} MergeBatchesReflects(db: Db, clocks: seq<HlcState>, batches: seq<seq<Operation>>,
                                                known: set<Operation>)
    requires |clocks| == |batches|
    requires Reflects(db, known) && Consistent(known + Delivered(batches))
    ensures Reflects(MergeBatches(db, clocks, batches), known + Delivered(batches))
    decreases |batches|
  {
    if batches == [] {
      assert known + Delivered(batches) == known;
    } else {
      MergeReflects(db, clocks[0], known, batches[0]);
      assert known + Usable(batches[0]) + Delivered(batches[1..]) == known + Delivered(batches);
      MergeBatchesReflects(Merge(db, clocks[0], batches[0]).0, clocks[1..], batches[1..], known + Usable(batches[0]));
    }
  }

  /**
   Merge is a join: delivering the same operations in any order, any batching and any
   number of times leaves the same tables, on any two devices that started from the same knowledge.
   */
  lemma MergeIsAJoin(db1: Db, clocks1: seq<HlcState>, batches1: seq<seq<Operation>>,
                     db2: Db, clocks2: seq<HlcState>, batches2: seq<seq<Operation>>, known: set<Operation>)
    requires |clocks1| == |batches1| && |clocks2| == |batches2|
    requires Reflects(db1, known) && Reflects(db2, known)
    requires Delivered(batches1) == Delivered(batches2) && Consistent(known + Delivered(batches1))
    ensures MergeBatches(db1, clocks1, batches1).tables == MergeBatches(db2, clocks2, batches2).tables
    ensures MergeBatches(db1, clocks1, batches1).tables == Resolve(known + Delivered(batches1))
  {
    MergeBatchesReflects(db1, clocks1, batches1, known);
    MergeBatchesReflects(db2, clocks2, batches2, known);
  }

  lemma {:induction false} StaleMergeIsNothing(db: Db, ops: seq<Operation>)
    requires forall o :: o in ops && Applicable(o) ==> Stale(db.oplog, o)
    ensures MergeAll(db, ops) == (db, 0)
    decreases |ops|
  {
    if ops != [] {
      StaleMergeIsNothing(db, ops[1..]);
    }
  }

  /** A repeated merge applies nothing and changes no table and no log entry. */
  lemma MergeIsIdempotent(db: Db, clock: HlcState, clock': HlcState, known: set<Operation>, ops: seq<Operation>)
    requires Reflects(db, known) && Consistent(known + Usable(ops))
    ensures var once := Merge(db, clock, ops).0;
            var (twice, applied) := Merge(once, clock', ops);
            applied == 0 && twice.tables == once.tables && twice.oplog == once.oplog
  {
    MergeReflects(db, clock, known, ops);
    var once := Merge(db, clock, ops).0;
    if ops != [] {
      ByStampIsWeak();
      SortByIsSorted(ByStamp, ops);
      assert forall o :: o in ops && Applicable(o) ==> o in known + Usable(ops);
      StaleMergeIsNothing(once, SortBy(ByStamp, ops));
    }
  }

  /** A recorded delete is never undone by older writes, however they are delivered. */
  lemma DeleteIsNotUndone(db: Db, clock: HlcState, known: set<Operation>, ops: seq<Operation>, tombstone: Operation)
    requires Reflects(db, known) && Consistent(known + Usable(ops))
    requires tombstone in known && tombstone.kind.DeleteOp? && IsTop(known, tombstone.key, tombstone)
    requires forall o :: o in ops && o.key == tombstone.key ==> AtMost(o.hlc, tombstone.hlc)
    ensures tombstone.key !in Merge(db, clock, ops).0.tables
  {
    MergeReflects(db, clock, known, ops);
    var all := known + Usable(ops);
    assert IsTop(all, tombstone.key, tombstone);
    ResolveAt(all, tombstone.key, tombstone);
  }

  /** It comes back exactly if the newest merged write to its key is a put stamped above it. */
  lemma DeletedUntilNewerPut(db: Db, clock: HlcState, known: set<Operation>, ops: seq<Operation>, tombstone: Operation)
    requires Reflects(db, known) && Consistent(known + Usable(ops))
    requires tombstone.kind.DeleteOp? && IsTop(known, tombstone.key, tombstone)
    ensures tombstone.key in Merge(db, clock, ops).0.tables
            <==> exists o :: IsTop(Usable(ops), tombstone.key, o) && o.kind.PutOp? && Before(tombstone.hlc, o.hlc)
  {
    hide Usable, Merge, Coherent, Applicable;
    MergeReflects(db, clock, known, ops);
    BeforeIsTotal();
    var key, more := tombstone.key, Usable(ops);
    var all := known + more;
    if key in Keys(more) && Before(tombstone.hlc, TopOf(more, key).hlc) {
      var o := TopOf(more, key);
      assert IsTop(all, key, o);
      ResolveAt(all, key, o);
      forall p | IsTop(more, key, p) ensures SameWrite(o, p) {
        assert o in all && p in all && o.hlc == p.hlc;
      }
    } else {
      forall p | p in more && p.key == key ensures AtMost(p.hlc, tombstone.hlc) {
        assert key in Keys(more) && AtMost(p.hlc, TopOf(more, key).hlc);
      }
      assert IsTop(all, key, tombstone);
      ResolveAt(all, key, tombstone);
    }
  }

  /** No key's winning stamp ever goes down. */
  lemma WinningStampRises(db: Db, clock: HlcState, known: set<Operation>, ops: seq<Operation>, key: Key, o: Operation)
    requires Reflects(db, known) && Consistent(known + Usable(ops)) && IsTop(known, key, o)
    ensures var oplog := Merge(db, clock, ops).0.oplog;
            exists s :: s in oplog && oplog[s].op.key == key && AtMost(o.hlc, s)
    ensures forall p :: IsTop(known + Usable(ops), key, p) ==> AtMost(o.hlc, p.hlc)
  {
    MergeReflects(db, clock, known, ops);
    var all := known + Usable(ops);
    assert o in all;
    assert Stale(Merge(db, clock, ops).0.oplog, o);
  }
}
