/**
 Snapshots: current rows under a watermark, applied by a fresh device as put operations
 rebuilt from them. A snapshot carries no tombstones, and objects named at or below the
 watermark are skipped unread; the two exact conditions below say when that is harmless.
 */
module Snapshots {
  import opened Orders
  import opened Text
  import opened Hlc
  import opened Domain
  import opened Oplog
  import opened ObjectNames
  import opened LedgerServices

  const SNAPSHOT_AFTER_OPERATIONS := 200

  const ENTITY_NAMES: seq<EntityName> :=
    [AccountGroups, Accounts, Categories, Transactions, Budgets, RecurringRules, Rates, VaultSettings]

  datatype LedgerSnapshot = LedgerSnapshot(device: string, watermark: Stamp, entities: map<EntityName, seq<Row>>)

  /** The operation a snapshot row stands for: a put under the row's own stamp. */
  function RebuiltOp(device: string, entity: EntityName, row: Row): Operation {
    Operation(row.updatedAt, Key(entity, row.id), PutOp, Some(row), device)
  }

  function RowsOf(s: LedgerSnapshot, entity: EntityName): seq<Row> {
    if entity in s.entities then s.entities[entity] else []
  }

  lemma AllEntitiesNamed(entity: EntityName)
    ensures entity in ENTITY_NAMES
  {
    match entity
    case AccountGroups => assert ENTITY_NAMES[0] == entity;
    case Accounts => assert ENTITY_NAMES[1] == entity;
    case Categories => assert ENTITY_NAMES[2] == entity;
    case Transactions => assert ENTITY_NAMES[3] == entity;
    case Budgets => assert ENTITY_NAMES[4] == entity;
    case RecurringRules => assert ENTITY_NAMES[5] == entity;
    case Rates => assert ENTITY_NAMES[6] == entity;
    case VaultSettings => assert ENTITY_NAMES[7] == entity;
  }

  /** Rebuilds a snapshot's operations, entity by entity and row by row. */
  method Rebuild(s: LedgerSnapshot) returns (ops: seq<Operation>)
    ensures forall o :: o in ops <==>
              exists entity, row :: row in RowsOf(s, entity) && o == RebuiltOp(s.device, entity, row)
  {
    ops := [];
    for i := 0 to |ENTITY_NAMES|
      invariant forall o :: o in ops <==>
                  exists entity, row ::
                    entity in ENTITY_NAMES[..i] && row in RowsOf(s, entity) && o == RebuiltOp(s.device, entity, row)
    {
      var entity, rows := ENTITY_NAMES[i], RowsOf(s, ENTITY_NAMES[i]);
      ghost var before := ops;
      for j := 0 to |rows|
        invariant forall o :: o in ops <==>
                    o in before || exists row :: row in rows[..j] && o == RebuiltOp(s.device, entity, row)
      {
        ops := ops + [RebuiltOp(s.device, entity, rows[j])];
      }
      assert rows[..|rows|] == rows && ENTITY_NAMES[..i + 1] == ENTITY_NAMES[..i] + [entity];
      forall o | o in ops && o !in before
        ensures exists e, row :: e in ENTITY_NAMES[..i + 1] && row in RowsOf(s, e) && o == RebuiltOp(s.device, e, row)
      {
        var row :| row in rows && o == RebuiltOp(s.device, entity, row);
      }
    }
    assert ENTITY_NAMES[..|ENTITY_NAMES|] == ENTITY_NAMES;
    forall entity ensures entity in ENTITY_NAMES { AllEntitiesNamed(entity); }
  }

  /** The snapshot lists exactly the rows of the database, under its newest logged stamp. */
  ghost predicate SnapshotOf(db: Db, s: LedgerSnapshot) {
    && (forall entity, row ::
          row in RowsOf(s, entity) <==> Key(entity, row.id) in db.tables && db.tables[Key(entity, row.id)] == row)
    && (forall h :: h in db.oplog ==> AtMost(h, s.watermark))
  }

  /** The last of the log in stamp order. */
  method NewestStamp(oplog: Log) returns (newest: Stamp)
    requires oplog != map[]
    ensures newest in oplog && forall h :: h in oplog ==> AtMost(h, newest)
  {
    BeforeIsTotal();
    hide Before;
    newest :| newest in oplog;
    var todo := oplog.Keys;
    while todo != {}
      invariant todo <= oplog.Keys && newest in oplog
      invariant forall h :: h in oplog.Keys - todo ==> AtMost(h, newest)
      decreases |todo|
    {
      var h :| h in todo;
      todo := todo - {h};
      if Before(newest, h) {
        forall g | g in oplog.Keys - todo ensures AtMost(g, h) {
          assert g == h || AtMost(g, newest);
        }
        newest := h;
      }
    }
  }

  /** A snapshot is written once enough operations are logged past the last one. */
  method BuildSnapshot(ledger: LedgerService, last: Option<Stamp>) returns (s: Option<LedgerSnapshot>)
    requires ledger.Valid()
    requires forall key :: key in ledger.tables ==> ledger.tables[key].id == key.id
    ensures s.Some? <==>
            |set h | h in ledger.oplog && (last.None? || Before(last.value, h))| >= 200
    ensures s.Some? ==>
              && SnapshotOf(ledger.View().db, s.value)
              && s.value.device == ledger.device && s.value.watermark in ledger.oplog
  {
    hide Before, AtMost;
    var since := set h | h in ledger.oplog && (last.None? || Before(last.value, h));
    if |since| < SNAPSHOT_AFTER_OPERATIONS { return None; }
    assert since != {};
    var watermark := NewestStamp(ledger.oplog);
    var entities: map<EntityName, seq<Row>> := map[];
    var keys := ledger.tables.Keys;
    while keys != {}
      invariant keys <= ledger.tables.Keys
      invariant forall entity, row :: row in (if entity in entities then entities[entity] else []) <==>
                  Key(entity, row.id) in ledger.tables.Keys - keys && ledger.tables[Key(entity, row.id)] == row
      decreases |keys|
    {
      var key :| key in keys;
      keys := keys - {key};
      var listed := if key.entity in entities then entities[key.entity] else [];
      entities := entities[key.entity := listed + [ledger.tables[key]]];
    }
    return Some(LedgerSnapshot(ledger.device, watermark, entities));
  }

  ghost function RebuiltSet(s: LedgerSnapshot): set<Operation> {
    set entity, row | entity in ENTITY_NAMES && row in RowsOf(s, entity) :: RebuiltOp(s.device, entity, row)
  }

  /** A snapshot's operations come from the writer's winning puts, record for record but for the author. */
  lemma RebuiltComesFromWinners(db: Db, known: set<Operation>, s: LedgerSnapshot, o: Operation)
    requires Reflects(db, known) && SnapshotOf(db, s) && o in RebuiltSet(s)
    ensures Applicable(o) && Coherent(o) && exists p :: IsTop(known, o.key, p) && SameWrite(o, p) && o.hlc == p.hlc
  {
    var entity, row :| entity in ENTITY_NAMES && row in RowsOf(s, entity) && o == RebuiltOp(s.device, entity, row);
    assert o.key in Resolve(known) && Resolve(known)[o.key] == row;
    var p := TopOf(known, o.key);
    assert IsTop(known, o.key, p);
  }

  lemma Counterpart(db: Db, known: set<Operation>, s: LedgerSnapshot, more: set<Operation>, a: Operation)
    returns (p: Operation)
    requires Reflects(db, known) && SnapshotOf(db, s) && Consistent(known + more) && a in RebuiltSet(s) + more
    ensures Applicable(a) && Coherent(a) && p in known + more && p.hlc == a.hlc && SameWrite(a, p)
  {
    if a in more {
      p := a;
    } else {
      RebuiltComesFromWinners(db, known, s, a);
      p :| IsTop(known, a.key, p) && SameWrite(a, p) && a.hlc == p.hlc;
    }
  }

  lemma RebuiltIsConsistent(db: Db, known: set<Operation>, s: LedgerSnapshot, more: set<Operation>)
    requires Reflects(db, known) && SnapshotOf(db, s) && Consistent(known + more)
    ensures Consistent(RebuiltSet(s) + more)
  {
    forall a | a in RebuiltSet(s) + more ensures Applicable(a) && Coherent(a) {
      var p := Counterpart(db, known, s, more, a);
    }
    forall a, b | a in RebuiltSet(s) + more && b in RebuiltSet(s) + more && a.hlc == b.hlc ensures SameWrite(a, b) {
      var p := Counterpart(db, known, s, more, a);
      var q := Counterpart(db, known, s, more, b);
      assert SameWrite(p, q);
    }
  }

  lemma RebuiltTop(db: Db, known: set<Operation>, s: LedgerSnapshot, key: Key)
    requires Reflects(db, known) && SnapshotOf(db, s)
    ensures key in Keys(RebuiltSet(s)) <==> key in Resolve(known)
    ensures key in Resolve(known) ==> exists o, p ::
              IsTop(RebuiltSet(s), key, o) && IsTop(known, key, p) && o.hlc == p.hlc && SameWrite(o, p)
  {
    if key in Resolve(known) {
      var row := Resolve(known)[key];
      var p := TopOf(known, key);
      assert IsTop(known, key, p) && p.value == Some(row) && Coherent(p);
      AllEntitiesNamed(key.entity);
      var o := RebuiltOp(s.device, key.entity, row);
      assert row in RowsOf(s, key.entity) && o in RebuiltSet(s) && o.key == key;
      forall q | q in RebuiltSet(s) && q.key == key ensures AtMost(q.hlc, o.hlc) {
        RebuiltComesFromWinners(db, known, s, q);
      }
      assert IsTop(RebuiltSet(s), key, o);
    }
    if key in Keys(RebuiltSet(s)) {
      var o :| o in RebuiltSet(s) && o.key == key;
      RebuiltComesFromWinners(db, known, s, o);
      var p :| IsTop(known, key, p) && SameWrite(o, p) && o.hlc == p.hlc;
      ResolveAt(known, key, p);
    }
  }

  /** The stale put the snapshot cannot refuse: the writer deleted the key after it. */
  ghost predicate Resurrects(known: set<Operation>, more: set<Operation>, key: Key) {
    exists w, o ::
      IsTop(known, key, w) && w.kind.DeleteOp? && IsTop(more, key, o) && o.kind.PutOp? && Before(o.hlc, w.hlc)
  }

  /** Of two sets, the higher-stamped top decides the union. */
  lemma TopOfUnion(a: set<Operation>, b: set<Operation>, key: Key, x: Operation, y: Operation)
    requires IsTop(a, key, x) && IsTop(b, key, y)
    ensures AtMost(x.hlc, y.hlc) ==> IsTop(a + b, key, y)
    ensures AtMost(y.hlc, x.hlc) ==> IsTop(a + b, key, x)
  {
    BeforeIsTotal();
  }

  lemma TopOfUnionAlone(a: set<Operation>, b: set<Operation>, key: Key, x: Operation)
    requires IsTop(a, key, x) && key !in Keys(b)
    ensures IsTop(a + b, key, x) && IsTop(b + a, key, x)
  {
    forall p | p in a + b && p.key == key ensures AtMost(p.hlc, x.hlc) {
      assert p in b ==> p.key in Keys(b);
    }
  }

  /** What two meanings say of one key. */
  ghost predicate AgreeAt(t1: Tables, t2: Tables, key: Key) {
    (key in t1 <==> key in t2) && (key in t1 ==> t1[key] == t2[key])
  }

  lemma SnapshotAgreesAt(db: Db, known: set<Operation>, s: LedgerSnapshot, more: set<Operation>, key: Key)
    requires Reflects(db, known) && SnapshotOf(db, s) && Consistent(known + more)
    ensures AgreeAt(Resolve(known + more), Resolve(RebuiltSet(s) + more), key) <==> !Resurrects(known, more, key)
  {
    var rebuilt := RebuiltSet(s);
    RebuiltIsConsistent(db, known, s, more);
    RebuiltTop(db, known, s, key);
    BeforeIsTotal();
    if key !in Keys(more) {
      if key in Keys(known) {
        var w := TopOf(known, key);
        ResolveAt(known, key, w);
        TopOfUnionAlone(known, more, key, w);
        ResolveAt(known + more, key, w);
      }
      if key in Resolve(known) {
        var p, q :| IsTop(rebuilt, key, p) && IsTop(known, key, q) && p.hlc == q.hlc && SameWrite(p, q);
        ResolveAt(known, key, q);
        TopOfUnionAlone(rebuilt, more, key, p);
        ResolveAt(rebuilt + more, key, p);
      } else {
        assert key !in Keys(rebuilt + more);
      }
    } else {
      var o := TopOf(more, key);
      if key !in Keys(known) {
        TopOfUnionAlone(more, known, key, o);
        TopOfUnionAlone(more, rebuilt, key, o);
        assert known + more == more + known && rebuilt + more == more + rebuilt;
        ResolveAt(known + more, key, o);
        ResolveAt(rebuilt + more, key, o);
      } else {
        SnapshotAgreesAtShared(db, known, s, more, key, TopOf(known, key), o);
      }
    }
  }

  lemma SnapshotAgreesAtShared(db: Db, known: set<Operation>, s: LedgerSnapshot, more: set<Operation>, key: Key,
                               w: Operation, o: Operation)
    requires Reflects(db, known) && SnapshotOf(db, s) && Consistent(known + more)
    requires IsTop(known, key, w) && IsTop(more, key, o)
    ensures AgreeAt(Resolve(known + more), Resolve(RebuiltSet(s) + more), key) <==> !Resurrects(known, more, key)
  {
    var rebuilt := RebuiltSet(s);
    RebuiltIsConsistent(db, known, s, more);
    RebuiltTop(db, known, s, key);
    ResolveAt(known, key, w);
    if w.kind.PutOp? {
      var p, q :| IsTop(rebuilt, key, p) && IsTop(known, key, q) && p.hlc == q.hlc && SameWrite(p, q);
      TopsAreOneWrite(known, key, q, w);
      UnionsAgree(known, rebuilt, more, key, w, p, o);
      if Resurrects(known, more, key) {
        var v :| IsTop(known, key, v) && v.kind.DeleteOp?;
        TopsAreOneWrite(known, key, v, w);
      }
    } else {
      DeletedUnion(known, rebuilt, more, key, w, o);
    }
  }

  /** Sets whose tops at a key are the same write agree there, whatever is added. */
  lemma UnionsAgree(a: set<Operation>, b: set<Operation>, more: set<Operation>, key: Key,
                    w: Operation, p: Operation, o: Operation)
    requires Consistent(a + more) && Consistent(b + more)
    requires IsTop(a, key, w) && IsTop(b, key, p) && w.hlc == p.hlc && SameWrite(p, w) && IsTop(more, key, o)
    ensures AgreeAt(Resolve(a + more), Resolve(b + more), key)
  {
    BeforeIsTotal();
    TopOfUnion(a, more, key, w, o);
    TopOfUnion(b, more, key, p, o);
    ResolveAt(a + more, key, if AtMost(w.hlc, o.hlc) then o else w);
    ResolveAt(b + more, key, if AtMost(p.hlc, o.hlc) then o else p);
  }

  /** Where one side holds a tombstone and the other nothing, only an older put tells them apart. */
  lemma DeletedUnion(a: set<Operation>, b: set<Operation>, more: set<Operation>, key: Key, w: Operation, o: Operation)
    requires Consistent(a + more) && Consistent(b + more)
    requires IsTop(a, key, w) && w.kind.DeleteOp? && key !in Keys(b) && IsTop(more, key, o)
    ensures AgreeAt(Resolve(a + more), Resolve(b + more), key) <==> !Resurrects(a, more, key)
  {
    BeforeIsTotal();
    TopOfUnion(a, more, key, w, o);
    ResolveAt(a + more, key, if AtMost(w.hlc, o.hlc) then o else w);
    TopOfUnionAlone(more, b, key, o);
    assert b + more == more + b;
    ResolveAt(b + more, key, o);
    assert forall v :: IsTop(a, key, v) ==> v.hlc == w.hlc;
    forall v | IsTop(more, key, v) ensures v.hlc == o.hlc && v.kind == o.kind {
      assert v in a + more && o in a + more;
    }
    assert o.kind.PutOp? && Before(o.hlc, w.hlc) ==> Resurrects(a, more, key);
  }

  /**
   A fresh device that applies a snapshot and then any operations shows what the writer
   would show after the same operations, exactly when none of them is a put older than a
   delete that still stands in the writer's log.
   */
  lemma SnapshotEquivalence(db: Db, known: set<Operation>, s: LedgerSnapshot, snapshotOps: seq<Operation>,
                            clock: HlcState, clock': HlcState, more: seq<Operation>)
    requires Reflects(db, known) && SnapshotOf(db, s) && Consistent(known + Usable(more))
    requires forall o :: o in snapshotOps <==> o in RebuiltSet(s)
    ensures var fresh0 := Merge(EMPTY_DB, clock, snapshotOps).0;
            && fresh0.tables == db.tables
            && (Merge(fresh0, clock', more).0.tables == Merge(db, clock', more).0.tables
                <==> forall key :: !Resurrects(known, Usable(more), key))
  {
    var rebuilt, later := RebuiltSet(s), Usable(more);
    RebuiltIsConsistent(db, known, s, {});
    RebuiltIsConsistent(db, known, s, later);
    assert known + {} == known && rebuilt + {} == rebuilt;
    assert Usable(snapshotOps) == rebuilt by {
      forall o | o in rebuilt ensures Applicable(o) { }
    }
    assert Resolve({}) == map[];
    assert {} + rebuilt == rebuilt;
    MergeReflects(EMPTY_DB, clock, {}, snapshotOps);
    var fresh0 := Merge(EMPTY_DB, clock, snapshotOps).0;
    MergeReflects(fresh0, clock', rebuilt, more);
    MergeReflects(db, clock', known, more);
    forall key ensures AgreeAt(fresh0.tables, db.tables, key) {
      SnapshotAgreesAt(db, known, s, {}, key);
      assert known + {} == known && rebuilt + {} == rebuilt;
    }
    forall key
      ensures AgreeAt(Resolve(known + later), Resolve(rebuilt + later), key) <==> !Resurrects(known, later, key)
    {
      SnapshotAgreesAt(db, known, s, later, key);
    }
    TablesAgreeEverywhere(Resolve(known + later), Resolve(rebuilt + later));
    TablesAgreeEverywhere(fresh0.tables, db.tables);
  }

  lemma TablesAgreeEverywhere(t1: Tables, t2: Tables)
    ensures t1 == t2 <==> forall key :: AgreeAt(t1, t2, key)
  {
    if forall key :: AgreeAt(t1, t2, key) {
      forall key ensures key in t1 <==> key in t2 { assert AgreeAt(t1, t2, key); }
      forall key | key in t1 ensures t1[key] == t2[key] { assert AgreeAt(t1, t2, key); }
    }
  }

  /** Operations stamped after the watermark can resurrect nothing: the case the design relies on. */
  lemma AfterWatermarkIsSafe(db: Db, known: set<Operation>, s: LedgerSnapshot, more: set<Operation>)
    requires Reflects(db, known) && SnapshotOf(db, s)
    requires forall o :: o in more ==> Before(s.watermark, o.hlc)
    ensures forall key :: !Resurrects(known, more, key)
  {
    BeforeIsTotal();
    forall w, o | w in known && o in more ensures !Before(o.hlc, w.hlc) {
      assert Stale(db.oplog, w);
      var h :| h in db.oplog && db.oplog[h].op.key == w.key && AtMost(w.hlc, h);
      assert AtMost(h, s.watermark);
    }
  }

  // Objects skipped because their name falls at or below the watermark

  /** The name of the object carries a stamp at or below the watermark. */
  predicate CoveredBy(name: string, watermark: string) {
    match StampFromObjectName(name)
    case Unnamed => false
    case Named(stamp) => !Less(watermark, stamp)
  }

  /** For a batch that means that its head, hence every operation in it, is stamped no later than the watermark. */
  lemma CoveredByStamp(vaultId: string, head: Stamp, watermark: Stamp)
    requires Encodable(head) && Encodable(watermark)
    ensures CoveredBy(OpsObjectName(vaultId, Encode(head)), Encode(watermark)) <==> AtMost(head, watermark)
  {
    hide Before, Encode, OpsObjectName, StampFromObjectName;
    NameGivesStampBack(vaultId, head);
    EncodeOrder(watermark, head);
    BeforeIsTotal();
  }

  function Select(names: seq<string>, wanted: string -> bool): seq<string> {
    if names == [] then []
    else Select(names[..|names| - 1], wanted) + if wanted(names[|names| - 1]) then [names[|names| - 1]] else []
  }

  /** How a pull splits a listing: what was seen is passed over, what the watermark covers is not downloaded. */
  method SplitListing(remote: seq<string>, seen: set<string>, watermark: Option<string>)
    returns (download: seq<string>, covered: seq<string>)
    ensures covered == Select(remote, n => n !in seen && watermark.Some? && CoveredBy(n, watermark.value))
    ensures download == Select(remote, n => n !in seen && !(watermark.Some? && CoveredBy(n, watermark.value)))
  {
    download, covered := [], [];
    for i := 0 to |remote|
      invariant covered == Select(remote[..i], n => n !in seen && watermark.Some? && CoveredBy(n, watermark.value))
      invariant download == Select(remote[..i], n => n !in seen && !(watermark.Some? && CoveredBy(n, watermark.value)))
    {
      assert remote[..i + 1][..i] == remote[..i];
      if remote[i] in seen { continue; }
      if watermark.Some? && CoveredBy(remote[i], watermark.value) {
        covered := covered + [remote[i]];
      } else {
        download := download + [remote[i]];
      }
    }
    assert remote[..|remote|] == remote;
  }

  /** An operation the snapshot has not taken into account and that would change a row. */
  ghost predicate Missed(known: set<Operation>, o: Operation) {
    !Outranked(known, o) && (o.kind.PutOp? || o.key in Resolve(known))
  }

  /**
   Skipping a batch unread loses nothing exactly when no operation that is the newest in
   it for its key is missed: the object's name being covered by the watermark does not say so.
   */
  lemma SkippingIsHarmless(known: set<Operation>, batch: set<Operation>)
    requires Consistent(known + batch)
    ensures Resolve(known + batch) == Resolve(known) <==> forall key, o :: IsTop(batch, key, o) ==> !Missed(known, o)
  {
    BeforeIsTotal();
    forall key, o | IsTop(batch, key, o)
      ensures AgreeAt(Resolve(known + batch), Resolve(known), key) <==> !Missed(known, o)
    {
      SkippingAt(known, batch, key, o);
    }
    forall key | key !in Keys(batch) ensures AgreeAt(Resolve(known + batch), Resolve(known), key) {
      if key in Keys(known) {
        var w := TopOf(known, key);
        TopOfUnionAlone(known, batch, key, w);
        ResolveAt(known, key, w);
        ResolveAt(known + batch, key, w);
      } else {
        assert key !in Keys(known + batch);
      }
    }
    forall key | key in Keys(batch) ensures IsTop(batch, key, TopOf(batch, key)) { }
    TablesAgreeEverywhere(Resolve(known + batch), Resolve(known));
  }

  lemma SkippingAt(known: set<Operation>, batch: set<Operation>, key: Key, o: Operation)
    requires Consistent(known + batch) && IsTop(batch, key, o)
    ensures AgreeAt(Resolve(known + batch), Resolve(known), key) <==> !Missed(known, o)
  {
    BeforeIsTotal();
    if key in Keys(known) {
      var w := TopOf(known, key);
      TopOfUnion(known, batch, key, w, o);
      ResolveAt(known, key, w);
      ResolveAt(known + batch, key, if AtMost(o.hlc, w.hlc) then w else o);
      assert Outranked(known, o) <==> AtMost(o.hlc, w.hlc);
      assert w in known + batch && o in known + batch;
      assert Coherent(w) && Coherent(o);
    } else {
      TopOfUnionAlone(batch, known, key, o);
      assert known + batch == batch + known;
      ResolveAt(known + batch, key, o);
    }
  }

  /** A fresh device that skips a batch after applying a snapshot is right exactly when the batch is harmless. */
  lemma JoiningAndSkipping(db: Db, known: set<Operation>, s: LedgerSnapshot, snapshotOps: seq<Operation>,
                           clock: HlcState, batch: set<Operation>)
    requires Reflects(db, known) && SnapshotOf(db, s) && Consistent(known + batch)
    requires forall o :: o in snapshotOps <==> o in RebuiltSet(s)
    ensures Merge(EMPTY_DB, clock, snapshotOps).0.tables == Resolve(known + batch)
            <==> forall key, o :: IsTop(batch, key, o) ==> !Missed(known, o)
  {
    hide Resolve, Merge, IsTop, Missed, RebuiltSet, SnapshotOf, LogCovers;
    assert known + Usable([]) == known;
    SnapshotEquivalence(db, known, s, snapshotOps, clock, clock, []);
    SkippingIsHarmless(known, batch);
  }

  // Witnesses

  const EARLY := Stamp(1, 0, "b")
  const LATER := Stamp(2, 0, "a")

  function SomeRow(id: string, hlc: Stamp): Row {
    Row(id, hlc, OtherContent(""))
  }

  /** A database that was written to once. */
  function OnceWritten(op: Operation): Db
    requires Applicable(op)
  {
    Written(EMPTY_DB, op, true)
  }

  lemma OnceWrittenReflects(op: Operation)
    requires Applicable(op) && Coherent(op)
    ensures Reflects(OnceWritten(op), {op})
  {
    assert Resolve({}) == map[];
    assert {} + {op} == {op};
    WrittenReflects(EMPTY_DB, {}, op, true);
  }

  const KEPT := Operation(LATER, Key(Budgets, "x"), PutOp, Some(SomeRow("x", LATER)), "a")
  const LATE := Operation(EARLY, Key(Accounts, "y"), PutOp, Some(SomeRow("y", EARLY)), "b")
  const SNAPSHOT := LedgerSnapshot("a", LATER, map[Budgets := [SomeRow("x", LATER)]])

  /**
   A row lost. One device wrote `KEPT` and its snapshot; another had written `LATE` before, and pushes
   it after. The batch is named under the watermark, so a device that joins from the snapshot
   skips it, and never has the row that every other device has.
   */
  lemma CoveredButMissed(vaultId: string, clock: HlcState, snapshotOps: seq<Operation>)
    requires forall o :: o in snapshotOps <==> o in RebuiltSet(SNAPSHOT)
    ensures Reflects(OnceWritten(KEPT), {KEPT}) && SnapshotOf(OnceWritten(KEPT), SNAPSHOT)
    ensures CoveredBy(OpsObjectName(vaultId, Encode(LATE.hlc)), Encode(SNAPSHOT.watermark))
    ensures Merge(EMPTY_DB, clock, snapshotOps).0.tables != Resolve({KEPT} + {LATE})
  {
    hide Resolve, Merge, RebuiltSet, Encode, OpsObjectName, StampFromObjectName;
    OnceWrittenReflects(KEPT);
    EncodableWitnesses();
    CoveredByStamp(vaultId, LATE.hlc, SNAPSHOT.watermark);
    assert LATE.hlc != KEPT.hlc;
    JoiningAndSkipping(OnceWritten(KEPT), {KEPT}, SNAPSHOT, snapshotOps, clock, {LATE});
    assert IsTop({LATE}, LATE.key, LATE) && Missed({KEPT}, LATE);
  }

  lemma EncodableWitnesses()
    ensures Encodable(EARLY) && Encodable(LATER)
  {
    assert Power(10, PHYSICAL_WIDTH) == 10 * Power(10, 18);
    PowerIsPositive(10, 18);
  }

  const TOMBSTONE := Operation(LATER, Key(Accounts, "y"), DeleteOp, None, "a")
  const NO_ROWS := LedgerSnapshot("a", LATER, map[])

  /**
   A row brought back. A device deleted the row of `LATE` before it had seen it; its snapshot holds no
   trace of that. A device that joins from the snapshot and then merges `LATE` has the row, the writer does not.
   */
  lemma SnapshotForgetsDeletes(clock: HlcState, clock': HlcState)
    ensures Reflects(OnceWritten(TOMBSTONE), {TOMBSTONE}) && SnapshotOf(OnceWritten(TOMBSTONE), NO_ROWS)
    ensures LATE.key in Merge(Merge(EMPTY_DB, clock, []).0, clock', [LATE]).0.tables
    ensures LATE.key !in Merge(OnceWritten(TOMBSTONE), clock', [LATE]).0.tables
  {
    hide Merge, SortBy;
    OnceWrittenReflects(TOMBSTONE);
    assert LATE.hlc != TOMBSTONE.hlc;
    assert Usable([LATE]) == {LATE} && {} + {LATE} == {LATE};
    assert Resolve({}) == map[];
    NothingMerged(EMPTY_DB, clock);
    MergeReflects(EMPTY_DB, clock', {}, [LATE]);
    assert IsTop({LATE}, LATE.key, LATE);
    ResolveAt({LATE}, LATE.key, LATE);
    assert IsTop({TOMBSTONE}, LATE.key, TOMBSTONE);
    DeleteIsNotUndone(OnceWritten(TOMBSTONE), clock', {TOMBSTONE}, [LATE], TOMBSTONE);
  }

  lemma NothingMerged(db: Db, clock: HlcState)
    ensures Merge(db, clock, []).0 == db
  {
  }
}
