/** The ledger service as the program has it: fields updated in place, each method against its specification. */
module LedgerServices {
  import opened Orders
  import opened Text
  import opened Hlc
  import opened Domain
  import opened Oplog
  import opened Ledgers

  /** The id range an index query with a prefix covers: from the prefix to the prefix and U+FFFF. */
  predicate InPrefixRange(id: string, prefix: string) {
    !Less(id, prefix) && !Less(prefix + "\U{FFFF}", id)
  }

  predicate HasPrefix(id: string, prefix: string) {
    |prefix| <= |id| && id[..|prefix|] == prefix
  }

  /** For ids made of characters below U+FFFF the range is exactly the ids with the prefix. */
  lemma {:induction false} RangeIsPrefix(id: string, prefix: string)
    requires forall i :: 0 <= i < |id| ==> id[i] < '\U{FFFF}'
    ensures InPrefixRange(id, prefix) <==> HasPrefix(id, prefix)
  {
    if prefix == [] {
      assert prefix + "\U{FFFF}" == "\U{FFFF}";
      if id != [] { assert id[0] < '\U{FFFF}'; }
    } else {
      assert (prefix + "\U{FFFF}")[1..] == prefix[1..] + "\U{FFFF}";
      if id != [] && id[0] == prefix[0] {
        assert id == [id[0]] + id[1..] && prefix == [prefix[0]] + prefix[1..];
        RangeIsPrefix(id[1..], prefix[1..]);
        if HasPrefix(id[1..], prefix[1..]) { assert id[..|prefix|] == [id[0]] + id[1..][..|prefix| - 1]; }
        if HasPrefix(id, prefix) { assert id[1..][..|prefix| - 1] == id[..|prefix|][1..]; }
      }
    }
  }

  ghost predicate EverLogged(oplog: Log, key: Key) {
    exists s :: s in oplog && oplog[s].op.key == key
  }

  /** The ids of an entity that were ever logged, deleted ones included. */
  ghost function LoggedIds(oplog: Log, entity: EntityName): set<string> {
    set s | s in oplog && oplog[s].op.key.entity == entity :: oplog[s].op.key.id
  }

  /** The ids of an entity in the prefix range, as far as these log entries go. */
  ghost function IdsInRange(oplog: Log, stamps: set<Stamp>, entity: EntityName, prefix: string): set<string> {
    set s | s in stamps && s in oplog && oplog[s].op.key.entity == entity && InPrefixRange(oplog[s].op.key.id, prefix)
      :: oplog[s].op.key.id
  }

  ghost predicate Highest(latest: Option<string>, ids: set<string>) {
    && (latest.None? <==> ids == {})
    && (latest.Some? ==> latest.value in ids && forall id :: id in ids ==> !Less(latest.value, id))
  }

  lemma NothingYet(oplog: Log, entity: EntityName, prefix: string)
    ensures Highest(None, IdsInRange(oplog, oplog.Keys - oplog.Keys, entity, prefix))
  {
  }

  lemma HighestInLog(oplog: Log, entity: EntityName, prefix: string, latest: Option<string>)
    requires Highest(latest, IdsInRange(oplog, oplog.Keys, entity, prefix))
    ensures latest.None? <==> forall id :: id in LoggedIds(oplog, entity) ==> !InPrefixRange(id, prefix)
    ensures latest.Some? ==> latest.value in LoggedIds(oplog, entity) && InPrefixRange(latest.value, prefix)
    ensures latest.Some? ==> forall id :: id in LoggedIds(oplog, entity) && InPrefixRange(id, prefix) ==>
              !Less(latest.value, id)
  {
    hide InPrefixRange, Less;
    var ids := IdsInRange(oplog, oplog.Keys, entity, prefix);
    forall id ensures id in ids <==> id in LoggedIds(oplog, entity) && InPrefixRange(id, prefix) {
      if id in LoggedIds(oplog, entity) && InPrefixRange(id, prefix) {
        var s :| s in oplog && oplog[s].op.key.entity == entity && oplog[s].op.key.id == id;
        assert s in oplog.Keys;
      }
    }
  }

  lemma OneMoreInRange(oplog: Log, stamps: set<Stamp>, s: Stamp, entity: EntityName, prefix: string)
    requires s in oplog
    ensures var id, ids := oplog[s].op.key.id, IdsInRange(oplog, stamps, entity, prefix);
            IdsInRange(oplog, stamps + {s}, entity, prefix) ==
            if oplog[s].op.key.entity == entity && InPrefixRange(id, prefix) then ids + {id} else ids
  {
    hide InPrefixRange;
  }

  lemma HighestOfMore(latest: Option<string>, ids: set<string>, id: string)
    requires Highest(latest, ids)
    ensures Highest(if latest.None? || Less(latest.value, id) then Some(id) else latest, ids + {id})
  {
    hide Less;
    LessTrichotomy(id, id);
    if latest.Some? && Less(latest.value, id) {
      forall other | other in ids ensures !Less(id, other) {
        if Less(id, other) { LessTransitive(latest.value, id, other); }
      }
    }
  }

  /** Comparing with the highest stamp logged for the key decides whether an operation is stale. */
  lemma StaleByLatest(oplog: Log, op: Operation, latest: Option<Stamp>)
    requires latest.None? <==> !EverLogged(oplog, op.key)
    requires latest.Some? ==> latest.value in oplog && oplog[latest.value].op.key == op.key
    requires latest.Some? ==> forall s :: s in oplog && oplog[s].op.key == op.key ==> AtMost(s, latest.value)
    ensures Stale(oplog, op) <==> latest.Some? && AtMost(op.hlc, latest.value)
  {
    BeforeIsTotal();
  }

  datatype PutResult = Stored(row: Row) | Deleted | Failed(error: ClockError)

  class LedgerService {
    const device: string
    const clock: HybridLogicalClock
    var tables: Tables
    var oplog: Log
    var savedClock: HlcState

    ghost function View(): Ledger
      reads this, clock
    {
      Ledger(device, clock.state, Db(tables, oplog, savedClock))
    }

    ghost predicate Valid()
      reads this, clock
    {
      clock.device == device && KeyedByStamp(oplog)
    }

    /** `initialise`: opens the stored database and restores the clock from it. */
    constructor (device: string, stored: Db)
      requires KeyedByStamp(stored.oplog)
      ensures Valid() && fresh(clock)
      ensures View() == Restart(Ledger(device, stored.savedClock, stored))
    {
      this.device := device;
      this.clock := new HybridLogicalClock(device, stored.savedClock);
      tables, oplog, savedClock := stored.tables, stored.oplog, stored.savedClock;
    }

    method Put(entity: EntityName, id: string, content: Content, wall: int) returns (result: PutResult)
      requires Valid()
      modifies this, clock
      ensures Valid()
      ensures match Write(old(View()), Key(entity, id), Some(content), wall)
              case NotWritten(error) => View() == old(View()) && result == Failed(error)
              case Wrote(l, op) => View() == l && op.value.Some? && result == Stored(op.value.value)
    {
      var _, tick := clock.TickStamp(wall);
      if tick.Refused? { return Failed(tick.error); }
      var hlc := Stamp(tick.state.physical, tick.state.counter, device);
      var stamped := Row(id, hlc, content);
      tables := tables[Key(entity, id) := stamped];
      oplog := oplog[hlc := LogEntry(Operation(hlc, Key(entity, id), PutOp, Some(stamped), device), false)];
      savedClock := clock.state;
      return Stored(stamped);
    }

    method Remove(entity: EntityName, id: string, wall: int) returns (result: PutResult)
      requires Valid()
      modifies this, clock
      ensures Valid()
      ensures match Write(old(View()), Key(entity, id), None, wall)
              case NotWritten(error) => View() == old(View()) && result == Failed(error)
              case Wrote(l, op) => View() == l && result == Deleted
    {
      var _, tick := clock.TickStamp(wall);
      if tick.Refused? { return Failed(tick.error); }
      var hlc := Stamp(tick.state.physical, tick.state.counter, device);
      tables := tables - {Key(entity, id)};
      oplog := oplog[hlc := LogEntry(Operation(hlc, Key(entity, id), DeleteOp, None, device), false)];
      savedClock := clock.state;
      return Deleted;
    }

    /** The highest stamp logged for a key, found by scanning. */
    method LatestStampFor(key: Key) returns (max: Option<Stamp>)
      ensures max.None? <==> !EverLogged(oplog, key)
      ensures max.Some? ==> max.value in oplog && oplog[max.value].op.key == key
      ensures max.Some? ==> forall s :: s in oplog && oplog[s].op.key == key ==> AtMost(s, max.value)
    {
      BeforeIsTotal();
      max := None;
      var todo := oplog.Keys;
      while todo != {}
        invariant todo <= oplog.Keys
        invariant max.None? ==> forall s :: s in oplog && s !in todo ==> oplog[s].op.key != key
        invariant max.Some? ==> max.value in oplog && oplog[max.value].op.key == key
        invariant max.Some? ==> forall s :: s in oplog && s !in todo && oplog[s].op.key == key ==> AtMost(s, max.value)
        decreases |todo|
      {
        var s :| s in todo;
        todo := todo - {s};
        if oplog[s].op.key == key && (max.None? || Before(max.value, s)) {
          max := Some(s);
        }
      }
    }

    method HasHistory(entity: EntityName, id: string) returns (ever: bool)
      ensures ever <==> EverLogged(oplog, Key(entity, id))
    {
      var latest := LatestStampFor(Key(entity, id));
      return latest.Some?;
    }

    /** The highest logged id in the prefix range, deletions included. */
    method LatestEntityIdWithPrefix(entity: EntityName, prefix: string) returns (latest: Option<string>)
      ensures latest.None? <==> forall id :: id in LoggedIds(oplog, entity) ==> !InPrefixRange(id, prefix)
      ensures latest.Some? ==> latest.value in LoggedIds(oplog, entity) && InPrefixRange(latest.value, prefix)
      ensures latest.Some? ==> forall id :: id in LoggedIds(oplog, entity) && InPrefixRange(id, prefix) ==>
                !Less(latest.value, id)
    {
      hide InPrefixRange, Less, IdsInRange, Highest, LoggedIds;
      NothingYet(oplog, entity, prefix);
      latest := None;
      var todo := oplog.Keys;
      while todo != {}
        invariant todo <= oplog.Keys
        invariant Highest(latest, IdsInRange(oplog, oplog.Keys - todo, entity, prefix))
        decreases |todo|
      {
        var s :| s in todo;
        var key := oplog[s].op.key;
        assert oplog.Keys - (todo - {s}) == oplog.Keys - todo + {s};
        OneMoreInRange(oplog, oplog.Keys - todo, s, entity, prefix);
        HighestOfMore(latest, IdsInRange(oplog, oplog.Keys - todo, entity, prefix), key.id);
        todo := todo - {s};
        if key.entity == entity && InPrefixRange(key.id, prefix) && (latest.None? || Less(latest.value, key.id)) {
          latest := Some(key.id);
        }
      }
      assert oplog.Keys - todo == oplog.Keys;
      HighestInLog(oplog, entity, prefix, latest);
    }

    /** Applies remote operations in stamp order; stale and malformed ones are passed over. */
    method Merge(ops: seq<Operation>) returns (applied: nat)
      requires Valid()
      modifies this
      ensures Valid()
      ensures var (db, n) := Oplog.Merge(old(View()).db, clock.state, ops);
              View() == old(View()).(db := db) && applied == n
      ensures forall known :: Reflects(old(View()).db, known) && Consistent(known + Usable(ops)) ==>
                applied == |oplog| - |old(oplog)|
    {
      hide SortBy, Stale, Before, AtMost, EverLogged, Reflects, Consistent;
      forall known | Reflects(View().db, known) && Consistent(known + Usable(ops))
        ensures var (db, n) := Oplog.Merge(View().db, clock.state, ops); n == |db.oplog| - |oplog|
      {
        MergeCountsNewStamps(View().db, clock.state, known, ops);
      }
      if ops == [] { return 0; }
      var ordered := SortBy(ByStamp, ops);
      applied := 0;
      ghost var start := Db(tables, oplog, savedClock);
      for i := 0 to |ordered|
        invariant Valid() && savedClock == start.savedClock
        invariant MergeAll(start, ordered) ==
                  var (db, n) := MergeAll(Db(tables, oplog, savedClock), ordered[i..]); (db, applied + n)
      {
        var op := ordered[i];
        assert ordered[i..][0] == op && ordered[i..][1..] == ordered[i + 1..];
        ghost var here := Db(tables, oplog, savedClock);
        var latest := LatestStampFor(op.key);
        StaleByLatest(oplog, op, latest);
        if latest.Some? && AtMost(op.hlc, latest.value) { continue; }
        if op.kind.DeleteOp? {
          tables := tables - {op.key};
        } else if op.value.Some? {
          tables := tables[Key(op.key.entity, op.value.value.id) := op.value.value];
        } else {
          continue;
        }
        oplog := oplog[op.hlc := LogEntry(op, true)];
        applied := applied + 1;
        assert Db(tables, oplog, savedClock) == MergeOne(here, op).0;
      }
      savedClock := clock.state;
    }

    /** Folds stamp texts into the clock one by one; false at the first refusal, the clock keeping its progress. */
    method ObserveStamps(stamps: seq<string>, walls: seq<int>) returns (ok: bool)
      requires Valid() && |stamps| == |walls|
      modifies clock
      ensures Valid()
      ensures (clock.state, ok) == ObserveTexts(old(clock.state), stamps, walls)
    {
      for i := 0 to |stamps|
        invariant Valid()
        invariant ObserveTexts(old(clock.state), stamps, walls) == ObserveTexts(clock.state, stamps[i..], walls[i..])
      {
        assert stamps[i..][1..] == stamps[i + 1..] && walls[i..][1..] == walls[i + 1..];
        var result := clock.ObserveStamp(stamps[i], walls[i]);
        if result.Refused? { return false; }
      }
      return true;
    }

    /** The unsent operations in stamp order, at most `limit` of them. */
    method PendingOperations(limit: nat := 5000) returns (pending: seq<Operation>)
      requires Valid()
      ensures pending == if |Backlog(oplog)| <= limit then Backlog(oplog) else Backlog(oplog)[..limit]
    {
      BeforeIsStrictTotal();
      var stamps: seq<Stamp> := [];
      var todo := oplog.Keys;
      while todo != {}
        invariant todo <= oplog.Keys
        invariant StrictlyAscending(Before, stamps)
        invariant forall s :: s in stamps <==> s in oplog && s !in todo && !oplog[s].synced
        decreases |todo|
      {
        var s :| s in todo;
        todo := todo - {s};
        if !oplog[s].synced {
          InsertNewKeepsStrictOrder(Before, stamps, s);
          stamps := Insert(Before, stamps, s);
        }
      }
      BacklogOfStamps(oplog, stamps);
      IsTheBacklog(oplog, OpsAt(oplog, stamps));
      pending := OpsAt(oplog, stamps);
      if |pending| > limit { pending := pending[..limit]; }
    }

    method MarkSynced(stamps: seq<Stamp>)
      requires Valid()
      modifies this`oplog
      ensures Valid()
      ensures oplog == Ledgers.MarkSynced(old(oplog), stamps)
    {
      for i := 0 to |stamps|
        invariant Valid()
        invariant oplog == Ledgers.MarkSynced(old(oplog), stamps[..i])
      {
        assert stamps[..i + 1] == stamps[..i] + [stamps[i]];
        if stamps[i] in oplog {
          oplog := oplog[stamps[i] := oplog[stamps[i]].(synced := true)];
        }
      }
      assert stamps[..|stamps|] == stamps;
    }
  }
}
