/**
 Which states of the protocol against a refusing store can still come to rest: exactly those in
 which no device is wedged. Runs into the states that matter, from the very start, come first.
 */
module RefusedRests {
  import opened Hlc
  import opened Domain
  import opened Oplog
  import opened Ledgers
  import opened Replication
  import opened Runs
  import opened SyncServices
  import opened Reachability
  import opened Refusals

  lemma {:induction false} RefusingConcat(sys: System, a: seq<(string, Event)>, b: seq<(string, Event)>)
    ensures RefusingRun(sys, a + b) == RefusingRun(RefusingRun(sys, a), b)
    decreases |a|
  {
    hide RefusingStep;
    if a == [] {
      assert a + b == b;
    } else {
      assert (a + b)[1..] == a[1..] + b;
      RefusingConcat(RefusingStep(sys, a[0].0, a[0].1), a[1..], b);
    }
  }

  lemma RefusingOne(sys: System, id: string, event: Event)
    ensures RefusingRun(sys, [(id, event)]) == RefusingStep(sys, id, event)
  {
    hide RefusingStep;
    OneMore(sys, [(id, event)]);
  }

  // Runs from the start

  /** One more local write by a clock that has moved on. */
  lemma OneWrite(sys: System, id: string, key: Key) returns (write: Event)
    requires SysInv(sys) && id in sys.devices
    ensures write.LocalWrite? && Write(sys.devices[id].ledger, write.key, write.content, write.wall).Wrote?
    ensures var sys' := RefusingStep(sys, id, write);
            && SysInv(sys') && id in sys'.devices && sys'.remote == sys.remote
            && sys'.devices == sys.devices[id := sys'.devices[id]]
            && sys'.devices[id].job == sys.devices[id].job
            && |Pending(sys', id)| == |Pending(sys, id)| + 1
  {
    hide Before, Consistent, LedgerInv, Reflects, KeyedByStamp;
    var d := DeviceOf(sys, id);
    write := LocalWrite(key, None, d.ledger.clock.physical + 1);
    RefusingStepKeeps(sys, id, write);
    LocalWriteIsNew(sys, id, key, None, write.wall);
    LocalWriteDevice(d, sys.remote, sys.authored, key, None, write.wall);
  }

  lemma {:induction false} ManyWrites(sys: System, id: string, key: Key, n: nat) returns (events: seq<(string, Event)>)
    requires SysInv(sys) && id in sys.devices
    ensures var sys' := RefusingRun(sys, events);
            && SysInv(sys') && id in sys'.devices && sys'.remote == sys.remote
            && sys'.devices[id].job == sys.devices[id].job
            && |Pending(sys', id)| == |Pending(sys, id)| + n
    decreases n
  {
    hide RefusingStep, SysInv, Pending, Write;
    if n == 0 {
      events := [];
    } else {
      var write := OneWrite(sys, id, key);
      var rest := ManyWrites(RefusingStep(sys, id, write), id, key, n - 1);
      RefusingOne(sys, id, write);
      RefusingConcat(sys, [(id, write)], rest);
      events := [(id, write)] + rest;
    }
  }

  function UploadAndCrash(id: string): seq<(string, Event)> {
    [(id, PushBegin)] + ([(id, PushUpload)] + [(id, Crash)])
  }

  lemma UploadAndCrashRuns(sys: System, id: string)
    ensures var begun := RefusingStep(sys, id, PushBegin);
            RefusingRun(sys, UploadAndCrash(id)) == RefusingStep(RefusingStep(begun, id, PushUpload), id, Crash)
  {
    hide RefusingStep;
    var begun := RefusingStep(sys, id, PushBegin);
    RefusingConcat(sys, [(id, PushBegin)], [(id, PushUpload)] + [(id, Crash)]);
    RefusingConcat(begun, [(id, PushUpload)], [(id, Crash)]);
    RefusingOne(sys, id, PushBegin);
    RefusingOne(begun, id, PushUpload);
    RefusingOne(RefusingStep(begun, id, PushUpload), id, Crash);
  }

  /** A crash right after an upload leaves the device stuck. */
  lemma CrashAfterUploadSticks(sys: System, id: string)
    requires SysInv(sys) && id in sys.devices && sys.devices[id].job.Idle? && Pending(sys, id) != [] && !Stuck(sys, id)
    ensures var sys' := RefusingRun(sys, UploadAndCrash(id));
            SysInv(sys') && id in sys'.devices && Pending(sys', id) == Pending(sys, id) && Stuck(sys', id)
  {
    UploadAndCrashRuns(sys, id);
    RefusingRunKeeps(sys, UploadAndCrash(id));
    var d := DeviceOf(sys, id);
    UploadThenCrash(sys, id);
    hide RefusingStep, Backlog, KeyedByStamp;
    var sys' := RefusingRun(sys, UploadAndCrash(id));
    assert Pending(sys', id) == Pending(sys, id);
  }

  /** From the start, writes and one crash get a device stuck, and after a full batch wedged. */
  lemma StuckFromTheStart(ids: set<string>, id: string, key: Key) returns (events: seq<(string, Event)>)
    requires id in ids
    ensures var sys := RefusingRun(Start(ids), events);
            SysInv(sys) && id in sys.devices && Stuck(sys, id) && |Pending(sys, id)| < MAX_OPS_PER_BATCH
  {
    hide RefusingRun;
    StartInv(ids);
    var writes := ManyWrites(Start(ids), id, key, 1);
    NothingPendingYet(ids, id);
    var sys := RefusingRun(Start(ids), writes);
    CrashAfterUploadSticks(sys, id);
    RefusingConcat(Start(ids), writes, UploadAndCrash(id));
    events := writes + UploadAndCrash(id);
  }

  lemma NothingPendingYet(ids: set<string>, id: string)
    requires id in ids && SysInv(Start(ids))
    ensures Pending(Start(ids), id) == []
  {
    assert IsBacklog(map[], []);
    IsTheBacklog(map[], []);
  }

  lemma WedgedFromTheStart(ids: set<string>, id: string, key: Key)
    returns (events: seq<(string, Event)>, slice: seq<Operation>)
    requires id in ids
    ensures Wedged(RefusingRun(Start(ids), events), id, slice)
  {
    hide RefusingRun, Wedged;
    StartInv(ids);
    var writes := ManyWrites(Start(ids), id, key, MAX_OPS_PER_BATCH);
    NothingPendingYet(ids, id);
    var sys := RefusingRun(Start(ids), writes);
    slice := Slice(Pending(sys, id));
    CrashAfterUploadWedges(sys, id);
    UploadAndCrashRuns(sys, id);
    RefusingConcat(Start(ids), writes, UploadAndCrash(id));
    events := writes + UploadAndCrash(id);
  }

  // What is not wedged can be sent

  predicate OnlyBy(events: seq<(string, Event)>, id: string) {
    forall e :: e in events ==> e.0 == id
  }

  /** No batch the device ever stored is still pending there. */
  ghost predicate Clear(sys: System, id: string)
    requires id in sys.devices
  {
    forall h :: h in sys.remote && sys.remote[h].device == id ==> IsSynced(sys.devices[id], h)
  }

  lemma HeadOfPending(sys: System, id: string)
    requires SysInv(sys) && id in sys.devices && Stuck(sys, id)
    ensures var h := HeadOf(Slice(Pending(sys, id)));
            && sys.remote[h].device == id && !IsSynced(sys.devices[id], h)
            && sys.remote[h].ops == Slice(Pending(sys, id))
  {
    hide Before, Resolve, Stale;
    var d := DeviceOf(sys, id);
    var backlog := Pending(sys, id);
    var slice := Slice(backlog);
    var h, last := HeadOf(slice), slice[|slice| - 1];
    var b := BatchAt(sys, h);
    assert last == backlog[|slice| - 1] && last in backlog;
    assert Unsent(d.ledger.db.oplog, last) && last in d.known;
    assert b.ops[|b.ops| - 1] in b.ops;
    SameHeadSamePrefix(backlog, slice, b.ops);
  }

  lemma ClearIsNotStuck(sys: System, id: string)
    requires SysInv(sys) && id in sys.devices && Clear(sys, id)
    ensures !Stuck(sys, id)
  {
    hide SysInv;
    if Stuck(sys, id) { HeadOfPending(sys, id); }
  }

  /** Recording what was uploaded leaves nothing stored and pending. */
  lemma MarkClears(sys: System, id: string)
    requires SysInv(sys) && id in sys.devices && sys.devices[id].job.Recorded? && sys.devices[id].job.queue != []
    ensures Clear(RefusingStep(sys, id, PushMark), id)
  {
    hide SysInv, Before, LedgerInv, OwnLog, StampsAscend, JobInv, IsSynced, MarkPushed;
    var d := DeviceOf(sys, id);
    forall h | h in sys.remote && sys.remote[h].device == id ensures IsSynced(MarkPushed(d), h) {
      var b := BatchAt(sys, h);
      OwnHeadIsLogged(sys, id, h);
      MarkPushedOwnBatch(d, sys.remote, sys.authored, h, b);
    }
  }

  /** A push of a device that is not stuck, and a failure after it if more is pending. */
  lemma UploadClears(sys: System, id: string)
    requires SysInv(sys) && id in sys.devices && sys.devices[id].job.Idle?
    requires Pending(sys, id) != [] && !Stuck(sys, id)
    ensures var sys' := RefusingRun(sys, OneUpload(id));
            && SysInv(sys') && id in sys'.devices && Clear(sys', id)
            && Pending(sys', id) == Pending(sys, id)[|Slice(Pending(sys, id))|..]
  {
    PushGoesOn(sys, id);
    OneUploadRuns(sys, id);
    var d := DeviceOf(sys, id);
    SliceOfSendable(Pending(sys, id));
    RecordedJob(sys, id);
    hide RefusingStep, SysInv, Pending;
    var sys1 := RefusingStep(sys, id, PushBegin);
    var sys2 := RefusingStep(sys1, id, PushUpload);
    RefusingStepKeeps(sys, id, PushBegin);
    RefusingStepKeeps(sys1, id, PushUpload);
    RefusingStepKeeps(sys2, id, PushRecord);
    MarkClears(RefusingStep(sys2, id, PushRecord), id);
  }

  lemma RecordedJob(sys: System, id: string)
    requires id in sys.devices && sys.devices[id].job.Idle? && KeyedByStamp(sys.devices[id].ledger.db.oplog)
    requires Backlog(sys.devices[id].ledger.db.oplog) != []
    requires HeadOf(Slice(Backlog(sys.devices[id].ledger.db.oplog))) !in sys.remote
    ensures var sys3 := RefusingStep(RefusingStep(RefusingStep(sys, id, PushBegin), id, PushUpload), id, PushRecord);
            id in sys3.devices && sys3.devices[id].job.Recorded? && sys3.devices[id].job.queue != []
  {
    hide Backlog, Slice;
    SliceOfSendable(Backlog(sys.devices[id].ledger.db.oplog));
  }

  lemma FailedRun(sys: System, id: string)
    requires SysInv(sys) && id in sys.devices
    ensures var sys' := RefusingRun(sys, [(id, Fail)]);
            && SysInv(sys') && sys' == With(sys, id, sys.devices[id].(job := Idle))
            && Pending(sys', id) == Pending(sys, id)
  {
    RefusingOne(sys, id, Fail);
    RefusingStepKeeps(sys, id, Fail);
    FailIsIdle(sys, id);
  }

  /** A device that is not stuck sends all it has pending, batch by batch. */
  lemma {:induction false} DrainUnstuck(sys: System, id: string) returns (events: seq<(string, Event)>)
    requires SysInv(sys) && id in sys.devices && sys.devices[id].job.Idle? && !Stuck(sys, id)
    ensures OnlyBy(events, id)
    ensures var sys' := RefusingRun(sys, events); SysInv(sys') && id in sys'.devices && Pending(sys', id) == []
    decreases |Pending(sys, id)|
  {
    hide SysInv, Pending, RefusingRun, Clear;
    if Pending(sys, id) == [] {
      events := [];
      RefusingNothing(sys);
    } else {
      UploadClears(sys, id);
      var sys1 := RefusingRun(sys, OneUpload(id));
      FailedRun(sys1, id);
      var sys2 := RefusingRun(sys1, [(id, Fail)]);
      StillClear(sys1, id);
      ClearIsNotStuck(sys2, id);
      var rest := DrainUnstuck(sys2, id);
      RefusingConcat(sys1, [(id, Fail)], rest);
      RefusingConcat(sys, OneUpload(id), [(id, Fail)] + rest);
      events := OneUpload(id) + ([(id, Fail)] + rest);
    }
  }

  lemma RefusingNothing(sys: System)
    ensures RefusingRun(sys, []) == sys
  {
  }

  lemma StillClear(sys: System, id: string)
    requires id in sys.devices && Clear(sys, id)
    ensures Clear(With(sys, id, sys.devices[id].(job := Idle)), id)
  {
  }

  /** The device can be brought to send: what it has stored is recorded, or smaller than a full batch. */
  ghost predicate Free(sys: System, id: string) {
    && SysInv(sys) && id in sys.devices && sys.devices[id].job.Idle?
    && (Stuck(sys, id) ==> |Pending(sys, id)| < MAX_OPS_PER_BATCH)
  }

  /** A device that is not wedged finishes or gives up what it is doing, and is free. */
  lemma Settle(sys: System, id: string) returns (events: seq<(string, Event)>)
    requires SysInv(sys) && id in sys.devices && forall slice :: !Wedged(sys, id, slice)
    ensures OnlyBy(events, id) && Free(RefusingRun(sys, events), id)
  {
    hide RefusingRun, Pending, RefusingStep, SysInv;
    var d := DeviceOf(sys, id);
    if d.job.Recorded? {
      SettleRecorded(sys, id);
      events := [(id, PushMark)] + [(id, Fail)];
    } else if d.job.Uploaded? {
      RefusingStepKeeps(sys, id, PushRecord);
      var sys1 := RefusingStep(sys, id, PushRecord);
      UploadedIsRecorded(sys, id);
      RefusingOne(sys, id, PushRecord);
      SettleRecorded(sys1, id);
      RefusingConcat(sys, [(id, PushRecord)], [(id, PushMark)] + [(id, Fail)]);
      events := [(id, PushRecord)] + ([(id, PushMark)] + [(id, Fail)]);
    } else {
      FailedRun(sys, id);
      events := [(id, Fail)];
      if Stuck(sys, id) && |Pending(sys, id)| >= MAX_OPS_PER_BATCH { FullAndStuckIsWedged(sys, id); }
    }
  }

  lemma UploadedIsRecorded(sys: System, id: string)
    requires SysInv(sys) && id in sys.devices && sys.devices[id].job.Uploaded?
    ensures var sys' := RefusingStep(sys, id, PushRecord);
            id in sys'.devices && sys'.devices[id].job.Recorded? && sys'.devices[id].job.queue != []
  {
    var d := DeviceOf(sys, id);
  }

  lemma SettleRecorded(sys: System, id: string)
    requires SysInv(sys) && id in sys.devices && sys.devices[id].job.Recorded?
    ensures Free(RefusingRun(sys, [(id, PushMark)] + [(id, Fail)]), id)
  {
    hide RefusingRun, Pending, RefusingStep, SysInv, Clear;
    var d := DeviceOf(sys, id);
    RecordedHasQueue(sys, id);
    RefusingOne(sys, id, PushMark);
    RefusingStepKeeps(sys, id, PushMark);
    MarkClears(sys, id);
    var sys1 := RefusingStep(sys, id, PushMark);
    RefusingConcat(sys, [(id, PushMark)], [(id, Fail)]);
    FailedRun(sys1, id);
    StillClear(sys1, id);
    ClearIsNotStuck(RefusingRun(sys1, [(id, Fail)]), id);
  }

  lemma RecordedHasQueue(sys: System, id: string)
    requires SysInv(sys) && id in sys.devices && sys.devices[id].job.Recorded?
    ensures sys.devices[id].job.queue != [] && id in RefusingStep(sys, id, PushMark).devices
  {
    var d := DeviceOf(sys, id);
  }

  /** The other way into being wedged would be an upload of less than is stored; the invariant rules it out. */
  lemma FullAndStuckIsWedged(sys: System, id: string)
    requires SysInv(sys) && id in sys.devices && Stuck(sys, id) && |Pending(sys, id)| >= MAX_OPS_PER_BATCH
    requires !sys.devices[id].job.Uploaded? && !sys.devices[id].job.Recorded?
    ensures Wedged(sys, id, Slice(Pending(sys, id)))
  {
    hide Before, Resolve, Stale, StampsAscend, LedgerInv;
    var d := DeviceOf(sys, id);
    var slice := Slice(Pending(sys, id));
    HeadOfPending(sys, id);
    var b := BatchAt(sys, HeadOf(slice));
    PendingIsLogged(sys, id);
    if d.job.Uploading? {
      assert |b.ops| <= |Slice(d.job.queue)|;
      assert d.job.queue <= Pending(sys, id);
    }
  }

  lemma PendingIsLogged(sys: System, id: string)
    requires SysInv(sys) && id in sys.devices && Pending(sys, id) != []
    ensures HeadOf(Slice(Pending(sys, id))) in sys.devices[id].ledger.db.oplog
  {
    var d := DeviceOf(sys, id);
    var slice := Slice(Pending(sys, id));
    assert slice[|slice| - 1] in Pending(sys, id);
  }

  /** A free device sends everything: at worst after one more write. */
  lemma DrainFree(sys: System, id: string) returns (events: seq<(string, Event)>)
    requires Free(sys, id)
    ensures OnlyBy(events, id)
    ensures var sys' := RefusingRun(sys, events); SysInv(sys') && id in sys'.devices && Pending(sys', id) == []
  {
    hide SysInv, Pending, RefusingRun, Write, RefusingStep;
    if Stuck(sys, id) {
      var write := OneWrite(sys, id, Key(VaultSettings, ""));
      NextWriteFrees(sys, id, write.key, write.content, write.wall);
      var rest := DrainUnstuck(RefusingStep(sys, id, write), id);
      RefusingOne(sys, id, write);
      RefusingConcat(sys, [(id, write)], rest);
      events := [(id, write)] + rest;
    } else {
      events := DrainUnstuck(sys, id);
    }
  }

  // All devices

  /** Only its own pushes can wedge a device. */
  lemma OthersUnwedged(sys: System, id: string, who: string, event: Event, slice: seq<Operation>)
    requires SysInv(sys) && who != id && Wedged(RefusingStep(sys, who, event), id, slice)
    ensures Wedged(sys, id, slice)
  {
    hide Before, Resolve, Stale, StampsAscend;
    var sys' := RefusingStep(sys, who, event);
    RefusingStepKeeps(sys, who, event);
    SameDevices(sys, who, event);
    OthersStay(sys, id, who, event);
    var d := DeviceOf(sys', id);
    var h, last := HeadOf(slice), slice[|slice| - 1];
    assert last == Pending(sys', id)[|slice| - 1] && last in Pending(sys', id);
    assert Unsent(d.ledger.db.oplog, last) && last in d.known;
    var b := BatchAt(sys', h);
    assert b.ops[|b.ops| - 1] in b.ops;
    StoredByWho(sys, who, event, h);
  }

  lemma SameDevices(sys: System, who: string, event: Event)
    ensures RefusingStep(sys, who, event).devices.Keys == sys.devices.Keys
  {
    hide Write, StartPull, Download, TakeHeads, MergePulled, RecordPulled, StartPush, Upload, RecordPushed, MarkPushed;
  }

  lemma StoredByWho(sys: System, who: string, event: Event, h: Stamp)
    requires SysInv(sys) && h in RefusingStep(sys, who, event).remote
    ensures h in sys.remote || RefusingStep(sys, who, event).remote[h].device == who
  {
    hide Write, StartPull, Download, TakeHeads, MergePulled, RecordPulled, StartPush, RecordPushed, MarkPushed;
    if who in sys.devices { var d := DeviceOf(sys, who); }
  }

  /** What one device does leaves the others as they are, and as free. */
  lemma {:induction false} OthersUnaffected(sys: System, who: string, events: seq<(string, Event)>)
    requires SysInv(sys) && OnlyBy(events, who)
    ensures var sys' := RefusingRun(sys, events);
            && sys'.devices.Keys == sys.devices.Keys
            && (forall id :: id in sys.devices && id != who ==> sys'.devices[id] == sys.devices[id])
            && forall id, slice :: id != who && Wedged(sys', id, slice) ==> Wedged(sys, id, slice)
    decreases |events|
  {
    hide RefusingStep, SysInv, Wedged;
    if events != [] {
      var next := RefusingStep(sys, who, events[0].1);
      assert events[0] in events && OnlyBy(events[1..], who);
      RefusingStepKeeps(sys, who, events[0].1);
      SameDevices(sys, who, events[0].1);
      OthersUnaffected(next, who, events[1..]);
      forall id | id in sys.devices && id != who ensures next.devices[id] == sys.devices[id] {
        OthersStay(sys, id, who, events[0].1);
      }
      forall id, slice | id != who && Wedged(next, id, slice) ensures Wedged(sys, id, slice) {
        OthersUnwedged(sys, id, who, events[0].1, slice);
      }
    }
  }

  lemma DrainDevice(sys: System, id: string) returns (events: seq<(string, Event)>)
    requires SysInv(sys) && id in sys.devices && forall slice :: !Wedged(sys, id, slice)
    ensures OnlyBy(events, id)
    ensures var sys' := RefusingRun(sys, events); SysInv(sys') && id in sys'.devices && Drained(sys'.devices[id])
  {
    hide RefusingRun, Wedged, Free, SysInv, Drained, Pending;
    var settle := Settle(sys, id);
    var drain := DrainFree(RefusingRun(sys, settle), id);
    RefusingConcat(sys, settle, drain);
    events := settle + drain;
    NothingPendingIsDrained(RefusingRun(sys, events), id);
  }

  lemma NothingPendingIsDrained(sys: System, id: string)
    requires SysInv(sys) && id in sys.devices && Pending(sys, id) == []
    ensures Drained(sys.devices[id])
  {
    var d := DeviceOf(sys, id);
    DrainedMeansNoBacklog(d);
  }

  lemma {:induction false} DrainAllRefused(sys: System, todo: set<string>) returns (events: seq<(string, Event)>)
    requires SysInv(sys) && todo <= sys.devices.Keys
    requires forall id, slice :: id in todo ==> !Wedged(sys, id, slice)
    requires forall id :: id in sys.devices && id !in todo ==> Drained(sys.devices[id])
    ensures var sys' := RefusingRun(sys, events);
            && SysInv(sys') && sys'.devices.Keys == sys.devices.Keys
            && forall id :: id in sys'.devices ==> Drained(sys'.devices[id])
    decreases |todo|
  {
    hide RefusingRun, Wedged, SysInv, Drained;
    if todo == {} {
      events := [];
      RefusingNothing(sys);
    } else {
      var id :| id in todo;
      var drain := DrainDevice(sys, id);
      OthersUnaffected(sys, id, drain);
      var rest := DrainAllRefused(RefusingRun(sys, drain), todo - {id});
      RefusingConcat(sys, drain, rest);
      events := drain + rest;
    }
  }

  lemma {:induction false} NothingToRefuse(sys: System, events: seq<(string, Event)>)
    requires NoUploads(events)
    ensures RefusingRun(sys, events) == Run(sys, events)
    decreases |events|
  {
    hide Step;
    if events != [] {
      assert events[0] in events && NoUploads(events[1..]);
      NothingToRefuse(RefusingStep(sys, events[0].0, events[0].1), events[1..]);
    }
  }

  lemma RestOfUnwedged(sys: System) returns (events: seq<(string, Event)>)
    requires SysInv(sys) && forall id, slice :: !Wedged(sys, id, slice)
    ensures Quiescent(RefusingRun(sys, events))
  {
    hide RefusingRun, Wedged, SysInv, Drained, Quiescent;
    var pushes := DrainAllRefused(sys, sys.devices.Keys);
    var mid := RefusingRun(sys, pushes);
    var pulls := CatchUpAll(mid, mid.devices.Keys);
    NothingToRefuse(mid, pulls);
    RefusingConcat(sys, pushes, pulls);
    events := pushes + pulls;
  }

  /**
   Progress against a refusing store. From any state of any run the system can come to rest if and
   only if no device is wedged.
   */
  lemma RestIsReachableUnlessWedged(sys: System)
    requires SysInv(sys)
    ensures (exists events :: Quiescent(RefusingRun(sys, events))) <==> forall id, slice :: !Wedged(sys, id, slice)
  {
    hide RefusingRun, Wedged, SysInv, Quiescent;
    if forall id, slice :: !Wedged(sys, id, slice) {
      var events := RestOfUnwedged(sys);
    } else {
      var id, slice :| Wedged(sys, id, slice);
      forall events ensures !Quiescent(RefusingRun(sys, events)) {
        WedgedForGood(sys, id, slice, events);
      }
    }
  }
}
