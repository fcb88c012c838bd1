/**
 The protocol against a store that refuses to put other bytes under a name it holds, as the
 server does. Sealing the same batch again gives other bytes, so a repeated upload is refused.
 Safety is not lost by that, but progress can be: the condition is exact.
 */
module Refusals {
  import opened Hlc
  import opened Domain
  import opened Oplog
  import opened Ledgers
  import opened Replication
  import opened Runs
  import opened SyncServices

  /** The next batch a device would upload is under a name the store holds. */
  predicate IsRefused(d: Device, remote: Remote) {
    d.job.Uploading? && d.job.queue != [] && HeadOf(Slice(d.job.queue)) in remote
  }

  /** A step where a refused upload ends the push; every other step is as before. */
  ghost function RefusingStep(sys: System, id: string, event: Event): System {
    if id in sys.devices && event.PushUpload? && IsRefused(sys.devices[id], sys.remote) then
      With(sys, id, sys.devices[id].(job := Idle))
    else Step(sys, id, event)
  }

  ghost function RefusingRun(sys: System, events: seq<(string, Event)>): System
    decreases |events|
  {
    if events == [] then sys else RefusingRun(RefusingStep(sys, events[0].0, events[0].1), events[1..])
  }

  lemma RefusingStepKeeps(sys: System, id: string, event: Event)
    requires SysInv(sys)
    ensures SysInv(RefusingStep(sys, id, event)) && Grows(sys.remote, RefusingStep(sys, id, event).remote)
  {
    hide Step, SysInv;
    StepKeeps(sys, id, event);
    StepGrows(sys, id, event);
    StepKeeps(sys, id, Fail);
    FailIsIdle(sys, id);
  }

  lemma FailIsIdle(sys: System, id: string)
    ensures id in sys.devices ==> Step(sys, id, Fail) == With(sys, id, sys.devices[id].(job := Idle))
  {
  }

  /** The invariant holds throughout every run against a refusing store as well. */
  lemma {:induction false} RefusingRunKeeps(sys: System, events: seq<(string, Event)>)
    requires SysInv(sys)
    ensures SysInv(RefusingRun(sys, events))
    decreases |events|
  {
    hide RefusingStep, SysInv;
    if events != [] {
      RefusingStepKeeps(sys, events[0].0, events[0].1);
      RefusingRunKeeps(RefusingStep(sys, events[0].0, events[0].1), events[1..]);
    }
  }

  /** So does convergence: at rest all devices show the meaning of everything authored. */
  lemma RefusingConvergence(ids: set<string>, events: seq<(string, Event)>)
    requires Quiescent(RefusingRun(Start(ids), events))
    ensures var sys := RefusingRun(Start(ids), events);
            forall id :: id in sys.devices ==> sys.devices[id].ledger.db.tables == Resolve(sys.authored)
  {
    hide RefusingRun, Resolve;
    StartInv(ids);
    RefusingRunKeeps(Start(ids), events);
    var sys := RefusingRun(Start(ids), events);
    forall id | id in sys.devices ensures sys.devices[id].ledger.db.tables == Resolve(sys.authored) {
      var d := DeviceOf(sys, id);
      QuiescentKnowsAll(sys, id);
    }
  }

  // When a push makes no progress

  ghost function Pending(sys: System, id: string): seq<Operation>
    requires SysInv(sys) && id in sys.devices
  {
    assert DeviceInv(sys.devices[id], sys.remote, sys.authored);
    Backlog(sys.devices[id].ledger.db.oplog)
  }

  /** The next batch is in the store already, uploaded by a push that did not live to record it. */
  ghost predicate Stuck(sys: System, id: string)
    requires SysInv(sys) && id in sys.devices
  {
    Pending(sys, id) != [] && HeadOf(Slice(Pending(sys, id))) in sys.remote
  }

  function OneUpload(id: string): seq<(string, Event)> {
    [(id, PushBegin), (id, PushUpload), (id, PushRecord), (id, PushMark)]
  }

  ghost function AfterUpload(sys: System, id: string): System {
    var sent := RefusingStep(RefusingStep(sys, id, PushBegin), id, PushUpload);
    RefusingStep(RefusingStep(sent, id, PushRecord), id, PushMark)
  }

  lemma OneUploadRuns(sys: System, id: string)
    ensures RefusingRun(sys, OneUpload(id)) == AfterUpload(sys, id)
  {
    hide RefusingStep;
    var events := OneUpload(id);
    var sys1 := RefusingStep(sys, id, PushBegin);
    var sys2 := RefusingStep(sys1, id, PushUpload);
    var sys3 := RefusingStep(sys2, id, PushRecord);
    OneMore(sys, events);
    OneMore(sys1, events[1..]);
    OneMore(sys2, events[2..]);
    OneMore(sys3, events[3..]);
    assert events[1..][1..] == events[2..] && events[2..][1..] == events[3..] && events[3..][1..] == [];
  }

  lemma OneMore(sys: System, events: seq<(string, Event)>)
    requires events != []
    ensures RefusingRun(sys, events) == RefusingRun(RefusingStep(sys, events[0].0, events[0].1), events[1..])
  {
  }

  /** A push changes nothing at all if the device is stuck, and otherwise sends its next batch. */
  lemma PushGoesOn(sys: System, id: string)
    requires SysInv(sys) && id in sys.devices && sys.devices[id].job.Idle? && Pending(sys, id) != []
    ensures var sys' := RefusingRun(sys, OneUpload(id));
            && SysInv(sys') && id in sys'.devices
            && (Stuck(sys, id) ==> sys' == sys)
            && (!Stuck(sys, id) ==> Pending(sys', id) == Pending(sys, id)[|Slice(Pending(sys, id))|..])
  {
    OneUploadRuns(sys, id);
    RefusingRunKeeps(sys, OneUpload(id));
    var d := DeviceOf(sys, id);
    var backlog := Pending(sys, id);
    SliceOfSendable(backlog);
    UploadSteps(sys, id);
    if !Stuck(sys, id) {
      BacklogAfterMark(d.ledger.db.oplog, |Slice(backlog)|);
    }
  }

  lemma SliceOfSendable(backlog: seq<Operation>)
    requires backlog != []
    ensures Sendable(backlog) != [] && Slice(Sendable(backlog)) == Slice(backlog) == backlog[..|Slice(backlog)|]
  {
  }

  lemma UploadSteps(sys: System, id: string)
    requires id in sys.devices && sys.devices[id].job.Idle? && KeyedByStamp(sys.devices[id].ledger.db.oplog)
    requires Backlog(sys.devices[id].ledger.db.oplog) != []
    ensures var d := sys.devices[id];
            var oplog, slice := d.ledger.db.oplog, Slice(Backlog(d.ledger.db.oplog));
            && (HeadOf(slice) in sys.remote ==> AfterUpload(sys, id) == sys)
            && (HeadOf(slice) !in sys.remote ==>
                  && id in AfterUpload(sys, id).devices
                  && AfterUpload(sys, id).devices[id].ledger.db.oplog == MarkSynced(oplog, StampsOf(slice)))
  {
    hide MarkSynced, StampsOf, Backlog, Slice, Write, TakeHeads, MergePulled, Download, StartPull;
    var d := sys.devices[id];
    SliceOfSendable(Backlog(d.ledger.db.oplog));
    var begun := With(sys, id, d.(job := Uploading(Sendable(Backlog(d.ledger.db.oplog)))));
    assert RefusingStep(sys, id, PushBegin) == begun;
    if IsRefused(begun.devices[id], begun.remote) {
      assert RefusingStep(begun, id, PushUpload) == With(begun, id, d);
      assert With(begun, id, d) == sys by { assert sys.devices[id := d] == sys.devices; }
      assert RefusingStep(sys, id, PushRecord) == sys && RefusingStep(sys, id, PushMark) == sys;
    }
  }

  /**
   A stuck device with fewer than a full batch pending is freed by its next local write: the
   batch then ends on the new stamp, hence has a new name. With a full batch pending it is not.
   */
  lemma NextWriteFrees(sys: System, id: string, key: Key, content: Option<Content>, wall: int)
    requires SysInv(sys) && id in sys.devices && Stuck(sys, id)
    requires Write(sys.devices[id].ledger, key, content, wall).Wrote?
    ensures var sys' := RefusingStep(sys, id, LocalWrite(key, content, wall));
            && SysInv(sys') && id in sys'.devices
            && (Stuck(sys', id) <==> |Pending(sys, id)| >= MAX_OPS_PER_BATCH)
  {
    hide Before, Consistent, LedgerInv, Reflects, KeyedByStamp;
    var d := DeviceOf(sys, id);
    var event := LocalWrite(key, content, wall);
    RefusingStepKeeps(sys, id, event);
    LocalWriteIsNew(sys, id, key, content, wall);
    LocalWriteDevice(d, sys.remote, sys.authored, key, content, wall);
    var op := Write(d.ledger, key, content, wall).op;
    var sys' := RefusingStep(sys, id, event);
    assert Pending(sys', id) == Pending(sys, id) + [op];
    forall h | h in sys.remote ensures h != op.hlc {
      var o := HeadIsAuthored(sys, h);
    }
  }

  lemma HeadIsAuthored(sys: System, h: Stamp) returns (o: Operation)
    requires SysInv(sys) && h in sys.remote
    ensures o in sys.authored && o.hlc == h
  {
    var b := BatchAt(sys, h);
    o := b.ops[|b.ops| - 1];
    assert o in b.ops;
  }

  // Stuck for good

  /**
   A full batch is stored and not recorded, and no upload of it is under way: what a crash
   between the upload and the bookkeeping leaves.
   */
  ghost predicate Wedged(sys: System, id: string, slice: seq<Operation>) {
    && SysInv(sys) && id in sys.devices
    && |slice| == MAX_OPS_PER_BATCH && slice <= Pending(sys, id) && HeadOf(slice) in sys.remote
    && !sys.devices[id].job.Uploaded? && !sys.devices[id].job.Recorded?
    && (sys.devices[id].job.Uploading? ==> slice <= sys.devices[id].job.queue)
  }

  /** Every crash right after the upload of a full batch has that effect. */
  lemma CrashAfterUploadWedges(sys: System, id: string)
    requires SysInv(sys) && id in sys.devices && sys.devices[id].job.Idle?
    requires |Pending(sys, id)| >= MAX_OPS_PER_BATCH && !Stuck(sys, id)
    ensures var slice := Slice(Pending(sys, id));
            var begun := RefusingStep(sys, id, PushBegin);
            Wedged(RefusingStep(RefusingStep(begun, id, PushUpload), id, Crash), id, slice)
  {
    var d := DeviceOf(sys, id);
    var backlog := Pending(sys, id);
    SliceOfSendable(backlog);
    UploadThenCrash(sys, id);
    hide RefusingStep, Backlog, KeyedByStamp;
    var begun := RefusingStep(sys, id, PushBegin);
    var sent := RefusingStep(begun, id, PushUpload);
    RefusingStepKeeps(sys, id, PushBegin);
    RefusingStepKeeps(begun, id, PushUpload);
    hide SysInv;
    RefusingStepKeeps(sent, id, Crash);
    assert Pending(RefusingStep(sent, id, Crash), id) == backlog;
  }

  lemma UploadThenCrash(sys: System, id: string)
    requires id in sys.devices && sys.devices[id].job.Idle? && KeyedByStamp(sys.devices[id].ledger.db.oplog)
    requires Backlog(sys.devices[id].ledger.db.oplog) != []
    requires HeadOf(Slice(Backlog(sys.devices[id].ledger.db.oplog))) !in sys.remote
    ensures var d := sys.devices[id];
            var after := RefusingStep(RefusingStep(RefusingStep(sys, id, PushBegin), id, PushUpload), id, Crash);
            && id in after.devices && after.devices[id] == d.(ledger := Restart(d.ledger), job := Idle)
            && HeadOf(Slice(Backlog(d.ledger.db.oplog))) in after.remote
  {
    hide Backlog, Slice;
    var d := sys.devices[id];
    SliceOfSendable(Backlog(d.ledger.db.oplog));
    var begun := With(sys, id, d.(job := Uploading(Sendable(Backlog(d.ledger.db.oplog)))));
    assert RefusingStep(sys, id, PushBegin) == begun;
    var (d', remote') := Upload(begun.devices[id], begun.remote);
    assert RefusingStep(begun, id, PushUpload) == With(begun, id, d').(remote := remote');
  }

  /** No step of any device frees a wedged one. */
  lemma WedgedStays(sys: System, id: string, slice: seq<Operation>, who: string, event: Event)
    requires Wedged(sys, id, slice)
    ensures Wedged(RefusingStep(sys, who, event), id, slice)
  {
    RefusingStepKeeps(sys, who, event);
    if who == id {
      OwnStepStays(sys, id, slice, event);
    } else {
      OthersStay(sys, id, who, event);
    }
  }

  lemma OthersStay(sys: System, id: string, who: string, event: Event)
    requires who != id && id in sys.devices
    ensures id in RefusingStep(sys, who, event).devices && RefusingStep(sys, who, event).devices[id] == sys.devices[id]
  {
    hide Write, StartPull, Download, TakeHeads, MergePulled, RecordPulled, StartPush, Upload, RecordPushed, MarkPushed;
  }

  lemma OwnStepStays(sys: System, id: string, slice: seq<Operation>, event: Event)
    requires Wedged(sys, id, slice) && SysInv(RefusingStep(sys, id, event))
    requires Grows(sys.remote, RefusingStep(sys, id, event).remote)
    ensures Wedged(RefusingStep(sys, id, event), id, slice)
  {
    hide SysInv, Before, LedgerInv, Reflects, OwnLog, Merge, MarkSynced, DeviceInv, Upload, MarkPushed;
    var d := DeviceOf(sys, id);
    match event
    case LocalWrite(key, content, wall) =>
      if Write(d.ledger, key, content, wall).Wrote? {
        LocalWriteDevice(d, sys.remote, sys.authored, key, content, wall);
        hide Write;
      }
    case PullMerge =>
      if d.job.Observed? { AuthoredIsConsistent(sys); MergedLog(d, sys.remote, sys.authored); }
    case PushBegin =>
      if d.job.Idle? { SliceOfPending(Pending(sys, id), slice); }
    case PushUpload =>
      if d.job.Uploading? { SliceOfPending(d.job.queue, slice); }
    case _ =>
  }

  lemma AuthoredIsConsistent(sys: System)
    requires SysInv(sys)
    ensures Consistent(sys.authored)
  {
  }

  lemma SliceOfPending(queue: seq<Operation>, slice: seq<Operation>)
    requires slice <= queue && |slice| == MAX_OPS_PER_BATCH
    ensures Slice(queue) == slice && slice <= Sendable(queue)
  {
  }

  /** A wedged device stays so through every run: the system never comes to rest again. */
  lemma {:induction false} WedgedForGood(sys: System, id: string, slice: seq<Operation>, events: seq<(string, Event)>)
    requires Wedged(sys, id, slice)
    ensures Wedged(RefusingRun(sys, events), id, slice) && !Quiescent(RefusingRun(sys, events))
    decreases |events|
  {
    hide RefusingStep, Wedged;
    if events == [] {
      NotAtRest(sys, id, slice);
    } else {
      WedgedStays(sys, id, slice, events[0].0, events[0].1);
      WedgedForGood(RefusingStep(sys, events[0].0, events[0].1), id, slice, events[1..]);
    }
  }

  lemma NotAtRest(sys: System, id: string, slice: seq<Operation>)
    requires Wedged(sys, id, slice)
    ensures !Quiescent(sys)
  {
    var d := DeviceOf(sys, id);
    assert slice[0] in Pending(sys, id);
    assert Unsent(d.ledger.db.oplog, slice[0]);
  }
}
