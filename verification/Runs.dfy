/**
 What holds of whole runs of the protocol: the invariant at every moment, names that keep
 their batches, and convergence once the system is at rest.
 */
module Runs {
  import opened Oplog
  import opened Ledgers
  import opened Replication

  /** Every step keeps the invariant. */
  lemma StepKeeps(sys: System, id: string, event: Event)
    requires SysInv(sys)
    ensures SysInv(Step(sys, id, event))
  {
    hide SysInv, TakeHeads, MergePulled, Download, RecordPulled, RecordPushed, MarkPushed, Write, StartPull, StartPush;
    if id in sys.devices {
      var d := DeviceOf(sys, id);
      match event
      case LocalWrite(key, content, wall) => LocalWriteKeeps(sys, id, key, content, wall);
      case PullList => if d.job.Idle? { StartPullKeeps(sys, id); }
      case PullGet => if d.job.Fetching? && d.job.todo != [] { DownloadKeeps(sys, id); }
      case PullObserve(walls) =>
        if d.job.Fetching? && d.job.todo == [] && |walls| == |d.job.heads| { TakeHeadsKeeps(sys, id, walls); }
      case PullMerge => if d.job.Observed? { MergePulledKeeps(sys, id); }
      case PullRecord => if d.job.Applied? { RecordPulledKeeps(sys, id); }
      case PushBegin => if d.job.Idle? { StartPushKeeps(sys, id); }
      case PushUpload => if d.job.Uploading? && d.job.queue != [] { UploadKeeps(sys, id); }
      case PushRecord => if d.job.Uploaded? && d.job.queue != [] { RecordPushedKeeps(sys, id); }
      case PushMark => if d.job.Recorded? && d.job.queue != [] { MarkPushedKeeps(sys, id); }
      case Fail => JobChangeKeeps(sys, id, Idle);
      case Crash => CrashKeeps(sys, id);
    }
  }

  lemma StartInv(ids: set<string>)
    ensures SysInv(Start(ids))
  {
    forall id | id in ids ensures DeviceInv(NewDevice(id), map[], {}) {
      FreshLedgerInv(id);
      assert IsBacklog(map[], []);
    }
  }

  /** The invariant holds throughout every run. */
  lemma {:induction false} RunKeeps(sys: System, events: seq<(string, Event)>)
    requires SysInv(sys)
    ensures SysInv(Run(sys, events))
    decreases |events|
  {
    if events != [] {
      StepKeeps(sys, events[0].0, events[0].1);
      RunKeeps(Step(sys, events[0].0, events[0].1), events[1..]);
    }
  }

  lemma StepGrows(sys: System, id: string, event: Event)
    requires SysInv(sys)
    ensures Grows(sys.remote, Step(sys, id, event).remote)
  {
    hide SysInv, StartPull, StartPush, TakeHeads, MergePulled, Write, Download, Upload, MarkPushed;
    if id in sys.devices && event.PushUpload? && sys.devices[id].job.Uploading? && sys.devices[id].job.queue != [] {
      UploadIsStable(sys, id);
    }
  }

  /** Throughout every run, retries after crashes included, a name once used keeps its batch. */
  lemma {:induction false} NamesKeepTheirBatches(sys: System, events: seq<(string, Event)>)
    requires SysInv(sys)
    ensures Grows(sys.remote, Run(sys, events).remote)
    decreases |events|
  {
    hide Step, SysInv;
    if events != [] {
      var next := Step(sys, events[0].0, events[0].1);
      StepKeeps(sys, events[0].0, events[0].1);
      StepGrows(sys, events[0].0, events[0].1);
      NamesKeepTheirBatches(next, events[1..]);
    }
  }

  // Convergence

  /** Nothing is pending anywhere and every device has seen every object. */
  ghost predicate Quiescent(sys: System) {
    forall id :: id in sys.devices ==>
      && (forall s :: s in sys.devices[id].ledger.db.oplog ==> sys.devices[id].ledger.db.oplog[s].synced)
      && (forall h :: h in sys.remote ==> h in sys.devices[id].seen)
  }

  lemma QuiescentKnowsAll(sys: System, id: string)
    requires SysInv(sys) && Quiescent(sys) && id in sys.devices
    ensures sys.devices[id].known == sys.authored
  {
    var d := DeviceOf(sys, id);
    forall o | o in sys.authored ensures o in d.known {
      var author := DeviceOf(sys, o.device);
      assert Logged(author, o) && IsSynced(author, o.hlc) && InRemote(sys.remote, o);
      var h :| h in sys.remote && o in sys.remote[h].ops;
      assert KnowsBatch(d, sys.remote, h);
    }
  }

  /**
   Convergence. After any run of any number of devices, whatever was interleaved, repeated,
   failed or crashed: if nothing is pending and every device has seen every object, then
   every device's tables are the last-writer-wins meaning of every operation ever authored.
   */
  lemma Convergence(ids: set<string>, events: seq<(string, Event)>)
    requires Quiescent(Run(Start(ids), events))
    ensures var sys := Run(Start(ids), events);
            forall id :: id in sys.devices ==> sys.devices[id].ledger.db.tables == Resolve(sys.authored)
  {
    StartInv(ids);
    RunKeeps(Start(ids), events);
    var sys := Run(Start(ids), events);
    forall id | id in sys.devices ensures sys.devices[id].ledger.db.tables == Resolve(sys.authored) {
      var d := DeviceOf(sys, id);
      QuiescentKnowsAll(sys, id);
    }
  }
}
