/**
 Convergence is always within reach: from any state any run can get into, letting every
 device push what it has pending and then pull brings the system to rest, with all
 devices showing the same tables.
 */
module Reachability {
  import opened Orders
  import opened Hlc
  import opened Oplog
  import opened Ledgers
  import opened Replication
  import opened Runs
  import opened SyncServices

  ghost predicate Drained(d: Device) {
    forall s :: s in d.ledger.db.oplog ==> d.ledger.db.oplog[s].synced
  }

  lemma DrainedMeansNoBacklog(d: Device)
    requires KeyedByStamp(d.ledger.db.oplog)
    ensures Drained(d) <==> Backlog(d.ledger.db.oplog) == []
  {
    var oplog := d.ledger.db.oplog;
    forall s | s in oplog && !oplog[s].synced ensures oplog[s].op in Backlog(oplog) {
      assert Unsent(oplog, oplog[s].op);
    }
    assert Backlog(oplog) != [] ==> Unsent(oplog, Backlog(oplog)[0]);
  }

  /** Sending a queue removes exactly that queue from the front of the backlog. */
  lemma {:induction false} SendAllDrains(d: Device, remote: Remote)
    requires d.job.Uploading? && d.job.queue != [] && KeyedByStamp(d.ledger.db.oplog)
    requires d.job.queue <= Backlog(d.ledger.db.oplog)
    ensures var d' := SendAll(d, remote).0;
            && d'.job.Idle? && KeyedByStamp(d'.ledger.db.oplog)
            && Backlog(d'.ledger.db.oplog) == Backlog(d.ledger.db.oplog)[|d.job.queue|..]
    decreases |d.job.queue|
  {
    var queue, backlog := d.job.queue, Backlog(d.ledger.db.oplog);
    QueueAdvances(backlog, queue, 0);
    assert queue[0..] == queue && backlog[0..] == backlog;
    var n := |Slice(queue)|;
    BacklogAfterMark(d.ledger.db.oplog, n);
    var (d', remote') := SendBatch(d, remote);
    if d'.job.Uploading? {
      assert queue[n..] <= backlog[n..] by { assert backlog == queue + backlog[|queue|..]; }
      SendAllDrains(d', remote');
    }
  }

  /** Pushing again and again empties a device's backlog, whatever it was doing. */
  lemma {:induction false} Drain(sys: System, id: string) returns (events: seq<(string, Event)>)
    requires SysInv(sys) && id in sys.devices && sys.devices[id].job.Idle?
    ensures var sys' := Run(sys, events);
            && SysInv(sys') && id in sys'.devices && Drained(sys'.devices[id])
            && sys'.devices == sys.devices[id := sys'.devices[id]] && sys'.authored == sys.authored
    decreases |Unpushed(sys, id)|
  {
    hide Step, SendAll, MarkSynced, Before, SendBatch, DeviceInv, SysInv;
    var d := DeviceOf(sys, id);
    DrainedMeansNoBacklog(d);
    if Drained(d) {
      events := [];
      assert sys.devices[id := d] == sys.devices;
    } else {
      SendAllDrains(StartPush(d), sys.remote);
      var push := PushIsARun(sys, id);
      RunKeeps(sys, push);
      var sys1 := Run(sys, push);
      var rest := Drain(sys1, id);
      RunConcat(sys, push, rest);
      events := push + rest;
    }
  }

  ghost function Unpushed(sys: System, id: string): seq<Operation>
    requires SysInv(sys) && id in sys.devices
  {
    assert DeviceInv(sys.devices[id], sys.remote, sys.authored);
    Backlog(sys.devices[id].ledger.db.oplog)
  }

  lemma Reset(sys: System, id: string)
    requires SysInv(sys) && id in sys.devices
    ensures var sys' := Run(sys, [(id, Fail)]);
            && SysInv(sys') && sys' == With(sys, id, sys.devices[id].(job := Idle))
  {
    hide SysInv, Write, StartPull, Download, TakeHeads, MergePulled, RecordPulled, StartPush, Upload, RecordPushed,
         MarkPushed;
    RunOfOne(sys, id, Fail);
    StepKeeps(sys, id, Fail);
  }

  /** Every device of a set drained in turn; the others stay as they are. */
  lemma {:induction false} DrainAll(sys: System, todo: set<string>) returns (events: seq<(string, Event)>)
    requires SysInv(sys) && todo <= sys.devices.Keys
    requires forall id :: id in sys.devices && id !in todo ==> Drained(sys.devices[id])
    ensures var sys' := Run(sys, events);
            && SysInv(sys') && sys'.devices.Keys == sys.devices.Keys && sys'.authored == sys.authored
            && forall id :: id in sys'.devices ==> Drained(sys'.devices[id])
    decreases |todo|
  {
    if todo == {} {
      events := [];
    } else {
      var id :| id in todo;
      var reset := [(id, Fail)];
      Reset(sys, id);
      var sys1 := Run(sys, reset);
      var drain := Drain(sys1, id);
      var sys2 := Run(sys1, drain);
      var rest := DrainAll(sys2, todo - {id});
      RunConcat(sys1, drain, rest);
      RunConcat(sys, reset, drain + rest);
      events := reset + (drain + rest);
    }
  }

  // Pulling with a clock ahead of everything

  lemma {:induction false} Ahead(stamps: set<Stamp>, least: int) returns (wall: nat)
    ensures wall > least && forall s :: s in stamps ==> wall > s.physical
  {
    if stamps == {} {
      wall := if least < 0 then 0 else least + 1;
    } else {
      var s :| s in stamps;
      var w := Ahead(stamps - {s}, least);
      wall := Max(w, s.physical + 1);
    }
  }

  /** A clock that reads ahead of every stamp, and later each time, accepts them all. */
  lemma {:induction false} AheadAccepts(state: HlcState, stamps: seq<Stamp>, walls: seq<int>)
    requires |stamps| == |walls|
    requires forall i :: 0 <= i < |walls| ==> walls[i] > state.physical
    requires forall i, j :: 0 <= i < j < |walls| ==> walls[i] < walls[j]
    requires forall s, w :: s in stamps && w in walls ==> s.physical < w
    ensures ObserveAll(state, stamps, walls).1
    decreases |stamps|
  {
    if stamps != [] {
      assert stamps[0] in stamps && walls[0] in walls;
      var next := Observe(state, Clock(stamps[0]), walls[0]);
      assert next == Advanced(HlcState(walls[0], 0));
      AheadAccepts(next.state, stamps[1..], walls[1..]);
    }
  }

  lemma {:induction false} DownloadsAll(d: Device, remote: Remote)
    requires d.job.Fetching?
    requires forall n :: n in d.job.todo ==> n in remote
    ensures var d' := DownloadAll(d, remote);
            && d' == d.(job := d'.job) && d'.job.Fetching? && d'.job.todo == []
            && d'.job.applied == d.job.applied + d.job.todo
            && forall h :: h in d'.job.heads ==> h in d.job.heads || exists n :: n in remote && remote[n].head == h
    decreases |d.job.todo|
  {
    if d.job.todo != [] {
      assert d.job.todo[0] in d.job.todo;
      DownloadsAll(Download(d, remote), remote);
      assert [d.job.todo[0]] + d.job.todo[1..] == d.job.todo;
    }
  }

  /** A pull that takes the heads leaves nothing unseen and makes nothing pending. */
  lemma PullSeesAll(sys: System, id: string, now: nat -> int)
    requires SysInv(sys) && id in sys.devices && sys.devices[id].job.Idle?
    requires TakesHeads(sys.devices[id], sys.remote, now)
    ensures var d' := PullAll(sys.devices[id], sys.remote, now);
            && (forall h :: h in sys.remote ==> h in d'.seen)
            && (Drained(sys.devices[id]) ==> Drained(d'))
  {
    hide Observe, Consistent, Backlog, Merge, LedgerInv, OwnLog, MarkSynced, Reflects, Unseen, Drained;
    var d := DeviceOf(sys, id);
    UnseenOrSeen(d, sys.remote);
    var d1 := StartPull(d, sys.remote);
    if Unseen(d, sys.remote) != [] {
      DownloadsAll(d1, sys.remote);
      var d2 := DownloadAll(d1, sys.remote);
      var walls := Readings(now, |d2.job.heads|);
      if Drained(d) {
        var events := PullIsARunUpToMerge(sys, id);
        StillDrained(d, d2);
        FinishDrains(Run(sys, events), id, walls);
        StillDrained(MergePulled(TakeHeads(d2, walls)), RecordPulled(MergePulled(TakeHeads(d2, walls))));
      }
    }
  }

  /** The heads a pull downloads, in the order it observes them. */
  ghost function PulledHeads(d: Device, remote: Remote): seq<Stamp>
    requires d.job.Idle?
  {
    var d' := DownloadAll(StartPull(d, remote), remote);
    if d'.job.Fetching? then d'.job.heads else []
  }

  ghost predicate TakesHeads(d: Device, remote: Remote, now: nat -> int)
    requires d.job.Idle?
  {
    var heads := PulledHeads(d, remote);
    ObserveAll(d.ledger.clock, heads, Readings(now, |heads|)).1
  }

  /**
   A pull succeeds and leaves nothing unseen if every head it downloads is at most an hour
   (3,600,000 ms) ahead of its reading and the counters of clock and heads have room for as many
   counts as there are heads, up to 65,535.
   */
  lemma PullCatchesUp(sys: System, id: string, now: nat -> int)
    requires SysInv(sys) && id in sys.devices && sys.devices[id].job.Idle?
    requires var d := sys.devices[id]; var heads := PulledHeads(d, sys.remote);
             && d.ledger.clock.counter + |heads| <= 65_535
             && (forall h :: h in heads ==> h.counter + |heads| <= 65_535)
             && forall i :: 0 <= i < |heads| ==> heads[i].physical <= now(i) + 3_600_000
    ensures var d' := PullAll(sys.devices[id], sys.remote, now);
            && (forall h :: h in sys.remote ==> h in d'.seen)
            && (Drained(sys.devices[id]) ==> Drained(d'))
  {
    hide SysInv, Drained, DownloadAll, StartPull, PullAll;
    var heads := PulledHeads(sys.devices[id], sys.remote);
    ObserveAllAccepts(sys.devices[id].ledger.clock, heads, Readings(now, |heads|), 65_535 - |heads|);
    PullSeesAll(sys, id, now);
  }

  /** So does a pull by a clock that reads ahead of every stamp, whatever the counters. */
  lemma PullByClockAhead(sys: System, id: string, wall: nat)
    requires SysInv(sys) && id in sys.devices && sys.devices[id].job.Idle?
    requires wall > sys.devices[id].ledger.clock.physical && forall h :: h in sys.remote ==> wall > h.physical
    ensures var d' := PullAll(sys.devices[id], sys.remote, k => wall + k);
            && (forall h :: h in sys.remote ==> h in d'.seen)
            && (Drained(sys.devices[id]) ==> Drained(d'))
  {
    hide Drained, Observe, Unseen;
    var d := DeviceOf(sys, id);
    var heads := PulledHeads(d, sys.remote);
    UnseenOrSeen(d, sys.remote);
    if Unseen(d, sys.remote) != [] { DownloadsAll(StartPull(d, sys.remote), sys.remote); }
    var walls := Readings(k => wall + k, |heads|);
    forall h, w | h in heads && w in walls ensures h.physical < w {
      var n :| n in sys.remote && sys.remote[n].head == h;
      var b := BatchAt(sys, n);
    }
    AheadAccepts(d.ledger.clock, heads, walls);
    hide SysInv;
    PullSeesAll(sys, id, k => wall + k);
  }

  /** In every state of the protocol, what a pull reports is how many more stamps the log holds after it. */
  lemma PullReportsNew(sys: System, id: string, now: nat -> int)
    requires SysInv(sys) && id in sys.devices && sys.devices[id].job.Idle?
    ensures var (d', result) := PullTexts(sys.devices[id], sys.remote, now);
            && (result.Pulled? ==> result.count == |d'.ledger.db.oplog| - |sys.devices[id].ledger.db.oplog|)
            && (result.PullFailed? ==> d'.ledger.db == sys.devices[id].ledger.db)
  {
    hide Consistent, Reflects, PullTexts, DownloadAll, StartPull, OwnLog, Before;
    var d := DeviceOf(sys, id);
    var events := PullIsARunUpToMerge(sys, id);
    var d' := DeviceOf(Run(sys, events), id);
    assert forall o :: o in PulledOps(d, sys.remote) ==> o in sys.authored;
    FewerAreConsistent(sys.authored, d.known + Usable(PulledOps(d, sys.remote)));
    PullCountsNewStamps(d, sys.remote, now);
  }

  lemma FewerAreConsistent(all: set<Operation>, ops: set<Operation>)
    requires Consistent(all) && ops <= all
    ensures Consistent(ops)
  {
  }

  lemma UnseenOrSeen(d: Device, remote: Remote)
    ensures forall h :: h in remote <==> h in Unseen(d, remote) || (h in remote && h in d.seen)
  {
    hide Before;
    BeforeIsStrictTotal();
    EnumerateIsAscending(Before, remote.Keys - d.seen);
  }

  /** Observing and merging make nothing pending. */
  lemma FinishDrains(sys: System, id: string, walls: seq<int>)
    requires SysInv(sys) && id in sys.devices && sys.devices[id].job.Fetching?
    requires |walls| == |sys.devices[id].job.heads| && Drained(sys.devices[id])
    ensures var d := TakeHeads(sys.devices[id], walls); d.job.Observed? ==> Drained(MergePulled(d))
  {
    hide MergeInto, LedgerInv, OwnLog, Reflects, Drained, Backlog, Consistent, Before;
    TakeHeadsKeeps(sys, id, walls);
    var taken := With(sys, id, TakeHeads(sys.devices[id], walls));
    var d := DeviceOf(taken, id);
    if d.job.Observed? {
      StillDrained(sys.devices[id], d);
      MergedLog(d, sys.remote, sys.authored);
      DrainedMeansNoBacklog(d);
      DrainedMeansNoBacklog(MergePulled(d));
    }
  }

  lemma StillDrained(d: Device, d': Device)
    requires d'.ledger.db == d.ledger.db && Drained(d)
    ensures Drained(d')
  {
  }

  /** The downloading part of a pull is a run that keeps the invariant. */
  lemma PullIsARunUpToMerge(sys: System, id: string) returns (events: seq<(string, Event)>)
    requires SysInv(sys) && id in sys.devices && sys.devices[id].job.Idle?
    ensures Run(sys, events) == With(sys, id, DownloadAll(StartPull(sys.devices[id], sys.remote), sys.remote))
    ensures SysInv(Run(sys, events))
  {
    var sys1 := Step(sys, id, PullList);
    var rest := DownloadAllIsARun(sys1, id);
    events := [(id, PullList)] + rest;
    assert events[1..] == rest;
    RunKeeps(sys, events);
  }

  lemma {:induction false} CatchUpAll(sys: System, todo: set<string>) returns (events: seq<(string, Event)>)
    requires SysInv(sys) && todo <= sys.devices.Keys
    requires forall id :: id in sys.devices ==> Drained(sys.devices[id])
    requires forall id, h :: id in sys.devices && id !in todo && h in sys.remote ==> h in sys.devices[id].seen
    ensures NoUploads(events)
    ensures var sys' := Run(sys, events);
            SysInv(sys') && Quiescent(sys') && sys'.authored == sys.authored && sys'.devices.Keys == sys.devices.Keys
    decreases |todo|
  {
    if todo == {} {
      events := [];
    } else {
      var id :| id in todo;
      var reset := [(id, Fail)];
      Reset(sys, id);
      var sys1 := Run(sys, reset);
      var wall := Ahead(sys1.remote.Keys, sys1.devices[id].ledger.clock.physical);
      PullByClockAhead(sys1, id, wall);
      var pull := PullIsARun(sys1, id, k => wall + k);
      RunKeeps(sys1, pull);
      var sys2 := Run(sys1, pull);
      var rest := CatchUpAll(sys2, todo - {id});
      RunConcat(sys1, pull, rest);
      RunConcat(sys, reset, pull + rest);
      events := reset + (pull + rest);
    }
  }

  lemma {:induction false} RunKeepsDevices(sys: System, events: seq<(string, Event)>)
    ensures Run(sys, events).devices.Keys == sys.devices.Keys
    decreases |events|
  {
    if events != [] {
      RunKeepsDevices(Step(sys, events[0].0, events[0].1), events[1..]);
    }
  }

  /**
   From every state of every run there is a continuation, with no new local writes, after
   which the system is at rest and every device's tables are the meaning of everything authored.
   */
  lemma ConvergenceIsReachable(ids: set<string>, before: seq<(string, Event)>) returns (after: seq<(string, Event)>)
    ensures var sys := Run(Start(ids), before + after);
            && Quiescent(sys) && sys.devices.Keys == ids
            && sys.authored == Run(Start(ids), before).authored
            && forall id :: id in ids ==> sys.devices[id].ledger.db.tables == Resolve(sys.authored)
  {
    StartInv(ids);
    RunKeeps(Start(ids), before);
    RunKeepsDevices(Start(ids), before);
    var sys := Run(Start(ids), before);
    var pushes := DrainAll(sys, ids);
    var pulls := CatchUpAll(Run(sys, pushes), ids);
    after := pushes + pulls;
    RunConcat(sys, pushes, pulls);
    RunConcat(Start(ids), before, after);
    Convergence(ids, before + after);
  }
}
