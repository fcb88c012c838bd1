/**
 The replication protocol: any number of devices, each with its ledger and its record of
 seen objects, exchanging batches of operations through a shared store that offers only
 list, get and put.

 A sync cycle is cut into its steps, so runs interleave devices freely and a device can
 fail or crash between any two of them. `known` and `authored` are history: they record
 what happened and influence nothing. Objects are named by the stamp their name encodes.
 */
module Replication {
  import opened Orders
  import opened Hlc
  import opened Domain
  import opened Oplog
  import opened Ledgers

  const MAX_OPS_PER_BATCH := 500
  const PENDING_LIMIT := 5000

  datatype Batch = Batch(device: string, head: Stamp, ops: seq<Operation>)

  type Remote = map<Stamp, Batch>

  /** Where a device is in a sync cycle. What a job holds is in memory and lost in a crash. */
  datatype Job =
    | Idle
    | Fetching(todo: seq<Stamp>, ops: seq<Operation>, heads: seq<Stamp>, applied: seq<Stamp>)
    | Observed(ops: seq<Operation>, applied: seq<Stamp>)
    | Applied(names: seq<Stamp>)
    | Uploading(queue: seq<Operation>)
    | Uploaded(queue: seq<Operation>)
    | Recorded(queue: seq<Operation>)

  datatype Device = Device(ledger: Ledger, seen: set<Stamp>, job: Job, known: set<Operation>)

  datatype System = System(devices: map<string, Device>, remote: Remote, authored: set<Operation>)

  datatype Event =
    | LocalWrite(key: Key, content: Option<Content>, wall: int)
    | PullList
    | PullGet
    | PullObserve(walls: seq<int>)
    | PullMerge
    | PullRecord
    | PushBegin
    | PushUpload
    | PushRecord
    | PushMark
    | Fail
    | Crash

  // One device's steps

  function Slice(queue: seq<Operation>): seq<Operation> {
    if |queue| <= MAX_OPS_PER_BATCH then queue else queue[..MAX_OPS_PER_BATCH]
  }

  function HeadOf(ops: seq<Operation>): Stamp
    requires ops != []
  {
    ops[|ops| - 1].hlc
  }

  ghost function Unseen(d: Device, remote: Remote): seq<Stamp> {
    Enumerate(Before, remote.Keys - d.seen)
  }

  ghost function StartPull(d: Device, remote: Remote): Device {
    var unseen := Unseen(d, remote);
    if unseen == [] then d else d.(job := Fetching(unseen, [], [], []))
  }

  /** Download one object; our own batches teach us nothing. */
  function Download(d: Device, remote: Remote): Device
    requires d.job.Fetching? && d.job.todo != []
  {
    var Fetching(todo, ops, heads, applied) := d.job;
    if todo[0] !in remote then d.(job := Idle)
    else
      var batch := remote[todo[0]];
      d.(job := if batch.device == d.ledger.device then Fetching(todo[1..], ops, heads, applied + [todo[0]])
                else Fetching(todo[1..], ops + batch.ops, heads + [batch.head], applied + [todo[0]]))
  }

  /** Fold the heads into the clock; where it refuses one, the pull fails. */
  function TakeHeads(d: Device, walls: seq<int>): Device
    requires d.job.Fetching? && |walls| == |d.job.heads|
  {
    var (ledger, ok) := ObserveHeads(d.ledger, d.job.heads, walls);
    d.(ledger := ledger, job := if ok then Observed(d.job.ops, d.job.applied) else Idle)
  }

  ghost function MergePulled(d: Device): Device
    requires d.job.Observed?
  {
    d.(ledger := MergeInto(d.ledger, d.job.ops).0, job := Applied(d.job.applied), known := d.known + Usable(d.job.ops))
  }

  ghost function RecordPulled(d: Device): Device
    requires d.job.Applied?
  {
    d.(seen := d.seen + (set n | n in d.job.names), job := Idle)
  }

  ghost function StartPush(d: Device): Device
    requires KeyedByStamp(d.ledger.db.oplog)
  {
    var backlog := Backlog(d.ledger.db.oplog);
    var queue := if |backlog| <= PENDING_LIMIT then backlog else backlog[..PENDING_LIMIT];
    if queue == [] then d else d.(job := Uploading(queue))
  }

  function Upload(d: Device, remote: Remote): (Device, Remote)
    requires d.job.Uploading? && d.job.queue != []
  {
    var slice := Slice(d.job.queue);
    (d.(job := Uploaded(d.job.queue)), remote[HeadOf(slice) := Batch(d.ledger.device, HeadOf(slice), slice)])
  }

  function RecordPushed(d: Device): Device
    requires d.job.Uploaded? && d.job.queue != []
  {
    d.(seen := d.seen + {HeadOf(Slice(d.job.queue))}, job := Recorded(d.job.queue))
  }

  function MarkPushed(d: Device): Device
    requires d.job.Recorded? && d.job.queue != []
  {
    var slice := Slice(d.job.queue);
    var rest := d.job.queue[|slice|..];
    d.(ledger := d.ledger.(db := d.ledger.db.(oplog := MarkSynced(d.ledger.db.oplog, StampsOf(slice)))),
       job := if rest == [] then Idle else Uploading(rest))
  }

  // The system's steps. An event that is not enabled changes nothing.

  ghost function Step(sys: System, id: string, event: Event): System {
    if id !in sys.devices then sys
    else
      var d := sys.devices[id];
      match event
      case LocalWrite(key, content, wall) =>
        (match Write(d.ledger, key, content, wall)
         case NotWritten(_) => sys
         case Wrote(ledger, op) =>
           With(sys, id, d.(ledger := ledger, known := d.known + {op})).(authored := sys.authored + {op}))
      case PullList => if d.job.Idle? then With(sys, id, StartPull(d, sys.remote)) else sys
      case PullGet => if d.job.Fetching? && d.job.todo != [] then With(sys, id, Download(d, sys.remote)) else sys
      case PullObserve(walls) =>
        if d.job.Fetching? && d.job.todo == [] && |walls| == |d.job.heads| then With(sys, id, TakeHeads(d, walls))
        else sys
      case PullMerge => if d.job.Observed? then With(sys, id, MergePulled(d)) else sys
      case PullRecord => if d.job.Applied? then With(sys, id, RecordPulled(d)) else sys
      case PushBegin => if d.job.Idle? && KeyedByStamp(d.ledger.db.oplog) then With(sys, id, StartPush(d)) else sys
      case PushUpload =>
        if d.job.Uploading? && d.job.queue != [] then
          var (d', remote') := Upload(d, sys.remote);
          With(sys, id, d').(remote := remote')
        else sys
      case PushRecord => if d.job.Uploaded? && d.job.queue != [] then With(sys, id, RecordPushed(d)) else sys
      case PushMark => if d.job.Recorded? && d.job.queue != [] then With(sys, id, MarkPushed(d)) else sys
      case Fail => With(sys, id, d.(job := Idle))
      case Crash => With(sys, id, d.(ledger := Restart(d.ledger), job := Idle))
  }

  function With(sys: System, id: string, d: Device): System {
    sys.(devices := sys.devices[id := d])
  }

  ghost function Run(sys: System, events: seq<(string, Event)>): System
    decreases |events|
  {
    if events == [] then sys else Run(Step(sys, events[0].0, events[0].1), events[1..])
  }

  function NewDevice(id: string): Device {
    Device(Ledger(id, HlcState(0, 0), EMPTY_DB), {}, Idle, {})
  }

  function Start(ids: set<string>): System {
    System(map id | id in ids :: NewDevice(id), map[], {})
  }

  // The invariant

  ghost predicate Logged(d: Device, o: Operation) {
    o.hlc in d.ledger.db.oplog && d.ledger.db.oplog[o.hlc].op == o
  }

  ghost predicate IsSynced(d: Device, s: Stamp) {
    s in d.ledger.db.oplog && d.ledger.db.oplog[s].synced
  }

  ghost predicate InRemote(remote: Remote, o: Operation) {
    exists h :: h in remote && o in remote[h].ops
  }

  ghost predicate KnowsBatch(d: Device, remote: Remote, h: Stamp) {
    h in remote && forall o :: o in remote[h].ops ==> o in d.known
  }

  ghost predicate Pushing(job: Job) {
    job.Uploading? || job.Uploaded? || job.Recorded?
  }

  /** The batches named are in hand, or our own. */
  ghost predicate InHand(d: Device, remote: Remote, names: seq<Stamp>, ops: seq<Operation>) {
    forall n :: n in names ==>
                  n in remote && (remote[n].device == d.ledger.device || forall o :: o in remote[n].ops ==> o in ops)
  }

  /** What a device has collected so far in a pull. */
  ghost predicate Collected(d: Device, remote: Remote, authored: set<Operation>)
    requires d.job.Fetching?
  {
    && InHand(d, remote, d.job.applied, d.job.ops)
    && (forall o :: o in d.job.ops ==> o in authored && exists h :: h in d.job.heads && AtMost(o.hlc, h))
  }

  ghost predicate JobInv(d: Device, remote: Remote, authored: set<Operation>)
    requires KeyedByStamp(d.ledger.db.oplog)
  {
    match d.job
    case Idle => true
    case Fetching(_, _, _, _) => Collected(d, remote, authored)
    case Observed(ops, applied) =>
      && InHand(d, remote, applied, ops)
      && forall o :: o in ops ==> o in authored && Reached(d.ledger.clock, o.hlc)
    case Applied(names) => forall n {:trigger KnowsBatch(d, remote, n)} :: n in names ==> KnowsBatch(d, remote, n)
    case Uploading(queue) => queue != [] && queue <= Backlog(d.ledger.db.oplog)
    case _ =>
      var queue := d.job.queue;
      && queue != [] && queue <= Backlog(d.ledger.db.oplog)
      && HeadOf(Slice(queue)) in remote && remote[HeadOf(Slice(queue))].ops == Slice(queue)
  }

  ghost predicate OwnLog(d: Device, remote: Remote, authored: set<Operation>) {
    && (forall o {:trigger Logged(d, o)} :: o in authored && o.device == d.ledger.device ==>
          Logged(d, o) && (IsSynced(d, o.hlc) ==> InRemote(remote, o)))
    && (forall o :: Unsent(d.ledger.db.oplog, o) ==> o.device == d.ledger.device)
  }

  ghost predicate DeviceInv(d: Device, remote: Remote, authored: set<Operation>) {
    && LedgerInv(d.ledger, d.known) && KeyedByStamp(d.ledger.db.oplog)
    && d.known <= authored
    && OwnLog(d, remote, authored)
    && (forall h {:trigger KnowsBatch(d, remote, h)} :: h in d.seen ==> KnowsBatch(d, remote, h))
    && JobInv(d, remote, authored)
  }

  ghost predicate AuthoredInv(sys: System) {
    && Consistent(sys.authored)
    && forall o :: o in sys.authored ==> o.device in sys.devices && o.hlc.device == o.device
  }

  ghost predicate BatchShape(h: Stamp, b: Batch, authored: set<Operation>) {
    && b.head == h && 1 <= |b.ops| <= MAX_OPS_PER_BATCH && StampsAscend(b.ops) && HeadOf(b.ops) == h
    && forall o :: o in b.ops ==> o in authored && o.device == b.device
  }

  /** A batch whose head its author still counts as unsent is a beginning of the author's backlog. */
  ghost predicate BatchOfOwner(d: Device, h: Stamp, b: Batch) {
    && KeyedByStamp(d.ledger.db.oplog)
    && (h in d.ledger.db.oplog && !d.ledger.db.oplog[h].synced ==>
          && b.ops <= Backlog(d.ledger.db.oplog)
          && (Pushing(d.job) ==> |b.ops| <= |Slice(d.job.queue)|))
  }

  ghost predicate BatchOf(sys: System, h: Stamp)
    requires h in sys.remote
  {
    sys.remote[h].device in sys.devices && BatchOfOwner(sys.devices[sys.remote[h].device], h, sys.remote[h])
  }

  ghost predicate SysInv(sys: System) {
    && AuthoredInv(sys)
    && (forall id {:trigger DeviceInv(sys.devices[id], sys.remote, sys.authored)} :: id in sys.devices ==>
          sys.devices[id].ledger.device == id && DeviceInv(sys.devices[id], sys.remote, sys.authored))
    && (forall h {:trigger BatchShape(h, sys.remote[h], sys.authored)} :: h in sys.remote ==>
          BatchShape(h, sys.remote[h], sys.authored))
    && (forall h {:trigger BatchOf(sys, h)} :: h in sys.remote ==> BatchOf(sys, h))
  }

  ghost predicate Grows(remote: Remote, remote': Remote) {
    forall h :: h in remote ==> h in remote' && remote'[h] == remote[h]
  }

  /** What other devices do leaves a device's invariant standing. */
  lemma DeviceInvFrame(d: Device, remote: Remote, remote': Remote, authored: set<Operation>, authored': set<Operation>)
    requires DeviceInv(d, remote, authored) && Grows(remote, remote') && authored <= authored'
    requires forall o :: o in authored' && o !in authored ==> o.device != d.ledger.device
    ensures DeviceInv(d, remote', authored')
  {
    forall o | o in authored' && o.device == d.ledger.device && IsSynced(d, o.hlc) ensures InRemote(remote', o) {
      assert Logged(d, o) && InRemote(remote, o);
      var h :| h in remote && o in remote[h].ops;
      assert h in remote' && o in remote'[h].ops;
    }
    forall h | h in d.seen ensures KnowsBatch(d, remote', h) {
      assert KnowsBatch(d, remote, h);
    }
    if d.job.Applied? {
      forall n | n in d.job.names ensures KnowsBatch(d, remote', n) {
        assert KnowsBatch(d, remote, n);
      }
    }
  }

  lemma DeviceOf(sys: System, id: string) returns (d: Device)
    requires SysInv(sys) && id in sys.devices
    ensures d == sys.devices[id] && d.ledger.device == id && DeviceInv(d, sys.remote, sys.authored)
  {
    d := sys.devices[id];
    assert DeviceInv(sys.devices[id], sys.remote, sys.authored);
  }

  lemma BatchAt(sys: System, h: Stamp) returns (b: Batch)
    requires SysInv(sys) && h in sys.remote
    ensures b == sys.remote[h] && BatchShape(h, b, sys.authored) && BatchOf(sys, h)
  {
    b := sys.remote[h];
    assert BatchShape(h, sys.remote[h], sys.authored) && BatchOf(sys, h);
  }

  /** One device moves; the rest of the invariant follows from what that move establishes. */
  lemma OneDeviceMoves(sys: System, id: string, d: Device, remote: Remote, authored: set<Operation>)
    requires SysInv(sys) && id in sys.devices
    requires d.ledger.device == id && DeviceInv(d, remote, authored)
    requires Grows(sys.remote, remote) && sys.authored <= authored
    requires forall o :: o in authored && o !in sys.authored ==> o.device == id && o.hlc.device == id
    requires Consistent(authored)
    requires forall h :: h in remote && h !in sys.remote ==>
               remote[h].device == id && BatchShape(h, remote[h], authored)
    requires forall h :: h in remote && remote[h].device == id ==> BatchOfOwner(d, h, remote[h])
    ensures SysInv(System(sys.devices[id := d], remote, authored))
  {
    var sys' := System(sys.devices[id := d], remote, authored);
    forall e | e in sys'.devices
      ensures sys'.devices[e].ledger.device == e && DeviceInv(sys'.devices[e], remote, authored)
    {
      if e != id {
        var other := DeviceOf(sys, e);
        DeviceInvFrame(other, sys.remote, remote, sys.authored, authored);
      }
    }
    forall h | h in remote ensures BatchShape(h, remote[h], authored) && BatchOf(sys', h) {
      if h in sys.remote {
        var b := BatchAt(sys, h);
      }
    }
  }

  /** The common case: neither the remote nor the set of authored operations changes. */
  lemma DeviceAloneMoves(sys: System, id: string, d: Device)
    requires SysInv(sys) && id in sys.devices
    requires d.ledger.device == id && DeviceInv(d, sys.remote, sys.authored)
    requires forall h ::
               h in sys.remote && sys.remote[h].device == id && BatchOfOwner(sys.devices[id], h, sys.remote[h]) ==>
                 BatchOfOwner(d, h, sys.remote[h])
    ensures SysInv(With(sys, id, d))
  {
    forall h | h in sys.remote && sys.remote[h].device == id ensures BatchOfOwner(d, h, sys.remote[h]) {
      var b := BatchAt(sys, h);
    }
    OneDeviceMoves(sys, id, d, sys.remote, sys.authored);
  }

  /** What a device has seen it still knows, as long as it forgets nothing. */
  lemma SeenStays(d: Device, d': Device, remote: Remote)
    requires forall h {:trigger KnowsBatch(d, remote, h)} :: h in d.seen ==> KnowsBatch(d, remote, h)
    requires d.known <= d'.known && d'.seen == d.seen
    ensures forall h {:trigger KnowsBatch(d', remote, h)} :: h in d'.seen ==> KnowsBatch(d', remote, h)
  {
    forall h | h in d'.seen ensures KnowsBatch(d', remote, h) {
      assert KnowsBatch(d, remote, h);
    }
  }

  lemma JobStays(d: Device, d': Device, remote: Remote, authored: set<Operation>, authored': set<Operation>)
    requires KeyedByStamp(d.ledger.db.oplog) && KeyedByStamp(d'.ledger.db.oplog)
    requires JobInv(d, remote, authored)
    requires d'.job == d.job && d'.ledger.device == d.ledger.device && d.known <= d'.known && authored <= authored'
    requires !StateBefore(d'.ledger.clock, d.ledger.clock)
    requires Backlog(d.ledger.db.oplog) <= Backlog(d'.ledger.db.oplog)
    ensures JobInv(d', remote, authored')
  {
    if d.job.Applied? {
      forall n | n in d.job.names ensures KnowsBatch(d', remote, n) {
        assert KnowsBatch(d, remote, n);
      }
    }
  }

  lemma KnowsOwn(d: Device, remote: Remote, authored: set<Operation>, o: Operation)
    requires DeviceInv(d, remote, authored) && o in authored && o.device == d.ledger.device
    ensures o in d.known && o.hlc in d.ledger.db.oplog
  {
    assert Logged(d, o);
  }

  /** A stamp just ticked is above everything the device knows, hence above its whole log and all it authored. */
  lemma LocalWriteIsAbove(d: Device, remote: Remote, authored: set<Operation>, hlc: Stamp)
    requires DeviceInv(d, remote, authored)
    requires forall o :: o in d.known ==> Before(o.hlc, hlc)
    ensures forall s :: s in d.ledger.db.oplog ==> Before(s, hlc)
    ensures forall o :: o in authored && o.device == d.ledger.device ==> Before(o.hlc, hlc)
    ensures !Before(hlc, hlc)
  {
    hide Before;
    forall s | s in d.ledger.db.oplog ensures Before(s, hlc) {
      assert d.ledger.db.oplog[s].op in d.known;
    }
    forall o | o in authored && o.device == d.ledger.device ensures Before(o.hlc, hlc) {
      KnowsOwn(d, remote, authored, o);
    }
    BeforeIsTotal();
  }

  lemma LedgerOf(d: Device, remote: Remote, authored: set<Operation>)
    requires DeviceInv(d, remote, authored)
    ensures LedgerInv(d.ledger, d.known) && KeyedByStamp(d.ledger.db.oplog) && OwnLog(d, remote, authored)
  {
  }

  lemma LocalWriteIsNew(sys: System, id: string, key: Key, content: Option<Content>, wall: int)
    requires SysInv(sys) && id in sys.devices && Write(sys.devices[id].ledger, key, content, wall).Wrote?
    ensures var op := Write(sys.devices[id].ledger, key, content, wall).op;
            && (forall o :: o in sys.authored ==> o.hlc != op.hlc)
            && op.device == id && op.hlc.device == id && Consistent(sys.authored + {op})
  {
    hide Before, Written, Resolve, Reflects, IsTop, DeviceInv;
    var d := DeviceOf(sys, id);
    var op := Write(d.ledger, key, content, wall).op;
    assert LedgerInv(d.ledger, d.known) by { LedgerOf(d, sys.remote, sys.authored); }
    LocalWriteWins(d.ledger, d.known, key, content, wall);
    LocalWriteIsAbove(d, sys.remote, sys.authored, op.hlc);
    assert forall o :: o in sys.authored && o.hlc == op.hlc ==> o.device == id;
  }

  /** The writer's own log gains the new operation, unsent. */
  lemma OwnLogGrows(d: Device, d': Device, remote: Remote, authored: set<Operation>, op: Operation)
    requires OwnLog(d, remote, authored) && d'.ledger.device == d.ledger.device == op.device
    requires op.hlc !in d.ledger.db.oplog
    requires d'.ledger.db.oplog == d.ledger.db.oplog[op.hlc := LogEntry(op, false)]
    ensures OwnLog(d', remote, authored + {op})
  {
    hide InRemote;
    forall o | o in authored + {op} && o.device == d.ledger.device
      ensures Logged(d', o) && (IsSynced(d', o.hlc) ==> InRemote(remote, o))
    {
      if o != op { assert Logged(d, o); }
    }
    forall o | Unsent(d'.ledger.db.oplog, o) ensures o.device == d.ledger.device {
      assert o == op || Unsent(d.ledger.db.oplog, o);
    }
  }

  /** What a local write does to a device, its log and its backlog. */
  lemma LocalWriteDevice(d: Device, remote: Remote, authored: set<Operation>,
                         key: Key, content: Option<Content>, wall: int)
    requires DeviceInv(d, remote, authored) && Write(d.ledger, key, content, wall).Wrote?
    ensures var Wrote(ledger, op) := Write(d.ledger, key, content, wall);
            && DeviceInv(d.(ledger := ledger, known := d.known + {op}), remote, authored + {op})
            && KeyedByStamp(ledger.db.oplog) && op.hlc !in d.ledger.db.oplog
            && ledger.db.oplog == d.ledger.db.oplog[op.hlc := LogEntry(op, false)]
            && Backlog(ledger.db.oplog) == Backlog(d.ledger.db.oplog) + [op]
  {
    hide Before, Reflects, IsTop, Resolve, OwnLog, Unsent, StateBefore, KnowsBatch, JobInv;
    var Wrote(ledger, op) := Write(d.ledger, key, content, wall);
    LocalWriteWins(d.ledger, d.known, key, content, wall);
    LocalWriteIsAbove(d, remote, authored, op.hlc);
    BacklogAfterWrite(d.ledger.db.oplog, op);
    var d' := d.(ledger := ledger, known := d.known + {op});
    OwnLogGrows(d, d', remote, authored, op);
    SeenStays(d, d', remote);
    TickMovesOn(d.ledger.clock, wall);
    JobStays(d, d', remote, authored, authored + {op});
  }

  lemma TickMovesOn(state: HlcState, wall: int)
    ensures Tick(state, wall).Advanced? ==> !StateBefore(Tick(state, wall).state, state)
  {
  }

  lemma LocalWriteKeeps(sys: System, id: string, key: Key, content: Option<Content>, wall: int)
    requires SysInv(sys) && id in sys.devices
    ensures SysInv(Step(sys, id, LocalWrite(key, content, wall)))
  {
    hide Before, Consistent, LedgerInv, OwnLog, JobInv, StampsAscend;
    var d := DeviceOf(sys, id);
    match Write(d.ledger, key, content, wall)
    case NotWritten(_) =>
    case Wrote(ledger, op) =>
      LocalWriteIsNew(sys, id, key, content, wall);
      LocalWriteDevice(d, sys.remote, sys.authored, key, content, wall);
      hide Write;
      var d' := d.(ledger := ledger, known := d.known + {op});
      forall h | h in sys.remote && sys.remote[h].device == id ensures BatchOfOwner(d', h, sys.remote[h]) {
        var b := BatchAt(sys, h);
        assert b.ops[|b.ops| - 1] in b.ops;
      }
      OneDeviceMoves(sys, id, d', sys.remote, sys.authored + {op});
  }

  lemma HeadBounds(ops: seq<Operation>, o: Operation)
    requires StampsAscend(ops) && o in ops
    ensures AtMost(o.hlc, HeadOf(ops))
  {
    var i :| 0 <= i < |ops| && ops[i] == o;
    assert i == |ops| - 1 || Before(ops[i].hlc, ops[|ops| - 1].hlc);
  }

  lemma DownloadCollects(sys: System, id: string)
    requires SysInv(sys) && id in sys.devices
    requires sys.devices[id].job.Fetching? && sys.devices[id].job.todo != []
             && sys.devices[id].job.todo[0] in sys.remote
    ensures Collected(Download(sys.devices[id], sys.remote), sys.remote, sys.authored)
  {
    var d := DeviceOf(sys, id);
    var d' := Download(d, sys.remote);
    var b := BatchAt(sys, d.job.todo[0]);
    forall o | o in d'.job.ops ensures o in sys.authored && exists h :: h in d'.job.heads && AtMost(o.hlc, h) {
      if o in d.job.ops {
        var h :| h in d.job.heads && AtMost(o.hlc, h);
        assert h in d'.job.heads;
      } else {
        HeadBounds(b.ops, o);
        assert b.head in d'.job.heads;
      }
    }
  }

  lemma DownloadKeeps(sys: System, id: string)
    requires SysInv(sys) && id in sys.devices
    requires sys.devices[id].job.Fetching? && sys.devices[id].job.todo != []
    ensures SysInv(With(sys, id, Download(sys.devices[id], sys.remote)))
  {
    hide Before, LedgerInv, OwnLog, Consistent, StampsAscend;
    var d := DeviceOf(sys, id);
    var d' := Download(d, sys.remote);
    if d.job.todo[0] in sys.remote { DownloadCollects(sys, id); }
    SeenStays(d, d', sys.remote);
    OwnLogStays(d, d', sys.remote, sys.authored);
    DeviceAloneMoves(sys, id, d');
  }

  /** Own operations stay logged, and stay in the remote once marked, while the log's own entries stay. */
  lemma OwnLogStays(d: Device, d': Device, remote: Remote, authored: set<Operation>)
    requires OwnLog(d, remote, authored) && d'.ledger.device == d.ledger.device
    requires forall s :: s in d.ledger.db.oplog ==>
               s in d'.ledger.db.oplog && d'.ledger.db.oplog[s] == d.ledger.db.oplog[s]
    requires forall o :: Unsent(d'.ledger.db.oplog, o) ==> Unsent(d.ledger.db.oplog, o)
    ensures OwnLog(d', remote, authored)
  {
    forall o | o in authored && o.device == d.ledger.device
      ensures Logged(d', o) && (IsSynced(d', o.hlc) ==> InRemote(remote, o))
    {
      assert Logged(d, o);
    }
  }

  lemma TakeHeadsKeeps(sys: System, id: string, walls: seq<int>)
    requires SysInv(sys) && id in sys.devices
    requires sys.devices[id].job.Fetching? && |walls| == |sys.devices[id].job.heads|
    ensures SysInv(With(sys, id, TakeHeads(sys.devices[id], walls)))
  {
    hide Before, Consistent, Reflects, ObserveAll;
    var d := DeviceOf(sys, id);
    var d' := TakeHeads(d, walls);
    ObserveKeepsInv(d.ledger, d.known, d.job.heads, walls);
    SeenStays(d, d', sys.remote);
    OwnLogStays(d, d', sys.remote, sys.authored);
    DeviceAloneMoves(sys, id, d');
  }

  lemma MergedLog(d: Device, remote: Remote, authored: set<Operation>)
    requires DeviceInv(d, remote, authored) && Consistent(authored) && d.job.Observed?
    ensures var d' := MergePulled(d);
            && LedgerInv(d'.ledger, d'.known) && KeyedByStamp(d'.ledger.db.oplog)
            && d.known <= d'.known <= authored && d'.ledger.device == d.ledger.device
            && (forall o :: o in d.job.ops ==> o in d'.known)
            && Backlog(d'.ledger.db.oplog) == Backlog(d.ledger.db.oplog)
            && (forall s :: s in d.ledger.db.oplog ==>
                              s in d'.ledger.db.oplog && d'.ledger.db.oplog[s] == d.ledger.db.oplog[s])
            && OwnLog(d', remote, authored)
  {
    var d' := MergePulled(d);
    assert Consistent(d.known + Usable(d.job.ops)) && Usable(d.job.ops) <= authored;
    MergeKeepsInv(d.ledger, d.known, d.job.ops);
    MergeKeepsBacklog(d.ledger.db, d.ledger.clock, d.known, d.job.ops);
    forall o | Unsent(d'.ledger.db.oplog, o) ensures Unsent(d.ledger.db.oplog, o) {
      assert o in Backlog(d'.ledger.db.oplog);
    }
    OwnLogStays(d, d', remote, authored);
  }

  lemma MergePulledKeeps(sys: System, id: string)
    requires SysInv(sys) && id in sys.devices && sys.devices[id].job.Observed?
    ensures SysInv(With(sys, id, MergePulled(sys.devices[id])))
  {
    hide Before, Reflects, Merge, Consistent, OwnLog;
    var d := DeviceOf(sys, id);
    var d' := MergePulled(d);
    MergedLog(d, sys.remote, sys.authored);
    SeenStays(d, d', sys.remote);
    forall n | n in d.job.applied ensures KnowsBatch(d', sys.remote, n) {
      PulledIsKnown(sys, id, n);
    }
    forall h | h in sys.remote && sys.remote[h].device == id && BatchOfOwner(d, h, sys.remote[h])
      ensures BatchOfOwner(d', h, sys.remote[h])
    {
      OwnHeadIsLogged(sys, id, h);
    }
    DeviceAloneMoves(sys, id, d');
  }

  lemma PulledIsKnown(sys: System, id: string, n: Stamp)
    requires SysInv(sys) && id in sys.devices && sys.devices[id].job.Observed? && n in sys.devices[id].job.applied
    ensures n in sys.remote && forall o :: o in sys.remote[n].ops ==> o in MergePulled(sys.devices[id]).known
  {
    hide MergeInto;
    var d := DeviceOf(sys, id);
    var b := BatchAt(sys, n);
    forall o | o in b.ops ensures o in d.known + Usable(d.job.ops) {
      if b.device == id { KnowsOwn(d, sys.remote, sys.authored, o); }
      assert o in sys.authored;
    }
  }

  lemma OwnHeadIsLogged(sys: System, id: string, h: Stamp)
    requires SysInv(sys) && id in sys.devices && h in sys.remote && sys.remote[h].device == id
    ensures h in sys.devices[id].ledger.db.oplog
  {
    var d := DeviceOf(sys, id);
    var b := BatchAt(sys, h);
    assert b.ops[|b.ops| - 1] in b.ops;
    KnowsOwn(d, sys.remote, sys.authored, b.ops[|b.ops| - 1]);
  }

  lemma RecordPulledKeeps(sys: System, id: string)
    requires SysInv(sys) && id in sys.devices && sys.devices[id].job.Applied?
    ensures SysInv(With(sys, id, RecordPulled(sys.devices[id])))
  {
    var d := DeviceOf(sys, id);
    var d' := RecordPulled(d);
    forall h | h in d'.seen ensures KnowsBatch(d', sys.remote, h) {
      assert KnowsBatch(d, sys.remote, h);
    }
    OwnLogStays(d, d', sys.remote, sys.authored);
    DeviceAloneMoves(sys, id, d');
  }

  /** Steps that only change the job, to one whose invariant holds. */
  lemma JobChangeKeeps(sys: System, id: string, job: Job)
    requires SysInv(sys) && id in sys.devices
    requires KeyedByStamp(sys.devices[id].ledger.db.oplog)
    requires JobInv(sys.devices[id].(job := job), sys.remote, sys.authored)
    requires Pushing(job) ==> |Slice(job.queue)| == |Slice(Backlog(sys.devices[id].ledger.db.oplog))|
                              || (Pushing(sys.devices[id].job)
                                  && |Slice(job.queue)| == |Slice(sys.devices[id].job.queue)|)
    ensures SysInv(With(sys, id, sys.devices[id].(job := job)))
  {
    hide Before, LedgerInv, OwnLog, JobInv, Consistent, StampsAscend;
    var d := DeviceOf(sys, id);
    var d' := d.(job := job);
    SeenStays(d, d', sys.remote);
    OwnLogStays(d, d', sys.remote, sys.authored);
    forall h | h in sys.remote && sys.remote[h].device == id && BatchOfOwner(d, h, sys.remote[h])
      ensures BatchOfOwner(d', h, sys.remote[h])
    {
      var b := BatchAt(sys, h);
    }
    DeviceAloneMoves(sys, id, d');
  }

  /** Two beginnings of one backlog that end on the same stamp are the same. */
  lemma SameHeadSamePrefix(backlog: seq<Operation>, a: seq<Operation>, b: seq<Operation>)
    requires StampsAscend(backlog) && a <= backlog && b <= backlog && a != [] && b != []
    requires HeadOf(a) == HeadOf(b)
    ensures a == b
  {
    BeforeIsTotal();
    assert |a| == |b|;
  }

  lemma SliceIsOwn(d: Device, remote: Remote, authored: set<Operation>)
    requires DeviceInv(d, remote, authored) && Pushing(d.job)
    ensures var slice := Slice(d.job.queue);
            && 1 <= |slice| <= MAX_OPS_PER_BATCH && slice <= Backlog(d.ledger.db.oplog) && StampsAscend(slice)
            && forall o :: o in slice ==>
                             && Unsent(d.ledger.db.oplog, o) && o.device == d.ledger.device
                             && o in d.known && o in authored
  {
    var slice, backlog := Slice(d.job.queue), Backlog(d.ledger.db.oplog);
    assert d.job.queue != [] && d.job.queue <= backlog;
    assert slice == backlog[..|slice|];
    forall o | o in slice ensures Unsent(d.ledger.db.oplog, o) && o in d.known {
      assert o in backlog;
      assert d.ledger.db.oplog[o.hlc].op in d.known;
    }
    forall i, j | 0 <= i < j < |slice| ensures Before(slice[i].hlc, slice[j].hlc) {
      assert Before(backlog[i].hlc, backlog[j].hlc);
    }
  }

  /**
   Uploading under a name already taken writes the same batch again: across any crash and
   retry, two uploads under one name carry the same operations, so the remote only grows.
   */
  lemma UploadIsStable(sys: System, id: string)
    requires SysInv(sys) && id in sys.devices
    requires sys.devices[id].job.Uploading? && sys.devices[id].job.queue != []
    ensures Grows(sys.remote, Upload(sys.devices[id], sys.remote).1)
  {
    hide Before, LedgerInv, OwnLog, JobInv, Consistent;
    var d := DeviceOf(sys, id);
    SliceIsOwn(d, sys.remote, sys.authored);
    var slice := Slice(d.job.queue);
    var h, last := HeadOf(slice), slice[|slice| - 1];
    if h in sys.remote {
      var b := BatchAt(sys, h);
      assert last in slice && b.ops[|b.ops| - 1] in b.ops;
      assert b.device == id;
      SameHeadSamePrefix(Backlog(d.ledger.db.oplog), slice, b.ops);
    }
  }

  lemma UploadKeeps(sys: System, id: string)
    requires SysInv(sys) && id in sys.devices
    requires sys.devices[id].job.Uploading? && sys.devices[id].job.queue != []
    ensures var (d', remote') := Upload(sys.devices[id], sys.remote);
            SysInv(With(sys, id, d').(remote := remote'))
  {
    hide Before, LedgerInv, OwnLog, Consistent, StampsAscend;
    var d := DeviceOf(sys, id);
    var (d', remote') := Upload(d, sys.remote);
    UploadIsStable(sys, id);
    SliceIsOwn(d, sys.remote, sys.authored);
    DeviceInvFrame(d, sys.remote, remote', sys.authored, sys.authored);
    SeenStays(d, d', remote');
    OwnLogStays(d, d', remote', sys.authored);
    forall h | h in remote' && remote'[h].device == id ensures BatchOfOwner(d', h, remote'[h]) {
      if h in sys.remote { var b := BatchAt(sys, h); }
    }
    OneDeviceMoves(sys, id, d', remote', sys.authored);
  }

  lemma RecordPushedKeeps(sys: System, id: string)
    requires SysInv(sys) && id in sys.devices
    requires sys.devices[id].job.Uploaded? && sys.devices[id].job.queue != []
    ensures SysInv(With(sys, id, RecordPushed(sys.devices[id])))
  {
    hide Before, LedgerInv, OwnLog, Consistent, StampsAscend;
    var d := DeviceOf(sys, id);
    var d' := RecordPushed(d);
    SliceIsOwn(d, sys.remote, sys.authored);
    forall h | h in d'.seen ensures KnowsBatch(d', sys.remote, h) {
      if h in d.seen { assert KnowsBatch(d, sys.remote, h); }
    }
    OwnLogStays(d, d', sys.remote, sys.authored);
    DeviceAloneMoves(sys, id, d');
  }

  lemma MarkKeepsOwnLog(d: Device, remote: Remote, authored: set<Operation>)
    requires DeviceInv(d, remote, authored) && d.job.Recorded? && d.job.queue != []
    ensures OwnLog(MarkPushed(d), remote, authored)
  {
    var d' := MarkPushed(d);
    var slice := Slice(d.job.queue);
    SliceIsOwn(d, remote, authored);
    forall o | o in authored && o.device == d.ledger.device
      ensures Logged(d', o) && (IsSynced(d', o.hlc) ==> InRemote(remote, o))
    {
      assert Logged(d, o);
      if o.hlc in StampsOf(slice) {
        var i :| 0 <= i < |slice| && slice[i].hlc == o.hlc;
        assert slice[i] in slice;
        assert o in remote[HeadOf(slice)].ops;
      }
    }
    forall o | Unsent(d'.ledger.db.oplog, o) ensures o.device == d.ledger.device {
      assert Unsent(d.ledger.db.oplog, o);
    }
  }

  /** Marking what was sent takes it off the backlog, so no head still unsent was sent with it. */
  lemma MarkPushedBacklog(d: Device, remote: Remote, authored: set<Operation>)
    requires DeviceInv(d, remote, authored) && d.job.Recorded? && d.job.queue != []
    ensures var d', n := MarkPushed(d), |Slice(d.job.queue)|;
            && n <= |d.job.queue| && KeyedByStamp(d'.ledger.db.oplog)
            && Backlog(d'.ledger.db.oplog) == Backlog(d.ledger.db.oplog)[n..]
            && d.job.queue[n..] <= Backlog(d'.ledger.db.oplog)
  {
    var slice, backlog := Slice(d.job.queue), Backlog(d.ledger.db.oplog);
    SliceIsOwn(d, remote, authored);
    assert slice == backlog[..|slice|];
    BacklogAfterMark(d.ledger.db.oplog, |slice|);
    assert backlog == d.job.queue + backlog[|d.job.queue|..];
  }

  lemma MarkPushedOwnBatch(d: Device, remote: Remote, authored: set<Operation>, h: Stamp, b: Batch)
    requires DeviceInv(d, remote, authored) && d.job.Recorded? && d.job.queue != []
    requires BatchShape(h, b, authored) && BatchOfOwner(d, h, b) && h in d.ledger.db.oplog
    ensures IsSynced(MarkPushed(d), h)
  {
    hide Before, LedgerInv, OwnLog, StampsAscend;
    var slice, backlog := Slice(d.job.queue), Backlog(d.ledger.db.oplog);
    SliceIsOwn(d, remote, authored);
    if !d.ledger.db.oplog[h].synced {
      assert b.ops[|b.ops| - 1] == backlog[|b.ops| - 1] == slice[|b.ops| - 1];
      assert StampsOf(slice)[|b.ops| - 1] == h;
    }
  }

  lemma MarkPushedKeeps(sys: System, id: string)
    requires SysInv(sys) && id in sys.devices
    requires sys.devices[id].job.Recorded? && sys.devices[id].job.queue != []
    ensures SysInv(With(sys, id, MarkPushed(sys.devices[id])))
  {
    var d := DeviceOf(sys, id);
    var d' := MarkPushed(d);
    MarkPushedBacklog(d, sys.remote, sys.authored);
    MarkKeepsInv(d.ledger, d.known, StampsOf(Slice(d.job.queue)));
    MarkKeepsOwnLog(d, sys.remote, sys.authored);
    SeenStays(d, d', sys.remote);
    forall h | h in sys.remote && sys.remote[h].device == id && BatchOfOwner(d, h, sys.remote[h])
      ensures BatchOfOwner(d', h, sys.remote[h])
    {
      var b := BatchAt(sys, h);
      OwnHeadIsLogged(sys, id, h);
      MarkPushedOwnBatch(d, sys.remote, sys.authored, h, b);
    }
    DeviceAloneMoves(sys, id, d');
  }

  /** A crash loses the job and the running clock, nothing else. */
  lemma CrashKeeps(sys: System, id: string)
    requires SysInv(sys) && id in sys.devices
    ensures SysInv(Step(sys, id, Crash))
  {
    var d := DeviceOf(sys, id);
    var d' := d.(ledger := Restart(d.ledger), job := Idle);
    SeenStays(d, d', sys.remote);
    OwnLogStays(d, d', sys.remote, sys.authored);
    DeviceAloneMoves(sys, id, d');
  }

  lemma StartPullKeeps(sys: System, id: string)
    requires SysInv(sys) && id in sys.devices && sys.devices[id].job.Idle?
    ensures SysInv(With(sys, id, StartPull(sys.devices[id], sys.remote)))
  {
    hide SysInv, LedgerInv, OwnLog;
    var d := DeviceOf(sys, id);
    JobChangeKeeps(sys, id, StartPull(d, sys.remote).job);
  }

  lemma StartPushKeeps(sys: System, id: string)
    requires SysInv(sys) && id in sys.devices && sys.devices[id].job.Idle?
    ensures KeyedByStamp(sys.devices[id].ledger.db.oplog) && SysInv(With(sys, id, StartPush(sys.devices[id])))
  {
    hide SysInv, LedgerInv, OwnLog;
    var d := DeviceOf(sys, id);
    JobChangeKeeps(sys, id, StartPush(d).job);
  }
}
