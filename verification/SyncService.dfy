/**
 The sync engine as the program runs it: whole pulls and whole pushes as methods over
 the ledger service and a store. Their specifications are the protocol's steps taken
 without interruption, so what is proved of runs holds of them.
 */
module SyncServices {
  import opened Orders
  import opened Hlc
  import opened Oplog
  import opened Ledgers
  import opened LedgerServices
  import opened Replication

  // A push, batch by batch

  function Batches(queue: seq<Operation>): seq<seq<Operation>> {
    if queue == [] then [] else [Slice(queue)] + Batches(queue[|Slice(queue)|..])
  }

  function Flatten(batches: seq<seq<Operation>>): seq<Operation> {
    if batches == [] then [] else batches[0] + Flatten(batches[1..])
  }

  /** Batches are non-empty and bounded, only the last is short, and together they are the queue in order. */
  lemma {:induction false} BatchesPartition(queue: seq<Operation>)
    ensures Flatten(Batches(queue)) == queue
    ensures forall i :: 0 <= i < |Batches(queue)| ==> 1 <= |Batches(queue)[i]| <= 500
    ensures forall i :: 0 <= i < |Batches(queue)| - 1 ==> |Batches(queue)[i]| == 500
    decreases |queue|
  {
    if queue != [] {
      var slice := Slice(queue);
      BatchesPartition(queue[|slice|..]);
      assert slice + queue[|slice|..] == queue;
    }
  }

  /** Each batch's head is its highest stamp, and heads, hence names, strictly ascend. */
  lemma {:induction false} BatchHeadsAscend(queue: seq<Operation>)
    requires StampsAscend(queue)
    ensures forall i :: 0 <= i < |Batches(queue)| ==>
              && Batches(queue)[i] != []
              && forall o :: o in Batches(queue)[i] ==> o in queue && AtMost(o.hlc, HeadOf(Batches(queue)[i]))
    ensures forall i, j :: 0 <= i < j < |Batches(queue)| ==>
              && Batches(queue)[i] != [] && Batches(queue)[j] != []
              && Before(HeadOf(Batches(queue)[i]), HeadOf(Batches(queue)[j]))
    decreases |queue|
  {
    hide Before, AtMost, StampsAscend, Slice;
    if queue != [] {
      SliceComesFirst(queue);
      var slice := Slice(queue);
      var rest := queue[|slice|..];
      BatchHeadsAscend(rest);
      forall j | 0 <= j < |Batches(rest)|
        ensures Batches(rest)[j] != [] && Before(HeadOf(slice), HeadOf(Batches(rest)[j]))
      {
        assert Batches(rest)[j][|Batches(rest)[j]| - 1] in rest;
      }
    }
  }

  /** The store after an upload: as before, and one object per batch, named by its head. */
  ghost predicate StoredExactly(before: Remote, after: Remote, device: string, batches: seq<seq<Operation>>) {
    && (forall b :: b in batches ==> b != [] && HeadOf(b) in after && after[HeadOf(b)] == Batch(device, HeadOf(b), b))
    && (forall h :: h in after ==> (h in before && after[h] == before[h]) || IsHead(batches, h))
    && (forall h :: h in before ==> h in after)
  }

  ghost predicate IsHead(batches: seq<seq<Operation>>, h: Stamp) {
    exists b :: b in batches && b != [] && HeadOf(b) == h
  }

  /** Sending a queue stores exactly its batches. */
  lemma {:induction false} SendAllStores(d: Device, remote: Remote)
    requires d.job.Uploading? && d.job.queue != [] && StampsAscend(d.job.queue)
    ensures StoredExactly(remote, SendAll(d, remote).1, d.ledger.device, Batches(d.job.queue))
    decreases |d.job.queue|
  {
    hide Before, StampsAscend, MarkSynced;
    var queue := d.job.queue;
    var slice, rest := Slice(queue), queue[|Slice(queue)|..];
    var (d', remote') := SendBatch(d, remote);
    SliceComesFirst(queue);
    BatchHeadsAscend(queue);
    assert Batches(queue) == [slice] + Batches(rest);
    if rest != [] {
      SendAllStores(d', remote');
      HeadNotAgain(queue);
      StoredAfterOne(remote, remote', SendAll(d', remote').1, d.ledger.device, slice, Batches(rest));
    }
  }

  /** What one push sends: the pending operations up to the limit. */
  function Sendable(backlog: seq<Operation>): seq<Operation> {
    if |backlog| <= PENDING_LIMIT then backlog else backlog[..PENDING_LIMIT]
  }

  lemma PushStores(d: Device, remote: Remote)
    requires d.job.Idle? && KeyedByStamp(d.ledger.db.oplog)
    ensures StoredExactly(remote, PushAll(d, remote).1, d.ledger.device, Batches(Sendable(Backlog(d.ledger.db.oplog))))
  {
    hide StoredExactly, SendBatch, Before;
    var queue := Sendable(Backlog(d.ledger.db.oplog));
    if queue == [] {
      NothingStored(remote, d.ledger.device);
    } else {
      SendAllStores(StartPush(d), remote);
    }
  }

  lemma NothingStored(remote: Remote, device: string)
    ensures StoredExactly(remote, remote, device, [])
  {
  }

  lemma HeadNotAgain(queue: seq<Operation>)
    requires queue != [] && StampsAscend(queue)
    ensures Slice(queue) != [] && !IsHead(Batches(queue[|Slice(queue)|..]), HeadOf(Slice(queue)))
  {
    hide Before, StampsAscend, Slice;
    SliceComesFirst(queue);
    BatchHeadsAscend(queue);
    var batches := Batches(queue);
    BeforeIsTotal();
    forall j | 0 < j < |batches| ensures batches[j] != [] && HeadOf(batches[j]) != HeadOf(batches[0]) {
      assert Before(HeadOf(batches[0]), HeadOf(batches[j]));
    }
    assert batches == [Slice(queue)] + Batches(queue[|Slice(queue)|..]);
    assert forall b :: b in batches[1..] ==> exists j :: 0 < j < |batches| && batches[j] == b;
  }

  lemma StoredAfterOne(remote: Remote, mid: Remote, after: Remote, device: string, slice: seq<Operation>,
                       rest: seq<seq<Operation>>)
    requires slice != [] && mid == remote[HeadOf(slice) := Batch(device, HeadOf(slice), slice)]
    requires StoredExactly(mid, after, device, rest) && !IsHead(rest, HeadOf(slice))
    ensures StoredExactly(remote, after, device, [slice] + rest)
  {
    hide HeadOf;
    forall h | h in after && !(h in remote && after[h] == remote[h]) ensures IsHead([slice] + rest, h) {
      if IsHead(rest, h) {
        var b :| b in rest && b != [] && HeadOf(b) == h;
        assert b in [slice] + rest;
      } else {
        assert slice in [slice] + rest && HeadOf(slice) == h;
      }
    }
  }

  lemma SliceComesFirst(queue: seq<Operation>)
    requires StampsAscend(queue) && queue != []
    ensures |Slice(queue)| <= |queue|
    ensures var slice := Slice(queue); var rest := queue[|slice|..];
            && slice != [] && StampsAscend(rest)
            && (forall o :: o in slice ==> o in queue && AtMost(o.hlc, HeadOf(slice)))
            && forall o :: o in rest ==> o in queue && Before(HeadOf(slice), o.hlc)
  {
    hide Before, AtMost;
    var slice := Slice(queue);
    forall o | o in slice ensures o in queue && AtMost(o.hlc, HeadOf(slice)) {
      HeadBounds(slice, o);
    }
    forall o | o in queue[|slice|..] ensures o in queue && Before(HeadOf(slice), o.hlc) {
      var k :| 0 <= k < |queue[|slice|..]| && queue[|slice|..][k] == o;
      assert queue[|slice| + k] == o && queue[|slice| - 1] == slice[|slice| - 1];
    }
  }

  /** Taking one slice off a queue that begins a backlog. */
  lemma QueueAdvances(backlog: seq<Operation>, pending: seq<Operation>, n: nat)
    requires pending <= backlog && n < |pending|
    ensures var slice := Slice(pending[n..]);
            && 1 <= |slice| <= |pending| - n && slice <= backlog[n..]
            && slice == (if |pending| - n <= MAX_OPS_PER_BATCH then pending[n..] else pending[n..n + MAX_OPS_PER_BATCH])
            && pending[n..][|slice|..] == pending[n + |slice|..]
            && backlog[n..][|slice|..] == backlog[n + |slice|..]
            && backlog[n..][..|slice|] == slice
  {
  }

  // Uninterrupted cycles of one device

  /** One batch sent: uploaded, recorded as seen, marked as synced. */
  function SendBatch(d: Device, remote: Remote): (Device, Remote)
    requires d.job.Uploading? && d.job.queue != []
  {
    var (d1, remote') := Upload(d, remote);
    (MarkPushed(RecordPushed(d1)), remote')
  }

  function SendAll(d: Device, remote: Remote): (Device, Remote)
    requires d.job.Uploading? ==> d.job.queue != []
    decreases if d.job.Uploading? then |d.job.queue| else 0
  {
    if !d.job.Uploading? then (d, remote)
    else var (d', remote') := SendBatch(d, remote); SendAll(d', remote')
  }

  ghost function PushAll(d: Device, remote: Remote): (Device, Remote)
    requires d.job.Idle? && KeyedByStamp(d.ledger.db.oplog)
  {
    SendAll(StartPush(d), remote)
  }

  function DownloadAll(d: Device, remote: Remote): Device
    decreases if d.job.Fetching? then |d.job.todo| else 0
  {
    if d.job.Fetching? && d.job.todo != [] then DownloadAll(Download(d, remote), remote) else d
  }

  /** The rest of a pull once everything is downloaded: observe, merge, record. */
  ghost function FinishPull(d: Device, now: nat -> int): Device {
    if d.job.Fetching? then
      var d' := TakeHeads(d, Readings(now, |d.job.heads|));
      if d'.job.Observed? then RecordPulled(MergePulled(d')) else d'
    else d
  }

  datatype PullResult = Pulled(count: nat) | PullFailed

  /** The first `n` readings of a time source. */
  function Readings(now: nat -> int, n: nat): seq<int> {
    seq(n, i requires 0 <= i < n => now(i))
  }

  /** A pull that reads the time source once for every head it observes. */
  ghost function PullAll(d: Device, remote: Remote, now: nat -> int): Device
    requires d.job.Idle?
  {
    FinishPull(DownloadAll(StartPull(d, remote), remote), now)
  }

  // A pull as the program makes it, from the texts of the heads

  /** Fold the heads' texts into the clock; a refused or malformed one fails the pull. */
  function TakeTexts(d: Device, walls: seq<int>): Device
    requires d.job.Fetching? && |walls| == |d.job.heads|
  {
    TextsAreAsMany(d.job.heads);
    var (clock, ok) := ObserveTexts(d.ledger.clock, Texts(d.job.heads), walls);
    d.(ledger := d.ledger.(clock := clock), job := if ok then Observed(d.job.ops, d.job.applied) else Idle)
  }

  /** The device after a pull that read these texts, and what the pull reports. */
  ghost function FinishTexts(d: Device, now: nat -> int): (Device, PullResult) {
    if !d.job.Fetching? then (d, Pulled(0))
    else
      var d' := TakeTexts(d, Readings(now, |d.job.heads|));
      if !d'.job.Observed? then (d', PullFailed)
      else (RecordPulled(MergePulled(d')), Pulled(MergeInto(d'.ledger, d'.job.ops).1))
  }

  ghost function PullTexts(d: Device, remote: Remote, now: nat -> int): (Device, PullResult)
    requires d.job.Idle?
  {
    FinishTexts(DownloadAll(StartPull(d, remote), remote), now)
  }

  lemma {:induction false} DownloadedHeads(d: Device, remote: Remote)
    requires d.job.Fetching? ==> forall h :: h in d.job.heads ==> Encodable(h)
    requires forall n :: n in remote ==> Encodable(remote[n].head)
    ensures var d' := DownloadAll(d, remote); d'.job.Fetching? ==> forall h :: h in d'.job.heads ==> Encodable(h)
    decreases if d.job.Fetching? then |d.job.todo| else 0
  {
    hide Encodable;
    if d.job.Fetching? && d.job.todo != [] { DownloadedHeads(Download(d, remote), remote); }
  }

  /** Where heads have a text that reads back, it is the pull of the protocol. */
  lemma PullTextsIsPull(d: Device, remote: Remote, now: nat -> int)
    requires d.job.Idle? && forall n :: n in remote ==> Encodable(remote[n].head)
    ensures PullTexts(d, remote, now).0 == PullAll(d, remote, now)
  {
    hide Encodable, ObserveTexts, ObserveAll, Texts, MergeInto, Unseen;
    DownloadedHeads(StartPull(d, remote), remote);
    var d' := DownloadAll(StartPull(d, remote), remote);
    if d'.job.Fetching? {
      ObserveTextsOfStamps(d'.ledger.clock, d'.job.heads, Readings(now, |d'.job.heads|));
    }
  }

  /** What a pull has in hand to merge. */
  ghost function PulledOps(d: Device, remote: Remote): seq<Operation>
    requires d.job.Idle?
  {
    var d' := DownloadAll(StartPull(d, remote), remote);
    if d'.job.Fetching? then d'.job.ops else []
  }

  /** The device is as the protocol keeps it and what it pulls comes from the same vault. */
  ghost predicate Trusted(d: Device, remote: Remote)
    requires d.job.Idle?
  {
    Reflects(d.ledger.db, d.known) && Consistent(d.known + Usable(PulledOps(d, remote)))
  }

  /** The number a pull reports is how many more stamps the log holds after it. */
  lemma PullCountsNewStamps(d: Device, remote: Remote, now: nat -> int)
    requires d.job.Idle? && Trusted(d, remote)
    ensures var (d', result) := PullTexts(d, remote, now);
            && (result.Pulled? ==> result.count == |d'.ledger.db.oplog| - |d.ledger.db.oplog|)
            && (result.PullFailed? ==> d'.ledger.db == d.ledger.db)
  {
    hide Consistent, Reflects, Merge, ObserveTexts, Unseen;
    DownloadKeepsLedger(StartPull(d, remote), remote);
    var d1 := DownloadAll(StartPull(d, remote), remote);
    if d1.job.Fetching? {
      var taken := TakeTexts(d1, Readings(now, |d1.job.heads|));
      MergeCountsNewStamps(d.ledger.db, taken.ledger.clock, d.known, d1.job.ops);
    }
  }

  lemma {:induction false} DownloadKeepsLedger(d: Device, remote: Remote)
    ensures DownloadAll(d, remote).ledger == d.ledger && DownloadAll(d, remote).known == d.known
    decreases if d.job.Fetching? then |d.job.todo| else 0
  {
    if d.job.Fetching? && d.job.todo != [] { DownloadKeepsLedger(Download(d, remote), remote); }
  }

  // The store and the service

  /** The reference store: a map from name to object. Names are the stamps they encode. */
  class SharedStore {
    var objects: Remote

    constructor ()
      ensures objects == map[]
    {
      objects := map[];
    }

    /** Names not in `seen`, ascending. */
    method ListUnseen(seen: set<Stamp>) returns (names: seq<Stamp>)
      ensures names == Enumerate(Before, objects.Keys - seen)
    {
      BeforeIsStrictTotal();
      names := [];
      var todo := objects.Keys - seen;
      while todo != {}
        invariant todo <= objects.Keys - seen
        invariant StrictlyAscending(Before, names)
        invariant forall n :: n in names <==> n in objects.Keys - seen - todo
        decreases |todo|
      {
        var n :| n in todo;
        todo := todo - {n};
        InsertNewKeepsStrictOrder(Before, names, n);
        names := Insert(Before, names, n);
      }
      EnumerateIsAscending(Before, objects.Keys - seen);
      AscendingIsUnique(Before, names, Enumerate(Before, objects.Keys - seen));
    }

    method Put(name: Stamp, batch: Batch)
      modifies this
      ensures objects == old(objects)[name := batch]
    {
      objects := objects[name := batch];
    }
  }

  class SyncService {
    const ledger: LedgerService
    var remoteObjects: set<Stamp>

    ghost predicate Valid()
      reads this, ledger, ledger.clock
    {
      ledger.Valid()
    }

    /** The device this service is, with a given history; `known` is not state of the program. */
    ghost function View(known: set<Operation>): Device
      reads this, ledger, ledger.clock
    {
      Device(ledger.View(), remoteObjects, Idle, known)
    }

    constructor (ledger: LedgerService, remoteObjects: set<Stamp>)
      requires ledger.Valid()
      ensures this.ledger == ledger && this.remoteObjects == remoteObjects && Valid()
    {
      this.ledger := ledger;
      this.remoteObjects := remoteObjects;
    }

    /** Seals and uploads one batch, then records it as seen and as synced, in that order. */
    method Send(store: SharedStore, ghost queue: seq<Operation>, slice: seq<Operation>, ghost known: set<Operation>)
      requires Valid()
      requires queue != [] && slice == Slice(queue)
      modifies this`remoteObjects, ledger`oplog, store
      ensures Valid()
      ensures var (d, remote) := SendBatch(old(View(known)).(job := Uploading(queue)), old(store.objects));
              && View(known) == d.(job := Idle) && store.objects == remote
              && d.job == if queue[|slice|..] == [] then Idle else Uploading(queue[|slice|..])
      ensures ledger.oplog == MarkSynced(old(ledger.oplog), StampsOf(slice))
    {
      var head := slice[|slice| - 1].hlc;
      store.Put(head, Batch(ledger.device, head, slice));
      remoteObjects := remoteObjects + {head};
      ledger.MarkSynced(StampsOf(slice));
    }

    /** Uploads the backlog, up to the pending limit, in batches; each is recorded before the next is sent. */
    method Push(store: SharedStore, ghost known: set<Operation>) returns (pushed: nat)
      requires Valid()
      modifies this, ledger, store
      ensures Valid()
      ensures (View(known), store.objects) == PushAll(old(View(known)), old(store.objects))
      ensures pushed == if |old(Backlog(ledger.oplog))| <= 5_000 then |old(Backlog(ledger.oplog))| else 5_000
      ensures Backlog(ledger.oplog) == old(Backlog(ledger.oplog))[pushed..]
      ensures StoredExactly(old(store.objects), store.objects, ledger.device,
                            Batches(old(Backlog(ledger.oplog))[..pushed]))
    {
      hide SendBatch, Backlog, Slice, KeyedByStamp, StoredExactly;
      ghost var device := View(known);
      PushStores(device, store.objects);
      var pending := ledger.PendingOperations();
      assert pending == Sendable(Backlog(ledger.oplog)) == Backlog(ledger.oplog)[..|pending|];
      pushed := 0;
      if pending == [] { return; }
      ghost var start := StartPush(View(known));
      ghost var backlog := Backlog(ledger.oplog);
      while pushed < |pending|
        invariant Valid() && pushed <= |pending|
        invariant pending <= backlog && Backlog(ledger.oplog) == backlog[pushed..]
        invariant SendAll(start, old(store.objects)) ==
                  SendAll(View(known).(job := if pushed == |pending| then Idle else Uploading(pending[pushed..])),
                          store.objects)
      {
        var end := if |pending| - pushed <= MAX_OPS_PER_BATCH then |pending| else pushed + MAX_OPS_PER_BATCH;
        var slice := pending[pushed..end];
        QueueAdvances(backlog, pending, pushed);
        BacklogAfterMark(ledger.oplog, |slice|);
        Send(store, pending[pushed..], slice, known);
        pushed := pushed + |slice|;
      }
    }

    /** Downloads objects in turn, collecting operations, heads and names; our own batches are only noted. */
    method Fetch(store: SharedStore, names: seq<Stamp>, ghost d: Device)
      returns (ops: seq<Operation>, heads: seq<Stamp>, applied: seq<Stamp>)
      requires forall n :: n in names ==> n in store.objects
      requires d.ledger.device == ledger.device
      ensures DownloadAll(d.(job := Fetching(names, [], [], [])), store.objects) ==
              d.(job := Fetching([], ops, heads, applied))
    {
      ops, heads, applied := [], [], [];
      for i := 0 to |names|
        invariant DownloadAll(d.(job := Fetching(names, [], [], [])), store.objects) ==
                  DownloadAll(d.(job := Fetching(names[i..], ops, heads, applied)), store.objects)
      {
        assert names[i] in names && names[i..][1..] == names[i + 1..];
        var batch := store.objects[names[i]];
        if batch.device == ledger.device {
          applied := applied + [names[i]];
          continue;
        }
        ops := ops + batch.ops;
        heads := heads + [batch.head];
        applied := applied + [names[i]];
      }
      assert names[|names|..] == [];
    }

    /** Downloads and merges every object not seen before, then records them as seen. */
    method Pull(store: SharedStore, now: nat -> int, ghost known: set<Operation>) returns (result: PullResult)
      requires Valid()
      modifies this, ledger, ledger.clock
      ensures Valid()
      ensures var (d, outcome) := PullTexts(old(View(known)), store.objects, now);
              View(d.known) == d && result == outcome
    {
      hide Before, ObserveTexts, Merge, StrictTotal, StrictlyAscending;
      var names := store.ListUnseen(remoteObjects);
      if names == [] { return Pulled(0); }
      BeforeIsStrictTotal();
      EnumerateIsAscending(Before, store.objects.Keys - remoteObjects);
      var ops, heads, applied := Fetch(store, names, View(known));
      TextsAreAsMany(heads);
      var ok := ledger.ObserveStamps(Texts(heads), Readings(now, |heads|));
      if !ok { return PullFailed; }
      var count := ledger.Merge(ops);
      remoteObjects := remoteObjects + (set n | n in applied);
      return Pulled(count);
    }
  }

  // Whole cycles are runs of the protocol

  predicate NoUploads(events: seq<(string, Event)>) {
    forall e :: e in events ==> !e.1.PushUpload?
  }

  lemma RunOfOne(sys: System, id: string, event: Event)
    ensures Run(sys, [(id, event)]) == Step(sys, id, event)
  {
    hide Step;
    var events := [(id, event)];
    var next := Step(sys, id, event);
    assert Run(next, []) == next;
    assert events[1..] == [];
    assert Run(next, events[1..]) == next;
    assert Run(sys, events) == Run(next, events[1..]);
    assert Run(sys, events) == next;
  }

  lemma {:induction false} RunConcat(sys: System, a: seq<(string, Event)>, b: seq<(string, Event)>)
    ensures Run(sys, a + b) == Run(Run(sys, a), b)
    decreases |a|
  {
    if a == [] {
      assert a + b == b;
    } else {
      assert (a + b)[1..] == a[1..] + b;
      RunConcat(Step(sys, a[0].0, a[0].1), a[1..], b);
    }
  }

  lemma SendBatchIsARun(sys: System, id: string)
    requires id in sys.devices && sys.devices[id].job.Uploading? && sys.devices[id].job.queue != []
    ensures var (d, remote) := SendBatch(sys.devices[id], sys.remote);
            Run(sys, [(id, PushUpload)] + ([(id, PushRecord)] + [(id, PushMark)])) ==
              With(sys, id, d).(remote := remote)
  {
    SendBatchSteps(sys, id);
    hide Step;
    RunConcat(sys, [(id, PushUpload)], [(id, PushRecord)] + [(id, PushMark)]);
    RunOfOne(sys, id, PushUpload);
    var sys1 := Step(sys, id, PushUpload);
    RunConcat(sys1, [(id, PushRecord)], [(id, PushMark)]);
    RunOfOne(sys1, id, PushRecord);
    RunOfOne(Step(sys1, id, PushRecord), id, PushMark);
  }

  lemma SendBatchSteps(sys: System, id: string)
    requires id in sys.devices && sys.devices[id].job.Uploading? && sys.devices[id].job.queue != []
    ensures var (d, remote) := SendBatch(sys.devices[id], sys.remote);
            Step(Step(Step(sys, id, PushUpload), id, PushRecord), id, PushMark) == With(sys, id, d).(remote := remote)
  {
  }

  lemma {:induction false} SendAllIsARun(sys: System, id: string) returns (events: seq<(string, Event)>)
    requires id in sys.devices && (sys.devices[id].job.Uploading? ==> sys.devices[id].job.queue != [])
    ensures var (d, remote) := SendAll(sys.devices[id], sys.remote);
            Run(sys, events) == With(sys, id, d).(remote := remote)
    decreases if sys.devices[id].job.Uploading? then |sys.devices[id].job.queue| else 0
  {
    var d := sys.devices[id];
    if !d.job.Uploading? {
      assert With(sys, id, d) == sys;
      events := [];
    } else {
      SendBatchIsARun(sys, id);
      var one := [(id, PushUpload)] + ([(id, PushRecord)] + [(id, PushMark)]);
      var rest := SendAllIsARun(Run(sys, one), id);
      RunConcat(sys, one, rest);
      events := one + rest;
    }
  }

  /** An uninterrupted push is a run. */
  lemma PushIsARun(sys: System, id: string) returns (events: seq<(string, Event)>)
    requires id in sys.devices && sys.devices[id].job.Idle? && KeyedByStamp(sys.devices[id].ledger.db.oplog)
    ensures var (d, remote) := PushAll(sys.devices[id], sys.remote);
            Run(sys, events) == With(sys, id, d).(remote := remote)
  {
    var sys1 := Step(sys, id, PushBegin);
    var rest := SendAllIsARun(sys1, id);
    events := [(id, PushBegin)] + rest;
    assert events[1..] == rest;
  }

  lemma {:induction false} DownloadAllIsARun(sys: System, id: string) returns (events: seq<(string, Event)>)
    requires id in sys.devices
    ensures Run(sys, events) == With(sys, id, DownloadAll(sys.devices[id], sys.remote)) && NoUploads(events)
    decreases if sys.devices[id].job.Fetching? then |sys.devices[id].job.todo| else 0
  {
    var d := sys.devices[id];
    if d.job.Fetching? && d.job.todo != [] {
      var sys1 := Step(sys, id, PullGet);
      var rest := DownloadAllIsARun(sys1, id);
      events := [(id, PullGet)] + rest;
      assert events[1..] == rest;
    } else {
      assert With(sys, id, d) == sys;
      events := [];
    }
  }

  lemma {:induction false} DownloadAllFinishes(d: Device, remote: Remote)
    ensures var d' := DownloadAll(d, remote); d'.job.Fetching? ==> d'.job.todo == []
    decreases if d.job.Fetching? then |d.job.todo| else 0
  {
    if d.job.Fetching? && d.job.todo != [] {
      DownloadAllFinishes(Download(d, remote), remote);
    }
  }

  lemma FinishIsARun(sys: System, id: string, now: nat -> int) returns (events: seq<(string, Event)>)
    requires id in sys.devices && sys.devices[id].job.Fetching? && sys.devices[id].job.todo == []
    ensures Run(sys, events) == With(sys, id, FinishPull(sys.devices[id], now)) && NoUploads(events)
  {
    hide Step;
    var observe := PullObserve(Readings(now, |sys.devices[id].job.heads|));
    RunOfOne(sys, id, observe);
    var sys1 := Step(sys, id, observe);
    RunOfOne(sys1, id, PullMerge);
    var sys2 := Step(sys1, id, PullMerge);
    RunOfOne(sys2, id, PullRecord);
    RunConcat(sys1, [(id, PullMerge)], [(id, PullRecord)]);
    RunConcat(sys, [(id, observe)], [(id, PullMerge)] + [(id, PullRecord)]);
    events := [(id, observe)] + ([(id, PullMerge)] + [(id, PullRecord)]);
    FinishSteps(sys, id, now);
  }

  lemma FinishSteps(sys: System, id: string, now: nat -> int)
    requires id in sys.devices && sys.devices[id].job.Fetching? && sys.devices[id].job.todo == []
    ensures var observe := PullObserve(Readings(now, |sys.devices[id].job.heads|));
            Step(Step(Step(sys, id, observe), id, PullMerge), id, PullRecord)
            == With(sys, id, FinishPull(sys.devices[id], now))
  {
    hide MergeInto, ObserveHeads;
  }

  /** An uninterrupted pull is a run. */
  lemma PullIsARun(sys: System, id: string, now: nat -> int) returns (events: seq<(string, Event)>)
    requires id in sys.devices && sys.devices[id].job.Idle?
    ensures Run(sys, events) == With(sys, id, PullAll(sys.devices[id], sys.remote, now)) && NoUploads(events)
  {
    var sys1 := Step(sys, id, PullList);
    var downloads := DownloadAllIsARun(sys1, id);
    var sys2 := Run(sys1, downloads);
    var d2 := sys2.devices[id];
    DownloadAllFinishes(sys1.devices[id], sys.remote);
    var tail: seq<(string, Event)> := [];
    if d2.job.Fetching? {
      tail := FinishIsARun(sys2, id, now);
    }
    RunConcat(sys1, downloads, tail);
    RunConcat(sys, [(id, PullList)], downloads + tail);
    RunOfOne(sys, id, PullList);
    events := [(id, PullList)] + (downloads + tail);
  }
}
