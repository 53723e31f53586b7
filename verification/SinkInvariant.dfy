/** Every step of the sink keeps the invariant and the order of what was logged. */
module SinkInvariant {
  import opened Wrappers
  import opened Bytes
  import opened Framing
  import opened SinkCore
  import opened SinkProtocol

  ghost predicate Steps(s: State, e: Event, single: nat, s': State) {
    Inv(s) && ClaimUndisturbed(s, e) && Apply(s, e, single) == Some(s')
  }

  // ---- Threads ----

  lemma KeepsThreadsStart(s: State, e: Event, single: nat, s': State)
    requires Steps(s, e, single, s') && (e.StartLog? || e.StartFlush?)
    ensures ThreadsInv(s')
  {
    hide WorkerInv, QueueInv, NotStranded, FramedInv, FilesInv, SoloShape;
    assert ThreadsInv(s);
    hide Inv, ClaimUndisturbed;
  }

  lemma KeepsThreadsClaim(s: State, e: Event, single: nat, s': State)
    requires e.Step? && e.t < |s.threads|
    requires Steps(s, e, single, s')
    requires s.threads[e.t].WillLoad? || InClaim(s.threads[e.t])
    ensures ThreadsInv(s')
  {
    hide ParseItems, WellFramed, FilesInv, FramedInv, QueueInv, NotStranded, SoloShape;
  }

  /** Only thread t moves. */
  ghost predicate MovesTo(s: State, s': State, t: nat) {
    && t < |s.threads| && |s'.threads| == |s.threads|
    && (forall i :: 0 <= i < |s.threads| && i != t ==> s'.threads[i] == s.threads[i])
  }

  lemma PlainMove(s: State, s': State, t: nat)
    requires ThreadsInv(s) && MovesTo(s, s', t) && s'.worker == s.worker
    requires s.threads[t] != Out && !InClaim(s'.threads[t]) && !HoldsMutex(s'.threads[t])
    requires IsBoot(s'.threads[t]) ==> IsBoot(s.threads[t])
    requires || (s'.core.slaveFree == s.core.slaveFree && s'.core.slave == s.core.slave)
             || IsBoot(s.threads[t])
    ensures ThreadsInv(s')
  {
    hide IsBoot;
  }

  lemma PlainStepFacts(s: State, e: Event, single: nat, s': State)
    requires e.Step? && e.t < |s.threads| && !s.threads[e.t].WillLoad? && !InClaim(s.threads[e.t])
    requires Steps(s, e, single, s')
    ensures MovesTo(s, s', e.t) && s'.worker == s.worker && s'.core.slave == s.core.slave
    ensures !InClaim(s'.threads[e.t]) && !HoldsMutex(s'.threads[e.t])
    ensures IsBoot(s'.threads[e.t]) ==> IsBoot(s.threads[e.t])
    ensures s'.core.slaveFree == s.core.slaveFree || (s.threads[e.t] == BootSlave && !s'.core.slaveFree)
    ensures s.threads[e.t] == BootSlave ==> s.core.slave == [] || !s'.core.slaveFree
    ensures s'.threads[e.t] != BootSlave && s.threads[e.t] != Out
  {
    hide Inv, ClaimUndisturbed, MutexFree;
  }

  lemma KeepsThreadsPlain(s: State, e: Event, single: nat, s': State)
    requires e.Step? && e.t < |s.threads| && !s.threads[e.t].WillLoad? && !InClaim(s.threads[e.t])
    requires Steps(s, e, single, s')
    ensures ThreadsInv(s')
  {
    PlainStepFacts(s, e, single, s');
    assert ThreadsInv(s);
    assert s.threads[e.t] == BootSlave ==> IsBoot(s.threads[e.t]);
    hide Steps, ThreadsInv, IsBoot;
    PlainMove(s, s', e.t);
  }

  lemma KeepsThreadsWork(s: State, e: Event, single: nat, s': State)
    requires Steps(s, e, single, s') && e.Work?
    ensures ThreadsInv(s')
  {
    hide ParseItems, WellFramed, FilesInv, FramedInv, QueueInv, NotStranded, UpdateFilePath, WriteHeader, WriteData,
        SoloShape;
  }

  // ---- Worker ----

  lemma KeepsWorkerStart(s: State, e: Event, single: nat, s': State)
    requires Steps(s, e, single, s') && (e.StartLog? || e.StartFlush?)
    ensures WorkerInv(s')
  {
    hide QueueInv, NotStranded, FramedInv, FilesInv, SoloShape;
    assert ThreadsInv(s) && WorkerInv(s);
    hide Inv, ClaimUndisturbed;
  }

  lemma KeepsWorkerClaim(s: State, e: Event, single: nat, s': State)
    requires e.Step? && e.t < |s.threads| && (s.threads[e.t].WillLoad? || InClaim(s.threads[e.t]))
    requires Steps(s, e, single, s')
    ensures WorkerInv(s')
  {
    hide QueueInv, NotStranded, FramedInv, FilesInv, SoloShape;
    assert ThreadsInv(s) && WorkerInv(s);
    hide Inv, ClaimUndisturbed, Constructed, MutexFree;
  }

  lemma KeepsWorkerPlain(s: State, e: Event, single: nat, s': State)
    requires e.Step? && e.t < |s.threads| && !s.threads[e.t].WillLoad? && !InClaim(s.threads[e.t])
    requires Steps(s, e, single, s')
    ensures WorkerInv(s')
  {
    PlainStepFacts(s, e, single, s');
    assert WorkerInv(s) && ThreadsInv(s);
    assert s.threads[e.t] == BootSlave ==> e.t == 0;
    hide Steps, ThreadsInv;
  }

  lemma KeepsWorkerWork(s: State, e: Event, single: nat, s': State)
    requires Steps(s, e, single, s') && e.Work?
    ensures WorkerInv(s')
  {
    hide ParseItems, WellFramed, FilesInv, FramedInv, QueueInv, NotStranded, ChunkHeader;
  }

  // ---- Queue: whatever the schedule ----

  lemma KeepsQueueStart(s: State, e: Event, single: nat, s': State)
    requires QueueInv(s) && Apply(s, e, single) == Some(s') && (e.StartLog? || e.StartFlush?)
    ensures QueueInv(s')
  {
    hide MutexFree, IsBoot, Constructed, ItemHeader;
  }

  lemma KeepsQueueBarrier(s: State, e: Event, single: nat, s': State)
    requires e.Step? && e.t < |s.threads| && s.threads[e.t].NeedBarrier?
    requires QueueInv(s) && Apply(s, e, single) == Some(s')
    ensures QueueInv(s')
  {
    hide MutexFree, IsBoot, Constructed, ItemHeader;
  }

  lemma KeepsQueuePost(s: State, e: Event, single: nat, s': State)
    requires e.Step? && e.t < |s.threads|
    requires QueueInv(s) && Apply(s, e, single) == Some(s')
    requires var pc := s.threads[e.t]; pc.WillPost? || pc.FlushBegin? || pc.BootPost?
    ensures QueueInv(s')
  {
    hide MutexFree, IsBoot, Constructed, ItemHeader;
  }

  lemma KeepsQueueOther(s: State, e: Event, single: nat, s': State)
    requires e.Step? && e.t < |s.threads|
    requires QueueInv(s) && Apply(s, e, single) == Some(s')
    requires var pc := s.threads[e.t]; !pc.NeedBarrier? && !pc.WillPost? && !pc.FlushBegin? && !pc.BootPost?
    ensures QueueInv(s')
  {
    assert s'.queue == s.queue;
    hide MutexFree, IsBoot, Constructed, ItemHeader;
  }

  lemma KeepsQueueTake(s: State, e: Event, single: nat, s': State)
    requires QueueInv(s) && Apply(s, e, single) == Some(s') && e.Work? && s.worker == Idle
    ensures QueueInv(s')
  {
    assert s'.queue == s.queue[1..];
    hide ChunkHeader;
  }

  lemma KeepsQueueDraining(s: State, e: Event, single: nat, s': State)
    requires QueueInv(s) && Apply(s, e, single) == Some(s') && e.Work? && s.worker != Idle
    ensures QueueInv(s')
  {
    assert s'.queue == s.queue && s'.threads == s.threads;
    hide Apply;
  }

  lemma KeepsQueue(s: State, e: Event, single: nat, s': State)
    requires QueueInv(s) && Apply(s, e, single) == Some(s')
    ensures QueueInv(s')
  {
    EventTargets(s, e, single, s');
    hide Apply, QueueInv;
    match e
    case StartLog(_, _) => KeepsQueueStart(s, e, single, s');
    case StartFlush(_) => KeepsQueueStart(s, e, single, s');
    case Work =>
      if s.worker == Idle {
        KeepsQueueTake(s, e, single, s');
      } else {
        KeepsQueueDraining(s, e, single, s');
      }
    case Step(t, _) =>
      var pc := s.threads[t];
      if pc.NeedBarrier? {
        KeepsQueueBarrier(s, e, single, s');
      } else if pc.WillPost? || pc.FlushBegin? || pc.BootPost? {
        KeepsQueuePost(s, e, single, s');
      } else {
        KeepsQueueOther(s, e, single, s');
      }
  }

  // ---- Never stranded ----

  /** This needs neither the invariant nor an assumption on scheduling. */
  lemma KeepsNotStrandedWork(s: State, e: Event, single: nat, s': State)
    requires NotStranded(s) && Apply(s, e, single) == Some(s') && e.Work?
    ensures NotStranded(s')
  {
    hide ChunkHeader;
    if s.worker == Idle && s.queue[0] != DrainTask && DrainTask in s.queue {
      var k :| 0 <= k < |s.queue| && s.queue[k] == DrainTask;
      assert s'.queue[k - 1] == DrainTask;
    }
    if t :| 0 <= t < |s.threads| && WillQueueDrain(s.threads[t]) {
      assert s'.threads[t] == s.threads[t];
    }
  }

  lemma KeepsNotStrandedThreads(s: State, e: Event, single: nat, s': State)
    requires NotStranded(s) && Apply(s, e, single) == Some(s') && !e.Work?
    ensures NotStranded(s')
  {
    hide ItemHeader, MutexFree, Constructed;
    assert WillQueueDrain(s'.threads[e.t]) || !WillQueueDrain(s'.threads[e.t]);
    if t :| 0 <= t < |s.threads| && WillQueueDrain(s.threads[t]) {
      assert t != e.t ==> s'.threads[t] == s.threads[t];
    }
  }

  // ---- Framing of the master ----

  lemma HeaderPushedBehind(master: seq<byte>, p: seq<byte>)
    requires WellFramed(master) && 0 < |p| < U32 && |master| + ITEM_HEADER_SIZE + |p| < U64
    ensures PendingHeader(master + ItemHeader(|p|), p)
    ensures ParseItems(master + ItemHeader(|p|)) == ParseItems(master)
  {
    var m := master + ItemHeader(|p|);
    assert m[..|m| - ITEM_HEADER_SIZE] == master;
    assert m[|m| - ITEM_HEADER_SIZE..] == ItemHeader(|p|);
    ShortFrame(p);
    assert FrameItem(p)[..8] == ItemHeader(|p|);
    hide ItemHeader, ParseItems, WellFramed, FrameItem;
    TornTail(master, p, 8);
  }

  lemma PayloadPushedBehind(master: seq<byte>, p: seq<byte>)
    requires PendingHeader(master, p)
    ensures WellFramed(master + p)
    ensures ParseItems(master + p) == ParseItems(master) + [p]
  {
    var m := master[..|master| - ITEM_HEADER_SIZE];
    ShortFrame(p);
    assert FrameItem(p)[..8] == ItemHeader(|p|);
    assert master == m + FrameItem(p)[..8];
    assert master + p == m + FrameItem(p);
    assert |FrameItem(p)| > 8;
    hide ItemHeader, ParseItems, WellFramed, FrameItem;
    FrameItemParses(p);
    ParseItemsAppend(m, FrameItem(p));
    TornTail(m, p, 8);
  }

  lemma KeepsFramedStartLog(s: State, e: Event, single: nat, s': State)
    requires Steps(s, e, single, s') && e.StartLog?
    ensures FramedInv(s')
  {
    hide PendingHeader, WellFramed, ParseItems, ItemHeader, FilesInv, QueueInv, NotStranded, SoloShape, WorkerInv;
    var h := ItemHeader(|e.payload|);
    assert MutexFree(s) && !IsBoot(s.threads[0]) && WellFramed(s.core.master);
    assert s'.core.master == s.core.master + h && MovesTo(s, s', e.t) && s'.threads[e.t] == HeaderPushed(e.payload);
    assert 0 < |e.payload| < U32 && |s.core.master| + ITEM_HEADER_SIZE + |e.payload| < U64;
    hide Steps, IsBoot;
    HeaderPushedBehind(s.core.master, e.payload);
    assert HoldsMutex(s'.threads[e.t]);
  }

  lemma KeepsFramedPayload(s: State, e: Event, single: nat, s': State)
    requires e.Step? && e.t < |s.threads| && s.threads[e.t].HeaderPushed?
    requires Steps(s, e, single, s')
    ensures FramedInv(s')
  {
    hide PendingHeader, WellFramed, ParseItems, ItemHeader, FilesInv, QueueInv, NotStranded, SoloShape, WorkerInv;
    var p := s.threads[e.t].payload;
    assert HoldsMutex(s.threads[e.t]) && PendingHeader(s.core.master, p);
    assert s'.core.master == s.core.master + p && MovesTo(s, s', e.t) && s'.threads[e.t] == Appended;
    assert forall i :: 0 <= i < |s.threads| && i != e.t ==> !HoldsMutex(s.threads[i]);
    hide Steps, IsBoot;
    PayloadPushedBehind(s.core.master, p);
  }

  lemma KeepsFramedSwap(s: State, e: Event, single: nat, s': State)
    requires e.Step? && e.t < |s.threads| && s.threads[e.t].WillSwap?
    requires Steps(s, e, single, s')
    ensures FramedInv(s')
  {
    assert WellFramed([]);
    assert s.core.slave == [];
    hide ParseItems, WellFramed, FilesInv, QueueInv, NotStranded, ItemHeader, WorkerInv, PendingHeader, SoloShape;
    assert MutexFree(s');
  }

  lemma MasterUntouched(s: State, e: Event, single: nat, s': State)
    requires (e.StartFlush? || e.Step?) && e.t < |s.threads|
    requires !s.threads[e.t].HeaderPushed? && !s.threads[e.t].WillSwap?
    requires Steps(s, e, single, s')
    ensures s'.core.master == s.core.master && MovesTo(s, s', e.t) && !HoldsMutex(s'.threads[e.t])
  {
    hide Inv, ClaimUndisturbed, IsBoot, Constructed, MutexFree;
  }

  lemma BootEndsWithEmptyMaster(s: State, e: Event, single: nat, s': State)
    requires e.Step? && e.t < |s.threads|
    requires Steps(s, e, single, s')
    requires |s'.threads| > 0 && IsBoot(s.threads[0]) && !IsBoot(s'.threads[0])
    ensures s.core.master == []
  {
    hide ParseItems, FilesInv, NotStranded, QueueInv, FramedInv, WellFramed, ItemHeader, MutexFree, Constructed;
    assert ThreadsInv(s) && SoloShape(s, 0);
    assert e.t == 0;
  }

  lemma KeepsFramedOther(s: State, e: Event, single: nat, s': State)
    requires (e.StartFlush? || e.Step?) && e.t < |s.threads|
    requires !s.threads[e.t].HeaderPushed? && !s.threads[e.t].WillSwap?
    requires Steps(s, e, single, s')
    ensures FramedInv(s')
  {
    assert FramedInv(s);
    MasterUntouched(s, e, single, s');
    EmptyIsWellFramed();
    assert e.StartFlush? ==> !IsBoot(s.threads[0]) by {
      assert e.StartFlush? ==> Constructed(s);
    }
    if IsBoot(s.threads[0]) && !IsBoot(s'.threads[0]) {
      BootEndsWithEmptyMaster(s, e, single, s');
    }
    hide Steps, WellFramed, IsBoot, PendingHeader;
    if MutexFree(s') {
      assert MutexFree(s);
    }
  }

  lemma EmptyIsWellFramed()
    ensures WellFramed([])
  {
  }

  lemma KeepsFramedWork(s: State, e: Event, single: nat, s': State)
    requires Steps(s, e, single, s') && e.Work?
    ensures FramedInv(s')
  {
    hide ParseItems, FilesInv, NotStranded, QueueInv, SoloShape, WorkerInv, PendingHeader, ChunkHeader, WellFramed;
    assert s'.core.master == s.core.master && |s'.threads| == |s.threads| > 0 && FramedInv(s);
    assert forall i :: 0 <= i < |s.threads| && HoldsMutex(s.threads[i]) ==> s'.threads[i] == s.threads[i];
    assert forall i :: 0 <= i < |s.threads| && HoldsMutex(s'.threads[i]) ==> s'.threads[i] == s.threads[i];
    assert IsBoot(s'.threads[0]) == IsBoot(s.threads[0]);
    hide Steps, IsBoot;
    if MutexFree(s') {
      assert MutexFree(s);
    }
  }

  // ---- Files ----

  lemma EmptyFileIsGood(pubField: seq<byte>)
    requires |pubField| == PUB_FIELD_SIZE
    ensures GoodFile([], pubField)
  {
  }

  lemma ChunkKeepsGood(f: seq<byte>, pubField: seq<byte>, data: seq<byte>)
    requires |pubField| == PUB_FIELD_SIZE && GoodFile(f, pubField) && |data| < U64
    ensures GoodFile(f + EncodeChunk(pubField, data), pubField)
  {
    hide EncodeChunk, ParseFile, WellFormed, ParseItems;
    assert |EncodeChunk(pubField, data)| == CHUNK_HEADER_SIZE + |data|;
    ChunkBehind(f, pubField, data, 0);
  }

  lemma FilesFrame(s: State, s': State)
    requires FilesInv(s)
    requires s'.core.files == s.core.files && s'.core.isOpen == s.core.isOpen && s'.core.pubField == s.core.pubField
    requires s'.base == s.base && s'.worker == s.worker
    requires |s'.core.slave| < U64 && |s'.core.master| < U64
    requires s.worker == AtData ==> s'.core.slave == s.core.slave
    ensures FilesInv(s')
  {
    hide GoodFile, HalfWritten;
  }

  lemma CachesAfterThread(s: State, e: Event, single: nat, s': State)
    requires Apply(s, e, single) == Some(s') && !e.Work? && e.t < |s.threads|
    ensures s'.core.files == s.core.files && s'.core.isOpen == s.core.isOpen && s'.core.pubField == s.core.pubField
    ensures s'.base == s.base && s'.worker == s.worker
    ensures e.StartLog? ==> s'.core.slave == s.core.slave && |s'.core.master| < U64
    ensures e.Step? && s.threads[e.t].HeaderPushed? ==>
      s'.core.slave == s.core.slave && |s'.core.master| == |s.core.master| + |s.threads[e.t].payload|
    ensures e.Step? && s.threads[e.t].WillSwap? ==>
      s'.core.slave == s.core.master && s'.core.master == s.core.slave
    ensures e.StartFlush? || (e.Step? && !s.threads[e.t].HeaderPushed? && !s.threads[e.t].WillSwap?) ==>
      s'.core.slave == s.core.slave && s'.core.master == s.core.master
  {
    hide MutexFree, Constructed;
  }

  lemma KeepsFilesThreads(s: State, e: Event, single: nat, s': State)
    requires Steps(s, e, single, s') && !e.Work? && e.t < |s.threads|
    ensures FilesInv(s')
  {
    CachesAfterThread(s, e, single, s');
    hide Apply, GoodFile, HalfWritten, NotStranded, QueueInv, SoloShape, WellFramed, ItemHeader, WorkerInv;
    assert FilesInv(s);
    if e.Step? && s.threads[e.t].HeaderPushed? {
      assert HoldsMutex(s.threads[e.t]);
      assert |s.core.master| + |s.threads[e.t].payload| < U64;
    } else if e.Step? && s.threads[e.t].WillSwap? {
      assert s.worker == Idle || s.worker == AtCheck;
    }
    hide Inv;
    FilesFrame(s, s');
  }

  lemma KeepsFilesPath(s: State, e: Event, single: nat, s': State)
    requires Steps(s, e, single, s') && e.Work? && s.worker == AtPath
    ensures FilesInv(s')
  {
    EmptyFileIsGood(s.core.pubField);
    hide ParseItems, WellFramed, QueueInv, NotStranded, ItemHeader, GoodFile, SoloShape, HalfWritten, ThreadsInv,
        FramedInv;
  }

  lemma KeepsFilesHeader(s: State, e: Event, single: nat, s': State)
    requires Steps(s, e, single, s') && e.Work? && s.worker == AtHeader
    ensures FilesInv(s')
  {
    var f := s.core.files[|s.core.files| - 1];
    var h := ChunkHeader(s.core.pubField, |s.core.slave|);
    hide ParseItems, WellFramed, QueueInv, NotStranded, ItemHeader, GoodFile, SoloShape, ThreadsInv, FramedInv,
        ChunkHeader;
    assert (f + h)[..|f + h| - CHUNK_HEADER_SIZE] == f;
    assert (f + h)[|f + h| - CHUNK_HEADER_SIZE..] == h;
  }

  lemma DataBehindHeader(f: seq<byte>, pubField: seq<byte>, data: seq<byte>)
    requires |pubField| == PUB_FIELD_SIZE && |data| < U64 && HalfWritten(f, pubField, |data|)
    ensures GoodFile(f + data, pubField)
  {
    var g := f[..|f| - CHUNK_HEADER_SIZE];
    assert f + data == g + EncodeChunk(pubField, data);
    ChunkKeepsGood(g, pubField, data);
  }

  lemma KeepsFilesData(s: State, e: Event, single: nat, s': State)
    requires Steps(s, e, single, s') && e.Work? && s.worker == AtData
    ensures FilesInv(s')
  {
    assert FilesInv(s);
    hide Inv, ClaimUndisturbed, GoodFile, HalfWritten, ParseItems, WellFramed, QueueInv, ItemHeader;
    DataBehindHeader(s.core.files[|s.core.files| - 1], s.core.pubField, s.core.slave);
  }

  lemma KeepsFilesOther(s: State, e: Event, single: nat, s': State)
    requires Steps(s, e, single, s') && e.Work? && s.worker !in {AtPath, AtHeader, AtData}
    ensures FilesInv(s')
  {
    hide ParseItems, WellFramed, QueueInv, NotStranded, ItemHeader, GoodFile, SoloShape, HalfWritten, ThreadsInv,
        FramedInv;
  }

  // ---- A thread alone with the worker ----

  /** An event of thread t or of the worker. */
  predicate IsSolo(e: Event, t: nat) {
    e.Work? || (e.Step? && e.t == t)
  }

  lemma SoloKeepsOthersOut(s: State, e: Event, single: nat, s': State, t: nat)
    requires Steps(s, e, single, s') && OthersOut(s, t) && IsSolo(e, t)
    ensures OthersOut(s', t)
  {
    hide Inv, ClaimUndisturbed, MutexFree;
  }

  lemma SoloTake(s: State, e: Event, single: nat, s': State, t: nat)
    requires Steps(s, e, single, s') && OthersOut(s, t) && SoloShape(s, t) && e.Work? && s.worker == Idle
    ensures SoloShape(s', t)
  {
    hide SoloShape, ThreadsInv, WorkerInv, NotStranded, FramedInv, FilesInv, UpdateFilePath, WriteHeader, WriteData;
    assert QueueInv(s);
    hide Inv, ClaimUndisturbed;
    assert s.queue != [] && s'.queue == s.queue[1..] && s'.core == s.core;
    assert s.queue[0].BarrierTask?
        ==> s.queue[0].t < |s.threads| && s.threads[s.queue[0].t].Waiting? && s.queue[0].t == t;
    assert s.queue[0].DrainTask? ==> s' == s.(queue := s.queue[1..], worker := AtCheck);
    assert s.queue[0].BarrierTask? ==> s' == At(s, t, AfterWait(s.threads[t].stage)).(queue := s.queue[1..]);
    hide Steps, Apply, QueueInv;
    TakeKeepsShape(s, t);
  }

  /** The worker takes the first task: a drain, or the thread's own barrier. */
  lemma TakeKeepsShape(s: State, t: nat)
    requires t < |s.threads| && SoloShape(s, t) && s.queue != [] && s.worker == Idle
    ensures s.queue[0].DrainTask? ==> SoloShape(s.(queue := s.queue[1..], worker := AtCheck), t)
    ensures s.queue[0].BarrierTask? && s.threads[t].Waiting? ==>
      SoloShape(At(s, t, AfterWait(s.threads[t].stage)).(queue := s.queue[1..]), t)
  {
    if s.threads[t].Waiting? && |s.queue| > 1 {
      assert s.queue[0] == s.queue[..|s.queue| - 1][0];
      assert s.queue[1..][..|s.queue| - 2] == s.queue[..|s.queue| - 1][1..];
    }
  }

  lemma SoloDraining(s: State, e: Event, single: nat, s': State, t: nat)
    requires Steps(s, e, single, s') && OthersOut(s, t) && SoloShape(s, t) && e.Work? && s.worker != Idle
    ensures SoloShape(s', t)
  {
    assert s'.queue == s.queue && s'.threads == s.threads && s'.core.master == s.core.master;
    hide Steps;
  }

  /** With the queue empty, the worker idle and nobody about to post, the slave is free. */
  lemma IdleMeansFree(s: State, t: nat)
    requires Inv(s) && OthersOut(s, t) && s.queue == [] && s.worker == Idle && !WillQueueDrain(s.threads[t])
    ensures s.core.slaveFree
  {
    hide ParseItems, FilesInv, FramedInv, WellFramed, MutexFree, IsBoot, ThreadsInv, WorkerInv, QueueInv, SoloShape;
  }

  lemma SoloClaim(s: State, e: Event, single: nat, s': State, t: nat)
    requires e.Step? && e.t == t
    requires Steps(s, e, single, s') && OthersOut(s, t) && SoloShape(s, t)
    requires s.threads[t].WillLoad? || InClaim(s.threads[t])
    ensures SoloShape(s', t)
  {
    if s.threads[t].WillLoad? && s.threads[t].mode != InLog {
      IdleMeansFree(s, t);
    }
    hide ParseItems, FilesInv, NotStranded, FramedInv, WellFramed, ItemHeader, MutexFree, Constructed, IsBoot,
        QueueInv, WorkerInv;
  }

  lemma SoloPosts(s: State, e: Event, single: nat, s': State, t: nat)
    requires e.Step? && e.t == t
    requires Steps(s, e, single, s') && OthersOut(s, t) && SoloShape(s, t)
    requires var pc := s.threads[t]; pc.WillPost? || pc.FlushBegin? || pc.NeedBarrier? || pc.BootPost?
    ensures SoloShape(s', t)
  {
    hide ThreadsInv, WorkerInv, QueueInv, NotStranded, FramedInv, FilesInv;
    hide Inv, ClaimUndisturbed, MutexFree, Constructed, IsBoot, OthersOut;
    assert s.threads[t].NeedBarrier? ==> s'.queue[..|s'.queue| - 1] == s.queue;
  }

  lemma SoloBoots(s: State, e: Event, single: nat, s': State, t: nat)
    requires e.Step? && e.t == t
    requires Steps(s, e, single, s') && OthersOut(s, t) && SoloShape(s, t)
    requires s.threads[t].BootSlave? || s.threads[t].BootMaster?
    ensures SoloShape(s', t)
  {
    hide ThreadsInv, WorkerInv, QueueInv, NotStranded, FramedInv, FilesInv;
    hide Inv, ClaimUndisturbed, MutexFree, Constructed, IsBoot, OthersOut;
  }

  lemma SoloOther(s: State, e: Event, single: nat, s': State, t: nat)
    requires e.Step? && e.t == t
    requires Steps(s, e, single, s') && OthersOut(s, t) && SoloShape(s, t)
    requires var pc := s.threads[t]; !pc.WillLoad? && !InClaim(pc) && !pc.Appended? && !pc.HeaderPushed?
    ensures SoloShape(s', t)
  {
    EventTargets(s, e, single, s');
    hide Steps, SoloShape;
    if s.threads[t].BootSlave? || s.threads[t].BootMaster? {
      SoloBoots(s, e, single, s', t);
    } else {
      SoloPosts(s, e, single, s', t);
    }
  }

  lemma SoloStarts(s: State, e: Event, single: nat, s': State, t: nat)
    requires e.StartFlush? && e.t == t
    requires Steps(s, e, single, s') && OthersOut(s, t)
    ensures OthersOut(s', t) && SoloShape(s', t)
  {
    hide ThreadsInv, WorkerInv, NotStranded, FramedInv, FilesInv, SoloShape;
    assert QueueInv(s);
    assert forall k :: 0 <= k < |s.queue| ==> s.queue[k].DrainTask?;
    hide Inv, ClaimUndisturbed, MutexFree, Constructed, IsBoot;
    assert SoloShape(s', t) by {
      SoloShapeAtFlushBegin(s', t);
    }
  }

  lemma SoloShapeAtFlushBegin(s: State, t: nat)
    requires t < |s.threads| && s.threads[t] == FlushBegin && AllDrains(s.queue)
    ensures SoloShape(s, t)
  {
  }

  // ---- The whole invariant ----

  lemma KeepsBootShape(s: State, e: Event, single: nat, s': State)
    requires Steps(s, e, single, s') && |s'.threads| > 0
    ensures IsBoot(s'.threads[0]) ==> SoloShape(s', 0)
  {
    if IsBoot(s'.threads[0]) {
      StaysBoot(s, e, single, s');
      if e.Work? {
        if s.worker == Idle {
          SoloTake(s, e, single, s', 0);
        } else {
          SoloDraining(s, e, single, s', 0);
        }
      } else if s.threads[0].WillLoad? || InClaim(s.threads[0]) {
        SoloClaim(s, e, single, s', 0);
      } else {
        SoloOther(s, e, single, s', 0);
      }
    }
  }

  lemma StaysBoot(s: State, e: Event, single: nat, s': State)
    requires Steps(s, e, single, s') && |s'.threads| > 0 && IsBoot(s'.threads[0])
    ensures |s.threads| > 0 && IsBoot(s.threads[0]) && OthersOut(s, 0) && SoloShape(s, 0) && IsSolo(e, 0)
    ensures !s.threads[0].Appended? && !s.threads[0].HeaderPushed?
  {
    hide WorkerInv, NotStranded, FramedInv, FilesInv, SoloShape, QueueInv;
    assert ThreadsInv(s) && (IsBoot(s.threads[0]) ==> SoloShape(s, 0));
    hide Inv, ClaimUndisturbed, MutexFree, UpdateFilePath, WriteHeader, WriteData, ItemHeader;
  }

  lemma InvKept(s: State, e: Event, single: nat, s': State)
    requires Steps(s, e, single, s')
    ensures Inv(s')
  {
    assert ThreadsInv(s);
    KeepsBootShapeOf(s, e, single, s');
    KeepsFilesAndFraming(s, e, single, s');
    KeepsThreadsAndWorker(s, e, single, s');
    KeepsQueueAndPending(s, e, single, s');
    hide Steps, ThreadsInv, WorkerInv, QueueInv, NotStranded, FramedInv, FilesInv, SoloShape;
  }

  lemma EventTargets(s: State, e: Event, single: nat, s': State)
    requires Apply(s, e, single) == Some(s')
    ensures !e.Work? ==> e.t < |s.threads|
    ensures e.Step? ==> !s.threads[e.t].Out? && !s.threads[e.t].Waiting?
  {
  }

  lemma KeepsThreadsAndWorker(s: State, e: Event, single: nat, s': State)
    requires Steps(s, e, single, s')
    ensures ThreadsInv(s') && WorkerInv(s')
  {
    EventTargets(s, e, single, s');
    hide Inv, ClaimUndisturbed, Apply, ThreadsInv, WorkerInv;
    match e
    case StartLog(_, _) =>
      KeepsThreadsStart(s, e, single, s');
      KeepsWorkerStart(s, e, single, s');
    case StartFlush(_) =>
      KeepsThreadsStart(s, e, single, s');
      KeepsWorkerStart(s, e, single, s');
    case Work =>
      KeepsThreadsWork(s, e, single, s');
      KeepsWorkerWork(s, e, single, s');
    case Step(t, _) =>
      var pc := s.threads[t];
      if pc.WillLoad? || InClaim(pc) {
        KeepsWorkerClaim(s, e, single, s');
        KeepsThreadsClaim(s, e, single, s');
      } else {
        KeepsWorkerPlain(s, e, single, s');
        KeepsThreadsPlain(s, e, single, s');
      }
  }

  lemma KeepsQueueAndPending(s: State, e: Event, single: nat, s': State)
    requires Steps(s, e, single, s')
    ensures QueueInv(s') && NotStranded(s')
  {
    assert NotStranded(s) && QueueInv(s);
    hide Inv, ClaimUndisturbed, Apply, QueueInv, NotStranded;
    KeepsQueue(s, e, single, s');
    if e.Work? {
      KeepsNotStrandedWork(s, e, single, s');
    } else {
      KeepsNotStrandedThreads(s, e, single, s');
    }
  }

  lemma KeepsFilesAndFraming(s: State, e: Event, single: nat, s': State)
    requires Steps(s, e, single, s')
    ensures FilesInv(s') && FramedInv(s')
  {
    EventTargets(s, e, single, s');
    KeepsThreadsAndWorker(s, e, single, s');
    hide Inv, ClaimUndisturbed, Apply, FilesInv, FramedInv;
    match e
    case StartLog(_, _) =>
      KeepsFilesThreads(s, e, single, s');
      KeepsFramedStartLog(s, e, single, s');
    case StartFlush(_) =>
      KeepsFilesThreads(s, e, single, s');
      FlushStartsOut(s, e, single, s');
      KeepsFramedOther(s, e, single, s');
    case Work =>
      KeepsFramedWork(s, e, single, s');
      match s.worker {
        case AtPath => KeepsFilesPath(s, e, single, s');
        case AtHeader => KeepsFilesHeader(s, e, single, s');
        case AtData => KeepsFilesData(s, e, single, s');
        case _ => KeepsFilesOther(s, e, single, s');
      }
    case Step(t, _) =>
      KeepsFilesThreads(s, e, single, s');
      var pc := s.threads[t];
      if pc.HeaderPushed? {
        KeepsFramedPayload(s, e, single, s');
      } else if pc.WillSwap? {
        KeepsFramedSwap(s, e, single, s');
      } else {
        KeepsFramedOther(s, e, single, s');
      }
  }

  lemma FlushStartsOut(s: State, e: Event, single: nat, s': State)
    requires e.StartFlush? && Apply(s, e, single) == Some(s')
    ensures e.t < |s.threads| && s.threads[e.t] == Out
  {
  }

  lemma KeepsBootShapeOf(s: State, e: Event, single: nat, s': State)
    requires Steps(s, e, single, s')
    ensures |s'.threads| > 0 && (IsBoot(s'.threads[0]) ==> SoloShape(s', 0))
  {
    KeepsThreadsAndWorker(s, e, single, s');
    assert |s'.threads| > 0;
    KeepsBootShape(s, e, single, s');
  }

  // ---- Nothing lost, duplicated or reordered ----

  lemma TotalFrame(s: State, s': State)
    requires s'.core.files == s.core.files && s'.core.slave == s.core.slave && s'.core.master == s.core.master
    requires (s'.worker == AtClear) == (s.worker == AtClear)
    ensures Total(s') == Total(s)
  {
  }

  lemma TotalAppend(s: State, e: Event, single: nat, s': State)
    requires Steps(s, e, single, s')
    requires e.StartLog? || (e.Step? && e.t < |s.threads| && s.threads[e.t].HeaderPushed?)
    ensures Total(s') == Total(s) + Completed(s, e)
  {
    hide ParseItems, WellFramed, ItemHeader, Disk, WorkerInv, QueueInv, NotStranded, FilesInv, SoloShape;
    var before := Disk(s.core.files) + (if s.worker == AtClear then [] else ParseItems(s.core.slave));
    assert s'.core.files == s.core.files && s'.core.slave == s.core.slave && s'.worker == s.worker;
    if e.StartLog? {
      assert !IsBoot(s.threads[0]);
      HeaderPushedBehind(s.core.master, e.payload);
      assert Total(s) + [] == Total(s);
    } else {
      var p := s.threads[e.t].payload;
      assert HoldsMutex(s.threads[e.t]);
      PayloadPushedBehind(s.core.master, p);
      ConcatAssociates(before, ParseItems(s.core.master), [p]);
    }
  }

  lemma TotalSwap(s: State, e: Event, single: nat, s': State)
    requires e.Step? && e.t < |s.threads| && s.threads[e.t].WillSwap?
    requires Steps(s, e, single, s')
    ensures Total(s') == Total(s)
  {
    hide QueueInv, NotStranded, FilesInv, SoloShape, FramedInv;
    assert s.core.slave == [] && s.worker != AtClear && s'.core == Swap(s.core) && s'.worker == s.worker;
    hide Steps, Disk;
    assert ParseItems([]) == [];
    hide ParseItems;
  }

  lemma TotalThread(s: State, e: Event, single: nat, s': State)
    requires (e.StartFlush? || e.Step?) && e.t < |s.threads|
    requires !s.threads[e.t].HeaderPushed? && !s.threads[e.t].WillSwap?
    requires Steps(s, e, single, s')
    ensures Total(s') == Total(s)
  {
    hide Inv, ClaimUndisturbed, Total;
    TotalFrame(s, s');
  }

  lemma HeaderAddsNothing(f: seq<byte>, pubField: seq<byte>, data: seq<byte>)
    requires |pubField| == PUB_FIELD_SIZE && WellFormed(f) && |data| < U64 && data != []
    ensures FilePayloads(f + ChunkHeader(pubField, |data|)) == FilePayloads(f)
    ensures FilePayloads(f + ChunkHeader(pubField, |data|) + data) == FilePayloads(f) + ParseItems(data)
  {
    var chunk := EncodeChunk(pubField, data);
    assert chunk[..CHUNK_HEADER_SIZE] == ChunkHeader(pubField, |data|);
    assert f + ChunkHeader(pubField, |data|) + data == f + chunk;
    assert chunk[..|chunk|] == chunk;
    ChunkBehind(f, pubField, data, CHUNK_HEADER_SIZE);
    ChunkBehind(f, pubField, data, |chunk|);
  }

  lemma TotalPath(s: State, e: Event, single: nat, s': State)
    requires Steps(s, e, single, s') && e.Work? && s.worker == AtPath
    ensures Total(s') == Total(s)
  {
    DiskOfNewFile(s.core.files);
    hide Inv, ClaimUndisturbed, Disk, ParseItems;
  }

  lemma TotalHeader(s: State, e: Event, single: nat, s': State)
    requires Steps(s, e, single, s') && e.Work? && s.worker == AtHeader
    ensures Total(s') == Total(s)
  {
    var c := s.core;
    hide ThreadsInv, QueueInv, NotStranded, FramedInv, SoloShape, ParseItems, ChunkHeader, WellFormed, ParseFile;
    assert c.files != [] && |c.slave| < U64 && c.slave != [] && |c.pubField| == PUB_FIELD_SIZE;
    var f := c.files[|c.files| - 1];
    assert GoodFile(f, c.pubField);
    assert s'.core == WriteHeader(c) && s'.worker == AtData;
    HeaderAddsNothing(f, c.pubField, c.slave);
    DiskOfLast(c.files, f);
    DiskOfLast(c.files, f + ChunkHeader(c.pubField, |c.slave|));
    assert c.files[|c.files| - 1 := f] == c.files;
    hide Steps, Disk, FilePayloads, GoodFile;
  }

  lemma TotalData(s: State, e: Event, single: nat, s': State)
    requires Steps(s, e, single, s') && e.Work? && s.worker == AtData
    ensures Total(s') == Total(s)
  {
    var c := s.core;
    hide ThreadsInv, QueueInv, NotStranded, FramedInv, SoloShape, ParseItems, ChunkHeader, WellFormed, ParseFile;
    assert c.files != [] && |c.slave| < U64 && c.slave != [] && |c.pubField| == PUB_FIELD_SIZE;
    var f := c.files[|c.files| - 1];
    assert HalfWritten(f, c.pubField, |c.slave|);
    var g := f[..|f| - CHUNK_HEADER_SIZE];
    assert f == g + ChunkHeader(c.pubField, |c.slave|);
    assert s'.core == WriteData(c) && s'.worker == AtClear;
    HeaderAddsNothing(g, c.pubField, c.slave);
    DiskOfLast(c.files, f);
    DiskOfLast(c.files, f + c.slave);
    assert c.files[|c.files| - 1 := f] == c.files;
    hide Steps, Disk, FilePayloads, GoodFile, HalfWritten;
    var d, q, x := Disk(c.files[..|c.files| - 1]), FilePayloads(g), ParseItems(c.slave);
    ConcatAssociates(d, q, x);
    assert Disk(s'.core.files) + [] == Disk(s'.core.files);
  }

  lemma TotalClear(s: State, e: Event, single: nat, s': State)
    requires Steps(s, e, single, s') && e.Work? && s.worker == AtClear
    ensures Total(s') == Total(s)
  {
    assert ParseItems([]) == [];
    hide Inv, ClaimUndisturbed, Disk, ParseItems;
  }

  lemma TotalWorker(s: State, e: Event, single: nat, s': State)
    requires Steps(s, e, single, s') && e.Work? && s.worker !in {AtPath, AtHeader, AtData, AtClear}
    ensures Total(s') == Total(s)
  {
    hide Inv, ClaimUndisturbed, Total;
    TotalFrame(s, s');
  }

  lemma LoggedKept(s: State, e: Event, single: nat, s': State)
    requires Steps(s, e, single, s')
    ensures s'.logged == s.logged + Completed(s, e)
  {
    hide Inv, ClaimUndisturbed, MutexFree, Constructed, UpdateFilePath, WriteHeader, WriteData;
    assert s.logged + [] == s.logged;
  }

  lemma TotalKept(s: State, e: Event, single: nat, s': State)
    requires Steps(s, e, single, s')
    ensures Total(s') == Total(s) + Completed(s, e)
    ensures s'.logged == s.logged + Completed(s, e)
  {
    EventTargets(s, e, single, s');
    LoggedKept(s, e, single, s');
    hide Inv, ClaimUndisturbed, Total, Apply, Steps;
    if e.StartLog? || (e.Step? && s.threads[e.t].HeaderPushed?) {
      TotalAppend(s, e, single, s');
    } else {
      assert Completed(s, e) == [];
      assert Total(s) + [] == Total(s);
      if e.Step? && s.threads[e.t].WillSwap? {
        TotalSwap(s, e, single, s');
      } else if e.Step? {
        TotalThread(s, e, single, s');
      } else if e.StartFlush? {
        FlushStartsOut(s, e, single, s');
        TotalThread(s, e, single, s');
      } else {
        match s.worker {
          case AtPath => TotalPath(s, e, single, s');
          case AtHeader => TotalHeader(s, e, single, s');
          case AtData => TotalData(s, e, single, s');
          case AtClear => TotalClear(s, e, single, s');
          case _ => TotalWorker(s, e, single, s');
        }
      }
    }
  }
}
