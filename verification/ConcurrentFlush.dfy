/**
 A flush while any number of other threads log and flush: when it returns, everything that had been logged
 when it began is on disk. Claims are undisturbed; nothing else is assumed about scheduling.
 */
module ConcurrentFlush {
  import opened Wrappers
  import opened Framing
  import opened SinkCore
  import opened SinkProtocol
  import opened SinkInvariant
  import opened SinkRuns

  // ---- How far the first n payloads have got ----

  /** The number of payloads that have left the master: on disk, or in the slave and not yet on disk. */
  function Behind(s: State): nat {
    |Disk(s.core.files)| + if s.worker == AtClear then 0 else |ParseItems(s.core.slave)|
  }

  ghost predicate OnDisk(s: State, n: nat) {
    |Disk(s.core.files)| >= n
  }

  ghost predicate ClaimPending(s: State) {
    exists i :: 0 <= i < |s.threads| && s.threads[i].WillSwap?
  }

  /** They have left the master, or a claim that will take them is under way. */
  ghost predicate HandedOver(s: State, n: nat) {
    Behind(s) >= n || ClaimPending(s)
  }

  /** The flag has been free since the flush began, so any claim since then takes them. */
  ghost predicate SeenFree(s: State, n: nat) {
    s.core.slaveFree || HandedOver(s, n)
  }

  /** A drain is queued before thread t's barrier. */
  ghost predicate DrainBefore(s: State, t: nat) {
    exists k :: 0 <= k < |s.queue| && s.queue[k] == DrainTask && forall j :: 0 <= j < k ==> s.queue[j] != BarrierTask(t)
  }

  ghost predicate Sound(s: State, t: nat, n: nat) {
    && t < |s.threads| && n <= |s.logged| && !IsBoot(s.threads[0])
    && Inv(s) && Total(s) == s.logged
  }

  /** What holds at each stage of thread t's flush. */
  ghost predicate Stages(s: State, t: nat, n: nat)
    requires t < |s.threads|
  {
    match s.threads[t]
    case FlushBegin => true
    case NeedBarrier(First) => SeenFree(s, n) || s.worker != Idle || DrainTask in s.queue
    case Waiting(First) => SeenFree(s, n) || s.worker != Idle || DrainBefore(s, t)
    case WillLoad(InFlush) => SeenFree(s, n)
    case WillStore(InFlush) => true
    case WillSwap(InFlush) => true
    case WillPost(InFlush) => HandedOver(s, n)
    case NeedBarrier(Second) => HandedOver(s, n) && (OnDisk(s, n) || s.worker != Idle || DrainTask in s.queue)
    case Waiting(Second) => HandedOver(s, n) && (OnDisk(s, n) || s.worker != Idle || DrainBefore(s, t))
    case Out => OnDisk(s, n)
    case _ => false
  }

  // ---- What every step keeps ----

  lemma TotalParts(s: State)
    ensures |Total(s)| == Behind(s) + |ParseItems(s.core.master)|
  {
    hide Disk, ParseItems;
  }

  /** No step takes a payload back from the disk, or back into the master. */
  lemma WorkKeeps(s: State, e: Event, single: nat, s': State)
    requires Steps(s, e, single, s') && e.Work?
    ensures Behind(s') == Behind(s) && |Disk(s'.core.files)| >= |Disk(s.core.files)|
  {
    TotalKept(s, e, single, s');
    TotalParts(s);
    TotalParts(s');
    NothingParses();
    WorkFrame(s, e, single, s');
    hide Steps, Total, Disk, ParseItems;
  }

  lemma WorkFrame(s: State, e: Event, single: nat, s': State)
    requires Steps(s, e, single, s') && e.Work?
    ensures s'.core.master == s.core.master && Completed(s, e) == []
    ensures s.worker != AtClear ==> s'.core.slave == s.core.slave
    ensures s.worker == AtClear ==> s'.core.slave == [] && s'.core.files == s.core.files
    ensures s'.worker == AtClear <==> s.worker == AtData
  {
    hide Inv, ClaimUndisturbed, ChunkHeader;
  }

  lemma StepsGive(s: State, e: Event, single: nat, s': State)
    requires Steps(s, e, single, s')
    ensures Apply(s, e, single) == Some(s') && QueueInv(s)
  {
    hide QueueInv;
  }

  lemma ThreadFrame(s: State, e: Event, single: nat, s': State)
    requires Apply(s, e, single) == Some(s') && !e.Work?
    ensures s'.core.files == s.core.files && s'.worker == s.worker
    ensures e.t < |s.threads| && MovesTo(s, s', e.t)
    ensures !(e.Step? && s.threads[e.t].WillSwap?) ==> s'.core.slave == s.core.slave
  {
    EventTargets(s, e, single, s');
    CachesAfterThread(s, e, single, s');
    OneThreadMoves(s, e, single, s');
    hide Apply;
  }

  lemma OneThreadMoves(s: State, e: Event, single: nat, s': State)
    requires Apply(s, e, single) == Some(s') && !e.Work?
    ensures MovesTo(s, s', e.t)
  {
    hide MutexFree, Constructed, ItemHeader;
  }

  lemma ThreadsOnlyPost(s: State, e: Event, single: nat, s': State)
    requires Apply(s, e, single) == Some(s') && !e.Work?
    ensures s.queue <= s'.queue
  {
    hide MutexFree, Constructed, ItemHeader;
  }

  /** The exchange hands over everything logged so far. */
  lemma SwapHandsOver(s: State, e: Event, single: nat, s': State)
    requires Steps(s, e, single, s') && e.Step? && e.t < |s.threads| && s.threads[e.t].WillSwap? && Total(s) == s.logged
    ensures Behind(s') == |s.logged| && Behind(s) <= Behind(s')
    ensures forall n: nat :: n <= |s.logged| ==> HandedOver(s', n)
  {
    CachesAfterThread(s, e, single, s');
    assert ThreadsInv(s);
    hide Inv, ClaimUndisturbed, Apply, Steps;
    NothingParses();
    TotalParts(s);
    assert s.core.slave == [] && s.worker != AtClear;
    hide ThreadsInv, Disk, ParseItems, Total;
  }

  lemma KeepsHandedOver(s: State, e: Event, single: nat, s': State, n: nat)
    requires Steps(s, e, single, s') && Total(s) == s.logged && n <= |s.logged|
    ensures HandedOver(s, n) ==> HandedOver(s', n)
    ensures OnDisk(s, n) ==> OnDisk(s', n)
  {
    if e.Work? {
      WorkKeeps(s, e, single, s');
      WorkKeepsPending(s, e, single, s');
    } else {
      StepsGive(s, e, single, s');
      ThreadFrame(s, e, single, s');
      if e.Step? && s.threads[e.t].WillSwap? {
        SwapHandsOver(s, e, single, s');
      } else if ClaimPending(s) {
        var i :| 0 <= i < |s.threads| && s.threads[i].WillSwap?;
        OnlySwapLeaves(s, e, single, s', i);
      }
    }
    hide Steps, Disk, ParseItems, Total;
  }

  lemma WorkKeepsPending(s: State, e: Event, single: nat, s': State)
    requires Steps(s, e, single, s') && e.Work?
    ensures ClaimPending(s) ==> ClaimPending(s')
  {
    hide Inv, ClaimUndisturbed, ChunkHeader;
    if i :| 0 <= i < |s.threads| && s.threads[i].WillSwap? {
      assert s'.threads[i] == s.threads[i];
    }
  }

  lemma OnlySwapLeaves(s: State, e: Event, single: nat, s': State, i: nat)
    requires Steps(s, e, single, s') && !e.Work? && i < |s.threads| && s.threads[i].WillSwap?
    requires !(e.Step? && e.t < |s.threads| && s.threads[e.t].WillSwap?)
    ensures ClaimPending(s')
  {
    hide Inv, ClaimUndisturbed, MutexFree, Constructed, ItemHeader;
    assert i < |s'.threads| && s'.threads[i] == s.threads[i];
  }

  lemma KeepsSeenFree(s: State, e: Event, single: nat, s': State, n: nat)
    requires Steps(s, e, single, s') && Total(s) == s.logged && n <= |s.logged| && |s.threads| > 0
        && !IsBoot(s.threads[0])
    ensures SeenFree(s, n) ==> SeenFree(s', n)
  {
    KeepsHandedOver(s, e, single, s', n);
    StoreIsClaim(s, e, single, s');
    hide Steps, HandedOver;
    HandedByClaim(s', n);
  }

  lemma HandedByClaim(s: State, n: nat)
    ensures ClaimPending(s) ==> HandedOver(s, n)
  {
    hide Disk, ParseItems;
  }

  /** The flag is taken only by a claim. */
  lemma StoreIsClaim(s: State, e: Event, single: nat, s': State)
    requires Steps(s, e, single, s') && |s.threads| > 0 && !IsBoot(s.threads[0])
    ensures s.core.slaveFree ==> s'.core.slaveFree || ClaimPending(s')
  {
    assert ThreadsInv(s);
    hide Inv, ClaimUndisturbed, MutexFree, Constructed, ItemHeader, ChunkHeader;
    if e.Step? && s.threads[e.t].WillStore? {
      assert s'.threads[e.t].WillSwap?;
    }
  }

  /** A drain task that ends has left the flag free, and everything handed over on disk. */
  lemma DrainEnds(s: State, e: Event, single: nat, s': State, n: nat)
    requires Steps(s, e, single, s') && e.Work? && |s.threads| > 0 && !IsBoot(s.threads[0])
    requires s.worker != Idle && s'.worker == Idle
    ensures s'.core.slaveFree
    ensures HandedOver(s, n) ==> OnDisk(s', n)
  {
    EndsFree(s, e, single, s');
    hide Steps;
    NothingParses();
    hide Disk, ParseItems;
  }

  lemma EndsFree(s: State, e: Event, single: nat, s': State)
    requires Steps(s, e, single, s') && e.Work? && |s.threads| > 0 && !IsBoot(s.threads[0])
    requires s.worker != Idle && s'.worker == Idle
    ensures s'.core.slaveFree && s'.core.files == s.core.files
    ensures s.core.slave == [] && !ClaimPending(s) && s.worker != AtClear
  {
    hide QueueInv, NotStranded, FramedInv, FilesInv, SoloShape, UpdateFilePath, WriteHeader, WriteData;
    assert ThreadsInv(s) && WorkerInv(s) && ClaimUndisturbed(s, e);
    hide Inv;
    assert s.worker == AtCheck || s.worker == AtFree;
  }

  // ---- The stages of the flush ----

  /** Nobody starts anything on thread t. */
  predicate NoStart(e: Event, t: nat) {
    (e.StartLog? || e.StartFlush?) ==> e.t != t
  }

  lemma OthersKeepDrainBefore(s: State, e: Event, single: nat, s': State, t: nat)
    requires Steps(s, e, single, s') && !e.Work?
    ensures DrainBefore(s, t) ==> DrainBefore(s', t)
    ensures DrainTask in s.queue ==> DrainTask in s'.queue
  {
    StepsGive(s, e, single, s');
    ThreadsOnlyPost(s, e, single, s');
    hide Steps;
    if k :| 0 <= k < |s.queue| && s.queue[k] == DrainTask && forall j :: 0 <= j < k ==> s.queue[j] != BarrierTask(t) {
      assert s'.queue[k] == DrainTask && forall j :: 0 <= j < k ==> s'.queue[j] != BarrierTask(t);
    }
    if DrainTask in s.queue {
      var k :| 0 <= k < |s.queue| && s.queue[k] == DrainTask;
      assert s'.queue[k] == DrainTask;
    }
  }

  /** Another thread moves. */
  lemma OthersKeepStages(s: State, e: Event, single: nat, s': State, t: nat, n: nat)
    requires Steps(s, e, single, s') && Sound(s, t, n) && Stages(s, t, n) && !e.Work? && e.t != t
    ensures t < |s'.threads| && Stages(s', t, n)
  {
    hide Steps, Inv, Total, SeenFree, HandedOver, OnDisk, DrainBefore;
    KeepsHandedOver(s, e, single, s', n);
    KeepsSeenFree(s, e, single, s', n);
    StepsGive(s, e, single, s');
    ThreadFrame(s, e, single, s');
    OthersKeepDrainBefore(s, e, single, s', t);
  }

  /** The worker goes on inside the drain task. */
  lemma DrainKeepsStages(s: State, e: Event, single: nat, s': State, t: nat, n: nat)
    requires Steps(s, e, single, s') && Sound(s, t, n) && Stages(s, t, n) && e.Work? && s.worker != Idle
    ensures t < |s'.threads| && Stages(s', t, n)
  {
    hide Steps, Inv, Total, SeenFree, HandedOver, OnDisk, DrainBefore;
    KeepsHandedOver(s, e, single, s', n);
    KeepsSeenFree(s, e, single, s', n);
    if s'.worker == Idle {
      DrainEnds(s, e, single, s', n);
    }
    StepsGive(s, e, single, s');
    DrainFrame(s, e, single, s');
    FreeIsSeen(s', n);
    assert DrainBefore(s, t) ==> DrainBefore(s', t) by {
      SameQueue(s, s', t);
    }
  }

  lemma FreeIsSeen(s: State, n: nat)
    ensures s.core.slaveFree ==> SeenFree(s, n)
    ensures HandedOver(s, n) ==> SeenFree(s, n)
    ensures SeenFree(s, n) && !s.core.slaveFree ==> HandedOver(s, n)
  {
    hide HandedOver;
  }

  lemma SameQueue(s: State, s': State, t: nat)
    requires s'.queue == s.queue
    ensures DrainBefore(s, t) ==> DrainBefore(s', t)
  {
  }

  lemma DrainFrame(s: State, e: Event, single: nat, s': State)
    requires Apply(s, e, single) == Some(s') && e.Work? && s.worker != Idle
    ensures s'.queue == s.queue && s'.threads == s.threads
  {
    hide UpdateFilePath, WriteHeader, WriteData;
  }

  /** The worker takes a task. */
  lemma TakeFrame(s: State, e: Event, single: nat, s': State, t: nat)
    requires QueueInv(s) && Apply(s, e, single) == Some(s')
    requires e.Work? && s.worker == Idle && t < |s.threads|
    ensures s.queue != [] && s'.queue == s.queue[1..] && |s'.threads| == |s.threads|
    ensures s.queue[0] == DrainTask ==> s'.threads == s.threads && s'.worker == AtCheck
    ensures s.queue[0] == BarrierTask(t) ==>
      s.threads[t].Waiting? && s'.threads[t] == AfterWait(s.threads[t].stage) && s'.worker == Idle
    ensures s.queue[0] != BarrierTask(t) ==> s'.threads[t] == s.threads[t]
    ensures s.queue[0] != DrainTask ==> s'.worker == Idle
  {
  }

  lemma TakeKeepsDrainBefore(s: State, s': State, t: nat)
    requires s.queue != [] && s'.queue == s.queue[1..] && s.queue[0] != DrainTask
    ensures DrainBefore(s, t) && s.queue[0] != BarrierTask(t) ==> DrainBefore(s', t)
    ensures s.queue[0] == BarrierTask(t) ==> !DrainBefore(s, t)
    ensures DrainTask in s.queue ==> DrainTask in s'.queue
  {
    if k :| 0 <= k < |s.queue| && s.queue[k] == DrainTask && forall j :: 0 <= j < k ==> s.queue[j] != BarrierTask(t) {
      if s.queue[0] != BarrierTask(t) {
        assert s'.queue[k - 1] == DrainTask && forall j :: 0 <= j < k - 1 ==> s'.queue[j] == s.queue[j + 1];
      }
    }
    if DrainTask in s.queue {
      var k :| 0 <= k < |s.queue| && s.queue[k] == DrainTask;
      assert s'.queue[k - 1] == DrainTask;
    }
  }

  lemma TakeKeepsStages(s: State, e: Event, single: nat, s': State, t: nat, n: nat)
    requires Steps(s, e, single, s') && Sound(s, t, n) && Stages(s, t, n) && e.Work? && s.worker == Idle
    ensures t < |s'.threads| && Stages(s', t, n)
  {
    hide Steps, Inv, Total, SeenFree, HandedOver, OnDisk, DrainBefore;
    KeepsHandedOver(s, e, single, s', n);
    KeepsSeenFree(s, e, single, s', n);
    StepsGive(s, e, single, s');
    TakeFrame(s, e, single, s', t);
    if s.queue[0] != DrainTask {
      TakeKeepsDrainBefore(s, s', t);
    }
  }

  /** Thread t itself moves. */
  lemma SelfKeepsStages(s: State, e: Event, single: nat, s': State, t: nat, n: nat)
    requires Steps(s, e, single, s') && Sound(s, t, n) && Stages(s, t, n) && e.Step? && e.t == t
    ensures t < |s'.threads| && Stages(s', t, n)
  {
    hide Steps, Inv, Total, SeenFree, HandedOver, OnDisk, DrainBefore;
    KeepsHandedOver(s, e, single, s', n);
    KeepsSeenFree(s, e, single, s', n);
    FreeIsSeen(s, n);
    FreeIsSeen(s', n);
    StepsGive(s, e, single, s');
    SelfFrame(s, e, single, s', t);
    if s.threads[t].WillSwap? {
      SwapHandsOver(s, e, single, s');
    }
  }

  lemma SelfFrame(s: State, e: Event, single: nat, s': State, t: nat)
    requires QueueInv(s) && Apply(s, e, single) == Some(s') && e.Step? && e.t == t && t < |s.threads|
    ensures t < |s'.threads| && s'.worker == s.worker && !s.threads[t].Out? && !s.threads[t].Waiting?
    ensures match s.threads[t]
      case FlushBegin => s'.threads[t] == NeedBarrier(First) && DrainTask in s'.queue
      case NeedBarrier(stage) => s'.threads[t] == Waiting(stage) && (DrainTask in s.queue ==> DrainBefore(s', t))
      case WillLoad(InFlush) =>
        s'.core == s.core && s'.threads[t] == if s.core.slaveFree then WillStore(InFlush) else WillPost(InFlush)
      case WillStore(InFlush) => s'.threads[t] == WillSwap(InFlush)
      case WillSwap(InFlush) => s'.threads[t] == WillPost(InFlush)
      case WillPost(InFlush) => s'.threads[t] == NeedBarrier(Second) && DrainTask in s'.queue
      case _ => true
  {
    hide MutexFree, QueueInv;
    if s.threads[t].FlushBegin? || s.threads[t].WillPost? {
      assert s'.queue[|s.queue|] == DrainTask;
    } else if s.threads[t].NeedBarrier? && DrainTask in s.queue {
      BarrierBehind(s, s', t);
    }
  }

  lemma BarrierBehind(s: State, s': State, t: nat)
    requires QueueInv(s) && t < |s.threads| && !s.threads[t].Waiting? && DrainTask in s.queue
    requires s'.queue == s.queue + [BarrierTask(t)]
    ensures DrainBefore(s', t)
  {
    var k :| 0 <= k < |s.queue| && s.queue[k] == DrainTask;
    assert s'.queue[k] == DrainTask && forall j :: 0 <= j < k ==> s'.queue[j] != BarrierTask(t);
  }

  lemma StagesKept(s: State, e: Event, single: nat, s': State, t: nat, n: nat)
    requires Steps(s, e, single, s') && Sound(s, t, n) && Stages(s, t, n) && NoStart(e, t)
    ensures t < |s'.threads| && Stages(s', t, n)
  {
    hide Steps, Sound, Stages;
    if e.Work? {
      if s.worker == Idle {
        TakeKeepsStages(s, e, single, s', t, n);
      } else {
        DrainKeepsStages(s, e, single, s', t, n);
      }
    } else if e.t != t {
      OthersKeepStages(s, e, single, s', t, n);
    } else {
      SelfKeepsStages(s, e, single, s', t, n);
    }
  }

  lemma SoundKept(s: State, e: Event, single: nat, s': State, t: nat, n: nat)
    requires Steps(s, e, single, s') && Sound(s, t, n)
    ensures Sound(s', t, n) && s.logged <= s'.logged
  {
    InvKept(s, e, single, s');
    TotalKept(s, e, single, s');
    LoggedKept(s, e, single, s');
    BootStaysOver(s, e, single, s');
    hide Steps, Inv, Total, Completed;
  }

  lemma BootStaysOver(s: State, e: Event, single: nat, s': State)
    requires Steps(s, e, single, s') && |s.threads| > 0 && !IsBoot(s.threads[0])
    ensures |s'.threads| == |s.threads| && !IsBoot(s'.threads[0])
  {
    hide Inv, ClaimUndisturbed, MutexFree, Constructed, ItemHeader, UpdateFilePath, WriteHeader, WriteData;
  }

  lemma {:induction false} FlushRun(s: State, events: seq<Event>, single: nat, t: nat, n: nat)
    requires Sound(s, t, n) && Stages(s, t, n)
    requires Undisturbed(s, events, single) && Run(s, events, single).Some?
    requires forall i :: 0 <= i < |events| ==> NoStart(events[i], t)
    ensures var s' := Run(s, events, single).value;
      Sound(s', t, n) && Stages(s', t, n) && s.logged <= s'.logged
    decreases |events|
  {
    if events == [] {
    } else {
      var e := events[0];
      assert Inv(s);
      hide Apply, Inv, Sound, Stages, NoStart, Undisturbed, Run;
      RunHead(s, events, single);
      var s1 := Apply(s, e, single).value;
      assert NoStart(e, t);
      SoundKept(s, e, single, s1, t, n);
      StagesKept(s, e, single, s1, t, n);
      hide Steps;
      FlushRun(s1, events[1..], single, t, n);
    }
  }

  /**
   Thread t flushes while any other threads log and flush, with undisturbed claims: as soon as it is outside
   again, whatever had been logged when it began is what the parser reads first from the disk.
   */
  lemma FlushCoversEarlier(s: State, t: nat, events: seq<Event>, single: nat)
    requires Inv(s) && Total(s) == s.logged && Apply(s, StartFlush(t), single).Some?
    requires var s1 := Apply(s, StartFlush(t), single).value;
      Undisturbed(s1, events, single) && Run(s1, events, single).Some?
    requires forall i :: 0 <= i < |events| ==> NoStart(events[i], t)
    ensures var s' := Run(Apply(s, StartFlush(t), single).value, events, single).value;
      t < |s'.threads| && (s'.threads[t] == Out ==> s.logged <= Disk(s'.core.files))
  {
    var e := StartFlush(t);
    var s1 := Apply(s, e, single).value;
    assert t < |s.threads| && Constructed(s);
    FlushStarts(s, t, single);
    assert Sound(s, t, |s.logged|);
    SoundKept(s, e, single, s1, t, |s.logged|);
    hide Inv, Apply, Steps, Total;
    assert Stages(s1, t, |s.logged|);
    FlushRun(s1, events, single, t, |s.logged|);
    var s' := Run(s1, events, single).value;
    hide Run, Undisturbed, NoStart;
    assert s'.threads[t] == Out ==> OnDisk(s', |s.logged|);
    DiskComesFirst(s');
    assert s.logged <= s'.logged;
  }

  lemma DiskComesFirst(s: State)
    ensures Disk(s.core.files) <= Total(s)
  {
    hide Disk, ParseItems;
  }
}
