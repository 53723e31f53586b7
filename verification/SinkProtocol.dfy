/**
 The sink as a transition system: any number of threads that log, flush or construct the sink,
 interleaved step by step with the one worker thread that runs the sink's task queue. A crash may
 happen between any two steps; the constructor then runs on what is left in the files.

 Payloads are the encrypted items: not empty, and shorter than 2^32 bytes. Every step is one function
 application, so a run is a list of events.
 */
module SinkProtocol {
  import opened Wrappers
  import opened Bytes
  import opened Framing
  import opened SinkCore

  // ---- State ----

  /** Which call a claim of the slave belongs to. */
  datatype Mode = InLog | InFlush | InBoot

  /** Which wait for the task queue: the first or the second of a flush, or the constructor's. */
  datatype Stage = First | Second | Boot

  /** Where a thread is. Out is outside the sink. */
  datatype Pc =
    | Out
    | HeaderPushed(payload: seq<byte>)  // item header in the master, mutex held
    | Appended                          // about to look at the master's fill
    | WillLoad(mode: Mode)              // about to read slave_free_
    | WillStore(mode: Mode)             // read true, about to store false
    | WillSwap(mode: Mode)              // about to exchange the caches
    | WillPost(mode: Mode)              // about to post a drain
    | FlushBegin                        // about to post the first drain of a flush
    | NeedBarrier(stage: Stage)         // about to post an empty task to wait for
    | Waiting(stage: Stage)             // blocked until that task has run
    | BootSlave                         // constructor: about to look at the slave
    | BootPost                          // constructor: slave taken, about to post a drain
    | BootMaster                        // constructor: about to look at the master

  datatype Task = DrainTask | BarrierTask(t: nat)

  /** Where the worker is inside the drain task. */
  datatype WorkerPc = Idle | AtCheck | AtEmpty | AtPath | AtHeader | AtData | AtClear | AtFree

  /** base is the number of log files found by the constructor; logged is the history of completed appends. */
  datatype State = State(
    core: Core, threads: seq<Pc>, queue: seq<Task>, worker: WorkerPc, base: nat, logged: seq<seq<byte>>)

  datatype Event =
    | StartLog(t: nat, payload: seq<byte>)
    | StartFlush(t: nat)
    | Step(t: nat, above: bool)  // above: whether a fill read now exceeds the limit
    | Work

  // ---- Steps ----

  predicate HoldsMutex(pc: Pc) {
    pc.HeaderPushed?
  }

  predicate IsBoot(pc: Pc) {
    || pc.BootSlave? || pc.BootPost? || pc.BootMaster?
    || (pc.NeedBarrier? && pc.stage == Boot) || (pc.Waiting? && pc.stage == Boot)
    || ((pc.WillLoad? || pc.WillStore? || pc.WillSwap? || pc.WillPost?) && pc.mode == InBoot)
  }

  predicate MutexFree(s: State) {
    forall i :: 0 <= i < |s.threads| ==> !HoldsMutex(s.threads[i])
  }

  predicate Constructed(s: State) {
    forall i :: 0 <= i < |s.threads| ==> !IsBoot(s.threads[i])
  }

  function At(s: State, t: nat, pc: Pc): State
    requires t < |s.threads|
  {
    s.(threads := s.threads[t := pc])
  }

  function Queued(s: State, task: Task): State {
    s.(queue := s.queue + [task])
  }

  function AfterPost(mode: Mode): Pc {
    match mode
    case InLog => Out
    case InFlush => NeedBarrier(Second)
    case InBoot => Out
  }

  function AfterWait(stage: Stage): Pc {
    match stage
    case First => WillLoad(InFlush)
    case Second => Out
    case Boot => BootMaster
  }

  function ThreadStep(s: State, t: nat, above: bool): Option<State>
    requires t < |s.threads|
  {
    var c := s.core;
    match s.threads[t]
    case Out => None
    case HeaderPushed(p) =>
      Some(At(s, t, Appended).(core := Append(c, p), logged := s.logged + [p]))
    case Appended => Some(At(s, t, if above then WillLoad(InLog) else Out))
    case WillLoad(m) => Some(At(s, t, if c.slaveFree then WillStore(m) else WillPost(m)))
    case WillStore(m) => Some(At(s, t, WillSwap(m)).(core := c.(slaveFree := false)))
    case WillSwap(m) =>
      if MutexFree(s) then Some(At(s, t, WillPost(m)).(core := Swap(c))) else None
    case WillPost(m) => Some(Queued(At(s, t, AfterPost(m)), DrainTask))
    case FlushBegin => Some(Queued(At(s, t, NeedBarrier(First)), DrainTask))
    case NeedBarrier(stage) => Some(Queued(At(s, t, Waiting(stage)), BarrierTask(t)))
    case Waiting(_) => None
    case BootSlave =>
      if c.slave == [] then Some(At(s, t, BootMaster))
      else Some(At(s, t, BootPost).(core := c.(slaveFree := false)))
    case BootPost => Some(Queued(At(s, t, NeedBarrier(Boot)), DrainTask))
    case BootMaster => Some(At(s, t, if c.master == [] then Out else WillLoad(InBoot)))
  }

  function WorkerStep(s: State, single: nat): Option<State> {
    var c := s.core;
    match s.worker
    case Idle =>
      if s.queue == [] then None
      else
        var s' := s.(queue := s.queue[1..]);
        (match s.queue[0]
         case DrainTask => Some(s'.(worker := AtCheck))
         case BarrierTask(t) =>
           if t < |s.threads| && s.threads[t].Waiting? then Some(At(s', t, AfterWait(s.threads[t].stage)))
           else Some(s'))
    case AtCheck => Some(s.(worker := if c.slaveFree then Idle else AtEmpty))
    case AtEmpty => Some(s.(worker := if c.slave == [] then AtFree else AtPath))
    case AtPath =>
      if ValidCore(c) then Some(s.(core := UpdateFilePath(c, single), worker := AtHeader)) else None
    case AtHeader =>
      if ValidCore(c) && c.files != [] then Some(s.(core := WriteHeader(c), worker := AtData)) else None
    case AtData =>
      if c.files != [] then Some(s.(core := WriteData(c), worker := AtClear)) else None
    case AtClear => Some(s.(core := ClearSlave(c), worker := AtFree))
    case AtFree => Some(s.(core := c.(slaveFree := true), worker := Idle))
  }

  function Apply(s: State, e: Event, single: nat): Option<State> {
    match e
    case StartLog(t, p) =>
      if t < |s.threads| && s.threads[t] == Out && Constructed(s) && MutexFree(s)
         && 0 < |p| < U32 && |s.core.master| + ITEM_HEADER_SIZE + |p| < U64
      then Some(At(s, t, HeaderPushed(p)).(core := Append(s.core, ItemHeader(|p|))))
      else None
    case StartFlush(t) =>
      if t < |s.threads| && s.threads[t] == Out && Constructed(s) then Some(At(s, t, FlushBegin)) else None
    case Step(t, above) =>
      if t < |s.threads| then ThreadStep(s, t, above) else None
    case Work => WorkerStep(s, single)
  }

  /**
   The assumption on scheduling under which order is kept. Of a claim's three accesses - read the
   flag, store false, exchange the caches - two gaps must stay undisturbed: no other thread reads the
   flag between the read and the store, and the worker does not test it between the store and the
   exchange. A claim that runs as one atomic step satisfies both.
   */
  ghost predicate ClaimUndisturbed(s: State, e: Event) {
    ReadUndisturbed(s, e) && TestUndisturbed(s, e)
  }

  /** No thread reads the flag between another's read and store. */
  ghost predicate ReadUndisturbed(s: State, e: Event) {
    e.Step? && e.t < |s.threads| && s.threads[e.t].WillLoad? ==>
      forall i :: 0 <= i < |s.threads| ==> !s.threads[i].WillStore?
  }

  /** The worker does not test the flag between a thread's store and exchange. */
  ghost predicate TestUndisturbed(s: State, e: Event) {
    e.Work? && s.worker == AtCheck ==> forall i :: 0 <= i < |s.threads| ==> !s.threads[i].WillSwap?
  }

  // ---- What is kept ----

  /** On disk, then in the slave unless it is already on disk, then in the master. */
  function Total(s: State): seq<seq<byte>> {
    Disk(s.core.files)
    + (if s.worker == AtClear then [] else ParseItems(s.core.slave))
    + ParseItems(s.core.master)
  }

  predicate InClaim(pc: Pc) {
    pc.WillStore? || pc.WillSwap?
  }

  predicate WillQueueDrain(pc: Pc) {
    pc.WillSwap? || pc.WillPost? || pc.BootPost?
  }

  /** One claim at a time, on a free slave; one mutex holder; nobody else inside while constructing. */
  ghost predicate ThreadsInv(s: State) {
    && |s.threads| > 0
    && (forall i :: 0 <= i < |s.threads| ==>
          && (s.threads[i].WillStore? ==> s.core.slaveFree)
          && (s.threads[i].WillSwap? ==>
                !s.core.slaveFree && s.core.slave == [] && (s.worker == Idle || s.worker == AtCheck))
          && (i > 0 ==> !IsBoot(s.threads[i]))
          && (i > 0 && IsBoot(s.threads[0]) ==> s.threads[i] == Out))
    && (forall i, j :: 0 <= i < j < |s.threads| ==>
          && !(InClaim(s.threads[i]) && InClaim(s.threads[j]))
          && !(HoldsMutex(s.threads[i]) && HoldsMutex(s.threads[j])))
  }

  /** Slave free implies slave empty; worker past its test implies slave taken. */
  ghost predicate WorkerInv(s: State) {
    && |s.threads| > 0
    && (s.core.slaveFree && s.threads[0] != BootSlave ==> s.core.slave == [])
    && (s.worker != Idle && s.worker != AtCheck ==> !s.core.slaveFree)
    && (s.worker == AtFree ==> s.core.slave == [])
    && (s.worker in {AtPath, AtHeader, AtData, AtClear} ==> s.core.slave != [])
  }

  /** A thread waits exactly while its own barrier is queued, and it has queued only one. */
  ghost predicate QueueInv(s: State) {
    && (forall t :: 0 <= t < |s.threads| && s.threads[t].Waiting? ==> BarrierTask(t) in s.queue)
    && (forall k :: 0 <= k < |s.queue| && s.queue[k].BarrierTask? ==>
          s.queue[k].t < |s.threads| && s.threads[s.queue[k].t].Waiting?)
    && (forall j, k :: 0 <= j < k < |s.queue| && s.queue[j].BarrierTask? ==> s.queue[j] != s.queue[k])
  }

  /** A taken slave is never stranded: a drain is queued, or running, or about to be queued. */
  ghost predicate NotStranded(s: State) {
    s.core.slaveFree || DrainTask in s.queue || s.worker != Idle
    || exists t :: 0 <= t < |s.threads| && WillQueueDrain(s.threads[t])
  }

  /** Outside the mutex the master holds complete items; inside, an item header behind them. */
  ghost predicate FramedInv(s: State) {
    && |s.threads| > 0
    && (MutexFree(s) && !IsBoot(s.threads[0]) ==> WellFramed(s.core.master))
    && (forall t :: 0 <= t < |s.threads| && HoldsMutex(s.threads[t]) ==>
          PendingHeader(s.core.master, s.threads[t].payload))
  }

  ghost predicate PendingHeader(master: seq<byte>, p: seq<byte>) {
    && |master| >= ITEM_HEADER_SIZE
    && WellFramed(master[..|master| - ITEM_HEADER_SIZE])
    && master[|master| - ITEM_HEADER_SIZE..] == ItemHeader(|p|)
    && 0 < |p| < U32 && |master| + |p| < U64
  }

  /** Complete chunks, all under the sink's own key. */
  ghost predicate GoodFile(f: seq<byte>, pubField: seq<byte>)
    requires |pubField| == PUB_FIELD_SIZE
  {
    && WellFormed(f)
    && forall i :: 0 <= i < |ParseFile(f, KEY_LEN).entries| ==>
         ParseFile(f, KEY_LEN).entries[i].key == pubField[..KEY_LEN]
  }

  ghost predicate HalfWritten(f: seq<byte>, pubField: seq<byte>, size: nat)
    requires |pubField| == PUB_FIELD_SIZE
  {
    && |f| >= CHUNK_HEADER_SIZE
    && GoodFile(f[..|f| - CHUNK_HEADER_SIZE], pubField)
    && f[|f| - CHUNK_HEADER_SIZE..] == ChunkHeader(pubField, size)
  }

  /** This sink's files are good, except for the last one while a chunk is being written to it. */
  ghost predicate FilesInv(s: State) {
    var c := s.core;
    && |c.pubField| == PUB_FIELD_SIZE
    && |c.slave| < U64 && |c.master| < U64
    && s.base <= |c.files|
    && (c.isOpen <==> |c.files| > s.base)
    && (forall i :: s.base <= i < |c.files| && !(s.worker == AtData && i == |c.files| - 1) ==>
          GoodFile(c.files[i], c.pubField))
    && (s.worker in {AtHeader, AtData, AtClear} ==> c.isOpen)
    && (s.worker == AtData ==> HalfWritten(c.files[|c.files| - 1], c.pubField, |c.slave|))
  }

  /** Everyone but t is outside. */
  ghost predicate OthersOut(s: State, t: nat) {
    t < |s.threads| && forall i :: 0 <= i < |s.threads| && i != t ==> s.threads[i] == Out
  }

  predicate AllDrains(queue: seq<Task>) {
    forall k :: 0 <= k < |queue| ==> queue[k].DrainTask?
  }

  /** How far the queue has got when thread t constructs or flushes with nobody else inside. */
  ghost predicate SoloShape(s: State, t: nat) {
    t < |s.threads| &&
    var pc := s.threads[t];
    && (pc.BootSlave? ==> s.queue == [] && s.worker == Idle && s.core.slaveFree)
    && (pc.FlushBegin? || pc.BootPost? || pc.NeedBarrier? ==> AllDrains(s.queue))
    && (pc.Waiting? ==>
          s.queue != [] && s.queue[|s.queue| - 1] == BarrierTask(t) && AllDrains(s.queue[..|s.queue| - 1]))
    && (pc.BootMaster? || ((pc.WillLoad? || InClaim(pc) || pc.WillPost?) && pc.mode != InLog) ==>
          s.queue == [] && s.worker == Idle)
    && ((pc.WillPost? && pc.mode != InLog) || (pc.NeedBarrier? && pc.stage == Second)
        || (pc.Waiting? && pc.stage == Second) ==>
          s.core.master == [])
  }

  ghost predicate Inv(s: State) {
    && ThreadsInv(s)
    && WorkerInv(s)
    && QueueInv(s)
    && NotStranded(s)
    && FramedInv(s)
    && FilesInv(s)
    && (IsBoot(s.threads[0]) ==> SoloShape(s, 0))
  }

  /** The payload whose append an event completes, if any. */
  function Completed(s: State, e: Event): seq<seq<byte>> {
    if e.Step? && e.t < |s.threads| && s.threads[e.t].HeaderPushed? then [s.threads[e.t].payload] else []
  }
}
