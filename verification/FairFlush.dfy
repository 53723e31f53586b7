/**
 A flush among other threads returns, if scheduling is fair: a thread, or the worker, that can step again and
 again does step. Executions are infinite and may stutter. That the flush returns needs no assumption on claims;
 with undisturbed claims, everything logged before it began is then on disk.
 */
module FairFlush {
  import opened Wrappers
  import opened Bytes
  import opened Framing
  import opened SinkCore
  import opened SinkProtocol
  import opened SinkInvariant
  import opened SinkRuns
  import opened AnyRuns
  import opened LoneFlush
  import opened ConcurrentFlush

  // ---- Executions ----

  /** The state at each moment, and the event there, if any. */
  datatype Execution = Execution(s: nat -> State, e: nat -> Option<Event>)

  ghost predicate StepsAt(x: Execution, i: nat, single: nat) {
    match x.e(i)
    case None => x.s(i + 1) == x.s(i)
    case Some(e) => Apply(x.s(i), e, single) == Some(x.s(i + 1))
  }

  ghost predicate IsExecution(x: Execution, single: nat) {
    forall i: nat :: StepsAt(x, i, single)
  }

  ghost predicate UndisturbedAt(x: Execution, i: nat) {
    x.e(i).Some? ==> ClaimUndisturbed(x.s(i), x.e(i).value)
  }

  ghost predicate UndisturbedFrom(x: Execution, i: nat) {
    forall j: nat :: j >= i ==> UndisturbedAt(x, j)
  }

  datatype Process = Thread(t: nat) | Worker

  /** The process can take its next step; starting a new log or flush is up to the program. */
  predicate CanStep(s: State, p: Process, single: nat) {
    match p
    case Thread(t) => Apply(s, Step(t, false), single).Some?
    case Worker => Apply(s, Work, single).Some?
  }

  predicate Moves(e: Option<Event>, p: Process) {
    e.Some? &&
    match p
    case Thread(t) => e.value.Step? && e.value.t == t
    case Worker => e.value.Work?
  }

  ghost predicate CanStepLater(x: Execution, p: Process, single: nat, i: nat) {
    exists k: nat :: k >= i && CanStep(x.s(k), p, single)
  }

  ghost predicate MovesLater(x: Execution, p: Process, i: nat) {
    exists k: nat :: k >= i && Moves(x.e(k), p)
  }

  /** Strong fairness: what can step infinitely often does so. */
  ghost predicate Fair(x: Execution, single: nat) {
    forall p: Process, i: nat :: (forall j: nat :: j >= i ==> CanStepLater(x, p, single, j)) ==> MovesLater(x, p, i)
  }

  lemma FairMoves(x: Execution, p: Process, single: nat, i: nat) returns (k: nat)
    requires Fair(x, single) && forall j: nat :: j >= i ==> CanStepLater(x, p, single, j)
    ensures k >= i && Moves(x.e(k), p)
  {
    hide CanStepLater;
    assert MovesLater(x, p, i);
    k :| k >= i && Moves(x.e(k), p);
  }

  /** The first of the moments from i to k at which p moves. */
  lemma FirstMove(x: Execution, p: Process, i: nat, k: nat) returns (m: nat)
    requires i <= k && Moves(x.e(k), p)
    ensures i <= m <= k && Moves(x.e(m), p) && forall j :: i <= j < m ==> !Moves(x.e(j), p)
    decreases k - i
  {
    if Moves(x.e(i), p) {
      m := i;
    } else {
      m := FirstMove(x, p, i + 1, k);
    }
  }

  // ---- Progress of a flush ----

  /** Work before thread t's barrier. */
  function Position(queue: seq<Task>, t: nat): nat {
    if queue == [] || queue[0] == BarrierTask(t) then 0 else 1 + Position(queue[1..], t)
  }

  lemma {:induction false} PositionAppend(queue: seq<Task>, more: seq<Task>, t: nat)
    requires BarrierTask(t) in queue
    ensures Position(queue + more, t) == Position(queue, t)
  {
    if queue[0] == BarrierTask(t) {
    } else {
      assert (queue + more)[1..] == queue[1..] + more;
      PositionAppend(queue[1..], more, t);
    }
  }

  function Left(pc: Pc): nat {
    match pc
    case FlushBegin => 9
    case NeedBarrier(stage) => if stage == Second then 2 else 8
    case Waiting(stage) => if stage == Second then 1 else 7
    case WillLoad(_) => 6
    case WillStore(_) => 5
    case WillSwap(_) => 4
    case WillPost(_) => 3
    case _ => 0
  }

  function StagesLeft(s: State, t: nat): nat {
    if t < |s.threads| then Left(s.threads[t]) else 0
  }

  function Ahead(s: State, t: nat): nat {
    if t < |s.threads| && s.threads[t].Waiting? then 10 * Position(s.queue, t) + WorkerRank(s.worker) else 0
  }

  /** A step of the flushing thread, or of the worker while that thread waits. */
  ghost predicate Helps(s: State, e: Option<Event>, t: nat) {
    Moves(e, Thread(t)) || (t < |s.threads| && s.threads[t].Waiting? && Moves(e, Worker))
  }

  ghost predicate Closer(s: State, s': State, t: nat) {
    StagesLeft(s', t) < StagesLeft(s, t) || (StagesLeft(s', t) == StagesLeft(s, t) && Ahead(s', t) < Ahead(s, t))
  }

  /** Inside a flush. */
  predicate InFlush(pc: Pc) {
    || pc.FlushBegin?
    || (pc.NeedBarrier? && pc.stage != Boot) || (pc.Waiting? && pc.stage != Boot)
    || ((pc.WillLoad? || pc.WillStore? || pc.WillSwap? || pc.WillPost?) && pc.mode == Mode.InFlush)
  }

  ghost predicate Ongoing(s: State, t: nat) {
    Working(s) && t < |s.threads| && InFlush(s.threads[t])
  }

  lemma SelfIsCloser(s: State, e: Event, single: nat, s': State, t: nat)
    requires QueueInv(s) && Apply(s, e, single) == Some(s')
    requires t < |s.threads| && InFlush(s.threads[t]) && e.Step? && e.t == t
    ensures t < |s'.threads| && Closer(s, s', t) && (InFlush(s'.threads[t]) || s'.threads[t] == Out)
  {
    SelfFrame(s, e, single, s', t);
    hide Apply, QueueInv, DrainBefore, Position;
  }

  lemma WaitedForIsQueued(s: State, t: nat)
    requires QueueInv(s) && t < |s.threads| && s.threads[t].Waiting?
    ensures BarrierTask(t) in s.queue
  {
  }

  lemma WorkIsCloser(s: State, e: Event, single: nat, s': State, t: nat)
    requires QueueInv(s) && Apply(s, e, single) == Some(s')
    requires t < |s.threads| && InFlush(s.threads[t]) && s.threads[t].Waiting? && e.Work?
    ensures t < |s'.threads| && Closer(s, s', t) && (InFlush(s'.threads[t]) || s'.threads[t] == Out)
  {
    if s.worker == Idle {
      TakeFrame(s, e, single, s', t);
    } else {
      DrainFrame(s, e, single, s');
      RankFalls(s, e, single, s');
    }
    hide Apply, QueueInv;
  }

  lemma RankFalls(s: State, e: Event, single: nat, s': State)
    requires Apply(s, e, single) == Some(s') && e.Work? && s.worker != Idle
    ensures WorkerRank(s'.worker) < WorkerRank(s.worker)
  {
    hide UpdateFilePath, WriteHeader, WriteData;
  }

  /** Nothing else changes where the flush is, and new tasks queue up behind its barrier. */
  lemma OthersKeepRank(s: State, e: Event, single: nat, s': State, t: nat)
    requires QueueInv(s) && Apply(s, e, single) == Some(s')
    requires t < |s.threads| && InFlush(s.threads[t]) && !Helps(s, Some(e), t)
    ensures t < |s'.threads| && s'.threads[t] == s.threads[t] && Ahead(s', t) == Ahead(s, t)
  {
    hide Apply, QueueInv, Position;
    if e.Work? {
      WorkKeepsThread(s, e, single, s', t);
    } else {
      if e.StartLog? || e.StartFlush? {
        OnlyOutStarts(s, e, single, s');
      }
      ThreadFrame(s, e, single, s');
      ThreadsOnlyPost(s, e, single, s');
      if s.threads[t].Waiting? {
        WaitedForIsQueued(s, t);
        assert s'.queue == s.queue + s'.queue[|s.queue|..];
        PositionAppend(s.queue, s'.queue[|s.queue|..], t);
      }
    }
  }

  lemma WorkKeepsThread(s: State, e: Event, single: nat, s': State, t: nat)
    requires Apply(s, e, single) == Some(s') && e.Work? && t < |s.threads| && !s.threads[t].Waiting?
    ensures t < |s'.threads| && s'.threads[t] == s.threads[t]
  {
    hide UpdateFilePath, WriteHeader, WriteData;
  }

  lemma OnlyOutStarts(s: State, e: Event, single: nat, s': State)
    requires Apply(s, e, single) == Some(s') && (e.StartLog? || e.StartFlush?)
    ensures e.t < |s.threads| && s.threads[e.t] == Out
  {
    hide MutexFree, Constructed, ItemHeader;
  }

  // ---- While nothing helps ----

  function PcOf(s: State, t: nat): Pc {
    if t < |s.threads| then s.threads[t] else Out
  }

  /** One moment of an execution, while the flush is on. */
  lemma MomentKeeps(x: Execution, single: nat, t: nat, i: nat)
    requires IsExecution(x, single) && Ongoing(x.s(i), t)
    ensures Ongoing(x.s(i + 1), t) || (Working(x.s(i + 1)) && t < |x.s(i + 1).threads| && x.s(i + 1).threads[t] == Out)
    ensures Helps(x.s(i), x.e(i), t) ==> Closer(x.s(i), x.s(i + 1), t)
    ensures !Helps(x.s(i), x.e(i), t) ==>
      Ongoing(x.s(i + 1), t) && PcOf(x.s(i + 1), t) == PcOf(x.s(i), t) && Ahead(x.s(i + 1), t) == Ahead(x.s(i), t)
  {
    assert StepsAt(x, i, single);
    hide Apply, Closer, Ahead, IsExecution, InFlush;
    if x.e(i).Some? {
      var s, e, s' := x.s(i), x.e(i).value, x.s(i + 1);
      WorkingKept(s, e, single, s');
      WorkingQueue(s);
      hide Working;
      if !Helps(s, Some(e), t) {
        OthersKeepRank(s, e, single, s', t);
      } else if e.Work? {
        WorkIsCloser(s, e, single, s', t);
      } else {
        SelfIsCloser(s, e, single, s', t);
      }
    }
  }

  lemma WorkingQueue(s: State)
    requires Working(s)
    ensures QueueInv(s) && OneHolder(s)
  {
    hide QueueInv;
  }

  lemma {:induction false} Frozen(x: Execution, single: nat, t: nat, i: nat, k: nat)
    requires IsExecution(x, single) && Ongoing(x.s(i), t) && i <= k
    requires forall j: nat :: i <= j < k ==> !Helps(x.s(j), x.e(j), t)
    ensures Ongoing(x.s(k), t) && PcOf(x.s(k), t) == PcOf(x.s(i), t) && Ahead(x.s(k), t) == Ahead(x.s(i), t)
    decreases k - i
  {
    hide IsExecution, Ongoing, Ahead, Helps;
    if k == i {
    } else {
      Frozen(x, single, t, i, k - 1);
      MomentKeeps(x, single, t, k - 1);
    }
  }

  // ---- Help comes ----

  /** While a barrier is queued the worker can step. */
  lemma WorkerCanStep(s: State, single: nat)
    requires Working(s) && s.queue != []
    ensures CanStep(s, Worker, single)
  {
    hide QueueInv, OneHolder, ChunkHeader;
  }

  /** Outside the waits the flushing thread can step, but for a mutex that is held. */
  lemma ThreadCanStep(s: State, single: nat, t: nat)
    requires Ongoing(s, t) && !s.threads[t].Waiting? && (s.threads[t].WillSwap? ==> MutexFree(s))
    ensures CanStep(s, Thread(t), single)
  {
    hide Working, MutexFree;
  }

  /** A mutex that is held can be freed by its holder's step, and only so. */
  lemma HolderSteps(s: State, e: Event, single: nat, s': State, u: nat)
    requires OneHolder(s) && Apply(s, e, single) == Some(s') && u < |s.threads| && HoldsMutex(s.threads[u])
    ensures u < |s'.threads|
    ensures if Moves(Some(e), Thread(u)) then MutexFree(s') else s'.threads[u] == s.threads[u]
  {
    assert forall i :: 0 <= i < |s.threads| && i != u ==> !HoldsMutex(s.threads[i]);
    hide OneHolder, Constructed, UpdateFilePath, WriteHeader, WriteData, ItemHeader;
    if e.Step? && e.t == u {
      assert s'.threads == s.threads[u := Appended];
    }
  }

  lemma HolderMoment(x: Execution, single: nat, u: nat, i: nat)
    requires IsExecution(x, single) && Working(x.s(i))
    requires u < |x.s(i).threads| && HoldsMutex(x.s(i).threads[u]) && !Moves(x.e(i), Thread(u))
    ensures Working(x.s(i + 1)) && u < |x.s(i + 1).threads| && HoldsMutex(x.s(i + 1).threads[u])
  {
    WorkingQueue(x.s(i));
    hide Working, Apply;
    assert StepsAt(x, i, single);
    hide IsExecution;
    if x.e(i).Some? {
      WorkingKept(x.s(i), x.e(i).value, single, x.s(i + 1));
      HolderSteps(x.s(i), x.e(i).value, single, x.s(i + 1), u);
    }
  }

  lemma {:induction false} HolderStays(x: Execution, single: nat, u: nat, j: nat, k: nat)
    requires IsExecution(x, single) && j <= k && Working(x.s(j))
    requires u < |x.s(j).threads| && HoldsMutex(x.s(j).threads[u])
    requires forall i: nat :: j <= i < k ==> !Moves(x.e(i), Thread(u))
    ensures Working(x.s(k)) && u < |x.s(k).threads| && HoldsMutex(x.s(k).threads[u])
    decreases k - j
  {
    hide Working, IsExecution;
    if k == j {
    } else {
      HolderStays(x, single, u, j, k - 1);
      HolderMoment(x, single, u, k - 1);
    }
  }

  /** In a fair execution the mutex comes free again and again. */
  lemma MutexComesFree(x: Execution, single: nat, j: nat) returns (k: nat)
    requires IsExecution(x, single) && Fair(x, single) && Working(x.s(j))
    ensures k >= j && MutexFree(x.s(k))
  {
    hide Working, Fair, IsExecution;
    if MutexFree(x.s(j)) {
      k := j;
    } else {
      var u :| 0 <= u < |x.s(j).threads| && HoldsMutex(x.s(j).threads[u]);
      var m := HolderMoves(x, single, u, j);
      m := FirstMove(x, Thread(u), j, m);
      HolderStays(x, single, u, j, m);
      WorkingQueue(x.s(m));
      MomentIsStep(x, single, m);
      HolderSteps(x.s(m), x.e(m).value, single, x.s(m + 1), u);
      k := m + 1;
    }
  }

  lemma MomentIsStep(x: Execution, single: nat, i: nat)
    requires IsExecution(x, single) && x.e(i).Some?
    ensures Apply(x.s(i), x.e(i).value, single) == Some(x.s(i + 1))
  {
    hide Apply;
    assert StepsAt(x, i, single);
  }

  /** A holder of the mutex can always step, so it does. */
  lemma HolderMoves(x: Execution, single: nat, u: nat, j: nat) returns (k: nat)
    requires IsExecution(x, single) && Fair(x, single) && Working(x.s(j))
    requires u < |x.s(j).threads| && HoldsMutex(x.s(j).threads[u])
    ensures k >= j && Moves(x.e(k), Thread(u))
  {
    hide Working, Fair, IsExecution, CanStep;
    if m: nat :| m >= j && Moves(x.e(m), Thread(u)) {
      k := m;
    } else {
      forall i: nat | i >= j
        ensures CanStepLater(x, Thread(u), single, i)
      {
        HolderStays(x, single, u, j, i);
        HolderCanStep(x.s(i), single, u);
        assert CanStep(x.s(i), Thread(u), single);
      }
      k := FairMoves(x, Thread(u), single, j);
    }
  }

  lemma HolderCanStep(s: State, single: nat, u: nat)
    requires u < |s.threads| && HoldsMutex(s.threads[u])
    ensures CanStep(s, Thread(u), single)
  {
  }

  /** Some time the flushing thread steps, or the worker steps while it waits. */
  lemma HelpComes(x: Execution, single: nat, t: nat, i: nat) returns (k: nat)
    requires IsExecution(x, single) && Fair(x, single) && Ongoing(x.s(i), t)
    ensures k >= i && Helps(x.s(k), x.e(k), t)
  {
    hide IsExecution, Fair, Ongoing, Helps;
    if m: nat :| m >= i && Helps(x.s(m), x.e(m), t) {
      k := m;
    } else {
      assert forall j: nat :: j >= i ==> !Helps(x.s(j), x.e(j), t);
      forall j: nat | j >= i
        ensures Ongoing(x.s(j), t) && PcOf(x.s(j), t) == PcOf(x.s(i), t)
      {
        Frozen(x, single, t, i, j);
      }
      var p := NextMover(x, single, t, i);
      k := FairMoves(x, p, single, i);
      OngoingParts(x.s(k), t);
      HelperHelps(x.s(k), x.e(k), t, p);
    }
  }

  lemma OngoingParts(s: State, t: nat)
    requires Ongoing(s, t)
    ensures Working(s) && t < |s.threads| && InFlush(s.threads[t])
  {
    hide Working, InFlush;
  }

  lemma HelperHelps(s: State, e: Option<Event>, t: nat, p: Process)
    requires t < |s.threads| && p == (if PcOf(s, t).Waiting? then Worker else Thread(t)) && Moves(e, p)
    ensures Helps(s, e, t)
  {
  }

  /** If the flush stays where it is, the process it depends on can step again and again. */
  lemma NextMover(x: Execution, single: nat, t: nat, i: nat) returns (p: Process)
    requires IsExecution(x, single) && Fair(x, single)
    requires forall j: nat :: j >= i ==> Ongoing(x.s(j), t) && PcOf(x.s(j), t) == PcOf(x.s(i), t)
    ensures p == if PcOf(x.s(i), t).Waiting? then Worker else Thread(t)
    ensures forall j: nat :: j >= i ==> CanStepLater(x, p, single, j)
  {
    hide IsExecution, Fair, Ongoing, Working, CanStep, MutexFree;
    var pc := PcOf(x.s(i), t);
    p := if pc.Waiting? then Worker else Thread(t);
    forall j: nat | j >= i
      ensures CanStepLater(x, p, single, j)
    {
      OngoingParts(x.s(j), t);
      if pc.Waiting? {
        WorkingQueue(x.s(j));
        WaitedForIsQueued(x.s(j), t);
        WorkerCanStep(x.s(j), single);
        assert CanStep(x.s(j), Worker, single);
      } else {
        var k := j;
        if pc.WillSwap? {
          k := MutexComesFree(x, single, j);
        }
        OngoingParts(x.s(k), t);
        ThreadCanStep(x.s(k), single, t);
        assert CanStep(x.s(k), Thread(t), single);
      }
    }
  }

  // ---- The flush returns ----

  /** A flush that is on returns, and is on until then. */
  lemma {:induction false} Returns(x: Execution, single: nat, t: nat, i: nat) returns (k: nat)
    requires IsExecution(x, single) && Fair(x, single) && Ongoing(x.s(i), t)
    ensures k > i && t < |x.s(k).threads| && x.s(k).threads[t] == Out
    ensures forall j: nat :: i <= j < k ==> Ongoing(x.s(j), t)
    decreases StagesLeft(x.s(i), t), Ahead(x.s(i), t)
  {
    hide IsExecution, Fair, Ongoing, Helps, Ahead, StagesLeft, Working;
    var m := FirstHelp(x, single, t, i);
    forall j: nat | i <= j <= m
      ensures Ongoing(x.s(j), t)
    {
      Frozen(x, single, t, i, j);
    }
    Frozen(x, single, t, i, m);
    MomentKeeps(x, single, t, m);
    SamePcSameStages(x.s(i), x.s(m), t);
    if Ongoing(x.s(m + 1), t) {
      k := Returns(x, single, t, m + 1);
    } else {
      k := m + 1;
    }
  }

  lemma SamePcSameStages(s: State, s': State, t: nat)
    requires Ongoing(s, t) && Ongoing(s', t) && PcOf(s, t) == PcOf(s', t)
    ensures StagesLeft(s, t) == StagesLeft(s', t)
  {
    hide Working;
  }

  /** The first helpful moment. */
  lemma FirstHelp(x: Execution, single: nat, t: nat, i: nat) returns (m: nat)
    requires IsExecution(x, single) && Fair(x, single) && Ongoing(x.s(i), t)
    ensures m >= i && Helps(x.s(m), x.e(m), t) && forall j: nat :: i <= j < m ==> !Helps(x.s(j), x.e(j), t)
  {
    hide IsExecution, Fair, Ongoing, Helps;
    var k := HelpComes(x, single, t, i);
    m := FirstOf(x, t, i, k);
  }

  lemma FirstOf(x: Execution, t: nat, i: nat, k: nat) returns (m: nat)
    requires i <= k && Helps(x.s(k), x.e(k), t)
    ensures i <= m <= k && Helps(x.s(m), x.e(m), t) && forall j: nat :: i <= j < m ==> !Helps(x.s(j), x.e(j), t)
    decreases k - i
  {
    hide Helps;
    if Helps(x.s(i), x.e(i), t) {
      m := i;
    } else {
      m := FirstOf(x, t, i + 1, k);
    }
  }

  // ---- And everything logged before is on disk ----

  lemma {:induction false} CoversUntil(x: Execution, single: nat, t: nat, n: nat, i: nat, k: nat)
    requires IsExecution(x, single) && UndisturbedFrom(x, i) && Sound(x.s(i), t, n) && Stages(x.s(i), t, n) && i <= k
    requires forall j: nat :: i <= j < k ==> Ongoing(x.s(j), t)
    ensures Sound(x.s(k), t, n) && Stages(x.s(k), t, n) && x.s(i).logged <= x.s(k).logged
    decreases k - i
  {
    hide IsExecution, UndisturbedFrom, Sound, Stages, Ongoing;
    if k == i {
    } else {
      CoversUntil(x, single, t, n, i, k - 1);
      MomentCovers(x, single, t, n, i, k - 1);
    }
  }

  lemma MomentCovers(x: Execution, single: nat, t: nat, n: nat, i: nat, k: nat)
    requires IsExecution(x, single) && UndisturbedFrom(x, i) && i <= k
    requires Sound(x.s(k), t, n) && Stages(x.s(k), t, n) && Ongoing(x.s(k), t)
    ensures Sound(x.s(k + 1), t, n) && Stages(x.s(k + 1), t, n) && x.s(k).logged <= x.s(k + 1).logged
  {
    assert StepsAt(x, k, single) && UndisturbedAt(x, k) && Inv(x.s(k));
    hide IsExecution, UndisturbedFrom, Stages, Inv, Apply, ClaimUndisturbed, Working;
    if x.e(k).Some? {
      var s, e, s' := x.s(k), x.e(k).value, x.s(k + 1);
      assert Steps(s, e, single, s');
      if e.StartLog? || e.StartFlush? {
        OnlyOutStarts(s, e, single, s');
      }
      assert NoStart(e, t);
      hide Sound, Steps;
      SoundKept(s, e, single, s', t, n);
      StagesKept(s, e, single, s', t, n);
    }
  }

  /**
   In a fair execution a flush returns, whatever the other threads log and flush and however claims are disturbed.
   If they are not, from the beginning of the flush on, everything logged before is then what the parser reads
   first from the disk.
   */
  lemma FairFlushReturns(x: Execution, single: nat, t: nat, i: nat) returns (k: nat)
    requires IsExecution(x, single) && Fair(x, single) && Working(x.s(i)) && x.e(i) == Some(StartFlush(t))
    ensures k > i && t < |x.s(k).threads| && x.s(k).threads[t] == Out
    ensures Inv(x.s(i)) && Total(x.s(i)) == x.s(i).logged && UndisturbedFrom(x, i) ==>
      x.s(i).logged <= Disk(x.s(k).core.files)
  {
    FlushIsOn(x, single, t, i);
    hide Working, IsExecution, Fair, Ongoing, Apply, Inv, Total, UndisturbedFrom;
    k := Returns(x, single, t, i + 1);
    if Inv(x.s(i)) && Total(x.s(i)) == x.s(i).logged && UndisturbedFrom(x, i) {
      FlushCovers(x, single, t, i, k);
    }
  }

  lemma FlushIsOn(x: Execution, single: nat, t: nat, i: nat)
    requires IsExecution(x, single) && Working(x.s(i)) && x.e(i) == Some(StartFlush(t))
    ensures Ongoing(x.s(i + 1), t) && Apply(x.s(i), StartFlush(t), single) == Some(x.s(i + 1))
  {
    MomentIsStep(x, single, i);
    WorkingKept(x.s(i), StartFlush(t), single, x.s(i + 1));
    hide Working, IsExecution, Constructed;
  }

  lemma FlushCovers(x: Execution, single: nat, t: nat, i: nat, k: nat)
    requires IsExecution(x, single) && UndisturbedFrom(x, i)
    requires Inv(x.s(i)) && Total(x.s(i)) == x.s(i).logged
    requires Apply(x.s(i), StartFlush(t), single) == Some(x.s(i + 1))
    requires k > i && (forall j: nat :: i + 1 <= j < k ==> Ongoing(x.s(j), t))
    requires t < |x.s(k).threads| && x.s(k).threads[t] == Out
    ensures x.s(i).logged <= Disk(x.s(k).core.files)
  {
    hide *;
    var n := |x.s(i).logged|;
    UndisturbedLater(x, i);
    FlushBegins(x.s(i), t, single, x.s(i + 1));
    CoversUntil(x, single, t, n, i + 1, k);
    CoveredAtEnd(x.s(k), t, x.s(i).logged);
  }

  lemma UndisturbedLater(x: Execution, i: nat)
    requires UndisturbedFrom(x, i)
    ensures UndisturbedFrom(x, i + 1)
  {
    hide UndisturbedAt;
  }

  lemma CoveredAtEnd(s: State, t: nat, earlier: seq<seq<byte>>)
    requires Sound(s, t, |earlier|) && Stages(s, t, |earlier|) && s.threads[t] == Out && earlier <= s.logged
    ensures earlier <= Disk(s.core.files)
  {
    hide Inv, Total, Disk;
    DiskComesFirst(s);
    assert OnDisk(s, |earlier|);
  }

  lemma FlushBegins(s: State, t: nat, single: nat, s1: State)
    requires Inv(s) && Total(s) == s.logged && Apply(s, StartFlush(t), single) == Some(s1)
    ensures Sound(s1, t, |s.logged|) && Stages(s1, t, |s.logged|) && s.logged <= s1.logged
  {
    assert t < |s.threads| && Constructed(s);
    FlushStarts(s, t, single);
    assert Sound(s, t, |s.logged|);
    SoundKept(s, StartFlush(t), single, s1, t, |s.logged|);
    hide Inv, Apply, Steps, Total;
  }

  // ---- A flush alone is a fair execution ----

  lemma {:induction false} SoloRunIsUndisturbed(s: State, events: seq<Event>, single: nat, t: nat)
    requires SoloState(s, t) && !IsBoot(s.threads[t]) && AllSolo(events, t) && Run(s, events, single).Some?
    ensures Undisturbed(s, events, single)
    decreases |events|
  {
    if events == [] {
    } else {
      var e := events[0];
      assert IsSolo(e, t);
      var s1 := Apply(s, e, single).value;
      SoloIsUndisturbed(s, e, t);
      SoloKeeps(s, e, single, s1, t);
      StaysOutOfBoot(s, e, single, s1, t);
      if e.Work? {
        SoloWorkDecreases(s, e, single, s1, t);
      } else {
        SoloStepDecreases(s, e, single, s1, t);
      }
      if InSolo(s1.threads[t]) {
        hide Inv, SoloShape, Apply, IsSolo, ClaimUndisturbed, Work2Do;
        SoloRunIsUndisturbed(s1, events[1..], single, t);
      } else {
        FlushEnds(s, e, single, s1, t);
        hide Inv, SoloShape, Apply, IsSolo, ClaimUndisturbed, Work2Do;
        NothingLeftToDo(s1, events[1..], single, t);
      }
    }
  }

  /** The state after the first i events of a run, and the last state for ever after. */
  function StateAt(s: State, events: seq<Event>, single: nat, i: nat): State
    requires Run(s, events, single).Some?
    decreases i
  {
    if i == 0 || events == [] then s else StateAt(Apply(s, events[0], single).value, events[1..], single, i - 1)
  }

  function EventAt(events: seq<Event>, i: nat): Option<Event> {
    if i < |events| then Some(events[i]) else None
  }

  /** A run that then stutters for ever. */
  function Stuttering(s: State, events: seq<Event>, single: nat): Execution
    requires Run(s, events, single).Some?
  {
    Execution((i: nat) => StateAt(s, events, single, i), (i: nat) => EventAt(events, i))
  }

  lemma {:induction false} StateAtSteps(s: State, events: seq<Event>, single: nat, i: nat)
    requires Run(s, events, single).Some?
    ensures var s1, s2 := StateAt(s, events, single, i), StateAt(s, events, single, i + 1);
      match EventAt(events, i)
      case None => s2 == s1 && s1 == Run(s, events, single).value
      case Some(e) => Apply(s1, e, single) == Some(s2) && (Undisturbed(s, events, single) ==> ClaimUndisturbed(s1, e))
    decreases i
  {
    hide Apply, ClaimUndisturbed;
    if i == 0 || events == [] {
    } else {
      StateAtSteps(Apply(s, events[0], single).value, events[1..], single, i - 1);
    }
  }

  predicate Quiet(s: State) {
    s.queue == [] && s.worker == Idle && forall i :: 0 <= i < |s.threads| ==> s.threads[i] == Out
  }

  lemma StutteringIsFair(s: State, events: seq<Event>, single: nat)
    requires Run(s, events, single).Some? && Quiet(Run(s, events, single).value)
    ensures IsExecution(Stuttering(s, events, single), single) && Fair(Stuttering(s, events, single), single)
    ensures Undisturbed(s, events, single) ==> UndisturbedFrom(Stuttering(s, events, single), 0)
  {
    hide Apply, ClaimUndisturbed, Undisturbed, StateAt, CanStep;
    var x := Stuttering(s, events, single);
    forall i: nat
      ensures StepsAt(x, i, single)
    {
      StateAtSteps(s, events, single, i);
    }
    if Undisturbed(s, events, single) {
      forall i: nat
        ensures UndisturbedAt(x, i)
      {
        StateAtSteps(s, events, single, i);
      }
    }
    forall p: Process, i: nat
      ensures (forall j: nat :: j >= i ==> CanStepLater(x, p, single, j)) ==> MovesLater(x, p, i)
    {
      NobodyStepsLater(s, events, single, p, i);
    }
  }

  lemma NobodyStepsLater(s: State, events: seq<Event>, single: nat, p: Process, i: nat)
    requires Run(s, events, single).Some? && Quiet(Run(s, events, single).value)
    ensures !CanStepLater(Stuttering(s, events, single), p, single, i + |events|)
  {
    hide Apply, ClaimUndisturbed, Undisturbed, StateAt, CanStep;
    forall k: nat | k >= i + |events|
      ensures !CanStep(Stuttering(s, events, single).s(k), p, single)
    {
      StateAtSteps(s, events, single, k);
      QuietCannotStep(StateAt(s, events, single, k), p, single);
    }
  }

  lemma QuietCannotStep(s: State, p: Process, single: nat)
    requires Quiet(s)
    ensures !CanStep(s, p, single)
  {
  }

  /** So fair executions exist: a flush with nobody else inside, from any state that any run reaches, is one. */
  lemma LoneFlushIsFair(s: State, t: nat, single: nat) returns (x: Execution)
    requires Working(s) && OthersOut(s, t) && s.threads[t] == Out
    ensures IsExecution(x, single) && Fair(x, single) && x.s(0) == s && x.e(0) == Some(StartFlush(t))
  {
    var flush := FlushHasEnd(s, t, single);
    hide Working, Apply, Flushed, Inv, Finish, FlushedCore, Overlooked;
    FlushCompletes(s, t, flush, single);
    StutteringIsFair(s, [StartFlush(t)] + flush, single);
    x := Stuttering(s, [StartFlush(t)] + flush, single);
  }

  // ---- A flush and a log that overlap ----

  lemma FrontStep(s: State, e: Event, rest: seq<Event>, single: nat)
    requires Inv(s) && Apply(s, e, single).Some? && ClaimUndisturbed(s, e)
    ensures Run(s, [e] + rest, single) == Run(Apply(s, e, single).value, rest, single)
    ensures Undisturbed(Apply(s, e, single).value, rest, single) ==> Undisturbed(s, [e] + rest, single)
    ensures Inv(Apply(s, e, single).value)
  {
    assert ([e] + rest)[1..] == rest;
    assert Steps(s, e, single, Apply(s, e, single).value);
    hide Inv, Apply, ClaimUndisturbed;
    InvKept(s, e, single, Apply(s, e, single).value);
  }

  /** Thread u logs p while thread t is inside its flush. */
  lemma OverlapSteps(s: State, t: nat, u: nat, p: seq<byte>, single: nat)
    requires Inv(s) && OthersOut(s, t) && s.threads[t] == Out && u < |s.threads| && u != t
    requires 0 < |p| < U32 && |s.core.master| + ITEM_HEADER_SIZE + |p| < U64
    ensures var s1 := s.(threads := s.threads[t := FlushBegin]);
      var m1 := s.core.master + ItemHeader(|p|);
      var s2 := s1.(threads := s1.threads[u := HeaderPushed(p)], core := s.core.(master := m1));
      var s3 := s1.(threads := s1.threads[u := Appended], core := s.core.(master := m1 + p), logged := s.logged + [p]);
      var s4 := s3.(threads := s1.threads);
      && Apply(s, StartFlush(t), single) == Some(s1) && Apply(s1, StartLog(u, p), single) == Some(s2)
      && Apply(s2, Step(u, false), single) == Some(s3) && Apply(s3, Step(u, false), single) == Some(s4)
      && ClaimUndisturbed(s, StartFlush(t)) && ClaimUndisturbed(s1, StartLog(u, p))
      && ClaimUndisturbed(s2, Step(u, false)) && ClaimUndisturbed(s3, Step(u, false))
      && OthersOut(s4, t) && s4.threads[t] == FlushBegin && s4.queue == s.queue
  {
    hide Inv, ItemHeader;
    var s1 := s.(threads := s.threads[t := FlushBegin]);
    assert s1.threads[u := HeaderPushed(p)][u := Appended] == s1.threads[u := Appended];
    assert s1.threads[u := Appended][u := Out] == s1.threads;
  }

  /** The overlapping beginning, finished by a flush that runs alone. */
  lemma OverlapRun(s: State, t: nat, u: nat, p: seq<byte>, single: nat) returns (events: seq<Event>)
    requires Inv(s) && OthersOut(s, t) && s.threads[t] == Out && u < |s.threads| && u != t
    requires 0 < |p| < U32 && |s.core.master| + ITEM_HEADER_SIZE + |p| < U64
    ensures |events| >= 2 && events[0] == StartFlush(t) && events[1] == StartLog(u, p)
    ensures Run(s, events, single).Some? && Undisturbed(s, events, single) && Quiet(Run(s, events, single).value)
  {
    hide *;
    OverlapSteps(s, t, u, p, single);
    var s1 := Apply(s, StartFlush(t), single).value;
    var s2 := Apply(s1, StartLog(u, p), single).value;
    var s3 := Apply(s2, Step(u, false), single).value;
    var s4 := Apply(s3, Step(u, false), single).value;
    FrontStep(s, StartFlush(t), [], single);
    FrontStep(s1, StartLog(u, p), [], single);
    FrontStep(s2, Step(u, false), [], single);
    FrontStep(s3, Step(u, false), [], single);
    QueueStays(s, s4, t);
    var flush := FlushRunsOn(s4, t, single);
    var unlock := [Step(u, false)] + flush;
    var append := [Step(u, false)] + unlock;
    var log := [StartLog(u, p)] + append;
    FrontStep(s3, Step(u, false), flush, single);
    FrontStep(s2, Step(u, false), unlock, single);
    FrontStep(s1, StartLog(u, p), append, single);
    FrontStep(s, StartFlush(t), log, single);
    events := [StartFlush(t)] + log;
  }

  lemma QueueStays(s: State, s': State, t: nat)
    requires Inv(s) && Inv(s') && OthersOut(s, t) && s.threads[t] == Out
    requires OthersOut(s', t) && s'.threads[t] == FlushBegin && s'.queue == s.queue
    ensures SoloState(s', t)
  {
    InvWorks(s);
    WorkingQueue(s);
    hide Inv, QueueInv, OneHolder, Working;
    NobodyWaits(s, t);
    SoloShapeAtFlushBegin(s', t);
  }

  lemma FlushRunsOn(s: State, t: nat, single: nat) returns (flush: seq<Event>)
    requires SoloState(s, t) && s.threads[t] == FlushBegin
    ensures Run(s, flush, single).Some? && Undisturbed(s, flush, single) && Quiet(Run(s, flush, single).value)
  {
    hide Inv, SoloShape, Run, Undisturbed, AllSolo;
    flush := SoloEnds(s, single, t);
    SoloRunIsUndisturbed(s, flush, single, t);
    SoloRun(s, flush, single, t);
  }

  /** And so is one during which another thread logs; claims are undisturbed in it. */
  lemma OverlapIsFair(s: State, t: nat, u: nat, p: seq<byte>, single: nat) returns (x: Execution)
    requires Inv(s) && OthersOut(s, t) && s.threads[t] == Out && u < |s.threads| && u != t
    requires 0 < |p| < U32 && |s.core.master| + ITEM_HEADER_SIZE + |p| < U64
    ensures IsExecution(x, single) && Fair(x, single) && UndisturbedFrom(x, 0)
    ensures x.s(0) == s && x.e(0) == Some(StartFlush(t)) && x.e(1) == Some(StartLog(u, p))
  {
    hide Inv, Apply, Run, Undisturbed, Quiet, IsExecution, Fair, UndisturbedFrom;
    var events := OverlapRun(s, t, u, p, single);
    StutteringIsFair(s, events, single);
    x := Stuttering(s, events, single);
  }
}
