/** Whole runs of the sink without a crash: order, the taken slave, and a thread that constructs or flushes alone. */
module SinkRuns {
  import opened Wrappers
  import opened Bytes
  import opened Framing
  import opened SinkCore
  import opened SinkProtocol
  import opened SinkInvariant

  // ---- Runs without a crash ----

  /** The state after a list of events, if each of them was possible. */
  function Run(s: State, events: seq<Event>, single: nat): Option<State>
    decreases |events|
  {
    if events == [] then Some(s)
    else
      match Apply(s, events[0], single)
      case None => None
      case Some(s') => Run(s', events[1..], single)
  }

  /** No event of the run falls into a gap of another thread's claim. */
  ghost predicate Undisturbed(s: State, events: seq<Event>, single: nat)
    decreases |events|
  {
    events == [] ||
    (&& ClaimUndisturbed(s, events[0])
     && (Apply(s, events[0], single).Some? ==> Undisturbed(Apply(s, events[0], single).value, events[1..], single)))
  }

  /** The first step of an undisturbed run, and the rest of it. */
  lemma RunHead(s: State, events: seq<Event>, single: nat)
    requires Inv(s) && events != [] && Undisturbed(s, events, single) && Run(s, events, single).Some?
    ensures Apply(s, events[0], single).Some?
    ensures var s1 := Apply(s, events[0], single).value;
      && Steps(s, events[0], single, s1)
      && Undisturbed(s1, events[1..], single) && Run(s1, events[1..], single) == Run(s, events, single)
  {
    hide Apply, Inv, ClaimUndisturbed;
  }

  /** A sink about to be constructed over caches and files left by an earlier process, or none. */
  function Booting(n: nat, masterCache: seq<byte>, slaveCache: seq<byte>, files: seq<seq<byte>>,
                   pubField: seq<byte>, logged: seq<seq<byte>>): State
    requires n >= 1
  {
    State(Core(masterCache, slaveCache, true, false, files, false, pubField),
          [BootSlave] + seq(n - 1, i => Out), [], Idle, |files|, logged)
  }

  lemma BootingInv(n: nat, masterCache: seq<byte>, slaveCache: seq<byte>, files: seq<seq<byte>>,
                   pubField: seq<byte>, logged: seq<seq<byte>>)
    requires n >= 1 && |pubField| == PUB_FIELD_SIZE && |masterCache| < U64 && |slaveCache| < U64
    ensures Inv(Booting(n, masterCache, slaveCache, files, pubField, logged))
    ensures OthersOut(Booting(n, masterCache, slaveCache, files, pubField, logged), 0)
  {
    var s := Booting(n, masterCache, slaveCache, files, pubField, logged);
    hide WellFramed, GoodFile, HalfWritten;
    assert s.threads[0] == BootSlave;
    assert forall i :: 0 < i < |s.threads| ==> s.threads[i] == Out;
  }

  lemma {:induction false} RunKeeps(s: State, events: seq<Event>, single: nat)
    requires Inv(s) && Undisturbed(s, events, single) && Run(s, events, single).Some?
    requires Total(s) == s.logged
    ensures Inv(Run(s, events, single).value)
    ensures Total(Run(s, events, single).value) == Run(s, events, single).value.logged
    decreases |events|
  {
    if events == [] {
    } else {
      var s' := Apply(s, events[0], single).value;
      assert Steps(s, events[0], single, s');
      InvKept(s, events[0], single, s');
      TotalKept(s, events[0], single, s');
      hide Inv, Apply, Total, ClaimUndisturbed;
      RunKeeps(s', events[1..], single);
    }
  }

  /**
   In every state that any number of threads and the worker reach in a new directory, in any
   interleaving that leaves claims undisturbed, what the parser reads from the files, then the slave
   (unless it is written but not yet cleared), then the master, are exactly the payloads logged, in order.
   */
  lemma OrderIsKept(n: nat, pubField: seq<byte>, events: seq<Event>, single: nat)
    requires n >= 1 && |pubField| == PUB_FIELD_SIZE
    requires var s0 := Booting(n, [], [], [], pubField, []);
      Undisturbed(s0, events, single) && Run(s0, events, single).Some?
    ensures var s := Run(Booting(n, [], [], [], pubField, []), events, single).value;
      Inv(s) && Total(s) == s.logged
  {
    var s0 := Booting(n, [], [], [], pubField, []);
    BootingInv(n, [], [], [], pubField, []);
    assert Total(s0) == [] by {
      assert ParseItems([]) == [] && Disk([]) == [];
    }
    RunKeeps(s0, events, single);
  }

  // ---- What never changes ----

  lemma {:induction false} PubFieldStays(s: State, events: seq<Event>, single: nat)
    requires Run(s, events, single).Some?
    ensures Run(s, events, single).value.core.pubField == s.core.pubField
    ensures Run(s, events, single).value.base == s.base
    decreases |events|
  {
    if events == [] {
    } else {
      StepKeepsPubField(s, events[0], single);
      hide Apply;
      PubFieldStays(Apply(s, events[0], single).value, events[1..], single);
    }
  }

  lemma StepKeepsPubField(s: State, e: Event, single: nat)
    requires Apply(s, e, single).Some?
    ensures Apply(s, e, single).value.core.pubField == s.core.pubField
    ensures Apply(s, e, single).value.base == s.base
  {
    hide MutexFree, Constructed, ChunkHeader, ItemHeader;
  }

  // ---- Never stranded ----

  lemma {:induction false} RunKeepsNotStranded(s: State, events: seq<Event>, single: nat)
    requires NotStranded(s) && Run(s, events, single).Some?
    ensures NotStranded(Run(s, events, single).value)
    decreases |events|
  {
    hide Apply, NotStranded;
    if events == [] {
    } else {
      var s' := Apply(s, events[0], single).value;
      if events[0].Work? {
        KeepsNotStrandedWork(s, events[0], single, s');
      } else {
        KeepsNotStrandedThreads(s, events[0], single, s');
      }
      RunKeepsNotStranded(s', events[1..], single);
    }
  }

  /**
   In every state that any run reaches over whatever an earlier process left, disturbed claims included, a
   slave that is taken has a drain queued, or running, or about to be queued.
   */
  lemma NeverStranded(n: nat, masterCache: seq<byte>, slaveCache: seq<byte>, files: seq<seq<byte>>,
                      pubField: seq<byte>, logged: seq<seq<byte>>, events: seq<Event>, single: nat)
    requires n >= 1 && Run(Booting(n, masterCache, slaveCache, files, pubField, logged), events, single).Some?
    ensures var s := Run(Booting(n, masterCache, slaveCache, files, pubField, logged), events, single).value;
      || s.core.slaveFree || DrainTask in s.queue || s.worker != Idle
      || exists t :: 0 <= t < |s.threads| && WillQueueDrain(s.threads[t])
  {
    RunKeepsNotStranded(Booting(n, masterCache, slaveCache, files, pubField, logged), events, single);
  }

  // ---- A thread alone: flushing and constructing ----

  /** The thread is inside a flush or the constructor. */
  predicate InSolo(pc: Pc) {
    || pc.FlushBegin? || pc.NeedBarrier? || pc.Waiting? || pc.BootSlave? || pc.BootPost? || pc.BootMaster?
    || ((pc.WillLoad? || pc.WillStore? || pc.WillSwap? || pc.WillPost?) && pc.mode != InLog)
  }

  /** Everything is in the log files. */
  ghost predicate Flushed(s: State) {
    s.core.master == [] && s.core.slave == [] && s.core.slaveFree && s.queue == [] && s.worker == Idle
  }

  ghost predicate SoloState(s: State, t: nat) {
    Inv(s) && OthersOut(s, t) && SoloShape(s, t) && InSolo(s.threads[t])
  }

  function ThreadRank(pc: Pc): nat {
    match pc
    case FlushBegin => 100
    case BootSlave => 100
    case BootPost => 95
    case NeedBarrier(stage) => if stage == Second then 40 else 80
    case Waiting(stage) => if stage == Second then 20 else 60
    case BootMaster => 56
    case WillLoad(_) => 55
    case WillStore(_) => 54
    case WillSwap(_) => 53
    case WillPost(_) => 52
    case _ => 0
  }

  function WorkerRank(w: WorkerPc): nat {
    match w
    case Idle => 0
    case AtCheck => 8
    case AtEmpty => 7
    case AtPath => 6
    case AtHeader => 5
    case AtData => 4
    case AtClear => 3
    case AtFree => 2
  }

  /** An upper bound on the steps the thread and the worker can still take together. */
  function Work2Do(s: State, t: nat): nat
    requires t < |s.threads|
  {
    10 * |s.queue| + WorkerRank(s.worker) + ThreadRank(s.threads[t])
  }

  /** In a state of undisturbed runs, a thread alone in a flush or the constructor disturbs no claim either. */
  lemma SoloIsUndisturbed(s: State, e: Event, t: nat)
    requires SoloState(s, t) && IsSolo(e, t)
    ensures ClaimUndisturbed(s, e)
  {
    hide Inv;
  }

  lemma SoloStepDecreases(s: State, e: Event, single: nat, s': State, t: nat)
    requires SoloState(s, t) && e.Step? && e.t == t && Apply(s, e, single) == Some(s')
    ensures t < |s'.threads| && Work2Do(s', t) < Work2Do(s, t)
    ensures InSolo(s'.threads[t]) || (s'.threads[t] == Out && IsBoot(s.threads[t]))
  {
    hide Inv, MutexFree, SoloShape;
  }

  lemma SoloWorkDecreases(s: State, e: Event, single: nat, s': State, t: nat)
    requires SoloState(s, t) && e.Work? && Apply(s, e, single) == Some(s')
    ensures t < |s'.threads| && Work2Do(s', t) < Work2Do(s, t)
    ensures InSolo(s'.threads[t]) || (s'.threads[t] == Out && s.threads[t] == Waiting(Second))
  {
    hide Inv, SoloShape, UpdateFilePath, WriteHeader, WriteData;
  }

  /** The thread always has a next step, or waits for the worker, which has one. */
  lemma SoloCanContinue(s: State, single: nat, t: nat)
    requires SoloState(s, t)
    ensures Apply(s, if s.threads[t].Waiting? then Work else Step(t, false), single).Some?
  {
    hide ThreadsInv, QueueInv, NotStranded, FramedInv, GoodFile, HalfWritten;
    assert MutexFree(s);
    assert FilesInv(s);
  }

  /** When the second wait of a flush is over, nothing is left outside the log files. */
  lemma FlushEnds(s: State, e: Event, single: nat, s': State, t: nat)
    requires SoloState(s, t) && e.Work? && Apply(s, e, single) == Some(s')
    requires t < |s'.threads| && s.threads[t] == Waiting(Second) && s'.threads[t] == Out
    requires Inv(s')
    ensures Flushed(s')
  {
    hide ThreadsInv, WorkerInv, QueueInv, NotStranded, FramedInv, FilesInv;
    assert s.worker == Idle && s.queue[0] == BarrierTask(t);
    if |s.queue| > 1 {
      HeadBehindLast(s.queue);
    }
    assert s'.queue == [] && s'.core.master == [] && s'.worker == Idle;
    assert OthersOut(s', t);
    IdleMeansFree(s', t);
    assert WorkerInv(s');
    hide Apply, SoloShape;
    FreeMeansEmpty(s', t);
  }

  lemma HeadBehindLast(queue: seq<Task>)
    requires |queue| > 1 && AllDrains(queue[..|queue| - 1])
    ensures queue[0].DrainTask?
  {
    assert queue[..|queue| - 1][0] == queue[0];
  }

  lemma FreeMeansEmpty(s: State, t: nat)
    requires Inv(s) && s.core.slaveFree && OthersOut(s, t) && s.threads[t] == Out
    ensures s.core.slave == []
  {
    hide ThreadsInv, QueueInv, NotStranded, FramedInv, FilesInv, SoloShape;
  }

  lemma SoloKeeps(s: State, e: Event, single: nat, s': State, t: nat)
    requires SoloState(s, t) && IsSolo(e, t) && Apply(s, e, single) == Some(s')
    ensures Inv(s') && OthersOut(s', t) && SoloShape(s', t)
    ensures Total(s') == Total(s) && s'.logged == s.logged
  {
    SoloIsUndisturbed(s, e, t);
    assert !s.threads[t].HeaderPushed? && !s.threads[t].Appended?;
    assert Steps(s, e, single, s');
    hide Inv, Apply, ClaimUndisturbed, SoloShape, Total;
    InvKept(s, e, single, s');
    TotalKept(s, e, single, s');
    assert Completed(s, e) == [];
    SoloKeepsOthersOut(s, e, single, s', t);
    if e.Work? {
      if s.worker == Idle {
        SoloTake(s, e, single, s', t);
      } else {
        SoloDraining(s, e, single, s', t);
      }
    } else if s.threads[t].WillLoad? || InClaim(s.threads[t]) {
      SoloClaim(s, e, single, s', t);
    } else {
      SoloOther(s, e, single, s', t);
    }
  }

  predicate AllSolo(events: seq<Event>, t: nat) {
    forall i :: 0 <= i < |events| ==> IsSolo(events[i], t)
  }

  lemma NothingLeftToDo(s: State, events: seq<Event>, single: nat, t: nat)
    requires t < |s.threads| && s.threads[t] == Out && Flushed(s)
    requires AllSolo(events, t) && Run(s, events, single).Some?
    ensures events == []
  {
    if events != [] {
      NoSoloEvent(s, events[0], single, t);
    }
  }

  lemma NoSoloEvent(s: State, e: Event, single: nat, t: nat)
    requires t < |s.threads| && s.threads[t] == Out && s.queue == [] && s.worker == Idle && IsSolo(e, t)
    ensures Apply(s, e, single) == None
  {
  }

  /** What a run of a flush alone with the worker has achieved, wherever it stands. */
  ghost predicate FlushProgress(s: State, s': State, t: nat, single: nat) {
    && Inv(s') && OthersOut(s', t)
    && Total(s') == Total(s) && s'.logged == s.logged
    && (s'.threads[t] == Out ==> Flushed(s') && Disk(s'.core.files) == Total(s))
    && (s'.threads[t] != Out ==> Apply(s', if s'.threads[t].Waiting? then Work else Step(t, false), single).Some?)
  }

  lemma FlushedMeansOnDisk(s: State)
    requires Flushed(s)
    ensures Total(s) == Disk(s.core.files)
  {
    assert ParseItems([]) == [];
  }

  lemma {:induction false} SoloRun(s: State, events: seq<Event>, single: nat, t: nat)
    requires SoloState(s, t) && !IsBoot(s.threads[t]) && AllSolo(events, t) && Run(s, events, single).Some?
    ensures var s' := Run(s, events, single).value;
      && FlushProgress(s, s', t, single)
      && |events| + Work2Do(s', t) <= Work2Do(s, t)
    decreases |events|
  {
    if events == [] {
      SoloCanContinue(s, single, t);
      assert s.threads[t] != Out;
    } else {
      var e := events[0];
      assert IsSolo(e, t);
      var s1 := Apply(s, e, single).value;
      SoloKeeps(s, e, single, s1, t);
      if e.Work? {
        SoloWorkDecreases(s, e, single, s1, t);
      } else {
        SoloStepDecreases(s, e, single, s1, t);
      }
      assert !IsBoot(s1.threads[t]) by {
        StaysOutOfBoot(s, e, single, s1, t);
      }
      if InSolo(s1.threads[t]) {
        hide Inv, SoloShape, Total, Apply, IsSolo, Work2Do;
        SoloRun(s1, events[1..], single, t);
      } else {
        FlushEnds(s, e, single, s1, t);
        FlushedMeansOnDisk(s1);
        hide Inv, SoloShape, Total, Apply, IsSolo, Work2Do;
        NothingLeftToDo(s1, events[1..], single, t);
      }
    }
  }

  lemma StaysOutOfBoot(s: State, e: Event, single: nat, s': State, t: nat)
    requires SoloState(s, t) && IsSolo(e, t) && Apply(s, e, single) == Some(s') && t < |s'.threads|
    requires !IsBoot(s.threads[t])
    ensures !IsBoot(s'.threads[t])
  {
    hide Inv, SoloShape, UpdateFilePath, WriteHeader, WriteData, MutexFree;
  }

  lemma FlushStarts(s: State, t: nat, single: nat)
    requires Inv(s) && Apply(s, StartFlush(t), single).Some? && t < |s.threads|
    ensures var s1 := Apply(s, StartFlush(t), single).value;
      Steps(s, StartFlush(t), single, s1) && t < |s1.threads| && s1.threads[t] == FlushBegin
  {
    hide Inv, MutexFree, Constructed;
  }

  /**
   A flush by one caller, from any state that undisturbed runs reach, with nobody else inside: however the
   caller and the worker interleave, the run is bounded, can always go on until the flush returns, and then
   both caches are empty, the slave is free and everything logged is on disk.
   */
  lemma UndisturbedFlush(s: State, t: nat, events: seq<Event>, single: nat)
    requires Inv(s) && OthersOut(s, t) && s.threads[t] == Out
    requires AllSolo(events, t)
    requires Apply(s, StartFlush(t), single).Some?
    requires Run(Apply(s, StartFlush(t), single).value, events, single).Some?
    ensures var s1 := Apply(s, StartFlush(t), single).value;
      var s' := Run(s1, events, single).value;
      && FlushProgress(s, s', t, single)
      && t < |s1.threads| && |events| <= Work2Do(s1, t)
  {
    var s1 := Apply(s, StartFlush(t), single).value;
    SoloBegins(s, t, single, s1);
    hide Inv, SoloShape, Total, Apply, Run, AllSolo;
    SoloRun(s1, events, single, t);
  }

  lemma SoloBegins(s: State, t: nat, single: nat, s1: State)
    requires Inv(s) && OthersOut(s, t) && s.threads[t] == Out && Apply(s, StartFlush(t), single) == Some(s1)
    ensures SoloState(s1, t) && !IsBoot(s1.threads[t]) && Total(s1) == Total(s) && s1.logged == s.logged
  {
    FlushStarts(s, t, single);
    hide Inv, SoloShape, Total, Apply, Steps;
    InvKept(s, StartFlush(t), single, s1);
    TotalKept(s, StartFlush(t), single, s1);
    SoloStarts(s, StartFlush(t), single, s1, t);
  }

  lemma FlushCanStart(s: State, t: nat, single: nat)
    requires OthersOut(s, t) && s.threads[t] == Out
    ensures Apply(s, StartFlush(t), single).Some?
  {
  }

  /** Whatever a flushing or constructing thread and the worker have done so far, they have a way to the end. */
  lemma {:induction false} SoloEnds(s: State, single: nat, t: nat) returns (events: seq<Event>)
    requires SoloState(s, t)
    ensures AllSolo(events, t) && Run(s, events, single).Some?
    ensures t < |Run(s, events, single).value.threads| && Run(s, events, single).value.threads[t] == Out
    decreases if t < |s.threads| then Work2Do(s, t) else 0
  {
    var e := if s.threads[t].Waiting? then Work else Step(t, false);
    assert IsSolo(e, t);
    SoloCanContinue(s, single, t);
    var s1 := Apply(s, e, single).value;
    SoloKeeps(s, e, single, s1, t);
    if e.Work? {
      SoloWorkDecreases(s, e, single, s1, t);
    } else {
      SoloStepDecreases(s, e, single, s1, t);
    }
    hide Inv, SoloShape, Apply, IsSolo, Work2Do;
    if InSolo(s1.threads[t]) {
      var rest := SoloEnds(s1, single, t);
      events := [e] + rest;
      assert events[1..] == rest;
    } else {
      events := [e];
      assert events[1..] == [];
    }
  }
}
