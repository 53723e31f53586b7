/**
 A flush with nobody else inside, from any state that any run reaches, disturbed claims included. However the
 caller and the worker interleave, the flush returns after a bounded number of steps, and what it then leaves is
 one and the same: the worker's drain is finished, then one drain, the claim, and one drain more.
 */
module LoneFlush {
  import opened Wrappers
  import opened Bytes
  import opened Framing
  import opened SinkCore
  import opened SinkProtocol
  import opened SinkInvariant
  import opened SinkRuns
  import opened AnyRuns

  // ---- What is still to happen ----

  function Emptied(c: Core): Core {
    ClearSlave(c).(slaveFree := true)
  }

  /** The core once the worker is through with the drain task it is in. */
  function Finish(c: Core, w: WorkerPc, single: nat): (r: Core)
    requires Writing(c, w)
    ensures ValidCore(r)
  {
    match w
    case Idle => c
    case AtCheck => Drain(c, single)
    case AtEmpty =>
      if c.slave == [] then c.(slaveFree := true)
      else Emptied(WriteData(WriteHeader(UpdateFilePath(c, single))))
    case AtPath => Emptied(WriteData(WriteHeader(UpdateFilePath(c, single))))
    case AtHeader => Emptied(WriteData(WriteHeader(c)))
    case AtData => Emptied(WriteData(c))
    case AtClear => Emptied(c)
    case AtFree => c.(slaveFree := true)
  }

  lemma ClaimIsValid(c: Core)
    requires ValidCore(c)
    ensures ValidCore(Claim(c)) && ValidCore(Swap(c))
  {
  }

  /** The core when the flush returns, as it can be told at any stage. */
  function Future(s: State, t: nat, single: nat): Core
    requires t < |s.threads| && Writing(s.core, s.worker)
  {
    var c := s.core;
    ClaimIsValid(c);
    match s.threads[t]
    case WillLoad(_) => Drain(Claim(c), single)
    case WillStore(_) => Drain(Claim(c), single)
    case WillSwap(_) => Drain(Swap(c), single)
    case WillPost(_) => Drain(c, single)
    case NeedBarrier(Second) => Drain(Finish(c, s.worker, single), single)
    case Waiting(Second) => Drain(Finish(c, s.worker, single), single)
    case Out => c
    case _ => FlushedCore(Finish(c, s.worker, single), single)
  }

  /** A taken slave has a drain at the head of the queue, unless the worker is in one. */
  predicate DrainFirst(s: State) {
    s.worker == Idle && !s.core.slaveFree ==> s.queue != [] && s.queue[0] == DrainTask
  }

  predicate AtRest(s: State) {
    s.queue == [] && s.worker == Idle
  }

  ghost predicate LoneShape(s: State, t: nat) {
    && OthersOut(s, t) && Writing(s.core, s.worker)
    && match s.threads[t]
       case FlushBegin => AllDrains(s.queue)
       case NeedBarrier(stage) => stage != Boot && AllDrains(s.queue) && DrainFirst(s)
       case Waiting(stage) =>
         && stage != Boot && DrainFirst(s)
         && s.queue != [] && s.queue[|s.queue| - 1] == BarrierTask(t) && AllDrains(s.queue[..|s.queue| - 1])
       case WillLoad(mode) => mode == InFlush && AtRest(s) && s.core.slaveFree
       case WillStore(mode) => mode == InFlush && AtRest(s) && s.core.slaveFree
       case WillSwap(mode) => mode == InFlush && AtRest(s)
       case WillPost(mode) => mode == InFlush && AtRest(s)
       case Out => AtRest(s) && s.core.slaveFree
       case _ => false
  }

  // ---- Every step ----

  /** The worker goes on inside the drain task. */
  lemma FinishStep(s: State, single: nat, s': State)
    requires Writing(s.core, s.worker) && s.worker != Idle && Apply(s, Work, single) == Some(s')
    ensures Writing(s'.core, s'.worker) && Finish(s'.core, s'.worker, single) == Finish(s.core, s.worker, single)
    ensures s'.queue == s.queue && s'.threads == s.threads && s'.logged == s.logged
    ensures s'.worker == Idle ==> s'.core.slaveFree
    ensures WorkerRank(s'.worker) < WorkerRank(s.worker)
  {
    hide ChunkHeader;
  }

  lemma LoneDrains(s: State, single: nat, s': State, t: nat)
    requires LoneShape(s, t) && s.threads[t] != Out && s.worker != Idle && Apply(s, Work, single) == Some(s')
    ensures LoneShape(s', t) && Future(s', t, single) == Future(s, t, single)
    ensures Work2Do(s', t) < Work2Do(s, t) && s'.logged == s.logged
  {
    hide Finish, Writing, FlushedCore, Drain, AllDrains, WorkerRank, ThreadRank;
    FinishStep(s, single, s');
    hide Apply;
  }

  lemma FreeDrain(c: Core, single: nat)
    requires ValidCore(c)
    ensures c.slaveFree ==> Drain(c, single) == c
    ensures Drain(Drain(c, single), single) == Drain(c, single) && Drain(c, single).slaveFree
  {
  }

  /** The worker takes a drain, or the thread's own barrier when nothing is left before it. */
  lemma LoneTakes(s: State, single: nat, s': State, t: nat)
    requires LoneShape(s, t) && s.threads[t] != Out && s.worker == Idle && Apply(s, Work, single) == Some(s')
    ensures LoneShape(s', t) && Future(s', t, single) == Future(s, t, single)
    ensures Work2Do(s', t) < Work2Do(s, t) && s'.logged == s.logged
  {
    FreeDrain(s.core, single);
    hide Drain, Claim, Swap;
    if s.threads[t].Waiting? && |s.queue| > 1 {
      HeadBehindLast(s.queue);
      assert s.queue[1..][..|s.queue| - 2] == s.queue[..|s.queue| - 1][1..];
    }
  }

  /** The flushing thread moves. */
  lemma LoneMoves(s: State, above: bool, single: nat, s': State, t: nat)
    requires LoneShape(s, t) && s.threads[t] != Out && Apply(s, Step(t, above), single) == Some(s')
    ensures LoneShape(s', t) && Future(s', t, single) == Future(s, t, single)
    ensures Work2Do(s', t) < Work2Do(s, t) && s'.logged == s.logged
  {
    hide Drain, MutexFree, ChunkHeader;
    if s.threads[t].NeedBarrier? {
      assert s'.queue[..|s'.queue| - 1] == s.queue;
    }
  }

  lemma LoneStep(s: State, e: Event, single: nat, s': State, t: nat)
    requires LoneShape(s, t) && s.threads[t] != Out && IsSolo(e, t) && Apply(s, e, single) == Some(s')
    ensures LoneShape(s', t) && Future(s', t, single) == Future(s, t, single)
    ensures Work2Do(s', t) < Work2Do(s, t) && s'.logged == s.logged
  {
    hide Apply, LoneShape, Future, Work2Do;
    match e
    case Step(_, above) => LoneMoves(s, above, single, s', t);
    case Work =>
      if s.worker == Idle {
        LoneTakes(s, single, s', t);
      } else {
        LoneDrains(s, single, s', t);
      }
    case _ =>
  }

  /** The flushing thread can step, or waits for the worker, which can. */
  lemma LoneCanContinue(s: State, single: nat, t: nat)
    requires LoneShape(s, t) && s.threads[t] != Out
    ensures Apply(s, if s.threads[t].Waiting? then Work else Step(t, false), single).Some?
  {
    hide ChunkHeader;
    assert MutexFree(s);
  }

  lemma {:induction false} LoneRun(s: State, events: seq<Event>, single: nat, t: nat)
    requires LoneShape(s, t) && AllSolo(events, t) && Run(s, events, single).Some?
    ensures var s' := Run(s, events, single).value;
      && LoneShape(s', t) && Future(s', t, single) == Future(s, t, single)
      && s'.logged == s.logged && |events| + Work2Do(s', t) <= Work2Do(s, t)
    decreases |events|
  {
    if events == [] {
    } else {
      var e := events[0];
      assert IsSolo(e, t);
      if s.threads[t] == Out {
        NoSoloEvent(s, e, single, t);
      }
      var s1 := Apply(s, e, single).value;
      hide Apply, LoneShape, Future, Work2Do, IsSolo;
      LoneStep(s, e, single, s1, t);
      LoneRun(s1, events[1..], single, t);
    }
  }

  lemma NobodyWaits(s: State, t: nat)
    requires QueueInv(s) && OthersOut(s, t) && s.threads[t] == Out
    ensures AllDrains(s.queue)
  {
    assert forall i :: 0 <= i < |s.threads| ==> !s.threads[i].Waiting?;
  }

  lemma LoneStarts(s: State, t: nat, single: nat, s1: State)
    requires Working(s) && OthersOut(s, t) && s.threads[t] == Out && Apply(s, StartFlush(t), single) == Some(s1)
    ensures LoneShape(s1, t) && s1.threads[t] == FlushBegin && s1.logged == s.logged
    ensures Future(s1, t, single) == FlushedCore(Finish(s.core, s.worker, single), single)
  {
    NobodyWaits(s, t);
    hide QueueInv, OneHolder, Writing, Finish, FlushedCore, AllDrains, Constructed;
  }

  // ---- What a flush leaves ----

  /** The slave holds bytes although its flag is free, or about to be: no drain will look at them. */
  predicate Overlooked(c: Core, w: WorkerPc) {
    c.slave != [] && (w == AtFree || ((w == Idle || w == AtCheck) && c.slaveFree))
  }

  /** Overlooked bytes are in the master when a flush returns; anything else has left both caches. */
  lemma FlushOutcome(c: Core, w: WorkerPc, single: nat)
    requires Writing(c, w)
    ensures var r := FlushedCore(Finish(c, w, single), single);
      r.slaveFree && r.slave == [] && r.master == if Overlooked(c, w) then c.slave else []
  {
    hide ChunkHeader;
    var d := Drain(Finish(c, w, single), single);
    assert d.slaveFree && d.slave == if Overlooked(c, w) then c.slave else [];
  }

  /**
   A flush by one caller, from any state that any run reaches, with nobody else inside. The run is bounded and
   can always go on until the flush returns; the core is then that after one drain, the claim and one drain more,
   whatever the schedule was. So both caches are empty and the slave is free exactly if the slave was not
   overlooked when the flush began; if claims have been undisturbed, it was not, and everything logged is on disk.
   */
  lemma FlushCompletes(s: State, t: nat, events: seq<Event>, single: nat)
    requires Working(s) && OthersOut(s, t) && s.threads[t] == Out && AllSolo(events, t)
    requires Apply(s, StartFlush(t), single).Some?
    requires Run(Apply(s, StartFlush(t), single).value, events, single).Some?
    ensures var s1 := Apply(s, StartFlush(t), single).value;
      var s' := Run(s1, events, single).value;
      && t < |s1.threads| && |events| <= Work2Do(s1, t) && OthersOut(s', t) && s'.logged == s.logged
      && (s'.threads[t] != Out ==> Apply(s', if s'.threads[t].Waiting? then Work else Step(t, false), single).Some?)
      && (s'.threads[t] == Out ==>
            && AtRest(s') && s'.core == FlushedCore(Finish(s.core, s.worker, single), single)
            && s'.core.master == (if Overlooked(s.core, s.worker) then s.core.slave else [])
            && (Flushed(s') <==> !Overlooked(s.core, s.worker))
            && (Inv(s) ==> Flushed(s') && Disk(s'.core.files) == Total(s)))
  {
    var s1 := Apply(s, StartFlush(t), single).value;
    var s' := Run(s1, events, single).value;
    LoneStarts(s, t, single, s1);
    if Inv(s) {
      UndisturbedFlush(s, t, events, single);
    }
    FlushOutcome(s.core, s.worker, single);
    hide Inv, Apply, Run, Finish, FlushedCore, Total, Disk, AllSolo, Overlooked;
    LoneRun(s1, events, single, t);
    if s'.threads[t] != Out {
      LoneCanContinue(s', single, t);
    }
  }

  /** There is such a run that returns. */
  lemma {:induction false} LoneEnds(s: State, single: nat, t: nat) returns (events: seq<Event>)
    requires LoneShape(s, t)
    ensures AllSolo(events, t) && Run(s, events, single).Some?
    ensures t < |Run(s, events, single).value.threads| && Run(s, events, single).value.threads[t] == Out
    decreases if t < |s.threads| then Work2Do(s, t) else 0
  {
    if s.threads[t] == Out {
      events := [];
    } else {
      var e := if s.threads[t].Waiting? then Work else Step(t, false);
      assert IsSolo(e, t);
      LoneCanContinue(s, single, t);
      var s1 := Apply(s, e, single).value;
      hide Apply, LoneShape, Work2Do, IsSolo, Future;
      LoneStep(s, e, single, s1, t);
      OnlyT(s1, t);
      var rest := LoneEnds(s1, single, t);
      events := [e] + rest;
      assert events[1..] == rest;
    }
  }

  lemma OnlyT(s: State, t: nat)
    requires LoneShape(s, t)
    ensures t < |s.threads|
  {
  }

  lemma FlushHasEnd(s: State, t: nat, single: nat) returns (flush: seq<Event>)
    requires Working(s) && OthersOut(s, t) && s.threads[t] == Out
    ensures AllSolo(flush, t) && Run(s, [StartFlush(t)] + flush, single).Some?
    ensures Apply(s, StartFlush(t), single).Some?
    ensures Run(s, [StartFlush(t)] + flush, single) == Run(Apply(s, StartFlush(t), single).value, flush, single)
    ensures var s' := Run(s, [StartFlush(t)] + flush, single).value;
      t < |s'.threads| && s'.threads[t] == Out
  {
    FlushCanStart(s, t, single);
    var e := StartFlush(t);
    var s1 := Apply(s, e, single).value;
    LoneStarts(s, t, single, s1);
    hide Apply, LoneShape, Future;
    flush := LoneEnds(s1, single, t);
    assert ([e] + flush)[1..] == flush;
  }

  /** From any run over whatever an earlier process left: what a lone flush has left when it returns. */
  lemma FlushAfterAnyRun(n: nat, masterCache: seq<byte>, slaveCache: seq<byte>, files: seq<seq<byte>>,
                         pubField: seq<byte>, logged: seq<seq<byte>>, events: seq<Event>, t: nat,
                         flush: seq<Event>, single: nat)
    requires n >= 1 && |pubField| == PUB_FIELD_SIZE
    requires Run(Booting(n, masterCache, slaveCache, files, pubField, logged), events, single).Some?
    requires var s := Run(Booting(n, masterCache, slaveCache, files, pubField, logged), events, single).value;
      && OthersOut(s, t) && s.threads[t] == Out && AllSolo(flush, t)
      && Apply(s, StartFlush(t), single).Some?
      && Run(Apply(s, StartFlush(t), single).value, flush, single).Some?
    ensures var s := Run(Booting(n, masterCache, slaveCache, files, pubField, logged), events, single).value;
      var s' := Run(Apply(s, StartFlush(t), single).value, flush, single).value;
      && t < |s'.threads|
      && (s'.threads[t] != Out ==> Apply(s', if s'.threads[t].Waiting? then Work else Step(t, false), single).Some?)
      && (s'.threads[t] == Out ==> (Flushed(s') <==> !Overlooked(s.core, s.worker)))
  {
    AnyRunWorks(n, masterCache, slaveCache, files, pubField, logged, events, single);
    var s := Run(Booting(n, masterCache, slaveCache, files, pubField, logged), events, single).value;
    hide Working, Apply, Booting, Flushed, Overlooked, Inv;
    FlushCompletes(s, t, flush, single);
  }
}
