/**
 What every run keeps, disturbed claims included: a thread waits exactly while its barrier is queued, one
 thread at most holds the mutex, and the worker can always go on.
 */
module AnyRuns {
  import opened Wrappers
  import opened Bytes
  import opened Framing
  import opened SinkCore
  import opened SinkProtocol
  import opened SinkInvariant
  import opened SinkRuns

  ghost predicate OneHolder(s: State) {
    forall i, j :: 0 <= i < j < |s.threads| ==> !(HoldsMutex(s.threads[i]) && HoldsMutex(s.threads[j]))
  }

  /** The worker finds a file to write to, and the header it wrote there. */
  predicate Writing(c: Core, w: WorkerPc) {
    && ValidCore(c)
    && (w == AtHeader || w == AtData ==> c.files != [])
    && (w == AtData ==> |c.files[|c.files| - 1]| >= CHUNK_HEADER_SIZE)
  }

  ghost predicate Working(s: State) {
    |s.threads| > 0 && QueueInv(s) && OneHolder(s) && Writing(s.core, s.worker)
  }

  lemma KeepsHolder(s: State, e: Event, single: nat, s': State)
    requires OneHolder(s) && Apply(s, e, single) == Some(s')
    ensures OneHolder(s') && |s'.threads| == |s.threads|
  {
    hide Constructed, ItemHeader, ChunkHeader;
  }

  lemma KeepsWriting(s: State, e: Event, single: nat, s': State)
    requires Writing(s.core, s.worker) && Apply(s, e, single) == Some(s')
    ensures Writing(s'.core, s'.worker)
  {
    hide MutexFree, Constructed, ItemHeader, ChunkHeader;
  }

  lemma WorkingKept(s: State, e: Event, single: nat, s': State)
    requires Working(s) && Apply(s, e, single) == Some(s')
    ensures Working(s')
  {
    hide Apply, QueueInv, OneHolder, Writing;
    KeepsHolder(s, e, single, s');
    KeepsWriting(s, e, single, s');
    KeepsQueue(s, e, single, s');
  }

  lemma {:induction false} RunWorks(s: State, events: seq<Event>, single: nat)
    requires Working(s) && Run(s, events, single).Some?
    ensures Working(Run(s, events, single).value)
    decreases |events|
  {
    hide Apply, Working;
    if events == [] {
    } else {
      WorkingKept(s, events[0], single, Apply(s, events[0], single).value);
      RunWorks(Apply(s, events[0], single).value, events[1..], single);
    }
  }

  /** All of this holds in every state that any run reaches over whatever an earlier process left. */
  lemma AnyRunWorks(n: nat, masterCache: seq<byte>, slaveCache: seq<byte>, files: seq<seq<byte>>,
                    pubField: seq<byte>, logged: seq<seq<byte>>, events: seq<Event>, single: nat)
    requires n >= 1 && |pubField| == PUB_FIELD_SIZE
    requires Run(Booting(n, masterCache, slaveCache, files, pubField, logged), events, single).Some?
    ensures Working(Run(Booting(n, masterCache, slaveCache, files, pubField, logged), events, single).value)
  {
    var s := Booting(n, masterCache, slaveCache, files, pubField, logged);
    assert s.threads[0] == BootSlave && forall i :: 0 < i < |s.threads| ==> s.threads[i] == Out;
    assert Working(s);
    hide Booting, Working, Run;
    RunWorks(s, events, single);
  }

  /** The invariant of undisturbed runs includes it. */
  lemma InvWorks(s: State)
    requires Inv(s)
    ensures Working(s)
  {
    hide NotStranded, FramedInv, SoloShape, GoodFile, QueueInv;
    assert ThreadsInv(s) && FilesInv(s);
    hide Inv;
  }
}
