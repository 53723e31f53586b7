/**
 What the sink object's methods promise are runs of the transition system: a log call, the drain tasks in the
 queue, a flush and the constructor, each with nobody else inside. Log reads the fill as the code does.
 */
module ObjectRuns {
  import opened Wrappers
  import opened Bytes
  import opened Framing
  import opened SinkCore
  import opened SinkProtocol
  import opened FillReadings
  import opened EffectiveSinks
  import Buf = MMapBuffer

  function Drains(n: nat): (q: seq<Task>)
    ensures |q| == n
  {
    seq(n, i => DrainTask)
  }

  lemma DrainsStep(n: nat, rest: seq<Task>)
    ensures [DrainTask] + (Drains(n) + rest) == Drains(n + 1) + rest
    ensures Drains(n) + [DrainTask] == Drains(n + 1)
    ensures Drains(0) + rest == rest
  {
  }

  /**
   A log call as EffectiveSink.Log promises it: the frame is appended, and a drain asked for if the fill is
   above the limit.
   */
  lemma LogIsRun(t: Gauged, c: Core, n: nat, p: seq<byte>, x: Setting)
    requires Short(p) && |c.master| + ITEM_HEADER_SIZE + |p| < U64
    ensures var c1 := Append(c, FrameItem(p));
      var a := Buf.Grown(Buf.Grown(t.master, |c.master| + ITEM_HEADER_SIZE, x.page), |c1.master|, x.page);
      var above := Buf.NearlyFull(|c1.master|, a);
      && Reaches(Single(t, c, Out, Drains(n)),
                 Single(AfterLog(t, c, p, above, x.page), if above then Claim(c1) else c1, Out,
                        Drains(if above then n + 1 else n)), x)
      && (!above ==> AfterLog(t, c, p, above, x.page).master == a)
  {
    ShortFrame(p);
    ConcatAssociates(c.master, ItemHeader(|p|), p);
    var above := Buf.NearlyFull(|Append(c, FrameItem(p)).master|, CapacityAfter(t.master, |c.master|, p, x.page));
    DrainsStep(n, []);
    assert LogCore(c, p, above) == if above then Claim(Append(c, FrameItem(p))) else Append(c, FrameItem(p));
    hide Reaches, CapacityAfter, Claim, FrameItem;
    OneLogs(t, c, Drains(n), p, above, x);
  }

  /** Any number of drain tasks in the queue come to one drain, as WaitTaskIdle promises. */
  lemma {:induction false} DrainsAreRun(t: Gauged, c: Core, pc: Pc, n: nat, rest: seq<Task>, x: Setting)
    requires ValidCore(c) && !InClaim(pc)
    ensures Reaches(Single(t, c, pc, Drains(n) + rest), Single(t, if n == 0 then c else Drain(c, x.single), pc, rest),
                    x)
    decreases n
  {
    hide Reaches;
    if n == 0 {
      DrainsStep(0, rest);
      ReachesItself(Single(t, c, pc, rest), x);
    } else {
      DrainTwice(c, x.single);
      hide Drain;
      var d := Drain(c, x.single);
      DrainsStep(n - 1, rest);
      OneDrains(t, c, pc, Drains(n - 1) + rest, x);
      DrainsAreRun(t, d, pc, n - 1, rest, x);
      ReachesOn(Single(t, c, pc, Drains(n) + rest), Single(t, d, pc, Drains(n - 1) + rest), Single(t, d, pc, rest), x);
    }
  }

  /** A post of an empty task and the wait for it, with drains in front of it. */
  lemma WaitIsRun(t: Gauged, c: Core, stage: Stage, n: nat, x: Setting)
    requires ValidCore(c) && n >= 1
    ensures Reaches(Single(t, c, NeedBarrier(stage), Drains(n)), Single(t, Drain(c, x.single), AfterWait(stage), []), x)
  {
    Replace();
    hide Reaches;
    var wait := Drains(n) + [BarrierTask(0)];
    var d := Drain(c, x.single);
    OneStep(Single(t, c, NeedBarrier(stage), Drains(n)), MOVE, Single(t, c, Waiting(stage), wait), x);
    hide Drain;
    DrainsAreRun(t, c, Waiting(stage), n, [BarrierTask(0)], x);
    ReachesOn(Single(t, c, NeedBarrier(stage), Drains(n)), Single(t, c, Waiting(stage), wait),
              Single(t, d, Waiting(stage), [BarrierTask(0)]), x);
    assert [BarrierTask(0)][1..] == [];
    OneStep(Single(t, d, Waiting(stage), [BarrierTask(0)]), Work, Single(t, d, AfterWait(stage), []), x);
    ReachesOn(Single(t, c, NeedBarrier(stage), Drains(n)), Single(t, d, Waiting(stage), [BarrierTask(0)]),
              Single(t, d, AfterWait(stage), []), x);
  }

  /** A flush, with n drains in the queue, as EffectiveSink.Flush promises it. */
  lemma FlushIsRun(t: Gauged, c: Core, n: nat, x: Setting)
    requires ValidCore(c)
    ensures Reaches(Single(t, c, Out, Drains(n)), Single(Swapped(t), FlushedCore(c, x.single), Out, []), x)
  {
    Replace();
    DrainsStep(n, []);
    DrainsStep(0, [DrainTask]);
    DrainTwice(c, x.single);
    var g := Single(t, c, Out, Drains(n));
    var d := Drain(c, x.single);
    assert ValidCore(Claim(d)) && [] + [DrainTask] == Drains(1);
    hide Reaches, Drain, Claim;
    TwoSteps(g, StartFlush(0), MOVE, Single(t, c, NeedBarrier(First), Drains(n + 1)), x);
    WaitIsRun(t, c, First, n + 1, x);
    ReachesOn(g, Single(t, c, NeedBarrier(First), Drains(n + 1)), Single(t, d, WillLoad(InFlush), []), x);
    OneClaims(t, d, [], InFlush, x);
    ReachesOn(g, Single(t, d, WillLoad(InFlush), []), Single(Swapped(t), Claim(d), NeedBarrier(Second), Drains(1)), x);
    WaitIsRun(Swapped(t), Claim(d), Second, 1, x);
    ReachesOn(g, Single(Swapped(t), Claim(d), NeedBarrier(Second), Drains(1)),
              Single(Swapped(t), Drain(Claim(d), x.single), Out, []), x);
  }

  /** The constructor's look at the slave. */
  lemma SlaveIsRecovered(t: Gauged, c: Core, x: Setting)
    requires ValidCore(c) && c.slaveFree
    ensures var c1 := if c.slave == [] then c else Drain(c.(slaveFree := false), x.single);
      Reaches(Single(t, c, BootSlave, []), Single(t, c1, BootMaster, []), x)
  {
    Replace();
    hide Drain, Reaches;
    var g := Single(t, c, BootSlave, []);
    if c.slave == [] {
      OneStep(g, MOVE, Single(t, c, BootMaster, []), x);
    } else {
      var taken := c.(slaveFree := false);
      assert [] + [DrainTask] == Drains(1);
      TwoSteps(g, MOVE, MOVE, Single(t, taken, NeedBarrier(Boot), Drains(1)), x);
      WaitIsRun(t, taken, Boot, 1, x);
      ReachesOn(g, Single(t, taken, NeedBarrier(Boot), Drains(1)), Single(t, Drain(taken, x.single), BootMaster, []),
                x);
    }
  }

  /** The constructor over whatever it finds, as its contract promises it. */
  lemma RecoveryIsRun(t: Gauged, c: Core, x: Setting) returns (t': Gauged)
    requires ValidCore(c) && c.slaveFree
    ensures Reaches(Single(t, c, BootSlave, []),
                    Single(t', Recovered(c, x.single), Out, Drains(if c.master == [] then 0 else 1)), x)
  {
    Replace();
    SlaveIsRecovered(t, c, x);
    var c1 := if c.slave == [] then c else Drain(c.(slaveFree := false), x.single);
    assert c1.master == c.master && ValidCore(c1);
    hide Drain, Reaches, Claim;
    var g := Single(t, c, BootSlave, []);
    if c1.master == [] {
      t' := t;
      assert Drains(0) == [];
      OneStep(Single(t, c1, BootMaster, []), MOVE, Single(t, c1, Out, []), x);
      ReachesOn(g, Single(t, c1, BootMaster, []), Single(t, c1, Out, []), x);
    } else {
      t' := if c1.slaveFree then Swapped(t) else t;
      assert [] + [DrainTask] == Drains(1);
      OneStep(Single(t, c1, BootMaster, []), MOVE, Single(t, c1, WillLoad(InBoot), []), x);
      ReachesOn(g, Single(t, c1, BootMaster, []), Single(t, c1, WillLoad(InBoot), []), x);
      OneClaims(t, c1, [], InBoot, x);
      ReachesOn(g, Single(t, c1, WillLoad(InBoot), []), Single(t', Claim(c1), Out, Drains(1)), x);
    }
  }
}
