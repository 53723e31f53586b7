/**
 The two gaps of a claim, disturbed. Each of two lemmas gives a run of the sink from a new directory in which
 one gap only is disturbed, and in which every look at the master's fill reads what the code reads: the first
 breaks the logging order, the second loses a payload and repeats others. So the order is kept exactly if
 both gaps stay undisturbed. The payloads that lead to a claim are large enough to fill a cache.
 */
module ClaimRaces {
  import opened Bytes
  import opened Framing
  import opened SinkCore
  import opened SinkProtocol
  import opened SinkRuns
  import opened AnyRuns
  import opened LoneFlush
  import opened FillReadings
  import Buf = MMapBuffer

  ghost predicate FromStart(n: nat, g: Gauged, x: Setting)
    requires n >= 1
  {
    Reaches(NewDirectory(n, g.s.core.pubField, x.page), g, x)
  }

  lemma FromStartOn(n: nat, g: Gauged, g': Gauged, x: Setting)
    requires n >= 1 && FromStart(n, g, x) && Reaches(g, g', x) && g'.s.core.pubField == g.s.core.pubField
    ensures FromStart(n, g', x)
  {
    hide Reaches;
    ReachesOn(NewDirectory(n, g.s.core.pubField, x.page), g, g', x);
  }

  // ---- First gap: the worker tests the flag between the store and the exchange ----

  /** A cache's capacity after its first item. */
  function FirstCapacity(p: seq<byte>, page: nat): nat
    requires page >= 1
  {
    CapacityAfter(NewCapacity(page), 0, p, page)
  }

  /** One thread's history, capacities and readings so far. */
  function Carry(a: nat, b: nat, logged: seq<seq<byte>>, readings: seq<bool>): Gauged {
    Gauged(State(FreshCore([]), [], [], Idle, 0, logged), a, b, readings)
  }

  lemma SingleCarry(t: Gauged, c: Core, pc: Pc, queue: seq<Task>)
    requires t.s.base == 0
    ensures Single(t, c, pc, queue) == Single(Carry(t.master, t.slave, t.s.logged, t.readings), c, pc, queue)
  {
  }

  /** The first log of a large payload claims the slave. */
  lemma FirstLogClaims(p: seq<byte>, pubField: seq<byte>, x: Setting)
    requires Large(p, x.page)
    ensures FromStart(1, Single(Carry(NewCapacity(x.page), FirstCapacity(p, x.page), [p], [true]),
                                Core([], Logged([], p), false, true, [], false, pubField), Out, [DrainTask]), x)
  {
    var t := NewDirectory(1, pubField, x.page);
    var c := FreshCore(pubField);
    var c1 := Core([], Logged([], p), false, true, [], false, pubField);
    FirstItemFill(p, x.page);
    assert LogCore(c, p, true) == c1 && LogQueue([], true) == [DrainTask];
    assert [] + [p] == [p] && [] + [true] == [true];
    assert t.s.base == 0 && t.s.logged == [] && t.readings == [];
    var t1 := AfterLog(t, c, p, true, x.page);
    assert t1.s.base == 0 && t1.s.logged == [p] && t1.readings == [true]
        && t1.master == NewCapacity(x.page) && t1.slave == FirstCapacity(p, x.page);
    hide Reaches, Logged, CapacityAfter, NewCapacity, LogCore, LogQueue, AfterLog;
    OneBoots(pubField, x);
    OneLogs(t, c, [], p, true, x);
    hide Single;
    ReachesOn(t, Single(t, c, Out, []), Single(t1, c1, Out, [DrainTask]), x);
    SingleCarry(t1, c1, Out, [DrainTask]);
    SingleField(t1, c1, Out, [DrainTask]);
  }

  lemma SingleField(t: Gauged, c: Core, pc: Pc, queue: seq<Task>)
    ensures Single(t, c, pc, queue).s.core.pubField == c.pubField
  {
  }

  /** The second finds it taken, and posts one more drain. */
  lemma SecondLogPosts(p1: seq<byte>, p2: seq<byte>, pubField: seq<byte>, x: Setting)
    requires Large(p1, x.page) && Large(p2, x.page)
    ensures FromStart(1, Single(Carry(FirstCapacity(p2, x.page), FirstCapacity(p1, x.page), [p1, p2], [true, true]),
                                Core(Logged([], p2), Logged([], p1), false, true, [], false, pubField),
                                Out, [DrainTask] + [DrainTask]), x)
  {
    var t := Carry(NewCapacity(x.page), FirstCapacity(p1, x.page), [p1], [true]);
    var c := Core([], Logged([], p1), false, true, [], false, pubField);
    var c' := Core(Logged([], p2), Logged([], p1), false, true, [], false, pubField);
    FirstItemFill(p2, x.page);
    assert LogCore(c, p2, true) == c' && LogQueue([DrainTask], true) == [DrainTask] + [DrainTask];
    assert [p1] + [p2] == [p1, p2] && [true] + [true] == [true, true];
    assert AfterLog(t, c, p2, true, x.page)
        == Carry(FirstCapacity(p2, x.page), FirstCapacity(p1, x.page), [p1, p2], [true, true]);
    hide Reaches, Logged, CapacityAfter, NewCapacity, LogCore, LogQueue, AfterLog, FirstCapacity, FromStart;
    FirstLogClaims(p1, pubField, x);
    OneLogs(t, c, [DrainTask], p2, true, x);
    FromStartOn(1, Single(t, c, Out, [DrainTask]),
                Single(Carry(FirstCapacity(p2, x.page), FirstCapacity(p1, x.page), [p1, p2], [true, true]), c',
                       Out, [DrainTask] + [DrainTask]), x);
  }

  /** The first of the two drains puts the first payload on disk. */
  lemma OneDrainLeftOver(p1: seq<byte>, p2: seq<byte>, pubField: seq<byte>, x: Setting) returns (files: seq<seq<byte>>)
    requires Large(p1, x.page) && Large(p2, x.page) && |pubField| == PUB_FIELD_SIZE
    ensures FromStart(1, Single(Carry(FirstCapacity(p2, x.page), FirstCapacity(p1, x.page), [p1, p2], [true, true]),
                                Core(Logged([], p2), [], true, true, files, true, pubField), Out, [DrainTask]), x)
    ensures Disk(files) == [p1]
  {
    var t := Carry(FirstCapacity(p2, x.page), FirstCapacity(p1, x.page), [p1, p2], [true, true]);
    var c := Core(Logged([], p2), Logged([], p1), false, true, [], false, pubField);
    LoggedParses([], p1);
    OneParses(p1);
    assert Disk([]) == [];
    DrainPutsOnDisk(c, x.single);
    files := Drain(c, x.single).files;
    hide Reaches, Logged, Drain, Disk, ParseItems, FromStart, FirstCapacity;
    assert [] + [p1] == [p1];
    SecondLogPosts(p1, p2, pubField, x);
    OneDrains(t, c, Out, [DrainTask], x);
    FromStartOn(1, Single(t, c, Out, [DrainTask] + [DrainTask]), Single(t, Drain(c, x.single), Out, [DrainTask]), x);
  }

  /** A third log, of whatever size, takes the slave. */
  lemma ThirdLogTakes(p1: seq<byte>, p2: seq<byte>, p3: seq<byte>, files: seq<seq<byte>>, pubField: seq<byte>,
                      x: Setting)
    returns (a: nat)
    requires Large(p2, x.page) && Short(p3)
    requires FromStart(1, Single(Carry(FirstCapacity(p2, x.page), FirstCapacity(p1, x.page), [p1, p2], [true, true]),
                                 Core(Logged([], p2), [], true, true, files, true, pubField), Out, [DrainTask]), x)
    ensures FromStart(1, Single(Carry(a, FirstCapacity(p1, x.page), [p1, p2, p3], [true, true, true]),
                                Core(Logged(Logged([], p2), p3), [], false, true, files, true, pubField),
                                WillSwap(InLog), [DrainTask]), x)
  {
    var a0, b := FirstCapacity(p2, x.page), FirstCapacity(p1, x.page);
    var m := Logged([], p2);
    a := CapacityAfter(a0, |m|, p3, x.page);
    FirstItemFill(p2, x.page);
    LoggedParses([], p2);
    ItemLeavesNearlyFull(a0, |m|, p3, x.page);
    assert |Logged(m, p3)| == |m| + ITEM_HEADER_SIZE + |p3|;
    assert [p1, p2] + [p3] == [p1, p2, p3] && [true, true] + [true] == [true, true, true];
    hide Reaches, Logged, CapacityAfter, FromStart, FirstCapacity, ParseItems, WellFramed;
    var t := Carry(a0, b, [p1, p2], [true, true]);
    var t1 := Carry(a, b, [p1, p2, p3], [true, true]);
    var t2 := Carry(a, b, [p1, p2, p3], [true, true, true]);
    var c := Core(m, [], true, true, files, true, pubField);
    var c1 := Core(Logged(m, p3), [], true, true, files, true, pubField);
    OneAppends(t, c, [DrainTask], p3, x);
    FromStartOn(1, Single(t, c, Out, [DrainTask]), Single(t1, c1, Appended, [DrainTask]), x);
    OneReads(t1, c1, [DrainTask], true, x);
    FromStartOn(1, Single(t1, c1, Appended, [DrainTask]), Single(t2, c1, WillLoad(InLog), [DrainTask]), x);
    OneTakes(t2, c1, [DrainTask], InLog, x);
    FromStartOn(1, Single(t2, c1, WillLoad(InLog), [DrainTask]),
                Single(t2, c1.(slaveFree := false), WillSwap(InLog), [DrainTask]), x);
  }

  /** The drain left over then frees the slave before the exchange. */
  lemma OneFreedTooEarly(p1: seq<byte>, p2: seq<byte>, p3: seq<byte>, pubField: seq<byte>, x: Setting)
    returns (files: seq<seq<byte>>, a: nat)
    requires Large(p1, x.page) && Large(p2, x.page) && Short(p3) && |pubField| == PUB_FIELD_SIZE && !x.test
    ensures FromStart(1, Single(Carry(FirstCapacity(p1, x.page), a, [p1, p2, p3], [true, true, true]),
                                Core([], Logged(Logged([], p2), p3), true, false, files, true, pubField),
                                Out, [DrainTask]), x)
    ensures Disk(files) == [p1]
  {
    files := OneDrainLeftOver(p1, p2, pubField, x);
    a := ThirdLogTakes(p1, p2, p3, files, pubField, x);
    var c := Core(Logged(Logged([], p2), p3), [], false, true, files, true, pubField);
    var c1 := c.(slaveFree := true);
    var c2 := Core([], Logged(Logged([], p2), p3), true, false, files, true, pubField);
    var t := Carry(a, FirstCapacity(p1, x.page), [p1, p2, p3], [true, true, true]);
    assert Swap(c1) == c2 && [DrainTask] + [] == [DrainTask] == [] + [DrainTask];
    assert Swapped(t) == Carry(FirstCapacity(p1, x.page), a, [p1, p2, p3], [true, true, true]);
    hide Reaches, Logged, Disk, ParseItems, FromStart, Swap, FirstCapacity;
    OneFrees(t, c, WillSwap(InLog), [], x);
    FromStartOn(1, Single(t, c, WillSwap(InLog), [DrainTask]), Single(t, c1, WillSwap(InLog), []), x);
    OneSwapsAndPosts(t, c1, [], InLog, x);
    FromStartOn(1, Single(t, c1, WillSwap(InLog), []), Single(Swapped(t), c2, Out, [DrainTask]), x);
  }

  /** A fourth log, at least as large as the first, claims once more. */
  lemma FourthLogClaims(p1: seq<byte>, m: seq<byte>, p4: seq<byte>, a: nat, logged: seq<seq<byte>>, readings: seq<bool>,
                        files: seq<seq<byte>>, pubField: seq<byte>, x: Setting)
    returns (t: Gauged)
    requires Large(p1, x.page) && Short(p4) && |p4| >= |p1|
    requires FromStart(1, Single(Carry(FirstCapacity(p1, x.page), a, logged, readings),
                                 Core([], m, true, false, files, true, pubField), Out, [DrainTask]), x)
    ensures t.s.logged == logged + [p4]
    ensures FromStart(1, Single(t, Core(m, Logged([], p4), false, true, files, true, pubField),
                                Out, [DrainTask] + [DrainTask]), x)
  {
    var u := Carry(FirstCapacity(p1, x.page), a, logged, readings);
    var c := Core([], m, true, false, files, true, pubField);
    var c' := Core(m, Logged([], p4), false, true, files, true, pubField);
    FirstItemFill(p1, x.page);
    ItemLeavesNearlyFull(FirstCapacity(p1, x.page), 0, p4, x.page);
    t := AfterLog(u, c, p4, true, x.page);
    assert LogCore(c, p4, true) == c' && LogQueue([DrainTask], true) == [DrainTask] + [DrainTask];
    hide Reaches, Logged, CapacityAfter, NewCapacity, LogCore, LogQueue, FirstCapacity, FromStart;
    OneLogs(u, c, [DrainTask], p4, true, x);
    FromStartOn(1, Single(u, c, Out, [DrainTask]), Single(t, c', Out, [DrainTask] + [DrainTask]), x);
  }

  /**
   With one thread and one drain left over from an earlier log, a test of the flag between a claim's
   store and its exchange lets the fourth of four payloads overtake the second and the third.
   */
  lemma TestInClaimBreaksOrder(p1: seq<byte>, p2: seq<byte>, p3: seq<byte>, p4: seq<byte>, pubField: seq<byte>,
                               x: Setting)
    returns (g: Gauged)
    requires Large(p1, x.page) && Large(p2, x.page) && Short(p3) && Short(p4) && |p4| >= |p1|
    requires |pubField| == PUB_FIELD_SIZE && !x.test
    ensures Reaches(NewDirectory(1, pubField, x.page), g, x)
    ensures g.s.logged == [p1, p2, p3, p4] && Total(g.s) == [p1, p4, p2, p3]
  {
    var m3, m4 := Logged(Logged([], p2), p3), Logged([], p4);
    OneParses(p4);
    TwoParse(p2, p3);
    hide Reaches, Logged, Disk, ParseItems, FirstCapacity;
    var files, a := OneFreedTooEarly(p1, p2, p3, pubField, x);
    var t := FourthLogClaims(p1, m3, p4, a, [p1, p2, p3], [true, true, true], files, pubField, x);
    g := Single(t, Core(m3, m4, false, true, files, true, pubField), Out, [DrainTask] + [DrainTask]);
    assert [p1, p2, p3] + [p4] == [p1, p2, p3, p4];
    assert Total(g.s) == [p1] + [p4] + [p2, p3];
  }

  /**
   A flush from the state before the fourth log: it returns with the second and the third payload in the master,
   not on disk, although only one thread has run and nothing else is inside.
   */
  lemma FlushMissesItems(p1: seq<byte>, p2: seq<byte>, p3: seq<byte>, pubField: seq<byte>, x: Setting)
    returns (g: Gauged, flush: seq<Event>)
    requires Large(p1, x.page) && Large(p2, x.page) && Short(p3)
    requires |pubField| == PUB_FIELD_SIZE && !x.test
    ensures Reaches(NewDirectory(1, pubField, x.page), g, x)
    ensures g.s.logged == [p1, p2, p3] && g.s.threads == [Out] && AllSolo(flush, 0)
    ensures Run(g.s, [StartFlush(0)] + flush, x.single).Some?
    ensures var s' := Run(g.s, [StartFlush(0)] + flush, x.single).value;
      && |s'.threads| > 0 && s'.threads[0] == Out && AtRest(s') && s'.core.slaveFree
      && Disk(s'.core.files) == [p1] && ParseItems(s'.core.master) == [p2, p3]
  {
    var m := Logged(Logged([], p2), p3);
    TwoParse(p2, p3);
    hide Reaches, Logged, Disk, ParseItems, FirstCapacity;
    var files, a := OneFreedTooEarly(p1, p2, p3, pubField, x);
    var c := Core([], m, true, false, files, true, pubField);
    g := Single(Carry(FirstCapacity(p1, x.page), a, [p1, p2, p3], [true, true, true]), c, Out, [DrainTask]);
    var events := ReachesIsRun(NewDirectory(1, pubField, x.page), g, x);
    AnyRunWorks(1, [], [], [], pubField, [], events, x.single);
    assert Finish(c, Idle, x.single) == c;
    assert FlushedCore(c, x.single) == c.(master := m, slave := [], swapped := true);
    hide Working, NewDirectory, Booting, Run, Apply, FlushedCore, Finish;
    flush := FlushHasEnd(g.s, 0, x.single);
    FlushCompletes(g.s, 0, flush, x.single);
  }

  // ---- Second gap: another thread reads the flag between the read and the store ----

  /** A state with two threads. */
  function Two(core: Core, a: Pc, b: Pc, queue: seq<Task>, worker: WorkerPc, logged: seq<seq<byte>>): State {
    State(core, [a, b], queue, worker, 0, logged)
  }

  lemma TwoBoot(pubField: seq<byte>, x: Setting)
    ensures Reaches(NewDirectory(2, pubField, x.page),
                    Gauged(Two(FreshCore(pubField), Out, Out, [], Idle, []), NewCapacity(x.page),
                           NewCapacity(x.page), []), x)
  {
    Replace();
    hide NewCapacity;
    assert NewDirectory(2, pubField, x.page).s.threads == [BootSlave, Out];
    TwoSteps(NewDirectory(2, pubField, x.page), MOVE, MOVE,
             Gauged(Two(FreshCore(pubField), Out, Out, [], Idle, []), NewCapacity(x.page), NewCapacity(x.page), []), x);
  }

  lemma FirstPushesHeader(c: Core, b: Pc, worker: WorkerPc, logged: seq<seq<byte>>, p: seq<byte>, m: nat, sl: nat,
                          readings: seq<bool>, x: Setting)
    requires Short(p) && |c.master| + ITEM_HEADER_SIZE + |p| < U64 && !HoldsMutex(b) && !IsBoot(b)
    ensures Reaches(Gauged(Two(c, Out, b, [], worker, logged), m, sl, readings),
                    Gauged(Two(c.(master := c.master + ItemHeader(|p|)), HeaderPushed(p), b, [], worker, logged),
                           Buf.Grown(m, |c.master| + ITEM_HEADER_SIZE, x.page), sl, readings), x)
  {
    Replace();
    assert !IsBoot(Out);
    hide ItemHeader, Reaches, Buf.Grown, IsBoot;
    var g := Gauged(Two(c, Out, b, [], worker, logged), m, sl, readings);
    assert MutexFree(g.s) && Constructed(g.s);
    OneStep(g, StartLog(0, p),
            Gauged(Two(c.(master := c.master + ItemHeader(|p|)), HeaderPushed(p), b, [], worker, logged),
                                      Buf.Grown(m, |c.master| + ITEM_HEADER_SIZE, x.page), sl, readings), x);
  }

  /** The first thread logs. */
  lemma FirstAppends(c: Core, b: Pc, worker: WorkerPc, logged: seq<seq<byte>>, p: seq<byte>, m: nat, sl: nat,
                     readings: seq<bool>, x: Setting)
    requires Short(p) && |c.master| + ITEM_HEADER_SIZE + |p| < U64 && !HoldsMutex(b) && !IsBoot(b)
    ensures Reaches(Gauged(Two(c, Out, b, [], worker, logged), m, sl, readings),
                    Gauged(Two(c.(master := Logged(c.master, p)), Appended, b, [], worker, logged + [p]),
                           CapacityAfter(m, |c.master|, p, x.page), sl, readings), x)
  {
    Replace();
    hide ItemHeader, Reaches, Buf.Grown, IsBoot;
    var size := |c.master| + ITEM_HEADER_SIZE;
    var g0 := Gauged(Two(c, Out, b, [], worker, logged), m, sl, readings);
    var g1 := Gauged(Two(c.(master := c.master + ItemHeader(|p|)), HeaderPushed(p), b, [], worker, logged),
                     Buf.Grown(m, size, x.page), sl, readings);
    var g2 := Gauged(Two(c.(master := Logged(c.master, p)), Appended, b, [], worker, logged + [p]),
                     Buf.Grown(Buf.Grown(m, size, x.page), size + |p|, x.page), sl, readings);
    FirstPushesHeader(c, b, worker, logged, p, m, sl, readings, x);
    OneStep(g1, MOVE, g2, x);
    ReachesOn(g0, g1, g2, x);
  }

  lemma SecondPushesHeader(c: Core, logged: seq<seq<byte>>, p: seq<byte>, m: nat, sl: nat, readings: seq<bool>,
                           x: Setting)
    requires Short(p) && |c.master| + ITEM_HEADER_SIZE + |p| < U64
    ensures Reaches(Gauged(Two(c, WillStore(InLog), Out, [], Idle, logged), m, sl, readings),
                    Gauged(Two(c.(master := c.master + ItemHeader(|p|)), WillStore(InLog), HeaderPushed(p), [], Idle,
                               logged),
                           Buf.Grown(m, |c.master| + ITEM_HEADER_SIZE, x.page), sl, readings), x)
  {
    Replace();
    hide ItemHeader, Reaches, Buf.Grown;
    var g := Gauged(Two(c, WillStore(InLog), Out, [], Idle, logged), m, sl, readings);
    assert MutexFree(g.s) && Constructed(g.s);
    hide IsBoot, HoldsMutex;
    OneStep(g, StartLog(1, p),
            Gauged(Two(c.(master := c.master + ItemHeader(|p|)), WillStore(InLog), HeaderPushed(p), [], Idle, logged),
                                      Buf.Grown(m, |c.master| + ITEM_HEADER_SIZE, x.page), sl, readings), x);
  }

  lemma SecondAppends(c: Core, logged: seq<seq<byte>>, p: seq<byte>, m: nat, sl: nat, readings: seq<bool>, x: Setting)
    requires Short(p) && |c.master| + ITEM_HEADER_SIZE + |p| < U64
    ensures Reaches(Gauged(Two(c, WillStore(InLog), Out, [], Idle, logged), m, sl, readings),
                    Gauged(Two(c.(master := Logged(c.master, p)), WillStore(InLog), Appended, [], Idle, logged + [p]),
                           CapacityAfter(m, |c.master|, p, x.page), sl, readings), x)
  {
    Replace();
    hide ItemHeader, Reaches, Buf.Grown;
    var size := |c.master| + ITEM_HEADER_SIZE;
    var g0 := Gauged(Two(c, WillStore(InLog), Out, [], Idle, logged), m, sl, readings);
    var g1 := Gauged(Two(c.(master := c.master + ItemHeader(|p|)), WillStore(InLog), HeaderPushed(p), [], Idle,
                         logged), Buf.Grown(m, size, x.page), sl, readings);
    var g2 := Gauged(Two(c.(master := Logged(c.master, p)), WillStore(InLog), Appended, [], Idle, logged + [p]),
                     Buf.Grown(Buf.Grown(m, size, x.page), size + |p|, x.page), sl, readings);
    SecondPushesHeader(c, logged, p, m, sl, readings, x);
    OneStep(g1, Step(1, false), g2, x);
    ReachesOn(g0, g1, g2, x);
  }

  /** A thread reads the fill as above the limit and then the flag as free. */
  lemma FirstReadsFree(c: Core, logged: seq<seq<byte>>, m: nat, sl: nat, readings: seq<bool>, x: Setting)
    requires c.slaveFree && Buf.NearlyFull(|c.master|, m)
    ensures Reaches(Gauged(Two(c, Appended, Out, [], Idle, logged), m, sl, readings),
                    Gauged(Two(c, WillStore(InLog), Out, [], Idle, logged), m, sl, readings + [true]), x)
  {
    Replace();
    TwoSteps(Gauged(Two(c, Appended, Out, [], Idle, logged), m, sl, readings), Step(0, true), MOVE,
             Gauged(Two(c, WillStore(InLog), Out, [], Idle, logged), m, sl, readings + [true]), x);
  }

  lemma SecondReadsFree(c: Core, logged: seq<seq<byte>>, m: nat, sl: nat, readings: seq<bool>, x: Setting)
    requires c.slaveFree && Buf.NearlyFull(|c.master|, m) && !x.read
    ensures Reaches(Gauged(Two(c, WillStore(InLog), Appended, [], Idle, logged), m, sl, readings),
                    Gauged(Two(c, WillStore(InLog), WillStore(InLog), [], Idle, logged), m, sl, readings + [true]), x)
  {
    Replace();
    TwoSteps(Gauged(Two(c, WillStore(InLog), Appended, [], Idle, logged), m, sl, readings), Step(1, true),
             Step(1, false),
             Gauged(Two(c, WillStore(InLog), WillStore(InLog), [], Idle, logged), m, sl, readings + [true]), x);
  }

  lemma FirstClaims(c: Core, logged: seq<seq<byte>>, m: nat, sl: nat, readings: seq<bool>, x: Setting)
    ensures Reaches(Gauged(Two(c, WillStore(InLog), WillStore(InLog), [], Idle, logged), m, sl, readings),
                    Gauged(Two(Swap(c.(slaveFree := false)), Out, WillStore(InLog), [DrainTask], Idle, logged), sl, m,
                           readings), x)
  {
    Replace();
    hide Reaches;
    assert [] + [DrainTask] == [DrainTask];
    var g := Gauged(Two(c, WillStore(InLog), WillStore(InLog), [], Idle, logged), m, sl, readings);
    var mid := Gauged(Two(Swap(c.(slaveFree := false)), WillPost(InLog), WillStore(InLog), [], Idle, logged), sl, m,
                      readings);
    var end := Gauged(Two(Swap(c.(slaveFree := false)), Out, WillStore(InLog), [DrainTask], Idle, logged), sl, m,
                      readings);
    TwoSteps(g, MOVE, MOVE, mid, x);
    OneStep(mid, MOVE, end, x);
    ReachesOn(g, mid, end, x);
  }

  /** The worker reaches the drain and chooses its file. */
  lemma WorkerChooses(c: Core, logged: seq<seq<byte>>, m: nat, sl: nat, readings: seq<bool>, x: Setting)
    requires ValidCore(c) && !c.slaveFree && c.slave != []
    ensures var u := UpdateFilePath(c, x.single);
      Reaches(Gauged(Two(c, Out, WillStore(InLog), [DrainTask], Idle, logged), m, sl, readings),
              Gauged(Two(u, Out, WillStore(InLog), [], AtHeader, logged), m, sl, readings), x)
  {
    hide Reaches;
    assert [DrainTask][1..] == [];
    var u := UpdateFilePath(c, x.single);
    FourSteps(Gauged(Two(c, Out, WillStore(InLog), [DrainTask], Idle, logged), m, sl, readings), Work, Work, Work, Work,
              Gauged(Two(u, Out, WillStore(InLog), [], AtHeader, logged), m, sl, readings), x);
  }

  /** The worker writes the slave to disk, but does not clear it yet. */
  lemma WorkerWrites(c: Core, logged: seq<seq<byte>>, m: nat, sl: nat, readings: seq<bool>, x: Setting)
    requires ValidCore(c) && !c.slaveFree && c.slave != []
    ensures var u := UpdateFilePath(c, x.single);
      Reaches(Gauged(Two(c, Out, WillStore(InLog), [DrainTask], Idle, logged), m, sl, readings),
              Gauged(Two(WriteData(WriteHeader(u)), Out, WillStore(InLog), [], AtClear, logged), m, sl, readings), x)
  {
    var u := UpdateFilePath(c, x.single);
    assert u.files != [];
    hide Reaches, ChunkHeader, UpdateFilePath;
    var mid := Gauged(Two(u, Out, WillStore(InLog), [], AtHeader, logged), m, sl, readings);
    var end := Gauged(Two(WriteData(WriteHeader(u)), Out, WillStore(InLog), [], AtClear, logged), m, sl, readings);
    WorkerChooses(c, logged, m, sl, readings, x);
    TwoSteps(mid, Work, Work, end, x);
    ReachesOn(Gauged(Two(c, Out, WillStore(InLog), [DrainTask], Idle, logged), m, sl, readings), mid, end, x);
  }

  /** The first thread's look at the fill finds nothing to do. */
  lemma FirstReadsLow(c: Core, logged: seq<seq<byte>>, m: nat, sl: nat, readings: seq<bool>, x: Setting)
    requires !Buf.NearlyFull(|c.master|, m)
    ensures Reaches(Gauged(Two(c, Appended, WillStore(InLog), [], AtClear, logged), m, sl, readings),
                    Gauged(Two(c, Out, WillStore(InLog), [], AtClear, logged), m, sl, readings + [false]), x)
  {
    Replace();
    OneStep(Gauged(Two(c, Appended, WillStore(InLog), [], AtClear, logged), m, sl, readings), MOVE,
            Gauged(Two(c, Out, WillStore(InLog), [], AtClear, logged), m, sl, readings + [false]), x);
  }

  /** The second thread claims a slave that is already taken, and the worker clears what it exchanged. */
  lemma SecondClaimsTaken(c: Core, logged: seq<seq<byte>>, m: nat, sl: nat, readings: seq<bool>, x: Setting)
    requires !c.slaveFree
    ensures Reaches(Gauged(Two(c, Out, WillStore(InLog), [], AtClear, logged), m, sl, readings),
                    Gauged(Two(ClearSlave(Swap(c)), Out, WillPost(InLog), [], AtFree, logged), sl, m, readings), x)
  {
    Replace();
    hide Reaches;
    var g := Gauged(Two(c, Out, WillStore(InLog), [], AtClear, logged), m, sl, readings);
    var mid := Gauged(Two(Swap(c), Out, WillPost(InLog), [], AtClear, logged), sl, m, readings);
    var end := Gauged(Two(ClearSlave(Swap(c)), Out, WillPost(InLog), [], AtFree, logged), sl, m, readings);
    TwoSteps(g, Step(1, false), Step(1, false), mid, x);
    OneStep(mid, Work, end, x);
    ReachesOn(g, mid, end, x);
  }

  /** The first thread logs a large payload and reads the flag as free. */
  lemma FirstThreadReady(p1: seq<byte>, pubField: seq<byte>, x: Setting)
    requires Large(p1, x.page)
    ensures FromStart(2,
                      Gauged(Two(FreshCore(pubField).(master := Logged([], p1)), WillStore(InLog), Out, [], Idle, [p1]),
                                FirstCapacity(p1, x.page), NewCapacity(x.page), [true]), x)
  {
    var cap := NewCapacity(x.page);
    var c := FreshCore(pubField);
    var c1 := c.(master := Logged([], p1));
    FirstItemFill(p1, x.page);
    LoggedParses([], p1);
    assert [] + [p1] == [p1] && [] + [true] == [true];
    hide Reaches, Logged, ParseItems, WellFramed, NewCapacity, CapacityAfter;
    TwoBoot(pubField, x);
    var g0 := Gauged(Two(c, Out, Out, [], Idle, []), cap, cap, []);
    var g1 := Gauged(Two(c1, Appended, Out, [], Idle, [p1]), FirstCapacity(p1, x.page), cap, []);
    var g2 := Gauged(Two(c1, WillStore(InLog), Out, [], Idle, [p1]), FirstCapacity(p1, x.page), cap, [true]);
    FirstAppends(c, Out, Idle, [], p1, cap, cap, [], x);
    ReachesOn(NewDirectory(2, pubField, x.page), g0, g1, x);
    FirstReadsFree(c1, [p1], FirstCapacity(p1, x.page), cap, [], x);
    ReachesOn(NewDirectory(2, pubField, x.page), g1, g2, x);
  }

  /** So does the second, of whatever size; the first then claims. */
  lemma BothReadFree(p1: seq<byte>, p2: seq<byte>, pubField: seq<byte>, x: Setting) returns (a: nat)
    requires Large(p1, x.page) && Short(p2) && !x.read
    ensures FromStart(2, Gauged(Two(Core([], Logged(Logged([], p1), p2), false, true, [], false, pubField),
                                    Out, WillStore(InLog), [DrainTask], Idle, [p1, p2]),
                                NewCapacity(x.page), a, [true, true]), x)
  {
    var cap, a0 := NewCapacity(x.page), FirstCapacity(p1, x.page);
    var m := Logged([], p1);
    a := CapacityAfter(a0, |m|, p2, x.page);
    FirstItemFill(p1, x.page);
    LoggedParses([], p1);
    ItemLeavesNearlyFull(a0, |m|, p2, x.page);
    assert |Logged(m, p2)| == |m| + ITEM_HEADER_SIZE + |p2|;
    assert [p1] + [p2] == [p1, p2] && [true] + [true] == [true, true];
    var c1 := FreshCore(pubField).(master := m);
    var c2 := FreshCore(pubField).(master := Logged(m, p2));
    var c3 := Core([], Logged(m, p2), false, true, [], false, pubField);
    assert Swap(c2.(slaveFree := false)) == c3;
    hide Reaches, Logged, ParseItems, WellFramed, NewCapacity, CapacityAfter, FirstCapacity, FromStart, Swap;
    FirstThreadReady(p1, pubField, x);
    var g1 := Gauged(Two(c1, WillStore(InLog), Out, [], Idle, [p1]), a0, cap, [true]);
    var g2 := Gauged(Two(c2, WillStore(InLog), Appended, [], Idle, [p1, p2]), a, cap, [true]);
    var g3 := Gauged(Two(c2, WillStore(InLog), WillStore(InLog), [], Idle, [p1, p2]), a, cap, [true, true]);
    SecondAppends(c1, [p1], p2, a0, cap, [true], x);
    FromStartOn(2, g1, g2, x);
    SecondReadsFree(c2, [p1, p2], a, cap, [true], x);
    FromStartOn(2, g2, g3, x);
    FirstClaims(c2, [p1, p2], a, cap, [true, true], x);
    FromStartOn(2, g3, Gauged(Two(c3, Out, WillStore(InLog), [DrainTask], Idle, [p1, p2]), cap, a, [true, true]), x);
  }

  /** The written slave is on disk while it has not been cleared. */
  lemma WrittenIsOnDisk(c: Core, single: nat)
    requires ValidCore(c) && !c.slaveFree && c.slave != [] && |c.slave| < U64 && c.files == [] && !c.isOpen
    ensures var r := WriteData(WriteHeader(UpdateFilePath(c, single)));
      && r == c.(files := r.files, isOpen := true)
      && Disk(r.files) == ParseItems(c.slave)
  {
    DrainPutsOnDisk(c, single);
    assert Disk([]) == [];
    assert Drain(c, single).files == WriteData(WriteHeader(UpdateFilePath(c, single))).files;
    hide ParseItems, Disk, ChunkHeader;
    assert [] + ParseItems(c.slave) == ParseItems(c.slave);
  }

  /** The last payload, a small one, goes into the buffer that the worker is about to clear. */
  lemma ClearedTooLate(m: seq<byte>, files: seq<seq<byte>>, p1: seq<byte>, p2: seq<byte>, p3: seq<byte>,
                       pubField: seq<byte>, a: nat, x: Setting)
    returns (g: Gauged)
    requires Small(p3) && ParseItems(m) == [p1, p2] && Disk(files) == [p1, p2]
    requires FromStart(2,
                       Gauged(Two(Core([], m, false, true, files, true, pubField), Out, WillStore(InLog), [],
                                  AtClear, [p1, p2]),
                                 NewCapacity(x.page), a, [true, true]), x)
    ensures FromStart(2, g, x) && g.s.core.pubField == pubField
    ensures g.s.logged == [p1, p2, p3] && Total(g.s) == [p1, p2, p1, p2]
  {
    var cap := NewCapacity(x.page);
    FirstItemFill(p3, x.page);
    assert ParseItems([]) == [];
    assert |Logged([], p3)| == ITEM_HEADER_SIZE + |p3|;
    assert [p1, p2] + [p3] == [p1, p2, p3];
    var c := Core([], m, false, true, files, true, pubField);
    var c' := c.(master := Logged([], p3));
    assert ClearSlave(Swap(c')) == Core(m, [], false, false, files, true, pubField);
    var readings := [true, true];
    var g1 := Gauged(Two(c, Out, WillStore(InLog), [], AtClear, [p1, p2]), cap, a, readings);
    var g2 := Gauged(Two(c', Appended, WillStore(InLog), [], AtClear, [p1, p2, p3]), cap, a, readings);
    var g3 := Gauged(Two(c', Out, WillStore(InLog), [], AtClear, [p1, p2, p3]), cap, a, readings + [false]);
    g := Gauged(Two(ClearSlave(Swap(c')), Out, WillPost(InLog), [], AtFree, [p1, p2, p3]), a, cap, readings + [false]);
    hide Reaches, Logged, Disk, ParseItems, FromStart, Swap, ClearSlave, NewCapacity, CapacityAfter;
    FirstAppends(c, WillStore(InLog), AtClear, [p1, p2], p3, cap, a, readings, x);
    FromStartOn(2, g1, g2, x);
    FirstReadsLow(c', [p1, p2, p3], cap, a, readings, x);
    FromStartOn(2, g2, g3, x);
    SecondClaimsTaken(c', [p1, p2, p3], cap, a, readings + [false], x);
    FromStartOn(2, g3, g, x);
    assert Total(g.s) == [p1, p2] + [] + [p1, p2];
  }

  /**
   With two threads, a read of the flag between another thread's read and store lets the third of three
   payloads vanish, and leaves the first two to be written twice.
   */
  lemma ReadInClaimLoses(p1: seq<byte>, p2: seq<byte>, p3: seq<byte>, pubField: seq<byte>, x: Setting)
    returns (g: Gauged)
    requires Large(p1, x.page) && Short(p2) && Small(p3) && |pubField| == PUB_FIELD_SIZE && !x.read
    ensures Reaches(NewDirectory(2, pubField, x.page), g, x)
    ensures g.s.logged == [p1, p2, p3] && Total(g.s) == [p1, p2, p1, p2]
  {
    var m := Logged(Logged([], p1), p2);
    LoggedParses([], p1);
    LoggedParses(Logged([], p1), p2);
    hide Reaches, Logged, Disk, ParseItems;
    TwoParse(p1, p2);
    var c := Core([], m, false, true, [], false, pubField);
    WrittenIsOnDisk(c, x.single);
    var w := WriteData(WriteHeader(UpdateFilePath(c, x.single)));
    assert w == Core([], m, false, true, w.files, true, pubField);
    var a := BothReadFree(p1, p2, pubField, x);
    WorkerWrites(c, [p1, p2], NewCapacity(x.page), a, [true, true], x);
    hide WriteData, WriteHeader, UpdateFilePath, NewCapacity;
    FromStartOn(2, Gauged(Two(c, Out, WillStore(InLog), [DrainTask], Idle, [p1, p2]), NewCapacity(x.page),
                          a, [true, true]),
                Gauged(Two(w, Out, WillStore(InLog), [], AtClear, [p1, p2]), NewCapacity(x.page), a, [true, true]), x);
    g := ClearedTooLate(m, w.files, p1, p2, p3, pubField, a, x);
  }

  // ---- Exactly when the order is kept ----

  /**
   In every state that any number of threads reach from a new directory, with the fill readings of the code
   and with the gaps undisturbed that are asked for, the order is kept.
   */
  ghost predicate OrderKept(page: nat, test: bool, read: bool)
    requires page >= 1
  {
    forall n: nat, pubField: seq<byte>, single: nat, g: Gauged ::
      n >= 1 && |pubField| == PUB_FIELD_SIZE
      && Reaches(NewDirectory(n, pubField, page), g, RawSetting(single, page, true, test, read))
      ==> Total(g.s) == g.s.logged
  }

  lemma UndisturbedKeepsOrder(page: nat)
    requires page >= 1
    ensures OrderKept(page, true, true)
  {
    forall n: nat, pubField: seq<byte>, single: nat, g: Gauged
      | n >= 1 && |pubField| == PUB_FIELD_SIZE
        && Reaches(NewDirectory(n, pubField, page), g, RawSetting(single, page, true, true, true))
      ensures Total(g.s) == g.s.logged
    {
      hide Reaches, Total;
      var events := ReachesIsRun(NewDirectory(n, pubField, page), g, RawSetting(single, page, true, true, true));
      OrderIsKept(n, pubField, events, single);
    }
  }

  function Filled(size: nat): (p: seq<byte>)
    ensures |p| == size
  {
    seq(size, i => 0)
  }

  lemma DisturbedTestBreaks(page: nat, read: bool)
    requires page >= 1 && 4 * page + 524288 < U32
    ensures !OrderKept(page, false, read)
  {
    var x := RawSetting(0, page, true, false, read);
    var p, q := Filled(4 * page + 524288), Filled(1);
    var pubField := Filled(PUB_FIELD_SIZE);
    hide Reaches, Total, NewDirectory;
    var g := TestInClaimBreaksOrder(p, p, q, p, pubField, x);
    assert g.s.logged[1] == p && g.s.logged[2] == q && Total(g.s)[2] == p;
    assert |p| != |q|;
  }

  lemma DisturbedReadBreaks(page: nat, test: bool)
    requires page >= 1 && 4 * page + 524288 < U32
    ensures !OrderKept(page, test, false)
  {
    var x := RawSetting(0, page, true, test, false);
    var p, q := Filled(4 * page + 524288), Filled(1);
    var pubField := Filled(PUB_FIELD_SIZE);
    hide Reaches, Total, NewDirectory;
    var g := ReadInClaimLoses(p, q, q, pubField, x);
    assert |g.s.logged| == 3 && |Total(g.s)| == 4;
  }

  /**
   The order is kept exactly if both gaps of every claim stay undisturbed. The page size leaves room for a
   large payload.
   */
  lemma OrderKeptIff(page: nat, test: bool, read: bool)
    requires page >= 1 && 4 * page + 524288 < U32
    ensures OrderKept(page, test, read) <==> test && read
  {
    hide OrderKept;
    if !test {
      DisturbedTestBreaks(page, read);
    } else if !read {
      DisturbedReadBreaks(page, test);
    } else {
      UndisturbedKeepsOrder(page);
    }
  }
}
