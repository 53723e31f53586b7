/**
 The transition system with the capacities of the two caches carried along, so that a look at the master's
 fill can be held to what the code reads, and the runs of one thread built from it. A run here is a run of
 SinkProtocol; the readings it made are recorded.
 */
module FillReadings {
  import opened Wrappers
  import opened Bytes
  import opened Framing
  import opened SinkCore
  import opened SinkProtocol
  import opened SinkInvariant
  import opened SinkRuns
  import Buf = MMapBuffer

  /** A state, the capacities of the caches that are master and slave, and the fill readings so far. */
  datatype Gauged = Gauged(s: State, master: nat, slave: nat, readings: seq<bool>)

  /**
   measured: fill readings are what the code reads; test, read: the claim's gap before the exchange, and the
   one before the store, stay undisturbed.
   */
  datatype RawSetting = RawSetting(single: nat, page: nat, measured: bool, test: bool, read: bool)

  type Setting = x: RawSetting | x.page >= 1 witness RawSetting(0, 1, false, false, false)

  // ---- Steps ----

  predicate IsReading(s: State, e: Event) {
    e.Step? && e.t < |s.threads| && s.threads[e.t] == Appended
  }

  predicate IsSwap(s: State, e: Event) {
    e.Step? && e.t < |s.threads| && s.threads[e.t].WillSwap?
  }

  /** The fill is read as above the limit exactly when the master is more than four fifths full. */
  predicate TrueReading(g: Gauged, e: Event) {
    IsReading(g.s, e) ==> e.above == Buf.NearlyFull(|g.s.core.master|, g.master)
  }

  function Measured(g: Gauged, e: Event, s': State, page: nat): Gauged
    requires page >= 1
  {
    if IsSwap(g.s, e) then Gauged(s', g.slave, g.master, g.readings)
    else if IsReading(g.s, e) then Gauged(s', g.master, g.slave, g.readings + [e.above])
    else if |s'.core.master| > |g.s.core.master| then
      Gauged(s', Buf.Grown(g.master, |s'.core.master|, page), g.slave, g.readings)
    else Gauged(s', g.master, g.slave, g.readings)
  }

  /** The event keeps to the setting. */
  ghost predicate Admitted(g: Gauged, e: Event, x: Setting) {
    && (x.measured ==> TrueReading(g, e))
    && (x.test ==> TestUndisturbed(g.s, e))
    && (x.read ==> ReadUndisturbed(g.s, e))
  }

  ghost function Advance(g: Gauged, e: Event, x: Setting): Option<Gauged> {
    if Admitted(g, e, x) then
      match Apply(g.s, e, x.single)
      case None => None
      case Some(s') => Some(Measured(g, e, s', x.page))
    else None
  }

  ghost function AdvanceAll(g: Gauged, events: seq<Event>, x: Setting): Option<Gauged>
    decreases |events|
  {
    if events == [] then Some(g)
    else
      match Advance(g, events[0], x)
      case None => None
      case Some(g') => AdvanceAll(g', events[1..], x)
  }

  /** Some run leads from g to g'. */
  ghost predicate Reaches(g: Gauged, g': Gauged, x: Setting) {
    exists events :: AdvanceAll(g, events, x) == Some(g')
  }

  /** It is a run of the transition system, with undisturbed claims if that is asked for. */
  lemma {:induction false} AdvanceIsRun(g: Gauged, events: seq<Event>, x: Setting)
    requires AdvanceAll(g, events, x).Some?
    ensures Run(g.s, events, x.single) == Some(AdvanceAll(g, events, x).value.s)
    ensures x.test && x.read ==> Undisturbed(g.s, events, x.single)
    decreases |events|
  {
    hide Apply, ClaimUndisturbed, TrueReading, Measured, Admitted;
    if events == [] {
    } else {
      AdvanceIsApply(g, events[0], x);
      AdvanceIsRun(Advance(g, events[0], x).value, events[1..], x);
    }
  }

  lemma AdvanceIsApply(g: Gauged, e: Event, x: Setting)
    requires Advance(g, e, x).Some?
    ensures Apply(g.s, e, x.single) == Some(Advance(g, e, x).value.s)
    ensures x.test && x.read ==> ClaimUndisturbed(g.s, e)
    ensures x.measured ==> TrueReading(g, e)
  {
    hide Apply, ReadUndisturbed, TestUndisturbed, TrueReading;
  }

  lemma ReachesIsRun(g: Gauged, g': Gauged, x: Setting) returns (events: seq<Event>)
    requires Reaches(g, g', x)
    ensures Run(g.s, events, x.single) == Some(g'.s)
    ensures x.test && x.read ==> Undisturbed(g.s, events, x.single)
  {
    hide Advance;
    events :| AdvanceAll(g, events, x) == Some(g');
    AdvanceIsRun(g, events, x);
  }

  lemma {:induction false} AdvanceAppend(g: Gauged, a: seq<Event>, b: seq<Event>, x: Setting)
    requires AdvanceAll(g, a, x).Some?
    ensures AdvanceAll(g, a + b, x) == AdvanceAll(AdvanceAll(g, a, x).value, b, x)
    decreases |a|
  {
    hide Advance;
    if a == [] {
      assert a + b == b;
    } else {
      assert (a + b)[1..] == a[1..] + b;
      AdvanceAppend(Advance(g, a[0], x).value, a[1..], b, x);
    }
  }

  lemma ReachesItself(g: Gauged, x: Setting)
    ensures Reaches(g, g, x)
  {
    assert AdvanceAll(g, [], x) == Some(g);
  }

  lemma ReachesOn(a: Gauged, b: Gauged, c: Gauged, x: Setting)
    requires Reaches(a, b, x) && Reaches(b, c, x)
    ensures Reaches(a, c, x)
  {
    hide Advance;
    var es :| AdvanceAll(a, es, x) == Some(b);
    var fs :| AdvanceAll(b, fs, x) == Some(c);
    AdvanceAppend(a, es, fs, x);
  }

  lemma OneStep(g: Gauged, e: Event, g': Gauged, x: Setting)
    requires Advance(g, e, x) == Some(g')
    ensures Reaches(g, g', x)
  {
    hide Advance;
    assert [e][1..] == [];
    assert AdvanceAll(g, [e], x) == Some(g');
  }

  ghost function Then(o: Option<Gauged>, e: Event, x: Setting): Option<Gauged> {
    match o
    case None => None
    case Some(g) => Advance(g, e, x)
  }

  lemma TwoSteps(g: Gauged, a: Event, b: Event, g': Gauged, x: Setting)
    requires Then(Then(Some(g), a, x), b, x) == Some(g')
    ensures Reaches(g, g', x)
  {
    hide Advance, Reaches;
    var g1 := Advance(g, a, x).value;
    OneStep(g, a, g1, x);
    OneStep(g1, b, g', x);
    ReachesOn(g, g1, g', x);
  }

  lemma FourSteps(g: Gauged, a: Event, b: Event, c: Event, d: Event, g': Gauged, x: Setting)
    requires Then(Then(Then(Then(Some(g), a, x), b, x), c, x), d, x) == Some(g')
    ensures Reaches(g, g', x)
  {
    hide Advance, Reaches;
    var g2 := Then(Then(Some(g), a, x), b, x).value;
    TwoSteps(g, a, b, g2, x);
    TwoSteps(g2, c, d, g', x);
    ReachesOn(g, g2, g', x);
  }

  // ---- Fill after an append ----

  /** A new cache. */
  function NewCapacity(page: nat): nat
    requires page >= 1
  {
    Buf.OpenCapacity([], page)
  }

  /** The capacity after an item's two pushes onto content of the given size. */
  function CapacityAfter(capacity: nat, size: nat, p: seq<byte>, page: nat): nat
    requires page >= 1
  {
    Buf.Grown(Buf.Grown(capacity, size + ITEM_HEADER_SIZE, page), size + ITEM_HEADER_SIZE + |p|, page)
  }

  /** If total bytes would fill the cache as it is, they fill it as well after it has grown for no more than these. */
  lemma GrownStaysNearlyFull(capacity: nat, size: nat, total: nat, page: nat)
    requires page >= 1 && size <= total && 4 * page <= total && Buf.NearlyFull(total, capacity)
    ensures Buf.NearlyFull(total, Buf.Grown(capacity, size, page))
  {
    Buf.RoundUpBounds(Buf.MAP_HEADER_SIZE + size, page);
    hide Buf.RoundUp;
  }

  /** An item that would leave the cache nearly full at its present capacity leaves it so whether or not it grows. */
  lemma ItemLeavesNearlyFull(capacity: nat, size: nat, p: seq<byte>, page: nat)
    requires page >= 1 && 4 * page <= size + ITEM_HEADER_SIZE + |p|
    requires Buf.NearlyFull(size + ITEM_HEADER_SIZE + |p|, capacity)
    ensures Buf.NearlyFull(size + ITEM_HEADER_SIZE + |p|, CapacityAfter(capacity, size, p, page))
  {
    var total := size + ITEM_HEADER_SIZE + |p|;
    GrownStaysNearlyFull(capacity, size + ITEM_HEADER_SIZE, total, page);
    GrownStaysNearlyFull(Buf.Grown(capacity, size + ITEM_HEADER_SIZE, page), total, total, page);
  }

  /** Four pages and half a mebibyte, or more. */
  predicate Large(p: seq<byte>, page: nat) {
    4 * page + 524288 <= |p| < U32
  }

  predicate Small(p: seq<byte>) {
    0 < |p| <= 400000
  }

  /** A large first item leaves a new cache nearly full, a small one does not. */
  lemma FirstItemFill(p: seq<byte>, page: nat)
    requires page >= 1
    ensures Large(p, page) ==> Buf.NearlyFull(ITEM_HEADER_SIZE + |p|, NewCapacity(page))
    ensures Large(p, page) ==> Buf.NearlyFull(ITEM_HEADER_SIZE + |p|, CapacityAfter(NewCapacity(page), 0, p, page))
    ensures Small(p) ==>
      && CapacityAfter(NewCapacity(page), 0, p, page) == NewCapacity(page)
      && !Buf.NearlyFull(ITEM_HEADER_SIZE + |p|, NewCapacity(page))
  {
    Buf.RoundUpBounds(Buf.DEFAULT_CAPACITY, page);
    assert Buf.DEFAULT_CAPACITY <= NewCapacity(page) < Buf.DEFAULT_CAPACITY + page;
    hide Buf.RoundUp, NewCapacity;
    if Large(p, page) {
      ItemLeavesNearlyFull(NewCapacity(page), 0, p, page);
    }
  }

  /** The master after one more completed append. */
  function Logged(master: seq<byte>, p: seq<byte>): seq<byte> {
    master + ItemHeader(|p|) + p
  }

  lemma LoggedParses(master: seq<byte>, p: seq<byte>)
    requires WellFramed(master) && 0 < |p| < U32 && |master| + ITEM_HEADER_SIZE + |p| < U64
    ensures WellFramed(Logged(master, p))
    ensures ParseItems(Logged(master, p)) == ParseItems(master) + [p]
    ensures |Logged(master, p)| == |master| + ITEM_HEADER_SIZE + |p|
  {
    hide ParseItems, WellFramed, ItemHeader;
    HeaderPushedBehind(master, p);
    PayloadPushedBehind(master + ItemHeader(|p|), p);
  }

  lemma OneParses(p: seq<byte>)
    requires Short(p)
    ensures ParseItems(Logged([], p)) == [p]
  {
    LoggedParses([], p);
    assert ParseItems([]) == [];
    hide ParseItems, Logged;
    assert [] + [p] == [p];
  }

  lemma TwoParse(p: seq<byte>, q: seq<byte>)
    requires Short(p) && Short(q)
    ensures ParseItems(Logged(Logged([], p), q)) == [p, q]
  {
    OneParses(p);
    LoggedParses([], p);
    hide ParseItems, Logged;
    LoggedParses(Logged([], p), q);
    assert [p] + [q] == [p, q];
  }

  predicate Short(p: seq<byte>) {
    0 < |p| < U32
  }

  // ---- Runs of one thread ----

  /** t with a single thread, at pc, and the worker idle. */
  function Single(t: Gauged, c: Core, pc: Pc, queue: seq<Task>): Gauged {
    t.(s := t.s.(core := c, threads := [pc], queue := queue, worker := Idle))
  }

  /** The same with the worker inside the drain task. */
  function Draining(t: Gauged, c: Core, pc: Pc, queue: seq<Task>, worker: WorkerPc): Gauged {
    t.(s := t.s.(core := c, threads := [pc], queue := queue, worker := worker))
  }

  function Swapped(t: Gauged): Gauged {
    t.(master := t.slave, slave := t.master)
  }

  function WithLogged(t: Gauged, p: seq<byte>): Gauged {
    t.(s := t.s.(logged := t.s.logged + [p]))
  }

  const MOVE: Event := Step(0, false)

  lemma Replace()
    ensures forall a: Pc, b: Pc {:trigger [a][0 := b]} :: [a][0 := b] == [b]
    ensures forall a: Pc, b: Pc, c: Pc {:trigger [a, b][0 := c]} :: [a, b][0 := c] == [c, b]
    ensures forall a: Pc, b: Pc, c: Pc {:trigger [a, b][1 := c]} :: [a, b][1 := c] == [a, c]
  {
  }

  /** A sink about to be constructed in a new directory, with n threads. */
  function NewDirectory(n: nat, pubField: seq<byte>, page: nat): Gauged
    requires n >= 1 && page >= 1
  {
    Gauged(Booting(n, [], [], [], pubField, []), NewCapacity(page), NewCapacity(page), [])
  }

  function FreshCore(pubField: seq<byte>): Core {
    Core([], [], true, false, [], false, pubField)
  }

  lemma OneBoots(pubField: seq<byte>, x: Setting)
    ensures Reaches(NewDirectory(1, pubField, x.page),
                    Single(NewDirectory(1, pubField, x.page), FreshCore(pubField), Out, []), x)
  {
    Replace();
    hide NewCapacity;
    var g := NewDirectory(1, pubField, x.page);
    assert g.s.threads == [BootSlave];
    TwoSteps(g, MOVE, MOVE, Single(g, FreshCore(pubField), Out, []), x);
  }

  /** The two pushes of a log call. */
  lemma OneAppends(t: Gauged, c: Core, queue: seq<Task>, p: seq<byte>, x: Setting)
    requires Short(p) && |c.master| + ITEM_HEADER_SIZE + |p| < U64
    ensures Reaches(Single(t, c, Out, queue),
                    Single(WithLogged(t, p).(master := CapacityAfter(t.master, |c.master|, p, x.page)),
                           c.(master := Logged(c.master, p)), Appended, queue), x)
  {
    Replace();
    hide ItemHeader, Reaches, Buf.Grown;
    var size := |c.master| + ITEM_HEADER_SIZE;
    var g0 := Single(t, c, Out, queue);
    var g1 := Single(t.(master := Buf.Grown(t.master, size, x.page)), c.(master := c.master + ItemHeader(|p|)),
                     HeaderPushed(p), queue);
    var g2 := Single(WithLogged(t, p).(master := Buf.Grown(Buf.Grown(t.master, size, x.page), size + |p|, x.page)),
                     c.(master := Logged(c.master, p)), Appended, queue);
    OneStep(g0, StartLog(0, p), g1, x);
    OneStep(g1, MOVE, g2, x);
    ReachesOn(g0, g1, g2, x);
  }

  /** The look at the fill. */
  lemma OneReads(t: Gauged, c: Core, queue: seq<Task>, above: bool, x: Setting)
    requires x.measured ==> above == Buf.NearlyFull(|c.master|, t.master)
    ensures Reaches(Single(t, c, Appended, queue),
                    Single(t.(readings := t.readings + [above]), c, if above then WillLoad(InLog) else Out, queue), x)
  {
    Replace();
    OneStep(Single(t, c, Appended, queue), Step(0, above),
            Single(t.(readings := t.readings + [above]), c, if above then WillLoad(InLog) else Out, queue), x);
  }

  /** A claim up to the gap before the exchange. */
  lemma OneTakes(t: Gauged, c: Core, queue: seq<Task>, mode: Mode, x: Setting)
    requires c.slaveFree
    ensures Reaches(Single(t, c, WillLoad(mode), queue), Single(t, c.(slaveFree := false), WillSwap(mode), queue), x)
  {
    Replace();
    TwoSteps(Single(t, c, WillLoad(mode), queue), MOVE, MOVE, Single(t, c.(slaveFree := false), WillSwap(mode), queue),
             x);
  }

  lemma OneSwapsAndPosts(t: Gauged, c: Core, queue: seq<Task>, mode: Mode, x: Setting)
    ensures Reaches(Single(t, c, WillSwap(mode), queue),
                    Single(Swapped(t), Swap(c), AfterPost(mode), queue + [DrainTask]), x)
  {
    Replace();
    TwoSteps(Single(t, c, WillSwap(mode), queue), MOVE, MOVE,
             Single(Swapped(t), Swap(c), AfterPost(mode), queue + [DrainTask]), x);
  }

  lemma OneOnlyPosts(t: Gauged, c: Core, queue: seq<Task>, mode: Mode, x: Setting)
    requires !c.slaveFree
    ensures Reaches(Single(t, c, WillLoad(mode), queue), Single(t, c, AfterPost(mode), queue + [DrainTask]), x)
  {
    Replace();
    TwoSteps(Single(t, c, WillLoad(mode), queue), MOVE, MOVE, Single(t, c, AfterPost(mode), queue + [DrainTask]), x);
  }

  /** A claim, if the slave is free, and a post. */
  lemma OneClaims(t: Gauged, c: Core, queue: seq<Task>, mode: Mode, x: Setting)
    ensures Reaches(Single(t, c, WillLoad(mode), queue),
                    Single(if c.slaveFree then Swapped(t) else t, Claim(c), AfterPost(mode), queue + [DrainTask]), x)
  {
    hide Reaches;
    if c.slaveFree {
      var taken := c.(slaveFree := false);
      assert Claim(c) == Swap(taken);
      OneTakes(t, c, queue, mode, x);
      OneSwapsAndPosts(t, taken, queue, mode, x);
      ReachesOn(Single(t, c, WillLoad(mode), queue), Single(t, taken, WillSwap(mode), queue),
                Single(Swapped(t), Swap(taken), AfterPost(mode), queue + [DrainTask]), x);
    } else {
      OneOnlyPosts(t, c, queue, mode, x);
    }
  }

  /** The capacities, history and readings after a whole log call whose look at the fill gave above. */
  function AfterLog(t: Gauged, c: Core, p: seq<byte>, above: bool, page: nat): Gauged
    requires page >= 1
  {
    var u := WithLogged(t, p).(
      master := CapacityAfter(t.master, |c.master|, p, page), readings := t.readings + [above]);
    if above && c.slaveFree then Swapped(u) else u
  }

  function LogCore(c: Core, p: seq<byte>, above: bool): Core {
    if above then Claim(c.(master := Logged(c.master, p))) else c.(master := Logged(c.master, p))
  }

  function LogQueue(queue: seq<Task>, above: bool): seq<Task> {
    if above then queue + [DrainTask] else queue
  }

  /** A whole log call. */
  lemma OneLogs(t: Gauged, c: Core, queue: seq<Task>, p: seq<byte>, above: bool, x: Setting)
    requires Short(p) && |c.master| + ITEM_HEADER_SIZE + |p| < U64
    requires x.measured ==>
      above == Buf.NearlyFull(|c.master| + ITEM_HEADER_SIZE + |p|, CapacityAfter(t.master, |c.master|, p, x.page))
    ensures Reaches(Single(t, c, Out, queue),
                    Single(AfterLog(t, c, p, above, x.page), LogCore(c, p, above), Out, LogQueue(queue, above)), x)
  {
    var c1 := c.(master := Logged(c.master, p));
    var t1 := WithLogged(t, p).(master := CapacityAfter(t.master, |c.master|, p, x.page));
    var t2 := t1.(readings := t1.readings + [above]);
    assert |c1.master| == |c.master| + ITEM_HEADER_SIZE + |p|;
    hide Reaches, Logged, CapacityAfter, Claim;
    var g0 := Single(t, c, Out, queue);
    var g2 := Single(t2, c1, if above then WillLoad(InLog) else Out, queue);
    OneAppends(t, c, queue, p, x);
    OneReads(t1, c1, queue, above, x);
    ReachesOn(g0, Single(t1, c1, Appended, queue), g2, x);
    if above {
      OneClaims(t2, c1, queue, InLog, x);
      ReachesOn(g0, g2, Single(AfterLog(t, c, p, above, x.page), LogCore(c, p, above), Out, LogQueue(queue, above)), x);
    }
  }

  // ---- The drain task ----

  /** The drain task on a taken, non-empty slave, up to the choice of the file. */
  lemma OneChooses(t: Gauged, c: Core, pc: Pc, queue: seq<Task>, x: Setting)
    requires ValidCore(c) && !c.slaveFree && c.slave != [] && !InClaim(pc)
    ensures Reaches(Single(t, c, pc, [DrainTask] + queue),
                    Draining(t, UpdateFilePath(c, x.single), pc, queue, AtHeader), x)
  {
    hide Reaches;
    assert ([DrainTask] + queue)[1..] == queue;
    FourSteps(Single(t, c, pc, [DrainTask] + queue), Work, Work, Work, Work,
              Draining(t, UpdateFilePath(c, x.single), pc, queue, AtHeader), x);
  }

  /** The drain task on a taken, non-empty slave, up to the point where the slave is written but not cleared. */
  lemma OneWrites(t: Gauged, c: Core, pc: Pc, queue: seq<Task>, x: Setting)
    requires ValidCore(c) && !c.slaveFree && c.slave != [] && !InClaim(pc)
    ensures var u := UpdateFilePath(c, x.single);
      Reaches(Single(t, c, pc, [DrainTask] + queue), Draining(t, WriteData(WriteHeader(u)), pc, queue, AtClear), x)
  {
    var u := UpdateFilePath(c, x.single);
    assert u.files != [];
    hide Reaches, ChunkHeader, UpdateFilePath;
    var mid := Draining(t, u, pc, queue, AtHeader);
    var end := Draining(t, WriteData(WriteHeader(u)), pc, queue, AtClear);
    OneChooses(t, c, pc, queue, x);
    TwoSteps(mid, Work, Work, end, x);
    ReachesOn(Single(t, c, pc, [DrainTask] + queue), mid, end, x);
  }

  lemma OneClears(t: Gauged, c: Core, pc: Pc, queue: seq<Task>, x: Setting)
    ensures Reaches(Draining(t, c, pc, queue, AtClear), Single(t, ClearSlave(c).(slaveFree := true), pc, queue), x)
  {
    TwoSteps(Draining(t, c, pc, queue, AtClear), Work, Work, Single(t, ClearSlave(c).(slaveFree := true), pc, queue),
             x);
  }

  /** The drain task finds the slave free. */
  lemma OneFindsFree(t: Gauged, c: Core, pc: Pc, queue: seq<Task>, x: Setting)
    requires c.slaveFree && !InClaim(pc)
    ensures Reaches(Single(t, c, pc, [DrainTask] + queue), Single(t, c, pc, queue), x)
  {
    assert ([DrainTask] + queue)[1..] == queue;
    TwoSteps(Single(t, c, pc, [DrainTask] + queue), Work, Work, Single(t, c, pc, queue), x);
  }

  /** The drain task finds the slave taken but empty, and frees it. */
  lemma OneFrees(t: Gauged, c: Core, pc: Pc, queue: seq<Task>, x: Setting)
    requires !c.slaveFree && c.slave == [] && (x.test ==> !InClaim(pc))
    ensures Reaches(Single(t, c, pc, [DrainTask] + queue), Single(t, c.(slaveFree := true), pc, queue), x)
  {
    assert ([DrainTask] + queue)[1..] == queue;
    FourSteps(Single(t, c, pc, [DrainTask] + queue), Work, Work, Work, Work,
              Single(t, c.(slaveFree := true), pc, queue), x);
  }

  /** A whole drain task. */
  lemma OneDrains(t: Gauged, c: Core, pc: Pc, queue: seq<Task>, x: Setting)
    requires ValidCore(c) && !InClaim(pc)
    ensures Reaches(Single(t, c, pc, [DrainTask] + queue), Single(t, Drain(c, x.single), pc, queue), x)
  {
    hide Reaches;
    if c.slaveFree {
      OneFindsFree(t, c, pc, queue, x);
    } else if c.slave == [] {
      OneFrees(t, c, pc, queue, x);
    } else {
      var w := WriteData(WriteHeader(UpdateFilePath(c, x.single)));
      OneWrites(t, c, pc, queue, x);
      OneClears(t, w, pc, queue, x);
      hide WriteData, WriteHeader, UpdateFilePath;
      ReachesOn(Single(t, c, pc, [DrainTask] + queue), Draining(t, w, pc, queue, AtClear),
                Single(t, ClearSlave(w).(slaveFree := true), pc, queue), x);
    }
  }
}
