/**
 What a crash can do to the order, shown by runs from a new directory that disturb no claim and whose looks
 at the master's fill read what the code reads: recovery may put a later payload before an earlier one,
 and may put one on disk twice.
 */
module CrashOrder {
  import opened Bytes
  import opened Framing
  import opened SinkCore
  import opened SinkProtocol
  import opened SinkInvariant
  import opened SinkRuns
  import opened AnyRuns
  import opened SinkRecovery
  import opened FillReadings
  import opened ClaimRaces

  /** Fill readings as the code makes them, and undisturbed claims. */
  function UndisturbedCode(single: nat, page: nat): Setting
    requires page >= 1
  {
    RawSetting(single, page, true, true, true)
  }

  /** A state reached without disturbing a claim has the invariant, and a crash there can be recovered from. */
  lemma ReachedIsSound(g: Gauged, pubField: seq<byte>, x: Setting)
    requires x.test && x.read && |pubField| == PUB_FIELD_SIZE && Reaches(NewDirectory(1, pubField, x.page), g, x)
    ensures Inv(g.s) && FilesFit(g.s) && Total(g.s) == g.s.logged
    ensures |g.s.core.master| < U64 && |g.s.core.slave| < U64
  {
    hide Reaches, Inv, Total;
    var events := ReachesIsRun(NewDirectory(1, pubField, x.page), g, x);
    OrderIsKept(1, pubField, events, x.single);
    hide NewDirectory, Run, Undisturbed;
    InvFits(g.s);
  }

  /** A large payload is logged and claims the slave; of the next one both pushes are done. */
  lemma SecondAppended(p1: seq<byte>, p2: seq<byte>, pubField: seq<byte>, x: Setting) returns (g: Gauged)
    requires Large(p1, x.page) && Short(p2)
    ensures Reaches(NewDirectory(1, pubField, x.page), g, x)
    ensures g.s == Single(g, Core(Logged([], p2), Logged([], p1), false, true, [], false, pubField),
                          Appended, [DrainTask]).s
    ensures g.s.logged == [p1, p2]
  {
    var t := Carry(NewCapacity(x.page), FirstCapacity(p1, x.page), [p1], [true]);
    var c := Core([], Logged([], p1), false, true, [], false, pubField);
    assert [p1] + [p2] == [p1, p2];
    hide Reaches, Logged, CapacityAfter, NewCapacity;
    FirstLogClaims(p1, pubField, x);
    OneAppends(t, c, [DrainTask], p2, x);
    g := Single(WithLogged(t, p2).(master := CapacityAfter(t.master, 0, p2, x.page)), c.(master := Logged([], p2)),
                Appended, [DrainTask]);
    ReachesOn(NewDirectory(1, pubField, x.page), Single(t, c, Out, [DrainTask]), g, x);
  }

  /** After a crash at s, the constructor's run boot and then flush put these payloads on disk. */
  ghost predicate Recovers(s: State, k: nat, pubField: seq<byte>, boot: seq<Event>, flush: seq<Event>, single: nat,
                           payloads: seq<seq<byte>>)
    requires FilesFit(s) && CrashPoint(s, k)
  {
    && Run(Restart(s, k, pubField), boot, single).Some?
    && var b := Run(Restart(s, k, pubField), boot, single).value;
    && Run(b, [StartFlush(0)] + flush, single).Some?
    && var f := Run(b, [StartFlush(0)] + flush, single).value;
    Flushed(f) && Disk(f.core.files) == payloads
  }

  lemma WorkingFits(s: State)
    requires Working(s)
    ensures FilesFit(s)
  {
    hide QueueInv, OneHolder;
  }

  /**
   A crash at any state that any run reaches, disturbed claims included, can be recovered from; what is on disk
   then are the items of the cache files, as found.
   */
  lemma CrashIsRecovered(s: State, k: nat, pubField: seq<byte>, single: nat)
    returns (boot: seq<Event>, flush: seq<Event>)
    requires Working(s) && CrashPoint(s, k) && |pubField| == PUB_FIELD_SIZE
    requires |s.core.master| < U64 && |s.core.slave| < U64
    ensures FilesFit(s)
    ensures Recovers(s, k, pubField, boot, flush, single,
                     Disk(CrashFiles(s, k)) + ParseItems(SlaveCache(s)) + ParseItems(MasterCache(s)))
  {
    WorkingFits(s);
    hide Working, Disk, ParseItems, Run, Booting, Flushed, CrashFiles;
    var files := CrashFiles(s, k);
    boot, flush := RecoveryHasEnd(|s.threads|, MasterCache(s), SlaveCache(s), files, pubField, s.logged, single);
  }

  /**
   A crash after one exchange of the caches, with an item in each: the constructor and a flush put the second
   payload on disk before the first.
   */
  lemma CrashReverses(p1: seq<byte>, p2: seq<byte>, pubField: seq<byte>, pubField': seq<byte>, single: nat, page: nat)
    returns (g: Gauged, boot: seq<Event>, flush: seq<Event>)
    requires Large(p1, page) && Short(p2) && page >= 1 && |pubField| == PUB_FIELD_SIZE && |pubField'| == PUB_FIELD_SIZE
    ensures Reaches(NewDirectory(1, pubField, page), g, UndisturbedCode(single, page))
    ensures g.s.logged == [p1, p2] && CrashPoint(g.s, 0) && FilesFit(g.s)
    ensures Recovers(g.s, 0, pubField', boot, flush, single, [p2, p1])
  {
    var x := UndisturbedCode(single, page);
    OneParses(p1);
    OneParses(p2);
    hide Reaches, Logged, ParseItems;
    g := SecondAppended(p1, p2, pubField, x);
    ReachedIsSound(g, pubField, x);
    InvWorks(g.s);
    boot, flush := CrashIsRecovered(g.s, 0, pubField', single);
    assert Disk([]) == [] && [] + [p2] + [p1] == [p2, p1];
    hide Inv, Recovers, Disk, NewDirectory;
    assert CrashFiles(g.s, 0) == [] && SlaveCache(g.s) == Logged([], p2) && MasterCache(g.s) == Logged([], p1);
  }

  /** A large payload is logged and claims the slave, which the worker then writes but does not clear. */
  lemma FirstWritten(p: seq<byte>, pubField: seq<byte>, x: Setting) returns (g: Gauged)
    requires Large(p, x.page) && |pubField| == PUB_FIELD_SIZE
    ensures Reaches(NewDirectory(1, pubField, x.page), g, x)
    ensures g.s.logged == [p] && g.s.worker == AtClear && Disk(g.s.core.files) == [p]
    ensures g.s.core == Core([], Logged([], p), false, true, g.s.core.files, true, pubField)
  {
    var t := Carry(NewCapacity(x.page), FirstCapacity(p, x.page), [p], [true]);
    var c := Core([], Logged([], p), false, true, [], false, pubField);
    OneParses(p);
    LoggedParses([], p);
    WrittenIsOnDisk(c, x.single);
    hide Reaches, Logged, CapacityAfter, NewCapacity, ParseItems, Disk;
    FirstLogClaims(p, pubField, x);
    assert [DrainTask] + [] == [DrainTask];
    OneWrites(t, c, Out, [], x);
    g := Draining(t, WriteData(WriteHeader(UpdateFilePath(c, x.single))), Out, [], AtClear);
    ReachesOn(NewDirectory(1, pubField, x.page), Single(t, c, Out, [DrainTask]), g, x);
  }

  /** A crash between the write of a chunk and the clearing of the slave: the payload comes twice. */
  lemma CrashRepeats(p: seq<byte>, pubField: seq<byte>, pubField': seq<byte>, single: nat, page: nat)
    returns (g: Gauged, boot: seq<Event>, flush: seq<Event>)
    requires Large(p, page) && page >= 1 && |pubField| == PUB_FIELD_SIZE && |pubField'| == PUB_FIELD_SIZE
    ensures Reaches(NewDirectory(1, pubField, page), g, UndisturbedCode(single, page))
    ensures g.s.logged == [p] && CrashPoint(g.s, 0) && FilesFit(g.s)
    ensures Recovers(g.s, 0, pubField', boot, flush, single, [p, p])
  {
    var x := UndisturbedCode(single, page);
    OneParses(p);
    assert ParseItems([]) == [];
    hide Reaches, Logged, ParseItems, Disk;
    g := FirstWritten(p, pubField, x);
    ReachedIsSound(g, pubField, x);
    InvWorks(g.s);
    boot, flush := CrashIsRecovered(g.s, 0, pubField', single);
    assert [p] + [] + [p] == [p, p];
    hide Inv, Recovers, NewDirectory;
    assert CrashFiles(g.s, 0) == g.s.core.files && SlaveCache(g.s) == [] && MasterCache(g.s) == Logged([], p);
  }
}
