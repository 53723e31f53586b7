/** Crashes at any step, and what the constructor and a flush make of what they leave. */
module SinkRecovery {
  import opened Wrappers
  import opened Bytes
  import opened Framing
  import opened SinkCore
  import opened SinkProtocol
  import opened SinkInvariant
  import opened SinkRuns
  import opened AnyRuns
  import opened LoneFlush

  // ---- What a crash leaves ----

  /** The cache files keep their names while the cache objects are exchanged. */
  function MasterCache(s: State): seq<byte> {
    if s.core.swapped then s.core.slave else s.core.master
  }

  function SlaveCache(s: State): seq<byte> {
    if s.core.swapped then s.core.master else s.core.slave
  }

  /** How much of the chunk being written may have reached the file: any prefix of it. */
  predicate CrashPoint(s: State, k: nat) {
    s.worker == AtData ==> k <= CHUNK_HEADER_SIZE + |s.core.slave|
  }

  /** The log files after a crash; k counts the bytes of a chunk being written that reached its file. */
  function CrashFiles(s: State, k: nat): seq<seq<byte>>
    requires FilesFit(s) && CrashPoint(s, k)
  {
    var c := s.core;
    if s.worker == AtData then
      var f := c.files[|c.files| - 1];
      c.files[|c.files| - 1 := f[..|f| - CHUNK_HEADER_SIZE] + EncodeChunk(c.pubField, c.slave)[..k]]
    else c.files
  }

  predicate FilesFit(s: State) {
    && |s.core.pubField| == PUB_FIELD_SIZE && |s.threads| > 0
    && (s.worker == AtData ==> s.core.files != [] && |s.core.files[|s.core.files| - 1]| >= CHUNK_HEADER_SIZE)
  }

  /** A new process over what the crash left; it makes itself a new key. */
  function Restart(s: State, k: nat, pubField: seq<byte>): State
    requires FilesFit(s) && CrashPoint(s, k)
  {
    Booting(|s.threads|, MasterCache(s), SlaveCache(s), CrashFiles(s, k), pubField, s.logged)
  }

  /** The slave's items, when they are already on disk but still in the cache. */
  function WrittenTwice(s: State, k: nat): seq<seq<byte>> {
    if s.worker == AtClear || (s.worker == AtData && k == CHUNK_HEADER_SIZE + |s.core.slave|)
    then ParseItems(s.core.slave) else []
  }

  lemma InvFits(s: State)
    requires Inv(s)
    ensures FilesFit(s) && |s.core.master| < U64 && |s.core.slave| < U64
  {
    hide ThreadsInv, WorkerInv, QueueInv, NotStranded, FramedInv, GoodFile;
    assert ThreadsInv(s) ==> |s.threads| > 0 by {
      ThreadsExist(s);
    }
  }

  lemma ThreadsExist(s: State)
    ensures ThreadsInv(s) ==> |s.threads| > 0
  {
  }

  lemma RestartInv(s: State, k: nat, pubField: seq<byte>)
    requires Inv(s) && CrashPoint(s, k) && |pubField| == PUB_FIELD_SIZE
    ensures FilesFit(s) && Inv(Restart(s, k, pubField)) && OthersOut(Restart(s, k, pubField), 0)
    ensures Total(Restart(s, k, pubField))
         == Disk(CrashFiles(s, k)) + ParseItems(SlaveCache(s)) + ParseItems(MasterCache(s))
  {
    InvFits(s);
    hide Inv, OthersOut, CrashFiles;
    BootingInv(|s.threads|, MasterCache(s), SlaveCache(s), CrashFiles(s, k), pubField, s.logged);
  }

  /** The disk after a crash: all complete chunks, and the one being written if all of it got there. */
  lemma DiskAfterCrash(s: State, k: nat)
    requires Inv(s) && CrashPoint(s, k)
    ensures FilesFit(s)
    ensures s.worker == AtData ==>
      Disk(CrashFiles(s, k)) == Disk(s.core.files) + WrittenTwice(s, k)
    ensures s.worker != AtData ==> Disk(CrashFiles(s, k)) == Disk(s.core.files)
  {
    hide Inv, ParseItems, Disk, HalfWritten;
    InvFits(s);
    if s.worker == AtData {
      AtDataFacts(s);
      PrefixOfLastChunk(s.core.files, s.core.pubField, s.core.slave, k);
    }
  }

  lemma AtDataFacts(s: State)
    requires Inv(s) && s.worker == AtData
    ensures s.core.slave != [] && s.core.files != [] && |s.core.pubField| == PUB_FIELD_SIZE
    ensures HalfWritten(s.core.files[|s.core.files| - 1], s.core.pubField, |s.core.slave|)
  {
    hide ThreadsInv, QueueInv, NotStranded, FramedInv, SoloShape, GoodFile, HalfWritten;
  }

  lemma PrefixOfLastChunk(files: seq<seq<byte>>, pubField: seq<byte>, data: seq<byte>, k: nat)
    requires files != [] && data != [] && |data| < U64 && |pubField| == PUB_FIELD_SIZE
    requires HalfWritten(files[|files| - 1], pubField, |data|)
    requires k <= CHUNK_HEADER_SIZE + |data|
    ensures var f := files[|files| - 1];
      Disk(files[|files| - 1 := f[..|f| - CHUNK_HEADER_SIZE] + EncodeChunk(pubField, data)[..k]])
        == Disk(files) + if k == CHUNK_HEADER_SIZE + |data| then ParseItems(data) else []
  {
    var f := files[|files| - 1];
    var g := f[..|f| - CHUNK_HEADER_SIZE];
    hide ParseItems, ChunkHeader, ParseFile, WellFormed;
    assert WellFormed(g) && f == g + ChunkHeader(pubField, |data|);
    hide HalfWritten, GoodFile;
    HeaderAddsNothing(g, pubField, data);
    ChunkBehind(g, pubField, data, k);
    DiskOfLast(files, f);
    DiskOfLast(files, g + EncodeChunk(pubField, data)[..k]);
    assert files[|files| - 1 := f] == files;
    assert |EncodeChunk(pubField, data)| == CHUNK_HEADER_SIZE + |data|;
    hide Disk, FilePayloads, EncodeChunk;
    ConcatAssociates(Disk(files[..|files| - 1]), FilePayloads(g),
                     if k == CHUNK_HEADER_SIZE + |data| then ParseItems(data) else []);
  }

  lemma MultisetOfConcat<T>(a: seq<T>, b: seq<T>)
    ensures multiset(a + b) == multiset(a) + multiset(b)
  {
  }

  lemma Regroup<T(!new)>(d: seq<T>, d': seq<T>, x: seq<T>, w: seq<T>, m: seq<T>, a: seq<T>, b: seq<T>)
    requires multiset(a) + multiset(b) == multiset(x) + multiset(m)
    requires multiset(d') == multiset(d) + multiset(w)
    ensures multiset(d' + a + b) == multiset(d + x + m) + multiset(w)
  {
    MultisetOfConcat(d' + a, b);
    MultisetOfConcat(d', a);
    MultisetOfConcat(d + x, m);
    MultisetOfConcat(d, x);
    var ab, xm := multiset(a) + multiset(b), multiset(x) + multiset(m);
    assert forall e: T :: ab[e] == xm[e];
    assert multiset(d' + a + b) == multiset(d) + multiset(w) + ab;
    assert multiset(d + x + m) + multiset(w) == multiset(d) + multiset(w) + xm;
  }

  lemma CachesArePermuted(s: State)
    ensures multiset(ParseItems(SlaveCache(s))) + multiset(ParseItems(MasterCache(s)))
         == multiset(ParseItems(s.core.slave)) + multiset(ParseItems(s.core.master))
  {
  }

  /** A crash loses nothing, and repeats the slave's items only if it fell between their write and the clearing. */
  lemma CrashConserves(s: State, k: nat, pubField: seq<byte>)
    requires Inv(s) && CrashPoint(s, k) && |pubField| == PUB_FIELD_SIZE
    ensures FilesFit(s)
    ensures multiset(Total(Restart(s, k, pubField))) == multiset(Total(s)) + multiset(WrittenTwice(s, k))
  {
    RestartInv(s, k, pubField);
    DiskAfterCrash(s, k);
    CachesArePermuted(s);
    var d, x, m := Disk(s.core.files), ParseItems(s.core.slave), ParseItems(s.core.master);
    var d', a, b := Disk(CrashFiles(s, k)), ParseItems(SlaveCache(s)), ParseItems(MasterCache(s));
    var w := WrittenTwice(s, k);
    assert Total(s) == d + (if s.worker == AtClear then [] else x) + m;
    assert s.worker == AtClear ==> w == x && d' == d;
    assert s.worker != AtClear ==> d' == d + w || (w == [] && d' == d);
    hide Inv, Disk, ParseItems, Restart, CrashFiles, Total, WrittenTwice, SlaveCache, MasterCache;
    if s.worker == AtClear {
      WrittenNotCleared(d, x, m, a, b);
    } else {
      MultisetOfConcat(d, w);
      Regroup(d, d', x, w, m, a, b);
    }
  }

  lemma WrittenNotCleared<T(!new)>(d: seq<T>, x: seq<T>, m: seq<T>, a: seq<T>, b: seq<T>)
    requires multiset(a) + multiset(b) == multiset(x) + multiset(m)
    ensures multiset(d + a + b) == multiset(d + [] + m) + multiset(x)
  {
    Regroup(d, d, x, [], m, a, b);
    MultisetOfConcat(d + x, m);
    MultisetOfConcat(d, x);
    MultisetOfConcat(d, m);
    assert d + [] == d;
  }

  // ---- Runs with any number of crashes ----

  datatype Act = Do(e: Event) | Crash(k: nat, pubField: seq<byte>)

  /** The state, and all that was written twice, after a list of acts. */
  datatype History = History(s: State, repeated: seq<seq<byte>>)

  function Perform(h: History, a: Act, single: nat): Option<History> {
    match a
    case Do(e) =>
      (match Apply(h.s, e, single)
       case None => None
       case Some(s') => Some(History(s', h.repeated)))
    case Crash(k, pubField) =>
      if |pubField| == PUB_FIELD_SIZE && FilesFit(h.s) && CrashPoint(h.s, k)
      then Some(History(Restart(h.s, k, pubField), h.repeated + WrittenTwice(h.s, k)))
      else None
  }

  function PerformAll(h: History, acts: seq<Act>, single: nat): Option<History>
    decreases |acts|
  {
    if acts == [] then Some(h)
    else
      match Perform(h, acts[0], single)
      case None => None
      case Some(h') => PerformAll(h', acts[1..], single)
  }

  ghost predicate ActsUndisturbed(h: History, acts: seq<Act>, single: nat)
    decreases |acts|
  {
    acts == [] ||
    (&& (acts[0].Do? ==> ClaimUndisturbed(h.s, acts[0].e))
     && (Perform(h, acts[0], single).Some? ==> ActsUndisturbed(Perform(h, acts[0], single).value, acts[1..], single)))
  }

  ghost predicate Conserved(h: History) {
    Inv(h.s) && multiset(Total(h.s)) == multiset(h.s.logged) + multiset(h.repeated)
  }

  lemma PerformConserves(h: History, a: Act, single: nat)
    requires Conserved(h) && Perform(h, a, single).Some?
    requires a.Do? ==> ClaimUndisturbed(h.s, a.e)
    ensures Conserved(Perform(h, a, single).value)
  {
    hide Total, Apply, ClaimUndisturbed, WrittenTwice, Inv;
    match a
    case Do(e) =>
      var s' := Apply(h.s, e, single).value;
      assert Steps(h.s, e, single, s');
      InvKept(h.s, e, single, s');
      TotalKept(h.s, e, single, s');
      MultisetOfConcat(Total(h.s), Completed(h.s, e));
      MultisetOfConcat(h.s.logged, Completed(h.s, e));
    case Crash(k, pubField) =>
      RestartInv(h.s, k, pubField);
      CrashConserves(h.s, k, pubField);
      MultisetOfConcat(h.repeated, WrittenTwice(h.s, k));
  }

  lemma {:induction false} PerformAllConserves(h: History, acts: seq<Act>, single: nat)
    requires Conserved(h) && ActsUndisturbed(h, acts, single) && PerformAll(h, acts, single).Some?
    ensures Conserved(PerformAll(h, acts, single).value)
    decreases |acts|
  {
    if acts == [] {
    } else {
      PerformConserves(h, acts[0], single);
      hide Conserved, Perform;
      PerformAllConserves(Perform(h, acts[0], single).value, acts[1..], single);
    }
  }

  /**
   Through any number of crashes at any steps, the payloads on disk and in the caches are, counted with
   multiplicity, those logged plus those whose chunk a crash caught written but not yet cleared.
   */
  lemma NothingIsLost(n: nat, pubField: seq<byte>, acts: seq<Act>, single: nat)
    requires n >= 1 && |pubField| == PUB_FIELD_SIZE
    requires var h0 := History(Booting(n, [], [], [], pubField, []), []);
      ActsUndisturbed(h0, acts, single) && PerformAll(h0, acts, single).Some?
    ensures var h := PerformAll(History(Booting(n, [], [], [], pubField, []), []), acts, single).value;
      && Inv(h.s)
      && multiset(Total(h.s)) == multiset(h.s.logged) + multiset(h.repeated)
  {
    BootingInv(n, [], [], [], pubField, []);
    assert ParseItems([]) == [] && Disk([]) == [];
    PerformAllConserves(History(Booting(n, [], [], [], pubField, []), []), acts, single);
  }

  // ---- The constructor's run ----

  /** Thread t constructs or flushes alone, or everybody is outside. */
  ghost predicate Calm(s: State, t: nat) {
    Inv(s) && OthersOut(s, t) && (s.threads[t] == Out || (SoloShape(s, t) && InSolo(s.threads[t])))
  }

  lemma OutsideKeeps(s: State, e: Event, single: nat, s': State, t: nat)
    requires Inv(s) && OthersOut(s, t) && s.threads[t] == Out
    requires IsSolo(e, t) && Apply(s, e, single) == Some(s')
    ensures Inv(s') && OthersOut(s', t) && s'.threads[t] == Out
    ensures Total(s') == Total(s) && s'.logged == s.logged && Work2Do(s', t) < Work2Do(s, t)
  {
    assert ClaimUndisturbed(s, e);
    assert Steps(s, e, single, s');
    assert s'.threads == s.threads && Completed(s, e) == [] && Work2Do(s', t) < Work2Do(s, t) by {
      hide FramedInv, FilesInv, NotStranded, SoloShape, WorkerInv;
    }
    hide Inv, Apply, ClaimUndisturbed, Total, Work2Do;
    InvKept(s, e, single, s');
    TotalKept(s, e, single, s');
  }

  lemma CalmKeeps(s: State, e: Event, single: nat, s': State, t: nat)
    requires Calm(s, t) && IsSolo(e, t) && Apply(s, e, single) == Some(s')
    ensures Calm(s', t)
    ensures Total(s') == Total(s) && s'.logged == s.logged && Work2Do(s', t) < Work2Do(s, t)
  {
    hide Inv, Apply, Total, SoloShape, Work2Do, InSolo;
    if s.threads[t] == Out {
      OutsideKeeps(s, e, single, s', t);
    } else {
      SoloKeeps(s, e, single, s', t);
      if e.Work? {
        SoloWorkDecreases(s, e, single, s', t);
      } else {
        SoloStepDecreases(s, e, single, s', t);
      }
    }
  }

  lemma {:induction false} CalmRun(s: State, events: seq<Event>, single: nat, t: nat)
    requires Calm(s, t) && AllSolo(events, t) && Run(s, events, single).Some?
    ensures var s' := Run(s, events, single).value;
      && Calm(s', t) && Total(s') == Total(s) && s'.logged == s.logged
      && |events| + Work2Do(s', t) <= Work2Do(s, t)
    decreases |events|
  {
    if events == [] {
    } else {
      assert IsSolo(events[0], t);
      var s1 := Apply(s, events[0], single).value;
      CalmKeeps(s, events[0], single, s1, t);
      hide Apply, Calm, Total, Work2Do;
      CalmRun(s1, events[1..], single, t);
    }
  }

  lemma BootingParts(n: nat, masterCache: seq<byte>, slaveCache: seq<byte>, files: seq<seq<byte>>,
                     pubField: seq<byte>, logged: seq<seq<byte>>)
    requires n >= 1
    ensures var r := Booting(n, masterCache, slaveCache, files, pubField, logged);
      && |r.threads| > 0 && r.threads[0] == BootSlave
      && SoloShape(r, 0) && InSolo(r.threads[0])
      && Total(r) == Disk(files) + ParseItems(slaveCache) + ParseItems(masterCache)
  {
    hide Disk, ParseItems;
  }

  /**
   Recovery: over whatever caches and files an earlier process left, by a crash at any step of any run, the
   constructor's run is bounded and can always go on until it returns, whatever the worker does meanwhile, and
   it keeps what it found.
   */
  lemma ConstructorCompletes(n: nat, masterCache: seq<byte>, slaveCache: seq<byte>, files: seq<seq<byte>>,
                             pubField: seq<byte>, logged: seq<seq<byte>>, events: seq<Event>, single: nat)
    requires n >= 1 && |pubField| == PUB_FIELD_SIZE && |masterCache| < U64 && |slaveCache| < U64
    requires AllSolo(events, 0)
    requires Run(Booting(n, masterCache, slaveCache, files, pubField, logged), events, single).Some?
    ensures var r := Booting(n, masterCache, slaveCache, files, pubField, logged);
      var s' := Run(r, events, single).value;
      && Calm(s', 0) && Total(s') == Disk(files) + ParseItems(slaveCache) + ParseItems(masterCache)
      && |events| <= Work2Do(r, 0)
      && (s'.threads[0] != Out ==> Apply(s', if s'.threads[0].Waiting? then Work else Step(0, false), single).Some?)
      && (s'.threads[0] == Out ==> Apply(s', StartFlush(0), single).Some?)
  {
    var r := Booting(n, masterCache, slaveCache, files, pubField, logged);
    BootingInv(n, masterCache, slaveCache, files, pubField, logged);
    BootingParts(n, masterCache, slaveCache, files, pubField, logged);
    hide Inv, Total, Booting, SoloShape, Work2Do, Disk, ParseItems;
    CalmRun(r, events, single, 0);
    var s' := Run(r, events, single).value;
    if s'.threads[0] == Out {
      FlushCanStart(s', 0, single);
    } else {
      SoloCanContinue(s', single, 0);
    }
  }

  /**
   Construct, then flush, over whatever an earlier process left: on disk are then the complete chunks that were
   there, the items of the file slave_cache, and the items of the file master_cache, in this order.
   */
  lemma RecoveredDisk(n: nat, masterCache: seq<byte>, slaveCache: seq<byte>, files: seq<seq<byte>>,
                      pubField: seq<byte>, logged: seq<seq<byte>>, boot: seq<Event>, flush: seq<Event>, single: nat)
    requires n >= 1 && |pubField| == PUB_FIELD_SIZE && |masterCache| < U64 && |slaveCache| < U64
    requires AllSolo(boot, 0)
    requires Run(Booting(n, masterCache, slaveCache, files, pubField, logged), boot, single).Some?
    requires var b := Run(Booting(n, masterCache, slaveCache, files, pubField, logged), boot, single).value;
      && |b.threads| > 0 && b.threads[0] == Out && AllSolo(flush, 0)
      && Apply(b, StartFlush(0), single).Some?
      && Run(Apply(b, StartFlush(0), single).value, flush, single).Some?
    ensures var b := Run(Booting(n, masterCache, slaveCache, files, pubField, logged), boot, single).value;
      var f := Run(Apply(b, StartFlush(0), single).value, flush, single).value;
      && |f.threads| > 0
      && (f.threads[0] == Out ==>
            Flushed(f) && Disk(f.core.files) == Disk(files) + ParseItems(slaveCache) + ParseItems(masterCache))
  {
    ConstructorCompletes(n, masterCache, slaveCache, files, pubField, logged, boot, single);
    var b := Run(Booting(n, masterCache, slaveCache, files, pubField, logged), boot, single).value;
    hide Inv, Total, Booting, Apply, Run, Disk, ParseItems;
    UndisturbedFlush(b, 0, flush, single);
  }

  /** Such runs exist: the constructor has a run that returns, and so has a flush after it. */
  lemma RecoveryHasEnd(n: nat, masterCache: seq<byte>, slaveCache: seq<byte>, files: seq<seq<byte>>,
                       pubField: seq<byte>, logged: seq<seq<byte>>, single: nat)
    returns (boot: seq<Event>, flush: seq<Event>)
    requires n >= 1 && |pubField| == PUB_FIELD_SIZE && |masterCache| < U64 && |slaveCache| < U64
    ensures Run(Booting(n, masterCache, slaveCache, files, pubField, logged), boot, single).Some?
    ensures var b := Run(Booting(n, masterCache, slaveCache, files, pubField, logged), boot, single).value;
      && Run(b, [StartFlush(0)] + flush, single).Some?
      && var f := Run(b, [StartFlush(0)] + flush, single).value;
         && Flushed(f)
         && Disk(f.core.files) == Disk(files) + ParseItems(slaveCache) + ParseItems(masterCache)
  {
    var r := Booting(n, masterCache, slaveCache, files, pubField, logged);
    BootingInv(n, masterCache, slaveCache, files, pubField, logged);
    BootingParts(n, masterCache, slaveCache, files, pubField, logged);
    hide Inv, Total, Booting, SoloShape, Disk, ParseItems, Flushed;
    boot := SoloEnds(r, single, 0);
    ConstructorCompletes(n, masterCache, slaveCache, files, pubField, logged, boot, single);
    var b := Run(r, boot, single).value;
    InvWorks(b);
    flush := FlushHasEnd(b, 0, single);
    hide Run, Apply, Working;
    RecoveredDisk(n, masterCache, slaveCache, files, pubField, logged, boot, flush, single);
  }

  // ---- When recovery restores the logging order ----

  ghost predicate Distinct<T(!new)>(a: seq<T>) {
    forall i, j :: 0 <= i < j < |a| ==> a[i] != a[j]
  }

  lemma CommuteIff<T(!new)>(a: seq<T>, b: seq<T>)
    requires Distinct(a + b)
    ensures a + b == b + a <==> a == [] || b == []
  {
    if a != [] && b != [] {
      assert (a + b)[0] == a[0] && (a + b)[|a|] == b[0];
      assert (b + a)[0] == b[0];
    } else if a == [] {
      assert a + b == b + a;
    } else {
      assert a + b == b + a;
    }
  }

  /**
   After one crash of a run that kept the order, recovery puts the payloads on disk in logging order exactly
   when the crash did not catch a chunk with items written but not cleared, and the caches had been exchanged
   an even number of times or their items read the same in either order. One cache without a complete item is
   enough for the latter, and necessary if no two payloads are equal.
   */
  lemma RecoveryOrderIff(s: State, k: nat, pubField: seq<byte>)
    requires Inv(s) && CrashPoint(s, k) && |pubField| == PUB_FIELD_SIZE && FilesFit(s)
    requires Total(s) == s.logged
    ensures var x, m := ParseItems(s.core.slave), ParseItems(s.core.master);
      && (Total(Restart(s, k, pubField)) == s.logged <==>
            WrittenTwice(s, k) == [] && (!s.core.swapped || m + x == x + m))
      && (x == [] || m == [] ==> m + x == x + m)
      && (Distinct(s.logged) && WrittenTwice(s, k) == [] ==> (m + x == x + m <==> x == [] || m == []))
  {
    var d, x, m := Disk(s.core.files), ParseItems(s.core.slave), ParseItems(s.core.master);
    hide Inv, Disk, ParseItems, Restart, CrashFiles, Total, WrittenTwice, Distinct;
    assert x == [] || m == [] ==> m + x == x + m;
    if WrittenTwice(s, k) != [] {
      CrashConserves(s, k, pubField);
      assert |multiset(Total(Restart(s, k, pubField)))| == |multiset(Total(s))| + |multiset(WrittenTwice(s, k))|;
    } else {
      TotalAfterCrash(s, k, pubField);
      SameFront(d, x, m);
      if Distinct(s.logged) {
        SuffixesDecide(d, x, m);
      }
    }
  }

  lemma SameFront<T(!new)>(d: seq<T>, x: seq<T>, m: seq<T>)
    ensures d + m + x == d + x + m <==> m + x == x + m
  {
    ConcatAssociates(d, m, x);
    ConcatAssociates(d, x, m);
    assert (d + (m + x))[|d|..] == m + x;
    assert (d + (x + m))[|d|..] == x + m;
  }

  /** What recovery makes of a crash that repeats nothing: an odd number of exchanges puts the master first. */
  lemma TotalAfterCrash(s: State, k: nat, pubField: seq<byte>)
    requires Inv(s) && CrashPoint(s, k) && |pubField| == PUB_FIELD_SIZE && FilesFit(s) && WrittenTwice(s, k) == []
    ensures var d, x, m := Disk(s.core.files), ParseItems(s.core.slave), ParseItems(s.core.master);
      && Total(s) == d + x + m
      && Total(Restart(s, k, pubField)) == if s.core.swapped then d + m + x else d + x + m
  {
    var d := Disk(s.core.files);
    hide Inv, Disk, ParseItems, Restart, CrashFiles;
    RestartInv(s, k, pubField);
    DiskAfterCrash(s, k);
    assert d + [] == d;
  }

  lemma SuffixesDecide<T(!new)>(d: seq<T>, x: seq<T>, m: seq<T>)
    requires Distinct(d + x + m)
    ensures m + x == x + m <==> x == [] || m == []
  {
    var all := d + x + m;
    assert forall i :: 0 <= i < |x + m| ==> (x + m)[i] == all[|d| + i];
    CommuteIff(x, m);
  }
}
