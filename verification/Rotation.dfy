/**
 Sizes of the log files over any run of the sink: a chunk only ever goes into a file that is not yet
 over the limit, so a file exceeds it by at most a header and the data written last. This needs no
 assumption on claims; if they are undisturbed, what was written last is one complete chunk. File names are
 taken to be fresh.
 */
module Rotation {
  import opened Wrappers
  import opened Bytes
  import opened Framing
  import opened SinkCore
  import opened SinkProtocol
  import opened SinkInvariant
  import opened SinkRuns

  // ---- Any run ----

  /** The size of the last data write to each file of this process, after one more event. */
  function SizesNext(sizes: seq<nat>, s: State, e: Event, single: nat): seq<nat> {
    if e.Work? && s.worker == AtPath && ValidCore(s.core)
       && |UpdateFilePath(s.core, single).files| > |s.core.files| then sizes + [0]
    else if e.Work? && s.worker == AtData && sizes != [] then sizes[|sizes| - 1 := |s.core.slave|]
    else sizes
  }

  function LastWrites(sizes: seq<nat>, s: State, events: seq<Event>, single: nat): seq<nat>
    decreases |events|
  {
    if events == [] then sizes
    else
      match Apply(s, events[0], single)
      case None => sizes
      case Some(s') => LastWrites(SizesNext(sizes, s, events[0], single), s', events[1..], single)
  }

  /** All files but the last are over the limit, and none by more than a header and its last write. */
  ghost predicate Bounded(s: State, sizes: seq<nat>, single: nat) {
    var c := s.core;
    && |c.files| == s.base + |sizes| && (c.isOpen <==> sizes != [])
    && (s.worker in {AtHeader, AtData} ==> c.isOpen)
    && (forall j :: s.base <= j < |c.files| - 1 ==>
          single < |c.files[j]| <= single + CHUNK_HEADER_SIZE + sizes[j - s.base])
    && (sizes != [] ==>
          |c.files[|c.files| - 1]| <= single + match s.worker
            case AtHeader => 0
            case AtData => CHUNK_HEADER_SIZE
            case _ => CHUNK_HEADER_SIZE + sizes[|sizes| - 1])
  }

  lemma ThreadsKeepBounds(s: State, e: Event, single: nat, s': State, sizes: seq<nat>)
    requires Apply(s, e, single) == Some(s') && Bounded(s, sizes, single) && !e.Work?
    ensures Bounded(s', SizesNext(sizes, s, e, single), single)
  {
    EventTargets(s, e, single, s');
    CachesAfterThread(s, e, single, s');
    hide Apply;
  }

  lemma WorkKeepsBounds(s: State, e: Event, single: nat, s': State, sizes: seq<nat>)
    requires Apply(s, e, single) == Some(s') && Bounded(s, sizes, single) && e.Work?
    ensures Bounded(s', SizesNext(sizes, s, e, single), single)
  {
    hide ChunkHeader;
  }

  lemma {:induction false} RunKeepsBounds(s: State, events: seq<Event>, single: nat, sizes: seq<nat>)
    requires Bounded(s, sizes, single) && Run(s, events, single).Some?
    ensures Bounded(Run(s, events, single).value, LastWrites(sizes, s, events, single), single)
    decreases |events|
  {
    hide Apply, Bounded, SizesNext;
    if events == [] {
    } else {
      var e := events[0];
      var s' := Apply(s, e, single).value;
      if e.Work? {
        WorkKeepsBounds(s, e, single, s', sizes);
      } else {
        ThreadsKeepBounds(s, e, single, s', sizes);
      }
      RunKeepsBounds(s', events[1..], single, SizesNext(sizes, s, e, single));
    }
  }

  /**
   Over any run of a sink constructed over whatever an earlier process left, disturbed claims included, every
   file it writes is at most the limit plus a chunk header plus the data written to it last, and it begins
   another file only when the last one is over the limit.
   */
  lemma FilesStayBounded(n: nat, masterCache: seq<byte>, slaveCache: seq<byte>, files: seq<seq<byte>>,
                         pubField: seq<byte>, logged: seq<seq<byte>>, events: seq<Event>, single: nat, i: nat)
    requires n >= 1 && Run(Booting(n, masterCache, slaveCache, files, pubField, logged), events, single).Some?
    requires var s := Run(Booting(n, masterCache, slaveCache, files, pubField, logged), events, single).value;
      |files| <= i < |s.core.files|
    ensures var s0 := Booting(n, masterCache, slaveCache, files, pubField, logged);
      var s := Run(s0, events, single).value;
      var sizes := LastWrites([], s0, events, single);
      && |s.core.files| == |files| + |sizes|
      && (i < |s.core.files| - 1 ==> |s.core.files[i]| > single)
      && |s.core.files[i]| <= single + CHUNK_HEADER_SIZE + sizes[i - |files|]
  {
    var s0 := Booting(n, masterCache, slaveCache, files, pubField, logged);
    assert s0.base == |files| && Bounded(s0, [], single);
    hide Bounded, Booting;
    RunKeepsBounds(s0, events, single, []);
    BaseStays(s0, events, single);
    hide Run, LastWrites;
    BoundAt(Run(s0, events, single).value, LastWrites([], s0, events, single), single, i);
  }

  lemma BoundAt(s: State, sizes: seq<nat>, single: nat, i: nat)
    requires Bounded(s, sizes, single) && s.base <= i < |s.core.files|
    ensures |s.core.files| == s.base + |sizes|
    ensures i < |s.core.files| - 1 ==> |s.core.files[i]| > single
    ensures |s.core.files[i]| <= single + CHUNK_HEADER_SIZE + sizes[i - s.base]
  {
  }

  lemma BaseStays(s: State, events: seq<Event>, single: nat)
    requires Run(s, events, single).Some?
    ensures Run(s, events, single).value.base == s.base
  {
    PubFieldStays(s, events, single);
  }

  // ---- Undisturbed runs ----

  /** A last chunk behind at most single bytes. */
  ghost predicate EndsInChunk(f: seq<byte>, pubField: seq<byte>, single: nat)
    requires |pubField| == PUB_FIELD_SIZE
  {
    exists front: seq<byte>, data: seq<byte> :: |front| <= single && f == front + EncodeChunk(pubField, data)
  }

  ghost predicate HeaderBehind(f: seq<byte>, pubField: seq<byte>, size: nat, single: nat)
    requires |pubField| == PUB_FIELD_SIZE
  {
    exists front: seq<byte> :: |front| <= single && f == front + ChunkHeader(pubField, size)
  }

  /** All but the last file are over the limit; each ends in the chunk that brought it there. */
  ghost predicate Rotated(s: State, single: nat) {
    var c := s.core;
    && |c.pubField| == PUB_FIELD_SIZE && s.base <= |c.files|
    && (forall i :: s.base <= i < |c.files| - 1 ==>
          |c.files[i]| > single && EndsInChunk(c.files[i], c.pubField, single))
    && (s.base < |c.files| ==>
          var f := c.files[|c.files| - 1];
          match s.worker
          case AtHeader => |f| <= single
          case AtData => HeaderBehind(f, c.pubField, |c.slave|, single)
          case _ => EndsInChunk(f, c.pubField, single))
  }

  lemma ThreadsRotate(s: State, e: Event, single: nat, s': State)
    requires Steps(s, e, single, s') && Rotated(s, single) && !e.Work?
    ensures Rotated(s', single)
  {
    EventTargets(s, e, single, s');
    CachesAfterThread(s, e, single, s');
    assert ThreadsInv(s);
    hide Inv, Apply, EndsInChunk, HeaderBehind, ClaimUndisturbed;
  }

  lemma HeaderGoesBehind(f: seq<byte>, pubField: seq<byte>, size: nat, single: nat)
    requires |pubField| == PUB_FIELD_SIZE && |f| <= single
    ensures HeaderBehind(f + ChunkHeader(pubField, size), pubField, size, single)
  {
  }

  lemma DataCompletesChunk(f: seq<byte>, pubField: seq<byte>, data: seq<byte>, single: nat)
    requires |pubField| == PUB_FIELD_SIZE && HeaderBehind(f, pubField, |data|, single)
    ensures EndsInChunk(f + data, pubField, single)
  {
    var front: seq<byte> :| |front| <= single && f == front + ChunkHeader(pubField, |data|);
    hide ChunkHeader;
    assert f + data == front + EncodeChunk(pubField, data);
  }

  lemma PathRotates(s: State, e: Event, single: nat, s': State)
    requires Steps(s, e, single, s') && Rotated(s, single) && e.Work? && s.worker == AtPath
    ensures Rotated(s', single)
  {
    hide EndsInChunk, HeaderBehind, GoodFile, HalfWritten, ChunkHeader;
    assert FilesInv(s);
    hide Inv, ClaimUndisturbed;
    assert s' == s.(core := UpdateFilePath(s.core, single), worker := AtHeader);
    hide Apply, Steps;
    assert s.core.isOpen <==> |s.core.files| > s.base;
    hide FilesInv;
    NewFileRotates(s, single);
  }

  lemma NewFileRotates(s: State, single: nat)
    requires Rotated(s, single) && s.worker == AtPath && ValidCore(s.core)
    requires (s.core.isOpen <==> |s.core.files| > s.base)
    ensures Rotated(s.(core := UpdateFilePath(s.core, single), worker := AtHeader), single)
  {
    hide EndsInChunk, HeaderBehind;
  }

  lemma HeaderRotates(s: State, e: Event, single: nat, s': State)
    requires Steps(s, e, single, s') && Rotated(s, single) && e.Work? && s.worker == AtHeader
    ensures Rotated(s', single)
  {
    var c := s.core;
    hide EndsInChunk, HeaderBehind, GoodFile, HalfWritten, ChunkHeader;
    assert FilesInv(s);
    hide Inv, ClaimUndisturbed;
    HeaderGoesBehind(c.files[|c.files| - 1], c.pubField, |c.slave|, single);
  }

  lemma DataRotates(s: State, e: Event, single: nat, s': State)
    requires Steps(s, e, single, s') && Rotated(s, single) && e.Work? && s.worker == AtData
    ensures Rotated(s', single)
  {
    var c := s.core;
    hide EndsInChunk, HeaderBehind, GoodFile, HalfWritten, ChunkHeader;
    assert FilesInv(s);
    hide Inv, ClaimUndisturbed;
    DataCompletesChunk(c.files[|c.files| - 1], c.pubField, c.slave, single);
  }

  lemma OtherWorkRotates(s: State, e: Event, single: nat, s': State)
    requires Steps(s, e, single, s') && Rotated(s, single) && e.Work? && s.worker !in {AtPath, AtHeader, AtData}
    ensures Rotated(s', single)
  {
    hide Inv, ClaimUndisturbed, EndsInChunk, HeaderBehind;
  }

  lemma {:induction false} RunRotates(s: State, events: seq<Event>, single: nat)
    requires Inv(s) && Rotated(s, single) && Undisturbed(s, events, single) && Run(s, events, single).Some?
    ensures Rotated(Run(s, events, single).value, single)
    decreases |events|
  {
    if events == [] {
    } else {
      var e := events[0];
      var s' := Apply(s, e, single).value;
      assert Steps(s, e, single, s');
      hide Apply, Inv, Rotated, ClaimUndisturbed;
      InvKept(s, e, single, s');
      if !e.Work? {
        ThreadsRotate(s, e, single, s');
      } else {
        match s.worker
        case AtPath => PathRotates(s, e, single, s');
        case AtHeader => HeaderRotates(s, e, single, s');
        case AtData => DataRotates(s, e, single, s');
        case _ => OtherWorkRotates(s, e, single, s');
      }
      hide Steps;
      RunRotates(s', events[1..], single);
    }
  }

  /**
   Over any undisturbed run of a sink constructed over whatever an earlier process left, every file it writes
   ends in a complete chunk that began within the limit.
   */
  lemma FilesEndInChunk(n: nat, masterCache: seq<byte>, slaveCache: seq<byte>, files: seq<seq<byte>>,
                         pubField: seq<byte>, logged: seq<seq<byte>>, events: seq<Event>, single: nat, i: nat)
    requires n >= 1 && |pubField| == PUB_FIELD_SIZE && |masterCache| < U64 && |slaveCache| < U64
    requires var s0 := Booting(n, masterCache, slaveCache, files, pubField, logged);
      Undisturbed(s0, events, single) && Run(s0, events, single).Some?
    requires var s := Run(Booting(n, masterCache, slaveCache, files, pubField, logged), events, single).value;
      s.base <= i < |s.core.files| && (i < |s.core.files| - 1 || s.worker !in {AtHeader, AtData})
    ensures var s := Run(Booting(n, masterCache, slaveCache, files, pubField, logged), events, single).value;
      && (i < |s.core.files| - 1 ==> |s.core.files[i]| > single)
      && exists front: seq<byte>, data: seq<byte> ::
           |front| <= single && s.core.files[i] == front + EncodeChunk(pubField, data)
           && |s.core.files[i]| <= single + CHUNK_HEADER_SIZE + |data|
  {
    var s0 := Booting(n, masterCache, slaveCache, files, pubField, logged);
    assert Rotated(s0, single);
    hide Inv, Apply;
    BootingInv(n, masterCache, slaveCache, files, pubField, logged);
    RunRotates(s0, events, single);
    PubFieldStays(s0, events, single);
    var s := Run(s0, events, single).value;
    assert EndsInChunk(s.core.files[i], pubField, single);
    hide Rotated, Undisturbed, Run;
    var front: seq<byte>, data: seq<byte> :|
      |front| <= single && s.core.files[i] == front + EncodeChunk(pubField, data);
  }
}
