/**
 A program that constructs the sink object, logs messages one after the other and flushes: what the parser then
 prints for the files the sink has written. Between two calls the runner may or may not work off its queue.
 */
module Sessions {
  import opened Wrappers
  import opened Bytes
  import opened Framing
  import opened Wire
  import opened EffectiveMsgs
  import opened SinkCore
  import opened SinkProtocol
  import opened Pipeline
  import opened EndToEnd
  import opened SequentialLogging
  import opened EffectiveSinks
  import Buf = MMapBuffer

  // ---- What the sink has added to the files it found ----

  /** Behind the files found there are only good ones under the sink's own key, and nothing logged is missing. */
  ghost predicate Ours(c: Core, found: seq<seq<byte>>, pubField: seq<byte>, payloads: seq<seq<byte>>) {
    && |pubField| == PUB_FIELD_SIZE && c.pubField == pubField
    && found <= c.files
    && (c.isOpen <==> |c.files| > |found|)
    && (forall i :: |found| <= i < |c.files| ==> GoodFile(c.files[i], pubField))
    && WellFramed(c.master)
    && Disk(c.files) + ParseItems(c.slave) + ParseItems(c.master) == Disk(found) + payloads
  }

  lemma AppendKeepsOurs(c: Core, found: seq<seq<byte>>, pubField: seq<byte>, payloads: seq<seq<byte>>, p: seq<byte>)
    requires Ours(c, found, pubField, payloads) && |p| < U32
    ensures Ours(Append(c, FrameItem(p)), found, pubField, payloads + [p])
  {
    FrameItemParses(p);
    ShortFrame(p);
    ParseItemsAppend(c.master, FrameItem(p));
    hide ParseItems, WellFramed, GoodFile, Disk, FrameItem, Cut;
    ConcatAssociates(Disk(c.files) + ParseItems(c.slave), ParseItems(c.master), [p]);
    ConcatAssociates(Disk(found), payloads, [p]);
  }

  lemma ClaimKeepsOurs(c: Core, found: seq<seq<byte>>, pubField: seq<byte>, payloads: seq<seq<byte>>)
    requires Ours(c, found, pubField, payloads) && (c.slaveFree ==> c.slave == [])
    ensures Ours(Claim(c), found, pubField, payloads)
  {
    NothingParses();
    assert WellFramed([]);
    hide ParseItems, WellFramed, GoodFile, Disk;
    assert Disk(c.files) + [] + ParseItems(c.master) == Disk(c.files) + ParseItems(c.master) + [];
  }

  /** One chunk more behind a good file, or in a new one. */
  lemma ChunkIsGood(f: seq<byte>, pubField: seq<byte>, data: seq<byte>)
    requires |pubField| == PUB_FIELD_SIZE && GoodFile(f, pubField) && |data| < Framing.U64
    ensures GoodFile(f + EncodeChunk(pubField, data), pubField)
  {
    var chunk := EncodeChunk(pubField, data);
    ChunkBehind(f, pubField, data, |chunk|);
    hide ParseFile, WellFormed, EncodeChunk, ParseItems;
  }

  lemma NewFileIsGood(pubField: seq<byte>)
    requires |pubField| == PUB_FIELD_SIZE
    ensures GoodFile([], pubField)
  {
  }

  lemma ChosenFilesAreGood(c: Core, found: seq<seq<byte>>, pubField: seq<byte>, single: nat)
    requires ValidCore(c) && |pubField| == PUB_FIELD_SIZE && found <= c.files && (c.isOpen <==> |c.files| > |found|)
    requires forall i :: |found| <= i < |c.files| ==> GoodFile(c.files[i], pubField)
    ensures var files := UpdateFilePath(c, single).files;
      found <= files && |files| > |found| && forall i :: |found| <= i < |files| ==> GoodFile(files[i], pubField)
  {
    NewFileIsGood(pubField);
    hide GoodFile;
  }

  lemma DrainedFilesAreGood(c: Core, found: seq<seq<byte>>, pubField: seq<byte>, single: nat)
    requires Sane(c) && !c.slaveFree && c.slave != []
    requires |pubField| == PUB_FIELD_SIZE && c.pubField == pubField
    requires found <= c.files && (c.isOpen <==> |c.files| > |found|)
    requires forall i :: |found| <= i < |c.files| ==> GoodFile(c.files[i], pubField)
    ensures var files := Drain(c, single).files;
      found <= files && |files| > |found| && forall i :: |found| <= i < |files| ==> GoodFile(files[i], pubField)
  {
    hide GoodFile, WellFormed, EncodeChunk, Drain, UpdateFilePath;
    ChosenFilesAreGood(c, found, pubField, single);
    DrainedFiles(c, single);
    var u := UpdateFilePath(c, single);
    ChunkIsGood(u.files[|u.files| - 1], pubField, c.slave);
  }

  lemma DrainKeepsOurs(c: Core, single: nat, found: seq<seq<byte>>, pubField: seq<byte>, payloads: seq<seq<byte>>)
    requires Sane(c) && Ours(c, found, pubField, payloads)
    ensures Ours(Drain(c, single), found, pubField, payloads)
  {
    DrainIsSane(c, single);
    NothingParses();
    hide ParseItems, WellFramed, WellFormed, GoodFile, Disk;
    if c.slaveFree || c.slave == [] {
    } else {
      DrainPutsOnDisk(c, single);
      DrainedFilesAreGood(c, found, pubField, single);
      hide Drain;
      assert Disk(c.files) + ParseItems(c.slave) + [] == Disk(c.files) + ParseItems(c.slave);
    }
  }

  lemma FlushKeepsOurs(c: Core, single: nat, found: seq<seq<byte>>, pubField: seq<byte>, payloads: seq<seq<byte>>)
    requires Sane(c) && Ours(c, found, pubField, payloads)
    ensures Ours(FlushedCore(c, single), found, pubField, payloads)
  {
    hide Drain, Ours, Disk, ParseItems, WellFormed;
    var d := Drain(c, single);
    DrainIsSane(c, single);
    DrainKeepsOurs(c, single, found, pubField, payloads);
    ClaimKeepsOurs(d, found, pubField, payloads);
    ClaimIsSane(d);
    DrainKeepsOurs(Claim(d), single, found, pubField, payloads);
  }

  // ---- Reading it back ----

  lemma {:induction false} DiskAppend(a: seq<seq<byte>>, b: seq<seq<byte>>)
    ensures Disk(a + b) == Disk(a) + Disk(b)
  {
    hide FilePayloads;
    if b == [] {
      assert a + b == a;
    } else {
      assert (a + b)[..|a + b| - 1] == a + b[..|b| - 1];
      DiskAppend(a, b[..|b| - 1]);
    }
  }

  /** With the caches empty, the sink's own files hold the payloads. */
  lemma OursOnDisk(c: Core, found: seq<seq<byte>>, pubField: seq<byte>, payloads: seq<seq<byte>>)
    requires Ours(c, found, pubField, payloads) && c.slave == [] && c.master == []
    ensures Disk(c.files[|found|..]) == payloads
    ensures forall i :: 0 <= i < |c.files| - |found| ==> GoodFile(c.files[|found|..][i], pubField)
  {
    NothingParses();
    hide ParseItems, GoodFile, Disk, WellFramed;
    assert c.files == found + c.files[|found|..];
    DiskAppend(found, c.files[|found|..]);
    assert Disk(found) + Disk(c.files[|found|..]) == Disk(found) + payloads;
    assert Disk(c.files[|found|..]) == (Disk(found) + payloads)[|Disk(found)|..];
  }

  // ---- The calls ----

  /** What a call puts into the cache. */
  function Sealed(c: Codec, secret: seq<byte>, a: Call): Outcome<seq<byte>>
    requires a.LogCall?
  {
    Seal(c, secret, Serialize(Formatted(a)))
  }

  /** A log call that the code can serve: positive process id, sizes within 32 bits. */
  predicate Servable(c: Codec, secret: seq<byte>, a: Call) {
    a.LogCall? && IsCall(a) && (Sealed(c, secret, a).Done? ==> |Sealed(c, secret, a).value| < U32)
  }

  /** The payloads of the calls. */
  function PayloadsOfCalls(c: Codec, secret: seq<byte>, calls: seq<Call>): seq<seq<byte>> {
    Started(Lower(c, secret, calls))
  }

  lemma {:induction false} LowerAppend(c: Codec, secret: seq<byte>, a: seq<Call>, b: seq<Call>)
    ensures Lower(c, secret, a + b) == Lower(c, secret, a) + Lower(c, secret, b)
  {
    hide LowerOne;
    if a == [] {
      assert a + b == b;
    } else {
      assert (a + b)[1..] == a[1..] + b;
      LowerAppend(c, secret, a[1..], b);
    }
  }

  lemma NextPayload(c: Codec, secret: seq<byte>, calls: seq<Call>, i: nat)
    requires i < |calls| && Servable(c, secret, calls[i])
    ensures PayloadsOfCalls(c, secret, calls[..i + 1])
         == PayloadsOfCalls(c, secret, calls[..i])
            + if Sealed(c, secret, calls[i]).Done? then [Sealed(c, secret, calls[i]).value] else []
  {
    hide Seal, Serialize;
    assert calls[..i + 1] == calls[..i] + [calls[i]];
    LowerAppend(c, secret, calls[..i], [calls[i]]);
    StartedAppend(Lower(c, secret, calls[..i]), Lower(c, secret, [calls[i]]));
    assert Lower(c, secret, [calls[i]]) == LowerOne(c, secret, calls[i]);
  }

  lemma {:induction false} CacheSizeAppend(a: seq<seq<byte>>, b: seq<seq<byte>>)
    ensures CacheSize(a + b) == CacheSize(a) + CacheSize(b)
  {
    if a == [] {
      assert a + b == b;
    } else {
      assert (a + b)[1..] == a[1..] + b;
      CacheSizeAppend(a[1..], b);
    }
  }
  // ---- The program ----

  /** The caches are new, or were left empty, and the keys belong together. */
  ghost predicate Starts(g: Config, clientKey: seq<byte>, serverKey: seq<byte>) {
    && ValidConfig(g) && Lawful(g.codec)
    && CacheContent(g.masterCache, g.page) == [] && CacheContent(g.slaveCache, g.page) == []
    && g.clientKey == g.codec.publicKey(clientKey)
    && g.secret == g.codec.agree(clientKey, g.codec.publicKey(serverKey))
  }

  /** Everything fits into one cache. */
  predicate AllServable(c: Codec, secret: seq<byte>, calls: seq<Call>) {
    && (forall i :: 0 <= i < |calls| ==> Servable(c, secret, calls[i]))
    && 16 + CacheSize(PayloadsOfCalls(c, secret, calls)) < Framing.U64
  }

  /** The sink while the calls are made, the first n of them so far. */
  ghost predicate Serving(c: Core, g: Config, calls: seq<Call>, n: nat)
    requires n <= |calls|
  {
    var payloads := PayloadsOfCalls(g.codec, g.secret, calls[..n]);
    && |g.clientKey + g.padding| == PUB_FIELD_SIZE
    && Sane(c) && Ours(c, g.files, g.clientKey + g.padding, payloads) && |c.master| <= CacheSize(payloads)
  }

  lemma ServingStarts(g: Config, calls: seq<Call>)
    requires ValidConfig(g)
    requires CacheContent(g.masterCache, g.page) == [] && CacheContent(g.slaveCache, g.page) == []
    ensures Recovered(Found(g), g.single) == Found(g) && Serving(Found(g), g, calls, 0)
  {
    NothingParses();
    assert WellFramed([]);
    hide CacheContent, Disk, ParseItems, WellFramed, GoodFile;
    assert calls[..0] == [];
    assert Disk(g.files) + [] + [] == Disk(g.files) + [];
  }

  lemma PrefixFits(c: Codec, secret: seq<byte>, calls: seq<Call>, n: nat)
    requires n <= |calls|
    ensures CacheSize(PayloadsOfCalls(c, secret, calls[..n])) <= CacheSize(PayloadsOfCalls(c, secret, calls))
  {
    hide Lower, Started, CacheSize;
    assert calls == calls[..n] + calls[n..];
    LowerAppend(c, secret, calls[..n], calls[n..]);
    StartedAppend(Lower(c, secret, calls[..n]), Lower(c, secret, calls[n..]));
    CacheSizeAppend(PayloadsOfCalls(c, secret, calls[..n]), PayloadsOfCalls(c, secret, calls[n..]));
  }

  lemma AppendIsSane(c: Core, p: seq<byte>)
    requires Sane(c) && |p| < U32 && |c.master| + ITEM_HEADER_SIZE + |p| < Framing.U64
    ensures Sane(Append(c, FrameItem(p))) && |Append(c, FrameItem(p)).master| == |c.master| + ITEM_HEADER_SIZE + |p|
  {
    ShortFrame(p);
    hide WellFormed, FrameItem;
  }

  lemma MasterAfterClaim(c: Core)
    requires Sane(c)
    ensures |Claim(c).master| <= |c.master|
  {
    hide WellFormed;
  }

  lemma CacheSizeSnoc(payloads: seq<seq<byte>>, p: seq<byte>)
    ensures CacheSize(payloads + [p]) == CacheSize(payloads) + ITEM_HEADER_SIZE + |p|
  {
    CacheSizeAppend(payloads, [p]);
    assert CacheSize([p]) == ITEM_HEADER_SIZE + |p|;
  }

  /** A call has room, and what Log promises is what the next state needs. */
  lemma ServingLog(c: Core, g: Config, calls: seq<Call>, n: nat)
    requires n < |calls| && AllServable(g.codec, g.secret, calls) && Serving(c, g, calls, n)
    ensures var sealed := Sealed(g.codec, g.secret, calls[n]);
      if sealed.Failed? then Serving(c, g, calls, n + 1)
      else
        && 16 + |c.master| + ITEM_HEADER_SIZE + |sealed.value| < Framing.U64
        && Serving(Append(c, FrameItem(sealed.value)), g, calls, n + 1)
        && Serving(Claim(Append(c, FrameItem(sealed.value))), g, calls, n + 1)
  {
    var sealed := Sealed(g.codec, g.secret, calls[n]);
    var payloads := PayloadsOfCalls(g.codec, g.secret, calls[..n]);
    var pubField := g.clientKey + g.padding;
    assert Servable(g.codec, g.secret, calls[n]);
    NextPayload(g.codec, g.secret, calls, n);
    PrefixFits(g.codec, g.secret, calls, n + 1);
    hide Sealed, IsCall, PayloadsOfCalls, CacheSize, Ours, Sane, Append, Claim, FrameItem;
    if sealed.Failed? {
      assert payloads + [] == payloads;
    } else {
      CacheSizeSnoc(payloads, sealed.value);
      AppendIsSane(c, sealed.value);
      AppendKeepsOurs(c, g.files, pubField, payloads, sealed.value);
      var c1 := Append(c, FrameItem(sealed.value));
      FreeIsEmpty(c1);
      ClaimKeepsOurs(c1, g.files, pubField, payloads + [sealed.value]);
      ClaimIsSane(c1);
      MasterAfterClaim(c1);
    }
  }

  lemma FreeIsEmpty(c: Core)
    requires Sane(c)
    ensures c.slaveFree ==> c.slave == []
  {
    hide Writable;
  }

  lemma ServingDrain(c: Core, g: Config, calls: seq<Call>, n: nat)
    requires n <= |calls| && Serving(c, g, calls, n)
    ensures ValidCore(c) && Serving(Drain(c, g.single), g, calls, n)
  {
    hide Ours, Disk, ParseItems, PayloadsOfCalls, CacheSize, WellFormed, Drain;
    DrainIsSane(c, g.single);
    DrainKeepsOurs(c, g.single, g.files, g.clientKey + g.padding, PayloadsOfCalls(g.codec, g.secret, calls[..n]));
  }

  /** After the last call, a flush has put all on disk, and this is what is printed. */
  lemma ServedIsPrinted(c: Core, g: Config, calls: seq<Call>, clientKey: seq<byte>, serverKey: seq<byte>)
    requires Starts(g, clientKey, serverKey) && AllServable(g.codec, g.secret, calls) && Serving(c, g, calls, |calls|)
    ensures ValidCore(c)
    ensures var files := FlushedCore(c, g.single).files;
      && g.files <= files
      && (forall i :: |g.files| <= i < |files| ==> ParseFile(files[i], KEY_LEN).rc == 0)
      && ReadFiles(g.codec, serverKey, files[|g.files|..]) == AllSeen(AllMsgs(calls), g.codec.utf8)
  {
    var pubField := g.clientKey + g.padding;
    var payloads := PayloadsOfCalls(g.codec, g.secret, calls);
    assert calls[..|calls|] == calls;
    assert |g.clientKey| == KEY_LEN && pubField[..KEY_LEN] == g.clientKey;
    assert forall i :: 0 <= i < |calls| ==> IsCall(calls[i]) by {
      assert forall i :: 0 <= i < |calls| ==> Servable(g.codec, g.secret, calls[i]);
    }
    CallsAreReadBack(g.codec, clientKey, serverKey, calls);
    FlushEmptiesCaches(c, g.single);
    FlushKeepsOurs(c, g.single, g.files, pubField, payloads);
    hide Lawful, Servable, IsCall, Lower, Started, AllMsgs, AllSeen, ReadBack, ReadFiles, Disk, ParseItems, ParseFile,
        FlushedCore, GoodFile, WellFormed, WellFramed, CacheContent, CacheSize, Tag;
    var f := FlushedCore(c, g.single);
    OursOnDisk(f, g.files, pubField, payloads);
    FilesAreReadBack(g.codec, serverKey, f.files[|g.files|..], pubField);
    forall i | |g.files| <= i < |f.files|
      ensures ParseFile(f.files[i], KEY_LEN).rc == 0
    {
      GoodMeansWellFormed(f.files[i], pubField);
      WellFormedParses(f.files[i]);
    }
  }

  lemma {:induction false} AllAreLogs(calls: seq<Call>)
    requires forall i :: 0 <= i < |calls| ==> calls[i].LogCall?
    ensures Logs(calls) == |calls|
  {
    if calls == [] {
    } else {
      AllAreLogs(calls[1..]);
    }
  }

  /** One printed message for each call, in order, with what the call was made with. */
  ghost predicate PrintsAll(c: Codec, serverKey: seq<byte>, files: seq<seq<byte>>, calls: seq<Call>) {
    var printed := ReadFiles(c, serverKey, files);
    && |printed| == |calls|
    && forall i :: 0 <= i < |calls| ==> calls[i].LogCall? && Shows(printed[i], calls[i], c.utf8)
  }

  lemma AllArePrinted(c: Codec, secret: seq<byte>, serverKey: seq<byte>, files: seq<seq<byte>>, calls: seq<Call>)
    requires ReadFiles(c, serverKey, files) == AllSeen(AllMsgs(calls), c.utf8) && AllServable(c, secret, calls)
    ensures PrintsAll(c, serverKey, files, calls)
  {
    assert forall i :: 0 <= i < |calls| ==> Servable(c, secret, calls[i]);
    EachIsShown(calls, c.utf8);
    AllAreLogs(calls);
    hide ReadFiles, AllSeen, AllMsgs, Shows, Sealed, IsCall, CacheSize, PayloadsOfCalls, Logs;
    forall i | 0 <= i < |calls|
      ensures Shows(ReadFiles(c, serverKey, files)[i], calls[i], c.utf8)
    {
      AllAreLogs(calls[..i]);
    }
  }

  method Serve(sink: EffectiveSink, g: Config, calls: seq<Call>, n: nat)
    requires sink.Valid() && sink.codec == g.codec && sink.secret == g.secret
    requires n < |calls| && AllServable(g.codec, g.secret, calls) && Serving(sink.View(), g, calls, n)
    modifies sink, sink.master, sink.slave
    ensures sink.Valid() && {sink.master, sink.slave} == {old(sink.master), old(sink.slave)}
    ensures Serving(sink.View(), g, calls, n + 1)
  {
    ghost var c := sink.View();
    hide EffectiveSink.Valid, EffectiveSink.ValidObjects, EffectiveSink.View, Serving, Seal, Serialize, Append, Claim,
        FrameItem, Buf.Grown, Buf.NearlyFull;
    ServingLog(c, g, calls, n);
    assert Servable(g.codec, g.secret, calls[n]);
    hide AllServable, PayloadsOfCalls, CacheSize;
    var a := calls[n];
    sink.Log(a.msg, a.now, a.pid, a.tid);
  }

  /** The runner works off its queue. */
  method Idle(sink: EffectiveSink, ghost g: Config, ghost calls: seq<Call>, ghost n: nat)
    requires sink.Valid() && sink.single == g.single && n <= |calls| && Serving(sink.View(), g, calls, n)
    modifies sink, sink.slave
    ensures sink.Valid() && sink.master == old(sink.master) && sink.slave == old(sink.slave)
    ensures Serving(sink.View(), g, calls, n)
  {
    ghost var c := sink.View();
    hide EffectiveSink.Valid, EffectiveSink.ValidObjects, EffectiveSink.View, Serving, Drain;
    ServingDrain(c, g, calls, n);
    sink.WaitTaskIdle();
  }

  method ServeAll(sink: EffectiveSink, g: Config, calls: seq<Call>, idle: seq<bool>)
    requires sink.Valid() && sink.codec == g.codec && sink.secret == g.secret && sink.single == g.single
    requires |idle| == |calls| && AllServable(g.codec, g.secret, calls) && Serving(sink.View(), g, calls, 0)
    modifies sink, sink.master, sink.slave
    ensures sink.Valid() && {sink.master, sink.slave} == {old(sink.master), old(sink.slave)}
    ensures Serving(sink.View(), g, calls, |calls|)
  {
    hide Serving, AllServable, EffectiveSink.ValidObjects, EffectiveSink.View, Sane;
    for n := 0 to |calls|
      invariant sink.Valid() && {sink.master, sink.slave} == {old(sink.master), old(sink.slave)}
      invariant Serving(sink.View(), g, calls, n)
    {
      Serve(sink, g, calls, n);
      if idle[n] {
        Idle(sink, g, calls, n + 1);
      }
    }
  }

  /**
   Construct, log, flush: the parser, with the server's key, prints one message for each call, in order and with the
   call's own level, location and text. Files found are still there, in front of the new ones.
   */
  method LogAndFlush(g: Config, calls: seq<Call>, idle: seq<bool>, ghost clientKey: seq<byte>,
                     ghost serverKey: seq<byte>)
    returns (sink: EffectiveSink)
    requires Starts(g, clientKey, serverKey) && AllServable(g.codec, g.secret, calls) && |idle| == |calls|
    ensures fresh(sink) && sink.Valid() && g.files <= sink.files
    ensures forall i :: |g.files| <= i < |sink.files| ==> ParseFile(sink.files[i], KEY_LEN).rc == 0
    ensures PrintsAll(g.codec, serverKey, sink.files[|g.files|..], calls)
  {
    ServingStarts(g, calls);
    hide EffectiveSink.Valid, EffectiveSink.View, Serving, AllServable, FlushedCore, PrintsAll, Recovered, Found;
    sink := new EffectiveSink(g);
    ServeAll(sink, g, calls, idle);
    ServedIsPrinted(sink.View(), g, calls, clientKey, serverKey);
    sink.Flush();
    AllArePrinted(g.codec, g.secret, serverKey, sink.files[|g.files|..], calls);
  }
}
