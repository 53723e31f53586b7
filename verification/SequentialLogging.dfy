/**
 One thread that logs any messages one after the other and then flushes. Such a run exists for all messages
 and for all outcomes of the looks at the master's fill, the code's own among them, and what the parser then
 prints is exactly those messages.
 */
module SequentialLogging {
  import opened Wrappers
  import opened Bytes
  import opened Framing
  import opened Wire
  import opened SinkCore
  import opened SinkProtocol
  import opened SinkRuns
  import opened AnyRuns
  import opened LoneFlush
  import opened FillReadings
  import opened Pipeline
  import opened EndToEnd
  import Buf = MMapBuffer

  /** It is readable, and it can be sealed into one item. */
  ghost predicate Loggable(c: Codec, secret: seq<byte>, m: Msg) {
    && Fits(m) && Readable(m, c.utf8)
    && var sealed := Seal(c, secret, Serialize(m));
       sealed.Done? && Short(sealed.value)
  }

  ghost predicate AllLoggable(c: Codec, secret: seq<byte>, msgs: seq<Msg>) {
    forall i :: 0 <= i < |msgs| ==> Loggable(c, secret, msgs[i])
  }

  function PayloadsOf(c: Codec, secret: seq<byte>, msgs: seq<Msg>): seq<seq<byte>> {
    if msgs == [] then []
    else
      (match Seal(c, secret, Serialize(msgs[0]))
       case Failed => []
       case Done(p) => [p])
      + PayloadsOf(c, secret, msgs[1..])
  }

  /** The bytes that payloads take in a cache. */
  function CacheSize(payloads: seq<seq<byte>>): nat {
    if payloads == [] then 0 else ITEM_HEADER_SIZE + |payloads[0]| + CacheSize(payloads[1..])
  }

  lemma PayloadsStep(c: Codec, secret: seq<byte>, msgs: seq<Msg>)
    requires msgs != [] && AllLoggable(c, secret, msgs)
    ensures var sealed := Seal(c, secret, Serialize(msgs[0]));
      && sealed.Done? && Short(sealed.value) && Fits(msgs[0]) && Readable(msgs[0], c.utf8)
      && PayloadsOf(c, secret, msgs) == [sealed.value] + PayloadsOf(c, secret, msgs[1..])
      && AllLoggable(c, secret, msgs[1..])
  {
    hide Seal, Serialize, Readable, Fits;
    assert Loggable(c, secret, msgs[0]);
  }

  lemma {:induction false} PayloadsReadBack(c: Codec, clientKey: seq<byte>, serverKey: seq<byte>, msgs: seq<Msg>)
    requires Lawful(c)
    requires AllLoggable(c, c.agree(clientKey, c.publicKey(serverKey)), msgs)
    ensures var payloads := PayloadsOf(c, c.agree(clientKey, c.publicKey(serverKey)), msgs);
      ReadBack(c, serverKey, Tag(c.publicKey(clientKey), payloads)) == msgs
  {
    var secret, key := c.agree(clientKey, c.publicKey(serverKey)), c.publicKey(clientKey);
    if msgs == [] {
    } else {
      PayloadsStep(c, secret, msgs);
      var p := Seal(c, secret, Serialize(msgs[0])).value;
      var rest := PayloadsOf(c, secret, msgs[1..]);
      SealedIsReadBack(c, clientKey, serverKey, msgs[0]);
      assert c.agree(serverKey, key) == secret;
      hide Seal, Serialize, AllLoggable, PayloadsOf, ParseOne;
      PayloadsReadBack(c, clientKey, serverKey, msgs[1..]);
      hide Lawful;
      OneReadBack(c, serverKey, key, p, msgs[0]);
      TagAppend(key, [p], rest);
      hide ReadBack, Tag;
      ReadBackAppend(c, serverKey, Tag(key, [p]), Tag(key, rest));
      assert [msgs[0]] + msgs[1..] == msgs;
    }
  }

  lemma OneReadBack(c: Codec, serverKey: seq<byte>, key: seq<byte>, p: seq<byte>, m: Msg)
    requires ParseOne(c, c.agree(serverKey, key), p) == Done(m)
    ensures ReadBack(c, serverKey, Tag(key, [p])) == [m]
  {
    hide ParseOne;
    assert Tag(key, [p]) == [Entry(key, p)];
    assert ReadBack(c, serverKey, []) == [];
  }

  /** What the code reads after an item has gone into the master. */
  predicate CodeReads(t: Gauged, c: Core, p: seq<byte>, page: nat)
    requires page >= 1
  {
    Buf.NearlyFull(|c.master| + ITEM_HEADER_SIZE + |p|, CapacityAfter(t.master, |c.master|, p, page))
  }

  /**
   The payloads are logged one after the other, with the code's own readings if x says so and else with any
   readings wished for. The worker does nothing meanwhile; the first reading above the limit claims the slave.
   */
  lemma {:induction false} AllReached(payloads: seq<seq<byte>>, wish: seq<bool>, t: Gauged, c: Core, queue: seq<Task>,
                                      x: Setting)
    returns (t': Gauged, c': Core, queue': seq<Task>)
    requires forall i :: 0 <= i < |payloads| ==> Short(payloads[i])
    requires |wish| == |payloads| && |c.master| + CacheSize(payloads) < U64 && (c.slaveFree ==> c.slave == [])
    ensures Reaches(Single(t, c, Out, queue), Single(t', c', Out, queue'), x)
    ensures t'.s.logged == t.s.logged + payloads
    ensures !x.measured ==> t'.readings == t.readings + wish
    decreases |payloads|
  {
    hide Reaches;
    if payloads == [] {
      t', c', queue' := t, c, queue;
      ReachesItself(Single(t, c, Out, queue), x);
    } else {
      var p := payloads[0];
      var above := if x.measured then CodeReads(t, c, p, x.page) else wish[0];
      OneLogs(t, c, queue, p, above, x);
      var t1, c1, queue1 := AfterLog(t, c, p, above, x.page), LogCore(c, p, above), LogQueue(queue, above);
      LogCoreFacts(c, p, above);
      assert t1.s.logged == t.s.logged + [p] && t1.readings == t.readings + [above];
      hide AfterLog, LogCore, LogQueue, CodeReads, Logged;
      t', c', queue' := AllReached(payloads[1..], wish[1..], t1, c1, queue1, x);
      ReachesOn(Single(t, c, Out, queue), Single(t1, c1, Out, queue1), Single(t', c', Out, queue'), x);
      ConcatAssociates(t.s.logged, [p], payloads[1..]);
      ConcatAssociates(t.readings, [above], wish[1..]);
      assert [p] + payloads[1..] == payloads && [wish[0]] + wish[1..] == wish;
    }
  }

  lemma LogCoreFacts(c: Core, p: seq<byte>, above: bool)
    requires c.slaveFree ==> c.slave == []
    ensures var c1 := LogCore(c, p, above);
      (c1.slaveFree ==> c1.slave == []) && |c1.master| <= |c.master| + ITEM_HEADER_SIZE + |p|
  {
  }

  lemma {:induction false} PayloadsAreShort(c: Codec, secret: seq<byte>, msgs: seq<Msg>)
    requires AllLoggable(c, secret, msgs)
    ensures forall i :: 0 <= i < |PayloadsOf(c, secret, msgs)| ==> Short(PayloadsOf(c, secret, msgs)[i])
    ensures |PayloadsOf(c, secret, msgs)| == |msgs|
  {
    hide Seal, Serialize;
    if msgs == [] {
    } else {
      PayloadsStep(c, secret, msgs);
      PayloadsAreShort(c, secret, msgs[1..]);
    }
  }

  /** The sink is constructed in a new directory and the messages are logged. */
  lemma SessionReached(payloads: seq<seq<byte>>, wish: seq<bool>, pubField: seq<byte>, x: Setting) returns (g: Gauged)
    requires forall i :: 0 <= i < |payloads| ==> Short(payloads[i])
    requires |wish| == |payloads| && CacheSize(payloads) < U64
    ensures Reaches(NewDirectory(1, pubField, x.page), g, x)
    ensures g.s.threads == [Out] && g.s.logged == payloads
    ensures !x.measured ==> g.readings == wish
  {
    var t := NewDirectory(1, pubField, x.page);
    assert t.s.logged == [] && t.readings == [];
    assert [] + payloads == payloads && [] + wish == wish;
    hide Reaches, NewDirectory;
    OneBoots(pubField, x);
    var c := FreshCore(pubField);
    var t', c', queue' := AllReached(payloads, wish, t, c, [], x);
    g := Single(t', c', Out, queue');
    ReachesOn(t, Single(t, c, Out, []), g, x);
  }

  /**
   After any undisturbed run from a new directory that ends with the one thread outside, a flush can put all
   on disk.
   */
  lemma FlushAfter(g: Gauged, pubField: seq<byte>, x: Setting) returns (flush: seq<Event>)
    requires x.test && x.read && |pubField| == PUB_FIELD_SIZE
    requires Reaches(NewDirectory(1, pubField, x.page), g, x) && g.s.threads == [Out]
    ensures Run(g.s, [StartFlush(0)] + flush, x.single).Some?
    ensures var s' := Run(g.s, [StartFlush(0)] + flush, x.single).value;
      && s'.threads == [Out]
      && Disk(s'.core.files) == g.s.logged
      && forall i :: 0 <= i < |s'.core.files| ==> GoodFile(s'.core.files[i], pubField)
  {
    hide Reaches, Inv, Total, GoodFile, Disk, Apply;
    var events := ReachesIsRun(NewDirectory(1, pubField, x.page), g, x);
    OrderIsKept(1, pubField, events, x.single);
    PubFieldStays(Booting(1, [], [], [], pubField, []), events, x.single);
    hide Run, Undisturbed;
    InvWorks(g.s);
    flush := FlushHasEnd(g.s, 0, x.single);
    FlushReturns(g.s, 0, flush, x.single);
    OneThreadStays(g.s, [StartFlush(0)] + flush, x.single);
  }

  /**
   Any messages, logged one after the other and flushed, can be read back: exactly these, in this order. Such
   a run exists for every list of outcomes of the looks at the fill, and for those that the code itself reads.
   */
  lemma LogFlushRead(c: Codec, clientKey: seq<byte>, serverKey: seq<byte>, padding: seq<byte>, msgs: seq<Msg>,
                     wish: seq<bool>, single: nat, page: nat, measured: bool)
    returns (g: Gauged, flush: seq<Event>)
    requires Lawful(c) && KEY_LEN + |padding| == PUB_FIELD_SIZE && page >= 1 && |wish| == |msgs|
    requires var secret := c.agree(clientKey, c.publicKey(serverKey));
      AllLoggable(c, secret, msgs) && CacheSize(PayloadsOf(c, secret, msgs)) < U64
    ensures Reaches(NewDirectory(1, c.publicKey(clientKey) + padding, page), g,
                    RawSetting(single, page, measured, true, true))
    ensures !measured ==> g.readings == wish
    ensures Run(g.s, [StartFlush(0)] + flush, single).Some?
    ensures var s' := Run(g.s, [StartFlush(0)] + flush, single).value;
      s'.threads == [Out] && ReadFiles(c, serverKey, s'.core.files) == msgs
  {
    var secret := c.agree(clientKey, c.publicKey(serverKey));
    var pubField := c.publicKey(clientKey) + padding;
    assert |pubField| == PUB_FIELD_SIZE && pubField[..KEY_LEN] == c.publicKey(clientKey);
    PayloadsReadBack(c, clientKey, serverKey, msgs);
    PayloadsAreShort(c, secret, msgs);
    hide Lawful, AllLoggable, PayloadsOf, CacheSize, Reaches, NewDirectory, Run, GoodFile, Disk, ReadFiles, ReadBack,
        Tag, Short;
    var x := RawSetting(single, page, measured, true, true);
    g := SessionReached(PayloadsOf(c, secret, msgs), wish, pubField, x);
    flush := FlushAfter(g, pubField, x);
    FilesAreReadBack(c, serverKey, Run(g.s, [StartFlush(0)] + flush, single).value.core.files, pubField);
  }

  lemma {:induction false} OneThreadStays(s: State, events: seq<Event>, single: nat)
    requires Run(s, events, single).Some?
    ensures |Run(s, events, single).value.threads| == |s.threads|
    decreases |events|
  {
    if events == [] {
    } else {
      StepKeepsThreads(s, events[0], single);
      hide Apply;
      OneThreadStays(Apply(s, events[0], single).value, events[1..], single);
    }
  }

  lemma StepKeepsThreads(s: State, e: Event, single: nat)
    requires Apply(s, e, single).Some?
    ensures |Apply(s, e, single).value.threads| == |s.threads|
  {
    hide MutexFree, Constructed, ChunkHeader, ItemHeader;
  }
}
