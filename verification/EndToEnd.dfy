/**
 From log calls to what the parser prints: a run of the sink without a crash in a new directory, with
 any number of threads, then a flush, then the parser over the log files in creation order.
 */
module EndToEnd {
  import opened Wrappers
  import opened Bytes
  import opened Framing
  import opened Wire
  import opened EffectiveMsgs
  import opened SinkCore
  import opened SinkProtocol
  import opened SinkInvariant
  import opened SinkRuns
  import opened Pipeline

  // ---- Payloads are logged in the order in which the calls take the mutex ----

  function Held(pc: Pc): seq<seq<byte>> {
    if pc.HeaderPushed? then [pc.payload] else []
  }

  /** The payloads whose header, but not yet they themselves, is in the master: at most one. */
  function Pending(threads: seq<Pc>): seq<seq<byte>> {
    if threads == [] then [] else Held(threads[0]) + Pending(threads[1..])
  }

  function Started(events: seq<Event>): seq<seq<byte>> {
    if events == [] then [] else (if events[0].StartLog? then [events[0].payload] else []) + Started(events[1..])
  }

  lemma {:induction false} PendingOnly(threads: seq<Pc>, t: nat)
    requires t < |threads| && forall i :: 0 <= i < |threads| && i != t ==> Held(threads[i]) == []
    ensures Pending(threads) == Held(threads[t])
  {
    if t > 0 {
      PendingOnly(threads[1..], t - 1);
    } else {
      PendingNone(threads[1..]);
    }
  }

  lemma {:induction false} PendingNone(threads: seq<Pc>)
    requires forall i :: 0 <= i < |threads| ==> Held(threads[i]) == []
    ensures Pending(threads) == []
  {
    if threads == [] {
    } else {
      PendingNone(threads[1..]);
    }
  }

  lemma {:induction false} PendingUpdate(threads: seq<Pc>, t: nat, pc: Pc)
    requires t < |threads| && Held(threads[t]) == Held(pc)
    ensures Pending(threads[t := pc]) == Pending(threads)
  {
    if t == 0 {
      assert threads[t := pc][1..] == threads[1..];
    } else {
      assert threads[t := pc][1..] == threads[1..][t - 1 := pc];
      PendingUpdate(threads[1..], t - 1, pc);
    }
  }

  lemma StepCounts(s: State, e: Event, single: nat, s': State)
    requires Steps(s, e, single, s')
    ensures s'.logged + Pending(s'.threads) == s.logged + Pending(s.threads) + Started([e])
  {
    EventTargets(s, e, single, s');
    assert Started([e]) == if e.StartLog? then [e.payload] else [];
    match e
    case StartLog(t, p) => StartCounts(s, e, single, s');
    case StartFlush(t) => PendingUpdate(s.threads, t, FlushBegin);
    case Work => WorkCounts(s, e, single, s');
    case Step(t, _) =>
      if s.threads[t].HeaderPushed? {
        PayloadCounts(s, e, single, s');
      } else {
        ThreadCounts(s, e, single, s');
      }
  }

  lemma StartCounts(s: State, e: Event, single: nat, s': State)
    requires Steps(s, e, single, s') && e.StartLog?
    ensures s'.logged + Pending(s'.threads) == s.logged + Pending(s.threads) + [e.payload]
  {
    hide Inv;
    PendingNone(s.threads);
    PendingOnly(s'.threads, e.t);
  }

  lemma PayloadCounts(s: State, e: Event, single: nat, s': State)
    requires Steps(s, e, single, s') && e.Step? && e.t < |s.threads| && s.threads[e.t].HeaderPushed?
    ensures s'.logged + Pending(s'.threads) == s.logged + Pending(s.threads)
  {
    hide WorkerInv, QueueInv, NotStranded, FramedInv, FilesInv, SoloShape;
    assert ThreadsInv(s);
    hide Inv, ClaimUndisturbed;
    assert s'.threads == s.threads[e.t := Appended] && s'.logged == s.logged + Held(s.threads[e.t]);
    assert forall i :: 0 <= i < |s.threads| && i != e.t ==> !HoldsMutex(s.threads[i]);
    hide ThreadsInv, Steps, Apply;
    PendingOnly(s.threads, e.t);
    PendingNone(s'.threads);
  }

  lemma ThreadCounts(s: State, e: Event, single: nat, s': State)
    requires Steps(s, e, single, s') && e.Step? && e.t < |s.threads| && !s.threads[e.t].HeaderPushed?
    ensures s'.logged + Pending(s'.threads) == s.logged + Pending(s.threads)
  {
    hide Inv, MutexFree;
    assert s'.threads == s.threads[e.t := s'.threads[e.t]] && !s'.threads[e.t].HeaderPushed?;
    PendingUpdate(s.threads, e.t, s'.threads[e.t]);
  }

  lemma WorkCounts(s: State, e: Event, single: nat, s': State)
    requires Steps(s, e, single, s') && e.Work?
    ensures s'.logged + Pending(s'.threads) == s.logged + Pending(s.threads)
  {
    hide Inv, UpdateFilePath, WriteHeader, WriteData;
    if s'.threads != s.threads {
      var t := s.queue[0].t;
      PendingUpdate(s.threads, t, AfterWait(s.threads[t].stage));
    }
  }

  lemma StartedHead(events: seq<Event>)
    requires events != []
    ensures Started(events) == Started([events[0]]) + Started(events[1..])
  {
    assert [events[0]][1..] == [];
  }

  /** What is logged, and then what is being logged, are the payloads of the calls in the order they began. */
  lemma {:induction false} LoggedInCallOrder(s: State, events: seq<Event>, single: nat)
    requires Inv(s) && Undisturbed(s, events, single) && Run(s, events, single).Some?
    ensures var s' := Run(s, events, single).value;
      s'.logged + Pending(s'.threads) == s.logged + Pending(s.threads) + Started(events)
    decreases |events|
  {
    if events == [] {
      assert s.logged + Pending(s.threads) + [] == s.logged + Pending(s.threads);
    } else {
      hide Apply, Inv, Pending, Undisturbed, Run, Steps, Started;
      var e := events[0];
      RunHead(s, events, single);
      var s1 := Apply(s, e, single).value;
      InvKept(s, e, single, s1);
      StepCounts(s, e, single, s1);
      LoggedInCallOrder(s1, events[1..], single);
      StartedHead(events);
      ConcatAssociates(s.logged + Pending(s.threads), Started([e]), Started(events[1..]));
    }
  }

  // ---- Messages ----

  /** A log call, with what the clock and the system say during it, or any other event. */
  datatype Call = LogCall(t: nat, msg: LogMsg, now: int64, pid: int32, tid: int32) | Other(e: Event)

  function Formatted(a: Call): Msg
    requires a.LogCall?
  {
    MsgOf(a.msg, a.now, a.pid, a.tid)
  }

  /** Process ids are positive, and the message's bytes can be counted in a signed 32-bit integer. */
  predicate IsCall(a: Call) {
    match a
    case LogCall(_, _, _, pid, _) => pid > 0 && Fits(Formatted(a))
    case Other(e) => !e.StartLog?
  }

  /** The events of the sink that the calls amount to; a message that failed to be sealed would be dropped. */
  function Lower(c: Codec, secret: seq<byte>, calls: seq<Call>): seq<Event> {
    if calls == [] then [] else LowerOne(c, secret, calls[0]) + Lower(c, secret, calls[1..])
  }

  function LowerOne(c: Codec, secret: seq<byte>, call: Call): seq<Event> {
    match call
    case Other(e) => [e]
    case LogCall(t, _, _, _, _) =>
      match Seal(c, secret, Serialize(Formatted(call)))
      case Failed => []
      case Done(p) => [StartLog(t, p)]
  }

  /** All logged messages. */
  function AllMsgs(calls: seq<Call>): seq<Msg> {
    if calls == [] then [] else MsgsOf(calls[0]) + AllMsgs(calls[1..])
  }

  function MsgsOf(call: Call): seq<Msg> {
    if call.LogCall? then [Formatted(call)] else []
  }

  /** What is left of each message in decoding. */
  function AllSeen(msgs: seq<Msg>, utf8: seq<byte> -> bool): (r: seq<Msg>)
    ensures |r| == |msgs|
  {
    seq(|msgs|, i requires 0 <= i < |msgs| => Seen(msgs[i], utf8))
  }

  predicate AllReadable(msgs: seq<Msg>, utf8: seq<byte> -> bool) {
    forall i :: 0 <= i < |msgs| ==> Readable(msgs[i], utf8)
  }

  /** They are all unchanged exactly when they are all readable. */
  lemma AllSeenIff(msgs: seq<Msg>, utf8: seq<byte> -> bool)
    ensures AllSeen(msgs, utf8) == msgs <==> AllReadable(msgs, utf8)
  {
    assert forall m: Msg {:trigger Seen(m, utf8)} :: Seen(m, utf8) == m <==> Readable(m, utf8);
    if AllSeen(msgs, utf8) == msgs {
      assert forall i :: 0 <= i < |msgs| ==> AllSeen(msgs, utf8)[i] == Seen(msgs[i], utf8);
    }
  }

  function Logs(calls: seq<Call>): nat {
    if calls == [] then 0 else (if calls[0].LogCall? then 1 else 0) + Logs(calls[1..])
  }

  /** The message carries what the call was made with; strings behind the first one that is not valid are missing. */
  predicate Shows(m: Msg, a: Call, utf8: seq<byte> -> bool)
    requires a.LogCall?
  {
    && m.level == a.msg.level && m.timestamp == a.now && m.pid == a.pid && m.tid == a.tid
    && m.line == a.msg.line && m.fileName == a.msg.fileName
    && (a.msg.fileName == [] || utf8(a.msg.fileName) ==>
          && m.funcName == a.msg.funcName
          && (a.msg.funcName == [] || utf8(a.msg.funcName) ==> m.logInfo == a.msg.text))
  }

  /** One message for each log call, in order, and each with what its call was made with. */
  lemma {:induction false} EachIsShown(calls: seq<Call>, utf8: seq<byte> -> bool)
    ensures |AllSeen(AllMsgs(calls), utf8)| == Logs(calls)
    ensures forall i :: 0 <= i < |calls| && calls[i].LogCall? ==>
      Logs(calls[..i]) < Logs(calls) && Shows(AllSeen(AllMsgs(calls), utf8)[Logs(calls[..i])], calls[i], utf8)
  {
    if calls == [] {
    } else {
      var rest := calls[1..];
      EachIsShown(rest, utf8);
      forall i | 0 <= i < |calls| && calls[i].LogCall?
        ensures Logs(calls[..i]) < Logs(calls)
        ensures Shows(AllSeen(AllMsgs(calls), utf8)[Logs(calls[..i])], calls[i], utf8)
      {
        if i > 0 {
          assert calls[..i][1..] == rest[..i - 1] && calls[i] == rest[i - 1];
        }
      }
    }
  }

  lemma AllSeenAppend(a: seq<Msg>, b: seq<Msg>, utf8: seq<byte> -> bool)
    ensures AllSeen(a + b, utf8) == AllSeen(a, utf8) + AllSeen(b, utf8)
  {
  }

  /** What the parser prints for all files, in creation order. */
  function ReadFiles(c: Codec, serverKey: seq<byte>, files: seq<seq<byte>>): seq<Msg> {
    if files == [] then []
    else
      ReadFiles(c, serverKey, files[..|files| - 1])
      + ReadBack(c, serverKey, ParseFile(files[|files| - 1], KEY_LEN).entries)
  }

  lemma {:induction false} ReadBackAppend(c: Codec, serverKey: seq<byte>, a: seq<Entry>, b: seq<Entry>)
    ensures ReadBack(c, serverKey, a + b) == ReadBack(c, serverKey, a) + ReadBack(c, serverKey, b)
  {
    if a == [] {
      assert a + b == b;
    } else {
      assert (a + b)[1..] == a[1..] + b;
      ReadBackAppend(c, serverKey, a[1..], b);
    }
  }

  lemma {:induction false} StartedAppend(a: seq<Event>, b: seq<Event>)
    ensures Started(a + b) == Started(a) + Started(b)
  {
    if a == [] {
      assert a + b == b;
    } else {
      assert (a + b)[1..] == a[1..] + b;
      StartedAppend(a[1..], b);
    }
  }

  /** Reading back the payloads of the calls gives the messages of the calls, as far as decoding gets. */
  lemma {:induction false} CallsAreReadBack(c: Codec, clientKey: seq<byte>, serverKey: seq<byte>, calls: seq<Call>)
    requires Lawful(c)
    requires forall i :: 0 <= i < |calls| ==> IsCall(calls[i])
    ensures var events := Lower(c, c.agree(clientKey, c.publicKey(serverKey)), calls);
      ReadBack(c, serverKey, Tag(c.publicKey(clientKey), Started(events))) == AllSeen(AllMsgs(calls), c.utf8)
  {
    if calls == [] {
    } else {
      var secret := c.agree(clientKey, c.publicKey(serverKey));
      var key := c.publicKey(clientKey);
      var rest := Lower(c, secret, calls[1..]);
      var first := Lower(c, secret, [calls[0]]);
      LowerSplits(c, secret, calls);
      FirstIsReadBack(c, clientKey, serverKey, calls[0]);
      CallsAreReadBack(c, clientKey, serverKey, calls[1..]);
      hide Lower, AllMsgs, AllSeen, ReadBack, Tag, Started, Lawful;
      AllSeenAppend(AllMsgs([calls[0]]), AllMsgs(calls[1..]), c.utf8);
      StartedAppend(first, rest);
      TagAppend(key, Started(first), Started(rest));
      ReadBackAppend(c, serverKey, Tag(key, Started(first)), Tag(key, Started(rest)));
    }
  }

  lemma LowerSplits(c: Codec, secret: seq<byte>, calls: seq<Call>)
    requires calls != []
    ensures Lower(c, secret, calls) == Lower(c, secret, [calls[0]]) + Lower(c, secret, calls[1..])
    ensures AllMsgs(calls) == AllMsgs([calls[0]]) + AllMsgs(calls[1..])
  {
    hide LowerOne, MsgsOf;
    assert [calls[0]][1..] == [];
    assert LowerOne(c, secret, calls[0]) + [] == LowerOne(c, secret, calls[0]);
    assert MsgsOf(calls[0]) + [] == MsgsOf(calls[0]);
  }

  lemma FirstIsReadBack(c: Codec, clientKey: seq<byte>, serverKey: seq<byte>, call: Call)
    requires Lawful(c) && IsCall(call)
    ensures var events := Lower(c, c.agree(clientKey, c.publicKey(serverKey)), [call]);
      ReadBack(c, serverKey, Tag(c.publicKey(clientKey), Started(events))) == AllSeen(AllMsgs([call]), c.utf8)
  {
    var secret := c.agree(clientKey, c.publicKey(serverKey));
    hide Seal, ParseOne, Serialize, Readable;
    if call.LogCall? {
      FormattedIsReadBack(c, clientKey, serverKey, call.msg, call.now, call.pid, call.tid);
      hide Lawful;
    }
  }

  // ---- Files ----

  /** All entries of a good file carry the sink's own key. */
  lemma GoodEntries(f: seq<byte>, pubField: seq<byte>)
    requires |pubField| == PUB_FIELD_SIZE && GoodFile(f, pubField)
    ensures ParseFile(f, KEY_LEN).entries == Tag(pubField[..KEY_LEN], FilePayloads(f))
  {
    hide ParseFile, WellFormed;
  }

  lemma {:induction false} WellFormedParses(f: seq<byte>)
    requires WellFormed(f)
    ensures ParseFile(f, KEY_LEN).rc == 0
    decreases |f|
  {
    if f == [] {
    } else {
      WellFormedParses(AfterChunk(f));
    }
  }

  lemma {:induction false} FilesAreReadBack(c: Codec, serverKey: seq<byte>, files: seq<seq<byte>>, pubField: seq<byte>)
    requires |pubField| == PUB_FIELD_SIZE && forall i :: 0 <= i < |files| ==> GoodFile(files[i], pubField)
    ensures ReadFiles(c, serverKey, files) == ReadBack(c, serverKey, Tag(pubField[..KEY_LEN], Disk(files)))
  {
    hide GoodFile, ReadBack;
    if files == [] {
      NothingReadBack(c, serverKey, pubField[..KEY_LEN]);
    } else {
      var front := files[..|files| - 1];
      var last := files[|files| - 1];
      FilesAreReadBack(c, serverKey, front, pubField);
      GoodEntries(last, pubField);
      TagAppend(pubField[..KEY_LEN], Disk(front), FilePayloads(last));
      ReadBackAppend(c, serverKey, Tag(pubField[..KEY_LEN], Disk(front)), ParseFile(last, KEY_LEN).entries);
    }
  }

  lemma NothingReadBack(c: Codec, serverKey: seq<byte>, key: seq<byte>)
    ensures ReadBack(c, serverKey, Tag(key, [])) == []
  {
  }

  // ---- The whole way ----

  /** A run from a new directory that ends with everyone outside has logged the payloads of its calls, in order. */
  lemma AllLogged(n: nat, pubField: seq<byte>, events: seq<Event>, single: nat, t: nat)
    requires n >= 1 && |pubField| == PUB_FIELD_SIZE
    requires var s0 := Booting(n, [], [], [], pubField, []);
      Undisturbed(s0, events, single) && Run(s0, events, single).Some?
    requires var s := Run(Booting(n, [], [], [], pubField, []), events, single).value;
      OthersOut(s, t) && s.threads[t] == Out
    ensures var s := Run(Booting(n, [], [], [], pubField, []), events, single).value;
      Inv(s) && Total(s) == Started(events) && s.base == 0 && s.core.pubField == pubField
  {
    var s0 := Booting(n, [], [], [], pubField, []);
    var s := Run(s0, events, single).value;
    assert s0.logged == [] && s0.core.pubField == pubField && s0.base == 0;
    assert forall i :: 0 <= i < |s0.threads| ==> Held(s0.threads[i]) == [];
    assert forall i :: 0 <= i < |s.threads| ==> Held(s.threads[i]) == [];
    hide Inv, Apply, Total, Undisturbed, Run, Booting, Held, OthersOut, Started;
    BootingInv(n, [], [], [], pubField, []);
    OrderIsKept(n, pubField, events, single);
    LoggedInCallOrder(s0, events, single);
    PubFieldStays(s0, events, single);
    PendingNone(s0.threads);
    PendingNone(s.threads);
    assert s.logged + [] == s.logged && [] + [] + Started(events) == Started(events);
  }

  lemma FlushedFilesAreGood(s: State)
    requires Inv(s) && s.base == 0 && Flushed(s)
    ensures |s.core.pubField| == PUB_FIELD_SIZE
    ensures forall i :: 0 <= i < |s.core.files| ==> GoodFile(s.core.files[i], s.core.pubField)
  {
    assert FilesInv(s);
    hide Inv, GoodFile;
  }

  /**
   Once a flush has returned, the parser prints one message for every log call, in the order of the calls: what
   decoding leaves of it, so exactly the logged messages if and only if these are all readable. Every log file
   parses on its own without an error. This holds for any number of threads and any interleaving that leaves
   claims undisturbed.
   */
  lemma LoggedIsPrinted(c: Codec, clientKey: seq<byte>, serverKey: seq<byte>, padding: seq<byte>, n: nat,
                        calls: seq<Call>, flush: seq<Event>, t: nat, single: nat)
    requires Lawful(c) && n >= 1 && KEY_LEN + |padding| == PUB_FIELD_SIZE
    requires forall i :: 0 <= i < |calls| ==> IsCall(calls[i])
    requires var s0 := Booting(n, [], [], [], c.publicKey(clientKey) + padding, []);
      var events := Lower(c, c.agree(clientKey, c.publicKey(serverKey)), calls);
      Undisturbed(s0, events, single) && Run(s0, events, single).Some?
    requires var s0 := Booting(n, [], [], [], c.publicKey(clientKey) + padding, []);
      var s := Run(s0, Lower(c, c.agree(clientKey, c.publicKey(serverKey)), calls), single).value;
      && OthersOut(s, t) && s.threads[t] == Out
      && AllSolo(flush, t)
      && Run(s, [StartFlush(t)] + flush, single).Some?
      && var s' := Run(s, [StartFlush(t)] + flush, single).value;
      t < |s'.threads| && s'.threads[t] == Out
    ensures var s0 := Booting(n, [], [], [], c.publicKey(clientKey) + padding, []);
      var s := Run(s0, Lower(c, c.agree(clientKey, c.publicKey(serverKey)), calls), single).value;
      var files := Run(s, [StartFlush(t)] + flush, single).value.core.files;
      && ReadFiles(c, serverKey, files) == AllSeen(AllMsgs(calls), c.utf8)
      && (ReadFiles(c, serverKey, files) == AllMsgs(calls) <==> AllReadable(AllMsgs(calls), c.utf8))
      && |ReadFiles(c, serverKey, files)| == Logs(calls)
      && (forall i :: 0 <= i < |calls| && calls[i].LogCall? ==>
            && Logs(calls[..i]) < Logs(calls)
            && Shows(ReadFiles(c, serverKey, files)[Logs(calls[..i])], calls[i], c.utf8))
      && forall i :: 0 <= i < |files| ==> ParseFile(files[i], KEY_LEN).rc == 0
  {
    var pubField := c.publicKey(clientKey) + padding;
    assert |pubField| == PUB_FIELD_SIZE && pubField[..KEY_LEN] == c.publicKey(clientKey);
    var events := Lower(c, c.agree(clientKey, c.publicKey(serverKey)), calls);
    CallsAreReadBack(c, clientKey, serverKey, calls);
    AllSeenIff(AllMsgs(calls), c.utf8);
    EachIsShown(calls, c.utf8);
    hide Shows, Logs, Lawful, IsCall, Lower, AllMsgs, AllSeen, AllReadable, Undisturbed, Apply, Inv, Started, ReadBack,
        ReadFiles, Tag, ParseFile, GoodFile;
    var s0 := Booting(n, [], [], [], pubField, []);
    var s := Run(s0, events, single).value;
    AllLogged(n, pubField, events, single, t);
    FlushReturns(s, t, flush, single);
    var s' := Run(s, [StartFlush(t)] + flush, single).value;
    FilesAreReadBack(c, serverKey, s'.core.files, pubField);
    forall i | 0 <= i < |s'.core.files|
      ensures ParseFile(s'.core.files[i], KEY_LEN).rc == 0
    {
      GoodMeansWellFormed(s'.core.files[i], pubField);
      WellFormedParses(s'.core.files[i]);
    }
  }

  lemma GoodMeansWellFormed(f: seq<byte>, pubField: seq<byte>)
    requires |pubField| == PUB_FIELD_SIZE && GoodFile(f, pubField)
    ensures WellFormed(f)
  {
  }

  lemma FlushReturns(s: State, t: nat, flush: seq<Event>, single: nat)
    requires Inv(s) && s.base == 0 && OthersOut(s, t) && s.threads[t] == Out && AllSolo(flush, t)
    requires Run(s, [StartFlush(t)] + flush, single).Some?
    requires var s' := Run(s, [StartFlush(t)] + flush, single).value;
      t < |s'.threads| && s'.threads[t] == Out
    ensures var s' := Run(s, [StartFlush(t)] + flush, single).value;
      && Disk(s'.core.files) == Total(s)
      && |s'.core.pubField| == PUB_FIELD_SIZE && s'.core.pubField == s.core.pubField
      && forall i :: 0 <= i < |s'.core.files| ==> GoodFile(s'.core.files[i], s'.core.pubField)
  {
    assert ([StartFlush(t)] + flush)[1..] == flush;
    assert ([StartFlush(t)] + flush)[0] == StartFlush(t);
    var s' := Run(s, [StartFlush(t)] + flush, single).value;
    PubFieldStays(s, [StartFlush(t)] + flush, single);
    hide Inv, Apply, Total, GoodFile;
    UndisturbedFlush(s, t, flush, single);
    hide Run;
    FlushedFilesAreGood(s');
  }
}
