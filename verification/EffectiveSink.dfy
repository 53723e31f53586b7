/** The sink object: two cache objects, the flag, the log files and the queue of drain tasks. */
module EffectiveSinks {
  import opened Wrappers
  import opened Bytes
  import opened Framing
  import opened Wire
  import opened EffectiveMsgs
  import opened MMapBuffer
  import opened SinkCore
  import opened Pipeline

  /** Everything the constructor is given: the caches' and the directory's contents, and the keys. */
  datatype Config = Config(
    masterCache: seq<byte>, slaveCache: seq<byte>, files: seq<seq<byte>>,
    page: nat, single: nat, clientKey: seq<byte>, secret: seq<byte>, padding: seq<byte>, codec: Codec)

  ghost predicate ValidConfig(g: Config) {
    && g.page >= 1
    && Openable(g.masterCache, g.page) && Openable(g.slaveCache, g.page)
    && |g.clientKey + g.padding| == PUB_FIELD_SIZE
  }

  /** A cache's content once its file is open: empty for a new file, and for any without the magic. */
  function CacheContent(f: seq<byte>, page: nat): seq<byte>
    requires page >= 1 && Openable(f, page)
  {
    OpenReads(f, page);
    Content(Opened(f, page))
  }

  /** What the constructor finds. */
  function Found(g: Config): Core
    requires ValidConfig(g)
  {
    Core(CacheContent(g.masterCache, g.page), CacheContent(g.slaveCache, g.page), true, false, g.files, false,
         g.clientKey + g.padding)
  }

  /** The slave's content, if any, drained; then the master claimed, if it holds anything. */
  function Recovered(c: Core, single: nat): Core
    requires ValidCore(c)
  {
    var c1 := if c.slave == [] then c else Drain(c.(slaveFree := false), single);
    if c1.master == [] then c1 else Claim(c1)
  }

  /** The next chunk goes into a new file, or behind complete chunks. */
  ghost predicate Writable(c: Core) {
    && ValidCore(c)
    && |c.slave| < Framing.U64 && |c.master| < Framing.U64
    && (c.isOpen ==> WellFormed(c.files[|c.files| - 1]))
  }

  /** Once constructed, a free slave is an empty one. */
  ghost predicate Sane(c: Core) {
    Writable(c) && (c.slaveFree ==> c.slave == [])
  }

  /** A drain ends with the slave free and empty and its items on disk. */
  lemma DrainIsSane(c: Core, single: nat)
    requires Sane(c)
    ensures var r := Drain(c, single);
      && Sane(r) && r.slaveFree && r.slave == [] && r.master == c.master
      && Disk(r.files) == Disk(c.files) + ParseItems(c.slave)
  {
    NothingParses();
    hide ParseItems, WellFormed, Disk;
    if c.slaveFree || c.slave == [] {
      assert Drain(c, single) == c.(slaveFree := true);
    } else {
      DrainPutsOnDisk(c, single);
    }
  }

  /** A flush leaves nothing in the caches: it is all on disk, the slave's items first. */
  lemma FlushEmptiesCaches(c: Core, single: nat)
    requires Sane(c)
    ensures var r := FlushedCore(c, single);
      && Sane(r) && r.slaveFree && r.slave == [] && r.master == []
      && Disk(r.files) == Disk(c.files) + ParseItems(c.slave) + ParseItems(c.master)
  {
    hide Drain, ParseItems, WellFormed, Disk;
    DrainIsSane(c, single);
    DrainIsSane(Claim(Drain(c, single)), single);
  }

  /**
   Construction adds and loses nothing, with slave_cache's items before master_cache's; a flush then puts
   them on disk.
   */
  lemma RecoveryConserves(c: Core, single: nat)
    requires Writable(c) && c.slaveFree
    ensures var r := Recovered(c, single);
      && Sane(r)
      && Disk(r.files) + ParseItems(r.slave) + ParseItems(r.master)
         == Disk(c.files) + ParseItems(c.slave) + ParseItems(c.master)
      && Disk(FlushedCore(r, single).files) == Disk(c.files) + ParseItems(c.slave) + ParseItems(c.master)
  {
    var c1 := if c.slave == [] then c else Drain(c.(slaveFree := false), single);
    NothingParses();
    hide ParseItems, WellFormed, Disk;
    if c.slave != [] {
      DrainIsSane(c.(slaveFree := false), single);
    }
    assert Sane(c1) && Disk(c1.files) == Disk(c.files) + ParseItems(c.slave) && c1.slave == [] && c1.master == c.master;
    hide Drain;
    ClaimIsSane(c1);
    FlushEmptiesCaches(Recovered(c, single), single);
  }

  lemma FoundIsSane(g: Config)
    requires ValidConfig(g)
    requires |CacheContent(g.masterCache, g.page)| < Framing.U64 && |CacheContent(g.slaveCache, g.page)| < Framing.U64
    ensures Writable(Found(g))
  {
    hide CacheContent;
  }

  /** The key that the parser takes from a chunk header is the client's, and nothing of the caches is lost. */
  lemma FoundIsKept(g: Config)
    requires ValidConfig(g)
    requires |CacheContent(g.masterCache, g.page)| < Framing.U64 && |CacheContent(g.slaveCache, g.page)| < Framing.U64
    ensures ValidCore(Found(g)) && Writable(Found(g))
    ensures var r := Recovered(Found(g), g.single);
      && r.pubField[..|g.clientKey|] == g.clientKey
      && Disk(r.files) + ParseItems(r.slave) + ParseItems(r.master)
         == Disk(g.files) + ParseItems(CacheContent(g.slaveCache, g.page))
                          + ParseItems(CacheContent(g.masterCache, g.page))
  {
    FoundIsSane(g);
    RecoveryConserves(Found(g), g.single);
    hide CacheContent, Disk, ParseItems;
  }

  lemma WritableIsSane(c: Core)
    requires Writable(c)
    ensures Sane(c.(slaveFree := false))
    ensures c.slave == [] ==> Sane(c)
  {
    hide WellFormed;
  }

  lemma ClaimIsSane(c: Core)
    requires Sane(c)
    ensures Sane(c.(slaveFree := false)) && Sane(Claim(c))
  {
    hide WellFormed;
  }

  method OpenCache(f: seq<byte>, page: nat) returns (cache: MMapAux)
    requires page >= 1 && Openable(f, page)
    ensures fresh(cache) && cache.Valid() && cache.page == page
    ensures cache.View() == CacheContent(f, page)
  {
    cache := new MMapAux(f, page);
  }

  class EffectiveSink {
    // The objects over the two cache files; master and slave point to one each.
    const masterCache: MMapAux
    const slaveCache: MMapAux
    var master: MMapAux
    var slave: MMapAux
    var slaveFree: bool
    /** The log files in creation order; the current one, if isOpen, is the last. */
    var files: seq<seq<byte>>
    var isOpen: bool
    /** Number of drain tasks in the runner's queue. */
    var queue: nat
    const pubField: seq<byte>
    const single: nat
    const secret: seq<byte>
    const codec: Codec

    /** One object over each cache file. */
    ghost predicate ValidObjects()
      reads this, master, slave
    {
      && masterCache != slaveCache
      && ((master == masterCache && slave == slaveCache) || (master == slaveCache && slave == masterCache))
      && master.Valid() && slave.Valid() && master.page == slave.page
    }

    ghost function View(): Core
      reads this, master, slave
      requires ValidObjects()
    {
      Core(master.View(), slave.View(), slaveFree, master == slaveCache, files, isOpen, pubField)
    }

    ghost predicate Valid()
      reads this, master, slave
    {
      ValidObjects() && Sane(View())
    }

    /** Opens the caches and puts what they hold on its way to disk. */
    constructor (g: Config)
      requires ValidConfig(g)
      requires |CacheContent(g.masterCache, g.page)| < Framing.U64
      requires |CacheContent(g.slaveCache, g.page)| < Framing.U64
      ensures Valid() && fresh(master) && fresh(slave)
      ensures View() == Recovered(Found(g), g.single)
      ensures queue == if CacheContent(g.masterCache, g.page) == [] then 0 else 1
      ensures single == g.single && secret == g.secret && codec == g.codec && master.page == g.page
      ensures View().pubField[..|g.clientKey|] == g.clientKey
    {
      FoundIsKept(g);
      hide MMapAux.Valid, MMapAux.View, CacheContent, Writable, Disk, ParseItems, WellFormed, Drain, Recovered;
      var m := OpenCache(g.masterCache, g.page);
      var s := OpenCache(g.slaveCache, g.page);
      masterCache, slaveCache, master, slave := m, s, m, s;
      slaveFree, files, isOpen, queue := true, g.files, false, 0;
      pubField, single, secret, codec := g.clientKey + g.padding, g.single, g.secret, g.codec;
      new;
      assert View() == Found(g);
      hide Found;
      Recover();
    }

    /** The constructor's second half: the slave's content first, and waited for; then the master's. */
    method Recover()
      requires ValidObjects() && Writable(View()) && slaveFree && queue == 0
      modifies this, master, slave
      ensures Valid() && {master, slave} == {old(master), old(slave)}
      ensures View() == Recovered(old(View()), single)
      ensures queue == if old(View().master) == [] then 0 else 1
    {
      hide MMapAux.Valid, MMapAux.View, Writable, Disk, ParseItems, WellFormed, Drain;
      WritableIsSane(View());
      var slaveEmpty := SlaveEmpty();
      if !slaveEmpty {
        slaveFree := false;
        PrepareToFile();
        WaitTaskIdle();
      }
      var masterEmpty := master.Empty();
      if !masterEmpty {
        ClaimIfFree();
        PrepareToFile();
      }
    }

    method PrepareToFile()
      requires Valid()
      modifies this`queue
      ensures Valid() && View() == old(View()) && queue == old(queue) + 1
    {
      hide MMapAux.Valid, MMapAux.View, Sane;
      queue := queue + 1;
    }

    /** Takes the slave if it is free: the flag is stored, then the caches are exchanged. */
    method ClaimIfFree()
      requires Valid()
      modifies this`slaveFree, this`master, this`slave
      ensures Valid() && View() == Claim(old(View()))
      ensures {master, slave} == {old(master), old(slave)}
    {
      ClaimIsSane(View());
      hide MMapAux.Valid, MMapAux.View, Sane, Disk, ParseItems, WellFormed;
      if slaveFree {
        slaveFree := false;
        SwapCache();
      }
    }

    method SwapCache()
      requires ValidObjects()
      modifies this`master, this`slave
      ensures ValidObjects() && View() == Swap(old(View()))
      ensures master == old(slave) && slave == old(master)
    {
      hide MMapAux.Valid, MMapAux.View, Sane, Disk, ParseItems, WellFormed;
      master, slave := slave, master;
    }

    /**
     One log call: formats, compresses and encrypts the message, appends it as one item, and asks for a
     drain, claiming the slave if it is free, exactly when the master is then nearly full. A call whose
     append grew the master always does.
     */
    method Log(msg: LogMsg, now: int64, pid: int32, tid: int32)
      requires Valid()
      requires |Serialize(MsgOf(msg, now, pid, tid))| < TWO31
      requires var sealed := Seal(codec, secret, Serialize(MsgOf(msg, now, pid, tid)));
        sealed.Done? ==> 16 + |View().master| + ITEM_HEADER_SIZE + |sealed.value| < Framing.U64
      modifies this, master, slave
      ensures Valid() && {master, slave} == {old(master), old(slave)}
      ensures var sealed := Seal(codec, secret, Serialize(MsgOf(msg, now, pid, tid)));
        if sealed.Failed? then View() == old(View()) && queue == old(queue)
        else
          var c := Append(old(View()), FrameItem(sealed.value));
          && old(master).capacity
               == Grown(Grown(old(master.capacity), |old(View()).master| + ITEM_HEADER_SIZE, old(master).page),
                        |c.master|, old(master).page)
          && (if NearlyFull(|c.master|, old(master).capacity) then View() == Claim(c) && queue == old(queue) + 1
              else View() == c && queue == old(queue))
      ensures old(master.page) < 131072 && old(master).capacity > old(master.capacity) ==> queue == old(queue) + 1
    {
      hide ValidObjects, View, Sane, Drain, MMapAux.Valid, MMapAux.View, Disk, ParseItems, Serialize, Seal, FrameItem;
      var buf := Fromat(msg, now, pid, tid);
      var sealed := SealBuffer(buf[..]);
      if sealed.Failed? {
        return;
      }
      WriteToCache(sealed.value);
      var need := NeedCacheToFile();
      if need {
        ClaimIfFree();
        PrepareToFile();
      }
    }

    method SealBuffer(buf: seq<byte>) returns (sealed: Outcome<seq<byte>>)
      ensures sealed == Seal(codec, secret, buf)
      ensures sealed.Failed? <==> codec.compress(buf) == [] || codec.encrypt(secret, codec.compress(buf)) == []
      ensures sealed.Done? ==> sealed.value == codec.encrypt(secret, codec.compress(buf))
    {
      var compressed := codec.compress(buf);
      if compressed == [] {
        return Failed;
      }
      var encrypted := codec.encrypt(secret, compressed);
      if encrypted == [] {
        return Failed;
      }
      sealed := Done(encrypted);
    }

    /** Puts everything on disk: what the slave held, then what the master held. */
    method Flush()
      requires Valid()
      modifies this, master, slave
      ensures Valid() && queue == 0 && {master, slave} == {old(master), old(slave)}
      ensures View() == FlushedCore(old(View()), single)
      ensures slaveFree && View().slave == [] && View().master == []
      ensures Disk(files) == Disk(old(files)) + ParseItems(old(View().slave)) + ParseItems(old(View().master))
    {
      ghost var c := View();
      FlushEmptiesCaches(c, single);
      hide MMapAux.Valid, MMapAux.View, Sane, Disk, ParseItems, WellFormed, ValidObjects, Drain;
      PrepareToFile();
      WaitTaskIdle();
      ClaimIfFree();
      PrepareToFile();
      WaitTaskIdle();
    }

    method NeedCacheToFile() returns (need: bool)
      requires Valid()
      ensures need <==> NearlyFull(|View().master|, master.capacity)
    {
      hide MMapAux.Valid, MMapAux.View, Sane, Disk, ParseItems, WellFormed;
      need := master.RatioAbove80();
    }

    /** Two pushes; the payload's length is passed as a 32-bit integer. */
    method WriteToCache(data: seq<byte>)
      requires Valid() && 16 + |View().master| + ITEM_HEADER_SIZE + |data| < Framing.U64
      modifies master
      ensures Valid() && View() == Append(old(View()), FrameItem(data))
      ensures master.capacity
           == Grown(Grown(old(master.capacity), |old(View()).master| + ITEM_HEADER_SIZE, master.page), |View().master|,
                    master.page)
      ensures master.page < 131072 && master.capacity > old(master.capacity) ==>
        NearlyFull(|View().master|, master.capacity)
    {
      hide MMapAux.Valid, MMapAux.View, Disk, ParseItems, WellFormed, ItemHeader;
      ghost var content := master.View();
      var size := |data| % Framing.U32;
      ItemPush(master, ItemHeader(size), data[..size]);
    }

    /** The drain task. */
    method CacheToFile()
      requires Valid()
      modifies this`slaveFree, this`files, this`isOpen, slave
      ensures Valid() && View() == Drain(old(View()), single)
    {
      DrainIsSane(View(), single);
      hide ValidObjects, Sane, Disk, ParseItems, WellFormed, WriteHeader, WriteData, SinkCore.UpdateFilePath;
      if slaveFree {
        return;
      }
      var empty := SlaveEmpty();
      if !empty {
        WriteChunk();
        ClearSlave();
      }
      FreeSlave();
    }

    method SlaveEmpty() returns (b: bool)
      requires ValidObjects()
      ensures b <==> View().slave == []
    {
      hide MMapAux.Valid, MMapAux.View;
      b := slave.Empty();
    }

    method ClearSlave()
      requires ValidObjects()
      modifies slave
      ensures ValidObjects() && View() == SinkCore.ClearSlave(old(View()))
    {
      hide MMapAux.Valid, MMapAux.View;
      slave.Clear();
    }

    method FreeSlave()
      requires ValidObjects()
      modifies this`slaveFree
      ensures ValidObjects() && View() == old(View()).(slaveFree := true)
    {
      hide MMapAux.Valid, MMapAux.View;
      slaveFree := true;
    }

    /** Appends the slave's content to the current log file, as one chunk. */
    method WriteChunk()
      requires Valid()
      modifies this`files, this`isOpen
      ensures ValidObjects() && View() == WriteData(WriteHeader(SinkCore.UpdateFilePath(old(View()), single)))
    {
      hide MMapAux.Valid, MMapAux.View, Disk, ParseItems, WellFormed, ChunkHeader;
      var size := slave.Size();
      var data := slave.Data();
      UpdateFilePath();
      AppendToFile(ChunkHeader(pubField, size));
      AppendToFile(data);
    }

    method AppendToFile(bytes: seq<byte>)
      requires ValidObjects() && files != []
      modifies this`files
      ensures ValidObjects() && View() == Write(old(View()), bytes)
    {
      files := files[|files| - 1 := files[|files| - 1] + bytes];
    }

    /** Sees to it that the current file is within the limit; nothing is written, and no other file is touched. */
    method UpdateFilePath()
      requires ValidObjects() && Writable(View())
      modifies this`files, this`isOpen
      ensures ValidObjects() && View() == SinkCore.UpdateFilePath(old(View()), single)
      ensures isOpen && files != [] && |files[|files| - 1]| <= single && WellFormed(files[|files| - 1])
      ensures old(files) <= files && Disk(files) == Disk(old(files))
    {
      ChosenFile(View(), single);
      hide MMapAux.Valid, MMapAux.View, Disk, WellFormed;
      if !isOpen || |files[|files| - 1]| > single {
        files := files + [[]];
        isOpen := true;
      }
    }

    /** The runner works off its queue; posting to it happens before, and waits for nothing else. */
    method WaitTaskIdle()
      requires Valid()
      modifies this`queue, this`slaveFree, this`files, this`isOpen, slave
      ensures Valid() && queue == 0
      ensures View() == if old(queue) == 0 then old(View()) else Drain(old(View()), single)
    {
      while queue > 0
        invariant Valid() && queue <= old(queue)
        invariant master == old(master) && slave == old(slave)
        invariant View() == if queue == old(queue) then old(View()) else Drain(old(View()), single)
      {
        DrainTwice(old(View()), single);
        hide MMapAux.Valid, MMapAux.View, Sane, Drain;
        queue := queue - 1;
        CacheToFile();
      }
    }
  }

  /** An item's two pushes: if the buffer grew in either, it is nearly full afterwards. */
  method ItemPush(b: MMapAux, header: seq<byte>, data: seq<byte>)
    requires b.Valid() && 16 + |b.View()| + |header| + |data| < Framing.U64
    modifies b
    ensures b.Valid() && b.View() == old(b.View()) + (header + data)
    ensures b.capacity == Grown(Grown(old(b.capacity), |old(b.View())| + |header|, b.page), |b.View()|, b.page)
    ensures b.page < 131072 && b.capacity > old(b.capacity) ==> NearlyFull(|b.View()|, b.capacity)
  {
    hide MMapAux.View, Sound, RoundUp, Pushed;
    ghost var before := b.capacity;
    b.Push(header);
    if b.page < 131072 && b.capacity > before {
      GrowthFill(before, 16 + |b.View()|, b.page);
    }
    ghost var between := b.capacity;
    b.Push(data);
    if b.page < 131072 && b.capacity > between {
      GrowthFill(between, 16 + |b.View()|, b.page);
    }
    ConcatAssociates(old(b.View()), header, data);
  }
}
