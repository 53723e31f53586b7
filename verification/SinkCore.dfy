/**
 The data a sink works on, and the elementary actions of the sink on it: the two caches, the flag
 that says whether the slave is free, and the log files in creation order. Both the sink object and
 the transition system of its threads are built from these actions.
 */
module SinkCore {
  import opened Wrappers
  import opened Bytes
  import opened Framing

  /** Length of a public key of the curve secp256r1, uncompressed. */
  const KEY_LEN: nat := 65

  /**
   swapped says which cache file is the master: the two cache objects are exchanged, not their
   files. isOpen says that a log file path is set; the path is then that of the last file.
   */
  datatype Core = Core(
    master: seq<byte>, slave: seq<byte>, slaveFree: bool, swapped: bool,
    files: seq<seq<byte>>, isOpen: bool, pubField: seq<byte>)

  predicate ValidCore(c: Core) {
    |c.pubField| == PUB_FIELD_SIZE && (c.isOpen ==> c.files != [])
  }

  // ---- Actions ----

  function Append(c: Core, bytes: seq<byte>): Core {
    c.(master := c.master + bytes)
  }

  function Swap(c: Core): Core {
    c.(master := c.slave, slave := c.master, swapped := !c.swapped)
  }

  /** A new file when there is none yet or the current one is over the size limit; names are fresh. */
  function UpdateFilePath(c: Core, single: nat): (r: Core)
    requires ValidCore(c)
    ensures ValidCore(r) && r.isOpen
  {
    if !c.isOpen || |c.files[|c.files| - 1]| > single then c.(files := c.files + [[]], isOpen := true) else c
  }

  /** Appends to the current log file. */
  function Write(c: Core, bytes: seq<byte>): Core
    requires c.files != []
  {
    c.(files := c.files[|c.files| - 1 := c.files[|c.files| - 1] + bytes])
  }

  function WriteHeader(c: Core): Core
    requires ValidCore(c) && c.files != []
  {
    Write(c, ChunkHeader(c.pubField, |c.slave|))
  }

  function WriteData(c: Core): Core
    requires c.files != []
  {
    Write(c, c.slave)
  }

  function ClearSlave(c: Core): Core {
    c.(slave := [])
  }

  /** One undisturbed run of the drain task. */
  function Drain(c: Core, single: nat): (r: Core)
    requires ValidCore(c)
    ensures ValidCore(r)
  {
    if c.slaveFree then c
    else if c.slave == [] then c.(slaveFree := true)
    else ClearSlave(WriteData(WriteHeader(UpdateFilePath(c, single)))).(slaveFree := true)
  }

  /** The claim: mark the slave taken and exchange the caches. */
  function Claim(c: Core): Core {
    if c.slaveFree then Swap(c.(slaveFree := false)) else c
  }

  /** A drain, then the claim and the drain of what was the master. */
  function FlushedCore(c: Core, single: nat): Core
    requires ValidCore(c)
  {
    Drain(Claim(Drain(c, single)), single)
  }

  lemma DrainTwice(c: Core, single: nat)
    requires ValidCore(c)
    ensures Drain(Drain(c, single), single) == Drain(c, single)
    ensures Drain(c, single).slaveFree
  {
  }

  // ---- What a reader finds on disk ----

  function Payloads(es: seq<Entry>): (ps: seq<seq<byte>>)
    ensures |ps| == |es|
    ensures forall i :: 0 <= i < |ps| ==> ps[i] == es[i].payload
  {
    seq(|es|, i requires 0 <= i < |es| => es[i].payload)
  }

  function FilePayloads(f: seq<byte>): seq<seq<byte>> {
    Payloads(ParseFile(f, KEY_LEN).entries)
  }

  /** What the parser gets out of all files, in creation order. */
  function Disk(files: seq<seq<byte>>): seq<seq<byte>> {
    if files == [] then []
    else Disk(files[..|files| - 1]) + FilePayloads(files[|files| - 1])
  }

  lemma PayloadsOfTag(key: seq<byte>, ps: seq<seq<byte>>)
    ensures Payloads(Tag(key, ps)) == ps
  {
  }

  lemma PayloadsAppend(a: seq<Entry>, b: seq<Entry>)
    ensures Payloads(a + b) == Payloads(a) + Payloads(b)
  {
  }

  lemma NothingParses()
    ensures ParseItems([]) == []
  {
  }

  lemma DiskOfNewFile(files: seq<seq<byte>>)
    ensures Disk(files + [[]]) == Disk(files)
  {
    assert (files + [[]])[..|files|] == files;
    assert FilePayloads([]) == [];
  }

  lemma DiskOfLast(files: seq<seq<byte>>, f: seq<byte>)
    requires files != []
    ensures Disk(files[|files| - 1 := f]) == Disk(files[..|files| - 1]) + FilePayloads(f)
  {
    var g := files[|files| - 1 := f];
    assert g[..|g| - 1] == files[..|files| - 1];
  }

  /** A chunk written behind complete chunks adds its items; a strict prefix of it adds nothing. */
  lemma ChunkBehind(f: seq<byte>, pubField: seq<byte>, data: seq<byte>, k: nat)
    requires WellFormed(f) && |pubField| == PUB_FIELD_SIZE && |data| < U64
    requires k <= |EncodeChunk(pubField, data)|
    ensures FilePayloads(f + EncodeChunk(pubField, data)[..k])
         == FilePayloads(f) + if k == |EncodeChunk(pubField, data)| then ParseItems(data) else []
    ensures WellFormed(f + EncodeChunk(pubField, data))
    ensures ParseFile(f + EncodeChunk(pubField, data), KEY_LEN).entries
         == ParseFile(f, KEY_LEN).entries + Tag(pubField[..KEY_LEN], ParseItems(data))
  {
    var chunk := EncodeChunk(pubField, data);
    hide EncodeChunk, ParseFile, WellFormed, ParseItems, Tag, Payloads;
    ChunkParses(pubField, data, KEY_LEN);
    ParseFileAppend(f, chunk[..k], KEY_LEN);
    ParseFileAppend(f, chunk, KEY_LEN);
    WellFormedAppend(f, chunk);
    PayloadsAppend(ParseFile(f, KEY_LEN).entries, ParseFile(chunk[..k], KEY_LEN).entries);
    if k == |chunk| {
      assert chunk[..k] == chunk;
      PayloadsOfTag(pubField[..KEY_LEN], ParseItems(data));
    } else {
      TornChunk(pubField, data, k, KEY_LEN);
    }
  }

  /**
   The file a chunk goes into is within the limit and has only complete chunks; choosing it adds nothing to
   read and touches no file. A file is begun exactly when there is no current one or it is over the limit.
   */
  lemma ChosenFile(c: Core, single: nat)
    requires ValidCore(c)
    requires c.isOpen ==> WellFormed(c.files[|c.files| - 1])
    ensures var u := UpdateFilePath(c, single);
      && u == c.(files := u.files, isOpen := true)
      && u.files != [] && WellFormed(u.files[|u.files| - 1]) && |u.files[|u.files| - 1]| <= single
      && Disk(u.files) == Disk(c.files)
      && (if c.isOpen && |c.files[|c.files| - 1]| <= single then u.files == c.files else u.files == c.files + [[]])
  {
    assert WellFormed([]);
    DiskOfNewFile(c.files);
    hide Disk, WellFormed;
  }

  lemma DrainedFiles(c: Core, single: nat)
    requires ValidCore(c) && !c.slaveFree && c.slave != []
    ensures var u := UpdateFilePath(c, single);
      var files := u.files[|u.files| - 1 := u.files[|u.files| - 1] + EncodeChunk(c.pubField, c.slave)];
      Drain(c, single) == c.(slave := [], slaveFree := true, files := files, isOpen := true)
  {
    hide ChunkHeader;
    var u := UpdateFilePath(c, single);
    ConcatAssociates(u.files[|u.files| - 1], ChunkHeader(c.pubField, |c.slave|), c.slave);
  }

  /** A drain of a taken, non-empty slave puts its items behind everything on disk. */
  lemma DrainPutsOnDisk(c: Core, single: nat)
    requires ValidCore(c) && !c.slaveFree && c.slave != [] && |c.slave| < U64
    requires c.isOpen ==> WellFormed(c.files[|c.files| - 1])
    ensures var r := Drain(c, single);
      && Disk(r.files) == Disk(c.files) + ParseItems(c.slave)
      && r == c.(slave := [], slaveFree := true, files := r.files, isOpen := true)
      && r.files != [] && WellFormed(r.files[|r.files| - 1])
  {
    ChosenFile(c, single);
    DrainedFiles(c, single);
    hide Drain, ParseItems, ParseFile, WellFormed, EncodeChunk, FilePayloads, UpdateFilePath, Disk;
    var u := UpdateFilePath(c, single);
    var f := u.files[|u.files| - 1];
    var chunk := EncodeChunk(c.pubField, c.slave);
    assert chunk[..|chunk|] == chunk;
    ChunkBehind(f, c.pubField, c.slave, |chunk|);
    DiskOfLast(u.files, f);
    DiskOfLast(u.files, f + chunk);
    assert u.files[|u.files| - 1 := f] == u.files;
    ConcatAssociates(Disk(u.files[..|u.files| - 1]), FilePayloads(f), ParseItems(c.slave));
  }
}
