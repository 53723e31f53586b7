/**
 The outer framing of a log file: a 144-byte chunk header followed by the chunk's data, which is a
 run of items, each an 8-byte item header followed by its payload. The sink writes this format and
 the log parser reads it.
 */
module Framing {
  import opened Wrappers
  import opened Bytes

  const CHUNK_MAGIC: nat := 0xdeadbeefdada1100
  const ITEM_MAGIC: nat := 0xbe5fba11
  const CHUNK_MAGIC_BYTES: seq<byte> := [0x00, 0x11, 0xda, 0xda, 0xef, 0xbe, 0xad, 0xde]
  const ITEM_MAGIC_BYTES: seq<byte> := [0x11, 0xba, 0x5f, 0xbe]
  const CHUNK_HEADER_SIZE: nat := 144
  const PUB_FIELD_SIZE: nat := 128
  const ITEM_HEADER_SIZE: nat := 8
  const U32: nat := 0x1_0000_0000
  const U64: nat := 0x1_0000_0000_0000_0000

  /** What the parser hands to the decryption of one item: the chunk's client key and the payload. */
  datatype Entry = Entry(key: seq<byte>, payload: seq<byte>)

  /** The entries printed for a file, in order, and the exit status of the parser. */
  datatype Parsed = Parsed(entries: seq<Entry>, rc: int)

  // The magics as the sink writes them are what the parser reads.

  lemma ChunkMagicBytes()
    ensures FromLittleEndian(CHUNK_MAGIC_BYTES) == CHUNK_MAGIC
  {
    var high := CHUNK_MAGIC_BYTES[4..];
    assert high == [0xef, 0xbe, 0xad, 0xde] && high[4..] == [];
    FourMore(high);
    FourMore(CHUNK_MAGIC_BYTES);
  }

  lemma ItemMagicBytes()
    ensures FromLittleEndian(ITEM_MAGIC_BYTES) == ITEM_MAGIC
  {
    assert ITEM_MAGIC_BYTES[4..] == [];
    FourMore(ITEM_MAGIC_BYTES);
  }

  // ---- Writer ----

  function ItemHeader(size: nat): (s: seq<byte>)
    ensures |s| == ITEM_HEADER_SIZE
  {
    ITEM_MAGIC_BYTES + LittleEndian(size, 4)
  }

  /** The sink passes the payload's length as a 32-bit integer, so a longer payload is cut. */
  function Cut(payload: seq<byte>): seq<byte> {
    payload[..|payload| % U32]
  }

  function FrameItem(payload: seq<byte>): seq<byte> {
    ItemHeader(|Cut(payload)|) + Cut(payload)
  }

  lemma ShortFrame(payload: seq<byte>)
    requires |payload| < U32
    ensures Cut(payload) == payload
    ensures FrameItem(payload) == ItemHeader(|payload|) + payload
  {
  }

  function FrameItems(payloads: seq<seq<byte>>): seq<byte> {
    if payloads == [] then [] else FrameItem(payloads[0]) + FrameItems(payloads[1..])
  }

  /** The 128-byte key field holds the client's public key at its front; the rest is padding. */
  function ChunkHeader(pubField: seq<byte>, size: nat): (s: seq<byte>)
    requires |pubField| == PUB_FIELD_SIZE
    ensures |s| == CHUNK_HEADER_SIZE
  {
    CHUNK_MAGIC_BYTES + LittleEndian(size, 8) + pubField
  }

  function EncodeChunk(pubField: seq<byte>, data: seq<byte>): (s: seq<byte>)
    requires |pubField| == PUB_FIELD_SIZE
    ensures |s| == CHUNK_HEADER_SIZE + |data|
  {
    ChunkHeader(pubField, |data|) + data
  }

  // The formats, byte by byte.

  lemma ItemLayout(payload: seq<byte>)
    ensures var n := |payload| % 0x1_0000_0000;
      FrameItem(payload)
      == [0x11, 0xba, 0x5f, 0xbe, n % 256, n / 256 % 256, n / 0x1_0000 % 256, n / 0x100_0000 % 256] + payload[..n]
  {
    hide LittleEndian, Pow256;
    FourBytes(|payload| % U32);
  }

  lemma FourBytes(n: nat)
    ensures LittleEndian(n, 4) == [n % 256, n / 256 % 256, n / 0x1_0000 % 256, n / 0x100_0000 % 256]
  {
    LittleEndianAt(n, 4, 0);
    LittleEndianAt(n, 4, 1);
    LittleEndianAt(n, 4, 2);
    LittleEndianAt(n, 4, 3);
    assert DropBytes(n, 1) == n / 256;
    assert DropBytes(n, 2) == DropBytes(n / 256, 1) == n / 0x1_0000;
    assert DropBytes(n, 3) == DropBytes(n / 256 / 256, 1) == n / 256 / 256 / 256 == n / 0x100_0000;
    hide LittleEndian;
  }

  lemma ChunkLayout(pubField: seq<byte>, data: seq<byte>)
    requires |pubField| == PUB_FIELD_SIZE
    ensures var f := EncodeChunk(pubField, data);
      && f[..8] == [0x00, 0x11, 0xda, 0xda, 0xef, 0xbe, 0xad, 0xde]
      && (forall i :: 0 <= i < 8 ==> f[8 + i] == DropBytes(|data|, i) % 256)
      && f[16..144] == pubField && f[144..] == data
  {
    hide LittleEndian, DropBytes;
    forall i | 0 <= i < 8
      ensures LittleEndian(|data|, 8)[i] == DropBytes(|data|, i) % 256
    {
      LittleEndianAt(|data|, 8, i);
    }
    FourParts(CHUNK_MAGIC_BYTES, LittleEndian(|data|, 8), pubField, data);
  }

  lemma FourParts(a: seq<byte>, b: seq<byte>, c: seq<byte>, d: seq<byte>)
    ensures var s := a + b + c + d;
      && |s| == |a| + |b| + |c| + |d|
      && s[..|a|] == a && (forall i :: 0 <= i < |b| ==> s[|a| + i] == b[i])
      && s[|a| + |b|..|a| + |b| + |c|] == c && s[|a| + |b| + |c|..] == d
  {
  }

  // ---- Parser, as functions ----

  // The fields of the item at the front of a byte string.

  function ItemMagic(d: seq<byte>): nat
    requires |d| >= ITEM_HEADER_SIZE
  {
    FromLittleEndian(d[..4])
  }

  function ItemSize(d: seq<byte>): nat
    requires |d| >= ITEM_HEADER_SIZE
  {
    FromLittleEndian(d[4..8])
  }

  predicate HasItem(d: seq<byte>) {
    |d| >= ITEM_HEADER_SIZE && ItemMagic(d) == ITEM_MAGIC && ITEM_HEADER_SIZE + ItemSize(d) <= |d|
  }

  function ItemPayload(d: seq<byte>): seq<byte>
    requires HasItem(d)
  {
    d[8..8 + ItemSize(d)]
  }

  function AfterItem(d: seq<byte>): (r: seq<byte>)
    requires HasItem(d)
    ensures |r| < |d|
  {
    d[8 + ItemSize(d)..]
  }

  /** The item loop over one chunk's data: it stops at the first bad magic or overrun. */
  function ParseItems(d: seq<byte>): seq<seq<byte>> {
    if !HasItem(d) then [] else [ItemPayload(d)] + ParseItems(AfterItem(d))
  }

  function Tag(key: seq<byte>, payloads: seq<seq<byte>>): (es: seq<Entry>)
    ensures |es| == |payloads|
    ensures forall i :: 0 <= i < |es| ==> es[i] == Entry(key, payloads[i])
  {
    seq(|payloads|, i requires 0 <= i < |payloads| => Entry(key, payloads[i]))
  }

  // The fields of the chunk at the front of a byte string.

  function ChunkMagic(f: seq<byte>): nat
    requires |f| >= CHUNK_HEADER_SIZE
  {
    FromLittleEndian(f[..8])
  }

  function ChunkSize(f: seq<byte>): nat
    requires |f| >= CHUNK_HEADER_SIZE
  {
    FromLittleEndian(f[8..16])
  }

  predicate HasChunk(f: seq<byte>) {
    |f| >= CHUNK_HEADER_SIZE && ChunkMagic(f) == CHUNK_MAGIC && CHUNK_HEADER_SIZE + ChunkSize(f) <= |f|
  }

  function ChunkData(f: seq<byte>): seq<byte>
    requires HasChunk(f)
  {
    f[144..144 + ChunkSize(f)]
  }

  function AfterChunk(f: seq<byte>): (r: seq<byte>)
    requires HasChunk(f)
    ensures |r| < |f|
  {
    f[144 + ChunkSize(f)..]
  }

  function ChunkEntries(f: seq<byte>, keyLen: nat): seq<Entry>
    requires HasChunk(f) && keyLen <= PUB_FIELD_SIZE
  {
    Tag(f[16..16 + keyLen], ParseItems(ChunkData(f)))
  }

  lemma TagAppend(key: seq<byte>, ps: seq<seq<byte>>, qs: seq<seq<byte>>)
    ensures Tag(key, ps + qs) == Tag(key, ps) + Tag(key, qs)
    ensures Tag(key, []) == []
    ensures |qs| == 1 ==> Tag(key, qs) == [Entry(key, qs[0])]
  {
  }

  /** The chunk loop over a whole file; keyLen is the length of a public key of the curve. */
  function ParseFile(f: seq<byte>, keyLen: nat): Parsed
    requires keyLen <= PUB_FIELD_SIZE
  {
    if |f| < CHUNK_HEADER_SIZE then Parsed([], 0)
    else if !HasChunk(f) then Parsed([], 1)
    else
      var rest := ParseFile(AfterChunk(f), keyLen);
      Parsed(ChunkEntries(f, keyLen) + rest.entries, rest.rc)
  }

  // ---- Well-formed byte strings ----

  /** Nothing but complete items. */
  ghost predicate WellFramed(d: seq<byte>) {
    d == [] || (HasItem(d) && WellFramed(AfterItem(d)))
  }

  /** Nothing but complete chunks. */
  ghost predicate WellFormed(f: seq<byte>) {
    f == [] || (HasChunk(f) && WellFormed(AfterChunk(f)))
  }

  // ---- Items ----

  lemma ItemHeaderFields(size: nat, rest: seq<byte>)
    requires size < U32
    ensures FromLittleEndian((ItemHeader(size) + rest)[..4]) == ITEM_MAGIC
    ensures FromLittleEndian((ItemHeader(size) + rest)[4..8]) == size
  {
    Pow256Values();
    ItemMagicBytes();
    LittleEndianRoundTrip(size, 4);
    assert (ItemHeader(size) + rest)[..4] == ITEM_MAGIC_BYTES;
    assert (ItemHeader(size) + rest)[4..8] == LittleEndian(size, 4);
  }

  /** A frame parses as its (cut) payload. */
  lemma FrameItemParses(payload: seq<byte>)
    ensures WellFramed(FrameItem(payload))
    ensures ParseItems(FrameItem(payload)) == [Cut(payload)]
  {
    var c := Cut(payload);
    var d := FrameItem(payload);
    ItemHeaderFields(|c|, c);
    assert AfterItem(d) == [];
    assert ItemPayload(d) == c;
  }

  lemma ItemFieldsAppend(d: seq<byte>, e: seq<byte>)
    requires HasItem(d)
    ensures HasItem(d + e)
    ensures ItemPayload(d + e) == ItemPayload(d)
    ensures AfterItem(d + e) == AfterItem(d) + e
  {
    assert (d + e)[..4] == d[..4];
    assert (d + e)[4..8] == d[4..8];
  }

  lemma ParseItemsEnd(d: seq<byte>)
    ensures !HasItem(d) ==> ParseItems(d) == []
  {
  }

  lemma ParseItemsStep(d: seq<byte>)
    requires HasItem(d)
    ensures ParseItems(d) == [ItemPayload(d)] + ParseItems(AfterItem(d))
    ensures WellFramed(d) == WellFramed(AfterItem(d))
  {
  }

  /** Complete items parse independently of whatever bytes follow them. */
  lemma {:induction false} ParseItemsAppend(d: seq<byte>, e: seq<byte>)
    requires WellFramed(d)
    ensures ParseItems(d + e) == ParseItems(d) + ParseItems(e)
    ensures WellFramed(e) ==> WellFramed(d + e)
    decreases |d|
  {
    if d == [] {
      assert d + e == e;
      assert ParseItems(d) == [];
    } else {
      assert HasItem(d) && WellFramed(AfterItem(d));
      hide ParseItems, WellFramed, HasItem, ItemPayload, AfterItem;
      ItemFieldsAppend(d, e);
      ParseItemsStep(d);
      ParseItemsStep(d + e);
      ParseItemsAppend(AfterItem(d), e);
      ConcatAssociates([ItemPayload(d)], ParseItems(AfterItem(d)), ParseItems(e));
    }
  }

  /** A strict prefix of a frame, as an interrupted append leaves it, parses as nothing. */
  lemma TornItem(payload: seq<byte>, k: nat)
    requires k < |FrameItem(payload)|
    ensures ParseItems(FrameItem(payload)[..k]) == []
  {
    if k >= ITEM_HEADER_SIZE {
      var c := Cut(payload);
      var t := FrameItem(payload)[..k];
      assert t == ItemHeader(|c|) + c[..k - 8];
      ItemHeaderFields(|c|, c[..k - 8]);
    }
  }

  /** Complete items followed by a torn one parse as exactly the complete ones. */
  lemma TornTail(d: seq<byte>, payload: seq<byte>, k: nat)
    requires WellFramed(d) && k < |FrameItem(payload)|
    ensures ParseItems(d + FrameItem(payload)[..k]) == ParseItems(d)
  {
    ParseItemsAppend(d, FrameItem(payload)[..k]);
    TornItem(payload, k);
  }

  function CutAll(payloads: seq<seq<byte>>): (r: seq<seq<byte>>)
    ensures |r| == |payloads|
    ensures forall i :: 0 <= i < |r| ==> r[i] == Cut(payloads[i])
  {
    seq(|payloads|, i requires 0 <= i < |payloads| => Cut(payloads[i]))
  }

  lemma {:induction false} ParseInvertsFrame(payloads: seq<seq<byte>>)
    ensures WellFramed(FrameItems(payloads))
    ensures ParseItems(FrameItems(payloads)) == CutAll(payloads)
  {
    if payloads == [] {
    } else {
      hide ParseItems, WellFramed, FrameItem, Cut;
      FrameItemParses(payloads[0]);
      ParseInvertsFrame(payloads[1..]);
      ParseItemsAppend(FrameItem(payloads[0]), FrameItems(payloads[1..]));
    }
  }

  /** Payloads come back unchanged exactly when their length fits the 32-bit size field. */
  lemma CutIsIdentityIff(payload: seq<byte>)
    ensures Cut(payload) == payload <==> |payload| < U32
  {
  }

  // ---- Chunks ----

  lemma ChunkHeaderFields(pubField: seq<byte>, size: nat, rest: seq<byte>)
    requires |pubField| == PUB_FIELD_SIZE && size < U64
    ensures FromLittleEndian((ChunkHeader(pubField, size) + rest)[..8]) == CHUNK_MAGIC
    ensures FromLittleEndian((ChunkHeader(pubField, size) + rest)[8..16]) == size
    ensures (ChunkHeader(pubField, size) + rest)[16..144] == pubField
  {
    hide LittleEndian, FromLittleEndian, Pow256;
    Pow256Values();
    ChunkMagicBytes();
    LittleEndianRoundTrip(size, 8);
    assert (ChunkHeader(pubField, size) + rest)[..8] == CHUNK_MAGIC_BYTES;
    assert (ChunkHeader(pubField, size) + rest)[8..16] == LittleEndian(size, 8);
  }

  lemma ChunkParses(pubField: seq<byte>, data: seq<byte>, keyLen: nat)
    requires |pubField| == PUB_FIELD_SIZE && |data| < U64 && keyLen <= PUB_FIELD_SIZE
    ensures WellFormed(EncodeChunk(pubField, data))
    ensures ParseFile(EncodeChunk(pubField, data), keyLen)
         == Parsed(Tag(pubField[..keyLen], ParseItems(data)), 0)
  {
    var f := EncodeChunk(pubField, data);
    ChunkHeaderFields(pubField, |data|, data);
    assert HasChunk(f);
    hide FromLittleEndian, LittleEndian, ParseItems, Tag, ChunkHeader;
    assert AfterChunk(f) == [];
    assert ChunkData(f) == data;
    assert f[16..16 + keyLen] == f[16..144][..keyLen];
    assert ParseFile([], keyLen) == Parsed([], 0);
    assert ParseFile(f, keyLen).entries == Tag(pubField[..keyLen], ParseItems(data)) + [];
  }

  lemma ChunkFieldsAppend(f: seq<byte>, g: seq<byte>, keyLen: nat)
    requires HasChunk(f) && keyLen <= PUB_FIELD_SIZE
    ensures HasChunk(f + g)
    ensures ChunkEntries(f + g, keyLen) == ChunkEntries(f, keyLen)
    ensures AfterChunk(f + g) == AfterChunk(f) + g
    ensures |f| >= CHUNK_HEADER_SIZE
  {
    assert (f + g)[..8] == f[..8];
    assert (f + g)[8..16] == f[8..16];
    assert (f + g)[16..16 + keyLen] == f[16..16 + keyLen];
    assert ChunkData(f + g) == ChunkData(f);
  }

  lemma ParseFileEnd(f: seq<byte>, keyLen: nat)
    requires keyLen <= PUB_FIELD_SIZE
    ensures !HasChunk(f) ==> ParseFile(f, keyLen) == Parsed([], if |f| < CHUNK_HEADER_SIZE then 0 else 1)
  {
  }

  lemma ParseFileStep(f: seq<byte>, keyLen: nat)
    requires HasChunk(f) && keyLen <= PUB_FIELD_SIZE
    ensures ParseFile(f, keyLen).entries == ChunkEntries(f, keyLen) + ParseFile(AfterChunk(f), keyLen).entries
    ensures ParseFile(f, keyLen).rc == ParseFile(AfterChunk(f), keyLen).rc
    ensures WellFormed(f) == WellFormed(AfterChunk(f))
  {
  }

  lemma {:induction false} WellFormedAppend(f: seq<byte>, g: seq<byte>)
    requires WellFormed(f) && WellFormed(g)
    ensures WellFormed(f + g)
    decreases |f|
  {
    if f == [] {
      assert f + g == g;
    } else {
      ChunkFieldsAppend(f, g, 0);
      WellFormedAppend(AfterChunk(f), g);
    }
  }

  /** Complete chunks parse independently of whatever bytes follow them. */
  lemma {:induction false} ParseFileAppend(f: seq<byte>, g: seq<byte>, keyLen: nat)
    requires WellFormed(f) && keyLen <= PUB_FIELD_SIZE
    ensures ParseFile(f + g, keyLen)
         == Parsed(ParseFile(f, keyLen).entries + ParseFile(g, keyLen).entries, ParseFile(g, keyLen).rc)
    decreases |f|
  {
    if f == [] {
      assert f + g == g;
      assert ParseFile(f, keyLen).entries == [];
    } else {
      assert HasChunk(f) && WellFormed(AfterChunk(f));
      hide ParseFile, WellFormed, HasChunk, ChunkEntries, AfterChunk;
      ChunkFieldsAppend(f, g, keyLen);
      ParseFileStep(f, keyLen);
      ParseFileStep(f + g, keyLen);
      ParseFileAppend(AfterChunk(f), g, keyLen);
      ConcatAssociates(ChunkEntries(f, keyLen), ParseFile(AfterChunk(f), keyLen).entries, ParseFile(g, keyLen).entries);
    }
  }

  /** A strict prefix of a chunk, as an interrupted write leaves it, yields no entry. */
  lemma TornChunk(pubField: seq<byte>, data: seq<byte>, k: nat, keyLen: nat)
    requires |pubField| == PUB_FIELD_SIZE && |data| < U64 && keyLen <= PUB_FIELD_SIZE
    requires k < CHUNK_HEADER_SIZE + |data|
    ensures ParseFile(EncodeChunk(pubField, data)[..k], keyLen)
         == Parsed([], if k < CHUNK_HEADER_SIZE then 0 else 1)
  {
    if k >= CHUNK_HEADER_SIZE {
      var t := EncodeChunk(pubField, data)[..k];
      assert t == ChunkHeader(pubField, |data|) + data[..k - 144];
      ChunkHeaderFields(pubField, |data|, data[..k - 144]);
    }
  }

  // ---- Whole files ----

  /** One chunk to write: its key field and its items. */
  datatype RawChunk = RawChunk(pubField: seq<byte>, payloads: seq<seq<byte>>)

  type Chunk = c: RawChunk | |c.pubField| == PUB_FIELD_SIZE && |FrameItems(c.payloads)| < U64
    witness RawChunk(Zeros(PUB_FIELD_SIZE), [])

  function EncodeFile(chunks: seq<Chunk>): seq<byte>
  {
    if chunks == [] then []
    else EncodeChunk(chunks[0].pubField, FrameItems(chunks[0].payloads)) + EncodeFile(chunks[1..])
  }

  function ChunkLength(c: Chunk): nat {
    CHUNK_HEADER_SIZE + |FrameItems(c.payloads)|
  }

  /** The entries that one chunk is written for. */
  function EntriesOf(c: Chunk, keyLen: nat): seq<Entry>
    requires keyLen <= PUB_FIELD_SIZE
  {
    Tag(c.pubField[..keyLen], CutAll(c.payloads))
  }

  /** The entries of the chunks that lie wholly within the first k bytes. */
  function EntriesWithin(chunks: seq<Chunk>, k: nat, keyLen: nat): seq<Entry>
    requires keyLen <= PUB_FIELD_SIZE
  {
    if chunks == [] || k < ChunkLength(chunks[0]) then []
    else EntriesOf(chunks[0], keyLen) + EntriesWithin(chunks[1..], k - ChunkLength(chunks[0]), keyLen)
  }

  lemma EntriesWithinStep(chunks: seq<Chunk>, k: nat, keyLen: nat)
    requires keyLen <= PUB_FIELD_SIZE && chunks != []
    ensures EntriesWithin(chunks, k, keyLen)
         == if k < ChunkLength(chunks[0]) then []
            else EntriesOf(chunks[0], keyLen) + EntriesWithin(chunks[1..], k - ChunkLength(chunks[0]), keyLen)
  {
  }

  function AllEntries(chunks: seq<Chunk>, keyLen: nat): seq<Entry>
    requires keyLen <= PUB_FIELD_SIZE
  {
    if chunks == [] then [] else EntriesOf(chunks[0], keyLen) + AllEntries(chunks[1..], keyLen)
  }

  lemma WrittenChunkParses(c: Chunk, keyLen: nat)
    requires keyLen <= PUB_FIELD_SIZE
    ensures var f := EncodeChunk(c.pubField, FrameItems(c.payloads));
      && |f| == ChunkLength(c)
      && WellFormed(f)
      && ParseFile(f, keyLen) == Parsed(EntriesOf(c, keyLen), 0)
      && forall k :: 0 <= k < |f| ==> ParseFile(f[..k], keyLen) == Parsed([], if k < CHUNK_HEADER_SIZE then 0 else 1)
  {
    var data := FrameItems(c.payloads);
    var f := EncodeChunk(c.pubField, data);
    hide FrameItems, EncodeChunk, ParseFile, WellFormed, Tag, CutAll;
    ParseInvertsFrame(c.payloads);
    ChunkParses(c.pubField, data, keyLen);
    forall k | 0 <= k < |f|
      ensures ParseFile(f[..k], keyLen) == Parsed([], if k < CHUNK_HEADER_SIZE then 0 else 1)
    {
      TornChunk(c.pubField, data, k, keyLen);
    }
  }

  /** The parser inverts the writer on every list of chunks, and reports success. */
  lemma {:induction false} ParseInvertsWrite(chunks: seq<Chunk>, keyLen: nat)
    requires keyLen <= PUB_FIELD_SIZE
    ensures WellFormed(EncodeFile(chunks))
    ensures ParseFile(EncodeFile(chunks), keyLen) == Parsed(AllEntries(chunks, keyLen), 0)
  {
    if chunks == [] {
    } else {
      var first := EncodeChunk(chunks[0].pubField, FrameItems(chunks[0].payloads));
      assert EncodeFile(chunks) == first + EncodeFile(chunks[1..]);
      assert AllEntries(chunks, keyLen) == EntriesOf(chunks[0], keyLen) + AllEntries(chunks[1..], keyLen);
      hide FrameItems, EncodeChunk, ParseFile, WellFormed, EntriesOf, EncodeFile, AllEntries;
      WrittenChunkParses(chunks[0], keyLen);
      ParseInvertsWrite(chunks[1..], keyLen);
      ParseFileAppend(first, EncodeFile(chunks[1..]), keyLen);
      WellFormedAppend(first, EncodeFile(chunks[1..]));
    }
  }

  /** Every byte prefix of a file yields exactly the entries of the chunks complete in that prefix. */
  lemma {:induction false} ParsePrefix(chunks: seq<Chunk>, k: nat, keyLen: nat)
    requires keyLen <= PUB_FIELD_SIZE
    requires k <= |EncodeFile(chunks)|
    ensures ParseFile(EncodeFile(chunks)[..k], keyLen).entries == EntriesWithin(chunks, k, keyLen)
    decreases |chunks|
  {
    hide FrameItems, EncodeChunk, ParseFile, WellFormed, EntriesOf, EncodeFile, EntriesWithin, ChunkLength;
    if chunks == [] {
      NothingWritten(k, keyLen);
    } else {
      var first := EncodeChunk(chunks[0].pubField, FrameItems(chunks[0].payloads));
      var rest := EncodeFile(chunks[1..]);
      EncodeFileStep(chunks);
      WrittenChunkParses(chunks[0], keyLen);
      EntriesWithinStep(chunks, k, keyLen);
      if k < |first| {
        assert (first + rest)[..k] == first[..k];
      } else {
        var j := k - |first|;
        assert (first + rest)[..k] == first + rest[..j];
        ParsePrefix(chunks[1..], j, keyLen);
        ParseFileAppend(first, rest[..j], keyLen);
      }
    }
  }

  lemma NothingWritten(k: nat, keyLen: nat)
    requires keyLen <= PUB_FIELD_SIZE && k <= |EncodeFile([])|
    ensures ParseFile(EncodeFile([])[..k], keyLen).entries == EntriesWithin([], k, keyLen)
  {
    assert EncodeFile([])[..k] == [];
  }

  lemma EncodeFileStep(chunks: seq<Chunk>)
    requires chunks != []
    ensures EncodeFile(chunks)
         == EncodeChunk(chunks[0].pubField, FrameItems(chunks[0].payloads)) + EncodeFile(chunks[1..])
  {
  }

  /** The first k bytes are complete chunks, and no whole chunk header follows. */
  ghost predicate CleanEnd(f: seq<byte>, k: nat) {
    k <= |f| < k + 144 && WellFormed(f[..k])
  }

  lemma {:induction false} SuccessEndsClean(f: seq<byte>, keyLen: nat) returns (k: nat)
    requires keyLen <= PUB_FIELD_SIZE && ParseFile(f, keyLen).rc == 0
    ensures CleanEnd(f, k)
    decreases |f|
  {
    if |f| < CHUNK_HEADER_SIZE {
      k := 0;
    } else {
      var n := 144 + ChunkSize(f);
      ParseFileStep(f, keyLen);
      var j := SuccessEndsClean(AfterChunk(f), keyLen);
      k := n + j;
      assert f[..k][..n] == f[..n] && f[..k][n..] == AfterChunk(f)[..j];
      assert f[..k][..8] == f[..8] && f[..k][8..16] == f[8..16];
      hide FromLittleEndian;
      assert HasChunk(f[..k]) && AfterChunk(f[..k]) == AfterChunk(f)[..j];
    }
  }

  /** The parser reports success exactly for complete chunks followed by fewer bytes than a chunk header has. */
  lemma SuccessIff(f: seq<byte>, keyLen: nat)
    requires keyLen <= PUB_FIELD_SIZE
    ensures ParseFile(f, keyLen).rc == 0 <==> exists k: nat :: CleanEnd(f, k)
    ensures ParseFile(f, keyLen).rc in {0, 1}
  {
    StatusIsBinary(f, keyLen);
    if k: nat :| CleanEnd(f, k) {
      assert f == f[..k] + f[k..];
      ParseFileAppend(f[..k], f[k..], keyLen);
      assert ParseFile(f[k..], keyLen).rc == 0;
    } else if ParseFile(f, keyLen).rc == 0 {
      var k := SuccessEndsClean(f, keyLen);
    }
  }

  lemma {:induction false} StatusIsBinary(f: seq<byte>, keyLen: nat)
    requires keyLen <= PUB_FIELD_SIZE
    ensures ParseFile(f, keyLen).rc in {0, 1}
    decreases |f|
  {
    if HasChunk(f) {
      StatusIsBinary(AfterChunk(f), keyLen);
    }
  }

  /** A whole chunk header that does not begin with the magic. */
  predicate OtherChunk(f: seq<byte>) {
    |f| >= 144 && f[..8] != [0x00, 0x11, 0xda, 0xda, 0xef, 0xbe, 0xad, 0xde]
  }

  predicate OtherItem(d: seq<byte>) {
    |d| >= 8 && d[..4] != [0x11, 0xba, 0x5f, 0xbe]
  }

  /** Such a header ends the file with an error. */
  lemma BadChunkMagic(f: seq<byte>, keyLen: nat)
    requires keyLen <= PUB_FIELD_SIZE
    ensures OtherChunk(f) ==> ParseFile(f, keyLen) == Parsed([], 1)
  {
    ChunkMagicBytes();
    if |f| >= CHUNK_HEADER_SIZE && ChunkMagic(f) == CHUNK_MAGIC {
      LittleEndianInjective(f[..8], CHUNK_MAGIC_BYTES);
    }
    hide FromLittleEndian;
  }

  /** An item header that does not begin with the magic ends the chunk. */
  lemma BadItemMagic(d: seq<byte>)
    ensures OtherItem(d) ==> ParseItems(d) == []
  {
    ItemMagicBytes();
    if |d| >= ITEM_HEADER_SIZE && ItemMagic(d) == ITEM_MAGIC {
      LittleEndianInjective(d[..4], ITEM_MAGIC_BYTES);
    }
    hide FromLittleEndian;
  }

  // ---- Parser, as the program runs it ----

  /** The inner loop: offset walks over the chunk's data. */
  method ParseChunkData(data: seq<byte>, key: seq<byte>) returns (entries: seq<Entry>)
    ensures entries == Tag(key, ParseItems(data))
    ensures OtherItem(data) ==> entries == []
  {
    hide ParseItems, Tag, OtherItem;
    BadItemMagic(data);
    ghost var items := [];
    entries := [];
    var offset := 0;
    assert data[0..] == data;
    TagAppend(key, [], []);
    while offset + ITEM_HEADER_SIZE <= |data|
      invariant 0 <= offset <= |data|
      invariant entries == Tag(key, items)
      invariant ParseItems(data) == items + ParseItems(data[offset..])
    {
      ghost var d := data[offset..];
      ParseItemsEnd(d);
      var magic := FromLittleEndian(data[offset..offset + 4]);
      var size := FromLittleEndian(data[offset + 4..offset + 8]);
      assert d[..4] == data[offset..offset + 4] && d[4..8] == data[offset + 4..offset + 8];
      offset := offset + ITEM_HEADER_SIZE;
      if magic != ITEM_MAGIC {
        return;
      }
      if offset + size > |data| {
        return;
      }
      var payload := data[offset..offset + size];
      assert ItemPayload(d) == payload;
      assert AfterItem(d) == data[offset + size..];
      ParseItemsStep(d);
      hide HasItem, ItemPayload, AfterItem, FromLittleEndian;
      TagAppend(key, items, [payload]);
      ConcatAssociates(items, [payload], ParseItems(AfterItem(d)));
      entries := entries + [Entry(key, payload)];
      items := items + [payload];
      offset := offset + size;
    }
    ParseItemsEnd(data[offset..]);
  }

  /** The outer loop: the stream position walks over the file, chunk by chunk. */
  method ParseLogFile(file: seq<byte>, keyLen: nat) returns (parsed: Parsed)
    requires keyLen <= PUB_FIELD_SIZE
    ensures parsed == ParseFile(file, keyLen)
    ensures OtherChunk(file) ==> parsed == Parsed([], 1)
  {
    hide ParseFile, OtherChunk;
    BadChunkMagic(file, keyLen);
    var entries := [];
    var pos := 0;
    assert file[0..] == file;
    while pos < |file|
      invariant 0 <= pos <= |file|
      invariant ParseFile(file, keyLen)
             == Parsed(entries + ParseFile(file[pos..], keyLen).entries, ParseFile(file[pos..], keyLen).rc)
    {
      ghost var f := file[pos..];
      ParseFileEnd(f, keyLen);
      if pos + CHUNK_HEADER_SIZE > |file| {
        return Parsed(entries, 0);
      }
      assert f[..8] == file[pos..pos + 8] && f[8..16] == file[pos + 8..pos + 16];
      if FromLittleEndian(file[pos..pos + 8]) != CHUNK_MAGIC {
        return Parsed(entries, 1);
      }
      var size := FromLittleEndian(file[pos + 8..pos + 16]);
      var key := file[pos + 16..pos + 16 + keyLen];
      pos := pos + CHUNK_HEADER_SIZE;
      if pos + size > |file| {
        return Parsed(entries, 1);
      }
      assert f[16..16 + keyLen] == key;
      assert ChunkData(f) == file[pos..pos + size];
      assert AfterChunk(f) == file[pos + size..];
      var es := ParseChunkData(file[pos..pos + size], key);
      assert es == ChunkEntries(f, keyLen);
      ParseFileStep(f, keyLen);
      hide ChunkEntries, AfterChunk, HasChunk, ParseItems, Tag, FromLittleEndian;
      ConcatAssociates(entries, es, ParseFile(AfterChunk(f), keyLen).entries);
      entries := entries + es;
      pos := pos + size;
    }
    ParseFileEnd(file[pos..], keyLen);
    return Parsed(entries, 0);
  }
}
