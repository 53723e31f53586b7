/**
 The memory-mapped growable buffer. The backing file is a 16-byte header (magic, data size) and the
 data behind it; the whole file is mapped, so its length is the capacity. Growing rounds up to a
 page and extends the file with zeros. The file is what survives a crash of the process.
 */
module MMapBuffer {
  import opened Wrappers
  import opened Bytes

  const MAP_MAGIC: nat := 0x50414D4D
  const MAP_MAGIC_BYTES: seq<byte> := [0x4D, 0x4D, 0x41, 0x50, 0, 0, 0, 0]
  const MAP_HEADER_SIZE: nat := 16
  const DEFAULT_CAPACITY: nat := 524288
  const U64: nat := 0x1_0000_0000_0000_0000

  lemma MagicBytes()
    ensures FromLittleEndian(MAP_MAGIC_BYTES) == MAP_MAGIC
  {
    assert MAP_MAGIC_BYTES[4..][4..] == [];
    FourMore(MAP_MAGIC_BYTES);
    FourMore(MAP_MAGIC_BYTES[4..]);
  }

  // ---- Images of the backing file ----

  function StoredMagic(f: seq<byte>): nat
    requires |f| >= MAP_HEADER_SIZE
  {
    FromLittleEndian(f[..8])
  }

  function StoredSize(f: seq<byte>): nat
    requires |f| >= MAP_HEADER_SIZE
  {
    FromLittleEndian(f[8..16])
  }

  predicate HasMagic(f: seq<byte>) {
    |f| >= 8 && f[..8] == MAP_MAGIC_BYTES
  }

  /** A header this code wrote, in front of at least as many bytes as it announces. */
  predicate Sound(f: seq<byte>) {
    |f| >= MAP_HEADER_SIZE && StoredMagic(f) == MAP_MAGIC && MAP_HEADER_SIZE + StoredSize(f) <= |f|
  }

  function Content(f: seq<byte>): (c: seq<byte>)
    requires Sound(f)
    ensures |c| == StoredSize(f)
  {
    f[16..16 + StoredSize(f)]
  }

  /** The header's size field overwritten. */
  function WithSize(f: seq<byte>, size: nat): (g: seq<byte>)
    requires |f| >= MAP_HEADER_SIZE
    ensures |g| == |f|
  {
    f[..8] + LittleEndian(size, 8) + f[16..]
  }

  /** data copied over the bytes from position at on. */
  function Patch(f: seq<byte>, at: nat, data: seq<byte>): (g: seq<byte>)
    requires at + |data| <= |f|
    ensures |g| == |f|
  {
    f[..at] + data + f[at + |data|..]
  }

  function RoundUp(size: nat, page: nat): nat
    requires page >= 1
  {
    (size + page - 1) / page * page
  }

  function Extend(f: seq<byte>, size: nat): (g: seq<byte>)
    requires size >= |f|
    ensures |g| == size
  {
    f + Zeros(size - |f|)
  }

  /** The file after room for size bytes has been reserved. */
  function Reserved(f: seq<byte>, size: nat, page: nat): (g: seq<byte>)
    requires page >= 1
    ensures |g| >= |f| && |g| >= size && g[..|f|] == f
  {
    if size <= |f| then f
    else
      RoundUpBounds(size, page);
      Extend(f, RoundUp(size, page))
  }

  /** A header without the magic is replaced by that of an empty buffer. */
  function Initialised(f: seq<byte>): (g: seq<byte>)
    requires |f| >= MAP_HEADER_SIZE
    ensures |g| == |f|
  {
    if StoredMagic(f) == MAP_MAGIC then f
    else MAP_MAGIC_BYTES + LittleEndian(0, 8) + f[16..]
  }

  function OpenCapacity(f: seq<byte>, page: nat): nat
    requires page >= 1
  {
    RoundUp(if |f| > DEFAULT_CAPACITY then |f| else DEFAULT_CAPACITY, page)
  }

  /** The file as the constructor first maps it. */
  function Mapped(f: seq<byte>, page: nat): (g: seq<byte>)
    requires page >= 1
    ensures |g| == OpenCapacity(f, page) && |g| >= |f| && |g| >= DEFAULT_CAPACITY && g[..|f|] == f
  {
    RoundUpBounds(if |f| > DEFAULT_CAPACITY then |f| else DEFAULT_CAPACITY, page);
    Extend(f, OpenCapacity(f, page))
  }

  /** The file after the constructor has mapped it and seen to its header. */
  function Opened(f: seq<byte>, page: nat): seq<byte>
    requires page >= 1
  {
    Initialised(Mapped(f, page))
  }

  function Pushed(f: seq<byte>, data: seq<byte>, page: nat): seq<byte>
    requires page >= 1 && Sound(f)
  {
    var size := StoredSize(f);
    WithSize(Patch(Reserved(f, 16 + size + |data|, page), 16 + size, data), size + |data|)
  }

  // ---- Arithmetic of page rounding ----

  lemma RoundUpBounds(size: nat, page: nat)
    requires page >= 1
    ensures size <= RoundUp(size, page) < size + page
    ensures RoundUp(size, page) % page == 0
  {
    var q := (size + page - 1) / page;
    assert size + page - 1 == q * page + (size + page - 1) % page;
    MultipleOf(q, page);
  }

  lemma MultipleOf(q: int, page: nat)
    requires page >= 1
    ensures (q * page) % page == 0
  {
    var x := q * page;
    var d := q - x / page;
    assert d * page == x % page by {
      assert d * page == q * page - x / page * page;
    }
    if d >= 1 {
      AtMost(1, d, page);
    } else if d <= -1 {
      AtMost(d, -1, page);
    }
  }

  lemma AtMost(a: int, b: int, page: nat)
    requires a <= b
    ensures a * page <= b * page
  {
  }

  /** What is a multiple of the page size already is not rounded. */
  lemma RoundUpAligned(size: nat, page: nat)
    requires page >= 1 && size % page == 0
    ensures RoundUp(size, page) == size
  {
    var q, r := size / page, (size + page - 1) / page;
    assert size == q * page && RoundUp(size, page) == r * page;
    RoundUpBounds(size, page);
    hide RoundUp;
    SameMultiple(q, r, page);
  }

  lemma SameMultiple(q: nat, r: nat, page: nat)
    requires q * page <= r * page < q * page + page
    ensures q == r
  {
    if r < q {
      AtMost(r + 1, q, page);
    } else if r > q {
      AtMost(q + 1, r, page);
    }
  }

  // ---- Header and content ----

  lemma WithSizeFields(f: seq<byte>, size: nat)
    requires |f| >= MAP_HEADER_SIZE && size < U64
    ensures StoredSize(WithSize(f, size)) == size
    ensures StoredMagic(WithSize(f, size)) == StoredMagic(f)
    ensures forall i, j :: 16 <= i <= j <= |f| ==> WithSize(f, size)[i..j] == f[i..j]
  {
    Pow256Values();
    LittleEndianRoundTrip(size, 8);
    hide LittleEndian, FromLittleEndian, Pow256;
    var g := WithSize(f, size);
    assert g[..8] == f[..8];
    assert g[8..16] == LittleEndian(size, 8);
    forall i, j | 16 <= i <= j <= |f|
      ensures g[i..j] == f[i..j]
    {
      assert forall k :: 16 <= k < |f| ==> g[k] == f[k];
    }
  }

  lemma InitialisedIsSound(f: seq<byte>)
    requires |f| >= MAP_HEADER_SIZE
    requires StoredMagic(f) != MAP_MAGIC || MAP_HEADER_SIZE + StoredSize(f) <= |f|
    ensures Sound(Initialised(f))
    ensures StoredMagic(f) != MAP_MAGIC ==> Content(Initialised(f)) == []
    ensures StoredMagic(f) == MAP_MAGIC ==> Initialised(f) == f
  {
    Pow256Values();
    MagicBytes();
    LittleEndianRoundTrip(0, 8);
    hide LittleEndian, FromLittleEndian, Pow256;
    if StoredMagic(f) != MAP_MAGIC {
      var g := Initialised(f);
      assert g[..8] == MAP_MAGIC_BYTES;
      assert g[8..16] == LittleEndian(0, 8);
    }
  }

  /** Two images with the same header and the same announced bytes have the same content. */
  lemma SameContent(f: seq<byte>, g: seq<byte>)
    requires Sound(f) && |g| >= |f|
    requires forall i :: 0 <= i < 16 + StoredSize(f) ==> g[i] == f[i]
    ensures Sound(g) && Content(g) == Content(f) && StoredSize(g) == StoredSize(f)
  {
    hide FromLittleEndian;
    assert g[..8] == f[..8];
    assert g[8..16] == f[8..16];
  }

  // ---- Opening ----

  /** Reopening a file that this code wrote keeps its content. */
  lemma OpenKeepsContent(f: seq<byte>, page: nat)
    requires page >= 1 && Sound(f)
    ensures Sound(Opened(f, page)) && Content(Opened(f, page)) == Content(f)
  {
    hide FromLittleEndian, RoundUp;
    RoundUpBounds(if |f| > DEFAULT_CAPACITY then |f| else DEFAULT_CAPACITY, page);
    var g := Extend(f, OpenCapacity(f, page));
    SameContent(f, g);
    InitialisedIsSound(g);
  }

  /** A new file opens empty. */
  lemma OpenFresh(page: nat)
    requires page >= 1
    ensures Sound(Opened([], page)) && Content(Opened([], page)) == []
  {
    RoundUpBounds(DEFAULT_CAPACITY, page);
    var g := Extend([], OpenCapacity([], page));
    ZerosAreNotMagic(g[..8]);
    hide FromLittleEndian, RoundUp;
    InitialisedIsSound(g);
  }

  /** Not a file that carries the magic but announces more than can be mapped: the code does not look for that. */
  predicate Openable(f: seq<byte>, page: nat)
    requires page >= 1
  {
    var g := Mapped(f, page);
    StoredMagic(g) == MAP_MAGIC ==> MAP_HEADER_SIZE + StoredSize(g) <= |g|
  }

  /** A file that does not begin with the bytes of the magic opens empty, even one too short for them. */
  lemma NoMagicOpensEmpty(f: seq<byte>, page: nat)
    requires page >= 1 && Openable(f, page)
    requires !HasMagic(f)
    ensures Sound(Opened(f, page)) && Content(Opened(f, page)) == []
  {
    var g := Mapped(f, page);
    hide RoundUp, LittleEndian;
    InitialisedIsSound(g);
    if StoredMagic(g) == MAP_MAGIC {
      MagicBytes();
      if |f| >= 8 {
        assert g[..8] == f[..8];
        LittleEndianInjective(g[..8], MAP_MAGIC_BYTES);
      } else {
        ZerosAreNotMagic(g[8..16]);
      }
    }
  }

  /** Opening keeps the content of a file this code wrote, and makes any file without the magic an empty one. */
  lemma OpenReads(f: seq<byte>, page: nat)
    requires page >= 1 && Openable(f, page)
    ensures Sound(Opened(f, page))
    ensures Sound(f) ==> Content(Opened(f, page)) == Content(f)
    ensures f == [] || (|f| >= MAP_HEADER_SIZE && StoredMagic(f) != MAP_MAGIC) ==> Content(Opened(f, page)) == []
    ensures !HasMagic(f) ==> Content(Opened(f, page)) == []
  {
    if !HasMagic(f) {
      NoMagicOpensEmpty(f, page);
    }
    hide FromLittleEndian, RoundUp, LittleEndian;
    var g := Mapped(f, page);
    InitialisedIsSound(g);
    if Sound(f) {
      OpenKeepsContent(f, page);
    } else if f == [] {
      OpenFresh(page);
    } else if |f| >= MAP_HEADER_SIZE {
      assert g[..8] == f[..8];
    }
  }

  /** A new file, a file this code wrote, and a file without the magic can be opened. */
  lemma OpenableFiles(f: seq<byte>, page: nat)
    requires page >= 1
    requires f == [] || Sound(f) || !HasMagic(f)
    ensures Openable(f, page)
  {
    var g := Mapped(f, page);
    hide RoundUp, LittleEndian;
    if Sound(f) {
      SameContent(f, g);
    } else if |f| < 8 {
      ZerosAreNotMagic(g[8..16]);
    } else {
      MagicBytes();
      assert g[..8] == f[..8];
      if StoredMagic(g) == MAP_MAGIC {
        LittleEndianInjective(g[..8], MAP_MAGIC_BYTES);
      }
    }
  }

  /** The file gets at least 512 KiB and less than a page more than it needs; an aligned one stays as long as it is. */
  lemma OpenCapacityBounds(f: seq<byte>, page: nat)
    requires page >= 1
    ensures var need := if |f| > 524288 then |f| else 524288;
      need <= |Mapped(f, page)| < need + page && |Mapped(f, page)| % page == 0
    ensures |f| % page == 0 && |f| >= 524288 ==> Mapped(f, page) == f
  {
    var need := if |f| > 524288 then |f| else 524288;
    RoundUpBounds(need, page);
    if |f| % page == 0 && |f| >= 524288 {
      RoundUpAligned(|f|, page);
    }
  }

  /** Opening what opening has left changes nothing. */
  lemma OpeningTwice(f: seq<byte>, page: nat)
    requires page >= 1 && Openable(f, page)
    ensures Opened(Opened(f, page), page) == Opened(f, page)
  {
    OpenReads(f, page);
    OpenCapacityBounds(f, page);
    OpenCapacityBounds(Opened(f, page), page);
    hide OpenCapacity, FromLittleEndian, LittleEndian, RoundUp;
  }

  lemma ZerosOpenEmpty(n: nat, page: nat)
    requires page >= 1
    ensures Sound(Opened(Zeros(n), page)) && Content(Opened(Zeros(n), page)) == []
  {
    var f := Zeros(n);
    RoundUpBounds(if |f| > DEFAULT_CAPACITY then |f| else DEFAULT_CAPACITY, page);
    var g := Extend(f, OpenCapacity(f, page));
    hide LittleEndian, FromLittleEndian, RoundUp;
    ZerosAreNotMagic(g[..8]);
    InitialisedIsSound(g);
  }

  lemma MagicThenZerosIsEmpty(zeros: seq<byte>)
    requires |zeros| >= 16 && forall i :: 0 <= i < |zeros| ==> zeros[i] == 0
    ensures Sound(MAP_MAGIC_BYTES + zeros[8..]) && Content(MAP_MAGIC_BYTES + zeros[8..]) == []
  {
    Pow256Values();
    MagicBytes();
    hide LittleEndian, FromLittleEndian, Pow256;
    var image := MAP_MAGIC_BYTES + zeros[8..];
    assert image[..8] == MAP_MAGIC_BYTES;
    assert image[8..16] == zeros[8..16];
    assert image[16..16] == [];
    ZerosAreNotMagic(zeros[8..16]);
  }

  /** A crash while a new file is being opened leaves it one of three ways, and each opens empty again. */
  lemma FreshOpenIsCrashAtomic(page: nat, image: seq<byte>)
    requires page >= 1
    requires var zeros := Zeros(OpenCapacity([], page));
      || image == []
      || image == zeros
      || (|zeros| >= 16 && image == MAP_MAGIC_BYTES + zeros[8..])
    ensures Sound(Opened(image, page)) && Content(Opened(image, page)) == []
  {
    hide Opened, LittleEndian, FromLittleEndian, RoundUp, OpenCapacity, Sound, Content;
    var zeros := Zeros(OpenCapacity([], page));
    if image == [] {
      OpenFresh(page);
    } else if image == zeros {
      ZerosOpenEmpty(OpenCapacity([], page), page);
    } else {
      MagicThenZerosIsEmpty(zeros);
      OpenKeepsContent(image, page);
    }
  }

  lemma {:induction false} ZerosAreNotMagic(s: seq<byte>)
    requires forall i :: 0 <= i < |s| ==> s[i] == 0
    ensures FromLittleEndian(s) == 0
  {
    if s == [] {
    } else {
      ZerosAreNotMagic(s[1..]);
    }
  }

  // ---- Push, step by step, and crashes inside it ----

  /** Where Push is: about to reserve, copying, or done. */
  datatype PushPc = Begin | Copying | Stored

  /** The file image and the positions of data copied so far; the copy may take them in any order. */
  datatype PushState = PushState(pc: PushPc, image: seq<byte>, done: set<nat>)

  ghost predicate PushStep(f: seq<byte>, data: seq<byte>, page: nat, s: PushState, s': PushState)
    requires page >= 1 && Sound(f)
  {
    match s.pc
    case Begin =>
      s' == PushState(Copying, Reserved(s.image, 16 + StoredSize(f) + |data|, page), {})
    case Copying =>
      || (exists i :: CopiesByte(f, data, s, s', i))
      || (&& (forall i :: 0 <= i < |data| ==> i in s.done)
          && |s.image| >= MAP_HEADER_SIZE
          && s' == PushState(Stored, WithSize(s.image, StoredSize(f) + |data|), s.done))
    case Stored => false
  }

  ghost predicate CopiesByte(f: seq<byte>, data: seq<byte>, s: PushState, s': PushState, i: nat)
    requires Sound(f)
  {
    var at := 16 + StoredSize(f) + i;
    && i < |data| && i !in s.done && at < |s.image|
    && s' == PushState(Copying, s.image[at := data[i]], s.done + {i})
  }

  ghost predicate PushInv(f: seq<byte>, data: seq<byte>, page: nat, s: PushState)
    requires page >= 1 && Sound(f)
  {
    var size := StoredSize(f);
    var mapped := Reserved(f, 16 + size + |data|, page);
    match s.pc
    case Begin => s.image == f
    case Copying =>
      && |s.image| == |mapped|
      && (forall i :: 0 <= i < |mapped| && !(16 + size <= i < 16 + size + |data|) ==> s.image[i] == mapped[i])
      && (forall i :: 0 <= i < |data| && i in s.done ==> s.image[16 + size + i] == data[i])
    case Stored => s.image == Pushed(f, data, page)
  }

  lemma AllCopied(f: seq<byte>, data: seq<byte>, page: nat, s: PushState)
    requires page >= 1 && Sound(f) && PushInv(f, data, page, s) && s.pc.Copying?
    requires forall i :: 0 <= i < |data| ==> i in s.done
    ensures s.image == Patch(Reserved(f, 16 + StoredSize(f) + |data|, page), 16 + StoredSize(f), data)
  {
    hide FromLittleEndian, LittleEndian, RoundUp;
    var at := 16 + StoredSize(f);
    var patched := Patch(Reserved(f, at + |data|, page), at, data);
    forall k | 0 <= k < |s.image|
      ensures s.image[k] == patched[k]
    {
      if at <= k < at + |data| {
        assert s.image[at + (k - at)] == data[k - at];
      }
    }
  }

  lemma PushStepKeepsInv(f: seq<byte>, data: seq<byte>, page: nat, s: PushState, s': PushState)
    requires page >= 1 && Sound(f) && PushInv(f, data, page, s) && PushStep(f, data, page, s, s')
    ensures PushInv(f, data, page, s')
  {
    hide FromLittleEndian, LittleEndian, RoundUp;
    if s.pc.Copying? && s'.pc.Stored? {
      AllCopied(f, data, page, s);
    }
  }

  lemma UntouchedUntilStored(f: seq<byte>, data: seq<byte>, page: nat, s: PushState)
    requires page >= 1 && Sound(f) && PushInv(f, data, page, s) && !s.pc.Stored?
    ensures Sound(s.image) && Content(s.image) == Content(f)
  {
    hide FromLittleEndian, LittleEndian, RoundUp;
    if s.pc.Copying? {
      var mapped := Reserved(f, 16 + StoredSize(f) + |data|, page);
      assert forall i :: 0 <= i < |f| ==> mapped[i] == mapped[..|f|][i];
      SameContent(f, s.image);
    }
  }

  /** A whole push appends the data to the content. */
  lemma PushAppends(f: seq<byte>, data: seq<byte>, page: nat)
    requires page >= 1 && Sound(f) && 16 + StoredSize(f) + |data| < U64
    ensures Sound(Pushed(f, data, page))
    ensures Content(Pushed(f, data, page)) == Content(f) + data
    ensures StoredSize(Pushed(f, data, page)) == StoredSize(f) + |data|
    ensures |Pushed(f, data, page)| == |Reserved(f, 16 + StoredSize(f) + |data|, page)|
  {
    hide FromLittleEndian, LittleEndian, RoundUp;
    var size := StoredSize(f);
    var mapped := Reserved(f, 16 + size + |data|, page);
    var patched := Patch(mapped, 16 + size, data);
    assert Pushed(f, data, page) == WithSize(patched, size + |data|);
    hide WithSize, Reserved;
    assert forall i :: 0 <= i < |f| ==> mapped[i] == mapped[..|f|][i];
    SameContent(f, patched);
    WithSizeFields(patched, size + |data|);
    assert patched[16..16 + size + |data|] == patched[16..16 + size] + data;
  }

  /** Reading the file back at any moment of a push: the old content until the size is stored, then the new. */
  lemma PushMoment(f: seq<byte>, data: seq<byte>, page: nat, s: PushState)
    requires page >= 1 && Sound(f) && PushInv(f, data, page, s)
    requires 16 + StoredSize(f) + |data| < U64
    ensures Sound(s.image)
    ensures Content(s.image) == if s.pc.Stored? then Content(f) + data else Content(f)
  {
    if s.pc.Stored? {
      PushAppends(f, data, page);
    } else {
      UntouchedUntilStored(f, data, page, s);
    }
  }

  /** A run of Push, from its start on, possibly cut short by a crash. */
  ghost predicate PushRun(f: seq<byte>, data: seq<byte>, page: nat, run: seq<PushState>)
    requires page >= 1 && Sound(f)
  {
    && run != []
    && run[0] == PushState(Begin, f, {})
    && forall k :: 0 <= k < |run| - 1 ==> PushStep(f, data, page, run[k], run[k + 1])
  }

  lemma {:induction false} PushRunInv(f: seq<byte>, data: seq<byte>, page: nat, run: seq<PushState>, k: nat)
    requires page >= 1 && Sound(f) && PushRun(f, data, page, run) && k < |run|
    ensures PushInv(f, data, page, run[k])
  {
    if k == 0 {
    } else {
      PushRunInv(f, data, page, run, k - 1);
      PushStepKeepsInv(f, data, page, run[k - 1], run[k]);
    }
  }

  /**
   A push is atomic under crashes: reopening the file left by a crash at any moment gives exactly the
   old content, or exactly the old content with the data behind it once the size has been stored.
   */
  lemma PushIsCrashAtomic(f: seq<byte>, data: seq<byte>, page: nat, run: seq<PushState>)
    requires page >= 1 && Sound(f) && 16 + StoredSize(f) + |data| < U64
    requires PushRun(f, data, page, run)
    ensures var image := run[|run| - 1].image;
      && Sound(image) && Sound(Opened(image, page))
      && Content(Opened(image, page))
           == if run[|run| - 1].pc.Stored? then Content(f) + data else Content(f)
  {
    PushRunInv(f, data, page, run, |run| - 1);
    PushMoment(f, data, page, run[|run| - 1]);
    OpenKeepsContent(run[|run| - 1].image, page);
  }

  // ---- Whole pushes ----

  function Concat(datas: seq<seq<byte>>): seq<byte> {
    if datas == [] then [] else datas[0] + Concat(datas[1..])
  }

  function PushedAll(f: seq<byte>, datas: seq<seq<byte>>, page: nat): seq<byte>
    requires page >= 1 && Sound(f) && 16 + StoredSize(f) + |Concat(datas)| < U64
    decreases |datas|
  {
    if datas == [] then f
    else
      PushAppends(f, datas[0], page);
      PushedAll(Pushed(f, datas[0], page), datas[1..], page)
  }

  /** Any number of pushes, growing as often as needed, append to the content and never shrink the file. */
  lemma {:induction false} PushesAppend(f: seq<byte>, datas: seq<seq<byte>>, page: nat)
    requires page >= 1 && Sound(f) && 16 + StoredSize(f) + |Concat(datas)| < U64
    ensures Sound(PushedAll(f, datas, page))
    ensures Content(PushedAll(f, datas, page)) == Content(f) + Concat(datas)
    ensures |PushedAll(f, datas, page)| >= |f|
    ensures |f| % page == 0 ==> |PushedAll(f, datas, page)| % page == 0
    decreases |datas|
  {
    if datas == [] {
    } else {
      var g := Pushed(f, datas[0], page);
      RoundUpBounds(16 + StoredSize(f) + |datas[0]|, page);
      PushAppends(f, datas[0], page);
      assert |g| >= |f| && (|f| % page == 0 ==> |g| % page == 0);
      assert PushedAll(f, datas, page) == PushedAll(g, datas[1..], page);
      hide FromLittleEndian, LittleEndian, RoundUp, WithSize, Reserved, Pushed, PushedAll, Sound, Content;
      PushesAppend(g, datas[1..], page);
      ConcatAssociates(Content(f), datas[0], Concat(datas[1..]));
    }
  }

  /** Clearing only resets the size, so restoring the size brings the content back. */
  lemma ClearIsUndoneByResize(f: seq<byte>)
    requires Sound(f) && |f| < U64
    ensures Sound(WithSize(f, 0)) && Content(WithSize(f, 0)) == []
    ensures Sound(WithSize(WithSize(f, 0), StoredSize(f)))
    ensures Content(WithSize(WithSize(f, 0), StoredSize(f))) == Content(f)
  {
    WithSizeFields(f, 0);
    WithSizeFields(WithSize(f, 0), StoredSize(f));
    hide WithSize, FromLittleEndian, LittleEndian;
  }

  // ---- Fill after a growth ----

  /** More than four fifths full: the integer form of a fill ratio above 0.8. */
  predicate NearlyFull(size: nat, capacity: nat) {
    5 * size > 4 * (capacity - MAP_HEADER_SIZE)
  }

  predicate ValidCapacity(capacity: nat, page: nat)
    requires page >= 1
  {
    capacity % page == 0 && capacity >= DEFAULT_CAPACITY
  }

  /** Whatever valid capacity is outgrown by whatever need, the buffer is nearly full right after growing. */
  ghost predicate GrowthLeavesNearlyFull(page: nat)
    requires page >= 1
  {
    forall capacity: nat, need: nat {:trigger ValidCapacity(capacity, page), RoundUp(need, page)} ::
      ValidCapacity(capacity, page) && need > capacity ==> NearlyFull(need - MAP_HEADER_SIZE, RoundUp(need, page))
  }

  /** A ratio above 0.8, with the division multiplied out. */
  lemma OverFourFifths(size: real, room: real)
    requires room > 0.0
    ensures size / room > 0.8 <==> 5.0 * size > 4.0 * room
  {
    var ratio := size / room;
    assert size == ratio * room;
    if ratio > 0.8 {
      assert (ratio - 0.8) * room > 0.0;
    } else {
      assert (0.8 - ratio) * room >= 0.0;
    }
  }

  lemma GrowthFill(capacity: nat, need: nat, page: nat)
    requires 1 <= page < 131072 && ValidCapacity(capacity, page) && need > capacity
    ensures NearlyFull(need - MAP_HEADER_SIZE, RoundUp(need, page))
    ensures RoundUp(need, page) - need < page
  {
    RoundUpBounds(need, page);
    var q := capacity / page;
    assert capacity == q * page;
    if q <= 4 {
      AtMost(q, 4, page);
      assert false;
    }
    AtMost(5, q, page);
  }

  /** The next multiple after one that is just outgrown. */
  lemma NextMultiple(q: nat, page: nat)
    requires page >= 1
    ensures RoundUp(q * page + 1, page) == (q + 1) * page
  {
    var need := q * page + 1;
    RoundUpBounds(need, page);
    var r := (need + page - 1) / page;
    assert RoundUp(need, page) == r * page;
    if r <= q {
      AtMost(r, q, page);
    } else if r >= q + 2 {
      AtMost(q + 2, r, page);
    }
  }

  lemma GrowthMayLeaveSlack(page: nat)
    requires page >= 131072
    ensures !GrowthLeavesNearlyFull(page)
  {
    var capacity := RoundUp(DEFAULT_CAPACITY, page);
    RoundUpBounds(DEFAULT_CAPACITY, page);
    var q := (DEFAULT_CAPACITY + page - 1) / page;
    assert capacity == q * page;
    if q >= 5 {
      AtMost(5, q, page);
      assert false;
    }
    AtMost(q, 4, page);
    NextMultiple(q, page);
    assert ValidCapacity(capacity, page);
    assert !NearlyFull(capacity + 1 - MAP_HEADER_SIZE, RoundUp(capacity + 1, page));
  }

  /** Growing always leaves the buffer nearly full exactly for page sizes below 128 KiB. */
  lemma GrowthLeavesNearlyFullIff(page: nat)
    requires page >= 1
    ensures GrowthLeavesNearlyFull(page) <==> page < 131072
  {
    if page < 131072 {
      forall capacity: nat, need: nat | ValidCapacity(capacity, page) && need > capacity
        ensures NearlyFull(need - MAP_HEADER_SIZE, RoundUp(need, page))
      {
        GrowthFill(capacity, need, page);
      }
    } else {
      GrowthMayLeaveSlack(page);
    }
  }

  /** The capacity after room has been made for size bytes of content. */
  function Grown(capacity: nat, size: nat, page: nat): nat
    requires page >= 1
  {
    if MAP_HEADER_SIZE + size <= capacity then capacity else RoundUp(MAP_HEADER_SIZE + size, page)
  }

  /** The capacity stays if there is room, and is else less than a page more than needed. */
  lemma GrownBounds(capacity: nat, size: nat, page: nat)
    requires page >= 1
    ensures 16 + size <= capacity ==> Grown(capacity, size, page) == capacity
    ensures 16 + size > capacity ==>
      16 + size <= Grown(capacity, size, page) < 16 + size + page && Grown(capacity, size, page) % page == 0
  {
    RoundUpBounds(16 + size, page);
  }

  // ---- The object ----

  /** At least 512 KiB and less than a page more than needed; an aligned file of that size is not extended. */
  predicate IsRoomFor(capacity: nat, f: seq<byte>, page: nat)
    requires page >= 1
  {
    && |f| <= capacity && 524288 <= capacity < (if |f| > 524288 then |f| else 524288) + page
    && (|f| % page == 0 && |f| >= 524288 ==> capacity == |f|)
  }

  class MMapAux {
    /** The backing file, all of which is mapped. */
    var file: seq<byte>
    var capacity: nat
    const page: nat

    ghost predicate Valid()
      reads this
    {
      && page >= 1
      && Sound(file)
      && capacity == |file|
      && ValidCapacity(capacity, page)
    }

    ghost function View(): seq<byte>
      reads this
      requires Valid()
    {
      Content(file)
    }

    /** Opens a new file, one that this code wrote, or any other without the magic, which is reset to empty. */
    constructor (f: seq<byte>, page: nat)
      requires page >= 1 && Openable(f, page)
      ensures Valid() && this.page == page
      ensures file == Opened(f, page) && View() == Content(Opened(f, page))
      ensures Sound(f) ==> View() == Content(f)
      ensures f == [] || (|f| >= MAP_HEADER_SIZE && StoredMagic(f) != MAP_MAGIC) ==> View() == []
      ensures !HasMagic(f) ==> View() == []
      ensures IsRoomFor(capacity, f, page)
    {
      this.page := page;
      OpenCapacityBounds(f, page);
      OpenReads(f, page);
      this.capacity := OpenCapacity(f, page);
      this.file := Initialised(Extend(f, OpenCapacity(f, page)));
    }

    method Size() returns (n: nat)
      requires Valid()
      ensures n == |View()|
    {
      n := StoredSize(file);
    }

    method Empty() returns (b: bool)
      requires Valid()
      ensures b <==> View() == []
    {
      b := StoredSize(file) == 0;
    }

    method Data() returns (d: seq<byte>)
      requires Valid()
      ensures d == View()
    {
      d := file[16..16 + StoredSize(file)];
    }

    /** The fill ratio compared with 0.8. */
    method RatioAbove80() returns (b: bool)
      requires Valid()
      ensures b <==> NearlyFull(|View()|, capacity)
      ensures b <==> |View()| as real / (capacity - 16) as real > 0.8
    {
      OverFourFifths(|View()| as real, (capacity - 16) as real);
      b := 5 * StoredSize(file) > 4 * (capacity - MAP_HEADER_SIZE);
    }

    method Reserve(newSize: nat)
      requires Valid()
      modifies this
      ensures Valid() && View() == old(View())
      ensures file == Reserved(old(file), newSize, page)
      ensures capacity == |file| && capacity >= newSize && capacity >= old(capacity)
      ensures newSize > old(capacity) ==> capacity == RoundUp(newSize, page) && capacity < newSize + page
      ensures newSize <= old(capacity) ==> capacity == old(capacity)
    {
      RoundUpBounds(newSize, page);
      hide RoundUp, FromLittleEndian;
      if newSize <= capacity {
        return;
      }
      var valid := RoundUp(newSize, page);
      ghost var before := file;
      file := Extend(file, valid);
      capacity := valid;
      SameContent(before, file);
    }

    /** Appends: the content grows by exactly data, whether or not the file had to grow. */
    method Push(data: seq<byte>)
      requires Valid() && 16 + |View()| + |data| < U64
      modifies this
      ensures Valid()
      ensures View() == old(View()) + data
      ensures file == Pushed(old(file), data, page)
      ensures capacity >= old(capacity)
      ensures capacity == Grown(old(capacity), |View()|, page)
    {
      PushAppends(file, data, page);
      hide FromLittleEndian, LittleEndian, RoundUp, WithSize, Patch, Reserved, Content;
      ghost var before := file;
      Reserve(MAP_HEADER_SIZE + StoredSize(file) + |data|);
      var size := StoredSize(file);
      assert size == StoredSize(before);
      file := Patch(file, 16 + size, data);
      file := WithSize(file, size + |data|);
    }

    /** Makes the first newSize bytes the content: what was there stays, the rest is whatever the file holds. */
    method Resize(newSize: nat)
      requires Valid() && 16 + newSize < U64
      modifies this
      ensures Valid()
      ensures |View()| == newSize
      ensures forall i :: 0 <= i < newSize && i < |old(View())| ==> View()[i] == old(View())[i]
      ensures capacity == Grown(old(capacity), newSize, page)
      ensures file == WithSize(Reserved(old(file), 16 + newSize, page), newSize)
    {
      Reserve(MAP_HEADER_SIZE + newSize);
      WithSizeFields(file, newSize);
      hide FromLittleEndian, LittleEndian, RoundUp, WithSize;
      ghost var before := file;
      file := WithSize(file, newSize);
      assert View() == before[16..16 + newSize];
    }

    /** Empties the content by storing a zero size; the capacity stays. */
    method Clear()
      requires Valid()
      modifies this
      ensures Valid() && View() == []
      ensures file == WithSize(old(file), 0) && capacity == old(capacity)
    {
      WithSizeFields(file, 0);
      hide FromLittleEndian, LittleEndian, RoundUp, WithSize;
      file := WithSize(file, 0);
    }
  }
}
