/**
 The protobuf wire format of EffectiveMsg: four int32 fields, one int64 field and three UTF-8
 strings. The encoding is the one of the Protocol Buffers Encoding guide, sections "Base 128
 Varints", "Signed Integers", "Length-Delimited Records" and "Last One Wins".
 */
module Wire {
  import opened Wrappers
  import opened Bytes

  const TWO31: nat := 0x8000_0000
  const TWO32: nat := 0x1_0000_0000
  const TWO63: nat := 0x8000_0000_0000_0000
  const TWO64: nat := 0x1_0000_0000_0000_0000

  type int32 = x: int | -0x8000_0000 <= x < 0x8000_0000
  type int64 = x: int | -0x8000_0000_0000_0000 <= x < 0x8000_0000_0000_0000
  type uint64 = x: int | 0 <= x < 0x1_0000_0000_0000_0000

  /** Field values; an absent field and a field holding zero or the empty string are the same value. */
  datatype Msg = Msg(
    level: int32, timestamp: int64, pid: int32, tid: int32, line: int32,
    fileName: seq<byte>, funcName: seq<byte>, logInfo: seq<byte>)

  const DEFAULT: Msg := Msg(0, 0, 0, 0, 0, [], [], [])

  /** A string the 32-bit lengths of the format can carry and the validator accepts. */
  ghost predicate GoodString(s: seq<byte>, utf8: seq<byte> -> bool) {
    |s| < TWO31 && (s != [] ==> utf8(s))
  }

  ghost predicate GoodMsg(m: Msg, utf8: seq<byte> -> bool) {
    GoodString(m.fileName, utf8) && GoodString(m.funcName, utf8) && GoodString(m.logInfo, utf8)
  }

  // ---- Varints ----

  function Varint(v: nat): (s: seq<byte>)
    ensures |s| >= 1
  {
    if v < 128 then [v] else [v % 128 + 128] + Varint(v / 128)
  }

  datatype Read = Bad | Got(value: nat, size: nat)

  /** Reads a varint of at most k bytes from the front of s. */
  function ReadVarint(s: seq<byte>, k: nat): (r: Read)
    ensures r.Got? ==> 1 <= r.size <= |s| && r.size <= k
  {
    if s == [] || k == 0 then Bad
    else if s[0] < 128 then Got(s[0], 1)
    else
      match ReadVarint(s[1..], k - 1)
      case Bad => Bad
      case Got(v, n) => Got(s[0] - 128 + 128 * v, n + 1)
  }

  function Pow128(k: nat): (p: nat)
    ensures p >= 1
  {
    if k == 0 then 1 else 128 * Pow128(k - 1)
  }

  /** A value below 128^k takes at most k bytes and reads back, whatever follows it. */
  lemma {:induction false} VarintReadsBack(v: nat, k: nat, rest: seq<byte>)
    requires k >= 1 && v < Pow128(k)
    ensures |Varint(v)| <= k
    ensures ReadVarint(Varint(v) + rest, k) == Got(v, |Varint(v)|)
    decreases k
  {
    if v < 128 {
      assert (Varint(v) + rest)[0] == v;
    } else {
      var tail := Varint(v / 128);
      assert (Varint(v) + rest)[1..] == tail + rest;
      VarintReadsBack(v / 128, k - 1, rest);
    }
  }

  /** v without its lowest i groups of seven bits. */
  function DropGroups(v: nat, i: nat): nat {
    if i == 0 then v else DropGroups(v / 128, i - 1)
  }

  /** Byte i holds group i of seven bits, lowest first, and its top bit says that more follow. */
  lemma {:induction false} VarintBytes(v: nat, i: nat)
    requires i < |Varint(v)|
    ensures Varint(v)[i] == DropGroups(v, i) % 128 + if i + 1 < |Varint(v)| then 128 else 0
  {
    if i == 0 {
    } else {
      VarintBytes(v / 128, i - 1);
    }
  }

  lemma Pow128Ten()
    ensures Pow128(10) >= TWO64
    ensures Pow128(9) == TWO63
  {
    assert Pow128(3) == 0x20_0000;
    assert Pow128(6) == 0x400_0000_0000;
    assert Pow128(9) == TWO63;
  }

  /** The number of bytes of a varint, as the size computation gets it: one byte per started group of seven bits. */
  function VarintSize(v: uint64): nat {
    if v < 0x80 then 1
    else if v < 0x4000 then 2
    else if v < 0x20_0000 then 3
    else if v < 0x1000_0000 then 4
    else if v < 0x8_0000_0000 then 5
    else if v < 0x400_0000_0000 then 6
    else if v < 0x2_0000_0000_0000 then 7
    else if v < 0x100_0000_0000_0000 then 8
    else if v < 0x8000_0000_0000_0000 then 9
    else 10
  }

  /** The size computation agrees with what the encoder writes. */
  lemma {:induction false} VarintSizeIsExact(v: uint64)
    ensures VarintSize(v) == |Varint(v)|
  {
    if v < 128 {
    } else {
      VarintSizeStep(v);
      VarintSizeIsExact(v / 128);
    }
  }

  lemma VarintSizeStep(v: uint64)
    requires v >= 128
    ensures VarintSize(v) == 1 + VarintSize(v / 128)
  {
  }

  // ---- Signed integers ----

  /** Two's complement on 64 bits: an int32 is sign-extended, so a negative one takes ten bytes. */
  function ToUint64(x: int64): uint64 {
    if x < 0 then x + TWO64 else x
  }

  function ToInt64(u: nat): int64 {
    var w := u % TWO64;
    if w >= TWO63 then w - TWO64 else w
  }

  function ToInt32(u: nat): int32 {
    var w := u % TWO32;
    if w >= TWO31 then w - TWO32 else w
  }

  lemma SignedReadBack(x: int64)
    ensures ToInt64(ToUint64(x)) == x
    ensures -0x8000_0000 <= x < 0x8000_0000 ==> ToInt32(ToUint64(x)) == x
    ensures ToUint64(x) == 0 <==> x == 0
  {
  }

  lemma NegativeTakesTenBytes(x: int64)
    requires x < 0
    ensures |Varint(ToUint64(x))| == 10
  {
    VarintSizeIsExact(ToUint64(x));
  }

  // ---- Serializer ----

  /** Tag byte, then the value; a zero field is not written. */
  function VarintField(tag: byte, x: int64): seq<byte> {
    if x == 0 then [] else [tag] + Varint(ToUint64(x))
  }

  /** Tag byte, length, then the bytes; an empty field is not written. */
  function StringField(tag: byte, s: seq<byte>): seq<byte> {
    if s == [] then [] else [tag] + Varint(|s|) + s
  }

  /** In field-number order. */
  function Serialize(m: Msg): seq<byte> {
    VarintField(8, m.level)
    + (VarintField(16, m.timestamp)
    + (VarintField(24, m.pid)
    + (VarintField(32, m.tid)
    + (VarintField(40, m.line)
    + (StringField(50, m.fileName)
    + (StringField(58, m.funcName)
    + StringField(66, m.logInfo)))))))
  }

  lemma EmptyFields()
    ensures VarintField(8, 0) == [] && VarintField(16, 0) == [] && VarintField(24, 0) == []
    ensures VarintField(32, 0) == [] && VarintField(40, 0) == []
    ensures StringField(50, []) == [] && StringField(58, []) == [] && StringField(66, []) == []
  {
  }

  lemma NumberAlone(x: int32, t: int64)
    ensures Serialize(DEFAULT.(level := x)) == VarintField(8, x)
    ensures Serialize(DEFAULT.(timestamp := t)) == VarintField(16, t)
    ensures Serialize(DEFAULT.(pid := x)) == VarintField(24, x)
    ensures Serialize(DEFAULT.(tid := x)) == VarintField(32, x)
    ensures Serialize(DEFAULT.(line := x)) == VarintField(40, x)
  {
    EmptyFields();
    hide VarintField, StringField;
  }

  lemma StringAlone(s: seq<byte>)
    ensures Serialize(DEFAULT.(fileName := s)) == StringField(50, s)
    ensures Serialize(DEFAULT.(funcName := s)) == StringField(58, s)
    ensures Serialize(DEFAULT.(logInfo := s)) == StringField(66, s)
  {
    EmptyFields();
    hide VarintField, StringField;
  }

  /** A field's tag is its number times eight, plus 0 for a number and 2 for a string. */
  lemma FieldNumbers(x: int32, t: int64, s: seq<byte>)
    requires x != 0 && t != 0 && s != []
    ensures Serialize(DEFAULT.(level := x)) == [8 * 1] + Varint(ToUint64(x))
    ensures Serialize(DEFAULT.(timestamp := t)) == [8 * 2] + Varint(ToUint64(t))
    ensures Serialize(DEFAULT.(pid := x)) == [8 * 3] + Varint(ToUint64(x))
    ensures Serialize(DEFAULT.(tid := x)) == [8 * 4] + Varint(ToUint64(x))
    ensures Serialize(DEFAULT.(line := x)) == [8 * 5] + Varint(ToUint64(x))
    ensures Serialize(DEFAULT.(fileName := s)) == [8 * 6 + 2] + Varint(|s|) + s
    ensures Serialize(DEFAULT.(funcName := s)) == [8 * 7 + 2] + Varint(|s|) + s
    ensures Serialize(DEFAULT.(logInfo := s)) == [8 * 8 + 2] + Varint(|s|) + s
  {
    NumberAlone(x, t);
    StringAlone(s);
    hide Serialize, Varint, ToUint64;
  }

  /** The fields with numbers up to k. */
  function UpTo(m: Msg, k: nat): Msg {
    Msg(
      if 1 <= k then m.level else 0,
      if 2 <= k then m.timestamp else 0,
      if 3 <= k then m.pid else 0,
      if 4 <= k then m.tid else 0,
      if 5 <= k then m.line else 0,
      if 6 <= k then m.fileName else [],
      if 7 <= k then m.funcName else [],
      if 8 <= k then m.logInfo else [])
  }

  function Beyond(m: Msg, k: nat): Msg {
    Msg(
      if 1 > k then m.level else 0,
      if 2 > k then m.timestamp else 0,
      if 3 > k then m.pid else 0,
      if 4 > k then m.tid else 0,
      if 5 > k then m.line else 0,
      if 6 > k then m.fileName else [],
      if 7 > k then m.funcName else [],
      if 8 > k then m.logInfo else [])
  }

  /** Fields are written in the order of their numbers: those up to k, and then the others. */
  lemma InFieldOrder(m: Msg, k: nat)
    ensures Serialize(m) == Serialize(UpTo(m, k)) + Serialize(Beyond(m, k))
  {
    var u, b := UpTo(m, k), Beyond(m, k);
    EmptyFields();
    hide VarintField, StringField;
    assert Serialize(u) + Serialize(b)
        == VarintField(8, u.level) + (VarintField(16, u.timestamp) + (VarintField(24, u.pid) + (VarintField(32, u.tid)
           + (VarintField(40, u.line) + (StringField(50, u.fileName) + (StringField(58, u.funcName)
           + (StringField(66, u.logInfo) + Serialize(b)))))))) by {
      Regroup(VarintField(8, u.level), VarintField(16, u.timestamp), VarintField(24, u.pid), VarintField(32, u.tid),
        VarintField(40, u.line), StringField(50, u.fileName), StringField(58, u.funcName), StringField(66, u.logInfo),
        Serialize(b));
    }
  }

  // ---- Parser ----

  predicate IsVarintTag(tag: byte) {
    tag == 8 || tag == 16 || tag == 24 || tag == 32 || tag == 40
  }

  predicate IsStringTag(tag: byte) {
    tag == 50 || tag == 58 || tag == 66
  }

  function SetVarint(m: Msg, tag: byte, u: nat): Msg
    requires IsVarintTag(tag)
  {
    if tag == 8 then m.(level := ToInt32(u))
    else if tag == 16 then m.(timestamp := ToInt64(u))
    else if tag == 24 then m.(pid := ToInt32(u))
    else if tag == 32 then m.(tid := ToInt32(u))
    else m.(line := ToInt32(u))
  }

  function SetString(m: Msg, tag: byte, s: seq<byte>): Msg
    requires IsStringTag(tag)
  {
    if tag == 50 then m.(fileName := s)
    else if tag == 58 then m.(funcName := s)
    else m.(logInfo := s)
  }

  /** The message as filled in so far, and whether the input was well formed. */
  datatype Decoded = Decoded(msg: Msg, ok: bool)

  /** Parses s into a message that already holds m: a later value of a field replaces an earlier one. */
  function ParseInto(m: Msg, s: seq<byte>, utf8: seq<byte> -> bool): Decoded
    decreases |s|
  {
    if s == [] then Decoded(m, true)
    else if IsVarintTag(s[0]) then
      match ReadVarint(s[1..], 10)
      case Bad => Decoded(m, false)
      case Got(v, n) => ParseInto(SetVarint(m, s[0], v), s[1 + n..], utf8)
    else if IsStringTag(s[0]) then
      match ReadVarint(s[1..], 5)
      case Bad => Decoded(m, false)
      case Got(size, n) =>
        if 1 + n + size > |s| then Decoded(m, false)
        else
          var str := s[1 + n..1 + n + size];
          if str != [] && !utf8(str) then Decoded(SetString(m, s[0], str), false)
          else ParseInto(SetString(m, s[0], str), s[1 + n + size..], utf8)
    else Decoded(m, false)
  }

  function Parse(s: seq<byte>, utf8: seq<byte> -> bool): Decoded {
    ParseInto(DEFAULT, s, utf8)
  }

  // ---- Merge ----

  /** Field by field: a set field of b replaces the one of a. */
  function Merge(a: Msg, b: Msg): Msg {
    Msg(
      if b.level != 0 then b.level else a.level,
      if b.timestamp != 0 then b.timestamp else a.timestamp,
      if b.pid != 0 then b.pid else a.pid,
      if b.tid != 0 then b.tid else a.tid,
      if b.line != 0 then b.line else a.line,
      if b.fileName != [] then b.fileName else a.fileName,
      if b.funcName != [] then b.funcName else a.funcName,
      if b.logInfo != [] then b.logInfo else a.logInfo)
  }

  lemma MergeIsMonoid(a: Msg, b: Msg, c: Msg)
    ensures Merge(a, Merge(b, c)) == Merge(Merge(a, b), c)
    ensures Merge(DEFAULT, a) == a == Merge(a, DEFAULT)
  {
  }

  // ---- One field at a time ----

  function SetIfVarint(m: Msg, tag: byte, x: int64): Msg
    requires IsVarintTag(tag)
  {
    if x == 0 then m else SetVarint(m, tag, ToUint64(x))
  }

  function SetIfString(m: Msg, tag: byte, s: seq<byte>): Msg
    requires IsStringTag(tag)
  {
    if s == [] then m else SetString(m, tag, s)
  }

  lemma VarintFieldParses(m: Msg, tag: byte, x: int64, rest: seq<byte>, utf8: seq<byte> -> bool)
    requires IsVarintTag(tag)
    ensures ParseInto(m, VarintField(tag, x) + rest, utf8)
         == ParseInto(SetIfVarint(m, tag, x), rest, utf8)
  {
    var f := VarintField(tag, x);
    if x == 0 {
      assert f + rest == rest;
    } else {
      var v := Varint(ToUint64(x));
      Pow128Ten();
      VarintReadsBack(ToUint64(x), 10, rest);
      var s := f + rest;
      assert s[0] == tag;
      assert s[1..] == v + rest;
      assert s[1 + |v|..] == rest;
      hide Varint, VarintField, ReadVarint, Pow128, SetVarint, ToUint64;
      assert ReadVarint(s[1..], 10) == Got(ToUint64(x), |v|);
    }
  }

  lemma Pieces(tag: byte, v: seq<byte>, str: seq<byte>, rest: seq<byte>)
    ensures var s := [tag] + v + str + rest;
      && |s| == 1 + |v| + |str| + |rest| && s[0] == tag && s[1..] == v + (str + rest)
      && s[1 + |v|..1 + |v| + |str|] == str && s[1 + |v| + |str|..] == rest
  {
  }

  /** What the parser reads at the front of a written, non-empty string field. */
  lemma StringFieldRead(tag: byte, str: seq<byte>, rest: seq<byte>)
    requires IsStringTag(tag) && str != [] && |str| < TWO31
    ensures var s := StringField(tag, str) + rest;
      var n := |Varint(|str|)|;
      && s != [] && s[0] == tag
      && ReadVarint(s[1..], 5) == Got(|str|, n)
      && 1 + n + |str| <= |s|
      && s[1 + n..1 + n + |str|] == str
      && s[1 + n + |str|..] == rest
  {
    var v := Varint(|str|);
    assert Pow128(5) >= TWO31 by {
      assert Pow128(3) == 0x20_0000;
    }
    VarintReadsBack(|str|, 5, str + rest);
    Pieces(tag, v, str, rest);
    hide Varint, ReadVarint, Pow128;
  }

  lemma StringFieldParses(m: Msg, tag: byte, str: seq<byte>, rest: seq<byte>, utf8: seq<byte> -> bool)
    requires IsStringTag(tag) && GoodString(str, utf8)
    ensures ParseInto(m, StringField(tag, str) + rest, utf8)
         == ParseInto(SetIfString(m, tag, str), rest, utf8)
  {
    if str == [] {
      assert StringField(tag, str) + rest == rest;
    } else {
      StringFieldRead(tag, str, rest);
      hide StringField, ReadVarint, SetString, Varint;
    }
  }

  function SetNumbers(a: Msg, b: Msg): Msg {
    SetIfVarint(SetIfVarint(SetIfVarint(SetIfVarint(SetIfVarint(a,
      8, b.level), 16, b.timestamp), 24, b.pid), 32, b.tid), 40, b.line)
  }

  function SetStrings(a: Msg, b: Msg): Msg {
    SetIfString(SetIfString(SetIfString(a, 50, b.fileName), 58, b.funcName), 66, b.logInfo)
  }

  /** Setting the fields one by one, in field-number order, is the merge. */
  lemma SettingAllIsMerge(a: Msg, b: Msg)
    ensures SetStrings(SetNumbers(a, b), b) == Merge(a, b)
  {
    SignedReadBack(b.level);
    SignedReadBack(b.timestamp);
    SignedReadBack(b.pid);
    SignedReadBack(b.tid);
    SignedReadBack(b.line);
    hide ToInt32, ToInt64, ToUint64;
  }

  lemma NumbersParse(a: Msg, b: Msg, rest: seq<byte>, utf8: seq<byte> -> bool)
    ensures ParseInto(a, VarintField(8, b.level) + (VarintField(16, b.timestamp) + (VarintField(24, b.pid)
              + (VarintField(32, b.tid) + (VarintField(40, b.line) + rest)))), utf8)
         == ParseInto(SetNumbers(a, b), rest, utf8)
  {
    hide VarintField, SetIfVarint, ParseInto;
    var r4 := VarintField(40, b.line) + rest;
    var r3 := VarintField(32, b.tid) + r4;
    var r2 := VarintField(24, b.pid) + r3;
    var r1 := VarintField(16, b.timestamp) + r2;
    var m1 := SetIfVarint(a, 8, b.level);
    var m2 := SetIfVarint(m1, 16, b.timestamp);
    var m3 := SetIfVarint(m2, 24, b.pid);
    VarintFieldParses(a, 8, b.level, r1, utf8);
    VarintFieldParses(m1, 16, b.timestamp, r2, utf8);
    VarintFieldParses(m2, 24, b.pid, r3, utf8);
    VarintFieldParses(m3, 32, b.tid, r4, utf8);
    VarintFieldParses(SetIfVarint(m3, 32, b.tid), 40, b.line, rest, utf8);
  }

  lemma StringsParse(a: Msg, b: Msg, rest: seq<byte>, utf8: seq<byte> -> bool)
    requires GoodMsg(b, utf8)
    ensures ParseInto(a, StringField(50, b.fileName) +
                         (StringField(58, b.funcName) + (StringField(66, b.logInfo) + rest)), utf8)
         == ParseInto(SetStrings(a, b), rest, utf8)
  {
    hide StringField, SetIfString, ParseInto;
    var r2 := StringField(66, b.logInfo) + rest;
    var r1 := StringField(58, b.funcName) + r2;
    var m1 := SetIfString(a, 50, b.fileName);
    StringFieldParses(a, 50, b.fileName, r1, utf8);
    StringFieldParses(m1, 58, b.funcName, r2, utf8);
    StringFieldParses(SetIfString(m1, 58, b.funcName), 66, b.logInfo, rest, utf8);
  }

  lemma Regroup(a: seq<byte>, b: seq<byte>, c: seq<byte>, d: seq<byte>,
                e: seq<byte>, f: seq<byte>, g: seq<byte>, h: seq<byte>, rest: seq<byte>)
    ensures (a + (b + (c + (d + (e + (f + (g + h))))))) + rest
         == a + (b + (c + (d + (e + (f + (g + (h + rest)))))))
  {
    ConcatAssociates(g, h, rest);
    ConcatAssociates(f, g + h, rest);
    ConcatAssociates(e, f + (g + h), rest);
    ConcatAssociates(d, e + (f + (g + h)), rest);
    ConcatAssociates(c, d + (e + (f + (g + h))), rest);
    ConcatAssociates(b, c + (d + (e + (f + (g + h)))), rest);
    ConcatAssociates(a, b + (c + (d + (e + (f + (g + h))))), rest);
  }

  /** Parsing a serialized message into a, with more input behind it, merges it and goes on. */
  lemma ParseSerializedMerges(a: Msg, b: Msg, rest: seq<byte>, utf8: seq<byte> -> bool)
    requires GoodMsg(b, utf8)
    ensures ParseInto(a, Serialize(b) + rest, utf8) == ParseInto(Merge(a, b), rest, utf8)
  {
    var strings := StringField(50, b.fileName) + (StringField(58, b.funcName) + (StringField(66, b.logInfo) + rest));
    NumbersParse(a, b, strings, utf8);
    StringsParse(SetNumbers(a, b), b, rest, utf8);
    SettingAllIsMerge(a, b);
    hide VarintField, StringField, ParseInto, SetIfVarint, SetIfString, Merge;
    Regroup(VarintField(8, b.level), VarintField(16, b.timestamp), VarintField(24, b.pid), VarintField(32, b.tid),
      VarintField(40, b.line), StringField(50, b.fileName), StringField(58, b.funcName), StringField(66, b.logInfo),
      rest);
  }

  // ---- Main results ----

  /** Decoding the bytes of any message gives back its field values. */
  lemma RoundTrip(m: Msg, utf8: seq<byte> -> bool)
    requires GoodMsg(m, utf8)
    ensures Parse(Serialize(m), utf8) == Decoded(m, true)
  {
    ParseSerializedMerges(DEFAULT, m, [], utf8);
    assert Serialize(m) + [] == Serialize(m);
    MergeIsMonoid(m, m, m);
  }

  lemma BadStringFails(m: Msg, tag: byte, str: seq<byte>, rest: seq<byte>, utf8: seq<byte> -> bool)
    requires IsStringTag(tag) && str != [] && |str| < TWO31 && !utf8(str)
    ensures ParseInto(m, StringField(tag, str) + rest, utf8) == Decoded(SetString(m, tag, str), false)
  {
    StringFieldRead(tag, str, rest);
    hide StringField, ReadVarint, SetString, Varint;
  }

  /** What decoding a message's bytes leaves in the message: the decoder stops behind the first invalid string. */
  function Seen(m: Msg, utf8: seq<byte> -> bool): Msg {
    if m.fileName != [] && !utf8(m.fileName) then m.(funcName := [], logInfo := [])
    else if m.funcName != [] && !utf8(m.funcName) then m.(logInfo := [])
    else m
  }

  /** Every non-empty string that a later non-empty one follows is valid. */
  predicate Readable(m: Msg, utf8: seq<byte> -> bool) {
    && (m.fileName != [] && (m.funcName != [] || m.logInfo != []) ==> utf8(m.fileName))
    && (m.funcName != [] && m.logInfo != [] ==> utf8(m.funcName))
  }

  lemma NumbersOnly(m: Msg)
    ensures SetNumbers(DEFAULT, m) == m.(fileName := [], funcName := [], logInfo := [])
  {
    SignedReadBack(m.level);
    SignedReadBack(m.timestamp);
    SignedReadBack(m.pid);
    SignedReadBack(m.tid);
    SignedReadBack(m.line);
    hide ToInt32, ToInt64, ToUint64;
  }

  /** The bytes of a message, with the strings as the decoder comes to them. */
  lemma StringsLeft(m: Msg, utf8: seq<byte> -> bool)
    ensures Parse(Serialize(m), utf8)
         == ParseInto(SetNumbers(DEFAULT, m),
                      StringField(50, m.fileName) + (StringField(58, m.funcName) + (StringField(66, m.logInfo) + [])),
                      utf8)
  {
    var f, g, h := StringField(50, m.fileName), StringField(58, m.funcName), StringField(66, m.logInfo);
    NumbersParse(DEFAULT, m, f + (g + (h + [])), utf8);
    Regroup(VarintField(8, m.level), VarintField(16, m.timestamp), VarintField(24, m.pid), VarintField(32, m.tid),
      VarintField(40, m.line), f, g, h, []);
    assert Serialize(m) + [] == Serialize(m);
  }

  /** Decoding the bytes of any message, valid or not: what is left in the message, and whether decoding succeeds. */
  lemma ParseSerialized(m: Msg, utf8: seq<byte> -> bool)
    requires |m.fileName| < TWO31 && |m.funcName| < TWO31 && |m.logInfo| < TWO31
    ensures Parse(Serialize(m), utf8) == Decoded(Seen(m, utf8), GoodMsg(m, utf8))
  {
    StringsLeft(m, utf8);
    NumbersOnly(m);
    var a := m.(fileName := [], funcName := [], logInfo := []);
    var g, h := StringField(58, m.funcName), StringField(66, m.logInfo);
    hide Serialize, SetNumbers;
    if !GoodString(m.fileName, utf8) {
      BadStringFails(a, 50, m.fileName, g + (h + []), utf8);
    } else {
      StringFieldParses(a, 50, m.fileName, g + (h + []), utf8);
      var b := SetIfString(a, 50, m.fileName);
      assert b == m.(funcName := [], logInfo := []);
      if !GoodString(m.funcName, utf8) {
        BadStringFails(b, 58, m.funcName, h + [], utf8);
      } else {
        StringFieldParses(b, 58, m.funcName, h + [], utf8);
        LastStringParses(m, utf8);
      }
    }
  }

  lemma LastStringParses(m: Msg, utf8: seq<byte> -> bool)
    requires |m.logInfo| < TWO31
    ensures ParseInto(m.(logInfo := []), StringField(66, m.logInfo) + [], utf8)
        == Decoded(m, GoodString(m.logInfo, utf8))
  {
    if GoodString(m.logInfo, utf8) {
      StringFieldParses(m.(logInfo := []), 66, m.logInfo, [], utf8);
    } else {
      BadStringFails(m.(logInfo := []), 66, m.logInfo, [], utf8);
    }
  }

  /** A message decodes to itself exactly when the validator accepts each of its non-empty strings. */
  lemma RoundTripIff(m: Msg, utf8: seq<byte> -> bool)
    requires |m.fileName| < TWO31 && |m.funcName| < TWO31 && |m.logInfo| < TWO31
    ensures Parse(Serialize(m), utf8) == Decoded(m, true) <==> GoodMsg(m, utf8)
  {
    ParseSerialized(m, utf8);
    hide Parse, Serialize;
  }

  /** A reader that does not look at whether decoding succeeded gets the message back exactly when it is readable. */
  lemma ReadableIff(m: Msg, utf8: seq<byte> -> bool)
    requires |m.fileName| < TWO31 && |m.funcName| < TWO31 && |m.logInfo| < TWO31
    ensures Parse(Serialize(m), utf8).msg == m <==> Readable(m, utf8)
  {
    ParseSerialized(m, utf8);
    hide Parse, Serialize;
  }

  lemma StringsFit(m: Msg)
    ensures |m.fileName| <= |Serialize(m)| && |m.funcName| <= |Serialize(m)| && |m.logInfo| <= |Serialize(m)|
  {
    hide VarintField, Varint;
    assert |Serialize(m)| == |VarintField(8, m.level)| + |VarintField(16, m.timestamp)| + |VarintField(24, m.pid)|
      + |VarintField(32, m.tid)| + |VarintField(40, m.line)| + |StringField(50, m.fileName)|
      + |StringField(58, m.funcName)| + |StringField(66, m.logInfo)|;
  }

  /** Last one wins: two messages back to back decode as their merge. */
  lemma ConcatenationMerges(a: Msg, b: Msg, utf8: seq<byte> -> bool)
    requires GoodMsg(a, utf8) && GoodMsg(b, utf8)
    ensures Parse(Serialize(a) + Serialize(b), utf8) == Decoded(Merge(a, b), true)
  {
    ParseSerializedMerges(DEFAULT, a, Serialize(b), utf8);
    MergeIsMonoid(a, a, a);
    ParseSerializedMerges(a, b, [], utf8);
    assert Serialize(b) + [] == Serialize(b);
  }

  /** Different messages have different bytes. */
  lemma SerializeIsInjective(a: Msg, b: Msg, utf8: seq<byte> -> bool)
    requires GoodMsg(a, utf8) && GoodMsg(b, utf8)
    requires Serialize(a) == Serialize(b)
    ensures a == b
  {
    RoundTrip(a, utf8);
    RoundTrip(b, utf8);
  }

  /** The sink drops a message whose bytes are empty: that is the default message and no other. */
  lemma EmptyBytesIffDefault(m: Msg)
    ensures Serialize(m) == [] <==> m == DEFAULT
  {
    assert |Serialize(m)| == |VarintField(8, m.level)| + |VarintField(16, m.timestamp)| + |VarintField(24, m.pid)|
      + |VarintField(32, m.tid)| + |VarintField(40, m.line)| + |StringField(50, m.fileName)|
      + |StringField(58, m.funcName)| + |StringField(66, m.logInfo)|;
  }

  // ---- Size ----

  function Int64SizePlusOne(x: int64): nat {
    1 + VarintSize(ToUint64(x))
  }

  function StringSizePlusOne(s: seq<byte>): nat
    requires |s| < TWO31
  {
    1 + VarintSize(|s|) + |s|
  }

  function StringPart(s: seq<byte>): nat
    requires |s| < TWO31
  {
    if s == [] then 0 else StringSizePlusOne(s)
  }

  function Int64Part(x: int64): nat {
    if x == 0 then 0 else Int64SizePlusOne(x)
  }

  /** What the size computation adds for a field is what the serializer writes for it. */
  lemma FieldSizes(tag: byte, x: int64, s: seq<byte>)
    requires |s| < TWO31
    ensures |VarintField(tag, x)| == Int64Part(x)
    ensures |StringField(tag, s)| == StringPart(s)
  {
    VarintSizeIsExact(ToUint64(x));
    VarintSizeIsExact(|s|);
  }

  /** The size is the sum over the set fields, in whatever order they are visited. */
  lemma SerializeLength(m: Msg)
    requires |m.fileName| < TWO31 && |m.funcName| < TWO31 && |m.logInfo| < TWO31
    ensures |Serialize(m)| == StringPart(m.fileName) + StringPart(m.funcName) + StringPart(m.logInfo)
      + Int64Part(m.timestamp) + Int64Part(m.level) + Int64Part(m.pid) + Int64Part(m.tid) + Int64Part(m.line)
  {
    hide StringPart, Int64Part, VarintField, StringField;
    FieldSizes(8, m.level, []);
    FieldSizes(16, m.timestamp, []);
    FieldSizes(24, m.pid, []);
    FieldSizes(32, m.tid, []);
    FieldSizes(40, m.line, []);
    FieldSizes(50, 0, m.fileName);
    FieldSizes(58, 0, m.funcName);
    FieldSizes(66, 0, m.logInfo);
  }
}
