/** The message object, its in-place merge, its size computation, its serializer and the formatter. */
module EffectiveMsgs {
  import opened Wrappers
  import opened Bytes
  import opened Wire

  /** Left-nested concatenation, as the serializer builds it, equals the right-nested one. */
  lemma LeftNested(p: seq<byte>, a: seq<byte>, b: seq<byte>, c: seq<byte>, d: seq<byte>,
                   e: seq<byte>, f: seq<byte>, g: seq<byte>, h: seq<byte>)
    ensures (((((((p + a) + b) + c) + d) + e) + f) + g) + h
         == p + (a + (b + (c + (d + (e + (f + (g + h)))))))
  {
    ConcatAssociates(((((p + a) + b) + c) + d) + e + f, g, h);
    ConcatAssociates(((((p + a) + b) + c) + d) + e, f, g + h);
    ConcatAssociates((((p + a) + b) + c) + d, e, f + (g + h));
    ConcatAssociates(((p + a) + b) + c, d, e + (f + (g + h)));
    ConcatAssociates((p + a) + b, c, d + (e + (f + (g + h))));
    ConcatAssociates(p + a, b, c + (d + (e + (f + (g + h)))));
    ConcatAssociates(p, a, b + (c + (d + (e + (f + (g + h))))));
  }

  /** Seven bits a byte, low group first, the top bit set on all but the last byte. */
  method WriteVarint(value: nat, buf: array<byte>, start: nat) returns (target: nat)
    requires start + |Varint(value)| <= buf.Length
    modifies buf
    ensures target == start + |Varint(value)|
    ensures buf[..target] == old(buf[..start]) + Varint(value)
    ensures forall i :: target <= i < buf.Length ==> buf[i] == old(buf[i])
  {
    var v := value;
    target := start;
    while v >= 0x80
      invariant start <= target
      invariant target + |Varint(v)| == start + |Varint(value)|
      invariant buf[..target] + Varint(v) == old(buf[..start]) + Varint(value)
      invariant forall i :: target <= i < buf.Length ==> buf[i] == old(buf[i])
    {
      ghost var before := buf[..target];
      buf[target] := v % 128 + 128;
      assert buf[..target + 1] == before + [v % 128 + 128];
      ConcatAssociates(before, [v % 128 + 128], Varint(v / 128));
      v := v / 128;
      target := target + 1;
    }
    ghost var before := buf[..target];
    buf[target] := v;
    assert buf[..target + 1] == before + [v];
    target := target + 1;
  }

  method WriteBytes(s: seq<byte>, buf: array<byte>, start: nat) returns (target: nat)
    requires start + |s| <= buf.Length
    modifies buf
    ensures target == start + |s|
    ensures buf[..target] == old(buf[..start]) + s
    ensures forall i :: target <= i < buf.Length ==> buf[i] == old(buf[i])
  {
    for i := 0 to |s|
      invariant buf[..start + i] == old(buf[..start]) + s[..i]
      invariant forall j :: start + i <= j < buf.Length ==> buf[j] == old(buf[j])
    {
      buf[start + i] := s[i];
      assert s[..i + 1] == s[..i] + [s[i]];
      assert buf[..start + i + 1] == buf[..start + i] + [s[i]];
    }
    assert s[..|s|] == s;
    target := start + |s|;
  }

  method WriteVarintField(tag: byte, x: int64, buf: array<byte>, start: nat) returns (target: nat)
    requires start + |VarintField(tag, x)| <= buf.Length
    modifies buf
    ensures target == start + |VarintField(tag, x)|
    ensures buf[..target] == old(buf[..start]) + VarintField(tag, x)
    ensures forall i :: target <= i < buf.Length ==> buf[i] == old(buf[i])
  {
    target := start;
    ConcatAssociates(buf[..start], [tag], Varint(ToUint64(x)));
    if x != 0 {
      hide Varint, ToUint64;
      target := WriteBytes([tag], buf, target);
      target := WriteVarint(ToUint64(x), buf, target);
    }
  }

  method WriteStringField(tag: byte, s: seq<byte>, buf: array<byte>, start: nat) returns (target: nat)
    requires start + |StringField(tag, s)| <= buf.Length
    modifies buf
    ensures target == start + |StringField(tag, s)|
    ensures buf[..target] == old(buf[..start]) + StringField(tag, s)
    ensures forall i :: target <= i < buf.Length ==> buf[i] == old(buf[i])
  {
    target := start;
    ConcatAssociates(buf[..start] + [tag], Varint(|s|), s);
    ConcatAssociates(buf[..start], [tag], Varint(|s|) + s);
    ConcatAssociates([tag], Varint(|s|), s);
    if s != [] {
      hide Varint;
      target := WriteBytes([tag], buf, target);
      target := WriteVarint(|s|, buf, target);
      target := WriteBytes(s, buf, target);
    }
  }

  class EffectiveMsg {
    /** The field block; an unset field holds its default value. */
    var impl: Msg

    constructor ()
      ensures impl == DEFAULT
    {
      impl := DEFAULT;
    }

    /** Overwrites the fields that are set in from. */
    method MergeImpl(from: EffectiveMsg)
      requires from != this
      modifies this
      ensures impl == Merge(old(impl), from.impl)
    {
      if from.impl.fileName != [] { impl := impl.(fileName := from.impl.fileName); }
      if from.impl.funcName != [] { impl := impl.(funcName := from.impl.funcName); }
      if from.impl.logInfo != [] { impl := impl.(logInfo := from.impl.logInfo); }
      if from.impl.timestamp != 0 { impl := impl.(timestamp := from.impl.timestamp); }
      if from.impl.level != 0 { impl := impl.(level := from.impl.level); }
      if from.impl.pid != 0 { impl := impl.(pid := from.impl.pid); }
      if from.impl.tid != 0 { impl := impl.(tid := from.impl.tid); }
      if from.impl.line != 0 { impl := impl.(line := from.impl.line); }
    }

    /** Accumulates field sizes, strings first: exactly the number of bytes the serializer writes. */
    method ByteSizeLong() returns (totalSize: nat)
      requires |impl.fileName| < TWO31 && |impl.funcName| < TWO31 && |impl.logInfo| < TWO31
      ensures totalSize == |Serialize(impl)|
    {
      var m := impl;
      SerializeLength(m);
      hide StringPart, Int64Part, Serialize;
      totalSize := 0;
      totalSize := totalSize + StringPart(m.fileName);
      totalSize := totalSize + StringPart(m.funcName);
      totalSize := totalSize + StringPart(m.logInfo);
      totalSize := totalSize + Int64Part(m.timestamp);
      totalSize := totalSize + Int64Part(m.level);
      totalSize := totalSize + Int64Part(m.pid);
      totalSize := totalSize + Int64Part(m.tid);
      totalSize := totalSize + Int64Part(m.line);
    }

    /** Writes the fields in field-number order, advancing target through the buffer. */
    method InternalSerialize(buf: array<byte>, start: nat) returns (target: nat)
      requires start + |Serialize(impl)| <= buf.Length
      modifies buf
      ensures target == start + |Serialize(impl)|
      ensures buf[..target] == old(buf[..start]) + Serialize(impl)
      ensures forall i :: target <= i < buf.Length ==> buf[i] == old(buf[i])
    {
      hide VarintField, StringField;
      LeftNested(buf[..start], VarintField(8, impl.level), VarintField(16, impl.timestamp), VarintField(24, impl.pid),
        VarintField(32, impl.tid), VarintField(40, impl.line), StringField(50, impl.fileName),
        StringField(58, impl.funcName), StringField(66, impl.logInfo));
      target := start;
      target := WriteVarintField(8, impl.level, buf, target);
      target := WriteVarintField(16, impl.timestamp, buf, target);
      target := WriteVarintField(24, impl.pid, buf, target);
      target := WriteVarintField(32, impl.tid, buf, target);
      target := WriteVarintField(40, impl.line, buf, target);
      target := WriteStringField(50, impl.fileName, buf, target);
      target := WriteStringField(58, impl.funcName, buf, target);
      target := WriteStringField(66, impl.logInfo, buf, target);
    }
  }

  /** A log call: level, source location and text. */
  datatype LogMsg = LogMsg(level: int32, fileName: seq<byte>, line: int32, funcName: seq<byte>, text: seq<byte>)

  /** The field values that the formatter fills in; the clock and the ids are inputs. */
  function MsgOf(msg: LogMsg, now: int64, pid: int32, tid: int32): Msg {
    Msg(msg.level, now, pid, tid, msg.line, msg.fileName, msg.funcName, msg.text)
  }

  /**
   What a reader of the bytes finds, field by field: the call's own level, text and source location, and the clock and
   the ids. It stops behind the first string that the validator refuses.
   */
  lemma FormattedFields(msg: LogMsg, now: int64, pid: int32, tid: int32, utf8: seq<byte> -> bool)
    requires |Serialize(MsgOf(msg, now, pid, tid))| < TWO31
    ensures var m := Parse(Serialize(MsgOf(msg, now, pid, tid)), utf8).msg;
      && m.level == msg.level && m.timestamp == now && m.pid == pid && m.tid == tid
      && m.line == msg.line && m.fileName == msg.fileName
      && (msg.fileName == [] || utf8(msg.fileName) ==>
            && m.funcName == msg.funcName
            && (msg.funcName == [] || utf8(msg.funcName) ==> m.logInfo == msg.text))
  {
    var m := MsgOf(msg, now, pid, tid);
    StringsFit(m);
    ParseSerialized(m, utf8);
    hide Serialize, Parse;
  }

  lemma ReadByAny(msg: LogMsg, now: int64, pid: int32, tid: int32, bytes: seq<byte>)
    requires bytes == Serialize(MsgOf(msg, now, pid, tid)) && |bytes| < TWO31
    ensures forall utf8: seq<byte> -> bool ::
      (msg.fileName == [] || utf8(msg.fileName)) && (msg.funcName == [] || utf8(msg.funcName)) ==>
      var m := Parse(bytes, utf8).msg;
      && m.level == msg.level && m.timestamp == now && m.pid == pid && m.tid == tid
      && m.line == msg.line && m.fileName == msg.fileName && m.funcName == msg.funcName && m.logInfo == msg.text
  {
    hide Parse, MsgOf, Serialize;
    forall utf8: seq<byte> -> bool |
      (msg.fileName == [] || utf8(msg.fileName)) && (msg.funcName == [] || utf8(msg.funcName))
      ensures var m := Parse(bytes, utf8).msg;
        && m.level == msg.level && m.timestamp == now && m.pid == pid && m.tid == tid
        && m.line == msg.line && m.fileName == msg.fileName && m.funcName == msg.funcName && m.logInfo == msg.text
    {
      FormattedFields(msg, now, pid, tid, utf8);
    }
  }

  /**
   Sizes the destination, then serializes into it: the buffer holds the message's bytes and no others.
   The serializer takes the size as a signed 32-bit integer.
   */
  method Fromat(msg: LogMsg, now: int64, pid: int32, tid: int32) returns (dest: array<byte>)
    requires |Serialize(MsgOf(msg, now, pid, tid))| < TWO31
    ensures fresh(dest)
    ensures dest[..] == Serialize(MsgOf(msg, now, pid, tid))
    ensures forall utf8: seq<byte> -> bool ::
      (msg.fileName == [] || utf8(msg.fileName)) && (msg.funcName == [] || utf8(msg.funcName)) ==>
      var m := Parse(dest[..], utf8).msg;
      && m.level == msg.level && m.timestamp == now && m.pid == pid && m.tid == tid
      && m.line == msg.line && m.fileName == msg.fileName && m.funcName == msg.funcName && m.logInfo == msg.text
  {
    StringsFit(MsgOf(msg, now, pid, tid));
    var m := new EffectiveMsg();
    m.impl := m.impl.(level := msg.level);
    m.impl := m.impl.(timestamp := now);
    m.impl := m.impl.(pid := pid);
    m.impl := m.impl.(tid := tid);
    m.impl := m.impl.(line := msg.line);
    m.impl := m.impl.(fileName := msg.fileName);
    m.impl := m.impl.(funcName := msg.funcName);
    m.impl := m.impl.(logInfo := msg.text);
    hide Serialize;
    var len := m.ByteSizeLong();
    dest := new byte[len](_ => 0);
    var target := m.InternalSerialize(dest, 0);
    assert dest[..] == dest[..target];
    ReadByAny(msg, now, pid, tid, dest[..]);
  }
}
