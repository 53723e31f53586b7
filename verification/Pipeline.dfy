/**
 What happens to one message between a log call and the cache, and back in the parser. Compression,
 encryption and key agreement are functions that are assumed to undo each other.
 */
module Pipeline {
  import opened Bytes
  import opened Framing
  import opened Wire
  import opened EffectiveMsgs
  import opened SinkCore

  datatype Outcome<T> = Failed | Done(value: T)

  /** An empty result of compress or encrypt is a failure; decrypt and decompress may throw. */
  datatype Codec = Codec(
    compress: seq<byte> -> seq<byte>,
    decompress: seq<byte> -> Outcome<seq<byte>>,
    encrypt: (seq<byte>, seq<byte>) -> seq<byte>,
    decrypt: (seq<byte>, seq<byte>) -> Outcome<seq<byte>>,
    publicKey: seq<byte> -> seq<byte>,
    agree: (seq<byte>, seq<byte>) -> seq<byte>,
    utf8: seq<byte> -> bool)

  /** The assumptions. Nothing is compressed to nothing, and only nothing is. */
  ghost predicate Lawful(c: Codec) {
    && c.compress([]) == []
    && (forall b: seq<byte> :: b != [] ==> c.compress(b) != [] && c.decompress(c.compress(b)) == Done(b))
    && (forall key: seq<byte>, b: seq<byte> :: b != [] ==>
          c.encrypt(key, b) != [] && c.decrypt(key, c.encrypt(key, b)) == Done(b))
    && (forall x: seq<byte> :: |c.publicKey(x)| == KEY_LEN)
    && (forall x: seq<byte>, y: seq<byte> :: c.agree(x, c.publicKey(y)) == c.agree(y, c.publicKey(x)))
  }

  /** The bytes that go into the cache for a message, unless a stage fails. */
  function Seal(c: Codec, secret: seq<byte>, bytes: seq<byte>): Outcome<seq<byte>> {
    var compressed := c.compress(bytes);
    if compressed == [] then Failed
    else
      var encrypted := c.encrypt(secret, compressed);
      if encrypted == [] then Failed else Done(encrypted)
  }

  /** The parser decrypts, decompresses and decodes; it does not look at whether decoding succeeded. */
  function ParseOne(c: Codec, secret: seq<byte>, payload: seq<byte>): Outcome<Msg> {
    match c.decrypt(secret, payload)
    case Failed => Failed
    case Done(compressed) =>
      match c.decompress(compressed)
      case Failed => Failed
      case Done(bytes) => Done(Parse(bytes, c.utf8).msg)
  }

  /** The messages printed for a list of entries; an entry that throws is skipped. */
  function ReadBack(c: Codec, serverKey: seq<byte>, entries: seq<Entry>): seq<Msg> {
    if entries == [] then []
    else
      (match ParseOne(c, c.agree(serverKey, entries[0].key), entries[0].payload)
       case Failed => []
       case Done(m) => [m])
      + ReadBack(c, serverKey, entries[1..])
  }

  /** An entry that cannot be decrypted or decompressed prints nothing; any other prints what its bytes decode to. */
  lemma EntryIsReadBack(c: Codec, serverKey: seq<byte>, e: Entry)
    ensures var compressed := c.decrypt(c.agree(serverKey, e.key), e.payload);
      && (compressed.Failed? ==> ReadBack(c, serverKey, [e]) == [])
      && (compressed.Done? && c.decompress(compressed.value).Failed? ==> ReadBack(c, serverKey, [e]) == [])
      && (compressed.Done? && c.decompress(compressed.value).Done? ==>
            ReadBack(c, serverKey, [e]) == [Parse(c.decompress(compressed.value).value, c.utf8).msg])
  {
    hide Parse;
    assert ReadBack(c, serverKey, []) == [];
  }

  /** The code passes the size of a message's bytes as a signed 32-bit integer. */
  predicate Fits(m: Msg) {
    |Serialize(m)| < TWO31
  }

  /**
   A message is dropped exactly when it is the default one. Of any other the parser sees what decoding
   leaves, which is the message itself exactly when every non-empty string before a non-empty one is valid.
   */
  lemma SealedIsReadBack(c: Codec, clientKey: seq<byte>, serverKey: seq<byte>, m: Msg)
    requires Lawful(c) && Fits(m)
    ensures var sealed := Seal(c, c.agree(clientKey, c.publicKey(serverKey)), Serialize(m));
      && (sealed.Failed? <==> m == DEFAULT)
      && (sealed.Done? ==>
            var read := ParseOne(c, c.agree(serverKey, c.publicKey(clientKey)), sealed.value);
            read == Done(Seen(m, c.utf8)) && (read == Done(m) <==> Readable(m, c.utf8)))
  {
    EmptyBytesIffDefault(m);
    StringsFit(m);
    ParseSerialized(m, c.utf8);
    ReadableIff(m, c.utf8);
    hide Serialize, Parse, Seen, Readable, GoodMsg;
  }

  /** The formatter puts the process id into every message, so none of its messages is dropped. */
  lemma FormattedIsReadBack(c: Codec, clientKey: seq<byte>, serverKey: seq<byte>,
                            msg: LogMsg, now: int64, pid: int32, tid: int32)
    requires Lawful(c) && pid > 0 && Fits(MsgOf(msg, now, pid, tid))
    ensures var m := MsgOf(msg, now, pid, tid);
      var sealed := Seal(c, c.agree(clientKey, c.publicKey(serverKey)), Serialize(m));
      && sealed.Done?
      && var read := ParseOne(c, c.agree(serverKey, c.publicKey(clientKey)), sealed.value);
         && read == Done(Seen(m, c.utf8)) && (read == Done(m) <==> Readable(m, c.utf8))
         && read.value.level == msg.level && read.value.timestamp == now
         && read.value.pid == pid && read.value.tid == tid
         && read.value.line == msg.line && read.value.fileName == msg.fileName
         && (msg.fileName == [] || c.utf8(msg.fileName) ==>
               && read.value.funcName == msg.funcName
               && (msg.funcName == [] || c.utf8(msg.funcName) ==> read.value.logInfo == msg.text))
  {
    SealedIsReadBack(c, clientKey, serverKey, MsgOf(msg, now, pid, tid));
    hide Serialize, Seal, ParseOne, Readable, Lawful, Fits;
  }
}
