/**
 * One WebSocket connection of internal/websocket: the frame writer and reader
 * as they run, the ReadText loop that answers pings, and the relay between two
 * connections.
 */
module Connection {
  import opened FrameCodec

  datatype WriteResult = Written | TooLarge | NoEntropy | TransportFailed

  datatype TextResult =
    | Text(payload: Bytes)
    | Eof
    | Unsupported(opcode: bv8)
    | ReadFailed(failure: Failure)

  // What one ReadText call returns, what it leaves unread, and the pings it met.
  datatype TextRead = TextRead(result: TextResult, rest: Bytes, pings: seq<Bytes>)

  function ReadTextSpec(s: Bytes): TextRead
    decreases |s|
  {
    ParseConsumes(s);
    match ParseFrame(s)
    case Failed(failure, unread) => TextRead(ReadFailed(failure), unread, [])
    case Frame(opcode, payload, rest) =>
      if opcode == OPCODE_TEXT then TextRead(Text(payload), rest, [])
      else if opcode == OPCODE_CLOSE then TextRead(Eof, rest, [])
      else if opcode == OPCODE_PING then
        var more := ReadTextSpec(rest);
        more.(pings := [payload] + more.pings)
      else if opcode == OPCODE_PONG then ReadTextSpec(rest)
      else TextRead(Unsupported(opcode), rest, [])
  }

  lemma {:induction false} ReadTextProgress(s: Bytes)
    ensures ReadTextSpec(s).result.Text? ==> |ReadTextSpec(s).rest| < |s|
    decreases |s|
  {
    ParseConsumes(s);
    if ParseFrame(s).Frame? {
      ReadTextProgress(ParseFrame(s).rest);
    }
  }

  // Everything a peer that keeps calling ReadText gets before its first error.
  function ReadTexts(s: Bytes): seq<Bytes>
    decreases |s|
  {
    ReadTextProgress(s);
    var r := ReadTextSpec(s);
    if r.result.Text? then [r.result.payload] + ReadTexts(r.rest) else []
  }

  // ---------- the same, seen from the messages on the stream ----------

  function TextsBeforeClose(messages: seq<Message>): seq<Bytes> {
    if messages == [] then []
    else if messages[0].opcode == OPCODE_TEXT then [messages[0].payload] + TextsBeforeClose(messages[1..])
    else if messages[0].opcode in {OPCODE_PING, OPCODE_PONG} then TextsBeforeClose(messages[1..])
    else []
  }

  // Reading texts off the bytes is reading them off the parsed messages.
  lemma {:induction false} ReadTextsMeaning(s: Bytes)
    ensures ReadTexts(s) == TextsBeforeClose(ParseAll(s).messages)
    decreases |s|
  {
    ParseConsumes(s);
    match ParseFrame(s) {
      case Failed(_, _) =>
      case Frame(opcode, payload, rest) =>
        ReadTextsMeaning(rest);
        ReadTextProgress(s);
        ReadTextProgress(rest);
        var messages := ParseAll(s).messages;
        assert messages[0] == Message(opcode, payload) && messages[1..] == ParseAll(rest).messages;
        if opcode == OPCODE_PING || opcode == OPCODE_PONG {
          assert ReadTexts(s) == ReadTexts(rest);
        }
    }
  }

  lemma OpcodeIsRead(s: Bytes)
    requires ParseFrame(s).Frame?
    ensures ParseFrame(s).opcode == s[0] & 0x0f
  {
    hide BigEndian, ApplyMask;
  }

  // What each kind of frame does to a reader, by its opcode (RFC 6455 section
  // 5.2): 1 is a text, 8 ends the stream, 9 is answered, 10 is skipped.
  lemma ReadByOpcode(s: Bytes)
    requires ParseFrame(s).Frame?
    ensures
      var f, opcode, r := ParseFrame(s), s[0] & 0x0f, ReadTextSpec(s);
      if opcode == 1 then r == TextRead(Text(f.payload), f.rest, [])
      else if opcode == 8 then r == TextRead(Eof, f.rest, [])
      else if opcode == 9 then
        r == TextRead(ReadTextSpec(f.rest).result, ReadTextSpec(f.rest).rest, [f.payload] + ReadTextSpec(f.rest).pings)
      else if opcode == 10 then r == ReadTextSpec(f.rest)
      else r == TextRead(Unsupported(opcode), f.rest, [])
  {
    OpcodeIsRead(s);
    hide ParseFrame;
  }

  // ---------- replies ----------

  // What a write of any payload leaves on the wire, as messages.
  function Reply(opcode: bv8, payload: Bytes): seq<Message> {
    if Writable(payload) then [Message(opcode, payload)] else []
  }

  // The pongs that go out for a list of pings: a ping over 65535 bytes, which
  // the reader still accepts, cannot be answered.
  function Pongs(pings: seq<Bytes>): seq<Message> {
    if pings == [] then []
    else Reply(OPCODE_PONG, pings[0]) + Pongs(pings[1..])
  }

  lemma {:induction false} PongsAppend(a: seq<Bytes>, ping: Bytes)
    ensures Pongs(a + [ping]) == Pongs(a) + Reply(OPCODE_PONG, ping)
  {
    if a == [] {
      assert a + [ping] == [ping];
    } else {
      PongsAppend(a[1..], ping);
      assert (a + [ping])[1..] == a[1..] + [ping];
    }
  }

  lemma NoPongs()
    ensures Pongs([]) == []
  {
  }

  lemma OneMorePong(before: seq<Message>, pings: seq<Bytes>, ping: Bytes)
    ensures (before + Pongs(pings)) + Reply(OPCODE_PONG, ping) == before + Pongs(pings + [ping])
  {
    hide Pongs, Reply;
    PongsAppend(pings, ping);
  }

  // One turn of the read loop, with the pings met before it.
  lemma ReadTextUnfolds(s: Bytes, pings: seq<Bytes>)
    ensures
      match ParseFrame(s)
      case Failed(failure, unread) => ReadTextSpec(s) == TextRead(ReadFailed(failure), unread, [])
      case Frame(opcode, payload, rest) =>
        if opcode == OPCODE_TEXT then ReadTextSpec(s) == TextRead(Text(payload), rest, [])
        else if opcode == OPCODE_CLOSE then ReadTextSpec(s) == TextRead(Eof, rest, [])
        else if opcode == OPCODE_PING then
          var more := ReadTextSpec(rest);
          && ReadTextSpec(s).result == more.result && ReadTextSpec(s).rest == more.rest
          && pings + ReadTextSpec(s).pings == (pings + [payload]) + more.pings
        else if opcode == OPCODE_PONG then ReadTextSpec(s) == ReadTextSpec(rest)
        else ReadTextSpec(s) == TextRead(Unsupported(opcode), rest, [])
    ensures pings + [] == pings
  {
    hide ParseFrame;
  }

  // One pong per ping, same payload, same order, exactly when every ping fits a frame.
  lemma {:induction false} EveryPingAnswered(pings: seq<Bytes>)
    ensures (forall i | 0 <= i < |pings| :: |pings[i]| <= 65535) <==> |Pongs(pings)| == |pings|
    ensures |Pongs(pings)| <= |pings|
    ensures (forall i | 0 <= i < |pings| :: |pings[i]| <= 65535) ==>
              forall i | 0 <= i < |pings| :: Pongs(pings)[i] == Message(0xa, pings[i])
  {
    if pings != [] {
      EveryPingAnswered(pings[1..]);
      if forall i | 0 <= i < |pings| :: |pings[i]| <= 65535 {
        forall i | 0 <= i < |pings| - 1
          ensures |pings[1..][i]| <= 65535
        {
          assert pings[1..][i] == pings[i + 1];
        }
        forall i | 0 < i < |pings|
          ensures Pongs(pings)[i] == Message(0xa, pings[i])
        {
          assert pings[1..][i - 1] == pings[i];
        }
      } else {
        var i :| 0 <= i < |pings| && |pings[i]| > 65535;
        if i > 0 {
          assert pings[1..][i - 1] == pings[i];
        }
      }
    }
  }

  lemma NothingToRead()
    ensures ReadTextSpec([]).pings == []
  {
  }

  // A ping in the longest form, with any payload too large for a frame that the
  // reader still accepts, is read and gets no pong.
  lemma OversizedPing(length: Bytes, p: Bytes)
    requires |length| == 8 && BigEndian(length) == |p| && 65535 < |p| <= 262144
    ensures ParseFrame([0x89, 127] + length + p) == Frame(OPCODE_PING, p, [])
    ensures ReadTextSpec([0x89, 127] + length + p).pings == [p] && Pongs([p]) == []
  {
    hide BigEndian, ParseFrame;
    LongForms(0x89, length, p, Plain, []);
    assert [] + (p + []) == p;
    assert 0x89 as bv8 & 0x0f == OPCODE_PING && 127 as bv8 | 0 == 127;
    NothingToRead();
    assert [p][1..] == [];
  }

  function Zeros(n: nat): (r: Bytes)
    ensures |r| == n
  {
    seq(n, _ => 0)
  }

  lemma {:induction false} ZerosCountNothing(n: nat)
    ensures BigEndian(Zeros(n)) == 0
  {
    if n > 0 {
      ZerosCountNothing(n - 1);
      assert Zeros(n)[..n - 1] == Zeros(n - 1);
    }
  }

  const OVERSIZED_LENGTH: Bytes := Zeros(5) + [1] + [0] + [0]

  lemma OversizedLength()
    ensures BigEndian(OVERSIZED_LENGTH) == 65536
  {
    hide BigEndian;
    ZerosCountNothing(5);
    BigEndianSnoc(Zeros(5), 1);
    BigEndianSnoc(Zeros(5) + [1], 0);
    BigEndianSnoc(Zeros(5) + [1] + [0], 0);
  }

  // The smallest one: 65536 bytes.
  lemma SmallestOversizedPing()
    ensures
      var p := Zeros(65536);
      ParseFrame([0x89, 127] + OVERSIZED_LENGTH + p) == Frame(OPCODE_PING, p, []) && Pongs([p]) == []
  {
    hide BigEndian, ParseFrame, Pongs;
    OversizedLength();
    OversizedPing(OVERSIZED_LENGTH, Zeros(65536));
  }

  // ---------- the relay ----------

  // The relay stops at the first text it cannot write.
  function Relayable(texts: seq<Bytes>): (r: seq<Bytes>)
    ensures r <= texts
    ensures forall i | 0 <= i < |r| :: Writable(r[i])
    ensures r == texts || !Writable(texts[|r|])
  {
    if texts == [] || !Writable(texts[0]) then [] else
    var tail := Relayable(texts[1..]);
    assert texts == [texts[0]] + texts[1..];
    [texts[0]] + tail
  }

  lemma {:induction false} RelayableIs(texts: seq<Bytes>, sent: seq<Bytes>)
    requires sent <= texts
    requires forall i | 0 <= i < |sent| :: Writable(sent[i])
    requires sent == texts || !Writable(texts[|sent|])
    ensures Relayable(texts) == sent
  {
    if sent != [] {
      assert texts[1..][..|sent| - 1] == sent[1..];
      RelayableIs(texts[1..], sent[1..]);
    }
  }

  lemma RelaysWritable(texts: seq<Bytes>, sent: seq<Bytes>)
    requires sent <= texts && forall i | 0 <= i < |sent| :: Writable(sent[i])
    ensures sent <= Relayable(texts)
  {
    hide Relayable;
    var r := Relayable(texts);
    assert forall i | 0 <= i < |sent| :: texts[i] == sent[i];
    assert |r| >= |sent|;
  }

  // The state of the source after n texts, and the pings met on the way.
  function RestAfter(s: Bytes, n: nat): Bytes {
    if n == 0 then s else ReadTextSpec(RestAfter(s, n - 1)).rest
  }

  function PingsOf(s: Bytes, n: nat): seq<Bytes> {
    if n == 0 then [] else PingsOf(s, n - 1) + ReadTextSpec(RestAfter(s, n - 1)).pings
  }

  lemma ReadTextsUnfolds(s: Bytes, before: seq<Bytes>)
    ensures
      var r := ReadTextSpec(s);
      if r.result.Text? then before + ReadTexts(s) == (before + [r.result.payload]) + ReadTexts(r.rest)
      else before + ReadTexts(s) == before
  {
    hide ReadTextSpec;
    ReadTextProgress(s);
  }

  lemma {:induction false} PongsConcat(a: seq<Bytes>, b: seq<Bytes>)
    ensures Pongs(a + b) == Pongs(a) + Pongs(b)
  {
    hide Reply;
    if b == [] {
      NoPongs();
      assert a + b == a;
    } else {
      var init, last := b[..|b| - 1], b[|b| - 1];
      assert b == init + [last] && a + b == (a + init) + [last];
      PongsConcat(a, init);
      PongsAppend(a + init, last);
      PongsAppend(init, last);
    }
  }

  lemma MorePongs(before: seq<Message>, a: seq<Bytes>, b: seq<Bytes>)
    ensures (before + Pongs(a)) + Pongs(b) == before + Pongs(a + b)
  {
    hide Pongs;
    PongsConcat(a, b);
  }

  function AsTexts(payloads: seq<Bytes>): (r: seq<Message>)
    ensures |r| == |payloads|
  {
    seq(|payloads|, i requires 0 <= i < |payloads| => Message(OPCODE_TEXT, payloads[i]))
  }

  lemma OneMoreText(before: seq<Message>, payloads: seq<Bytes>, payload: Bytes)
    ensures (before + AsTexts(payloads)) + [Message(OPCODE_TEXT, payload)] == before + AsTexts(payloads + [payload])
  {
    assert AsTexts(payloads + [payload]) == AsTexts(payloads) + [Message(OPCODE_TEXT, payload)];
  }

  lemma NoTexts()
    ensures AsTexts([]) == []
  {
  }

  lemma Units(texts: seq<Bytes>, messages: seq<Message>)
    ensures [] + texts == texts && messages + [] == messages
  {
  }

  // ---------- what it takes to send ----------

  // How a write ends: an oversized payload is refused, a masking writer needs
  // a key, and the transport must take the whole frame.
  function Attempt(payload: Bytes, masked: bool, keys: nat, credit: nat): WriteResult {
    if !Writable(payload) then TooLarge
    else if masked && keys == 0 then NoEntropy
    else if credit < FrameLength(|payload|, masked) then TransportFailed
    else Written
  }

  predicate Broken(result: WriteResult) {
    result == NoEntropy || result == TransportFailed
  }

  // A write that breaks nothing sends its message exactly if it fits.
  lemma AttemptReplies(result: WriteResult, payload: Bytes, masked: bool, keys: nat, credit: nat, opcode: bv8)
    requires result == Attempt(payload, masked, keys, credit) && !Broken(result)
    ensures (if result == Written then [Message(opcode, payload)] else []) == Reply(opcode, payload)
  {
  }

  // Bytes and keys that sending some payloads takes.
  function SendBytes(payloads: seq<Bytes>, masked: bool): nat {
    if payloads == [] then 0
    else
      var last := payloads[|payloads| - 1];
      SendBytes(payloads[..|payloads| - 1], masked) + if Writable(last) then FrameLength(|last|, masked) else 0
  }

  function SendKeys(payloads: seq<Bytes>, masked: bool): nat {
    if payloads == [] || !masked then 0
    else
      SendKeys(payloads[..|payloads| - 1], masked) + if Writable(payloads[|payloads| - 1]) then 1 else 0
  }

  predicate Enough(credit: nat, keys: nat, masked: bool, payloads: seq<Bytes>) {
    SendBytes(payloads, masked) <= credit && SendKeys(payloads, masked) <= keys
  }

  lemma EnoughForNothing(credit: nat, keys: nat, masked: bool)
    ensures Enough(credit, keys, masked, []) && SendBytes([], masked) == 0 && SendKeys([], masked) == 0
  {
  }

  // One more payload is sent exactly if what is left suffices for it.
  lemma EnoughSnoc(credit: nat, keys: nat, masked: bool, payloads: seq<Bytes>, p: Bytes)
    ensures SendBytes(payloads + [p], masked) ==
            SendBytes(payloads, masked) + if Writable(p) then FrameLength(|p|, masked) else 0
    ensures SendKeys(payloads + [p], masked) == SendKeys(payloads, masked) + if masked && Writable(p) then 1 else 0
    ensures Enough(credit, keys, masked, payloads + [p]) <==>
            Enough(credit, keys, masked, payloads)
            && !Broken(Attempt(p, masked, keys - SendKeys(payloads, masked), credit - SendBytes(payloads, masked)))
  {
    assert (payloads + [p])[..|payloads|] == payloads;
  }

  lemma {:induction false} EnoughForPrefix(credit: nat, keys: nat, masked: bool, a: seq<Bytes>, b: seq<Bytes>)
    requires a <= b && Enough(credit, keys, masked, b)
    ensures Enough(credit, keys, masked, a)
  {
    if a != b {
      var init, last := b[..|b| - 1], b[|b| - 1];
      assert b == init + [last] && a <= init;
      EnoughSnoc(credit, keys, masked, init, last);
      EnoughForPrefix(credit, keys, masked, a, init);
    }
  }

  lemma {:induction false} EnoughAppend(credit: nat, keys: nat, masked: bool, a: seq<Bytes>, b: seq<Bytes>)
    ensures SendBytes(a + b, masked) == SendBytes(a, masked) + SendBytes(b, masked)
    ensures SendKeys(a + b, masked) == SendKeys(a, masked) + SendKeys(b, masked)
    ensures Enough(credit, keys, masked, a + b) <==>
            Enough(credit, keys, masked, a)
            && Enough(credit - SendBytes(a, masked), keys - SendKeys(a, masked), masked, b)
  {
    if b == [] {
      assert a + b == a;
    } else {
      var init, last := b[..|b| - 1], b[|b| - 1];
      EnoughAppend(credit, keys, masked, a, init);
      assert (a + b)[..|a + b| - 1] == a + init;
    }
  }

  // From one state of a connection to another, sending some payloads: a write
  // breaks exactly when there was not enough, and otherwise uses what it needs.
  predicate Spent(credit0: nat, keys0: nat, failed0: bool, credit: nat, keys: nat, failed: bool,
                  masked: bool, payloads: seq<Bytes>)
  {
    && failed == (failed0 || !Enough(credit0, keys0, masked, payloads))
    && (Enough(credit0, keys0, masked, payloads) ==>
          credit == credit0 - SendBytes(payloads, masked) && keys == keys0 - SendKeys(payloads, masked))
  }

  lemma SpentNothing(credit: nat, keys: nat, failed: bool, masked: bool)
    ensures Spent(credit, keys, failed, credit, keys, failed, masked, [])
  {
  }

  lemma SpentOnce(credit: nat, keys: nat, failed: bool, masked: bool, p: Bytes)
    ensures Enough(credit, keys, masked, [p]) <==> !Broken(Attempt(p, masked, keys, credit))
    ensures SendBytes([p], masked) == if Writable(p) then FrameLength(|p|, masked) else 0
    ensures SendKeys([p], masked) == if masked && Writable(p) then 1 else 0
  {
    EnoughForNothing(credit, keys, masked);
    EnoughSnoc(credit, keys, masked, [], p);
    assert [] + [p] == [p];
  }

  lemma SpentMore(c0: nat, k0: nat, f0: bool, c1: nat, k1: nat, f1: bool, c2: nat, k2: nat, f2: bool,
                  masked: bool, a: seq<Bytes>, b: seq<Bytes>)
    requires Spent(c0, k0, f0, c1, k1, f1, masked, a) && Spent(c1, k1, f1, c2, k2, f2, masked, b)
    ensures Spent(c0, k0, f0, c2, k2, f2, masked, a + b)
    ensures f2 == (f0 || !Enough(c0, k0, masked, a + b)) && (f1 ==> f2)
  {
    hide SendBytes, SendKeys;
    EnoughAppend(c0, k0, masked, a, b);
  }

  // One more text relayed: it goes through exactly if the write does not break.
  lemma DeliveredMore(c0: nat, k0: nat, masked: bool, sent: seq<Bytes>, p: Bytes, result: WriteResult,
                      c1: nat, k1: nat, f1: bool, c2: nat, k2: nat, f2: bool)
    requires Enough(c0, k0, masked, sent) && c1 == c0 - SendBytes(sent, masked) && k1 == k0 - SendKeys(sent, masked)
    requires result == Attempt(p, masked, k1, c1) && Spent(c1, k1, f1, c2, k2, f2, masked, [p])
    ensures result == TooLarge <==> !Writable(p)
    ensures Enough(c0, k0, masked, sent + [p]) <==> !Broken(result)
    ensures !Broken(result) ==>
              c2 == c0 - SendBytes(sent + [p], masked) && k2 == k0 - SendKeys(sent + [p], masked) && f2 == f1
  {
    hide Enough, SendBytes, SendKeys;
    EnoughSnoc(c0, k0, masked, sent, p);
    SpentOnce(c1, k1, f1, masked, p);
  }

  // A relay that broke off at a text that fits stopped short of what it wanted.
  lemma StoppedShort(texts: seq<Bytes>, sent: seq<Bytes>, p: Bytes, credit: nat, keys: nat, masked: bool)
    requires sent + [p] <= texts && Writable(p) && forall i | 0 <= i < |sent| :: Writable(sent[i])
    requires !Enough(credit, keys, masked, sent + [p])
    ensures sent != Relayable(texts) && !Enough(credit, keys, masked, Relayable(texts))
  {
    hide Enough, Relayable;
    RelaysWritable(texts, sent + [p]);
    if Enough(credit, keys, masked, Relayable(texts)) {
      EnoughForPrefix(credit, keys, masked, sent + [p], Relayable(texts));
    }
  }

  // ---------- building a frame ----------

  // The header both kinds of frame start from.
  method PlainHeader(opcode: bv8, length: nat) returns (header: Bytes)
    requires length <= MAX_WRITE_BYTES
    ensures header == Header(opcode, length, Plain) && |header| >= 2
  {
    header := [0x80 | opcode];
    if length < 126 {
      header := header + [ByteOf(length)];
    } else {
      header := header + [126, ByteOf(length / 256), ByteOf(length % 256)];
    }
  }

  lemma PlainFrameBytes(opcode: bv8, payload: Bytes)
    requires Writable(payload)
    ensures Header(opcode, |payload|, Plain) + payload == EncodeFrame(opcode, payload, Plain)
  {
  }

  method XorWith(payload: Bytes, key: MaskKey) returns (r: Bytes)
    ensures r == ApplyMask(payload, Masked(key))
    ensures |r| == |payload| && forall i | 0 <= i < |payload| :: r[i] == payload[i] ^ key[i % 4]
  {
    var buffer := new bv8[|payload|](i requires 0 <= i < |payload| => payload[i]);
    for i := 0 to |payload|
      invariant forall j | 0 <= j < i :: buffer[j] == payload[j] ^ key[j % 4]
      invariant forall j | i <= j < |payload| :: buffer[j] == payload[j]
    {
      buffer[i] := buffer[i] ^ key[i % 4];
    }
    return buffer[..];
  }

  // The key, and byte i of the payload under byte i mod 4 of it, end a frame.
  predicate OnWire(data: Bytes, payload: Bytes, key: MaskKey) {
    && |data| >= |payload| + 6
    && data[|data| - |payload| - 4..|data| - |payload|] == key
    && forall i | 0 <= i < |payload| :: data[|data| - |payload| + i] == payload[i] ^ key[i % 4]
  }

  lemma MaskedBytes(opcode: bv8, payload: Bytes, key: MaskKey)
    requires |payload| <= 65535
    ensures OnWire(EncodeFrame(opcode, payload, Masked(key)), payload, key)
  {
    WirePayload(opcode, payload, Masked(key));
    hide EncodeFrame;
  }

  lemma MaskedHello(opcode: bv8, payload: Bytes, key: MaskKey)
    requires |payload| <= 65535
    ensures opcode == 0x1 && payload == HELLO && key == HELLO_KEY ==>
              EncodeFrame(opcode, payload, Masked(key)) == [0x81, 0x85, 0x37, 0xfa, 0x21, 0x3d, 0x7f, 0x9f, 0x4d, 0x51, 0x58]
  {
    ExampleFrames();
    hide EncodeFrame;
  }

  lemma EncodedIs(opcode: bv8, payload: Bytes, masking: Masking)
    requires Writable(payload)
    ensures EncodeFrame(opcode, payload, masking) == Header(opcode, |payload|, masking) + ApplyMask(payload, masking)
  {
  }

  lemma MaskedHeader(opcode: bv8, n: nat, key: MaskKey)
    requires n <= MAX_WRITE_BYTES
    ensures
      var h := Header(opcode, n, Plain);
      |h| >= 2 && h[1 := h[1] | 0x80] + key == Header(opcode, n, Masked(key))
  {
  }

  method MaskedFrame(opcode: bv8, payload: Bytes, key: MaskKey) returns (data: Bytes)
    requires Writable(payload)
    ensures data == EncodeFrame(opcode, payload, Masked(key))
    ensures OnWire(data, payload, key)
    ensures opcode == 0x1 && payload == HELLO && key == HELLO_KEY ==>
              data == [0x81, 0x85, 0x37, 0xfa, 0x21, 0x3d, 0x7f, 0x9f, 0x4d, 0x51, 0x58]
  {
    MaskedBytes(opcode, payload, key);
    MaskedHello(opcode, payload, key);
    MaskedHeader(opcode, |payload|, key);
    EncodedIs(opcode, payload, Masked(key));
    hide ApplyMask, EncodeFrame, OnWire, Header;
    var header := PlainHeader(opcode, |payload|);
    header := header[1 := header[1] | 0x80];
    header := header + key;
    var masked := XorWith(payload, key);
    data := header + masked;
  }

  // ---------- the connection as it runs ----------

  class Conn {
    const writeMasked: bool
    var input: Bytes             // bytes that arrived and were not read yet
    var wire: Bytes              // bytes the transport has taken
    var entropy: seq<MaskKey>    // what the random source still delivers
    var credit: nat              // bytes the transport takes before it fails
    ghost var failed: bool       // some transport or entropy error has happened

    constructor (masked: bool, input: Bytes, entropy: seq<MaskKey>, credit: nat)
      ensures writeMasked == masked && this.input == input && wire == [] && !failed
      ensures this.entropy == entropy && this.credit == credit
    {
      writeMasked := masked;
      this.input, this.entropy, this.credit := input, entropy, credit;
      wire, failed := [], false;
    }

    // Until something fails, the wire holds whole frames only.
    ghost predicate Sound()
      reads this
    {
      !failed ==> Whole(wire)
    }

    // net.Conn.Write: may stop short, and then reports an error.
    method TransportWrite(data: Bytes) returns (n: nat, ok: bool)
      modifies `wire, `credit, `failed
      ensures n <= |data| && (ok <==> n == |data|) && (ok <==> |data| <= old(credit))
      ensures wire == old(wire) + data[..n] && credit == old(credit) - n
      ensures failed == (old(failed) || !ok)
    {
      n := if |data| <= credit then |data| else credit;
      ok := n == |data|;
      wire := wire + data[..n];
      credit := credit - n;
      failed := failed || !ok;
    }

    method WriteFrame(opcode: bv8, payload: Bytes) returns (result: WriteResult, ghost masking: Masking)
      requires opcode < 16 && Sound()
      modifies `wire, `credit, `failed, `entropy
      ensures Sound() && (masking.Masked? ==> writeMasked)
      ensures result == Attempt(payload, writeMasked, |old(entropy)|, old(credit))
      ensures result == TooLarge <==> |payload| > 65535
      ensures failed == (old(failed) || Broken(result))
      ensures result in {TooLarge, NoEntropy} ==> wire == old(wire)
      ensures Spent(old(credit), |old(entropy)|, old(failed), credit, |entropy|, failed, writeMasked, [payload])
      ensures result == Written ==>
                (masking.Masked? <==> writeMasked) && wire == old(wire) + EncodeFrame(opcode, payload, masking)
      ensures result == TransportFailed ==>
                exists k :: 0 <= k < |EncodeFrame(opcode, payload, masking)|
                            && wire == old(wire) + EncodeFrame(opcode, payload, masking)[..k]
      ensures !old(failed) ==> ParseAll(wire).messages ==
                               ParseAll(old(wire)).messages + if result == Written then [Message(opcode, payload)] else []
    {
      hide ParseFrame, ParseAll, EncodeFrame, Enough, SendBytes, SendKeys;
      SpentOnce(credit, |entropy|, failed, writeMasked, payload);
      masking := Plain;
      assert ParseAll(wire).messages + [] == ParseAll(wire).messages;
      if |payload| > 65535 {
        return TooLarge, masking;
      }
      var data;
      if writeMasked {
        if entropy == [] {
          failed := true;
          return NoEntropy, masking;
        }
        var key := entropy[0];
        entropy := entropy[1..];
        masking := Masked(key);
        data := MaskedFrame(opcode, payload, key);
      } else {
        data := PlainHeader(opcode, |payload|);
        data := data + payload;
        PlainFrameBytes(opcode, payload);
      }
      EncodedLength(opcode, payload, masking);
      var n, ok := TransportWrite(data);
      if ok {
        assert data[..n] == data;
        if !failed {
          AppendFrame(old(wire), opcode, payload, masking);
        }
        return Written, masking;
      }
      if !old(failed) {
        AppendCutFrame(old(wire), opcode, payload, masking, n);
      }
      return TransportFailed, masking;
    }

    method WriteText(message: Bytes) returns (result: WriteResult)
      requires Sound()
      modifies `wire, `credit, `failed, `entropy
      ensures Sound()
      ensures result == Attempt(message, writeMasked, |old(entropy)|, old(credit))
      ensures failed == (old(failed) || Broken(result))
      ensures result in {TooLarge, NoEntropy} ==> wire == old(wire)
      ensures Spent(old(credit), |old(entropy)|, old(failed), credit, |entropy|, failed, writeMasked, [message])
      ensures !old(failed) ==> ParseAll(wire).messages ==
                               ParseAll(old(wire)).messages + if result == Written then [Message(OPCODE_TEXT, message)] else []
    {
      ghost var masking;
      result, masking := WriteFrame(OPCODE_TEXT, message);
    }

    method WriteClose() returns (result: WriteResult)
      requires Sound()
      modifies `wire, `credit, `failed, `entropy
      ensures Sound()
      ensures result == Attempt([], writeMasked, |old(entropy)|, old(credit))
      ensures failed == (old(failed) || Broken(result))
      ensures Spent(old(credit), |old(entropy)|, old(failed), credit, |entropy|, failed, writeMasked, [[]])
      ensures !old(failed) ==> ParseAll(wire).messages ==
                               ParseAll(old(wire)).messages + if result == Written then [Message(OPCODE_CLOSE, [])] else []
    {
      ghost var masking;
      result, masking := WriteFrame(OPCODE_CLOSE, []);
    }

    method WriteControl(opcode: bv8, payload: Bytes) returns (result: WriteResult)
      requires opcode < 16 && Sound()
      modifies `wire, `credit, `failed, `entropy
      ensures Sound()
      ensures result == Attempt(payload, writeMasked, |old(entropy)|, old(credit))
      ensures failed == (old(failed) || Broken(result))
      ensures Spent(old(credit), |old(entropy)|, old(failed), credit, |entropy|, failed, writeMasked, [payload])
      ensures !old(failed) ==> ParseAll(wire).messages ==
                               ParseAll(old(wire)).messages + if result == Written then [Message(opcode, payload)] else []
    {
      ghost var masking;
      result, masking := WriteFrame(opcode, payload);
    }

    // io.ReadFull: all of n bytes, or an error after swallowing what was there.
    method ReadFull(n: nat) returns (ok: bool, data: Bytes)
      modifies `input
      ensures ok <==> |old(input)| >= n
      ensures ok ==> data == old(input)[..n] && input == old(input)[n..]
      ensures !ok ==> input == []
    {
      if |input| < n {
        data, input := [], [];
        return false, data;
      }
      data, input := input[..n], input[n..];
      return true, data;
    }

    method ReadFrame() returns (ok: bool, opcode: bv8, payload: Bytes, failure: Failure)
      modifies `input
      ensures ok <==> ParseFrame(old(input)).Frame?
      ensures ok ==> ParseFrame(old(input)) == Frame(opcode, payload, input)
      ensures !ok ==> ParseFrame(old(input)) == Failed(failure, input)
    {
      hide ParseBody, BigEndian;
      opcode, payload, failure := 0, [], ShortRead;
      var header;
      ok, header := ReadFull(2);
      if !ok { return; }
      opcode := header[0] & 0x0f;
      var masked := header[1] & 0x80 != 0;
      var short := header[1] & 0x7f;
      var length := short as nat;
      if short == 126 {
        var extended;
        ok, extended := ReadFull(2);
        if !ok { return; }
        assert extended == old(input)[2..4] && input == old(input)[4..];
        length := BigEndian(extended);
      } else if short == 127 {
        var extended;
        ok, extended := ReadFull(8);
        if !ok { return; }
        assert extended == old(input)[2..10] && input == old(input)[10..];
        length := BigEndian(extended);
      }
      assert ParseFrame(old(input)) == ParseBody(opcode, masked, length, input);
      ok, payload, failure := ReadBody(opcode, masked, length);
    }

    // The rest of readFrame, once the length is known.
    method ReadBody(ghost opcode: bv8, masked: bool, length: nat) returns (ok: bool, payload: Bytes, failure: Failure)
      modifies `input
      ensures ok <==> ParseBody(opcode, masked, length, old(input)).Frame?
      ensures ok ==> ParseBody(opcode, masked, length, old(input)) == Frame(opcode, payload, input)
      ensures !ok ==> ParseBody(opcode, masked, length, old(input)) == Failed(failure, input)
    {
      payload, failure := [], ShortRead;
      if length > MAX_MESSAGE_BYTES {
        return false, [], TooLong;
      }
      if masked {
        var mask;
        ok, mask := ReadFull(4);
        if !ok { return; }
        ok, payload := ReadFull(length);
        if !ok { return; }
        payload := XorWith(payload, mask);
      } else {
        ok, payload := ReadFull(length);
      }
    }

    method AnswerPing(payload: Bytes)
      requires Sound()
      modifies `wire, `credit, `failed, `entropy
      ensures Sound() && (old(failed) ==> failed)
      ensures Spent(old(credit), |old(entropy)|, old(failed), credit, |entropy|, failed, writeMasked, [payload])
      ensures !failed ==> ParseAll(wire).messages == ParseAll(old(wire)).messages + Reply(OPCODE_PONG, payload)
    {
      hide ParseAll, Spent, Reply, Attempt;
      var result := WriteControl(OPCODE_PONG, payload);
      if !Broken(result) {
        AttemptReplies(result, payload, writeMasked, |old(entropy)|, old(credit), OPCODE_PONG);
      }
    }

    // Every ping met is answered as long as the transport and the random
    // source last; errors of these writes are dropped.
    method ReadText() returns (result: TextResult)
      requires Sound()
      modifies `input, `wire, `credit, `failed, `entropy
      ensures Sound()
      ensures result == ReadTextSpec(old(input)).result
      ensures input == ReadTextSpec(old(input)).rest
      ensures Spent(old(credit), |old(entropy)|, old(failed), credit, |entropy|, failed, writeMasked,
                    ReadTextSpec(old(input)).pings)
      ensures !failed ==> ParseAll(wire).messages ==
                          ParseAll(old(wire)).messages + Pongs(ReadTextSpec(old(input)).pings)
    {
      hide ParseFrame, ParseAll, Reply, Spent, Attempt, Writable, ReadTextSpec, Pongs;
      ghost var spec := ReadTextSpec(input);
      NoPongs();
      ghost var pings := [];
      SpentNothing(credit, |entropy|, failed, writeMasked);
      assert ParseAll(wire).messages + [] == ParseAll(wire).messages;
      while true
        invariant Sound()
        invariant spec.result == ReadTextSpec(input).result && spec.rest == ReadTextSpec(input).rest
        invariant spec.pings == pings + ReadTextSpec(input).pings
        invariant Spent(old(credit), |old(entropy)|, old(failed), credit, |entropy|, failed, writeMasked, pings)
        invariant old(failed) ==> failed
        invariant !failed ==> ParseAll(wire).messages == ParseAll(old(wire)).messages + Pongs(pings)
        decreases |input|
      {
        ParseConsumes(input);
        ReadTextUnfolds(input, pings);
        var ok, opcode, payload, failure := ReadFrame();
        if !ok {
          return ReadFailed(failure);
        }
        if opcode == OPCODE_TEXT {
          return Text(payload);
        } else if opcode == OPCODE_CLOSE {
          return Eof;
        } else if opcode == OPCODE_PING {
          ghost var c, k, f := credit, |entropy|, failed;
          AnswerPing(payload);
          SpentMore(old(credit), |old(entropy)|, old(failed), c, k, f, credit, |entropy|, failed,
                    writeMasked, pings, [payload]);
          OneMorePong(ParseAll(old(wire)).messages, pings, payload);
          pings := pings + [payload];
        } else if opcode != OPCODE_PONG {
          return Unsupported(opcode);
        }
      }
    }

    // n texts have been read off `start`, their pings met and answered.
    ghost predicate HasRead(start: Bytes, n: nat, before: seq<Message>, credit0: nat, keys0: nat, failed0: bool)
      reads this
    {
      && Sound() && input == RestAfter(start, n)
      && Spent(credit0, keys0, failed0, credit, |entropy|, failed, writeMasked, PingsOf(start, n))
      && failed == (failed0 || !Enough(credit0, keys0, writeMasked, PingsOf(start, n)))
      && (!failed ==> ParseAll(wire).messages == before + Pongs(PingsOf(start, n)))
    }

    method ReadNext(ghost start: Bytes, ghost n: nat, ghost before: seq<Message>,
                    ghost credit0: nat, ghost keys0: nat, ghost failed0: bool) returns (result: TextResult)
      requires HasRead(start, n, before, credit0, keys0, failed0)
      modifies `input, `wire, `credit, `failed, `entropy
      ensures HasRead(start, n + 1, before, credit0, keys0, failed0)
      ensures result == ReadTextSpec(old(input)).result && input == ReadTextSpec(old(input)).rest
    {
      hide Whole, ParseAll, ReadTextSpec, Pongs, Spent, Enough;
      ghost var pings := ReadTextSpec(input).pings;
      result := ReadText();
      SpentMore(credit0, keys0, failed0, old(credit), |old(entropy)|, old(failed), credit, |entropy|, failed,
                writeMasked, PingsOf(start, n), pings);
      MorePongs(before, PingsOf(start, n), pings);
    }
  }

  lemma NothingRead(c: Conn)
    requires c.Sound()
    ensures c.HasRead(c.input, 0, ParseAll(c.wire).messages, c.credit, |c.entropy|, c.failed)
  {
    hide ParseAll, Whole, Enough;
    EnoughForNothing(c.credit, |c.entropy|, c.writeMasked);
    SpentNothing(c.credit, |c.entropy|, c.failed, c.writeMasked);
    NoPongs();
    assert ParseAll(c.wire).messages + [] == ParseAll(c.wire).messages;
  }

  /**
   * bridgeExecWebSocket. What reaches the other side is always an initial part
   * of what the source said, in order; unless a write broke it is everything up
   * to the source's first close, error, or text too large for one frame. And a
   * write breaks only if the transport or the random source cannot take that.
   */
  method Bridge(dst: Conn, src: Conn) returns (ghost delivered: seq<Bytes>)
    requires dst != src && dst.Sound() && src.Sound()
    modifies dst`wire, dst`credit, dst`failed, dst`entropy
    modifies src`input, src`wire, src`credit, src`failed, src`entropy
    ensures dst.Sound() && src.Sound()
    ensures
      var wanted := Relayable(ReadTexts(old(src.input)));
      && delivered <= wanted
      && (delivered == wanted <==> Enough(old(dst.credit), |old(dst.entropy)|, dst.writeMasked, wanted))
      && dst.failed == (old(dst.failed) || delivered != wanted)
    ensures !old(dst.failed) ==>
              ParseAll(dst.wire).messages == ParseAll(old(dst.wire)).messages + AsTexts(delivered)
    ensures
      var pings := PingsOf(old(src.input), |delivered| + 1);
      && src.failed == (old(src.failed) || !Enough(old(src.credit), |old(src.entropy)|, src.writeMasked, pings))
      && (!src.failed ==> ParseAll(src.wire).messages == ParseAll(old(src.wire)).messages + Pongs(pings))
  {
    hide ParseFrame, ParseAll, ReadTextSpec, ReadTexts, AsTexts, Relayable, Attempt, Enough, SendBytes, SendKeys;
    hide Writable, Spent, FrameLength, PingsOf, RestAfter;
    delivered := [];
    ghost var start, before := src.input, ParseAll(src.wire).messages;
    ghost var all := ReadTexts(start);
    ghost var c0, k0, f0 := dst.credit, |dst.entropy|, dst.failed;
    ghost var c1, k1, f1 := src.credit, |src.entropy|, src.failed;
    EnoughForNothing(c0, k0, dst.writeMasked);
    NothingRead(src);
    NoTexts();
    Units(all, ParseAll(dst.wire).messages);
    while true
      invariant dst.Sound() && src.HasRead(start, |delivered|, before, c1, k1, f1)
      invariant all == delivered + ReadTexts(src.input)
      invariant forall i | 0 <= i < |delivered| :: Writable(delivered[i])
      invariant Enough(c0, k0, dst.writeMasked, delivered)
      invariant dst.credit == c0 - SendBytes(delivered, dst.writeMasked)
      invariant |dst.entropy| == k0 - SendKeys(delivered, dst.writeMasked)
      invariant dst.failed == f0
      invariant !f0 ==> ParseAll(dst.wire).messages == ParseAll(old(dst.wire)).messages + AsTexts(delivered)
      decreases |src.input|
    {
      ReadTextProgress(src.input);
      ReadTextsUnfolds(src.input, delivered);
      var message := src.ReadNext(start, |delivered|, before, c1, k1, f1);
      RelaysWritable(all, delivered);
      if !message.Text? {
        RelayableIs(all, delivered);
        return;
      }
      ghost var dc, dk := dst.credit, |dst.entropy|;
      var result := dst.WriteText(message.payload);
      DeliveredMore(c0, k0, dst.writeMasked, delivered, message.payload, result, dc, dk, f0,
                    dst.credit, |dst.entropy|, dst.failed);
      if result != Written {
        if result == TooLarge {
          RelayableIs(all, delivered);
        } else {
          StoppedShort(all, delivered, message.payload, c0, k0, dst.writeMasked);
        }
        return;
      }
      OneMoreText(ParseAll(old(dst.wire)).messages, delivered, message.payload);
      delivered := delivered + [message.payload];
    }
  }
}
