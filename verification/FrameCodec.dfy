/**
 * The wire format of internal/websocket: base framing (RFC 6455 section 5.2)
 * and masking (section 5.3), as written by writeFrame and read by readFrame.
 */
module FrameCodec {

  const OPCODE_TEXT: bv8 := 0x1
  const OPCODE_CLOSE: bv8 := 0x8
  const OPCODE_PING: bv8 := 0x9
  const OPCODE_PONG: bv8 := 0xa

  // Largest payload the reader accepts, and largest one the writer sends.
  const MAX_MESSAGE_BYTES: nat := 262144
  const MAX_WRITE_BYTES: nat := 65535

  type Bytes = seq<bv8>

  type MaskKey = k: Bytes | |k| == 4 witness [0, 0, 0, 0]

  datatype Masking = Plain | Masked(key: MaskKey)

  datatype Failure = ShortRead | TooLong

  // A failed read also says which bytes it left unread.
  datatype Parsed =
    | Frame(opcode: bv8, payload: Bytes, rest: Bytes)
    | Failed(failure: Failure, unread: Bytes)

  datatype Message = Message(opcode: bv8, payload: Bytes)

  // What reading frames until the first failure yields.
  datatype Stream = Stream(messages: seq<Message>, rest: Bytes)

  function ApplyMask(p: Bytes, masking: Masking): (r: Bytes)
    ensures |r| == |p|
  {
    match masking
    case Plain => p
    case Masked(key) => seq(|p|, i requires 0 <= i < |p| => p[i] ^ key[i % 4])
  }

  lemma MaskIsInvolutive(p: Bytes, masking: Masking)
    ensures ApplyMask(ApplyMask(p, masking), masking) == p
  {
  }

  function BigEndian(s: Bytes): (n: nat)
  {
    if s == [] then 0 else BigEndian(s[..|s| - 1]) * 256 + s[|s| - 1] as nat
  }

  // ---------- writer ----------

  // The byte with value n. Counting up keeps integer-to-bitvector
  // conversions, which the solver handles badly, out of every proof.
  function ByteOf(n: nat): (b: bv8)
    requires n < 256
    ensures b as nat == n
  {
    if n == 0 then 0 else ByteOf(n - 1) + 1
  }

  predicate Writable(payload: Bytes) {
    |payload| <= MAX_WRITE_BYTES
  }

  function LengthBytes(n: nat): Bytes
    requires n <= MAX_WRITE_BYTES
  {
    if n < 126 then [ByteOf(n)] else [126, ByteOf(n / 256), ByteOf(n % 256)]
  }

  // The second header byte carries the masking bit on top of the length byte.
  function SecondByte(n: nat, masking: Masking): bv8
    requires n <= MAX_WRITE_BYTES
  {
    if masking.Masked? then LengthBytes(n)[0] | 0x80 else LengthBytes(n)[0]
  }

  function KeyBytes(masking: Masking): Bytes {
    match masking
    case Plain => []
    case Masked(key) => key
  }

  function Header(opcode: bv8, n: nat, masking: Masking): Bytes
    requires n <= MAX_WRITE_BYTES
  {
    [0x80 | opcode, SecondByte(n, masking)] + LengthBytes(n)[1..] + KeyBytes(masking)
  }

  function EncodeFrame(opcode: bv8, payload: Bytes, masking: Masking): Bytes
    requires Writable(payload)
  {
    Header(opcode, |payload|, masking) + ApplyMask(payload, masking)
  }

  // ---------- reader ----------

  function ParsePayload(opcode: bv8, masking: Masking, length: nat, s: Bytes): Parsed {
    if |s| < length then Failed(ShortRead, [])
    else Frame(opcode, ApplyMask(s[..length], masking), s[length..])
  }

  function ParseBody(opcode: bv8, masked: bool, length: nat, s: Bytes): Parsed {
    if length > MAX_MESSAGE_BYTES then Failed(TooLong, s)
    else if !masked then ParsePayload(opcode, Plain, length, s)
    else if |s| < 4 then Failed(ShortRead, [])
    else ParsePayload(opcode, Masked(s[..4]), length, s[4..])
  }

  function ParseFrame(s: Bytes): Parsed {
    if |s| < 2 then Failed(ShortRead, []) else
    var opcode := s[0] & 0x0f;
    var masked := s[1] & 0x80 != 0;
    var short := s[1] & 0x7f;
    if short == 126 then
      if |s| < 4 then Failed(ShortRead, []) else ParseBody(opcode, masked, BigEndian(s[2..4]), s[4..])
    else if short == 127 then
      if |s| < 10 then Failed(ShortRead, []) else ParseBody(opcode, masked, BigEndian(s[2..10]), s[10..])
    else
      ParseBody(opcode, masked, short as nat, s[2..])
  }

  lemma ParseConsumes(s: Bytes)
    ensures ParseFrame(s).Frame? ==> |ParseFrame(s).rest| + 2 <= |s|
  {
  }

  function ParseAll(s: Bytes): Stream
    decreases |s|
  {
    ParseConsumes(s);
    match ParseFrame(s)
    case Failed(_, _) => Stream([], s)
    case Frame(opcode, payload, rest) =>
      var tail := ParseAll(rest);
      Stream([Message(opcode, payload)] + tail.messages, tail.rest)
  }

  // A byte string that is exactly a concatenation of whole frames.
  predicate Whole(s: Bytes) {
    ParseAll(s).rest == []
  }

  // ---------- codec theorems ----------

  lemma HeaderBits(opcode: bv8, len: bv8)
    ensures opcode < 16 ==> (0x80 | opcode) & 0x0f == opcode
    ensures len < 0x80 ==> len & 0x80 == 0 && len & 0x7f == len
    ensures len < 0x80 ==> (len | 0x80) & 0x80 != 0 && (len | 0x80) & 0x7f == len
  {
  }

  lemma BigEndianSnoc(s: Bytes, b: bv8)
    ensures BigEndian(s + [b]) == BigEndian(s) * 256 + b as nat
  {
    assert (s + [b])[..|s|] == s;
  }

  lemma BigEndianPair(hi: bv8, lo: bv8)
    ensures BigEndian([hi, lo]) == hi as nat * 256 + lo as nat
  {
    assert [hi, lo][..1] == [hi];
    assert [hi][..0] == [];
    assert BigEndian([hi]) == hi as nat;
  }

  // The length as the reader recovers it from the writer's length bytes.
  lemma LengthBytesDecode(n: nat)
    requires n <= MAX_WRITE_BYTES
    ensures
      var len := LengthBytes(n);
      len[0] < 0x80 && (if n < 126 then |len| == 1 && len[0] != 126 && len[0] != 127 && len[0] as nat == n
                        else |len| == 3 && len[0] == 126 && BigEndian(len[1..]) == n)
  {
    var len := LengthBytes(n);
    if n >= 126 {
      BigEndianPair(ByteOf(n / 256), ByteOf(n % 256));
      assert len[1..] == [ByteOf(n / 256), ByteOf(n % 256)];
    }
  }

  lemma Regroup(a: Bytes, b: Bytes, c: Bytes, d: Bytes)
    ensures ((a + b) + c) + d == a + (b + (c + d))
  {
  }

  lemma FrameShape(opcode: bv8, payload: Bytes, masking: Masking, rest: Bytes)
    requires Writable(payload)
    ensures EncodeFrame(opcode, payload, masking) + rest ==
            [0x80 | opcode, SecondByte(|payload|, masking)] + LengthBytes(|payload|)[1..]
            + (KeyBytes(masking) + (ApplyMask(payload, masking) + rest))
  {
    Regroup([0x80 | opcode, SecondByte(|payload|, masking)] + LengthBytes(|payload|)[1..],
            KeyBytes(masking), ApplyMask(payload, masking), rest);
  }

  lemma SecondByteDecodes(n: nat, masking: Masking)
    requires n <= MAX_WRITE_BYTES
    ensures
      var b, len := SecondByte(n, masking), LengthBytes(n);
      && (b & 0x80 != 0 <==> masking.Masked?)
      && b & 0x7f != 127
      && |len| == (if b & 0x7f == 126 then 3 else 1)
      && (if |len| == 3 then BigEndian(len[1..]) else (b & 0x7f) as nat) == n
  {
    LengthBytesDecode(n);
    HeaderBits(0, LengthBytes(n)[0]);
  }

  lemma HeaderParses(first: bv8, second: bv8, len: Bytes, after: Bytes)
    requires |len| == (if second & 0x7f == 126 then 3 else 1)
    requires second & 0x7f != 127
    ensures ParseFrame([first, second] + len[1..] + after) ==
            ParseBody(first & 0x0f, second & 0x80 != 0,
                      if |len| == 3 then BigEndian(len[1..]) else (second & 0x7f) as nat, after)
  {
  }

  lemma BodyRoundTrip(opcode: bv8, payload: Bytes, masking: Masking, rest: Bytes)
    ensures
      var tail := KeyBytes(masking) + (ApplyMask(payload, masking) + rest);
      ParseBody(opcode, masking.Masked?, |payload|, tail) ==
        if |payload| <= MAX_MESSAGE_BYTES then Frame(opcode, payload, rest) else Failed(TooLong, tail)
  {
  }

  // readFrame undoes writeFrame and leaves the bytes behind the frame alone.
  lemma RoundTrip(opcode: bv8, payload: Bytes, masking: Masking, rest: Bytes)
    requires opcode < 16 && Writable(payload)
    ensures ParseFrame(EncodeFrame(opcode, payload, masking) + rest) == Frame(opcode, payload, rest)
  {
    hide ParseFrame, ParseBody, EncodeFrame, SecondByte, LengthBytes, KeyBytes, ApplyMask, BigEndian;
    var n := |payload|;
    FrameShape(opcode, payload, masking, rest);
    SecondByteDecodes(n, masking);
    HeaderBits(opcode, 0);
    HeaderParses(0x80 | opcode, SecondByte(n, masking), LengthBytes(n), KeyBytes(masking) + (ApplyMask(payload, masking) + rest));
    BodyRoundTrip(opcode, payload, masking, rest);
  }

  // The reader also takes lengths in a longer form than needed, up to eight
  // bytes, and turns away anything over its limit before reading the key.
  lemma LongForms(first: bv8, length: Bytes, payload: Bytes, masking: Masking, rest: Bytes)
    requires |length| == 2 || |length| == 8
    requires BigEndian(length) == |payload|
    ensures
      var second: bv8 := (if |length| == 2 then 126 else 127) | (if masking.Masked? then 0x80 else 0);
      var tail := KeyBytes(masking) + (ApplyMask(payload, masking) + rest);
      ParseFrame([first, second] + length + tail) ==
        if |payload| <= 262144 then Frame(first & 0x0f, payload, rest) else Failed(TooLong, tail)
  {
    hide BigEndian, ApplyMask;
    var second: bv8 := (if |length| == 2 then 126 else 127) | (if masking.Masked? then 0x80 else 0);
    var tail := KeyBytes(masking) + (ApplyMask(payload, masking) + rest);
    var s := [first, second] + length + tail;
    assert s[2..2 + |length|] == length && s[2 + |length|..] == tail;
    assert second & 0x7f == (if |length| == 2 then 126 else 127) && (second & 0x80 != 0 <==> masking.Masked?);
    BodyRoundTrip(first & 0x0f, payload, masking, rest);
  }

  lemma SliceOfPrefix(s: Bytes, t: Bytes, from: nat, to: nat)
    requires from <= to <= |s|
    ensures (s + t)[from..to] == s[from..to] && (s + t)[to..] == s[to..] + t
  {
  }

  lemma BodyIsStable(opcode: bv8, masked: bool, length: nat, s: Bytes, t: Bytes)
    requires ParseBody(opcode, masked, length, s).Frame?
    ensures ParseBody(opcode, masked, length, s + t) ==
            ParseBody(opcode, masked, length, s).(rest := ParseBody(opcode, masked, length, s).rest + t)
  {
    if masked {
      SliceOfPrefix(s, t, 0, 4);
      assert (s[4..] + t)[..length] == s[4..][..length];
      assert (s[4..] + t)[length..] == s[4..][length..] + t;
    } else {
      assert (s + t)[..length] == s[..length];
      assert (s + t)[length..] == s[length..] + t;
    }
  }

  // A frame that is already complete is read the same whatever follows it.
  lemma ParseIsStable(s: Bytes, t: Bytes)
    requires ParseFrame(s).Frame?
    ensures ParseFrame(s + t) == ParseFrame(s).(rest := ParseFrame(s).rest + t)
  {
    hide BigEndian, ParseBody;
    var masked := s[1] & 0x80 != 0;
    var short := s[1] & 0x7f;
    if short == 126 {
      SliceOfPrefix(s, t, 2, 4);
      BodyIsStable(s[0] & 0x0f, masked, BigEndian(s[2..4]), s[4..], t);
    } else if short == 127 {
      SliceOfPrefix(s, t, 2, 10);
      BodyIsStable(s[0] & 0x0f, masked, BigEndian(s[2..10]), s[10..], t);
    } else {
      SliceOfPrefix(s, t, 2, 2);
      BodyIsStable(s[0] & 0x0f, masked, short as nat, s[2..], t);
    }
  }

  // No written frame starts another one: the wire can be cut in one way only.
  lemma PrefixFree(op1: bv8, p1: Bytes, m1: Masking, op2: bv8, p2: Bytes, m2: Masking, tail: Bytes)
    requires op1 < 16 && op2 < 16 && Writable(p1) && Writable(p2)
    requires EncodeFrame(op1, p1, m1) + tail == EncodeFrame(op2, p2, m2)
    ensures tail == [] && op1 == op2 && p1 == p2
  {
    RoundTrip(op1, p1, m1, tail);
    RoundTrip(op2, p2, m2, []);
    assert EncodeFrame(op2, p2, m2) + [] == EncodeFrame(op2, p2, m2);
  }

  // A frame cut short is never taken for a whole one.
  lemma CutFrameFails(opcode: bv8, payload: Bytes, masking: Masking, k: nat)
    requires opcode < 16 && Writable(payload)
    requires k < |EncodeFrame(opcode, payload, masking)|
    ensures ParseFrame(EncodeFrame(opcode, payload, masking)[..k]).Failed?
  {
    hide EncodeFrame, ParseFrame;
    var e := EncodeFrame(opcode, payload, masking);
    if ParseFrame(e[..k]).Frame? {
      ParseIsStable(e[..k], e[k..]);
      assert e[..k] + e[k..] == e && e + [] == e;
      RoundTrip(opcode, payload, masking, []);
      assert false;
    }
  }

  // Every written frame is final (FIN set, no reserved bit): RFC 6455 section 5.2.
  lemma FinalFrame(opcode: bv8, payload: Bytes, masking: Masking)
    requires opcode < 16 && Writable(payload)
    ensures
      var e := EncodeFrame(opcode, payload, masking);
      |e| >= 2 && e[0] & 0xf0 == 0x80 && (e[1] & 0x80 != 0 <==> masking.Masked?)
  {
  }

  function FrameLength(n: nat, masked: bool): nat {
    n + (if n < 126 then 2 else 4) + (if masked then 4 else 0)
  }

  lemma EncodedLength(opcode: bv8, payload: Bytes, masking: Masking)
    requires Writable(payload)
    ensures |EncodeFrame(opcode, payload, masking)| == FrameLength(|payload|, masking.Masked?)
  {
  }

  lemma AcceptedLength(s: Bytes)
    requires ParseFrame(s).Frame? && ParseFrame(s).rest == []
    ensures |s| >= |ParseFrame(s).payload| + (if |ParseFrame(s).payload| < 126 then 2 else 4)
                   + (if s[1] & 0x80 != 0 then 4 else 0)
  {
    var short := s[1] & 0x7f;
    if short != 126 && short != 127 {
      assert short < 126;
    }
  }

  // Whatever encoding of a payload the reader accepts, the writer's is no longer.
  lemma MinimalEncoding(s: Bytes, masking: Masking)
    requires ParseFrame(s).Frame? && ParseFrame(s).rest == []
    requires masking.Masked? <==> s[1] & 0x80 != 0
    requires Writable(ParseFrame(s).payload)
    ensures |EncodeFrame(ParseFrame(s).opcode, ParseFrame(s).payload, masking)| <= |s|
  {
    AcceptedLength(s);
    EncodedLength(ParseFrame(s).opcode, ParseFrame(s).payload, masking);
  }

  // The reader never hands out more than 256 KiB.
  lemma ReaderBound(s: Bytes)
    ensures ParseFrame(s).Frame? ==> |ParseFrame(s).payload| <= 262144
  {
  }

  // ---------- the bytes themselves ----------

  lemma HeaderLayout(opcode: bv8, n: nat, masking: Masking)
    requires n <= 65535
    ensures
      var head := Header(opcode, n, masking);
      var h := if n < 126 then 2 else 4;
      && |head| == h + (if masking.Masked? then 4 else 0)
      && head[0] == 0x80 | opcode && (head[1] & 0x80 != 0 <==> masking.Masked?)
      && (head[1] & 0x7f) as nat == (if n < 126 then n else 126)
      && (n >= 126 ==> head[2] as nat * 256 + head[3] as nat == n)
      && (masking.Masked? ==> head[h..h + 4] == masking.key)
  {
    var len, second, key := LengthBytes(n), SecondByte(n, masking), KeyBytes(masking);
    SecondByteDecodes(n, masking);
    LengthBytesDecode(n);
    assert Header(opcode, n, masking) == [0x80 | opcode, second] + len[1..] + key;
    assert masking.Masked? ==> key == masking.key;
    hide Header, LengthBytes, SecondByte, BigEndian;
    if n >= 126 {
      BigEndianPair(len[1], len[2]);
      assert len[1..] == [len[1], len[2]];
      assert (second & 0x7f) as nat == 126;
    }
  }

  lemma PayloadLayout(head: Bytes, shown: Bytes, h: nat)
    requires 2 <= h <= |head|
    ensures
      var e := head + shown;
      && (forall i | 0 <= i < |head| :: e[i] == head[i]) && (forall i | 0 <= i < |shown| :: e[|head| + i] == shown[i])
      && e[h..|head|] == head[h..] && e[|head|..] == shown
  {
  }

  lemma MaskedAt(p: Bytes, key: MaskKey)
    ensures forall i | 0 <= i < |p| :: ApplyMask(p, Masked(key))[i] == p[i] ^ key[i % 4]
  {
  }

  // RFC 6455 section 5.2, byte for byte: FIN and opcode; the mask bit and a
  // length below 126, or 126 and two bytes with the high one first.
  lemma WireHeader(opcode: bv8, payload: Bytes, masking: Masking)
    requires |payload| <= 65535
    ensures
      var e, n := EncodeFrame(opcode, payload, masking), |payload|;
      && |e| == (if n < 126 then 2 else 4) + (if masking.Masked? then 4 else 0) + n
      && e[0] == 0x80 | opcode && (e[1] & 0x80 != 0 <==> masking.Masked?)
      && (e[1] & 0x7f) as nat == (if n < 126 then n else 126)
      && (n >= 126 ==> e[2] as nat * 256 + e[3] as nat == n)
  {
    var head, shown := Header(opcode, |payload|, masking), ApplyMask(payload, masking);
    HeaderLayout(opcode, |payload|, masking);
    assert EncodeFrame(opcode, payload, masking) == head + shown;
    hide Header, ApplyMask, EncodeFrame;
  }

  lemma HeaderEnd(opcode: bv8, n: nat, masking: Masking)
    requires n <= 65535
    ensures
      var head := Header(opcode, n, masking);
      && |head| >= 2 && (masking.Masked? ==> |head| >= 6 && head[|head| - 4..] == masking.key)
  {
  }

  // And then the key, and byte i of the payload under byte i mod 4 of it; or the
  // payload as it is.
  lemma WirePayload(opcode: bv8, payload: Bytes, masking: Masking)
    requires |payload| <= 65535
    ensures
      var e := EncodeFrame(opcode, payload, masking);
      var start := |e| - |payload|;
      && start >= 2
      && (masking.Masked? ==>
            start >= 6 && e[start - 4..start] == masking.key
            && forall i | 0 <= i < |payload| :: e[start + i] == payload[i] ^ masking.key[i % 4])
      && (masking.Plain? ==> e[start..] == payload)
  {
    var head, shown := Header(opcode, |payload|, masking), ApplyMask(payload, masking);
    HeaderEnd(opcode, |payload|, masking);
    assert EncodeFrame(opcode, payload, masking) == head + shown;
    PayloadLayout(head, shown, if masking.Masked? then |head| - 4 else |head|);
    if masking.Masked? {
      MaskedAt(payload, masking.key);
    } else {
      assert shown == payload;
    }
    hide Header, ApplyMask, EncodeFrame;
  }

  // Zero bytes show the key, over and over.
  lemma MaskOfZeros(zeros: Bytes, key: MaskKey)
    requires forall i | 0 <= i < |zeros| :: zeros[i] == 0
    ensures forall i | 0 <= i < |zeros| :: ApplyMask(zeros, Masked(key))[i] == key[i % 4]
  {
  }

  lemma XorCancels(a: bv8, b: bv8, k: bv8)
    ensures (a ^ k) ^ (b ^ k) == a ^ b
  {
  }

  // Under one key, what two texts differ in is what their masked bytes differ in.
  lemma MaskDifference(a: Bytes, b: Bytes, key: MaskKey)
    requires |a| == |b|
    ensures forall i | 0 <= i < |a| ::
              ApplyMask(a, Masked(key))[i] ^ ApplyMask(b, Masked(key))[i] == a[i] ^ b[i]
  {
    forall i | 0 <= i < |a|
      ensures ApplyMask(a, Masked(key))[i] ^ ApplyMask(b, Masked(key))[i] == a[i] ^ b[i]
    {
      XorCancels(a[i], b[i], key[i % 4]);
    }
  }

  const HELLO: Bytes := [0x48, 0x65, 0x6c, 0x6c, 0x6f]
  const HELLO_KEY: MaskKey := [0x37, 0xfa, 0x21, 0x3d]

  // The examples of RFC 6455 section 5.7, and a close without a payload.
  lemma ExampleFrames()
    ensures EncodeFrame(OPCODE_TEXT, HELLO, Plain) == [0x81, 0x05, 0x48, 0x65, 0x6c, 0x6c, 0x6f]
    ensures EncodeFrame(OPCODE_TEXT, HELLO, Masked(HELLO_KEY)) ==
            [0x81, 0x85, 0x37, 0xfa, 0x21, 0x3d, 0x7f, 0x9f, 0x4d, 0x51, 0x58]
    ensures EncodeFrame(OPCODE_PING, HELLO, Plain) == [0x89, 0x05, 0x48, 0x65, 0x6c, 0x6c, 0x6f]
    ensures EncodeFrame(OPCODE_PONG, HELLO, Masked(HELLO_KEY)) ==
            [0x8a, 0x85, 0x37, 0xfa, 0x21, 0x3d, 0x7f, 0x9f, 0x4d, 0x51, 0x58]
    ensures EncodeFrame(OPCODE_CLOSE, [], Plain) == [0x88, 0x00]
  {
    assert ApplyMask(HELLO, Masked(HELLO_KEY)) == [0x7f, 0x9f, 0x4d, 0x51, 0x58];
  }

  // Two or eight bytes of a length within the reader's limit.
  predicate BytesOfLength(s: Bytes, n: nat) {
    if |s| == 2 then s[0] as nat * 256 + s[1] as nat == n
    else
      && |s| == 8 && (forall i | 0 <= i < 5 :: s[i] == 0)
      && (s[5] as nat * 256 + s[6] as nat) * 256 + s[7] as nat == n
  }

  lemma BigEndianOfEight(s: Bytes)
    requires |s| == 8 && forall i | 0 <= i < 5 :: s[i] == 0
    ensures BigEndian(s) == (s[5] as nat * 256 + s[6] as nat) * 256 + s[7] as nat
  {
    assert s[..8][..7] == s[..7] && s[..7][..6] == s[..6] && s[..6][..5] == s[..5] && s[..5][..4] == s[..4];
    assert s[..4][..3] == s[..3] && s[..3][..2] == s[..2] && s[..2][..1] == s[..1] && s[..1][..0] == [];
    assert s[..8] == s && BigEndian(s[..1]) == 0 && BigEndian(s[..2]) == 0 && BigEndian(s[..3]) == 0;
    assert BigEndian(s[..4]) == 0 && BigEndian(s[..5]) == 0;
    assert BigEndian(s[..6]) == s[5] as nat && BigEndian(s[..7]) == s[5] as nat * 256 + s[6] as nat;
  }

  lemma BytesOfLengthAre(s: Bytes, n: nat)
    requires BytesOfLength(s, n)
    ensures BigEndian(s) == n
  {
    if |s| == 2 {
      BigEndianPair(s[0], s[1]);
      assert s == [s[0], s[1]];
    } else {
      BigEndianOfEight(s);
    }
  }

  // The reader takes a length from its bytes with the highest first.
  lemma LengthIsRead(first: bv8, length: Bytes, payload: Bytes, rest: Bytes)
    requires |payload| <= 262144 && BytesOfLength(length, |payload|)
    ensures ParseFrame([first, if |length| == 2 then 126 else 127] + length + (payload + rest)) ==
            Frame(first & 0x0f, payload, rest)
  {
    BytesOfLengthAre(length, |payload|);
    hide BigEndian, ParseFrame;
    LongForms(first, length, payload, Plain, rest);
    assert [] + (payload + rest) == payload + rest;
    assert (126 as bv8) | 0 == 126 && (127 as bv8) | 0 == 127;
  }

  // ---------- streams of frames ----------

  lemma {:induction false} WholeAppend(a: Bytes, b: Bytes)
    requires Whole(a)
    ensures ParseAll(a + b) == Stream(ParseAll(a).messages + ParseAll(b).messages, ParseAll(b).rest)
    decreases |a|
  {
    if a == [] {
      assert a + b == b;
    } else {
      ParseConsumes(a);
      ParseIsStable(a, b);
      var r := ParseFrame(a).rest;
      WholeAppend(r, b);
      var m := [Message(ParseFrame(a).opcode, ParseFrame(a).payload)];
      assert m + (ParseAll(r).messages + ParseAll(b).messages) == (m + ParseAll(r).messages) + ParseAll(b).messages;
    }
  }

  lemma OneFrame(opcode: bv8, payload: Bytes, masking: Masking)
    requires opcode < 16 && Writable(payload)
    ensures ParseAll(EncodeFrame(opcode, payload, masking)) == Stream([Message(opcode, payload)], [])
  {
    var e := EncodeFrame(opcode, payload, masking);
    RoundTrip(opcode, payload, masking, []);
    assert e + [] == e;
  }

  lemma AppendFrame(wire: Bytes, opcode: bv8, payload: Bytes, masking: Masking)
    requires Whole(wire) && opcode < 16 && Writable(payload)
    ensures ParseAll(wire + EncodeFrame(opcode, payload, masking)) ==
            Stream(ParseAll(wire).messages + [Message(opcode, payload)], [])
  {
    OneFrame(opcode, payload, masking);
    WholeAppend(wire, EncodeFrame(opcode, payload, masking));
  }

  // A frame cut short adds no message; what was written of it is left over.
  lemma AppendCutFrame(wire: Bytes, opcode: bv8, payload: Bytes, masking: Masking, k: nat)
    requires Whole(wire) && opcode < 16 && Writable(payload)
    requires k < |EncodeFrame(opcode, payload, masking)|
    ensures ParseAll(wire + EncodeFrame(opcode, payload, masking)[..k]) ==
            Stream(ParseAll(wire).messages, EncodeFrame(opcode, payload, masking)[..k])
  {
    hide EncodeFrame, ParseFrame;
    var part := EncodeFrame(opcode, payload, masking)[..k];
    CutFrameFails(opcode, payload, masking, k);
    WholeAppend(wire, part);
    assert ParseAll(wire).messages + [] == ParseAll(wire).messages;
  }

  // ---------- the server's second writer ----------

  // observability.go has its own unmasked text writer.
  function WebSocketTextBytes(message: Bytes): Bytes
    requires Writable(message)
  {
    var header :=
      if |message| < 126 then [0x81, ByteOf(|message|)]
      else [0x81, 126, ByteOf(|message| / 256), ByteOf(|message| % 256)];
    header + message
  }

  lemma TextWritersAgree(message: Bytes)
    requires Writable(message)
    ensures WebSocketTextBytes(message) == EncodeFrame(OPCODE_TEXT, message, Plain)
  {
  }
}
