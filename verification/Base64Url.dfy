/**
 * The passkey page's base64url codec (RFC 4648 section 5), built on the
 * browser's btoa and atob for plain base64 (section 4).
 */
module Base64Url {
  import opened Wrappers

  type Byte = n: nat | n < 256

  // ---------- plain base64 ----------

  predicate IsDigit64(c: char) {
    'A' <= c <= 'Z' || 'a' <= c <= 'z' || '0' <= c <= '9' || c == '+' || c == '/'
  }

  function Digit(n: nat): (c: char)
    requires n < 64
    ensures IsDigit64(c)
  {
    if n < 26 then 'A' + n as char
    else if n < 52 then 'a' + (n - 26) as char
    else if n < 62 then '0' + (n - 52) as char
    else if n == 62 then '+' else '/'
  }

  function Value(c: char): (n: nat)
    requires IsDigit64(c)
    ensures n < 64
  {
    if 'A' <= c <= 'Z' then (c - 'A') as nat
    else if 'a' <= c <= 'z' then (c - 'a') as nat + 26
    else if '0' <= c <= '9' then (c - '0') as nat + 52
    else if c == '+' then 62 else 63
  }

  lemma ValueOfDigit(n: nat)
    requires n < 64
    ensures Value(Digit(n)) == n
  {
  }

  function One(x: Byte): string {
    [Digit(x / 4), Digit(x % 4 * 16)]
  }

  function Two(x: Byte, y: Byte): string {
    [Digit(x / 4), Digit(x % 4 * 16 + y / 16), Digit(y % 16 * 4)]
  }

  function Three(x: Byte, y: Byte, z: Byte): string {
    [Digit(x / 4), Digit(x % 4 * 16 + y / 16), Digit(y % 16 * 4 + z / 64), Digit(z % 64)]
  }

  // btoa: three bytes to four digits, the last group padded with '='.
  function Btoa(b: seq<Byte>): string {
    if |b| == 0 then ""
    else if |b| == 1 then One(b[0]) + "=="
    else if |b| == 2 then Two(b[0], b[1]) + "="
    else Three(b[0], b[1], b[2]) + Btoa(b[3..])
  }

  predicate AllDigits(s: string) {
    forall i | 0 <= i < |s| :: IsDigit64(s[i])
  }

  // The digits of a base64 text without padding; spare low bits are dropped.
  function Digits(s: string): seq<Byte>
    requires AllDigits(s)
    decreases |s|
  {
    if |s| < 2 then []
    else if |s| == 2 then [Value(s[0]) * 4 + Value(s[1]) / 16]
    else if |s| == 3 then [Value(s[0]) * 4 + Value(s[1]) / 16, Value(s[1]) % 16 * 16 + Value(s[2]) / 4]
    else
      [Value(s[0]) * 4 + Value(s[1]) / 16,
       Value(s[1]) % 16 * 16 + Value(s[2]) / 4,
       Value(s[2]) % 4 * 64 + Value(s[3])]
      + Digits(s[4..])
  }

  // At most two '=' are taken off a text whose length is a multiple of four.
  function WithoutPadding(s: string): string {
    if |s| % 4 != 0 || |s| == 0 || s[|s| - 1] != '=' then s
    else if s[|s| - 2] != '=' then s[..|s| - 1]
    else s[..|s| - 2]
  }

  predicate WhiteSpace(c: char) {
    c == ' ' || c == '\t' || c == '\n' || c == '\r' || c == '\U{000C}'
  }

  function NoSpace(s: string): string {
    if s == "" then "" else (if WhiteSpace(s[0]) then "" else [s[0]]) + NoSpace(s[1..])
  }

  // atob: white space is skipped before anything else.
  function Atob(s: string): Option<seq<Byte>> {
    var body := WithoutPadding(NoSpace(s));
    if |body| % 4 == 1 || !AllDigits(body) then None
    else Some(Digits(body))
  }

  // ---------- the two functions of the page ----------

  function ToUrlChar(c: char): char {
    if c == '+' then '-' else if c == '/' then '_' else c
  }

  function FromUrlChar(c: char): char {
    if c == '-' then '+' else if c == '_' then '/' else c
  }

  function ToUrl(s: string): (r: string)
    ensures |r| == |s|
  {
    seq(|s|, i requires 0 <= i < |s| => ToUrlChar(s[i]))
  }

  function FromUrl(s: string): (r: string)
    ensures |r| == |s|
  {
    seq(|s|, i requires 0 <= i < |s| => FromUrlChar(s[i]))
  }

  function StripEquals(s: string): string {
    if s != "" && s[|s| - 1] == '=' then StripEquals(s[..|s| - 1]) else s
  }

  function Equals(n: nat): (s: string)
    ensures |s| == n
  {
    seq(n, _ => '=')
  }

  // How far a length is from the next multiple of four.
  function Missing(n: nat): nat {
    (n + 3) / 4 * 4 - n
  }

  // padEnd(Math.ceil(n / 4) * 4, '=')
  function PadToFour(s: string): string {
    s + Equals(Missing(|s|))
  }

  function BufferToUrl(b: seq<Byte>): string {
    StripEquals(ToUrl(Btoa(b)))
  }

  function UrlToBuffer(s: string): Option<seq<Byte>> {
    Atob(PadToFour(FromUrl(s)))
  }

  method BufferToBase64Url(buffer: array<Byte>) returns (s: string)
    ensures s == BufferToUrl(buffer[..])
  {
    var binary: seq<Byte> := [];
    for index := 0 to buffer.Length
      invariant binary == buffer[..index]
    {
      binary := binary + [buffer[index]];
    }
    assert binary == buffer[..];
    return StripEquals(ToUrl(Btoa(binary)));
  }

  method Base64UrlToBuffer(value: string) returns (ok: bool, buffer: array<Byte>)
    ensures ok <==> UrlToBuffer(value).Some?
    ensures ok ==> fresh(buffer) && buffer[..] == UrlToBuffer(value).value
  {
    var normalized := FromUrl(value);
    var padded := PadToFour(normalized);
    var decoded := Atob(padded);
    if decoded == None {
      return false, new Byte[0];
    }
    var binary := decoded.value;
    buffer := new Byte[|binary|](_ => 0);
    for index := 0 to |binary|
      invariant buffer[..index] == binary[..index]
    {
      buffer[index] := binary[index];
    }
    assert buffer[..] == buffer[..|binary|] && binary[..|binary|] == binary;
    return true, buffer;
  }

  // ---------- the shape of an encoding ----------

  // The digits alone.
  function Body(b: seq<Byte>): string {
    if |b| == 0 then ""
    else if |b| == 1 then One(b[0])
    else if |b| == 2 then Two(b[0], b[1])
    else Three(b[0], b[1], b[2]) + Body(b[3..])
  }

  lemma GroupsAreDigits(x: Byte, y: Byte, z: Byte)
    ensures AllDigits(One(x)) && AllDigits(Two(x, y)) && AllDigits(Three(x, y, z))
  {
  }

  function InBase64(s: string): nat
    requires AllDigits(s)
  {
    if s == "" then 0 else InBase64(s[..|s| - 1]) * 64 + Value(s[|s| - 1])
  }

  lemma Base64Unfolds(s: string)
    requires AllDigits(s) && 2 <= |s| <= 4
    ensures InBase64(s) ==
            if |s| == 2 then Value(s[0]) * 64 + Value(s[1])
            else if |s| == 3 then (Value(s[0]) * 64 + Value(s[1])) * 64 + Value(s[2])
            else ((Value(s[0]) * 64 + Value(s[1])) * 64 + Value(s[2])) * 64 + Value(s[3])
  {
    hide Value, IsDigit64;
    assert s[..1][..0] == "" && InBase64(s[..1]) == Value(s[0]);
    assert s[..2][..1] == s[..1] && InBase64(s[..2]) == Value(s[0]) * 64 + Value(s[1]);
    if |s| == 2 {
      assert s[..2] == s;
    } else {
      assert s[..3][..2] == s[..2];
      assert InBase64(s[..3]) == (Value(s[0]) * 64 + Value(s[1])) * 64 + Value(s[2]);
      if |s| == 3 {
        assert s[..3] == s;
      }
    }
  }

  // RFC 4648 section 4: the digits of a group, read in base 64 with the most
  // significant first, are the bytes read in base 256, zero bits appended.
  lemma GroupValue(x: Byte, y: Byte, z: Byte)
    ensures AllDigits(One(x)) && AllDigits(Two(x, y)) && AllDigits(Three(x, y, z))
    ensures InBase64(Three(x, y, z)) == (x * 256 + y) * 256 + z
    ensures InBase64(Two(x, y)) == (x * 256 + y) * 4
    ensures InBase64(One(x)) == x * 16
  {
    GroupsAreDigits(x, y, z);
    hide Digit, Value, IsDigit64;
    ValueOfDigit(x / 4);
    ValueOfDigit(x % 4 * 16);
    ValueOfDigit(x % 4 * 16 + y / 16);
    ValueOfDigit(y % 16 * 4);
    ValueOfDigit(y % 16 * 4 + z / 64);
    ValueOfDigit(z % 64);
    Base64Unfolds(One(x));
    Base64Unfolds(Two(x, y));
    Base64Unfolds(Three(x, y, z));
  }

  lemma {:induction false} BodyLength(b: seq<Byte>)
    ensures |Body(b)| == (|b| * 4 + 2) / 3 && |Body(b)| % 4 != 1
    decreases |b|
  {
    hide Digit;
    if |b| >= 3 {
      BodyLength(b[3..]);
      assert |Body(b)| == 4 + |Body(b[3..])|;
    }
  }

  lemma {:induction false} BodyIsDigits(b: seq<Byte>)
    ensures AllDigits(Body(b))
    decreases |b|
  {
    hide Digit, IsDigit64, One, Two, Three;
    if |b| == 1 {
      GroupsAreDigits(b[0], 0, 0);
    } else if |b| == 2 {
      GroupsAreDigits(b[0], b[1], 0);
    } else if |b| >= 3 {
      GroupsAreDigits(b[0], b[1], b[2]);
      BodyIsDigits(b[3..]);
    }
  }

  lemma Join(a: string, b: string, c: string)
    ensures a + (b + c) == (a + b) + c
  {
  }

  // Digits, then just enough '=' to fill the last group of four.
  lemma {:induction false} BtoaShape(b: seq<Byte>)
    ensures Btoa(b) == Body(b) + Equals(Missing(|Body(b)|))
    ensures |Body(b)| == (|b| * 4 + 2) / 3 && |Body(b)| % 4 != 1 && AllDigits(Body(b))
    decreases |b|
  {
    hide Digit, IsDigit64;
    BodyLength(b);
    BodyIsDigits(b);
    hide AllDigits;
    if |b| >= 3 {
      BtoaShape(b[3..]);
      assert |Body(b)| == 4 + |Body(b[3..])|;
      Join(Three(b[0], b[1], b[2]), Body(b[3..]), Equals(Missing(|Body(b[3..])|)));
    }
  }

  lemma DigitsOfOne(x: Byte)
    requires AllDigits(One(x))
    ensures Digits(One(x)) == [x]
  {
    hide Digit, Value, IsDigit64;
    ValueOfDigit(x / 4);
    ValueOfDigit(x % 4 * 16);
  }

  lemma DigitsOfTwo(x: Byte, y: Byte)
    requires AllDigits(Two(x, y))
    ensures Digits(Two(x, y)) == [x, y]
  {
    hide Digit, Value, IsDigit64;
    ValueOfDigit(x / 4);
    ValueOfDigit(x % 4 * 16 + y / 16);
    ValueOfDigit(y % 16 * 4);
  }

  // The bits cut into digits, put together again.
  lemma BitsBack(x: Byte, y: Byte, z: Byte)
    ensures x / 4 * 4 + (x % 4 * 16 + y / 16) / 16 == x
    ensures (x % 4 * 16 + y / 16) % 16 * 16 + (y % 16 * 4 + z / 64) / 4 == y
    ensures (y % 16 * 4 + z / 64) % 4 * 64 + z % 64 == z
  {
  }

  lemma DigitsOfThree(x: Byte, y: Byte, z: Byte, rest: string)
    requires AllDigits(Three(x, y, z) + rest) && AllDigits(rest)
    ensures Digits(Three(x, y, z) + rest) == [x, y, z] + Digits(rest)
  {
    hide Digit, Value, IsDigit64;
    ValueOfDigit(x / 4);
    ValueOfDigit(x % 4 * 16 + y / 16);
    ValueOfDigit(y % 16 * 4 + z / 64);
    ValueOfDigit(z % 64);
    BitsBack(x, y, z);
    assert (Three(x, y, z) + rest)[4..] == rest;
  }

  lemma NoDigits()
    ensures Digits("") == []
  {
  }

  lemma {:induction false} DigitsOfBody(b: seq<Byte>)
    requires AllDigits(Body(b))
    ensures Digits(Body(b)) == b
    decreases |b|
  {
    hide One, Two, Three, Digits, IsDigit64;
    if |b| == 0 {
      NoDigits();
    } else if |b| == 1 {
      DigitsOfOne(b[0]);
    } else if |b| == 2 {
      DigitsOfTwo(b[0], b[1]);
    } else {
      BtoaShape(b[3..]);
      DigitsOfThree(b[0], b[1], b[2], Body(b[3..]));
      DigitsOfBody(b[3..]);
      assert b == [b[0], b[1], b[2]] + b[3..];
    }
  }

  lemma PaddingComesOff(s: string)
    requires |s| % 4 != 1 && AllDigits(s)
    ensures WithoutPadding(PadToFour(s)) == s
  {
    var p := PadToFour(s);
    assert !IsDigit64('=');
    assert p[..|s|] == s;
  }

  lemma {:induction false} NoSpaceKeeps(s: string)
    requires forall i | 0 <= i < |s| :: !WhiteSpace(s[i])
    ensures NoSpace(s) == s
  {
    if s != "" {
      NoSpaceKeeps(s[1..]);
      assert [s[0]] + s[1..] == s;
    }
  }

  lemma AtobOfDigits(s: string)
    requires |s| % 4 != 1 && AllDigits(s)
    ensures Atob(PadToFour(s)) == Some(Digits(s))
  {
    NoSpaceKeeps(PadToFour(s));
    hide Digits, PadToFour, WithoutPadding, AllDigits, NoSpace;
    PaddingComesOff(s);
  }

  // atob undoes btoa.
  lemma AtobOfBtoa(b: seq<Byte>)
    ensures Atob(Btoa(b)) == Some(b)
  {
    hide Body, Btoa, Digits, AllDigits, Atob;
    BtoaShape(b);
    AtobOfDigits(Body(b));
    DigitsOfBody(b);
    assert PadToFour(Body(b)) == Btoa(b);
  }

  // ---------- the url alphabet ----------

  lemma SwapsInvert(s: string)
    requires '-' !in s && '_' !in s
    ensures FromUrl(ToUrl(s)) == s
  {
  }

  lemma SwapsInvertBack(s: string)
    requires '+' !in s && '/' !in s
    ensures ToUrl(FromUrl(s)) == s
  {
  }

  lemma {:induction false} StripAll(s: string, n: nat)
    requires s == "" || s[|s| - 1] != '='
    ensures StripEquals(s + Equals(n)) == s
  {
    if n == 0 {
      assert s + Equals(0) == s;
    } else {
      assert (s + Equals(n))[..|s| + n - 1] == s + Equals(n - 1);
      StripAll(s, n - 1);
    }
  }

  lemma BodyIsPlain(b: seq<Byte>)
    ensures '-' !in Body(b) && '_' !in Body(b) && '=' !in Body(b)
  {
    BtoaShape(b);
  }

  lemma SwapOfPadded(s: string, n: nat)
    ensures ToUrl(s + Equals(n)) == ToUrl(s) + Equals(n)
  {
  }

  // Stripping drops the padding and nothing else, on either side of the swap.
  lemma UrlIsSwappedBody(b: seq<Byte>)
    ensures BufferToUrl(b) == ToUrl(Body(b))
  {
    hide Body, Btoa;
    BtoaShape(b);
    BodyIsPlain(b);
    var n := Missing(|Body(b)|);
    SwapOfPadded(Body(b), n);
    assert Body(b) != "" ==> Body(b)[|Body(b)| - 1] in Body(b);
    StripAll(ToUrl(Body(b)), n);
  }

  // Re-padding restores exactly what stripping removed.
  lemma PaddingRestored(b: seq<Byte>)
    ensures PadToFour(FromUrl(BufferToUrl(b))) == Btoa(b)
  {
    hide Body, Btoa, ToUrl, FromUrl, IsDigit64;
    UrlIsSwappedBody(b);
    BtoaShape(b);
    BodyIsPlain(b);
    SwapsInvert(Body(b));
  }

  // Every byte sequence survives the trip through base64url.
  lemma RoundTrip(b: seq<Byte>)
    ensures UrlToBuffer(BufferToUrl(b)) == Some(b)
  {
    hide Atob, Btoa, BufferToUrl, PadToFour;
    PaddingRestored(b);
    AtobOfBtoa(b);
  }

  // The text is unpadded, of the least length, and safe in a URL.
  lemma UrlSafe(b: seq<Byte>)
    ensures |BufferToUrl(b)| == (|b| * 4 + 2) / 3
    ensures forall i | 0 <= i < |BufferToUrl(b)| :: BufferToUrl(b)[i] !in {'+', '/', '='}
  {
    UrlIsSwappedBody(b);
    BtoaShape(b);
    forall i | 0 <= i < |Body(b)|
      ensures ToUrlChar(Body(b)[i]) !in {'+', '/', '='}
    {
      assert IsDigit64(Body(b)[i]);
    }
  }

  // ---------- the texts themselves ----------

  // RFC 4648 section 5, table 2, by ASCII code: capital letters, small letters,
  // decimal digits, hyphen and underscore.
  function UrlCharacter(n: nat): char
    requires n < 64
  {
    (if n < 26 then 65 + n else if n < 52 then 71 + n else if n < 62 then n - 4 else if n == 62 then 45 else 95) as char
  }

  lemma UrlDigit(n: nat)
    requires n < 64
    ensures ToUrlChar(Digit(n)) == UrlCharacter(n) && FromUrlChar(UrlCharacter(n)) == Digit(n)
  {
  }

  function ByteAt(b: seq<Byte>, k: nat): Byte {
    if k < |b| then b[k] else 0
  }

  // Bits 6 * i to 6 * i + 5 of the bytes, zero bits following the last byte.
  function SixBits(b: seq<Byte>, i: nat): (n: nat)
    ensures n < 64
  {
    var k := i / 4 * 3;
    if i % 4 == 0 then ByteAt(b, k) / 4
    else if i % 4 == 1 then ByteAt(b, k) % 4 * 16 + ByteAt(b, k + 1) / 16
    else if i % 4 == 2 then ByteAt(b, k + 1) % 16 * 4 + ByteAt(b, k + 2) / 64
    else ByteAt(b, k + 2) % 64
  }

  lemma SixBitsShift(b: seq<Byte>, i: nat)
    requires |b| >= 3 && i >= 4
    ensures SixBits(b, i) == SixBits(b[3..], i - 4)
  {
  }

  lemma {:induction false} BodyIs(b: seq<Byte>, i: nat)
    requires i < |Body(b)|
    ensures Body(b)[i] == Digit(SixBits(b, i))
    decreases |b|
  {
    hide Digit;
    if |b| >= 3 && i >= 4 {
      BodyIs(b[3..], i - 4);
      SixBitsShift(b, i);
      hide SixBits;
    }
  }

  // Character i of an encoding is the one the alphabet has for the six bits i.
  lemma UrlText(b: seq<Byte>)
    ensures forall i | 0 <= i < |BufferToUrl(b)| :: BufferToUrl(b)[i] == UrlCharacter(SixBits(b, i))
  {
    UrlIsSwappedBody(b);
    hide Digit, ToUrlChar, UrlCharacter, SixBits, Body, BufferToUrl;
    forall i | 0 <= i < |Body(b)|
      ensures ToUrl(Body(b))[i] == UrlCharacter(SixBits(b, i))
    {
      BodyIs(b, i);
      UrlDigit(SixBits(b, i));
    }
  }

  // The vectors of RFC 4648 section 10 for "f", "fo" and "foo".
  lemma ExampleTexts()
    ensures BufferToUrl([102]) == "Zg" && BufferToUrl([102, 111]) == "Zm8" && BufferToUrl([102, 111, 111]) == "Zm9v"
  {
    UrlIsSwappedBody([102]);
    UrlIsSwappedBody([102, 111]);
    UrlIsSwappedBody([102, 111, 111]);
    hide BufferToUrl;
    assert Body([102]) == "Zg" && Body([102, 111]) == "Zm8";
    assert [102, 111, 111][3..] == [] && Body([102, 111, 111]) == "Zm9v";
  }

  // A text of plain base64, with its padding, is read as well.
  lemma PlainIsRead(b: seq<Byte>)
    ensures UrlToBuffer(Btoa(b)) == Some(b)
  {
    BtoaShape(b);
    BodyIsPlain(b);
    AtobOfBtoa(b);
    hide Body, Btoa, Atob, IsDigit64;
    var s := Btoa(b);
    assert |s| % 4 == 0 && Equals(0) == "";
    assert FromUrl(s) == s && PadToFour(s) == s;
  }

  // The characters of both alphabets.
  predicate Readable(c: char) {
    'A' <= c <= 'Z' || 'a' <= c <= 'z' || '0' <= c <= '9' || c in {'+', '/', '-', '_'}
  }

  lemma FromUrlReadable(s: string)
    ensures AllDigits(FromUrl(s)) <==> forall i | 0 <= i < |s| :: Readable(s[i])
  {
    assert forall i | 0 <= i < |s| :: IsDigit64(FromUrl(s)[i]) <==> Readable(s[i]);
  }

  // A text without padding of its own, padded.
  lemma PaddedBody(t: string)
    requires forall i | 0 <= i < |t| :: t[i] != '='
    ensures |t| % 4 != 1 ==> WithoutPadding(PadToFour(t)) == t
    ensures |t| % 4 == 1 ==> |WithoutPadding(PadToFour(t))| % 4 == 1 || !AllDigits(WithoutPadding(PadToFour(t)))
  {
    var p := PadToFour(t);
    assert p[..|t|] == t;
    if |t| % 4 == 1 {
      assert |p| == |t| + 3 && p[|t|] == '=' && WithoutPadding(p) == p[..|t| + 1];
      assert !IsDigit64(p[..|t| + 1][|t|]);
    }
  }

  // Without padding or white space a text is read exactly if it is over the
  // alphabets and no single digit is left over.
  lemma ReadExactly(s: string)
    requires forall i | 0 <= i < |s| :: s[i] != '=' && !WhiteSpace(s[i])
    ensures UrlToBuffer(s).Some? <==> |s| % 4 != 1 && forall i | 0 <= i < |s| :: Readable(s[i])
  {
    var t := FromUrl(s);
    FromUrlReadable(s);
    PaddedBody(t);
    NoSpaceKeeps(PadToFour(t));
    hide AllDigits, Readable, Digits, WhiteSpace, NoSpace, WithoutPadding, PadToFour, FromUrl;
  }

  lemma ShortDigits(x: nat, y: nat, z: nat)
    requires x < 64 && y < 64 && z < 64
    ensures AllDigits([Digit(x), Digit(y)]) && AllDigits([Digit(x), Digit(y), Digit(z)])
    ensures Digits([Digit(x), Digit(y)]) == [x * 4 + y / 16]
    ensures Digits([Digit(x), Digit(y), Digit(z)]) == [x * 4 + y / 16, y % 16 * 16 + z / 4]
  {
    ValueOfDigit(x);
    ValueOfDigit(y);
    ValueOfDigit(z);
    hide Digit, Value;
  }

  // What two or three digits left over at the end come to.
  lemma ShortGroups(x: nat, y: nat, z: nat)
    requires x < 64 && y < 64 && z < 64
    ensures UrlToBuffer([UrlCharacter(x), UrlCharacter(y)]) == Some([x * 4 + y / 16])
    ensures UrlToBuffer([UrlCharacter(x), UrlCharacter(y), UrlCharacter(z)]) == Some([x * 4 + y / 16, y % 16 * 16 + z / 4])
  {
    var two, three := [UrlCharacter(x), UrlCharacter(y)], [UrlCharacter(x), UrlCharacter(y), UrlCharacter(z)];
    UrlDigit(x);
    UrlDigit(y);
    UrlDigit(z);
    assert FromUrl(two) == [Digit(x), Digit(y)] && FromUrl(three) == [Digit(x), Digit(y), Digit(z)];
    ShortDigits(x, y, z);
    hide FromUrl, FromUrlChar, UrlCharacter, Digit, Digits, Atob, PadToFour;
    AtobOfDigits([Digit(x), Digit(y)]);
    AtobOfDigits([Digit(x), Digit(y), Digit(z)]);
  }

  // atob skips exactly the five white-space characters of HTML.
  lemma AtobSkips(c: char, s: string)
    requires c in {' ', '\t', '\n', '\r', '\U{000C}'}
    ensures Atob([c] + s) == Atob(s)
  {
    assert ([c] + s)[1..] == s && NoSpace([c] + s) == "" + NoSpace(s) == NoSpace(s);
    hide NoSpace, WithoutPadding, Digits, AllDigits;
  }

  lemma FirstStays(s: string)
    requires s != "" && !IsDigit64(s[0]) && s[0] != '='
    ensures !AllDigits(WithoutPadding(s))
  {
    assert WithoutPadding(s) != "" && WithoutPadding(s)[0] == s[0];
  }

  // A vertical tab is not among them.
  lemma AtobRefuses(s: string)
    ensures Atob(['\U{000B}'] + s) == None
  {
    var t := ['\U{000B}'] + s;
    assert t[1..] == s && NoSpace(t) == ['\U{000B}'] + NoSpace(s);
    hide NoSpace, WithoutPadding, Digits, AllDigits;
    FirstStays(NoSpace(t));
  }
}
