/** strconv: integers and their decimal texts. */
module Decimals {
  import opened Wrappers

  const MIN_INT64: int := -0x8000_0000_0000_0000
  const MAX_INT64: int := 0x7fff_ffff_ffff_ffff

  predicate IsInt64(n: int) {
    MIN_INT64 <= n <= MAX_INT64
  }

  predicate Digits(s: string) {
    s != "" && forall i | 0 <= i < |s| :: '0' <= s[i] <= '9'
  }

  function DigitValue(c: char): nat
    requires '0' <= c <= '9'
  {
    (c - '0') as int
  }

  function Decimal(s: string): nat
    requires forall i | 0 <= i < |s| :: '0' <= s[i] <= '9'
  {
    if s == "" then 0 else Decimal(s[..|s| - 1]) * 10 + DigitValue(s[|s| - 1])
  }

  function Atoi(s: string): Option<int> {
    var negative := s != "" && s[0] == '-';
    var digits := if s != "" && (s[0] == '-' || s[0] == '+') then s[1..] else s;
    if !Digits(digits) then None
    else
      var m: int := Decimal(digits);
      var n := if negative then -m else m;
      if IsInt64(n) then Some(n) else None
  }

  function DigitChar(n: nat): (c: char)
    requires n < 10
    ensures '0' <= c <= '9' && DigitValue(c) == n
  {
    '0' + n as char
  }

  function NatText(n: nat): (s: string)
    ensures Digits(s)
  {
    if n < 10 then [DigitChar(n)] else NatText(n / 10) + [DigitChar(n % 10)]
  }

  function Itoa(n: int): string {
    if n < 0 then "-" + NatText(-n) else NatText(n)
  }

  lemma {:induction false} DecimalOfText(n: nat)
    ensures Decimal(NatText(n)) == n
  {
    hide DigitChar, DigitValue;
    if n < 10 {
      assert [DigitChar(n)][..0] == "";
      assert DigitValue(DigitChar(n)) == n;
    } else {
      DecimalOfText(n / 10);
      var s := NatText(n);
      assert s[..|s| - 1] == NatText(n / 10);
      assert DigitValue(DigitChar(n % 10)) == n % 10;
    }
  }

  // Atoi reads every 64-bit integer back from its own text.
  lemma AtoiOfItoa(n: int)
    requires IsInt64(n)
    ensures Atoi(Itoa(n)) == Some(n)
  {
    DecimalOfText(if n < 0 then -n else n);
    assert n < 0 ==> Itoa(n)[1..] == NatText(-n);
  }

  const DIGITS := "0123456789"

  lemma DigitIs(d: nat)
    requires d < 10
    ensures DigitChar(d) == DIGITS[d]
  {
  }

  // A decimal text is that of the number without its last digit, and that digit.
  lemma ItoaIs(n: nat, d: nat)
    requires d < 10
    ensures Itoa(n * 10 + d) == (if n == 0 then "" else Itoa(n)) + [DIGITS[d]]
    ensures n > 0 ==> Itoa(-(n as int)) == "-" + Itoa(n)
  {
    DigitIs(d);
    assert (n * 10 + d) / 10 == n && (n * 10 + d) % 10 == d;
  }

  predicate Zeros(s: string) {
    forall i | 0 <= i < |s| :: s[i] == '0'
  }

  lemma {:induction false} ZerosAreNothing(zeros: string)
    requires Zeros(zeros)
    ensures Decimal(zeros) == 0
  {
    if zeros != "" {
      ZerosAreNothing(zeros[..|zeros| - 1]);
    }
  }

  lemma {:induction false} LeadingZeros(zeros: string, s: string)
    requires Zeros(zeros) && Digits(s)
    ensures Digits(zeros + s) && Decimal(zeros + s) == Decimal(s)
  {
    if s[..|s| - 1] == "" {
      ZerosAreNothing(zeros);
    } else {
      LeadingZeros(zeros, s[..|s| - 1]);
    }
    assert (zeros + s)[..|zeros + s| - 1] == zeros + s[..|s| - 1];
    assert s[..|s| - 1] == "" ==> zeros + s[..|s| - 1] == zeros;
  }

  lemma AtoiOfDigits(s: string)
    requires Digits(s)
    ensures Atoi(s) == if Decimal(s) <= 0x7fff_ffff_ffff_ffff then Some(Decimal(s)) else None
    ensures Atoi("+" + s) == Atoi(s)
    ensures Atoi("-" + s) == if Decimal(s) <= 0x8000_0000_0000_0000 then Some(-(Decimal(s) as int)) else None
  {
    assert s[0] != '-' && s[0] != '+';
    hide Decimal, Digits;
    assert ("+" + s)[1..] == s && ("-" + s)[1..] == s;
  }

  lemma ZerosInFront(n: nat, zeros: string)
    requires Zeros(zeros)
    ensures Digits(zeros + Itoa(n)) && Decimal(zeros + Itoa(n)) == n
  {
    DecimalOfText(n);
    LeadingZeros(zeros, NatText(n));
    hide Digits, Decimal, NatText, Zeros;
  }

  // Besides a number's own text Atoi takes a plus sign and zeros in front.
  lemma AtoiTakes(n: nat, zeros: string)
    requires Zeros(zeros)
    ensures
      var s := zeros + Itoa(n);
      && Atoi(s) == Atoi("+" + s) == (if n <= 0x7fff_ffff_ffff_ffff then Some(n) else None)
      && Atoi("-" + s) == if n <= 0x8000_0000_0000_0000 then Some(-(n as int)) else None
  {
    ZerosInFront(n, zeros);
    AtoiOfDigits(zeros + Itoa(n));
    hide Atoi, Digits, Decimal, Itoa, Zeros;
  }

  // It turns away a text without a digit, or with any other character.
  lemma AtoiRefuses(s: string, i: nat)
    ensures s in {"", "+", "-"} ==> Atoi(s) == None
    ensures i < |s| && !('0' <= s[i] <= '9') && (i > 0 || s[0] !in {'+', '-'}) ==> Atoi(s) == None
  {
    hide Decimal;
    assert 0 < i < |s| ==> s[1..][i - 1] == s[i];
  }
}
