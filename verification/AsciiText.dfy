/** Trimming and lower-casing, for ASCII text. */
module AsciiText {

  predicate Space(c: char) {
    c == ' ' || c == '\t' || c == '\n' || c == '\r' || c == '\U{000B}' || c == '\U{000C}'
  }

  function TrimLeft(s: string): string {
    if s != "" && Space(s[0]) then TrimLeft(s[1..]) else s
  }

  function TrimRight(s: string): string {
    if s != "" && Space(s[|s| - 1]) then TrimRight(s[..|s| - 1]) else s
  }

  function Trim(s: string): string {
    TrimRight(TrimLeft(s))
  }

  predicate Blank(s: string) {
    Trim(s) == ""
  }

  function LowerChar(c: char): char {
    if 'A' <= c <= 'Z' then c - 'A' + 'a' else c
  }

  function Lower(s: string): string {
    seq(|s|, i requires 0 <= i < |s| => LowerChar(s[i]))
  }

  lemma {:induction false} TrimLeftDone(s: string)
    ensures TrimLeft(s) == "" || !Space(TrimLeft(s)[0])
  {
    if s != "" && Space(s[0]) {
      TrimLeftDone(s[1..]);
    }
  }

  lemma {:induction false} TrimRightKeeps(s: string)
    ensures TrimRight(s) <= s
    ensures TrimRight(s) == "" || !Space(TrimRight(s)[|TrimRight(s)| - 1])
  {
    if s != "" && Space(s[|s| - 1]) {
      TrimRightKeeps(s[..|s| - 1]);
    }
  }

  lemma TrimTwice(s: string)
    ensures Trim(Trim(s)) == Trim(s)
  {
    TrimLeftDone(s);
    TrimRightKeeps(TrimLeft(s));
    var t := Trim(s);
    assert t != "" ==> t[0] == TrimLeft(s)[0];
    assert TrimLeft(t) == t && TrimRight(t) == t;
  }

  lemma NotBlank(s: string)
    requires s != "" && !Space(s[0]) && !Space(s[|s| - 1])
    ensures !Blank(s)
  {
  }

  lemma TrimPadded(s: string)
    requires s != "" && !Space(s[0]) && !Space(s[|s| - 1])
    ensures Trim(s) == s && Trim(" " + s + " ") == s
  {
    var padded := " " + s + " ";
    assert padded[1..] == s + " " && TrimLeft(padded) == TrimLeft(s + " ") == s + " ";
    assert (s + " ")[..|s|] == s && TrimRight(s + " ") == TrimRight(s) == s;
    assert TrimLeft(s) == s;
  }

  const WHITE_SPACE: string := " \t\n\r\U{000B}\U{000C}"

  lemma SpaceIs(c: char)
    ensures Space(c) <==> c in WHITE_SPACE
  {
    assert WHITE_SPACE[0] == ' ' && WHITE_SPACE[1] == '\t' && WHITE_SPACE[2] == '\n' && WHITE_SPACE[3] == '\r';
    assert WHITE_SPACE[4] == '\U{000B}' && WHITE_SPACE[5] == '\U{000C}';
  }

  lemma {:induction false} TrimLeftIs(left: string, s: string)
    requires (forall c | c in left :: Space(c)) && (s == "" || !Space(s[0]))
    ensures TrimLeft(left + s) == s
  {
    if left == "" {
      assert left + s == s;
    } else {
      assert left[0] in left && (left + s)[1..] == left[1..] + s;
      TrimLeftIs(left[1..], s);
    }
  }

  lemma {:induction false} TrimRightIs(s: string, right: string)
    requires (forall c | c in right :: Space(c)) && (s == "" || !Space(s[|s| - 1]))
    ensures TrimRight(s + right) == s
  {
    if right == "" {
      assert s + right == s;
    } else {
      assert right[|right| - 1] in right && (s + right)[..|s + right| - 1] == s + right[..|right| - 1];
      TrimRightIs(s, right[..|right| - 1]);
    }
  }

  // Trimming takes exactly the white space off both ends.
  lemma TrimIs(left: string, s: string, right: string)
    requires forall c | c in left + right :: c in WHITE_SPACE
    requires s == "" || (s[0] !in WHITE_SPACE && s[|s| - 1] !in WHITE_SPACE)
    ensures Trim(left + s + right) == s
  {
    forall c: char
      ensures Space(c) <==> c in WHITE_SPACE
    {
      SpaceIs(c);
    }
    assert forall c | c in left :: c in left + right;
    assert forall c | c in right :: c in left + right;
    if s == "" {
      assert left + s + right == (left + right) + "";
      TrimLeftIs(left + right, "");
    } else {
      assert left + s + right == left + (s + right) && (s + right)[0] == s[0];
      TrimLeftIs(left, s + right);
      TrimRightIs(s, right);
    }
  }

  // Lower-casing moves the 26 capital letters of ASCII up by 32 and keeps the rest.
  lemma LowerIs(s: string)
    ensures |Lower(s)| == |s|
    ensures forall i | 0 <= i < |s| :: Lower(s)[i] as int == s[i] as int + if 65 <= s[i] as int <= 90 then 32 else 0
  {
  }
}
