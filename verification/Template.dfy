/**
 * Placeholder substitution in pod templates (applyTemplateValues): the code
 * runs ReplaceAll for every key, in whatever order the map yields them. On the
 * templates described by Clean below that is one simultaneous substitution.
 */
module Template {
  import opened AsciiText
  import opened Decimals
  import opened Wrappers

  // ---------- strings.ReplaceAll ----------

  function ReplaceAll(s: string, pattern: string, value: string): string
    requires pattern != []
    decreases |s|
  {
    if |s| < |pattern| then s
    else if s[..|pattern|] == pattern then value + ReplaceAll(s[|pattern|..], pattern, value)
    else [s[0]] + ReplaceAll(s[1..], pattern, value)
  }

  predicate OccursAt(s: string, pattern: string, i: nat) {
    i + |pattern| <= |s| && s[i..i + |pattern|] == pattern
  }

  // One differing position rules an occurrence out.
  lemma DiffersAt(s: string, pattern: string, i: nat, j: nat)
    requires j < |pattern| && (i + j >= |s| || s[i + j] != pattern[j])
    ensures !OccursAt(s, pattern, i)
  {
  }

  lemma OccursShift(s: string, pattern: string, i: nat)
    requires s != []
    ensures OccursAt(s[1..], pattern, i) <==> OccursAt(s, pattern, i + 1)
  {
  }

  lemma NotHere(s: string, pattern: string, value: string)
    requires pattern != [] && |s| >= |pattern| && !OccursAt(s, pattern, 0)
    ensures ReplaceAll(s, pattern, value) == [s[0]] + ReplaceAll(s[1..], pattern, value)
  {
  }

  lemma Regroup<T>(a: seq<T>, b: seq<T>, c: seq<T>)
    ensures a + (b + c) == (a + b) + c
  {
  }

  // A stretch in which no occurrence starts is copied.
  lemma {:induction false} CopyStretch(s: string, n: nat, pattern: string, value: string)
    requires pattern != [] && n <= |s|
    requires forall i | 0 <= i < n :: !OccursAt(s, pattern, i)
    ensures ReplaceAll(s, pattern, value) == s[..n] + ReplaceAll(s[n..], pattern, value)
    decreases n
  {
    if n == 0 {
      assert s[0..] == s;
    } else if |s| < |pattern| {
      assert s[..n] + s[n..] == s;
    } else {
      forall i | 0 <= i < n - 1
        ensures !OccursAt(s[1..], pattern, i)
      {
        OccursShift(s, pattern, i);
      }
      CopyStretch(s[1..], n - 1, pattern, value);
      NotHere(s, pattern, value);
      assert s[1..][n - 1..] == s[n..];
      assert s[..n] == [s[0]] + s[1..][..n - 1];
      Regroup([s[0]], s[1..][..n - 1], ReplaceAll(s[n..], pattern, value));
    }
  }

  // ---------- placeholders ----------

  // ${k} and {{k}}
  datatype Style = Dollar | Braces

  function Pattern(style: Style, key: string): (p: string)
    ensures |p| > 0
  {
    match style
    case Dollar => "${" + key + "}"
    case Braces => "{{" + key + "}}"
  }

  predicate KeyChar(c: char) {
    'a' <= c <= 'z' || 'A' <= c <= 'Z' || '0' <= c <= '9' || c == '_' || c == '-' || c == '.'
  }

  predicate ValidKey(key: string) {
    key != "" && forall i | 0 <= i < |key| :: KeyChar(key[i])
  }

  // A template text: plain characters and placeholders, for any key.
  datatype Token = Lit(c: char) | Hole(style: Style, key: string)

  type Text = seq<Token>

  function Show(t: Token): string {
    match t
    case Lit(c) => [c]
    case Hole(style, key) => Pattern(style, key)
  }

  function Render(text: Text): string {
    if text == [] then "" else Show(text[0]) + Render(text[1..])
  }

  // Every '{' of the text belongs to a well-formed placeholder.
  predicate Clean(text: Text) {
    forall i | 0 <= i < |text| ::
      match text[i]
      case Lit(c) => c != '{'
      case Hole(_, key) => ValidKey(key)
  }

  predicate BraceFree(value: string) {
    '{' !in value
  }

  function Lits(value: string): (t: Text)
    ensures |t| == |value|
  {
    seq(|value|, i requires 0 <= i < |value| => Lit(value[i]))
  }

  // ---------- the reference: one simultaneous substitution ----------

  function SubstituteToken(t: Token, values: map<string, string>): Text {
    if t.Hole? && t.key in values then Lits(values[t.key]) else [t]
  }

  function Substitute(text: Text, values: map<string, string>): Text {
    if text == [] then [] else SubstituteToken(text[0], values) + Substitute(text[1..], values)
  }

  function FillToken(t: Token, style: Style, key: string, value: string): Text {
    if t == Hole(style, key) then Lits(value) else [t]
  }

  // One ReplaceAll, seen on tokens.
  function FillOne(text: Text, style: Style, key: string, value: string): Text {
    if text == [] then []
    else FillToken(text[0], style, key, value) + FillOne(text[1..], style, key, value)
  }

  lemma FillSingle(t: Token, style: Style, key: string, value: string)
    ensures FillOne([t], style, key, value) == FillToken(t, style, key, value)
  {
  }

  // ---------- no occurrence but the placeholder itself ----------

  lemma RenderCons(t: Token, rest: Text)
    ensures Render([t] + rest) == Show(t) + Render(rest)
  {
  }

  lemma {:induction false} RenderAppend(a: Text, b: Text)
    ensures Render(a + b) == Render(a) + Render(b)
  {
    hide Show;
    if a == [] {
      assert a + b == b;
    } else {
      RenderAppend(a[1..], b);
      assert (a + b)[1..] == a[1..] + b;
      assert (a + b)[0] == a[0];
      Regroup(Show(a[0]), Render(a[1..]), Render(b));
    }
  }

  lemma {:induction false} RenderLits(value: string)
    ensures Render(Lits(value)) == value
  {
    if value != [] {
      assert Lits(value)[1..] == Lits(value[1..]);
      RenderLits(value[1..]);
      assert [value[0]] + value[1..] == value;
    }
  }

  // What a clean text can start with: never "{k" for a key character k.
  lemma CleanStart(text: Text)
    requires Clean(text)
    ensures
      var s := Render(text);
      |s| >= 2 && s[0] == '{' ==> s[1] == '{'
  {
  }

  // A placeholder occurs at a literal of a clean text only by accident of
  // adjacency, and adjacency cannot produce one.
  lemma NoneAtLiteral(c: char, rest: Text, style: Style, key: string)
    requires Clean([Lit(c)] + rest) && ValidKey(key)
    ensures !OccursAt([c] + Render(rest), Pattern(style, key), 0)
  {
    assert ([Lit(c)] + rest)[0] == Lit(c);
    assert Clean(rest) by {
      forall i | 0 <= i < |rest|
        ensures match rest[i] case Lit(d) => d != '{' case Hole(_, k) => ValidKey(k)
      {
        assert ([Lit(c)] + rest)[i + 1] == rest[i];
      }
    }
    var s, p := [c] + Render(rest), Pattern(style, key);
    assert KeyChar(key[0]);
    if c != p[0] {
      DiffersAt(s, p, 0, 0);
    } else {
      assert p[..3] == ['$', '{', key[0]];
      CleanStart(rest);
      if Render(rest) == "" || Render(rest)[0] != '{' {
        DiffersAt(s, p, 0, 1);
      } else {
        DiffersAt(s, p, 0, 2);
      }
    }
  }

  // Two different keys, each closed by a brace, differ at some position.
  lemma {:induction false} KeysDiffer(k1: string, k2: string) returns (j: nat)
    requires k1 != k2
    requires forall i | 0 <= i < |k1| :: KeyChar(k1[i])
    requires forall i | 0 <= i < |k2| :: KeyChar(k2[i])
    ensures j <= |k1| && j <= |k2| && (k1 + "}")[j] != (k2 + "}")[j]
  {
    if k1 == "" || k2 == "" || k1[0] != k2[0] {
      j := 0;
    } else {
      assert k1 == [k1[0]] + k1[1..] && k2 == [k2[0]] + k2[1..];
      var i := KeysDiffer(k1[1..], k2[1..]);
      j := i + 1;
      assert (k1 + "}")[j] == (k1[1..] + "}")[i] && (k2 + "}")[j] == (k2[1..] + "}")[i];
    }
  }

  // Inside a placeholder no placeholder starts, except the same one at its front.
  lemma NoneInsideHole(hole: Token, tail: string, style: Style, key: string, i: nat)
    requires hole.Hole? && ValidKey(hole.key) && ValidKey(key)
    requires i < |Show(hole)| && (i == 0 ==> hole != Hole(style, key))
    ensures !OccursAt(Show(hole) + tail, Pattern(style, key), i)
  {
    var h, p := Show(hole), Pattern(style, key);
    var s := h + tail;
    assert KeyChar(key[0]) && KeyChar(hole.key[0]);
    if i == 0 && hole.style == style {
      var j := KeysDiffer(hole.key, key);
      assert s[2 + j] == (hole.key + "}")[j] && p[2 + j] == (key + "}")[j];
      DiffersAt(s, p, 0, 2 + j);
    } else if i == 1 && style.Braces? {
      assert s[2] == hole.key[0];
      DiffersAt(s, p, 1, 1);
    } else {
      assert i >= 2 ==> KeyChar(h[i]) || h[i] == '}' by {
        if 2 <= i < 2 + |hole.key| {
          assert h[i] == hole.key[i - 2];
        }
      }
      DiffersAt(s, p, i, 0);
    }
  }

  // ---------- ReplaceAll on a clean text ----------

  lemma CleanTail(text: Text)
    requires Clean(text) && text != []
    ensures Clean(text[1..])
  {
  }

  lemma {:induction false} ReplaceIsFill(text: Text, style: Style, key: string, value: string)
    requires Clean(text) && ValidKey(key)
    ensures ReplaceAll(Render(text), Pattern(style, key), value) == Render(FillOne(text, style, key, value))
    decreases |text|
  {
    var p := Pattern(style, key);
    if text == [] {
      assert Render(text) == "";
    } else {
      var t, rest := text[0], text[1..];
      var s := Render(text);
      CleanTail(text);
      ReplaceIsFill(rest, style, key, value);
      RenderAppend(FillToken(t, style, key, value), FillOne(rest, style, key, value));
      assert s[|Show(t)|..] == Render(rest) && s[..|Show(t)|] == Show(t);
      if t == Hole(style, key) {
        RenderLits(value);
      } else {
        forall i | 0 <= i < |Show(t)|
          ensures !OccursAt(s, p, i)
        {
          if t.Lit? {
            assert [t] + rest == text;
            NoneAtLiteral(t.c, rest, style, key);
          } else {
            NoneInsideHole(t, Render(rest), style, key, i);
          }
        }
        CopyStretch(s, |Show(t)|, p, value);
        RenderCons(t, []);
        assert Render([t]) == Show(t);
      }
    }
  }

  // ---------- the loop over the map ----------

  // One turn of the loop body of the replace closure.
  function ReplaceKey(s: string, key: string, value: string): string {
    ReplaceAll(ReplaceAll(s, Pattern(Dollar, key), value), Pattern(Braces, key), value)
  }

  function ReplaceKeys(s: string, keys: seq<string>, values: map<string, string>): string
    requires forall k | k in keys :: k in values
  {
    if keys == [] then s
    else ReplaceKey(ReplaceKeys(s, keys[..|keys| - 1], values), keys[|keys| - 1], values[keys[|keys| - 1]])
  }

  function FillKey(text: Text, key: string, value: string): Text {
    FillOne(FillOne(text, Dollar, key, value), Braces, key, value)
  }

  lemma {:induction false} FillOneAppend(a: Text, b: Text, style: Style, key: string, value: string)
    ensures FillOne(a + b, style, key, value) == FillOne(a, style, key, value) + FillOne(b, style, key, value)
  {
    hide FillToken;
    if a == [] {
      assert a + b == b;
    } else {
      FillOneAppend(a[1..], b, style, key, value);
      assert (a + b)[1..] == a[1..] + b && (a + b)[0] == a[0];
      Regroup(FillToken(a[0], style, key, value), FillOne(a[1..], style, key, value), FillOne(b, style, key, value));
    }
  }

  lemma {:induction false} FillOneLits(v: string, style: Style, key: string, value: string)
    ensures FillOne(Lits(v), style, key, value) == Lits(v)
  {
    if v != [] {
      assert Lits(v)[1..] == Lits(v[1..]);
      FillOneLits(v[1..], style, key, value);
      assert [Lits(v)[0]] + Lits(v)[1..] == Lits(v);
    }
  }

  lemma {:induction false} FillOneClean(text: Text, style: Style, key: string, value: string)
    requires Clean(text) && BraceFree(value)
    ensures Clean(FillOne(text, style, key, value))
  {
    if text != [] {
      CleanTail(text);
      FillOneClean(text[1..], style, key, value);
    }
  }

  lemma TokenOneMore(t: Token, values: map<string, string>, key: string, value: string)
    requires key !in values
    ensures FillKey(SubstituteToken(t, values), key, value) == SubstituteToken(t, values[key := value])
  {
    if t.Hole? && t.key in values {
      FillOneLits(values[t.key], Dollar, key, value);
      FillOneLits(values[t.key], Braces, key, value);
    } else {
      FillSingle(t, Dollar, key, value);
      if t == Hole(Dollar, key) {
        FillOneLits(value, Braces, key, value);
      } else {
        FillSingle(t, Braces, key, value);
        assert t.Hole? ==> t.style == Dollar || t.style == Braces;
      }
    }
  }

  // Filling one more key after a simultaneous substitution is substituting for
  // the larger set of keys: filled-in values are never looked at again.
  lemma {:induction false} SubstituteOneMore(text: Text, values: map<string, string>, key: string, value: string)
    requires key !in values
    ensures FillKey(Substitute(text, values), key, value) == Substitute(text, values[key := value])
  {
    if text != [] {
      var t, rest := text[0], text[1..];
      SubstituteOneMore(rest, values, key, value);
      var here, there := SubstituteToken(t, values), Substitute(rest, values);
      FillOneAppend(here, there, Dollar, key, value);
      FillOneAppend(FillOne(here, Dollar, key, value), FillOne(there, Dollar, key, value), Braces, key, value);
      TokenOneMore(t, values, key, value);
    }
  }

  predicate DistinctKeys(keys: seq<string>) {
    forall i, j | 0 <= i < j < |keys| :: keys[i] != keys[j]
  }

  predicate GoodValues(values: map<string, string>) {
    forall k | k in values :: ValidKey(k) && BraceFree(values[k])
  }

  lemma ReplaceKeyIsFill(text: Text, key: string, value: string)
    requires Clean(text) && ValidKey(key) && BraceFree(value)
    ensures ReplaceKey(Render(text), key, value) == Render(FillKey(text, key, value))
    ensures Clean(FillKey(text, key, value))
  {
    hide Clean, Render, ReplaceAll;
    ReplaceIsFill(text, Dollar, key, value);
    FillOneClean(text, Dollar, key, value);
    ReplaceIsFill(FillOne(text, Dollar, key, value), Braces, key, value);
    FillOneClean(FillOne(text, Dollar, key, value), Braces, key, value);
  }

  function Picked(keys: seq<string>, values: map<string, string>): map<string, string> {
    map k | k in keys && k in values :: values[k]
  }

  lemma {:induction false} SubstituteNothing(text: Text)
    ensures Substitute(text, map[]) == text
  {
    if text != [] {
      SubstituteNothing(text[1..]);
      assert [text[0]] + text[1..] == text;
    }
  }

  lemma {:induction false} KeysInOrder(text: Text, keys: seq<string>, values: map<string, string>)
    requires Clean(text) && GoodValues(values) && DistinctKeys(keys)
    requires forall k | k in keys :: k in values
    ensures
      var done := Picked(keys, values);
      && ReplaceKeys(Render(text), keys, values) == Render(Substitute(text, done))
      && Clean(Substitute(text, done))
  {
    hide Clean, Render, ReplaceKey, FillKey, Substitute;
    if keys == [] {
      SubstituteNothing(text);
      assert Picked(keys, values) == map[];
    } else {
      var init, key := keys[..|keys| - 1], keys[|keys| - 1];
      KeysInOrder(text, init, values);
      var before := Picked(init, values);
      var done := Picked(keys, values);
      assert done == before[key := values[key]];
      ReplaceKeyIsFill(Substitute(text, before), key, values[key]);
      SubstituteOneMore(text, before, key, values[key]);
    }
  }

  // Any order of all the keys is the simultaneous substitution.
  lemma AnyOrderIsSimultaneous(text: Text, keys: seq<string>, values: map<string, string>)
    requires Clean(text) && GoodValues(values) && DistinctKeys(keys)
    requires forall k :: k in keys <==> k in values
    ensures ReplaceKeys(Render(text), keys, values) == Render(Substitute(text, values))
  {
    KeysInOrder(text, keys, values);
    assert Picked(keys, values) == values;
  }

  // Placeholders without a value stay verbatim, all others are gone.
  lemma {:induction false} OnlyUnvaluedRemain(text: Text, values: map<string, string>, style: Style, key: string)
    ensures Hole(style, key) in Substitute(text, values) <==> Hole(style, key) in text && key !in values
  {
    if text != [] {
      OnlyUnvaluedRemain(text[1..], values, style, key);
      assert text == [text[0]] + text[1..];
    }
  }

  // ---------- the code ----------

  datatype Volume = Volume(hostPath: string, containerPath: string, readOnly: bool)

  datatype Port = Port(container: int, host: int)

  // The parts of a pod template that values touch. The ports are the caller's
  // own: unlike the other collections they are not copied first.
  datatype PodTemplate = PodTemplate(
    image: string,
    command: seq<string>,
    volumes: seq<Volume>,
    ports: array<Port>,
    environment: map<string, string>,
    labels: map<string, string>
  )

  datatype Outcome = Applied(template: PodTemplate) | InvalidValue(key: string) | InvalidPort(key: string)

  const MAX_VALUE_LENGTH := 512

  ghost predicate InSomeOrder(order: seq<string>, values: map<string, string>) {
    DistinctKeys(order) && forall k :: k in order <==> k in values
  }

  // What the replace closure may return: the keys in some order, each once.
  ghost predicate Replaced(input: string, values: map<string, string>, out: string) {
    exists order | InSomeOrder(order, values) :: out == ReplaceKeys(input, order, values)
  }

  lemma SomeOrder(keys: set<string>) returns (order: seq<string>)
    ensures DistinctKeys(order) && forall k :: k in order <==> k in keys
  {
    if keys == {} {
      order := [];
    } else {
      var k :| k in keys;
      order := SomeOrder(keys - {k});
      order := order + [k];
    }
  }

  // On a clean text the order does not show: every valued placeholder is
  // filled at once.
  lemma ReplacedIsSimultaneous(text: Text, values: map<string, string>, out: string)
    requires Clean(text) && GoodValues(values)
    ensures Replaced(Render(text), values, out) <==> out == Render(Substitute(text, values))
  {
    if Replaced(Render(text), values, out) {
      var order :| InSomeOrder(order, values) && out == ReplaceKeys(Render(text), order, values);
      AnyOrderIsSimultaneous(text, order, values);
    } else {
      var order := SomeOrder(values.Keys);
      AnyOrderIsSimultaneous(text, order, values);
      assert InSomeOrder(order, values);
    }
  }

  // The replace closure: ranges over the map in an arbitrary order.
  method Replace(input: string, values: map<string, string>) returns (out: string)
    ensures Replaced(input, values, out)
  {
    out := input;
    ghost var order := [];
    var remaining := values.Keys;
    while remaining != {}
      invariant DistinctKeys(order) && remaining <= values.Keys
      invariant forall k :: k in order <==> k in values && k !in remaining
      invariant out == ReplaceKeys(input, order, values)
      decreases |remaining|
    {
      var key :| key in remaining;
      remaining := remaining - {key};
      ghost var before := order;
      order := order + [key];
      assert order[..|order| - 1] == before;
      out := ReplaceAll(out, Pattern(Dollar, key), values[key]);
      out := ReplaceAll(out, Pattern(Braces, key), values[key]);
    }
    assert InSomeOrder(order, values);
  }

  method ReplaceEach(input: map<string, string>, values: map<string, string>) returns (out: map<string, string>)
    ensures out.Keys == input.Keys
    ensures forall k | k in input :: Replaced(input[k], values, out[k])
  {
    hide Replaced;
    out := map[];
    var remaining := input.Keys;
    while remaining != {}
      invariant remaining <= input.Keys && out.Keys == input.Keys - remaining
      invariant forall k | k in out :: Replaced(input[k], values, out[k])
      decreases |remaining|
    {
      var k :| k in remaining;
      remaining := remaining - {k};
      var v := Replace(input[k], values);
      out := out[k := v];
    }
  }

  predicate AcceptedValue(key: string, value: string) {
    ValidKey(key) && |value| <= MAX_VALUE_LENGTH
  }

  // ---------- port overrides ----------

  datatype PortChoice = NoOverride | Override(host: int) | BadPort(key: string)

  function OwnKey(container: int): string {
    "host_port_" + Itoa(container)
  }

  function PortKeys(container: int, single: bool): seq<string> {
    [OwnKey(container), "port_" + Itoa(container), "HOST_PORT_" + Itoa(container), "PORT_" + Itoa(container)]
    + if single then ["host_port", "port", "HOST_PORT", "PORT"] else []
  }

  function PortOf(key: string, raw: string): PortChoice {
    match Atoi(Trim(raw))
    case Some(n) => if 0 <= n <= 65535 then Override(n) else BadPort(key)
    case None => BadPort(key)
  }

  // The first of the keys that has a value decides.
  function Choose(keys: seq<string>, values: map<string, string>): PortChoice {
    if keys == [] then NoOverride
    else if keys[0] in values then PortOf(keys[0], values[keys[0]])
    else Choose(keys[1..], values)
  }

  function PortFor(p: Port, single: bool, values: map<string, string>): PortChoice {
    Choose(PortKeys(p.container, single), values)
  }

  function Overridden(p: Port, choice: PortChoice): Port {
    if choice.Override? then p.(host := choice.host) else p
  }

  method TemplatePortValue(values: map<string, string>, container: int, single: bool) returns (choice: PortChoice)
    ensures choice == Choose(PortKeys(container, single), values)
  {
    hide Itoa, PortOf;
    var keys := PortKeys(container, single);
    assert keys[0..] == keys;
    for i := 0 to |keys|
      invariant Choose(keys, values) == Choose(keys[i..], values)
    {
      assert keys[i..][1..] == keys[i + 1..];
      var key := keys[i];
      if key in values {
        return PortOf(key, values[key]);
      }
    }
    return NoOverride;
  }

  lemma PortOfIsChoice(key: string, raw: string)
    ensures PortOf(key, raw) != NoOverride
  {
  }

  // A port value is taken if and only if some key of the port has one, and
  // then it is that of the first such key.
  lemma {:induction false} FirstKeyDecides(keys: seq<string>, values: map<string, string>)
    ensures Choose(keys, values) == NoOverride <==> forall k | k in keys :: k !in values
    ensures Choose(keys, values) != NoOverride ==>
              exists i :: 0 <= i < |keys| && keys[i] in values && (forall j | 0 <= j < i :: keys[j] !in values)
                          && Choose(keys, values) == PortOf(keys[i], values[keys[i]])
  {
    hide PortOf;
    if keys != [] {
      FirstKeyDecides(keys[1..], values);
      PortOfIsChoice(keys[0], if keys[0] in values then values[keys[0]] else "");
      assert keys == [keys[0]] + keys[1..];
      if keys[0] !in values && Choose(keys, values) != NoOverride {
        var i :| 0 <= i < |keys[1..]| && keys[1..][i] in values && (forall j | 0 <= j < i :: keys[1..][j] !in values)
                 && Choose(keys[1..], values) == PortOf(keys[1..][i], values[keys[1..][i]]);
        assert forall j | 0 < j < i + 1 :: keys[j] == keys[1..][j - 1];
        assert keys[i + 1] == keys[1..][i];
      }
    }
  }

  lemma TrimItoa(n: int)
    ensures Trim(Itoa(n)) == Itoa(n) && Trim(" " + Itoa(n) + " ") == Itoa(n)
  {
    var s := Itoa(n);
    assert s != "" && !Space(s[0]) && !Space(s[|s| - 1]);
    TrimPadded(s);
  }

  lemma OwnKeyIsOwn(a: int, b: int)
    requires IsInt64(a) && IsInt64(b)
    ensures OwnKey(a) == OwnKey(b) <==> a == b
  {
    AtoiOfItoa(a);
    AtoiOfItoa(b);
    hide Itoa, Atoi;
    assert OwnKey(a)[10..] == Itoa(a) && OwnKey(b)[10..] == Itoa(b);
  }

  lemma OwnKeyComesFirst(container: int, other: int, single: bool)
    ensures var keys := PortKeys(other, single); keys[0] == OwnKey(other) && OwnKey(container) !in keys[1..]
  {
    hide Itoa;
    var key := OwnKey(container);
    assert key[0] == 'h' && |key| >= 10;
    var rest := PortKeys(other, single)[1..];
    forall i | 0 <= i < |rest|
      ensures rest[i] != key
    {
      assert rest[i][0] != 'h' || |rest[i]| == 9;
    }
  }

  // Giving a port its own value, as a number in range, overrides that port and
  // no port with another container number.
  lemma OwnKeyOnly(container: int, host: int, p: Port, single: bool)
    requires IsInt64(container) && IsInt64(p.container) && 0 <= host <= 65535
    ensures PortFor(p, single, map[OwnKey(container) := Itoa(host)]) ==
            if p.container == container then Override(host) else NoOverride
  {
    AtoiOfItoa(host);
    TrimItoa(host);
    OwnKeyIsOwn(p.container, container);
    OwnKeyComesFirst(container, p.container, single);
    hide Atoi, Itoa, Trim, PortKeys, OwnKey;
    FirstKeyDecides(PortKeys(p.container, single)[1..], map[OwnKey(container) := Itoa(host)]);
  }

  // Every port up to n has its override, the others are as they were.
  twostate predicate PortsOverridden(ports: array<Port>, n: nat, values: map<string, string>)
    requires n <= ports.Length
    reads ports
  {
    forall i | 0 <= i < ports.Length ::
      ports[i] == if i < n then Overridden(old(ports[i]), PortFor(old(ports[i]), ports.Length == 1, values)) else old(ports[i])
  }

  // A value is taken as a port exactly if it is the text of a number from 0 to
  // 65535, white space around it aside.
  lemma PortRange(key: string, raw: string, n: int)
    requires IsInt64(n)
    ensures PortOf(key, Itoa(n)) == PortOf(key, " " + Itoa(n) + " ") == if 0 <= n <= 65535 then Override(n) else BadPort(key)
    ensures Atoi(Trim(raw)) == None ==> PortOf(key, raw) == BadPort(key)
  {
    AtoiOfItoa(n);
    TrimItoa(n);
    hide Atoi, Itoa, Trim;
  }

  // The eight names a port's value may go by, the earlier one counting first;
  // the last four only for a template's single port.
  function PortNames(container: int): seq<string> {
    ["host_port_" + Itoa(container), "port_" + Itoa(container), "HOST_PORT_" + Itoa(container), "PORT_" + Itoa(container),
     "host_port", "port", "HOST_PORT", "PORT"]
  }

  lemma PortNamesDecide(p: Port, single: bool, values: map<string, string>, k: nat)
    requires k < 8 && forall j | 0 <= j < k :: PortNames(p.container)[j] !in values
    requires PortNames(p.container)[k] in values
    ensures PortFor(p, single, values) ==
            if k < 4 || single then PortOf(PortNames(p.container)[k], values[PortNames(p.container)[k]]) else NoOverride
  {
    hide Itoa, PortOf;
    var keys, names := PortKeys(p.container, single), PortNames(p.container);
    assert forall j | 0 <= j < |keys| :: keys[j] == names[j];
    FirstKeyDecides(keys, values);
    if k < |keys| {
      assert keys[k] in keys;
    } else {
      assert forall x | x in keys :: x !in values;
    }
  }

  lemma NoPortName(p: Port, single: bool, values: map<string, string>)
    requires forall k | k in PortNames(p.container) :: k !in values
    ensures PortFor(p, single, values) == NoOverride
  {
    hide Itoa, PortOf;
    var keys, names := PortKeys(p.container, single), PortNames(p.container);
    forall k | k in keys
      ensures k in names
    {
      var j :| 0 <= j < |keys| && keys[j] == k;
      assert names[j] == k;
    }
    FirstKeyDecides(keys, values);
  }

  // Letters, digits, hyphen, dot and underscore, by their ASCII codes.
  predicate KeyCode(n: int) {
    97 <= n <= 122 || 65 <= n <= 90 || 48 <= n <= 57 || n in {45, 46, 95}
  }

  lemma AcceptedIs(key: string, value: string)
    ensures AcceptedValue(key, value) <==>
            key != "" && (forall i | 0 <= i < |key| :: KeyCode(key[i] as int)) && |value| <= 512
  {
    forall c: char
      ensures KeyChar(c) <==> KeyCode(c as int)
    {
    }
  }

  // The first port of the template that cannot be parsed, if any.
  predicate FirstBadPort(ports: seq<Port>, values: map<string, string>, n: nat, key: string) {
    && n < |ports| && PortFor(ports[n], |ports| == 1, values) == BadPort(key)
    && forall i | 0 <= i < n :: !PortFor(ports[i], |ports| == 1, values).BadPort?
  }

  method OverridePorts(ports: array<Port>, values: map<string, string>) returns (bad: Option<string>, ghost overridden: nat)
    modifies ports
    ensures overridden <= ports.Length && PortsOverridden(ports, overridden, values)
    ensures bad.Some? ==> FirstBadPort(old(ports[..]), values, overridden, bad.value)
    ensures bad.None? ==> overridden == ports.Length
    ensures forall i | 0 <= i < ports.Length :: ports[i].container == old(ports[i]).container
    ensures forall i | 0 <= i < ports.Length ::
              var choice := PortFor(old(ports[i]), ports.Length == 1, values);
              ports[i].host == if i < overridden && choice.Override? then choice.host else old(ports[i]).host
    ensures forall i | 0 <= i < overridden :: !PortFor(old(ports[i]), ports.Length == 1, values).BadPort?
  {
    hide Choose, PortKeys;
    for i := 0 to ports.Length
      invariant PortsOverridden(ports, i, values)
      invariant forall j | 0 <= j < i :: !PortFor(old(ports[j]), ports.Length == 1, values).BadPort?
    {
      assert ports[i] == old(ports[i]);
      var choice := TemplatePortValue(values, ports[i].container, ports.Length == 1);
      if choice.BadPort? {
        return Some(choice.key), i;
      }
      if choice.Override? {
        ports[i] := ports[i].(host := choice.host);
      }
    }
    return None, ports.Length;
  }

  method ReplaceCommand(input: seq<string>, values: map<string, string>) returns (command: seq<string>)
    ensures |command| == |input| && forall i | 0 <= i < |input| :: Replaced(input[i], values, command[i])
  {
    hide Replaced;
    command := input;
    for i := 0 to |command|
      invariant |command| == |input|
      invariant forall j | i <= j < |command| :: command[j] == input[j]
      invariant forall j | 0 <= j < i :: Replaced(input[j], values, command[j])
    {
      var text := Replace(command[i], values);
      command := command[i := text];
    }
  }

  method ReplaceVolumes(input: seq<Volume>, values: map<string, string>) returns (volumes: seq<Volume>)
    ensures |volumes| == |input|
    ensures forall i | 0 <= i < |input| ::
              && Replaced(input[i].hostPath, values, volumes[i].hostPath)
              && Replaced(input[i].containerPath, values, volumes[i].containerPath)
              && volumes[i].readOnly == input[i].readOnly
  {
    hide Replaced;
    volumes := input;
    for i := 0 to |volumes|
      invariant |volumes| == |input|
      invariant forall j | i <= j < |volumes| :: volumes[j] == input[j]
      invariant forall j | 0 <= j < i ::
                  && Replaced(input[j].hostPath, values, volumes[j].hostPath)
                  && Replaced(input[j].containerPath, values, volumes[j].containerPath)
                  && volumes[j].readOnly == input[j].readOnly
    {
      var hostPath := Replace(volumes[i].hostPath, values);
      var containerPath := Replace(volumes[i].containerPath, values);
      volumes := volumes[i := volumes[i].(hostPath := hostPath, containerPath := containerPath)];
    }
  }

  /**
   * Fails on an invalid value before touching anything, and on an invalid port
   * after overriding the ports in front of it, in the caller's own array.
   */
  method ApplyTemplateValues(template: PodTemplate, values: map<string, string>)
      returns (outcome: Outcome, ghost overridden: nat)
    modifies template.ports
    ensures overridden <= template.ports.Length && PortsOverridden(template.ports, overridden, values)
    ensures outcome.InvalidValue? <==> exists k | k in values :: !AcceptedValue(k, values[k])
    ensures outcome.InvalidValue? ==> outcome.key in values && !AcceptedValue(outcome.key, values[outcome.key])
    ensures outcome.InvalidPort? ==> FirstBadPort(old(template.ports[..]), values, overridden, outcome.key)
    ensures outcome.InvalidValue? || values == map[] ==> overridden == 0
    ensures values == map[] ==> outcome == Applied(template)
    ensures outcome.Applied? && values != map[] ==>
              && overridden == template.ports.Length
              && forall i | 0 <= i < template.ports.Length ::
                   !PortFor(old(template.ports[i]), template.ports.Length == 1, values).BadPort?
    ensures outcome.Applied? && values != map[] ==>
              var t := outcome.template;
              && t.ports == template.ports
              && Replaced(template.image, values, t.image)
              && |t.command| == |template.command| && |t.volumes| == |template.volumes|
              && (forall i | 0 <= i < |t.command| :: Replaced(template.command[i], values, t.command[i]))
              && (forall i | 0 <= i < |t.volumes| ::
                    && Replaced(template.volumes[i].hostPath, values, t.volumes[i].hostPath)
                    && Replaced(template.volumes[i].containerPath, values, t.volumes[i].containerPath)
                    && t.volumes[i].readOnly == template.volumes[i].readOnly)
              && t.environment.Keys == template.environment.Keys && t.labels.Keys == template.labels.Keys
              && (forall k | k in t.environment :: Replaced(template.environment[k], values, t.environment[k]))
              && (forall k | k in t.labels :: Replaced(template.labels[k], values, t.labels[k]))
  {
    hide Replaced, AcceptedValue, PortFor, Overridden;
    overridden := 0;
    if values == map[] {
      return Applied(template), 0;
    }
    var unchecked := values.Keys;
    while unchecked != {}
      invariant unchecked <= values.Keys
      invariant forall k | k in values && k !in unchecked :: AcceptedValue(k, values[k])
      decreases |unchecked|
    {
      var key :| key in unchecked;
      if !AcceptedValue(key, values[key]) {
        return InvalidValue(key), 0;
      }
      unchecked := unchecked - {key};
    }
    var image := Replace(template.image, values);
    var command := ReplaceCommand(template.command, values);
    var volumes := ReplaceVolumes(template.volumes, values);
    var bad: Option<string>;
    bad, overridden := OverridePorts(template.ports, values);
    if bad.Some? {
      return InvalidPort(bad.value), overridden;
    }
    var environment := ReplaceEach(template.environment, values);
    var labels := ReplaceEach(template.labels, values);
    return Applied(PodTemplate(image, command, volumes, template.ports, environment, labels)), overridden;
  }

  // ---------- why the braces must be well formed ----------

  lemma AbsentChar(s: string, pattern: string, value: string, j: nat)
    requires j < |pattern| && pattern[j] !in s
    ensures ReplaceAll(s, pattern, value) == s
  {
  }

  lemma CopyThenReplace(before: string, pattern: string, after: string, value: string)
    requires pattern != [] && |after| < |pattern| && pattern[0] !in before
    ensures ReplaceAll(before + pattern + after, pattern, value) == before + value + after
  {
    var s := before + pattern + after;
    forall i | 0 <= i < |before|
      ensures !OccursAt(s, pattern, i)
    {
      assert s[i] == before[i] && before[i] in before;
      DiffersAt(s, pattern, i, 0);
    }
    CopyStretch(s, |before|, pattern, value);
    assert s[..|before|] == before;
    var rest := s[|before|..];
    assert rest == pattern + after;
    assert rest[..|pattern|] == pattern && rest[|pattern|..] == after;
    Regroup(before, value, after);
  }

  lemma TwoKeys(s: string, k1: string, k2: string, values: map<string, string>)
    requires k1 in values && k2 in values
    ensures ReplaceKeys(s, [k1, k2], values) == ReplaceKey(ReplaceKey(s, k1, values[k1]), k2, values[k2])
  {
    hide ReplaceKey;
    assert [k1, k2][..1] == [k1] && [k1][..0] == [];
    assert ReplaceKeys(s, [k1], values) == ReplaceKey(ReplaceKeys(s, [], values), k1, values[k1]);
  }

  const CHAIN := map["a" := "b", "b" := "x"]

  lemma ChainIsGood()
    ensures GoodValues(CHAIN)
  {
  }

  lemma FirstA()
    ensures ReplaceKey("{{${a}}}", "a", "b") == "{{b}}"
  {
    hide ReplaceAll;
    assert Pattern(Dollar, "a") == "${a}" && Pattern(Braces, "a") == "{{a}}";
    assert "{{" + "${a}" + "}}" == "{{${a}}}" && "{{" + "b" + "}}" == "{{b}}";
    CopyThenReplace("{{", "${a}", "}}", "b");
    AbsentChar("{{b}}", "{{a}}", "b", 2);
  }

  lemma ThenB()
    ensures ReplaceKey("{{b}}", "b", "x") == "x"
  {
  }

  lemma BFirst()
    ensures ReplaceKey("{{${a}}}", "b", "x") == "{{${a}}}"
  {
    hide ReplaceAll;
    assert Pattern(Dollar, "b") == "${b}" && Pattern(Braces, "b") == "{{b}}";
    AbsentChar("{{${a}}}", "${b}", "x", 2);
    AbsentChar("{{${a}}}", "{{b}}", "x", 2);
  }

  // A stray "{{" in front of a placeholder makes the result depend on the map
  // order: {{${a}}} with a = "b" and b = "x" gives "x" or "{{b}}".
  lemma StrayBraceDependsOnOrder()
    ensures GoodValues(CHAIN)
    ensures ReplaceKeys("{{${a}}}", ["a", "b"], CHAIN) == "x"
    ensures ReplaceKeys("{{${a}}}", ["b", "a"], CHAIN) == "{{b}}"
  {
    hide ReplaceKey, ReplaceAll, GoodValues, ReplaceKeys;
    ChainIsGood();
    FirstA();
    ThenB();
    BFirst();
    TwoKeys("{{${a}}}", "a", "b", CHAIN);
    TwoKeys("{{${a}}}", "b", "a", CHAIN);
  }

  const BRACED := map["a" := "{{b}}", "b" := "x"]

  lemma ValueFirst()
    ensures ReplaceKey("${a}", "a", "{{b}}") == "{{b}}"
  {
    hide ReplaceAll;
    assert Pattern(Dollar, "a") == "${a}" && Pattern(Braces, "a") == "{{a}}";
    CopyThenReplace("", "${a}", "", "{{b}}");
    assert "" + "${a}" + "" == "${a}" && "" + "{{b}}" + "" == "{{b}}";
    AbsentChar("{{b}}", "{{a}}", "{{b}}", 2);
  }

  lemma ValueLast()
    ensures ReplaceKey("${a}", "b", "x") == "${a}"
  {
    hide ReplaceAll;
    assert Pattern(Dollar, "b") == "${b}" && Pattern(Braces, "b") == "{{b}}";
    AbsentChar("${a}", "${b}", "x", 2);
    AbsentChar("${a}", "{{b}}", "x", 2);
  }

  // So does a value that brings a brace: ${a} with a = "{{b}}" and b = "x".
  lemma BraceInValueDependsOnOrder()
    ensures ReplaceKeys("${a}", ["a", "b"], BRACED) == "x"
    ensures ReplaceKeys("${a}", ["b", "a"], BRACED) == "{{b}}"
  {
    hide ReplaceKey, ReplaceAll, ReplaceKeys;
    ThenB();
    ValueFirst();
    ValueLast();
    TwoKeys("${a}", "a", "b", BRACED);
    TwoKeys("${a}", "b", "a", BRACED);
  }

  lemma ReplaceFront(pattern: string, after: string, value: string)
    requires pattern != []
    ensures ReplaceAll(pattern + after, pattern, value) == value + ReplaceAll(after, pattern, value)
  {
    var s := pattern + after;
    assert s[..|pattern|] == pattern && s[|pattern|..] == after;
  }

  lemma OneKeyReads()
    ensures ReplaceKeys("${a}${a}a}}", ["a"], map["a" := "{"]) == "{"
  {
    hide ReplaceAll;
    var s := "${a}${a}a}}";
    assert Pattern(Dollar, "a") == "${a}" && Pattern(Braces, "a") == "{{a}}";
    assert s == "${a}" + "${a}a}}" && s[4..] == "${a}a}}";
    ReplaceFront("${a}", "${a}a}}", "{");
    CopyThenReplace("", "${a}", "a}}", "{");
    assert "" + "${a}" + "a}}" == "${a}a}}" && "" + "{" + "a}}" == "{a}}";
    assert "{" + "{a}}" == "{{a}}";
    CopyThenReplace("", "{{a}}", "", "{");
    assert "" + "{{a}}" + "" == "{{a}}" && "" + "{" + "" == "{";
    assert ["a"][..0] == [];
    assert ReplaceKeys(s, [], map["a" := "{"]) == s;
  }

  lemma {:induction false} SubstituteLits(v: string, values: map<string, string>)
    ensures Substitute(Lits(v), values) == Lits(v)
  {
    if v != [] {
      assert Lits(v)[1..] == Lits(v[1..]);
      SubstituteLits(v[1..], values);
      assert [Lits(v)[0]] + Lits(v)[1..] == Lits(v);
    }
  }

  lemma OneKeyFills()
    ensures Render(Substitute([Hole(Dollar, "a"), Hole(Dollar, "a")] + Lits("a}}"), map["a" := "{"])) == "{{a}}"
  {
    var values := map["a" := "{"];
    var text := [Hole(Dollar, "a"), Hole(Dollar, "a")] + Lits("a}}");
    assert text[1..] == [Hole(Dollar, "a")] + Lits("a}}") && text[1..][1..] == Lits("a}}");
    SubstituteLits("a}}", values);
    assert Substitute(text, values) == Lits("{") + (Lits("{") + Lits("a}}"));
    assert Lits("{") + (Lits("{") + Lits("a}}")) == Lits("{{a}}");
    RenderLits("{{a}}");
  }

  // And one key is enough for a wrong result: ${a}${a}a}} with a = "{" gives
  // "{", where filling both placeholders at once gives "{{a}}".
  lemma BraceInValueIsReadAgain()
    ensures ReplaceKeys("${a}${a}a}}", ["a"], map["a" := "{"]) == "{"
    ensures Render(Substitute([Hole(Dollar, "a"), Hole(Dollar, "a")] + Lits("a}}"), map["a" := "{"])) == "{{a}}"
  {
    OneKeyReads();
    OneKeyFills();
  }

  // ---------- exactly which characters are safe ----------

  // Well-formed placeholders between literals from one set of characters.
  predicate TextOver(text: Text, literals: set<char>) {
    forall i | 0 <= i < |text| ::
      match text[i]
      case Lit(c) => c in literals
      case Hole(_, key) => ValidKey(key)
  }

  predicate ValuesOver(values: map<string, string>, characters: set<char>) {
    forall k | k in values :: ValidKey(k) && forall i | 0 <= i < |values[k]| :: values[k][i] in characters
  }

  ghost predicate AlwaysSimultaneous(literals: set<char>, characters: set<char>) {
    forall text, values, order | TextOver(text, literals) && ValuesOver(values, characters) && InSomeOrder(order, values) ::
      ReplaceKeys(Render(text), order, values) == Render(Substitute(text, values))
  }

  ghost predicate NeverOrdered(literals: set<char>, characters: set<char>) {
    forall text, values, a, b |
        TextOver(text, literals) && ValuesOver(values, characters) && InSomeOrder(a, values) && InSomeOrder(b, values) ::
      ReplaceKeys(Render(text), a, values) == ReplaceKeys(Render(text), b, values)
  }

  lemma BraceFreeIsSimultaneous(literals: set<char>, characters: set<char>)
    requires '{' !in literals && '{' !in characters
    ensures AlwaysSimultaneous(literals, characters) && NeverOrdered(literals, characters)
  {
    forall text, values, order | TextOver(text, literals) && ValuesOver(values, characters) && InSomeOrder(order, values)
      ensures ReplaceKeys(Render(text), order, values) == Render(Substitute(text, values))
    {
      AnyOrderIsSimultaneous(text, order, values);
    }
    forall text, values, a, b |
        TextOver(text, literals) && ValuesOver(values, characters) && InSomeOrder(a, values) && InSomeOrder(b, values)
      ensures ReplaceKeys(Render(text), a, values) == ReplaceKeys(Render(text), b, values)
    {
      AnyOrderIsSimultaneous(text, a, values);
      AnyOrderIsSimultaneous(text, b, values);
    }
  }

  lemma PlainHole()
    ensures Render([Hole(Dollar, "a")]) == "${a}"
  {
    RenderCons(Hole(Dollar, "a"), []);
    assert [Hole(Dollar, "a")] + [] == [Hole(Dollar, "a")];
    assert "${" + "a" + "}" == "${a}" && "${a}" + Render([]) == "${a}";
  }

  lemma StrayText()
    ensures Render([Lit('{'), Lit('{'), Hole(Dollar, "a"), Lit('}'), Lit('}')]) == "{{${a}}}"
  {
    var end := [Lit('}'), Lit('}')];
    assert end == Lits("}}");
    RenderLits("}}");
    RenderCons(Hole(Dollar, "a"), end);
    RenderCons(Lit('{'), [Hole(Dollar, "a")] + end);
    RenderCons(Lit('{'), [Lit('{')] + ([Hole(Dollar, "a")] + end));
    assert [Lit('{')] + ([Lit('{')] + ([Hole(Dollar, "a")] + end)) == [Lit('{'), Lit('{'), Hole(Dollar, "a"), Lit('}'), Lit('}')];
  }

  lemma BracesDisagree(literals: set<char>, characters: set<char>) returns (text: Text, values: map<string, string>)
    requires '}' in literals && {'b', 'x', '}'} <= characters && ('{' in literals || '{' in characters)
    ensures TextOver(text, literals) && ValuesOver(values, characters)
    ensures InSomeOrder(["a", "b"], values) && InSomeOrder(["b", "a"], values)
    ensures ReplaceKeys(Render(text), ["a", "b"], values) != ReplaceKeys(Render(text), ["b", "a"], values)
  {
    hide ReplaceKeys;
    if '{' in literals {
      text, values := [Lit('{'), Lit('{'), Hole(Dollar, "a"), Lit('}'), Lit('}')], CHAIN;
      StrayBraceDependsOnOrder();
      StrayText();
    } else {
      text, values := [Hole(Dollar, "a")], BRACED;
      BraceInValueDependsOnOrder();
      PlainHole();
    }
  }

  // Over any literals and value characters that contain those of the examples
  // above besides the brace: every text is substituted at once whatever the
  // order, and equally no result depends on the order, if and only if neither
  // the literals nor the values may contain an opening brace.
  lemma BraceConditionIsExact(literals: set<char>, characters: set<char>)
    requires '}' in literals && {'b', 'x', '}'} <= characters
    ensures '{' !in literals && '{' !in characters <==> AlwaysSimultaneous(literals, characters)
    ensures '{' !in literals && '{' !in characters <==> NeverOrdered(literals, characters)
  {
    if '{' !in literals && '{' !in characters {
      BraceFreeIsSimultaneous(literals, characters);
    } else {
      hide ReplaceKeys, InSomeOrder, Render, TextOver, ValuesOver;
      var text, values := BracesDisagree(literals, characters);
      assert ReplaceKeys(Render(text), ["a", "b"], values) != ReplaceKeys(Render(text), ["b", "a"], values);
    }
  }
}
