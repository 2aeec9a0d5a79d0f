/**
 * Several goroutines writing to one WebSocket connection. Each WriteText,
 * WriteClose or writeControl call takes writeMu, hands one frame to the
 * transport, and releases writeMu; the transport takes the frame in pieces
 * and may give up at any point. The theorems range over every interleaving.
 */
module WriterProtocol {
  import opened FrameCodec
  import opened Connection

  type WriterId = nat

  datatype Sent = Sent(writer: WriterId, message: Message)

  // Who is inside writeMu, and how much of its frame the transport has taken.
  datatype Holder =
    | Free
    | Hold(writer: WriterId, message: Message, masking: Masking, taken: nat)

  datatype State = State(
    wire: Bytes,
    holder: Holder,
    pending: map<WriterId, seq<Message>>,  // calls each writer has yet to make
    log: seq<Sent>,                        // completed frames, in wire order
    failed: bool,                          // some transport write gave up
    torn: bool,                            // some transport write gave up part-way
    clean: Bytes,                          // the wire up to the first tear
    cleanLog: seq<Sent>                    // the log up to the first tear
  )

  datatype Action =
    | Acquire(writer: WriterId, masking: Masking)
    | Transfer(n: nat)
    | Release
    | GiveUp

  function FrameOf(h: Holder): Bytes
    requires h.Hold? && Writable(h.message.payload)
  {
    EncodeFrame(h.message.opcode, h.message.payload, h.masking)
  }

  predicate HolderOk(h: Holder) {
    h.Hold? ==>
      && Writable(h.message.payload) && h.message.opcode < 16
      && h.taken <= |FrameOf(h)|
  }

  predicate Enabled(s: State, a: Action) {
    HolderOk(s.holder) &&
    match a
    case Acquire(w, _) => s.holder.Free? && w in s.pending && s.pending[w] != []
    case Transfer(n) => s.holder.Hold? && 0 < n <= |FrameOf(s.holder)| - s.holder.taken
    case Release => s.holder.Hold? && s.holder.taken == |FrameOf(s.holder)|
    case GiveUp => s.holder.Hold? && s.holder.taken < |FrameOf(s.holder)|
  }

  function Next(s: State, a: Action): State
    requires Enabled(s, a)
  {
    match a
    case Acquire(w, masking) =>
      // An oversized payload is refused before anything reaches the transport.
      var message := s.pending[w][0];
      s.(pending := s.pending[w := s.pending[w][1..]],
         holder := if Writable(message.payload) then Hold(w, message, masking, 0) else Free)
    case Transfer(n) =>
      s.(wire := s.wire + FrameOf(s.holder)[s.holder.taken..s.holder.taken + n],
         holder := s.holder.(taken := s.holder.taken + n))
    case Release =>
      var log := s.log + [Sent(s.holder.writer, s.holder.message)];
      s.(holder := Free, log := log,
         clean := if s.torn then s.clean else s.wire,
         cleanLog := if s.torn then s.cleanLog else log)
    case GiveUp =>
      s.(holder := Free, failed := true, torn := s.torn || s.holder.taken > 0)
  }

  type Programs = map<WriterId, seq<Message>>

  predicate ValidPrograms(programs: Programs) {
    forall w | w in programs :: forall i | 0 <= i < |programs[w]| :: programs[w][i].opcode < 16
  }

  function Init(programs: Programs): State {
    State([], Free, programs, [], false, false, [], [])
  }

  predicate Runs(s: State, actions: seq<Action>)
    decreases |actions|
  {
    actions == [] || (Enabled(s, actions[0]) && Runs(Next(s, actions[0]), actions[1..]))
  }

  function After(s: State, actions: seq<Action>): State
    requires Runs(s, actions)
    decreases |actions|
  {
    if actions == [] then s else After(Next(s, actions[0]), actions[1..])
  }

  lemma RunsCons(s: State, a: Action, rest: seq<Action>)
    requires Enabled(s, a) && Runs(Next(s, a), rest)
    ensures Runs(s, [a] + rest) && After(s, [a] + rest) == After(Next(s, a), rest)
  {
  }

  lemma RunOfThree(s: seq<State>, a: seq<Action>)
    requires |s| == 4 && |a| == 3
    requires forall i | 0 <= i < 3 :: Enabled(s[i], a[i]) && s[i + 1] == Next(s[i], a[i])
    ensures Runs(s[0], a) && After(s[0], a) == s[3]
  {
    hide Enabled, Next;
    RunsCons(s[2], a[2], []);
    RunsCons(s[1], a[1], [a[2]]);
    RunsCons(s[0], a[0], [a[1], a[2]]);
    assert a == [a[0], a[1], a[2]];
  }

  lemma {:induction false} RunsAppend(s: State, a: seq<Action>, b: seq<Action>)
    requires Runs(s, a) && Runs(After(s, a), b)
    ensures Runs(s, a + b) && After(s, a + b) == After(After(s, a), b)
    decreases |a|
  {
    hide Enabled, Next;
    if a == [] {
      assert a + b == b;
    } else {
      RunsAppend(Next(s, a[0]), a[1..], b);
      assert (a + b)[1..] == a[1..] + b;
    }
  }

  // ---------- what the invariant speaks about ----------

  function Messages(log: seq<Sent>): seq<Message> {
    seq(|log|, i requires 0 <= i < |log| => log[i].message)
  }

  // The part of the log one writer contributed, in order.
  function By(log: seq<Sent>, w: WriterId): seq<Message> {
    if log == [] then []
    else
      var rest := By(log[..|log| - 1], w);
      if log[|log| - 1].writer == w then rest + [log[|log| - 1].message] else rest
  }

  function Fitting(calls: seq<Message>): seq<Message> {
    if calls == [] then []
    else (if Writable(calls[0].payload) then [calls[0]] else []) + Fitting(calls[1..])
  }

  function Held(s: State, w: WriterId): seq<Message> {
    if s.holder.Hold? && s.holder.writer == w then [s.holder.message] else []
  }

  function InFlight(s: State): Bytes
    requires HolderOk(s.holder)
  {
    if s.holder.Hold? then FrameOf(s.holder)[..s.holder.taken] else []
  }

  ghost predicate WireInv(s: State) {
    && HolderOk(s.holder)
    && ValidPrograms(s.pending)
    && ParseAll(s.clean) == Stream(Messages(s.cleanLog), [])
    && s.clean <= s.wire
    && (s.torn ==> s.failed)
    && (!s.torn ==> s.cleanLog == s.log && s.wire == s.clean + InFlight(s))
  }

  // Calls are neither lost, invented, nor reordered within a writer.
  ghost predicate OrderInv(s: State, programs: Programs) {
    && s.pending.Keys == programs.Keys
    && (forall i | 0 <= i < |s.log| :: s.log[i].writer in programs)
    && (s.holder.Hold? ==> s.holder.writer in programs)
    && (!s.failed ==> forall w | w in programs ::
         By(s.log, w) + Held(s, w) + Fitting(s.pending[w]) == Fitting(programs[w]))
  }

  lemma ReleaseKeepsWire(s: State)
    requires WireInv(s) && Enabled(s, Release)
    ensures WireInv(Next(s, Release))
  {
    hide ParseFrame, ParseAll, EncodeFrame;
    var t := Next(s, Release);
    if !s.torn {
      var h := s.holder;
      assert FrameOf(h)[..|FrameOf(h)|] == FrameOf(h);
      AppendFrame(s.clean, h.message.opcode, h.message.payload, h.masking);
      assert Messages(t.log) == Messages(s.log) + [h.message];
      assert t.wire == t.clean + [];
    }
  }

  lemma WireInvStep(s: State, a: Action)
    requires WireInv(s) && Enabled(s, a)
    ensures WireInv(Next(s, a))
  {
    hide ParseAll, EncodeFrame, Messages;
    match a {
      case Acquire(_, _) =>
        assert s.clean + [] == s.clean;
        assert !s.torn ==> InFlight(Next(s, a)) == [];
      case Transfer(n) =>
        var f, k := FrameOf(s.holder), s.holder.taken;
        assert f[..k] + f[k..k + n] == f[..k + n];
        assert !s.torn ==> Next(s, a).wire == s.clean + f[..k + n];
      case Release =>
        ReleaseKeepsWire(s);
      case GiveUp =>
        assert s.clean + [] == s.clean;
    }
  }

  lemma BySnoc(log: seq<Sent>, e: Sent, w: WriterId)
    ensures By(log + [e], w) == By(log, w) + (if e.writer == w then [e.message] else [])
  {
  }

  lemma AcquireMovesHead(s: State, a: Action, w: WriterId)
    requires Enabled(s, a) && a.Acquire? && w in s.pending
    ensures Held(Next(s, a), w) + Fitting(Next(s, a).pending[w]) == Held(s, w) + Fitting(s.pending[w])
  {
  }

  lemma Regroup3(a: seq<Message>, b: seq<Message>, c: seq<Message>)
    ensures a + b + c == a + (b + c)
  {
  }

  lemma OrderStepFor(s: State, a: Action, w: WriterId)
    requires Enabled(s, a) && !Next(s, a).failed && w in s.pending
    ensures
      var t := Next(s, a);
      By(t.log, w) + Held(t, w) + Fitting(t.pending[w]) == By(s.log, w) + Held(s, w) + Fitting(s.pending[w])
  {
    hide EncodeFrame, By, Fitting;
    var t := Next(s, a);
    match a {
      case Acquire(_, _) =>
        hide Held;
        AcquireMovesHead(s, a, w);
        Regroup3(By(s.log, w), Held(s, w), Fitting(s.pending[w]));
        Regroup3(By(s.log, w), Held(t, w), Fitting(t.pending[w]));
      case Release =>
        BySnoc(s.log, Sent(s.holder.writer, s.holder.message), w);
        assert By(t.log, w) + Held(t, w) == By(s.log, w) + Held(s, w);
      case Transfer(_) =>
      case GiveUp =>
    }
  }

  lemma OrderInvStep(s: State, a: Action, programs: Programs)
    requires OrderInv(s, programs) && Enabled(s, a)
    ensures OrderInv(Next(s, a), programs)
  {
    hide EncodeFrame, By, Fitting, Held;
    if !Next(s, a).failed {
      forall w | w in programs
        ensures By(Next(s, a).log, w) + Held(Next(s, a), w) + Fitting(Next(s, a).pending[w]) == Fitting(programs[w])
      {
        OrderStepFor(s, a, w);
      }
    }
  }

  lemma {:induction false} RunKeepsInvariants(s: State, actions: seq<Action>, programs: Programs)
    requires Runs(s, actions) && WireInv(s) && OrderInv(s, programs)
    ensures WireInv(After(s, actions)) && OrderInv(After(s, actions), programs)
    decreases |actions|
  {
    if actions != [] {
      WireInvStep(s, actions[0]);
      OrderInvStep(s, actions[0], programs);
      RunKeepsInvariants(Next(s, actions[0]), actions[1..], programs);
    }
  }

  lemma InitInvariants(programs: Programs)
    requires ValidPrograms(programs)
    ensures WireInv(Init(programs)) && OrderInv(Init(programs), programs)
  {
  }

  lemma Reached(programs: Programs, actions: seq<Action>)
    requires ValidPrograms(programs) && Runs(Init(programs), actions)
    ensures WireInv(After(Init(programs), actions)) && OrderInv(After(Init(programs), actions), programs)
  {
    InitInvariants(programs);
    RunKeepsInvariants(Init(programs), actions, programs);
  }

  // ---------- theorems over every interleaving ----------

  lemma NothingToParse()
    ensures ParseAll([]) == Stream([], [])
  {
  }

  // The wire parses to the completed frames in order, followed by the frame
  // being written if all of it has been taken; what is left over is a strict
  // initial part of that one frame.
  ghost predicate WholeFrames(s: State) {
    HolderOk(s.holder) &&
      if s.holder.Hold? && s.holder.taken == |FrameOf(s.holder)|
      then ParseAll(s.wire) == Stream(Messages(s.log) + [s.holder.message], [])
      else ParseAll(s.wire) == Stream(Messages(s.log), InFlight(s))
  }

  lemma UntornIsWhole(s: State)
    requires WireInv(s) && !s.torn
    ensures WholeFrames(s)
  {
    hide ParseFrame, EncodeFrame;
    WholeAppend(s.clean, InFlight(s));
    if s.holder.Hold? {
      var h := s.holder;
      var f := FrameOf(h);
      if h.taken == |f| {
        assert f[..h.taken] == f;
        OneFrame(h.message.opcode, h.message.payload, h.masking);
      } else {
        CutFrameFails(h.message.opcode, h.message.payload, h.masking, h.taken);
        assert Messages(s.log) + [] == Messages(s.log);
      }
    } else {
      NothingToParse();
      assert Messages(s.log) + [] == Messages(s.log);
    }
  }

  // In every interleaving the wire is whole frames as long as nothing tore it.
  lemma WireIsWholeFrames(programs: Programs, actions: seq<Action>)
    requires ValidPrograms(programs) && Runs(Init(programs), actions)
    ensures !After(Init(programs), actions).torn ==> WholeFrames(After(Init(programs), actions))
  {
    hide WholeFrames, WireInv;
    Reached(programs, actions);
    if !After(Init(programs), actions).torn {
      UntornIsWhole(After(Init(programs), actions));
    }
  }

  // A writer that gives up leaves the wire whole exactly if the transport had
  // taken none of its frame.
  lemma GivingUpExactly(s: State)
    requires WireInv(s) && !s.torn && Enabled(s, GiveUp)
    ensures WholeFrames(Next(s, GiveUp)) <==> s.holder.taken == 0
  {
    hide ParseFrame, ParseAll, EncodeFrame;
    var h := s.holder;
    AppendCutFrame(s.clean, h.message.opcode, h.message.payload, h.masking, h.taken);
  }

  // Somewhere in the run a writer gives up with part of its frame taken.
  predicate Tears(s: State, actions: seq<Action>)
    requires Runs(s, actions)
    decreases |actions|
  {
    actions != [] &&
    ((actions[0] == GiveUp && s.holder.taken > 0) || Tears(Next(s, actions[0]), actions[1..]))
  }

  ghost predicate WholeThroughout(s: State, actions: seq<Action>)
    requires Runs(s, actions)
    decreases |actions|
  {
    WholeFrames(s) && (actions == [] || WholeThroughout(Next(s, actions[0]), actions[1..]))
  }

  lemma {:induction false} TornStays(s: State, actions: seq<Action>)
    requires Runs(s, actions) && s.torn
    ensures After(s, actions).torn
    decreases |actions|
  {
    hide Enabled;
    if actions != [] {
      TornStays(Next(s, actions[0]), actions[1..]);
    }
  }

  lemma {:induction false} WholeUnlessTorn(s: State, actions: seq<Action>)
    requires Runs(s, actions) && WireInv(s) && !s.torn
    ensures WholeThroughout(s, actions) <==> !Tears(s, actions)
    ensures After(s, actions).torn <==> Tears(s, actions)
    decreases |actions|
  {
    hide WholeFrames, WireInv;
    UntornIsWhole(s);
    if actions != [] {
      var a, t, rest := actions[0], Next(s, actions[0]), actions[1..];
      WireInvStep(s, a);
      if a == GiveUp && s.holder.taken > 0 {
        GivingUpExactly(s);
        TornStays(t, rest);
      } else {
        WholeUnlessTorn(t, rest);
      }
    }
  }

  // Every state of a run has whole frames on the wire if and only if no writer
  // of the run gives up with part of its frame taken.
  lemma WholeThroughoutExactly(programs: Programs, actions: seq<Action>)
    requires ValidPrograms(programs) && Runs(Init(programs), actions)
    ensures WholeThroughout(Init(programs), actions) <==> !Tears(Init(programs), actions)
  {
    InitInvariants(programs);
    WholeUnlessTorn(Init(programs), actions);
  }

  // With no transport error at all: the peer's ReadText calls return the texts
  // of the completed frames up to the first close, and each writer's frames are
  // its own calls in its own order, oversized ones (which it saw refused) left out.
  lemma PeerReadsMerge(programs: Programs, actions: seq<Action>)
    requires ValidPrograms(programs) && Runs(Init(programs), actions)
    requires var s := After(Init(programs), actions); !s.failed && s.holder.Free?
    ensures
      var s := After(Init(programs), actions);
      && ReadTexts(s.wire) == TextsBeforeClose(Messages(s.log))
      && s.pending.Keys == programs.Keys
      && (forall i | 0 <= i < |s.log| :: s.log[i].writer in programs)
      && (forall w | w in programs :: By(s.log, w) + Fitting(s.pending[w]) == Fitting(programs[w]))
  {
    hide ParseFrame, ParseAll, EncodeFrame, By, Fitting;
    var s := After(Init(programs), actions);
    Reached(programs, actions);
    WireIsWholeFrames(programs, actions);
    ReadTextsMeaning(s.wire);
    forall w | w in programs
      ensures By(s.log, w) + Fitting(s.pending[w]) == Fitting(programs[w])
    {
      assert By(s.log, w) + [] == By(s.log, w);
    }
  }

  lemma {:induction false} AllBy(log: seq<Sent>, w: WriterId)
    requires forall i | 0 <= i < |log| :: log[i].writer == w
    ensures By(log, w) == Messages(log)
  {
    if log != [] {
      var init := log[..|log| - 1];
      AllBy(init, w);
      assert Messages(log) == Messages(init) + [log[|log| - 1].message];
    }
  }

  lemma {:induction false} AllFit(calls: seq<Message>)
    requires forall i | 0 <= i < |calls| :: |calls[i].payload| <= 65535
    ensures Fitting(calls) == calls
  {
    if calls != [] {
      AllFit(calls[1..]);
      assert [calls[0]] + calls[1..] == calls;
    }
  }

  // A writer alone, whose calls all fit and have all been made: the peer reads
  // its texts up to its first close, and every call is on the wire, in order.
  lemma OneWriterIsRead(calls: seq<Message>, w: WriterId, actions: seq<Action>)
    requires ValidPrograms(map[w := calls]) && Runs(Init(map[w := calls]), actions)
    requires var s := After(Init(map[w := calls]), actions); !s.failed && s.holder.Free? && w in s.pending && s.pending[w] == []
    requires forall i | 0 <= i < |calls| :: |calls[i].payload| <= 65535
    ensures
      var s := After(Init(map[w := calls]), actions);
      && |s.log| == |calls| && (forall i | 0 <= i < |calls| :: s.log[i] == Sent(w, calls[i]))
      && ReadTexts(s.wire) == TextsBeforeClose(calls)
  {
    var s := After(Init(map[w := calls]), actions);
    PeerReadsMerge(map[w := calls], actions);
    assert s.log != [] ==> s.log[0].writer == w;
    AllBy(s.log, w);
    AllFit(calls);
    hide By, Runs, After, ReadTexts, TextsBeforeClose, ValidPrograms, Init;
    assert Fitting([]) == [];
    assert By(s.log, w) + [] == By(s.log, w) == calls;
    assert forall i | 0 <= i < |calls| :: Messages(s.log)[i] == calls[i];
  }

  // A run has failed exactly if some writer gave up in it: a refused call is no
  // failure.
  lemma {:induction false} FailsByGivingUp(s: State, actions: seq<Action>)
    requires Runs(s, actions)
    ensures After(s, actions).failed <==> s.failed || GiveUp in actions
    decreases |actions|
  {
    if actions != [] {
      FailsByGivingUp(Next(s, actions[0]), actions[1..]);
      assert actions == [actions[0]] + actions[1..];
    }
  }

  lemma {:induction false} TextsPrefix(a: seq<Message>, b: seq<Message>)
    ensures TextsBeforeClose(a) <= TextsBeforeClose(a + b)
  {
    if a != [] {
      assert (a + b)[1..] == a[1..] + b;
      TextsPrefix(a[1..], b);
    }
  }

  // Whatever happens later, nothing written before the first tear is lost or
  // misread: the peer gets those frames first, in order.
  lemma CleanPrefixIsRead(programs: Programs, actions: seq<Action>)
    requires ValidPrograms(programs) && Runs(Init(programs), actions)
    ensures
      var s := After(Init(programs), actions);
      && Messages(s.cleanLog) <= ParseAll(s.wire).messages
      && TextsBeforeClose(Messages(s.cleanLog)) <= ReadTexts(s.wire)
  {
    hide ParseFrame, ParseAll, EncodeFrame;
    Reached(programs, actions);
    var s := After(Init(programs), actions);
    var later := s.wire[|s.clean|..];
    assert s.wire == s.clean + later;
    WholeAppend(s.clean, later);
    ReadTextsMeaning(s.wire);
    TextsPrefix(Messages(s.cleanLog), ParseAll(later).messages);
  }

  lemma OneByteText(b: bv8)
    ensures EncodeFrame(OPCODE_TEXT, [b], Plain) == [0x81, 1, b]
  {
  }

  const TEXT_A := Message(OPCODE_TEXT, [0x61])
  const TEXT_B := Message(OPCODE_TEXT, [0x62])
  const TWO_WRITERS: Programs := map[0 := [TEXT_A], 1 := [TEXT_B]]
  const TORN := State([0x81], Free, map[0 := [], 1 := [TEXT_B]], [], true, true, [], [])

  lemma FirstWriterTears()
    ensures Runs(Init(TWO_WRITERS), [Acquire(0, Plain), Transfer(1), GiveUp])
    ensures After(Init(TWO_WRITERS), [Acquire(0, Plain), Transfer(1), GiveUp]) == TORN
  {
    hide EncodeFrame;
    OneByteText(0x61);
    var s0 := Init(TWO_WRITERS);
    var s1 := Next(s0, Acquire(0, Plain));
    var s2 := Next(s1, Transfer(1));
    assert s2.wire == [0x81];
    RunOfThree([s0, s1, s2, Next(s2, GiveUp)], [Acquire(0, Plain), Transfer(1), GiveUp]);
  }

  lemma SecondWriterSends()
    ensures Runs(TORN, [Acquire(1, Plain), Transfer(3), Release])
    ensures
      var s := After(TORN, [Acquire(1, Plain), Transfer(3), Release]);
      s.holder.Free? && s.wire == [0x81, 0x81, 1, 0x62] && s.log == [Sent(1, TEXT_B)]
  {
    hide EncodeFrame;
    OneByteText(0x62);
    var s1 := Next(TORN, Acquire(1, Plain));
    var s2 := Next(s1, Transfer(3));
    assert s2.wire == [0x81] + [0x81, 1, 0x62];
    RunOfThree([TORN, s1, s2, Next(s2, Release)], [Acquire(1, Plain), Transfer(3), Release]);
  }

  // After a tear the guarantee is really gone: writer 0 gives up after one byte
  // of its frame, writer 1 then sends a whole text, and the peer reads nothing.
  lemma TornFrameHidesLaterText()
    ensures exists programs, actions ::
              && ValidPrograms(programs) && Runs(Init(programs), actions)
              && var s := After(Init(programs), actions);
                 s.holder.Free? && s.log == [Sent(1, TEXT_B)] && ReadTexts(s.wire) == []
  {
    FirstWriterTears();
    SecondWriterSends();
    var first := [Acquire(0, Plain), Transfer(1), GiveUp];
    var second := [Acquire(1, Plain), Transfer(3), Release];
    hide Runs, After;
    RunsAppend(Init(TWO_WRITERS), first, second);
    assert ParseFrame([0x81, 0x81, 1, 0x62]).Failed?;
    assert ReadTexts(After(Init(TWO_WRITERS), first + second).wire) == [];
  }
}
