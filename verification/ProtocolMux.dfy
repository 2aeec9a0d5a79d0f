/**
 * One port serving TLS and plain HTTP: each connection's first byte decides
 * which of two channel listeners it goes to. The mux is modelled over the
 * steps its goroutines take; the wrapped connection as it runs.
 */
module ProtocolMux {
  import opened Wrappers

  const TLS_HANDSHAKE_RECORD: bv8 := 0x16
  const QUEUE_CAPACITY := 128

  type ConnId = nat
  type AcceptId = nat

  datatype Side = Tls | Http

  function SideOf(first: bv8): Side {
    if first == TLS_HANDSHAKE_RECORD then Tls else Http
  }

  datatype Place =
    | Unrouted
    | Delivering(side: Side)   // a deliver() call is waiting in its select
    | Queued(side: Side)
    | Accepted(side: Side)
    | Closed

  // The logs say what ever entered the channel and what Accept calls took out.
  datatype Listener = Listener(queue: seq<ConnId>, closed: bool, entered: seq<ConnId>, taken: seq<ConnId>)

  // late: the listener was already closed when the call began.
  datatype AcceptCall =
    | Begun(side: Side, late: bool)
    | Waiting(side: Side, late: bool)
    | Returned(side: Side, late: bool, conn: ConnId)
    | Refused(side: Side, late: bool)

  datatype State = State(
    places: map<ConnId, Place>,
    first: map<ConnId, bv8>,
    tls: Listener,
    http: Listener,
    accepts: map<AcceptId, AcceptCall>
  )

  function At(s: State, side: Side): Listener {
    if side == Tls then s.tls else s.http
  }

  function With(s: State, side: Side, l: Listener): State {
    if side == Tls then s.(tls := l) else s.(http := l)
  }

  datatype Action =
    | Arrive(c: ConnId)
    | Sniff(c: ConnId, byte: Option<bv8>)   // None: the read failed or timed out
    | Enqueue(c: ConnId)
    | Discard(c: ConnId)                    // deliver() saw the closed channel
    | Close(side: Side)
    | BeginAccept(a: AcceptId, side: Side)
    | CheckClosed(a: AcceptId)              // the first select of Accept
    | Take(a: AcceptId)                     // its second select, either way
    | GiveUp(a: AcceptId)

  predicate Enabled(s: State, x: Action) {
    match x
    case Arrive(c) => c !in s.places
    case Sniff(c, _) => c in s.places && s.places[c] == Unrouted
    case Enqueue(c) =>
      c in s.places && s.places[c].Delivering? && |At(s, s.places[c].side).queue| < QUEUE_CAPACITY
    case Discard(c) => c in s.places && s.places[c].Delivering? && At(s, s.places[c].side).closed
    case Close(_) => true
    case BeginAccept(a, _) => a !in s.accepts
    case CheckClosed(a) => a in s.accepts && s.accepts[a].Begun?
    case Take(a) => a in s.accepts && s.accepts[a].Waiting? && At(s, s.accepts[a].side).queue != []
    case GiveUp(a) => a in s.accepts && s.accepts[a].Waiting? && At(s, s.accepts[a].side).closed
  }

  function Next(s: State, x: Action): State
    requires Enabled(s, x)
  {
    match x
    case Arrive(c) => s.(places := s.places[c := Unrouted])
    case Sniff(c, byte) =>
      (match byte
       case None => s.(places := s.places[c := Place.Closed])
       case Some(b) => s.(places := s.places[c := Delivering(SideOf(b))], first := s.first[c := b]))
    case Enqueue(c) =>
      var side := s.places[c].side;
      var l := At(s, side);
      With(s.(places := s.places[c := Queued(side)]), side, l.(queue := l.queue + [c], entered := l.entered + [c]))
    case Discard(c) => s.(places := s.places[c := Place.Closed])
    case Close(side) => With(s, side, At(s, side).(closed := true))
    case BeginAccept(a, side) => s.(accepts := s.accepts[a := Begun(side, At(s, side).closed)])
    case CheckClosed(a) =>
      var call := s.accepts[a];
      s.(accepts := s.accepts[a :=
        if At(s, call.side).closed then Refused(call.side, call.late) else Waiting(call.side, call.late)])
    case Take(a) =>
      var call := s.accepts[a];
      var l := At(s, call.side);
      var c := l.queue[0];
      With(s.(places := s.places[c := Accepted(call.side)], accepts := s.accepts[a := Returned(call.side, call.late, c)]),
           call.side, l.(queue := l.queue[1..], taken := l.taken + [c]))
    case GiveUp(a) =>
      s.(accepts := s.accepts[a := Refused(s.accepts[a].side, s.accepts[a].late)])
  }

  const INIT := State(map[], map[], Listener([], false, [], []), Listener([], false, [], []), map[])

  predicate Runs(s: State, actions: seq<Action>)
    decreases |actions|
  {
    actions == [] || (Enabled(s, actions[0]) && Runs(Next(s, actions[0]), actions[1..]))
  }

  function After(s: State, actions: seq<Action>): State
    requires Runs(s, actions)
    decreases |actions|
  {
    if actions == [] then s else After(Next(s, actions[0]), actions[1..])
  }

  // ---------- the invariant ----------

  predicate NoRepeats(s: seq<ConnId>) {
    forall i, j | 0 <= i < j < |s| :: s[i] != s[j]
  }

  // A listener's logs and queue agree with where the connections are.
  ghost predicate ListenerOk(s: State, side: Side) {
    var l := At(s, side);
    && |l.queue| <= QUEUE_CAPACITY
    && l.entered == l.taken + l.queue
    && NoRepeats(l.entered)
    && (forall c :: c in l.queue <==> c in s.places && s.places[c] == Queued(side))
    && (forall c :: c in l.taken <==> c in s.places && s.places[c] == Accepted(side))
  }

  predicate PlaceOk(s: State, c: ConnId)
    requires c in s.places
  {
    match s.places[c]
    case Delivering(side) => c in s.first && SideOf(s.first[c]) == side
    case Queued(side) => c in s.first && SideOf(s.first[c]) == side
    case Accepted(side) => c in s.first && SideOf(s.first[c]) == side
    case _ => true
  }

  predicate AcceptOk(s: State, a: AcceptId)
    requires a in s.accepts
  {
    match s.accepts[a]
    case Begun(side, late) => late ==> At(s, side).closed
    case Waiting(_, late) => !late
    case Returned(side, late, c) => !late && c in At(s, side).taken
    case Refused(side, _) => At(s, side).closed
  }

  // No connection is handed to two callers.
  predicate DistinctReturns(s: State) {
    forall a, b | a in s.accepts && b in s.accepts && a != b && s.accepts[a].Returned? && s.accepts[b].Returned? ::
      s.accepts[a].conn != s.accepts[b].conn
  }

  ghost predicate Inv(s: State) {
    && ListenerOk(s, Tls) && ListenerOk(s, Http)
    && (forall c | c in s.places :: PlaceOk(s, c))
    && (forall a | a in s.accepts :: AcceptOk(s, a))
    && DistinctReturns(s)
  }

  // Nothing but Enqueue and Take moves a connection in or out of a queue.
  lemma OtherKeepsListener(s: State, x: Action, side: Side)
    requires ListenerOk(s, side) && Enabled(s, x) && !x.Enqueue? && !x.Take?
    ensures ListenerOk(Next(s, x), side)
  {
    hide NoRepeats;
    var t := Next(s, x);
    assert At(t, side).queue == At(s, side).queue && At(t, side).taken == At(s, side).taken;
    assert At(t, side).entered == At(s, side).entered;
    forall c
      ensures c in t.places && t.places[c] == Queued(side) <==> c in s.places && s.places[c] == Queued(side)
      ensures c in t.places && t.places[c] == Accepted(side) <==> c in s.places && s.places[c] == Accepted(side)
    {
    }
  }

  lemma NoRepeatsSnoc(s: seq<ConnId>, c: ConnId)
    requires NoRepeats(s) && c !in s
    ensures NoRepeats(s + [c])
  {
  }

  lemma EnqueueKeepsListener(s: State, c: ConnId, side: Side)
    requires ListenerOk(s, side) && Enabled(s, Enqueue(c))
    ensures ListenerOk(Next(s, Enqueue(c)), side)
  {
    hide NoRepeats;
    var t := Next(s, Enqueue(c));
    var l, m := At(s, side), At(t, side);
    if s.places[c].side == side {
      assert c !in l.queue && c !in l.taken && c !in l.taken + l.queue;
      NoRepeatsSnoc(l.entered, c);
      assert m.entered == m.taken + m.queue;
    }
  }

  // In a repetition-free log the head of the queue occurs nowhere else.
  lemma HeadIsUnique(taken: seq<ConnId>, queue: seq<ConnId>)
    requires queue != [] && NoRepeats(taken + queue)
    ensures queue[0] !in queue[1..] && queue[0] !in taken
  {
    var all := taken + queue;
    assert all[|taken|] == queue[0];
    assert forall i | 0 <= i < |taken| :: all[i] == taken[i];
    assert forall i | 0 < i < |queue| :: all[|taken| + i] == queue[i];
  }

  // Taking the head moves exactly that connection from the queue to the log.
  lemma HeadMoves(l: Listener, c: ConnId)
    requires l.queue != [] && l.queue[0] == c && l.entered == l.taken + l.queue && NoRepeats(l.entered)
    ensures l.entered == (l.taken + [c]) + l.queue[1..]
    ensures forall d :: d in l.queue[1..] <==> d in l.queue && d != c
    ensures forall d :: d in l.taken + [c] <==> d in l.taken || d == c
  {
    HeadIsUnique(l.taken, l.queue);
    hide NoRepeats;
    assert l.queue == [c] + l.queue[1..];
  }

  lemma TakeKeepsListener(s: State, a: AcceptId, side: Side)
    requires Enabled(s, Take(a)) && ListenerOk(s, side) && ListenerOk(s, s.accepts[a].side)
    ensures ListenerOk(Next(s, Take(a)), side)
  {
    var from := s.accepts[a].side;
    var c := At(s, from).queue[0];
    assert c in At(s, from).queue && s.places[c] == Queued(from);
    if from == side {
      HeadMoves(At(s, side), c);
    }
    hide NoRepeats;
    var t := Next(s, Take(a));
    assert t.places == s.places[c := Accepted(from)];
  }

  lemma ListenersStep(s: State, x: Action, side: Side)
    requires Inv(s) && Enabled(s, x)
    ensures ListenerOk(Next(s, x), side)
  {
    hide ListenerOk, PlaceOk, AcceptOk, DistinctReturns, Next;
    if x.Enqueue? {
      EnqueueKeepsListener(s, x.c, side);
    } else if x.Take? {
      TakeKeepsListener(s, x.a, side);
    } else {
      OtherKeepsListener(s, x, side);
    }
  }

  lemma OtherKeepsAccepts(s: State, x: Action)
    requires Enabled(s, x) && !x.Take?
    requires (forall a | a in s.accepts :: AcceptOk(s, a)) && DistinctReturns(s)
    ensures forall a | a in Next(s, x).accepts :: AcceptOk(Next(s, x), a)
    ensures DistinctReturns(Next(s, x))
  {
    var t := Next(s, x);
    forall a | a in t.accepts
      ensures AcceptOk(t, a)
      ensures t.accepts[a].Returned? ==> a in s.accepts && s.accepts[a] == t.accepts[a]
    {
      assert a in s.accepts ==> AcceptOk(s, a);
      assert At(t, t.accepts[a].side).taken == At(s, t.accepts[a].side).taken;
      assert At(s, t.accepts[a].side).closed ==> At(t, t.accepts[a].side).closed;
    }
  }

  lemma TakeKeepsAccepts(s: State, a: AcceptId)
    requires Inv(s) && Enabled(s, Take(a))
    ensures forall b | b in Next(s, Take(a)).accepts :: AcceptOk(Next(s, Take(a)), b)
    ensures DistinctReturns(Next(s, Take(a)))
  {
    hide PlaceOk;
    var t := Next(s, Take(a));
    var side := s.accepts[a].side;
    var c := At(s, side).queue[0];
    assert AcceptOk(s, a) && c in At(s, side).queue && s.places[c] == Queued(side);
    forall b | b in t.accepts
      ensures AcceptOk(t, b)
      ensures b != a && t.accepts[b].Returned? ==> t.accepts[b].conn != c
    {
      assert AcceptOk(s, b);
      if b != a && s.accepts[b].Returned? {
        var d := s.accepts[b].conn;
        assert d in At(s, s.accepts[b].side).taken && s.places[d] == Accepted(s.accepts[b].side);
      }
    }
  }

  lemma AcceptsStep(s: State, x: Action)
    requires Inv(s) && Enabled(s, x)
    ensures forall a | a in Next(s, x).accepts :: AcceptOk(Next(s, x), a)
    ensures DistinctReturns(Next(s, x))
  {
    if x.Take? {
      TakeKeepsAccepts(s, x.a);
    } else {
      OtherKeepsAccepts(s, x);
    }
  }

  lemma PlacesStep(s: State, x: Action)
    requires Inv(s) && Enabled(s, x)
    ensures forall c | c in Next(s, x).places :: PlaceOk(Next(s, x), c)
  {
    if x.Take? {
      var l := At(s, s.accepts[x.a].side);
      assert l.queue[0] in l.queue;
    }
  }

  lemma InvStep(s: State, x: Action)
    requires Inv(s) && Enabled(s, x)
    ensures Inv(Next(s, x))
  {
    hide ListenerOk, PlaceOk, AcceptOk, DistinctReturns, Enabled, Next;
    ListenersStep(s, x, Tls);
    ListenersStep(s, x, Http);
    PlacesStep(s, x);
    AcceptsStep(s, x);
  }

  lemma {:induction false} InvRun(s: State, actions: seq<Action>)
    requires Inv(s) && Runs(s, actions)
    ensures Inv(After(s, actions))
    decreases |actions|
  {
    hide Inv, Enabled, Next;
    if actions != [] {
      InvStep(s, actions[0]);
      InvRun(Next(s, actions[0]), actions[1..]);
    }
  }

  // ---------- theorems ----------

  // A queue holds the connections that are queued there and no others, each
  // once, at most 128 of them, and only those whose first byte belongs there.
  lemma QueuesAreExact(actions: seq<Action>, side: Side)
    requires Runs(INIT, actions)
    ensures
      var s := After(INIT, actions);
      var queue := At(s, side).queue;
      && |queue| <= 128 && NoRepeats(queue)
      && (forall c :: c in queue <==> c in s.places && s.places[c] == Queued(side))
      && (forall c | c in queue :: c in s.first && (s.first[c] == 0x16 <==> side == Tls))
  {
    InvRun(INIT, actions);
    var s := After(INIT, actions);
    var l := At(s, side);
    assert ListenerOk(s, side);
    assert forall i | 0 <= i < |l.queue| :: l.entered[|l.taken| + i] == l.queue[i];
    forall c | c in l.queue
      ensures c in s.first && (s.first[c] == 0x16 <==> side == Tls)
    {
      assert PlaceOk(s, c);
    }
  }

  // First in, first out: what was taken is an initial part of what entered,
  // in the same order, and the queue is the rest.
  lemma QueuesAreFifo(actions: seq<Action>, side: Side)
    requires Runs(INIT, actions)
    ensures
      var l := At(After(INIT, actions), side);
      l.taken <= l.entered && l.queue == l.entered[|l.taken|..]
  {
    InvRun(INIT, actions);
    assert ListenerOk(After(INIT, actions), side);
  }

  // An Accept that began after Close never returns a connection; every Accept
  // that does return one got it alone, from its own side.
  lemma AcceptAfterCloseFails(actions: seq<Action>, a: AcceptId)
    requires Runs(INIT, actions)
    requires a in After(INIT, actions).accepts && After(INIT, actions).accepts[a].Returned?
    ensures
      var s := After(INIT, actions);
      var call := s.accepts[a];
      && !call.late
      && call.conn in s.places && s.places[call.conn] == Accepted(call.side)
      && (forall b | b in s.accepts && b != a && s.accepts[b].Returned? :: s.accepts[b].conn != call.conn)
  {
    InvRun(INIT, actions);
    var s := After(INIT, actions);
    var call := s.accepts[a];
    assert AcceptOk(s, a) && ListenerOk(s, call.side);
    assert call.conn in At(s, call.side).taken;
  }

  lemma RunsCons(s: State, x: Action, rest: seq<Action>)
    requires Enabled(s, x) && Runs(Next(s, x), rest)
    ensures Runs(s, [x] + rest) && After(s, [x] + rest) == After(Next(s, x), rest)
  {
  }

  // The guarantee stops there: a connection can still enter the queue of a
  // closed listener, where no later Accept will ever take it.
  lemma QueuedAfterClose() returns (actions: seq<Action>, c: ConnId)
    ensures Runs(INIT, actions)
    ensures var s := After(INIT, actions); s.tls.closed && c in s.tls.queue
  {
    c := 0;
    var s1 := Next(INIT, Arrive(c));
    var s2 := Next(s1, Sniff(c, Some(0x16)));
    var s3 := Next(s2, Close(Tls));
    var s4 := Next(s3, Enqueue(c));
    actions := [Arrive(c), Sniff(c, Some(0x16)), Close(Tls), Enqueue(c)];
    RunsCons(s3, Enqueue(c), []);
    RunsCons(s2, Close(Tls), [Enqueue(c)]);
    RunsCons(s1, Sniff(c, Some(0x16)), [Close(Tls), Enqueue(c)]);
    RunsCons(INIT, Arrive(c), [Sniff(c, Some(0x16)), Close(Tls), Enqueue(c)]);
    assert [Arrive(c)] + [Sniff(c, Some(0x16)), Close(Tls), Enqueue(c)] == actions;
    assert [Sniff(c, Some(0x16))] + [Close(Tls), Enqueue(c)] == [Sniff(c, Some(0x16)), Close(Tls), Enqueue(c)];
    assert [Close(Tls)] + [Enqueue(c)] == [Close(Tls), Enqueue(c)];
    assert [Enqueue(c)] + [] == [Enqueue(c)];
    assert s4.tls.queue == [c];
    assert After(INIT, actions) == s4;
  }

  // n connections with one first byte have arrived and wait in its queue.
  ghost predicate Lined(s: State, byte: bv8, n: nat) {
    var l := At(s, if byte == 0x16 then Tls else Http);
    && |l.queue| == n && !l.closed && (forall c :: c in s.places ==> c < n)
    && forall a :: a !in s.accepts
  }

  lemma OneMoreQueued(s: State, byte: bv8, n: nat) returns (t: State, actions: seq<Action>)
    requires Lined(s, byte, n) && n < 128
    ensures actions == [Arrive(n), Sniff(n, Some(byte)), Enqueue(n)]
    ensures Runs(s, actions) && After(s, actions) == t && Lined(t, byte, n + 1)
  {
    assert n !in s.places;
    var s1 := Next(s, Arrive(n));
    var s2 := Next(s1, Sniff(n, Some(byte)));
    t := Next(s2, Enqueue(n));
    actions := [Arrive(n), Sniff(n, Some(byte)), Enqueue(n)];
    RunsCons(s2, Enqueue(n), []);
    RunsCons(s1, Sniff(n, Some(byte)), [Enqueue(n)]);
    RunsCons(s, Arrive(n), [Sniff(n, Some(byte)), Enqueue(n)]);
    assert [Arrive(n)] + [Sniff(n, Some(byte)), Enqueue(n)] == actions;
    assert [Sniff(n, Some(byte))] + [Enqueue(n)] == [Sniff(n, Some(byte)), Enqueue(n)];
    assert [Enqueue(n)] + [] == [Enqueue(n)];
  }

  lemma {:induction false} RunsAppend(s: State, a: seq<Action>, b: seq<Action>)
    requires Runs(s, a) && Runs(After(s, a), b)
    ensures Runs(s, a + b) && After(s, a + b) == After(After(s, a), b)
    decreases |a|
  {
    hide Enabled, Next;
    if a == [] {
      assert a + b == b;
    } else {
      RunsAppend(Next(s, a[0]), a[1..], b);
      assert (a + b)[1..] == a[1..] + b && (a + b)[0] == a[0];
    }
  }

  // Either queue takes every number of connections up to 128.
  lemma {:induction false} QueueFills(byte: bv8, n: nat) returns (actions: seq<Action>)
    requires n <= 128
    ensures Runs(INIT, actions) && Lined(After(INIT, actions), byte, n)
  {
    actions := [];
    if n > 0 {
      var before := QueueFills(byte, n - 1);
      var t, more := OneMoreQueued(After(INIT, before), byte, n - 1);
      RunsAppend(INIT, before, more);
      actions := before + more;
    }
  }

  // A call of Accept on an open listener with a connection in its queue can get
  // the one that entered first.
  lemma AcceptDelivers(s: State, a: AcceptId, side: Side)
    requires a !in s.accepts && !At(s, side).closed && At(s, side).queue != []
    ensures
      var actions := [BeginAccept(a, side), CheckClosed(a), Take(a)];
      && Runs(s, actions)
      && var t := After(s, actions);
         && a in t.accepts && t.accepts[a] == Returned(side, false, At(s, side).queue[0])
         && At(t, side).queue == At(s, side).queue[1..]
  {
    var s1 := Next(s, BeginAccept(a, side));
    var s2 := Next(s1, CheckClosed(a));
    RunsCons(s2, Take(a), []);
    RunsCons(s1, CheckClosed(a), [Take(a)]);
    RunsCons(s, BeginAccept(a, side), [CheckClosed(a), Take(a)]);
    assert [Take(a)] + [] == [Take(a)] && [CheckClosed(a)] + [Take(a)] == [CheckClosed(a), Take(a)];
    assert [BeginAccept(a, side)] + [CheckClosed(a), Take(a)] == [BeginAccept(a, side), CheckClosed(a), Take(a)];
  }

  // Nothing hangs on a closed listener: a new call of Accept is refused, one
  // that waits can be, and a connection that waits to be delivered is closed.
  lemma CloseReleases(s: State, a: AcceptId, c: ConnId, side: Side)
    requires At(s, side).closed
    ensures a !in s.accepts ==>
              && Runs(s, [BeginAccept(a, side), CheckClosed(a)])
              && a in After(s, [BeginAccept(a, side), CheckClosed(a)]).accepts
              && After(s, [BeginAccept(a, side), CheckClosed(a)]).accepts[a] == Refused(side, true)
    ensures a in s.accepts && s.accepts[a].Waiting? && s.accepts[a].side == side ==>
              && Runs(s, [GiveUp(a)]) && a in After(s, [GiveUp(a)]).accepts
              && After(s, [GiveUp(a)]).accepts[a] == Refused(side, s.accepts[a].late)
    ensures c in s.places && s.places[c] == Delivering(side) ==>
              && Runs(s, [Discard(c)]) && c in After(s, [Discard(c)]).places
              && After(s, [Discard(c)]).places[c] == Place.Closed && At(After(s, [Discard(c)]), side) == At(s, side)
  {
    if a !in s.accepts {
      var s1 := Next(s, BeginAccept(a, side));
      RunsCons(s1, CheckClosed(a), []);
      RunsCons(s, BeginAccept(a, side), [CheckClosed(a)]);
      assert [CheckClosed(a)] + [] == [CheckClosed(a)];
      assert [BeginAccept(a, side)] + [CheckClosed(a)] == [BeginAccept(a, side), CheckClosed(a)];
    }
    if Enabled(s, GiveUp(a)) {
      RunsCons(s, GiveUp(a), []);
      assert [GiveUp(a)] + [] == [GiveUp(a)];
    }
    if Enabled(s, Discard(c)) {
      RunsCons(s, Discard(c), []);
      assert [Discard(c)] + [] == [Discard(c)];
    }
  }

  // ---------- the wrapped connection ----------

  // A network connection: `incoming` is what the peer sent and nobody read yet.
  class NetConn {
    var incoming: seq<bv8>
    var burst: nat        // how much the next read delivers at most

    constructor (incoming: seq<bv8>, burst: nat)
      ensures this.incoming == incoming
    {
      this.incoming, this.burst := incoming, burst;
    }

    // Some of the next bytes, possibly none.
    method Read(p: array<bv8>) returns (n: nat)
      modifies this, p
      ensures n <= p.Length && n <= |old(incoming)|
      ensures p[..n] == old(incoming)[..n] && incoming == old(incoming)[n..]
    {
      n := if burst < p.Length then burst else p.Length;
      if |incoming| < n {
        n := |incoming|;
      }
      forall i | 0 <= i < n {
        p[i] := incoming[i];
      }
      incoming := incoming[n..];
    }
  }

  class PrefixedConn {
    const conn: NetConn
    var prefix: seq<bv8>

    constructor (conn: NetConn, prefix: seq<bv8>)
      ensures this.conn == conn && this.prefix == prefix
    {
      this.conn, this.prefix := conn, prefix;
    }

    // The bytes a reader has still to see.
    function Remaining(): seq<bv8>
      reads this, conn
    {
      prefix + conn.incoming
    }

    method Read(p: array<bv8>) returns (n: nat)
      modifies this, conn, p
      ensures n <= p.Length
      ensures p[..n] + Remaining() == old(Remaining())
      ensures old(prefix) != [] && p.Length > 0 ==> n > 0
    {
      if prefix != [] {
        n := if |prefix| < p.Length then |prefix| else p.Length;
        forall i | 0 <= i < n {
          p[i] := prefix[i];
        }
        prefix := prefix[n..];
        assert p[..n] + prefix == old(prefix);
        assert p[..n] + Remaining() == (p[..n] + prefix) + conn.incoming;
        return;
      }
      n := conn.Read(p);
      assert [] + conn.incoming == conn.incoming && [] + old(conn.incoming) == old(conn.incoming);
    }

    // Any sequence of reads, with buffers of any size, yields the stream itself.
    method ReadMany(sizes: seq<nat>) returns (got: seq<bv8>)
      modifies this, conn
      ensures got + Remaining() == old(Remaining())
    {
      got := [];
      assert got + Remaining() == Remaining();
      for i := 0 to |sizes|
        invariant got + Remaining() == old(Remaining())
      {
        var p := new bv8[sizes[i]];
        var n := Read(p);
        got := got + p[..n];
      }
    }
  }

  // route: one byte is read ahead and put back in front.
  method Route(conn: NetConn) returns (routed: Option<(Side, PrefixedConn)>)
    modifies conn
    ensures routed.None? ==> conn.incoming == old(conn.incoming)
    ensures routed.Some? ==>
              && fresh(routed.value.1) && routed.value.1.conn == conn
              && routed.value.1.Remaining() == old(conn.incoming)
              && |old(conn.incoming)| > 0 && (routed.value.0 == Tls <==> old(conn.incoming)[0] == 0x16)
  {
    var first := new bv8[1];
    var n := conn.Read(first);
    if n == 0 {
      return None;
    }
    var wrapped := new PrefixedConn(conn, first[..n]);
    return Some((SideOf(first[0]), wrapped));
  }
}
