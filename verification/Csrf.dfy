/**
 * The CSRF token of a session: stored by the server, rotated by every
 * GET /api/auth/me, kept by each browser tab, and refreshed by a mutation that
 * is turned away. First the two sides as they run, then the protocol with any
 * number of tabs and calls interleaving.
 *
 * A token is a number; 0 stands for the empty string. Token generation is
 * assumed fresh and hashing injective, so a stored hash is the token itself.
 */
module Csrf {

  type Token = nat

  // ---------- the server's session rows ----------

  datatype SessionRow = SessionRow(csrf: Token, expiresAt: int)

  datatype Response = Accepted | CsrfRequired | CsrfInvalid | Unauthorized

  class SessionStore {
    var rows: map<string, SessionRow>
    var lastToken: Token

    ghost predicate Valid()
      reads this
    {
      forall id | id in rows :: 0 < rows[id].csrf <= lastToken
    }

    constructor ()
      ensures Valid() && rows == map[]
    {
      rows, lastToken := map[], 0;
    }

    // SessionByID: an expired row counts as absent.
    predicate Live(id: string, now: int)
      reads this
    {
      id in rows && rows[id].expiresAt > now
    }

    method CreateSession(id: string, expiresAt: int) returns (token: Token)
      requires Valid()
      modifies this
      ensures Valid() && token > old(lastToken) && lastToken == token
      ensures rows == old(rows)[id := SessionRow(token, expiresAt)]
    {
      lastToken := lastToken + 1;
      token := lastToken;
      rows := rows[id := SessionRow(token, expiresAt)];
    }

    method ValidateCsrf(id: string, now: int, token: Token) returns (ok: bool)
      ensures ok <==> Live(id, now) && rows[id].csrf == token
    {
      if !Live(id, now) {
        return false;
      }
      return rows[id].csrf == token;
    }

    // The new token replaces the old one, which no longer validates anywhere.
    method RotateSessionCsrf(id: string, now: int) returns (found: bool, token: Token)
      requires Valid()
      modifies this
      ensures Valid()
      ensures found <==> old(Live(id, now))
      ensures !found ==> rows == old(rows) && lastToken == old(lastToken) && token == 0
      ensures found ==>
                && token > old(lastToken) && lastToken == token
                && rows == old(rows)[id := old(rows)[id].(csrf := token)]
                && Live(id, now)
    {
      if !Live(id, now) {
        return false, 0;
      }
      lastToken := lastToken + 1;
      token := lastToken;
      rows := rows[id := rows[id].(csrf := token)];
      return true, token;
    }

    method DeleteSession(id: string)
      requires Valid()
      modifies this
      ensures Valid() && rows == old(rows) - {id} && lastToken == old(lastToken)
    {
      rows := rows - {id};
    }

    // withSession and requireCSRF in front of a state-changing handler.
    method Admit(id: string, now: int, token: Token) returns (r: Response)
      requires Valid()
      ensures r == Accepted <==> Live(id, now) && token == rows[id].csrf
      ensures r == Unauthorized <==> !Live(id, now)
      ensures r == CsrfRequired <==> Live(id, now) && token == 0
    {
      if !Live(id, now) {
        return Unauthorized;
      }
      if token == 0 {
        return CsrfRequired;
      }
      var ok := ValidateCsrf(id, now, token);
      return if ok then Accepted else CsrfInvalid;
    }
  }

  // ---------- one tab alone ----------

  class ApiService {
    var csrfToken: Token

    constructor ()
      ensures csrfToken == 0
    {
      csrfToken := 0;
    }

    method Me(store: SessionStore, id: string, now: int) returns (ok: bool)
      requires store.Valid()
      modifies this, store
      ensures store.Valid()
      ensures ok <==> old(store.Live(id, now))
      ensures !ok ==> csrfToken == old(csrfToken) && store.rows == old(store.rows)
      ensures ok ==> store.Live(id, now) && csrfToken == store.rows[id].csrf
    {
      var token;
      ok, token := store.RotateSessionCsrf(id, now);
      if ok {
        csrfToken := token;
      }
    }

    // mutate() with nobody else rotating: a live session accepts it within two
    // sends, whatever stale token the tab held.
    method Mutate(store: SessionStore, id: string, now: int) returns (done: bool, sends: nat)
      requires store.Valid()
      modifies this, store
      ensures store.Valid() && sends <= 2
      ensures done <==> old(store.Live(id, now))
      ensures old(csrfToken) == 0 && done ==> sends == 1
      ensures old(csrfToken) != 0 && done ==>
                (sends == 1 <==> old(csrfToken) == old(store.rows)[id].csrf)
    {
      sends := 0;
      if csrfToken == 0 {
        var ok := Me(store, id, now);
        if !ok {
          return false, sends;
        }
      }
      var r := store.Admit(id, now, csrfToken);
      sends := sends + 1;
      if r == CsrfRequired || r == CsrfInvalid {
        var ok := Me(store, id, now);
        if !ok {
          return false, sends;
        }
        r := store.Admit(id, now, csrfToken);
        sends := sends + 1;
      }
      return r == Accepted, sends;
    }
  }

  // ---------- many tabs, many calls ----------

  type TabId = nat
  type CallId = nat

  // Alone is a bare me(); First and Second are the two attempts of mutate().
  datatype Stage = Alone | First | Second

  datatype Outcome = Success | CsrfRejected | OtherError

  datatype Phase =
    | MeSent(stage: Stage)
    | MeAnswered(stage: Stage, token: Token)       // 0: an error came back
    | MutationSent(stage: Stage, token: Token)
    | MutationAnswered(stage: Stage, outcome: Outcome)
    | Done(outcome: Outcome)

  datatype Call = Call(
    tab: TabId,
    alone: bool,
    phase: Phase,
    sends: nat,        // mutation requests issued
    applied: nat,      // times the handler ran behind the CSRF check
    refresh: Token     // the token its own last me() produced
  )

  // The stored token is always the latest one issued.
  datatype State = State(live: bool, issued: Token, tabs: map<TabId, Token>, calls: map<CallId, Call>)

  datatype Action =
    | StartMe(c: CallId, tab: TabId)
    | StartMutation(c: CallId, tab: TabId)
    | ServeMe(c: CallId, rotates: bool, delivered: bool)
    | ReceiveMe(c: CallId)
    | ServeMutation(c: CallId, reached: bool, lateExpiry: bool, handlerOk: bool, delivered: bool)
    | ReceiveMutation(c: CallId)
    | EndSession

  predicate Enabled(s: State, a: Action) {
    match a
    case StartMe(c, tab) => c !in s.calls && tab in s.tabs
    case StartMutation(c, tab) => c !in s.calls && tab in s.tabs
    case ServeMe(c, rotates, _) => c in s.calls && s.calls[c].phase.MeSent? && (rotates ==> s.live)
    case ReceiveMe(c) => c in s.calls && s.calls[c].phase.MeAnswered? && s.calls[c].tab in s.tabs
    case ServeMutation(c, _, lateExpiry, _, _) =>
      c in s.calls && s.calls[c].phase.MutationSent? && (lateExpiry ==> !s.live)
    case ReceiveMutation(c) => c in s.calls && s.calls[c].phase.MutationAnswered?
    case EndSession => true
  }

  predicate Admitted(s: State, token: Token) {
    s.live && token != 0 && token == s.issued
  }

  // What the server answers to a mutation that reached it. An expiry between
  // the session lookup and the CSRF lookup reads as an invalid token.
  function Verdict(s: State, token: Token, lateExpiry: bool, handlerOk: bool): Outcome {
    if Admitted(s, token) then (if handlerOk then Success else OtherError)
    else if s.live || lateExpiry then CsrfRejected
    else OtherError
  }

  function Next(s: State, a: Action): State
    requires Enabled(s, a)
  {
    match a
    case StartMe(c, tab) =>
      s.(calls := s.calls[c := Call(tab, true, MeSent(Alone), 0, 0, 0)])
    case StartMutation(c, tab) =>
      // ensureCsrfToken: only a tab without a token asks for one first.
      s.(calls := s.calls[c :=
        if s.tabs[tab] == 0 then Call(tab, false, MeSent(First), 0, 0, 0)
        else Call(tab, false, MutationSent(First, s.tabs[tab]), 1, 0, 0)])
    case ServeMe(c, rotates, delivered) =>
      var call := s.calls[c];
      var issued := if rotates then s.issued + 1 else s.issued;
      var token := if rotates && delivered then issued else 0;
      s.(issued := issued, calls := s.calls[c := call.(phase := MeAnswered(call.phase.stage, token), refresh := token)])
    case ReceiveMe(c) =>
      var call := s.calls[c];
      var token := call.phase.token;
      if token == 0 then
        s.(calls := s.calls[c := call.(phase := Done(OtherError))])
      else if call.phase.stage == Alone then
        s.(tabs := s.tabs[call.tab := token], calls := s.calls[c := call.(phase := Done(Success))])
      else
        // Storing the token and resending run in one turn of the event loop.
        s.(tabs := s.tabs[call.tab := token],
           calls := s.calls[c := call.(phase := MutationSent(call.phase.stage, token), sends := call.sends + 1)])
    case ServeMutation(c, reached, lateExpiry, handlerOk, delivered) =>
      var call := s.calls[c];
      var outcome := Verdict(s, call.phase.token, lateExpiry, handlerOk);
      var applied := call.applied + if reached && Admitted(s, call.phase.token) then 1 else 0;
      s.(calls := s.calls[c := call.(applied := applied,
           phase := MutationAnswered(call.phase.stage, if reached && delivered then outcome else OtherError))])
    case ReceiveMutation(c) =>
      var call := s.calls[c];
      var retry := call.phase.outcome == CsrfRejected && call.phase.stage == First;
      s.(calls := s.calls[c := call.(phase := if retry then MeSent(Second) else Done(call.phase.outcome))])
    case EndSession => s.(live := false)
  }

  // A session with its login token, and tabs that may hold any older token or none.
  predicate Initial(s: State) {
    s.issued > 0 && s.calls == map[] && forall t | t in s.tabs :: s.tabs[t] <= s.issued
  }

  predicate Runs(s: State, actions: seq<Action>)
    decreases |actions|
  {
    actions == [] || (Enabled(s, actions[0]) && Runs(Next(s, actions[0]), actions[1..]))
  }

  function After(s: State, actions: seq<Action>): State
    requires Runs(s, actions)
    decreases |actions|
  {
    if actions == [] then s else After(Next(s, actions[0]), actions[1..])
  }

  // ---------- the invariant ----------

  // How far each call has got, in sends and applications.
  predicate CallOk(call: Call) {
    match call.phase
    case MeSent(stage) =>
      (call.alone <==> stage == Alone) && call.applied == 0 && call.sends == (if stage == Second then 1 else 0)
    case MeAnswered(stage, token) =>
      (call.alone <==> stage == Alone) && call.applied == 0 && call.sends == (if stage == Second then 1 else 0)
      && token == call.refresh
    case MutationSent(stage, token) =>
      !call.alone && stage != Alone && call.applied == 0 && call.sends == (if stage == Second then 2 else 1)
      && (stage == Second ==> token == call.refresh && token != 0)
    case MutationAnswered(stage, outcome) =>
      !call.alone && stage != Alone && call.applied <= 1 && call.sends == (if stage == Second then 2 else 1)
      && (outcome == CsrfRejected ==> call.applied == 0) && (outcome == Success ==> call.applied == 1)
    case Done(outcome) =>
      call.applied <= 1 && call.sends <= 2
      && (outcome == CsrfRejected ==> call.applied == 0 && call.sends == 2)
      && (outcome == Success && !call.alone ==> call.applied == 1)
  }

  ghost predicate Inv(s: State) {
    && s.issued > 0
    && (forall t | t in s.tabs :: s.tabs[t] <= s.issued)
    && (forall c | c in s.calls :: CallOk(s.calls[c]) && s.calls[c].tab in s.tabs && s.calls[c].refresh <= s.issued)
  }

  lemma CallStep(s: State, a: Action)
    requires Inv(s) && Enabled(s, a) && !a.EndSession?
    ensures
      var t := Next(s, a);
      && a.c in t.calls && CallOk(t.calls[a.c]) && t.calls[a.c].tab in t.tabs && t.calls[a.c].refresh <= t.issued
      && (forall tab | tab in t.tabs :: t.tabs[tab] <= t.issued)
  {
  }

  lemma InvStep(s: State, a: Action)
    requires Inv(s) && Enabled(s, a)
    ensures Inv(Next(s, a))
  {
    hide CallOk;
    forall c | c in Next(s, a).calls
      ensures CallOk(Next(s, a).calls[c]) && Next(s, a).calls[c].tab in Next(s, a).tabs
      ensures Next(s, a).calls[c].refresh <= Next(s, a).issued
    {
      if !a.EndSession? && a.c == c {
        CallStep(s, a);
      }
    }
    if !a.EndSession? {
      CallStep(s, a);
    }
  }

  lemma {:induction false} InvRun(s: State, actions: seq<Action>)
    requires Inv(s) && Runs(s, actions)
    ensures Inv(After(s, actions))
    decreases |actions|
  {
    if actions != [] {
      InvStep(s, actions[0]);
      InvRun(Next(s, actions[0]), actions[1..]);
    }
  }

  // Every mutate() issues at most two requests and is applied at most once; one
  // that ends in a CSRF error was applied not at all, one that succeeds once.
  lemma AppliedAtMostOnce(s0: State, actions: seq<Action>, c: CallId)
    requires Initial(s0) && Runs(s0, actions) && c in After(s0, actions).calls
    ensures
      var call := After(s0, actions).calls[c];
      && call.sends <= 2 && call.applied <= 1
      && (call.phase == Done(CsrfRejected) ==> call.applied == 0 && call.sends == 2)
      && (call.phase == Done(Success) && !call.alone ==> call.applied == 1)
  {
    InvRun(s0, actions);
  }

  // ---------- termination ----------

  function Rank(phase: Phase): nat {
    match phase
    case MeSent(Second) => 4
    case MeAnswered(Second, _) => 3
    case MutationSent(Second, _) => 2
    case MutationAnswered(Second, _) => 1
    case MeSent(_) => 8
    case MeAnswered(_, _) => 7
    case MutationSent(_, _) => 6
    case MutationAnswered(_, _) => 5
    case Done(_) => 0
  }

  // The call an action belongs to, once that call exists.
  predicate Moves(a: Action, c: CallId) {
    (a.ServeMe? || a.ReceiveMe? || a.ServeMutation? || a.ReceiveMutation?) && a.c == c
  }

  function Moved(actions: seq<Action>, c: CallId): nat {
    if actions == [] then 0 else (if Moves(actions[0], c) then 1 else 0) + Moved(actions[1..], c)
  }

  lemma RankStep(s: State, a: Action, c: CallId)
    requires Inv(s) && Enabled(s, a) && c in s.calls
    ensures
      var t := Next(s, a);
      c in t.calls && Rank(t.calls[c].phase) + (if Moves(a, c) then 1 else 0) <= Rank(s.calls[c].phase)
  {
  }

  // A call takes at most eight steps of its own, however the others interleave.
  lemma {:induction false} Terminates(s: State, actions: seq<Action>, c: CallId)
    requires Inv(s) && Runs(s, actions) && c in s.calls
    ensures c in After(s, actions).calls
    ensures Moved(actions, c) + Rank(After(s, actions).calls[c].phase) <= Rank(s.calls[c].phase) <= 8
    decreases |actions|
  {
    if actions != [] {
      RankStep(s, actions[0], c);
      InvStep(s, actions[0]);
      Terminates(Next(s, actions[0]), actions[1..], c);
    }
  }

  // And until it is done, some step of its own is possible.
  lemma NeverStuck(s: State, c: CallId) returns (a: Action)
    requires Inv(s) && c in s.calls && !s.calls[c].phase.Done?
    ensures Moves(a, c) && Enabled(s, a)
  {
    a := match s.calls[c].phase
      case MeSent(_) => ServeMe(c, s.live, true)
      case MeAnswered(_, _) => ReceiveMe(c)
      case MutationSent(_, _) => ServeMutation(c, true, false, true, true)
      case MutationAnswered(_, _) => ReceiveMutation(c);
  }

  // ---------- when the retry is accepted ----------

  function Rotations(actions: seq<Action>): nat {
    if actions == [] then 0
    else (if actions[0].ServeMe? && actions[0].rotates then 1 else 0) + Rotations(actions[1..])
  }

  lemma {:induction false} IssuedCountsRotations(s: State, actions: seq<Action>)
    requires Runs(s, actions)
    ensures After(s, actions).issued == s.issued + Rotations(actions)
    ensures After(s, actions).live <==> s.live && EndSession !in actions
    decreases |actions|
  {
    if actions != [] {
      IssuedCountsRotations(Next(s, actions[0]), actions[1..]);
      assert actions == [actions[0]] + actions[1..];
    }
  }

  // The call resends the token t of its refresh, and only once.
  predicate Resends(phase: Phase, t: Token) {
    phase == MeAnswered(Second, t) || phase == MutationSent(Second, t) || Rank(phase) <= 1
  }

  lemma ResendStep(s: State, a: Action, c: CallId, t: Token)
    requires Enabled(s, a) && c in s.calls && Resends(s.calls[c].phase, t)
    ensures c in Next(s, a).calls && Resends(Next(s, a).calls[c].phase, t)
  {
  }

  lemma {:induction false} ResendRun(s: State, actions: seq<Action>, c: CallId, t: Token)
    requires Runs(s, actions) && c in s.calls && Resends(s.calls[c].phase, t)
    ensures c in After(s, actions).calls && Resends(After(s, actions).calls[c].phase, t)
    decreases |actions|
  {
    if actions != [] {
      ResendStep(s, actions[0], c, t);
      ResendRun(Next(s, actions[0]), actions[1..], c, t);
    }
  }

  // The run between a call's refresh and the arrival of its resend.
  ghost predicate BetweenRefreshAndResend(s: State, c: CallId, actions: seq<Action>) {
    && Inv(s) && s.live && c in s.calls && s.calls[c].phase == MeSent(Second)
    && var refreshed := Next(s, ServeMe(c, true, true));
       Runs(refreshed, actions) && c in After(refreshed, actions).calls
       && After(refreshed, actions).calls[c].phase.MutationSent?
  }

  // The resend is admitted exactly when, since the call's own refresh, nobody
  // else rotated the token and the session was not ended. Otherwise a session
  // still alive turns it away, unapplied.
  lemma ResendAdmittedExactly(s: State, c: CallId, actions: seq<Action>, handlerOk: bool, delivered: bool)
    requires BetweenRefreshAndResend(s, c, actions)
    ensures
      var before := After(Next(s, ServeMe(c, true, true)), actions);
      var serve := ServeMutation(c, true, false, handlerOk, delivered);
      && Enabled(before, serve) && c in Next(before, serve).calls
      && var call := Next(before, serve).calls[c];
         && (call.applied == 1 <==> Rotations(actions) == 0 && EndSession !in actions)
         && (Rotations(actions) > 0 && EndSession !in actions && delivered ==>
               call.phase == MutationAnswered(Second, CsrfRejected) && call.applied == 0)
  {
    var refreshed := Next(s, ServeMe(c, true, true));
    InvStep(s, ServeMe(c, true, true));
    InvRun(refreshed, actions);
    ResendRun(refreshed, actions, c, refreshed.issued);
    IssuedCountsRotations(refreshed, actions);
  }

  lemma {:induction false} Steps(s: seq<State>, a: seq<Action>)
    requires |s| == |a| + 1 && forall i | 0 <= i < |a| :: Enabled(s[i], a[i]) && s[i + 1] == Next(s[i], a[i])
    ensures Runs(s[0], a) && After(s[0], a) == s[|a|]
    decreases |a|
  {
    hide Enabled, Next;
    if a != [] {
      assert forall i | 0 <= i < |a[1..]| :: a[1..][i] == a[i + 1] && s[1..][i] == s[i + 1];
      Steps(s[1..], a[1..]);
    }
  }

  // Losing is always possible: whatever reachable state a call waits in after
  // its refresh, a me() of any tab slipping in makes it end in a CSRF error.
  lemma RetryCanLose(s: State, c: CallId, other: CallId, tab: TabId) returns (actions: seq<Action>)
    requires Inv(s) && s.live && c in s.calls && other !in s.calls && tab in s.tabs
    requires s.calls[c].phase.MeAnswered? && s.calls[c].phase.stage == Second && s.calls[c].phase.token != 0
    ensures Runs(s, actions) && After(s, actions).live
    ensures c in After(s, actions).calls && After(s, actions).calls[c].phase == Done(CsrfRejected)
  {
    var s1 := Next(s, StartMe(other, tab));
    var s2 := Next(s1, ServeMe(other, true, true));
    var s3 := Next(s2, ReceiveMe(c));
    var s4 := Next(s3, ServeMutation(c, true, false, true, true));
    var s5 := Next(s4, ReceiveMutation(c));
    actions := [StartMe(other, tab), ServeMe(other, true, true), ReceiveMe(c),
                ServeMutation(c, true, false, true, true), ReceiveMutation(c)];
    assert CallOk(s.calls[c]) && s.calls[c].refresh <= s.issued;
    Steps([s, s1, s2, s3, s4, s5], actions);
  }

  lemma {:induction false} RunsAppend(s: State, a: seq<Action>, b: seq<Action>)
    requires Runs(s, a) && Runs(After(s, a), b)
    ensures Runs(s, a + b) && After(s, a + b) == After(After(s, a), b)
    decreases |a|
  {
    hide Enabled, Next;
    if a == [] {
      assert a + b == b;
    } else {
      RunsAppend(Next(s, a[0]), a[1..], b);
      assert (a + b)[1..] == a[1..] + b && (a + b)[0] == a[0];
    }
  }

  // What an undisturbed mutation leaves behind.
  predicate WentThrough(t: State, c: CallId, tab: TabId, sends: nat) {
    && c in t.calls && t.calls[c].phase == Done(Success) && t.calls[c].applied == 1 && t.calls[c].sends == sends
    && tab in t.tabs && t.tabs[tab] == t.issued
  }

  predicate OwnSteps(actions: seq<Action>, c: CallId, tab: TabId) {
    forall a | a in actions :: a == StartMutation(c, tab) || Moves(a, c)
  }

  function Serve(c: CallId): Action {
    ServeMutation(c, true, false, true, true)
  }

  // From the request of a new token on.
  lemma RefreshAndSend(s: State, c: CallId) returns (actions: seq<Action>)
    requires s.live && c in s.calls && s.calls[c].phase in {MeSent(First), MeSent(Second)}
    requires s.calls[c].applied == 0 && s.calls[c].tab in s.tabs
    ensures Runs(s, actions) && OwnSteps(actions, c, s.calls[c].tab)
    ensures WentThrough(After(s, actions), c, s.calls[c].tab, s.calls[c].sends + 1)
  {
    var s1 := Next(s, ServeMe(c, true, true));
    var s2 := Next(s1, ReceiveMe(c));
    var s3 := Next(s2, Serve(c));
    var s4 := Next(s3, ReceiveMutation(c));
    actions := [ServeMe(c, true, true), ReceiveMe(c), Serve(c), ReceiveMutation(c)];
    Steps([s, s1, s2, s3, s4], actions);
  }

  // A send with the token the tab holds: accepted, or turned away.
  lemma FirstSend(s: State, c: CallId, tab: TabId) returns (actions: seq<Action>)
    requires s.live && c !in s.calls && tab in s.tabs && s.tabs[tab] != 0
    ensures Runs(s, actions) && OwnSteps(actions, c, tab)
    ensures
      var t := After(s, actions);
      && t.live && t.tabs == s.tabs && c in t.calls && t.calls[c].tab == tab && t.calls[c].sends == 1
      && (if s.tabs[tab] == s.issued then WentThrough(t, c, tab, 1)
          else t.calls[c].phase == MeSent(Second) && t.calls[c].applied == 0)
  {
    var s1 := Next(s, StartMutation(c, tab));
    var s2 := Next(s1, Serve(c));
    var s3 := Next(s2, ReceiveMutation(c));
    actions := [StartMutation(c, tab), Serve(c), ReceiveMutation(c)];
    Steps([s, s1, s2, s3], actions);
  }

  lemma JustStart(s: State, c: CallId, tab: TabId)
    requires s.live && c !in s.calls && tab in s.tabs && s.tabs[tab] == 0
    ensures Runs(s, [StartMutation(c, tab)])
    ensures
      var t := After(s, [StartMutation(c, tab)]);
      && t.live && t.tabs == s.tabs && c in t.calls && t.calls[c].tab == tab && t.calls[c].sends == 0
      && t.calls[c].phase == MeSent(First) && t.calls[c].applied == 0
  {
    Steps([s, Next(s, StartMutation(c, tab))], [StartMutation(c, tab)]);
  }

  // What a mutation on its way comes to: it is applied exactly if it gets to a
  // live session with the stored token, and only an answer that gets back tells
  // the call so.
  lemma MutationServed(s: State, c: CallId, reached: bool, lateExpiry: bool, handlerOk: bool, delivered: bool)
    requires Enabled(s, ServeMutation(c, reached, lateExpiry, handlerOk, delivered))
    ensures
      var before, t := s.calls[c], Next(s, ServeMutation(c, reached, lateExpiry, handlerOk, delivered));
      var admitted := s.live && before.phase.token != 0 && before.phase.token == s.issued;
      && c in t.calls && t.calls[c].phase.MutationAnswered? && t.calls[c].sends == before.sends
      && t.calls[c].applied == before.applied + (if reached && admitted then 1 else 0)
      && (t.calls[c].phase.outcome == Success <==> reached && delivered && admitted && handlerOk)
      && (t.calls[c].phase.outcome == CsrfRejected <==> reached && delivered && !admitted && (s.live || lateExpiry))
      && t.issued == s.issued && t.live == s.live && t.tabs == s.tabs
  {
  }

  // A bare me() that nobody disturbs leaves the stored token in its tab, and one
  // whose answer is lost, or finds no session, leaves the tab as it was.
  lemma MeAlone(s: State, c: CallId, tab: TabId, rotates: bool, delivered: bool)
    requires c !in s.calls && tab in s.tabs && (rotates ==> s.live)
    ensures
      var actions := [StartMe(c, tab), ServeMe(c, rotates, delivered), ReceiveMe(c)];
      && Runs(s, actions)
      && var t := After(s, actions);
         && t.issued == s.issued + (if rotates then 1 else 0) && c in t.calls && tab in t.tabs
         && (if rotates && delivered then t.calls[c].phase == Done(Success) && t.tabs[tab] == t.issued
             else t.calls[c].phase == Done(OtherError) && t.tabs[tab] == s.tabs[tab])
         && t.calls[c].sends == 0
  {
    var s1 := Next(s, StartMe(c, tab));
    var s2 := Next(s1, ServeMe(c, rotates, delivered));
    var s3 := Next(s2, ReceiveMe(c));
    Steps([s, s1, s2, s3], [StartMe(c, tab), ServeMe(c, rotates, delivered), ReceiveMe(c)]);
  }

  // A mutation that nobody disturbs goes through in any state of a live
  // session, whatever token its tab holds: with one send if that is the stored
  // one or none at all, and with two otherwise.
  lemma AloneSucceeds(s: State, c: CallId, tab: TabId) returns (actions: seq<Action>)
    requires Inv(s) && s.live && c !in s.calls && tab in s.tabs
    ensures Runs(s, actions) && OwnSteps(actions, c, tab)
    ensures WentThrough(After(s, actions), c, tab, if s.tabs[tab] in {0, s.issued} then 1 else 2)
  {
    hide Runs, After, WentThrough, Moves;
    if s.tabs[tab] == 0 {
      JustStart(s, c, tab);
      actions := [StartMutation(c, tab)];
    } else {
      actions := FirstSend(s, c, tab);
    }
    if s.tabs[tab] != s.issued {
      var more := RefreshAndSend(After(s, actions), c);
      RunsAppend(s, actions, more);
      actions := actions + more;
    }
  }
}
