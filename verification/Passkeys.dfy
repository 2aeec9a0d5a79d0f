/**
 * Passkey flows: saved under a fresh token, consumed at most once, for the
 * purpose they were begun for, before they expire.
 */
module Passkeys {
  import opened AsciiText
  import opened Wrappers

  // Five minutes, in nanoseconds.
  const FLOW_TTL: int := 5 * 60 * 1_000_000_000

  datatype Flow = Flow(id: string, purpose: string, userId: string, expiresAt: int)

  type Flows = map<string, Flow>

  predicate Expired(f: Flow, now: int) {
    f.expiresAt <= now
  }

  function Cleaned(flows: Flows, now: int): Flows {
    map id | id in flows && !Expired(flows[id], now) :: flows[id]
  }

  function Begun(flow: Flow, token: string, computedAt: int): Flow {
    flow.(id := token, expiresAt := computedAt + FLOW_TTL)
  }

  // The flow a consume attempt gets, if any.
  function Granted(flows: Flows, id: string, purpose: string, now: int): Option<Flow> {
    if !Blank(id) && id in flows && flows[id].purpose == purpose && !Expired(flows[id], now) then Some(flows[id]) else None
  }

  function Remaining(flows: Flows, id: string, now: int): Flows {
    if Blank(id) then flows else Cleaned(flows, now) - {id}
  }

  class FlowTable {
    var flows: Flows

    constructor ()
      ensures flows == map[]
    {
      flows := map[];
    }

    method Cleanup(now: int)
      modifies this
      ensures flows == Cleaned(old(flows), now)
      ensures forall id :: id in flows <==> id in old(flows) && old(flows)[id].expiresAt > now
    {
      var unchecked := flows.Keys;
      while unchecked != {}
        invariant unchecked <= old(flows).Keys
        invariant flows == map id | id in old(flows) && (id in unchecked || !Expired(old(flows)[id], now)) :: old(flows)[id]
        decreases |unchecked|
      {
        var id :| id in unchecked;
        unchecked := unchecked - {id};
        if flows[id].expiresAt <= now {
          flows := flows - {id};
        }
      }
    }

    // Without a token nothing is saved. The expiry is computed before the lock
    // is taken, the cleanup after it.
    method Save(flow: Flow, token: Option<string>, computedAt: int, now: int) returns (id: Option<string>)
      modifies this
      ensures id == token
      ensures token.None? ==> flows == old(flows)
      ensures token.Some? ==> flows == Cleaned(old(flows), now)[token.value := Begun(flow, token.value, computedAt)]
      // Five minutes are 300 seconds of a billion nanoseconds.
      ensures token.Some? ==>
                && token.value in flows
                && flows[token.value] == Flow(token.value, flow.purpose, flow.userId, computedAt + 300_000_000_000)
                && forall id | id != token.value :: id in flows <==> id in old(flows) && old(flows)[id].expiresAt > now
    {
      if token.None? {
        return None;
      }
      var saved := flow.(id := token.value, expiresAt := computedAt + FLOW_TTL);
      Cleanup(now);
      flows := flows[saved.id := saved];
      return Some(saved.id);
    }

    method Consume(id: string, purpose: string, now: int) returns (result: Option<Flow>)
      modifies this
      ensures result == Granted(old(flows), id, purpose, now)
      ensures flows == Remaining(old(flows), id, now)
      ensures result.Some? <==>
              !Blank(id) && id in old(flows) && old(flows)[id].purpose == purpose && now < old(flows)[id].expiresAt
      ensures result.Some? ==> result.value == old(flows)[id]
      ensures !Blank(id) ==> forall x :: x in flows <==> x != id && x in old(flows) && now < old(flows)[x].expiresAt
    {
      if Blank(id) {
        return None;
      }
      Cleanup(now);
      if id !in flows || flows[id].purpose != purpose || flows[id].expiresAt <= now {
        flows := flows - {id};
        return None;
      }
      result := Some(flows[id]);
      flows := flows - {id};
    }
  }

  // ---------- runs ----------

  // A successful consumption: what was asked, when, and the flow handed out.
  datatype Success = Success(id: string, purpose: string, at: int, flow: Flow)

  datatype State = State(
    now: int,
    flows: Flows,
    begun: map<string, Flow>,    // every flow ever saved, as it was saved
    tried: set<string>,          // ids of saved flows some consume has named
    successes: seq<Success>
  )

  datatype Action =
    | Tick(now: int)
    | Save(flow: Flow, token: string, computedAt: int)
    | Consume(id: string, purpose: string)

  // Tokens are fresh and not blank.
  predicate Enabled(s: State, a: Action) {
    match a
    case Tick(now) => s.now <= now
    case Save(_, token, computedAt) => token !in s.begun && !Blank(token) && computedAt <= s.now
    case Consume(_, _) => true
  }

  function Next(s: State, a: Action): State
    requires Enabled(s, a)
  {
    match a
    case Tick(now) => s.(now := now)
    case Save(flow, token, computedAt) =>
      var f := Begun(flow, token, computedAt);
      s.(flows := Cleaned(s.flows, s.now)[token := f], begun := s.begun[token := f])
    case Consume(id, purpose) =>
      var granted := Granted(s.flows, id, purpose, s.now);
      s.(flows := Remaining(s.flows, id, s.now),
         tried := if id in s.begun then s.tried + {id} else s.tried,
         successes := if granted.Some? then s.successes + [Success(id, purpose, s.now, granted.value)] else s.successes)
  }

  function Init(now: int): State {
    State(now, map[], map[], {}, [])
  }

  predicate Runs(s: State, actions: seq<Action>)
    decreases |actions|
  {
    actions == [] || (Enabled(s, actions[0]) && Runs(Next(s, actions[0]), actions[1..]))
  }

  function After(s: State, actions: seq<Action>): State
    requires Runs(s, actions)
    decreases |actions|
  {
    if actions == [] then s else After(Next(s, actions[0]), actions[1..])
  }

  predicate SuccessOk(s: State, x: Success) {
    && x.id in s.begun && x.flow == s.begun[x.id] && x.flow.id == x.id
    && x.flow.purpose == x.purpose && x.at < x.flow.expiresAt && x.at <= s.now
    && x.id in s.tried
  }

  ghost predicate Inv(s: State) {
    && (forall id | id in s.begun :: s.begun[id].id == id && !Blank(id))
    && (forall id | id in s.flows :: id in s.begun && s.flows[id] == s.begun[id] && id !in s.tried)
    && s.tried <= s.begun.Keys
    && (forall i | 0 <= i < |s.successes| :: SuccessOk(s, s.successes[i]))
    && (forall i, j | 0 <= i < j < |s.successes| :: s.successes[i].id != s.successes[j].id)
  }

  lemma InvStep(s: State, a: Action)
    requires Inv(s) && Enabled(s, a)
    ensures Inv(Next(s, a))
  {
    hide Blank;
    var t := Next(s, a);
    forall i | 0 <= i < |s.successes|
      ensures SuccessOk(t, s.successes[i])
    {
      assert SuccessOk(s, s.successes[i]);
    }
  }

  lemma {:induction false} InvRun(s: State, actions: seq<Action>)
    requires Inv(s) && Runs(s, actions)
    ensures Inv(After(s, actions))
    decreases |actions|
  {
    hide Inv, Enabled, Next;
    if actions != [] {
      InvStep(s, actions[0]);
      InvRun(Next(s, actions[0]), actions[1..]);
    }
  }

  // Over every run each flow is handed out at most once, as it was saved, for
  // its own purpose, and strictly before it expires.
  lemma SingleUse(start: int, actions: seq<Action>)
    requires Runs(Init(start), actions)
    ensures
      var s := After(Init(start), actions);
      && (forall i, j | 0 <= i < j < |s.successes| :: s.successes[i].id != s.successes[j].id)
      && (forall x | x in s.successes ::
            x.id in s.begun && x.flow == s.begun[x.id] && x.flow.purpose == x.purpose && x.at < x.flow.expiresAt)
  {
    InvRun(Init(start), actions);
    var s := After(Init(start), actions);
    forall x | x in s.successes
      ensures x.id in s.begun && x.flow == s.begun[x.id] && x.flow.purpose == x.purpose && x.at < x.flow.expiresAt
    {
      assert SuccessOk(s, x);
    }
  }

  lemma {:induction false} TriedStays(s: State, actions: seq<Action>, id: string)
    requires Runs(s, actions) && id in s.tried
    ensures id in After(s, actions).tried
    decreases |actions|
  {
    if actions != [] {
      TriedStays(Next(s, actions[0]), actions[1..], id);
    }
  }

  // Naming a saved flow in a consume, even for the wrong purpose, spends it:
  // no later attempt on that id succeeds.
  lemma AttemptSpends(start: int, before: seq<Action>, id: string, wrong: string, later: seq<Action>, purpose: string)
    requires Runs(Init(start), before) && id in After(Init(start), before).begun
    requires Runs(Next(After(Init(start), before), Consume(id, wrong)), later)
    ensures
      var s := After(Next(After(Init(start), before), Consume(id, wrong)), later);
      Granted(s.flows, id, purpose, s.now) == None
  {
    var s := After(Init(start), before);
    InvRun(Init(start), before);
    InvStep(s, Consume(id, wrong));
    var t := Next(s, Consume(id, wrong));
    InvRun(t, later);
    TriedStays(t, later, id);
  }

  // A saved flow that nobody has tried yet is there to be consumed, for its
  // purpose, for as long as it has not expired.
  ghost predicate Available(s: State) {
    forall id | id in s.begun && id !in s.tried && !Expired(s.begun[id], s.now) :: id in s.flows
  }

  lemma AvailableStep(s: State, a: Action)
    requires Inv(s) && Available(s) && Enabled(s, a)
    ensures Available(Next(s, a))
  {
    hide Blank;
  }

  lemma {:induction false} AvailableRun(s: State, actions: seq<Action>)
    requires Inv(s) && Available(s) && Runs(s, actions)
    ensures Available(After(s, actions))
    decreases |actions|
  {
    hide Inv, Available, Enabled, Next;
    if actions != [] {
      AvailableStep(s, actions[0]);
      InvStep(s, actions[0]);
      AvailableRun(Next(s, actions[0]), actions[1..]);
    }
  }

  // So a consume succeeds exactly when it names a saved, untried, unexpired
  // flow for the purpose it was begun for.
  lemma ConsumeExactly(start: int, actions: seq<Action>, id: string, purpose: string)
    requires Runs(Init(start), actions)
    ensures
      var s := After(Init(start), actions);
      Granted(s.flows, id, purpose, s.now).Some? <==>
        id in s.begun && id !in s.tried && s.begun[id].purpose == purpose && !Expired(s.begun[id], s.now)
  {
    InvRun(Init(start), actions);
    AvailableRun(Init(start), actions);
  }

  // Right after a save or a consume the table holds no expired flow (a save
  // whose expiry was computed a whole lifetime ago aside).
  lemma NoExpiredSurvivor(s: State, a: Action)
    requires Enabled(s, a) && !a.Tick?
    requires a.Consume? ==> !Blank(a.id)
    requires a.Save? ==> s.now < a.computedAt + FLOW_TTL
    ensures forall id | id in Next(s, a).flows :: !Expired(Next(s, a).flows[id], Next(s, a).now)
  {
  }

  // A flow can be consumed, for its purpose, for less than five minutes.
  lemma FiveMinutes(s: State, flow: Flow, token: string, computedAt: int, purpose: string, at: int)
    requires Enabled(s, Save(flow, token, computedAt))
    ensures
      var granted := Granted(Next(s, Save(flow, token, computedAt)).flows, token, purpose, at);
      && (granted.Some? <==> purpose == flow.purpose && at < computedAt + 300_000_000_000)
      && (granted.Some? ==> granted.value == Flow(token, flow.purpose, flow.userId, computedAt + 300_000_000_000))
  {
    hide Blank;
  }

  lemma RunsCons(s: State, a: Action, rest: seq<Action>)
    requires Enabled(s, a) && Runs(Next(s, a), rest)
    ensures Runs(s, [a] + rest) && After(s, [a] + rest) == After(Next(s, a), rest)
  {
  }

  // From the empty table: a saved flow is handed out to a consume at a later
  // moment exactly if that is less than five minutes later.
  lemma SaveThenConsume(start: int, flow: Flow, token: string, at: int)
    requires !Blank(token) && at >= start
    ensures
      var actions := [Save(flow, token, start), Tick(at), Consume(token, flow.purpose)];
      && Runs(Init(start), actions)
      && After(Init(start), actions).successes ==
           if at < start + 300_000_000_000
           then [Success(token, flow.purpose, at, Flow(token, flow.purpose, flow.userId, start + 300_000_000_000))] else []
  {
    hide Blank;
    var s1 := Next(Init(start), Save(flow, token, start));
    var s2 := Next(s1, Tick(at));
    var s3 := Next(s2, Consume(token, flow.purpose));
    RunsCons(s2, Consume(token, flow.purpose), []);
    RunsCons(s1, Tick(at), [Consume(token, flow.purpose)]);
    RunsCons(Init(start), Save(flow, token, start), [Tick(at), Consume(token, flow.purpose)]);
    assert [Consume(token, flow.purpose)] + [] == [Consume(token, flow.purpose)];
    assert [Tick(at)] + [Consume(token, flow.purpose)] == [Tick(at), Consume(token, flow.purpose)];
    assert [Save(flow, token, start)] + [Tick(at), Consume(token, flow.purpose)]
           == [Save(flow, token, start), Tick(at), Consume(token, flow.purpose)];
  }
}
