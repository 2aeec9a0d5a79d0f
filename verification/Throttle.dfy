/**
 * The login throttle: a list of failure times per key, pruned to a sliding
 * window whenever it is looked at, with the check and the recording of a
 * failure in separate critical sections.
 */
module Throttle {

  // The failures strictly after the start of the window.
  function Compact(failures: seq<int>, windowStart: int): seq<int> {
    if failures == [] then []
    else (if failures[0] > windowStart then [failures[0]] else []) + Compact(failures[1..], windowStart)
  }

  lemma {:induction false} CompactSnoc(failures: seq<int>, t: int, windowStart: int)
    ensures Compact(failures + [t], windowStart) ==
            Compact(failures, windowStart) + (if t > windowStart then [t] else [])
  {
    if failures == [] {
      assert failures + [t] == [t];
    } else {
      CompactSnoc(failures[1..], t, windowStart);
      assert (failures + [t])[1..] == failures[1..] + [t];
    }
  }

  // Pruning for a later window does not need what an earlier pruning dropped.
  lemma {:induction false} CompactTwice(failures: seq<int>, earlier: int, later: int)
    requires earlier <= later
    ensures Compact(Compact(failures, earlier), later) == Compact(failures, later)
  {
    if failures != [] {
      CompactTwice(failures[1..], earlier, later);
      if failures[0] > earlier {
        var rest := Compact(failures[1..], earlier);
        assert ([failures[0]] + rest)[1..] == rest;
      } else {
        assert [] + Compact(failures[1..], earlier) == Compact(failures[1..], earlier);
      }
    }
  }

  lemma NothingKept(windowStart: int)
    ensures Compact([], windowStart) == []
  {
  }

  // As many are kept as are after the start of the window.
  lemma {:induction false} CompactCounts(failures: seq<int>, windowStart: int)
    ensures |Compact(failures, windowStart)| == |set i: nat | i < |failures| && failures[i] > windowStart|
  {
    hide Compact;
    NothingKept(windowStart);
    var found := set i: nat | i < |failures| && failures[i] > windowStart;
    if failures == [] {
      assert found == {};
    } else {
      var n := |failures| - 1;
      var init, last := failures[..n], failures[n];
      CompactCounts(init, windowStart);
      CompactSnoc(init, last, windowStart);
      assert failures == init + [last];
      var before := set i: nat | i < n && init[i] > windowStart;
      assert found == if last > windowStart then before + {n} else before;
    }
  }

  // And they are exactly those.
  lemma {:induction false} CompactMembers(failures: seq<int>, windowStart: int, t: int)
    ensures multiset(Compact(failures, windowStart))[t] == if t > windowStart then multiset(failures)[t] else 0
  {
    hide Compact;
    NothingKept(windowStart);
    if failures != [] {
      var init, last := failures[..|failures| - 1], failures[|failures| - 1];
      CompactMembers(init, windowStart, t);
      CompactSnoc(init, last, windowStart);
      assert failures == init + [last];
    }
  }

  // compactFailures: filters into the front of its own backing array.
  method CompactInPlace(input: array<int>, length: nat, windowStart: int) returns (kept: nat)
    requires length <= input.Length
    modifies input
    ensures kept <= length
    ensures input[..kept] == Compact(old(input[..length]), windowStart)
    ensures input[length..] == old(input[length..])
  {
    kept := 0;
    for i := 0 to length
      invariant 0 <= kept <= i
      invariant input[..kept] == Compact(old(input[..i]), windowStart)
      invariant input[i..] == old(input[i..])
    {
      var failure := input[i];
      assert failure == old(input[i..])[0] == old(input[i]);
      assert old(input[..i + 1]) == old(input[..i]) + [failure];
      CompactSnoc(old(input[..i]), failure, windowStart);
      if failure > windowStart {
        input[kept] := failure;
        kept := kept + 1;
      }
      assert input[i + 1..] == old(input[i..])[1..];
    }
  }

  class LoginThrottle {
    const limit: int
    const window: nat
    var failures: map<string, seq<int>>

    constructor (limit: int, window: nat)
      ensures this.limit == limit && this.window == window && failures == map[]
    {
      this.limit, this.window := limit, window;
      failures := map[];
    }

    function List(key: string): seq<int>
      reads this
    {
      if key in failures then failures[key] else []
    }

    method Throttled(key: string, now: int) returns (blocked: bool)
      modifies this
      ensures failures == old(failures)[key := Compact(old(List(key)), now - window)]
      ensures blocked <==> |Compact(old(List(key)), now - window)| >= limit
      ensures blocked <==>
              |set i: nat | i < |old(List(key))| && old(List(key))[i] > now - window| >= limit
    {
      CompactCounts(List(key), now - window);
      var kept := Compact(List(key), now - window);
      failures := failures[key := kept];
      return |kept| >= limit;
    }

    // The clock is read twice: for the window, and for the recorded time.
    method RecordFailure(key: string, now: int, recorded: int)
      requires now <= recorded
      modifies this
      ensures failures == old(failures)[key := Compact(old(List(key)), now - window) + [recorded]]
    {
      var kept := Compact(List(key), now - window);
      failures := failures[key := kept + [recorded]];
    }

    method ClearFailures(key: string)
      modifies this
      ensures failures == old(failures) - {key}
    {
      failures := failures - {key};
    }
  }

  datatype Login = Refused | WrongPassword | LoggedIn

  // handlePasswordLogin, run without interference: a blocked key is turned away
  // before its password is looked at, and a good login forgets its failures.
  method HandlePasswordLogin(t: LoginThrottle, key: string, correct: bool, checkedAt: int, reportedAt: int) returns (r: Login)
    requires checkedAt <= reportedAt
    modifies t
    ensures r == Refused <==> |Compact(old(t.List(key)), checkedAt - t.window)| >= t.limit
    ensures r == LoggedIn ==> correct && t.List(key) == []
    ensures r == WrongPassword ==>
              !correct && t.List(key) == Compact(old(t.List(key)), reportedAt - t.window) + [reportedAt]
    ensures r == Refused ==> t.List(key) == Compact(old(t.List(key)), checkedAt - t.window)
    ensures forall other | other != key :: t.List(other) == old(t.List(other))
  {
    ghost var before := t.List(key);
    var blocked := t.Throttled(key, checkedAt);
    if blocked {
      return Refused;
    }
    if !correct {
      t.RecordFailure(key, reportedAt, reportedAt);
      CompactTwice(before, checkedAt - t.window, reportedAt - t.window);
      return WrongPassword;
    }
    t.ClearFailures(key);
    return LoggedIn;
  }

  // ---------- concurrent login handlers for one key ----------

  datatype State = State(
    now: int,
    list: seq<int>,       // what the throttle stores for the key
    history: seq<int>,    // every failure recorded since the last clear
    verifying: nat        // handlers past the check that have not reported yet
  )

  datatype Action =
    | Tick(now: int)
    | Check                  // throttled(): the handler goes on only if it is not blocked
    | Fail(recorded: int)    // wrong credentials: recordFailure()
    | Succeed                // right credentials: clearFailures()

  datatype Config = Config(limit: int, window: nat)

  function Pruned(c: Config, s: State): seq<int> {
    Compact(s.list, s.now - c.window)
  }

  predicate Blocked(c: Config, s: State) {
    |Pruned(c, s)| >= c.limit
  }

  predicate Enabled(s: State, a: Action) {
    match a
    case Tick(now) => s.now <= now
    case Check => true
    case Fail(recorded) => s.verifying > 0 && s.now <= recorded
    case Succeed => s.verifying > 0
  }

  function Next(c: Config, s: State, a: Action): State
    requires Enabled(s, a)
  {
    match a
    case Tick(now) => s.(now := now)
    case Check => s.(list := Pruned(c, s), verifying := s.verifying + if Blocked(c, s) then 0 else 1)
    case Fail(recorded) =>
      s.(now := recorded, list := Pruned(c, s) + [recorded], history := s.history + [recorded], verifying := s.verifying - 1)
    case Succeed => s.(list := [], history := [], verifying := s.verifying - 1)
  }

  function Init(now: int): State {
    State(now, [], [], 0)
  }

  predicate Runs(c: Config, s: State, actions: seq<Action>)
    decreases |actions|
  {
    actions == [] || (Enabled(s, actions[0]) && Runs(c, Next(c, s, actions[0]), actions[1..]))
  }

  function After(c: Config, s: State, actions: seq<Action>): State
    requires Runs(c, s, actions)
    decreases |actions|
  {
    if actions == [] then s else After(c, Next(c, s, actions[0]), actions[1..])
  }

  // At no point of the run are more than k handlers between check and report.
  predicate AtMost(c: Config, s: State, actions: seq<Action>, k: nat)
    requires Runs(c, s, actions)
    decreases |actions|
  {
    s.verifying <= k && (actions == [] || AtMost(c, Next(c, s, actions[0]), actions[1..], k))
  }

  // Failures in the window (end - window, end].
  function InWindow(history: seq<int>, end: int, window: nat): nat {
    if history == [] then 0
    else InWindow(history[..|history| - 1], end, window)
         + if end - window < history[|history| - 1] <= end then 1 else 0
  }

  lemma {:induction false} InWindowCounts(history: seq<int>, end: int, window: nat)
    ensures InWindow(history, end, window) == |set i: nat | i < |history| && end - window < history[i] <= end|
  {
    var found := set i: nat | i < |history| && end - window < history[i] <= end;
    if history == [] {
      assert found == {};
    } else {
      var n := |history| - 1;
      var init, last := history[..n], history[n];
      InWindowCounts(init, end, window);
      var before := set i: nat | i < n && end - window < init[i] <= end;
      assert found == if end - window < last <= end then before + {n} else before;
    }
  }

  // ---------- the pruned list answers like the full history ----------

  ghost predicate ListInv(c: Config, s: State) {
    && (forall i | 0 <= i < |s.history| :: s.history[i] <= s.now)
    && Compact(s.list, s.now - c.window) == Compact(s.history, s.now - c.window)
  }

  lemma ListInvStep(c: Config, s: State, a: Action)
    requires ListInv(c, s) && Enabled(s, a)
    ensures ListInv(c, Next(c, s, a))
  {
    hide Compact;
    var t := Next(c, s, a);
    var before, after := s.now - c.window, t.now - c.window;
    match a {
      case Tick(_) =>
        CompactTwice(s.list, before, after);
        CompactTwice(s.history, before, after);
      case Check =>
        CompactTwice(s.list, before, before);
      case Fail(recorded) =>
        CompactTwice(s.list, before, after);
        CompactTwice(s.history, before, after);
        CompactSnoc(Pruned(c, s), recorded, after);
        CompactSnoc(s.history, recorded, after);
      case Succeed =>
    }
  }

  lemma {:induction false} ListInvRun(c: Config, s: State, actions: seq<Action>)
    requires ListInv(c, s) && Runs(c, s, actions)
    ensures ListInv(c, After(c, s, actions))
    decreases |actions|
  {
    if actions != [] {
      ListInvStep(c, s, actions[0]);
      ListInvRun(c, Next(c, s, actions[0]), actions[1..]);
    }
  }

  lemma {:induction false} CountIsCompact(history: seq<int>, end: int, window: nat)
    requires forall i | 0 <= i < |history| :: history[i] <= end
    ensures InWindow(history, end, window) == |Compact(history, end - window)|
  {
    if history != [] {
      var init, last := history[..|history| - 1], history[|history| - 1];
      CountIsCompact(init, end, window);
      CompactSnoc(init, last, end - window);
      assert history == init + [last];
    }
  }

  // Pruning never changes an answer: throttled() decides as if it still had
  // every failure since the last clear.
  lemma AnswersLikeHistory(c: Config, start: int, actions: seq<Action>)
    requires Runs(c, Init(start), actions)
    ensures
      var s := After(c, Init(start), actions);
      Blocked(c, s) <==> InWindow(s.history, s.now, c.window) >= c.limit
  {
    ListInvRun(c, Init(start), actions);
    var s := After(c, Init(start), actions);
    CountIsCompact(s.history, s.now, c.window);
  }

  // ---------- the bound ----------

  function Bound(c: Config, k: nat): int {
    if c.limit <= 0 then 0 else c.limit - 1 + k
  }

  ghost predicate NoWindowExceeds(history: seq<int>, window: nat, bound: int) {
    forall end :: InWindow(history, end, window) <= bound
  }

  // Recent failures plus handlers still verifying; and every past window.
  ghost predicate BoundInv(c: Config, s: State, k: nat) {
    && ListInv(c, s)
    && InWindow(s.history, s.now, c.window) + s.verifying <= Bound(c, k)
    && NoWindowExceeds(s.history, c.window, Bound(c, k))
  }

  // A window that ends later holds no more once all failures are in the past.
  lemma {:induction false} LaterWindow(history: seq<int>, now: int, later: int, window: nat)
    requires forall i | 0 <= i < |history| :: history[i] <= now
    requires now <= later
    ensures InWindow(history, later, window) <= InWindow(history, now, window)
  {
    if history != [] {
      LaterWindow(history[..|history| - 1], now, later, window);
    }
  }

  lemma InWindowSnoc(history: seq<int>, t: int, end: int, window: nat)
    ensures InWindow(history + [t], end, window) ==
            InWindow(history, end, window) + if end - window < t <= end then 1 else 0
  {
    assert (history + [t])[..|history|] == history;
  }

  // One failure more, not earlier than the rest: no window overflows if the
  // current one had room.
  lemma OneMoreFailure(history: seq<int>, now: int, recorded: int, window: nat, bound: int)
    requires forall i | 0 <= i < |history| :: history[i] <= now
    requires now <= recorded && InWindow(history, now, window) < bound
    requires NoWindowExceeds(history, window, bound)
    ensures NoWindowExceeds(history + [recorded], window, bound)
    ensures InWindow(history + [recorded], recorded, window) <= InWindow(history, now, window) + 1
  {
    hide InWindow;
    forall end
      ensures InWindow(history + [recorded], end, window) <= bound
    {
      InWindowSnoc(history, recorded, end, window);
      if end >= recorded {
        LaterWindow(history, now, end, window);
      }
    }
    InWindowSnoc(history, recorded, recorded, window);
    LaterWindow(history, now, recorded, window);
  }

  lemma NoFailures(window: nat, end: int)
    ensures InWindow([], end, window) == 0 && Compact([], end) == []
  {
  }

  lemma FailStep(c: Config, s: State, recorded: int, k: nat)
    requires BoundInv(c, s, k) && Enabled(s, Fail(recorded))
    ensures BoundInv(c, Next(c, s, Fail(recorded)), k)
  {
    hide InWindow, Compact, NoWindowExceeds, Bound;
    ListInvStep(c, s, Fail(recorded));
    OneMoreFailure(s.history, s.now, recorded, c.window, Bound(c, k));
  }

  lemma CheckStep(c: Config, s: State, k: nat)
    requires BoundInv(c, s, k) && Next(c, s, Check).verifying <= k
    ensures BoundInv(c, Next(c, s, Check), k)
  {
    hide InWindow, Compact, NoWindowExceeds;
    ListInvStep(c, s, Check);
    CountIsCompact(s.history, s.now, c.window);
  }

  lemma EmptyBound(c: Config, k: nat)
    ensures Bound(c, k) >= 0 ==> NoWindowExceeds([], c.window, Bound(c, k))
  {
  }

  lemma BoundInvStep(c: Config, s: State, a: Action, k: nat)
    requires BoundInv(c, s, k) && Enabled(s, a) && Next(c, s, a).verifying <= k
    ensures BoundInv(c, Next(c, s, a), k)
  {
    hide InWindow, Compact, NoWindowExceeds, Bound;
    match a {
      case Tick(now) =>
        ListInvStep(c, s, a);
        LaterWindow(s.history, s.now, now, c.window);
      case Check =>
        CheckStep(c, s, k);
      case Fail(recorded) =>
        FailStep(c, s, recorded, k);
      case Succeed =>
        EmptyBound(c, k);
        ListInvStep(c, s, a);
        NoFailures(c.window, s.now);
    }
  }

  lemma {:induction false} BoundInvRun(c: Config, s: State, actions: seq<Action>, k: nat)
    requires BoundInv(c, s, k) && Runs(c, s, actions) && AtMost(c, s, actions, k)
    ensures BoundInv(c, After(c, s, actions), k)
    decreases |actions|
  {
    if actions != [] {
      BoundInvStep(c, s, actions[0], k);
      BoundInvRun(c, Next(c, s, actions[0]), actions[1..], k);
    }
  }

  // With at most k handlers between check and report, no window of the
  // configured length ever holds more than limit + k - 1 failures.
  lemma WindowBound(c: Config, start: int, actions: seq<Action>, k: nat, end: int)
    requires Runs(c, Init(start), actions) && AtMost(c, Init(start), actions, k)
    ensures InWindow(After(c, Init(start), actions).history, end, c.window) <= Bound(c, k)
    ensures
      var history := After(c, Init(start), actions).history;
      |set i: nat | i < |history| && end - c.window < history[i] <= end| <= if c.limit <= 0 then 0 else c.limit + k - 1
  {
    BoundInvRun(c, Init(start), actions, k);
    InWindowCounts(After(c, Init(start), actions).history, end, c.window);
  }

  // ---------- across successful logins ----------

  // Every failure a run records, also those a later success forgets.
  function Recorded(actions: seq<Action>): seq<int> {
    if actions == [] then []
    else (if actions[0].Fail? then [actions[0].recorded] else []) + Recorded(actions[1..])
  }

  function Successes(actions: seq<Action>): nat {
    if actions == [] then 0 else (if actions[0].Succeed? then 1 else 0) + Successes(actions[1..])
  }

  lemma {:induction false} InWindowAppend(a: seq<int>, b: seq<int>, end: int, window: nat)
    ensures InWindow(a + b, end, window) == InWindow(a, end, window) + InWindow(b, end, window)
  {
    if b == [] {
      assert a + b == a;
    } else {
      InWindowAppend(a, b[..|b| - 1], end, window);
      assert (a + b)[..|a + b| - 1] == a + b[..|b| - 1];
    }
  }

  // How one step moves failures from the rest of the run into the history.
  lemma StepRecords(c: Config, s: State, actions: seq<Action>)
    requires actions != [] && Enabled(s, actions[0])
    ensures
      var t, rest := Next(c, s, actions[0]), Recorded(actions[1..]);
      if actions[0].Succeed? then t.now == s.now && t.history == [] && Recorded(actions) == rest
      else t.history + rest == s.history + Recorded(actions)
  {
    hide Pruned, Blocked;
    var rest := Recorded(actions[1..]);
    assert [] + rest == rest;
    if actions[0].Fail? {
      assert (s.history + [actions[0].recorded]) + rest == s.history + ([actions[0].recorded] + rest);
    }
  }

  lemma NothingRecorded(s: State)
    ensures s.history + Recorded([]) == s.history
  {
  }

  lemma MoreSuccesses(regained: nat, n: nat)
    ensures regained * (1 + n) == regained + regained * n
  {
  }

  // A run records nothing in a window that ended before it began.
  lemma {:induction false} NothingEarlier(c: Config, s: State, actions: seq<Action>, end: int, window: nat)
    requires Runs(c, s, actions) && end < s.now
    ensures InWindow(Recorded(actions), end, window) == 0
    decreases |actions|
  {
    hide Pruned, Blocked;
    if actions != [] {
      var a, rest := actions[0], actions[1..];
      NothingEarlier(c, Next(c, s, a), rest, end, window);
      if a.Fail? {
        InWindowAppend([a.recorded], Recorded(rest), end, window);
        InWindowSnoc([], a.recorded, end, window);
        assert [] + [a.recorded] == [a.recorded];
      } else {
        assert [] + Recorded(rest) == Recorded(rest);
      }
    }
  }

  // What a success adds to the failures a window may hold: it forgets all of
  // them, but spends the handler that could have recorded one more.
  function Regained(c: Config, k: nat): nat {
    if Bound(c, k) >= 1 then Bound(c, k) - 1 else 0
  }

  // The history a success forgets leaves room in every window the run can
  // still reach.
  lemma ForgottenHistory(c: Config, s: State, k: nat, end: int)
    requires BoundInv(c, s, k) && Enabled(s, Succeed) && end >= s.now
    ensures Bound(c, k) >= 1 && InWindow(s.history, end, c.window) <= Bound(c, k) - 1
  {
    hide Compact, NoWindowExceeds, Bound;
    LaterWindow(s.history, s.now, end, c.window);
  }

  lemma {:induction false} EveryEpochIsBounded(c: Config, s: State, actions: seq<Action>, k: nat, end: int)
    requires BoundInv(c, s, k) && Runs(c, s, actions) && AtMost(c, s, actions, k)
    ensures InWindow(s.history + Recorded(actions), end, c.window) <= Bound(c, k) + Regained(c, k) * Successes(actions)
    decreases |actions|
  {
    hide ListInv, InWindow, Next, Enabled, Recorded, Bound;
    if actions == [] {
      NothingRecorded(s);
    } else {
      var t, rest := Next(c, s, actions[0]), actions[1..];
      BoundInvStep(c, s, actions[0], k);
      EveryEpochIsBounded(c, t, rest, k, end);
      StepRecords(c, s, actions);
      if actions[0].Succeed? {
        assert t.history + Recorded(rest) == Recorded(actions);
        InWindowAppend(s.history, Recorded(rest), end, c.window);
        MoreSuccesses(Regained(c, k), Successes(rest));
        if end >= s.now {
          ForgottenHistory(c, s, k, end);
        } else {
          NothingEarlier(c, t, rest, end, c.window);
        }
      }
    }
  }

  // A success forgets the failures before it, so over a whole run a window may
  // hold more: for each success one failure less than without any.
  lemma WholeRunBound(c: Config, start: int, actions: seq<Action>, k: nat, end: int)
    requires Runs(c, Init(start), actions) && AtMost(c, Init(start), actions, k)
    ensures InWindow(Recorded(actions), end, c.window) <= Bound(c, k) + Regained(c, k) * Successes(actions)
  {
    EveryEpochIsBounded(c, Init(start), actions, k, end);
    assert [] + Recorded(actions) == Recorded(actions);
  }

  // ---------- the bounds are reached ----------

  function Repeat(a: Action, n: nat): (r: seq<Action>)
    ensures |r| == n
  {
    seq(n, _ => a)
  }

  function Times(t: int, n: nat): (r: seq<int>)
    ensures |r| == n
  {
    seq(n, _ => t)
  }

  // A run with at most k handlers in the gap, from one state to another, which
  // records n failures at one moment and has m successes.
  ghost predicate Leads(c: Config, s: State, actions: seq<Action>, k: nat, t: State, at: int, n: nat, m: nat) {
    && Runs(c, s, actions) && AtMost(c, s, actions, k) && After(c, s, actions) == t
    && Recorded(actions) == Times(at, n) && Successes(actions) == m
  }

  lemma StaysPut(c: Config, s: State, k: nat, at: int)
    requires s.verifying <= k
    ensures Leads(c, s, [], k, s, at, 0, 0)
  {
  }

  // One step more at the front.
  lemma LeadsCons(c: Config, s: State, a: Action, rest: seq<Action>, k: nat, t: State, at: int, n: nat, m: nat)
    requires Enabled(s, a) && s.verifying <= k && (a.Fail? ==> a.recorded == at)
    requires Leads(c, Next(c, s, a), rest, k, t, at, n, m)
    ensures Leads(c, s, [a] + rest, k, t, at, if a.Fail? then n + 1 else n, if a.Succeed? then m + 1 else m)
  {
    hide Enabled, Next;
    assert ([a] + rest)[1..] == rest;
    assert [at] + Times(at, n) == Times(at, n + 1);
  }

  lemma FirstRecorded(a: seq<Action>, at: int, n: nat)
    requires a != [] && Recorded(a) == Times(at, n)
    ensures a[0].Fail? ==> n > 0 && a[0].recorded == at && Recorded(a[1..]) == Times(at, n - 1)
    ensures !a[0].Fail? ==> Recorded(a[1..]) == Times(at, n)
  {
    assert [] + Recorded(a[1..]) == Recorded(a[1..]);
    if a[0].Fail? {
      assert Recorded(a)[0] == a[0].recorded && Recorded(a)[1..] == Recorded(a[1..]);
      assert Times(at, n)[1..] == Times(at, n - 1);
    }
  }

  lemma {:induction false} LeadsAppend(c: Config, s: State, a: seq<Action>, k: nat, t: State, b: seq<Action>, u: State,
                                       at: int, n1: nat, m1: nat, n2: nat, m2: nat)
    requires Leads(c, s, a, k, t, at, n1, m1) && Leads(c, t, b, k, u, at, n2, m2)
    ensures Leads(c, s, a + b, k, u, at, n1 + n2, m1 + m2)
    decreases |a|
  {
    hide Enabled, Next;
    if a == [] {
      assert a + b == b;
    } else {
      var first, rest := a[0], a[1..];
      var n := if first.Fail? then n1 - 1 else n1;
      FirstRecorded(a, at, n1);
      LeadsAppend(c, Next(c, s, first), rest, k, t, b, u, at, n, if first.Succeed? then m1 - 1 else m1, n2, m2);
      LeadsCons(c, s, first, rest + b, k, u, at, n + n2, Successes(rest) + m2);
      assert [first] + (rest + b) == a + b;
    }
  }

  // n failures at one moment, none of them pruned yet.
  function Burst(start: int, n: nat, verifying: nat): State {
    State(start, Times(start, n), Times(start, n), verifying)
  }

  lemma {:induction false} BurstIsKept(start: int, n: nat, windowStart: int)
    requires windowStart < start
    ensures Compact(Times(start, n), windowStart) == Times(start, n)
  {
    if n > 0 {
      assert Times(start, n)[1..] == Times(start, n - 1);
      BurstIsKept(start, n - 1, windowStart);
      assert [start] + Times(start, n - 1) == Times(start, n);
    }
  }

  lemma BurstGrows(c: Config, start: int, n: nat, verifying: nat)
    requires c.window > 0 && verifying > 0
    ensures Next(c, Burst(start, n, verifying), Fail(start)) == Burst(start, n + 1, verifying - 1)
  {
    BurstIsKept(start, n, start - c.window);
    assert Times(start, n) + [start] == Times(start, n + 1);
  }

  lemma BurstAdmits(c: Config, start: int, n: nat, verifying: nat)
    requires c.window > 0 && n < c.limit
    ensures Next(c, Burst(start, n, verifying), Check) == Burst(start, n, verifying + 1)
  {
    BurstIsKept(start, n, start - c.window);
  }

  lemma BurstForgotten(c: Config, start: int, n: nat)
    ensures Enabled(Burst(start, n, 1), Succeed) && Next(c, Burst(start, n, 1), Succeed) == Burst(start, 0, 0)
    ensures Init(start) == Burst(start, 0, 0)
  {
  }

  lemma HasVerifying(start: int, n: nat, verifying: nat)
    ensures Burst(start, n, verifying).verifying == verifying && Burst(start, n, verifying).now == start
  {
  }

  // m handlers pass the check before any of them reports.
  lemma {:induction false} AllCheck(c: Config, start: int, n: nat, from: nat, m: nat, k: nat)
    requires c.window > 0 && n < c.limit && from + m <= k
    ensures Leads(c, Burst(start, n, from), Repeat(Check, m), k, Burst(start, n, from + m), start, 0, 0)
    decreases m
  {
    hide Leads, Burst, Next;
    if m == 0 {
      HasVerifying(start, n, from);
      StaysPut(c, Burst(start, n, from), k, start);
      assert Repeat(Check, 0) == [];
    } else {
      BurstAdmits(c, start, n, from);
      HasVerifying(start, n, from);
      AllCheck(c, start, n, from + 1, m - 1, k);
      LeadsCons(c, Burst(start, n, from), Check, Repeat(Check, m - 1), k, Burst(start, n, from + m), start, 0, 0);
      assert [Check] + Repeat(Check, m - 1) == Repeat(Check, m);
    }
  }

  // m of them fail, the others are still verifying.
  lemma {:induction false} AllFail(c: Config, start: int, n: nat, m: nat, left: nat, k: nat)
    requires c.window > 0 && m + left <= k
    ensures Leads(c, Burst(start, n, m + left), Repeat(Fail(start), m), k, Burst(start, n + m, left), start, m, 0)
    decreases m
  {
    hide Leads, Burst, Next;
    HasVerifying(start, n, m + left);
    if m == 0 {
      StaysPut(c, Burst(start, n, left), k, start);
      assert Repeat(Fail(start), 0) == [];
    } else {
      BurstGrows(c, start, n, m + left);
      AllFail(c, start, n + 1, m - 1, left, k);
      LeadsCons(c, Burst(start, n, m + left), Fail(start), Repeat(Fail(start), m - 1), k, Burst(start, n + m, left), start, m - 1, 0);
      assert [Fail(start)] + Repeat(Fail(start), m - 1) == Repeat(Fail(start), m);
    }
  }

  // n logins fail one after another.
  lemma {:induction false} OneByOne(c: Config, start: int, n: nat, k: nat) returns (actions: seq<Action>)
    requires c.window > 0 && n < c.limit && k > 0
    ensures Leads(c, Init(start), actions, k, Burst(start, n, 0), start, n, 0)
  {
    hide Leads, Burst;
    BurstForgotten(c, start, 0);
    if n == 0 {
      actions := [];
      StaysPut(c, Init(start), k, start);
    } else {
      var before := OneByOne(c, start, n - 1, k);
      AllCheck(c, start, n - 1, 0, 1, k);
      AllFail(c, start, n - 1, 1, 0, k);
      LeadsAppend(c, Burst(start, n - 1, 0), Repeat(Check, 1), k, Burst(start, n - 1, 1), Repeat(Fail(start), 1),
                  Burst(start, n, 0), start, 0, 0, 1, 0);
      LeadsAppend(c, Init(start), before, k, Burst(start, n - 1, 0), Repeat(Check, 1) + Repeat(Fail(start), 1),
                  Burst(start, n, 0), start, n - 1, 0, 1, 0);
      actions := before + (Repeat(Check, 1) + Repeat(Fail(start), 1));
    }
  }

  // limit - 1 logins fail one after another, k more pass the check together,
  // and all of these but the last `left` fail.
  lemma Overrun(c: Config, start: int, k: nat, left: nat) returns (actions: seq<Action>)
    requires c.window > 0 && c.limit >= 1 && left <= k && k >= 1
    ensures Leads(c, Init(start), actions, k, Burst(start, c.limit - 1 + k - left, left), start, c.limit - 1 + k - left, 0)
  {
    hide Leads, Burst;
    var n, m := c.limit - 1, k - left;
    var first := OneByOne(c, start, n, k);
    AllCheck(c, start, n, 0, k, k);
    AllFail(c, start, n, m, left, k);
    LeadsAppend(c, Burst(start, n, 0), Repeat(Check, k), k, Burst(start, n, k), Repeat(Fail(start), m),
                Burst(start, n + m, left), start, 0, 0, m, 0);
    LeadsAppend(c, Init(start), first, k, Burst(start, n, 0), Repeat(Check, k) + Repeat(Fail(start), m),
                Burst(start, n + m, left), start, n, 0, m, 0);
    actions := first + (Repeat(Check, k) + Repeat(Fail(start), m));
  }

  lemma {:induction false} BurstCount(start: int, n: nat, window: nat)
    requires window > 0
    ensures InWindow(Times(start, n), start, window) == n
  {
    if n > 0 {
      assert Times(start, n)[..n - 1] == Times(start, n - 1);
      BurstCount(start, n - 1, window);
    }
  }

  // The check-then-act gap is real: for every limit and every k some run with
  // at most k handlers in the gap fills a window to exactly limit + k - 1.
  lemma BoundIsReached(c: Config, start: int, k: nat) returns (actions: seq<Action>)
    requires c.window > 0 && c.limit >= 1 && k >= 1
    ensures Runs(c, Init(start), actions) && AtMost(c, Init(start), actions, k)
    ensures InWindow(After(c, Init(start), actions).history, start, c.window) == Bound(c, k)
  {
    actions := Overrun(c, start, k, 0);
    BurstCount(start, c.limit - 1 + k, c.window);
    hide Runs, AtMost, After, InWindow;
  }

  // One round that ends in a success and is back at the start: every handler
  // but the one that succeeds has failed.
  lemma OneRound(c: Config, start: int, k: nat) returns (actions: seq<Action>)
    requires c.window > 0 && c.limit >= 1 && k >= 1
    ensures Leads(c, Init(start), actions, k, Init(start), start, c.limit - 1 + k - 1, 1)
  {
    hide Leads, Burst, Next;
    var n := c.limit - 1 + k - 1;
    var failing := Overrun(c, start, k, 1);
    BurstForgotten(c, start, n);
    HasVerifying(start, n, 1);
    StaysPut(c, Init(start), k, start);
    LeadsCons(c, Burst(start, n, 1), Succeed, [], k, Init(start), start, 0, 0);
    LeadsAppend(c, Init(start), failing, k, Burst(start, n, 1), [Succeed] + [], Init(start), start, n, 0, 0, 1);
    actions := failing + ([Succeed] + []);
  }

  lemma {:induction false} Rounds(c: Config, start: int, k: nat, m: nat) returns (actions: seq<Action>)
    requires c.window > 0 && c.limit >= 1 && k >= 1
    ensures Leads(c, Init(start), actions, k, Init(start), start, (c.limit - 1 + k - 1) * m, m)
  {
    hide Leads;
    if m == 0 {
      actions := [];
      StaysPut(c, Init(start), k, start);
    } else {
      var n := c.limit - 1 + k - 1;
      var round := OneRound(c, start, k);
      var more := Rounds(c, start, k, m - 1);
      assert n + n * (m - 1) == n * m;
      LeadsAppend(c, Init(start), round, k, Init(start), more, Init(start), start, n, 1, n * (m - 1), m - 1);
      actions := round + more;
    }
  }

  // So is the whole-run bound: for every limit, every k and every number of
  // successes some run fills one window to exactly that.
  lemma WholeRunBoundIsReached(c: Config, start: int, k: nat, successes: nat) returns (actions: seq<Action>)
    requires c.window > 0 && c.limit >= 1 && k >= 1
    ensures Runs(c, Init(start), actions) && AtMost(c, Init(start), actions, k) && Successes(actions) == successes
    ensures InWindow(Recorded(actions), start, c.window) == Bound(c, k) + Regained(c, k) * successes
  {
    hide Burst;
    var n := c.limit - 1 + k;
    var rounds := Rounds(c, start, k, successes);
    var last := Overrun(c, start, k, 0);
    LeadsAppend(c, Init(start), rounds, k, Init(start), last, Burst(start, n, 0), start, (n - 1) * successes, successes, n, 0);
    actions := rounds + last;
    BurstCount(start, (n - 1) * successes + n, c.window);
    hide Runs, AtMost, After, InWindow, Recorded;
  }
}
