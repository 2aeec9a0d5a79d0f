/**
 * Image builds: one goroutine drives a stored build through its states by
 * loading, changing and re-storing the whole record, while any number of
 * WebSocket observers poll it.
 */
module ImageBuilds {
  import opened Wrappers

  datatype Status = QueuedStatus | Running | Complete | Failed

  datatype Entry = BuildQueued | BuildStarted | BuildCompleted | BuildFailed

  // The stored record; logs and error live in its metadata.
  datatype Build = Build(status: Status, logs: seq<Entry>, error: Option<string>, finished: bool)

  const FRESH_BUILD := Build(QueuedStatus, [BuildQueued], None, false)

  predicate Terminal(s: Status) {
    s == Complete || s == Failed
  }

  function Rank(s: Status): nat {
    match s
    case QueuedStatus => 0
    case Running => 1
    case _ => 2
  }

  function FinalStatus(ok: bool): Status {
    if ok then Complete else Failed
  }

  function FinalEntry(ok: bool): Entry {
    if ok then BuildCompleted else BuildFailed
  }

  // b is a or something a may still become: the status never goes back or
  // leaves a final state, and the log only grows at its end.
  predicate Follows(a: Build, b: Build) {
    && Rank(a.status) <= Rank(b.status)
    && (Terminal(a.status) ==> b.status == a.status)
    && a.logs <= b.logs
  }

  lemma FollowsTransitive(a: Build, b: Build, c: Build)
    requires Follows(a, b) && Follows(b, c)
    ensures Follows(a, c)
  {
  }

  // ---------- the record store and the driver, as they run alone ----------

  class BuildStore {
    var row: Build

    constructor ()
      ensures row == FRESH_BUILD
    {
      row := FRESH_BUILD;
    }

    method UpdateImageBuild(build: Build)
      modifies this
      ensures row == build
    {
      row := build;
    }

    // Loads the record, appends to its log, stores it back.
    method AppendImageBuildLog(entry: Entry)
      modifies this
      ensures row == old(row).(logs := old(row).logs + [entry])
    {
      var build := row;
      var logs := build.logs + [entry];
      UpdateImageBuild(build.(logs := logs));
    }

    method RunImageBuild(ok: bool, error: string)
      modifies this
      ensures row.status == (if ok then Complete else Failed) && row.finished
      ensures row.logs == old(row).logs + [BuildStarted, if ok then BuildCompleted else BuildFailed]
      ensures row.error == if ok then old(row).error else Some(error)
    {
      var build := row;
      UpdateImageBuild(build.(status := Running));
      AppendImageBuildLog(BuildStarted);
      build := row;
      build := build.(finished := true);
      if !ok {
        UpdateImageBuild(build.(status := Failed, error := Some(error)));
        AppendImageBuildLog(BuildFailed);
        return;
      }
      UpdateImageBuild(build.(status := Complete));
      AppendImageBuildLog(BuildCompleted);
    }
  }

  // ---------- the driver step by step, with observers in between ----------

  // Where the driver is, and the record it holds in memory at that point.
  datatype Driver =
    | Start
    | Loaded(build: Build)
    | RunningStored
    | StartLogRead(build: Build)
    | StartLogged
    | Built(ok: bool)
    | Reloaded(build: Build, ok: bool)
    | FinalStored(ok: bool)
    | FinalLogRead(build: Build, ok: bool)
    | Stopped

  datatype Observer = Observer(sent: seq<Build>, done: bool)

  type ObserverId = nat

  datatype State = State(row: Build, driver: Driver, observers: map<ObserverId, Observer>)

  // `works` tells whether the store operation of the step succeeds; for the
  // build itself, whether Podman succeeds.
  datatype Action =
    | Drive(works: bool)
    | Connect(o: ObserverId)
    | Poll(o: ObserverId)

  predicate Enabled(s: State, a: Action) {
    match a
    case Drive(_) => s.driver != Stopped
    case Connect(o) => o !in s.observers
    case Poll(o) => o in s.observers && !s.observers[o].done
  }

  function Store(s: State, works: bool, build: Build, next: Driver): State {
    State(if works then build else s.row, next, s.observers)
  }

  // A failed load ends the driver; failed updates and appends are ignored.
  function Driven(s: State, works: bool): State
    requires s.driver != Stopped
  {
    match s.driver
    case Start => s.(driver := if works then Loaded(s.row) else Stopped)
    case Loaded(b) => Store(s, works, b.(status := Running), RunningStored)
    case RunningStored => s.(driver := if works then StartLogRead(s.row) else StartLogged)
    case StartLogRead(b) => Store(s, works, b.(logs := b.logs + [BuildStarted]), StartLogged)
    case StartLogged => s.(driver := Built(works))
    case Built(ok) => s.(driver := if works then Reloaded(s.row, ok) else Stopped)
    case Reloaded(b, ok) =>
      Store(s, works, b.(status := FinalStatus(ok), finished := true, error := if ok then b.error else Some("error")), FinalStored(ok))
    case FinalStored(ok) => s.(driver := if works then FinalLogRead(s.row, ok) else Stopped)
    case FinalLogRead(b, ok) => Store(s, works, b.(logs := b.logs + [FinalEntry(ok)]), Stopped)
  }

  // One turn of the observer loop: send the record if it changed, stop after
  // a final state.
  function Polled(s: State, o: ObserverId): State
    requires o in s.observers
  {
    var seen := s.observers[o];
    var changed := seen.sent == [] || seen.sent[|seen.sent| - 1] != s.row;
    s.(observers := s.observers[o := Observer(if changed then seen.sent + [s.row] else seen.sent, Terminal(s.row.status))])
  }

  function Next(s: State, a: Action): State
    requires Enabled(s, a)
  {
    match a
    case Drive(works) => Driven(s, works)
    case Connect(o) => s.(observers := s.observers[o := Observer([], false)])
    case Poll(o) => Polled(s, o)
  }

  const INIT := State(FRESH_BUILD, Start, map[])

  predicate Runs(s: State, actions: seq<Action>)
    decreases |actions|
  {
    actions == [] || (Enabled(s, actions[0]) && Runs(Next(s, actions[0]), actions[1..]))
  }

  function After(s: State, actions: seq<Action>): State
    requires Runs(s, actions)
    decreases |actions|
  {
    if actions == [] then s else After(Next(s, actions[0]), actions[1..])
  }

  // What the driver holds in memory is what is stored, and a final status is
  // stored only once the driver is past storing it.
  predicate DriverOk(s: State) {
    match s.driver
    case Start => s.row == FRESH_BUILD
    case Loaded(b) => b == s.row && s.row == FRESH_BUILD
    case StartLogRead(b) => b == s.row && !Terminal(s.row.status)
    case Reloaded(b, _) => b == s.row && !Terminal(s.row.status)
    case FinalLogRead(b, _) => b == s.row
    case FinalStored(_) => true
    case Stopped => true
    case _ => !Terminal(s.row.status)
  }

  predicate Chain(sent: seq<Build>) {
    && (forall i, j | 0 <= i < j < |sent| :: Follows(sent[i], sent[j]))
    && (forall i | 0 < i < |sent| :: sent[i - 1] != sent[i])
  }

  predicate ObserverOk(s: State, o: Observer) {
    && Chain(o.sent)
    && (forall i | 0 <= i < |o.sent| :: Follows(o.sent[i], s.row))
    && (o.done ==> o.sent != [] && Terminal(o.sent[|o.sent| - 1].status))
    && (forall i | 0 <= i < |o.sent| - 1 :: !Terminal(o.sent[i].status))
    && (!o.done && o.sent != [] ==> !Terminal(o.sent[|o.sent| - 1].status))
  }

  ghost predicate Inv(s: State) {
    DriverOk(s) && Follows(FRESH_BUILD, s.row) && forall o | o in s.observers :: ObserverOk(s, s.observers[o])
  }

  lemma DriveFollows(s: State, works: bool)
    requires DriverOk(s) && s.driver != Stopped
    ensures DriverOk(Driven(s, works)) && Follows(s.row, Driven(s, works).row)
    ensures Driven(s, works).observers == s.observers
  {
  }

  lemma ObserverKeeps(s: State, t: State, o: Observer)
    requires ObserverOk(s, o) && Follows(s.row, t.row)
    ensures ObserverOk(t, o)
  {
  }

  // One more record, if it is not the last one again.
  lemma ChainGrows(sent: seq<Build>, b: Build)
    requires Chain(sent) && forall i | 0 <= i < |sent| :: Follows(sent[i], b)
    requires sent != [] ==> sent[|sent| - 1] != b
    ensures Chain(sent + [b])
  {
    hide Follows;
  }

  lemma SelfFollows(b: Build)
    ensures Follows(b, b)
  {
  }

  lemma PollKeeps(s: State, o: ObserverId)
    requires o in s.observers && !s.observers[o].done && ObserverOk(s, s.observers[o])
    ensures ObserverOk(Polled(s, o), Polled(s, o).observers[o])
  {
    hide Follows, Chain;
    var sent := s.observers[o].sent;
    SelfFollows(s.row);
    if sent == [] || sent[|sent| - 1] != s.row {
      ChainGrows(sent, s.row);
    } else {
      assert !Terminal(s.row.status);
    }
  }

  lemma InvStep(s: State, a: Action)
    requires Inv(s) && Enabled(s, a)
    ensures Inv(Next(s, a)) && Follows(s.row, Next(s, a).row)
  {
    match a {
      case Drive(works) =>
        DriveFollows(s, works);
        hide Driven, DriverOk;
        FollowsTransitive(FRESH_BUILD, s.row, Driven(s, works).row);
        forall o | o in s.observers
          ensures ObserverOk(Driven(s, works), s.observers[o])
        {
          ObserverKeeps(s, Driven(s, works), s.observers[o]);
        }
      case Connect(_) =>
      case Poll(o) =>
        PollKeeps(s, o);
        forall p | p in s.observers && p != o
          ensures ObserverOk(Polled(s, o), s.observers[p])
        {
          ObserverKeeps(s, Polled(s, o), s.observers[p]);
        }
    }
  }

  lemma {:induction false} InvRun(s: State, actions: seq<Action>)
    requires Inv(s) && Runs(s, actions)
    ensures Inv(After(s, actions)) && Follows(s.row, After(s, actions).row)
    decreases |actions|
  {
    hide Inv, Enabled, Next;
    if actions != [] {
      InvStep(s, actions[0]);
      InvRun(Next(s, actions[0]), actions[1..]);
      FollowsTransitive(s.row, Next(s, actions[0]).row, After(s, actions).row);
    }
  }

  // Between any two moments of any run, store failures included, the stored
  // build only moved forward and its log only grew at the end.
  lemma StoredBuildOnlyAdvances(before: seq<Action>, later: seq<Action>)
    requires Runs(INIT, before) && Runs(After(INIT, before), later)
    ensures Follows(After(INIT, before).row, After(After(INIT, before), later).row)
  {
    InvRun(INIT, before);
    InvRun(After(INIT, before), later);
  }

  // Every observer is sent a strictly changing, forward-moving sequence of
  // records, which ends at the first final one it sees.
  lemma ObserversSeeProgress(actions: seq<Action>, o: ObserverId)
    requires Runs(INIT, actions) && o in After(INIT, actions).observers
    ensures
      var s := After(INIT, actions);
      var seen := s.observers[o];
      && Chain(seen.sent)
      && (forall i | 0 <= i < |seen.sent| - 1 :: !Terminal(seen.sent[i].status))
      && (seen.done <==> seen.sent != [] && Terminal(seen.sent[|seen.sent| - 1].status))
      && (seen.sent != [] ==> Follows(seen.sent[|seen.sent| - 1], s.row))
  {
    InvRun(INIT, actions);
    assert ObserverOk(After(INIT, actions), After(INIT, actions).observers[o]);
  }

  // A poll sends the stored record unless that is what it sent last, and is the
  // last one exactly if that record is final.
  lemma PollSends(s: State, o: ObserverId)
    requires Enabled(s, Poll(o))
    ensures
      var before, after := s.observers[o], Next(s, Poll(o)).observers[o];
      && after.sent != [] && after.sent[|after.sent| - 1] == s.row
      && (after.sent == before.sent || after.sent == before.sent + [s.row])
      && (after.done <==> s.row.status in {Complete, Failed})
      && Next(s, Poll(o)).row == s.row && Next(s, Poll(o)).driver == s.driver
  {
  }

  // ---------- with a store that works ----------

  // Every store operation of the run succeeds; the build itself may fail.
  predicate StoreWorks(s: State, actions: seq<Action>)
    requires Runs(s, actions)
    decreases |actions|
  {
    actions == [] ||
    ((actions[0].Drive? && s.driver != StartLogged ==> actions[0].works)
     && StoreWorks(Next(s, actions[0]), actions[1..]))
  }

  // Status and log at each point of the driver.
  predicate Expected(s: State) {
    match s.driver
    case Start => s.row.status == QueuedStatus && s.row.logs == [BuildQueued]
    case Loaded(b) => b == s.row && s.row.status == QueuedStatus && s.row.logs == [BuildQueued]
    case RunningStored => s.row.status == Running && s.row.logs == [BuildQueued]
    case StartLogRead(b) => b == s.row && s.row.status == Running && s.row.logs == [BuildQueued]
    case Reloaded(b, _) => b == s.row && s.row.status == Running && s.row.logs == [BuildQueued, BuildStarted]
    case FinalStored(ok) => s.row.status == FinalStatus(ok) && s.row.logs == [BuildQueued, BuildStarted]
    case FinalLogRead(b, ok) => b == s.row && s.row.status == FinalStatus(ok) && s.row.logs == [BuildQueued, BuildStarted]
    case Stopped =>
      Terminal(s.row.status) && s.row.logs == [BuildQueued, BuildStarted, FinalEntry(s.row.status == Complete)]
    case _ => s.row.status == Running && s.row.logs == [BuildQueued, BuildStarted]
  }

  lemma ExpectedStep(s: State, a: Action)
    requires Expected(s) && Enabled(s, a) && (a.Drive? && s.driver != StartLogged ==> a.works)
    ensures Expected(Next(s, a))
  {
  }

  lemma {:induction false} ExpectedRun(s: State, actions: seq<Action>)
    requires Expected(s) && Runs(s, actions) && StoreWorks(s, actions)
    ensures Expected(After(s, actions))
    decreases |actions|
  {
    hide Expected, Enabled, Next;
    if actions != [] {
      ExpectedStep(s, actions[0]);
      ExpectedRun(Next(s, actions[0]), actions[1..]);
    }
  }

  // What the steps of the driver answered, in order; the fifth is the build.
  function Driving(actions: seq<Action>): seq<bool> {
    if actions == [] then [] else (if actions[0].Drive? then [actions[0].works] else []) + Driving(actions[1..])
  }

  function StepsOf(d: Driver): nat {
    match d
    case Start => 0
    case Loaded(_) => 1
    case RunningStored => 2
    case StartLogRead(_) => 3
    case StartLogged => 4
    case Built(_) => 5
    case Reloaded(_, _) => 6
    case FinalStored(_) => 7
    case FinalLogRead(_, _) => 8
    case Stopped => 9
  }

  // What the driver knows of the outcome, or has stored of it.
  predicate Outcome(s: State, ok: bool) {
    match s.driver
    case Built(o) => o == ok
    case Reloaded(_, o) => o == ok
    case FinalStored(o) => o == ok
    case FinalLogRead(_, o) => o == ok
    case Stopped => s.row.status == (if ok then Complete else Failed) && s.row.error == (if ok then None else Some("error"))
    case _ => true
  }

  predicate ErrorSoFar(s: State) {
    match s.driver
    case FinalStored(o) => s.row.error == if o then None else Some("error")
    case FinalLogRead(b, o) => b == s.row && s.row.error == if o then None else Some("error")
    case Loaded(b) => b == s.row && s.row.error == None
    case StartLogRead(b) => b == s.row && s.row.error == None
    case Reloaded(b, _) => b == s.row && s.row.error == None
    case Stopped => true
    case _ => s.row.error == None
  }

  lemma DrivenOnce(s: State, a: Action, ok: bool)
    requires Expected(s) && ErrorSoFar(s) && Enabled(s, a) && (a.Drive? && s.driver != StartLogged ==> a.works)
    ensures ErrorSoFar(Next(s, a)) && StepsOf(Next(s, a).driver) == StepsOf(s.driver) + if a.Drive? then 1 else 0
    ensures Outcome(s, ok) && (a.Drive? && s.driver == StartLogged ==> a.works == ok) ==> Outcome(Next(s, a), ok)
  {
  }

  lemma FourthIsBuild(s: State)
    ensures StepsOf(s.driver) == 4 <==> s.driver == StartLogged
  {
  }

  lemma {:induction false} DrivenRun(s: State, actions: seq<Action>, ok: bool)
    requires Expected(s) && ErrorSoFar(s) && Runs(s, actions) && StoreWorks(s, actions)
    ensures StepsOf(After(s, actions).driver) == StepsOf(s.driver) + |Driving(actions)|
    ensures Outcome(s, ok) && (StepsOf(s.driver) <= 4 < StepsOf(s.driver) + |Driving(actions)| ==>
                               Driving(actions)[4 - StepsOf(s.driver)] == ok) ==>
              Outcome(After(s, actions), ok)
    decreases |actions|
  {
    hide Expected, ErrorSoFar, Enabled, Next, Outcome;
    if actions != [] {
      var a, rest := actions[0], actions[1..];
      ExpectedStep(s, a);
      DrivenOnce(s, a, ok);
      DrivenRun(Next(s, a), rest, ok);
      assert [] + Driving(rest) == Driving(rest);
      FourthIsBuild(s);
    }
  }

  // With a working store the record is decided by how far the driver is: it
  // runs after two steps, is final after seven and has its last entry after
  // nine. And it is complete exactly if the build, the fifth step, succeeded.
  lemma RecordBySteps(actions: seq<Action>)
    requires Runs(INIT, actions) && StoreWorks(INIT, actions)
    ensures
      var row, steps := After(INIT, actions).row, Driving(actions);
      && |steps| <= 9
      && (row.status == QueuedStatus <==> |steps| < 2) && (row.status == Running <==> 2 <= |steps| < 7)
      && (|steps| >= 7 ==> row.status == if steps[4] then Complete else Failed)
      && row.logs == (if |steps| < 4 then [BuildQueued]
                      else if |steps| < 9 then [BuildQueued, BuildStarted]
                      else [BuildQueued, BuildStarted, if steps[4] then BuildCompleted else BuildFailed])
      && (|steps| == 9 ==> row.error == if steps[4] then None else Some("error"))
  {
    var steps := Driving(actions);
    ExpectedRun(INIT, actions);
    DrivenRun(INIT, actions, if |steps| > 4 then steps[4] else true);
  }

  // No entry is lost between load and store: a finished driver leaves all
  // three, with the outcome matching the status.
  lemma NoEntryLost(actions: seq<Action>)
    requires Runs(INIT, actions) && StoreWorks(INIT, actions)
    ensures
      var s := After(INIT, actions);
      s.driver == Stopped ==>
        Terminal(s.row.status) && s.row.logs == [BuildQueued, BuildStarted, FinalEntry(s.row.status == Complete)]
  {
    ExpectedRun(INIT, actions);
  }

  // The final status is stored one step before the final log entry, and an
  // observer stops at the first final status it sees. So its last record has
  // the final entry exactly if the driver had already finished when it polled.
  lemma LastRecordIsWholeExactly(actions: seq<Action>, o: ObserverId)
    requires Runs(INIT, actions) && StoreWorks(INIT, actions)
    requires Enabled(After(INIT, actions), Poll(o)) && Terminal(After(INIT, actions).row.status)
    ensures
      var s := After(INIT, actions);
      var seen := Next(s, Poll(o)).observers[o];
      && seen.done && seen.sent != []
      && (FinalEntry(s.row.status == Complete) in seen.sent[|seen.sent| - 1].logs <==> s.driver == Stopped)
  {
    ExpectedRun(INIT, actions);
  }

  lemma Cons(s: State, a: Action, rest: seq<Action>)
    requires Enabled(s, a) && Runs(Next(s, a), rest) && StoreWorks(Next(s, a), rest)
    requires a.Drive? && s.driver != StartLogged ==> a.works
    ensures Runs(s, [a] + rest) && StoreWorks(s, [a] + rest) && After(s, [a] + rest) == After(Next(s, a), rest)
  {
  }

  lemma DriveThree(s: State)
    requires s.driver != Stopped && Driven(s, true).driver != Stopped && Driven(Driven(s, true), true).driver != Stopped
    ensures
      var acts := [Drive(true), Drive(true), Drive(true)];
      Runs(s, acts) && StoreWorks(s, acts) && After(s, acts) == Driven(Driven(Driven(s, true), true), true)
  {
  }

  lemma DriveFour(s: State)
    requires s.driver == Start
    ensures
      var acts := [Drive(true), Drive(true), Drive(true), Drive(true)];
      && Runs(s, acts) && StoreWorks(s, acts)
      && After(s, acts) == Driven(Driven(Driven(Driven(s, true), true), true), true)
  {
  }

  lemma {:induction false} WellAppend(s: State, a: seq<Action>, b: seq<Action>)
    requires Runs(s, a) && StoreWorks(s, a) && Runs(After(s, a), b) && StoreWorks(After(s, a), b)
    ensures Runs(s, a + b) && StoreWorks(s, a + b) && After(s, a + b) == After(After(s, a), b)
    decreases |a|
  {
    hide Enabled, Next;
    if a == [] {
      assert a + b == b;
    } else {
      WellAppend(Next(s, a[0]), a[1..], b);
      assert (a + b)[1..] == a[1..] + b && (a + b)[0] == a[0];
    }
  }

  // Such a poll can fall into the gap.
  lemma GapIsReachable() returns (actions: seq<Action>, o: ObserverId)
    ensures Runs(INIT, actions) && StoreWorks(INIT, actions) && Enabled(After(INIT, actions), Poll(o))
    ensures Terminal(After(INIT, actions).row.status) && After(INIT, actions).driver != Stopped
  {
    o := 0;
    var s1 := Next(INIT, Connect(o));
    var s5 := State(Build(Running, [BuildQueued, BuildStarted], None, false), StartLogged, s1.observers);
    var s8 := State(Build(Complete, [BuildQueued, BuildStarted], None, true), FinalStored(true), s1.observers);
    assert Driven(Driven(Driven(Driven(s1, true), true), true), true) == s5;
    assert Driven(Driven(Driven(s5, true), true), true) == s8;
    var three := [Drive(true), Drive(true), Drive(true)];
    DriveThree(s5);
    DriveFour(s1);
    assert [Drive(true)] + three == [Drive(true), Drive(true), Drive(true), Drive(true)];
    WellAppend(s1, [Drive(true)] + three, three);
    Cons(INIT, Connect(o), [Drive(true)] + three + three);
    actions := [Connect(o)] + ([Drive(true)] + three + three);
  }
}
