/**
 * Which log lines a request gets: the merge of a pod's container logs
 * (readAgentContainerLogs over the agent's handleLogs) and the bounded walk
 * over the historical log files (readHistoricalLogs over readLogFile).
 */
module LogSelection {
  import opened Wrappers

  datatype Line = Line(timestamp: int, source: string, text: string)

  function Tail<T>(s: seq<T>, n: nat): (r: seq<T>)
    ensures |r| == if |s| <= n then |s| else n
  {
    if |s| <= n then s else s[|s| - n..]
  }

  function Concat(parts: seq<seq<Line>>): seq<Line> {
    if parts == [] then [] else parts[0] + Concat(parts[1..])
  }

  // ---------- sort.SliceStable ----------

  predicate Sorted(s: seq<Line>) {
    forall i, j | 0 <= i < j < |s| :: s[i].timestamp <= s[j].timestamp
  }

  // The lines with one timestamp, in order.
  function At(s: seq<Line>, t: int): seq<Line> {
    if s == [] then []
    else (if s[0].timestamp == t then [s[0]] else []) + At(s[1..], t)
  }

  // r is s stably sorted: in order, and lines of equal time keep their order.
  ghost predicate IsStableSort(s: seq<Line>, r: seq<Line>) {
    Sorted(r) && forall t :: At(r, t) == At(s, t)
  }

  function Insert(x: Line, s: seq<Line>): seq<Line> {
    if s == [] || x.timestamp <= s[0].timestamp then [x] + s else [s[0]] + Insert(x, s[1..])
  }

  function Sort(s: seq<Line>): seq<Line> {
    if s == [] then [] else Insert(s[0], Sort(s[1..]))
  }

  lemma SortedCons(x: Line, s: seq<Line>)
    ensures Sorted([x] + s) <==> Sorted(s) && (s == [] || x.timestamp <= s[0].timestamp)
  {
    var w := [x] + s;
    assert w[0] == x && (s != [] ==> w[1] == s[0]);
    if Sorted(w) {
      assert forall i | 0 <= i < |s| :: s[i] == w[i + 1];
    }
    if Sorted(s) && (s == [] || x.timestamp <= s[0].timestamp) {
      assert forall i | 0 < i < |w| :: w[i] == s[i - 1];
    }
  }

  lemma SortedTail(s: seq<Line>)
    requires s != [] && Sorted(s)
    ensures Sorted(s[1..]) && (|s| > 1 ==> s[0].timestamp <= s[1..][0].timestamp)
  {
  }

  lemma {:induction false} InsertSorted(x: Line, s: seq<Line>)
    requires Sorted(s)
    ensures Sorted(Insert(x, s)) && |Insert(x, s)| == |s| + 1
    ensures s != [] ==> Insert(x, s)[0].timestamp == x.timestamp || Insert(x, s)[0] == s[0]
  {
    hide Sorted;
    if s == [] || x.timestamp <= s[0].timestamp {
      SortedCons(x, s);
    } else {
      SortedTail(s);
      InsertSorted(x, s[1..]);
      SortedCons(s[0], Insert(x, s[1..]));
    }
  }

  lemma AtCons(x: Line, s: seq<Line>, t: int)
    ensures At([x] + s, t) == (if x.timestamp == t then [x] else []) + At(s, t)
  {
  }

  lemma {:induction false} InsertAt(x: Line, s: seq<Line>, t: int)
    ensures At(Insert(x, s), t) == (if x.timestamp == t then [x] else []) + At(s, t)
  {
    hide At;
    if s == [] || x.timestamp <= s[0].timestamp {
      AtCons(x, s, t);
    } else {
      InsertAt(x, s[1..], t);
      AtCons(s[0], Insert(x, s[1..]), t);
      AtCons(s[0], s[1..], t);
      assert s == [s[0]] + s[1..];
    }
  }

  lemma {:induction false} InsertMembers(x: Line, s: seq<Line>, y: Line)
    ensures y in Insert(x, s) <==> y == x || y in s
  {
    if s != [] && x.timestamp > s[0].timestamp {
      InsertMembers(x, s[1..], y);
      assert s == [s[0]] + s[1..];
    }
  }

  lemma {:induction false} SortIsSorted(s: seq<Line>)
    ensures Sorted(Sort(s)) && |Sort(s)| == |s|
  {
    if s != [] {
      SortIsSorted(s[1..]);
      InsertSorted(s[0], Sort(s[1..]));
    }
  }

  lemma {:induction false} SortKeepsOrder(s: seq<Line>, t: int)
    ensures At(Sort(s), t) == At(s, t)
  {
    if s != [] {
      SortKeepsOrder(s[1..], t);
      InsertAt(s[0], Sort(s[1..]), t);
    }
  }

  lemma {:induction false} SortMembers(s: seq<Line>, y: Line)
    ensures y in Sort(s) <==> y in s
  {
    if s != [] {
      SortMembers(s[1..], y);
      InsertMembers(s[0], Sort(s[1..]), y);
      assert s == [s[0]] + s[1..];
    }
  }

  lemma SortIsStable(s: seq<Line>)
    ensures IsStableSort(s, Sort(s)) && |Sort(s)| == |s|
  {
    SortIsSorted(s);
    forall t ensures At(Sort(s), t) == At(s, t) { SortKeepsOrder(s, t); }
  }

  lemma {:induction false} AtIsFound(s: seq<Line>, t: int)
    ensures At(s, t) != [] <==> exists i :: 0 <= i < |s| && s[i].timestamp == t
  {
    if s != [] {
      AtIsFound(s[1..], t);
      if i :| 0 <= i < |s| && s[i].timestamp == t {
        assert i > 0 ==> s[1..][i - 1] == s[i];
      }
      if i :| 0 <= i < |s[1..]| && s[1..][i].timestamp == t {
        assert s[i + 1].timestamp == t;
      }
    }
  }

  lemma AtHead(s: seq<Line>, t: int)
    requires s != []
    ensures At(s, s[0].timestamp) != [] && At(s, s[0].timestamp)[0] == s[0]
    ensures s[0].timestamp == t ==> At(s, t) != [] && At(s[1..], t) == At(s, t)[1..]
    ensures s[0].timestamp != t ==> At(s[1..], t) == At(s, t)
  {
  }

  lemma HeadIsEarliest(r1: seq<Line>, r2: seq<Line>)
    requires r1 != [] && r2 != [] && Sorted(r1)
    requires At(r1, r2[0].timestamp) == At(r2, r2[0].timestamp)
    ensures r1[0].timestamp <= r2[0].timestamp
  {
    hide At;
    AtHead(r2, r2[0].timestamp);
    AtIsFound(r1, r2[0].timestamp);
  }

  // Sorted and stable says it all: there is only one such sequence.
  lemma {:induction false} StableSortIsUnique(r1: seq<Line>, r2: seq<Line>)
    requires Sorted(r1) && Sorted(r2)
    requires forall t :: At(r1, t) == At(r2, t)
    ensures r1 == r2
  {
    hide Sorted, At;
    if r1 == [] || r2 == [] {
      if r1 != [] {
        AtIsFound(r2, r1[0].timestamp);
        AtHead(r1, r1[0].timestamp);
      } else if r2 != [] {
        AtIsFound(r1, r2[0].timestamp);
        AtHead(r2, r2[0].timestamp);
      }
    } else {
      HeadIsEarliest(r1, r2);
      HeadIsEarliest(r2, r1);
      AtHead(r1, r1[0].timestamp);
      AtHead(r2, r2[0].timestamp);
      assert r1[0] == r2[0];
      forall t
        ensures At(r1[1..], t) == At(r2[1..], t)
      {
        AtHead(r1, t);
        AtHead(r2, t);
      }
      SortedTail(r1);
      SortedTail(r2);
      StableSortIsUnique(r1[1..], r2[1..]);
      assert r1 == [r1[0]] + r1[1..] && r2 == [r2[0]] + r2[1..];
    }
  }

  lemma SortMeetsReference(s: seq<Line>, r: seq<Line>)
    requires IsStableSort(s, r)
    ensures r == Sort(s)
  {
    SortIsStable(s);
    StableSortIsUnique(r, Sort(s));
  }

  // ---------- one more line in the input is one more line in the output ----------

  // How many lines are not earlier than t.
  function NotBefore(s: seq<Line>, t: int): nat {
    if s == [] then 0 else (if s[0].timestamp >= t then 1 else 0) + NotBefore(s[1..], t)
  }

  lemma {:induction false} NotBeforeInsert(x: Line, s: seq<Line>, t: int)
    ensures NotBefore(Insert(x, s), t) == NotBefore(s, t) + if x.timestamp >= t then 1 else 0
  {
    if s == [] || x.timestamp <= s[0].timestamp {
      assert ([x] + s)[1..] == s;
    } else {
      NotBeforeInsert(x, s[1..], t);
      assert ([s[0]] + Insert(x, s[1..]))[1..] == Insert(x, s[1..]);
    }
  }

  lemma {:induction false} NotBeforeSort(s: seq<Line>, t: int)
    ensures NotBefore(Sort(s), t) == NotBefore(s, t)
  {
    if s != [] {
      NotBeforeSort(s[1..], t);
      NotBeforeInsert(s[0], Sort(s[1..]), t);
    }
  }

  lemma {:induction false} NotBeforeAppend(a: seq<Line>, b: seq<Line>, t: int)
    ensures NotBefore(a + b, t) == NotBefore(a, t) + NotBefore(b, t)
  {
    if a == [] {
      assert a + b == b;
    } else {
      NotBeforeAppend(a[1..], b, t);
      assert (a + b)[1..] == a[1..] + b;
    }
  }

  lemma {:induction false} AllNotBefore(s: seq<Line>, t: int)
    requires forall i | 0 <= i < |s| :: s[i].timestamp >= t
    ensures NotBefore(s, t) == |s|
  {
    if s != [] {
      AllNotBefore(s[1..], t);
    }
  }

  function With(s: seq<Line>, p: nat, x: Line): seq<Line>
    requires p <= |s|
  {
    s[..p] + [x] + s[p..]
  }

  lemma {:induction false} NotBeforeBound(s: seq<Line>, t: int)
    ensures NotBefore(s, t) <= |s|
  {
    if s != [] {
      NotBeforeBound(s[1..], t);
    }
  }

  // In a sorted sequence everything not earlier than x ends up behind it.
  lemma {:induction false} InsertPosition(x: Line, s: seq<Line>) returns (p: nat)
    requires Sorted(s)
    ensures p <= |s| && Insert(x, s) == With(s, p, x) && |s| - p >= NotBefore(s, x.timestamp)
  {
    if s == [] || x.timestamp <= s[0].timestamp {
      p := 0;
      NotBeforeBound(s, x.timestamp);
      assert With(s, 0, x) == [x] + s;
    } else {
      var q := InsertPosition(x, s[1..]);
      p := q + 1;
      assert With(s, p, x) == [s[0]] + With(s[1..], q, x);
    }
  }

  lemma WithCons(h: Line, s: seq<Line>, p: nat, x: Line)
    requires p <= |s|
    ensures With([h] + s, p + 1, x) == [h] + With(s, p, x)
  {
  }

  lemma WithFront(s: seq<Line>, x: Line)
    ensures With(s, 0, x) == [x] + s
  {
  }

  lemma {:induction false} InsertIntoWith(a: Line, s: seq<Line>, p: nat, x: Line) returns (q: nat)
    requires p <= |s| && Sorted(With(s, p, x)) && Sorted(s)
    ensures |Insert(a, s)| == |s| + 1 && p <= q <= p + 1
    ensures Insert(a, With(s, p, x)) == With(Insert(a, s), q, x)
  {
    hide Sorted, With;
    InsertSorted(a, s);
    if p == 0 {
      WithFront(s, x);
      SortedCons(x, s);
      assert ([x] + s)[1..] == s;
      if a.timestamp <= x.timestamp {
        q := 1;
        WithCons(a, s, 0, x);
      } else {
        q := 0;
        WithFront(Insert(a, s), x);
      }
    } else {
      var h, t := s[0], s[1..];
      assert s == [h] + t;
      WithCons(h, t, p - 1, x);
      SortedCons(h, With(t, p - 1, x));
      SortedTail(s);
      assert ([h] + With(t, p - 1, x))[1..] == With(t, p - 1, x);
      if a.timestamp <= h.timestamp {
        q := p + 1;
        WithCons(a, s, p, x);
      } else {
        var r := InsertIntoWith(a, t, p - 1, x);
        q := r + 1;
        WithCons(h, Insert(a, t), r, x);
      }
    }
  }

  lemma SortCons(x: Line, s: seq<Line>)
    ensures Sort([x] + s) == Insert(x, Sort(s))
  {
    assert ([x] + s)[1..] == s;
  }

  // Sorting a + [x] + b is sorting a + b and slipping x in, in front of at
  // least every line of b that is not earlier than x.
  lemma {:induction false} OneMoreLine(a: seq<Line>, x: Line, b: seq<Line>) returns (p: nat)
    ensures p <= |Sort(a + b)| && Sort(a + [x] + b) == With(Sort(a + b), p, x)
    ensures |Sort(a + b)| - p >= NotBefore(b, x.timestamp)
  {
    hide Sort, Insert, With, Sorted, NotBefore;
    if a == [] {
      assert a + b == b && a + [x] + b == [x] + b;
      SortCons(x, b);
      SortIsSorted(b);
      NotBeforeSort(b, x.timestamp);
      p := InsertPosition(x, Sort(b));
    } else {
      var q := OneMoreLine(a[1..], x, b);
      assert a + b == [a[0]] + (a[1..] + b);
      assert a + [x] + b == [a[0]] + (a[1..] + [x] + b);
      SortCons(a[0], a[1..] + b);
      SortCons(a[0], a[1..] + [x] + b);
      SortIsSorted(a[1..] + [x] + b);
      SortIsSorted(a[1..] + b);
      p := InsertIntoWith(a[0], Sort(a[1..] + b), q, x);
    }
  }

  lemma TailIgnoresFront(s: seq<Line>, p: nat, x: Line, n: nat)
    requires p <= |s| && |s| - p >= n
    ensures Tail(With(s, p, x), n) == Tail(s, n)
  {
  }

  lemma TailHas<T>(s: seq<T>, i: nat, n: nat)
    ensures i < |s| && |s| - i <= n ==> s[i] in Tail(s, n)
  {
  }

  // A line with n later lines behind it cannot be among the last n.
  lemma DropOldLine(a: seq<Line>, x: Line, b: seq<Line>, n: nat)
    requires NotBefore(b, x.timestamp) >= n
    ensures Tail(Sort(a + [x] + b), n) == Tail(Sort(a + b), n)
  {
    var p := OneMoreLine(a, x, b);
    TailIgnoresFront(Sort(a + b), p, x, n);
  }

  // A line that is not among the last n can be dropped without changing them.
  lemma DropOutsideLine(a: seq<Line>, x: Line, b: seq<Line>, n: nat)
    requires x !in Tail(Sort(a + [x] + b), n)
    ensures Tail(Sort(a + [x] + b), n) == Tail(Sort(a + b), n)
  {
    var p := OneMoreLine(a, x, b);
    var s := Sort(a + b);
    var w := With(s, p, x);
    assert w[p] == x;
    TailHas(w, p, n);
    TailIgnoresFront(s, p, x, n);
  }

  // ---------- a pod's containers ----------

  lemma Regroup(a: seq<Line>, x: Line, front: seq<Line>, kept: seq<Line>, b: seq<Line>)
    ensures a + (([x] + front) + kept) + b == a + [x] + (front + kept + b)
    ensures a + (front + kept) + b == a + (front + kept + b)
    ensures ([x] + front) + kept == [x] + (front + kept)
  {
  }

  lemma KeptAreLater(x: Line, front: seq<Line>, kept: seq<Line>, b: seq<Line>)
    requires Sorted([x] + (front + kept))
    ensures NotBefore(front + kept + b, x.timestamp) >= |kept|
  {
    var all := [x] + (front + kept);
    assert forall i | 0 <= i < |kept| :: kept[i] == all[1 + |front| + i] && all[0] == x;
    AllNotBefore(kept, x.timestamp);
    NotBeforeAppend(front, kept, x.timestamp);
    NotBeforeAppend(front + kept, b, x.timestamp);
  }

  // Dropping the front of one container's lines, n or more of which remain.
  lemma {:induction false} DropOldFront(a: seq<Line>, front: seq<Line>, kept: seq<Line>, b: seq<Line>, n: nat)
    requires Sorted(front + kept) && (front != [] ==> |kept| >= n)
    ensures Tail(Sort(a + (front + kept) + b), n) == Tail(Sort(a + kept + b), n)
    decreases |front|
  {
    hide Sorted, Sort, Tail, NotBefore;
    if front == [] {
      assert front + kept == kept;
    } else {
      var x, rest := front[0], front[1..];
      assert front == [x] + rest;
      Regroup(a, x, rest, kept, b);
      KeptAreLater(x, rest, kept, b);
      DropOldLine(a, x, rest + kept + b, n);
      SortedCons(x, rest + kept);
      DropOldFront(a, rest, kept, b, n);
    }
  }

  // What each container sends when asked for its last n lines.
  function Tails(logs: seq<seq<Line>>, n: nat): (r: seq<seq<Line>>)
    ensures |r| == |logs|
  {
    seq(|logs|, i requires 0 <= i < |logs| => Tail(logs[i], n))
  }

  // The lines the agent withheld from one container's log.
  function Withheld(log: seq<Line>, e: nat): seq<Line> {
    log[..|log| - |Tail(log, e)|]
  }

  lemma TailsCons(logs: seq<seq<Line>>, e: nat)
    requires logs != []
    ensures Concat(Tails(logs, e)) == Tail(logs[0], e) + Concat(Tails(logs[1..], e))
    ensures logs[0] == Withheld(logs[0], e) + Tail(logs[0], e)
  {
    assert Tails(logs, e)[1..] == Tails(logs[1..], e);
  }

  lemma AppendAssociative(a: seq<Line>, b: seq<Line>, c: seq<Line>)
    ensures a + (b + c) == (a + b) + c
  {
  }

  // The concatenation, split around the first container.
  lemma FirstContainer(a: seq<Line>, logs: seq<seq<Line>>, e: nat)
    requires logs != []
    ensures
      var kept, front := Tail(logs[0], e), Withheld(logs[0], e);
      && logs[0] == front + kept
      && a + Concat(logs) == a + (front + kept) + Concat(logs[1..])
      && a + Concat(Tails(logs, e)) == (a + kept) + Concat(Tails(logs[1..], e))
  {
    TailsCons(logs, e);
    assert Concat(logs) == logs[0] + Concat(logs[1..]);
    hide Concat, Tails, Tail, Withheld;
    AppendAssociative(a, logs[0], Concat(logs[1..]));
    AppendAssociative(a, Tail(logs[0], e), Concat(Tails(logs[1..], e)));
  }

  lemma {:induction false} DropFrontsEverywhere(a: seq<Line>, logs: seq<seq<Line>>, e: nat, n: nat)
    requires n <= e && forall i | 0 <= i < |logs| :: Sorted(logs[i])
    ensures Tail(Sort(a + Concat(logs)), n) == Tail(Sort(a + Concat(Tails(logs, e))), n)
    decreases |logs|
  {
    if logs != [] {
      var kept, front := Tail(logs[0], e), Withheld(logs[0], e);
      FirstContainer(a, logs, e);
      hide Sorted, Sort, Tail, Concat, Tails;
      DropOldFront(a, front, kept, Concat(logs[1..]), n);
      DropFrontsEverywhere(a + kept, logs[1..], e, n);
    }
  }

  // Asking every container for its last e >= n lines and merging yields the
  // same last n lines as merging the complete logs.
  lemma PartialFetchSuffices(logs: seq<seq<Line>>, e: nat, n: nat)
    requires n <= e && forall i | 0 <= i < |logs| :: Sorted(logs[i])
    ensures Tail(Sort(Concat(Tails(logs, e))), n) == Tail(Sort(Concat(logs)), n)
  {
    DropFrontsEverywhere([], logs, e, n);
    assert [] + Concat(logs) == Concat(logs) && [] + Concat(Tails(logs, e)) == Concat(Tails(logs, e));
  }

  // ---------- the limit the agent honours ----------

  const AGENT_MAX_LINES: nat := 1000
  const AGENT_DEFAULT_LINES: nat := 100

  // handleLogs falls back to 100 lines when asked for more than 1000, or none.
  function AgentLimit(last: int): (n: nat)
    ensures 1 <= n <= AGENT_MAX_LINES
  {
    if 0 < last <= AGENT_MAX_LINES then last else AGENT_DEFAULT_LINES
  }

  // What the server answers over the agent's answers, and what it would over
  // the complete logs.
  function PodAnswer(logs: seq<seq<Line>>, limit: nat): seq<Line> {
    Tail(Sort(Concat(Tails(logs, AgentLimit(limit)))), limit)
  }

  function CompleteAnswer(logs: seq<seq<Line>>, limit: nat): seq<Line> {
    Tail(Sort(Concat(logs)), limit)
  }

  lemma PodLogsAreComplete(logs: seq<seq<Line>>, limit: nat)
    requires 1 <= limit <= AGENT_MAX_LINES && forall i | 0 <= i < |logs| :: Sorted(logs[i])
    ensures PodAnswer(logs, limit) == CompleteAnswer(logs, limit)
  {
    PartialFetchSuffices(logs, AgentLimit(limit), limit);
  }

  ghost predicate WithheldOutside(logs: seq<seq<Line>>, e: nat, answer: seq<Line>) {
    forall i, x | 0 <= i < |logs| && x in Withheld(logs[i], e) :: x !in answer
  }

  lemma {:induction false} DropUnusedFront(a: seq<Line>, front: seq<Line>, kept: seq<Line>, b: seq<Line>, n: nat)
    requires forall x | x in front :: x !in Tail(Sort(a + (front + kept) + b), n)
    ensures Tail(Sort(a + (front + kept) + b), n) == Tail(Sort(a + kept + b), n)
    decreases |front|
  {
    hide Sort, Tail;
    if front == [] {
      assert front + kept == kept;
    } else {
      var x, rest := front[0], front[1..];
      assert front == [x] + rest;
      Regroup(a, x, rest, kept, b);
      DropOutsideLine(a, x, rest + kept + b, n);
      DropUnusedFront(a, rest, kept, b, n);
    }
  }

  lemma OutsideRest(logs: seq<seq<Line>>, e: nat, answer: seq<Line>)
    requires logs != [] && WithheldOutside(logs, e, answer)
    ensures WithheldOutside(logs[1..], e, answer)
  {
  }

  lemma {:induction false} DropUnusedEverywhere(a: seq<Line>, logs: seq<seq<Line>>, e: nat, n: nat)
    requires WithheldOutside(logs, e, Tail(Sort(a + Concat(logs)), n))
    ensures Tail(Sort(a + Concat(logs)), n) == Tail(Sort(a + Concat(Tails(logs, e))), n)
    decreases |logs|
  {
    if logs != [] {
      var kept, front := Tail(logs[0], e), Withheld(logs[0], e);
      FirstContainer(a, logs, e);
      hide Sort, Tail, Concat, Tails, Withheld;
      DropUnusedFront(a, front, kept, Concat(logs[1..]), n);
      OutsideRest(logs, e, Tail(Sort(a + Concat(logs)), n));
      DropUnusedEverywhere(a + kept, logs[1..], e, n);
    }
  }

  ghost predicate WithheldAreDistinct(logs: seq<seq<Line>>, e: nat) {
    forall i, x | 0 <= i < |logs| && x in Withheld(logs[i], e) :: x !in Concat(Tails(logs, e))
  }

  // For any limit, also one the agent does not honour: when no withheld line
  // repeats a sent one, the answer is the complete merge exactly if none of
  // the withheld lines belongs to it.
  lemma PartialFetchExact(logs: seq<seq<Line>>, e: nat, n: nat)
    requires WithheldAreDistinct(logs, e)
    ensures Tail(Sort(Concat(Tails(logs, e))), n) == Tail(Sort(Concat(logs)), n)
            <==> WithheldOutside(logs, e, Tail(Sort(Concat(logs)), n))
  {
    var full, sent := Tail(Sort(Concat(logs)), n), Concat(Tails(logs, e));
    if WithheldOutside(logs, e, full) {
      assert [] + Concat(logs) == Concat(logs) && [] + sent == sent;
      DropUnusedEverywhere([], logs, e, n);
    }
    if Tail(Sort(sent), n) == full {
      forall i, x | 0 <= i < |logs| && x in Withheld(logs[i], e)
        ensures x !in full
      {
        SortMembers(sent, x);
      }
    }
  }

  lemma {:induction false} ConcatLength(logs: seq<seq<Line>>, e: nat)
    ensures |Concat(Tails(logs, e))| <= |Concat(logs)|
    ensures |Concat(Tails(logs, e))| == |Concat(logs)| <==> forall i | 0 <= i < |logs| :: |logs[i]| <= e
    ensures (forall i | 0 <= i < |logs| :: |logs[i]| <= e) ==> Tails(logs, e) == logs
  {
    if logs != [] {
      TailsCons(logs, e);
      ConcatLength(logs[1..], e);
      assert forall i | 0 < i < |logs| :: logs[i] == logs[1..][i - 1];
      assert Concat(logs) == logs[0] + Concat(logs[1..]);
    }
  }

  // Beyond 1000 the fallback shows. As long as the agent's answers together
  // hold fewer lines than asked for, they are complete if and only if no
  // container has more than 100 lines.
  lemma LargeLimitFallsShort(logs: seq<seq<Line>>, limit: nat)
    requires limit > AGENT_MAX_LINES && |Concat(Tails(logs, AGENT_DEFAULT_LINES))| < limit
    ensures PodAnswer(logs, limit) == CompleteAnswer(logs, limit) <==>
            forall i | 0 <= i < |logs| :: |logs[i]| <= AGENT_DEFAULT_LINES
  {
    SortIsSorted(Concat(logs));
    SortIsSorted(Concat(Tails(logs, AGENT_DEFAULT_LINES)));
    ConcatLength(logs, AGENT_DEFAULT_LINES);
    hide Sorted, Sort, Concat, Tails;
  }

  const LONG_LOG: seq<Line> := seq(AGENT_DEFAULT_LINES + 1, _ => Line(0, "", ""))

  // One container with 101 lines is answered short for every such limit.
  lemma LongLogFallsShort(limit: nat)
    requires limit > AGENT_MAX_LINES
    ensures Sorted(LONG_LOG) && PodAnswer([LONG_LOG], limit) != CompleteAnswer([LONG_LOG], limit)
  {
    hide PodAnswer, CompleteAnswer;
    assert [LONG_LOG][0] == LONG_LOG;
    assert Tails([LONG_LOG], AGENT_DEFAULT_LINES) == [Tail(LONG_LOG, AGENT_DEFAULT_LINES)];
    assert Concat([Tail(LONG_LOG, AGENT_DEFAULT_LINES)]) == Tail(LONG_LOG, AGENT_DEFAULT_LINES);
    LargeLimitFallsShort([LONG_LOG], limit);
  }

  // The limits for which every pod with logs in time order is answered
  // completely are exactly those the agent honours.
  lemma HonouredLimitsExactly(limit: nat)
    requires limit >= 1
    ensures
      limit <= AGENT_MAX_LINES <==>
      forall logs: seq<seq<Line>> | (forall i | 0 <= i < |logs| :: Sorted(logs[i])) ::
        PodAnswer(logs, limit) == CompleteAnswer(logs, limit)
  {
    hide PodAnswer, CompleteAnswer;
    if limit <= AGENT_MAX_LINES {
      forall logs: seq<seq<Line>> | forall i | 0 <= i < |logs| :: Sorted(logs[i])
        ensures PodAnswer(logs, limit) == CompleteAnswer(logs, limit)
      {
        PodLogsAreComplete(logs, limit);
      }
    } else {
      LongLogFallsShort(limit);
      assert [LONG_LOG][0] == LONG_LOG;
    }
  }

  // ---------- the agent's handler ----------

  function First<T>(s: seq<T>, n: nat): (r: seq<T>)
    ensures |r| == if |s| <= n then |s| else n
  {
    if |s| <= n then s else s[..n]
  }

  // handleLogs reads the runtime's channel until it holds the honoured number
  // of lines, however many the runtime would deliver.
  method HandleLogs(channel: seq<Line>, last: int) returns (lines: seq<Line>)
    ensures lines == First(channel, AgentLimit(last))
    ensures
      var honoured := if 0 < last <= 1000 then last else 100;
      lines == channel[..if |channel| < honoured then |channel| else honoured]
  {
    var lastLines := AGENT_DEFAULT_LINES;
    if 0 < last <= AGENT_MAX_LINES {
      lastLines := last;
    }
    lines := [];
    var i := 0;
    while i < |channel|
      invariant 0 <= i <= |channel| && i < lastLines && lines == channel[..i]
    {
      lines := lines + [channel[i]];
      i := i + 1;
      if |lines| >= lastLines {
        break;
      }
    }
  }

  // A runtime that delivers a container's last lines as asked, and possibly
  // more after them (it follows the log), gives the agent exactly those.
  lemma AgentSendsTail(log: seq<Line>, later: seq<Line>, last: int)
    requires |log| >= AgentLimit(last) || later == []
    ensures First(Tail(log, AgentLimit(last)) + later, AgentLimit(last)) == Tail(log, AgentLimit(last))
  {
  }

  // ---------- the server's merge ----------

  // A line as the agent sends it; a zero timestamp is absent.
  datatype AgentLine = AgentLine(timestamp: Option<int>, source: string, text: string)

  // A container row, with the agent's answer for it: None when the call failed.
  datatype Container = Container(podmanId: string, id: string, name: string, reply: Option<seq<AgentLine>>)

  datatype PodLogs = Lines(lines: seq<Line>) | NoContainerLogs

  function FirstNonEmpty(a: string, b: string): string {
    if a != "" then a else b
  }

  function Label(c: Container, l: AgentLine, now: int): Line {
    var containerId := FirstNonEmpty(c.podmanId, c.id);
    var source := FirstNonEmpty(l.source, FirstNonEmpty(c.name, containerId));
    var shown := if source == containerId || source == c.podmanId then FirstNonEmpty(c.name, source) else source;
    Line(if l.timestamp.Some? then l.timestamp.value else now, shown, l.text)
  }

  // A container with a name of its own never shows up under its id.
  lemma LabelShowsName(c: Container, l: AgentLine, now: int)
    requires c.name != "" && c.name != FirstNonEmpty(c.podmanId, c.id) && c.name != c.podmanId
    ensures Label(c, l, now).source != FirstNonEmpty(c.podmanId, c.id) && Label(c, l, now).source != c.podmanId
    ensures Label(c, l, now).source == c.name || Label(c, l, now).source == l.source
    ensures l.source == "" ==> Label(c, l, now).source == c.name
  {
  }

  // A delivered line keeps its text and its own time, or gets the current one;
  // it shows its source, but the container's name for one of the container's ids.
  predicate Delivered(x: Line, c: Container, l: AgentLine, now: int) {
    var id := if c.podmanId != "" then c.podmanId else c.id;
    && x.text == l.text && x.timestamp == (if l.timestamp.Some? then l.timestamp.value else now)
    && x.source == (if l.source != "" && l.source != id && l.source != c.podmanId then l.source
                    else if c.name != "" then c.name
                    else if l.source != "" then l.source else id)
  }

  lemma LabelDelivers(c: Container, l: AgentLine, now: int)
    ensures Delivered(Label(c, l, now), c, l, now)
  {
  }

  function Labelled(c: Container, now: int): (r: seq<Line>)
    ensures c.reply.Some? && (c.podmanId != "" || c.id != "") ==> |r| == |c.reply.value|
  {
    if c.reply.None? || (c.podmanId == "" && c.id == "") then []
    else seq(|c.reply.value|, i requires 0 <= i < |c.reply.value| => Label(c, c.reply.value[i], now))
  }

  function AllLabelled(containers: seq<Container>, now: int): (r: seq<seq<Line>>)
    ensures |r| == |containers|
  {
    seq(|containers|, i requires 0 <= i < |containers| => Labelled(containers[i], now))
  }

  lemma {:induction false} ConcatSnoc(parts: seq<seq<Line>>, part: seq<Line>)
    ensures Concat(parts + [part]) == Concat(parts) + part
  {
    if parts == [] {
      assert Concat([part]) == part + Concat([]);
    } else {
      ConcatSnoc(parts[1..], part);
      assert (parts + [part])[1..] == parts[1..] + [part];
    }
  }

  // One container's part: skipped without an id, and when its call failed.
  method LabelReplies(c: Container, now: int) returns (part: seq<Line>)
    ensures part == Labelled(c, now)
    ensures if c.reply.None? || (c.podmanId == "" && c.id == "") then part == []
            else |part| == |c.reply.value| && forall j | 0 <= j < |part| :: Delivered(part[j], c, c.reply.value[j], now)
  {
    hide Label, Delivered;
    part := [];
    var containerId := FirstNonEmpty(c.podmanId, c.id);
    if containerId != "" && c.reply.Some? {
      var replies := c.reply.value;
      for j := 0 to |replies|
        invariant part == Labelled(c, now)[..j]
        invariant forall k | 0 <= k < j :: Delivered(part[k], c, replies[k], now)
      {
        LabelDelivers(c, replies[j], now);
        part := part + [Label(c, replies[j], now)];
      }
    }
  }

  lemma NoContainers(now: int)
    ensures AllLabelled([], now) == []
  {
  }

  lemma OneMoreContainer(before: seq<Container>, c: Container, now: int)
    ensures Concat(AllLabelled(before + [c], now)) == Concat(AllLabelled(before, now)) + Labelled(c, now)
  {
    hide Labelled, Concat;
    assert AllLabelled(before + [c], now) == AllLabelled(before, now) + [Labelled(c, now)];
    ConcatSnoc(AllLabelled(before, now), Labelled(c, now));
  }

  lemma {:induction false} ConcatMembers(parts: seq<seq<Line>>, x: Line)
    ensures x in Concat(parts) <==> exists i :: 0 <= i < |parts| && x in parts[i]
  {
    if parts != [] {
      ConcatMembers(parts[1..], x);
      assert forall i | 0 < i < |parts| :: parts[i] == parts[1..][i - 1];
      if x in Concat(parts[1..]) {
        var i :| 0 <= i < |parts[1..]| && x in parts[1..][i];
        assert x in parts[i + 1];
      }
    }
  }

  // Some container with an id answered this line.
  ghost predicate FromSome(x: Line, containers: seq<Container>, now: int) {
    exists i, j :: 0 <= i < |containers| && containers[i].reply.Some? && 0 <= j < |containers[i].reply.value|
                   && (containers[i].podmanId != "" || containers[i].id != "")
                   && Delivered(x, containers[i], containers[i].reply.value[j], now)
  }

  lemma LabelledDeliver(c: Container, now: int)
    ensures forall x | x in Labelled(c, now) ::
              c.reply.Some? && (c.podmanId != "" || c.id != "")
              && exists j :: 0 <= j < |c.reply.value| && Delivered(x, c, c.reply.value[j], now)
    ensures c.reply.Some? && (c.podmanId != "" || c.id != "") ==>
              |Labelled(c, now)| == |c.reply.value|
              && forall j | 0 <= j < |c.reply.value| :: Delivered(Labelled(c, now)[j], c, c.reply.value[j], now)
  {
    hide Label, Delivered;
    if c.reply.Some? && (c.podmanId != "" || c.id != "") {
      forall j | 0 <= j < |c.reply.value|
        ensures Delivered(Labelled(c, now)[j], c, c.reply.value[j], now)
      {
        LabelDelivers(c, c.reply.value[j], now);
      }
    }
  }

  predicate Answers(c: Container) {
    c.reply.Some? && (c.podmanId != "" || c.id != "")
  }

  ghost predicate Present(lines: seq<Line>, c: Container, l: AgentLine, now: int) {
    exists x :: x in lines && Delivered(x, c, l, now)
  }

  // Every line a container with an id answered is there.
  ghost predicate AllPresent(lines: seq<Line>, containers: seq<Container>, now: int) {
    forall i, j | 0 <= i < |containers| && Answers(containers[i]) && 0 <= j < |containers[i].reply.value| ::
      Present(lines, containers[i], containers[i].reply.value[j], now)
  }

  // Every line of the merge is some container's answer, and every answer of a
  // container with an id is in it.
  lemma MergeDelivers(containers: seq<Container>, now: int)
    ensures forall x | x in Concat(AllLabelled(containers, now)) :: FromSome(x, containers, now)
    ensures AllPresent(Concat(AllLabelled(containers, now)), containers, now)
  {
    hide Labelled, Delivered, Concat;
    forall i
      ensures 0 <= i < |containers| ==> AllLabelled(containers, now)[i] == Labelled(containers[i], now)
    {
    }
    forall x | x in Concat(AllLabelled(containers, now))
      ensures FromSome(x, containers, now)
    {
      ConcatMembers(AllLabelled(containers, now), x);
      var i :| 0 <= i < |containers| && x in AllLabelled(containers, now)[i];
      LabelledDeliver(containers[i], now);
      var j :| 0 <= j < |containers[i].reply.value| && Delivered(x, containers[i], containers[i].reply.value[j], now);
    }
    forall i, j | 0 <= i < |containers| && Answers(containers[i]) && 0 <= j < |containers[i].reply.value|
      ensures Present(Concat(AllLabelled(containers, now)), containers[i], containers[i].reply.value[j], now)
    {
      LabelledDeliver(containers[i], now);
      var x := Labelled(containers[i], now)[j];
      ConcatMembers(AllLabelled(containers, now), x);
      assert x in AllLabelled(containers, now)[i];
    }
  }

  // Nothing is answered exactly if no container has anything to answer.
  lemma NothingMerged(containers: seq<Container>, now: int)
    ensures Concat(AllLabelled(containers, now)) == [] <==>
            forall i | 0 <= i < |containers| && Answers(containers[i]) :: containers[i].reply.value == []
  {
    MergeDelivers(containers, now);
    hide Delivered, Labelled, AllLabelled;
    var all := Concat(AllLabelled(containers, now));
    assert all != [] ==> all[0] in all && FromSome(all[0], containers, now);
    if i :| 0 <= i < |containers| && Answers(containers[i]) && containers[i].reply.value != [] {
      assert Present(all, containers[i], containers[i].reply.value[0], now);
    }
  }

  // In the order of their own times, whichever containers they come from.
  ghost predicate InTimeOrder(lines: seq<Line>) {
    forall i, j | 0 <= i < j < |lines| :: lines[i].timestamp <= lines[j].timestamp
  }

  lemma MergeInOrder(all: seq<Line>, containers: seq<Container>, limit: nat, now: int)
    ensures InTimeOrder(Tail(Sort(all), limit)) && InTimeOrder(Sort(all))
    ensures forall x | x in Tail(Sort(all), limit) :: x in all
    ensures forall x | x in Sort(all) :: x in all
    ensures AllPresent(all, containers, now) ==> AllPresent(Sort(all), containers, now)
  {
    SortIsSorted(all);
    forall x
      ensures x in Sort(all) <==> x in all
    {
      SortMembers(all, x);
    }
    hide Sort, Delivered;
    if AllPresent(all, containers, now) {
      forall i, j | 0 <= i < |containers| && Answers(containers[i]) && 0 <= j < |containers[i].reply.value|
        ensures Present(Sort(all), containers[i], containers[i].reply.value[j], now)
      {
        assert Present(all, containers[i], containers[i].reply.value[j], now);
      }
    }
  }

  method ReadAgentContainerLogs(containers: seq<Container>, limit: nat, now: int) returns (result: PodLogs)
    ensures
      var all := Concat(AllLabelled(containers, now));
      if all == [] then result == NoContainerLogs
      else result == Lines(if limit > 0 then Tail(Sort(all), limit) else Sort(all))
    ensures result.Lines? ==> InTimeOrder(result.lines) && forall x | x in result.lines :: FromSome(x, containers, now)
    ensures result.Lines? && limit == 0 ==> AllPresent(result.lines, containers, now)
    ensures result.NoContainerLogs? <==>
            forall i | 0 <= i < |containers| && Answers(containers[i]) :: containers[i].reply.value == []
  {
    MergeDelivers(containers, now);
    NothingMerged(containers, now);
    MergeInOrder(Concat(AllLabelled(containers, now)), containers, limit, now);
    hide Sort, Labelled, AllLabelled, Delivered, FromSome, InTimeOrder, AllPresent, Answers;
    var lines := [];
    assert AllLabelled([], now) == [] by { NoContainers(now); }
    for i := 0 to |containers|
      invariant lines == Concat(AllLabelled(containers[..i], now))
    {
      assert containers[..i + 1] == containers[..i] + [containers[i]];
      OneMoreContainer(containers[..i], containers[i], now);
      var part := LabelReplies(containers[i], now);
      lines := lines + part;
    }
    assert containers[..|containers|] == containers;
    if lines == [] {
      return NoContainerLogs;
    }
    SortIsSorted(lines);
    lines := Sort(lines);
    if limit > 0 && |lines| > limit {
      lines := lines[|lines| - limit..];
    }
    return Lines(lines);
  }

  // Two containers with one answer each: the earlier one comes first.
  lemma EarlierFirst(a: Container, b: Container, x: AgentLine, y: AgentLine, now: int)
    requires a.podmanId != "" && b.podmanId != "" && a.reply == Some([x]) && b.reply == Some([y])
    requires x.timestamp.Some? && y.timestamp.Some?
    ensures
      var r := Sort(Concat(AllLabelled([a, b], now)));
      && |r| == 2
      && (x.timestamp.value <= y.timestamp.value ==> Delivered(r[0], a, x, now) && Delivered(r[1], b, y, now))
      && (x.timestamp.value > y.timestamp.value ==> Delivered(r[0], b, y, now) && Delivered(r[1], a, x, now))
  {
    LabelledDeliver(a, now);
    LabelledDeliver(b, now);
    hide Label, Labelled;
    var p, q := Labelled(a, now)[0], Labelled(b, now)[0];
    assert Labelled(a, now) == [p] && Labelled(b, now) == [q];
    assert AllLabelled([a, b], now) == [[p], [q]] && [[p], [q]][1..] == [[q]] && [[q]][1..] == [];
    assert Concat([[q]]) == [q] && Concat([[p], [q]]) == [p, q];
    assert [p, q][1..] == [q] && [q][1..] == [] && Sort([q]) == [q];
    assert Insert(p, []) == [p] && Sort([p, q]) == Insert(p, [q]);
    hide Delivered;
    assert Insert(p, [q]) == if p.timestamp <= q.timestamp then [p, q] else [q, p];
  }

  // The row as it is after the agent was asked for the last lines only.
  function Asked(c: Container, limit: nat): Container {
    if c.reply.None? then c else c.(reply := Some(Tail(c.reply.value, AgentLimit(limit))))
  }

  function Labels(c: Container, lines: seq<AgentLine>, now: int): (r: seq<Line>)
    ensures |r| == |lines|
  {
    seq(|lines|, i requires 0 <= i < |lines| => Label(c, lines[i], now))
  }

  // Labels do not depend on the rest of the agent's answer.
  lemma LabelsTail(c: Container, reply: Option<seq<AgentLine>>, lines: seq<AgentLine>, now: int, n: nat)
    ensures Labels(c.(reply := reply), Tail(lines, n), now) == Tail(Labels(c, lines, now), n)
  {
  }

  lemma LabelledAre(c: Container, now: int)
    ensures Labelled(c, now) == if c.reply.None? || (c.podmanId == "" && c.id == "") then [] else Labels(c, c.reply.value, now)
  {
    hide Label;
  }

  lemma LabelTail(c: Container, limit: nat, now: int)
    ensures Labelled(Asked(c, limit), now) == Tail(Labelled(c, now), AgentLimit(limit))
  {
    LabelledAre(c, now);
    LabelledAre(Asked(c, limit), now);
    if c.reply.Some? {
      LabelsTail(c, Asked(c, limit).reply, c.reply.value, now, AgentLimit(limit));
    }
    hide Labelled, Labels, Label, AgentLimit;
  }

  // The lines of one answer are in time order, absent times being the current one.
  predicate AnswersInOrder(lines: seq<AgentLine>, now: int) {
    forall i, j | 0 <= i < j < |lines| ::
      (if lines[i].timestamp.Some? then lines[i].timestamp.value else now)
      <= (if lines[j].timestamp.Some? then lines[j].timestamp.value else now)
  }

  lemma AnswersAreSorted(c: Container, now: int)
    requires c.reply.Some? ==> AnswersInOrder(c.reply.value, now)
    ensures Sorted(Labelled(c, now))
  {
    LabelledDeliver(c, now);
    hide Label;
  }

  // The whole path: containers answering through HandleLogs, each with a log
  // in time order, give the pod's complete last lines for every honoured limit.
  lemma PodLogsEndToEnd(complete: seq<Container>, limit: nat, now: int)
    requires 1 <= limit <= AGENT_MAX_LINES
    requires forall i | 0 <= i < |complete| && complete[i].reply.Some? :: AnswersInOrder(complete[i].reply.value, now)
    ensures
      var asked := seq(|complete|, i requires 0 <= i < |complete| => Asked(complete[i], limit));
      Tail(Sort(Concat(AllLabelled(asked, now))), limit) == Tail(Sort(Concat(AllLabelled(complete, now))), limit)
  {
    var asked := seq(|complete|, i requires 0 <= i < |complete| => Asked(complete[i], limit));
    assert AllLabelled(asked, now) == Tails(AllLabelled(complete, now), AgentLimit(limit)) by {
      forall i | 0 <= i < |complete|
        ensures AllLabelled(asked, now)[i] == Tail(Labelled(complete[i], now), AgentLimit(limit))
      {
        LabelTail(complete[i], limit, now);
      }
    }
    forall i | 0 <= i < |complete|
      ensures Sorted(AllLabelled(complete, now)[i])
    {
      AnswersAreSorted(complete[i], now);
    }
    PodLogsAreComplete(AllLabelled(complete, now), limit);
  }

  // ---------- the historical log files ----------

  // What opening a walked entry gives: its parsed lines in order (and whether
  // the scan ended early), or an error that does or does not mean "missing".
  datatype Entry =
    | File(lines: seq<Line>, scanFailed: bool)
    | Skipped
    | Vanished
    | Unreadable

  datatype History = History(lines: seq<Line>) | ReadError

  function Fresh(lines: seq<Line>, cutoff: int): seq<Line> {
    if lines == [] then []
    else (if lines[0].timestamp >= cutoff then [lines[0]] else []) + Fresh(lines[1..], cutoff)
  }

  lemma {:induction false} FreshSnoc(lines: seq<Line>, l: Line, cutoff: int)
    ensures Fresh(lines + [l], cutoff) == Fresh(lines, cutoff) + (if l.timestamp >= cutoff then [l] else [])
  {
    if lines == [] {
      assert lines + [l] == [l];
    } else {
      FreshSnoc(lines[1..], l, cutoff);
      assert (lines + [l])[1..] == lines[1..] + [l];
    }
  }

  // Exactly the lines not earlier than the cutoff, in their order: `from` tells
  // where each of them stood.
  lemma {:induction false} FreshIs(lines: seq<Line>, cutoff: int) returns (from: seq<nat>)
    ensures |from| == |Fresh(lines, cutoff)| && forall i, j | 0 <= i < j < |from| :: from[i] < from[j]
    ensures forall i | 0 <= i < |from| :: from[i] < |lines| && Fresh(lines, cutoff)[i] == lines[from[i]]
    ensures forall k | 0 <= k < |lines| :: k in from <==> lines[k].timestamp >= cutoff
  {
    if lines == [] {
      from := [];
    } else {
      var init, n := lines[..|lines| - 1], |lines| - 1;
      from := FreshIs(init, cutoff);
      FreshSnoc(init, lines[n], cutoff);
      assert lines == init + [lines[n]];
      if lines[n].timestamp >= cutoff {
        from := from + [n];
      }
    }
  }

  // Trimming early and trimming at the end come to the same.
  lemma TailOfTail(a: seq<Line>, b: seq<Line>, n: nat)
    ensures Tail(Tail(a, n) + b, n) == Tail(a + b, n)
  {
    var gone := |a| - |Tail(a, n)|;
    assert a == a[..gone] + Tail(a, n);
    assert a + b == a[..gone] + (Tail(a, n) + b);
    assert gone > 0 ==> |Tail(a, n)| == n;
  }

  lemma TailOfAppended(a: seq<Line>, b: seq<Line>, n: nat)
    ensures Tail(a + Tail(b, n), n) == Tail(a + b, n)
  {
    if |b| > n {
      assert (a + b)[|a + b| - n..] == b[|b| - n..];
      assert (a + Tail(b, n))[|a + Tail(b, n)| - n..] == Tail(b, n);
    }
  }

  // The loop body of the walk on the bounded buffer, against the unbounded one.
  lemma TrimmedStep(seen: seq<Line>, more: seq<Line>, n: nat)
    ensures Tail(Tail(seen, n) + Tail(more, n), n) == Tail(seen + more, n)
  {
    TailOfTail(seen, Tail(more, n), n);
    TailOfAppended(seen, more, n);
  }

  function Prepend(a: seq<Line>, b: Option<seq<Line>>): Option<seq<Line>> {
    match b
    case None => None
    case Some(rest) => Some(a + rest)
  }

  lemma PrependTwice(a: seq<Line>, b: seq<Line>, c: Option<seq<Line>>)
    ensures Prepend(a + b, c) == Prepend(a, Prepend(b, c))
  {
    if c.Some? {
      AppendAssociative(a, b, c.value);
    }
  }

  lemma PrependNothing(c: Option<seq<Line>>)
    ensures Prepend([], c) == c
  {
    if c.Some? {
      assert [] + c.value == c.value;
    }
  }

  // The trimming statement both loops share.
  method Trim(lines: seq<Line>, limit: nat) returns (kept: seq<Line>)
    ensures kept == Tail(lines, limit)
  {
    kept := lines;
    if |kept| > limit {
      kept := kept[|kept| - limit..];
    }
  }

  // One more line of a file, on the trimmed buffer.
  lemma LineRead(before: seq<Line>, l: Line, cutoff: int, limit: nat)
    ensures Tail(Fresh(before + [l], cutoff), limit) ==
            if l.timestamp < cutoff then Tail(Fresh(before, cutoff), limit)
            else Tail(Tail(Fresh(before, cutoff), limit) + [l], limit)
  {
    hide Fresh, Tail;
    FreshSnoc(before, l, cutoff);
    TailOfTail(Fresh(before, cutoff), [l], limit);
    assert Fresh(before, cutoff) + [] == Fresh(before, cutoff);
  }

  lemma NothingFresh(cutoff: int, limit: nat)
    ensures Tail(Fresh([], cutoff), limit) == []
  {
  }

  method ReadLogFile(lines: seq<Line>, cutoff: int, limit: nat) returns (kept: seq<Line>)
    ensures kept == Tail(Fresh(lines, cutoff), limit)
  {
    hide Fresh, Tail;
    kept := [];
    NothingFresh(cutoff, limit);
    for i := 0 to |lines|
      invariant kept == Tail(Fresh(lines[..i], cutoff), limit)
    {
      var parsed := lines[i];
      assert lines[..i + 1] == lines[..i] + [parsed];
      LineRead(lines[..i], parsed, cutoff, limit);
      if parsed.timestamp < cutoff {
        continue;
      }
      kept := Trim(kept + [parsed], limit);
    }
    assert lines[..|lines|] == lines;
  }

  // All fresh lines of the files the walk gets through, in walk order, with no
  // bound; None when an error ends the request.
  function AllFresh(entries: seq<Entry>, cutoff: int): Option<seq<Line>> {
    if entries == [] then Some([])
    else
      match entries[0]
      case Unreadable => None
      case Vanished => Some([])
      case Skipped => AllFresh(entries[1..], cutoff)
      case File(lines, scanFailed) =>
        if scanFailed then None else Prepend(Fresh(lines, cutoff), AllFresh(entries[1..], cutoff))
  }

  // The walk gets to an entry if no file in front of it has vanished.
  predicate WalkedTo(entries: seq<Entry>, i: nat) {
    i < |entries| && forall j | 0 <= j < i :: !entries[j].Vanished?
  }

  predicate Broken(e: Entry) {
    e.Unreadable? || (e.File? && e.scanFailed)
  }

  ghost predicate Breaks(entries: seq<Entry>) {
    exists i: nat :: WalkedTo(entries, i) && Broken(entries[i])
  }

  // Some file the walk gets to has this line, and it is fresh.
  ghost predicate Yields(entries: seq<Entry>, cutoff: int, x: Line) {
    x.timestamp >= cutoff && exists i: nat :: WalkedTo(entries, i) && entries[i].File? && x in entries[i].lines
  }

  lemma WalkCons(entries: seq<Entry>, i: nat)
    requires entries != []
    ensures WalkedTo(entries, i) <==> i == 0 || (!entries[0].Vanished? && WalkedTo(entries[1..], i - 1))
  {
    if i > 0 {
      assert forall j | 0 < j < |entries| :: entries[j] == entries[1..][j - 1];
      if !entries[0].Vanished? && WalkedTo(entries[1..], i - 1) {
        assert forall j | 0 <= j < i - 1 :: !entries[1..][j].Vanished?;
      }
    }
  }

  lemma WalkOn(entries: seq<Entry>, cutoff: int, x: Line)
    requires entries != []
    ensures Breaks(entries) <==> Broken(entries[0]) || (!entries[0].Vanished? && Breaks(entries[1..]))
    ensures Yields(entries, cutoff, x) <==>
            x.timestamp >= cutoff && ((entries[0].File? && x in entries[0].lines)
                                      || (!entries[0].Vanished? && Yields(entries[1..], cutoff, x)))
  {
    forall i: nat
      ensures WalkedTo(entries, i) <==> i == 0 || (!entries[0].Vanished? && WalkedTo(entries[1..], i - 1))
    {
      WalkCons(entries, i);
    }
    var rest := entries[1..];
    hide WalkedTo;
    if !entries[0].Vanished? {
      if i: nat :| WalkedTo(rest, i) && i < |rest| && Broken(rest[i]) {
        assert WalkedTo(entries, i + 1);
      }
      if i: nat :| WalkedTo(rest, i) && i < |rest| && rest[i].File? && x in rest[i].lines {
        assert WalkedTo(entries, i + 1);
      }
    }
  }

  lemma {:induction false} FreshMembers(lines: seq<Line>, cutoff: int, x: Line)
    ensures x in Fresh(lines, cutoff) <==> x in lines && x.timestamp >= cutoff
  {
    if lines != [] {
      FreshMembers(lines[1..], cutoff, x);
      assert lines == [lines[0]] + lines[1..];
    }
  }

  // The request fails if and only if the walk gets to a file it cannot read;
  // otherwise it yields the fresh lines of every file it gets to, and no others.
  lemma {:induction false} AllFreshIs(entries: seq<Entry>, cutoff: int, x: Line)
    ensures AllFresh(entries, cutoff) == None <==> Breaks(entries)
    ensures AllFresh(entries, cutoff).Some? ==> (x in AllFresh(entries, cutoff).value <==> Yields(entries, cutoff, x))
  {
    if entries != [] {
      AllFreshIs(entries[1..], cutoff, x);
      WalkOn(entries, cutoff, x);
      if entries[0].File? {
        FreshMembers(entries[0].lines, cutoff, x);
      }
      hide Breaks, Yields, Fresh;
    }
  }

  lemma NoLines(n: nat)
    ensures Tail<Line>([], n) == []
  {
  }

  lemma PrependNone(a: seq<Line>)
    ensures Prepend(a, None) == None
  {
  }

  lemma PrependEmpty(a: seq<Line>)
    ensures Prepend(a, Some([])) == Some(a)
  {
    assert a + [] == a;
  }

  // 24 hours, in nanoseconds.
  const DAY: int := 24 * 60 * 60 * 1_000_000_000

  lemma TailIsRead(entries: seq<Entry>, cutoff: int, limit: nat)
    ensures AllFresh(entries, cutoff) == None <==> Breaks(entries)
    ensures AllFresh(entries, cutoff).Some? ==>
              && |Tail(AllFresh(entries, cutoff).value, limit)| <= limit
              && forall x | x in Tail(AllFresh(entries, cutoff).value, limit) :: Yields(entries, cutoff, x)
  {
    forall x
      ensures AllFresh(entries, cutoff) == None <==> Breaks(entries)
      ensures AllFresh(entries, cutoff).Some? ==> (x in AllFresh(entries, cutoff).value <==> Yields(entries, cutoff, x))
    {
      AllFreshIs(entries, cutoff, x);
    }
    AllFreshIs(entries, cutoff, Line(0, "", ""));
    hide AllFresh, Breaks, Yields;
  }

  // The retention pass runs first; if it fails nothing is read.
  method ReadHistoricalLogs(retained: bool, entries: seq<Entry>, now: int, limit: nat) returns (result: History)
    ensures !retained ==> result == ReadError
    ensures retained ==>
      match AllFresh(entries, now - DAY)
      case None => result == ReadError
      case Some(all) =>
        result == History(if Tail(all, limit) == [] then [Line(now, "podorel", "No logs yet")] else Tail(all, limit))
    ensures result == ReadError <==> !retained || Breaks(entries)
    ensures result.History? ==>
              result.lines == [Line(now, "podorel", "No logs yet")]
              || (|result.lines| <= limit && forall x | x in result.lines :: Yields(entries, now - 86_400_000_000_000, x))
  {
    TailIsRead(entries, now - DAY, limit);
    hide Tail, Fresh, Prepend, Breaks, Yields;
    if !retained {
      return ReadError;
    }
    var cutoff := now - DAY;
    var lines: seq<Line> := [];
    ghost var seen: seq<Line> := [];
    NoLines(limit);
    PrependNothing(AllFresh(entries, cutoff));
    assert entries[0..] == entries;
    var i := 0;
    while i < |entries|
      invariant 0 <= i <= |entries| && lines == Tail(seen, limit)
      invariant AllFresh(entries, cutoff) == Prepend(seen, AllFresh(entries[i..], cutoff))
    {
      var entry := entries[i];
      assert entries[i..][1..] == entries[i + 1..];
      match entry {
        case Unreadable =>
          PrependNone(seen);
          return ReadError;
        case Vanished =>
          PrependEmpty(seen);
          break;
        case Skipped =>
        case File(fileLines, scanFailed) =>
          if scanFailed {
            PrependNone(seen);
            return ReadError;
          }
          var kept := ReadLogFile(fileLines, cutoff, limit);
          TrimmedStep(seen, Fresh(fileLines, cutoff), limit);
          PrependTwice(seen, Fresh(fileLines, cutoff), AllFresh(entries[i + 1..], cutoff));
          lines := Trim(lines + kept, limit);
          seen := seen + Fresh(fileLines, cutoff);
      }
      i := i + 1;
    }
    if i == |entries| {
      PrependEmpty(seen);
    }
    if lines == [] {
      lines := [Line(now, "podorel", "No logs yet")];
    }
    return History(lines);
  }
}
