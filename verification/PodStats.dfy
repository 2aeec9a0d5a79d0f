/**
 * AggregatePodStats: container stats summed per pod. CPU is a real number,
 * memory a 64-bit count that wraps around.
 */
module PodStats {

  const WORD: nat := 0x1_0000_0000_0000_0000
  const UNASSIGNED := "_unassigned"

  datatype ContainerStat = ContainerStat(podId: string, containerId: string, cpu: real, memory: nat)

  datatype PodStat = PodStat(podId: string, containerIds: seq<string>, cpu: real, memory: nat)

  // What some stats come to, without wrap-around.
  datatype Totals = Totals(cpu: real, memory: nat, count: nat)

  const NOTHING := Totals(0.0, 0, 0)

  function Plus(a: Totals, b: Totals): Totals {
    Totals(a.cpu + b.cpu, a.memory + b.memory, a.count + b.count)
  }

  lemma PlusLaws(a: Totals, b: Totals, x: Totals)
    ensures Plus(a, NOTHING) == a
    ensures Plus(Plus(a, x), b) == Plus(Plus(a, b), x) == Plus(a, Plus(b, x))
  {
  }

  function TotalsOf(stats: seq<ContainerStat>): (t: Totals)
    ensures t.count == |stats|
  {
    if stats == [] then NOTHING
    else
      var last := stats[|stats| - 1];
      Plus(TotalsOf(stats[..|stats| - 1]), Totals(last.cpu, last.memory, 1))
  }

  function PodKey(c: ContainerStat): string {
    if c.podId == "" then UNASSIGNED else c.podId
  }

  // The stats of one pod, in order.
  function OfPod(containers: seq<ContainerStat>, key: string): seq<ContainerStat> {
    if containers == [] then []
    else
      var before := OfPod(containers[..|containers| - 1], key);
      if PodKey(containers[|containers| - 1]) == key then before + [containers[|containers| - 1]] else before
  }

  function Ids(stats: seq<ContainerStat>): (ids: seq<string>)
    ensures |ids| == |stats|
  {
    seq(|stats|, i requires 0 <= i < |stats| => stats[i].containerId)
  }

  function Aggregate(containers: seq<ContainerStat>, key: string): PodStat {
    var mine := OfPod(containers, key);
    PodStat(key, Ids(mine), TotalsOf(mine).cpu, TotalsOf(mine).memory % WORD)
  }

  // One entry per pod that has a container, and it sums that pod's stats.
  ghost predicate Aggregates(out: map<string, PodStat>, containers: seq<ContainerStat>) {
    && (forall k :: k in out <==> OfPod(containers, k) != [])
    && (forall k | k in out :: out[k] == Aggregate(containers, k))
  }

  lemma NoStats()
    ensures Aggregates(map[], [])
  {
  }

  lemma OfPodSnoc(containers: seq<ContainerStat>, c: ContainerStat, key: string)
    ensures OfPod(containers + [c], key) ==
            if PodKey(c) == key then OfPod(containers, key) + [c] else OfPod(containers, key)
  {
    assert (containers + [c])[..|containers|] == containers;
  }

  lemma TotalsSnoc(stats: seq<ContainerStat>, c: ContainerStat)
    ensures TotalsOf(stats + [c]) == Plus(TotalsOf(stats), Totals(c.cpu, c.memory, 1))
  {
    assert (stats + [c])[..|stats|] == stats;
  }

  lemma NoTotals()
    ensures TotalsOf([]) == NOTHING && Ids([]) == []
  {
  }

  lemma OneMoreStat(out: map<string, PodStat>, containers: seq<ContainerStat>, c: ContainerStat)
    requires Aggregates(out, containers)
    ensures
      var key := PodKey(c);
      var was := if key in out then out[key] else PodStat("", [], 0.0, 0);
      var now := PodStat(key, was.containerIds + [c.containerId], was.cpu + c.cpu, (was.memory + c.memory) % WORD);
      Aggregates(out[key := now], containers + [c])
  {
    hide OfPod, TotalsOf, PodKey;
    var mine := OfPod(containers, PodKey(c));
    NoTotals();
    TotalsSnoc(mine, c);
    assert Ids(mine + [c]) == Ids(mine) + [c.containerId];
    forall k
      ensures OfPod(containers + [c], k) == if PodKey(c) == k then OfPod(containers, k) + [c] else OfPod(containers, k)
    {
      OfPodSnoc(containers, c, k);
    }
  }

  method AggregatePodStats(containers: seq<ContainerStat>) returns (out: map<string, PodStat>)
    ensures Aggregates(out, containers)
  {
    hide Aggregates;
    out := map[];
    NoStats();
    for i := 0 to |containers|
      invariant Aggregates(out, containers[..i])
    {
      var c := containers[i];
      assert containers[..i + 1] == containers[..i] + [c];
      var podId := PodKey(c);
      var aggregate := if podId in out then out[podId] else PodStat("", [], 0.0, 0);
      OneMoreStat(out, containers[..i], c);
      aggregate := aggregate.(podId := podId, containerIds := aggregate.containerIds + [c.containerId],
                              cpu := aggregate.cpu + c.cpu, memory := (aggregate.memory + c.memory) % WORD);
      out := out[podId := aggregate];
    }
    assert containers[..|containers|] == containers;
  }

  // ---------- the entries, container by container ----------

  predicate Indices(s: seq<nat>, n: nat) {
    (forall i, j | 0 <= i < j < |s| :: s[i] < s[j]) && forall i | 0 <= i < |s| :: s[i] < n
  }

  function CpuOf(containers: seq<ContainerStat>, at: seq<nat>): real
    requires Indices(at, |containers|)
  {
    if at == [] then 0.0 else CpuOf(containers, at[..|at| - 1]) + containers[at[|at| - 1]].cpu
  }

  function MemoryOf(containers: seq<ContainerStat>, at: seq<nat>): nat
    requires Indices(at, |containers|)
  {
    if at == [] then 0 else MemoryOf(containers, at[..|at| - 1]) + containers[at[|at| - 1]].memory
  }

  // Counted for a pod: its own containers, and those without a pod for the
  // entry of the unassigned ones.
  predicate CountsFor(c: ContainerStat, pod: string) {
    if c.podId == "" then pod == "_unassigned" else c.podId == pod
  }

  lemma PodKeyIs(c: ContainerStat, pod: string)
    ensures PodKey(c) == pod <==> CountsFor(c, pod)
  {
  }

  // Where they stand.
  function Standing(containers: seq<ContainerStat>, pod: string): (at: seq<nat>)
    ensures Indices(at, |containers|) && forall k: nat :: k in at <==> k < |containers| && CountsFor(containers[k], pod)
  {
    if containers == [] then []
    else
      var n := |containers| - 1;
      var before := Standing(containers[..n], pod);
      if CountsFor(containers[n], pod) then before + [n] else before
  }

  lemma {:induction false} OfPodIs(containers: seq<ContainerStat>, pod: string)
    ensures |OfPod(containers, pod)| == |Standing(containers, pod)|
    ensures forall i | 0 <= i < |Standing(containers, pod)| ::
              OfPod(containers, pod)[i] == containers[Standing(containers, pod)[i]]
  {
    hide PodKey, CountsFor;
    if containers != [] {
      var n := |containers| - 1;
      OfPodIs(containers[..n], pod);
      PodKeyIs(containers[n], pod);
    }
  }

  lemma {:induction false} SumsOf(containers: seq<ContainerStat>, at: seq<nat>, stats: seq<ContainerStat>)
    requires Indices(at, |containers|) && |stats| == |at|
    requires forall i | 0 <= i < |at| :: stats[i] == containers[at[i]]
    ensures TotalsOf(stats).cpu == CpuOf(containers, at) && TotalsOf(stats).memory == MemoryOf(containers, at)
  {
    if at != [] {
      SumsOf(containers, at[..|at| - 1], stats[..|at| - 1]);
    }
  }

  lemma CountsSomewhere(containers: seq<ContainerStat>, pod: string)
    ensures Standing(containers, pod) != [] <==> exists c | c in containers :: CountsFor(c, pod)
  {
    var at := Standing(containers, pod);
    hide CountsFor;
    if at != [] {
      assert at[0] in at && containers[at[0]] in containers;
    }
    if c :| c in containers && CountsFor(c, pod) {
      var k :| 0 <= k < |containers| && containers[k] == c;
      assert k in at;
    }
  }

  // An entry exists if and only if some container counts for its pod, and holds
  // the ids and the sums of exactly these containers, in their order.
  lemma EntryIs(out: map<string, PodStat>, containers: seq<ContainerStat>, pod: string)
    requires Aggregates(out, containers)
    ensures pod in out <==> exists c | c in containers :: CountsFor(c, pod)
    ensures pod in out ==>
              var at := Standing(containers, pod);
              && out[pod].podId == pod && |out[pod].containerIds| == |at|
              && (forall i | 0 <= i < |at| :: out[pod].containerIds[i] == containers[at[i]].containerId)
              && out[pod].cpu == CpuOf(containers, at)
              && out[pod].memory == MemoryOf(containers, at) % 0x1_0000_0000_0000_0000
  {
    OfPodIs(containers, pod);
    CountsSomewhere(containers, pod);
    SumsOf(containers, Standing(containers, pod), OfPod(containers, pod));
    hide OfPod, TotalsOf, CpuOf, MemoryOf, CountsFor, Standing, Indices;
    assert pod in out ==> out[pod] == Aggregate(containers, pod);
  }

  // ---------- conservation ----------

  predicate Distinct(keys: seq<string>) {
    forall i, j | 0 <= i < j < |keys| :: keys[i] != keys[j]
  }

  // The exact totals of the listed pods together.
  function Across(containers: seq<ContainerStat>, keys: seq<string>): Totals {
    if keys == [] then NOTHING
    else Plus(Across(containers, keys[..|keys| - 1]), TotalsOf(OfPod(containers, keys[|keys| - 1])))
  }

  lemma {:induction false} AcrossSnoc(containers: seq<ContainerStat>, c: ContainerStat, keys: seq<string>)
    requires Distinct(keys)
    ensures Across(containers + [c], keys) ==
            if PodKey(c) in keys then Plus(Across(containers, keys), Totals(c.cpu, c.memory, 1)) else Across(containers, keys)
  {
    if keys != [] {
      hide OfPod, TotalsOf, PodKey, Plus;
      var init, last := keys[..|keys| - 1], keys[|keys| - 1];
      assert keys == init + [last];
      AcrossSnoc(containers, c, init);
      OfPodSnoc(containers, c, last);
      TotalsSnoc(OfPod(containers, last), c);
      PlusLaws(Across(containers, init), TotalsOf(OfPod(containers, last)), Totals(c.cpu, c.memory, 1));
    }
  }

  lemma NothingOfPod(key: string)
    ensures TotalsOf(OfPod([], key)) == NOTHING
  {
  }

  lemma {:induction false} AcrossNothing(keys: seq<string>)
    ensures Across([], keys) == NOTHING
  {
    if keys != [] {
      hide Plus, OfPod, TotalsOf;
      AcrossNothing(keys[..|keys| - 1]);
      NothingOfPod(keys[|keys| - 1]);
      PlusLaws(NOTHING, NOTHING, NOTHING);
    }
  }

  // Summed over all pods, nothing is lost and nothing counted twice.
  lemma {:induction false} AcrossAllPods(containers: seq<ContainerStat>, keys: seq<string>)
    requires Distinct(keys) && forall c | c in containers :: PodKey(c) in keys
    ensures Across(containers, keys) == TotalsOf(containers)
  {
    if containers == [] {
      AcrossNothing(keys);
    } else {
      hide OfPod, Across, PodKey;
      var init, last := containers[..|containers| - 1], containers[|containers| - 1];
      assert containers == init + [last];
      AcrossAllPods(init, keys);
      AcrossSnoc(init, last, keys);
    }
  }

  // The sums over the answer itself, whose memory entries have wrapped.
  function Answered(out: map<string, PodStat>, keys: seq<string>): Totals
    requires forall k | k in keys :: k in out
  {
    if keys == [] then NOTHING
    else
      var last := out[keys[|keys| - 1]];
      Plus(Answered(out, keys[..|keys| - 1]), Totals(last.cpu, last.memory, |last.containerIds|))
  }

  lemma Wraps(a: nat, t: nat, m: nat)
    requires a % WORD == t % WORD && a <= t
    ensures (a + m % WORD) % WORD == (t + m) % WORD && a + m % WORD <= t + m
  {
  }

  lemma {:induction false} AnsweredIsAcross(out: map<string, PodStat>, containers: seq<ContainerStat>, keys: seq<string>)
    requires Aggregates(out, containers) && forall k | k in keys :: k in out
    ensures
      var a, t := Answered(out, keys), Across(containers, keys);
      && a.cpu == t.cpu && a.count == t.count && a.memory <= t.memory
      && a.memory % WORD == t.memory % WORD
      && (t.memory < WORD ==> a.memory == t.memory)
  {
    if keys != [] {
      var init, last := keys[..|keys| - 1], keys[|keys| - 1];
      AnsweredIsAcross(out, containers, init);
      assert out[last] == Aggregate(containers, last);
      var mine := TotalsOf(OfPod(containers, last));
      hide OfPod, TotalsOf;
      assert out[last].cpu == mine.cpu && out[last].memory == mine.memory % WORD && |out[last].containerIds| == mine.count;
      assert Across(containers, keys) == Plus(Across(containers, init), mine);
      hide Aggregates, Aggregate, Across;
      Wraps(Answered(out, init).memory, Across(containers, init).memory, mine.memory);
    }
  }

  lemma {:induction false} HasPod(containers: seq<ContainerStat>, c: ContainerStat)
    requires c in containers
    ensures c in OfPod(containers, PodKey(c))
  {
    hide PodKey;
    var init, last := containers[..|containers| - 1], containers[|containers| - 1];
    assert containers == init + [last];
    if c != last {
      HasPod(init, c);
    }
  }

  // Over all pods of the answer, CPU and container counts add up exactly to
  // the containers'; memory does modulo 64 bits, and exactly if it fits.
  lemma AggregationConserves(out: map<string, PodStat>, containers: seq<ContainerStat>, keys: seq<string>)
    requires Aggregates(out, containers) && Distinct(keys) && forall k :: k in keys <==> k in out
    ensures
      var a, t := Answered(out, keys), TotalsOf(containers);
      && a.cpu == t.cpu && a.count == |containers|
      && a.memory % WORD == t.memory % WORD && (t.memory < WORD ==> a.memory == t.memory)
  {
    hide OfPod, TotalsOf, Across, Answered, PodKey;
    forall c | c in containers
      ensures PodKey(c) in keys
    {
      HasPod(containers, c);
    }
    AcrossAllPods(containers, keys);
    AnsweredIsAcross(out, containers, keys);
  }
}
