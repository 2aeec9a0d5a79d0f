/**
 * CPUTracker: turns the CPU times of successive stat batches into rates. Rates
 * are real numbers here; the two-decimal text of a rate is not modelled.
 */
module CpuTracker {
  import opened Wrappers

  datatype Stat = Stat(containerId: string, name: string, cpuTime: int, percent: real)

  datatype Sample = Sample(cpuTime: int, at: int)

  // A batch of stats and when it was taken; None is Go's zero time.
  datatype Batch = Batch(stats: seq<Stat>, now: Option<int>)

  function Key(s: Stat): string {
    if s.containerId != "" then s.containerId else s.name
  }

  predicate Usable(s: Stat, now: Option<int>) {
    Key(s) != "" && s.cpuTime > 0 && now.Some?
  }

  // The rate between two samples, in percent of one CPU.
  function Rate(from: Sample, cpuTime: int, at: int): real {
    if cpuTime > from.cpuTime && at > from.at
    then ((cpuTime - from.cpuTime) as real / (at - from.at) as real) * 100.0
    else 0.0
  }

  // The samples the first n entries of a batch leave, later entries winning.
  function TrackedUpTo(b: Batch, n: nat): map<string, Sample>
    requires n <= |b.stats|
  {
    if n == 0 then map[]
    else
      var s := b.stats[n - 1];
      if Usable(s, b.now) then TrackedUpTo(b, n - 1)[Key(s) := Sample(s.cpuTime, b.now.value)]
      else TrackedUpTo(b, n - 1)
  }

  function Tracked(b: Batch): map<string, Sample> {
    TrackedUpTo(b, |b.stats|)
  }

  // What Apply makes of entry i: it is compared with an earlier entry of the
  // same batch if there is one for its key, else with the previous batch.
  function Reported(previous: map<string, Sample>, b: Batch, i: nat): Stat
    requires i < |b.stats|
  {
    var s := b.stats[i];
    if !Usable(s, b.now) then s
    else
      var known := previous + TrackedUpTo(b, i);
      s.(percent := if Key(s) in known then Rate(known[Key(s)], s.cpuTime, b.now.value) else 0.0)
  }

  // What is remembered after a batch: the old samples overwritten by the
  // batch's, less every key the batch did not have.
  function Remembered(previous: map<string, Sample>, b: Batch): map<string, Sample> {
    var m := previous + Tracked(b);
    map k | k in m && k in Tracked(b).Keys :: m[k]
  }

  lemma NothingYet(b: Batch)
    ensures TrackedUpTo(b, 0) == map[]
  {
  }

  // What entry i adds to the samples, and what is reported for it.
  lemma EntryStep(previous: map<string, Sample>, b: Batch, i: nat)
    requires i < |b.stats|
    ensures
      var s := b.stats[i];
      var known := previous + TrackedUpTo(b, i);
      if Usable(s, b.now) then
        && previous + TrackedUpTo(b, i + 1) == known[Key(s) := Sample(s.cpuTime, b.now.value)]
        && TrackedUpTo(b, i + 1).Keys == TrackedUpTo(b, i).Keys + {Key(s)}
        && Reported(previous, b, i) ==
             s.(percent := if Key(s) in known then Rate(known[Key(s)], s.cpuTime, b.now.value) else 0.0)
      else TrackedUpTo(b, i + 1) == TrackedUpTo(b, i) && Reported(previous, b, i) == s
  {
  }

  lemma WholeBatch(b: Batch)
    ensures Tracked(b) == TrackedUpTo(b, |b.stats|)
  {
  }

  class CPUTracker {
    var previous: map<string, Sample>

    constructor ()
      ensures previous == map[]
    {
      previous := map[];
    }

    method Apply(stats: array<Stat>, now: Option<int>)
      modifies this, stats
      ensures
        var b := Batch(old(stats[..]), now);
        && previous == Remembered(old(previous), b)
        && forall i | 0 <= i < stats.Length :: stats[i] == Reported(old(previous), b, i)
      // An entry without a name, CPU time or moment is left alone.
      ensures forall i | 0 <= i < stats.Length ::
                (stats[i].(percent := 0.0) == old(stats[i]).(percent := 0.0))
                && ((old(stats[i]).containerId == "" && old(stats[i]).name == "") || old(stats[i]).cpuTime <= 0 || now.None? ==>
                      stats[i] == old(stats[i]))
    {
      hide Rate, Tracked, TrackedUpTo, Reported;
      ghost var b := Batch(stats[..], now);
      var seen: set<string> := {};
      NothingYet(b);
      for i := 0 to stats.Length
        invariant forall j | 0 <= j < i :: stats[j] == Reported(old(previous), b, j)
        invariant forall j | i <= j < stats.Length :: stats[j] == b.stats[j]
        invariant previous == old(previous) + TrackedUpTo(b, i)
        invariant seen == TrackedUpTo(b, i).Keys
      {
        EntryStep(old(previous), b, i);
        var key := Key(stats[i]);
        if key == "" || stats[i].cpuTime <= 0 || now.None? {
          continue;
        }
        seen := seen + {key};
        var live := 0.0;
        if key in previous {
          live := Rate(previous[key], stats[i].cpuTime, now.value);
        }
        previous := previous[key := Sample(stats[i].cpuTime, now.value)];
        stats[i] := stats[i].(percent := live);
      }
      assert TrackedUpTo(b, |b.stats|) == Tracked(b) by { WholeBatch(b); }
      forall i | 0 <= i < stats.Length
        ensures stats[i].(percent := 0.0) == b.stats[i].(percent := 0.0)
        ensures !Usable(b.stats[i], b.now) ==> stats[i] == b.stats[i]
      {
        EntryStep(old(previous), b, i);
      }
      DropUnseen(seen);
    }

    // The closing loop: forgets every key the batch did not have.
    method DropUnseen(seen: set<string>)
      modifies this
      ensures previous == map k | k in old(previous) && k in seen :: old(previous)[k]
    {
      var unchecked := previous.Keys;
      while unchecked != {}
        invariant unchecked <= old(previous).Keys
        invariant previous == map k | k in old(previous) && (k in seen || k in unchecked) :: old(previous)[k]
        decreases |unchecked|
      {
        var key :| key in unchecked;
        unchecked := unchecked - {key};
        if key !in seen {
          previous := previous - {key};
        }
      }
    }
  }

  // That is exactly the batch's own samples.
  lemma RememberedIsTracked(previous: map<string, Sample>, b: Batch)
    ensures Remembered(previous, b) == Tracked(b)
  {
    hide Tracked;
  }

  // ---------- a tracker's memory is the last batch ----------

  ghost predicate HasUsable(b: Batch, n: nat, key: string)
    requires n <= |b.stats|
  {
    exists i :: 0 <= i < n && Usable(b.stats[i], b.now) && Key(b.stats[i]) == key
  }

  lemma HasUsableStep(b: Batch, n: nat, key: string)
    requires 0 < n <= |b.stats|
    ensures HasUsable(b, n, key) <==>
            HasUsable(b, n - 1, key) || (Usable(b.stats[n - 1], b.now) && Key(b.stats[n - 1]) == key)
  {
  }

  lemma NothingUsable(b: Batch, key: string)
    ensures !HasUsable(b, 0, key)
  {
  }

  // Exactly the usable keys of the batch are tracked.
  lemma {:induction false} TrackedKeys(b: Batch, n: nat, key: string)
    requires n <= |b.stats|
    ensures key in TrackedUpTo(b, n) <==> HasUsable(b, n, key)
  {
    hide Usable, Key, HasUsable;
    if n > 0 {
      TrackedKeys(b, n - 1, key);
      HasUsableStep(b, n, key);
    } else {
      NothingUsable(b, key);
    }
  }

  // Each with its last usable entry.
  lemma {:induction false} TrackedIsLast(b: Batch, n: nat, key: string) returns (i: nat)
    requires n <= |b.stats| && key in TrackedUpTo(b, n)
    ensures i < n && Usable(b.stats[i], b.now) && Key(b.stats[i]) == key
    ensures TrackedUpTo(b, n)[key] == Sample(b.stats[i].cpuTime, b.now.value)
    ensures forall j | i < j < n && Usable(b.stats[j], b.now) :: Key(b.stats[j]) != key
  {
    hide Key;
    if Usable(b.stats[n - 1], b.now) && Key(b.stats[n - 1]) == key {
      i := n - 1;
    } else {
      i := TrackedIsLast(b, n - 1, key);
    }
  }

  function StateAfter(previous: map<string, Sample>, batches: seq<Batch>): map<string, Sample>
    decreases |batches|
  {
    if batches == [] then previous else StateAfter(Remembered(previous, batches[0]), batches[1..])
  }

  // Whatever the tracker saw before, after a batch it remembers that batch only:
  // what the next batch reports depends on these two and nothing earlier.
  lemma {:induction false} OnlyLastBatchMatters(previous: map<string, Sample>, batches: seq<Batch>)
    requires batches != []
    ensures StateAfter(previous, batches) == Tracked(batches[|batches| - 1])
    decreases |batches|
  {
    hide Remembered, Tracked;
    RememberedIsTracked(previous, batches[0]);
    if |batches| > 1 {
      OnlyLastBatchMatters(Remembered(previous, batches[0]), batches[1..]);
    }
  }

  // ---------- rates add up ----------

  // Where a key first and last stands in a batch that has it.
  predicate FirstEntry(b: Batch, key: string, i: nat) {
    && i < |b.stats| && Usable(b.stats[i], b.now) && Key(b.stats[i]) == key
    && forall j | 0 <= j < i && Usable(b.stats[j], b.now) :: Key(b.stats[j]) != key
  }

  predicate LastEntry(b: Batch, key: string, i: nat) {
    && i < |b.stats| && Usable(b.stats[i], b.now) && Key(b.stats[i]) == key
    && forall j | i < j < |b.stats| && Usable(b.stats[j], b.now) :: Key(b.stats[j]) != key
  }

  lemma LastEntryTracked(b: Batch, key: string, i: nat)
    requires LastEntry(b, key, i)
    ensures key in Tracked(b) && Tracked(b)[key] == Sample(b.stats[i].cpuTime, b.now.value)
  {
    TrackedKeys(b, |b.stats|, key);
    assert HasUsable(b, |b.stats|, key);
    var last := TrackedIsLast(b, |b.stats|, key);
  }

  lemma RateTimesWall(used: real, wall: real)
    requires wall > 0.0
    ensures (used / wall * 100.0) * wall / 100.0 == used
  {
    var r := used / wall;
    assert r * wall == used;
    assert (r * 100.0) * wall == (r * wall) * 100.0;
  }

  // One batch after another: the rate of the key's first entry, times the time
  // between the batches, is the CPU time used since its last entry before.
  lemma OneInterval(b1: Batch, b2: Batch, key: string, last: nat, first: nat)
    requires LastEntry(b1, key, last) && FirstEntry(b2, key, first)
    requires b1.stats[last].cpuTime <= b2.stats[first].cpuTime && b1.now.value < b2.now.value
    ensures Reported(Tracked(b1), b2, first).percent * (b2.now.value - b1.now.value) as real / 100.0
            == (b2.stats[first].cpuTime - b1.stats[last].cpuTime) as real
  {
    LastEntryTracked(b1, key, last);
    TrackedKeys(b2, first, key);
    var from := Sample(b1.stats[last].cpuTime, b1.now.value);
    var used, wall := b2.stats[first].cpuTime - from.cpuTime, b2.now.value - from.at;
    var known := Tracked(b1) + TrackedUpTo(b2, first);
    assert key in known && known[key] == from;
    assert Reported(Tracked(b1), b2, first).percent == Rate(from, b2.stats[first].cpuTime, b2.now.value);
    if used > 0 {
      RateTimesWall(used as real, wall as real);
    }
  }

  // A further entry for the key in the same batch always shows a rate of zero.
  lemma RepeatedEntryIsZero(previous: map<string, Sample>, b: Batch, first: nat, i: nat)
    requires first < i < |b.stats| && Usable(b.stats[i], b.now) && FirstEntry(b, Key(b.stats[i]), first)
    ensures Reported(previous, b, i).percent == 0.0
  {
    var key := Key(b.stats[i]);
    TrackedKeys(b, i, key);
    assert HasUsable(b, i, key);
    var last := TrackedIsLast(b, i, key);
  }

  // Entries of two batches belong together if they carry the same container id;
  // without one, if they carry the same name.
  lemma KeyedByContainer(a: Stat, b: Stat, t1: int, t2: int)
    requires a.cpuTime > 0 && b.cpuTime > a.cpuTime && t2 > t1
    ensures
      var rate := Reported(Tracked(Batch([a], Some(t1))), Batch([b], Some(t2)), 0).percent;
      var grown := (b.cpuTime - a.cpuTime) as real / (t2 - t1) as real * 100.0;
      && (a.containerId != "" && b.containerId != "" ==>
            rate == if a.containerId == b.containerId then grown else 0.0)
      && (a.containerId == "" && b.containerId == "" && a.name != "" && b.name != "" ==>
            rate == if a.name == b.name then grown else 0.0)
  {
    assert TrackedUpTo(Batch([a], Some(t1)), 0) == map[] && TrackedUpTo(Batch([b], Some(t2)), 0) == map[];
  }

  // A run of batches, with where a key first and last stands in each.
  predicate Entries(batches: seq<Batch>, firsts: seq<nat>, lasts: seq<nat>) {
    && |batches| == |firsts| == |lasts|
    && forall n | 0 <= n < |batches| ::
         firsts[n] < |batches[n].stats| && lasts[n] < |batches[n].stats| && batches[n].now.Some?
  }

  function FirstCpu(batches: seq<Batch>, firsts: seq<nat>, lasts: seq<nat>, n: nat): int
    requires Entries(batches, firsts, lasts) && n < |batches|
  {
    batches[n].stats[firsts[n]].cpuTime
  }

  function LastCpu(batches: seq<Batch>, firsts: seq<nat>, lasts: seq<nat>, n: nat): int
    requires Entries(batches, firsts, lasts) && n < |batches|
  {
    batches[n].stats[lasts[n]].cpuTime
  }

  // Batch n's reported rate times the time since the batch before, over 100.
  function Accounted(batches: seq<Batch>, firsts: seq<nat>, lasts: seq<nat>, n: nat): real
    requires Entries(batches, firsts, lasts) && 0 < n < |batches|
  {
    Reported(Tracked(batches[n - 1]), batches[n], firsts[n]).percent
    * (batches[n].now.value - batches[n - 1].now.value) as real / 100.0
  }

  // Over the first n + 1 batches: the sum of these, and what the key's CPU time
  // moves between its first and last entry of a batch.
  function RateSum(batches: seq<Batch>, firsts: seq<nat>, lasts: seq<nat>, n: nat): real
    requires Entries(batches, firsts, lasts) && n < |batches|
  {
    if n == 0 then 0.0 else RateSum(batches, firsts, lasts, n - 1) + Accounted(batches, firsts, lasts, n)
  }

  function WithinBatches(batches: seq<Batch>, firsts: seq<nat>, lasts: seq<nat>, n: nat): int
    requires Entries(batches, firsts, lasts) && n < |batches|
  {
    LastCpu(batches, firsts, lasts, n) - FirstCpu(batches, firsts, lasts, n)
    + if n == 0 then 0 else WithinBatches(batches, firsts, lasts, n - 1)
  }

  predicate SteadyRun(batches: seq<Batch>, key: string, firsts: seq<nat>, lasts: seq<nat>) {
    && Entries(batches, firsts, lasts)
    && (forall n | 0 <= n < |batches| :: FirstEntry(batches[n], key, firsts[n]) && LastEntry(batches[n], key, lasts[n]))
    && (forall n | 0 < n < |batches| ::
          && LastCpu(batches, firsts, lasts, n - 1) <= FirstCpu(batches, firsts, lasts, n)
          && batches[n - 1].now.value < batches[n].now.value)
  }

  lemma AccountedIs(batches: seq<Batch>, key: string, firsts: seq<nat>, lasts: seq<nat>, n: nat)
    requires SteadyRun(batches, key, firsts, lasts) && 0 < n < |batches|
    ensures Accounted(batches, firsts, lasts, n) ==
            (FirstCpu(batches, firsts, lasts, n) - LastCpu(batches, firsts, lasts, n - 1)) as real
  {
    hide FirstEntry, LastEntry, Reported, Tracked;
    assert FirstEntry(batches[n], key, firsts[n]) && LastEntry(batches[n - 1], key, lasts[n - 1]);
    assert LastCpu(batches, firsts, lasts, n - 1) <= FirstCpu(batches, firsts, lasts, n);
    OneInterval(batches[n - 1], batches[n], key, lasts[n - 1], firsts[n]);
  }

  // Telescoping: over any run in which a container is always present, its CPU
  // time does not fall from batch to batch and the clock advances, the reported
  // rates account for all of the CPU time it used but what moves between two
  // entries of one batch.
  lemma {:induction false} RatesTelescope(batches: seq<Batch>, key: string, firsts: seq<nat>, lasts: seq<nat>, n: nat)
    requires SteadyRun(batches, key, firsts, lasts) && n < |batches|
    ensures RateSum(batches, firsts, lasts, n) + WithinBatches(batches, firsts, lasts, n) as real ==
            (LastCpu(batches, firsts, lasts, n) - FirstCpu(batches, firsts, lasts, 0)) as real
  {
    hide SteadyRun, Accounted, FirstCpu, LastCpu;
    if n > 0 {
      RatesTelescope(batches, key, firsts, lasts, n - 1);
      AccountedIs(batches, key, firsts, lasts, n);
    }
  }

  // With one entry a batch, or repeated ones that agree, that is everything.
  lemma {:induction false} AgreeingEntries(batches: seq<Batch>, firsts: seq<nat>, lasts: seq<nat>, n: nat)
    requires Entries(batches, firsts, lasts) && n < |batches|
    requires forall m | 0 <= m <= n :: FirstCpu(batches, firsts, lasts, m) == LastCpu(batches, firsts, lasts, m)
    ensures WithinBatches(batches, firsts, lasts, n) == 0
  {
    if n > 0 {
      AgreeingEntries(batches, firsts, lasts, n - 1);
    }
  }

  // A counter that restarts, a clock that stands still, or a key the previous
  // batch did not have: the rate is zero.
  lemma ZeroRate(previous: map<string, Sample>, b: Batch, i: nat)
    requires i < |b.stats| && Usable(b.stats[i], b.now)
    ensures
      var key := Key(b.stats[i]);
      var known := previous + TrackedUpTo(b, i);
      Reported(previous, b, i).percent == 0.0 <==>
        key !in known || b.stats[i].cpuTime <= known[key].cpuTime || b.now.value <= known[key].at
  {
  }
}
