/**
 * The container index: resolves whatever name a stats sample uses for a
 * container (full id, 12-character id, name) to the container and its pod.
 */
module ContainerLookup {
  import opened AsciiText

  // ---------- text ----------

  function FirstNonEmpty(a: string, b: string): string {
    if a != "" then a else b
  }

  function Normalize(s: string): string {
    Lower(Trim(s))
  }

  // ---------- what the agent reports ----------

  datatype ContainerReport = ContainerReport(id: string, altId: string, name: string, podId: string, health: string)

  datatype StatReport = StatReport(containerId: string, name: string, podId: string, memoryBytes: nat)

  function ContainerId(c: ContainerReport): string {
    FirstNonEmpty(c.id, c.altId)
  }

  // ---------- the container index ----------

  const SHORT_ID := 12

  // The keys under which a container can be looked up; the index skips
  // containers that report their id in the alternative field only.
  function KeysOf(c: ContainerReport): set<string> {
    if c.id == "" then {}
    else
      {Normalize(c.id), Normalize(c.name)} + (if |c.id| > SHORT_ID then {Normalize(c.id[..SHORT_ID])} else {}) - {""}
  }

  // The reference: the last container in the list that answers to the key.
  function LastId(containers: seq<ContainerReport>, key: string): string {
    if containers == [] then ""
    else if key in KeysOf(containers[|containers| - 1]) then containers[|containers| - 1].id
    else LastId(containers[..|containers| - 1], key)
  }

  // For the pod, the last one that answers to the key and knows its pod.
  function LastPod(containers: seq<ContainerReport>, key: string): string {
    if containers == [] then ""
    else
      var last := containers[|containers| - 1];
      if key in KeysOf(last) && last.podId != "" then last.podId
      else LastPod(containers[..|containers| - 1], key)
  }

  function Lookup(m: map<string, string>, key: string): string {
    if key in m then m[key] else ""
  }

  // A linear scan for a stat: the id the agent used first, then its name; a
  // later hit overrides the container, the first known pod is kept.
  function ScanStat(containers: seq<ContainerReport>, stat: StatReport): (string, string) {
    var k1, k2 := Normalize(stat.containerId), Normalize(stat.name);
    var id1 := if k1 != "" && LastId(containers, k1) != "" then LastId(containers, k1) else stat.containerId;
    var pod1 := if k1 != "" && stat.podId == "" then LastPod(containers, k1) else stat.podId;
    var id2 := if k2 != "" && LastId(containers, k2) != "" then LastId(containers, k2) else id1;
    var pod2 := if k2 != "" && pod1 == "" then LastPod(containers, k2) else pod1;
    (id2, pod2)
  }

  lemma LastSnoc(before: seq<ContainerReport>, c: ContainerReport, key: string)
    ensures LastId(before + [c], key) == (if key in KeysOf(c) then c.id else LastId(before, key))
    ensures LastPod(before + [c], key) == (if key in KeysOf(c) && c.podId != "" then c.podId else LastPod(before, key))
  {
  }

  predicate AnswersTo(c: ContainerReport, key: string) {
    c.id != "" && key != "" &&
    (key == Normalize(c.id) || key == Normalize(c.name) || (|c.id| > SHORT_ID && key == Normalize(c.id[..SHORT_ID])))
  }

  lemma KeysAnswer(c: ContainerReport, key: string)
    ensures key in KeysOf(c) <==> AnswersTo(c, key)
  {
  }

  class ContainerIndex {
    var podIdByKey: map<string, string>
    var containerIdByKey: map<string, string>

    ghost predicate Indexes(containers: seq<ContainerReport>)
      reads this
    {
      && (forall k :: Lookup(containerIdByKey, k) == LastId(containers, k))
      && (forall k :: Lookup(podIdByKey, k) == LastPod(containers, k))
    }

    constructor ()
      ensures podIdByKey == map[] && containerIdByKey == map[]
    {
      podIdByKey, containerIdByKey := map[], map[];
    }

    method Add(key: string, containerId: string, podId: string)
      modifies this
      ensures forall k :: Lookup(containerIdByKey, k) ==
                          if k != "" && k == Normalize(key) && containerId != "" then containerId else old(Lookup(containerIdByKey, k))
      ensures forall k :: Lookup(podIdByKey, k) ==
                          if k != "" && k == Normalize(key) && podId != "" then podId else old(Lookup(podIdByKey, k))
    {
      var normalized := Normalize(key);
      if normalized == "" {
        return;
      }
      if podId != "" {
        podIdByKey := podIdByKey[normalized := podId];
      }
      if containerId != "" {
        containerIdByKey := containerIdByKey[normalized := containerId];
      }
    }

    method AddContainer(c: ContainerReport, ghost before: seq<ContainerReport>)
      requires Indexes(before)
      modifies this
      ensures Indexes(before + [c])
    {
      hide Normalize, LastId, LastPod, Lookup, KeysOf;
      forall k ensures LastId(before + [c], k) == (if k in KeysOf(c) then c.id else LastId(before, k)) {
        LastSnoc(before, c, k);
      }
      forall k ensures LastPod(before + [c], k) == (if k in KeysOf(c) && c.podId != "" then c.podId else LastPod(before, k)) {
        LastSnoc(before, c, k);
      }
      forall k ensures k in KeysOf(c) <==> AnswersTo(c, k) {
        KeysAnswer(c, k);
      }
      if c.id == "" {
        return;
      }
      Add(c.id, c.id, c.podId);
      if |c.id| > SHORT_ID {
        Add(c.id[..SHORT_ID], c.id, c.podId);
      }
      Add(c.name, c.id, c.podId);
    }

    method ResolveStat(stat: StatReport, ghost containers: seq<ContainerReport>) returns (containerId: string, podId: string)
      requires Indexes(containers)
      ensures (containerId, podId) == ScanStat(containers, stat)
    {
      containerId, podId := stat.containerId, stat.podId;
      var keys := [stat.containerId, stat.name];
      var i := 0;
      while i < 2
        invariant 0 <= i <= 2
        invariant i == 0 ==> (containerId, podId) == (stat.containerId, stat.podId)
        invariant i == 1 ==>
                    var k := Normalize(stat.containerId);
                    && containerId == (if k != "" && LastId(containers, k) != "" then LastId(containers, k) else stat.containerId)
                    && podId == (if k != "" && stat.podId == "" then LastPod(containers, k) else stat.podId)
        invariant i == 2 ==> (containerId, podId) == ScanStat(containers, stat)
      {
        var normalized := Normalize(keys[i]);
        if normalized != "" {
          var fullId := Lookup(containerIdByKey, normalized);
          if fullId != "" {
            containerId := fullId;
          }
          if podId == "" {
            podId := Lookup(podIdByKey, normalized);
          }
        }
        i := i + 1;
      }
    }
  }

  method NewContainerIndex(containers: seq<ContainerReport>) returns (index: ContainerIndex)
    ensures fresh(index) && index.Indexes(containers)
  {
    index := new ContainerIndex();
    for i := 0 to |containers|
      invariant fresh(index) && index.Indexes(containers[..i])
    {
      assert containers[..i + 1] == containers[..i] + [containers[i]];
      index.AddContainer(containers[i], containers[..i]);
    }
    assert containers[..|containers|] == containers;
  }

  // No two containers answer to the same key.
  ghost predicate NoCollisions(containers: seq<ContainerReport>) {
    forall i, j | 0 <= i < j < |containers| :: KeysOf(containers[i]) !! KeysOf(containers[j])
  }

  lemma {:induction false} NoMatch(containers: seq<ContainerReport>, key: string)
    requires forall i | 0 <= i < |containers| :: key !in KeysOf(containers[i])
    ensures LastId(containers, key) == "" && LastPod(containers, key) == ""
  {
    if containers != [] {
      NoMatch(containers[..|containers| - 1], key);
    }
  }

  // Only container i answers to the key.
  ghost predicate OnlyMatch(containers: seq<ContainerReport>, i: nat, key: string) {
    i < |containers| && key in KeysOf(containers[i])
    && forall j | 0 <= j < |containers| && j != i :: key !in KeysOf(containers[j])
  }

  lemma {:induction false} OnlyMatchFound(containers: seq<ContainerReport>, i: nat, key: string)
    requires OnlyMatch(containers, i, key)
    ensures LastId(containers, key) == containers[i].id && LastPod(containers, key) == containers[i].podId
  {
    hide KeysOf;
    var n := |containers| - 1;
    if i == n {
      NoMatch(containers[..n], key);
    } else {
      assert containers[..n][i] == containers[i];
      OnlyMatchFound(containers[..n], i, key);
    }
  }

  lemma NoCollisionsAt(containers: seq<ContainerReport>, key: string, i: nat)
    requires NoCollisions(containers) && i < |containers| && key in KeysOf(containers[i])
    ensures forall j | 0 <= j < |containers| && key in KeysOf(containers[j]) :: j == i
  {
  }

  lemma UniqueMatch(containers: seq<ContainerReport>, i: nat, key: string)
    requires NoCollisions(containers) && i < |containers| && key in KeysOf(containers[i])
    ensures LastId(containers, key) == containers[i].id && LastPod(containers, key) == containers[i].podId
  {
    hide KeysOf;
    NoCollisionsAt(containers, key, i);
    OnlyMatchFound(containers, i, key);
  }

  lemma HasId(c: ContainerReport, key: string)
    requires key in KeysOf(c)
    ensures c.id != "" && key != ""
  {
  }

  // Without collisions a stat whose id is any of container i's three forms
  // resolves to its full id exactly if its name is not another container's.
  // Its pod is the one it carries, or else that container's, exactly if one of
  // the two is known or the name leads to no pod either.
  lemma AnyFormResolves(containers: seq<ContainerReport>, i: nat, stat: StatReport)
    requires NoCollisions(containers) && i < |containers|
    requires Normalize(stat.containerId) in KeysOf(containers[i])
    ensures
      ScanStat(containers, stat).0 == containers[i].id <==>
      forall j | 0 <= j < |containers| && Normalize(stat.name) in KeysOf(containers[j]) :: containers[j].id == containers[i].id
    ensures
      ScanStat(containers, stat).1 == (if stat.podId == "" then containers[i].podId else stat.podId) <==>
      containers[i].podId != "" || stat.podId != ""
      || forall j | 0 <= j < |containers| && Normalize(stat.name) in KeysOf(containers[j]) :: containers[j].podId == ""
  {
    hide KeysOf, Normalize;
    HasId(containers[i], Normalize(stat.containerId));
    UniqueMatch(containers, i, Normalize(stat.containerId));
    if j :| 0 <= j < |containers| && Normalize(stat.name) in KeysOf(containers[j]) {
      HasId(containers[j], Normalize(stat.name));
      UniqueMatch(containers, j, Normalize(stat.name));
      NoCollisionsAt(containers, Normalize(stat.name), j);
    } else {
      NoMatch(containers, Normalize(stat.name));
    }
  }

  // A stat known by its name alone resolves by it.
  lemma NameAloneResolves(containers: seq<ContainerReport>, i: nat, stat: StatReport)
    requires NoCollisions(containers) && i < |containers|
    requires Normalize(stat.name) in KeysOf(containers[i])
    requires forall j | 0 <= j < |containers| :: Normalize(stat.containerId) !in KeysOf(containers[j])
    ensures
      ScanStat(containers, stat) == (containers[i].id, if stat.podId == "" then containers[i].podId else stat.podId)
  {
    hide KeysOf, Normalize;
    HasId(containers[i], Normalize(stat.name));
    UniqueMatch(containers, i, Normalize(stat.name));
    NoMatch(containers, Normalize(stat.containerId));
  }

  // A stat that names a container by the id the tables know it under, and by
  // nothing else, finds its pod exactly if the index holds that container: one
  // reported under the alternative field only is stored but never indexed.
  lemma PodFoundExactly(containers: seq<ContainerReport>, i: nat, stat: StatReport)
    requires i < |containers| && containers[i].podId != ""
    requires stat.containerId == ContainerId(containers[i]) && stat.name == "" && stat.podId == ""
    requires forall j | 0 <= j < |containers| && j != i :: Normalize(stat.containerId) !in KeysOf(containers[j])
    ensures
      ScanStat(containers, stat).1 == containers[i].podId <==>
      containers[i].id != "" && Normalize(containers[i].id) != ""
    ensures ScanStat(containers, stat).1 in {"", containers[i].podId}
    ensures containers[i].id == "" ==> ScanStat(containers, stat) == (stat.containerId, "")
  {
    var key := Normalize(stat.containerId);
    assert key in KeysOf(containers[i]) <==> containers[i].id != "" && Normalize(containers[i].id) != "" by {
      hide Normalize;
    }
    assert Normalize("") == "";
    hide Normalize, KeysOf;
    if key in KeysOf(containers[i]) {
      OnlyMatchFound(containers, i, key);
    } else {
      NoMatch(containers, key);
    }
  }

  predicate Hexadecimal(s: string) {
    forall i | 0 <= i < |s| :: '0' <= s[i] <= '9' || 'a' <= s[i] <= 'f'
  }

  lemma HexadecimalIsNormal(s: string)
    requires Hexadecimal(s)
    ensures Normalize(s) == s
  {
    assert TrimLeft(s) == s && TrimRight(s) == s;
    assert Lower(s) == s;
  }

  lemma ShorterDiffers(s: string, n: nat)
    requires n < |s|
    ensures s[..n] != s && (|s| > 12 ==> (s[..n] == s[..12] <==> n == 12)) && (s[..n] == "" <==> n == 0)
  {
    assert |s[..n]| == n;
  }

  // Of the initial parts of a hexadecimal id, the one of 12 characters finds
  // its container, and no other one but the whole id.
  lemma TwelveCharacters(c: ContainerReport, n: nat, memory: nat)
    requires Hexadecimal(c.id) && n < |c.id| && c.name == ""
    ensures ScanStat([c], StatReport(c.id[..n], "", "", memory)) == if n == 12 then (c.id, c.podId) else (c.id[..n], "")
    ensures ScanStat([c], StatReport(c.id, "", "", memory)) == (c.id, c.podId)
  {
    HexadecimalIsNormal(c.id);
    HexadecimalIsNormal(c.id[..n]);
    HexadecimalIsNormal("");
    if |c.id| > 12 {
      HexadecimalIsNormal(c.id[..12]);
    }
    ShorterDiffers(c.id, n);
    LastSnoc([], c, c.id);
    LastSnoc([], c, c.id[..n]);
    KeysAnswer(c, c.id);
    KeysAnswer(c, c.id[..n]);
    NoMatch([], c.id);
    NoMatch([], c.id[..n]);
    assert [] + [c] == [c];
    hide Normalize, KeysOf, LastId, LastPod;
  }

  // Ids and names are compared without surrounding white space and case, and of
  // two containers that answer to a name the later report counts.
  lemma LaterReportCounts(before: seq<ContainerReport>, c: ContainerReport, stat: StatReport)
    requires c.id != "" && c.podId != ""
    ensures Lower(Trim(stat.containerId)) == Lower(Trim(c.id)) != "" && Trim(stat.name) == "" ==>
              ScanStat(before + [c], stat) == (c.id, if stat.podId == "" then c.podId else stat.podId)
    ensures Lower(Trim(stat.name)) == Lower(Trim(c.name)) != "" ==> ScanStat(before + [c], stat).0 == c.id
    ensures Lower(Trim(stat.name)) == Lower(Trim(c.name)) != "" && Trim(stat.containerId) == "" ==>
              ScanStat(before + [c], stat).1 == if stat.podId == "" then c.podId else stat.podId
  {
    LastSnoc(before, c, Normalize(stat.containerId));
    LastSnoc(before, c, Normalize(stat.name));
    KeysAnswer(c, Normalize(stat.containerId));
    KeysAnswer(c, Normalize(stat.name));
    hide KeysOf, LastId, LastPod, Trim;
  }

  const ALT_ONLY := ContainerReport("", "0123456789ab", "", "pod", "")

  // The smallest such report: the tables take it, its stat stays without a pod.
  lemma AlternativeIdIsNotIndexed()
    ensures ContainerId(ALT_ONLY) == "0123456789ab" && KeysOf(ALT_ONLY) == {}
    ensures ScanStat([ALT_ONLY], StatReport("0123456789ab", "", "", 0)) == ("0123456789ab", "")
  {
    hide Normalize;
    PodFoundExactly([ALT_ONLY], 0, StatReport("0123456789ab", "", "", 0));
  }
}
