/**
 * The snapshot cache: refreshAgentSnapshots writes what the agent reports into
 * the tables, handleListPods reads the tables back and keeps only fresh rows.
 */
module SnapshotCache {
  import opened AsciiText
  import opened ContainerLookup
  import opened Wrappers

  datatype PodReport = PodReport(id: string, altId: string, name: string, state: string, status: string, health: string)

  // The agent's answers during one refresh; None when the call failed.
  datatype Answers = Answers(
    clientOk: bool,
    pods: Option<seq<PodReport>>,
    containers: Option<seq<ContainerReport>>,
    stats: Option<seq<StatReport>>
  )

  const PRIMARY_AGENT := "primary"

  datatype PodRow = PodRow(id: string, podmanId: string, agentId: string, name: string, state: string, health: string, observedAt: int)

  datatype ContainerRow = ContainerRow(id: string, podmanId: string, agentId: string, podId: string, name: string, health: string, observedAt: int)

  datatype Sample = Sample(agentId: string, podId: string, containerId: string, memoryBytes: nat, sampledAt: int)

  // ---------- health ----------

  function NormalHealth(s: string): string {
    if Normalize(s) in {"healthy", "unhealthy", "starting"} then Normalize(s) else ""
  }

  function ObservedHealth(s: string): string {
    FirstNonEmpty(NormalHealth(s), "unknown")
  }

  // The worst of what the pod and its containers report wins.
  function PodHealth(podHealth: string, containers: set<string>): string {
    if NormalHealth(podHealth) in {"unhealthy", "starting"} then NormalHealth(podHealth)
    else if "unhealthy" in containers then "unhealthy"
    else if "starting" in containers then "starting"
    else if "healthy" in containers then "healthy"
    else ObservedHealth(podHealth)
  }

  // The worst of the reported health and of what the containers say, in words;
  // the three flags tell which words some container says.
  predicate WorstOf(health: string, reported: string, unhealthy: bool, starting: bool, healthy: bool) {
    && (health == "unhealthy" <==> reported == "unhealthy" || (reported != "starting" && unhealthy))
    && (health == "starting" <==> reported == "starting" || (reported != "unhealthy" && !unhealthy && starting))
    && (health == "healthy" <==>
          reported !in {"unhealthy", "starting"} && !unhealthy && !starting && (healthy || reported == "healthy"))
    && health in {"unhealthy", "starting", "healthy", "unknown"}
  }

  lemma PodHealthIsWorst(podHealth: string, containers: set<string>)
    ensures WorstOf(PodHealth(podHealth, containers), Normalize(podHealth),
                    "unhealthy" in containers, "starting" in containers, "healthy" in containers)
  {
    hide Normalize;
  }

  lemma NormalIs(s: string, word: string)
    requires word in {"unhealthy", "starting", "healthy"}
    ensures NormalHealth(s) == word <==> Normalize(s) == word
  {
    hide Normalize;
  }

  // The health values among some container rows.
  function Healths(rows: seq<ContainerRow>): set<string> {
    set c | c in rows :: NormalHealth(c.health)
  }

  lemma HealthSeen(containers: seq<ContainerRow>, h: string)
    ensures h in Healths(containers) <==>
            exists j :: 0 <= j < |containers| && NormalHealth(containers[j].health) == h
  {
  }

  lemma RowSays(containers: seq<ContainerRow>, word: string)
    requires word in {"unhealthy", "starting", "healthy"}
    ensures word in Healths(containers) <==> exists c | c in containers :: Normalize(c.health) == word
  {
    forall c | c in containers
      ensures NormalHealth(c.health) == word <==> Normalize(c.health) == word
    {
      NormalIs(c.health, word);
    }
    hide NormalHealth, Normalize;
  }

  lemma WorstOfRows(podHealth: string, containers: seq<ContainerRow>)
    ensures WorstOf(PodHealth(podHealth, Healths(containers)), Normalize(podHealth),
                    exists c | c in containers :: Normalize(c.health) == "unhealthy",
                    exists c | c in containers :: Normalize(c.health) == "starting",
                    exists c | c in containers :: Normalize(c.health) == "healthy")
  {
    PodHealthIsWorst(podHealth, Healths(containers));
    RowSays(containers, "unhealthy");
    RowSays(containers, "starting");
    RowSays(containers, "healthy");
    hide PodHealth, Healths, WorstOf, Normalize;
  }

  method AggregatePodHealth(podHealth: string, containers: seq<ContainerRow>) returns (health: string)
    ensures health == PodHealth(podHealth, Healths(containers))
    ensures WorstOf(health, Normalize(podHealth),
                    exists c | c in containers :: Normalize(c.health) == "unhealthy",
                    exists c | c in containers :: Normalize(c.health) == "starting",
                    exists c | c in containers :: Normalize(c.health) == "healthy")
  {
    WorstOfRows(podHealth, containers);
    hide NormalHealth, WorstOf, Normalize;
    var reported := NormalHealth(podHealth);
    if reported == "unhealthy" || reported == "starting" {
      return reported;
    }
    ghost var all := Healths(containers);
    var sawHealthy, sawStarting := false, false;
    for i := 0 to |containers|
      invariant forall j | 0 <= j < i :: NormalHealth(containers[j].health) != "unhealthy"
      invariant sawStarting <==> exists j :: 0 <= j < i && NormalHealth(containers[j].health) == "starting"
      invariant sawHealthy <==> exists j :: 0 <= j < i && NormalHealth(containers[j].health) == "healthy"
    {
      var h := NormalHealth(containers[i].health);
      if h == "unhealthy" {
        assert containers[i] in containers && NormalHealth(containers[i].health) in all;
        return "unhealthy";
      } else if h == "starting" {
        sawStarting := true;
      } else if h == "healthy" {
        sawHealthy := true;
      }
    }
    HealthSeen(containers, "unhealthy");
    HealthSeen(containers, "starting");
    HealthSeen(containers, "healthy");
    if sawStarting {
      return "starting";
    }
    if sawHealthy {
      return "healthy";
    }
    return ObservedHealth(podHealth);
  }

  // ---------- the rows a refresh should leave ----------

  function PodIdOf(p: PodReport): string {
    FirstNonEmpty(p.id, p.altId)
  }

  function NameOf(name: string, id: string): string {
    FirstNonEmpty(name, id)
  }

  // The health values of the reported containers of one pod.
  function HealthsIn(containers: seq<ContainerReport>, podId: string): set<string> {
    set c | c in containers && ContainerId(c) != "" && c.podId == podId && podId != "" :: NormalHealth(ObservedHealth(c.health))
  }

  // What the store makes of a row: an absent id or agent gets its default.
  function StoredPod(row: PodRow, at: int): PodRow {
    row.(id := FirstNonEmpty(row.id, row.podmanId), agentId := FirstNonEmpty(row.agentId, PRIMARY_AGENT), observedAt := at)
  }

  function StoredContainer(row: ContainerRow, at: int): ContainerRow {
    row.(id := FirstNonEmpty(row.id, row.podmanId), agentId := FirstNonEmpty(row.agentId, PRIMARY_AGENT), observedAt := at)
  }

  function ExpectedRow(agentId: string, p: PodReport, containers: seq<ContainerReport>, observedAt: int): PodRow {
    PodRow(PodIdOf(p), PodIdOf(p), FirstNonEmpty(agentId, PRIMARY_AGENT), NameOf(p.name, PodIdOf(p)),
           FirstNonEmpty(p.state, FirstNonEmpty(p.status, "unknown")),
           PodHealth(ObservedHealth(p.health), HealthsIn(containers, PodIdOf(p))), observedAt)
  }

  predicate Reports(pods: seq<PodReport>, id: string) {
    id != "" && exists i :: 0 <= i < |pods| && PodIdOf(pods[i]) == id
  }

  lemma LastReportShrinks(pods: seq<PodReport>, id: string)
    requires Reports(pods, id) && PodIdOf(pods[|pods| - 1]) != id
    ensures Reports(pods[..|pods| - 1], id)
  {
  }

  // The last report of a pod, which is the one that stays.
  function LastReport(pods: seq<PodReport>, id: string): (p: PodReport)
    requires Reports(pods, id)
    ensures p in pods && PodIdOf(p) == id
  {
    var last := pods[|pods| - 1];
    if PodIdOf(last) == id then last
    else
      LastReportShrinks(pods, id);
      LastReport(pods[..|pods| - 1], id)
  }

  // ---------- the tables ----------

  class Store {
    var now: int
    var writes: nat      // writes the database takes before it fails
    var pods: map<string, PodRow>
    var containers: map<string, ContainerRow>
    var samples: seq<Sample>

    constructor (writes: nat)
      ensures this.writes == writes && pods == map[] && containers == map[] && samples == []
    {
      now, this.writes, pods, containers, samples := 0, writes, map[], map[], [];
    }

    // The clock: any later moment, never an earlier one.
    method Now() returns (t: int)
      modifies `now
      ensures t == now >= old(now)
    {
      t :| t >= now;
      now := t;
    }

    // One statement: it goes through, or the database has failed.
    method Execute() returns (ok: bool)
      modifies `writes
      ensures ok <==> old(writes) > 0
      ensures writes == if ok then old(writes) - 1 else 0
    {
      ok := writes > 0;
      if ok {
        writes := writes - 1;
      }
    }

    method TouchAgent() returns (ok: bool)
      modifies `writes
      ensures ok <==> old(writes) > 0
      ensures writes == if ok then old(writes) - 1 else 0
    {
      ok := Execute();
    }

    method InsertPod(row: PodRow, observed: Option<int>) returns (ok: bool)
      modifies `now, `writes, `pods
      ensures now >= old(now)
      ensures ok <==> old(writes) > 0
      ensures writes == if ok then old(writes) - 1 else 0
      ensures pods == if !ok then old(pods) else
                        var stored := StoredPod(row, if observed.Some? then observed.value else now);
                        old(pods)[stored.id := stored]
      ensures ok ==>
                var id := if row.id == "" then row.podmanId else row.id;
                && id in pods && pods[id].observedAt == (if observed.Some? then observed.value else now)
                && pods[id] == row.(id := id, agentId := if row.agentId == "" then "primary" else row.agentId,
                                     observedAt := pods[id].observedAt)
    {
      var t := Now();
      var stored := row;
      if stored.id == "" {
        stored := stored.(id := stored.podmanId);
      }
      if stored.agentId == "" {
        stored := stored.(agentId := PRIMARY_AGENT);
      }
      stored := stored.(observedAt := if observed.Some? then observed.value else t);
      ok := Execute();
      if ok {
        pods := pods[stored.id := stored];
      }
    }

    method InsertContainer(row: ContainerRow, observed: Option<int>) returns (ok: bool)
      modifies `now, `writes, `containers
      ensures now >= old(now)
      ensures ok <==> old(writes) > 0
      ensures writes == if ok then old(writes) - 1 else 0
      ensures containers == if !ok then old(containers) else
                              var stored := StoredContainer(row, if observed.Some? then observed.value else now);
                              old(containers)[stored.id := stored]
      ensures ok ==>
                var id := if row.id == "" then row.podmanId else row.id;
                && id in containers && containers[id].observedAt == (if observed.Some? then observed.value else now)
                && containers[id] == row.(id := id, agentId := if row.agentId == "" then "primary" else row.agentId,
                                     observedAt := containers[id].observedAt)
    {
      var t := Now();
      var stored := row;
      if stored.id == "" {
        stored := stored.(id := stored.podmanId);
      }
      if stored.agentId == "" {
        stored := stored.(agentId := PRIMARY_AGENT);
      }
      stored := stored.(observedAt := if observed.Some? then observed.value else t);
      ok := Execute();
      if ok {
        containers := containers[stored.id := stored];
      }
    }

    method InsertResourceSample(sample: Sample, sampled: Option<int>) returns (ok: bool)
      modifies `now, `writes, `samples
      ensures now >= old(now)
      ensures ok <==> old(writes) > 0
      ensures writes == if ok then old(writes) - 1 else 0
      ensures samples == old(samples) +
                         if ok then [sample.(sampledAt := if sampled.Some? then sampled.value else now)] else []
    {
      var at: int;
      if sampled.Some? {
        at := sampled.value;
      } else {
        at := Now();
      }
      ok := Execute();
      if ok {
        samples := samples + [sample.(sampledAt := at)];
      } else {
        assert samples + [] == samples;
      }
    }
  }

  // ---------- a refresh ----------

  // What a successful refresh has done to the pod table after some reports.
  ghost predicate PodsWritten(before: map<string, PodRow>, after: map<string, PodRow>, agentId: string,
                              pods: seq<PodReport>, containers: seq<ContainerReport>, since: int)
  {
    && (forall id :: id in after <==> id in before || Reports(pods, id))
    && (forall id | id in after && !Reports(pods, id) :: after[id] == before[id])
    && (forall id | Reports(pods, id) && id in after ::
          && after[id] == ExpectedRow(agentId, LastReport(pods, id), containers, after[id].observedAt)
          && after[id].observedAt >= since)
  }

  function SampleOf(agentId: string, containers: seq<ContainerReport>, stat: StatReport, t: int): Sample {
    Sample(agentId, ScanStat(containers, stat).1, ScanStat(containers, stat).0, stat.memoryBytes, t)
  }

  // One new sample per reported stat, resolved and stamped after `since`.
  ghost predicate SamplesWritten(before: seq<Sample>, after: seq<Sample>, agentId: string,
                                 containers: seq<ContainerReport>, stats: seq<StatReport>, since: int)
  {
    && |after| == |before| + |stats| && after[..|before|] == before
    && (forall i | 0 <= i < |stats| ::
          var s := after[|before| + i];
          s.sampledAt >= since && s == SampleOf(agentId, containers, stats[i], s.sampledAt))
  }

  // Sample by sample: the stat's memory under the agent, and the container and
  // pod its names lead to.
  lemma SampleIs(before: seq<Sample>, after: seq<Sample>, agentId: string,
                 containers: seq<ContainerReport>, stats: seq<StatReport>, since: int, i: nat)
    requires SamplesWritten(before, after, agentId, containers, stats, since) && i < |stats|
    ensures
      var s := after[|before| + i];
      && s.agentId == agentId && s.memoryBytes == stats[i].memoryBytes && s.sampledAt >= since
      && (s.containerId, s.podId) == ScanStat(containers, stats[i])
  {
    hide ScanStat;
    var s, stat := after[|before| + i], stats[i];
    assert s == SampleOf(agentId, containers, stat, s.sampledAt);
  }

  predicate Answered(a: Answers) {
    a.clientOk && a.pods.Some? && a.containers.Some? && a.stats.Some?
  }

  lemma ReportsSnoc(pods: seq<PodReport>, p: PodReport, id: string)
    ensures Reports(pods + [p], id) <==> Reports(pods, id) || (id != "" && PodIdOf(p) == id)
    ensures id != "" && PodIdOf(p) == id ==> LastReport(pods + [p], id) == p
    ensures Reports(pods, id) && PodIdOf(p) != id ==> LastReport(pods + [p], id) == LastReport(pods, id)
  {
    var all := pods + [p];
    assert all[|all| - 1] == p && all[..|all| - 1] == pods;
    if i :| 0 <= i < |pods| && PodIdOf(pods[i]) == id {
      assert PodIdOf(all[i]) == id;
    }
    assert PodIdOf(p) == id ==> PodIdOf(all[|pods|]) == id;
  }

  // Two lists of reports that leave the same rows behind.
  ghost predicate SameReports(a: seq<PodReport>, b: seq<PodReport>) {
    forall id :: (Reports(a, id) <==> Reports(b, id))
                 && (Reports(a, id) && Reports(b, id) ==> LastReport(a, id) == LastReport(b, id))
  }

  lemma ReportsNamed(pods: seq<PodReport>, id: string)
    ensures Reports(pods, id) ==> id != ""
  {
  }

  lemma SameReportsSnoc(a: seq<PodReport>, b: seq<PodReport>, p: PodReport)
    requires SameReports(a, b)
    ensures SameReports(if PodIdOf(p) == "" then a else a + [p], b + [p])
  {
    hide Reports, LastReport;
    forall id
      ensures
        var a' := if PodIdOf(p) == "" then a else a + [p];
        (Reports(a', id) <==> Reports(b + [p], id))
        && (Reports(a', id) && Reports(b + [p], id) ==> LastReport(a', id) == LastReport(b + [p], id))
    {
      ReportsSnoc(a, p, id);
      ReportsSnoc(b, p, id);
      ReportsNamed(a, id);
      ReportsNamed(b, id);
    }
  }

  // The record a report is first turned into, before its health is aggregated.
  function RecordOf(agentId: string, p: PodReport): PodRow {
    PodRow(PodIdOf(p), PodIdOf(p), agentId, NameOf(p.name, PodIdOf(p)),
           FirstNonEmpty(p.state, FirstNonEmpty(p.status, "unknown")), ObservedHealth(p.health), 0)
  }

  // The reports that carry an id.
  function Named(pods: seq<PodReport>): seq<PodReport> {
    if pods == [] then []
    else
      var before := Named(pods[..|pods| - 1]);
      if PodIdOf(pods[|pods| - 1]) == "" then before else before + [pods[|pods| - 1]]
  }

  // The last report of a container.
  function LastContainer(containers: seq<ContainerReport>, id: string): Option<ContainerReport> {
    if containers == [] then None
    else if ContainerId(containers[|containers| - 1]) == id then Some(containers[|containers| - 1])
    else LastContainer(containers[..|containers| - 1], id)
  }

  ghost predicate SameContainers(a: seq<ContainerReport>, b: seq<ContainerReport>) {
    forall id | id != "" :: LastContainer(a, id) == LastContainer(b, id)
  }

  lemma NoReports()
    ensures SameReports([], []) && SameContainers([], [])
  {
  }

  lemma {:induction false} NamedReportTheSame(pods: seq<PodReport>)
    ensures SameReports(Named(pods), pods)
    ensures forall i | 0 <= i < |Named(pods)| :: PodIdOf(Named(pods)[i]) != ""
  {
    hide SameReports;
    if pods == [] {
      NoReports();
    } else {
      var before, last := pods[..|pods| - 1], pods[|pods| - 1];
      NamedReportTheSame(before);
      SameReportsSnoc(Named(before), before, last);
      assert pods == before + [last];
    }
  }

  function Records(agentId: string, named: seq<PodReport>): (r: seq<PodRow>)
    ensures |r| == |named|
  {
    seq(|named|, i requires 0 <= i < |named| => RecordOf(agentId, named[i]))
  }

  method PodRecords(agentId: string, pods: seq<PodReport>) returns (records: seq<PodRow>)
    ensures records == Records(agentId, Named(pods))
  {
    hide RecordOf;
    records := [];
    for i := 0 to |pods|
      invariant records == Records(agentId, Named(pods[..i]))
    {
      assert pods[..i + 1][..i] == pods[..i];
      if PodIdOf(pods[i]) == "" {
        continue;
      }
      records := records + [RecordOf(agentId, pods[i])];
    }
    assert pods[..|pods|] == pods;
  }

  function ContainerRowOf(agentId: string, c: ContainerReport): ContainerRow {
    ContainerRow(ContainerId(c), ContainerId(c), agentId, c.podId, NameOf(c.name, ContainerId(c)), ObservedHealth(c.health), 0)
  }

  function Group(m: map<string, seq<ContainerRow>>, podId: string): seq<ContainerRow> {
    if podId in m then m[podId] else []
  }

  lemma LastContainerSnoc(containers: seq<ContainerReport>, c: ContainerReport, id: string)
    ensures LastContainer(containers + [c], id) == if ContainerId(c) == id then Some(c) else LastContainer(containers, id)
  {
  }

  // What a refresh has done to the container table after some reports.
  ghost predicate ContainersWritten(before: map<string, ContainerRow>, after: map<string, ContainerRow>, agentId: string,
                                    containers: seq<ContainerReport>, since: int)
  {
    forall id ::
      var last := LastContainer(containers, id);
      if id != "" && last.Some? then
        && id in after && after[id].observedAt >= since
        && after[id] == StoredContainer(ContainerRowOf(agentId, last.value), after[id].observedAt)
      else (id in after <==> id in before) && (id in after ==> after[id] == before[id])
  }

  predicate LastContainerWith(containers: seq<ContainerReport>, i: nat, id: string) {
    && i < |containers| && id != "" && id == (if containers[i].id != "" then containers[i].id else containers[i].altId)
    && forall j | i < j < |containers| :: id != if containers[j].id != "" then containers[j].id else containers[j].altId
  }

  lemma {:induction false} LastContainerIs(containers: seq<ContainerReport>, i: nat, id: string)
    requires LastContainerWith(containers, i, id)
    ensures LastContainer(containers, id) == Some(containers[i])
  {
    if i < |containers| - 1 {
      assert ContainerId(containers[|containers| - 1]) != id;
      LastContainerIs(containers[..|containers| - 1], i, id);
    }
  }

  // The stored row of a container is its last report, field by field.
  lemma ContainerRowIs(before: map<string, ContainerRow>, after: map<string, ContainerRow>, agentId: string,
                       containers: seq<ContainerReport>, since: int, i: nat, id: string)
    requires ContainersWritten(before, after, agentId, containers, since) && LastContainerWith(containers, i, id)
    ensures
      var c := containers[i];
      && id in after && after[id].observedAt >= since && after[id].id == after[id].podmanId == id
      && after[id].agentId == (if agentId != "" then agentId else "primary")
      && after[id].podId == c.podId && after[id].name == (if c.name != "" then c.name else id)
      && after[id].health == (if Normalize(c.health) in {"unhealthy", "starting", "healthy"} then Normalize(c.health) else "unknown")
  {
    LastContainerIs(containers, i, id);
    hide LastContainer, Normalize;
  }

  lemma HealthsSnoc(rows: seq<ContainerRow>, c: ContainerRow)
    ensures Healths(rows + [c]) == Healths(rows) + {NormalHealth(c.health)}
  {
  }

  lemma HealthsInSnoc(containers: seq<ContainerReport>, c: ContainerReport, podId: string)
    ensures HealthsIn(containers + [c], podId) ==
            if ContainerId(c) != "" && c.podId == podId && podId != ""
            then HealthsIn(containers, podId) + {NormalHealth(ObservedHealth(c.health))}
            else HealthsIn(containers, podId)
  {
  }

  lemma SameContainersSnoc(a: seq<ContainerReport>, b: seq<ContainerReport>, c: ContainerReport)
    requires SameContainers(a, b)
    ensures SameContainers(if ContainerId(c) == "" then a else a + [c], b + [c])
  {
    hide LastContainer, ContainerId;
    forall id | id != ""
      ensures LastContainer(if ContainerId(c) == "" then a else a + [c], id) == LastContainer(b + [c], id)
    {
      LastContainerSnoc(a, c, id);
      LastContainerSnoc(b, c, id);
    }
  }

  function NamedContainers(containers: seq<ContainerReport>): seq<ContainerReport> {
    if containers == [] then []
    else
      var before := NamedContainers(containers[..|containers| - 1]);
      var last := containers[|containers| - 1];
      if ContainerId(last) == "" then before else before + [last]
  }

  lemma {:induction false} NamedContainersAreTheSame(containers: seq<ContainerReport>)
    ensures SameContainers(NamedContainers(containers), containers)
    ensures forall i | 0 <= i < |NamedContainers(containers)| :: ContainerId(NamedContainers(containers)[i]) != ""
  {
    hide SameContainers, ContainerId;
    if containers == [] {
      NoReports();
    } else {
      var before, last := containers[..|containers| - 1], containers[|containers| - 1];
      NamedContainersAreTheSame(before);
      SameContainersSnoc(NamedContainers(before), before, last);
      assert containers == before + [last];
    }
  }

  function RowsOf(agentId: string, named: seq<ContainerReport>): (r: seq<ContainerRow>)
    ensures |r| == |named|
  {
    seq(|named|, i requires 0 <= i < |named| => ContainerRowOf(agentId, named[i]))
  }

  lemma OneMoreRow(agentId: string, before: seq<ContainerReport>, c: ContainerReport)
    ensures RowsOf(agentId, NamedContainers(before + [c])) ==
            RowsOf(agentId, NamedContainers(before)) + (if ContainerId(c) == "" then [] else [ContainerRowOf(agentId, c)])
  {
    hide ContainerId, ContainerRowOf;
    assert (before + [c])[..|before|] == before;
  }

  lemma NoRows(agentId: string)
    ensures RowsOf(agentId, NamedContainers([])) == []
  {
  }

  method AddToGroup(before: map<string, seq<ContainerRow>>, agentId: string, c: ContainerReport,
                    ghost seen: seq<ContainerReport>) returns (byPod: map<string, seq<ContainerRow>>)
    requires ContainerId(c) != ""
    requires forall podId :: Healths(Group(before, podId)) == HealthsIn(seen, podId)
    ensures forall podId :: Healths(Group(byPod, podId)) ==
                            if c.podId == podId && podId != ""
                            then HealthsIn(seen, podId) + {NormalHealth(ObservedHealth(c.health))}
                            else HealthsIn(seen, podId)
  {
    hide NormalHealth, ObservedHealth, HealthsIn, Healths, ContainerId;
    byPod := before;
    var record := ContainerRowOf(agentId, c);
    if record.podId != "" {
      HealthsSnoc(Group(before, record.podId), record);
      byPod := before[record.podId := Group(before, record.podId) + [record]];
    }
  }

  lemma NoHealths()
    ensures forall podId :: Healths([]) == HealthsIn([], podId)
  {
  }

  method ContainerRecords(agentId: string, containers: seq<ContainerReport>)
      returns (records: seq<ContainerRow>, byPod: map<string, seq<ContainerRow>>)
    ensures forall podId :: Healths(Group(byPod, podId)) == HealthsIn(containers, podId)
    ensures records == RowsOf(agentId, NamedContainers(containers))
  {
    hide NormalHealth, ObservedHealth, HealthsIn, Healths, ContainerId, ContainerRowOf, RowsOf, NamedContainers;
    records, byPod := [], map[];
    NoRows(agentId);
    NoHealths();
    for i := 0 to |containers|
      invariant forall podId :: Healths(Group(byPod, podId)) == HealthsIn(containers[..i], podId)
      invariant records == RowsOf(agentId, NamedContainers(containers[..i]))
    {
      var c := containers[i];
      assert containers[..i + 1] == containers[..i] + [c];
      OneMoreRow(agentId, containers[..i], c);
      forall podId
        ensures HealthsIn(containers[..i + 1], podId) ==
                if ContainerId(c) != "" && c.podId == podId && podId != ""
                then HealthsIn(containers[..i], podId) + {NormalHealth(ObservedHealth(c.health))}
                else HealthsIn(containers[..i], podId)
      {
        HealthsInSnoc(containers[..i], c, podId);
      }
      if ContainerId(c) == "" {
        continue;
      }
      records := records + [ContainerRowOf(agentId, c)];
      byPod := AddToGroup(byPod, agentId, c, containers[..i]);
    }
    assert containers[..|containers|] == containers;
  }

  lemma NothingWritten(pods: map<string, PodRow>, agentId: string, containers: seq<ContainerReport>, since: int)
    ensures PodsWritten(pods, pods, agentId, [], containers, since)
  {
  }

  lemma ExpectedTime(agentId: string, p: PodReport, containers: seq<ContainerReport>, t: int)
    ensures ExpectedRow(agentId, p, containers, t).observedAt == t
  {
  }

  lemma OnePodWritten(before: map<string, PodRow>, mid: map<string, PodRow>, agentId: string, pods: seq<PodReport>,
                      p: PodReport, containers: seq<ContainerReport>, since: int, t: int)
    requires PodsWritten(before, mid, agentId, pods, containers, since) && PodIdOf(p) != "" && t >= since
    ensures PodsWritten(before, mid[PodIdOf(p) := ExpectedRow(agentId, p, containers, t)], agentId, pods + [p], containers, since)
  {
    hide Reports, LastReport, ExpectedRow, PodIdOf;
    forall id
      ensures Reports(pods + [p], id) <==> Reports(pods, id) || (id != "" && PodIdOf(p) == id)
      ensures id != "" && PodIdOf(p) == id ==> LastReport(pods + [p], id) == p
      ensures Reports(pods, id) && PodIdOf(p) != id ==> LastReport(pods + [p], id) == LastReport(pods, id)
    {
      ReportsSnoc(pods, p, id);
    }
    ExpectedTime(agentId, p, containers, t);
  }

  // The insertion loop over the pod records; it stops at the first failing write.
  method InsertPods(store: Store, agentId: string, records: seq<PodRow>, byPod: map<string, seq<ContainerRow>>,
                    ghost named: seq<PodReport>, ghost containers: seq<ContainerReport>) returns (ok: bool, ghost n: nat)
    requires records == Records(agentId, named) && forall i | 0 <= i < |named| :: PodIdOf(named[i]) != ""
    requires forall podId :: Healths(Group(byPod, podId)) == HealthsIn(containers, podId)
    modifies store`now, store`writes, store`pods
    ensures store.now >= old(store.now)
    ensures n == (if old(store.writes) < |named| then old(store.writes) else |named|) && store.writes == old(store.writes) - n
    ensures ok <==> n == |named|
    ensures PodsWritten(old(store.pods), store.pods, agentId, named[..n], containers, old(store.now))
  {
    hide ObservedHealth, PodHealth, Healths, HealthsIn, PodsWritten;
    NothingWritten(store.pods, agentId, containers, store.now);
    for i := 0 to |records|
      invariant store.now >= old(store.now)
      invariant i <= old(store.writes) && store.writes == old(store.writes) - i
      invariant PodsWritten(old(store.pods), store.pods, agentId, named[..i], containers, old(store.now))
    {
      var record := records[i];
      ghost var mid := store.pods;
      var health := AggregatePodHealth(record.health, Group(byPod, record.id));
      var written := store.InsertPod(record.(health := health), None);
      if !written {
        return false, i;
      }
      assert named[..i + 1] == named[..i] + [named[i]];
      OnePodWritten(old(store.pods), mid, agentId, named[..i], named[i], containers, old(store.now), store.now);
    }
    assert named[..|named|] == named;
    return true, |named|;
  }

  lemma NoContainersWritten(containers: map<string, ContainerRow>, agentId: string, since: int)
    ensures ContainersWritten(containers, containers, agentId, [], since)
  {
  }

  lemma KeyOfRow(agentId: string, c: ContainerReport)
    ensures ContainerRowOf(agentId, c).id == ContainerRowOf(agentId, c).podmanId == ContainerId(c)
  {
  }

  lemma OneContainerWritten(before: map<string, ContainerRow>, mid: map<string, ContainerRow>, agentId: string,
                            containers: seq<ContainerReport>, c: ContainerReport, since: int, t: int)
    requires ContainersWritten(before, mid, agentId, containers, since) && ContainerId(c) != "" && t >= since
    ensures
      var row := StoredContainer(ContainerRowOf(agentId, c), t);
      ContainersWritten(before, mid[row.id := row], agentId, containers + [c], since)
  {
    hide LastContainer, ContainerId, ContainerRowOf;
    KeyOfRow(agentId, c);
    forall id ensures LastContainer(containers + [c], id) == if ContainerId(c) == id then Some(c) else LastContainer(containers, id) {
      LastContainerSnoc(containers, c, id);
    }
  }

  method InsertContainers(store: Store, agentId: string, records: seq<ContainerRow>, ghost named: seq<ContainerReport>)
      returns (ok: bool, ghost n: nat)
    requires records == RowsOf(agentId, named) && forall i | 0 <= i < |named| :: ContainerId(named[i]) != ""
    modifies store`now, store`writes, store`containers
    ensures store.now >= old(store.now)
    ensures n == (if old(store.writes) < |named| then old(store.writes) else |named|) && store.writes == old(store.writes) - n
    ensures ok <==> n == |named|
    ensures ContainersWritten(old(store.containers), store.containers, agentId, named[..n], old(store.now))
  {
    hide ContainersWritten, ContainerRowOf, ContainerId;
    NoContainersWritten(store.containers, agentId, store.now);
    for i := 0 to |records|
      invariant store.now >= old(store.now)
      invariant i <= old(store.writes) && store.writes == old(store.writes) - i
      invariant ContainersWritten(old(store.containers), store.containers, agentId, named[..i], old(store.now))
    {
      ghost var mid := store.containers;
      var written := store.InsertContainer(records[i], None);
      if !written {
        return false, i;
      }
      assert named[..i + 1] == named[..i] + [named[i]];
      OneContainerWritten(old(store.containers), mid, agentId, named[..i], named[i], old(store.now), store.now);
    }
    assert named[..|named|] == named;
    return true, |named|;
  }

  lemma SameContainersWritten(before: map<string, ContainerRow>, after: map<string, ContainerRow>, agentId: string,
                              named: seq<ContainerReport>, containers: seq<ContainerReport>, since: int, earlier: int)
    requires SameContainers(named, containers) && ContainersWritten(before, after, agentId, named, since) && earlier <= since
    ensures ContainersWritten(before, after, agentId, containers, earlier)
  {
  }

  lemma NoSamplesWritten(samples: seq<Sample>, agentId: string, containers: seq<ContainerReport>, since: int)
    ensures SamplesWritten(samples, samples, agentId, containers, [], since)
  {
  }

  lemma SampleTime(agentId: string, containers: seq<ContainerReport>, stat: StatReport, t: int)
    ensures SampleOf(agentId, containers, stat, t).sampledAt == t
  {
  }

  lemma OneSampleWritten(before: seq<Sample>, mid: seq<Sample>, agentId: string, containers: seq<ContainerReport>,
                         stats: seq<StatReport>, stat: StatReport, since: int, t: int)
    requires SamplesWritten(before, mid, agentId, containers, stats, since) && t >= since
    ensures SamplesWritten(before, mid + [SampleOf(agentId, containers, stat, t)], agentId, containers, stats + [stat], since)
  {
    hide SampleOf;
    SampleTime(agentId, containers, stat, t);
    var after := mid + [SampleOf(agentId, containers, stat, t)];
    forall i | 0 <= i < |stats + [stat]|
      ensures
        var s := after[|before| + i];
        s.sampledAt >= since && s == SampleOf(agentId, containers, (stats + [stat])[i], s.sampledAt)
    {
      if i < |stats| {
        assert after[|before| + i] == mid[|before| + i] && (stats + [stat])[i] == stats[i];
      }
    }
  }

  method InsertStats(store: Store, agentId: string, index: ContainerIndex, stats: seq<StatReport>,
                     ghost containers: seq<ContainerReport>) returns (ok: bool, ghost n: nat)
    requires index.Indexes(containers)
    modifies store`now, store`writes, store`samples
    ensures store.now >= old(store.now)
    ensures n == (if old(store.writes) < |stats| then old(store.writes) else |stats|) && store.writes == old(store.writes) - n
    ensures ok <==> n == |stats|
    ensures SamplesWritten(old(store.samples), store.samples, agentId, containers, stats[..n], old(store.now))
  {
    hide ContainerIndex.Indexes, ScanStat, SamplesWritten;
    NoSamplesWritten(store.samples, agentId, containers, store.now);
    for i := 0 to |stats|
      invariant index.Indexes(containers) && store.now >= old(store.now)
      invariant i <= old(store.writes) && store.writes == old(store.writes) - i
      invariant SamplesWritten(old(store.samples), store.samples, agentId, containers, stats[..i], old(store.now))
    {
      ghost var mid := store.samples;
      var containerId, podId := index.ResolveStat(stats[i], containers);
      var written := store.InsertResourceSample(Sample(agentId, podId, containerId, stats[i].memoryBytes, 0), None);
      if !written {
        assert store.samples == mid;
        return false, i;
      }
      assert stats[..i + 1] == stats[..i] + [stats[i]];
      OneSampleWritten(old(store.samples), mid, agentId, containers, stats[..i], stats[i], old(store.now), store.now);
    }
    assert stats[..|stats|] == stats;
    return true, |stats|;
  }

  predicate Listed(a: Answers) {
    a.clientOk && a.pods.Some? && a.containers.Some?
  }

  // Writes a complete refresh takes: the agent's own row, then one per report.
  function WritesFor(a: Answers): nat
    requires Answered(a)
  {
    1 + |Named(a.pods.value)| + |NamedContainers(a.containers.value)| + |a.stats.value|
  }

  predicate Succeeds(a: Answers, writes: nat) {
    Answered(a) && WritesFor(a) <= writes
  }

  // How many pods, containers and samples a refresh gets to write.
  datatype Progress = Progress(pods: nat, containers: nat, samples: nat)

  ghost predicate Refreshed(before: map<string, PodRow>, after: map<string, PodRow>,
                            beforeContainers: map<string, ContainerRow>, afterContainers: map<string, ContainerRow>,
                            beforeSamples: seq<Sample>, afterSamples: seq<Sample>,
                            agentId: string, a: Answers, p: Progress, since: int)
    requires Listed(a)
  {
    var pods, containers := Named(a.pods.value), NamedContainers(a.containers.value);
    var stats := if a.stats.Some? then a.stats.value else [];
    && p.pods <= |pods| && p.containers <= |containers| && p.samples <= |stats|
    && (p.containers > 0 ==> p.pods == |pods|) && (p.samples > 0 ==> p.containers == |containers| && p.pods == |pods|)
    && PodsWritten(before, after, agentId, pods[..p.pods], a.containers.value, since)
    && ContainersWritten(beforeContainers, afterContainers, agentId, containers[..p.containers], since)
    && SamplesWritten(beforeSamples, afterSamples, agentId, a.containers.value, stats[..p.samples], since)
  }

  lemma SameWritten(before: map<string, PodRow>, after: map<string, PodRow>, agentId: string,
                    named: seq<PodReport>, pods: seq<PodReport>, containers: seq<ContainerReport>, since: int)
    requires SameReports(named, pods) && PodsWritten(before, after, agentId, named, containers, since)
    ensures PodsWritten(before, after, agentId, pods, containers, since)
  {
  }

  lemma EarlierSince(before: seq<Sample>, after: seq<Sample>, agentId: string, containers: seq<ContainerReport>,
                     stats: seq<StatReport>, since: int, earlier: int)
    requires SamplesWritten(before, after, agentId, containers, stats, since) && earlier <= since
    ensures SamplesWritten(before, after, agentId, containers, stats, earlier)
  {
    hide SampleOf;
    forall i | 0 <= i < |stats|
      ensures
        var s := after[|before| + i];
        s.sampledAt >= earlier && s == SampleOf(agentId, containers, stats[i], s.sampledAt)
    {
      var s, stat := after[|before| + i], stats[i];
      assert s == SampleOf(agentId, containers, stat, s.sampledAt);
      assert s.sampledAt >= since && s == SampleOf(agentId, containers, stats[i], s.sampledAt);
    }
  }

  lemma StillNothing(containers: map<string, ContainerRow>, samples: seq<Sample>, agentId: string,
                     reports: seq<ContainerReport>, since: int)
    ensures ContainersWritten(containers, containers, agentId, [], since)
    ensures SamplesWritten(samples, samples, agentId, reports, [], since)
  {
    hide ContainersWritten, SamplesWritten;
    NoContainersWritten(containers, agentId, since);
    NoSamplesWritten(samples, agentId, reports, since);
  }

  lemma NonePrefix(containers: seq<ContainerReport>, stats: seq<StatReport>)
    ensures containers[..0] == [] && stats[..0] == []
  {
  }

  lemma NothingRefreshed(pods: map<string, PodRow>, containers: map<string, ContainerRow>, samples: seq<Sample>,
                         agentId: string, a: Answers, since: int)
    requires Listed(a)
    ensures Refreshed(pods, pods, containers, containers, samples, samples, agentId, a, Progress(0, 0, 0), since)
  {
    hide Named, NamedContainers, PodsWritten, ContainersWritten, SamplesWritten;
    NothingWritten(pods, agentId, a.containers.value, since);
    StillNothing(containers, samples, agentId, a.containers.value, since);
    NonePrefix(NamedContainers(a.containers.value), if a.stats.Some? then a.stats.value else []);
    assert Named(a.pods.value)[..0] == [];
  }

  lemma ContainersSince(before: map<string, ContainerRow>, after: map<string, ContainerRow>, agentId: string,
                        containers: seq<ContainerReport>, since: int, earlier: int)
    requires ContainersWritten(before, after, agentId, containers, since) && earlier <= since
    ensures ContainersWritten(before, after, agentId, containers, earlier)
  {
    hide LastContainer, ContainerRowOf, StoredContainer;
  }

  // A refresh writes the pods and containers as soon as it has both lists, and
  // the samples if the stats arrive as well; whatever write fails ends it, with
  // everything before that write in place. Success is exact.
  method Refresh(store: Store, agentId: string, answers: Answers) returns (ok: bool, ghost p: Progress)
    modifies store
    ensures store.now >= old(store.now)
    ensures ok <==> Succeeds(answers, old(store.writes))
    ensures !Listed(answers) ==>
              store.pods == old(store.pods) && store.containers == old(store.containers) && store.samples == old(store.samples)
    ensures Listed(answers) ==>
              Refreshed(old(store.pods), store.pods, old(store.containers), store.containers,
                        old(store.samples), store.samples, agentId, answers, p, old(store.now))
    ensures ok ==>
              && PodsWritten(old(store.pods), store.pods, agentId, answers.pods.value, answers.containers.value, old(store.now))
              && ContainersWritten(old(store.containers), store.containers, agentId, answers.containers.value, old(store.now))
              && SamplesWritten(old(store.samples), store.samples, agentId, answers.containers.value, answers.stats.value, old(store.now))
  {
    hide PodsWritten, ContainersWritten, SamplesWritten, SameReports, SameContainers, ContainerIndex.Indexes;
    hide Healths, HealthsIn, Named, NamedContainers, Records, RowsOf;
    p := Progress(0, 0, 0);
    if Listed(answers) {
      NothingRefreshed(store.pods, store.containers, store.samples, agentId, answers, store.now);
    }
    if !answers.clientOk || answers.pods.None? {
      return false, p;
    }
    var touched := store.TouchAgent();
    if !touched {
      return false, p;
    }
    var podRecords := PodRecords(agentId, answers.pods.value);
    ghost var namedPods := Named(answers.pods.value);
    NamedReportTheSame(answers.pods.value);
    if answers.containers.None? {
      return false, p;
    }
    var containers := answers.containers.value;
    var index := NewContainerIndex(containers);
    var containerRecords, byPod := ContainerRecords(agentId, containers);
    ghost var namedContainers := NamedContainers(containers);
    NamedContainersAreTheSame(containers);
    ghost var n;
    ok, n := InsertPods(store, agentId, podRecords, byPod, namedPods, containers);
    p := p.(pods := n);
    StillNothing(store.containers, store.samples, agentId, containers, old(store.now));
    NonePrefix(namedContainers, if answers.stats.Some? then answers.stats.value else []);
    if !ok {
      return false, p;
    }
    assert namedPods[..n] == namedPods;
    SameWritten(old(store.pods), store.pods, agentId, namedPods, answers.pods.value, containers, old(store.now));
    ghost var t1 := store.now;
    ok, n := InsertContainers(store, agentId, containerRecords, namedContainers);
    p := p.(containers := n);
    ContainersSince(old(store.containers), store.containers, agentId, namedContainers[..n], t1, old(store.now));
    if !ok {
      return false, p;
    }
    assert namedContainers[..n] == namedContainers;
    SameContainersWritten(old(store.containers), store.containers, agentId, namedContainers, containers, t1, old(store.now));
    if answers.stats.None? {
      return false, p;
    }
    ghost var t2 := store.now;
    ok, n := InsertStats(store, agentId, index, answers.stats.value, containers);
    p := p.(samples := n);
    EarlierSince(old(store.samples), store.samples, agentId, containers, answers.stats.value[..n], t2, old(store.now));
    assert ok ==> answers.stats.value[..n] == answers.stats.value;
    return ok, p;
  }

  // ---------- reading the tables back ----------

  datatype PodView = PodView(pod: PodRow, containers: seq<ContainerRow>, stats: seq<Sample>)

  datatype Response = RefreshFailed | StoreFailed | Views(views: seq<PodView>, live: bool)

  // Which queries succeed; a pod's container query may fail on its own.
  datatype Queries = Queries(pods: bool, stats: bool, containersFail: set<string>)

  predicate SelfPlaceholder(row: PodRow) {
    row.id == "podorel-self-pod" && row.name == "podorel-web" && Lower(row.state) == "unknown"
  }

  lemma SelectedRows<R>(table: map<string, R>, keep: R -> bool, rows: seq<R>, ids: seq<string>)
    requires |ids| == |rows|
    requires forall i | 0 <= i < |ids| :: ids[i] in table && rows[i] == table[ids[i]] && keep(rows[i])
    requires forall id | id in table && keep(table[id]) :: id in ids
    ensures forall r :: r in rows <==> keep(r) && exists id :: id in table && table[id] == r
  {
    forall r
      ensures r in rows <==> keep(r) && exists id :: id in table && table[id] == r
    {
      if r in rows {
        var i :| 0 <= i < |rows| && rows[i] == r;
        assert ids[i] in table;
      }
      if id :| id in table && table[id] == r && keep(r) {
        var i :| 0 <= i < |ids| && ids[i] == id;
        assert rows[i] == r;
      }
    }
  }

  // The selected rows of a table, each once; their order by name is not modelled.
  method Select<R(==)>(table: map<string, R>, keep: R -> bool) returns (rows: seq<R>, ghost ids: seq<string>)
    ensures |ids| == |rows| && forall i, j | 0 <= i < j < |ids| :: ids[i] != ids[j]
    ensures forall i | 0 <= i < |ids| :: ids[i] in table && rows[i] == table[ids[i]]
    ensures forall r :: r in rows <==> keep(r) && exists id :: id in table && table[id] == r
  {
    rows, ids := [], [];
    var remaining := table.Keys;
    while remaining != {}
      invariant remaining <= table.Keys && |ids| == |rows|
      invariant forall i | 0 <= i < |ids| :: ids[i] in table && ids[i] !in remaining && rows[i] == table[ids[i]] && keep(rows[i])
      invariant forall i, j | 0 <= i < j < |ids| :: ids[i] != ids[j]
      invariant forall id | id in table && id !in remaining && keep(table[id]) :: id in ids
      decreases |remaining|
    {
      var id :| id in remaining;
      remaining := remaining - {id};
      if keep(table[id]) {
        rows, ids := rows + [table[id]], ids + [id];
      }
    }
    SelectedRows(table, keep, rows, ids);
  }

  predicate OfAgent(rowAgent: string, agentId: string) {
    agentId == "" || rowAgent == agentId
  }

  method ListPods(pods: map<string, PodRow>, agentId: string) returns (rows: seq<PodRow>)
    ensures forall r :: r in rows <==> (agentId == "" || r.agentId == agentId) && exists id :: id in pods && pods[id] == r
    ensures (forall id | id in pods :: pods[id].id == id) ==>
              forall i, j | 0 <= i < j < |rows| :: rows[i].id != rows[j].id
  {
    ghost var ids;
    rows, ids := Select(pods, (r: PodRow) => OfAgent(r.agentId, agentId));
  }

  predicate InPod(r: ContainerRow, podId: string, agentId: string) {
    (podId == "" || r.podId == podId) && OfAgent(r.agentId, agentId)
  }

  method ListContainers(containers: map<string, ContainerRow>, podId: string, agentId: string) returns (rows: seq<ContainerRow>)
    ensures forall r :: r in rows <==>
              (podId == "" || r.podId == podId) && (agentId == "" || r.agentId == agentId)
              && exists id :: id in containers && containers[id] == r
    ensures (forall id | id in containers :: containers[id].id == id) ==>
              forall i, j | 0 <= i < j < |rows| :: rows[i].id != rows[j].id
  {
    ghost var ids;
    rows, ids := Select(containers, (r: ContainerRow) => InPod(r, podId, agentId));
  }

  function Target(s: Sample): string {
    if s.containerId != "" then s.containerId else if s.podId != "" then s.podId else s.agentId
  }

  // CurrentStats: the samples no other sample of the same target is newer than.
  predicate Current(samples: seq<Sample>, s: Sample, agentId: string) {
    && (agentId == "" || s.agentId == agentId)
    && forall i | 0 <= i < |samples| :: Target(samples[i]) == Target(s) ==> samples[i].sampledAt <= s.sampledAt
  }

  // The thing a sample measures goes by this id: a container, else a pod, else
  // an agent.
  predicate Measures(x: Sample, id: string) {
    if x.containerId != "" then x.containerId == id else if x.podId != "" then x.podId == id else x.agentId == id
  }

  // A sample of the agent, and no newer one measures the same thing.
  ghost predicate Newest(samples: seq<Sample>, s: Sample, agentId: string) {
    && (agentId == "" || s.agentId == agentId)
    && (s.containerId != "" ==>
          forall x | x in samples && x.sampledAt > s.sampledAt :: !Measures(x, s.containerId))
    && (s.containerId == "" && s.podId != "" ==>
          forall x | x in samples && x.sampledAt > s.sampledAt :: !Measures(x, s.podId))
    && (s.containerId == "" && s.podId == "" ==>
          forall x | x in samples && x.sampledAt > s.sampledAt :: !Measures(x, s.agentId))
  }

  lemma CurrentIsNewest(samples: seq<Sample>, s: Sample, agentId: string)
    ensures Current(samples, s, agentId) <==> Newest(samples, s, agentId)
  {
    assert forall x :: Target(x) == Target(s) <==> Measures(x, Target(s));
    assert forall i | 0 <= i < |samples| :: samples[i] in samples;
    hide Measures;
    if Newest(samples, s, agentId) {
      forall i | 0 <= i < |samples| && Target(samples[i]) == Target(s)
        ensures samples[i].sampledAt <= s.sampledAt
      {
        assert Measures(samples[i], Target(s));
      }
    }
  }

  // When all samples name a container, the newest of each container count;
  // likewise for pods, when none names a container, and for agents.
  lemma NewestOfOneKind(samples: seq<Sample>, s: Sample, agentId: string)
    requires s in samples
    ensures (forall x | x in samples :: x.containerId != "") ==>
              (Newest(samples, s, agentId) <==>
               (agentId == "" || s.agentId == agentId)
               && forall x | x in samples && x.containerId == s.containerId :: x.sampledAt <= s.sampledAt)
    ensures (forall x | x in samples :: x.containerId == "" && x.podId != "") ==>
              (Newest(samples, s, agentId) <==>
               (agentId == "" || s.agentId == agentId)
               && forall x | x in samples && x.podId == s.podId :: x.sampledAt <= s.sampledAt)
    ensures (forall x | x in samples :: x.containerId == "" && x.podId == "") ==>
              (Newest(samples, s, agentId) <==>
               (agentId == "" || s.agentId == agentId)
               && forall x | x in samples && x.agentId == s.agentId :: x.sampledAt <= s.sampledAt)
  {
  }

  method CurrentStats(samples: seq<Sample>, agentId: string) returns (current: seq<Sample>)
    ensures forall s :: multiset(current)[s] == if Current(samples, s, agentId) then multiset(samples)[s] else 0
    ensures forall s :: multiset(current)[s] == if Newest(samples, s, agentId) then multiset(samples)[s] else 0
    ensures (forall x | x in samples :: x.containerId != "") ==>
              forall s | s in samples && (agentId == "" || s.agentId == agentId) ::
                s in current <==> forall x | x in samples && x.containerId == s.containerId :: x.sampledAt <= s.sampledAt
  {
    hide Current, Newest;
    current := [];
    for i := 0 to |samples|
      invariant forall s :: multiset(current)[s] == if Current(samples, s, agentId) then multiset(samples[..i])[s] else 0
    {
      if Current(samples, samples[i], agentId) {
        current := current + [samples[i]];
      }
      assert samples[..i + 1] == samples[..i] + [samples[i]];
    }
    assert samples[..|samples|] == samples;
    forall s
      ensures Current(samples, s, agentId) <==> Newest(samples, s, agentId)
    {
      CurrentIsNewest(samples, s, agentId);
    }
    forall s | s in samples && (agentId == "" || s.agentId == agentId) && forall x | x in samples :: x.containerId != ""
      ensures s in current <==> forall x | x in samples && x.containerId == s.containerId :: x.sampledAt <= s.sampledAt
    {
      NewestOfOneKind(samples, s, agentId);
      assert s in current <==> s in multiset(current);
      assert s in multiset(samples);
    }
  }

  method FreshStatsOnly(stats: seq<Sample>, refreshed: bool, freshAfter: int) returns (kept: seq<Sample>)
    ensures forall s :: multiset(kept)[s] == if refreshed && s.sampledAt >= freshAfter then multiset(stats)[s] else 0
    ensures !refreshed ==> kept == []
  {
    kept := [];
    if !refreshed {
      return;
    }
    for i := 0 to |stats|
      invariant forall s :: multiset(kept)[s] == if s.sampledAt >= freshAfter then multiset(stats[..i])[s] else 0
    {
      if stats[i].sampledAt >= freshAfter {
        kept := kept + [stats[i]];
      }
      assert stats[..i + 1] == stats[..i] + [stats[i]];
    }
    assert stats[..|stats|] == stats;
  }

  method StatsOfPod(current: seq<Sample>, podId: string) returns (stats: seq<Sample>)
    ensures forall s :: multiset(stats)[s] == if s.podId == podId then multiset(current)[s] else 0
    ensures current == [] ==> stats == []
  {
    stats := [];
    for i := 0 to |current|
      invariant |stats| <= i
      invariant forall s :: multiset(stats)[s] == if s.podId == podId then multiset(current[..i])[s] else 0
    {
      if current[i].podId == podId {
        stats := stats + [current[i]];
      }
      assert current[..i + 1] == current[..i] + [current[i]];
    }
    assert current[..|current|] == current;
  }

  predicate Shown(row: PodRow, refreshed: bool, freshAfter: int) {
    !SelfPlaceholder(row) && (refreshed ==> row.observedAt >= freshAfter)
  }

  // A view carries exactly the samples of its pod.
  ghost predicate OfPod(v: PodView, current: seq<Sample>) {
    forall s :: multiset(v.stats)[s] == if s.podId == v.pod.id then multiset(current)[s] else 0
  }

  lemma ViewOfPod(v: PodView, current: seq<Sample>)
    requires forall s :: multiset(v.stats)[s] == if s.podId == v.pod.id then multiset(current)[s] else 0
    ensures OfPod(v, current)
  {
  }

  // A view lists exactly the container rows of its pod, stale or not, that the
  // session's agent owns, and none if their query failed.
  ghost predicate ListsContainers(v: PodView, containers: map<string, ContainerRow>, sessionAgent: string, failing: set<string>) {
    if v.pod.id in failing then v.containers == []
    else
      && (forall r :: r in v.containers <==> InPod(r, v.pod.id, sessionAgent) && exists id :: id in containers && containers[id] == r)
      && ((forall id | id in containers :: containers[id].id == id) ==>
            forall i, j | 0 <= i < j < |v.containers| :: v.containers[i].id != v.containers[j].id)
  }

  method BuildView(row: PodRow, containers: map<string, ContainerRow>, current: seq<Sample>, sessionAgent: string,
                   failing: set<string>) returns (v: PodView)
    ensures v.pod == row && OfPod(v, current) && ListsContainers(v, containers, sessionAgent, failing)
    ensures current == [] ==> v.stats == []
  {
    hide OfPod;
    var listed := [];
    if row.id !in failing {
      listed := ListContainers(containers, row.id, sessionAgent);
    }
    var stats := StatsOfPod(current, row.id);
    v := PodView(row, listed, stats);
    ViewOfPod(v, current);
  }

  method BuildViews(rows: seq<PodRow>, containers: map<string, ContainerRow>, current: seq<Sample>, sessionAgent: string,
                    failing: set<string>, refreshed: bool, freshAfter: int) returns (views: seq<PodView>)
    ensures forall r :: (exists v :: v in views && v.pod == r) <==> r in rows && Shown(r, refreshed, freshAfter)
    ensures forall v | v in views :: OfPod(v, current) && ListsContainers(v, containers, sessionAgent, failing)
    ensures current == [] ==> forall v | v in views :: v.stats == []
    ensures (forall i, j | 0 <= i < j < |rows| :: rows[i].id != rows[j].id) ==>
              forall i, j | 0 <= i < j < |views| :: views[i].pod.id != views[j].pod.id
  {
    hide Shown, OfPod, ListsContainers;
    views := [];
    for i := 0 to |rows|
      invariant forall v | v in views :: v.pod in rows[..i] && Shown(v.pod, refreshed, freshAfter)
      invariant forall r | r in rows[..i] && Shown(r, refreshed, freshAfter) :: exists v :: v in views && v.pod == r
      invariant forall v | v in views :: OfPod(v, current) && ListsContainers(v, containers, sessionAgent, failing)
      invariant current == [] ==> forall v | v in views :: v.stats == []
      invariant (forall a, b | 0 <= a < b < |rows| :: rows[a].id != rows[b].id) ==>
                  forall a, b | 0 <= a < b < |views| :: views[a].pod.id != views[b].pod.id
    {
      assert rows[..i + 1] == rows[..i] + [rows[i]];
      ghost var before := views;
      if Shown(rows[i], refreshed, freshAfter) {
        var v := BuildView(rows[i], containers, current, sessionAgent, failing);
        views := views + [v];
        assert v in views;
      }
      forall r | r in rows[..i + 1] && Shown(r, refreshed, freshAfter)
        ensures exists v :: v in views && v.pod == r
      {
        if r in rows[..i] {
          var v :| v in before && v.pod == r;
          assert v in views;
        }
      }
    }
    assert rows[..|rows|] == rows;
  }

  // ---------- what a client sees after a refresh ----------

  ghost predicate KeyedById(pods: map<string, PodRow>) {
    forall id | id in pods :: pods[id].id == id
  }

  // Whatever the agent no longer reports was last written before t.
  ghost predicate UnreportedAreStale(before: map<string, PodRow>, agentId: string, pods: seq<PodReport>, t: int) {
    forall id | id in before && OfAgent(before[id].agentId, agentId) && !Reports(pods, id) && !SelfPlaceholder(before[id]) ::
      before[id].observedAt < t
  }

  // Exactly the reported pods with a non-empty id, once each, as their last
  // report and this refresh's containers describe them; the seeded placeholder
  // is the only one left out.
  ghost predicate ShowsReported(views: seq<PodView>, agentId: string, pods: seq<PodReport>, containers: seq<ContainerReport>) {
    && (forall i, j | 0 <= i < j < |views| :: views[i].pod.id != views[j].pod.id)
    && (forall v | v in views ::
          && Reports(pods, v.pod.id)
          && v.pod == ExpectedRow(agentId, LastReport(pods, v.pod.id), containers, v.pod.observedAt)
          && !SelfPlaceholder(v.pod))
    && (forall id | Reports(pods, id) && !SelfPlaceholder(ExpectedRow(agentId, LastReport(pods, id), containers, 0)) ::
          exists v :: v in views && v.pod.id == id)
  }

  // Report i is the last one of the pod with this id, which stands in its first
  // field or else in the alternative one.
  predicate LastWith(pods: seq<PodReport>, i: nat, id: string) {
    && i < |pods| && id != "" && id == (if pods[i].id != "" then pods[i].id else pods[i].altId)
    && forall j | i < j < |pods| :: id != if pods[j].id != "" then pods[j].id else pods[j].altId
  }

  lemma {:induction false} LastReportIs(pods: seq<PodReport>, i: nat, id: string)
    requires LastWith(pods, i, id)
    ensures Reports(pods, id) && LastReport(pods, id) == pods[i]
  {
    assert PodIdOf(pods[i]) == id;
    if i < |pods| - 1 {
      assert PodIdOf(pods[|pods| - 1]) != id;
      LastReportIs(pods[..|pods| - 1], i, id);
    }
  }

  lemma {:induction false} LastIndex(pods: seq<PodReport>, id: string) returns (i: nat)
    requires Reports(pods, id)
    ensures LastWith(pods, i, id)
  {
    if PodIdOf(pods[|pods| - 1]) == id {
      i := |pods| - 1;
    } else {
      LastReportShrinks(pods, id);
      i := LastIndex(pods[..|pods| - 1], id);
    }
  }

  // The containers reported with an id for a pod say this word.
  ghost predicate ContainersSay(containers: seq<ContainerReport>, podId: string, word: string) {
    exists c | c in containers :: (c.id != "" || c.altId != "") && c.podId == podId && Normalize(c.health) == word
  }

  lemma WordsAreNormal(word: string)
    requires word in {"unhealthy", "starting", "healthy", "unknown"}
    ensures Normalize(word) == word
  {
    assert TrimLeft(word) == word && TrimRight(word) == word;
    assert Lower(word) == word;
  }

  lemma ObservedIsNormal(s: string, word: string)
    requires word in {"unhealthy", "starting", "healthy"}
    ensures Normalize(ObservedHealth(s)) == word <==> Normalize(s) == word
  {
    WordsAreNormal("unhealthy");
    WordsAreNormal("starting");
    WordsAreNormal("healthy");
    WordsAreNormal("unknown");
    hide Normalize;
  }

  lemma HealthsInSay(containers: seq<ContainerReport>, podId: string, word: string)
    requires word in {"unhealthy", "starting", "healthy"} && podId != ""
    ensures word in HealthsIn(containers, podId) <==> ContainersSay(containers, podId, word)
  {
    forall c | c in containers
      ensures NormalHealth(ObservedHealth(c.health)) == word <==> Normalize(c.health) == word
    {
      ObservedIsNormal(c.health, word);
      NormalIs(ObservedHealth(c.health), word);
    }
    hide NormalHealth, ObservedHealth, Normalize;
  }

  // The row of a reported pod, field by field.
  predicate DescribedBy(row: PodRow, p: PodReport, agentId: string) {
    && row.id == row.podmanId == (if p.id != "" then p.id else p.altId)
    && row.agentId == (if agentId != "" then agentId else "primary")
    && row.name == (if p.name != "" then p.name else row.id)
    && row.state == (if p.state != "" then p.state else if p.status != "" then p.status else "unknown")
  }

  lemma ExpectedRowIs(agentId: string, p: PodReport, containers: seq<ContainerReport>, t: int)
    requires p.id != "" || p.altId != ""
    ensures
      var row := ExpectedRow(agentId, p, containers, t);
      && DescribedBy(row, p, agentId)
      && WorstOf(row.health, Normalize(p.health), ContainersSay(containers, row.id, "unhealthy"),
                 ContainersSay(containers, row.id, "starting"), ContainersSay(containers, row.id, "healthy"))
  {
    var row := ExpectedRow(agentId, p, containers, t);
    PodHealthIsWorst(ObservedHealth(p.health), HealthsIn(containers, row.id));
    HealthsInSay(containers, row.id, "unhealthy");
    HealthsInSay(containers, row.id, "starting");
    HealthsInSay(containers, row.id, "healthy");
    ObservedIsNormal(p.health, "unhealthy");
    ObservedIsNormal(p.health, "starting");
    ObservedIsNormal(p.health, "healthy");
    hide PodHealth, ObservedHealth, HealthsIn, ContainersSay, Normalize;
  }

  // The agent's own placeholder pod.
  predicate OwnPlaceholder(row: PodRow) {
    row.id == "podorel-self-pod" && row.name == "podorel-web" && Lower(row.state) == "unknown"
  }

  // A listing that shows what was reported, in the agent's own terms: every view
  // is some pod's last report with the worst health its containers say.
  lemma ReportedViewIs(views: seq<PodView>, agentId: string, pods: seq<PodReport>, containers: seq<ContainerReport>, v: PodView)
      returns (i: nat)
    requires ShowsReported(views, agentId, pods, containers) && v in views
    ensures LastWith(pods, i, v.pod.id) && DescribedBy(v.pod, pods[i], agentId) && !OwnPlaceholder(v.pod)
    ensures WorstOf(v.pod.health, Normalize(pods[i].health), ContainersSay(containers, v.pod.id, "unhealthy"),
                    ContainersSay(containers, v.pod.id, "starting"), ContainersSay(containers, v.pod.id, "healthy"))
  {
    i := LastIndex(pods, v.pod.id);
    LastReportIs(pods, i, v.pod.id);
    ExpectedRowIs(agentId, pods[i], containers, v.pod.observedAt);
    hide ExpectedRow, WorstOf, ContainersSay, Normalize;
  }

  // And every last report has its view, unless it is the placeholder's.
  lemma ReportedPodIsShown(views: seq<PodView>, agentId: string, pods: seq<PodReport>, containers: seq<ContainerReport>,
                           i: nat, id: string, row: PodRow)
    requires ShowsReported(views, agentId, pods, containers)
    requires LastWith(pods, i, id) && DescribedBy(row, pods[i], agentId)
    ensures (exists v | v in views :: v.pod.id == id) <==> !OwnPlaceholder(row)
  {
    LastReportIs(pods, i, id);
    var e := ExpectedRow(agentId, pods[i], containers, 0);
    ExpectedRowIs(agentId, pods[i], containers, 0);
    assert SelfPlaceholder(e) <==> OwnPlaceholder(row);
    if v :| v in views && v.pod.id == id {
      ExpectedRowIs(agentId, pods[i], containers, v.pod.observedAt);
    }
    hide ExpectedRow, Lower;
  }

  // A view's samples are this refresh's newest ones for that pod, and no others.
  ghost predicate ShowsNewSamples(views: seq<PodView>, before: seq<Sample>, after: seq<Sample>, sessionAgent: string) {
    |before| <= |after| && forall v | v in views :: forall s ::
      multiset(v.stats)[s] ==
        if Current(after, s, sessionAgent) && s.podId == v.pod.id then multiset(after[|before|..])[s] else 0
  }

  // A view shows the newest sample of each of its pod's containers, of the pod
  // or of its agent, if it is from this refresh, and no other one.
  ghost predicate ShowsNewest(v: PodView, samples: seq<Sample>, sessionAgent: string, t: int) {
    forall s :: multiset(v.stats)[s] ==
      if s.podId == v.pod.id && s.sampledAt >= t && Newest(samples, s, sessionAgent) then multiset(samples)[s] else 0
  }

  // When every sample names a container, each container of the pod is shown.
  lemma EveryContainerShown(v: PodView, samples: seq<Sample>, sessionAgent: string, t: int, s: Sample)
    requires ShowsNewest(v, samples, sessionAgent, t) && s in samples && forall x | x in samples :: x.containerId != ""
    ensures s in v.stats <==>
            && s.podId == v.pod.id && s.sampledAt >= t && (sessionAgent == "" || s.agentId == sessionAgent)
            && forall x | x in samples && x.containerId == s.containerId :: x.sampledAt <= s.sampledAt
  {
    NewestOfOneKind(samples, s, sessionAgent);
    hide Newest;
    assert s in multiset(samples) && (s in v.stats <==> s in multiset(v.stats));
  }

  lemma NewestShown(views: seq<PodView>, samples: seq<Sample>, current: seq<Sample>, sessionAgent: string, t: int)
    requires forall s :: multiset(current)[s] ==
                         if s.sampledAt >= t && Newest(samples, s, sessionAgent) then multiset(samples)[s] else 0
    requires forall v | v in views :: OfPod(v, current)
    ensures forall v | v in views :: ShowsNewest(v, samples, sessionAgent, t)
  {
    hide Newest;
  }

  // Without a refresh: every stored pod of the agent but the placeholder.
  ghost predicate ShowsCached(views: seq<PodView>, agentId: string, pods: map<string, PodRow>) {
    forall r :: (exists v :: v in views && v.pod == r) <==>
                !SelfPlaceholder(r) && OfAgent(r.agentId, agentId) && exists id :: id in pods && pods[id] == r
  }

  lemma ViewsShowCached(pods: map<string, PodRow>, agentId: string, rows: seq<PodRow>, views: seq<PodView>, t: int)
    requires forall r :: r in rows <==> OfAgent(r.agentId, agentId) && exists id :: id in pods && pods[id] == r
    requires forall r :: (exists v :: v in views && v.pod == r) <==> r in rows && Shown(r, false, t)
    ensures ShowsCached(views, agentId, pods)
  {
  }

  lemma StaleAreHidden(before: map<string, PodRow>, after: map<string, PodRow>, agentId: string,
                       pods: seq<PodReport>, containers: seq<ContainerReport>, since: int,
                       rows: seq<PodRow>, views: seq<PodView>)
    requires KeyedById(after) && UnreportedAreStale(before, agentId, pods, since)
    requires PodsWritten(before, after, agentId, pods, containers, since)
    requires forall r :: r in rows <==> OfAgent(r.agentId, agentId) && exists id :: id in after && after[id] == r
    requires forall r :: (exists v :: v in views && v.pod == r) <==> r in rows && Shown(r, true, since)
    requires forall i, j | 0 <= i < j < |views| :: views[i].pod.id != views[j].pod.id
    ensures ShowsReported(views, agentId, pods, containers)
  {
    hide Reports, LastReport, PodHealth, ObservedHealth, HealthsIn;
    forall v | v in views
      ensures Reports(pods, v.pod.id)
      ensures v.pod == ExpectedRow(agentId, LastReport(pods, v.pod.id), containers, v.pod.observedAt)
      ensures !SelfPlaceholder(v.pod)
    {
      assert v.pod in rows && Shown(v.pod, true, since);
      var id :| id in after && after[id] == v.pod;
      assert id == v.pod.id;
    }
    forall id | Reports(pods, id) && !SelfPlaceholder(ExpectedRow(agentId, LastReport(pods, id), containers, 0))
      ensures exists v :: v in views && v.pod.id == id
    {
      var row := after[id];
      assert row == ExpectedRow(agentId, LastReport(pods, id), containers, row.observedAt);
      assert row in rows && Shown(row, true, since);
      var v :| v in views && v.pod == row;
    }
  }

  // A refreshed listing shows the reported pods exactly when no unreported row
  // of the agent carries a time the refresh could have given it.
  lemma ViewsShowReported(before: map<string, PodRow>, after: map<string, PodRow>, agentId: string,
                          pods: seq<PodReport>, containers: seq<ContainerReport>, since: int,
                          rows: seq<PodRow>, views: seq<PodView>)
    requires KeyedById(after)
    requires PodsWritten(before, after, agentId, pods, containers, since)
    requires forall r :: r in rows <==> OfAgent(r.agentId, agentId) && exists id :: id in after && after[id] == r
    requires forall r :: (exists v :: v in views && v.pod == r) <==> r in rows && Shown(r, true, since)
    requires forall i, j | 0 <= i < j < |views| :: views[i].pod.id != views[j].pod.id
    ensures ShowsReported(views, agentId, pods, containers) <==> UnreportedAreStale(before, agentId, pods, since)
  {
    if UnreportedAreStale(before, agentId, pods, since) {
      StaleAreHidden(before, after, agentId, pods, containers, since, rows, views);
    }
    if ShowsReported(views, agentId, pods, containers) {
      hide PodHealth, ObservedHealth, HealthsIn, ExpectedRow;
      forall id | id in before && OfAgent(before[id].agentId, agentId) && !Reports(pods, id) && !SelfPlaceholder(before[id])
        ensures before[id].observedAt < since
      {
        var row := after[id];
        assert row in rows && row.id == id;
        assert Shown(row, true, since) <==> row.observedAt >= since;
      }
    }
  }

  const OLD_POD := PodRow("old", "old", PRIMARY_AGENT, "old", "running", "unknown", 0)

  // The smallest such listing: the agent reports nothing, and a pod stamped at
  // the very start of the refresh is still shown.
  lemma FreshRowStaysListed(since: int)
    ensures
      var row := OLD_POD.(observedAt := since);
      var t := map[row.id := row];
      && PodsWritten(t, t, PRIMARY_AGENT, [], [], since) && Shown(row, true, since)
      && !UnreportedAreStale(t, PRIMARY_AGENT, [], since)
      && !ShowsReported([PodView(row, [], [])], PRIMARY_AGENT, [], [])
  {
    var row := OLD_POD.(observedAt := since);
    var t := map[row.id := row];
    NothingWritten(t, PRIMARY_AGENT, [], since);
    assert row.id in t && t[row.id] == row && !Reports([], row.id);
    assert PodView(row, [], []) in [PodView(row, [], [])];
  }

  lemma NewSamplesAreNew(before: seq<Sample>, after: seq<Sample>, agentId: string,
                         containers: seq<ContainerReport>, stats: seq<StatReport>, since: int)
    requires SamplesWritten(before, after, agentId, containers, stats, since)
    ensures |before| <= |after| && multiset(after) == multiset(before) + multiset(after[|before|..])
    ensures forall s | s in after[|before|..] :: s.sampledAt >= since
  {
    hide SampleOf;
    assert after == before + after[|before|..];
    forall s | s in after[|before|..]
      ensures s.sampledAt >= since
    {
      var i :| 0 <= i < |after| - |before| && after[|before|..][i] == s;
      assert after[|before| + i] == s;
      var stat := stats[i];
    }
  }

  lemma NewSamplesOnly(before: seq<Sample>, after: seq<Sample>, agentId: string,
                       containers: seq<ContainerReport>, stats: seq<StatReport>, since: int)
    requires SamplesWritten(before, after, agentId, containers, stats, since)
    requires forall s | s in before :: s.sampledAt < since
    ensures |before| <= |after|
    ensures forall s :: multiset(after[|before|..])[s] == if s.sampledAt >= since then multiset(after)[s] else 0
  {
    NewSamplesAreNew(before, after, agentId, containers, stats, since);
    hide SamplesWritten;
    assert forall s | s in multiset(before) :: s in before;
    assert forall s | s in multiset(after[|before|..]) :: s in after[|before|..];
  }

  // No earlier sample of a shown pod is still its target's newest and carries a
  // time the refresh could have given it.
  ghost predicate EarlierAreStale(views: seq<PodView>, before: seq<Sample>, after: seq<Sample>, sessionAgent: string, t: int) {
    forall v, s | v in views && s in before && s.podId == v.pod.id && Current(after, s, sessionAgent) :: s.sampledAt < t
  }

  // What a view shows and what it should, for one sample.
  lemma SampleShown(before: seq<Sample>, added: seq<Sample>, s: Sample, since: int)
    requires s in added ==> s.sampledAt >= since
    ensures (if s.sampledAt >= since then multiset(before)[s] + multiset(added)[s] else 0) == multiset(added)[s] <==>
            (s in before ==> s.sampledAt < since)
  {
    assert s in multiset(before) <==> s in before;
    assert s in multiset(added) <==> s in added;
  }

  lemma RefreshIsKeyed(before: map<string, PodRow>, after: map<string, PodRow>, agentId: string, answers: Answers,
                       p: Progress, since: int)
    requires KeyedById(before)
    requires !Listed(answers) ==> after == before
    requires Listed(answers) ==>
               p.pods <= |Named(answers.pods.value)|
               && PodsWritten(before, after, agentId, Named(answers.pods.value)[..p.pods], answers.containers.value, since)
    ensures KeyedById(after)
  {
    hide PodHealth, ObservedHealth, HealthsIn, Named;
  }

  lemma NoSamples(current: seq<Sample>)
    ensures (forall s :: multiset(current)[s] == 0) ==> current == []
  {
    if current != [] {
      assert current[0] in multiset(current);
    }
  }

  lemma ReportedSeen(before: map<string, PodRow>, after: map<string, PodRow>, agentId: string, answers: Answers, since: int,
                     rows: seq<PodRow>, views: seq<PodView>)
    requires Answered(answers) && KeyedById(after)
    requires PodsWritten(before, after, agentId, answers.pods.value, answers.containers.value, since)
    requires forall r :: r in rows <==> OfAgent(r.agentId, agentId) && exists id :: id in after && after[id] == r
    requires (forall id | id in after :: after[id].id == id) ==>
               forall i, j | 0 <= i < j < |rows| :: rows[i].id != rows[j].id
    requires forall r :: (exists v :: v in views && v.pod == r) <==> r in rows && Shown(r, true, since)
    requires (forall i, j | 0 <= i < j < |rows| :: rows[i].id != rows[j].id) ==>
               forall i, j | 0 <= i < j < |views| :: views[i].pod.id != views[j].pod.id
    ensures ShowsReported(views, agentId, answers.pods.value, answers.containers.value) <==>
            UnreportedAreStale(before, agentId, answers.pods.value, since)
  {
    hide PodsWritten, Shown, ShowsReported, UnreportedAreStale;
    ViewsShowReported(before, after, agentId, answers.pods.value, answers.containers.value, since, rows, views);
  }

  // The smallest such answer: the agent reports no stats, and a sample stamped
  // at the very start of the refresh is still its pod's newest.
  lemma FreshSampleStaysShown(since: int)
    ensures
      var s := Sample(PRIMARY_AGENT, OLD_POD.id, "", 0, since);
      var views := [PodView(OLD_POD, [], [s])];
      && SamplesWritten([s], [s], PRIMARY_AGENT, [], [], since) && Current([s], s, "") && OfPod(views[0], [s])
      && !EarlierAreStale(views, [s], [s], "", since) && !ShowsNewSamples(views, [s], [s], "")
  {
    var s := Sample(PRIMARY_AGENT, OLD_POD.id, "", 0, since);
    var v := PodView(OLD_POD, [], [s]);
    assert s in [s] && v in [v] && multiset(v.stats)[s] == 1;
    assert [s][|[s]|..] == [];
  }

  lemma SamplesSeen(oldSamples: seq<Sample>, samples: seq<Sample>, agentId: string, sessionAgent: string, answers: Answers,
                    since: int, current: seq<Sample>, views: seq<PodView>)
    requires Answered(answers)
    requires SamplesWritten(oldSamples, samples, agentId, answers.containers.value, answers.stats.value, since)
    requires forall s :: multiset(current)[s] ==
                         if s.sampledAt >= since && Current(samples, s, sessionAgent) then multiset(samples)[s] else 0
    requires forall v | v in views :: OfPod(v, current)
    ensures ShowsNewSamples(views, oldSamples, samples, sessionAgent) <==>
            EarlierAreStale(views, oldSamples, samples, sessionAgent, since)
  {
    NewSamplesAreNew(oldSamples, samples, agentId, answers.containers.value, answers.stats.value, since);
    hide Current, SamplesWritten;
    var added := samples[|oldSamples|..];
    forall v, s | v in views
      ensures multiset(v.stats)[s] == (if Current(samples, s, sessionAgent) && s.podId == v.pod.id then multiset(added)[s] else 0)
              <==> (s in oldSamples && s.podId == v.pod.id && Current(samples, s, sessionAgent) ==> s.sampledAt < since)
    {
      assert OfPod(v, current);
      SampleShown(oldSamples, added, s, since);
    }
    if ShowsNewSamples(views, oldSamples, samples, sessionAgent) {
      assert EarlierAreStale(views, oldSamples, samples, sessionAgent, since);
    }
  }

  method HandleListPods(store: Store, sessionAgent: string, answers: Answers, queries: Queries, allowFallback: bool)
      returns (response: Response, ghost freshAfter: int)
    requires KeyedById(store.pods)
    modifies store
    ensures KeyedById(store.pods) && old(store.now) <= freshAfter <= store.now
    ensures
      var live := Succeeds(answers, old(store.writes));
      && (response == RefreshFailed <==> !live && !allowFallback)
      && (response == StoreFailed <==> (live || allowFallback) && !queries.pods)
      && (response.Views? ==> (response.live <==> live))
    ensures response.Views? ==>
              forall v | v in response.views :: ListsContainers(v, store.containers, sessionAgent, queries.containersFail)
    ensures response.Views? && (!response.live || !queries.stats) ==> forall v | v in response.views :: v.stats == []
    ensures response.Views? && !response.live ==>
              ShowsCached(response.views, FirstNonEmpty(sessionAgent, PRIMARY_AGENT), store.pods)
    ensures response.Views? && response.live ==>
              var agentId := FirstNonEmpty(sessionAgent, PRIMARY_AGENT);
              && (ShowsReported(response.views, agentId, answers.pods.value, answers.containers.value) <==>
                  UnreportedAreStale(old(store.pods), agentId, answers.pods.value, freshAfter))
              && (queries.stats ==>
                    && (forall v | v in response.views :: ShowsNewest(v, store.samples, sessionAgent, freshAfter))
                    && (ShowsNewSamples(response.views, old(store.samples), store.samples, sessionAgent) <==>
                        EarlierAreStale(response.views, old(store.samples), store.samples, sessionAgent, freshAfter)))
  {
    hide ShowsReported, ShowsNewSamples, ShowsCached, PodsWritten, ContainersWritten, SamplesWritten;
    hide Shown, Current, Newest, ShowsNewest, KeyedById, UnreportedAreStale, EarlierAreStale, OfPod, ListsContainers, Named, NamedContainers, WritesFor;
    var agentId := FirstNonEmpty(sessionAgent, PRIMARY_AGENT);
    var start := store.Now();
    freshAfter := start;
    ghost var p;
    var refreshed;
    refreshed, p := Refresh(store, agentId, answers);
    RefreshIsKeyed(old(store.pods), store.pods, agentId, answers, p, start);
    if !refreshed && !allowFallback {
      return RefreshFailed, freshAfter;
    }
    if !queries.pods {
      return StoreFailed, freshAfter;
    }
    var rows := ListPods(store.pods, agentId);
    var current := [];
    if queries.stats {
      current := CurrentStats(store.samples, sessionAgent);
    }
    current := FreshStatsOnly(current, refreshed, start);
    NoSamples(current);
    var views := BuildViews(rows, store.containers, current, sessionAgent, queries.containersFail, refreshed, start);
    if !refreshed {
      ViewsShowCached(store.pods, agentId, rows, views, start);
    } else {
      ReportedSeen(old(store.pods), store.pods, agentId, answers, start, rows, views);
      if queries.stats {
        NewestShown(views, store.samples, current, sessionAgent, start);
        SamplesSeen(old(store.samples), store.samples, agentId, sessionAgent, answers, start, current, views);
      }
    }
    return Views(views, refreshed), freshAfter;
  }
}
