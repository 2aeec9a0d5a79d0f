/**
 * Settings: an update writes a row and changes the running configuration,
 * section by section, and a restart replays the rows over the defaults. The
 * question is whether both give the same configuration.
 */
module Settings {
  import opened AsciiText
  import opened Decimals
  import opened Wrappers

  // ---------- machine integers and durations ----------

  const HOUR: int := 3_600_000_000_000

  // The largest number of hours whose nanoseconds fit an int64.
  const MAX_HOURS: int := 2562047

  function Wrap(n: int): (r: int)
    ensures IsInt64(r)
  {
    (n + 0x8000_0000_0000_0000) % 0x1_0000_0000_0000_0000 - 0x8000_0000_0000_0000
  }

  function FromHours(hours: int): int {
    Wrap(hours * HOUR)
  }

  // Go divides towards zero.
  function ToHours(duration: int): int {
    if duration >= 0 then duration / HOUR else -((-duration) / HOUR)
  }

  lemma HoursFit(hours: int)
    requires 0 < hours
    ensures hours <= MAX_HOURS <==> IsInt64(hours * HOUR)
    ensures hours <= MAX_HOURS ==> FromHours(hours) == hours * HOUR && ToHours(FromHours(hours)) == hours
  {
  }

  lemma WholeHours(duration: int)
    requires IsInt64(duration)
    ensures FromHours(ToHours(duration)) == ToHours(duration) * HOUR
    ensures -MAX_HOURS <= ToHours(duration) <= MAX_HOURS
  {
  }

  // ---------- configuration, rows, payload values ----------

  datatype Config = Config(
    execEnabled: bool, automationEnabled: bool,
    logRetention: int, perPodLimitMb: int, totalLimitMb: int,
    metricsRetention: int,
    scansEnabled: bool, schedule: string, scanner: string
  )

  datatype Section = Actions | Logs | Metrics | Security

  datatype Row =
    | ActionsRow(execEnabled: bool, automationEnabled: bool)
    | LogsRow(retentionHours: int, perPodLimitMb: int, totalLimitMb: int)
    | MetricsRow(retentionHours: int)
    | SecurityRow(scansEnabled: bool, schedule: string, scanner: string)

  type Rows = map<Section, Row>

  predicate RowFits(section: Section, row: Row) {
    match section
    case Actions => row.ActionsRow?
    case Logs => row.LogsRow?
    case Metrics => row.MetricsRow?
    case Security => row.SecurityRow?
  }

  predicate RowsFit(rows: Rows) {
    forall s | s in rows :: RowFits(s, rows[s])
  }

  // A decoded JSON value; anything that is not a bool, number or string is Other.
  datatype Value = Flag(b: bool) | Number(r: real) | Text(s: string) | Other

  // int(float64): towards zero; out of range it is the smallest int64, as the
  // amd64 conversion gives.
  function Truncate(r: real): int {
    var n := if r >= 0.0 then r.Floor else -((-r).Floor);
    if IsInt64(n) then n else MIN_INT64
  }

  function PositiveIntValue(value: Value, fallback: int): (n: int)
    ensures n > 0 || n == fallback
  {
    var parsed := match value
      case Number(r) => Truncate(r)
      case Text(s) => (match Atoi(Trim(s)) case Some(n) => n case None => 0)
      case _ => 0;
    if parsed <= 0 then fallback else parsed
  }

  function BoolValue(value: Value, fallback: bool): bool {
    if value.Flag? then value.b else fallback
  }

  function StringValueOr(value: Value, fallback: string): (s: string)
    ensures s == fallback || !Blank(s)
  {
    if value.Text? && Trim(value.s) != "" then
      TrimTwice(value.s);
      Trim(value.s)
    else fallback
  }

  lemma ItoaIsTrimmed(n: int)
    ensures var s := Itoa(n); s != "" && !Space(s[0]) && !Space(s[|s| - 1])
  {
  }

  // The number or decimal text of a positive integer yields it, padded or
  // not; zero, negative numbers and every other kind of value yield nothing.
  lemma SuppliedNumbers(n: int, fallback: int)
    requires IsInt64(n)
    ensures PositiveIntValue(Number(n as real), fallback) == if n > 0 then n else fallback
    ensures PositiveIntValue(Text(" " + Itoa(n) + " "), fallback) == if n > 0 then n else fallback
    ensures PositiveIntValue(Text(Itoa(n)), fallback) == if n > 0 then n else fallback
    ensures PositiveIntValue(Other, fallback) == fallback && forall b :: PositiveIntValue(Flag(b), fallback) == fallback
  {
    AtoiOfItoa(n);
    ItoaIsTrimmed(n);
    TrimPadded(Itoa(n));
    hide Atoi, Itoa, Trim;
  }

  // A text that is not blank yields itself without surrounding space.
  lemma SuppliedTexts(s: string, fallback: string)
    requires !Blank(s)
    ensures StringValueOr(Text(s), fallback) == Trim(s) && !Blank(Trim(s))
    ensures !Space(Trim(s)[0]) && !Space(Trim(s)[|Trim(s)| - 1])
  {
    TrimTwice(s);
    TrimLeftDone(s);
    TrimRightKeeps(TrimLeft(s));
  }

  lemma OtherValuesYieldNothing(value: Value, fallback: string)
    requires !value.Text? || Blank(value.s)
    ensures StringValueOr(value, fallback) == fallback
  {
  }

  // ---------- an update ----------

  // The objects a payload carries for each section; a missing field is Other.
  datatype Payload = Payload(
    actions: Option<(Value, Value)>,
    logs: Option<(Value, Value, Value)>,
    metrics: Option<Value>,
    security: Option<(Value, Value, Value)>
  )

  predicate Carries(p: Payload, section: Section) {
    match section
    case Actions => p.actions.Some?
    case Logs => p.logs.Some?
    case Metrics => p.metrics.Some?
    case Security => p.security.Some?
  }

  // The row an update writes for a section it carries.
  function RowFor(cfg: Config, p: Payload, section: Section): (row: Row)
    requires Carries(p, section)
    ensures RowFits(section, row)
  {
    match section
    case Actions =>
      var (exec, automation) := p.actions.value;
      ActionsRow(BoolValue(exec, cfg.execEnabled), BoolValue(automation, cfg.automationEnabled))
    case Logs =>
      var (hours, perPod, total) := p.logs.value;
      LogsRow(PositiveIntValue(hours, ToHours(cfg.logRetention)),
              PositiveIntValue(perPod, cfg.perPodLimitMb), PositiveIntValue(total, cfg.totalLimitMb))
    case Metrics =>
      MetricsRow(PositiveIntValue(p.metrics.value, ToHours(cfg.metricsRetention)))
    case Security =>
      var (scans, schedule, scanner) := p.security.value;
      SecurityRow(BoolValue(scans, cfg.scansEnabled),
                  StringValueOr(schedule, cfg.schedule), StringValueOr(scanner, cfg.scanner))
  }

  // The live configuration takes the row over as it stands.
  function Live(cfg: Config, row: Row): Config {
    match row
    case ActionsRow(exec, automation) => cfg.(execEnabled := exec, automationEnabled := automation)
    case LogsRow(hours, perPod, total) =>
      cfg.(logRetention := FromHours(hours), perPodLimitMb := perPod, totalLimitMb := total)
    case MetricsRow(hours) => cfg.(metricsRetention := FromHours(hours))
    case SecurityRow(scans, schedule, scanner) =>
      cfg.(scansEnabled := scans, schedule := schedule, scanner := scanner)
  }

  // The replay at start-up skips what is not positive or is blank.
  function Replayed(cfg: Config, row: Row): Config {
    match row
    case ActionsRow(exec, automation) => cfg.(execEnabled := exec, automationEnabled := automation)
    case LogsRow(hours, perPod, total) =>
      cfg.(logRetention := if hours > 0 then FromHours(hours) else cfg.logRetention,
           perPodLimitMb := if perPod > 0 then perPod else cfg.perPodLimitMb,
           totalLimitMb := if total > 0 then total else cfg.totalLimitMb)
    case MetricsRow(hours) =>
      cfg.(metricsRetention := if hours > 0 then FromHours(hours) else cfg.metricsRetention)
    case SecurityRow(scans, schedule, scanner) =>
      cfg.(scansEnabled := scans,
           schedule := if !Blank(schedule) then schedule else cfg.schedule,
           scanner := if !Blank(scanner) then scanner else cfg.scanner)
  }

  datatype State = State(cfg: Config, rows: Rows)

  // One update, and the sections whose upsert fails during it.
  datatype Update = Update(payload: Payload, failing: set<Section>)

  function UpdateSection(s: State, u: Update, section: Section): State {
    if !Carries(u.payload, section) then s
    else
      var row := RowFor(s.cfg, u.payload, section);
      State(Live(s.cfg, row), s.rows[section := row])
  }

  predicate Fails(u: Update, section: Section) {
    Carries(u.payload, section) && section in u.failing
  }

  // The sections in the order of the code; the first failing upsert ends the update.
  const ORDER := [Actions, Logs, Metrics, Security]

  function UpdateFrom(s: State, u: Update, sections: seq<Section>): State
    decreases |sections|
  {
    if sections == [] || Fails(u, sections[0]) then s
    else UpdateFrom(UpdateSection(s, u, sections[0]), u, sections[1..])
  }

  function Updated(s: State, u: Update): State {
    UpdateFrom(s, u, ORDER)
  }

  function After(s: State, updates: seq<Update>): State
    decreases |updates|
  {
    if updates == [] then s else After(Updated(s, updates[0]), updates[1..])
  }

  lemma AllInOrder()
    ensures forall s: Section :: s in ORDER
  {
    forall s: Section
      ensures s in ORDER
    {
      match s {
        case Actions => assert ORDER[0] == s;
        case Logs => assert ORDER[1] == s;
        case Metrics => assert ORDER[2] == s;
        case Security => assert ORDER[3] == s;
      }
    }
  }

  ghost predicate Covers(order: seq<Section>, rows: Rows) {
    && (forall i, j | 0 <= i < j < |order| :: order[i] != order[j])
    && (forall s :: s in order <==> s in rows)
  }

  function Replay(cfg: Config, order: seq<Section>, rows: Rows): Config
    requires forall s | s in order :: s in rows
  {
    if order == [] then cfg
    else Replayed(Replay(cfg, order[..|order| - 1], rows), rows[order[|order| - 1]])
  }

  // A supplied number of at least one, truncated, or the text of one.
  predicate Supplies(value: Value, n: int) {
    n > 0 && match value
             case Number(r) => r.Floor == n && IsInt64(n)
             case Text(s) => Atoi(Trim(s)) == Some(n)
             case _ => false
  }

  // The field afterwards: the supplied number, or as it was.
  ghost predicate NumberAfter(after: int, value: Value, before: int) {
    (forall n | Supplies(value, n) :: after == n) && ((forall n :: !Supplies(value, n)) ==> after == before)
  }

  predicate FlagAfter(after: bool, value: Value, before: bool) {
    after == if value.Flag? then value.b else before
  }

  // A text counts if something is left of it without surrounding space.
  predicate TextAfter(after: string, value: Value, before: string) {
    after == if value.Text? && Trim(value.s) != "" then Trim(value.s) else before
  }

  // A duration is so many whole hours: exactly if that fits 64 bits, and
  // otherwise with a multiple of 2 to the 64th taken off.
  predicate LastsHours(duration: int, hours: int) {
    && -0x8000_0000_0000_0000 <= duration <= 0x7fff_ffff_ffff_ffff
    && (duration - hours * 3_600_000_000_000) % 0x1_0000_0000_0000_0000 == 0
  }

  // Whole hours of a duration, towards zero.
  predicate HoursOf(hours: int, duration: int) {
    if duration >= 0 then 0 <= duration - hours * 3_600_000_000_000 < 3_600_000_000_000
    else 0 <= hours * 3_600_000_000_000 - duration < 3_600_000_000_000
  }

  // The section is stored and running after an update, field by field: what is
  // stored is what the payload supplies or what was running, and that runs.
  ghost predicate SectionAfter(s: State, t: State, p: Payload, section: Section) {
    && section in t.rows
    && match section
       case Actions =>
         && p.actions.Some?
         && FlagAfter(t.cfg.execEnabled, p.actions.value.0, s.cfg.execEnabled)
         && FlagAfter(t.cfg.automationEnabled, p.actions.value.1, s.cfg.automationEnabled)
         && t.rows[section] == ActionsRow(t.cfg.execEnabled, t.cfg.automationEnabled)
       case Logs =>
         && p.logs.Some? && t.rows[section].LogsRow?
         && (forall hours | HoursOf(hours, s.cfg.logRetention) ::
               NumberAfter(t.rows[section].retentionHours, p.logs.value.0, hours))
         && LastsHours(t.cfg.logRetention, t.rows[section].retentionHours)
         && NumberAfter(t.cfg.perPodLimitMb, p.logs.value.1, s.cfg.perPodLimitMb)
         && NumberAfter(t.cfg.totalLimitMb, p.logs.value.2, s.cfg.totalLimitMb)
         && t.rows[section].perPodLimitMb == t.cfg.perPodLimitMb && t.rows[section].totalLimitMb == t.cfg.totalLimitMb
       case Metrics =>
         && p.metrics.Some? && t.rows[section].MetricsRow?
         && (forall hours | HoursOf(hours, s.cfg.metricsRetention) ::
               NumberAfter(t.rows[section].retentionHours, p.metrics.value, hours))
         && LastsHours(t.cfg.metricsRetention, t.rows[section].retentionHours)
       case Security =>
         && p.security.Some?
         && FlagAfter(t.cfg.scansEnabled, p.security.value.0, s.cfg.scansEnabled)
         && TextAfter(t.cfg.schedule, p.security.value.1, s.cfg.schedule)
         && TextAfter(t.cfg.scanner, p.security.value.2, s.cfg.scanner)
         && t.rows[section] == SecurityRow(t.cfg.scansEnabled, t.cfg.schedule, t.cfg.scanner)
  }

  // The section is as it was, stored and running.
  predicate SectionKeeps(s: State, t: State, section: Section) {
    && (section in t.rows <==> section in s.rows) && (section in s.rows ==> t.rows[section] == s.rows[section])
    && match section
       case Actions => t.cfg.execEnabled == s.cfg.execEnabled && t.cfg.automationEnabled == s.cfg.automationEnabled
       case Logs =>
         && t.cfg.logRetention == s.cfg.logRetention
         && t.cfg.perPodLimitMb == s.cfg.perPodLimitMb && t.cfg.totalLimitMb == s.cfg.totalLimitMb
       case Metrics => t.cfg.metricsRetention == s.cfg.metricsRetention
       case Security =>
         t.cfg.scansEnabled == s.cfg.scansEnabled && t.cfg.schedule == s.cfg.schedule && t.cfg.scanner == s.cfg.scanner
  }

  // Every upsert up to and including the section's goes through.
  predicate GetsTo(u: Update, section: Section) {
    && (u.payload.actions.Some? ==> Actions !in u.failing)
    && (section == Actions || (u.payload.logs.Some? ==> Logs !in u.failing))
    && (section in {Actions, Logs} || (u.payload.metrics.Some? ==> Metrics !in u.failing))
    && (section != Security || (u.payload.security.Some? ==> Security !in u.failing))
  }

  // What an update of the whole configuration comes to.
  ghost predicate AppliedBy(s: State, t: State, u: Update) {
    forall section: Section ::
      if Carries(u.payload, section) && GetsTo(u, section) then SectionAfter(s, t, u.payload, section)
      else SectionKeeps(s, t, section)
  }

  // cfg with the fields of one section taken from another configuration.
  function TakeSection(cfg: Config, from: Config, section: Section): Config {
    match section
    case Actions => cfg.(execEnabled := from.execEnabled, automationEnabled := from.automationEnabled)
    case Logs => cfg.(logRetention := from.logRetention, perPodLimitMb := from.perPodLimitMb, totalLimitMb := from.totalLimitMb)
    case Metrics => cfg.(metricsRetention := from.metricsRetention)
    case Security => cfg.(scansEnabled := from.scansEnabled, schedule := from.schedule, scanner := from.scanner)
  }

  // The sections of an update that come through: those before the first failing one.
  predicate Reaches(u: Update, sections: seq<Section>, section: Section) {
    sections != [] && !Fails(u, sections[0]) && (sections[0] == section || Reaches(u, sections[1..], section))
  }

  lemma LiveIsLocal(cfg: Config, row: Row, section: Section)
    requires RowFits(section, row)
    ensures Live(cfg, row) == TakeSection(cfg, Live(cfg, row), section)
  {
  }

  lemma {:induction false} NotReachedAgain(u: Update, sections: seq<Section>, section: Section)
    requires section !in sections
    ensures !Reaches(u, sections, section)
  {
    if sections != [] {
      NotReachedAgain(u, sections[1..], section);
    }
  }

  lemma LocalStep(cfg: Config, next: Config, p: Payload, section: Section, other: Section)
    requires section != other && next == TakeSection(cfg, next, other)
    ensures TakeSection(next, cfg, section) == next
    ensures Carries(p, section) ==> RowFor(next, p, section) == RowFor(cfg, p, section)
    ensures Carries(p, section) ==>
              forall c :: TakeSection(c, Live(next, RowFor(cfg, p, section)), section)
                          == TakeSection(c, Live(cfg, RowFor(cfg, p, section)), section)
  {
  }

  // Per section an update is all or nothing: a section it reaches and carries
  // is stored and taken over as if it were alone, any other one is untouched.
  lemma {:induction false} SectionAllOrNothing(s: State, u: Update, sections: seq<Section>, section: Section)
    requires forall i, j | 0 <= i < j < |sections| :: sections[i] != sections[j]
    ensures
      var t := UpdateFrom(s, u, sections);
      if Reaches(u, sections, section) && Carries(u.payload, section) then
        var row := RowFor(s.cfg, u.payload, section);
        section in t.rows && t.rows[section] == row && TakeSection(t.cfg, Live(s.cfg, row), section) == t.cfg
      else
        && (section in t.rows <==> section in s.rows)
        && (section in s.rows ==> t.rows[section] == s.rows[section])
        && TakeSection(t.cfg, s.cfg, section) == t.cfg
    decreases |sections|
  {
    hide RowFor, Live;
    if sections != [] && !Fails(u, sections[0]) {
      var first := sections[0];
      var s1 := UpdateSection(s, u, first);
      SectionAllOrNothing(s1, u, sections[1..], section);
      if Carries(u.payload, first) {
        var row := RowFor(s.cfg, u.payload, first);
        LiveIsLocal(s.cfg, row, first);
        if first == section {
          NotReachedAgain(u, sections[1..], section);
        } else {
          LocalStep(s.cfg, Live(s.cfg, row), u.payload, section, first);
        }
      } else if first == section {
        NotReachedAgain(u, sections[1..], section);
      }
    }
  }

  lemma ReachesIs(u: Update, section: Section)
    ensures Reaches(u, ORDER, section) <==> GetsTo(u, section)
  {
    assert ORDER[1..] == [Logs, Metrics, Security] && ORDER[1..][1..] == [Metrics, Security];
    assert ORDER[1..][1..][1..] == [Security] && ORDER[1..][1..][1..][1..] == [];
    assert Reaches(u, [Security], section) <==> !Fails(u, Security) && section == Security;
    assert Reaches(u, [Metrics, Security], section) <==>
           !Fails(u, Metrics) && (section == Metrics || Reaches(u, [Security], section));
    assert Reaches(u, [Logs, Metrics, Security], section) <==>
           !Fails(u, Logs) && (section == Logs || Reaches(u, [Metrics, Security], section));
  }

  lemma NumberIs(value: Value, fallback: int)
    ensures NumberAfter(PositiveIntValue(value, fallback), value, fallback)
  {
    hide Atoi, Trim;
    var n := PositiveIntValue(value, fallback);
    assert Supplies(value, n) || (n == fallback && forall m :: !Supplies(value, m));
  }

  lemma Multiple(q: int)
    ensures q * 0x1_0000_0000_0000_0000 % 0x1_0000_0000_0000_0000 == 0
  {
  }

  lemma HoursLast(hours: int)
    ensures LastsHours(FromHours(hours), hours)
  {
    var n := hours * HOUR;
    var m := n + 0x8000_0000_0000_0000;
    assert m % 0x1_0000_0000_0000_0000 == m - m / 0x1_0000_0000_0000_0000 * 0x1_0000_0000_0000_0000;
    assert Wrap(n) - n == -(m / 0x1_0000_0000_0000_0000) * 0x1_0000_0000_0000_0000;
    Multiple(-(m / 0x1_0000_0000_0000_0000));
  }

  lemma ToHoursIs(duration: int)
    ensures HoursOf(ToHours(duration), duration)
  {
  }

  lemma RetentionIs(retention: int, value: Value)
    ensures
      var written := PositiveIntValue(value, ToHours(retention));
      LastsHours(FromHours(written), written)
      && forall hours | HoursOf(hours, retention) :: NumberAfter(written, value, hours)
  {
    ToHoursIs(retention);
    NumberIs(value, ToHours(retention));
    HoursLast(PositiveIntValue(value, ToHours(retention)));
    forall hours | HoursOf(hours, retention)
      ensures hours == ToHours(retention)
    {
    }
    hide NumberAfter, LastsHours, HoursOf, FromHours, ToHours, PositiveIntValue;
  }

  lemma WrittenIs(s: State, t: State, p: Payload, section: Section)
    requires Carries(p, section) && section in t.rows && t.rows[section] == RowFor(s.cfg, p, section)
    requires TakeSection(t.cfg, Live(s.cfg, RowFor(s.cfg, p, section)), section) == t.cfg
    ensures SectionAfter(s, t, p, section)
  {
    match section {
      case Actions =>
      case Logs =>
        var (hours, perPod, total) := p.logs.value;
        NumberIs(perPod, s.cfg.perPodLimitMb);
        NumberIs(total, s.cfg.totalLimitMb);
        RetentionIs(s.cfg.logRetention, hours);
        hide NumberAfter, LastsHours, HoursOf, FromHours, ToHours, PositiveIntValue;
      case Metrics =>
        RetentionIs(s.cfg.metricsRetention, p.metrics.value);
        hide NumberAfter, LastsHours, HoursOf, FromHours, ToHours, PositiveIntValue;
      case Security =>
        hide Trim;
    }
  }

  // An update, section by section: what it carries and gets to is written and
  // runs, everything else is as it was.
  lemma UpdateIs(s: State, u: Update, section: Section)
    ensures
      var t := Updated(s, u);
      if Carries(u.payload, section) && GetsTo(u, section) then SectionAfter(s, t, u.payload, section)
      else SectionKeeps(s, t, section)
  {
    ReachesIs(u, section);
    SectionAllOrNothing(s, u, ORDER, section);
    if Carries(u.payload, section) && GetsTo(u, section) {
      WrittenIs(s, Updated(s, u), u.payload, section);
    }
    hide SectionAfter, RowFor, Live, Reaches, GetsTo, UpdateFrom;
  }

  lemma UpdateApplies(s: State, u: Update)
    ensures AppliedBy(s, Updated(s, u), u)
  {
    hide Carries, GetsTo, SectionAfter, SectionKeeps, Updated;
    forall section: Section
      ensures if Carries(u.payload, section) && GetsTo(u, section) then SectionAfter(s, Updated(s, u), u.payload, section)
              else SectionKeeps(s, Updated(s, u), section)
    {
      UpdateIs(s, u, section);
    }
  }

  class SettingsApp {
    var cfg: Config
    var rows: Rows

    constructor (cfg: Config, rows: Rows)
      ensures this.cfg == cfg && this.rows == rows
    {
      this.cfg, this.rows := cfg, rows;
    }

    method ApplySettingsPayload(u: Update) returns (ok: bool, updated: seq<Section>)
      modifies this
      ensures State(cfg, rows) == Updated(State(old(cfg), old(rows)), u)
      ensures AppliedBy(State(old(cfg), old(rows)), State(cfg, rows), u)
      ensures ok <==> forall s | s in ORDER :: !Fails(u, s)
      ensures ok ==> forall s :: s in updated <==> Carries(u.payload, s)
    {
      ghost var goal := Updated(State(cfg, rows), u);
      UpdateApplies(State(cfg, rows), u);
      hide RowFor, Live, AppliedBy;
      updated := [];
      var i := 0;
      while i < |ORDER|
        invariant 0 <= i <= |ORDER|
        invariant goal == UpdateFrom(State(cfg, rows), u, ORDER[i..])
        invariant forall j | 0 <= j < i :: !Fails(u, ORDER[j])
        invariant forall s :: s in updated <==> s in ORDER[..i] && Carries(u.payload, s)
      {
        var section := ORDER[i];
        if Carries(u.payload, section) {
          var row := RowFor(cfg, u.payload, section);
          if section in u.failing {
            assert section in ORDER && Fails(u, section);
            return false, [];
          }
          rows := rows[section := row];
          cfg := Live(cfg, row);
          updated := updated + [section];
        }
        assert ORDER[i..][1..] == ORDER[i + 1..];
        i := i + 1;
      }
      AllInOrder();
      assert ORDER[i..] == [] && ORDER[..i] == ORDER;
      forall s | s in ORDER
        ensures !Fails(u, s)
      {
        var j :| 0 <= j < |ORDER| && ORDER[j] == s;
      }
      return true, updated;
    }

    // applyPersistedSettingsToConfig: ranges over the rows in map order.
    method ApplyPersisted() returns (ghost order: seq<Section>)
      modifies this`cfg
      ensures Covers(order, rows) && cfg == Replay(old(cfg), order, rows)
    {
      order := [];
      var remaining := rows.Keys;
      while remaining != {}
        invariant remaining <= rows.Keys
        invariant forall i, j | 0 <= i < j < |order| :: order[i] != order[j]
        invariant forall s :: s in order <==> s in rows && s !in remaining
        invariant cfg == Replay(old(cfg), order, rows)
        decreases |remaining|
      {
        var section :| section in remaining;
        remaining := remaining - {section};
        ghost var before := order;
        order := order + [section];
        assert order[..|order| - 1] == before;
        cfg := Replayed(cfg, rows[section]);
      }
    }
  }

  // ---------- replay in any order ----------

  // The reference: every section as its row alone gives it over the defaults.
  function SectionOf(d: Config, rows: Rows, section: Section): Config {
    if section in rows then Replayed(d, rows[section]) else d
  }

  function Restart(d: Config, rows: Rows): Config {
    var a := SectionOf(d, rows, Actions);
    var l := SectionOf(d, rows, Logs);
    var m := SectionOf(d, rows, Metrics);
    var s := SectionOf(d, rows, Security);
    Config(a.execEnabled, a.automationEnabled,
           l.logRetention, l.perPodLimitMb, l.totalLimitMb,
           m.metricsRetention,
           s.scansEnabled, s.schedule, s.scanner)
  }

  function Only(order: seq<Section>, rows: Rows): Rows {
    map s | s in order && s in rows :: rows[s]
  }

  // Restarting over a changed row changes that section only, and gives what
  // the row alone gives over the defaults.
  lemma RestartAfterWrite(d: Config, rows: Rows, section: Section, row: Row)
    requires RowsFit(rows) && RowFits(section, row)
    ensures Restart(d, rows[section := row]) == TakeSection(Restart(d, rows), Replayed(d, row), section)
  {
    hide FromHours, Blank;
    match section {
      case Actions =>
      case Logs =>
      case Metrics =>
      case Security =>
    }
  }

  lemma ReplayTouchesSection(cfg: Config, other: Config, section: Section, row: Row)
    requires RowFits(section, row) && TakeSection(other, cfg, section) == other
    ensures Replayed(other, row) == TakeSection(other, Replayed(cfg, row), section)
  {
  }

  lemma ReplayOneMore(cfg: Config, rows: Rows, section: Section, row: Row)
    requires RowsFit(rows) && RowFits(section, row) && section !in rows
    ensures Restart(cfg, rows[section := row]) == Replayed(Restart(cfg, rows), row)
  {
    RestartAfterWrite(cfg, rows, section, row);
    ReplayTouchesSection(cfg, Restart(cfg, rows), section, row);
  }

  lemma {:induction false} ReplayAnyOrder(cfg: Config, order: seq<Section>, rows: Rows)
    requires RowsFit(rows)
    requires forall i, j | 0 <= i < j < |order| :: order[i] != order[j]
    requires forall s | s in order :: s in rows
    ensures Replay(cfg, order, rows) == Restart(cfg, Only(order, rows))
  {
    hide Replayed;
    if order == [] {
      assert Only(order, rows) == map[];
    } else {
      hide Restart;
      var init, last := order[..|order| - 1], order[|order| - 1];
      ReplayAnyOrder(cfg, init, rows);
      assert Only(order, rows) == Only(init, rows)[last := rows[last]];
      ReplayOneMore(cfg, Only(init, rows), last, rows[last]);
    }
  }

  lemma OrderDoesNotMatter(cfg: Config, order: seq<Section>, rows: Rows)
    requires RowsFit(rows) && Covers(order, rows)
    ensures Replay(cfg, order, rows) == Restart(cfg, rows)
  {
    ReplayAnyOrder(cfg, order, rows);
    assert Only(order, rows) == rows;
  }

  // ---------- live versus restart ----------

  // The next update that leaves a retention alone writes it back in hours. It
  // survives that, and a restart, if that is an hour or more, or the default.
  predicate WritesBack(retention: int, default: int) {
    retention >= HOUR || ToHours(retention) * HOUR == default
  }

  predicate HoursKept(hours: int, default: int) {
    hours > 0 ==> WritesBack(FromHours(hours), default)
  }

  predicate SectionKept(d: Config, p: Payload, section: Section) {
    match section
    case Logs => p.logs.Some? ==> HoursKept(PositiveIntValue(p.logs.value.0, 0), d.logRetention)
    case Metrics => p.metrics.Some? ==> HoursKept(PositiveIntValue(p.metrics.value, 0), d.metricsRetention)
    case _ => true
  }

  // Whatever hours the update comes to store are kept.
  predicate UpdateKept(d: Config, u: Update, sections: seq<Section>) {
    forall section: Section | Reaches(u, sections, section) :: SectionKept(d, u.payload, section)
  }

  predicate AllKept(d: Config, updates: seq<Update>) {
    forall i | 0 <= i < |updates| :: UpdateKept(d, updates[i], ORDER)
  }

  // Hours within the bound, as a caller may well check them.
  predicate HoursBounded(u: Update) {
    && (u.payload.logs.Some? ==> PositiveIntValue(u.payload.logs.value.0, 0) <= MAX_HOURS)
    && (u.payload.metrics.Some? ==> PositiveIntValue(u.payload.metrics.value, 0) <= MAX_HOURS)
  }

  predicate AllBounded(updates: seq<Update>) {
    forall i | 0 <= i < |updates| :: HoursBounded(updates[i])
  }

  lemma BoundedIsKept(d: Config, updates: seq<Update>)
    requires AllBounded(updates)
    ensures AllKept(d, updates)
  {
    hide FromHours, ToHours;
    forall i, section: Section | 0 <= i < |updates| && Reaches(updates[i], ORDER, section)
      ensures SectionKept(d, updates[i].payload, section)
    {
      var p := updates[i].payload;
      if section.Logs? && p.logs.Some? && PositiveIntValue(p.logs.value.0, 0) > 0 {
        HoursFit(PositiveIntValue(p.logs.value.0, 0));
      } else if section.Metrics? && p.metrics.Some? && PositiveIntValue(p.metrics.value, 0) > 0 {
        HoursFit(PositiveIntValue(p.metrics.value, 0));
      }
    }
  }

  predicate GoodDefaults(d: Config) {
    && IsInt64(d.logRetention) && IsInt64(d.metricsRetention)
    && WritesBack(d.logRetention, d.logRetention) && WritesBack(d.metricsRetention, d.metricsRetention)
  }

  predicate RetentionOk(live: int, default: int) {
    IsInt64(live) && WritesBack(live, default)
  }

  predicate Inv(d: Config, s: State) {
    && RowsFit(s.rows)
    && s.cfg == Restart(d, s.rows)
    && RetentionOk(s.cfg.logRetention, d.logRetention)
    && RetentionOk(s.cfg.metricsRetention, d.metricsRetention)
    && (s.cfg.perPodLimitMb > 0 || s.cfg.perPodLimitMb == d.perPodLimitMb)
    && (s.cfg.totalLimitMb > 0 || s.cfg.totalLimitMb == d.totalLimitMb)
    && (!Blank(s.cfg.schedule) || s.cfg.schedule == d.schedule)
    && (!Blank(s.cfg.scanner) || s.cfg.scanner == d.scanner)
  }

  // What the written hours do to the live retention and to the replayed one.
  lemma RetentionStep(d: int, live: int, value: Value)
    requires RetentionOk(live, d) && HoursKept(PositiveIntValue(value, 0), d)
    ensures
      var hours := PositiveIntValue(value, ToHours(live));
      && RetentionOk(FromHours(hours), d)
      && (if hours > 0 then FromHours(hours) else d) == FromHours(hours)
  {
    var hours := PositiveIntValue(value, ToHours(live));
    if PositiveIntValue(value, 0) > 0 {
      assert hours == PositiveIntValue(value, 0);
    } else {
      assert hours == ToHours(live);
      WholeHours(live);
    }
  }

  // What the live configuration became, field by field of the section.
  lemma WrittenRowReplays(d: Config, s: State, u: Update, section: Section)
    requires Inv(d, s) && SectionKept(d, u.payload, section) && Carries(u.payload, section)
    ensures
      var row := RowFor(s.cfg, u.payload, section);
      Live(s.cfg, row) == TakeSection(s.cfg, Replayed(d, row), section)
  {
    hide FromHours, ToHours, RetentionOk, HoursKept, PositiveIntValue, StringValueOr, Blank, Restart;
    match section {
      case Actions =>
      case Logs =>
        RetentionStep(d.logRetention, s.cfg.logRetention, u.payload.logs.value.0);
      case Metrics =>
        RetentionStep(d.metricsRetention, s.cfg.metricsRetention, u.payload.metrics.value);
      case Security =>
    }
  }

  lemma SectionStep(d: Config, s: State, u: Update, section: Section)
    requires Inv(d, s) && SectionKept(d, u.payload, section)
    ensures Inv(d, UpdateSection(s, u, section))
  {
    if Carries(u.payload, section) {
      hide FromHours, ToHours;
      var row := RowFor(s.cfg, u.payload, section);
      if section.Logs? {
        RetentionStep(d.logRetention, s.cfg.logRetention, u.payload.logs.value.0);
      } else if section.Metrics? {
        RetentionStep(d.metricsRetention, s.cfg.metricsRetention, u.payload.metrics.value);
      }
      WrittenRowReplays(d, s, u, section);
      RestartAfterWrite(d, s.rows, section, row);
    }
  }

  lemma {:induction false} UpdateStep(d: Config, s: State, u: Update, sections: seq<Section>)
    requires Inv(d, s) && UpdateKept(d, u, sections)
    ensures Inv(d, UpdateFrom(s, u, sections))
    decreases |sections|
  {
    hide Inv, SectionKept, UpdateSection, Fails;
    if sections != [] && !Fails(u, sections[0]) {
      assert Reaches(u, sections, sections[0]);
      SectionStep(d, s, u, sections[0]);
      UpdateStep(d, UpdateSection(s, u, sections[0]), u, sections[1..]);
    }
  }

  lemma {:induction false} UpdatesKeepInv(d: Config, s: State, updates: seq<Update>)
    requires Inv(d, s) && AllKept(d, updates)
    ensures Inv(d, After(s, updates))
    decreases |updates|
  {
    hide Inv, UpdateKept, UpdateFrom;
    if updates != [] {
      UpdateStep(d, s, updates[0], ORDER);
      forall i | 0 <= i < |updates[1..]|
        ensures UpdateKept(d, updates[1..][i], ORDER)
      {
        assert updates[1..][i] == updates[i + 1];
      }
      UpdatesKeepInv(d, Updated(s, updates[0]), updates[1..]);
    }
  }

  // ---------- an update that fails halfway ----------

  // ---------- what an update comes to, field by field ----------

  lemma RoundsOff(before: int)
    ensures ToHours(before) * HOUR == before <==> before % 3_600_000_000_000 == 0
  {
  }

  lemma SameDuration(a: int, b: int)
    requires IsInt64(a) && IsInt64(b) && (a - b) % 0x1_0000_0000_0000_0000 == 0
    ensures a == b
  {
  }

  lemma HoursStay(after: int, before: int)
    requires IsInt64(before)
    ensures LastsHours(after, ToHours(before)) ==> (after == before <==> before % 3_600_000_000_000 == 0)
  {
    WholeHours(before);
    RoundsOff(before);
    hide ToHours, FromHours;
    if LastsHours(after, ToHours(before)) {
      SameDuration(after, ToHours(before) * HOUR);
    }
  }

  // A stored number counts if it is positive.
  predicate NumberOf(after: int, stored: int, default: int) {
    after == if stored > 0 then stored else default
  }

  predicate TextOf(after: string, stored: string, default: string) {
    after == if Trim(stored) != "" then stored else default
  }

  predicate RetentionOf(after: int, hours: int, default: int) {
    if hours > 0 then LastsHours(after, hours) else after == default
  }

  predicate SectionRestarts(r: Config, d: Config, rows: Rows, section: Section)
    requires section in rows ==> RowFits(section, rows[section])
  {
    match section
    case Actions =>
      if section in rows then
        r.execEnabled == rows[section].execEnabled && r.automationEnabled == rows[section].automationEnabled
      else r.execEnabled == d.execEnabled && r.automationEnabled == d.automationEnabled
    case Logs =>
      if section in rows then
        && RetentionOf(r.logRetention, rows[section].retentionHours, d.logRetention)
        && NumberOf(r.perPodLimitMb, rows[section].perPodLimitMb, d.perPodLimitMb)
        && NumberOf(r.totalLimitMb, rows[section].totalLimitMb, d.totalLimitMb)
      else r.logRetention == d.logRetention && r.perPodLimitMb == d.perPodLimitMb && r.totalLimitMb == d.totalLimitMb
    case Metrics =>
      if section in rows then RetentionOf(r.metricsRetention, rows[section].retentionHours, d.metricsRetention)
      else r.metricsRetention == d.metricsRetention
    case Security =>
      if section in rows then
        && r.scansEnabled == rows[section].scansEnabled
        && TextOf(r.schedule, rows[section].schedule, d.schedule)
        && TextOf(r.scanner, rows[section].scanner, d.scanner)
      else r.scansEnabled == d.scansEnabled && r.schedule == d.schedule && r.scanner == d.scanner
  }

  // A restart, field by field: what is stored, wherever it is usable, and the
  // defaults everywhere else.
  lemma RestartIs(d: Config, order: seq<Section>, rows: Rows, section: Section)
    requires RowsFit(rows) && Covers(order, rows)
    ensures SectionRestarts(Replay(d, order, rows), d, rows, section)
  {
    OrderDoesNotMatter(d, order, rows);
    if section in rows && (section.Logs? || section.Metrics?) {
      HoursLast(rows[section].retentionHours);
    }
    hide FromHours, LastsHours, Replay, Trim, Covers;
    match section {
      case Actions =>
      case Logs =>
      case Metrics =>
      case Security =>
    }
  }

  // A retention without a supplied number stays exactly if it is whole hours.
  lemma WholeHoursStay(s: State, u: Update)
    requires IsInt64(s.cfg.logRetention) && IsInt64(s.cfg.metricsRetention)
    ensures Carries(u.payload, Logs) && GetsTo(u, Logs) && (forall n :: !Supplies(u.payload.logs.value.0, n)) ==>
              (Updated(s, u).cfg.logRetention == s.cfg.logRetention <==> s.cfg.logRetention % 3_600_000_000_000 == 0)
    ensures Carries(u.payload, Metrics) && GetsTo(u, Metrics) && (forall n :: !Supplies(u.payload.metrics.value, n)) ==>
              (Updated(s, u).cfg.metricsRetention == s.cfg.metricsRetention <==>
               s.cfg.metricsRetention % 3_600_000_000_000 == 0)
  {
    UpdateIs(s, u, Logs);
    UpdateIs(s, u, Metrics);
    ToHoursIs(s.cfg.logRetention);
    ToHoursIs(s.cfg.metricsRetention);
    HoursStay(Updated(s, u).cfg.logRetention, s.cfg.logRetention);
    HoursStay(Updated(s, u).cfg.metricsRetention, s.cfg.metricsRetention);
    hide Updated, ToHours, HoursOf, LastsHours, Supplies, GetsTo;
  }

  // What a supplied number of hours comes to.
  lemma SuppliedHoursTakeEffect(cfg: Config, p: Payload, hours: int)
    requires 0 < hours <= MAX_INT64
    ensures p.metrics == Some(Number(hours as real)) ==>
              Live(cfg, RowFor(cfg, p, Metrics)).metricsRetention == FromHours(hours)
    ensures p.logs.Some? && p.logs.value.0 == Number(hours as real) ==>
              Live(cfg, RowFor(cfg, p, Logs)).logRetention == FromHours(hours)
    ensures hours <= MAX_HOURS ==> FromHours(hours) == hours * HOUR
  {
    HoursFit(hours);
    hide FromHours;
  }

  lemma FreshInv(d: Config)
    requires GoodDefaults(d)
    ensures Inv(d, State(d, map[]))
  {
  }

  // After any run of updates whose hours are kept, with upserts failing
  // wherever they may, the running configuration is what a restart rebuilds
  // from the rows, whatever order it reads them in.
  lemma LiveIsRestart(d: Config, updates: seq<Update>, order: seq<Section>)
    requires GoodDefaults(d) && AllKept(d, updates)
    requires var s := After(State(d, map[]), updates); Covers(order, s.rows)
    ensures var s := After(State(d, map[]), updates); s.cfg == Replay(d, order, s.rows)
  {
    hide Restart, AllKept;
    FreshInv(d);
    UpdatesKeepInv(d, State(d, map[]), updates);
    OrderDoesNotMatter(d, order, After(State(d, map[]), updates).rows);
  }

  // ---------- the conditions are exact ----------

  predicate Agrees(d: Config, s: State) {
    s.cfg == Restart(d, s.rows)
  }

  // A payload that touches logs and metrics but brings no usable value.
  function EmptyUpdate(): Update {
    Update(Payload(None, Some((Other, Other, Other)), Some(Other), None), {})
  }

  lemma EmptyUpdateIsKept(d: Config)
    ensures AllKept(d, [EmptyUpdate()])
  {
    hide WritesBack;
  }

  lemma EmptyUpdateEffect(d: Config, s: State)
    ensures
      var t := Updated(s, EmptyUpdate());
      var logHours, metricsHours := ToHours(s.cfg.logRetention), ToHours(s.cfg.metricsRetention);
      && t.cfg.logRetention == FromHours(logHours) && t.cfg.metricsRetention == FromHours(metricsHours)
      && Restart(d, t.rows).logRetention == (if logHours > 0 then FromHours(logHours) else d.logRetention)
      && Restart(d, t.rows).metricsRetention == (if metricsHours > 0 then FromHours(metricsHours) else d.metricsRetention)
  {
    hide FromHours, ToHours, Blank;
    var u := EmptyUpdate();
    assert ORDER[1..] == [Logs, Metrics, Security] && ORDER[1..][1..] == [Metrics, Security];
    assert ORDER[1..][1..][1..] == [Security] && ORDER[1..][1..][1..][1..] == [];
    var s1 := UpdateSection(s, u, Logs);
    var s2 := UpdateSection(s1, u, Metrics);
    assert UpdateFrom(s, u, ORDER) == UpdateFrom(s, u, [Logs, Metrics, Security]);
    assert UpdateFrom(s, u, [Logs, Metrics, Security]) == UpdateFrom(s1, u, [Metrics, Security]);
    assert UpdateFrom(s1, u, [Metrics, Security]) == UpdateFrom(s2, u, [Security]);
    assert UpdateFrom(s2, u, [Security]) == s2;
  }

  lemma AfterCons(s: State, u: Update, rest: seq<Update>)
    ensures After(s, [u] + rest) == After(Updated(s, u), rest)
  {
    hide Updated;
    assert ([u] + rest)[1..] == rest;
  }

  // An update that leaves the retentions alone keeps both configurations
  // together exactly if both retentions write back.
  lemma EmptyUpdateAgrees(d: Config, s: State)
    requires IsInt64(s.cfg.logRetention) && IsInt64(s.cfg.metricsRetention)
    ensures Agrees(d, Updated(s, EmptyUpdate())) ==>
              WritesBack(s.cfg.logRetention, d.logRetention) && WritesBack(s.cfg.metricsRetention, d.metricsRetention)
  {
    EmptyUpdateEffect(d, s);
    hide Restart, Updated;
    WholeHours(s.cfg.logRetention);
    WholeHours(s.cfg.metricsRetention);
  }

  // A default retention that does not write back is lost on the first update
  // that leaves it alone; any other never is.
  lemma DefaultsConditionIsExact(d: Config)
    requires IsInt64(d.logRetention) && IsInt64(d.metricsRetention)
    ensures GoodDefaults(d) <==> forall updates | AllKept(d, updates) :: Agrees(d, After(State(d, map[]), updates))
  {
    hide Restart, AllKept, WritesBack, Updated;
    if GoodDefaults(d) {
      FreshInv(d);
      forall updates | AllKept(d, updates)
        ensures Agrees(d, After(State(d, map[]), updates))
      {
        UpdatesKeepInv(d, State(d, map[]), updates);
      }
    } else {
      EmptyUpdateIsKept(d);
      EmptyUpdateAgrees(d, State(d, map[]));
      AfterCons(State(d, map[]), EmptyUpdate(), []);
      assert [EmptyUpdate()] + [] == [EmptyUpdate()];
      assert !Agrees(d, After(State(d, map[]), [EmptyUpdate()]));
    }
  }

  // What the retentions become in an update that gets to them.
  lemma RetentionsAfter(s: State, u: Update)
    ensures Reaches(u, ORDER, Logs) && u.payload.logs.Some? && PositiveIntValue(u.payload.logs.value.0, 0) > 0 ==>
              Updated(s, u).cfg.logRetention == FromHours(PositiveIntValue(u.payload.logs.value.0, 0))
    ensures Reaches(u, ORDER, Metrics) && u.payload.metrics.Some? && PositiveIntValue(u.payload.metrics.value, 0) > 0 ==>
              Updated(s, u).cfg.metricsRetention == FromHours(PositiveIntValue(u.payload.metrics.value, 0))
    ensures IsInt64(s.cfg.logRetention) && IsInt64(s.cfg.metricsRetention) ==>
              IsInt64(Updated(s, u).cfg.logRetention) && IsInt64(Updated(s, u).cfg.metricsRetention)
  {
    SectionAllOrNothing(s, u, ORDER, Logs);
    SectionAllOrNothing(s, u, ORDER, Metrics);
    hide Reaches, UpdateFrom, ToHours, PositiveIntValue;
  }

  lemma LostHoursPart(d: Config, s: State, u: Update)
    requires Inv(d, s)
    ensures UpdateKept(d, u, ORDER) || !Agrees(d, Updated(Updated(s, u), EmptyUpdate()))
  {
    hide Restart, Agrees, Updated, WritesBack, FromHours;
    RetentionsAfter(s, u);
    EmptyUpdateAgrees(d, Updated(s, u));
  }

  // From any state in which both agree, an update can be followed by any
  // updates whose hours are kept without the two ever parting if and only if
  // its own hours are kept.
  lemma HoursConditionIsExact(d: Config, s: State, u: Update)
    requires Inv(d, s)
    ensures UpdateKept(d, u, ORDER) <==> forall rest | AllKept(d, rest) :: Agrees(d, After(s, [u] + rest))
  {
    hide Restart, UpdateKept, Updated, WritesBack;
    if UpdateKept(d, u, ORDER) {
      forall rest | AllKept(d, rest)
        ensures Agrees(d, After(s, [u] + rest))
      {
        assert AllKept(d, [u] + rest) by {
          assert forall i | 0 < i < |[u] + rest| :: ([u] + rest)[i] == rest[i - 1];
        }
        UpdatesKeepInv(d, s, [u] + rest);
      }
    } else {
      hide AllKept;
      LostHoursPart(d, s, u);
      EmptyUpdateIsKept(d);
      AfterCons(s, u, [EmptyUpdate()]);
      AfterCons(Updated(s, u), EmptyUpdate(), []);
      assert [EmptyUpdate()] + [] == [EmptyUpdate()];
      assert !Agrees(d, After(s, [u] + [EmptyUpdate()]));
    }
  }

  function SetLogHours(hours: int): Update {
    Update(Payload(None, Some((Number(hours as real), Other, Other)), None, None), {})
  }

  function SetMetricsHours(hours: int): Update {
    Update(Payload(None, None, Some(Number(hours as real)), None), {})
  }

  lemma OverAnHour(retention: int, default: int)
    requires default >= HOUR
    ensures WritesBack(retention, default) <==> retention >= HOUR
  {
  }

  lemma ReachesAll(u: Update)
    requires u.failing == {}
    ensures forall section: Section :: Reaches(u, ORDER, section)
  {
    assert ORDER[1..] == [Logs, Metrics, Security] && ORDER[1..][1..] == [Metrics, Security];
    assert ORDER[1..][1..][1..] == [Security];
    forall section: Section
      ensures Reaches(u, ORDER, section)
    {
      assert Reaches(u, [Security], Security);
      assert Reaches(u, [Metrics, Security], section) || section == Actions || section == Logs;
    }
  }

  lemma SetHoursKept(d: Config, hours: int)
    requires 0 < hours <= MAX_INT64 && d.logRetention >= HOUR && d.metricsRetention >= HOUR
    ensures UpdateKept(d, SetLogHours(hours), ORDER) <==> FromHours(hours) >= HOUR
    ensures UpdateKept(d, SetMetricsHours(hours), ORDER) <==> FromHours(hours) >= HOUR
  {
    assert PositiveIntValue(Number(hours as real), 0) == hours;
    OverAnHour(FromHours(hours), d.logRetention);
    OverAnHour(FromHours(hours), d.metricsRetention);
    hide FromHours, Reaches, PositiveIntValue, WritesBack;
    var logs, metrics := SetLogHours(hours), SetMetricsHours(hours);
    ReachesAll(logs);
    ReachesAll(metrics);
    assert SectionKept(d, logs.payload, Logs) <==> FromHours(hours) >= HOUR;
    assert SectionKept(d, metrics.payload, Metrics) <==> FromHours(hours) >= HOUR;
    assert Reaches(logs, ORDER, Logs) && Reaches(metrics, ORDER, Metrics);
  }

  // For a single number of hours: setting it is safe exactly if the wrapped
  // duration is an hour or more, given a default of at least an hour.
  lemma HoursExact(d: Config, s: State, hours: int)
    requires Inv(d, s) && 0 < hours <= MAX_INT64 && d.logRetention >= HOUR && d.metricsRetention >= HOUR
    ensures FromHours(hours) >= HOUR <==> Agrees(d, Updated(Updated(s, SetLogHours(hours)), EmptyUpdate()))
    ensures FromHours(hours) >= HOUR <==> Agrees(d, Updated(Updated(s, SetMetricsHours(hours)), EmptyUpdate()))
  {
    hide Restart, Agrees, Updated, UpdateKept;
    SetHoursKept(d, hours);
    forall u | u in {SetLogHours(hours), SetMetricsHours(hours)}
      ensures UpdateKept(d, u, ORDER) <==> Agrees(d, Updated(Updated(s, u), EmptyUpdate()))
    {
      if UpdateKept(d, u, ORDER) {
        HoursConditionIsExact(d, s, u);
        EmptyUpdateIsKept(d);
        AfterCons(s, u, [EmptyUpdate()]);
        AfterCons(Updated(s, u), EmptyUpdate(), []);
        assert [EmptyUpdate()] + [] == [EmptyUpdate()];
      } else {
        LostHoursPart(d, s, u);
      }
    }
  }

  // ---------- hours within the bound ----------

  // Bounded updates keep retentions at whole hours.
  predicate Whole(c: Config) {
    && IsInt64(c.logRetention) && c.logRetention % HOUR == 0
    && IsInt64(c.metricsRetention) && c.metricsRetention % HOUR == 0
  }

  lemma StaysWhole(live: int, value: Value)
    requires IsInt64(live) && PositiveIntValue(value, 0) <= MAX_HOURS
    ensures FromHours(PositiveIntValue(value, ToHours(live))) % HOUR == 0
  {
    if PositiveIntValue(value, 0) > 0 {
      HoursFit(PositiveIntValue(value, 0));
    } else {
      WholeHours(live);
    }
  }

  lemma WholeStep(s: State, u: Update, section: Section)
    requires Whole(s.cfg) && HoursBounded(u)
    ensures Whole(UpdateSection(s, u, section).cfg)
  {
    if Carries(u.payload, section) && section.Logs? {
      StaysWhole(s.cfg.logRetention, u.payload.logs.value.0);
    } else if Carries(u.payload, section) && section.Metrics? {
      StaysWhole(s.cfg.metricsRetention, u.payload.metrics.value);
    }
    hide FromHours, ToHours, PositiveIntValue;
  }

  lemma {:induction false} WholeUpdate(s: State, u: Update, sections: seq<Section>)
    requires Whole(s.cfg) && HoursBounded(u)
    ensures Whole(UpdateFrom(s, u, sections).cfg)
    decreases |sections|
  {
    hide Whole, HoursBounded, UpdateSection, Fails;
    if sections != [] && !Fails(u, sections[0]) {
      WholeStep(s, u, sections[0]);
      WholeUpdate(UpdateSection(s, u, sections[0]), u, sections[1..]);
    }
  }

  lemma {:induction false} WholeRun(s: State, updates: seq<Update>)
    requires Whole(s.cfg) && AllBounded(updates)
    ensures Whole(After(s, updates).cfg)
    decreases |updates|
  {
    hide Whole, HoursBounded, UpdateFrom;
    if updates != [] {
      WholeUpdate(s, updates[0], ORDER);
      WholeRun(Updated(s, updates[0]), updates[1..]);
    }
  }

  // ---------- the shipped defaults ----------

  const DEFAULTS := Config(false, false, 7 * 24 * HOUR, 100, 5120, 7 * 24 * HOUR, false, "daily", "trivy")

  lemma DefaultsAreGood()
    ensures GoodDefaults(DEFAULTS) && Whole(DEFAULTS)
  {
  }

  predicate Safe(c: Config) {
    && c.logRetention % HOUR == 0 && 0 < c.logRetention <= MAX_HOURS * HOUR
    && c.metricsRetention % HOUR == 0 && 0 < c.metricsRetention <= MAX_HOURS * HOUR
    && c.perPodLimitMb > 0 && c.totalLimitMb > 0
    && !Blank(c.schedule) && !Blank(c.scanner)
  }

  lemma WholeIsPositive(retention: int, default: int)
    requires IsInt64(retention) && retention % HOUR == 0 && WritesBack(retention, default) && default >= HOUR
    ensures 0 < retention <= MAX_HOURS * HOUR
  {
    OverAnHour(retention, default);
  }

  lemma InvMeansSafe(s: State)
    requires Inv(DEFAULTS, s) && Whole(s.cfg)
    ensures s.cfg == Restart(DEFAULTS, s.rows) && Safe(s.cfg)
  {
    NotBlank("daily");
    NotBlank("trivy");
    WholeIsPositive(s.cfg.logRetention, DEFAULTS.logRetention);
    WholeIsPositive(s.cfg.metricsRetention, DEFAULTS.metricsRetention);
    hide Restart, Blank, WritesBack;
  }

  // Over the shipped defaults and with hours within the bound retentions stay
  // positive whole hours, limits positive and names non-blank, and a restart
  // changes nothing.
  lemma ShippedDefaultsAreSafe(updates: seq<Update>)
    requires AllBounded(updates)
    ensures
      var s := After(State(DEFAULTS, map[]), updates);
      s.cfg == Restart(DEFAULTS, s.rows) && Safe(s.cfg)
  {
    hide *;
    DefaultsAreGood();
    FreshInv(DEFAULTS);
    BoundedIsKept(DEFAULTS, updates);
    UpdatesKeepInv(DEFAULTS, State(DEFAULTS, map[]), updates);
    WholeRun(State(DEFAULTS, map[]), updates);
    InvMeansSafe(After(State(DEFAULTS, map[]), updates));
  }

  const UNUSABLE := Payload(Some((Other, Other)), Some((Other, Other, Other)), Some(Other), Some((Other, Other, Other)))

  // A first update that touches everything and brings nothing stores them: a
  // week of logs and metrics, 100 and 5120 megabytes, daily scans with trivy.
  lemma DefaultsAreStored(section: Section)
    ensures
      var t := Updated(State(DEFAULTS, map[]), Update(UNUSABLE, {}));
      section in t.rows && t.rows[section] ==
        match section
        case Actions => ActionsRow(false, false)
        case Logs => LogsRow(168, 100, 5120)
        case Metrics => MetricsRow(168)
        case Security => SecurityRow(false, "daily", "trivy")
  {
    var u := Update(UNUSABLE, {});
    ReachesAll(u);
    SectionAllOrNothing(State(DEFAULTS, map[]), u, ORDER, section);
    hide Reaches, UpdateFrom;
  }

  lemma NoUpdates(s: State)
    ensures After(s, []) == s
  {
  }

  // A default of half an hour is lost on the first update that leaves it alone.
  lemma HalfHourIsLost()
    ensures
      var d := DEFAULTS.(logRetention := HOUR / 2);
      !Agrees(d, After(State(d, map[]), [EmptyUpdate()]))
  {
    var d := DEFAULTS.(logRetention := HOUR / 2);
    assert !WritesBack(d.logRetention, d.logRetention);
    hide *;
    EmptyUpdateAgrees(d, State(d, map[]));
    AfterCons(State(d, map[]), EmptyUpdate(), []);
    NoUpdates(Updated(State(d, map[]), EmptyUpdate()));
    assert [EmptyUpdate()] + [] == [EmptyUpdate()];
  }

  // ---------- the bound on hours is needed ----------

  lemma HoursWrap()
    ensures FromHours(MAX_HOURS + 1) < 0 && ToHours(FromHours(MAX_HOURS + 1)) == -MAX_HOURS
    ensures FromHours(-MAX_HOURS) < 0
  {
  }

  // One hour more than fits: the duration wraps to a negative one, the next
  // update writes negative hours back, and a restart then disagrees.
  lemma OneHourTooMany()
    ensures
      var s := After(State(DEFAULTS, map[]), [SetLogHours(MAX_HOURS + 1), EmptyUpdate()]);
      s.cfg.logRetention < 0 && Restart(DEFAULTS, s.rows).logRetention == DEFAULTS.logRetention
  {
    hide FromHours, ToHours, Updated, Restart, After;
    var s0, u := State(DEFAULTS, map[]), SetLogHours(MAX_HOURS + 1);
    ReachesAll(u);
    RetentionsAfter(s0, u);
    EmptyUpdateEffect(DEFAULTS, Updated(s0, u));
    AfterCons(s0, u, [EmptyUpdate()]);
    AfterCons(Updated(s0, u), EmptyUpdate(), []);
    NoUpdates(Updated(Updated(s0, u), EmptyUpdate()));
    assert [EmptyUpdate()] + [] == [EmptyUpdate()] && [u] + [EmptyUpdate()] == [u, EmptyUpdate()];
    HoursWrap();
  }

  // Far beyond the bound hours may wrap to a duration that is kept again.
  lemma WrappedHoursCanBeKept()
    ensures !IsInt64(6_000_000 * HOUR) && FromHours(6_000_000) >= HOUR
  {
  }
}
