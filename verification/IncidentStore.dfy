/** Incident lifecycle under serial transactions: grouping alerts, the worst-severity fold, the risk
    score, and the two ways an incident is closed. */
module IncidentStore {
  import opened Wrappers
  import opened Severities

  datatype IncidentStatus = Open | Acknowledged | Closed

  datatype AlertStatus = Triggered | Acked | Resolved | Suppressed

  // The criticality of the asset an alert's host resolves to; Vital is "critical", and Label any text but the
  // four, the empty one included.
  datatype Criticality = Low | Medium | High | Vital | Label(name: string)

  const BLANK: Criticality := Label("")

  datatype Incident = Incident(
    tenant: nat, fingerprint: string, severity: Severity, status: IncidentStatus,
    count: int, risk: int, criticality: Criticality)

  datatype Alert = Alert(tenant: nat, severity: Severity, status: AlertStatus, incident: Option<nat>)

  datatype Db = Db(incidents: map<nat, Incident>, alerts: map<nat, Alert>)

  // ----- scoring -----

  function WorseSeverity(a: Severity, b: Severity): (w: Severity)
    ensures w == a || w == b
    ensures SeverityRank(w) >= SeverityRank(a) && SeverityRank(w) >= SeverityRank(b)
    ensures SeverityRank(a) == SeverityRank(b) ==> w == a
  {
    if SeverityRank(b) > SeverityRank(a) then b else a
  }

  function SeverityBase(s: Severity): int {
    match s
    case Info => 10
    case Warning => 30
    case Critical => 50
    case Fatal => 70
    case Other(_) => 0
  }

  function CriticalityBonus(c: Criticality): int {
    match c
    case High => 15
    case Vital => 25
    case _ => 0
  }

  function Min(a: int, b: int): int { if a < b then a else b }

  function ComputeRiskScore(severity: Severity, recurrence: int, criticality: Criticality): int {
    var n := if recurrence < 1 then 1 else recurrence;
    Min(SeverityBase(severity) + Min(n * 3, 30) + CriticalityBonus(criticality), 100)
  }

  /** The score stays in 0..100 and grows with the severity rank, the recurrence and the bonus. */
  lemma RiskScoreIsMonotone(s: Severity, n: int, c: Criticality, s': Severity, n': int, c': Criticality)
    requires SeverityRank(s) <= SeverityRank(s') && n <= n' && CriticalityBonus(c) <= CriticalityBonus(c')
    ensures 0 <= ComputeRiskScore(s, n, c) <= ComputeRiskScore(s', n', c') <= 100
  {
  }

  /** What moves the score: three points for each of the first ten alerts, none for more; fifteen and twenty-five
      for a high and a critical asset, none for any other; and thirteen, thirty-three, fifty-three or seventy-three
      to begin with, by severity. */
  lemma ScorePoints(s: Severity, n: int, c: Criticality)
    ensures ComputeRiskScore(s, n, c) == ComputeRiskScore(s, if n < 1 then 1 else if n > 10 then 10 else n, c)
    ensures 1 <= n < 10 ==> ComputeRiskScore(s, n + 1, c) == Min(100, ComputeRiskScore(s, n, c) + 3)
    ensures ComputeRiskScore(s, n, c)
         == Min(100, ComputeRiskScore(s, n, BLANK) + (if c == High then 15 else if c == Vital then 25 else 0))
    ensures ComputeRiskScore(s, 1, BLANK)
         == (match s case Info => 13 case Warning => 33 case Critical => 53 case Fatal => 73 case Other(_) => 3)
  {
  }

  // ----- the statements -----

  predicate IsOpen(d: Db, id: nat, tenant: nat, fp: string) {
    id in d.incidents && d.incidents[id].tenant == tenant && d.incidents[id].fingerprint == fp &&
    !d.incidents[id].status.Closed?
  }

  predicate AnyOpen(d: Db, tenant: nat, fp: string) {
    exists id | id in d.incidents :: IsOpen(d, id, tenant, fp)
  }

  function EffectiveCriticality(resolved: Criticality, known: Criticality): Criticality {
    if resolved == BLANK then known else resolved
  }

  function Bumped(inc: Incident, severity: Severity, criticality: Criticality): Incident {
    var worst := WorseSeverity(inc.severity, severity);
    var crit := EffectiveCriticality(criticality, inc.criticality);
    inc.(severity := worst, count := inc.count + 1, criticality := crit,
         risk := ComputeRiskScore(worst, inc.count + 1, crit))
  }

  function Created(tenant: nat, fp: string, severity: Severity, criticality: Criticality): Incident {
    Incident(tenant, fp, severity, Open, 1, ComputeRiskScore(severity, 1, criticality), criticality)
  }

  function Linked(d: Db, id: nat): set<nat> {
    set a | a in d.alerts && d.alerts[a].incident == Some(id)
  }

  // What one successful grouping of alert a does, given the incident id it lands on.
  function Attach(d: Db, a: nat, fp: string, criticality: Criticality, id: nat): Db
    requires a in d.alerts
  {
    var al := d.alerts[a];
    var row := if id in d.incidents then Bumped(d.incidents[id], al.severity, criticality)
               else Created(al.tenant, fp, al.severity, criticality);
    Db(d.incidents[id := row], d.alerts[a := al.(incident := Some(id))])
  }

  // Attach lands on the open incident, or on a new id when there is none.
  predicate AttachTarget(d: Db, a: nat, fp: string, id: nat)
    requires a in d.alerts
  {
    if AnyOpen(d, d.alerts[a].tenant, fp) then IsOpen(d, id, d.alerts[a].tenant, fp) else id !in d.incidents
  }

  // The group endpoints: flip the incident unless it is closed, then cascade to its alerts.
  function UpdateIncidentStatus(d: Db, tenant: nat, id: nat, status: IncidentStatus, cascade: AlertStatus): Db {
    if id !in d.incidents || d.incidents[id].tenant != tenant || d.incidents[id].status.Closed? then d
    else
      Db(d.incidents[id := d.incidents[id].(status := status)],
         map a | a in d.alerts ::
           if d.alerts[a].tenant == tenant && d.alerts[a].incident == Some(id) then d.alerts[a].(status := cascade)
           else d.alerts[a])
  }

  function AcknowledgeGroup(d: Db, tenant: nat, id: nat): Db {
    UpdateIncidentStatus(d, tenant, id, Acknowledged, Acked)
  }

  function ResolveGroup(d: Db, tenant: nat, id: nat): Db {
    UpdateIncidentStatus(d, tenant, id, Closed, Resolved)
  }

  predicate NothingLeftOpen(d: Db, tenant: nat, id: nat) {
    forall b | b in d.alerts :: d.alerts[b].tenant == tenant && d.alerts[b].incident == Some(id) ==> d.alerts[b].status.Resolved?
  }

  // Resolving one alert closes its incident once no sibling is left open.
  function ResolveAlert(d: Db, tenant: nat, a: nat): Db {
    if a !in d.alerts || d.alerts[a].tenant != tenant then d
    else
      var d' := d.(alerts := d.alerts[a := d.alerts[a].(status := Resolved)]);
      match d.alerts[a].incident
      case Some(id) =>
        if id in d.incidents && d.incidents[id].tenant == tenant && !d.incidents[id].status.Closed? && NothingLeftOpen(d', tenant, id)
        then d'.(incidents := d.incidents[id := d.incidents[id].(status := Closed)])
        else d'
      case None => d'
  }

  // Acknowledging one alert looks neither at its status nor at its incident.
  function AcknowledgeAlert(d: Db, tenant: nat, a: nat): Db {
    if a in d.alerts && d.alerts[a].tenant == tenant then d.(alerts := d.alerts[a := d.alerts[a].(status := Acked)]) else d
  }

  function ReopenAlert(d: Db, tenant: nat, a: nat): Db {
    if a in d.alerts && d.alerts[a].tenant == tenant && (d.alerts[a].status.Resolved? || d.alerts[a].status.Suppressed?)
    then d.(alerts := d.alerts[a := d.alerts[a].(status := Triggered)])
    else d
  }

  // Fleet corroboration raises the risk of the open incident.
  function EnrichRisk(d: Db, tenant: nat, id: nat, bonus: nat): Db {
    if id in d.incidents && d.incidents[id].tenant == tenant && !d.incidents[id].status.Closed?
    then d.(incidents := d.incidents[id := d.incidents[id].(risk := Min(100, d.incidents[id].risk + bonus))])
    else d
  }

  // ----- serial histories -----

  datatype Call =
    | NewAlert(a: nat, tenant: nat, severity: Severity, fp: string, criticality: Criticality, target: nat, grouped: bool)
    | AckGroup(tenant: nat, id: nat)
    | CloseGroup(tenant: nat, id: nat)
    | CloseAlert(tenant: nat, a: nat)
    | AckAlert(tenant: nat, a: nat)
    | Reopen(tenant: nat, a: nat)
    | Enrich(tenant: nat, id: nat, bonus: nat)

  function Stored(d: Db, a: nat, tenant: nat, severity: Severity): Db {
    d.(alerts := d.alerts[a := Alert(tenant, severity, Triggered, None)])
  }

  predicate Legal(d: Db, c: Call) {
    c.NewAlert? ==> c.a !in d.alerts && AttachTarget(Stored(d, c.a, c.tenant, c.severity), c.a, c.fp, c.target)
  }

  function Apply(d: Db, c: Call): Db {
    match c
    case NewAlert(a, tenant, severity, fp, criticality, target, grouped) =>
      var stored := Stored(d, a, tenant, severity);
      if grouped then Attach(stored, a, fp, criticality, target) else stored
    case AckGroup(tenant, id) => AcknowledgeGroup(d, tenant, id)
    case CloseGroup(tenant, id) => ResolveGroup(d, tenant, id)
    case CloseAlert(tenant, a) => ResolveAlert(d, tenant, a)
    case AckAlert(tenant, a) => AcknowledgeAlert(d, tenant, a)
    case Reopen(tenant, a) => ReopenAlert(d, tenant, a)
    case Enrich(tenant, id, bonus) => EnrichRisk(d, tenant, id, bonus)
  }

  ghost predicate Serial(d: Db, calls: seq<Call>, end: Db)
    decreases |calls|
  {
    if calls == [] then end == d else Legal(d, calls[0]) && Serial(Apply(d, calls[0]), calls[1..], end)
  }

  // ----- what every transaction keeps -----

  ghost predicate OneOpen(d: Db) {
    forall i, j, t, f {:trigger IsOpen(d, i, t, f), IsOpen(d, j, t, f)} :: IsOpen(d, i, t, f) && IsOpen(d, j, t, f) ==> i == j
  }

  // The incident carries the worst severity of the alerts attached to it, and it is one of theirs.
  ghost predicate WorstOf(d: Db, id: nat)
    requires id in d.incidents
  {
    && (forall a | a in Linked(d, id) :: SeverityRank(d.alerts[a].severity) <= SeverityRank(d.incidents[id].severity))
    && (exists a :: a in Linked(d, id) && d.alerts[a].severity == d.incidents[id].severity)
  }

  function BaseRisk(inc: Incident): int { ComputeRiskScore(inc.severity, inc.count, inc.criticality) }

  ghost predicate RowOk(d: Db, id: nat)
    requires id in d.incidents
  {
    && d.incidents[id].count == |Linked(d, id)|
    && WorstOf(d, id)
    && BaseRisk(d.incidents[id]) <= d.incidents[id].risk <= 100
  }

  ghost predicate LinksOk(d: Db) {
    forall a | a in d.alerts && d.alerts[a].incident.Some? ::
      d.alerts[a].incident.value in d.incidents && d.incidents[d.alerts[a].incident.value].tenant == d.alerts[a].tenant
  }

  ghost predicate Inv(d: Db) {
    OneOpen(d) && LinksOk(d) && forall id | id in d.incidents :: RowOk(d, id)
  }

  // The row of an incident a later row may follow it in a history.
  predicate Follows(was: Incident, now: Incident) {
    && now.tenant == was.tenant && now.fingerprint == was.fingerprint
    && now.count >= was.count
    && SeverityRank(now.severity) >= SeverityRank(was.severity)
    && (was.criticality != BLANK ==> now.criticality != BLANK)
    && (was.status.Closed? ==> now == was)
  }

  lemma AttachLinks(d: Db, a: nat, fp: string, criticality: Criticality, id: nat, other: nat)
    requires a in d.alerts && d.alerts[a].incident.None?
    ensures var d' := Attach(d, a, fp, criticality, id);
            && Linked(d', other) == (if other == id then Linked(d, id) + {a} else Linked(d, other))
            && a !in Linked(d, other)
  {
  }

  lemma AttachKeepsRow(d: Db, a: nat, fp: string, criticality: Criticality, id: nat, i: nat)
    requires a in d.alerts && d.alerts[a].incident.None?
    requires i == id || i in d.incidents
    requires if i in d.incidents then RowOk(d, i) else Linked(d, i) == {}
    ensures RowOk(Attach(d, a, fp, criticality, id), i)
  {
    var d' := Attach(d, a, fp, criticality, id);
    AttachLinks(d, a, fp, criticality, id, i);
    if i in d.incidents {
      var b :| b in Linked(d, i) && d.alerts[b].severity == d.incidents[i].severity;
      assert b in Linked(d', i) && d'.alerts[b].severity == d.incidents[i].severity;
    }
    if i == id {
      assert a in Linked(d', i) && d'.alerts[a].severity == d.alerts[a].severity;
    }
  }

  lemma AttachKeepsOneOpen(d: Db, a: nat, fp: string, criticality: Criticality, id: nat)
    requires OneOpen(d) && a in d.alerts && AttachTarget(d, a, fp, id)
    ensures OneOpen(Attach(d, a, fp, criticality, id))
  {
    var d' := Attach(d, a, fp, criticality, id);
    forall i, t, f | IsOpen(d', i, t, f) ensures IsOpen(d, i, t, f) || (i == id && !AnyOpen(d, t, f)) {}
  }

  lemma AttachKeepsInv(d: Db, a: nat, fp: string, criticality: Criticality, id: nat)
    requires Inv(d) && a in d.alerts && d.alerts[a].incident.None? && AttachTarget(d, a, fp, id)
    ensures Inv(Attach(d, a, fp, criticality, id))
  {
    var d' := Attach(d, a, fp, criticality, id);
    AttachKeepsOneOpen(d, a, fp, criticality, id);
    assert LinksOk(d') by {
      if AnyOpen(d, d.alerts[a].tenant, fp) { assert IsOpen(d, id, d.alerts[a].tenant, fp); }
    }
    forall i | i in d'.incidents ensures RowOk(d', i) {
      if i !in d.incidents { assert Linked(d, i) == {}; }
      AttachKeepsRow(d, a, fp, criticality, id, i);
    }
  }

  // A transaction that moves no link and leaves severities, counts and criticalities alone.
  predicate StatusOnly(d: Db, d': Db) {
    && d'.incidents.Keys == d.incidents.Keys && d'.alerts.Keys == d.alerts.Keys
    && (forall i | i in d.incidents ::
          && d'.incidents[i] == d.incidents[i].(status := d'.incidents[i].status, risk := d'.incidents[i].risk)
          && (d.incidents[i].risk <= 100 ==> d.incidents[i].risk <= d'.incidents[i].risk <= 100)
          && (d.incidents[i].status.Closed? ==> d'.incidents[i].status.Closed?))
    && (forall a | a in d.alerts :: d'.alerts[a] == d.alerts[a].(status := d'.alerts[a].status))
  }

  lemma StatusChangeKeepsInv(d: Db, d': Db)
    requires Inv(d) && StatusOnly(d, d')
    ensures Inv(d')
  {
    forall i, t, f | IsOpen(d', i, t, f) ensures IsOpen(d, i, t, f) {}
    forall i | i in d'.incidents ensures RowOk(d', i) {
      assert RowOk(d, i) && Linked(d', i) == Linked(d, i);
      var b :| b in Linked(d, i) && d.alerts[b].severity == d.incidents[i].severity;
      assert b in Linked(d', i) && d'.alerts[b].severity == d'.incidents[i].severity;
    }
  }

  lemma StoringKeepsInv(d: Db, a: nat, tenant: nat, severity: Severity)
    requires Inv(d) && a !in d.alerts
    ensures Inv(Stored(d, a, tenant, severity))
  {
    var d' := Stored(d, a, tenant, severity);
    forall i, t, f | IsOpen(d', i, t, f) ensures IsOpen(d, i, t, f) {}
    forall i | i in d'.incidents ensures RowOk(d', i) {
      assert RowOk(d, i) && Linked(d', i) == Linked(d, i);
      var b :| b in Linked(d, i) && d.alerts[b].severity == d.incidents[i].severity;
      assert b in Linked(d', i) && d'.alerts[b].severity == d'.incidents[i].severity;
    }
  }

  lemma GroupIsStatusOnly(d: Db, tenant: nat, id: nat, status: IncidentStatus, cascade: AlertStatus)
    ensures StatusOnly(d, UpdateIncidentStatus(d, tenant, id, status, cascade))
  {
  }

  lemma ResolveIsStatusOnly(d: Db, tenant: nat, a: nat)
    ensures StatusOnly(d, ResolveAlert(d, tenant, a))
  {
  }

  lemma AcknowledgeIsStatusOnly(d: Db, tenant: nat, a: nat)
    ensures StatusOnly(d, AcknowledgeAlert(d, tenant, a))
  {
  }

  lemma ReopenIsStatusOnly(d: Db, tenant: nat, a: nat)
    ensures StatusOnly(d, ReopenAlert(d, tenant, a))
  {
  }

  lemma EnrichIsStatusOnly(d: Db, tenant: nat, id: nat, bonus: nat)
    ensures StatusOnly(d, EnrichRisk(d, tenant, id, bonus))
  {
  }

  lemma StatusCallIsStatusOnly(d: Db, c: Call)
    requires !c.NewAlert?
    ensures StatusOnly(d, Apply(d, c))
  {
    match c
    case AckGroup(tenant, id) => GroupIsStatusOnly(d, tenant, id, Acknowledged, Acked);
    case CloseGroup(tenant, id) => GroupIsStatusOnly(d, tenant, id, Closed, Resolved);
    case CloseAlert(tenant, a) => ResolveIsStatusOnly(d, tenant, a);
    case AckAlert(tenant, a) => AcknowledgeIsStatusOnly(d, tenant, a);
    case Reopen(tenant, a) => ReopenIsStatusOnly(d, tenant, a);
    case Enrich(tenant, id, bonus) => EnrichIsStatusOnly(d, tenant, id, bonus);
  }

  lemma CallKeepsInv(d: Db, c: Call)
    requires Inv(d) && Legal(d, c)
    ensures Inv(Apply(d, c))
  {
    if c.NewAlert? {
      StoringKeepsInv(d, c.a, c.tenant, c.severity);
      if c.grouped { AttachKeepsInv(Stored(d, c.a, c.tenant, c.severity), c.a, c.fp, c.criticality, c.target); }
    } else {
      StatusCallIsStatusOnly(d, c);
      StatusChangeKeepsInv(d, Apply(d, c));
    }
  }

  lemma CallFollows(d: Db, c: Call, id: nat)
    requires Inv(d) && Legal(d, c) && id in d.incidents
    ensures id in Apply(d, c).incidents && Follows(d.incidents[id], Apply(d, c).incidents[id])
  {
    if c.NewAlert? && c.grouped && c.target == id {
      var stored := Stored(d, c.a, c.tenant, c.severity);
      if AnyOpen(stored, c.tenant, c.fp) { assert IsOpen(stored, id, c.tenant, c.fp); }
    }
  }

  // Of two incidents of one tenant and fingerprint, one is closed.
  ghost predicate OthersAreClosed(d: Db) {
    forall i, j | i in d.incidents && j in d.incidents && i != j
                  && d.incidents[i].tenant == d.incidents[j].tenant && d.incidents[i].fingerprint == d.incidents[j].fingerprint ::
      d.incidents[i].status.Closed? || d.incidents[j].status.Closed?
  }

  lemma OneOpenMeansOthersClosed(d: Db)
    requires OneOpen(d)
    ensures OthersAreClosed(d)
  {
    forall i, j | i in d.incidents && j in d.incidents && i != j
                  && d.incidents[i].tenant == d.incidents[j].tenant && d.incidents[i].fingerprint == d.incidents[j].fingerprint
      ensures d.incidents[i].status.Closed? || d.incidents[j].status.Closed?
    {
      var t, f := d.incidents[i].tenant, d.incidents[i].fingerprint;
      assert IsOpen(d, i, t, f) && IsOpen(d, j, t, f) ==> i == j;
    }
  }

  /** Over any serial history of attaches, group and single closes, reopenings and enrichments, every
      incident keeps: one open incident per fingerprint, count of its linked alerts, the worst of their
      severities, and a risk between its computed score and 100. */
  lemma {:induction false} HistoryKeepsInv(d: Db, calls: seq<Call>, end: Db)
    requires Inv(d) && Serial(d, calls, end)
    ensures Inv(end) && OthersAreClosed(end)
    decreases |calls|
  {
    OneOpenMeansOthersClosed(d);
    if calls != [] {
      CallKeepsInv(d, calls[0]);
      HistoryKeepsInv(Apply(d, calls[0]), calls[1..], end);
    }
  }

  /** Over any serial history an incident's count and severity rank never fall, a known criticality is
      never erased, and a resolved incident is frozen. */
  lemma {:induction false} HistoryFollows(d: Db, calls: seq<Call>, end: Db, id: nat)
    requires Inv(d) && Serial(d, calls, end) && id in d.incidents
    ensures id in end.incidents && Follows(d.incidents[id], end.incidents[id])
    decreases |calls|
  {
    if calls != [] {
      CallKeepsInv(d, calls[0]);
      CallFollows(d, calls[0], id);
      HistoryFollows(Apply(d, calls[0]), calls[1..], end, id);
    }
  }

  lemma AttachedIsOpen(d: Db, c: Call)
    requires Legal(d, c) && c.NewAlert? && c.grouped
    ensures IsOpen(Apply(d, c), c.target, c.tenant, c.fp)
  {
    if AnyOpen(Stored(d, c.a, c.tenant, c.severity), c.tenant, c.fp) {
      assert IsOpen(Stored(d, c.a, c.tenant, c.severity), c.target, c.tenant, c.fp);
    }
  }

  lemma NextTarget(d: Db, c: Call, id: nat)
    requires OneOpen(d) && Legal(d, c) && c.NewAlert? && id in d.incidents
    requires d.incidents[id].tenant == c.tenant && d.incidents[id].fingerprint == c.fp
    ensures c.target == id <==> !d.incidents[id].status.Closed?
  {
    var stored := Stored(d, c.a, c.tenant, c.severity);
    if !d.incidents[id].status.Closed? {
      assert IsOpen(stored, id, c.tenant, c.fp);
      assert IsOpen(d, c.target, c.tenant, c.fp) && IsOpen(d, id, c.tenant, c.fp);
    } else if AnyOpen(stored, c.tenant, c.fp) {
      assert IsOpen(d, c.target, c.tenant, c.fp);
    }
  }

  /** Whatever happens between two alerts of one tenant and fingerprint, the later one joins the incident of the
      earlier one exactly as long as that is not closed. */
  lemma AlertsOfOneProblemAreGrouped(d: Db, first: Call, calls: seq<Call>, end: Db, next: Call)
    requires Inv(d) && Legal(d, first) && first.NewAlert? && first.grouped && Serial(Apply(d, first), calls, end)
    requires Legal(end, next) && next.NewAlert? && next.tenant == first.tenant && next.fp == first.fp
    ensures first.target in end.incidents
    ensures next.target == first.target <==> end.incidents[first.target].status != Closed
  {
    CallKeepsInv(d, first);
    AttachedIsOpen(d, first);
    HistoryKeepsInv(Apply(d, first), calls, end);
    HistoryFollows(Apply(d, first), calls, end, first.target);
    NextTarget(end, next, first.target);
  }

  ghost predicate RiskExact(d: Db) {
    forall id | id in d.incidents :: d.incidents[id].risk == BaseRisk(d.incidents[id])
  }

  // The call resolves no criticality for the incident, or one that scores at least as high as the known one.
  predicate KeepsCriticality(d: Db, c: Call, id: nat) {
    c.NewAlert? && c.grouped && c.target == id && id in d.incidents ==>
      c.criticality == BLANK || CriticalityBonus(c.criticality) >= CriticalityBonus(d.incidents[id].criticality)
  }

  ghost predicate CriticalityKept(d: Db, calls: seq<Call>, id: nat)
    decreases |calls|
  {
    calls == [] ||
    (Legal(d, calls[0]) && KeepsCriticality(d, calls[0], id) && CriticalityKept(Apply(d, calls[0]), calls[1..], id))
  }

  lemma CallKeepsRisk(d: Db, c: Call)
    requires RiskExact(d) && Legal(d, c) && !c.Enrich?
    ensures RiskExact(Apply(d, c))
  {
  }

  lemma CallRaisesRisk(d: Db, c: Call, id: nat)
    requires Inv(d) && RiskExact(d) && Legal(d, c) && !c.Enrich? && id in d.incidents && KeepsCriticality(d, c, id)
    ensures id in Apply(d, c).incidents && Apply(d, c).incidents[id].risk >= d.incidents[id].risk
  {
    CallKeepsRisk(d, c);
    CallFollows(d, c, id);
    var row, row' := d.incidents[id], Apply(d, c).incidents[id];
    RiskScoreIsMonotone(row.severity, row.count, row.criticality, row'.severity, row'.count, row'.criticality);
  }

  /** Without fleet enrichment the risk is exactly the computed score, and it never falls while the
      criticality is unchanged, absent or raised. */
  lemma {:induction false} RiskNeverFalls(d: Db, calls: seq<Call>, end: Db, id: nat)
    requires Inv(d) && RiskExact(d) && Serial(d, calls, end)
    requires forall i | 0 <= i < |calls| :: !calls[i].Enrich?
    ensures RiskExact(end)
    ensures id in d.incidents && CriticalityKept(d, calls, id) ==>
              id in end.incidents && end.incidents[id].risk >= d.incidents[id].risk
    decreases |calls|
  {
    if calls != [] {
      var c, d' := calls[0], Apply(d, calls[0]);
      CallKeepsInv(d, c);
      CallKeepsRisk(d, c);
      assert forall i | 0 <= i < |calls[1..]| :: calls[1..][i] == calls[i + 1];
      if id in d.incidents && KeepsCriticality(d, c, id) {
        CallRaisesRisk(d, c, id);
      }
      RiskNeverFalls(d', calls[1..], end, id);
    }
  }

  // The fleet bonuses an incident has collected since an alert was last attached to it.
  function BonusAfter(d: Db, c: Call, id: nat, bonus: nat): nat {
    match c
    case NewAlert(_, _, _, _, _, target, grouped) => if grouped && target == id then 0 else bonus
    case Enrich(tenant, i, more) =>
      if i == id && id in d.incidents && d.incidents[id].tenant == tenant && !d.incidents[id].status.Closed? then bonus + more
      else bonus
    case _ => bonus
  }

  function BonusAfterAll(d: Db, calls: seq<Call>, id: nat, bonus: nat): nat
    decreases |calls|
  {
    if calls == [] then bonus else BonusAfterAll(Apply(d, calls[0]), calls[1..], id, BonusAfter(d, calls[0], id, bonus))
  }

  ghost predicate RiskIs(d: Db, id: nat, bonus: nat) {
    id in d.incidents ==> d.incidents[id].risk == Min(100, BaseRisk(d.incidents[id]) + bonus)
  }

  lemma GroupKeepsRiskIs(d: Db, tenant: nat, i: nat, status: IncidentStatus, cascade: AlertStatus, id: nat, bonus: nat)
    requires RiskIs(d, id, bonus)
    ensures RiskIs(UpdateIncidentStatus(d, tenant, i, status, cascade), id, bonus)
  {
  }

  lemma AttachKeepsRiskIs(d: Db, a: nat, fp: string, criticality: Criticality, target: nat, id: nat, bonus: nat)
    requires RiskIs(d, id, bonus) && a in d.alerts
    ensures RiskIs(Attach(d, a, fp, criticality, target), id, if target == id then 0 else bonus)
  {
  }

  lemma CallKeepsRiskIs(d: Db, c: Call, id: nat, bonus: nat)
    requires RiskIs(d, id, bonus)
    ensures RiskIs(Apply(d, c), id, BonusAfter(d, c, id, bonus))
  {
    match c
    case NewAlert(a, tenant, severity, fp, criticality, target, grouped) =>
      if grouped { AttachKeepsRiskIs(Stored(d, a, tenant, severity), a, fp, criticality, target, id, bonus); }
    case AckGroup(tenant, i) => GroupKeepsRiskIs(d, tenant, i, Acknowledged, Acked, id, bonus);
    case CloseGroup(tenant, i) => GroupKeepsRiskIs(d, tenant, i, Closed, Resolved, id, bonus);
    case _ =>
  }

  /** Over any serial history, enrichment included, risk_score is exactly the computed score plus the fleet
      bonuses collected since the last alert was attached, cut at 100: a bonus lasts until the next alert. */
  lemma {:induction false} RiskIsScorePlusRecentBonuses(d: Db, calls: seq<Call>, end: Db, id: nat, bonus: nat)
    requires Serial(d, calls, end) && RiskIs(d, id, bonus)
    ensures RiskIs(end, id, BonusAfterAll(d, calls, id, bonus))
    decreases |calls|
  {
    if calls != [] {
      CallKeepsRiskIs(d, calls[0], id, bonus);
      RiskIsScorePlusRecentBonuses(Apply(d, calls[0]), calls[1..], end, id, BonusAfter(d, calls[0], id, bonus));
    }
  }

  /** Fleet enrichment does not survive the next alert of the incident: the bump recomputes the score from
      severity, count and criticality alone. */
  lemma FleetBonusIsOverwritten(d: Db, id: nat, bonus: nat, a: nat, fp: string, criticality: Criticality)
    requires id in d.incidents && a in d.alerts
    ensures Attach(EnrichRisk(d, d.incidents[id].tenant, id, bonus), a, fp, criticality, id)
         == Attach(d, a, fp, criticality, id)
  {
  }

  // ----- criticality -----

  // The call attaches an alert to the incident whose host resolves to a known criticality.
  predicate Resolves(c: Call, id: nat) { c.NewAlert? && c.grouped && c.target == id && c.criticality != BLANK }

  // The criticality of the last such call, or the one to start with.
  function LastResolved(calls: seq<Call>, id: nat, start: Criticality): Criticality
    decreases |calls|
  {
    if calls == [] then start else LastResolved(calls[1..], id, if Resolves(calls[0], id) then calls[0].criticality else start)
  }

  lemma {:induction false} LastResolvedIsLast(calls: seq<Call>, id: nat, start: Criticality)
    ensures
      || (LastResolved(calls, id, start) == start && forall c | c in calls :: !Resolves(c, id))
      || (exists i :: 0 <= i < |calls| && Resolves(calls[i], id) && LastResolved(calls, id, start) == calls[i].criticality
                      && forall j | i < j < |calls| :: !Resolves(calls[j], id))
    decreases |calls|
  {
    if calls != [] {
      var rest, next := calls[1..], if Resolves(calls[0], id) then calls[0].criticality else start;
      LastResolvedIsLast(rest, id, next);
      if forall c | c in rest :: !Resolves(c, id) {
        assert forall j | 0 < j < |calls| :: calls[j] in rest;
        assert forall c | c in calls :: c == calls[0] || c in rest;
      } else {
        var i :| 0 <= i < |rest| && Resolves(rest[i], id) && LastResolved(rest, id, next) == rest[i].criticality
                 && forall j | i < j < |rest| :: !Resolves(rest[j], id);
        assert calls[i + 1] == rest[i];
        assert forall j | i + 1 < j < |calls| :: calls[j] == rest[j - 1];
      }
    }
  }

  // An incident not there yet has none.
  ghost predicate CriticalityIs(d: Db, id: nat, crit: Criticality) {
    if id in d.incidents then d.incidents[id].criticality == crit else crit == BLANK
  }

  lemma AttachResolves(d: Db, a: nat, fp: string, criticality: Criticality, target: nat, id: nat, crit: Criticality)
    requires CriticalityIs(d, id, crit) && a in d.alerts
    ensures CriticalityIs(Attach(d, a, fp, criticality, target), id, if target == id && criticality != BLANK then criticality else crit)
  {
  }

  lemma CallResolves(d: Db, c: Call, id: nat, crit: Criticality)
    requires CriticalityIs(d, id, crit)
    ensures CriticalityIs(Apply(d, c), id, if Resolves(c, id) then c.criticality else crit)
  {
    if c.NewAlert? {
      if c.grouped { AttachResolves(Stored(d, c.a, c.tenant, c.severity), c.a, c.fp, c.criticality, c.target, id, crit); }
    } else {
      StatusCallIsStatusOnly(d, c);
    }
  }

  lemma {:induction false} CriticalityFollows(d: Db, calls: seq<Call>, end: Db, id: nat, start: Criticality)
    requires Serial(d, calls, end) && CriticalityIs(d, id, start)
    ensures CriticalityIs(end, id, LastResolved(calls, id, start))
    decreases |calls|
  {
    if calls != [] {
      CallResolves(d, calls[0], id, start);
      CriticalityFollows(Apply(d, calls[0]), calls[1..], end, id, if Resolves(calls[0], id) then calls[0].criticality else start);
    }
  }

  /** After any serial history an incident's criticality is the one of the last alert attached to it whose host
      resolved to one, or the one it started with, and its risk is scored with that. */
  lemma RiskIsScoredWithTheLastCriticality(d: Db, calls: seq<Call>, end: Db, id: nat, start: Criticality, bonus: nat)
    requires Serial(d, calls, end) && CriticalityIs(d, id, start) && RiskIs(d, id, bonus)
    ensures id in end.incidents ==>
      var row, crit := end.incidents[id], LastResolved(calls, id, start);
      && row.criticality == crit
      && row.risk == Min(100, ComputeRiskScore(row.severity, row.count, crit) + BonusAfterAll(d, calls, id, bonus))
  {
    CriticalityFollows(d, calls, end, id, start);
    RiskIsScorePlusRecentBonuses(d, calls, end, id, bonus);
  }

  // ----- status -----

  /** Attaching an alert leaves the incident's status alone, and one newly created is open. */
  lemma AttachingKeepsTheStatus(d: Db, a: nat, fp: string, criticality: Criticality, id: nat, i: nat)
    requires a in d.alerts
    ensures var d' := Attach(d, a, fp, criticality, id);
      && (i in d.incidents ==> i in d'.incidents && d'.incidents[i].status == d.incidents[i].status)
      && (i in d'.incidents && i !in d.incidents ==> i == id && d'.incidents[i].status == Open)
      && (forall b | b in d.alerts :: b in d'.alerts && d'.alerts[b].status == d.alerts[b].status)
  {
  }

  /** An alert comes in triggered, linked to the incident it was grouped under if it was, and touches no other alert. */
  lemma NewAlertsAreTriggered(d: Db, c: Call)
    requires Legal(d, c) && c.NewAlert?
    ensures Apply(d, c).alerts == d.alerts[c.a := Alert(c.tenant, c.severity, Triggered, if c.grouped then Some(c.target) else None)]
    ensures forall id | id in d.incidents && (!c.grouped || id != c.target) ::
              id in Apply(d, c).incidents && Apply(d, c).incidents[id] == d.incidents[id]
  {
    if c.grouped { assert Apply(d, c).alerts == d.alerts[c.a := Alert(c.tenant, c.severity, Triggered, Some(c.target))]; }
  }

  /** What the operators' calls make of every status: a group call that finds its incident unresolved sets it and
      all its alerts, a single acknowledge or reopening its alert, the reopening only a closed one. */
  lemma StatusesAfterwards(d: Db, tenant: nat, id: nat, a: nat)
    requires Inv(d) && a in d.alerts
    ensures var hit := id in d.incidents && d.incidents[id].tenant == tenant && d.incidents[id].status != Closed;
            var acked, closed := AcknowledgeGroup(d, tenant, id), ResolveGroup(d, tenant, id);
      && (hit ==> acked.incidents == d.incidents[id := d.incidents[id].(status := Acknowledged)]
                  && closed.incidents == d.incidents[id := d.incidents[id].(status := Closed)])
      && (!hit ==> acked == d && closed == d)
      && acked.alerts[a].status == (if hit && d.alerts[a].incident == Some(id) then Acked else d.alerts[a].status)
      && closed.alerts[a].status == (if hit && d.alerts[a].incident == Some(id) then Resolved else d.alerts[a].status)
    ensures var mine := d.alerts[a].tenant == tenant;
      && AcknowledgeAlert(d, tenant, a).alerts[a].status == (if mine then Acked else d.alerts[a].status)
      && ResolveAlert(d, tenant, a).alerts[a].status == (if mine then Resolved else d.alerts[a].status)
      && ReopenAlert(d, tenant, a).alerts[a].status
         == (if mine && d.alerts[a].status in {Resolved, Suppressed} then Triggered else d.alerts[a].status)
  {
  }

  // ----- two ways of closing an incident -----

  function ResolveEach(d: Db, tenant: nat, order: seq<nat>): Db
    decreases |order|
  {
    if order == [] then d else ResolveEach(ResolveAlert(d, tenant, order[0]), tenant, order[1..])
  }

  ghost predicate AllResolved(d: Db, s: set<nat>) {
    forall a | a in s :: a in d.alerts && d.alerts[a].status.Resolved?
  }

  // After resolving linked alerts one by one: exactly those are newly resolved, and the incident is
  // closed exactly when nothing is left open and at least one was resolved.
  ghost predicate ClosedProgress(d: Db, d': Db, id: nat, done: seq<nat>)
    requires id in d.incidents
  {
    && d'.alerts == (map a | a in d.alerts :: if a in done then d.alerts[a].(status := Resolved) else d.alerts[a])
    && d'.incidents == (if done != [] && AllResolved(d', Linked(d, id))
                        then d.incidents[id := d.incidents[id].(status := Closed)] else d.incidents)
  }

  lemma {:induction false} ResolveEachProgress(d: Db, tenant: nat, id: nat, order: seq<nat>)
    requires Inv(d) && id in d.incidents && d.incidents[id].tenant == tenant && !d.incidents[id].status.Closed?
    requires forall a | a in order :: a in Linked(d, id)
    ensures ClosedProgress(d, ResolveEach(d, tenant, order), id, order)
    decreases |order|
  {
    if order != [] {
      var init, last := order[..|order| - 1], order[|order| - 1];
      assert order == init + [last];
      ResolveEachAppend(d, tenant, init, last);
      ResolveEachProgress(d, tenant, id, init);
      LastResolve(d, tenant, id, init, last);
    }
  }

  lemma {:induction false} ResolveEachAppend(d: Db, tenant: nat, init: seq<nat>, last: nat)
    ensures ResolveEach(d, tenant, init + [last]) == ResolveAlert(ResolveEach(d, tenant, init), tenant, last)
    decreases |init|
  {
    if init == [] {
      assert init + [last] == [last];
    } else {
      assert (init + [last])[1..] == init[1..] + [last];
      ResolveEachAppend(ResolveAlert(d, tenant, init[0]), tenant, init[1..], last);
    }
  }

  lemma NothingLeftIsAllResolved(d: Db, d': Db, tenant: nat, id: nat)
    requires LinksOk(d) && id in d.incidents && d.incidents[id].tenant == tenant
    requires d'.alerts.Keys == d.alerts.Keys
    requires forall a | a in d.alerts :: d'.alerts[a] == d.alerts[a].(status := d'.alerts[a].status)
    ensures NothingLeftOpen(d', tenant, id) == AllResolved(d', Linked(d, id))
  {
  }

  lemma LastResolve(d: Db, tenant: nat, id: nat, init: seq<nat>, last: nat)
    requires LinksOk(d) && id in d.incidents && d.incidents[id].tenant == tenant && !d.incidents[id].status.Closed?
    requires last in Linked(d, id)
    requires ClosedProgress(d, ResolveEach(d, tenant, init), id, init)
    ensures ClosedProgress(d, ResolveAlert(ResolveEach(d, tenant, init), tenant, last), id, init + [last])
  {
    var d1 := ResolveEach(d, tenant, init);
    var d2 := ResolveAlert(d1, tenant, last);
    var d1' := d1.(alerts := d1.alerts[last := d1.alerts[last].(status := Resolved)]);
    assert d2.alerts == d1'.alerts;
    assert d2.alerts == (map a | a in d.alerts :: if a in init + [last] then d.alerts[a].(status := Resolved) else d.alerts[a]);
    NothingLeftIsAllResolved(d, d1', tenant, id);
    assert AllResolved(d1', Linked(d, id)) == AllResolved(d2, Linked(d, id));
    assert AllResolved(d1, Linked(d, id)) ==> AllResolved(d2, Linked(d, id));
  }

  lemma SomeResolved(d: Db, tenant: nat, id: nat, part: seq<nat>)
    requires Inv(d) && id in d.incidents && d.incidents[id].tenant == tenant && !d.incidents[id].status.Closed?
    requires part != [] && forall a | a in part :: a in Linked(d, id)
    ensures var d' := ResolveEach(d, tenant, part);
      if exists a :: a in Linked(d, id) && a !in part && !d.alerts[a].status.Resolved?
      then d'.incidents == d.incidents else d'.incidents == d.incidents[id := d.incidents[id].(status := Closed)]
  {
    ResolveEachProgress(d, tenant, id, part);
  }

  /** Resolving all alerts of an unresolved incident one by one, in any order, ends in the same rows as one
      group resolve; and a partial order leaves the incident alone exactly while an alert is still open. */
  lemma OneByOneIsGroupResolve(d: Db, tenant: nat, id: nat, order: seq<nat>)
    requires Inv(d) && id in d.incidents && d.incidents[id].tenant == tenant && !d.incidents[id].status.Closed?
    requires forall a :: a in order <==> a in Linked(d, id)
    ensures ResolveEach(d, tenant, order) == ResolveGroup(d, tenant, id)
    ensures forall n | 0 < n <= |order| ::
      var part := ResolveEach(d, tenant, order[..n]);
      if exists a :: a in Linked(d, id) && a !in order[..n] && !d.alerts[a].status.Resolved?
      then part.incidents == d.incidents else part.incidents == d.incidents[id := d.incidents[id].(status := Closed)]
  {
    var end, all := ResolveEach(d, tenant, order), ResolveGroup(d, tenant, id);
    assert RowOk(d, id);
    ResolveEachProgress(d, tenant, id, order);
    assert forall a | a in d.alerts :: d.alerts[a].incident == Some(id) <==> a in order;
    assert all.alerts == end.alerts;
    var b :| b in Linked(d, id);
    assert b in order;
    forall n | 0 < n <= |order|
      ensures var part := ResolveEach(d, tenant, order[..n]);
        if exists a :: a in Linked(d, id) && a !in order[..n] && !d.alerts[a].status.Resolved?
        then part.incidents == d.incidents else part.incidents == d.incidents[id := d.incidents[id].(status := Closed)]
    {
      SomeResolved(d, tenant, id, order[..n]);
    }
  }

  /** Acknowledging a group also reopens the alerts under it that were already resolved: the resolved
      alerts that stay resolved are exactly those of other incidents. */
  lemma AcknowledgeReopensResolvedAlerts(d: Db, tenant: nat, id: nat, a: nat)
    requires Inv(d) && id in d.incidents && d.incidents[id].tenant == tenant && !d.incidents[id].status.Closed?
    requires a in d.alerts && d.alerts[a].status.Resolved?
    ensures AcknowledgeGroup(d, tenant, id).alerts[a].status.Resolved? <==> d.alerts[a].incident != Some(id)
  {
  }

  // ----- the incident feed and the alert feed -----

  predicate OfClosed(d: Db, a: nat) {
    a in d.alerts && d.alerts[a].incident.Some? && d.alerts[a].incident.value in d.incidents &&
    d.incidents[d.alerts[a].incident.value].status.Closed?
  }

  // A resolved incident has resolved alerts only.
  ghost predicate FeedsAgree(d: Db) { forall a | OfClosed(d, a) :: d.alerts[a].status.Resolved? }

  // Acknowledging or reopening a single alert of a resolved incident.
  predicate Splits(d: Db, c: Call) {
    match c
    case AckAlert(tenant, a) => OfClosed(d, a) && d.alerts[a].tenant == tenant
    case Reopen(tenant, a) => OfClosed(d, a) && d.alerts[a].tenant == tenant
    case _ => false
  }

  lemma SingleSplits(d: Db, tenant: nat, a: nat)
    requires FeedsAgree(d)
    ensures FeedsAgree(AcknowledgeAlert(d, tenant, a)) <==> !Splits(d, AckAlert(tenant, a))
    ensures FeedsAgree(ReopenAlert(d, tenant, a)) <==> !Splits(d, Reopen(tenant, a))
  {
    var acked, reopened := AcknowledgeAlert(d, tenant, a), ReopenAlert(d, tenant, a);
    assert forall b | b != a :: (OfClosed(acked, b) <==> OfClosed(d, b)) && (OfClosed(reopened, b) <==> OfClosed(d, b));
    assert (OfClosed(acked, a) <==> OfClosed(d, a)) && (OfClosed(reopened, a) <==> OfClosed(d, a));
  }

  lemma ResolvingKeepsFeeds(d: Db, tenant: nat, a: nat)
    requires LinksOk(d) && FeedsAgree(d)
    ensures FeedsAgree(ResolveAlert(d, tenant, a))
  {
    var d' := ResolveAlert(d, tenant, a);
    forall b | OfClosed(d', b) ensures d'.alerts[b].status.Resolved? {
      if !OfClosed(d, b) { assert d'.alerts[b].incident == d.alerts[a].incident; }
    }
  }

  lemma GroupKeepsFeeds(d: Db, tenant: nat, id: nat, status: IncidentStatus, cascade: AlertStatus)
    requires LinksOk(d) && FeedsAgree(d) && (status.Closed? ==> cascade.Resolved?)
    ensures FeedsAgree(UpdateIncidentStatus(d, tenant, id, status, cascade))
  {
    var d' := UpdateIncidentStatus(d, tenant, id, status, cascade);
    forall b | OfClosed(d', b) ensures d'.alerts[b].status.Resolved? {
      if d.alerts[b].incident != Some(id) { assert OfClosed(d, b); }
    }
  }

  lemma NewAlertKeepsFeeds(d: Db, c: Call)
    requires LinksOk(d) && FeedsAgree(d) && Legal(d, c) && c.NewAlert?
    ensures FeedsAgree(Apply(d, c))
  {
    var stored, d' := Stored(d, c.a, c.tenant, c.severity), Apply(d, c);
    if AnyOpen(stored, c.tenant, c.fp) { assert IsOpen(stored, c.target, c.tenant, c.fp); }
    forall b | OfClosed(d', b) ensures d'.alerts[b].status.Resolved? {
      assert b != c.a && OfClosed(d, b);
    }
  }

  lemma CallKeepsFeeds(d: Db, c: Call)
    requires LinksOk(d) && FeedsAgree(d) && Legal(d, c)
    ensures FeedsAgree(Apply(d, c)) <==> !Splits(d, c)
  {
    match c
    case NewAlert(_, _, _, _, _, _, _) => NewAlertKeepsFeeds(d, c);
    case AckGroup(tenant, id) => GroupKeepsFeeds(d, tenant, id, Acknowledged, Acked);
    case CloseGroup(tenant, id) => GroupKeepsFeeds(d, tenant, id, Closed, Resolved);
    case CloseAlert(tenant, a) => ResolvingKeepsFeeds(d, tenant, a);
    case AckAlert(tenant, a) => SingleSplits(d, tenant, a);
    case Reopen(tenant, a) => SingleSplits(d, tenant, a);
    case Enrich(_, _, _) => assert forall b :: OfClosed(Apply(d, c), b) <==> OfClosed(d, b);
  }

  // Some call of the history is the first to split the feeds.
  ghost predicate EverSplits(d: Db, calls: seq<Call>)
    decreases |calls|
  {
    calls != [] && (Splits(d, calls[0]) || EverSplits(Apply(d, calls[0]), calls[1..]))
  }

  lemma AfterOneMore(d: Db, calls: seq<Call>, n: nat)
    requires n < |calls|
    ensures AfterCalls(d, calls[..n + 1]) == AfterCalls(Apply(d, calls[0]), calls[1..][..n])
  {
    assert calls[..n + 1][0] == calls[0] && calls[..n + 1][1..] == calls[1..][..n];
  }

  lemma {:induction false} FeedsAgreeUntilSplit(d: Db, calls: seq<Call>, end: Db, n: nat)
    requires Inv(d) && FeedsAgree(d) && Serial(d, calls, end) && !EverSplits(d, calls) && n <= |calls|
    ensures FeedsAgree(AfterCalls(d, calls[..n]))
    decreases |calls|
  {
    if n == 0 {
      assert calls[..0] == [];
    } else {
      CallKeepsInv(d, calls[0]);
      CallKeepsFeeds(d, calls[0]);
      AfterOneMore(d, calls, n - 1);
      FeedsAgreeUntilSplit(Apply(d, calls[0]), calls[1..], end, n - 1);
    }
  }

  lemma {:induction false} FeedsDisagreeAfterSplit(d: Db, calls: seq<Call>, end: Db) returns (n: nat)
    requires Inv(d) && FeedsAgree(d) && Serial(d, calls, end) && EverSplits(d, calls)
    ensures n <= |calls| && !FeedsAgree(AfterCalls(d, calls[..n]))
    decreases |calls|
  {
    CallKeepsInv(d, calls[0]);
    CallKeepsFeeds(d, calls[0]);
    if Splits(d, calls[0]) {
      AfterOneMore(d, calls, 0);
      assert calls[1..][..0] == [];
      n := 1;
    } else {
      n := FeedsDisagreeAfterSplit(Apply(d, calls[0]), calls[1..], end);
      AfterOneMore(d, calls, n);
      n := n + 1;
    }
  }

  /** Over a serial history no resolved incident is ever left with an unresolved alert exactly when the history
      never acknowledges or reopens a single alert of a resolved incident. */
  lemma FeedsAgreeThroughout(d: Db, calls: seq<Call>, end: Db)
    requires Inv(d) && FeedsAgree(d) && Serial(d, calls, end)
    ensures EverSplits(d, calls) <==> exists n :: 0 <= n <= |calls| && !FeedsAgree(AfterCalls(d, calls[..n]))
  {
    if EverSplits(d, calls) {
      var n := FeedsDisagreeAfterSplit(d, calls, end);
    } else {
      forall n | 0 <= n <= |calls| ensures FeedsAgree(AfterCalls(d, calls[..n])) {
        FeedsAgreeUntilSplit(d, calls, end, n);
      }
    }
  }

  function AfterCalls(d: Db, calls: seq<Call>): Db
    decreases |calls|
  {
    if calls == [] then d else AfterCalls(Apply(d, calls[0]), calls[1..])
  }

  // ----- the transactions as the program runs them -----

  // Which statements of a grouping attempt the database rejects.
  datatype Faults = Faults(lookup: bool, write: bool, link: bool)

  // What another worker may commit meanwhile: nothing, or an open incident of the fingerprint.
  predicate Rivals(incidents: map<nat, Incident>, rival: map<nat, Incident>, tenant: nat, fp: string) {
    forall id | id in rival ::
      id !in incidents && rival[id].tenant == tenant && rival[id].fingerprint == fp && !rival[id].status.Closed?
  }

  // The insert is reached, so that a rival counts.
  predicate Arrives(d: Db, tenant: nat, fp: string, faults: Faults) { !faults.lookup && !AnyOpen(d, tenant, fp) }

  lemma RivalIsOpen(d: Db, rival: map<nat, Incident>, tenant: nat, fp: string)
    requires rival != map[] && Rivals(map[], rival, tenant, fp) && forall id | id in rival :: id in d.incidents && d.incidents[id] == rival[id]
    ensures AnyOpen(d, tenant, fp)
  {
    var id :| id in rival;
    assert IsOpen(d, id, tenant, fp);
  }

  class Store {
    var incidents: map<nat, Incident>
    var alerts: map<nat, Alert>

    function View(): Db
      reads this
    {
      Db(incidents, alerts)
    }

    method BumpExisting(tenant: nat, fp: string, severity: Severity, criticality: Criticality, faults: Faults)
      returns (ok: bool, found: Option<nat>)
      modifies this`incidents
      ensures found.Some? ==> IsOpen(old(View()), found.value, tenant, fp)
      ensures ok && found.None? ==> !AnyOpen(old(View()), tenant, fp) && incidents == old(incidents)
      ensures ok && found.Some? ==>
        incidents == old(incidents)[found.value := Bumped(old(incidents)[found.value], severity, criticality)]
      ensures !ok <==> faults.lookup || (AnyOpen(old(View()), tenant, fp) && faults.write)
      ensures !ok ==> incidents == old(incidents)
      ensures ok && found.Some? ==>
        && found.value in incidents
        && incidents[found.value].criticality == if criticality != BLANK then criticality else old(incidents)[found.value].criticality
    {
      if faults.lookup { return false, None; }
      if !AnyOpen(View(), tenant, fp) { return true, None; }
      var id :| id in incidents && IsOpen(View(), id, tenant, fp);
      if faults.write { return false, Some(id); }
      var cur := incidents[id];
      var worst := WorseSeverity(cur.severity, severity);
      var effective := if criticality == BLANK then cur.criticality else criticality;
      var newCount := cur.count + 1;
      incidents := incidents[id := cur.(count := newCount, severity := worst, criticality := effective,
                                        risk := ComputeRiskScore(worst, newCount, effective))];
      return true, Some(id);
    }

    // Another worker may commit an open incident of the same fingerprint between the lookup and the insert. The
    // insert is then a unique violation, after which the fallback's lookup is refused.
    method FindOrCreateOpenIncident(tenant: nat, fp: string, severity: Severity, criticality: Criticality,
                                    newId: nat, rival: map<nat, Incident>, faults: Faults)
      returns (id: Option<nat>)
      requires newId !in incidents && Rivals(incidents, rival, tenant, fp)
      modifies this`incidents
      ensures id.Some? <==> !faults.lookup && !faults.write && (AnyOpen(old(View()), tenant, fp) || rival == map[])
      ensures id.None? ==> incidents == if Arrives(old(View()), tenant, fp, faults) then old(incidents) + rival else old(incidents)
      ensures id.Some? ==>
        if AnyOpen(old(View()), tenant, fp)
        then IsOpen(old(View()), id.value, tenant, fp) &&
             incidents == old(incidents)[id.value := Bumped(old(incidents)[id.value], severity, criticality)]
        else id.value == newId && incidents == old(incidents)[newId := Created(tenant, fp, severity, criticality)]
    {
      var ok, found := BumpExisting(tenant, fp, severity, criticality, faults);
      if !ok { return None; }
      if found.Some? { return found; }
      incidents := incidents + rival;
      if faults.write { return None; }
      if rival != map[] { RivalIsOpen(View(), rival, tenant, fp); }
      if AnyOpen(View(), tenant, fp) {
        ok, found := BumpExisting(tenant, fp, severity, criticality, faults.(lookup := true));
        return if ok then found else None;
      }
      incidents := incidents[newId := Incident(tenant, fp, severity, Open, 1,
                                               ComputeRiskScore(severity, 1, criticality), criticality)];
      return Some(newId);
    }

    // The savepoint: any failure undoes this transaction's writes, so the stored alert survives.
    method AttachIncident(a: nat, fp: string, criticality: Criticality, newId: nat, rival: map<nat, Incident>, faults: Faults)
      returns (incident: Option<nat>)
      requires a in alerts && newId !in incidents && Rivals(incidents, rival, alerts[a].tenant, fp)
      modifies this
      ensures incident.Some? <==> !faults.lookup && !faults.write && !faults.link &&
                                  (AnyOpen(old(View()), old(alerts)[a].tenant, fp) || rival == map[])
      ensures incident.None? ==> alerts == old(alerts)
      ensures incident.None? ==>
        incidents == if Arrives(old(View()), old(alerts)[a].tenant, fp, faults) then old(incidents) + rival else old(incidents)
      ensures incident.Some? ==>
        AttachTarget(old(View()), a, fp, incident.value) &&
        View() == Attach(old(View()), a, fp, criticality, incident.value)
    {
      var alert, saved := alerts[a], incidents;
      if Arrives(View(), alert.tenant, fp, faults) { saved := saved + rival; }
      incident := FindOrCreateOpenIncident(alert.tenant, fp, alert.severity, criticality, newId, rival, faults);
      if incident.Some? && !faults.link {
        alerts := alerts[a := alert.(incident := incident)];
      } else {
        incidents := saved;
        incident := None;
      }
    }

    method SetIncidentStatus(tenant: nat, id: nat, status: IncidentStatus, cascade: AlertStatus) returns (affected: nat)
      modifies this
      ensures View() == UpdateIncidentStatus(old(View()), tenant, id, status, cascade)
      ensures affected == if id in old(incidents) && old(incidents)[id].tenant == tenant && !old(incidents)[id].status.Closed? then 1 else 0
    {
      if id !in incidents || incidents[id].tenant != tenant || incidents[id].status.Closed? { return 0; }
      incidents := incidents[id := incidents[id].(status := status)];
      CascadeStatus(tenant, id, cascade);
      return 1;
    }

    // The second statement touches only the rows whose status differs.
    method CascadeStatus(tenant: nat, id: nat, cascade: AlertStatus)
      modifies this`alerts
      ensures alerts == map a | a in old(alerts) ::
        if old(alerts)[a].tenant == tenant && old(alerts)[a].incident == Some(id) then old(alerts)[a].(status := cascade)
        else old(alerts)[a]
    {
      var rows := set a | a in alerts && alerts[a].tenant == tenant && alerts[a].incident == Some(id) && alerts[a].status != cascade;
      alerts := map a | a in alerts :: if a in rows then alerts[a].(status := cascade) else alerts[a];
    }

    method AcknowledgeOne(tenant: nat, a: nat) returns (affected: nat)
      modifies this`alerts
      ensures View() == AcknowledgeAlert(old(View()), tenant, a)
      ensures affected == if a in old(alerts) && old(alerts)[a].tenant == tenant then 1 else 0
    {
      if a !in alerts || alerts[a].tenant != tenant { return 0; }
      alerts := alerts[a := alerts[a].(status := Acked)];
      return 1;
    }

    method ResolveOne(tenant: nat, a: nat) returns (affected: nat)
      modifies this
      ensures View() == ResolveAlert(old(View()), tenant, a)
      ensures affected == if a in old(alerts) && old(alerts)[a].tenant == tenant then 1 else 0
    {
      if a !in alerts || alerts[a].tenant != tenant { return 0; }
      alerts := alerts[a := alerts[a].(status := Resolved)];
      var incident := alerts[a].incident;
      if incident.Some? && incident.value in incidents {
        var row := incidents[incident.value];
        if row.tenant == tenant && !row.status.Closed? && NothingLeftOpen(View(), tenant, incident.value) {
          incidents := incidents[incident.value := row.(status := Closed)];
        }
      }
      return 1;
    }
  }
}
