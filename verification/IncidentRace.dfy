/** Concurrent incident grouping, one SQL statement at a time.

    Every worker transaction inserts its alert, opens a savepoint, and inside it looks for the open
    incident of the alert's (tenant, fingerprint), bumps or creates it, and links the alert. Statements
    of different workers, and operators resolving incidents, interleave freely; a row lock or the
    partial unique index makes a statement wait for the transaction that holds the row. Any statement
    may fail, and any transaction may be lost. A unique violation aborts the savepoint: PostgreSQL refuses
    every statement after it, so the lookup that follows a lost insert fails and the savepoint is undone. */
module IncidentRace {
  import opened Wrappers

  datatype Key = Key(tenant: nat, fingerprint: string)

  datatype Incident = Incident(key: Key, resolved: bool, count: nat)

  datatype AlertRow = AlertRow(key: Key, incident: Option<nat>)

  // The incident write a transaction has made but not committed: it holds that row.
  datatype Pending = NoWrite | Bump(id: nat) | Create(id: nat)

  datatype Pc =
    | Idle
    | AlertInserted
    | Selecting                   // about to look for the open incident
    | Updating(hit: nat)
    | Inserting
    | LostRace                    // the insert met another open incident; the savepoint is aborted
    | Linking(id: nat)
    | Releasing(id: nat)
    | Grouped(id: nat)            // savepoint released
    | Ungrouped                   // savepoint never opened, or rolled back
    | Committed(link: Option<nat>)
    | Aborted

  datatype Worker = Worker(alert: nat, key: Key, pc: Pc, pending: Pending)

  datatype State = State(incidents: map<nat, Incident>, alerts: map<nat, AlertRow>, workers: seq<Worker>)

  datatype Step =
    | InsertAlert(w: nat)
    | OpenSavepoint(w: nat)
    | Select(w: nat, found: Option<nat>)
    | Update(w: nat)
    | Insert(w: nat, id: nat)
    | InsertConflict(w: nat)
    | FallbackFails(w: nat)       // the lookup after a lost insert is refused
    | Link(w: nat)
    | Release(w: nat)
    | GroupingFails(w: nat)
    | Commit(w: nat)
    | Abort(w: nat)
    | Resolve(incident: nat)

  // ----- the statements -----

  predicate IsOpen(s: State, id: nat, k: Key) {
    id in s.incidents && !s.incidents[id].resolved && s.incidents[id].key == k
  }

  predicate NoneOpen(s: State, k: Key) {
    forall id | id in s.incidents :: !IsOpen(s, id, k)
  }

  predicate RowFree(s: State, id: nat) {
    forall j | 0 <= j < |s.workers| :: s.workers[j].pending != Bump(id)
  }

  predicate KeyFree(s: State, k: Key) {
    forall j | 0 <= j < |s.workers| :: s.workers[j].pending.Create? ==> s.workers[j].key != k
  }

  predicate Unused(s: State, id: nat) {
    id !in s.incidents && forall j | 0 <= j < |s.workers| :: s.workers[j].pending != Create(id)
  }

  predicate Finished(pc: Pc) {
    pc.Committed? || pc.Aborted?
  }

  predicate InSavepoint(pc: Pc) {
    pc.Selecting? || pc.Updating? || pc.Inserting? || pc.Linking?
  }

  predicate Enabled(s: State, a: Step) {
    match a
    case Resolve(id) => id in s.incidents && RowFree(s, id)
    case _ =>
      a.w < |s.workers| &&
      var t := s.workers[a.w];
      match a
      case InsertAlert(_) => t.pc.Idle?
      case OpenSavepoint(_) => t.pc.AlertInserted?
      case Select(_, found) =>
        t.pc.Selecting? && (if found.Some? then IsOpen(s, found.value, t.key) else NoneOpen(s, t.key))
      case Update(_) => t.pc.Updating? && RowFree(s, t.pc.hit)
      case Insert(_, id) => t.pc.Inserting? && KeyFree(s, t.key) && NoneOpen(s, t.key) && Unused(s, id)
      case InsertConflict(_) => t.pc.Inserting? && KeyFree(s, t.key) && !NoneOpen(s, t.key)
      case FallbackFails(_) => t.pc.LostRace?
      case Link(_) => t.pc.Linking?
      case Release(_) => t.pc.Releasing?
      case GroupingFails(_) => t.pc.AlertInserted? || InSavepoint(t.pc)
      case Commit(_) => t.pc.Grouped? || t.pc.Ungrouped?
      case Abort(_) => !Finished(t.pc)
  }

  function SetPc(s: State, w: nat, pc: Pc, pending: Pending): State
    requires w < |s.workers|
  {
    s.(workers := s.workers[w := s.workers[w].(pc := pc, pending := pending)])
  }

  // What a committing transaction makes visible; an UPDATE whose row is gone changes nothing.
  function Publish(s: State, t: Worker): State {
    match t.pending
    case NoWrite => s.(alerts := s.alerts[t.alert := AlertRow(t.key, None)])
    case Bump(id) =>
      s.(incidents := if id in s.incidents then s.incidents[id := s.incidents[id].(count := s.incidents[id].count + 1)]
                      else s.incidents,
         alerts := s.alerts[t.alert := AlertRow(t.key, Some(id))])
    case Create(id) =>
      s.(incidents := s.incidents[id := Incident(t.key, false, 1)],
         alerts := s.alerts[t.alert := AlertRow(t.key, Some(id))])
  }

  function Apply(s: State, a: Step): State
    requires Enabled(s, a)
  {
    match a
    case Resolve(id) => s.(incidents := s.incidents[id := s.incidents[id].(resolved := true)])
    case InsertAlert(w) => SetPc(s, w, AlertInserted, NoWrite)
    case OpenSavepoint(w) => SetPc(s, w, Selecting, NoWrite)
    case Select(w, found) => SetPc(s, w, if found.Some? then Updating(found.value) else Inserting, NoWrite)
    case Update(w) => var id := s.workers[w].pc.hit; SetPc(s, w, Linking(id), Bump(id))
    case Insert(w, id) => SetPc(s, w, Linking(id), Create(id))
    case InsertConflict(w) => SetPc(s, w, LostRace, NoWrite)
    case FallbackFails(w) => SetPc(s, w, Ungrouped, NoWrite)
    case Link(w) => SetPc(s, w, Releasing(s.workers[w].pc.id), s.workers[w].pending)
    case Release(w) => SetPc(s, w, Grouped(s.workers[w].pc.id), s.workers[w].pending)
    case GroupingFails(w) => SetPc(s, w, Ungrouped, NoWrite)
    case Commit(w) =>
      var t := s.workers[w];
      SetPc(Publish(s, t), w, Committed(if t.pc.Grouped? then Some(t.pc.id) else None), NoWrite)
    case Abort(w) => SetPc(s, w, Aborted, NoWrite)
  }

  // ----- what every statement keeps -----

  ghost predicate OneOpenPerKey(s: State) {
    forall i, j, k {:trigger IsOpen(s, i, k), IsOpen(s, j, k)} :: IsOpen(s, i, k) && IsOpen(s, j, k) ==> i == j
  }

  ghost function LinkedTo(alerts: map<nat, AlertRow>, id: nat): set<nat> {
    set a | a in alerts && alerts[a].incident == Some(id)
  }

  ghost predicate CountsMatch(s: State) {
    forall id | id in s.incidents :: s.incidents[id].count == |LinkedTo(s.alerts, id)|
  }

  ghost predicate LinksMatch(s: State) {
    forall a | a in s.alerts && s.alerts[a].incident.Some? ::
      var id := s.alerts[a].incident.value;
      id in s.incidents && s.incidents[id].key == s.alerts[a].key
  }

  predicate Writing(t: Worker, id: nat) {
    t.pending == Bump(id) || t.pending == Create(id)
  }

  predicate WorkerOk(s: State, t: Worker) {
    && (t.pending.Bump? ==> t.pending.id in s.incidents && s.incidents[t.pending.id].key == t.key)
    && (t.pending.Create? ==> t.pending.id !in s.incidents && NoneOpen(s, t.key))
    && (match t.pc
        case Updating(id) => t.pending.NoWrite? && id in s.incidents && s.incidents[id].key == t.key
        case Linking(id) => Writing(t, id)
        case Releasing(id) => Writing(t, id)
        case Grouped(id) => Writing(t, id)
        case _ => t.pending.NoWrite?)
    && (if t.pc.Committed? then t.alert in s.alerts && s.alerts[t.alert] == AlertRow(t.key, t.pc.link)
        else t.alert !in s.alerts)
  }

  predicate Disjoint(t: Worker, u: Worker) {
    && t.alert != u.alert
    && (t.pending.Create? && u.pending.Create? ==> t.pending.id != u.pending.id && t.key != u.key)
    && (t.pending.Bump? && u.pending.Bump? ==> t.pending.id != u.pending.id)
  }

  predicate WorkersOk(s: State) {
    && (forall i | 0 <= i < |s.workers| :: WorkerOk(s, s.workers[i]))
    && (forall i, j | 0 <= i < |s.workers| && 0 <= j < |s.workers| && i != j :: Disjoint(s.workers[i], s.workers[j]))
  }

  ghost predicate Inv(s: State) {
    OneOpenPerKey(s) && CountsMatch(s) && LinksMatch(s) && WorkersOk(s)
  }

  lemma LocalStepKeepsWorker(s: State, a: Step)
    requires WorkersOk(s) && Enabled(s, a) && !a.Resolve? && !a.Commit?
    ensures WorkerOk(Apply(s, a), Apply(s, a).workers[a.w])
  {
  }

  lemma LocalStepKeepsOthers(s: State, a: Step, i: nat)
    requires WorkersOk(s) && Enabled(s, a) && !a.Resolve? && !a.Commit? && i < |s.workers| && i != a.w
    ensures var s' := Apply(s, a);
            WorkerOk(s', s'.workers[i]) && Disjoint(s'.workers[i], s'.workers[a.w]) && Disjoint(s'.workers[a.w], s'.workers[i])
  {
  }

  lemma LocalStepKeepsInv(s: State, a: Step)
    requires Inv(s) && Enabled(s, a) && !a.Resolve? && !a.Commit?
    ensures Inv(Apply(s, a))
  {
    var s' := Apply(s, a);
    assert forall id, k :: IsOpen(s', id, k) == IsOpen(s, id, k);
    assert forall k :: NoneOpen(s', k) == NoneOpen(s, k);
    LocalStepKeepsWorker(s, a);
    forall i | 0 <= i < |s.workers| && i != a.w
      ensures WorkerOk(s', s'.workers[i]) && Disjoint(s'.workers[i], s'.workers[a.w]) && Disjoint(s'.workers[a.w], s'.workers[i])
    {
      LocalStepKeepsOthers(s, a, i);
    }
  }

  lemma ResolveKeepsInv(s: State, id: nat)
    requires Inv(s) && Enabled(s, Resolve(id))
    ensures Inv(Apply(s, Resolve(id)))
  {
    var s' := Apply(s, Resolve(id));
    assert forall i, k :: IsOpen(s', i, k) ==> IsOpen(s, i, k);
    forall i | 0 <= i < |s.workers| ensures WorkerOk(s', s'.workers[i]) {
      assert WorkerOk(s, s.workers[i]);
    }
  }

  lemma LinkedToAfterCommit(alerts: map<nat, AlertRow>, alert: nat, row: AlertRow, id: nat)
    requires alert !in alerts
    ensures row.incident == Some(id) ==>
      LinkedTo(alerts[alert := row], id) == LinkedTo(alerts, id) + {alert} && alert !in LinkedTo(alerts, id)
    ensures row.incident != Some(id) ==> LinkedTo(alerts[alert := row], id) == LinkedTo(alerts, id)
  {
  }

  lemma CommitKeepsCount(s: State, w: nat, id: nat)
    requires Inv(s) && Enabled(s, Commit(w)) && id in Apply(s, Commit(w)).incidents
    ensures Apply(s, Commit(w)).incidents[id].count == |LinkedTo(Apply(s, Commit(w)).alerts, id)|
  {
    var s', t := Apply(s, Commit(w)), s.workers[w];
    assert WorkerOk(s, t);
    LinkedToAfterCommit(s.alerts, t.alert, s'.alerts[t.alert], id);
    if t.pending == Create(id) {
      assert LinkedTo(s.alerts, id) == {};
    }
  }

  lemma CommitKeepsLinks(s: State, w: nat)
    requires Inv(s) && Enabled(s, Commit(w))
    ensures CountsMatch(Apply(s, Commit(w))) && LinksMatch(Apply(s, Commit(w)))
  {
    var s', t := Apply(s, Commit(w)), s.workers[w];
    assert WorkerOk(s, t);
    forall id | id in s'.incidents ensures s'.incidents[id].count == |LinkedTo(s'.alerts, id)| {
      CommitKeepsCount(s, w, id);
    }
    assert LinksMatch(s');
  }

  lemma CommitKeepsWorker(s: State, w: nat, i: nat)
    requires Inv(s) && Enabled(s, Commit(w)) && i < |s.workers|
    ensures WorkerOk(Apply(s, Commit(w)), Apply(s, Commit(w)).workers[i])
  {
    var s', t := Apply(s, Commit(w)), s.workers[w];
    assert WorkerOk(s, t);
    assert WorkerOk(s, s.workers[i]) && (i != w ==> Disjoint(s.workers[i], t));
    assert forall id, k :: IsOpen(s', id, k) ==> IsOpen(s, id, k) || (t.pending == Create(id) && k == t.key);
  }

  lemma CommitKeepsOneOpen(s: State, w: nat)
    requires Inv(s) && Enabled(s, Commit(w))
    ensures OneOpenPerKey(Apply(s, Commit(w)))
  {
    var s', t := Apply(s, Commit(w)), s.workers[w];
    assert WorkerOk(s, t);
    assert forall id, k :: IsOpen(s', id, k) ==> IsOpen(s, id, k) || (t.pending == Create(id) && k == t.key);
  }

  lemma CommitKeepsWorkers(s: State, w: nat)
    requires Inv(s) && Enabled(s, Commit(w))
    ensures WorkersOk(Apply(s, Commit(w)))
  {
    var s', t := Apply(s, Commit(w)), s.workers[w];
    forall i | 0 <= i < |s.workers| ensures WorkerOk(s', s'.workers[i]) {
      CommitKeepsWorker(s, w, i);
    }
    assert forall i | 0 <= i < |s.workers| && i != w :: Disjoint(s.workers[i], t) && Disjoint(t, s.workers[i]);
  }

  lemma StepKeepsInv(s: State, a: Step)
    requires Inv(s) && Enabled(s, a)
    ensures Inv(Apply(s, a))
  {
    match a
    case Resolve(id) => ResolveKeepsInv(s, id);
    case Commit(w) => CommitKeepsLinks(s, w); CommitKeepsOneOpen(s, w); CommitKeepsWorkers(s, w);
    case _ => LocalStepKeepsInv(s, a);
  }

  /** A worker that has bumped an incident holds its row: until its transaction ends nobody else changes it. */
  lemma HeldRowsAreStable(s: State, a: Step, w: nat, id: nat)
    requires Inv(s) && Enabled(s, a) && w < |s.workers| && s.workers[w].pending == Bump(id)
    ensures id in s.incidents && id in Apply(s, a).incidents
    ensures a != Commit(w) ==> Apply(s, a).incidents[id] == s.incidents[id]
  {
    assert WorkerOk(s, s.workers[w]);
    if a.Commit? && a.w != w {
      assert Disjoint(s.workers[w], s.workers[a.w]) && WorkerOk(s, s.workers[a.w]);
    }
  }

  // ----- whole runs -----

  ghost predicate Start(s: State) {
    && OneOpenPerKey(s) && CountsMatch(s) && LinksMatch(s)
    && (forall i | 0 <= i < |s.workers| ::
          s.workers[i].pc.Idle? && s.workers[i].pending.NoWrite? && s.workers[i].alert !in s.alerts)
    && (forall i, j | 0 <= i < j < |s.workers| :: s.workers[i].alert != s.workers[j].alert)
  }

  ghost predicate Run(s: State, steps: seq<Step>, end: State)
    decreases |steps|
  {
    if steps == [] then end == s
    else Enabled(s, steps[0]) && Run(Apply(s, steps[0]), steps[1..], end)
  }

  lemma {:induction false} RunKeepsInv(s: State, steps: seq<Step>, end: State)
    requires Inv(s) && Run(s, steps, end)
    ensures Inv(end)
    decreases |steps|
  {
    if steps != [] {
      StepKeepsInv(s, steps[0]);
      RunKeepsInv(Apply(s, steps[0]), steps[1..], end);
    }
  }

  /** In every interleaving: one unresolved incident per (tenant, fingerprint), every alert_count is the
      number of alerts linked, and every alert is linked within its own tenant and fingerprint. */
  lemma EveryRunIsSafe(s: State, steps: seq<Step>, end: State)
    requires Start(s) && Run(s, steps, end)
    ensures forall i, j | i in end.incidents && j in end.incidents && i != j ::
              end.incidents[i].resolved || end.incidents[j].resolved || end.incidents[i].key != end.incidents[j].key
    ensures forall id | id in end.incidents ::
              end.incidents[id].count == |set a | a in end.alerts && end.alerts[a].incident == Some(id)|
    ensures forall a | a in end.alerts && end.alerts[a].incident.Some? ::
              end.alerts[a].incident.value in end.incidents &&
              end.incidents[end.alerts[a].incident.value].key == end.alerts[a].key
  {
    assert Inv(s);
    RunKeepsInv(s, steps, end);
    forall i, j | i in end.incidents && j in end.incidents && i != j
      ensures end.incidents[i].resolved || end.incidents[j].resolved || end.incidents[i].key != end.incidents[j].key
    {
      var k := end.incidents[i].key;
      assert IsOpen(end, i, k) && IsOpen(end, j, k) ==> i == j;
    }
    forall id | id in end.incidents
      ensures end.incidents[id].count == |set a | a in end.alerts && end.alerts[a].incident == Some(id)|
    {
      assert LinkedTo(end.alerts, id) == set a | a in end.alerts && end.alerts[a].incident == Some(id);
    }
  }

  /** No alert is lost to grouping: what was stored stays as it was, and a transaction that ends without
      being aborted has stored its alert, with the link it obtained. */
  lemma {:induction false} NoAlertIsLost(s: State, steps: seq<Step>, end: State)
    requires Inv(s) && Run(s, steps, end)
    ensures |end.workers| == |s.workers|
    ensures forall a | a in s.alerts :: a in end.alerts && end.alerts[a] == s.alerts[a]
    ensures forall w | 0 <= w < |end.workers| && end.workers[w].pc.Committed? ::
              end.workers[w].alert in end.alerts &&
              end.alerts[end.workers[w].alert] == AlertRow(end.workers[w].key, end.workers[w].pc.link)
    decreases |steps|
  {
    if steps != [] {
      var a := steps[0];
      var s' := Apply(s, a);
      StepKeepsInv(s, a);
      if a.Commit? { assert WorkerOk(s, s.workers[a.w]); }
      NoAlertIsLost(s', steps[1..], end);
    } else {
      forall w | 0 <= w < |end.workers| && end.workers[w].pc.Committed?
        ensures end.workers[w].alert in end.alerts &&
          end.alerts[end.workers[w].alert] == AlertRow(end.workers[w].key, end.workers[w].pc.link)
      {
        assert WorkerOk(s, s.workers[w]);
      }
    }
  }

  /** Wherever inside the savepoint the grouping fails, a lost insert included, the alert is stored without a
      link and no incident changes. */
  lemma FailedGroupingKeepsTheAlert(s: State, w: nat)
    requires Inv(s) && w < |s.workers|
    requires s.workers[w].pc.AlertInserted? || InSavepoint(s.workers[w].pc) || s.workers[w].pc.LostRace?
    ensures var fails := if s.workers[w].pc.LostRace? then FallbackFails(w) else GroupingFails(w);
            && Enabled(s, fails) && Enabled(Apply(s, fails), Commit(w))
            && var end := Apply(Apply(s, fails), Commit(w));
            end.alerts == s.alerts[s.workers[w].alert := AlertRow(s.workers[w].key, None)] && end.incidents == s.incidents
  {
  }

  // The statement of worker w that costs its alert the incident.
  predicate Derails(a: Step, w: nat) { a == GroupingFails(w) || a == InsertConflict(w) }

  predicate Derailed(pc: Pc) { pc.LostRace? || pc.Ungrouped? || pc == Committed(None) }

  lemma DerailedAfter(s: State, a: Step, w: nat)
    requires Enabled(s, a) && w < |s.workers|
    ensures a != Abort(w) ==> (Derailed(Apply(s, a).workers[w].pc) <==> Derailed(s.workers[w].pc) || Derails(a, w))
    ensures Finished(s.workers[w].pc) ==> Apply(s, a).workers[w] == s.workers[w]
  {
  }

  lemma {:induction false} FinishedStays(s: State, steps: seq<Step>, end: State, w: nat)
    requires Run(s, steps, end) && w < |s.workers| && Finished(s.workers[w].pc)
    ensures |end.workers| == |s.workers| && end.workers[w] == s.workers[w]
    decreases |steps|
  {
    if steps != [] {
      DerailedAfter(s, steps[0], w);
      FinishedStays(Apply(s, steps[0]), steps[1..], end, w);
    }
  }

  lemma {:induction false} DerailedByAStatement(s: State, steps: seq<Step>, end: State, w: nat)
    requires Run(s, steps, end) && w < |s.workers| && |end.workers| == |s.workers| && end.workers[w].pc.Committed?
    ensures Derailed(end.workers[w].pc) <==> Derailed(s.workers[w].pc) || exists a :: a in steps && Derails(a, w)
    decreases |steps|
  {
    if steps != [] {
      var a, s' := steps[0], Apply(s, steps[0]);
      if a == Abort(w) { FinishedStays(s', steps[1..], end, w); }
      DerailedAfter(s, a, w);
      DerailedByAStatement(s', steps[1..], end, w);
      assert forall b :: b in steps <==> b == a || b in steps[1..];
    }
  }

  /** A stored alert stays outside every incident exactly when its worker lost the create race or one of its
      other statements failed. */
  lemma UngroupedExactlyWhenDerailed(s: State, steps: seq<Step>, end: State, w: nat)
    requires Start(s) && Run(s, steps, end) && w < |end.workers| && end.workers[w].pc.Committed?
    ensures end.workers[w].pc.link.None? <==> InsertConflict(w) in steps || GroupingFails(w) in steps
  {
    NoAlertIsLost(s, steps, end);
    DerailedByAStatement(s, steps, end, w);
    assert Derails(InsertConflict(w), w) && Derails(GroupingFails(w), w);
  }

  /** Without other failing statements, an alert is left ungrouped exactly when its worker lost the race. */
  lemma OnlyLostRacesLeaveAlertsUngrouped(s: State, steps: seq<Step>, end: State)
    requires Start(s) && Run(s, steps, end)
    requires forall a | a in steps :: !a.GroupingFails?
    ensures forall w | 0 <= w < |end.workers| && end.workers[w].pc.Committed? ::
              end.workers[w].pc.link.None? <==> InsertConflict(w) in steps
  {
    forall w | 0 <= w < |end.workers| && end.workers[w].pc.Committed?
      ensures end.workers[w].pc.link.None? <==> InsertConflict(w) in steps
    {
      UngroupedExactlyWhenDerailed(s, steps, end, w);
    }
  }

  lemma {:induction false} RunThen(s: State, steps: seq<Step>, mid: State, a: Step)
    requires Run(s, steps, mid) && Enabled(mid, a)
    ensures Run(s, steps + [a], Apply(mid, a))
    decreases |steps|
  {
    if steps == [] {
      assert Run(Apply(s, a), [], Apply(mid, a));
    } else {
      assert (steps + [a])[1..] == steps[1..] + [a];
      RunThen(Apply(s, steps[0]), steps[1..], mid, a);
    }
  }

  lemma {:induction false} RunJoin(s: State, xs: seq<Step>, mid: State, ys: seq<Step>, end: State)
    requires Run(s, xs, mid) && Run(mid, ys, end)
    ensures Run(s, xs + ys, end)
    decreases |xs|
  {
    if xs == [] {
      assert xs + ys == ys;
    } else {
      assert (xs + ys)[1..] == xs[1..] + ys;
      RunJoin(Apply(s, xs[0]), xs[1..], mid, ys, end);
    }
  }

  ghost predicate Leads(s: State, a: Step, next: State) { Enabled(s, a) && Apply(s, a) == next }

  lemma RunThree(s: State, a: Step, s1: State, b: Step, s2: State, c: Step, s3: State)
    requires Leads(s, a, s1) && Leads(s1, b, s2) && Leads(s2, c, s3)
    ensures Run(s, [a, b, c], s3)
  {
    assert [a, b, c][1..] == [b, c] && [b, c][1..] == [c] && [c][1..] == [];
    assert Run(s2, [c], s3) && Run(s1, [b, c], s3);
  }

  function Looks(w: nat, found: Option<nat>): seq<Step> { [InsertAlert(w), OpenSavepoint(w), Select(w, found)] }

  lemma SelectAfter(s: State, w: nat, found: Option<nat>)
    requires w < |s.workers|
    requires if found.Some? then IsOpen(s, found.value, s.workers[w].key) else NoneOpen(s, s.workers[w].key)
    ensures var s2 := SetPc(s, w, Selecting, NoWrite);
            Enabled(s2, Select(w, found)) &&
            Apply(s2, Select(w, found)) == SetPc(s, w, if found.Some? then Updating(found.value) else Inserting, NoWrite)
  {
    var s2 := SetPc(s, w, Selecting, NoWrite);
    if found.None? {
      assert forall id | id in s2.incidents :: !IsOpen(s, id, s.workers[w].key);
    }
  }

  // A worker alone, up to its lookup.
  lemma LooksRun(s: State, w: nat, found: Option<nat>)
    requires w < |s.workers| && s.workers[w].pc.Idle?
    requires if found.Some? then IsOpen(s, found.value, s.workers[w].key) else NoneOpen(s, s.workers[w].key)
    ensures Run(s, Looks(w, found), SetPc(s, w, if found.Some? then Updating(found.value) else Inserting, NoWrite))
  {
    var s1, s2 := SetPc(s, w, AlertInserted, NoWrite), SetPc(s, w, Selecting, NoWrite);
    var s3 := SetPc(s, w, if found.Some? then Updating(found.value) else Inserting, NoWrite);
    SelectAfter(s, w, found);
    assert Leads(s, InsertAlert(w), s1) && Leads(s1, OpenSavepoint(w), s2);
    RunThree(s, InsertAlert(w), s1, OpenSavepoint(w), s2, Select(w, found), s3);
  }

  function Lands(w: nat): seq<Step> { [Link(w), Release(w), Commit(w)] }

  function Landed(s: State, w: nat, id: nat): State
    requires w < |s.workers|
  {
    SetPc(Publish(s, s.workers[w]), w, Committed(Some(id)), NoWrite)
  }

  lemma CommitLands(s: State, w: nat, id: nat)
    requires w < |s.workers|
    ensures var s2 := SetPc(s, w, Grouped(id), s.workers[w].pending);
            Enabled(s2, Commit(w)) && Apply(s2, Commit(w)) == Landed(s, w, id)
  {
    var s2 := SetPc(s, w, Grouped(id), s.workers[w].pending);
    assert Publish(s2, s2.workers[w]) == Publish(s, s.workers[w]).(workers := s2.workers);
  }

  // And from its write to its commit.
  lemma LandsRun(s: State, w: nat, id: nat)
    requires w < |s.workers| && s.workers[w].pc == Linking(id)
    ensures Run(s, Lands(w), Landed(s, w, id))
  {
    var pending := s.workers[w].pending;
    var s1, s2 := SetPc(s, w, Releasing(id), pending), SetPc(s, w, Grouped(id), pending);
    CommitLands(s, w, id);
    assert Leads(s, Link(w), s1) && Leads(s1, Release(w), s2);
    RunThree(s, Link(w), s1, Release(w), s2, Commit(w), Landed(s, w, id));
  }

  function Lost(s: State, w: nat): State
    requires w < |s.workers|
  {
    SetPc(s.(alerts := s.alerts[s.workers[w].alert := AlertRow(s.workers[w].key, None)]), w, Committed(None), NoWrite)
  }

  function Loses(w: nat): seq<Step> { [InsertConflict(w), FallbackFails(w), Commit(w)] }

  lemma CommitLoses(s: State, w: nat)
    requires w < |s.workers|
    ensures var s2 := SetPc(s, w, Ungrouped, NoWrite);
            Enabled(s2, Commit(w)) && Apply(s2, Commit(w)) == Lost(s, w)
  {
  }

  // A worker whose insert meets an open incident.
  lemma LosesRun(s: State, w: nat)
    requires w < |s.workers| && s.workers[w].pc.Inserting? && KeyFree(s, s.workers[w].key) && !NoneOpen(s, s.workers[w].key)
    ensures Run(s, Loses(w), Lost(s, w))
  {
    var s1, s2 := SetPc(s, w, LostRace, NoWrite), SetPc(s, w, Ungrouped, NoWrite);
    CommitLoses(s, w);
    assert Leads(s, InsertConflict(w), s1) && Leads(s1, FallbackFails(w), s2);
    RunThree(s, InsertConflict(w), s1, FallbackFails(w), s2, Commit(w), Lost(s, w));
  }

  function Fresh(k: Key, a: nat): Worker { Worker(a, k, Idle, NoWrite) }

  // Both look before either has created the incident; then the first does.
  lemma FirstCreates(k: Key, a: nat, b: nat) returns (s: State, mid: State, steps: seq<Step>)
    requires a != b
    ensures s == State(map[], map[], [Fresh(k, a), Fresh(k, b)]) && Run(s, steps, mid)
    ensures forall x | x in steps :: !x.GroupingFails?
    ensures mid == State(map[], map[], [Worker(a, k, Linking(0), Create(0)), Worker(b, k, Inserting, NoWrite)])
  {
    s := State(map[], map[], [Fresh(k, a), Fresh(k, b)]);
    var s1 := SetPc(s, 0, Inserting, NoWrite);
    var s2 := SetPc(s1, 1, Inserting, NoWrite);
    LooksRun(s, 0, None);
    LooksRun(s1, 1, None);
    RunJoin(s, Looks(0, None), s1, Looks(1, None), s2);
    RunThen(s, Looks(0, None) + Looks(1, None), s2, Insert(0, 0));
    steps, mid := Looks(0, None) + Looks(1, None) + [Insert(0, 0)], Apply(s2, Insert(0, 0));
  }

  // The winner commits.
  lemma FirstCommits(k: Key, a: nat, b: nat) returns (s: State, won: State, steps: seq<Step>)
    requires a != b
    ensures s == State(map[], map[], [Fresh(k, a), Fresh(k, b)]) && Run(s, steps, won)
    ensures forall x | x in steps :: !x.GroupingFails?
    ensures won == State(map[0 := Incident(k, false, 1)], map[a := AlertRow(k, Some(0))],
                         [Worker(a, k, Committed(Some(0)), NoWrite), Worker(b, k, Inserting, NoWrite)])
  {
    var mid;
    s, mid, steps := FirstCreates(k, a, b);
    LandsRun(mid, 0, 0);
    won := Landed(mid, 0, 0);
    RunJoin(s, steps, mid, Lands(0), won);
    steps := steps + Lands(0);
  }

  /** The race is lost in some runs: of two workers with alerts of one problem, one ends with its alert stored
      outside the open incident of that very problem, no statement failing but the lost insert and its lookup. */
  lemma LosingTheRaceIsReachable(k: Key, a: nat, b: nat) returns (s: State, steps: seq<Step>, end: State)
    requires a != b
    ensures Start(s) && Run(s, steps, end) && forall x | x in steps :: !x.GroupingFails?
    ensures IsOpen(end, 0, k) && end.incidents[0].count == 1
    ensures end.alerts == map[a := AlertRow(k, Some(0)), b := AlertRow(k, None)]
  {
    var won;
    s, won, steps := FirstCommits(k, a, b);
    assert IsOpen(won, 0, k);
    LosesRun(won, 1);
    end := Lost(won, 1);
    RunJoin(s, steps, won, Loses(1), end);
    steps := steps + Loses(1);
  }

  // ----- between the lookup and the write -----

  // Worker v inserted the incident before the n-th statement.
  ghost predicate Inserted(past: seq<Step>, n: nat, v: nat, id: nat) {
    exists h: nat :: h < n && h < |past| && past[h] == Insert(v, id)
  }

  // The i-th statement, after the j-th, commits another worker's incident.
  ghost predicate CommitsIncident(past: seq<Step>, j: nat, i: nat, w: nat, v: nat, id: nat) {
    j < i < |past| && past[i] == Commit(v) && v != w && Inserted(past, i, v, id)
  }

  // The open incident was committed after the lookup at j by another worker with an alert of the same problem.
  ghost predicate RivalSince(past: seq<Step>, s: State, j: nat, w: nat, id: nat)
    requires w < |s.workers|
  {
    exists v: nat, i: nat :: v < |s.workers| && s.workers[v].key == s.workers[w].key && CommitsIncident(past, j, i, w, v, id)
  }

  // Worker w found nothing at j, and every incident of its problem that is open now came since.
  ghost predicate FoundNothing(past: seq<Step>, s: State, w: nat, j: nat)
    requires w < |s.workers|
  {
    && j < |past| && past[j] == Select(w, None)
    && forall id | IsOpen(s, id, s.workers[w].key) :: RivalSince(past, s, j, w, id)
  }

  ghost predicate LookedFirst(past: seq<Step>, s: State, w: nat)
    requires w < |s.workers|
  {
    s.workers[w].pc.Inserting? ==> exists j: nat :: FoundNothing(past, s, w, j)
  }

  // Worker w found the incident open at j, and if it is resolved now an operator resolved it since.
  ghost predicate FoundOpen(past: seq<Step>, s: State, w: nat, id: nat, j: nat) {
    && j < |past| && past[j] == Select(w, Some(id))
    && (id in s.incidents && s.incidents[id].resolved ==> exists i: nat :: j < i < |past| && past[i] == Resolve(id))
  }

  ghost predicate ChoseOpen(past: seq<Step>, s: State, w: nat)
    requires w < |s.workers|
  {
    var t := s.workers[w];
    && (t.pc.Updating? ==> exists j: nat :: FoundOpen(past, s, w, t.pc.hit, j))
    && (t.pending.Bump? ==> exists j: nat :: FoundOpen(past, s, w, t.pending.id, j))
  }

  // What the statements so far tell about every worker.
  ghost predicate Explained(past: seq<Step>, s: State) {
    && (forall w: nat | w < |s.workers| :: LookedFirst(past, s, w))
    && (forall w: nat | w < |s.workers| :: ChoseOpen(past, s, w))
    && (forall v: nat | v < |s.workers| && s.workers[v].pending.Create? :: Inserted(past, |past|, v, s.workers[v].pending.id))
  }

  lemma InsertedStays(past: seq<Step>, a: Step, n: nat, v: nat, id: nat)
    requires Inserted(past, n, v, id)
    ensures Inserted(past + [a], n, v, id) && Inserted(past + [a], n + 1, v, id)
  {
    var h: nat :| h < n && h < |past| && past[h] == Insert(v, id);
    assert (past + [a])[h] == Insert(v, id);
  }

  lemma CreatorsInserted(past: seq<Step>, s: State, a: Step, v: nat)
    requires Explained(past, s) && Enabled(s, a) && v < |s.workers| && Apply(s, a).workers[v].pending.Create?
    ensures Inserted(past + [a], |past| + 1, v, Apply(s, a).workers[v].pending.id)
  {
    if !a.Resolve? && a.w == v && a.Insert? {
      assert (past + [a])[|past|] == Insert(v, a.id);
    } else {
      assert s.workers[v].pending == Apply(s, a).workers[v].pending;
      InsertedStays(past, a, |past|, v, s.workers[v].pending.id);
    }
  }

  // An incident open after a statement was open before, or the statement publishes it.
  lemma OpenBeforeOrPublished(s: State, a: Step, id: nat, k: Key)
    requires Enabled(s, a) && IsOpen(Apply(s, a), id, k)
    ensures IsOpen(s, id, k) || (a.Commit? && s.workers[a.w].pending == Create(id) && s.workers[a.w].key == k)
  {
  }

  lemma RivalStays(past: seq<Step>, s: State, a: Step, j: nat, w: nat, id: nat)
    requires Enabled(s, a) && w < |s.workers| && RivalSince(past, s, j, w, id)
    ensures RivalSince(past + [a], Apply(s, a), j, w, id)
  {
    var v: nat, i: nat :| v < |s.workers| && s.workers[v].key == s.workers[w].key && CommitsIncident(past, j, i, w, v, id);
    InsertedStays(past, a, i, v, id);
    var s' := Apply(s, a);
    assert (past + [a])[i] == Commit(v);
    assert s'.workers[v].key == s.workers[v].key && s'.workers[w].key == s.workers[w].key;
    assert CommitsIncident(past + [a], j, i, w, v, id);
  }

  lemma NewRival(past: seq<Step>, s: State, a: Step, j: nat, w: nat, id: nat)
    requires Explained(past, s) && Enabled(s, a) && w < |s.workers| && s.workers[w].pc.Inserting? && j < |past|
    requires a.Commit? && s.workers[a.w].pending == Create(id) && s.workers[a.w].key == s.workers[w].key
    ensures RivalSince(past + [a], Apply(s, a), j, w, id)
  {
    InsertedStays(past, a, |past|, a.w, id);
    assert (past + [a])[|past|] == Commit(a.w);
    assert CommitsIncident(past + [a], j, |past|, w, a.w, id);
    assert Apply(s, a).workers[a.w].key == Apply(s, a).workers[w].key;
  }

  lemma LookedFirstStays(past: seq<Step>, s: State, a: Step, w: nat)
    requires Explained(past, s) && Enabled(s, a) && w < |s.workers|
    ensures LookedFirst(past + [a], Apply(s, a), w)
  {
    var s', k := Apply(s, a), s.workers[w].key;
    if s'.workers[w].pc.Inserting? {
      assert s'.workers[w].key == k;
      if s.workers[w].pc.Inserting? {
        assert LookedFirst(past, s, w);
        var j: nat :| FoundNothing(past, s, w, j);
        forall id | IsOpen(s', id, k) ensures RivalSince(past + [a], s', j, w, id) {
          OpenBeforeOrPublished(s, a, id, k);
          if IsOpen(s, id, k) { RivalStays(past, s, a, j, w, id); } else { NewRival(past, s, a, j, w, id); }
        }
        assert FoundNothing(past + [a], s', w, j);
      } else {
        assert a == Select(w, None) && s'.incidents == s.incidents;
        assert forall id :: IsOpen(s', id, k) == IsOpen(s, id, k);
        assert FoundNothing(past + [a], s', w, |past|);
      }
    }
  }

  lemma FoundOpenStays(past: seq<Step>, s: State, a: Step, w: nat, id: nat, j: nat)
    requires Enabled(s, a) && FoundOpen(past, s, w, id, j)
    ensures FoundOpen(past + [a], Apply(s, a), w, id, j)
  {
    var s', all := Apply(s, a), past + [a];
    assert all[j] == past[j];
    if id in s'.incidents && s'.incidents[id].resolved {
      if id in s.incidents && s.incidents[id].resolved {
        var i: nat :| j < i < |past| && past[i] == Resolve(id);
        assert all[i] == Resolve(id);
      } else {
        assert all[|past|] == Resolve(id);
      }
    }
  }

  lemma ChoseOpenStays(past: seq<Step>, s: State, a: Step, w: nat)
    requires Inv(s) && Explained(past, s) && Enabled(s, a) && w < |s.workers|
    ensures ChoseOpen(past + [a], Apply(s, a), w)
  {
    var s', t, t' := Apply(s, a), s.workers[w], Apply(s, a).workers[w];
    assert ChoseOpen(past, s, w) && WorkerOk(s, t);
    if t'.pc.Updating? {
      var id := t'.pc.hit;
      if t.pc == t'.pc {
        var j: nat :| FoundOpen(past, s, w, id, j);
        FoundOpenStays(past, s, a, w, id, j);
      } else {
        assert a == Select(w, Some(id)) && IsOpen(s, id, t.key);
        assert FoundOpen(past + [a], s', w, id, |past|);
      }
    }
    if t'.pending.Bump? {
      var id := t'.pending.id;
      assert t.pending == t'.pending || t.pc == Updating(id);
      var j: nat :| FoundOpen(past, s, w, id, j);
      FoundOpenStays(past, s, a, w, id, j);
    }
  }

  lemma StepIsExplained(past: seq<Step>, s: State, a: Step)
    requires Inv(s) && Explained(past, s) && Enabled(s, a)
    ensures Explained(past + [a], Apply(s, a))
  {
    var s' := Apply(s, a);
    forall w: nat | w < |s'.workers| ensures LookedFirst(past + [a], s', w) { LookedFirstStays(past, s, a, w); }
    forall w: nat | w < |s'.workers| ensures ChoseOpen(past + [a], s', w) { ChoseOpenStays(past, s, a, w); }
    forall v: nat | v < |s'.workers| && s'.workers[v].pending.Create?
      ensures Inserted(past + [a], |past + [a]|, v, s'.workers[v].pending.id)
    {
      CreatorsInserted(past, s, a, v);
    }
  }

  lemma {:induction false} RunIsExplained(past: seq<Step>, s: State, steps: seq<Step>, end: State)
    requires Inv(s) && Explained(past, s) && Run(s, steps, end)
    ensures Inv(end) && Explained(past + steps, end)
    decreases |steps|
  {
    if steps == [] {
      assert past + steps == past;
    } else {
      StepIsExplained(past, s, steps[0]);
      StepKeepsInv(s, steps[0]);
      RunIsExplained(past + [steps[0]], Apply(s, steps[0]), steps[1..], end);
      assert past + [steps[0]] + steps[1..] == past + steps;
    }
  }

  /** A race is lost to somebody: where an insert meets an open incident, its worker looked and found none, and
      since then another worker with an alert of the same problem has committed the incident it inserted. */
  lemma LostRacesHaveARival(s: State, steps: seq<Step>, end: State, w: nat) returns (j: nat, i: nat, v: nat, id: nat)
    requires Start(s) && Run(s, steps, end) && Enabled(end, InsertConflict(w))
    ensures j < i < |steps| && steps[j] == Select(w, None) && steps[i] == Commit(v) && Inserted(steps, i, v, id)
    ensures v != w && v < |end.workers| && end.workers[v].key == end.workers[w].key && IsOpen(end, id, end.workers[w].key)
  {
    RunFromStartIsExplained(s, steps, end);
    j, i, v, id := RivalOf(steps, end, w);
  }

  lemma RunFromStartIsExplained(s: State, steps: seq<Step>, end: State)
    requires Start(s) && Run(s, steps, end)
    ensures Inv(end) && Explained(steps, end)
  {
    assert Inv(s);
    assert Explained([], s);
    RunIsExplained([], s, steps, end);
    assert [] + steps == steps;
  }

  lemma RivalOf(past: seq<Step>, s: State, w: nat) returns (j: nat, i: nat, v: nat, id: nat)
    requires w < |s.workers| && s.workers[w].pc.Inserting? && !NoneOpen(s, s.workers[w].key) && LookedFirst(past, s, w)
    ensures past != [] && j < i < |past| && past[j] == Select(w, None) && CommitsIncident(past, j, i, w, v, id)
    ensures v < |s.workers| && s.workers[v].key == s.workers[w].key && IsOpen(s, id, s.workers[w].key)
  {
    j :| FoundNothing(past, s, w, j);
    id :| IsOpen(s, id, s.workers[w].key);
    assert RivalSince(past, s, j, w, id);
    v, i :| v < |s.workers| && s.workers[v].key == s.workers[w].key && CommitsIncident(past, j, i, w, v, id);
  }

  /** And a resolved incident is bumped only if an operator resolved it after the worker found it open. */
  lemma ResolvedBumpsWereChosenOpen(s: State, steps: seq<Step>, end: State, w: nat)
    requires Start(s) && Run(s, steps, end) && w < |end.workers| && end.workers[w].pending.Bump?
    requires var id := end.workers[w].pending.id; id in end.incidents && end.incidents[id].resolved
    ensures exists j: nat, i: nat :: j < i < |steps| && steps[j] == Select(w, Some(end.workers[w].pending.id))
                                     && steps[i] == Resolve(end.workers[w].pending.id)
  {
    RunFromStartIsExplained(s, steps, end);
    assert ChoseOpen(steps, end, w) && WorkerOk(end, end.workers[w]);
    var j: nat :| FoundOpen(steps, end, w, end.workers[w].pending.id, j);
  }

  // ----- bumps of a resolved incident -----

  // The worker has chosen this incident and not finished.
  predicate Bound(t: Worker, id: nat) {
    t.pc == Updating(id) || t.pc == Linking(id) || t.pc == Releasing(id) || t.pc == Grouped(id)
  }

  predicate IsResolved(s: State, id: nat) { id in s.incidents && s.incidents[id].resolved }

  // The workers bound to the incident that go on to commit their bump.
  ghost function Landing(s: State, end: State, id: nat): set<nat> {
    set w | 0 <= w < |s.workers| && w < |end.workers| && Bound(s.workers[w], id) && end.workers[w].pc == Committed(Some(id))
  }

  lemma ResolvedAfter(s: State, a: Step, id: nat)
    requires Inv(s) && Enabled(s, a) && IsResolved(s, id)
    ensures var s' := Apply(s, a);
            && IsResolved(s', id) && s'.incidents[id].key == s.incidents[id].key
            && (forall w :: a != Select(w, Some(id)))
            && s'.incidents[id].count == s.incidents[id].count + (if a.Commit? && s.workers[a.w].pc == Grouped(id) then 1 else 0)
  {
    if a.Commit? { assert WorkerOk(s, s.workers[a.w]); }
  }

  lemma WorkerAfter(s: State, a: Step, id: nat, w: nat)
    requires Inv(s) && Enabled(s, a) && IsResolved(s, id) && w < |s.workers|
    ensures var t, t' := s.workers[w], Apply(s, a).workers[w];
            && (Bound(t', id) ==> Bound(t, id))
            && (t'.pc == Committed(Some(id)) <==> t.pc == Committed(Some(id)) || (a == Commit(w) && t.pc == Grouped(id)))
            && (Bound(t, id) && !Bound(t', id) ==> Finished(t'.pc) || t'.pc.Ungrouped?)
  {
    assert WorkerOk(s, s.workers[w]);
  }

  // Only a worker already bound to a resolved incident can still commit to it.
  lemma {:induction false} OnlyTheBoundLand(s: State, steps: seq<Step>, end: State, id: nat, w: nat)
    requires Inv(s) && Run(s, steps, end) && IsResolved(s, id) && w < |s.workers| && |end.workers| == |s.workers|
    ensures end.workers[w].pc == Committed(Some(id)) ==> Bound(s.workers[w], id) || s.workers[w].pc == Committed(Some(id))
    decreases |steps|
  {
    if steps != [] {
      StepKeepsInv(s, steps[0]);
      ResolvedAfter(s, steps[0], id);
      WorkerAfter(s, steps[0], id, w);
      OnlyTheBoundLand(Apply(s, steps[0]), steps[1..], end, id, w);
    }
  }

  // What a step leaves for a worker's outcome.
  lemma OutcomeAfter(s: State, a: Step, rest: seq<Step>, end: State, id: nat, w: nat)
    requires Inv(s) && Enabled(s, a) && IsResolved(s, id) && Run(Apply(s, a), rest, end)
    requires |end.workers| == |s.workers| && w < |s.workers|
    ensures var t' := Apply(s, a).workers[w];
            && (end.workers[w].pc == Committed(Some(id)) ==> Bound(t', id) || t'.pc == Committed(Some(id)))
            && (Finished(t'.pc) ==> end.workers[w] == t')
  {
    var s' := Apply(s, a);
    StepKeepsInv(s, a);
    ResolvedAfter(s, a, id);
    OnlyTheBoundLand(s', rest, end, id, w);
    if Finished(s'.workers[w].pc) { FinishedStays(s', rest, end, w); }
  }

  lemma LandsNowOrLater(s: State, a: Step, rest: seq<Step>, end: State, id: nat, w: nat)
    requires Inv(s) && Enabled(s, a) && IsResolved(s, id) && Run(Apply(s, a), rest, end)
    requires |end.workers| == |s.workers| && w < |s.workers|
    ensures w in Landing(s, end, id) <==> w in Landing(Apply(s, a), end, id) || (a == Commit(w) && s.workers[w].pc == Grouped(id))
    ensures !(w in Landing(Apply(s, a), end, id) && a == Commit(w))
  {
    WorkerAfter(s, a, id, w);
    OutcomeAfter(s, a, rest, end, id, w);
  }

  // The worker that commits to the incident in this step, if one does.
  function Now(s: State, a: Step, id: nat): set<nat> {
    if a.Commit? && a.w < |s.workers| && s.workers[a.w].pc == Grouped(id) then {a.w} else {}
  }

  lemma SetsSplit(was: set<nat>, later: set<nat>, now: set<nat>, n: nat)
    requires forall w | w in was || w in later || w in now :: w < n
    requires forall w | 0 <= w < n :: (w in was <==> w in later || w in now) && !(w in later && w in now)
    ensures was == later + now && later * now == {}
  {
  }

  lemma LandingSplits(s: State, a: Step, rest: seq<Step>, end: State, id: nat)
    requires Inv(s) && Enabled(s, a) && IsResolved(s, id) && Run(Apply(s, a), rest, end) && |end.workers| == |s.workers|
    ensures Landing(s, end, id) == Landing(Apply(s, a), end, id) + Now(s, a, id)
    ensures Landing(Apply(s, a), end, id) * Now(s, a, id) == {}
  {
    AlertsStay(s, a);
    var was, later, now := Landing(s, end, id), Landing(Apply(s, a), end, id), Now(s, a, id);
    forall w | 0 <= w < |s.workers| ensures (w in was <==> w in later || w in now) && !(w in later && w in now) {
      LandsNowOrLater(s, a, rest, end, id, w);
    }
    SetsSplit(was, later, now, |s.workers|);
  }

  lemma LandingAfter(s: State, a: Step, rest: seq<Step>, end: State, id: nat)
    requires Inv(s) && Enabled(s, a) && IsResolved(s, id) && Run(Apply(s, a), rest, end) && |end.workers| == |s.workers|
    ensures |Landing(s, end, id)| == |Landing(Apply(s, a), end, id)| + (if a.Commit? && s.workers[a.w].pc == Grouped(id) then 1 else 0)
  {
    LandingSplits(s, a, rest, end, id);
  }

  /** A resolved incident stays resolved and is never chosen again; its count grows by exactly the number of
      workers that had already chosen it and go on to commit. It is frozen exactly when there is none. */
  lemma {:induction false} ResolvedCountsGrowByTheBound(s: State, steps: seq<Step>, end: State, id: nat)
    requires Inv(s) && Run(s, steps, end) && IsResolved(s, id)
    ensures IsResolved(end, id) && end.incidents[id].key == s.incidents[id].key
    ensures forall w :: Select(w, Some(id)) !in steps
    ensures end.incidents[id].count == s.incidents[id].count + |Landing(s, end, id)|
    ensures end.incidents[id] == s.incidents[id] <==> Landing(s, end, id) == {}
    decreases |steps|
  {
    if steps == [] {
      assert Landing(s, end, id) == {};
    } else {
      var a, s' := steps[0], Apply(s, steps[0]);
      NoAlertIsLost(s, steps, end);
      StepKeepsInv(s, a);
      ResolvedAfter(s, a, id);
      LandingAfter(s, a, steps[1..], end, id);
      ResolvedCountsGrowByTheBound(s', steps[1..], end, id);
      assert forall b :: b in steps <==> b == a || b in steps[1..];
    }
  }

  function AlertsOf(ws: seq<Worker>, ids: set<nat>): set<nat> {
    set w | w in ids && w < |ws| :: ws[w].alert
  }

  lemma SameAlerts(ws: seq<Worker>, ws': seq<Worker>, later: set<nat>, now: set<nat>)
    requires |ws'| == |ws| && forall w | 0 <= w < |ws| :: ws'[w].alert == ws[w].alert
    ensures AlertsOf(ws, later + now) == AlertsOf(ws', later) + AlertsOf(ws, now)
  {
    forall x ensures x in AlertsOf(ws, later + now) <==> x in AlertsOf(ws', later) + AlertsOf(ws, now) {
      if x in AlertsOf(ws, later + now) {
        var w :| w in later + now && w < |ws| && ws[w].alert == x;
        assert w in later ==> ws'[w].alert in AlertsOf(ws', later);
      }
      if x in AlertsOf(ws', later) {
        var w :| w in later && w < |ws'| && ws'[w].alert == x;
        assert ws[w].alert in AlertsOf(ws, later + now);
      }
      if x in AlertsOf(ws, now) {
        var w :| w in now && w < |ws| && ws[w].alert == x;
        assert ws[w].alert in AlertsOf(ws, later + now);
      }
    }
  }

  lemma AlertsStay(s: State, a: Step)
    requires Enabled(s, a)
    ensures var ws' := Apply(s, a).workers;
            |ws'| == |s.workers| && forall w | 0 <= w < |s.workers| :: ws'[w].alert == s.workers[w].alert
  {
  }

  // The row a commit stores.
  lemma CommitStores(s: State, w: nat)
    requires Inv(s) && Enabled(s, Commit(w))
    ensures var t := s.workers[w];
            && t.alert !in s.alerts
            && Apply(s, Commit(w)).alerts == s.alerts[t.alert := AlertRow(t.key, if t.pc.Grouped? then Some(t.pc.id) else None)]
  {
    assert WorkerOk(s, s.workers[w]);
  }

  lemma LinkedAfter(s: State, a: Step, id: nat)
    requires Inv(s) && Enabled(s, a)
    ensures LinkedTo(Apply(s, a).alerts, id) == LinkedTo(s.alerts, id) + AlertsOf(s.workers, Now(s, a, id))
  {
    if a.Commit? {
      var t := s.workers[a.w];
      CommitStores(s, a.w);
      LinkedToAfterCommit(s.alerts, t.alert, AlertRow(t.key, if t.pc.Grouped? then Some(t.pc.id) else None), id);
      if t.pc == Grouped(id) { assert AlertsOf(s.workers, {a.w}) == {t.alert}; }
    } else {
      assert Apply(s, a).alerts == s.alerts;
    }
  }

  lemma {:induction false} LinkedGrowsByLanding(s: State, steps: seq<Step>, end: State, id: nat)
    requires Inv(s) && Run(s, steps, end) && IsResolved(s, id)
    ensures LinkedTo(end.alerts, id) == LinkedTo(s.alerts, id) + AlertsOf(s.workers, Landing(s, end, id))
    decreases |steps|
  {
    if steps == [] {
      assert Landing(s, end, id) == {};
    } else {
      StepKeepsInv(s, steps[0]);
      ResolvedAfter(s, steps[0], id);
      WorkersStay(s, steps, end);
      LinkedStep(s, steps[0], steps[1..], end, id);
      LinkedGrowsByLanding(Apply(s, steps[0]), steps[1..], end, id);
    }
  }

  lemma Regroup(linked: set<nat>, linked': set<nat>, landing: set<nat>, landing': set<nat>, now: set<nat>)
    requires linked' == linked + now && landing == landing' + now
    ensures linked + landing == linked' + landing'
  {
  }

  lemma LinkedStep(s: State, a: Step, rest: seq<Step>, end: State, id: nat)
    requires Inv(s) && Enabled(s, a) && IsResolved(s, id) && Run(Apply(s, a), rest, end) && |end.workers| == |s.workers|
    ensures var s' := Apply(s, a);
            LinkedTo(s.alerts, id) + AlertsOf(s.workers, Landing(s, end, id))
            == LinkedTo(s'.alerts, id) + AlertsOf(s'.workers, Landing(s', end, id))
  {
    var s', now := Apply(s, a), Now(s, a, id);
    LandingSplits(s, a, rest, end, id);
    AlertsStay(s, a);
    LinkedAfter(s, a, id);
    SameAlerts(s.workers, s'.workers, Landing(s', end, id), now);
    Regroup(LinkedTo(s.alerts, id), LinkedTo(s'.alerts, id), AlertsOf(s.workers, Landing(s, end, id)),
            AlertsOf(s'.workers, Landing(s', end, id)), AlertsOf(s.workers, now));
  }

  lemma {:induction false} WorkersStay(s: State, steps: seq<Step>, end: State)
    requires Run(s, steps, end)
    ensures |end.workers| == |s.workers|
    decreases |steps|
  {
    if steps != [] { WorkersStay(Apply(s, steps[0]), steps[1..], end); }
  }

  /** A resolved incident gains exactly the alerts of those workers. They are new and unresolved, and whatever
      closed the incident did not see them: they are left unresolved under a resolved incident. */
  lemma ResolvedIncidentsGainTheirAlerts(s: State, steps: seq<Step>, end: State, id: nat)
    requires Inv(s) && Run(s, steps, end) && IsResolved(s, id)
    ensures var gained := AlertsOf(s.workers, Landing(s, end, id));
            LinkedTo(end.alerts, id) == LinkedTo(s.alerts, id) + gained && forall x | x in gained :: x !in s.alerts
  {
    LinkedGrowsByLanding(s, steps, end, id);
    forall w | w in Landing(s, end, id) ensures s.workers[w].alert !in s.alerts {
      assert WorkerOk(s, s.workers[w]);
    }
  }

  // A worker at its UPDATE of an incident an operator resolves just before.
  lemma ResolveThenUpdate(k: Key, a: nat) returns (s: State, steps: seq<Step>, end: State)
    ensures s == State(map[0 := Incident(k, false, 0)], map[], [Fresh(k, a)]) && Run(s, steps, end)
    ensures end == State(map[0 := Incident(k, true, 0)], map[], [Worker(a, k, Linking(0), Bump(0))])
  {
    s := State(map[0 := Incident(k, false, 0)], map[], [Fresh(k, a)]);
    assert IsOpen(s, 0, k);
    LooksRun(s, 0, Some(0));
    var s1 := State(map[0 := Incident(k, false, 0)], map[], [Worker(a, k, Updating(0), NoWrite)]);
    assert s1 == SetPc(s, 0, Updating(0), NoWrite);
    RunThen(s, Looks(0, Some(0)), s1, Resolve(0));
    var s2 := State(map[0 := Incident(k, true, 0)], map[], [Worker(a, k, Updating(0), NoWrite)]);
    assert Leads(s1, Resolve(0), s2);
    RunThen(s, Looks(0, Some(0)) + [Resolve(0)], s2, Update(0));
    steps, end := Looks(0, Some(0)) + [Resolve(0)] + [Update(0)], Apply(s2, Update(0));
  }

  /** Such a bump is reachable: the worker chose the incident before the operator resolved it. */
  lemma ResolvedIncidentCanBeBumped(k: Key, a: nat) returns (s: State, steps: seq<Step>, end: State)
    ensures Start(s) && Run(s, steps, end)
    ensures s.incidents == map[0 := Incident(k, false, 0)] && end.incidents == map[0 := Incident(k, true, 1)]
    ensures end.alerts == map[a := AlertRow(k, Some(0))]
  {
    var mid;
    s, steps, mid := ResolveThenUpdate(k, a);
    assert LinkedTo(s.alerts, 0) == {};
    LandsRun(mid, 0, 0);
    end := Landed(mid, 0, 0);
    RunJoin(s, steps, mid, Lands(0), end);
    steps := steps + Lands(0);
  }

  // ----- liveness -----

  function Rank(pc: Pc): nat {
    match pc
    case Idle => 10
    case AlertInserted => 9
    case Selecting => 8
    case Inserting => 7
    case LostRace => 6
    case Updating(_) => 5
    case Linking(_) => 4
    case Releasing(_) => 3
    case Grouped(_) => 2
    case Ungrouped => 1
    case _ => 0
  }

  function Work(ws: seq<Worker>): nat {
    if ws == [] then 0 else Rank(ws[0].pc) + Work(ws[1..])
  }

  lemma {:induction false} WorkAfter(ws: seq<Worker>, w: nat, t: Worker)
    requires w < |ws|
    ensures Work(ws[w := t]) == Work(ws) - Rank(ws[w].pc) + Rank(t.pc)
  {
    if w == 0 {
      assert ws[w := t][1..] == ws[1..];
    } else {
      assert ws[w := t][1..] == ws[1..][w - 1 := t];
      WorkAfter(ws[1..], w - 1, t);
    }
  }

  lemma StepCostsWork(s: State, a: Step)
    requires Enabled(s, a)
    ensures Work(Apply(s, a).workers) + (if a.Resolve? then 0 else 1) <= Work(s.workers)
  {
    if !a.Resolve? {
      var t' := Apply(s, a).workers[a.w];
      WorkAfter(s.workers, a.w, t');
      assert Rank(t'.pc) < Rank(s.workers[a.w].pc);
    }
  }

  function StatementsIn(steps: seq<Step>): nat {
    if steps == [] then 0 else (if steps[0].Resolve? then 0 else 1) + StatementsIn(steps[1..])
  }

  /** The workers of any run make at most as many statements as their pcs allow: no retry loop. */
  lemma {:induction false} RunsAreBounded(s: State, steps: seq<Step>, end: State)
    requires Run(s, steps, end)
    ensures StatementsIn(steps) + Work(end.workers) <= Work(s.workers)
    decreases |steps|
  {
    if steps != [] {
      StepCostsWork(s, steps[0]);
      RunsAreBounded(Apply(s, steps[0]), steps[1..], end);
    }
  }

  lemma UnusedExists(s: State) returns (id: nat)
    ensures Unused(s, id)
  {
    var taken := s.incidents.Keys + set j | 0 <= j < |s.workers| && s.workers[j].pending.Create? :: s.workers[j].pending.id;
    id := OutsideOf(taken);
    forall j | 0 <= j < |s.workers| && s.workers[j].pending.Create? ensures s.workers[j].pending.id != id {
      assert s.workers[j].pending.id in taken;
    }
  }

  lemma {:induction false} OutsideOf(taken: set<nat>) returns (id: nat)
    ensures forall x | x in taken :: x < id
    decreases |taken|
  {
    if taken == {} { return 0; }
    var x :| x in taken;
    var rest := taken - {x};
    var y := OutsideOf(rest);
    id := if x < y then y else x + 1;
    forall z | z in taken ensures z < id { assert z == x || z in rest; }
  }

  lemma HolderCanMove(s: State, j: nat)
    requires Inv(s) && j < |s.workers| && !s.workers[j].pending.NoWrite?
    ensures Enabled(s, Link(j)) || Enabled(s, Release(j)) || Enabled(s, Commit(j))
  {
  }

  /** No deadlock: while some worker is unfinished a statement can be executed, and no failure is needed for
      it but that of the lookup after a lost insert. */
  lemma WaitingNeverDeadlocks(s: State, w: nat) returns (a: Step)
    requires Inv(s) && w < |s.workers| && !Finished(s.workers[w].pc)
    ensures Enabled(s, a) && !a.Resolve? && !a.Abort? && !a.GroupingFails?
  {
    var t := s.workers[w];
    match t.pc
    case Idle => a := InsertAlert(w);
    case AlertInserted => a := OpenSavepoint(w);
    case Selecting =>
      if !NoneOpen(s, t.key) {
        var id :| id in s.incidents && IsOpen(s, id, t.key);
        return Select(w, Some(id));
      }
      a := Select(w, None);
    case LostRace => a := FallbackFails(w);
    case Updating(id) =>
      if RowFree(s, id) { return Update(w); }
      var j: nat :| j < |s.workers| && s.workers[j].pending == Bump(id);
      HolderCanMove(s, j);
      a := if Enabled(s, Link(j)) then Link(j) else if Enabled(s, Release(j)) then Release(j) else Commit(j);
    case Inserting =>
      if KeyFree(s, t.key) {
        if !NoneOpen(s, t.key) { return InsertConflict(w); }
        var id := UnusedExists(s);
        return Insert(w, id);
      }
      var j: nat :| j < |s.workers| && s.workers[j].pending.Create?;
      HolderCanMove(s, j);
      a := if Enabled(s, Link(j)) then Link(j) else if Enabled(s, Release(j)) then Release(j) else Commit(j);
    case Linking(_) => a := Link(w);
    case Releasing(_) => a := Release(w);
    case Grouped(_) => a := Commit(w);
    case Ungrouped => a := Commit(w);
  }
}
