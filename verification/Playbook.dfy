/** The multi-step response engine: a run executes its steps in order, pauses at every containment step
    for a human decision, and ends completed, failed or rejected. */
module Playbook {
  import opened Wrappers
  import Text

  datatype Kind = Notify | Comment | ResponseAction | Unknown(name: string)

  datatype Step = Step(kind: Kind, channel: string, text: string,
                       integration: string, action: string, target: string, targetFrom: string)

  datatype StepStatus = Pending | Succeeded | Failed | Skipped | AwaitingApproval

  datatype RunStatus = Running | Paused | Completed | Broken | Rejected

  datatype Row = Row(step: Step, status: StepStatus)

  // A containment action sent to a vendor.
  datatype Firing = Firing(step: nat, target: string)

  // fired is the log of these.
  datatype Run = Run(status: RunStatus, current: nat, rows: seq<Row>, bound: bool,
                     context: map<string, string>, fired: seq<Firing>)

  // ----- the step vocabulary -----

  predicate KnownChannel(c: string) { c == "slack" || c == "teams" || c == "email" || c == "pagerduty" || c == "opsgenie" }

  predicate NeedsApproval(kind: Kind) { kind.ResponseAction? }

  predicate StepOk(s: Step) {
    match s.kind
    case Notify => KnownChannel(Text.TrimSpace(s.channel))
    case Comment => Text.TrimSpace(s.text) != ""
    case ResponseAction =>
      && Text.TrimSpace(s.integration) != "" && Text.TrimSpace(s.action) != ""
      && (Text.TrimSpace(s.target) != "" || Text.TrimSpace(s.targetFrom) != "")
    case Unknown(_) => false
  }

  predicate ValidSteps(steps: seq<Step>) {
    steps != [] && forall i | 0 <= i < |steps| :: StepOk(steps[i])
  }

  // Reports the first offending step; None is success.
  method ValidateSteps(steps: seq<Step>) returns (bad: Option<nat>)
    ensures bad.None? <==> ValidSteps(steps)
    ensures bad.Some? && steps != [] ==>
      bad.value < |steps| && !StepOk(steps[bad.value]) && forall i | 0 <= i < bad.value :: StepOk(steps[i])
  {
    if |steps| == 0 { return Some(0); }
    for i := 0 to |steps|
      invariant forall j | 0 <= j < i :: StepOk(steps[j])
    {
      if !StepOk(steps[i]) { return Some(i); }
    }
    return None;
  }

  function ResolveTarget(s: Step, context: map<string, string>): Option<string> {
    var literal := Text.TrimSpace(s.target);
    if literal != "" then Some(literal)
    else if s.targetFrom in context && Text.TrimSpace(context[s.targetFrom]) != "" then Some(context[s.targetFrom])
    else None
  }

  // What executing a notify or comment step records; delivered is what the outside world answered.
  function AutoOutcome(s: Step, bound: bool, delivered: bool): StepStatus {
    match s.kind
    case Comment => if !bound then Skipped else if delivered then Succeeded else Failed
    case Notify => if KnownChannel(s.channel) && delivered then Succeeded else Failed
    case _ => Failed
  }

  /** Validation trims the channel, execution does not: a validated notify step can be delivered exactly
      when its channel carries no surrounding white space. */
  lemma PaddedChannelNeverDelivers(s: Step, bound: bool)
    requires s.kind.Notify? && StepOk(s)
    ensures AutoOutcome(s, bound, true) == Succeeded <==> Text.TrimSpace(s.channel) == s.channel
  {
  }

  // ----- the engine -----

  function SetStep(r: Run, i: nat, status: StepStatus): Run
    requires i < |r.rows|
  {
    r.(rows := r.rows[i := r.rows[i].(status := status)])
  }

  function AdvanceFrom(r: Run, i: nat, delivered: nat -> bool): Run
    requires i <= |r.rows|
    decreases |r.rows| - i
  {
    if i == |r.rows| then r.(status := Completed, current := i)
    else if NeedsApproval(r.rows[i].step.kind) then SetStep(r, i, AwaitingApproval).(status := Paused, current := i)
    else AdvanceFrom(SetStep(r, i, AutoOutcome(r.rows[i].step, r.bound, delivered(i))), i + 1, delivered)
  }

  function Start(steps: seq<Step>, enabled: bool, bound: bool, context: map<string, string>, delivered: nat -> bool): Option<Run> {
    if !enabled || !ValidSteps(steps) then None
    else
      var rows := seq(|steps|, i requires 0 <= i < |steps| => Row(steps[i], Pending));
      Some(AdvanceFrom(Run(Running, 0, rows, bound, context, []), 0, delivered))
  }

  // None is an error answer: nothing changed.
  function Approve(r: Run, contained: bool, delivered: nat -> bool): Option<Run> {
    if r.current >= |r.rows| then None
    else
      var row := r.rows[r.current];
      if !NeedsApproval(row.step.kind) || row.status != AwaitingApproval then None
      else if ResolveTarget(row.step, r.context).None? then Some(SetStep(r, r.current, Failed).(status := Broken))
      else
        var f := r.(fired := r.fired + [Firing(r.current, ResolveTarget(row.step, r.context).value)]);
        if !contained then Some(SetStep(f, r.current, Failed).(status := Broken))
        else Some(AdvanceFrom(SetStep(f, r.current, Succeeded).(status := Running, current := r.current + 1), r.current + 1, delivered))
  }

  function Reject(r: Run): Option<Run> {
    if r.status != Paused then None
    else
      Some(r.(status := Rejected,
              rows := seq(|r.rows|, i requires 0 <= i < |r.rows| =>
                if r.rows[i].status == AwaitingApproval then r.rows[i].(status := Skipped) else r.rows[i])))
  }

  // ----- what a step is sent to -----

  // The step names a target of its own, or takes one from the context.
  predicate HasTarget(s: Step, context: map<string, string>) {
    !Text.Blank(s.target) || (s.targetFrom in context && !Text.Blank(context[s.targetFrom]))
  }

  // Its own target, without the white space around it, goes first.
  predicate IsTarget(s: Step, context: map<string, string>, target: string) {
    if !Text.Blank(s.target) then target == Text.TrimSpace(s.target)
    else s.targetFrom in context && !Text.Blank(context[s.targetFrom]) && target == context[s.targetFrom]
  }

  /** A target is found exactly when there is one, and then it is that. */
  lemma TargetsResolve(s: Step, context: map<string, string>)
    ensures ResolveTarget(s, context).Some? <==> HasTarget(s, context)
    ensures ResolveTarget(s, context).Some? ==> IsTarget(s, context, ResolveTarget(s, context).value)
  {
    Text.BlankIsTrimmedAway(s.target);
    if s.targetFrom in context { Text.BlankIsTrimmedAway(context[s.targetFrom]); }
  }

  // ----- what validation and the automatic steps come to -----

  /** A step is well formed exactly when it is a notification to one of the five channels, white space around the
      name aside, a comment with some text, or a containment with an integration, an action, and a target or a
      context key, none of them blank. */
  lemma WellFormedSteps(s: Step)
    ensures StepOk(s) <==>
      || (s.kind.Notify? && Text.TrimSpace(s.channel) in ["slack", "teams", "email", "pagerduty", "opsgenie"])
      || (s.kind.Comment? && !Text.Blank(s.text))
      || (s.kind.ResponseAction? && !Text.Blank(s.integration) && !Text.Blank(s.action)
          && (!Text.Blank(s.target) || !Text.Blank(s.targetFrom)))
  {
    Text.BlankIsTrimmedAway(s.text);
    Text.BlankIsTrimmedAway(s.integration);
    Text.BlankIsTrimmedAway(s.action);
    Text.BlankIsTrimmedAway(s.target);
    Text.BlankIsTrimmedAway(s.targetFrom);
  }

  /** An automatic step succeeds exactly when it reaches its destination: a comment needs an incident to go to and
      is skipped without one, a notification one of the five channels by its exact name. */
  lemma AutomaticOutcomes(s: Step, bound: bool, delivered: bool)
    requires StepOk(s) && !s.kind.ResponseAction?
    ensures var o := AutoOutcome(s, bound, delivered);
      && (o == Succeeded || o == Failed || o == Skipped)
      && (o == Skipped <==> s.kind.Comment? && !bound)
      && (o == Succeeded <==> delivered && (s.kind.Comment? ==> bound) && (s.kind.Notify? ==> Text.TrimSpace(s.channel) == s.channel))
  {
    if s.kind.Notify? { PaddedChannelNeverDelivers(s, bound); }
  }

  // ----- what holds between any two calls -----

  // The indices below n of the containment steps, in playbook order.
  function Containments(steps: seq<Step>, n: nat): seq<nat>
    requires n <= |steps|
  {
    if n == 0 then []
    else Containments(steps, n - 1) + (if NeedsApproval(steps[n - 1].kind) then [n - 1] else [])
  }

  ghost predicate Materialized(steps: seq<Step>, r: Run) {
    |r.rows| == |steps| && forall i | 0 <= i < |steps| :: r.rows[i].step == steps[i]
  }

  // Terminal, and successful where it is a containment.
  predicate Settled(row: Row) {
    row.status != Pending && row.status != AwaitingApproval && (NeedsApproval(row.step.kind) ==> row.status == Succeeded)
  }

  ghost predicate SettledBelow(r: Run, n: nat) {
    n <= |r.rows| && forall i | 0 <= i < n :: Settled(r.rows[i])
  }

  ghost predicate PendingFrom(r: Run, n: nat) {
    forall i | n <= i < |r.rows| :: r.rows[i].status == Pending
  }

  function Indices(fired: seq<Firing>): seq<nat> { seq(|fired|, i requires 0 <= i < |fired| => fired[i].step) }

  lemma IndicesThen(fired: seq<Firing>, f: Firing)
    ensures Indices(fired + [f]) == Indices(fired) + [f.step]
  {
  }

  // Everything was sent to the target of its step.
  ghost predicate TargetsOk(steps: seq<Step>, r: Run) {
    forall f | f in r.fired :: f.step < |steps| && IsTarget(steps[f.step], r.context, f.target)
  }

  ghost predicate Going(steps: seq<Step>, r: Run, i: nat) {
    Materialized(steps, r) && SettledBelow(r, i) && PendingFrom(r, i) && Indices(r.fired) == Containments(steps, i) && TargetsOk(steps, r)
  }

  ghost predicate StoppedAt(r: Run, status: StepStatus) {
    r.current < |r.rows| && NeedsApproval(r.rows[r.current].step.kind) && r.rows[r.current].status == status
  }

  ghost predicate Inv(steps: seq<Step>, r: Run) {
    && Materialized(steps, r)
    && SettledBelow(r, r.current)
    && PendingFrom(r, r.current + 1)
    && TargetsOk(steps, r)
    && var before, fired := Containments(steps, r.current), Indices(r.fired);
       match r.status
       case Running => false
       case Paused => StoppedAt(r, AwaitingApproval) && fired == before
       case Completed => r.current == |r.rows| && fired == before
       case Broken => StoppedAt(r, Failed) && (fired == before || fired == before + [r.current])
       case Rejected => StoppedAt(r, Skipped) && fired == before
  }

  lemma {:induction false} AdvanceStops(steps: seq<Step>, r: Run, i: nat, delivered: nat -> bool)
    requires Going(steps, r, i)
    ensures var end := AdvanceFrom(r, i, delivered);
            && Inv(steps, end) && end.current >= i && (end.status == Paused || end.status == Completed)
            && end.fired == r.fired && end.context == r.context && end.bound == r.bound
    decreases |r.rows| - i
  {
    if i == |r.rows| {
      CompletingIsOk(steps, r);
    } else if NeedsApproval(r.rows[i].step.kind) {
      PausingIsOk(steps, r, i);
    } else {
      var status := AutoOutcome(r.rows[i].step, r.bound, delivered(i));
      AutoKeepsGoing(steps, r, i, status);
      AdvanceStops(steps, SetStep(r, i, status), i + 1, delivered);
    }
  }

  lemma CompletingIsOk(steps: seq<Step>, r: Run)
    requires Going(steps, r, |r.rows|)
    ensures Inv(steps, r.(status := Completed, current := |r.rows|))
  {
  }

  lemma PausingIsOk(steps: seq<Step>, r: Run, i: nat)
    requires Going(steps, r, i) && i < |r.rows| && NeedsApproval(r.rows[i].step.kind)
    ensures Inv(steps, SetStep(r, i, AwaitingApproval).(status := Paused, current := i))
  {
  }

  lemma AutoKeepsGoing(steps: seq<Step>, r: Run, i: nat, status: StepStatus)
    requires Going(steps, r, i) && i < |r.rows| && !NeedsApproval(r.rows[i].step.kind)
    requires status != Pending && status != AwaitingApproval
    ensures Going(steps, SetStep(r, i, status), i + 1)
  {
  }

  /** Advancing runs every step up to the first containment, each with its own outcome, and touches no other:
      it stops at that containment, or past the end when there is none. */
  lemma {:induction false} AdvanceRunsUpToTheNextContainment(r: Run, i: nat, delivered: nat -> bool)
    requires i <= |r.rows|
    ensures var end := AdvanceFrom(r, i, delivered);
            && |end.rows| == |r.rows| && i <= end.current <= |r.rows|
            && (forall k | i <= k < end.current :: !NeedsApproval(r.rows[k].step.kind) &&
                  end.rows[k] == Row(r.rows[k].step, AutoOutcome(r.rows[k].step, r.bound, delivered(k))))
            && (forall k | 0 <= k < |r.rows| && (k < i || end.current < k) :: end.rows[k] == r.rows[k])
            && (if end.current < |r.rows|
                then NeedsApproval(r.rows[end.current].step.kind) && end.status == Paused &&
                     end.rows[end.current] == Row(r.rows[end.current].step, AwaitingApproval)
                else end.status == Completed)
    decreases |r.rows| - i
  {
    if i < |r.rows| && !NeedsApproval(r.rows[i].step.kind) {
      var r1 := SetStep(r, i, AutoOutcome(r.rows[i].step, r.bound, delivered(i)));
      AdvanceRunsUpToTheNextContainment(r1, i + 1, delivered);
      var end := AdvanceFrom(r, i, delivered);
      assert end == AdvanceFrom(r1, i + 1, delivered) && end.rows[i] == r1.rows[i];
      assert forall k | 0 <= k < |r.rows| && k != i :: r1.rows[k] == r.rows[k];
    }
  }

  /** A run waits for approval exactly while some step does; that step is then the only one, it is the
      containment at the current step, everything before it is settled and everything after it pending. */
  lemma OneStepAwaits(steps: seq<Step>, r: Run)
    requires Inv(steps, r)
    ensures r.status == Paused <==> exists i :: 0 <= i < |r.rows| && r.rows[i].status == AwaitingApproval
    ensures forall i | 0 <= i < |r.rows| && r.rows[i].status == AwaitingApproval ::
              i == r.current && steps[i].kind.ResponseAction? && SettledBelow(r, i) && PendingFrom(r, i + 1)
  {
  }

  /** A run is created exactly for an enabled, valid playbook; it fires nothing and stops paused or completed,
      and validation keeps step kinds the engine cannot execute out of every run. */
  lemma StartEstablishesInv(steps: seq<Step>, enabled: bool, bound: bool, context: map<string, string>, delivered: nat -> bool)
    ensures Start(steps, enabled, bound, context, delivered).Some? <==> enabled && ValidSteps(steps)
    ensures var r := Start(steps, enabled, bound, context, delivered);
            r.Some? ==>
              && Inv(steps, r.value) && r.value.fired == [] && (r.value.status == Paused || r.value.status == Completed)
              && r.value.context == context && r.value.bound == bound
              && forall i | 0 <= i < |r.value.rows| :: !r.value.rows[i].step.kind.Unknown?
  {
    if enabled && ValidSteps(steps) {
      var rows := seq(|steps|, i requires 0 <= i < |steps| => Row(steps[i], Pending));
      AdvanceStops(steps, Run(Running, 0, rows, bound, context, []), 0, delivered);
    }
  }

  // The run with the awaiting containment sent out.
  function Fired(r: Run, target: string): Run { r.(fired := r.fired + [Firing(r.current, target)]) }

  // The run just past the awaiting containment, when it was executed.
  lemma ContainedKeepsGoing(steps: seq<Step>, r: Run, target: string)
    requires Inv(steps, r) && r.status == Paused && IsTarget(steps[r.current], r.context, target)
    ensures Going(steps, SetStep(Fired(r, target), r.current, Succeeded).(status := Running, current := r.current + 1), r.current + 1)
  {
    IndicesThen(r.fired, Firing(r.current, target));
  }

  lemma BrokenKeepsInv(steps: seq<Step>, r: Run)
    requires Inv(steps, r) && r.status == Paused
    ensures Inv(steps, SetStep(r, r.current, Failed).(status := Broken))
  {
  }

  lemma FailedKeepsInv(steps: seq<Step>, r: Run, target: string)
    requires Inv(steps, r) && r.status == Paused && IsTarget(steps[r.current], r.context, target)
    ensures Inv(steps, SetStep(Fired(r, target), r.current, Failed).(status := Broken))
  {
    IndicesThen(r.fired, Firing(r.current, target));
  }

  // What an approval sends out: the awaiting step to its target, or nothing if it has none.
  ghost predicate Sends(s: Step, context: map<string, string>, i: nat, was: seq<Firing>, now: seq<Firing>) {
    if HasTarget(s, context)
    then exists target :: IsTarget(s, context, target) && now == was + [Firing(i, target)]
    else now == was
  }

  /** Approving succeeds exactly on a paused run; it sends the awaiting step to its target exactly when it has one,
      once and nothing else, and then the run is paused at a later step, completed, or broken at this one. */
  lemma ApproveKeepsInv(steps: seq<Step>, r: Run, contained: bool, delivered: nat -> bool)
    requires Inv(steps, r)
    ensures Approve(r, contained, delivered).Some? <==> r.status == Paused
    ensures r.status == Paused ==>
      var end, s := Approve(r, contained, delivered).value, steps[r.current];
      && Inv(steps, end) && end.context == r.context && end.bound == r.bound
      && Sends(s, r.context, r.current, r.fired, end.fired)
      && (if HasTarget(s, r.context) && contained
          then end.current > r.current && (end.status == Paused || end.status == Completed)
          else end.current == r.current && end.status == Broken)
  {
    if r.status == Paused {
      TargetsResolve(steps[r.current], r.context);
      if !HasTarget(steps[r.current], r.context) {
        BrokenKeepsInv(steps, r);
      } else {
        var target := ResolveTarget(steps[r.current], r.context).value;
        if contained {
          ApproveContained(steps, r, target, delivered);
        } else {
          FailedKeepsInv(steps, r, target);
        }
      }
    }
  }

  lemma ApproveContained(steps: seq<Step>, r: Run, target: string, delivered: nat -> bool)
    requires Inv(steps, r) && r.status == Paused && ResolveTarget(steps[r.current], r.context) == Some(target)
    ensures var end := Approve(r, true, delivered);
      && end.Some? && Inv(steps, end.value) && end.value.fired == r.fired + [Firing(r.current, target)]
      && end.value.context == r.context && end.value.bound == r.bound
      && end.value.current > r.current && (end.value.status == Paused || end.value.status == Completed)
  {
    TargetsResolve(steps[r.current], r.context);
    ContainedKeepsGoing(steps, r, target);
    var f := SetStep(Fired(r, target), r.current, Succeeded).(status := Running, current := r.current + 1);
    AdvanceStops(steps, f, r.current + 1, delivered);
  }

  /** Rejecting succeeds exactly on a paused run, fires nothing and skips just the awaiting step. */
  lemma RejectKeepsInv(steps: seq<Step>, r: Run)
    requires Inv(steps, r)
    ensures Reject(r).Some? <==> r.status == Paused
    ensures r.status == Paused ==>
      Inv(steps, Reject(r).value) && Reject(r).value == SetStep(r, r.current, Skipped).(status := Rejected)
  {
  }

  // ----- whole runs -----

  datatype Call = ApproveCall(contained: bool, delivered: nat -> bool) | RejectCall

  // An erroneous call leaves the run as it is.
  function After(r: Run, c: Call): Run {
    var answer := match c
      case ApproveCall(contained, delivered) => Approve(r, contained, delivered)
      case RejectCall => Reject(r);
    if answer.Some? then answer.value else r
  }

  function AfterAll(r: Run, calls: seq<Call>): Run
    decreases |calls|
  {
    if calls == [] then r else AfterAll(After(r, calls[0]), calls[1..])
  }

  predicate Terminal(s: RunStatus) { s == Completed || s == Broken || s == Rejected }

  lemma AfterKeepsInv(steps: seq<Step>, r: Run, c: Call)
    requires Inv(steps, r)
    ensures Inv(steps, After(r, c))
    ensures Terminal(r.status) ==> After(r, c) == r
    ensures After(r, c).fired == r.fired || (c.ApproveCall? && r.status == Paused && r.current < |steps| &&
              Sends(steps[r.current], r.context, r.current, r.fired, After(r, c).fired))
    ensures r.fired <= After(r, c).fired && After(r, c).context == r.context
  {
    match c
    case ApproveCall(contained, delivered) => ApproveKeepsInv(steps, r, contained, delivered);
    case RejectCall => RejectKeepsInv(steps, r);
  }

  /** Over any sequence of approvals and rejections the invariant holds, and the firing log only grows. */
  lemma {:induction false} RunKeepsInv(steps: seq<Step>, r: Run, calls: seq<Call>)
    requires Inv(steps, r)
    ensures Inv(steps, AfterAll(r, calls))
    ensures r.fired <= AfterAll(r, calls).fired && AfterAll(r, calls).context == r.context
    ensures Terminal(r.status) ==> AfterAll(r, calls) == r
    decreases |calls|
  {
    if calls != [] {
      AfterKeepsInv(steps, r, calls[0]);
      RunKeepsInv(steps, After(r, calls[0]), calls[1..]);
    }
  }

  lemma {:induction false} ContainmentsAreOrdered(steps: seq<Step>, n: nat)
    requires n <= |steps|
    ensures forall i, j | 0 <= i < j < |Containments(steps, n)| :: Containments(steps, n)[i] < Containments(steps, n)[j]
    ensures forall k: nat :: k in Containments(steps, n) <==> k < n && NeedsApproval(steps[k].kind)
  {
    if n > 0 {
      ContainmentsAreOrdered(steps, n - 1);
      var before, all := Containments(steps, n - 1), Containments(steps, n);
      assert forall i | 0 <= i < |before| :: before[i] in before && all[i] == before[i];
      assert forall k: nat :: k in all <==> k in before || (k == n - 1 && NeedsApproval(steps[k].kind));
    }
  }

  lemma FiredInOrder(steps: seq<Step>, r: Run)
    requires Inv(steps, r)
    ensures forall i, j | 0 <= i < j < |r.fired| :: r.fired[i].step < r.fired[j].step
    ensures forall i | 0 <= i < |r.fired| :: r.fired[i].step < |steps| && NeedsApproval(steps[r.fired[i].step].kind)
  {
    var before, fired := Containments(steps, r.current), Indices(r.fired);
    ContainmentsAreOrdered(steps, r.current);
    assert forall i | 0 <= i < |before| :: before[i] in before;
    assert fired == before || fired == before + [r.current];
    assert forall i | 0 <= i < |r.fired| :: fired[i] == r.fired[i].step;
  }

  lemma CompletedFiredAll(steps: seq<Step>, r: Run, k: nat)
    requires Inv(steps, r) && r.status == Completed && k < |steps| && NeedsApproval(steps[k].kind)
    ensures exists f :: f in r.fired && f.step == k
  {
    var fired := Indices(r.fired);
    ContainmentsAreOrdered(steps, r.current);
    assert k in fired;
    var i :| 0 <= i < |fired| && fired[i] == k;
    assert r.fired[i] in r.fired;
  }

  /** Over any run each containment step fires at most once, in playbook order and at its own target, and a
      completed run has succeeded at every one of them. */
  lemma FiresEachContainmentOnce(steps: seq<Step>, r: Run, calls: seq<Call>)
    requires Inv(steps, r)
    ensures var end := AfterAll(r, calls);
            && (forall i, j | 0 <= i < j < |end.fired| :: end.fired[i].step < end.fired[j].step)
            && (forall f | f in end.fired :: f.step < |steps| && steps[f.step].kind.ResponseAction? &&
                  IsTarget(steps[f.step], r.context, f.target))
            && (end.status == Completed ==> |end.rows| == |steps| && forall k: nat | k < |steps| ::
                  Settled(end.rows[k]) && (steps[k].kind.ResponseAction? ==> exists f :: f in end.fired && f.step == k))
  {
    var end := AfterAll(r, calls);
    RunKeepsInv(steps, r, calls);
    FiredInOrder(steps, end);
    if end.status == Completed {
      forall k: nat | k < |steps| && steps[k].kind.ResponseAction? ensures exists f :: f in end.fired && f.step == k {
        CompletedFiredAll(steps, end, k);
      }
    }
  }

  function Approvals(calls: seq<Call>): nat {
    if calls == [] then 0 else (if calls[0].ApproveCall? then 1 else 0) + Approvals(calls[1..])
  }

  // Containment steps the run has not passed yet.
  ghost function Ahead(steps: seq<Step>, r: Run): int
    requires Inv(steps, r)
  {
    if Terminal(r.status) then 0 else |Containments(steps, |steps|)| - |Containments(steps, r.current)|
  }

  lemma {:induction false} ContainmentsGrow(steps: seq<Step>, m: nat, n: nat)
    requires m <= n <= |steps|
    ensures |Containments(steps, m)| <= |Containments(steps, n)|
    ensures m < n && NeedsApproval(steps[m].kind) ==> |Containments(steps, m)| < |Containments(steps, n)|
    decreases n
  {
    if m < n { ContainmentsGrow(steps, m, n - 1); }
  }

  lemma ApprovalPasses(steps: seq<Step>, r: Run, c: Call)
    requires Inv(steps, r) && !Terminal(r.status)
    ensures Inv(steps, After(r, c))
    ensures c.ApproveCall? ==> Ahead(steps, After(r, c)) < Ahead(steps, r) || Terminal(After(r, c).status)
    ensures c.RejectCall? ==> Terminal(After(r, c).status)
  {
    AfterKeepsInv(steps, r, c);
    if c.ApproveCall? {
      ApproveKeepsInv(steps, r, c.contained, c.delivered);
      var end := After(r, c);
      if end.status == Paused {
        ContainmentsGrow(steps, r.current, end.current);
        ContainmentsGrow(steps, end.current, |steps|);
      }
    } else {
      RejectKeepsInv(steps, r);
    }
  }

  lemma {:induction false} EnoughApprovals(steps: seq<Step>, r: Run, calls: seq<Call>)
    requires Inv(steps, r) && Approvals(calls) >= Ahead(steps, r)
    ensures Terminal(AfterAll(r, calls).status)
    decreases |calls|
  {
    if Terminal(r.status) {
      RunKeepsInv(steps, r, calls);
    } else if calls == [] {
      ContainmentsGrow(steps, r.current, |steps|);
    } else {
      ApprovalPasses(steps, r, calls[0]);
      EnoughApprovals(steps, After(r, calls[0]), calls[1..]);
    }
  }

  /** A playbook with k containment steps has ended after k approvals at the latest, whatever the vendors
      answer and whatever else is called in between. */
  lemma EndsAfterEveryContainmentIsApproved(steps: seq<Step>, bound: bool, context: map<string, string>,
                                            delivered: nat -> bool, calls: seq<Call>)
    requires ValidSteps(steps) && Approvals(calls) >= |Containments(steps, |steps|)|
    ensures Terminal(AfterAll(Start(steps, true, bound, context, delivered).value, calls).status)
  {
    StartEstablishesInv(steps, true, bound, context, delivered);
    EnoughApprovals(steps, Start(steps, true, bound, context, delivered).value, calls);
  }

  // ----- the engine over its table row -----

  class Engine {
    var status: RunStatus
    var current: nat
    var rows: seq<Row>
    var bound: bool
    var context: map<string, string>
    var fired: seq<Firing>

    function View(): Run
      reads this
    {
      Run(status, current, rows, bound, context, fired)
    }

    // Inserts the run and its pending steps.
    constructor (steps: seq<Step>, bound: bool, context: map<string, string>)
      ensures View() == Run(Running, 0, seq(|steps|, i requires 0 <= i < |steps| => Row(steps[i], Pending)), bound, context, [])
    {
      this.status, this.current, this.fired := Running, 0, [];
      this.bound, this.context := bound, context;
      this.rows := seq(|steps|, i requires 0 <= i < |steps| => Row(steps[i], Pending));
    }

    static method StartRun(steps: seq<Step>, enabled: bool, bound: bool, context: map<string, string>, delivered: nat -> bool)
      returns (run: Engine?)
      ensures run != null ==> fresh(run)
      ensures (run == null) == Start(steps, enabled, bound, context, delivered).None?
      ensures run != null ==> run.View() == Start(steps, enabled, bound, context, delivered).value
    {
      if !enabled { return null; }
      var bad := ValidateSteps(steps);
      if bad.Some? { return null; }
      run := new Engine(steps, bound, context);
      run.Advance(delivered);
    }

    method Advance(delivered: nat -> bool)
      requires current <= |rows|
      modifies this
      ensures View() == AdvanceFrom(old(View()), old(current), delivered)
    {
      var i := current;
      while i < |rows|
        invariant old(current) <= i <= |rows|
        invariant AdvanceFrom(View(), i, delivered) == AdvanceFrom(old(View()), old(current), delivered)
      {
        if NeedsApproval(rows[i].step.kind) {
          rows := rows[i := rows[i].(status := AwaitingApproval)];
          status, current := Paused, i;
          return;
        }
        rows := rows[i := rows[i].(status := AutoOutcome(rows[i].step, bound, delivered(i)))];
        i := i + 1;
      }
      status, current := Completed, |rows|;
    }

    method ApproveStep(contained: bool, delivered: nat -> bool) returns (ok: bool)
      modifies this
      ensures ok == Approve(old(View()), contained, delivered).Some?
      ensures View() == if ok then Approve(old(View()), contained, delivered).value else old(View())
    {
      if current >= |rows| { return false; }
      var row := rows[current];
      if !NeedsApproval(row.step.kind) || row.status != AwaitingApproval { return false; }
      var target := ResolveTarget(row.step, context);
      if target.None? {
        rows := rows[current := row.(status := Failed)];
        status := Broken;
        return true;
      }
      fired := fired + [Firing(current, target.value)];
      rows := rows[current := row.(status := if contained then Succeeded else Failed)];
      if !contained {
        status := Broken;
        return true;
      }
      status, current := Running, current + 1;
      Advance(delivered);
      return true;
    }

    method RejectRun() returns (ok: bool)
      modifies this
      ensures ok == Reject(old(View())).Some?
      ensures View() == if ok then Reject(old(View())).value else old(View())
    {
      if status != Paused { return false; }
      status := Rejected;
      rows := seq(|rows|, i requires 0 <= i < |rows| reads this =>
        if rows[i].status == AwaitingApproval then rows[i].(status := Skipped) else rows[i]);
      return true;
    }
  }
}
