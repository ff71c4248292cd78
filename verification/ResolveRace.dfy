/** Operators resolving the alerts of one unresolved incident concurrently, one SQL statement at a time.

    Every transaction marks its alert, then resolves the incident unless it sees an alert of it still
    unresolved, then commits. A statement sees what is committed when it starts and its own transaction's
    writes; a marked alert is locked until its transaction ends. */
module ResolveRace {
  datatype Pc =
    | Idle
    | Marked
    | Checked(closes: bool)       // the second statement found the incident unresolved and nothing else open
    | Committed
    | Aborted

  datatype Worker = Worker(alert: nat, pc: Pc)

  // The incident's alerts, and whether each is resolved; what transactions have committed.
  datatype State = State(resolved: map<nat, bool>, closed: bool, workers: seq<Worker>)

  datatype Step = Mark(w: nat) | Check(w: nat) | Commit(w: nat) | Abort(w: nat)

  predicate Holds(t: Worker, a: nat) { t.alert == a && (t.pc.Marked? || t.pc.Checked?) }

  predicate Free(s: State, a: nat) { forall j | 0 <= j < |s.workers| :: !Holds(s.workers[j], a) }

  predicate NothingElseOpen(s: State, a: nat) { forall b | b in s.resolved && b != a :: s.resolved[b] }

  predicate Enabled(s: State, x: Step) {
    x.w < |s.workers| &&
    var t := s.workers[x.w];
    match x
    case Mark(_) => t.pc.Idle? && t.alert in s.resolved && Free(s, t.alert)
    case Check(_) => t.pc.Marked?
    case Commit(_) => t.pc.Checked?
    case Abort(_) => !t.pc.Committed? && !t.pc.Aborted?
  }

  function SetPc(s: State, w: nat, pc: Pc): State
    requires w < |s.workers|
  {
    s.(workers := s.workers[w := s.workers[w].(pc := pc)])
  }

  function Apply(s: State, x: Step): State
    requires Enabled(s, x)
  {
    match x
    case Mark(w) => SetPc(s, w, Marked)
    case Check(w) => SetPc(s, w, Checked(!s.closed && NothingElseOpen(s, s.workers[w].alert)))
    case Commit(w) =>
      var t := s.workers[w];
      SetPc(s.(resolved := s.resolved[t.alert := true], closed := s.closed || t.pc.closes), w, Committed)
    case Abort(w) => SetPc(s, w, Aborted)
  }

  ghost predicate Run(s: State, steps: seq<Step>, end: State)
    decreases |steps|
  {
    if steps == [] then end == s else Enabled(s, steps[0]) && Run(Apply(s, steps[0]), steps[1..], end)
  }

  // ----- who closes the incident -----

  // In step k of the run a worker's check sees all other alerts resolved.
  ghost predicate SeesAllResolved(s: State, steps: seq<Step>, k: nat)
    requires k < |steps|
    decreases k
  {
    steps[k].Check? &&
    if k == 0 then Enabled(s, steps[0]) && NothingElseOpen(s, s.workers[steps[0].w].alert)
    else Enabled(s, steps[0]) && SeesAllResolved(Apply(s, steps[0]), steps[1..], k - 1)
  }

  ghost predicate SomeoneSeesAll(s: State, steps: seq<Step>) {
    exists k: nat :: k < |steps| && SeesAllResolved(s, steps, k) && Commit(steps[k].w) in steps
  }

  // A worker has decided to close, and will.
  ghost predicate SomeoneCloses(s: State, steps: seq<Step>) {
    exists w: nat :: w < |s.workers| && s.workers[w].pc == Checked(true) && Commit(w) in steps
  }

  lemma {:induction false} FinishedNeverCommit(s: State, steps: seq<Step>, end: State, w: nat)
    requires Run(s, steps, end) && w < |s.workers| && (s.workers[w].pc.Committed? || s.workers[w].pc.Aborted?)
    ensures Commit(w) !in steps
    decreases |steps|
  {
    if steps != [] {
      FinishedNeverCommit(Apply(s, steps[0]), steps[1..], end, w);
      assert forall x :: x in steps <==> x == steps[0] || x in steps[1..];
    }
  }

  lemma {:induction false} ClosedStays(s: State, steps: seq<Step>, end: State)
    requires Run(s, steps, end) && s.closed
    ensures end.closed
    decreases |steps|
  {
    if steps != [] { ClosedStays(Apply(s, steps[0]), steps[1..], end); }
  }

  lemma {:induction false} ClosersAre(s: State, steps: seq<Step>, end: State)
    requires Run(s, steps, end) && !s.closed
    ensures end.closed <==> SomeoneCloses(s, steps) || SomeoneSeesAll(s, steps)
    decreases |steps|
  {
    if steps != [] {
      var x, s', rest := steps[0], Apply(s, steps[0]), steps[1..];
      assert forall y :: y in steps <==> y == x || y in rest;
      if s'.closed {
        ClosedStays(s', rest, end);
        assert s.workers[x.w].pc == Checked(true);
      } else {
        ClosersAre(s', rest, end);
        if SomeoneCloses(s, steps) || SomeoneSeesAll(s, steps) { StaysTrue(s, steps, end); }
        if SomeoneCloses(s', rest) || SomeoneSeesAll(s', rest) { WasTrue(s, steps); }
      }
    }
  }

  lemma StaysTrue(s: State, steps: seq<Step>, end: State)
    requires steps != [] && Run(s, steps, end) && !s.closed && !Apply(s, steps[0]).closed
    requires SomeoneCloses(s, steps) || SomeoneSeesAll(s, steps)
    ensures SomeoneCloses(Apply(s, steps[0]), steps[1..]) || SomeoneSeesAll(Apply(s, steps[0]), steps[1..])
  {
    var x, s', rest := steps[0], Apply(s, steps[0]), steps[1..];
    assert forall y :: y in steps <==> y == x || y in rest;
    if SomeoneCloses(s, steps) {
      var w: nat :| w < |s.workers| && s.workers[w].pc == Checked(true) && Commit(w) in steps;
      if x == Abort(w) { FinishedNeverCommit(s', rest, end, w); }
      assert s'.workers[w] == s.workers[w];
    } else {
      SeesNowOrLater(s, steps);
    }
  }

  lemma SeesNowOrLater(s: State, steps: seq<Step>)
    requires steps != [] && Enabled(s, steps[0]) && !s.closed && SomeoneSeesAll(s, steps)
    ensures SomeoneCloses(Apply(s, steps[0]), steps[1..]) || SomeoneSeesAll(Apply(s, steps[0]), steps[1..])
  {
    var x, s', rest := steps[0], Apply(s, steps[0]), steps[1..];
    assert forall y :: y in steps <==> y == x || y in rest;
    var k: nat :| k < |steps| && SeesAllResolved(s, steps, k) && Commit(steps[k].w) in steps;
    if k == 0 {
      assert s'.workers[x.w].pc == Checked(true) && Commit(x.w) in rest;
    } else {
      assert rest[k - 1] == steps[k] && SeesAllResolved(s', rest, k - 1);
      if x == Commit(steps[k].w) { CommittedNeverCheck(s', rest, k - 1); }
    }
  }

  // A check happens only before its worker's end.
  lemma {:induction false} CommittedNeverCheck(s: State, steps: seq<Step>, k: nat)
    requires k < |steps| && SeesAllResolved(s, steps, k)
    ensures steps[k].w < |s.workers| && !s.workers[steps[k].w].pc.Committed?
    decreases k
  {
    if k > 0 { CommittedNeverCheck(Apply(s, steps[0]), steps[1..], k - 1); }
  }

  lemma WasTrue(s: State, steps: seq<Step>)
    requires steps != [] && Enabled(s, steps[0])
    requires SomeoneCloses(Apply(s, steps[0]), steps[1..]) || SomeoneSeesAll(Apply(s, steps[0]), steps[1..])
    ensures SomeoneCloses(s, steps) || SomeoneSeesAll(s, steps)
  {
    var x, s', rest := steps[0], Apply(s, steps[0]), steps[1..];
    assert forall y :: y in steps <==> y == x || y in rest;
    if SomeoneCloses(s', rest) {
      var w: nat :| w < |s'.workers| && s'.workers[w].pc == Checked(true) && Commit(w) in rest;
      if w == x.w { assert SeesAllResolved(s, steps, 0); } else { assert s.workers[w] == s'.workers[w]; }
    } else {
      var k: nat :| k < |rest| && SeesAllResolved(s', rest, k) && Commit(rest[k].w) in rest;
      assert steps[k + 1] == rest[k] && SeesAllResolved(s, steps, k + 1);
    }
  }

  ghost predicate AllIdle(s: State) { forall w | 0 <= w < |s.workers| :: s.workers[w].pc.Idle? }

  lemma ClosedWhenSomeoneSeesAll(s: State, steps: seq<Step>, end: State)
    requires Run(s, steps, end) && !s.closed && AllIdle(s)
    ensures end.closed <==> SomeoneSeesAll(s, steps)
  {
    ClosersAre(s, steps, end);
  }

  // ----- in terms of the schedule alone -----

  // Before step k somebody has committed the resolution of alert b.
  ghost predicate CommittedBefore(s: State, steps: seq<Step>, k: nat, b: nat) {
    exists j: nat :: j < k && j < |steps| && Commits(s, steps[j], b)
  }

  predicate Commits(s: State, x: Step, b: nat) { x.Commit? && x.w < |s.workers| && s.workers[x.w].alert == b }

  // Step k is a check, after the commits of resolvers of every other alert that was unresolved to begin with.
  ghost predicate ChecksLast(s: State, steps: seq<Step>, k: nat) {
    && k < |steps| && steps[k].Check? && steps[k].w < |s.workers|
    && forall b | b in s.resolved && !s.resolved[b] && b != s.workers[steps[k].w].alert :: CommittedBefore(s, steps, k, b)
  }

  // Transactions under way are about alerts of the incident.
  ghost predicate Known(s: State) {
    forall w | 0 <= w < |s.workers| && (s.workers[w].pc.Marked? || s.workers[w].pc.Checked?) :: s.workers[w].alert in s.resolved
  }

  lemma CommittedNowOrLater(s: State, steps: seq<Step>, k: nat, b: nat)
    requires steps != [] && k > 0 && Enabled(s, steps[0])
    ensures CommittedBefore(s, steps, k, b) <==> Commits(s, steps[0], b) || CommittedBefore(Apply(s, steps[0]), steps[1..], k - 1, b)
  {
    var s', rest := Apply(s, steps[0]), steps[1..];
    assert forall x :: Commits(s', x, b) <==> Commits(s, x, b);
    if CommittedBefore(s, steps, k, b) && !Commits(s, steps[0], b) {
      var j: nat :| j < k && j < |steps| && Commits(s, steps[j], b);
      assert rest[j - 1] == steps[j];
    }
    if CommittedBefore(s', rest, k - 1, b) {
      var j: nat :| j < k - 1 && j < |rest| && Commits(s', rest[j], b);
      assert steps[j + 1] == rest[j];
    }
  }

  lemma ChecksLastLater(s: State, steps: seq<Step>, k: nat)
    requires steps != [] && k > 0 && Enabled(s, steps[0]) && Known(s)
    ensures ChecksLast(s, steps, k) <==> ChecksLast(Apply(s, steps[0]), steps[1..], k - 1)
  {
    var s', rest := Apply(s, steps[0]), steps[1..];
    assert k < |steps| ==> rest[k - 1] == steps[k];
    forall b { CommittedNowOrLater(s, steps, k, b); }
    assert s'.resolved.Keys == s.resolved.Keys;
    assert forall b | b in s.resolved :: s'.resolved[b] <==> s.resolved[b] || Commits(s, steps[0], b);
    assert forall w | 0 <= w < |s.workers| :: s'.workers[w].alert == s.workers[w].alert;
  }

  lemma {:induction false} SeesIsChecksLast(s: State, steps: seq<Step>, end: State, k: nat)
    requires Run(s, steps, end) && Known(s) && k < |steps|
    ensures SeesAllResolved(s, steps, k) <==> ChecksLast(s, steps, k)
    decreases k
  {
    if k == 0 {
      assert forall b :: !CommittedBefore(s, steps, 0, b);
    } else {
      ChecksLastLater(s, steps, k);
      SeesIsChecksLast(Apply(s, steps[0]), steps[1..], end, k - 1);
    }
  }

  /** The incident ends resolved exactly when some transaction that commits makes its check after resolvers of
      every other initially unresolved alert have committed. Overlapping transactions that each check before
      the other commits leave it unresolved. */
  lemma ClosedExactlyWhenSomeoneChecksLast(s: State, steps: seq<Step>, end: State)
    requires Run(s, steps, end) && !s.closed && AllIdle(s)
    ensures end.closed <==> exists k: nat :: ChecksLast(s, steps, k) && Commit(steps[k].w) in steps
  {
    ClosedWhenSomeoneSeesAll(s, steps, end);
    forall k: nat | k < |steps| ensures SeesAllResolved(s, steps, k) <==> ChecksLast(s, steps, k) {
      SeesIsChecksLast(s, steps, end, k);
    }
  }

  lemma {:induction false} RunThen(s: State, steps: seq<Step>, mid: State, x: Step)
    requires Run(s, steps, mid) && Enabled(mid, x)
    ensures Run(s, steps + [x], Apply(mid, x))
    decreases |steps|
  {
    if steps == [] {
      assert Run(Apply(s, x), [], Apply(mid, x));
    } else {
      assert (steps + [x])[1..] == steps[1..] + [x];
      RunThen(Apply(s, steps[0]), steps[1..], mid, x);
    }
  }

  function Two(a: nat, b: nat, ra: bool, rb: bool, p: Pc, q: Pc): State {
    State(map[a := ra, b := rb], false, [Worker(a, p), Worker(b, q)])
  }

  // Both transactions have checked before either commits.
  lemma BothCheck(a: nat, b: nat) returns (steps: seq<Step>)
    requires a != b
    ensures Run(Two(a, b, false, false, Idle, Idle), steps, Two(a, b, false, false, Checked(false), Checked(false)))
  {
    var s := Two(a, b, false, false, Idle, Idle);
    RunThen(s, [], s, Mark(0));
    var s1 := Two(a, b, false, false, Marked, Idle);
    RunThen(s, [Mark(0)], s1, Mark(1));
    steps := [Mark(0)] + [Mark(1)];
    var s2 := Two(a, b, false, false, Marked, Marked);
    assert !NothingElseOpen(s2, a) by { assert b in s2.resolved; }
    RunThen(s, steps, s2, Check(0));
    steps := steps + [Check(0)];
    var s3 := Two(a, b, false, false, Checked(false), Marked);
    assert s2.workers[0].alert == a && Apply(s2, Check(0)).workers == s3.workers;
    assert !NothingElseOpen(s3, b) by { assert a in s3.resolved; }
    RunThen(s, steps, s3, Check(1));
    assert s3.workers[1].alert == b;
    assert Apply(s3, Check(1)).workers == [Worker(a, Checked(false)), Worker(b, Checked(false))];
    steps := steps + [Check(1)];
  }

  /** It does happen: two operators resolve the last two alerts at once, and the incident stays unresolved with
      nothing unresolved under it. */
  lemma OverlappingResolvesLeaveItOpen(a: nat, b: nat) returns (s: State, steps: seq<Step>, end: State)
    requires a != b
    ensures Run(s, steps, end) && AllIdle(s) && !s.closed
    ensures end.resolved == map[a := true, b := true] && !end.closed
    ensures forall w | 0 <= w < |end.workers| :: end.workers[w].pc.Committed?
  {
    s := Two(a, b, false, false, Idle, Idle);
    steps := BothCheck(a, b);
    var s4 := Two(a, b, false, false, Checked(false), Checked(false));
    RunThen(s, steps, s4, Commit(0));
    steps := steps + [Commit(0)];
    var s5 := Two(a, b, true, false, Committed, Checked(false));
    assert Apply(s4, Commit(0)) == s5;
    RunThen(s, steps, s5, Commit(1));
    steps, end := steps + [Commit(1)], Apply(s5, Commit(1));
  }

  /** Resolving any of the alerts once more, undisturbed, then resolves the incident. */
  lemma ResolvingAgainCloses(s: State, w: nat) returns (end: State)
    requires w < |s.workers| && Enabled(s, Mark(w)) && forall b | b in s.resolved :: s.resolved[b]
    ensures Run(s, [Mark(w), Check(w), Commit(w)], end) && end.closed
  {
    var s1 := Apply(s, Mark(w));
    var s2 := Apply(s1, Check(w));
    RunThen(s, [], s, Mark(w));
    RunThen(s, [Mark(w)], s1, Check(w));
    RunThen(s, [Mark(w), Check(w)], s2, Commit(w));
    end := Apply(s2, Commit(w));
  }
}
