/** The schema migration runner: any number of processes boot against one database, serialized by a session
    lock; each applies the files it knows, in sorted order, one transaction per file.

    During a rolling deploy an older process knows only a prefix of the newest file list. */
module Migrations {
  import opened Wrappers

  datatype Pc =
    | Booting
    | Waiting                     // asked for the lock
    | Checking(i: nat)            // holds the lock, about to look file i up
    | Applying(i: nat)            // inside the transaction of file i
    | Unlocking(ok: bool)
    | Finished(ok: bool)
    | Crashed

  // known is how many of the sorted files the process ships with.
  datatype Proc = Proc(known: nat, pc: Pc)

  datatype State = State(lock: Option<nat>, committed: seq<string>, procs: seq<Proc>)

  datatype Step = Boot(p: nat) | Acquire(p: nat) | LookUp(p: nat) | Commit(p: nat) | Fail(p: nat) | Unlock(p: nat) | Crash(p: nat)

  predicate Critical(pc: Pc) { pc.Checking? || pc.Applying? || pc.Unlocking? }

  predicate Enabled(files: seq<string>, s: State, a: Step) {
    a.p < |s.procs| &&
    var pc := s.procs[a.p].pc;
    match a
    case Boot(_) => pc.Booting?
    case Acquire(_) => pc.Waiting? && s.lock.None?
    case LookUp(_) => pc.Checking?
    case Commit(_) => pc.Applying? && pc.i < |files| && files[pc.i] !in s.committed   // version is the primary key
    case Fail(_) => pc.Checking? || pc.Applying?
    case Unlock(_) => pc.Unlocking?
    case Crash(_) => !pc.Finished? && !pc.Crashed?
  }

  function SetPc(s: State, p: nat, pc: Pc): State
    requires p < |s.procs|
  {
    s.(procs := s.procs[p := s.procs[p].(pc := pc)])
  }

  function Next(files: seq<string>, s: State, a: Step): State
    requires Enabled(files, s, a)
  {
    var t := s.procs[a.p];
    match a
    case Boot(p) => SetPc(s, p, Waiting)
    case Acquire(p) => SetPc(s, p, Checking(0)).(lock := Some(p))
    case LookUp(p) =>
      var i := t.pc.i;
      if i >= t.known || i >= |files| then SetPc(s, p, Unlocking(true))
      else if files[i] in s.committed then SetPc(s, p, Checking(i + 1))
      else SetPc(s, p, Applying(i))
    case Commit(p) => SetPc(s, p, Checking(t.pc.i + 1)).(committed := s.committed + [files[t.pc.i]])
    case Fail(p) => SetPc(s, p, Unlocking(false))
    case Unlock(p) => SetPc(s, p, Finished(t.pc.ok)).(lock := None)
    case Crash(p) => SetPc(s, p, Crashed).(lock := if s.lock == Some(p) then None else s.lock)
  }

  // ----- what every step keeps -----

  ghost predicate Distinct(files: seq<string>) {
    forall i, j | 0 <= i < j < |files| :: files[i] != files[j]
  }

  ghost predicate ProcOk(files: seq<string>, s: State, p: nat)
    requires p < |s.procs|
  {
    var t := s.procs[p];
    && t.known <= |files|
    && (Critical(t.pc) <==> s.lock == Some(p))
    && (t.pc.Checking? ==> t.pc.i <= t.known && t.pc.i <= |s.committed|)
    && (t.pc.Applying? ==> t.pc.i < t.known && t.pc.i == |s.committed|)
    && (t.pc == Unlocking(true) || t.pc == Finished(true) ==> t.known <= |s.committed|)
  }

  ghost predicate Inv(files: seq<string>, s: State) {
    && s.committed <= files
    && (s.lock.Some? ==> s.lock.value < |s.procs|)
    && (forall p | 0 <= p < |s.procs| :: ProcOk(files, s, p))
  }

  lemma StepKeepsInv(files: seq<string>, s: State, a: Step)
    requires Distinct(files) && Inv(files, s) && Enabled(files, s, a)
    ensures Inv(files, Next(files, s, a)) && s.committed <= Next(files, s, a).committed
  {
    var s', t := Next(files, s, a), s.procs[a.p];
    assert ProcOk(files, s, a.p);
    if a.LookUp? && t.pc.i < t.known && t.pc.i < |s.committed| {
      assert files[t.pc.i] == s.committed[t.pc.i];
    }
    forall p | 0 <= p < |s'.procs| ensures ProcOk(files, s', p) {
      assert ProcOk(files, s, p);
    }
  }

  // A file not yet reached by the commits is not among them.
  lemma UnreachedIsUncommitted(files: seq<string>, committed: seq<string>, i: nat)
    requires Distinct(files) && committed <= files && |committed| <= i < |files|
    ensures files[i] !in committed
  {
  }

  // ----- whole runs -----

  ghost predicate Start(files: seq<string>, s: State) {
    && s.lock.None? && s.committed <= files
    && forall p | 0 <= p < |s.procs| :: s.procs[p].pc.Booting? && s.procs[p].known <= |files|
  }

  ghost predicate Run(files: seq<string>, s: State, steps: seq<Step>, end: State)
    decreases |steps|
  {
    if steps == [] then end == s else Enabled(files, s, steps[0]) && Run(files, Next(files, s, steps[0]), steps[1..], end)
  }

  lemma {:induction false} RunKeepsInv(files: seq<string>, s: State, steps: seq<Step>, end: State)
    requires Distinct(files) && Inv(files, s) && Run(files, s, steps, end)
    ensures Inv(files, end) && s.committed <= end.committed && |end.procs| == |s.procs|
    decreases |steps|
  {
    if steps != [] {
      StepKeepsInv(files, s, steps[0]);
      RunKeepsInv(files, Next(files, s, steps[0]), steps[1..], end);
    }
  }

  /** For any number of processes, any interleaving, failures and crash points: the committed migrations are a
      prefix of the sorted list, each committed exactly once and never undone; at most one process is inside
      the critical section; and a process that reports success finds everything it knows committed. */
  lemma MigrationsAreAppliedInOrderOnce(files: seq<string>, s: State, steps: seq<Step>, end: State)
    requires Distinct(files) && Start(files, s) && Run(files, s, steps, end)
    ensures s.committed <= end.committed <= files
    ensures forall f | f in end.committed :: multiset(end.committed)[f] == 1
    ensures forall p, q | 0 <= p < |end.procs| && 0 <= q < |end.procs| && Critical(end.procs[p].pc) && Critical(end.procs[q].pc) :: p == q
    ensures forall p | 0 <= p < |end.procs| && end.procs[p].pc == Finished(true) ::
              var n := end.procs[p].known; n <= |end.committed| && end.committed[..n] == files[..n]
  {
    assert Inv(files, s);
    RunKeepsInv(files, s, steps, end);
    forall f | f in end.committed ensures multiset(end.committed)[f] == 1 {
      var k :| 0 <= k < |end.committed| && end.committed[k] == f;
      OnceInDistinct(files, end.committed, k);
    }
    forall p, q | 0 <= p < |end.procs| && 0 <= q < |end.procs| && Critical(end.procs[p].pc) && Critical(end.procs[q].pc) ensures p == q {
      assert ProcOk(files, end, p) && ProcOk(files, end, q);
    }
    forall p | 0 <= p < |end.procs| && end.procs[p].pc == Finished(true) ensures end.procs[p].known <= |end.committed| {
      assert ProcOk(files, end, p);
    }
  }

  lemma OnceInDistinct(files: seq<string>, committed: seq<string>, k: nat)
    requires Distinct(files) && committed <= files && k < |committed|
    ensures multiset(committed)[committed[k]] == 1
  {
    var f := committed[k];
    assert forall i | 0 <= i < |committed| :: committed[i] == files[i];
    assert committed == committed[..k] + [f] + committed[k + 1..];
    assert f !in committed[..k] && f !in committed[k + 1..];
    assert multiset(committed) == multiset(committed[..k]) + multiset{f} + multiset(committed[k + 1..]);
  }

  /** No process waits forever for nothing: while one is unfinished, some process can take a step that is
      neither a failure nor a crash. */
  lemma RunnerNeverDeadlocks(files: seq<string>, s: State, p: nat) returns (a: Step)
    requires Distinct(files) && Inv(files, s) && p < |s.procs| && !s.procs[p].pc.Finished? && !s.procs[p].pc.Crashed?
    ensures Enabled(files, s, a) && !a.Fail? && !a.Crash?
  {
    assert ProcOk(files, s, p);
    var q := if s.procs[p].pc.Waiting? && s.lock.Some? then s.lock.value else p;
    assert ProcOk(files, s, q);
    match s.procs[q].pc
    case Booting => a := Boot(q);
    case Waiting => a := Acquire(q);
    case Checking(_) => a := LookUp(q);
    case Applying(i) =>
      UnreachedIsUncommitted(files, s.committed, i);
      a := Commit(q);
    case Unlocking(_) => a := Unlock(q);
  }

  // ----- what a process reports -----

  predicate Lost(pc: Pc) { pc == Unlocking(false) || pc == Finished(false) }

  // The processes that report failure, or will, are those a lookup or a script failed in.
  ghost predicate Honest(past: seq<Step>, s: State) {
    forall p: nat | p < |s.procs| ::
      (Lost(s.procs[p].pc) ==> Fail(p) in past) && (Fail(p) in past ==> Lost(s.procs[p].pc) || s.procs[p].pc.Crashed?)
  }

  lemma StepKeepsHonest(files: seq<string>, past: seq<Step>, s: State, a: Step)
    requires Honest(past, s) && Enabled(files, s, a)
    ensures Honest(past + [a], Next(files, s, a))
  {
    assert forall x :: x in past + [a] <==> x in past || x == a;
  }

  lemma {:induction false} RunKeepsHonest(files: seq<string>, past: seq<Step>, s: State, steps: seq<Step>, end: State)
    requires Honest(past, s) && Run(files, s, steps, end)
    ensures Honest(past + steps, end)
    decreases |steps|
  {
    if steps == [] {
      assert past + steps == past;
    } else {
      StepKeepsHonest(files, past, s, steps[0]);
      RunKeepsHonest(files, past + [steps[0]], Next(files, s, steps[0]), steps[1..], end);
      assert past + [steps[0]] + steps[1..] == past + steps;
    }
  }

  /** A process that finishes reports failure exactly if one of its own statements failed, whatever became of the
      other processes. */
  lemma FailuresAreOnesOwn(files: seq<string>, s: State, steps: seq<Step>, end: State, p: nat)
    requires Start(files, s) && Run(files, s, steps, end) && p < |end.procs| && end.procs[p].pc.Finished?
    ensures end.procs[p].pc.ok <==> Fail(p) !in steps
  {
    assert Honest([], s);
    RunKeepsHonest(files, [], s, steps, end);
    assert [] + steps == steps;
  }

  // ----- one process alone -----

  // The first file from i on whose script the database rejects, or the end of the list.
  function FirstFailure(n: nat, works: nat -> bool, i: nat): (f: nat)
    requires i <= n
    ensures i <= f <= n && (f < n ==> !works(f)) && forall k | i <= k < f :: works(k)
    decreases n - i
  {
    if i < n && works(i) then FirstFailure(n, works, i + 1) else i
  }

  class Schema {
    var applied: seq<string>

    method RunMigrations(files: seq<string>, works: nat -> bool) returns (ok: bool)
      requires Distinct(files) && applied <= files
      modifies this
      ensures applied == files[..FirstFailure(|files|, works, |old(applied)|)]
      ensures ok <==> applied == files
    {
      for i := 0 to |files|
        invariant applied <= files && i <= |applied| && |old(applied)| <= |applied|
        invariant |applied| == (if i <= |old(applied)| then |old(applied)| else i)
        invariant FirstFailure(|files|, works, |applied|) == FirstFailure(|files|, works, |old(applied)|)
      {
        if i < |applied| { assert files[i] == applied[i]; } else { UnreachedIsUncommitted(files, applied, i); }
        if files[i] !in applied {
          if !works(i) { return false; }
          applied := applied + [files[i]];
        }
      }
      return true;
    }
  }
}
