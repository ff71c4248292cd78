/** The cross-tenant indicator aggregate: a counter row per indicator kept next to a ledger of distinct
    contributors, written and read in separate statements that interleave. */
module ThreatIntel {
  import opened Wrappers

  type Indicator = string
  type Hash = string

  datatype Row = Row(observations: nat, tenants: nat)

  datatype Writer = Writer(hash: Hash, todo: seq<Indicator>, pc: WriterPc)

  // Counting(inc) is between the two statements for todo[0].
  datatype WriterPc = Contributing | Counting(inc: nat) | Stopped

  // A lookup between its two statements remembers the tenant count it read; seen are the indicators done.
  datatype Reader = Reader(hash: Hash, todo: seq<Indicator>, read: Option<nat>, max: nat, seen: seq<Indicator>)

  datatype State = State(ledger: set<(Indicator, Hash)>, agg: map<Indicator, Row>,
                         writers: seq<Writer>, readers: seq<Reader>, lost: multiset<Indicator>)

  // ----- the statements -----

  function Upsert(agg: map<Indicator, Row>, ind: Indicator, inc: nat): map<Indicator, Row> {
    if ind in agg then agg[ind := Row(agg[ind].observations + 1, agg[ind].tenants + inc)]
    else agg[ind := Row(1, inc)]
  }

  function TenantCount(agg: map<Indicator, Row>, ind: Indicator): nat {
    if ind in agg then agg[ind].tenants else 0
  }

  datatype Step = Write(w: nat) | Fail(w: nat) | Read(r: nat)

  predicate Enabled(s: State, a: Step) {
    match a
    case Write(w) => w < |s.writers| && s.writers[w].todo != [] && !s.writers[w].pc.Stopped?
    case Fail(w) => w < |s.writers| && s.writers[w].todo != [] && !s.writers[w].pc.Stopped?
    case Read(r) => r < |s.readers| && s.readers[r].todo != []
  }

  function Next(s: State, a: Step): State
    requires Enabled(s, a)
  {
    match a
    case Write(w) =>
      var t := s.writers[w];
      var ind := t.todo[0];
      (match t.pc
       case Contributing =>
         var inc := if (ind, t.hash) in s.ledger then 0 else 1;
         s.(ledger := s.ledger + {(ind, t.hash)}, writers := s.writers[w := t.(pc := Counting(inc))])
       case Counting(inc) =>
         s.(agg := Upsert(s.agg, ind, inc), writers := s.writers[w := t.(todo := t.todo[1..], pc := Contributing)])
       case Stopped => s)
    case Fail(w) =>
      var t := s.writers[w];
      s.(writers := s.writers[w := t.(pc := Stopped)],
         lost := if t.pc == Counting(1) then s.lost + multiset{t.todo[0]} else s.lost)
    case Read(r) =>
      var t := s.readers[r];
      var ind := t.todo[0];
      match t.read
      case None =>
        if ind in s.agg then s.(readers := s.readers[r := t.(read := Some(s.agg[ind].tenants))])
        else s.(readers := s.readers[r := t.(todo := t.todo[1..], seen := t.seen + [ind])])
      case Some(count) =>
        var others := count - (if (ind, t.hash) in s.ledger then 1 else 0);
        s.(readers := s.readers[r := t.(todo := t.todo[1..], seen := t.seen + [ind], read := None, max := if others > t.max then others else t.max)])
  }

  // ----- counter and ledger agree -----

  function Contributors(ledger: set<(Indicator, Hash)>, ind: Indicator): set<Hash> {
    set c | c in ledger && c.0 == ind :: c.1
  }

  // The increment a writer has decided on and not applied.
  function Owes(w: Writer, ind: Indicator): nat {
    if w.todo != [] && w.todo[0] == ind && w.pc.Counting? then w.pc.inc else 0
  }

  function InFlight(ws: seq<Writer>, ind: Indicator): nat {
    if ws == [] then 0 else Owes(ws[0], ind) + InFlight(ws[1..], ind)
  }

  lemma {:induction false} InFlightUpdate(ws: seq<Writer>, k: nat, w: Writer, ind: Indicator)
    requires k < |ws|
    ensures InFlight(ws[k := w], ind) + Owes(ws[k], ind) == InFlight(ws, ind) + Owes(w, ind)
  {
    if k == 0 {
      assert ws[k := w][1..] == ws[1..];
    } else {
      assert ws[k := w][1..] == ws[1..][k - 1 := w];
      InFlightUpdate(ws[1..], k - 1, w, ind);
    }
  }

  ghost predicate CountsAgree(s: State) {
    forall ind :: TenantCount(s.agg, ind) + InFlight(s.writers, ind) + s.lost[ind] == |Contributors(s.ledger, ind)|
  }

  ghost predicate IncsAreUnits(s: State) {
    forall w | w in s.writers && w.pc.Counting? :: w.pc.inc <= 1
  }

  // How many other tenants really contributed an indicator.
  function Others(ledger: set<(Indicator, Hash)>, hash: Hash, ind: Indicator): nat {
    |Contributors(ledger, ind) - {hash}|
  }

  // n does not exceed the other contributors of some indicator of the list.
  ghost predicate Supported(ledger: set<(Indicator, Hash)>, hash: Hash, inds: seq<Indicator>, n: nat) {
    n == 0 || exists ind :: ind in inds && n <= Others(ledger, hash, ind)
  }

  ghost predicate ReaderOk(ledger: set<(Indicator, Hash)>, r: Reader) {
    && Supported(ledger, r.hash, r.seen, r.max)
    && (r.read.Some? ==> r.todo != [] && r.read.value <= |Contributors(ledger, r.todo[0])|)
  }

  ghost predicate ReadersOk(s: State) {
    forall r | r in s.readers :: ReaderOk(s.ledger, r)
  }

  ghost predicate Inv(s: State) {
    CountsAgree(s) && IncsAreUnits(s) && ReadersOk(s)
  }

  lemma ContributorsGrow(ledger: set<(Indicator, Hash)>, hash: Hash, ind: Indicator, other: Indicator)
    ensures var ledger' := ledger + {(ind, hash)};
            && Contributors(ledger', ind) == Contributors(ledger, ind) + {hash}
            && (other != ind ==> Contributors(ledger', other) == Contributors(ledger, other))
            && (hash in Contributors(ledger, ind) <==> (ind, hash) in ledger)
  {
  }

  lemma Subset<T>(a: set<T>, b: set<T>)
    requires a <= b
    ensures |a| <= |b|
  {
    assert b == a + (b - a);
  }

  lemma LedgerInsertCounts(ledger: set<(Indicator, Hash)>, hash: Hash, ind: Indicator, other: Indicator)
    ensures |Contributors(ledger + {(ind, hash)}, other)| ==
            |Contributors(ledger, other)| + (if other == ind && (ind, hash) !in ledger then 1 else 0)
  {
    ContributorsGrow(ledger, hash, ind, other);
    if (ind, hash) in ledger { assert Contributors(ledger, ind) + {hash} == Contributors(ledger, ind); }
  }

  // What one statement moves between the aggregate, the writer that runs it, and the lost increments.
  lemma WriteMoves(s: State, a: Step, ind: Indicator)
    requires Enabled(s, a) && !a.Read? && (s.writers[a.w].pc.Counting? ==> s.writers[a.w].pc.inc <= 1)
    ensures var s' := Next(s, a);
            s'.writers == s.writers[a.w := s'.writers[a.w]] &&
            TenantCount(s'.agg, ind) + Owes(s'.writers[a.w], ind) + s'.lost[ind] - |Contributors(s'.ledger, ind)| ==
            TenantCount(s.agg, ind) + Owes(s.writers[a.w], ind) + s.lost[ind] - |Contributors(s.ledger, ind)|
  {
    var t := s.writers[a.w];
    if a.Write? && t.pc.Contributing? {
      LedgerInsertCounts(s.ledger, t.hash, t.todo[0], ind);
    }
  }

  lemma WriteKeepsCounts(s: State, a: Step)
    requires CountsAgree(s) && IncsAreUnits(s) && Enabled(s, a) && !a.Read?
    ensures CountsAgree(Next(s, a)) && IncsAreUnits(Next(s, a))
  {
    var s' := Next(s, a);
    assert s.writers[a.w] in s.writers;
    forall ind ensures TenantCount(s'.agg, ind) + InFlight(s'.writers, ind) + s'.lost[ind] == |Contributors(s'.ledger, ind)| {
      InFlightUpdate(s.writers, a.w, s'.writers[a.w], ind);
      WriteMoves(s, a, ind);
      assert TenantCount(s.agg, ind) + InFlight(s.writers, ind) + s.lost[ind] == |Contributors(s.ledger, ind)|;
    }
  }

  lemma LedgerGrowthKeepsReaders(s: State, s': State)
    requires ReadersOk(s) && s.ledger <= s'.ledger && s'.readers == s.readers
    ensures ReadersOk(s')
  {
    forall r | r in s'.readers ensures ReaderOk(s'.ledger, r) {
      assert ReaderOk(s.ledger, r);
      if r.max > 0 {
        var ind :| ind in r.seen && r.max <= Others(s.ledger, r.hash, ind);
        Subset(Contributors(s.ledger, ind) - {r.hash}, Contributors(s'.ledger, ind) - {r.hash});
        assert r.max <= Others(s'.ledger, r.hash, ind);
      }
      if r.read.Some? { Subset(Contributors(s.ledger, r.todo[0]), Contributors(s'.ledger, r.todo[0])); }
    }
  }

  lemma OthersCount(ledger: set<(Indicator, Hash)>, hash: Hash, ind: Indicator)
    ensures Others(ledger, hash, ind) == |Contributors(ledger, ind)| - (if (ind, hash) in ledger then 1 else 0)
  {
  }

  lemma ReadKeepsReader(s: State, r: nat)
    requires CountsAgree(s) && Enabled(s, Read(r)) && ReaderOk(s.ledger, s.readers[r])
    ensures ReaderOk(s.ledger, Next(s, Read(r)).readers[r])
  {
    var t, t' := s.readers[r], Next(s, Read(r)).readers[r];
    var ind := t.todo[0];
    assert TenantCount(s.agg, ind) + InFlight(s.writers, ind) + s.lost[ind] == |Contributors(s.ledger, ind)|;
    OthersCount(s.ledger, t.hash, ind);
    if t'.max == t.max {
      assert forall i | i in t.seen :: i in t'.seen;
    } else {
      assert ind in t'.seen;
    }
  }

  lemma ReadTouchesOneReader(s: State, r: nat)
    requires Enabled(s, Read(r))
    ensures var s' := Next(s, Read(r));
            s'.ledger == s.ledger && s'.readers == s.readers[r := s'.readers[r]]
  {
  }

  lemma ReadKeepsReaders(s: State, a: Step)
    requires Inv(s) && Enabled(s, a) && a.Read?
    ensures ReadersOk(Next(s, a))
  {
    var s' := Next(s, a);
    assert s.readers[a.r] in s.readers;
    ReadKeepsReader(s, a.r);
    ReadTouchesOneReader(s, a.r);
    forall r | r in s'.readers ensures ReaderOk(s'.ledger, r) {
      assert r in s.readers || r == s'.readers[a.r];
    }
  }

  lemma StepKeepsInv(s: State, a: Step)
    requires Inv(s) && Enabled(s, a)
    ensures Inv(Next(s, a))
  {
    if a.Read? {
      ReadKeepsReaders(s, a);
    } else {
      WriteKeepsCounts(s, a);
      LedgerGrowthKeepsReaders(s, Next(s, a));
    }
  }

  // ----- whole runs -----

  ghost predicate Start(s: State) {
    && s.lost == multiset{} && CountsAgree(s)
    && (forall w | w in s.writers :: w.pc.Contributing?)
    && (forall r | r in s.readers :: r.read.None? && r.max == 0)
  }

  ghost predicate Run(s: State, steps: seq<Step>, end: State)
    decreases |steps|
  {
    if steps == [] then end == s else Enabled(s, steps[0]) && Run(Next(s, steps[0]), steps[1..], end)
  }

  lemma {:induction false} RunKeepsInv(s: State, steps: seq<Step>, end: State)
    requires Inv(s) && Run(s, steps, end)
    ensures Inv(end)
    decreases |steps|
  {
    if steps != [] {
      StepKeepsInv(s, steps[0]);
      RunKeepsInv(Next(s, steps[0]), steps[1..], end);
    }
  }

  /** Under any interleaving: tenant_count plus the increments still under way plus those lost to a failed
      second statement is the number of distinct contributors, so it never exceeds that number; and a lookup
      never reports more than the true number of other contributors of one of its indicators. */
  lemma CountNeverExceedsContributors(s: State, steps: seq<Step>, end: State, ind: Indicator)
    requires Start(s) && Run(s, steps, end)
    ensures TenantCount(end.agg, ind) + InFlight(end.writers, ind) + end.lost[ind] == |Contributors(end.ledger, ind)|
    ensures TenantCount(end.agg, ind) <= |Contributors(end.ledger, ind)|
    ensures forall r | r in end.readers && r.max > 0 :: exists i :: i in r.seen && r.max <= Others(end.ledger, r.hash, i)
  {
    RunKeepsInv(s, steps, end);
  }

  // No increment is missing.
  ghost predicate Agree(ledger: set<(Indicator, Hash)>, agg: map<Indicator, Row>) {
    forall ind :: TenantCount(agg, ind) == |Contributors(ledger, ind)|
  }

  lemma {:induction false} NothingOwed(ws: seq<Writer>, ind: Indicator)
    requires forall w | w in ws :: !w.pc.Counting?
    ensures InFlight(ws, ind) == 0
  {
    if ws != [] { NothingOwed(ws[1..], ind); }
  }

  /** When no writer is between its statements and none has lost one, every count is exact again. */
  lemma QuietRunsAgree(s: State, steps: seq<Step>, end: State)
    requires Start(s) && Run(s, steps, end)
    requires end.lost == multiset{} && forall w | w in end.writers :: !w.pc.Counting?
    ensures Agree(end.ledger, end.agg)
  {
    RunKeepsInv(s, steps, end);
    forall ind ensures TenantCount(end.agg, ind) == |Contributors(end.ledger, ind)| {
      NothingOwed(end.writers, ind);
      assert TenantCount(end.agg, ind) + InFlight(end.writers, ind) + end.lost[ind] == |Contributors(end.ledger, ind)|;
    }
  }

  // ----- the two functions as they run undisturbed -----

  function MaxOthers(ledger: set<(Indicator, Hash)>, hash: Hash, inds: seq<Indicator>): nat {
    if inds == [] then 0
    else
      var rest := MaxOthers(ledger, hash, inds[..|inds| - 1]);
      var last := Others(ledger, hash, inds[|inds| - 1]);
      if last > rest then last else rest
  }

  // n bounds the other contributors of every indicator of the list, and is attained by one unless it is zero.
  ghost predicate IsMaximum(n: nat, ledger: set<(Indicator, Hash)>, hash: Hash, inds: seq<Indicator>) {
    && (forall ind | ind in inds :: |Contributors(ledger, ind) - {hash}| <= n)
    && (n == 0 || exists ind :: ind in inds && |Contributors(ledger, ind) - {hash}| == n)
  }

  /** What a lookup computes is the most other tenants that share one of its indicators. */
  lemma {:induction false} MaxOthersIsTheMaximum(ledger: set<(Indicator, Hash)>, hash: Hash, inds: seq<Indicator>)
    ensures IsMaximum(MaxOthers(ledger, hash, inds), ledger, hash, inds)
  {
    if inds != [] {
      var init, last := inds[..|inds| - 1], inds[|inds| - 1];
      MaxOthersIsTheMaximum(ledger, hash, init);
      assert inds == init + [last];
      var n := MaxOthers(ledger, hash, inds);
      if n > 0 && n == MaxOthers(ledger, hash, init) {
        var ind :| ind in init && |Contributors(ledger, ind) - {hash}| == n;
        assert ind in inds;
      } else if n > 0 {
        assert last in inds;
      }
    }
  }

  // A lookup so far, with tables that do not change: what it read is current, and it has the maximum of what it saw.
  ghost predicate LookupOk(ledger: set<(Indicator, Hash)>, agg: map<Indicator, Row>, t: Reader, hash: Hash, inds: seq<Indicator>) {
    && t.hash == hash && t.seen + t.todo == inds
    && (t.read.Some? ==> t.todo != [] && t.read.value == TenantCount(agg, t.todo[0]))
    && t.max == MaxOthers(ledger, hash, t.seen)
  }

  lemma OneMoreOther(ledger: set<(Indicator, Hash)>, hash: Hash, seen: seq<Indicator>, ind: Indicator)
    ensures var others := |Contributors(ledger, ind)| - (if (ind, hash) in ledger then 1 else 0);
            var before := MaxOthers(ledger, hash, seen);
            MaxOthers(ledger, hash, seen + [ind]) == if others > before then others else before
  {
    OthersCount(ledger, hash, ind);
    assert (seen + [ind])[..|seen|] == seen;
  }

  lemma LookupMoves(s: State, r: nat, hash: Hash, inds: seq<Indicator>)
    requires Enabled(s, Read(r)) && Agree(s.ledger, s.agg) && LookupOk(s.ledger, s.agg, s.readers[r], hash, inds)
    ensures LookupOk(s.ledger, s.agg, Next(s, Read(r)).readers[r], hash, inds)
  {
    var t := s.readers[r];
    var ind := t.todo[0];
    OneMoreOther(s.ledger, hash, t.seen, ind);
    assert TenantCount(s.agg, ind) == |Contributors(s.ledger, ind)|;
    assert t.seen + [ind] + t.todo[1..] == inds;
  }

  lemma LookupStep(s: State, a: Step, r: nat, hash: Hash, inds: seq<Indicator>)
    requires Enabled(s, a) && !a.Write? && Agree(s.ledger, s.agg)
    requires r < |s.readers| && LookupOk(s.ledger, s.agg, s.readers[r], hash, inds)
    ensures var s' := Next(s, a);
            && s'.ledger == s.ledger && s'.agg == s.agg && |s'.readers| == |s.readers|
            && LookupOk(s.ledger, s.agg, s'.readers[r], hash, inds)
  {
    if a == Read(r) { LookupMoves(s, r, hash, inds); }
  }

  lemma {:induction false} LookupRun(s: State, steps: seq<Step>, end: State, r: nat, hash: Hash, inds: seq<Indicator>)
    requires Run(s, steps, end) && (forall a | a in steps :: !a.Write?)
    requires Agree(s.ledger, s.agg) && r < |s.readers| && LookupOk(s.ledger, s.agg, s.readers[r], hash, inds)
    ensures |end.readers| == |s.readers| && LookupOk(s.ledger, s.agg, end.readers[r], hash, inds)
    decreases |steps|
  {
    if steps != [] {
      LookupStep(s, steps[0], r, hash, inds);
      LookupRun(Next(s, steps[0]), steps[1..], end, r, hash, inds);
    }
  }

  /** However lookups interleave, as long as nothing is written: one that has seen all its indicators reports the most
      other tenants that share one of them. */
  lemma QuietLookupsAreExact(s: State, steps: seq<Step>, end: State, r: nat)
    requires Start(s) && Run(s, steps, end) && (forall a | a in steps :: !a.Write?)
    requires r < |s.readers| && s.readers[r].seen == []
    ensures r < |end.readers|
    ensures end.readers[r].todo == [] ==> IsMaximum(end.readers[r].max, s.ledger, s.readers[r].hash, s.readers[r].todo)
  {
    var t := s.readers[r];
    assert t in s.readers && [] + t.todo == t.todo;
    forall ind ensures TenantCount(s.agg, ind) == |Contributors(s.ledger, ind)| {
      StartOwesNothing(s, ind);
    }
    LookupRun(s, steps, end, r, t.hash, t.todo);
    if end.readers[r].todo == [] {
      assert end.readers[r].seen + [] == end.readers[r].seen;
      MaxOthersIsTheMaximum(s.ledger, t.hash, t.todo);
    }
  }

  lemma StartOwesNothing(s: State, ind: Indicator)
    requires Start(s)
    ensures TenantCount(s.agg, ind) == |Contributors(s.ledger, ind)|
  {
    NothingOwed(s.writers, ind);
    assert s.lost[ind] == 0;
  }

  function Recorded(ledger: set<(Indicator, Hash)>, hash: Hash, inds: seq<Indicator>): set<(Indicator, Hash)> {
    ledger + set i | i in inds :: (i, hash)
  }

  function Count(xs: seq<Indicator>, x: Indicator): nat { multiset(xs)[x] }

  function Observations(agg: map<Indicator, Row>, ind: Indicator): nat {
    if ind in agg then agg[ind].observations else 0
  }

  lemma RecordingOneAgrees(ledger: set<(Indicator, Hash)>, agg: map<Indicator, Row>, hash: Hash, ind: Indicator)
    requires Agree(ledger, agg)
    ensures Agree(ledger + {(ind, hash)}, Upsert(agg, ind, if (ind, hash) in ledger then 0 else 1))
  {
    var ledger', agg' := ledger + {(ind, hash)}, Upsert(agg, ind, if (ind, hash) in ledger then 0 else 1);
    forall i ensures TenantCount(agg', i) == |Contributors(ledger', i)| {
      ContributorsGrow(ledger, hash, ind, i);
      assert TenantCount(agg, i) == |Contributors(ledger, i)|;
    }
  }

  class Intel {
    var ledger: set<(Indicator, Hash)>
    var agg: map<Indicator, Row>

    method Record(hash: Hash, inds: seq<Indicator>)
      modifies this
      ensures ledger == Recorded(old(ledger), hash, inds)
      ensures forall ind :: Observations(agg, ind) == Observations(old(agg), ind) + Count(inds, ind)
      ensures Agree(old(ledger), old(agg)) ==> Agree(ledger, agg)
    {
      for i := 0 to |inds|
        invariant ledger == Recorded(old(ledger), hash, inds[..i])
        invariant forall ind :: Observations(agg, ind) == Observations(old(agg), ind) + Count(inds[..i], ind)
        invariant Agree(old(ledger), old(agg)) ==> Agree(ledger, agg)
      {
        if Agree(old(ledger), old(agg)) { RecordingOneAgrees(ledger, agg, hash, inds[i]); }
        var inc := if (inds[i], hash) in ledger then 0 else 1;
        ledger := ledger + {(inds[i], hash)};
        agg := Upsert(agg, inds[i], inc);
        assert inds[..i + 1] == inds[..i] + [inds[i]];
      }
      assert inds[..|inds|] == inds;
    }

    method OtherTenantSightings(hash: Hash, inds: seq<Indicator>) returns (max: nat)
      ensures Agree(ledger, agg) ==> max == MaxOthers(ledger, hash, inds) && IsMaximum(max, ledger, hash, inds)
    {
      max := 0;
      for i := 0 to |inds|
        invariant Agree(ledger, agg) ==> max == MaxOthers(ledger, hash, inds[..i])
      {
        var ind := inds[i];
        assert inds[..i + 1][..i] == inds[..i];
        OthersCount(ledger, hash, ind);
        assert Agree(ledger, agg) ==> TenantCount(agg, ind) == |Contributors(ledger, ind)|;
        if ind in agg {
          var others := agg[ind].tenants - (if (ind, hash) in ledger then 1 else 0);
          if others > max { max := others; }
        }
      }
      assert inds[..|inds|] == inds;
      MaxOthersIsTheMaximum(ledger, hash, inds);
    }
  }

  /** Recording is idempotent per tenant: contributing indicators again adds no contributor. */
  lemma RecordingAgainAddsNothing(ledger: set<(Indicator, Hash)>, hash: Hash, inds: seq<Indicator>)
    ensures Recorded(Recorded(ledger, hash, inds), hash, inds) == Recorded(ledger, hash, inds)
    ensures MaxOthers(Recorded(ledger, hash, inds), hash, inds) == MaxOthers(ledger, hash, inds)
  {
    OwnSightingsDoNotCount(ledger, hash, inds, inds);
  }

  lemma {:induction false} OwnSightingsDoNotCount(ledger: set<(Indicator, Hash)>, hash: Hash, recorded: seq<Indicator>, inds: seq<Indicator>)
    ensures MaxOthers(Recorded(ledger, hash, recorded), hash, inds) == MaxOthers(ledger, hash, inds)
  {
    if inds != [] {
      OwnSightingsDoNotCount(ledger, hash, recorded, inds[..|inds| - 1]);
      var ind := inds[|inds| - 1];
      var ledger' := Recorded(ledger, hash, recorded);
      forall h ensures h in Contributors(ledger', ind) - {hash} <==> h in Contributors(ledger, ind) - {hash} {
        if h in Contributors(ledger, ind) { assert (ind, h) in ledger'; }
      }
      assert Contributors(ledger', ind) - {hash} == Contributors(ledger, ind) - {hash};
    }
  }
}
