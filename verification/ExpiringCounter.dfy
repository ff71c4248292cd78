/** Counters in Redis that expire: every increment also renews the time to live, and a key is gone once the clock
    is past its expiry. */
module ExpiringCounter {
  datatype Counter = Counter(val: nat, expiry: nat)

  function Incr(m: map<(nat, nat), Counter>, key: (nat, nat), now: nat, ttl: nat): map<(nat, nat), Counter> {
    var val := if key in m && now <= m[key].expiry then m[key].val + 1 else 1;
    m[key := Counter(val, now + ttl)]
  }

  function Least(a: nat, b: nat): nat { if a < b then a else b }

  // The value an expiring counter has after increments at these times.
  function Streak(ts: seq<nat>, ttl: nat): nat {
    var n := |ts|;
    if n == 0 then 0 else if n > 1 && ts[n - 1] <= ts[n - 2] + ttl then Streak(ts[..n - 1], ttl) + 1 else 1
  }

  // How many of the increments found the counter within the limit.
  function Admitted(ts: seq<nat>, limit: nat, ttl: nat): nat {
    if ts == [] then 0 else Admitted(ts[..|ts| - 1], limit, ttl) + (if Streak(ts, ttl) <= limit then 1 else 0)
  }

  // The counter never expired between two increments.
  predicate Unbroken(ts: seq<nat>, ttl: nat) {
    forall i | 0 < i < |ts| :: InTime(ts, i, ttl)
  }

  predicate InTime(ts: seq<nat>, i: nat, ttl: nat)
    requires 0 < i < |ts|
  {
    ts[i] <= ts[i - 1] + ttl
  }

  lemma {:induction false} StreakBounds(ts: seq<nat>, ttl: nat)
    requires ts != []
    ensures 1 <= Streak(ts, ttl) <= |ts|
    ensures Streak(ts, ttl) == |ts| <==> Unbroken(ts, ttl)
  {
    var init := ts[..|ts| - 1];
    if init != [] {
      StreakBounds(init, ttl);
      UnbrokenPrefix(ts, ttl);
    }
  }

  lemma UnbrokenPrefix(ts: seq<nat>, ttl: nat)
    requires ts != []
    ensures Unbroken(ts, ttl) <==> Unbroken(ts[..|ts| - 1], ttl) && (|ts| > 1 ==> InTime(ts, |ts| - 1, ttl))
  {
    var init := ts[..|ts| - 1];
    forall i | 0 < i < |init| ensures InTime(init, i, ttl) == InTime(ts, i, ttl) {}
  }

  lemma {:induction false} AdmittedUpToTheLimit(ts: seq<nat>, limit: nat, ttl: nat)
    requires Unbroken(ts, ttl) || |ts| <= limit || limit == 0
    ensures Admitted(ts, limit, ttl) == Least(|ts|, limit)
  {
    if ts != [] {
      StreakBounds(ts, ttl);
      UnbrokenPrefix(ts, ttl);
      AdmittedUpToTheLimit(ts[..|ts| - 1], limit, ttl);
    }
  }

  lemma {:induction false} AdmittedBeyondTheLimit(ts: seq<nat>, limit: nat, ttl: nat)
    requires !Unbroken(ts, ttl) && |ts| > limit > 0
    ensures Admitted(ts, limit, ttl) > limit
  {
    var init := ts[..|ts| - 1];
    StreakBounds(ts, ttl);
    if Unbroken(init, ttl) || |init| <= limit {
      AdmittedUpToTheLimit(init, limit, ttl);
      if Unbroken(init, ttl) { BreakAtTheEnd(ts, ttl); }
    } else {
      AdmittedBeyondTheLimit(init, limit, ttl);
    }
  }

  lemma BreakAtTheEnd(ts: seq<nat>, ttl: nat)
    requires ts != [] && !Unbroken(ts, ttl) && Unbroken(ts[..|ts| - 1], ttl)
    ensures Streak(ts, ttl) == 1
  {
    UnbrokenPrefix(ts, ttl);
  }

  /** A counter admits exactly up to its limit if and only if it never expired between two increments, or was
      not incremented more often than the limit, or the limit is zero; otherwise it admits more. */
  lemma AdmittedExactly(ts: seq<nat>, limit: nat, ttl: nat)
    ensures Admitted(ts, limit, ttl) >= Least(|ts|, limit)
    ensures Admitted(ts, limit, ttl) == Least(|ts|, limit) <==> Unbroken(ts, ttl) || |ts| <= limit || limit == 0
  {
    if Unbroken(ts, ttl) || |ts| <= limit || limit == 0 {
      AdmittedUpToTheLimit(ts, limit, ttl);
    } else {
      AdmittedBeyondTheLimit(ts, limit, ttl);
    }
  }

  predicate InOrder(ts: seq<nat>) {
    forall i, j | 0 <= i < j < |ts| :: ts[i] <= ts[j]
  }

  // How often the counter expired between two increments.
  function Breaks(ts: seq<nat>, ttl: nat): nat {
    var n := |ts|;
    if n <= 1 then 0 else Breaks(ts[..n - 1], ttl) + (if ts[n - 1] <= ts[n - 2] + ttl then 0 else 1)
  }

  lemma {:induction false} BreaksTakeTime(ts: seq<nat>, ttl: nat)
    requires ts != [] && InOrder(ts)
    ensures ts[0] + Breaks(ts, ttl) * ttl <= ts[|ts| - 1]
  {
    var n, init := |ts|, ts[..|ts| - 1];
    if n > 1 {
      BreaksTakeTime(init, ttl);
      assert (Breaks(init, ttl) + 1) * ttl == Breaks(init, ttl) * ttl + ttl;
    }
  }

  lemma {:induction false} AdmittedPerStreak(ts: seq<nat>, limit: nat, ttl: nat)
    ensures Admitted(ts, limit, ttl) <= Breaks(ts, ttl) * limit + Least(Streak(ts, ttl), limit)
  {
    if ts != [] {
      var init := ts[..|ts| - 1];
      AdmittedPerStreak(init, limit, ttl);
      assert (Breaks(init, ttl) + 1) * limit == Breaks(init, ttl) * limit + limit;
    }
  }

  // The counter is what the increments so far make of it.
  predicate CounterOk(m: map<(nat, nat), Counter>, key: (nat, nat), ts: seq<nat>, ttl: nat) {
    if ts == [] then key !in m else key in m && m[key] == Counter(Streak(ts, ttl), ts[|ts| - 1] + ttl)
  }

  lemma IncrOk(m: map<(nat, nat), Counter>, key: (nat, nat), ts: seq<nat>, now: nat, ttl: nat)
    requires CounterOk(m, key, ts, ttl)
    ensures CounterOk(Incr(m, key, now, ttl), key, ts + [now], ttl)
    ensures Incr(m, key, now, ttl)[key].val == Streak(ts + [now], ttl)
  {
    assert (ts + [now])[..|ts|] == ts;
  }

  lemma AdmittedGrows(ts: seq<nat>, now: nat, limit: nat, ttl: nat)
    ensures Admitted(ts + [now], limit, ttl) == Admitted(ts, limit, ttl) + (if Streak(ts + [now], ttl) <= limit then 1 else 0)
  {
    assert (ts + [now])[..|ts|] == ts;
  }
}
