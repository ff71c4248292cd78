/** Replaying the dead-letter queue: entries are popped oldest first, remapped, and either forwarded,
    requeued with one retry more, or parked as poison. */
module DeadLetters {
  import opened Wrappers

  const MAX_SIZE: nat := 5000
  const MAX_RETRIES: nat := 2

  // A list element; Garbage is text that is not an envelope.
  datatype Item = Garbage(text: string) | Entry(payload: string, reason: string, error: string, retries: int)

  // Remapping a payload: the incidents it yields, or the error it fails with.
  datatype Mapped = Incidents(all: seq<string>) | MapError(message: string)

  // The three Redis lists; index 0 is the head, where pushes go, and pops take the last element.
  datatype Queues = Queues(dlq: seq<Item>, normalized: seq<string>, poison: seq<Item>)

  datatype Tally = Tally(replayed: nat, requeued: nat, poisoned: nat, dropped: nat)

  function Trim(s: seq<Item>): seq<Item> {
    if |s| > MAX_SIZE then s[..MAX_SIZE] else s
  }

  function PushToDlq(q: Queues, e: Item): Queues {
    q.(dlq := Trim([e] + q.dlq))
  }

  function PushAll(normalized: seq<string>, all: seq<string>): seq<string>
    decreases |all|
  {
    if all == [] then normalized else PushAll([all[0]] + normalized, all[1..])
  }

  datatype Verdict = Dropped | Forwarded(all: seq<string>) | Requeued(e: Item) | Poisoned(e: Item)

  // What becomes of one popped element.
  function Judge(e: Item, remap: string -> Mapped): Verdict {
    match e
    case Garbage(_) => Dropped
    case Entry(payload, reason, _, retries) =>
      match remap(payload)
      case Incidents(all) => Forwarded(all)
      case MapError(message) =>
        var failed := Entry(payload, reason, message, retries + 1);
        if retries + 1 >= MAX_RETRIES then Poisoned(failed) else Requeued(failed)
  }

  function Count(t: Tally, v: Verdict): Tally {
    match v
    case Dropped => t.(dropped := t.dropped + 1)
    case Forwarded(_) => t.(replayed := t.replayed + 1)
    case Requeued(_) => t.(requeued := t.requeued + 1)
    case Poisoned(_) => t.(poisoned := t.poisoned + 1)
  }

  // ----- the replay call -----

  class Redis {
    var dlq: seq<Item>
    var normalized: seq<string>
    var poison: seq<Item>

    function View(): Queues
      reads this
    {
      Queues(dlq, normalized, poison)
    }

    method RPop() returns (e: Option<Item>)
      modifies this`dlq
      ensures e.None? <==> old(dlq) == []
      ensures e.None? ==> dlq == old(dlq)
      ensures e.Some? ==> old(dlq) == dlq + [e.value]
    {
      if dlq == [] { return None; }
      e := Some(dlq[|dlq| - 1]);
      dlq := dlq[..|dlq| - 1];
    }

    method PushDlq(e: Item)
      modifies this`dlq
      ensures View() == PushToDlq(old(View()), e)
      ensures 1 <= |dlq| <= MAX_SIZE && dlq[0] == e
      ensures |dlq| == if |old(dlq)| < MAX_SIZE then |old(dlq)| + 1 else MAX_SIZE
      ensures forall i | 0 < i < |dlq| :: dlq[i] == old(dlq)[i - 1]
    {
      dlq := [e] + dlq;
      if |dlq| > MAX_SIZE { dlq := dlq[..MAX_SIZE]; }
    }

    method Replay(limit: nat, remap: string -> Mapped) returns (t: Tally)
      modifies this
      ensures (View(), t) == ReplayN(old(View()), if limit < |old(dlq)| then limit else |old(dlq)|, remap, Tally(0, 0, 0, 0))
      ensures |old(dlq)| <= MAX_SIZE ==>
        Replayed(old(View()), if limit < |old(dlq)| then limit else |old(dlq)|, remap, View(), t)
    {
      var iterations: nat := if limit < |dlq| then limit else |dlq|;
      if |dlq| <= MAX_SIZE { ReplayDelivers(View(), iterations, remap); }
      t := Rounds(iterations, remap);
    }

    // The loop itself.
    method Rounds(iterations: nat, remap: string -> Mapped) returns (t: Tally)
      modifies this
      ensures (View(), t) == ReplayN(old(View()), iterations, remap, Tally(0, 0, 0, 0))
    {
      t := Tally(0, 0, 0, 0);
      ghost var end := ReplayN(View(), iterations, remap, t);
      for i := 0 to iterations
        invariant ReplayN(View(), iterations - i, remap, t) == end
      {
        var more;
        t, more := ReplayOne(remap, t, iterations - i, end);
        if !more { return; }
      }
      ReplayEnds(View(), 0, remap, t);
    }

    // One round of the loop; there are n left, itself included, and they lead to end.
    method ReplayOne(remap: string -> Mapped, t: Tally, ghost n: nat, ghost end: (Queues, Tally)) returns (t': Tally, more: bool)
      requires n > 0 && ReplayN(View(), n, remap, t) == end
      modifies this
      ensures more ==> ReplayN(View(), n - 1, remap, t') == end
      ensures !more ==> (View(), t') == end
    {
      ghost var before := View();
      var e := RPop();
      if e.None? {
        ReplayEnds(before, n, remap, t);
        return t, false;
      }
      ReplayUnfolds(before, n, remap, t, View(), e.value);
      t' := Settle(e.value, remap, t);
      more := true;
    }

    // What the loop does with one popped element.
    method Settle(e: Item, remap: string -> Mapped, t: Tally) returns (t': Tally)
      modifies this
      ensures View() == Deliver(old(View()), Judge(e, remap)) && t' == Count(t, Judge(e, remap))
    {
      match e {
        case Garbage(_) =>
          t' := t.(dropped := t.dropped + 1);
        case Entry(payload, reason, _, retries) =>
          var mapped := remap(payload);
          if mapped.Incidents? {
            PushNormalized(mapped.all);
            t' := t.(replayed := t.replayed + 1);
          } else {
            var failed := Entry(payload, reason, mapped.message, retries + 1);
            if failed.retries >= MAX_RETRIES {
              poison := [failed] + poison;
              t' := t.(poisoned := t.poisoned + 1);
            } else {
              PushDlq(failed);
              t' := t.(requeued := t.requeued + 1);
            }
          }
      }
    }

    method PushNormalized(all: seq<string>)
      modifies this`normalized
      ensures normalized == PushAll(old(normalized), all)
    {
      for i := 0 to |all|
        invariant PushAll(normalized, all[i..]) == PushAll(old(normalized), all)
      {
        normalized := [all[i]] + normalized;
        assert all[i..][1..] == all[i + 1..];
      }
    }
  }

  // ----- its effect as a function -----

  function Deliver(q: Queues, v: Verdict): Queues {
    match v
    case Dropped => q
    case Forwarded(all) => q.(normalized := PushAll(q.normalized, all))
    case Requeued(e) => PushToDlq(q, e)
    case Poisoned(e) => q.(poison := [e] + q.poison)
  }

  // n iterations of the loop; an empty list ends it.
  function ReplayN(q: Queues, n: nat, remap: string -> Mapped, t: Tally): (Queues, Tally)
    decreases n
  {
    if n == 0 || q.dlq == [] then (q, t)
    else
      var last := |q.dlq| - 1;
      var v := Judge(q.dlq[last], remap);
      ReplayN(Deliver(q.(dlq := q.dlq[..last]), v), n - 1, remap, Count(t, v))
  }

  lemma ReplayEnds(q: Queues, n: nat, remap: string -> Mapped, t: Tally)
    requires n == 0 || q.dlq == []
    ensures ReplayN(q, n, remap, t) == (q, t)
  {
  }

  lemma ReplayUnfolds(q: Queues, n: nat, remap: string -> Mapped, t: Tally, rest: Queues, e: Item)
    requires n > 0 && q.dlq == rest.dlq + [e] && rest == q.(dlq := rest.dlq)
    ensures var v := Judge(e, remap); ReplayN(q, n, remap, t) == ReplayN(Deliver(rest, v), n - 1, remap, Count(t, v))
  {
  }

  // The n oldest elements in the order they are popped.
  function Oldest(s: seq<Item>, n: nat): seq<Item>
    requires n <= |s|
    decreases n
  {
    if n == 0 then [] else [s[|s| - 1]] + Oldest(s[..|s| - 1], n - 1)
  }

  lemma {:induction false} OldestAreTheTail(s: seq<Item>, n: nat)
    requires n <= |s|
    ensures |Oldest(s, n)| == n && forall k | 0 <= k < n :: Oldest(s, n)[k] == s[|s| - 1 - k]
    decreases n
  {
    if n > 0 { OldestAreTheTail(s[..|s| - 1], n - 1); }
  }

  lemma {:induction false} OldestIgnoresTheHead(x: Item, s: seq<Item>, n: nat)
    requires n <= |s|
    ensures Oldest([x] + s, n) == Oldest(s, n)
    decreases n
  {
    if n > 0 {
      var t, init := [x] + s, s[..|s| - 1];
      OldestIgnoresTheHead(x, init, n - 1);
      assert t[..|t| - 1] == [x] + init && t[|t| - 1] == s[|s| - 1];
    }
  }

  function Reverse<T>(s: seq<T>): seq<T> {
    if s == [] then [] else Reverse(s[1..]) + [s[0]]
  }

  lemma {:induction false} PushAllReverses(normalized: seq<string>, all: seq<string>)
    ensures PushAll(normalized, all) == Reverse(all) + normalized
    decreases |all|
  {
    if all != [] {
      PushAllReverses([all[0]] + normalized, all[1..]);
      assert Reverse(all[1..]) + ([all[0]] + normalized) == Reverse(all) + normalized;
    }
  }

  function PushEach(q: Queues, es: seq<Item>): Queues
    decreases |es|
  {
    if es == [] then q else PushEach(PushToDlq(q, es[0]), es[1..])
  }

  lemma TrimTwice(e: Item, s: seq<Item>, front: seq<Item>)
    ensures Trim(front + Trim([e] + s)) == Trim(front + [e] + s)
  {
    var all := front + [e] + s;
    assert front + ([e] + s) == all;
    if |s| + 1 > MAX_SIZE {
      assert front + ([e] + s)[..MAX_SIZE] == all[..|front| + MAX_SIZE];
      assert all[..|front| + MAX_SIZE][..MAX_SIZE] == all[..MAX_SIZE];
    }
  }

  /** However many entries are pushed, the queue holds exactly the newest of them and of what was there, up to
      the cap, newest first; nothing else changes. */
  lemma {:induction false} PushesKeepTheNewest(q: Queues, es: seq<Item>)
    requires |q.dlq| <= MAX_SIZE
    ensures PushEach(q, es) == q.(dlq := Trim(Reverse(es) + q.dlq)) && |PushEach(q, es).dlq| <= MAX_SIZE
    decreases |es|
  {
    if es == [] {
      assert Reverse(es) + q.dlq == q.dlq;
    } else {
      PushesKeepTheNewest(PushToDlq(q, es[0]), es[1..]);
      TrimTwice(es[0], q.dlq, Reverse(es[1..]));
    }
  }

  // What a list of popped elements adds to each queue, newest first, and how it is tallied.
  function Requeues(es: seq<Item>, remap: string -> Mapped): seq<Item> {
    if es == [] then []
    else Requeues(es[1..], remap) + (var v := Judge(es[0], remap); if v.Requeued? then [v.e] else [])
  }

  function Poisons(es: seq<Item>, remap: string -> Mapped): seq<Item> {
    if es == [] then []
    else Poisons(es[1..], remap) + (var v := Judge(es[0], remap); if v.Poisoned? then [v.e] else [])
  }

  function Forwards(es: seq<Item>, remap: string -> Mapped): seq<string> {
    if es == [] then []
    else Forwards(es[1..], remap) + (var v := Judge(es[0], remap); if v.Forwarded? then Reverse(v.all) else [])
  }

  function Tallied(es: seq<Item>, remap: string -> Mapped, t: Tally): Tally
    decreases |es|
  {
    if es == [] then t else Tallied(es[1..], remap, Count(t, Judge(es[0], remap)))
  }

  // The queues and the tally that n pops of the oldest entries should leave.
  function Expected(q: Queues, n: nat, remap: string -> Mapped, t: Tally): (Queues, Tally)
    requires n <= |q.dlq|
  {
    var es := Oldest(q.dlq, n);
    (Queues(Requeues(es, remap) + q.dlq[..|q.dlq| - n], Forwards(es, remap) + q.normalized, Poisons(es, remap) + q.poison),
     Tallied(es, remap, t))
  }

  // Popping the oldest entry and pushing at most one back changes neither the other oldest nor the rest.
  lemma OldestWithPush(dlq: seq<Item>, n: nat, push: seq<Item>)
    requires 0 < n <= |dlq| && |push| <= 1
    ensures var after := push + dlq[..|dlq| - 1];
            && Oldest(dlq, n) == [dlq[|dlq| - 1]] + Oldest(after, n - 1)
            && after[..|after| - (n - 1)] == push + dlq[..|dlq| - n]
  {
    var init := dlq[..|dlq| - 1];
    assert init[..|init| - (n - 1)] == dlq[..|dlq| - n];
    if push == [] {
      assert push + init == init;
    } else {
      assert push == [push[0]];
      OldestIgnoresTheHead(push[0], init, n - 1);
    }
  }

  function PushedBack(v: Verdict): seq<Item> { if v.Requeued? then [v.e] else [] }

  lemma DeliveredDlq(q: Queues, v: Verdict)
    requires |q.dlq| < MAX_SIZE
    ensures Deliver(q, v).dlq == PushedBack(v) + q.dlq
  {
    assert [] + q.dlq == q.dlq;
  }

  lemma OldestAfterPop(q: Queues, n: nat, v: Verdict)
    requires 0 < n <= |q.dlq| <= MAX_SIZE
    ensures var init := q.dlq[..|q.dlq| - 1];
            var q1 := Deliver(q.(dlq := init), v);
            && n - 1 <= |q1.dlq| <= MAX_SIZE
            && Oldest(q.dlq, n) == [q.dlq[|q.dlq| - 1]] + Oldest(q1.dlq, n - 1)
            && q1.dlq[..|q1.dlq| - (n - 1)] == PushedBack(v) + q.dlq[..|q.dlq| - n]
  {
    DeliveredDlq(q.(dlq := q.dlq[..|q.dlq| - 1]), v);
    OldestWithPush(q.dlq, n, PushedBack(v));
  }

  lemma ExpectedStep(q: Queues, n: nat, remap: string -> Mapped, t: Tally)
    requires 0 < n <= |q.dlq| <= MAX_SIZE
    ensures var v := Judge(q.dlq[|q.dlq| - 1], remap);
            var q1 := Deliver(q.(dlq := q.dlq[..|q.dlq| - 1]), v);
            n - 1 <= |q1.dlq| <= MAX_SIZE && Expected(q1, n - 1, remap, Count(t, v)) == Expected(q, n, remap, t)
  {
    var last := q.dlq[|q.dlq| - 1];
    var v := Judge(last, remap);
    var q1 := Deliver(q.(dlq := q.dlq[..|q.dlq| - 1]), v);
    var es := Oldest(q.dlq, n);
    OldestAfterPop(q, n, v);
    assert es[0] == last && es[1..] == Oldest(q1.dlq, n - 1);
    if v.Forwarded? { PushAllReverses(q.normalized, v.all); }
    assert [] + q.dlq[..|q.dlq| - n] == q.dlq[..|q.dlq| - n];
    YieldsAppend(es, remap, q.dlq[..|q.dlq| - n], q.normalized, q.poison);
  }

  lemma Assoc<T>(a: seq<T>, b: seq<T>, c: seq<T>)
    ensures (a + b) + c == a + (b + c) && a + [] == a
  {
  }

  lemma YieldsAppend(es: seq<Item>, remap: string -> Mapped, dlq: seq<Item>, normalized: seq<string>, poison: seq<Item>)
    requires es != []
    ensures var v := Judge(es[0], remap);
      && Requeues(es, remap) + dlq == Requeues(es[1..], remap) + (if v.Requeued? then [v.e] + dlq else dlq)
      && Poisons(es, remap) + poison == Poisons(es[1..], remap) + (if v.Poisoned? then [v.e] + poison else poison)
      && Forwards(es, remap) + normalized == Forwards(es[1..], remap) + (if v.Forwarded? then Reverse(v.all) + normalized else normalized)
  {
    var v := Judge(es[0], remap);
    Assoc(Requeues(es[1..], remap), if v.Requeued? then [v.e] else [], dlq);
    Assoc(Poisons(es[1..], remap), if v.Poisoned? then [v.e] else [], poison);
    Assoc(Forwards(es[1..], remap), if v.Forwarded? then Reverse(v.all) else [], normalized);
  }

  /** A replay of n entries pops exactly the n oldest, once each and in order, trims nothing, leaves the newer
      ones in place behind the requeued, and adds to the other queues just what those entries yield. */
  lemma ReplayIsFifo(q: Queues, n: nat, remap: string -> Mapped, t: Tally)
    requires n <= |q.dlq| <= MAX_SIZE
    ensures var es := Oldest(q.dlq, n);
            ReplayN(q, n, remap, t) ==
              (Queues(Requeues(es, remap) + q.dlq[..|q.dlq| - n], Forwards(es, remap) + q.normalized, Poisons(es, remap) + q.poison),
               Tallied(es, remap, t))
  {
    ReplayMeetsExpected(q, n, remap, t);
  }

  lemma {:induction false} ReplayMeetsExpected(q: Queues, n: nat, remap: string -> Mapped, t: Tally)
    requires n <= |q.dlq| <= MAX_SIZE
    ensures ReplayN(q, n, remap, t) == Expected(q, n, remap, t)
    decreases n
  {
    if n == 0 {
      NothingExpected(q, remap, t);
    } else {
      var last := q.dlq[|q.dlq| - 1];
      var rest := q.(dlq := q.dlq[..|q.dlq| - 1]);
      var v := Judge(last, remap);
      ExpectedStep(q, n, remap, t);
      ReplayUnfolds(q, n, remap, t, rest, last);
      ReplayMeetsExpected(Deliver(rest, v), n - 1, remap, Count(t, v));
    }
  }

  lemma NothingExpected(q: Queues, remap: string -> Mapped, t: Tally)
    ensures Expected(q, 0, remap, t) == (q, t) == ReplayN(q, 0, remap, t)
  {
    assert [] + q.dlq[..|q.dlq|] == q.dlq && [] + q.normalized == q.normalized && [] + q.poison == q.poison;
  }

  function Sum(t: Tally): nat { t.replayed + t.requeued + t.poisoned + t.dropped }

  /** Conservation: every popped entry is counted in exactly one column, and the requeued and poisoned
      columns are the number of entries that went there. */
  lemma {:induction false} TallyConserves(es: seq<Item>, remap: string -> Mapped, t: Tally)
    ensures var t' := Tallied(es, remap, t);
            && Sum(t') == Sum(t) + |es|
            && t'.requeued == t.requeued + |Requeues(es, remap)|
            && t'.poisoned == t.poisoned + |Poisons(es, remap)|
    decreases |es|
  {
    if es != [] { TallyConserves(es[1..], remap, Count(t, Judge(es[0], remap))); }
  }

  // ----- what becomes of each entry -----

  // It is an envelope, and its payload maps to incidents.
  predicate Maps(e: Item, remap: string -> Mapped) { e.Entry? && remap(e.payload).Incidents? }

  predicate Fails(e: Item, remap: string -> Mapped) { e.Entry? && remap(e.payload).MapError? }

  // The incidents of the entries that map, in order.
  function Delivered(es: seq<Item>, remap: string -> Mapped): seq<string> {
    if es == [] then [] else (if Maps(es[0], remap) then remap(es[0].payload).all else []) + Delivered(es[1..], remap)
  }

  // The entries that fail, with the same payload and reason, the new error and one retry more: those with
  // retries left, or those without.
  function FailedAgain(es: seq<Item>, remap: string -> Mapped, spent: bool): seq<Item> {
    if es == [] then []
    else
      var rest := FailedAgain(es[1..], remap, spent);
      if Fails(es[0], remap) && (es[0].retries + 1 >= 2) == spent
      then [Entry(es[0].payload, es[0].reason, remap(es[0].payload).message, es[0].retries + 1)] + rest
      else rest
  }

  function HowMany(es: seq<Item>, which: Item -> bool): nat {
    if es == [] then 0 else (if which(es[0]) then 1 else 0) + HowMany(es[1..], which)
  }

  // What replaying the n oldest entries leaves in the three lists, newest first, and reports.
  ghost predicate Replayed(q: Queues, n: nat, remap: string -> Mapped, q': Queues, t: Tally) {
    n <= |q.dlq| &&
    var es := Oldest(q.dlq, n);
    && q'.normalized == Reverse(Delivered(es, remap)) + q.normalized
    && q'.dlq == Reverse(FailedAgain(es, remap, false)) + q.dlq[..|q.dlq| - n]
    && q'.poison == Reverse(FailedAgain(es, remap, true)) + q.poison
    && t.replayed == HowMany(es, e => Maps(e, remap))
    && t.dropped == HowMany(es, (e: Item) => e.Garbage?)
    && t.requeued == |FailedAgain(es, remap, false)|
    && t.poisoned == |FailedAgain(es, remap, true)|
  }

  lemma {:induction false} ReverseConcat<T>(a: seq<T>, b: seq<T>)
    ensures Reverse(a + b) == Reverse(b) + Reverse(a)
  {
    if a == [] {
      assert a + b == b;
    } else {
      assert (a + b)[1..] == a[1..] + b;
      ReverseConcat(a[1..], b);
    }
  }

  lemma {:induction false} ReverseLength<T>(a: seq<T>)
    ensures |Reverse(a)| == |a|
  {
    if a != [] { ReverseLength(a[1..]); }
  }

  lemma {:induction false} ForwardsAreDelivered(es: seq<Item>, remap: string -> Mapped)
    ensures Forwards(es, remap) == Reverse(Delivered(es, remap))
  {
    if es != [] {
      ForwardsAreDelivered(es[1..], remap);
      ReverseConcat(if Maps(es[0], remap) then remap(es[0].payload).all else [], Delivered(es[1..], remap));
    }
  }

  lemma ReverseOne<T>(x: T)
    ensures Reverse([x]) == [x]
  {
    assert [x][1..] == [];
  }

  lemma {:induction false} RequeuesFailedAgain(es: seq<Item>, remap: string -> Mapped)
    ensures Requeues(es, remap) == Reverse(FailedAgain(es, remap, false))
  {
    if es != [] {
      RequeuesFailedAgain(es[1..], remap);
      var v := Judge(es[0], remap);
      if v.Requeued? {
        assert FailedAgain(es, remap, false) == [v.e] + FailedAgain(es[1..], remap, false);
        ReverseConcat([v.e], FailedAgain(es[1..], remap, false));
        ReverseOne(v.e);
      }
    }
  }

  lemma {:induction false} PoisonsFailedAgain(es: seq<Item>, remap: string -> Mapped)
    ensures Poisons(es, remap) == Reverse(FailedAgain(es, remap, true))
  {
    if es != [] {
      PoisonsFailedAgain(es[1..], remap);
      var v := Judge(es[0], remap);
      if v.Poisoned? {
        assert FailedAgain(es, remap, true) == [v.e] + FailedAgain(es[1..], remap, true);
        ReverseConcat([v.e], FailedAgain(es[1..], remap, true));
        ReverseOne(v.e);
      }
    }
  }

  lemma {:induction false} TallyCounts(es: seq<Item>, remap: string -> Mapped, t: Tally)
    ensures Tallied(es, remap, t).replayed == t.replayed + HowMany(es, e => Maps(e, remap))
    ensures Tallied(es, remap, t).dropped == t.dropped + HowMany(es, (e: Item) => e.Garbage?)
    decreases |es|
  {
    if es != [] { TallyCounts(es[1..], remap, Count(t, Judge(es[0], remap))); }
  }

  /** A replay of the n oldest entries delivers exactly the incidents the mapping yields for them, in order; brings
      every other envelope back with the same payload and reason, the new error and one retry more, to the
      queue below two retries and to the poison list otherwise; and reports how many mapped, came back, were
      parked, or were no envelope and dropped. */
  lemma ReplayDelivers(q: Queues, n: nat, remap: string -> Mapped)
    requires n <= |q.dlq| <= MAX_SIZE
    ensures var end := ReplayN(q, n, remap, Tally(0, 0, 0, 0)); Replayed(q, n, remap, end.0, end.1)
  {
    var es := Oldest(q.dlq, n);
    ReplayIsFifo(q, n, remap, Tally(0, 0, 0, 0));
    ForwardsAreDelivered(es, remap);
    RequeuesFailedAgain(es, remap);
    PoisonsFailedAgain(es, remap);
    TallyConserves(es, remap, Tally(0, 0, 0, 0));
    TallyCounts(es, remap, Tally(0, 0, 0, 0));
    ReverseLength(FailedAgain(es, remap, false));
    ReverseLength(FailedAgain(es, remap, true));
  }

  // ----- retry counts -----

  predicate Retryable(e: Item, least: int) {
    e.Entry? ==> least <= e.retries < MAX_RETRIES
  }

  predicate Spent(e: Item) { e.Entry? && e.retries == MAX_RETRIES }

  ghost predicate RetriesOk(q: Queues) {
    && |q.dlq| <= MAX_SIZE
    && (forall e | e in q.dlq :: Retryable(e, 0))
    && (forall e | e in q.poison :: Spent(e))
  }

  lemma {:induction false} RequeuesHaveOneMore(es: seq<Item>, remap: string -> Mapped, least: int)
    requires forall e | e in es :: Retryable(e, least)
    ensures forall e | e in Requeues(es, remap) :: e.Entry? && Retryable(e, least + 1)
    ensures forall e | e in Poisons(es, remap) :: Spent(e)
  {
    if es != [] {
      assert forall e | e in es[1..] :: e in es;
      RequeuesHaveOneMore(es[1..], remap, least);
      assert es[0] in es;
    }
  }

  lemma ReplayKeepsRetries(q: Queues, n: nat, remap: string -> Mapped, t: Tally)
    requires RetriesOk(q) && n <= |q.dlq|
    ensures RetriesOk(ReplayN(q, n, remap, t).0)
  {
    var es := Oldest(q.dlq, n);
    ReplayIsFifo(q, n, remap, t);
    OldestAreTheTail(q.dlq, n);
    assert forall e | e in es :: e in q.dlq;
    RequeuesHaveOneMore(es, remap, 0);
    TallyConserves(es, remap, Tally(0, 0, 0, 0));
  }

  lemma FreshPushKeepsRetries(q: Queues, payload: string, reason: string, error: string)
    requires RetriesOk(q)
    ensures RetriesOk(PushToDlq(q, Entry(payload, reason, error, 0)))
  {
  }

  datatype Call = Fail(payload: string, reason: string, error: string) | ReplayCall(limit: nat, remap: string -> Mapped)

  function After(q: Queues, c: Call): Queues {
    match c
    case Fail(payload, reason, error) => PushToDlq(q, Entry(payload, reason, error, 0))
    case ReplayCall(limit, remap) => ReplayN(q, if limit < |q.dlq| then limit else |q.dlq|, remap, Tally(0, 0, 0, 0)).0
  }

  function AfterAll(q: Queues, calls: seq<Call>): Queues
    decreases |calls|
  {
    if calls == [] then q else AfterAll(After(q, calls[0]), calls[1..])
  }

  /** Over any serial history of mapping failures and replays: the queue stays within its cap, its entries
      stay below the retry maximum, and every poison entry sits exactly at it. */
  lemma {:induction false} HistoryKeepsRetries(q: Queues, calls: seq<Call>)
    requires RetriesOk(q)
    ensures RetriesOk(AfterAll(q, calls))
    decreases |calls|
  {
    if calls != [] {
      match calls[0] {
        case Fail(payload, reason, error) => FreshPushKeepsRetries(q, payload, reason, error);
        case ReplayCall(limit, remap) =>
          ReplayKeepsRetries(q, if limit < |q.dlq| then limit else |q.dlq|, remap, Tally(0, 0, 0, 0));
      }
      HistoryKeepsRetries(After(q, calls[0]), calls[1..]);
    }
  }

  // ----- draining -----

  function Budget(s: seq<Item>): int {
    if s == [] then 0 else (if s[0].Entry? then MAX_RETRIES - s[0].retries else 1) + Budget(s[1..])
  }

  lemma {:induction false} BudgetConcat(a: seq<Item>, b: seq<Item>)
    ensures Budget(a + b) == Budget(a) + Budget(b)
  {
    if a == [] {
      assert a + b == b;
    } else {
      assert (a + b)[1..] == a[1..] + b;
      BudgetConcat(a[1..], b);
    }
  }

  lemma {:induction false} RequeuesCostBudget(es: seq<Item>, remap: string -> Mapped)
    requires forall e | e in es :: Retryable(e, 0)
    ensures Budget(Requeues(es, remap)) + |es| <= Budget(es)
  {
    if es != [] {
      assert forall e | e in es[1..] :: e in es;
      assert es[0] in es;
      RequeuesCostBudget(es[1..], remap);
      var v := Judge(es[0], remap);
      BudgetConcat(Requeues(es[1..], remap), if v.Requeued? then [v.e] else []);
    }
  }

  lemma {:induction false} OldestBudget(s: seq<Item>, n: nat)
    requires n <= |s|
    ensures Budget(s) == Budget(s[..|s| - n]) + Budget(Oldest(s, n))
    decreases n
  {
    if n == 0 {
      assert s[..|s|] == s;
    } else {
      var init, last := s[..|s| - 1], s[|s| - 1];
      assert s == init + [last] && init[..|init| - (n - 1)] == s[..|s| - n];
      BudgetConcat(init, [last]);
      OldestBudget(init, n - 1);
      assert Oldest(s, n)[1..] == Oldest(init, n - 1);
    }
  }

  /** Every replayed entry costs at least one unit of the remaining retries. */
  lemma ReplayCostsBudget(q: Queues, n: nat, remap: string -> Mapped, t: Tally)
    requires RetriesOk(q) && n <= |q.dlq|
    ensures Budget(ReplayN(q, n, remap, t).0.dlq) + n <= Budget(q.dlq)
  {
    var es := Oldest(q.dlq, n);
    ReplayIsFifo(q, n, remap, t);
    OldestAreTheTail(q.dlq, n);
    assert forall e | e in es :: e in q.dlq;
    RequeuesCostBudget(es, remap);
    OldestBudget(q.dlq, n);
    BudgetConcat(Requeues(es, remap), q.dlq[..|q.dlq| - n]);
  }

  lemma FullReplayRaisesRetries(q: Queues, remap: string -> Mapped, t: Tally, least: int)
    requires RetriesOk(q) && forall e | e in q.dlq :: Retryable(e, least)
    ensures var q' := ReplayN(q, |q.dlq|, remap, t).0;
            RetriesOk(q') && forall e | e in q'.dlq :: e.Entry? && Retryable(e, least + 1)
  {
    var es := Oldest(q.dlq, |q.dlq|);
    ReplayIsFifo(q, |q.dlq|, remap, t);
    ReplayKeepsRetries(q, |q.dlq|, remap, t);
    OldestAreTheTail(q.dlq, |q.dlq|);
    assert forall e | e in es :: e in q.dlq;
    RequeuesHaveOneMore(es, remap, least);
  }

  lemma NonEmptyHasAnElement(s: seq<Item>)
    ensures s == [] || exists e :: e in s
  {
    if s != [] { assert s[0] in s; }
  }

  /** Two full replays without traffic in between empty the queue, however the remapping answers. */
  lemma TwoFullReplaysDrain(q: Queues, first: string -> Mapped, second: string -> Mapped)
    requires RetriesOk(q)
    ensures var q1 := After(q, ReplayCall(|q.dlq|, first));
            After(q1, ReplayCall(|q1.dlq|, second)).dlq == []
  {
    FullReplayRaisesRetries(q, first, Tally(0, 0, 0, 0), 0);
    var q1 := After(q, ReplayCall(|q.dlq|, first));
    FullReplayRaisesRetries(q1, second, Tally(0, 0, 0, 0), 1);
    var q2 := After(q1, ReplayCall(|q1.dlq|, second));
    NonEmptyHasAnElement(q2.dlq);
  }
}
