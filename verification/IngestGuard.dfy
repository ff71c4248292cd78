/** The ingestion guard: a per-tenant circuit breaker in front of a per-tenant rate limiter, both kept in
    expiring Redis keys.

    Reading the clock and every Redis command are steps of their own, each at its own time, and the steps of
    concurrent requests interleave freely; the clock never goes back. A request names its counter keys after
    the minute it read, and increments them at some later time. Times are in milliseconds. */
module IngestGuard {
  import opened ExpiringCounter

  const MINUTE: nat := 60000
  const COUNT_TTL: nat := 120000
  const RATE_TTL: nat := 60000

  // cooldown is in milliseconds; the program reads positive values only.
  datatype Config = Config(threshold: nat, cooldown: nat, limit: nat)

  // open maps a tenant to the expiry of its open flag; the counters are per tenant and clock minute.
  datatype Keys = Keys(open: map<nat, nat>, count: map<(nat, nat), Counter>, rate: map<(nat, nat), Counter>)

  datatype Pc =
    | Arrived                             // about to look for the open flag
    | Dating                              // about to read the clock for the breaker
    | Counting(read: nat)                 // about to increment the breaker's counter of that minute
    | Tripping
    | Passing(minute: nat)                // counted in this minute and let through; about to read the clock again
    | Limiting(minute: nat, read: nat)    // about to increment the limiter's counter
    | Shed
    | Limited
    | Handled

  datatype Request = Request(tenant: nat, pc: Pc)

  // What is observed from outside, as often as it happened.
  datatype Event =
    | Passed(tenant: nat, minute: nat)        // the breaker let a request counted in this minute through
    | HandledIn(tenant: nat, minute: nat)     // the limiter admitted a request metered in this minute
    | HandledOf(tenant: nat, minute: nat)     // the handler got a request the breaker counted in this minute
    | LimitedOf(tenant: nat, minute: nat)
    | ShedOne(tenant: nat)

  datatype Alarm = Alarm(tenant: nat, time: nat)

  // The times at which each counter key was incremented.
  type History = map<(nat, nat), seq<nat>>

  datatype State = State(clock: nat, keys: Keys, reqs: seq<Request>, log: multiset<Event>, alarms: seq<Alarm>,
                         counted: History, metered: History)

  // ----- the steps -----

  predicate IsOpen(k: Keys, tenant: nat, now: nat) {
    tenant in k.open && now <= k.open[tenant]
  }

  function At(h: History, key: (nat, nat)): seq<nat> { if key in h then h[key] else [] }

  function Logged(h: History, key: (nat, nat), now: nat): History { h[key := At(h, key) + [now]] }

  predicate Done(pc: Pc) { pc.Shed? || pc.Limited? || pc.Handled? }

  predicate CanAct(s: State, i: nat, now: nat) {
    s.clock <= now && i < |s.reqs| && !Done(s.reqs[i].pc)
  }

  function Move(s: State, i: nat, now: nat, pc: Pc, events: multiset<Event>): State
    requires i < |s.reqs|
  {
    s.(clock := now, reqs := s.reqs[i := s.reqs[i].(pc := pc)], log := s.log + events)
  }

  // GET of the open flag.
  function Look(s: State, i: nat, now: nat): State
    requires i < |s.reqs|
  {
    var t := s.reqs[i].tenant;
    if IsOpen(s.keys, t, now) then Move(s, i, now, Shed, multiset{ShedOne(t)}) else Move(s, i, now, Dating, multiset{})
  }

  // INCR and EXPIRE of the breaker's counter.
  function Count(c: Config, s: State, i: nat, now: nat, read: nat): State
    requires i < |s.reqs|
  {
    var key := (s.reqs[i].tenant, read / MINUTE);
    var count := Incr(s.keys.count, key, now, COUNT_TTL);
    var s1 := s.(keys := s.keys.(count := count), counted := Logged(s.counted, key, now));
    if count[key].val > c.threshold then Move(s1, i, now, Tripping, multiset{})
    else Move(s1, i, now, Passing(key.1), multiset{Passed(key.0, key.1)})
  }

  // SETNX of the open flag; whoever sets it raises the alarm.
  function Trip(c: Config, s: State, i: nat, now: nat): State
    requires i < |s.reqs|
  {
    var t := s.reqs[i].tenant;
    var s1 := if IsOpen(s.keys, t, now) then s
              else s.(keys := s.keys.(open := s.keys.open[t := now + c.cooldown]), alarms := s.alarms + [Alarm(t, now)]);
    Move(s1, i, now, Shed, multiset{ShedOne(t)})
  }

  // INCR and EXPIRE of the limiter's counter.
  function Meter(c: Config, s: State, i: nat, now: nat, minute: nat, read: nat): State
    requires i < |s.reqs|
  {
    var key := (s.reqs[i].tenant, read / MINUTE);
    var rate := Incr(s.keys.rate, key, now, RATE_TTL);
    var s1 := s.(keys := s.keys.(rate := rate), metered := Logged(s.metered, key, now));
    if rate[key].val > c.limit then Move(s1, i, now, Limited, multiset{LimitedOf(key.0, minute)})
    else Move(s1, i, now, Handled, multiset{HandledIn(key.0, key.1), HandledOf(key.0, minute)})
  }

  // The next step of request i, taken at time now.
  function Act(c: Config, s: State, i: nat, now: nat): State
    requires CanAct(s, i, now)
  {
    match s.reqs[i].pc
    case Arrived => Look(s, i, now)
    case Dating => Move(s, i, now, Counting(now), multiset{})
    case Counting(read) => Count(c, s, i, now, read)
    case Tripping => Trip(c, s, i, now)
    case Passing(minute) => Move(s, i, now, Limiting(minute, now), multiset{})
    case Limiting(minute, read) => Meter(c, s, i, now, minute, read)
    case _ => s
  }

  // ----- what every step keeps -----

  // In the order they happened, from the start of the minute on and up to now.
  predicate TimesOk(ts: seq<nat>, m: nat, clock: nat) {
    && (forall i | 0 <= i < |ts| :: m * MINUTE <= ts[i] <= clock)
    && InOrder(ts)
  }

  lemma TimesGrow(ts: seq<nat>, m: nat, clock: nat, now: nat)
    requires TimesOk(ts, m, clock) && clock <= now && m * MINUTE <= now
    ensures TimesOk(ts + [now], m, now)
  {
  }

  ghost predicate KeyOk(m: map<(nat, nat), Counter>, h: History, key: (nat, nat), ttl: nat, clock: nat, admitted: nat, limit: nat) {
    var ts := At(h, key);
    CounterOk(m, key, ts, ttl) && TimesOk(ts, key.1, clock) && admitted == Admitted(ts, limit, ttl)
  }

  ghost predicate BreakerOk(c: Config, s: State) {
    && (forall t: nat, m: nat {:trigger s.log[Passed(t, m)]} {:trigger At(s.counted, (t, m))} ::
          KeyOk(s.keys.count, s.counted, (t, m), COUNT_TTL, s.clock, s.log[Passed(t, m)], c.threshold))
    && (forall i | 0 <= i < |s.reqs| && s.reqs[i].pc.Counting? :: s.reqs[i].pc.read <= s.clock)
  }

  ghost predicate LimiterOk(c: Config, s: State) {
    && (forall t: nat, m: nat {:trigger s.log[HandledIn(t, m)]} {:trigger At(s.metered, (t, m))} ::
          KeyOk(s.keys.rate, s.metered, (t, m), RATE_TTL, s.clock, s.log[HandledIn(t, m)], c.limit))
    && (forall i | 0 <= i < |s.reqs| && s.reqs[i].pc.Limiting? :: s.reqs[i].pc.read <= s.clock)
  }

  function In(r: Request, t: nat, m: nat): nat {
    if r.tenant == t && (r.pc == Passing(m) || (r.pc.Limiting? && r.pc.minute == m)) then 1 else 0
  }

  // Requests between the breaker and the limiter.
  function Between(reqs: seq<Request>, t: nat, m: nat): nat {
    if reqs == [] then 0 else In(reqs[0], t, m) + Between(reqs[1..], t, m)
  }

  ghost predicate FlowOk(s: State) {
    forall t: nat, m: nat {:trigger s.log[Passed(t, m)]} ::
      s.log[Passed(t, m)] == s.log[HandledOf(t, m)] + s.log[LimitedOf(t, m)] + Between(s.reqs, t, m)
  }

  ghost predicate Flooded(c: Config, s: State, t: nat) {
    exists m: nat :: |At(s.counted, (t, m))| > c.threshold
  }

  ghost predicate ShedOk(c: Config, s: State) {
    && (forall t: nat | ShedOrOpen(s, t) :: Flooded(c, s, t))
    && (forall i | 0 <= i < |s.reqs| && s.reqs[i].pc.Tripping? :: Flooded(c, s, s.reqs[i].tenant))
  }

  ghost predicate AlarmsOk(c: Config, s: State) {
    && (forall i | 0 <= i < |s.alarms| ::
          s.alarms[i].time <= s.clock && s.alarms[i].tenant in s.keys.open &&
          s.alarms[i].time + c.cooldown <= s.keys.open[s.alarms[i].tenant])
    && (forall i, j | 0 <= i < j < |s.alarms| && s.alarms[i].tenant == s.alarms[j].tenant ::
          s.alarms[i].time + c.cooldown < s.alarms[j].time)
  }

  // Every open flag was set with an alarm, a cooldown before it expires.
  ghost predicate FlagsOk(c: Config, s: State) {
    forall t | t in s.keys.open :: s.keys.open[t] >= c.cooldown && Alarm(t, s.keys.open[t] - c.cooldown) in s.alarms
  }

  ghost predicate Inv(c: Config, s: State) {
    BreakerOk(c, s) && LimiterOk(c, s) && FlowOk(s) && ShedOk(c, s) && AlarmsOk(c, s) && FlagsOk(c, s)
  }

  lemma SameMinute(now: nat, m: nat)
    ensures now / MINUTE == m <==> m * MINUTE <= now < (m + 1) * MINUTE
  {
  }

  lemma LaterKeyOk(m: map<(nat, nat), Counter>, h: History, key: (nat, nat), ttl: nat, clock: nat, now: nat, admitted: nat, limit: nat)
    requires KeyOk(m, h, key, ttl, clock, admitted, limit) && clock <= now
    ensures KeyOk(m, h, key, ttl, now, admitted, limit)
  {
  }

  lemma IncrKeepsItsKeyOk(m: map<(nat, nat), Counter>, h: History, key: (nat, nat), ttl: nat, clock: nat, now: nat,
                          admitted: nat, limit: nat)
    requires KeyOk(m, h, key, ttl, clock, admitted, limit) && clock <= now && key.1 * MINUTE <= now
    ensures KeyOk(Incr(m, key, now, ttl), Logged(h, key, now), key, ttl, now,
                  admitted + (if Incr(m, key, now, ttl)[key].val <= limit then 1 else 0), limit)
  {
    var ts := At(h, key);
    IncrOk(m, key, ts, now, ttl);
    TimesGrow(ts, key.1, clock, now);
    AdmittedGrows(ts, now, limit, ttl);
    assert At(Logged(h, key, now), key) == ts + [now];
  }

  // One increment, for the incremented key and for the others.
  lemma IncrKeepsKeyOk(m: map<(nat, nat), Counter>, h: History, key: (nat, nat), ttl: nat, clock: nat, now: nat,
                       admitted: nat, limit: nat, other: (nat, nat))
    requires KeyOk(m, h, other, ttl, clock, admitted, limit) && clock <= now && key.1 * MINUTE <= now
    ensures KeyOk(Incr(m, key, now, ttl), Logged(h, key, now), other, ttl, now,
                  admitted + (if other == key && Incr(m, key, now, ttl)[key].val <= limit then 1 else 0), limit)
  {
    if other == key {
      IncrKeepsItsKeyOk(m, h, key, ttl, clock, now, admitted, limit);
    } else {
      LaterKeyOk(m, h, other, ttl, clock, now, admitted, limit);
      assert At(Logged(h, key, now), other) == At(h, other);
    }
  }

  lemma CountKeepsKeyOk(c: Config, s: State, i: nat, now: nat, read: nat, t: nat, m: nat)
    requires i < |s.reqs| && s.clock <= now && read <= now
    requires KeyOk(s.keys.count, s.counted, (t, m), COUNT_TTL, s.clock, s.log[Passed(t, m)], c.threshold)
    ensures var s' := Count(c, s, i, now, read);
            KeyOk(s'.keys.count, s'.counted, (t, m), COUNT_TTL, now, s'.log[Passed(t, m)], c.threshold)
  {
    var key := (s.reqs[i].tenant, read / MINUTE);
    SameMinute(read, key.1);
    IncrKeepsKeyOk(s.keys.count, s.counted, key, COUNT_TTL, s.clock, now, s.log[Passed(t, m)], c.threshold, (t, m));
  }

  lemma MeterKeepsKeyOk(c: Config, s: State, i: nat, now: nat, minute: nat, read: nat, t: nat, m: nat)
    requires i < |s.reqs| && s.clock <= now && read <= now
    requires KeyOk(s.keys.rate, s.metered, (t, m), RATE_TTL, s.clock, s.log[HandledIn(t, m)], c.limit)
    ensures var s' := Meter(c, s, i, now, minute, read);
            KeyOk(s'.keys.rate, s'.metered, (t, m), RATE_TTL, now, s'.log[HandledIn(t, m)], c.limit)
  {
    var key := (s.reqs[i].tenant, read / MINUTE);
    SameMinute(read, key.1);
    IncrKeepsKeyOk(s.keys.rate, s.metered, key, RATE_TTL, s.clock, now, s.log[HandledIn(t, m)], c.limit, (t, m));
  }

  // What both counters are about: the keys, the increments and the requests admitted.
  predicate SameCount(s: State, s': State, t: nat, m: nat) {
    s'.keys.count == s.keys.count && s'.counted == s.counted && s'.log[Passed(t, m)] == s.log[Passed(t, m)]
  }

  predicate SameRate(s: State, s': State, t: nat, m: nat) {
    s'.keys.rate == s.keys.rate && s'.metered == s.metered && s'.log[HandledIn(t, m)] == s.log[HandledIn(t, m)]
  }

  lemma LookKeepsCounters(s: State, i: nat, now: nat, t: nat, m: nat)
    requires i < |s.reqs|
    ensures SameCount(s, Look(s, i, now), t, m) && SameRate(s, Look(s, i, now), t, m)
  {
  }

  lemma TripKeepsCounters(c: Config, s: State, i: nat, now: nat, t: nat, m: nat)
    requires i < |s.reqs|
    ensures SameCount(s, Trip(c, s, i, now), t, m) && SameRate(s, Trip(c, s, i, now), t, m)
  {
  }

  lemma CountKeepsRate(c: Config, s: State, i: nat, now: nat, read: nat, t: nat, m: nat)
    requires i < |s.reqs|
    ensures SameRate(s, Count(c, s, i, now, read), t, m)
  {
  }

  lemma MeterKeepsCount(c: Config, s: State, i: nat, now: nat, minute: nat, read: nat, t: nat, m: nat)
    requires i < |s.reqs|
    ensures SameCount(s, Meter(c, s, i, now, minute, read), t, m)
  {
  }

  // Only its own increment touches a counter.
  lemma OthersKeepCounters(c: Config, s: State, i: nat, now: nat, t: nat, m: nat)
    requires CanAct(s, i, now)
    ensures s.reqs[i].pc.Counting? || SameCount(s, Act(c, s, i, now), t, m)
    ensures s.reqs[i].pc.Limiting? || SameRate(s, Act(c, s, i, now), t, m)
  {
    match s.reqs[i].pc
    case Arrived => LookKeepsCounters(s, i, now, t, m);
    case Counting(read) => CountKeepsRate(c, s, i, now, read, t, m);
    case Tripping => TripKeepsCounters(c, s, i, now, t, m);
    case Limiting(minute, read) => MeterKeepsCount(c, s, i, now, minute, read, t, m);
    case _ =>
  }

  lemma ActKeepsBreakerAt(c: Config, s: State, i: nat, now: nat, t: nat, m: nat)
    requires CanAct(s, i, now) && BreakerOk(c, s)
    ensures var s' := Act(c, s, i, now);
            KeyOk(s'.keys.count, s'.counted, (t, m), COUNT_TTL, now, s'.log[Passed(t, m)], c.threshold)
  {
    assert KeyOk(s.keys.count, s.counted, (t, m), COUNT_TTL, s.clock, s.log[Passed(t, m)], c.threshold);
    if s.reqs[i].pc.Counting? {
      CountKeepsKeyOk(c, s, i, now, s.reqs[i].pc.read, t, m);
    } else {
      OthersKeepCounters(c, s, i, now, t, m);
      LaterKeyOk(s.keys.count, s.counted, (t, m), COUNT_TTL, s.clock, now, s.log[Passed(t, m)], c.threshold);
    }
  }

  lemma ActKeepsLimiterAt(c: Config, s: State, i: nat, now: nat, t: nat, m: nat)
    requires CanAct(s, i, now) && LimiterOk(c, s)
    ensures var s' := Act(c, s, i, now);
            KeyOk(s'.keys.rate, s'.metered, (t, m), RATE_TTL, now, s'.log[HandledIn(t, m)], c.limit)
  {
    assert KeyOk(s.keys.rate, s.metered, (t, m), RATE_TTL, s.clock, s.log[HandledIn(t, m)], c.limit);
    if s.reqs[i].pc.Limiting? {
      MeterKeepsKeyOk(c, s, i, now, s.reqs[i].pc.minute, s.reqs[i].pc.read, t, m);
    } else {
      OthersKeepCounters(c, s, i, now, t, m);
      LaterKeyOk(s.keys.rate, s.metered, (t, m), RATE_TTL, s.clock, now, s.log[HandledIn(t, m)], c.limit);
    }
  }

  // Clock readings are not in the future.
  lemma ReadingsArePast(c: Config, s: State, i: nat, now: nat)
    requires CanAct(s, i, now)
    ensures var s' := Act(c, s, i, now);
            && s'.clock == now && |s'.reqs| == |s.reqs|
            && (forall j | 0 <= j < |s.reqs| && j != i :: s'.reqs[j] == s.reqs[j])
            && s'.reqs[i].tenant == s.reqs[i].tenant
            && (s'.reqs[i].pc.Counting? ==> s'.reqs[i].pc.read == now)
            && (s'.reqs[i].pc.Limiting? ==> s'.reqs[i].pc.read == now)
  {
  }

  lemma ActKeepsBreaker(c: Config, s: State, i: nat, now: nat)
    requires CanAct(s, i, now) && BreakerOk(c, s)
    ensures BreakerOk(c, Act(c, s, i, now))
  {
    var s' := Act(c, s, i, now);
    ReadingsArePast(c, s, i, now);
    forall t: nat, m: nat
      ensures KeyOk(s'.keys.count, s'.counted, (t, m), COUNT_TTL, s'.clock, s'.log[Passed(t, m)], c.threshold)
    {
      ActKeepsBreakerAt(c, s, i, now, t, m);
    }
  }

  lemma ActKeepsLimiter(c: Config, s: State, i: nat, now: nat)
    requires CanAct(s, i, now) && LimiterOk(c, s)
    ensures LimiterOk(c, Act(c, s, i, now))
  {
    var s' := Act(c, s, i, now);
    ReadingsArePast(c, s, i, now);
    forall t: nat, m: nat
      ensures KeyOk(s'.keys.rate, s'.metered, (t, m), RATE_TTL, s'.clock, s'.log[HandledIn(t, m)], c.limit)
    {
      ActKeepsLimiterAt(c, s, i, now, t, m);
    }
  }

  lemma {:induction false} BetweenUpdate(reqs: seq<Request>, i: nat, r: Request, t: nat, m: nat)
    requires i < |reqs|
    ensures Between(reqs[i := r], t, m) + In(reqs[i], t, m) == Between(reqs, t, m) + In(r, t, m)
  {
    if i == 0 {
      assert reqs[i := r][1..] == reqs[1..];
    } else {
      assert reqs[i := r][1..] == reqs[1..][i - 1 := r];
      BetweenUpdate(reqs[1..], i - 1, r, t, m);
    }
  }

  lemma CountBalances(c: Config, s: State, i: nat, now: nat, read: nat, t: nat, m: nat)
    requires i < |s.reqs| && s.reqs[i].pc == Counting(read)
    ensures var s' := Count(c, s, i, now, read);
      && s'.log[Passed(t, m)] == s.log[Passed(t, m)] + In(s'.reqs[i], t, m)
      && s'.log[HandledOf(t, m)] == s.log[HandledOf(t, m)] && s'.log[LimitedOf(t, m)] == s.log[LimitedOf(t, m)]
  {
  }

  lemma MeterBalances(c: Config, s: State, i: nat, now: nat, minute: nat, read: nat, t: nat, m: nat)
    requires i < |s.reqs| && s.reqs[i].pc == Limiting(minute, read)
    ensures var s' := Meter(c, s, i, now, minute, read);
      && s'.log[Passed(t, m)] == s.log[Passed(t, m)] && In(s'.reqs[i], t, m) == 0
      && s'.log[HandledOf(t, m)] + s'.log[LimitedOf(t, m)] == s.log[HandledOf(t, m)] + s.log[LimitedOf(t, m)] + In(s.reqs[i], t, m)
  {
  }

  lemma MoveBalances(c: Config, s: State, i: nat, now: nat, t: nat, m: nat)
    requires CanAct(s, i, now) && !s.reqs[i].pc.Counting? && !s.reqs[i].pc.Limiting?
    ensures var s' := Act(c, s, i, now);
      && s'.log[Passed(t, m)] == s.log[Passed(t, m)] && In(s'.reqs[i], t, m) == In(s.reqs[i], t, m)
      && s'.log[HandledOf(t, m)] == s.log[HandledOf(t, m)] && s'.log[LimitedOf(t, m)] == s.log[LimitedOf(t, m)]
  {
  }

  // The events of one step balance the request's entering or leaving the stretch between the two.
  lemma EventsBalance(c: Config, s: State, i: nat, now: nat, t: nat, m: nat)
    requires CanAct(s, i, now)
    ensures var s' := Act(c, s, i, now);
      s'.log[Passed(t, m)] + s.log[HandledOf(t, m)] + s.log[LimitedOf(t, m)] + In(s.reqs[i], t, m) ==
      s.log[Passed(t, m)] + s'.log[HandledOf(t, m)] + s'.log[LimitedOf(t, m)] + In(s'.reqs[i], t, m)
  {
    match s.reqs[i].pc
    case Counting(read) => CountBalances(c, s, i, now, read, t, m);
    case Limiting(minute, read) => MeterBalances(c, s, i, now, minute, read, t, m);
    case _ => MoveBalances(c, s, i, now, t, m);
  }

  lemma ActKeepsFlow(c: Config, s: State, i: nat, now: nat)
    requires CanAct(s, i, now) && FlowOk(s)
    ensures FlowOk(Act(c, s, i, now))
  {
    var s' := Act(c, s, i, now);
    var r' := s'.reqs[i];
    ReadingsArePast(c, s, i, now);
    assert s'.reqs == s.reqs[i := r'];
    forall t: nat, m: nat
      ensures s'.log[Passed(t, m)] == s'.log[HandledOf(t, m)] + s'.log[LimitedOf(t, m)] + Between(s'.reqs, t, m)
    {
      BetweenUpdate(s.reqs, i, r', t, m);
      EventsBalance(c, s, i, now, t, m);
      assert s.log[Passed(t, m)] == s.log[HandledOf(t, m)] + s.log[LimitedOf(t, m)] + Between(s.reqs, t, m);
    }
  }

  lemma FloodedStays(c: Config, s: State, i: nat, now: nat, t: nat)
    requires CanAct(s, i, now) && Flooded(c, s, t)
    ensures Flooded(c, Act(c, s, i, now), t)
  {
    var m: nat :| |At(s.counted, (t, m))| > c.threshold;
    assert |At(Act(c, s, i, now).counted, (t, m))| > c.threshold;
  }

  lemma TrippingIsFlooded(c: Config, s: State, i: nat, now: nat)
    requires CanAct(s, i, now) && BreakerOk(c, s) && s.reqs[i].pc.Counting?
    ensures Act(c, s, i, now).reqs[i].pc.Tripping? ==> Flooded(c, Act(c, s, i, now), s.reqs[i].tenant)
  {
    var key := (s.reqs[i].tenant, s.reqs[i].pc.read / MINUTE);
    var ts := At(s.counted, key);
    assert KeyOk(s.keys.count, s.counted, key, COUNT_TTL, s.clock, s.log[Passed(key.0, key.1)], c.threshold);
    IncrOk(s.keys.count, key, ts, now, COUNT_TTL);
    StreakBounds(ts + [now], COUNT_TTL);
    assert At(Act(c, s, i, now).counted, key) == ts + [now];
  }

  ghost predicate ShedOrOpen(s: State, t: nat) { s.log[ShedOne(t)] > 0 || t in s.keys.open }

  lemma LookSheds(s: State, i: nat, now: nat, t: nat)
    requires i < |s.reqs|
    ensures ShedOrOpen(Look(s, i, now), t) ==> ShedOrOpen(s, t)
  {
  }

  lemma TripSheds(c: Config, s: State, i: nat, now: nat, t: nat)
    requires i < |s.reqs|
    ensures ShedOrOpen(Trip(c, s, i, now), t) ==> ShedOrOpen(s, t) || t == s.reqs[i].tenant
  {
  }

  lemma IncrementsShedNobody(c: Config, s: State, i: nat, now: nat, minute: nat, read: nat, t: nat)
    requires i < |s.reqs|
    ensures ShedOrOpen(Count(c, s, i, now, read), t) ==> ShedOrOpen(s, t)
    ensures ShedOrOpen(Meter(c, s, i, now, minute, read), t) ==> ShedOrOpen(s, t)
  {
  }

  // Which tenants a step can shed or mark open.
  lemma ShedOrOpened(c: Config, s: State, i: nat, now: nat, t: nat)
    requires CanAct(s, i, now)
    ensures ShedOrOpen(Act(c, s, i, now), t) ==> ShedOrOpen(s, t) || (t == s.reqs[i].tenant && s.reqs[i].pc.Tripping?)
  {
    match s.reqs[i].pc
    case Arrived => LookSheds(s, i, now, t);
    case Counting(read) => IncrementsShedNobody(c, s, i, now, 0, read, t);
    case Tripping => TripSheds(c, s, i, now, t);
    case Limiting(minute, read) => IncrementsShedNobody(c, s, i, now, minute, read, t);
    case _ =>
  }

  lemma ActKeepsShed(c: Config, s: State, i: nat, now: nat)
    requires CanAct(s, i, now) && BreakerOk(c, s) && ShedOk(c, s)
    ensures ShedOk(c, Act(c, s, i, now))
  {
    var s' := Act(c, s, i, now);
    ReadingsArePast(c, s, i, now);
    forall t: nat | ShedOrOpen(s', t) ensures Flooded(c, s', t) {
      ShedOrOpened(c, s, i, now, t);
      assert Flooded(c, s, t);
      FloodedStays(c, s, i, now, t);
    }
    forall j | 0 <= j < |s'.reqs| && s'.reqs[j].pc.Tripping? ensures Flooded(c, s', s'.reqs[j].tenant) {
      if j != i {
        FloodedStays(c, s, i, now, s.reqs[j].tenant);
      } else {
        TrippingIsFlooded(c, s, i, now);
      }
    }
  }

  lemma TripKeepsAlarms(c: Config, s: State, i: nat, now: nat)
    requires i < |s.reqs| && s.clock <= now && AlarmsOk(c, s)
    ensures AlarmsOk(c, Trip(c, s, i, now))
  {
  }

  lemma TripKeepsFlags(c: Config, s: State, i: nat, now: nat)
    requires i < |s.reqs| && FlagsOk(c, s)
    ensures FlagsOk(c, Trip(c, s, i, now))
  {
    var s' := Trip(c, s, i, now);
    assert forall a | a in s.alarms :: a in s'.alarms;
    assert s'.alarms == s.alarms || s'.alarms == s.alarms + [Alarm(s.reqs[i].tenant, now)];
  }

  predicate NoAlarm(s: State, s': State, now: nat) {
    s'.alarms == s.alarms && s'.keys.open == s.keys.open && s'.clock == now
  }

  lemma LookRaisesNoAlarm(s: State, i: nat, now: nat)
    requires i < |s.reqs|
    ensures NoAlarm(s, Look(s, i, now), now)
  {
  }

  lemma IncrementsRaiseNoAlarm(c: Config, s: State, i: nat, now: nat, minute: nat, read: nat)
    requires i < |s.reqs|
    ensures NoAlarm(s, Count(c, s, i, now, read), now) && NoAlarm(s, Meter(c, s, i, now, minute, read), now)
  {
  }

  lemma OthersRaiseNoAlarm(c: Config, s: State, i: nat, now: nat)
    requires CanAct(s, i, now) && !s.reqs[i].pc.Tripping?
    ensures NoAlarm(s, Act(c, s, i, now), now)
  {
    match s.reqs[i].pc
    case Arrived => LookRaisesNoAlarm(s, i, now);
    case Counting(read) => IncrementsRaiseNoAlarm(c, s, i, now, 0, read);
    case Limiting(minute, read) => IncrementsRaiseNoAlarm(c, s, i, now, minute, read);
    case _ =>
  }

  lemma ActKeepsAlarms(c: Config, s: State, i: nat, now: nat)
    requires CanAct(s, i, now) && AlarmsOk(c, s)
    ensures AlarmsOk(c, Act(c, s, i, now))
  {
    if s.reqs[i].pc.Tripping? { TripKeepsAlarms(c, s, i, now); } else { OthersRaiseNoAlarm(c, s, i, now); }
  }

  lemma ActKeepsFlags(c: Config, s: State, i: nat, now: nat)
    requires CanAct(s, i, now) && FlagsOk(c, s)
    ensures FlagsOk(c, Act(c, s, i, now))
  {
    if s.reqs[i].pc.Tripping? { TripKeepsFlags(c, s, i, now); } else { OthersRaiseNoAlarm(c, s, i, now); }
  }

  lemma ActKeepsInv(c: Config, s: State, i: nat, now: nat)
    requires CanAct(s, i, now) && Inv(c, s)
    ensures Inv(c, Act(c, s, i, now))
  {
    ActKeepsBreaker(c, s, i, now);
    ActKeepsLimiter(c, s, i, now);
    ActKeepsFlow(c, s, i, now);
    ActKeepsShed(c, s, i, now);
    ActKeepsAlarms(c, s, i, now);
    ActKeepsFlags(c, s, i, now);
  }

  // ----- whole traces -----

  ghost predicate Fresh(s: State) {
    && s.keys == Keys(map[], map[], map[]) && s.log == multiset{} && s.alarms == []
    && s.counted == map[] && s.metered == map[]
    && forall i | 0 <= i < |s.reqs| :: s.reqs[i].pc.Arrived?
  }

  // A schedule: which request moves, and when.
  ghost predicate Trace(c: Config, s: State, moves: seq<(nat, nat)>, end: State)
    decreases |moves|
  {
    if moves == [] then end == s
    else CanAct(s, moves[0].0, moves[0].1) && Trace(c, Act(c, s, moves[0].0, moves[0].1), moves[1..], end)
  }

  lemma {:induction false} TraceKeepsInv(c: Config, s: State, moves: seq<(nat, nat)>, end: State)
    requires Inv(c, s) && Trace(c, s, moves, end)
    ensures Inv(c, end)
    decreases |moves|
  {
    if moves != [] {
      ActKeepsInv(c, s, moves[0].0, moves[0].1);
      TraceKeepsInv(c, Act(c, s, moves[0].0, moves[0].1), moves[1..], end);
    }
  }

  lemma {:induction false} NoneBetween(reqs: seq<Request>, t: nat, m: nat)
    requires forall i | 0 <= i < |reqs| :: reqs[i].pc.Arrived?
    ensures Between(reqs, t, m) == 0
  {
    if reqs != [] { NoneBetween(reqs[1..], t, m); }
  }

  lemma FreshIsOk(c: Config, s: State)
    requires Fresh(s)
    ensures Inv(c, s)
  {
    forall t: nat, m: nat ensures Between(s.reqs, t, m) == 0 { NoneBetween(s.reqs, t, m); }
  }

  /** For every trace, tenant and clock minute: of the requests counted in a minute the breaker passes exactly up
      to the threshold, if and only if its counter did not expire between two of them (or they are no more than
      the threshold); no more than passed reach the handler. The same for the limiter, its limit and its
      counter. Where a counter did expire, more are admitted. */
  lemma GuardBoundsEveryMinute(c: Config, s: State, moves: seq<(nat, nat)>, end: State, t: nat, m: nat)
    requires Fresh(s) && Trace(c, s, moves, end)
    ensures end.log[HandledOf(t, m)] <= end.log[Passed(t, m)]
    ensures var ts, passed := At(end.counted, (t, m)), end.log[Passed(t, m)];
            && passed >= Least(|ts|, c.threshold)
            && (passed == Least(|ts|, c.threshold) <==> Unbroken(ts, COUNT_TTL) || |ts| <= c.threshold || c.threshold == 0)
    ensures var ts, admitted := At(end.metered, (t, m)), end.log[HandledIn(t, m)];
            && admitted >= Least(|ts|, c.limit)
            && (admitted == Least(|ts|, c.limit) <==> Unbroken(ts, RATE_TTL) || |ts| <= c.limit || c.limit == 0)
  {
    FreshIsOk(c, s);
    TraceKeepsInv(c, s, moves, end);
    AdmittedExactly(At(end.counted, (t, m)), c.threshold, COUNT_TTL);
    AdmittedExactly(At(end.metered, (t, m)), c.limit, RATE_TTL);
  }

  // ----- how late an increment may come -----

  function Reading(pc: Pc, now: nat): nat { if pc.Counting? || pc.Limiting? then pc.read else now }

  // Every increment follows its clock reading within the delay.
  ghost predicate Prompt(c: Config, s: State, moves: seq<(nat, nat)>, delay: nat)
    decreases |moves|
  {
    moves == [] ||
    (CanAct(s, moves[0].0, moves[0].1) && moves[0].1 <= Reading(s.reqs[moves[0].0].pc, moves[0].1) + delay
     && Prompt(c, Act(c, s, moves[0].0, moves[0].1), moves[1..], delay))
  }

  ghost predicate Windowed(h: History, delay: nat) {
    forall t: nat, m: nat :: forall i | 0 <= i < |At(h, (t, m))| :: At(h, (t, m))[i] < (m + 1) * MINUTE + delay
  }

  lemma LoggedStaysWindowed(h: History, key: (nat, nat), now: nat, delay: nat)
    requires Windowed(h, delay) && now < (key.1 + 1) * MINUTE + delay
    ensures Windowed(Logged(h, key, now), delay)
  {
    var h' := Logged(h, key, now);
    forall t: nat, m: nat, i | 0 <= i < |At(h', (t, m))| ensures At(h', (t, m))[i] < (m + 1) * MINUTE + delay {
      if i < |At(h, (t, m))| { assert At(h', (t, m))[i] == At(h, (t, m))[i]; }
    }
  }

  lemma ActStaysWindowed(c: Config, s: State, i: nat, now: nat, delay: nat)
    requires CanAct(s, i, now) && now <= Reading(s.reqs[i].pc, now) + delay
    requires Windowed(s.counted, delay) && Windowed(s.metered, delay)
    ensures var s' := Act(c, s, i, now); Windowed(s'.counted, delay) && Windowed(s'.metered, delay)
  {
    var t, read := s.reqs[i].tenant, Reading(s.reqs[i].pc, now);
    SameMinute(read, read / MINUTE);
    LoggedStaysWindowed(s.counted, (t, read / MINUTE), now, delay);
    LoggedStaysWindowed(s.metered, (t, read / MINUTE), now, delay);
  }

  lemma {:induction false} PromptStaysWindowed(c: Config, s: State, moves: seq<(nat, nat)>, end: State, delay: nat)
    requires Trace(c, s, moves, end) && Prompt(c, s, moves, delay)
    requires Windowed(s.counted, delay) && Windowed(s.metered, delay)
    ensures Windowed(end.counted, delay) && Windowed(end.metered, delay)
    decreases |moves|
  {
    if moves != [] {
      ActStaysWindowed(c, s, moves[0].0, moves[0].1, delay);
      PromptStaysWindowed(c, Act(c, s, moves[0].0, moves[0].1), moves[1..], end, delay);
    }
  }

  lemma WindowIsUnbroken(ts: seq<nat>, m: nat, clock: nat, delay: nat, ttl: nat)
    requires TimesOk(ts, m, clock) && MINUTE + delay <= ttl
    requires forall i | 0 <= i < |ts| :: ts[i] < (m + 1) * MINUTE + delay
    ensures Unbroken(ts, ttl)
  {
    assert (m + 1) * MINUTE == m * MINUTE + MINUTE;
    forall i | 0 < i < |ts| ensures InTime(ts, i, ttl) {
      assert ts[i - 1] >= m * MINUTE;
    }
  }

  /** As long as every increment follows its clock reading within a minute, the breaker passes exactly up to its
      threshold, and the limiter admits at most twice its limit. */
  lemma ShortDelaysAreCovered(c: Config, s: State, moves: seq<(nat, nat)>, end: State, t: nat, m: nat)
    requires Fresh(s) && Trace(c, s, moves, end) && Prompt(c, s, moves, MINUTE)
    ensures end.log[Passed(t, m)] == Least(|At(end.counted, (t, m))|, c.threshold)
    ensures end.log[HandledIn(t, m)] <= 2 * c.limit
  {
    FreshIsOk(c, s);
    TraceKeepsInv(c, s, moves, end);
    PromptStaysWindowed(c, s, moves, end, MINUTE);
    var counted, metered := At(end.counted, (t, m)), At(end.metered, (t, m));
    WindowIsUnbroken(counted, m, end.clock, MINUTE, COUNT_TTL);
    AdmittedExactly(counted, c.threshold, COUNT_TTL);
    if metered != [] {
      TwoStreaks(metered, m, end.clock, c.limit);
    }
  }

  lemma TwoStreaks(ts: seq<nat>, m: nat, clock: nat, limit: nat)
    requires ts != [] && TimesOk(ts, m, clock) && forall i | 0 <= i < |ts| :: ts[i] < (m + 2) * MINUTE
    ensures Admitted(ts, limit, RATE_TTL) <= 2 * limit
  {
    var breaks := Breaks(ts, RATE_TTL);
    BreaksTakeTime(ts, RATE_TTL);
    AdmittedPerStreak(ts, limit, RATE_TTL);
    assert (m + 2) * MINUTE == m * MINUTE + 2 * MINUTE;
    assert breaks * RATE_TTL < 2 * RATE_TTL;
    if breaks == 0 { assert breaks * limit == 0; } else { assert breaks * limit == limit; }
  }

  /** The limiter is exact for a minute when all its increments run within that minute. */
  lemma InTimeTheLimiterIsExact(c: Config, s: State, moves: seq<(nat, nat)>, end: State, t: nat, m: nat)
    requires Fresh(s) && Trace(c, s, moves, end)
    requires forall i | 0 <= i < |At(end.metered, (t, m))| :: At(end.metered, (t, m))[i] < (m + 1) * MINUTE
    ensures end.log[HandledIn(t, m)] == Least(|At(end.metered, (t, m))|, c.limit)
  {
    FreshIsOk(c, s);
    TraceKeepsInv(c, s, moves, end);
    WindowIsUnbroken(At(end.metered, (t, m)), m, end.clock, 0, RATE_TTL);
    AdmittedExactly(At(end.metered, (t, m)), c.limit, RATE_TTL);
  }

  // ----- requests that stay within their minute -----

  // The minute a request works in by now.
  function MinuteOf(pc: Pc, now: nat): nat {
    match pc
    case Counting(read) => read / MINUTE
    case Passing(minute) => minute
    case Limiting(_, read) => read / MINUTE
    case _ => now / MINUTE
  }

  // From its first clock reading to its last increment no request crosses a minute.
  ghost predicate WithinMinutes(c: Config, s: State, moves: seq<(nat, nat)>)
    decreases |moves|
  {
    moves == [] ||
    (CanAct(s, moves[0].0, moves[0].1) && moves[0].1 / MINUTE == MinuteOf(s.reqs[moves[0].0].pc, moves[0].1)
     && WithinMinutes(c, Act(c, s, moves[0].0, moves[0].1), moves[1..]))
  }

  // Both guards' books on a minute are about the same requests.
  ghost predicate BooksMatch(s: State, t: nat, m: nat) {
    && s.log[HandledOf(t, m)] == s.log[HandledIn(t, m)]
    && s.log[HandledOf(t, m)] + s.log[LimitedOf(t, m)] == |At(s.metered, (t, m))|
  }

  ghost predicate Synced(s: State) {
    && (forall t: nat, m: nat :: BooksMatch(s, t, m))
    && (forall i | 0 <= i < |s.reqs| && s.reqs[i].pc.Limiting? :: s.reqs[i].pc.read / MINUTE == s.reqs[i].pc.minute)
    && Windowed(s.counted, 0) && Windowed(s.metered, 0)
  }

  lemma MeterKeepsBooks(c: Config, s: State, i: nat, now: nat, minute: nat, read: nat, t: nat, m: nat)
    requires i < |s.reqs| && read / MINUTE == minute && BooksMatch(s, t, m)
    ensures BooksMatch(Meter(c, s, i, now, minute, read), t, m)
  {
  }

  lemma ActKeepsBooks(c: Config, s: State, i: nat, now: nat, t: nat, m: nat)
    requires CanAct(s, i, now) && Synced(s)
    ensures BooksMatch(Act(c, s, i, now), t, m)
  {
    assert BooksMatch(s, t, m);
    match s.reqs[i].pc
    case Limiting(minute, read) => MeterKeepsBooks(c, s, i, now, minute, read, t, m);
    case Counting(read) =>
      CountBalances(c, s, i, now, read, t, m);
      OthersKeepCounters(c, s, i, now, t, m);
    case _ =>
      MoveBalances(c, s, i, now, t, m);
      OthersKeepCounters(c, s, i, now, t, m);
  }

  lemma ActKeepsWindow(c: Config, s: State, i: nat, now: nat)
    requires CanAct(s, i, now) && now / MINUTE == MinuteOf(s.reqs[i].pc, now) && Windowed(s.counted, 0) && Windowed(s.metered, 0)
    ensures var s' := Act(c, s, i, now); Windowed(s'.counted, 0) && Windowed(s'.metered, 0)
  {
    SameMinute(now, now / MINUTE);
    LoggedStaysWindowed(s.counted, (s.reqs[i].tenant, now / MINUTE), now, 0);
    LoggedStaysWindowed(s.metered, (s.reqs[i].tenant, now / MINUTE), now, 0);
  }

  lemma ActKeepsSynced(c: Config, s: State, i: nat, now: nat)
    requires CanAct(s, i, now) && now / MINUTE == MinuteOf(s.reqs[i].pc, now) && Synced(s)
    ensures Synced(Act(c, s, i, now))
  {
    ReadingsArePast(c, s, i, now);
    ActKeepsWindow(c, s, i, now);
    LimitingStarts(c, s, i, now);
    forall t: nat, m: nat ensures BooksMatch(Act(c, s, i, now), t, m) {
      ActKeepsBooks(c, s, i, now, t, m);
    }
  }

  lemma LimitingStarts(c: Config, s: State, i: nat, now: nat)
    requires CanAct(s, i, now)
    ensures var pc := Act(c, s, i, now).reqs[i].pc; pc.Limiting? ==> s.reqs[i].pc == Passing(pc.minute) && pc.read == now
  {
  }

  lemma {:induction false} TraceKeepsSynced(c: Config, s: State, moves: seq<(nat, nat)>, end: State)
    requires Trace(c, s, moves, end) && WithinMinutes(c, s, moves) && Synced(s)
    ensures Synced(end)
    decreases |moves|
  {
    if moves != [] {
      ActKeepsSynced(c, s, moves[0].0, moves[0].1);
      TraceKeepsSynced(c, Act(c, s, moves[0].0, moves[0].1), moves[1..], end);
    }
  }

  /** Both guards together: as long as no request crosses a minute, at most the smaller of threshold and limit of
      the requests counted in a minute reach the handler; and exactly that many, or all of them if they are
      fewer, once none is on its way between the two. */
  lemma BothGuardsBoundEveryMinute(c: Config, s: State, moves: seq<(nat, nat)>, end: State, t: nat, m: nat)
    requires Fresh(s) && Trace(c, s, moves, end) && WithinMinutes(c, s, moves)
    ensures end.log[HandledOf(t, m)] <= Least(c.threshold, c.limit)
    ensures Between(end.reqs, t, m) == 0 ==>
              end.log[HandledOf(t, m)] == Least(|At(end.counted, (t, m))|, Least(c.threshold, c.limit))
  {
    FreshIsOk(c, s);
    TraceKeepsInv(c, s, moves, end);
    TraceKeepsSynced(c, s, moves, end);
    BreakerInTime(c, end, t, m);
    LimiterInTime(c, end, t, m);
    FlowAt(end, t, m);
    assert BooksMatch(end, t, m);
  }

  lemma BreakerInTime(c: Config, s: State, t: nat, m: nat)
    requires BreakerOk(c, s) && Windowed(s.counted, 0)
    ensures s.log[Passed(t, m)] == Least(|At(s.counted, (t, m))|, c.threshold)
  {
    var ts := At(s.counted, (t, m));
    assert KeyOk(s.keys.count, s.counted, (t, m), COUNT_TTL, s.clock, s.log[Passed(t, m)], c.threshold);
    WindowIsUnbroken(ts, m, s.clock, 0, COUNT_TTL);
    AdmittedExactly(ts, c.threshold, COUNT_TTL);
  }

  lemma LimiterInTime(c: Config, s: State, t: nat, m: nat)
    requires LimiterOk(c, s) && Windowed(s.metered, 0)
    ensures s.log[HandledIn(t, m)] == Least(|At(s.metered, (t, m))|, c.limit)
  {
    var ts := At(s.metered, (t, m));
    assert KeyOk(s.keys.rate, s.metered, (t, m), RATE_TTL, s.clock, s.log[HandledIn(t, m)], c.limit);
    WindowIsUnbroken(ts, m, s.clock, 0, RATE_TTL);
    AdmittedExactly(ts, c.limit, RATE_TTL);
  }

  lemma FlowAt(s: State, t: nat, m: nat)
    requires FlowOk(s)
    ensures s.log[Passed(t, m)] == s.log[HandledOf(t, m)] + s.log[LimitedOf(t, m)] + Between(s.reqs, t, m)
  {
  }

  // ----- a delay of two milliseconds can cost the limit -----

  lemma {:induction false} TraceThen(c: Config, s: State, moves: seq<(nat, nat)>, mid: State, i: nat, now: nat)
    requires Trace(c, s, moves, mid) && CanAct(mid, i, now)
    ensures Trace(c, s, moves + [(i, now)], Act(c, mid, i, now))
    decreases |moves|
  {
    if moves == [] {
      assert Trace(c, Act(c, s, i, now), [], Act(c, mid, i, now));
    } else {
      assert (moves + [(i, now)])[1..] == moves[1..] + [(i, now)];
      TraceThen(c, Act(c, s, moves[0].0, moves[0].1), moves[1..], mid, i, now);
    }
  }

  // A request alone, from its arrival to its increment of the limiter's counter.
  lemma PassAlone(c: Config, s0: State, moves: seq<(nat, nat)>, s: State, i: nat, now: nat)
    returns (moves': seq<(nat, nat)>, s': State)
    requires Trace(c, s0, moves, s) && CanAct(s, i, now) && s.reqs[i].pc.Arrived? && s.keys.open == map[]
    requires var key := (s.reqs[i].tenant, now / MINUTE); Incr(s.keys.count, key, now, COUNT_TTL)[key].val <= c.threshold
    ensures Trace(c, s0, moves', s')
    ensures s'.clock == now && s'.keys.open == map[] && s'.keys.rate == s.keys.rate && s'.metered == s.metered
    ensures s'.keys.count == Incr(s.keys.count, (s.reqs[i].tenant, now / MINUTE), now, COUNT_TTL)
    ensures s'.reqs == s.reqs[i := Request(s.reqs[i].tenant, Limiting(now / MINUTE, now))]
    ensures forall t: nat, m: nat :: s'.log[HandledIn(t, m)] == s.log[HandledIn(t, m)]
  {
    var s1 := Act(c, s, i, now);
    TraceThen(c, s0, moves, s, i, now);
    moves' := moves + [(i, now)];
    var s2 := Act(c, s1, i, now);
    TraceThen(c, s0, moves', s1, i, now);
    moves' := moves' + [(i, now)];
    var s3 := Act(c, s2, i, now);
    TraceThen(c, s0, moves', s2, i, now);
    moves' := moves' + [(i, now)];
    s' := Act(c, s3, i, now);
    TraceThen(c, s0, moves', s3, i, now);
    moves' := moves' + [(i, now)];
  }

  /** With a limit of one, two requests of one minute are both handled: the second reads the clock in the last
      millisecond of the minute and increments the counter two milliseconds later, when it has just expired. */
  lemma LimiterCanExceedItsLimit(cooldown: nat)
    returns (s: State, moves: seq<(nat, nat)>, end: State)
    ensures var c := Config(2, cooldown, 1);
            Fresh(s) && Trace(c, s, moves, end) && end.log[HandledIn(0, 0)] == 2 > c.limit
  {
    var c := Config(2, cooldown, 1);
    s := State(0, Keys(map[], map[], map[]), [Request(0, Arrived), Request(0, Arrived)], multiset{}, [], map[], map[]);
    var s1, s3;
    moves, s1 := PassAlone(c, s, [], s, 0, 0);
    TraceThen(c, s, moves, s1, 0, 0);
    moves := moves + [(0, 0)];
    var s2 := Act(c, s1, 0, 0);
    moves, s3 := PassAlone(c, s, moves, s2, 1, 59999);
    TraceThen(c, s, moves, s3, 1, 60001);
    moves, end := moves + [(1, 60001)], Act(c, s3, 1, 60001);
  }

  // ----- alarms and isolation -----

  /** Two alarms of one tenant are more than a cooldown apart, also when several requests trip at once. */
  lemma AlarmsAreACooldownApart(c: Config, s: State, moves: seq<(nat, nat)>, end: State)
    requires Fresh(s) && Trace(c, s, moves, end)
    ensures forall i, j | 0 <= i < j < |end.alarms| && end.alarms[i].tenant == end.alarms[j].tenant ::
              end.alarms[i].time + c.cooldown < end.alarms[j].time
  {
    FreshIsOk(c, s);
    TraceKeepsInv(c, s, moves, end);
  }

  // An alarm of the tenant was raised no longer than a cooldown ago.
  ghost predicate Cooling(c: Config, alarms: seq<Alarm>, tenant: nat, now: nat) {
    exists a :: a in alarms && a.tenant == tenant && a.time <= now <= a.time + c.cooldown
  }

  lemma FlagMeansCooling(c: Config, s: State, t: nat, now: nat)
    requires AlarmsOk(c, s) && FlagsOk(c, s) && s.clock <= now
    ensures (t in s.keys.open && now <= s.keys.open[t]) <==> Cooling(c, s.alarms, t, now)
  {
    if t in s.keys.open && now <= s.keys.open[t] {
      var a := Alarm(t, s.keys.open[t] - c.cooldown);
      var k :| 0 <= k < |s.alarms| && s.alarms[k] == a;
      assert s.alarms[k].time <= s.clock;
    }
    if Cooling(c, s.alarms, t, now) {
      var a :| a in s.alarms && a.tenant == t && a.time <= now <= a.time + c.cooldown;
      var k :| 0 <= k < |s.alarms| && s.alarms[k] == a;
      assert s.alarms[k].time + c.cooldown <= s.keys.open[t];
    }
  }

  /** The breaker opens and closes with its alarms: over every trace, a request that arrives is shed at once if and
      only if an alarm of its tenant was raised at most a cooldown ago, and is counted otherwise; and a request
      over the threshold is shed, with such an alarm raised by now. */
  lemma OpenForACooldownAfterAnAlarm(c: Config, s: State, moves: seq<(nat, nat)>, end: State, i: nat, now: nat)
    requires Fresh(s) && Trace(c, s, moves, end) && CanAct(end, i, now)
    ensures var t, next := end.reqs[i].tenant, Act(c, end, i, now);
      && (end.reqs[i].pc.Arrived? ==>
            if Cooling(c, end.alarms, t, now) then next.reqs[i].pc == Shed && next.keys == end.keys else next.reqs[i].pc == Dating)
      && (end.reqs[i].pc.Tripping? ==>
            && next.reqs[i].pc == Shed && Cooling(c, next.alarms, t, now)
            && (next.alarms != end.alarms <==> !Cooling(c, end.alarms, t, now)))
  {
    FreshIsOk(c, s);
    TraceKeepsInv(c, s, moves, end);
    FlagMeansCooling(c, end, end.reqs[i].tenant, now);
    if end.reqs[i].pc.Tripping? { TripCovers(c, end, i, now); }
  }

  lemma TripCovers(c: Config, s: State, i: nat, now: nat)
    requires i < |s.reqs|
    requires IsOpen(s.keys, s.reqs[i].tenant, now) <==> Cooling(c, s.alarms, s.reqs[i].tenant, now)
    ensures var next := Trip(c, s, i, now);
            Cooling(c, next.alarms, s.reqs[i].tenant, now) && (next.alarms != s.alarms <==> !Cooling(c, s.alarms, s.reqs[i].tenant, now))
  {
    var next := Trip(c, s, i, now);
    if !Cooling(c, s.alarms, s.reqs[i].tenant, now) {
      assert next.alarms == s.alarms + [Alarm(s.reqs[i].tenant, now)];
      assert next.alarms[|s.alarms|] in next.alarms && |next.alarms| != |s.alarms|;
    }
  }

  /** A tenant that stays within the threshold in every minute is never shed. */
  lemma WellBehavedTenantsAreNeverShed(c: Config, s: State, moves: seq<(nat, nat)>, end: State, t: nat)
    requires Fresh(s) && Trace(c, s, moves, end)
    requires forall m: nat :: |At(end.counted, (t, m))| <= c.threshold
    ensures end.log[ShedOne(t)] == 0 && t !in end.keys.open
  {
    FreshIsOk(c, s);
    TraceKeepsInv(c, s, moves, end);
    assert !Flooded(c, end, t) && !ShedOrOpen(end, t);
  }

  ghost predicate SameForTenant(k: Keys, k': Keys, t: nat) {
    && (t in k.open <==> t in k'.open) && (t in k.open ==> k.open[t] == k'.open[t])
    && (forall m: nat :: (t, m) in k.count <==> (t, m) in k'.count)
    && (forall m: nat :: (t, m) in k.count ==> k.count[(t, m)] == k'.count[(t, m)])
    && (forall m: nat :: (t, m) in k.rate <==> (t, m) in k'.rate)
    && (forall m: nat :: (t, m) in k.rate ==> k.rate[(t, m)] == k'.rate[(t, m)])
  }

  lemma IncrIsolates(m: map<(nat, nat), Counter>, key: (nat, nat), now: nat, ttl: nat, t: nat)
    requires key.0 != t
    ensures var m' := Incr(m, key, now, ttl);
            forall k: nat :: ((t, k) in m <==> (t, k) in m') && ((t, k) in m ==> m[(t, k)] == m'[(t, k)])
  {
  }

  lemma TripIsolates(c: Config, s: State, i: nat, now: nat, t: nat)
    requires i < |s.reqs| && s.reqs[i].tenant != t
    ensures SameForTenant(s.keys, Trip(c, s, i, now).keys, t)
  {
  }

  lemma CountIsolates(c: Config, s: State, i: nat, now: nat, read: nat, t: nat)
    requires i < |s.reqs| && s.reqs[i].tenant != t
    ensures SameForTenant(s.keys, Count(c, s, i, now, read).keys, t)
  {
    IncrIsolates(s.keys.count, (s.reqs[i].tenant, read / MINUTE), now, COUNT_TTL, t);
  }

  lemma MeterIsolates(c: Config, s: State, i: nat, now: nat, minute: nat, read: nat, t: nat)
    requires i < |s.reqs| && s.reqs[i].tenant != t
    ensures SameForTenant(s.keys, Meter(c, s, i, now, minute, read).keys, t)
  {
    IncrIsolates(s.keys.rate, (s.reqs[i].tenant, read / MINUTE), now, RATE_TTL, t);
  }

  lemma ActIsolates(c: Config, s: State, i: nat, now: nat, t: nat)
    requires CanAct(s, i, now) && s.reqs[i].tenant != t
    ensures SameForTenant(s.keys, Act(c, s, i, now).keys, t)
  {
    match s.reqs[i].pc
    case Counting(read) => CountIsolates(c, s, i, now, read, t);
    case Tripping => TripIsolates(c, s, i, now, t);
    case Limiting(minute, read) => MeterIsolates(c, s, i, now, minute, read, t);
    case _ =>
  }

  /** Requests of other tenants leave a tenant's keys alone, over any trace. */
  lemma {:induction false} TenantsAreIsolated(c: Config, s: State, moves: seq<(nat, nat)>, end: State, t: nat)
    requires Trace(c, s, moves, end)
    requires forall k | 0 <= k < |moves| && moves[k].0 < |s.reqs| :: s.reqs[moves[k].0].tenant != t
    ensures SameForTenant(s.keys, end.keys, t)
    decreases |moves|
  {
    if moves != [] {
      var s1 := Act(c, s, moves[0].0, moves[0].1);
      ActIsolates(c, s, moves[0].0, moves[0].1, t);
      ReadingsArePast(c, s, moves[0].0, moves[0].1);
      assert forall k | 0 <= k < |moves[1..]| :: moves[1..][k] == moves[k + 1];
      TenantsAreIsolated(c, s1, moves[1..], end, t);
    }
  }

  // ----- the middleware as one request runs it -----

  // The state a lone request of a tenant sees, and where its steps at the given times lead.
  function Alone(k: Keys, tenant: nat, now: nat): State {
    State(now, k, [Request(tenant, Arrived)], multiset{}, [], map[], map[])
  }

  function Settle(c: Config, s: State, times: seq<nat>): (end: State)
    ensures |end.reqs| == |s.reqs|
    decreases |times|
  {
    if times == [] || !CanAct(s, 0, times[0]) then s else Settle(c, Act(c, s, 0, times[0]), times[1..])
  }

  // What is seen of a lone request.
  ghost predicate Sees(s: State, k: Keys, tenant: nat, now: nat, pc: Pc, alarms: seq<Alarm>) {
    s.keys == k && s.reqs == [Request(tenant, pc)] && s.clock == now && s.alarms == alarms
  }

  lemma SettleStep(c: Config, s: State, t: nat, rest: seq<nat>)
    ensures Settle(c, s, [t] + rest) == if CanAct(s, 0, t) then Settle(c, Act(c, s, 0, t), rest) else s
  {
    assert ([t] + rest)[1..] == rest;
  }

  // A tenant whose breaker is open.
  lemma SettleOpen(c: Config, k: Keys, tenant: nat, t0: nat, r1: nat, rest: seq<nat>)
    requires t0 <= r1 && IsOpen(k, tenant, t0)
    ensures Sees(Settle(c, Alone(k, tenant, t0), [t0] + ([r1] + rest)), k, tenant, t0, Shed, [])
  {
    var s0 := Alone(k, tenant, t0);
    SettleStep(c, s0, t0, [r1] + rest);
    SettleStep(c, Act(c, s0, 0, t0), r1, rest);
  }

  // A request that is counted, up to its increment.
  lemma SettleCounted(c: Config, k: Keys, tenant: nat, t0: nat, r1: nat, t1: nat, rest: seq<nat>) returns (s: State)
    requires t0 <= r1 <= t1 && !IsOpen(k, tenant, t0)
    ensures var key := (tenant, r1 / MINUTE);
            var count := Incr(k.count, key, t1, COUNT_TTL);
            Sees(s, k.(count := count), tenant, t1, if count[key].val > c.threshold then Tripping else Passing(key.1), [])
    ensures Settle(c, Alone(k, tenant, t0), [t0] + ([r1] + ([t1] + rest))) == Settle(c, s, rest)
  {
    var s0 := Alone(k, tenant, t0);
    SettleStep(c, s0, t0, [r1] + ([t1] + rest));
    var s1 := Act(c, s0, 0, t0);
    assert Sees(s1, k, tenant, t0, Dating, []);
    SettleStep(c, s1, r1, [t1] + rest);
    var s2 := Act(c, s1, 0, r1);
    assert Sees(s2, k, tenant, r1, Counting(r1), []);
    SettleStep(c, s2, t1, rest);
    s := Act(c, s2, 0, t1);
  }

  lemma SettleTripped(c: Config, s: State, k: Keys, tenant: nat, t1: nat, r2: nat, t2: nat)
    requires Sees(s, k, tenant, t1, Tripping, []) && t1 <= r2 <= t2
    ensures var end := Settle(c, s, [r2] + ([t2] + []));
            if IsOpen(k, tenant, r2) then Sees(end, k, tenant, r2, Shed, [])
            else Sees(end, k.(open := k.open[tenant := r2 + c.cooldown]), tenant, r2, Shed, [Alarm(tenant, r2)])
  {
    SettleStep(c, s, r2, [t2] + []);
    SettleStep(c, Act(c, s, 0, r2), t2, []);
  }

  lemma SettlePassed(c: Config, s: State, k: Keys, tenant: nat, minute: nat, t1: nat, r2: nat, t2: nat)
    requires Sees(s, k, tenant, t1, Passing(minute), []) && t1 <= r2 <= t2
    ensures var key := (tenant, r2 / MINUTE);
            var rate := Incr(k.rate, key, t2, RATE_TTL);
            Sees(Settle(c, s, [r2] + ([t2] + [])), k.(rate := rate), tenant, t2, if rate[key].val > c.limit then Limited else Handled, [])
  {
    SettleStep(c, s, r2, [t2] + []);
    var s1 := Act(c, s, 0, r2);
    assert Sees(s1, k, tenant, r2, Limiting(minute, r2), []);
    SettleStep(c, s1, t2, []);
  }

  class Redis {
    var open: map<nat, nat>
    var count: map<(nat, nat), Counter>
    var rate: map<(nat, nat), Counter>

    function View(): Keys
      reads this
    {
      Keys(open, count, rate)
    }

    // The clock readings at r1 and r2 and the commands at t0, t1 and t2; a tripped request ends at r2.
    method Serve(c: Config, tenant: nat, t0: nat, r1: nat, t1: nat, r2: nat, t2: nat) returns (outcome: Pc, alarm: bool)
      requires t0 <= r1 <= t1 <= r2 <= t2
      modifies this
      ensures var end := Settle(c, Alone(old(View()), tenant, t0), [t0, r1, t1, r2, t2]);
              View() == end.keys && outcome == end.reqs[0].pc && (alarm <==> end.alarms != [])
      // The flag is looked up before its time to live is over, or it is as if it were not there.
      ensures tenant in old(open) && t0 <= old(open)[tenant] ==> outcome == Shed && !alarm && View() == old(View())
      ensures !(tenant in old(open) && t0 <= old(open)[tenant]) ==>
        var key := (tenant, r1 / MINUTE);
        && count == Incr(old(count), key, t1, COUNT_TTL)
        && (outcome == Shed <==> count[key].val > c.threshold)
        && (alarm <==> count[key].val > c.threshold && !(tenant in old(open) && r2 <= old(open)[tenant]))
      ensures open == if alarm then old(open)[tenant := r2 + c.cooldown] else old(open)
      ensures outcome == Limited || outcome == Handled ==>
        var key := (tenant, r2 / MINUTE);
        rate == Incr(old(rate), key, t2, RATE_TTL) && (outcome == Handled <==> rate[key].val <= c.limit)
      ensures outcome == Shed || outcome == Limited || outcome == Handled
    {
      alarm := false;
      ghost var k := View();
      assert [t0, r1, t1, r2, t2] == [t0] + ([r1] + ([t1] + ([r2] + ([t2] + []))));
      if tenant in open && t0 <= open[tenant] {
        SettleOpen(c, k, tenant, t0, r1, [t1] + ([r2] + ([t2] + [])));
        return Shed, false;
      }
      ghost var s := SettleCounted(c, k, tenant, t0, r1, t1, [r2] + ([t2] + []));
      var minute := r1 / MINUTE;
      count := Incr(count, (tenant, minute), t1, COUNT_TTL);
      if count[(tenant, minute)].val > c.threshold {
        SettleTripped(c, s, View(), tenant, t1, r2, t2);
        if !(tenant in open && r2 <= open[tenant]) {
          open := open[tenant := r2 + c.cooldown];
          alarm := true;
        }
        return Shed, alarm;
      }
      SettlePassed(c, s, View(), tenant, minute, t1, r2, t2);
      minute := r2 / MINUTE;
      rate := Incr(rate, (tenant, minute), t2, RATE_TTL);
      if rate[(tenant, minute)].val > c.limit { return Limited, false; }
      return Handled, false;
    }
  }
}
