/** The WebSocket hub: who is registered for which tenant's messages, and the lifetime of their channels. */
module Hub {
  type Tenant(==, !new)
  type Message(==, !new)

  // A connection is created for its tenants and registers once.
  datatype Client = Client(id: nat, tenantIDs: seq<Tenant>)

  datatype Channel = Channel(open: bool, queue: seq<Message>)

  type Tenants = map<Tenant, set<Client>>

  const CAPACITY := 256

  ghost predicate Member(tenants: Tenants, t: Tenant, c: Client) { t in tenants && c in tenants[t] }

  ghost predicate NoEmptyEntry(tenants: Tenants) { forall t | t in tenants :: tenants[t] != {} }

  // ----- the three operations on the map -----

  ghost function Added(tenants: Tenants, c: Client, ids: seq<Tenant>): Tenants {
    map t | t in tenants.Keys + (set i | i in ids) ::
      (if t in tenants then tenants[t] else {}) + (if t in ids then {c} else {})
  }

  ghost function Removed(tenants: Tenants, c: Client, ids: seq<Tenant>): Tenants {
    map t | t in tenants && (t in ids ==> tenants[t] - {c} != {}) :: if t in ids then tenants[t] - {c} else tenants[t]
  }

  // The channel after a non-blocking send: a full one is left alone.
  function Offered(ch: Channel, m: Message): Channel {
    if |ch.queue| < CAPACITY then ch.(queue := ch.queue + [m]) else ch
  }

  // Every channel after a message went to a set of clients.
  ghost function Posted(channels: map<Client, Channel>, clients: set<Client>, m: Message): map<Client, Channel> {
    map c | c in channels :: if c in clients then Offered(channels[c], m) else channels[c]
  }

  /** Adding registers a client for exactly its tenants, and leaves no empty entry. */
  lemma AddedMembers(tenants: Tenants, c: Client, ids: seq<Tenant>)
    ensures forall t, d :: Member(Added(tenants, c, ids), t, d) <==> Member(tenants, t, d) || (d == c && t in ids)
    ensures NoEmptyEntry(tenants) ==> NoEmptyEntry(Added(tenants, c, ids))
  {
  }

  lemma RemovedMembers(tenants: Tenants, c: Client, ids: seq<Tenant>)
    ensures forall t, d :: Member(Removed(tenants, c, ids), t, d) <==> Member(tenants, t, d) && !(d == c && t in ids)
    ensures NoEmptyEntry(tenants) ==> NoEmptyEntry(Removed(tenants, c, ids))
  {
    var after := Removed(tenants, c, ids);
    forall t, d ensures Member(after, t, d) <==> Member(tenants, t, d) && !(d == c && t in ids) {
      if Member(tenants, t, d) && !(d == c && t in ids) {
        assert t in ids ==> d in tenants[t] - {c};
      }
    }
  }

  lemma AddedOneMore(tenants: Tenants, c: Client, ids: seq<Tenant>, t: Tenant)
    ensures var r := Added(tenants, c, ids);
            Added(tenants, c, ids + [t]) == r[t := (if t in r then r[t] else {}) + {c}]
  {
    var r, r' := Added(tenants, c, ids), Added(tenants, c, ids + [t]);
    assert forall u :: u in ids + [t] <==> u in ids || u == t;
    var want := r[t := (if t in r then r[t] else {}) + {c}];
    forall u ensures u in r' <==> u in want {}
    forall u | u in r' ensures r'[u] == want[u] {
      assert u == t ==> r'[u] == (if t in tenants then tenants[t] else {}) + {c};
      assert t in r ==> r[t] == (if t in tenants then tenants[t] else {}) + (if t in ids then {c} else {});
    }
  }

  lemma AddedNowhere(tenants: Tenants, c: Client)
    ensures Added(tenants, c, []) == tenants
  {
    assert forall t | t in tenants :: tenants[t] + {} == tenants[t];
  }

  lemma RemovedOneMore(tenants: Tenants, c: Client, ids: seq<Tenant>, t: Tenant)
    ensures var r, r' := Removed(tenants, c, ids), Removed(tenants, c, ids + [t]);
            r' == if t !in r then r else if r[t] - {c} == {} then r - {t} else r[t := r[t] - {c}]
  {
    var r, r' := Removed(tenants, c, ids), Removed(tenants, c, ids + [t]);
    assert forall u :: u in ids + [t] <==> u in ids || u == t;
    assert t in r ==> r[t] - {c} == tenants[t] - {c};
    forall u ensures u in r' <==> u in r && (u == t ==> r[t] - {c} != {}) {
    }
  }

  // ----- every interleaving of handlers, pumps, broadcasts and the hub's loop -----

  // What the hub's goroutine is doing; it takes one request off its channels at a time.
  datatype Loop = Idle | Adding(c: Client) | Removing(c: Client) | Stopped

  datatype State = State(
    tenants: Tenants,
    loop: Loop,
    channels: map<Client, Channel>,     // of the clients handed to the hub
    once: set<Client>,                  // somebody ran the body of ForceDisconnect
    leaving: set<Client>,               // blocked on the hub taking the request to unregister
    panicked: bool,                     // sent on a closed channel, or closed one twice
    // history, for the statements below
    slow: set<Client>,                  // missed a message because the channel was full
    sent: map<Client, seq<Message>>,    // what the write pump took
    due: map<Client, seq<Message>>)     // what was posted to its tenants while it was registered

  datatype Act =
    | Register(c: Client)               // the hub takes the client off the register channel
    | Add                               // and files it under its tenants
    | ForceDisconnect(c: Client)        // the first call for this client; later ones do nothing
    | Unregister(c: Client)             // the hub takes the client off the unregister channel
    | Remove                            // removes it everywhere and closes its channel
    | Broadcast(t: Tenant, m: Message)
    | Pump(c: Client)                   // the write pump takes the next message
    | Shutdown

  function Init(): State { State(map[], Idle, map[], {}, {}, false, {}, map[], map[]) }

  predicate CanAct(s: State, a: Act) {
    match a
    case Register(c) => s.loop.Idle? && c !in s.channels
    case Add => s.loop.Adding?
    case ForceDisconnect(c) => c in s.channels && c !in s.once
    case Unregister(c) => s.loop.Idle? && c in s.leaving
    case Remove => s.loop.Removing?
    case Broadcast(_, _) => true
    case Pump(c) => c in s.channels && s.channels[c].queue != []
    case Shutdown => s.loop.Idle?
  }

  // Registered, and not yet unregistered.
  ghost predicate Live(s: State, c: Client) {
    && c in s.channels && s.loop != Adding(c)
    && (c !in s.once || c in s.leaving || s.loop == Removing(c))
  }

  ghost function At<T>(m: map<Client, seq<T>>, c: Client): seq<T> { if c in m then m[c] else [] }

  ghost function Receivers(s: State, t: Tenant): set<Client> { if t in s.tenants then s.tenants[t] else {} }

  ghost function Apply(s: State, a: Act): State
    requires CanAct(s, a)
  {
    match a
    case Register(c) => s.(loop := Adding(c), channels := s.channels[c := Channel(true, [])])
    case Add => s.(loop := Idle, tenants := Added(s.tenants, s.loop.c, s.loop.c.tenantIDs))
    case ForceDisconnect(c) => s.(once := s.once + {c}, leaving := s.leaving + {c})
    case Unregister(c) => s.(loop := Removing(c), leaving := s.leaving - {c})
    case Remove =>
      var c := s.loop.c;
      var s' := s.(loop := Idle, tenants := Removed(s.tenants, c, c.tenantIDs));
      if c in s.channels && s.channels[c].open
      then s'.(channels := s.channels[c := s.channels[c].(open := false)])
      else s'.(panicked := true)
    case Broadcast(t, m) =>
      var to := Receivers(s, t);
      s.(channels := Posted(s.channels, to, m),
         panicked := s.panicked || exists c :: c in to && !(c in s.channels && s.channels[c].open),
         slow := s.slow + (set c | c in to && c in s.channels && |s.channels[c].queue| >= CAPACITY),
         due := map c | c in s.channels :: At(s.due, c) + (if Live(s, c) && t in c.tenantIDs then [m] else []))
    case Pump(c) =>
      var q := s.channels[c].queue;
      s.(channels := s.channels[c := s.channels[c].(queue := q[1..])], sent := s.sent[c := At(s.sent, c) + [q[0]]])
    case Shutdown => s.(loop := Stopped)
  }

  ghost predicate Filed(s: State) {
    && NoEmptyEntry(s.tenants)
    && (forall t, c :: Member(s.tenants, t, c) <==> Live(s, c) && t in c.tenantIDs)
  }

  ghost predicate Lifetimes(s: State) {
    && !s.panicked
    && s.leaving <= s.once <= s.channels.Keys
    && (s.loop.Adding? ==> s.loop.c in s.channels && (s.loop.c in s.once ==> s.loop.c in s.leaving))
    && (s.loop.Removing? ==> s.loop.c in s.once && s.loop.c !in s.leaving)
    && (forall c | c in s.channels :: s.channels[c].open <==> Live(s, c) || s.loop == Adding(c))
  }

  // The elements of xs occur in ys, in that order.
  ghost predicate Subsequence<T(!new)>(xs: seq<T>, ys: seq<T>)
    decreases |ys|
  {
    xs == [] || (ys != [] && (Subsequence(xs, ys[..|ys| - 1])
                              || (xs[|xs| - 1] == ys[|ys| - 1] && Subsequence(xs[..|xs| - 1], ys[..|ys| - 1]))))
  }

  // What was taken and what is queued are due messages, in order; all of them, unless one was missed.
  ghost predicate InOrder(sent: seq<Message>, queue: seq<Message>, due: seq<Message>, slow: bool) {
    |queue| <= CAPACITY && Subsequence(sent + queue, due) && (!slow ==> sent + queue == due)
  }

  ghost predicate Received(s: State, c: Client)
    requires c in s.channels
  {
    InOrder(At(s.sent, c), s.channels[c].queue, At(s.due, c), c in s.slow)
  }

  ghost predicate Messages(s: State) {
    && s.sent.Keys <= s.channels.Keys && s.due.Keys <= s.channels.Keys && s.slow <= s.channels.Keys
    && forall c | c in s.channels :: Received(s, c)
  }

  ghost predicate Inv(s: State) { Filed(s) && Lifetimes(s) && Messages(s) }

  lemma ActKeepsFiled(s: State, a: Act)
    requires Filed(s) && Lifetimes(s) && CanAct(s, a)
    ensures Filed(Apply(s, a))
  {
    var s' := Apply(s, a);
    match a
    case Add => AddedMembers(s.tenants, s.loop.c, s.loop.c.tenantIDs);
    case Remove => RemovedMembers(s.tenants, s.loop.c, s.loop.c.tenantIDs);
    case _ => assert forall c :: Live(s', c) <==> Live(s, c);
  }

  lemma BroadcastKeepsLifetimes(s: State, t: Tenant, m: Message)
    requires Filed(s) && Lifetimes(s)
    ensures Lifetimes(Apply(s, Broadcast(t, m)))
  {
    var s' := Apply(s, Broadcast(t, m));
    forall c | c in Receivers(s, t) ensures c in s.channels && s.channels[c].open {
      assert Member(s.tenants, t, c);
    }
    assert forall c :: Live(s', c) <==> Live(s, c);
  }

  // The channel a removal closes is still open.
  lemma RemoveKeepsLifetimes(s: State)
    requires Lifetimes(s) && CanAct(s, Remove)
    ensures Lifetimes(Apply(s, Remove))
  {
  }

  lemma ActKeepsLifetimes(s: State, a: Act)
    requires Filed(s) && Lifetimes(s) && CanAct(s, a)
    ensures Lifetimes(Apply(s, a))
  {
    match a
    case Broadcast(t, m) => BroadcastKeepsLifetimes(s, t, m);
    case Remove => RemoveKeepsLifetimes(s);
    case _ =>
  }

  lemma SubsequenceGrows<T(!new)>(xs: seq<T>, ys: seq<T>, x: T)
    ensures Subsequence(xs, ys) ==> Subsequence(xs, ys + [x]) && Subsequence(xs + [x], ys + [x])
  {
  }

  lemma PostingKeepsOrder(sent: seq<Message>, queue: seq<Message>, due: seq<Message>, slow: bool, m: Message)
    requires InOrder(sent, queue, due, slow)
    ensures if |queue| < CAPACITY then InOrder(sent, queue + [m], due + [m], slow) else InOrder(sent, queue, due + [m], true)
  {
    SubsequenceGrows(sent + queue, due, m);
    assert sent + (queue + [m]) == sent + queue + [m];
  }

  // What a broadcast does for one client.
  lemma BroadcastAt(s: State, t: Tenant, m: Message, c: Client)
    requires Filed(s) && c in s.channels
    ensures var s', to, q := Apply(s, Broadcast(t, m)), c in Receivers(s, t), s.channels[c].queue;
      && s'.sent == s.sent && c in s'.channels
      && s'.channels[c].queue == (if to && |q| < CAPACITY then q + [m] else q)
      && At(s'.due, c) == (if to then At(s.due, c) + [m] else At(s.due, c))
      && (c in s'.slow <==> c in s.slow || (to && |q| >= CAPACITY))
  {
    assert Member(s.tenants, t, c) <==> c in Receivers(s, t);
  }

  lemma BroadcastKeepsReceived(s: State, t: Tenant, m: Message, c: Client)
    requires Filed(s) && Messages(s) && c in s.channels
    ensures Received(Apply(s, Broadcast(t, m)), c)
  {
    assert Received(s, c);
    BroadcastAt(s, t, m, c);
    PostingKeepsOrder(At(s.sent, c), s.channels[c].queue, At(s.due, c), c in s.slow, m);
  }

  // A step that touches neither a client's queue nor its history.
  lemma UntouchedKeepsReceived(s: State, s': State, c: Client)
    requires c in s.channels && c in s'.channels && Received(s, c)
    requires s'.channels[c].queue == s.channels[c].queue
    requires At(s'.sent, c) == At(s.sent, c) && At(s'.due, c) == At(s.due, c) && (c in s'.slow <==> c in s.slow)
    ensures Received(s', c)
  {
  }

  lemma TakingKeepsOrder(sent: seq<Message>, queue: seq<Message>, due: seq<Message>, slow: bool)
    requires InOrder(sent, queue, due, slow) && queue != []
    ensures InOrder(sent + [queue[0]], queue[1..], due, slow)
  {
    assert sent + [queue[0]] + queue[1..] == sent + queue;
  }

  // What the pump does for one client.
  lemma PumpAt(s: State, c: Client, d: Client)
    requires CanAct(s, Pump(c)) && d in s.channels
    ensures var s', q := Apply(s, Pump(c)), s.channels[d].queue;
      && s'.channels.Keys == s.channels.Keys && s'.due == s.due && s'.slow == s.slow
      && s'.channels[d].queue == (if d == c then q[1..] else q)
      && At(s'.sent, d) == (if d == c then At(s.sent, d) + [q[0]] else At(s.sent, d))
  {
  }

  lemma PumpKeepsMessages(s: State, c: Client)
    requires Messages(s) && CanAct(s, Pump(c))
    ensures Messages(Apply(s, Pump(c)))
  {
    var s' := Apply(s, Pump(c));
    PumpAt(s, c, c);
    forall d | d in s'.channels ensures Received(s', d) {
      assert Received(s, d);
      PumpAt(s, c, d);
      if d == c { TakingKeepsOrder(At(s.sent, c), s.channels[c].queue, At(s.due, c), c in s.slow); }
    }
  }

  lemma BroadcastKeepsMessages(s: State, t: Tenant, m: Message)
    requires Inv(s)
    ensures Messages(Apply(s, Broadcast(t, m)))
  {
    var s' := Apply(s, Broadcast(t, m));
    forall c | c in s'.channels ensures Received(s', c) {
      BroadcastKeepsReceived(s, t, m, c);
    }
  }

  lemma RegisterKeepsMessages(s: State, c: Client)
    requires Messages(s) && CanAct(s, Register(c))
    ensures Messages(Apply(s, Register(c)))
  {
  }

  lemma RemoveAt(s: State, c: Client)
    requires CanAct(s, Remove) && c in Apply(s, Remove).channels
    ensures var s' := Apply(s, Remove);
      && (c in s.channels ==> s'.channels[c].queue == s.channels[c].queue)
      && s'.sent == s.sent && s'.due == s.due && s'.slow == s.slow && s'.channels.Keys == s.channels.Keys
  {
  }

  lemma RemoveKeepsMessages(s: State)
    requires Messages(s) && CanAct(s, Remove)
    ensures Messages(Apply(s, Remove))
  {
    var s' := Apply(s, Remove);
    if c :| c in s'.channels { RemoveAt(s, c); }
    forall d | d in s'.channels ensures Received(s', d) {
      RemoveAt(s, d);
      UntouchedKeepsReceived(s, s', d);
    }
  }

  lemma QuietActKeepsMessages(s: State, a: Act)
    requires Messages(s) && CanAct(s, a) && (a.Add? || a.ForceDisconnect? || a.Unregister? || a.Shutdown?)
    ensures Messages(Apply(s, a))
  {
  }

  lemma ActKeepsMessages(s: State, a: Act)
    requires Inv(s) && CanAct(s, a)
    ensures Messages(Apply(s, a))
  {
    match a
    case Broadcast(t, m) => BroadcastKeepsMessages(s, t, m);
    case Pump(c) => PumpKeepsMessages(s, c);
    case Register(c) => RegisterKeepsMessages(s, c);
    case Remove => RemoveKeepsMessages(s);
    case _ => QuietActKeepsMessages(s, a);
  }

  // Some schedule leads from one state to the other.
  ghost predicate Run(s: State, acts: seq<Act>, s': State)
    decreases |acts|
  {
    if acts == [] then s == s' else CanAct(s, acts[0]) && Run(Apply(s, acts[0]), acts[1..], s')
  }

  lemma {:induction false} RunKeepsInv(s: State, acts: seq<Act>, s': State)
    requires Inv(s) && Run(s, acts, s')
    ensures Inv(s')
    decreases |acts|
  {
    if acts != [] {
      ActKeepsFiled(s, acts[0]);
      ActKeepsLifetimes(s, acts[0]);
      ActKeepsMessages(s, acts[0]);
      RunKeepsInv(Apply(s, acts[0]), acts[1..], s');
    }
  }

  /** Under every schedule a client is filed under a tenant exactly while it is registered and the tenant is
      one of its own; no entry is empty, everyone filed has an open channel, and no channel is sent on after
      it was closed or closed twice. */
  lemma RegistrationIsExact(acts: seq<Act>, s: State)
    requires Run(Init(), acts, s)
    ensures forall t, c :: Member(s.tenants, t, c) <==> Live(s, c) && t in c.tenantIDs
    ensures forall t | t in s.tenants :: s.tenants[t] != {}
    ensures forall t, c | Member(s.tenants, t, c) :: c in s.channels && s.channels[c].open
    ensures !s.panicked
  {
    RunKeepsInv(Init(), acts, s);
  }

  /** A client receives only what was posted to its own tenants while it was registered, in that order; all of
      it, unless its channel was once found full; and its channel never holds more than its capacity. */
  lemma ClientsReceiveTheirTenantsMessages(acts: seq<Act>, s: State, c: Client)
    requires Run(Init(), acts, s) && c in s.channels
    ensures var got := At(s.sent, c) + s.channels[c].queue;
            Subsequence(got, At(s.due, c)) && (c !in s.slow ==> got == At(s.due, c))
    ensures |s.channels[c].queue| <= CAPACITY
  {
    RunKeepsInv(Init(), acts, s);
    assert Received(s, c);
  }

  // ----- nobody stays filed after leaving -----

  // The hub's own next step, while there is one.
  ghost predicate HubCanMove(s: State) {
    CanAct(s, Add) || CanAct(s, Remove) || exists c :: CanAct(s, Unregister(c))
  }

  /** The hub rests only when every client that was disconnected is out of the map and its channel closed, and
      every other client is filed under all its tenants. */
  lemma RestingHubIsUpToDate(acts: seq<Act>, s: State, c: Client)
    requires Run(Init(), acts, s) && !s.loop.Stopped? && !HubCanMove(s) && c in s.channels
    ensures if c in s.once then !s.channels[c].open && forall t :: !Member(s.tenants, t, c)
            else s.channels[c].open && forall t :: Member(s.tenants, t, c) <==> t in c.tenantIDs
  {
    RunKeepsInv(Init(), acts, s);
    assert CanAct(s, Unregister(c)) <==> s.loop.Idle? && c in s.leaving;
  }

  // ----- the same operations, in place -----

  class Registry {
    var tenants: Tenants
    var channels: map<Client, Channel>

    constructor ()
      ensures tenants == map[] && channels == map[]
    {
      tenants, channels := map[], map[];
    }

    method Register(c: Client)
      modifies this`tenants
      ensures tenants == Added(old(tenants), c, c.tenantIDs)
    {
      AddedNowhere(tenants, c);
      for i := 0 to |c.tenantIDs|
        invariant tenants == Added(old(tenants), c, c.tenantIDs[..i])
      {
        var t := c.tenantIDs[i];
        AddedOneMore(old(tenants), c, c.tenantIDs[..i], t);
        assert c.tenantIDs[..i + 1] == c.tenantIDs[..i] + [t];
        var members := if t in tenants then tenants[t] else {};
        tenants := tenants[t := members + {c}];
      }
      assert c.tenantIDs[..|c.tenantIDs|] == c.tenantIDs;
    }

    method Unregister(c: Client)
      requires c in channels && channels[c].open
      modifies this
      ensures tenants == Removed(old(tenants), c, c.tenantIDs)
      ensures channels == old(channels)[c := Channel(false, old(channels)[c].queue)]
    {
      for i := 0 to |c.tenantIDs|
        invariant channels == old(channels)
        invariant tenants == Removed(old(tenants), c, c.tenantIDs[..i])
      {
        var t := c.tenantIDs[i];
        RemovedOneMore(old(tenants), c, c.tenantIDs[..i], t);
        assert c.tenantIDs[..i + 1] == c.tenantIDs[..i] + [t];
        if t in tenants {
          if tenants[t] - {c} == {} {
            tenants := tenants - {t};
          } else {
            tenants := tenants[t := tenants[t] - {c}];
          }
        }
      }
      assert c.tenantIDs[..|c.tenantIDs|] == c.tenantIDs;
      channels := channels[c := channels[c].(open := false)];
    }

    // Posts to the tenant's clients, and returns those to disconnect for being too slow.
    method BroadcastToTenant(t: Tenant, m: Message) returns (slow: set<Client>)
      requires forall c | t in tenants && c in tenants[t] :: c in channels && channels[c].open
      modifies this`channels
      ensures channels == Posted(old(channels), if t in tenants then tenants[t] else {}, m)
      ensures slow == set c | t in tenants && c in tenants[t] && |old(channels)[c].queue| >= CAPACITY
    {
      slow := {};
      if t !in tenants { return; }
      var rest := tenants[t];
      while rest != {}
        invariant rest <= tenants[t]
        invariant channels == Posted(old(channels), tenants[t] - rest, m)
        invariant slow == set c | c in tenants[t] - rest && |old(channels)[c].queue| >= CAPACITY
      {
        var c :| c in rest;   // the iteration order of a Go map is arbitrary
        rest := rest - {c};
        if |channels[c].queue| < CAPACITY {
          channels := channels[c := channels[c].(queue := channels[c].queue + [m])];
        } else {
          slow := slow + {c};
        }
      }
    }
  }
}
