/** Where alert hosts and link ends go in the merged graph, said of the inputs alone. */
module TopologyPlaces {
  import opened Wrappers
  import opened Severities
  import opened Topology

  // What a builder's run is given besides hosts and links.
  datatype Known = Known(ds: seq<Device>, assets: seq<AssetAlias>, staleBefore: Option<int>, isIP: string -> bool)

  function Base(k: Known): Graph { Inventory(k.ds, k.assets, k.staleBefore, k.isIP) }

  // ----- which device a name leads to -----

  /** The device with that address; else the last with that full name; else the one of the last alias under the
      name or its first label; else the one device with that label as short name. */
  ghost predicate LeadsTo(k: Known, name: string, id: string) {
    var n := NormalizeHost(name);
    name != "" &&
    if IsAddress(k.ds, name) then id == name
    else if LastNamed(k.ds, n).Some? then id == LastNamed(k.ds, n).value
    else if AliasFor(k.ds, k.assets, k.isIP, name).Some? then id == AliasFor(k.ds, k.assets, k.isIP, name).value
    else !k.isIP(name) && SoleDevice(k.ds, ShortName(n), id)
  }

  ghost predicate Leads(k: Known, name: string) { exists id :: LeadsTo(k, name, id) }

  lemma {:induction false} CarriersCount(ds: seq<Device>, sn: string, id: string)
    requires HasShort(ds, sn, id)
    ensures CountShort(ds, sn) >= 1
  {
    assert forall d :: d in ds <==> d == ds[0] || d in ds[1..];
    if HasShort(ds[1..], sn, id) { CarriersCount(ds[1..], sn, id); }
  }

  lemma {:induction false} OnlyCarrier(ds: seq<Device>, sn: string, a: string, b: string)
    requires HasShort(ds, sn, a) && HasShort(ds, sn, b) && CountShort(ds, sn) == 1
    ensures a == b
  {
    var rest := ds[1..];
    assert forall d :: d in ds <==> d == ds[0] || d in rest;
    if HasShort(rest, sn, a) { CarriersCount(rest, sn, a); }
    if HasShort(rest, sn, b) { CarriersCount(rest, sn, b); }
    if HasShort(rest, sn, a) && HasShort(rest, sn, b) { OnlyCarrier(rest, sn, a, b); }
  }

  lemma LeadsToResolves(k: Known, name: string, id: string)
    ensures LeadsTo(k, name, id) <==> Resolve(Base(k).hr, name, k.isIP) == Some(id)
  {
    if name != "" {
      EveryNameResolves(k.ds, k.assets, k.staleBefore, k.isIP, name);
      var sn := ShortName(NormalizeHost(name));
      var r := Resolve(Base(k).hr, name, k.isIP);
      if SoleDevice(k.ds, sn, id) && r.Some? && SoleDevice(k.ds, sn, r.value) { OnlyCarrier(k.ds, sn, id, r.value); }
    }
  }

  // ----- once hosts have been folded -----

  // The first host of that name which leads to no device and so became a node of its own.
  ghost function OwnNode(k: Known, hs: seq<Host>, n: string): Option<string> {
    if hs == [] then None
    else if hs[0].name != "" && NormalizeHost(hs[0].name) == n && !Leads(k, hs[0].name) then Some(hs[0].name)
    else OwnNode(k, hs[1..], n)
  }

  /** Addresses and full names of devices go first, then the hosts folded before that became nodes of their own,
      then what else leads to a device. */
  ghost predicate EndsAt(k: Known, before: seq<Host>, name: string, id: string) {
    var n := NormalizeHost(name);
    name != "" &&
    if IsAddress(k.ds, name) || LastNamed(k.ds, n).Some? || OwnNode(k, before, n).None? then LeadsTo(k, name, id)
    else id == OwnNode(k, before, n).value
  }

  ghost predicate Ends(k: Known, before: seq<Host>, name: string) { exists id :: EndsAt(k, before, name, id) }

  // The same host, by what it resolves to.
  function Unresolved(hr: Resolver, hs: seq<Host>, isIP: string -> bool, n: string): Option<string> {
    if hs == [] then None
    else if hs[0].name != "" && NormalizeHost(hs[0].name) == n && Resolve(hr, hs[0].name, isIP).None? then Some(hs[0].name)
    else Unresolved(hr, hs[1..], isIP, n)
  }

  lemma {:induction false} OwnNodeIsUnresolved(k: Known, hs: seq<Host>, n: string)
    ensures OwnNode(k, hs, n) == Unresolved(Base(k).hr, hs, k.isIP, n)
  {
    if hs != [] {
      var r := Resolve(Base(k).hr, hs[0].name, k.isIP);
      if r.Some? { LeadsToResolves(k, hs[0].name, r.value); }
      forall id ensures LeadsTo(k, hs[0].name, id) <==> r == Some(id) { LeadsToResolves(k, hs[0].name, id); }
      OwnNodeIsUnresolved(k, hs[1..], n);
    }
  }

  // Two resolvers that differ in the full names only, and not in this one.
  predicate SameBut(hr: Resolver, hr': Resolver, n: string) {
    hr'.ip == hr.ip && hr'.short == hr.short && hr'.alias_ == hr.alias_ && Lookup(hr'.sys, n) == Lookup(hr.sys, n)
  }

  lemma {:induction false} UnresolvedIgnoresOtherNames(hr: Resolver, hr': Resolver, hs: seq<Host>, isIP: string -> bool, n: string)
    requires SameBut(hr, hr', n)
    ensures Unresolved(hr', hs, isIP, n) == Unresolved(hr, hs, isIP, n)
  {
    if hs != [] { UnresolvedIgnoresOtherNames(hr, hr', hs[1..], isIP, n); }
  }

  lemma UnresolvedOne(hr: Resolver, h: Host, isIP: string -> bool, n: string)
    ensures Unresolved(hr, [h], isIP, n)
         == if h.name != "" && NormalizeHost(h.name) == n && Resolve(hr, h.name, isIP).None? then Some(h.name) else None
  {
    assert [h][1..] == [];
  }

  // A host without a node of its own leaves the names alone, any other adds its own.
  lemma FoldHostResolver(g: Graph, h: Host, isIP: string -> bool)
    ensures FoldHost(g, h, isIP).hr ==
      if h.name != "" && Resolve(g.hr, h.name, isIP).None? then g.hr.(sys := g.hr.sys[NormalizeHost(h.name) := h.name]) else g.hr
  {
  }

  lemma UnresolvedIsNew(hr: Resolver, name: string, isIP: string -> bool)
    requires name != "" && Resolve(hr, name, isIP).None?
    ensures Lookup(hr.sys, NormalizeHost(name)).None?
  {
  }

  lemma FoldHostNames(g: Graph, h: Host, isIP: string -> bool, n: string)
    ensures var hr' := FoldHost(g, h, isIP).hr;
      && hr'.ip == g.hr.ip && hr'.short == g.hr.short && hr'.alias_ == g.hr.alias_
      && Lookup(hr'.sys, n) == Or(Lookup(g.hr.sys, n), Unresolved(g.hr, [h], isIP, n))
  {
    UnresolvedOne(g.hr, h, isIP, n);
    FoldHostResolver(g, h, isIP);
    if h.name != "" && Resolve(g.hr, h.name, isIP).None? { UnresolvedIsNew(g.hr, h.name, isIP); }
  }

  lemma {:induction false} FoldedNames(g: Graph, hs: seq<Host>, isIP: string -> bool, n: string)
    requires ResolverOk(g) && Topology.Known(g)
    ensures var hr' := FoldHosts(g, hs, isIP).hr;
      && hr'.ip == g.hr.ip && hr'.short == g.hr.short && hr'.alias_ == g.hr.alias_
      && Lookup(hr'.sys, n) == Or(Lookup(g.hr.sys, n), Unresolved(g.hr, hs, isIP, n))
    decreases |hs|
  {
    if hs != [] {
      var h, g1 := hs[0], FoldHost(g, hs[0], isIP);
      assert [h][1..] == [];
      FoldHostNames(g, h, isIP, n);
      if h.name != "" { FoldHostEffect(g, h, isIP); }
      FoldedNames(g1, hs[1..], isIP, n);
      if Lookup(g1.hr.sys, n) == Lookup(g.hr.sys, n) {
        UnresolvedIgnoresOtherNames(g.hr, g1.hr, hs[1..], isIP, n);
      }
    }
  }

  // What a name resolves to once hosts have been folded.
  lemma FoldedResolve(k: Known, before: seq<Host>, name: string)
    ensures var hr, n := FoldHosts(Base(k), before, k.isIP).hr, NormalizeHost(name);
            name != "" ==>
              Resolve(hr, name, k.isIP) ==
                if IsAddress(k.ds, name) || LastNamed(k.ds, n).Some? || OwnNode(k, before, n).None?
                then Resolve(Base(k).hr, name, k.isIP) else OwnNode(k, before, n)
  {
    var n := NormalizeHost(name);
    InventoryOk(k.ds, k.assets, k.staleBefore, k.isIP);
    FoldedNames(Base(k), before, k.isIP, n);
    OwnNodeIsUnresolved(k, before, n);
    InventoryNames(k.ds, k.assets, k.staleBefore, k.isIP, name);
    DevicesLookupSplit(k, name);
  }

  lemma DevicesLookupSplit(k: Known, name: string)
    ensures var hr := Base(k).hr;
      && (Lookup(hr.ip, name).Some? <==> IsAddress(k.ds, name))
      && Lookup(hr.sys, NormalizeHost(name)) == LastNamed(k.ds, NormalizeHost(name))
  {
    var g := DropAmbiguous(AddDevices(EMPTY, k.ds, k.staleBefore));
    DevicesKeepOk(EMPTY, k.ds, k.staleBefore);
    AliasesKeepOk(g, k.assets, k.isIP);
    DevicesLookup(EMPTY, k.ds, k.staleBefore, name, NormalizeHost(name));
  }

  lemma EndsAtResolves(k: Known, before: seq<Host>, name: string, id: string)
    ensures EndsAt(k, before, name, id) <==> Resolve(FoldHosts(Base(k), before, k.isIP).hr, name, k.isIP) == Some(id)
  {
    FoldedResolve(k, before, name);
    LeadsToResolves(k, name, id);
  }

  // ----- hosts -----

  // The node a host goes to, given the hosts before it: where its name ends, or a node of its own.
  ghost predicate HostEndsAt(k: Known, before: seq<Host>, h: Host, id: string) {
    h.name != "" && if Ends(k, before, h.name) then EndsAt(k, before, h.name, id) else id == h.name
  }

  lemma HostTargetIs(k: Known, before: seq<Host>, h: Host, id: string)
    requires h.name != ""
    ensures HostEndsAt(k, before, h, id) <==> HostTarget(FoldHosts(Base(k), before, k.isIP), h, k.isIP) == id
  {
    var r := Resolve(FoldHosts(Base(k), before, k.isIP).hr, h.name, k.isIP);
    forall x ensures EndsAt(k, before, h.name, x) <==> r == Some(x) { EndsAtResolves(k, before, h.name, x); }
    if r.Some? { assert EndsAt(k, before, h.name, r.value); }
  }

  // The hosts that go to a node, in order.
  ghost function HostsOf(k: Known, hs: seq<Host>, id: string): seq<Host> {
    if hs == [] then []
    else
      var before, h := hs[..|hs| - 1], hs[|hs| - 1];
      HostsOf(k, before, id) + (if HostEndsAt(k, before, h, id) then [h] else [])
  }

  lemma {:induction false} FoldHostsThen(g: Graph, hs: seq<Host>, h: Host, isIP: string -> bool)
    ensures FoldHosts(g, hs + [h], isIP) == FoldHost(FoldHosts(g, hs, isIP), h, isIP)
    decreases |hs|
  {
    if hs == [] {
      assert hs + [h] == [h] && [h][1..] == [];
    } else {
      assert (hs + [h])[1..] == hs[1..] + [h];
      FoldHostsThen(FoldHost(g, hs[0], isIP), hs[1..], h, isIP);
    }
  }

  lemma SumThen(hs: seq<Host>, more: seq<Host>)
    ensures SumUnresolved(hs + more) == SumUnresolved(hs) + SumUnresolved(more)
    ensures MaxRank(hs + more) == Max(MaxRank(hs), MaxRank(more))
  {
    if hs == [] {
      assert hs + more == more;
    } else {
      assert (hs + more)[1..] == hs[1..] + more;
      SumThen(hs[1..], more);
    }
  }

  function OriginAt(g: Graph, id: string): Option<Origin> { if id in g.nodes then Some(g.nodes[id].origin) else None }

  // A host that meets a node marks it as known from both sides; one that does not makes a node of telemetry.
  function OriginAfter(was: Option<Origin>, hosts: nat): Option<Origin> {
    if hosts == 0 then was else if was.None? && hosts == 1 then Some(Telemetry) else Some(Both)
  }

  lemma OneHost(g: Graph, h: Host, isIP: string -> bool, id: string)
    requires ResolverOk(g) && Topology.Known(g)
    ensures var hit := h.name != "" && HostTarget(g, h, isIP) == id;
            OriginAt(FoldHost(g, h, isIP), id) == OriginAfter(OriginAt(g, id), if hit then 1 else 0)
  {
    if h.name != "" { FoldHostEffect(g, h, isIP); }
  }

  // A node after hosts have gone to it.
  ghost predicate Gathers(base: Graph, g: Graph, on: seq<Host>, id: string) {
    && (id in g.nodes <==> id in base.nodes || on != [])
    && UnresolvedAt(g, id) == UnresolvedAt(base, id) + SumUnresolved(on)
    && RankAt(g, id) == Max(RankAt(base, id), MaxRank(on))
    && OriginAt(g, id) == OriginAfter(OriginAt(base, id), |on|)
  }

  lemma GathersOneMore(base: Graph, g: Graph, on: seq<Host>, h: Host, isIP: string -> bool, id: string)
    requires ResolverOk(g) && Topology.Known(g) && Gathers(base, g, on, id)
    ensures var hit := h.name != "" && HostTarget(g, h, isIP) == id;
            Gathers(base, FoldHost(g, h, isIP), on + (if hit then [h] else []), id)
  {
    FoldHostAt(g, h, isIP, id);
    OneHost(g, h, isIP, id);
    SumThen(on, [h]);
    assert [h][1..] == [] && on + [] == on;
  }

  lemma FoldedOk(k: Known, hs: seq<Host>)
    ensures var g := FoldHosts(Base(k), hs, k.isIP); ResolverOk(g) && Topology.Known(g)
  {
    InventoryOk(k.ds, k.assets, k.staleBefore, k.isIP);
    FoldingAggregates(Base(k), hs, k.isIP, "");
  }

  lemma {:induction false} FoldedAt(k: Known, hs: seq<Host>, id: string)
    ensures Gathers(Base(k), FoldHosts(Base(k), hs, k.isIP), HostsOf(k, hs, id), id)
  {
    if hs == [] {
      GathersNothing(Base(k), id);
    } else {
      var before, h := hs[..|hs| - 1], hs[|hs| - 1];
      assert hs == before + [h];
      FoldedAt(k, before, id);
      FoldedOneMore(k, before, h, id);
    }
  }

  lemma GathersNothing(base: Graph, id: string)
    ensures Gathers(base, base, [], id)
  {
  }

  lemma FoldedOneMore(k: Known, before: seq<Host>, h: Host, id: string)
    requires Gathers(Base(k), FoldHosts(Base(k), before, k.isIP), HostsOf(k, before, id), id)
    ensures Gathers(Base(k), FoldHosts(Base(k), before + [h], k.isIP),
                    HostsOf(k, before, id) + (if HostEndsAt(k, before, h, id) then [h] else []), id)
  {
    FoldedOk(k, before);
    FoldHostsThen(Base(k), before, h, k.isIP);
    GathersOneMore(Base(k), FoldHosts(Base(k), before, k.isIP), HostsOf(k, before, id), h, k.isIP, id);
    if h.name != "" { HostTargetIs(k, before, h, id); }
  }

  // ----- nodes of devices -----

  // The last device with an address.
  function DeviceAt(ds: seq<Device>, id: string): Option<Device> {
    if ds == [] then None
    else if DeviceAt(ds[1..], id).Some? then DeviceAt(ds[1..], id)
    else if ds[0].ip == id then Some(ds[0]) else None
  }

  // What a device's node shows before any host is folded.
  predicate Shows(n: Node, d: Device, staleBefore: Option<int>) {
    && n.id == d.ip && n.title == (if d.sysName != "" then d.sysName else d.ip)
    && n.kind == d.kind && n.vendor == d.vendor && n.lastSeen == d.lastSeen
    && (n.stale <==> d.lastSeen.Some? && staleBefore.Some? && d.lastSeen.value < staleBefore.value)
    && n.origin == Discovery && n.unresolved == 0 && SeverityRank(n.severity) == 0
  }

  lemma {:induction false} DevicesShow(g: Graph, ds: seq<Device>, staleBefore: Option<int>, id: string)
    ensures var nodes, d := AddDevices(g, ds, staleBefore).nodes, DeviceAt(ds, id);
      && (id in nodes <==> d.Some? || id in g.nodes)
      && (d.Some? ==> Shows(nodes[id], d.value, staleBefore))
      && (d.None? && id in g.nodes ==> nodes[id] == g.nodes[id])
    decreases |ds|
  {
    if ds != [] {
      DeviceShows(g, ds[0], staleBefore, id);
      DevicesShow(AddDevice(g, ds[0], staleBefore), ds[1..], staleBefore, id);
    }
  }

  lemma DeviceShows(g: Graph, d: Device, staleBefore: Option<int>, id: string)
    ensures var nodes := AddDevice(g, d, staleBefore).nodes;
      && (id in nodes <==> d.ip == id || id in g.nodes)
      && (d.ip == id ==> Shows(nodes[id], d, staleBefore))
      && (d.ip != id && id in g.nodes ==> nodes[id] == g.nodes[id])
  {
  }

  lemma BaseShows(k: Known, id: string)
    ensures id in Base(k).nodes <==> DeviceAt(k.ds, id).Some?
    ensures id in Base(k).nodes ==> Shows(Base(k).nodes[id], DeviceAt(k.ds, id).value, k.staleBefore)
  {
    var g := DropAmbiguous(AddDevices(EMPTY, k.ds, k.staleBefore));
    DevicesKeepOk(EMPTY, k.ds, k.staleBefore);
    AliasesKeepOk(g, k.assets, k.isIP);
    DevicesShow(EMPTY, k.ds, k.staleBefore, id);
  }

  // A node tells the alerts and the worst rank of its hosts, and all that discovery said of its device.
  predicate Tells(n: Node, id: string, d: Option<Device>, on: seq<Host>, staleBefore: Option<int>) {
    && n.id == id
    && n.unresolved == SumUnresolved(on) && SeverityRank(n.severity) == MaxRank(on)
    && Some(n.origin) == OriginAfter(if d.Some? then Some(Discovery) else None, |on|)
    && (d.Some? ==> Shows(n.(origin := Discovery, unresolved := 0, severity := NO_SEVERITY), d.value, staleBefore))
    && (d.None? ==> n.title == id && n.kind == "host" && Featureless(n))
  }

  // Nothing but alerts is known about it.
  predicate Featureless(n: Node) { n.vendor == "" && !n.stale && n.lastSeen.None? }

  /** A node of the merged graph that stands for a device or a host, said of the inputs: it has the alerts and the
      worst severity rank of exactly the hosts whose names end at it, a device keeps everything discovery said
      of it, and the origin tells whether devices, hosts or both speak of it. */
  lemma MergedNode(k: Known, hs: seq<Host>, ls: seq<LinkIn>, id: string)
    requires DeviceAt(k.ds, id).Some? || HostsOf(k, hs, id) != []
    ensures var nodes := Merged(k.ds, ls, hs, k.assets, k.staleBefore, k.isIP).nodes;
            id in nodes && Tells(nodes[id], id, DeviceAt(k.ds, id), HostsOf(k, hs, id), k.staleBefore)
  {
    BaseShows(k, id);
    FoldedAt(k, hs, id);
    FoldedOk(k, hs);
    FoldedKeepsIdentity(k, hs, id);
    HostNodesAre(Base(k), hs, k.isIP, id);
    GatheredTells(Base(k), FoldHosts(Base(k), hs, k.isIP), DeviceAt(k.ds, id), HostsOf(k, hs, id), id, k.staleBefore);
    LinkedKeepsNode(k, hs, ls, id);
  }

  lemma GatheredTells(base: Graph, g: Graph, d: Option<Device>, on: seq<Host>, id: string, staleBefore: Option<int>)
    requires ResolverOk(g) && Gathers(base, g, on, id) && (d.Some? || on != [])
    requires id in base.nodes <==> d.Some?
    requires id in base.nodes ==> Shows(base.nodes[id], d.value, staleBefore)
    requires id in base.nodes && id in g.nodes ==> SameIdentity(base.nodes[id], g.nodes[id])
    requires id in g.nodes && id !in base.nodes ==> IsHostNode(g.nodes[id], id)
    ensures id in g.nodes && Tells(g.nodes[id], id, d, on, staleBefore)
  {
  }

  predicate IsHostNode(n: Node, id: string) { n.title == id && n.kind == "host" && Featureless(n) }

  lemma OneHostNode(g: Graph, h: Host, isIP: string -> bool, id: string)
    ensures var g' := FoldHost(g, h, isIP);
      && (id in g.nodes ==> id in g'.nodes)
      && (id in g'.nodes && id !in g.nodes ==> IsHostNode(g'.nodes[id], id))
      && (id in g.nodes && IsHostNode(g.nodes[id], id) ==> IsHostNode(g'.nodes[id], id))
  {
  }

  lemma {:induction false} HostNodesStay(g: Graph, hs: seq<Host>, isIP: string -> bool, id: string)
    requires id in g.nodes && IsHostNode(g.nodes[id], id)
    ensures id in FoldHosts(g, hs, isIP).nodes && IsHostNode(FoldHosts(g, hs, isIP).nodes[id], id)
    decreases |hs|
  {
    if hs != [] {
      OneHostNode(g, hs[0], isIP, id);
      HostNodesStay(FoldHost(g, hs[0], isIP), hs[1..], isIP, id);
    }
  }

  // A node that folding made is an alert host.
  lemma {:induction false} HostNodesAre(g: Graph, hs: seq<Host>, isIP: string -> bool, id: string)
    ensures var g' := FoldHosts(g, hs, isIP);
            id in g'.nodes && id !in g.nodes ==> IsHostNode(g'.nodes[id], id)
    decreases |hs|
  {
    if hs != [] {
      var g1 := FoldHost(g, hs[0], isIP);
      OneHostNode(g, hs[0], isIP, id);
      if id in g1.nodes && id !in g.nodes {
        HostNodesStay(g1, hs[1..], isIP, id);
      } else {
        HostNodesAre(g1, hs[1..], isIP, id);
      }
    }
  }

  lemma LinkedKeepsNode(k: Known, hs: seq<Host>, ls: seq<LinkIn>, id: string)
    requires id in FoldHosts(Base(k), hs, k.isIP).nodes
    ensures var nodes := Merged(k.ds, ls, hs, k.assets, k.staleBefore, k.isIP).nodes;
            id in nodes && nodes[id] == FoldHosts(Base(k), hs, k.isIP).nodes[id]
  {
    FoldedHasNoEdges(k.ds, hs, k.assets, k.staleBefore, k.isIP);
    LinksAreWellFormed(FoldHosts(Base(k), hs, k.isIP), ls, k.isIP);
  }

  lemma FoldedKeepsIdentity(k: Known, hs: seq<Host>, id: string)
    ensures var was, now := Base(k).nodes, FoldHosts(Base(k), hs, k.isIP).nodes;
            id in was ==> id in now && SameIdentity(was[id], now[id])
  {
    InventoryOk(k.ds, k.assets, k.staleBefore, k.isIP);
    FoldingAggregates(Base(k), hs, k.isIP, id);
  }

  // ----- links -----

  // The name is the local address of one of the first n links.
  ghost predicate SourceNamed(ls: seq<LinkIn>, n: nat, name: string) {
    exists j :: 0 <= j < n && j < |ls| && ls[j].localIP == name
  }

  /** The far end of a link: the link source with the remote name as address, else where the name ends, else a node
      for an unknown neighbour. */
  ghost predicate FarEnd(k: Known, hs: seq<Host>, ls: seq<LinkIn>, i: nat, id: string)
    requires i < |ls|
  {
    var l := ls[i];
    if l.remoteSysName != "" && SourceNamed(ls, i + 1, l.remoteSysName) then id == l.remoteSysName
    else if Ends(k, hs, l.remoteSysName) then EndsAt(k, hs, l.remoteSysName, id)
    else id == "nbr:" + (if l.remoteChassis != "" then l.remoteChassis else l.remoteSysName)
  }

  // No local address reads like the node of an unknown neighbour.
  ghost predicate SourcesOk(ls: seq<LinkIn>) { forall j | 0 <= j < |ls| :: !("nbr:" <= ls[j].localIP) }

  // The address table leads from addresses of nodes to themselves.
  ghost predicate AddressesOk(g: Graph) { forall x | x in g.hr.ip :: g.hr.ip[x] == x && x in g.nodes }

  lemma LinkKeepsSource(g: Graph, l: LinkIn, isIP: string -> bool)
    ensures AddLink(g, l, isIP).hr == AddSource(g, l).hr
  {
  }

  // The names of a graph, and those of the other resolver: an address that was no node before leads to itself.
  ghost predicate AddsSource(g: Graph, hr: Resolver, x: string, source: bool) {
    && hr.sys == g.hr.sys && hr.short == g.hr.short && hr.alias_ == g.hr.alias_
    && Lookup(hr.ip, x) == (if x !in g.nodes && source then Some(x) else Lookup(g.hr.ip, x))
  }

  lemma SourceNames(g: Graph, l: LinkIn, x: string)
    requires AddressesOk(g)
    ensures var g1 := AddSource(g, l);
      && AddressesOk(g1) && AddsSource(g, g1.hr, x, x == l.localIP)
      && (x in g1.nodes <==> x in g.nodes || x == l.localIP)
  {
  }

  lemma LinkNodesAre(g: Graph, l: LinkIn, isIP: string -> bool, x: string)
    ensures var g', g1 := AddLink(g, l, isIP), AddSource(g, l);
      && g'.hr == g1.hr && (x in g1.nodes ==> x in g'.nodes) && (x in g'.nodes && x !in g1.nodes ==> "nbr:" <= x)
  {
  }

  lemma LinkNames(g: Graph, l: LinkIn, isIP: string -> bool, x: string)
    requires AddressesOk(g) && !("nbr:" <= l.localIP)
    ensures var g' := AddLink(g, l, isIP);
      && AddressesOk(g') && AddsSource(g, g'.hr, x, x == l.localIP)
      && (!("nbr:" <= x) ==> (x in g'.nodes <==> x in g.nodes || x == l.localIP))
  {
    SourceNames(g, l, x);
    forall y ensures y in AddSource(g, l).nodes ==> y in AddLink(g, l, isIP).nodes { LinkNodesAre(g, l, isIP, y); }
    LinkNodesAre(g, l, isIP, x);
  }

  // What an address leads to after links.
  lemma {:induction false} LinkedNames(g: Graph, ls: seq<LinkIn>, isIP: string -> bool, x: string)
    requires AddressesOk(g) && SourcesOk(ls)
    ensures AddsSource(g, AddLinks(g, ls, isIP).hr, x, SourceNamed(ls, |ls|, x))
    decreases |ls|
  {
    if ls != [] {
      var rest := ls[1..];
      LinkNames(g, ls[0], isIP, x);
      assert forall j | 0 <= j < |rest| :: rest[j] == ls[j + 1];
      LinkedNames(AddLink(g, ls[0], isIP), rest, isIP, x);
      SourceNamedSplit(ls, x);
    }
  }

  lemma SourceNamedSplit(ls: seq<LinkIn>, x: string)
    requires ls != []
    ensures SourceNamed(ls, |ls|, x) <==> ls[0].localIP == x || SourceNamed(ls[1..], |ls| - 1, x)
  {
    assert forall j | 0 < j < |ls| :: ls[1..][j - 1] == ls[j];
    if SourceNamed(ls[1..], |ls| - 1, x) {
      var j :| 0 <= j < |ls| - 1 && ls[1..][j].localIP == x;
      assert ls[j + 1].localIP == x;
    }
  }

  lemma {:induction false} AddLinksThen(g: Graph, ls: seq<LinkIn>, l: LinkIn, isIP: string -> bool)
    ensures AddLinks(g, ls + [l], isIP) == AddLink(AddLinks(g, ls, isIP), l, isIP)
    decreases |ls|
  {
    if ls == [] {
      assert ls + [l] == [l] && [l][1..] == [];
    } else {
      assert (ls + [l])[1..] == ls[1..] + [l];
      AddLinksThen(AddLink(g, ls[0], isIP), ls[1..], l, isIP);
    }
  }

  // A node that is no device goes by its own name.
  ghost predicate HostsAreNamed(g: Graph) {
    forall id | id in g.nodes && id !in g.hr.ip :: Lookup(g.hr.sys, NormalizeHost(id)) == Some(id)
  }

  lemma FoldHostNamesHosts(g: Graph, h: Host, isIP: string -> bool)
    requires HostsAreNamed(g) && AddressesOk(g)
    ensures HostsAreNamed(FoldHost(g, h, isIP)) && AddressesOk(FoldHost(g, h, isIP))
  {
    if h.name != "" && Resolve(g.hr, h.name, isIP).None? { UnresolvedIsNew(g.hr, h.name, isIP); }
  }

  lemma {:induction false} FoldedHostsAreNamed(g: Graph, hs: seq<Host>, isIP: string -> bool)
    requires HostsAreNamed(g) && AddressesOk(g)
    ensures HostsAreNamed(FoldHosts(g, hs, isIP)) && AddressesOk(FoldHosts(g, hs, isIP))
    decreases |hs|
  {
    if hs != [] {
      FoldHostNamesHosts(g, hs[0], isIP);
      FoldedHostsAreNamed(FoldHost(g, hs[0], isIP), hs[1..], isIP);
    }
  }

  lemma BaseIsNamed(k: Known)
    ensures HostsAreNamed(Base(k)) && AddressesOk(Base(k))
  {
    forall x ensures x in Base(k).hr.ip ==> Base(k).hr.ip[x] == x && x in Base(k).nodes { BaseAddress(k, x); }
    forall x ensures x in Base(k).nodes ==> x in Base(k).hr.ip { BaseAddress(k, x); }
  }

  lemma BaseAddress(k: Known, x: string)
    ensures Lookup(Base(k).hr.ip, x) == if x in Base(k).nodes then Some(x) else None
  {
    BaseShows(k, x);
    AddressHasDevice(k.ds, x);
    var g := DropAmbiguous(AddDevices(EMPTY, k.ds, k.staleBefore));
    DevicesKeepOk(EMPTY, k.ds, k.staleBefore);
    AliasesKeepOk(g, k.assets, k.isIP);
    DevicesLookup(EMPTY, k.ds, k.staleBefore, x, "");
  }

  lemma {:induction false} AddressHasDevice(ds: seq<Device>, x: string)
    ensures DeviceAt(ds, x).Some? <==> IsAddress(ds, x)
  {
    if ds != [] {
      AddressHasDevice(ds[1..], x);
      assert forall d :: d in ds <==> d == ds[0] || d in ds[1..];
    }
  }

  lemma ResolveWithSources(g: Graph, hr: Resolver, name: string, isIP: string -> bool, source: bool)
    requires name != "" && HostsAreNamed(g) && AddressesOk(g) && AddsSource(g, hr, name, source)
    ensures Resolve(hr, name, isIP) == if source then Some(name) else Resolve(g.hr, name, isIP)
  {
  }

  lemma PrefixNames(g: Graph, ls: seq<LinkIn>, i: nat, isIP: string -> bool)
    requires i < |ls|
    ensures AddSource(AddLinks(g, ls[..i], isIP), ls[i]).hr == AddLinks(g, ls[..i + 1], isIP).hr
  {
    assert ls[..i + 1] == ls[..i] + [ls[i]];
    AddLinksThen(g, ls[..i], ls[i], isIP);
    LinkKeepsSource(AddLinks(g, ls[..i], isIP), ls[i], isIP);
  }

  lemma PrefixSources(ls: seq<LinkIn>, n: nat, x: string)
    requires n <= |ls|
    ensures SourceNamed(ls[..n], n, x) <==> SourceNamed(ls, n, x)
    ensures SourcesOk(ls) ==> SourcesOk(ls[..n])
  {
    assert forall j | 0 <= j < n :: ls[..n][j] == ls[j];
  }

  // The names known when a link's turn comes.
  lemma NamesAtItsTurn(g: Graph, ls: seq<LinkIn>, i: nat, isIP: string -> bool, x: string)
    requires AddressesOk(g) && SourcesOk(ls) && i < |ls|
    ensures AddsSource(g, AddSource(AddLinks(g, ls[..i], isIP), ls[i]).hr, x, SourceNamed(ls, i + 1, x))
  {
    PrefixNames(g, ls, i, isIP);
    PrefixSources(ls, i + 1, x);
    LinkedNames(g, ls[..i + 1], isIP, x);
  }

  // What a link's remote name resolves to then.
  lemma ResolvedAtItsTurn(k: Known, hs: seq<Host>, ls: seq<LinkIn>, i: nat)
    requires SourcesOk(ls) && i < |ls| && ls[i].remoteSysName != ""
    ensures var folded, name := FoldHosts(Base(k), hs, k.isIP), ls[i].remoteSysName;
            Resolve(AddSource(AddLinks(folded, ls[..i], k.isIP), ls[i]).hr, name, k.isIP)
            == if SourceNamed(ls, i + 1, name) then Some(name) else Resolve(folded.hr, name, k.isIP)
  {
    var folded, name := FoldHosts(Base(k), hs, k.isIP), ls[i].remoteSysName;
    BaseIsNamed(k);
    FoldedHostsAreNamed(Base(k), hs, k.isIP);
    NamesAtItsTurn(folded, ls, i, k.isIP, name);
    ResolveWithSources(folded, AddSource(AddLinks(folded, ls[..i], k.isIP), ls[i]).hr, name, k.isIP, SourceNamed(ls, i + 1, name));
  }

  lemma FarEndIsTarget(k: Known, hs: seq<Host>, ls: seq<LinkIn>, i: nat, id: string)
    requires SourcesOk(ls) && i < |ls|
    ensures var g := AddLinks(FoldHosts(Base(k), hs, k.isIP), ls[..i], k.isIP);
            FarEnd(k, hs, ls, i, id) <==> LinkTarget(g, ls[i], k.isIP) == id
  {
    var folded, l := FoldHosts(Base(k), hs, k.isIP), ls[i];
    var r := Resolve(folded.hr, l.remoteSysName, k.isIP);
    if l.remoteSysName != "" { ResolvedAtItsTurn(k, hs, ls, i); }
    forall x ensures EndsAt(k, hs, l.remoteSysName, x) <==> r == Some(x) { EndsAtResolves(k, hs, l.remoteSysName, x); }
    if r.Some? { assert EndsAt(k, hs, l.remoteSysName, r.value); }
  }

  /** Every link between two different ends is an edge from its local address to its far end, and keeps its
      protocol: to the link source with its remote name as address, to the device that name leads to, to the alert
      host of that name, or to a neighbour named after the chassis id, or the name if there is none. */
  lemma LinksReachTheirFarEnd(k: Known, hs: seq<Host>, ls: seq<LinkIn>, i: nat, id: string)
    requires LinksBarFree(ls) && SourcesOk(ls) && i < |ls| && FarEnd(k, hs, ls, i, id) && id != ls[i].localIP
    ensures HasEdge(Merged(k.ds, ls, hs, k.assets, k.staleBefore, k.isIP), ls[i].localIP, id, ls[i].protocol)
  {
    FarEndIsTarget(k, hs, ls, i, id);
    FoldedHasNoEdges(k.ds, hs, k.assets, k.staleBefore, k.isIP);
    EveryLinkHasItsEdge(FoldHosts(Base(k), hs, k.isIP), ls, k.isIP, i);
  }

  // What a link contributes: a node for its local address, or one for the unknown neighbour at its other end.
  predicate MadeBy(n: Node, id: string, l: LinkIn) {
    && n.id == id && n.unresolved == 0 && n.severity == NO_SEVERITY && Featureless(n)
    && ((id == l.localIP && n.title == id && n.kind == "network_device" && n.origin == Discovery)
        || (id == "nbr:" + (if l.remoteChassis != "" then l.remoteChassis else l.remoteSysName)
            && n.title == (if l.remoteSysName != "" then l.remoteSysName else l.remoteChassis)
            && n.kind == "neighbor" && n.origin == Neighbor))
  }

  lemma LinkMakes(g: Graph, l: LinkIn, isIP: string -> bool, id: string)
    ensures var nodes := AddLink(g, l, isIP).nodes;
      && l.localIP in nodes
      && (id in g.nodes ==> id in nodes && nodes[id] == g.nodes[id])
      && (id in nodes && id !in g.nodes ==> MadeBy(nodes[id], id, l))
  {
    SourceMakes(g, l, id);
    NeighborMakes(g, l, isIP);
  }

  lemma SourceMakes(g: Graph, l: LinkIn, id: string)
    ensures var nodes := AddSource(g, l).nodes;
      && l.localIP in nodes
      && (id in g.nodes ==> id in nodes && nodes[id] == g.nodes[id])
      && (id in nodes && id !in g.nodes ==> MadeBy(nodes[id], id, l))
  {
  }

  lemma NeighborMakes(g: Graph, l: LinkIn, isIP: string -> bool)
    ensures var was, now := AddSource(g, l).nodes, AddLink(g, l, isIP).nodes;
            var id := "nbr:" + (if l.remoteChassis != "" then l.remoteChassis else l.remoteSysName);
            now == was || (id !in was && id in now && now == was[id := now[id]] && MadeBy(now[id], id, l))
  {
    var was, now := AddSource(g, l).nodes, AddLink(g, l, isIP).nodes;
    var id := "nbr:" + (if l.remoteChassis != "" then l.remoteChassis else l.remoteSysName);
    if now != was {
      assert now == was[id := Bare(id, if l.remoteSysName == "" then l.remoteChassis else l.remoteSysName, "neighbor", Neighbor)];
    }
  }

  // A node links added was made by one of them.
  lemma {:induction false} LinksMake(g: Graph, ls: seq<LinkIn>, isIP: string -> bool, id: string)
    ensures var nodes := AddLinks(g, ls, isIP).nodes;
      && (id in g.nodes ==> id in nodes && nodes[id] == g.nodes[id])
      && (id in nodes && id !in g.nodes ==> exists l :: l in ls && MadeBy(nodes[id], id, l))
      && ((exists l :: l in ls && l.localIP == id) ==> id in nodes)
    decreases |ls|
  {
    if ls != [] {
      LinkMakes(g, ls[0], isIP, id);
      LinksMake(AddLink(g, ls[0], isIP), ls[1..], isIP, id);
      assert forall l :: l in ls <==> l == ls[0] || l in ls[1..];
    }
  }

  /** Every other node of the merged graph was made by a link, as its local address or as the unknown neighbour at its
      far end; and every local address of a link has a node. */
  lemma OtherNodesComeFromLinks(k: Known, hs: seq<Host>, ls: seq<LinkIn>, id: string)
    ensures var nodes := Merged(k.ds, ls, hs, k.assets, k.staleBefore, k.isIP).nodes;
      && (id in nodes ==>
            DeviceAt(k.ds, id).Some? || HostsOf(k, hs, id) != [] || exists l :: l in ls && MadeBy(nodes[id], id, l))
      && ((exists l :: l in ls && l.localIP == id) ==> id in nodes)
  {
    BaseShows(k, id);
    FoldedAt(k, hs, id);
    LinksMake(FoldHosts(Base(k), hs, k.isIP), ls, k.isIP, id);
  }

  // Of the names that normalize alike, an IP literal may lead nowhere where the others do.
  ghost predicate NoLiteral(k: Known, hs: seq<Host>, name: string) {
    forall h | h in hs && NormalizeHost(h.name) == NormalizeHost(name) && k.isIP(h.name) :: k.isIP(name)
  }

  lemma AlikeLead(k: Known, name: string, d: string, other: string)
    requires LeadsTo(k, name, d) && !IsAddress(k.ds, name)
    requires other != "" && NormalizeHost(other) == NormalizeHost(name) && (k.isIP(other) ==> k.isIP(name))
    ensures Leads(k, other)
  {
    assert LeadsTo(k, other, if IsAddress(k.ds, other) then other else d);
  }

  lemma {:induction false} AlikeOwnNoNode(k: Known, hs: seq<Host>, name: string, d: string)
    requires LeadsTo(k, name, d) && !IsAddress(k.ds, name) && NoLiteral(k, hs, name)
    ensures OwnNode(k, hs, NormalizeHost(name)).None?
  {
    if hs != [] {
      var h := hs[0];
      assert h in hs && forall x | x in hs[1..] :: x in hs;
      if h.name != "" && NormalizeHost(h.name) == NormalizeHost(name) { AlikeLead(k, name, d, h.name); }
      AlikeOwnNoNode(k, hs[1..], name, d);
    }
  }

  // The remote name is not the bare address of an undiscovered device some link up to this one starts from.
  ghost predicate NoSource(k: Known, ls: seq<LinkIn>, i: nat) {
    i < |ls| && (IsAddress(k.ds, ls[i].remoteSysName) || !SourceNamed(ls, i + 1, ls[i].remoteSysName))
  }

  /** In particular: a link whose remote name leads to a device with another address joins the two. */
  lemma KnownNeighborsAreJoined(k: Known, hs: seq<Host>, ls: seq<LinkIn>, i: nat, d: string)
    requires LinksBarFree(ls) && SourcesOk(ls) && NoSource(k, ls, i)
    requires LeadsTo(k, ls[i].remoteSysName, d) && d != ls[i].localIP
    requires NoLiteral(k, hs, ls[i].remoteSysName)
    ensures HasEdge(Merged(k.ds, ls, hs, k.assets, k.staleBefore, k.isIP), ls[i].localIP, d, ls[i].protocol)
  {
    if !IsAddress(k.ds, ls[i].remoteSysName) { AlikeOwnNoNode(k, hs, ls[i].remoteSysName, d); }
    assert EndsAt(k, hs, ls[i].remoteSysName, d);
    LinksReachTheirFarEnd(k, hs, ls, i, d);
  }

  /** And a link whose remote name is empty, or leads to no device and is no host's, ends at a neighbour named after
      the chassis id, or the name if there is none. */
  lemma UnknownNeighborsAreJoined(k: Known, hs: seq<Host>, ls: seq<LinkIn>, i: nat)
    requires LinksBarFree(ls) && SourcesOk(ls) && i < |ls|
    requires var name := ls[i].remoteSysName;
             name == "" || (!SourceNamed(ls, i + 1, name) && !Leads(k, name) && forall h | h in hs && h.name != "" :: NormalizeHost(h.name) != NormalizeHost(name))
    requires ls[i].localIP != "nbr:" + (if ls[i].remoteChassis != "" then ls[i].remoteChassis else ls[i].remoteSysName)
    ensures var id := "nbr:" + (if ls[i].remoteChassis != "" then ls[i].remoteChassis else ls[i].remoteSysName);
            HasEdge(Merged(k.ds, ls, hs, k.assets, k.staleBefore, k.isIP), ls[i].localIP, id, ls[i].protocol)
  {
    var name, id := ls[i].remoteSysName, "nbr:" + (if ls[i].remoteChassis != "" then ls[i].remoteChassis else ls[i].remoteSysName);
    if name != "" { NoOwnNode(k, hs, NormalizeHost(name)); }
    assert !Ends(k, hs, name);
    LinksReachTheirFarEnd(k, hs, ls, i, id);
  }

  lemma {:induction false} NoOwnNode(k: Known, hs: seq<Host>, n: string)
    requires forall h | h in hs && h.name != "" :: NormalizeHost(h.name) != n
    ensures OwnNode(k, hs, n).None?
  {
    if hs != [] {
      assert forall h | h in hs[1..] :: h in hs;
      NoOwnNode(k, hs[1..], n);
    }
  }
}
