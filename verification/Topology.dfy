/** The topology graph: discovered devices, alert hosts, CMDB aliases and physical links folded into one
    graph of nodes and edges. */
module Topology {
  import opened Wrappers
  import Text
  import Ordering
  import opened Severities

  datatype Device = Device(ip: string, sysName: string, vendor: string, kind: string, lastSeen: Option<int>)

  datatype LinkIn = LinkIn(localIP: string, localPort: string, remoteSysName: string, remoteChassis: string,
                           remotePort: string, protocol: string)

  datatype Host = Host(name: string, unresolved: int, severity: Severity)

  datatype AssetAlias = AssetAlias(identifier: string, aliases: seq<string>)

  datatype Origin = Discovery | Telemetry | Both | Neighbor

  datatype Node = Node(id: string, title: string, kind: string, vendor: string, origin: Origin,
                       severity: Severity, unresolved: int, stale: bool, lastSeen: Option<int>)

  datatype Edge = Edge(source: string, target: string, protocol: string, localPort: string, remotePort: string)

  // The lookup tables from names to node ids; shortName holds unambiguous short names only once the
  // ambiguous ones are dropped.
  datatype Resolver = Resolver(ip: map<string, string>, sys: map<string, string>,
                               short: map<string, string>, alias_: map<string, string>)

  datatype Graph = Graph(nodes: map<string, Node>, hr: Resolver, shortCount: map<string, nat>,
                         edgeSeen: set<string>, edges: seq<Edge>)

  const NO_SEVERITY: Severity := Other("")

  // ----- names -----

  function NormalizeHost(s: string): string {
    Text.TrimSuffix(Text.ToLower(Text.TrimSpace(s)), ".")
  }

  function ShortName(s: string): string {
    if s == "" || s[0] == '.' then "" else [s[0]] + ShortName(s[1..])
  }

  function Lookup(m: map<string, string>, k: string): Option<string> {
    if k in m then Some(m[k]) else None
  }

  function Or(a: Option<string>, b: Option<string>): Option<string> {
    if a.Some? then a else b
  }

  // The first two lookups: by exact IP and by exact name.
  function NameMatch(hr: Resolver, name: string): Option<string> {
    Or(Lookup(hr.ip, name), Lookup(hr.sys, NormalizeHost(name)))
  }

  // The alias table is asked under the whole name first, and then like the short names under its first label.
  function Resolve(hr: Resolver, name: string, isIP: string -> bool): Option<string> {
    if name == "" then None
    else
      var n := NormalizeHost(name);
      var known := Or(NameMatch(hr, name), Lookup(hr.alias_, n));
      if known.Some? then known
      else if isIP(name) then None
      else Or(Lookup(hr.alias_, ShortName(n)), Lookup(hr.short, ShortName(n)))
  }

  // ----- the phases, one input at a time -----

  function Stale(seen: Option<int>, staleBefore: Option<int>): bool {
    seen.Some? && staleBefore.Some? && seen.value < staleBefore.value
  }

  function DeviceShort(d: Device): string { ShortName(NormalizeHost(d.sysName)) }

  function AddDevice(g: Graph, d: Device, staleBefore: Option<int>): Graph {
    var title := if d.sysName == "" then d.ip else d.sysName;
    var node := Node(d.ip, title, d.kind, d.vendor, Discovery, NO_SEVERITY, 0, Stale(d.lastSeen, staleBefore), d.lastSeen);
    var g1 := g.(nodes := g.nodes[d.ip := node], hr := g.hr.(ip := g.hr.ip[d.ip := d.ip]));
    if d.sysName == "" then g1
    else
      var sn := DeviceShort(d);
      var seen := if sn in g.shortCount then g.shortCount[sn] else 0;
      g1.(shortCount := g.shortCount[sn := seen + 1],
          hr := g1.hr.(sys := g.hr.sys[NormalizeHost(d.sysName) := d.ip], short := g.hr.short[sn := d.ip]))
  }

  function AddDevices(g: Graph, ds: seq<Device>, staleBefore: Option<int>): Graph
    decreases |ds|
  {
    if ds == [] then g else AddDevices(AddDevice(g, ds[0], staleBefore), ds[1..], staleBefore)
  }

  function DropAmbiguous(g: Graph): Graph {
    g.(hr := g.hr.(short := map sn | sn in g.hr.short && !(sn in g.shortCount && g.shortCount[sn] > 1) :: g.hr.short[sn]))
  }

  function AliasTarget(hr: Resolver, identifier: string): Option<string> {
    Or(Lookup(hr.ip, identifier), Lookup(hr.sys, NormalizeHost(identifier)))
  }

  function AddAlias(g: Graph, al: string, target: string, isIP: string -> bool): Graph {
    var na := NormalizeHost(al);
    if na == "" then g
    else
      var full := g.hr.alias_[na := target];
      g.(hr := g.hr.(alias_ := if isIP(al) then full else full[ShortName(na) := target]))
  }

  function AddAliasNames(g: Graph, names: seq<string>, target: string, isIP: string -> bool): Graph
    decreases |names|
  {
    if names == [] then g else AddAliasNames(AddAlias(g, names[0], target, isIP), names[1..], target, isIP)
  }

  function AddAliases(g: Graph, assets: seq<AssetAlias>, isIP: string -> bool): Graph
    decreases |assets|
  {
    if assets == [] then g
    else
      var target := AliasTarget(g.hr, assets[0].identifier);
      AddAliases(if target.None? then g else AddAliasNames(g, assets[0].aliases, target.value, isIP), assets[1..], isIP)
  }

  // The node id a host is folded onto: a resolved node, or a new one named after the host.
  function HostTarget(g: Graph, h: Host, isIP: string -> bool): string {
    var id := Resolve(g.hr, h.name, isIP);
    if id.Some? then id.value else h.name
  }

  function Absorb(n: Node, h: Host): Node {
    n.(origin := Both, unresolved := n.unresolved + h.unresolved,
       severity := if SeverityRank(h.severity) > SeverityRank(n.severity) then h.severity else n.severity)
  }

  function FoldHost(g: Graph, h: Host, isIP: string -> bool): Graph {
    if h.name == "" then g
    else
      var id := Resolve(g.hr, h.name, isIP);
      if id.Some? then
        if id.value in g.nodes then g.(nodes := g.nodes[id.value := Absorb(g.nodes[id.value], h)]) else g
      else
        g.(nodes := g.nodes[h.name := Node(h.name, h.name, "host", "", Telemetry, h.severity, h.unresolved, false, None)],
           hr := g.hr.(sys := g.hr.sys[NormalizeHost(h.name) := h.name]))
  }

  function FoldHosts(g: Graph, hs: seq<Host>, isIP: string -> bool): Graph
    decreases |hs|
  {
    if hs == [] then g else FoldHosts(FoldHost(g, hs[0], isIP), hs[1..], isIP)
  }

  function Bare(id: string, title: string, kind: string, origin: Origin): Node {
    Node(id, title, kind, "", origin, NO_SEVERITY, 0, false, None)
  }

  function AddSource(g: Graph, l: LinkIn): Graph {
    if l.localIP in g.nodes then g
    else g.(nodes := g.nodes[l.localIP := Bare(l.localIP, l.localIP, "network_device", Discovery)],
            hr := g.hr.(ip := g.hr.ip[l.localIP := l.localIP]))
  }

  function RemoteId(hr: Resolver, l: LinkIn, isIP: string -> bool): string {
    var id := Resolve(hr, l.remoteSysName, isIP);
    if id.Some? then id.value
    else "nbr:" + (if l.remoteChassis == "" then l.remoteSysName else l.remoteChassis)
  }

  function EdgeKey(source: string, target: string, protocol: string): string {
    source + "|" + target + "|" + protocol
  }

  function AddLink(g: Graph, l: LinkIn, isIP: string -> bool): Graph {
    var g1 := AddSource(g, l);
    var src, tgt := l.localIP, RemoteId(g1.hr, l, isIP);
    var g2 :=
      if Resolve(g1.hr, l.remoteSysName, isIP).Some? || tgt in g1.nodes then g1
      else g1.(nodes := g1.nodes[tgt := Bare(tgt, if l.remoteSysName == "" then l.remoteChassis else l.remoteSysName,
                                             "neighbor", Neighbor)]);
    var key := EdgeKey(src, tgt, l.protocol);
    if key in g2.edgeSeen || src == tgt then g2
    else g2.(edgeSeen := g2.edgeSeen + {key},
             edges := g2.edges + [Edge(src, tgt, l.protocol, l.localPort, l.remotePort)])
  }

  function AddLinks(g: Graph, ls: seq<LinkIn>, isIP: string -> bool): Graph
    decreases |ls|
  {
    if ls == [] then g else AddLinks(AddLink(g, ls[0], isIP), ls[1..], isIP)
  }

  const EMPTY: Graph := Graph(map[], Resolver(map[], map[], map[], map[]), map[], {}, [])

  // The graph the hosts are folded into.
  function Inventory(ds: seq<Device>, assets: seq<AssetAlias>, staleBefore: Option<int>, isIP: string -> bool): Graph {
    AddAliases(DropAmbiguous(AddDevices(EMPTY, ds, staleBefore)), assets, isIP)
  }

  function Merged(ds: seq<Device>, ls: seq<LinkIn>, hs: seq<Host>, assets: seq<AssetAlias>,
                  staleBefore: Option<int>, isIP: string -> bool): Graph {
    AddLinks(FoldHosts(Inventory(ds, assets, staleBefore, isIP), hs, isIP), ls, isIP)
  }

  // ----- resolving always lands on a node -----

  ghost predicate Points(m: map<string, string>, nodes: map<string, Node>) {
    forall k | k in m :: m[k] in nodes
  }

  ghost predicate ResolverOk(g: Graph) {
    && Points(g.hr.ip, g.nodes) && Points(g.hr.sys, g.nodes) && Points(g.hr.short, g.nodes) && Points(g.hr.alias_, g.nodes)
    && (forall id | id in g.nodes :: g.nodes[id].id == id)
  }

  // Every node can be found again under its own id.
  ghost predicate Known(g: Graph) {
    forall id | id in g.nodes :: id in g.hr.ip || NormalizeHost(id) in g.hr.sys
  }

  lemma ResolveFindsANode(g: Graph, name: string, isIP: string -> bool)
    requires ResolverOk(g)
    ensures Resolve(g.hr, name, isIP).Some? ==> Resolve(g.hr, name, isIP).value in g.nodes
  {
  }

  lemma DeviceKeepsOk(g: Graph, d: Device, staleBefore: Option<int>)
    requires ResolverOk(g) && Known(g)
    ensures ResolverOk(AddDevice(g, d, staleBefore)) && Known(AddDevice(g, d, staleBefore))
  {
  }

  lemma {:induction false} DevicesKeepOk(g: Graph, ds: seq<Device>, staleBefore: Option<int>)
    requires ResolverOk(g) && Known(g)
    ensures ResolverOk(AddDevices(g, ds, staleBefore)) && Known(AddDevices(g, ds, staleBefore))
    decreases |ds|
  {
    if ds != [] {
      DeviceKeepsOk(g, ds[0], staleBefore);
      DevicesKeepOk(AddDevice(g, ds[0], staleBefore), ds[1..], staleBefore);
    }
  }

  lemma {:induction false} AliasNamesKeepOk(g: Graph, names: seq<string>, target: string, isIP: string -> bool)
    requires ResolverOk(g) && target in g.nodes
    ensures var g' := AddAliasNames(g, names, target, isIP);
            ResolverOk(g') && g' == g.(hr := g.hr.(alias_ := g'.hr.alias_))
    decreases |names|
  {
    if names != [] {
      assert ResolverOk(AddAlias(g, names[0], target, isIP));
      AliasNamesKeepOk(AddAlias(g, names[0], target, isIP), names[1..], target, isIP);
    }
  }

  lemma {:induction false} AliasesKeepOk(g: Graph, assets: seq<AssetAlias>, isIP: string -> bool)
    requires ResolverOk(g)
    ensures var g' := AddAliases(g, assets, isIP);
            ResolverOk(g') && g' == g.(hr := g.hr.(alias_ := g'.hr.alias_))
    decreases |assets|
  {
    if assets != [] {
      var target := AliasTarget(g.hr, assets[0].identifier);
      if target.Some? { AliasNamesKeepOk(g, assets[0].aliases, target.value, isIP); }
      AliasesKeepOk(if target.None? then g else AddAliasNames(g, assets[0].aliases, target.value, isIP), assets[1..], isIP);
    }
  }

  lemma InventoryOk(ds: seq<Device>, assets: seq<AssetAlias>, staleBefore: Option<int>, isIP: string -> bool)
    ensures ResolverOk(Inventory(ds, assets, staleBefore, isIP)) && Known(Inventory(ds, assets, staleBefore, isIP))
  {
    DevicesKeepOk(EMPTY, ds, staleBefore);
    AliasesKeepOk(DropAmbiguous(AddDevices(EMPTY, ds, staleBefore)), assets, isIP);
  }

  // What folding one host does to every node: only the target changes, and it is absorbed or new.
  lemma FoldHostEffect(g: Graph, h: Host, isIP: string -> bool)
    requires ResolverOk(g) && Known(g) && h.name != ""
    ensures var g', id := FoldHost(g, h, isIP), HostTarget(g, h, isIP);
            && ResolverOk(g') && Known(g')
            && g'.nodes == g.nodes[id := if id in g.nodes then Absorb(g.nodes[id], h)
                                         else Node(id, id, "host", "", Telemetry, h.severity, h.unresolved, false, None)]
            && g'.hr.short == g.hr.short
  {
    ResolveFindsANode(g, h.name, isIP);
  }

  // The hosts folded onto a node, in order.
  function FoldedOn(g: Graph, hs: seq<Host>, isIP: string -> bool, id: string): seq<Host>
    decreases |hs|
  {
    if hs == [] then []
    else (if hs[0].name != "" && HostTarget(g, hs[0], isIP) == id then [hs[0]] else [])
         + FoldedOn(FoldHost(g, hs[0], isIP), hs[1..], isIP, id)
  }

  function SumUnresolved(hs: seq<Host>): int {
    if hs == [] then 0 else hs[0].unresolved + SumUnresolved(hs[1..])
  }

  function MaxRank(hs: seq<Host>): nat {
    if hs == [] then 0
    else if SeverityRank(hs[0].severity) > MaxRank(hs[1..]) then SeverityRank(hs[0].severity)
    else MaxRank(hs[1..])
  }

  function Max(a: nat, b: nat): nat { if a > b then a else b }

  function UnresolvedAt(g: Graph, id: string): int { if id in g.nodes then g.nodes[id].unresolved else 0 }

  function RankAt(g: Graph, id: string): nat { if id in g.nodes then SeverityRank(g.nodes[id].severity) else 0 }

  lemma FoldHostAt(g: Graph, h: Host, isIP: string -> bool, id: string)
    requires ResolverOk(g) && Known(g)
    ensures var g', hit := FoldHost(g, h, isIP), h.name != "" && HostTarget(g, h, isIP) == id;
            && ResolverOk(g') && Known(g')
            && (id in g'.nodes <==> id in g.nodes || hit)
            && UnresolvedAt(g', id) == UnresolvedAt(g, id) + (if hit then h.unresolved else 0)
            && RankAt(g', id) == Max(RankAt(g, id), if hit then SeverityRank(h.severity) else 0)
            && (id in g.nodes ==> SameIdentity(g.nodes[id], g'.nodes[id]))
  {
    if h.name != "" { FoldHostEffect(g, h, isIP); }
  }

  // Only the telemetry fields may differ.
  predicate SameIdentity(n: Node, n': Node) {
    n' == n.(origin := n'.origin, unresolved := n'.unresolved, severity := n'.severity)
  }

  /** Folding overwrites no node: every node keeps its identity, its unresolved count is the sum over the
      hosts folded onto it, and its severity rank their maximum. */
  lemma {:induction false} FoldingAggregates(g: Graph, hs: seq<Host>, isIP: string -> bool, id: string)
    requires ResolverOk(g) && Known(g)
    ensures var g', on := FoldHosts(g, hs, isIP), FoldedOn(g, hs, isIP, id);
            && ResolverOk(g') && Known(g')
            && (id in g'.nodes <==> id in g.nodes || on != [])
            && UnresolvedAt(g', id) == UnresolvedAt(g, id) + SumUnresolved(on)
            && RankAt(g', id) == Max(RankAt(g, id), MaxRank(on))
            && (id in g.nodes ==> SameIdentity(g.nodes[id], g'.nodes[id]))
    decreases |hs|
  {
    if hs != [] {
      var g1, rest := FoldHost(g, hs[0], isIP), FoldedOn(FoldHost(g, hs[0], isIP), hs[1..], isIP, id);
      FoldHostAt(g, hs[0], isIP, id);
      FoldingAggregates(g1, hs[1..], isIP, id);
      var on := FoldedOn(g, hs, isIP, id);
      if hs[0].name != "" && HostTarget(g, hs[0], isIP) == id {
        assert on == [hs[0]] + rest && on[1..] == rest;
      } else {
        assert on == rest;
      }
    }
  }

  // ----- conservation over the whole map -----

  ghost function Pick(nodes: map<string, Node>): (k: string)
    requires |nodes| > 0
    ensures k in nodes && |nodes - {k}| < |nodes|
  {
    var k :| k in nodes;
    assert nodes.Keys == (nodes - {k}).Keys + {k};
    k
  }

  ghost function Total(nodes: map<string, Node>): int
    decreases |nodes|
  {
    if |nodes| == 0 then 0 else nodes[Pick(nodes)].unresolved + Total(nodes - {Pick(nodes)})
  }

  lemma {:induction false} TotalSplit(nodes: map<string, Node>, k: string)
    requires k in nodes
    ensures Total(nodes) == nodes[k].unresolved + Total(nodes - {k})
    decreases |nodes|
  {
    var c := Pick(nodes);
    if c != k {
      assert nodes.Keys == (nodes - {k}).Keys + {k};
      TotalSplit(nodes - {c}, k);
      TotalSplit(nodes - {k}, c);
      assert nodes - {c} - {k} == nodes - {k} - {c};
    }
  }

  lemma TotalWithout(nodes: map<string, Node>, k: string, rest: map<string, Node>)
    requires k in nodes && rest == nodes - {k}
    ensures Total(nodes) == nodes[k].unresolved + Total(rest)
  {
    TotalSplit(nodes, k);
  }

  lemma TotalUpdate(nodes: map<string, Node>, k: string, n: Node)
    ensures Total(nodes[k := n]) == Total(nodes) - (if k in nodes then nodes[k].unresolved else 0) + n.unresolved
  {
    var rest := nodes - {k};
    assert nodes[k := n] - {k} == rest && (k !in nodes ==> rest == nodes);
    TotalWithout(nodes[k := n], k, rest);
    if k in nodes { TotalWithout(nodes, k, rest); }
  }

  function SumNamed(hs: seq<Host>): int {
    if hs == [] then 0 else (if hs[0].name == "" then 0 else hs[0].unresolved) + SumNamed(hs[1..])
  }

  lemma {:induction false} FoldingConserves(g: Graph, hs: seq<Host>, isIP: string -> bool)
    requires ResolverOk(g) && Known(g)
    ensures Total(FoldHosts(g, hs, isIP).nodes) == Total(g.nodes) + SumNamed(hs)
    decreases |hs|
  {
    if hs != [] {
      var g' := FoldHost(g, hs[0], isIP);
      if hs[0].name != "" {
        FoldHostEffect(g, hs[0], isIP);
        var id := HostTarget(g, hs[0], isIP);
        TotalUpdate(g.nodes, id, g'.nodes[id]);
      }
      FoldingConserves(g', hs[1..], isIP);
    }
  }

  // ----- short names -----

  function CountShort(ds: seq<Device>, sn: string): nat {
    if ds == [] then 0 else (if ds[0].sysName != "" && DeviceShort(ds[0]) == sn then 1 else 0) + CountShort(ds[1..], sn)
  }

  ghost predicate HasShort(ds: seq<Device>, sn: string, ip: string) {
    exists d :: d in ds && d.sysName != "" && DeviceShort(d) == sn && d.ip == ip
  }

  function CountOf(g: Graph, sn: string): nat { if sn in g.shortCount then g.shortCount[sn] else 0 }

  lemma {:induction false} DevicesCountShorts(g: Graph, ds: seq<Device>, staleBefore: Option<int>, sn: string)
    ensures var g' := AddDevices(g, ds, staleBefore);
            && CountOf(g', sn) == CountOf(g, sn) + CountShort(ds, sn)
            && (CountShort(ds, sn) == 0 ==> Lookup(g'.hr.short, sn) == Lookup(g.hr.short, sn))
            && (CountShort(ds, sn) > 0 ==> sn in g'.hr.short && HasShort(ds, sn, g'.hr.short[sn]))
    decreases |ds|
  {
    if ds != [] {
      var g1 := AddDevice(g, ds[0], staleBefore);
      DevicesCountShorts(g1, ds[1..], staleBefore, sn);
      var g' := AddDevices(g, ds, staleBefore);
      if CountShort(ds[1..], sn) > 0 {
        var d :| d in ds[1..] && d.sysName != "" && DeviceShort(d) == sn && d.ip == g'.hr.short[sn];
        assert d in ds;
      } else if CountShort(ds, sn) > 0 {
        assert ds[0] in ds && g1.hr.short[sn] == ds[0].ip;
      }
    }
  }

  lemma {:induction false} FoldingKeepsShorts(g: Graph, hs: seq<Host>, isIP: string -> bool)
    ensures FoldHosts(g, hs, isIP).hr.short == g.hr.short
    decreases |hs|
  {
    if hs != [] { FoldingKeepsShorts(FoldHost(g, hs[0], isIP), hs[1..], isIP); }
  }

  lemma {:induction false} AliasNamesKeepShorts(g: Graph, names: seq<string>, target: string, isIP: string -> bool)
    ensures AddAliasNames(g, names, target, isIP).hr.short == g.hr.short
    decreases |names|
  {
    if names != [] { AliasNamesKeepShorts(AddAlias(g, names[0], target, isIP), names[1..], target, isIP); }
  }

  /** A short name is usable exactly when one device carries it, and then it names that device. */
  lemma ShortNamesAreUnambiguous(ds: seq<Device>, assets: seq<AssetAlias>, staleBefore: Option<int>,
                                 hs: seq<Host>, isIP: string -> bool, sn: string)
    ensures var g := FoldHosts(Inventory(ds, assets, staleBefore, isIP), hs, isIP);
            && (sn in g.hr.short <==> CountShort(ds, sn) == 1)
            && (sn in g.hr.short ==> HasShort(ds, sn, g.hr.short[sn]))
  {
    var dev := AddDevices(EMPTY, ds, staleBefore);
    DevicesCountShorts(EMPTY, ds, staleBefore, sn);
    DevicesKeepOk(EMPTY, ds, staleBefore);
    AliasesKeepOk(DropAmbiguous(dev), assets, isIP);
    FoldingKeepsShorts(Inventory(ds, assets, staleBefore, isIP), hs, isIP);
  }

  // ----- aliases -----

  // One alias of an asset that is a device, and that device.
  datatype Filing = Filing(name: string, target: string)

  function FilingsOf(names: seq<string>, target: string): seq<Filing> {
    if names == [] then [] else [Filing(names[0], target)] + FilingsOf(names[1..], target)
  }

  // The aliases of all assets that are devices, in the order they are filed.
  function Filings(hr: Resolver, assets: seq<AssetAlias>): seq<Filing> {
    if assets == [] then []
    else
      var target := AliasTarget(hr, assets[0].identifier);
      (if target.Some? then FilingsOf(assets[0].aliases, target.value) else []) + Filings(hr, assets[1..])
  }

  // An alias goes under its full form, and under its short form as well unless it is an IP literal.
  predicate FiledUnder(al: string, key: string, isIP: string -> bool) {
    var na := NormalizeHost(al);
    na != "" && (na == key || (!isIP(al) && ShortName(na) == key))
  }

  function LastFiled(fs: seq<Filing>, key: string, isIP: string -> bool): Option<string> {
    if fs == [] then None
    else Or(LastFiled(fs[1..], key, isIP), if FiledUnder(fs[0].name, key, isIP) then Some(fs[0].target) else None)
  }

  /** It is the target of the last alias filed under the key, and absent exactly when there is none. */
  lemma {:induction false} LastFiledIsLast(fs: seq<Filing>, key: string, isIP: string -> bool)
    ensures LastFiled(fs, key, isIP).None? <==> forall f | f in fs :: !FiledUnder(f.name, key, isIP)
    ensures LastFiled(fs, key, isIP).Some? ==>
      exists k :: 0 <= k < |fs| && FiledUnder(fs[k].name, key, isIP) && LastFiled(fs, key, isIP) == Some(fs[k].target)
                  && forall l | k < l < |fs| :: !FiledUnder(fs[l].name, key, isIP)
  {
    if fs != [] {
      var rest := fs[1..];
      LastFiledIsLast(rest, key, isIP);
      assert forall f :: f in fs <==> f == fs[0] || f in rest;
      if LastFiled(rest, key, isIP).Some? {
        var k :| 0 <= k < |rest| && FiledUnder(rest[k].name, key, isIP) && LastFiled(rest, key, isIP) == Some(rest[k].target)
                 && forall l | k < l < |rest| :: !FiledUnder(rest[l].name, key, isIP);
        assert fs[k + 1] == rest[k];
        assert forall l | k + 1 < l < |fs| :: fs[l] == rest[l - 1];
      } else if FiledUnder(fs[0].name, key, isIP) {
        assert forall l | 0 < l < |fs| :: fs[l] in rest;
      }
    }
  }

  lemma {:induction false} LastFiledConcat(xs: seq<Filing>, ys: seq<Filing>, key: string, isIP: string -> bool)
    ensures LastFiled(xs + ys, key, isIP) == Or(LastFiled(ys, key, isIP), LastFiled(xs, key, isIP))
  {
    if xs == [] {
      assert xs + ys == ys;
    } else {
      assert (xs + ys)[1..] == xs[1..] + ys;
      LastFiledConcat(xs[1..], ys, key, isIP);
    }
  }

  lemma AliasLookup(g: Graph, al: string, target: string, isIP: string -> bool, key: string)
    ensures var g' := AddAlias(g, al, target, isIP);
            && g' == g.(hr := g.hr.(alias_ := g'.hr.alias_))
            && Lookup(g'.hr.alias_, key) == if FiledUnder(al, key, isIP) then Some(target) else Lookup(g.hr.alias_, key)
  {
  }

  lemma {:induction false} AliasNamesLookup(g: Graph, names: seq<string>, target: string, isIP: string -> bool, key: string)
    ensures var g' := AddAliasNames(g, names, target, isIP);
            && g' == g.(hr := g.hr.(alias_ := g'.hr.alias_))
            && Lookup(g'.hr.alias_, key) == Or(LastFiled(FilingsOf(names, target), key, isIP), Lookup(g.hr.alias_, key))
    decreases |names|
  {
    if names != [] {
      AliasLookup(g, names[0], target, isIP, key);
      AliasNamesLookup(AddAlias(g, names[0], target, isIP), names[1..], target, isIP, key);
      assert FilingsOf(names, target)[1..] == FilingsOf(names[1..], target);
    }
  }

  lemma {:induction false} FilingsIgnoreAliases(hr: Resolver, hr': Resolver, assets: seq<AssetAlias>)
    requires hr'.ip == hr.ip && hr'.sys == hr.sys
    ensures Filings(hr', assets) == Filings(hr, assets)
  {
    if assets != [] { FilingsIgnoreAliases(hr, hr', assets[1..]); }
  }

  lemma {:induction false} AliasesLookup(g: Graph, assets: seq<AssetAlias>, isIP: string -> bool, key: string)
    ensures Lookup(AddAliases(g, assets, isIP).hr.alias_, key)
         == Or(LastFiled(Filings(g.hr, assets), key, isIP), Lookup(g.hr.alias_, key))
    decreases |assets|
  {
    if assets != [] {
      var target := AliasTarget(g.hr, assets[0].identifier);
      var names, rest := assets[0].aliases, Filings(g.hr, assets[1..]);
      if target.Some? {
        var g1 := AddAliasNames(g, names, target.value, isIP);
        AliasNamesLookup(g, names, target.value, isIP, key);
        AliasesLookup(g1, assets[1..], isIP, key);
        FilingsIgnoreAliases(g.hr, g1.hr, assets[1..]);
        LastFiledConcat(FilingsOf(names, target.value), rest, key, isIP);
      } else {
        AliasesLookup(g, assets[1..], isIP, key);
        assert [] + rest == rest;
      }
    }
  }

  lemma {:induction false} FoldingKeepsAliases(g: Graph, hs: seq<Host>, isIP: string -> bool)
    ensures FoldHosts(g, hs, isIP).hr.alias_ == g.hr.alias_
    decreases |hs|
  {
    if hs != [] { FoldingKeepsAliases(FoldHost(g, hs[0], isIP), hs[1..], isIP); }
  }

  lemma {:induction false} DevicesFileNoAliases(g: Graph, ds: seq<Device>, staleBefore: Option<int>)
    ensures AddDevices(g, ds, staleBefore).hr.alias_ == g.hr.alias_
    decreases |ds|
  {
    if ds != [] { DevicesFileNoAliases(AddDevice(g, ds[0], staleBefore), ds[1..], staleBefore); }
  }

  // The device an asset stands for: the one with its identifier as address, else the last of that full name.
  ghost function AssetDevice(ds: seq<Device>, identifier: string): Option<string> {
    if IsAddress(ds, identifier) then Some(identifier) else LastNamed(ds, NormalizeHost(identifier))
  }

  // The filings, said of the devices and assets alone.
  ghost function AliasFilings(ds: seq<Device>, assets: seq<AssetAlias>): seq<Filing> {
    if assets == [] then []
    else
      var d := AssetDevice(ds, assets[0].identifier);
      (if d.Some? then FilingsOf(assets[0].aliases, d.value) else []) + AliasFilings(ds, assets[1..])
  }

  lemma {:induction false} FilingsAre(ds: seq<Device>, assets: seq<AssetAlias>, staleBefore: Option<int>)
    ensures Filings(DropAmbiguous(AddDevices(EMPTY, ds, staleBefore)).hr, assets) == AliasFilings(ds, assets)
  {
    if assets != [] {
      var id := assets[0].identifier;
      DevicesLookup(EMPTY, ds, staleBefore, id, NormalizeHost(id));
      FilingsAre(ds, assets[1..], staleBefore);
    }
  }

  // The device of the last alias filed under a key.
  ghost function AliasUnder(ds: seq<Device>, assets: seq<AssetAlias>, isIP: string -> bool, key: string): Option<string> {
    LastFiled(AliasFilings(ds, assets), key, isIP)
  }

  lemma AliasTable(ds: seq<Device>, assets: seq<AssetAlias>, staleBefore: Option<int>, hs: seq<Host>, isIP: string -> bool, key: string)
    ensures Lookup(FoldHosts(Inventory(ds, assets, staleBefore, isIP), hs, isIP).hr.alias_, key)
         == AliasUnder(ds, assets, isIP, key)
  {
    var g := DropAmbiguous(AddDevices(EMPTY, ds, staleBefore));
    DevicesFileNoAliases(EMPTY, ds, staleBefore);
    AliasesLookup(g, assets, isIP, key);
    FilingsAre(ds, assets, staleBefore);
    FoldingKeepsAliases(Inventory(ds, assets, staleBefore, isIP), hs, isIP);
  }

  // The one device that carries a short name.
  ghost predicate SoleDevice(ds: seq<Device>, sn: string, id: string) { CountShort(ds, sn) == 1 && HasShort(ds, sn, id) }

  // What the aliases say about a name: under the whole name, and unless it is an IP literal under its first label.
  ghost function AliasFor(ds: seq<Device>, assets: seq<AssetAlias>, isIP: string -> bool, name: string): Option<string> {
    var n := NormalizeHost(name);
    Or(AliasUnder(ds, assets, isIP, n),
       if isIP(name) then None else AliasUnder(ds, assets, isIP, ShortName(n)))
  }

  /** When a name that is neither the address nor the name of a known node resolves, and to what: to the device of
      the last alias filed under it or else, unless it is an IP literal, under its first label; otherwise, with
      the same exception, to the one device carrying that label as short name, if exactly one does. */
  lemma UnknownNamesResolve(ds: seq<Device>, assets: seq<AssetAlias>, staleBefore: Option<int>,
                            hs: seq<Host>, isIP: string -> bool, name: string)
    requires name != ""
    ensures var hr := FoldHosts(Inventory(ds, assets, staleBefore, isIP), hs, isIP).hr;
            var sn := ShortName(NormalizeHost(name));
            var alias_, id := AliasFor(ds, assets, isIP, name), Resolve(hr, name, isIP);
            NameMatch(hr, name).None? ==>
              if alias_.Some? then id == alias_
              else if !isIP(name) && CountShort(ds, sn) == 1 then id.Some? && SoleDevice(ds, sn, id.value)
              else id == None
  {
    var n := NormalizeHost(name);
    ShortNamesAreUnambiguous(ds, assets, staleBefore, hs, isIP, ShortName(n));
    AliasTable(ds, assets, staleBefore, hs, isIP, n);
    AliasTable(ds, assets, staleBefore, hs, isIP, ShortName(n));
  }

  /** Such a name, bare or not, leads to the one device with its first label as short name, and never guesses,
      exactly when the aliases say nothing about it or name that very device. */
  lemma ShortMatchMeansOneDevice(ds: seq<Device>, assets: seq<AssetAlias>, staleBefore: Option<int>,
                                 hs: seq<Host>, isIP: string -> bool, name: string)
    requires name != ""
    ensures var hr := FoldHosts(Inventory(ds, assets, staleBefore, isIP), hs, isIP).hr;
            var sn := ShortName(NormalizeHost(name));
            var alias_, id := AliasFor(ds, assets, isIP, name), Resolve(hr, name, isIP);
            NameMatch(hr, name).None? ==>
              ((id.Some? ==> SoleDevice(ds, sn, id.value)) <==> (alias_.Some? ==> SoleDevice(ds, sn, alias_.value)))
  {
    UnknownNamesResolve(ds, assets, staleBefore, hs, isIP, name);
  }

  lemma {:induction false} ShortNamesHaveNoDot(s: string)
    ensures '.' !in ShortName(s) && ('.' !in s ==> ShortName(s) == s)
  {
    if s != "" && s[0] != '.' {
      ShortNamesHaveNoDot(s[1..]);
      assert s == [s[0]] + s[1..];
    }
  }

  /** Under a name with a dot only that very alias is filed; under a bare name also every alias, no IP literal,
      whose first label it is. */
  lemma WhatIsFiledUnder(al: string, key: string, isIP: string -> bool)
    requires key != ""
    ensures '.' in key ==> (FiledUnder(al, key, isIP) <==> NormalizeHost(al) == key)
    ensures '.' !in key ==>
      (FiledUnder(al, key, isIP) <==> NormalizeHost(al) == key || (!isIP(al) && ShortName(NormalizeHost(al)) == key))
  {
    ShortNamesHaveNoDot(NormalizeHost(al));
  }

  // ----- one name in several forms -----

  // A core with at most one dot after it and white space around both.
  ghost predicate HostForm(s: string, pre: string, core: string, dot: string, post: string) {
    && s == pre + (core + dot) + post
    && Text.Blank(pre) && Text.Blank(post)
    && (dot == "." || (dot == "" && (core == "" || core[|core| - 1] != '.')))
    && (core + dot != "" ==> !Text.IsSpace((core + dot)[0]) && !Text.IsSpace((core + dot)[|core + dot| - 1]))
  }

  ghost predicate HostCore(s: string, core: string) {
    exists pre, dot, post :: HostForm(s, pre, core, dot, post)
  }

  lemma CoreIsNormalized(s: string, core: string)
    requires HostCore(s, core)
    ensures NormalizeHost(s) == Text.ToLower(core)
  {
    var pre, dot, post :| HostForm(s, pre, core, dot, post);
    var t := core + dot;
    if t == "" {
      assert forall i | 0 <= i < |s| :: s[i] == if i < |pre| then pre[i] else post[i - |pre|];
      Text.BlankIsTrimmedAway(s);
    } else {
      Text.TrimFinds(pre, t, post);
    }
    Text.LowerOf(core, dot);
    assert Text.ToLower(".") == "." by { assert "."[1..] == ""; }
    var low := Text.ToLower(core);
    if dot == "" && core != "" {
      var init, last := core[..|core| - 1], core[|core| - 1..];
      assert core == init + last && last[1..] == "";
      Text.LowerOf(init, last);
      assert low[|low| - 1] != '.';
    }
  }

  lemma EveryHostHasACore(s: string) returns (core: string)
    ensures HostCore(s, core)
  {
    var pre, post := Text.TrimStrips(s);
    var t := Text.TrimSpace(s);
    var dotted := t != "" && t[|t| - 1] == '.';
    core := if dotted then t[..|t| - 1] else t;
    var dot := if dotted then "." else "";
    assert t == core + dot;
    assert HostForm(s, pre, core, dot, post);
  }

  /** Two texts are one host name exactly when, without white space around them and one trailing dot, they differ
      in the case of letters at most. */
  lemma OneHostName(s: string, t: string, core: string, core': string)
    requires HostCore(s, core) && HostCore(t, core')
    ensures NormalizeHost(s) == NormalizeHost(t) <==> Text.SameUpToCase(core, core')
  {
    CoreIsNormalized(s, core);
    CoreIsNormalized(t, core');
    Text.LowerIgnoresCase(core, core');
  }

  /** The short name is all that comes before the first dot. */
  lemma {:induction false} ShortNameIsFirstLabel(s: string)
    ensures ShortName(s) <= s && '.' !in ShortName(s)
    ensures s == ShortName(s) || s[|ShortName(s)|] == '.'
  {
    if s != "" && s[0] != '.' {
      ShortNameIsFirstLabel(s[1..]);
      assert s == [s[0]] + s[1..];
    }
  }

  // ----- every name, before any host is folded -----

  ghost predicate IsAddress(ds: seq<Device>, name: string) { exists d :: d in ds && d.ip == name }

  // The last device that goes by a full name.
  function LastNamed(ds: seq<Device>, n: string): Option<string> {
    if ds == [] then None
    else Or(LastNamed(ds[1..], n), if ds[0].sysName != "" && NormalizeHost(ds[0].sysName) == n then Some(ds[0].ip) else None)
  }

  lemma DeviceLookup(g: Graph, d: Device, staleBefore: Option<int>, name: string, n: string)
    ensures var hr := AddDevice(g, d, staleBefore).hr;
            && Lookup(hr.ip, name) == (if d.ip == name then Some(name) else Lookup(g.hr.ip, name))
            && Lookup(hr.sys, n) == (if d.sysName != "" && NormalizeHost(d.sysName) == n then Some(d.ip) else Lookup(g.hr.sys, n))
  {
  }

  lemma {:induction false} DevicesLookup(g: Graph, ds: seq<Device>, staleBefore: Option<int>, name: string, n: string)
    ensures var hr := AddDevices(g, ds, staleBefore).hr;
            && Lookup(hr.ip, name) == (if IsAddress(ds, name) then Some(name) else Lookup(g.hr.ip, name))
            && Lookup(hr.sys, n) == Or(LastNamed(ds, n), Lookup(g.hr.sys, n))
    decreases |ds|
  {
    if ds != [] {
      DeviceLookup(g, ds[0], staleBefore, name, n);
      DevicesLookup(AddDevice(g, ds[0], staleBefore), ds[1..], staleBefore, name, n);
      assert forall d :: d in ds <==> d == ds[0] || d in ds[1..];
    }
  }

  lemma InventoryNames(ds: seq<Device>, assets: seq<AssetAlias>, staleBefore: Option<int>, isIP: string -> bool, name: string)
    ensures NameMatch(Inventory(ds, assets, staleBefore, isIP).hr, name)
         == Or(if IsAddress(ds, name) then Some(name) else None, LastNamed(ds, NormalizeHost(name)))
  {
    var g := DropAmbiguous(AddDevices(EMPTY, ds, staleBefore));
    DevicesKeepOk(EMPTY, ds, staleBefore);
    AliasesKeepOk(g, assets, isIP);
    DevicesLookup(EMPTY, ds, staleBefore, name, NormalizeHost(name));
  }

  /** What every name resolves to against the discovered devices and aliases: to the device with that address,
      the last with that full name, the device of the last alias, or the one device with that short name. */
  lemma EveryNameResolves(ds: seq<Device>, assets: seq<AssetAlias>, staleBefore: Option<int>, isIP: string -> bool, name: string)
    requires name != ""
    ensures var id, sn := Resolve(Inventory(ds, assets, staleBefore, isIP).hr, name, isIP), ShortName(NormalizeHost(name));
            var named, alias_ := LastNamed(ds, NormalizeHost(name)), AliasFor(ds, assets, isIP, name);
            if IsAddress(ds, name) then id == Some(name)
            else if named.Some? then id == named
            else if alias_.Some? then id == alias_
            else if !isIP(name) && CountShort(ds, sn) == 1 then id.Some? && SoleDevice(ds, sn, id.value)
            else id == None
  {
    var inv := Inventory(ds, assets, staleBefore, isIP);
    InventoryNames(ds, assets, staleBefore, isIP, name);
    assert FoldHosts(inv, [], isIP) == inv;
    UnknownNamesResolve(ds, assets, staleBefore, [], isIP, name);
  }

  lemma {:induction false} LowerIsLower(s: string)
    requires forall i | 0 <= i < |s| :: !('A' <= s[i] <= 'Z')
    ensures Text.ToLower(s) == s
  {
    if s != "" { LowerIsLower(s[1..]); }
  }

  // A name of two labels, in lower case.
  lemma TwoLabels(c: char)
    requires 'a' <= c <= 'z'
    ensures var s: string := ['w', '.', c]; NormalizeHost(s) == s && ShortName(s) == ['w']
  {
    var s: string := ['w', '.', c];
    assert Text.TrimSpace(s) == s;
    LowerIsLower(s);
    assert s[2..] == [c];
    assert Text.TrimSuffix(s, ".") == s;
    assert ShortName(s[1..]) == "";
  }

  lemma TwoDevices(d1: Device, d2: Device, staleBefore: Option<int>)
    requires d1.sysName != "" && d2.sysName != "" && DeviceShort(d1) == DeviceShort(d2)
    ensures var g := DropAmbiguous(AddDevices(EMPTY, [d1, d2], staleBefore));
            && g.hr.ip == map[d1.ip := d1.ip, d2.ip := d2.ip]
            && g.hr.sys == map[NormalizeHost(d1.sysName) := d1.ip, NormalizeHost(d2.sysName) := d2.ip]
            && CountShort([d1, d2], DeviceShort(d1)) == 2
  {
    var g1 := AddDevice(EMPTY, d1, staleBefore);
    var g2 := AddDevice(g1, d2, staleBefore);
    assert [d1, d2][1..] == [d2] && [d2][1..] == [];
    assert AddDevices(g1, [d2], staleBefore) == AddDevices(g2, [], staleBefore);
    assert AddDevices(EMPTY, [d1, d2], staleBefore) == g2;
    assert CountShort([d2], DeviceShort(d1)) == 1;
  }

  lemma OneAlias(g: Graph, id: string, al: string, isIP: string -> bool)
    requires AliasTarget(g.hr, id).Some?
    ensures Filings(g.hr, [AssetAlias(id, [al])]) == [Filing(al, AliasTarget(g.hr, id).value)]
    ensures AddAliases(g, [AssetAlias(id, [al])], isIP) == AddAlias(g, al, AliasTarget(g.hr, id).value, isIP)
  {
    var target := AliasTarget(g.hr, id).value;
    assert [al][1..] == [] && [AssetAlias(id, [al])][1..] == [];
    assert AddAliasNames(g, [al], target, isIP) == AddAliasNames(AddAlias(g, al, target, isIP), [], target, isIP);
    assert FilingsOf([al], target) == [Filing(al, target)];
  }

  // Two devices share a short name, and an alias of the first has it as well; the name is neither of theirs.
  lemma AliasesGuess(d1: Device, d2: Device, al: string, name: string, staleBefore: Option<int>, isIP: string -> bool)
    requires d1.sysName != "" && d2.sysName != "" && DeviceShort(d1) == DeviceShort(d2)
    requires name != "" && !isIP(name) && ShortName(NormalizeHost(name)) == DeviceShort(d1)
    requires name != d1.ip && name != d2.ip
    requires NormalizeHost(name) != NormalizeHost(d1.sysName) && NormalizeHost(name) != NormalizeHost(d2.sysName)
    requires FiledUnder(al, DeviceShort(d1), isIP)
    ensures var hr := Inventory([d1, d2], [AssetAlias(d1.ip, [al])], staleBefore, isIP).hr;
            && CountShort([d1, d2], ShortName(NormalizeHost(name))) == 2
            && NameMatch(hr, name).None? && Resolve(hr, name, isIP) == Some(d1.ip)
  {
    var g := DropAmbiguous(AddDevices(EMPTY, [d1, d2], staleBefore));
    TwoDevices(d1, d2, staleBefore);
    OneAlias(g, d1.ip, al, isIP);
    DevicesFileNoAliases(EMPTY, [d1, d2], staleBefore);
    AliasLookup(g, al, d1.ip, isIP, NormalizeHost(name));
    AliasLookup(g, al, d1.ip, isIP, DeviceShort(d1));
  }

  // Devices "w.x" and "w.y".
  predicate TwoOfW(d1: Device, d2: Device) {
    d1.ip == "10.0.0.1" && d1.sysName == ['w', '.', 'x'] && d2.ip == "10.0.0.2" && d2.sysName == ['w', '.', 'y']
  }

  /** That can fail: two devices share the short name "w", yet an alias "w.a" of the first makes the unrelated
      host "w.c" resolve to it. */
  lemma AliasesCanGuess(d1: Device, d2: Device, staleBefore: Option<int>, isIP: string -> bool)
    requires TwoOfW(d1, d2) && !isIP(['w', '.', 'a']) && !isIP(['w', '.', 'c'])
    ensures var hr := Inventory([d1, d2], [AssetAlias(d1.ip, [['w', '.', 'a']])], staleBefore, isIP).hr;
            && CountShort([d1, d2], ['w']) == 2
            && NameMatch(hr, ['w', '.', 'c']).None? && Resolve(hr, ['w', '.', 'c'], isIP) == Some(d1.ip)
  {
    var al, name: string := ['w', '.', 'a'], ['w', '.', 'c'];
    TwoLabels('x');
    TwoLabels('y');
    TwoLabels('a');
    TwoLabels('c');
    assert name[0] == 'w' && d1.ip[0] == '1' && d2.ip[0] == '1';
    assert name[2] == 'c' && d1.sysName[2] == 'x' && d2.sysName[2] == 'y';
    AliasesGuess(d1, d2, al, name, staleBefore, isIP);
  }

  /** So can it for the bare host "w", which the alias's short form answers before any short name is asked. */
  lemma AliasesCanGuessBareNames(d1: Device, d2: Device, staleBefore: Option<int>, isIP: string -> bool)
    requires TwoOfW(d1, d2) && !isIP(['w', '.', 'a']) && !isIP(['w'])
    ensures var hr := Inventory([d1, d2], [AssetAlias(d1.ip, [['w', '.', 'a']])], staleBefore, isIP).hr;
            && CountShort([d1, d2], ['w']) == 2
            && NameMatch(hr, ['w']).None? && Resolve(hr, ['w'], isIP) == Some(d1.ip)
  {
    var al, name: string := ['w', '.', 'a'], ['w'];
    TwoLabels('x');
    TwoLabels('y');
    TwoLabels('a');
    OneLabel();
    assert name[0] == 'w' && d1.ip[0] == '1' && d2.ip[0] == '1';
    assert |name| != |d1.sysName| && |name| != |d2.sysName|;
    AliasesGuess(d1, d2, al, name, staleBefore, isIP);
  }

  lemma OneLabel()
    ensures var s: string := ['w']; NormalizeHost(s) == s && ShortName(s) == s
  {
    var s: string := ['w'];
    assert !Text.IsSpace(s[0]) && s[1..] == "";
    assert Text.TrimLeft(s) == s && Text.TrimRight(s) == s;
    LowerIsLower(s);
    assert s[0] != "."[0];
    assert Text.TrimSuffix(s, ".") == s;
    assert ShortName(s[1..]) == "";
  }

  // ----- edges -----

  function KeyOf(e: Edge): string { EdgeKey(e.source, e.target, e.protocol) }

  ghost predicate EdgesOk(g: Graph) {
    && (forall e | e in g.edges :: e.source in g.nodes && e.target in g.nodes && e.source != e.target && KeyOf(e) in g.edgeSeen)
    && (forall i, j | 0 <= i < j < |g.edges| :: KeyOf(g.edges[i]) != KeyOf(g.edges[j]))
    && (forall k | k in g.edgeSeen :: exists e :: e in g.edges && KeyOf(e) == k)
  }

  lemma SourceKeepsOk(g: Graph, l: LinkIn)
    requires ResolverOk(g)
    ensures ResolverOk(AddSource(g, l)) && l.localIP in AddSource(g, l).nodes
    ensures g.nodes.Keys <= AddSource(g, l).nodes.Keys
  {
  }

  function LinkTarget(g: Graph, l: LinkIn, isIP: string -> bool): string { RemoteId(AddSource(g, l).hr, l, isIP) }

  // Every old node is still there unchanged, and new nodes carry no alerts.
  ghost predicate NodesExtend(nodes: map<string, Node>, nodes': map<string, Node>) {
    && (forall id | id in nodes :: id in nodes' && nodes'[id] == nodes[id])
    && (forall id | id in nodes' && id !in nodes :: nodes'[id].unresolved == 0)
  }

  lemma LinkNodes(g: Graph, l: LinkIn, isIP: string -> bool)
    requires ResolverOk(g)
    ensures var g' := AddLink(g, l, isIP);
            && ResolverOk(g')
            && l.localIP in g'.nodes && LinkTarget(g, l, isIP) in g'.nodes
            && NodesExtend(g.nodes, g'.nodes)
  {
    SourceKeepsOk(g, l);
    ResolveFindsANode(AddSource(g, l), l.remoteSysName, isIP);
  }

  // The edge list after one more link, seen apart from the nodes.
  lemma LinkEdges(g: Graph, l: LinkIn, isIP: string -> bool)
    ensures var g', tgt := AddLink(g, l, isIP), LinkTarget(g, l, isIP);
            var key := EdgeKey(l.localIP, tgt, l.protocol);
            if key in g.edgeSeen || l.localIP == tgt then g'.edges == g.edges && g'.edgeSeen == g.edgeSeen
            else g'.edgeSeen == g.edgeSeen + {key} &&
                 g'.edges == g.edges + [Edge(l.localIP, tgt, l.protocol, l.localPort, l.remotePort)]
  {
  }

  // One more edge between different nodes, with a key not seen before.
  lemma NewEdgeKeepsEdgesOk(g: Graph, g': Graph, e: Edge)
    requires EdgesOk(g) && NodesExtend(g.nodes, g'.nodes)
    requires e.source in g'.nodes && e.target in g'.nodes && e.source != e.target && KeyOf(e) !in g.edgeSeen
    requires g'.edges == g.edges + [e] && g'.edgeSeen == g.edgeSeen + {KeyOf(e)}
    ensures EdgesOk(g')
  {
  }

  lemma LinkKeepsEdgesOk(g: Graph, l: LinkIn, isIP: string -> bool)
    requires ResolverOk(g) && EdgesOk(g)
    ensures EdgesOk(AddLink(g, l, isIP))
  {
    var g' := AddLink(g, l, isIP);
    LinkNodes(g, l, isIP);
    LinkEdges(g, l, isIP);
    if g'.edges != g.edges {
      NewEdgeKeepsEdgesOk(g, g', Edge(l.localIP, LinkTarget(g, l, isIP), l.protocol, l.localPort, l.remotePort));
    }
  }

  predicate NoBar(s: string) { '|' !in s }

  // Neither the local address nor the protocol of any link or edge contains the separator.
  ghost predicate LinksBarFree(ls: seq<LinkIn>) {
    forall i | 0 <= i < |ls| :: NoBar(ls[i].localIP) && NoBar(ls[i].protocol)
  }

  ghost predicate EdgesBarFree(g: Graph) {
    forall e | e in g.edges :: NoBar(e.source) && NoBar(e.protocol)
  }

  lemma LinkKeepsBarFree(g: Graph, l: LinkIn, isIP: string -> bool)
    requires EdgesBarFree(g) && NoBar(l.localIP) && NoBar(l.protocol)
    ensures EdgesBarFree(AddLink(g, l, isIP))
  {
  }

  lemma LinkIsSeen(g: Graph, l: LinkIn, isIP: string -> bool)
    ensures var g', tgt := AddLink(g, l, isIP), LinkTarget(g, l, isIP);
            g.edgeSeen <= g'.edgeSeen && (l.localIP == tgt || EdgeKey(l.localIP, tgt, l.protocol) in g'.edgeSeen)
  {
  }

  lemma LinkStep(g: Graph, l: LinkIn, isIP: string -> bool)
    requires ResolverOk(g) && EdgesOk(g)
    ensures var g' := AddLink(g, l, isIP);
            && ResolverOk(g') && EdgesOk(g') && NodesExtend(g.nodes, g'.nodes) && g.edgeSeen <= g'.edgeSeen
            && (l.localIP == LinkTarget(g, l, isIP) || EdgeKey(l.localIP, LinkTarget(g, l, isIP), l.protocol) in g'.edgeSeen)
            && (EdgesBarFree(g) && NoBar(l.localIP) && NoBar(l.protocol) ==> EdgesBarFree(g'))
  {
    LinkNodes(g, l, isIP);
    LinkIsSeen(g, l, isIP);
    LinkKeepsEdgesOk(g, l, isIP);
    if EdgesBarFree(g) && NoBar(l.localIP) && NoBar(l.protocol) { LinkKeepsBarFree(g, l, isIP); }
  }

  /** Every edge of the graph joins two different nodes, no two edges share source, target and protocol, and
      adding links changes no existing node. */
  lemma {:induction false} LinksAreWellFormed(g: Graph, ls: seq<LinkIn>, isIP: string -> bool)
    requires ResolverOk(g) && EdgesOk(g)
    ensures var g' := AddLinks(g, ls, isIP);
            && ResolverOk(g') && EdgesOk(g') && NodesExtend(g.nodes, g'.nodes) && g.edgeSeen <= g'.edgeSeen
            && (EdgesBarFree(g) && LinksBarFree(ls) ==> EdgesBarFree(g'))
    decreases |ls|
  {
    if ls != [] {
      LinkStep(g, ls[0], isIP);
      assert LinksBarFree(ls) ==> LinksBarFree(ls[1..]);
      LinksAreWellFormed(AddLink(g, ls[0], isIP), ls[1..], isIP);
    }
  }

  /** The textual edge key identifies (source, target, protocol) as long as the local address and the
      protocol contain no bar, whatever the remote name contains. */
  lemma EdgeKeyIsInjective(s: string, t: string, p: string, s': string, t': string, p': string)
    requires NoBar(s) && NoBar(s') && NoBar(p) && NoBar(p') && EdgeKey(s, t, p) == EdgeKey(s', t', p')
    ensures s == s' && t == t' && p == p'
  {
    Text.SplitAtLast('|', s + "|" + t, p, s' + "|" + t', p');
    Text.SplitAtFirst('|', s, s', t, t');
  }

  ghost predicate HasEdge(g: Graph, source: string, target: string, protocol: string) {
    exists e :: e in g.edges && e.source == source && e.target == target && e.protocol == protocol
  }

  lemma SeenKeyHasItsEdge(g: Graph, s: string, t: string, p: string)
    requires EdgesOk(g) && EdgesBarFree(g) && NoBar(s) && NoBar(p) && EdgeKey(s, t, p) in g.edgeSeen
    ensures HasEdge(g, s, t, p)
  {
    var e :| e in g.edges && KeyOf(e) == EdgeKey(s, t, p);
    EdgeKeyIsInjective(e.source, e.target, e.protocol, s, t, p);
  }

  lemma FirstLinkHasItsEdge(g: Graph, ls: seq<LinkIn>, isIP: string -> bool)
    requires ResolverOk(g) && EdgesOk(g) && EdgesBarFree(g) && LinksBarFree(ls) && ls != []
    ensures var tgt := LinkTarget(g, ls[0], isIP);
            ls[0].localIP == tgt || HasEdge(AddLinks(g, ls, isIP), ls[0].localIP, tgt, ls[0].protocol)
  {
    var g1, tgt := AddLink(g, ls[0], isIP), LinkTarget(g, ls[0], isIP);
    LinkStep(g, ls[0], isIP);
    assert LinksBarFree(ls[1..]);
    LinksAreWellFormed(g1, ls[1..], isIP);
    if ls[0].localIP != tgt {
      SeenKeyHasItsEdge(AddLinks(g, ls, isIP), ls[0].localIP, tgt, ls[0].protocol);
    }
  }

  /** No adjacency is lost: every link whose two ends differ appears as an edge with its source, target and
      protocol. */
  lemma {:induction false} EveryLinkHasItsEdge(g: Graph, ls: seq<LinkIn>, isIP: string -> bool, k: nat)
    requires ResolverOk(g) && EdgesOk(g) && EdgesBarFree(g) && LinksBarFree(ls) && k < |ls|
    ensures var tgt := LinkTarget(AddLinks(g, ls[..k], isIP), ls[k], isIP);
            ls[k].localIP == tgt || HasEdge(AddLinks(g, ls, isIP), ls[k].localIP, tgt, ls[k].protocol)
    decreases |ls|
  {
    if k == 0 {
      FirstLinkHasItsEdge(g, ls, isIP);
    } else {
      var g1, rest := AddLink(g, ls[0], isIP), ls[1..];
      LinkStep(g, ls[0], isIP);
      assert LinksBarFree(rest);
      assert ls[..k][1..] == rest[..k - 1] && ls[..k][0] == ls[0];
      EveryLinkHasItsEdge(g1, rest, isIP, k - 1);
    }
  }

  // Link k of the list stands for this adjacency at its turn.
  ghost predicate StandsFor(g: Graph, ls: seq<LinkIn>, isIP: string -> bool, k: nat, s: string, t: string, p: string) {
    k < |ls| && ls[k].localIP == s && LinkTarget(AddLinks(g, ls[..k], isIP), ls[k], isIP) == t && ls[k].protocol == p
  }

  lemma StandsForLater(g: Graph, ls: seq<LinkIn>, isIP: string -> bool, k: nat, s: string, t: string, p: string)
    requires ls != []
    ensures StandsFor(AddLink(g, ls[0], isIP), ls[1..], isIP, k, s, t, p) ==> StandsFor(g, ls, isIP, k + 1, s, t, p)
  {
    if k < |ls[1..]| {
      assert ls[..k + 1][0] == ls[0] && ls[..k + 1][1..] == ls[1..][..k] && ls[k + 1] == ls[1..][k];
    }
  }

  /** No edge comes from nowhere: each new one is the adjacency of some link, and carries that link's ports. */
  lemma {:induction false} EveryEdgeHasItsLink(g: Graph, ls: seq<LinkIn>, isIP: string -> bool, e: Edge) returns (k: nat)
    requires e in AddLinks(g, ls, isIP).edges && e !in g.edges
    ensures StandsFor(g, ls, isIP, k, e.source, e.target, e.protocol)
    ensures e.localPort == ls[k].localPort && e.remotePort == ls[k].remotePort
    decreases |ls|
  {
    var g1 := AddLink(g, ls[0], isIP);
    LinkEdges(g, ls[0], isIP);
    if e in g1.edges {
      assert AddLinks(g, ls[..0], isIP) == g;
      k := 0;
    } else {
      k := EveryEdgeHasItsLink(g1, ls[1..], isIP, e);
      StandsForLater(g, ls, isIP, k, e.source, e.target, e.protocol);
      k := k + 1;
    }
  }

  // Another adjacency already holds the textual key of this one.
  ghost predicate KeyTaken(g: Graph, source: string, target: string, protocol: string) {
    exists e :: e in g.edges && KeyOf(e) == EdgeKey(source, target, protocol)
                && (e.source, e.target, e.protocol) != (source, target, protocol)
  }

  lemma SeenEdgeOrTaken(g: Graph, s: string, t: string, p: string)
    requires EdgesOk(g)
    ensures EdgeKey(s, t, p) in g.edgeSeen ==> (HasEdge(g, s, t, p) <==> !KeyTaken(g, s, t, p))
    ensures EdgeKey(s, t, p) !in g.edgeSeen ==> !HasEdge(g, s, t, p) && !KeyTaken(g, s, t, p)
  {
  }

  lemma EdgeAfterLink(g: Graph, l: LinkIn, isIP: string -> bool)
    requires ResolverOk(g) && EdgesOk(g) && l.localIP != LinkTarget(g, l, isIP)
    ensures var g', tgt := AddLink(g, l, isIP), LinkTarget(g, l, isIP);
            && EdgeKey(l.localIP, tgt, l.protocol) in g'.edgeSeen
            && (HasEdge(g', l.localIP, tgt, l.protocol) <==> !KeyTaken(g, l.localIP, tgt, l.protocol))
  {
    var g', tgt := AddLink(g, l, isIP), LinkTarget(g, l, isIP);
    SeenEdgeOrTaken(g, l.localIP, tgt, l.protocol);
    LinkEdges(g, l, isIP);
    if EdgeKey(l.localIP, tgt, l.protocol) !in g.edgeSeen {
      assert g'.edges[|g.edges|] in g'.edges;
    }
  }

  lemma NextLinkChangesNothing(g: Graph, l: LinkIn, isIP: string -> bool, s: string, t: string, p: string)
    requires EdgesOk(g) && EdgeKey(s, t, p) in g.edgeSeen
    ensures var g' := AddLink(g, l, isIP);
            EdgeKey(s, t, p) in g'.edgeSeen && (HasEdge(g', s, t, p) <==> HasEdge(g, s, t, p))
  {
  }

  lemma {:induction false} LaterLinksChangeNothing(g: Graph, ls: seq<LinkIn>, isIP: string -> bool, s: string, t: string, p: string)
    requires ResolverOk(g) && EdgesOk(g) && EdgeKey(s, t, p) in g.edgeSeen
    ensures HasEdge(AddLinks(g, ls, isIP), s, t, p) <==> HasEdge(g, s, t, p)
    decreases |ls|
  {
    if ls != [] {
      LinkStep(g, ls[0], isIP);
      NextLinkChangesNothing(g, ls[0], isIP, s, t, p);
      LaterLinksChangeNothing(AddLink(g, ls[0], isIP), ls[1..], isIP, s, t, p);
    }
  }

  /** An adjacency between two different ends is missing from the graph exactly when, at its turn, another one
      already held its textual key. */
  lemma {:induction false} LinkIsLostExactlyWhenItsKeyIsTaken(g: Graph, ls: seq<LinkIn>, isIP: string -> bool, k: nat)
    requires ResolverOk(g) && EdgesOk(g) && k < |ls|
    ensures var before := AddLinks(g, ls[..k], isIP);
            var l, tgt := ls[k], LinkTarget(before, ls[k], isIP);
            l.localIP != tgt ==>
              (HasEdge(AddLinks(g, ls, isIP), l.localIP, tgt, l.protocol) <==> !KeyTaken(before, l.localIP, tgt, l.protocol))
    decreases |ls|
  {
    var g1 := AddLink(g, ls[0], isIP);
    LinkStep(g, ls[0], isIP);
    if k == 0 {
      var tgt := LinkTarget(g, ls[0], isIP);
      if ls[0].localIP != tgt {
        EdgeAfterLink(g, ls[0], isIP);
        LaterLinksChangeNothing(g1, ls[1..], isIP, ls[0].localIP, tgt, ls[0].protocol);
      }
    } else {
      assert ls[..k][1..] == ls[1..][..k - 1] && ls[..k][0] == ls[0];
      LinkIsLostExactlyWhenItsKeyIsTaken(g1, ls[1..], isIP, k - 1);
    }
  }

  lemma BarsCollide(a: string, b: string, c: string, p: string)
    ensures EdgeKey(a, "nbr:" + (b + "|nbr:" + c), p) == EdgeKey(a + "|nbr:" + b, "nbr:" + c, p)
  {
  }

  lemma NeighborTarget(g: Graph, l: LinkIn, isIP: string -> bool)
    requires l.remoteSysName == "" && l.remoteChassis != ""
    ensures LinkTarget(g, l, isIP) == "nbr:" + l.remoteChassis
  {
  }

  lemma TwoLinks(g: Graph, first: LinkIn, second: LinkIn, isIP: string -> bool)
    ensures AddLinks(g, [first, second], isIP) == AddLink(AddLink(g, first, isIP), second, isIP)
  {
    assert [first, second][1..] == [second] && [second][1..] == [];
    assert AddLinks(AddLink(g, first, isIP), [second], isIP) == AddLinks(AddLink(AddLink(g, first, isIP), second, isIP), [], isIP);
  }

  // After a graph's first edge, another adjacency with the same key is dropped.
  lemma SecondOfTwoIsLost(g: Graph, g1: Graph, first: LinkIn, second: LinkIn, t1: string, t2: string, isIP: string -> bool)
    requires ResolverOk(g) && EdgesOk(g) && g.edges == [] && g1 == AddLink(g, first, isIP)
    requires t1 == LinkTarget(g, first, isIP) && t2 == LinkTarget(g1, second, isIP)
    requires first.localIP != t1 && second.localIP != t2 && first.localIP != second.localIP
    requires EdgeKey(first.localIP, t1, first.protocol) == EdgeKey(second.localIP, t2, second.protocol)
    ensures !HasEdge(AddLink(g1, second, isIP), second.localIP, t2, second.protocol)
  {
  }

  /** It does happen: with a bar in a local address and in the chassis id of an unnamed neighbour, the second of
      two different adjacencies vanishes. */
  lemma AdjacenciesCanBeLost(a: string, b: string, c: string, p: string, isIP: string -> bool)
    requires b != "" && c != "" && a != "nbr:" + (b + "|nbr:" + c) && a + "|nbr:" + b != "nbr:" + c
    ensures var first, second := LinkIn(a, "", "", b + "|nbr:" + c, "", p), LinkIn(a + "|nbr:" + b, "", "", c, "", p);
            !HasEdge(AddLinks(EMPTY, [first, second], isIP), a + "|nbr:" + b, "nbr:" + c, p)
  {
    var first, second := LinkIn(a, "", "", b + "|nbr:" + c, "", p), LinkIn(a + "|nbr:" + b, "", "", c, "", p);
    assert |a| < |a + "|nbr:" + b|;
    BarsCollide(a, b, c, p);
    var g1 := AddLink(EMPTY, first, isIP);
    NeighborTarget(EMPTY, first, isIP);
    NeighborTarget(g1, second, isIP);
    SecondOfTwoIsLost(EMPTY, g1, first, second, "nbr:" + (b + "|nbr:" + c), "nbr:" + c, isIP);
    TwoLinks(EMPTY, first, second, isIP);
  }

  // ----- the whole graph -----

  lemma {:induction false} TotalOfExtension(nodes: map<string, Node>, nodes': map<string, Node>)
    requires NodesExtend(nodes, nodes')
    ensures Total(nodes') == Total(nodes)
    decreases |nodes'|
  {
    if |nodes'| > 0 {
      var c := Pick(nodes');
      if c in nodes {
        TotalSplit(nodes, c);
        TotalOfExtension(nodes - {c}, nodes' - {c});
      } else {
        TotalOfExtension(nodes, nodes' - {c});
      }
    } else {
      assert forall id | id in nodes :: id in nodes';
      assert nodes == map[];
    }
  }

  lemma {:induction false} DevicesCarryNoAlerts(g: Graph, ds: seq<Device>, staleBefore: Option<int>)
    requires forall id | id in g.nodes :: g.nodes[id].unresolved == 0
    ensures forall id | id in AddDevices(g, ds, staleBefore).nodes :: AddDevices(g, ds, staleBefore).nodes[id].unresolved == 0
    ensures AddDevices(g, ds, staleBefore).edges == g.edges && AddDevices(g, ds, staleBefore).edgeSeen == g.edgeSeen
    decreases |ds|
  {
    if ds != [] { DevicesCarryNoAlerts(AddDevice(g, ds[0], staleBefore), ds[1..], staleBefore); }
  }

  lemma {:induction false} FoldingKeepsEdges(g: Graph, hs: seq<Host>, isIP: string -> bool)
    ensures FoldHosts(g, hs, isIP).edges == g.edges && FoldHosts(g, hs, isIP).edgeSeen == g.edgeSeen
    decreases |hs|
  {
    if hs != [] { FoldingKeepsEdges(FoldHost(g, hs[0], isIP), hs[1..], isIP); }
  }

  /** The merged graph conserves alerts and is well formed: its nodes' unresolved counts add up to those of
      the named hosts, every edge joins two different nodes of the graph, and no two edges share source,
      target and protocol. */
  lemma MergedGraphIsSound(ds: seq<Device>, ls: seq<LinkIn>, hs: seq<Host>, assets: seq<AssetAlias>,
                           staleBefore: Option<int>, isIP: string -> bool)
    ensures var g := Merged(ds, ls, hs, assets, staleBefore, isIP);
            && Total(g.nodes) == SumNamed(hs)
            && (forall e | e in g.edges :: e.source in g.nodes && e.target in g.nodes && e.source != e.target)
            && (forall i, j | 0 <= i < j < |g.edges| ::
                  (g.edges[i].source, g.edges[i].target, g.edges[i].protocol) != (g.edges[j].source, g.edges[j].target, g.edges[j].protocol))
            && (forall id | id in g.nodes :: g.nodes[id].id == id)
  {
    var inv := Inventory(ds, assets, staleBefore, isIP);
    InventoryOk(ds, assets, staleBefore, isIP);
    DevicesCarryNoAlerts(EMPTY, ds, staleBefore);
    DevicesKeepOk(EMPTY, ds, staleBefore);
    AliasesKeepOk(DropAmbiguous(AddDevices(EMPTY, ds, staleBefore)), assets, isIP);
    TotalOfExtension(map[], inv.nodes);
    FoldingConserves(inv, hs, isIP);
    FoldingAggregates(inv, hs, isIP, "");
    FoldingKeepsEdges(inv, hs, isIP);
    var folded := FoldHosts(inv, hs, isIP);
    LinksAreWellFormed(folded, ls, isIP);
    TotalOfExtension(folded.nodes, AddLinks(folded, ls, isIP).nodes);
  }

  lemma FoldedHasNoEdges(ds: seq<Device>, hs: seq<Host>, assets: seq<AssetAlias>, staleBefore: Option<int>, isIP: string -> bool)
    ensures var g := FoldHosts(Inventory(ds, assets, staleBefore, isIP), hs, isIP);
            ResolverOk(g) && g.edges == [] && EdgesOk(g) && EdgesBarFree(g)
  {
    var inv := Inventory(ds, assets, staleBefore, isIP);
    InventoryOk(ds, assets, staleBefore, isIP);
    DevicesCarryNoAlerts(EMPTY, ds, staleBefore);
    DevicesKeepOk(EMPTY, ds, staleBefore);
    AliasesKeepOk(DropAmbiguous(AddDevices(EMPTY, ds, staleBefore)), assets, isIP);
    FoldingAggregates(inv, hs, isIP, "");
    FoldingKeepsEdges(inv, hs, isIP);
  }

  // ----- the ordered node list -----

  predicate NodeLess(a: Node, b: Node) {
    if a.unresolved != b.unresolved then a.unresolved > b.unresolved else Text.Less(a.id, b.id)
  }

  ghost predicate IsNodeList(nodes: map<string, Node>, out: seq<Node>) {
    Ordering.Sorted(NodeLess, out) && forall n :: n in out <==> n in nodes.Values
  }

  lemma NodeLessIsStrict()
    ensures Ordering.StrictOrder(NodeLess)
  {
    forall x, y ensures !(NodeLess(x, y) && NodeLess(y, x)) { Text.LessIsTotal(x.id, y.id); }
    forall x, y, z | NodeLess(x, y) && NodeLess(y, z) ensures NodeLess(x, z) {
      if x.unresolved == y.unresolved == z.unresolved { Text.LessIsTransitive(x.id, y.id, z.id); }
    }
  }

  /** The list is read from the node with the most unresolved alerts down, and in dictionary order of the ids among
      those with equally many. */
  lemma MostUnresolvedFirst(nodes: map<string, Node>, out: seq<Node>, i: nat, j: nat)
    requires IsNodeList(nodes, out) && i < j < |out|
    ensures out[i].unresolved > out[j].unresolved
         || (out[i].unresolved == out[j].unresolved && Text.Dictionary(out[i].id, out[j].id))
  {
    assert NodeLess(out[i], out[j]);
    Text.LessIsLexicographic(out[i].id, out[j].id);
  }

  /** The list shown is the same whatever order the node map is iterated in. */
  lemma NodeListIsCanonical(nodes: map<string, Node>, a: seq<Node>, b: seq<Node>)
    requires IsNodeList(nodes, a) && IsNodeList(nodes, b)
    ensures a == b
  {
    NodeLessIsStrict();
    forall x ensures x in a <==> x in b {}
    Ordering.SortedIsUnique(NodeLess, a, b);
  }

  method ListNodes(nodes: map<string, Node>) returns (out: seq<Node>)
    requires forall id | id in nodes :: nodes[id].id == id
    ensures IsNodeList(nodes, out)
  {
    var rest := nodes.Keys;
    var all: seq<Node> := [];
    while rest != {}
      invariant rest <= nodes.Keys
      invariant forall n | n in all :: n.id in nodes && nodes[n.id] == n && n.id !in rest
      invariant forall id | id in nodes :: id in rest || nodes[id] in all
      invariant forall i, j | 0 <= i < j < |all| :: all[i].id != all[j].id
    {
      var id :| id in rest;   // the iteration order of a Go map is arbitrary
      rest := rest - {id};
      all := all + [nodes[id]];
    }
    out := Ordering.Sort(NodeLess, all);
    NodeLessIsStrict();
    forall i, j | 0 <= i < j < |all| ensures NodeLess(all[i], all[j]) || NodeLess(all[j], all[i]) {
      Text.LessIsTotal(all[i].id, all[j].id);
    }
    Ordering.SortSorts(NodeLess, all);
    forall n ensures n in out <==> n in nodes.Values {
      assert n in out <==> n in multiset(all);
      assert n in all ==> n.id in nodes && nodes[n.id] == n;
    }
  }

  // ----- the ordered edge list -----

  // Source, then target; the protocol does not count.
  predicate EdgeLess(a: Edge, b: Edge) {
    if a.source != b.source then Text.Less(a.source, b.source) else Text.Less(a.target, b.target)
  }

  ghost predicate IsEdgeList(edges: seq<Edge>, out: seq<Edge>) {
    multiset(out) == multiset(edges) && Ordering.Ordered(EdgeLess, out)
  }

  /** Edges are listed in dictionary order of their sources, and of their targets for one source. */
  lemma EdgesByTheirEnds(edges: seq<Edge>, out: seq<Edge>, i: nat, j: nat)
    requires IsEdgeList(edges, out) && i < j < |out|
    ensures var a, b := out[i], out[j];
      || Text.Dictionary(a.source, b.source)
      || (a.source == b.source && (a.target == b.target || Text.Dictionary(a.target, b.target)))
  {
    var a, b := out[i], out[j];
    assert !EdgeLess(b, a);
    Text.LessIsTotal(a.source, b.source);
    Text.LessIsTotal(a.target, b.target);
    Text.LessIsLexicographic(a.source, b.source);
    Text.LessIsLexicographic(a.target, b.target);
  }

  lemma EdgeLessIsStrict()
    ensures Ordering.StrictOrder(EdgeLess)
  {
    forall x, y ensures !(EdgeLess(x, y) && EdgeLess(y, x)) {
      Text.LessIsTotal(x.source, y.source);
      Text.LessIsTotal(x.target, y.target);
    }
    forall x, y, z | EdgeLess(x, y) && EdgeLess(y, z) ensures EdgeLess(x, z) {
      EdgeLessIsTransitive(x, y, z);
    }
  }

  lemma EdgeLessIsTransitive(x: Edge, y: Edge, z: Edge)
    requires EdgeLess(x, y) && EdgeLess(y, z)
    ensures EdgeLess(x, z)
  {
    if x.source == y.source == z.source {
      Text.LessIsTransitive(x.target, y.target, z.target);
    } else if x.source != y.source && y.source != z.source {
      Text.LessIsTransitive(x.source, y.source, z.source);
      Text.LessIsTotal(x.source, z.source);
      Text.LessIsTotal(x.source, y.source);
    }
  }

  lemma EdgeLessIsTotal(x: Edge, y: Edge)
    ensures EdgeLess(x, y) || EdgeLess(y, x) || (x.source == y.source && x.target == y.target)
  {
    Text.LessIsTotal(x.source, y.source);
    Text.LessIsTotal(x.target, y.target);
  }

  lemma EdgeLessIsWeak()
    ensures Ordering.WeakOrder(EdgeLess)
  {
    EdgeLessIsStrict();
    forall x, y, z | !EdgeLess(y, x) && !EdgeLess(z, y) ensures !EdgeLess(z, x) {
      EdgeLessIsTotal(x, y);
      EdgeLessIsTotal(y, z);
    }
  }

  lemma WithoutTwinsOrderIsStrict(edges: seq<Edge>, a: seq<Edge>)
    requires IsEdgeList(edges, a)
    requires !Twins(edges)
    requires forall i, j | 0 <= i < j < |edges| :: edges[i] != edges[j]
    ensures Ordering.Sorted(EdgeLess, a)
  {
    assert forall e :: e in a <==> e in multiset(edges);
    DistinctStaysDistinct(edges, a);
    forall i, j | 0 <= i < j < |a| ensures EdgeLess(a[i], a[j]) {
      EdgeLessIsTotal(a[i], a[j]);
      assert a[i] in multiset(a) && a[j] in multiset(a);
      assert a[i] in edges && a[j] in edges;
    }
  }

  lemma DistinctStaysDistinct(edges: seq<Edge>, a: seq<Edge>)
    requires multiset(a) == multiset(edges)
    requires forall i, j | 0 <= i < j < |edges| :: edges[i] != edges[j]
    ensures forall i, j | 0 <= i < j < |a| :: a[i] != a[j]
  {
    forall e ensures multiset(edges)[e] <= 1 { DistinctCount(edges, e); }
    forall i, j | 0 <= i < j < |a| ensures a[i] != a[j] {
      assert a == a[..i] + [a[i]] + a[i + 1..j] + [a[j]] + a[j + 1..];
      assert a[i] == a[j] ==> multiset(a)[a[i]] >= 2;
    }
  }

  lemma {:induction false} DistinctCount(edges: seq<Edge>, e: Edge)
    requires forall i, j | 0 <= i < j < |edges| :: edges[i] != edges[j]
    ensures multiset(edges)[e] <= 1
  {
    if edges != [] {
      assert edges == [edges[0]] + edges[1..];
      DistinctCount(edges[1..], e);
      assert e == edges[0] ==> e !in edges[1..];
    }
  }

  // There is only one list to show.
  ghost predicate OrderDetermined(edges: seq<Edge>) {
    forall a, b | IsEdgeList(edges, a) && IsEdgeList(edges, b) :: a == b
  }

  // Two edges that only the protocol or the ports tell apart.
  ghost predicate Twins(edges: seq<Edge>) {
    exists e, f :: e in edges && f in edges && e != f && e.source == f.source && e.target == f.target
  }

  lemma SortedEdgesExist(edges: seq<Edge>)
    ensures IsEdgeList(edges, Ordering.Sort(EdgeLess, edges))
  {
    EdgeLessIsWeak();
    Ordering.SortPermutes(EdgeLess, edges);
    Ordering.SortOrders(EdgeLess, edges);
  }

  // Exchanging twins in an ordered list leaves it ordered.
  lemma TwinsCanSwap(edges: seq<Edge>, a: seq<Edge>, p: nat, q: nat)
    requires IsEdgeList(edges, a) && p < |a| && q < |a|
    requires a[p].source == a[q].source && a[p].target == a[q].target
    ensures IsEdgeList(edges, a[p := a[q]][q := a[p]])
  {
  }

  lemma TwinsHaveTwoOrders(edges: seq<Edge>) returns (a: seq<Edge>, b: seq<Edge>)
    requires Twins(edges)
    ensures IsEdgeList(edges, a) && IsEdgeList(edges, b) && a != b
  {
    var e, f :| e in edges && f in edges && e != f && e.source == f.source && e.target == f.target;
    a := Ordering.Sort(EdgeLess, edges);
    SortedEdgesExist(edges);
    assert e in multiset(a) && f in multiset(a);
    var p: nat :| p < |a| && a[p] == e;
    var q: nat :| q < |a| && a[q] == f;
    TwinsCanSwap(edges, a, p, q);
    b := a[p := a[q]][q := a[p]];
    assert b[q] == e;
  }

  lemma WithoutTwinsOneOrder(edges: seq<Edge>, a: seq<Edge>, b: seq<Edge>)
    requires forall i, j | 0 <= i < j < |edges| :: edges[i] != edges[j]
    requires !Twins(edges) && IsEdgeList(edges, a) && IsEdgeList(edges, b)
    ensures a == b
  {
    EdgeLessIsStrict();
    WithoutTwinsOrderIsStrict(edges, a);
    WithoutTwinsOrderIsStrict(edges, b);
    forall e ensures e in a <==> e in b {
      assert e in a <==> e in multiset(edges);
      assert e in b <==> e in multiset(edges);
    }
    Ordering.SortedIsUnique(EdgeLess, a, b);
  }

  /** The edge list shown is determined exactly when no two edges differ in their protocol or ports alone. */
  lemma EdgeListIsCanonical(edges: seq<Edge>)
    requires forall i, j | 0 <= i < j < |edges| :: edges[i] != edges[j]
    ensures OrderDetermined(edges) <==> !Twins(edges)
  {
    if Twins(edges) {
      var a, b := TwinsHaveTwoOrders(edges);
    } else {
      forall a, b | IsEdgeList(edges, a) && IsEdgeList(edges, b) ensures a == b {
        WithoutTwinsOneOrder(edges, a, b);
      }
    }
  }

  // One unnamed neighbour of one device, over two protocols.
  // Two links stand for adjacencies of the same two different ends over different protocols.
  ghost predicate SameEndsTwoProtocols(g: Graph, ls: seq<LinkIn>, isIP: string -> bool) {
    exists k: nat, l: nat, s, t, p, q ::
      StandsFor(g, ls, isIP, k, s, t, p) && StandsFor(g, ls, isIP, l, s, t, q) && s != t && p != q
  }

  lemma TwinsDifferInProtocol(g: Graph, e: Edge, f: Edge)
    requires EdgesOk(g) && e in g.edges && f in g.edges && e != f && e.source == f.source && e.target == f.target
    ensures e.protocol != f.protocol
  {
    var i :| 0 <= i < |g.edges| && g.edges[i] == e;
    var j :| 0 <= j < |g.edges| && g.edges[j] == f;
    assert i < j || j < i;
  }

  lemma DifferentEdges(g: Graph)
    requires EdgesOk(g)
    ensures forall i, j | 0 <= i < j < |g.edges| :: g.edges[i] != g.edges[j]
  {
    forall i, j | 0 <= i < j < |g.edges| ensures g.edges[i] != g.edges[j] {
      assert KeyOf(g.edges[i]) != KeyOf(g.edges[j]);
    }
  }

  lemma TwinsComeFromLinks(g: Graph, ls: seq<LinkIn>, isIP: string -> bool)
    requires ResolverOk(g) && EdgesOk(g) && g.edges == [] && Twins(AddLinks(g, ls, isIP).edges)
    ensures SameEndsTwoProtocols(g, ls, isIP)
  {
    var g' := AddLinks(g, ls, isIP);
    LinksAreWellFormed(g, ls, isIP);
    var e, f :| e in g'.edges && f in g'.edges && e != f && e.source == f.source && e.target == f.target;
    TwinsDifferInProtocol(g', e, f);
    var k := EveryEdgeHasItsLink(g, ls, isIP, e);
    var l := EveryEdgeHasItsLink(g, ls, isIP, f);
    assert StandsFor(g, ls, isIP, k, e.source, e.target, e.protocol) && StandsFor(g, ls, isIP, l, e.source, e.target, f.protocol);
  }

  lemma TwoProtocolsMakeTwins(g: Graph, ls: seq<LinkIn>, isIP: string -> bool)
    requires ResolverOk(g) && EdgesOk(g) && EdgesBarFree(g) && LinksBarFree(ls) && SameEndsTwoProtocols(g, ls, isIP)
    ensures Twins(AddLinks(g, ls, isIP).edges)
  {
    var k: nat, l: nat, s, t, p, q :|
      StandsFor(g, ls, isIP, k, s, t, p) && StandsFor(g, ls, isIP, l, s, t, q) && s != t && p != q;
    EveryLinkHasItsEdge(g, ls, isIP, k);
    EveryLinkHasItsEdge(g, ls, isIP, l);
    var edges := AddLinks(g, ls, isIP).edges;
    var e :| e in edges && e.source == s && e.target == t && e.protocol == p;
    var f :| f in edges && f.source == s && f.target == t && f.protocol == q;
    assert e != f;
  }

  /** In terms of the links: the order of the edge list is determined exactly when no two links stand for the same
      two different ends over different protocols. */
  lemma LinksDetermineTheOrder(g: Graph, ls: seq<LinkIn>, isIP: string -> bool)
    requires ResolverOk(g) && EdgesOk(g) && g.edges == [] && LinksBarFree(ls)
    ensures var edges := AddLinks(g, ls, isIP).edges;
            OrderDetermined(edges) <==> !SameEndsTwoProtocols(g, ls, isIP)
  {
    LinksAreWellFormed(g, ls, isIP);
    DifferentEdges(AddLinks(g, ls, isIP));
    EdgeListIsCanonical(AddLinks(g, ls, isIP).edges);
    if SameEndsTwoProtocols(g, ls, isIP) { TwoProtocolsMakeTwins(g, ls, isIP); }
    if Twins(AddLinks(g, ls, isIP).edges) { TwinsComeFromLinks(g, ls, isIP); }
  }

  lemma TwoProtocolsAreTwins(g: Graph, first: LinkIn, second: LinkIn, isIP: string -> bool)
    requires g.edgeSeen == {} && g.edges == []
    requires first.localIP == second.localIP && first.remoteChassis == second.remoteChassis != ""
    requires first.remoteSysName == second.remoteSysName == "" && first.protocol != second.protocol
    requires first.localIP != "nbr:" + first.remoteChassis
    ensures Twins(AddLinks(g, [first, second], isIP).edges)
  {
    var g1, t := AddLink(g, first, isIP), "nbr:" + first.remoteChassis;
    NeighborTarget(g, first, isIP);
    NeighborTarget(g1, second, isIP);
    LinkEdges(g, first, isIP);
    LinkEdges(g1, second, isIP);
    SameEndsDifferInKey(first.localIP, t, first.protocol, second.protocol);
    TwoLinks(g, first, second, isIP);
    var edges := AddLinks(g, [first, second], isIP).edges;
    assert edges[0] in edges && edges[1] in edges && edges[0].protocol != edges[1].protocol;
  }

  lemma SameEndsDifferInKey(s: string, t: string, p: string, p': string)
    requires p != p'
    ensures EdgeKey(s, t, p) != EdgeKey(s, t, p')
  {
    var stem := s + "|" + t + "|";
    assert EdgeKey(s, t, p)[|stem|..] == p && EdgeKey(s, t, p')[|stem|..] == p';
  }

  method ListEdges(edges: seq<Edge>) returns (out: seq<Edge>)
    ensures IsEdgeList(edges, out)
  {
    out := Ordering.Sort(EdgeLess, edges);
    SortedEdgesExist(edges);
  }

  // ----- the builder, map by map -----

  method IndexDevice(g: Graph, d: Device, staleBefore: Option<int>) returns (g': Graph)
    ensures g' == AddDevice(g, d, staleBefore)
  {
    var title := d.sysName;
    if title == "" { title := d.ip; }
    var stale := d.lastSeen.Some? && staleBefore.Some? && d.lastSeen.value < staleBefore.value;
    var node := Node(d.ip, title, d.kind, d.vendor, Discovery, NO_SEVERITY, 0, stale, d.lastSeen);
    var nodes, ip, sys, short, shortCount := g.nodes[d.ip := node], g.hr.ip[d.ip := d.ip], g.hr.sys, g.hr.short, g.shortCount;
    if d.sysName != "" {
      var name := NormalizeHost(d.sysName);
      sys := sys[name := d.ip];
      var sn := ShortName(name);
      shortCount := shortCount[sn := (if sn in shortCount then shortCount[sn] else 0) + 1];
      short := short[sn := d.ip];
    }
    g' := g.(nodes := nodes, hr := Resolver(ip, sys, short, g.hr.alias_), shortCount := shortCount);
  }

  method IndexDevices(devices: seq<Device>, staleBefore: Option<int>) returns (g: Graph)
    ensures g == DropAmbiguous(AddDevices(EMPTY, devices, staleBefore))
  {
    g := EMPTY;
    for i := 0 to |devices|
      invariant AddDevices(g, devices[i..], staleBefore) == AddDevices(EMPTY, devices, staleBefore)
    {
      g := IndexDevice(g, devices[i], staleBefore);
      assert devices[i..][1..] == devices[i + 1..];
    }
    var short := map sn | sn in g.hr.short && !(sn in g.shortCount && g.shortCount[sn] > 1) :: g.hr.short[sn];
    g := g.(hr := g.hr.(short := short));
  }

  method IndexAliases(g: Graph, aliases: seq<AssetAlias>, isIP: string -> bool) returns (g': Graph)
    ensures g' == AddAliases(g, aliases, isIP)
  {
    var alias_ := g.hr.alias_;
    for i := 0 to |aliases|
      invariant AddAliases(g.(hr := g.hr.(alias_ := alias_)), aliases[i..], isIP) == AddAliases(g, aliases, isIP)
    {
      assert aliases[i..][1..] == aliases[i + 1..];
      var target := Or(Lookup(g.hr.ip, aliases[i].identifier), Lookup(g.hr.sys, NormalizeHost(aliases[i].identifier)));
      if target.Some? {
        alias_ := IndexNames(g, alias_, aliases[i].aliases, target.value, isIP);
      }
    }
    g' := g.(hr := g.hr.(alias_ := alias_));
  }

  // The inner loop over the names of one asset.
  method IndexNames(ghost g: Graph, table: map<string, string>, names: seq<string>, target: string, isIP: string -> bool)
    returns (alias_: map<string, string>)
    ensures g.(hr := g.hr.(alias_ := alias_)) == AddAliasNames(g.(hr := g.hr.(alias_ := table)), names, target, isIP)
  {
    alias_ := table;
    for i := 0 to |names|
      invariant AddAliasNames(g.(hr := g.hr.(alias_ := alias_)), names[i..], target, isIP)
             == AddAliasNames(g.(hr := g.hr.(alias_ := table)), names, target, isIP)
    {
      assert names[i..][1..] == names[i + 1..];
      var na := NormalizeHost(names[i]);
      if na != "" {
        alias_ := alias_[na := target];
        if !isIP(names[i]) { alias_ := alias_[ShortName(na) := target]; }
      }
    }
  }

  function Telemetered(g: Graph, nodes: map<string, Node>, sys: map<string, string>): Graph {
    g.(nodes := nodes, hr := g.hr.(sys := sys))
  }

  method FoldAlertHost(g: Graph, h: Host, isIP: string -> bool) returns (nodes: map<string, Node>, sys: map<string, string>)
    requires ResolverOk(g) && h.name != ""
    ensures Telemetered(g, nodes, sys) == FoldHost(g, h, isIP)
  {
    nodes, sys := g.nodes, g.hr.sys;
    var id := Resolve(g.hr, h.name, isIP);
    ResolveFindsANode(g, h.name, isIP);
    if id.Some? {
      var n := nodes[id.value];
      n := n.(origin := Both, unresolved := n.unresolved + h.unresolved);
      if SeverityRank(h.severity) > SeverityRank(n.severity) { n := n.(severity := h.severity); }
      nodes := nodes[id.value := n];
    } else {
      nodes := nodes[h.name := Node(h.name, h.name, "host", "", Telemetry, h.severity, h.unresolved, false, None)];
      sys := sys[NormalizeHost(h.name) := h.name];
    }
  }

  method FoldAlertHosts(g: Graph, hosts: seq<Host>, isIP: string -> bool) returns (g': Graph)
    requires ResolverOk(g) && Known(g)
    ensures g' == FoldHosts(g, hosts, isIP)
  {
    g' := g;
    for i := 0 to |hosts|
      invariant FoldHosts(g', hosts[i..], isIP) == FoldHosts(g, hosts, isIP)
      invariant ResolverOk(g') && Known(g')
    {
      assert hosts[i..][1..] == hosts[i + 1..];
      if hosts[i].name != "" {
        FoldHostEffect(g', hosts[i], isIP);
        var nodes, sys := FoldAlertHost(g', hosts[i], isIP);
        g' := Telemetered(g', nodes, sys);
      }
    }
  }

  method LinkNeighbors(g: Graph, links: seq<LinkIn>, isIP: string -> bool) returns (nodes: map<string, Node>, edges: seq<Edge>)
    ensures nodes == AddLinks(g, links, isIP).nodes && edges == AddLinks(g, links, isIP).edges
  {
    var ip, edgeSeen := g.hr.ip, g.edgeSeen;
    nodes, edges := g.nodes, g.edges;
    for i := 0 to |links|
      invariant AddLinks(Linking(g, nodes, ip, edgeSeen, edges), links[i..], isIP) == AddLinks(g, links, isIP)
    {
      ghost var before := Linking(g, nodes, ip, edgeSeen, edges);
      assert links[i..][1..] == links[i + 1..];
      var l := links[i];
      var src := l.localIP;
      if src !in nodes {
        nodes := nodes[src := Bare(src, src, "network_device", Discovery)];
        ip := ip[src := src];
      }
      assert Linking(g, nodes, ip, edgeSeen, edges) == AddSource(before, l);
      var tgt;
      var id := Resolve(g.hr.(ip := ip), l.remoteSysName, isIP);
      if id.Some? {
        tgt := id.value;
      } else {
        tgt := "nbr:" + (if l.remoteChassis == "" then l.remoteSysName else l.remoteChassis);
        if tgt !in nodes {
          nodes := nodes[tgt := Bare(tgt, if l.remoteSysName == "" then l.remoteChassis else l.remoteSysName,
                                     "neighbor", Neighbor)];
        }
      }
      var key := src + "|" + tgt + "|" + l.protocol;
      if key !in edgeSeen && src != tgt {
        edgeSeen := edgeSeen + {key};
        edges := edges + [Edge(src, tgt, l.protocol, l.localPort, l.remotePort)];
      }
      assert Linking(g, nodes, ip, edgeSeen, edges) == AddLink(before, l, isIP);
    }
  }

  function Linking(g: Graph, nodes: map<string, Node>, ip: map<string, string>, edgeSeen: set<string>, edges: seq<Edge>): Graph {
    Graph(nodes, g.hr.(ip := ip), g.shortCount, edgeSeen, edges)
  }

  method BuildTopologyGraph(devices: seq<Device>, links: seq<LinkIn>, hosts: seq<Host>, aliases: seq<AssetAlias>,
                            staleBefore: Option<int>, isIP: string -> bool)
    returns (nodeList: seq<Node>, edgeList: seq<Edge>)
    ensures IsNodeList(Merged(devices, links, hosts, aliases, staleBefore, isIP).nodes, nodeList)
    ensures IsEdgeList(Merged(devices, links, hosts, aliases, staleBefore, isIP).edges, edgeList)
  {
    var g := IndexDevices(devices, staleBefore);
    g := IndexAliases(g, aliases, isIP);
    InventoryOk(devices, aliases, staleBefore, isIP);
    g := FoldAlertHosts(g, hosts, isIP);
    var nodes, edges := LinkNeighbors(g, links, isIP);
    MergedGraphIsSound(devices, links, hosts, aliases, staleBefore, isIP);
    nodeList := ListNodes(nodes);
    edgeList := ListEdges(edges);
  }
}
