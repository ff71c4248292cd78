/** Storing the physical links an agent reports: the only way links come into the topology graph. */
module LinkIngest {
  import opened Wrappers
  import opened Topology
  import TopologyPlaces

  // One row for each local address, local port and remote chassis.
  type Table = map<(string, string, string), LinkIn>

  function IdentityOf(l: LinkIn): (string, string, string) { (l.localIP, l.localPort, l.remoteChassis) }

  // A report without a valid local address is ignored, and any protocol but CDP is taken for LLDP.
  function Accepted(l: LinkIn, isIP: string -> bool): Option<LinkIn> {
    if !isIP(l.localIP) then None else Some(l.(protocol := if l.protocol != "cdp" then "lldp" else l.protocol))
  }

  function Store(table: Table, l: LinkIn, isIP: string -> bool): Table {
    var row := Accepted(l, isIP);
    if row.None? then table else table[IdentityOf(l) := row.value]
  }

  function StoreAll(table: Table, batch: seq<LinkIn>, isIP: string -> bool): Table
    decreases |batch|
  {
    if batch == [] then table else StoreAll(Store(table, batch[0], isIP), batch[1..], isIP)
  }

  class Links {
    var rows: Table

    method Ingest(batch: seq<LinkIn>, isIP: string -> bool)
      modifies this
      ensures rows == StoreAll(old(rows), batch, isIP)
    {
      for i := 0 to |batch|
        invariant StoreAll(rows, batch[i..], isIP) == StoreAll(old(rows), batch, isIP)
      {
        var l := batch[i];
        assert batch[i..][1..] == batch[i + 1..];
        if isIP(l.localIP) {
          var proto := l.protocol;
          if proto != "cdp" { proto := "lldp"; }
          rows := rows[(l.localIP, l.localPort, l.remoteChassis) :=
                       LinkIn(l.localIP, l.localPort, l.remoteSysName, l.remoteChassis, l.remotePort, proto)];
        }
      }
    }
  }

  // ----- what the table holds -----

  function LatestOf(batch: seq<LinkIn>, key: (string, string, string), isIP: string -> bool): Option<LinkIn> {
    if batch == [] then None
    else
      var later := LatestOf(batch[1..], key, isIP);
      if later.Some? then later else if IdentityOf(batch[0]) == key then Accepted(batch[0], isIP) else None
  }

  /** Under an identity the table holds the latest accepted report of it, whatever was stored before. */
  lemma {:induction false} LatestReportWins(table: Table, batch: seq<LinkIn>, key: (string, string, string), isIP: string -> bool)
    ensures var t, latest := StoreAll(table, batch, isIP), LatestOf(batch, key, isIP);
            (key in t <==> latest.Some? || key in table) && (key in t ==> t[key] == if latest.Some? then latest.value else table[key])
    decreases |batch|
  {
    if batch != [] {
      LatestReportWins(Store(table, batch[0], isIP), batch[1..], key, isIP);
    }
  }

  ghost predicate RowsOk(table: Table, isIP: string -> bool) {
    forall key | key in table ::
      IdentityOf(table[key]) == key && isIP(table[key].localIP) && (table[key].protocol == "cdp" || table[key].protocol == "lldp")
  }

  lemma {:induction false} StoreKeepsRowsOk(table: Table, batch: seq<LinkIn>, isIP: string -> bool)
    requires RowsOk(table, isIP)
    ensures RowsOk(StoreAll(table, batch, isIP), isIP)
    decreases |batch|
  {
    if batch != [] { StoreKeepsRowsOk(Store(table, batch[0], isIP), batch[1..], isIP); }
  }

  // The same neighbor on the same local port.
  predicate SamePlace(l: LinkIn, m: LinkIn) {
    l.localIP == m.localIP && l.localPort == m.localPort && l.remoteChassis == m.remoteChassis
  }

  lemma {:induction false} LatestIsOfTheBatch(batch: seq<LinkIn>, key: (string, string, string), isIP: string -> bool)
    ensures LatestOf(batch, key, isIP).Some? <==> exists l :: l in batch && IdentityOf(l) == key && isIP(l.localIP)
    ensures LatestOf(batch, key, isIP).Some? ==>
      exists l :: l in batch && IdentityOf(l) == key && Accepted(l, isIP) == LatestOf(batch, key, isIP)
  {
    if batch != [] {
      LatestIsOfTheBatch(batch[1..], key, isIP);
      assert forall l :: l in batch <==> l == batch[0] || l in batch[1..];
    }
  }

  /** Every report with a valid local address has its one row, for that neighbor on that port, and every row is what
      such a report became. */
  lemma OneRowForEachPlace(batch: seq<LinkIn>, isIP: string -> bool)
    ensures var rows := StoreAll(map[], batch, isIP).Values;
      && (forall l | l in batch && isIP(l.localIP) :: exists m :: m in rows && SamePlace(l, m))
      && (forall l, m | l in rows && m in rows && SamePlace(l, m) :: l == m)
      && (forall m | m in rows :: exists l :: l in batch && Accepted(l, isIP) == Some(m))
  {
    var t := StoreAll(map[], batch, isIP);
    StoreKeepsRowsOk(map[], batch, isIP);
    forall l | l in batch && isIP(l.localIP) ensures exists m :: m in t.Values && SamePlace(l, m) {
      LatestReportWins(map[], batch, IdentityOf(l), isIP);
      LatestIsOfTheBatch(batch, IdentityOf(l), isIP);
      assert t[IdentityOf(l)] in t.Values && SamePlace(l, t[IdentityOf(l)]);
    }
    forall m | m in t.Values ensures exists l :: l in batch && Accepted(l, isIP) == Some(m) {
      var key :| key in t && t[key] == m;
      LatestReportWins(map[], batch, key, isIP);
      LatestIsOfTheBatch(batch, key, isIP);
    }
  }

  // ----- and what the graph makes of it -----

  // Some rows of the table, in any order.
  ghost predicate ReadFrom(ls: seq<LinkIn>, table: Table) { forall l | l in ls :: l in table.Values }

  // What parses as an IP address contains no bar, and does not read like the node of an unknown neighbour.
  ghost predicate AddressesBarFree(isIP: string -> bool) { forall s :: isIP(s) ==> NoBar(s) && !("nbr:" <= s) }

  lemma StoredLinksAreBarFree(ls: seq<LinkIn>, table: Table, isIP: string -> bool)
    requires RowsOk(table, isIP) && ReadFrom(ls, table) && AddressesBarFree(isIP)
    ensures LinksBarFree(ls)
  {
    forall i | 0 <= i < |ls| ensures NoBar(ls[i].localIP) && NoBar(ls[i].protocol) {
      assert ls[i] in table.Values;
    }
  }

  /** Whatever agents report, no stored adjacency is missing from the graph: every stored link between two
      different ends has its edge. */
  lemma EveryStoredLinkHasItsEdge(batch: seq<LinkIn>, ls: seq<LinkIn>, k: nat, ds: seq<Device>, hs: seq<Host>,
                                  assets: seq<AssetAlias>, staleBefore: Option<int>, isIP: string -> bool)
    requires AddressesBarFree(isIP) && ReadFrom(ls, StoreAll(map[], batch, isIP)) && k < |ls|
    ensures var folded := FoldHosts(Inventory(ds, assets, staleBefore, isIP), hs, isIP);
            var tgt := LinkTarget(AddLinks(folded, ls[..k], isIP), ls[k], isIP);
            ls[k].localIP == tgt || HasEdge(Merged(ds, ls, hs, assets, staleBefore, isIP), ls[k].localIP, tgt, ls[k].protocol)
  {
    StoreKeepsRowsOk(map[], batch, isIP);
    StoredLinksAreBarFree(ls, StoreAll(map[], batch, isIP), isIP);
    FoldedHasNoEdges(ds, hs, assets, staleBefore, isIP);
    EveryLinkHasItsEdge(FoldHosts(Inventory(ds, assets, staleBefore, isIP), hs, isIP), ls, isIP, k);
  }

  /** A stored link joins its local address to its far end, as the inputs alone say what that is. */
  lemma StoredLinksReachTheirFarEnd(batch: seq<LinkIn>, k: TopologyPlaces.Known, hs: seq<Host>, ls: seq<LinkIn>, i: nat, id: string)
    requires AddressesBarFree(k.isIP) && ReadFrom(ls, StoreAll(map[], batch, k.isIP)) && i < |ls|
    requires TopologyPlaces.FarEnd(k, hs, ls, i, id) && id != ls[i].localIP
    ensures HasEdge(Merged(k.ds, ls, hs, k.assets, k.staleBefore, k.isIP), ls[i].localIP, id, ls[i].protocol)
  {
    StoredBase(batch, ls, k.isIP);
    TopologyPlaces.LinksReachTheirFarEnd(k, hs, ls, i, id);
  }

  /** In particular two devices are joined when the remote name of the one's link leads to the other. */
  lemma StoredNeighborsAreJoined(batch: seq<LinkIn>, k: TopologyPlaces.Known, hs: seq<Host>, ls: seq<LinkIn>, i: nat, d: string)
    requires AddressesBarFree(k.isIP) && ReadFrom(ls, StoreAll(map[], batch, k.isIP)) && i < |ls|
    requires k.isIP(ls[i].remoteSysName) ==> TopologyPlaces.NoSource(k, ls, i)
    requires TopologyPlaces.LeadsTo(k, ls[i].remoteSysName, d) && d != ls[i].localIP && TopologyPlaces.NoLiteral(k, hs, ls[i].remoteSysName)
    ensures HasEdge(Merged(k.ds, ls, hs, k.assets, k.staleBefore, k.isIP), ls[i].localIP, d, ls[i].protocol)
  {
    StoredBase(batch, ls, k.isIP);
    TopologyPlaces.KnownNeighborsAreJoined(k, hs, ls, i, d);
  }

  lemma StoredBase(batch: seq<LinkIn>, ls: seq<LinkIn>, isIP: string -> bool)
    requires AddressesBarFree(isIP) && ReadFrom(ls, StoreAll(map[], batch, isIP))
    ensures LinksBarFree(ls) && TopologyPlaces.SourcesOk(ls) && forall j | 0 <= j < |ls| :: isIP(ls[j].localIP)
  {
    StoreKeepsRowsOk(map[], batch, isIP);
    StoredLinksAreBarFree(ls, StoreAll(map[], batch, isIP), isIP);
    forall j | 0 <= j < |ls| ensures isIP(ls[j].localIP) { assert ls[j] in ls; }
  }

  /** What an accepted report becomes: itself, with CDP kept and every other protocol taken for LLDP. */
  lemma AcceptedReports(l: LinkIn, isIP: string -> bool)
    ensures Accepted(l, isIP).Some? <==> isIP(l.localIP)
    ensures Accepted(l, isIP).Some? ==>
      var row := Accepted(l, isIP).value;
      && row.localIP == l.localIP && row.localPort == l.localPort && row.remoteSysName == l.remoteSysName
      && row.remoteChassis == l.remoteChassis && row.remotePort == l.remotePort
      && (row.protocol == "cdp" <==> l.protocol == "cdp") && (row.protocol == "lldp" <==> l.protocol != "cdp")
  {
    assert "cdp"[0] != "lldp"[0];
  }

  /** And the order of the edge list is determined exactly when no two of the stored links stand for the same two
      different ends over different protocols. */
  lemma StoredLinksDetermineTheOrder(batch: seq<LinkIn>, ls: seq<LinkIn>, ds: seq<Device>, hs: seq<Host>,
                                     assets: seq<AssetAlias>, staleBefore: Option<int>, isIP: string -> bool)
    requires AddressesBarFree(isIP) && ReadFrom(ls, StoreAll(map[], batch, isIP))
    ensures var folded, edges := FoldHosts(Inventory(ds, assets, staleBefore, isIP), hs, isIP), Merged(ds, ls, hs, assets, staleBefore, isIP).edges;
            OrderDetermined(edges) <==> !SameEndsTwoProtocols(folded, ls, isIP)
  {
    StoreKeepsRowsOk(map[], batch, isIP);
    StoredLinksAreBarFree(ls, StoreAll(map[], batch, isIP), isIP);
    FoldedHasNoEdges(ds, hs, assets, staleBefore, isIP);
    LinksDetermineTheOrder(FoldHosts(Inventory(ds, assets, staleBefore, isIP), hs, isIP), ls, isIP);
  }

  /** The builder does yield edges that only the protocol tells apart: one neighbour seen over LLDP on one port
      and over CDP on another. The order of the two is then undetermined. */
  lemma StoredTwins(a: string, c: string, isIP: string -> bool)
    requires isIP(a) && c != "" && a != "nbr:" + c
    ensures var first, second := LinkIn(a, "1", "", c, "", "lldp"), LinkIn(a, "2", "", c, "", "cdp");
            && ReadFrom([first, second], StoreAll(map[], [first, second], isIP))
            && Twins(AddLinks(EMPTY, [first, second], isIP).edges)
  {
    var first, second := LinkIn(a, "1", "", c, "", "lldp"), LinkIn(a, "2", "", c, "", "cdp");
    assert [first, second][1..] == [second] && [second][1..] == [];
    assert StoreAll(map[], [first, second], isIP) == StoreAll(Store(map[], first, isIP), [second], isIP);
    assert "1" != "2" && IdentityOf(first) != IdentityOf(second);
    var t1 := Store(map[], first, isIP);
    var t2 := Store(t1, second, isIP);
    assert StoreAll(t1, [second], isIP) == StoreAll(t2, [], isIP) == t2;
    assert t2[IdentityOf(first)] == first && t2[IdentityOf(second)] == second;
    TwoProtocolsAreTwins(EMPTY, first, second, isIP);
  }
}
