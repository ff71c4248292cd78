/** The asset list: operators' manual records merged with the devices the network sweep discovered. */
module Assets {
  import opened Wrappers
  import Ordering
  import Text

  // A list that was never given is None; an empty list is a value.
  datatype Asset = Asset(identifier: string, name: string, assetType: string, vendor: string, criticality: string,
                         owner: string, location: string, tags: Option<seq<string>>, notes: string,
                         aliases: Option<seq<string>>)

  datatype Device = Device(ip: string, sysName: string, vendor: string, deviceType: string, lastSeen: int)

  datatype View = View(identifier: string, name: string, assetType: string, vendor: string, criticality: string,
                       owner: string, location: string, tags: seq<string>, notes: string, aliases: seq<string>,
                       managed: bool, discovered: bool, sysName: string, lastSeen: Option<int>)

  function CriticalityRank(c: string): int {
    match c
    case "critical" => 4
    case "high" => 3
    case "medium" => 2
    case "low" => 1
    case _ => 2
  }

  // ----- the merge as the program does it -----

  function ApplyOverlay(v: View, a: Asset): View {
    v.(name := if a.name != "" then a.name else v.name,
       assetType := if a.assetType != "" then a.assetType else v.assetType,
       vendor := if a.vendor != "" then a.vendor else v.vendor,
       criticality := if a.criticality != "" then a.criticality else v.criticality,
       owner := a.owner,
       location := a.location,
       tags := if a.tags.Some? then a.tags.value else v.tags,
       aliases := if a.aliases.Some? then a.aliases.value else v.aliases,
       notes := a.notes)
  }

  function DeviceView(d: Device): View {
    View(d.ip, if d.sysName == "" then d.ip else d.sysName, d.deviceType, d.vendor, "medium", "", "", [], "", [],
         false, true, d.sysName, Some(d.lastSeen))
  }

  function DeviceRow(d: Device, assets: seq<Asset>): View {
    match AssetOf(assets, d.ip)
    case None => DeviceView(d)
    case Some(a) => ApplyOverlay(DeviceView(d), a).(managed := true)
  }

  function ManualRow(a: Asset): View {
    ApplyOverlay(View(a.identifier, "", "", "", "medium", "", "", [], "", [], true, false, "", None), a)
  }

  function DeviceRows(devices: seq<Device>, assets: seq<Asset>): seq<View> {
    seq(|devices|, i requires 0 <= i < |devices| => DeviceRow(devices[i], assets))
  }

  function ManualRows(assets: seq<Asset>, devices: seq<Device>): seq<View> {
    if assets == [] then []
    else
      var rows, a := ManualRows(assets[..|assets| - 1], devices), assets[|assets| - 1];
      if DeviceOf(devices, a.identifier).None? then rows + [ManualRow(a)] else rows
  }

  // The records by identifier; a later one replaces an earlier.
  function AssetOf(assets: seq<Asset>, id: string): Option<Asset> {
    if assets == [] then None
    else if assets[|assets| - 1].identifier == id then Some(assets[|assets| - 1])
    else AssetOf(assets[..|assets| - 1], id)
  }

  function DeviceOf(devices: seq<Device>, ip: string): Option<Device> {
    if devices == [] then None
    else if devices[|devices| - 1].ip == ip then Some(devices[|devices| - 1])
    else DeviceOf(devices[..|devices| - 1], ip)
  }

  // ----- what a row has to say -----

  function Known(manual: string, found: string): string { if manual != "" then manual else found }

  // The row of an address or identifier, field by field: discovery facts, and over them what the operator filled in.
  ghost predicate IsRow(v: View, assets: seq<Asset>, devices: seq<Device>) {
    var a, d := AssetOf(assets, v.identifier), DeviceOf(devices, v.identifier);
    && (a.Some? || d.Some?)
    && v.managed == a.Some? && v.discovered == d.Some?
    && v.sysName == (if d.Some? then d.value.sysName else "")
    && v.lastSeen == (if d.Some? then Some(d.value.lastSeen) else None)
    && v.name == Known(if a.Some? then a.value.name else "",
                       if d.Some? then Known(d.value.sysName, d.value.ip) else "")
    && v.assetType == Known(if a.Some? then a.value.assetType else "", if d.Some? then d.value.deviceType else "")
    && v.vendor == Known(if a.Some? then a.value.vendor else "", if d.Some? then d.value.vendor else "")
    && v.criticality == Known(if a.Some? then a.value.criticality else "", "medium")
    && v.owner == (if a.Some? then a.value.owner else "")
    && v.location == (if a.Some? then a.value.location else "")
    && v.notes == (if a.Some? then a.value.notes else "")
    && v.tags == (if a.Some? && a.value.tags.Some? then a.value.tags.value else [])
    && v.aliases == (if a.Some? && a.value.aliases.Some? then a.value.aliases.value else [])
  }

  // What the two tables' keys guarantee.
  ghost predicate Unique(assets: seq<Asset>, devices: seq<Device>) {
    && (forall i, j | 0 <= i < j < |assets| :: assets[i].identifier != assets[j].identifier)
    && (forall i, j | 0 <= i < j < |devices| :: devices[i].ip != devices[j].ip)
  }

  // Most critical first, then by identifier.
  predicate ViewLess(v: View, w: View) {
    var rv, rw := CriticalityRank(v.criticality), CriticalityRank(w.criticality);
    if rv != rw then rv > rw else Text.Less(v.identifier, w.identifier)
  }

  lemma ViewLessIsStrict()
    ensures Ordering.StrictOrder(ViewLess)
  {
    forall v, w ensures !(ViewLess(v, w) && ViewLess(w, v)) {
      Text.LessIsTotal(v.identifier, w.identifier);
    }
    forall v, w, u | ViewLess(v, w) && ViewLess(w, u) ensures ViewLess(v, u) {
      if CriticalityRank(v.criticality) == CriticalityRank(w.criticality) == CriticalityRank(u.criticality) {
        Text.LessIsTransitive(v.identifier, w.identifier, u.identifier);
      }
    }
  }

  // ----- looking a record up -----

  lemma {:induction false} AssetOfIsTheRecord(assets: seq<Asset>, id: string)
    requires forall i, j | 0 <= i < j < |assets| :: assets[i].identifier != assets[j].identifier
    ensures AssetOf(assets, id).None? <==> forall a | a in assets :: a.identifier != id
    ensures forall a :: AssetOf(assets, id) == Some(a) <==> a in assets && a.identifier == id
  {
    if assets != [] {
      var init, last := assets[..|assets| - 1], assets[|assets| - 1];
      AssetOfIsTheRecord(init, id);
      assert assets == init + [last];
      assert forall a :: a in assets <==> a in init || a == last;
    }
  }

  lemma {:induction false} DeviceOfIsTheRecord(devices: seq<Device>, ip: string)
    requires forall i, j | 0 <= i < j < |devices| :: devices[i].ip != devices[j].ip
    ensures DeviceOf(devices, ip).None? <==> forall d | d in devices :: d.ip != ip
    ensures forall d :: DeviceOf(devices, ip) == Some(d) <==> d in devices && d.ip == ip
  {
    if devices != [] {
      var init, last := devices[..|devices| - 1], devices[|devices| - 1];
      DeviceOfIsTheRecord(init, ip);
      assert devices == init + [last];
      assert forall d :: d in devices <==> d in init || d == last;
    }
  }

  // ----- one row per member of the union -----

  lemma DeviceRowIsRow(d: Device, assets: seq<Asset>, devices: seq<Device>)
    requires Unique(assets, devices) && d in devices
    ensures DeviceRow(d, assets).identifier == d.ip && IsRow(DeviceRow(d, assets), assets, devices)
  {
    DeviceOfIsTheRecord(devices, d.ip);
    AssetOfIsTheRecord(assets, d.ip);
  }

  lemma ManualRowIsRow(a: Asset, assets: seq<Asset>, devices: seq<Device>)
    requires Unique(assets, devices) && a in assets && DeviceOf(devices, a.identifier).None?
    ensures ManualRow(a).identifier == a.identifier && IsRow(ManualRow(a), assets, devices)
  {
    AssetOfIsTheRecord(assets, a.identifier);
  }

  lemma RowIsDetermined(v: View, w: View, assets: seq<Asset>, devices: seq<Device>)
    requires IsRow(v, assets, devices) && IsRow(w, assets, devices) && v.identifier == w.identifier
    ensures v == w
  {
  }

  ghost predicate DistinctIdentifiers(rows: seq<View>) {
    forall i, j | 0 <= i < j < |rows| :: rows[i].identifier != rows[j].identifier
  }

  lemma {:induction false} ManualRowsAre(assets: seq<Asset>, devices: seq<Device>)
    requires forall i, j | 0 <= i < j < |assets| :: assets[i].identifier != assets[j].identifier
    ensures forall v :: v in ManualRows(assets, devices) <==>
              exists a :: a in assets && DeviceOf(devices, a.identifier).None? && v == ManualRow(a)
    ensures DistinctIdentifiers(ManualRows(assets, devices))
  {
    if assets != [] {
      var init, last := assets[..|assets| - 1], assets[|assets| - 1];
      ManualRowsAre(init, devices);
      assert assets == init + [last];
      assert forall a :: a in assets <==> a in init || a == last;
      assert ManualRow(last).identifier == last.identifier;
      forall v | v in ManualRows(init, devices) ensures v.identifier != last.identifier {
        var a :| a in init && DeviceOf(devices, a.identifier).None? && v == ManualRow(a);
        assert v.identifier == a.identifier;
      }
      var before, rows := ManualRows(init, devices), ManualRows(assets, devices);
      forall i | 0 <= i < |before| ensures before[i].identifier != last.identifier {
        assert before[i] in ManualRows(init, devices);
      }
      assert rows == before || rows == before + [ManualRow(last)];
    }
  }

  function Rows(assets: seq<Asset>, devices: seq<Device>): seq<View> {
    DeviceRows(devices, assets) + ManualRows(assets, devices)
  }

  lemma EveryRowIsARow(v: View, assets: seq<Asset>, devices: seq<Device>)
    requires Unique(assets, devices) && v in Rows(assets, devices)
    ensures IsRow(v, assets, devices)
  {
    ManualRowsAre(assets, devices);
    if v in DeviceRows(devices, assets) {
      var i :| 0 <= i < |devices| && v == DeviceRow(devices[i], assets);
      DeviceRowIsRow(devices[i], assets, devices);
    } else {
      var a :| a in assets && DeviceOf(devices, a.identifier).None? && v == ManualRow(a);
      ManualRowIsRow(a, assets, devices);
    }
  }

  lemma EveryMemberHasItsRow(v: View, assets: seq<Asset>, devices: seq<Device>)
    requires Unique(assets, devices) && IsRow(v, assets, devices)
    ensures v in Rows(assets, devices)
  {
    ManualRowsAre(assets, devices);
    AssetOfIsTheRecord(assets, v.identifier);
    DeviceOfIsTheRecord(devices, v.identifier);
    var w: View;
    match DeviceOf(devices, v.identifier)
    case Some(d) =>
      var i :| 0 <= i < |devices| && devices[i] == d;
      DeviceRowIsRow(d, assets, devices);
      w := DeviceRows(devices, assets)[i];
      RowIsDetermined(v, w, assets, devices);
    case None =>
      var a := AssetOf(assets, v.identifier).value;
      ManualRowIsRow(a, assets, devices);
      w := ManualRow(a);
      RowIsDetermined(v, w, assets, devices);
  }

  lemma RowsHaveDistinctIdentifiers(assets: seq<Asset>, devices: seq<Device>)
    requires Unique(assets, devices)
    ensures DistinctIdentifiers(Rows(assets, devices))
  {
    var rows, n := Rows(assets, devices), |devices|;
    ManualRowsAre(assets, devices);
    forall i | 0 <= i < n ensures rows[i].identifier == devices[i].ip {
      DeviceRowIsRow(devices[i], assets, devices);
    }
    forall j | n <= j < |rows| ensures DeviceOf(devices, rows[j].identifier).None? {
      assert rows[j] in ManualRows(assets, devices);
      var a :| a in assets && DeviceOf(devices, a.identifier).None? && rows[j] == ManualRow(a);
      ManualRowIsRow(a, assets, devices);
    }
    forall i, j | 0 <= i < j < |rows| ensures rows[i].identifier != rows[j].identifier {
      if i < n <= j {
        DeviceOfIsTheRecord(devices, rows[j].identifier);
        assert devices[i] in devices;
      }
    }
  }

  /** With the two tables' keys unique, the merge holds exactly one row for every member of their union, and
      that row is the merged one. */
  lemma OneRowPerMember(assets: seq<Asset>, devices: seq<Device>)
    requires Unique(assets, devices)
    ensures forall v :: v in Rows(assets, devices) <==> IsRow(v, assets, devices)
    ensures Ordering.Comparable(ViewLess, Rows(assets, devices))
  {
    forall v ensures v in Rows(assets, devices) <==> IsRow(v, assets, devices) {
      if v in Rows(assets, devices) { EveryRowIsARow(v, assets, devices); }
      if IsRow(v, assets, devices) { EveryMemberHasItsRow(v, assets, devices); }
    }
    var rows := Rows(assets, devices);
    RowsHaveDistinctIdentifiers(assets, devices);
    forall i, j | 0 <= i < j < |rows| ensures ViewLess(rows[i], rows[j]) || ViewLess(rows[j], rows[i]) {
      Text.LessIsTotal(rows[i].identifier, rows[j].identifier);
    }
  }

  // ----- the merge, as a method -----

  // The list the merge has to produce.
  ghost predicate Merges(list: seq<View>, assets: seq<Asset>, devices: seq<Device>) {
    && Ordering.Sorted(ViewLess, list)
    && forall v :: v in list <==> IsRow(v, assets, devices)
  }

  // The identifiers of devices an operator also manages.
  ghost predicate SeenAre(seen: set<string>, assets: seq<Asset>, devices: seq<Device>) {
    forall id :: id in seen <==> DeviceOf(devices, id).Some? && AssetOf(assets, id).Some?
  }

  lemma {:induction false} RecordsAreFound(assets: seq<Asset>, a: Asset)
    requires a in assets
    ensures AssetOf(assets, a.identifier).Some?
  {
    if assets[|assets| - 1].identifier != a.identifier {
      assert a in assets[..|assets| - 1];
      RecordsAreFound(assets[..|assets| - 1], a);
    }
  }

  method IndexAssets(assets: seq<Asset>) returns (byID: map<string, Asset>)
    ensures forall id :: (id in byID <==> AssetOf(assets, id).Some?) && (id in byID ==> AssetOf(assets, id) == Some(byID[id]))
  {
    byID := map[];
    for i := 0 to |assets|
      invariant forall id :: (id in byID <==> AssetOf(assets[..i], id).Some?) && (id in byID ==> AssetOf(assets[..i], id) == Some(byID[id]))
    {
      assert assets[..i + 1][..i] == assets[..i];
      byID := byID[assets[i].identifier := assets[i]];
    }
    assert assets[..|assets|] == assets;
  }

  method ListDevices(assets: seq<Asset>, devices: seq<Device>) returns (rows: seq<View>, seen: set<string>)
    ensures rows == DeviceRows(devices, assets)
    ensures SeenAre(seen, assets, devices)
  {
    var byID := IndexAssets(assets);
    rows, seen := [], {};
    for i := 0 to |devices|
      invariant rows == DeviceRows(devices[..i], assets)
      invariant SeenAre(seen, assets, devices[..i])
    {
      assert devices[..i + 1][..i] == devices[..i];
      var v := DeviceView(devices[i]);
      if devices[i].ip in byID {
        v := ApplyOverlay(v, byID[devices[i].ip]).(managed := true);
        seen := seen + {devices[i].ip};
      }
      rows := rows + [v];
    }
    assert devices[..|devices|] == devices;
  }

  method MergeAssets(assets: seq<Asset>, devices: seq<Device>) returns (list: seq<View>)
    ensures multiset(list) == multiset(Rows(assets, devices))
    ensures Unique(assets, devices) ==> Merges(list, assets, devices)
  {
    var rows, seen := ListDevices(assets, devices);
    for i := 0 to |assets|
      invariant rows == DeviceRows(devices, assets) + ManualRows(assets[..i], devices)
    {
      assert assets[..i + 1][..i] == assets[..i];
      RecordsAreFound(assets, assets[i]);
      if assets[i].identifier !in seen {
        rows := rows + [ManualRow(assets[i])];
      }
    }
    assert assets[..|assets|] == assets;
    list := Ordering.Sort(ViewLess, rows);
    Ordering.SortPermutes(ViewLess, rows);
    if Unique(assets, devices) {
      ViewLessIsStrict();
      OneRowPerMember(assets, devices);
      Ordering.SortSorts(ViewLess, rows);
      assert forall v :: v in list <==> v in multiset(list);
      assert forall v :: v in rows <==> v in multiset(rows);
    }
  }

  // Rows of one business criticality come in dictionary order of their identifiers, and what is neither
  // "critical" nor "high" nor "low" counts as "medium".
  ghost predicate MayPrecede(v: View, w: View) {
    && (w.criticality == "critical" ==> v.criticality == "critical")
    && (w.criticality == "high" ==> v.criticality in {"critical", "high"})
    && (v.criticality == "low" ==> w.criticality == "low")
    && (v.criticality == w.criticality || !(Labelled(v) || Labelled(w)) ==> Text.Dictionary(v.identifier, w.identifier))
  }

  ghost predicate Labelled(v: View) { v.criticality in {"critical", "high", "low"} }

  /** The merged list is read from the most critical row down. */
  lemma MostCriticalFirst(list: seq<View>, assets: seq<Asset>, devices: seq<Device>, i: nat, j: nat)
    requires Merges(list, assets, devices) && i < j < |list|
    ensures MayPrecede(list[i], list[j])
  {
    var v, w := list[i], list[j];
    assert ViewLess(v, w);
    Text.LessIsLexicographic(v.identifier, w.identifier);
  }

  // ----- the list does not depend on the order of its inputs -----

  lemma PermutedLookups(assets: seq<Asset>, assets': seq<Asset>, devices: seq<Device>, devices': seq<Device>, id: string)
    requires Unique(assets, devices) && Unique(assets', devices')
    requires multiset(assets) == multiset(assets') && multiset(devices) == multiset(devices')
    ensures AssetOf(assets, id) == AssetOf(assets', id) && DeviceOf(devices, id) == DeviceOf(devices', id)
  {
    AssetOfIsTheRecord(assets, id);
    AssetOfIsTheRecord(assets', id);
    DeviceOfIsTheRecord(devices, id);
    DeviceOfIsTheRecord(devices', id);
    assert forall a :: a in assets <==> a in multiset(assets);
    assert forall a :: a in assets' <==> a in multiset(assets');
    assert forall d :: d in devices <==> d in multiset(devices);
    assert forall d :: d in devices' <==> d in multiset(devices');
    if AssetOf(assets, id).Some? { assert AssetOf(assets', id) == AssetOf(assets, id); }
    if DeviceOf(devices, id).Some? { assert DeviceOf(devices', id) == DeviceOf(devices, id); }
  }

  /** Reordering either input leaves the merged list as it was: it is the one strictly ordered list of the
      merged rows. */
  lemma MergeIsCanonical(assets: seq<Asset>, assets': seq<Asset>, devices: seq<Device>, devices': seq<Device>,
                         list: seq<View>, list': seq<View>)
    requires Unique(assets, devices) && Unique(assets', devices')
    requires multiset(assets) == multiset(assets') && multiset(devices) == multiset(devices')
    requires Merges(list, assets, devices) && Merges(list', assets', devices')
    ensures list == list'
  {
    forall v ensures v in list <==> v in list' {
      PermutedLookups(assets, assets', devices, devices', v.identifier);
    }
    ViewLessIsStrict();
    Ordering.SortedIsUnique(ViewLess, list, list');
  }

  /** The flags are membership in each input, blank manual fields keep what was discovered, and each member
      appears once. */
  lemma RowsTellMembership(list: seq<View>, assets: seq<Asset>, devices: seq<Device>)
    requires Unique(assets, devices) && Merges(list, assets, devices)
    ensures forall v | v in list :: v.managed <==> exists a :: a in assets && a.identifier == v.identifier
    ensures forall v | v in list :: v.discovered <==> exists d :: d in devices && d.ip == v.identifier
    ensures forall a | a in assets :: exists v :: v in list && v.identifier == a.identifier
    ensures forall d | d in devices :: exists v :: v in list && v.identifier == d.ip
    ensures forall v, w | v in list && w in list && v.identifier == w.identifier :: v == w
  {
    forall v | v in list
      ensures v.managed <==> exists a :: a in assets && a.identifier == v.identifier
      ensures v.discovered <==> exists d :: d in devices && d.ip == v.identifier
    {
      AssetOfIsTheRecord(assets, v.identifier);
      DeviceOfIsTheRecord(devices, v.identifier);
    }
    OneRowPerMember(assets, devices);
    forall d | d in devices ensures exists v :: v in list && v.identifier == d.ip {
      DeviceRowIsRow(d, assets, devices);
    }
    forall a | a in assets ensures exists v :: v in list && v.identifier == a.identifier {
      DeviceOfIsTheRecord(devices, a.identifier);
      if DeviceOf(devices, a.identifier).None? {
        ManualRowIsRow(a, assets, devices);
      } else {
        DeviceRowIsRow(DeviceOf(devices, a.identifier).value, assets, devices);
      }
    }
    forall v, w | v in list && w in list && v.identifier == w.identifier ensures v == w {
      RowIsDetermined(v, w, assets, devices);
    }
  }
}
