/**
  The router controller: its router, its static routes and the metadata-service network. Repeating
  a reconcile with the same spec, with no other writer, leaves the whole database as it was.
 */
module Routers {
  import opened Prelude
  import opened Ovsdb
  import opened OvnTransactions
  import opened OvnObjects
  import opened OvnConnect
  import opened Routes
  import opened RouteUpdate
  import Networks

  datatype RouterSpec = RouterSpec(ns: string, name: string, routes: seq<RouteSpec>, metadata: bool)

  const MDS_MAC := "02:00:00:00:00:02"
  const MDS_ADDRESS := "169.254.169.254"
  const MDS_NETWORK := "169.254.169.253/30"

  function RouterName(spec: RouterSpec): string {
    spec.ns + "-" + spec.name
  }

  function MdsName(router: string): string {
    "mds-" + router
  }

  function MdsPort(router: string): Row {
    SwitchPort(MdsName(router), "", "", map[], {})
  }

  /** The part after the link: the metadata service's own port. */
  ghost function MdsPortMade(db: Db, sw: Uuid, r: string): Outcome<Uuid> {
    var lsp := EnsurePort(db, sw, MdsPort(r));
    if lsp.result.Err? then lsp else AddressSet(lsp.db, lsp.result.value, MDS_MAC, Address(MDS_ADDRESS))
  }

  /** `connect_metadataservice` with the handle of router `r` */
  ghost function MetadataConnected(db: Db, lr: Uuid, r: string): Outcome<Uuid> {
    var sw := EnsureRoot(db, Switch(MdsName(r), {}, map[]));
    if sw.result.Err? then sw
    else
      var connected := Connected(sw.db, lr, r, sw.result.value, MdsName(r), MDS_NETWORK);
      if connected.result.Err? then connected else MdsPortMade(connected.db, sw.result.value, r)
  }

  /** The part after the routes; `deployed` is whether the metadata service could be deployed. */
  ghost function AfterRoutes(db: Db, lr: Uuid, spec: RouterSpec, deployed: bool): Outcome<()> {
    if !spec.metadata then Outcome(db, Ok(()))
    else if !deployed then Outcome(db, Err(Unavailable))
    else
      var o := MetadataConnected(db, lr, RouterName(spec));
      Outcome(o.db, if o.result.Err? then Err(o.result.error) else Ok(()))
  }

  /** `update_router` on the database */
  ghost function UpdatedRouter(db: Db, spec: RouterSpec, checked: bool, deployed: bool): Outcome<()> {
    var created := EnsureRoot(db, Router(RouterName(spec), {}, {}));
    if created.result.Err? then Outcome(created.db, Err(created.result.error))
    else
      var routed := RoutesSet(created.db, created.result.value, spec.routes, checked);
      if routed.result.Err? then Outcome(routed.db, Err(routed.result.error))
      else AfterRoutes(routed.db, created.result.value, spec, deployed)
  }

  /** Only the addresses of switch ports may differ. */
  predicate Readdressed(a: Row, b: Row) {
    a == b || (a.SwitchPort? && b.SwitchPort? && b == a.(addresses := b.addresses))
  }

  ghost predicate OnlyAddressesDiffer(rows: Rows, rows': Rows) {
    rows'.Keys == rows.Keys && forall u :: u in rows ==> Readdressed(rows[u], rows'[u])
  }

  lemma PatchedAddress(db: Db, port: Uuid, address: string)
    requires Valid(db) && port in db.rows && db.rows[port].SwitchPort?
    ensures OnlyAddressesDiffer(db.rows, Patched(db, port, SetAddresses(address)).rows)
    ensures Patched(db, port, SetAddresses(address)).next == db.next
  {
    assert Prune(db.rows, db.rows[port]) == db.rows[port];
  }

  lemma AddressSetIs(db: Db, port: Uuid, mac: string, ip: IpConfiguration)
    requires Valid(db) && port in db.rows && db.rows[port].SwitchPort?
    ensures AddressSet(db, port, mac, ip).db == db
         || AddressSet(db, port, mac, ip).db == Patched(db, port, SetAddresses(AddressOf(mac, ip)))
  {
    UpdateEffect(db, port, SetAddresses(AddressOf(mac, ip)));
  }

  lemma AddressSetChanges(db: Db, port: Uuid, mac: string, ip: IpConfiguration)
    requires Valid(db) && port in db.rows && db.rows[port].SwitchPort?
    ensures OnlyAddressesDiffer(db.rows, AddressSet(db, port, mac, ip).db.rows)
    ensures AddressSet(db, port, mac, ip).db.next == db.next
  {
    AddressSetIs(db, port, mac, ip);
    PatchedAddress(db, port, AddressOf(mac, ip));
  }

  /** The metadata network is in place, but for the address of its port. */
  ghost predicate MdsReady(rows: Rows, r: string, port: Uuid) {
    && Lookup(rows, LogicalSwitch, MdsName(r)).Some?
    && HasPorts(rows, r, MdsName(r)) && HasAddress(rows, r, MdsName(r), MDS_NETWORK)
    && Lookup(rows, LogicalSwitchPort, MdsName(r)) == Some(port)
  }

  /** The router's routes are the same rows. */
  ghost predicate SameRoutes(rows: Rows, rows': Rows, lr: Uuid) {
    && RouterAt(rows, lr) && RouterAt(rows', lr)
    && rows'[lr].name == rows[lr].name && rows'[lr].routes == rows[lr].routes
    && forall u :: u in rows[lr].routes ==> IsRoute(rows, u) && IsRoute(rows', u) && rows'[u] == rows[u]
  }

  lemma SameRoutesTwice(a: Rows, b: Rows, c: Rows, lr: Uuid)
    requires SameRoutes(a, b, lr) && SameRoutes(b, c, lr)
    ensures SameRoutes(a, c, lr)
  {
  }

  lemma GrownKeepsRoutes(db: Db, rows': Rows, lr: Uuid)
    requires Valid(db) && RouterAt(db.rows, lr) && Grown(db.rows, rows')
    ensures SameRoutes(db.rows, rows', lr)
  {
    assert RefsOk(db.rows, db.rows[lr]);
    assert GrownRow(db.rows[lr], rows'[lr]);
    forall u | u in db.rows[lr].routes
      ensures IsRoute(rows', u) && rows'[u] == db.rows[u]
    {
      assert GrownRow(db.rows[u], rows'[u]);
    }
  }

  lemma RootKeepsRoutes(db: Db, row: Row, lr: Uuid)
    requires Valid(db) && RouterAt(db.rows, lr) && IsNewRoot(row)
    ensures SameRoutes(db.rows, EnsureRoot(db, row).db.rows, lr)
  {
    EnsureRootEffect(db, row);
    assert RefsOk(db.rows, db.rows[lr]);
  }

  lemma AddressKeepsRoutes(db: Db, rows': Rows, lr: Uuid)
    requires Valid(db) && RouterAt(db.rows, lr) && OnlyAddressesDiffer(db.rows, rows')
    ensures SameRoutes(db.rows, rows', lr)
  {
    assert RefsOk(db.rows, db.rows[lr]);
    assert Readdressed(db.rows[lr], rows'[lr]);
    forall u | u in db.rows[lr].routes
      ensures IsRoute(rows', u) && rows'[u] == db.rows[u]
    {
      assert Readdressed(db.rows[u], rows'[u]);
    }
  }

  lemma SameRoutesServe(rows: Rows, rows': Rows, lr: Uuid, spec: RouteSpec)
    requires SameRoutes(rows, rows', lr)
    ensures HasRoute(rows', lr, spec) <==> HasRoute(rows, lr, spec)
  {
    assert forall u :: RoutesTo(rows', lr, u, spec) <==> RoutesTo(rows, lr, u, spec);
  }

  /** The addresses of the metadata port before the call do not stand in the way of its MAC. */
  ghost predicate MdsFree(rows: Rows, r: string) {
    var port := Lookup(rows, LogicalSwitchPort, MdsName(r));
    port.Some? && rows[port.value].SwitchPort? ==> Assignable(rows[port.value].addresses, MDS_MAC)
  }

  /** Growing the rows leaves the metadata port as it was, when its name finds the same row. */
  lemma MdsFreeGrown(rows: Rows, rows': Rows, r: string)
    requires Lookup(rows', LogicalSwitchPort, MdsName(r)) == Lookup(rows, LogicalSwitchPort, MdsName(r))
    requires forall u :: u in rows ==> u in rows' && GrownRow(rows[u], rows'[u])
    ensures MdsFree(rows', r) <==> MdsFree(rows, r)
  {
    var port := Lookup(rows, LogicalSwitchPort, MdsName(r));
    assert port.Some? ==> GrownRow(rows[port.value], rows'[port.value]);
  }

  /** The metadata switch. */
  lemma MdsRoot(db: Db, r: string) returns (sw: Uuid, made: Db)
    requires Valid(db)
    ensures EnsureRoot(db, Switch(MdsName(r), {}, map[])) == Outcome(made, Ok(sw))
    ensures Valid(made) && IsNamed(made.rows, sw, LogicalSwitch, MdsName(r))
    ensures forall u :: u in db.rows ==> u in made.rows && made.rows[u] == db.rows[u]
    ensures MdsFree(made.rows, r) <==> MdsFree(db.rows, r)
  {
    var row := Switch(MdsName(r), {}, map[]);
    EnsureRootEffect(db, row);
    var s := EnsureRoot(db, row);
    sw, made := s.result.value, s.db;
    KeptSwitchPorts(db.rows, made.rows, MdsName(r));
    MdsFreeGrown(db.rows, made.rows, r);
  }

  /** The link between the metadata switch and the router. */
  lemma MdsLink(db: Db, lr: Uuid, r: string, sw: Uuid) returns (linked: Db)
    requires Valid(db) && BothNamed(db.rows, lr, r, sw, MdsName(r))
    ensures Connected(db, lr, r, sw, MdsName(r), MDS_NETWORK).db == linked
    ensures Connected(db, lr, r, sw, MdsName(r), MDS_NETWORK).result.Ok?
    ensures Valid(linked) && SameRoutes(db.rows, linked.rows, lr)
    ensures Lookup(linked.rows, LogicalSwitch, MdsName(r)) == Some(sw)
    ensures HasPorts(linked.rows, r, MdsName(r)) && HasAddress(linked.rows, r, MdsName(r), MDS_NETWORK)
    ensures MdsFree(linked.rows, r) <==> MdsFree(db.rows, r)
  {
    assert MdsName(r)[0] != LspName(MdsName(r), r)[0];
    ConnectedEffect(db, lr, r, sw, MdsName(r), MDS_NETWORK);
    ConnectedKeepsOthers(db, lr, r, sw, MdsName(r), MDS_NETWORK, MdsName(r));
    linked := Connected(db, lr, r, sw, MdsName(r), MDS_NETWORK).db;
    MdsFreeGrown(db.rows, linked.rows, r);
    GrownKeepsRoutes(db, linked.rows, lr);
    LookupIs(db.rows, LogicalSwitch, MdsName(r), sw);
    GrownLookup(db.rows, linked.rows, LogicalSwitch, MdsName(r));
  }

  /** The metadata port is as it was, or new and without an address. */
  lemma MdsPortAddresses(linked: Db, sw: Uuid, r: string)
    requires Valid(linked) && IsNamed(linked.rows, sw, LogicalSwitch, MdsName(r))
    ensures var lsp := EnsurePort(linked, sw, MdsPort(r));
            && lsp.result.Ok? && lsp.result.value in lsp.db.rows && lsp.db.rows[lsp.result.value].SwitchPort?
            && (Assignable(lsp.db.rows[lsp.result.value].addresses, MDS_MAC) <==> MdsFree(linked.rows, r))
  {
    EnsurePortEffect(linked, sw, MdsPort(r));
    NamedAfter(linked, sw, MdsPort(r));
  }

  /** The switch and the link to the router. */
  lemma MdsSwitch(db: Db, lr: Uuid, r: string) returns (sw: Uuid, made: Db, linked: Db)
    requires Valid(db) && IsNamed(db.rows, lr, LogicalRouter, r)
    ensures EnsureRoot(db, Switch(MdsName(r), {}, map[])) == Outcome(made, Ok(sw))
    ensures Connected(made, lr, r, sw, MdsName(r), MDS_NETWORK).db == linked
    ensures Connected(made, lr, r, sw, MdsName(r), MDS_NETWORK).result.Ok?
    ensures Valid(linked) && SameRoutes(db.rows, linked.rows, lr)
    ensures Lookup(linked.rows, LogicalSwitch, MdsName(r)) == Some(sw)
    ensures HasPorts(linked.rows, r, MdsName(r)) && HasAddress(linked.rows, r, MdsName(r), MDS_NETWORK)
    ensures MdsFree(linked.rows, r) <==> MdsFree(db.rows, r)
  {
    sw, made := MdsRoot(db, r);
    linked := MdsLink(made, lr, r, sw);
    RootKeepsRoutes(db, Switch(MdsName(r), {}, map[]), lr);
    SameRoutesTwice(db.rows, made.rows, linked.rows, lr);
  }

  lemma PortsKept(db: Db, db': Db, r: string)
    requires Valid(db) && Valid(db') && Grown(db.rows, db'.rows)
    requires forall u :: u in db.rows && db.rows[u].RouterPort? ==> db'.rows[u] == db.rows[u]
    requires HasPorts(db.rows, r, MdsName(r)) && HasAddress(db.rows, r, MdsName(r), MDS_NETWORK)
    ensures HasPorts(db'.rows, r, MdsName(r)) && HasAddress(db'.rows, r, MdsName(r), MDS_NETWORK)
  {
    GrownLookup(db.rows, db'.rows, LogicalRouterPort, LrpName(r, MdsName(r)));
    GrownLookup(db.rows, db'.rows, LogicalSwitchPort, LspName(MdsName(r), r));
  }

  /** Everything but the port's address. */
  lemma MdsSteps(db: Db, lr: Uuid, r: string) returns (port: Uuid, ready: Db)
    requires Valid(db) && IsNamed(db.rows, lr, LogicalRouter, r)
    ensures Valid(ready) && SameRoutes(db.rows, ready.rows, lr) && MdsReady(ready.rows, r, port)
    ensures port in ready.rows && ready.rows[port].SwitchPort?
            && MetadataConnected(db, lr, r) == AddressSet(ready, port, MDS_MAC, Address(MDS_ADDRESS))
            && (Assignable(ready.rows[port].addresses, MDS_MAC) <==> MdsFree(db.rows, r))
  {
    var sw, made, linked := MdsSwitch(db, lr, r);
    MdsPortAddresses(linked, sw, r);
    EnsurePortEffect(linked, sw, MdsPort(r));
    EnsurePortGrows(linked, sw, MdsPort(r));
    NamedAfter(linked, sw, MdsPort(r));
    var lsp := EnsurePort(linked, sw, MdsPort(r));
    port, ready := lsp.result.value, lsp.db;
    PortsKept(linked, ready, r);
    GrownKeepsRoutes(linked, ready.rows, lr);
    SameRoutesTwice(db.rows, linked.rows, ready.rows, lr);
    GrownLookup(linked.rows, ready.rows, LogicalSwitch, MdsName(r));
    LookupIs(ready.rows, LogicalSwitchPort, MdsName(r), port);
  }

  lemma MdsStays(db: Db, db': Db, r: string, port: Uuid)
    requires Valid(db) && Valid(db') && OnlyAddressesDiffer(db.rows, db'.rows) && MdsReady(db.rows, r, port)
    ensures MdsReady(db'.rows, r, port)
  {
    forall u | u in db.rows
      ensures TableOf(db'.rows[u]) == TableOf(db.rows[u]) && NameOf(db'.rows[u]) == NameOf(db.rows[u])
    {
      assert Readdressed(db.rows[u], db'.rows[u]);
    }
    LookupKept(db.rows, db'.rows, LogicalSwitch, MdsName(r));
    LookupKept(db.rows, db'.rows, LogicalSwitchPort, MdsName(r));
    LookupKept(db.rows, db'.rows, LogicalSwitchPort, LspName(MdsName(r), r));
    LookupKept(db.rows, db'.rows, LogicalRouterPort, LrpName(r, MdsName(r)));
    var p := Lookup(db.rows, LogicalRouterPort, LrpName(r, MdsName(r))).value;
    assert Readdressed(db.rows[p], db'.rows[p]);
  }

  /** With the network in place only the address remains to be set. */
  lemma MdsAgain(db: Db, lr: Uuid, r: string, port: Uuid)
    requires Valid(db) && IsNamed(db.rows, lr, LogicalRouter, r) && MdsReady(db.rows, r, port)
    ensures MetadataConnected(db, lr, r) == AddressSet(db, port, MDS_MAC, Address(MDS_ADDRESS))
  {
    var row := Switch(MdsName(r), {}, map[]);
    EnsureRootEffect(db, row);
    var sw := Lookup(db.rows, LogicalSwitch, MdsName(r)).value;
    ConnectedAgain(db, lr, r, sw, MdsName(r), MDS_NETWORK);
    var p := Lookup(db.rows, LogicalRouterPort, LrpName(r, MdsName(r))).value;
    assert db.rows[p := LrpRow(r, MdsName(r), MDS_NETWORK)] == db.rows;
    EnsurePortEffect(db, sw, MdsPort(r));
  }

  lemma MetadataTwice(db: Db, lr: Uuid, r: string)
    requires Valid(db) && IsNamed(db.rows, lr, LogicalRouter, r)
    ensures var o := MetadataConnected(db, lr, r);
            && Valid(o.db) && SameRoutes(db.rows, o.db.rows, lr)
            && MetadataConnected(o.db, lr, r) == o
  {
    var port, ready := MdsSteps(db, lr, r);
    AddressTwice(ready, port, MDS_MAC, Address(MDS_ADDRESS));
    AddressSetChanges(ready, port, MDS_MAC, Address(MDS_ADDRESS));
    var o := MetadataConnected(db, lr, r);
    AddressKeepsRoutes(ready, o.db.rows, lr);
    SameRoutesTwice(db.rows, ready.rows, o.db.rows, lr);
    MdsStays(ready, o.db, r, port);
    MdsAgain(o.db, lr, r, port);
  }

  /** The metadata network is in place; `carries` is whether its port has the MAC. */
  ghost predicate MdsServes(rows: Rows, r: string, carries: bool) {
    exists port :: MdsReady(rows, r, port) && port in rows && rows[port].SwitchPort?
                   && (Token(rows[port].addresses) == MDS_MAC <==> carries)
  }

  lemma AddressMakesServe(ready: Db, port: Uuid, r: string)
    requires Valid(ready) && MdsReady(ready.rows, r, port) && port in ready.rows && ready.rows[port].SwitchPort?
    requires AddressSet(ready, port, MDS_MAC, Address(MDS_ADDRESS)).result.Ok?
    ensures MdsServes(AddressSet(ready, port, MDS_MAC, Address(MDS_ADDRESS)).db.rows, r,
                      Assignable(ready.rows[port].addresses, MDS_MAC))
  {
    AddressTwice(ready, port, MDS_MAC, Address(MDS_ADDRESS));
    AddressSetChanges(ready, port, MDS_MAC, Address(MDS_ADDRESS));
    TokenIsSet(ready, port, MDS_MAC, Address(MDS_ADDRESS));
    MdsStays(ready, AddressSet(ready, port, MDS_MAC, Address(MDS_ADDRESS)).db, r, port);
  }

  /**
    After a setup without an error the router has its link, and the metadata port its MAC exactly if nothing
    stood in the way.
   */
  lemma MetadataMade(db: Db, lr: Uuid, r: string)
    requires Valid(db) && IsNamed(db.rows, lr, LogicalRouter, r) && MetadataConnected(db, lr, r).result.Ok?
    ensures MdsServes(MetadataConnected(db, lr, r).db.rows, r, MdsFree(db.rows, r))
  {
    var port, ready := MdsSteps(db, lr, r);
    AddressMakesServe(ready, port, r);
  }

  /** The routes are as the spec wants them. */
  ghost predicate RoutesMet(rows: Rows, lr: Uuid, specs: seq<RouteSpec>) {
    forall spec :: HasRoute(rows, lr, spec) <==> spec in specs
  }

  lemma RoutesSetEffect(db: Db, lr: Uuid, specs: seq<RouteSpec>, checked: bool)
    requires Valid(db) && RouterAt(db.rows, lr)
    ensures var o := RoutesSet(db, lr, specs, checked);
            && Valid(o.db) && RouterAt(o.db.rows, lr) && o.db.rows[lr].name == db.rows[lr].name
            && (o.result.Err? ==> o.db == db)
            && (o.result.Ok? ==> o.result == Ok(lr) && RoutesMet(o.db.rows, lr, specs))
  {
    var h := HandleFor(db.rows, lr);
    OrderIsIrrelevant(db, h, specs, checked);
    RouteSetEffect(db, h, specs, checked);
    if RoutesSet(db, lr, specs, checked).result.Ok? {
      SetRoutesIsExact(db, h, specs, checked);
    }
  }

  lemma RoutesSetAgain(db: Db, lr: Uuid, specs: seq<RouteSpec>, checked: bool)
    requires Valid(db) && RouterAt(db.rows, lr) && RoutesMet(db.rows, lr, specs)
    ensures RoutesSet(db, lr, specs, checked) == Outcome(db, Ok(lr))
  {
    var h := HandleFor(db.rows, lr);
    OrderIsIrrelevant(db, h, specs, checked);
    MetIsUnchanged(db, h, specs, checked);
  }

  lemma RouterAgain(db: Db, name: string, lr: Uuid)
    requires Valid(db) && IsNamed(db.rows, lr, LogicalRouter, name)
    ensures EnsureRoot(db, Router(name, {}, {})) == Outcome(db, Ok(lr))
  {
    LookupIs(db.rows, LogicalRouter, name, lr);
  }

  lemma MetStays(rows: Rows, rows': Rows, lr: Uuid, specs: seq<RouteSpec>)
    requires SameRoutes(rows, rows', lr) && RoutesMet(rows, lr, specs)
    ensures RoutesMet(rows', lr, specs)
  {
    forall spec
      ensures HasRoute(rows', lr, spec) <==> spec in specs
    {
      SameRoutesServe(rows, rows', lr, spec);
    }
  }

  lemma AfterRoutesTwice(db: Db, lr: Uuid, spec: RouterSpec, deployed: bool)
    requires Valid(db) && IsNamed(db.rows, lr, LogicalRouter, RouterName(spec))
    ensures var o := AfterRoutes(db, lr, spec, deployed);
            && Valid(o.db) && SameRoutes(db.rows, o.db.rows, lr)
            && AfterRoutes(o.db, lr, spec, deployed) == o
  {
    if spec.metadata && deployed {
      MetadataTwice(db, lr, RouterName(spec));
    } else {
      GrownKeepsRoutes(db, db.rows, lr);
    }
  }

  lemma MdsFreeKept(db: Db, db': Db, r: string)
    requires Valid(db')
    requires forall u :: IsNamed(db'.rows, u, LogicalSwitchPort, MdsName(r)) <==>
             IsNamed(db.rows, u, LogicalSwitchPort, MdsName(r))
    requires forall u :: u in db.rows && db.rows[u].SwitchPort? ==> u in db'.rows && db'.rows[u] == db.rows[u]
    ensures MdsFree(db'.rows, r) <==> MdsFree(db.rows, r)
  {
    KeptSwitchPorts(db.rows, db'.rows, MdsName(r));
  }

  lemma RoutesKeepMdsPort(db: Db, lr: Uuid, specs: seq<RouteSpec>, checked: bool, r: string)
    requires Valid(db) && RouterAt(db.rows, lr)
    ensures MdsFree(RoutesSet(db, lr, specs, checked).db.rows, r) <==> MdsFree(db.rows, r)
  {
    RoutesSetEffect(db, lr, specs, checked);
    var unmet, unwanted := Unmet(db.rows, lr, specs), Unwanted(db.rows, lr, specs);
    RouteRows(db, lr, unmet, unwanted);
    assert RefsOk(db.rows, db.rows[lr]);
    MdsFreeKept(db, RoutesSet(db, lr, specs, checked).db, r);
  }

  lemma MdsFreeReached(db: Db, spec: RouterSpec, checked: bool)
    requires Valid(db)
    ensures var created := EnsureRoot(db, Router(RouterName(spec), {}, {}));
            && created.result.Ok? && RouterAt(created.db.rows, created.result.value)
            && (MdsFree(RoutesSet(created.db, created.result.value, spec.routes, checked).db.rows, RouterName(spec))
                <==> MdsFree(db.rows, RouterName(spec)))
  {
    EnsureRootEffect(db, Router(RouterName(spec), {}, {}));
    var created := EnsureRoot(db, Router(RouterName(spec), {}, {}));
    MdsFreeKept(db, created.db, RouterName(spec));
    RoutesKeepMdsPort(created.db, created.result.value, spec.routes, checked, RouterName(spec));
  }

  /**
    A reconcile without an error leaves the router with exactly the spec's routes and, if asked for, the
    metadata network.
   */
  lemma RouterReconciled(db: Db, spec: RouterSpec, checked: bool, deployed: bool)
    requires Valid(db) && UpdatedRouter(db, spec, checked, deployed).result.Ok?
    ensures var rows' := UpdatedRouter(db, spec, checked, deployed).db.rows;
            && (exists lr :: IsNamed(rows', lr, LogicalRouter, RouterName(spec)) && RoutesMet(rows', lr, spec.routes))
            && (spec.metadata ==> MdsServes(rows', RouterName(spec), MdsFree(db.rows, RouterName(spec))))
  {
    var name := RouterName(spec);
    EnsureRootEffect(db, Router(name, {}, {}));
    var created := EnsureRoot(db, Router(name, {}, {}));
    var lr := created.result.value;
    RoutesSetEffect(created.db, lr, spec.routes, checked);
    var routed := RoutesSet(created.db, lr, spec.routes, checked);
    AfterRoutesTwice(routed.db, lr, spec, deployed);
    var f := AfterRoutes(routed.db, lr, spec, deployed).db;
    MetStays(routed.db.rows, f.rows, lr, spec.routes);
    assert IsNamed(f.rows, lr, LogicalRouter, name);
    if spec.metadata {
      MdsFreeReached(db, spec, checked);
      MetadataMade(routed.db, lr, name);
    }
  }

  /** Main result: a repeated reconcile has the same result and changes nothing. */
  lemma UpdatedRouterTwice(db: Db, spec: RouterSpec, checked: bool, deployed: bool)
    requires Valid(db)
    ensures Valid(UpdatedRouter(db, spec, checked, deployed).db)
    ensures UpdatedRouter(UpdatedRouter(db, spec, checked, deployed).db, spec, checked, deployed)
            == UpdatedRouter(db, spec, checked, deployed)
  {
    var name := RouterName(spec);
    EnsureRootEffect(db, Router(name, {}, {}));
    var created := EnsureRoot(db, Router(name, {}, {}));
    var lr := created.result.value;
    RoutesSetEffect(created.db, lr, spec.routes, checked);
    var routed := RoutesSet(created.db, lr, spec.routes, checked);
    if routed.result.Err? {
      RouterAgain(created.db, name, lr);
    } else {
      AfterRoutesTwice(routed.db, lr, spec, deployed);
      var f := AfterRoutes(routed.db, lr, spec, deployed).db;
      MetStays(routed.db.rows, f.rows, lr, spec.routes);
      RouterAgain(f, name, lr);
      RoutesSetAgain(f, lr, spec.routes, checked);
    }
  }

  method MakeMdsPort(ovn: Ovn, sw: Uuid, r: string) returns (result: Result<Uuid>)
    requires Valid(ovn.db)
    modifies ovn
    ensures Valid(ovn.db) && Outcome(ovn.db, result) == MdsPortMade(old(ovn.db), sw, r)
  {
    var lsp := ovn.CreatePortIfMissing(sw, MdsPort(r));
    if lsp.Err? {
      return Err(lsp.error);
    }
    result := ovn.SetAddress(PortHandle(lsp.value.uuid, lsp.value.row.addresses), MDS_MAC, Address(MDS_ADDRESS));
  }

  method ConnectMetadataService(ovn: Ovn, lr: Uuid, r: string) returns (result: Result<Uuid>)
    requires Valid(ovn.db)
    modifies ovn
    ensures Valid(ovn.db) && Outcome(ovn.db, result) == MetadataConnected(old(ovn.db), lr, r)
  {
    var ls := ovn.CreateIfMissing(Switch(MdsName(r), {}, map[]));
    var connected := ConnectRouterToLs(ovn, lr, r, ls.value.uuid, MdsName(r), MDS_NETWORK);
    if connected.Err? {
      return connected;
    }
    result := MakeMdsPort(ovn, ls.value.uuid, r);
  }

  /** `update_router` after the finalizer is in place */
  method UpdateRouter(ovn: Ovn, spec: RouterSpec, checked: bool, deployed: bool) returns (r: Result<()>)
    requires Valid(ovn.db)
    modifies ovn
    ensures Valid(ovn.db) && Outcome(ovn.db, r) == UpdatedRouter(old(ovn.db), spec, checked, deployed)
  {
    EnsureRootEffect(ovn.db, Router(RouterName(spec), {}, {}));
    var lr := ovn.CreateIfMissing(Router(RouterName(spec), {}, {}));
    var handle := ReadRouter(lr.value.uuid, lr.value.row);
    OrderIsIrrelevant(ovn.db, handle, spec.routes, checked);
    RoutesSetEffect(ovn.db, handle.uuid, spec.routes, checked);
    var routed := SetRoutes(ovn, handle, spec.routes, checked);
    if routed.Err? {
      return Err(routed.error);
    }
    if spec.metadata {
      if !deployed {
        return Err(Unavailable);
      }
      var connected := ConnectMetadataService(ovn, handle.uuid, handle.name);
      if connected.Err? {
        return Err(connected.error);
      }
    }
    r := Ok(());
  }

  /** `remove_router`: a router that is already gone is an error. */
  method RemoveRouter(ovn: Ovn, name: string) returns (r: Result<Uuid>)
    requires Valid(ovn.db)
    modifies ovn
    ensures Valid(ovn.db) && Outcome(ovn.db, r) == DeleteNamed(old(ovn.db), LogicalRouter, name)
  {
    var lr := ovn.GetByName(LogicalRouter, name);
    if lr.Err? {
      return Err(lr.error);
    }
    DeleteEffect(ovn.db, LogicalRouter, lr.value.uuid);
    ovn.Delete(LogicalRouter, lr.value.uuid);
    r := Ok(lr.value.uuid);
  }

  // The name of the metadata switch

  lemma SplitsAtDash(text: string) returns (i: nat)
    requires '-' in text
    ensures i < |text| && text == text[..i] + "-" + text[i + 1..]
  {
    i :| 0 <= i < |text| && text[i] == '-';
  }

  /** The namespaces and names that give a switch name with the metadata prefix and room for a router's name. */
  predicate LooksLikeMetadata(spec: Networks.NetworkSpec) {
    (spec.ns == "mds" && '-' in spec.name) || "mds-" <= spec.ns
  }

  lemma MetadataPrefix(spec: Networks.NetworkSpec)
    requires "mds-" <= Networks.SwitchName(spec)
    ensures spec.ns == "mds" || "mds-" <= spec.ns
  {
    var name := Networks.SwitchName(spec);
    assert name[0] == 'm' && name[1] == 'd' && name[2] == 's' && name[3] == '-';
    assert name[|spec.ns|] == '-' && |spec.ns| >= 3;
    if |spec.ns| == 3 {
      assert spec.ns == name[..3] == "mds";
    } else {
      assert spec.ns[..4] == name[..4] == "mds-";
    }
  }

  lemma SharedLooksLikeMetadata(spec: Networks.NetworkSpec, r: RouterSpec)
    requires Networks.SwitchName(spec) == MdsName(RouterName(r))
    ensures LooksLikeMetadata(spec)
  {
    MetadataPrefix(spec);
    if spec.ns == "mds" {
      assert spec.name == Networks.SwitchName(spec)[4..] == RouterName(r);
      assert RouterName(r)[|r.ns|] == '-';
    }
  }

  /**
    A network's switch is the metadata switch of some router if and only if its namespace is `mds` and its
    name has a dash, or its namespace begins with `mds-`. Then two reconciles may create the one switch.
   */
  lemma MetadataNameIsShared(spec: Networks.NetworkSpec)
    ensures LooksLikeMetadata(spec) <==>
            exists r: RouterSpec :: Networks.SwitchName(spec) == MdsName(RouterName(r))
  {
    if LooksLikeMetadata(spec) {
      var r: RouterSpec;
      if spec.ns == "mds" {
        var i := SplitsAtDash(spec.name);
        r := RouterSpec(spec.name[..i], spec.name[i + 1..], [], true);
      } else {
        r := RouterSpec(spec.ns[4..], spec.name, [], true);
        assert spec.ns == "mds-" + spec.ns[4..];
      }
      assert Networks.SwitchName(spec) == MdsName(RouterName(r));
    }
    forall r: RouterSpec | Networks.SwitchName(spec) == MdsName(RouterName(r))
      ensures LooksLikeMetadata(spec)
    {
      SharedLooksLikeMetadata(spec, r);
    }
  }
}
