/**
  What the router controller leaves in the database, by the fields of its rows: the router with its routes, the
  metadata network with its addresses, and what is gone when a router or a network is removed.
 */
module RouterLaws {
  import opened Prelude
  import opened Ovsdb
  import opened OvnTransactions
  import opened OvnObjects
  import opened OvnConnect
  import opened Routes
  import opened RouteUpdate
  import opened Routers
  import opened OvnLaws
  import P = VmPorts
  import V = VmOvn

  /** The metadata port of router `r` has the MAC with the address, unless it mentioned the MAC before. */
  ghost predicate MdsAddressed(rows: Rows, rows': Rows, r: string) {
    if Mentions(rows, "mds-" + r, "02:00:00:00:00:02") then
      forall p :: LspNamed(rows, p, "mds-" + r) ==> Addressed(rows', "mds-" + r, rows[p].addresses)
    else
      Addressed(rows', "mds-" + r, "02:00:00:00:00:02 169.254.169.254")
  }

  /** A port that is new is on the metadata switch. */
  ghost predicate MdsPlaced(rows: Rows, rows': Rows, r: string) {
    (forall p :: !LspNamed(rows, p, "mds-" + r)) ==>
      exists s, p :: PlainPortOn(rows', s, p, "mds-" + r, "mds-" + r)
  }

  /** The metadata network of router `r`. */
  ghost predicate MetadataThere(rows: Rows, rows': Rows, r: string) {
    && (exists p, q :: Joined(rows, rows', p, q, r, "mds-" + r, "169.254.169.253/30"))
    && MdsAddressed(rows, rows', r) && MdsPlaced(rows, rows', r)
  }

  /** No switch port is new or changed. */
  ghost predicate SameLsps(rows: Rows, rows': Rows) {
    forall u, name ::
      && (LspNamed(rows', u, name) <==> LspNamed(rows, u, name))
      && (LspNamed(rows, u, name) && LspNamed(rows', u, name) ==> rows'[u] == rows[u])
  }

  lemma RootKeepsLsps(db: Db, row: Row)
    requires Valid(db) && IsNewRoot(row)
    ensures SameLsps(db.rows, EnsureRoot(db, row).db.rows)
  {
    EnsureRootEffect(db, row);
  }

  /** The text about the metadata port depends on the switch ports only. */
  lemma SameLspsMean(rows: Rows, rows': Rows, rows'': Rows, r: string)
    requires SameLsps(rows, rows') && MetadataThere(rows', rows'', r)
    ensures MetadataThere(rows, rows'', r)
  {
    forall p
      ensures LspNamed(rows', p, "mds-" + r) <==> LspNamed(rows, p, "mds-" + r)
    {
    }
    var p, q :| Joined(rows', rows'', p, q, r, "mds-" + r, "169.254.169.253/30");
    var name := "ls_" + ("mds-" + r) + "_lr_" + r;
    assert LspNamed(rows', q, name) <==> LspNamed(rows, q, name);
    assert Joined(rows, rows'', p, q, r, "mds-" + r, "169.254.169.253/30");
  }

  lemma JoinedByConnect(db: Db, lr: Uuid, r: string, ls: Uuid, s: string, address: string) returns (p: Uuid, q: Uuid)
    requires Valid(db) && BothNamed(db.rows, lr, r, ls, s)
    ensures Joined(db.rows, Connected(db, lr, r, ls, s, address).db.rows, p, q, r, s, address)
  {
    ConnectedEffect(db, lr, r, ls, s, address);
    var o := Connected(db, lr, r, ls, s, address);
    p := Lookup(o.db.rows, LogicalRouterPort, LrpName(r, s)).value;
    q := Lookup(o.db.rows, LogicalSwitchPort, LspName(s, r)).value;
    if q in db.rows {
      assert GrownRow(db.rows[q], o.db.rows[q]);
    } else {
      ConnectedMakesLink(db, lr, r, ls, s, address, q);
    }
  }

  lemma JoinedStays(rows: Rows, mid: Rows, rows': Rows, p: Uuid, q: Uuid, r: string, s: string, address: string)
    requires Joined(rows, mid, p, q, r, s, address) && Grown(mid, rows') && p in rows' && rows'[p] == mid[p]
    ensures Joined(rows, rows', p, q, r, s, address)
  {
    assert GrownRow(mid[q], rows'[q]);
    if !LspNamed(rows, q, "ls_" + s + "_lr_" + r) {
      LinkGrows(mid, rows', q, r, s);
    }
  }

  lemma JoinedReaddressed(rows: Rows, mid: Rows, rows': Rows, p: Uuid, q: Uuid, m: Uuid, r: string, s: string,
      address: string)
    requires Joined(rows, mid, p, q, r, s, address) && OnlyServed(mid, rows', m) && m != q
    ensures Joined(rows, rows', p, q, r, s, address)
  {
    if !LspNamed(rows, q, "ls_" + s + "_lr_" + r) {
      var ls :| SwitchNamed(mid, ls, s) && q in mid[ls].ports;
      assert SwitchNamed(rows', ls, s) && q in rows'[ls].ports;
    }
  }

  /** A connect leaves the switch ports of other names as they were. */
  lemma ConnectKeepsNamed(db: Db, lr: Uuid, r: string, ls: Uuid, s: string, address: string, name: string, p: Uuid)
    requires Valid(db) && BothNamed(db.rows, lr, r, ls, s) && name != LspName(s, r)
    ensures var rows' := Connected(db, lr, r, ls, s, address).db.rows;
            && (LspNamed(rows', p, name) <==> LspNamed(db.rows, p, name))
            && (LspNamed(rows', p, name) && LspNamed(db.rows, p, name) ==> rows'[p] == db.rows[p])
  {
    ConnectedEffect(db, lr, r, ls, s, address);
    ConnectedKeepsOthers(db, lr, r, ls, s, address, name);
    var db' := Connected(db, lr, r, ls, s, address).db;
    if LspNamed(db'.rows, p, name) {
      LookupIs(db'.rows, LogicalSwitchPort, name, p);
    }
    if LspNamed(db.rows, p, name) {
      LookupIs(db.rows, LogicalSwitchPort, name, p);
      assert GrownRow(db.rows[p], db'.rows[p]);
    }
  }

  lemma ConnectKeepsMentions(db: Db, lr: Uuid, r: string, ls: Uuid, s: string, address: string, name: string,
      mac: string)
    requires Valid(db) && BothNamed(db.rows, lr, r, ls, s) && name != LspName(s, r)
    ensures var rows' := Connected(db, lr, r, ls, s, address).db.rows;
            && (Mentions(rows', name, mac) <==> Mentions(db.rows, name, mac))
            && (forall p :: LspNamed(rows', p, name) <==> LspNamed(db.rows, p, name))
            && (forall p :: LspNamed(rows', p, name) && LspNamed(db.rows, p, name) ==> rows'[p] == db.rows[p])
  {
    forall p
      ensures var rows' := Connected(db, lr, r, ls, s, address).db.rows;
              && (LspNamed(rows', p, name) <==> LspNamed(db.rows, p, name))
              && (LspNamed(rows', p, name) && LspNamed(db.rows, p, name) ==> rows'[p] == db.rows[p])
    {
      ConnectKeepsNamed(db, lr, r, ls, s, address, name, p);
    }
  }

  /** The port of the name and its addresses, after it was ensured and given an address. */
  lemma PortGetsAddress(db: Db, ls: Uuid, sw: string, id: string, mac: string, ip: string) returns (port: Uuid)
    requires Valid(db) && SwitchNamed(db.rows, ls, sw)
    requires var lsp := EnsurePort(db, ls, P.PortRow(id));
             lsp.result.Ok? && lsp.result.value in lsp.db.rows && lsp.db.rows[lsp.result.value].SwitchPort?
             && AddressSet(lsp.db, lsp.result.value, mac, Address(ip)).result.Ok?
    ensures var lsp := EnsurePort(db, ls, P.PortRow(id)); lsp.result == Ok(port) && LspNamed(lsp.db.rows, port, id)
    ensures var lsp := EnsurePort(db, ls, P.PortRow(id)); var db' := AddressSet(lsp.db, port, mac, Address(ip)).db;
            && Valid(db') && OnlyServed(lsp.db.rows, db'.rows, port)
            && (if Mentions(db.rows, id, mac) then
                  forall p :: LspNamed(db.rows, p, id) ==> Addressed(db'.rows, id, db.rows[p].addresses)
                else Addressed(db'.rows, id, mac + " " + ip))
  {
    V.PortAdded(db, ls, id);
    V.EnsuredAddresses(db, ls, id);
    var lsp := EnsurePort(db, ls, P.PortRow(id));
    port := lsp.result.value;
    AddressServes(lsp.db, port, mac, Address(ip));
    AddressIsSet(lsp.db, port, mac, Address(ip));
    MentionsIsContains(db, id, mac);
    ThePort(AddressSet(lsp.db, port, mac, Address(ip)).db, port, id);
  }

  lemma PlacedStays(rows: Rows, rows': Rows, s: Uuid, p: Uuid, sw: string, id: string)
    requires PlainPortOn(rows, s, p, sw, id) && OnlyServed(rows, rows', p)
    ensures PlainPortOn(rows', s, p, sw, id)
  {
  }

  lemma MdsIsPlaced(linked: Db, sw: Uuid, r: string, m: Uuid, rows': Rows)
    requires Valid(linked) && SwitchNamed(linked.rows, sw, "mds-" + r)
    requires var o := EnsurePort(linked, sw, P.PortRow("mds-" + r));
             o.result == Ok(m) && OnlyServed(o.db.rows, rows', m)
    ensures MdsPlaced(linked.rows, rows', r)
  {
    if forall p :: !LspNamed(linked.rows, p, "mds-" + r) {
      EnsuredNicPort(linked, sw, "mds-" + r, "mds-" + r, m);
      PlacedStays(EnsurePort(linked, sw, P.PortRow("mds-" + r)).db.rows, rows', sw, m, "mds-" + r, "mds-" + r);
    }
  }

  /** The second half of the setup is the ensuring of the port and the setting of its address. */
  lemma MdsPortSteps(linked: Db, sw: Uuid, r: string)
    requires Valid(linked) && SwitchNamed(linked.rows, sw, "mds-" + r)
    ensures var lsp := EnsurePort(linked, sw, P.PortRow("mds-" + r));
            && lsp.result.Ok? && lsp.result.value in lsp.db.rows && lsp.db.rows[lsp.result.value].SwitchPort?
            && MdsPortMade(linked, sw, r) ==
                 AddressSet(lsp.db, lsp.result.value, "02:00:00:00:00:02", Address("169.254.169.254"))
  {
    assert MdsPort(r) == P.PortRow("mds-" + r);
    MdsPortAddresses(linked, sw, r);
  }

  lemma MdsText()
    ensures "02:00:00:00:00:02" + " " + "169.254.169.254" == "02:00:00:00:00:02 169.254.169.254"
  {
  }

  lemma MdsPortIsMade(linked: Db, sw: Uuid, r: string) returns (m: Uuid)
    requires Valid(linked) && SwitchNamed(linked.rows, sw, "mds-" + r) && MdsPortMade(linked, sw, r).result.Ok?
    ensures var rows', ready := MdsPortMade(linked, sw, r).db.rows, EnsurePort(linked, sw, P.PortRow("mds-" + r)).db;
            && MdsAddressed(linked.rows, rows', r) && MdsPlaced(linked.rows, rows', r)
            && LspNamed(ready.rows, m, "mds-" + r) && OnlyServed(ready.rows, rows', m)
  {
    MdsPortSteps(linked, sw, r);
    m := PortGetsAddress(linked, sw, "mds-" + r, "mds-" + r, "02:00:00:00:00:02", "169.254.169.254");
    MdsIsPlaced(linked, sw, r, m, MdsPortMade(linked, sw, r).db.rows);
    MdsText();
  }

  lemma MdsBeforeLink(made: Db, lr: Uuid, r: string, sw: Uuid, linked: Db, rows': Rows)
    requires Valid(made) && BothNamed(made.rows, lr, r, sw, MdsName(r))
    requires Connected(made, lr, r, sw, MdsName(r), MDS_NETWORK).db == linked
    requires MdsAddressed(linked.rows, rows', r) && MdsPlaced(linked.rows, rows', r)
    ensures MdsAddressed(made.rows, rows', r) && MdsPlaced(made.rows, rows', r)
  {
    assert MdsName(r)[0] != LspName(MdsName(r), r)[0];
    ConnectKeepsMentions(made, lr, r, sw, MdsName(r), MDS_NETWORK, MdsName(r), "02:00:00:00:00:02");
  }

  /** The link stays while the metadata port is made and given its address. */
  lemma LinkStays(rows: Rows, linked: Db, sw: Uuid, r: string, p: Uuid, q: Uuid, m: Uuid, rows': Rows)
    requires Valid(linked) && Joined(rows, linked.rows, p, q, r, MdsName(r), MDS_NETWORK)
    requires var ready := EnsurePort(linked, sw, P.PortRow(MdsName(r))).db.rows;
             LspNamed(ready, m, MdsName(r)) && OnlyServed(ready, rows', m)
    ensures Joined(rows, rows', p, q, r, MdsName(r), MDS_NETWORK)
  {
    assert MdsName(r)[0] != LspName(MdsName(r), r)[0];
    EnsurePortGrows(linked, sw, P.PortRow(MdsName(r)));
    var ready := EnsurePort(linked, sw, P.PortRow(MdsName(r))).db;
    JoinedStays(rows, linked.rows, ready.rows, p, q, r, MdsName(r), MDS_NETWORK);
    assert GrownRow(linked.rows[q], ready.rows[q]);
    JoinedReaddressed(rows, ready.rows, rows', p, q, m, r, MdsName(r), MDS_NETWORK);
  }

  lemma MadeLink(made: Db, lr: Uuid, r: string, sw: Uuid, linked: Db) returns (p: Uuid, q: Uuid)
    requires Valid(made) && BothNamed(made.rows, lr, r, sw, MdsName(r))
    requires Connected(made, lr, r, sw, MdsName(r), MDS_NETWORK).db == linked
    ensures Valid(linked) && SwitchNamed(linked.rows, sw, MdsName(r))
    ensures Joined(made.rows, linked.rows, p, q, r, MdsName(r), MDS_NETWORK)
  {
    p, q := JoinedByConnect(made, lr, r, sw, MdsName(r), MDS_NETWORK);
    ConnectedEffect(made, lr, r, sw, MdsName(r), MDS_NETWORK);
    assert GrownRow(made.rows[sw], linked.rows[sw]);
  }

  lemma MadeMetadata(made: Db, lr: Uuid, r: string, sw: Uuid, linked: Db)
    requires Valid(made) && BothNamed(made.rows, lr, r, sw, MdsName(r))
    requires Connected(made, lr, r, sw, MdsName(r), MDS_NETWORK).db == linked && MdsPortMade(linked, sw, r).result.Ok?
    ensures MetadataThere(made.rows, MdsPortMade(linked, sw, r).db.rows, r)
  {
    var p, q := MadeLink(made, lr, r, sw, linked);
    var m := MdsPortIsMade(linked, sw, r);
    var rows' := MdsPortMade(linked, sw, r).db.rows;
    LinkStays(made.rows, linked, sw, r, p, q, m, rows');
    MdsBeforeLink(made, lr, r, sw, linked, rows');
  }

  lemma MdsRooted(db: Db, lr: Uuid, r: string, sw: Uuid, made: Db)
    requires Valid(db) && RouterNamed(db.rows, lr, r)
    requires EnsureRoot(db, Switch(MdsName(r), {}, map[])) == Outcome(made, Ok(sw))
    ensures Valid(made) && BothNamed(made.rows, lr, r, sw, MdsName(r))
  {
    EnsureRootEffect(db, Switch(MdsName(r), {}, map[]));
  }

  /**
    Main result: after a setup of the metadata network without an error, the router is joined to the metadata switch
    with its address, and the metadata port of that switch has the MAC and the address of the service.
   */
  lemma MetadataIsMade(db: Db, lr: Uuid, r: string)
    requires Valid(db) && RouterNamed(db.rows, lr, r) && MetadataConnected(db, lr, r).result.Ok?
    ensures MetadataThere(db.rows, MetadataConnected(db, lr, r).db.rows, r)
  {
    var row := Switch(MdsName(r), {}, map[]);
    RootKeepsLsps(db, row);
    var sw, made, linked := MdsSwitch(db, lr, r);
    MdsRooted(db, lr, r, sw, made);
    MadeMetadata(made, lr, r, sw, linked);
    SameLspsMean(db.rows, made.rows, MetadataConnected(db, lr, r).db.rows, r);
  }

  // The whole reconcile

  /** The routes of the router are exactly those listed. */
  ghost predicate RoutesAre(rows: Rows, lr: Uuid, specs: seq<RouteSpec>) {
    && lr in rows && rows[lr].Router?
    && forall cidr, nexthop ::
         (exists u :: u in rows[lr].routes && u in rows && rows[u] == Route(cidr, nexthop))
         <==> RouteSpec(cidr, nexthop) in specs
  }

  lemma MetIsAre(rows: Rows, lr: Uuid, specs: seq<RouteSpec>)
    requires lr in rows && rows[lr].Router? && RoutesMet(rows, lr, specs)
    ensures RoutesAre(rows, lr, specs)
  {
    forall cidr, nexthop
      ensures (exists u :: u in rows[lr].routes && u in rows && rows[u] == Route(cidr, nexthop))
              <==> RouteSpec(cidr, nexthop) in specs
    {
      var spec := RouteSpec(cidr, nexthop);
      assert HasRoute(rows, lr, spec) <==> spec in specs;
      forall u | u in rows[lr].routes && u in rows && rows[u] == Route(cidr, nexthop)
        ensures HasRoute(rows, lr, spec)
      {
        assert RoutesTo(rows, lr, u, spec);
      }
      if u :| RoutesTo(rows, lr, u, spec) {
        assert u in rows[lr].routes && rows[u] == Route(cidr, nexthop);
      }
    }
  }

  lemma RoutesKeepLsps(db: Db, lr: Uuid, specs: seq<RouteSpec>, checked: bool)
    requires Valid(db) && RouterAt(db.rows, lr)
    ensures SameLsps(db.rows, RoutesSet(db, lr, specs, checked).db.rows)
  {
    RoutesSetEffect(db, lr, specs, checked);
    RouteRows(db, lr, Unmet(db.rows, lr, specs), Unwanted(db.rows, lr, specs));
    assert RefsOk(db.rows, db.rows[lr]);
  }

  lemma SameLspsTwice(a: Rows, b: Rows, c: Rows)
    requires SameLsps(a, b) && SameLsps(b, c)
    ensures SameLsps(a, c)
  {
    forall u, name
      ensures LspNamed(c, u, name) <==> LspNamed(a, u, name)
      ensures LspNamed(a, u, name) && LspNamed(c, u, name) ==> c[u] == a[u]
    {
      assert LspNamed(b, u, name) <==> LspNamed(a, u, name);
    }
  }

  lemma MetadataOfRouter(db: Db, spec: RouterSpec, checked: bool, deployed: bool)
    requires Valid(db) && UpdatedRouter(db, spec, checked, deployed).result.Ok? && spec.metadata
    ensures MetadataThere(db.rows, UpdatedRouter(db, spec, checked, deployed).db.rows, RouterName(spec))
  {
    var row := Router(RouterName(spec), {}, {});
    EnsureRootEffect(db, row);
    var created := EnsureRoot(db, row);
    RoutesSetEffect(created.db, created.result.value, spec.routes, checked);
    var routed := RoutesSet(created.db, created.result.value, spec.routes, checked).db;
    RootKeepsLsps(db, row);
    RoutesKeepLsps(created.db, created.result.value, spec.routes, checked);
    SameLspsTwice(db.rows, created.db.rows, routed.rows);
    MetadataIsMade(routed, created.result.value, RouterName(spec));
    SameLspsMean(db.rows, routed.rows, MetadataConnected(routed, created.result.value, RouterName(spec)).db.rows,
                 RouterName(spec));
  }

  /**
    Main result: after a reconcile without an error there is a router of the name with exactly the routes of the spec,
    and with the metadata network if the spec asks for it.
   */
  lemma RouterIsMade(db: Db, spec: RouterSpec, checked: bool, deployed: bool)
    requires Valid(db) && UpdatedRouter(db, spec, checked, deployed).result.Ok?
    ensures var rows' := UpdatedRouter(db, spec, checked, deployed).db.rows; var name := spec.ns + "-" + spec.name;
            && (exists lr :: RouterNamed(rows', lr, name) && RoutesAre(rows', lr, spec.routes))
            && (spec.metadata ==> MetadataThere(db.rows, rows', name))
  {
    var name := spec.ns + "-" + spec.name;
    var rows' := UpdatedRouter(db, spec, checked, deployed).db.rows;
    RouterReconciled(db, spec, checked, deployed);
    var lr :| IsNamed(rows', lr, LogicalRouter, name) && RoutesMet(rows', lr, spec.routes);
    MetIsAre(rows', lr, spec.routes);
    assert RouterNamed(rows', lr, name);
    if spec.metadata {
      MetadataOfRouter(db, spec, checked, deployed);
    }
  }

  /**
    Setting the routes succeeds exactly if the counter of a byte suffices for the entries that are missing, which is
    one less with overflow checks; else it panics and changes nothing.
   */
  lemma RoutesSucceedExactly(db: Db, lr: Uuid, specs: seq<RouteSpec>, checked: bool)
    requires Valid(db) && lr in db.rows && db.rows[lr].Router?
    ensures var o := RoutesSet(db, lr, specs, checked); var missing := |Unmet(db.rows, lr, specs)|;
            if missing <= 255 || (missing == 256 && !checked) then o.result == Ok(lr) && RoutesAre(o.db.rows, lr, specs)
            else o == Outcome(db, Err(Panicked))
  {
    RoutesSetEffect(db, lr, specs, checked);
    var o := RoutesSet(db, lr, specs, checked);
    if o.result.Ok? {
      MetIsAre(o.db.rows, lr, specs);
    }
  }

  /**
    A router that asks for the metadata service where it could not be deployed gets its routes, and then the error;
    a failure of the routes comes first.
   */
  lemma UndeployedIsUnavailable(db: Db, spec: RouterSpec, checked: bool)
    requires spec.metadata
    ensures var plain := UpdatedRouter(db, spec.(metadata := false), checked, false);
            UpdatedRouter(db, spec, checked, false) ==
              Outcome(plain.db, if plain.result.Ok? then Err(Unavailable) else plain.result)
  {
    assert RouterName(spec.(metadata := false)) == RouterName(spec);
  }

  // Removal

  /** The rows without the router, its ports and its routes. */
  ghost predicate RouterGone(rows: Rows, rows': Rows, lr: Uuid)
    requires lr in rows && rows[lr].Router?
  {
    forall u :: && (u in rows' <==> u in rows && u != lr && u !in rows[lr].ports && u !in rows[lr].routes)
                && (u in rows' && u in rows ==> rows'[u] == rows[u])
  }

  /** The rows without the switch and its ports. */
  ghost predicate SwitchGone(rows: Rows, rows': Rows, ls: Uuid)
    requires ls in rows && rows[ls].Switch?
  {
    forall u :: && (u in rows' <==> u in rows && u != ls && u !in rows[ls].ports)
                && (u in rows' && u in rows ==> rows'[u] == rows[u])
  }

  /** Removing a router takes it away with its ports and routes and nothing else; a missing one is an error. */
  lemma RouterIsRemoved(db: Db, name: string)
    requires Valid(db)
    ensures var o := DeleteNamed(db, LogicalRouter, name);
            && (o.result.Ok? ==> RouterNamed(db.rows, o.result.value, name)
                                 && RouterGone(db.rows, o.db.rows, o.result.value))
            && (o.result.Err? ==> o == Outcome(db, Err(NotFound)) && forall u :: !RouterNamed(db.rows, u, name))
  {
    var lr := Lookup(db.rows, LogicalRouter, name);
    if lr.Some? {
      DeleteEffect(db, LogicalRouter, lr.value);
    } else {
      assert forall u :: RouterNamed(db.rows, u, name) ==> IsNamed(db.rows, u, LogicalRouter, name);
    }
  }

  /** The same for the switch of a network, with the ports of its NICs. */
  lemma NetworkIsRemoved(db: Db, name: string)
    requires Valid(db)
    ensures var o := DeleteNamed(db, LogicalSwitch, name);
            && (o.result.Ok? ==> SwitchNamed(db.rows, o.result.value, name)
                                 && SwitchGone(db.rows, o.db.rows, o.result.value))
            && (o.result.Err? ==> o == Outcome(db, Err(NotFound)) && forall u :: !SwitchNamed(db.rows, u, name))
  {
    var ls := Lookup(db.rows, LogicalSwitch, name);
    if ls.Some? {
      DeleteEffect(db, LogicalSwitch, ls.value);
    } else {
      assert forall u :: SwitchNamed(db.rows, u, name) ==> IsNamed(db.rows, u, LogicalSwitch, name);
    }
  }
}
