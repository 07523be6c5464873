/**
  The network controller: its switch, its DHCP options and its router attachments. Repeating a
  reconcile with the same spec, with no other writer, leaves the whole database as it was.
 */
module Networks {
  import opened Prelude
  import opened Ovsdb
  import opened OvnTransactions
  import opened OvnObjects
  import opened OvnConnect

  /** An attachment of the spec; `name` is `router` or `namespace/router`. */
  datatype Attachment = Attachment(name: string, address: string)

  /** DHCP settings; `options` are the stored option values, none when the CIDR does not parse. */
  datatype DhcpSpec = DhcpSpec(cidr: string, options: Option<map<string, string>>)

  datatype NetworkSpec = NetworkSpec(ns: string, name: string, dhcp: Option<DhcpSpec>, routers: seq<Attachment>)

  function SwitchName(spec: NetworkSpec): string {
    spec.ns + "-" + spec.name
  }

  /** The router an attachment names; more than one slash makes the controller panic. */
  function RouterRef(ns: string, name: string): Option<string> {
    var parts := Split(name, '/');
    if |parts| == 1 then Some(ns + "-" + parts[0])
    else if |parts| == 2 then Some(parts[0] + "-" + parts[1])
    else None
  }

  ghost predicate Resolves(rows: Rows, ns: string, sw: string, att: Attachment) {
    && RouterRef(ns, att.name).Some?
    && Lookup(rows, LogicalRouter, RouterRef(ns, att.name).value).Some?
    && Lookup(rows, LogicalSwitch, sw).Some?
  }

  /** `ensure_router_attachment` */
  ghost function Attached(db: Db, ns: string, sw: string, att: Attachment): Outcome<Uuid> {
    if RouterRef(ns, att.name).None? then Outcome(db, Err(Panicked))
    else if !Resolves(db.rows, ns, sw, att) then Outcome(db, Err(NotFound))
    else
      var r := RouterRef(ns, att.name).value;
      Connected(db, Lookup(db.rows, LogicalRouter, r).value, r, Lookup(db.rows, LogicalSwitch, sw).value, sw,
        att.address)
  }

  /** The loop over the attachments, which stops at the first error. */
  ghost function AllAttached(db: Db, ns: string, sw: string, atts: seq<Attachment>): Outcome<()>
    decreases |atts|
  {
    if atts == [] then Outcome(db, Ok(()))
    else
      var o := Attached(db, ns, sw, atts[0]);
      if o.result.Err? then Outcome(o.db, Err(o.result.error)) else AllAttached(o.db, ns, sw, atts[1..])
  }

  lemma ResolvesKept(rows: Rows, rows': Rows, ns: string, sw: string, att: Attachment)
    requires Grown(rows, rows') && UniqueNames(rows')
    ensures Resolves(rows', ns, sw, att) <==> Resolves(rows, ns, sw, att)
  {
    GrownLookup(rows, rows', LogicalSwitch, sw);
    if RouterRef(ns, att.name).Some? {
      GrownLookup(rows, rows', LogicalRouter, RouterRef(ns, att.name).value);
    }
  }

  lemma AttachedEffect(db: Db, ns: string, sw: string, att: Attachment)
    requires Valid(db)
    ensures var o := Attached(db, ns, sw, att);
            && Valid(o.db) && Grown(db.rows, o.db.rows)
            && (o.result.Ok? <==> Resolves(db.rows, ns, sw, att))
            && (o.result.Err? ==> o.db == db)
            && (o.result.Ok? ==> var r := RouterRef(ns, att.name).value;
                  && HasPorts(o.db.rows, r, sw) && HasAddress(o.db.rows, r, sw, att.address)
                  && OthersKept(db.rows, o.db.rows, LrpName(r, sw)))
  {
    if Resolves(db.rows, ns, sw, att) {
      var r := RouterRef(ns, att.name).value;
      ConnectedEffect(db, Lookup(db.rows, LogicalRouter, r).value, r, Lookup(db.rows, LogicalSwitch, sw).value, sw,
        att.address);
    }
  }

  /** The address the loop leaves on the router port named `port`: that of the last attachment reached for it. */
  ghost function LastAddress(rows: Rows, ns: string, sw: string, atts: seq<Attachment>, port: string): Option<string> {
    if atts == [] || !Resolves(rows, ns, sw, atts[0]) then None
    else
      var later := LastAddress(rows, ns, sw, atts[1..], port);
      if later.Some? then later
      else if LrpName(RouterRef(ns, atts[0].name).value, sw) == port then Some(atts[0].address)
      else None
  }

  lemma {:induction false} LastAddressKept(rows: Rows, rows': Rows, ns: string, sw: string, atts: seq<Attachment>,
      port: string)
    requires Grown(rows, rows') && UniqueNames(rows')
    ensures LastAddress(rows', ns, sw, atts, port) == LastAddress(rows, ns, sw, atts, port)
  {
    if atts != [] {
      ResolvesKept(rows, rows', ns, sw, atts[0]);
      LastAddressKept(rows, rows', ns, sw, atts[1..], port);
    }
  }

  /** The ports of every attachment reached exist. */
  ghost predicate PortsReady(rows: Rows, ns: string, sw: string, atts: seq<Attachment>) {
    atts == [] || !Resolves(rows, ns, sw, atts[0])
    || (HasPorts(rows, RouterRef(ns, atts[0].name).value, sw) && PortsReady(rows, ns, sw, atts[1..]))
  }

  lemma {:induction false} PortsStayReady(rows: Rows, rows': Rows, ns: string, sw: string, atts: seq<Attachment>)
    requires Grown(rows, rows') && UniqueNames(rows') && PortsReady(rows, ns, sw, atts)
    ensures PortsReady(rows', ns, sw, atts)
  {
    if atts != [] {
      ResolvesKept(rows, rows', ns, sw, atts[0]);
      if Resolves(rows, ns, sw, atts[0]) {
        var r := RouterRef(ns, atts[0].name).value;
        GrownLookup(rows, rows', LogicalRouterPort, LrpName(r, sw));
        GrownLookup(rows, rows', LogicalSwitchPort, LspName(sw, r));
        PortsStayReady(rows, rows', ns, sw, atts[1..]);
      }
    }
  }

  lemma {:induction false} AllAttachedGrows(db: Db, ns: string, sw: string, atts: seq<Attachment>)
    requires Valid(db)
    ensures Valid(AllAttached(db, ns, sw, atts).db) && Grown(db.rows, AllAttached(db, ns, sw, atts).db.rows)
    decreases |atts|
  {
    if atts != [] {
      AttachedEffect(db, ns, sw, atts[0]);
      var o := Attached(db, ns, sw, atts[0]);
      if o.result.Ok? {
        AllAttachedGrows(o.db, ns, sw, atts[1..]);
        GrownTwice(db.rows, o.db.rows, AllAttached(db, ns, sw, atts).db.rows);
      }
    }
  }

  /** Router ports the loop does not reach keep their rows. */
  lemma {:induction false} UnreachedKept(db: Db, ns: string, sw: string, atts: seq<Attachment>, u: Uuid)
    requires Valid(db) && u in db.rows && db.rows[u].RouterPort?
    requires LastAddress(db.rows, ns, sw, atts, db.rows[u].name).None?
    ensures u in AllAttached(db, ns, sw, atts).db.rows && AllAttached(db, ns, sw, atts).db.rows[u] == db.rows[u]
    decreases |atts|
  {
    if atts != [] {
      AttachedEffect(db, ns, sw, atts[0]);
      var o := Attached(db, ns, sw, atts[0]);
      if o.result.Ok? {
        assert u in o.db.rows && o.db.rows[u] == db.rows[u];
        LastAddressKept(db.rows, o.db.rows, ns, sw, atts[1..], db.rows[u].name);
        UnreachedKept(o.db, ns, sw, atts[1..], u);
      }
    }
  }

  ghost predicate PortHasAddress(rows: Rows, port: string, address: string) {
    var p := Lookup(rows, LogicalRouterPort, port);
    p.Some? && rows[p.value] == RouterPort(port, ROUTER_MAC, address)
  }

  /** Router ports the loop reaches end with the last address. */
  lemma {:induction false} ReachedHasAddress(db: Db, ns: string, sw: string, atts: seq<Attachment>, port: string)
    requires Valid(db) && LastAddress(db.rows, ns, sw, atts, port).Some?
    ensures PortHasAddress(AllAttached(db, ns, sw, atts).db.rows, port, LastAddress(db.rows, ns, sw, atts, port).value)
    decreases |atts|
  {
    AttachedEffect(db, ns, sw, atts[0]);
    var o := Attached(db, ns, sw, atts[0]);
    LastAddressKept(db.rows, o.db.rows, ns, sw, atts[1..], port);
    if LastAddress(o.db.rows, ns, sw, atts[1..], port).Some? {
      ReachedHasAddress(o.db, ns, sw, atts[1..], port);
    } else {
      var p := Lookup(o.db.rows, LogicalRouterPort, port).value;
      UnreachedKept(o.db, ns, sw, atts[1..], p);
      AllAttachedGrows(o.db, ns, sw, atts[1..]);
      LookupIs(AllAttached(o.db, ns, sw, atts[1..]).db.rows, LogicalRouterPort, port, p);
    }
  }

  lemma {:induction false} LoopMakesPorts(db: Db, ns: string, sw: string, atts: seq<Attachment>)
    requires Valid(db)
    ensures PortsReady(AllAttached(db, ns, sw, atts).db.rows, ns, sw, atts)
    decreases |atts|
  {
    if atts != [] {
      AttachedEffect(db, ns, sw, atts[0]);
      var o := Attached(db, ns, sw, atts[0]);
      ResolvesKept(db.rows, o.db.rows, ns, sw, atts[0]);
      if o.result.Ok? {
        LoopMakesPorts(o.db, ns, sw, atts[1..]);
        AllAttachedGrows(o.db, ns, sw, atts[1..]);
        var rows' := AllAttached(o.db, ns, sw, atts[1..]).db.rows;
        ResolvesKept(o.db.rows, rows', ns, sw, atts[0]);
        var r := RouterRef(ns, atts[0].name).value;
        GrownLookup(o.db.rows, rows', LogicalRouterPort, LrpName(r, sw));
        GrownLookup(o.db.rows, rows', LogicalSwitchPort, LspName(sw, r));
      }
    }
  }

  /** Same rows but for the contents of router ports. */
  ghost predicate OnlyPortsDiffer(db: Db, db': Db) {
    && db'.next == db.next && db'.rows.Keys == db.rows.Keys
    && forall u :: u in db.rows && !db.rows[u].RouterPort? ==> db'.rows[u] == db.rows[u]
  }

  lemma AttachedAgain(db: Db, ns: string, sw: string, att: Attachment)
    requires Valid(db) && Resolves(db.rows, ns, sw, att) && HasPorts(db.rows, RouterRef(ns, att.name).value, sw)
    ensures Attached(db, ns, sw, att).result.Ok? && OnlyPortsDiffer(db, Attached(db, ns, sw, att).db)
  {
    var r := RouterRef(ns, att.name).value;
    ConnectedAgain(db, Lookup(db.rows, LogicalRouter, r).value, r, Lookup(db.rows, LogicalSwitch, sw).value, sw,
      att.address);
  }

  /** Once the ports exist the loop only rewrites addresses. */
  lemma {:induction false} AllAttachedAgain(db: Db, ns: string, sw: string, atts: seq<Attachment>)
    requires Valid(db) && PortsReady(db.rows, ns, sw, atts)
    ensures OnlyPortsDiffer(db, AllAttached(db, ns, sw, atts).db)
    decreases |atts|
  {
    if atts != [] {
      AttachedEffect(db, ns, sw, atts[0]);
      if Resolves(db.rows, ns, sw, atts[0]) {
        AttachedAgain(db, ns, sw, atts[0]);
        var o := Attached(db, ns, sw, atts[0]);
        PortsStayReady(db.rows, o.db.rows, ns, sw, atts[1..]);
        AllAttachedAgain(o.db, ns, sw, atts[1..]);
      }
    }
  }

  /** The loop's result depends only on which names exist. */
  lemma {:induction false} SameResult(a: Db, b: Db, ns: string, sw: string, atts: seq<Attachment>)
    requires Valid(a) && Valid(b)
    requires forall att :: Resolves(a.rows, ns, sw, att) <==> Resolves(b.rows, ns, sw, att)
    ensures AllAttached(a, ns, sw, atts).result == AllAttached(b, ns, sw, atts).result
    decreases |atts|
  {
    if atts != [] && Resolves(a.rows, ns, sw, atts[0]) {
      AttachedEffect(a, ns, sw, atts[0]);
      AttachedEffect(b, ns, sw, atts[0]);
      var a', b' := Attached(a, ns, sw, atts[0]).db, Attached(b, ns, sw, atts[0]).db;
      forall att
        ensures Resolves(a'.rows, ns, sw, att) <==> Resolves(b'.rows, ns, sw, att)
      {
        ResolvesKept(a.rows, a'.rows, ns, sw, att);
        ResolvesKept(b.rows, b'.rows, ns, sw, att);
      }
      SameResult(a', b', ns, sw, atts[1..]);
    }
  }

  /** A router port's row after the second run of the loop is its row after the first. */
  lemma PortRowTwice(db: Db, ns: string, sw: string, atts: seq<Attachment>, u: Uuid)
    requires Valid(db)
    requires var f := AllAttached(db, ns, sw, atts).db; u in f.rows && f.rows[u].RouterPort? && Valid(f)
    ensures var f := AllAttached(db, ns, sw, atts).db; var g := AllAttached(f, ns, sw, atts).db;
            u in g.rows && g.rows[u] == f.rows[u]
  {
    var f := AllAttached(db, ns, sw, atts).db;
    var g := AllAttached(f, ns, sw, atts).db;
    var port := f.rows[u].name;
    AllAttachedGrows(db, ns, sw, atts);
    AllAttachedGrows(f, ns, sw, atts);
    LastAddressKept(db.rows, f.rows, ns, sw, atts, port);
    if LastAddress(f.rows, ns, sw, atts, port).None? {
      UnreachedKept(f, ns, sw, atts, u);
    } else {
      ReachedHasAddress(db, ns, sw, atts, port);
      ReachedHasAddress(f, ns, sw, atts, port);
      LookupIs(f.rows, LogicalRouterPort, port, u);
      GrownLookup(f.rows, g.rows, LogicalRouterPort, port);
    }
  }

  /** The second run of the loop adds no row. */
  lemma RowsTwice(db: Db, ns: string, sw: string, atts: seq<Attachment>)
    requires Valid(db)
    ensures var f := AllAttached(db, ns, sw, atts).db; AllAttached(f, ns, sw, atts).db.rows == f.rows
  {
    AllAttachedGrows(db, ns, sw, atts);
    var f := AllAttached(db, ns, sw, atts).db;
    LoopMakesPorts(db, ns, sw, atts);
    AllAttachedAgain(f, ns, sw, atts);
    var g := AllAttached(f, ns, sw, atts).db;
    forall u | u in f.rows
      ensures u in g.rows && g.rows[u] == f.rows[u]
    {
      if f.rows[u].RouterPort? {
        PortRowTwice(db, ns, sw, atts, u);
      }
    }
  }

  /** The loop is idempotent, also when an attachment fails or a router is attached twice. */
  lemma AttachedTwice(db: Db, ns: string, sw: string, atts: seq<Attachment>)
    requires Valid(db)
    ensures AllAttached(AllAttached(db, ns, sw, atts).db, ns, sw, atts) == AllAttached(db, ns, sw, atts)
  {
    AllAttachedGrows(db, ns, sw, atts);
    var f := AllAttached(db, ns, sw, atts).db;
    LoopMakesPorts(db, ns, sw, atts);
    AllAttachedAgain(f, ns, sw, atts);
    RowsTwice(db, ns, sw, atts);
    forall att
      ensures Resolves(f.rows, ns, sw, att) <==> Resolves(db.rows, ns, sw, att)
    {
      ResolvesKept(db.rows, f.rows, ns, sw, att);
    }
    SameResult(f, db, ns, sw, atts);
  }

  // DHCP options

  function SubnetConfig(cidr: string): map<string, string> {
    map["subnet" := cidr]
  }

  ghost function DhcpRow(db: Db, cidr: string): Db {
    if HasDhcp(db.rows, cidr) then db else Commit(db, InsertOps(Dhcp(cidr, map[])))
  }

  /** What `ensure_dhcp` does with the options row it found or created. */
  ghost function DhcpConfigured(db: Db, found: Uuid, sw: string, dhcp: DhcpSpec): Outcome<()> {
    if dhcp.options.None? then Outcome(db, Err(BadCidr))
    else
      var configured := Commit(db, UpdateOps(found, SetDhcpOptions(dhcp.options.value)));
      var ls := Lookup(configured.rows, LogicalSwitch, sw);
      if ls.None? then Outcome(configured, Err(NotFound))
      else Outcome(Commit(configured, UpdateOps(ls.value, SetOtherConfig(SubnetConfig(dhcp.cidr)))), Ok(()))
  }

  /** `ensure_dhcp`, where the lookup finds the row `found` */
  ghost function EnsuredDhcp(db: Db, sw: string, dhcp: DhcpSpec, found: Uuid): Outcome<()> {
    DhcpConfigured(DhcpRow(db, dhcp.cidr), found, sw, dhcp)
  }

  /** The DHCP options row and the switch are as the spec wants them. */
  ghost predicate DhcpReady(rows: Rows, sw: string, dhcp: DhcpSpec, found: Uuid) {
    var ls := Lookup(rows, LogicalSwitch, sw);
    && IsDhcp(rows, found, dhcp.cidr)
    && (dhcp.options.Some? ==>
          && rows[found].dhcpOptions == dhcp.options.value
          && (ls.Some? ==> rows[ls.value].otherConfig == SubnetConfig(dhcp.cidr)))
  }

  lemma DhcpRowEffect(db: Db, cidr: string)
    requires Valid(db)
    ensures var db' := DhcpRow(db, cidr);
            && Valid(db') && HasDhcp(db'.rows, cidr)
            && (forall name :: Lookup(db'.rows, LogicalSwitch, name) == Lookup(db.rows, LogicalSwitch, name))
  {
    var row := Dhcp(cidr, map[]);
    if !HasDhcp(db.rows, cidr) {
      InsertRootEffect(db, row);
      var db' := DhcpRow(db, cidr);
      assert IsDhcp(db'.rows, db.next, cidr);
      forall name
        ensures Lookup(db'.rows, LogicalSwitch, name) == Lookup(db.rows, LogicalSwitch, name)
      {
        var r, r' := Lookup(db.rows, LogicalSwitch, name), Lookup(db'.rows, LogicalSwitch, name);
        if r.Some? {
          LookupIs(db'.rows, LogicalSwitch, name, r.value);
        } else {
          assert forall u :: IsNamed(db'.rows, u, LogicalSwitch, name) ==> IsNamed(db.rows, u, LogicalSwitch, name);
        }
      }
    }
  }

  /** An update of a column that is no name, on a row of its table. */
  lemma ColumnUpdate(db: Db, u: Uuid, patch: Patch)
    requires Valid(db) && Hits(db.rows, PatchTable(patch), u) && (patch.SetDhcpOptions? || patch.SetOtherConfig?)
    ensures PatchRow(db.rows[u], patch).Some?
    ensures var db' := Commit(db, UpdateOps(u, patch)); var row := PatchRow(db.rows[u], patch).value;
            && Valid(db') && db' == Db(db.rows[u := row], db.next)
            && TableOf(row) == TableOf(db.rows[u]) && NameOf(row) == NameOf(db.rows[u])
  {
    UpdateEffect(db, u, patch);
  }

  /** A column update keeps what lookups find. */
  lemma ColumnKeepsLookups(db: Db, u: Uuid, patch: Patch, sw: string, cidr: string)
    requires Valid(db) && Hits(db.rows, PatchTable(patch), u) && (patch.SetDhcpOptions? || patch.SetOtherConfig?)
    ensures var db' := Commit(db, UpdateOps(u, patch));
            && Lookup(db'.rows, LogicalSwitch, sw) == Lookup(db.rows, LogicalSwitch, sw)
            && forall v :: IsDhcp(db'.rows, v, cidr) <==> IsDhcp(db.rows, v, cidr)
  {
    ColumnUpdate(db, u, patch);
    var db' := Commit(db, UpdateOps(u, patch));
    LookupKept(db.rows, db'.rows, LogicalSwitch, sw);
  }

  lemma DhcpMadeReady(db: Db, sw: string, dhcp: DhcpSpec, found: Uuid)
    requires Valid(db) && Lookup(db.rows, LogicalSwitch, sw).Some?
             && IsDhcp(DhcpRow(db, dhcp.cidr).rows, found, dhcp.cidr)
    ensures var o := EnsuredDhcp(db, sw, dhcp, found);
            && Valid(o.db) && DhcpReady(o.db.rows, sw, dhcp, found)
            && Lookup(o.db.rows, LogicalSwitch, sw).Some?
            && o.result == if dhcp.options.Some? then Ok(()) else Err(BadCidr)
  {
    DhcpRowEffect(db, dhcp.cidr);
    var created := DhcpRow(db, dhcp.cidr);
    if dhcp.options.Some? {
      ColumnUpdate(created, found, SetDhcpOptions(dhcp.options.value));
      ColumnKeepsLookups(created, found, SetDhcpOptions(dhcp.options.value), sw, dhcp.cidr);
      var configured := Commit(created, UpdateOps(found, SetDhcpOptions(dhcp.options.value)));
      var ls := Lookup(configured.rows, LogicalSwitch, sw).value;
      ColumnUpdate(configured, ls, SetOtherConfig(SubnetConfig(dhcp.cidr)));
      ColumnKeepsLookups(configured, ls, SetOtherConfig(SubnetConfig(dhcp.cidr)), sw, dhcp.cidr);
    }
  }

  /** When everything is as wanted the step changes nothing. */
  lemma DhcpAgain(db: Db, sw: string, dhcp: DhcpSpec, found: Uuid)
    requires Valid(db) && DhcpReady(db.rows, sw, dhcp, found) && Lookup(db.rows, LogicalSwitch, sw).Some?
    ensures EnsuredDhcp(db, sw, dhcp, found) == Outcome(db, if dhcp.options.Some? then Ok(()) else Err(BadCidr))
  {
    if dhcp.options.Some? {
      var ls := Lookup(db.rows, LogicalSwitch, sw).value;
      ColumnUpdate(db, found, SetDhcpOptions(dhcp.options.value));
      assert db.rows[found := db.rows[found]] == db.rows;
      ColumnUpdate(db, ls, SetOtherConfig(SubnetConfig(dhcp.cidr)));
      assert db.rows[ls := db.rows[ls]] == db.rows;
    }
  }

  lemma ReadyStays(rows: Rows, rows': Rows, sw: string, dhcp: DhcpSpec, found: Uuid)
    requires Grown(rows, rows') && UniqueNames(rows') && DhcpReady(rows, sw, dhcp, found)
    ensures DhcpReady(rows', sw, dhcp, found)
  {
    assert GrownRow(rows[found], rows'[found]);
    GrownLookup(rows, rows', LogicalSwitch, sw);
    var ls := Lookup(rows, LogicalSwitch, sw);
    if ls.Some? {
      assert GrownRow(rows[ls.value], rows'[ls.value]);
    }
  }

  // The reconcile

  /** The options row that the reconcile's lookup finds, if it looks. */
  ghost predicate Chosen(db: Db, spec: NetworkSpec, found: Uuid) {
    spec.dhcp.Some? ==>
      IsDhcp(DhcpRow(EnsureRoot(db, Switch(SwitchName(spec), {}, map[])).db, spec.dhcp.value.cidr).rows, found,
        spec.dhcp.value.cidr)
  }

  ghost function SwitchAndDhcp(db: Db, spec: NetworkSpec, found: Uuid): Outcome<()> {
    var created := EnsureRoot(db, Switch(SwitchName(spec), {}, map[])).db;
    if spec.dhcp.None? then Outcome(created, Ok(())) else EnsuredDhcp(created, SwitchName(spec), spec.dhcp.value, found)
  }

  /** `update_network` on the database */
  ghost function UpdatedNetwork(db: Db, spec: NetworkSpec, found: Uuid): Outcome<()> {
    var o := SwitchAndDhcp(db, spec, found);
    if o.result.Err? then o else AllAttached(o.db, spec.ns, SwitchName(spec), spec.routers)
  }

  ghost predicate SwitchReady(rows: Rows, spec: NetworkSpec, found: Uuid) {
    && Lookup(rows, LogicalSwitch, SwitchName(spec)).Some?
    && (spec.dhcp.Some? ==> DhcpReady(rows, SwitchName(spec), spec.dhcp.value, found))
  }

  function FirstResult(spec: NetworkSpec): Result<()> {
    if spec.dhcp.Some? && spec.dhcp.value.options.None? then Err(BadCidr) else Ok(())
  }

  lemma SwitchMadeReady(db: Db, spec: NetworkSpec, found: Uuid)
    requires Valid(db) && Chosen(db, spec, found)
    ensures var o := SwitchAndDhcp(db, spec, found);
            && Valid(o.db) && SwitchReady(o.db.rows, spec, found) && o.result == FirstResult(spec)
  {
    var row := Switch(SwitchName(spec), {}, map[]);
    EnsureRootEffect(db, row);
    var created := EnsureRoot(db, row).db;
    LookupIs(created.rows, LogicalSwitch, SwitchName(spec), EnsureRoot(db, row).result.value);
    if spec.dhcp.Some? {
      DhcpMadeReady(created, SwitchName(spec), spec.dhcp.value, found);
    }
  }

  lemma SwitchAgain(db: Db, spec: NetworkSpec, found: Uuid)
    requires Valid(db) && SwitchReady(db.rows, spec, found)
    ensures Chosen(db, spec, found) && SwitchAndDhcp(db, spec, found) == Outcome(db, FirstResult(spec))
  {
    EnsureRootEffect(db, Switch(SwitchName(spec), {}, map[]));
    if spec.dhcp.Some? {
      DhcpAgain(db, SwitchName(spec), spec.dhcp.value, found);
    }
  }

  /** The loop ends without an error only if every attachment's router exists. */
  lemma {:induction false} AllResolved(db: Db, ns: string, sw: string, atts: seq<Attachment>, att: Attachment)
    requires Valid(db) && AllAttached(db, ns, sw, atts).result.Ok? && att in atts
    ensures Resolves(db.rows, ns, sw, att)
    decreases |atts|
  {
    AttachedEffect(db, ns, sw, atts[0]);
    var o := Attached(db, ns, sw, atts[0]);
    if att != atts[0] {
      AllResolved(o.db, ns, sw, atts[1..], att);
      ResolvesKept(db.rows, o.db.rows, ns, sw, att);
    }
  }

  lemma ReconciledSwitch(first: Db, f: Db, spec: NetworkSpec, found: Uuid)
    requires Valid(f) && Grown(first.rows, f.rows) && SwitchReady(first.rows, spec, found)
    ensures SwitchReady(f.rows, spec, found)
  {
    GrownLookup(first.rows, f.rows, LogicalSwitch, SwitchName(spec));
    if spec.dhcp.Some? {
      ReadyStays(first.rows, f.rows, SwitchName(spec), spec.dhcp.value, found);
    }
  }

  /**
    A reconcile without an error leaves the switch, its DHCP settings, and for every attachment both
    ports, the router port with the last address the spec gives it.
   */
  lemma NetworkReconciled(db: Db, spec: NetworkSpec, found: Uuid)
    requires Valid(db) && Chosen(db, spec, found)
    requires UpdatedNetwork(db, spec, found).result.Ok?
    ensures var rows' := UpdatedNetwork(db, spec, found).db.rows; var sw := SwitchName(spec);
            && SwitchReady(rows', spec, found) && PortsReady(rows', spec.ns, sw, spec.routers)
            && (forall att :: att in spec.routers ==> Resolves(rows', spec.ns, sw, att))
            && (forall port :: LastAddress(rows', spec.ns, sw, spec.routers, port).Some? ==>
                  PortHasAddress(rows', port, LastAddress(rows', spec.ns, sw, spec.routers, port).value))
  {
    var sw := SwitchName(spec);
    SwitchMadeReady(db, spec, found);
    var first := SwitchAndDhcp(db, spec, found).db;
    var f := AllAttached(first, spec.ns, sw, spec.routers).db;
    AllAttachedGrows(first, spec.ns, sw, spec.routers);
    ReconciledSwitch(first, f, spec, found);
    LoopMakesPorts(first, spec.ns, sw, spec.routers);
    forall att | att in spec.routers
      ensures Resolves(f.rows, spec.ns, sw, att)
    {
      AllResolved(first, spec.ns, sw, spec.routers, att);
      ResolvesKept(first.rows, f.rows, spec.ns, sw, att);
    }
    forall port | LastAddress(f.rows, spec.ns, sw, spec.routers, port).Some?
      ensures PortHasAddress(f.rows, port, LastAddress(f.rows, spec.ns, sw, spec.routers, port).value)
    {
      LastAddressKept(first.rows, f.rows, spec.ns, sw, spec.routers, port);
      ReachedHasAddress(first, spec.ns, sw, spec.routers, port);
    }
  }

  /** A repeated reconcile whose lookup finds a row that is as wanted has the same result and changes nothing. */
  lemma ReadyNetworkTwice(db: Db, spec: NetworkSpec, found: Uuid, again: Uuid)
    requires Valid(db) && Chosen(db, spec, found) && SwitchReady(UpdatedNetwork(db, spec, found).db.rows, spec, again)
    ensures UpdatedNetwork(UpdatedNetwork(db, spec, found).db, spec, again) == UpdatedNetwork(db, spec, found)
  {
    var sw := SwitchName(spec);
    SwitchMadeReady(db, spec, found);
    var first := SwitchAndDhcp(db, spec, found);
    if first.result.Err? {
      SwitchAgain(first.db, spec, again);
    } else {
      AllAttachedGrows(first.db, spec.ns, sw, spec.routers);
      SwitchAgain(AllAttached(first.db, spec.ns, sw, spec.routers).db, spec, again);
      AttachedTwice(first.db, spec.ns, sw, spec.routers);
    }
  }

  lemma NetworkReady(db: Db, spec: NetworkSpec, found: Uuid)
    requires Valid(db) && Chosen(db, spec, found)
    ensures var o := UpdatedNetwork(db, spec, found); Valid(o.db) && SwitchReady(o.db.rows, spec, found)
  {
    SwitchMadeReady(db, spec, found);
    var first := SwitchAndDhcp(db, spec, found);
    if first.result.Ok? {
      AllAttachedGrows(first.db, spec.ns, SwitchName(spec), spec.routers);
      ReconciledSwitch(first.db, AllAttached(first.db, spec.ns, SwitchName(spec), spec.routers).db, spec, found);
    }
  }

  /** The row that a repeated reconcile's lookup finds has the options that the spec wants, if it can have them. */
  ghost predicate RowIsReady(rows: Rows, spec: NetworkSpec, found: Uuid) {
    spec.dhcp.Some? && spec.dhcp.value.options.Some? ==>
      found in rows && rows[found].Dhcp? && rows[found].dhcpOptions == spec.dhcp.value.options.value
  }

  /**
    Main result: a repeated reconcile has the same result and changes nothing if and only if its lookup finds
    a row with the options of the spec. The row of the first reconcile is one.
   */
  lemma UpdatedNetworkTwice(db: Db, spec: NetworkSpec, found: Uuid, again: Uuid)
    requires Valid(db) && Chosen(db, spec, found) && Chosen(UpdatedNetwork(db, spec, found).db, spec, again)
    ensures Valid(UpdatedNetwork(db, spec, found).db)
    ensures UpdatedNetwork(UpdatedNetwork(db, spec, found).db, spec, again) == UpdatedNetwork(db, spec, found) <==>
            RowIsReady(UpdatedNetwork(db, spec, found).db.rows, spec, again)
    ensures RowIsReady(UpdatedNetwork(db, spec, found).db.rows, spec, found)
  {
    var once := UpdatedNetwork(db, spec, found);
    NetworkReady(db, spec, found);
    NetworkReady(once.db, spec, again);
    if RowIsReady(once.db.rows, spec, again) {
      assert SwitchReady(once.db.rows, spec, again) by {
        EnsureRootEffect(once.db, Switch(SwitchName(spec), {}, map[]));
      }
      ReadyNetworkTwice(db, spec, found, again);
    }
  }

  /** An options row of the CIDR, created if there is none. */
  method EnsureDhcpRow(ovn: Ovn, cidr: string) returns (r: Result<Uuid>)
    requires Valid(ovn.db)
    modifies ovn
    ensures Valid(ovn.db) && ovn.db == DhcpRow(old(ovn.db), cidr)
    ensures r.Ok? && IsDhcp(ovn.db.rows, r.value, cidr)
  {
    DhcpRowEffect(ovn.db, cidr);
    r := GetByCidr(ovn, cidr);
    if r.Err? {
      var _ := ovn.Transact(InsertOps(Dhcp(cidr, map[])));
      r := GetByCidr(ovn, cidr);
    }
  }

  method ConfigureDhcp(ovn: Ovn, found: Uuid, sw: string, dhcp: DhcpSpec) returns (r: Result<()>)
    requires Valid(ovn.db) && IsDhcp(ovn.db.rows, found, dhcp.cidr)
    modifies ovn
    ensures Valid(ovn.db) && Outcome(ovn.db, r) == DhcpConfigured(old(ovn.db), found, sw, dhcp)
  {
    if dhcp.options.None? {
      return Err(BadCidr);
    }
    ColumnUpdate(ovn.db, found, SetDhcpOptions(dhcp.options.value));
    var _ := ovn.Transact(UpdateOps(found, SetDhcpOptions(dhcp.options.value)));
    var ls := ovn.GetByName(LogicalSwitch, sw);
    if ls.Err? {
      return Err(ls.error);
    }
    ColumnUpdate(ovn.db, ls.value.uuid, SetOtherConfig(SubnetConfig(dhcp.cidr)));
    var _ := ovn.Transact(UpdateOps(ls.value.uuid, SetOtherConfig(SubnetConfig(dhcp.cidr))));
    r := Ok(());
  }

  /** It configures the row that the server lists first. */
  method EnsureDhcp(ovn: Ovn, sw: string, dhcp: DhcpSpec) returns (r: Result<()>)
    requires Valid(ovn.db)
    modifies ovn
    ensures Valid(ovn.db)
    ensures exists found :: IsDhcp(DhcpRow(old(ovn.db), dhcp.cidr).rows, found, dhcp.cidr)
                            && Outcome(ovn.db, r) == EnsuredDhcp(old(ovn.db), sw, dhcp, found)
  {
    DhcpRowEffect(ovn.db, dhcp.cidr);
    var found := EnsureDhcpRow(ovn, dhcp.cidr);
    r := ConfigureDhcp(ovn, found.value, sw, dhcp);
  }

  method EnsureRouterAttachment(ovn: Ovn, ns: string, sw: string, att: Attachment) returns (r: Result<Uuid>)
    requires Valid(ovn.db)
    modifies ovn
    ensures Valid(ovn.db) && Outcome(ovn.db, r) == Attached(old(ovn.db), ns, sw, att)
  {
    var name := RouterRef(ns, att.name);
    if name.None? {
      return Err(Panicked);
    }
    var lr := ovn.GetByName(LogicalRouter, name.value);
    if lr.Err? {
      return Err(lr.error);
    }
    var ls := ovn.GetByName(LogicalSwitch, sw);
    if ls.Err? {
      return Err(ls.error);
    }
    r := ConnectRouterToLs(ovn, lr.value.uuid, lr.value.row.name, ls.value.uuid, ls.value.row.name, att.address);
  }

  /** `update_network` after the finalizer is in place */
  method UpdateNetwork(ovn: Ovn, spec: NetworkSpec) returns (r: Result<()>)
    requires Valid(ovn.db)
    modifies ovn
    ensures Valid(ovn.db)
    ensures exists found ::
              Chosen(old(ovn.db), spec, found) && Outcome(ovn.db, r) == UpdatedNetwork(old(ovn.db), spec, found)
  {
    var _ := ovn.CreateIfMissing(Switch(SwitchName(spec), {}, map[]));
    ghost var found: Uuid := 0;
    if spec.dhcp.Some? {
      ghost var created := ovn.db;
      var configured := EnsureDhcp(ovn, SwitchName(spec), spec.dhcp.value);
      found :| IsDhcp(DhcpRow(created, spec.dhcp.value.cidr).rows, found, spec.dhcp.value.cidr)
               && Outcome(ovn.db, configured) == EnsuredDhcp(created, SwitchName(spec), spec.dhcp.value, found);
      assert Chosen(old(ovn.db), spec, found);
      if configured.Err? {
        return Err(configured.error);
      }
    }
    ghost var start := ovn.db;
    assert Chosen(old(ovn.db), spec, found) && Outcome(start, Ok(())) == SwitchAndDhcp(old(ovn.db), spec, found);
    for i := 0 to |spec.routers|
      invariant Valid(ovn.db)
      invariant AllAttached(ovn.db, spec.ns, SwitchName(spec), spec.routers[i..]) ==
                AllAttached(start, spec.ns, SwitchName(spec), spec.routers)
    {
      assert spec.routers[i..][0] == spec.routers[i] && spec.routers[i..][1..] == spec.routers[i + 1..];
      var attached := EnsureRouterAttachment(ovn, spec.ns, SwitchName(spec), spec.routers[i]);
      if attached.Err? {
        return Err(attached.error);
      }
    }
    r := Ok(());
  }

  /** `remove_network`: a switch that is already gone is no error. */
  method RemoveNetwork(ovn: Ovn, name: string)
    requires Valid(ovn.db)
    modifies ovn
    ensures Valid(ovn.db) && ovn.db == DeleteNamed(old(ovn.db), LogicalSwitch, name).db
    ensures forall u :: !IsNamed(ovn.db.rows, u, LogicalSwitch, name)
  {
    var ls := ovn.GetByName(LogicalSwitch, name);
    if ls.Ok? {
      DeleteEffect(ovn.db, LogicalSwitch, ls.value.uuid);
      ovn.Delete(LogicalSwitch, ls.value.uuid);
      forall u
        ensures !IsNamed(ovn.db.rows, u, LogicalSwitch, name)
      {
        assert IsNamed(ovn.db.rows, u, LogicalSwitch, name) ==> SameName(old(ovn.db).rows[u], ls.value.row);
      }
    }
  }
}
