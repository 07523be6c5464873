/**
  The reconciles of networks, routers and NICs as the code makes them are runs of the machine of `OvnInterleaving`,
  in which their requests may be interleaved with those of others. `may` has to allow the names they create.
 */
module OvnRuns {
  import opened Prelude
  import opened Ovsdb
  import opened OvnTransactions
  import opened OvnObjects
  import opened OvnInterleaving
  import opened OvnConnect
  import opened Networks
  import opened Routes
  import opened RouteUpdate
  import R = Routers
  import K = Kube
  import P = VmPorts
  import V = VmOvn

  /** The steps, all of process `p`, take `s` to `s'`. */
  ghost predicate Leads(may: Permission, s: State, steps: seq<Step>, s': State) {
    Run(may, s, steps) && After(may, s, steps) == s'
  }

  lemma LeadsOn(may: Permission, s: State, step: Step, steps: seq<Step>, s': State)
    requires Enabled(s, step) && Leads(may, Apply(may, s, step), steps, s')
    ensures Leads(may, s, [step] + steps, s')
  {
    assert ([step] + steps)[1..] == steps;
  }

  lemma {:induction false} LeadsAll(may: Permission, s: State, first: seq<Step>, mid: State, rest: seq<Step>, s': State)
    requires Leads(may, s, first, mid) && Leads(may, mid, rest, s')
    ensures Leads(may, s, first + rest, s')
    decreases |first|
  {
    if first == [] {
      assert first + rest == rest;
    } else {
      LeadsAll(may, Apply(may, s, first[0]), first[1..], mid, rest, s');
      LeadsOn(may, s, first[0], first[1..] + rest, s');
      assert first + rest == [first[0]] + (first[1..] + rest);
    }
  }

  lemma LeadsOnce(may: Permission, s: State, step: Step)
    requires Enabled(s, step)
    ensures Leads(may, s, [step], Apply(may, s, step))
  {
    LeadsOn(may, s, step, [], Apply(may, s, step));
    assert [step] + [] == [step];
  }

  /** The process can begin a call: no address change of it is under way. */
  predicate Ready(s: State, p: Proc) {
    p in s.procs && s.procs[p].pending.None?
  }

  /** From `s` a run of steps of `p` alone leads to `s'`, with the database `db` and what the process knew before. */
  ghost predicate Reaches(may: Permission, s: State, p: Proc, db: Db, s': State) {
    && (exists steps :: Leads(may, s, steps, s')) && s'.db == db
    && Ready(s, p) && Ready(s', p) && s.procs[p].handles <= s'.procs[p].handles
    && s'.procs.Keys == s.procs.Keys && forall q :: q in s.procs && q != p ==> s'.procs[q] == s.procs[q]
  }

  lemma ReachesAll(may: Permission, s: State, p: Proc, db: Db, mid: State, db': Db, s': State)
    requires Reaches(may, s, p, db, mid) && Reaches(may, mid, p, db', s')
    ensures Reaches(may, s, p, db', s')
  {
    var first :| Leads(may, s, first, mid);
    var rest :| Leads(may, mid, rest, s');
    LeadsAll(may, s, first, mid, rest, s');
  }

  lemma ReachesHere(may: Permission, s: State, p: Proc)
    requires Ready(s, p)
    ensures Reaches(may, s, p, s.db, s)
  {
    assert Leads(may, s, [], s);
  }

  lemma ReachesOnce(may: Permission, s: State, p: Proc, step: Step)
    requires Ready(s, p) && step.p == p && Enabled(s, step)
    requires Ready(Apply(may, s, step), p) && s.procs[p].handles <= Apply(may, s, step).procs[p].handles
    ensures Reaches(may, s, p, Apply(may, s, step).db, Apply(may, s, step))
  {
    LeadsOnce(may, s, step);
  }

  // Typed operations

  lemma LookReaches(may: Permission, s: State, p: Proc, table: Table, name: string) returns (s': State)
    requires Ready(s, p)
    ensures Reaches(may, s, p, s.db, s')
    ensures match Lookup(s.db.rows, table, name)
            case Some(u) => Handle(u, Claim(table, name)) in s'.procs[p].handles
            case None => may(Claim(table, name), p) ==> Claim(table, name) in s'.procs[p].missing
  {
    ReachesOnce(may, s, p, Look(p, Claim(table, name)));
    s' := Apply(may, s, Look(p, Claim(table, name)));
  }

  lemma EnsureRootReaches(may: Permission, s: State, p: Proc, row: Row) returns (s': State)
    requires Ready(s, p) && IsNewRoot(row) && may(ClaimOf(row), p)
    ensures Reaches(may, s, p, EnsureRoot(s.db, row).db, s')
  {
    var looked := LookReaches(may, s, p, TableOf(row), NameOf(row).value);
    if Lookup(s.db.rows, TableOf(row), NameOf(row).value).Some? {
      s' := looked;
    } else {
      ReachesOnce(may, looked, p, CreateRoot(p, row));
      s' := Apply(may, looked, CreateRoot(p, row));
      ReachesAll(may, s, p, s.db, looked, s'.db, s');
    }
  }

  /** A port is found or created, and then the process knows its row. */
  lemma EnsurePortReaches(may: Permission, s: State, p: Proc, owner: Uuid, row: Row) returns (s': State)
    requires Ready(s, p) && IsNewPort(row) && may(ClaimOf(row), p)
    requires row.SwitchPort? ==> row.addresses == "" || row.addresses == "router"
    ensures Reaches(may, s, p, EnsurePort(s.db, owner, row).db, s')
    ensures var r := EnsurePort(s.db, owner, row).result;
            r.Ok? ==> Handle(r.value, ClaimOf(row)) in s'.procs[p].handles
  {
    var looked := LookReaches(may, s, p, TableOf(row), NameOf(row).value);
    if Lookup(s.db.rows, TableOf(row), NameOf(row).value).Some? {
      s' := looked;
    } else {
      var step := OvnInterleaving.CreatePort(p, owner, row);
      ReachesOnce(may, looked, p, step);
      var created := Apply(may, looked, step);
      ReachesAll(may, s, p, s.db, looked, created.db, created);
      s' := LookReaches(may, created, p, TableOf(row), NameOf(row).value);
      ReachesAll(may, s, p, created.db, created, created.db, s');
    }
  }

  lemma UpdateReaches(may: Permission, s: State, p: Proc, u: Uuid, patch: Patch) returns (s': State)
    requires Ready(s, p) && !patch.SetAddresses?
    requires patch.SetRouterPort? ==> Handle(u, Claim(LogicalRouterPort, patch.name)) in s.procs[p].handles
    ensures Reaches(may, s, p, Commit(s.db, UpdateOps(u, patch)), s')
  {
    ReachesOnce(may, s, p, ChangeRow(p, u, patch));
    s' := Apply(may, s, ChangeRow(p, u, patch));
  }

  /** `set_address`: the owner is listed, the MACs are checked, and the address is written. */
  lemma AddressReaches(may: Permission, s: State, p: Proc, port: PortHandle, mac: string, ip: IpConfiguration)
    returns (s': State)
    requires Ready(s, p) && IsMac(mac)
    ensures Reaches(may, s, p, WithAddress(s.db, port, mac, ip).db, s')
  {
    var owner := OwnerOf(s.db.rows, port.uuid);
    if Contains(port.addresses, mac) {
      s' := s;
      ReachesHere(may, s, p);
    } else if owner.None? {
      ReachesOnce(may, s, p, FindOwner(p, port, mac));
      s' := Apply(may, s, FindOwner(p, port, mac));
    } else {
      var found := Apply(may, s, FindOwner(p, port, mac));
      var checked := Apply(may, found, CheckMac(p));
      if MacInUse(s.db.rows, owner.value, mac) {
        LeadsOnce(may, found, CheckMac(p));
        LeadsOn(may, s, FindOwner(p, port, mac), [CheckMac(p)], checked);
        s' := checked;
      } else {
        s' := Apply(may, checked, WriteAddress(p, ip));
        LeadsOnce(may, checked, WriteAddress(p, ip));
        LeadsOn(may, found, CheckMac(p), [WriteAddress(p, ip)], s');
        LeadsOn(may, s, FindOwner(p, port, mac), [CheckMac(p)] + [WriteAddress(p, ip)], s');
      }
    }
  }

  // Reconciles

  /** The process may create the ports that join the router and the switch. */
  ghost predicate MayJoin(may: Permission, p: Proc, r: string, sw: string) {
    may(Claim(LogicalRouterPort, LrpName(r, sw)), p) && may(Claim(LogicalSwitchPort, LspName(sw, r)), p)
  }

  lemma ConnectedReaches(may: Permission, s: State, p: Proc, lr: Uuid, r: string, ls: Uuid, sw: string, address: string)
    returns (s': State)
    requires Ready(s, p) && MayJoin(may, p, r, sw)
    ensures Reaches(may, s, p, Connected(s.db, lr, r, ls, sw, address).db, s')
  {
    var lrp := EnsurePort(s.db, lr, LrpRow(r, sw, address));
    var made := EnsurePortReaches(may, s, p, lr, LrpRow(r, sw, address));
    if lrp.result.Err? {
      s' := made;
    } else {
      var patch := SetRouterPort(LrpName(r, sw), ROUTER_MAC, address);
      var updated := UpdateReaches(may, made, p, lrp.result.value, patch);
      ReachesAll(may, s, p, made.db, made, updated.db, updated);
      s' := EnsurePortReaches(may, updated, p, ls, LspRow(r, sw));
      ReachesAll(may, s, p, updated.db, updated, s'.db, s');
    }
  }

  /** The process may join the switch to every router that an attachment names. */
  ghost predicate MayAttach(may: Permission, p: Proc, ns: string, sw: string, atts: seq<Attachment>) {
    forall att :: att in atts && RouterRef(ns, att.name).Some? ==> MayJoin(may, p, RouterRef(ns, att.name).value, sw)
  }

  lemma AttachedReaches(may: Permission, s: State, p: Proc, ns: string, sw: string, att: Attachment) returns (s': State)
    requires Ready(s, p) && (RouterRef(ns, att.name).Some? ==> MayJoin(may, p, RouterRef(ns, att.name).value, sw))
    ensures Reaches(may, s, p, Attached(s.db, ns, sw, att).db, s')
  {
    if RouterRef(ns, att.name).None? || !Resolves(s.db.rows, ns, sw, att) {
      s' := s;
      ReachesHere(may, s, p);
    } else {
      var r := RouterRef(ns, att.name).value;
      s' := ConnectedReaches(may, s, p, Lookup(s.db.rows, LogicalRouter, r).value, r,
                             Lookup(s.db.rows, LogicalSwitch, sw).value, sw, att.address);
    }
  }

  lemma {:induction false} AllAttachedReaches(may: Permission, s: State, p: Proc, ns: string, sw: string,
      atts: seq<Attachment>)
    returns (s': State)
    requires Ready(s, p) && MayAttach(may, p, ns, sw, atts)
    ensures Reaches(may, s, p, AllAttached(s.db, ns, sw, atts).db, s')
    decreases |atts|
  {
    if atts == [] {
      s' := s;
      ReachesHere(may, s, p);
    } else {
      assert atts[0] in atts;
      s' := AttachedReaches(may, s, p, ns, sw, atts[0]);
      if Attached(s.db, ns, sw, atts[0]).result.Ok? {
        var first := s';
        s' := AllAttachedReaches(may, first, p, ns, sw, atts[1..]);
        ReachesAll(may, s, p, first.db, first, s'.db, s');
      }
    }
  }

  lemma DhcpRowReaches(may: Permission, s: State, p: Proc, cidr: string) returns (s': State)
    requires Ready(s, p)
    ensures Reaches(may, s, p, DhcpRow(s.db, cidr), s')
  {
    if HasDhcp(s.db.rows, cidr) {
      s' := s;
      ReachesHere(may, s, p);
    } else {
      ReachesOnce(may, s, p, CreateDhcp(p, cidr));
      s' := Apply(may, s, CreateDhcp(p, cidr));
    }
  }

  lemma EnsuredDhcpReaches(may: Permission, s: State, p: Proc, sw: string, dhcp: DhcpSpec, found: Uuid)
    returns (s': State)
    requires Ready(s, p)
    ensures Reaches(may, s, p, EnsuredDhcp(s.db, sw, dhcp, found).db, s')
  {
    var created := DhcpRowReaches(may, s, p, dhcp.cidr);
    s' := created;
    if dhcp.options.Some? {
      var configured := UpdateReaches(may, created, p, found, SetDhcpOptions(dhcp.options.value));
      ReachesAll(may, s, p, created.db, created, configured.db, configured);
      s' := configured;
      var ls := Lookup(configured.db.rows, LogicalSwitch, sw);
      if ls.Some? {
        s' := UpdateReaches(may, configured, p, ls.value, SetOtherConfig(SubnetConfig(dhcp.cidr)));
        ReachesAll(may, s, p, configured.db, configured, s'.db, s');
      }
    }
  }

  /**
    Main result: the reconcile of a network, whatever its result, is a run of the machine by one process that may
    create the switch and the ports of the attachments.
   */
  lemma NetworkIsRun(may: Permission, s: State, p: Proc, spec: NetworkSpec, found: Uuid) returns (s': State)
    requires Ready(s, p) && may(Claim(LogicalSwitch, SwitchName(spec)), p)
    requires MayAttach(may, p, spec.ns, SwitchName(spec), spec.routers)
    ensures Reaches(may, s, p, UpdatedNetwork(s.db, spec, found).db, s')
  {
    var sw := SwitchName(spec);
    var created := EnsureRootReaches(may, s, p, Switch(sw, {}, map[]));
    var first := created;
    if spec.dhcp.Some? {
      first := EnsuredDhcpReaches(may, created, p, sw, spec.dhcp.value, found);
      ReachesAll(may, s, p, created.db, created, first.db, first);
    }
    s' := first;
    if SwitchAndDhcp(s.db, spec, found).result.Ok? {
      s' := AllAttachedReaches(may, first, p, spec.ns, sw, spec.routers);
      ReachesAll(may, s, p, first.db, first, s'.db, s');
    }
  }

  /** The requests of a connect after its port is there. */
  lemma ServeReaches(may: Permission, s: State, p: Proc, port: Uuid, mac: string, ip: IpConfiguration,
      dhcp: Result<Option<string>>, found: Option<Uuid>)
    returns (s': State)
    requires Ready(s, p) && IsMac(mac) && port in s.db.rows && s.db.rows[port].SwitchPort?
    ensures var addressed := AddressSet(s.db, port, mac, ip);
            Reaches(may, s, p, if addressed.result.Err? then addressed.db
                               else V.WithDhcp(addressed.db, port, dhcp, found).db, s')
  {
    var addressed := AddressReaches(may, s, p, PortHandle(port, s.db.rows[port].addresses), mac, ip);
    s' := addressed;
    if AddressSet(s.db, port, mac, ip).result.Ok? && dhcp.Ok? && dhcp.value.Some? && found.Some? {
      s' := UpdateReaches(may, addressed, p, port, Patch.SetDhcp(found.value));
      ReachesAll(may, s, p, addressed.db, addressed, s'.db, s');
    }
  }

  /** A connect that finds its switch ensures the port and then serves it. */
  lemma ConnectSplits(db: Db, key: K.Key, nic: K.Nic, dhcp: Result<Option<string>>, found: Option<Uuid>, ls: Uuid)
    returns (port: Uuid)
    requires Valid(db) && V.HasPortId(nic) && nic.mac.Some?
    requires Lookup(db.rows, LogicalSwitch, P.SwitchOf(key, nic)) == Some(ls)
    ensures var made := EnsurePort(db, ls, P.PortRow(nic.ovnId.value));
            && made.result == Ok(port) && port in made.db.rows && made.db.rows[port].SwitchPort?
            && var addressed := AddressSet(made.db, port, nic.mac.value, V.IpOf(db.rows[ls]));
               V.NicConnected(db, key, nic, dhcp, found).db ==
                 if addressed.result.Err? then addressed.db else V.WithDhcp(addressed.db, port, dhcp, found).db
  {
    V.PortAdded(db, ls, nic.ovnId.value);
    port := EnsurePort(db, ls, P.PortRow(nic.ovnId.value)).result.value;
  }

  /** The same for connecting a NIC: its MAC is a word, and the process may create its port. */
  lemma NicIsRun(may: Permission, s: State, p: Proc, key: K.Key, nic: K.Nic, dhcp: Result<Option<string>>,
      found: Option<Uuid>)
    returns (s': State)
    requires Ready(s, p) && Valid(s.db)
    requires nic.ovnId.Some? && nic.mac.Some? ==>
               may(Claim(LogicalSwitchPort, nic.ovnId.value), p) && IsMac(nic.mac.value)
    ensures Reaches(may, s, p, V.NicConnected(s.db, key, nic, dhcp, found).db, s')
  {
    if V.HasPortId(nic) && nic.mac.Some? && Lookup(s.db.rows, LogicalSwitch, P.SwitchOf(key, nic)).Some? {
      var ls := Lookup(s.db.rows, LogicalSwitch, P.SwitchOf(key, nic)).value;
      var port := ConnectSplits(s.db, key, nic, dhcp, found, ls);
      var made := EnsurePortReaches(may, s, p, ls, P.PortRow(nic.ovnId.value));
      s' := ServeReaches(may, made, p, port, nic.mac.value, V.IpOf(s.db.rows[ls]), dhcp, found);
      ReachesAll(may, s, p, made.db, made, s'.db, s');
    } else {
      ReachesHere(may, s, p);
      s' := s;
    }
  }

  lemma RoutesReaches(may: Permission, s: State, p: Proc, lr: Uuid, specs: seq<RouteSpec>, checked: bool)
    returns (s': State)
    requires Ready(s, p) && Valid(s.db) && RouterAt(s.db.rows, lr)
    ensures Reaches(may, s, p, RoutesSet(s.db, lr, specs, checked).db, s')
  {
    var h := HandleFor(s.db.rows, lr);
    OrderIsIrrelevant(s.db, h, specs, checked);
    RouteSetEffect(s.db, h, specs, checked);
    CurrentRoutesExist(s.db, h);
    var stored := GetRoutes(s.db.rows, h.routes).value;
    ReachesHere(may, s, p);
    s' := s;
    if |Missing(stored, specs)| <= Limit(checked) {
      var step := ChangeRoutes(p, lr, Missing(stored, specs), Extra(stored, specs));
      ReachesOnce(may, s, p, step);
      s' := Apply(may, s, step);
    }
  }

  /** The process may create the metadata network of the router. */
  ghost predicate MayServe(may: Permission, p: Proc, r: string) {
    && may(Claim(LogicalSwitch, R.MdsName(r)), p) && may(Claim(LogicalSwitchPort, R.MdsName(r)), p)
    && MayJoin(may, p, r, R.MdsName(r))
  }

  lemma MdsPortReaches(may: Permission, s: State, p: Proc, sw: Uuid, r: string) returns (s': State)
    requires Ready(s, p) && Valid(s.db) && IsNamed(s.db.rows, sw, LogicalSwitch, R.MdsName(r)) && MayServe(may, p, r)
    ensures Reaches(may, s, p, R.MdsPortMade(s.db, sw, r).db, s')
  {
    R.MdsPortAddresses(s.db, sw, r);
    var lsp := EnsurePort(s.db, sw, R.MdsPort(r));
    var port := EnsurePortReaches(may, s, p, sw, R.MdsPort(r));
    var handle := PortHandle(lsp.result.value, lsp.db.rows[lsp.result.value].addresses);
    s' := AddressReaches(may, port, p, handle, R.MDS_MAC, Address(R.MDS_ADDRESS));
    ReachesAll(may, s, p, port.db, port, s'.db, s');
  }

  lemma MetadataReaches(may: Permission, s: State, p: Proc, lr: Uuid, r: string) returns (s': State)
    requires Ready(s, p) && Valid(s.db) && IsNamed(s.db.rows, lr, LogicalRouter, r) && MayServe(may, p, r)
    ensures Reaches(may, s, p, R.MetadataConnected(s.db, lr, r).db, s')
  {
    var sw, made, linked := R.MdsSwitch(s.db, lr, r);
    var created := EnsureRootReaches(may, s, p, Switch(R.MdsName(r), {}, map[]));
    var joined := ConnectedReaches(may, created, p, lr, r, sw, R.MdsName(r), R.MDS_NETWORK);
    ReachesAll(may, s, p, created.db, created, joined.db, joined);
    s' := MdsPortReaches(may, joined, p, sw, r);
    ReachesAll(may, s, p, joined.db, joined, s'.db, s');
  }

  /** The same for a router, its routes and its metadata network. */
  lemma RouterIsRun(may: Permission, s: State, p: Proc, spec: R.RouterSpec, checked: bool, deployed: bool)
    returns (s': State)
    requires Ready(s, p) && Valid(s.db) && may(Claim(LogicalRouter, R.RouterName(spec)), p)
    requires spec.metadata ==> MayServe(may, p, R.RouterName(spec))
    ensures Reaches(may, s, p, R.UpdatedRouter(s.db, spec, checked, deployed).db, s')
  {
    var row := Router(R.RouterName(spec), {}, {});
    EnsureRootEffect(s.db, row);
    var lr := EnsureRoot(s.db, row).result.value;
    var created := EnsureRootReaches(may, s, p, row);
    R.RoutesSetEffect(created.db, lr, spec.routes, checked);
    var routed := RoutesReaches(may, created, p, lr, spec.routes, checked);
    ReachesAll(may, s, p, created.db, created, routed.db, routed);
    s' := routed;
    if RoutesSet(created.db, lr, spec.routes, checked).result.Ok? && spec.metadata && deployed {
      s' := MetadataReaches(may, routed, p, lr, R.RouterName(spec));
      ReachesAll(may, s, p, routed.db, routed, s'.db, s');
    }
  }

  /** The removal of a network's switch or of a router is a run of any process. */
  lemma RemovalIsRun(may: Permission, s: State, p: Proc, table: Table, name: string) returns (s': State)
    requires Ready(s, p) && (table == LogicalSwitch || table == LogicalRouter)
    ensures Reaches(may, s, p, DeleteNamed(s.db, table, name).db, s')
  {
    s' := LookReaches(may, s, p, table, name);
    var found := Lookup(s.db.rows, table, name);
    if found.Some? {
      var looked := s';
      ReachesOnce(may, looked, p, Remove(p, table, found.value));
      s' := Apply(may, looked, Remove(p, table, found.value));
      ReachesAll(may, s, p, looked.db, looked, s'.db, s');
    }
  }

  /** And so is disconnecting a NIC. */
  lemma DisconnectIsRun(may: Permission, s: State, p: Proc, key: K.Key, nic: K.Nic) returns (s': State)
    requires Ready(s, p)
    ensures Reaches(may, s, p, V.NicDisconnected(s.db, key, nic).db, s')
  {
    ReachesHere(may, s, p);
    s' := s;
    if V.HasPortId(nic) {
      var port := Lookup(s.db.rows, LogicalSwitchPort, nic.ovnId.value);
      var ls := Lookup(s.db.rows, LogicalSwitch, P.SwitchOf(key, nic));
      if port.Some? && ls.Some? {
        ReachesOnce(may, s, p, RemoveLsp(p, ls.value, port.value));
        s' := Apply(may, s, RemoveLsp(p, ls.value, port.value));
      }
    }
  }

  /** A process that began with nothing in mind and finishes leaves only the database changed. */
  lemma EndsIdle(may: Permission, s: State, p: Proc, db: Db, s': State)
    requires Reaches(may, s, p, db, s') && s.procs[p] == Local({}, {}, None)
    ensures exists steps :: Leads(may, s, steps, State(db, s.procs))
  {
    var steps :| Leads(may, s, steps, s');
    var last := Apply(may, s', OvnInterleaving.Finish(p));
    LeadsOnce(may, s', OvnInterleaving.Finish(p));
    LeadsAll(may, s, steps, s', [OvnInterleaving.Finish(p)], last);
    assert last == State(db, s.procs);
  }
}
