/**
  The VM's OVN controller as code: connecting and disconnecting the NICs of a VM, and the two
  reconcile functions with their writes to the API server.
 */
module VmOvn {
  import opened Prelude
  import opened Ovsdb
  import opened OvnTransactions
  import opened OvnObjects
  import opened VmPorts
  import K = Kube

  /** What `disconnect_vm_nic` and `connect_vm_nic` unwrap. */
  predicate HasPortId(nic: K.Nic) {
    nic.name.Some? && nic.ovnId.Some?
  }

  /** `disconnect_vm_nic` */
  ghost function NicDisconnected(db: Db, key: K.Key, nic: K.Nic): Outcome<()> {
    if !HasPortId(nic) then Outcome(db, Err(Panicked))
    else if Lookup(db.rows, LogicalSwitchPort, nic.ovnId.value).None? then Outcome(db, Ok(()))
    else
      var ls := Lookup(db.rows, LogicalSwitch, SwitchOf(key, nic));
      if ls.None? then Outcome(db, Err(NotFound))
      else Outcome(WithoutLsp(db, ls.value, nic.ovnId.value).db, Ok(()))
  }

  ghost function AllDisconnected(db: Db, key: K.Key, nics: seq<K.Nic>): Outcome<()>
    decreases |nics|
  {
    if nics == [] then Outcome(db, Ok(()))
    else
      var o := NicDisconnected(db, key, nics[0]);
      if o.result.Err? then o else AllDisconnected(o.db, key, nics[1..])
  }

  /** The port of a NIC, if there is one, is on the switch the NIC names. */
  ghost predicate OnOwnSwitch(rows: Rows, key: K.Key, nic: K.Nic) {
    HasPortId(nic) ==> forall u, s, name :: Hosted(rows, u, s, name, nic.ovnId.value) ==> name == SwitchOf(key, nic)
  }

  /** No port gets a new place. */
  ghost predicate Fewer(rows: Rows, rows': Rows) {
    forall u, s, name, id :: Hosted(rows', u, s, name, id) ==> Hosted(rows, u, s, name, id)
  }

  lemma NicDisconnectedEffect(db: Db, key: K.Key, nic: K.Nic)
    requires Valid(db)
    ensures var o := NicDisconnected(db, key, nic);
            && Valid(o.db)
            && Fewer(db.rows, o.db.rows)
            && (o.result.Ok? && OnOwnSwitch(db.rows, key, nic) ==> NoPort(o.db.rows, nic.ovnId.value))
            && (o.result.Err? ==> o.db == db)
  {
    if HasPortId(nic) {
      var port := Lookup(db.rows, LogicalSwitchPort, nic.ovnId.value);
      var ls := Lookup(db.rows, LogicalSwitch, SwitchOf(key, nic));
      if port.Some? && ls.Some? {
        RemovePortEffect(db, ls.value, port.value);
        if OnOwnSwitch(db.rows, key, nic) {
          forall u, s, name | Hosted(db.rows, u, s, name, nic.ovnId.value)
            ensures s == ls.value
          {
            LookupIs(db.rows, LogicalSwitch, SwitchOf(key, nic), s);
          }
          DeletedIsGone(db, ls.value, port.value, nic.ovnId.value);
        }
      }
    }
  }

  lemma NoPortWithout(db: Db, db': Db, id: string)
    requires Valid(db) && Valid(db') && NoPort(db.rows, id)
    requires Fewer(db.rows, db'.rows)
    ensures NoPort(db'.rows, id)
  {
    forall u
      ensures !PortNamed(db'.rows, u, id)
    {
      if PortNamed(db'.rows, u, id) {
        var s := PortIsHosted(db', u, id);
      }
    }
  }

  lemma {:induction false} AllDisconnectedShrinks(db: Db, key: K.Key, nics: seq<K.Nic>)
    requires Valid(db)
    ensures Valid(AllDisconnected(db, key, nics).db) && Fewer(db.rows, AllDisconnected(db, key, nics).db.rows)
    decreases |nics|
  {
    if nics != [] {
      NicDisconnectedEffect(db, key, nics[0]);
      var first := NicDisconnected(db, key, nics[0]);
      if first.result.Ok? {
        AllDisconnectedShrinks(first.db, key, nics[1..]);
      }
    }
  }

  ghost predicate AllOnOwnSwitch(rows: Rows, key: K.Key, nics: seq<K.Nic>) {
    forall n :: n in nics ==> OnOwnSwitch(rows, key, n)
  }

  lemma StillOnOwnSwitch(rows: Rows, rows': Rows, key: K.Key, nics: seq<K.Nic>)
    requires nics != [] && Fewer(rows, rows') && AllOnOwnSwitch(rows, key, nics)
    ensures AllOnOwnSwitch(rows', key, nics[1..])
  {
    forall n | n in nics[1..]
      ensures OnOwnSwitch(rows', key, n)
    {
      assert n in nics && OnOwnSwitch(rows, key, n);
    }
  }

  /** A loop that ends without an error leaves no port of the NICs it went through. */
  lemma {:induction false} AllDisconnectedClears(db: Db, key: K.Key, nics: seq<K.Nic>)
    requires Valid(db) && AllDisconnected(db, key, nics).result.Ok? && AllOnOwnSwitch(db.rows, key, nics)
    ensures forall n :: n in nics ==> n.ovnId.Some? && NoPort(AllDisconnected(db, key, nics).db.rows, n.ovnId.value)
    decreases |nics|
  {
    if nics != [] {
      assert nics[0] in nics && OnOwnSwitch(db.rows, key, nics[0]);
      NicDisconnectedEffect(db, key, nics[0]);
      var first := NicDisconnected(db, key, nics[0]).db;
      StillOnOwnSwitch(db.rows, first.rows, key, nics);
      AllDisconnectedClears(first, key, nics[1..]);
      AllDisconnectedShrinks(first, key, nics[1..]);
      NoPortWithout(first, AllDisconnected(first, key, nics[1..]).db, nics[0].ovnId.value);
      assert forall n :: n in nics ==> n == nics[0] || n in nics[1..];
    }
  }

  /** The address part of `connect_vm_nic`: dynamic when the switch has a subnet. */
  function IpOf(switch: Row): IpConfiguration
    requires switch.Switch?
  {
    if "subnet" in switch.otherConfig then Dynamic else NoIp
  }

  /** What the lookup of the network's DHCP options can find, if it looks. */
  ghost predicate Found(rows: Rows, dhcp: Result<Option<string>>, found: Option<Uuid>) {
    dhcp.Ok? && dhcp.value.Some? ==> CanFind(rows, dhcp.value.value, found)
  }

  function WithDhcp(db: Db, port: Uuid, dhcp: Result<Option<string>>, found: Option<Uuid>): Outcome<()> {
    match dhcp
    case Err(e) => Outcome(db, Err(e))
    case Ok(None) => Outcome(db, Ok(()))
    case Ok(Some(_)) =>
      if found.None? then Outcome(db, Err(NotFound))
      else Outcome(Commit(db, UpdateOps(port, SetDhcp(found.value))), Ok(()))
  }

  /**
    `connect_vm_nic`; `dhcp` is the CIDR of the network's DHCP settings, or why they could not be read, and
    `found` the options row that the lookup finds.
   */
  ghost function NicConnected(db: Db, key: K.Key, nic: K.Nic, dhcp: Result<Option<string>>,
      found: Option<Uuid>): Outcome<()> {
    if !HasPortId(nic) || nic.mac.None? then Outcome(db, Err(Panicked))
    else
      var ls := Lookup(db.rows, LogicalSwitch, SwitchOf(key, nic));
      if ls.None? then Outcome(db, Err(NotFound))
      else
        var lsp := EnsurePort(db, ls.value, PortRow(nic.ovnId.value));
        if lsp.result.Err? then Outcome(lsp.db, Err(lsp.result.error))
        else
          var addressed := AddressSet(lsp.db, lsp.result.value, nic.mac.value, IpOf(db.rows[ls.value]));
          if addressed.result.Err? then Outcome(addressed.db, Err(addressed.result.error))
          else WithDhcp(addressed.db, lsp.result.value, dhcp, found)
  }

  method DisconnectVmNic(ovn: Ovn, key: K.Key, nic: K.Nic) returns (r: Result<()>)
    requires Valid(ovn.db)
    modifies ovn
    ensures Valid(ovn.db) && Outcome(ovn.db, r) == NicDisconnected(old(ovn.db), key, nic)
  {
    if !HasPortId(nic) {
      return Err(Panicked);
    }
    var lsp := ovn.GetByName(LogicalSwitchPort, nic.ovnId.value);
    if lsp.Ok? {
      var ls := ovn.GetByName(LogicalSwitch, SwitchOf(key, nic));
      if ls.Err? {
        return Err(ls.error);
      }
      var _ := ovn.DelLsp(ls.value.uuid, nic.ovnId.value);
    }
    r := Ok(());
  }

  /** The DHCP options rows are the same. */
  ghost predicate SameDhcp(rows: Rows, rows': Rows) {
    forall u, cidr :: IsDhcp(rows', u, cidr) <==> IsDhcp(rows, u, cidr)
  }

  lemma NewPortKeepsDhcp(db: Db, owner: Uuid, row: Row)
    requires Valid(db) && IsNewPort(row)
    ensures SameDhcp(db.rows, WithNewPort(db, owner, row).rows)
  {
  }

  lemma PortKeepsDhcp(db: Db, owner: Uuid, row: Row)
    requires Valid(db) && IsNewPort(row)
    ensures SameDhcp(db.rows, EnsurePort(db, owner, row).db.rows)
  {
    EnsurePortEffect(db, owner, row);
    NewPortKeepsDhcp(db, owner, row);
  }

  lemma AddressKeepsDhcp(db: Db, port: PortHandle, mac: string, ip: IpConfiguration)
    requires Valid(db)
    ensures SameDhcp(db.rows, WithAddress(db, port, mac, ip).db.rows)
  {
    UpdateEffect(db, port.uuid, SetAddresses(AddressOf(mac, ip)));
  }

  ghost predicate PortExists(rows: Rows, id: string) {
    Lookup(rows, LogicalSwitchPort, id).Some?
  }

  ghost predicate PortsStay(rows: Rows, rows': Rows) {
    forall id :: PortExists(rows, id) ==> PortExists(rows', id)
  }

  lemma SwitchPortsStay(rows: Rows, rows': Rows)
    requires forall u :: u in rows && rows[u].SwitchPort? ==>
             u in rows' && rows'[u].SwitchPort? && rows'[u].name == rows[u].name
    ensures PortsStay(rows, rows')
  {
    forall id | PortExists(rows, id)
      ensures PortExists(rows', id)
    {
      assert PortNamed(rows', Lookup(rows, LogicalSwitchPort, id).value, id);
    }
  }

  lemma PortAdded(db: Db, owner: Uuid, id: string)
    requires Valid(db) && Hits(db.rows, LogicalSwitch, owner)
    ensures var o := EnsurePort(db, owner, PortRow(id));
            && Valid(o.db) && o.result.Ok? && PortsStay(db.rows, o.db.rows) && PortExists(o.db.rows, id)
            && PortNamed(o.db.rows, o.result.value, id)
  {
    EnsurePortEffect(db, owner, PortRow(id));
    var o := EnsurePort(db, owner, PortRow(id));
    SwitchPortsStay(db.rows, o.db.rows);
    assert PortNamed(o.db.rows, o.result.value, id);
  }

  lemma AddressKeepsPorts(db: Db, port: Uuid, mac: string, ip: IpConfiguration)
    requires Valid(db) && port in db.rows && db.rows[port].SwitchPort?
    ensures Valid(AddressSet(db, port, mac, ip).db) && PortsStay(db.rows, AddressSet(db, port, mac, ip).db.rows)
  {
    UpdateEffect(db, port, SetAddresses(AddressOf(mac, ip)));
    SwitchPortsStay(db.rows, AddressSet(db, port, mac, ip).db.rows);
  }

  lemma SomeFound(rows: Rows, dhcp: Result<Option<string>>) returns (found: Option<Uuid>)
    ensures Found(rows, dhcp, found)
  {
    found := None;
    if dhcp.Ok? && dhcp.value.Some? && HasDhcp(rows, dhcp.value.value) {
      var u :| IsDhcp(rows, u, dhcp.value.value);
      found := Some(u);
    }
  }

  method SetDhcpOptions(ovn: Ovn, port: Uuid, dhcp: Result<Option<string>>) returns (r: Result<()>)
    requires Valid(ovn.db)
    modifies ovn
    ensures Valid(ovn.db)
    ensures exists found ::
              Found(old(ovn.db).rows, dhcp, found) && Outcome(ovn.db, r) == WithDhcp(old(ovn.db), port, dhcp, found)
    ensures PortsStay(old(ovn.db).rows, ovn.db.rows)
  {
    if dhcp.Err? {
      assert Found(ovn.db.rows, dhcp, None);
      return Err(dhcp.error);
    }
    ghost var found: Option<Uuid> := None;
    if dhcp.value.Some? {
      var options := GetByCidr(ovn, dhcp.value.value);
      if options.Err? {
        assert Found(ovn.db.rows, dhcp, None);
        return Err(options.error);
      }
      found := Some(options.value);
      UpdateEffect(ovn.db, port, Patch.SetDhcp(options.value));
      var _ := ovn.Transact(UpdateOps(port, Patch.SetDhcp(options.value)));
      SwitchPortsStay(old(ovn.db).rows, ovn.db.rows);
    }
    assert Found(old(ovn.db).rows, dhcp, found);
    r := Ok(());
  }

  lemma FoundKept(rows: Rows, rows': Rows, dhcp: Result<Option<string>>, found: Option<Uuid>)
    requires SameDhcp(rows, rows')
    ensures Found(rows', dhcp, found) <==> Found(rows, dhcp, found)
  {
    if dhcp.Ok? && dhcp.value.Some? {
      assert forall u :: IsDhcp(rows', u, dhcp.value.value) <==> IsDhcp(rows, u, dhcp.value.value);
    }
  }

  /** The call ends like this for some options row that the lookup can find. */
  ghost predicate Connects(db: Db, key: K.Key, nic: K.Nic, dhcp: Result<Option<string>>, o: Outcome<()>) {
    exists found :: Found(db.rows, dhcp, found) && NicConnected(db, key, nic, dhcp, found) == o
  }

  method ConnectVmNic(ovn: Ovn, key: K.Key, nic: K.Nic, dhcp: Result<Option<string>>) returns (r: Result<()>)
    requires Valid(ovn.db)
    modifies ovn
    ensures Valid(ovn.db)
    ensures Connects(old(ovn.db), key, nic, dhcp, Outcome(ovn.db, r))
    ensures PortsStay(old(ovn.db).rows, ovn.db.rows)
    ensures r.Ok? ==> r == Ok(()) && HasPortId(nic) && PortExists(ovn.db.rows, nic.ovnId.value)
  {
    ghost var found := SomeFound(ovn.db.rows, dhcp);
    if !HasPortId(nic) || nic.mac.None? {
      return Err(Panicked);
    }
    var ls := ovn.GetByName(LogicalSwitch, SwitchOf(key, nic));
    if ls.Err? {
      return Err(ls.error);
    }
    PortKeepsDhcp(ovn.db, ls.value.uuid, PortRow(nic.ovnId.value));
    PortAdded(ovn.db, ls.value.uuid, nic.ovnId.value);
    var lsp := ovn.CreatePortIfMissing(ls.value.uuid, PortRow(nic.ovnId.value));
    var handle := PortHandle(lsp.value.uuid, lsp.value.row.addresses);
    AddressKeepsDhcp(ovn.db, handle, nic.mac.value, IpOf(ls.value.row));
    AddressKeepsPorts(ovn.db, lsp.value.uuid, nic.mac.value, IpOf(ls.value.row));
    var addressed := ovn.SetAddress(handle, nic.mac.value, IpOf(ls.value.row));
    if addressed.Err? {
      return Err(addressed.error);
    }
    ghost var before := ovn.db;
    r := SetDhcpOptions(ovn, lsp.value.uuid, dhcp);
    found :| Found(before.rows, dhcp, found) && Outcome(ovn.db, r) == WithDhcp(before, lsp.value.uuid, dhcp, found);
    FoundKept(old(ovn.db).rows, before.rows, dhcp, found);
  }

  /**
    The port of a connected NIC, with the DHCP options of the network if it has any; `carries` is whether it has
    the MAC.
   */
  ghost predicate PortServes(rows: Rows, nic: K.Nic, dhcp: Option<string>, carries: bool)
    requires HasPortId(nic) && nic.mac.Some?
  {
    exists u :: PortNamed(rows, u, nic.ovnId.value) && rows[u].SwitchPort?
                && (Token(rows[u].addresses) == nic.mac.value <==> carries)
                && (dhcp.Some? ==> exists d :: rows[u].dhcp == {d} && IsDhcp(rows, d, dhcp.value))
  }

  /** The addresses of the port before the call, none if it is still to be created. */
  ghost function OldAddresses(rows: Rows, id: string): string {
    var port := Lookup(rows, LogicalSwitchPort, id);
    if port.Some? && rows[port.value].SwitchPort? then rows[port.value].addresses else ""
  }

  lemma DhcpSet(db: Db, port: Uuid, dhcp: Option<string>, found: Option<Uuid>)
    requires Valid(db) && port in db.rows && db.rows[port].SwitchPort?
    requires Found(db.rows, Ok(dhcp), found) && WithDhcp(db, port, Ok(dhcp), found).result.Ok?
    ensures var rows' := WithDhcp(db, port, Ok(dhcp), found).db.rows;
            && port in rows' && rows'[port].SwitchPort?
            && rows'[port].name == db.rows[port].name && rows'[port].addresses == db.rows[port].addresses
            && (dhcp.Some? ==> exists d :: rows'[port].dhcp == {d} && IsDhcp(rows', d, dhcp.value))
  {
    if dhcp.Some? {
      UpdateEffect(db, port, Patch.SetDhcp(found.value));
      var rows' := WithDhcp(db, port, Ok(dhcp), found).db.rows;
      assert rows'[port].dhcp == {found.value} && IsDhcp(rows', found.value, dhcp.value);
    }
  }

  lemma EnsuredAddresses(db: Db, owner: Uuid, id: string)
    requires Valid(db) && Hits(db.rows, LogicalSwitch, owner)
    ensures var o := EnsurePort(db, owner, PortRow(id));
            && o.result.Ok? && o.result.value in o.db.rows && o.db.rows[o.result.value].SwitchPort?
            && o.db.rows[o.result.value].addresses == OldAddresses(db.rows, id)
  {
    EnsurePortEffect(db, owner, PortRow(id));
  }

  /**
    A NIC connected without an error has its port, which carries the MAC exactly if its addresses before did not
    stand in the way.
   */
  lemma NicConnectedServes(db: Db, key: K.Key, nic: K.Nic, dhcp: Result<Option<string>>, found: Option<Uuid>)
    requires Valid(db) && Found(db.rows, dhcp, found) && NicConnected(db, key, nic, dhcp, found).result.Ok?
    ensures HasPortId(nic) && nic.mac.Some? && dhcp.Ok?
    ensures PortServes(NicConnected(db, key, nic, dhcp, found).db.rows, nic, dhcp.value,
                       Assignable(OldAddresses(db.rows, nic.ovnId.value), nic.mac.value))
  {
    var ls := Lookup(db.rows, LogicalSwitch, SwitchOf(key, nic)).value;
    var ip := IpOf(db.rows[ls]);
    PortAdded(db, ls, nic.ovnId.value);
    EnsuredAddresses(db, ls, nic.ovnId.value);
    var lsp := EnsurePort(db, ls, PortRow(nic.ovnId.value));
    var port := lsp.result.value;
    AddressKeepsPorts(lsp.db, port, nic.mac.value, ip);
    AddressIsSet(lsp.db, port, nic.mac.value, ip);
    TokenIsSet(lsp.db, port, nic.mac.value, ip);
    var addressed := AddressSet(lsp.db, port, nic.mac.value, ip).db;
    PortKeepsDhcp(db, ls, PortRow(nic.ovnId.value));
    AddressKeepsDhcp(lsp.db, PortHandle(port, lsp.db.rows[port].addresses), nic.mac.value, ip);
    FoundKept(db.rows, addressed.rows, dhcp, found);
    DhcpSet(addressed, port, dhcp.value, found);
    assert PortNamed(NicConnected(db, key, nic, dhcp, found).db.rows, port, nic.ovnId.value);
  }

  /** `remove_vm`: the finalizer comes off only after every NIC of the copy is disconnected. */
  method RemoveVm(api: K.ApiServer, ovn: Ovn, vm: K.Vm) returns (error: Option<Error>)
    requires Valid(ovn.db)
    modifies api, ovn
    ensures Valid(ovn.db) && ovn.db == AllDisconnected(old(ovn.db), vm.key, OvnNics(vm)).db
    ensures AllDisconnected(old(ovn.db), vm.key, OvnNics(vm)).result.Err? ==>
              error.Some? && api.Snapshot() == old(api.Snapshot())
    ensures error.None? && AllOnOwnSwitch(old(ovn.db).rows, vm.key, OvnNics(vm)) ==>
              forall n :: n in OvnNics(vm) ==> NoPort(ovn.db.rows, n.ovnId.value)
    ensures AllDisconnected(old(ovn.db), vm.key, OvnNics(vm)).result.Ok? && HasOvn(vm) ==>
              K.Response(api.Snapshot(), error) ==
                K.PutObject(old(api.Snapshot()), K.WithoutFinalizer(vm, OvnFinalizer()))
  {
    var nics := OvnNics(vm);
    AllDisconnectedShrinks(ovn.db, vm.key, nics);
    if AllDisconnected(ovn.db, vm.key, nics).result.Ok? && AllOnOwnSwitch(ovn.db.rows, vm.key, nics) {
      AllDisconnectedClears(ovn.db, vm.key, nics);
    }
    for i := 0 to |nics|
      invariant Valid(ovn.db)
      invariant AllDisconnected(ovn.db, vm.key, nics[i..]) == AllDisconnected(old(ovn.db), vm.key, nics)
      invariant api.Snapshot() == old(api.Snapshot())
    {
      assert nics[i..][0] == nics[i] && nics[i..][1..] == nics[i + 1..];
      NicDisconnectedEffect(ovn.db, vm.key, nics[i]);
      var r := DisconnectVmNic(ovn, vm.key, nics[i]);
      if r.Err? {
        return Some(r.error);
      }
    }
    var _, failed := api.RemoveFinalizer(vm, "ovn");
    error := failed;
  }

  ghost predicate AllPortsExist(rows: Rows, nics: seq<K.Nic>) {
    forall n :: n in nics ==> n.ovnId.Some? && PortExists(rows, n.ovnId.value)
  }

  lemma OneMorePort(rows: Rows, rows': Rows, nics: seq<K.Nic>, i: nat)
    requires i < |nics| && AllPortsExist(rows, nics[..i]) && PortsStay(rows, rows')
    requires nics[i].ovnId.Some? && PortExists(rows', nics[i].ovnId.value)
    ensures AllPortsExist(rows', nics[..i + 1])
  {
    assert nics[..i + 1] == nics[..i] + [nics[i]];
  }

  /** The dynamic addresses of the ports, in the order of the NICs; `dynamicIp` is what OVN has assigned to each. */
  function DynamicIps(nics: seq<K.Nic>, dynamicIp: string -> Option<string>): seq<string> {
    if nics == [] then []
    else
      var ip := if nics[0].ovnId.Some? then dynamicIp(nics[0].ovnId.value) else None;
      (if ip.Some? then [ip.value] else []) + DynamicIps(nics[1..], dynamicIp)
  }

  lemma {:induction false} DynamicIpsAppend(nics: seq<K.Nic>, nic: K.Nic, dynamicIp: string -> Option<string>)
    ensures DynamicIps(nics + [nic], dynamicIp) == DynamicIps(nics, dynamicIp) + DynamicIps([nic], dynamicIp)
  {
    if nics == [] {
      assert nics + [nic] == [nic];
    } else {
      assert (nics + [nic])[1..] == nics[1..] + [nic];
      DynamicIpsAppend(nics[1..], nic, dynamicIp);
    }
  }

  lemma OneMoreIp(nics: seq<K.Nic>, i: nat, dynamicIp: string -> Option<string>)
    requires i < |nics| && nics[i].ovnId.Some?
    ensures var ip := dynamicIp(nics[i].ovnId.value);
            DynamicIps(nics[..i + 1], dynamicIp) ==
              DynamicIps(nics[..i], dynamicIp) + if ip.Some? then [ip.value] else []
  {
    assert nics[..i + 1] == nics[..i] + [nics[i]] && [nics[i]][1..] == [];
    DynamicIpsAppend(nics[..i], nics[i], dynamicIp);
  }

  /** Connecting the NICs one after another, without an error, takes the database to `db'`. */
  ghost predicate AllConnected(db: Db, key: K.Key, nics: seq<K.Nic>, dhcp: K.Nic -> Result<Option<string>>, db': Db)
    decreases |nics|
  {
    if nics == [] then db' == db
    else
      var i := |nics| - 1;
      exists mid :: Valid(mid) && AllConnected(db, key, nics[..i], dhcp, mid)
                    && Connects(mid, key, nics[i], dhcp(nics[i]), Outcome(db', Ok(())))
  }

  lemma OneMoreConnected(db: Db, key: K.Key, nics: seq<K.Nic>, i: nat, dhcp: K.Nic -> Result<Option<string>>,
      mid: Db, db': Db)
    requires i < |nics| && Valid(mid) && AllConnected(db, key, nics[..i], dhcp, mid)
    requires Connects(mid, key, nics[i], dhcp(nics[i]), Outcome(db', Ok(())))
    ensures AllConnected(db, key, nics[..i + 1], dhcp, db')
  {
    assert nics[..i + 1][..i] == nics[..i] && nics[..i + 1][i] == nics[i];
  }

  /** The first `i` NICs are connected, which took the database from `db` to `db'`, and `ips` has their addresses. */
  ghost predicate ConnectedSoFar(db: Db, key: K.Key, nics: seq<K.Nic>, i: nat, dhcp: K.Nic -> Result<Option<string>>,
      dynamicIp: string -> Option<string>, db': Db, ips: seq<string>)
    requires i <= |nics|
  {
    && PortsStay(db.rows, db'.rows) && AllPortsExist(db'.rows, nics[..i])
    && AllConnected(db, key, nics[..i], dhcp, db') && ips == DynamicIps(nics[..i], dynamicIp)
  }

  lemma OneMoreNic(db: Db, key: K.Key, nics: seq<K.Nic>, i: nat, dhcp: K.Nic -> Result<Option<string>>,
      dynamicIp: string -> Option<string>, mid: Db, ips: seq<string>, db': Db)
    requires i < |nics| && Valid(mid) && ConnectedSoFar(db, key, nics, i, dhcp, dynamicIp, mid, ips)
    requires Connects(mid, key, nics[i], dhcp(nics[i]), Outcome(db', Ok(()))) && PortsStay(mid.rows, db'.rows)
    requires nics[i].ovnId.Some? && PortExists(db'.rows, nics[i].ovnId.value)
    ensures ConnectedSoFar(db, key, nics, i + 1, dhcp, dynamicIp, db',
                           ips + match dynamicIp(nics[i].ovnId.value) case Some(ip) => [ip] case None => [])
  {
    OneMorePort(mid.rows, db'.rows, nics, i);
    OneMoreConnected(db, key, nics, i, dhcp, mid, db');
    OneMoreIp(nics, i, dynamicIp);
  }

  /** One round of the loop. */
  method ConnectNext(ovn: Ovn, key: K.Key, nic: K.Nic, dhcp: Result<Option<string>>,
                     dynamicIp: string -> Option<string>, ips: seq<string>)
    returns (r: Result<seq<string>>)
    requires Valid(ovn.db)
    modifies ovn
    ensures Valid(ovn.db) && PortsStay(old(ovn.db).rows, ovn.db.rows)
    ensures r.Ok? ==> Connects(old(ovn.db), key, nic, dhcp, Outcome(ovn.db, Ok(())))
    ensures r.Ok? ==> nic.ovnId.Some? && PortExists(ovn.db.rows, nic.ovnId.value)
                      && r.value == ips + match dynamicIp(nic.ovnId.value) case Some(ip) => [ip] case None => []
  {
    var connected := ConnectVmNic(ovn, key, nic, dhcp);
    if connected.Err? {
      return Err(connected.error);
    }
    match dynamicIp(nic.ovnId.value) {
      case Some(ip) => r := Ok(ips + [ip]);
      case None => r := Ok(ips + []);
    }
  }

  method ConnectNics(ovn: Ovn, key: K.Key, nics: seq<K.Nic>, dhcp: K.Nic -> Result<Option<string>>,
                     dynamicIp: string -> Option<string>)
    returns (r: Result<seq<string>>)
    requires Valid(ovn.db)
    modifies ovn
    ensures Valid(ovn.db) && PortsStay(old(ovn.db).rows, ovn.db.rows)
    ensures r.Ok? ==> AllPortsExist(ovn.db.rows, nics) && r.value == DynamicIps(nics, dynamicIp)
    ensures r.Ok? ==> AllConnected(old(ovn.db), key, nics, dhcp, ovn.db)
  {
    r := Ok([]);
    for i := 0 to |nics|
      invariant Valid(ovn.db) && r.Ok?
      invariant ConnectedSoFar(old(ovn.db), key, nics, i, dhcp, dynamicIp, ovn.db, r.value)
    {
      ghost var before, ips := ovn.db, r.value;
      r := ConnectNext(ovn, key, nics[i], dhcp(nics[i]), dynamicIp, r.value);
      if r.Err? {
        return;
      }
      OneMoreNic(old(ovn.db), key, nics, i, dhcp, dynamicIp, before, ips, ovn.db);
    }
    assert nics[..|nics|] == nics;
  }

  /** `vm` is what the server stored under its version. */
  ghost predicate IsCopy(c: K.Cluster, vm: K.Vm) {
    K.Versioned(c) && (vm.key in c.vms && c.vms[vm.key].version == vm.version ==> c.vms[vm.key] == vm)
  }

  /** The version of the copy is stale once its finalizer was written, so the status write that follows conflicts. */
  lemma StaleAfterFinalizer(c: K.Cluster, vm: K.Vm, status: K.Status)
    requires IsCopy(c, vm) && !HasOvn(vm)
    requires K.PutObject(c, K.WithFinalizer(vm, OvnFinalizer())).error.None?
    ensures var copy := K.WithFinalizer(vm, OvnFinalizer());
            K.PutStatus(K.PutObject(c, copy).cluster, copy, status).error == Some(Conflict)
  {
    var copy := K.WithFinalizer(vm, OvnFinalizer());
    assert copy.finalizers != [] && HasOvn(copy);
  }

  /** The status with the addresses, as a list and as one text. */
  function WithAddresses(status: K.Status, ips: seq<string>): K.Status {
    status.(ipAddresses := Some(ips), ipAddressesString := Some(Join(ips, ",")))
  }

  /**
    `update_vm`: finalizer first, then the NICs, then the status under the version of the copy.
    `dhcp` is what the API server answers for the network of each NIC, and `dynamicIp` the address that
    OVN has assigned to a port.
   */
  method UpdateVm(api: K.ApiServer, ovn: Ovn, vm: K.Vm, dhcp: K.Nic -> Result<Option<string>>,
                  dynamicIp: string -> Option<string>)
    returns (error: Option<Error>)
    requires Valid(ovn.db)
    modifies api, ovn
    ensures Valid(ovn.db) && PortsStay(old(ovn.db).rows, ovn.db.rows)
    ensures error.None? ==>
              AllPortsExist(ovn.db.rows, OvnNics(vm)) && AllConnected(old(ovn.db), vm.key, OvnNics(vm), dhcp, ovn.db)
    ensures ovn.db != old(ovn.db) ==>
              HasOvn(vm) || K.PutObject(old(api.Snapshot()), K.WithFinalizer(vm, OvnFinalizer())).error.None?
    ensures IsCopy(old(api.Snapshot()), vm) && !HasOvn(vm) && vm.status.Some? ==> error.Some?
    ensures error.None? && HasOvn(vm) && vm.status.Some? ==>
              K.Response(api.Snapshot(), None) ==
                K.PutStatus(old(api.Snapshot()), vm, WithAddresses(vm.status.value, DynamicIps(OvnNics(vm), dynamicIp)))
    ensures HasOvn(vm) && vm.status.None? ==> api.Snapshot() == old(api.Snapshot())
  {
    var copy, failed := api.EnsureFinalizer(vm, "ovn");
    if failed.Some? {
      return failed;
    }
    var connected := ConnectNics(ovn, vm.key, OvnNics(vm), dhcp, dynamicIp);
    if connected.Err? {
      return Some(connected.error);
    }
    if copy.status.Some? {
      var status := WithAddresses(copy.status.value, connected.value);
      if IsCopy(old(api.Snapshot()), vm) && !HasOvn(vm) {
        StaleAfterFinalizer(old(api.Snapshot()), vm, status);
      }
      error := api.SetVmStatus(copy, status);
    } else {
      error := None;
    }
  }
}
