/**
  The OVN reconciles of a VM as the code makes them are runs of the machine of `VmPorts`: connecting the NICs, and
  removing the VM. So its theorem on leftover ports is about what the code does.
 */
module PortRuns {
  import opened Prelude
  import opened Ovsdb
  import opened OvnTransactions
  import opened OvnObjects
  import opened VmPorts
  import opened OvnLaws
  import K = Kube
  import V = VmOvn

  /** The steps take `s` to `s'`. */
  ghost predicate Leads(cfg: Config, s: State, steps: seq<Step>, s': State) {
    Run(cfg, s, steps) && After(cfg, s, steps) == s'
  }

  lemma LeadsOn(cfg: Config, s: State, step: Step, steps: seq<Step>, s': State)
    requires Enabled(cfg, s, step) && Leads(cfg, Apply(cfg, s, step), steps, s')
    ensures Leads(cfg, s, [step] + steps, s')
  {
    assert ([step] + steps)[1..] == steps;
  }

  lemma {:induction false} LeadsAll(cfg: Config, s: State, first: seq<Step>, mid: State, rest: seq<Step>, s': State)
    requires Leads(cfg, s, first, mid) && Leads(cfg, mid, rest, s')
    ensures Leads(cfg, s, first + rest, s')
    decreases |first|
  {
    if first == [] {
      assert first + rest == rest;
    } else {
      LeadsAll(cfg, Apply(cfg, s, first[0]), first[1..], mid, rest, s');
      LeadsOn(cfg, s, first[0], first[1..] + rest, s');
      assert first + rest == [first[0]] + (first[1..] + rest);
    }
  }

  lemma LeadsOnce(cfg: Config, s: State, step: Step)
    requires Enabled(cfg, s, step)
    ensures Leads(cfg, s, [step], Apply(cfg, s, step))
  {
    LeadsOn(cfg, s, step, [], Apply(cfg, s, step));
    assert [step] + [] == [step];
  }

  lemma LeadsBetween(cfg: Config, s: State, first: Step, steps: seq<Step>, mid: State, last: Step)
    requires Enabled(cfg, s, first) && Leads(cfg, Apply(cfg, s, first), steps, mid) && Enabled(cfg, mid, last)
    ensures Leads(cfg, s, [first] + (steps + [last]), Apply(cfg, mid, last))
  {
    LeadsOnce(cfg, mid, last);
    LeadsAll(cfg, Apply(cfg, s, first), steps, mid, [last], Apply(cfg, mid, last));
    LeadsOn(cfg, s, first, steps + [last], Apply(cfg, mid, last));
  }

  // Removal

  predicate IsRemoving(s: State) {
    s.phase.Removing? && s.phase.switch.None?
  }

  /** Disconnecting the first NIC is a lookup, and a deletion if there is a port. */
  lemma DisconnectRuns(cfg: Config, s: State) returns (steps: seq<Step>)
    requires IsRemoving(s) && s.phase.todo != []
    requires V.NicDisconnected(s.db, cfg.key, s.phase.todo[0]).result.Ok?
    ensures Leads(cfg, s, steps, s.(db := V.NicDisconnected(s.db, cfg.key, s.phase.todo[0]).db,
                                    phase := Removing(s.phase.copy, s.phase.todo[1..], None)))
  {
    var looked := Apply(cfg, s, LookForRemoval);
    if Lookup(s.db.rows, LogicalSwitchPort, s.phase.todo[0].ovnId.value).None? {
      steps := [LookForRemoval];
      LeadsOnce(cfg, s, LookForRemoval);
    } else {
      steps := [LookForRemoval] + [DeletePort];
      LeadsOnce(cfg, looked, DeletePort);
      LeadsOn(cfg, s, LookForRemoval, [DeletePort], Apply(cfg, looked, DeletePort));
    }
  }

  lemma {:induction false} AllDisconnectRuns(cfg: Config, s: State) returns (steps: seq<Step>)
    requires IsRemoving(s) && V.AllDisconnected(s.db, cfg.key, s.phase.todo).result.Ok?
    ensures Leads(cfg, s, steps, s.(db := V.AllDisconnected(s.db, cfg.key, s.phase.todo).db,
                                    phase := Removing(s.phase.copy, [], None)))
    decreases |s.phase.todo|
  {
    if s.phase.todo == [] {
      steps := [];
    } else {
      var first := DisconnectRuns(cfg, s);
      var next := s.(db := V.NicDisconnected(s.db, cfg.key, s.phase.todo[0]).db,
                     phase := Removing(s.phase.copy, s.phase.todo[1..], None));
      var rest := AllDisconnectRuns(cfg, next);
      steps := first + rest;
      LeadsAll(cfg, s, first, next, rest, next.(db := V.AllDisconnected(next.db, cfg.key, next.phase.todo).db,
                                               phase := Removing(s.phase.copy, [], None)));
    }
  }

  /**
    Main result: the removal of a VM from a copy under deletion, when it disconnects every NIC, is a run of the machine
    with the same effect on the database and on the object.
   */
  lemma RemovalIsRun(cfg: Config, s: State, version: nat) returns (steps: seq<Step>, s': State)
    requires Enabled(cfg, s, StartRemoval(version))
    requires V.AllDisconnected(s.db, cfg.key, OvnNics(s.history[version])).result.Ok?
    ensures Leads(cfg, s, steps, s') && s'.phase.Idle?
    ensures s'.db == V.AllDisconnected(s.db, cfg.key, OvnNics(s.history[version])).db
    ensures var copy := s.history[version];
            s'.cluster == if HasOvn(copy) then K.PutObject(s.cluster, K.WithoutFinalizer(copy, OvnFinalizer())).cluster
                          else s.cluster
  {
    var started := Apply(cfg, s, StartRemoval(version));
    var todo := OvnNics(s.history[version]);
    var all := AllDisconnectRuns(cfg, started);
    var cleared := started.(db := V.AllDisconnected(s.db, cfg.key, todo).db,
                            phase := Removing(s.history[version], [], None));
    LeadsBetween(cfg, s, StartRemoval(version), all, cleared, RemoveFinalizer);
    steps, s' := [StartRemoval(version)] + (all + [RemoveFinalizer]), Apply(cfg, cleared, RemoveFinalizer);
  }

  // Connecting

  predicate IsUpdating(s: State) {
    s.phase.Updating? && s.phase.switch.None?
  }

  lemma DhcpKeepsNext(db: Db, p: Uuid, dhcp: Result<Option<string>>, found: Option<Uuid>)
    requires Valid(db) && p in db.rows && db.rows[p].SwitchPort?
    ensures Valid(V.WithDhcp(db, p, dhcp, found).db) && V.WithDhcp(db, p, dhcp, found).db.next == db.next
  {
    if dhcp.Ok? && dhcp.value.Some? && found.Some? {
      UpdateEffect(db, p, Patch.SetDhcp(found.value));
    }
  }

  /** The requests after the port is there change addresses and DHCP options only. */
  lemma ConnectKeepsNext(db: Db, key: K.Key, nic: K.Nic, dhcp: Result<Option<string>>, found: Option<Uuid>,
      ls: Uuid, p: Uuid)
    requires Valid(db) && V.NicConnected(db, key, nic, dhcp, found).result.Ok?
    requires V.HasPortId(nic) && SwitchNamed(db.rows, ls, key.namespace + "-" + nic.name.value)
    requires EnsurePort(db, ls, PortRow(nic.ovnId.value)).result == Ok(p)
    ensures var mid := EnsurePort(db, ls, PortRow(nic.ovnId.value)).db;
            var db' := V.NicConnected(db, key, nic, dhcp, found).db;
            Valid(mid) && Valid(db') && db'.next == mid.next
  {
    LookupIs(db.rows, LogicalSwitch, SwitchOf(key, nic), ls);
    V.PortAdded(db, ls, nic.ovnId.value);
    var lsp := EnsurePort(db, ls, PortRow(nic.ovnId.value));
    var ip := V.IpOf(db.rows[ls]);
    AddressIsSet(lsp.db, p, nic.mac.value, ip);
    AddressTwice(lsp.db, p, nic.mac.value, ip);
    DhcpKeepsNext(AddressSet(lsp.db, p, nic.mac.value, ip).db, p, dhcp, found);
  }

  /** Such requests place no port. */
  lemma ServedIsForeign(cfg: Config, db: Db, db': Db, p: Uuid)
    requires Valid(db) && Valid(db') && db'.next == db.next && OnlyServed(db.rows, db'.rows, p)
    ensures Foreign(cfg, db, db')
  {
    forall u, s, sw, id | Hosted(db'.rows, u, s, sw, id)
      ensures Hosted(db.rows, u, s, sw, id)
    {
    }
  }

  /** The port of a NIC: a lookup, and a creation if there is none. */
  lemma EnsureRuns(cfg: Config, s: State, ls: Uuid) returns (steps: seq<Step>)
    requires IsUpdating(s) && s.phase.todo != [] && Valid(s.db) && V.HasPortId(s.phase.todo[0])
    requires Lookup(s.db.rows, LogicalSwitch, SwitchOf(cfg.key, s.phase.todo[0])) == Some(ls)
    ensures Leads(cfg, s, steps, s.(db := EnsurePort(s.db, ls, PortRow(s.phase.todo[0].ovnId.value)).db,
                                    phase := Updating(s.phase.copy, s.phase.todo[1..], None)))
  {
    var looked := Apply(cfg, s, LookForPort);
    if Lookup(s.db.rows, LogicalSwitchPort, s.phase.todo[0].ovnId.value).Some? {
      steps := [LookForPort];
      LeadsOnce(cfg, s, LookForPort);
    } else {
      steps := [LookForPort] + [CreatePort];
      LeadsOnce(cfg, looked, CreatePort);
      LeadsOn(cfg, s, LookForPort, [CreatePort], Apply(cfg, looked, CreatePort));
    }
  }

  lemma ConnectRuns(cfg: Config, s: State, dhcp: Result<Option<string>>, db': Db) returns (steps: seq<Step>)
    requires IsUpdating(s) && s.phase.todo != [] && Valid(s.db)
    requires V.Connects(s.db, cfg.key, s.phase.todo[0], dhcp, Outcome(db', Ok(())))
    ensures Leads(cfg, s, steps, s.(db := db', phase := Updating(s.phase.copy, s.phase.todo[1..], None)))
  {
    var nic := s.phase.todo[0];
    var found :| V.Found(s.db.rows, dhcp, found)
                 && V.NicConnected(s.db, cfg.key, nic, dhcp, found) == Outcome(db', Ok(()));
    var ls, p := PortAddresses(s.db, cfg.key, nic, dhcp, found);
    LookupIs(s.db.rows, LogicalSwitch, SwitchOf(cfg.key, nic), ls);
    var mid := EnsurePort(s.db, ls, PortRow(nic.ovnId.value)).db;
    ConnectServes(s.db, cfg.key, nic, dhcp, found, ls, p);
    ConnectKeepsNext(s.db, cfg.key, nic, dhcp, found, ls, p);
    ServedIsForeign(cfg, mid, db', p);
    var first := EnsureRuns(cfg, s, ls);
    var there := s.(db := mid, phase := Updating(s.phase.copy, s.phase.todo[1..], None));
    LeadsOnce(cfg, there, Transaction(db'));
    LeadsAll(cfg, s, first, there, [Transaction(db')], there.(db := db'));
    steps := first + [Transaction(db')];
  }

  lemma {:induction false} AllConnectRuns(cfg: Config, s: State, n: nat, dhcp: K.Nic -> Result<Option<string>>, db': Db)
    returns (steps: seq<Step>)
    requires IsUpdating(s) && n <= |s.phase.todo| && Valid(s.db)
    requires V.AllConnected(s.db, cfg.key, s.phase.todo[..n], dhcp, db')
    ensures Leads(cfg, s, steps, s.(db := db', phase := Updating(s.phase.copy, s.phase.todo[n..], None)))
    decreases n
  {
    var todo := s.phase.todo;
    if n == 0 {
      steps := [];
      assert todo[0..] == todo;
    } else {
      assert todo[..n][..n - 1] == todo[..n - 1] && todo[..n][n - 1] == todo[n - 1];
      var mid := BeforeLast(s.db, cfg.key, todo[..n], dhcp, db');
      var first := AllConnectRuns(cfg, s, n - 1, dhcp, mid);
      var there := s.(db := mid, phase := Updating(s.phase.copy, todo[n - 1..], None));
      assert todo[n - 1..][0] == todo[n - 1] && todo[n - 1..][1..] == todo[n..];
      var rest := ConnectRuns(cfg, there, dhcp(todo[n - 1]), db');
      LeadsAll(cfg, s, first, there, rest, there.(db := db', phase := Updating(s.phase.copy, todo[n..], None)));
      steps := first + rest;
    }
  }

  /** The start of an update, with the finalizer on the copy. */
  lemma StartedUpdate(cfg: Config, s: State, version: nat) returns (started: State)
    requires Enabled(cfg, s, StartUpdate(version))
    requires HasOvn(s.history[version])
             || K.PutObject(s.cluster, K.WithFinalizer(s.history[version], OvnFinalizer())).error.None?
    ensures started == Apply(cfg, s, StartUpdate(version)) && IsUpdating(started) && started.db == s.db
    ensures started.phase.todo == OvnNics(s.history[version])
    ensures var copy := s.history[version];
            started.cluster == if HasOvn(copy) then s.cluster
                               else K.PutObject(s.cluster, K.WithFinalizer(copy, OvnFinalizer())).cluster
  {
    started := Apply(cfg, s, StartUpdate(version));
  }

  /**
    Main result: an update of a VM that has its finalizer, or gets it, and that connects every NIC of the copy, is a
    run of the machine with the same effect on the database and on the object, up to its status write.
   */
  lemma UpdateIsRun(cfg: Config, s: State, version: nat, dhcp: K.Nic -> Result<Option<string>>, db': Db)
    returns (steps: seq<Step>, s': State)
    requires Enabled(cfg, s, StartUpdate(version)) && Valid(s.db)
    requires V.AllConnected(s.db, cfg.key, OvnNics(s.history[version]), dhcp, db')
    requires HasOvn(s.history[version])
             || K.PutObject(s.cluster, K.WithFinalizer(s.history[version], OvnFinalizer())).error.None?
    ensures Leads(cfg, s, steps, s') && s'.phase.Idle? && s'.db == db'
    ensures var copy := s.history[version];
            s'.cluster == if HasOvn(copy) then s.cluster
                          else K.PutObject(s.cluster, K.WithFinalizer(copy, OvnFinalizer())).cluster
  {
    var started := StartedUpdate(cfg, s, version);
    var todo := OvnNics(s.history[version]);
    assert todo[..|todo|] == todo && todo[|todo|..] == [];
    var all := AllConnectRuns(cfg, started, |todo|, dhcp, db');
    var connected := started.(db := db', phase := Updating(started.phase.copy, [], None));
    LeadsBetween(cfg, s, StartUpdate(version), all, connected, Stop);
    steps, s' := [StartUpdate(version)] + (all + [Stop]), Apply(cfg, connected, Stop);
  }

  // Other writers

  /** A status write to another object is a step of the others: this object and the revision are as after it. */
  lemma OtherWriteIsStep(cfg: Config, s: State, vm: K.Vm, status: K.Status)
    requires vm.key != cfg.key
    ensures var c' := K.PutStatus(s.cluster, vm, status).cluster;
            && Enabled(cfg, s, OtherWrites(c'.rev))
            && var c'' := Apply(cfg, s, OtherWrites(c'.rev)).cluster;
               && c''.rev == c'.rev && (cfg.key in c''.vms <==> cfg.key in c'.vms)
               && (cfg.key in c'.vms && cfg.key in c''.vms ==> c''.vms[cfg.key] == c'.vms[cfg.key])
  {
  }

  /** The object under deletion, once it is requested. */
  lemma DeletionIsSeen(cfg: Config, s: State) returns (s': State)
    requires Inv(cfg, s) && s.phase.Idle? && Alive(cfg, s) && HasOvn(s.cluster.vms[cfg.key])
    ensures Enabled(cfg, s, RequestDeletion) && s' == Apply(cfg, s, RequestDeletion)
    ensures s'.phase.Idle? && s'.db == s.db && s'.cache == s.cache && Alive(cfg, s')
    ensures var vm, vm' := s.cluster.vms[cfg.key], s'.cluster.vms[cfg.key];
            && vm' == vm.(deleting := true, version := vm'.version) && vm.version <= vm'.version
            && vm'.version in s'.history && s'.history[vm'.version] == vm' && vm'.key == cfg.key
  {
    assert EntryOk(cfg, s, s.cluster.vms[cfg.key].version);
    s' := Apply(cfg, s, RequestDeletion);
  }

  lemma GoneWithItsPorts(cfg: Config, s: State)
    requires Inv(cfg, s) && !Alive(cfg, s)
    ensures forall id :: id in cfg.ours ==> NoPort(s.db.rows, id)
  {
    forall id, u | id in cfg.ours
      ensures !PortNamed(s.db.rows, u, id)
    {
      if PortNamed(s.db.rows, u, id) {
        var sw := PortIsHosted(s.db, u, id);
      }
    }
  }

  /**
    Main result: a VM that only the OVN controller holds, and whose NICs can be disconnected, can go: a deletion
    request and one removal lead to a state without the object and without its ports.
   */
  lemma VmCanGo(cfg: Config, s: State) returns (steps: seq<Step>, s': State)
    requires Inv(cfg, s) && s.phase.Idle? && Alive(cfg, s) && s.cache <= s.cluster.vms[cfg.key].version
    requires s.cluster.vms[cfg.key].finalizers == [OvnFinalizer()]
    requires V.AllDisconnected(s.db, cfg.key, OvnNics(s.cluster.vms[cfg.key])).result.Ok?
    ensures Leads(cfg, s, steps, s') && !Alive(cfg, s')
    ensures forall id :: id in cfg.ours ==> NoPort(s'.db.rows, id)
  {
    var marked := DeletionIsSeen(cfg, s);
    var vm := marked.cluster.vms[cfg.key];
    var rest;
    rest, s' := RemovalIsRun(cfg, marked, vm.version);
    LeadsOn(cfg, s, RequestDeletion, rest, s');
    steps := [RequestDeletion] + rest;
    assert K.WithoutFinalizer(vm, OvnFinalizer()).finalizers == [];
    InvAlongRuns(cfg, s, steps);
    GoneWithItsPorts(cfg, s');
  }
}
