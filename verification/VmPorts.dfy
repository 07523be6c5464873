/**
  The life of a VM object and of its switch ports: the OVN controller puts its finalizer on the
  object before it creates a port, and takes it off only after it deleted the ports of the NIC list
  of its copy. One reconcile of the VM runs at a time; everything else interleaves between its steps.
  A step is one write, or a pair of requests of which the first is a lookup: of the switch and the
  port, or of the port and its deletion by UUID. The object goes away only when none of its ports is left.
 */
module VmPorts {
  import opened Prelude
  import opened Ovsdb
  import opened OvnTransactions
  import opened OvnObjects
  import K = Kube
  import Nics

  /** The VM, and the port ids that no other object uses, each generated for a NIC on one switch. */
  datatype Config = Config(key: K.Key, ours: imap<string, string>)

  datatype Phase =
    | Idle
    | Updating(copy: K.Vm, todo: seq<K.Nic>, switch: Option<Uuid>)
    | Removing(copy: K.Vm, todo: seq<K.Nic>, switch: Option<Uuid>)

  /**
    `history` holds every stored state of the object by version, `cache` the version of the copy the
    last reconcile got, and `removed` the version of the copy whose commit took the finalizer off.
   */
  datatype State = State(
    cluster: K.Cluster,
    history: map<nat, K.Vm>,
    cache: nat,
    removed: Option<nat>,
    phase: Phase,
    db: Db)

  function NicsOf(vm: K.Vm): seq<K.Nic> {
    if vm.status.Some? then vm.status.value.networks else []
  }

  /** `get_vm_ovn_nics` */
  function OvnNics(vm: K.Vm): seq<K.Nic> {
    Retain(NicsOf(vm), (n: K.Nic) => n.ovnId.Some?)
  }

  /** The switch a NIC names. */
  function SwitchOf(key: K.Key, nic: K.Nic): string
    requires nic.name.Some?
  {
    key.namespace + "-" + nic.name.value
  }

  function OvnFinalizer(): string {
    K.FinalizerName("ovn")
  }

  predicate HasOvn(vm: K.Vm) {
    vm.HasFinalizer(OvnFinalizer())
  }

  predicate Alive(cfg: Config, s: State) {
    cfg.key in s.cluster.vms
  }

  /** The port row `connect_vm_nic` creates. */
  function PortRow(id: string): Row {
    SwitchPort(id, "", "", map[], {})
  }

  predicate SameEntry(a: K.Nic, b: K.Nic) {
    a.ovnId == b.ovnId && a.name == b.name
  }

  /** NICs with a port id keep it and their network. */
  ghost predicate NicsKept(before: seq<K.Nic>, after: seq<K.Nic>) {
    forall n :: n in before && n.ovnId.Some? ==> exists m :: m in after && SameEntry(n, m)
  }

  ghost predicate IdsOurs(cfg: Config, nics: seq<K.Nic>) {
    forall n :: n in nics && n.ovnId.Some? ==>
      n.ovnId.value in cfg.ours && (n.name.Some? ==> SwitchOf(cfg.key, n) == cfg.ours[n.ovnId.value])
  }

  predicate PortNamed(rows: Rows, u: Uuid, id: string) {
    IsNamed(rows, u, LogicalSwitchPort, id)
  }

  ghost predicate NoPort(rows: Rows, id: string) {
    forall u :: !PortNamed(rows, u, id)
  }

  /** Port `u` is named `id` and sits on switch `s` named `sw`. */
  predicate Hosted(rows: Rows, u: Uuid, s: Uuid, sw: string, id: string) {
    PortNamed(rows, u, id) && Owns(rows, s, u) && rows[s].name == sw
  }

  /** Switches keep their names. */
  ghost predicate SwitchesKept(db: Db, db': Db) {
    db.next <= db'.next
    && forall s :: s in db'.rows && db'.rows[s].Switch? && s < db.next ==>
         s in db.rows && db.rows[s].Switch? && db.rows[s].name == db'.rows[s].name
  }

  /** What the transactions of other reconciles, and those of this one that touch no port set, respect. */
  ghost predicate Foreign(cfg: Config, db: Db, db': Db) {
    && Valid(db') && SwitchesKept(db, db')
    && forall u, s, sw, id :: id in cfg.ours && Hosted(db'.rows, u, s, sw, id) ==> Hosted(db.rows, u, s, sw, id)
  }

  datatype Step =
    | OtherWrites(rev: nat)
    | WriteStatus(copy: K.Vm, status: K.Status)
    | WriteObject(copy: K.Vm)
    | RequestDeletion
    | Transaction(db: Db)
    | StartUpdate(version: nat)
    | LookForPort
    | CreatePort
    | StartRemoval(version: nat)
    | LookForRemoval
    | DeletePort
    | RemoveFinalizer
    | Stop

  ghost predicate Enabled(cfg: Config, s: State, step: Step) {
    match step
    case OtherWrites(rev) => s.cluster.rev <= rev
    case WriteStatus(copy, status) =>
      && copy.key == cfg.key && IdsOurs(cfg, status.networks)
      && (Alive(cfg, s) && s.cluster.vms[cfg.key].version == copy.version ==>
            NicsKept(NicsOf(s.cluster.vms[cfg.key]), status.networks))
    case WriteObject(copy) =>
      && copy.key == cfg.key
      && (Alive(cfg, s) && s.cluster.vms[cfg.key].version == copy.version ==>
            (HasOvn(copy) <==> HasOvn(s.cluster.vms[cfg.key])))
    case RequestDeletion => Alive(cfg, s)
    case Transaction(db) => Foreign(cfg, s.db, db)
    case StartUpdate(version) =>
      s.phase.Idle? && version in s.history && s.cache <= version && !s.history[version].deleting
    case StartRemoval(version) =>
      s.phase.Idle? && version in s.history && s.cache <= version && s.history[version].deleting
    case LookForPort => s.phase.Updating? && s.phase.todo != [] && s.phase.switch.None?
    case CreatePort => s.phase.Updating? && s.phase.todo != [] && s.phase.switch.Some?
    case LookForRemoval => s.phase.Removing? && s.phase.todo != [] && s.phase.switch.None?
    case DeletePort => s.phase.Removing? && s.phase.todo != [] && s.phase.switch.Some?
    case RemoveFinalizer => s.phase.Removing? && s.phase.todo == []
    case Stop => true
  }

  /** After a request to the API server; a new stored state of the object enters the history. */
  function Recorded(cfg: Config, s: State, c: K.Cluster): State {
    s.(cluster := c,
       history := if cfg.key in c.vms then s.history[c.vms[cfg.key].version := c.vms[cfg.key]] else s.history)
  }

  /** The reconcile gets a copy no older than the last one, and `update_vm` makes sure of the finalizer. */
  function Started(cfg: Config, s: State, version: nat): State
    requires version in s.history
  {
    var copy := s.history[version];
    var s' := s.(cache := version);
    if HasOvn(copy) then s'.(phase := Updating(copy, OvnNics(copy), None))
    else
      var withOvn := K.WithFinalizer(copy, OvnFinalizer());
      var r := K.PutObject(s.cluster, withOvn);
      if r.error.Some? then s'.(phase := Idle)
      else Recorded(cfg, s', r.cluster).(phase := Updating(withOvn, OvnNics(copy), None))
  }

  /** `connect_vm_nic` up to `create_if_missing`; a missing name or switch ends the reconcile. */
  ghost function LookedForPort(cfg: Config, s: State): State
    requires s.phase.Updating? && s.phase.todo != []
  {
    var nic := s.phase.todo[0];
    if nic.name.None? || nic.ovnId.None? then s.(phase := Idle)
    else
      var sw := Lookup(s.db.rows, LogicalSwitch, SwitchOf(cfg.key, nic));
      if sw.None? then s.(phase := Idle)
      else if Lookup(s.db.rows, LogicalSwitchPort, nic.ovnId.value).Some?
      then s.(phase := Updating(s.phase.copy, s.phase.todo[1..], None))
      else s.(phase := Updating(s.phase.copy, s.phase.todo, sw))
  }

  ghost function CreatedPort(s: State): State
    requires s.phase.Updating? && s.phase.todo != [] && s.phase.switch.Some?
  {
    var nic := s.phase.todo[0];
    if nic.ovnId.None? then s.(phase := Idle)
    else
      s.(db := Commit(s.db, PortOps(s.phase.switch.value, PortRow(nic.ovnId.value))),
         phase := Updating(s.phase.copy, s.phase.todo[1..], None))
  }

  /** `disconnect_vm_nic` up to the switch lookup */
  ghost function LookedForRemoval(cfg: Config, s: State): State
    requires s.phase.Removing? && s.phase.todo != []
  {
    var nic := s.phase.todo[0];
    if nic.name.None? || nic.ovnId.None? then s.(phase := Idle)
    else if Lookup(s.db.rows, LogicalSwitchPort, nic.ovnId.value).None?
    then s.(phase := Removing(s.phase.copy, s.phase.todo[1..], None))
    else
      var sw := Lookup(s.db.rows, LogicalSwitch, SwitchOf(cfg.key, nic));
      if sw.None? then s.(phase := Idle) else s.(phase := Removing(s.phase.copy, s.phase.todo, sw))
  }

  /** `del_lsp` on the switch found; a port that is gone meanwhile ends the reconcile. */
  ghost function DeletedPort(s: State): State
    requires s.phase.Removing? && s.phase.todo != [] && s.phase.switch.Some?
  {
    var nic := s.phase.todo[0];
    var port := if nic.ovnId.Some? then Lookup(s.db.rows, LogicalSwitchPort, nic.ovnId.value) else None;
    if port.None? then s.(phase := Idle)
    else
      s.(db := Commit(s.db, RemovePortOps(s.phase.switch.value, port.value)),
         phase := Removing(s.phase.copy, s.phase.todo[1..], None))
  }

  /** `remove_finalizer` with the reconcile's copy */
  function Finished(cfg: Config, s: State): State
    requires s.phase.Removing?
  {
    var copy := s.phase.copy;
    if !HasOvn(copy) then s.(phase := Idle)
    else
      var r := K.PutObject(s.cluster, K.WithoutFinalizer(copy, OvnFinalizer()));
      if r.error.Some? then s.(phase := Idle)
      else Recorded(cfg, s, r.cluster).(phase := Idle, removed := Some(copy.version))
  }

  ghost function Apply(cfg: Config, s: State, step: Step): State
    requires Enabled(cfg, s, step)
  {
    match step
    case OtherWrites(rev) => s.(cluster := s.cluster.(rev := rev))
    case WriteStatus(copy, status) => Recorded(cfg, s, K.PutStatus(s.cluster, copy, status).cluster)
    case WriteObject(copy) => Recorded(cfg, s, K.PutObject(s.cluster, copy).cluster)
    case RequestDeletion => Recorded(cfg, s, K.DeleteObject(s.cluster, cfg.key))
    case Transaction(db) => s.(db := db)
    case StartUpdate(version) => Started(cfg, s, version)
    case LookForPort => LookedForPort(cfg, s)
    case CreatePort => CreatedPort(s)
    case StartRemoval(version) =>
      s.(cache := version, phase := Removing(s.history[version], OvnNics(s.history[version]), None))
    case LookForRemoval => LookedForRemoval(cfg, s)
    case DeletePort => DeletedPort(s)
    case RemoveFinalizer => Finished(cfg, s)
    case Stop => s.(phase := Idle)
  }

  ghost predicate Run(cfg: Config, s: State, steps: seq<Step>)
    decreases |steps|
  {
    steps == [] || (Enabled(cfg, s, steps[0]) && Run(cfg, Apply(cfg, s, steps[0]), steps[1..]))
  }

  ghost function After(cfg: Config, s: State, steps: seq<Step>): State
    requires Run(cfg, s, steps)
    decreases |steps|
  {
    if steps == [] then s else After(cfg, Apply(cfg, s, steps[0]), steps[1..])
  }

  // The invariant

  /** A later state of the object: deletion is not taken back, and NICs keep their ports. */
  ghost predicate Later(a: K.Vm, b: K.Vm) {
    (a.deleting ==> b.deleting) && NicsKept(NicsOf(a), NicsOf(b))
  }

  ghost predicate EntryOk(cfg: Config, s: State, v: nat)
    requires v in s.history
  {
    && s.history[v].version == v && s.history[v].key == cfg.key && v <= s.cluster.rev
    && IdsOurs(cfg, NicsOf(s.history[v]))
  }

  /** Every stored state of the object precedes the current one. */
  ghost predicate CurrentOk(cfg: Config, s: State) {
    Alive(cfg, s) ==>
      && s.cluster.vms[cfg.key].version in s.history
      && s.history[s.cluster.vms[cfg.key].version] == s.cluster.vms[cfg.key]
      && forall v :: v in s.history ==> v <= s.cluster.vms[cfg.key].version
  }

  ghost predicate Ordered(history: map<nat, K.Vm>) {
    forall v, w :: v in history && w in history && v <= w ==> Later(history[v], history[w])
  }

  ghost predicate EntriesOk(cfg: Config, s: State) {
    forall v :: v in s.history ==> EntryOk(cfg, s, v)
  }

  ghost predicate HistoryOk(cfg: Config, s: State) {
    EntriesOk(cfg, s) && Ordered(s.history) && CurrentOk(cfg, s)
  }

  /** The finalizer, once there, stays until a reconcile with a copy under deletion removes it. */
  ghost predicate FinalizerOk(cfg: Config, s: State) {
    if s.removed.Some? then
      s.removed.value in s.history && s.history[s.removed.value].deleting && s.removed.value <= s.cache
    else
      && (forall v :: v in s.history && HasOvn(s.history[v]) ==> Alive(cfg, s) && HasOvn(s.cluster.vms[cfg.key]))
  }

  /** The object lists a NIC with this port on this switch. */
  ghost predicate ListsNic(cfg: Config, vm: K.Vm, id: string, sw: string) {
    exists n :: n in NicsOf(vm) && n.ovnId == Some(id) && n.name.Some? && SwitchOf(cfg.key, n) == sw
  }

  ghost predicate Wanted(cfg: Config, s: State, id: string, sw: string) {
    Alive(cfg, s) && HasOvn(s.cluster.vms[cfg.key]) && ListsNic(cfg, s.cluster.vms[cfg.key], id, sw)
  }

  /** Every port of ours belongs to a NIC of the living object, which has the finalizer. */
  ghost predicate PortsOk(cfg: Config, s: State) {
    forall u, sw, name, id :: id in cfg.ours && Hosted(s.db.rows, u, sw, name, id) ==> Wanted(cfg, s, id, name)
  }

  ghost predicate UpdatingOk(cfg: Config, s: State) {
    s.phase.Updating? ==>
      && s.removed.None? && Alive(cfg, s) && HasOvn(s.cluster.vms[cfg.key])
      && IdsOurs(cfg, s.phase.todo)
      && (forall n :: n in s.phase.todo && n.ovnId.Some? && n.name.Some? ==>
            ListsNic(cfg, s.cluster.vms[cfg.key], n.ovnId.value, SwitchOf(cfg.key, n)))
      && (s.phase.switch.Some? ==>
            && s.phase.todo != [] && s.phase.todo[0].ovnId.Some? && s.phase.todo[0].name.Some?
            && NoPort(s.db.rows, s.phase.todo[0].ovnId.value)
            && s.phase.switch.value < s.db.next
            && (s.phase.switch.value in s.db.rows && s.db.rows[s.phase.switch.value].Switch? ==>
                  s.db.rows[s.phase.switch.value].name == SwitchOf(cfg.key, s.phase.todo[0])))
  }

  ghost predicate RemovingOk(cfg: Config, s: State) {
    s.phase.Removing? ==>
      && s.phase.copy.version in s.history && s.history[s.phase.copy.version] == s.phase.copy
      && s.phase.copy.deleting && s.phase.copy.version <= s.cache
      && IdsOurs(cfg, s.phase.todo)
      && (forall n :: n in NicsOf(s.phase.copy) && n.ovnId.Some? ==>
           n in s.phase.todo || NoPort(s.db.rows, n.ovnId.value))
      && (s.phase.switch.Some? ==>
            && s.phase.todo != [] && s.phase.todo[0].ovnId.Some?
            && forall u, sw, name :: Hosted(s.db.rows, u, sw, name, s.phase.todo[0].ovnId.value) ==>
                 sw == s.phase.switch.value)
  }

  ghost predicate Inv(cfg: Config, s: State) {
    && Valid(s.db) && HistoryOk(cfg, s) && FinalizerOk(cfg, s)
    && PortsOk(cfg, s) && UpdatingOk(cfg, s) && RemovingOk(cfg, s)
  }

  // Requests to the API server

  lemma NicsKeptTwice(a: seq<K.Nic>, b: seq<K.Nic>, c: seq<K.Nic>)
    requires NicsKept(a, b) && NicsKept(b, c)
    ensures NicsKept(a, c)
  {
    forall n | n in a && n.ovnId.Some?
      ensures exists m :: m in c && SameEntry(n, m)
    {
      var m :| m in b && SameEntry(n, m);
      var l :| l in c && SameEntry(m, l);
      assert SameEntry(n, l);
    }
  }

  lemma NicsKeptSame(a: seq<K.Nic>)
    ensures NicsKept(a, a)
  {
    assert forall n :: n in a ==> SameEntry(n, n);
  }

  lemma ListedLater(cfg: Config, a: K.Vm, b: K.Vm, id: string, sw: string)
    requires ListsNic(cfg, a, id, sw) && NicsKept(NicsOf(a), NicsOf(b))
    ensures ListsNic(cfg, b, id, sw)
  {
    var n :| n in NicsOf(a) && n.ovnId == Some(id) && n.name.Some? && SwitchOf(cfg.key, n) == sw;
    var m :| m in NicsOf(b) && SameEntry(n, m);
    assert SwitchOf(cfg.key, m) == sw;
  }

  /** A request stores a later state of the object, or lets it go away. */
  ghost predicate NewState(cfg: Config, c: K.Cluster, c': K.Cluster) {
    && c.rev <= c'.rev
    && (cfg.key in c'.vms ==> cfg.key in c.vms)
    && (cfg.key in c'.vms && c'.vms[cfg.key] != c.vms[cfg.key] ==>
          && c.rev < c'.rev && c'.vms[cfg.key].version == c'.rev && c'.vms[cfg.key].key == cfg.key
          && Later(c.vms[cfg.key], c'.vms[cfg.key]) && IdsOurs(cfg, NicsOf(c'.vms[cfg.key])))
  }

  /** Nobody but the VM's own reconcile takes the finalizer off, and with it the object stays. */
  ghost predicate KeepsFinalizer(cfg: Config, c: K.Cluster, c': K.Cluster) {
    cfg.key in c.vms && HasOvn(c.vms[cfg.key]) ==> cfg.key in c'.vms && HasOvn(c'.vms[cfg.key])
  }

  lemma LaterTwice(a: K.Vm, b: K.Vm, c: K.Vm)
    requires Later(a, b) && Later(b, c)
    ensures Later(a, c)
  {
    NicsKeptTwice(NicsOf(a), NicsOf(b), NicsOf(c));
  }

  lemma LaterSelf(vm: K.Vm)
    ensures Later(vm, vm)
  {
    NicsKeptSame(NicsOf(vm));
  }

  lemma AppendedLater(history: map<nat, K.Vm>, latest: K.Vm, version: nat, vm: K.Vm, v: nat, w: nat)
    requires Ordered(history) && Later(latest, vm)
    requires forall v :: v in history ==> v < version && Later(history[v], latest)
    requires v in history[version := vm] && w in history[version := vm] && v <= w
    ensures Later(history[version := vm][v], history[version := vm][w])
  {
    if w != version {
      assert v in history && w in history && Later(history[v], history[w]);
    } else if v == version {
      LaterSelf(vm);
    } else {
      LaterTwice(history[v], latest, vm);
    }
  }

  lemma OrderedAppend(history: map<nat, K.Vm>, latest: K.Vm, version: nat, vm: K.Vm)
    requires Ordered(history) && Later(latest, vm)
    requires forall v :: v in history ==> v < version && Later(history[v], latest)
    ensures Ordered(history[version := vm])
  {
    var longer := history[version := vm];
    forall v, w | v in longer && w in longer && v <= w
      ensures Later(longer[v], longer[w])
    {
      AppendedLater(history, latest, version, vm, v, w);
    }
  }

  lemma RecordedEntries(cfg: Config, s: State, c: K.Cluster)
    requires EntriesOk(cfg, s) && CurrentOk(cfg, s) && NewState(cfg, s.cluster, c)
    ensures EntriesOk(cfg, Recorded(cfg, s, c)) && CurrentOk(cfg, Recorded(cfg, s, c))
  {
    var s' := Recorded(cfg, s, c);
    forall v | v in s'.history
      ensures EntryOk(cfg, s', v)
    {
      if v in s.history {
        assert EntryOk(cfg, s, v);
      }
    }
  }

  lemma RecordedHistory(cfg: Config, s: State, c: K.Cluster)
    requires HistoryOk(cfg, s) && NewState(cfg, s.cluster, c)
    ensures HistoryOk(cfg, Recorded(cfg, s, c))
    ensures forall v :: v in s.history ==>
              v in Recorded(cfg, s, c).history && Recorded(cfg, s, c).history[v] == s.history[v]
  {
    var s' := Recorded(cfg, s, c);
    assert forall v :: v in s.history ==> EntryOk(cfg, s, v);
    if cfg.key in c.vms && c.vms[cfg.key] != s.cluster.vms[cfg.key] {
      OrderedAppend(s.history, s.cluster.vms[cfg.key], c.rev, c.vms[cfg.key]);
    } else {
      assert s'.history == s.history;
    }
    RecordedEntries(cfg, s, c);
  }

  lemma WantedStays(cfg: Config, s: State, c: K.Cluster)
    requires HistoryOk(cfg, s) && NewState(cfg, s.cluster, c) && KeepsFinalizer(cfg, s.cluster, c)
    ensures forall id, sw :: Wanted(cfg, s, id, sw) ==> Wanted(cfg, Recorded(cfg, s, c), id, sw)
  {
    forall id, sw | Wanted(cfg, s, id, sw)
      ensures Wanted(cfg, Recorded(cfg, s, c), id, sw)
    {
      if c.vms[cfg.key] != s.cluster.vms[cfg.key] {
        ListedLater(cfg, s.cluster.vms[cfg.key], c.vms[cfg.key], id, sw);
      }
    }
  }

  lemma RecordedUpdating(cfg: Config, s: State, c: K.Cluster)
    requires HistoryOk(cfg, s) && UpdatingOk(cfg, s) && NewState(cfg, s.cluster, c) && KeepsFinalizer(cfg, s.cluster, c)
    ensures UpdatingOk(cfg, Recorded(cfg, s, c))
  {
    if s.phase.Updating? {
      WantedStays(cfg, s, c);
      forall n | n in s.phase.todo && n.ovnId.Some? && n.name.Some?
        ensures ListsNic(cfg, c.vms[cfg.key], n.ovnId.value, SwitchOf(cfg.key, n))
      {
        assert Wanted(cfg, s, n.ovnId.value, SwitchOf(cfg.key, n));
        assert Wanted(cfg, Recorded(cfg, s, c), n.ovnId.value, SwitchOf(cfg.key, n));
      }
    }
  }

  lemma RecordedPorts(cfg: Config, s: State, c: K.Cluster)
    requires HistoryOk(cfg, s) && PortsOk(cfg, s) && NewState(cfg, s.cluster, c) && KeepsFinalizer(cfg, s.cluster, c)
    ensures PortsOk(cfg, Recorded(cfg, s, c))
  {
    WantedStays(cfg, s, c);
  }

  lemma RecordedFinalizer(cfg: Config, s: State, c: K.Cluster)
    requires HistoryOk(cfg, s) && FinalizerOk(cfg, s) && NewState(cfg, s.cluster, c)
             && KeepsFinalizer(cfg, s.cluster, c)
    ensures FinalizerOk(cfg, Recorded(cfg, s, c))
  {
    RecordedHistory(cfg, s, c);
    var s' := Recorded(cfg, s, c);
    if s.removed.None? {
      forall v | v in s'.history && HasOvn(s'.history[v])
        ensures Alive(cfg, s') && HasOvn(s'.cluster.vms[cfg.key])
      {
        if v in s.history {
          assert HasOvn(s.history[v]);
        }
      }
    }
  }

  /** Whatever others write keeps the invariant. */
  lemma RecordedKeeps(cfg: Config, s: State, c: K.Cluster)
    requires Inv(cfg, s) && NewState(cfg, s.cluster, c) && KeepsFinalizer(cfg, s.cluster, c)
    ensures Inv(cfg, Recorded(cfg, s, c))
  {
    RecordedHistory(cfg, s, c);
    RecordedFinalizer(cfg, s, c);
    RecordedPorts(cfg, s, c);
    RecordedUpdating(cfg, s, c);
  }

  lemma PutStatusIsNew(cfg: Config, c: K.Cluster, copy: K.Vm, status: K.Status)
    requires copy.key == cfg.key && IdsOurs(cfg, status.networks)
    requires cfg.key in c.vms ==> c.vms[cfg.key].key == cfg.key
    requires cfg.key in c.vms && c.vms[cfg.key].version == copy.version ==>
             NicsKept(NicsOf(c.vms[cfg.key]), status.networks)
    ensures var c' := K.PutStatus(c, copy, status).cluster; NewState(cfg, c, c') && KeepsFinalizer(cfg, c, c')
  {
  }

  lemma SameStatusLater(cfg: Config, a: K.Vm, b: K.Vm)
    requires b.status == a.status && (a.deleting ==> b.deleting)
    ensures Later(a, b) && (IdsOurs(cfg, NicsOf(a)) ==> IdsOurs(cfg, NicsOf(b)))
  {
    NicsKeptSame(NicsOf(a));
    assert NicsOf(b) == NicsOf(a);
  }

  lemma PutObjectIsNew(cfg: Config, c: K.Cluster, copy: K.Vm)
    requires copy.key == cfg.key
    requires cfg.key in c.vms ==> IdsOurs(cfg, NicsOf(c.vms[cfg.key]))
    ensures NewState(cfg, c, K.PutObject(c, copy).cluster)
  {
    var c' := K.PutObject(c, copy).cluster;
    if cfg.key in c.vms && cfg.key in c'.vms {
      SameStatusLater(cfg, c.vms[cfg.key], c'.vms[cfg.key]);
    }
  }

  lemma PutObjectKeepsFinalizer(cfg: Config, c: K.Cluster, copy: K.Vm)
    requires copy.key == cfg.key
    requires cfg.key in c.vms && c.vms[cfg.key].version == copy.version && HasOvn(c.vms[cfg.key]) ==> HasOvn(copy)
    ensures KeepsFinalizer(cfg, c, K.PutObject(c, copy).cluster)
  {
  }

  lemma DeleteObjectIsNew(cfg: Config, c: K.Cluster)
    requires cfg.key in c.vms && c.vms[cfg.key].key == cfg.key && IdsOurs(cfg, NicsOf(c.vms[cfg.key]))
    ensures NewState(cfg, c, K.DeleteObject(c, cfg.key)) && KeepsFinalizer(cfg, c, K.DeleteObject(c, cfg.key))
  {
    var c' := K.DeleteObject(c, cfg.key);
    if cfg.key in c'.vms {
      SameStatusLater(cfg, c.vms[cfg.key], c'.vms[cfg.key]);
    }
  }

  lemma CurrentIsOurs(cfg: Config, s: State)
    requires HistoryOk(cfg, s) && Alive(cfg, s)
    ensures s.cluster.vms[cfg.key].key == cfg.key && IdsOurs(cfg, NicsOf(s.cluster.vms[cfg.key]))
  {
    assert EntryOk(cfg, s, s.cluster.vms[cfg.key].version);
  }

  lemma StatusWritten(cfg: Config, s: State, copy: K.Vm, status: K.Status)
    requires Inv(cfg, s) && Enabled(cfg, s, WriteStatus(copy, status))
    ensures Inv(cfg, Apply(cfg, s, WriteStatus(copy, status)))
  {
    if Alive(cfg, s) {
      CurrentIsOurs(cfg, s);
    }
    PutStatusIsNew(cfg, s.cluster, copy, status);
    RecordedKeeps(cfg, s, K.PutStatus(s.cluster, copy, status).cluster);
  }

  lemma ObjectWritten(cfg: Config, s: State, copy: K.Vm)
    requires Inv(cfg, s) && Enabled(cfg, s, WriteObject(copy))
    ensures Inv(cfg, Apply(cfg, s, WriteObject(copy)))
  {
    if Alive(cfg, s) {
      CurrentIsOurs(cfg, s);
    }
    PutObjectIsNew(cfg, s.cluster, copy);
    PutObjectKeepsFinalizer(cfg, s.cluster, copy);
    RecordedKeeps(cfg, s, K.PutObject(s.cluster, copy).cluster);
  }

  lemma DeletionRequested(cfg: Config, s: State)
    requires Inv(cfg, s) && Alive(cfg, s)
    ensures Inv(cfg, Apply(cfg, s, RequestDeletion))
  {
    CurrentIsOurs(cfg, s);
    DeleteObjectIsNew(cfg, s.cluster);
    RecordedKeeps(cfg, s, K.DeleteObject(s.cluster, cfg.key));
  }

  // Transactions on the database

  /** A port of a valid database sits on some switch. */
  lemma PortIsHosted(db: Db, u: Uuid, id: string) returns (s: Uuid)
    requires Valid(db) && PortNamed(db.rows, u, id)
    ensures Owns(db.rows, s, u) && Hosted(db.rows, u, s, db.rows[s].name, id)
  {
    s := ExactlyOneOwner(db, u);
    assert RefsOk(db.rows, db.rows[s]);
  }

  lemma NoPortStays(cfg: Config, db: Db, db': Db, id: string)
    requires Valid(db) && Foreign(cfg, db, db') && id in cfg.ours && NoPort(db.rows, id)
    ensures NoPort(db'.rows, id)
  {
    forall u
      ensures !PortNamed(db'.rows, u, id)
    {
      if PortNamed(db'.rows, u, id) {
        var s := PortIsHosted(db', u, id);
      }
    }
  }

  lemma ForeignUpdating(cfg: Config, s: State, db: Db)
    requires Valid(s.db) && UpdatingOk(cfg, s) && Foreign(cfg, s.db, db)
    ensures UpdatingOk(cfg, s.(db := db))
  {
    if s.phase.Updating? && s.phase.switch.Some? {
      NoPortStays(cfg, s.db, db, s.phase.todo[0].ovnId.value);
    }
  }

  lemma ForeignRemoving(cfg: Config, s: State, db: Db)
    requires Valid(s.db) && HistoryOk(cfg, s) && RemovingOk(cfg, s) && Foreign(cfg, s.db, db)
    ensures RemovingOk(cfg, s.(db := db))
  {
    if s.phase.Removing? {
      assert EntryOk(cfg, s, s.phase.copy.version);
      forall n | n in NicsOf(s.phase.copy) && n.ovnId.Some?
        ensures n in s.phase.todo || NoPort(db.rows, n.ovnId.value)
      {
        if NoPort(s.db.rows, n.ovnId.value) {
          NoPortStays(cfg, s.db, db, n.ovnId.value);
        }
      }
    }
  }

  lemma ForeignKeeps(cfg: Config, s: State, db: Db)
    requires Inv(cfg, s) && Foreign(cfg, s.db, db)
    ensures Inv(cfg, s.(db := db))
  {
    ForeignUpdating(cfg, s, db);
    ForeignRemoving(cfg, s, db);
  }

  // The VM's own reconcile

  /** A copy not under deletion that a reconcile gets comes before any removal of the finalizer. */
  lemma NotYetRemoved(cfg: Config, s: State, version: nat)
    requires HistoryOk(cfg, s) && FinalizerOk(cfg, s)
    requires version in s.history && s.cache <= version && !s.history[version].deleting
    ensures s.removed.None?
  {
    assert s.removed.Some? ==> Later(s.history[s.removed.value], s.history[version]);
  }

  lemma TodoIsListed(cfg: Config, s: State, copy: K.Vm)
    requires Alive(cfg, s) && NicsKept(NicsOf(copy), NicsOf(s.cluster.vms[cfg.key]))
    ensures forall n :: n in OvnNics(copy) && n.ovnId.Some? && n.name.Some? ==>
              ListsNic(cfg, s.cluster.vms[cfg.key], n.ovnId.value, SwitchOf(cfg.key, n))
  {
    forall n | n in OvnNics(copy) && n.ovnId.Some? && n.name.Some?
      ensures ListsNic(cfg, s.cluster.vms[cfg.key], n.ovnId.value, SwitchOf(cfg.key, n))
    {
      assert ListsNic(cfg, copy, n.ovnId.value, SwitchOf(cfg.key, n));
      ListedLater(cfg, copy, s.cluster.vms[cfg.key], n.ovnId.value, SwitchOf(cfg.key, n));
    }
  }

  lemma StartedWithFinalizer(cfg: Config, s: State, version: nat)
    requires Inv(cfg, s) && Enabled(cfg, s, StartUpdate(version)) && HasOvn(s.history[version])
    ensures Inv(cfg, Started(cfg, s, version))
  {
    NotYetRemoved(cfg, s, version);
    var copy := s.history[version];
    assert EntryOk(cfg, s, version);
    assert Later(copy, s.cluster.vms[cfg.key]);
    TodoIsListed(cfg, s, copy);
  }

  /** A successful commit of the finalizer was made on the current object. */
  lemma AddedFinalizer(cfg: Config, s: State, copy: K.Vm)
    requires HistoryOk(cfg, s) && copy.version in s.history && s.history[copy.version] == copy && copy.key == cfg.key
    requires !HasOvn(copy) && K.PutObject(s.cluster, K.WithFinalizer(copy, OvnFinalizer())).error.None?
    ensures var c := K.PutObject(s.cluster, K.WithFinalizer(copy, OvnFinalizer())).cluster;
            && cfg.key in c.vms && HasOvn(c.vms[cfg.key])
            && NicsKept(NicsOf(copy), NicsOf(c.vms[cfg.key]))
  {
    var c := K.PutObject(s.cluster, K.WithFinalizer(copy, OvnFinalizer())).cluster;
    assert s.cluster.vms[cfg.key] == copy;
    NicsKeptSame(NicsOf(copy));
    assert NicsOf(c.vms[cfg.key]) == NicsOf(copy);
  }

  lemma StartedWithoutFinalizer(cfg: Config, s: State, version: nat)
    requires Inv(cfg, s) && Enabled(cfg, s, StartUpdate(version)) && !HasOvn(s.history[version])
    ensures Inv(cfg, Started(cfg, s, version))
  {
    NotYetRemoved(cfg, s, version);
    var copy := s.history[version];
    var withOvn := K.WithFinalizer(copy, OvnFinalizer());
    var r := K.PutObject(s.cluster, withOvn);
    var s' := s.(cache := version);
    assert EntryOk(cfg, s, version);
    if r.error.None? {
      CurrentIsOurs(cfg, s);
      PutObjectIsNew(cfg, s.cluster, withOvn);
      PutObjectKeepsFinalizer(cfg, s.cluster, withOvn);
      RecordedKeeps(cfg, s', r.cluster);
      AddedFinalizer(cfg, s, copy);
      TodoIsListed(cfg, Recorded(cfg, s', r.cluster), copy);
    }
  }

  lemma LookedUpdating(cfg: Config, s: State)
    requires Bounded(s.db) && UpdatingOk(cfg, s) && Enabled(cfg, s, LookForPort)
    ensures UpdatingOk(cfg, LookedForPort(cfg, s))
  {
    var s' := LookedForPort(cfg, s);
    if s'.phase.Updating? && s'.phase.switch.Some? {
      assert s'.phase.todo == s.phase.todo;
    }
  }

  lemma OnlyPhaseChanges(cfg: Config, s: State, phase: Phase)
    requires HistoryOk(cfg, s) && FinalizerOk(cfg, s) && PortsOk(cfg, s)
    ensures HistoryOk(cfg, s.(phase := phase)) && FinalizerOk(cfg, s.(phase := phase))
            && PortsOk(cfg, s.(phase := phase))
  {
    var s' := s.(phase := phase);
    assert forall v :: v in s.history ==> EntryOk(cfg, s, v);
    forall u, sw, name, id | id in cfg.ours && Hosted(s.db.rows, u, sw, name, id)
      ensures Wanted(cfg, s', id, name)
    {
      assert Wanted(cfg, s, id, name);
    }
  }

  lemma LookedKeeps(cfg: Config, s: State)
    requires Inv(cfg, s) && Enabled(cfg, s, LookForPort)
    ensures Inv(cfg, LookedForPort(cfg, s))
  {
    LookedUpdating(cfg, s);
    OnlyPhaseChanges(cfg, s, LookedForPort(cfg, s).phase);
  }

  lemma CreatedHosted(cfg: Config, s: State, u: Uuid, sw: Uuid, name: string, id: string)
    requires Valid(s.db) && UpdatingOk(cfg, s) && Enabled(cfg, s, CreatePort)
    requires var nic := s.phase.todo[0];
             Hosted(WithNewPort(s.db, s.phase.switch.value, PortRow(nic.ovnId.value)).rows, u, sw, name, id)
    ensures var nic := s.phase.todo[0];
            Hosted(s.db.rows, u, sw, name, id) || (id == nic.ovnId.value && name == SwitchOf(cfg.key, nic))
  {
    var row := PortRow(s.phase.todo[0].ovnId.value);
    var owner := s.phase.switch.value;
    if Hits(s.db.rows, LogicalSwitch, owner) {
      NewPortChildren(s.db, owner, row, sw, u);
    }
  }

  lemma CreatedKeeps(cfg: Config, s: State)
    requires Inv(cfg, s) && Enabled(cfg, s, CreatePort)
    ensures Inv(cfg, CreatedPort(s))
  {
    var nic := s.phase.todo[0];
    var row := PortRow(nic.ovnId.value);
    var owner := s.phase.switch.value;
    forall u | u in s.db.rows
      ensures !SameName(s.db.rows[u], row)
    {
      assert !PortNamed(s.db.rows, u, nic.ovnId.value);
    }
    NewPortEffect(s.db, owner, row);
    assert nic in s.phase.todo;
    forall u, sw, name, id | id in cfg.ours && Hosted(CreatedPort(s).db.rows, u, sw, name, id)
      ensures Wanted(cfg, s, id, name)
    {
      CreatedHosted(cfg, s, u, sw, name, id);
    }
  }

  lemma StartedRemoval(cfg: Config, s: State, version: nat)
    requires Inv(cfg, s) && Enabled(cfg, s, StartRemoval(version))
    ensures Inv(cfg, Apply(cfg, s, StartRemoval(version)))
  {
    assert EntryOk(cfg, s, version);
    var copy := s.history[version];
    OnlyPhaseChanges(cfg, s, Removing(copy, OvnNics(copy), None));
  }

  /** A port of ours sits on the switch its id was generated for. */
  lemma PortOnItsSwitch(cfg: Config, s: State, u: Uuid, sw: Uuid, name: string, id: string)
    requires HistoryOk(cfg, s) && PortsOk(cfg, s) && id in cfg.ours && Hosted(s.db.rows, u, sw, name, id)
    ensures name == cfg.ours[id]
  {
    assert Wanted(cfg, s, id, name);
    CurrentIsOurs(cfg, s);
  }

  lemma LookedRemoving(cfg: Config, s: State)
    requires Valid(s.db) && HistoryOk(cfg, s) && PortsOk(cfg, s) && RemovingOk(cfg, s)
             && Enabled(cfg, s, LookForRemoval)
    ensures RemovingOk(cfg, LookedForRemoval(cfg, s))
  {
    var s' := LookedForRemoval(cfg, s);
    var nic := s.phase.todo[0];
    assert nic in s.phase.todo;
    if s'.phase.Removing? && s'.phase.switch.Some? {
      forall u, sw, name | Hosted(s.db.rows, u, sw, name, nic.ovnId.value)
        ensures sw == s'.phase.switch.value
      {
        PortOnItsSwitch(cfg, s, u, sw, name, nic.ovnId.value);
        LookupIs(s.db.rows, LogicalSwitch, SwitchOf(cfg.key, nic), sw);
      }
    } else if s'.phase.Removing? {
      assert s.phase.todo == [nic] + s'.phase.todo;
      assert NoPort(s.db.rows, nic.ovnId.value);
    }
  }

  lemma LookedForRemovalKeeps(cfg: Config, s: State)
    requires Inv(cfg, s) && Enabled(cfg, s, LookForRemoval)
    ensures Inv(cfg, LookedForRemoval(cfg, s))
  {
    LookedRemoving(cfg, s);
    OnlyPhaseChanges(cfg, s, LookedForRemoval(cfg, s).phase);
  }

  lemma WithoutPortIsForeign(cfg: Config, db: Db, switch: Uuid, port: Uuid)
    requires Valid(db)
    ensures Foreign(cfg, db, WithoutPort(db, switch, port))
  {
    WithoutPortIsValid(db, switch, port);
  }

  /** Deleting the port from the switch it is on leaves no port of that name. */
  lemma DeletedIsGone(db: Db, switch: Uuid, port: Uuid, id: string)
    requires Valid(db) && PortNamed(db.rows, port, id)
    requires forall u, s, name :: Hosted(db.rows, u, s, name, id) ==> s == switch
    ensures NoPort(WithoutPort(db, switch, port).rows, id)
  {
    var s := PortIsHosted(db, port, id);
    forall u
      ensures !PortNamed(WithoutPort(db, switch, port).rows, u, id)
    {
      assert u in db.rows && PortNamed(WithoutPort(db, switch, port).rows, u, id) ==>
        SameName(db.rows[u], db.rows[port]);
    }
  }

  lemma DeletedRemoving(cfg: Config, s: State, db: Db)
    requires s.phase.Removing? && s.phase.todo != [] && RemovingOk(cfg, s.(db := db))
    requires s.phase.todo[0].ovnId.Some? && NoPort(db.rows, s.phase.todo[0].ovnId.value)
    ensures RemovingOk(cfg, s.(db := db, phase := Removing(s.phase.copy, s.phase.todo[1..], None)))
  {
    assert s.phase.todo == [s.phase.todo[0]] + s.phase.todo[1..];
  }

  lemma DeletedKeeps(cfg: Config, s: State)
    requires Inv(cfg, s) && Enabled(cfg, s, DeletePort)
    ensures Inv(cfg, DeletedPort(s))
  {
    var id := s.phase.todo[0].ovnId.value;
    var port := Lookup(s.db.rows, LogicalSwitchPort, id);
    if port.Some? {
      var db := WithoutPort(s.db, s.phase.switch.value, port.value);
      RemovePortEffect(s.db, s.phase.switch.value, port.value);
      WithoutPortIsForeign(cfg, s.db, s.phase.switch.value, port.value);
      DeletedIsGone(s.db, s.phase.switch.value, port.value, id);
      ForeignKeeps(cfg, s, db);
      OnlyPhaseChanges(cfg, s.(db := db), DeletedPort(s).phase);
      DeletedRemoving(cfg, s, db);
    } else {
      OnlyPhaseChanges(cfg, s, Idle);
    }
  }

  /** With a current copy all of whose NICs are disconnected, no port of ours is left. */
  lemma NothingLeft(cfg: Config, s: State)
    requires HistoryOk(cfg, s) && PortsOk(cfg, s) && RemovingOk(cfg, s) && s.phase.Removing? && s.phase.todo == []
    requires Alive(cfg, s) && s.cluster.vms[cfg.key].version == s.phase.copy.version
    ensures forall u, sw, name, id :: id in cfg.ours ==> !Hosted(s.db.rows, u, sw, name, id)
  {
    assert s.cluster.vms[cfg.key] == s.phase.copy;
    forall u, sw, name, id | id in cfg.ours
      ensures !Hosted(s.db.rows, u, sw, name, id)
    {
      assert Hosted(s.db.rows, u, sw, name, id) ==> Wanted(cfg, s, id, name);
    }
  }

  lemma FinishedKeeps(cfg: Config, s: State)
    requires Inv(cfg, s) && Enabled(cfg, s, RemoveFinalizer)
    ensures Inv(cfg, Finished(cfg, s))
  {
    var copy := s.phase.copy;
    assert EntryOk(cfg, s, copy.version);
    var without := K.WithoutFinalizer(copy, OvnFinalizer());
    var r := K.PutObject(s.cluster, without);
    if HasOvn(copy) && r.error.None? {
      NothingLeft(cfg, s);
      CurrentIsOurs(cfg, s);
      PutObjectIsNew(cfg, s.cluster, without);
      RecordedHistory(cfg, s, r.cluster);
      var s' := Finished(cfg, s);
      var recorded := Recorded(cfg, s, r.cluster);
      assert forall v :: v in recorded.history ==> EntryOk(cfg, recorded, v);
      assert EntriesOk(cfg, s');
    } else {
      OnlyPhaseChanges(cfg, s, Idle);
    }
  }

  lemma RevisionKeeps(cfg: Config, s: State, rev: nat)
    requires Inv(cfg, s) && s.cluster.rev <= rev
    ensures Inv(cfg, s.(cluster := s.cluster.(rev := rev)))
  {
    var c := s.cluster.(rev := rev);
    RecordedKeeps(cfg, s, c);
    if Alive(cfg, s) {
      assert s.history[s.cluster.vms[cfg.key].version := s.cluster.vms[cfg.key]] == s.history;
    }
    assert Recorded(cfg, s, c) == s.(cluster := c);
  }

  lemma InvKept(cfg: Config, s: State, step: Step)
    requires Inv(cfg, s) && Enabled(cfg, s, step)
    ensures Inv(cfg, Apply(cfg, s, step))
  {
    match step
    case OtherWrites(rev) => RevisionKeeps(cfg, s, rev);
    case WriteStatus(copy, status) => StatusWritten(cfg, s, copy, status);
    case WriteObject(copy) => ObjectWritten(cfg, s, copy);
    case RequestDeletion => DeletionRequested(cfg, s);
    case Transaction(db) => ForeignKeeps(cfg, s, db);
    case StartUpdate(version) =>
      if HasOvn(s.history[version]) {
        StartedWithFinalizer(cfg, s, version);
      } else {
        StartedWithoutFinalizer(cfg, s, version);
      }
    case LookForPort => LookedKeeps(cfg, s);
    case CreatePort => CreatedKeeps(cfg, s);
    case StartRemoval(version) => StartedRemoval(cfg, s, version);
    case LookForRemoval => LookedForRemovalKeeps(cfg, s);
    case DeletePort => DeletedKeeps(cfg, s);
    case RemoveFinalizer => FinishedKeeps(cfg, s);
    case Stop => OnlyPhaseChanges(cfg, s, Idle);
  }

  lemma {:induction false} InvAlongRuns(cfg: Config, s: State, steps: seq<Step>)
    requires Inv(cfg, s) && Run(cfg, s, steps)
    ensures Inv(cfg, After(cfg, s, steps))
    decreases |steps|
  {
    if steps != [] {
      InvKept(cfg, s, steps[0]);
      InvAlongRuns(cfg, Apply(cfg, s, steps[0]), steps[1..]);
    }
  }

  /** A VM just created, none of whose port ids is in use. */
  ghost predicate Init(cfg: Config, s: State) {
    && Valid(s.db) && (forall id :: id in cfg.ours ==> NoPort(s.db.rows, id))
    && Alive(cfg, s) && s.phase.Idle? && s.removed.None? && s.cache == 0
    && var vm := s.cluster.vms[cfg.key];
       vm.key == cfg.key && vm.status.None? && vm.version <= s.cluster.rev && s.history == map[vm.version := vm]
  }

  lemma InitInv(cfg: Config, s: State)
    requires Init(cfg, s)
    ensures Inv(cfg, s)
  {
    LaterSelf(s.cluster.vms[cfg.key]);
    assert EntriesOk(cfg, s);
  }

  /**
    Main result: over every run, whenever a switch port of the VM exists, the object exists, has the
    `ovn` finalizer and lists the port's NIC; so once the object is gone no port is left.
   */
  lemma NoPortOutlivesTheVm(cfg: Config, s: State, steps: seq<Step>)
    requires Init(cfg, s) && Run(cfg, s, steps)
    ensures var s' := After(cfg, s, steps);
            && (forall id, u :: id in cfg.ours && PortNamed(s'.db.rows, u, id) ==> Wanted(cfg, s', id, cfg.ours[id]))
            && (!Alive(cfg, s') ==> forall id :: id in cfg.ours ==> NoPort(s'.db.rows, id))
  {
    InitInv(cfg, s);
    InvAlongRuns(cfg, s, steps);
    var s' := After(cfg, s, steps);
    forall id, u | id in cfg.ours && PortNamed(s'.db.rows, u, id)
      ensures Wanted(cfg, s', id, cfg.ours[id])
    {
      var sw := PortIsHosted(s'.db, u, id);
      PortOnItsSwitch(cfg, s', u, sw, s'.db.rows[sw].name, id);
      assert Wanted(cfg, s', id, s'.db.rows[sw].name);
    }
  }

  /** A NIC that asks for a port id of its own is on an OVN network in both or in neither. */
  predicate KeepsType(env: Nics.Env, env': Nics.Env, nic: K.Nic)
    requires Nics.NetworkKnown(env, nic) && Nics.NetworkKnown(env', nic)
  {
    nic.ovnId.Some? ==> (Nics.OnOvn(env, nic) <==> Nics.OnOvn(env', nic))
  }

  lemma RefillKeepsEntry(env: Nics.Env, prev: seq<K.Nic>, specs: seq<K.Nic>, env': Nics.Env, i: nat)
    requires Nics.AllTargets(specs) && Nics.AllKnown(env, specs) && Nics.AllKnown(env', specs) && i < |specs|
    requires Nics.DistinctTargets(specs) && Nics.NoAlias(specs, prev) && Nics.Separate(env, specs, specs)
    requires specs[i] in specs && KeepsType(env, env', specs[i])
    ensures var first := Nics.MergeAll(env, prev, specs); var second := Nics.MergeAll(env', first, specs);
            first[i].ovnId.Some? ==> second[i].ovnId == first[i].ovnId
  {
    Nics.FindsOwnEntry(env, prev, specs, i);
    Nics.MergedFields(env, prev, specs[i], i);
    Nics.MergedFields(env', Nics.MergeAll(env, prev, specs), specs[i], i);
  }

  lemma EntriesKept(first: seq<K.Nic>, second: seq<K.Nic>)
    requires |first| == |second|
    requires forall i :: 0 <= i < |first| && first[i].ovnId.Some? ==> SameEntry(first[i], second[i])
    ensures NicsKept(first, second)
  {
    forall n | n in first && n.ovnId.Some?
      ensures exists m :: m in second && SameEntry(n, m)
    {
      var i :| 0 <= i < |first| && first[i] == n;
      assert second[i] in second && SameEntry(n, second[i]);
    }
  }

  /** Refilling the status under a fixed spec keeps the entries, as the machine asks of status writes. */
  lemma RefillKeepsNics(env: Nics.Env, prev: seq<K.Nic>, specs: seq<K.Nic>, env': Nics.Env)
    requires Nics.AllTargets(specs) && Nics.AllKnown(env, specs) && Nics.AllKnown(env', specs)
    requires Nics.DistinctTargets(specs) && Nics.NoAlias(specs, prev) && Nics.Separate(env, specs, specs)
    requires forall n :: n in specs ==> KeepsType(env, env', n)
    ensures Nics.Fill(env, prev, specs).Ok?
    ensures var first := Nics.Fill(env, prev, specs).value;
            Nics.Fill(env', first, specs).Ok? && NicsKept(first, Nics.Fill(env', first, specs).value)
  {
    Nics.FillLinesUp(env, prev, specs);
    Nics.MergeKeepsNoAlias(env, prev, specs, specs);
    var first := Nics.MergeAll(env, prev, specs);
    Nics.FillLinesUp(env', first, specs);
    var second := Nics.MergeAll(env', first, specs);
    forall i | 0 <= i < |first| && first[i].ovnId.Some?
      ensures SameEntry(first[i], second[i])
    {
      assert specs[i] in specs;
      RefillKeepsEntry(env, prev, specs, env', i);
      assert Nics.SameTarget(first[i], specs[i]) && Nics.SameTarget(second[i], specs[i]);
    }
    EntriesKept(first, second);
  }
}
