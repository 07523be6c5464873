/**
  Reconciles of different objects interleaving between their transactions, with handles that may be
  out of date. `may` tells which reconcile may create which name; each name has one such reconcile,
  and a reconcile runs once at a time. The database invariant holds after every step of every run.
  `set_address` is three requests: it lists the switches for the port's owner, lists the ports for the
  MAC, and writes; when MAC addresses stay distinct within a switch depends on what comes in between.
 */
module OvnInterleaving {
  import opened Prelude
  import opened Ovsdb
  import opened OvnTransactions
  import opened OvnObjects
  import opened Routes

  type Proc = nat

  datatype Claim = Claim(table: Table, name: string)

  datatype Handle = Handle(uuid: Uuid, claim: Claim)

  /**
    An address change under way: the port, its switch as it was listed, and whether no port of the list had the
    MAC.
   */
  datatype Pending = Pending(port: Uuid, switch: Uuid, listed: set<Uuid>, mac: string, checked: bool)

  /** What a reconcile remembers: names it found missing, rows it found, and its address change. */
  datatype Local = Local(missing: set<Claim>, handles: set<Handle>, pending: Option<Pending>)

  datatype State = State(db: Db, procs: map<Proc, Local>)

  datatype Step =
    | Look(p: Proc, claim: Claim)
    | CreateRoot(p: Proc, row: Row)
    | CreatePort(p: Proc, owner: Uuid, row: Row)
    | CreateDhcp(p: Proc, cidr: string)
    | Remove(p: Proc, table: Table, uuid: Uuid)
    | RemoveLsp(p: Proc, switch: Uuid, port: Uuid)
    | ChangeRoutes(p: Proc, router: Uuid, missing: seq<RouteSpec>, extra: seq<StoredRoute>)
    | FindOwner(p: Proc, handle: PortHandle, mac: string)
    | CheckMac(p: Proc)
    | WriteAddress(p: Proc, ip: IpConfiguration)
    | ChangeRow(p: Proc, uuid: Uuid, patch: Patch)
    | Finish(p: Proc)

  function ClaimOf(row: Row): Claim
    requires NameOf(row).Some?
  {
    Claim(TableOf(row), NameOf(row).value)
  }

  predicate Checked(l: Local) {
    l.pending.Some? && l.pending.value.checked
  }

  /**
    What the code allows: a name is created only after the same reconcile found it missing, a port
    update repeats the name of the row found, the address of a new port is unset or `router`, and an
    address is written only after its check.
   */
  predicate Enabled(s: State, step: Step) {
    && step.p in s.procs
    && var l := s.procs[step.p];
       match step
       case Look(_, _) => true
       case CreateRoot(_, row) => IsNewRoot(row) && ClaimOf(row) in l.missing
       case CreatePort(_, owner, row) =>
         && IsNewPort(row) && ClaimOf(row) in l.missing
         && (row.SwitchPort? ==> row.addresses == "" || row.addresses == "router")
       case CreateDhcp(_, _) => true
       case Remove(_, table, _) => table == LogicalSwitch || table == LogicalRouter
       case RemoveLsp(_, _, _) => true
       case ChangeRoutes(_, router, _, extra) => router < s.db.next && forall r :: r in extra ==> r.uuid < s.db.next
       case FindOwner(_, handle, mac) => l.pending.None? && IsMac(mac) && !HasSubstring(handle.addresses, mac)
       case CheckMac(_) => l.pending.Some? && !Checked(l)
       case WriteAddress(_, _) => Checked(l)
       case ChangeRow(_, u, patch) =>
         && !patch.SetAddresses?
         && (patch.SetRouterPort? ==> Handle(u, Claim(LogicalRouterPort, patch.name)) in l.handles)
       case Finish(_) => true
  }

  type Permission = (Claim, Proc) -> bool

  /** The tables whose rows have names. */
  predicate HasNames(table: Table) {
    table == LogicalSwitch || table == LogicalSwitchPort || table == LogicalRouter || table == LogicalRouterPort
  }

  /** Each name has one reconcile that may create it. */
  ghost predicate OneCreator(may: Permission) {
    forall c: Claim, p, q :: HasNames(c.table) && may(c, p) && may(c, q) ==> p == q
  }

  /** A lookup remembers the row, or that the name is missing if the reconcile may create it. */
  ghost function Seen(may: Permission, s: State, p: Proc, claim: Claim): Local
    requires p in s.procs
  {
    var l := s.procs[p];
    match Lookup(s.db.rows, claim.table, claim.name)
    case Some(u) => l.(handles := l.handles + {Handle(u, claim)})
    case None => if may(claim, p) then l.(missing := l.missing + {claim}) else l
  }

  /** `find_lsp_owner`; without an owner the call ends. */
  ghost function Begun(rows: Rows, port: Uuid, mac: string): Option<Pending> {
    var owner := OwnerOf(rows, port);
    if owner.None? then None else Some(Pending(port, owner.value, rows[owner.value].ports, mac, false))
  }

  /** `get_by_mac` on the switch as it was listed; a match ends the call with a conflict. */
  ghost function AfterCheck(rows: Rows, pending: Pending): Option<Pending> {
    if Matched(rows, pending.listed, pending.mac) then None else Some(pending.(checked := true))
  }

  ghost function DbAfter(s: State, step: Step): Db
    requires Enabled(s, step)
  {
    var db := s.db;
    match step
    case CreateRoot(_, row) => Commit(db, InsertOps(row))
    case CreatePort(_, owner, row) => Commit(db, PortOps(owner, row))
    case CreateDhcp(_, cidr) => Commit(db, InsertOps(Dhcp(cidr, map[])))
    case Remove(_, table, u) => Commit(db, DeleteOps(table, u))
    case RemoveLsp(_, switch, port) => Commit(db, RemovePortOps(switch, port))
    case ChangeRoutes(_, router, missing, extra) => Commit(db, RouteOps(router, missing, extra))
    case WriteAddress(p, ip) =>
      var pending := s.procs[p].pending.value;
      Commit(db, UpdateOps(pending.port, SetAddresses(AddressOf(pending.mac, ip))))
    case ChangeRow(_, u, patch) => Commit(db, UpdateOps(u, patch))
    case _ => db
  }

  ghost function LocalAfter(may: Permission, s: State, step: Step): Local
    requires Enabled(s, step)
  {
    var l := s.procs[step.p];
    match step
    case Look(p, claim) => Seen(may, s, p, claim)
    case CreateRoot(_, row) => l.(missing := l.missing - {ClaimOf(row)})
    case CreatePort(_, _, row) => l.(missing := l.missing - {ClaimOf(row)})
    case FindOwner(_, handle, mac) => l.(pending := Begun(s.db.rows, handle.uuid, mac))
    case CheckMac(_) => l.(pending := AfterCheck(s.db.rows, l.pending.value))
    case WriteAddress(_, _) => l.(pending := None)
    case Finish(_) => Local({}, {}, None)
    case _ => l
  }

  ghost function Apply(may: Permission, s: State, step: Step): State
    requires Enabled(s, step)
  {
    State(DbAfter(s, step), s.procs[step.p := LocalAfter(may, s, step)])
  }

  ghost predicate Run(may: Permission, s: State, steps: seq<Step>)
    decreases |steps|
  {
    steps == [] || (Enabled(s, steps[0]) && Run(may, Apply(may, s, steps[0]), steps[1..]))
  }

  ghost function After(may: Permission, s: State, steps: seq<Step>): State
    requires Run(may, s, steps)
    decreases |steps|
  {
    if steps == [] then s else After(may, Apply(may, s, steps[0]), steps[1..])
  }

  /** No two ports of one switch carry the same MAC. */
  ghost predicate MacsDistinct(rows: Rows) {
    forall s, u, v, mac :: HasMac(rows, s, u, mac) && HasMac(rows, s, v, mac) ==> u == v
  }

  ghost predicate IsFree(rows: Rows, claim: Claim) {
    forall u :: !IsNamed(rows, u, claim.table, claim.name)
  }

  predicate HandleOk(db: Db, h: Handle) {
    h.uuid < db.next && (h.uuid in db.rows ==> IsNamed(db.rows, h.uuid, h.claim.table, h.claim.name))
  }

  /** The port of an address change stays on the switch found for it. */
  ghost predicate PendingOk(db: Db, pending: Pending) {
    && pending.port < db.next && pending.switch < db.next && IsMac(pending.mac)
    && (forall u :: u in pending.listed ==> u < db.next)
    && forall s :: Owns(db.rows, s, pending.port) ==> s == pending.switch
  }

  ghost predicate LocalOk(may: Permission, db: Db, p: Proc, l: Local) {
    && (forall c :: c in l.missing ==> may(c, p) && IsFree(db.rows, c))
    && (forall h :: h in l.handles ==> HandleOk(db, h))
    && (l.pending.Some? ==> PendingOk(db, l.pending.value))
  }

  ghost predicate Inv(may: Permission, s: State) {
    Valid(s.db) && forall p :: p in s.procs ==> LocalOk(may, s.db, p, s.procs[p])
  }

  /** Ports do not move: an owner a port has had it before. */
  ghost predicate OwnersKept(db: Db, db': Db) {
    forall s: Uuid, u: Uuid :: Owns(db'.rows, s, u) && u < db.next ==> Owns(db.rows, s, u)
  }

  /** Rows keep their names, and the only new name is the one created. */
  ghost predicate NamesKept(db: Db, db': Db, created: Option<Claim>) {
    && db.next <= db'.next
    && (forall u :: u in db'.rows && u < db.next ==>
          u in db.rows && TableOf(db'.rows[u]) == TableOf(db.rows[u]) && NameOf(db'.rows[u]) == NameOf(db.rows[u]))
    && (forall u :: u in db'.rows && db.next <= u ==>
          NameOf(db'.rows[u]).None? || created == Some(ClaimOf(db'.rows[u])))
  }

  /** No port gains a MAC. */
  ghost predicate NoNewMacs(rows: Rows, rows': Rows) {
    forall s, u, mac :: HasMac(rows', s, u, mac) ==> HasMac(rows, s, u, mac)
  }

  /** What every transaction guarantees. */
  ghost predicate Keeps(db: Db, db': Db, created: Option<Claim>) {
    Valid(db') && NamesKept(db, db', created) && OwnersKept(db, db')
  }

  lemma ClaimIsFree(rows: Rows, row: Row)
    requires NameOf(row).Some? && IsFree(rows, ClaimOf(row))
    ensures NameFree(rows, row)
  {
    forall u | u in rows
      ensures !SameName(rows[u], row)
    {
      assert !IsNamed(rows, u, TableOf(row), NameOf(row).value);
    }
  }

  /** A new row that refers to nothing gives nobody an owner or a MAC. */
  lemma NewRowKeeps(db: Db, row: Row)
    requires Valid(db) && Children(row) == {}
    ensures var db' := Db(db.rows[db.next := row], db.next + 1);
            && OwnersKept(db, db') && NoNewMacs(db.rows, db'.rows)
            && NamesKept(db, db', if NameOf(row).Some? then Some(ClaimOf(row)) else None)
  {
    var db' := Db(db.rows[db.next := row], db.next + 1);
    forall s, u | Owns(db'.rows, s, u)
      ensures s != db.next && Owns(db.rows, s, u)
    {
    }
    forall s, u, mac | HasMac(db'.rows, s, u, mac)
      ensures HasMac(db.rows, s, u, mac)
    {
      assert RefsOk(db.rows, db.rows[s]);
    }
  }

  lemma CreateRootKeeps(db: Db, row: Row)
    requires Valid(db) && IsNewRoot(row) && IsFree(db.rows, ClaimOf(row))
    ensures Keeps(db, Commit(db, InsertOps(row)), Some(ClaimOf(row)))
    ensures NoNewMacs(db.rows, Commit(db, InsertOps(row)).rows)
  {
    ClaimIsFree(db.rows, row);
    InsertRootEffect(db, row);
    NewRowKeeps(db, row);
  }

  lemma CreateDhcpKeeps(db: Db, cidr: string)
    requires Valid(db)
    ensures Keeps(db, Commit(db, InsertOps(Dhcp(cidr, map[]))), None)
    ensures NoNewMacs(db.rows, Commit(db, InsertOps(Dhcp(cidr, map[]))).rows)
  {
    InsertRootEffect(db, Dhcp(cidr, map[]));
    NewRowKeeps(db, Dhcp(cidr, map[]));
  }

  lemma NoMacYet(row: Row)
    requires row.SwitchPort? && (row.addresses == "" || row.addresses == "router")
    ensures !IsMac(Token(row.addresses))
  {
    UntilSplits("router", ' ', "");
  }

  lemma NewPortHasNoMac(db: Db, owner: Uuid, row: Row, s: Uuid, u: Uuid, mac: string)
    requires Valid(db) && IsNewPort(row) && (row.SwitchPort? ==> row.addresses == "" || row.addresses == "router")
    requires HasMac(WithNewPort(db, owner, row).rows, s, u, mac)
    ensures HasMac(db.rows, s, u, mac)
  {
    if Hits(db.rows, OwnerTable(row), owner) {
      if row.SwitchPort? {
        NoMacYet(row);
      }
      assert u != db.next;
      NewPortChildren(db, owner, row, s, u);
    }
  }

  lemma NewPortOwners(db: Db, owner: Uuid, row: Row)
    requires Bounded(db) && IsNewPort(row)
    ensures OwnersKept(db, WithNewPort(db, owner, row))
  {
    forall s: Uuid, u: Uuid | Owns(WithNewPort(db, owner, row).rows, s, u) && u < db.next
      ensures Owns(db.rows, s, u)
    {
    }
  }

  lemma NewPortNames(db: Db, owner: Uuid, row: Row)
    requires Bounded(db) && IsNewPort(row)
    ensures NamesKept(db, WithNewPort(db, owner, row), Some(ClaimOf(row)))
  {
    var db' := WithNewPort(db, owner, row);
    forall u | u in db'.rows
      ensures u < db.next ==> u in db.rows && TableOf(db'.rows[u]) == TableOf(db.rows[u])
                              && NameOf(db'.rows[u]) == NameOf(db.rows[u])
      ensures db.next <= u ==> db'.rows[u] == row
    {
    }
  }

  lemma CreatePortKeeps(db: Db, owner: Uuid, row: Row)
    requires Valid(db) && IsNewPort(row) && IsFree(db.rows, ClaimOf(row))
    requires row.SwitchPort? ==> row.addresses == "" || row.addresses == "router"
    ensures Keeps(db, Commit(db, PortOps(owner, row)), Some(ClaimOf(row)))
    ensures NoNewMacs(db.rows, Commit(db, PortOps(owner, row)).rows)
  {
    ClaimIsFree(db.rows, row);
    NewPortEffect(db, owner, row);
    NewPortNames(db, owner, row);
    NewPortOwners(db, owner, row);
    forall s, u, mac | HasMac(WithNewPort(db, owner, row).rows, s, u, mac)
      ensures HasMac(db.rows, s, u, mac)
    {
      NewPortHasNoMac(db, owner, row, s, u, mac);
    }
  }

  lemma RemoveKeeps(db: Db, table: Table, u: Uuid)
    requires Valid(db) && (table == LogicalSwitch || table == LogicalRouter)
    ensures Keeps(db, Commit(db, DeleteOps(table, u)), None)
    ensures NoNewMacs(db.rows, Commit(db, DeleteOps(table, u)).rows)
  {
    DeleteEffect(db, table, u);
  }

  lemma WithoutPortKeeps(db: Db, switch: Uuid, port: Uuid)
    requires Valid(db)
    ensures NamesKept(db, WithoutPort(db, switch, port), None)
    ensures OwnersKept(db, WithoutPort(db, switch, port))
    ensures NoNewMacs(db.rows, WithoutPort(db, switch, port).rows)
  {
  }

  lemma RemoveLspKeeps(db: Db, switch: Uuid, port: Uuid)
    requires Valid(db)
    ensures Keeps(db, Commit(db, RemovePortOps(switch, port)), None)
    ensures NoNewMacs(db.rows, Commit(db, RemovePortOps(switch, port)).rows)
  {
    RemovePortEffect(db, switch, port);
    WithoutPortKeeps(db, switch, port);
  }

  lemma RoutesKeepMacs(db: Db, router: Uuid, missing: seq<RouteSpec>, extra: set<Uuid>)
    requires Valid(db) && HandedOut(db, extra)
    ensures NoNewMacs(db.rows, WithRoutes(db, router, missing, extra).rows)
    ensures OwnersKept(db, WithRoutes(db, router, missing, extra))
    ensures NamesKept(db, WithRoutes(db, router, missing, extra), None)
  {
    if RouterIn(db, router) {
      RouteRows(db, router, missing, extra);
    }
  }

  lemma ChangeRoutesKeeps(db: Db, router: Uuid, missing: seq<RouteSpec>, extra: seq<StoredRoute>)
    requires Valid(db)
    requires router < db.next && forall r :: r in extra ==> r.uuid < db.next
    ensures Keeps(db, Commit(db, RouteOps(router, missing, extra)), None)
    ensures NoNewMacs(db.rows, Commit(db, RouteOps(router, missing, extra)).rows)
  {
    RouteEffect(db, router, missing, extra);
    RoutesKeepMacs(db, router, missing, Uuids(extra));
  }

  lemma PatchedNames(db: Db, u: Uuid, patch: Patch)
    requires Valid(db)
    requires patch.SetRouterPort? && u in db.rows ==> NameOf(db.rows[u]) == Some(patch.name)
    ensures NamesKept(db, Patched(db, u, patch), None)
    ensures OwnersKept(db, Patched(db, u, patch))
  {
    if Hits(db.rows, PatchTable(patch), u) && PatchRow(db.rows[u], patch).Some? {
      PatchKeeps(db.rows[u], patch);
      PruneTwice(db.rows, PatchRow(db.rows[u], patch).value);
    }
  }

  lemma ChangeRowKeeps(db: Db, u: Uuid, patch: Patch)
    requires Valid(db) && !patch.SetAddresses?
    requires patch.SetRouterPort? && u in db.rows ==> NameOf(db.rows[u]) == Some(patch.name)
    ensures Keeps(db, Commit(db, UpdateOps(u, patch)), None)
    ensures NoNewMacs(db.rows, Commit(db, UpdateOps(u, patch)).rows)
  {
    UpdateEffect(db, u, patch);
    PatchedNames(db, u, patch);
  }

  lemma AddressRow(db: Db, u: Uuid, address: string, v: Uuid)
    requires Valid(db) && v in db.rows
    ensures var rows' := Patched(db, u, SetAddresses(address)).rows;
            && v in rows'
            && (v != u || !db.rows[u].SwitchPort? ==> rows'[v] == db.rows[v])
            && (v == u && db.rows[u].SwitchPort? ==> rows'[u].SwitchPort? && rows'[u].addresses == address)
  {
  }

  /** After an address update the port carries the MAC, and every other port what it carried. */
  lemma AddressMac(db: Db, u: Uuid, address: string, s: Uuid, v: Uuid, mac: string)
    requires Valid(db)
    ensures HasMac(Patched(db, u, SetAddresses(address)).rows, s, v, mac) <==>
              if v == u then Owns(db.rows, s, u) && IsMac(mac) && Token(address) == mac else HasMac(db.rows, s, v, mac)
  {
    if s in db.rows {
      AddressRow(db, u, address, s);
      if Owns(db.rows, s, v) {
        assert RefsOk(db.rows, db.rows[s]);
        AddressRow(db, u, address, v);
      }
    }
  }

  ghost function Written(db: Db, u: Uuid, mac: string, ip: IpConfiguration): Db {
    Commit(db, UpdateOps(u, SetAddresses(AddressOf(mac, ip))))
  }

  lemma WrittenKeeps(db: Db, u: Uuid, mac: string, ip: IpConfiguration)
    requires Valid(db)
    ensures Written(db, u, mac, ip) == Patched(db, u, SetAddresses(AddressOf(mac, ip)))
    ensures Keeps(db, Written(db, u, mac, ip), None)
  {
    UpdateEffect(db, u, SetAddresses(AddressOf(mac, ip)));
    PatchedNames(db, u, SetAddresses(AddressOf(mac, ip)));
  }

  lemma WrittenMacs(db: Db, u: Uuid, mac: string, ip: IpConfiguration, s: Uuid, v: Uuid, m: string)
    requires Valid(db) && IsMac(mac)
    ensures HasMac(Written(db, u, mac, ip).rows, s, v, m) <==>
              if v == u then Owns(db.rows, s, u) && m == mac else HasMac(db.rows, s, v, m)
  {
    WrittenKeeps(db, u, mac, ip);
    AddressToken(mac, ip);
    AddressMac(db, u, AddressOf(mac, ip), s, v, m);
  }

  /** No other port of a switch that has `u` carries the MAC. */
  ghost predicate MacIsFor(rows: Rows, u: Uuid, mac: string) {
    forall s, v :: Owns(rows, s, u) && v != u ==> !HasMac(rows, s, v, mac)
  }

  /**
    The exact condition on one write: MACs stay distinct if and only if no other port of the switch has the MAC
    now.
   */
  lemma WriteIsExact(db: Db, u: Uuid, mac: string, ip: IpConfiguration)
    requires Valid(db) && MacsDistinct(db.rows) && IsMac(mac)
    ensures MacsDistinct(Written(db, u, mac, ip).rows) <==> MacIsFor(db.rows, u, mac)
  {
    var rows' := Written(db, u, mac, ip).rows;
    if MacIsFor(db.rows, u, mac) {
      forall s, v, w, m | HasMac(rows', s, v, m) && HasMac(rows', s, w, m)
        ensures v == w
      {
        WrittenMacs(db, u, mac, ip, s, v, m);
        WrittenMacs(db, u, mac, ip, s, w, m);
      }
    } else {
      var s, v :| Owns(db.rows, s, u) && v != u && HasMac(db.rows, s, v, mac);
      WrittenMacs(db, u, mac, ip, s, u, mac);
      WrittenMacs(db, u, mac, ip, s, v, mac);
    }
  }

  /** As one step the check and the write keep MACs distinct. */
  lemma OneStepKeepsMacs(db: Db, port: PortHandle, mac: string, ip: IpConfiguration)
    requires Valid(db) && MacsDistinct(db.rows) && IsMac(mac)
    ensures Valid(WithAddress(db, port, mac, ip).db) && MacsDistinct(WithAddress(db, port, mac, ip).db.rows)
  {
    var u := port.uuid;
    WrittenKeeps(db, u, mac, ip);
    if OwnerOf(db.rows, u).Some? && !MacInUse(db.rows, OwnerOf(db.rows, u).value, mac) {
      forall s, v | Owns(db.rows, s, u) && v != u
        ensures !HasMac(db.rows, s, v, mac)
      {
        assert u in Children(db.rows[s]) && u in Children(db.rows[OwnerOf(db.rows, u).value]);
        if HasMac(db.rows, s, v, mac) {
          TokenIsContained(db.rows[v].addresses);
        }
      }
      WriteIsExact(db, u, mac, ip);
    }
  }

  ghost function Created(step: Step): Option<Claim> {
    match step
    case CreateRoot(_, row) => if NameOf(row).Some? then Some(ClaimOf(row)) else None
    case CreatePort(_, _, row) => if NameOf(row).Some? then Some(ClaimOf(row)) else None
    case _ => None
  }

  lemma StepKeeps(may: Permission, s: State, step: Step)
    requires Inv(may, s) && Enabled(s, step)
    ensures Keeps(s.db, DbAfter(s, step), Created(step))
    ensures !step.WriteAddress? ==> NoNewMacs(s.db.rows, DbAfter(s, step).rows)
  {
    assert LocalOk(may, s.db, step.p, s.procs[step.p]);
    match step
    case CreateRoot(_, row) => CreateRootKeeps(s.db, row);
    case CreatePort(_, owner, row) => CreatePortKeeps(s.db, owner, row);
    case CreateDhcp(_, cidr) => CreateDhcpKeeps(s.db, cidr);
    case Remove(_, table, u) => RemoveKeeps(s.db, table, u);
    case RemoveLsp(_, switch, port) => RemoveLspKeeps(s.db, switch, port);
    case ChangeRoutes(_, router, missing, extra) => ChangeRoutesKeeps(s.db, router, missing, extra);
    case WriteAddress(p, ip) => WrittenKeeps(s.db, s.procs[p].pending.value.port, s.procs[p].pending.value.mac, ip);
    case ChangeRow(_, u, patch) => ChangeRowKeeps(s.db, u, patch);
    case _ =>
  }

  /** A name observed missing stays missing unless it is created. */
  lemma LocalKept(may: Permission, db: Db, db': Db, created: Option<Claim>, p: Proc, l: Local)
    requires Valid(db) && LocalOk(may, db, p, l) && NamesKept(db, db', created) && OwnersKept(db, db')
    requires created.Some? ==> created.value !in l.missing
    ensures LocalOk(may, db', p, l)
  {
    forall c | c in l.missing
      ensures IsFree(db'.rows, c)
    {
      forall u
        ensures !IsNamed(db'.rows, u, c.table, c.name)
      {
        assert !IsNamed(db.rows, u, c.table, c.name);
      }
    }
  }

  lemma BegunOk(db: Db, port: Uuid, mac: string)
    requires Valid(db) && IsMac(mac) && Begun(db.rows, port, mac).Some?
    ensures PendingOk(db, Begun(db.rows, port, mac).value)
  {
    var owner := OwnerOf(db.rows, port).value;
    assert RefsOk(db.rows, db.rows[owner]);
    forall s | Owns(db.rows, s, port)
      ensures s == owner
    {
      assert port in Children(db.rows[s]) && port in Children(db.rows[owner]);
    }
  }

  /** The reconcile's own memory after its step. */
  lemma OwnLocalKept(may: Permission, s: State, step: Step)
    requires Inv(may, s) && Enabled(s, step)
    requires Keeps(s.db, DbAfter(s, step), Created(step))
    ensures LocalOk(may, DbAfter(s, step), step.p, LocalAfter(may, s, step))
  {
    var l := s.procs[step.p];
    var created := Created(step);
    assert LocalOk(may, s.db, step.p, l);
    var rest := if created.Some? then l.(missing := l.missing - {created.value}) else l;
    LocalKept(may, s.db, DbAfter(s, step), created, step.p, rest);
    if step.FindOwner? && Begun(s.db.rows, step.handle.uuid, step.mac).Some? {
      BegunOk(s.db, step.handle.uuid, step.mac);
    }
  }

  lemma InvKept(may: Permission, s: State, step: Step)
    requires OneCreator(may) || Created(step).None?
    requires Inv(may, s) && Enabled(s, step)
    ensures Inv(may, Apply(may, s, step))
  {
    StepKeeps(may, s, step);
    OwnLocalKept(may, s, step);
    var s' := Apply(may, s, step);
    var created := Created(step);
    assert LocalOk(may, s.db, step.p, s.procs[step.p]);
    assert created.Some? ==> may(created.value, step.p);
    forall p | p in s'.procs && p != step.p
      ensures LocalOk(may, s'.db, p, s'.procs[p])
    {
      assert LocalOk(may, s.db, p, s.procs[p]);
      LocalKept(may, s.db, s'.db, created, p, s.procs[p]);
    }
  }

  /**
    Main result: whatever the interleaving, the database keeps unique names, no dangling reference,
    and one owner for every port and route.
   */
  lemma {:induction false} DatabaseStaysValid(may: Permission, s: State, steps: seq<Step>)
    requires OneCreator(may) && Inv(may, s) && Run(may, s, steps)
    ensures Inv(may, After(may, s, steps)) && Valid(After(may, s, steps).db)
    decreases |steps|
  {
    if steps != [] {
      InvKept(may, s, steps[0]);
      DatabaseStaysValid(may, Apply(may, s, steps[0]), steps[1..]);
    }
  }

  /** Before any reconcile the invariant is that of the database. */
  lemma IdleInv(may: Permission, db: Db, procs: set<Proc>)
    requires Valid(db)
    ensures Inv(may, State(db, map p | p in procs :: Local({}, {}, None)))
  {
  }

  lemma OneMore(may: Permission, s: State, step: Step, rest: seq<Step>)
    requires Enabled(s, step) && Run(may, Apply(may, s, step), rest)
    ensures Run(may, s, [step] + rest)
    ensures After(may, s, [step] + rest) == After(may, Apply(may, s, step), rest)
  {
    assert ([step] + rest)[1..] == rest;
  }

  lemma OneStep(may: Permission, s: State, step: Step)
    requires Enabled(s, step)
    ensures Run(may, s, [step]) && After(may, s, [step]) == Apply(may, s, step)
  {
    OneMore(may, s, step, []);
    assert [step] + [] == [step];
  }

  // Who may create a name

  /** A row that a reconcile may create: a root, or a port whose owner is in place. */
  predicate Creatable(db: Db, owner: Uuid, row: Row) {
    || IsNewRoot(row)
    || (IsNewPort(row) && Hits(db.rows, OwnerTable(row), owner)
        && (row.SwitchPort? ==> row.addresses == "" || row.addresses == "router"))
  }

  function Creation(p: Proc, owner: Uuid, row: Row): Step {
    if row.Switch? || row.Router? then CreateRoot(p, row) else CreatePort(p, owner, row)
  }

  function CreationOps(owner: Uuid, row: Row): seq<Op> {
    if row.Switch? || row.Router? then InsertOps(row) else PortOps(owner, row)
  }

  /** `db'` has one more row, of that name, and the rows before keep theirs. */
  ghost predicate AddsName(db: Db, db': Db, row: Row) {
    && db.next in db'.rows && SameName(db'.rows[db.next], row) && db'.next == db.next + 1
    && forall u :: u in db.rows ==> u in db'.rows && TableOf(db'.rows[u]) == TableOf(db.rows[u])
                                    && NameOf(db'.rows[u]) == NameOf(db.rows[u])
  }

  lemma RootAddsName(db: Db, row: Row)
    requires Bounded(db) && IsNewRoot(row)
    ensures AddsName(db, Db(db.rows[db.next := row], db.next + 1), row)
  {
  }

  lemma PortAddsName(db: Db, owner: Uuid, row: Row)
    requires Bounded(db) && IsNewPort(row) && Hits(db.rows, OwnerTable(row), owner)
    ensures AddsName(db, WithNewPort(db, owner, row), row)
  {
  }

  lemma CreationNames(db: Db, owner: Uuid, row: Row)
    requires Valid(db) && Creatable(db, owner, row)
    ensures AddsName(db, Commit(db, CreationOps(owner, row)), row)
    ensures NameFree(db.rows, row) ==> Valid(Commit(db, CreationOps(owner, row)))
  {
    if IsNewRoot(row) {
      InsertRootEffect(db, row);
      RootAddsName(db, row);
    } else {
      NewPortEffect(db, owner, row);
      PortAddsName(db, owner, row);
    }
  }

  /** The database accepts a second row of one name. */
  lemma TwoCreations(db: Db, owner: Uuid, row: Row)
    requires Valid(db) && Creatable(db, owner, row) && IsFree(db.rows, ClaimOf(row))
    ensures !UniqueNames(Commit(Commit(db, CreationOps(owner, row)), CreationOps(owner, row)).rows)
  {
    ClaimIsFree(db.rows, row);
    CreationNames(db, owner, row);
    var once := Commit(db, CreationOps(owner, row));
    CreationNames(once, owner, row);
    var twice := Commit(once, CreationOps(owner, row));
    assert SameName(twice.rows[db.next], twice.rows[db.next + 1]);
  }

  /** Two reconciles that both found a name missing both create it. */
  lemma BothCreate(may: Permission, s: State, p: Proc, q: Proc, owner: Uuid, row: Row) returns (steps: seq<Step>)
    requires Inv(may, s) && p in s.procs && q in s.procs && p != q && Creatable(s.db, owner, row)
    requires ClaimOf(row) in s.procs[p].missing && ClaimOf(row) in s.procs[q].missing
    ensures steps == [Creation(p, owner, row)] + [Creation(q, owner, row)]
    ensures Run(may, s, steps) && !UniqueNames(After(may, s, steps).db.rows)
  {
    assert LocalOk(may, s.db, p, s.procs[p]);
    TwoCreations(s.db, owner, row);
    var s1 := Apply(may, s, Creation(p, owner, row));
    assert s1.procs[q] == s.procs[q];
    OneStep(may, s1, Creation(q, owner, row));
    OneMore(may, s, Creation(p, owner, row), [Creation(q, owner, row)]);
    steps := [Creation(p, owner, row)] + [Creation(q, owner, row)];
  }

  lemma LookedMissing(may: Permission, s: State, p: Proc, claim: Claim)
    requires Inv(may, s) && p in s.procs && may(claim, p) && IsFree(s.db.rows, claim)
    ensures var s' := Apply(may, s, Look(p, claim));
            && s'.db == s.db && s'.procs.Keys == s.procs.Keys && claim in s'.procs[p].missing
            && forall q :: q in s.procs && q != p ==> s'.procs[q] == s.procs[q]
  {
  }

  /** If two reconciles may create one name, both find it missing and both create it. */
  lemma SharedNamesCollide(may: Permission, s: State, p: Proc, q: Proc, owner: Uuid, row: Row)
    returns (steps: seq<Step>)
    requires Inv(may, s) && p in s.procs && q in s.procs && p != q && Creatable(s.db, owner, row)
    requires may(ClaimOf(row), p) && may(ClaimOf(row), q) && IsFree(s.db.rows, ClaimOf(row))
    ensures steps == [Look(p, ClaimOf(row))] + ([Look(q, ClaimOf(row))]
                     + ([Creation(p, owner, row)] + [Creation(q, owner, row)]))
    ensures Run(may, s, steps) && !UniqueNames(After(may, s, steps).db.rows)
  {
    var claim := ClaimOf(row);
    LookedMissing(may, s, p, claim);
    InvKept(may, s, Look(p, claim));
    var s1 := Apply(may, s, Look(p, claim));
    LookedMissing(may, s1, q, claim);
    InvKept(may, s1, Look(q, claim));
    var creates := BothCreate(may, Apply(may, s1, Look(q, claim)), p, q, owner, row);
    OneMore(may, s1, Look(q, claim), creates);
    OneMore(may, s, Look(p, claim), [Look(q, claim)] + creates);
    steps := [Look(p, claim)] + ([Look(q, claim)] + creates);
  }

  /** No reconcile has begun. */
  ghost predicate Idle(s: State) {
    forall p :: p in s.procs ==> s.procs[p] == Local({}, {}, None)
  }

  function NewPort(name: string): Row {
    SwitchPort(name, "", "", map[], {})
  }

  /** The row of a claim. */
  function RowFor(claim: Claim): Row
    requires HasNames(claim.table)
  {
    match claim.table
    case LogicalSwitch => Switch(claim.name, {}, map[])
    case LogicalSwitchPort => NewPort(claim.name)
    case LogicalRouter => Router(claim.name, {}, {})
    case _ => RouterPort(claim.name, "", "")
  }

  /** A database with one row. */
  function OneRow(row: Row): Db {
    Db(map[0 := row], 1)
  }

  /** A database with one switch and no port. */
  function OneSwitch(): Db {
    OneRow(Switch("s", {}, map[]))
  }

  lemma EmptyIsValid()
    ensures Valid(Db(map[], 0))
  {
  }

  lemma OneRowIsValid(row: Row)
    requires IsNewRoot(row)
    ensures Valid(OneRow(row))
  {
    EmptyIsValid();
    InsertRootEffect(Db(map[], 0), row);
    assert Db(map[], 0).rows[0 := row] == OneRow(row).rows;
  }

  /** A valid database in which the claim is free and its row can be created. */
  lemma FreeFor(claim: Claim) returns (db: Db)
    requires HasNames(claim.table)
    ensures Valid(db) && IsFree(db.rows, claim) && Creatable(db, 0, RowFor(claim)) && ClaimOf(RowFor(claim)) == claim
  {
    if claim.table == LogicalSwitchPort {
      OneRowIsValid(Switch("s", {}, map[]));
      db := OneSwitch();
    } else if claim.table == LogicalRouterPort {
      OneRowIsValid(Router("r", {}, {}));
      db := OneRow(Router("r", {}, {}));
    } else {
      EmptyIsValid();
      db := Db(map[], 0);
    }
  }

  lemma TwoCreatorsCollide(may: Permission, claim: Claim, p: Proc, q: Proc) returns (s: State, steps: seq<Step>)
    requires HasNames(claim.table) && may(claim, p) && may(claim, q) && p != q
    ensures Idle(s) && Valid(s.db) && Run(may, s, steps) && !Valid(After(may, s, steps).db)
  {
    var db := FreeFor(claim);
    s := State(db, map[p := Local({}, {}, None), q := Local({}, {}, None)]);
    steps := SharedNamesCollide(may, s, p, q, 0, RowFor(claim));
  }

  /**
    Main result: the database stays valid over all runs if and only if each switch, router and port name
    has one reconcile that may create it.
   */
  lemma OneCreatorIsExact(may: Permission)
    ensures OneCreator(may) <==>
            forall s, steps :: Idle(s) && Valid(s.db) && Run(may, s, steps) ==> Valid(After(may, s, steps).db)
  {
    if OneCreator(may) {
      forall s, steps | Idle(s) && Valid(s.db) && Run(may, s, steps)
        ensures Valid(After(may, s, steps).db)
      {
        DatabaseStaysValid(may, s, steps);
      }
    } else {
      var c: Claim, p, q :| HasNames(c.table) && may(c, p) && may(c, q) && p != q;
      var s, steps := TwoCreatorsCollide(may, c, p, q);
    }
  }

  // MAC addresses

  /** A port that carries the MAC of an address change under way is its own, or one its check will see. */
  ghost predicate PendingMacs(rows: Rows, pending: Pending) {
    forall v :: HasMac(rows, pending.switch, v, pending.mac) && v != pending.port ==>
      !pending.checked && v in pending.listed
  }

  ghost predicate MacsOk(s: State) {
    && MacsDistinct(s.db.rows)
    && forall p :: p in s.procs && s.procs[p].pending.Some? ==> PendingMacs(s.db.rows, s.procs[p].pending.value)
  }

  /** Two address changes for one MAC, for different ports of one switch. */
  predicate Rivals(a: Pending, b: Pending) {
    a.switch == b.switch && a.mac == b.mac && a.port != b.port
  }

  ghost predicate Exclusive(s: State) {
    forall p, q :: p in s.procs && q in s.procs && p != q && s.procs[p].pending.Some? && s.procs[q].pending.Some? ==>
      !Rivals(s.procs[p].pending.value, s.procs[q].pending.value)
  }

  lemma PendingMacsStay(rows: Rows, rows': Rows, pending: Pending)
    requires PendingMacs(rows, pending) && NoNewMacs(rows, rows')
    ensures PendingMacs(rows', pending)
  {
  }

  lemma CheckedMacs(rows: Rows, pending: Pending)
    requires PendingMacs(rows, pending) && !pending.checked && AfterCheck(rows, pending).Some?
    ensures PendingMacs(rows, AfterCheck(rows, pending).value)
  {
    forall v | HasMac(rows, pending.switch, v, pending.mac) && v != pending.port
      ensures Contains(rows[v].addresses, pending.mac)
    {
      TokenIsContained(rows[v].addresses);
    }
  }

  /** The reconcile's own address change after a step that writes no address. */
  lemma OwnPendingMacs(may: Permission, s: State, step: Step)
    requires Inv(may, s) && MacsOk(s) && Enabled(s, step) && !step.WriteAddress?
    requires NoNewMacs(s.db.rows, DbAfter(s, step).rows)
    ensures LocalAfter(may, s, step).pending.Some? ==>
            PendingMacs(DbAfter(s, step).rows, LocalAfter(may, s, step).pending.value)
  {
    var l := s.procs[step.p];
    if step.CheckMac? {
      if AfterCheck(s.db.rows, l.pending.value).Some? {
        CheckedMacs(s.db.rows, l.pending.value);
      }
    } else if !step.FindOwner? && l.pending.Some? {
      PendingMacsStay(s.db.rows, DbAfter(s, step).rows, l.pending.value);
    }
  }

  lemma QuietStepKeepsMacs(may: Permission, s: State, step: Step)
    requires Inv(may, s) && MacsOk(s) && Enabled(s, step) && !step.WriteAddress?
    ensures MacsOk(Apply(may, s, step))
  {
    StepKeeps(may, s, step);
    OwnPendingMacs(may, s, step);
    var s' := Apply(may, s, step);
    forall p | p in s'.procs && p != step.p && s'.procs[p].pending.Some?
      ensures PendingMacs(s'.db.rows, s'.procs[p].pending.value)
    {
      PendingMacsStay(s.db.rows, s'.db.rows, s.procs[p].pending.value);
    }
  }

  /** A write leaves alone what another, unrivalled address change relies on. */
  lemma OtherPendingMacs(db: Db, a: Pending, ip: IpConfiguration, b: Pending)
    requires Valid(db) && PendingOk(db, a) && PendingMacs(db.rows, b) && !Rivals(a, b)
    ensures PendingMacs(Written(db, a.port, a.mac, ip).rows, b)
  {
    var rows' := Written(db, a.port, a.mac, ip).rows;
    forall v | HasMac(rows', b.switch, v, b.mac) && v != b.port
      ensures !b.checked && v in b.listed
    {
      WrittenMacs(db, a.port, a.mac, ip, b.switch, v, b.mac);
    }
  }

  lemma WriteKeepsMacs(may: Permission, s: State, p: Proc, ip: IpConfiguration)
    requires Inv(may, s) && MacsOk(s) && Exclusive(s) && Enabled(s, WriteAddress(p, ip))
    ensures MacsOk(Apply(may, s, WriteAddress(p, ip)))
  {
    var a := s.procs[p].pending.value;
    assert LocalOk(may, s.db, p, s.procs[p]);
    WriteIsExact(s.db, a.port, a.mac, ip);
    var s' := Apply(may, s, WriteAddress(p, ip));
    forall q | q in s'.procs && q != p && s'.procs[q].pending.Some?
      ensures PendingMacs(s'.db.rows, s'.procs[q].pending.value)
    {
      OtherPendingMacs(s.db, a, ip, s.procs[q].pending.value);
    }
  }

  /** No two reconciles are ever between owner lookup and write for one MAC and two ports of one switch. */
  ghost predicate ExclusiveRun(may: Permission, s: State, steps: seq<Step>)
    requires Run(may, s, steps)
    decreases |steps|
  {
    Exclusive(s) && (steps != [] ==> ExclusiveRun(may, Apply(may, s, steps[0]), steps[1..]))
  }

  /** Main result: over every such run no two ports of a switch carry the same MAC. */
  lemma {:induction false} MacsStayDistinct(may: Permission, s: State, steps: seq<Step>)
    requires OneCreator(may) && Inv(may, s) && MacsOk(s) && Run(may, s, steps) && ExclusiveRun(may, s, steps)
    ensures MacsOk(After(may, s, steps)) && MacsDistinct(After(may, s, steps).db.rows)
    decreases |steps|
  {
    if steps != [] {
      InvKept(may, s, steps[0]);
      if steps[0].WriteAddress? {
        WriteKeepsMacs(may, s, steps[0].p, steps[0].ip);
      } else {
        QuietStepKeepsMacs(may, s, steps[0]);
      }
      MacsStayDistinct(may, Apply(may, s, steps[0]), steps[1..]);
    }
  }

  // The exact condition on the writes that have passed their check

  ghost predicate Live(rows: Rows, pending: Pending) {
    Owns(rows, pending.switch, pending.port)
  }

  /** No two checked address changes are rivals with both ports still in place. */
  ghost predicate CheckedExclusive(s: State) {
    forall p, q :: p in s.procs && q in s.procs && p != q && Checked(s.procs[p]) && Checked(s.procs[q])
                   && Live(s.db.rows, s.procs[p].pending.value) && Live(s.db.rows, s.procs[q].pending.value) ==>
      !Rivals(s.procs[p].pending.value, s.procs[q].pending.value)
  }

  /** A checked change whose port is in place finds no other port with the MAC. */
  ghost predicate CheckedOk(s: State) {
    && MacsDistinct(s.db.rows)
    && forall p :: p in s.procs && Checked(s.procs[p]) && Live(s.db.rows, s.procs[p].pending.value) ==>
         PendingMacs(s.db.rows, s.procs[p].pending.value)
  }

  lemma WriteKeepsOwners(db: Db, u: Uuid, mac: string, ip: IpConfiguration, s: Uuid, v: Uuid)
    requires Valid(db)
    ensures Owns(Written(db, u, mac, ip).rows, s, v) <==> Owns(db.rows, s, v)
  {
    WrittenKeeps(db, u, mac, ip);
    if s in db.rows {
      AddressRow(db, u, AddressOf(mac, ip), s);
    }
  }

  /** A write to a port that is gone gives nobody a MAC. */
  lemma LostWrite(db: Db, a: Pending, ip: IpConfiguration, b: Pending)
    requires Valid(db) && PendingOk(db, a) && !Live(db.rows, a) && PendingMacs(db.rows, b)
    ensures PendingMacs(Written(db, a.port, a.mac, ip).rows, b)
  {
    var rows' := Written(db, a.port, a.mac, ip).rows;
    forall v | HasMac(rows', b.switch, v, b.mac) && v != b.port
      ensures HasMac(db.rows, b.switch, v, b.mac)
    {
      WrittenMacs(db, a.port, a.mac, ip, b.switch, v, b.mac);
    }
  }

  lemma CheckedWriteKeeps(may: Permission, s: State, p: Proc, ip: IpConfiguration)
    requires Inv(may, s) && CheckedOk(s) && CheckedExclusive(s) && Enabled(s, WriteAddress(p, ip))
    ensures CheckedOk(Apply(may, s, WriteAddress(p, ip))) && CheckedExclusive(Apply(may, s, WriteAddress(p, ip)))
  {
    var a := s.procs[p].pending.value;
    assert LocalOk(may, s.db, p, s.procs[p]);
    forall t, v | Owns(s.db.rows, t, a.port) && v != a.port
      ensures !HasMac(s.db.rows, t, v, a.mac)
    {
      assert t == a.switch;
    }
    WriteIsExact(s.db, a.port, a.mac, ip);
    var s' := Apply(may, s, WriteAddress(p, ip));
    forall q | q in s'.procs && q != p && Checked(s'.procs[q])
      ensures Live(s'.db.rows, s'.procs[q].pending.value) <==> Live(s.db.rows, s.procs[q].pending.value)
      ensures Live(s'.db.rows, s'.procs[q].pending.value) ==> PendingMacs(s'.db.rows, s'.procs[q].pending.value)
    {
      var b := s.procs[q].pending.value;
      WriteKeepsOwners(s.db, a.port, a.mac, ip, b.switch, b.port);
      if Live(s.db.rows, b) {
        if Live(s.db.rows, a) {
          OtherPendingMacs(s.db, a, ip, b);
        } else {
          LostWrite(s.db, a, ip, b);
        }
      }
    }
  }

  predicate OnlyWrites(steps: seq<Step>) {
    forall i :: 0 <= i < |steps| ==> steps[i].WriteAddress?
  }

  lemma {:induction false} CheckedWritesAreSafe(may: Permission, s: State, steps: seq<Step>)
    requires Inv(may, s) && CheckedOk(s) && CheckedExclusive(s) && Run(may, s, steps) && OnlyWrites(steps)
    ensures MacsDistinct(After(may, s, steps).db.rows)
    decreases |steps|
  {
    if steps != [] {
      CheckedWriteKeeps(may, s, steps[0].p, steps[0].ip);
      InvKept(may, s, steps[0]);
      CheckedWritesAreSafe(may, Apply(may, s, steps[0]), steps[1..]);
    }
  }

  /** Both writes of two rivals give two ports the MAC. */
  lemma RivalWrites(db: Db, a: Pending, b: Pending, ip: IpConfiguration)
    requires Valid(db) && PendingOk(db, a) && PendingOk(db, b) && Rivals(a, b) && Live(db.rows, a) && Live(db.rows, b)
    ensures !MacsDistinct(Written(Written(db, a.port, a.mac, ip), b.port, b.mac, ip).rows)
  {
    var db1 := Written(db, a.port, a.mac, ip);
    WrittenKeeps(db, a.port, a.mac, ip);
    WrittenMacs(db, a.port, a.mac, ip, a.switch, a.port, a.mac);
    WriteKeepsOwners(db, a.port, a.mac, ip, b.switch, b.port);
    WrittenMacs(db1, b.port, b.mac, ip, a.switch, a.port, a.mac);
    WrittenMacs(db1, b.port, b.mac, ip, b.switch, b.port, b.mac);
  }

  lemma WriteApplied(may: Permission, s: State, p: Proc, ip: IpConfiguration)
    requires p in s.procs && Checked(s.procs[p])
    ensures var a, s' := s.procs[p].pending.value, Apply(may, s, WriteAddress(p, ip));
            && s'.db == Written(s.db, a.port, a.mac, ip) && s'.procs.Keys == s.procs.Keys
            && forall q :: q in s.procs && q != p ==> s'.procs[q] == s.procs[q]
  {
  }

  /** Two rivals that both passed their check: after both writes two ports share the MAC. */
  lemma RivalsCollide(may: Permission, s: State, p: Proc, q: Proc, ip: IpConfiguration) returns (steps: seq<Step>)
    requires Inv(may, s) && p in s.procs && q in s.procs && p != q && Checked(s.procs[p]) && Checked(s.procs[q])
    requires Rivals(s.procs[p].pending.value, s.procs[q].pending.value)
    requires Live(s.db.rows, s.procs[p].pending.value) && Live(s.db.rows, s.procs[q].pending.value)
    ensures OnlyWrites(steps) && Run(may, s, steps) && !MacsDistinct(After(may, s, steps).db.rows)
  {
    assert LocalOk(may, s.db, p, s.procs[p]) && LocalOk(may, s.db, q, s.procs[q]);
    RivalWrites(s.db, s.procs[p].pending.value, s.procs[q].pending.value, ip);
    WriteApplied(may, s, p, ip);
    var s1 := Apply(may, s, WriteAddress(p, ip));
    WriteApplied(may, s1, q, ip);
    OneStep(may, s1, WriteAddress(q, ip));
    OneMore(may, s, WriteAddress(p, ip), [WriteAddress(q, ip)]);
    steps := [WriteAddress(p, ip)] + [WriteAddress(q, ip)];
  }

  /** The condition is exact: all orders of the checked writes are safe if and only if no two of them are rivals. */
  lemma CheckedExclusiveIsExact(may: Permission, s: State)
    requires Inv(may, s) && CheckedOk(s)
    ensures CheckedExclusive(s) <==>
            forall steps :: Run(may, s, steps) && OnlyWrites(steps) ==> MacsDistinct(After(may, s, steps).db.rows)
  {
    if CheckedExclusive(s) {
      forall steps | Run(may, s, steps) && OnlyWrites(steps)
        ensures MacsDistinct(After(may, s, steps).db.rows)
      {
        CheckedWritesAreSafe(may, s, steps);
      }
    } else {
      var p, q :| p in s.procs && q in s.procs && p != q && Checked(s.procs[p]) && Checked(s.procs[q])
                  && Live(s.db.rows, s.procs[p].pending.value) && Live(s.db.rows, s.procs[q].pending.value)
                  && Rivals(s.procs[p].pending.value, s.procs[q].pending.value);
      var steps := RivalsCollide(may, s, p, q, NoIp);
    }
  }

  // Who may use a MAC

  type MacHome = (string, Proc) -> bool

  /** Each MAC has one reconcile that sets it. */
  ghost predicate OneMacHome(home: MacHome) {
    forall mac, p, q :: IsMac(mac) && home(mac, p) && home(mac, q) ==> p == q
  }

  predicate Homed(home: MacHome, steps: seq<Step>) {
    forall i :: 0 <= i < |steps| && steps[i].FindOwner? ==> home(steps[i].mac, steps[i].p)
  }

  ghost predicate PendingHomed(home: MacHome, s: State) {
    forall p :: p in s.procs && s.procs[p].pending.Some? ==>
      home(s.procs[p].pending.value.mac, p) && IsMac(s.procs[p].pending.value.mac)
  }

  /** With one home for each MAC no two reconciles are rivals. */
  lemma {:induction false} HomedRunsAreExclusive(may: Permission, home: MacHome, s: State, steps: seq<Step>)
    requires OneMacHome(home) && PendingHomed(home, s) && Run(may, s, steps) && Homed(home, steps)
    ensures ExclusiveRun(may, s, steps)
    decreases |steps|
  {
    if steps != [] {
      assert PendingHomed(home, Apply(may, s, steps[0]));
      HomedRunsAreExclusive(may, home, Apply(may, s, steps[0]), steps[1..]);
    }
  }

  lemma OwnerIs(db: Db, switch: Uuid, u: Uuid)
    requires Valid(db) && Owns(db.rows, switch, u)
    ensures OwnerOf(db.rows, u) == Some(switch)
  {
    assert u in Children(db.rows[switch]) && u in Children(db.rows[OwnerOf(db.rows, u).value]);
  }

  /** The two steps of a reconcile before its write. */
  lemma Passes(may: Permission, s: State, p: Proc, switch: Uuid, u: Uuid, mac: string)
    requires OneCreator(may) && Inv(may, s) && p in s.procs && s.procs[p].pending.None? && IsMac(mac)
    requires Owns(s.db.rows, switch, u) && !MacInUse(s.db.rows, switch, mac)
    ensures Enabled(s, FindOwner(p, PortHandle(u, ""), mac))
    ensures var s1 := Apply(may, s, FindOwner(p, PortHandle(u, ""), mac));
            && Inv(may, s1) && s1.db == s.db && s1.procs.Keys == s.procs.Keys
            && (forall q :: q in s.procs && q != p ==> s1.procs[q] == s.procs[q])
            && s1.procs[p].pending == Some(Pending(u, switch, s.db.rows[switch].ports, mac, false))
  {
    OwnerIs(s.db, switch, u);
    InvKept(may, s, FindOwner(p, PortHandle(u, ""), mac));
  }

  lemma Clears(may: Permission, s: State, p: Proc)
    requires OneCreator(may) && Inv(may, s) && p in s.procs && s.procs[p].pending.Some? && !Checked(s.procs[p])
    requires !Matched(s.db.rows, s.procs[p].pending.value.listed, s.procs[p].pending.value.mac)
    ensures var s1 := Apply(may, s, CheckMac(p));
            && Inv(may, s1) && s1.db == s.db && s1.procs.Keys == s.procs.Keys
            && (forall q :: q in s.procs && q != p ==> s1.procs[q] == s.procs[q])
            && s1.procs[p].pending == Some(s.procs[p].pending.value.(checked := true))
  {
    InvKept(may, s, CheckMac(p));
  }

  lemma TwoMore(may: Permission, s: State, a: Step, b: Step, s': State, rest: seq<Step>)
    requires Enabled(s, a) && Enabled(Apply(may, s, a), b) && s' == Apply(may, Apply(may, s, a), b)
             && Run(may, s', rest)
    ensures Run(may, s, [a] + ([b] + rest)) && After(may, s, [a] + ([b] + rest)) == After(may, s', rest)
  {
    OneMore(may, Apply(may, s, a), b, rest);
    OneMore(may, s, a, [b] + rest);
  }

  lemma BothPass(may: Permission, s: State, p: Proc, q: Proc, switch: Uuid, u: Uuid, v: Uuid, mac: string)
    returns (s': State)
    requires OneCreator(may) && Inv(may, s) && p in s.procs && q in s.procs && p != q && IsMac(mac)
    requires s.procs[p].pending.None? && s.procs[q].pending.None?
    requires Owns(s.db.rows, switch, u) && Owns(s.db.rows, switch, v) && !MacInUse(s.db.rows, switch, mac)
    ensures var a, b := FindOwner(p, PortHandle(u, ""), mac), FindOwner(q, PortHandle(v, ""), mac);
            Enabled(s, a) && Enabled(Apply(may, s, a), b) && s' == Apply(may, Apply(may, s, a), b)
    ensures Inv(may, s') && s'.db == s.db && s'.procs.Keys == s.procs.Keys
    ensures s'.procs[p].pending == Some(Pending(u, switch, s.db.rows[switch].ports, mac, false))
    ensures s'.procs[q].pending == Some(Pending(v, switch, s.db.rows[switch].ports, mac, false))
  {
    Passes(may, s, p, switch, u, mac);
    Passes(may, Apply(may, s, FindOwner(p, PortHandle(u, ""), mac)), q, switch, v, mac);
    s' := Apply(may, Apply(may, s, FindOwner(p, PortHandle(u, ""), mac)), FindOwner(q, PortHandle(v, ""), mac));
  }

  lemma BothClear(may: Permission, s: State, p: Proc, q: Proc) returns (s': State)
    requires OneCreator(may) && Inv(may, s) && p in s.procs && q in s.procs && p != q
    requires s.procs[p].pending.Some? && !Checked(s.procs[p]) && s.procs[q].pending.Some? && !Checked(s.procs[q])
    requires !Matched(s.db.rows, s.procs[p].pending.value.listed, s.procs[p].pending.value.mac)
    requires !Matched(s.db.rows, s.procs[q].pending.value.listed, s.procs[q].pending.value.mac)
    ensures Enabled(s, CheckMac(p)) && Enabled(Apply(may, s, CheckMac(p)), CheckMac(q))
    ensures s' == Apply(may, Apply(may, s, CheckMac(p)), CheckMac(q))
    ensures Inv(may, s') && s'.db == s.db && s'.procs.Keys == s.procs.Keys
    ensures s'.procs[p].pending == Some(s.procs[p].pending.value.(checked := true))
    ensures s'.procs[q].pending == Some(s.procs[q].pending.value.(checked := true))
  {
    Clears(may, s, p);
    Clears(may, Apply(may, s, CheckMac(p)), q);
    s' := Apply(may, Apply(may, s, CheckMac(p)), CheckMac(q));
  }

  /** Both reconciles look up the owner and pass the check before either writes. */
  function Race(p: Proc, q: Proc, u: Uuid, v: Uuid, mac: string, writes: seq<Step>): seq<Step> {
    [FindOwner(p, PortHandle(u, ""), mac)] + ([FindOwner(q, PortHandle(v, ""), mac)]
    + ([CheckMac(p)] + ([CheckMac(q)] + writes)))
  }

  lemma RaceCollides(may: Permission, s: State, p: Proc, q: Proc, switch: Uuid, u: Uuid, v: Uuid, mac: string)
    returns (writes: seq<Step>)
    requires OneCreator(may) && Idle(s) && Valid(s.db) && p in s.procs && q in s.procs && p != q && IsMac(mac)
    requires Owns(s.db.rows, switch, u) && Owns(s.db.rows, switch, v) && u != v && !MacInUse(s.db.rows, switch, mac)
    ensures OnlyWrites(writes) && Run(may, s, Race(p, q, u, v, mac, writes))
    ensures !MacsDistinct(After(may, s, Race(p, q, u, v, mac, writes)).db.rows)
  {
    var s2 := BothPass(may, s, p, q, switch, u, v, mac);
    var s4 := BothClear(may, s2, p, q);
    writes := RivalsCollide(may, s4, p, q, NoIp);
    TwoMore(may, s2, CheckMac(p), CheckMac(q), s4, writes);
    TwoMore(may, s, FindOwner(p, PortHandle(u, ""), mac), FindOwner(q, PortHandle(v, ""), mac), s2,
            [CheckMac(p)] + ([CheckMac(q)] + writes));
  }

  // A port that the check cannot see

  /** The check passes over a port that is not on its list, and the write ends with two ports carrying the MAC. */
  lemma MissedPortCollides(may: Permission, s: State, p: Proc, v: Uuid, ip: IpConfiguration)
    requires Inv(may, s) && p in s.procs && s.procs[p].pending.Some? && !Checked(s.procs[p])
    requires var a := s.procs[p].pending.value;
             && Live(s.db.rows, a) && HasMac(s.db.rows, a.switch, v, a.mac) && v != a.port
             && v !in a.listed && !Matched(s.db.rows, a.listed, a.mac)
    ensures Run(may, s, [CheckMac(p)] + [WriteAddress(p, ip)])
    ensures !MacsDistinct(After(may, s, [CheckMac(p)] + [WriteAddress(p, ip)]).db.rows)
  {
    var a := s.procs[p].pending.value;
    assert LocalOk(may, s.db, p, s.procs[p]);
    WrittenMacs(s.db, a.port, a.mac, ip, a.switch, a.port, a.mac);
    WrittenMacs(s.db, a.port, a.mac, ip, a.switch, v, a.mac);
    var s1 := Apply(may, s, CheckMac(p));
    OneStep(may, s1, WriteAddress(p, ip));
    OneMore(may, s, CheckMac(p), [WriteAddress(p, ip)]);
  }

  /** Only `p` has changed what it remembers. */
  ghost predicate OnlyMoved(s: State, s': State, p: Proc) {
    s'.procs.Keys == s.procs.Keys && forall q :: q in s.procs && q != p ==> s'.procs[q] == s.procs[q]
  }

  /** The switch has the new port, which has no address, and the rows of its other ports are as they were. */
  lemma NewPortOnSwitch(db: Db, switch: Uuid, name: string)
    requires Valid(db) && Hits(db.rows, LogicalSwitch, switch)
    ensures var db' := WithNewPort(db, switch, NewPort(name));
            && Hits(db'.rows, LogicalSwitch, switch) && db'.rows[switch].ports == db.rows[switch].ports + {db.next}
            && db.next !in db.rows[switch].ports && db.next in db'.rows && db'.rows[db.next] == NewPort(name)
            && forall x :: x in db.rows[switch].ports ==> x in db.rows && x in db'.rows && db'.rows[x] == db.rows[x]
  {
    assert RefsOk(db.rows, db.rows[switch]);
  }

  lemma NewPortMatchesNothing(db: Db, switch: Uuid, name: string, mac: string)
    requires Valid(db) && Hits(db.rows, LogicalSwitch, switch) && IsMac(mac) && !MacInUse(db.rows, switch, mac)
    ensures !MacInUse(WithNewPort(db, switch, NewPort(name)).rows, switch, mac)
    ensures !Matched(WithNewPort(db, switch, NewPort(name)).rows, db.rows[switch].ports, mac)
  {
    NewPortOnSwitch(db, switch, name);
    assert !Contains("", mac);
  }

  /** A reconcile finds the port missing and creates it. */
  lemma PortAppears(may: Permission, s: State, q: Proc, switch: Uuid, name: string) returns (s': State)
    requires OneCreator(may) && Inv(may, s) && q in s.procs && Hits(s.db.rows, LogicalSwitch, switch)
    requires var claim := Claim(LogicalSwitchPort, name); may(claim, q) && IsFree(s.db.rows, claim)
    ensures var look, create := Look(q, Claim(LogicalSwitchPort, name)), CreatePort(q, switch, NewPort(name));
            Enabled(s, look) && Enabled(Apply(may, s, look), create) && s' == Apply(may, Apply(may, s, look), create)
    ensures Inv(may, s') && OnlyMoved(s, s', q) && s'.procs[q].pending == s.procs[q].pending
    ensures s'.db == WithNewPort(s.db, switch, NewPort(name))
  {
    var claim := Claim(LogicalSwitchPort, name);
    LookedMissing(may, s, q, claim);
    InvKept(may, s, Look(q, claim));
    var s1 := Apply(may, s, Look(q, claim));
    NewPortEffect(s1.db, switch, NewPort(name));
    InvKept(may, s1, CreatePort(q, switch, NewPort(name)));
    s' := Apply(may, s1, CreatePort(q, switch, NewPort(name)));
  }

  function Addressing(q: Proc, v: Uuid, mac: string, ip: IpConfiguration): seq<Step> {
    [FindOwner(q, PortHandle(v, ""), mac)] + ([CheckMac(q)] + [WriteAddress(q, ip)])
  }

  /** A whole `set_address`. */
  lemma PortTakesMac(may: Permission, s: State, q: Proc, switch: Uuid, v: Uuid, mac: string, ip: IpConfiguration)
    returns (s': State)
    requires OneCreator(may) && Inv(may, s) && q in s.procs && s.procs[q].pending.None? && IsMac(mac)
    requires Owns(s.db.rows, switch, v) && !MacInUse(s.db.rows, switch, mac)
    ensures Run(may, s, Addressing(q, v, mac, ip)) && After(may, s, Addressing(q, v, mac, ip)) == s'
    ensures Inv(may, s') && OnlyMoved(s, s', q) && s'.procs[q].pending.None?
    ensures s'.db == Written(s.db, v, mac, ip)
  {
    Passes(may, s, q, switch, v, mac);
    var s1 := Apply(may, s, FindOwner(q, PortHandle(v, ""), mac));
    Clears(may, s1, q);
    var s2 := Apply(may, s1, CheckMac(q));
    WriteApplied(may, s2, q, ip);
    InvKept(may, s2, WriteAddress(q, ip));
    s' := Apply(may, s2, WriteAddress(q, ip));
    OneStep(may, s2, WriteAddress(q, ip));
    TwoMore(may, s, FindOwner(q, PortHandle(v, ""), mac), CheckMac(q), s2, [WriteAddress(q, ip)]);
  }

  lemma {:induction false} Joined(may: Permission, s: State, a: seq<Step>, b: seq<Step>)
    requires Run(may, s, a) && Run(may, After(may, s, a), b)
    ensures Run(may, s, a + b) && After(may, s, a + b) == After(may, After(may, s, a), b)
    decreases |a|
  {
    if a == [] {
      assert a + b == b;
    } else {
      Joined(may, Apply(may, s, a[0]), a[1..], b);
      assert (a + b)[1..] == a[1..] + b;
    }
  }

  /**
    `p` looks up the owner of port `u`; `q` creates port `v` on the switch and gives it the MAC; `p` checks and
    writes.
   */
  function StaleListing(p: Proc, q: Proc, switch: Uuid, u: Uuid, v: Uuid, name: string, mac: string): seq<Step> {
    [FindOwner(p, PortHandle(u, ""), mac)]
    + ([Look(q, Claim(LogicalSwitchPort, name))] + ([CreatePort(q, switch, NewPort(name))]
    + (Addressing(q, v, mac, NoIp) + ([CheckMac(p)] + [WriteAddress(p, NoIp)]))))
  }

  /** No step comes between a check and its write. */
  predicate WritesFollowChecks(steps: seq<Step>) {
    forall i :: 0 <= i < |steps| && steps[i].CheckMac? ==>
      i + 1 < |steps| && steps[i + 1].WriteAddress? && steps[i + 1].p == steps[i].p
  }

  lemma StaleWritesFollow(p: Proc, q: Proc, switch: Uuid, u: Uuid, v: Uuid, name: string, mac: string)
    ensures WritesFollowChecks(StaleListing(p, q, switch, u, v, name, mac))
  {
    assert StaleListing(p, q, switch, u, v, name, mac) ==
      [FindOwner(p, PortHandle(u, ""), mac), Look(q, Claim(LogicalSwitchPort, name)),
       CreatePort(q, switch, NewPort(name)), FindOwner(q, PortHandle(v, ""), mac),
       CheckMac(q), WriteAddress(q, NoIp), CheckMac(p), WriteAddress(p, NoIp)];
  }

  /** What `p` finds when it checks: port `v` carries the MAC, and is not on its list. */
  lemma TakenUnseen(db: Db, switch: Uuid, u: Uuid, name: string, mac: string)
    requires Valid(db) && Hits(db.rows, LogicalSwitch, switch) && Owns(db.rows, switch, u) && IsMac(mac)
    requires !MacInUse(db.rows, switch, mac) && NameFree(db.rows, NewPort(name))
    ensures var rows' := Written(WithNewPort(db, switch, NewPort(name)), db.next, mac, NoIp).rows;
            && HasMac(rows', switch, db.next, mac) && Owns(rows', switch, u) && db.next != u
            && db.next !in db.rows[switch].ports && !Matched(rows', db.rows[switch].ports, mac)
  {
    var db1 := WithNewPort(db, switch, NewPort(name));
    NewPortEffect(db, switch, NewPort(name));
    NewPortOnSwitch(db, switch, name);
    NewPortMatchesNothing(db, switch, name, mac);
    WrittenMacs(db1, db.next, mac, NoIp, switch, db.next, mac);
    WriteKeepsOwners(db1, db.next, mac, NoIp, switch, u);
    WrittenKeeps(db1, db.next, mac, NoIp);
    forall x | x in db.rows[switch].ports
      ensures var rows' := Written(db1, db.next, mac, NoIp).rows; x in rows' && rows'[x] == db1.rows[x]
    {
      AddressRow(db1, db.next, AddressOf(mac, NoIp), x);
    }
  }

  /**
    The check sees only the ports that were on the switch when its owner was looked up: from an idle valid
    state, a port created and given the MAC since then is missed, and two ports carry it, though each write
    comes right after its check.
   */
  lemma StaleListingCollides(may: Permission, s: State, p: Proc, q: Proc, switch: Uuid, u: Uuid, name: string,
      mac: string)
    requires OneCreator(may) && Idle(s) && Valid(s.db) && p in s.procs && q in s.procs && p != q && IsMac(mac)
    requires Owns(s.db.rows, switch, u) && !MacInUse(s.db.rows, switch, mac)
    requires var claim := Claim(LogicalSwitchPort, name); may(claim, q) && IsFree(s.db.rows, claim)
    ensures Run(may, s, StaleListing(p, q, switch, u, s.db.next, name, mac))
    ensures WritesFollowChecks(StaleListing(p, q, switch, u, s.db.next, name, mac))
    ensures !MacsDistinct(After(may, s, StaleListing(p, q, switch, u, s.db.next, name, mac)).db.rows)
  {
    var v := s.db.next;
    StaleWritesFollow(p, q, switch, u, v, name, mac);
    Passes(may, s, p, switch, u, mac);
    var s1 := Apply(may, s, FindOwner(p, PortHandle(u, ""), mac));
    var s3 := PortAppears(may, s1, q, switch, name);
    NewPortOnSwitch(s.db, switch, name);
    NewPortMatchesNothing(s.db, switch, name, mac);
    var s6 := PortTakesMac(may, s3, q, switch, v, mac, NoIp);
    ClaimIsFree(s.db.rows, NewPort(name));
    TakenUnseen(s.db, switch, u, name, mac);
    MissedPortCollides(may, s6, p, v, NoIp);
    Joined(may, s3, Addressing(q, v, mac, NoIp), [CheckMac(p)] + [WriteAddress(p, NoIp)]);
    TwoMore(may, s1, Look(q, Claim(LogicalSwitchPort, name)), CreatePort(q, switch, NewPort(name)), s3,
            Addressing(q, v, mac, NoIp) + ([CheckMac(p)] + [WriteAddress(p, NoIp)]));
    OneMore(may, s, FindOwner(p, PortHandle(u, ""), mac),
            [Look(q, Claim(LogicalSwitchPort, name))] + ([CreatePort(q, switch, NewPort(name))]
            + (Addressing(q, v, mac, NoIp) + ([CheckMac(p)] + [WriteAddress(p, NoIp)]))));
  }

  /** One switch, after its two ports were created. */
  function TwoPorts(): Db {
    WithNewPort(WithNewPort(OneSwitch(), 0, NewPort("a")), 0, NewPort("b"))
  }

  lemma OnePortRows()
    ensures WithNewPort(OneSwitch(), 0, NewPort("a")) == Db(map[0 := Switch("s", {1}, map[]), 1 := NewPort("a")], 2)
  {
    assert {} + {1} == {1};
  }

  lemma TwoPortsRows()
    ensures TwoPorts() == Db(map[0 := Switch("s", {1, 2}, map[]), 1 := NewPort("a"), 2 := NewPort("b")], 3)
  {
    OnePortRows();
    assert {1} + {2} == {1, 2};
  }

  lemma TwoPortsAreValid()
    ensures Valid(TwoPorts())
  {
    OneRowIsValid(Switch("s", {}, map[]));
    NewPortEffect(OneSwitch(), 0, NewPort("a"));
    OnePortRows();
    var db := WithNewPort(OneSwitch(), 0, NewPort("a"));
    assert NewPort("b").name[0] != NewPort("a").name[0];
    assert NameFree(db.rows, NewPort("b"));
    NewPortEffect(db, 0, NewPort("b"));
  }

  lemma TwoPortsHaveNoMac(mac: string)
    requires IsMac(mac)
    ensures MacsDistinct(TwoPorts().rows)
    ensures Owns(TwoPorts().rows, 0, 1) && Owns(TwoPorts().rows, 0, 2) && !MacInUse(TwoPorts().rows, 0, mac)
  {
    TwoPortsRows();
    assert forall s, u, m :: !HasMac(TwoPorts().rows, s, u, m);
  }

  lemma OneHomeSuffices(may: Permission, home: MacHome, s: State, steps: seq<Step>)
    requires OneCreator(may) && OneMacHome(home) && Idle(s) && Valid(s.db) && MacsDistinct(s.db.rows)
    requires Run(may, s, steps) && Homed(home, steps)
    ensures MacsDistinct(After(may, s, steps).db.rows)
  {
    HomedRunsAreExclusive(may, home, s, steps);
    MacsStayDistinct(may, s, steps);
  }

  lemma HomedMore(home: MacHome, step: Step, rest: seq<Step>)
    requires Homed(home, rest) && (step.FindOwner? ==> home(step.mac, step.p))
    ensures Homed(home, [step] + rest)
  {
    forall i | 0 <= i < |[step] + rest| && ([step] + rest)[i].FindOwner?
      ensures home(([step] + rest)[i].mac, ([step] + rest)[i].p)
    {
      assert i > 0 ==> ([step] + rest)[i] == rest[i - 1];
    }
  }

  lemma RaceIsHomed(home: MacHome, p: Proc, q: Proc, u: Uuid, v: Uuid, mac: string, writes: seq<Step>)
    requires home(mac, p) && home(mac, q) && OnlyWrites(writes)
    ensures Homed(home, Race(p, q, u, v, mac, writes))
  {
    assert Homed(home, writes);
    HomedMore(home, CheckMac(q), writes);
    HomedMore(home, CheckMac(p), [CheckMac(q)] + writes);
    HomedMore(home, FindOwner(q, PortHandle(v, ""), mac), [CheckMac(p)] + ([CheckMac(q)] + writes));
    HomedMore(home, FindOwner(p, PortHandle(u, ""), mac),
              [FindOwner(q, PortHandle(v, ""), mac)] + ([CheckMac(p)] + ([CheckMac(q)] + writes)));
  }

  lemma TwoHomesCollide(may: Permission, home: MacHome, mac: string, p: Proc, q: Proc)
    returns (s: State, steps: seq<Step>)
    requires OneCreator(may) && IsMac(mac) && home(mac, p) && home(mac, q) && p != q
    ensures Idle(s) && Valid(s.db) && MacsDistinct(s.db.rows)
    ensures Run(may, s, steps) && Homed(home, steps) && !MacsDistinct(After(may, s, steps).db.rows)
  {
    s := State(TwoPorts(), map[p := Local({}, {}, None), q := Local({}, {}, None)]);
    TwoPortsAreValid();
    TwoPortsHaveNoMac(mac);
    var writes := RaceCollides(may, s, p, q, 0, 1, 2, mac);
    RaceIsHomed(home, p, q, 1, 2, mac, writes);
    steps := Race(p, q, 1, 2, mac, writes);
  }

  /** Main result: MACs stay distinct over all runs if and only if each MAC has one reconcile that sets it. */
  lemma OneMacHomeIsExact(may: Permission, home: MacHome)
    requires OneCreator(may)
    ensures OneMacHome(home) <==>
            forall s, steps ::
              Idle(s) && Valid(s.db) && MacsDistinct(s.db.rows) && Run(may, s, steps) && Homed(home, steps) ==>
                MacsDistinct(After(may, s, steps).db.rows)
  {
    if OneMacHome(home) {
      forall s, steps | Idle(s) && Valid(s.db) && MacsDistinct(s.db.rows) && Run(may, s, steps) && Homed(home, steps)
        ensures MacsDistinct(After(may, s, steps).db.rows)
      {
        OneHomeSuffices(may, home, s, steps);
      }
    } else {
      var mac, p, q :| IsMac(mac) && home(mac, p) && home(mac, q) && p != q;
      var s, steps := TwoHomesCollide(may, home, mac, p, q);
    }
  }
}
