/**
  The transactions the OVN controllers send, each with its exact effect on a valid database: named
  roots, ports together with their owner's port set, deletions, and single-column updates. The
  UUIDs may come from stale handles; an owner that is gone makes the new port garbage.
 */
module OvnTransactions {
  import opened Prelude
  import opened Ovsdb

  /** The database after a transaction; one that reports an error (and panics the caller) changes nothing. */
  function Commit(db: Db, ops: seq<Op>): Db {
    var r := Transact(db, ops);
    if r.Some? then r.value else db
  }

  /** `Ovn::insert` of a row with only a name, or of a DHCP options row. */
  function InsertOps(row: Row): seq<Op> {
    [Insert(row, None)]
  }

  function OwnerTable(row: Row): Table {
    if row.SwitchPort? then LogicalSwitch else LogicalRouter
  }

  /** `LogicalSwitchPortBuilder::create` and `LogicalRouterPortBuilder::create` */
  function PortOps(owner: Uuid, row: Row): seq<Op> {
    var id := if row.SwitchPort? then "new_lsp" else "new_lrp";
    [Insert(row, Some(id)), Mutate(OwnerTable(row), owner, [AddRefs(Ports, [Named(id)])])]
  }

  /** `delete_by_uuid` */
  function DeleteOps(table: Table, uuid: Uuid): seq<Op> {
    [Delete(table, uuid)]
  }

  /** `LogicalSwitch::del_lsp` */
  function RemovePortOps(switch: Uuid, port: Uuid): seq<Op> {
    [Mutate(LogicalSwitch, switch, [RemoveRefs(Ports, [Existing(port)])])]
  }

  function PatchTable(patch: Patch): Table {
    match patch
    case SetAddresses(_) => LogicalSwitchPort
    case SetDhcp(_) => LogicalSwitchPort
    case SetRouterPort(_, _, _) => LogicalRouterPort
    case SetOtherConfig(_) => LogicalSwitch
    case SetDhcpOptions(_) => DhcpOptions
  }

  /** `set_address`, `set_dhcp_options`, `update`, `set_cidr`, `set_options` */
  function UpdateOps(uuid: Uuid, patch: Patch): seq<Op> {
    [Update(PatchTable(patch), uuid, patch)]
  }

  /** To know what commit keeps it is enough to name it. */
  lemma CollectedIs(raw: Rows, kept: Rows)
    requires kept.Keys <= raw.Keys
    requires forall u :: u in kept ==> kept[u] == Prune(raw, raw[u]) && (IsRoot(raw[u]) || Referenced(raw, u))
    requires forall u :: u in raw && u !in kept ==> !IsRoot(raw[u]) && !Referenced(raw, u)
    ensures Collected(raw) == kept
  {
  }

  /** A row of the given table, with no references yet. */
  predicate Blank(row: Row) {
    Children(row) == {} && (row.SwitchPort? ==> row.dhcp == {})
  }

  ghost predicate NameFree(rows: Rows, row: Row) {
    forall u :: u in rows ==> !SameName(rows[u], row)
  }

  lemma OneOp(db: Db, op: Op)
    requires Exec(Progress(db.rows, db.next, map[]), op).Some?
    ensures var p := Exec(Progress(db.rows, db.next, map[]), op).value;
            Transact(db, [op]) == if AllRefsOk(Collected(p.rows)) then Some(Db(Collected(p.rows), p.next)) else None
  {
    var p := Exec(Progress(db.rows, db.next, map[]), op).value;
    assert ExecAll(p, [op][1..]) == Some(p);
  }

  /** Weak references survive as long as the rows they point to do. */
  lemma KeepsPruned(rows: Rows, rows': Rows, row: Row)
    requires Prune(rows, row) == row
    requires forall d :: d in rows && rows[d].Dhcp? ==> d in rows' && rows'[d].Dhcp?
    ensures Prune(rows', row) == row
  {
    if row.SwitchPort? {
      assert row.dhcp == Prune(rows, row).dhcp;
      assert row.dhcp == (set d | d in row.dhcp && d in rows' && rows'[d].Dhcp?);
    }
  }

  /** Rows whose references survive keep what they refer to referenced. */
  lemma KeepsReferenced(rows: Rows, rows': Rows, u: Uuid)
    requires forall p :: p in rows && IsRoot(rows[p]) ==> p in rows' && Children(rows[p]) <= Children(rows'[p])
    ensures Referenced(rows, u) ==> Referenced(rows', u)
  {
    if Referenced(rows, u) {
      var p :| p in rows && u in Children(rows[p]);
      assert p in rows' && u in Children(rows'[p]);
    }
  }

  lemma InsertedRow(db: Db, row: Row, u: Uuid)
    requires Valid(db) && IsRoot(row) && Blank(row) && u in db.rows[db.next := row]
    ensures var raw := db.rows[db.next := row];
            RefsOk(raw, raw[u]) && (IsRoot(raw[u]) || Referenced(raw, u)) && Prune(raw, raw[u]) == raw[u]
  {
    var raw := db.rows[db.next := row];
    if u != db.next {
      assert RefsOk(db.rows, db.rows[u]);
      KeepsReferenced(db.rows, raw, u);
      KeepsPruned(db.rows, raw, db.rows[u]);
    }
  }

  lemma InsertedIsOwned(db: Db, row: Row)
    requires Valid(db) && Blank(row)
    ensures SingleOwner(db.rows[db.next := row])
    ensures NameFree(db.rows, row) ==> UniqueNames(db.rows[db.next := row])
  {
  }

  lemma InsertRootEffect(db: Db, row: Row)
    requires Valid(db) && IsRoot(row) && Blank(row)
    ensures Transact(db, InsertOps(row)) == Some(Db(db.rows[db.next := row], db.next + 1))
    ensures NameFree(db.rows, row) ==> Valid(Commit(db, InsertOps(row)))
  {
    var raw := db.rows[db.next := row];
    forall u | u in raw
      ensures RefsOk(raw, raw[u]) && (IsRoot(raw[u]) || Referenced(raw, u)) && Prune(raw, raw[u]) == raw[u]
    {
      InsertedRow(db, row, u);
    }
    InsertedIsOwned(db, row);
    IntactIsCollected(raw);
    OneOp(db, Insert(row, None));
  }

  /** The owner's row with one more port. */
  function WithPort(row: Row, port: Uuid): Row
    requires row.Switch? || row.Router?
  {
    match row
    case Switch(name, ports, config) => Switch(name, ports + {port}, config)
    case Router(name, ports, routes) => Router(name, ports + {port}, routes)
    case _ => row
  }

  /** The database with a new port of `owner`, or with nothing new if the owner is gone. */
  function WithNewPort(db: Db, owner: Uuid, row: Row): Db {
    if Hits(db.rows, OwnerTable(row), owner) && (db.rows[owner].Switch? || db.rows[owner].Router?)
    then Db(db.rows[db.next := row][owner := WithPort(db.rows[owner], db.next)], db.next + 1)
    else Db(db.rows, db.next + 1)
  }

  lemma PortOpsRun(db: Db, owner: Uuid, row: Row)
    requires Bounded(db) && (row.SwitchPort? || row.RouterPort?)
    ensures ExecAll(Progress(db.rows, db.next, map[]), PortOps(owner, row)).Some?
    ensures var p := ExecAll(Progress(db.rows, db.next, map[]), PortOps(owner, row)).value;
            && p.next == db.next + 1
            && p.rows == if Hits(db.rows, OwnerTable(row), owner) then WithNewPort(db, owner, row).rows
                         else db.rows[db.next := row]
  {
    var id := if row.SwitchPort? then "new_lsp" else "new_lrp";
    var p0 := Progress(db.rows, db.next, map[]);
    var p1 := Exec(p0, Insert(row, Some(id))).value;
    var add := AddRefs(Ports, [Named(id)]);
    assert Resolve(p1.names, [Named(id)][1..]) == Some({});
    assert Resolve(p1.names, [Named(id)]) == Some({db.next} + {}) && {db.next} + {} == {db.next};
    var op := Mutate(OwnerTable(row), owner, [add]);
    if Hits(p1.rows, OwnerTable(row), owner) {
      assert owner != db.next;
      var mutated := MutateRow(p1.names, p1.rows[owner], add).value;
      assert MutateAll(p1.names, mutated, [add][1..]) == Some(mutated);
      assert MutateAll(p1.names, p1.rows[owner], [add]) == Some(mutated);
    }
    var p2 := Exec(p1, op).value;
    assert PortOps(owner, row)[1..] == [op] && [op][1..] == [];
    assert ExecAll(p2, []) == Some(p2);
    assert ExecAll(p1, [op]) == Some(p2);
  }

  lemma NewPortRefs(db: Db, owner: Uuid, row: Row, p: Uuid)
    requires Valid(db) && (row.SwitchPort? || row.RouterPort?) && Blank(row) && Hits(db.rows, OwnerTable(row), owner)
    requires p in WithNewPort(db, owner, row).rows
    ensures RefsOk(WithNewPort(db, owner, row).rows, WithNewPort(db, owner, row).rows[p])
  {
    if p in db.rows {
      assert RefsOk(db.rows, db.rows[p]);
    }
  }

  lemma NewPortIsIntact(db: Db, owner: Uuid, row: Row)
    requires Valid(db) && (row.SwitchPort? || row.RouterPort?) && Blank(row) && Hits(db.rows, OwnerTable(row), owner)
    ensures Intact(WithNewPort(db, owner, row).rows)
  {
    var rows' := WithNewPort(db, owner, row).rows;
    assert forall u :: u in db.rows && u != owner ==> rows'[u] == db.rows[u];
    assert rows'[owner] == WithPort(db.rows[owner], db.next) && rows'[db.next] == row;
    forall u | u in rows'
      ensures IsRoot(rows'[u]) || Referenced(rows', u)
      ensures Prune(rows', rows'[u]) == rows'[u]
      ensures RefsOk(rows', rows'[u])
    {
      NewPortRefs(db, owner, row, u);
      if u == db.next {
        assert u in Children(rows'[owner]);
      } else {
        KeepsReferenced(db.rows, rows', u);
        KeepsPruned(db.rows, rows', db.rows[u]);
      }
    }
  }

  /** The only new reference is the owner's to the new port. */
  lemma NewPortChildren(db: Db, owner: Uuid, row: Row, p: Uuid, u: Uuid)
    requires Valid(db) && (row.SwitchPort? || row.RouterPort?) && Blank(row) && Hits(db.rows, OwnerTable(row), owner)
    requires p in WithNewPort(db, owner, row).rows && u in Children(WithNewPort(db, owner, row).rows[p])
    ensures (p in db.rows && u in Children(db.rows[p]) && u != db.next) || (u == db.next && p == owner)
  {
    if p in db.rows {
      assert RefsOk(db.rows, db.rows[p]);
    }
  }

  lemma NewPortHasOneOwner(db: Db, owner: Uuid, row: Row)
    requires Valid(db) && (row.SwitchPort? || row.RouterPort?) && Blank(row) && Hits(db.rows, OwnerTable(row), owner)
    ensures SingleOwner(WithNewPort(db, owner, row).rows)
  {
    var rows' := WithNewPort(db, owner, row).rows;
    forall p, q, u | p in rows' && q in rows' && u in Children(rows'[p]) && u in Children(rows'[q])
      ensures p == q
    {
      NewPortChildren(db, owner, row, p, u);
      NewPortChildren(db, owner, row, q, u);
    }
  }

  lemma NewPortIsNamed(db: Db, owner: Uuid, row: Row)
    requires Valid(db) && (row.SwitchPort? || row.RouterPort?) && Blank(row) && Hits(db.rows, OwnerTable(row), owner)
    ensures Bounded(WithNewPort(db, owner, row))
    ensures NameFree(db.rows, row) ==> UniqueNames(WithNewPort(db, owner, row).rows)
  {
    var rows' := WithNewPort(db, owner, row).rows;
    assert forall u :: u in db.rows ==>
        NameOf(rows'[u]) == NameOf(db.rows[u]) && TableOf(rows'[u]) == TableOf(db.rows[u]);
  }

  lemma NewPortEffect(db: Db, owner: Uuid, row: Row)
    requires Valid(db) && (row.SwitchPort? || row.RouterPort?) && Blank(row)
    ensures Transact(db, PortOps(owner, row)) == Some(WithNewPort(db, owner, row))
    ensures NameFree(db.rows, row) ==> Valid(WithNewPort(db, owner, row))
  {
    PortOpsRun(db, owner, row);
    var raw := ExecAll(Progress(db.rows, db.next, map[]), PortOps(owner, row)).value.rows;
    if Hits(db.rows, OwnerTable(row), owner) {
      NewPortIsIntact(db, owner, row);
      NewPortHasOneOwner(db, owner, row);
      NewPortIsNamed(db, owner, row);
      IntactIsCollected(raw);
    } else {
      forall u | u in db.rows
        ensures Prune(raw, raw[u]) == db.rows[u]
        ensures IsRoot(raw[u]) || Referenced(raw, u)
      {
        KeepsReferenced(db.rows, raw, u);
        KeepsPruned(db.rows, raw, db.rows[u]);
      }
      assert forall p :: p in db.rows ==> RefsOk(db.rows, db.rows[p]);
      CollectedIs(raw, db.rows);
    }
  }

  /** The database without a switch or router and all it owned. */
  function Without(db: Db, table: Table, u: Uuid): Db {
    if Hits(db.rows, table, u)
    then Db(map v | v in db.rows && v != u && v !in Children(db.rows[u]) :: db.rows[v], db.next)
    else db
  }

  /** Dropping whole subtrees keeps the rest of a valid database valid. */
  lemma SubtreeIsValid(db: Db, db': Db)
    requires Valid(db) && db'.next == db.next
    requires forall v :: v in db'.rows ==> v in db.rows && db'.rows[v] == db.rows[v]
    requires forall v :: v in db.rows && db.rows[v].Dhcp? ==> v in db'.rows
    requires forall p, v :: p in db.rows && v in Children(db.rows[p]) ==> (p in db'.rows <==> v in db'.rows)
    ensures Valid(db')
  {
    forall v | v in db'.rows
      ensures IsRoot(db'.rows[v]) || Referenced(db'.rows, v)
      ensures Prune(db'.rows, db'.rows[v]) == db'.rows[v]
      ensures RefsOk(db'.rows, db'.rows[v])
    {
      assert RefsOk(db.rows, db.rows[v]);
      KeepsPruned(db.rows, db'.rows, db.rows[v]);
      if !IsRoot(db.rows[v]) {
        var p :| p in db.rows && v in Children(db.rows[p]);
        assert p in db'.rows && v in Children(db'.rows[p]);
      }
    }
  }

  lemma DeleteIsValid(db: Db, table: Table, u: Uuid)
    requires Valid(db) && (table == LogicalSwitch || table == LogicalRouter)
    ensures Valid(Without(db, table, u))
  {
    if Hits(db.rows, table, u) {
      forall p, v | p in db.rows && v in Children(db.rows[p])
        ensures p in Without(db, table, u).rows <==> v in Without(db, table, u).rows
      {
        assert RefsOk(db.rows, db.rows[p]) && RefsOk(db.rows, db.rows[u]);
      }
      SubtreeIsValid(db, Without(db, table, u));
    }
  }

  lemma DeletedRow(db: Db, table: Table, u: Uuid, v: Uuid)
    requires Valid(db) && (table == LogicalSwitch || table == LogicalRouter) && Hits(db.rows, table, u)
    requires v in db.rows && v != u
    ensures var raw, kept := db.rows - {u}, Without(db, table, u).rows;
            && (v in kept ==> kept[v] == Prune(raw, raw[v]) && (IsRoot(raw[v]) || Referenced(raw, v)))
            && (v !in kept ==> !IsRoot(raw[v]) && !Referenced(raw, v))
  {
    var raw, kept := db.rows - {u}, Without(db, table, u).rows;
    assert RefsOk(db.rows, db.rows[u]);
    KeepsPruned(db.rows, raw, db.rows[v]);
    if v in kept && !IsRoot(raw[v]) {
      var p :| p in db.rows && v in Children(db.rows[p]);
      assert p in raw && v in Children(raw[p]);
    }
  }

  lemma DeleteEffect(db: Db, table: Table, u: Uuid)
    requires Valid(db) && (table == LogicalSwitch || table == LogicalRouter)
    ensures Transact(db, DeleteOps(table, u)) == Some(Without(db, table, u))
    ensures Valid(Without(db, table, u))
  {
    DeleteIsValid(db, table, u);
    OneOp(db, Delete(table, u));
    if Hits(db.rows, table, u) {
      var raw := db.rows - {u};
      var kept := Without(db, table, u).rows;
      forall v | v in raw
        ensures v in kept ==> kept[v] == Prune(raw, raw[v]) && (IsRoot(raw[v]) || Referenced(raw, v))
        ensures v !in kept ==> !IsRoot(raw[v]) && !Referenced(raw, v)
      {
        DeletedRow(db, table, u, v);
      }
      CollectedIs(raw, kept);
    } else {
      IntactIsCollected(db.rows);
    }
  }

  /** The database after `del_lsp`: the port goes with its only reference. */
  function WithoutPort(db: Db, switch: Uuid, port: Uuid): Db {
    if Hits(db.rows, LogicalSwitch, switch) && db.rows[switch].Switch? && port in db.rows[switch].ports then
      var row := Switch(db.rows[switch].name, db.rows[switch].ports - {port}, db.rows[switch].otherConfig);
      Db((db.rows - {port})[switch := row], db.next)
    else db
  }

  lemma RemovePortRuns(db: Db, switch: Uuid, port: Uuid)
    ensures Exec(Progress(db.rows, db.next, map[]), RemovePortOps(switch, port)[0]).Some?
    ensures Exec(Progress(db.rows, db.next, map[]), RemovePortOps(switch, port)[0]).value ==
              Progress(if Hits(db.rows, LogicalSwitch, switch) && db.rows[switch].Switch? then
                         db.rows[switch := Switch(db.rows[switch].name, db.rows[switch].ports - {port},
                           db.rows[switch].otherConfig)]
                       else db.rows, db.next, map[])
  {
    var names: map<string, Uuid> := map[];
    var m := RemoveRefs(Ports, [Existing(port)]);
    assert Resolve(names, [Existing(port)][1..]) == Some({});
    assert Resolve(names, [Existing(port)]) == Some({port} + {}) && {port} + {} == {port};
    if Hits(db.rows, LogicalSwitch, switch) {
      var row := MutateRow(names, db.rows[switch], m).value;
      assert MutateAll(names, row, [m][1..]) == Some(row);
      assert MutateAll(names, db.rows[switch], [m]) == Some(row);
    }
  }

  predicate HasPort(db: Db, switch: Uuid, port: Uuid) {
    switch in db.rows && db.rows[switch].Switch? && port in db.rows[switch].ports
  }

  lemma WithoutPortRefs(db: Db, switch: Uuid, port: Uuid, v: Uuid)
    requires Valid(db) && HasPort(db, switch, port) && v in WithoutPort(db, switch, port).rows
    ensures RefsOk(WithoutPort(db, switch, port).rows, WithoutPort(db, switch, port).rows[v])
  {
    assert RefsOk(db.rows, db.rows[switch]) && RefsOk(db.rows, db.rows[v]);
    assert port !in Children(db.rows[v]) || v == switch;
  }

  lemma WithoutPortRow(db: Db, switch: Uuid, port: Uuid, v: Uuid)
    requires Valid(db) && HasPort(db, switch, port) && v in WithoutPort(db, switch, port).rows
    ensures var rows' := WithoutPort(db, switch, port).rows;
            && (IsRoot(rows'[v]) || Referenced(rows', v)) && RefsOk(rows', rows'[v])
            && Prune(rows', rows'[v]) == rows'[v]
  {
    var rows' := WithoutPort(db, switch, port).rows;
    WithoutPortRefs(db, switch, port, v);
    assert RefsOk(db.rows, db.rows[switch]);
    KeepsPruned(db.rows, rows', db.rows[v]);
    if !IsRoot(db.rows[v]) {
      var p :| p in db.rows && v in Children(db.rows[p]);
      assert p in rows' && v in Children(rows'[p]);
    }
  }

  lemma WithoutPortIsValid(db: Db, switch: Uuid, port: Uuid)
    requires Valid(db)
    ensures Valid(WithoutPort(db, switch, port))
  {
    if HasPort(db, switch, port) {
      forall v | v in WithoutPort(db, switch, port).rows
        ensures var rows' := WithoutPort(db, switch, port).rows;
                && (IsRoot(rows'[v]) || Referenced(rows', v)) && RefsOk(rows', rows'[v])
                && Prune(rows', rows'[v]) == rows'[v]
      {
        WithoutPortRow(db, switch, port, v);
      }
    }
  }

  lemma RemovedPortIsCollected(db: Db, switch: Uuid, port: Uuid)
    requires Valid(db) && HasPort(db, switch, port)
    ensures Collected(db.rows[switch := WithoutPort(db, switch, port).rows[switch]]) ==
            WithoutPort(db, switch, port).rows
  {
    var kept := WithoutPort(db, switch, port).rows;
    var raw := db.rows[switch := kept[switch]];
    assert RefsOk(db.rows, db.rows[switch]);
    forall v | v in raw
      ensures v in kept ==> kept[v] == Prune(raw, raw[v]) && (IsRoot(raw[v]) || Referenced(raw, v))
      ensures v !in kept ==> !IsRoot(raw[v]) && !Referenced(raw, v)
    {
      KeepsPruned(db.rows, raw, db.rows[v]);
      if v in kept && !IsRoot(raw[v]) {
        var p :| p in db.rows && v in Children(db.rows[p]);
        assert p in raw && v in Children(raw[p]);
      }
    }
    CollectedIs(raw, kept);
  }

  lemma RemoveNothing(db: Db, switch: Uuid, port: Uuid)
    requires Valid(db) && !HasPort(db, switch, port)
    ensures Transact(db, RemovePortOps(switch, port)) == Some(db)
  {
    RemovePortRuns(db, switch, port);
    OneOp(db, RemovePortOps(switch, port)[0]);
    assert RemovePortOps(switch, port) == [RemovePortOps(switch, port)[0]];
    if Hits(db.rows, LogicalSwitch, switch) {
      assert db.rows[switch].ports - {port} == db.rows[switch].ports;
      assert db.rows[switch := db.rows[switch]] == db.rows;
    }
    IntactIsCollected(db.rows);
  }

  lemma RemovePortEffect(db: Db, switch: Uuid, port: Uuid)
    requires Valid(db)
    ensures Transact(db, RemovePortOps(switch, port)) == Some(WithoutPort(db, switch, port))
    ensures Valid(WithoutPort(db, switch, port))
  {
    WithoutPortIsValid(db, switch, port);
    if HasPort(db, switch, port) {
      RemovePortRuns(db, switch, port);
      OneOp(db, RemovePortOps(switch, port)[0]);
      assert RemovePortOps(switch, port) == [RemovePortOps(switch, port)[0]];
      RemovedPortIsCollected(db, switch, port);
    } else {
      RemoveNothing(db, switch, port);
    }
  }

  /** The database after a single-row update. */
  function Patched(db: Db, u: Uuid, patch: Patch): Db {
    if Hits(db.rows, PatchTable(patch), u) && PatchRow(db.rows[u], patch).Some?
    then Db(db.rows[u := Prune(db.rows, PatchRow(db.rows[u], patch).value)], db.next)
    else db
  }

  /** An update keeps the references of its row, and its name unless it names another. */
  lemma PatchKeeps(row: Row, patch: Patch)
    requires PatchRow(row, patch).Some?
    ensures var row' := PatchRow(row, patch).value;
            && TableOf(row') == TableOf(row) && Children(row') == Children(row)
            && (!patch.SetRouterPort? ==> NameOf(row') == NameOf(row))
            && (patch.SetRouterPort? ==> NameOf(row') == Some(patch.name))
  {
  }

  lemma PatchApplies(rows: Rows, u: Uuid, patch: Patch)
    requires Hits(rows, PatchTable(patch), u)
    ensures PatchRow(rows[u], patch).Some?
  {
  }

  ghost predicate SameShape(rows: Rows, rows': Rows) {
    rows.Keys == rows'.Keys
    && forall p :: p in rows ==> TableOf(rows'[p]) == TableOf(rows[p]) && Children(rows'[p]) == Children(rows[p])
                                 && (rows[p].Router? ==> rows'[p] == rows[p])
  }

  lemma SameShapeKeeps(rows: Rows, rows': Rows, v: Uuid, row: Row)
    requires SameShape(rows, rows') && v in rows
    ensures Referenced(rows', v) == Referenced(rows, v) && IsRoot(rows'[v]) == IsRoot(rows[v])
    ensures RefsOk(rows, rows[v]) ==> RefsOk(rows', rows'[v])
    ensures Prune(rows', row) == Prune(rows, row)
  {
    assert forall d :: d in rows ==> (rows'[d].Dhcp? <==> rows[d].Dhcp?);
    if row.SwitchPort? {
      assert Prune(rows', row).dhcp == Prune(rows, row).dhcp;
    }
  }

  lemma PruneTwice(rows: Rows, row: Row)
    ensures Prune(rows, Prune(rows, row)) == Prune(rows, row)
    ensures TableOf(Prune(rows, row)) == TableOf(row) && Children(Prune(rows, row)) == Children(row)
    ensures NameOf(Prune(rows, row)) == NameOf(row)
  {
    if row.SwitchPort? {
      assert Prune(rows, Prune(rows, row)).dhcp == Prune(rows, row).dhcp;
    }
  }

  lemma PatchShape(db: Db, u: Uuid, patch: Patch)
    requires Hits(db.rows, PatchTable(patch), u) && PatchRow(db.rows[u], patch).Some?
    ensures SameShape(db.rows, db.rows[u := PatchRow(db.rows[u], patch).value])
    ensures SameShape(db.rows, Patched(db, u, patch).rows)
  {
    PatchKeeps(db.rows[u], patch);
    PruneTwice(db.rows, PatchRow(db.rows[u], patch).value);
  }

  lemma PatchedRow(db: Db, u: Uuid, patch: Patch, v: Uuid)
    requires Valid(db) && Hits(db.rows, PatchTable(patch), u) && PatchRow(db.rows[u], patch).Some? && v in db.rows
    ensures var raw, kept := db.rows[u := PatchRow(db.rows[u], patch).value], Patched(db, u, patch).rows;
            && kept[v] == Prune(raw, raw[v]) && (IsRoot(raw[v]) || Referenced(raw, v))
            && RefsOk(kept, kept[v]) && Prune(kept, kept[v]) == kept[v] && (IsRoot(kept[v]) || Referenced(kept, v))
  {
    var raw, kept := db.rows[u := PatchRow(db.rows[u], patch).value], Patched(db, u, patch).rows;
    PatchShape(db, u, patch);
    PruneTwice(db.rows, raw[v]);
    SameShapeKeeps(db.rows, raw, v, raw[v]);
    SameShapeKeeps(db.rows, kept, v, kept[v]);
  }

  lemma PatchedIsIntact(db: Db, u: Uuid, patch: Patch)
    requires Valid(db) && Hits(db.rows, PatchTable(patch), u) && PatchRow(db.rows[u], patch).Some?
    ensures Collected(db.rows[u := PatchRow(db.rows[u], patch).value]) == Patched(db, u, patch).rows
    ensures Intact(Patched(db, u, patch).rows)
  {
    var raw, kept := db.rows[u := PatchRow(db.rows[u], patch).value], Patched(db, u, patch).rows;
    forall v | v in db.rows
      ensures kept[v] == Prune(raw, raw[v]) && (IsRoot(raw[v]) || Referenced(raw, v))
      ensures RefsOk(kept, kept[v]) && Prune(kept, kept[v]) == kept[v] && (IsRoot(kept[v]) || Referenced(kept, v))
    {
      PatchedRow(db, u, patch, v);
    }
    CollectedIs(raw, kept);
  }

  lemma UpdateEffect(db: Db, u: Uuid, patch: Patch)
    requires Valid(db)
    ensures Transact(db, UpdateOps(u, patch)) == Some(Patched(db, u, patch))
    ensures (patch.SetRouterPort? && u in db.rows ==> NameOf(db.rows[u]) == Some(patch.name)) ==>
            Valid(Patched(db, u, patch))
  {
    if Hits(db.rows, PatchTable(patch), u) {
      PatchApplies(db.rows, u, patch);
      PatchKeeps(db.rows[u], patch);
      PruneTwice(db.rows, PatchRow(db.rows[u], patch).value);
      PatchedIsIntact(db, u, patch);
      OneOp(db, Update(PatchTable(patch), u, patch));
    } else {
      IntactIsCollected(db.rows);
      OneOp(db, Update(PatchTable(patch), u, patch));
    }
  }
}
