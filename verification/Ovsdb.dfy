/**
  The OVN northbound database as far as the controllers use it: rows of six tables, the operations
  insert, mutate, update and delete of RFC 7047 (sections 5.2.1, 5.2.3, 5.2.4, 5.2.5) inside
  all-or-nothing transactions (section 4.1.3), and at commit the removal of unreferenced rows of
  non-root tables, the check of strong references and the pruning of weak ones (section 3.2).
 */
module Ovsdb {
  import opened Prelude

  type Uuid = nat

  datatype Table =
    | LogicalSwitch
    | LogicalSwitchPort
    | LogicalRouter
    | LogicalRouterPort
    | StaticRoute
    | DhcpOptions

  datatype Row =
    | Switch(name: string, ports: set<Uuid>, otherConfig: map<string, string>)
    | SwitchPort(name: string, kind: string, addresses: string, options: map<string, string>, dhcp: set<Uuid>)
    | Router(name: string, ports: set<Uuid>, routes: set<Uuid>)
    | RouterPort(name: string, mac: string, networks: string)
    | Route(prefix: string, nexthop: string)
    | Dhcp(cidr: string, dhcpOptions: map<string, string>)

  function TableOf(row: Row): Table {
    match row
    case Switch(_, _, _) => LogicalSwitch
    case SwitchPort(_, _, _, _, _) => LogicalSwitchPort
    case Router(_, _, _) => LogicalRouter
    case RouterPort(_, _, _) => LogicalRouterPort
    case Route(_, _) => StaticRoute
    case Dhcp(_, _) => DhcpOptions
  }

  /** Rows of these tables stay although nothing refers to them. */
  predicate IsRoot(row: Row) {
    row.Switch? || row.Router? || row.Dhcp?
  }

  type Rows = map<Uuid, Row>

  /** The rows, and the first UUID the server has not handed out yet. */
  datatype Db = Db(rows: Rows, next: Uuid)

  /** The strong references of a row. */
  function Children(row: Row): set<Uuid> {
    match row
    case Switch(_, ports, _) => ports
    case Router(_, ports, routes) => ports + routes
    case _ => {}
  }

  /** Strong references point to existing rows of the table the column is for. */
  predicate RefsOk(rows: Rows, row: Row) {
    match row
    case Switch(_, ports, _) => forall u :: u in ports ==> u in rows && rows[u].SwitchPort?
    case Router(_, ports, routes) =>
      && (forall u :: u in ports ==> u in rows && rows[u].RouterPort?)
      && (forall u :: u in routes ==> u in rows && rows[u].Route?)
    case _ => true
  }

  predicate Referenced(rows: Rows, u: Uuid) {
    exists p :: p in rows && u in Children(rows[p])
  }

  /** Weak references to rows that do not exist are dropped. */
  function Prune(rows: Rows, row: Row): Row {
    if row.SwitchPort? then row.(dhcp := set u | u in row.dhcp && u in rows && rows[u].Dhcp?) else row
  }

  /** What commit keeps. */
  function Collected(rows: Rows): Rows {
    map u | u in rows && (IsRoot(rows[u]) || Referenced(rows, u)) :: Prune(rows, rows[u])
  }

  datatype Ref = Existing(uuid: Uuid) | Named(uuidName: string)

  datatype Column = Ports | StaticRoutes

  datatype Mutation =
    | AddRefs(column: Column, refs: seq<Ref>)
    | RemoveRefs(column: Column, refs: seq<Ref>)

  datatype Patch =
    | SetAddresses(addresses: string)
    | SetDhcp(uuid: Uuid)
    | SetRouterPort(name: string, mac: string, networks: string)
    | SetOtherConfig(config: map<string, string>)
    | SetDhcpOptions(options: map<string, string>)

  /** Operations; the `where` of the last three is always a test of `_uuid`. */
  datatype Op =
    | Insert(row: Row, uuidName: Option<string>)
    | Mutate(table: Table, uuid: Uuid, mutations: seq<Mutation>)
    | Update(table: Table, uuid: Uuid, patch: Patch)
    | Delete(table: Table, uuid: Uuid)

  /** A transaction under way: rows, UUID supply and the symbolic names defined so far. */
  datatype Progress = Progress(rows: Rows, next: Uuid, names: map<string, Uuid>)

  function Resolve(names: map<string, Uuid>, refs: seq<Ref>): (r: Option<set<Uuid>>)
  {
    if refs == [] then Some({})
    else
      var rest := Resolve(names, refs[1..]);
      if rest.None? then None
      else match refs[0]
        case Existing(u) => Some({u} + rest.value)
        case Named(n) => if n in names then Some({names[n]} + rest.value) else None
  }

  function Combine(m: Mutation, have: set<Uuid>, refs: set<Uuid>): set<Uuid> {
    if m.AddRefs? then have + refs else have - refs
  }

  /** The row after one mutation; an unknown column or name is an error. */
  function MutateRow(names: map<string, Uuid>, row: Row, m: Mutation): Option<Row> {
    var refs := Resolve(names, m.refs);
    if refs.None? then None
    else match (m.column, row)
      case (Ports, Switch(name, ports, config)) => Some(Switch(name, Combine(m, ports, refs.value), config))
      case (Ports, Router(name, ports, routes)) => Some(Router(name, Combine(m, ports, refs.value), routes))
      case (StaticRoutes, Router(name, ports, routes)) => Some(Router(name, ports, Combine(m, routes, refs.value)))
      case _ => None
  }

  function MutateAll(names: map<string, Uuid>, row: Row, ms: seq<Mutation>): Option<Row>
    decreases |ms|
  {
    if ms == [] then Some(row)
    else
      var first := MutateRow(names, row, ms[0]);
      if first.None? then None else MutateAll(names, first.value, ms[1..])
  }

  function PatchRow(row: Row, patch: Patch): Option<Row> {
    match (patch, row)
    case (SetAddresses(a), SwitchPort(_, _, _, _, _)) => Some(row.(addresses := a))
    case (SetDhcp(u), SwitchPort(_, _, _, _, _)) => Some(row.(dhcp := {u}))
    case (SetRouterPort(n, m, a), RouterPort(_, _, _)) => Some(RouterPort(n, m, a))
    case (SetOtherConfig(c), Switch(_, _, _)) => Some(row.(otherConfig := c))
    case (SetDhcpOptions(o), Dhcp(_, _)) => Some(row.(dhcpOptions := o))
    case _ => None
  }

  predicate Hits(rows: Rows, table: Table, uuid: Uuid) {
    uuid in rows && TableOf(rows[uuid]) == table
  }

  /** One operation; `None` is an error, which aborts the transaction. */
  function Exec(p: Progress, op: Op): Option<Progress> {
    match op
    case Insert(row, uuidName) =>
      if uuidName.Some? && uuidName.value in p.names then None
      else Some(Progress(p.rows[p.next := row], p.next + 1,
                         if uuidName.Some? then p.names[uuidName.value := p.next] else p.names))
    case Mutate(table, uuid, mutations) =>
      if !Hits(p.rows, table, uuid) then Some(p)
      else
        var row := MutateAll(p.names, p.rows[uuid], mutations);
        if row.None? then None else Some(p.(rows := p.rows[uuid := row.value]))
    case Update(table, uuid, patch) =>
      if !Hits(p.rows, table, uuid) then Some(p)
      else
        var row := PatchRow(p.rows[uuid], patch);
        if row.None? then None else Some(p.(rows := p.rows[uuid := row.value]))
    case Delete(table, uuid) =>
      Some(if Hits(p.rows, table, uuid) then p.(rows := p.rows - {uuid}) else p)
  }

  function ExecAll(p: Progress, ops: seq<Op>): Option<Progress>
    decreases |ops|
  {
    if ops == [] then Some(p)
    else
      var first := Exec(p, ops[0]);
      if first.None? then None else ExecAll(first.value, ops[1..])
  }

  predicate AllRefsOk(rows: Rows) {
    forall p :: p in rows ==> RefsOk(rows, rows[p])
  }

  /** A transaction either commits as a whole or reports an error and changes nothing. */
  function Transact(db: Db, ops: seq<Op>): Option<Db> {
    var p := ExecAll(Progress(db.rows, db.next, map[]), ops);
    if p.None? then None
    else
      var rows := Collected(p.value.rows);
      if AllRefsOk(rows) then Some(Db(rows, p.value.next)) else None
  }

  /** No dangling reference, no unreferenced row outside the root tables. */
  ghost predicate Intact(rows: Rows) {
    && AllRefsOk(rows)
    && (forall u :: u in rows ==> IsRoot(rows[u]) || Referenced(rows, u))
    && (forall u :: u in rows ==> Prune(rows, rows[u]) == rows[u])
  }

  /** Every committed transaction leaves an intact database, whatever its operations. */
  lemma TransactIsIntact(db: Db, ops: seq<Op>)
    requires Transact(db, ops).Some?
    ensures Intact(Transact(db, ops).value.rows)
  {
    var rows := ExecAll(Progress(db.rows, db.next, map[]), ops).value.rows;
    var kept := Collected(rows);
    forall u | u in kept && !IsRoot(kept[u])
      ensures Referenced(kept, u)
    {
      var p :| p in rows && u in Children(rows[p]);
      assert IsRoot(rows[p]) && p in kept && Children(kept[p]) == Children(rows[p]);
    }
    forall u | u in kept
      ensures Prune(kept, kept[u]) == kept[u]
    {
      if kept[u].SwitchPort? {
        assert forall d :: d in kept[u].dhcp ==> d in kept && kept[d].Dhcp?;
        assert kept[u].dhcp == (set d | d in kept[u].dhcp && d in kept && kept[d].Dhcp?);
      }
    }
  }

  /** Committing an intact database changes nothing. */
  lemma IntactIsCollected(rows: Rows)
    requires Intact(rows)
    ensures Collected(rows) == rows
  {
  }

  /** UUIDs in use are below the supply. */
  ghost predicate Bounded(db: Db) {
    forall u :: u in db.rows ==> u < db.next
  }

  lemma {:induction false} ExecBounds(p: Progress, ops: seq<Op>)
    requires forall u :: u in p.rows ==> u < p.next
    requires ExecAll(p, ops).Some?
    ensures var q := ExecAll(p, ops).value;
            p.next <= q.next && forall u :: u in q.rows ==> u < q.next
    decreases |ops|
  {
    if ops != [] {
      ExecBounds(Exec(p, ops[0]).value, ops[1..]);
    }
  }

  lemma TransactIsBounded(db: Db, ops: seq<Op>)
    requires Bounded(db) && Transact(db, ops).Some?
    ensures Bounded(Transact(db, ops).value) && db.next <= Transact(db, ops).value.next
  {
    ExecBounds(Progress(db.rows, db.next, map[]), ops);
  }

  /** Each row is owned by at most one other. */
  ghost predicate SingleOwner(rows: Rows) {
    forall p, q, u :: p in rows && q in rows && u in Children(rows[p]) && u in Children(rows[q]) ==> p == q
  }

  function NameOf(row: Row): Option<string> {
    match row
    case Switch(name, _, _) => Some(name)
    case SwitchPort(name, _, _, _, _) => Some(name)
    case Router(name, _, _) => Some(name)
    case RouterPort(name, _, _) => Some(name)
    case _ => None
  }

  predicate IsNamed(rows: Rows, u: Uuid, table: Table, name: string) {
    u in rows && TableOf(rows[u]) == table && NameOf(rows[u]) == Some(name)
  }

  predicate SameName(a: Row, b: Row) {
    TableOf(a) == TableOf(b) && NameOf(a).Some? && NameOf(a) == NameOf(b)
  }

  /** Switch, router and port names are unique in their tables. */
  ghost predicate UniqueNames(rows: Rows) {
    forall u, v ::
      u in rows && v in rows && SameName(rows[u], rows[v]) ==> u == v
  }

  /** The invariant of the northbound database. */
  ghost predicate Valid(db: Db) {
    Intact(db.rows) && Bounded(db) && SingleOwner(db.rows) && UniqueNames(db.rows)
  }

  /** In a valid database every port and route has exactly one owner. */
  lemma ExactlyOneOwner(db: Db, u: Uuid) returns (owner: Uuid)
    requires Valid(db) && u in db.rows && !IsRoot(db.rows[u])
    ensures owner in db.rows && u in Children(db.rows[owner])
    ensures forall p :: p in db.rows && u in Children(db.rows[p]) ==> p == owner
  {
    owner :| owner in db.rows && u in Children(db.rows[owner]);
  }
}
