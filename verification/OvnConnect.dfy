/**
  `connect_router_to_ls`: a router port and a switch port that name each other. Over any sequence
  of calls mixed with deletions and re-creations of routers and switches, every pair connected
  since its ends were created has exactly one port on each side, with the latest address.
 */
module OvnConnect {
  import opened Prelude
  import opened Ovsdb
  import opened OvnTransactions
  import opened OvnObjects

  const ROUTER_MAC := "02:00:00:00:00:01"

  function LrpName(r: string, s: string): string {
    "lr_" + r + "_ls_" + s
  }

  function LspName(s: string, r: string): string {
    "ls_" + s + "_lr_" + r
  }

  function LrpRow(r: string, s: string, address: string): Row {
    RouterPort(LrpName(r, s), ROUTER_MAC, address)
  }

  function LspRow(r: string, s: string): Row {
    SwitchPort(LspName(s, r), "router", "router", map["router-port" := LrpName(r, s)], {})
  }

  /** Kubernetes object names have no underscore. */
  predicate Plain(name: string) {
    '_' !in name
  }

  lemma SplitAtUnderscore(a: string, b: string, x: string, y: string)
    requires Plain(a) && Plain(b) && |x| > 0 && |y| > 0 && x[0] == '_' && y[0] == '_'
    requires a + x == b + y
    ensures a == b && x == y
  {
    UntilSplits(a, '_', x);
    UntilSplits(b, '_', y);
    assert (a + x)[|a|..] == x && (b + y)[|b|..] == y;
  }

  lemma LrpNameInjective(r: string, s: string, r': string, s': string)
    requires Plain(r) && Plain(r') && LrpName(r, s) == LrpName(r', s')
    ensures r == r' && s == s'
  {
    assert LrpName(r, s)[3..] == r + ("_ls_" + s) && LrpName(r', s')[3..] == r' + ("_ls_" + s');
    SplitAtUnderscore(r, r', "_ls_" + s, "_ls_" + s');
    assert ("_ls_" + s)[4..] == s && ("_ls_" + s')[4..] == s';
  }

  lemma LspNameInjective(r: string, s: string, r': string, s': string)
    requires Plain(s) && Plain(s') && LspName(s, r) == LspName(s', r')
    ensures r == r' && s == s'
  {
    assert LspName(s, r)[3..] == s + ("_lr_" + r) && LspName(s', r')[3..] == s' + ("_lr_" + r');
    SplitAtUnderscore(s, s', "_lr_" + r, "_lr_" + r');
    assert ("_lr_" + r)[4..] == r && ("_lr_" + r')[4..] == r';
  }

  /** The formats are not injective on names with underscores. */
  lemma UnderscoresCollide()
    ensures LrpName("a_ls_b", "c") == LrpName("a", "b_ls_c")
  {
    assert LrpName("a_ls_b", "c") == "lr_a_ls_b_ls_c";
  }

  /** `connect_router_to_ls` with the handles of router `r` and switch `s` */
  ghost function Connected(db: Db, lr: Uuid, r: string, ls: Uuid, s: string, address: string): Outcome<Uuid> {
    var lrp := EnsurePort(db, lr, LrpRow(r, s, address));
    if lrp.result.Err? then lrp
    else
      var updated := Commit(lrp.db, UpdateOps(lrp.result.value, SetRouterPort(LrpName(r, s), ROUTER_MAC, address)));
      EnsurePort(updated, ls, LspRow(r, s))
  }

  /** Rows stay; switches and routers may gain ports, router ports may change their addresses. */
  predicate GrownRow(a: Row, b: Row) {
    match a
    case Switch(name, ports, config) => b.Switch? && b.name == name && b.otherConfig == config && ports <= b.ports
    case Router(name, ports, routes) => b.Router? && b.name == name && b.routes == routes && ports <= b.ports
    case RouterPort(name, _, _) => b.RouterPort? && b.name == name
    case _ => a == b
  }

  ghost predicate Grown(rows: Rows, rows': Rows) {
    && (forall u :: u in rows ==> u in rows' && GrownRow(rows[u], rows'[u]))
    && (forall u :: u in rows' && u !in rows ==> rows'[u].SwitchPort? || rows'[u].RouterPort?)
  }

  lemma GrownTwice(a: Rows, b: Rows, c: Rows)
    requires Grown(a, b) && Grown(b, c)
    ensures Grown(a, c)
  {
    forall u | u in a
      ensures u in c && GrownRow(a[u], c[u])
    {
      assert u in b && GrownRow(b[u], c[u]);
    }
  }

  lemma GrownLookup(rows: Rows, rows': Rows, table: Table, name: string)
    requires Grown(rows, rows') && UniqueNames(rows')
    ensures Lookup(rows, table, name).Some? ==> Lookup(rows', table, name) == Lookup(rows, table, name)
    ensures table == LogicalSwitch || table == LogicalRouter ==> Lookup(rows', table, name) == Lookup(rows, table, name)
  {
    var r := Lookup(rows, table, name);
    if r.Some? {
      assert GrownRow(rows[r.value], rows'[r.value]);
      LookupIs(rows', table, name, r.value);
    } else if table == LogicalSwitch || table == LogicalRouter {
      var r' := Lookup(rows', table, name);
      if r'.Some? && r'.value in rows {
        assert GrownRow(rows[r'.value], rows'[r'.value]);
        assert !IsNamed(rows, r'.value, table, name);
      }
    }
  }

  /** Router ports of other names keep their rows. */
  ghost predicate OthersKept(rows: Rows, rows': Rows, name: string) {
    forall u :: u in rows && u in rows' && rows[u].RouterPort? && rows[u].name != name ==> rows'[u] == rows[u]
  }

  lemma NewPortRow(db: Db, owner: Uuid, row: Row, u: Uuid)
    requires Valid(db) && u in db.rows
    ensures u in WithNewPort(db, owner, row).rows && GrownRow(db.rows[u], WithNewPort(db, owner, row).rows[u])
  {
  }

  lemma NewPortGrows(db: Db, owner: Uuid, row: Row)
    requires Valid(db) && IsNewPort(row)
    ensures Grown(db.rows, WithNewPort(db, owner, row).rows)
    ensures forall u :: u in db.rows && db.rows[u].RouterPort? ==> WithNewPort(db, owner, row).rows[u] == db.rows[u]
  {
    var rows' := WithNewPort(db, owner, row).rows;
    forall u | u in db.rows
      ensures u in rows' && GrownRow(db.rows[u], rows'[u])
    {
      NewPortRow(db, owner, row, u);
    }
  }

  lemma EnsurePortGrows(db: Db, owner: Uuid, row: Row)
    requires Valid(db) && IsNewPort(row)
    ensures Grown(db.rows, EnsurePort(db, owner, row).db.rows)
    ensures forall u :: u in db.rows && db.rows[u].RouterPort? ==> EnsurePort(db, owner, row).db.rows[u] == db.rows[u]
  {
    EnsurePortEffect(db, owner, row);
    NewPortGrows(db, owner, row);
  }

  lemma UpdatePortEffect(db: Db, p: Uuid, name: string, address: string)
    requires Valid(db) && IsNamed(db.rows, p, LogicalRouterPort, name)
    ensures var o := Commit(db, UpdateOps(p, SetRouterPort(name, ROUTER_MAC, address)));
            && Valid(o) && o == Db(db.rows[p := RouterPort(name, ROUTER_MAC, address)], db.next)
            && Grown(db.rows, o.rows) && OthersKept(db.rows, o.rows, name)
  {
    UpdateEffect(db, p, SetRouterPort(name, ROUTER_MAC, address));
  }

  predicate BothNamed(rows: Rows, lr: Uuid, r: string, ls: Uuid, s: string) {
    IsNamed(rows, lr, LogicalRouter, r) && IsNamed(rows, ls, LogicalSwitch, s)
  }

  /** The ports of a pair, whatever the router port's address. */
  ghost predicate HasPorts(rows: Rows, r: string, s: string) {
    Lookup(rows, LogicalRouterPort, LrpName(r, s)).Some? && Lookup(rows, LogicalSwitchPort, LspName(s, r)).Some?
  }

  ghost predicate HasAddress(rows: Rows, r: string, s: string, address: string) {
    var p := Lookup(rows, LogicalRouterPort, LrpName(r, s));
    p.Some? && rows[p.value] == LrpRow(r, s, address)
  }

  /** The first half of the call: the router port exists and has the address. */
  lemma RouterSide(db: Db, lr: Uuid, r: string, s: string, address: string) returns (p: Uuid, updated: Db)
    requires Valid(db) && IsNamed(db.rows, lr, LogicalRouter, r)
    ensures var lrp := EnsurePort(db, lr, LrpRow(r, s, address));
            && lrp.result == Ok(p)
            && updated == Commit(lrp.db, UpdateOps(p, SetRouterPort(LrpName(r, s), ROUTER_MAC, address)))
            && updated.rows == lrp.db.rows[p := LrpRow(r, s, address)]
    ensures Valid(updated) && Grown(db.rows, updated.rows) && OthersKept(db.rows, updated.rows, LrpName(r, s))
    ensures IsNamed(updated.rows, p, LogicalRouterPort, LrpName(r, s)) && updated.rows[p] == LrpRow(r, s, address)
    ensures Lookup(db.rows, LogicalRouterPort, LrpName(r, s)).Some? ==>
              && p == Lookup(db.rows, LogicalRouterPort, LrpName(r, s)).value
              && updated == Db(db.rows[p := LrpRow(r, s, address)], db.next)
  {
    var row := LrpRow(r, s, address);
    EnsurePortEffect(db, lr, row);
    EnsurePortGrows(db, lr, row);
    var lrp := EnsurePort(db, lr, row);
    p := lrp.result.value;
    UpdatePortEffect(lrp.db, p, LrpName(r, s), address);
    updated := Commit(lrp.db, UpdateOps(p, SetRouterPort(LrpName(r, s), ROUTER_MAC, address)));
    GrownTwice(db.rows, lrp.db.rows, updated.rows);
  }

  /** The second half: the switch port exists, and the router port is as it was. */
  lemma SwitchSide(db: Db, ls: Uuid, r: string, s: string)
    requires Valid(db) && IsNamed(db.rows, ls, LogicalSwitch, s)
    ensures var o := EnsurePort(db, ls, LspRow(r, s));
            && o.result.Ok? && Valid(o.db) && Grown(db.rows, o.db.rows)
            && Lookup(o.db.rows, LogicalSwitchPort, LspName(s, r)).Some?
            && (forall u :: u in db.rows && db.rows[u].RouterPort? ==> o.db.rows[u] == db.rows[u])
            && (Lookup(db.rows, LogicalSwitchPort, LspName(s, r)).Some? ==>
                  o == Outcome(db, Ok(Lookup(db.rows, LogicalSwitchPort, LspName(s, r)).value)))
  {
    EnsurePortEffect(db, ls, LspRow(r, s));
    EnsurePortGrows(db, ls, LspRow(r, s));
  }

  /** The database between the two halves. */
  lemma Halves(db: Db, lr: Uuid, r: string, ls: Uuid, s: string, address: string) returns (p: Uuid, updated: Db)
    requires Valid(db) && BothNamed(db.rows, lr, r, ls, s)
    ensures Connected(db, lr, r, ls, s, address) == EnsurePort(updated, ls, LspRow(r, s))
    ensures var lrp := EnsurePort(db, lr, LrpRow(r, s, address));
            lrp.result == Ok(p) && updated.rows == lrp.db.rows[p := LrpRow(r, s, address)]
    ensures Valid(updated) && Grown(db.rows, updated.rows) && OthersKept(db.rows, updated.rows, LrpName(r, s))
    ensures IsNamed(updated.rows, ls, LogicalSwitch, s)
    ensures IsNamed(updated.rows, p, LogicalRouterPort, LrpName(r, s)) && updated.rows[p] == LrpRow(r, s, address)
    ensures Lookup(db.rows, LogicalRouterPort, LrpName(r, s)).Some? ==>
              && p == Lookup(db.rows, LogicalRouterPort, LrpName(r, s)).value
              && updated == Db(db.rows[p := LrpRow(r, s, address)], db.next)
  {
    p, updated := RouterSide(db, lr, r, s, address);
    assert GrownRow(db.rows[ls], updated.rows[ls]);
  }

  lemma AddressStays(db: Db, db': Db, p: Uuid, r: string, s: string, address: string)
    requires Valid(db') && p in db.rows && db.rows[p] == LrpRow(r, s, address)
    requires p in db'.rows && db'.rows[p] == db.rows[p]
    ensures HasAddress(db'.rows, r, s, address)
  {
    LookupIs(db'.rows, LogicalRouterPort, LrpName(r, s), p);
  }

  lemma OthersKeptTwice(a: Rows, b: Rows, c: Rows, name: string)
    requires Grown(a, b) && OthersKept(a, b, name)
    requires forall u :: u in b && b[u].RouterPort? ==> u in c && c[u] == b[u]
    ensures OthersKept(a, c, name)
  {
    forall u | u in a && u in c && a[u].RouterPort? && a[u].name != name
      ensures c[u] == a[u]
    {
      assert u in b && b[u] == a[u];
    }
  }

  /** With both ends present the call succeeds, and both ports exist with the given address. */
  lemma ConnectedEffect(db: Db, lr: Uuid, r: string, ls: Uuid, s: string, address: string)
    requires Valid(db) && BothNamed(db.rows, lr, r, ls, s)
    ensures var o := Connected(db, lr, r, ls, s, address);
            && o.result.Ok? && Valid(o.db) && Grown(db.rows, o.db.rows)
            && HasPorts(o.db.rows, r, s) && HasAddress(o.db.rows, r, s, address)
            && OthersKept(db.rows, o.db.rows, LrpName(r, s))
  {
    var p, updated := Halves(db, lr, r, ls, s, address);
    SwitchSide(updated, ls, r, s);
    var o := EnsurePort(updated, ls, LspRow(r, s));
    GrownTwice(db.rows, updated.rows, o.db.rows);
    AddressStays(updated, o.db, p, r, s, address);
    OthersKeptTwice(db.rows, updated.rows, o.db.rows, LrpName(r, s));
  }

  /** When both ports exist the call only rewrites the router port's address. */
  lemma ConnectedAgain(db: Db, lr: Uuid, r: string, ls: Uuid, s: string, address: string)
    requires Valid(db) && BothNamed(db.rows, lr, r, ls, s) && HasPorts(db.rows, r, s)
    ensures Connected(db, lr, r, ls, s, address) ==
              Outcome(Db(db.rows[Lookup(db.rows, LogicalRouterPort, LrpName(r, s)).value := LrpRow(r, s, address)],
                db.next),
                      Ok(Lookup(db.rows, LogicalSwitchPort, LspName(s, r)).value))
  {
    var p, updated := Halves(db, lr, r, ls, s, address);
    GrownLookup(db.rows, updated.rows, LogicalSwitchPort, LspName(s, r));
    SwitchSide(updated, ls, r, s);
  }

  lemma NewPortKeepsNames(db: Db, owner: Uuid, row: Row, name: string)
    requires Valid(db) && IsNewPort(row) && (row.SwitchPort? ==> row.name != name)
    ensures forall u :: IsNamed(WithNewPort(db, owner, row).rows, u, LogicalSwitchPort, name)
                        <==> IsNamed(db.rows, u, LogicalSwitchPort, name)
  {
  }

  lemma KeptSwitchPorts(rows: Rows, rows': Rows, name: string)
    requires UniqueNames(rows')
    requires forall u :: IsNamed(rows', u, LogicalSwitchPort, name) <==> IsNamed(rows, u, LogicalSwitchPort, name)
    ensures Lookup(rows', LogicalSwitchPort, name) == Lookup(rows, LogicalSwitchPort, name)
  {
    var r := Lookup(rows, LogicalSwitchPort, name);
    if r.Some? {
      LookupIs(rows', LogicalSwitchPort, name, r.value);
    }
  }

  /** Creating a port leaves lookups of other names as they were. */
  lemma EnsurePortKeepsLookup(db: Db, owner: Uuid, row: Row, name: string)
    requires Valid(db) && IsNewPort(row) && (row.SwitchPort? ==> row.name != name)
    ensures Lookup(EnsurePort(db, owner, row).db.rows, LogicalSwitchPort, name) ==
            Lookup(db.rows, LogicalSwitchPort, name)
  {
    EnsurePortEffect(db, owner, row);
    NewPortKeepsNames(db, owner, row, name);
    KeptSwitchPorts(db.rows, EnsurePort(db, owner, row).db.rows, name);
  }

  /** Rewriting a router port leaves lookups of switch ports as they were. */
  lemma RewriteKeepsLookup(rows: Rows, p: Uuid, row: Row, name: string)
    requires p in rows && rows[p].RouterPort? && row.RouterPort? && UniqueNames(rows[p := row])
    ensures Lookup(rows[p := row], LogicalSwitchPort, name) == Lookup(rows, LogicalSwitchPort, name)
  {
    KeptSwitchPorts(rows, rows[p := row], name);
  }

  lemma NamedAfter(db: Db, owner: Uuid, row: Row)
    requires Valid(db) && IsNewPort(row) && EnsurePort(db, owner, row).result.Ok?
    ensures var o := EnsurePort(db, owner, row);
            IsNamed(o.db.rows, o.result.value, TableOf(row), NameOf(row).value)
  {
  }

  /** The router's side creates no switch port. */
  lemma HalvesKeepOthers(db: Db, lr: Uuid, r: string, ls: Uuid, s: string, address: string, name: string)
    returns (updated: Db)
    requires Valid(db) && BothNamed(db.rows, lr, r, ls, s)
    ensures Connected(db, lr, r, ls, s, address) == EnsurePort(updated, ls, LspRow(r, s)) && Valid(updated)
    ensures Lookup(updated.rows, LogicalSwitchPort, name) == Lookup(db.rows, LogicalSwitchPort, name)
  {
    var p;
    p, updated := Halves(db, lr, r, ls, s, address);
    NamedAfter(db, lr, LrpRow(r, s, address));
    EnsurePortKeepsLookup(db, lr, LrpRow(r, s, address), name);
    RewriteKeepsLookup(EnsurePort(db, lr, LrpRow(r, s, address)).db.rows, p, LrpRow(r, s, address), name);
  }

  /** The only switch port the call can create is the pair's. */
  lemma ConnectedKeepsOthers(db: Db, lr: Uuid, r: string, ls: Uuid, s: string, address: string, name: string)
    requires Valid(db) && BothNamed(db.rows, lr, r, ls, s) && name != LspName(s, r)
    ensures Lookup(Connected(db, lr, r, ls, s, address).db.rows, LogicalSwitchPort, name) ==
            Lookup(db.rows, LogicalSwitchPort, name)
  {
    var updated := HalvesKeepOthers(db, lr, r, ls, s, address, name);
    EnsurePortKeepsLookup(updated, ls, LspRow(r, s), name);
  }

  method ConnectRouterToLs(ovn: Ovn, lr: Uuid, r: string, ls: Uuid, s: string, address: string)
    returns (result: Result<Uuid>)
    requires Valid(ovn.db)
    modifies ovn
    ensures Outcome(ovn.db, result) == Connected(old(ovn.db), lr, r, ls, s, address)
    ensures Valid(ovn.db)
  {
    var name := LrpName(r, s);
    var lrp := ovn.CreatePortIfMissing(lr, LrpRow(r, s, address));
    if lrp.Err? {
      return Err(lrp.error);
    }
    NamedAfter(old(ovn.db), lr, LrpRow(r, s, address));
    UpdatePortEffect(ovn.db, lrp.value.uuid, name, address);
    var _ := ovn.Transact(UpdateOps(lrp.value.uuid, SetRouterPort(lrp.value.row.name, ROUTER_MAC, address)));
    var lsp := ovn.CreatePortIfMissing(ls, LspRow(r, s));
    result := if lsp.Ok? then Ok(lsp.value.uuid) else Err(lsp.error);
  }

  // Sequences of calls

  /** A port with a generated name belongs to the object it names; a switch port also has the generated content. */
  predicate ReservedPort(rows: Rows, o: Uuid, p: Uuid, r: string, s: string)
    requires o in rows && p in rows
  {
    && (IsNamed(rows, p, LogicalRouterPort, LrpName(r, s)) ==> NameOf(rows[o]) == Some(r))
    && (IsNamed(rows, p, LogicalSwitchPort, LspName(s, r)) ==> NameOf(rows[o]) == Some(s) && rows[p] == LspRow(r, s))
  }

  predicate OwnedPort(rows: Rows, o: Uuid, p: Uuid) {
    o in rows && p in rows && p in Children(rows[o])
  }

  ghost predicate Reserved(rows: Rows) {
    forall o, p, r, s :: OwnedPort(rows, o, p) && Plain(r) && Plain(s) ==> ReservedPort(rows, o, p, r, s)
  }

  /** The router port with the address and the switch port that names it. */
  ghost predicate Linked(rows: Rows, r: string, s: string, address: string) {
    && (exists p :: p in rows && rows[p] == LrpRow(r, s, address))
    && (exists q :: q in rows && rows[q] == LspRow(r, s))
  }

  datatype Command =
    | Connect(router: string, switch: string, address: string)
    | AddRouter(name: string)
    | AddSwitch(name: string)
    | DropRouter(name: string)
    | DropSwitch(name: string)

  predicate PlainCommand(c: Command) {
    match c
    case Connect(r, s, _) => Plain(r) && Plain(s)
    case _ => Plain(c.name)
  }

  ghost function Perform(db: Db, c: Command): Outcome<Uuid> {
    match c
    case Connect(r, s, address) =>
      var lr, ls := Lookup(db.rows, LogicalRouter, r), Lookup(db.rows, LogicalSwitch, s);
      if lr.None? || ls.None? then Outcome(db, Err(NotFound)) else Connected(db, lr.value, r, ls.value, s, address)
    case AddRouter(name) => EnsureRoot(db, Router(name, {}, {}))
    case AddSwitch(name) => EnsureRoot(db, Switch(name, {}, map[]))
    case DropRouter(name) => DeleteNamed(db, LogicalRouter, name)
    case DropSwitch(name) => DeleteNamed(db, LogicalSwitch, name)
  }

  type Pairs = map<(string, string), string>

  /** The pairs connected since both ends were created, with the latest address of each. */
  ghost function Latest(pairs: Pairs, db: Db, c: Command): Pairs {
    match c
    case Connect(r, s, address) => if Perform(db, c).result.Ok? then pairs[(r, s) := address] else pairs
    case DropRouter(name) => map k | k in pairs && k.0 != name :: pairs[k]
    case DropSwitch(name) => map k | k in pairs && k.1 != name :: pairs[k]
    case _ => pairs
  }

  ghost predicate PairsLinked(rows: Rows, pairs: Pairs) {
    forall k :: k in pairs ==> Plain(k.0) && Plain(k.1) && Linked(rows, k.0, k.1, pairs[k])
  }

  ghost predicate LinksOk(db: Db, pairs: Pairs) {
    Valid(db) && Reserved(db.rows) && PairsLinked(db.rows, pairs)
  }

  /** A port kept from `rows` has an owner it had there. */
  predicate KeptPort(rows: Rows, rows': Rows, o: Uuid, p: Uuid)
    requires OwnedPort(rows', o, p)
  {
    OwnedPort(rows, o, p) && NameOf(rows'[o]) == NameOf(rows[o]) && GrownRow(rows[p], rows'[p])
  }

  lemma KeptIsReserved(rows: Rows, rows': Rows, o: Uuid, p: Uuid, r: string, s: string)
    requires OwnedPort(rows', o, p) && KeptPort(rows, rows', o, p) && ReservedPort(rows, o, p, r, s)
    ensures ReservedPort(rows', o, p, r, s)
  {
  }

  lemma ReservedKept(rows: Rows, rows': Rows)
    requires Reserved(rows)
    requires forall o, p :: OwnedPort(rows', o, p) ==> KeptPort(rows, rows', o, p)
    ensures Reserved(rows')
  {
    forall o, p, r, s | OwnedPort(rows', o, p) && Plain(r) && Plain(s)
      ensures ReservedPort(rows', o, p, r, s)
    {
      assert KeptPort(rows, rows', o, p);
      KeptIsReserved(rows, rows', o, p, r, s);
    }
  }

  lemma NewPortOwner(db: Db, owner: Uuid, row: Row, o: Uuid, p: Uuid)
    requires Valid(db) && IsNewPort(row) && Hits(db.rows, OwnerTable(row), owner)
    requires OwnedPort(WithNewPort(db, owner, row).rows, o, p)
    ensures if p == db.next then o == owner else KeptPort(db.rows, WithNewPort(db, owner, row).rows, o, p)
  {
    NewPortChildren(db, owner, row, o, p);
    if p != db.next {
      NewPortRow(db, owner, row, o);
      NewPortRow(db, owner, row, p);
    }
  }

  predicate Generated(row: Row, owner: string, r: string, s: string) {
    (row == LspRow(r, s) && owner == s) || (row.RouterPort? && row.name == LrpName(r, s) && owner == r)
  }

  lemma GeneratedIsReserved(rows: Rows, o: Uuid, p: Uuid, owner: string, r: string, s: string, r': string, s': string)
    requires OwnedPort(rows, o, p) && NameOf(rows[o]) == Some(owner) && Generated(rows[p], owner, r, s)
    requires Plain(r) && Plain(s) && Plain(r') && Plain(s')
    ensures ReservedPort(rows, o, p, r', s')
  {
    if LrpName(r', s') == LrpName(r, s) {
      LrpNameInjective(r', s', r, s);
    }
    if LspName(s', r') == LspName(s, r) {
      LspNameInjective(r', s', r, s);
    }
  }

  /** A new generated port keeps generated names reserved. */
  lemma NewPortReserved(db: Db, owner: Uuid, row: Row, r: string, s: string)
    requires Valid(db) && Reserved(db.rows) && IsNewPort(row) && Hits(db.rows, OwnerTable(row), owner) && Plain(r)
             && Plain(s)
    requires NameOf(db.rows[owner]).Some? && Generated(row, NameOf(db.rows[owner]).value, r, s)
    ensures Reserved(WithNewPort(db, owner, row).rows)
  {
    var rows' := WithNewPort(db, owner, row).rows;
    assert rows'[db.next] == row && NameOf(rows'[owner]) == NameOf(db.rows[owner]);
    forall o, p, r', s' | OwnedPort(rows', o, p) && Plain(r') && Plain(s')
      ensures ReservedPort(rows', o, p, r', s')
    {
      NewPortOwner(db, owner, row, o, p);
      if p == db.next {
        GeneratedIsReserved(rows', o, p, NameOf(db.rows[owner]).value, r, s, r', s');
      } else {
        KeptIsReserved(db.rows, rows', o, p, r', s');
      }
    }
  }

  lemma EnsuredPortReserved(db: Db, owner: Uuid, row: Row, r: string, s: string)
    requires Valid(db) && Reserved(db.rows) && IsNewPort(row) && Plain(r) && Plain(s)
    requires Hits(db.rows, OwnerTable(row), owner) && NameOf(db.rows[owner]).Some?
    requires Generated(row, NameOf(db.rows[owner]).value, r, s)
    ensures Reserved(EnsurePort(db, owner, row).db.rows)
  {
    EnsurePortEffect(db, owner, row);
    NewPortReserved(db, owner, row, r, s);
  }

  lemma UpdateReserved(db: Db, p: Uuid, name: string, address: string)
    requires Valid(db) && Reserved(db.rows) && IsNamed(db.rows, p, LogicalRouterPort, name)
    ensures Reserved(db.rows[p := RouterPort(name, ROUTER_MAC, address)])
  {
    ReservedKept(db.rows, db.rows[p := RouterPort(name, ROUTER_MAC, address)]);
  }

  lemma RouterSideReserved(db: Db, lr: Uuid, r: string, s: string, address: string)
    requires Valid(db) && Reserved(db.rows) && IsNamed(db.rows, lr, LogicalRouter, r) && Plain(r) && Plain(s)
    ensures var lrp := EnsurePort(db, lr, LrpRow(r, s, address));
            lrp.result.Ok? && Reserved(lrp.db.rows[lrp.result.value := LrpRow(r, s, address)])
  {
    var row := LrpRow(r, s, address);
    EnsurePortEffect(db, lr, row);
    EnsuredPortReserved(db, lr, row, r, s);
    NamedAfter(db, lr, row);
    UpdateReserved(EnsurePort(db, lr, row).db, EnsurePort(db, lr, row).result.value, LrpName(r, s), address);
  }

  lemma SwitchSideReserved(db: Db, ls: Uuid, r: string, s: string)
    requires Valid(db) && Reserved(db.rows) && IsNamed(db.rows, ls, LogicalSwitch, s) && Plain(r) && Plain(s)
    ensures Reserved(EnsurePort(db, ls, LspRow(r, s)).db.rows)
  {
    EnsuredPortReserved(db, ls, LspRow(r, s), r, s);
  }

  lemma ConnectedReserved(db: Db, lr: Uuid, r: string, ls: Uuid, s: string, address: string)
    requires Valid(db) && Reserved(db.rows) && BothNamed(db.rows, lr, r, ls, s) && Plain(r) && Plain(s)
    ensures Reserved(Connected(db, lr, r, ls, s, address).db.rows)
  {
    RouterSideReserved(db, lr, r, s, address);
    var p, updated := Halves(db, lr, r, ls, s, address);
    SwitchSideReserved(updated, ls, r, s);
  }

  /** A switch port with a generated name has the generated content. */
  lemma GeneratedContent(db: Db, q: Uuid, r: string, s: string)
    requires Valid(db) && Reserved(db.rows) && Plain(r) && Plain(s)
    requires IsNamed(db.rows, q, LogicalSwitchPort, LspName(s, r))
    ensures db.rows[q] == LspRow(r, s)
  {
    var o := ExactlyOneOwner(db, q);
    assert OwnedPort(db.rows, o, q);
    assert ReservedPort(db.rows, o, q, r, s);
  }

  lemma LinkKeptByRows(rows: Rows, rows': Rows, r: string, s: string, address: string)
    requires Linked(rows, r, s, address)
    requires forall p :: p in rows && rows[p] == LrpRow(r, s, address) ==> p in rows' && rows'[p] == rows[p]
    requires forall q :: q in rows && rows[q] == LspRow(r, s) ==> q in rows' && rows'[q] == rows[q]
    ensures Linked(rows', r, s, address)
  {
    var p :| p in rows && rows[p] == LrpRow(r, s, address);
    assert p in rows' && rows'[p] == LrpRow(r, s, address);
    var q :| q in rows && rows[q] == LspRow(r, s);
    assert q in rows' && rows'[q] == LspRow(r, s);
  }

  lemma OtherLinkKept(rows: Rows, rows': Rows, r: string, s: string, r': string, s': string, address: string)
    requires Grown(rows, rows') && OthersKept(rows, rows', LrpName(r, s)) && Linked(rows, r', s', address)
    requires Plain(r) && Plain(r') && (r, s) != (r', s')
    ensures Linked(rows', r', s', address)
  {
    if LrpName(r, s) == LrpName(r', s') {
      LrpNameInjective(r, s, r', s');
    }
    forall q | q in rows && rows[q] == LspRow(r', s')
      ensures q in rows' && rows'[q] == rows[q]
    {
      assert GrownRow(rows[q], rows'[q]);
    }
    LinkKeptByRows(rows, rows', r', s', address);
  }

  lemma ConnectedIsLinked(db: Db, r: string, s: string, address: string)
    requires Valid(db) && Reserved(db.rows) && Plain(r) && Plain(s)
    requires HasPorts(db.rows, r, s) && HasAddress(db.rows, r, s, address)
    ensures Linked(db.rows, r, s, address)
  {
    GeneratedContent(db, Lookup(db.rows, LogicalSwitchPort, LspName(s, r)).value, r, s);
  }

  lemma PairsAfterConnect(rows: Rows, rows': Rows, pairs: Pairs, r: string, s: string, address: string)
    requires PairsLinked(rows, pairs) && Plain(r) && Plain(s)
    requires Grown(rows, rows') && OthersKept(rows, rows', LrpName(r, s)) && Linked(rows', r, s, address)
    ensures PairsLinked(rows', pairs[(r, s) := address])
  {
    forall k | k in pairs && k != (r, s)
      ensures Linked(rows', k.0, k.1, pairs[k])
    {
      OtherLinkKept(rows, rows', r, s, k.0, k.1, pairs[k]);
    }
  }

  lemma ConnectKeepsLinks(db: Db, pairs: Pairs, lr: Uuid, r: string, ls: Uuid, s: string, address: string)
    requires LinksOk(db, pairs) && BothNamed(db.rows, lr, r, ls, s) && Plain(r) && Plain(s)
    ensures LinksOk(Connected(db, lr, r, ls, s, address).db, pairs[(r, s) := address])
  {
    ConnectedEffect(db, lr, r, ls, s, address);
    ConnectedReserved(db, lr, r, ls, s, address);
    var db' := Connected(db, lr, r, ls, s, address).db;
    ConnectedIsLinked(db', r, s, address);
    PairsAfterConnect(db.rows, db'.rows, pairs, r, s, address);
  }

  lemma AddReserved(db: Db, row: Row)
    requires Valid(db) && Reserved(db.rows) && IsNewRoot(row)
    ensures Reserved(db.rows[db.next := row])
  {
    var rows' := db.rows[db.next := row];
    forall o, p | OwnedPort(rows', o, p)
      ensures KeptPort(db.rows, rows', o, p)
    {
      assert o in db.rows;
      assert RefsOk(db.rows, db.rows[o]);
    }
    ReservedKept(db.rows, rows');
  }

  lemma PairsAfterAdd(rows: Rows, rows': Rows, pairs: Pairs)
    requires PairsLinked(rows, pairs) && forall u :: u in rows ==> u in rows' && rows'[u] == rows[u]
    ensures PairsLinked(rows', pairs)
  {
    forall k | k in pairs
      ensures Linked(rows', k.0, k.1, pairs[k])
    {
      LinkKeptByRows(rows, rows', k.0, k.1, pairs[k]);
    }
  }

  lemma AddKeepsLinks(db: Db, pairs: Pairs, row: Row)
    requires LinksOk(db, pairs) && IsNewRoot(row)
    ensures LinksOk(EnsureRoot(db, row).db, pairs)
  {
    EnsureRootEffect(db, row);
    AddReserved(db, row);
    PairsAfterAdd(db.rows, db.rows[db.next := row], pairs);
  }

  /** Deleting an object leaves the ports it does not own. */
  lemma DropKeepsPort(db: Db, table: Table, u: Uuid, p: Uuid)
    requires Valid(db) && (table == LogicalRouter || table == LogicalSwitch) && Hits(db.rows, table, u)
    requires p in db.rows && !IsRoot(db.rows[p]) && !OwnedPort(db.rows, u, p)
    ensures p in Without(db, table, u).rows && Without(db, table, u).rows[p] == db.rows[p]
  {
  }

  /** The object's name tells which generated ports it can own. */
  lemma OwnsNoOther(db: Db, table: Table, u: Uuid, name: string, p: Uuid, r: string, s: string)
    requires Valid(db) && Reserved(db.rows) && IsNamed(db.rows, u, table, name) && Plain(r) && Plain(s)
    requires (table == LogicalRouter && name != r) || (table == LogicalSwitch && name != s)
    requires IsNamed(db.rows, p, LogicalRouterPort, LrpName(r, s))
             || IsNamed(db.rows, p, LogicalSwitchPort, LspName(s, r))
    ensures !OwnedPort(db.rows, u, p)
  {
    assert RefsOk(db.rows, db.rows[u]);
    assert OwnedPort(db.rows, u, p) ==> ReservedPort(db.rows, u, p, r, s);
  }

  /** Deleting one end removes only ports of pairs that name it. */
  lemma DropKeepsLink(db: Db, table: Table, u: Uuid, name: string, r: string, s: string, address: string)
    requires Valid(db) && Reserved(db.rows) && IsNamed(db.rows, u, table, name) && Plain(r) && Plain(s)
    requires Linked(db.rows, r, s, address)
    requires (table == LogicalRouter && name != r) || (table == LogicalSwitch && name != s)
    ensures Linked(Without(db, table, u).rows, r, s, address)
  {
    var rows' := Without(db, table, u).rows;
    forall p | p in db.rows && (db.rows[p] == LrpRow(r, s, address) || db.rows[p] == LspRow(r, s))
      ensures p in rows' && rows'[p] == db.rows[p]
    {
      OwnsNoOther(db, table, u, name, p, r, s);
      DropKeepsPort(db, table, u, p);
    }
    LinkKeptByRows(db.rows, rows', r, s, address);
  }

  lemma DropReserved(db: Db, table: Table, u: Uuid)
    requires Valid(db) && Reserved(db.rows)
    ensures Reserved(Without(db, table, u).rows)
  {
    ReservedKept(db.rows, Without(db, table, u).rows);
  }

  lemma DropKeepsLinks(db: Db, pairs: Pairs, table: Table, name: string, pairs': Pairs)
    requires LinksOk(db, pairs) && (table == LogicalRouter || table == LogicalSwitch)
    requires forall k :: k in pairs' ==>
               k in pairs && pairs'[k] == pairs[k] && (if table == LogicalRouter then k.0 else k.1) != name
    ensures LinksOk(DeleteNamed(db, table, name).db, pairs')
  {
    var u := Lookup(db.rows, table, name);
    if u.Some? {
      DeleteEffect(db, table, u.value);
      DropReserved(db, table, u.value);
      forall k | k in pairs'
        ensures Linked(Without(db, table, u.value).rows, k.0, k.1, pairs'[k])
      {
        DropKeepsLink(db, table, u.value, name, k.0, k.1, pairs[k]);
      }
    }
  }

  lemma PerformConnect(db: Db, pairs: Pairs, r: string, s: string, address: string)
    requires LinksOk(db, pairs) && Plain(r) && Plain(s)
    ensures LinksOk(Perform(db, Connect(r, s, address)).db, Latest(pairs, db, Connect(r, s, address)))
  {
    var lr, ls := Lookup(db.rows, LogicalRouter, r), Lookup(db.rows, LogicalSwitch, s);
    if lr.Some? && ls.Some? {
      ConnectKeepsLinks(db, pairs, lr.value, r, ls.value, s, address);
      ConnectedEffect(db, lr.value, r, ls.value, s, address);
    }
  }

  lemma LinksKept(db: Db, pairs: Pairs, c: Command)
    requires LinksOk(db, pairs) && PlainCommand(c)
    ensures LinksOk(Perform(db, c).db, Latest(pairs, db, c))
  {
    match c
    case Connect(r, s, address) => PerformConnect(db, pairs, r, s, address);
    case AddRouter(name) => AddKeepsLinks(db, pairs, Router(name, {}, {}));
    case AddSwitch(name) => AddKeepsLinks(db, pairs, Switch(name, {}, map[]));
    case DropRouter(name) => DropKeepsLinks(db, pairs, LogicalRouter, name, Latest(pairs, db, c));
    case DropSwitch(name) => DropKeepsLinks(db, pairs, LogicalSwitch, name, Latest(pairs, db, c));
  }

  ghost function PerformAll(db: Db, cs: seq<Command>): Db
    decreases |cs|
  {
    if cs == [] then db else PerformAll(Perform(db, cs[0]).db, cs[1..])
  }

  ghost function LatestAll(pairs: Pairs, db: Db, cs: seq<Command>): Pairs
    decreases |cs|
  {
    if cs == [] then pairs else LatestAll(Latest(pairs, db, cs[0]), Perform(db, cs[0]).db, cs[1..])
  }

  lemma {:induction false} LinksAlongRuns(db: Db, pairs: Pairs, cs: seq<Command>)
    requires LinksOk(db, pairs) && forall c :: c in cs ==> PlainCommand(c)
    ensures LinksOk(PerformAll(db, cs), LatestAll(pairs, db, cs))
    decreases |cs|
  {
    if cs != [] {
      assert cs[0] in cs;
      LinksKept(db, pairs, cs[0]);
      LinksAlongRuns(Perform(db, cs[0]).db, Latest(pairs, db, cs[0]), cs[1..]);
    }
  }

  /** `p` is the only port of its name, and belongs to the named owner. */
  ghost predicate OnlyPort(rows: Rows, o: Uuid, owner: string, p: Uuid, row: Row) {
    && OwnedPort(rows, o, p) && NameOf(rows[o]) == Some(owner) && rows[p] == row
    && forall q :: q in rows && SameName(rows[q], row) ==> q == p
  }

  /** Port `p` of router `lr` is the only router port of the pair, and has the address. */
  ghost predicate RouterEnd(rows: Rows, lr: Uuid, p: Uuid, r: string, s: string, address: string) {
    && lr in rows && rows[lr].Router? && rows[lr].name == r && p in rows[lr].ports
    && p in rows && rows[p].RouterPort? && rows[p].name == "lr_" + r + "_ls_" + s
    && rows[p].mac == "02:00:00:00:00:01" && rows[p].networks == address
    && forall u :: u in rows && rows[u].RouterPort? && rows[u].name == "lr_" + r + "_ls_" + s ==> u == p
  }

  /** Port `q` of switch `ls` is the only switch port of the pair, and its option names the router port `p`. */
  ghost predicate SwitchEnd(rows: Rows, ls: Uuid, q: Uuid, r: string, s: string, p: Uuid) {
    && ls in rows && rows[ls].Switch? && rows[ls].name == s && q in rows[ls].ports
    && q in rows && rows[q].SwitchPort? && rows[q].name == "ls_" + s + "_lr_" + r
    && rows[q].kind == "router" && rows[q].addresses == "router"
    && p in rows && rows[p].RouterPort?
    && "router-port" in rows[q].options && rows[q].options["router-port"] == rows[p].name
    && forall u :: u in rows && rows[u].SwitchPort? && rows[u].name == "ls_" + s + "_lr_" + r ==> u == q
  }

  /** The pair has one port on each side, and the switch port names the router port. */
  ghost predicate ExactlyConnected(rows: Rows, r: string, s: string, address: string) {
    exists lr, p, ls, q :: RouterEnd(rows, lr, p, r, s, address) && SwitchEnd(rows, ls, q, r, s, p)
  }

  lemma GeneratedIsOnly(db: Db, p: Uuid, r: string, s: string) returns (o: Uuid)
    requires Valid(db) && Reserved(db.rows) && Plain(r) && Plain(s) && p in db.rows
    requires IsNamed(db.rows, p, LogicalRouterPort, LrpName(r, s))
             || IsNamed(db.rows, p, LogicalSwitchPort, LspName(s, r))
    ensures OnlyPort(db.rows, o, if db.rows[p].RouterPort? then r else s, p, db.rows[p])
  {
    o := ExactlyOneOwner(db, p);
    assert OwnedPort(db.rows, o, p);
    assert ReservedPort(db.rows, o, p, r, s);
  }

  lemma OnlyIsEnd(rows: Rows, o: Uuid, owner: string, p: Uuid, row: Row)
    requires OnlyPort(rows, o, owner, p, row) && (row.RouterPort? || row.SwitchPort?)
    ensures o in rows && (rows[o].Router? || rows[o].Switch?) && rows[o].name == owner && p in Children(rows[o])
    ensures forall u :: u in rows && TableOf(rows[u]) == TableOf(row) && NameOf(rows[u]) == NameOf(row) ==> u == p
  {
  }

  lemma LinkIsExact(db: Db, r: string, s: string, address: string)
    requires Valid(db) && Reserved(db.rows) && Plain(r) && Plain(s) && Linked(db.rows, r, s, address)
    ensures ExactlyConnected(db.rows, r, s, address)
  {
    var p :| p in db.rows && db.rows[p] == LrpRow(r, s, address);
    var q :| q in db.rows && db.rows[q] == LspRow(r, s);
    var lr := GeneratedIsOnly(db, p, r, s);
    var ls := GeneratedIsOnly(db, q, r, s);
    assert RouterEnd(db.rows, lr, p, r, s, address) by {
      OnlyIsEnd(db.rows, lr, r, p, LrpRow(r, s, address));
    }
    assert SwitchEnd(db.rows, ls, q, r, s, p) by {
      OnlyIsEnd(db.rows, ls, s, q, LspRow(r, s));
    }
  }

  /**
    Main result: after any sequence of calls, deletions and re-creations, every pair connected since
    both its ends were last created is connected exactly once, with the address of its latest call.
   */
  lemma PairsStayConnected(db: Db, cs: seq<Command>, r: string, s: string)
    requires Valid(db) && Reserved(db.rows) && forall c :: c in cs ==> PlainCommand(c)
    requires (r, s) in LatestAll(map[], db, cs)
    ensures ExactlyConnected(PerformAll(db, cs).rows, r, s, LatestAll(map[], db, cs)[(r, s)])
  {
    LinksAlongRuns(db, map[], cs);
    LinkIsExact(PerformAll(db, cs), r, s, LatestAll(map[], db, cs)[(r, s)]);
  }

  /** The call succeeds exactly when both ends exist; then its pair is the latest. */
  lemma LatestCallCounts(db: Db, pairs: Pairs, r: string, s: string, address: string)
    requires Valid(db)
    ensures Perform(db, Connect(r, s, address)).result.Ok?
            <==> Lookup(db.rows, LogicalRouter, r).Some? && Lookup(db.rows, LogicalSwitch, s).Some?
    ensures Perform(db, Connect(r, s, address)).result.Ok? ==>
              (r, s) in Latest(pairs, db, Connect(r, s, address))
                && Latest(pairs, db, Connect(r, s, address))[(r, s)] == address
  {
    var lr, ls := Lookup(db.rows, LogicalRouter, r), Lookup(db.rows, LogicalSwitch, s);
    if lr.Some? && ls.Some? {
      ConnectedEffect(db, lr.value, r, ls.value, s, address);
    }
  }
}
