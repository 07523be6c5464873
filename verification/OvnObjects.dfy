/**
  The typed layer over the northbound database: lookups by name, create-if-missing for switches,
  routers and their ports, deletion, and the switch-port operations on addresses. Each operation
  is a function from the database to an outcome, and a method of the connection that computes it.
 */
module OvnObjects {
  import opened Prelude
  import opened Ovsdb
  import opened OvnTransactions

  /** `get_by_name`; with unique names there is only one row to find. */
  ghost function Lookup(rows: Rows, table: Table, name: string): (r: Option<Uuid>)
    ensures r.Some? ==> IsNamed(rows, r.value, table, name)
    ensures r.None? ==> forall u :: !IsNamed(rows, u, table, name)
  {
    if u: Uuid :| IsNamed(rows, u, table, name) then Some(u) else None
  }

  lemma LookupIs(rows: Rows, table: Table, name: string, u: Uuid)
    requires UniqueNames(rows) && IsNamed(rows, u, table, name)
    ensures Lookup(rows, table, name) == Some(u)
  {
    assert SameName(rows[u], rows[Lookup(rows, table, name).value]);
  }

  /** Rows that keep their table and name keep what a lookup finds. */
  lemma LookupKept(rows: Rows, rows': Rows, table: Table, name: string)
    requires UniqueNames(rows')
    requires forall u :: u in rows <==> u in rows'
    requires forall u :: u in rows ==> TableOf(rows'[u]) == TableOf(rows[u]) && NameOf(rows'[u]) == NameOf(rows[u])
    ensures Lookup(rows', table, name) == Lookup(rows, table, name)
  {
    var r := Lookup(rows, table, name);
    if r.Some? {
      LookupIs(rows', table, name, r.value);
    } else {
      var r' := Lookup(rows', table, name);
      assert r'.Some? ==> IsNamed(rows, r'.value, table, name);
    }
  }

  datatype Outcome<+T> = Outcome(db: Db, result: Result<T>)

  ghost function Found(rows: Rows, table: Table, name: string): Result<Uuid> {
    match Lookup(rows, table, name)
    case Some(u) => Ok(u)
    case None => Err(NotFound)
  }

  /** `OvnBasicActions::create_if_missing` */
  ghost function EnsureRoot(db: Db, row: Row): Outcome<Uuid>
    requires NameOf(row).Some?
  {
    var name := NameOf(row).value;
    if Lookup(db.rows, TableOf(row), name).Some? then Outcome(db, Found(db.rows, TableOf(row), name))
    else
      var db' := Commit(db, InsertOps(row));
      Outcome(db', Found(db'.rows, TableOf(row), name))
  }

  /** `create_if_missing` of the port builders; the row's owner may be gone. */
  ghost function EnsurePort(db: Db, owner: Uuid, row: Row): Outcome<Uuid>
    requires NameOf(row).Some?
  {
    var name := NameOf(row).value;
    if Lookup(db.rows, TableOf(row), name).Some? then Outcome(db, Found(db.rows, TableOf(row), name))
    else
      var db' := Commit(db, PortOps(owner, row));
      Outcome(db', Found(db'.rows, TableOf(row), name))
  }

  predicate IsNewRoot(row: Row) {
    (row.Switch? || row.Router?) && Blank(row)
  }

  /** A named switch or router exists afterwards, and is the only new row if it was missing. */
  lemma EnsureRootEffect(db: Db, row: Row)
    requires Valid(db) && IsNewRoot(row)
    ensures var o := EnsureRoot(db, row);
            && Valid(o.db) && o.result.Ok? && IsNamed(o.db.rows, o.result.value, TableOf(row), NameOf(row).value)
            && (Lookup(db.rows, TableOf(row), NameOf(row).value).Some? ==> o.db == db)
            && (Lookup(db.rows, TableOf(row), NameOf(row).value).None? ==>
                  o.db == Db(db.rows[db.next := row], db.next + 1) && o.result == Ok(db.next))
  {
    var name := NameOf(row).value;
    if Lookup(db.rows, TableOf(row), name).None? {
      forall u | u in db.rows
        ensures !SameName(db.rows[u], row)
      {
        assert !IsNamed(db.rows, u, TableOf(row), name);
      }
      InsertRootEffect(db, row);
      var db' := Commit(db, InsertOps(row));
      LookupIs(db'.rows, TableOf(row), name, db.next);
    }
  }

  predicate IsNewPort(row: Row) {
    (row.SwitchPort? || row.RouterPort?) && Blank(row)
  }

  /** The port exists afterwards, unless it was missing and so was its owner. */
  lemma EnsurePortEffect(db: Db, owner: Uuid, row: Row)
    requires Valid(db) && IsNewPort(row)
    ensures var o := EnsurePort(db, owner, row); var name := NameOf(row).value;
            && Valid(o.db)
            && (Lookup(db.rows, TableOf(row), name).Some? ==>
                 o.db == db && o.result == Ok(Lookup(db.rows, TableOf(row), name).value))
            && (Lookup(db.rows, TableOf(row), name).None? ==>
                  && o.db == WithNewPort(db, owner, row)
                  && o.result == if Hits(db.rows, OwnerTable(row), owner) then Ok(db.next) else Err(NotFound))
  {
    var name := NameOf(row).value;
    if Lookup(db.rows, TableOf(row), name).None? {
      forall u | u in db.rows
        ensures !SameName(db.rows[u], row)
      {
        assert !IsNamed(db.rows, u, TableOf(row), name);
      }
      NewPortEffect(db, owner, row);
      var db' := WithNewPort(db, owner, row);
      if Hits(db.rows, OwnerTable(row), owner) {
        LookupIs(db'.rows, TableOf(row), name, db.next);
      }
    }
  }

  predicate At(s: string, t: string, i: int) {
    0 <= i <= |s| - |t| && s[i..i + |t|] == t
  }

  /** `str::contains` */
  ghost predicate Contains(s: string, t: string) {
    exists i :: At(s, t, i)
  }

  /** Substring search from the front. */
  predicate HasSubstring(s: string, t: string)
    ensures HasSubstring(s, t) <==> Contains(s, t)
  {
    if |s| < |t| then false
    else if At(s, t, 0) then true
    else if s == [] then false
    else
      assert forall i :: At(s[1..], t, i) ==> At(s, t, i + 1);
      assert forall i :: At(s, t, i) && i > 0 ==> At(s[1..], t, i - 1);
      HasSubstring(s[1..], t)
  }

  /** The first word of a port's addresses, which is its MAC. */
  function Token(addresses: string): string {
    Until(addresses, ' ')
  }

  predicate IsMac(mac: string) {
    mac != "" && ' ' !in mac && mac != "router"
  }

  datatype IpConfiguration = Address(ip: string) | Dynamic | NoIp

  function AddressOf(mac: string, ip: IpConfiguration): string {
    match ip
    case Address(a) => mac + " " + a
    case Dynamic => mac + " dynamic"
    case NoIp => mac
  }

  /** A switch port as a controller holds it: its addresses may be out of date. */
  datatype PortHandle = PortHandle(uuid: Uuid, addresses: string)

  predicate Owns(rows: Rows, s: Uuid, u: Uuid) {
    s in rows && rows[s].Switch? && u in rows[s].ports
  }

  /** `get_by_mac` finds some port of the list whose addresses contain the MAC. */
  ghost predicate Matched(rows: Rows, ports: set<Uuid>, mac: string) {
    exists u :: u in ports && u in rows && rows[u].SwitchPort? && Contains(rows[u].addresses, mac)
  }

  /** The same for the switch as it is. */
  ghost predicate MacInUse(rows: Rows, s: Uuid, mac: string) {
    s in rows && rows[s].Switch? && Matched(rows, rows[s].ports, mac)
  }

  /** Port `u` of switch `s` carries the MAC. */
  ghost predicate HasMac(rows: Rows, s: Uuid, u: Uuid, mac: string) {
    && Owns(rows, s, u) && u in rows && rows[u].SwitchPort?
    && IsMac(mac) && Token(rows[u].addresses) == mac
  }

  /** The MAC is part of the addresses of any port that carries it. */
  lemma TokenIsContained(addresses: string)
    ensures Contains(addresses, Token(addresses))
  {
    UntilIsPrefix(addresses, ' ');
    assert At(addresses, Token(addresses), 0);
  }

  lemma AddressToken(mac: string, ip: IpConfiguration)
    ensures Token(AddressOf(mac, ip)) == mac <==> ' ' !in mac
  {
    UntilIsPrefix(AddressOf(mac, ip), ' ');
    if ' ' !in mac {
      var rest := match ip case Address(a) => " " + a case Dynamic => " dynamic" case NoIp => "";
      UntilSplits(mac, ' ', rest);
      assert AddressOf(mac, ip) == mac + rest;
    }
  }

  /** `find_lsp_owner` */
  ghost function OwnerOf(rows: Rows, u: Uuid): (r: Option<Uuid>)
    ensures r.Some? ==> Owns(rows, r.value, u)
    ensures r.None? ==> forall s :: !Owns(rows, s, u)
  {
    if s: Uuid :| Owns(rows, s, u) then Some(s) else None
  }

  /** `LogicalSwitchPort::set_address` without interference */
  ghost function WithAddress(db: Db, port: PortHandle, mac: string, ip: IpConfiguration): Outcome<Uuid> {
    if Contains(port.addresses, mac) then Outcome(db, Ok(port.uuid))
    else
      var owner := OwnerOf(db.rows, port.uuid);
      if owner.None? then Outcome(db, Err(NotFound))
      else if MacInUse(db.rows, owner.value, mac) then Outcome(db, Err(MacConflict))
      else Outcome(Commit(db, UpdateOps(port.uuid, SetAddresses(AddressOf(mac, ip)))), Ok(port.uuid))
  }

  /** `set_address` on a port just read from the database */
  ghost function AddressSet(db: Db, port: Uuid, mac: string, ip: IpConfiguration): Outcome<Uuid>
    requires port in db.rows && db.rows[port].SwitchPort?
  {
    WithAddress(db, PortHandle(port, db.rows[port].addresses), mac, ip)
  }

  lemma AddressContains(mac: string, ip: IpConfiguration)
    ensures Contains(AddressOf(mac, ip), mac)
  {
    assert At(AddressOf(mac, ip), mac, 0);
  }

  /** Setting an address twice is setting it once; a refused one is refused again. */
  lemma AddressTwice(db: Db, port: Uuid, mac: string, ip: IpConfiguration)
    requires Valid(db) && port in db.rows && db.rows[port].SwitchPort?
    ensures var o := AddressSet(db, port, mac, ip);
            && Valid(o.db) && port in o.db.rows && o.db.rows[port].SwitchPort?
            && AddressSet(o.db, port, mac, ip) == o
  {
    UpdateEffect(db, port, SetAddresses(AddressOf(mac, ip)));
    AddressContains(mac, ip);
  }

  /** A call without an error leaves the MAC among the port's addresses, and keeps everything else. */
  lemma AddressIsSet(db: Db, port: Uuid, mac: string, ip: IpConfiguration)
    requires Valid(db) && port in db.rows && db.rows[port].SwitchPort? && AddressSet(db, port, mac, ip).result.Ok?
    ensures var db' := AddressSet(db, port, mac, ip).db;
            && db'.next == db.next && db'.rows.Keys == db.rows.Keys
            && db'.rows[port].SwitchPort? && Contains(db'.rows[port].addresses, mac)
            && db'.rows[port] == db.rows[port].(addresses := db'.rows[port].addresses)
            && (Contains(db.rows[port].addresses, mac) || db'.rows[port].addresses == AddressOf(mac, ip))
            && forall u :: u in db.rows && u != port ==> db'.rows[u] == db.rows[u]
  {
    UpdateEffect(db, port, SetAddresses(AddressOf(mac, ip)));
    AddressContains(mac, ip);
    assert Prune(db.rows, db.rows[port]) == db.rows[port];
  }

  /** The old addresses do not stand in the way of the MAC. */
  ghost predicate Assignable(addresses: string, mac: string) {
    if Contains(addresses, mac) then Token(addresses) == mac else ' ' !in mac
  }

  /**
    After a call without an error the port carries the MAC exactly if its addresses did not contain it
    before, or already began with it; a MAC with a space is no first word.
   */
  lemma TokenIsSet(db: Db, port: Uuid, mac: string, ip: IpConfiguration)
    requires Valid(db) && port in db.rows && db.rows[port].SwitchPort? && AddressSet(db, port, mac, ip).result.Ok?
    ensures var db' := AddressSet(db, port, mac, ip).db;
            && port in db'.rows && db'.rows[port].SwitchPort?
            && (Token(db'.rows[port].addresses) == mac <==> Assignable(db.rows[port].addresses, mac))
  {
    AddressIsSet(db, port, mac, ip);
    AddressToken(mac, ip);
  }

  lemma PrefixWords()
    ensures Contains("52:54:00:1:2:3f dynamic", "52:54:00:1:2:3")
            && Token("52:54:00:1:2:3f dynamic") == "52:54:00:1:2:3f"
  {
    assert At("52:54:00:1:2:3f dynamic", "52:54:00:1:2:3", 0);
    UntilSplits("52:54:00:1:2:3f", ' ', " dynamic");
    assert "52:54:00:1:2:3f dynamic" == "52:54:00:1:2:3f" + " dynamic";
  }

  /** A MAC that is a part of another one: the call reports success and leaves the other one in place. */
  lemma PrefixIsTaken(db: Db, port: Uuid, ip: IpConfiguration)
    requires Valid(db) && port in db.rows && db.rows[port].SwitchPort?
    requires db.rows[port].addresses == "52:54:00:1:2:3f dynamic"
    ensures AddressSet(db, port, "52:54:00:1:2:3", ip) == Outcome(db, Ok(port))
    ensures Token(db.rows[port].addresses) == "52:54:00:1:2:3f" != "52:54:00:1:2:3"
  {
    PrefixWords();
  }

  ghost predicate MacTaken(rows: Rows, s: Uuid, mac: string) {
    exists v :: HasMac(rows, s, v, mac)
  }

  /** What `set_address` is for: the same call, comparing MACs instead of substrings. */
  ghost function AddressSetByMac(db: Db, port: Uuid, mac: string, ip: IpConfiguration): Outcome<Uuid>
    requires port in db.rows && db.rows[port].SwitchPort?
  {
    if Token(db.rows[port].addresses) == mac then Outcome(db, Ok(port))
    else
      var owner := OwnerOf(db.rows, port);
      if owner.None? then Outcome(db, Err(NotFound))
      else if MacTaken(db.rows, owner.value, mac) then Outcome(db, Err(MacConflict))
      else Outcome(Commit(db, UpdateOps(port, SetAddresses(AddressOf(mac, ip)))), Ok(port))
  }

  /** The MAC is no mere part of an address the call looks at: the port's own, or else some port's of its switch. */
  ghost predicate NoFalseMatch(rows: Rows, port: Uuid, mac: string)
    requires port in rows && rows[port].SwitchPort?
  {
    if Contains(rows[port].addresses, mac) then Token(rows[port].addresses) == mac
    else
      var owner := OwnerOf(rows, port);
      owner.Some? && MacInUse(rows, owner.value, mac) ==> MacTaken(rows, owner.value, mac)
  }

  /** Comparing substrings gives the same outcome as comparing MACs if and only if no false match occurs. */
  lemma SubstringIsExact(db: Db, port: Uuid, mac: string, ip: IpConfiguration)
    requires Valid(db) && port in db.rows && db.rows[port].SwitchPort? && IsMac(mac)
    ensures AddressSet(db, port, mac, ip) == AddressSetByMac(db, port, mac, ip) <==> NoFalseMatch(db.rows, port, mac)
  {
    var addresses := db.rows[port].addresses;
    TokenIsContained(addresses);
    AddressToken(mac, ip);
    UpdateEffect(db, port, SetAddresses(AddressOf(mac, ip)));
    var owner := OwnerOf(db.rows, port);
    if owner.Some? && MacTaken(db.rows, owner.value, mac) {
      var v :| HasMac(db.rows, owner.value, v, mac);
      TokenIsContained(db.rows[v].addresses);
    }
  }

  /** A free MAC that is a part of the MAC of another port of the switch is refused. */
  lemma PrefixIsRefused(db: Db, s: Uuid, port: Uuid, other: Uuid, ip: IpConfiguration)
    requires Valid(db) && port in db.rows && db.rows[port].SwitchPort? && db.rows[port].addresses == ""
    requires Owns(db.rows, s, port) && Owns(db.rows, s, other) && other in db.rows && db.rows[other].SwitchPort?
    requires db.rows[other].addresses == "52:54:00:1:2:3f dynamic"
    ensures AddressSet(db, port, "52:54:00:1:2:3", ip) == Outcome(db, Err(MacConflict))
  {
    assert At(db.rows[other].addresses, "52:54:00:1:2:3", 0);
    assert port in Children(db.rows[s]) && port in Children(db.rows[OwnerOf(db.rows, port).value]);
  }

  /** Deleting a switch or router by name; a missing one is an error. */
  ghost function DeleteNamed(db: Db, table: Table, name: string): Outcome<Uuid> {
    match Lookup(db.rows, table, name)
    case Some(u) => Outcome(Commit(db, DeleteOps(table, u)), Ok(u))
    case None => Outcome(db, Err(NotFound))
  }

  /** `LogicalSwitch::del_lsp` */
  ghost function WithoutLsp(db: Db, switch: Uuid, name: string): Outcome<Uuid> {
    match Lookup(db.rows, LogicalSwitchPort, name)
    case Some(u) => Outcome(Commit(db, RemovePortOps(switch, u)), Ok(u))
    case None => Outcome(db, Err(NotFound))
  }

  predicate IsDhcp(rows: Rows, u: Uuid, cidr: string) {
    u in rows && rows[u].Dhcp? && rows[u].cidr == cidr
  }

  ghost predicate HasDhcp(rows: Rows, cidr: string) {
    exists u :: IsDhcp(rows, u, cidr)
  }

  /** What `DhcpOptions::get_by_cidr` can find: some row of the CIDR, and none only if there is none. */
  ghost predicate CanFind(rows: Rows, cidr: string, found: Option<Uuid>) {
    if found.Some? then IsDhcp(rows, found.value, cidr) else !HasDhcp(rows, cidr)
  }

  /** A row with its UUID, as `list_objects` returns it. */
  datatype Listed = Listed(uuid: Uuid, row: Row)

  ghost predicate Lists(objects: seq<Listed>, rows: Rows, table: Table) {
    && (forall o :: o in objects ==> o.uuid in rows && rows[o.uuid] == o.row && TableOf(o.row) == table)
    && (forall u :: u in rows && TableOf(rows[u]) == table ==> Listed(u, rows[u]) in objects)
  }

  /** The connection to the northbound database. */
  class Ovn {
    var db: Db

    constructor (db: Db)
      ensures this.db == db
    {
      this.db := db;
    }

    /** False when the server reports an error, on which the caller panics. */
    method Transact(ops: seq<Op>) returns (ok: bool)
      modifies this
      ensures db == Commit(old(db), ops)
      ensures ok <==> Ovsdb.Transact(old(db), ops).Some?
    {
      var r := Ovsdb.Transact(db, ops);
      ok := r.Some?;
      if ok {
        db := r.value;
      }
    }

    method ListObjects(table: Table) returns (objects: seq<Listed>)
      ensures Lists(objects, db.rows, table)
    {
      objects := [];
      var todo := db.rows.Keys;
      while todo != {}
        invariant todo <= db.rows.Keys
        invariant forall o :: o in objects ==> o.uuid in db.rows && db.rows[o.uuid] == o.row && TableOf(o.row) == table
        invariant forall u :: u in db.rows && u !in todo && TableOf(db.rows[u]) == table ==>
                  Listed(u, db.rows[u]) in objects
        decreases |todo|
      {
        var u :| u in todo;
        if TableOf(db.rows[u]) == table {
          objects := objects + [Listed(u, db.rows[u])];
        }
        todo := todo - {u};
      }
    }

    method GetByName(table: Table, name: string) returns (r: Result<Listed>)
      ensures r.Ok? ==> IsNamed(db.rows, r.value.uuid, table, name) && db.rows[r.value.uuid] == r.value.row
      ensures r.Err? ==> r.error == NotFound && forall u :: !IsNamed(db.rows, u, table, name)
      ensures r.Ok? <==> Lookup(db.rows, table, name).Some?
      ensures r.Ok? && UniqueNames(db.rows) ==> Lookup(db.rows, table, name) == Some(r.value.uuid)
    {
      var objects := ListObjects(table);
      for i := 0 to |objects|
        invariant forall j :: 0 <= j < i ==> NameOf(objects[j].row) != Some(name)
      {
        assert objects[i] in objects;
        if NameOf(objects[i].row) == Some(name) {
          assert IsNamed(db.rows, objects[i].uuid, table, name);
          if UniqueNames(db.rows) {
            LookupIs(db.rows, table, name, objects[i].uuid);
          }
          return Ok(objects[i]);
        }
      }
      return Err(NotFound);
    }

    method CreateIfMissing(row: Row) returns (r: Result<Listed>)
      requires Valid(db) && IsNewRoot(row)
      modifies this
      ensures Valid(db) && db == EnsureRoot(old(db), row).db
      ensures r.Ok? && Ok(r.value.uuid) == EnsureRoot(old(db), row).result
      ensures r.value.uuid in db.rows && db.rows[r.value.uuid] == r.value.row
    {
      EnsureRootEffect(db, row);
      r := GetByName(TableOf(row), NameOf(row).value);
      if r.Err? {
        var _ := Transact(InsertOps(row));
        r := GetByName(TableOf(row), NameOf(row).value);
      }
    }

    method CreatePortIfMissing(owner: Uuid, row: Row) returns (r: Result<Listed>)
      requires Valid(db) && IsNewPort(row)
      modifies this
      ensures Valid(db) && db == EnsurePort(old(db), owner, row).db
      ensures match EnsurePort(old(db), owner, row).result
              case Ok(u) => r.Ok? && r.value.uuid == u && u in db.rows && db.rows[u] == r.value.row
              case Err(e) => r == Err(e)
    {
      EnsurePortEffect(db, owner, row);
      r := GetByName(TableOf(row), NameOf(row).value);
      if r.Err? {
        var _ := Transact(PortOps(owner, row));
        r := GetByName(TableOf(row), NameOf(row).value);
      }
    }

    method Delete(table: Table, uuid: Uuid)
      requires Valid(db) && (table == LogicalSwitch || table == LogicalRouter)
      modifies this
      ensures Valid(db) && db == Without(old(db), table, uuid)
    {
      DeleteEffect(db, table, uuid);
      var _ := Transact(DeleteOps(table, uuid));
    }

    method DelLsp(switch: Uuid, name: string) returns (r: Result<Uuid>)
      requires Valid(db)
      modifies this
      ensures Valid(db) && Outcome(db, r) == WithoutLsp(old(db), switch, name)
    {
      var lsp := GetByName(LogicalSwitchPort, name);
      if lsp.Err? {
        return Err(lsp.error);
      }
      RemovePortEffect(db, switch, lsp.value.uuid);
      var _ := Transact(RemovePortOps(switch, lsp.value.uuid));
      r := Ok(lsp.value.uuid);
    }

    method FindLspOwner(port: Uuid) returns (r: Result<Listed>)
      requires Valid(db)
      ensures r.Ok? <==> OwnerOf(db.rows, port).Some?
      ensures r.Ok? ==> Some(r.value.uuid) == OwnerOf(db.rows, port) && db.rows[r.value.uuid] == r.value.row
      ensures r.Err? ==> r.error == NotFound
    {
      var switches := ListObjects(LogicalSwitch);
      for i := 0 to |switches|
        invariant forall j :: 0 <= j < i ==> switches[j].row.Switch? && port !in switches[j].row.ports
      {
        assert switches[i] in switches;
        if port in switches[i].row.ports {
          assert Owns(db.rows, switches[i].uuid, port);
          assert port in Children(db.rows[switches[i].uuid]) && port in Children(db.rows[OwnerOf(db.rows, port).value]);
          return Ok(switches[i]);
        }
      }
      return Err(NotFound);
    }

    /** The handle of the switch may be out of date: its port list is used as it is. */
    method GetByMac(switch: Listed, mac: string) returns (found: bool)
      requires switch.row.Switch?
      ensures found <==> Matched(db.rows, switch.row.ports, mac)
    {
      var ports := ListObjects(LogicalSwitchPort);
      for i := 0 to |ports|
        invariant forall j :: 0 <= j < i ==>
                    ports[j].row.SwitchPort? && !(ports[j].uuid in switch.row.ports
                      && Contains(ports[j].row.addresses, mac))
      {
        assert ports[i] in ports;
        if ports[i].uuid in switch.row.ports && HasSubstring(ports[i].row.addresses, mac) {
          return true;
        }
      }
      return false;
    }

    method SetAddress(port: PortHandle, mac: string, ip: IpConfiguration) returns (r: Result<Uuid>)
      requires Valid(db)
      modifies this
      ensures Valid(db) && Outcome(db, r) == WithAddress(old(db), port, mac, ip)
    {
      if HasSubstring(port.addresses, mac) {
        return Ok(port.uuid);
      }
      var owner := FindLspOwner(port.uuid);
      if owner.Err? {
        return Err(owner.error);
      }
      var used := GetByMac(owner.value, mac);
      if used {
        return Err(MacConflict);
      }
      UpdateEffect(db, port.uuid, SetAddresses(AddressOf(mac, ip)));
      var _ := Transact(UpdateOps(port.uuid, SetAddresses(AddressOf(mac, ip))));
      r := Ok(port.uuid);
    }
  }

  /** Some row with the CIDR, if there is one. */
  method GetByCidr(ovn: Ovn, cidr: string) returns (r: Result<Uuid>)
    ensures r.Ok? ==> IsDhcp(ovn.db.rows, r.value, cidr)
    ensures r.Err? ==> r.error == NotFound && forall u :: !IsDhcp(ovn.db.rows, u, cidr)
  {
    var objects := ovn.ListObjects(DhcpOptions);
    for i := 0 to |objects|
      invariant forall j :: 0 <= j < i ==> objects[j].row.Dhcp? && objects[j].row.cidr != cidr
    {
      assert objects[i] in objects;
      if objects[i].row.cidr == cidr {
        return Ok(objects[i].uuid);
      }
    }
    r := Err(NotFound);
  }
}
