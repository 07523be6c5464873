/**
  What the OVN controllers leave in the database, by the fields of its rows: which address a NIC's port gets,
  which router an attachment names and with which address the two are joined, and in which order the dynamic
  addresses of a VM are listed.
 */
module OvnLaws {
  import opened Prelude
  import opened Ovsdb
  import opened OvnTransactions
  import opened OvnObjects
  import opened OvnConnect
  import opened Networks
  import K = Kube
  import P = VmPorts
  import V = VmOvn

  predicate SwitchNamed(rows: Rows, u: Uuid, name: string) {
    u in rows && rows[u].Switch? && rows[u].name == name
  }

  predicate LspNamed(rows: Rows, u: Uuid, name: string) {
    u in rows && rows[u].SwitchPort? && rows[u].name == name
  }

  predicate RouterNamed(rows: Rows, u: Uuid, name: string) {
    u in rows && rows[u].Router? && rows[u].name == name
  }

  predicate LrpNamed(rows: Rows, u: Uuid, name: string) {
    u in rows && rows[u].RouterPort? && rows[u].name == name
  }

  // The port of a NIC

  /** `t` stands somewhere in `s`. */
  ghost predicate Within(t: string, s: string) {
    exists a, b :: s == a + t + b
  }

  lemma ContainsIsWithin(s: string, t: string)
    ensures Contains(s, t) <==> Within(t, s)
  {
    if Contains(s, t) {
      var i :| At(s, t, i);
      assert s == s[..i] + t + s[i + |t|..];
    }
    if Within(t, s) {
      var a, b :| s == a + t + b;
      assert At(s, t, |a|);
    }
  }

  /** The switch of the name has a subnet. */
  ghost predicate HasSubnet(rows: Rows, sw: string) {
    exists s :: SwitchNamed(rows, s, sw) && "subnet" in rows[s].otherConfig
  }

  /** The addresses of the port mention the MAC, as every text does the empty one. */
  ghost predicate Mentions(rows: Rows, id: string, mac: string) {
    mac == "" || exists p :: LspNamed(rows, p, id) && Within(mac, rows[p].addresses)
  }

  /** The one port of the name has these addresses. */
  ghost predicate Addressed(rows: Rows, id: string, addresses: string) {
    exists p :: LspNamed(rows, p, id) && rows[p].addresses == addresses && forall q :: LspNamed(rows, q, id) ==> q == p
  }

  /** The addresses after a connect of which the port is known. */
  lemma PortAddresses(db: Db, key: K.Key, nic: K.Nic, dhcp: Result<Option<string>>, found: Option<Uuid>)
    returns (ls: Uuid, port: Uuid)
    requires Valid(db) && V.Found(db.rows, dhcp, found) && V.NicConnected(db, key, nic, dhcp, found).result.Ok?
    ensures V.HasPortId(nic) && nic.mac.Some? && SwitchNamed(db.rows, ls, key.namespace + "-" + nic.name.value)
    ensures var db' := V.NicConnected(db, key, nic, dhcp, found).db;
            var lsp := EnsurePort(db, ls, P.PortRow(nic.ovnId.value));
            && Valid(db') && LspNamed(db'.rows, port, nic.ovnId.value)
            && lsp.result == Ok(port) && LspNamed(lsp.db.rows, port, nic.ovnId.value)
            && Valid(lsp.db) && lsp.db.rows[port].addresses == V.OldAddresses(db.rows, nic.ovnId.value)
            && (if Contains(lsp.db.rows[port].addresses, nic.mac.value)
                then db'.rows[port].addresses == lsp.db.rows[port].addresses
                else db'.rows[port].addresses == AddressOf(nic.mac.value, V.IpOf(db.rows[ls])))
  {
    ls := Lookup(db.rows, LogicalSwitch, P.SwitchOf(key, nic)).value;
    var ip := V.IpOf(db.rows[ls]);
    V.PortAdded(db, ls, nic.ovnId.value);
    V.EnsuredAddresses(db, ls, nic.ovnId.value);
    var lsp := EnsurePort(db, ls, P.PortRow(nic.ovnId.value));
    port := lsp.result.value;
    V.AddressKeepsPorts(lsp.db, port, nic.mac.value, ip);
    AddressIsSet(lsp.db, port, nic.mac.value, ip);
    var addressed := AddressSet(lsp.db, port, nic.mac.value, ip).db;
    V.PortKeepsDhcp(db, ls, P.PortRow(nic.ovnId.value));
    V.AddressKeepsDhcp(lsp.db, PortHandle(port, lsp.db.rows[port].addresses), nic.mac.value, ip);
    V.FoundKept(db.rows, addressed.rows, dhcp, found);
    V.DhcpSet(addressed, port, dhcp.value, found);
    if dhcp.value.Some? {
      UpdateEffect(addressed, port, Patch.SetDhcp(found.value));
    }
  }

  lemma TheSwitch(db: Db, s: Uuid, sw: string)
    requires Valid(db) && SwitchNamed(db.rows, s, sw)
    ensures HasSubnet(db.rows, sw) <==> "subnet" in db.rows[s].otherConfig
  {
    forall u | SwitchNamed(db.rows, u, sw)
      ensures u == s
    {
      assert SameName(db.rows[u], db.rows[s]);
    }
  }

  lemma ThePort(db: Db, p: Uuid, id: string)
    requires Valid(db) && LspNamed(db.rows, p, id)
    ensures forall q :: LspNamed(db.rows, q, id) ==> q == p
  {
    forall q | LspNamed(db.rows, q, id)
      ensures q == p
    {
      assert SameName(db.rows[q], db.rows[p]);
    }
  }

  lemma MentionsIsContains(db: Db, id: string, mac: string)
    requires Valid(db)
    ensures Contains(V.OldAddresses(db.rows, id), mac) <==> Mentions(db.rows, id, mac)
    ensures forall p :: LspNamed(db.rows, p, id) ==> V.OldAddresses(db.rows, id) == db.rows[p].addresses
  {
    ContainsIsWithin(V.OldAddresses(db.rows, id), mac);
    var before := Lookup(db.rows, LogicalSwitchPort, id);
    if before.Some? {
      ThePort(db, before.value, id);
    } else {
      assert forall p :: LspNamed(db.rows, p, id) ==> IsNamed(db.rows, p, LogicalSwitchPort, id);
    }
    if mac == "" {
      assert At(V.OldAddresses(db.rows, id), mac, 0);
    }
  }

  /** The addresses in terms of the rows before. */
  lemma AddressesFollow(db: Db, db': Db, ls: Uuid, sw: string, port: Uuid, id: string, mac: string)
    requires Valid(db) && Valid(db') && SwitchNamed(db.rows, ls, sw) && LspNamed(db'.rows, port, id)
    requires db'.rows[port].addresses == if Contains(V.OldAddresses(db.rows, id), mac) then V.OldAddresses(db.rows, id)
                                         else AddressOf(mac, V.IpOf(db.rows[ls]))
    ensures if Mentions(db.rows, id, mac) then
              forall p :: LspNamed(db.rows, p, id) ==> Addressed(db'.rows, id, db.rows[p].addresses)
            else Addressed(db'.rows, id, if HasSubnet(db.rows, sw) then mac + " dynamic" else mac)
  {
    TheSwitch(db, ls, sw);
    ThePort(db', port, id);
    MentionsIsContains(db, id, mac);
  }

  /**
    Main result: a port that did not mention the MAC of its NIC gets the MAC, with the word `dynamic` after it
    exactly if the switch of the NIC has a subnet. A port that mentions it keeps its addresses.
   */
  lemma ConnectedAddresses(db: Db, key: K.Key, nic: K.Nic, dhcp: Result<Option<string>>, found: Option<Uuid>)
    requires Valid(db) && V.Found(db.rows, dhcp, found) && V.NicConnected(db, key, nic, dhcp, found).result.Ok?
    ensures nic.ovnId.Some? && nic.mac.Some? && nic.name.Some?
    ensures var rows' := V.NicConnected(db, key, nic, dhcp, found).db.rows;
            var id, mac := nic.ovnId.value, nic.mac.value;
            if Mentions(db.rows, id, mac) then
              forall p :: LspNamed(db.rows, p, id) ==> Addressed(rows', id, db.rows[p].addresses)
            else
              Addressed(rows', id,
                        if HasSubnet(db.rows, key.namespace + "-" + nic.name.value) then mac + " dynamic" else mac)
  {
    var ls, port := PortAddresses(db, key, nic, dhcp, found);
    AddressesFollow(db, V.NicConnected(db, key, nic, dhcp, found).db, ls, key.namespace + "-" + nic.name.value, port,
                    nic.ovnId.value, nic.mac.value);
  }

  /** Rows keep everything but the addresses and the DHCP options of port `p`. */
  ghost predicate OnlyServed(rows: Rows, rows': Rows, p: Uuid) {
    && rows'.Keys == rows.Keys && p in rows && rows[p].SwitchPort? && rows'[p].SwitchPort?
    && rows'[p] == rows[p].(addresses := rows'[p].addresses, dhcp := rows'[p].dhcp)
    && forall u :: u in rows && u != p ==> rows'[u] == rows[u]
  }

  lemma DhcpServes(db: Db, p: Uuid, dhcp: Result<Option<string>>, found: Option<Uuid>)
    requires Valid(db) && p in db.rows && db.rows[p].SwitchPort?
    ensures OnlyServed(db.rows, V.WithDhcp(db, p, dhcp, found).db.rows, p)
  {
    if dhcp.Ok? && dhcp.value.Some? && found.Some? {
      UpdateEffect(db, p, Patch.SetDhcp(found.value));
    }
  }

  lemma AddressServes(db: Db, p: Uuid, mac: string, ip: IpConfiguration)
    requires Valid(db) && p in db.rows && db.rows[p].SwitchPort? && AddressSet(db, p, mac, ip).result.Ok?
    ensures Valid(AddressSet(db, p, mac, ip).db) && OnlyServed(db.rows, AddressSet(db, p, mac, ip).db.rows, p)
  {
    AddressIsSet(db, p, mac, ip);
    AddressTwice(db, p, mac, ip);
  }

  /** The rows after a connect are those after its port was ensured, but for what serves the port. */
  lemma ConnectServes(db: Db, key: K.Key, nic: K.Nic, dhcp: Result<Option<string>>, found: Option<Uuid>,
      ls: Uuid, p: Uuid)
    requires Valid(db) && V.NicConnected(db, key, nic, dhcp, found).result.Ok?
    requires V.HasPortId(nic) && SwitchNamed(db.rows, ls, key.namespace + "-" + nic.name.value)
    requires EnsurePort(db, ls, P.PortRow(nic.ovnId.value)).result == Ok(p)
    ensures OnlyServed(EnsurePort(db, ls, P.PortRow(nic.ovnId.value)).db.rows,
                       V.NicConnected(db, key, nic, dhcp, found).db.rows, p)
  {
    LookupIs(db.rows, LogicalSwitch, P.SwitchOf(key, nic), ls);
    V.PortAdded(db, ls, nic.ovnId.value);
    var lsp := EnsurePort(db, ls, P.PortRow(nic.ovnId.value));
    var ip := V.IpOf(db.rows[ls]);
    AddressServes(lsp.db, p, nic.mac.value, ip);
    DhcpServes(AddressSet(lsp.db, p, nic.mac.value, ip).db, p, dhcp, found);
  }

  lemma EnsuredNicPort(db: Db, ls: Uuid, sw: string, id: string, p: Uuid)
    requires Valid(db) && SwitchNamed(db.rows, ls, sw) && forall q :: !LspNamed(db.rows, q, id)
    requires EnsurePort(db, ls, P.PortRow(id)).result == Ok(p)
    ensures var rows' := EnsurePort(db, ls, P.PortRow(id)).db.rows;
            && SwitchNamed(rows', ls, sw) && p in rows'[ls].ports && ls != p
            && p in rows' && rows'[p] == SwitchPort(id, "", "", map[], {})
  {
    assert forall q :: IsNamed(db.rows, q, LogicalSwitchPort, id) ==> LspNamed(db.rows, q, id);
    EnsurePortEffect(db, ls, P.PortRow(id));
  }

  /** Port `p` of the name is on switch `s`, with its options empty. */
  predicate PlainPortOn(rows: Rows, s: Uuid, p: Uuid, sw: string, id: string) {
    && SwitchNamed(rows, s, sw) && p in rows[s].ports && LspNamed(rows, p, id)
    && rows[p].kind == "" && rows[p].options == map[]
  }

  /** A new port is on the switch of its NIC, and has nothing but its address and its DHCP options. */
  lemma NewNicPort(db: Db, key: K.Key, nic: K.Nic, dhcp: Result<Option<string>>, found: Option<Uuid>)
    requires Valid(db) && V.Found(db.rows, dhcp, found) && V.NicConnected(db, key, nic, dhcp, found).result.Ok?
    requires nic.ovnId.Some? && forall p :: !LspNamed(db.rows, p, nic.ovnId.value)
    ensures nic.name.Some?
    ensures exists s, p ::
              PlainPortOn(V.NicConnected(db, key, nic, dhcp, found).db.rows, s, p, key.namespace + "-" + nic.name.value,
                          nic.ovnId.value)
  {
    var ls, port := PortAddresses(db, key, nic, dhcp, found);
    EnsuredNicPort(db, ls, key.namespace + "-" + nic.name.value, nic.ovnId.value, port);
    ConnectServes(db, key, nic, dhcp, found, ls, port);
    assert PlainPortOn(V.NicConnected(db, key, nic, dhcp, found).db.rows, ls, port,
                       key.namespace + "-" + nic.name.value, nic.ovnId.value);
  }

  // The network

  /** The switch of the network, with the subnet of its DHCP settings; without settings its columns are kept. */
  ghost predicate SwitchMade(rows: Rows, rows': Rows, spec: NetworkSpec) {
    exists s :: && SwitchNamed(rows', s, spec.ns + "-" + spec.name)
                && if spec.dhcp.Some? then rows'[s].otherConfig == map["subnet" := spec.dhcp.value.cidr]
                   else if s in rows then
                     SwitchNamed(rows, s, spec.ns + "-" + spec.name) && rows'[s].otherConfig == rows[s].otherConfig
                   else rows'[s].otherConfig == map[]
  }

  lemma SubnetFollows(rows: Rows, db': Db, spec: NetworkSpec)
    requires Valid(db') && SwitchMade(rows, db'.rows, spec)
    ensures spec.dhcp.Some? ==> HasSubnet(db'.rows, spec.ns + "-" + spec.name)
    ensures spec.dhcp.None? && (forall s :: !SwitchNamed(rows, s, spec.ns + "-" + spec.name)) ==>
              !HasSubnet(db'.rows, spec.ns + "-" + spec.name)
  {
    forall s | SwitchNamed(db'.rows, s, spec.ns + "-" + spec.name)
      ensures HasSubnet(db'.rows, spec.ns + "-" + spec.name) <==> "subnet" in db'.rows[s].otherConfig
    {
      TheSwitch(db', s, spec.ns + "-" + spec.name);
    }
  }

  lemma NetworkIsMade(db: Db, spec: NetworkSpec, found: Uuid)
    requires Valid(db) && Chosen(db, spec, found) && UpdatedNetwork(db, spec, found).result.Ok?
    ensures var db' := UpdatedNetwork(db, spec, found).db;
            && Valid(db') && SwitchMade(db.rows, db'.rows, spec)
            && (spec.dhcp.Some? ==>
                  && spec.dhcp.value.options.Some?
                  && found in db'.rows && db'.rows[found] == Dhcp(spec.dhcp.value.cidr, spec.dhcp.value.options.value))
  {
    var sw := SwitchName(spec);
    NetworkReady(db, spec, found);
    var db' := UpdatedNetwork(db, spec, found).db;
    SwitchMadeReady(db, spec, found);
    var s := Lookup(db'.rows, LogicalSwitch, sw).value;
    if spec.dhcp.None? {
      EnsureRootEffect(db, Switch(sw, {}, map[]));
      var created := EnsureRoot(db, Switch(sw, {}, map[])).db;
      AllAttachedGrows(created, spec.ns, sw, spec.routers);
      GrownLookup(created.rows, db'.rows, LogicalSwitch, sw);
      assert GrownRow(created.rows[s], db'.rows[s]);
    }
    assert SwitchNamed(db'.rows, s, spec.ns + "-" + spec.name);
  }

  /**
    Main result: over a reconcile of a network and a connect after it, a NIC of that network has a dynamic address
    if the network has DHCP settings, and one without the word if it has none and its switch is new.
   */
  lemma NetworkMakesDynamic(db: Db, spec: NetworkSpec, chosen: Uuid, nic: K.Nic, vm: string,
      dhcp: Result<Option<string>>, found: Option<Uuid>)
    requires Valid(db) && Chosen(db, spec, chosen) && UpdatedNetwork(db, spec, chosen).result.Ok?
    requires nic.name == Some(spec.name)
    requires var db' := UpdatedNetwork(db, spec, chosen).db;
             V.Found(db'.rows, dhcp, found) && V.NicConnected(db', K.Key(spec.ns, vm), nic, dhcp, found).result.Ok?
    ensures nic.ovnId.Some? && nic.mac.Some?
    ensures var db' := UpdatedNetwork(db, spec, chosen).db; var id, mac := nic.ovnId.value, nic.mac.value;
            var rows' := V.NicConnected(db', K.Key(spec.ns, vm), nic, dhcp, found).db.rows;
            !Mentions(db'.rows, id, mac) ==>
              && (spec.dhcp.Some? ==> Addressed(rows', id, mac + " dynamic"))
              && (spec.dhcp.None? && (forall s :: !SwitchNamed(db.rows, s, spec.ns + "-" + spec.name)) ==>
                    Addressed(rows', id, mac))
  {
    NetworkIsMade(db, spec, chosen);
    var db' := UpdatedNetwork(db, spec, chosen).db;
    ConnectedAddresses(db', K.Key(spec.ns, vm), nic, dhcp, found);
    SubnetFollows(db.rows, db', spec);
  }

  // The attachments of a network

  /** The router that `router` or `namespace/router` stands for. */
  ghost predicate Refers(ns: string, name: string, r: string) {
    || ('/' !in name && r == ns + "-" + name)
    || exists a, b :: '/' !in a && '/' !in b && name == a + "/" + b && r == a + "-" + b
  }

  lemma {:induction false} UntilStops(s: string, c: char)
    requires |Until(s, c)| < |s|
    ensures s[|Until(s, c)|] == c
  {
    if s[0] != c {
      UntilStops(s[1..], c);
    }
  }

  /** The parts of a split have no separator, and joined give the text back. */
  lemma {:induction false} SplitJoins(s: string, c: char)
    ensures Join(Split(s, c), [c]) == s && forall part :: part in Split(s, c) ==> c !in part
    decreases |s|
  {
    var head := Until(s, c);
    UntilIsPrefix(s, c);
    if |head| < |s| {
      UntilStops(s, c);
      var rest := s[|head| + 1..];
      SplitJoins(rest, c);
      assert s == head + [c] + rest;
      assert ([head] + Split(rest, c))[1..] == Split(rest, c);
    }
  }

  /** Parts without the separator are what a split of the joined text gives back. */
  lemma {:induction false} JoinSplits(parts: seq<string>, c: char)
    requires parts != [] && forall part :: part in parts ==> c !in part
    ensures Split(Join(parts, [c]), c) == parts
  {
    if |parts| == 1 {
      UntilSplits(parts[0], c, "");
      assert parts[0] + "" == parts[0];
    } else {
      JoinSplits(parts[1..], c);
      var rest := Join(parts[1..], [c]);
      UntilSplits(parts[0], c, [c] + rest);
      assert parts[0] + [c] + rest == parts[0] + ([c] + rest);
      assert Join(parts, [c])[|parts[0]| + 1..] == rest;
    }
  }

  lemma JoinFew(a: string, b: string, c: char)
    ensures Join([a], [c]) == a && Join([a, b], [c]) == a + [c] + b
  {
    assert [a, b][1..] == [b];
  }

  /** A text without the separator is its only part, and a text with one has the two parts around it. */
  lemma FewParts(name: string, c: char)
    ensures c !in name ==> Split(name, c) == [name]
    ensures |Split(name, c)| == 1 ==> c !in name && Split(name, c)[0] == name
    ensures var parts := Split(name, c);
            |parts| == 2 ==> c !in parts[0] && c !in parts[1] && name == parts[0] + [c] + parts[1]
  {
    SplitJoins(name, c);
    var parts := Split(name, c);
    if |parts| <= 2 {
      JoinFew(parts[0], parts[|parts| - 1], c);
      assert parts == if |parts| == 1 then [parts[0]] else [parts[0], parts[1]];
    }
    if c !in name {
      JoinSplits([name], c);
      JoinFew(name, "", c);
    }
  }

  lemma TwoParts(a: string, b: string, c: char)
    requires c !in a && c !in b
    ensures Split(a + [c] + b, c) == [a, b]
  {
    JoinFew(a, b, c);
    JoinSplits([a, b], c);
  }

  lemma RefIsReferred(ns: string, name: string, r: string)
    requires RouterRef(ns, name) == Some(r)
    ensures Refers(ns, name, r)
  {
    FewParts(name, '/');
    var parts := Split(name, '/');
    if |parts| == 2 {
      assert name == parts[0] + "/" + parts[1] && r == parts[0] + "-" + parts[1];
    }
  }

  lemma ReferredIsRef(ns: string, name: string, r: string)
    requires Refers(ns, name, r)
    ensures RouterRef(ns, name) == Some(r)
  {
    FewParts(name, '/');
    if '/' in name {
      var a, b :| '/' !in a && '/' !in b && name == a + "/" + b && r == a + "-" + b;
      TwoParts(a, b, '/');
    }
  }

  lemma RefersIsExact(ns: string, name: string, r: string)
    ensures RouterRef(ns, name) == Some(r) <==> Refers(ns, name, r)
  {
    if RouterRef(ns, name) == Some(r) {
      RefIsReferred(ns, name, r);
    }
    if Refers(ns, name, r) {
      ReferredIsRef(ns, name, r);
    }
  }

  lemma SamePortSameRouter(r: string, r': string, s: string)
    ensures LrpName(r, s) == LrpName(r', s) ==> r == r'
    ensures LspName(s, r) == LspName(s, r') ==> r == r'
  {
    assert LrpName(r, s) == "lr_" + r + ("_ls_" + s) && LrpName(r', s) == "lr_" + r' + ("_ls_" + s);
    if LrpName(r, s) == LrpName(r', s) {
      assert LrpName(r, s)[3..3 + |r|] == r && LrpName(r', s)[3..3 + |r'|] == r';
    }
    if LspName(s, r) == LspName(s, r') {
      assert LspName(s, r) == ("ls_" + s + "_lr_") + r && LspName(s, r') == ("ls_" + s + "_lr_") + r';
      assert LspName(s, r)[7 + |s|..] == r && LspName(s, r')[7 + |s|..] == r';
    }
  }

  ghost predicate AllResolve(rows: Rows, ns: string, sw: string, atts: seq<Attachment>) {
    forall att :: att in atts ==> Resolves(rows, ns, sw, att)
  }

  lemma {:induction false} NoneReaches(rows: Rows, ns: string, sw: string, atts: seq<Attachment>, r: string)
    requires forall att :: att in atts ==> RouterRef(ns, att.name) != Some(r)
    ensures LastAddress(rows, ns, sw, atts, LrpName(r, sw)).None?
  {
    if atts != [] && Resolves(rows, ns, sw, atts[0]) {
      NoneReaches(rows, ns, sw, atts[1..], r);
      assert atts[0] in atts;
      SamePortSameRouter(RouterRef(ns, atts[0].name).value, r, sw);
    }
  }

  lemma {:induction false} LastReaches(rows: Rows, ns: string, sw: string, atts: seq<Attachment>, i: nat, r: string)
    requires AllResolve(rows, ns, sw, atts) && i < |atts| && RouterRef(ns, atts[i].name) == Some(r)
    requires forall j :: i < j < |atts| ==> RouterRef(ns, atts[j].name) != Some(r)
    ensures LastAddress(rows, ns, sw, atts, LrpName(r, sw)) == Some(atts[i].address)
    decreases |atts|
  {
    assert atts[0] in atts;
    if i == 0 {
      NoneReaches(rows, ns, sw, atts[1..], r);
    } else {
      assert forall j :: i - 1 < j < |atts[1..]| ==> atts[1..][j] == atts[j + 1];
      LastReaches(rows, ns, sw, atts[1..], i - 1, r);
    }
  }

  lemma {:induction false} ReadyHasPorts(rows: Rows, ns: string, sw: string, atts: seq<Attachment>, i: nat)
    requires AllResolve(rows, ns, sw, atts) && PortsReady(rows, ns, sw, atts) && i < |atts|
    ensures RouterRef(ns, atts[i].name).Some? && HasPorts(rows, RouterRef(ns, atts[i].name).value, sw)
    decreases |atts|
  {
    assert atts[0] in atts;
    if i > 0 {
      ReadyHasPorts(rows, ns, sw, atts[1..], i - 1);
    }
  }

  /** The switch port of a pair on its switch, naming the router port. */
  ghost predicate IsLink(rows: Rows, q: Uuid, r: string, s: string) {
    && LspNamed(rows, q, "ls_" + s + "_lr_" + r) && rows[q].kind == "router" && rows[q].addresses == "router"
    && rows[q].options == map["router-port" := "lr_" + r + "_ls_" + s]
    && exists ls :: SwitchNamed(rows, ls, s) && q in rows[ls].ports
  }

  lemma EnsuredLink(db: Db, ls: Uuid, r: string, s: string, q: Uuid)
    requires Valid(db) && SwitchNamed(db.rows, ls, s)
    requires var rows' := EnsurePort(db, ls, LspRow(r, s)).db.rows; q in rows' && q !in db.rows
    ensures IsLink(EnsurePort(db, ls, LspRow(r, s)).db.rows, q, r, s)
  {
    EnsurePortEffect(db, ls, LspRow(r, s));
    var rows' := EnsurePort(db, ls, LspRow(r, s)).db.rows;
    assert SwitchNamed(rows', ls, s) && q in rows'[ls].ports;
  }

  lemma RouterSideMakesNoLsp(db: Db, lr: Uuid, row: Row, q: Uuid)
    requires Valid(db) && row.RouterPort?
    requires var rows' := EnsurePort(db, lr, row).db.rows; q in rows' && rows'[q].SwitchPort?
    ensures q in db.rows
  {
    EnsurePortEffect(db, lr, row);
  }

  lemma ConnectedMakesLink(db: Db, lr: Uuid, r: string, ls: Uuid, s: string, address: string, q: Uuid)
    requires Valid(db) && BothNamed(db.rows, lr, r, ls, s) && q !in db.rows
    requires var rows' := Connected(db, lr, r, ls, s, address).db.rows; q in rows' && rows'[q].SwitchPort?
    ensures IsLink(Connected(db, lr, r, ls, s, address).db.rows, q, r, s)
  {
    var p, updated := Halves(db, lr, r, ls, s, address);
    SwitchSide(updated, ls, r, s);
    if q in updated.rows {
      assert GrownRow(updated.rows[q], Connected(db, lr, r, ls, s, address).db.rows[q]);
      RouterSideMakesNoLsp(db, lr, LrpRow(r, s, address), q);
    } else {
      EnsuredLink(updated, ls, r, s, q);
    }
  }

  lemma LinkGrows(rows: Rows, rows': Rows, q: Uuid, r: string, s: string)
    requires IsLink(rows, q, r, s) && Grown(rows, rows')
    ensures IsLink(rows', q, r, s)
  {
    var ls :| SwitchNamed(rows, ls, s) && q in rows[ls].ports;
    assert GrownRow(rows[ls], rows'[ls]) && GrownRow(rows[q], rows'[q]);
    assert SwitchNamed(rows', ls, s) && q in rows'[ls].ports;
  }

  /** Every switch port the loop creates is the link of one of its attachments. */
  lemma {:induction false} LoopMakesLinks(db: Db, ns: string, sw: string, atts: seq<Attachment>, q: Uuid)
    requires Valid(db) && q !in db.rows
    requires var rows' := AllAttached(db, ns, sw, atts).db.rows; q in rows' && rows'[q].SwitchPort?
    ensures exists r :: IsLink(AllAttached(db, ns, sw, atts).db.rows, q, r, sw)
    decreases |atts|
  {
    if atts != [] {
      AttachedEffect(db, ns, sw, atts[0]);
      var o := Attached(db, ns, sw, atts[0]);
      if o.result.Ok? {
        AllAttachedGrows(o.db, ns, sw, atts[1..]);
        var rows' := AllAttached(o.db, ns, sw, atts[1..]).db.rows;
        if q in o.db.rows {
          assert GrownRow(o.db.rows[q], rows'[q]);
          var r := RouterRef(ns, atts[0].name).value;
          var lr, ls := Lookup(db.rows, LogicalRouter, r).value, Lookup(db.rows, LogicalSwitch, sw).value;
          ConnectedMakesLink(db, lr, r, ls, sw, atts[0].address, q);
          LinkGrows(o.db.rows, rows', q, r, sw);
        } else {
          LoopMakesLinks(o.db, ns, sw, atts[1..], q);
        }
      }
    }
  }

  predicate ConfiguredRow(a: Row, b: Row) {
    a == b || (a.Switch? && b.Switch?) || (a.Dhcp? && b.Dhcp?)
  }

  /** No row but those of switches and DHCP options is new or changed. */
  ghost predicate OnlyConfigured(rows: Rows, rows': Rows) {
    && (forall u :: u in rows ==> u in rows' && ConfiguredRow(rows[u], rows'[u]))
    && (forall u :: u in rows' && u !in rows ==> rows'[u].Switch? || rows'[u].Dhcp?)
  }

  lemma ConfiguredTwice(a: Rows, b: Rows, c: Rows)
    requires OnlyConfigured(a, b) && OnlyConfigured(b, c)
    ensures OnlyConfigured(a, c)
  {
    forall u | u in a
      ensures u in c && ConfiguredRow(a[u], c[u])
    {
      assert u in b && ConfiguredRow(b[u], c[u]);
    }
  }

  lemma ColumnConfigures(db: Db, u: Uuid, patch: Patch)
    requires Valid(db) && Hits(db.rows, PatchTable(patch), u) && (patch.SetDhcpOptions? || patch.SetOtherConfig?)
    ensures Valid(Commit(db, UpdateOps(u, patch)))
    ensures OnlyConfigured(db.rows, Commit(db, UpdateOps(u, patch)).rows)
  {
    ColumnUpdate(db, u, patch);
  }

  lemma DhcpRowConfigures(db: Db, cidr: string)
    requires Valid(db)
    ensures Valid(DhcpRow(db, cidr)) && OnlyConfigured(db.rows, DhcpRow(db, cidr).rows)
  {
    DhcpRowEffect(db, cidr);
    if !HasDhcp(db.rows, cidr) {
      InsertRootEffect(db, Dhcp(cidr, map[]));
    }
  }

  lemma DhcpConfigures(db: Db, sw: string, dhcp: DhcpSpec, found: Uuid)
    requires Valid(db) && IsDhcp(DhcpRow(db, dhcp.cidr).rows, found, dhcp.cidr)
    ensures OnlyConfigured(db.rows, EnsuredDhcp(db, sw, dhcp, found).db.rows)
  {
    DhcpRowConfigures(db, dhcp.cidr);
    var created := DhcpRow(db, dhcp.cidr);
    if dhcp.options.Some? {
      ColumnConfigures(created, found, SetDhcpOptions(dhcp.options.value));
      var configured := Commit(created, UpdateOps(found, SetDhcpOptions(dhcp.options.value)));
      ConfiguredTwice(db.rows, created.rows, configured.rows);
      var ls := Lookup(configured.rows, LogicalSwitch, sw);
      if ls.Some? {
        var patch := SetOtherConfig(SubnetConfig(dhcp.cidr));
        ColumnConfigures(configured, ls.value, patch);
        ConfiguredTwice(db.rows, configured.rows, Commit(configured, UpdateOps(ls.value, patch)).rows);
      }
    }
  }

  lemma SwitchCreated(db: Db, sw: string)
    requires Valid(db)
    ensures var o := EnsureRoot(db, Switch(sw, {}, map[])); Valid(o.db) && OnlyConfigured(db.rows, o.db.rows)
  {
    EnsureRootEffect(db, Switch(sw, {}, map[]));
  }

  /** The steps before the attachments create and change no port and no router. */
  lemma SwitchConfigures(db: Db, spec: NetworkSpec, found: Uuid)
    requires Valid(db) && Chosen(db, spec, found)
    ensures OnlyConfigured(db.rows, SwitchAndDhcp(db, spec, found).db.rows)
  {
    SwitchCreated(db, SwitchName(spec));
    if spec.dhcp.Some? {
      var created := EnsureRoot(db, Switch(SwitchName(spec), {}, map[])).db;
      DhcpConfigures(created, SwitchName(spec), spec.dhcp.value, found);
      ConfiguredTwice(db.rows, created.rows, SwitchAndDhcp(db, spec, found).db.rows);
    }
  }

  /** Router and switch are joined: a router port with the address, and a switch port that is as before or names it. */
  ghost predicate Joined(rows: Rows, rows': Rows, p: Uuid, q: Uuid, r: string, s: string, address: string) {
    && LrpNamed(rows', p, "lr_" + r + "_ls_" + s) && rows'[p].mac == "02:00:00:00:00:01" && rows'[p].networks == address
    && LspNamed(rows', q, "ls_" + s + "_lr_" + r)
    && if LspNamed(rows, q, "ls_" + s + "_lr_" + r) then rows'[q] == rows[q] else IsLink(rows', q, r, s)
  }

  lemma NewLspIsLink(db: Db, spec: NetworkSpec, found: Uuid, q: Uuid, r: string)
    requires Valid(db) && Chosen(db, spec, found) && UpdatedNetwork(db, spec, found).result.Ok?
    requires LspNamed(UpdatedNetwork(db, spec, found).db.rows, q, LspName(SwitchName(spec), r))
    ensures var rows' := UpdatedNetwork(db, spec, found).db.rows;
            if LspNamed(db.rows, q, LspName(SwitchName(spec), r)) then rows'[q] == db.rows[q]
            else IsLink(rows', q, r, SwitchName(spec))
  {
    SwitchMadeReady(db, spec, found);
    var first := SwitchAndDhcp(db, spec, found).db;
    var rows' := AllAttached(first, spec.ns, SwitchName(spec), spec.routers).db.rows;
    AllAttachedGrows(first, spec.ns, SwitchName(spec), spec.routers);
    SwitchConfigures(db, spec, found);
    if q in first.rows {
      assert GrownRow(first.rows[q], rows'[q]);
      assert q in db.rows ==> ConfiguredRow(db.rows[q], first.rows[q]);
    } else {
      LoopMakesLinks(first, spec.ns, SwitchName(spec), spec.routers, q);
      var r' :| IsLink(rows', q, r', SwitchName(spec));
      SamePortSameRouter(r, r', SwitchName(spec));
    }
  }

  lemma LastIsJoined(db: Db, spec: NetworkSpec, found: Uuid, i: nat, r: string) returns (p: Uuid, q: Uuid)
    requires Valid(db) && Chosen(db, spec, found) && UpdatedNetwork(db, spec, found).result.Ok? && i < |spec.routers|
    requires Refers(spec.ns, spec.routers[i].name, r)
    requires forall j :: i < j < |spec.routers| ==> !Refers(spec.ns, spec.routers[j].name, r)
    ensures Joined(db.rows, UpdatedNetwork(db, spec, found).db.rows, p, q, r, spec.ns + "-" + spec.name,
                   spec.routers[i].address)
  {
    var rows' := UpdatedNetwork(db, spec, found).db.rows;
    var sw := SwitchName(spec);
    NetworkReconciled(db, spec, found);
    RefersIsExact(spec.ns, spec.routers[i].name, r);
    forall j | i < j < |spec.routers|
      ensures RouterRef(spec.ns, spec.routers[j].name) != Some(r)
    {
      RefersIsExact(spec.ns, spec.routers[j].name, r);
    }
    LastReaches(rows', spec.ns, sw, spec.routers, i, r);
    ReadyHasPorts(rows', spec.ns, sw, spec.routers, i);
    assert LastAddress(rows', spec.ns, sw, spec.routers, LrpName(r, sw)).Some?;
    p := Lookup(rows', LogicalRouterPort, LrpName(r, sw)).value;
    q := Lookup(rows', LogicalSwitchPort, LspName(sw, r)).value;
    NewLspIsLink(db, spec, found, q, r);
  }

  /** The attachment refers to router `r`, which exists and is joined if no later attachment refers to it. */
  ghost predicate AttachmentMade(rows: Rows, rows': Rows, spec: NetworkSpec, i: nat, r: string)
    requires i < |spec.routers|
  {
    && Refers(spec.ns, spec.routers[i].name, r) && (exists lr :: RouterNamed(rows', lr, r))
    && ((forall j :: i < j < |spec.routers| ==> !Refers(spec.ns, spec.routers[j].name, r)) ==>
          exists p, q :: Joined(rows, rows', p, q, r, spec.ns + "-" + spec.name, spec.routers[i].address))
  }

  lemma AttachmentResolves(db: Db, spec: NetworkSpec, found: Uuid, i: nat) returns (r: string)
    requires Valid(db) && Chosen(db, spec, found) && UpdatedNetwork(db, spec, found).result.Ok? && i < |spec.routers|
    ensures Refers(spec.ns, spec.routers[i].name, r)
    ensures exists lr :: RouterNamed(UpdatedNetwork(db, spec, found).db.rows, lr, r)
  {
    var rows' := UpdatedNetwork(db, spec, found).db.rows;
    NetworkReconciled(db, spec, found);
    assert spec.routers[i] in spec.routers && Resolves(rows', spec.ns, SwitchName(spec), spec.routers[i]);
    r := RouterRef(spec.ns, spec.routers[i].name).value;
    RefersIsExact(spec.ns, spec.routers[i].name, r);
    assert RouterNamed(rows', Lookup(rows', LogicalRouter, r).value, r);
  }

  /**
    Main result: after a reconcile without an error the router of every attachment exists and is joined to the switch
    of the network, with the address of the last attachment that refers to it.
   */
  lemma AttachmentsAreMade(db: Db, spec: NetworkSpec, found: Uuid, i: nat)
    requires Valid(db) && Chosen(db, spec, found) && UpdatedNetwork(db, spec, found).result.Ok? && i < |spec.routers|
    ensures exists r :: AttachmentMade(db.rows, UpdatedNetwork(db, spec, found).db.rows, spec, i, r)
  {
    var r := AttachmentResolves(db, spec, found, i);
    if forall j :: i < j < |spec.routers| ==> !Refers(spec.ns, spec.routers[j].name, r) {
      var p, q := LastIsJoined(db, spec, found, i, r);
    }
    assert AttachmentMade(db.rows, UpdatedNetwork(db, spec, found).db.rows, spec, i, r);
  }

  lemma {:induction false} AllSucceed(db: Db, ns: string, sw: string, atts: seq<Attachment>)
    requires Valid(db)
    ensures AllAttached(db, ns, sw, atts).result.Ok? <==> AllResolve(db.rows, ns, sw, atts)
    decreases |atts|
  {
    if atts != [] {
      AttachedEffect(db, ns, sw, atts[0]);
      var o := Attached(db, ns, sw, atts[0]);
      assert atts[0] in atts;
      if o.result.Ok? {
        AllSucceed(o.db, ns, sw, atts[1..]);
        forall att
          ensures Resolves(o.db.rows, ns, sw, att) <==> Resolves(db.rows, ns, sw, att)
        {
          ResolvesKept(db.rows, o.db.rows, ns, sw, att);
        }
        assert forall att :: att in atts <==> att == atts[0] || att in atts[1..];
      }
    }
  }

  /** Routers are the same rows. */
  ghost predicate SameRouters(rows: Rows, rows': Rows) {
    forall u, r :: RouterNamed(rows', u, r) <==> RouterNamed(rows, u, r)
  }

  lemma ConfiguredKeepsRouters(rows: Rows, rows': Rows)
    requires OnlyConfigured(rows, rows')
    ensures SameRouters(rows, rows')
  {
    forall u, r
      ensures RouterNamed(rows', u, r) <==> RouterNamed(rows, u, r)
    {
      assert u in rows ==> u in rows' && ConfiguredRow(rows[u], rows'[u]);
    }
  }

  /** The router that the attachment refers to exists. */
  ghost predicate RefersToOne(rows: Rows, ns: string, name: string) {
    exists r, lr :: Refers(ns, name, r) && RouterNamed(rows, lr, r)
  }

  lemma ResolvesIsExact(rows: Rows, ns: string, sw: string, att: Attachment)
    requires Lookup(rows, LogicalSwitch, sw).Some?
    ensures Resolves(rows, ns, sw, att) <==> RefersToOne(rows, ns, att.name)
  {
    var name := RouterRef(ns, att.name);
    if name.Some? {
      RefersIsExact(ns, att.name, name.value);
      var lr := Lookup(rows, LogicalRouter, name.value);
      assert lr.Some? ==> RouterNamed(rows, lr.value, name.value);
    }
    forall r, lr | Refers(ns, att.name, r) && RouterNamed(rows, lr, r)
      ensures Resolves(rows, ns, sw, att)
    {
      RefersIsExact(ns, att.name, r);
      assert IsNamed(rows, lr, LogicalRouter, r);
    }
  }

  lemma SameReference(rows: Rows, rows': Rows, ns: string, name: string)
    requires SameRouters(rows, rows')
    ensures RefersToOne(rows', ns, name) <==> RefersToOne(rows, ns, name)
  {
    forall r, lr
      ensures RouterNamed(rows', lr, r) <==> RouterNamed(rows, lr, r)
    {
    }
  }

  /**
    Main result: a reconcile ends without an error exactly if the CIDR of its DHCP settings is one, and every
    attachment refers to a router that exists.
   */
  lemma NetworkSucceedsExactly(db: Db, spec: NetworkSpec, found: Uuid)
    requires Valid(db) && Chosen(db, spec, found)
    ensures UpdatedNetwork(db, spec, found).result.Ok? <==>
              && (spec.dhcp.Some? ==> spec.dhcp.value.options.Some?)
              && forall att :: att in spec.routers ==> RefersToOne(db.rows, spec.ns, att.name)
  {
    SwitchMadeReady(db, spec, found);
    var first := SwitchAndDhcp(db, spec, found).db;
    AllSucceed(first, spec.ns, SwitchName(spec), spec.routers);
    SwitchConfigures(db, spec, found);
    ConfiguredKeepsRouters(db.rows, first.rows);
    forall att
      ensures Resolves(first.rows, spec.ns, SwitchName(spec), att) <==> RefersToOne(db.rows, spec.ns, att.name)
    {
      ResolvesIsExact(first.rows, spec.ns, SwitchName(spec), att);
      SameReference(db.rows, first.rows, spec.ns, att.name);
    }
  }

  // The NICs of a VM

  predicate IsSwitch(rows: Rows, u: Uuid) {
    u in rows && rows[u].Switch?
  }

  predicate IsOtherPort(rows: Rows, u: Uuid, id: string) {
    u in rows && rows[u].SwitchPort? && rows[u].name != id
  }

  /** Row `u` is kept if it is a switch, or a switch port with another name than `id`; none of these is new. */
  predicate KeptRow(rows: Rows, rows': Rows, u: Uuid, id: string) {
    && (IsSwitch(rows', u) <==> IsSwitch(rows, u))
    && (IsSwitch(rows, u) && IsSwitch(rows', u) ==>
          rows'[u].name == rows[u].name && rows'[u].otherConfig == rows[u].otherConfig)
    && (IsOtherPort(rows', u, id) <==> IsOtherPort(rows, u, id))
    && (IsOtherPort(rows, u, id) && IsOtherPort(rows', u, id) ==>
          rows'[u].name == rows[u].name && rows'[u].addresses == rows[u].addresses)
  }

  ghost predicate OtherPortsKept(rows: Rows, rows': Rows, id: string) {
    forall u :: KeptRow(rows, rows', u, id)
  }

  lemma NewPortKeepsOther(db: Db, ls: Uuid, id: string, u: Uuid)
    requires Valid(db)
    ensures KeptRow(db.rows, WithNewPort(db, ls, P.PortRow(id)).rows, u, id)
  {
  }

  lemma EnsuredKeepsRow(db: Db, ls: Uuid, id: string, u: Uuid)
    requires Valid(db)
    ensures KeptRow(db.rows, EnsurePort(db, ls, P.PortRow(id)).db.rows, u, id)
  {
    EnsurePortEffect(db, ls, P.PortRow(id));
    NewPortKeepsOther(db, ls, id, u);
  }

  lemma EnsuredKeepsOthers(db: Db, ls: Uuid, id: string)
    requires Valid(db)
    ensures OtherPortsKept(db.rows, EnsurePort(db, ls, P.PortRow(id)).db.rows, id)
  {
    forall u
      ensures KeptRow(db.rows, EnsurePort(db, ls, P.PortRow(id)).db.rows, u, id)
    {
      EnsuredKeepsRow(db, ls, id, u);
    }
  }

  lemma ServedKeepsOthers(rows: Rows, rows': Rows, rows'': Rows, p: Uuid, id: string)
    requires OtherPortsKept(rows, rows', id) && OnlyServed(rows', rows'', p) && LspNamed(rows', p, id)
    ensures OtherPortsKept(rows, rows'', id)
  {
    forall u
      ensures KeptRow(rows, rows'', u, id)
    {
      assert KeptRow(rows, rows', u, id);
    }
  }

  lemma ConnectKeepsOthers(db: Db, key: K.Key, nic: K.Nic, dhcp: Result<Option<string>>, found: Option<Uuid>)
    requires Valid(db) && V.Found(db.rows, dhcp, found) && V.NicConnected(db, key, nic, dhcp, found).result.Ok?
    ensures nic.ovnId.Some?
    ensures OtherPortsKept(db.rows, V.NicConnected(db, key, nic, dhcp, found).db.rows, nic.ovnId.value)
  {
    var ls, port := PortAddresses(db, key, nic, dhcp, found);
    EnsuredKeepsOthers(db, ls, nic.ovnId.value);
    ConnectServes(db, key, nic, dhcp, found, ls, port);
    ServedKeepsOthers(db.rows, EnsurePort(db, ls, P.PortRow(nic.ovnId.value)).db.rows,
                      V.NicConnected(db, key, nic, dhcp, found).db.rows, port, nic.ovnId.value);
  }

  lemma OthersKeepMentions(rows: Rows, rows': Rows, id: string, other: string, mac: string)
    requires OtherPortsKept(rows, rows', id) && other != id
    ensures forall p :: LspNamed(rows', p, other) <==> LspNamed(rows, p, other)
    ensures forall p :: LspNamed(rows, p, other) && LspNamed(rows', p, other) ==>
              rows'[p].addresses == rows[p].addresses
    ensures Mentions(rows', other, mac) <==> Mentions(rows, other, mac)
    ensures forall addresses :: Addressed(rows, other, addresses) ==> Addressed(rows', other, addresses)
  {
    forall p
      ensures LspNamed(rows', p, other) <==> LspNamed(rows, p, other)
      ensures LspNamed(rows, p, other) ==> rows'[p].addresses == rows[p].addresses
    {
      assert KeptRow(rows, rows', p, id);
    }
  }

  lemma OthersKeepSubnet(rows: Rows, rows': Rows, id: string, sw: string)
    requires OtherPortsKept(rows, rows', id)
    ensures HasSubnet(rows', sw) <==> HasSubnet(rows, sw)
  {
    forall s
      ensures SwitchNamed(rows', s, sw) <==> SwitchNamed(rows, s, sw)
      ensures SwitchNamed(rows, s, sw) ==> rows'[s].otherConfig == rows[s].otherConfig
    {
      assert KeptRow(rows, rows', s, id);
    }
  }

  /** No two NICs of the list have one port id. */
  predicate DistinctIds(nics: seq<K.Nic>) {
    forall i, j :: 0 <= i < j < |nics| && nics[i].ovnId.Some? ==> nics[i].ovnId != nics[j].ovnId
  }

  /** The port of the NIC has the MAC, and an address if the switch has a subnet, unless it mentioned the MAC before. */
  ghost predicate NicServed(rows: Rows, rows': Rows, key: K.Key, nic: K.Nic) {
    && nic.ovnId.Some? && nic.mac.Some? && nic.name.Some?
    && if Mentions(rows, nic.ovnId.value, nic.mac.value) then
         forall p :: LspNamed(rows, p, nic.ovnId.value) ==> Addressed(rows', nic.ovnId.value, rows[p].addresses)
       else
         Addressed(rows', nic.ovnId.value,
                   if HasSubnet(rows, key.namespace + "-" + nic.name.value) then nic.mac.value + " dynamic"
                   else nic.mac.value)
  }

  lemma ServedStays(rows: Rows, rows': Rows, rows'': Rows, key: K.Key, nic: K.Nic, id: string)
    requires NicServed(rows, rows', key, nic) && OtherPortsKept(rows', rows'', id) && nic.ovnId.value != id
    ensures NicServed(rows, rows'', key, nic)
  {
    OthersKeepMentions(rows', rows'', id, nic.ovnId.value, nic.mac.value);
  }

  /** What the ports and subnets of the NICs still to be connected look like is as at the start. */
  ghost predicate Untouched(rows: Rows, rows': Rows, done: seq<K.Nic>) {
    && (forall id, mac :: (forall n :: n in done ==> n.ovnId != Some(id)) ==>
          (Mentions(rows', id, mac) <==> Mentions(rows, id, mac)))
    && (forall id, p :: (forall n :: n in done ==> n.ovnId != Some(id)) && LspNamed(rows, p, id) ==>
          LspNamed(rows', p, id) && rows'[p].addresses == rows[p].addresses)
    && forall sw :: HasSubnet(rows', sw) <==> HasSubnet(rows, sw)
  }

  lemma ServedFromStart(rows: Rows, mid: Rows, rows': Rows, key: K.Key, nic: K.Nic, done: seq<K.Nic>)
    requires Untouched(rows, mid, done) && NicServed(mid, rows', key, nic)
    requires forall n :: n in done ==> n.ovnId != nic.ovnId
    ensures NicServed(rows, rows', key, nic)
  {
    var id, mac := nic.ovnId.value, nic.mac.value;
    assert Mentions(mid, id, mac) <==> Mentions(rows, id, mac);
  }

  lemma UntouchedStays(rows: Rows, mid: Rows, rows': Rows, done: seq<K.Nic>, nic: K.Nic)
    requires Untouched(rows, mid, done) && nic.ovnId.Some? && OtherPortsKept(mid, rows', nic.ovnId.value)
    ensures Untouched(rows, rows', done + [nic])
  {
    forall id, mac | forall n :: n in done + [nic] ==> n.ovnId != Some(id)
      ensures Mentions(rows', id, mac) <==> Mentions(rows, id, mac)
    {
      assert nic in done + [nic] && forall n :: n in done ==> n in done + [nic];
      OthersKeepMentions(mid, rows', nic.ovnId.value, id, mac);
    }
    forall id, p | (forall n :: n in done + [nic] ==> n.ovnId != Some(id)) && LspNamed(rows, p, id)
      ensures LspNamed(rows', p, id) && rows'[p].addresses == rows[p].addresses
    {
      assert nic in done + [nic] && forall n :: n in done ==> n in done + [nic];
      assert LspNamed(mid, p, id);
      OthersKeepMentions(mid, rows', nic.ovnId.value, id, "");
    }
    forall sw
      ensures HasSubnet(rows', sw) <==> HasSubnet(rows, sw)
    {
      OthersKeepSubnet(mid, rows', nic.ovnId.value, sw);
    }
  }

  lemma ConnectIsServed(db: Db, key: K.Key, nic: K.Nic, dhcp: Result<Option<string>>, db': Db)
    requires Valid(db) && V.Connects(db, key, nic, dhcp, Outcome(db', Ok(())))
    ensures NicServed(db.rows, db'.rows, key, nic) && OtherPortsKept(db.rows, db'.rows, nic.ovnId.value)
  {
    var found :| V.Found(db.rows, dhcp, found) && V.NicConnected(db, key, nic, dhcp, found) == Outcome(db', Ok(()));
    ConnectedAddresses(db, key, nic, dhcp, found);
    ConnectKeepsOthers(db, key, nic, dhcp, found);
  }

  ghost predicate AllServed(rows: Rows, rows': Rows, key: K.Key, nics: seq<K.Nic>) {
    forall i :: 0 <= i < |nics| ==> NicServed(rows, rows', key, nics[i])
  }

  ghost predicate ServedSoFar(rows: Rows, rows': Rows, key: K.Key, nics: seq<K.Nic>) {
    AllServed(rows, rows', key, nics) && Untouched(rows, rows', nics)
  }

  lemma LastIsServed(rows: Rows, mid: Rows, rows': Rows, key: K.Key, nics: seq<K.Nic>)
    requires nics != [] && DistinctIds(nics)
    requires ServedSoFar(rows, mid, key, nics[..|nics| - 1])
    requires NicServed(mid, rows', key, nics[|nics| - 1])
    requires OtherPortsKept(mid, rows', nics[|nics| - 1].ovnId.value)
    ensures ServedSoFar(rows, rows', key, nics)
  {
    var n := |nics| - 1;
    var done, nic := nics[..n], nics[n];
    assert nics == done + [nic];
    UntouchedStays(rows, mid, rows', done, nic);
    ServedFromStart(rows, mid, rows', key, nic, done);
    forall i | 0 <= i < n
      ensures NicServed(rows, rows', key, nics[i])
    {
      assert done[i] == nics[i] && NicServed(rows, mid, key, done[i]);
      ServedStays(rows, mid, rows', key, nics[i], nic.ovnId.value);
    }
  }

  lemma NoneServed(rows: Rows, key: K.Key)
    ensures ServedSoFar(rows, rows, key, [])
  {
  }

  lemma PrefixDistinct(nics: seq<K.Nic>, n: nat)
    requires DistinctIds(nics) && n <= |nics|
    ensures DistinctIds(nics[..n])
  {
  }

  lemma BeforeLast(db: Db, key: K.Key, nics: seq<K.Nic>, dhcp: K.Nic -> Result<Option<string>>, db': Db)
    returns (mid: Db)
    requires V.AllConnected(db, key, nics, dhcp, db') && nics != []
    ensures Valid(mid) && V.AllConnected(db, key, nics[..|nics| - 1], dhcp, mid)
    ensures V.Connects(mid, key, nics[|nics| - 1], dhcp(nics[|nics| - 1]), Outcome(db', Ok(())))
  {
    var i := |nics| - 1;
    mid :| Valid(mid) && V.AllConnected(db, key, nics[..i], dhcp, mid)
           && V.Connects(mid, key, nics[i], dhcp(nics[i]), Outcome(db', Ok(())));
  }

  /**
    Main result: a VM whose NICs were connected without an error has a port for every NIC, each with the MAC of the
    NIC, and dynamic exactly if its switch has a subnet; a port that mentioned the MAC is as it was.
   */
  lemma {:induction false} AllAreServed(db: Db, key: K.Key, nics: seq<K.Nic>, dhcp: K.Nic -> Result<Option<string>>,
      db': Db)
    requires Valid(db) && V.AllConnected(db, key, nics, dhcp, db') && DistinctIds(nics)
    ensures ServedSoFar(db.rows, db'.rows, key, nics)
    decreases |nics|
  {
    if nics == [] {
      NoneServed(db.rows, key);
    } else {
      var n := |nics| - 1;
      PrefixDistinct(nics, n);
      var mid := BeforeLast(db, key, nics, dhcp, db');
      AllAreServed(db, key, nics[..n], dhcp, mid);
      ConnectIsServed(mid, key, nics[n], dhcp(nics[n]), db');
      LastIsServed(db.rows, mid.rows, db'.rows, key, nics);
    }
  }

  /** The finalizer of the OVN controller, which it puts on before it connects and takes off after it disconnected. */
  lemma OvnFinalizerIs(vm: K.Vm)
    ensures P.HasOvn(vm) <==> "cluster-virt.acl.fi/ovn" in vm.finalizers
    ensures P.HasOvn(K.WithFinalizer(vm, "cluster-virt.acl.fi/ovn"))
    ensures !P.HasOvn(K.WithoutFinalizer(vm, "cluster-virt.acl.fi/ovn"))
  {
    assert P.OvnFinalizer() == "cluster-virt.acl.fi/ovn";
  }

  // The addresses of a VM

  /** The address that OVN has assigned to the port of the i-th NIC. */
  function AssignedIp(nics: seq<K.Nic>, dynamicIp: string -> Option<string>, i: nat): Option<string>
    requires i < |nics|
  {
    if nics[i].ovnId.Some? then dynamicIp(nics[i].ovnId.value) else None
  }

  /** How many of the first `n` NICs have an address. */
  ghost function CountIps(nics: seq<K.Nic>, dynamicIp: string -> Option<string>, n: nat): nat
    requires n <= |nics|
  {
    if n == 0 then 0
    else CountIps(nics, dynamicIp, n - 1) + if AssignedIp(nics, dynamicIp, n - 1).Some? then 1 else 0
  }

  lemma {:induction false} IpsAppend(nics: seq<K.Nic>, dynamicIp: string -> Option<string>, n: nat)
    requires n < |nics|
    ensures V.DynamicIps(nics[..n + 1], dynamicIp) ==
              V.DynamicIps(nics[..n], dynamicIp)
              + if AssignedIp(nics, dynamicIp, n).Some? then [AssignedIp(nics, dynamicIp, n).value] else []
  {
    assert nics[..n + 1] == nics[..n] + [nics[n]] && [nics[n]][1..] == [];
    V.DynamicIpsAppend(nics[..n], nics[n], dynamicIp);
  }

  /** One entry for each of the first `n` NICs with an address, in the order of the NICs. */
  ghost predicate InOrder(ips: seq<string>, nics: seq<K.Nic>, dynamicIp: string -> Option<string>, n: nat)
    requires n <= |nics|
  {
    && |ips| == CountIps(nics, dynamicIp, n)
    && forall i: nat :: i < n && AssignedIp(nics, dynamicIp, i).Some? ==>
         var k := CountIps(nics, dynamicIp, i); k < |ips| && ips[k] == AssignedIp(nics, dynamicIp, i).value
  }

  lemma OneMoreInOrder(ips: seq<string>, nics: seq<K.Nic>, dynamicIp: string -> Option<string>, n: nat)
    requires n < |nics| && InOrder(ips, nics, dynamicIp, n)
    ensures var ip := AssignedIp(nics, dynamicIp, n);
            InOrder(ips + if ip.Some? then [ip.value] else [], nics, dynamicIp, n + 1)
  {
  }

  lemma {:induction false} IpsAreInOrder(nics: seq<K.Nic>, dynamicIp: string -> Option<string>, n: nat)
    requires n <= |nics|
    ensures InOrder(V.DynamicIps(nics[..n], dynamicIp), nics, dynamicIp, n)
  {
    if n == 0 {
      assert nics[..0] == [];
    } else {
      IpsAreInOrder(nics, dynamicIp, n - 1);
      IpsAppend(nics, dynamicIp, n - 1);
      OneMoreInOrder(V.DynamicIps(nics[..n - 1], dynamicIp), nics, dynamicIp, n - 1);
    }
  }

  /** NICs without a port have no address. */
  lemma {:induction false} OvnNicsHaveIps(nics: seq<K.Nic>, dynamicIp: string -> Option<string>, hasPort: K.Nic -> bool)
    requires forall n :: hasPort(n) <==> n.ovnId.Some?
    ensures V.DynamicIps(Retain(nics, hasPort), dynamicIp) == V.DynamicIps(nics, dynamicIp)
  {
    if nics != [] {
      OvnNicsHaveIps(nics[1..], dynamicIp, hasPort);
      var rest := Retain(nics[1..], hasPort);
      if hasPort(nics[0]) {
        assert ([nics[0]] + rest)[1..] == rest;
      } else {
        assert Retain(nics, hasPort) == rest;
      }
    }
  }

  lemma IpsOfStatus(vm: K.Vm, dynamicIp: string -> Option<string>) returns (ips: seq<string>)
    requires vm.status.Some?
    ensures ips == V.DynamicIps(P.OvnNics(vm), dynamicIp)
    ensures InOrder(ips, vm.status.value.networks, dynamicIp, |vm.status.value.networks|)
  {
    var nics := vm.status.value.networks;
    OvnNicsHaveIps(nics, dynamicIp, (n: K.Nic) => n.ovnId.Some?);
    IpsAreInOrder(nics, dynamicIp, |nics|);
    assert nics[..|nics|] == nics;
    ips := V.DynamicIps(nics, dynamicIp);
  }

  /** The text lists the addresses between commas. */
  ghost predicate IsListText(text: string, ips: seq<string>) {
    && (ips == [] ==> text == "")
    && (ips != [] && (forall ip :: ip in ips ==> ',' !in ip) ==> Split(text, ',') == ips)
  }

  lemma JoinIsListText(ips: seq<string>)
    ensures IsListText(Join(ips, ","), ips)
  {
    if ips != [] && forall ip :: ip in ips ==> ',' !in ip {
      JoinSplits(ips, ',');
    }
  }

  /** The object with these addresses in its status, and nothing else changed. */
  ghost predicate HasAddresses(vm: K.Vm, vm': K.Vm, ips: seq<string>) {
    && vm.status.Some? && vm'.status.Some? && vm'.status.value.ipAddressesString.Some?
    && vm' == vm.(version := vm'.version,
                  status := Some(vm.status.value.(ipAddresses := Some(ips),
                                                  ipAddressesString := vm'.status.value.ipAddressesString)))
    && IsListText(vm'.status.value.ipAddressesString.value, ips)
  }

  /**
    Main result: the status write of a connected VM lists the addresses of its NICs in their order, one for each NIC
    that has one, and the text splits at commas into the list. Nothing else of the object changes.
   */
  lemma StatusListsAddresses(c: K.Cluster, vm: K.Vm, dynamicIp: string -> Option<string>)
    requires K.Versioned(c) && vm.key in c.vms && c.vms[vm.key] == vm && vm.status.Some?
    ensures var stored := K.PutStatus(c, vm, V.WithAddresses(vm.status.value, V.DynamicIps(P.OvnNics(vm), dynamicIp)));
            && stored.error.None? && vm.key in stored.cluster.vms
            && exists ips :: && InOrder(ips, vm.status.value.networks, dynamicIp, |vm.status.value.networks|)
                             && HasAddresses(vm, stored.cluster.vms[vm.key], ips)
  {
    var ips := IpsOfStatus(vm, dynamicIp);
    JoinIsListText(ips);
    var status := V.WithAddresses(vm.status.value, ips);
    assert HasAddresses(vm, K.PutStatus(c, vm, status).cluster.vms[vm.key], ips);
  }
}
