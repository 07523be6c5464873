/**
  `LogicalRouter::set_routes` on the database: the router ends with exactly the requested routes,
  keeps the rows of those it already had, and touches nothing else.
 */
module RouteUpdate {
  import opened Prelude
  import opened Ovsdb
  import opened OvnTransactions
  import opened OvnObjects
  import opened Routes

  /** A router as a controller holds it; `routes` is the order in which the server listed the set. */
  datatype RouterHandle = RouterHandle(uuid: Uuid, name: string, routes: seq<Uuid>)

  predicate IsRoute(rows: Rows, u: Uuid) {
    u in rows && rows[u].Route?
  }

  function StoredAt(rows: Rows, u: Uuid): StoredRoute
    requires IsRoute(rows, u)
  {
    StoredRoute(u, rows[u].prefix, rows[u].nexthop)
  }

  /** `get_routes`; a route row that is missing makes it panic. */
  function GetRoutes(rows: Rows, uuids: seq<Uuid>): (r: Option<seq<StoredRoute>>)
    ensures r.Some? <==> forall u :: u in uuids ==> IsRoute(rows, u)
    ensures r.Some? ==> forall s :: s in r.value <==>
            s.uuid in uuids && IsRoute(rows, s.uuid) && s == StoredAt(rows, s.uuid)
  {
    if uuids == [] then Some([])
    else
      var rest := GetRoutes(rows, uuids[1..]);
      if rest.None? || !IsRoute(rows, uuids[0]) then None
      else Some([StoredAt(rows, uuids[0])] + rest.value)
  }

  /** The counter is a `u8`: with overflow checks it panics after 255 increments, else it wraps. */
  function Limit(checked: bool): nat {
    if checked then 255 else 256
  }

  function WithRouteSet(db: Db, lr: RouterHandle, specs: seq<RouteSpec>, checked: bool): Outcome<Uuid> {
    var stored := GetRoutes(db.rows, lr.routes);
    if stored.None? || |Missing(stored.value, specs)| > Limit(checked) then Outcome(db, Err(Panicked))
    else Outcome(Commit(db, RouteOps(lr.uuid, Missing(stored.value, specs), Extra(stored.value, specs))), Ok(lr.uuid))
  }

  /** The handle shows the router as it is in the database. */
  ghost predicate Current(rows: Rows, lr: RouterHandle) {
    && lr.uuid in rows && rows[lr.uuid].Router? && rows[lr.uuid].name == lr.name
    && forall u :: u in lr.routes <==> u in rows[lr.uuid].routes
  }

  predicate RoutesTo(rows: Rows, router: Uuid, u: Uuid, spec: RouteSpec) {
    && router in rows && rows[router].Router? && u in rows[router].routes
    && u in rows && rows[u] == Route(spec.cidr, spec.nexthop)
  }

  ghost predicate HasRoute(rows: Rows, router: Uuid, spec: RouteSpec) {
    exists u :: RoutesTo(rows, router, u, spec)
  }

  /** The requested entries the router has no route for, repetitions included. */
  ghost function Unmet(rows: Rows, router: Uuid, specs: seq<RouteSpec>): seq<RouteSpec> {
    if specs == [] then []
    else (if HasRoute(rows, router, specs[0]) then [] else [specs[0]]) + Unmet(rows, router, specs[1..])
  }

  lemma StoredIsRoute(rows: Rows, lr: RouterHandle, spec: RouteSpec)
    requires Current(rows, lr) && GetRoutes(rows, lr.routes).Some?
    ensures IsStored(GetRoutes(rows, lr.routes).value, spec) <==> HasRoute(rows, lr.uuid, spec)
  {
    var stored := GetRoutes(rows, lr.routes).value;
    if HasRoute(rows, lr.uuid, spec) {
      var u :| RoutesTo(rows, lr.uuid, u, spec);
      assert StoredAt(rows, u) in stored;
    }
    if IsStored(stored, spec) {
      var i :| 0 <= i < |stored| && Same(stored[i], spec);
      assert stored[i] in stored;
      assert RoutesTo(rows, lr.uuid, stored[i].uuid, spec);
    }
  }

  lemma {:induction false} MissingIsUnmet(rows: Rows, lr: RouterHandle, specs: seq<RouteSpec>)
    requires Current(rows, lr) && GetRoutes(rows, lr.routes).Some?
    ensures Missing(GetRoutes(rows, lr.routes).value, specs) == Unmet(rows, lr.uuid, specs)
  {
    if specs != [] {
      StoredIsRoute(rows, lr, specs[0]);
      MissingIsUnmet(rows, lr, specs[1..]);
    }
  }

  /** The routes to remove are those nobody asks for. */
  lemma ExtraUuids(rows: Rows, lr: RouterHandle, specs: seq<RouteSpec>, u: Uuid)
    requires Current(rows, lr) && GetRoutes(rows, lr.routes).Some?
    ensures u in Uuids(Extra(GetRoutes(rows, lr.routes).value, specs)) <==>
              u in rows[lr.uuid].routes && IsRoute(rows, u) && RouteSpec(rows[u].prefix, rows[u].nexthop) !in specs
  {
    var stored := GetRoutes(rows, lr.routes).value;
    var extra := Extra(stored, specs);
    if IsRoute(rows, u) {
      var s := StoredAt(rows, u);
      var spec := RouteSpec(s.prefix, s.nexthop);
      assert IsWanted(specs, s) <==> spec in specs by {
        if spec in specs {
          var i :| 0 <= i < |specs| && specs[i] == spec;
          assert Same(s, specs[i]);
        }
      }
      if s in extra {
        var i :| 0 <= i < |extra| && extra[i] == s;
        assert extra[i].uuid in Uuids(extra);
      }
    }
    if u in Uuids(extra) {
      var i :| 0 <= i < |extra| && extra[i].uuid == u;
      assert extra[i] in extra && extra[i] in stored;
    }
  }

  lemma CurrentRoutesExist(db: Db, lr: RouterHandle)
    requires Valid(db) && Current(db.rows, lr)
    ensures GetRoutes(db.rows, lr.routes).Some?
    ensures forall u :: u in db.rows[lr.uuid].routes ==> IsRoute(db.rows, u)
  {
    assert RefsOk(db.rows, db.rows[lr.uuid]);
  }

  /** With a current handle the call succeeds exactly when the counter suffices, else nothing changes. */
  lemma RouteSetEffect(db: Db, lr: RouterHandle, specs: seq<RouteSpec>, checked: bool)
    requires Valid(db) && Current(db.rows, lr)
    ensures var o := WithRouteSet(db, lr, specs, checked);
            && (o.result.Ok? <==> |Unmet(db.rows, lr.uuid, specs)| <= Limit(checked))
            && (o.result.Err? ==> o == Outcome(db, Err(Panicked)))
            && (o.result.Ok? ==>
                  o.db == WithRoutes(db, lr.uuid, Unmet(db.rows, lr.uuid, specs),
                    Uuids(Extra(GetRoutes(db.rows, lr.routes).value, specs))))
            && Valid(o.db)
    ensures HandedOut(db, Uuids(Extra(GetRoutes(db.rows, lr.routes).value, specs)))
  {
    CurrentRoutesExist(db, lr);
    var stored := GetRoutes(db.rows, lr.routes).value;
    MissingIsUnmet(db.rows, lr, specs);
    forall u | u in Uuids(Extra(stored, specs))
      ensures u < db.next
    {
      ExtraUuids(db.rows, lr, specs, u);
    }
    RouteEffect(db, lr.uuid, Missing(stored, specs), Extra(stored, specs));
  }

  /** The routes of the router nobody asks for. */
  ghost function Unwanted(rows: Rows, router: Uuid, specs: seq<RouteSpec>): set<Uuid>
    requires RouterAt(rows, router)
  {
    set u | u in rows[router].routes && IsRoute(rows, u) && RouteSpec(rows[u].prefix, rows[u].nexthop) !in specs
  }

  /** What the call does, whatever the order in which the server listed the routes. */
  ghost function RoutesSet(db: Db, router: Uuid, specs: seq<RouteSpec>, checked: bool): Outcome<Uuid>
    requires RouterAt(db.rows, router)
  {
    if |Unmet(db.rows, router, specs)| > Limit(checked) then Outcome(db, Err(Panicked))
    else Outcome(WithRoutes(db, router, Unmet(db.rows, router, specs), Unwanted(db.rows, router, specs)), Ok(router))
  }

  lemma OrderIsIrrelevant(db: Db, lr: RouterHandle, specs: seq<RouteSpec>, checked: bool)
    requires Valid(db) && Current(db.rows, lr)
    ensures WithRouteSet(db, lr, specs, checked) == RoutesSet(db, lr.uuid, specs, checked)
  {
    RouteSetEffect(db, lr, specs, checked);
    CurrentRoutesExist(db, lr);
    forall u
      ensures u in Uuids(Extra(GetRoutes(db.rows, lr.routes).value, specs)) <==> u in Unwanted(db.rows, lr.uuid, specs)
    {
      ExtraUuids(db.rows, lr, specs, u);
    }
    assert Uuids(Extra(GetRoutes(db.rows, lr.routes).value, specs)) == Unwanted(db.rows, lr.uuid, specs);
  }

  lemma {:induction false} Enumerate(uuids: set<Uuid>) returns (listed: seq<Uuid>)
    ensures forall u :: u in listed <==> u in uuids
    decreases |uuids|
  {
    if uuids == {} {
      listed := [];
    } else {
      var u :| u in uuids;
      var rest := Enumerate(uuids - {u});
      listed := [u] + rest;
    }
  }

  /** Every router has a handle that shows it as it is. */
  lemma HandleFor(rows: Rows, router: Uuid) returns (lr: RouterHandle)
    requires RouterAt(rows, router)
    ensures Current(rows, lr) && lr.uuid == router
  {
    var routes := Enumerate(rows[router].routes);
    lr := RouterHandle(router, rows[router].name, routes);
  }

  lemma {:induction false} UnmetMembers(rows: Rows, router: Uuid, specs: seq<RouteSpec>, spec: RouteSpec)
    ensures spec in Unmet(rows, router, specs) <==> spec in specs && !HasRoute(rows, router, spec)
  {
    if specs != [] {
      UnmetMembers(rows, router, specs[1..], spec);
      assert spec in specs <==> spec == specs[0] || spec in specs[1..];
    }
  }

  /** The stored route of a row that existed before is kept exactly when it is requested. */
  lemma KeptRoute(db: Db, lr: RouterHandle, specs: seq<RouteSpec>, checked: bool, u: Uuid)
    requires Valid(db) && Current(db.rows, lr) && WithRouteSet(db, lr, specs, checked).result.Ok?
    requires u in db.rows && u != lr.uuid
    ensures var rows' := WithRouteSet(db, lr, specs, checked).db.rows;
            if u in db.rows[lr.uuid].routes && db.rows[u].Route?
              && RouteSpec(db.rows[u].prefix, db.rows[u].nexthop) !in specs
            then u !in rows'
            else u in rows' && rows'[u] == db.rows[u]
  {
    RouteSetEffect(db, lr, specs, checked);
    CurrentRoutesExist(db, lr);
    ExtraUuids(db.rows, lr, specs, u);
    RouteRows(db, lr.uuid, Unmet(db.rows, lr.uuid, specs), Uuids(Extra(GetRoutes(db.rows, lr.routes).value, specs)));
  }

  lemma NewRouteTo(db: Db, router: Uuid, missing: seq<RouteSpec>, extra: set<Uuid>, i: nat)
    requires Valid(db) && RouterIn(db, router) && HandedOut(db, extra) && i < |missing|
    ensures RoutesTo(WithRoutes(db, router, missing, extra).rows, router, db.next + i, missing[i])
  {
    assert db.next + i in Fresh(db.next, |missing|);
    RouterRow(db, router, missing, extra);
    NewRow(db, router, missing, extra, db.next + i);
    NewRowAt(db.next, missing, i);
  }

  /** A new row is a route of this router to some unmet entry. */
  lemma AddedFor(db: Db, router: Uuid, specs: seq<RouteSpec>, extra: set<Uuid>, u: Uuid) returns (spec: RouteSpec)
    requires Valid(db) && RouterIn(db, router) && HandedOut(db, extra)
    requires u in WithRoutes(db, router, Unmet(db.rows, router, specs), extra).rows && u !in db.rows
    ensures spec in specs && !HasRoute(db.rows, router, spec)
    ensures RoutesTo(WithRoutes(db, router, Unmet(db.rows, router, specs), extra).rows, router, u, spec)
  {
    var unmet := Unmet(db.rows, router, specs);
    NewRow(db, router, unmet, extra, u);
    NewRouteTo(db, router, unmet, extra, u - db.next);
    spec := unmet[u - db.next];
    UnmetMembers(db.rows, router, specs, spec);
  }

  /** A row that did not exist before is a requested route of this router. */
  lemma AddedRoute(db: Db, lr: RouterHandle, specs: seq<RouteSpec>, checked: bool, u: Uuid)
    requires Valid(db) && Current(db.rows, lr) && WithRouteSet(db, lr, specs, checked).result.Ok?
    requires u in WithRouteSet(db, lr, specs, checked).db.rows && u !in db.rows
    ensures exists spec :: spec in specs && !HasRoute(db.rows, lr.uuid, spec)
                           && RoutesTo(WithRouteSet(db, lr, specs, checked).db.rows, lr.uuid, u, spec)
  {
    RouteSetEffect(db, lr, specs, checked);
    var spec := AddedFor(db, lr.uuid, specs, Uuids(Extra(GetRoutes(db.rows, lr.routes).value, specs)), u);
  }

  lemma KeptRouteTo(db: Db, router: Uuid, missing: seq<RouteSpec>, extra: set<Uuid>, u: Uuid, spec: RouteSpec)
    requires Valid(db) && RouterIn(db, router) && HandedOut(db, extra)
    requires RoutesTo(db.rows, router, u, spec) && u !in extra
    ensures RoutesTo(WithRoutes(db, router, missing, extra).rows, router, u, spec)
  {
    RouterRow(db, router, missing, extra);
    OldRow(db, router, missing, extra, u);
  }

  /** A requested route is there afterwards. */
  lemma RequestedRoute(db: Db, lr: RouterHandle, specs: seq<RouteSpec>, checked: bool, spec: RouteSpec)
    requires Valid(db) && Current(db.rows, lr) && WithRouteSet(db, lr, specs, checked).result.Ok?
    requires spec in specs
    ensures HasRoute(WithRouteSet(db, lr, specs, checked).db.rows, lr.uuid, spec)
  {
    RouteSetEffect(db, lr, specs, checked);
    CurrentRoutesExist(db, lr);
    var unmet := Unmet(db.rows, lr.uuid, specs);
    var extra := Uuids(Extra(GetRoutes(db.rows, lr.routes).value, specs));
    if HasRoute(db.rows, lr.uuid, spec) {
      var u :| RoutesTo(db.rows, lr.uuid, u, spec);
      ExtraUuids(db.rows, lr, specs, u);
      KeptRouteTo(db, lr.uuid, unmet, extra, u, spec);
    } else {
      UnmetMembers(db.rows, lr.uuid, specs, spec);
      var i :| 0 <= i < |unmet| && unmet[i] == spec;
      NewRouteTo(db, lr.uuid, unmet, extra, i);
    }
  }

  /** A route that is there afterwards was requested. */
  lemma OnlyRequested(db: Db, lr: RouterHandle, specs: seq<RouteSpec>, checked: bool, spec: RouteSpec)
    requires Valid(db) && Current(db.rows, lr) && WithRouteSet(db, lr, specs, checked).result.Ok?
    requires HasRoute(WithRouteSet(db, lr, specs, checked).db.rows, lr.uuid, spec)
    ensures spec in specs
  {
    var rows' := WithRouteSet(db, lr, specs, checked).db.rows;
    var u :| RoutesTo(rows', lr.uuid, u, spec);
    RouteSetEffect(db, lr, specs, checked);
    if u in db.rows {
      CurrentRoutesExist(db, lr);
      RouteRows(db, lr.uuid, Unmet(db.rows, lr.uuid, specs), Uuids(Extra(GetRoutes(db.rows, lr.routes).value, specs)));
      ExtraUuids(db.rows, lr, specs, u);
    } else {
      AddedRoute(db, lr, specs, checked, u);
    }
  }

  /**
    Main result. When the counter suffices, the set of routes equals the requested set, every route
    in both keeps its row, every other row of the database stays, and every new row is a requested
    route that was missing.
   */
  lemma SetRoutesIsExact(db: Db, lr: RouterHandle, specs: seq<RouteSpec>, checked: bool)
    requires Valid(db) && Current(db.rows, lr)
    requires |Unmet(db.rows, lr.uuid, specs)| <= Limit(checked)
    ensures var o := WithRouteSet(db, lr, specs, checked);
            && o.result == Ok(lr.uuid) && Valid(o.db)
            && (forall spec :: HasRoute(o.db.rows, lr.uuid, spec) <==> spec in specs)
            && (forall u, spec :: RoutesTo(db.rows, lr.uuid, u, spec) && spec in specs ==>
                 RoutesTo(o.db.rows, lr.uuid, u, spec))
            && (forall u :: u in db.rows && u != lr.uuid && u !in db.rows[lr.uuid].routes ==>
                 u in o.db.rows && o.db.rows[u] == db.rows[u])
            && (forall u :: u in o.db.rows && u !in db.rows ==>
                  exists spec :: spec in specs && !HasRoute(db.rows, lr.uuid, spec)
                    && RoutesTo(o.db.rows, lr.uuid, u, spec))
            && lr.uuid in o.db.rows && o.db.rows[lr.uuid].Router?
            && o.db.rows[lr.uuid].name == db.rows[lr.uuid].name && o.db.rows[lr.uuid].ports == db.rows[lr.uuid].ports
  {
    RouteSetEffect(db, lr, specs, checked);
    var o := WithRouteSet(db, lr, specs, checked);
    RouteRows(db, lr.uuid, Unmet(db.rows, lr.uuid, specs), Uuids(Extra(GetRoutes(db.rows, lr.routes).value, specs)));
    forall spec
      ensures HasRoute(o.db.rows, lr.uuid, spec) <==> spec in specs
    {
      if spec in specs {
        RequestedRoute(db, lr, specs, checked, spec);
      }
      if HasRoute(o.db.rows, lr.uuid, spec) {
        OnlyRequested(db, lr, specs, checked, spec);
      }
    }
    forall u, spec | RoutesTo(db.rows, lr.uuid, u, spec) && spec in specs
      ensures RoutesTo(o.db.rows, lr.uuid, u, spec)
    {
      ExtraUuids(db.rows, lr, specs, u);
    }
    forall u | u in db.rows && u != lr.uuid && u !in db.rows[lr.uuid].routes
      ensures u in o.db.rows && o.db.rows[u] == db.rows[u]
    {
      KeptRoute(db, lr, specs, checked, u);
    }
    forall u | u in o.db.rows && u !in db.rows
      ensures exists spec :: spec in specs && !HasRoute(db.rows, lr.uuid, spec) && RoutesTo(o.db.rows, lr.uuid, u, spec)
    {
      AddedRoute(db, lr, specs, checked, u);
    }
  }

  lemma {:induction false} NothingUnmet(rows: Rows, router: Uuid, specs: seq<RouteSpec>)
    requires forall spec :: spec in specs ==> HasRoute(rows, router, spec)
    ensures Unmet(rows, router, specs) == []
  {
    if specs != [] {
      assert specs[0] in specs;
      NothingUnmet(rows, router, specs[1..]);
    }
  }

  lemma NothingExtra(db: Db, lr: RouterHandle, specs: seq<RouteSpec>)
    requires Valid(db) && Current(db.rows, lr)
    requires forall spec :: HasRoute(db.rows, lr.uuid, spec) ==> spec in specs
    ensures GetRoutes(db.rows, lr.routes).Some? && Uuids(Extra(GetRoutes(db.rows, lr.routes).value, specs)) == {}
  {
    CurrentRoutesExist(db, lr);
    forall u
      ensures u !in Uuids(Extra(GetRoutes(db.rows, lr.routes).value, specs))
    {
      ExtraUuids(db.rows, lr, specs, u);
      if u in db.rows[lr.uuid].routes {
        assert RoutesTo(db.rows, lr.uuid, u, RouteSpec(db.rows[u].prefix, db.rows[u].nexthop));
      }
    }
  }

  lemma NothingChanges(db: Db, router: Uuid)
    ensures WithRoutes(db, router, [], {}) == db
  {
    if RouterIn(db, router) {
      assert db.rows[router].routes + Fresh(db.next, 0) - {} == db.rows[router].routes;
      assert WithRoutes(db, router, [], {}).rows == db.rows;
    }
  }

  /** When exactly the requested routes are there, the call inserts and deletes nothing. */
  lemma MetIsUnchanged(db: Db, lr: RouterHandle, specs: seq<RouteSpec>, checked: bool)
    requires Valid(db) && Current(db.rows, lr)
    requires forall spec :: HasRoute(db.rows, lr.uuid, spec) <==> spec in specs
    ensures WithRouteSet(db, lr, specs, checked) == Outcome(db, Ok(lr.uuid))
  {
    NothingUnmet(db.rows, lr.uuid, specs);
    RouteSetEffect(db, lr, specs, checked);
    NothingExtra(db, lr, specs);
    NothingChanges(db, lr.uuid);
  }

  /** A repeated call changes nothing. */
  lemma SetRoutesTwice(db: Db, lr: RouterHandle, again: RouterHandle, specs: seq<RouteSpec>, checked: bool)
    requires Valid(db) && Current(db.rows, lr) && WithRouteSet(db, lr, specs, checked).result.Ok?
    requires Current(WithRouteSet(db, lr, specs, checked).db.rows, again) && again.uuid == lr.uuid
    ensures WithRouteSet(WithRouteSet(db, lr, specs, checked).db, again, specs, checked)
            == Outcome(WithRouteSet(db, lr, specs, checked).db, Ok(lr.uuid))
  {
    RouteSetEffect(db, lr, specs, checked);
    SetRoutesIsExact(db, lr, specs, checked);
    MetIsUnchanged(WithRouteSet(db, lr, specs, checked).db, again, specs, checked);
  }

  lemma {:induction false} InsertOpsAppend(missing: seq<RouteSpec>, spec: RouteSpec, start: nat)
    ensures InsertRouteOps(missing + [spec], start) ==
              InsertRouteOps(missing, start)
              + [Insert(Route(spec.cidr, spec.nexthop), Some(Id((start + |missing|) % 0x100)))]
  {
    if missing == [] {
      assert [spec][1..] == [] && missing + [spec] == [spec];
    } else {
      assert (missing + [spec])[1..] == missing[1..] + [spec];
      InsertOpsAppend(missing[1..], spec, start + 1);
      assert start + 1 + |missing[1..]| == start + |missing|;
      var head := Insert(Route(missing[0].cidr, missing[0].nexthop), Some(Id(start % 0x100)));
      assert InsertRouteOps(missing + [spec], start) == [head] + InsertRouteOps(missing[1..] + [spec], start + 1);
    }
  }

  /** A handle as `deserialize` builds it: the route set in some order. */
  method ReadRouter(uuid: Uuid, row: Row) returns (lr: RouterHandle)
    requires row.Router?
    ensures lr.uuid == uuid && lr.name == row.name && forall u :: u in lr.routes <==> u in row.routes
  {
    var routes := [];
    var todo := row.routes;
    while todo != {}
      invariant todo <= row.routes
      invariant forall u :: u in routes <==> u in row.routes && u !in todo
      decreases |todo|
    {
      var u :| u in todo;
      routes := routes + [u];
      todo := todo - {u};
    }
    lr := RouterHandle(uuid, row.name, routes);
  }

  lemma MissingStep(stored: seq<StoredRoute>, specs: seq<RouteSpec>, k: nat)
    requires k < |specs|
    ensures Missing(stored, specs[..k + 1]) ==
              if IsStored(stored, specs[k]) then Missing(stored, specs[..k])
              else Missing(stored, specs[..k]) + [specs[k]]
    ensures |Missing(stored, specs[..k + 1])| <= |Missing(stored, specs)|
  {
    var p := (s: RouteSpec) => !IsStored(stored, s);
    assert specs[..k + 1] == specs[..k] + [specs[k]] && specs == specs[..k + 1] + specs[k + 1..];
    assert [specs[k]][1..] == [];
    RetainAppend(specs[..k], [specs[k]], p);
    RetainAppend(specs[..k + 1], specs[k + 1..], p);
    assert forall t :: Missing(stored, t) == Retain(t, p);
  }

  lemma NewRefsStep(n: nat)
    ensures NewRefs(n + 1) == NewRefs(n) + [Named(Id(n % 0x100))]
  {
  }

  lemma CountStep(n: nat)
    ensures (n + 1) % 0x100 == (n % 0x100 + 1) % 0x100
    ensures n <= 255 ==> n % 0x100 == n
  {
  }

  lemma MissingOpsStep(missing: seq<RouteSpec>, spec: RouteSpec)
    ensures InsertRouteOps(missing + [spec], 0) ==
              InsertRouteOps(missing, 0) + [Insert(Route(spec.cidr, spec.nexthop), Some(Id(|missing| % 0x100)))]
    ensures NewRefs(|missing + [spec]|) == NewRefs(|missing|) + [Named(Id(|missing| % 0x100))]
  {
    InsertOpsAppend(missing, spec, 0);
    NewRefsStep(|missing|);
  }

  /** One insert and one reference more, and the counter wrapped. */
  lemma MissingMore(missing: seq<RouteSpec>, spec: RouteSpec, i: nat)
    requires i == |missing| % 0x100
    ensures InsertRouteOps(missing + [spec], 0) ==
              InsertRouteOps(missing, 0) + [Insert(Route(spec.cidr, spec.nexthop), Some(Id(i)))]
    ensures NewRefs(|missing + [spec]|) == NewRefs(|missing|) + [Named(Id(i))]
    ensures (i + 1) % 0x100 == |missing + [spec]| % 0x100
    ensures |missing| <= 255 ==> i == |missing|
  {
    CountStep(|missing|);
    MissingOpsStep(missing, spec);
  }

  /** The first loop: an insert for each missing route; none when the checked counter overflows. */
  method CollectMissing(stored: seq<StoredRoute>, specs: seq<RouteSpec>, checked: bool)
    returns (operations: Option<seq<Op>>, toAdd: seq<Ref>)
    ensures operations.Some? <==> !checked || |Missing(stored, specs)| <= 255
    ensures operations.Some? ==> operations.value == InsertRouteOps(Missing(stored, specs), 0)
                                 && toAdd == NewRefs(|Missing(stored, specs)|)
  {
    var ops: seq<Op> := [];
    toAdd := [];
    ghost var missing: seq<RouteSpec> := [];
    var i: nat := 0;
    for k := 0 to |specs|
      invariant missing == Missing(stored, specs[..k])
      invariant checked ==> |missing| <= 255
      invariant i == |missing| % 0x100
      invariant ops == InsertRouteOps(missing, 0)
      invariant toAdd == NewRefs(|missing|)
    {
      MissingStep(stored, specs, k);
      if !IsStored(stored, specs[k]) {
        if checked && i == 255 {
          return None, toAdd;
        }
        MissingMore(missing, specs[k], i);
        var id := Id(i);
        ops := ops + [Insert(Route(specs[k].cidr, specs[k].nexthop), Some(id))];
        toAdd := toAdd + [Named(id)];
        i := (i + 1) % 0x100;
        missing := missing + [specs[k]];
      }
    }
    assert specs[..|specs|] == specs;
    operations := Some(ops);
  }

  lemma ExtraStep(stored: seq<StoredRoute>, specs: seq<RouteSpec>, k: nat)
    requires k < |stored|
    ensures Extra(stored[..k + 1], specs) ==
              Extra(stored[..k], specs) + if IsWanted(specs, stored[k]) then [] else [stored[k]]
  {
    var p := (s: StoredRoute) => !IsWanted(specs, s);
    assert stored[..k + 1] == stored[..k] + [stored[k]];
    assert [stored[k]][1..] == [];
    RetainAppend(stored[..k], [stored[k]], p);
  }

  /** The second loop: the stored routes nobody asks for. */
  method CollectExtra(stored: seq<StoredRoute>, specs: seq<RouteSpec>) returns (toRemove: seq<Ref>)
    ensures toRemove == ExtraRefs(Extra(stored, specs))
  {
    toRemove := [];
    ghost var extra: seq<StoredRoute> := [];
    for k := 0 to |stored|
      invariant extra == Extra(stored[..k], specs)
      invariant toRemove == ExtraRefs(extra)
    {
      ExtraStep(stored, specs, k);
      if !IsWanted(specs, stored[k]) {
        extra := extra + [stored[k]];
        toRemove := toRemove + [Existing(stored[k].uuid)];
      }
    }
    assert stored[..|stored|] == stored;
  }

  lemma ExtraAreHandedOut(db: Db, lr: RouterHandle, specs: seq<RouteSpec>)
    requires Valid(db) && GetRoutes(db.rows, lr.routes).Some?
    ensures HandedOut(db, Uuids(Extra(GetRoutes(db.rows, lr.routes).value, specs)))
  {
    var stored := GetRoutes(db.rows, lr.routes).value;
    var extra := Extra(stored, specs);
    forall u | u in Uuids(extra)
      ensures u < db.next
    {
      var i :| 0 <= i < |extra| && extra[i].uuid == u;
      assert extra[i] in extra && extra[i] in stored;
    }
  }

  method SetRoutes(ovn: Ovn, lr: RouterHandle, specs: seq<RouteSpec>, checked: bool) returns (r: Result<Uuid>)
    requires Valid(ovn.db) && lr.uuid < ovn.db.next
    modifies ovn
    ensures Valid(ovn.db) && Outcome(ovn.db, r) == WithRouteSet(old(ovn.db), lr, specs, checked)
  {
    var found := GetRoutes(ovn.db.rows, lr.routes);
    if found.None? {
      return Err(Panicked);
    }
    var inserts, toAdd := CollectMissing(found.value, specs, checked);
    if inserts.None? {
      return Err(Panicked);
    }
    var toRemove := CollectExtra(found.value, specs);
    var update := Mutate(LogicalRouter, lr.uuid, [AddRefs(StaticRoutes, toAdd), RemoveRefs(StaticRoutes, toRemove)]);
    assert inserts.value + [update] == RouteOps(lr.uuid, Missing(found.value, specs), Extra(found.value, specs));
    ExtraAreHandedOut(ovn.db, lr, specs);
    RouteEffect(ovn.db, lr.uuid, Missing(found.value, specs), Extra(found.value, specs));
    var ok := ovn.Transact(inserts.value + [update]);
    r := if ok then Ok(lr.uuid) else Err(Panicked);
  }
}
