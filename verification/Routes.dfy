/**
  `LogicalRouter::set_routes`: the difference between the requested and the stored routes as one
  transaction, with its eight-bit counter for symbolic row names.
 */
module Routes {
  import opened Prelude
  import opened Ovsdb
  import opened OvnTransactions

  /** A route of the router's spec. */
  datatype RouteSpec = RouteSpec(cidr: string, nexthop: string)

  /** A stored route with its row. */
  datatype StoredRoute = StoredRoute(uuid: Uuid, prefix: string, nexthop: string)

  predicate Same(stored: StoredRoute, spec: RouteSpec) {
    stored.prefix == spec.cidr && stored.nexthop == spec.nexthop
  }

  predicate IsStored(stored: seq<StoredRoute>, spec: RouteSpec) {
    exists i :: 0 <= i < |stored| && Same(stored[i], spec)
  }

  predicate IsWanted(specs: seq<RouteSpec>, stored: StoredRoute) {
    exists i :: 0 <= i < |specs| && Same(stored, specs[i])
  }

  function Missing(stored: seq<StoredRoute>, specs: seq<RouteSpec>): seq<RouteSpec> {
    Retain(specs, r => !IsStored(stored, r))
  }

  function Extra(stored: seq<StoredRoute>, specs: seq<RouteSpec>): seq<StoredRoute> {
    Retain(stored, r => !IsWanted(specs, r))
  }

  function Digits(n: nat): (r: string)
    ensures |r| > 0
  {
    var last := ['0' + (n % 10) as char];
    if n < 10 then last else Digits(n / 10) + last
  }

  /** `new_route_{i}` */
  function Id(i: nat): string {
    "new_route_" + Digits(i)
  }

  lemma {:induction false} DigitsInjective(i: nat, j: nat)
    requires Digits(i) == Digits(j)
    ensures i == j
    decreases i + j
  {
    var x, y := Digits(i), Digits(j);
    assert x[|x| - 1] == '0' + (i % 10) as char && y[|y| - 1] == '0' + (j % 10) as char;
    if i >= 10 && j >= 10 {
      assert x[..|x| - 1] == Digits(i / 10) && y[..|y| - 1] == Digits(j / 10);
      DigitsInjective(i / 10, j / 10);
    }
  }

  lemma IdInjective(i: nat, j: nat)
    requires Id(i) == Id(j)
    ensures i == j
  {
    assert Id(i)[10..] == Digits(i) && Id(j)[10..] == Digits(j);
    DigitsInjective(i, j);
  }

  /** The inserts for the missing routes; the counter wraps at 256. */
  function InsertRouteOps(missing: seq<RouteSpec>, start: nat): (r: seq<Op>)
    ensures |r| == |missing|
  {
    if missing == [] then []
    else
      [Insert(Route(missing[0].cidr, missing[0].nexthop), Some(Id(start % 0x100)))]
      + InsertRouteOps(missing[1..], start + 1)
  }

  function NewRefs(count: nat): seq<Ref> {
    seq(count, j => Named(Id(j % 0x100)))
  }

  function ExtraRefs(extra: seq<StoredRoute>): seq<Ref> {
    seq(|extra|, j requires 0 <= j < |extra| => Existing(extra[j].uuid))
  }

  /** The mutation of the router's route set: first the new routes in, then the extra ones out. */
  function RouteMutations(missing: seq<RouteSpec>, extra: seq<StoredRoute>): seq<Mutation> {
    [AddRefs(StaticRoutes, NewRefs(|missing|)), RemoveRefs(StaticRoutes, ExtraRefs(extra))]
  }

  function RouteOps(router: Uuid, missing: seq<RouteSpec>, extra: seq<StoredRoute>): seq<Op> {
    InsertRouteOps(missing, 0)
    + [Mutate(LogicalRouter, router, RouteMutations(missing, extra))]
  }

  /** The rows the inserts create. */
  function NewRows(first: Uuid, missing: seq<RouteSpec>): (r: Rows)
    ensures forall v :: v in r <==> first <= v < first + |missing|
    decreases |missing|
  {
    if missing == [] then map[]
    else NewRows(first + 1, missing[1..])[first := Route(missing[0].cidr, missing[0].nexthop)]
  }

  function Uuids(stored: seq<StoredRoute>): set<Uuid> {
    set i | 0 <= i < |stored| :: stored[i].uuid
  }

  function Fresh(first: Uuid, count: nat): (r: set<Uuid>)
    ensures forall v :: v in r <==> first <= v < first + count
    decreases count
  {
    if count == 0 then {} else {first} + Fresh(first + 1, count - 1)
  }

  /** The rows after a route change; a router that is gone leaves the new routes unreferenced. */
  function WithRoutes(db: Db, router: Uuid, missing: seq<RouteSpec>, extra: set<Uuid>): Db {
    if router in db.rows && db.rows[router].Router? then
      var row := db.rows[router];
      var kept := map v | v in db.rows && v !in row.routes * extra :: db.rows[v];
      Db((kept + NewRows(db.next, missing))
           [router := Router(row.name, row.ports, row.routes + Fresh(db.next, |missing|) - extra)],
         db.next + |missing|)
    else Db(db.rows, db.next + |missing|)
  }

  lemma {:induction false} ExecAllConcat(p: Progress, a: seq<Op>, b: seq<Op>)
    ensures ExecAll(p, a + b) == if ExecAll(p, a).Some? then ExecAll(ExecAll(p, a).value, b) else None
    decreases |a|
  {
    if a == [] {
      assert a + b == b;
    } else {
      assert (a + b)[1..] == a[1..] + b && (a + b)[0] == a[0];
      if Exec(p, a[0]).Some? {
        ExecAllConcat(Exec(p, a[0]).value, a[1..], b);
      }
    }
  }

  lemma {:induction false} NewRowAt(first: Uuid, missing: seq<RouteSpec>, i: nat)
    requires i < |missing|
    ensures first + i in NewRows(first, missing)
    ensures NewRows(first, missing)[first + i] == Route(missing[i].cidr, missing[i].nexthop)
    decreases |missing|
  {
    if i > 0 {
      NewRowAt(first + 1, missing[1..], i - 1);
    }
  }

  lemma NewRowsStep(rows: Rows, first: Uuid, missing: seq<RouteSpec>)
    requires missing != []
    ensures rows[first := Route(missing[0].cidr, missing[0].nexthop)] + NewRows(first + 1, missing[1..])
            == rows + NewRows(first, missing)
  {
    var a := rows[first := Route(missing[0].cidr, missing[0].nexthop)] + NewRows(first + 1, missing[1..]);
    var b := rows + NewRows(first, missing);
    assert a.Keys == b.Keys;
    forall v | v in a
      ensures a[v] == b[v]
    {
    }
  }

  /** Names numbered from `start` are still free. */
  ghost predicate IdsFree(names: map<string, Uuid>, start: nat) {
    forall j :: start <= j < 0x100 ==> Id(j) !in names
  }

  lemma NextIdsFree(names: map<string, Uuid>, start: nat, u: Uuid)
    requires IdsFree(names, start)
    ensures IdsFree(names[Id(start) := u], start + 1)
  {
    forall j | start + 1 <= j < 0x100
      ensures Id(j) !in names[Id(start) := u]
    {
      if Id(j) == Id(start) {
        IdInjective(j, start);
      }
    }
  }

  ghost predicate IdsGiven(names: map<string, Uuid>, start: nat, count: nat, first: Uuid) {
    forall j :: start <= j < start + count ==> Id(j) in names && names[Id(j)] == first + (j - start)
  }

  lemma IdsGivenStep(names: map<string, Uuid>, start: nat, count: nat, first: Uuid)
    requires IdsGiven(names, start + 1, count, first + 1) && Id(start) in names && names[Id(start)] == first
    ensures IdsGiven(names, start, count + 1, first)
  {
  }

  lemma NamedInsert(p: Progress, missing: seq<RouteSpec>, start: nat) returns (p1: Progress)
    requires missing != [] && start < 0x100 && IdsFree(p.names, start)
    ensures p1.names == p.names[Id(start) := p.next] && p1.next == p.next + 1
    ensures ExecAll(p, InsertRouteOps(missing, start)) == ExecAll(p1, InsertRouteOps(missing[1..], start + 1))
  {
    var op := InsertRouteOps(missing, start)[0];
    assert op == Insert(Route(missing[0].cidr, missing[0].nexthop), Some(Id(start))) && Id(start) !in p.names;
    p1 := Exec(p, op).value;
    assert InsertRouteOps(missing, start)[1..] == InsertRouteOps(missing[1..], start + 1);
  }

  /** Up to 256 symbolic names are distinct, so that many inserts succeed. */
  lemma {:induction false} InsertsRun(p: Progress, missing: seq<RouteSpec>, start: nat)
    requires start + |missing| <= 0x100 && IdsFree(p.names, start)
    ensures ExecAll(p, InsertRouteOps(missing, start)).Some?
    ensures var q := ExecAll(p, InsertRouteOps(missing, start)).value;
            && IdsGiven(q.names, start, |missing|, p.next)
            && (forall n :: n in p.names ==> n in q.names && q.names[n] == p.names[n])
    decreases |missing|
  {
    if missing != [] {
      var p1 := NamedInsert(p, missing, start);
      NextIdsFree(p.names, start, p.next);
      InsertsRun(p1, missing[1..], start + 1);
      IdsGivenStep(ExecAll(p, InsertRouteOps(missing, start)).value.names, start, |missing| - 1, p.next);
    }
  }

  lemma NoInserts(p: Progress, missing: seq<RouteSpec>, start: nat)
    requires missing == []
    ensures ExecAll(p, InsertRouteOps(missing, start)) == Some(p) && p.rows + NewRows(p.next, missing) == p.rows
  {
  }

  lemma FirstInsert(p: Progress, missing: seq<RouteSpec>, start: nat) returns (p1: Progress)
    requires missing != [] && ExecAll(p, InsertRouteOps(missing, start)).Some?
    ensures p1.rows == p.rows[p.next := Route(missing[0].cidr, missing[0].nexthop)] && p1.next == p.next + 1
    ensures ExecAll(p, InsertRouteOps(missing, start)) == ExecAll(p1, InsertRouteOps(missing[1..], start + 1))
  {
    p1 := Exec(p, InsertRouteOps(missing, start)[0]).value;
    assert InsertRouteOps(missing, start)[1..] == InsertRouteOps(missing[1..], start + 1);
  }

  lemma {:induction false} InsertsMakeRows(p: Progress, missing: seq<RouteSpec>, start: nat, q: Progress)
    requires ExecAll(p, InsertRouteOps(missing, start)) == Some(q)
    ensures q.rows == p.rows + NewRows(p.next, missing) && q.next == p.next + |missing|
    decreases |missing|
  {
    if missing == [] {
      NoInserts(p, missing, start);
    } else {
      var p1 := FirstInsert(p, missing, start);
      InsertsMakeRows(p1, missing[1..], start + 1, q);
      NewRowsStep(p.rows, p.next, missing);
    }
  }

  /** One insert more repeats a symbolic name, which the server reports as an error. */
  lemma {:induction false} InsertsFail(p: Progress, missing: seq<RouteSpec>, start: nat)
    requires start <= 0x100 && start + |missing| > 0x100
    requires forall j :: 0 <= j < start ==> Id(j) in p.names
    ensures ExecAll(p, InsertRouteOps(missing, start)).None?
    decreases |missing|
  {
    var op := InsertRouteOps(missing, start)[0];
    if start < 0x100 && Exec(p, op).Some? {
      assert InsertRouteOps(missing, start)[1..] == InsertRouteOps(missing[1..], start + 1);
      InsertsFail(Exec(p, op).value, missing[1..], start + 1);
    }
  }

  lemma {:induction false} ResolveNew(names: map<string, Uuid>, refs: seq<Ref>, first: Uuid)
    requires forall j :: 0 <= j < |refs| ==>
             refs[j].Named? && refs[j].uuidName in names && names[refs[j].uuidName] == first + j
    ensures Resolve(names, refs) == Some(Fresh(first, |refs|))
  {
    if refs == [] {
      assert Fresh(first, 0) == {};
    } else {
      ResolveNew(names, refs[1..], first + 1);
      assert {first} + Fresh(first + 1, |refs| - 1) == Fresh(first, |refs|);
    }
  }

  lemma {:induction false} ResolveExtra(names: map<string, Uuid>, extra: seq<StoredRoute>)
    ensures Resolve(names, ExtraRefs(extra)) == Some(Uuids(extra))
  {
    if extra == [] {
      assert Uuids(extra) == {};
    } else {
      assert ExtraRefs(extra)[1..] == ExtraRefs(extra[1..]);
      ResolveExtra(names, extra[1..]);
      forall u | u in Uuids(extra)
        ensures u in {extra[0].uuid} + Uuids(extra[1..])
      {
        var i :| 0 <= i < |extra| && extra[i].uuid == u;
        if i > 0 {
          assert extra[1..][i - 1].uuid == u;
        }
      }
      assert {extra[0].uuid} + Uuids(extra[1..]) == Uuids(extra);
    }
  }

  /** The rows before commit: new routes inserted, the router's set changed. */
  function RawRoutes(db: Db, router: Uuid, missing: seq<RouteSpec>, extra: set<Uuid>): Rows {
    var rows := db.rows + NewRows(db.next, missing);
    if router in db.rows && db.rows[router].Router? then
      var row := db.rows[router];
      rows[router := Router(row.name, row.ports, row.routes + Fresh(db.next, |missing|) - extra)]
    else rows
  }

  lemma NewRefsResolve(names: map<string, Uuid>, first: Uuid, count: nat)
    requires count <= 0x100 && IdsGiven(names, 0, count, first)
    ensures Resolve(names, NewRefs(count)) == Some(Fresh(first, count))
  {
    forall j | 0 <= j < count
      ensures NewRefs(count)[j] == Named(Id(j)) && Id(j) in names && names[Id(j)] == first + j
    {
      assert j % 0x100 == j;
    }
    ResolveNew(names, NewRefs(count), first);
  }

  lemma TwoMutations(names: map<string, Uuid>, row: Row, a: Mutation, b: Mutation)
    requires MutateRow(names, row, a).Some?
    ensures MutateAll(names, row, [a, b]) == MutateRow(names, MutateRow(names, row, a).value, b)
  {
    var added := MutateRow(names, row, a).value;
    assert [a, b][1..] == [b] && [b][1..] == [];
    assert MutateAll(names, added, [b]) == MutateRow(names, added, b);
  }

  lemma RouteMutationsRun(names: map<string, Uuid>, row: Row, first: Uuid, missing: seq<RouteSpec>,
      extra: seq<StoredRoute>)
    requires row.Router? && |missing| <= 0x100 && IdsGiven(names, 0, |missing|, first)
    ensures MutateAll(names, row, RouteMutations(missing, extra)) ==
              Some(Router(row.name, row.ports, row.routes + Fresh(first, |missing|) - Uuids(extra)))
  {
    NewRefsResolve(names, first, |missing|);
    ResolveExtra(names, extra);
    TwoMutations(names, row, RouteMutations(missing, extra)[0], RouteMutations(missing, extra)[1]);
  }

  lemma RouteOpsRun(db: Db, router: Uuid, missing: seq<RouteSpec>, extra: seq<StoredRoute>)
    requires |missing| <= 0x100 && router < db.next
    ensures ExecAll(Progress(db.rows, db.next, map[]), RouteOps(router, missing, extra)).Some?
    ensures var p := ExecAll(Progress(db.rows, db.next, map[]), RouteOps(router, missing, extra)).value;
            p.rows == RawRoutes(db, router, missing, Uuids(extra)) && p.next == db.next + |missing|
  {
    var p0 := Progress(db.rows, db.next, map[]);
    InsertsRun(p0, missing, 0);
    InsertsMakeRows(p0, missing, 0, ExecAll(p0, InsertRouteOps(missing, 0)).value);
    var p1 := ExecAll(p0, InsertRouteOps(missing, 0)).value;
    var op := Mutate(LogicalRouter, router, RouteMutations(missing, extra));
    ExecAllConcat(p0, InsertRouteOps(missing, 0), [op]);
    if Hits(p1.rows, LogicalRouter, router) {
      RouteMutationsRun(p1.names, p1.rows[router], db.next, missing, extra);
    }
    assert ExecAll(Exec(p1, op).value, [op][1..]) == Exec(p1, op);
  }

  /** Route handles carry UUIDs the server has handed out, of rows that may be gone since. */
  predicate HandedOut(db: Db, extra: set<Uuid>) {
    forall u :: u in extra ==> u < db.next
  }

  predicate RouterAt(rows: Rows, router: Uuid) {
    router in rows && rows[router].Router?
  }

  predicate RouterIn(db: Db, router: Uuid) {
    RouterAt(db.rows, router)
  }

  lemma NewRowsAreRoutes(first: Uuid, missing: seq<RouteSpec>)
    ensures forall v :: v in NewRows(first, missing) ==> NewRows(first, missing)[v].Route?
  {
    forall v | v in NewRows(first, missing)
      ensures NewRows(first, missing)[v].Route?
    {
      NewRowAt(first, missing, v - first);
    }
  }

  lemma OldRow(db: Db, router: Uuid, missing: seq<RouteSpec>, extra: set<Uuid>, v: Uuid)
    requires Valid(db) && RouterIn(db, router) && v in db.rows && v != router
    ensures var row, rows' := db.rows[router], WithRoutes(db, router, missing, extra).rows;
            if v in row.routes && v in extra then v !in rows' else v in rows' && rows'[v] == db.rows[v]
  {
  }

  lemma NewRow(db: Db, router: Uuid, missing: seq<RouteSpec>, extra: set<Uuid>, v: Uuid)
    requires Valid(db) && RouterIn(db, router) && HandedOut(db, extra) && v !in db.rows
    ensures var rows' := WithRoutes(db, router, missing, extra).rows;
            && (v in rows' <==> v in Fresh(db.next, |missing|))
            && (v in rows' ==> rows'[v].Route? && db.next <= v && v !in extra && v != router
                               && rows'[v] == NewRows(db.next, missing)[v])
  {
    NewRowsAreRoutes(db.next, missing);
  }

  lemma RouterRow(db: Db, router: Uuid, missing: seq<RouteSpec>, extra: set<Uuid>)
    requires RouterIn(db, router)
    ensures var row, rows' := db.rows[router], WithRoutes(db, router, missing, extra).rows;
            router in rows' && rows'[router] ==
              Router(row.name, row.ports, row.routes + Fresh(db.next, |missing|) - extra)
  {
  }

  /** What a route change does to each row. */
  lemma RouteRows(db: Db, router: Uuid, missing: seq<RouteSpec>, extra: set<Uuid>)
    requires Valid(db) && RouterIn(db, router) && HandedOut(db, extra)
    ensures var row, rows' := db.rows[router], WithRoutes(db, router, missing, extra).rows;
            && router in rows' && rows'[router] ==
                 Router(row.name, row.ports, row.routes + Fresh(db.next, |missing|) - extra)
            && (forall v :: v in db.rows && v != router ==>
                  if v in row.routes && v in extra then v !in rows' else v in rows' && rows'[v] == db.rows[v])
            && (forall v :: v in rows' && v !in db.rows ==>
                 rows'[v].Route? && db.next <= v && v in Fresh(db.next, |missing|))
            && (forall v :: v in Fresh(db.next, |missing|) ==> v in rows' && v !in db.rows && v !in extra)
  {
    var row, rows' := db.rows[router], WithRoutes(db, router, missing, extra).rows;
    RouterRow(db, router, missing, extra);
    forall v | v in db.rows && v != router
      ensures if v in row.routes && v in extra then v !in rows' else v in rows' && rows'[v] == db.rows[v]
    {
      OldRow(db, router, missing, extra, v);
    }
    forall v | v !in db.rows
      ensures v in rows' <==> v in Fresh(db.next, |missing|)
      ensures v in rows' ==> rows'[v].Route? && db.next <= v && v !in extra
    {
      NewRow(db, router, missing, extra, v);
    }
  }

  /** The router still refers to existing ports and routes. */
  lemma RouterRefs(db: Db, router: Uuid, missing: seq<RouteSpec>, extra: set<Uuid>)
    requires Valid(db) && RouterIn(db, router) && HandedOut(db, extra)
    ensures router in WithRoutes(db, router, missing, extra).rows
    ensures RefsOk(WithRoutes(db, router, missing, extra).rows, WithRoutes(db, router, missing, extra).rows[router])
  {
    RouteRows(db, router, missing, extra);
    assert RefsOk(db.rows, db.rows[router]);
  }

  lemma OtherChildKept(db: Db, router: Uuid, missing: seq<RouteSpec>, extra: set<Uuid>, p: Uuid, u: Uuid)
    requires Valid(db) && RouterIn(db, router) && p in db.rows && p != router && u in Children(db.rows[p])
    ensures u in db.rows && u in WithRoutes(db, router, missing, extra).rows
    ensures WithRoutes(db, router, missing, extra).rows[u] == db.rows[u]
  {
    assert RefsOk(db.rows, db.rows[p]);
    OldRow(db, router, missing, extra, u);
  }

  lemma RouteRefs(db: Db, router: Uuid, missing: seq<RouteSpec>, extra: set<Uuid>, p: Uuid)
    requires Valid(db) && RouterIn(db, router) && HandedOut(db, extra)
    requires p in WithRoutes(db, router, missing, extra).rows
    ensures RefsOk(WithRoutes(db, router, missing, extra).rows, WithRoutes(db, router, missing, extra).rows[p])
  {
    var rows' := WithRoutes(db, router, missing, extra).rows;
    if p == router {
      RouterRefs(db, router, missing, extra);
    } else if p in db.rows {
      OldRow(db, router, missing, extra, p);
      assert RefsOk(db.rows, db.rows[p]);
      forall u | u in Children(db.rows[p])
        ensures u in db.rows && u in rows' && rows'[u] == db.rows[u]
      {
        OtherChildKept(db, router, missing, extra, p, u);
      }
    } else {
      NewRow(db, router, missing, extra, p);
    }
  }

  lemma RouteReferenced(db: Db, router: Uuid, missing: seq<RouteSpec>, extra: set<Uuid>, v: Uuid)
    requires Valid(db) && RouterIn(db, router) && HandedOut(db, extra)
    requires v in WithRoutes(db, router, missing, extra).rows
    ensures var rows' := WithRoutes(db, router, missing, extra).rows;
            IsRoot(rows'[v]) || Referenced(rows', v)
  {
    var rows' := WithRoutes(db, router, missing, extra).rows;
    RouteRows(db, router, missing, extra);
    if !IsRoot(rows'[v]) {
      if v in db.rows {
        assert RefsOk(db.rows, db.rows[router]);
        var p :| p in db.rows && v in Children(db.rows[p]);
        assert p in rows' && v in Children(rows'[p]);
      } else {
        assert v in Children(rows'[router]);
      }
    }
  }

  lemma RoutesAreIntact(db: Db, router: Uuid, missing: seq<RouteSpec>, extra: set<Uuid>)
    requires Valid(db) && RouterIn(db, router) && HandedOut(db, extra)
    ensures Intact(WithRoutes(db, router, missing, extra).rows)
  {
    var rows' := WithRoutes(db, router, missing, extra).rows;
    forall v | v in rows'
      ensures RefsOk(rows', rows'[v]) && (IsRoot(rows'[v]) || Referenced(rows', v))
              && Prune(rows', rows'[v]) == rows'[v]
    {
      RouteRefs(db, router, missing, extra, v);
      RouteReferenced(db, router, missing, extra, v);
      RouteRows(db, router, missing, extra);
      assert RefsOk(db.rows, db.rows[router]);
      if v in db.rows && v != router {
        KeepsPruned(db.rows, rows', db.rows[v]);
      }
    }
  }

  lemma RouteChildren(db: Db, router: Uuid, missing: seq<RouteSpec>, extra: set<Uuid>, p: Uuid, u: Uuid)
    requires Valid(db) && RouterIn(db, router) && HandedOut(db, extra)
    requires p in WithRoutes(db, router, missing, extra).rows
             && u in Children(WithRoutes(db, router, missing, extra).rows[p])
    ensures (p in db.rows && u in Children(db.rows[p]) && u < db.next) || (db.next <= u && p == router)
  {
    RouteRows(db, router, missing, extra);
    if p in db.rows {
      assert RefsOk(db.rows, db.rows[p]);
    }
  }

  lemma RoutesHaveOneOwner(db: Db, router: Uuid, missing: seq<RouteSpec>, extra: set<Uuid>)
    requires Valid(db) && RouterIn(db, router) && HandedOut(db, extra)
    ensures SingleOwner(WithRoutes(db, router, missing, extra).rows)
  {
    var rows' := WithRoutes(db, router, missing, extra).rows;
    forall p, q, u | p in rows' && q in rows' && u in Children(rows'[p]) && u in Children(rows'[q])
      ensures p == q
    {
      RouteChildren(db, router, missing, extra, p, u);
      RouteChildren(db, router, missing, extra, q, u);
    }
  }

  lemma RoutesKeepNames(db: Db, router: Uuid, missing: seq<RouteSpec>, extra: set<Uuid>)
    requires Valid(db) && RouterIn(db, router) && HandedOut(db, extra)
    ensures UniqueNames(WithRoutes(db, router, missing, extra).rows) && Bounded(WithRoutes(db, router, missing, extra))
  {
    var db' := WithRoutes(db, router, missing, extra);
    RouteRows(db, router, missing, extra);
    assert forall v :: v in db'.rows && v in db.rows ==>
      NameOf(db'.rows[v]) == NameOf(db.rows[v]) && TableOf(db'.rows[v]) == TableOf(db.rows[v]);
    assert forall v :: v in db'.rows && v !in db.rows ==> NameOf(db'.rows[v]) == None;
  }

  lemma WithRoutesIsValid(db: Db, router: Uuid, missing: seq<RouteSpec>, extra: set<Uuid>)
    requires Valid(db) && HandedOut(db, extra)
    ensures Valid(WithRoutes(db, router, missing, extra))
  {
    if RouterIn(db, router) {
      RoutesAreIntact(db, router, missing, extra);
      RoutesHaveOneOwner(db, router, missing, extra);
      RoutesKeepNames(db, router, missing, extra);
    }
  }

  /** A removed route was referred to by its router alone. */
  lemma RemovedRoute(db: Db, router: Uuid, missing: seq<RouteSpec>, extra: set<Uuid>, v: Uuid)
    requires Valid(db) && RouterIn(db, router) && HandedOut(db, extra)
    requires v in RawRoutes(db, router, missing, extra) && v !in WithRoutes(db, router, missing, extra).rows
    ensures var raw := RawRoutes(db, router, missing, extra); !IsRoot(raw[v]) && !Referenced(raw, v)
  {
    var raw := RawRoutes(db, router, missing, extra);
    assert v in db.rows[router].routes && v in extra;
    assert RefsOk(db.rows, db.rows[router]);
    NewRowsAreRoutes(db.next, missing);
    forall p | p in raw
      ensures v !in Children(raw[p])
    {
      if p in db.rows && p != router {
        assert v !in Children(db.rows[p]);
      }
    }
  }

  lemma RawRouteRow(db: Db, router: Uuid, missing: seq<RouteSpec>, extra: set<Uuid>, v: Uuid)
    requires Valid(db) && RouterIn(db, router) && HandedOut(db, extra)
    requires v in RawRoutes(db, router, missing, extra)
    ensures var raw, kept := RawRoutes(db, router, missing, extra), WithRoutes(db, router, missing, extra).rows;
            && (v in kept ==> kept[v] == Prune(raw, raw[v]) && (IsRoot(raw[v]) || Referenced(raw, v)))
            && (v !in kept ==> !IsRoot(raw[v]) && !Referenced(raw, v))
  {
    var raw, kept := RawRoutes(db, router, missing, extra), WithRoutes(db, router, missing, extra).rows;
    if v in kept {
      RouteReferenced(db, router, missing, extra, v);
      KeepsReferenced(kept, raw, v);
      if v in db.rows {
        KeepsPruned(db.rows, raw, db.rows[v]);
      } else {
        NewRow(db, router, missing, extra, v);
      }
    } else {
      RemovedRoute(db, router, missing, extra, v);
    }
  }

  /** Commit collects the removed routes, whose only owner was the router. */
  lemma RoutesCollected(db: Db, router: Uuid, missing: seq<RouteSpec>, extra: set<Uuid>)
    requires Valid(db) && HandedOut(db, extra)
    ensures Collected(RawRoutes(db, router, missing, extra)) == WithRoutes(db, router, missing, extra).rows
  {
    var raw, kept := RawRoutes(db, router, missing, extra), WithRoutes(db, router, missing, extra).rows;
    if RouterIn(db, router) {
      forall v | v in raw
        ensures v in kept ==> kept[v] == Prune(raw, raw[v]) && (IsRoot(raw[v]) || Referenced(raw, v))
        ensures v !in kept ==> !IsRoot(raw[v]) && !Referenced(raw, v)
      {
        RawRouteRow(db, router, missing, extra, v);
      }
      CollectedIs(raw, kept);
    } else {
      assert kept == db.rows;
      forall v | v in raw
        ensures v in kept ==> kept[v] == Prune(raw, raw[v]) && (IsRoot(raw[v]) || Referenced(raw, v))
        ensures v !in kept ==> !IsRoot(raw[v]) && !Referenced(raw, v)
      {
        if v in kept {
          KeepsReferenced(db.rows, raw, v);
          KeepsPruned(db.rows, raw, db.rows[v]);
        } else {
          NewRowsAreRoutes(db.next, missing);
          assert forall p :: p in db.rows ==> RefsOk(db.rows, db.rows[p]);
        }
      }
      CollectedIs(raw, kept);
    }
  }

  /** The transaction commits exactly when at most 256 routes are missing. */
  lemma RouteEffect(db: Db, router: Uuid, missing: seq<RouteSpec>, extra: seq<StoredRoute>)
    requires Valid(db) && router < db.next && HandedOut(db, Uuids(extra))
    ensures Transact(db, RouteOps(router, missing, extra)) ==
              if |missing| <= 0x100 then Some(WithRoutes(db, router, missing, Uuids(extra))) else None
    ensures Valid(WithRoutes(db, router, missing, Uuids(extra)))
  {
    WithRoutesIsValid(db, router, missing, Uuids(extra));
    if |missing| <= 0x100 {
      RouteOpsRun(db, router, missing, extra);
      RoutesCollected(db, router, missing, Uuids(extra));
    } else {
      var p0 := Progress(db.rows, db.next, map[]);
      InsertsFail(p0, missing, 0);
      ExecAllConcat(p0, InsertRouteOps(missing, 0), [Mutate(LogicalRouter, router, RouteMutations(missing, extra))]);
    }
  }
}
