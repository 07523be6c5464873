/**
  All controllers at once. Every controller process works on a copy of one VM object read at some
  earlier point; any number of them interleave with users, host reconciles and stopping domains.
  Nothing is assumed about the order in which a process issues its writes. A step is one request, with
  two exceptions: the scheduler's listings of nodes and of its group are one step, and so are the
  requests of one host reconcile.
 */
module Protocol {
  import opened Prelude
  import opened Kube
  import opened Scheduling
  import opened Hosts
  import V = VmController

  /** The holder of the scheduler mutex, the nodes it listed and what it decided. */
  datatype Section = Section(pid: nat, seen: seq<Node>, choice: Option<string>, bypassed: bool)

  datatype State = State(w: World, copies: map<nat, Vm>, section: Option<Section>)

  /** The status updates of the passes other than the scheduler's. */
  datatype StatusChange = Initial | Nics(networks: seq<Nic>) | Addresses(addresses: seq<string>)

  /** What the passes change on their copy before they commit it. */
  datatype Change =
    | Same
    | FillUuid(uuid: string)
    | AddFinalizer(short: string)
    | RemoveFinalizer(short: string)
    | Request(node: string)
    | ClearRequest

  datatype Step =
    | ReadCopy(pid: nat, k: Key)
    | WriteStatus(pid: nat, update: StatusChange)
    | Commit(pid: nat, change: Change)
    | EnterSection(pid: nat)
    | DecideNode(draw: nat)
    | WriteNode
    | HostReconciles(host: string, k: Key, ok: bool)
    | DomainStops(domain: Domain)
    | UserCreates(vm: Vm)
    | UserDeletes(k: Key)
    | UserEdits(k: Key, spec: Spec)
    | NodesChange(nodes: seq<Node>)

  /** The status a pass writes from its copy. */
  function Updated(vm: Vm, update: StatusChange): Status
    requires update.Initial? <==> vm.status.None?
  {
    match update
    case Initial => V.InitialStatus(vm)
    case Nics(networks) => vm.status.value.(networks := networks)
    case Addresses(addresses) => 
      vm.status.value.(ipAddresses := Some(addresses), ipAddressesString := Some(Join(addresses, ",")))
  }

  /** The object a pass commits from its copy. */
  function Changed(vm: Vm, change: Change): Vm {
    match change
    case Same => vm
    case FillUuid(uuid) => V.WithUuid(vm, uuid)
    case AddFinalizer(short) => WithFinalizer(vm, FinalizerName(short))
    case RemoveFinalizer(short) => WithoutFinalizer(vm, FinalizerName(short))
    case Request(node) => WithRequest(vm, node)
    case ClearRequest => WithoutRequest(vm)
  }

  /** What the code tests on its copy before each of these commits. */
  predicate ChangeAllowed(vm: Vm, change: Change) {
    match change
    case FillUuid(_) => vm.spec.uuid.None?
    case Request(node) => vm.AssignedNode() == Some(node)
    case ClearRequest => RequestIsStale(vm)
    case _ => true
  }

  predicate Active(s: State, pid: nat) {
    pid in s.copies && s.copies[pid].status.Some?
  }

  /** The guards: what the code tests on its copy, and what users may do. */
  predicate Enabled(s: State, e: Step) {
    match e
    case ReadCopy(pid, k) => k in s.w.cluster.vms && (s.section.Some? ==> s.section.value.pid != pid)
    case WriteStatus(pid, update) => pid in s.copies && (update.Initial? <==> s.copies[pid].status.None?)
    case Commit(pid, change) => pid in s.copies && ChangeAllowed(s.copies[pid], change)
    case EnterSection(pid) => s.section.None? && Active(s, pid)
    case DecideNode(_) => s.section.Some? && s.section.value.choice.None? && Active(s, s.section.value.pid)
    case WriteNode => s.section.Some? && s.section.value.choice.Some? && Active(s, s.section.value.pid)
    case HostReconciles(_, k, _) => k in s.w.cluster.vms
    case DomainStops(d) => d in s.w.domains
    case UserCreates(vm) =>
      vm.key !in s.w.cluster.vms && forall d :: d in s.w.domains ==> d.key != vm.key
    case UserDeletes(k) => k in s.w.cluster.vms
    case UserEdits(k, _) => k in s.w.cluster.vms
    case NodesChange(_) => true
  }

  function Copy(s: State): Vm
    requires s.section.Some? && s.section.value.pid in s.copies
  {
    s.copies[s.section.value.pid]
  }

  /** The store after a step that writes at most one VM object. */
  function ClusterAfter(s: State, e: Step): Cluster
    requires Enabled(s, e)
  {
    var c := s.w.cluster;
    match e
    case WriteStatus(pid, update) => PutStatus(c, s.copies[pid], Updated(s.copies[pid], update)).cluster
    case Commit(pid, change) => PutObject(c, Changed(s.copies[pid], change)).cluster
    case WriteNode => PutStatus(c, Copy(s), V.ScheduledStatus(Copy(s), s.section.value.choice.value)).cluster
    case HostReconciles(host, k, ok) => ReconcileOutcome(s.w, c.vms[k], host, ok).world.cluster
    case UserCreates(vm) => CreateObject(c, vm)
    case UserDeletes(k) => DeleteObject(c, k)
    case UserEdits(k, spec) => PutObject(c, c.vms[k].(spec := spec)).cluster
    case NodesChange(nodes) => c.(nodes := nodes)
    case _ => c
  }

  function DomainsAfter(s: State, e: Step): map<Domain, set<string>>
    requires Enabled(s, e)
  {
    match e
    case HostReconciles(host, k, ok) => ReconcileOutcome(s.w, s.w.cluster.vms[k], host, ok).world.domains
    case DomainStops(d) => s.w.domains - {d}
    case _ => s.w.domains
  }

  function SectionAfter(s: State, e: Step): Option<Section>
    requires Enabled(s, e)
  {
    match e
    case EnterSection(pid) => Some(Section(pid, [], None, false))
    case DecideNode(draw) =>
      var choice := Decide(s.w.cluster, Copy(s), draw);
      if choice.None? then None
      else Some(Section(s.section.value.pid, s.w.cluster.nodes, choice,
        Choose(s.w.cluster, Copy(s), false, draw).None?))
    case WriteNode => None
    case _ => s.section
  }

  function Apply(s: State, e: Step): State
    requires Enabled(s, e)
  {
    State(World(ClusterAfter(s, e), DomainsAfter(s, e)),
          if e.ReadCopy? then s.copies[e.pid := s.w.cluster.vms[e.k]] else s.copies,
          SectionAfter(s, e))
  }

  ghost predicate Start(s: State) {
    s.w.cluster.vms == map[] && s.w.domains == map[] && s.copies == map[] && s.section.None?
  }

  ghost predicate Run(s: State, steps: seq<Step>)
    decreases |steps|
  {
    steps == [] || (Enabled(s, steps[0]) && Run(Apply(s, steps[0]), steps[1..]))
  }

  ghost function After(s: State, steps: seq<Step>): State
    requires Run(s, steps)
    decreases |steps|
  {
    if steps == [] then s else After(Apply(s, steps[0]), steps[1..])
  }

  /** `vm'` is a later version of `vm` with the same placement. */
  ghost predicate SamePlacement(vm: Vm, vm': Vm) {
    && vm'.labels == vm.labels
    && vm'.AssignedNode() == vm.AssignedNode() && vm'.Scheduled() == vm.Scheduled()
    && (vm.status.Some? ==> vm'.status.Some?)
  }

  /**
    `c'` follows `c` by writes that place nothing: every object is unchanged, or new, or has a
    version never used before and its old placement.
   */
  ghost predicate PlacesNothing(c: Cluster, c': Cluster) {
    && Versioned(c') && c.rev <= c'.rev
    && forall k :: k in c'.vms ==>
         if k in c.vms
         then c'.vms[k] == c.vms[k] || (c'.vms[k].version > c.rev && SamePlacement(c.vms[k], c'.vms[k]))
         else c'.vms[k].version > c.rev && c'.vms[k].status.None?
  }

  /** Each copy is what was stored under its version. */
  ghost predicate CopiesCurrent(s: State) {
    forall pid :: pid in s.copies ==>
      var vm := s.copies[pid];
      && vm.version <= s.w.cluster.rev
      && (vm.key in s.w.cluster.vms && s.w.cluster.vms[vm.key].version == vm.version ==> s.w.cluster.vms[vm.key] == vm)
  }

  /** A VM is marked scheduled exactly when a node is assigned. */
  ghost predicate ScheduledIffAssigned(c: Cluster) {
    forall k :: k in c.vms ==> (c.vms[k].Scheduled() <==> c.vms[k].AssignedNode().Some?)
  }

  ghost predicate Consistent(s: State) {
    Versioned(s.w.cluster) && CopiesCurrent(s) && ScheduledIffAssigned(s.w.cluster)
  }

  /** A status write from a copy that keeps the placement places nothing. */
  lemma StatusWritePlacesNothing(c: Cluster, vm: Vm, status: Status)
    requires Versioned(c)
    requires vm.key in c.vms && c.vms[vm.key].version == vm.version ==> c.vms[vm.key] == vm
    requires status.node == vm.AssignedNode() && status.scheduled == vm.Scheduled()
    ensures PlacesNothing(c, PutStatus(c, vm, status).cluster)
  {
  }

  /** So does a commit, which cannot reach the status at all. */
  lemma CommitPlacesNothing(c: Cluster, vm: Vm, copy: Vm)
    requires Versioned(c)
    requires vm.key in c.vms && c.vms[vm.key].version == vm.version ==> c.vms[vm.key] == vm
    requires copy.key == vm.key && copy.version == vm.version && copy.labels == vm.labels
    ensures PlacesNothing(c, PutObject(c, copy).cluster)
  {
  }

  /** A host reconcile over the stored object makes at most one effective write. */
  lemma HostWritesOnce(w: World, k: Key, host: string, ok: bool)
    requires Versioned(w.cluster) && k in w.cluster.vms
    ensures var c, vm, c' := w.cluster, w.cluster.vms[k], ReconcileOutcome(w, w.cluster.vms[k], host, ok).world.cluster;
            || c' == c
            || c' == PutObject(c, WithFinalizer(vm, FinalizerName(FINALIZER))).cluster
            || c' == PutObject(c, WithoutFinalizer(vm, FinalizerName(FINALIZER))).cluster
            || (&& vm.status.Some? && c' == PutStatus(c, vm, vm.status.value.(migrationPending := false)).cluster
                && Domain(k, host) in w.domains && vm.AssignedNode() == Some(host))
            || (vm.status.Some? && c' == PutStatus(c, vm, vm.status.value.(running := true)).cluster)
  {
  }

  lemma HostPlacesNothing(w: World, k: Key, host: string, ok: bool)
    requires Versioned(w.cluster) && k in w.cluster.vms
    ensures PlacesNothing(w.cluster, ReconcileOutcome(w, w.cluster.vms[k], host, ok).world.cluster)
  {
    var c, vm := w.cluster, w.cluster.vms[k];
    HostWritesOnce(w, k, host, ok);
    CommitPlacesNothing(c, vm, WithFinalizer(vm, FinalizerName(FINALIZER)));
    CommitPlacesNothing(c, vm, WithoutFinalizer(vm, FinalizerName(FINALIZER)));
    if vm.status.Some? {
      StatusWritePlacesNothing(c, vm, vm.status.value.(migrationPending := false));
      StatusWritePlacesNothing(c, vm, vm.status.value.(running := true));
    }
  }

  lemma CreationPlacesNothing(c: Cluster, vm: Vm)
    requires Versioned(c) && vm.key !in c.vms
    ensures PlacesNothing(c, CreateObject(c, vm))
  {
    CreateKeepsVersioned(c, vm);
  }

  lemma DeletionPlacesNothing(c: Cluster, k: Key)
    requires Versioned(c) && k in c.vms
    ensures PlacesNothing(c, DeleteObject(c, k))
  {
  }

  lemma CommittedChangePlacesNothing(s: State, pid: nat, change: Change)
    requires Consistent(s) && Enabled(s, Commit(pid, change))
    ensures PlacesNothing(s.w.cluster, ClusterAfter(s, Commit(pid, change)))
  {
    CommitPlacesNothing(s.w.cluster, s.copies[pid], Changed(s.copies[pid], change));
  }

  lemma WrittenStatusPlacesNothing(s: State, pid: nat, update: StatusChange)
    requires Consistent(s) && Enabled(s, WriteStatus(pid, update))
    ensures PlacesNothing(s.w.cluster, ClusterAfter(s, WriteStatus(pid, update)))
  {
    StatusWritePlacesNothing(s.w.cluster, s.copies[pid], Updated(s.copies[pid], update));
  }

  /** Of all steps only the scheduler's write assigns nodes, however stale the other copies are. */
  lemma OnlySchedulerPlaces(s: State, e: Step)
    requires Consistent(s) && Enabled(s, e) && e != WriteNode
    ensures PlacesNothing(s.w.cluster, ClusterAfter(s, e))
  {
    var c := s.w.cluster;
    match e
    case WriteStatus(pid, update) => WrittenStatusPlacesNothing(s, pid, update);
    case Commit(pid, change) => CommittedChangePlacesNothing(s, pid, change);
    case HostReconciles(host, k, ok) => HostPlacesNothing(s.w, k, host, ok);
    case UserCreates(vm) => CreationPlacesNothing(c, vm);
    case UserDeletes(k) => DeletionPlacesNothing(c, k);
    case UserEdits(k, spec) => CommitPlacesNothing(c, c.vms[k], c.vms[k].(spec := spec));
    case _ =>
  }

  /** What the mutex protects: the decision stays sound until it is written. */
  ghost predicate SectionSound(s: State) {
    s.section.Some? && s.section.value.choice.Some? ==>
      var d := s.section.value;
      && d.pid in s.copies && s.copies[d.pid].status.Some?
      && (exists n :: n in d.seen && Some(n.name) == d.choice && !InMaintenance(n))
      && (s.copies[d.pid].spec.node.None? ==> s.copies[d.pid].MigrationRequestedFrom() != d.choice)
      && (s.copies[d.pid].spec.node.None? && !d.bypassed && Group(s.copies[d.pid]).Some? ==>
            d.choice.value !in OccupiedNodes(s.w.cluster, Group(s.copies[d.pid]).value))
  }

  ghost predicate Inv(s: State) {
    Consistent(s) && SectionSound(s)
  }

  lemma ConsistentKeptByOthers(s: State, e: Step)
    requires Consistent(s) && Enabled(s, e) && e != WriteNode
    ensures Consistent(Apply(s, e))
  {
    OnlySchedulerPlaces(s, e);
  }

  lemma ConsistentKeptByScheduler(s: State)
    requires Consistent(s) && Enabled(s, WriteNode)
    ensures Consistent(Apply(s, WriteNode))
  {
    PutStatusKeepsVersioned(s.w.cluster, Copy(s), V.ScheduledStatus(Copy(s), s.section.value.choice.value));
  }

  /** Writes that place nothing occupy no further node. */
  lemma OccupiedShrinks(c: Cluster, c': Cluster, group: string)
    requires PlacesNothing(c, c')
    ensures OccupiedNodes(c', group) <= OccupiedNodes(c, group)
  {
    forall name | name in OccupiedNodes(c', group)
      ensures name in OccupiedNodes(c, group)
    {
      var k :| k in c'.vms && Group(c'.vms[k]) == Some(group) && c'.vms[k].AssignedNode() == Some(name);
      assert k in c.vms && Group(c.vms[k]) == Some(group) && c.vms[k].AssignedNode() == Some(name);
    }
  }

  lemma SectionSoundKept(s: State, e: Step)
    requires Inv(s) && Enabled(s, e)
    ensures SectionSound(Apply(s, e))
  {
    if e != WriteNode {
      OnlySchedulerPlaces(s, e);
      if s.section.Some? && s.section.value.choice.Some? && Group(Copy(s)).Some? {
        OccupiedShrinks(s.w.cluster, ClusterAfter(s, e), Group(Copy(s)).value);
      }
    }
  }

  lemma InvKept(s: State, e: Step)
    requires Inv(s) && Enabled(s, e)
    ensures Inv(Apply(s, e))
  {
    if e == WriteNode {
      ConsistentKeptByScheduler(s);
    } else {
      ConsistentKeptByOthers(s, e);
    }
    SectionSoundKept(s, e);
  }

  lemma {:induction false} InvAlong(s: State, steps: seq<Step>)
    requires Inv(s) && Run(s, steps)
    ensures Inv(After(s, steps))
    decreases |steps|
  {
    if steps != [] {
      InvKept(s, steps[0]);
      InvAlong(Apply(s, steps[0]), steps[1..]);
    }
  }

  ghost predicate Reachable(s: State) {
    exists start, steps :: Start(start) && Run(start, steps) && After(start, steps) == s
  }

  lemma {:induction false} RunExtends(start: State, steps: seq<Step>, e: Step)
    requires Run(start, steps) && Enabled(After(start, steps), e)
    ensures Run(start, steps + [e]) && After(start, steps + [e]) == Apply(After(start, steps), e)
    decreases |steps|
  {
    if steps == [] {
      assert steps + [e] == [e] && [e][1..] == [];
    } else {
      assert (steps + [e])[1..] == steps[1..] + [e];
      RunExtends(Apply(start, steps[0]), steps[1..], e);
    }
  }

  lemma NextReachable(s: State, e: Step)
    requires Reachable(s) && Enabled(s, e)
    ensures Reachable(Apply(s, e))
  {
    var start, steps :| Start(start) && Run(start, steps) && After(start, steps) == s;
    RunExtends(start, steps, e);
  }

  lemma ReachableInv(s: State)
    requires Reachable(s)
    ensures Inv(s)
  {
    var start, steps :| Start(start) && Run(start, steps) && After(start, steps) == s;
    InvAlong(start, steps);
  }

  /** In every interleaving, a write that succeeds was computed from the stored object. */
  lemma SuccessfulWritesAreCurrent(s: State, pid: nat, status: Status)
    requires Reachable(s) && pid in s.copies
    ensures var c, copy := s.w.cluster, s.copies[pid];
            PutStatus(c, copy, status).error == None <==> copy.key in c.vms && c.vms[copy.key] == copy
  {
    ReachableInv(s);
  }

  /**
    In every interleaving, scheduled means assigned, and a step that changes either for a VM is
    the scheduler writing its decision over the very object it decided on.
   */
  lemma OnlySchedulerAssigns(s: State, e: Step, k: Key)
    requires Reachable(s) && Enabled(s, e)
    requires k in s.w.cluster.vms && k in Apply(s, e).w.cluster.vms
    ensures var vm, vm' := s.w.cluster.vms[k], Apply(s, e).w.cluster.vms[k];
            && (vm.Scheduled() <==> vm.AssignedNode().Some?)
            && (vm'.AssignedNode() != vm.AssignedNode() || vm'.Scheduled() != vm.Scheduled() ==>
                  e == WriteNode && Copy(s) == vm && vm'.AssignedNode() == s.section.value.choice)
  {
    ReachableInv(s);
    if e != WriteNode {
      OnlySchedulerPlaces(s, e);
    }
  }

  /** A commit changes the migration request only from a current copy that it was changed on. */
  lemma CommitKeepsRequest(c: Cluster, vm: Vm, copy: Vm, k: Key)
    requires vm.key in c.vms && c.vms[vm.key].version == vm.version ==> c.vms[vm.key] == vm
    requires copy.key == vm.key && copy.version == vm.version
    requires k in c.vms && k in PutObject(c, copy).cluster.vms
    ensures PutObject(c, copy).cluster.RequestOf(k) != c.RequestOf(k) ==>
              && k == vm.key && c.vms[k] == vm
              && PutObject(c, copy).cluster.RequestOf(k) == copy.MigrationRequestedFrom()
  {
  }

  lemma HostKeepsRequest(w: World, k: Key, host: string, ok: bool, j: Key)
    requires Versioned(w.cluster) && k in w.cluster.vms && j in w.cluster.vms
    requires j in ReconcileOutcome(w, w.cluster.vms[k], host, ok).world.cluster.vms
    ensures ReconcileOutcome(w, w.cluster.vms[k], host, ok).world.cluster.RequestOf(j) == w.cluster.RequestOf(j)
  {
    HostWritesOnce(w, k, host, ok);
  }

  lemma StatusKeepsRequest(c: Cluster, vm: Vm, status: Status, k: Key)
    requires k in c.vms
    ensures k in PutStatus(c, vm, status).cluster.vms && PutStatus(c, vm, status).cluster.RequestOf(k) == c.RequestOf(k)
  {
  }

  /** No other step changes a request. */
  lemma RequestKeptByOthers(s: State, e: Step, k: Key)
    requires Consistent(s) && Enabled(s, e) && !e.Commit?
    requires k in s.w.cluster.vms && k in ClusterAfter(s, e).vms
    ensures ClusterAfter(s, e).RequestOf(k) == s.w.cluster.RequestOf(k)
  {
    var c := s.w.cluster;
    match e
    case WriteStatus(pid, update) => StatusKeepsRequest(c, s.copies[pid], Updated(s.copies[pid], update), k);
    case WriteNode => StatusKeepsRequest(c, Copy(s), V.ScheduledStatus(Copy(s), s.section.value.choice.value), k);
    case HostReconciles(host, j, ok) => HostKeepsRequest(s.w, j, host, ok, k);
    case UserEdits(j, spec) => CommitKeepsRequest(c, c.vms[j], c.vms[j].(spec := spec), k);
    case _ =>
  }

  lemma CommitChangeCause(s: State, pid: nat, change: Change, k: Key)
    requires Consistent(s) && Enabled(s, Commit(pid, change))
    requires k in s.w.cluster.vms && k in ClusterAfter(s, Commit(pid, change)).vms
    requires ClusterAfter(s, Commit(pid, change)).RequestOf(k) != s.w.cluster.RequestOf(k)
    ensures s.copies[pid] == s.w.cluster.vms[k]
    ensures || (change.Request? && s.w.cluster.NodeOf(k) == ClusterAfter(s, Commit(pid, change)).RequestOf(k))
            || (change.ClearRequest? && RequestIsStale(s.w.cluster.vms[k]))
  {
    CommitKeepsRequest(s.w.cluster, s.copies[pid], Changed(s.copies[pid], change), k);
  }

  /** Only a drain request or the clearing of a finished one changes a request. */
  lemma RequestChangeCause(s: State, e: Step, k: Key)
    requires Consistent(s) && Enabled(s, e)
    requires k in s.w.cluster.vms && k in ClusterAfter(s, e).vms
    requires ClusterAfter(s, e).RequestOf(k) != s.w.cluster.RequestOf(k)
    ensures e.Commit? && s.copies[e.pid] == s.w.cluster.vms[k]
    ensures || (e.change.Request? && s.w.cluster.NodeOf(k) == ClusterAfter(s, e).RequestOf(k))
            || (e.change.ClearRequest? && RequestIsStale(s.w.cluster.vms[k]))
  {
    if e.Commit? {
      CommitChangeCause(s, e.pid, e.change, k);
    } else {
      RequestKeptByOthers(s, e, k);
    }
  }

  /**
    A migration request is never lost: in every interleaving, when a request to leave a node
    disappears from an object, the object is not assigned to that node, before or after.
   */
  lemma RequestsAreNotLost(s: State, e: Step, k: Key)
    requires Reachable(s) && Enabled(s, e)
    requires k in s.w.cluster.vms && k in Apply(s, e).w.cluster.vms
    requires s.w.cluster.RequestOf(k).Some? && Apply(s, e).w.cluster.RequestOf(k) != s.w.cluster.RequestOf(k)
    ensures s.w.cluster.NodeOf(k) != s.w.cluster.RequestOf(k)
    ensures Apply(s, e).w.cluster.NodeOf(k) == s.w.cluster.NodeOf(k)
  {
    ReachableInv(s);
    RequestChangeCause(s, e, k);
    OnlySchedulerAssigns(s, e, k);
  }

  /** No step assigns a VM without a node in its spec to the node it was asked to leave. */
  lemma NeverAssignedToTheSource(s: State, e: Step, k: Key)
    requires Reachable(s) && Enabled(s, e)
    requires k in s.w.cluster.vms && k in Apply(s, e).w.cluster.vms
    requires Apply(s, e).w.cluster.NodeOf(k) != s.w.cluster.NodeOf(k)
    requires s.w.cluster.vms[k].spec.node.None?
    ensures Apply(s, e).w.cluster.NodeOf(k) != Apply(s, e).w.cluster.RequestOf(k)
  {
    ReachableInv(s);
    OnlySchedulerAssigns(s, e, k);
  }
}
