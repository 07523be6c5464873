/**
  At most one host runs a VM's domain. A reassignment that neither sets `migration_pending` nor
  concerns a VM with a locked Ceph image is the one way to get a second one started.
 */
module Runners {
  import opened Prelude
  import opened Kube
  import opened Scheduling
  import opened Hosts
  import opened Protocol
  import V = VmController

  ghost predicate AtMostOneHost(domains: map<Domain, set<string>>) {
    forall d, d' :: d in domains && d' in domains && d.key == d'.key ==> d == d'
  }

  /** What keeps every other host from starting the VM of a domain that holds the images `held` locked. */
  ghost predicate Anchored(vm: Vm, d: Domain, held: set<string>) {
    && vm.AssignedNode().Some?
    && (vm.AssignedNode() == Some(d.host) || vm.Pending() || vm.deleting || Images(vm) * held != {})
  }

  ghost predicate RunnersSound(w: World) {
    && AtMostOneHost(w.domains)
    && forall d :: d in w.domains && d.key in w.cluster.vms ==> Anchored(w.cluster.vms[d.key], d, w.domains[d])
  }

  /** The scheduler's write takes effect. */
  predicate Effective(s: State)
    requires Enabled(s, WriteNode)
  {
    Copy(s).key in s.w.cluster.vms && s.w.cluster.vms[Copy(s).key] == Copy(s)
  }

  /**
    A scheduler write over a running VM keeps it anchored: the VM stays, a migration was requested
    or is pending, the VM is being deleted, or it has a Ceph image that the domain holds. So does an
    edit: it may not take the last such image from a VM that nothing else anchors.
   */
  predicate Guarded(s: State, e: Step)
    requires Enabled(s, e)
  {
    match e
    case WriteNode =>
      var vm := Copy(s);
      Effective(s) ==> forall d :: d in s.w.domains && d.key == vm.key ==>
        || s.section.value.choice == Some(d.host)
        || MigrationRequested(vm) || vm.Pending() || vm.deleting || Images(vm) * s.w.domains[d] != {}
    case UserEdits(k, spec) =>
      var vm := s.w.cluster.vms[k];
      forall d :: d in s.w.domains && d.key == k && Images(vm) * s.w.domains[d] != {} ==>
        || vm.AssignedNode() == Some(d.host) || vm.Pending() || vm.deleting
        || Images(vm.(spec := spec)) * s.w.domains[d] != {}
    case _ => true
  }

  /** What steps other than the scheduler's and the hosts' keep of a stored object. */
  ghost predicate KeepsFlags(c: Cluster, c': Cluster) {
    forall k :: k in c.vms && k in c'.vms ==>
      c'.vms[k].Pending() == c.vms[k].Pending() && (c.vms[k].deleting ==> c'.vms[k].deleting)
  }

  ghost predicate KeepsImages(c: Cluster, c': Cluster) {
    forall k :: k in c.vms && k in c'.vms ==> Images(c'.vms[k]) == Images(c.vms[k])
  }

  ghost predicate KeepsAll(c: Cluster, c': Cluster) {
    KeepsFlags(c, c') && KeepsImages(c, c') && c'.vms.Keys <= c.vms.Keys
  }

  /** The writer's copy is what is stored under its version. */
  ghost predicate IsCurrent(c: Cluster, vm: Vm) {
    Versioned(c) && (vm.key in c.vms && c.vms[vm.key].version == vm.version ==> c.vms[vm.key] == vm)
  }

  lemma StatusKeepsAll(c: Cluster, vm: Vm, status: Status)
    requires IsCurrent(c, vm) && status.migrationPending == vm.Pending()
    ensures KeepsAll(c, PutStatus(c, vm, status).cluster)
  {
  }

  lemma CommitKeepsAll(c: Cluster, vm: Vm, copy: Vm)
    requires IsCurrent(c, vm) && copy.key == vm.key && copy.version == vm.version
    requires copy.spec.volumes == vm.spec.volumes
    ensures KeepsAll(c, PutObject(c, copy).cluster)
  {
  }

  lemma DeletionKeepsAll(c: Cluster, k: Key)
    requires Versioned(c) && k in c.vms
    ensures KeepsAll(c, DeleteObject(c, k))
  {
  }

  /** An edit can change the images of its VM only. */
  lemma EditKeepsFlags(c: Cluster, k: Key, spec: Spec)
    requires Versioned(c) && k in c.vms
    ensures var c' := PutObject(c, c.vms[k].(spec := spec)).cluster;
            && KeepsFlags(c, c') && c'.vms.Keys <= c.vms.Keys
            && (k in c'.vms ==> Images(c'.vms[k]) == Images(c.vms[k].(spec := spec)))
            && forall j :: j in c'.vms && j != k ==> c'.vms[j] == c.vms[j]
  {
  }

  lemma OthersKeepAll(s: State, e: Step)
    requires Consistent(s) && Enabled(s, e) && e != WriteNode && !e.HostReconciles? && !e.UserCreates? && !e.UserEdits?
    ensures KeepsAll(s.w.cluster, ClusterAfter(s, e))
  {
    var c := s.w.cluster;
    match e
    case WriteStatus(pid, update) => StatusKeepsAll(c, s.copies[pid], Protocol.Updated(s.copies[pid], update));
    case Commit(pid, change) => CommitKeepsAll(c, s.copies[pid], Changed(s.copies[pid], change));
    case UserDeletes(k) => DeletionKeepsAll(c, k);
    case _ =>
  }

  lemma OthersKeepFlags(s: State, e: Step)
    requires Consistent(s) && Enabled(s, e) && e != WriteNode && !e.HostReconciles?
    ensures KeepsFlags(s.w.cluster, ClusterAfter(s, e))
  {
    if e.UserEdits? {
      EditKeepsFlags(s.w.cluster, e.k, e.spec);
    } else if !e.UserCreates? {
      OthersKeepAll(s, e);
    }
  }

  lemma OthersKeepRunners(s: State, e: Step)
    requires Inv(s) && RunnersSound(s.w) && Enabled(s, e) && e != WriteNode && !e.HostReconciles? && !e.UserEdits?
    ensures RunnersSound(Apply(s, e).w)
  {
    OnlySchedulerPlaces(s, e);
    var w, w' := s.w, Apply(s, e).w;
    if !e.UserCreates? {
      OthersKeepAll(s, e);
    }
    forall d | d in w'.domains && d.key in w'.cluster.vms
      ensures Anchored(w'.cluster.vms[d.key], d, w'.domains[d])
    {
      assert d in w.domains && d.key in w.cluster.vms && Anchored(w.cluster.vms[d.key], d, w.domains[d]);
    }
  }

  lemma EditKeepsRunners(s: State, k: Key, spec: Spec)
    requires Inv(s) && RunnersSound(s.w) && Enabled(s, UserEdits(k, spec)) && Guarded(s, UserEdits(k, spec))
    ensures RunnersSound(Apply(s, UserEdits(k, spec)).w)
  {
    OnlySchedulerPlaces(s, UserEdits(k, spec));
    EditKeepsFlags(s.w.cluster, k, spec);
    var w, w' := s.w, Apply(s, UserEdits(k, spec)).w;
    forall d | d in w'.domains && d.key in w'.cluster.vms
      ensures Anchored(w'.cluster.vms[d.key], d, w'.domains[d])
    {
      assert Anchored(w.cluster.vms[d.key], d, w.domains[d]);
    }
  }

  lemma SchedulerKeepsRunners(s: State)
    requires Inv(s) && RunnersSound(s.w) && Enabled(s, WriteNode) && Guarded(s, WriteNode)
    ensures RunnersSound(Apply(s, WriteNode).w)
  {
    var c, c' := s.w.cluster, Apply(s, WriteNode).w.cluster;
    if c' != c {
      assert forall j :: j in c.vms && j != Copy(s).key ==> c'.vms[j] == c.vms[j];
      assert Images(c'.vms[Copy(s).key]) == Images(Copy(s));
    }
  }

  /** What a host's write to the object at `k` may change of it. */
  ghost predicate HostWrite(w: World, c': Cluster, k: Key, host: string)
    requires k in w.cluster.vms
  {
    var c := w.cluster;
    && c'.vms.Keys <= c.vms.Keys
    && (forall j :: j in c'.vms && j != k ==> c'.vms[j] == c.vms[j])
    && (k in c'.vms ==>
          && Images(c'.vms[k]) == Images(c.vms[k])
          && c'.vms[k].AssignedNode() == c.vms[k].AssignedNode()
          && c'.vms[k].deleting == c.vms[k].deleting
          && (c.vms[k].Pending() && !c'.vms[k].Pending() ==>
                Domain(k, host) in w.domains && c.vms[k].AssignedNode() == Some(host)))
  }

  lemma StatusIsHostWrite(w: World, k: Key, host: string, status: Status)
    requires Versioned(w.cluster) && k in w.cluster.vms && w.cluster.vms[k].status.Some?
    requires status.node == w.cluster.vms[k].AssignedNode()
    requires status.migrationPending == w.cluster.vms[k].Pending()
             || (Domain(k, host) in w.domains && w.cluster.vms[k].AssignedNode() == Some(host))
    ensures HostWrite(w, PutStatus(w.cluster, w.cluster.vms[k], status).cluster, k, host)
  {
  }

  lemma CommitIsHostWrite(w: World, k: Key, host: string, copy: Vm)
    requires Versioned(w.cluster) && k in w.cluster.vms
    requires copy == w.cluster.vms[k].(finalizers := copy.finalizers)
    ensures HostWrite(w, PutObject(w.cluster, copy).cluster, k, host)
  {
  }

  lemma HostKeepsFlags(w: World, k: Key, host: string, ok: bool)
    requires Versioned(w.cluster) && k in w.cluster.vms
    ensures HostWrite(w, ReconcileOutcome(w, w.cluster.vms[k], host, ok).world.cluster, k, host)
  {
    var vm := w.cluster.vms[k];
    HostWritesOnce(w, k, host, ok);
    CommitIsHostWrite(w, k, host, WithFinalizer(vm, FinalizerName(FINALIZER)));
    CommitIsHostWrite(w, k, host, WithoutFinalizer(vm, FinalizerName(FINALIZER)));
    if vm.status.Some? {
      StatusIsHostWrite(w, k, host, vm.status.value.(running := true));
      if Domain(k, host) in w.domains && vm.AssignedNode() == Some(host) {
        StatusIsHostWrite(w, k, host, vm.status.value.(migrationPending := false));
      }
    }
  }

  /** A domain running elsewhere either makes the event a different one or holds the images locked. */
  lemma StartsOnlyWhatRunsNowhere(w: World, k: Key, host: string, d: Domain)
    requires RunnersSound(w) && k in w.cluster.vms && d in w.domains && d.key == k
    requires GetEventType(w.cluster.vms[k], host, Domain(k, host) in w.domains) == Added
    ensures Locked(w.domains, Images(w.cluster.vms[k]))
  {
    assert Anchored(w.cluster.vms[k], d, w.domains[d]) && d != Domain(k, host);
    assert w.domains[d] * Images(w.cluster.vms[k]) == Images(w.cluster.vms[k]) * w.domains[d];
  }

  /** A host moves, removes or starts a domain of one VM, the last only if it runs nowhere. */
  lemma HostKeepsOneRunner(w: World, k: Key, host: string, ok: bool)
    requires Versioned(w.cluster) && RunnersSound(w) && k in w.cluster.vms
    ensures var vm, domains' := w.cluster.vms[k], ReconcileOutcome(w, w.cluster.vms[k], host, ok).world.domains;
            || domains' == w.domains
            || domains' == w.domains - {Domain(k, host)}
            || (&& domains' == w.domains[Domain(k, host) := Images(vm)] && vm.AssignedNode() == Some(host)
                && forall d :: d in w.domains ==> d.key != k)
            || (&& vm.AssignedNode().Some? && Domain(k, host) in w.domains
                && domains' ==
                     (w.domains - {Domain(k, host)})[Domain(k, vm.AssignedNode().value) := w.domains[Domain(k, host)]])
  {
    var vm := w.cluster.vms[k];
    if GetEventType(vm, host, Domain(k, host) in w.domains) == Added {
      forall d | d in w.domains && d.key == k
        ensures Locked(w.domains, Images(vm))
      {
        StartsOnlyWhatRunsNowhere(w, k, host, d);
      }
    }
  }

  lemma HostKeepsRunners(w: World, k: Key, host: string, ok: bool)
    requires Versioned(w.cluster) && RunnersSound(w) && k in w.cluster.vms
    ensures RunnersSound(ReconcileOutcome(w, w.cluster.vms[k], host, ok).world)
  {
    HostKeepsFlags(w, k, host, ok);
    HostKeepsOneRunner(w, k, host, ok);
    var w' := ReconcileOutcome(w, w.cluster.vms[k], host, ok).world;
    forall d | d in w'.domains && d.key in w'.cluster.vms
      ensures Anchored(w'.cluster.vms[d.key], d, w'.domains[d])
    {
      if d.key == k && d in w.domains && Domain(k, host) in w.domains {
        assert d == Domain(k, host);
      }
    }
  }

  lemma RunnersKept(s: State, e: Step)
    requires Inv(s) && RunnersSound(s.w) && Enabled(s, e) && Guarded(s, e)
    ensures RunnersSound(Apply(s, e).w)
  {
    match e
    case HostReconciles(host, k, ok) => HostKeepsRunners(s.w, k, host, ok);
    case WriteNode => SchedulerKeepsRunners(s);
    case UserEdits(k, spec) => EditKeepsRunners(s, k, spec);
    case _ => OthersKeepRunners(s, e);
  }

  ghost predicate GuardedRun(s: State, steps: seq<Step>)
    requires Run(s, steps)
    decreases |steps|
  {
    steps == [] || (Guarded(s, steps[0]) && GuardedRun(Apply(s, steps[0]), steps[1..]))
  }

  /** Guarded runs keep every VM on at most one host, from any sound state. */
  lemma {:induction false} RunnersAlongRuns(s: State, steps: seq<Step>)
    requires Inv(s) && RunnersSound(s.w) && Run(s, steps) && GuardedRun(s, steps)
    ensures RunnersSound(After(s, steps).w)
    decreases |steps|
  {
    if steps != [] {
      RunnersKept(s, steps[0]);
      InvKept(s, steps[0]);
      RunnersAlongRuns(Apply(s, steps[0]), steps[1..]);
    }
  }

  /**
    In every interleaving of scheduler passes, drain requests, other writers, host reconciles,
    user actions and stopping domains, at most one host runs a VM's domain, as long as every
    reassignment of a running VM is guarded.
   */
  lemma SingleRunner(start: State, steps: seq<Step>)
    requires Start(start) && Run(start, steps) && GuardedRun(start, steps)
    ensures AtMostOneHost(After(start, steps).w.domains)
  {
    RunnersAlongRuns(start, steps);
  }

  lemma TwoSteps(s: State, a: Step, b: Step)
    requires Enabled(s, a) && Enabled(Apply(s, a), b) && Guarded(s, a) && Guarded(Apply(s, a), b)
    ensures Run(s, [a, b]) && GuardedRun(s, [a, b])
    ensures After(s, [a, b]) == Apply(Apply(s, a), b)
  {
    var s1, s2 := Apply(s, a), Apply(Apply(s, a), b);
    assert [a, b][1..] == [b] && [b][1..] == [];
    assert Run(s2, []) && After(s2, []) == s2 && GuardedRun(s2, []);
    assert Run(s1, [b]) && After(s1, [b]) == s2 && GuardedRun(s1, [b]);
  }

  /** The VM of a running domain is assigned to another host, and nothing keeps that one from starting it. */
  ghost predicate Loose(w: World, d: Domain) {
    && d in w.domains && d.key in w.cluster.vms
    && var vm := w.cluster.vms[d.key];
       && vm.AssignedNode().Some? && vm.AssignedNode() != Some(d.host)
       && !vm.Pending() && !vm.deleting && Images(vm) * w.domains[d] == {}
  }

  /** The user switches the VM on and takes its volumes away, which another VM's domain might hold. */
  function Bared(spec: Spec): Spec {
    spec.(powerAction := Some(PowerOn), volumes := [])
  }

  lemma BaredObject(s: State, d: Domain)
    requires Inv(s) && AtMostOneHost(s.w.domains) && Loose(s.w, d)
    ensures var edit := UserEdits(d.key, Bared(s.w.cluster.vms[d.key].spec));
            && Enabled(s, edit) && Guarded(s, edit)
            && var c, c' := s.w.cluster, Apply(s, edit).w.cluster;
               && Versioned(c') && d.key in c'.vms
               && c'.vms[d.key].AssignedNode() == c.vms[d.key].AssignedNode() && c'.vms[d.key].Scheduled()
               && !c'.vms[d.key].Pending() && !c'.vms[d.key].deleting && Images(c'.vms[d.key]) == {}
               && c'.vms[d.key].spec.powerAction == Some(PowerOn)
  {
    InvKept(s, UserEdits(d.key, Bared(s.w.cluster.vms[d.key].spec)));
  }

  /** A host starts a VM assigned to it that has no migration pending and no Ceph image. */
  lemma HostStarts(w: World, k: Key, host: string)
    requires Versioned(w.cluster) && k in w.cluster.vms && Domain(k, host) !in w.domains
    requires var vm := w.cluster.vms[k];
             && vm.AssignedNode() == Some(host) && vm.Scheduled() && !vm.Pending() && !vm.deleting
             && Images(vm) == {} && vm.spec.powerAction == Some(PowerOn)
    ensures ReconcileOutcome(w, w.cluster.vms[k], host, true).world.domains == w.domains[Domain(k, host) := {}]
  {
  }

  /** The host the VM is assigned to starts it a second time. */
  lemma LooseStartsTwice(s: State, d: Domain) returns (steps: seq<Step>)
    requires Inv(s) && AtMostOneHost(s.w.domains) && Loose(s.w, d)
    ensures Run(s, steps) && GuardedRun(s, steps) && !AtMostOneHost(After(s, steps).w.domains)
  {
    var node := s.w.cluster.vms[d.key].AssignedNode().value;
    var edit := UserEdits(d.key, Bared(s.w.cluster.vms[d.key].spec));
    var starts := HostReconciles(node, d.key, true);
    BaredObject(s, d);
    var s1 := Apply(s, edit);
    HostStarts(s1.w, d.key, node);
    TwoSteps(s, edit, starts);
    steps := [edit, starts];
    assert Domain(d.key, node) in Apply(s1, starts).w.domains && d in Apply(s1, starts).w.domains;
  }

  /** A write that is not guarded leaves a running VM loose. */
  lemma UnguardedWriteLoosens(s: State) returns (d: Domain)
    requires Inv(s) && RunnersSound(s.w) && Enabled(s, WriteNode) && !Guarded(s, WriteNode)
    ensures Loose(Apply(s, WriteNode).w, d)
  {
    var vm := Copy(s);
    d :| d in s.w.domains && d.key == vm.key && s.section.value.choice != Some(d.host)
         && !MigrationRequested(vm) && !vm.Pending() && !vm.deleting && Images(vm) * s.w.domains[d] == {};
    assert Images(Apply(s, WriteNode).w.cluster.vms[vm.key]) == Images(vm);
  }

  lemma UnguardedEditLoosens(s: State, k: Key, spec: Spec) returns (d: Domain)
    requires Inv(s) && RunnersSound(s.w) && Enabled(s, UserEdits(k, spec)) && !Guarded(s, UserEdits(k, spec))
    ensures Loose(Apply(s, UserEdits(k, spec)).w, d)
  {
    var vm := s.w.cluster.vms[k];
    d :| d in s.w.domains && d.key == k && vm.AssignedNode() != Some(d.host) && !vm.Pending() && !vm.deleting
         && Images(vm.(spec := spec)) * s.w.domains[d] == {};
    assert Anchored(vm, d, s.w.domains[d]);
    EditKeepsFlags(s.w.cluster, k, spec);
    OnlySchedulerPlaces(s, UserEdits(k, spec));
  }

  /** After an unguarded step a host starts some VM a second time. */
  lemma UnguardedStartsTwice(s: State, e: Step) returns (steps: seq<Step>)
    requires Inv(s) && RunnersSound(s.w) && Enabled(s, e) && !Guarded(s, e)
    ensures Run(Apply(s, e), steps) && GuardedRun(Apply(s, e), steps)
    ensures !AtMostOneHost(After(Apply(s, e), steps).w.domains)
  {
    InvKept(s, e);
    var d: Domain;
    if e == WriteNode {
      d := UnguardedWriteLoosens(s);
    } else {
      d := UnguardedEditLoosens(s, e.k, e.spec);
    }
    steps := LooseStartsTwice(Apply(s, e), d);
  }

  /**
    The guard is exact: a step is safe for every guarded continuation if and only if it is guarded.
    That concerns the scheduler's write and edits; every other step is guarded.
   */
  lemma GuardIsExact(s: State, e: Step)
    requires Inv(s) && RunnersSound(s.w) && Enabled(s, e)
    ensures Guarded(s, e) <==>
            forall steps :: Run(Apply(s, e), steps) && GuardedRun(Apply(s, e), steps) ==>
              AtMostOneHost(After(Apply(s, e), steps).w.domains)
  {
    var s' := Apply(s, e);
    if Guarded(s, e) {
      RunnersKept(s, e);
      InvKept(s, e);
      forall steps | Run(s', steps) && GuardedRun(s', steps)
        ensures AtMostOneHost(After(s', steps).w.domains)
      {
        RunnersAlongRuns(s', steps);
      }
    } else {
      var steps := UnguardedStartsTwice(s, e);
    }
  }
}
