/**
  A VM object can go away while a domain of it runs: the host it is assigned to takes its finalizer off
  when it has no domain itself. This module says exactly when, and which reassignments rule it out
  without any assumption on when a key may be used again.
 */
module Orphans {
  import opened Prelude
  import opened Kube
  import opened Scheduling
  import opened Hosts
  import opened Protocol
  import opened Runners
  import V = VmController

  function HostFinalizer(): string {
    FinalizerName(FINALIZER)
  }

  /** The host is to clean up a VM under deletion whose only finalizer is the hosts'. */
  predicate CleansUp(w: World, vm: Vm, host: string, ok: bool) {
    && GetEventType(vm, host, Domain(vm.key, host) in w.domains) == Deleted
    && HostFinalizer() in vm.finalizers && (forall f :: f in vm.finalizers ==> f == HostFinalizer())
    && (Domain(vm.key, host) in w.domains ==> ok)
  }

  /** The object at `k` keeps its placement and carries the hosts' finalizer; the others stay. */
  ghost predicate OnlyFinalized(c: Cluster, c': Cluster, k: Key)
    requires k in c.vms
  {
    && k in c'.vms && c'.vms[k].AssignedNode() == c.vms[k].AssignedNode() && HostFinalizer() in c'.vms[k].finalizers
    && forall j :: j in c.vms && j != k ==> j in c'.vms && c'.vms[j] == c.vms[j]
  }

  lemma FinalizedObject(c: Cluster, k: Key)
    requires Versioned(c) && k in c.vms
    ensures EnsureFinalizerResponse(c, c.vms[k]).error.None?
    ensures OnlyFinalized(c, EnsureFinalizerResponse(c, c.vms[k]).cluster, k)
  {
    assert WithFinalizer(c.vms[k], HostFinalizer()).finalizers != [];
  }

  lemma StatusOfFinalized(c: Cluster, c': Cluster, k: Key, vm: Vm, status: Status)
    requires k in c.vms && OnlyFinalized(c, c', k) && vm.key == k && status.node == c.vms[k].AssignedNode()
    ensures OnlyFinalized(c, PutStatus(c', vm, status).cluster, k)
  {
  }

  lemma AddedObject(w: World, k: Key, host: string, ok: bool)
    requires Versioned(w.cluster) && k in w.cluster.vms && w.cluster.vms[k].status.Some?
    ensures OnlyFinalized(w.cluster, AddOutcome(w, w.cluster.vms[k], host, ok).world.cluster, k)
  {
    var vm := w.cluster.vms[k];
    FinalizedObject(w.cluster, k);
    StatusOfFinalized(w.cluster, EnsureFinalizerResponse(w.cluster, vm).cluster, k, vm,
      vm.status.value.(running := true));
  }

  lemma RemovalVanishes(w: World, k: Key)
    requires Versioned(w.cluster) && k in w.cluster.vms && w.cluster.vms[k].deleting
    ensures k !in RemoveFinalizerResponse(w.cluster, w.cluster.vms[k]).cluster.vms <==>
              HostFinalizer() in w.cluster.vms[k].finalizers && forall f :: f in w.cluster.vms[k].finalizers ==>
                f == HostFinalizer()
  {
    var vm := w.cluster.vms[k];
    var without := WithoutFinalizer(vm, HostFinalizer());
    if without.finalizers != [] {
      assert without.finalizers[0] in without.finalizers;
    }
  }

  /**
    A host reconcile makes the object go away exactly in this case, and then leaves every domain on another host
    running.
   */
  lemma VanishesExactly(w: World, k: Key, host: string, ok: bool)
    requires Versioned(w.cluster) && k in w.cluster.vms
    ensures var w' := ReconcileOutcome(w, w.cluster.vms[k], host, ok).world;
            && (k !in w'.cluster.vms <==> CleansUp(w, w.cluster.vms[k], host, ok))
            && (k !in w'.cluster.vms ==> forall d :: d in w.domains && d.host != host ==> d in w'.domains)
  {
    var vm := w.cluster.vms[k];
    match GetEventType(vm, host, Domain(vm.key, host) in w.domains)
    case Deleted => RemovalVanishes(w, k);
    case Added => AddedObject(w, k, host, ok);
    case _ =>
  }

  /** A finalizer of none of the controllers: nothing in this system takes it off. */
  predicate IsForeign(finalizer: string) {
    !(GROUP_NAME + "/" <= finalizer)
  }

  lemma ForeignIsUnnamed(finalizer: string)
    ensures IsForeign(finalizer) <==> forall short :: finalizer != FinalizerName(short)
  {
    if !IsForeign(finalizer) {
      assert finalizer == FinalizerName(finalizer[|GROUP_NAME + "/"|..]);
    }
  }

  predicate HasForeign(vm: Vm) {
    exists f :: f in vm.finalizers && IsForeign(f)
  }

  /** What keeps the object of a running domain in place: the domain is where it is assigned or is being moved. */
  predicate Held(vm: Vm, d: Domain) {
    && vm.AssignedNode().Some? && (vm.AssignedNode() == Some(d.host) || vm.Pending())
    && HostFinalizer() in vm.finalizers
  }

  /** Apart from the VMs `spare`, one host runs a VM, and its object is held in place. */
  ghost predicate Runs(w: World, spare: set<Key>) {
    && (forall d, d' :: d in w.domains && d' in w.domains && d.key == d'.key && d.key !in spare ==> d == d')
    && forall d :: d in w.domains && d.key !in spare ==> d.key in w.cluster.vms && Held(w.cluster.vms[d.key], d)
  }

  /** Each running domain has its object; a foreign finalizer keeps the objects `spare`, whatever their domains do. */
  ghost predicate Owned(w: World, spare: set<Key>) {
    Runs(w, spare) && forall k :: k in spare ==> k in w.cluster.vms && HasForeign(w.cluster.vms[k])
  }

  /** Every running domain has its object. */
  ghost predicate HasObjects(w: World) {
    forall d :: d in w.domains ==> d.key in w.cluster.vms
  }

  /**
    A reassignment of a running VM that keeps its object in place: the VM stays, or a migration is
    requested or pending. A volume or a deletion under way does not suffice. Nobody else removes the
    hosts' finalizer.
   */
  predicate Strict(s: State, e: Step)
    requires Enabled(s, e)
  {
    && (e == WriteNode && Effective(s) ==>
          var vm := Copy(s);
          forall d :: d in s.w.domains && d.key == vm.key ==>
            s.section.value.choice == Some(d.host) || MigrationRequested(vm) || vm.Pending())
    && (e.Commit? && e.change.RemoveFinalizer? ==> FinalizerName(e.change.short) != HostFinalizer())
  }

  /** The object at `k` stays, and keeps the finalizer. */
  ghost predicate KeepsFinalizer(c': Cluster, k: Key, finalizer: string) {
    k in c'.vms && finalizer in c'.vms[k].finalizers
  }

  lemma CommitKeepsFinalizer(c: Cluster, vm: Vm, copy: Vm, k: Key, finalizer: string)
    requires IsCurrent(c, vm) && KeepsFinalizer(c, k, finalizer)
    requires copy.key == vm.key && copy.version == vm.version
    requires finalizer in vm.finalizers ==> finalizer in copy.finalizers
    ensures KeepsFinalizer(PutObject(c, copy).cluster, k, finalizer)
  {
  }

  lemma StatusKeepsFinalizer(c: Cluster, vm: Vm, status: Status, k: Key, finalizer: string)
    requires KeepsFinalizer(c, k, finalizer)
    ensures KeepsFinalizer(PutStatus(c, vm, status).cluster, k, finalizer)
  {
  }

  lemma ChangeKeepsFinalizer(vm: Vm, change: Change, finalizer: string)
    requires finalizer in vm.finalizers && (change.RemoveFinalizer? ==> FinalizerName(change.short) != finalizer)
    ensures finalizer in Changed(vm, change).finalizers
  {
  }

  /** Only a removal of the very finalizer takes it off, and no object goes away with a finalizer. */
  lemma OthersKeepFinalizer(s: State, e: Step, k: Key, finalizer: string)
    requires Consistent(s) && Enabled(s, e) && !e.HostReconciles? && KeepsFinalizer(s.w.cluster, k, finalizer)
    requires e.Commit? && e.change.RemoveFinalizer? ==> FinalizerName(e.change.short) != finalizer
    ensures KeepsFinalizer(ClusterAfter(s, e), k, finalizer)
  {
    var c := s.w.cluster;
    match e
    case WriteStatus(pid, update) =>
      StatusKeepsFinalizer(c, s.copies[pid], Protocol.Updated(s.copies[pid], update), k, finalizer);
    case Commit(pid, change) =>
      if finalizer in s.copies[pid].finalizers {
        ChangeKeepsFinalizer(s.copies[pid], change, finalizer);
      }
      CommitKeepsFinalizer(c, s.copies[pid], Changed(s.copies[pid], change), k, finalizer);
    case WriteNode => StatusKeepsFinalizer(c, Copy(s), V.ScheduledStatus(Copy(s), s.section.value.choice.value), k,
      finalizer);
    case UserEdits(j, spec) => CommitKeepsFinalizer(c, c.vms[j], c.vms[j].(spec := spec), k, finalizer);
    case _ =>
  }

  /** A host takes off no finalizer but the hosts' own. */
  lemma HostKeepsFinalizer(w: World, k: Key, host: string, ok: bool, j: Key, finalizer: string)
    requires Versioned(w.cluster) && k in w.cluster.vms && KeepsFinalizer(w.cluster, j, finalizer)
    requires finalizer != HostFinalizer()
    ensures KeepsFinalizer(ReconcileOutcome(w, w.cluster.vms[k], host, ok).world.cluster, j, finalizer)
  {
    var vm := w.cluster.vms[k];
    HostWritesOnce(w, k, host, ok);
    CommitKeepsFinalizer(w.cluster, vm, WithFinalizer(vm, HostFinalizer()), j, finalizer);
    CommitKeepsFinalizer(w.cluster, vm, WithoutFinalizer(vm, HostFinalizer()), j, finalizer);
    if vm.status.Some? {
      StatusKeepsFinalizer(w.cluster, vm, vm.status.value.(migrationPending := false), j, finalizer);
      StatusKeepsFinalizer(w.cluster, vm, vm.status.value.(running := true), j, finalizer);
    }
  }

  lemma ForeignStays(s: State, e: Step, k: Key)
    requires Consistent(s) && Enabled(s, e) && k in s.w.cluster.vms && HasForeign(s.w.cluster.vms[k])
    ensures k in ClusterAfter(s, e).vms && HasForeign(ClusterAfter(s, e).vms[k])
  {
    var f :| f in s.w.cluster.vms[k].finalizers && IsForeign(f);
    ForeignIsUnnamed(f);
    if e.HostReconciles? {
      HostKeepsFinalizer(s.w, e.k, e.host, e.ok, k, f);
    } else {
      OthersKeepFinalizer(s, e, k, f);
    }
  }

  lemma OthersKeepRuns(s: State, e: Step, spare: set<Key>)
    requires Inv(s) && Runs(s.w, spare) && Enabled(s, e) && Strict(s, e) && e != WriteNode && !e.HostReconciles?
    ensures Runs(Apply(s, e).w, spare)
  {
    OnlySchedulerPlaces(s, e);
    OthersKeepFlags(s, e);
    forall d | d in Apply(s, e).w.domains && d.key !in spare
      ensures d.key in Apply(s, e).w.cluster.vms && Held(Apply(s, e).w.cluster.vms[d.key], d)
    {
      assert d in s.w.domains;
      OthersKeepFinalizer(s, e, d.key, HostFinalizer());
    }
  }

  lemma SchedulerKeepsRuns(s: State, spare: set<Key>)
    requires Inv(s) && Runs(s.w, spare) && Enabled(s, WriteNode)
    requires Strict(s, WriteNode) || Copy(s).key in spare
    ensures Runs(Apply(s, WriteNode).w, spare)
  {
    var c, c' := s.w.cluster, Apply(s, WriteNode).w.cluster;
    forall d | d in s.w.domains && d.key !in spare
      ensures d.key in c'.vms && Held(c'.vms[d.key], d)
    {
      OthersKeepFinalizer(s, WriteNode, d.key, HostFinalizer());
    }
  }

  lemma CleanupKeepsRuns(w: World, k: Key, host: string, ok: bool, spare: set<Key>)
    requires Versioned(w.cluster) && Runs(w, spare) && k in w.cluster.vms
    requires GetEventType(w.cluster.vms[k], host, Domain(k, host) in w.domains) == Deleted
    ensures Runs(DeleteOutcome(w, w.cluster.vms[k], host, ok).world, spare)
  {
    var w' := DeleteOutcome(w, w.cluster.vms[k], host, ok).world;
    forall d | d in w'.domains && d.key !in spare
      ensures d.key in w'.cluster.vms && Held(w'.cluster.vms[d.key], d)
    {
      assert d in w.domains && Held(w.cluster.vms[d.key], d);
      assert d.key == k ==> d == Domain(k, host);
    }
  }

  lemma StartKeepsRuns(w: World, k: Key, host: string, ok: bool, spare: set<Key>)
    requires Versioned(w.cluster) && Runs(w, spare) && k in w.cluster.vms
    requires GetEventType(w.cluster.vms[k], host, Domain(k, host) in w.domains) == Added
    ensures Runs(AddOutcome(w, w.cluster.vms[k], host, ok).world, spare)
  {
    AddedObject(w, k, host, ok);
    forall d | d in w.domains && d.key !in spare
      ensures d.key != k
    {
      assert Held(w.cluster.vms[d.key], d);
    }
  }

  lemma MoveKeepsRuns(w: World, k: Key, host: string, ok: bool, spare: set<Key>)
    requires Versioned(w.cluster) && Runs(w, spare) && k in w.cluster.vms
    requires GetEventType(w.cluster.vms[k], host, Domain(k, host) in w.domains) == OutboundMigration
    ensures Runs(OutboundOutcome(w, w.cluster.vms[k], host, ok).world, spare)
  {
    var w' := OutboundOutcome(w, w.cluster.vms[k], host, ok).world;
    assert k !in spare ==> Held(w.cluster.vms[k], Domain(k, host));
    forall d | d in w'.domains && d.key !in spare
      ensures d.key in w'.cluster.vms && Held(w'.cluster.vms[d.key], d)
    {
      if d.key == k && d in w.domains {
        assert d == Domain(k, host) || d.host == host;
      }
    }
  }

  /** Where no migration is pending, a domain is at its node. */
  lemma HostKeepsRuns(w: World, k: Key, host: string, ok: bool, spare: set<Key>)
    requires Versioned(w.cluster) && Runs(w, spare) && k in w.cluster.vms
    ensures Runs(ReconcileOutcome(w, w.cluster.vms[k], host, ok).world, spare)
  {
    var vm := w.cluster.vms[k];
    assert forall d :: d in w.domains && d.key == k && k !in spare ==> Held(vm, d);
    match GetEventType(vm, host, Domain(k, host) in w.domains)
    case Deleted => CleanupKeepsRuns(w, k, host, ok, spare);
    case Added => StartKeepsRuns(w, k, host, ok, spare);
    case OutboundMigration => MoveKeepsRuns(w, k, host, ok, spare);
    case _ =>
  }

  lemma OwnedKept(s: State, e: Step, spare: set<Key>)
    requires Inv(s) && Owned(s.w, spare) && Enabled(s, e)
    requires Strict(s, e) || (e == WriteNode && Copy(s).key in spare)
    ensures Owned(Apply(s, e).w, spare)
  {
    forall k | k in spare
      ensures k in ClusterAfter(s, e).vms && HasForeign(ClusterAfter(s, e).vms[k])
    {
      ForeignStays(s, e, k);
    }
    match e
    case HostReconciles(host, k, ok) => HostKeepsRuns(s.w, k, host, ok, spare);
    case WriteNode => SchedulerKeepsRuns(s, spare);
    case _ => OthersKeepRuns(s, e, spare);
  }

  /** The guards of the machine without the assumption on new objects. */
  predicate EnabledForAll(s: State, e: Step) {
    if e.UserCreates? then e.vm.key !in s.w.cluster.vms else Enabled(s, e)
  }

  /** While every running domain has its object the assumption holds by itself. */
  lemma AssumptionHolds(s: State, e: Step)
    requires HasObjects(s.w)
    ensures EnabledForAll(s, e) <==> Enabled(s, e)
  {
  }

  ghost predicate StrictRun(s: State, steps: seq<Step>)
    decreases |steps|
  {
    steps == [] || (EnabledForAll(s, steps[0])
                    && (Enabled(s, steps[0]) ==> Strict(s, steps[0]) && StrictRun(Apply(s, steps[0]), steps[1..])))
  }

  lemma {:induction false} OwnedAlongRuns(s: State, steps: seq<Step>, spare: set<Key>)
    requires Inv(s) && Owned(s.w, spare) && StrictRun(s, steps)
    ensures Run(s, steps) && Owned(After(s, steps).w, spare) && HasObjects(After(s, steps).w)
    decreases |steps|
  {
    if steps != [] {
      AssumptionHolds(s, steps[0]);
      OwnedKept(s, steps[0], spare);
      InvKept(s, steps[0]);
      OwnedAlongRuns(Apply(s, steps[0]), steps[1..], spare);
    }
  }

  /**
    Main result: over every run of strict steps, with keys used again at any time, the machine's
    assumption is never needed, every running domain has its object, and at most one host runs a VM.
   */
  lemma StrictRunsKeepObjects(s: State, steps: seq<Step>)
    requires Inv(s) && Owned(s.w, {}) && StrictRun(s, steps)
    ensures Run(s, steps) && HasObjects(After(s, steps).w) && AtMostOneHost(After(s, steps).w.domains)
  {
    OwnedAlongRuns(s, steps, {});
  }

  // Losing an object

  lemma StrictMore(s: State, e: Step, rest: seq<Step>)
    requires Enabled(s, e) && !e.UserCreates? && Strict(s, e) && Run(Apply(s, e), rest) && StrictRun(Apply(s, e), rest)
    ensures Run(s, [e] + rest) && StrictRun(s, [e] + rest) && After(s, [e] + rest) == After(Apply(s, e), rest)
  {
    assert ([e] + rest)[1..] == rest;
  }

  /** An object under deletion with finalizers of controllers only, none of them the hosts'. */
  ghost predicate Leaving(s: State, k: Key) {
    && Inv(s) && s.section.None? && k in s.w.cluster.vms
    && var vm := s.w.cluster.vms[k];
       && vm.deleting && !HasForeign(vm) && HostFinalizer() !in vm.finalizers
  }

  lemma ShorterWithout(vm: Vm, finalizer: string)
    requires finalizer in vm.finalizers
    ensures |WithoutFinalizer(vm, finalizer).finalizers| < |vm.finalizers|
  {
    if |WithoutFinalizer(vm, finalizer).finalizers| == |vm.finalizers| {
      RetainedAll(vm.finalizers, f => f != finalizer);
    }
  }

  /** A controller reads the object and takes its finalizer off. */
  lemma OneFinalizerLess(s: State, k: Key, short: string) returns (s': State)
    requires Leaving(s, k) && FinalizerName(short) in s.w.cluster.vms[k].finalizers
    ensures Enabled(s, ReadCopy(0, k)) && Enabled(Apply(s, ReadCopy(0, k)), Commit(0, RemoveFinalizer(short)))
    ensures s' == Apply(Apply(s, ReadCopy(0, k)), Commit(0, RemoveFinalizer(short)))
    ensures s'.w.domains == s.w.domains
    ensures k in s'.w.cluster.vms ==>
              Leaving(s', k) && |s'.w.cluster.vms[k].finalizers| < |s.w.cluster.vms[k].finalizers|
  {
    var s1 := Apply(s, ReadCopy(0, k));
    InvKept(s, ReadCopy(0, k));
    InvKept(s1, Commit(0, RemoveFinalizer(short)));
    ShorterWithout(s.w.cluster.vms[k], FinalizerName(short));
    s' := Apply(s1, Commit(0, RemoveFinalizer(short)));
  }

  lemma {:induction false} FinalizersGo(s: State, k: Key) returns (steps: seq<Step>)
    requires Leaving(s, k)
    ensures Run(s, steps) && StrictRun(s, steps)
    ensures k !in After(s, steps).w.cluster.vms && After(s, steps).w.domains == s.w.domains
    decreases |s.w.cluster.vms[k].finalizers|
  {
    var f := s.w.cluster.vms[k].finalizers[0];
    ForeignIsUnnamed(f);
    var short :| f == FinalizerName(short);
    var s' := OneFinalizerLess(s, k, short);
    var rest := [];
    if k in s'.w.cluster.vms {
      rest := FinalizersGo(s', k);
    }
    StrictMore(Apply(s, ReadCopy(0, k)), Commit(0, RemoveFinalizer(short)), rest);
    StrictMore(s, ReadCopy(0, k), [Commit(0, RemoveFinalizer(short))] + rest);
    steps := [ReadCopy(0, k)] + ([Commit(0, RemoveFinalizer(short))] + rest);
  }

  /** After a write that is not strict and a user's deletion the new host is to clean the object up. */
  lemma LooseObject(s: State) returns (d: Domain)
    requires Inv(s) && Owned(s.w, {}) && Enabled(s, WriteNode) && !Strict(s, WriteNode)
    ensures d in s.w.domains && d.key == Copy(s).key && s.section.value.choice != Some(d.host)
    ensures Enabled(Apply(s, WriteNode), UserDeletes(d.key))
    ensures var s' := Apply(Apply(s, WriteNode), UserDeletes(d.key));
            && Inv(s') && s'.w.domains == s.w.domains && s'.section.None? && d.key in s'.w.cluster.vms
            && var vm := s'.w.cluster.vms[d.key];
               && vm.deleting && vm.finalizers == Copy(s).finalizers
               && GetEventType(vm, s.section.value.choice.value,
                    Domain(d.key, s.section.value.choice.value) in s'.w.domains) == Deleted
  {
    var vm := Copy(s);
    d :| d in s.w.domains && d.key == vm.key && s.section.value.choice != Some(d.host)
         && !MigrationRequested(vm) && !vm.Pending();
    InvKept(s, WriteNode);
    InvKept(Apply(s, WriteNode), UserDeletes(d.key));
    assert Held(s.w.cluster.vms[d.key], d);
  }

  /** The host takes its finalizer off, and the object is gone or leaving. */
  lemma CleanedUp(s: State, k: Key, host: string)
    requires Inv(s) && s.section.None? && k in s.w.cluster.vms && !HasForeign(s.w.cluster.vms[k])
    requires GetEventType(s.w.cluster.vms[k], host, Domain(k, host) in s.w.domains) == Deleted
    ensures var s' := Apply(s, HostReconciles(host, k, true));
            && s'.w.domains == s.w.domains - {Domain(k, host)} && (k in s'.w.cluster.vms ==> Leaving(s', k))
  {
    InvKept(s, HostReconciles(host, k, true));
  }

  /** Such a write lets the VM's object go away while its domain runs, unless a foreign finalizer holds it. */
  lemma LooseLosesObject(s: State) returns (steps: seq<Step>)
    requires Inv(s) && Owned(s.w, {}) && Enabled(s, WriteNode) && !Strict(s, WriteNode) && !HasForeign(Copy(s))
    ensures Run(Apply(s, WriteNode), steps) && StrictRun(Apply(s, WriteNode), steps)
    ensures !HasObjects(After(Apply(s, WriteNode), steps).w)
  {
    var d := LooseObject(s);
    var node := s.section.value.choice.value;
    var s1 := Apply(s, WriteNode);
    var s2 := Apply(s1, UserDeletes(d.key));
    CleanedUp(s2, d.key, node);
    var s3 := Apply(s2, HostReconciles(node, d.key, true));
    var rest := [];
    if d.key in s3.w.cluster.vms {
      rest := FinalizersGo(s3, d.key);
    }
    StrictMore(s2, HostReconciles(node, d.key, true), rest);
    StrictMore(s1, UserDeletes(d.key), [HostReconciles(node, d.key, true)] + rest);
    steps := [UserDeletes(d.key)] + ([HostReconciles(node, d.key, true)] + rest);
    assert d in After(s3, rest).w.domains;
  }

  /**
    The condition is exact: a scheduler write keeps the object of every running domain, for all strict
    continuations, if and only if it is strict or the VM carries a finalizer that no controller knows.
   */
  lemma StrictIsExact(s: State)
    requires Inv(s) && Owned(s.w, {}) && Enabled(s, WriteNode)
    ensures Strict(s, WriteNode) || HasForeign(Copy(s)) <==>
            forall steps :: StrictRun(Apply(s, WriteNode), steps) ==>
              Run(Apply(s, WriteNode), steps) && HasObjects(After(Apply(s, WriteNode), steps).w)
  {
    var s' := Apply(s, WriteNode);
    if Strict(s, WriteNode) || HasForeign(Copy(s)) {
      var spare := if Strict(s, WriteNode) then {} else {Copy(s).key};
      OwnedKept(s, WriteNode, spare);
      InvKept(s, WriteNode);
      forall steps | StrictRun(s', steps)
        ensures Run(s', steps) && HasObjects(After(s', steps).w)
      {
        OwnedAlongRuns(s', steps, spare);
      }
    } else {
      var steps := LooseLosesObject(s);
    }
  }
}
