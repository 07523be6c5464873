/**
  What a host reconcile does to the domains and to the object, by the fields of the object and the domain:
  when it starts, moves and destroys a domain, and when it clears the pending flag. A migration that the
  scheduler decided ends with the domain on the new node, and on no other.
 */
module HostLaws {
  import opened Prelude
  import opened Kube
  import opened Hosts
  import opened Scheduling
  import opened Protocol
  import V = VmController

  /** The scheduler has assigned the VM to the node. */
  predicate AssignedTo(vm: Vm, node: string) {
    vm.status.Some? && vm.status.value.scheduled && vm.status.value.node == Some(node)
  }

  predicate IsPending(vm: Vm) {
    vm.status.Some? && vm.status.value.migrationPending
  }

  /** Domains other than those listed are as they were, with their locks. */
  ghost predicate SameBut(a: map<Domain, set<string>>, b: map<Domain, set<string>>, but: set<Domain>) {
    forall d :: d !in but ==> (d in b <==> d in a) && (d in a && d in b ==> b[d] == a[d])
  }

  /** A live migration takes the domain with its locks to the assigned node; a failed one changes nothing. */
  lemma MigrationMoves(w: World, vm: Vm, host: string, node: string, ok: bool)
    requires AssignedTo(vm, node) && node != host && Domain(vm.key, host) in w.domains
    ensures var o := ReconcileOutcome(w, vm, host, ok); var here, there := Domain(vm.key, host), Domain(vm.key, node);
            && o.world.cluster == w.cluster && (o.error == None <==> ok)
            && (!ok ==> o.world == w)
            && (ok ==> here !in o.world.domains && there in o.world.domains
                       && o.world.domains[there] == w.domains[here]
                       && SameBut(w.domains, o.world.domains, {here, there}))
  {
  }

  /** The Ceph image of one of the VM's volumes. */
  predicate IsImage(vm: Vm, image: string) {
    exists i :: 0 <= i < |vm.spec.volumes| && vm.spec.volumes[i].ceph
                && image == vm.key.namespace + "-" + vm.spec.volumes[i].name
  }

  lemma ImagesAre(vm: Vm)
    ensures forall image :: image in Images(vm) <==> IsImage(vm, image)
  {
    forall image
      ensures image in Images(vm) <==> IsImage(vm, image)
    {
      if image in Images(vm) {
        var v :| v in vm.spec.volumes && v.ceph && image == vm.key.namespace + "-" + v.name;
        var i :| 0 <= i < |vm.spec.volumes| && vm.spec.volumes[i] == v;
        assert vm.spec.volumes[i].ceph;
      }
      if IsImage(vm, image) {
        var i :| 0 <= i < |vm.spec.volumes| && vm.spec.volumes[i].ceph
                 && image == vm.key.namespace + "-" + vm.spec.volumes[i].name;
        assert vm.spec.volumes[i] in vm.spec.volumes;
      }
    }
  }

  /** No running domain holds an image of the VM. */
  ghost predicate ImagesFree(domains: map<Domain, set<string>>, vm: Vm) {
    forall d, image :: d in domains && image in domains[d] ==> !IsImage(vm, image)
  }

  lemma LockedIsHeld(domains: map<Domain, set<string>>, vm: Vm)
    ensures !Locked(domains, Images(vm)) <==> ImagesFree(domains, vm)
  {
    ImagesAre(vm);
    if Locked(domains, Images(vm)) {
      var d :| d in domains && domains[d] * Images(vm) != {};
      var image :| image in domains[d] * Images(vm);
      assert IsImage(vm, image);
    }
    forall d, image | d in domains && image in domains[d] && IsImage(vm, image)
      ensures Locked(domains, Images(vm))
    {
      assert image in domains[d] * Images(vm);
    }
  }

  predicate HasHostFinalizer(vm: Vm) {
    "cluster-virt.acl.fi/libvirt-host" in vm.finalizers
  }

  /** The host's finalizer is on, or the copy can still get it. */
  predicate CanFinalize(w: World, vm: Vm) {
    HasHostFinalizer(vm) || (vm.key in w.cluster.vms && w.cluster.vms[vm.key].version == vm.version)
  }

  /** The host is to start the VM: assigned here, at rest, to be on, and its images are free. */
  ghost predicate Starts(w: World, vm: Vm, host: string) {
    && AssignedTo(vm, host) && !IsPending(vm) && !vm.deleting
    && vm.spec.powerAction in {None, Some(PowerOn)}
    && CanFinalize(w, vm) && ImagesFree(w.domains, vm)
  }

  lemma Finalizing(c: Cluster, vm: Vm)
    ensures EnsureFinalizerResponse(c, vm).error.None? <==> CanFinalize(World(c, map[]), vm)
  {
    assert FinalizerName(FINALIZER) == "cluster-virt.acl.fi/libvirt-host";
  }

  lemma AddStarts(w: World, vm: Vm, host: string, ok: bool)
    requires AssignedTo(vm, host) && !IsPending(vm) && !vm.deleting && Domain(vm.key, host) !in w.domains
    ensures var o := ReconcileOutcome(w, vm, host, ok);
            o.world.domains ==
              if Starts(w, vm, host) && ok then w.domains[Domain(vm.key, host) := Images(vm)] else w.domains
  {
    Finalizing(w.cluster, vm);
    LockedIsHeld(w.domains, vm);
  }

  /**
    A host without a domain of the VM has one after a reconcile exactly if it was to start it and the start
    succeeded. It then holds the Ceph images of the VM, and no other domain changes.
   */
  lemma StartsExactly(w: World, vm: Vm, host: string, ok: bool)
    requires Domain(vm.key, host) !in w.domains
    ensures var o := ReconcileOutcome(w, vm, host, ok); var here := Domain(vm.key, host);
            && (here in o.world.domains <==> Starts(w, vm, host) && ok)
            && (here in o.world.domains ==> forall image :: image in o.world.domains[here] <==> IsImage(vm, image))
            && SameBut(w.domains, o.world.domains, {here})
  {
    if AssignedTo(vm, host) && !IsPending(vm) && !vm.deleting {
      AddStarts(w, vm, host, ok);
      ImagesAre(vm);
    }
  }

  /** The host is to destroy its domain: the VM is under deletion, assigned here and at rest. */
  predicate Destroys(vm: Vm, host: string) {
    AssignedTo(vm, host) && !IsPending(vm) && vm.deleting
  }

  /** A host with a domain of the VM loses it exactly if it destroys it or moves it away. */
  lemma StopsExactly(w: World, vm: Vm, host: string, ok: bool)
    requires Domain(vm.key, host) in w.domains
    ensures var o := ReconcileOutcome(w, vm, host, ok); var here := Domain(vm.key, host);
            && (here !in o.world.domains <==>
                  ok && (Destroys(vm, host) || exists node :: node != host && AssignedTo(vm, node)))
            && (here in o.world.domains ==> o.world.domains == w.domains)
            && (here !in o.world.domains && Destroys(vm, host) ==> o.world.domains == w.domains - {here})
  {
    if vm.status.Some? && vm.status.value.node.Some? && AssignedTo(vm, vm.status.value.node.value) {
      assert vm.status.value.node.value != host ==> exists node :: node != host && AssignedTo(vm, node);
    }
  }

  /** The finalizer comes off the stored object with the domain, and nothing else of it changes. */
  lemma DestroyedIsReleased(w: World, k: Key, host: string, ok: bool)
    requires Versioned(w.cluster) && k in w.cluster.vms && Destroys(w.cluster.vms[k], host)
    requires Domain(k, host) in w.domains ==> ok
    ensures var o := ReconcileOutcome(w, w.cluster.vms[k], host, ok);
            var vm, vms' := w.cluster.vms[k], o.world.cluster.vms;
            && o.error == None && Domain(k, host) !in o.world.domains
            && (k in vms' ==> vms'[k] == vm.(finalizers := vms'[k].finalizers, version := vms'[k].version)
                              && !HasHostFinalizer(vms'[k]))
            && (k in vms' || forall f :: f in vm.finalizers ==> f == "cluster-virt.acl.fi/libvirt-host")
            && forall j :: j != k ==> (j in vms' <==> j in w.cluster.vms) && (j in vms' ==> vms'[j] == w.cluster.vms[j])
  {
    assert FinalizerName(FINALIZER) == "cluster-virt.acl.fi/libvirt-host";
    var vm := w.cluster.vms[k];
    var without := WithoutFinalizer(vm, FinalizerName(FINALIZER));
    if without.finalizers == [] {
      assert forall f :: f in vm.finalizers && f != FinalizerName(FINALIZER) ==> f in without.finalizers;
    }
    if !HasHostFinalizer(vm) {
      assert vm.finalizers != [] && vm.finalizers[0] in vm.finalizers;
    }
  }

  /** The pending flag of an object assigned here goes off exactly if its domain is here and active. */
  lemma InboundClears(w: World, k: Key, host: string, ok: bool)
    requires Versioned(w.cluster) && k in w.cluster.vms
    requires AssignedTo(w.cluster.vms[k], host) && IsPending(w.cluster.vms[k])
    ensures var o := ReconcileOutcome(w, w.cluster.vms[k], host, ok);
            var vm, vms' := w.cluster.vms[k], o.world.cluster.vms;
            && o.error == None && o.world.domains == w.domains
            && (if Domain(k, host) in w.domains && ok
                then k in vms'
                     && vms' == w.cluster.vms[k := vm.(status := Some(vm.status.value.(migrationPending := false)),
                                                       version := vms'[k].version)]
                else o.world == w)
  {
  }

  /**
    The EVPN mapping is set up first exactly if the VM is assigned here, with a migration pending, or to be added; the
    reconcile method changes nothing when that fails.
   */
  lemma MappingIsNeeded(vm: Vm, host: string, hasDomain: bool)
    ensures NeedsMapping(GetEventType(vm, host, hasDomain)) <==>
              AssignedTo(vm, host) && (IsPending(vm) || (!vm.deleting && !hasDomain))
  {
  }

  /** In every other case a reconcile does nothing. */
  lemma OthersRest(w: World, vm: Vm, host: string, ok: bool)
    requires || (forall node :: !AssignedTo(vm, node))
             || (!AssignedTo(vm, host) && Domain(vm.key, host) !in w.domains)
             || (AssignedTo(vm, host) && !IsPending(vm) && !vm.deleting && Domain(vm.key, host) in w.domains)
    ensures ReconcileOutcome(w, vm, host, ok) == Outcome(w, None)
  {
    if vm.status.Some? && vm.status.value.scheduled && vm.status.value.node.Some? {
      assert AssignedTo(vm, vm.status.value.node.value);
    }
  }

  /** Exactly one host runs the VM's domain. */
  ghost predicate RunsOnlyOn(domains: map<Domain, set<string>>, k: Key, host: string) {
    forall h :: Domain(k, h) in domains <==> h == host
  }

  /** The old host moves the domain and the new one clears the pending flag. */
  lemma MigrationHandsOver(s: State, k: Key, source: string, target: string) returns (s': State)
    requires Inv(s) && k in s.w.cluster.vms && source != target && RunsOnlyOn(s.w.domains, k, source)
    requires AssignedTo(s.w.cluster.vms[k], target) && IsPending(s.w.cluster.vms[k])
    ensures var moves, clears := HostReconciles(source, k, true), HostReconciles(target, k, true);
            Enabled(s, moves) && Enabled(Apply(s, moves), clears) && s' == Apply(Apply(s, moves), clears)
    ensures RunsOnlyOn(s'.w.domains, k, target)
    ensures s'.w.domains[Domain(k, target)] == s.w.domains[Domain(k, source)]
    ensures SameBut(s.w.domains, s'.w.domains, {Domain(k, source), Domain(k, target)})
    ensures k in s'.w.cluster.vms
            && s'.w.cluster.vms[k] == s.w.cluster.vms[k].(
                 status := Some(s.w.cluster.vms[k].status.value.(migrationPending := false)),
                 version := s'.w.cluster.vms[k].version)
    ensures s'.section == s.section && s'.copies == s.copies
  {
    var vm := s.w.cluster.vms[k];
    MigrationMoves(s.w, vm, source, target, true);
    var s1 := Apply(s, HostReconciles(source, k, true));
    InboundClears(s1.w, k, target, true);
    s' := Apply(s1, HostReconciles(target, k, true));
    forall h
      ensures Domain(k, h) in s'.w.domains <==> h == target
    {
      assert Domain(k, h) in s.w.domains <==> h == source;
    }
  }

  /** The write of a requested migration assigns the node and marks the migration pending. */
  lemma MigrationIsMarked(s: State, source: string, target: string)
    requires Inv(s) && Enabled(s, WriteNode) && s.section.value.choice == Some(target)
    requires Copy(s).key in s.w.cluster.vms && s.w.cluster.vms[Copy(s).key] == Copy(s)
    requires AskedToLeave(Copy(s), source) && AssignedTo(Copy(s), source)
    ensures var k, s' := Copy(s).key, Apply(s, WriteNode);
            && k in s'.w.cluster.vms && s'.w.domains == s.w.domains
            && s'.w.cluster.vms[k] == Copy(s).(
                 status := Some(Copy(s).status.value.(
                                  node := Some(target), scheduled := true, migrationPending := true)),
                 version := s'.w.cluster.vms[k].version)
  {
  }

  /**
    Main result: a requested migration of a running VM, once decided, ends with the domain on the target only,
    with the locks it had, the VM assigned there, and no migration pending.
   */
  lemma RequestedMigrationCompletes(s: State, source: string, target: string) returns (s': State)
    requires Inv(s) && Enabled(s, WriteNode) && s.section.value.choice == Some(target) && target != source
    requires Copy(s).key in s.w.cluster.vms && s.w.cluster.vms[Copy(s).key] == Copy(s)
    requires AskedToLeave(Copy(s), source) && AssignedTo(Copy(s), source)
    requires RunsOnlyOn(s.w.domains, Copy(s).key, source)
    ensures var k := Copy(s).key; var moves, clears := HostReconciles(source, k, true), HostReconciles(target, k, true);
            && Enabled(Apply(s, WriteNode), moves) && Enabled(Apply(Apply(s, WriteNode), moves), clears)
            && s' == Apply(Apply(Apply(s, WriteNode), moves), clears)
            && RunsOnlyOn(s'.w.domains, k, target)
            && s'.w.domains[Domain(k, target)] == s.w.domains[Domain(k, source)]
            && SameBut(s.w.domains, s'.w.domains, {Domain(k, source), Domain(k, target)})
            && k in s'.w.cluster.vms && AssignedTo(s'.w.cluster.vms[k], target) && !IsPending(s'.w.cluster.vms[k])
  {
    MigrationIsMarked(s, source, target);
    InvKept(s, WriteNode);
    s' := MigrationHandsOver(Apply(s, WriteNode), Copy(s).key, source, target);
  }
}
