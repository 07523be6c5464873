/**
  The host controllers: how a host classifies a VM object, and what it then does to the domains it
  runs and to the object. A running domain keeps its Ceph images locked; a live migration moves a
  domain with its locks in one step or fails without effect.
 */
module Hosts {
  import opened Prelude
  import opened Kube

  /** A libvirt domain: the VM it belongs to and the host it runs on. */
  datatype Domain = Domain(key: Key, host: string)

  /** The stored objects, and every running domain with the images it holds locked. */
  datatype World = World(cluster: Cluster, domains: map<Domain, set<string>>)

  const FINALIZER := "libvirt-host"

  /** The Ceph images of a VM's volumes (`to_storage_source`). */
  function Images(vm: Vm): set<string> {
    set v | v in vm.spec.volumes && v.ceph :: vm.key.namespace + "-" + v.name
  }

  /** `volumes_locked` */
  predicate Locked(domains: map<Domain, set<string>>, images: set<string>) {
    exists d :: d in domains && domains[d] * images != {}
  }

  datatype Event =
    | MissingDomainName
    | Unscheduled
    | NoNode
    | InboundMigration
    | OutboundMigration
    | NotOurs
    | Added
    | Updated
    | Deleted

  /** `get_event_type`, with the host name and the answer of `has_domain` as arguments. */
  function GetEventType(vm: Vm, host: string, hasDomain: bool): Event {
    if vm.status.None? then MissingDomainName
    else if !vm.Scheduled() then Unscheduled
    else if vm.AssignedNode().None? then NoNode
    else if vm.AssignedNode() == Some(host) && vm.Pending() then InboundMigration
    else if vm.AssignedNode() != Some(host) then (if hasDomain then OutboundMigration else NotOurs)
    else if vm.deleting then Deleted
    else if hasDomain then Updated
    else Added
  }

  datatype Outcome = Outcome(world: World, error: Option<Error>)

  function EnsureFinalizerResponse(c: Cluster, vm: Vm): Response {
    if FinalizerName(FINALIZER) in vm.finalizers then Response(c, None)
    else PutObject(c, WithFinalizer(vm, FinalizerName(FINALIZER)))
  }

  function RemoveFinalizerResponse(c: Cluster, vm: Vm): Response {
    if FinalizerName(FINALIZER) in vm.finalizers then PutObject(c, WithoutFinalizer(vm, FinalizerName(FINALIZER)))
    else Response(c, None)
  }

  /** `ok` is the verdict of the foreign call a handler makes (libvirt or the cluster lookup). */
  function AddOutcome(w: World, vm: Vm, host: string, ok: bool): Outcome
    requires vm.status.Some?
  {
    var finalized := EnsureFinalizerResponse(w.cluster, vm);
    if finalized.error.Some? then Outcome(World(finalized.cluster, w.domains), finalized.error)
    else if vm.spec.GetPowerAction() != PowerOn then Outcome(World(finalized.cluster, w.domains), None)
    else if Locked(w.domains, Images(vm)) then Outcome(World(finalized.cluster, w.domains), Some(VolumeLocked))
    else if !ok then Outcome(World(finalized.cluster, w.domains), Some(NotFound))
    else
      var r := PutStatus(finalized.cluster, vm, vm.status.value.(running := true));
      Outcome(World(r.cluster, w.domains[Domain(vm.key, host) := Images(vm)]), r.error)
  }

  function DeleteOutcome(w: World, vm: Vm, host: string, ok: bool): Outcome {
    if Domain(vm.key, host) in w.domains && !ok then Outcome(w, Some(NotFound))
    else
      var r := RemoveFinalizerResponse(w.cluster, vm);
      Outcome(World(r.cluster, w.domains - {Domain(vm.key, host)}), r.error)
  }

  function OutboundOutcome(w: World, vm: Vm, host: string, ok: bool): Outcome
    requires vm.AssignedNode().Some? && Domain(vm.key, host) in w.domains
  {
    if !ok then Outcome(w, Some(MigrationFailed))
    else
      var locks := w.domains[Domain(vm.key, host)];
      Outcome(w.(domains := (w.domains - {Domain(vm.key, host)})[Domain(vm.key, vm.AssignedNode().value) := locks]),
        None)
  }

  function InboundOutcome(w: World, vm: Vm, host: string, ok: bool): Outcome
    requires vm.status.Some?
  {
    if Domain(vm.key, host) !in w.domains || !ok then Outcome(w, None)
    else
      var r := PutStatus(w.cluster, vm, vm.status.value.(migrationPending := false));
      Outcome(World(r.cluster, w.domains), r.error)
  }

  /** `reconcile` on host `host` over the object `vm`. */
  function ReconcileOutcome(w: World, vm: Vm, host: string, ok: bool): Outcome {
    match GetEventType(vm, host, Domain(vm.key, host) in w.domains)
    case Deleted => DeleteOutcome(w, vm, host, ok)
    case Added => AddOutcome(w, vm, host, ok)
    case OutboundMigration => OutboundOutcome(w, vm, host, ok)
    case InboundMigration => InboundOutcome(w, vm, host, ok)
    case _ => Outcome(w, None)
  }

  /** The hypervisors of all hosts. */
  class Fleet {
    var domains: map<Domain, set<string>>

    constructor ()
      ensures domains == map[]
    {
      domains := map[];
    }

    predicate HasDomain(key: Key, host: string)
      reads this
    {
      Domain(key, host) in domains
    }

    /** `volumes_locked`, over the images of the VM in turn. */
    method VolumesLocked(vm: Vm) returns (locked: bool)
      ensures locked == Locked(domains, Images(vm))
    {
      for i := 0 to |vm.spec.volumes|
        invariant forall j, d :: 0 <= j < i && vm.spec.volumes[j].ceph && d in domains ==>
                    vm.key.namespace + "-" + vm.spec.volumes[j].name !in domains[d]
      {
        var volume := vm.spec.volumes[i];
        if volume.ceph {
          var image := vm.key.namespace + "-" + volume.name;
          if exists d :: d in domains && image in domains[d] {
            ghost var d :| d in domains && image in domains[d];
            assert volume in vm.spec.volumes && image in Images(vm) && image in domains[d] * Images(vm);
            return true;
          }
        }
      }
      locked := false;
    }

    method CreateDomain(vm: Vm, host: string, ok: bool) returns (error: Option<Error>)
      modifies this
      ensures error == if Locked(old(domains), Images(vm)) then Some(VolumeLocked)
                       else if !ok then Some(NotFound) else None
      ensures domains == if error.None? then old(domains)[Domain(vm.key, host) := Images(vm)] else old(domains)
    {
      var locked := VolumesLocked(vm);
      if locked {
        return Some(VolumeLocked);
      }
      if !ok {
        return Some(NotFound);
      }
      domains := domains[Domain(vm.key, host) := Images(vm)];
      error := None;
    }
  }

  method HandleDelete(api: ApiServer, fleet: Fleet, vm: Vm, host: string, ok: bool) returns (error: Option<Error>)
    modifies api, fleet
    ensures Outcome(World(api.Snapshot(), fleet.domains), error) ==
              DeleteOutcome(old(World(api.Snapshot(), fleet.domains)), vm, host, ok)
  {
    if fleet.HasDomain(vm.key, host) {
      if !ok {
        return Some(NotFound);
      }
      fleet.domains := fleet.domains - {Domain(vm.key, host)};
    }
    var copy;
    copy, error := api.RemoveFinalizer(vm, FINALIZER);
  }

  /** `mapped` is whether `ensure_vni_mapping` succeeded. */
  method HandleAdd(api: ApiServer, fleet: Fleet, vm: Vm, host: string, mapped: bool, ok: bool)
    returns (error: Option<Error>)
    requires vm.status.Some?
    modifies api, fleet
    ensures Outcome(World(api.Snapshot(), fleet.domains), error) ==
              if mapped then AddOutcome(old(World(api.Snapshot(), fleet.domains)), vm, host, ok)
              else Outcome(old(World(api.Snapshot(), fleet.domains)), Some(Unavailable))
  {
    if !mapped {
      return Some(Unavailable);
    }
    var copy;
    copy, error := api.EnsureFinalizer(vm, FINALIZER);
    if error.Some? || vm.spec.GetPowerAction() != PowerOn {
      return;
    }
    error := fleet.CreateDomain(copy, host, ok);
    if error.Some? {
      return;
    }
    error := api.SetVmStatus(copy, copy.status.value.(running := true));
  }

  method HandleOutboundMigration(api: ApiServer, fleet: Fleet, vm: Vm, host: string, ok: bool)
    returns (error: Option<Error>)
    requires vm.AssignedNode().Some? && fleet.HasDomain(vm.key, host)
    modifies fleet
    ensures Outcome(World(api.Snapshot(), fleet.domains), error) ==
              OutboundOutcome(old(World(api.Snapshot(), fleet.domains)), vm, host, ok)
  {
    if !ok {
      return Some(MigrationFailed);
    }
    var locks := fleet.domains[Domain(vm.key, host)];
    fleet.domains := fleet.domains - {Domain(vm.key, host)};
    fleet.domains := fleet.domains[Domain(vm.key, vm.AssignedNode().value) := locks];
    error := None;
  }

  method HandleInboundMigration(api: ApiServer, fleet: Fleet, vm: Vm, host: string, mapped: bool, ok: bool)
    returns (error: Option<Error>)
    requires vm.status.Some?
    modifies api
    ensures Outcome(World(api.Snapshot(), fleet.domains), error) ==
              if mapped then InboundOutcome(old(World(api.Snapshot(), fleet.domains)), vm, host, ok)
              else Outcome(old(World(api.Snapshot(), fleet.domains)), Some(Unavailable))
  {
    if !mapped {
      return Some(Unavailable);
    }
    if !fleet.HasDomain(vm.key, host) {
      return None;
    }
    if !ok {
      return None;
    }
    error := api.SetVmStatus(vm, vm.status.value.(migrationPending := false));
  }

  /** The events whose handler first sets up the EVPN mapping. */
  predicate NeedsMapping(event: Event) {
    event == Added || event == InboundMigration
  }

  method Reconcile(api: ApiServer, fleet: Fleet, vm: Vm, host: string, mapped: bool, ok: bool)
    returns (error: Option<Error>)
    modifies api, fleet
    ensures Outcome(World(api.Snapshot(), fleet.domains), error) ==
              if mapped || !NeedsMapping(GetEventType(vm, host, Domain(vm.key, host) in old(fleet.domains)))
              then ReconcileOutcome(old(World(api.Snapshot(), fleet.domains)), vm, host, ok)
              else Outcome(old(World(api.Snapshot(), fleet.domains)), Some(Unavailable))
  {
    match GetEventType(vm, host, fleet.HasDomain(vm.key, host)) {
      case Deleted =>
        error := HandleDelete(api, fleet, vm, host, ok);
      case Added =>
        error := HandleAdd(api, fleet, vm, host, mapped, ok);
      case OutboundMigration =>
        error := HandleOutboundMigration(api, fleet, vm, host, ok);
      case InboundMigration =>
        error := HandleInboundMigration(api, fleet, vm, host, mapped, ok);
      case _ =>
        error := None;
    }
  }

  /**
    A host starts a domain only for an object that carries its finalizer, and marks it running unless the copy
    went stale.
   */
  lemma StartedWithFinalizer(w: World, vm: Vm, host: string, ok: bool)
    requires Versioned(w.cluster) && vm.key in w.cluster.vms && w.cluster.vms[vm.key] == vm
    requires GetEventType(vm, host, Domain(vm.key, host) in w.domains) == Added
    requires Domain(vm.key, host) in ReconcileOutcome(w, vm, host, ok).world.domains
    ensures var c := ReconcileOutcome(w, vm, host, ok).world.cluster;
            && vm.key in c.vms && FinalizerName(FINALIZER) in c.vms[vm.key].finalizers
            && vm.spec.GetPowerAction() == PowerOn && !Locked(w.domains, Images(vm))
            && (FinalizerName(FINALIZER) in vm.finalizers ==>
                 c.vms[vm.key].status.Some? && c.vms[vm.key].status.value.running)
  {
    assert WithFinalizer(vm, FinalizerName(FINALIZER)).finalizers != [];
  }

  /** The finalizer comes off only when the host has no domain of the VM left. */
  lemma RemovedAfterDomain(w: World, vm: Vm, host: string, ok: bool)
    requires vm.key in w.cluster.vms && w.cluster.vms[vm.key] == vm && FinalizerName(FINALIZER) in vm.finalizers
    requires var c := ReconcileOutcome(w, vm, host, ok).world.cluster;
             vm.key !in c.vms || FinalizerName(FINALIZER) !in c.vms[vm.key].finalizers
    ensures vm.deleting && vm.AssignedNode() == Some(host)
    ensures Domain(vm.key, host) !in ReconcileOutcome(w, vm, host, ok).world.domains
  {
  }
}
