/**
  Virtual machine objects and the part of the Kubernetes API server the controllers rely on:
  replacing an object or its status succeeds only if the writer's copy carries the stored
  `resourceVersion`; a replace that changes nothing keeps the version; every other write takes
  the next revision of the whole store.
 */
module Kube {
  import opened Prelude

  datatype Key = Key(namespace: string, name: string)

  /** `name_prefixed_with_namespace` */
  function Prefixed(k: Key): string {
    k.namespace + "-" + k.name
  }

  datatype Nic = Nic(
    name: Option<string>,
    bridge: Option<string>,
    mac: Option<string>,
    queues: Option<nat>,
    ovnId: Option<string>,
    untaggedVlan: Option<nat>,
    taggedVlans: Option<seq<nat>>)

  datatype Volume = Volume(ceph: bool, name: string)

  datatype PowerAction = PowerOn | Shutdown | PowerOff | Manual

  datatype Spec = Spec(
    networks: seq<Nic>,
    uuid: Option<string>,
    node: Option<string>,
    volumes: seq<Volume>,
    powerAction: Option<PowerAction>)
  {
    function GetPowerAction(): PowerAction {
      match powerAction
      case Some(action) => action
      case None => PowerOn
    }
  }

  datatype Status = Status(
    scheduled: bool,
    running: bool,
    migrationPending: bool,
    node: Option<string>,
    domainName: string,
    ipAddresses: Option<seq<string>>,
    ipAddressesString: Option<string>,
    networks: seq<Nic>)

  datatype Vm = Vm(
    key: Key,
    version: nat,
    deleting: bool,
    finalizers: seq<string>,
    annotations: map<string, string>,
    labels: map<string, string>,
    spec: Spec,
    status: Option<Status>)
  {
    /** `migration_requested_from` */
    function MigrationRequestedFrom(): Option<string> {
      Get(annotations, MIGRATION_REQUEST_ANNOTATION)
    }

    /** `get_vm_node` */
    function AssignedNode(): Option<string> {
      if status.Some? then status.value.node else None
    }

    function Scheduled(): bool {
      status.Some? && status.value.scheduled
    }

    function Pending(): bool {
      status.Some? && status.value.migrationPending
    }

    /** `has_finalizer`, on the full finalizer name */
    function HasFinalizer(finalizer: string): bool {
      finalizer in finalizers
    }
  }

  const MIGRATION_REQUEST_ANNOTATION := "cluster-virt.acl.fi/migration-required"
  const MAINTENANCE_ANNOTATION := "cluster-virt.acl.fi/maintenance"
  const NO_SCHEDULE_ANNOTATION := "cluster-virt.acl.fi/no-schedule"
  const ANTI_AFFINITY_LABEL := "antiAffinity"
  const GROUP_NAME := "cluster-virt.acl.fi"

  function FinalizerName(short: string): string {
    GROUP_NAME + "/" + short
  }

  datatype NetworkType = Ovn | Evpn

  datatype Network = Network(networkType: Option<NetworkType>, networkId: Option<nat>, bridge: Option<string>)

  datatype Node = Node(name: string, annotations: map<string, string>)

  datatype Cluster = Cluster(rev: nat, vms: map<Key, Vm>, nodes: seq<Node>, networks: map<Key, Network>)
  {
    /** The node a stored VM is assigned to. */
    function NodeOf(k: Key): Option<string> {
      if k in vms then vms[k].AssignedNode() else None
    }

    function RequestOf(k: Key): Option<string> {
      if k in vms then vms[k].MigrationRequestedFrom() else None
    }
  }

  /**
    Versions come from one counter, so a version names one state of one object; a deleted object
    is only kept while it has finalizers.
   */
  ghost predicate Versioned(c: Cluster) {
    forall k :: k in c.vms ==>
      && c.vms[k].key == k && c.vms[k].version <= c.rev
      && (c.vms[k].deleting ==> c.vms[k].finalizers != [])
  }

  datatype Response = Response(cluster: Cluster, error: Option<Error>)

  /** `set_vm_status`: replace the status under the version of the writer's copy `vm`. */
  function PutStatus(c: Cluster, vm: Vm, status: Status): (r: Response)
    ensures r.error == None ==> vm.key in c.vms && c.vms[vm.key].version == vm.version
    ensures r.error != None ==> r.cluster == c
    ensures r.cluster.nodes == c.nodes && r.cluster.networks == c.networks
  {
    if vm.key !in c.vms then
      Response(c, Some(NotFound))
    else
      var current := c.vms[vm.key];
      if current.version != vm.version then
        Response(c, Some(Conflict))
      else if current.status == Some(status) then
        Response(c, None)
      else
        var stored := current.(version := c.rev + 1, status := Some(status));
        Response(c.(rev := c.rev + 1, vms := c.vms[vm.key := stored]), None)
  }

  /**
    `commit`: replace metadata and spec by the writer's copy. The status and the deletion
    timestamp are the server's, and a deleted object goes away with its last finalizer.
   */
  function PutObject(c: Cluster, vm: Vm): (r: Response)
    ensures r.error == None ==> vm.key in c.vms && c.vms[vm.key].version == vm.version
    ensures r.error != None ==> r.cluster == c
    ensures r.cluster.nodes == c.nodes && r.cluster.networks == c.networks
  {
    if vm.key !in c.vms then
      Response(c, Some(NotFound))
    else
      var current := c.vms[vm.key];
      var stored := vm.(deleting := current.deleting, status := current.status);
      if current.version != vm.version then
        Response(c, Some(Conflict))
      else if current == stored then
        Response(c, None)
      else if current.deleting && vm.finalizers == [] then
        Response(c.(rev := c.rev + 1, vms := c.vms - {vm.key}), None)
      else
        Response(c.(rev := c.rev + 1, vms := c.vms[vm.key := stored.(version := c.rev + 1)]), None)
  }

  /** A user creates a VM object; the server stamps it and drops any status sent along. */
  function CreateObject(c: Cluster, vm: Vm): Cluster {
    c.(rev := c.rev + 1,
       vms := c.vms[vm.key := vm.(version := c.rev + 1, deleting := false, status := None)])
  }

  /** A user asks for deletion. */
  function DeleteObject(c: Cluster, k: Key): Cluster
    requires k in c.vms
  {
    if c.vms[k].finalizers == [] then
      c.(rev := c.rev + 1, vms := c.vms - {k})
    else if c.vms[k].deleting then
      c
    else
      c.(rev := c.rev + 1, vms := c.vms[k := c.vms[k].(version := c.rev + 1, deleting := true)])
  }

  /** Exactly a copy of the stored version succeeds; then the object has the new status and no other part changed. */
  lemma StatusStored(c: Cluster, vm: Vm, status: Status)
    requires Versioned(c)
    ensures var r := PutStatus(c, vm, status);
            && (r.error == None <==> vm.key in c.vms && c.vms[vm.key].version == vm.version)
            && (r.error == None ==>
                  && r.cluster.vms.Keys == c.vms.Keys
                  && r.cluster.vms[vm.key] ==
                       c.vms[vm.key].(status := Some(status), version := r.cluster.vms[vm.key].version)
                  && (r.cluster.vms[vm.key].version == vm.version <==> c.vms[vm.key].status == Some(status))
                  && (c.vms[vm.key].status != Some(status) ==> c.rev < r.cluster.vms[vm.key].version)
                  && forall k :: k in c.vms && k != vm.key ==> r.cluster.vms[k] == c.vms[k])
            && (r.error != None ==> r.cluster == c)
  {
  }

  /**
    The same for a replace: metadata and spec are the copy's, and the object goes away exactly with the last
    finalizer of a deleted one.
   */
  lemma ObjectStored(c: Cluster, vm: Vm)
    requires Versioned(c)
    ensures var r := PutObject(c, vm);
            && (r.error == None <==> vm.key in c.vms && c.vms[vm.key].version == vm.version)
            && (r.error == None ==>
                  && (vm.key in r.cluster.vms <==> !(c.vms[vm.key].deleting && vm.finalizers == []))
                  && (vm.key in r.cluster.vms ==>
                        r.cluster.vms[vm.key] == vm.(deleting := c.vms[vm.key].deleting, status := c.vms[vm.key].status,
                                                     version := r.cluster.vms[vm.key].version))
                  && forall k :: k != vm.key ==>
                       (k in r.cluster.vms <==> k in c.vms) && (k in c.vms ==> r.cluster.vms[k] == c.vms[k]))
            && (r.error != None ==> r.cluster == c)
  {
  }

  /** A user's object is stored as sent, but for what is the server's: a new version, no status, not under deletion. */
  lemma ObjectCreated(c: Cluster, vm: Vm)
    requires Versioned(c) && vm.key !in c.vms
    ensures var c' := CreateObject(c, vm);
            && vm.key in c'.vms
            && c'.vms[vm.key] == vm.(status := None, deleting := false, version := c'.vms[vm.key].version)
            && c.rev < c'.vms[vm.key].version && c'.vms.Keys == c.vms.Keys + {vm.key}
            && (forall k :: k in c.vms ==> c'.vms[k] == c.vms[k]) && c'.nodes == c.nodes && c'.networks == c.networks
  {
  }

  /** A deletion request takes an object without finalizers away, and only marks one that has some. */
  lemma DeletionRequested(c: Cluster, k: Key)
    requires Versioned(c) && k in c.vms
    ensures var vms' := DeleteObject(c, k).vms;
            && (k in vms' <==> c.vms[k].finalizers != [])
            && (k in vms' ==> vms'[k] == c.vms[k].(deleting := true, version := vms'[k].version))
            && (k in vms' && !c.vms[k].deleting ==> c.rev < vms'[k].version)
            && forall j :: j != k ==> (j in vms' <==> j in c.vms) && (j in c.vms ==> vms'[j] == c.vms[j])
  {
  }

  lemma PutStatusKeepsVersioned(c: Cluster, vm: Vm, status: Status)
    requires Versioned(c)
    ensures Versioned(PutStatus(c, vm, status).cluster)
  {
  }

  lemma PutObjectKeepsVersioned(c: Cluster, vm: Vm)
    requires Versioned(c)
    ensures Versioned(PutObject(c, vm).cluster)
  {
  }

  lemma CreateKeepsVersioned(c: Cluster, vm: Vm)
    requires Versioned(c)
    ensures Versioned(CreateObject(c, vm))
  {
  }

  lemma DeleteKeepsVersioned(c: Cluster, k: Key)
    requires Versioned(c) && k in c.vms
    ensures Versioned(DeleteObject(c, k))
  {
  }

  /** `name_prefixed_with_namespace` maps two different objects to one name. */
  lemma PrefixedNamesCollide()
    ensures Key("a-b", "c") != Key("a", "b-c") && Prefixed(Key("a-b", "c")) == Prefixed(Key("a", "b-c"))
  {
    assert Prefixed(Key("a-b", "c")) == "a-b-c" == Prefixed(Key("a", "b-c"));
  }

  function WithFinalizer(vm: Vm, finalizer: string): (r: Vm)
    ensures finalizer in r.finalizers
    ensures forall f :: f in r.finalizers <==> f in vm.finalizers || f == finalizer
  {
    if finalizer in vm.finalizers then vm else vm.(finalizers := vm.finalizers + [finalizer])
  }

  function WithoutFinalizer(vm: Vm, finalizer: string): (r: Vm)
    ensures forall f :: f in r.finalizers <==> f in vm.finalizers && f != finalizer
  {
    vm.(finalizers := Retain(vm.finalizers, f => f != finalizer))
  }

  /** Adding a finalizer that was absent, at the end, and removing it again gives back the object. */
  lemma FinalizerRoundTrip(vm: Vm, finalizer: string)
    requires finalizer !in vm.finalizers
    ensures WithoutFinalizer(WithFinalizer(vm, finalizer), finalizer) == vm
    ensures vm.finalizers < WithFinalizer(vm, finalizer).finalizers
  {
    RetainAppend(vm.finalizers, [finalizer], f => f != finalizer);
    RetainAll(vm.finalizers, f => f != finalizer);
  }

  /** The API server as the controllers see it: every method is one atomic request. */
  class ApiServer {
    var rev: nat
    var vms: map<Key, Vm>
    var nodes: seq<Node>
    var networks: map<Key, Network>

    function Snapshot(): Cluster
      reads this
    {
      Cluster(rev, vms, nodes, networks)
    }

    constructor (c: Cluster)
      ensures Snapshot() == c
    {
      rev, vms, nodes, networks := c.rev, c.vms, c.nodes, c.networks;
    }

    method SetVmStatus(vm: Vm, status: Status) returns (error: Option<Error>)
      modifies this
      ensures Response(Snapshot(), error) == PutStatus(old(Snapshot()), vm, status)
    {
      if vm.key !in vms {
        return Some(NotFound);
      }
      var current := vms[vm.key];
      if current.version != vm.version {
        return Some(Conflict);
      }
      if current.status != Some(status) {
        rev := rev + 1;
        vms := vms[vm.key := current.(version := rev, status := Some(status))];
      }
      error := None;
    }

    method Commit(vm: Vm) returns (error: Option<Error>)
      modifies this
      ensures Response(Snapshot(), error) == PutObject(old(Snapshot()), vm)
    {
      if vm.key !in vms {
        return Some(NotFound);
      }
      var current := vms[vm.key];
      if current.version != vm.version {
        return Some(Conflict);
      }
      var stored := vm.(deleting := current.deleting, status := current.status);
      if current != stored {
        rev := rev + 1;
        if current.deleting && vm.finalizers == [] {
          vms := vms - {vm.key};
        } else {
          vms := vms[vm.key := stored.(version := rev)];
        }
      }
      error := None;
    }

    /** `ensure_finalizer`: the caller's copy changes even if the commit then fails. */
    method EnsureFinalizer(vm: Vm, short: string) returns (copy: Vm, error: Option<Error>)
      modifies this
      ensures copy == WithFinalizer(vm, FinalizerName(short))
      ensures FinalizerName(short) in vm.finalizers ==>
                error == None && Snapshot() == old(Snapshot())
      ensures FinalizerName(short) !in vm.finalizers ==>
                Response(Snapshot(), error) == PutObject(old(Snapshot()), copy)
    {
      copy, error := vm, None;
      if !copy.HasFinalizer(FinalizerName(short)) {
        copy := copy.(finalizers := copy.finalizers + [FinalizerName(short)]);
        error := Commit(copy);
      }
    }

    /** `remove_finalizer` */
    method RemoveFinalizer(vm: Vm, short: string) returns (copy: Vm, error: Option<Error>)
      modifies this
      ensures copy == WithoutFinalizer(vm, FinalizerName(short))
      ensures FinalizerName(short) !in vm.finalizers ==>
                error == None && Snapshot() == old(Snapshot())
      ensures FinalizerName(short) in vm.finalizers ==>
                Response(Snapshot(), error) == PutObject(old(Snapshot()), copy)
    {
      copy, error := vm, None;
      if copy.HasFinalizer(FinalizerName(short)) {
        copy := copy.(finalizers := Retain(copy.finalizers, f => f != FinalizerName(short)));
        error := Commit(copy);
      } else {
        RetainAll(vm.finalizers, f => f != FinalizerName(short));
      }
    }
  }
}
