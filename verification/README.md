# Verification model of the cluster controllers

This project models the two halves of the system in Dafny and proves their properties: the
placement and migration of virtual machines over Kubernetes objects, and the reconciliation of the
OVN northbound database. `dafny verify dfyconfig.toml` checks all of it.

## The system and the model

**Objects.** `Kube` is the part of the API server the controllers rely on: a write succeeds only if
the writer's copy carries the stored version, a write that changes nothing keeps the version, and an
object under deletion goes away with its last finalizer. A copy is never refreshed after a write, so a
second write from the same copy conflicts; `VmController` and `VmOvn` show what follows from that.

**Placement.** `Nics` is the NIC merge, `Scheduling` the compliance check, the node filters and the
drain, `VmController` the reconcile pass of the cluster controller and the theorem that passes settle.
`Hosts` is the host controller. `Protocol` lets everything interleave: any number of processes with
copies of any age, the scheduler mutex, hosts, users and stopping domains. `Runners`, `AntiAffinity`
and `Drain` are the theorems about its runs; `DoubleStart` is one run in which two hosts start a VM, and
`Orphans` says when a VM's object can go away while its domain runs.

**Northbound database.** `Ovsdb` interprets transactions of RFC 7047 (sections 3.2, 4.1.3, 5.2.1,
5.2.3, 5.2.4 and 5.2.5); `Json` has the notation of section 5.1. `OvnTransactions` gives the exact
effect of every transaction the controllers send, `OvnObjects` the typed operations and the connection,
`Routes` and `RouteUpdate` the route difference, `OvnConnect` the paired ports of a router and a switch.
`Networks` and `Routers` are the two reconcilers with their idempotence theorems. `OvnInterleaving` lets
reconciles of different objects interleave between transactions. `VmPorts` combines both halves: the
life of a VM object and of its switch ports; `VmLife` runs it on the lists the NIC merge computes, and
`VmOvn` is the controller's code for it.

**Laws by fields.** `PassLaws`, `NicLaws`, `HostLaws`, `OvnLaws` and `RouterLaws` say what the operations do
without the functions that the code is proved against: by the fields of objects and rows, and the texts of
annotations, labels, names and addresses.

**Runs.** The machines in which everything interleaves are tied to the code: a pass of `VmController` is a run of
`Protocol` (`PassRuns`), the OVN reconciles of a VM are runs of `VmPorts` (`PortRuns`), and those of networks,
routers and NICs are runs of `OvnInterleaving` (`OvnRuns`).

Code that changes state is a method of a class (`Kube.ApiServer`, `Hosts.Fleet`, `OvnObjects.Ovn`) or a
method that takes such objects, and is proved against a function from state to state; the theorems are
about those functions.

## Results that depend on a condition

- *One runner.* `vm.rs` sets `migration_pending` only for requested migrations, so a reschedule caused by
  anti-affinity alone is guarded only by the volume lock. `DoubleStart.AntiAffinityStartsTwice` is a run,
  from the start of the cluster, in which two hosts end up running one VM; `Runners.GuardIsExact` gives the
  exact condition on the scheduler's write, and on a user's edit of the volumes, which can take the lock away.
- *Objects of running domains.* `Orphans.VanishesExactly` says when a VM's object goes away while a domain of
  it runs elsewhere. `Orphans.StrictIsExact` gives the exact condition on the scheduler's write that rules it
  out; under it a key may be used again at any time (`Orphans.StrictRunsKeepObjects`).
- *Settling.* `VmController.PassesSettle` holds for every VM whose NICs can be merged. Once it is settled its
  passes succeed, unless the VM needs a node and there is none for it (`VmController.EachPassDoesOneUnit`).
  One such VM is any that the affinity bypass moved: its migration request stays until a node is free
  (`VmController.BypassIsStuck`).
- *Routes.* The counter for symbolic names is a `u8`. A release build wraps it: 256 missing routes work,
  257 make the server report an error and the caller panic. A build with overflow checks panics at the
  256th. Either way nothing changes (`RouteUpdate.RouteSetEffect`).
- *MAC addresses.* `set_address` looks up the switch, checks the MAC and writes in separate requests. One
  write keeps the MACs of a switch distinct if and only if no other port of it has the MAC at that moment
  (`OvnInterleaving.WriteIsExact`). Over runs they stay distinct when no two reconciles are between owner
  lookup and write for one MAC on one switch (`OvnInterleaving.MacsStayDistinct`). Between check and write
  is not enough, as the check misses ports added after the lookup (`OvnInterleaving.StaleListingCollides`).
  The writes that passed their check are safe in every order if and only if no two of them are rivals
  (`OvnInterleaving.CheckedExclusiveIsExact`), and all runs are safe if and only if each MAC has one
  reconcile that sets it (`OvnInterleaving.OneMacHomeIsExact`). `OvnInterleaving.RaceCollides` is a run
  that ends with a MAC on two ports.
- *Substrings.* The code compares MACs as substrings, and generated MACs are not padded. A MAC that is part
  of the port's other MAC is taken for set (`OvnObjects.PrefixIsTaken`), one that is part of another port's
  is refused (`OvnObjects.PrefixIsRefused`). `OvnObjects.TokenIsSet` says exactly when a successful call
  leaves the port with its MAC, `OvnObjects.SubstringIsExact` when the outcome is that of comparing MACs.
- *Names.* The database stays valid over all runs if and only if each switch, router and port name has one
  reconcile that may create it (`OvnInterleaving.OneCreatorIsExact`). Two sources of a shared name are in the
  formats. `namespace-name` is not injective (`Kube.PrefixedNamesCollide`). The metadata switch of a router
  `<ns>-<router>` is `mds-<ns>-<router>`, which is also the switch of a network `<ns>-<router>` in the
  namespace `mds` (`Routers.MetadataNameIsShared`). The formats of the ports are injective on names without
  underscores only (`OvnConnect.UnderscoresCollide`), as Kubernetes object names are.
- *NIC merge.* Distinct targets on separate bridges make the merge stable (`Nics.FillIsFixedPoint`). In
  general it is stable if and only if it drops no NIC and every NIC repeats the merged NIC that the second
  merge finds for it (`Nics.FixedPointIsExact`): `Nics.DuplicatesWithMacsAreStable` and
  `Nics.DuplicateTargetsAreUnstable` are one case of each kind. `Nics.NamesStayIsExact` says when a NIC is
  dropped, as in `Nics.SharedBridgeDropsNic`, and `Nics.LiningUpIsExact` when one changes its name.
- *Generated MACs.* The name of the VM and the target are hashed one after the other, so two VMs on different
  networks can get one MAC (`NicLaws.MacTextsCollide`); on one network they do exactly if their prefixed names
  and the indexes as bytes agree (`NicLaws.TextMacsAgree`).
- *Repeated reconciles.* A network's second reconcile changes nothing if and only if its DHCP lookup finds a
  row with the right options (`Networks.UpdatedNetworkTwice`), which with one row per CIDR it always does.

## Assumptions

- Object keys stand for distinct prefixed names. In `Protocol` a key is used again only when no domain of it
  runs, which the code does not ensure; `Orphans` does without that.
- A running domain holds locks on the Ceph volumes it was started with.
- A host reconcile acts on the current object in one step; a live migration moves the domain or changes
  nothing. The verdict of each foreign call is a Boolean argument.
- Steps that take several requests at once: in `Protocol`, the listings of one scheduling decision
  (`DecideNode`) and the requests of one host reconcile (`HostReconciles`); in `VmPorts`, the lookup of the
  switch and of the port (`LookForPort`, `LookForRemoval`) and the lookup of a port with its deletion
  (`DeletePort`). Every other step is one request.
- Generated ids are fresh. In `OvnInterleaving` a permission says which reconcile may create which name; the
  theorems that need one creator for each name require it. An object has at most one reconcile at a time.
  Stale handles are allowed everywhere.
- In `VmPorts` a later reconcile never gets an older copy, status writes keep the NICs that have a port id
  (`VmPorts.RefillKeepsNics` shows that the merge does under a fixed spec), and no other object uses or
  creates ports with the VM's ids. `VmLife` replaces the assumption on status writes by the merge.

## Model

| member | source | states |
|---|---|---|
| Kube.StatusStored | src/utils/shortcuts.rs:20-42 | a status write succeeds exactly from a copy of the stored version; the object then has the new status and nothing else changed, and a failed write changes nothing |
| Kube.ObjectStored | src/utils/traits/kube.rs:64-81 | so does a replace; it stores the copy with the server's status and deletion mark, and the object goes away exactly when it is under deletion and the copy has no finalizer |
| Kube.DeletionRequested | src/utils/resource_controller.rs:132-140 | a deletion request takes an object without finalizers away and only marks one that has some |
| Kube.PutStatusKeepsVersioned | src/utils/shortcuts.rs:25-40 | versions never exceed the store's revision, and an object under deletion stays only while it has finalizers |
| Kube.PutObjectKeepsVersioned | src/utils/traits/kube.rs:71-79 | the same invariant under commits |
| Kube.DeleteKeepsVersioned | src/utils/resource_controller.rs:132-140 | the same invariant under deletion requests |
| Kube.FinalizerRoundTrip | src/utils/traits/kube.rs:96-133 | adding a finalizer that was absent and removing it gives back the object |
| Kube.PrefixedNamesCollide | src/utils/traits/kube.rs:142-144 | two different objects share one prefixed name, so the format is not injective |
| Kube.ApiServer.SetVmStatus | src/utils/shortcuts.rs:20-42 | the request answers and leaves the store as the compare-and-swap of the status says |
| Kube.ApiServer.Commit | src/utils/traits/kube.rs:64-81 | the same for a replace of the object; the last finalizer of a deleted object takes it away |
| Kube.ApiServer.EnsureFinalizer | src/utils/traits/kube.rs:96-113 | commits only if the finalizer is absent from the copy; the copy changes even if the commit fails |
| Kube.ApiServer.RemoveFinalizer | src/utils/traits/kube.rs:116-133 | commits only if the finalizer is on the copy |
| Nics.MergeNics | src/cluster/controllers/virtualmachine/utils.rs:50-110 | the loop and its final retain compute the merge of every spec NIC with the first status NIC of its target |
| Nics.FindMatching | src/cluster/controllers/virtualmachine/utils.rs:33-45 | the first candidate with the same name, or the same bridge when the NIC has no name; none only if there is none |
| Nics.MergedFields | src/cluster/controllers/virtualmachine/utils.rs:57-107 | every field of a merged NIC: the MAC and port id asked for, else the previous ones, else generated ones; the queues of the spec; bridge and VLAN of an EVPN network, else the previous ones |
| Nics.MergeKeepsNoAlias | src/cluster/controllers/virtualmachine/utils.rs:58-110 | merging never puts a named NIC on the bridge of a bridge-only NIC when spec and networks keep them apart |
| Nics.FillLinesUp | src/cluster/controllers/virtualmachine/utils.rs:54-110 | the result has one NIC per spec NIC, in order, with its target; the final retain drops nothing |
| Nics.FindsOwnEntry | src/cluster/controllers/virtualmachine/utils.rs:33-64 | in a merged list every spec NIC finds its own entry |
| Nics.FillIsFixedPoint | src/cluster/controllers/virtualmachine/utils.rs:50-110 | a second merge returns the same list, whatever the list before the first and whatever ids it would generate |
| Nics.UnchangedForAnyGenerator | src/cluster/controllers/virtualmachine/utils.rs:66-110 | a list that one merge leaves alone is left alone by every merge |
| Nics.FillKeepsIdentity | src/cluster/controllers/virtualmachine/utils.rs:57-107 | adding, removing or reordering NICs and changing networks keeps a remaining NIC's generated MAC and port id |
| Nics.ReachableNicsAreUsable | src/host/libvirt/lowlevel.rs:101-108 | every list reached by merges from empty has a MAC and a port id with a name, or a bridge, on each NIC, so the unwraps cannot fail |
| Nics.BridgelessEvpnIsUnusable | src/host/libvirt/lowlevel.rs:102-105 | an EVPN network without a bridge yields a NIC on which the unwrap of the bridge fails |
| Nics.FixedPointIsExact | src/cluster/controllers/virtualmachine/utils.rs:50-110 | for every previous list, a second merge changes nothing if and only if the first drops no NIC and each NIC repeats what it takes over from the first merged NIC it meets: name, bridge, VLANs, and MAC and port id unless it asks for its own |
| Nics.NamesStayIsExact | src/cluster/controllers/virtualmachine/utils.rs:109-110 | the merge drops no NIC if and only if every bridge-only NIC that finds a named NIC finds one that the spec names too |
| Nics.GeneratorIsIrrelevant | src/cluster/controllers/virtualmachine/utils.rs:66-110 | from the empty list, and any in which no bridge-only NIC finds a named one, stability does not depend on what the second merge would generate |
| Nics.LiningUpIsExact | src/cluster/controllers/virtualmachine/utils.rs:50-110 | the merged list has one NIC per spec NIC with its target if and only if no bridge-only NIC finds a named NIC in the previous list |
| Nics.DuplicatesWithMacsAreStable | src/cluster/controllers/virtualmachine/utils.rs:33-70 | two NICs on one bridge, each with a MAC of its own: the second merge changes nothing |
| Nics.DuplicateTargetsAreUnstable | src/cluster/controllers/virtualmachine/utils.rs:33-45 | two spec NICs with one target and no MAC of their own: the second merge changes the list |
| Nics.SharedBridgeDropsNic | src/cluster/controllers/virtualmachine/utils.rs:109-110 | a bridge-only NIC that finds a named entry on its bridge takes over its name and is dropped by the retain |
| NicLaws.GeneratedMac | src/cluster/controllers/virtualmachine/utils.rs:17-30 | a NIC that has no MAC, in its spec or before, gets the hash of the name of the VM, its network or else its bridge, and its index as a byte |
| NicLaws.GeneratedMacsAgree | src/cluster/controllers/virtualmachine/utils.rs:17-30 | for an injective hash two generated MACs agree exactly if the VM names, the targets and the indexes as bytes do |
| NicLaws.StoredMacsAgree | src/cluster/controllers/virtualmachine/utils.rs:50-120 | the MACs that passes store for NICs of two VMs agree exactly if the prefixed names of the VMs, the targets and the indexes as bytes do |
| NicLaws.TextMacsAgree | src/cluster/controllers/virtualmachine/utils.rs:17-30 | when the hash is one of name and target put together, they agree exactly if these texts and the indexes do; on one network or bridge, exactly if the prefixed names and the indexes do |
| NicLaws.MacTextsCollide | src/cluster/controllers/virtualmachine/utils.rs:20-28 | VMs ns/a and ns/ab on the networks bc and c get the same MAC |
| NicLaws.UnknownNetworkFails | src/cluster/controllers/virtualmachine/utils.rs:77-80 | the NIC part of a pass fails exactly if a network of the spec is missing in the namespace of the VM |
| NicLaws.NetworkAdds | src/cluster/controllers/virtualmachine/utils.rs:76-104 | on OVN, the default, a NIC has the port id of its spec, its previous one, or a new one; on EVPN the bridge of the network, and its id as a VLAN of 16 bits |
| NicLaws.PreviousIsKept | src/cluster/controllers/virtualmachine/utils.rs:57-93 | a NIC keeps MAC and port id of the first previous NIC of its target, where its spec does not ask for others |
| Scheduling.GetVmsWithLabel | src/cluster/controllers/virtualmachine/scheduling.rs:17-29 | exactly the stored VMs of the group |
| Scheduling.CheckCompliance | src/cluster/controllers/virtualmachine/scheduling.rs:33-68 | true exactly when a scheduled VM shares its node with another VM of its group; an error without a status |
| Scheduling.RemoveCandidateNodes | src/cluster/controllers/virtualmachine/scheduling.rs:120-124 | the candidates whose names are not listed, in order |
| Scheduling.FilterNodes | src/cluster/controllers/virtualmachine/scheduling.rs:126-178 | the nodes out of maintenance, open to scheduling and different from the node to leave, in order |
| Scheduling.FilterAffinity | src/cluster/controllers/virtualmachine/scheduling.rs:180-193 | without the bypass, none of the nodes the group occupies |
| Scheduling.Schedule | src/cluster/controllers/virtualmachine/scheduling.rs:144-200 | the pinned node or a random candidate, never a node with the maintenance annotation; an error when there is none |
| Scheduling.NodesWithLabelScheduled | src/cluster/controllers/virtualmachine/scheduling.rs:109-117 | exactly the nodes the group occupies |
| Scheduling.ChoiceIsExact | src/cluster/controllers/virtualmachine/scheduling.rs:175-199 | an unpinned VM can get exactly the nodes without either annotation set to "true" in any letter case that it is not asked to leave and no VM of its group is on, and gets none exactly if there is no such node |
| Scheduling.AnnotationsClose | src/utils/traits/node.rs:24-40 | a node is in maintenance, or closed to scheduling, exactly by its annotation of that name, set to "true" in any letter case |
| Scheduling.ComplianceIsExact | src/cluster/controllers/virtualmachine/scheduling.rs:33-68 | uncompliant is a scheduled VM whose node another VM with the same label is assigned to, by prefixed name |
| Scheduling.RequestIsAnnotation | src/utils/traits/virtualmachine.rs:33-45 | the request is the annotation with the name of the node, and clearing it takes that annotation off and nothing else |
| Scheduling.PinnedChoiceIsExact | src/cluster/controllers/virtualmachine/scheduling.rs:152-172 | a pinned VM gets its node exactly if that node is listed without the maintenance annotation, and otherwise none |
| Scheduling.RequestMigrationAwayFrom | src/utils/traits/virtualmachine.rs:33-45 | commits the copy with the annotation naming the node; a stale copy conflicts and changes nothing |
| Scheduling.RequestListed | src/cluster/controllers/node.rs:28-41 | the loop over a listing of any age does what the recursion over it says: it stops at the first VM without a status and at the first failed commit |
| Scheduling.StaleDrainIsSafe | src/cluster/controllers/node.rs:28-41 | however stale the listing, the only change to the store is the request, on VMs assigned to the node |
| Scheduling.FreshDrainIsComplete | src/cluster/controllers/node.rs:28-41 | over a fresh listing the loop fails exactly on a VM without a status, and otherwise every VM assigned to the node has the request |
| Scheduling.RequestRescheduleNodeVms | src/cluster/controllers/node.rs:25-42 | without another writer between listing and commits: no error exactly if every VM has a status, then every VM assigned to the node has the request; no other change in any case |
| Scheduling.MigrationFailsExactlyWithoutNodes | src/cluster/controllers/virtualmachine/vm.rs:96-103 | a requested migration finds no node exactly when every node has the maintenance or the no-schedule annotation or is the source, whatever the group |
| Scheduling.DecisionAvoidsSource | src/cluster/controllers/virtualmachine/scheduling.rs:175-178 | an unpinned VM is never sent to the node it was asked to leave |
| VmController.InitializeStatus | src/cluster/controllers/virtualmachine/vm.rs:49-72 | writes the initial status exactly when there is none |
| VmController.FillNics | src/cluster/controllers/virtualmachine/utils.rs:50-120 | writes the merged list only if it differs, then commits the copy whose version that write made stale |
| VmController.FillUuid | src/cluster/controllers/virtualmachine/utils.rs:124-135 | commits a generated UUID exactly when there is none |
| VmController.ClearSuccessfulMigration | src/cluster/controllers/virtualmachine/scheduling.rs:86-99 | removes the request exactly when the copy is assigned elsewhere |
| VmController.SchedulingAndMigrations | src/cluster/controllers/virtualmachine/vm.rs:75-117 | a VM that needs it gets a decided node in one critical section, with the affinity bypass only for a requested migration, then the request is cleared from the stale copy; without a status it is an error that changes nothing |
| VmController.CreateFn | src/cluster/controllers/virtualmachine/vm.rs:31-46 | the whole pass: its writes in order, aborted at the first error |
| VmController.StaleCopyWritesNothing | src/cluster/controllers/virtualmachine/vm.rs:75-117 | once the copy is stale the scheduling part of the pass changes nothing |
| VmController.EachPassDoesOneUnit | src/cluster/controllers/virtualmachine/vm.rs:31-117 | while work is left a pass writes one version of one object and does one unit of work; with none left it changes nothing, and fails exactly if the VM needs a node and there is none for it |
| VmController.BypassIsStuck | src/cluster/controllers/virtualmachine/vm.rs:96-116 | after a placement by the affinity bypass every later pass fails before it would clear the request |
| VmController.PassesSettle | src/cluster/controllers/virtualmachine/vm.rs:31-117 | without interference the store settles after exactly as many passes as there are units of work, at most five, for pinned and unpinned VMs, with or without a node for them; each of those passes writes, no later one does, no other object changes |
| PassLaws.PassIsExact | src/cluster/controllers/virtualmachine/vm.rs:31-117 | a pass over any stored object makes at most one write, the first of these that the object needs: an empty status with its domain name, the merged NICs, the UUID drawn, the placement, the clearing of a request |
| PassLaws.SchedulingStores | src/cluster/controllers/virtualmachine/vm.rs:75-117 | the scheduler part fails exactly without a node to decide on; else it stores node, scheduled flag and, for a VM asked to leave its node, the pending flag, or clears a request that names another node |
| PassLaws.DecisionIsAllowed | src/cluster/controllers/virtualmachine/scheduling.rs:144-200 | the decision is a node the VM may get: the pinned one if up, else an open one, else for a VM asked to leave its node one that is open but for the group; there is none exactly if no node is allowed |
| PassLaws.AllowedIsDrawn | src/cluster/controllers/virtualmachine/scheduling.rs:195-199 | each node the VM may get is what some draw gives |
| Hosts.Fleet.VolumesLocked | src/host/libvirt/lowlevel.rs:152-161 | true exactly when a Ceph volume of the VM is held by a running domain |
| Hosts.Fleet.CreateDomain | src/host/libvirt/lowlevel.rs:69-142 | starts the domain, which then holds its Ceph volumes, unless one of them is locked |
| Hosts.HandleDelete | src/host/libvirt/handlers.rs:27-46 | destroys the domain if present and only then takes the finalizer off |
| Hosts.HandleAdd | src/host/libvirt/handlers.rs:50-76 | nothing if the EVPN mapping fails; else finalizer first, then the start if the VM is to be on, then the running flag |
| Hosts.HandleOutboundMigration | src/host/libvirt/handlers.rs:80-98 | moves the domain with its locks to the assigned node, or changes nothing |
| Hosts.HandleInboundMigration | src/host/libvirt/handlers.rs:102-129 | nothing if the EVPN mapping fails; else clears the pending flag only when the domain is here and active |
| Hosts.Reconcile | src/host/libvirt/controller.rs:37-98 | the step of each event, for all nine classes of an object; an error that changes nothing where the EVPN mapping is needed and fails |
| Hosts.StartedWithFinalizer | src/host/libvirt/handlers.rs:50-76 | a host starts a domain only for an object that is to be on, holds no locked volume and then carries the finalizer; it marks it running unless its copy went stale |
| Hosts.RemovedAfterDomain | src/host/libvirt/handlers.rs:27-46 | the finalizer comes off only for a deleted object assigned here, when no domain of it is left here |
| PassRuns.PassIsRun | src/cluster/controllers/virtualmachine/vm.rs:31-117 | whatever it draws, a pass over the stored object leaves the store as some run of the interleaving machine does, which reads the copy and makes each request as one step |
| PassRuns.DrainIsRun | src/cluster/controllers/node.rs:25-42 | so is the drain loop over a fresh listing, each request a read and a commit |
| PassRuns.AddressesAreStep | src/cluster/controllers/virtualmachine/ovn.rs:114-123 | the status write of the OVN controller is one step of the process that holds the copy |
| PassRuns.PassesAreReachable | src/cluster/controllers/virtualmachine/vm.rs:31-117 | a series of passes from a reachable store stays within the reachable ones |
| HostLaws.MigrationMoves | src/host/libvirt/handlers.rs:80-98 | an outbound reconcile takes the domain with its locks from this host to the assigned one and changes nothing else; a failed one changes nothing |
| HostLaws.StartsExactly | src/host/libvirt/controller.rs:63-98 | a host without the domain has it afterwards exactly if the VM is assigned here, at rest, to be on, its finalizer is or can be put on and its Ceph images are free, and the start succeeds; the domain then holds exactly those images |
| HostLaws.StopsExactly | src/host/libvirt/controller.rs:63-98 | a host with the domain loses it exactly if the foreign call succeeds and the VM is assigned elsewhere, or is under deletion, assigned here and at rest |
| HostLaws.DestroyedIsReleased | src/host/libvirt/handlers.rs:27-46 | destroying the domain of a stored object takes the host finalizer off, or the object away if it had no other, and changes nothing else |
| HostLaws.InboundClears | src/host/libvirt/handlers.rs:102-129 | the pending flag of a VM assigned here goes off exactly if its domain is here and active; nothing else of it changes |
| HostLaws.MappingIsNeeded | src/host/libvirt/handlers.rs:50-107 | the EVPN mapping comes first exactly for a VM assigned here with a migration pending, or to be added |
| HostLaws.OthersRest | src/host/libvirt/controller.rs:37-98 | in every other case a reconcile does nothing |
| HostLaws.MigrationHandsOver | src/host/libvirt/controller.rs:63-98 | the outbound step and then the inbound one leave the domain with its locks on the target only and the pending flag off |
| HostLaws.RequestedMigrationCompletes | src/cluster/controllers/virtualmachine/vm.rs:96-112 | a requested migration of a running VM, once decided, completes in three steps: the domain runs on the target only, with its locks, the VM is assigned there, and no migration is pending |
| Protocol.OnlySchedulerPlaces | src/cluster/controllers/virtualmachine/vm.rs:104-112 | no step but the scheduler's write changes a node or the scheduled flag, however stale the copies |
| Protocol.HostWritesOnce | src/host/libvirt/handlers.rs:27-129 | a host reconcile makes at most one effective write, one of four kinds |
| Protocol.InvKept | src/cluster/controllers/virtualmachine/vm.rs:88-113 | copies are what was stored under their version, scheduled means assigned, and a decision in the section stays sound until written |
| Protocol.SuccessfulWritesAreCurrent | src/utils/shortcuts.rs:25-40 | in every interleaving a status write succeeds exactly when the copy is the stored object |
| Protocol.OnlySchedulerAssigns | src/cluster/controllers/virtualmachine/vm.rs:104-112 | in every interleaving a changed assignment is the scheduler writing its decision over the object it decided on |
| Protocol.RequestsAreNotLost | src/cluster/controllers/virtualmachine/scheduling.rs:86-99 | in every interleaving a request disappears only from an object assigned to another node |
| Protocol.NeverAssignedToTheSource | src/cluster/controllers/virtualmachine/scheduling.rs:175-178 | in every interleaving an unpinned VM is never assigned the node it was asked to leave |
| AntiAffinity.ConflictsNeverGrow | src/cluster/controllers/virtualmachine/scheduling.rs:180-193 | no step adds a same-group pair on one node, and an affinity-respecting placement leaves its VM in no such pair |
| AntiAffinity.ConflictsAlongRuns | src/cluster/controllers/virtualmachine/vm.rs:89-113 | over whole runs the number of such pairs never increases |
| AntiAffinity.RepairFindsFreeNode | src/cluster/controllers/virtualmachine/scheduling.rs:144-200 | with as many open nodes as members, a misplaced member always gets a node its group does not occupy |
| AntiAffinity.RepairOccupiesOneMore | src/cluster/controllers/virtualmachine/vm.rs:86-105 | each repair raises the number of nodes the group occupies by exactly one |
| AntiAffinity.SettledMeansOnePerNode | src/cluster/controllers/virtualmachine/scheduling.rs:33-68 | no member needs scheduling if and only if there is one member per node |
| AntiAffinity.RepairTerminates | src/cluster/controllers/virtualmachine/vm.rs:86-113 | a series of repairs is no longer than members minus occupied nodes, and reaches one member per node exactly at that length |
| Drain.PlacementsDrain | src/cluster/controllers/node.rs:25-42 | with fixed nodes no step puts a VM on a node in maintenance, and a drain placement takes exactly its VM off one |
| Drain.DrainEnds | src/cluster/controllers/virtualmachine/vm.rs:96-109 | over any run the drain placements are at most as many as there were VMs on nodes in maintenance |
| Runners.StartsOnlyWhatRunsNowhere | src/host/libvirt/lowlevel.rs:96-98 | if a host sees an added VM whose domain runs elsewhere, the volume check refuses the start |
| Runners.RunnersKept | src/host/libvirt/controller.rs:63-84 | every guarded step keeps a running domain on the assigned node, pending, under deletion or holding an image of its VM |
| Runners.SingleRunner | src/host/libvirt/handlers.rs:50-129 | over every guarded run, in which users may change volumes, at most one host runs a VM |
| Runners.GuardIsExact | src/cluster/controllers/virtualmachine/vm.rs:104-112 | a step is safe for all guarded continuations if and only if it is guarded: a reassignment of a running VM stays on its node, has a migration requested or pending, concerns a VM under deletion, or one with an image its domain holds; an edit takes no such last image from a VM that nothing else anchors |
| Runners.UnguardedStartsTwice | src/host/libvirt/lowlevel.rs:96-98 | otherwise the continuation in which the assigned node starts the VM a second time |
| DoubleStart.AntiAffinityStartsTwice | src/cluster/controllers/virtualmachine/vm.rs:107-109 | a run from the start of the cluster: the anti-affinity reschedule of a VM without a Ceph volume ends with two hosts running it |
| Orphans.VanishesExactly | src/host/libvirt/handlers.rs:27-46 | a host reconcile makes the object go away exactly if it is under deletion, assigned there and held by the hosts alone; a domain on another host keeps running |
| Orphans.StrictIsExact | src/cluster/controllers/virtualmachine/vm.rs:104-112 | a scheduler write keeps the objects of all running domains, over all strict continuations, if and only if every running domain of the VM stays on its node or has a migration requested or pending, or the VM carries a finalizer of no controller |
| Orphans.FinalizersGo | src/utils/traits/kube.rs:116-133 | an object under deletion with finalizers of controllers only goes away when they take them off, whatever runs |
| Orphans.StrictRunsKeepObjects | src/host/libvirt/handlers.rs:27-129 | over every strict run, with keys used again at any time, every running domain has its object and at most one host runs a VM |
| Orphans.AssumptionHolds | src/host/libvirt/handlers.rs:27-46 | while every running domain has its object, a free key has no running domain |
| Json.UuidSetRoundTrip | src/interfaces/ovn/deserialization.rs:92-131 | the notation of any UUID list, with or without the shorthand for one, decodes to it (RFC 7047 section 5.1) |
| Json.UuidRoundTrip | src/interfaces/ovn/deserialization.rs:10-18 | a row's own UUID decodes from its notation |
| Json.RouterDecoderAgrees | src/interfaces/ovn/types/logicalrouter.rs:114-135 | whatever the set decoder accepts, the router's own decoder reads alike |
| Json.RouterDecoderIsLaxer | src/interfaces/ovn/types/logicalrouter.rs:125-132 | an input the router's decoder accepts and the set decoder panics on |
| Json.MapRoundTrip | src/interfaces/ovn/deserialization.rs:48-80 | the notation of any string map, its pairs in any order, decodes to it |
| Ovsdb.TransactIsIntact | src/interfaces/ovn/lowlevel.rs:66-90 | after every committed transaction, whatever its operations, no reference dangles and no row outside the root tables is unreferenced |
| Ovsdb.TransactIsBounded | src/interfaces/ovn/lowlevel.rs:66-90 | UUIDs in use stay below the supply, so none is given out twice |
| Ovsdb.IntactIsCollected | src/interfaces/ovn/lowlevel.rs:66-90 | committing an intact database collects nothing |
| Ovsdb.ExactlyOneOwner | src/interfaces/ovn/types/logicalswitch.rs:74-85 | in a valid database every port and every route has exactly one owner |
| OvnTransactions.InsertRootEffect | src/interfaces/ovn/lowlevel.rs:117-125 | the insert adds exactly the row, and keeps the invariant if the name is free |
| OvnTransactions.NewPortEffect | src/interfaces/ovn/types/logicalswitchport.rs:34-51 | the two-operation transaction adds the port to its owner, or nothing if the owner is gone |
| OvnTransactions.DeleteEffect | src/interfaces/ovn/lowlevel.rs:127-136 | the delete removes the object and exactly what it owned |
| OvnTransactions.RemovePortEffect | src/interfaces/ovn/types/logicalswitch.rs:42-61 | the port goes with its only reference; nothing happens if it is not on this switch |
| OvnTransactions.UpdateEffect | src/interfaces/ovn/types/logicalrouterport.rs:72-87 | an update changes one row, and keeps the invariant if it repeats the row's name |
| OvnObjects.LookupIs | src/interfaces/ovn/common.rs:64-69 | with unique names a lookup has only one row to find |
| OvnObjects.EnsureRootEffect | src/interfaces/ovn/common.rs:76-96 | afterwards the name exists; a missing one is the only new row |
| OvnObjects.EnsurePortEffect | src/interfaces/ovn/types/logicalswitchport.rs:55-73 | afterwards the port exists, unless it and its owner were missing, which is the error |
| OvnObjects.AddressTwice | src/interfaces/ovn/types/logicalswitchport.rs:105-138 | setting an address again changes nothing; a refused one is refused again |
| OvnObjects.AddressIsSet | src/interfaces/ovn/types/logicalswitchport.rs:105-138 | a call without an error writes the new addresses unless the old ones contain the MAC, and changes no other row |
| OvnObjects.TokenIsSet | src/interfaces/ovn/types/logicalswitchport.rs:105-138 | after a call without an error the port carries the MAC if and only if its old addresses did not contain it or already began with it |
| OvnObjects.PrefixIsTaken | src/interfaces/ovn/types/logicalswitchport.rs:111-113 | a MAC that is part of the port's other MAC: the call reports success and the port keeps the other one |
| OvnObjects.PrefixIsRefused | src/interfaces/ovn/types/logicalswitchport.rs:115-119 | a free MAC that is part of another port's MAC is refused as a conflict |
| OvnObjects.SubstringIsExact | src/interfaces/ovn/types/logicalswitchport.rs:75-138 | comparing substrings gives the outcome of comparing MACs if and only if neither the port's own addresses nor, else, those of its switch's ports contain the MAC without one carrying it |
| OvnObjects.HasSubstring | src/interfaces/ovn/types/logicalswitchport.rs:82-82 | true exactly when the text occurs somewhere |
| OvnObjects.Ovn.Transact | src/interfaces/ovn/lowlevel.rs:66-90 | all or nothing; false exactly when the server reports an error |
| OvnObjects.Ovn.ListObjects | src/interfaces/ovn/lowlevel.rs:92-115 | exactly the rows of the table |
| OvnObjects.Ovn.GetByName | src/interfaces/ovn/common.rs:64-69 | a row with the name, the named row if names are unique, and not found exactly if there is none |
| OvnObjects.Ovn.CreateIfMissing | src/interfaces/ovn/common.rs:86-96 | the database and the handle that create-if-missing promises |
| OvnObjects.Ovn.CreatePortIfMissing | src/interfaces/ovn/types/logicalrouterport.rs:45-62 | the same for ports |
| OvnObjects.Ovn.Delete | src/interfaces/ovn/common.rs:99-102 | the database without the object and what it owned |
| OvnObjects.Ovn.DelLsp | src/interfaces/ovn/types/logicalswitch.rs:42-61 | the port is found by name and removed from this switch |
| OvnObjects.Ovn.FindLspOwner | src/interfaces/ovn/types/logicalswitch.rs:74-85 | the switch that has the port, not found exactly if none has |
| OvnObjects.Ovn.GetByMac | src/interfaces/ovn/types/logicalswitchport.rs:75-86 | true exactly when some port of the handle's port list, which may be out of date, contains the MAC in its addresses |
| OvnObjects.Ovn.SetAddress | src/interfaces/ovn/types/logicalswitchport.rs:105-138 | no change if the handle has the MAC, conflict if another port of the switch contains it, else the new addresses |
| OvnObjects.GetByCidr | src/interfaces/ovn/types/dhcpoptions.rs:33-38 | some row with the CIDR, not found exactly if there is none |
| Routes.IdInjective | src/interfaces/ovn/types/logicalrouter.rs:46-46 | different counters give different symbolic names |
| Routes.InsertsRun | src/interfaces/ovn/types/logicalrouter.rs:40-56 | up to 256 inserts succeed with distinct names |
| Routes.InsertsFail | src/interfaces/ovn/types/logicalrouter.rs:40-56 | one more repeats a name and aborts the transaction |
| Routes.RoutesCollected | src/interfaces/ovn/types/logicalrouter.rs:66-78 | commit collects the removed routes, whose only owner was the router |
| Routes.WithRoutesIsValid | src/interfaces/ovn/types/logicalrouter.rs:66-78 | the route change keeps the database invariant, also from stale handles |
| Routes.RouteEffect | src/interfaces/ovn/types/logicalrouter.rs:33-80 | the transaction commits exactly when at most 256 routes are missing, with exactly the described database |
| RouteUpdate.GetRoutes | src/interfaces/ovn/types/logicalrouter.rs:82-98 | one entry per row of the handle, and the panic exactly when one of them is gone |
| RouteUpdate.RouteSetEffect | src/interfaces/ovn/types/logicalrouter.rs:33-80 | with a current handle the call succeeds exactly when the missing entries fit the counter (255 with overflow checks, 256 without), and otherwise changes nothing |
| RouteUpdate.SetRoutesIsExact | src/interfaces/ovn/types/logicalrouter.rs:33-80 | the router's routes equal the requested set, common routes keep their rows, every other row of the database stays, every new row is a requested route that was missing |
| RouteUpdate.SetRoutesTwice | src/interfaces/ovn/types/logicalrouter.rs:33-80 | a repeated call changes nothing |
| RouteUpdate.OrderIsIrrelevant | src/interfaces/ovn/types/logicalrouter.rs:54-64 | the result does not depend on the order in which the server listed the routes |
| RouteUpdate.CollectMissing | src/interfaces/ovn/types/logicalrouter.rs:36-57 | the first loop: the inserts and symbolic references of the missing routes, none exactly when the checked counter overflows |
| RouteUpdate.CollectExtra | src/interfaces/ovn/types/logicalrouter.rs:58-64 | the second loop: the references of the routes nobody asks for |
| RouteUpdate.SetRoutes | src/interfaces/ovn/types/logicalrouter.rs:33-80 | the method leaves the database and answers as described |
| RouteUpdate.ReadRouter | src/interfaces/ovn/types/logicalrouter.rs:114-143 | the handle lists exactly the row's routes |
| OvnInterleaving.InvKept | src/interfaces/ovn/common.rs:76-102 | each step keeps the database invariant, the observed-missing names of other reconciles missing, and every held handle true |
| OvnInterleaving.ChangeRoutesKeeps | src/interfaces/ovn/types/logicalrouter.rs:66-80 | a route change from any stale list keeps names, owners and MACs |
| OvnInterleaving.OneStepKeepsMacs | src/interfaces/ovn/types/logicalswitchport.rs:105-138 | check and write of an address as one step keep the MACs of every switch distinct |
| OvnInterleaving.DatabaseStaysValid | src/interfaces/ovn/types/logicalswitchport.rs:22-73 | over every interleaving, `set_address` being three requests, names stay unique, no reference dangles, and every port and route has one owner |
| OvnInterleaving.WriteIsExact | src/interfaces/ovn/types/logicalswitchport.rs:127-136 | a write keeps the MACs of every switch distinct if and only if no other port of the port's switch carries the MAC at that moment |
| OvnInterleaving.MacsStayDistinct | src/interfaces/ovn/types/logicalswitchport.rs:105-138 | over every run in which no two reconciles are between owner lookup and write for one MAC and two ports of one switch, MACs stay distinct |
| OvnInterleaving.CheckedExclusiveIsExact | src/interfaces/ovn/types/logicalswitchport.rs:115-136 | all orders of the writes that have passed their check keep MACs distinct if and only if no two of them are for one MAC and two live ports of one switch |
| OvnInterleaving.RaceCollides | src/interfaces/ovn/types/logicalswitchport.rs:115-136 | from an idle valid state with a free MAC: both reconciles pass their check, both write, two ports of the switch carry the MAC |
| OvnInterleaving.StaleListingCollides | src/interfaces/ovn/types/logicalswitchport.rs:75-86 | a run from an idle valid state: one reconcile looks up the owner, another creates a port on the switch and gives it the MAC, the first checks its old list and writes, and two ports carry the MAC, though each write comes right after its check |
| OvnInterleaving.OneMacHomeIsExact | src/interfaces/ovn/types/logicalswitchport.rs:105-138 | MACs stay distinct over all runs from idle states if and only if each MAC has one reconcile that sets it |
| OvnInterleaving.HomedRunsAreExclusive | src/interfaces/ovn/types/logicalswitchport.rs:105-138 | with one reconcile for each MAC no two are ever rivals |
| OvnInterleaving.IdleInv | src/interfaces/ovn/common.rs:76-102 | before any reconcile the invariant of the runs is that of the database |
| OvnInterleaving.SharedNamesCollide | src/interfaces/ovn/common.rs:86-96 | if two reconciles may create one name, of a switch, a router or a port, the run in which both look first and both create it ends with two rows of the name |
| OvnInterleaving.OneCreatorIsExact | src/interfaces/ovn/types/logicalswitchport.rs:55-73 | the database stays valid over all runs from idle valid states if and only if each switch, router and port name has one reconcile that may create it |
| OvnConnect.LrpNameInjective | src/interfaces/ovn/utils.rs:12-12 | the router port format is injective on names without underscores |
| OvnConnect.LspNameInjective | src/interfaces/ovn/utils.rs:20-20 | so is the switch port format |
| OvnConnect.UnderscoresCollide | src/interfaces/ovn/utils.rs:12-12 | and not on names with underscores |
| OvnConnect.ConnectedEffect | src/interfaces/ovn/utils.rs:7-30 | with both ends present the call succeeds, both ports exist with the given address, other router ports keep their rows |
| OvnConnect.ConnectedAgain | src/interfaces/ovn/utils.rs:14-28 | when both ports exist only the router port's address is rewritten |
| OvnConnect.ConnectRouterToLs | src/interfaces/ovn/utils.rs:7-30 | the method leaves the database and answers as described, also for stale handles |
| OvnConnect.LinksAlongRuns | src/interfaces/ovn/utils.rs:7-30 | every sequence of calls, deletions and re-creations keeps all connected pairs linked and generated names with their owners |
| OvnConnect.PairsStayConnected | src/interfaces/ovn/types/logicalrouterport.rs:45-87 | after any such sequence a pair connected since its ends were created has exactly one router port with the latest address on its router, and exactly one switch port naming it on its switch |
| OvnConnect.LatestCallCounts | src/interfaces/ovn/utils.rs:7-30 | the call succeeds exactly when both ends exist, and then its address is the pair's |
| Networks.AttachedTwice | src/cluster/controllers/network.rs:108-112 | the attachment loop is idempotent, with the same result, also when one attachment fails or a router occurs twice |
| Networks.ReachedHasAddress | src/cluster/controllers/network.rs:55-82 | a router port reached by the loop ends with the last address asked for it |
| Networks.UnreachedKept | src/cluster/controllers/network.rs:108-112 | a router port it does not reach keeps its row |
| Networks.DhcpMadeReady | src/cluster/controllers/network.rs:39-51 | afterwards the options row that the lookup found has the options and the switch has the subnet; an unparsable CIDR is the error |
| Networks.NetworkReconciled | src/cluster/controllers/network.rs:86-112 | a reconcile without an error leaves the switch, its DHCP settings and both ports of every attachment, with the last address the spec gives each router port |
| Networks.UpdatedNetworkTwice | src/cluster/controllers/network.rs:86-120 | repeating the reconcile gives the same result and database, also when it stops early, if and only if its lookup finds an options row with the options of the spec, as the row of the first reconcile has |
| Networks.EnsureDhcp | src/cluster/controllers/network.rs:39-51 | the method configures some options row of the CIDR, a new one if there was none, and the switch, and answers accordingly |
| Networks.EnsureRouterAttachment | src/cluster/controllers/network.rs:55-82 | the same for one attachment, with its three kinds of errors |
| Networks.UpdateNetwork | src/cluster/controllers/network.rs:103-112 | the method leaves the database and answers as described, for some options row of the CIDR that the lookup can find |
| Networks.RemoveNetwork | src/cluster/controllers/network.rs:137-140 | no switch of the name is left; a missing one is no error |
| Routers.MetadataTwice | src/cluster/controllers/router.rs:37-47 | repeating the metadata-service setup changes nothing, and it leaves the router's routes alone |
| Routers.MetadataMade | src/cluster/controllers/router.rs:37-47 | a setup without an error leaves the linked switch and a metadata port, which carries its MAC if and only if the port's old addresses did not stand in the way |
| Routers.RouterReconciled | src/cluster/controllers/router.rs:51-93 | a reconcile without an error leaves the router with exactly the spec's routes and, if asked for, the metadata network, its port with the MAC under the same condition |
| Routers.UpdatedRouterTwice | src/cluster/controllers/router.rs:51-93 | repeating the reconcile gives the same result and the same database, also when it stops early |
| Routers.MetadataNameIsShared | src/cluster/controllers/router.rs:37-40 | a network's switch is the metadata switch of some router if and only if its namespace is `mds` and its name has a dash, or its namespace begins with `mds-` |
| Routers.ConnectMetadataService | src/cluster/controllers/router.rs:37-47 | the method leaves the database and answers as described |
| Routers.UpdateRouter | src/cluster/controllers/router.rs:68-85 | the same for the whole reconcile |
| Routers.RemoveRouter | src/cluster/controllers/router.rs:104-104 | the router and what it owned are gone; a missing one is an error |
| VmPorts.InvKept | src/cluster/controllers/virtualmachine/ovn.rs:94-143 | each step keeps: a port of the VM exists only while the object exists, has the finalizer and lists the port's NIC |
| VmPorts.NothingLeft | src/cluster/controllers/virtualmachine/ovn.rs:130-143 | a commit that takes the finalizer off was made from the current object, whose ports are all gone |
| VmPorts.NotYetRemoved | src/utils/resource_controller.rs:132-140 | a reconcile over a copy not under deletion comes before any removal of the finalizer |
| VmPorts.NoPortOutlivesTheVm | src/utils/traits/kube.rs:96-133 | over every run, once the object is gone no switch port of its NICs is left |
| VmPorts.RefillKeepsNics | src/cluster/controllers/virtualmachine/utils.rs:57-110 | under a fixed spec with distinct targets, and networks that keep their type where a NIC asks for a port id, the merge keeps port id and network of every NIC, as the machine asks of status writes |
| VmLife.NoMergedPortOutlivesTheVm | src/cluster/controllers/virtualmachine/utils.rs:50-110 | with a fixed spec and status writes that merge the NICs of their copy or keep them, over every run every port of the VM is listed by the living object, and none is left once it is gone |
| VmLife.FillKeeps | src/cluster/controllers/virtualmachine/utils.rs:57-110 | each list of a series of merges keeps the ports of the one before |
| VmOvn.AllDisconnectedClears | src/cluster/controllers/virtualmachine/ovn.rs:61-77 | a loop that ends without an error leaves no port of its NICs, if each was on the switch its NIC names |
| VmOvn.DisconnectVmNic | src/cluster/controllers/virtualmachine/ovn.rs:61-77 | the method leaves the database and answers as described; a port without its switch is an error |
| VmOvn.ConnectVmNic | src/cluster/controllers/virtualmachine/ovn.rs:29-58 | the method leaves the database and answers as described, for some options row that the lookup can find; success means that the port exists, and no port goes away |
| VmOvn.NicConnectedServes | src/cluster/controllers/virtualmachine/ovn.rs:29-58 | a NIC connected without an error has its port, with the DHCP options of its network, and with its MAC if and only if the port's old addresses did not stand in the way |
| VmOvn.RemoveVm | src/cluster/controllers/virtualmachine/ovn.rs:130-143 | the finalizer comes off only after every NIC is disconnected; an error leaves the object alone |
| VmOvn.UpdateVm | src/cluster/controllers/virtualmachine/ovn.rs:94-126 | nothing is connected before the finalizer is on; success means that the NICs were connected one after another, a port for every NIC, and a status with the dynamic addresses of the ports in order, as a list and as a text, written under the version of the copy |
| VmOvn.StaleAfterFinalizer | src/cluster/controllers/virtualmachine/ovn.rs:101-123 | the reconcile that adds the finalizer always ends with a conflict on its status write |
| PortRuns.UpdateIsRun | src/cluster/controllers/virtualmachine/ovn.rs:94-113 | an update that connects every NIC of its copy is a run of the machine of `VmPorts` with the same effect on the database and on the object, up to its status write |
| PortRuns.RemovalIsRun | src/cluster/controllers/virtualmachine/ovn.rs:130-143 | so is a removal that disconnects every NIC, with the finalizer at its end |
| PortRuns.VmCanGo | src/cluster/controllers/virtualmachine/ovn.rs:130-143 | a VM that only the OVN controller holds, and whose NICs can be disconnected, can go: a deletion request and one removal lead to no object and none of its ports |
| OvnRuns.NetworkIsRun | src/cluster/controllers/network.rs:86-112 | the reconcile of a network, whatever its result, is a run of the machine of `OvnInterleaving` by one process that may create its names |
| OvnRuns.RouterIsRun | src/cluster/controllers/router.rs:51-93 | the same for the reconcile of a router with its routes and its metadata network |
| OvnRuns.RemovalIsRun | src/cluster/controllers/router.rs:96-106 | the removal of a router or of a network is a run of any process |
| OvnRuns.DisconnectIsRun | src/cluster/controllers/virtualmachine/ovn.rs:61-77 | and so is disconnecting a NIC |
| OvnRuns.EndsIdle | src/cluster/controllers/network.rs:86-142 | a process that began with nothing in mind and finishes leaves only the database changed |
| OvnRuns.NicIsRun | src/cluster/controllers/virtualmachine/ovn.rs:29-58 | the same for connecting a NIC whose MAC is a word |
| OvnLaws.ConnectedAddresses | src/cluster/controllers/virtualmachine/ovn.rs:29-58 | a port that did not mention the MAC of its NIC gets the MAC, followed by the word dynamic exactly if the switch has a subnet; a port that mentions it keeps its addresses |
| OvnLaws.NewNicPort | src/cluster/controllers/virtualmachine/ovn.rs:41-43 | a port that is new is on the switch of the network of its NIC |
| OvnLaws.AllAreServed | src/cluster/controllers/virtualmachine/ovn.rs:104-113 | connecting all NICs of a VM without an error leaves each with its port, addressed as above by the rows before the first of them |
| OvnLaws.OvnFinalizerIs | src/utils/traits/kube.rs:96-133 | the finalizer of the OVN controller is `cluster-virt.acl.fi/ovn` |
| OvnLaws.StatusListsAddresses | src/cluster/controllers/virtualmachine/ovn.rs:114-126 | the status lists the addresses of the ports in the order of the NICs, one for each that has one; the text splits at commas into the list; nothing else of the object changes |
| OvnLaws.NetworkIsMade | src/cluster/controllers/network.rs:103-112 | after a reconcile without an error the switch has the subnet of the DHCP settings and the options row their options; without settings its columns are as before |
| OvnLaws.NetworkMakesDynamic | src/cluster/controllers/virtualmachine/ovn.rs:45-50 | over a reconcile of a network and a connect after it, a NIC of that network is dynamic if the network has DHCP settings, and is not if it has none and its switch is new |
| OvnLaws.RefersIsExact | src/cluster/controllers/network.rs:58-72 | a name without a slash is a router of the namespace of the network, one with a slash a router of the namespace before it; more slashes refer to none |
| OvnLaws.NetworkSucceedsExactly | src/cluster/controllers/network.rs:86-112 | a reconcile ends without an error exactly if the CIDR of its DHCP settings is one and every attachment refers to a router that exists |
| OvnLaws.AttachmentsAreMade | src/cluster/controllers/network.rs:55-82 | afterwards the router of every attachment is joined to the switch, with the address of the last attachment that refers to it; a switch port that is new is on the switch and names the router port |
| RouterLaws.MetadataIsMade | src/cluster/controllers/router.rs:37-47 | after a setup without an error the router is joined to its metadata switch with 169.254.169.253/30, and the metadata port has the MAC 02:00:00:00:00:02 with 169.254.169.254, unless it mentioned that MAC before |
| RouterLaws.RouterIsMade | src/cluster/controllers/router.rs:51-93 | after a reconcile without an error there is a router of the prefixed name with exactly the routes of the spec, and with the metadata network if asked for |
| RouterLaws.UndeployedIsUnavailable | src/cluster/controllers/router.rs:68-85 | where the metadata service could not be deployed, a router that asks for it gets its routes and then the error, and no metadata network |
| RouterLaws.RoutesSucceedExactly | src/interfaces/ovn/types/logicalrouter.rs:33-80 | setting routes succeeds exactly if at most 256 entries are missing, or 255 in a build with overflow checks, and then the routes are those listed; else it panics and changes nothing |
| RouterLaws.RouterIsRemoved | src/cluster/controllers/router.rs:96-106 | a removed router is gone with its ports and routes, and nothing else is; a missing one is an error |
| RouterLaws.NetworkIsRemoved | src/cluster/controllers/network.rs:123-142 | a removed switch is gone with its ports, and nothing else is |

## Left out

- Kubernetes client, watch streams, retries and error policies, CRD registration: I/O.
- TCP and JSON-RPC transport and the choice of an OVN central node: `transact` is one step on the database.
- libvirt and librados calls, XML templates, memory and storage parsing, drive letters: foreign code and library work.
- The metadata proxy, its deployment, network namespaces and the EVPN commands of `ensure_vni_mapping`: shell commands; whether the deployment and the mapping succeeded are arguments.
- SHA-256 MAC generation and UUID generation: a function argument and a supply of fresh values.
- DHCP option values: the map that `set_options` builds from a CIDR is an argument, none when the CIDR does not parse.
- `dynamic_ip` and `get_by_ip`: the address that OVN assigns to a port is an argument of `VmOvn.UpdateVm`; its text form is not parsed.
- Index constraints of the northbound schema: the database refuses no duplicate name, so uniqueness is proved of the controllers alone.
- A symbolic name used in a transaction before the insert that defines it: the controllers never do it.
- The running flag as a mirror of the domain, and the removal of ports of NICs dropped from the spec: the code does not maintain them.
- The finalizer and status writes of the network and router controllers: they are those of `Kube.ApiServer` on other kinds of objects.
- `Protocol` acts on VM objects and nodes only; networks change in no step of it.
- Hosts.Reconcile: acts on the object as stored at that moment; the cached copy a host may hold instead is not modelled.
- Drain.DrainEnds: the set of nodes is fixed during the run.
- VmPorts.NoPortOutlivesTheVm: follows one object from creation to removal; a new object under the same key is a new run with its own ids.
- Scheduling.RequestRescheduleNodeVms: lists and commits without another writer in between; `Scheduling.RequestListed` and `Scheduling.StaleDrainIsSafe` take a listing of any age, with no writer between two commits.
