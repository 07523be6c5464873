/**
  One reconcile pass of the VM controller (`create_fn`) and its convergence. The pass works on the
  copy it was given: no write refreshes the copy, so the second effective write of a pass meets a
  version conflict and the pass ends there.
 */
module VmController {
  import opened Prelude
  import opened Kube
  import opened Nics
  import opened Scheduling

  /** What one pass draws: the MAC hash, port ids, a domain UUID and a random node. */
  datatype Draws = Draws(hashMac: (string, string, nat) -> string, portId: nat -> string, uuid: string, node: nat)

  function NamespaceNetworks(c: Cluster, namespace: string): map<string, Network> {
    map k | k in c.networks && k.namespace == namespace :: k.name := c.networks[k]
  }

  function EnvOf(c: Cluster, vm: Vm, draws: Draws): Env {
    Env(Prefixed(vm.key), NamespaceNetworks(c, vm.key.namespace), draws.hashMac, draws.portId)
  }

  function InitialStatus(vm: Vm): Status {
    Status(false, false, false, None, Prefixed(vm.key), None, None, [])
  }

  function Networks(vm: Vm): seq<Nic> {
    if vm.status.Some? then vm.status.value.networks else []
  }

  function WithUuid(vm: Vm, uuid: string): Vm {
    if vm.spec.uuid.None? then vm.(spec := vm.spec.(uuid := Some(uuid))) else vm
  }

  predicate NeedsScheduling(c: Cluster, vm: Vm) {
    !vm.Scheduled() || MigrationRequested(vm) || SharesNode(c, vm)
  }

  /** The status the scheduler writes. */
  function ScheduledStatus(vm: Vm, node: string): Status
    requires vm.status.Some?
  {
    vm.status.value.(node := Some(node), scheduled := true,
                     migrationPending := vm.status.value.migrationPending || MigrationRequested(vm))
  }

  function FillNicsResponse(c: Cluster, vm: Vm, draws: Draws): Response
    requires AllTargets(vm.spec.networks) && vm.status.Some?
  {
    var filled := Fill(EnvOf(c, vm, draws), Networks(vm), vm.spec.networks);
    if filled.Err? then
      Response(c, Some(filled.error))
    else
      var written :=
        if filled.value == Networks(vm) then Response(c, None)
        else PutStatus(c, vm, vm.status.value.(networks := filled.value));
      if written.error.Some? then written else PutObject(written.cluster, vm)
  }

  function ClearResponse(c: Cluster, vm: Vm): Response {
    if RequestIsStale(vm) then PutObject(c, WithoutRequest(vm)) else Response(c, None)
  }

  function SchedulingResponse(c: Cluster, vm: Vm, draw: nat): Response
    requires vm.status.Some?
  {
    if NeedsScheduling(c, vm) then
      var node := Decide(c, vm, draw);
      if node.None? then Response(c, Some(ScheduleFailed)) else
        var written := PutStatus(c, vm, ScheduledStatus(vm, node.value));
        if written.error.Some? then written else ClearResponse(written.cluster, vm)
    else
      ClearResponse(c, vm)
  }

  /** What a pass of `create_fn` over the copy `vm` does to the cluster, and how it ends. */
  function Pass(c: Cluster, vm: Vm, draws: Draws): Response
    requires AllTargets(vm.spec.networks)
  {
    if vm.status.None? then
      var r := PutStatus(c, vm, InitialStatus(vm));
      Response(r.cluster, if r.error.Some? then r.error else Some(NoStatus))
    else
      var nics := FillNicsResponse(c, vm, draws);
      if nics.error.Some? then nics else
        var copy := WithUuid(vm, draws.uuid);
        var uuid := if vm.spec.uuid.None? then PutObject(nics.cluster, copy) else nics;
        if uuid.error.Some? then uuid else SchedulingResponse(uuid.cluster, copy, draws.node)
  }

  method InitializeStatus(api: ApiServer, vm: Vm) returns (error: Option<Error>)
    modifies api
    ensures Response(api.Snapshot(), error) ==
              if vm.status.None? then PutStatus(old(api.Snapshot()), vm, InitialStatus(vm))
              else Response(old(api.Snapshot()), None)
  {
    error := None;
    if vm.status.None? {
      error := api.SetVmStatus(vm, InitialStatus(vm));
    }
  }

  method FillNics(api: ApiServer, vm: Vm, draws: Draws) returns (error: Option<Error>)
    requires AllTargets(vm.spec.networks)
    modifies api
    ensures vm.status.None? ==> error == Some(NoStatus) && api.Snapshot() == old(api.Snapshot())
    ensures vm.status.Some? ==> Response(api.Snapshot(), error) == FillNicsResponse(old(api.Snapshot()), vm, draws)
  {
    if vm.status.None? {
      return Some(NoStatus);
    }
    var filled := MergeNics(EnvOf(api.Snapshot(), vm, draws), vm.status.value.networks, vm.spec.networks);
    if filled.Err? {
      return Some(filled.error);
    }
    if vm.status.value.networks != filled.value {
      error := api.SetVmStatus(vm, vm.status.value.(networks := filled.value));
      if error.Some? {
        return;
      }
    }
    error := api.Commit(vm);
  }

  method FillUuid(api: ApiServer, vm: Vm, draws: Draws) returns (copy: Vm, error: Option<Error>)
    modifies api
    ensures copy == WithUuid(vm, draws.uuid)
    ensures Response(api.Snapshot(), error) ==
              if vm.spec.uuid.None? then PutObject(old(api.Snapshot()), copy) else Response(old(api.Snapshot()), None)
  {
    copy, error := vm, None;
    if copy.spec.uuid.None? {
      copy := copy.(spec := copy.spec.(uuid := Some(draws.uuid)));
      error := api.Commit(copy);
    }
  }

  method ClearSuccessfulMigration(api: ApiServer, vm: Vm) returns (error: Option<Error>)
    modifies api
    ensures Response(api.Snapshot(), error) == ClearResponse(old(api.Snapshot()), vm)
  {
    error := None;
    if vm.MigrationRequestedFrom().Some? && vm.AssignedNode() != vm.MigrationRequestedFrom() {
      error := api.Commit(WithoutRequest(vm));
    }
  }

  method SchedulingAndMigrations(api: ApiServer, vm: Vm, draw: nat) returns (error: Option<Error>)
    modifies api
    ensures vm.status.Some? ==> Response(api.Snapshot(), error) == SchedulingResponse(old(api.Snapshot()), vm, draw)
    ensures vm.status.None? ==> error == Some(NoStatus) && api.Snapshot() == old(api.Snapshot())
  {
    if vm.status.None? {
      return Some(NoStatus);
    }
    var status := vm.status.value;
    var migrationRequired := MigrationRequested(vm);
    var rescheduleRequired := CheckCompliance(api, vm);
    if !status.scheduled || migrationRequired || rescheduleRequired.value {
      var node := Schedule(api, vm, false, draw);
      if migrationRequired && node.None? {
        node := Schedule(api, vm, true, draw);
      }
      if node.None? {
        return Some(ScheduleFailed);
      }
      status := status.(node := node);
      status := status.(scheduled := true);
      if migrationRequired {
        status := status.(migrationPending := true);
      }
      error := api.SetVmStatus(vm, status);
      if error.Some? {
        return;
      }
    }
    error := ClearSuccessfulMigration(api, vm);
  }

  method CreateFn(api: ApiServer, vm: Vm, draws: Draws) returns (error: Option<Error>)
    requires AllTargets(vm.spec.networks)
    modifies api
    ensures Response(api.Snapshot(), error) == Pass(old(api.Snapshot()), vm, draws)
  {
    error := InitializeStatus(api, vm);
    if error.Some? {
      return;
    }
    error := FillNics(api, vm, draws);
    if error.Some? {
      return;
    }
    var copy;
    copy, error := FillUuid(api, vm, draws);
    if error.Some? {
      return;
    }
    error := SchedulingAndMigrations(api, copy, draws.node);
  }

  /** A generator that draws nothing of interest: the merge of a settled list does not depend on it. */
  const PLAIN_DRAWS := Draws((n, t, i) => "", i => "", "", 0)

  predicate NicsSettled(c: Cluster, vm: Vm)
    requires AllTargets(vm.spec.networks)
  {
    Fill(EnvOf(c, vm, PLAIN_DRAWS), Networks(vm), vm.spec.networks) == Ok(Networks(vm))
  }

  ghost predicate MergeableNics(env: Env, specs: seq<Nic>, list: seq<Nic>) {
    && AllTargets(specs) && AllKnown(env, specs) && DistinctTargets(specs)
    && Separate(env, specs, specs) && NoAlias(specs, list)
  }

  /** The NICs can be merged, and no other object has the VM's prefixed name. */
  ghost predicate Progressing(c: Cluster, k: Key) {
    && Versioned(c) && k in c.vms && (forall j :: j in c.vms && j != k ==> Prefixed(j) != Prefixed(k))
    && var vm := c.vms[k];
       MergeableNics(EnvOf(c, vm, PLAIN_DRAWS), vm.spec.networks, Networks(vm))
  }

  function Count(b: bool): nat {
    if b then 1 else 0
  }

  ghost predicate HasBypass(c: Cluster, vm: Vm) {
    exists n :: n in c.nodes && Eligible(c, vm, true, n)
  }

  predicate NodeUp(c: Cluster, name: string) {
    exists n :: n in c.nodes && n.name == name && !Marked(n, "cluster-virt.acl.fi/maintenance")
  }

  /**
    Some node can be decided on: the pinned one, a candidate, or for a requested migration one that affinity
    forbids.
   */
  ghost predicate CanPlace(c: Cluster, vm: Vm) {
    if vm.spec.node.Some? then NodeUp(c, vm.spec.node.value)
    else HasCandidate(c, vm) || (MigrationRequested(vm) && HasBypass(c, vm))
  }

  /** It does not depend on the draw. */
  lemma CanPlaceIsExact(c: Cluster, vm: Vm, draw: nat)
    ensures Decide(c, vm, draw).Some? <==> CanPlace(c, vm)
    ensures vm.spec.node.Some? && CanPlace(c, vm) ==> Decide(c, vm, draw) == vm.spec.node
    ensures vm.spec.node.None? && HasCandidate(c, vm) ==> Decide(c, vm, draw) == Choose(c, vm, false, draw)
  {
    if vm.spec.node.Some? {
      PinnedChoiceIsExact(c, vm, false, draw);
      PinnedChoiceIsExact(c, vm, true, draw);
    }
  }

  /**
    The status writes ahead of the scheduler. A pinned VM may need two: one to move to its node, and one to
    mark a migration that was requested away from that very node.
   */
  ghost function Placing(c: Cluster, vm: Vm): (r: nat)
    ensures r <= 2
  {
    if !NeedsScheduling(c, vm) || !CanPlace(c, vm) then 0
    else if vm.spec.node.None? then 1
    else
      var marks := vm.MigrationRequestedFrom() == vm.spec.node && !vm.Pending();
      if vm.AssignedNode() != vm.spec.node then 1 + Count(marks) else Count(!vm.Scheduled() || marks)
  }

  /** Some pass will take the migration request off. */
  ghost predicate Clearing(c: Cluster, vm: Vm) {
    && vm.MigrationRequestedFrom().Some?
    && (NeedsScheduling(c, vm) ==>
          && CanPlace(c, vm)
          && if vm.spec.node.Some? then vm.MigrationRequestedFrom() != vm.spec.node else HasCandidate(c, vm))
  }

  /** The work left: no status, unmerged NICs, no UUID, placements, a migration request to clear. */
  ghost function WorkLeft(c: Cluster, k: Key): (r: nat)
    requires k in c.vms && AllTargets(c.vms[k].spec.networks)
    ensures r <= 5
  {
    var vm := c.vms[k];
    Count(vm.status.None?) + Count(!NicsSettled(c, vm)) + Count(vm.spec.uuid.None?)
    + Placing(c, vm) + Count(Clearing(c, vm))
  }

  /** What is left when no work is: the scheduler finds no node for a VM that needs one. */
  ghost predicate Stuck(c: Cluster, vm: Vm) {
    NeedsScheduling(c, vm) && !CanPlace(c, vm)
  }

  /** `c'` is `c` but for the object at `k`, which took the next revision. */
  ghost predicate OnlyWrote(c: Cluster, c': Cluster, k: Key, vm: Vm) {
    c' == c.(rev := c.rev + 1, vms := c.vms[k := vm.(version := c.rev + 1)])
  }

  lemma StatusInitialized(c: Cluster, k: Key, draws: Draws)
    requires Progressing(c, k) && c.vms[k].status.None?
    ensures OnlyWrote(c, Pass(c, c.vms[k], draws).cluster, k, c.vms[k].(status := Some(InitialStatus(c.vms[k]))))
  {
  }

  lemma NicsMerged(c: Cluster, k: Key, draws: Draws) returns (networks: seq<Nic>)
    requires Progressing(c, k) && c.vms[k].status.Some? && !NicsSettled(c, c.vms[k])
    ensures networks != Networks(c.vms[k])
    ensures Fill(EnvOf(c, c.vms[k], draws), Networks(c.vms[k]), c.vms[k].spec.networks) == Ok(networks)
    ensures OnlyWrote(c, Pass(c, c.vms[k], draws).cluster, k,
                      c.vms[k].(status := Some(c.vms[k].status.value.(networks := networks))))
  {
    var vm := c.vms[k];
    var env := EnvOf(c, vm, draws);
    FillIsFixedPoint(env, env, Networks(vm), vm.spec.networks);
    networks := Fill(env, Networks(vm), vm.spec.networks).value;
    if networks == Networks(vm) {
      UnchangedForAnyGenerator(env, EnvOf(c, vm, PLAIN_DRAWS), Networks(vm), vm.spec.networks);
      assert false;
    }
  }

  /** Settled NICs make the merge of a pass a read and its commit a no-op. */
  lemma NicsUntouched(c: Cluster, k: Key, draws: Draws)
    requires Progressing(c, k) && c.vms[k].status.Some? && NicsSettled(c, c.vms[k])
    ensures FillNicsResponse(c, c.vms[k], draws) == Response(c, None)
  {
    var vm := c.vms[k];
    UnchangedForAnyGenerator(EnvOf(c, vm, PLAIN_DRAWS), EnvOf(c, vm, draws), Networks(vm), vm.spec.networks);
  }

  lemma PassIsScheduling(c: Cluster, k: Key, draws: Draws)
    requires Progressing(c, k) && c.vms[k].status.Some? && NicsSettled(c, c.vms[k]) && c.vms[k].spec.uuid.Some?
    ensures Pass(c, c.vms[k], draws) == SchedulingResponse(c, c.vms[k], draws.node)
  {
    NicsUntouched(c, k, draws);
  }

  /** After an effective write of the same pass the rest of it cannot write. */
  lemma StaleCopyWritesNothing(c: Cluster, vm: Vm, draw: nat)
    requires vm.status.Some? && vm.key in c.vms && c.vms[vm.key].version != vm.version
    ensures SchedulingResponse(c, vm, draw).cluster == c
  {
  }

  lemma UuidFilled(c: Cluster, k: Key, draws: Draws)
    requires Progressing(c, k) && c.vms[k].status.Some? && NicsSettled(c, c.vms[k]) && c.vms[k].spec.uuid.None?
    ensures OnlyWrote(c, Pass(c, c.vms[k], draws).cluster, k, WithUuid(c.vms[k], draws.uuid))
  {
    NicsUntouched(c, k, draws);
    var copy := WithUuid(c.vms[k], draws.uuid);
    StaleCopyWritesNothing(PutObject(c, copy).cluster, copy, draws.node);
  }

  /** A decision that counts as work changes the status. */
  lemma DecisionIsNew(c: Cluster, vm: Vm, draw: nat) returns (node: string)
    requires vm.status.Some? && Placing(c, vm) > 0 && vm.key in c.vms && c.vms[vm.key] == vm
    ensures Decide(c, vm, draw) == Some(node) && ScheduledStatus(vm, node) != vm.status.value
  {
    CanPlaceIsExact(c, vm, draw);
    node := Decide(c, vm, draw).value;
    if vm.spec.node.None? && SharesNode(c, vm) {
      assert vm.AssignedNode().value in OccupiedNodes(c, Group(vm).value);
    }
  }

  lemma NodeWritten(c: Cluster, k: Key, draws: Draws) returns (node: string)
    requires Progressing(c, k) && c.vms[k].status.Some? && NicsSettled(c, c.vms[k]) && c.vms[k].spec.uuid.Some?
    requires Placing(c, c.vms[k]) > 0
    ensures Decide(c, c.vms[k], draws.node) == Some(node)
    ensures OnlyWrote(c, Pass(c, c.vms[k], draws).cluster, k,
            c.vms[k].(status := Some(ScheduledStatus(c.vms[k], node))))
  {
    PassIsScheduling(c, k, draws);
    node := DecisionIsNew(c, c.vms[k], draws.node);
  }

  /** With no placement ahead, a node that is decided on is the one the VM is on. */
  lemma DecisionIsOld(c: Cluster, vm: Vm, draw: nat)
    requires vm.status.Some? && Placing(c, vm) == 0 && NeedsScheduling(c, vm) && CanPlace(c, vm)
    ensures vm.spec.node.Some? && vm.AssignedNode() == vm.spec.node
    ensures Decide(c, vm, draw).Some? && ScheduledStatus(vm, Decide(c, vm, draw).value) == vm.status.value
  {
    CanPlaceIsExact(c, vm, draw);
  }

  /** With no placement ahead the scheduling part comes to clearing the request, if it does not fail. */
  lemma SchedulingClears(c: Cluster, vm: Vm, draw: nat)
    requires vm.status.Some? && vm.key in c.vms && c.vms[vm.key] == vm && Placing(c, vm) == 0
    requires NeedsScheduling(c, vm) ==> CanPlace(c, vm)
    ensures SchedulingResponse(c, vm, draw) == ClearResponse(c, vm)
  {
    if NeedsScheduling(c, vm) {
      DecisionIsOld(c, vm, draw);
    }
  }

  lemma ClearingWrites(c: Cluster, k: Key)
    requires Versioned(c) && k in c.vms && RequestIsStale(c.vms[k])
    ensures OnlyWrote(c, ClearResponse(c, c.vms[k]).cluster, k, WithoutRequest(c.vms[k]))
  {
    assert WithoutRequest(c.vms[k]).MigrationRequestedFrom() == None;
  }

  /** A request that will be cleared is stale once no placement is ahead. */
  lemma ClearedIsStale(c: Cluster, vm: Vm)
    requires vm.status.Some? && Placing(c, vm) == 0 && Clearing(c, vm)
    ensures RequestIsStale(vm)
  {
  }

  lemma RequestCleared(c: Cluster, k: Key, draws: Draws)
    requires Progressing(c, k) && c.vms[k].status.Some? && NicsSettled(c, c.vms[k]) && c.vms[k].spec.uuid.Some?
    requires Placing(c, c.vms[k]) == 0 && Clearing(c, c.vms[k])
    ensures OnlyWrote(c, Pass(c, c.vms[k], draws).cluster, k, WithoutRequest(c.vms[k]))
  {
    PassIsScheduling(c, k, draws);
    SchedulingClears(c, c.vms[k], draws.node);
    ClearedIsStale(c, c.vms[k]);
    ClearingWrites(c, k);
  }

  lemma NothingLeft(c: Cluster, k: Key, draws: Draws)
    requires Progressing(c, k) && WorkLeft(c, k) == 0
    ensures Pass(c, c.vms[k], draws) == Response(c, if Stuck(c, c.vms[k]) then Some(ScheduleFailed) else None)
  {
    var vm := c.vms[k];
    PassIsScheduling(c, k, draws);
    CanPlaceIsExact(c, vm, draws.node);
    if NeedsScheduling(c, vm) && CanPlace(c, vm) {
      DecisionIsOld(c, vm, draws.node);
    }
  }

  /** The same object but for what the scheduler does not look at. */
  predicate SamePlace(vm: Vm, vm': Vm) {
    && vm'.key == vm.key && vm'.labels == vm.labels && vm'.spec.node == vm.spec.node
    && vm'.AssignedNode() == vm.AssignedNode() && vm'.Scheduled() == vm.Scheduled() && vm'.Pending() == vm.Pending()
    && vm'.MigrationRequestedFrom() == vm.MigrationRequestedFrom()
  }

  /** Rewriting one VM without moving or relabelling it changes neither its compliance nor its nodes. */
  lemma NodesUnchanged(c: Cluster, c': Cluster, k: Key, vm: Vm)
    requires Versioned(c) && k in c.vms && OnlyWrote(c, c', k, vm) && vm.key == k
    requires vm.labels == c.vms[k].labels && vm.AssignedNode() == c.vms[k].AssignedNode()
    ensures SharesNode(c', c'.vms[k]) == SharesNode(c, c.vms[k])
    ensures Group(vm).Some? ==> OccupiedNodes(c', Group(vm).value) == OccupiedNodes(c, Group(vm).value)
  {
    assert forall j :: j in c.vms ==>
        j in c'.vms && Group(c'.vms[j]) == Group(c.vms[j]) && c'.vms[j].AssignedNode() == c.vms[j].AssignedNode()
        && c'.vms[j].key == c.vms[j].key;
    if Group(vm).Some? {
      OccupiedSame(c, c', Group(vm).value);
    }
  }

  lemma SameCandidates(c: Cluster, c': Cluster, vm: Vm, vm': Vm)
    requires c'.nodes == c.nodes && SamePlace(vm, vm')
    requires Group(vm).Some? ==> OccupiedNodes(c', Group(vm).value) == OccupiedNodes(c, Group(vm).value)
    ensures HasCandidate(c', vm') == HasCandidate(c, vm) && HasBypass(c', vm') == HasBypass(c, vm)
    ensures CanPlace(c', vm') == CanPlace(c, vm)
  {
    assert forall n, bypass :: Eligible(c', vm', bypass, n) == Eligible(c, vm, bypass, n);
  }

  lemma PlacementUnchanged(c: Cluster, c': Cluster, k: Key, vm: Vm)
    requires Versioned(c) && k in c.vms && OnlyWrote(c, c', k, vm) && SamePlace(c.vms[k], vm)
    ensures NeedsScheduling(c', c'.vms[k]) == NeedsScheduling(c, c.vms[k])
    ensures Placing(c', c'.vms[k]) == Placing(c, c.vms[k]) && Clearing(c', c'.vms[k]) == Clearing(c, c.vms[k])
  {
    NodesUnchanged(c, c', k, vm);
    SameCandidates(c, c', c.vms[k], c'.vms[k]);
  }

  /** The pass wrote an object that still makes progress and has one unit of work less. */
  ghost predicate OneUnitDone(c: Cluster, c': Cluster, k: Key)
    requires Progressing(c, k)
  {
    && (exists vm :: OnlyWrote(c, c', k, vm))
    && Progressing(c', k)
    && WorkLeft(c', k) == WorkLeft(c, k) - 1
  }

  /** The NIC merge sees the same inputs. */
  lemma SameNics(c: Cluster, c': Cluster, k: Key)
    requires k in c.vms && k in c'.vms && AllTargets(c.vms[k].spec.networks)
    requires c'.networks == c.networks && c'.vms[k].key == c.vms[k].key
    requires c'.vms[k].spec.networks == c.vms[k].spec.networks && Networks(c'.vms[k]) == Networks(c.vms[k])
    ensures EnvOf(c', c'.vms[k], PLAIN_DRAWS) == EnvOf(c, c.vms[k], PLAIN_DRAWS)
    ensures NicsSettled(c', c'.vms[k]) == NicsSettled(c, c.vms[k])
  {
  }

  lemma InitializingIsOneUnit(c: Cluster, c': Cluster, k: Key)
    requires Progressing(c, k) && c.vms[k].status.None?
    requires OnlyWrote(c, c', k, c.vms[k].(status := Some(InitialStatus(c.vms[k]))))
    ensures OneUnitDone(c, c', k)
  {
    PlacementUnchanged(c, c', k, c.vms[k].(status := Some(InitialStatus(c.vms[k]))));
    SameNics(c, c', k);
    assert c'.vms[k].spec == c.vms[k].spec;
    assert WorkLeft(c', k) == WorkLeft(c, k) - 1;
  }

  lemma StatusStep(c: Cluster, k: Key, draws: Draws)
    requires Progressing(c, k) && c.vms[k].status.None?
    ensures OneUnitDone(c, Pass(c, c.vms[k], draws).cluster, k)
  {
    StatusInitialized(c, k, draws);
    InitializingIsOneUnit(c, Pass(c, c.vms[k], draws).cluster, k);
  }

  lemma MergedNicsAreSettled(c: Cluster, c': Cluster, k: Key, draws: Draws, networks: seq<Nic>)
    requires Progressing(c, k) && c.vms[k].status.Some?
    requires Fill(EnvOf(c, c.vms[k], draws), Networks(c.vms[k]), c.vms[k].spec.networks) == Ok(networks)
    requires OnlyWrote(c, c', k, c.vms[k].(status := Some(c.vms[k].status.value.(networks := networks))))
    ensures NicsSettled(c', c'.vms[k])
    ensures MergeableNics(EnvOf(c', c'.vms[k], PLAIN_DRAWS), c'.vms[k].spec.networks, Networks(c'.vms[k]))
  {
    var stored := c.vms[k];
    var env := EnvOf(c, stored, draws);
    FillLinesUp(env, Networks(stored), stored.spec.networks);
    MergeKeepsNoAlias(env, Networks(stored), stored.spec.networks, stored.spec.networks);
    FillIsFixedPoint(env, EnvOf(c, stored, PLAIN_DRAWS), Networks(stored), stored.spec.networks);
    assert EnvOf(c', c'.vms[k], PLAIN_DRAWS) == EnvOf(c, stored, PLAIN_DRAWS);
  }

  lemma SettlingNicsIsOneUnit(c: Cluster, c': Cluster, k: Key, networks: seq<Nic>)
    requires Progressing(c, k) && c.vms[k].status.Some? && !NicsSettled(c, c.vms[k])
    requires OnlyWrote(c, c', k, c.vms[k].(status := Some(c.vms[k].status.value.(networks := networks))))
    requires NicsSettled(c', c'.vms[k])
    requires MergeableNics(EnvOf(c', c'.vms[k], PLAIN_DRAWS), c'.vms[k].spec.networks, Networks(c'.vms[k]))
    ensures OneUnitDone(c, c', k)
  {
    PlacementUnchanged(c, c', k, c.vms[k].(status := Some(c.vms[k].status.value.(networks := networks))));
    assert c'.vms[k].status.Some? && c'.vms[k].spec == c.vms[k].spec;
    assert WorkLeft(c', k) == WorkLeft(c, k) - 1;
  }

  lemma NicsStep(c: Cluster, k: Key, draws: Draws)
    requires Progressing(c, k) && c.vms[k].status.Some? && !NicsSettled(c, c.vms[k])
    ensures OneUnitDone(c, Pass(c, c.vms[k], draws).cluster, k)
  {
    var networks := NicsMerged(c, k, draws);
    var c' := Pass(c, c.vms[k], draws).cluster;
    MergedNicsAreSettled(c, c', k, draws, networks);
    SettlingNicsIsOneUnit(c, c', k, networks);
  }

  lemma FillingUuidIsOneUnit(c: Cluster, c': Cluster, k: Key, uuid: string)
    requires Progressing(c, k) && c.vms[k].status.Some? && NicsSettled(c, c.vms[k]) && c.vms[k].spec.uuid.None?
    requires OnlyWrote(c, c', k, WithUuid(c.vms[k], uuid))
    ensures OneUnitDone(c, c', k)
  {
    PlacementUnchanged(c, c', k, WithUuid(c.vms[k], uuid));
    SameNics(c, c', k);
    assert WorkLeft(c', k) == WorkLeft(c, k) - 1;
  }

  lemma UuidStep(c: Cluster, k: Key, draws: Draws)
    requires Progressing(c, k) && c.vms[k].status.Some? && NicsSettled(c, c.vms[k]) && c.vms[k].spec.uuid.None?
    ensures OneUnitDone(c, Pass(c, c.vms[k], draws).cluster, k)
  {
    UuidFilled(c, k, draws);
    FillingUuidIsOneUnit(c, Pass(c, c.vms[k], draws).cluster, k, draws.uuid);
  }

  /** A node picked with anti-affinity is shared with no one of the group. */
  lemma ChosenNodeIsCompliant(c: Cluster, c': Cluster, k: Key, node: string)
    requires Versioned(c) && k in c.vms && c.vms[k].status.Some?
    requires exists n :: n in c.nodes && n.name == node && Eligible(c, c.vms[k], false, n)
    requires OnlyWrote(c, c', k, c.vms[k].(status := Some(ScheduledStatus(c.vms[k], node))))
    ensures !NeedsScheduling(c', c'.vms[k])
  {
    var vm := c'.vms[k];
    var n :| n in c.nodes && n.name == node && Eligible(c, c.vms[k], false, n);
    forall j | j in c.vms && j != k && Group(c.vms[j]).Some? && Group(c.vms[j]) == Group(vm)
      ensures c'.vms[j].AssignedNode() != Some(node)
    {
      assert c.vms[j].AssignedNode() == Some(node) ==> node in OccupiedNodes(c, Group(c.vms[k]).value);
    }
  }

  /** The write of a decision over the stored object. */
  ghost predicate Decided(c: Cluster, c': Cluster, k: Key, node: string) {
    && Progressing(c, k) && c.vms[k].status.Some?
    && OnlyWrote(c, c', k, c.vms[k].(status := Some(ScheduledStatus(c.vms[k], node))))
  }

  /** A node that only the bypass allows is shared with the group. */
  lemma BypassedNodeIsShared(c: Cluster, c': Cluster, k: Key, node: string)
    requires Decided(c, c', k, node) && !HasCandidate(c, c.vms[k]) && c.vms[k].AssignedNode() != Some(node)
    requires exists n :: n in c.nodes && n.name == node && Eligible(c, c.vms[k], true, n)
    ensures SharesNode(c', c'.vms[k])
  {
    var vm := c.vms[k];
    var n :| n in c.nodes && n.name == node && Eligible(c, vm, true, n);
    assert !Eligible(c, vm, false, n);
    var j :| j in c.vms && Group(c.vms[j]) == Group(vm) && c.vms[j].AssignedNode() == Some(node);
    assert j in c'.vms && c'.vms[j] == c.vms[j] && c.vms[j].key == j;
  }

  /** The move frees no node for it: the one it left is the one it was asked to leave. */
  lemma BypassFreesNothing(c: Cluster, c': Cluster, k: Key, node: string)
    requires Decided(c, c', k, node) && !HasCandidate(c, c.vms[k]) && MigrationRequested(c.vms[k])
    ensures !HasCandidate(c', c'.vms[k])
  {
    var vm := c.vms[k];
    forall n | n in c'.nodes
      ensures !Eligible(c', c'.vms[k], false, n)
    {
      assert !Eligible(c, vm, false, n);
      if Group(vm).Some? && n.name in OccupiedNodes(c, Group(vm).value) && vm.MigrationRequestedFrom() != Some(n.name) {
        var j :| j in c.vms && Group(c.vms[j]) == Group(vm) && c.vms[j].AssignedNode() == Some(n.name);
        assert j != k && c'.vms[j] == c.vms[j];
        assert n.name in OccupiedNodes(c', Group(vm).value);
      }
    }
  }

  lemma BypassIsEligible(c: Cluster, vm: Vm, node: string, draw: nat)
    requires vm.spec.node.None? && MigrationRequested(vm) && !HasCandidate(c, vm) && Decide(c, vm, draw) == Some(node)
    ensures exists n :: n in c.nodes && n.name == node && Eligible(c, vm, true, n)
    ensures vm.AssignedNode() != Some(node)
  {
    assert Choose(c, vm, false, draw).None?;
  }

  lemma SharedWithoutNode(c: Cluster, vm: Vm, before: Vm, node: string)
    requires vm.spec.node.None? && vm.AssignedNode() == Some(node)
             && vm.MigrationRequestedFrom() == before.MigrationRequestedFrom()
    requires MigrationRequested(before) && before.AssignedNode() != Some(node) && SharesNode(c, vm)
             && !HasCandidate(c, vm)
    ensures Stuck(c, vm) && RequestIsStale(vm)
  {
  }

  /**
    After a placement by the bypass the VM shares its node and no node is free for it, so every later pass
    fails before it would clear the request.
   */
  lemma BypassIsStuck(c: Cluster, c': Cluster, k: Key, node: string, draw: nat)
    requires Decided(c, c', k, node) && Decide(c, c.vms[k], draw) == Some(node)
    requires c.vms[k].spec.node.None? && MigrationRequested(c.vms[k]) && !HasCandidate(c, c.vms[k])
    ensures Stuck(c', c'.vms[k]) && RequestIsStale(c'.vms[k])
  {
    BypassIsEligible(c, c.vms[k], node, draw);
    BypassedNodeIsShared(c, c', k, node);
    BypassFreesNothing(c, c', k, node);
    SharedWithoutNode(c', c'.vms[k], c.vms[k], node);
  }

  /** What a decision leaves to do. */
  lemma DecidedLeaves(c: Cluster, c': Cluster, k: Key, node: string, draw: nat)
    requires Decided(c, c', k, node) && Decide(c, c.vms[k], draw) == Some(node) && Placing(c, c.vms[k]) > 0
    ensures Placing(c', c'.vms[k]) == Placing(c, c.vms[k]) - 1
    ensures Clearing(c', c'.vms[k]) == Clearing(c, c.vms[k])
  {
    var vm := c.vms[k];
    CanPlaceIsExact(c, vm, draw);
    assert c'.vms[k].MigrationRequestedFrom() == vm.MigrationRequestedFrom();
    if vm.spec.node.None? {
      if HasCandidate(c, vm) {
        ChosenNodeIsCompliant(c, c', k, node);
      } else {
        BypassIsStuck(c, c', k, node, draw);
      }
    }
  }

  lemma SchedulingKeepsTheRest(c: Cluster, c': Cluster, k: Key, node: string)
    requires Decided(c, c', k, node)
    ensures Versioned(c') && k in c'.vms && c'.vms[k].spec == c.vms[k].spec && c'.vms[k].status.Some?
    ensures Networks(c'.vms[k]) == Networks(c.vms[k])
  {
  }

  lemma SchedulingStep(c: Cluster, k: Key, draws: Draws)
    requires Progressing(c, k) && c.vms[k].status.Some? && NicsSettled(c, c.vms[k]) && c.vms[k].spec.uuid.Some?
    requires Placing(c, c.vms[k]) > 0
    ensures OneUnitDone(c, Pass(c, c.vms[k], draws).cluster, k)
  {
    var node := NodeWritten(c, k, draws);
    var c' := Pass(c, c.vms[k], draws).cluster;
    DecidedLeaves(c, c', k, node, draws.node);
    SchedulingKeepsTheRest(c, c', k, node);
    SameNics(c, c', k);
    assert WorkLeft(c', k) == WorkLeft(c, k) - 1;
  }

  lemma ClearingKeepsScheduling(c: Cluster, c': Cluster, k: Key)
    requires Versioned(c) && k in c.vms && c.vms[k].status.Some? && OnlyWrote(c, c', k, WithoutRequest(c.vms[k]))
    requires Placing(c, c.vms[k]) == 0 && Clearing(c, c.vms[k])
    ensures Versioned(c') && k in c'.vms && c'.vms[k].MigrationRequestedFrom().None? && Placing(c', c'.vms[k]) == 0
  {
    NodesUnchanged(c, c', k, WithoutRequest(c.vms[k]));
    if NeedsScheduling(c, c.vms[k]) {
      DecisionIsOld(c, c.vms[k], 0);
    }
  }

  lemma ClearingIsOneUnit(c: Cluster, c': Cluster, k: Key)
    requires Progressing(c, k) && c.vms[k].status.Some? && NicsSettled(c, c.vms[k]) && c.vms[k].spec.uuid.Some?
    requires Placing(c, c.vms[k]) == 0 && Clearing(c, c.vms[k])
    requires OnlyWrote(c, c', k, WithoutRequest(c.vms[k]))
    ensures OneUnitDone(c, c', k)
  {
    ClearingKeepsScheduling(c, c', k);
    SameNics(c, c', k);
    assert WorkLeft(c', k) == WorkLeft(c, k) - 1;
  }

  lemma RequestStep(c: Cluster, k: Key, draws: Draws)
    requires Progressing(c, k) && c.vms[k].status.Some? && NicsSettled(c, c.vms[k]) && c.vms[k].spec.uuid.Some?
    requires Placing(c, c.vms[k]) == 0 && Clearing(c, c.vms[k])
    ensures OneUnitDone(c, Pass(c, c.vms[k], draws).cluster, k)
  {
    RequestCleared(c, k, draws);
    ClearingIsOneUnit(c, Pass(c, c.vms[k], draws).cluster, k);
  }

  /**
    While work is left a pass writes exactly one object version and does one unit of it; with none left a
    pass leaves the whole store alone, and fails exactly if the VM needs a node and there is none for it.
   */
  lemma EachPassDoesOneUnit(c: Cluster, k: Key, draws: Draws)
    requires Progressing(c, k)
    ensures WorkLeft(c, k) > 0 ==> OneUnitDone(c, Pass(c, c.vms[k], draws).cluster, k)
    ensures WorkLeft(c, k) == 0 ==>
              Pass(c, c.vms[k], draws) == Response(c, if Stuck(c, c.vms[k]) then Some(ScheduleFailed) else None)
  {
    var vm := c.vms[k];
    if vm.status.None? {
      StatusStep(c, k, draws);
    } else if !NicsSettled(c, vm) {
      NicsStep(c, k, draws);
    } else if vm.spec.uuid.None? {
      UuidStep(c, k, draws);
    } else if Placing(c, vm) > 0 {
      SchedulingStep(c, k, draws);
    } else if Clearing(c, vm) {
      RequestStep(c, k, draws);
    } else {
      NothingLeft(c, k, draws);
    }
  }

  /** A pass over the stored object, the i-th of a series. */
  ghost function PassOver(k: Key, draws: nat -> Draws): (nat, Cluster) -> Cluster {
    (i: nat, c: Cluster) => if Progressing(c, k) then Pass(c, c.vms[k], draws(i)).cluster else c
  }

  ghost function Work(k: Key): Cluster -> nat {
    c => if Progressing(c, k) then WorkLeft(c, k) else 0
  }

  /** All objects other than the one at `k` are the same in both stores. */
  ghost predicate SameElsewhere(c: Cluster, c': Cluster, k: Key) {
    && c.vms.Keys == c'.vms.Keys && c.nodes == c'.nodes && c.networks == c'.networks
    && forall j :: j in c.vms && j != k ==> c'.vms[j] == c.vms[j]
  }

  lemma PassOverStep(c0: Cluster, c: Cluster, k: Key, draws: nat -> Draws, i: nat)
    requires Progressing(c, k) && SameElsewhere(c0, c, k)
    ensures var c' := PassOver(k, draws)(i, c);
            && Progressing(c', k) && SameElsewhere(c0, c', k)
            && (Work(k)(c) == 0 ==> c' == c)
            && (Work(k)(c) > 0 ==> Work(k)(c') == Work(k)(c) - 1)
  {
    EachPassDoesOneUnit(c, k, draws(i));
  }

  /**
    Without interference a VM settles after exactly as many passes as it has work left, hence
    after at most five: each of those passes writes, no later one does, and no pass touches any
    other object. From then on passes succeed, unless the VM is stuck.
   */
  lemma PassesSettle(c: Cluster, k: Key, draws: nat -> Draws, n: nat)
    requires Progressing(c, k)
    ensures WorkLeft(c, k) <= 5
    ensures n < WorkLeft(c, k) ==> Iterate(PassOver(k, draws), c, n + 1) != Iterate(PassOver(k, draws), c, n)
    ensures n >= WorkLeft(c, k) ==>
              Iterate(PassOver(k, draws), c, n) == Iterate(PassOver(k, draws), c, WorkLeft(c, k))
    ensures Progressing(Iterate(PassOver(k, draws), c, n), k)
    ensures n >= WorkLeft(c, k) ==> WorkLeft(Iterate(PassOver(k, draws), c, n), k) == 0
    ensures SameElsewhere(c, Iterate(PassOver(k, draws), c, n), k)
  {
    var f, inv := PassOver(k, draws), x => Progressing(x, k) && SameElsewhere(c, x, k);
    forall i: nat, x | inv(x)
      ensures inv(f(i, x)) && (Work(k)(x) == 0 ==> f(i, x) == x)
      ensures Work(k)(x) > 0 ==> Work(k)(f(i, x)) == Work(k)(x) - 1
    {
      PassOverStep(c, x, k, draws, i);
    }
    IterateSettles(f, inv, Work(k), c, n);
  }
}
