/**
  What one pass of the VM controller stores, by the fields of the object, the nodes and the anti-affinity group:
  the status a new object gets, its UUID, the node it is placed on, and the request that is taken off.
 */
module PassLaws {
  import opened Prelude
  import opened Kube
  import opened Nics
  import opened Scheduling
  import V = VmController

  /** The pass stored `vm` under a new version, and changed nothing else of the store. */
  ghost predicate Stores(c: Cluster, c': Cluster, k: Key, vm: Vm) {
    && k in c.vms && k in c'.vms && c'.vms[k] == vm.(version := c'.vms[k].version)
    && c.rev < c'.vms[k].version && c'.vms.Keys == c.vms.Keys && c'.nodes == c.nodes && c'.networks == c.networks
    && forall j :: j in c.vms && j != k ==> c'.vms[j] == c.vms[j]
  }

  /** An object without a status gets one that says nothing but its domain name, and the pass ends there. */
  lemma FirstPassInitializes(c: Cluster, k: Key, draws: V.Draws)
    requires Versioned(c) && k in c.vms && c.vms[k].status.None? && AllTargets(c.vms[k].spec.networks)
    ensures var r := V.Pass(c, c.vms[k], draws);
            && r.error == Some(NoStatus)
            && Stores(c, r.cluster, k,
                      c.vms[k].(status := Some(Status(
                        scheduled := false, running := false, migrationPending := false, node := None,
                        domainName := k.namespace + "-" + k.name, ipAddresses := None, ipAddressesString := None,
                        networks := []))))
  {
  }

  /** The merge of the NICs has nothing to store. */
  predicate NicsRest(c: Cluster, vm: Vm, draws: V.Draws)
    requires AllTargets(vm.spec.networks)
  {
    && vm.status.Some?
    && Fill(V.EnvOf(c, vm, draws), vm.status.value.networks, vm.spec.networks) == Ok(vm.status.value.networks)
  }

  /** An object without a UUID gets the one that was drawn, and nothing else in this pass. */
  lemma UuidPassFills(c: Cluster, k: Key, draws: V.Draws)
    requires Versioned(c) && k in c.vms && AllTargets(c.vms[k].spec.networks) && NicsRest(c, c.vms[k], draws)
    requires c.vms[k].spec.uuid.None?
    ensures Stores(c, V.Pass(c, c.vms[k], draws).cluster, k,
                   c.vms[k].(spec := c.vms[k].spec.(uuid := Some(draws.uuid))))
  {
    var copy := V.WithUuid(c.vms[k], draws.uuid);
    assert V.FillNicsResponse(c, c.vms[k], draws) == Response(c, None);
    V.StaleCopyWritesNothing(PutObject(c, copy).cluster, copy, draws.node);
  }

  // The scheduler

  /** The VM is asked to leave the node it is on. */
  predicate Leaving(vm: Vm) {
    vm.status.Some? && vm.status.value.node.Some? && AskedToLeave(vm, vm.status.value.node.value)
  }

  /** The scheduler has to find a node. */
  predicate Needs(c: Cluster, vm: Vm)
    requires vm.status.Some?
  {
    !vm.status.value.scheduled || Leaving(vm) || SharesWithGroup(c, vm)
  }

  /**
    A node that the scheduler may decide on: the pinned one if it is up, or an open one; and if none is open, for a
    VM that is asked to leave its node, one that is open but for the group.
   */
  ghost predicate MayGet(c: Cluster, vm: Vm, name: string) {
    if vm.spec.node.Some? then
      && vm.spec.node == Some(name)
      && exists n :: n in c.nodes && n.name == name && !Marked(n, "cluster-virt.acl.fi/maintenance")
    else if exists n :: n in c.nodes && Open(c, vm, false, n) then
      exists n :: n in c.nodes && n.name == name && Open(c, vm, false, n)
    else
      Leaving(vm) && exists n :: n in c.nodes && n.name == name && Open(c, vm, true, n)
  }

  lemma LeavingIsRequested(vm: Vm)
    ensures Leaving(vm) <==> MigrationRequested(vm)
  {
  }

  lemma NeedsIsExact(c: Cluster, vm: Vm)
    requires vm.status.Some?
    ensures Needs(c, vm) <==> V.NeedsScheduling(c, vm)
  {
    LeavingIsRequested(vm);
    ComplianceIsExact(c, vm);
  }

  /** A pinned VM gets the same for every draw. */
  lemma PinnedDecision(c: Cluster, vm: Vm, draw: nat)
    requires vm.spec.node.Some?
    ensures Decide(c, vm, draw).None? <==> forall name :: !MayGet(c, vm, name)
    ensures forall name :: Decide(c, vm, draw) == Some(name) ==> MayGet(c, vm, name)
  {
    PinnedChoiceIsExact(c, vm, false, draw);
    PinnedChoiceIsExact(c, vm, true, draw);
    assert MayGet(c, vm, vm.spec.node.value) <==>
        exists n :: n in c.nodes && n.name == vm.spec.node.value && !Marked(n, "cluster-virt.acl.fi/maintenance");
  }

  lemma OpenDecision(c: Cluster, vm: Vm, ignoreAffinity: bool, draw: nat)
    requires vm.spec.node.None?
    ensures Choose(c, vm, ignoreAffinity, draw).None? <==> forall n :: n in c.nodes ==> !Open(c, vm, ignoreAffinity, n)
    ensures var r := Choose(c, vm, ignoreAffinity, draw);
            r.Some? ==> exists n :: n in c.nodes && n.name == r.value && Open(c, vm, ignoreAffinity, n)
  {
    forall n: Node
      ensures Eligible(c, vm, ignoreAffinity, n) <==> Open(c, vm, ignoreAffinity, n)
    {
      EligibleIsOpen(c, vm, ignoreAffinity, n);
    }
    var r := Choose(c, vm, ignoreAffinity, draw);
    if r.Some? {
      var n :| n in c.nodes && n.name == r.value && Eligible(c, vm, ignoreAffinity, n);
      assert Open(c, vm, ignoreAffinity, n);
    }
  }

  /** The scheduler decides on a node it may decide on, and on none only if there is none. */
  lemma DecisionIsAllowed(c: Cluster, vm: Vm, draw: nat)
    ensures Decide(c, vm, draw).None? <==> forall name :: !MayGet(c, vm, name)
    ensures forall name :: Decide(c, vm, draw) == Some(name) ==> MayGet(c, vm, name)
  {
    if vm.spec.node.Some? {
      PinnedDecision(c, vm, draw);
    } else {
      LeavingIsRequested(vm);
      OpenDecision(c, vm, false, draw);
      OpenDecision(c, vm, true, draw);
      forall n | n in c.nodes && (Open(c, vm, false, n) || (Leaving(vm) && Open(c, vm, true, n)))
        ensures exists name :: MayGet(c, vm, name)
      {
        assert MayGet(c, vm, n.name) || exists m :: m in c.nodes && Open(c, vm, false, m) && MayGet(c, vm, m.name);
      }
    }
  }

  /** Each node it may decide on is what some draw gives. */
  lemma AllowedIsDrawn(c: Cluster, vm: Vm, name: string)
    requires MayGet(c, vm, name)
    ensures exists draw: nat :: Decide(c, vm, draw) == Some(name)
  {
    if vm.spec.node.Some? {
      PinnedDecision(c, vm, 0);
    } else {
      LeavingIsRequested(vm);
      OpenDecision(c, vm, false, 0);
      var closed := Choose(c, vm, false, 0).None?;
      ChoiceIsExact(c, vm, closed, name);
      var draw: nat :| Choose(c, vm, closed, draw) == Some(name);
      OpenDecision(c, vm, false, draw);
      assert Decide(c, vm, draw) == Some(name);
    }
  }

  /** The object with the decision in its status. */
  function Placed(vm: Vm, name: string): Vm
    requires vm.status.Some?
  {
    vm.(status := Some(vm.status.value.(
          node := Some(name), scheduled := true,
          migrationPending := vm.status.value.migrationPending || Leaving(vm))))
  }

  /** The annotation names another node than the VM is on. */
  predicate RequestIsOver(vm: Vm) {
    && "cluster-virt.acl.fi/migration-required" in vm.annotations
    && !Leaving(vm)
  }

  function Cleared(vm: Vm): Vm {
    vm.(annotations := vm.annotations - {"cluster-virt.acl.fi/migration-required"})
  }

  lemma ClearingIs(c: Cluster, k: Key)
    requires Versioned(c) && k in c.vms
    ensures var r := V.ClearResponse(c, c.vms[k]);
            && r.error == None
            && if RequestIsOver(c.vms[k]) then Stores(c, r.cluster, k, Cleared(c.vms[k])) else r == Response(c, None)
  {
    LeavingIsRequested(c.vms[k]);
    RequestIsAnnotation(c.vms[k], "");
    if RequestIsOver(c.vms[k]) {
      var vm := c.vms[k];
      assert WithoutRequest(vm).annotations == Cleared(vm).annotations;
      assert WithoutRequest(vm) != vm;
    }
  }

  /** The write of a placement; the clearing after it meets the version that the write took. */
  lemma PlacementStores(c: Cluster, k: Key, draw: nat, name: string)
    requires Versioned(c) && k in c.vms && c.vms[k].status.Some?
    requires V.NeedsScheduling(c, c.vms[k]) && Decide(c, c.vms[k], draw) == Some(name)
    ensures var r, vm := V.SchedulingResponse(c, c.vms[k], draw), c.vms[k];
            if Placed(vm, name) != vm then
              && Stores(c, r.cluster, k, Placed(vm, name))
              && r.error == if RequestIsOver(vm) then Some(Conflict) else None
            else r == V.ClearResponse(c, vm)
  {
    var vm := c.vms[k];
    LeavingIsRequested(vm);
    assert V.ScheduledStatus(vm, name) == Placed(vm, name).status.value;
  }

  /** Nothing but a request that is over is taken off. */
  ghost predicate Clears(c: Cluster, k: Key, r: Response)
    requires k in c.vms
  {
    if RequestIsOver(c.vms[k]) then r.error == None && Stores(c, r.cluster, k, Cleared(c.vms[k]))
    else r == Response(c, None)
  }

  /**
    The VM is placed on the node, after which its copy is too old to clear a request that is over; a status that says
    so already leaves the request to be cleared.
   */
  ghost predicate Places(c: Cluster, k: Key, name: string, r: Response)
    requires k in c.vms && c.vms[k].status.Some?
  {
    && MayGet(c, c.vms[k], name)
    && if Placed(c.vms[k], name) != c.vms[k] then
         && Stores(c, r.cluster, k, Placed(c.vms[k], name))
         && r.error == if RequestIsOver(c.vms[k]) then Some(Conflict) else None
       else Clears(c, k, r)
  }

  /** What the scheduler part of a pass does: it fails without a node, or makes at most one write. */
  ghost predicate Schedules(c: Cluster, k: Key, r: Response)
    requires k in c.vms && c.vms[k].status.Some?
  {
    if !Needs(c, c.vms[k]) then Clears(c, k, r)
    else if forall name :: !MayGet(c, c.vms[k], name) then r == Response(c, Some(ScheduleFailed))
    else exists name :: Places(c, k, name, r)
  }

  lemma SchedulingStores(c: Cluster, k: Key, draw: nat)
    requires Versioned(c) && k in c.vms && c.vms[k].status.Some?
    ensures Schedules(c, k, V.SchedulingResponse(c, c.vms[k], draw))
  {
    var vm := c.vms[k];
    NeedsIsExact(c, vm);
    DecisionIsAllowed(c, vm, draw);
    ClearingIs(c, k);
    if Needs(c, vm) && Decide(c, vm, draw).Some? {
      PlacementStores(c, k, draw, Decide(c, vm, draw).value);
      assert Places(c, k, Decide(c, vm, draw).value, V.SchedulingResponse(c, vm, draw));
    }
  }

  lemma NicPassStores(c: Cluster, k: Key, draws: V.Draws, list: seq<Nic>)
    requires Versioned(c) && k in c.vms && c.vms[k].status.Some? && AllTargets(c.vms[k].spec.networks)
    requires Fill(V.EnvOf(c, c.vms[k], draws), c.vms[k].status.value.networks, c.vms[k].spec.networks) == Ok(list)
    requires list != c.vms[k].status.value.networks
    ensures V.Pass(c, c.vms[k], draws).error == Some(Conflict)
    ensures Stores(c, V.Pass(c, c.vms[k], draws).cluster, k,
                   c.vms[k].(status := Some(c.vms[k].status.value.(networks := list))))
  {
  }

  /**
    Main result: a pass over the stored object, whatever it draws, makes at most one write, and this is it: the first
    of the status, the NICs, the UUID, the placement and the clearing of the request that the object still needs.
   */
  lemma PassIsExact(c: Cluster, k: Key, draws: V.Draws)
    requires Versioned(c) && k in c.vms && AllTargets(c.vms[k].spec.networks)
    ensures var r, vm := V.Pass(c, c.vms[k], draws), c.vms[k];
            if vm.status.None? then
              && r.error == Some(NoStatus)
              && Stores(c, r.cluster, k, vm.(status := Some(Status(
                          scheduled := false, running := false, migrationPending := false, node := None,
                          domainName := k.namespace + "-" + k.name, ipAddresses := None, ipAddressesString := None,
                          networks := []))))
            else
              match Fill(V.EnvOf(c, vm, draws), vm.status.value.networks, vm.spec.networks)
              case Err(e) => r == Response(c, Some(e))
              case Ok(list) =>
                if list != vm.status.value.networks then
                  && r.error == Some(Conflict)
                  && Stores(c, r.cluster, k, vm.(status := Some(vm.status.value.(networks := list))))
                else if vm.spec.uuid.None? then
                  Stores(c, r.cluster, k, vm.(spec := vm.spec.(uuid := Some(draws.uuid))))
                else Schedules(c, k, r)
  {
    var vm := c.vms[k];
    if vm.status.None? {
      FirstPassInitializes(c, k, draws);
    } else {
      match Fill(V.EnvOf(c, vm, draws), vm.status.value.networks, vm.spec.networks)
      case Err(_) =>
      case Ok(list) =>
        if list != vm.status.value.networks {
          NicPassStores(c, k, draws, list);
        } else if vm.spec.uuid.None? {
          UuidPassFills(c, k, draws);
        } else {
          SchedulingStores(c, k, draws.node);
        }
    }
  }
}
