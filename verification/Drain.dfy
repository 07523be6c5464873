/** Draining nodes in maintenance: progress of every placement and the end of the drain. */
module Drain {
  import opened Prelude
  import opened Kube
  import opened Scheduling
  import opened Hosts
  import opened Protocol

  ghost predicate UniqueNodeNames(nodes: seq<Node>) {
    forall m, n :: m in nodes && n in nodes && m.name == n.name ==> m == n
  }

  predicate MaintenanceNode(nodes: seq<Node>, name: string) {
    exists n :: n in nodes && n.name == name && Marked(n, "cluster-virt.acl.fi/maintenance")
  }

  /** The VMs assigned to nodes in maintenance. */
  function Undrained(c: Cluster): set<Key> {
    set k | k in c.vms && c.vms[k].status.Some? && c.vms[k].status.value.node.Some?
            && MaintenanceNode(c.nodes, c.vms[k].status.value.node.value)
  }

  /** The nodes are as the scheduler listed them, so the maintenance set is fixed. */
  ghost predicate NodesAsSeen(s: State) {
    && UniqueNodeNames(s.w.cluster.nodes)
    && (s.section.Some? && s.section.value.choice.Some? ==> s.section.value.seen == s.w.cluster.nodes)
  }

  /** A scheduler write that takes effect for a VM asked to leave a node in maintenance. */
  ghost predicate DrainsOne(s: State, e: Step) {
    && Enabled(s, e) && e == WriteNode && Apply(s, e).w.cluster != s.w.cluster
    && Copy(s).spec.node.None?
    && exists node :: AskedToLeave(Copy(s), node) && MaintenanceNode(s.w.cluster.nodes, node)
  }

  lemma HostNodesStay(w: World, vm: Vm, host: string, ok: bool)
    ensures ReconcileOutcome(w, vm, host, ok).world.cluster.nodes == w.cluster.nodes
  {
  }

  lemma NodesStay(s: State, e: Step)
    requires Enabled(s, e) && !e.NodesChange?
    ensures Apply(s, e).w.cluster.nodes == s.w.cluster.nodes
  {
    if e.HostReconciles? {
      HostNodesStay(s.w, s.w.cluster.vms[e.k], e.host, e.ok);
    }
  }

  /** The scheduler's write takes its VM to a node out of maintenance. */
  lemma WriteDrains(s: State)
    requires Inv(s) && Enabled(s, WriteNode) && NodesAsSeen(s)
    ensures Undrained(Apply(s, WriteNode).w.cluster) <= Undrained(s.w.cluster)
    ensures Apply(s, WriteNode).w.cluster != s.w.cluster ==>
              Undrained(Apply(s, WriteNode).w.cluster) == Undrained(s.w.cluster) - {Copy(s).key}
  {
    var c, c' := s.w.cluster, Apply(s, WriteNode).w.cluster;
    if c' != c {
      forall n: Node
        ensures InMaintenance(n) <==> Marked(n, "cluster-virt.acl.fi/maintenance")
      {
        AnnotationsClose(n);
      }
      assert !MaintenanceNode(c.nodes, s.section.value.choice.value);
      assert forall j :: j in c.vms && j != Copy(s).key ==> c'.vms[j] == c.vms[j];
    }
  }

  /** The VM of a drain placement is on a node in maintenance. */
  lemma DrainedWasThere(s: State, e: Step)
    requires Inv(s) && DrainsOne(s, e)
    ensures Copy(s).key in Undrained(s.w.cluster)
  {
  }

  /** Writes that place nothing move no VM onto a node in maintenance. */
  lemma OthersDrainNothing(c: Cluster, c': Cluster)
    requires PlacesNothing(c, c') && c'.nodes == c.nodes
    ensures Undrained(c') <= Undrained(c)
  {
  }

  /**
    While the nodes stay as they are no step puts a VM on a node in maintenance, and a drain
    placement takes exactly its VM off one.
   */
  lemma PlacementsDrain(s: State, e: Step)
    requires Inv(s) && Enabled(s, e) && !e.NodesChange? && NodesAsSeen(s)
    ensures NodesAsSeen(Apply(s, e))
    ensures Undrained(Apply(s, e).w.cluster) <= Undrained(s.w.cluster)
    ensures DrainsOne(s, e) ==>
              && Copy(s).key in Undrained(s.w.cluster)
              && Undrained(Apply(s, e).w.cluster) == Undrained(s.w.cluster) - {Copy(s).key}
  {
    NodesStay(s, e);
    if e != WriteNode {
      OnlySchedulerPlaces(s, e);
      OthersDrainNothing(s.w.cluster, Apply(s, e).w.cluster);
    } else {
      WriteDrains(s);
      if DrainsOne(s, e) {
        DrainedWasThere(s, e);
      }
    }
  }

  /** The drain placements of a run. */
  ghost function DrainCount(s: State, steps: seq<Step>): nat
    requires Run(s, steps)
    decreases |steps|
  {
    if steps == [] then 0
    else (if DrainsOne(s, steps[0]) then 1 else 0) + DrainCount(Apply(s, steps[0]), steps[1..])
  }

  /**
    The drain ends: over any run that leaves the nodes alone, each drain placement strictly
    shrinks the set of VMs on nodes in maintenance and nothing grows it, so there are at most as
    many of them as VMs were there.
   */
  lemma {:induction false} DrainEnds(s: State, steps: seq<Step>)
    requires Inv(s) && NodesAsSeen(s) && Run(s, steps)
    requires forall i :: 0 <= i < |steps| ==> !steps[i].NodesChange?
    ensures Undrained(After(s, steps).w.cluster) <= Undrained(s.w.cluster)
    ensures |Undrained(After(s, steps).w.cluster)| + DrainCount(s, steps) <= |Undrained(s.w.cluster)|
    decreases |steps|
  {
    if steps != [] {
      var s' := Apply(s, steps[0]);
      PlacementsDrain(s, steps[0]);
      InvKept(s, steps[0]);
      DrainEnds(s', steps[1..]);
      SubsetSize(Undrained(s'.w.cluster), Undrained(s.w.cluster));
    }
  }
}
