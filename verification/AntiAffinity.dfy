/**
  Anti-affinity groups: conflicts never multiply while placements respect affinity, and repairing
  a group with enough nodes ends with one member per node.
 */
module AntiAffinity {
  import opened Prelude
  import opened Kube
  import opened Scheduling
  import opened Protocol
  import V = VmController

  /** Two VMs of one group are assigned to the same node. */
  predicate InConflict(c: Cluster, a: Key, b: Key) {
    && a in c.vms && b in c.vms && a != b
    && Group(c.vms[a]).Some? && Group(c.vms[a]) == Group(c.vms[b])
    && c.vms[a].AssignedNode().Some? && c.vms[a].AssignedNode() == c.vms[b].AssignedNode()
  }

  function Conflicts(c: Cluster): set<(Key, Key)> {
    set a, b | a in c.vms && b in c.vms && InConflict(c, a, b) :: (a, b)
  }

  /** Every scheduler write places a VM without a node in its spec and kept the affinity filter. */
  predicate RespectsAffinity(s: State, e: Step) {
    e == WriteNode && Enabled(s, e) ==> !s.section.value.bypassed && Copy(s).spec.node.None?
  }

  lemma PlacingNothingAddsNoConflict(c: Cluster, c': Cluster)
    requires PlacesNothing(c, c')
    ensures Conflicts(c') <= Conflicts(c)
  {
    forall a, b | InConflict(c', a, b)
      ensures InConflict(c, a, b)
    {
    }
  }

  /**
    In every interleaving, a step that respects affinity adds no conflicting pair, and a VM the
    scheduler has just placed is in none.
   */
  lemma ConflictsNeverGrow(s: State, e: Step)
    requires Inv(s) && Enabled(s, e) && RespectsAffinity(s, e)
    ensures Conflicts(Apply(s, e).w.cluster) <= Conflicts(s.w.cluster)
    ensures |Conflicts(Apply(s, e).w.cluster)| <= |Conflicts(s.w.cluster)|
    ensures e == WriteNode && Apply(s, e).w.cluster != s.w.cluster ==>
              forall b :: !InConflict(Apply(s, e).w.cluster, Copy(s).key, b)
                          && !InConflict(Apply(s, e).w.cluster, b, Copy(s).key)
  {
    var c, c' := s.w.cluster, Apply(s, e).w.cluster;
    if e != WriteNode {
      OnlySchedulerPlaces(s, e);
      PlacingNothingAddsNoConflict(c, c');
    } else if c' != c {
      var k, node := Copy(s).key, s.section.value.choice.value;
      forall b | b in c.vms && b != k && Group(Copy(s)).Some? && Group(c.vms[b]) == Group(Copy(s))
        ensures c.vms[b].AssignedNode() != Some(node)
      {
        assert c.vms[b].AssignedNode() == Some(node) ==> node in OccupiedNodes(c, Group(Copy(s)).value);
      }
      forall a, b | InConflict(c', a, b)
        ensures InConflict(c, a, b) && a != k && b != k
      {
      }
    }
    SubsetSize(Conflicts(c'), Conflicts(c));
  }

  ghost predicate RunRespectsAffinity(s: State, steps: seq<Step>)
    requires Run(s, steps)
    decreases |steps|
  {
    steps == [] || (RespectsAffinity(s, steps[0]) && RunRespectsAffinity(Apply(s, steps[0]), steps[1..]))
  }

  /** Over whole runs the number of conflicting pairs never increases. */
  lemma {:induction false} ConflictsAlongRuns(s: State, steps: seq<Step>)
    requires Inv(s) && Run(s, steps) && RunRespectsAffinity(s, steps)
    ensures |Conflicts(After(s, steps).w.cluster)| <= |Conflicts(s.w.cluster)|
    decreases |steps|
  {
    if steps != [] {
      ConflictsNeverGrow(s, steps[0]);
      InvKept(s, steps[0]);
      ConflictsAlongRuns(Apply(s, steps[0]), steps[1..]);
    }
  }

  function Members(c: Cluster, group: string): set<Key> {
    set k | k in c.vms && Group(c.vms[k]) == Some(group)
  }

  /** Nodes neither in maintenance nor closed to scheduling. */
  function OpenNodes(c: Cluster): set<string> {
    set n | n in c.nodes && !Marked(n, "cluster-virt.acl.fi/maintenance")
            && !Marked(n, "cluster-virt.acl.fi/no-schedule")
      :: n.name
  }

  /** A group of initialized VMs without node pins or migration requests, and nodes enough for it. */
  ghost predicate Repairable(c: Cluster, group: string) {
    && Versioned(c) && ScheduledIffAssigned(c)
    && |Members(c, group)| <= |OpenNodes(c)|
    && (forall k :: k in Members(c, group) ==>
          c.vms[k].status.Some? && c.vms[k].spec.node.None? && c.vms[k].MigrationRequestedFrom().None?)
    && (forall j, k :: j in Members(c, group) && k in Members(c, group) && j != k ==> Prefixed(j) != Prefixed(k))
  }

  /** The node of a member, for members that have one. */
  function NodeName(c: Cluster): Key -> string {
    k => if k in c.vms && c.vms[k].AssignedNode().Some? then c.vms[k].AssignedNode().value else ""
  }

  /** A member that needs scheduling occupies no node of its own. */
  lemma MisplacedLeavesRoom(c: Cluster, group: string, k: Key)
    requires Repairable(c, group) && k in Members(c, group) && V.NeedsScheduling(c, c.vms[k])
    ensures |OccupiedNodes(c, group)| < |Members(c, group)|
  {
    forall name | name in OccupiedNodes(c, group)
      ensures exists j :: j in Members(c, group) - {k} && NodeName(c)(j) == name
    {
      var j :| j in c.vms && Group(c.vms[j]) == Some(group) && c.vms[j].AssignedNode() == Some(name);
      if j == k {
        assert SharesNode(c, c.vms[k]);
        var i :| i in c.vms && Group(c.vms[i]) == Group(c.vms[k]) && Prefixed(c.vms[i].key) != Prefixed(k)
                 && c.vms[i].AssignedNode() == c.vms[k].AssignedNode();
        assert i in Members(c, group) - {k} && NodeName(c)(i) == name;
      } else {
        assert j in Members(c, group) - {k} && NodeName(c)(j) == name;
      }
    }
    ImageSize(Members(c, group) - {k}, NodeName(c), OccupiedNodes(c, group));
  }

  /** What the scheduler writes for the stored object at `k`. */
  function Repair(c: Cluster, k: Key, draw: nat): Cluster
    requires k in c.vms && c.vms[k].status.Some? && Decide(c, c.vms[k], draw).Some?
  {
    PutStatus(c, c.vms[k], V.ScheduledStatus(c.vms[k], Decide(c, c.vms[k], draw).value)).cluster
  }

  /** The repaired object is on the decided node, and nothing else moved. */
  ghost predicate Moved(c: Cluster, c': Cluster, k: Key, node: string) {
    && c'.vms.Keys == c.vms.Keys && k in c.vms && c'.nodes == c.nodes
    && c'.vms[k].labels == c.vms[k].labels && c'.vms[k].spec == c.vms[k].spec
    && c'.vms[k].annotations == c.vms[k].annotations
    && c'.vms[k].AssignedNode() == Some(node) && c'.vms[k].Scheduled()
    && forall j :: j in c.vms && j != k ==> c'.vms[j] == c.vms[j]
  }

  lemma RepairMoves(c: Cluster, k: Key, draw: nat)
    requires Versioned(c) && k in c.vms && c.vms[k].status.Some? && Decide(c, c.vms[k], draw).Some?
    ensures Versioned(Repair(c, k, draw))
    ensures Moved(c, Repair(c, k, draw), k, Decide(c, c.vms[k], draw).value)
  {
    PutStatusKeepsVersioned(c, c.vms[k], V.ScheduledStatus(c.vms[k], Decide(c, c.vms[k], draw).value));
  }

  /** With enough nodes there is always one for a misplaced member, and it is a new one. */
  lemma RepairFindsFreeNode(c: Cluster, group: string, k: Key, draw: nat)
    requires Repairable(c, group) && k in Members(c, group) && V.NeedsScheduling(c, c.vms[k])
    ensures Decide(c, c.vms[k], draw).Some?
    ensures Decide(c, c.vms[k], draw).value !in OccupiedNodes(c, group)
  {
    MisplacedLeavesRoom(c, group, k);
    var free := Pigeonhole(OccupiedNodes(c, group), OpenNodes(c));
    var n :| n in c.nodes && !Marked(n, "cluster-virt.acl.fi/maintenance")
             && !Marked(n, "cluster-virt.acl.fi/no-schedule") && n.name == free;
    AnnotationsClose(n);
    assert Eligible(c, c.vms[k], false, n);
  }

  lemma MoveOccupiesOneMore(c: Cluster, c': Cluster, group: string, k: Key, node: string)
    requires Versioned(c) && Moved(c, c', k, node) && k in Members(c, group)
    requires c.vms[k].AssignedNode().Some? ==> SharesNode(c, c.vms[k])
    ensures OccupiedNodes(c', group) == OccupiedNodes(c, group) + {node}
  {
    assert Group(c'.vms[k]) == Some(group);
    forall name | name in OccupiedNodes(c, group)
      ensures name in OccupiedNodes(c', group)
    {
      var j :| j in c.vms && Group(c.vms[j]) == Some(group) && c.vms[j].AssignedNode() == Some(name);
      if j == k {
        var i :| i in c.vms && Group(c.vms[i]) == Group(c.vms[k]) && Prefixed(c.vms[i].key) != Prefixed(k)
                 && c.vms[i].AssignedNode() == c.vms[k].AssignedNode();
        assert c'.vms[i].AssignedNode() == Some(name);
      } else {
        assert c'.vms[j].AssignedNode() == Some(name);
      }
    }
  }

  /** Each repair occupies exactly one more node: the one left is still shared. */
  lemma RepairOccupiesOneMore(c: Cluster, group: string, k: Key, draw: nat)
    requires Repairable(c, group) && k in Members(c, group) && V.NeedsScheduling(c, c.vms[k])
    ensures Decide(c, c.vms[k], draw).Some?
    ensures OccupiedNodes(Repair(c, k, draw), group) == OccupiedNodes(c, group) + {Decide(c, c.vms[k], draw).value}
    ensures |OccupiedNodes(Repair(c, k, draw), group)| == |OccupiedNodes(c, group)| + 1
  {
    RepairFindsFreeNode(c, group, k, draw);
    RepairMoves(c, k, draw);
    MoveOccupiesOneMore(c, Repair(c, k, draw), group, k, Decide(c, c.vms[k], draw).value);
  }

  lemma MoveKeepsRepairable(c: Cluster, c': Cluster, group: string, k: Key, node: string)
    requires Repairable(c, group) && k in Members(c, group) && Versioned(c') && Moved(c, c', k, node)
    ensures Repairable(c', group) && Members(c', group) == Members(c, group)
  {
    assert OpenNodes(c') == OpenNodes(c);
    assert forall j :: j in c.vms ==> Group(c'.vms[j]) == Group(c.vms[j]);
    assert Members(c', group) == Members(c, group);
  }

  datatype Move = Move(k: Key, draw: nat)

  /** A series of repairs, each of a member that needs it at that moment. */
  ghost predicate RepairRun(c: Cluster, group: string, moves: seq<Move>)
    decreases |moves|
  {
    moves == [] ||
    (&& moves[0].k in Members(c, group) && c.vms[moves[0].k].status.Some?
     && V.NeedsScheduling(c, c.vms[moves[0].k]) && Decide(c, c.vms[moves[0].k], moves[0].draw).Some?
     && RepairRun(Repair(c, moves[0].k, moves[0].draw), group, moves[1..]))
  }

  ghost function Repaired(c: Cluster, group: string, moves: seq<Move>): Cluster
    requires RepairRun(c, group, moves)
    decreases |moves|
  {
    if moves == [] then c else Repaired(Repair(c, moves[0].k, moves[0].draw), group, moves[1..])
  }

  ghost predicate OnePerNode(c: Cluster, group: string) {
    && (forall k :: k in Members(c, group) ==> c.vms[k].AssignedNode().Some?)
    && forall j, k :: j in Members(c, group) && k in Members(c, group) && j != k ==> !InConflict(c, j, k)
  }

  lemma OnePerNodeNeedsNothing(c: Cluster, group: string, k: Key)
    requires Repairable(c, group) && OnePerNode(c, group) && k in Members(c, group)
    ensures !V.NeedsScheduling(c, c.vms[k])
  {
    if SharesNode(c, c.vms[k]) {
      var i :| i in c.vms && Group(c.vms[i]) == Group(c.vms[k]) && Prefixed(c.vms[i].key) != Prefixed(k)
               && c.vms[i].AssignedNode() == c.vms[k].AssignedNode();
      assert i in Members(c, group) && InConflict(c, i, k);
    }
  }

  lemma SettledIsOnePerNode(c: Cluster, group: string)
    requires Repairable(c, group)
    requires forall k :: k in Members(c, group) ==> !V.NeedsScheduling(c, c.vms[k])
    ensures OnePerNode(c, group)
  {
    forall j, k | j in Members(c, group) && k in Members(c, group) && j != k
      ensures !InConflict(c, j, k)
    {
      assert !SharesNode(c, c.vms[k]);
    }
  }

  lemma OccupiedAtMostMembers(c: Cluster, group: string)
    ensures |OccupiedNodes(c, group)| <= |Members(c, group)|
  {
    forall name | name in OccupiedNodes(c, group)
      ensures exists j :: j in Members(c, group) && NodeName(c)(j) == name
    {
      var j :| j in c.vms && Group(c.vms[j]) == Some(group) && c.vms[j].AssignedNode() == Some(name);
      assert j in Members(c, group) && NodeName(c)(j) == name;
    }
    ImageSize(Members(c, group), NodeName(c), OccupiedNodes(c, group));
  }

  lemma OnePerNodeFillsNodes(c: Cluster, group: string)
    requires Repairable(c, group) && OnePerNode(c, group)
    ensures |OccupiedNodes(c, group)| == |Members(c, group)|
  {
    OccupiedAtMostMembers(c, group);
    forall j, k | j in Members(c, group) && k in Members(c, group) && j != k
      ensures NodeName(c)(j) != NodeName(c)(k)
    {
      assert !InConflict(c, j, k);
    }
    InjectiveImageSize(Members(c, group), NodeName(c), OccupiedNodes(c, group));
  }

  /**
    Three ways to say that a group is settled: no member needs scheduling, the members sit one per
    node, they occupy as many nodes as they are.
   */
  lemma SettledMeansOnePerNode(c: Cluster, group: string)
    requires Repairable(c, group)
    ensures (forall k :: k in Members(c, group) ==> !V.NeedsScheduling(c, c.vms[k])) <==> OnePerNode(c, group)
    ensures OnePerNode(c, group) <==> |OccupiedNodes(c, group)| == |Members(c, group)|
  {
    if OnePerNode(c, group) {
      OnePerNodeFillsNodes(c, group);
      forall k | k in Members(c, group)
        ensures !V.NeedsScheduling(c, c.vms[k])
      {
        OnePerNodeNeedsNothing(c, group, k);
      }
    } else {
      if forall k :: k in Members(c, group) ==> !V.NeedsScheduling(c, c.vms[k]) {
        SettledIsOnePerNode(c, group);
        assert false;
      }
      var k :| k in Members(c, group) && V.NeedsScheduling(c, c.vms[k]);
      MisplacedLeavesRoom(c, group, k);
    }
  }

  /**
    Repair terminates: a series of repairs is never longer than the number of members minus the
    number of nodes they occupied at first, and it has that length exactly when it ends with one
    member per node, that is (`SettledMeansOnePerNode`) when no member needs another repair.
   */
  lemma {:induction false} RepairTerminates(c: Cluster, group: string, moves: seq<Move>)
    requires Repairable(c, group) && RepairRun(c, group, moves)
    ensures Repairable(Repaired(c, group, moves), group)
    ensures Members(Repaired(c, group, moves), group) == Members(c, group)
    ensures |OccupiedNodes(Repaired(c, group, moves), group)| == |OccupiedNodes(c, group)| + |moves|
    ensures |moves| <= |Members(c, group)| - |OccupiedNodes(c, group)|
    ensures |moves| == |Members(c, group)| - |OccupiedNodes(c, group)| <==>
            OnePerNode(Repaired(c, group, moves), group)
    decreases |moves|
  {
    if moves == [] {
      OccupiedAtMostMembers(c, group);
      SettledMeansOnePerNode(c, group);
    } else {
      var k, draw := moves[0].k, moves[0].draw;
      RepairOccupiesOneMore(c, group, k, draw);
      RepairMoves(c, k, draw);
      MoveKeepsRepairable(c, Repair(c, k, draw), group, k, Decide(c, c.vms[k], draw).value);
      RepairTerminates(Repair(c, k, draw), group, moves[1..]);
    }
  }
}
