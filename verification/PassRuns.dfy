/**
  A pass of the VM controller without interference is a run of the machine in which all controllers interleave: the
  pass reads a copy, and each of its requests is a step of that process. So is the drain loop of the node controller,
  and the status write of the OVN controller; and users can do what the API server lets them.
 */
module PassRuns {
  import opened Prelude
  import opened Kube
  import opened Nics
  import opened Scheduling
  import opened Hosts
  import opened Protocol
  import V = VmController
  import L = PassLaws
  import O = VmOvn

  /** The steps take `s` to `s'`. */
  ghost predicate Leads(s: State, steps: seq<Step>, s': State) {
    Run(s, steps) && After(s, steps) == s'
  }

  lemma LeadsOn(s: State, e: Step, steps: seq<Step>, s': State)
    requires Enabled(s, e) && Leads(Apply(s, e), steps, s')
    ensures Leads(s, [e] + steps, s')
  {
    assert ([e] + steps)[1..] == steps;
  }

  lemma LeadsOnce(s: State, e: Step)
    requires Enabled(s, e)
    ensures Leads(s, [e], Apply(s, e))
  {
    LeadsOn(s, e, [], Apply(s, e));
    assert [e] + [] == [e];
  }

  /** The process holds a copy of the stored object, and no one is in the section. */
  predicate Holds(s: State, pid: nat, k: Key) {
    && k in s.w.cluster.vms && pid in s.copies && s.copies[pid] == s.w.cluster.vms[k]
    && s.copies[pid].key == k && s.section.None?
  }

  /** The request that is over is cleared, if there is one. */
  lemma ClearingRuns(s: State, pid: nat, k: Key) returns (steps: seq<Step>, s': State)
    requires Holds(s, pid, k)
    ensures Leads(s, steps, s') && s'.w == World(V.ClearResponse(s.w.cluster, s.copies[pid]).cluster, s.w.domains)
    ensures s'.section.None?
  {
    if RequestIsStale(s.copies[pid]) {
      steps := [Commit(pid, ClearRequest)];
      s' := Apply(s, steps[0]);
      LeadsOnce(s, steps[0]);
    } else {
      steps, s' := [], s;
    }
  }

  /** The critical section, up to the decision. */
  lemma DecidingRuns(s: State, pid: nat, k: Key, draw: nat) returns (s': State)
    requires Holds(s, pid, k) && s.copies[pid].status.Some?
    ensures var enter, decide := EnterSection(pid), DecideNode(draw);
            Enabled(s, enter) && Enabled(Apply(s, enter), decide) && s' == Apply(Apply(s, enter), decide)
    ensures s'.w == s.w && s'.copies == s.copies
    ensures var choice := Decide(s.w.cluster, s.copies[pid], draw);
            if choice.None? then s'.section.None?
            else s'.section.Some? && s'.section.value.pid == pid && s'.section.value.choice == choice
  {
    var s1 := Apply(s, EnterSection(pid));
    assert Copy(s1) == s.copies[pid];
    s' := Apply(s1, DecideNode(draw));
  }

  /** After the node is written the copy is stale, or the write changed nothing and the request is looked at. */
  lemma AfterWrite(s: State, pid: nat, k: Key, draw: nat, decided: State) returns (rest: seq<Step>, last: State)
    requires Holds(s, pid, k) && Versioned(s.w.cluster) && s.copies[pid].status.Some?
    requires V.NeedsScheduling(s.w.cluster, s.copies[pid]) && Decide(s.w.cluster, s.copies[pid], draw).Some?
    requires decided.w == s.w && decided.copies == s.copies && decided.section.Some?
    requires decided.section.value.pid == pid
    requires decided.section.value.choice == Decide(s.w.cluster, s.copies[pid], draw)
    ensures Enabled(decided, WriteNode) && Leads(Apply(decided, WriteNode), rest, last) && last.section.None?
    ensures last.w == World(V.SchedulingResponse(s.w.cluster, s.copies[pid], draw).cluster, s.w.domains)
  {
    var vm := s.copies[pid];
    var name := Decide(s.w.cluster, vm, draw).value;
    L.PlacementStores(s.w.cluster, k, draw, name);
    var written := Apply(decided, WriteNode);
    if V.ScheduledStatus(vm, name) == vm.status.value {
      rest, last := ClearingRuns(written, pid, k);
    } else {
      rest, last := [], written;
      V.StaleCopyWritesNothing(written.w.cluster, vm, draw);
    }
  }

  lemma PlacingRuns(s: State, pid: nat, k: Key, draw: nat) returns (steps: seq<Step>, s': State)
    requires Holds(s, pid, k) && Versioned(s.w.cluster) && s.copies[pid].status.Some?
    requires V.NeedsScheduling(s.w.cluster, s.copies[pid])
    ensures Leads(s, steps, s') && s'.section.None?
    ensures s'.w == World(V.SchedulingResponse(s.w.cluster, s.copies[pid], draw).cluster, s.w.domains)
  {
    var vm := s.copies[pid];
    var decided := DecidingRuns(s, pid, k, draw);
    var entered := Apply(s, EnterSection(pid));
    var choice := Decide(s.w.cluster, vm, draw);
    if choice.None? {
      LeadsOnce(entered, DecideNode(draw));
      steps, s' := [EnterSection(pid)] + [DecideNode(draw)], decided;
    } else {
      assert Copy(decided) == vm;
      var written := Apply(decided, WriteNode);
      var rest, last := AfterWrite(s, pid, k, draw, decided);
      LeadsOn(decided, WriteNode, rest, last);
      LeadsOn(entered, DecideNode(draw), [WriteNode] + rest, last);
      steps, s' := [EnterSection(pid)] + ([DecideNode(draw)] + ([WriteNode] + rest)), last;
    }
    LeadsOn(s, EnterSection(pid), steps[1..], s');
    assert [EnterSection(pid)] + steps[1..] == steps;
  }

  lemma SchedulingRuns(s: State, pid: nat, k: Key, draw: nat) returns (steps: seq<Step>, s': State)
    requires Holds(s, pid, k) && Versioned(s.w.cluster) && s.copies[pid].status.Some?
    ensures Leads(s, steps, s') && s'.section.None?
    ensures s'.w == World(V.SchedulingResponse(s.w.cluster, s.copies[pid], draw).cluster, s.w.domains)
  {
    if V.NeedsScheduling(s.w.cluster, s.copies[pid]) {
      steps, s' := PlacingRuns(s, pid, k, draw);
    } else {
      steps, s' := ClearingRuns(s, pid, k);
    }
  }

  /** The first write of a pass that has one to make ahead of the scheduler. */
  lemma FirstWriteRuns(s: State, pid: nat, k: Key, draws: V.Draws) returns (e: Step)
    requires Holds(s, pid, k) && Versioned(s.w.cluster) && AllTargets(s.copies[pid].spec.networks)
    requires s.copies[pid].status.Some? ==>
               var filled := Fill(V.EnvOf(s.w.cluster, s.copies[pid], draws), s.copies[pid].status.value.networks,
                                  s.copies[pid].spec.networks);
               filled.Ok? && (filled.value != s.copies[pid].status.value.networks || s.copies[pid].spec.uuid.None?)
    ensures Enabled(s, e) && Apply(s, e).section.None?
    ensures Apply(s, e).w == World(V.Pass(s.w.cluster, s.copies[pid], draws).cluster, s.w.domains)
  {
    var c, vm := s.w.cluster, s.copies[pid];
    if vm.status.None? {
      e := WriteStatus(pid, Initial);
    } else {
      var list := Fill(V.EnvOf(c, vm, draws), vm.status.value.networks, vm.spec.networks).value;
      if list != vm.status.value.networks {
        e := WriteStatus(pid, StatusChange.Nics(list));
      } else {
        e := Commit(pid, FillUuid(draws.uuid));
        var copy := V.WithUuid(vm, draws.uuid);
        V.StaleCopyWritesNothing(PutObject(c, copy).cluster, copy, draws.node);
      }
    }
  }

  lemma CopyRuns(s: State, pid: nat, k: Key, draws: V.Draws) returns (steps: seq<Step>, s': State)
    requires Holds(s, pid, k) && Versioned(s.w.cluster) && AllTargets(s.copies[pid].spec.networks)
    ensures Leads(s, steps, s') && s'.section.None?
    ensures s'.w == World(V.Pass(s.w.cluster, s.copies[pid], draws).cluster, s.w.domains)
  {
    var c, vm := s.w.cluster, s.copies[pid];
    if vm.status.None? {
      var e := FirstWriteRuns(s, pid, k, draws);
      LeadsOnce(s, e);
      steps, s' := [e], Apply(s, e);
    } else {
      var filled := Fill(V.EnvOf(c, vm, draws), vm.status.value.networks, vm.spec.networks);
      if filled.Err? {
        steps, s' := [], s;
      } else if filled.value != vm.status.value.networks || vm.spec.uuid.None? {
        var e := FirstWriteRuns(s, pid, k, draws);
        LeadsOnce(s, e);
        steps, s' := [e], Apply(s, e);
      } else {
        steps, s' := SchedulingRuns(s, pid, k, draws.node);
      }
    }
  }

  /**
    Main result: whatever a pass over the stored object draws, some run of the machine leaves the cluster and the
    domains as the pass does, with the section free again. So what holds of every run holds of passes as the code
    makes them.
   */
  lemma PassIsRun(s: State, pid: nat, k: Key, draws: V.Draws) returns (steps: seq<Step>)
    requires Versioned(s.w.cluster) && k in s.w.cluster.vms && s.section.None?
    requires AllTargets(s.w.cluster.vms[k].spec.networks)
    ensures Run(s, steps) && After(s, steps).section.None?
    ensures After(s, steps).w == World(V.Pass(s.w.cluster, s.w.cluster.vms[k], draws).cluster, s.w.domains)
  {
    var read := Apply(s, ReadCopy(pid, k));
    var rest, s' := CopyRuns(read, pid, k, draws);
    LeadsOn(s, ReadCopy(pid, k), rest, s');
    steps := [ReadCopy(pid, k)] + rest;
  }

  lemma {:induction false} ReachableAlong(s: State, steps: seq<Step>)
    requires Reachable(s) && Run(s, steps)
    ensures Reachable(After(s, steps))
    decreases |steps|
  {
    if steps != [] {
      NextReachable(s, steps[0]);
      ReachableAlong(Apply(s, steps[0]), steps[1..]);
    }
  }

  /** Some reachable state with the section free has this cluster and these domains. */
  ghost predicate ReachableWorld(w: World) {
    exists s :: Reachable(s) && s.section.None? && s.w == w
  }

  /** A series of passes over one object, whatever they draw, stays within what the machine can reach. */
  lemma {:induction false} PassesAreReachable(w: World, k: Key, draws: nat -> V.Draws, n: nat)
    requires ReachableWorld(w)
    ensures ReachableWorld(World(Iterate(V.PassOver(k, draws), w.cluster, n), w.domains))
  {
    if n > 0 {
      PassesAreReachable(w, k, draws, n - 1);
      var before := World(Iterate(V.PassOver(k, draws), w.cluster, n - 1), w.domains);
      var s :| Reachable(s) && s.section.None? && s.w == before;
      if V.Progressing(before.cluster, k) {
        var steps := PassIsRun(s, 0, k, draws(n - 1));
        ReachableAlong(s, steps);
      }
    }
  }

  // Other controllers and users

  lemma {:induction false} LeadsAll(s: State, first: seq<Step>, mid: State, rest: seq<Step>, s': State)
    requires Leads(s, first, mid) && Leads(mid, rest, s')
    ensures Leads(s, first + rest, s')
    decreases |first|
  {
    if first == [] {
      assert first + rest == rest;
    } else {
      LeadsAll(Apply(s, first[0]), first[1..], mid, rest, s');
      LeadsOn(s, first[0], first[1..] + rest, s');
      assert first + rest == [first[0]] + (first[1..] + rest);
    }
  }

  /** The request to leave a node is a read and a commit. */
  lemma RequestRuns(s: State, pid: nat, vm: Vm, node: string) returns (steps: seq<Step>, s': State)
    requires s.section.None? && vm.key in s.w.cluster.vms && s.w.cluster.vms[vm.key] == vm
    requires vm.AssignedNode() == Some(node)
    ensures Leads(s, steps, s') && s'.section.None?
    ensures s'.w == World(PutObject(s.w.cluster, WithRequest(vm, node)).cluster, s.w.domains)
  {
    var read := Apply(s, ReadCopy(pid, vm.key));
    s' := Apply(read, Commit(pid, Request(node)));
    LeadsOnce(read, Commit(pid, Request(node)));
    LeadsOn(s, ReadCopy(pid, vm.key), [Commit(pid, Request(node))], s');
    steps := [ReadCopy(pid, vm.key)] + [Commit(pid, Request(node))];
  }

  /** The drain loop over a fresh listing is a run. */
  lemma {:induction false} DrainIsRun(s: State, pid: nat, list: seq<Vm>, node: string)
    returns (steps: seq<Step>, s': State)
    requires s.section.None? && Versioned(s.w.cluster) && IsFresh(s.w.cluster, list)
    ensures Leads(s, steps, s') && s'.section.None?
    ensures s'.w == World(RequestAll(s.w.cluster, list, node).cluster, s.w.domains)
    decreases |list|
  {
    if list == [] || list[0].status.None? {
      steps, s' := [], s;
    } else {
      FreshStep(s.w.cluster, list, node);
      assert list[0] in list;
      if list[0].AssignedNode() == Some(node) {
        var first, mid := RequestRuns(s, pid, list[0], node);
        var rest;
        rest, s' := DrainIsRun(mid, pid, list[1..], node);
        LeadsAll(s, first, mid, rest, s');
        steps := first + rest;
      } else {
        steps, s' := DrainIsRun(s, pid, list[1..], node);
      }
    }
  }

  /** The status write of `update_vm` is a step of the process that holds the copy. */
  lemma AddressesAreStep(s: State, pid: nat, ips: seq<string>)
    requires pid in s.copies && s.copies[pid].status.Some?
    ensures var step, copy := WriteStatus(pid, Addresses(ips)), s.copies[pid];
            && Enabled(s, step)
            && Apply(s, step).w.cluster ==
                 PutStatus(s.w.cluster, copy, O.WithAddresses(copy.status.value, ips)).cluster
  {
  }

  /** What users and stopping domains change, and nothing else. */
  lemma UsersActions(s: State, k: Key, spec: Spec, nodes: seq<Node>, d: Domain)
    requires Versioned(s.w.cluster) && k in s.w.cluster.vms && d in s.w.domains
    ensures var c' := Apply(s, UserEdits(k, spec)).w.cluster;
            && k in c'.vms && c'.vms[k] == s.w.cluster.vms[k].(spec := spec, version := c'.vms[k].version)
            && forall j :: j in s.w.cluster.vms && j != k ==> j in c'.vms && c'.vms[j] == s.w.cluster.vms[j]
    ensures var c' := Apply(s, NodesChange(nodes)).w.cluster; c'.nodes == nodes && c'.vms == s.w.cluster.vms
    ensures var w' := Apply(s, DomainStops(d)).w;
            && w'.cluster == s.w.cluster && d !in w'.domains
            && forall e :: e in s.w.domains && e != d ==> e in w'.domains && w'.domains[e] == s.w.domains[e]
  {
    ObjectStored(s.w.cluster, s.w.cluster.vms[k].(spec := spec));
  }
}
