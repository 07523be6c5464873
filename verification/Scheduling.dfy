/**
  Node eligibility, anti-affinity compliance and the choice of a node: `scheduling.rs`, the
  annotation tests of `node.rs`, and the drain loop of the node controller.
 */
module Scheduling {
  import opened Prelude
  import opened Kube

  /** Lower case, for the letters a comparison with "true" can meet. */
  function Lower(s: string): string {
    seq(|s|, i requires 0 <= i < |s| => if 'A' <= s[i] <= 'Z' then ((s[i] as int) + 32) as char else s[i])
  }

  predicate IsTrue(value: Option<string>) {
    value.Some? && Lower(value.value) == "true"
  }

  predicate InMaintenance(n: Node) {
    IsTrue(Get(n.annotations, MAINTENANCE_ANNOTATION))
  }

  predicate AllowsScheduling(n: Node) {
    !IsTrue(Get(n.annotations, NO_SCHEDULE_ANNOTATION))
  }

  /** "true" in any letter case. */
  predicate SaysTrue(text: string) {
    && |text| == 4 && (text[0] == 't' || text[0] == 'T') && (text[1] == 'r' || text[1] == 'R')
    && (text[2] == 'u' || text[2] == 'U') && (text[3] == 'e' || text[3] == 'E')
  }

  predicate Marked(n: Node, annotation: string) {
    annotation in n.annotations && SaysTrue(n.annotations[annotation])
  }

  lemma TrueIsExact(text: string)
    ensures IsTrue(Some(text)) <==> SaysTrue(text)
  {
    if IsTrue(Some(text)) {
      assert Lower(text)[0] == 't' && Lower(text)[1] == 'r' && Lower(text)[2] == 'u' && Lower(text)[3] == 'e';
    }
  }

  /** The annotations that close a node. */
  lemma AnnotationsClose(n: Node)
    ensures InMaintenance(n) <==> Marked(n, "cluster-virt.acl.fi/maintenance")
    ensures !AllowsScheduling(n) <==> Marked(n, "cluster-virt.acl.fi/no-schedule")
  {
    if MAINTENANCE_ANNOTATION in n.annotations {
      TrueIsExact(n.annotations[MAINTENANCE_ANNOTATION]);
    }
    if NO_SCHEDULE_ANNOTATION in n.annotations {
      TrueIsExact(n.annotations[NO_SCHEDULE_ANNOTATION]);
    }
  }

  function Group(vm: Vm): Option<string> {
    Get(vm.labels, ANTI_AFFINITY_LABEL)
  }

  /** The annotation names the node the VM is on, not one it already left. */
  predicate MigrationRequested(vm: Vm) {
    vm.MigrationRequestedFrom().Some? && vm.AssignedNode() == vm.MigrationRequestedFrom()
  }

  /** The annotation is left over from a finished migration. */
  predicate RequestIsStale(vm: Vm) {
    vm.MigrationRequestedFrom().Some? && vm.AssignedNode() != vm.MigrationRequestedFrom()
  }

  /** Some other VM of the group is assigned to the same node. */
  predicate SharesNode(c: Cluster, vm: Vm) {
    && Group(vm).Some? && vm.AssignedNode().Some?
    && exists k :: k in c.vms && Group(c.vms[k]) == Group(vm) && Prefixed(c.vms[k].key) != Prefixed(vm.key)
                   && c.vms[k].AssignedNode() == vm.AssignedNode()
  }

  /** `is_uncompliant` */
  function IsUncompliant(c: Cluster, vm: Vm): Result<bool> {
    if vm.status.None? then Err(NoStatus) else Ok(vm.Scheduled() && SharesNode(c, vm))
  }

  /** The nodes that already have a VM of the group, the VM in question included. */
  function OccupiedNodes(c: Cluster, group: string): set<string> {
    set k | k in c.vms && Group(c.vms[k]) == Some(group) && c.vms[k].AssignedNode().Some?
      :: c.vms[k].AssignedNode().value
  }

  /** The occupied nodes depend only on who is in the group and where. */
  lemma OccupiedSame(c: Cluster, c': Cluster, group: string)
    requires c.vms.Keys == c'.vms.Keys
    requires forall k :: k in c.vms ==>
               Group(c.vms[k]) == Group(c'.vms[k]) && c.vms[k].AssignedNode() == c'.vms[k].AssignedNode()
    ensures OccupiedNodes(c, group) == OccupiedNodes(c', group)
  {
  }

  /** What the filters leave for a VM without a node in its spec. */
  predicate Eligible(c: Cluster, vm: Vm, ignoreAffinity: bool, n: Node) {
    && !InMaintenance(n)
    && AllowsScheduling(n)
    && vm.MigrationRequestedFrom() != Some(n.name)
    && (ignoreAffinity || Group(vm).None? || n.name !in OccupiedNodes(c, Group(vm).value))
  }

  ghost predicate HasCandidate(c: Cluster, vm: Vm) {
    exists n :: n in c.nodes && Eligible(c, vm, false, n)
  }

  function Candidates(c: Cluster, vm: Vm, ignoreAffinity: bool): seq<Node> {
    Retain(c.nodes, n => Eligible(c, vm, ignoreAffinity, n))
  }

  /** `schedule`, with the random draw as an argument; `None` is `ScheduleFailed`. */
  function Choose(c: Cluster, vm: Vm, ignoreAffinity: bool, draw: nat): (r: Option<string>)
    ensures vm.spec.node.None? && r.Some? ==>
              exists n :: n in c.nodes && n.name == r.value && Eligible(c, vm, ignoreAffinity, n)
    ensures vm.spec.node.None? && r.None? ==>
              forall n :: n in c.nodes ==> !Eligible(c, vm, ignoreAffinity, n)
    ensures r.Some? ==> exists n :: n in c.nodes && n.name == r.value && !InMaintenance(n)
  {
    if vm.spec.node.Some? then
      if exists n :: n in c.nodes && !InMaintenance(n) && n.name == vm.spec.node.value
      then vm.spec.node
      else None
    else
      var candidates := Candidates(c, vm, ignoreAffinity);
      if candidates == [] then None else
        var n := candidates[draw % |candidates|];
        assert n in candidates;
        Some(n.name)
  }

  /** A pinned VM gets its node exactly if that node is listed without the maintenance annotation. */
  lemma PinnedChoiceIsExact(c: Cluster, vm: Vm, ignoreAffinity: bool, draw: nat)
    requires vm.spec.node.Some?
    ensures Choose(c, vm, ignoreAffinity, draw) ==
              if exists n :: n in c.nodes && n.name == vm.spec.node.value
                             && !Marked(n, "cluster-virt.acl.fi/maintenance")
              then vm.spec.node else None
  {
    forall n: Node
      ensures InMaintenance(n) <==> Marked(n, "cluster-virt.acl.fi/maintenance")
    {
      AnnotationsClose(n);
    }
  }

  /** Whatever the choice, the node is not in maintenance. */
  lemma ChosenIsUp(c: Cluster, vm: Vm, ignoreAffinity: bool, draw: nat)
    ensures var r := Choose(c, vm, ignoreAffinity, draw);
            r.Some? ==>
              exists n :: n in c.nodes && n.name == r.value && !Marked(n, "cluster-virt.acl.fi/maintenance")
  {
    var r := Choose(c, vm, ignoreAffinity, draw);
    if r.Some? {
      var n :| n in c.nodes && n.name == r.value && !InMaintenance(n);
      AnnotationsClose(n);
    }
  }

  /** Some VM of the group of `vm` is assigned to the node. */
  predicate TakenByGroup(c: Cluster, vm: Vm, node: string) {
    && "antiAffinity" in vm.labels
    && exists k :: k in c.vms && "antiAffinity" in c.vms[k].labels
                   && c.vms[k].labels["antiAffinity"] == vm.labels["antiAffinity"]
                   && c.vms[k].status.Some? && c.vms[k].status.value.node == Some(node)
  }

  /** The nodes an unpinned VM may get. */
  predicate Open(c: Cluster, vm: Vm, ignoreAffinity: bool, n: Node) {
    && !Marked(n, "cluster-virt.acl.fi/maintenance") && !Marked(n, "cluster-virt.acl.fi/no-schedule")
    && !("cluster-virt.acl.fi/migration-required" in vm.annotations
         && vm.annotations["cluster-virt.acl.fi/migration-required"] == n.name)
    && (ignoreAffinity || !TakenByGroup(c, vm, n.name))
  }

  lemma OccupiedIsTaken(c: Cluster, vm: Vm, node: string)
    requires Group(vm).Some?
    ensures node in OccupiedNodes(c, Group(vm).value) <==> TakenByGroup(c, vm, node)
  {
    if node in OccupiedNodes(c, Group(vm).value) {
      var k :| k in c.vms && Group(c.vms[k]) == Group(vm) && c.vms[k].AssignedNode() == Some(node);
      assert "antiAffinity" in c.vms[k].labels && c.vms[k].labels["antiAffinity"] == vm.labels["antiAffinity"];
    }
    if TakenByGroup(c, vm, node) {
      var k :| k in c.vms && "antiAffinity" in c.vms[k].labels
               && c.vms[k].labels["antiAffinity"] == vm.labels["antiAffinity"]
               && c.vms[k].status.Some? && c.vms[k].status.value.node == Some(node);
      assert Group(c.vms[k]) == Group(vm) && c.vms[k].AssignedNode() == Some(node);
    }
  }

  lemma EligibleIsOpen(c: Cluster, vm: Vm, ignoreAffinity: bool, n: Node)
    ensures Eligible(c, vm, ignoreAffinity, n) <==> Open(c, vm, ignoreAffinity, n)
  {
    AnnotationsClose(n);
    if Group(vm).Some? {
      OccupiedIsTaken(c, vm, n.name);
    }
  }

  lemma ChosenAt(c: Cluster, vm: Vm, ignoreAffinity: bool, draw: nat)
    requires vm.spec.node.None? && draw < |Candidates(c, vm, ignoreAffinity)|
    ensures Choose(c, vm, ignoreAffinity, draw) == Some(Candidates(c, vm, ignoreAffinity)[draw].name)
  {
    assert draw % |Candidates(c, vm, ignoreAffinity)| == draw;
  }

  /** A draw that picks the node. */
  lemma DrawOf(c: Cluster, vm: Vm, ignoreAffinity: bool, n: Node) returns (draw: nat)
    requires vm.spec.node.None? && n in c.nodes && Eligible(c, vm, ignoreAffinity, n)
    ensures Choose(c, vm, ignoreAffinity, draw) == Some(n.name)
  {
    var candidates := Candidates(c, vm, ignoreAffinity);
    assert n in candidates;
    draw :| draw < |candidates| && candidates[draw] == n;
    ChosenAt(c, vm, ignoreAffinity, draw);
  }

  lemma EligibleIsDrawn(c: Cluster, vm: Vm, ignoreAffinity: bool, name: string)
    requires vm.spec.node.None?
    ensures (exists draw: nat :: Choose(c, vm, ignoreAffinity, draw) == Some(name)) <==>
            exists n :: n in c.nodes && n.name == name && Eligible(c, vm, ignoreAffinity, n)
  {
    if n :| n in c.nodes && n.name == name && Eligible(c, vm, ignoreAffinity, n) {
      var draw := DrawOf(c, vm, ignoreAffinity, n);
    }
  }

  lemma NoneIsDrawn(c: Cluster, vm: Vm, ignoreAffinity: bool)
    requires vm.spec.node.None?
    ensures (exists draw: nat :: Choose(c, vm, ignoreAffinity, draw).None?) <==>
            forall n :: n in c.nodes ==> !Eligible(c, vm, ignoreAffinity, n)
  {
    var candidates := Candidates(c, vm, ignoreAffinity);
    if forall n :: n in c.nodes ==> !Eligible(c, vm, ignoreAffinity, n) {
      assert forall i :: 0 <= i < |candidates| ==> candidates[i] in candidates;
      assert Choose(c, vm, ignoreAffinity, 0).None?;
    }
  }

  /** An unpinned VM gets some open node, any of which a draw can pick, and none exactly if no node is open. */
  lemma ChoiceIsExact(c: Cluster, vm: Vm, ignoreAffinity: bool, name: string)
    requires vm.spec.node.None?
    ensures (exists draw: nat :: Choose(c, vm, ignoreAffinity, draw) == Some(name)) <==>
            exists n :: n in c.nodes && n.name == name && Open(c, vm, ignoreAffinity, n)
    ensures (exists draw: nat :: Choose(c, vm, ignoreAffinity, draw).None?) <==>
            forall n :: n in c.nodes ==> !Open(c, vm, ignoreAffinity, n)
  {
    EligibleIsDrawn(c, vm, ignoreAffinity, name);
    NoneIsDrawn(c, vm, ignoreAffinity);
    forall n: Node
      ensures Eligible(c, vm, ignoreAffinity, n) <==> Open(c, vm, ignoreAffinity, n)
    {
      EligibleIsOpen(c, vm, ignoreAffinity, n);
    }
  }

  /** Another VM of the group, by prefixed name, is assigned to the node of `vm`. */
  predicate SharesWithGroup(c: Cluster, vm: Vm) {
    && "antiAffinity" in vm.labels && vm.status.Some? && vm.status.value.node.Some?
    && exists k :: k in c.vms && "antiAffinity" in c.vms[k].labels
                   && c.vms[k].labels["antiAffinity"] == vm.labels["antiAffinity"]
                   && c.vms[k].key.namespace + "-" + c.vms[k].key.name != vm.key.namespace + "-" + vm.key.name
                   && c.vms[k].status.Some? && c.vms[k].status.value.node == vm.status.value.node
  }

  /** A VM is uncompliant exactly if it is scheduled and shares its node with its group. */
  lemma ComplianceIsExact(c: Cluster, vm: Vm)
    ensures IsUncompliant(c, vm) ==
              if vm.status.None? then Err(NoStatus) else Ok(vm.status.value.scheduled && SharesWithGroup(c, vm))
  {
    if SharesNode(c, vm) {
      var k :| k in c.vms && Group(c.vms[k]) == Group(vm) && Prefixed(c.vms[k].key) != Prefixed(vm.key)
               && c.vms[k].AssignedNode() == vm.AssignedNode();
      assert "antiAffinity" in c.vms[k].labels && c.vms[k].labels["antiAffinity"] == vm.labels["antiAffinity"];
    }
    if SharesWithGroup(c, vm) {
      var k :| k in c.vms && "antiAffinity" in c.vms[k].labels
               && c.vms[k].labels["antiAffinity"] == vm.labels["antiAffinity"]
               && c.vms[k].key.namespace + "-" + c.vms[k].key.name != vm.key.namespace + "-" + vm.key.name
               && c.vms[k].status.Some? && c.vms[k].status.value.node == vm.status.value.node;
      assert Group(c.vms[k]) == Group(vm) && c.vms[k].AssignedNode() == vm.AssignedNode();
    }
  }

  /**
    The decision of `scheduling_and_migrations`: affinity is dropped only for a requested
    migration that has no candidate otherwise.
   */
  function Decide(c: Cluster, vm: Vm, draw: nat): Option<string> {
    var normal := Choose(c, vm, false, draw);
    if MigrationRequested(vm) && normal.None? then Choose(c, vm, true, draw) else normal
  }

  /** `get_vms_with_label`, in whatever order the server lists them. */
  method GetVmsWithLabel(api: ApiServer, group: string) returns (r: seq<Vm>)
    ensures forall vm :: vm in r <==> exists k :: k in api.vms && api.vms[k] == vm && Group(vm) == Some(group)
  {
    r := [];
    var keys := api.vms.Keys;
    while keys != {}
      invariant keys <= api.vms.Keys
      invariant forall vm :: vm in r <==>
                  exists k :: k in api.vms && k !in keys && api.vms[k] == vm && Group(vm) == Some(group)
      decreases |keys|
    {
      var k :| k in keys;
      if Group(api.vms[k]) == Some(group) {
        r := r + [api.vms[k]];
      }
      keys := keys - {k};
    }
  }

  /** `is_uncompliant` with its listing, `retain` and `any`. */
  method CheckCompliance(api: ApiServer, vm: Vm) returns (r: Result<bool>)
    ensures r == IsUncompliant(api.Snapshot(), vm)
  {
    if vm.status.None? {
      return Err(NoStatus);
    }
    if !vm.Scheduled() || Group(vm).None? {
      return Ok(false);
    }
    var members := GetVmsWithLabel(api, Group(vm).value);
    ghost var listed := members;
    members := Retain(members, (m: Vm) => Prefixed(m.key) != Prefixed(vm.key));
    for i := 0 to |members|
      invariant forall j :: 0 <= j < i ==> !(vm.AssignedNode().Some? && members[j].AssignedNode() == vm.AssignedNode())
    {
      if vm.AssignedNode().Some? && vm.AssignedNode() == members[i].AssignedNode() {
        assert members[i] in members && members[i] in listed;
        return Ok(true);
      }
    }
    r := Ok(false);
  }

  /** `remove_candidate_nodes` */
  method RemoveCandidateNodes(candidates: seq<Node>, names: seq<string>) returns (r: seq<Node>)
    ensures r == Retain(candidates, (n: Node) => n.name !in names)
  {
    r := candidates;
    RetainAll(candidates, (n: Node) => n.name !in names[..0]);
    for i := 0 to |names|
      invariant r == Retain(candidates, (n: Node) => n.name !in names[..i])
    {
      RetainTwice(candidates, (n: Node) => n.name !in names[..i], (n: Node) => n.name != names[i],
                  (n: Node) => n.name !in names[..i + 1]);
      r := Retain(r, (n: Node) => n.name != names[i]);
    }
    assert names[..|names|] == names;
  }

  /** The test of the filters before anti-affinity. */
  predicate Accepts(vm: Vm, n: Node) {
    !InMaintenance(n) && AllowsScheduling(n) && vm.MigrationRequestedFrom() != Some(n.name)
  }

  /** The part of `schedule` for a VM without a node in its spec: the list shrinks filter by filter. */
  method FilterNodes(vm: Vm, available: seq<Node>, ghost nodes: seq<Node>) returns (candidates: seq<Node>)
    requires available == Retain(nodes, n => !InMaintenance(n))
    ensures candidates == Retain(nodes, n => Accepts(vm, n))
  {
    candidates := Retain(available, n => AllowsScheduling(n));
    RetainTwice(nodes, n => !InMaintenance(n), n => AllowsScheduling(n),
                n => !InMaintenance(n) && AllowsScheduling(n));
    if vm.MigrationRequestedFrom().Some? {
      var source := [vm.MigrationRequestedFrom().value];
      candidates := RemoveCandidateNodes(candidates, source);
      RetainTwice(nodes, n => !InMaintenance(n) && AllowsScheduling(n),
                  (n: Node) => n.name !in source, n => Accepts(vm, n));
    } else {
      RetainAll(candidates, n => true);
      RetainTwice(nodes, n => !InMaintenance(n) && AllowsScheduling(n), n => true, n => Accepts(vm, n));
    }
  }

  /** `get_nodes_with_label_scheduled` */
  method NodesWithLabelScheduled(api: ApiServer, group: string) returns (r: seq<string>)
    ensures forall name :: name in r <==> name in OccupiedNodes(api.Snapshot(), group)
  {
    var members := GetVmsWithLabel(api, group);
    r := [];
    for i := 0 to |members|
      invariant forall name :: name in r <==>
                  exists j :: 0 <= j < i && members[j].AssignedNode() == Some(name)
    {
      if members[i].AssignedNode().Some? {
        r := r + [members[i].AssignedNode().value];
      }
    }
    forall name
      ensures name in r <==> name in OccupiedNodes(api.Snapshot(), group)
    {
      if name in r {
        var j :| 0 <= j < |members| && members[j].AssignedNode() == Some(name);
        assert members[j] in members;
      }
      if name in OccupiedNodes(api.Snapshot(), group) {
        var k :| k in api.vms && Group(api.vms[k]) == Some(group) && api.vms[k].AssignedNode() == Some(name);
        assert api.vms[k] in members;
      }
    }
  }

  method FilterAffinity(api: ApiServer, vm: Vm, ignoreAffinity: bool, accepted: seq<Node>)
    returns (candidates: seq<Node>)
    requires accepted == Retain(api.nodes, n => Accepts(vm, n))
    ensures candidates == Candidates(api.Snapshot(), vm, ignoreAffinity)
  {
    ghost var c := api.Snapshot();
    candidates := accepted;
    if !ignoreAffinity && Group(vm).Some? {
      var blocked := NodesWithLabelScheduled(api, Group(vm).value);
      candidates := RemoveCandidateNodes(candidates, blocked);
      RetainTwice(c.nodes, n => Accepts(vm, n), (n: Node) => n.name !in blocked,
                  n => Eligible(c, vm, ignoreAffinity, n));
    } else {
      RetainAll(candidates, n => true);
      RetainTwice(c.nodes, n => Accepts(vm, n), n => true, n => Eligible(c, vm, ignoreAffinity, n));
    }
  }

  /** `schedule` */
  method Schedule(api: ApiServer, vm: Vm, ignoreAffinity: bool, draw: nat) returns (r: Option<string>)
    ensures r == Choose(api.Snapshot(), vm, ignoreAffinity, draw)
    ensures r.Some? ==> exists n :: n in api.nodes && n.name == r.value && !Marked(n, "cluster-virt.acl.fi/maintenance")
  {
    ChosenIsUp(api.Snapshot(), vm, ignoreAffinity, draw);
    var candidates := Retain(api.nodes, n => !InMaintenance(n));
    if vm.spec.node.Some? {
      for i := 0 to |candidates|
        invariant forall j :: 0 <= j < i ==> candidates[j].name != vm.spec.node.value
      {
        if candidates[i].name == vm.spec.node.value {
          assert candidates[i] in candidates && candidates[i] in api.nodes;
          return Some(candidates[i].name);
        }
      }
      assert forall n :: n in api.nodes && !InMaintenance(n) ==> n in candidates;
      return None;
    }
    candidates := FilterNodes(vm, candidates, api.nodes);
    candidates := FilterAffinity(api, vm, ignoreAffinity, candidates);
    if candidates == [] {
      r := None;
    } else {
      r := Some(candidates[draw % |candidates|].name);
    }
  }

  /** `request_migration_away_from`, on the writer's copy */
  function WithRequest(vm: Vm, node: string): Vm {
    vm.(annotations := vm.annotations[MIGRATION_REQUEST_ANNOTATION := node])
  }

  /** `clear_migration_request`, on the writer's copy */
  function WithoutRequest(vm: Vm): Vm {
    vm.(annotations := vm.annotations - {MIGRATION_REQUEST_ANNOTATION})
  }

  /** `request_migration_away_from`; a stale copy conflicts. */
  method RequestMigrationAwayFrom(api: ApiServer, vm: Vm, node: string) returns (error: Option<Error>)
    modifies api
    ensures Response(api.Snapshot(), error) == PutObject(old(api.Snapshot()), WithRequest(vm, node))
  {
    error := api.Commit(WithRequest(vm, node));
  }

  /** On the stored object the request is exactly the new annotation. */
  lemma CurrentRequest(c: Cluster, k: Key, node: string)
    requires Versioned(c) && k in c.vms
    ensures var r := PutObject(c, WithRequest(c.vms[k], node));
            && r.error == None && Versioned(r.cluster) && k in r.cluster.vms
            && r.cluster.vms == c.vms[k := WithRequest(c.vms[k], node).(version := r.cluster.vms[k].version)]
  {
  }

  /** The drain loop over a listing that other writers may have made stale. */
  function RequestAll(c: Cluster, list: seq<Vm>, node: string): Response
    decreases |list|
  {
    if list == [] then Response(c, None)
    else if list[0].status.None? then Response(c, Some(NoStatus))
    else if list[0].AssignedNode() != Some(node) then RequestAll(c, list[1..], node)
    else
      var r := PutObject(c, WithRequest(list[0], node));
      if r.error.Some? then r else RequestAll(r.cluster, list[1..], node)
  }

  method RequestListed(api: ApiServer, list: seq<Vm>, node: string) returns (error: Option<Error>)
    modifies api
    ensures Response(api.Snapshot(), error) == RequestAll(old(api.Snapshot()), list, node)
  {
    for i := 0 to |list|
      invariant RequestAll(api.Snapshot(), list[i..], node) == RequestAll(old(api.Snapshot()), list, node)
    {
      assert list[i..][0] == list[i] && list[i..][1..] == list[i + 1..];
      if list[i].status.None? {
        return Some(NoStatus);
      }
      if list[i].AssignedNode() == Some(node) {
        error := RequestMigrationAwayFrom(api, list[i], node);
        if error.Some? {
          return;
        }
      }
    }
    error := None;
  }

  /** Each listed VM is what the server stored under its version, or will never be again. */
  ghost predicate FromStore(c: Cluster, list: seq<Vm>) {
    forall vm :: vm in list ==>
      vm.version <= c.rev && (vm.key in c.vms && c.vms[vm.key].version == vm.version ==> c.vms[vm.key] == vm)
  }

  /** `vm'` is `vm` as it was, or with a request to leave the node it is assigned to. */
  predicate Requested(vm: Vm, vm': Vm, node: string) {
    || vm' == vm
    || (&& vm.status.Some? && vm.status.value.node == Some(node)
        && vm' == vm.(annotations := vm.annotations["cluster-virt.acl.fi/migration-required" := node],
                      version := vm'.version))
  }

  /** `c'` is `c` with a request to leave `node` on some of the VMs assigned to it. */
  ghost predicate OnlyRequested(c: Cluster, c': Cluster, node: string) {
    && c'.vms.Keys == c.vms.Keys && c'.nodes == c.nodes && c'.networks == c.networks
    && forall k :: k in c.vms ==> Requested(c.vms[k], c'.vms[k], node)
  }

  /** After the first commit the rest of the listing is still what was stored under its versions. */
  lemma RequestKeepsListing(c: Cluster, list: seq<Vm>, node: string)
    requires Versioned(c) && list != [] && FromStore(c, list)
    ensures FromStore(PutObject(c, WithRequest(list[0], node)).cluster, list[1..])
  {
    assert forall vm :: vm in list[1..] ==> vm in list;
  }

  /** The request on a copy is the annotation with the node's name; clearing it takes the annotation off. */
  lemma RequestIsAnnotation(vm: Vm, node: string)
    ensures WithRequest(vm, node) ==
              vm.(annotations := vm.annotations["cluster-virt.acl.fi/migration-required" := node])
    ensures MigrationRequested(WithRequest(vm, node)) <==> vm.status.Some? && vm.status.value.node == Some(node)
    ensures "cluster-virt.acl.fi/migration-required" !in WithoutRequest(vm).annotations
    ensures forall a :: a in vm.annotations && a != "cluster-virt.acl.fi/migration-required" ==>
              a in WithoutRequest(vm).annotations && WithoutRequest(vm).annotations[a] == vm.annotations[a]
    ensures WithoutRequest(vm) == vm.(annotations := WithoutRequest(vm).annotations)
  {
  }

  lemma RequestStep(c: Cluster, list: seq<Vm>, node: string)
    requires Versioned(c) && list != [] && FromStore(c, list) && list[0].AssignedNode() == Some(node)
    ensures var r := PutObject(c, WithRequest(list[0], node));
            && Versioned(r.cluster) && OnlyRequested(c, r.cluster, node) && FromStore(r.cluster, list[1..])
  {
    assert list[0] in list;
    RequestKeepsListing(c, list, node);
    RequestIsAnnotation(list[0], node);
  }

  lemma RequestedTwice(a: Vm, b: Vm, c: Vm, node: string)
    requires Requested(a, b, node) && Requested(b, c, node)
    ensures Requested(a, c, node)
  {
    if b != a && c != b {
      assert WithRequest(b, node).annotations == b.annotations;
    }
  }

  lemma OnlyRequestedTwice(a: Cluster, b: Cluster, c: Cluster, node: string)
    requires OnlyRequested(a, b, node) && OnlyRequested(b, c, node)
    ensures OnlyRequested(a, c, node)
  {
    forall k | k in a.vms
      ensures Requested(a.vms[k], c.vms[k], node)
    {
      RequestedTwice(a.vms[k], b.vms[k], c.vms[k], node);
    }
  }

  /** However stale the listing, the loop puts requests only on VMs assigned to the node, and changes nothing else. */
  lemma {:induction false} StaleDrainIsSafe(c: Cluster, list: seq<Vm>, node: string)
    requires Versioned(c) && FromStore(c, list)
    ensures Versioned(RequestAll(c, list, node).cluster) && OnlyRequested(c, RequestAll(c, list, node).cluster, node)
    decreases |list|
  {
    if list != [] && list[0].status.Some? {
      assert forall vm :: vm in list[1..] ==> vm in list;
      if list[0].AssignedNode() == Some(node) {
        RequestStep(c, list, node);
        var r := PutObject(c, WithRequest(list[0], node));
        if r.error.None? {
          StaleDrainIsSafe(r.cluster, list[1..], node);
          OnlyRequestedTwice(c, r.cluster, RequestAll(c, list, node).cluster, node);
        }
      } else {
        StaleDrainIsSafe(c, list[1..], node);
      }
    }
  }

  /** Each listed VM is the stored one, and none is listed twice. */
  ghost predicate IsFresh(c: Cluster, list: seq<Vm>) {
    && (forall vm :: vm in list ==> vm.key in c.vms && c.vms[vm.key] == vm)
    && (forall i, j :: 0 <= i < j < |list| ==> list[i].key != list[j].key)
  }

  /** The listing is the stored objects, each once. */
  ghost predicate ListsAll(c: Cluster, list: seq<Vm>, keys: set<Key>) {
    && (forall i :: 0 <= i < |list| ==> list[i].key in keys)
    && (forall k :: k in keys ==> k in c.vms && c.vms[k].key == k && c.vms[k] in list)
    && IsFresh(c, list)
  }

  /** The stored object is `vm` with the request. */
  predicate IsRequested(c: Cluster, vm: Vm, node: string) {
    && vm.key in c.vms
    && c.vms[vm.key] == vm.(annotations := vm.annotations["cluster-virt.acl.fi/migration-required" := node],
                            version := c.vms[vm.key].version)
  }

  predicate Lists(list: seq<Vm>, k: Key) {
    exists i :: 0 <= i < |list| && list[i].key == k
  }

  lemma FreshStep(c: Cluster, list: seq<Vm>, node: string)
    requires Versioned(c) && list != [] && IsFresh(c, list)
    ensures var r := PutObject(c, WithRequest(list[0], node));
            && r.error == None && Versioned(r.cluster) && IsFresh(r.cluster, list[1..])
                 && IsRequested(r.cluster, list[0], node)
            && !Lists(list[1..], list[0].key)
            && forall k :: k in c.vms && k != list[0].key ==> k in r.cluster.vms && r.cluster.vms[k] == c.vms[k]
    ensures IsFresh(c, list[1..])
  {
    assert list[0] in list;
    CurrentRequest(c, list[0].key, node);
    forall vm | vm in list[1..]
      ensures vm in list && vm.key != list[0].key
    {
      var i :| 0 <= i < |list[1..]| && list[1..][i] == vm;
      assert list[i + 1] == vm;
    }
  }

  /** Objects that are not listed stay as they are. */
  lemma {:induction false} UnlistedKept(c: Cluster, list: seq<Vm>, node: string, k: Key)
    requires Versioned(c) && IsFresh(c, list) && k in c.vms && !Lists(list, k)
    ensures k in RequestAll(c, list, node).cluster.vms && RequestAll(c, list, node).cluster.vms[k] == c.vms[k]
    decreases |list|
  {
    if list != [] {
      FreshStep(c, list, node);
      assert list[0].key != k && forall i :: 0 <= i < |list[1..]| ==> list[1..][i] == list[i + 1];
      var c' := if list[0].AssignedNode() == Some(node) then PutObject(c, WithRequest(list[0], node)).cluster else c;
      UnlistedKept(c', list[1..], node, k);
    }
  }

  /** A fresh listing: each VM assigned to the node gets the request, and only a VM without a status stops the loop. */
  lemma {:induction false} FreshDrainIsComplete(c: Cluster, list: seq<Vm>, node: string)
    requires Versioned(c) && IsFresh(c, list)
    ensures var r := RequestAll(c, list, node);
            && (r.error == None <==> forall vm :: vm in list ==> vm.status.Some?)
            && (r.error == None ==> forall vm :: vm in list && vm.AssignedNode() == Some(node) ==>
                 IsRequested(r.cluster, vm, node))
    decreases |list|
  {
    if list != [] {
      FreshStep(c, list, node);
      assert forall vm :: vm in list <==> vm == list[0] || vm in list[1..];
      var c' := if list[0].AssignedNode() == Some(node) then PutObject(c, WithRequest(list[0], node)).cluster else c;
      FreshDrainIsComplete(c', list[1..], node);
      UnlistedKept(c', list[1..], node, list[0].key);
    }
  }

  /** The stored VMs, in whatever order the server lists them. */
  method ListVms(api: ApiServer) returns (list: seq<Vm>)
    requires Versioned(api.Snapshot())
    ensures ListsAll(api.Snapshot(), list, api.vms.Keys)
  {
    list := [];
    var keys := api.vms.Keys;
    while keys != {}
      invariant keys <= api.vms.Keys
      invariant ListsAll(api.Snapshot(), list, api.vms.Keys - keys)
      decreases |keys|
    {
      var k :| k in keys;
      list := list + [api.vms[k]];
      keys := keys - {k};
    }
    assert api.vms.Keys - keys == api.vms.Keys;
  }

  /**
    The drain loop of the node controller over a fresh listing: it stops at the first listed VM without
    a status, and otherwise every VM assigned to the node ends up with a request to leave it; no other
    VM is ever changed.
   */
  method RequestRescheduleNodeVms(api: ApiServer, node: string) returns (error: Option<Error>)
    requires Versioned(api.Snapshot())
    modifies api
    ensures Versioned(api.Snapshot()) && OnlyRequested(old(api.Snapshot()), api.Snapshot(), node)
    ensures error == None <==> forall k :: k in old(api.vms) ==> old(api.vms)[k].status.Some?
    ensures error == None ==>
              forall k :: k in old(api.vms) && old(api.vms)[k].AssignedNode() == Some(node) ==>
                IsRequested(api.Snapshot(), old(api.vms)[k], node)
  {
    var list := ListVms(api);
    FreshDrainIsComplete(api.Snapshot(), list, node);
    StaleDrainIsSafe(api.Snapshot(), list, node);
    error := RequestListed(api, list, node);
  }

  /** The node the VM is asked to leave, if it is on it. */
  predicate AskedToLeave(vm: Vm, node: string) {
    && "cluster-virt.acl.fi/migration-required" in vm.annotations
    && vm.annotations["cluster-virt.acl.fi/migration-required"] == node
    && vm.status.Some? && vm.status.value.node == Some(node)
  }

  /**
    Scheduling a requested migration fails exactly when every node has the maintenance annotation or the
    no-schedule annotation or is the node to leave, whatever the anti-affinity group looks like.
   */
  lemma MigrationFailsExactlyWithoutNodes(c: Cluster, vm: Vm, source: string, draw: nat)
    requires vm.spec.node.None? && AskedToLeave(vm, source)
    ensures Decide(c, vm, draw).None? <==>
              forall n :: n in c.nodes ==>
                || Marked(n, "cluster-virt.acl.fi/maintenance") || Marked(n, "cluster-virt.acl.fi/no-schedule")
                || n.name == source
  {
    forall n: Node
      ensures Eligible(c, vm, true, n) <==>
              !Marked(n, "cluster-virt.acl.fi/maintenance") && !Marked(n, "cluster-virt.acl.fi/no-schedule")
              && n.name != source
    {
      EligibleIsOpen(c, vm, true, n);
    }
    if Decide(c, vm, draw).Some? {
      var name := Decide(c, vm, draw).value;
      var n :| n in c.nodes && n.name == name && (Eligible(c, vm, false, n) || Eligible(c, vm, true, n));
      assert Eligible(c, vm, true, n);
    }
  }

  /** A decision for a VM without a node in its spec never picks the node it was asked to leave. */
  lemma DecisionAvoidsSource(c: Cluster, vm: Vm, draw: nat)
    requires vm.spec.node.None? && Decide(c, vm, draw).Some?
    requires "cluster-virt.acl.fi/migration-required" in vm.annotations
    ensures Decide(c, vm, draw).value != vm.annotations["cluster-virt.acl.fi/migration-required"]
  {
  }
}
