/**
  A run, from the start of the cluster, in which two hosts end up running one VM: a VM without a Ceph
  volume runs on the only node, another VM of its group is pinned to that node, a second node appears,
  and the reschedule that anti-affinity asks for sets no pending migration.
 */
module DoubleStart {
  import opened Prelude
  import opened Kube
  import opened Scheduling
  import opened Hosts
  import opened Protocol
  import opened Runners
  import V = VmController

  const A := Key("ns", "a")
  const B := Key("ns", "b")
  const N1 := Node("n1", map[])
  const N2 := Node("n2", map[])

  function Placed(name: string, node: Option<string>): Status {
    Status(node.Some?, false, false, node, name, None, None, [])
  }

  /** The VM that is moved. */
  function VmA(version: nat, finalizers: seq<string>, status: Option<Status>): Vm {
    Vm(A, version, false, finalizers, map[], map[ANTI_AFFINITY_LABEL := "g"],
      Spec([], Some("uuid"), None, [], None), status)
  }

  /** The VM pinned to the same node. */
  function VmB(version: nat, status: Option<Status>): Vm {
    Vm(B, version, false, [], map[], map[ANTI_AFFINITY_LABEL := "g"], Spec([], Some("uuid"), Some("n1"), [], None),
      status)
  }

  function At(rev: nat, a: Vm, b: Vm, nodes: seq<Node>, domains: map<Domain, set<string>>,
              copies: map<nat, Vm>, section: Option<Section>): State {
    State(World(Cluster(rev, map[A := a, B := b], nodes, map[]), domains), copies, section)
  }

  function Finalizer(): string {
    FinalizerName(FINALIZER)
  }

  function Running(): map<Domain, set<string>> {
    map[Domain(A, "n1") := {}]
  }

  function Created(): State {
    At(2, VmA(1, [], None), VmB(2, None), [N1], map[], map[], None)
  }

  lemma CreatedIsReachable()
    ensures Reachable(Created())
  {
    var s0 := State(World(Cluster(0, map[], [], map[]), map[]), map[], None);
    assert Start(s0) && Run(s0, []) && After(s0, []) == s0;
    NextReachable(s0, NodesChange([N1]));
    var s1 := Apply(s0, NodesChange([N1]));
    NextReachable(s1, UserCreates(VmA(0, [], None)));
    var s2 := Apply(s1, UserCreates(VmA(0, [], None)));
    NextReachable(s2, UserCreates(VmB(0, None)));
    var s3 := Apply(s2, UserCreates(VmB(0, None)));
    assert s3.w.cluster.vms == Created().w.cluster.vms;
  }

  lemma ReadReachable(s: State, pid: nat, k: Key)
    requires Reachable(s) && s.section.None? && k in s.w.cluster.vms
    ensures Reachable(State(s.w, s.copies[pid := s.w.cluster.vms[k]], None))
  {
    NextReachable(s, ReadCopy(pid, k));
    assert Apply(s, ReadCopy(pid, k)) == State(s.w, s.copies[pid := s.w.cluster.vms[k]], None);
  }

  lemma InitialReachable(s: State, pid: nat, c: Cluster)
    requires Reachable(s) && s.section.None? && pid in s.copies && s.copies[pid].status.None?
    requires c == PutStatus(s.w.cluster, s.copies[pid], V.InitialStatus(s.copies[pid])).cluster
    ensures Reachable(State(World(c, s.w.domains), s.copies, None))
  {
    NextReachable(s, WriteStatus(pid, Initial));
    assert Apply(s, WriteStatus(pid, Initial)) == State(World(c, s.w.domains), s.copies, None);
  }

  /** A process reads an object, writes its first status and reads it again. */
  lemma InitializedReachable(s: State, pid: nat, k: Key, c: Cluster)
    requires Reachable(s) && s.section.None? && k in s.w.cluster.vms && s.w.cluster.vms[k].status.None?
    requires c == PutStatus(s.w.cluster, s.w.cluster.vms[k], V.InitialStatus(s.w.cluster.vms[k])).cluster && k in c.vms
    ensures Reachable(State(World(c, s.w.domains), s.copies[pid := s.w.cluster.vms[k]][pid := c.vms[k]], None))
  {
    ReadReachable(s, pid, k);
    var s1 := State(s.w, s.copies[pid := s.w.cluster.vms[k]], None);
    InitialReachable(s1, pid, c);
    ReadReachable(State(World(c, s.w.domains), s1.copies, None), pid, k);
  }

  /** A pass of the process enters the section, decides and writes. */
  lemma SectionReachable(s: State, pid: nat, draw: nat, next: State)
    requires Reachable(s) && s.section.None? && Active(s, pid)
    requires Decide(s.w.cluster, s.copies[pid], draw).Some?
    requires var node := Decide(s.w.cluster, s.copies[pid], draw).value;
             next == State(World(PutStatus(s.w.cluster, s.copies[pid],
               V.ScheduledStatus(s.copies[pid], node)).cluster, s.w.domains),
                           s.copies, None)
    ensures Reachable(next)
  {
    NextReachable(s, EnterSection(pid));
    var s1 := Apply(s, EnterSection(pid));
    NextReachable(s1, DecideNode(draw));
    var s2 := Apply(s1, DecideNode(draw));
    NextReachable(s2, WriteNode);
    assert Apply(s2, WriteNode) == next;
  }

  function InitialA(): Vm {
    VmA(3, [], Some(Placed("ns-a", None)))
  }

  function PlacedA(): Vm {
    VmA(4, [], Some(Placed("ns-a", Some("n1"))))
  }

  function InitializedA(): State {
    At(3, InitialA(), VmB(2, None), [N1], map[], map[0 := InitialA()], None)
  }

  lemma AIsInitialized()
    ensures PutStatus(Created().w.cluster, VmA(1, [], None), V.InitialStatus(VmA(1, [], None))).cluster ==
            InitializedA().w.cluster
  {
    assert Prefixed(A) == "ns-a";
    var c := PutStatus(Created().w.cluster, VmA(1, [], None), V.InitialStatus(VmA(1, [], None))).cluster;
    assert c.vms == InitializedA().w.cluster.vms;
  }

  lemma InitializedAIsReachable()
    ensures Reachable(InitializedA())
  {
    CreatedIsReachable();
    AIsInitialized();
    assert map[][0 := VmA(1, [], None)][0 := InitialA()] == InitializedA().copies;
    InitializedReachable(Created(), 0, A, InitializedA().w.cluster);
  }

  function ScheduledA(): State {
    At(4, PlacedA(), VmB(2, None), [N1], map[], map[0 := InitialA()], None)
  }

  /** With one open node the decision is that node. */
  lemma OnlyNode(draw: nat)
    ensures Decide(InitializedA().w.cluster, InitialA(), draw) == Some("n1")
  {
    var c := InitializedA().w.cluster;
    assert "n1" !in OccupiedNodes(c, "g");
    assert N1 in c.nodes && Eligible(c, InitialA(), false, N1);
    assert Choose(c, InitialA(), false, draw).Some?;
  }

  lemma AIsWritten()
    ensures PutStatus(InitializedA().w.cluster, InitialA(), V.ScheduledStatus(InitialA(), "n1")).cluster ==
            ScheduledA().w.cluster
  {
    var c := PutStatus(InitializedA().w.cluster, InitialA(), V.ScheduledStatus(InitialA(), "n1")).cluster;
    assert c.vms == ScheduledA().w.cluster.vms;
  }

  lemma ScheduledAIsReachable()
    ensures Reachable(ScheduledA())
  {
    InitializedAIsReachable();
    OnlyNode(0);
    AIsWritten();
    SectionReachable(InitializedA(), 0, 0, ScheduledA());
  }

  function StartedA(): State {
    At(5, VmA(5, [Finalizer()], PlacedA().status), VmB(2, None), [N1], Running(), map[0 := InitialA()], None)
  }

  /** The host adds its finalizer and starts the domain; its status write finds a newer version. */
  lemma HostStartsA()
    ensures ReconcileOutcome(ScheduledA().w, PlacedA(), "n1", true).world == StartedA().w
  {
    var w := ScheduledA().w;
    assert Images(PlacedA()) == {};
    assert WithFinalizer(PlacedA(), Finalizer()).finalizers == [Finalizer()];
    var c := EnsureFinalizerResponse(w.cluster, PlacedA());
    assert c.cluster.vms == StartedA().w.cluster.vms;
    assert !Locked(w.domains, {});
    assert map[][Domain(A, "n1") := {}] == Running();
  }

  lemma StartedAIsReachable()
    ensures Reachable(StartedA())
  {
    ScheduledAIsReachable();
    HostStartsA();
    NextReachable(ScheduledA(), HostReconciles("n1", A, true));
    assert Apply(ScheduledA(), HostReconciles("n1", A, true)) == StartedA();
  }

  function InitialB(): Vm {
    VmB(6, Some(Placed("ns-b", None)))
  }

  function InitializedB(): State {
    At(6, VmA(5, [Finalizer()], PlacedA().status), InitialB(), [N1], Running(),
      map[0 := InitialA(), 1 := InitialB()], None)
  }

  lemma BIsInitialized()
    ensures PutStatus(StartedA().w.cluster, VmB(2, None), V.InitialStatus(VmB(2, None))).cluster ==
            InitializedB().w.cluster
  {
    assert Prefixed(B) == "ns-b";
    var c := PutStatus(StartedA().w.cluster, VmB(2, None), V.InitialStatus(VmB(2, None))).cluster;
    assert c.vms == InitializedB().w.cluster.vms;
  }

  lemma InitializedBIsReachable()
    ensures Reachable(InitializedB())
  {
    StartedAIsReachable();
    BIsInitialized();
    assert map[0 := InitialA()][1 := VmB(2, None)][1 := InitialB()] == InitializedB().copies;
    InitializedReachable(StartedA(), 1, B, InitializedB().w.cluster);
  }

  function ScheduledB(): State {
    At(7, VmA(5, [Finalizer()], PlacedA().status), VmB(7, Some(Placed("ns-b", Some("n1")))), [N1], Running(),
       map[0 := InitialA(), 1 := InitialB()], None)
  }

  lemma BIsWritten()
    ensures Decide(InitializedB().w.cluster, InitialB(), 0) == Some("n1")
    ensures PutStatus(InitializedB().w.cluster, InitialB(), V.ScheduledStatus(InitialB(), "n1")).cluster ==
            ScheduledB().w.cluster
  {
    assert N1 in InitializedB().w.cluster.nodes;
    var c := PutStatus(InitializedB().w.cluster, InitialB(), V.ScheduledStatus(InitialB(), "n1")).cluster;
    assert c.vms == ScheduledB().w.cluster.vms;
  }

  lemma ScheduledBIsReachable()
    ensures Reachable(ScheduledB())
  {
    InitializedBIsReachable();
    BIsWritten();
    SectionReachable(InitializedB(), 1, 0, ScheduledB());
  }

  function CurrentA(): Vm {
    VmA(5, [Finalizer()], PlacedA().status)
  }

  function Joined(): State {
    At(7, CurrentA(), VmB(7, Some(Placed("ns-b", Some("n1")))), [N1, N2], Running(),
      map[0 := InitialA(), 1 := InitialB()], None)
  }

  /** A second node is there, and a pass has read the VM that runs beside its group's other member. */
  function Crowded(): State {
    At(7, CurrentA(), VmB(7, Some(Placed("ns-b", Some("n1")))), [N1, N2], Running(),
      map[0 := CurrentA(), 1 := InitialB()], None)
  }

  lemma CrowdedIsReachable()
    ensures Reachable(Crowded())
  {
    ScheduledBIsReachable();
    NextReachable(ScheduledB(), NodesChange([N1, N2]));
    assert Apply(ScheduledB(), NodesChange([N1, N2])) == Joined();
    ReadReachable(Joined(), 0, A);
    assert Joined().copies[0 := CurrentA()] == Crowded().copies;
  }

  lemma CrowdedIsUncompliant()
    ensures IsUncompliant(Crowded().w.cluster, CurrentA()) == Ok(true) && !MigrationRequested(CurrentA())
  {
    var c := Crowded().w.cluster;
    assert Prefixed(c.vms[B].key) == "ns-b" && Prefixed(CurrentA().key) == "ns-a";
    assert "ns-b"[3] != "ns-a"[3];
    assert c.vms[B].AssignedNode() == CurrentA().AssignedNode() && Group(c.vms[B]) == Group(CurrentA());
  }

  lemma CrowdedMoves(draw: nat)
    ensures Decide(Crowded().w.cluster, CurrentA(), draw) == Some("n2")
  {
    var c := Crowded().w.cluster;
    assert c.vms[A].AssignedNode() == Some("n1");
    assert "n1" in OccupiedNodes(c, "g") && "n2" !in OccupiedNodes(c, "g");
    assert Eligible(c, CurrentA(), false, N2);
    assert Choose(c, CurrentA(), false, draw).Some?;
    var n :| n in c.nodes && Some(n.name) == Choose(c, CurrentA(), false, draw) && Eligible(c, CurrentA(), false, n);
    assert n == N1 || n == N2;
  }

  /** One node runs the VM, so the state is sound. */
  lemma CrowdedIsSound()
    ensures Inv(Crowded()) && RunnersSound(Crowded().w)
  {
    CrowdedIsReachable();
    ReachableInv(Crowded());
    assert Images(CurrentA()) == {};
  }

  lemma RunFrom(s: State, e: Step, rest: seq<Step>)
    requires Enabled(s, e) && Run(Apply(s, e), rest)
    ensures Run(s, [e] + rest) && After(s, [e] + rest) == After(Apply(s, e), rest)
  {
    assert ([e] + rest)[1..] == rest;
  }

  lemma ThreeFrom(s: State, a: Step, b: Step, c: Step, rest: seq<Step>)
    requires Enabled(s, a) && Enabled(Apply(s, a), b) && Enabled(Apply(Apply(s, a), b), c)
    requires Run(Apply(Apply(Apply(s, a), b), c), rest)
    ensures Run(s, [a] + ([b] + ([c] + rest)))
    ensures After(s, [a] + ([b] + ([c] + rest))) == After(Apply(Apply(Apply(s, a), b), c), rest)
  {
    RunFrom(Apply(Apply(s, a), b), c, rest);
    RunFrom(Apply(s, a), b, [c] + rest);
    RunFrom(s, a, [b] + ([c] + rest));
  }

  /** The pass has decided to move the VM. */
  lemma CrowdedDecides() returns (s: State)
    ensures Enabled(Crowded(), EnterSection(0))
    ensures Enabled(Apply(Crowded(), EnterSection(0)), DecideNode(0))
    ensures s == Apply(Apply(Crowded(), EnterSection(0)), DecideNode(0))
    ensures Inv(s) && RunnersSound(s.w) && s.w == Crowded().w && s.copies == Crowded().copies
    ensures s.section.Some? && s.section.value.pid == 0 && s.section.value.choice == Some("n2")
  {
    CrowdedIsSound();
    CrowdedMoves(0);
    s := Apply(Apply(Crowded(), EnterSection(0)), DecideNode(0));
    InvKept(Crowded(), EnterSection(0));
    InvKept(Apply(Crowded(), EnterSection(0)), DecideNode(0));
  }

  lemma CrowdedIsUnguarded(s: State)
    requires Enabled(s, WriteNode) && s.w == Crowded().w && s.copies == Crowded().copies
    requires s.section.value.pid == 0 && s.section.value.choice == Some("n2")
    ensures !Guarded(s, WriteNode)
  {
    assert Effective(s) && Images(CurrentA()) == {} && Domain(A, "n1") in s.w.domains;
  }

  /** Its write has a continuation that starts the domain on the second node. */
  lemma DecidedStartsTwice() returns (s: State, later: seq<Step>)
    ensures Enabled(Crowded(), EnterSection(0))
    ensures Enabled(Apply(Crowded(), EnterSection(0)), DecideNode(0))
    ensures s == Apply(Apply(Crowded(), EnterSection(0)), DecideNode(0))
    ensures Enabled(s, WriteNode) && Run(Apply(s, WriteNode), later)
    ensures !AtMostOneHost(After(Apply(s, WriteNode), later).w.domains)
  {
    s := CrowdedDecides();
    CrowdedIsUnguarded(s);
    later := UnguardedStartsTwice(s, WriteNode);
  }

  /**
    A reschedule for anti-affinity alone sets no pending migration: from a state that the cluster can
    reach, over a VM without Ceph volumes, it ends with two hosts running the same VM.
   */
  lemma AntiAffinityStartsTwice() returns (later: seq<Step>)
    ensures Reachable(Crowded()) && AtMostOneHost(Crowded().w.domains)
    ensures IsUncompliant(Crowded().w.cluster, Crowded().copies[0]) == Ok(true)
            && !MigrationRequested(Crowded().copies[0])
    ensures Run(Crowded(), [EnterSection(0)] + ([DecideNode(0)] + ([WriteNode] + later)))
    ensures !AtMostOneHost(After(Crowded(), [EnterSection(0)] + ([DecideNode(0)] + ([WriteNode] + later))).w.domains)
  {
    CrowdedIsReachable();
    CrowdedIsUncompliant();
    var s, steps := DecidedStartsTwice();
    later := steps;
    ThreeFrom(Crowded(), EnterSection(0), DecideNode(0), WriteNode, later);
  }
}
