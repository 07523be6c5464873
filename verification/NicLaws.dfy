/**
  What the NIC merge stores, by the fields of the spec, the previous status and the networks: which MAC
  addresses are generated and when two of them agree, what an OVN or an EVPN network adds, and when an unknown
  network stops it.
 */
module NicLaws {
  import opened Prelude
  import opened Kube
  import opened Nics
  import V = VmController

  /** The network of a NIC, or else its bridge. */
  function Target(nic: Nic): string
    requires nic.name.Some? || nic.bridge.Some?
  {
    if nic.name.Some? then nic.name.value else nic.bridge.value
  }

  /** A previous NIC of the same network, or for a NIC without a network on the same bridge. */
  predicate Before(n: Nic, nic: Nic) {
    if nic.name.Some? then n.name == nic.name else n.bridge == nic.bridge
  }

  ghost predicate Injective(hash: (string, string, nat) -> string) {
    forall a, b, i, a', b', i' :: hash(a, b, i) == hash(a', b', i') ==> a == a' && b == b' && i == i'
  }

  /** The i-th NIC has no MAC of its own, and no NIC before it has one. */
  predicate NeedsMac(prev: seq<Nic>, specs: seq<Nic>, i: nat) {
    i < |specs| && specs[i].mac.None? && forall n :: n in prev && Before(n, specs[i]) ==> n.mac.None?
  }

  /** The MAC of such a NIC is the hash of the VM's name, the NIC's target and its index as a byte. */
  lemma GeneratedMac(env: Env, prev: seq<Nic>, specs: seq<Nic>, i: nat)
    requires AllTargets(specs) && AllKnown(env, specs) && NamesStay(prev, specs) && NeedsMac(prev, specs, i)
    ensures specs[i] in specs && Fill(env, prev, specs).Ok? && |Fill(env, prev, specs).value| == |specs|
    ensures Fill(env, prev, specs).value[i].mac == Some(env.hashMac(env.vmName, Target(specs[i]), i % 256))
  {
    assert specs[i] in specs;
    NamesStayIsExact(env, prev, specs);
    MergedFields(env, prev, specs[i], i);
  }

  /** Two generated MACs agree exactly if the VMs, the targets and the indexes as bytes do. */
  lemma GeneratedMacsAgree(env: Env, prev: seq<Nic>, specs: seq<Nic>, i: nat,
      env': Env, prev': seq<Nic>, specs': seq<Nic>, j: nat)
    requires AllTargets(specs) && AllKnown(env, specs) && NamesStay(prev, specs) && NeedsMac(prev, specs, i)
    requires AllTargets(specs') && AllKnown(env', specs') && NamesStay(prev', specs') && NeedsMac(prev', specs', j)
    requires env'.hashMac == env.hashMac && Injective(env.hashMac)
    ensures specs[i] in specs && specs'[j] in specs'
    ensures Fill(env, prev, specs).Ok? && |Fill(env, prev, specs).value| == |specs|
    ensures Fill(env', prev', specs').Ok? && |Fill(env', prev', specs').value| == |specs'|
    ensures Fill(env, prev, specs).value[i].mac == Fill(env', prev', specs').value[j].mac <==>
              env.vmName == env'.vmName && Target(specs[i]) == Target(specs'[j]) && i % 256 == j % 256
  {
    GeneratedMac(env, prev, specs, i);
    GeneratedMac(env', prev', specs', j);
  }

  /** The networks of the spec exist in the VM's namespace. */
  predicate NetworksExist(c: Cluster, vm: Vm) {
    forall n :: n in vm.spec.networks && n.name.Some? ==> Key(vm.key.namespace, n.name.value) in c.networks
  }

  lemma KnownIsExact(c: Cluster, vm: Vm, draws: V.Draws)
    ensures AllKnown(V.EnvOf(c, vm, draws), vm.spec.networks) <==> NetworksExist(c, vm)
  {
    forall n | n in vm.spec.networks
      ensures NetworkKnown(V.EnvOf(c, vm, draws), n) <==>
                (n.name.Some? ==> Key(vm.key.namespace, n.name.value) in c.networks)
    {
      if n.name.Some? && n.name.value in V.NamespaceNetworks(c, vm.key.namespace) {
        var k :| k in c.networks && k.namespace == vm.key.namespace && k.name == n.name.value;
        assert k == Key(vm.key.namespace, n.name.value);
      }
    }
  }

  /** The network a name stands for is the one of the VM's namespace. */
  lemma NetworkIs(c: Cluster, vm: Vm, draws: V.Draws, name: string)
    requires Key(vm.key.namespace, name) in c.networks
    ensures name in V.EnvOf(c, vm, draws).networks
    ensures V.EnvOf(c, vm, draws).networks[name] == c.networks[Key(vm.key.namespace, name)]
  {
    assert Key(vm.key.namespace, name).name == name;
  }

  /** The NIC part of the pass fails, with the store as it was, exactly if a network of the spec is missing. */
  lemma UnknownNetworkFails(c: Cluster, k: Key, draws: V.Draws)
    requires Versioned(c) && k in c.vms && c.vms[k].status.Some? && AllTargets(c.vms[k].spec.networks)
    ensures V.FillNicsResponse(c, c.vms[k], draws) == Response(c, Some(NotFound)) <==> !NetworksExist(c, c.vms[k])
  {
    KnownIsExact(c, c.vms[k], draws);
  }

  /** A stored VM whose NICs can be merged with none dropped. */
  predicate Mergeable(c: Cluster, k: Key) {
    && k in c.vms && c.vms[k].status.Some? && AllTargets(c.vms[k].spec.networks) && NetworksExist(c, c.vms[k])
    && NamesStay(c.vms[k].status.value.networks, c.vms[k].spec.networks)
  }

  /** What the NIC part of a pass stores. */
  lemma StoredNics(c: Cluster, k: Key, draws: V.Draws) returns (list: seq<Nic>)
    requires Versioned(c) && Mergeable(c, k)
    ensures Fill(V.EnvOf(c, c.vms[k], draws), c.vms[k].status.value.networks, c.vms[k].spec.networks) == Ok(list)
    ensures |list| == |c.vms[k].spec.networks|
    ensures var c' := V.FillNicsResponse(c, c.vms[k], draws).cluster;
            k in c'.vms && c'.vms[k].status == Some(c.vms[k].status.value.(networks := list))
  {
    KnownIsExact(c, c.vms[k], draws);
    NamesStayIsExact(V.EnvOf(c, c.vms[k], draws), c.vms[k].status.value.networks, c.vms[k].spec.networks);
    list := Fill(V.EnvOf(c, c.vms[k], draws), c.vms[k].status.value.networks, c.vms[k].spec.networks).value;
  }

  /** The MAC that the pass stores for such a NIC. */
  ghost predicate StoresMac(c: Cluster, k: Key, draws: V.Draws, i: nat, mac: string)
    requires Mergeable(c, k)
  {
    var c' := V.FillNicsResponse(c, c.vms[k], draws).cluster;
    && k in c'.vms && c'.vms[k].status.Some? && i < |c'.vms[k].status.value.networks|
    && c'.vms[k].status.value.networks[i].mac == Some(mac)
  }

  lemma StoredMac(c: Cluster, k: Key, draws: V.Draws, i: nat)
    requires Versioned(c) && Mergeable(c, k) && NeedsMac(c.vms[k].status.value.networks, c.vms[k].spec.networks, i)
    ensures c.vms[k].spec.networks[i] in c.vms[k].spec.networks
    ensures StoresMac(c, k, draws, i,
                      draws.hashMac(k.namespace + "-" + k.name, Target(c.vms[k].spec.networks[i]), i % 256))
  {
    var list := StoredNics(c, k, draws);
    KnownIsExact(c, c.vms[k], draws);
    GeneratedMac(V.EnvOf(c, c.vms[k], draws), c.vms[k].status.value.networks, c.vms[k].spec.networks, i);
  }

  /**
    Main result: the MACs that passes store for NICs of two VMs, neither with a MAC before, agree exactly if the
    prefixed names of the VMs, the targets and the indexes as bytes do. So two VMs whose prefixed names differ
    get different addresses.
   */
  lemma StoredMacsAgree(c: Cluster, k: Key, i: nat, c': Cluster, k': Key, j: nat, draws: V.Draws, draws': V.Draws)
    requires Versioned(c) && Mergeable(c, k) && NeedsMac(c.vms[k].status.value.networks, c.vms[k].spec.networks, i)
    requires Versioned(c') && Mergeable(c', k')
    requires NeedsMac(c'.vms[k'].status.value.networks, c'.vms[k'].spec.networks, j)
    requires draws'.hashMac == draws.hashMac && Injective(draws.hashMac)
    ensures c.vms[k].spec.networks[i] in c.vms[k].spec.networks
    ensures c'.vms[k'].spec.networks[j] in c'.vms[k'].spec.networks
    ensures (exists mac :: StoresMac(c, k, draws, i, mac) && StoresMac(c', k', draws', j, mac)) <==>
              && k.namespace + "-" + k.name == k'.namespace + "-" + k'.name
              && Target(c.vms[k].spec.networks[i]) == Target(c'.vms[k'].spec.networks[j]) && i % 256 == j % 256
  {
    StoredMac(c, k, draws, i);
    StoredMac(c', k', draws', j);
  }

  /** A hash of the two texts put together, and of the index. */
  ghost predicate HashesTogether(hash: (string, string, nat) -> string) {
    forall a, b, i, a', b', i' :: hash(a, b, i) == hash(a', b', i') <==> a + b == a' + b' && i == i'
  }

  lemma SameEnd(a: string, b: string, t: string)
    ensures a + t == b + t <==> a == b
  {
    if a + t == b + t {
      assert (a + t)[..|a|] == a && (b + t)[..|b|] == b;
    }
  }

  /** As the name of the VM and the target are hashed one after the other, only the text they make together counts. */
  lemma TextMacsAgree(c: Cluster, k: Key, i: nat, c': Cluster, k': Key, j: nat, draws: V.Draws, draws': V.Draws)
    requires Versioned(c) && Mergeable(c, k) && NeedsMac(c.vms[k].status.value.networks, c.vms[k].spec.networks, i)
    requires Versioned(c') && Mergeable(c', k')
    requires NeedsMac(c'.vms[k'].status.value.networks, c'.vms[k'].spec.networks, j)
    requires draws'.hashMac == draws.hashMac && HashesTogether(draws.hashMac)
    ensures c.vms[k].spec.networks[i] in c.vms[k].spec.networks
    ensures c'.vms[k'].spec.networks[j] in c'.vms[k'].spec.networks
    ensures var t, t' := Target(c.vms[k].spec.networks[i]), Target(c'.vms[k'].spec.networks[j]);
            && ((exists mac :: StoresMac(c, k, draws, i, mac) && StoresMac(c', k', draws', j, mac)) <==>
                  k.namespace + "-" + k.name + t == k'.namespace + "-" + k'.name + t' && i % 256 == j % 256)
            && (t == t' ==>
                  ((exists mac :: StoresMac(c, k, draws, i, mac) && StoresMac(c', k', draws', j, mac)) <==>
                     k.namespace + "-" + k.name == k'.namespace + "-" + k'.name && i % 256 == j % 256))
  {
    StoredMac(c, k, draws, i);
    StoredMac(c', k', draws', j);
    SameEnd(k.namespace + "-" + k.name, k'.namespace + "-" + k'.name, Target(c.vms[k].spec.networks[i]));
  }

  /** Two VMs on different networks whose generated MACs agree under every such hash. */
  lemma MacTextsCollide(hash: (string, string, nat) -> string, i: nat)
    requires HashesTogether(hash)
    ensures Prefixed(Key("ns", "a")) != Prefixed(Key("ns", "ab"))
    ensures hash(Prefixed(Key("ns", "a")), "bc", i) == hash(Prefixed(Key("ns", "ab")), "c", i)
  {
    assert Prefixed(Key("ns", "a")) + "bc" == "ns-abc" == Prefixed(Key("ns", "ab")) + "c";
  }

  /**
    What a network adds to a NIC that names it. On OVN, the default type, the NIC has the port id of its spec, the
    one it had, or a new one. On EVPN it has the bridge of the network, and its id as the VLAN in 16 bits.
   */
  lemma NetworkAdds(env: Env, prev: seq<Nic>, specs: seq<Nic>, i: nat, name: string)
    requires AllTargets(specs) && AllKnown(env, specs) && NamesStay(prev, specs)
    requires i < |specs| && specs[i].name == Some(name) && name in env.networks
    ensures Fill(env, prev, specs).Ok? && |Fill(env, prev, specs).value| == |specs|
    ensures var n, net := Fill(env, prev, specs).value[i], env.networks[name];
            && n.name == Some(name) && n.queues == specs[i].queues
            && (specs[i].mac.Some? ==> n.mac == specs[i].mac)
            && (net.networkType != Some(Evpn) ==>
                  && n.ovnId.Some? && (specs[i].ovnId.Some? ==> n.ovnId == specs[i].ovnId)
                  && (specs[i].ovnId.None? && (forall p :: p in prev ==> p.name != Some(name)) ==>
                        n.ovnId == Some(env.uuid(i))))
            && (net.networkType == Some(Evpn) ==>
                  && n.bridge == net.bridge
                  && n.untaggedVlan == if net.networkId.Some? then Some(net.networkId.value % 65536) else None)
  {
    assert specs[i] in specs;
    NamesStayIsExact(env, prev, specs);
    MergedFields(env, prev, specs[i], i);
  }

  /** A NIC keeps what the first previous NIC of its target has, where its spec asks for nothing else. */
  lemma PreviousIsKept(env: Env, prev: seq<Nic>, specs: seq<Nic>, i: nat, p: nat)
    requires AllTargets(specs) && AllKnown(env, specs) && NamesStay(prev, specs) && i < |specs| && p < |prev|
    requires Before(prev[p], specs[i]) && forall q :: 0 <= q < p ==> !Before(prev[q], specs[i])
    ensures Fill(env, prev, specs).Ok? && |Fill(env, prev, specs).value| == |specs|
    ensures var n := Fill(env, prev, specs).value[i];
            && n.name == prev[p].name && n.taggedVlans == prev[p].taggedVlans
            && (specs[i].mac.None? && prev[p].mac.Some? ==> n.mac == prev[p].mac)
            && (specs[i].ovnId.None? && prev[p].ovnId.Some? ==> n.ovnId == prev[p].ovnId)
  {
    assert specs[i] in specs;
    NamesStayIsExact(env, prev, specs);
    MergedFields(env, prev, specs[i], i);
    var q := FindMatchingIsFirst(prev, specs[i]);
    assert Before(prev[q], specs[i]);
    assert p == q;
  }
}
