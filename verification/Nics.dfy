/**
  The NIC merge of `fill_nics`: every NIC of the spec is looked up in the previous status by its
  target (network name, or bridge when it has no name) and completed with a MAC address, an OVN
  port id or the EVPN bridge and VLAN.
 */
module Nics {
  import opened Prelude
  import opened Kube

  /**
    What the merge takes from outside: the VM's prefixed name, the networks of its namespace,
    the hash behind generated MAC addresses and the supply of generated port ids.
   */
  datatype Env = Env(
    vmName: string,
    networks: map<string, Network>,
    hashMac: (string, string, nat) -> string,
    uuid: nat -> string)

  predicate HasTarget(nic: Nic) {
    nic.name.Some? || nic.bridge.Some?
  }

  /** The test of `find_matching_network`. */
  predicate Matches(candidate: Nic, nic: Nic) {
    if nic.name.Some? then candidate.name == nic.name else candidate.bridge == nic.bridge
  }

  /** The first candidate that matches. */
  function FindMatching(list: seq<Nic>, nic: Nic): (r: Option<Nic>)
    requires HasTarget(nic)
    ensures r.Some? ==> r.value in list && Matches(r.value, nic)
    ensures r == None ==> forall n :: n in list ==> !Matches(n, nic)
  {
    if list == [] then None
    else if Matches(list[0], nic) then Some(list[0])
    else FindMatching(list[1..], nic)
  }

  function NetworkOfType(n: Network): NetworkType {
    match n.networkType
    case None => Ovn
    case Some(t) => t
  }

  /** `generate_mac_address`: the index is cast to `u8` */
  function GenerateMac(env: Env, nic: Nic, index: nat): string
    requires HasTarget(nic)
  {
    env.hashMac(env.vmName, if nic.name.Some? then nic.name.value else nic.bridge.value, index % 0x100)
  }

  predicate NetworkKnown(env: Env, nic: Nic) {
    nic.name.Some? ==> nic.name.value in env.networks
  }

  /** One iteration of the loop, for a NIC whose network exists. */
  function MergeOne(env: Env, prev: seq<Nic>, nic: Nic, index: nat): (r: Nic)
    requires HasTarget(nic) && NetworkKnown(env, nic)
    ensures Matches(r, nic) && HasTarget(r)
  {
    var found := FindMatching(prev, nic);
    var start := if found.Some? then found.value else Nic(nic.name, nic.bridge, None, None, None, None, None);
    var queued := start.(queues := nic.queues);
    var addressed :=
      if nic.mac.Some? then queued.(mac := nic.mac)
      else if queued.mac.None? then queued.(mac := Some(GenerateMac(env, nic, index)))
      else queued;
    if nic.name.None? then
      addressed
    else
      var network := env.networks[nic.name.value];
      match NetworkOfType(network)
      case Ovn =>
        if nic.ovnId.Some? then addressed.(ovnId := nic.ovnId)
        else if addressed.ovnId.None? then addressed.(ovnId := Some(env.uuid(index)))
        else addressed
      case Evpn =>
        addressed.(bridge := network.bridge,
                   untaggedVlan := match network.networkId
                                   case Some(id) => Some(id % 0x1_0000)
                                   case None => None)
  }

  predicate AllTargets(specs: seq<Nic>) {
    forall n :: n in specs ==> HasTarget(n)
  }

  predicate AllKnown(env: Env, specs: seq<Nic>) {
    forall n :: n in specs ==> NetworkKnown(env, n)
  }

  function MergeAll(env: Env, prev: seq<Nic>, specs: seq<Nic>): (r: seq<Nic>)
    requires AllTargets(specs) && AllKnown(env, specs)
  {
    seq(|specs|, i requires 0 <= i < |specs| => MergeOne(env, prev, specs[i], i))
  }

  predicate InSpec(specs: seq<Nic>, nic: Nic) {
    HasTarget(nic) && FindMatching(specs, nic).Some?
  }

  /** The list `fill_nics` writes to the status; an unknown network aborts it. */
  function Fill(env: Env, prev: seq<Nic>, specs: seq<Nic>): Result<seq<Nic>>
    requires AllTargets(specs)
  {
    if AllKnown(env, specs)
    then Ok(Retain(MergeAll(env, prev, specs), n => InSpec(specs, n)))
    else Err(NotFound)
  }

  /** The final `retain`: a merged NIC stays if some NIC of the spec matches it. */
  method RetainListed(merged: seq<Nic>, specs: seq<Nic>) returns (kept: seq<Nic>)
    requires forall n :: n in merged ==> HasTarget(n)
    ensures kept == Retain(merged, n => InSpec(specs, n))
  {
    kept := [];
    for k := 0 to |merged|
      invariant kept == Retain(merged[..k], n => InSpec(specs, n))
    {
      assert merged[..k + 1] == merged[..k] + [merged[k]];
      RetainAppend(merged[..k], [merged[k]], n => InSpec(specs, n));
      if FindMatching(specs, merged[k]).Some? {
        kept := kept + [merged[k]];
      }
    }
    assert merged[..|merged|] == merged;
  }

  /** The loop of `fill_nics` and its final `retain`. */
  method MergeNics(env: Env, prev: seq<Nic>, specs: seq<Nic>) returns (r: Result<seq<Nic>>)
    requires AllTargets(specs)
    ensures r == Fill(env, prev, specs)
  {
    var merged: seq<Nic> := [];
    for index := 0 to |specs|
      invariant AllKnown(env, specs[..index])
      invariant |merged| == index
      invariant forall i :: 0 <= i < index ==> merged[i] == MergeOne(env, prev, specs[i], i)
    {
      var nic := specs[index];
      var found := FindMatching(prev, nic);
      var status := if found.Some? then found.value else Nic(nic.name, nic.bridge, None, None, None, None, None);
      status := status.(queues := nic.queues);
      if nic.mac.Some? {
        status := status.(mac := nic.mac);
      } else if status.mac.None? {
        status := status.(mac := Some(GenerateMac(env, nic, index)));
      }
      if nic.name.Some? {
        if nic.name.value !in env.networks {
          assert nic in specs && !NetworkKnown(env, nic);
          return Err(NotFound);
        }
        var network := env.networks[nic.name.value];
        match NetworkOfType(network) {
          case Ovn =>
            if nic.ovnId.Some? {
              status := status.(ovnId := nic.ovnId);
            } else if status.ovnId.None? {
              status := status.(ovnId := Some(env.uuid(index)));
            }
          case Evpn =>
            status := status.(bridge := network.bridge);
            status := status.(untaggedVlan := match network.networkId
                                              case Some(id) => Some(id % 0x1_0000)
                                              case None => None);
        }
      }
      assert specs[..index + 1] == specs[..index] + [nic];
      merged := merged + [status];
    }
    assert specs[..|specs|] == specs;
    assert merged == MergeAll(env, prev, specs);
    var kept := RetainListed(merged, specs);
    r := Ok(kept);
  }

  /** Both NICs name the same network, or both only the same bridge. */
  predicate SameTarget(a: Nic, b: Nic) {
    a.name == b.name && (a.name.None? ==> a.bridge == b.bridge)
  }

  ghost predicate DistinctTargets(specs: seq<Nic>) {
    forall i, j :: 0 <= i < j < |specs| ==> !SameTarget(specs[i], specs[j])
  }

  /** No named NIC of `list` sits on the bridge of a bridge-only NIC of `specs`. */
  ghost predicate NoAlias(specs: seq<Nic>, list: seq<Nic>) {
    forall s, n :: s in specs && n in list && s.name.None? && n.name.Some? ==> n.bridge != s.bridge
  }

  /** No EVPN network of a NIC of `named` uses the bridge of a bridge-only NIC of `specs`. */
  ghost predicate EvpnApart(env: Env, named: seq<Nic>, specs: seq<Nic>) {
    forall s, n :: s in specs && n in named && s.name.None? && n.name.Some? && n.name.value in env.networks ==>
                     env.networks[n.name.value].bridge != s.bridge
  }

  ghost predicate Separate(env: Env, named: seq<Nic>, specs: seq<Nic>) {
    NoAlias(specs, named) && EvpnApart(env, named, specs)
  }

  /** A merged NIC keeps clear of bridges its spec and its previous status keep clear of. */
  lemma MergeKeepsNoAlias(env: Env, prev: seq<Nic>, merged: seq<Nic>, specs: seq<Nic>)
    requires AllTargets(merged) && AllKnown(env, merged)
    requires NoAlias(specs, prev) && Separate(env, merged, specs)
    ensures NoAlias(specs, MergeAll(env, prev, merged))
    ensures NoAlias(specs, Fill(env, prev, merged).value)
  {
    var out := MergeAll(env, prev, merged);
    forall s, n | s in specs && n in out && s.name.None? && n.name.Some?
      ensures n.bridge != s.bridge
    {
      var i :| 0 <= i < |out| && out[i] == n;
      assert merged[i] in merged;
    }
  }

  lemma LinesUpAt(env: Env, prev: seq<Nic>, specs: seq<Nic>, i: nat)
    requires AllTargets(specs) && AllKnown(env, specs) && NoAlias(specs, prev) && i < |specs|
    ensures InSpec(specs, MergeAll(env, prev, specs)[i]) && SameTarget(MergeAll(env, prev, specs)[i], specs[i])
  {
    assert specs[i] in specs && Matches(specs[i], MergeAll(env, prev, specs)[i]);
  }

  /** The merge keeps one NIC for each NIC of the spec, in the order of the spec. */
  lemma FillLinesUp(env: Env, prev: seq<Nic>, specs: seq<Nic>)
    requires AllTargets(specs) && AllKnown(env, specs)
    requires NoAlias(specs, prev)
    ensures Fill(env, prev, specs) == Ok(MergeAll(env, prev, specs))
    ensures |Fill(env, prev, specs).value| == |specs|
    ensures forall i :: 0 <= i < |specs| ==> SameTarget(Fill(env, prev, specs).value[i], specs[i])
  {
    var out := MergeAll(env, prev, specs);
    forall i | 0 <= i < |out|
      ensures InSpec(specs, out[i]) && SameTarget(out[i], specs[i])
    {
      LinesUpAt(env, prev, specs, i);
    }
    RetainAll(out, n => InSpec(specs, n));
  }

  lemma {:induction false} FirstIsUnique(list: seq<Nic>, nic: Nic, i: nat)
    requires HasTarget(nic) && i < |list| && Matches(list[i], nic)
    requires forall j :: 0 <= j < |list| && Matches(list[j], nic) ==> j == i
    ensures FindMatching(list, nic) == Some(list[i])
  {
    if i > 0 {
      assert !Matches(list[0], nic);
      FirstIsUnique(list[1..], nic, i - 1);
    }
  }

  /** In a merged list the only candidate for a NIC of the spec is its own entry. */
  lemma FindsOwnEntry(env: Env, prev: seq<Nic>, specs: seq<Nic>, i: nat)
    requires AllTargets(specs) && AllKnown(env, specs) && i < |specs|
    requires DistinctTargets(specs) && NoAlias(specs, prev) && Separate(env, specs, specs)
    ensures FindMatching(MergeAll(env, prev, specs), specs[i]) == Some(MergeAll(env, prev, specs)[i])
  {
    var out := MergeAll(env, prev, specs);
    FillLinesUp(env, prev, specs);
    MergeKeepsNoAlias(env, prev, specs, specs);
    forall j | 0 <= j < |out| && Matches(out[j], specs[i])
      ensures j == i
    {
      assert out[j] in out && specs[i] in specs && specs[j] in specs;
      assert SameTarget(out[j], specs[j]);
      assert SameTarget(specs[i], specs[j]) && SameTarget(specs[j], specs[i]);
    }
    FirstIsUnique(out, specs[i], i);
  }

  /** Merging a NIC into a list where it finds its own merged entry gives that entry again. */
  lemma MergeOneAgain(env: Env, again: Env, prev: seq<Nic>, list: seq<Nic>, nic: Nic, i: nat)
    requires HasTarget(nic) && NetworkKnown(env, nic) && again.networks == env.networks
    requires FindMatching(list, nic) == Some(MergeOne(env, prev, nic, i))
    ensures MergeOne(again, list, nic, i) == MergeOne(env, prev, nic, i)
  {
  }

  /** What a NIC takes over from the entry it finds. */
  lemma MergeOneKeeps(env: Env, list: seq<Nic>, nic: Nic, i: nat, entry: Nic)
    requires HasTarget(nic) && NetworkKnown(env, nic)
    requires FindMatching(list, nic) == Some(entry) && entry.mac.Some?
    ensures nic.mac.None? ==> MergeOne(env, list, nic, i).mac == entry.mac
    ensures nic.ovnId.None? && entry.ovnId.Some? ==> MergeOne(env, list, nic, i).ovnId == entry.ovnId
  {
  }

  /**
    A second merge changes nothing, whatever the status list was before the first one and
    whatever ids the second one would generate.
   */
  lemma FillIsFixedPoint(env: Env, again: Env, prev: seq<Nic>, specs: seq<Nic>)
    requires AllTargets(specs) && AllKnown(env, specs) && again.networks == env.networks
    requires DistinctTargets(specs) && NoAlias(specs, prev) && Separate(env, specs, specs)
    ensures Fill(env, prev, specs).Ok?
    ensures Fill(again, Fill(env, prev, specs).value, specs) == Fill(env, prev, specs)
  {
    var out := MergeAll(env, prev, specs);
    FillLinesUp(env, prev, specs);
    MergeKeepsNoAlias(env, prev, specs, specs);
    FillLinesUp(again, out, specs);
    forall i | 0 <= i < |specs|
      ensures MergeOne(again, out, specs[i], i) == out[i]
    {
      FindsOwnEntry(env, prev, specs, i);
      assert specs[i] in specs;
      MergeOneAgain(env, again, prev, out, specs[i], i);
    }
    assert MergeAll(again, out, specs) == out;
  }

  /** A merge that changes nothing drew nothing, so it changes nothing under any generator. */
  lemma UnchangedForAnyGenerator(env: Env, again: Env, prev: seq<Nic>, specs: seq<Nic>)
    requires AllTargets(specs) && AllKnown(env, specs) && again.networks == env.networks
    requires DistinctTargets(specs) && NoAlias(specs, prev) && Separate(env, specs, specs)
    requires Fill(env, prev, specs) == Ok(prev)
    ensures Fill(again, prev, specs) == Ok(prev)
  {
    FillIsFixedPoint(env, again, prev, specs);
  }

  lemma MergedHasMac(env: Env, prev: seq<Nic>, specs: seq<Nic>, i: nat)
    requires AllTargets(specs) && AllKnown(env, specs) && i < |specs|
    ensures MergeAll(env, prev, specs)[i].mac.Some?
  {
  }

  lemma {:induction false} SameTargetSameMatch(list: seq<Nic>, a: Nic, b: Nic)
    requires HasTarget(a) && HasTarget(b) && SameTarget(a, b)
    ensures FindMatching(list, a) == FindMatching(list, b)
  {
    if list != [] {
      SameTargetSameMatch(list[1..], a, b);
    }
  }

  /** A NIC for the same network or bridge finds the entry too. */
  lemma FindsOtherEntry(env: Env, prev: seq<Nic>, before: seq<Nic>, i: nat, nic: Nic)
    requires AllTargets(before) && AllKnown(env, before) && DistinctTargets(before) && NoAlias(before, prev)
    requires Separate(env, before, before)
    requires i < |before| && HasTarget(nic) && SameTarget(before[i], nic)
    ensures var first := MergeAll(env, prev, before); FindMatching(first, nic) == Some(first[i]) && first[i].mac.Some?
  {
    assert before[i] in before;
    FindsOwnEntry(env, prev, before, i);
    MergedHasMac(env, prev, before, i);
    SameTargetSameMatch(MergeAll(env, prev, before), before[i], nic);
  }

  lemma MergeAllKeeps(env: Env, prev: seq<Nic>, before: seq<Nic>, i: nat, env': Env, after: seq<Nic>, j: nat)
    requires AllTargets(before) && AllKnown(env, before) && DistinctTargets(before) && NoAlias(before, prev)
    requires Separate(env, before, before)
    requires AllTargets(after) && AllKnown(env', after)
    requires i < |before| && j < |after| && SameTarget(before[i], after[j])
    ensures var first := MergeAll(env, prev, before);
            var second := MergeAll(env', first, after);
            && (after[j].mac.None? ==> second[j].mac == first[i].mac)
            && (after[j].ovnId.None? && first[i].ovnId.Some? ==> second[j].ovnId == first[i].ovnId)
  {
    var first := MergeAll(env, prev, before);
    FindsOtherEntry(env, prev, before, i, after[j]);
    MergeOneKeeps(env', first, after[j], j, first[i]);
  }

  /**
    Adding, removing or reordering other NICs, and changing networks, keeps the address and the
    port id a NIC got from an earlier merge unless its spec now asks for particular ones.
   */
  lemma FillKeepsIdentity(env: Env, prev: seq<Nic>, before: seq<Nic>, i: nat, env': Env, after: seq<Nic>, j: nat)
    requires AllTargets(before) && AllKnown(env, before) && DistinctTargets(before) && NoAlias(before, prev)
    requires Separate(env, before, before) && NoAlias(after, prev) && Separate(env, before, after)
    requires AllTargets(after) && AllKnown(env', after)
    requires i < |before| && j < |after| && SameTarget(before[i], after[j])
    ensures exists first: seq<Nic>, second: seq<Nic> ::
              && Fill(env, prev, before) == Ok(first) && Fill(env', first, after) == Ok(second)
              && |first| == |before| && |second| == |after|
              && (after[j].mac.None? ==> second[j].mac == first[i].mac)
              && (after[j].ovnId.None? && first[i].ovnId.Some? ==> second[j].ovnId == first[i].ovnId)
  {
    var first := MergeAll(env, prev, before);
    var second := MergeAll(env', first, after);
    FillLinesUp(env, prev, before);
    MergeKeepsNoAlias(env, prev, before, after);
    FillLinesUp(env', first, after);
    MergeAllKeeps(env, prev, before, i, env', after, j);
    assert Fill(env, prev, before) == Ok(first) && Fill(env', first, after) == Ok(second);
  }

  // The exact condition

  predicate OnOvn(env: Env, nic: Nic)
    requires NetworkKnown(env, nic)
  {
    nic.name.Some? && NetworkOfType(env.networks[nic.name.value]) == Ovn
  }

  /** The MAC a NIC ends up with: its own, the previous one, or a generated one. */
  function WantedMac(env: Env, prev: seq<Nic>, nic: Nic, index: nat): Option<string>
    requires HasTarget(nic)
  {
    var found := FindMatching(prev, nic);
    if nic.mac.Some? then nic.mac
    else if found.Some? && found.value.mac.Some? then found.value.mac
    else Some(GenerateMac(env, nic, index))
  }

  /** The port id of a NIC on an OVN network. */
  function WantedId(env: Env, prev: seq<Nic>, nic: Nic, index: nat): Option<string>
    requires HasTarget(nic)
  {
    var found := FindMatching(prev, nic);
    if nic.ovnId.Some? then nic.ovnId
    else if found.Some? && found.value.ovnId.Some? then found.value.ovnId
    else Some(env.uuid(index))
  }

  /** The bridge of the merged NIC: that of its EVPN network, the previous one, or its own. */
  function MergedBridge(env: Env, prev: seq<Nic>, nic: Nic): Option<string>
    requires HasTarget(nic) && NetworkKnown(env, nic)
  {
    var found := FindMatching(prev, nic);
    if nic.name.Some? && !OnOvn(env, nic) then env.networks[nic.name.value].bridge
    else if found.Some? then found.value.bridge
    else nic.bridge
  }

  /** The name of the merged NIC: that of its entry, which a bridge-only NIC may find on its bridge. */
  function MergedName(prev: seq<Nic>, nic: Nic): Option<string>
    requires HasTarget(nic)
  {
    var found := FindMatching(prev, nic);
    if found.Some? then found.value.name else nic.name
  }

  function MergedId(env: Env, prev: seq<Nic>, nic: Nic, index: nat): Option<string>
    requires HasTarget(nic) && NetworkKnown(env, nic)
  {
    var found := FindMatching(prev, nic);
    if OnOvn(env, nic) then WantedId(env, prev, nic, index) else if found.Some? then found.value.ovnId else None
  }

  function MergedVlan(env: Env, prev: seq<Nic>, nic: Nic): Option<nat>
    requires HasTarget(nic) && NetworkKnown(env, nic)
  {
    var found := FindMatching(prev, nic);
    if nic.name.Some? && !OnOvn(env, nic) then
      match env.networks[nic.name.value].networkId
      case Some(id) => Some(id % 0x1_0000)
      case None => None
    else if found.Some? then found.value.untaggedVlan else None
  }

  function MergedTags(prev: seq<Nic>, nic: Nic): Option<seq<nat>>
    requires HasTarget(nic)
  {
    var found := FindMatching(prev, nic);
    if found.Some? then found.value.taggedVlans else None
  }

  /** Every field of a merged NIC. */
  lemma MergedFields(env: Env, prev: seq<Nic>, nic: Nic, index: nat)
    requires HasTarget(nic) && NetworkKnown(env, nic)
    ensures var r := MergeOne(env, prev, nic, index);
            && r.name == MergedName(prev, nic)
            && r.bridge == MergedBridge(env, prev, nic)
            && r.mac == WantedMac(env, prev, nic, index)
            && r.queues == nic.queues
            && r.ovnId == MergedId(env, prev, nic, index)
            && r.untaggedVlan == MergedVlan(env, prev, nic)
            && r.taggedVlans == MergedTags(prev, nic)
  {
  }

  /** No bridge-only NIC of the spec picks up a named NIC of the previous list. */
  predicate Aligned(prev: seq<Nic>, specs: seq<Nic>)
    requires AllTargets(specs)
  {
    forall n :: n in specs ==> var found := FindMatching(prev, n); found.Some? ==> found.value.name == n.name
  }

  lemma {:induction false} FindMatchingIsFirst(list: seq<Nic>, nic: Nic) returns (i: nat)
    requires HasTarget(nic) && exists k :: 0 <= k < |list| && Matches(list[k], nic)
    ensures i < |list| && Matches(list[i], nic) && forall h :: 0 <= h < i ==> !Matches(list[h], nic)
    ensures FindMatching(list, nic) == Some(list[i])
  {
    if Matches(list[0], nic) {
      i := 0;
    } else {
      var k :| 0 <= k < |list| && Matches(list[k], nic);
      assert Matches(list[1..][k - 1], nic);
      var rest := FindMatchingIsFirst(list[1..], nic);
      i := rest + 1;
      assert forall h :: 0 < h < i ==> list[h] == list[1..][h - 1];
    }
  }

  /** The merge of an aligned list keeps one NIC for each NIC of the spec. */
  lemma AlignedLinesUp(env: Env, prev: seq<Nic>, specs: seq<Nic>)
    requires AllTargets(specs) && AllKnown(env, specs) && Aligned(prev, specs)
    ensures Fill(env, prev, specs) == Ok(MergeAll(env, prev, specs))
    ensures forall i :: 0 <= i < |specs| ==> SameTarget(MergeAll(env, prev, specs)[i], specs[i])
  {
    var out := MergeAll(env, prev, specs);
    forall i | 0 <= i < |specs|
      ensures SameTarget(out[i], specs[i]) && InSpec(specs, out[i])
    {
      assert specs[i] in specs;
      MergedFields(env, prev, specs[i], i);
      assert Matches(specs[i], out[i]);
    }
    RetainAll(out, n => InSpec(specs, n));
  }

  /**
    Without alignment the list loses a NIC or the names of one: the result lines up exactly if the lists are
    aligned.
   */
  lemma LiningUpIsExact(env: Env, prev: seq<Nic>, specs: seq<Nic>)
    requires AllTargets(specs) && AllKnown(env, specs)
    ensures Aligned(prev, specs) <==>
            var out := Fill(env, prev, specs).value;
            |out| == |specs| && forall i :: 0 <= i < |specs| ==> SameTarget(out[i], specs[i])
  {
    var out := Fill(env, prev, specs).value;
    if Aligned(prev, specs) {
      AlignedLinesUp(env, prev, specs);
    } else if |out| == |specs| {
      RetainedAll(MergeAll(env, prev, specs), n => InSpec(specs, n));
      var n :| n in specs && FindMatching(prev, n).Some? && FindMatching(prev, n).value.name != n.name;
      var i :| 0 <= i < |specs| && specs[i] == n;
      MergedFields(env, prev, specs[i], i);
      assert !SameTarget(out[i], specs[i]);
    }
  }

  // When a second merge changes nothing

  /** A bridge-only NIC that finds a named NIC finds one that the spec names too. */
  predicate NamesStay(prev: seq<Nic>, specs: seq<Nic>)
    requires AllTargets(specs)
  {
    forall n :: n in specs && n.name.None? && MergedName(prev, n).Some? ==>
      exists m :: m in specs && m.name == MergedName(prev, n)
  }

  lemma {:induction false} FoundIfAny(list: seq<Nic>, nic: Nic)
    requires HasTarget(nic)
    ensures FindMatching(list, nic).Some? <==> exists n :: n in list && Matches(n, nic)
  {
    if list != [] && !Matches(list[0], nic) {
      FoundIfAny(list[1..], nic);
      assert forall n :: n in list <==> n == list[0] || n in list[1..];
    }
  }

  /** The merged NIC is kept by the final `retain` exactly if some NIC of the spec has its name, if it has one. */
  lemma KeptIfNamed(env: Env, prev: seq<Nic>, specs: seq<Nic>, i: nat)
    requires AllTargets(specs) && AllKnown(env, specs) && i < |specs|
    ensures specs[i] in specs
    ensures InSpec(specs, MergeAll(env, prev, specs)[i]) <==>
              specs[i].name.None? && MergedName(prev, specs[i]).Some? ==>
                exists m :: m in specs && m.name == MergedName(prev, specs[i])
  {
    var r := MergeAll(env, prev, specs)[i];
    assert specs[i] in specs;
    MergedFields(env, prev, specs[i], i);
    FoundIfAny(specs, r);
    assert specs[i].name.Some? || r.name.None? ==> Matches(specs[i], r);
  }

  /** The merge keeps one NIC for each NIC of the spec exactly if the names stay. */
  lemma NamesStayIsExact(env: Env, prev: seq<Nic>, specs: seq<Nic>)
    requires AllTargets(specs) && AllKnown(env, specs)
    ensures NamesStay(prev, specs) <==> Fill(env, prev, specs) == Ok(MergeAll(env, prev, specs))
    ensures NamesStay(prev, specs) <==> |Fill(env, prev, specs).value| == |specs|
  {
    var out, p := MergeAll(env, prev, specs), (n: Nic) => InSpec(specs, n);
    forall i: nat | i < |specs|
      ensures specs[i] in specs
      ensures InSpec(specs, out[i]) <==>
                specs[i].name.None? && MergedName(prev, specs[i]).Some? ==>
                  exists m :: m in specs && m.name == MergedName(prev, specs[i])
    {
      KeptIfNamed(env, prev, specs, i);
    }
    if |Retain(out, p)| == |out| {
      RetainedAll(out, p);
      assert forall i :: 0 <= i < |out| ==> out[i] in Retain(out, p);
    } else if forall n :: n in out ==> p(n) {
      RetainAll(out, p);
    }
  }

  /** A retained list names only what the spec names. */
  lemma RetainedNamesStay(env: Env, prev: seq<Nic>, specs: seq<Nic>)
    requires AllTargets(specs) && AllKnown(env, specs)
    ensures NamesStay(Fill(env, prev, specs).value, specs)
  {
    var list := Fill(env, prev, specs).value;
    forall n | n in specs && n.name.None? && MergedName(list, n).Some?
      ensures exists m :: m in specs && m.name == MergedName(list, n)
    {
      var entry := FindMatching(list, n).value;
      FoundIfAny(specs, entry);
    }
  }

  /** In the merged list the i-th NIC matches the j-th NIC of the spec. */
  predicate Meets(env: Env, prev: seq<Nic>, specs: seq<Nic>, i: nat, j: nat)
    requires AllTargets(specs) && AllKnown(env, specs) && i < |specs| && j < |specs|
  {
    if specs[j].name.Some? then MergedName(prev, specs[i]) == specs[j].name
    else MergedBridge(env, prev, specs[i]) == specs[j].bridge
  }

  predicate FirstMet(env: Env, prev: seq<Nic>, specs: seq<Nic>, i: nat, j: nat)
    requires AllTargets(specs) && AllKnown(env, specs) && i < |specs| && j < |specs|
  {
    Meets(env, prev, specs, i, j) && forall h: nat :: h < i ==> !Meets(env, prev, specs, h, j)
  }

  /** What the j-th NIC takes over from the i-th is what it has; `again` generates the ids of the second merge. */
  predicate Repeats(env: Env, again: Env, prev: seq<Nic>, specs: seq<Nic>, i: nat, j: nat)
    requires AllTargets(specs) && AllKnown(env, specs) && i < |specs| && j < |specs|
  {
    var a, b := specs[i], specs[j];
    var evpn := b.name.Some? && !OnOvn(env, b);
    var id := MergedId(env, prev, a, i);
    && MergedName(prev, a) == MergedName(prev, b)
    && (evpn || (MergedBridge(env, prev, a) == MergedBridge(env, prev, b)
         && MergedVlan(env, prev, a) == MergedVlan(env, prev, b)))
    && (b.mac.Some? || WantedMac(env, prev, a, i) == WantedMac(env, prev, b, j))
    && MergedId(env, prev, b, j) == (if !OnOvn(env, b) then id
                                     else if b.ovnId.Some? then b.ovnId
                                     else if id.Some? then id else Some(again.uuid(j)))
    && MergedTags(prev, a) == MergedTags(prev, b)
  }

  predicate RepeatsAt(env: Env, again: Env, prev: seq<Nic>, specs: seq<Nic>, j: nat)
    requires AllTargets(specs) && AllKnown(env, specs) && j < |specs|
  {
    forall i: nat :: i < |specs| && FirstMet(env, prev, specs, i, j) ==> Repeats(env, again, prev, specs, i, j)
  }

  predicate AllRepeat(env: Env, again: Env, prev: seq<Nic>, specs: seq<Nic>)
    requires AllTargets(specs) && AllKnown(env, specs)
  {
    forall j: nat :: j < |specs| ==> RepeatsAt(env, again, prev, specs, j)
  }

  lemma FirstMetFound(env: Env, prev: seq<Nic>, specs: seq<Nic>, j: nat) returns (i: nat)
    requires AllTargets(specs) && AllKnown(env, specs) && j < |specs|
    ensures i < |specs| && FirstMet(env, prev, specs, i, j) && specs[j] in specs
    ensures FindMatching(MergeAll(env, prev, specs), specs[j]) == Some(MergeAll(env, prev, specs)[i])
  {
    assert specs[j] in specs;
    var out := MergeAll(env, prev, specs);
    assert Matches(out[j], specs[j]);
    i := FindMatchingIsFirst(out, specs[j]);
    forall h: nat | h <= i
      ensures Matches(out[h], specs[j]) <==> Meets(env, prev, specs, h, j)
    {
      assert specs[h] in specs;
      MergedFields(env, prev, specs[h], h);
    }
  }

  /** The second merge gives the j-th NIC again exactly if it repeats the one it finds. */
  lemma RepeatIsExact(env: Env, again: Env, prev: seq<Nic>, specs: seq<Nic>, i: nat, j: nat)
    requires AllTargets(specs) && AllKnown(env, specs) && again.networks == env.networks
    requires i < |specs| && j < |specs| && specs[j] in specs
    requires FindMatching(MergeAll(env, prev, specs), specs[j]) == Some(MergeAll(env, prev, specs)[i])
    ensures var out := MergeAll(env, prev, specs);
            MergeOne(again, out, specs[j], j) == out[j] <==> Repeats(env, again, prev, specs, i, j)
  {
    assert specs[i] in specs;
    var out := MergeAll(env, prev, specs);
    MergedFields(env, prev, specs[i], i);
    MergedFields(env, prev, specs[j], j);
    MergedFields(again, out, specs[j], j);
  }

  lemma RepeatedMergeIsExact(env: Env, again: Env, prev: seq<Nic>, specs: seq<Nic>)
    requires AllTargets(specs) && AllKnown(env, specs) && again.networks == env.networks
    ensures MergeAll(again, MergeAll(env, prev, specs), specs) == MergeAll(env, prev, specs) <==>
              AllRepeat(env, again, prev, specs)
  {
    var out := MergeAll(env, prev, specs);
    var second := MergeAll(again, out, specs);
    forall j: nat | j < |specs|
      ensures second[j] == out[j] <==> RepeatsAt(env, again, prev, specs, j)
    {
      var i := FirstMetFound(env, prev, specs, j);
      RepeatIsExact(env, again, prev, specs, i, j);
      assert forall h: nat :: h < |specs| && FirstMet(env, prev, specs, h, j) ==> h == i;
    }
    if AllRepeat(env, again, prev, specs) {
      assert second == out;
    }
  }

  /**
    Main result, for every previous list: a second merge changes nothing if and only if the first one drops
    no NIC and each NIC repeats the first merged NIC that it meets.
   */
  lemma FixedPointIsExact(env: Env, again: Env, prev: seq<Nic>, specs: seq<Nic>)
    requires AllTargets(specs) && AllKnown(env, specs) && again.networks == env.networks
    ensures Fill(again, Fill(env, prev, specs).value, specs) == Fill(env, prev, specs) <==>
              NamesStay(prev, specs) && AllRepeat(env, again, prev, specs)
  {
    var first := Fill(env, prev, specs).value;
    NamesStayIsExact(env, prev, specs);
    RetainedNamesStay(env, prev, specs);
    NamesStayIsExact(again, first, specs);
    RepeatedMergeIsExact(env, again, prev, specs);
  }

  /**
    For an aligned list, such as the empty one, the condition does not depend on what the second merge would
    generate.
   */
  lemma GeneratorIsIrrelevant(env: Env, again: Env, other: Env, prev: seq<Nic>, specs: seq<Nic>)
    requires AllTargets(specs) && AllKnown(env, specs) && Aligned(prev, specs)
    ensures AllRepeat(env, again, prev, specs) ==> AllRepeat(env, other, prev, specs)
  {
    if AllRepeat(env, again, prev, specs) {
      forall i: nat, j: nat | i < |specs| && j < |specs| && FirstMet(env, prev, specs, i, j)
        ensures Repeats(env, other, prev, specs, i, j)
      {
        assert specs[i] in specs && RepeatsAt(env, again, prev, specs, j);
      }
    }
  }

  /** Two bridge-only NICs on one bridge are stable if each asks for a MAC of its own. */
  lemma DuplicatesWithMacsAreStable(env: Env, again: Env, a: Nic, b: Nic)
    requires a.name.None? && b.name.None? && a.bridge.Some? && b.bridge == a.bridge && a.mac.Some? && b.mac.Some?
    requires again.networks == env.networks
    ensures !DistinctTargets([a, b])
    ensures Fill(env, [], [a, b]).Ok? && Fill(again, Fill(env, [], [a, b]).value, [a, b]) == Fill(env, [], [a, b])
  {
    var specs := [a, b];
    assert SameTarget(specs[0], specs[1]);
    FixedPointIsExact(env, again, [], specs);
    assert AllRepeat(env, again, [], specs);
  }

  /**
    What the connect, disconnect and domain-building loops unwrap with `expect`: an address, a
    network name wherever there is a port id, and a bridge wherever there is none.
   */
  predicate Usable(nic: Nic) {
    && nic.mac.Some?
    && (nic.ovnId.Some? ==> nic.name.Some?)
    && (nic.ovnId.None? ==> nic.bridge.Some?)
  }

  ghost predicate AllUsable(list: seq<Nic>) {
    forall n :: n in list ==> Usable(n)
  }

  ghost predicate EvpnBridged(env: Env) {
    forall k :: k in env.networks && NetworkOfType(env.networks[k]) == Evpn ==> env.networks[k].bridge.Some?
  }

  lemma MergedIsUsable(env: Env, prev: seq<Nic>, nic: Nic, index: nat)
    requires HasTarget(nic) && NetworkKnown(env, nic)
    requires EvpnBridged(env) && AllUsable(prev)
    ensures Usable(MergeOne(env, prev, nic, index))
  {
  }

  /** One merge step of a status list: the environment and the spec it ran with. */
  datatype MergeStep = MergeStep(env: Env, specs: seq<Nic>)

  /** The status list after a history of merges, failed ones leaving it alone. */
  function AfterMerges(steps: seq<MergeStep>): seq<Nic>
    requires forall s :: s in steps ==> AllTargets(s.specs)
  {
    if steps == [] then []
    else
      var before := AfterMerges(steps[..|steps| - 1]);
      var last := steps[|steps| - 1];
      var filled := Fill(last.env, before, last.specs);
      if filled.Ok? then filled.value else before
  }

  /** No `expect` on a NIC can fail, for any history of specs, networks and generated values. */
  lemma {:induction false} ReachableNicsAreUsable(steps: seq<MergeStep>)
    requires forall s :: s in steps ==> AllTargets(s.specs)
    requires forall s :: s in steps ==> EvpnBridged(s.env)
    ensures AllUsable(AfterMerges(steps))
  {
    if steps != [] {
      var before := AfterMerges(steps[..|steps| - 1]);
      var last := steps[|steps| - 1];
      ReachableNicsAreUsable(steps[..|steps| - 1]);
      if AllKnown(last.env, last.specs) {
        var out := MergeAll(last.env, before, last.specs);
        forall n | n in out
          ensures Usable(n)
        {
          var i :| 0 <= i < |out| && out[i] == n;
          assert last.specs[i] in last.specs;
          MergedIsUsable(last.env, before, last.specs[i], i);
        }
      }
    }
  }

  /** Without an EVPN bridge the unwrapping can fail: the hypothesis is needed. */
  lemma BridgelessEvpnIsUnusable(env: Env, network: string)
    requires network in env.networks && env.networks[network] == Network(Some(Evpn), None, None)
    ensures var nic := Nic(Some(network), None, None, None, None, None, None);
            Fill(env, [], [nic]).Ok? && !AllUsable(Fill(env, [], [nic]).value)
  {
    var nic := Nic(Some(network), None, None, None, None, None, None);
    var out := MergeAll(env, [], [nic]);
    FillLinesUp(env, [], [nic]);
    assert out[0] in out && out[0].bridge.None? && out[0].ovnId.None?;
  }

  /**
    Two NICs of one spec with the same target share an entry from the second merge on: if the
    second one's generated address differs from the first one's, the list is not a fixed point.
   */
  lemma DuplicateTargetsAreUnstable(env: Env, nic: Nic)
    requires HasTarget(nic) && NetworkKnown(env, nic) && nic.mac.None?
    requires GenerateMac(env, nic, 0) != GenerateMac(env, nic, 1)
    requires nic.name.None? || NetworkOfType(env.networks[nic.name.value]) == Ovn
    ensures Fill(env, [], [nic, nic]).Ok?
    ensures Fill(env, Fill(env, [], [nic, nic]).value, [nic, nic]) != Fill(env, [], [nic, nic])
  {
    var specs := [nic, nic];
    FillLinesUp(env, [], specs);
    var first := MergeAll(env, [], specs);
    assert first[0].mac != first[1].mac;
    var second := MergeAll(env, first, specs);
    assert FindMatching(first, nic) == Some(first[0]);
    assert second[1].mac == first[0].mac;
    assert forall n :: n in second ==> SameTarget(n, nic);
    forall n | n in second
      ensures InSpec(specs, n)
    {
      assert Matches(specs[0], n) && specs[0] in specs;
    }
    RetainAll(second, n => InSpec(specs, n));
  }

  /** A bridge-only NIC that finds a named entry on its bridge takes its name and is dropped. */
  lemma SharedBridgeDropsNic(env: Env, named: Nic, bridgeOnly: Nic)
    requires named.name.Some? && named.bridge.Some?
    requires bridgeOnly.name.None? && bridgeOnly.bridge == named.bridge
    ensures Fill(env, [named], [bridgeOnly]) == Ok([])
  {
    var out := MergeAll(env, [named], [bridgeOnly]);
    assert out[0].name == named.name;
    assert !InSpec([bridgeOnly], out[0]);
  }
}
