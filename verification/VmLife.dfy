/**
  The ports of a VM whose NIC lists are those that the merge computes: under a fixed spec, every status
  write takes over the list of its copy or merges it with the spec. Such runs are runs of the machine of
  `VmPorts`, so no switch port of the VM outlives it.
 */
module VmLife {
  import opened Prelude
  import opened VmPorts
  import K = Kube
  import Nics

  /** The NICs of the spec, and which of them are on OVN networks. */
  datatype Plan = Plan(specs: seq<K.Nic>, ovn: K.Nic -> bool)

  ghost predicate PlanOk(cfg: Config, plan: Plan) {
    Nics.AllTargets(plan.specs) && Nics.DistinctTargets(plan.specs) && IdsOurs(cfg, plan.specs)
  }

  /** The networks of a merge, and ids generated for the switches of the NICs. */
  ghost predicate EnvOk(cfg: Config, plan: Plan, env: Nics.Env) {
    && Nics.AllKnown(env, plan.specs) && Nics.Separate(env, plan.specs, plan.specs)
    && (forall n :: n in plan.specs && n.ovnId.Some? ==> (Nics.OnOvn(env, n) <==> plan.ovn(n)))
    && forall j: nat :: j < |plan.specs| && plan.specs[j].name.Some? ==>
         env.uuid(j) in cfg.ours && cfg.ours[env.uuid(j)] == SwitchOf(cfg.key, plan.specs[j])
  }

  /** A list that some merge computed, or none did yet. */
  ghost predicate FromFill(cfg: Config, plan: Plan, list: seq<K.Nic>)
    requires Nics.AllTargets(plan.specs)
  {
    list == [] || exists env, prev ::
      EnvOk(cfg, plan, env) && Nics.NoAlias(plan.specs, prev) && Nics.Fill(env, prev, plan.specs) == Ok(list)
  }

  /** What a status write makes of the list of its copy. */
  ghost predicate Fills(cfg: Config, plan: Plan, before: seq<K.Nic>, after: seq<K.Nic>)
    requires Nics.AllTargets(plan.specs)
  {
    after == before || exists env :: EnvOk(cfg, plan, env) && Nics.Fill(env, before, plan.specs) == Ok(after)
  }

  /** A merged NIC has its own id, that of its entry before, or one generated for its switch. */
  lemma MergedIdIsOurs(cfg: Config, plan: Plan, env: Nics.Env, prev: seq<K.Nic>, i: nat)
    requires PlanOk(cfg, plan) && EnvOk(cfg, plan, env) && Nics.NoAlias(plan.specs, prev) && IdsOurs(cfg, prev)
    requires i < |plan.specs|
    ensures IdsOurs(cfg, [Nics.MergeAll(env, prev, plan.specs)[i]])
  {
    var nic := plan.specs[i];
    assert nic in plan.specs;
    Nics.MergedFields(env, prev, nic, i);
    var found := Nics.FindMatching(prev, nic);
    assert found.Some? ==> found.value in prev && found.value.name == nic.name;
  }

  lemma FilledIds(cfg: Config, plan: Plan, env: Nics.Env, prev: seq<K.Nic>)
    requires PlanOk(cfg, plan) && EnvOk(cfg, plan, env) && Nics.NoAlias(plan.specs, prev) && IdsOurs(cfg, prev)
    ensures IdsOurs(cfg, Nics.MergeAll(env, prev, plan.specs))
  {
    var out := Nics.MergeAll(env, prev, plan.specs);
    forall n | n in out && n.ovnId.Some?
      ensures n.ovnId.value in cfg.ours && (n.name.Some? ==> SwitchOf(cfg.key, n) == cfg.ours[n.ovnId.value])
    {
      var i :| 0 <= i < |out| && out[i] == n;
      MergedIdIsOurs(cfg, plan, env, prev, i);
      assert n in [out[i]];
    }
  }

  /** Two merges in a row keep the ports. */
  lemma SecondFillKeeps(cfg: Config, plan: Plan, first: Nics.Env, prev: seq<K.Nic>, env: Nics.Env)
    requires PlanOk(cfg, plan) && EnvOk(cfg, plan, first) && EnvOk(cfg, plan, env) && Nics.NoAlias(plan.specs, prev)
    ensures Nics.Fill(first, prev, plan.specs).Ok?
    ensures var before := Nics.Fill(first, prev, plan.specs).value;
            Nics.Fill(env, before, plan.specs).Ok? && NicsKept(before, Nics.Fill(env, before, plan.specs).value)
  {
    forall n | n in plan.specs
      ensures KeepsType(first, env, n)
    {
    }
    RefillKeepsNics(first, prev, plan.specs, env);
  }

  lemma FillKeepsPorts(cfg: Config, plan: Plan, before: seq<K.Nic>, env: Nics.Env, after: seq<K.Nic>)
    requires PlanOk(cfg, plan) && FromFill(cfg, plan, before) && EnvOk(cfg, plan, env)
    requires Nics.Fill(env, before, plan.specs) == Ok(after)
    ensures NicsKept(before, after)
  {
    if before != [] {
      var first, prev :| EnvOk(cfg, plan, first) && Nics.NoAlias(plan.specs, prev)
                         && Nics.Fill(first, prev, plan.specs) == Ok(before);
      SecondFillKeeps(cfg, plan, first, prev, env);
    }
  }

  lemma FillStays(cfg: Config, plan: Plan, before: seq<K.Nic>, env: Nics.Env, after: seq<K.Nic>)
    requires PlanOk(cfg, plan) && EnvOk(cfg, plan, env) && Nics.NoAlias(plan.specs, before) && IdsOurs(cfg, before)
    requires Nics.Fill(env, before, plan.specs) == Ok(after)
    ensures Nics.NoAlias(plan.specs, after) && IdsOurs(cfg, after)
  {
    Nics.FillLinesUp(env, before, plan.specs);
    Nics.MergeKeepsNoAlias(env, before, plan.specs, plan.specs);
    FilledIds(cfg, plan, env, before);
  }

  /** Each list of a series of merges keeps the ports of the one before. */
  lemma FillKeeps(cfg: Config, plan: Plan, before: seq<K.Nic>, after: seq<K.Nic>)
    requires PlanOk(cfg, plan) && FromFill(cfg, plan, before) && Nics.NoAlias(plan.specs, before)
             && IdsOurs(cfg, before)
    requires Fills(cfg, plan, before, after)
    ensures FromFill(cfg, plan, after) && Nics.NoAlias(plan.specs, after) && IdsOurs(cfg, after)
    ensures NicsKept(before, after)
  {
    if after == before {
      NicsKeptSame(before);
    } else {
      var env :| EnvOk(cfg, plan, env) && Nics.Fill(env, before, plan.specs) == Ok(after);
      FillKeepsPorts(cfg, plan, before, env, after);
      FillStays(cfg, plan, before, env, after);
    }
  }

  /** Every stored list came from merges. */
  ghost predicate HistoryFilled(cfg: Config, plan: Plan, s: State)
    requires Nics.AllTargets(plan.specs)
  {
    forall v :: v in s.history ==>
      FromFill(cfg, plan, NicsOf(s.history[v])) && Nics.NoAlias(plan.specs, NicsOf(s.history[v]))
  }

  /** A status write is made over a stored state of the object and merges its list or takes it over. */
  ghost predicate Allowed(cfg: Config, plan: Plan, s: State, step: Step)
    requires Nics.AllTargets(plan.specs)
  {
    match step
    case WriteStatus(copy, status) =>
      && copy.version in s.history && s.history[copy.version] == copy
      && Fills(cfg, plan, NicsOf(copy), status.networks)
    case _ => Enabled(cfg, s, step)
  }

  lemma WriteKeeps(cfg: Config, plan: Plan, s: State, copy: K.Vm, status: K.Status)
    requires PlanOk(cfg, plan) && Inv(cfg, s) && HistoryFilled(cfg, plan, s)
             && Allowed(cfg, plan, s, WriteStatus(copy, status))
    ensures FromFill(cfg, plan, status.networks) && Nics.NoAlias(plan.specs, status.networks)
    ensures IdsOurs(cfg, status.networks) && NicsKept(NicsOf(copy), status.networks) && copy.key == cfg.key
  {
    assert EntryOk(cfg, s, copy.version);
    FillKeeps(cfg, plan, NicsOf(copy), status.networks);
  }

  lemma AllowedIsEnabled(cfg: Config, plan: Plan, s: State, step: Step)
    requires PlanOk(cfg, plan) && Inv(cfg, s) && HistoryFilled(cfg, plan, s) && Allowed(cfg, plan, s, step)
    ensures Enabled(cfg, s, step)
  {
    if step.WriteStatus? {
      WriteKeeps(cfg, plan, s, step.copy, step.status);
    }
  }

  /** A request that leaves the object's NICs alone records no new list. */
  lemma RecordedFilled(cfg: Config, plan: Plan, s: State, c: K.Cluster)
    requires PlanOk(cfg, plan) && HistoryFilled(cfg, plan, s)
    requires cfg.key in c.vms ==>
               var list := NicsOf(c.vms[cfg.key]); FromFill(cfg, plan, list) && Nics.NoAlias(plan.specs, list)
    ensures HistoryFilled(cfg, plan, Recorded(cfg, s, c))
  {
  }

  lemma CurrentFilled(cfg: Config, plan: Plan, s: State)
    requires PlanOk(cfg, plan) && Inv(cfg, s) && HistoryFilled(cfg, plan, s) && Alive(cfg, s)
    ensures var list := NicsOf(s.cluster.vms[cfg.key]); FromFill(cfg, plan, list) && Nics.NoAlias(plan.specs, list)
  {
    assert s.cluster.vms[cfg.key].version in s.history;
  }

  lemma CommitFilled(cfg: Config, plan: Plan, s: State, copy: K.Vm)
    requires PlanOk(cfg, plan) && Inv(cfg, s) && HistoryFilled(cfg, plan, s) && copy.key == cfg.key
    ensures HistoryFilled(cfg, plan, Recorded(cfg, s, K.PutObject(s.cluster, copy).cluster))
  {
    var c := K.PutObject(s.cluster, copy).cluster;
    if cfg.key in c.vms {
      CurrentFilled(cfg, plan, s);
      assert NicsOf(c.vms[cfg.key]) == NicsOf(s.cluster.vms[cfg.key]);
    }
    RecordedFilled(cfg, plan, s, c);
  }

  lemma StatusFilled(cfg: Config, plan: Plan, s: State, copy: K.Vm, status: K.Status)
    requires PlanOk(cfg, plan) && Inv(cfg, s) && HistoryFilled(cfg, plan, s)
             && Allowed(cfg, plan, s, WriteStatus(copy, status))
    ensures HistoryFilled(cfg, plan, Recorded(cfg, s, K.PutStatus(s.cluster, copy, status).cluster))
  {
    WriteKeeps(cfg, plan, s, copy, status);
    var c := K.PutStatus(s.cluster, copy, status).cluster;
    if cfg.key in c.vms {
      CurrentFilled(cfg, plan, s);
      assert NicsOf(c.vms[cfg.key]) == status.networks || c.vms[cfg.key] == s.cluster.vms[cfg.key];
    }
    RecordedFilled(cfg, plan, s, c);
  }

  lemma DeletionFilled(cfg: Config, plan: Plan, s: State)
    requires PlanOk(cfg, plan) && Inv(cfg, s) && HistoryFilled(cfg, plan, s) && Alive(cfg, s)
    ensures HistoryFilled(cfg, plan, Recorded(cfg, s, K.DeleteObject(s.cluster, cfg.key)))
  {
    CurrentFilled(cfg, plan, s);
    var c := K.DeleteObject(s.cluster, cfg.key);
    assert cfg.key in c.vms ==> NicsOf(c.vms[cfg.key]) == NicsOf(s.cluster.vms[cfg.key]);
    RecordedFilled(cfg, plan, s, c);
  }

  lemma StartFilled(cfg: Config, plan: Plan, s: State, version: nat)
    requires PlanOk(cfg, plan) && Inv(cfg, s) && HistoryFilled(cfg, plan, s) && version in s.history
    ensures HistoryFilled(cfg, plan, Started(cfg, s, version))
  {
    assert EntryOk(cfg, s, version);
    CommitFilled(cfg, plan, s, K.WithFinalizer(s.history[version], OvnFinalizer()));
  }

  lemma FinishFilled(cfg: Config, plan: Plan, s: State)
    requires PlanOk(cfg, plan) && Inv(cfg, s) && HistoryFilled(cfg, plan, s) && s.phase.Removing?
    ensures HistoryFilled(cfg, plan, Finished(cfg, s))
  {
    assert EntryOk(cfg, s, s.phase.copy.version);
    CommitFilled(cfg, plan, s, K.WithoutFinalizer(s.phase.copy, OvnFinalizer()));
  }

  lemma OthersRecordNothing(cfg: Config, s: State, step: Step)
    requires Enabled(cfg, s, step)
    requires !step.WriteStatus? && !step.WriteObject? && !step.RequestDeletion? && !step.StartUpdate?
             && !step.RemoveFinalizer?
    ensures Apply(cfg, s, step).history == s.history
  {
  }

  lemma HistoryStaysFilled(cfg: Config, plan: Plan, s: State, step: Step)
    requires PlanOk(cfg, plan) && Inv(cfg, s) && HistoryFilled(cfg, plan, s) && Allowed(cfg, plan, s, step)
    requires Enabled(cfg, s, step)
    ensures HistoryFilled(cfg, plan, Apply(cfg, s, step))
  {
    match step
    case WriteStatus(copy, status) => StatusFilled(cfg, plan, s, copy, status);
    case WriteObject(copy) => CommitFilled(cfg, plan, s, copy);
    case RequestDeletion => DeletionFilled(cfg, plan, s);
    case StartUpdate(version) => StartFilled(cfg, plan, s, version);
    case RemoveFinalizer => FinishFilled(cfg, plan, s);
    case _ => OthersRecordNothing(cfg, s, step);
  }

  ghost predicate FilledRun(cfg: Config, plan: Plan, s: State, steps: seq<Step>)
    requires Nics.AllTargets(plan.specs)
    decreases |steps|
  {
    steps == [] || (Allowed(cfg, plan, s, steps[0])
                    && (Enabled(cfg, s, steps[0]) ==> FilledRun(cfg, plan, Apply(cfg, s, steps[0]), steps[1..])))
  }

  lemma {:induction false} FilledRunIsRun(cfg: Config, plan: Plan, s: State, steps: seq<Step>)
    requires PlanOk(cfg, plan) && Inv(cfg, s) && HistoryFilled(cfg, plan, s) && FilledRun(cfg, plan, s, steps)
    ensures Run(cfg, s, steps)
    decreases |steps|
  {
    if steps != [] {
      AllowedIsEnabled(cfg, plan, s, steps[0]);
      HistoryStaysFilled(cfg, plan, s, steps[0]);
      InvKept(cfg, s, steps[0]);
      FilledRunIsRun(cfg, plan, Apply(cfg, s, steps[0]), steps[1..]);
    }
  }

  /**
    Main result: with a fixed spec and status writes that merge NICs or keep them, every port of the VM is
    listed by the living object, which has the finalizer, and once the object is gone no port is left.
   */
  lemma NoMergedPortOutlivesTheVm(cfg: Config, plan: Plan, s: State, steps: seq<Step>)
    requires PlanOk(cfg, plan) && Init(cfg, s) && FilledRun(cfg, plan, s, steps)
    ensures Run(cfg, s, steps)
    ensures var s' := After(cfg, s, steps);
            && (forall id, u :: id in cfg.ours && PortNamed(s'.db.rows, u, id) ==> Wanted(cfg, s', id, cfg.ours[id]))
            && (!Alive(cfg, s') ==> forall id :: id in cfg.ours ==> NoPort(s'.db.rows, id))
  {
    InitInv(cfg, s);
    FilledRunIsRun(cfg, plan, s, steps);
    NoPortOutlivesTheVm(cfg, s, steps);
  }
}
