/** A re-apply that fails at the device (probeStep in internal/agent/probe.go): phase and device part until the next change. */
module Reapplies {
  import opened Net
  import opened Options
  import opened Store
  import opened Netmaps
  import opened Prober
  import opened Agents

  const OK_IO := Io(true, true, true, true, true, true)

  const DEVICE_FAILS := Io(true, false, true, true, true, true)

  /** One other spoke, with one candidate endpoint. */
  const SPOKE := Peer("p", "h", RoleNode, 1, "k", "", [Host(1)], 0, ["a"], "")

  const MAP := Netmap(1, "s", "", false, [SPOKE], [], [], [])

  /** The spoke's tunnel came up on its own. */
  const UP := [PeerStatus("k", "a", 0)]

  function Applying(): seq<Event> { [] + [Sync(MAP, 0, OK_IO)] }

  function Failing(): seq<Event> { Applying() + [Tick(UP, 0, DEVICE_FAILS)] }

  lemma RunSnoc(env: Env, st: AgentState, events: seq<Event>, e: Event)
    ensures Run(env, st, events + [e]) == Step(env, Run(env, st, events), e)
  {
    assert (events + [e])[..|events|] == events;
  }

  ghost predicate Fits(env: Env) { EnvOk(env) && env.dialable("a") && env.wgKeyOk("k") }

  const FOUND := ProbeState(Idle, ["a"], 0, ZERO_TIME, ZERO_TIME, "")

  const PROMOTED := FOUND.(phase := Direct, confirmed := "a")

  lemma SpokeCandidates(env: Env)
    requires Fits(env)
    ensures ValidOf(env.dialable, ["a"]) == ["a"]
  {
    assert ["a"][..0] == [] && Dialable(env.dialable, []) == [];
    assert Dialable(env.dialable, ["a"]) == [] + ["a"];
  }

  lemma SyncSpoke(env: Env, probes: map<string, ProbeState>, ps: ProbeState)
    requires Fits(env) && probes.Keys <= {"k"} && ps == (if "k" in probes then probes["k"] else UNPROBED)
    ensures SyncProbes(env, RoleNode, probes, [SPOKE], 0) == map["k" := SyncOne(ps, ["a"], 0)]
  {
    SpokeCandidates(env);
    assert [SPOKE][..0] == [];
    assert SyncPeers(env, RoleNode, probes, [], 0) == probes;
    assert SyncPeers(env, RoleNode, probes, [SPOKE], 0) == probes["k" := SyncOne(ps, ["a"], 0)];
    assert SPOKE in [SPOKE] && ManagedKeys(RoleNode, [SPOKE]) == {"k"};
  }

  lemma FirstApply(env: Env)
    requires Fits(env)
    ensures var st := Run(env, Boot(RoleNode), Applying());
      && st.nm == Some(MAP) && st.pin == "" && st.role == RoleNode
      && st.probes == map["k" := FOUND] && st.device == [PeerConfig("k", "", [], 0)]
  {
    RunSnoc(env, Boot(RoleNode), [], Sync(MAP, 0, OK_IO));
    SyncSpoke(env, map[], UNPROBED);
    assert SyncOne(UNPROBED, ["a"], 0) == FOUND;
    var probes := map["k" := FOUND];
    assert ComposeAll(RoleNode, probes, MAP.peers) == [PeerConfig("k", "", [], 0)];
  }

  lemma Promotion(env: Env, statuses: seq<PeerStatus>)
    requires statuses == UP
    ensures StepAll(map["k" := FOUND], Report(statuses), 0) == map["k" := PROMOTED]
    ensures StepAll(map["k" := PROMOTED], Report(statuses), 0) == map["k" := PROMOTED]
  {
    assert statuses[..0] == [] && Report([]) == map[];
    assert Report(statuses)["k"] == Seen(0, "a");
  }

  /**
   * From a fresh start: the netmap is applied, the peer's handshake promotes it,
   * the device call of the re-apply fails. The peer is then in phase direct with
   * no AllowedIPs on the device, and further ticks that change nothing leave it so.
   */
  lemma FailedReapplyWitness(env: Env)
    requires Fits(env)
    ensures var st := Run(env, Boot(RoleNode), Failing());
      && "k" in st.probes && st.probes["k"].phase == Direct && st.device == [PeerConfig("k", "", [], 0)]
      && !InSync(st) && !Landed(env, RoleNode, Failing())
      && Step(env, st, Tick(UP, 0, OK_IO)) == st
  {
    var before := Run(env, Boot(RoleNode), Applying());
    FirstApply(env);
    RunSnoc(env, Boot(RoleNode), Applying(), Tick(UP, 0, DEVICE_FAILS));
    Promotion(env, UP);
    SyncSpoke(env, map["k" := PROMOTED], PROMOTED);
    var st := Run(env, Boot(RoleNode), Failing());
    assert st.probes == map["k" := PROMOTED] && st.nm == Some(MAP);
    assert Composition(st)[0].allowed == [Host(1)];
    RunInSyncIff(env, RoleNode, Failing());
  }
}
