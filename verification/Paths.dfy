/** What the device is told about each peer, and how probing shows on it (internal/agent/probe.go, composePeers in agent.go). */
module Paths {
  import opened Text
  import opened Net
  import opened Options
  import opened Store
  import opened Netmaps
  import opened Prober
  import opened Agents

  // ---------- one entry ----------

  /** The path of a direct peer: where its handshake came from, else its current candidate, if it still has one. */
  function PathOf(ps: ProbeState): string { if ps.confirmed != "" then ps.confirmed else EndpointOf(ps) }

  /** How a managed peer in this state is installed. */
  function Entry(p: Peer, ps: ProbeState): PeerConfig
    requires ps.phase == Probing ==> ps.candIdx < |ps.candidates|
  {
    match ps.phase
    case Idle => PeerConfig(p.key, "", [], 0)
    case Probing => PeerConfig(p.key, ps.candidates[ps.candIdx], [], p.keepaliveSec)
    case Direct => PeerConfig(p.key, PathOf(ps), p.allowed, if PathOf(ps) == "" then 0 else p.keepaliveSec)
  }

  lemma ComposeIsEntry(role: Role, probes: map<string, ProbeState>, p: Peer)
    requires p.key in probes && WellFormed(probes[p.key])
    ensures Compose(role, probes, p) ==
      if Managed(role, p) then Entry(p, probes[p.key])
      else PeerConfig(p.key, p.endpoint, p.allowed, if p.endpoint == "" then 0 else p.keepaliveSec)
  {
    var ps := probes[p.key];
    if ps.phase == Probing {
      assert ps.candidates[ps.candIdx] in ps.candidates;
    }
  }

  /**
   * Over every run whose last composition landed: a probing peer is on the device
   * with its current candidate and its keepalive, an idle one without either, a
   * direct one with its path and its AllowedIPs.
   */
  lemma InstalledAs(env: Env, role: Role, events: seq<Event>, i: nat)
    requires EnvOk(env) && Landed(env, role, events)
    requires Run(env, Boot(role), events).nm.Some? && i < |Run(env, Boot(role), events).nm.value.peers|
    requires Managed(role, Run(env, Boot(role), events).nm.value.peers[i])
    ensures var st := Run(env, Boot(role), events);
      var p := st.nm.value.peers[i];
      |st.device| == |st.nm.value.peers| && p.key in st.probes && WellFormed(st.probes[p.key]) && st.device[i] == Entry(p, st.probes[p.key])
  {
    RunInSyncIff(env, role, events);
    RunOk(env, role, events);
    var st := Run(env, Boot(role), events);
    var p := st.nm.value.peers[i];
    WantedManaged(env, role, st.nm.value.peers, p.key);
    assert p.key in ManagedKeys(role, st.nm.value.peers);
    ComposeIsEntry(role, st.probes, p);
  }

  // ---------- a tick, peer by peer ----------

  /** A managed key belongs to one entry. */
  ghost predicate KeysDecide(role: Role, peers: seq<Peer>) {
    forall p, q :: p in peers && q in peers && Managed(role, p) && Managed(role, q) && p.key == q.key ==> p == q
  }

  /** The tracked candidates are those the entries give. */
  ghost predicate Agrees(env: Env, role: Role, probes: map<string, ProbeState>, peers: seq<Peer>) {
    forall p :: p in peers && Managed(role, p) ==>
      p.key in probes && JoinCSV(probes[p.key].candidates) == JoinCSV(ValidOf(env.dialable, p.candidates))
  }

  lemma TrackedAgrees(env: Env, role: Role, probes: map<string, ProbeState>, peers: seq<Peer>)
    requires Tracks(env, role, probes, peers) && KeysDecide(role, peers)
    ensures Agrees(env, role, probes, peers)
  {
    forall p | p in peers && Managed(role, p)
      ensures p.key in probes && JoinCSV(probes[p.key].candidates) == JoinCSV(ValidOf(env.dialable, p.candidates))
    {
      WantedManaged(env, role, peers, p.key);
      assert p.key in ManagedKeys(role, peers);
      var q := WantedEntry(env, role, peers, p.key);
    }
  }

  /** Syncing with entries that agree changes nothing. */
  lemma {:induction false} SyncIsIdle(env: Env, role: Role, probes: map<string, ProbeState>, peers: seq<Peer>, now: int)
    requires Agrees(env, role, probes, peers)
    ensures SyncPeers(env, role, probes, peers, now) == probes
  {
    if peers != [] {
      var init, p := peers[..|peers| - 1], peers[|peers| - 1];
      assert p in peers && forall q :: q in init ==> q in peers;
      SyncIsIdle(env, role, probes, init, now);
    }
  }

  lemma StepAgrees(env: Env, role: Role, probes: map<string, ProbeState>, peers: seq<Peer>, report: map<string, Seen>, now: int)
    requires Agrees(env, role, probes, peers)
    ensures Agrees(env, role, StepAll(probes, report, now), peers)
  {
  }

  lemma AppliedProbes(env: Env, st: AgentState, nm: Netmap, now: int, io: Io)
    ensures var lock, t := Enforce(env, st.pin, nm, io.pinSaveOk), Applied(env, st, nm, now, io);
      && t.probes == (if lock.nm.Some? then SyncProbes(env, st.role, st.probes, lock.nm.value.peers, now) else st.probes)
      && t.nm == (if lock.nm.Some? then lock.nm else st.nm) && t.pin == lock.pin && t.role == st.role
  {
  }

  lemma EnforceAgrees(env: Env, role: Role, probes: map<string, ProbeState>, pin: string, nm: Netmap, saveOk: bool)
    requires Agrees(env, role, probes, nm.peers)
    ensures var lock := Enforce(env, pin, nm, saveOk); lock.nm.Some? ==> Agrees(env, role, probes, lock.nm.value.peers)
  {
    VerifiedMembers(env, Enforce(env, pin, nm, saveOk).pin, nm.peers);
  }

  /** A re-apply keeps the states of the peers the lock lets through. */
  lemma ReapplyProbes(env: Env, st: AgentState, now: int, io: Io)
    requires st.nm.Some? && Agrees(env, st.role, st.probes, st.nm.value.peers)
    ensures var t := Applied(env, st, st.nm.value, now, io);
      && (forall k :: k in t.probes ==> k in st.probes && t.probes[k] == st.probes[k])
      && (t.nm == st.nm && ManagedKeys(st.role, st.nm.value.peers) == st.probes.Keys ==> t.probes == st.probes)
  {
    var passed := Enforce(env, st.pin, st.nm.value, io.pinSaveOk).nm;
    AppliedProbes(env, st, st.nm.value, now, io);
    if passed.Some? {
      EnforceAgrees(env, st.role, st.probes, st.pin, st.nm.value, io.pinSaveOk);
      SyncIsIdle(env, st.role, st.probes, passed.value.peers, now);
    }
  }

  /** Whatever a tick re-applies, each peer still tracked has made exactly its own step. */
  lemma TickSteps(env: Env, st: AgentState, statuses: seq<PeerStatus>, now: int, io: Io, k: string)
    requires EnvOk(env) && ProbesOk(env, st) && (st.nm.Some? ==> KeysDecide(st.role, st.nm.value.peers))
    ensures var t := Ticked(env, st, statuses, now, io);
      k in t.probes ==> k in st.probes && t.probes[k] == StepOne(st.probes[k], now, SeenOf(Report(statuses), k).handshake, SeenOf(Report(statuses), k).live)
  {
    var stepped := st.(probes := StepAll(st.probes, Report(statuses), now));
    if st.nm.Some? {
      TrackedAgrees(env, st.role, st.probes, st.nm.value.peers);
      StepAgrees(env, st.role, st.probes, st.nm.value.peers, Report(statuses), now);
      ReapplyProbes(env, stepped, now, io);
    }
  }

  /**
   * Progress, over every run: after a tick a tracked peer is direct iff it has
   * candidates and its handshake is recent, and a newly direct one has the
   * reported endpoint confirmed.
   */
  lemma TickDirectIff(env: Env, role: Role, events: seq<Event>, tick: Event, k: string)
    requires EnvOk(env) && tick.Tick?
    requires var st := Run(env, Boot(role), events); st.nm.Some? ==> KeysDecide(role, st.nm.value.peers)
    requires k in Step(env, Run(env, Boot(role), events), tick).probes
    ensures var st := Run(env, Boot(role), events);
      var t, seen := Step(env, st, tick), SeenOf(Report(tick.statuses), k);
      && k in st.probes && t.probes[k].candidates == st.probes[k].candidates
      && (t.probes[k].phase == Direct <==>
            st.probes[k].candidates != [] && Recent(st.probes[k].phase, tick.now, seen.handshake, seen.live))
      && (t.probes[k].phase == Direct ==> t.probes[k].confirmed == if st.probes[k].phase == Direct then st.probes[k].confirmed else seen.live)
  {
    RunOk(env, role, events);
    var st, seen := Run(env, Boot(role), events), SeenOf(Report(tick.statuses), k);
    TickSteps(env, st, tick.statuses, tick.now, tick.io, k);
    StepDirectIff(st.probes[k], tick.now, seen.handshake, seen.live);
    StepKeepsWellFormed(st.probes[k], tick.now, seen.handshake, seen.live);
  }

  /** With a good device call, the tick that moves a peer also installs what its new phase asks for. */
  lemma MoveInstalls(env: Env, role: Role, events: seq<Event>, tick: Event, i: nat)
    requires EnvOk(env) && tick.Tick? && tick.io.deviceOk && forall j :: 0 <= j < |events| ==> GoodEvent(env, events[j])
    requires var st, t := Run(env, Boot(role), events), Step(env, Run(env, Boot(role), events), tick);
      && st.nm.Some? && KeysDecide(role, st.nm.value.peers) && t.nm.Some? && i < |t.nm.value.peers| && Managed(role, t.nm.value.peers[i])
      && t.nm.value.peers[i].key in t.probes && t.nm.value.peers[i].key in st.probes
      && t.probes[t.nm.value.peers[i].key] != st.probes[t.nm.value.peers[i].key]
    ensures var t := Step(env, Run(env, Boot(role), events), tick);
      var p := t.nm.value.peers[i];
      WellFormed(t.probes[p.key]) && |t.device| == |t.nm.value.peers| && t.device[i] == Entry(p, t.probes[p.key])
  {
    var st := Run(env, Boot(role), events);
    var t := Step(env, st, tick);
    var p := t.nm.value.peers[i];
    RunOk(env, role, events);
    TickSteps(env, st, tick.statuses, tick.now, tick.io, p.key);
    assert StepAll(st.probes, Report(tick.statuses), tick.now)[p.key] != st.probes[p.key];
    GoodRunInstalls(env, role, events, tick);
    StepInSyncIff(env, st, tick);
    StepOk(env, st, tick);
    ComposeIsEntry(role, t.probes, p);
  }

  // ---------- probing on the device ----------

  /** A daemon in sync, whose netmap passes its own lock again whole. */
  ghost predicate Steady(env: Env, st: AgentState) {
    && st.nm.Some? && ProbesOk(env, st) && KeysDecide(st.role, st.nm.value.peers) && Sound(env, st) && InSync(st)
    && (st.pin == "" || VerifiedPeers(env, st.pin, st.nm.value.peers) == st.nm.value.peers)
  }

  lemma SteadyEnforce(env: Env, st: AgentState, saveOk: bool)
    requires Steady(env, st)
    ensures Enforce(env, st.pin, st.nm.value, saveOk).nm == st.nm && Enforce(env, st.pin, st.nm.value, saveOk).pin == st.pin
  {
  }

  /** Every successful apply of a well-formed netmap ends steady. */
  lemma SyncIsSteady(env: Env, role: Role, events: seq<Event>, nm: Netmap, now: int, io: Io)
    requires EnvOk(env) && (forall i :: 0 <= i < |events| ==> GoodEvent(env, events[i])) && GoodNetmap(env, nm) && KeysDecide(role, nm.peers)
    requires io.deviceOk && Enforce(env, Run(env, Boot(role), events).pin, nm, io.pinSaveOk).nm.Some?
    ensures Steady(env, Step(env, Run(env, Boot(role), events), Sync(nm, now, io)))
  {
    var st, e := Run(env, Boot(role), events), Sync(nm, now, io);
    RunOk(env, role, events);
    StepOk(env, st, e);
    RunKeepsSound(env, role, events);
    StepKeepsSound(env, st, e);
    GoodRunInstalls(env, role, events, e);
    StepInSyncIff(env, st, e);
    AppliedProbes(env, st, nm, now, io);
    PassedTwice(env, role, st.pin, nm, io.pinSaveOk);
  }

  lemma PassedTwice(env: Env, role: Role, pin: string, nm: Netmap, saveOk: bool)
    requires KeysDecide(role, nm.peers)
    ensures var lock := Enforce(env, pin, nm, saveOk);
      lock.nm.Some? ==> KeysDecide(role, lock.nm.value.peers) && (lock.pin == "" || VerifiedPeers(env, lock.pin, lock.nm.value.peers) == lock.nm.value.peers)
  {
    var lock := Enforce(env, pin, nm, saveOk);
    VerifiedMembers(env, lock.pin, nm.peers);
    FilterIdempotent(env, lock.pin, nm.peers);
  }

  lemma SteadyReapply(env: Env, st: AgentState, probes: map<string, ProbeState>, now: int, io: Io)
    requires Steady(env, st) && probes.Keys == st.probes.Keys && Agrees(env, st.role, probes, st.nm.value.peers)
    ensures var t := Applied(env, st.(probes := probes), st.nm.value, now, io);
      t.nm == st.nm && t.role == st.role && t.pin == st.pin && t.probes == probes
  {
    var stepped := st.(probes := probes);
    SteadyEnforce(env, st, io.pinSaveOk);
    AppliedProbes(env, stepped, st.nm.value, now, io);
    ManagedAreTracked(env, st.role, st.probes, st.nm.value.peers);
    ReapplyProbes(env, stepped, now, io);
  }

  /** A tick steps every peer and leaves the rest of the memory alone. */
  lemma SteadyTickSteps(env: Env, st: AgentState, statuses: seq<PeerStatus>, now: int, io: Io)
    requires Steady(env, st)
    ensures var t := Ticked(env, st, statuses, now, io);
      t.nm == st.nm && t.role == st.role && t.pin == st.pin && t.probes == StepAll(st.probes, Report(statuses), now)
  {
    var report, peers := Report(statuses), st.nm.value.peers;
    TrackedAgrees(env, st.role, st.probes, peers);
    StepAgrees(env, st.role, st.probes, peers, report, now);
    SteadyReapply(env, st, StepAll(st.probes, report, now), now, io);
  }

  lemma SteadyTickInSync(env: Env, st: AgentState, statuses: seq<PeerStatus>, now: int, io: Io)
    requires Steady(env, st) && io.deviceOk
    ensures InSync(Ticked(env, st, statuses, now, io))
  {
    var e := Tick(statuses, now, io);
    SteadyTickSteps(env, st, statuses, now, io);
    SteadyEnforce(env, st, io.pinSaveOk);
    var t := Step(env, st, e);
    GoodComposable(env, t.role, t.probes, t.nm.value);
    StepInSyncIff(env, st, e);
  }

  lemma SteadyTick(env: Env, st: AgentState, statuses: seq<PeerStatus>, now: int, io: Io)
    requires EnvOk(env) && Steady(env, st) && io.deviceOk
    ensures Steady(env, Ticked(env, st, statuses, now, io))
  {
    var e := Tick(statuses, now, io);
    SteadyTickSteps(env, st, statuses, now, io);
    SteadyTickInSync(env, st, statuses, now, io);
    StepOk(env, st, e);
    StepKeepsSound(env, st, e);
  }

  lemma ManagedAreTracked(env: Env, role: Role, probes: map<string, ProbeState>, peers: seq<Peer>)
    requires Tracks(env, role, probes, peers)
    ensures ManagedKeys(role, peers) == probes.Keys
  {
    forall k ensures k in ManagedKeys(role, peers) <==> k in probes {
      WantedManaged(env, role, peers, k);
    }
  }

  /** Ticks whose device calls succeed. */
  ghost predicate GoodTicks(ticks: seq<Event>) { forall i :: 0 <= i < |ticks| ==> ticks[i].Tick? && ticks[i].io.deviceOk }

  /** What one peer's prober gets to see of such ticks. */
  function LooksOf(ticks: seq<Event>, k: string): seq<Look>
    requires forall i :: 0 <= i < |ticks| ==> ticks[i].Tick?
  {
    seq(|ticks|, i requires 0 <= i < |ticks| => Look(ticks[i].now, SeenOf(Report(ticks[i].statuses), k)))
  }

  lemma {:induction false} SteadyTicks(env: Env, st: AgentState, ticks: seq<Event>)
    requires EnvOk(env) && Steady(env, st) && GoodTicks(ticks)
    ensures var t := Run(env, st, ticks); Steady(env, t) && t.nm == st.nm && t.role == st.role && t.probes.Keys == st.probes.Keys
  {
    if ticks != [] {
      var init, e := ticks[..|ticks| - 1], ticks[|ticks| - 1];
      SteadyTicks(env, st, init);
      SteadyTick(env, Run(env, st, init), e.statuses, e.now, e.io);
      SteadyTickSteps(env, Run(env, st, init), e.statuses, e.now, e.io);
    }
  }

  lemma PeerTick(env: Env, st: AgentState, e: Event, k: string)
    requires Steady(env, st) && e.Tick? && k in st.probes
    ensures var t, seen := Step(env, st, e), SeenOf(Report(e.statuses), k);
      k in t.probes && t.probes[k] == StepOne(st.probes[k], e.now, seen.handshake, seen.live)
  {
    SteadyTickSteps(env, st, e.statuses, e.now, e.io);
  }

  lemma LastTick(env: Env, st: AgentState, ticks: seq<Event>, k: string)
    requires ticks != [] && ticks[|ticks| - 1].Tick? && Steady(env, Run(env, st, ticks[..|ticks| - 1]))
    requires k in Run(env, st, ticks[..|ticks| - 1]).probes
    ensures var e := ticks[|ticks| - 1]; var was, t, seen := Run(env, st, ticks[..|ticks| - 1]), Run(env, st, ticks), SeenOf(Report(e.statuses), k);
      k in t.probes && t.probes[k] == StepOne(was.probes[k], e.now, seen.handshake, seen.live)
  {
    PeerTick(env, Run(env, st, ticks[..|ticks| - 1]), ticks[|ticks| - 1], k);
  }

  lemma LastLook(ps: ProbeState, ticks: seq<Event>, k: string)
    requires ticks != [] && GoodTicks(ticks)
    ensures var e := ticks[|ticks| - 1]; var seen := SeenOf(Report(e.statuses), k);
      TickRun(ps, LooksOf(ticks, k)) == StepOne(TickRun(ps, LooksOf(ticks[..|ticks| - 1], k)), e.now, seen.handshake, seen.live)
  {
    assert LooksOf(ticks, k)[..|ticks| - 1] == LooksOf(ticks[..|ticks| - 1], k);
  }

  /** Over any number of ticks, every peer runs its own state machine. */
  lemma {:induction false} PeerTicks(env: Env, st: AgentState, ticks: seq<Event>, k: string)
    requires EnvOk(env) && Steady(env, st) && GoodTicks(ticks) && k in st.probes
    ensures k in Run(env, st, ticks).probes && Run(env, st, ticks).probes[k] == TickRun(st.probes[k], LooksOf(ticks, k))
  {
    if ticks != [] {
      var init := ticks[..|ticks| - 1];
      SteadyTicks(env, st, init);
      PeerTicks(env, st, init, k);
      LastTick(env, st, ticks, k);
      LastLook(st.probes[k], ticks, k);
    }
  }

  /** And the device follows. */
  lemma DeviceFollows(env: Env, st: AgentState, ticks: seq<Event>, i: nat)
    requires EnvOk(env) && Steady(env, st) && GoodTicks(ticks) && i < |st.nm.value.peers| && Managed(st.role, st.nm.value.peers[i])
    ensures var t, p := Run(env, st, ticks), st.nm.value.peers[i];
      && |t.device| == |st.nm.value.peers| && p.key in st.probes && WellFormed(TickRun(st.probes[p.key], LooksOf(ticks, p.key)))
      && t.device[i] == Entry(p, TickRun(st.probes[p.key], LooksOf(ticks, p.key)))
  {
    var t, p := Run(env, st, ticks), st.nm.value.peers[i];
    ManagedAreTracked(env, st.role, st.probes, st.nm.value.peers);
    assert p.key in ManagedKeys(st.role, st.nm.value.peers);
    SteadyTicks(env, st, ticks);
    PeerTicks(env, st, ticks, p.key);
    ComposeIsEntry(st.role, t.probes, p);
  }

  /** After the first m of some ticks the device shows what the peer's state machine has come to. */
  lemma DeviceAfter(env: Env, st: AgentState, ticks: seq<Event>, i: nat, m: nat)
    requires EnvOk(env) && Steady(env, st) && GoodTicks(ticks) && i < |st.nm.value.peers| && Managed(st.role, st.nm.value.peers[i])
    requires m <= |ticks|
    ensures var t, p := Run(env, st, ticks[..m]), st.nm.value.peers[i];
      && |t.device| == |st.nm.value.peers| && p.key in st.probes && WellFormed(TickRun(st.probes[p.key], LooksOf(ticks, p.key)[..m]))
      && t.device[i] == Entry(p, TickRun(st.probes[p.key], LooksOf(ticks, p.key)[..m]))
  {
    var p := st.nm.value.peers[i];
    DeviceFollows(env, st, ticks[..m], i);
    assert LooksOf(ticks[..m], p.key) == LooksOf(ticks, p.key)[..m];
  }

  /** A stretch of good ticks in which a peer that has just begun probing hears nothing. */
  ghost predicate SilentStretch(env: Env, st: AgentState, ticks: seq<Event>, start: int, i: nat) {
    && Steady(env, st) && GoodTicks(ticks) && i < |st.nm.value.peers| && Managed(st.role, st.nm.value.peers[i])
    && var k := st.nm.value.peers[i].key;
       && k in st.probes && Begins(st.probes[k], st.probes[k].candidates, start)
       && Ticking(start, LooksOf(ticks, k)) && Silent(LooksOf(ticks, k)) && NotAfter(LooksOf(ticks, k), start + RETRY_AFTER_FAIL)
  }

  /**
   * Probing as the device sees it: in a silent stretch the peer is on the device
   * with candidate 0, 1, 2 and so on, each for 10 to 13 seconds, then without an
   * endpoint.
   */
  lemma CandidatesInstalled(env: Env, st: AgentState, ticks: seq<Event>, start: int, i: nat)
    requires EnvOk(env) && SilentStretch(env, st, ticks, start, i)
    ensures var t, p := Run(env, st, ticks), st.nm.value.peers[i];
      var ps := TickRun(st.probes[p.key], LooksOf(ticks, p.key));
      && |t.device| == |st.nm.value.peers| && OnSchedule(ps, st.probes[p.key].candidates, start, LastAt(start, LooksOf(ticks, p.key)))
      && t.device[i] == if ps.phase == Probing then PeerConfig(p.key, st.probes[p.key].candidates[ps.candIdx], [], p.keepaliveSec)
                        else PeerConfig(p.key, "", [], 0)
  {
    var p := st.nm.value.peers[i];
    DeviceFollows(env, st, ticks, i);
    assert WellFormed(st.probes[p.key]);
    ProbingSchedule(st.probes[p.key], start, LooksOf(ticks, p.key));
  }

  /** And each candidate does get its turn there, if the stretch ends idle. */
  lemma EachCandidateInstalled(env: Env, st: AgentState, ticks: seq<Event>, start: int, i: nat, c: nat) returns (m: nat)
    requires EnvOk(env) && SilentStretch(env, st, ticks, start, i)
    requires var k := st.nm.value.peers[i].key;
      TickRun(st.probes[k], LooksOf(ticks, k)).phase == Idle && c < |st.probes[k].candidates|
    ensures m <= |ticks| && i < |Run(env, st, ticks[..m]).device|
    ensures Run(env, st, ticks[..m]).device[i].endpoint == st.probes[st.nm.value.peers[i].key].candidates[c]
  {
    var k := st.nm.value.peers[i].key;
    m := TurnOf(st.probes[k], start, LooksOf(ticks, k), c);
    DeviceAfter(env, st, ticks, i, m);
  }

  lemma TurnOf(ps: ProbeState, start: int, looks: seq<Look>, c: nat) returns (m: nat)
    requires Ticking(start, looks) && Silent(looks) && NotAfter(looks, start + RETRY_AFTER_FAIL)
    requires Begins(ps, ps.candidates, start) && TickRun(ps, looks).phase == Idle && c < |ps.candidates|
    ensures m <= |looks|
    ensures var at := TickRun(ps, looks[..m]); at.phase == Probing && at.candIdx == c && at.candidates == ps.candidates
  {
    ProbingSchedule(ps, start, looks);
    m := EachCandidateTried(ps, start, looks, c);
    TickRunKeepsCandidates(ps, looks[..m]);
  }

  lemma {:induction false} TickRunKeepsCandidates(ps: ProbeState, looks: seq<Look>)
    ensures TickRun(ps, looks).candidates == ps.candidates
  {
    if looks != [] {
      TickRunKeepsCandidates(ps, looks[..|looks| - 1]);
    }
  }

  // ---------- where a direct path came from ----------

  /** The peer is direct over this confirmed path. */
  ghost predicate DirectOn(st: AgentState, k: string, path: string) {
    k in st.probes && st.probes[k].phase == Direct && st.probes[k].confirmed == path
  }

  /** The same, after the first m events of a run. */
  ghost predicate DirectAt(env: Env, role: Role, events: seq<Event>, m: nat, k: string, path: string) {
    m <= |events| && DirectOn(Run(env, Boot(role), events[..m]), k, path)
  }

  /** A direct path was confirmed by the tick that promoted the peer, and has lasted since. */
  ghost predicate DirectSince(env: Env, role: Role, events: seq<Event>, j: nat, k: string, path: string)
    requires j <= |events|
  {
    forall m :: j <= m <= |events| ==> DirectAt(env, role, events, m, k, path)
  }

  lemma StepDirect(env: Env, st: AgentState, e: Event, k: string)
    requires EnvOk(env) && ProbesOk(env, st) && k in Step(env, st, e).probes && Step(env, st, e).probes[k].phase == Direct
    ensures var t := Step(env, st, e);
      || SameDirect(st.probes, t.probes, k)
      || (e.Tick? && t.probes[k].confirmed == SeenOf(Report(e.statuses), k).live)
  {
    ProbesOkWellFormed(env, st);
    match e
    case Sync(nm, now, io) => AppliedOk(env, st, nm, now, io);
    case Tick(statuses, now, io) => TickDirect(env, st, statuses, now, io, k);
    case Restart(clean, now, io) =>
      if st.diskCached.Some? {
        AppliedOk(env, Reloaded(st, clean), st.diskCached.value, now, io);
      }
  }

  lemma TickDirect(env: Env, st: AgentState, statuses: seq<PeerStatus>, now: int, io: Io, k: string)
    requires EnvOk(env) && ProbesOk(env, st)
    requires k in Ticked(env, st, statuses, now, io).probes && Ticked(env, st, statuses, now, io).probes[k].phase == Direct
    ensures var t := Ticked(env, st, statuses, now, io);
      SameDirect(st.probes, t.probes, k) || t.probes[k].confirmed == SeenOf(Report(statuses), k).live
  {
    var report := Report(statuses);
    var stepped := st.(probes := StepAll(st.probes, report, now));
    if st.nm.Some? {
      StepTracks(env, st.role, st.probes, st.nm.value.peers, report, now);
      AppliedOk(env, stepped, st.nm.value, now, io);
      StepDirectIff(st.probes[k], now, SeenOf(report, k).handshake, SeenOf(report, k).live);
    }
  }

  /** The tick at which the device reported this path, and since which the peer has been direct over it. */
  ghost predicate ConfirmedAt(env: Env, role: Role, events: seq<Event>, j: nat, k: string, path: string) {
    && j < |events| && events[j].Tick? && SeenOf(Report(events[j].statuses), k).live == path
    && DirectSince(env, role, events, j + 1, k, path)
  }

  /** Nobody is direct at boot, and the last event either found the peer direct over the path or confirmed it. */
  lemma LastConfirms(env: Env, role: Role, events: seq<Event>, k: string, path: string)
    requires EnvOk(env) && DirectOn(Run(env, Boot(role), events), k, path)
    ensures events != []
    ensures var e := events[|events| - 1];
      DirectOn(Run(env, Boot(role), events[..|events| - 1]), k, path) || (e.Tick? && SeenOf(Report(e.statuses), k).live == path)
  {
    var init, e := events[..|events| - 1], events[|events| - 1];
    RunOk(env, role, init);
    StepDirect(env, Run(env, Boot(role), init), e, k);
  }

  /** The moment before the peer's current spell of being direct. */
  lemma {:induction false} SpellStart(env: Env, role: Role, events: seq<Event>, n: nat, k: string, path: string) returns (j: nat)
    requires !DirectAt(env, role, events, 0, k, path) && DirectAt(env, role, events, n, k, path)
    ensures j < n && !DirectAt(env, role, events, j, k, path) && forall m :: j < m <= n ==> DirectAt(env, role, events, m, k, path)
  {
    if DirectAt(env, role, events, n - 1, k, path) {
      j := SpellStart(env, role, events, n - 1, k, path);
    } else {
      j := n - 1;
    }
  }

  lemma ConfirmedThen(env: Env, role: Role, events: seq<Event>, j: nat, k: string, path: string)
    requires EnvOk(env) && j < |events| && !DirectAt(env, role, events, j, k, path) && DirectAt(env, role, events, j + 1, k, path)
    ensures events[j].Tick? && SeenOf(Report(events[j].statuses), k).live == path
  {
    assert events[..j + 1][..j] == events[..j];
    LastConfirms(env, role, events[..j + 1], k, path);
  }

  lemma NotAtBoot(env: Env, role: Role, events: seq<Event>, k: string, path: string)
    ensures !DirectAt(env, role, events, 0, k, path)
    ensures DirectAt(env, role, events, |events|, k, path) <==> DirectOn(Run(env, Boot(role), events), k, path)
  {
    assert events[..0] == [] && events[..|events|] == events;
  }

  /** The confirmed path of a direct peer is the endpoint the device reported at a tick since which the peer has been direct. */
  lemma PathWasReported(env: Env, role: Role, events: seq<Event>, k: string, path: string) returns (j: nat)
    requires EnvOk(env) && DirectOn(Run(env, Boot(role), events), k, path)
    ensures ConfirmedAt(env, role, events, j, k, path)
  {
    NotAtBoot(env, role, events, k, path);
    j := SpellStart(env, role, events, |events|, k, path);
    ConfirmedThen(env, role, events, j, k, path);
  }

  /** If the device names an endpoint for every peer it reports, every direct peer has one. */
  lemma ReportedPathsDial(env: Env, role: Role, events: seq<Event>, k: string)
    requires EnvOk(env) && k in Run(env, Boot(role), events).probes && Run(env, Boot(role), events).probes[k].phase == Direct
    requires forall i :: 0 <= i < |events| && events[i].Tick? ==> SeenOf(Report(events[i].statuses), k).live != ""
    ensures PathOf(Run(env, Boot(role), events).probes[k]) != ""
  {
    var j := PathWasReported(env, role, events, k, Run(env, Boot(role), events).probes[k].confirmed);
  }

  /** Exactly when a direct peer has a path at all. */
  lemma PathIff(ps: ProbeState)
    requires WellFormed(ps) && ps.phase == Direct
    ensures PathOf(ps) != "" <==> ps.confirmed != "" || ps.candIdx < |ps.candidates|
  {
    if ps.candIdx < |ps.candidates| {
      assert ps.candidates[ps.candIdx] in ps.candidates;
    }
  }

  /** It may have none: promoted with no endpoint reported, then left with fewer candidates. */
  lemma NoPathWitness()
    ensures var ps := SyncOne(StepOne(ProbeState(Probing, ["a", "b"], 1, 0, 0, ""), 0, 0, ""), ["c"], 0);
      ps.phase == Direct && PathOf(ps) == ""
  {
  }

  // ---------- pins and restarts ----------

  /** The first lock key seen is pinned; it reaches the disk iff the save succeeds, and nothing is applied if it does not. */
  lemma PinTakes(env: Env, st: AgentState, nm: Netmap, now: int, io: Io)
    requires st.pin == "" && nm.lockKey != ""
    ensures var t := Applied(env, st, nm, now, io);
      && t.pin == nm.lockKey
      && (io.pinSaveOk ==> t.diskPin == nm.lockKey)
      && (!io.pinSaveOk ==> t == st.(pin := nm.lockKey))
      && (io.pinSaveOk && !env.lockKeyOk(nm.lockKey) ==> t == st.(pin := nm.lockKey, diskPin := nm.lockKey, diskCached := st.cached))
  {
  }

  lemma AppliedIsCached(env: Env, st: AgentState, nm: Netmap, now: int, io: Io)
    requires GoodNetmap(env, nm) && Enforce(env, st.pin, nm, io.pinSaveOk).nm.Some? && io.deviceOk
    ensures var t := Applied(env, st, nm, now, io);
      t.nm.Some? && t.nm == Enforce(env, st.pin, nm, io.pinSaveOk).nm && t.pin == Enforce(env, st.pin, nm, io.pinSaveOk).pin && t.cached == t.nm
  {
    EnforceKeepsGood(env, st.pin, nm, io.pinSaveOk);
    var nm1 := Enforce(env, st.pin, nm, io.pinSaveOk).nm.value;
    GoodComposable(env, st.role, SyncProbes(env, st.role, st.probes, nm1.peers, now), nm1);
  }

  lemma CachedIsNotSaved(env: Env, st: AgentState, nm: Netmap, now: int, io: Io)
    requires Enforce(env, st.pin, nm, io.pinSaveOk).nm == st.cached && !Enforce(env, st.pin, nm, io.pinSaveOk).saved
    ensures var t := Applied(env, st, nm, now, io); t.diskPin == st.diskPin && t.diskCached == st.diskCached && t.cached == st.cached
  {
  }

  /** A netmap once applied is the cached one: applying it again, as every promotion does, writes nothing to disk. */
  lemma ReapplyWritesNothing(env: Env, st: AgentState, nm: Netmap, now: int, io: Io, now': int, io': Io)
    requires GoodNetmap(env, nm) && Enforce(env, st.pin, nm, io.pinSaveOk).nm.Some? && io.deviceOk
    ensures var t := Applied(env, st, nm, now, io);
      && t.nm.Some? && t.cached == t.nm
      && var u := Applied(env, t, t.nm.value, now', io');
         u.diskPin == t.diskPin && u.diskCached == t.diskCached && u.cached == t.cached
  {
    AppliedIsCached(env, st, nm, now, io);
    EnforceTwice(env, st.pin, nm, io.pinSaveOk, io'.pinSaveOk);
    var t := Applied(env, st, nm, now, io);
    CachedIsNotSaved(env, t, t.nm.value, now', io');
  }

  /** One peer whose key does not parse keeps a whole netmap off the machine. */
  lemma BadKeyBlocks(env: Env, st: AgentState, nm: Netmap, now: int, io: Io, p: Peer)
    requires Enforce(env, st.pin, nm, io.pinSaveOk).nm.Some? && p in Enforce(env, st.pin, nm, io.pinSaveOk).nm.value.peers && !env.wgKeyOk(p.key)
    ensures var t := Applied(env, st, nm, now, io);
      t.device == st.device && t.routes == st.routes && t.hosts == st.hosts && t.filter == st.filter && t.cached == st.cached
  {
    var nm1 := Enforce(env, st.pin, nm, io.pinSaveOk).nm.value;
    var configs := ComposeAll(st.role, SyncProbes(env, st.role, st.probes, nm1.peers, now), nm1.peers);
    var i :| 0 <= i < |nm1.peers| && nm1.peers[i] == p;
    assert configs[i].key == p.key;
  }

  /** A clean shutdown takes names and chains down; a crash leaves both up until the restarted daemon has replaced them. */
  lemma RestartLeaves(env: Env, st: AgentState, clean: bool, now: int, io: Io)
    ensures var r := Restarted(env, st, clean, now, io);
      && (st.diskCached.None? || !io.filterOk || !io.deviceOk ==> r.filter == if clean then NO_FILTER else st.filter)
      && (st.diskCached.None? || !io.hostsOk || !io.deviceOk ==> r.hosts == if clean then [] else st.hosts)
  {
  }

  lemma SavedByApply(env: Env, st: AgentState, nm: Netmap, now: int, io: Io)
    requires Enforce(env, st.pin, nm, io.pinSaveOk).nm.Some? && GoodNetmap(env, nm) && io.deviceOk && io.cacheSaveOk
    requires st.cached != Enforce(env, st.pin, nm, io.pinSaveOk).nm
    ensures var t := Applied(env, st, nm, now, io); t.nm.Some? && t.diskPin == t.pin && t.diskCached == t.nm && t.nm == Enforce(env, st.pin, nm, io.pinSaveOk).nm
  {
    EnforceKeepsGood(env, st.pin, nm, io.pinSaveOk);
    var nm1 := Enforce(env, st.pin, nm, io.pinSaveOk).nm.value;
    GoodComposable(env, st.role, SyncProbes(env, st.role, st.probes, nm1.peers, now), nm1);
  }

  /** A netmap that passed once passes again from the disk, and nobody is direct yet. */
  lemma Reloads(env: Env, st: AgentState, clean: bool, now: int, io: Io)
    requires st.diskCached.Some? && GoodNetmap(env, st.diskCached.value) && io.deviceOk && io.filterOk && io.hostsOk
    requires Enforce(env, st.diskPin, st.diskCached.value, io.pinSaveOk).nm == st.diskCached
    requires Enforce(env, st.diskPin, st.diskCached.value, io.pinSaveOk).pin == st.diskPin
    ensures var r := Restarted(env, st, clean, now, io);
      && r.nm == st.diskCached && r.pin == st.diskPin && r.hosts == st.diskCached.value.hosts
      && r.filter == FilterFor(env, st.role, st.diskCached.value)
      && r.probes == SyncProbes(env, st.role, map[], st.diskCached.value.peers, now)
      && r.device == ComposeAll(st.role, r.probes, st.diskCached.value.peers)
  {
    var nm := st.diskCached.value;
    GoodComposable(env, st.role, SyncProbes(env, st.role, map[], nm.peers, now), nm);
  }

  lemma FreshlyIdle(env: Env, role: Role, peers: seq<Peer>, now: int, p: Peer)
    requires EnvOk(env) && p in peers && Managed(role, p)
    ensures var probes := SyncProbes(env, role, map[], peers, now);
      p.key in probes && Compose(role, probes, p).key == p.key && Compose(role, probes, p).allowed == []
  {
    SyncTracks(env, role, map[], peers, now);
    WantedManaged(env, role, peers, p.key);
    assert p.key in ManagedKeys(role, peers);
  }

  /**
   * A restart with the coordinator out of reach brings the data plane back: after
   * a saved apply, the same netmap, pin, hosts and chains are in force again, the
   * entries with fixed endpoints are as before, and managed peers start over on
   * the relay.
   */
  lemma RestartRestores(env: Env, st: AgentState, nm: Netmap, now: int, io: Io, clean: bool, now': int, io': Io, i: nat)
    requires EnvOk(env) && GoodNetmap(env, nm) && Enforce(env, st.pin, nm, io.pinSaveOk).nm.Some?
    requires st.cached != Enforce(env, st.pin, nm, io.pinSaveOk).nm
    requires io.deviceOk && io.hostsOk && io.filterOk && io.cacheSaveOk && io'.deviceOk && io'.hostsOk && io'.filterOk
    requires i < |Enforce(env, st.pin, nm, io.pinSaveOk).nm.value.peers|
    ensures var t := Applied(env, st, nm, now, io);
      var r := Restarted(env, t, clean, now', io');
      && r.nm == t.nm && r.pin == t.pin && r.hosts == t.hosts && r.filter == t.filter
      && |r.device| == |t.device| && i < |t.device|
      && (if Managed(st.role, t.nm.value.peers[i]) then r.device[i].key == t.device[i].key && r.device[i].allowed == []
          else r.device[i] == t.device[i])
  {
    var t := Applied(env, st, nm, now, io);
    SavedByApply(env, st, nm, now, io);
    EnforceTwice(env, st.pin, nm, io.pinSaveOk, io'.pinSaveOk);
    EnforcePin(env, t.pin, t.nm.value, io'.pinSaveOk);
    EnforceKeepsGood(env, st.pin, nm, io.pinSaveOk);
    AppliedInForce(env, st, nm, now, io);
    Reloads(env, t, clean, now', io');
    var p := t.nm.value.peers[i];
    if Managed(st.role, p) {
      FreshlyIdle(env, st.role, t.nm.value.peers, now', p);
      ComposeShape(st.role, t.probes, p);
    }
  }

  lemma AppliedInForce(env: Env, st: AgentState, nm: Netmap, now: int, io: Io)
    requires GoodNetmap(env, nm) && Enforce(env, st.pin, nm, io.pinSaveOk).nm.Some? && io.deviceOk && io.hostsOk && io.filterOk
    ensures var t := Applied(env, st, nm, now, io);
      t.nm.Some? && t.role == st.role && t.device == ComposeAll(st.role, t.probes, t.nm.value.peers) && t.hosts == t.nm.value.hosts
      && t.filter == FilterFor(env, st.role, t.nm.value)
  {
    EnforceKeepsGood(env, st.pin, nm, io.pinSaveOk);
    var nm1 := Enforce(env, st.pin, nm, io.pinSaveOk).nm.value;
    GoodComposable(env, st.role, SyncProbes(env, st.role, st.probes, nm1.peers, now), nm1);
  }
}
