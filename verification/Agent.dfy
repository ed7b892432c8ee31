/** The node daemon: lock pinning, prober bookkeeping and peer composition (internal/agent). */
module Agents {
  import opened Text
  import opened Net
  import opened Options
  import opened Rules
  import opened Store
  import opened Names
  import opened Netmaps
  import opened Prober

  /** What the daemon calls out to and is configured with. */
  datatype Env = Env(
    verify: (string, string, string) -> bool,  // ed25519: key, message, signature
    lockKeyOk: string -> bool,
    wgKeyOk: string -> bool,
    dialable: string -> bool,
    overlay: Prefix,
    overlayText: string,                       // the same, as the state file writes it
    dns: bool)                                 // the hub's *.kai responder is up

  /** ParseAddrPort rejects the empty text. */
  ghost predicate EnvOk(env: Env) { !env.dialable("") }

  datatype PeerConfig = PeerConfig(key: string, endpoint: string, allowed: seq<Prefix>, keepaliveSec: nat)

  /** What applyFilter is given. */
  datatype Filter = Filter(enabled: bool, input: seq<FilterRule>, forward: seq<ForwardRule>)

  const NO_FILTER := Filter(false, [], [])

  /** The daemon's memory, what it has put in force on the machine, and its state file. */
  datatype AgentState = AgentState(
    role: Role, pin: string, nm: Option<Netmap>, cached: Option<Netmap>, probes: map<string, ProbeState>,
    device: seq<PeerConfig>, routes: seq<Prefix>, hosts: seq<HostEntry>, filter: Filter,
    diskPin: string, diskCached: Option<Netmap>)

  // ---------- network lock ----------

  function LockMessage(key: string, ip: Addr): string { Join(["kai-lock-v1", key, AddrText(ip)], '|') }

  /** A signature covers one binding only: the message determines key and address. */
  lemma LockMessageInjective(k1: string, a1: Addr, k2: string, a2: Addr)
    requires '|' !in k1 && '|' !in k2
    requires LockMessage(k1, a1) == LockMessage(k2, a2)
    ensures k1 == k2 && a1 == a2
  {
    AddrTextChars(a1);
    AddrTextChars(a2);
    var p, q := ["kai-lock-v1", k1, AddrText(a1)], ["kai-lock-v1", k2, AddrText(a2)];
    SplitJoin(p, '|');
    SplitJoin(q, '|');
    assert p[1] == q[1] && p[2] == q[2];
    AddrTextInjective(a1, a2);
  }

  predicate Verified(env: Env, pin: string, p: Peer) {
    p.lockSig != "" && env.verify(pin, LockMessage(p.key, p.ip), p.lockSig)
  }

  function VerifiedPeers(env: Env, pin: string, peers: seq<Peer>): seq<Peer> {
    if peers == [] then []
    else
      var p := peers[|peers| - 1];
      VerifiedPeers(env, pin, peers[..|peers| - 1]) + if Verified(env, pin, p) then [p] else []
  }

  lemma {:induction false} VerifiedMembers(env: Env, pin: string, peers: seq<Peer>)
    ensures forall p :: p in VerifiedPeers(env, pin, peers) <==> p in peers && Verified(env, pin, p)
  {
    if peers != [] {
      VerifiedMembers(env, pin, peers[..|peers| - 1]);
      assert peers == peers[..|peers| - 1] + [peers[|peers| - 1]];
    }
  }

  lemma {:induction false} AllVerifiedKept(env: Env, pin: string, peers: seq<Peer>)
    requires forall p :: p in peers ==> Verified(env, pin, p)
    ensures VerifiedPeers(env, pin, peers) == peers
  {
    if peers != [] {
      var init, p := peers[..|peers| - 1], peers[|peers| - 1];
      assert p in peers && peers == init + [p];
      AllVerifiedKept(env, pin, init);
      calc {
        VerifiedPeers(env, pin, peers);
        VerifiedPeers(env, pin, init) + [p];
        init + [p];
        peers;
      }
    }
  }

  /** Applying an already filtered netmap again drops nothing. */
  lemma FilterIdempotent(env: Env, pin: string, peers: seq<Peer>)
    ensures VerifiedPeers(env, pin, VerifiedPeers(env, pin, peers)) == VerifiedPeers(env, pin, peers)
  {
    VerifiedMembers(env, pin, peers);
    AllVerifiedKept(env, pin, VerifiedPeers(env, pin, peers));
  }

  /** enforceLock: the pin afterwards, whether it was written to disk, and the netmap or an error. */
  datatype LockOutcome = LockOutcome(pin: string, saved: bool, nm: Option<Netmap>)

  function Enforce(env: Env, pin: string, nm: Netmap, saveOk: bool): LockOutcome {
    if pin == "" && nm.lockKey == "" then LockOutcome("", false, Some(nm))
    else if pin != "" && nm.lockKey != "" && nm.lockKey != pin then LockOutcome(pin, false, None)
    else
      var pinning := pin == "";
      var now := if pinning then nm.lockKey else pin;
      if pinning && !saveOk then LockOutcome(now, false, None)
      else if !env.lockKeyOk(now) then LockOutcome(now, pinning, None)
      else LockOutcome(now, pinning, Some(nm.(peers := VerifiedPeers(env, now, nm.peers))))
  }

  // ---------- prober bookkeeping ----------

  /** Spokes own peers without a fixed endpoint; everything else applies verbatim. */
  predicate Managed(role: Role, p: Peer) { role != RoleHub && p.endpoint == "" && p.role == RoleNode }

  function SyncPeers(env: Env, role: Role, probes: map<string, ProbeState>, peers: seq<Peer>, now: int): map<string, ProbeState> {
    if peers == [] then probes
    else
      var p := peers[|peers| - 1];
      var before := SyncPeers(env, role, probes, peers[..|peers| - 1], now);
      if !Managed(role, p) then before
      else before[p.key := SyncOne(if p.key in before then before[p.key] else UNPROBED, ValidOf(env.dialable, p.candidates), now)]
  }

  function ManagedKeys(role: Role, peers: seq<Peer>): set<string> {
    set p | p in peers && Managed(role, p) :: p.key
  }

  function SyncProbes(env: Env, role: Role, probes: map<string, ProbeState>, peers: seq<Peer>, now: int): map<string, ProbeState> {
    var m := SyncPeers(env, role, probes, peers, now);
    map k | k in m && k in ManagedKeys(role, peers) :: m[k]
  }

  /** The candidates the netmap gives a managed key; the last entry counts. */
  function Wanted(env: Env, role: Role, peers: seq<Peer>, key: string): Option<seq<string>> {
    if peers == [] then None
    else
      var p := peers[|peers| - 1];
      if Managed(role, p) && p.key == key then Some(ValidOf(env.dialable, p.candidates))
      else Wanted(env, role, peers[..|peers| - 1], key)
  }

  // ---------- composition ----------

  function Compose(role: Role, probes: map<string, ProbeState>, p: Peer): PeerConfig {
    var ps := if p.key in probes then probes[p.key] else UNPROBED;
    var (endpoint, allowed) :=
      if !Managed(role, p) then (p.endpoint, p.allowed)
      else match ps.phase
        case Idle => ("", [])
        case Probing => (EndpointOf(ps), [])
        case Direct => (if ps.confirmed != "" then ps.confirmed else EndpointOf(ps), p.allowed);
    PeerConfig(p.key, endpoint, allowed, if endpoint == "" then 0 else p.keepaliveSec)
  }

  function ComposeAll(role: Role, probes: map<string, ProbeState>, peers: seq<Peer>): (r: seq<PeerConfig>)
    ensures |r| == |peers| && forall i :: 0 <= i < |peers| ==> r[i] == Compose(role, probes, peers[i])
  {
    seq(|peers|, i requires 0 <= i < |peers| => Compose(role, probes, peers[i]))
  }

  predicate KeysOk(env: Env, peers: seq<Peer>) { forall i :: 0 <= i < |peers| ==> env.wgKeyOk(peers[i].key) }

  predicate AllowedOk(allowed: seq<Prefix>) { forall i :: 0 <= i < |allowed| ==> allowed[i].addr < INVALID }

  /** composePeers succeeds: every key parses, and every AllowedIPs text that is to be installed. */
  predicate Composable(env: Env, configs: seq<PeerConfig>) {
    forall i :: 0 <= i < |configs| ==> env.wgKeyOk(configs[i].key) && AllowedOk(configs[i].allowed)
  }

  function Outside(overlay: Prefix, allowed: seq<Prefix>): seq<Prefix> {
    if allowed == [] then []
    else
      var p := allowed[|allowed| - 1];
      Outside(overlay, allowed[..|allowed| - 1]) + if Overlaps(p, overlay) then [] else [p]
  }

  /** The prefixes that need an OS route into the tunnel: everything outside the overlay. */
  function SubnetRoutes(overlay: Prefix, configs: seq<PeerConfig>): seq<Prefix> {
    if configs == [] then []
    else SubnetRoutes(overlay, configs[..|configs| - 1]) + Outside(overlay, configs[|configs| - 1].allowed)
  }

  /** syncFilter: the hub's resolver stays reachable whatever the policies say. */
  function FilterFor(env: Env, role: Role, nm: Netmap): Filter {
    var infra := if nm.filterEnabled && role == RoleHub && env.dns
                 then [FilterRule([env.overlayText], Service("udp", ["53"])), FilterRule([env.overlayText], Service("tcp", ["53"]))]
                 else [];
    Filter(nm.filterEnabled, infra + nm.filterRules, nm.forwardRules)
  }

  /** Which of the daemon's outside calls succeed during one apply. */
  datatype Io = Io(pinSaveOk: bool, deviceOk: bool, routesOk: bool, hostsOk: bool, filterOk: bool, cacheSaveOk: bool)

  /** applyNetmap. */
  function Applied(env: Env, st: AgentState, nm: Netmap, now: int, io: Io): AgentState {
    var lock := Enforce(env, st.pin, nm, io.pinSaveOk);
    var st1 := st.(pin := lock.pin,
                   diskPin := if lock.saved then lock.pin else st.diskPin,
                   diskCached := if lock.saved then st.cached else st.diskCached);
    if lock.nm.None? then st1
    else
      var nm1 := lock.nm.value;
      var st2 := st1.(nm := Some(nm1), probes := SyncProbes(env, st.role, st.probes, nm1.peers, now));
      var configs := ComposeAll(st.role, st2.probes, nm1.peers);
      if !Composable(env, configs) || !io.deviceOk then st2
      else
        var st3 := InForce(env, st2, nm1, configs, io);
        if st.cached != Some(nm1) && io.cacheSaveOk
        then st3.(diskPin := st3.pin, diskCached := Some(nm1))
        else st3
  }

  /** Peers are on the device; routes, hosts and filter follow, each keeping its old value when its call fails. */
  function InForce(env: Env, st: AgentState, nm: Netmap, configs: seq<PeerConfig>, io: Io): AgentState {
    st.(device := configs,
        routes := if io.routesOk then SubnetRoutes(env.overlay, configs) else st.routes,
        hosts := if io.hostsOk then nm.hosts else st.hosts,
        filter := if io.filterOk then FilterFor(env, st.role, nm) else st.filter,
        cached := Some(nm))
  }

  datatype PeerStatus = PeerStatus(key: string, endpoint: string, handshake: int)

  /** The device's report by key; the last status of a key counts. */
  function Report(statuses: seq<PeerStatus>): map<string, Seen> {
    if statuses == [] then map[]
    else
      var s := statuses[|statuses| - 1];
      Report(statuses[..|statuses| - 1])[s.key := Seen(s.handshake, s.endpoint)]
  }

  function SeenOf(report: map<string, Seen>, key: string): Seen {
    if key in report then report[key] else Seen(ZERO_TIME, "")
  }

  /** The report says of each peer what its status says, and of anyone else that no handshake was seen. */
  lemma {:induction false} ReportExact(statuses: seq<PeerStatus>, i: nat)
    requires i < |statuses| && forall j :: i < j < |statuses| ==> statuses[j].key != statuses[i].key
    ensures SeenOf(Report(statuses), statuses[i].key) == Seen(statuses[i].handshake, statuses[i].endpoint)
    decreases |statuses|
  {
    if i < |statuses| - 1 {
      ReportExact(statuses[..|statuses| - 1], i);
      assert statuses[|statuses| - 1].key != statuses[i].key;
    }
  }

  lemma {:induction false} ReportSilent(statuses: seq<PeerStatus>, k: string)
    requires forall i :: 0 <= i < |statuses| ==> statuses[i].key != k
    ensures SeenOf(Report(statuses), k) == Seen(ZERO_TIME, "")
  {
    if statuses != [] {
      ReportSilent(statuses[..|statuses| - 1], k);
    }
  }

  function StepAll(probes: map<string, ProbeState>, report: map<string, Seen>, now: int): map<string, ProbeState> {
    map k | k in probes :: StepOne(probes[k], now, SeenOf(report, k).handshake, SeenOf(report, k).live)
  }

  /** probeStep: step every peer and, when one changed, compose again. */
  function Ticked(env: Env, st: AgentState, statuses: seq<PeerStatus>, now: int, io: Io): AgentState {
    var stepped := st.(probes := StepAll(st.probes, Report(statuses), now));
    if stepped.probes != st.probes && st.nm.Some? then Applied(env, stepped, st.nm.value, now, io) else stepped
  }

  /** What a restart keeps: the state file, and after a crash the hosts block and the firewall chains. */
  function Reloaded(st: AgentState, clean: bool): AgentState {
    AgentState(st.role, st.diskPin, None, st.diskCached, map[], [], [],
               if clean then [] else st.hosts, if clean then NO_FILTER else st.filter, st.diskPin, st.diskCached)
  }

  /** A restart, after a clean shutdown or a crash, applies the cached netmap, if there is one. */
  function Restarted(env: Env, st: AgentState, clean: bool, now: int, io: Io): AgentState {
    var st0 := Reloaded(st, clean);
    if st0.cached.Some? then Applied(env, st0, st0.cached.value, now, io) else st0
  }

  datatype Event =
    | Sync(nm: Netmap, now: int, io: Io)
    | Tick(statuses: seq<PeerStatus>, now: int, io: Io)
    | Restart(clean: bool, now: int, io: Io)

  function Step(env: Env, st: AgentState, e: Event): AgentState {
    match e
    case Sync(nm, now, io) => Applied(env, st, nm, now, io)
    case Tick(statuses, now, io) => Ticked(env, st, statuses, now, io)
    case Restart(clean, now, io) => Restarted(env, st, clean, now, io)
  }

  function Run(env: Env, st: AgentState, events: seq<Event>): AgentState {
    if events == [] then st else Step(env, Run(env, st, events[..|events| - 1]), events[|events| - 1])
  }

  function Boot(role: Role): AgentState { AgentState(role, "", None, None, map[], [], [], [], NO_FILTER, "", None) }

  // ---------- the prober invariant ----------

  /** Exactly the managed peers of the netmap are tracked, each in a sound state. */
  ghost predicate Tracks(env: Env, role: Role, probes: map<string, ProbeState>, peers: seq<Peer>) {
    forall k :: (k in probes <==> Wanted(env, role, peers, k).Some?)
                && (k in probes ==> WellFormed(probes[k]) && Follows(probes[k].candidates, Wanted(env, role, peers, k)))
  }

  /** The candidates a peer is tracked with are the wanted ones, as far as joining them tells. */
  ghost predicate Follows(cands: seq<string>, wanted: Option<seq<string>>) {
    wanted.Some? && JoinCSV(cands) == JoinCSV(wanted.value) && (cands == [] <==> wanted.value == [])
  }

  /** Direct before as after, over the same confirmed path. */
  ghost predicate SameDirect(before: map<string, ProbeState>, after: map<string, ProbeState>, k: string)
    requires k in after
  {
    k in before && before[k].phase == Direct && before[k].confirmed == after[k].confirmed
  }

  ghost predicate AllWellFormed(probes: map<string, ProbeState>) { forall k :: k in probes ==> WellFormed(probes[k]) }

  lemma {:induction false} WantedManaged(env: Env, role: Role, peers: seq<Peer>, key: string)
    ensures Wanted(env, role, peers, key).Some? <==> key in ManagedKeys(role, peers)
  {
    if peers != [] {
      var init, p := peers[..|peers| - 1], peers[|peers| - 1];
      assert peers == init + [p];
      WantedManaged(env, role, init, key);
      assert key in ManagedKeys(role, peers) <==> key in ManagedKeys(role, init) || (Managed(role, p) && p.key == key);
    }
  }

  /** Every tracked peer has a netmap entry, and the candidates that entry gives it. */
  lemma {:induction false} WantedEntry(env: Env, role: Role, peers: seq<Peer>, key: string) returns (p: Peer)
    requires Wanted(env, role, peers, key).Some?
    ensures p in peers && Managed(role, p) && p.key == key
    ensures Wanted(env, role, peers, key) == Some(ValidOf(env.dialable, p.candidates))
  {
    p := peers[|peers| - 1];
    if !(Managed(role, p) && p.key == key) {
      p := WantedEntry(env, role, peers[..|peers| - 1], key);
    }
  }

  lemma {:induction false} SyncPeersTracks(env: Env, role: Role, probes: map<string, ProbeState>, peers: seq<Peer>, now: int, key: string)
    requires EnvOk(env) && AllWellFormed(probes)
    ensures var m := SyncPeers(env, role, probes, peers, now);
      && AllWellFormed(m)
      && (Wanted(env, role, peers, key).Some? ==>
            key in m && Follows(m[key].candidates, Wanted(env, role, peers, key)))
      && (key in m && m[key].phase == Direct ==> SameDirect(probes, m, key))
  {
    if peers != [] {
      var init, p := peers[..|peers| - 1], peers[|peers| - 1];
      SyncPeersTracks(env, role, probes, init, now, key);
      if Managed(role, p) {
        SyncPeersTracks(env, role, probes, init, now, p.key);
        var before := SyncPeers(env, role, probes, init, now);
        var cands := ValidOf(env.dialable, p.candidates);
        ValidEmptyIff(env.dialable, p.candidates);
        SyncKeepsWellFormed(if p.key in before then before[p.key] else UNPROBED, cands, now);
      }
    }
  }

  lemma SyncTracks(env: Env, role: Role, probes: map<string, ProbeState>, peers: seq<Peer>, now: int)
    requires EnvOk(env) && AllWellFormed(probes)
    ensures Tracks(env, role, SyncProbes(env, role, probes, peers, now), peers)
    ensures var m := SyncProbes(env, role, probes, peers, now);
      forall k :: k in m && m[k].phase == Direct ==> SameDirect(probes, m, k)
  {
    var m := SyncProbes(env, role, probes, peers, now);
    forall k ensures (k in m <==> Wanted(env, role, peers, k).Some?)
                && (k in m ==> WellFormed(m[k]) && Follows(m[k].candidates, Wanted(env, role, peers, k)))
                && (k in m && m[k].phase == Direct ==> SameDirect(probes, m, k))
    {
      SyncPeersTracks(env, role, probes, peers, now, k);
      WantedManaged(env, role, peers, k);
    }
  }

  lemma StepTracks(env: Env, role: Role, probes: map<string, ProbeState>, peers: seq<Peer>, report: map<string, Seen>, now: int)
    requires Tracks(env, role, probes, peers)
    ensures Tracks(env, role, StepAll(probes, report, now), peers)
    ensures AllWellFormed(StepAll(probes, report, now))
    ensures var m := StepAll(probes, report, now);
      forall k :: k in m && m[k].phase == Direct ==> now - SeenOf(report, k).handshake <= DIRECT_STALE_AFTER
  {
    var m := StepAll(probes, report, now);
    forall k | k in probes
      ensures WellFormed(m[k]) && m[k].candidates == probes[k].candidates
      ensures m[k].phase == Direct ==> now - SeenOf(report, k).handshake <= DIRECT_STALE_AFTER
    {
      StepKeepsWellFormed(probes[k], now, SeenOf(report, k).handshake, SeenOf(report, k).live);
    }
  }

  /** What every reachable daemon state satisfies. */
  ghost predicate ProbesOk(env: Env, st: AgentState) {
    match st.nm
    case None => st.probes == map[]
    case Some(nm) => Tracks(env, st.role, st.probes, nm.peers)
  }

  lemma AppliedOk(env: Env, st: AgentState, nm: Netmap, now: int, io: Io)
    requires EnvOk(env) && AllWellFormed(st.probes) && (Enforce(env, st.pin, nm, io.pinSaveOk).nm.None? ==> ProbesOk(env, st))
    ensures ProbesOk(env, Applied(env, st, nm, now, io))
    ensures var t := Applied(env, st, nm, now, io);
      forall k :: k in t.probes && t.probes[k].phase == Direct ==> SameDirect(st.probes, t.probes, k)
  {
    var lock := Enforce(env, st.pin, nm, io.pinSaveOk);
    if lock.nm.Some? {
      SyncTracks(env, st.role, st.probes, lock.nm.value.peers, now);
    }
  }

  lemma ProbesOkWellFormed(env: Env, st: AgentState)
    requires ProbesOk(env, st)
    ensures AllWellFormed(st.probes)
  {
  }

  lemma TickedOk(env: Env, st: AgentState, statuses: seq<PeerStatus>, now: int, io: Io)
    requires EnvOk(env) && ProbesOk(env, st)
    ensures var t := Ticked(env, st, statuses, now, io);
      && ProbesOk(env, t)
      && forall k :: k in t.probes && t.probes[k].phase == Direct ==> now - SeenOf(Report(statuses), k).handshake <= DIRECT_STALE_AFTER
  {
    var report := Report(statuses);
    var stepped := st.(probes := StepAll(st.probes, report, now));
    if st.nm.Some? {
      StepTracks(env, st.role, st.probes, st.nm.value.peers, report, now);
      if stepped.probes != st.probes {
        AppliedOk(env, stepped, st.nm.value, now, io);
      }
    }
  }

  lemma StepOk(env: Env, st: AgentState, e: Event)
    requires EnvOk(env) && ProbesOk(env, st)
    ensures ProbesOk(env, Step(env, st, e))
  {
    ProbesOkWellFormed(env, st);
    match e
    case Sync(nm, now, io) => AppliedOk(env, st, nm, now, io);
    case Tick(statuses, now, io) => TickedOk(env, st, statuses, now, io);
    case Restart(clean, now, io) =>
      if st.diskCached.Some? {
        AppliedOk(env, Reloaded(st, clean), st.diskCached.value, now, io);
      }
  }

  /** Prober invariant, over every run of netmap applies, probe ticks and restarts. */
  lemma {:induction false} RunOk(env: Env, role: Role, events: seq<Event>)
    requires EnvOk(env)
    ensures ProbesOk(env, Run(env, Boot(role), events))
    ensures Run(env, Boot(role), events).role == role
    ensures events != [] && events[|events| - 1].Tick? ==>
      var t := events[|events| - 1];
      var st := Run(env, Boot(role), events);
      forall k :: k in st.probes && st.probes[k].phase == Direct ==> t.now - SeenOf(Report(t.statuses), k).handshake <= DIRECT_STALE_AFTER
  {
    if events != [] {
      RunOk(env, role, events[..|events| - 1]);
      var st, e := Run(env, Boot(role), events[..|events| - 1]), events[|events| - 1];
      StepOk(env, st, e);
      if e.Tick? {
        TickedOk(env, st, e.statuses, e.now, e.io);
      }
    }
  }

  /**
   * Withdrawal is final: in no reachable state does a peer whose netmap entry
   * gives it no dialable candidate leave idle, whatever the handshakes.
   */
  lemma WithdrawnStaysIdle(env: Env, role: Role, events: seq<Event>, key: string)
    requires EnvOk(env)
    ensures var st := Run(env, Boot(role), events);
      st.nm.Some? && Wanted(env, role, st.nm.value.peers, key) == Some([]) ==>
        key in st.probes && st.probes[key].phase == Idle
  {
    RunOk(env, role, events);
  }

  // ---------- what the device holds ----------

  /** The composition of the current netmap and prober phases. */
  function Composition(st: AgentState): seq<PeerConfig> {
    match st.nm
    case None => []
    case Some(nm) => ComposeAll(st.role, st.probes, nm.peers)
  }

  /** The device holds what netmap and prober phases say. */
  ghost predicate InSync(st: AgentState) { st.device == Composition(st) }

  /** The chains in force are those of the current netmap. */
  ghost predicate FilterInSync(env: Env, st: AgentState) { st.nm.Some? ==> st.filter == FilterFor(env, st.role, st.nm.value) }

  function Before(st: AgentState, e: Event): AgentState { if e.Restart? then Reloaded(st, e.clean) else st }

  /** The netmap an event wants applied, if any: a new one, the current one after a phase change, or the cached one. */
  function Wants(st: AgentState, e: Event): Option<Netmap> {
    match e
    case Sync(nm, _, _) => Some(nm)
    case Tick(statuses, now, _) => if StepAll(st.probes, Report(statuses), now) != st.probes then st.nm else None
    case Restart(_, _, _) => st.diskCached
  }

  /** The lock check lets the event's netmap through. */
  predicate Passes(env: Env, st: AgentState, e: Event) {
    Wants(st, e).Some? && Enforce(env, Before(st, e).pin, Wants(st, e).value, e.io.pinSaveOk).nm.Some?
  }

  /** The event's composition reaches the device and the device takes it. */
  predicate Installs(env: Env, st: AgentState, e: Event) {
    Passes(env, st, e) && Composable(env, Composition(Step(env, st, e))) && e.io.deviceOk
  }

  /** The event changes what should be on the device: a netmap passes the lock, or a phase moved. */
  predicate Recomposes(env: Env, st: AgentState, e: Event) { Passes(env, st, e) || (e.Tick? && Wants(st, e).Some?) }

  /** The composition asked for is on the device: installed by the event, or there already. */
  predicate Lands(env: Env, st: AgentState, e: Event) {
    Installs(env, st, e) || Before(st, e).device == Composition(Step(env, st, e))
  }

  lemma TickInSync(env: Env, st: AgentState, statuses: seq<PeerStatus>, now: int, io: Io)
    ensures var e := Tick(statuses, now, io);
      InSync(Step(env, st, e)) <==> if Recomposes(env, st, e) then Lands(env, st, e) else InSync(st)
  {
    var stepped := st.(probes := StepAll(st.probes, Report(statuses), now));
    if stepped.probes == st.probes {
      assert stepped == st;
    } else if st.nm.Some? {
      ApplyInSync(env, stepped, st.nm.value, now, io);
      if Enforce(env, st.pin, st.nm.value, io.pinSaveOk).nm.None? {
        assert Composition(Applied(env, stepped, st.nm.value, now, io)) == Composition(stepped);
      }
    }
  }

  lemma ApplyInSync(env: Env, st: AgentState, nm: Netmap, now: int, io: Io)
    ensures var lock, t := Enforce(env, st.pin, nm, io.pinSaveOk), Applied(env, st, nm, now, io);
      InSync(t) <==>
        if lock.nm.Some? then (Composable(env, Composition(t)) && io.deviceOk) || st.device == Composition(t) else InSync(st)
  {
  }

  /** After an event the device is in sync iff what it asked for landed, or it asked for nothing and was in sync. */
  lemma StepInSyncIff(env: Env, st: AgentState, e: Event)
    ensures InSync(Step(env, st, e)) <==> if Recomposes(env, st, e) then Lands(env, st, e) else e.Restart? || InSync(st)
  {
    match e
    case Sync(nm, now, io) => ApplyInSync(env, st, nm, now, io);
    case Tick(statuses, now, io) => TickInSync(env, st, statuses, now, io);
    case Restart(clean, now, io) =>
      if st.diskCached.Some? {
        ApplyInSync(env, Reloaded(st, clean), st.diskCached.value, now, io);
      }
  }

  /** The last composition a run asked for landed; a restart that finds nothing to apply starts over. */
  ghost predicate Landed(env: Env, role: Role, events: seq<Event>) {
    events == [] ||
    var init, e := events[..|events| - 1], events[|events| - 1];
    var st := Run(env, Boot(role), init);
    if Recomposes(env, st, e) then Lands(env, st, e) else e.Restart? || Landed(env, role, init)
  }

  /** Exactly when the device of a run is in sync: its last composition landed. */
  lemma {:induction false} RunInSyncIff(env: Env, role: Role, events: seq<Event>)
    ensures InSync(Run(env, Boot(role), events)) <==> Landed(env, role, events)
  {
    if events != [] {
      RunInSyncIff(env, role, events[..|events| - 1]);
      StepInSyncIff(env, Run(env, Boot(role), events[..|events| - 1]), events[|events| - 1]);
    }
  }

  /**
   * Whenever the last composition of a run landed, each netmap peer is installed,
   * and a managed one carries its AllowedIPs exactly when its phase is direct.
   */
  lemma InstalledIffDirect(env: Env, role: Role, events: seq<Event>, i: nat)
    requires EnvOk(env) && Landed(env, role, events)
    requires Run(env, Boot(role), events).nm.Some? && i < |Run(env, Boot(role), events).nm.value.peers|
    ensures var st := Run(env, Boot(role), events);
      var p := st.nm.value.peers[i];
      && |st.device| == |st.nm.value.peers| && st.device[i].key == p.key
      && (if Managed(role, p)
          then p.key in st.probes
               && st.device[i].allowed == (if st.probes[p.key].phase == Direct then p.allowed else [])
          else st.device[i].allowed == p.allowed && st.device[i].endpoint == p.endpoint)
  {
    RunInSyncIff(env, role, events);
    RunOk(env, role, events);
    var st := Run(env, Boot(role), events);
    var p := st.nm.value.peers[i];
    if Managed(role, p) {
      WantedManaged(env, role, st.nm.value.peers, p.key);
      assert p.key in ManagedKeys(role, st.nm.value.peers);
    }
  }

  // ---------- what the filter enforces ----------

  /** The chains asked for are in force: applied by the event, or there already. */
  predicate FilterLands(env: Env, st: AgentState, e: Event) {
    (Installs(env, st, e) && e.io.filterOk) ||
    (Step(env, st, e).nm.Some? && Before(st, e).filter == FilterFor(env, st.role, Step(env, st, e).nm.value))
  }

  /** The lock drops peers and leaves the rules alone. */
  lemma EnforceKeepsRules(env: Env, role: Role, pin: string, nm: Netmap, saveOk: bool)
    ensures var lock := Enforce(env, pin, nm, saveOk);
      lock.nm.Some? ==> lock.nm.value == nm.(peers := lock.nm.value.peers) && FilterFor(env, role, lock.nm.value) == FilterFor(env, role, nm)
  {
  }

  lemma ApplyFilter(env: Env, st: AgentState, nm: Netmap, now: int, io: Io)
    ensures var lock, t := Enforce(env, st.pin, nm, io.pinSaveOk), Applied(env, st, nm, now, io);
      FilterInSync(env, t) <==>
        if lock.nm.Some?
        then (Composable(env, Composition(t)) && io.deviceOk && io.filterOk) || st.filter == FilterFor(env, st.role, t.nm.value)
        else FilterInSync(env, st)
  {
  }

  lemma StepFilterIff(env: Env, st: AgentState, e: Event)
    ensures FilterInSync(env, Step(env, st, e)) <==> if Passes(env, st, e) then FilterLands(env, st, e) else e.Restart? || FilterInSync(env, st)
  {
    match e
    case Sync(nm, now, io) => ApplyFilter(env, st, nm, now, io);
    case Tick(statuses, now, io) =>
      if Wants(st, e).Some? {
        ApplyFilter(env, st.(probes := StepAll(st.probes, Report(statuses), now)), st.nm.value, now, io);
      }
    case Restart(clean, now, io) =>
      if st.diskCached.Some? {
        ApplyFilter(env, Reloaded(st, clean), st.diskCached.value, now, io);
      }
  }

  /** The chains the last accepted netmap of a run asked for are in force. */
  ghost predicate FilterLanded(env: Env, role: Role, events: seq<Event>) {
    events == [] ||
    var init, e := events[..|events| - 1], events[|events| - 1];
    var st := Run(env, Boot(role), init);
    if Passes(env, st, e) then FilterLands(env, st, e) else e.Restart? || FilterLanded(env, role, init)
  }

  lemma {:induction false} RunFilterIff(env: Env, role: Role, events: seq<Event>)
    ensures FilterInSync(env, Run(env, Boot(role), events)) <==> FilterLanded(env, role, events)
  {
    if events != [] {
      RunFilterIff(env, role, events[..|events| - 1]);
      StepFilterIff(env, Run(env, Boot(role), events[..|events| - 1]), events[|events| - 1]);
    }
  }

  // ---------- well-formed netmaps ----------

  /** Keys and AllowedIPs parse. */
  ghost predicate GoodNetmap(env: Env, nm: Netmap) {
    && (nm.lockKey == "" || env.lockKeyOk(nm.lockKey))
    && forall p :: p in nm.peers ==> env.wgKeyOk(p.key) && AllowedOk(p.allowed)
  }

  ghost predicate GoodEvent(env: Env, e: Event) { e.Sync? ==> GoodNetmap(env, e.nm) }

  /** What well-formed netmaps make of a daemon: whatever it applies again will pass. */
  ghost predicate Sound(env: Env, st: AgentState) {
    && (st.pin == "" || env.lockKeyOk(st.pin)) && (st.diskPin == "" || env.lockKeyOk(st.diskPin))
    && (st.nm.Some? ==> GoodNetmap(env, st.nm.value) && (st.nm.value.lockKey == "" || st.nm.value.lockKey == st.pin))
    && (st.cached.Some? ==> GoodNetmap(env, st.cached.value))
    && (st.diskCached.Some? ==> GoodNetmap(env, st.diskCached.value))
  }

  lemma EnforceKeepsGood(env: Env, pin: string, nm: Netmap, saveOk: bool)
    requires GoodNetmap(env, nm)
    ensures var lock := Enforce(env, pin, nm, saveOk); lock.nm.Some? ==> GoodNetmap(env, lock.nm.value)
  {
    VerifiedMembers(env, Enforce(env, pin, nm, saveOk).pin, nm.peers);
  }

  lemma ApplyKeepsSound(env: Env, st: AgentState, nm: Netmap, now: int, io: Io)
    requires Sound(env, st) && GoodNetmap(env, nm)
    ensures Sound(env, Applied(env, st, nm, now, io))
  {
    AppliedSources(env, st, nm, now, io);
    SourcesKeepSound(env, st, nm, io, Applied(env, st, nm, now, io));
  }

  /** t takes its pins and netmaps from st, or from what the lock lets through of nm. */
  ghost predicate TakenFrom(env: Env, st: AgentState, nm: Netmap, io: Io, t: AgentState) {
    var lock := Enforce(env, st.pin, nm, io.pinSaveOk);
    && t.pin == lock.pin && (t.diskPin == st.diskPin || t.diskPin == lock.pin)
    && t.nm == (if lock.nm.Some? then lock.nm else st.nm)
    && (t.cached == st.cached || (lock.nm.Some? && t.cached == lock.nm))
    && (t.diskCached == st.diskCached || t.diskCached == st.cached || (lock.nm.Some? && t.diskCached == lock.nm))
  }

  lemma SourcesKeepSound(env: Env, st: AgentState, nm: Netmap, io: Io, t: AgentState)
    requires Sound(env, st) && GoodNetmap(env, nm) && TakenFrom(env, st, nm, io, t)
    ensures Sound(env, t)
  {
    var passed := Enforce(env, st.pin, nm, io.pinSaveOk).nm;
    assert passed.Some? ==> GoodNetmap(env, passed.value) by {
      EnforceKeepsGood(env, st.pin, nm, io.pinSaveOk);
    }
    EnforcePin(env, st.pin, nm, io.pinSaveOk);
    SoundFrom(env, st, t, nm.lockKey, passed);
  }

  lemma SoundFrom(env: Env, st: AgentState, t: AgentState, key: string, passed: Option<Netmap>)
    requires Sound(env, st) && (key == "" || env.lockKeyOk(key)) && t.pin == (if st.pin != "" then st.pin else key)
    requires passed.Some? ==> GoodNetmap(env, passed.value) && passed.value.lockKey == key && (key == "" || key == t.pin)
    requires (t.diskPin == st.diskPin || t.diskPin == t.pin) && t.nm == (if passed.Some? then passed else st.nm)
    requires t.cached == st.cached || (passed.Some? && t.cached == passed)
    requires t.diskCached == st.diskCached || t.diskCached == st.cached || (passed.Some? && t.diskCached == passed)
    ensures Sound(env, t)
  {
  }

  /** Where an apply takes the pins and netmaps from: the state before, or the netmap that passed the lock. */
  lemma AppliedSources(env: Env, st: AgentState, nm: Netmap, now: int, io: Io)
    ensures TakenFrom(env, st, nm, io, Applied(env, st, nm, now, io))
  {
  }

  lemma EnforcePin(env: Env, pin: string, nm: Netmap, saveOk: bool)
    ensures var lock := Enforce(env, pin, nm, saveOk);
      && (pin != "" ==> lock.pin == pin) && (pin == "" ==> lock.pin == nm.lockKey)
      && (lock.nm.Some? ==> lock.nm.value.lockKey == nm.lockKey && (nm.lockKey == "" || nm.lockKey == lock.pin))
  {
  }

  lemma StepKeepsSound(env: Env, st: AgentState, e: Event)
    requires Sound(env, st) && GoodEvent(env, e)
    ensures Sound(env, Step(env, st, e))
  {
    match e
    case Sync(nm, now, io) => ApplyKeepsSound(env, st, nm, now, io);
    case Tick(statuses, now, io) =>
      if st.nm.Some? {
        ApplyKeepsSound(env, st.(probes := StepAll(st.probes, Report(statuses), now)), st.nm.value, now, io);
      }
    case Restart(clean, now, io) =>
      if st.diskCached.Some? {
        ApplyKeepsSound(env, Reloaded(st, clean), st.diskCached.value, now, io);
      }
  }

  lemma {:induction false} RunKeepsSound(env: Env, role: Role, events: seq<Event>)
    requires forall i :: 0 <= i < |events| ==> GoodEvent(env, events[i])
    ensures Sound(env, Run(env, Boot(role), events))
  {
    if events != [] {
      RunKeepsSound(env, role, events[..|events| - 1]);
      StepKeepsSound(env, Run(env, Boot(role), events[..|events| - 1]), events[|events| - 1]);
    }
  }

  lemma GoodComposable(env: Env, role: Role, probes: map<string, ProbeState>, nm: Netmap)
    requires GoodNetmap(env, nm)
    ensures Composable(env, ComposeAll(role, probes, nm.peers))
  {
    var configs := ComposeAll(role, probes, nm.peers);
    forall i | 0 <= i < |configs| ensures env.wgKeyOk(configs[i].key) && AllowedOk(configs[i].allowed) {
      ComposeShape(role, probes, nm.peers[i]);
      assert nm.peers[i] in nm.peers;
    }
  }

  /** With well-formed netmaps, nothing but a failing device call keeps a composition off the device. */
  lemma GoodRunInstalls(env: Env, role: Role, events: seq<Event>, e: Event)
    requires (forall i :: 0 <= i < |events| ==> GoodEvent(env, events[i])) && GoodEvent(env, e)
    requires Recomposes(env, Run(env, Boot(role), events), e)
    ensures Installs(env, Run(env, Boot(role), events), e) <==> e.io.deviceOk
  {
    var st := Run(env, Boot(role), events);
    RunKeepsSound(env, role, events);
    StepKeepsSound(env, st, e);
    var t := Step(env, st, e);
    assert Passes(env, st, e);
    if t.nm.Some? {
      GoodComposable(env, t.role, t.probes, t.nm.value);
    }
  }

  /** So a run of well-formed netmaps whose device calls succeed is in sync throughout. */
  lemma {:induction false} GoodRunLands(env: Env, role: Role, events: seq<Event>)
    requires forall i :: 0 <= i < |events| ==> GoodEvent(env, events[i]) && events[i].io.deviceOk
    ensures Landed(env, role, events)
  {
    if events != [] {
      var init, e := events[..|events| - 1], events[|events| - 1];
      GoodRunLands(env, role, init);
      if Recomposes(env, Run(env, Boot(role), init), e) {
        GoodRunInstalls(env, role, init, e);
      }
    }
  }

  // ---------- pin safety ----------

  /** Each installed key belongs to a netmap peer whose binding the pin verifies. */
  ghost predicate OnlyVerified(env: Env, pin: string, device: seq<PeerConfig>, peers: seq<Peer>) {
    forall i :: 0 <= i < |device| ==> Backed(env, pin, device[i], peers)
  }

  ghost predicate Backed(env: Env, pin: string, pc: PeerConfig, peers: seq<Peer>) {
    exists p :: p in peers && pc.key == p.key && (pc.allowed == p.allowed || pc.allowed == []) && Verified(env, pin, p)
  }

  lemma ComposeShape(role: Role, probes: map<string, ProbeState>, p: Peer)
    ensures var pc := Compose(role, probes, p); pc.key == p.key && (pc.allowed == p.allowed || pc.allowed == [])
  {
  }

  lemma ComposedVerified(env: Env, pin: string, role: Role, probes: map<string, ProbeState>, peers: seq<Peer>)
    requires forall p :: p in peers ==> Verified(env, pin, p)
    ensures OnlyVerified(env, pin, ComposeAll(role, probes, peers), peers)
  {
    var device := ComposeAll(role, probes, peers);
    forall i | 0 <= i < |device| ensures Backed(env, pin, device[i], peers) {
      ComposeShape(role, probes, peers[i]);
      assert peers[i] in peers;
    }
  }

  /** What one event may do to the pins, in memory and on disk. */
  ghost predicate PinStep(st: AgentState, t: AgentState, restart: bool) {
    && (st.pin != "" && !restart ==> t.pin == st.pin)
    && (st.diskPin != "" ==> t.pin == st.diskPin && t.diskPin == st.diskPin)
    && (t.diskPin == "" || t.diskPin == t.pin)
  }

  /** Whatever reached the device is verified under the pin in force. */
  ghost predicate Handed(env: Env, before: seq<PeerConfig>, t: AgentState) {
    t.pin == "" || t.device == before || t.device == [] || (t.nm.Some? && OnlyVerified(env, t.pin, t.device, t.nm.value.peers))
  }

  lemma AppliedPin(env: Env, st: AgentState, nm: Netmap, now: int, io: Io)
    requires st.diskPin == "" || st.diskPin == st.pin
    ensures PinStep(st, Applied(env, st, nm, now, io), false)
  {
  }

  lemma AppliedHanded(env: Env, st: AgentState, nm: Netmap, now: int, io: Io)
    ensures Handed(env, st.device, Applied(env, st, nm, now, io))
  {
    var lock := Enforce(env, st.pin, nm, io.pinSaveOk);
    if lock.nm.Some? && lock.pin != "" {
      VerifiedMembers(env, lock.pin, nm.peers);
      ComposedVerified(env, lock.pin, st.role, SyncProbes(env, st.role, st.probes, lock.nm.value.peers, now), lock.nm.value.peers);
    }
  }

  lemma StepPin(env: Env, st: AgentState, e: Event)
    requires st.diskPin == "" || st.diskPin == st.pin
    ensures PinStep(st, Step(env, st, e), e.Restart?)
  {
    match e
    case Sync(nm, now, io) => AppliedPin(env, st, nm, now, io);
    case Tick(statuses, now, io) =>
      if st.nm.Some? {
        AppliedPin(env, st.(probes := StepAll(st.probes, Report(statuses), now)), st.nm.value, now, io);
      }
    case Restart(clean, now, io) =>
      if st.diskCached.Some? {
        AppliedPin(env, Reloaded(st, clean), st.diskCached.value, now, io);
      }
  }

  /** Any event hands the device nothing, no peer, or only bindings verified under the pin. */
  lemma StepHanded(env: Env, st: AgentState, e: Event)
    ensures Handed(env, st.device, Step(env, st, e))
  {
    match e
    case Sync(nm, now, io) => AppliedHanded(env, st, nm, now, io);
    case Tick(statuses, now, io) =>
      if st.nm.Some? {
        AppliedHanded(env, st.(probes := StepAll(st.probes, Report(statuses), now)), st.nm.value, now, io);
      }
    case Restart(clean, now, io) =>
      if st.diskCached.Some? {
        AppliedHanded(env, Reloaded(st, clean), st.diskCached.value, now, io);
      }
  }

  /** The states of a run, one per event. */
  function Trace(env: Env, st: AgentState, events: seq<Event>): (r: seq<AgentState>)
    ensures |r| == |events| + 1 && r[0] == st
    decreases |events|
  {
    if events == [] then [st] else [st] + Trace(env, Step(env, st, events[0]), events[1..])
  }

  ghost predicate NoRestart(events: seq<Event>, i: nat)
    requires i <= |events|
  {
    forall j :: 0 <= j < i ==> !events[j].Restart?
  }

  /**
   * Pin safety over whole runs, from any state whose disk and memory agree: the
   * pin on disk, once set, is the pin of every later state, restarts included;
   * the pin in memory lasts until a restart; and every peer set handed to the
   * device is verified under the pin in force.
   */
  lemma {:induction false} PinSafety(env: Env, st: AgentState, events: seq<Event>, i: nat)
    requires st.diskPin == "" || st.diskPin == st.pin
    requires i <= |events|
    ensures var tr := Trace(env, st, events);
      && (st.diskPin != "" ==> tr[i].pin == st.diskPin && tr[i].diskPin == st.diskPin)
      && (st.pin != "" && NoRestart(events, i) ==> tr[i].pin == st.pin)
      && (tr[i].diskPin == "" || tr[i].diskPin == tr[i].pin)
      && (i > 0 ==> Handed(env, tr[i - 1].device, tr[i]))
    decreases i
  {
    if i > 0 {
      var next := Step(env, st, events[0]);
      StepPin(env, st, events[0]);
      StepHanded(env, st, events[0]);
      PinSafety(env, next, events[1..], i - 1);
      TraceTail(env, st, events, i);
      NoRestartTail(events, i);
    }
  }

  lemma TraceTail(env: Env, st: AgentState, events: seq<Event>, i: nat)
    requires 0 < i <= |events|
    ensures Trace(env, st, events)[i] == Trace(env, Step(env, st, events[0]), events[1..])[i - 1]
    ensures i > 1 ==> Trace(env, st, events)[i - 1] == Trace(env, Step(env, st, events[0]), events[1..])[i - 2]
  {
  }

  lemma NoRestartTail(events: seq<Event>, i: nat)
    requires 0 < i <= |events|
    ensures NoRestart(events, i) ==> NoRestart(events[1..], i - 1) && !events[0].Restart?
  {
  }

  /** A netmap with another lock key changes nothing at all. */
  lemma ForeignKeyRefused(env: Env, st: AgentState, nm: Netmap, now: int, io: Io)
    requires st.pin != "" && nm.lockKey != "" && nm.lockKey != st.pin
    ensures Applied(env, st, nm, now, io) == st
  {
  }

  /** Applying the current netmap again keeps every peer of it. */
  lemma ReapplyKeepsPeers(env: Env, st: AgentState, nm: Netmap, now: int, io: Io, now': int, io': Io)
    requires Enforce(env, st.pin, nm, io.pinSaveOk).nm.Some?
    ensures var t := Applied(env, st, nm, now, io);
      t.nm.Some? && Applied(env, t, t.nm.value, now', io').nm == t.nm
  {
    var lock := Enforce(env, st.pin, nm, io.pinSaveOk);
    var t := Applied(env, st, nm, now, io);
    assert t.nm == lock.nm && t.pin == lock.pin;
    EnforceTwice(env, st.pin, nm, io.pinSaveOk, io'.pinSaveOk);
    assert Applied(env, t, t.nm.value, now', io').nm == Enforce(env, t.pin, t.nm.value, io'.pinSaveOk).nm;
  }

  lemma EnforceTwice(env: Env, pin: string, nm: Netmap, saveOk: bool, saveOk': bool)
    requires Enforce(env, pin, nm, saveOk).nm.Some?
    ensures var lock := Enforce(env, pin, nm, saveOk); Enforce(env, lock.pin, lock.nm.value, saveOk').nm == lock.nm
  {
    FilterIdempotent(env, Enforce(env, pin, nm, saveOk).pin, nm.peers);
  }

  // ---------- the daemon ----------

  /** The in-place filter of enforceLock: verified peers move to the front of the slice. */
  method CompactVerified(env: Env, pin: string, peers: array<Peer>) returns (n: nat)
    modifies peers
    ensures n <= peers.Length && peers[..n] == VerifiedPeers(env, pin, old(peers[..]))
  {
    n := 0;
    ghost var was := peers[..];
    for i := 0 to peers.Length
      invariant n <= i
      invariant peers[..n] == VerifiedPeers(env, pin, was[..i])
      invariant peers[i..] == was[i..]
    {
      assert was[..i + 1][..i] == was[..i];
      assert peers[i] == peers[i..][0] == was[i];
      assert peers[i + 1..] == was[i + 1..] by { assert peers[i..][1..] == was[i..][1..]; }
      if Verified(env, pin, peers[i]) {
        peers[n] := peers[i];
        n := n + 1;
      }
    }
    assert was[..peers.Length] == was;
  }

  class Agent {
    const env: Env
    const role: Role
    var pin: string
    var nm: Option<Netmap>
    var cached: Option<Netmap>
    var probes: map<string, ProbeState>
    var device: seq<PeerConfig>
    var routes: seq<Prefix>
    var hosts: seq<HostEntry>
    var filter: Filter
    var diskPin: string
    var diskCached: Option<Netmap>

    function State(): AgentState
      reads this
    {
      AgentState(role, pin, nm, cached, probes, device, routes, hosts, filter, diskPin, diskCached)
    }

    constructor (env: Env, role: Role)
      ensures this.env == env && State() == Boot(role)
    {
      this.env, this.role := env, role;
      pin, nm, cached, probes, diskPin, diskCached := "", None, None, map[], "", None;
      device, routes, hosts, filter := [], [], [], NO_FILTER;
    }

    /** Pins the first lock key seen and strips unverified peers; None is the refusal. */
    method EnforceLock(nm: Netmap, saveOk: bool) returns (r: Option<Netmap>)
      modifies `pin, `diskPin, `diskCached
      ensures var lock := Enforce(env, old(pin), nm, saveOk);
        && r == lock.nm
        && State() == old(State()).(pin := lock.pin,
             diskPin := if lock.saved then lock.pin else old(diskPin),
             diskCached := if lock.saved then old(cached) else old(diskCached))
    {
      if pin == "" {
        if nm.lockKey == "" {
          return Some(nm);
        }
        pin := nm.lockKey;
        if !saveOk {
          return None;
        }
        diskPin, diskCached := pin, cached;
      } else if nm.lockKey != "" && nm.lockKey != pin {
        return None;
      }
      if !env.lockKeyOk(pin) {
        return None;
      }
      var buf := new Peer[|nm.peers|](i requires 0 <= i < |nm.peers| => nm.peers[i]);
      assert buf[..] == nm.peers;
      var n := CompactVerified(env, pin, buf);
      r := Some(nm.(peers := buf[..n]));
    }

    method SyncProbesWith(peers: seq<Peer>, now: int)
      modifies `probes
      ensures State() == old(State()).(probes := SyncProbes(env, role, old(probes), peers, now))
    {
      var seen: set<string> := {};
      for i := 0 to |peers|
        invariant probes == SyncPeers(env, role, old(probes), peers[..i], now)
        invariant seen == ManagedKeys(role, peers[..i])
      {
        assert peers[..i + 1][..i] == peers[..i];
        assert peers[..i + 1] == peers[..i] + [peers[i]];
        var p := peers[i];
        if Managed(role, p) {
          seen := seen + {p.key};
          var cands := ValidCandidates(env.dialable, p.candidates);
          var ps := SyncState(if p.key in probes then probes[p.key] else UNPROBED, cands, now);
          probes := probes[p.key := ps];
        }
      }
      assert peers[..|peers|] == peers;
      probes := map k | k in probes && k in seen :: probes[k];
    }

    method ComposePeer(p: Peer) returns (pc: PeerConfig)
      ensures pc == Compose(role, probes, p)
    {
      var endpoint, allowed := p.endpoint, p.allowed;
      if Managed(role, p) {
        if p.key !in probes || probes[p.key].phase == Idle {
          endpoint, allowed := "", [];
        } else if probes[p.key].phase == Probing {
          endpoint, allowed := EndpointOf(probes[p.key]), [];
        } else {
          endpoint := probes[p.key].confirmed;
          if endpoint == "" {
            endpoint := EndpointOf(probes[p.key]);
          }
        }
      }
      pc := PeerConfig(p.key, endpoint, allowed, if endpoint == "" then 0 else p.keepaliveSec);
    }

    /** Collects what lies outside the overlay; false on an AllowedIPs text that does not parse. */
    method AddRoutes(allowed: seq<Prefix>, routes: seq<Prefix>) returns (ok: bool, out: seq<Prefix>)
      ensures ok == AllowedOk(allowed)
      ensures ok ==> out == routes + Outside(env.overlay, allowed)
    {
      out := routes;
      for i := 0 to |allowed|
        invariant forall j :: 0 <= j < i ==> allowed[j].addr < INVALID
        invariant out == routes + Outside(env.overlay, allowed[..i])
      {
        assert allowed[..i + 1][..i] == allowed[..i];
        if allowed[i].addr == INVALID {
          return false, out;
        }
        if !Overlaps(allowed[i], env.overlay) {
          out := out + [allowed[i]];
        }
      }
      assert allowed[..|allowed|] == allowed;
      ok := true;
    }

    method ComposePeers(peers: seq<Peer>) returns (r: Option<(seq<PeerConfig>, seq<Prefix>)>)
      ensures var configs := ComposeAll(role, probes, peers);
        r == if Composable(env, configs) then Some((configs, SubnetRoutes(env.overlay, configs))) else None
    {
      ghost var configs := ComposeAll(role, probes, peers);
      var out: seq<PeerConfig>, subnets: seq<Prefix> := [], [];
      for i := 0 to |peers|
        invariant out == configs[..i] && Composable(env, out) && subnets == SubnetRoutes(env.overlay, out)
      {
        assert configs[..i + 1][..i] == configs[..i];
        if !env.wgKeyOk(peers[i].key) {
          assert configs[i].key == peers[i].key;
          return None;
        }
        var pc := ComposePeer(peers[i]);
        var ok, more := AddRoutes(pc.allowed, subnets);
        if !ok {
          return None;
        }
        out, subnets := out + [pc], more;
      }
      assert configs[..|configs|] == configs;
      r := Some((out, subnets));
    }

    method SyncFilter(nm: Netmap, filterOk: bool)
      modifies `filter
      ensures filter == if filterOk then FilterFor(env, role, nm) else old(filter)
    {
      var rules := nm.filterRules;
      if nm.filterEnabled && role == RoleHub && env.dns {
        rules := [FilterRule([env.overlayText], Service("udp", ["53"])), FilterRule([env.overlayText], Service("tcp", ["53"]))] + rules;
      } else {
        assert [] + rules == rules;
      }
      var next := Filter(nm.filterEnabled, rules, nm.forwardRules);
      if next != filter && filterOk {
        filter := next;
      }
    }

    method ApplyNetmap(nm: Netmap, now: int, io: Io)
      modifies this
      ensures State() == Applied(env, old(State()), nm, now, io)
    {
      var locked := EnforceLock(nm, io.pinSaveOk);
      if locked.None? {
        return;
      }
      this.nm := locked;
      SyncProbesWith(locked.value.peers, now);
      var composed := ComposePeers(locked.value.peers);
      if composed.None? || !io.deviceOk {
        return;
      }
      var saved := cached == locked;
      PutInForce(locked.value, composed.value.0, composed.value.1, io);
      if !saved && io.cacheSaveOk {
        diskPin, diskCached := pin, cached;
      }
    }

    /** Peers, routes, hosts, filter and the cached netmap, once the device has taken the peers. */
    method PutInForce(nm: Netmap, configs: seq<PeerConfig>, subnets: seq<Prefix>, io: Io)
      requires subnets == SubnetRoutes(env.overlay, configs)
      modifies `device, `routes, `hosts, `filter, `cached
      ensures State() == InForce(env, old(State()), nm, configs, io)
    {
      device := configs;
      if io.routesOk {
        routes := subnets;
      }
      if io.hostsOk {
        hosts := nm.hosts;
      }
      SyncFilter(nm, io.filterOk);
      cached := Some(nm);
    }

    method ProbeStep(statuses: seq<PeerStatus>, now: int, io: Io)
      modifies this
      ensures State() == Ticked(env, old(State()), statuses, now, io)
    {
      var report: map<string, Seen> := map[];
      for i := 0 to |statuses|
        invariant report == Report(statuses[..i])
      {
        assert statuses[..i + 1][..i] == statuses[..i];
        report := report[statuses[i].key := Seen(statuses[i].handshake, statuses[i].endpoint)];
      }
      assert statuses[..|statuses|] == statuses;
      var changed := StepProbes(report, now);
      if changed && nm.Some? {
        ApplyNetmap(nm.value, now, io);
      }
    }

    method StepProbes(report: map<string, Seen>, now: int) returns (changed: bool)
      modifies `probes
      ensures probes == StepAll(old(probes), report, now)
      ensures changed <==> probes != old(probes)
    {
      changed := false;
      var todo := probes.Keys;
      while todo != {}
        invariant probes.Keys == old(probes).Keys && todo <= probes.Keys
        invariant forall k :: k in todo ==> probes[k] == old(probes)[k]
        invariant forall k :: k in probes && k !in todo ==>
          probes[k] == StepOne(old(probes)[k], now, SeenOf(report, k).handshake, SeenOf(report, k).live)
        invariant changed <==> probes != old(probes)
        decreases todo
      {
        var key :| key in todo;
        var s := SeenOf(report, key);
        var next, moved := StepState(probes[key], now, s.handshake, s.live);
        if moved {
          changed := true;
          assert probes[key := next][key] != old(probes)[key];
          probes := probes[key := next];
        }
        todo := todo - {key};
      }
    }
  }
}
