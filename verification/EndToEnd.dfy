/**
 * From policies to packets: what the filters on the path between two devices
 * accept, when all netmaps are built from one reachable coordinator state.
 */
module EndToEnd {
  import opened Net
  import opened Options
  import opened Text
  import opened Ipam
  import opened Rules
  import opened Store
  import opened Names
  import opened Acl
  import opened FilterSpec
  import opened Routes
  import opened Netmaps
  import opened Prober
  import opened Agents
  import opened Coordinators
  import opened Paths
  import opened Routing
  import opened Locks

  /** A spoke or a static peer. */
  datatype Device = OnNode(node: Node) | OnStatic(peer: StaticPeer) {
    function Ip(): Addr { if OnNode? then node.ip else peer.ip }
    function Key(): string { if OnNode? then node.key else peer.key }
    function Tags(): seq<string> { if OnNode? then node.tags else peer.tags }
    function Dev(): AclDev { if OnNode? then NodeDev(node) else StaticDev(peer) }
  }

  predicate Present(v: View, d: Device) {
    if d.OnNode? then d.node in v.nodes && d.node.role == RoleNode else d.peer in v.statics
  }

  // ---------- one holder per address ----------

  lemma PresentOk(cfg: Config, v: View, d: Device)
    requires TablesOk(cfg, v.nodes, v.statics) && Present(v, d)
    ensures IsHost(cfg.overlay, d.Ip()) && d.Ip() < INVALID && Contains(cfg.overlay, d.Ip())
    ensures forall n :: n in v.nodes && n.ip == d.Ip() ==> d == OnNode(n)
    ensures forall p :: p in v.statics && p.ip == d.Ip() ==> d == OnStatic(p)
  {
    if d.OnNode? {
      RowsCompatible(cfg, v.nodes, v.statics, d.node, d.node);
    } else {
      var k :| 0 <= k < |v.statics| && v.statics[k] == d.peer;
      assert StaticOk(cfg, v.statics[k]);
    }
    forall n | n in v.nodes && n.ip == d.Ip() ensures d == OnNode(n) {
      NodeAlone(cfg, v, n, d);
    }
    forall p | p in v.statics && p.ip == d.Ip() ensures d == OnStatic(p) {
      StaticAlone(cfg, v, p, d);
    }
    HostsAreInside(cfg.overlay, d.Ip());
  }

  lemma NodeAlone(cfg: Config, v: View, n: Node, d: Device)
    requires TablesOk(cfg, v.nodes, v.statics) && Present(v, d) && n in v.nodes && n.ip == d.Ip()
    ensures d == OnNode(n)
  {
    if d.OnNode? {
      RowsCompatible(cfg, v.nodes, v.statics, n, d.node);
    } else {
      ApartRows(cfg, v, n, d.peer);
    }
  }

  lemma StaticAlone(cfg: Config, v: View, p: StaticPeer, d: Device)
    requires TablesOk(cfg, v.nodes, v.statics) && Present(v, d) && p in v.statics && p.ip == d.Ip()
    ensures d == OnStatic(p)
  {
    if d.OnNode? {
      ApartRows(cfg, v, d.node, p);
    } else {
      var i :| 0 <= i < |v.statics| && v.statics[i] == p;
      var j :| 0 <= j < |v.statics| && v.statics[j] == d.peer;
    }
  }

  lemma ApartRows(cfg: Config, v: View, n: Node, p: StaticPeer)
    requires TablesOk(cfg, v.nodes, v.statics) && n in v.nodes && p in v.statics
    ensures n.ip != p.ip
  {
    var i :| 0 <= i < |v.nodes| && v.nodes[i] == n;
    var j :| 0 <= j < |v.statics| && v.statics[j] == p;
    assert v.nodes[i].ip != v.statics[j].ip;
  }

  lemma SourceMembers(v: View, x: AclDev)
    ensures x in SourcesOf(v.nodes, v.statics) <==>
      (exists n :: n in v.nodes && x == NodeDev(n)) || (exists p :: p in v.statics && x == StaticDev(p))
  {
    var s := SourcesOf(v.nodes, v.statics);
    forall n | n in v.nodes ensures NodeDev(n) in s {
      var i :| 0 <= i < |v.nodes| && v.nodes[i] == n;
      assert s[i] == NodeDev(n);
    }
    forall p | p in v.statics ensures StaticDev(p) in s {
      var i :| 0 <= i < |v.statics| && v.statics[i] == p;
      assert s[|v.nodes| + i] == StaticDev(p);
    }
  }

  /** A participant with a /32 text that holds the device's address is the device. */
  lemma HostIsDevice(cfg: Config, v: View, d: Device, x: AclDev)
    requires TablesOk(cfg, v.nodes, v.statics) && Present(v, d) && CidrHas(x.cidr, d.Ip())
    requires (exists n :: n in v.nodes && x == NodeDev(n)) || (exists p :: p in v.statics && x == StaticDev(p))
    ensures x == d.Dev()
  {
    PresentOk(cfg, v, d);
    if n :| n in v.nodes && x == NodeDev(n) {
      HostText(n.ip, d.Ip());
    } else {
      var p :| p in v.statics && x == StaticDev(p);
      HostText(p.ip, d.Ip());
    }
  }

  lemma SourceHolder(cfg: Config, v: View, d: Device)
    requires TablesOk(cfg, v.nodes, v.statics) && Present(v, d)
    ensures OnlyHolder(SourcesOf(v.nodes, v.statics), d.Dev(), d.Ip())
  {
    var sources := SourcesOf(v.nodes, v.statics);
    PresentOk(cfg, v, d);
    HostText(d.Ip(), d.Ip());
    SourceMembers(v, d.Dev());
    forall x | x in sources && CidrHas(x.cidr, d.Ip()) ensures x == d.Dev() {
      SourceMembers(v, x);
      HostIsDevice(cfg, v, d, x);
    }
  }

  /** No LAN route holds a device's address. */
  lemma RouteIsNoDevice(cfg: Config, v: View, d: Device, n: Node, x: AclDev)
    requires TablesOk(cfg, v.nodes, v.statics) && Present(v, d) && n in v.nodes
    requires x in RouteDevs(n.enabled, n.tags)
    ensures !CidrHas(x.cidr, d.Ip())
  {
    PresentOk(cfg, v, d);
    RowsCompatible(cfg, v.nodes, v.statics, n, n);
    RouteDevsMembers(n.enabled, n.tags, x);
    var r :| r in n.enabled && x == AclDev(CidrText(r), n.tags);
    CidrHasPrefix(r, d.Ip());
    GoodRouteAvoidsOverlay(cfg.overlay, r, d.Ip());
  }

  lemma StaticDevsMembers(statics: seq<StaticPeer>, x: AclDev)
    ensures x in seq(|statics|, i requires 0 <= i < |statics| => StaticDev(statics[i])) <==>
      exists p :: p in statics && x == StaticDev(p)
  {
    var devs := seq(|statics|, i requires 0 <= i < |statics| => StaticDev(statics[i]));
    forall p | p in statics ensures StaticDev(p) in devs {
      var i :| 0 <= i < |statics| && statics[i] == p;
      assert devs[i] == StaticDev(p);
    }
  }

  lemma HubDstHolder(cfg: Config, v: View, hub: Node, d: Device, x: AclDev)
    requires TablesOk(cfg, v.nodes, v.statics) && hub.role == RoleHub && hub in v.nodes && Present(v, d)
    requires x in DstsOf(hub, v.nodes, v.statics) && CidrHas(x.cidr, d.Ip())
    ensures x == d.Dev()
  {
    if x in HubDsts(hub.id, v.nodes) {
      HubDstsMembers(hub.id, v.nodes, x);
      var n :| n in v.nodes && n.id != hub.id && (x == NodeDev(n) || x in RouteDevs(n.enabled, n.tags));
      if x in RouteDevs(n.enabled, n.tags) {
        RouteIsNoDevice(cfg, v, d, n, x);
      } else {
        HostIsDevice(cfg, v, d, x);
      }
    } else if x in RouteDevs(hub.enabled, hub.tags) {
      RouteIsNoDevice(cfg, v, d, hub, x);
    } else {
      StaticDevsMembers(v.statics, x);
      HostIsDevice(cfg, v, d, x);
    }
  }

  lemma DestinationHolder(cfg: Config, v: View, hub: Node, d: Device)
    requires TablesOk(cfg, v.nodes, v.statics) && hub.role == RoleHub && hub in v.nodes && Present(v, d)
    ensures OnlyHolder(DstsOf(hub, v.nodes, v.statics), d.Dev(), d.Ip())
  {
    PresentOk(cfg, v, d);
    HostText(d.Ip(), d.Ip());
    if d.OnNode? {
      RowsCompatible(cfg, v.nodes, v.statics, d.node, hub);
      HubDstsMembers(hub.id, v.nodes, d.Dev());
      assert d.Dev() in HubDsts(hub.id, v.nodes);
    } else {
      StaticDevsMembers(v.statics, d.Dev());
    }
    forall x | x in DstsOf(hub, v.nodes, v.statics) && CidrHas(x.cidr, d.Ip()) ensures x == d.Dev() {
      HubDstHolder(cfg, v, hub, d, x);
    }
  }

  // ---------- ports stay plain ----------

  lemma {:induction false} FilterServices(dst: AclDev, sources: seq<AclDev>, policies: seq<Policy>, r: FilterRule)
    requires r in FilterRulesOf(dst, sources, policies)
    ensures exists p :: p in policies && r.service == p.service
  {
    var init, pol := policies[..|policies| - 1], policies[|policies| - 1];
    if r in FilterRulesOf(dst, sources, init) {
      FilterServices(dst, sources, init, r);
      var p :| p in init && r.service == p.service;
      assert p in policies;
    } else {
      assert pol in policies;
    }
  }

  lemma {:induction false} ForwardServices(dsts: seq<AclDev>, sources: seq<AclDev>, policies: seq<Policy>, r: ForwardRule)
    requires r in ForwardRulesOf(dsts, sources, policies)
    ensures exists p :: p in policies && r.service == p.service
  {
    var init, pol := policies[..|policies| - 1], policies[|policies| - 1];
    if r in ForwardRulesOf(dsts, sources, init) {
      ForwardServices(dsts, sources, init, r);
      var p :| p in init && r.service == p.service;
      assert p in policies;
    } else {
      var g := GroupsOf(pol, sources, dsts);
      GroupsComplete(pol, sources, dsts);
      GroupRulesMembers(pol, g, g.order, r);
      assert pol in policies;
    }
  }

  // ---------- verdicts ----------

  ghost predicate ValidPolicies(policies: seq<Policy>) { forall p :: p in policies ==> PolicyValid(p) }

  function FlowOf(s: Device, d: Device, l4: L4): Packet { Packet(s.Ip(), d.Ip(), l4, false) }

  lemma DistinctCidrs(cfg: Config, v: View, s: Device, d: Device)
    requires TablesOk(cfg, v.nodes, v.statics) && Present(v, s) && Present(v, d) && s != d
    ensures s.Dev().cidr != d.Dev().cidr && s.Ip() != d.Ip()
  {
    PresentOk(cfg, v, s);
    PresentOk(cfg, v, d);
    HostText(s.Ip(), d.Ip());
  }

  /** The inbound chain a node installs accepts a new flow iff a policy allows it. */
  lemma InboundExact(cfg: Config, v: View, s: Device, d: Node, l4: L4)
    requires TablesOk(cfg, v.nodes, v.statics) && ValidPolicies(v.policies)
    requires Present(v, s) && Present(v, OnNode(d)) && s != OnNode(d)
    ensures Verdict(FilterChain(FilterRulesOf(NodeDev(d), SourcesOf(v.nodes, v.statics), v.policies)), FlowOf(s, OnNode(d), l4)) == ACCEPT <==>
            PolicyAllows(v.policies, s.Tags(), d.tags, l4)
  {
    var sources := SourcesOf(v.nodes, v.statics);
    var rules := FilterRulesOf(NodeDev(d), sources, v.policies);
    forall r | r in rules ensures PlainPorts(r.service) {
      FilterServices(NodeDev(d), sources, v.policies, r);
      var p :| p in v.policies && r.service == p.service;
      ValidPortsAreFree(p);
    }
    FilterChainExact(rules, FlowOf(s, OnNode(d), l4));
    SourceHolder(cfg, v, s);
    DistinctCidrs(cfg, v, s, OnNode(d));
    FilterVerdict(NodeDev(d), sources, v.policies, s.Dev(), s.Ip(), l4);
  }

  /** The hub's forward chain accepts a new flow between two devices iff a policy allows it. */
  lemma RelayExact(cfg: Config, v: View, hub: Node, s: Device, d: Device, l4: L4)
    requires TablesOk(cfg, v.nodes, v.statics) && ValidPolicies(v.policies)
    requires hub in v.nodes && hub.role == RoleHub && Present(v, s) && Present(v, d) && s != d
    ensures Verdict(ForwardChain(ForwardRulesOf(DstsOf(hub, v.nodes, v.statics), SourcesOf(v.nodes, v.statics), v.policies)), FlowOf(s, d, l4)) == ACCEPT <==>
            PolicyAllows(v.policies, s.Tags(), d.Tags(), l4)
  {
    var sources, dsts := SourcesOf(v.nodes, v.statics), DstsOf(hub, v.nodes, v.statics);
    var rules := ForwardRulesOf(dsts, sources, v.policies);
    forall r | r in rules ensures PlainPorts(r.service) {
      ForwardServices(dsts, sources, v.policies, r);
      var p :| p in v.policies && r.service == p.service;
      ValidPortsAreFree(p);
    }
    ForwardChainExact(rules, FlowOf(s, d, l4));
    SourceHolder(cfg, v, s);
    DestinationHolder(cfg, v, hub, d);
    DistinctCidrs(cfg, v, s, d);
    SourcesCommaFree(v.nodes, v.statics);
    ForwardVerdict(dsts, sources, v.policies, s.Dev(), d.Dev(), s.Ip(), d.Ip(), l4);
  }

  // ---------- direct paths ----------

  /** Without candidates for it, a peer is never direct. */
  lemma DirectNeedsCandidates(env: Env, role: Role, probes: map<string, ProbeState>, peers: seq<Peer>, key: string) returns (p: Peer)
    requires Tracks(env, role, probes, peers) && IsDirect(probes, key)
    ensures p in peers && Managed(role, p) && p.key == key && p.candidates != []
  {
    p := WantedEntry(env, role, peers, key);
    ValidEmptyIff(env.dialable, p.candidates);
  }

  function SpokeNetmapPeers(cfg: Config, self: Node, v: View, hub: Node): seq<Peer> {
    [RelayPeer(cfg, hub, self.id, v.nodes)] + SpokePeers(self.id, v.nodes, CandidatesFor(self, v))
  }

  /** While a policy is enabled, a direct path joins two nodes that both filter. */
  lemma DirectBothFilter(env: Env, cfg: Config, v: View, hub: Node, s: Node, d: Node, probes: map<string, ProbeState>)
    requires TablesOk(cfg, v.nodes, v.statics) && AnyEnabled(v.policies)
    requires d in v.nodes && d.role == RoleNode && Tracks(env, RoleNode, probes, SpokeNetmapPeers(cfg, s, v, hub))
    requires IsDirect(probes, d.key)
    ensures s.os == "linux" && d.os == "linux"
  {
    var p := DirectNeedsCandidates(env, RoleNode, probes, SpokeNetmapPeers(cfg, s, v, hub), d.key);
    assert p in SpokePeers(s.id, v.nodes, CandidatesFor(s, v));
    SpokePeersMembers(s.id, v.nodes, CandidatesFor(s, v), p);
    var n :| n in v.nodes && n.id != s.id && n.role == RoleNode && p == SpokePeer(n, CandidatesFor(s, v));
    RowsCompatible(cfg, v.nodes, v.statics, n, d);
    assert n == d;
    assert d.id in CandidatesFor(s, v);
  }

  // ---------- agents on one view ----------

  /**
   * A daemon whose current netmap has the peers built from this view, with its
   * prober states and its device as runs leave them.
   */
  ghost predicate Settled(env: Env, cfg: Config, self: Node, v: View, st: AgentState) {
    && st.role == self.role && st.nm.Some?
    && PeersOf(cfg, self, v.nodes, v.statics, CandidatesFor(self, v)) == Some(st.nm.value.peers)
    && ProbesOk(env, st) && InSync(st)
  }

  /** The inbound chain the daemon has in force is the one compiled from this view. */
  ghost predicate Screens(self: Node, v: View, st: AgentState) {
    st.filter.enabled && st.filter.input == FilterRulesOf(NodeDev(self), SourcesOf(v.nodes, v.statics), v.policies)
  }

  /** The forward chain the daemon has in force is the one compiled from this view. */
  ghost predicate Relays(self: Node, v: View, st: AgentState) {
    st.filter.enabled && st.filter.forward == ForwardRulesOf(DstsOf(self, v.nodes, v.statics), SourcesOf(v.nodes, v.statics), v.policies)
  }

  /** A daemon in sync with this view's netmap enforces its chains, whatever peers the lock dropped. */
  lemma RulesInForce(env: Env, lower: char -> char, cfg: Config, self: Node, v: View, st: AgentState)
    requires st.role == self.role && st.nm.Some? && NetmapFor(lower, cfg, self, v).Some? && AnyEnabled(v.policies)
    requires st.nm.value == NetmapFor(lower, cfg, self, v).value.(peers := st.nm.value.peers) && FilterInSync(env, st)
    ensures Relays(self, v, st) && (self.role == RoleNode ==> Screens(self, v, st))
  {
    var rules := st.nm.value.filterRules;
    assert [] + rules == rules;
  }

  /** Settled, and enforcing the view's chains while a policy is enabled, no chain otherwise. */
  ghost predicate InPlace(env: Env, cfg: Config, self: Node, v: View, st: AgentState) {
    && Settled(env, cfg, self, v, st)
    && (AnyEnabled(v.policies) ==> Relays(self, v, st) && (self.role == RoleNode ==> Screens(self, v, st)))
    && (!AnyEnabled(v.policies) ==> !st.filter.enabled)
  }

  lemma CurrentIsInPlace(env: Env, lower: char -> char, cfg: Config, self: Node, v: View, st: AgentState)
    requires st.role == self.role && st.nm.Some? && st.nm == NetmapFor(lower, cfg, self, v)
    requires ProbesOk(env, st) && InSync(st) && FilterInSync(env, st)
    ensures InPlace(env, cfg, self, v, st)
  {
    if AnyEnabled(v.policies) {
      RulesInForce(env, lower, cfg, self, v, st);
    }
  }

  /** Every run that ends with this view's netmap, its last composition and its chains landed, ends in place. */
  lemma RunsSettle(env: Env, lower: char -> char, cfg: Config, self: Node, v: View, events: seq<Event>)
    requires EnvOk(env) && Landed(env, self.role, events) && FilterLanded(env, self.role, events)
    requires Run(env, Boot(self.role), events).nm.Some? && Run(env, Boot(self.role), events).nm == NetmapFor(lower, cfg, self, v)
    ensures InPlace(env, cfg, self, v, Run(env, Boot(self.role), events))
  {
    RunOk(env, self.role, events);
    RunInSyncIff(env, self.role, events);
    RunFilterIff(env, self.role, events);
    CurrentIsInPlace(env, lower, cfg, self, v, Run(env, Boot(self.role), events));
  }

  /** The lock is off for this agent, or every binding verifies under the one key. */
  ghost predicate LockPasses(env: Env, pin: string, nm: Netmap) {
    || (pin == "" && nm.lockKey == "")
    || (var key := if pin == "" then nm.lockKey else pin;
        && (nm.lockKey == "" || nm.lockKey == key) && env.lockKeyOk(key)
        && forall p :: p in nm.peers ==> Verified(env, key, p))
  }

  lemma AllVerifiedIff(env: Env, key: string, peers: seq<Peer>)
    ensures VerifiedPeers(env, key, peers) == peers <==> forall p :: p in peers ==> Verified(env, key, p)
  {
    VerifiedMembers(env, key, peers);
    if forall p :: p in peers ==> Verified(env, key, p) {
      AllVerifiedKept(env, key, peers);
    }
  }

  /** The lock lets a netmap through whole exactly when it is off for this agent or every binding verifies. */
  lemma EnforceKeepsAllIff(env: Env, pin: string, nm: Netmap)
    ensures Enforce(env, pin, nm, true).nm == Some(nm) <==> LockPasses(env, pin, nm)
  {
    var key := if pin == "" then nm.lockKey else pin;
    AllVerifiedIff(env, key, nm.peers);
    assert nm.(peers := VerifiedPeers(env, key, nm.peers)) == nm <==> VerifiedPeers(env, key, nm.peers) == nm.peers;
  }

  /** Every AllowedIPs prefix of a netmap built from sound tables parses. */
  lemma NetmapAllowedOk(cfg: Config, self: Node, v: View, p: Peer)
    requires TablesOk(cfg, v.nodes, v.statics) && self in v.nodes
    requires PeersOf(cfg, self, v.nodes, v.statics, CandidatesFor(self, v)).Some?
    requires p in PeersOf(cfg, self, v.nodes, v.statics, CandidatesFor(self, v)).value
    ensures AllowedOk(p.allowed)
  {
    if self.role == RoleHub {
      HubPeerAllowedOk(cfg, self, v, p);
    } else {
      SpokePeerAllowedOk(cfg, self, v, p);
    }
  }

  lemma HubPeerAllowedOk(cfg: Config, self: Node, v: View, p: Peer)
    requires TablesOk(cfg, v.nodes, v.statics) && self in v.nodes && self.role == RoleHub
    requires p in HubNodePeers(self.id, v.nodes) + StaticPeers(v.statics)
    ensures AllowedOk(p.allowed)
  {
    if p in HubNodePeers(self.id, v.nodes) {
      HubNodePeersMembers(self.id, v.nodes, p);
      var n :| n in v.nodes && n.id != self.id && p == HubPeer(n);
      RowsCompatible(cfg, v.nodes, v.statics, n, self);
      HostsAreInside(cfg.overlay, n.ip);
      forall i | 0 <= i < |p.allowed| ensures p.allowed[i].addr < INVALID {
        assert i > 0 ==> p.allowed[i] in n.enabled;
      }
    } else {
      StaticPeersMembers(v.statics, p);
      var q :| q in v.statics && p == StaticHubPeer(q);
      PresentOk(cfg, v, OnStatic(q));
    }
  }

  lemma SpokePeerAllowedOk(cfg: Config, self: Node, v: View, p: Peer)
    requires TablesOk(cfg, v.nodes, v.statics) && self in v.nodes && self.role == RoleNode && HubOf(v.nodes).Some?
    requires p in [RelayPeer(cfg, HubOf(v.nodes).value, self.id, v.nodes)] + SpokePeers(self.id, v.nodes, CandidatesFor(self, v))
    ensures AllowedOk(p.allowed)
  {
    if p in SpokePeers(self.id, v.nodes, CandidatesFor(self, v)) {
      SpokePeersMembers(self.id, v.nodes, CandidatesFor(self, v), p);
      var n :| n in v.nodes && n.id != self.id && n.role == RoleNode && p == SpokePeer(n, CandidatesFor(self, v));
      PresentOk(cfg, v, OnNode(n));
    } else {
      RowsCompatible(cfg, v.nodes, v.statics, self, self);
      MaskTwice(cfg.overlay.addr, cfg.overlay.bits);
      forall i | 0 <= i < |p.allowed| ensures p.allowed[i].addr < INVALID {
        if i > 0 {
          assert p.allowed[i] in OtherRoutes(self.id, v.nodes);
          OtherRoutesMembers(self.id, v.nodes, p.allowed[i]);
          var m :| m in v.nodes && m.id != self.id && p.allowed[i] in m.enabled;
          RowsCompatible(cfg, v.nodes, v.statics, m, m);
        }
      }
    }
  }

  /**
   * The premise of the routing and ACL theorems, discharged: after any run
   * whatsoever, a successful apply of this view's netmap puts the daemon in place,
   * provided the lock is off or every binding is signed under the one key.
   */
  lemma SyncSettles(env: Env, lower: char -> char, cfg: Config, self: Node, v: View, events: seq<Event>, now: int, io: Io)
    requires EnvOk(env) && TablesOk(cfg, v.nodes, v.statics) && self in v.nodes && NetmapFor(lower, cfg, self, v).Some?
    requires KeysOk(env, NetmapFor(lower, cfg, self, v).value.peers)
    requires LockPasses(env, Run(env, Boot(self.role), events).pin, NetmapFor(lower, cfg, self, v).value)
    requires io.pinSaveOk && io.deviceOk && io.filterOk
    ensures InPlace(env, cfg, self, v, Run(env, Boot(self.role), events + [Sync(NetmapFor(lower, cfg, self, v).value, now, io)]))
  {
    var nm := NetmapFor(lower, cfg, self, v).value;
    var st, e := Run(env, Boot(self.role), events), Sync(nm, now, io);
    EnforceKeepsAllIff(env, st.pin, nm);
    RunOk(env, self.role, events);
    assert (events + [e])[..|events|] == events;
    forall p | p in nm.peers ensures AllowedOk(p.allowed) {
      NetmapAllowedOk(cfg, self, v, p);
    }
    WholeApply(env, st, nm, now, io);
    RunOk(env, self.role, events + [e]);
    CurrentIsInPlace(env, lower, cfg, self, v, Run(env, Boot(self.role), events + [e]));
  }

  /** A netmap that passes the lock whole, applied with every call succeeding, is current and in force. */
  lemma WholeApply(env: Env, st: AgentState, nm: Netmap, now: int, io: Io)
    requires Enforce(env, st.pin, nm, true).nm == Some(nm) && io.pinSaveOk && io.deviceOk && io.filterOk
    requires KeysOk(env, nm.peers) && forall p :: p in nm.peers ==> AllowedOk(p.allowed)
    ensures var t := Applied(env, st, nm, now, io);
      && t.nm == Some(nm) && InSync(t) && FilterInSync(env, t)
      && (io.hostsOk ==> t.hosts == nm.hosts) && (io.routesOk ==> t.routes == SubnetRoutes(env.overlay, t.device))
  {
    var configs := ComposeAll(st.role, SyncProbes(env, st.role, st.probes, nm.peers, now), nm.peers);
    forall i | 0 <= i < |configs| ensures env.wgKeyOk(configs[i].key) && AllowedOk(configs[i].allowed) {
      ComposeShape(st.role, SyncProbes(env, st.role, st.probes, nm.peers, now), nm.peers[i]);
      assert nm.peers[i] in nm.peers;
    }
  }

  lemma AppliedNamesAndRoutes(env: Env, lower: char -> char, cfg: Config, self: Node, v: View, st: AgentState, now: int, io: Io, r: Prefix)
    requires TablesOk(cfg, v.nodes, v.statics) && self in v.nodes && NetmapFor(lower, cfg, self, v).Some? && st.role == self.role
    requires KeysOk(env, NetmapFor(lower, cfg, self, v).value.peers) && env.overlay == cfg.overlay
    requires LockPasses(env, st.pin, NetmapFor(lower, cfg, self, v).value)
    requires io.pinSaveOk && io.deviceOk && io.hostsOk && io.routesOk && io.filterOk
    ensures var t := Applied(env, st, NetmapFor(lower, cfg, self, v).value, now, io);
      && t.hosts == HostsOf(lower, v.nodes, v.statics)
      && (self.role == RoleNode ==> (r in t.routes <==> exists n :: n in v.nodes && n.id != self.id && r in n.enabled))
  {
    var nm := NetmapFor(lower, cfg, self, v).value;
    EnforceKeepsAllIff(env, st.pin, nm);
    forall p | p in nm.peers ensures AllowedOk(p.allowed) {
      NetmapAllowedOk(cfg, self, v, p);
    }
    WholeApply(env, st, nm, now, io);
    if self.role == RoleNode {
      var t := Applied(env, st, nm, now, io);
      assert t.device == SpokeConfigs(cfg, self, v, HubOf(v.nodes).value, t.probes);
      SpokeSubnetRoutes(cfg, self, v, HubOf(v.nodes).value, t.probes, r);
    }
  }

  /** Such an apply also names every device in the hosts file and, on a spoke, routes exactly the LANs of others. */
  lemma SyncNamesAndRoutes(env: Env, lower: char -> char, cfg: Config, self: Node, v: View, events: seq<Event>, now: int, io: Io, r: Prefix)
    requires EnvOk(env) && TablesOk(cfg, v.nodes, v.statics) && self in v.nodes && NetmapFor(lower, cfg, self, v).Some?
    requires KeysOk(env, NetmapFor(lower, cfg, self, v).value.peers) && env.overlay == cfg.overlay
    requires LockPasses(env, Run(env, Boot(self.role), events).pin, NetmapFor(lower, cfg, self, v).value)
    requires io.pinSaveOk && io.deviceOk && io.hostsOk && io.routesOk && io.filterOk
    ensures var st := Run(env, Boot(self.role), events + [Sync(NetmapFor(lower, cfg, self, v).value, now, io)]);
      && st.hosts == HostsOf(lower, v.nodes, v.statics)
      && (self.role == RoleNode ==> (r in st.routes <==> exists n :: n in v.nodes && n.id != self.id && r in n.enabled))
  {
    var e := Sync(NetmapFor(lower, cfg, self, v).value, now, io);
    RunOk(env, self.role, events);
    assert (events + [e])[..|events|] == events;
    AppliedNamesAndRoutes(env, lower, cfg, self, v, Run(env, Boot(self.role), events), now, io, r);
  }

  /** In a netmap from sound tables every managed key belongs to one entry. */
  lemma NetmapKeysDecide(cfg: Config, self: Node, v: View)
    requires TablesOk(cfg, v.nodes, v.statics) && PeersOf(cfg, self, v.nodes, v.statics, CandidatesFor(self, v)).Some?
    ensures KeysDecide(self.role, PeersOf(cfg, self, v.nodes, v.statics, CandidatesFor(self, v)).value)
  {
    var peers, cands := PeersOf(cfg, self, v.nodes, v.statics, CandidatesFor(self, v)).value, CandidatesFor(self, v);
    forall p, q | p in peers && q in peers && Managed(self.role, p) && Managed(self.role, q) && p.key == q.key ensures p == q {
      assert p in SpokePeers(self.id, v.nodes, cands) && q in SpokePeers(self.id, v.nodes, cands);
      SpokePeersMembers(self.id, v.nodes, cands, p);
      SpokePeersMembers(self.id, v.nodes, cands, q);
      var m :| m in v.nodes && m.id != self.id && m.role == RoleNode && p == SpokePeer(m, cands);
      var n :| n in v.nodes && n.id != self.id && n.role == RoleNode && q == SpokePeer(n, cands);
      RowsCompatible(cfg, v.nodes, v.statics, m, n);
    }
  }

  /** In terms of the coordinator: the lock is off on both sides, or it is active and everything is signed. */
  ghost predicate LockSettled(env: Env, verify: Verifier, db: Db, last: string, pin: string) {
    || (!db.lockActive && pin == "")
    || (db.lockActive && SameScheme(env, verify) && LockInv(verify, db, last) && NothingPending(db)
        && (pin == "" || pin == db.lockKey) && env.lockKeyOk(db.lockKey))
  }

  /** Then every netmap of the coordinator puts the daemon it is meant for in place. */
  lemma SignedSyncSettles(env: Env, verify: Verifier, lower: char -> char, cfg: Config, db: Db, last: string, self: Node, at: int,
                          events: seq<Event>, now: int, io: Io)
    requires EnvOk(env) && Inv(cfg, db) && self in db.nodes && self.approved && NetmapFor(lower, cfg, self, ViewOf(db, at)).Some?
    requires KeysOk(env, NetmapFor(lower, cfg, self, ViewOf(db, at)).value.peers)
    requires LockSettled(env, verify, db, last, Run(env, Boot(self.role), events).pin)
    requires io.pinSaveOk && io.deviceOk && io.filterOk
    ensures var v := ViewOf(db, at);
      InPlace(env, cfg, self, v, Run(env, Boot(self.role), events + [Sync(NetmapFor(lower, cfg, self, v).value, now, io)]))
  {
    var v, pin := ViewOf(db, at), Run(env, Boot(self.role), events).pin;
    var nm := NetmapFor(lower, cfg, self, v).value;
    ApprovedKeepsOk(cfg, db.nodes, db.statics);
    ApprovedMembers(db.nodes);
    assert LockPasses(env, pin, nm) by {
      EnforceKeepsAllIff(env, pin, nm);
      if db.lockActive {
        SignedNetmapKept(env, verify, lower, cfg, db, last, self, at, pin);
      }
    }
    SyncSettles(env, lower, cfg, self, v, events, now, io);
  }

  lemma OneHub(cfg: Config, v: View, hub: Node)
    requires TablesOk(cfg, v.nodes, v.statics) && hub in v.nodes && hub.role == RoleHub
    ensures HubOf(v.nodes) == Some(hub)
  {
    HubOfMembers(v.nodes);
    RowsCompatible(cfg, v.nodes, v.statics, HubOf(v.nodes).value, hub);
  }

  lemma SettledSpoke(env: Env, cfg: Config, v: View, hub: Node, self: Node, st: AgentState)
    requires TablesOk(cfg, v.nodes, v.statics) && hub in v.nodes && hub.role == RoleHub
    requires self.role == RoleNode && Settled(env, cfg, self, v, st)
    ensures st.device == SpokeConfigs(cfg, self, v, hub, st.probes)
    ensures Tracks(env, RoleNode, st.probes, SpokeNetmapPeers(cfg, self, v, hub))
  {
    OneHub(cfg, v, hub);
    assert st.nm.value.peers == SpokeNetmapPeers(cfg, self, v, hub);
  }

  lemma SettledHub(env: Env, cfg: Config, v: View, hub: Node, st: AgentState)
    requires hub.role == RoleHub && Settled(env, cfg, hub, v, st)
    ensures st.device == HubConfigs(hub, v, st.probes)
  {
  }

  /** The peer a packet for a goes to. */
  function HopConfig(device: seq<PeerConfig>, a: Addr): Option<PeerConfig> {
    match Lookup(device, a)
    case None => None
    case Some(i) => if i < |device| then Some(device[i]) else None
  }

  /** The public key it is encrypted to. */
  function HopKey(device: seq<PeerConfig>, a: Addr): Option<string> {
    match HopConfig(device, a)
    case None => None
    case Some(pc) => Some(pc.key)
  }

  ghost predicate GoesDirect(s: Device, d: Device, probes: map<string, ProbeState>) {
    s.OnNode? && d.OnNode? && IsDirect(probes, d.Key())
  }

  /** A spoke's first hop is dialled at the hub's endpoint, or at the direct peer's path, and kept alive. */
  ghost predicate Dials(cfg: Config, s: Device, d: Device, src: AgentState) {
    s.OnNode? ==>
      var hop := HopConfig(src.device, d.Ip());
      && hop.Some?
      && hop.value.endpoint == (if GoesDirect(s, d, src.probes) then PathOf(src.probes[d.Key()]) else cfg.hubEndpoint)
      && (hop.value.endpoint != "" ==> hop.value.keepaliveSec > 0)
  }

  /** A static peer's configuration knows only the hub. */
  function FirstHop(s: Device, st: AgentState, hub: Node, a: Addr): Option<string> {
    if s.OnStatic? then Some(hub.key) else HopKey(st.device, a)
  }

  /**
   * Routing is total and two-hop: a spoke sends another device's address to
   * that device exactly when it is in phase direct and to the hub otherwise,
   * and the hub sends it to the device itself.
   */
  lemma TwoHop(env: Env, cfg: Config, v: View, hub: Node, s: Device, d: Device, src: AgentState, relay: AgentState)
    requires TablesOk(cfg, v.nodes, v.statics) && hub in v.nodes && hub.role == RoleHub
    requires Present(v, s) && Present(v, d) && s != d
    requires s.OnNode? ==> Settled(env, cfg, s.node, v, src)
    requires Settled(env, cfg, hub, v, relay)
    ensures FirstHop(s, src, hub, d.Ip()) ==
      if GoesDirect(s, d, src.probes) then Some(d.Key()) else Some(hub.key)
    ensures Dials(cfg, s, d, src)
    ensures HopKey(relay.device, d.Ip()) == Some(d.Key())
  {
    PresentOk(cfg, v, d);
    SettledHub(env, cfg, v, hub, relay);
    HubReaches(cfg, v, hub, d, relay.probes);
    if s.OnNode? {
      SettledSpoke(env, cfg, v, hub, s.node, src);
      SpokeReaches(cfg, v, hub, s.node, d, src.probes);
    }
  }

  lemma HubReaches(cfg: Config, v: View, hub: Node, d: Device, probes: map<string, ProbeState>)
    requires TablesOk(cfg, v.nodes, v.statics) && hub in v.nodes && hub.role == RoleHub && Present(v, d)
    ensures HopKey(HubConfigs(hub, v, probes), d.Ip()) == Some(d.Key())
  {
    PresentOk(cfg, v, d);
    var p := if d.OnNode? then HubPeer(d.node) else StaticHubPeer(d.peer);
    if d.OnNode? {
      RowsCompatible(cfg, v.nodes, v.statics, d.node, hub);
      HubNodePeersMembers(hub.id, v.nodes, p);
    } else {
      StaticPeersMembers(v.statics, p);
    }
    var i := HubRoutes(cfg, hub, v, probes, p);
  }

  lemma SpokeReaches(cfg: Config, v: View, hub: Node, s: Node, d: Device, probes: map<string, ProbeState>)
    requires TablesOk(cfg, v.nodes, v.statics) && hub in v.nodes && hub.role == RoleHub
    requires s in v.nodes && s.role == RoleNode && Present(v, d) && OnNode(s) != d
    ensures var hop := HopConfig(SpokeConfigs(cfg, s, v, hub, probes), d.Ip());
      && hop.Some? && (hop.value.endpoint != "" ==> hop.value.keepaliveSec > 0)
      && if GoesDirect(OnNode(s), d, probes) then hop.value.key == d.Key() && hop.value.endpoint == PathOf(probes[d.Key()])
         else hop.value.key == hub.key && hop.value.endpoint == cfg.hubEndpoint
  {
    PresentOk(cfg, v, d);
    SpokeRoutes(cfg, s, v, hub, probes, d.Ip());
    if d.OnNode? {
      RowsCompatible(cfg, v.nodes, v.statics, s, d.node);
    }
    var cs := SpokeConfigs(cfg, s, v, hub, probes);
    if GoesDirect(OnNode(s), d, probes) {
      var i := DirectWins(cfg, s, v, hub, probes, d.node);
    } else {
      assert cs[0] == Compose(RoleNode, probes, RelayPeer(cfg, hub, s.id, v.nodes));
    }
  }

  // ---------- traffic to the hub itself ----------

  /** What the hub's resolver listens for. */
  predicate AsksResolver(l4: L4) { (l4.Udp? || l4.Tcp?) && l4.port == 53 }

  function ResolverRules(text: string): seq<FilterRule> {
    [FilterRule([text], Service("udp", ["53"])), FilterRule([text], Service("tcp", ["53"]))]
  }

  lemma ResolverAdmits(cfg: Config, a: Addr, l4: L4)
    requires Contains(cfg.overlay, a)
    ensures FilterAdmits(ResolverRules(CidrText(cfg.overlay)), a, l4) <==> AsksResolver(l4)
  {
    var text := CidrText(cfg.overlay);
    var rules := ResolverRules(text);
    CidrHasPrefix(cfg.overlay, a);
    assert text in [text];
    assert AnyCidrHas([text], a);
    Port53();
    assert FilterRuleAdmits(rules[0], a, l4) <==> l4.Udp? && l4.port == 53;
    assert FilterRuleAdmits(rules[1], a, l4) <==> l4.Tcp? && l4.port == 53;
    assert rules[0] in rules && rules[1] in rules;
  }

  lemma Port53()
    ensures PortValue("53") == 53 && Free(["53"], ',')
    ensures forall n :: HasPort(["53"], n) <==> n == 53
  {
    assert "53"[..1] == "5" && "5"[..0] == "" && Numeral("") == 0 && Numeral("5") == 5;
    assert "53" in ["53"];
  }

  lemma AdmitsConcat(xs: seq<FilterRule>, ys: seq<FilterRule>, a: Addr, l4: L4)
    ensures FilterAdmits(xs + ys, a, l4) <==> FilterAdmits(xs, a, l4) || FilterAdmits(ys, a, l4)
  {
    assert forall r :: r in xs + ys <==> r in xs || r in ys;
  }

  /**
   * The hub's own inbound chain: with a policy enabled it accepts a new flow from
   * another device iff it asks the resolver, where there is one, or a policy
   * allows it towards the hub's tags.
   */
  lemma HubInboundExact(env: Env, cfg: Config, v: View, hub: Node, nm: Netmap, s: Device, l4: L4)
    requires TablesOk(cfg, v.nodes, v.statics) && ValidPolicies(v.policies) && hub in v.nodes && hub.role == RoleHub && Present(v, s)
    requires env.overlayText == CidrText(cfg.overlay) && nm.filterEnabled
    requires nm.filterRules == FilterRulesOf(NodeDev(hub), SourcesOf(v.nodes, v.statics), v.policies)
    ensures Verdict(FilterChain(FilterFor(env, RoleHub, nm).input), Packet(s.Ip(), hub.ip, l4, false)) == ACCEPT <==>
            (env.dns && AsksResolver(l4)) || PolicyAllows(v.policies, s.Tags(), hub.tags, l4)
  {
    var sources := SourcesOf(v.nodes, v.statics);
    var infra := if env.dns then ResolverRules(env.overlayText) else [];
    var rules := infra + nm.filterRules;
    assert FilterFor(env, RoleHub, nm).input == rules;
    Port53();
    forall r | r in rules ensures PlainPorts(r.service) {
      if r in nm.filterRules {
        FilterServices(NodeDev(hub), sources, v.policies, r);
        var p :| p in v.policies && r.service == p.service;
        ValidPortsAreFree(p);
      }
    }
    FilterChainExact(rules, Packet(s.Ip(), hub.ip, l4, false));
    AdmitsConcat(infra, nm.filterRules, s.Ip(), l4);
    PresentOk(cfg, v, s);
    ResolverAdmits(cfg, s.Ip(), l4);
    SourceHolder(cfg, v, s);
    HubIsNotDevice(cfg, v, hub, s);
    FilterVerdict(NodeDev(hub), sources, v.policies, s.Dev(), s.Ip(), l4);
  }

  lemma HubIsNotDevice(cfg: Config, v: View, hub: Node, s: Device)
    requires TablesOk(cfg, v.nodes, v.statics) && hub in v.nodes && hub.role == RoleHub && Present(v, s)
    ensures s.Dev().cidr != NodeDev(hub).cidr
  {
    PresentOk(cfg, v, s);
    HostText(hub.ip, s.Ip());
  }

  // ---------- the end-to-end theorem ----------

  /** The destination's own inbound chain, where it has one in force. */
  ghost predicate InboundAccepts(dst: AgentState, s: Device, d: Device, l4: L4) {
    d.OnNode? && FilterCapable(d.node) && dst.filter.enabled ==>
      Verdict(FilterChain(dst.filter.input), FlowOf(s, d, l4)) == ACCEPT
  }

  /** The hub's forward chain, where it has one in force. */
  ghost predicate RelayAccepts(relay: AgentState, hub: Node, s: Device, d: Device, l4: L4) {
    FilterCapable(hub) && relay.filter.enabled ==> Verdict(ForwardChain(relay.filter.forward), FlowOf(s, d, l4)) == ACCEPT
  }

  /**
   * A new flow leaves s, takes the hops the daemons' devices give it and passes
   * every chain the daemons on the way have in force.
   */
  ghost predicate Delivered(hub: Node, s: Device, d: Device, src: AgentState, relay: AgentState, dst: AgentState, l4: L4) {
    var hop := FirstHop(s, src, hub, d.Ip());
    if hop == Some(hub.key) then
      RelayAccepts(relay, hub, s, d, l4) && HopKey(relay.device, d.Ip()) == Some(d.Key()) && InboundAccepts(dst, s, d, l4)
    else hop == Some(d.Key()) && InboundAccepts(dst, s, d, l4)
  }

  lemma InboundMeans(cfg: Config, v: View, s: Device, d: Device, dst: AgentState, l4: L4)
    requires TablesOk(cfg, v.nodes, v.statics) && ValidPolicies(v.policies)
    requires Present(v, s) && Present(v, d) && s != d
    requires d.OnNode? ==> Screens(d.node, v, dst)
    ensures InboundAccepts(dst, s, d, l4) <==>
      (d.OnNode? && FilterCapable(d.node) ==> PolicyAllows(v.policies, s.Tags(), d.Tags(), l4))
  {
    if d.OnNode? {
      InboundExact(cfg, v, s, d.node, l4);
    }
  }

  lemma RelayMeans(cfg: Config, v: View, hub: Node, s: Device, d: Device, relay: AgentState, l4: L4)
    requires TablesOk(cfg, v.nodes, v.statics) && ValidPolicies(v.policies)
    requires hub in v.nodes && hub.role == RoleHub && FilterCapable(hub) && Present(v, s) && Present(v, d) && s != d
    requires Relays(hub, v, relay)
    ensures RelayAccepts(relay, hub, s, d, l4) <==> PolicyAllows(v.policies, s.Tags(), d.Tags(), l4)
  {
    RelayExact(cfg, v, hub, s, d, l4);
  }

  /** A first hop other than the hub leads from one filtering node to another. */
  lemma AvoidsHub(env: Env, cfg: Config, v: View, hub: Node, s: Device, d: Device, src: AgentState)
    requires TablesOk(cfg, v.nodes, v.statics) && AnyEnabled(v.policies)
    requires hub in v.nodes && hub.role == RoleHub && Present(v, s) && Present(v, d)
    requires s.OnNode? && Settled(env, cfg, s.node, v, src)
    requires d.OnNode? && IsDirect(src.probes, d.Key())
    ensures FilterCapable(s.node) && FilterCapable(d.node)
  {
    SettledSpoke(env, cfg, v, hub, s.node, src);
    DirectBothFilter(env, cfg, v, hub, s.node, d.node, src.probes);
  }

  lemma ViewDelivers(env: Env, cfg: Config, v: View, hub: Node, s: Device, d: Device,
                     src: AgentState, relay: AgentState, dst: AgentState, l4: L4)
    requires TablesOk(cfg, v.nodes, v.statics) && ValidPolicies(v.policies) && AnyEnabled(v.policies)
    requires hub in v.nodes && hub.role == RoleHub && FilterCapable(hub)
    requires Present(v, s) && Present(v, d) && s != d
    requires s.OnNode? ==> Settled(env, cfg, s.node, v, src)
    requires Settled(env, cfg, hub, v, relay) && Relays(hub, v, relay)
    requires d.OnNode? ==> Screens(d.node, v, dst)
    ensures Delivered(hub, s, d, src, relay, dst, l4) <==> PolicyAllows(v.policies, s.Tags(), d.Tags(), l4)
    ensures FirstHop(s, src, hub, d.Ip()) != Some(hub.key) ==>
      s.OnNode? && d.OnNode? && s.node.os == "linux" && d.node.os == "linux"
    ensures Dials(cfg, s, d, src)
  {
    var allowed := PolicyAllows(v.policies, s.Tags(), d.Tags(), l4);
    var inbound := InboundAccepts(dst, s, d, l4);
    var relayed := RelayAccepts(relay, hub, s, d, l4);
    var hop := FirstHop(s, src, hub, d.Ip());
    var last := HopKey(relay.device, d.Ip());
    var direct := GoesDirect(s, d, src.probes);
    assert inbound <==> (d.OnNode? && FilterCapable(d.node) ==> allowed) by {
      InboundMeans(cfg, v, s, d, dst, l4);
    }
    assert relayed <==> allowed by {
      RelayMeans(cfg, v, hub, s, d, relay, l4);
    }
    assert hop == (if direct then Some(d.Key()) else Some(hub.key)) && last == Some(d.Key()) && Dials(cfg, s, d, src) by {
      TwoHop(env, cfg, v, hub, s, d, src, relay);
    }
    if direct {
      AvoidsHub(env, cfg, v, hub, s, d, src);
    }
  }

  /**
   * With a policy enabled, in every reachable coordinator state and for any two
   * spokes or static peers, whatever phases their probers are in: the devices and
   * chains that daemons in place on that state have in force deliver a new flow
   * iff some enabled policy allows it. A path that avoids the hub joins two Linux
   * nodes.
   */
  lemma PoliciesReachPackets(env: Env, cfg: Config, verify: Verifier, ops: seq<Op>, now: int,
                             hub: Node, s: Device, d: Device, src: AgentState, relay: AgentState, dst: AgentState, l4: L4)
    requires var v := ViewOf(RunOps(cfg, verify, EMPTY_DB, ops), now);
      && AnyEnabled(v.policies) && hub in v.nodes && hub.role == RoleHub && FilterCapable(hub)
      && Present(v, s) && Present(v, d) && s != d
      && (s.OnNode? ==> Settled(env, cfg, s.node, v, src))
      && Settled(env, cfg, hub, v, relay) && Relays(hub, v, relay)
      && (d.OnNode? ==> Screens(d.node, v, dst))
    ensures var v := ViewOf(RunOps(cfg, verify, EMPTY_DB, ops), now);
      && (Delivered(hub, s, d, src, relay, dst, l4) <==> PolicyAllows(v.policies, s.Tags(), d.Tags(), l4))
      && (FirstHop(s, src, hub, d.Ip()) != Some(hub.key) ==>
            s.OnNode? && d.OnNode? && s.node.os == "linux" && d.node.os == "linux")
      && Dials(cfg, s, d, src)
  {
    var db := RunOps(cfg, verify, EMPTY_DB, ops);
    ReachableInv(cfg, verify, ops);
    ReachablePolicies(cfg, verify, ops);
    ApprovedKeepsOk(cfg, db.nodes, db.statics);
    ViewDelivers(env, cfg, ViewOf(db, now), hub, s, d, src, relay, dst, l4);
  }

  /** With no policy enabled the mesh is open: daemons in place deliver every flow. */
  lemma OpenMeshDelivers(env: Env, cfg: Config, verify: Verifier, ops: seq<Op>, now: int,
                         hub: Node, s: Device, d: Device, src: AgentState, relay: AgentState, dst: AgentState, l4: L4)
    requires var v := ViewOf(RunOps(cfg, verify, EMPTY_DB, ops), now);
      && !AnyEnabled(v.policies) && hub in v.nodes && hub.role == RoleHub
      && Present(v, s) && Present(v, d) && s != d
      && (s.OnNode? ==> InPlace(env, cfg, s.node, v, src))
      && InPlace(env, cfg, hub, v, relay)
      && (d.OnNode? ==> InPlace(env, cfg, d.node, v, dst))
    ensures Delivered(hub, s, d, src, relay, dst, l4) && Dials(cfg, s, d, src)
  {
    var db := RunOps(cfg, verify, EMPTY_DB, ops);
    ReachableInv(cfg, verify, ops);
    ApprovedKeepsOk(cfg, db.nodes, db.statics);
    TwoHop(env, cfg, ViewOf(db, now), hub, s, d, src, relay);
  }
}
