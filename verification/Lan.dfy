/**
 * Flows into the LANs behind subnet routers: what hub and router admit, where
 * routing takes such a flow, and what arrives.
 */
module Lans {
  import opened Net
  import opened Options
  import opened Text
  import opened Ipam
  import opened Rules
  import opened Store
  import opened Acl
  import opened FilterSpec
  import opened Routes
  import opened Netmaps
  import opened Prober
  import opened Agents
  import opened Coordinators
  import opened Routing
  import opened EndToEnd

  // ---------- what a router admits ----------

  /** Some of these routes leads to b. */
  predicate Covers(routes: seq<Prefix>, b: Addr) { exists r :: r in routes && Contains(r, b) }

  lemma RouteDevHas(routes: seq<Prefix>, tags: seq<string>, b: Addr)
    ensures (exists d :: d in RouteDevs(routes, tags) && CidrHas(d.cidr, b)) <==> Covers(routes, b)
    ensures forall d :: d in RouteDevs(routes, tags) ==> d.tags == tags
  {
    forall d | d in RouteDevs(routes, tags) && CidrHas(d.cidr, b) ensures Covers(routes, b) {
      RouteDevsMembers(routes, tags, d);
      var r :| r in routes && d == AclDev(CidrText(r), tags);
      CidrHasPrefix(r, b);
    }
    forall r | r in routes && Contains(r, b) ensures exists d :: d in RouteDevs(routes, tags) && CidrHas(d.cidr, b) {
      RouteDevsMembers(routes, tags, AclDev(CidrText(r), tags));
      CidrHasPrefix(r, b);
      assert AclDev(CidrText(r), tags) in RouteDevs(routes, tags);
    }
  }

  /**
   * For any tables and any router: its forward rules admit a flow from the one
   * device that holds a, which is outside its LANs, iff one of its enabled routes
   * leads to b and policies allow the flow towards the router's tags.
   */
  lemma RouterAdmits(router: Node, nodes: seq<Node>, statics: seq<StaticPeer>, policies: seq<Policy>, src: AclDev, a: Addr, b: Addr, l4: L4)
    requires router.role == RoleNode && OnlyHolder(SourcesOf(nodes, statics), src, a) && !Covers(router.enabled, a)
    ensures ForwardAdmits(ForwardRulesOf(DstsOf(router, nodes, statics), SourcesOf(nodes, statics), policies), a, b, l4) <==>
            Covers(router.enabled, b) && PolicyAllows(policies, src.tags, router.tags, l4)
  {
    var sources, dsts := SourcesOf(nodes, statics), DstsOf(router, nodes, statics);
    assert dsts == RouteDevs(router.enabled, router.tags);
    SourcesCommaFree(nodes, statics);
    RouteDevHas(router.enabled, router.tags, b);
    forall d | d in dsts ensures d.cidr != src.cidr {
      RouteDevHas(router.enabled, router.tags, a);
      assert !CidrHas(d.cidr, a);
    }
    ForwardMeaning(dsts, sources, policies, src, a, b, l4);
  }

  // ---------- what the hub admits ----------

  /** Policies allow the flow towards some node whose enabled routes lead to b. */
  ghost predicate SomeLanAllows(v: View, srcTags: seq<string>, b: Addr, l4: L4) {
    exists n :: n in v.nodes && Covers(n.enabled, b) && PolicyAllows(v.policies, srcTags, n.tags, l4)
  }

  lemma HubLanDst(cfg: Config, v: View, hub: Node, b: Addr, d: AclDev) returns (n: Node)
    requires TablesOk(cfg, v.nodes, v.statics) && hub in v.nodes && hub.role == RoleHub && b < INVALID && !Contains(cfg.overlay, b)
    requires d in DstsOf(hub, v.nodes, v.statics) && CidrHas(d.cidr, b)
    ensures n in v.nodes && d in RouteDevs(n.enabled, n.tags)
  {
    if d in HubDsts(hub.id, v.nodes) {
      HubDstsMembers(hub.id, v.nodes, d);
      n :| n in v.nodes && n.id != hub.id && (d == NodeDev(n) || d in RouteDevs(n.enabled, n.tags));
      RowsCompatible(cfg, v.nodes, v.statics, n, hub);
      HostsAreInside(cfg.overlay, n.ip);
      HostText(n.ip, b);
    } else if d in RouteDevs(hub.enabled, hub.tags) {
      n := hub;
    } else {
      StaticDevsMembers(v.statics, d);
      var p :| p in v.statics && d == StaticDev(p);
      PresentOk(cfg, v, OnStatic(p));
      HostText(p.ip, b);
      n := hub;
    }
  }

  lemma LanDstIsThere(v: View, hub: Node, n: Node, d: AclDev)
    requires hub in v.nodes && hub.role == RoleHub && n in v.nodes && (n.id == hub.id ==> n == hub) && d in RouteDevs(n.enabled, n.tags)
    ensures d in DstsOf(hub, v.nodes, v.statics)
  {
    HubDstsMembers(hub.id, v.nodes, d);
  }

  lemma NoRouteHolds(cfg: Config, v: View, s: Device, n: Node)
    requires TablesOk(cfg, v.nodes, v.statics) && Present(v, s) && n in v.nodes
    ensures !Covers(n.enabled, s.Ip())
  {
    PresentOk(cfg, v, s);
    RowsCompatible(cfg, v.nodes, v.statics, n, n);
    forall r | r in n.enabled ensures !Contains(r, s.Ip()) {
      GoodRouteAvoidsOverlay(cfg.overlay, r, s.Ip());
    }
  }

  /** The hub's forward rules admit a flow towards b iff policies allow it towards some node that serves b. */
  lemma HubAdmitsLan(cfg: Config, v: View, hub: Node, s: Device, b: Addr, l4: L4)
    requires TablesOk(cfg, v.nodes, v.statics) && hub in v.nodes && hub.role == RoleHub && Present(v, s)
    requires b < INVALID && !Contains(cfg.overlay, b)
    ensures ForwardAdmits(ForwardRulesOf(DstsOf(hub, v.nodes, v.statics), SourcesOf(v.nodes, v.statics), v.policies), s.Ip(), b, l4) <==>
            SomeLanAllows(v, s.Tags(), b, l4)
  {
    var sources, dsts := SourcesOf(v.nodes, v.statics), DstsOf(hub, v.nodes, v.statics);
    SourcesCommaFree(v.nodes, v.statics);
    SourceHolder(cfg, v, s);
    forall d | d in dsts && CidrHas(d.cidr, b) ensures d.cidr != s.Dev().cidr {
      var n := HubLanDst(cfg, v, hub, b, d);
      RouteIsNoDevice(cfg, v, s, n, d);
    }
    ForwardMeaning(dsts, sources, v.policies, s.Dev(), s.Ip(), b, l4);
    forall d | d in dsts && CidrHas(d.cidr, b) && PolicyAllows(v.policies, s.Tags(), d.tags, l4) ensures SomeLanAllows(v, s.Tags(), b, l4) {
      var n := HubLanDst(cfg, v, hub, b, d);
      RouteDevHas(n.enabled, n.tags, b);
    }
    forall n | n in v.nodes && Covers(n.enabled, b) && PolicyAllows(v.policies, s.Tags(), n.tags, l4)
      ensures exists d :: d in dsts && CidrHas(d.cidr, b) && PolicyAllows(v.policies, s.Tags(), d.tags, l4)
    {
      RouteDevHas(n.enabled, n.tags, b);
      var d :| d in RouteDevs(n.enabled, n.tags) && CidrHas(d.cidr, b);
      RowsCompatible(cfg, v.nodes, v.statics, n, hub);
      LanDstIsThere(v, hub, n, d);
    }
  }

  // ---------- the chains ----------

  function LanFlow(s: Device, b: Addr, l4: L4): Packet { Packet(s.Ip(), b, l4, false) }

  lemma PlainForward(v: View, dsts: seq<AclDev>, r: ForwardRule)
    requires ValidPolicies(v.policies) && r in ForwardRulesOf(dsts, SourcesOf(v.nodes, v.statics), v.policies)
    ensures PlainPorts(r.service)
  {
    ForwardServices(dsts, SourcesOf(v.nodes, v.statics), v.policies, r);
    var p :| p in v.policies && r.service == p.service;
    ValidPortsAreFree(p);
  }

  /** The hub's chain lets a new flow towards b through iff policies allow it towards some node that serves b. */
  lemma HubLanExact(cfg: Config, v: View, hub: Node, s: Device, b: Addr, relay: AgentState, l4: L4)
    requires TablesOk(cfg, v.nodes, v.statics) && ValidPolicies(v.policies) && hub in v.nodes && hub.role == RoleHub && Present(v, s)
    requires b < INVALID && !Contains(cfg.overlay, b) && Relays(hub, v, relay)
    ensures Verdict(ForwardChain(relay.filter.forward), LanFlow(s, b, l4)) == ACCEPT <==> SomeLanAllows(v, s.Tags(), b, l4)
  {
    var dsts := DstsOf(hub, v.nodes, v.statics);
    var rules := ForwardRulesOf(dsts, SourcesOf(v.nodes, v.statics), v.policies);
    forall r | r in rules ensures PlainPorts(r.service) {
      PlainForward(v, dsts, r);
    }
    ForwardChainExact(rules, LanFlow(s, b, l4));
    HubAdmitsLan(cfg, v, hub, s, b, l4);
  }

  /** The router's chain lets it through iff its own routes lead to b and policies allow the flow towards it. */
  lemma RouterLanExact(cfg: Config, v: View, router: Node, s: Device, b: Addr, gate: AgentState, l4: L4)
    requires TablesOk(cfg, v.nodes, v.statics) && ValidPolicies(v.policies) && router in v.nodes && router.role == RoleNode && Present(v, s)
    requires Relays(router, v, gate)
    ensures Verdict(ForwardChain(gate.filter.forward), LanFlow(s, b, l4)) == ACCEPT <==>
            Covers(router.enabled, b) && PolicyAllows(v.policies, s.Tags(), router.tags, l4)
  {
    var dsts := DstsOf(router, v.nodes, v.statics);
    var rules := ForwardRulesOf(dsts, SourcesOf(v.nodes, v.statics), v.policies);
    forall r | r in rules ensures PlainPorts(r.service) {
      PlainForward(v, dsts, r);
    }
    ForwardChainExact(rules, LanFlow(s, b, l4));
    SourceHolder(cfg, v, s);
    NoRouteHolds(cfg, v, s, router);
    RouterAdmits(router, v.nodes, v.statics, v.policies, s.Dev(), s.Ip(), b, l4);
  }

  // ---------- routing ----------

  /** Of all spokes, router has the longest enabled route to b. */
  ghost predicate Serves(v: View, router: Node, b: Addr) {
    && router in v.nodes && router.role == RoleNode && Longest(router.enabled, b) >= 0
    && forall n :: n in v.nodes && n.role == RoleNode && n != router ==> Longest(n.enabled, b) < Longest(router.enabled, b)
  }

  lemma CoversIff(routes: seq<Prefix>, b: Addr)
    ensures Covers(routes, b) <==> Longest(routes, b) >= 0
  {
    LongestIs(routes, b);
  }

  /** Two nodes never tie: equally long routes to one address are one route, and that is enabled once. */
  lemma NoTie(cfg: Config, v: View, m: Node, n: Node, b: Addr)
    requires TablesOk(cfg, v.nodes, v.statics) && m in v.nodes && n in v.nodes && m != n && Longest(m.enabled, b) >= 0
    ensures Longest(m.enabled, b) != Longest(n.enabled, b)
  {
    RowsCompatible(cfg, v.nodes, v.statics, m, n);
    LongestIs(m.enabled, b);
    LongestIs(n.enabled, b);
    if Longest(m.enabled, b) == Longest(n.enabled, b) {
      var p :| p in m.enabled && Contains(p, b) && p.bits == Longest(m.enabled, b);
      var q :| q in n.enabled && Contains(q, b) && q.bits == Longest(n.enabled, b);
      SameLengthSamePrefix(p, q, b);
    }
  }

  lemma {:induction false} BestOf(nodes: seq<Node>, b: Addr) returns (best: Node)
    requires exists n :: n in nodes && n.role == RoleNode && Longest(n.enabled, b) >= 0
    ensures best in nodes && best.role == RoleNode && Longest(best.enabled, b) >= 0
    ensures forall n :: n in nodes && n.role == RoleNode ==> Longest(n.enabled, b) <= Longest(best.enabled, b)
  {
    var init, last := nodes[..|nodes| - 1], nodes[|nodes| - 1];
    assert nodes == init + [last];
    assert forall n :: n in nodes <==> n in init || n == last;
    if exists n :: n in init && n.role == RoleNode && Longest(n.enabled, b) >= 0 {
      best := BestOf(init, b);
      if last.role == RoleNode && Longest(last.enabled, b) > Longest(best.enabled, b) {
        best := last;
      }
    } else {
      best := last;
    }
  }

  /** Whatever some spoke's route covers, exactly one spoke serves. */
  lemma SomeoneServes(cfg: Config, v: View, n: Node, b: Addr) returns (router: Node)
    requires TablesOk(cfg, v.nodes, v.statics) && n in v.nodes && n.role == RoleNode && Covers(n.enabled, b)
    ensures Serves(v, router, b) && forall m :: Serves(v, m, b) ==> m == router
  {
    CoversIff(n.enabled, b);
    router := BestOf(v.nodes, b);
    forall m | m in v.nodes && m.role == RoleNode && m != router ensures Longest(m.enabled, b) < Longest(router.enabled, b) {
      NoTie(cfg, v, router, m, b);
    }
  }

  lemma OutsideMisses(cfg: Config, ip: Addr, b: Addr)
    requires IsHost(cfg.overlay, ip) && b < INVALID && !Contains(cfg.overlay, b)
    ensures Longest([Host(ip)], b) == -1
  {
    HostsAreInside(cfg.overlay, ip);
    HostLongest(ip, b);
  }

  lemma HubLanEntry(cfg: Config, hub: Node, v: View, probes: map<string, ProbeState>, j: nat, router: Node, b: Addr)
    requires TablesOk(cfg, v.nodes, v.statics) && hub in v.nodes && hub.role == RoleHub && b < INVALID && !Contains(cfg.overlay, b)
    requires Serves(v, router, b) && j < |HubConfigs(hub, v, probes)|
    ensures var p := (HubNodePeers(hub.id, v.nodes) + StaticPeers(v.statics))[j];
      && HubConfigs(hub, v, probes)[j].key == p.key
      && (p.ip != router.ip ==> Longest(HubConfigs(hub, v, probes)[j].allowed, b) < Longest(router.enabled, b))
      && (p.ip == router.ip ==> Longest(HubConfigs(hub, v, probes)[j].allowed, b) == Longest(router.enabled, b) && p.key == router.key)
  {
    var xs := HubNodePeers(hub.id, v.nodes);
    RowsCompatible(cfg, v.nodes, v.statics, router, hub);
    if j < |xs| {
      HubNodePeersMembers(hub.id, v.nodes, xs[j]);
      var n :| n in v.nodes && n.id != hub.id && xs[j] == HubPeer(n);
      RowsCompatible(cfg, v.nodes, v.statics, n, hub);
      RowsCompatible(cfg, v.nodes, v.statics, n, router);
      OutsideMisses(cfg, n.ip, b);
      LongestIs(n.enabled, b);
      LongestConcat([Host(n.ip)], n.enabled, b);
    } else {
      var q := v.statics[j - |xs|];
      assert StaticOk(cfg, v.statics[j - |xs|]);
      OutsideMisses(cfg, q.ip, b);
      var k :| 0 <= k < |v.nodes| && v.nodes[k] == router;
      assert v.nodes[k].ip != v.statics[j - |xs|].ip;
    }
  }

  /** The hub sends b to the node that serves it. */
  lemma HubSendsToRouter(cfg: Config, hub: Node, v: View, probes: map<string, ProbeState>, router: Node, b: Addr)
    requires TablesOk(cfg, v.nodes, v.statics) && hub in v.nodes && hub.role == RoleHub && b < INVALID && !Contains(cfg.overlay, b)
    requires Serves(v, router, b)
    ensures HopKey(HubConfigs(hub, v, probes), b) == Some(router.key)
  {
    var ps, cs := HubNodePeers(hub.id, v.nodes) + StaticPeers(v.statics), HubConfigs(hub, v, probes);
    RowsCompatible(cfg, v.nodes, v.statics, router, hub);
    HubNodePeersMembers(hub.id, v.nodes, HubPeer(router));
    assert HubPeer(router) in HubNodePeers(hub.id, v.nodes);
    assert HubPeer(router) in ps;
    var i :| 0 <= i < |ps| && ps[i] == HubPeer(router);
    HubPeersDistinct(cfg, hub.id, v.nodes, v.statics);
    HubLanEntry(cfg, hub, v, probes, i, router, b);
    forall j | 0 <= j < |cs| && j != i ensures Longest(cs[j].allowed, b) < Longest(cs[i].allowed, b) {
      HubLanEntry(cfg, hub, v, probes, j, router, b);
      assert ps[j].ip != ps[i].ip;
    }
    LookupUnique(cs, b, i);
  }

  /** Any other spoke sends it to the hub. */
  lemma SpokeSendsToHub(cfg: Config, self: Node, v: View, hub: Node, probes: map<string, ProbeState>, router: Node, b: Addr)
    requires TablesOk(cfg, v.nodes, v.statics) && self in v.nodes && self.role == RoleNode && b < INVALID && !Contains(cfg.overlay, b)
    requires router in v.nodes && router.id != self.id && Covers(router.enabled, b)
    ensures HopKey(SpokeConfigs(cfg, self, v, hub, probes), b) == Some(hub.key)
  {
    var cs := SpokeConfigs(cfg, self, v, hub, probes);
    var r :| r in router.enabled && Contains(r, b);
    OtherRoutesMembers(self.id, v.nodes, r);
    assert cs[0].allowed == [Masked(cfg.overlay)] + OtherRoutes(self.id, v.nodes) && r in cs[0].allowed;
    LongestIs(cs[0].allowed, b);
    forall j | 0 <= j < |cs| && j != 0 ensures Longest(cs[j].allowed, b) < Longest(cs[0].allowed, b) {
      SpokeMissesLan(cfg, self, v, hub, probes, j, b);
    }
    LookupUnique(cs, b, 0);
  }

  lemma SpokeMissesLan(cfg: Config, self: Node, v: View, hub: Node, probes: map<string, ProbeState>, j: nat, b: Addr)
    requires TablesOk(cfg, v.nodes, v.statics) && b < INVALID && !Contains(cfg.overlay, b)
    requires 1 <= j < |SpokeConfigs(cfg, self, v, hub, probes)|
    ensures Longest(SpokeConfigs(cfg, self, v, hub, probes)[j].allowed, b) == -1
  {
    var n := SpokeEntry(cfg, self, v, hub, probes, j, b);
    RowsCompatible(cfg, v.nodes, v.statics, n, n);
    HostsAreInside(cfg.overlay, n.ip);
  }

  // ---------- delivery ----------

  /** A new flow leaves s for b, takes the hops the devices give it and passes the chains in force on hub and router. */
  ghost predicate LanDelivered(hub: Node, router: Node, s: Device, b: Addr, src: AgentState, relay: AgentState, gate: AgentState, l4: L4) {
    && FirstHop(s, src, hub, b) == Some(hub.key)
    && (relay.filter.enabled ==> Verdict(ForwardChain(relay.filter.forward), LanFlow(s, b, l4)) == ACCEPT)
    && HopKey(relay.device, b) == Some(router.key)
    && (gate.filter.enabled ==> Verdict(ForwardChain(gate.filter.forward), LanFlow(s, b, l4)) == ACCEPT)
  }

  /**
   * A flow from any other device to an address some LAN route covers is delivered
   * to the router with the longest such route iff policies allow it towards that
   * router's tags. (Only Linux nodes can be hubs or subnet routers.)
   */
  lemma LanReached(env: Env, cfg: Config, v: View, hub: Node, router: Node, s: Device, b: Addr,
                   src: AgentState, relay: AgentState, gate: AgentState, l4: L4)
    requires TablesOk(cfg, v.nodes, v.statics) && ValidPolicies(v.policies)
    requires hub in v.nodes && hub.role == RoleHub && Present(v, s) && s != OnNode(router)
    requires b < INVALID && !Contains(cfg.overlay, b) && Serves(v, router, b)
    requires s.OnNode? ==> Settled(env, cfg, s.node, v, src)
    requires Settled(env, cfg, hub, v, relay) && Relays(hub, v, relay) && Relays(router, v, gate)
    ensures LanDelivered(hub, router, s, b, src, relay, gate, l4) <==> PolicyAllows(v.policies, s.Tags(), router.tags, l4)
  {
    CoversIff(router.enabled, b);
    HubLanExact(cfg, v, hub, s, b, relay, l4);
    RouterLanExact(cfg, v, router, s, b, gate, l4);
    SettledHub(env, cfg, v, hub, relay);
    HubSendsToRouter(cfg, hub, v, relay.probes, router, b);
    if s.OnNode? {
      RowsCompatible(cfg, v.nodes, v.statics, s.node, router);
      SettledSpoke(env, cfg, v, hub, s.node, src);
      SpokeSendsToHub(cfg, s.node, v, hub, src.probes, router, b);
    }
  }

  /** The same in every reachable coordinator state. */
  lemma PoliciesReachLans(env: Env, cfg: Config, verify: Verifier, ops: seq<Op>, now: int, hub: Node, router: Node, s: Device, b: Addr,
                          src: AgentState, relay: AgentState, gate: AgentState, l4: L4)
    requires b < INVALID && !Contains(cfg.overlay, b)
    requires var v := ViewOf(RunOps(cfg, verify, EMPTY_DB, ops), now);
      && hub in v.nodes && hub.role == RoleHub && Present(v, s) && s != OnNode(router) && Serves(v, router, b)
      && (s.OnNode? ==> Settled(env, cfg, s.node, v, src))
      && Settled(env, cfg, hub, v, relay) && Relays(hub, v, relay) && Relays(router, v, gate)
    ensures LanDelivered(hub, router, s, b, src, relay, gate, l4) <==>
            PolicyAllows(RunOps(cfg, verify, EMPTY_DB, ops).policies, s.Tags(), router.tags, l4)
  {
    var db := RunOps(cfg, verify, EMPTY_DB, ops);
    ReachableInv(cfg, verify, ops);
    ReachablePolicies(cfg, verify, ops);
    ApprovedKeepsOk(cfg, db.nodes, db.statics);
    LanReached(env, cfg, ViewOf(db, now), hub, router, s, b, src, relay, gate, l4);
  }
}
