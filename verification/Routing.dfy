/**
 * Cryptokey routing over composed peers: longest match (section 5.1 of RFC
 * 4632) on AllowedIPs (section 2 of the WireGuard paper, NDSS 2017).
 */
module Routing {
  import opened Net
  import opened Options
  import opened Ipam
  import opened Store
  import opened Routes
  import opened Netmaps
  import opened Prober
  import opened Agents
  import opened Coordinators

  // ---------- longest match ----------

  /** Length of the longest of these prefixes around a; -1 if none contains it. */
  function Longest(allowed: seq<Prefix>, a: Addr): int {
    if allowed == [] then -1
    else
      var p, rest := allowed[|allowed| - 1], Longest(allowed[..|allowed| - 1], a);
      if Contains(p, a) && p.bits > rest then p.bits else rest
  }

  /** The peer that a packet for a goes to; a prefix on two peers belongs to the later one. */
  function Lookup(peers: seq<PeerConfig>, a: Addr): Option<nat> {
    if peers == [] then None
    else
      var n := |peers| - 1;
      var before := Lookup(peers[..n], a);
      var mine := Longest(peers[n].allowed, a);
      if mine >= 0 && (before.None? || before.value >= n || mine >= Longest(peers[before.value].allowed, a)) then Some(n)
      else before
  }

  lemma {:induction false} LongestIs(allowed: seq<Prefix>, a: Addr)
    ensures var b := Longest(allowed, a);
      && -1 <= b <= 32
      && (forall p :: p in allowed && Contains(p, a) ==> p.bits <= b)
      && (b >= 0 ==> exists p :: p in allowed && Contains(p, a) && p.bits == b)
  {
    if allowed != [] {
      var init, p := allowed[..|allowed| - 1], allowed[|allowed| - 1];
      LongestIs(init, a);
      assert allowed == init + [p];
      if Longest(allowed, a) == Longest(init, a) && Longest(init, a) >= 0 {
        var q :| q in init && Contains(q, a) && q.bits == Longest(init, a);
        assert q in allowed;
      }
    }
  }

  /** The chosen peer has a longest match; no peer is chosen only if none matches. */
  lemma {:induction false} LookupIsLongest(peers: seq<PeerConfig>, a: Addr)
    ensures match Lookup(peers, a)
      case None => forall j :: 0 <= j < |peers| ==> Longest(peers[j].allowed, a) < 0
      case Some(i) => i < |peers| && Longest(peers[i].allowed, a) >= 0
                      && forall j :: 0 <= j < |peers| ==> Longest(peers[j].allowed, a) <= Longest(peers[i].allowed, a)
  {
    if peers != [] {
      LookupIsLongest(peers[..|peers| - 1], a);
    }
  }

  lemma LookupUnique(peers: seq<PeerConfig>, a: Addr, i: nat)
    requires i < |peers| && Longest(peers[i].allowed, a) >= 0
    requires forall j :: 0 <= j < |peers| && j != i ==> Longest(peers[j].allowed, a) < Longest(peers[i].allowed, a)
    ensures Lookup(peers, a) == Some(i)
  {
    LookupIsLongest(peers, a);
  }

  // ---------- which prefixes hold a device ----------

  lemma HostLongest(ip: Addr, a: Addr)
    requires a < INVALID
    ensures Longest([Host(ip)], a) == if ip == a then 32 else -1
  {
    LongestIs([Host(ip)], a);
    assert Host(ip) in [Host(ip)];
  }

  lemma {:induction false} RoutesMissOverlay(cfg: Config, routes: seq<Prefix>, a: Addr)
    requires Contains(cfg.overlay, a) && forall r :: r in routes ==> GoodRoute(cfg.overlay, r)
    ensures Longest(routes, a) == -1
  {
    if routes != [] {
      assert routes[|routes| - 1] in routes;
      GoodRouteAvoidsOverlay(cfg.overlay, routes[|routes| - 1], a);
      RoutesMissOverlay(cfg, routes[..|routes| - 1], a);
    }
  }

  lemma {:induction false} LongestConcat(xs: seq<Prefix>, ys: seq<Prefix>, a: Addr)
    ensures Longest(xs + ys, a) == if Longest(xs, a) >= Longest(ys, a) then Longest(xs, a) else Longest(ys, a)
  {
    LongestIs(xs, a);
    if ys == [] {
      assert xs + ys == xs;
    } else {
      var z := xs + ys;
      assert z[..|z| - 1] == xs + ys[..|ys| - 1];
      LongestConcat(xs, ys[..|ys| - 1], a);
      LongestIs(ys[..|ys| - 1], a);
    }
  }

  /** A node's hub entry holds its own address and no other overlay address. */
  lemma HubPeerHolds(cfg: Config, n: Node, a: Addr)
    requires NodeOk(cfg, n) && Contains(cfg.overlay, a)
    ensures Longest(HubPeer(n).allowed, a) == if n.ip == a then 32 else -1
  {
    HostLongest(n.ip, a);
    RoutesMissOverlay(cfg, n.enabled, a);
    LongestConcat([Host(n.ip)], n.enabled, a);
  }

  lemma RelayHolds(cfg: Config, nodes: seq<Node>, statics: seq<StaticPeer>, hub: Node, self: string, a: Addr)
    requires TablesOk(cfg, nodes, statics) && Contains(cfg.overlay, a)
    ensures Longest(RelayPeer(cfg, hub, self, nodes).allowed, a) == cfg.overlay.bits
  {
    var routes := OtherRoutes(self, nodes);
    forall r | r in routes ensures GoodRoute(cfg.overlay, r) {
      OtherRoutesMembers(self, nodes, r);
      var n :| n in nodes && n.id != self && r in n.enabled;
      var i :| 0 <= i < |nodes| && nodes[i] == n;
      assert NodeOk(cfg, nodes[i]);
    }
    RoutesMissOverlay(cfg, routes, a);
    MaskedContains(cfg.overlay, a);
    var whole := [Masked(cfg.overlay)];
    LongestIs(whole, a);
    assert Masked(cfg.overlay) in whole;
    LongestConcat(whole, routes, a);
  }

  /** Row lookups by value. */
  lemma RowsCompatible(cfg: Config, nodes: seq<Node>, statics: seq<StaticPeer>, m: Node, n: Node)
    requires TablesOk(cfg, nodes, statics) && m in nodes && n in nodes
    ensures NodeOk(cfg, m) && NodeOk(cfg, n)
    ensures m != n ==> Compatible(m, n)
  {
    var i :| 0 <= i < |nodes| && nodes[i] == m;
    var j :| 0 <= j < |nodes| && nodes[j] == n;
    assert NodeOk(cfg, nodes[i]) && NodeOk(cfg, nodes[j]);
    if i < j {
      assert Compatible(nodes[i], nodes[j]);
    } else if j < i {
      assert Compatible(nodes[j], nodes[i]);
    }
  }

  /** With spokes around, the overlay is wider than one address. */
  lemma HostMeansRoom(cfg: Config, a: Addr)
    requires IsHost(cfg.overlay, a)
    ensures cfg.overlay.bits < 32
  {
    assert Pow2(0) == 1;
  }

  // ---------- distinct entries ----------

  ghost predicate DistinctIps(peers: seq<Peer>) { forall i, j :: 0 <= i < j < |peers| ==> peers[i].ip != peers[j].ip }

  lemma {:induction false} SpokePeersDistinct(cfg: Config, self: string, nodes: seq<Node>, statics: seq<StaticPeer>, candidates: map<string, seq<string>>)
    requires TablesOk(cfg, nodes, statics)
    ensures DistinctIps(SpokePeers(self, nodes, candidates))
  {
    if nodes != [] {
      var init, last := nodes[..|nodes| - 1], nodes[|nodes| - 1];
      SpokePeersDistinct(cfg, self, init, statics, candidates);
      var ps := SpokePeers(self, init, candidates);
      forall i | 0 <= i < |ps| ensures ps[i].ip != last.ip {
        SpokePeersMembers(self, init, candidates, ps[i]);
        var n :| n in init && n.id != self && n.role == RoleNode && ps[i] == SpokePeer(n, candidates);
        var k :| 0 <= k < |init| && init[k] == n;
        assert Compatible(nodes[k], nodes[|nodes| - 1]);
      }
    }
  }

  lemma {:induction false} HubNodePeersDistinct(cfg: Config, self: string, nodes: seq<Node>, statics: seq<StaticPeer>)
    requires TablesOk(cfg, nodes, statics)
    ensures DistinctIps(HubNodePeers(self, nodes))
  {
    if nodes != [] {
      var init, last := nodes[..|nodes| - 1], nodes[|nodes| - 1];
      HubNodePeersDistinct(cfg, self, init, statics);
      var ps := HubNodePeers(self, init);
      forall i | 0 <= i < |ps| ensures ps[i].ip != last.ip {
        HubNodePeersMembers(self, init, ps[i]);
        var n :| n in init && n.id != self && ps[i] == HubPeer(n);
        var k :| 0 <= k < |init| && init[k] == n;
        assert Compatible(nodes[k], nodes[|nodes| - 1]);
      }
    }
  }

  lemma HubPeersDistinct(cfg: Config, self: string, nodes: seq<Node>, statics: seq<StaticPeer>)
    requires TablesOk(cfg, nodes, statics)
    ensures DistinctIps(HubNodePeers(self, nodes) + StaticPeers(statics))
  {
    HubNodePeersDistinct(cfg, self, nodes, statics);
    var xs, ys := HubNodePeers(self, nodes), StaticPeers(statics);
    forall i, j | 0 <= i < |xs| && 0 <= j < |ys| ensures xs[i].ip != ys[j].ip {
      HubNodePeersMembers(self, nodes, xs[i]);
      var n :| n in nodes && n.id != self && xs[i] == HubPeer(n);
      var k :| 0 <= k < |nodes| && nodes[k] == n;
      assert nodes[k].ip != statics[j].ip;
    }
  }

  // ---------- a spoke's routes ----------

  /** The composed peers of a spoke, hub first. */
  function SpokeConfigs(cfg: Config, self: Node, v: View, hub: Node, probes: map<string, ProbeState>): seq<PeerConfig> {
    ComposeAll(RoleNode, probes, [RelayPeer(cfg, hub, self.id, v.nodes)] + SpokePeers(self.id, v.nodes, CandidatesFor(self, v)))
  }

  ghost predicate IsDirect(probes: map<string, ProbeState>, key: string) { key in probes && probes[key].phase == Direct }

  lemma SpokeEntry(cfg: Config, self: Node, v: View, hub: Node, probes: map<string, ProbeState>, i: nat, a: Addr) returns (n: Node)
    requires TablesOk(cfg, v.nodes, v.statics) && a < INVALID
    requires 1 <= i < |SpokeConfigs(cfg, self, v, hub, probes)|
    ensures n in v.nodes && n.id != self.id && n.role == RoleNode
    ensures ([RelayPeer(cfg, hub, self.id, v.nodes)] + SpokePeers(self.id, v.nodes, CandidatesFor(self, v)))[i] == SpokePeer(n, CandidatesFor(self, v))
    ensures SpokeConfigs(cfg, self, v, hub, probes)[i].key == n.key
    ensures Longest(SpokeConfigs(cfg, self, v, hub, probes)[i].allowed, a) == if IsDirect(probes, n.key) && n.ip == a then 32 else -1
  {
    var cands := CandidatesFor(self, v);
    var p := SpokePeers(self.id, v.nodes, cands)[i - 1];
    SpokePeersMembers(self.id, v.nodes, cands, p);
    n :| n in v.nodes && n.id != self.id && n.role == RoleNode && p == SpokePeer(n, cands);
    SpokeHolds(probes, n, cands, a);
  }

  /** A composed spoke holds its own address, and only while direct. */
  lemma SpokeHolds(probes: map<string, ProbeState>, n: Node, candidates: map<string, seq<string>>, a: Addr)
    requires n.role == RoleNode && a < INVALID
    ensures var pc := Compose(RoleNode, probes, SpokePeer(n, candidates));
      pc.key == n.key && Longest(pc.allowed, a) == if IsDirect(probes, n.key) && n.ip == a then 32 else -1
  {
    HostLongest(n.ip, a);
    assert Longest([], a) == -1;
  }

  /**
   * A spoke sends each overlay address to the direct peer holding it, if one is
   * in phase direct, and to the hub otherwise.
   */
  lemma SpokeRoutes(cfg: Config, self: Node, v: View, hub: Node, probes: map<string, ProbeState>, a: Addr)
    requires TablesOk(cfg, v.nodes, v.statics) && Contains(cfg.overlay, a)
    ensures var cs := SpokeConfigs(cfg, self, v, hub, probes);
      && Lookup(cs, a).Some? && Lookup(cs, a).value < |cs|
      && (Lookup(cs, a).value == 0 <==>
            !exists n :: n in v.nodes && n.id != self.id && n.role == RoleNode && n.ip == a && IsDirect(probes, n.key))
      && (Lookup(cs, a).value != 0 ==>
            exists n :: n in v.nodes && n.id != self.id && n.role == RoleNode && n.ip == a && IsDirect(probes, n.key)
                        && cs[Lookup(cs, a).value].key == n.key)
  {
    var cs := SpokeConfigs(cfg, self, v, hub, probes);
    RelayHolds(cfg, v.nodes, v.statics, hub, self.id, a);
    if n :| n in v.nodes && n.id != self.id && n.role == RoleNode && n.ip == a && IsDirect(probes, n.key) {
      var i := DirectWins(cfg, self, v, hub, probes, n);
    } else {
      forall j | 0 <= j < |cs| && j != 0 ensures Longest(cs[j].allowed, a) < Longest(cs[0].allowed, a) {
        var m := SpokeEntry(cfg, self, v, hub, probes, j, a);
      }
      LookupUnique(cs, a, 0);
    }
  }

  /** Where the entry of a spoke sits among the composed peers. */
  lemma DirectIndex(cfg: Config, self: Node, v: View, hub: Node, probes: map<string, ProbeState>, n: Node) returns (i: nat)
    requires n in v.nodes && n.id != self.id && n.role == RoleNode
    ensures 1 <= i <= |SpokePeers(self.id, v.nodes, CandidatesFor(self, v))|
    ensures |SpokeConfigs(cfg, self, v, hub, probes)| == |SpokePeers(self.id, v.nodes, CandidatesFor(self, v))| + 1
    ensures SpokePeers(self.id, v.nodes, CandidatesFor(self, v))[i - 1] == SpokePeer(n, CandidatesFor(self, v))
    ensures SpokeConfigs(cfg, self, v, hub, probes)[i] == Compose(RoleNode, probes, SpokePeer(n, CandidatesFor(self, v)))
  {
    var spokes := SpokePeers(self.id, v.nodes, CandidatesFor(self, v));
    SpokePeersMembers(self.id, v.nodes, CandidatesFor(self, v), SpokePeer(n, CandidatesFor(self, v)));
    var k :| 0 <= k < |spokes| && spokes[k] == SpokePeer(n, CandidatesFor(self, v));
    i := k + 1;
  }

  /** Entries for other addresses match an address of their own only. */
  lemma OthersMiss(cfg: Config, self: Node, v: View, hub: Node, probes: map<string, ProbeState>, n: Node, i: nat, j: nat)
    requires TablesOk(cfg, v.nodes, v.statics) && NodeOk(cfg, n) && n.role == RoleNode
    requires 1 <= i <= |SpokePeers(self.id, v.nodes, CandidatesFor(self, v))|
    requires SpokePeers(self.id, v.nodes, CandidatesFor(self, v))[i - 1].ip == n.ip
    requires j < |SpokeConfigs(cfg, self, v, hub, probes)| && j != i
    ensures Longest(SpokeConfigs(cfg, self, v, hub, probes)[j].allowed, n.ip) < 32
  {
    HostsAreInside(cfg.overlay, n.ip);
    if j == 0 {
      HostMeansRoom(cfg, n.ip);
      RelayHolds(cfg, v.nodes, v.statics, hub, self.id, n.ip);
    } else {
      var o := SpokeEntry(cfg, self, v, hub, probes, j, n.ip);
      SpokePeersDistinct(cfg, self.id, v.nodes, v.statics, CandidatesFor(self, v));
    }
  }

  /** A direct peer's /32 beats the hub's overlay prefix. */
  lemma DirectWins(cfg: Config, self: Node, v: View, hub: Node, probes: map<string, ProbeState>, n: Node) returns (i: nat)
    requires TablesOk(cfg, v.nodes, v.statics)
    requires n in v.nodes && n.id != self.id && n.role == RoleNode && IsDirect(probes, n.key)
    ensures 1 <= i < |SpokeConfigs(cfg, self, v, hub, probes)| && SpokeConfigs(cfg, self, v, hub, probes)[i].key == n.key
    ensures SpokeConfigs(cfg, self, v, hub, probes)[i] == Compose(RoleNode, probes, SpokePeer(n, CandidatesFor(self, v)))
    ensures Lookup(SpokeConfigs(cfg, self, v, hub, probes), n.ip) == Some(i)
  {
    var cs := SpokeConfigs(cfg, self, v, hub, probes);
    i := DirectIndex(cfg, self, v, hub, probes, n);
    RowsCompatible(cfg, v.nodes, v.statics, n, n);
    HostsAreInside(cfg.overlay, n.ip);
    SpokeHolds(probes, n, CandidatesFor(self, v), n.ip);
    forall j | 0 <= j < |cs| && j != i ensures Longest(cs[j].allowed, n.ip) < 32 {
      OthersMiss(cfg, self, v, hub, probes, n, i, j);
    }
    LookupUnique(cs, n.ip, i);
  }

  // ---------- OS routes ----------

  lemma {:induction false} OutsideMembers(overlay: Prefix, allowed: seq<Prefix>, r: Prefix)
    ensures r in Outside(overlay, allowed) <==> r in allowed && !Overlaps(r, overlay)
  {
    if allowed != [] {
      var init, p := allowed[..|allowed| - 1], allowed[|allowed| - 1];
      assert allowed == init + [p];
      OutsideMembers(overlay, init, r);
    }
  }

  lemma {:induction false} SubnetRoutesMembers(overlay: Prefix, configs: seq<PeerConfig>, r: Prefix)
    ensures r in SubnetRoutes(overlay, configs) <==> exists pc :: pc in configs && r in pc.allowed && !Overlaps(r, overlay)
  {
    if configs != [] {
      var init, last := configs[..|configs| - 1], configs[|configs| - 1];
      assert configs == init + [last];
      SubnetRoutesMembers(overlay, init, r);
      OutsideMembers(overlay, last.allowed, r);
      assert forall pc :: pc in configs <==> pc in init || pc == last;
    }
  }

  lemma InsideOverlaps(cfg: Config, a: Addr)
    requires Contains(cfg.overlay, a)
    ensures Overlaps(Host(a), cfg.overlay) && Overlaps(Masked(cfg.overlay), cfg.overlay)
  {
    OverlapsIff(Host(a), cfg.overlay);
    OverlapsIff(Masked(cfg.overlay), cfg.overlay);
    assert Contains(Host(a), a);
    MaskedContains(cfg.overlay, a);
  }

  /** A spoke asks the OS for exactly the subnets other nodes serve. */
  lemma SpokeSubnetRoutes(cfg: Config, self: Node, v: View, hub: Node, probes: map<string, ProbeState>, r: Prefix)
    requires TablesOk(cfg, v.nodes, v.statics) && self in v.nodes && self.role == RoleNode
    ensures r in SubnetRoutes(cfg.overlay, SpokeConfigs(cfg, self, v, hub, probes)) <==>
      exists n :: n in v.nodes && n.id != self.id && r in n.enabled
  {
    var cs := SpokeConfigs(cfg, self, v, hub, probes);
    SubnetRoutesMembers(cfg.overlay, cs, r);
    OtherRoutesMembers(self.id, v.nodes, r);
    RowsCompatible(cfg, v.nodes, v.statics, self, self);
    HostsAreInside(cfg.overlay, self.ip);
    InsideOverlaps(cfg, self.ip);
    assert cs[0].allowed == [Masked(cfg.overlay)] + OtherRoutes(self.id, v.nodes);
    assert cs[0] in cs;
    if r in OtherRoutes(self.id, v.nodes) {
      var n :| n in v.nodes && n.id != self.id && r in n.enabled;
      RowsCompatible(cfg, v.nodes, v.statics, n, n);
    }
    forall pc | pc in cs && r in pc.allowed && !Overlaps(r, cfg.overlay) ensures r in OtherRoutes(self.id, v.nodes) {
      var i :| 0 <= i < |cs| && cs[i] == pc;
      if i > 0 {
        SpokeIsInside(cfg, self, v, hub, probes, i, r);
      }
    }
  }

  lemma SpokeIsInside(cfg: Config, self: Node, v: View, hub: Node, probes: map<string, ProbeState>, i: nat, r: Prefix)
    requires TablesOk(cfg, v.nodes, v.statics) && self in v.nodes && self.role == RoleNode
    requires 1 <= i < |SpokeConfigs(cfg, self, v, hub, probes)| && r in SpokeConfigs(cfg, self, v, hub, probes)[i].allowed
    ensures Overlaps(r, cfg.overlay)
  {
    RowsCompatible(cfg, v.nodes, v.statics, self, self);
    HostsAreInside(cfg.overlay, self.ip);
    var n := SpokeEntry(cfg, self, v, hub, probes, i, self.ip);
    RowsCompatible(cfg, v.nodes, v.statics, n, n);
    HostsAreInside(cfg.overlay, n.ip);
    InsideOverlaps(cfg, n.ip);
    ComposeShape(RoleNode, probes, SpokePeer(n, CandidatesFor(self, v)));
  }

  // ---------- the hub's routes ----------

  function HubConfigs(self: Node, v: View, probes: map<string, ProbeState>): seq<PeerConfig> {
    ComposeAll(RoleHub, probes, HubNodePeers(self.id, v.nodes) + StaticPeers(v.statics))
  }

  lemma HubEntry(cfg: Config, self: Node, v: View, probes: map<string, ProbeState>, i: nat, a: Addr)
    requires TablesOk(cfg, v.nodes, v.statics) && Contains(cfg.overlay, a) && i < |HubConfigs(self, v, probes)|
    ensures var p := (HubNodePeers(self.id, v.nodes) + StaticPeers(v.statics))[i];
      && HubConfigs(self, v, probes)[i].key == p.key
      && Longest(HubConfigs(self, v, probes)[i].allowed, a) == if p.ip == a then 32 else -1
  {
    var xs := HubNodePeers(self.id, v.nodes);
    if i < |xs| {
      HubNodePeersMembers(self.id, v.nodes, xs[i]);
      var n :| n in v.nodes && n.id != self.id && xs[i] == HubPeer(n);
      RowsCompatible(cfg, v.nodes, v.statics, n, n);
      HubPeerHolds(cfg, n, a);
    } else {
      HostLongest(v.statics[i - |xs|].ip, a);
    }
  }

  /** The hub resolves the address of each of its peers to that very peer. */
  lemma HubRoutes(cfg: Config, self: Node, v: View, probes: map<string, ProbeState>, p: Peer) returns (i: nat)
    requires TablesOk(cfg, v.nodes, v.statics) && Contains(cfg.overlay, p.ip)
    requires p in HubNodePeers(self.id, v.nodes) + StaticPeers(v.statics)
    ensures i < |HubConfigs(self, v, probes)| && HubConfigs(self, v, probes)[i].key == p.key
    ensures Lookup(HubConfigs(self, v, probes), p.ip) == Some(i)
  {
    var ps, cs := HubNodePeers(self.id, v.nodes) + StaticPeers(v.statics), HubConfigs(self, v, probes);
    i :| 0 <= i < |ps| && ps[i] == p;
    HubPeersDistinct(cfg, self.id, v.nodes, v.statics);
    HubEntry(cfg, self, v, probes, i, p.ip);
    forall j | 0 <= j < |cs| && j != i ensures Longest(cs[j].allowed, p.ip) < Longest(cs[i].allowed, p.ip) {
      HubEntry(cfg, self, v, probes, j, p.ip);
      assert ps[j].ip != ps[i].ip;
    }
    LookupUnique(cs, p.ip, i);
  }

  // ---------- no prefix on two peers ----------

  ghost predicate NoSharedPrefix(peers: seq<Peer>) {
    forall i, j, q :: 0 <= i < j < |peers| && q in peers[i].allowed ==> q !in peers[j].allowed
  }

  lemma HostIsNoRoute(cfg: Config, ip: Addr, r: Prefix)
    requires Contains(cfg.overlay, ip) && GoodRoute(cfg.overlay, r)
    ensures Host(ip) != r
  {
    GoodRouteAvoidsOverlay(cfg.overlay, r, ip);
  }

  lemma HubPeersShareNothing(cfg: Config, nodes: seq<Node>, statics: seq<StaticPeer>, m: Node, n: Node, q: Prefix)
    requires TablesOk(cfg, nodes, statics) && m in nodes && n in nodes && m.ip != n.ip
    requires m.role == RoleNode && n.role == RoleNode
    ensures q in HubPeer(m).allowed ==> q !in HubPeer(n).allowed
  {
    RowsCompatible(cfg, nodes, statics, m, n);
    HostsAreInside(cfg.overlay, m.ip);
    HostsAreInside(cfg.overlay, n.ip);
    if q in HubPeer(m).allowed {
      forall r | r in n.enabled ensures Host(m.ip) != r { HostIsNoRoute(cfg, m.ip, r); }
      forall r | r in m.enabled ensures Host(n.ip) != r { HostIsNoRoute(cfg, n.ip, r); }
    }
  }

  /** In the hub's netmap no prefix rides on two peers. */
  lemma HubNetmapSharesNothing(cfg: Config, nodes: seq<Node>, statics: seq<StaticPeer>, self: Node)
    requires TablesOk(cfg, nodes, statics) && self in nodes && self.role == RoleHub
    ensures NoSharedPrefix(HubNodePeers(self.id, nodes) + StaticPeers(statics))
  {
    var xs, ys := HubNodePeers(self.id, nodes), StaticPeers(statics);
    var ps := xs + ys;
    HubPeersDistinct(cfg, self.id, nodes, statics);
    forall i, j, q | 0 <= i < j < |ps| && q in ps[i].allowed ensures q !in ps[j].allowed {
      assert ps[i].ip != ps[j].ip;
      if i < |xs| {
        HubNodePeersMembers(self.id, nodes, xs[i]);
        var m :| m in nodes && m.id != self.id && xs[i] == HubPeer(m);
        RowsCompatible(cfg, nodes, statics, m, self);
        if j < |xs| {
          HubNodePeersMembers(self.id, nodes, xs[j]);
          var n :| n in nodes && n.id != self.id && xs[j] == HubPeer(n);
          RowsCompatible(cfg, nodes, statics, n, self);
          HubPeersShareNothing(cfg, nodes, statics, m, n, q);
        } else {
          var s := statics[j - |xs|];
          assert StaticOk(cfg, statics[j - |xs|]);
          HostsAreInside(cfg.overlay, s.ip);
          forall r | r in m.enabled ensures Host(s.ip) != r { HostIsNoRoute(cfg, s.ip, r); }
        }
      }
    }
  }

  lemma RelaySharesNothing(cfg: Config, nodes: seq<Node>, statics: seq<StaticPeer>, self: string, hub: Node, n: Node, q: Prefix)
    requires TablesOk(cfg, nodes, statics) && n in nodes && n.role == RoleNode
    requires q in RelayPeer(cfg, hub, self, nodes).allowed
    ensures q != Host(n.ip)
  {
    RowsCompatible(cfg, nodes, statics, n, n);
    HostMeansRoom(cfg, n.ip);
    HostsAreInside(cfg.overlay, n.ip);
    if q in OtherRoutes(self, nodes) {
      OtherRoutesMembers(self, nodes, q);
      var m :| m in nodes && m.id != self && q in m.enabled;
      RowsCompatible(cfg, nodes, statics, m, n);
      HostIsNoRoute(cfg, n.ip, q);
    }
  }

  lemma SpokeAllowed(self: string, nodes: seq<Node>, candidates: map<string, seq<string>>, p: Peer)
    requires p in SpokePeers(self, nodes, candidates)
    ensures p.allowed == [Host(p.ip)]
  {
    SpokePeersMembers(self, nodes, candidates, p);
  }

  /** In a spoke's netmap no prefix rides on two peers. */
  lemma SpokeNetmapSharesNothing(cfg: Config, nodes: seq<Node>, statics: seq<StaticPeer>, self: string, hub: Node, candidates: map<string, seq<string>>)
    requires TablesOk(cfg, nodes, statics)
    ensures NoSharedPrefix([RelayPeer(cfg, hub, self, nodes)] + SpokePeers(self, nodes, candidates))
  {
    var spokes := SpokePeers(self, nodes, candidates);
    var ps := [RelayPeer(cfg, hub, self, nodes)] + spokes;
    SpokePeersDistinct(cfg, self, nodes, statics, candidates);
    forall i, j, q | 0 <= i < j < |ps| && q in ps[i].allowed ensures q !in ps[j].allowed {
      if i == 0 {
        SpokePeersMembers(self, nodes, candidates, spokes[j - 1]);
        var n :| n in nodes && n.id != self && n.role == RoleNode && spokes[j - 1] == SpokePeer(n, candidates);
        RelaySharesNothing(cfg, nodes, statics, self, hub, n, q);
      } else {
        SpokeAllowed(self, nodes, candidates, spokes[i - 1]);
        SpokeAllowed(self, nodes, candidates, spokes[j - 1]);
        assert spokes[i - 1].ip != spokes[j - 1].ip;
      }
    }
  }

  /** In any netmap built from a reachable state, no two peers share an AllowedIPs prefix. */
  lemma NetmapsShareNothing(cfg: Config, verify: Verifier, ops: seq<Op>, lower: char -> char, self: Node, now: int)
    requires self in RunOps(cfg, verify, EMPTY_DB, ops).nodes && self.approved
    ensures var nm := NetmapFor(lower, cfg, self, ViewOf(RunOps(cfg, verify, EMPTY_DB, ops), now));
      nm.Some? ==> NoSharedPrefix(nm.value.peers)
  {
    var db := RunOps(cfg, verify, EMPTY_DB, ops);
    ReachableInv(cfg, verify, ops);
    ApprovedKeepsOk(cfg, db.nodes, db.statics);
    ApprovedMembers(db.nodes);
    var v := ViewOf(db, now);
    if self.role == RoleHub {
      HubNetmapSharesNothing(cfg, v.nodes, v.statics, self);
    } else if HubOf(v.nodes).Some? {
      SpokeNetmapSharesNothing(cfg, v.nodes, v.statics, self.id, HubOf(v.nodes).value, CandidatesFor(self, v));
    }
  }
}
