/** The per-node view of the network (internal/coordinator/netmap.go, buildNetmapFor in node.go). */
module Netmaps {
  import opened Text
  import opened Net
  import opened Options
  import opened Rules
  import opened Store
  import opened Acl
  import opened Names

  const KEEPALIVE_SEC := 25

  /** Times are in nanoseconds. */
  const SECOND := 1_000_000_000

  const ENDPOINT_FRESHNESS := 15 * 60 * SECOND

  datatype Config = Config(overlay: Prefix, hubEndpoint: string, requireApproval: bool)

  datatype Endpoint = Endpoint(local: bool, addr: string, updatedAt: int)

  datatype Peer = Peer(
    nodeId: string, hostname: string, role: Role, ip: Addr, key: string, endpoint: string,
    allowed: seq<Prefix>, keepaliveSec: nat, candidates: seq<string>, lockSig: string)

  datatype Netmap = Netmap(
    version: int, selfId: string, lockKey: string, filterEnabled: bool,
    peers: seq<Peer>, hosts: seq<HostEntry>, filterRules: seq<FilterRule>, forwardRules: seq<ForwardRule>)

  /** What one netmap is computed from: the approved nodes and the other tables. */
  datatype View = View(
    nodes: seq<Node>, statics: seq<StaticPeer>, policies: seq<Policy>,
    endpoints: map<string, seq<Endpoint>>, lockKey: string, now: int, version: int)

  // ---------- peers ----------

  /** A node as the hub installs it: its address and its enabled subnets. */
  function HubPeer(n: Node): Peer {
    Peer(n.id, n.name, n.role, n.ip, n.key, "", [Host(n.ip)] + n.enabled, 0, [], n.lockSig)
  }

  function StaticHubPeer(p: StaticPeer): Peer {
    Peer(p.id, p.name, RoleNode, p.ip, p.key, "", [Host(p.ip)], 0, [], p.lockSig)
  }

  /** Another spoke as a probe candidate: a /32 with no endpoint. */
  function SpokePeer(n: Node, candidates: map<string, seq<string>>): Peer {
    Peer(n.id, n.name, n.role, n.ip, n.key, "", [Host(n.ip)], KEEPALIVE_SEC,
         if n.id in candidates then candidates[n.id] else [], n.lockSig)
  }

  function HubNodePeers(self: string, nodes: seq<Node>): seq<Peer> {
    if nodes == [] then []
    else
      var n := nodes[|nodes| - 1];
      HubNodePeers(self, nodes[..|nodes| - 1]) + if n.id == self then [] else [HubPeer(n)]
  }

  function StaticPeers(statics: seq<StaticPeer>): seq<Peer> {
    seq(|statics|, i requires 0 <= i < |statics| => StaticHubPeer(statics[i]))
  }

  function OtherRoutes(self: string, nodes: seq<Node>): seq<Prefix> {
    if nodes == [] then []
    else
      var n := nodes[|nodes| - 1];
      OtherRoutes(self, nodes[..|nodes| - 1]) + if n.id == self then [] else n.enabled
  }

  function SpokePeers(self: string, nodes: seq<Node>, candidates: map<string, seq<string>>): seq<Peer> {
    if nodes == [] then []
    else
      var n := nodes[|nodes| - 1];
      SpokePeers(self, nodes[..|nodes| - 1], candidates) +
      if n.id == self || n.role == RoleHub then [] else [SpokePeer(n, candidates)]
  }

  /** The first hub row, if any. */
  function HubOf(nodes: seq<Node>): Option<Node> {
    if nodes == [] then None
    else if nodes[0].role == RoleHub then Some(nodes[0])
    else HubOf(nodes[1..])
  }

  /** The hub as a spoke installs it: the whole overlay and everyone else's subnets. */
  function RelayPeer(cfg: Config, hub: Node, self: string, nodes: seq<Node>): Peer {
    Peer(hub.id, hub.name, RoleHub, hub.ip, hub.key, cfg.hubEndpoint,
         [Masked(cfg.overlay)] + OtherRoutes(self, nodes), KEEPALIVE_SEC, [], hub.lockSig)
  }

  /** None is the "no hub node registered" error. */
  function PeersOf(cfg: Config, self: Node, nodes: seq<Node>, statics: seq<StaticPeer>, candidates: map<string, seq<string>>): Option<seq<Peer>> {
    if self.role == RoleHub then Some(HubNodePeers(self.id, nodes) + StaticPeers(statics))
    else
      match HubOf(nodes)
      case None => None
      case Some(hub) => Some([RelayPeer(cfg, hub, self.id, nodes)] + SpokePeers(self.id, nodes, candidates))
  }

  // ---------- candidates ----------

  predicate FilterCapable(n: Node) { n.os == "linux" }

  predicate AnyEnabled(policies: seq<Policy>) { exists i :: 0 <= i < |policies| && policies[i].enabled }

  function FreshAddrs(eps: seq<Endpoint>, local: bool, now: int): seq<string> {
    if eps == [] then []
    else
      var e := eps[|eps| - 1];
      FreshAddrs(eps[..|eps| - 1], local, now) +
      if now - e.updatedAt <= ENDPOINT_FRESHNESS && e.local == local then [e.addr] else []
  }

  /** Fresh LAN addresses first, then the ones the hub observed. */
  function FreshList(eps: seq<Endpoint>, now: int): seq<string> {
    FreshAddrs(eps, true, now) + FreshAddrs(eps, false, now)
  }

  function FreshCandidates(endpoints: map<string, seq<Endpoint>>, now: int): map<string, seq<string>> {
    map id | id in endpoints && FreshList(endpoints[id], now) != [] :: FreshList(endpoints[id], now)
  }

  /** While the ACL is on, nodes that cannot filter neither probe nor get probed. */
  function CandidatesFor(self: Node, v: View): map<string, seq<string>> {
    var all := FreshCandidates(v.endpoints, v.now);
    if !AnyEnabled(v.policies) then all
    else if !FilterCapable(self) then map[]
    else all - (set n | n in v.nodes && !FilterCapable(n) :: n.id)
  }

  /** buildNetmapFor: everything self is told about this view. */
  function NetmapFor(lower: char -> char, cfg: Config, self: Node, v: View): Option<Netmap> {
    match PeersOf(cfg, self, v.nodes, v.statics, CandidatesFor(self, v))
    case None => None
    case Some(peers) =>
      var sources := SourcesOf(v.nodes, v.statics);
      var on := AnyEnabled(v.policies);
      Some(Netmap(v.version, self.id, v.lockKey, on, peers, HostsOf(lower, v.nodes, v.statics),
        if on then FilterRulesOf(NodeDev(self), sources, v.policies) else [],
        if on then ForwardRulesOf(DstsOf(self, v.nodes, v.statics), sources, v.policies) else []))
  }

  // ---------- who is in a netmap ----------

  lemma {:induction false} HubNodePeersMembers(self: string, nodes: seq<Node>, p: Peer)
    ensures p in HubNodePeers(self, nodes) <==> exists n :: n in nodes && n.id != self && p == HubPeer(n)
  {
    if nodes != [] {
      var init, m := nodes[..|nodes| - 1], nodes[|nodes| - 1];
      assert nodes == init + [m];
      HubNodePeersMembers(self, init, p);
      assert forall n :: n in nodes <==> n in init || n == m;
    }
  }

  lemma StaticPeersMembers(statics: seq<StaticPeer>, p: Peer)
    ensures p in StaticPeers(statics) <==> exists s :: s in statics && p == StaticHubPeer(s)
  {
    var ps := StaticPeers(statics);
    forall s | s in statics ensures StaticHubPeer(s) in ps {
      var i :| 0 <= i < |statics| && statics[i] == s;
      assert ps[i] == StaticHubPeer(s);
    }
  }

  lemma {:induction false} SpokePeersMembers(self: string, nodes: seq<Node>, candidates: map<string, seq<string>>, p: Peer)
    ensures p in SpokePeers(self, nodes, candidates) <==>
      exists n :: n in nodes && n.id != self && n.role == RoleNode && p == SpokePeer(n, candidates)
  {
    if nodes != [] {
      var init, m := nodes[..|nodes| - 1], nodes[|nodes| - 1];
      assert nodes == init + [m];
      SpokePeersMembers(self, init, candidates, p);
      assert forall n :: n in nodes <==> n in init || n == m;
    }
  }

  lemma {:induction false} OtherRoutesMembers(self: string, nodes: seq<Node>, r: Prefix)
    ensures r in OtherRoutes(self, nodes) <==> exists n :: n in nodes && n.id != self && r in n.enabled
  {
    if nodes != [] {
      var init, m := nodes[..|nodes| - 1], nodes[|nodes| - 1];
      assert nodes == init + [m];
      OtherRoutesMembers(self, init, r);
      assert forall n :: n in nodes <==> n in init || n == m;
    }
  }

  lemma {:induction false} HubOfMembers(nodes: seq<Node>)
    ensures match HubOf(nodes)
            case None => forall n :: n in nodes ==> n.role == RoleNode
            case Some(h) => h in nodes && h.role == RoleHub
  {
    if nodes != [] && nodes[0].role != RoleHub {
      HubOfMembers(nodes[1..]);
      assert nodes == [nodes[0]] + nodes[1..];
    }
  }

  /** A peer entry is about one row: its id, name, role, key, address and signature. */
  ghost predicate AboutNode(p: Peer, n: Node) {
    p.nodeId == n.id && p.hostname == n.name && p.role == n.role && p.key == n.key && p.ip == n.ip && p.lockSig == n.lockSig
  }

  ghost predicate AboutStatic(p: Peer, q: StaticPeer) {
    p.nodeId == q.id && p.hostname == q.name && p.role == RoleNode && p.key == q.key && p.ip == q.ip && p.lockSig == q.lockSig
  }

  ghost predicate FromNode(p: Peer, nodes: seq<Node>) { exists n :: n in nodes && AboutNode(p, n) }

  ghost predicate FromStatic(p: Peer, statics: seq<StaticPeer>) { exists s :: s in statics && AboutStatic(p, s) }

  lemma PeersComeFromRows(cfg: Config, self: Node, nodes: seq<Node>, statics: seq<StaticPeer>, candidates: map<string, seq<string>>, p: Peer)
    requires PeersOf(cfg, self, nodes, statics, candidates).Some? && p in PeersOf(cfg, self, nodes, statics, candidates).value
    ensures FromNode(p, nodes) || FromStatic(p, statics)
  {
    if self.role == RoleHub {
      HubNodePeersMembers(self.id, nodes, p);
      StaticPeersMembers(statics, p);
      if p in HubNodePeers(self.id, nodes) {
        var n :| n in nodes && n.id != self.id && p == HubPeer(n);
        assert AboutNode(p, n);
      } else {
        var q :| q in statics && p == StaticHubPeer(q);
        assert AboutStatic(p, q);
      }
    } else {
      HubOfMembers(nodes);
      SpokePeersMembers(self.id, nodes, candidates, p);
      if p in SpokePeers(self.id, nodes, candidates) {
        var n :| n in nodes && n.id != self.id && n.role == RoleNode && p == SpokePeer(n, candidates);
        assert AboutNode(p, n);
      } else {
        assert AboutNode(p, HubOf(nodes).value);
      }
    }
  }

  /** Nobody but itself is missing: every other node is in the hub's netmap, and every other spoke in a spoke's. */
  lemma RowsBecomePeers(cfg: Config, self: Node, nodes: seq<Node>, statics: seq<StaticPeer>, candidates: map<string, seq<string>>, n: Node)
    requires PeersOf(cfg, self, nodes, statics, candidates).Some? && n in nodes && n.id != self.id
    requires self.role == RoleHub || n.role == RoleNode
    ensures exists p :: p in PeersOf(cfg, self, nodes, statics, candidates).value && AboutNode(p, n)
  {
    if self.role == RoleHub {
      HubNodePeersMembers(self.id, nodes, HubPeer(n));
      assert AboutNode(HubPeer(n), n);
    } else {
      SpokePeersMembers(self.id, nodes, candidates, SpokePeer(n, candidates));
      assert AboutNode(SpokePeer(n, candidates), n);
    }
  }

  /**
   * Who dials whom: a spoke's one entry for a hub has the hub's endpoint, every
   * entry a keepalive of 25 seconds, everything else no endpoint; a hub dials nobody.
   */
  lemma PeersDial(cfg: Config, self: Node, nodes: seq<Node>, statics: seq<StaticPeer>, candidates: map<string, seq<string>>, i: nat)
    requires PeersOf(cfg, self, nodes, statics, candidates).Some? && i < |PeersOf(cfg, self, nodes, statics, candidates).value|
    ensures var p := PeersOf(cfg, self, nodes, statics, candidates).value[i];
      if self.role == RoleHub then p.endpoint == "" && p.keepaliveSec == 0 && p.candidates == []
      else
        && (p.role == RoleHub <==> i == 0) && p.keepaliveSec == 25
        && p.endpoint == (if i == 0 then cfg.hubEndpoint else "")
        && p.candidates == (if i > 0 && p.nodeId in candidates then candidates[p.nodeId] else [])
  {
    var p := PeersOf(cfg, self, nodes, statics, candidates).value[i];
    if self.role == RoleHub {
      var xs := HubNodePeers(self.id, nodes);
      if i < |xs| {
        HubNodePeersMembers(self.id, nodes, xs[i]);
      }
    } else if i > 0 {
      SpokePeersMembers(self.id, nodes, candidates, SpokePeers(self.id, nodes, candidates)[i - 1]);
    }
  }

  // ---------- fresh candidates ----------

  predicate IsFresh(e: Endpoint, now: int) { now - e.updatedAt <= ENDPOINT_FRESHNESS }

  lemma {:induction false} FreshAddrsMembers(eps: seq<Endpoint>, local: bool, now: int, c: string)
    ensures c in FreshAddrs(eps, local, now) <==> exists e :: e in eps && IsFresh(e, now) && e.local == local && e.addr == c
  {
    if eps != [] {
      var init, last := eps[..|eps| - 1], eps[|eps| - 1];
      assert eps == init + [last];
      FreshAddrsMembers(init, local, now, c);
      assert forall e :: e in eps <==> e in init || e == last;
    }
  }

  /** Candidates are the addresses reported in the last 15 minutes, those of the LAN before those the hub observed. */
  lemma LanFirst(eps: seq<Endpoint>, now: int, i: nat) returns (k: nat)
    ensures k <= |FreshList(eps, now)|
    ensures i < |FreshList(eps, now)| ==>
      exists e :: e in eps && IsFresh(e, now) && e.addr == FreshList(eps, now)[i] && e.local == (i < k)
    ensures forall e :: e in eps && IsFresh(e, now) ==> e.addr in FreshList(eps, now)
  {
    var xs, ys := FreshAddrs(eps, true, now), FreshAddrs(eps, false, now);
    k := |xs|;
    if i < k {
      FreshAddrsMembers(eps, true, now, xs[i]);
    } else if i < |xs + ys| {
      FreshAddrsMembers(eps, false, now, ys[i - k]);
    }
    forall e | e in eps && IsFresh(e, now) ensures e.addr in FreshList(eps, now) {
      FreshAddrsMembers(eps, e.local, now, e.addr);
    }
  }

  /** Which peers a node is given candidates for, and which: the fresh ones, unless the ACL withholds them. */
  lemma CandidatesExact(self: Node, v: View, id: string)
    ensures id in CandidatesFor(self, v) <==>
      && id in v.endpoints && (exists e :: e in v.endpoints[id] && IsFresh(e, v.now))
      && (AnyEnabled(v.policies) ==> self.os == "linux" && forall n :: n in v.nodes && n.id == id ==> n.os == "linux")
    ensures id in CandidatesFor(self, v) ==> CandidatesFor(self, v)[id] == FreshList(v.endpoints[id], v.now)
  {
    if id in v.endpoints {
      var k := LanFirst(v.endpoints[id], v.now, 0);
    }
  }

  // ---------- the builder's loops ----------

  method SplitFresh(list: seq<Endpoint>, now: int) returns (all: seq<string>)
    ensures all == FreshList(list, now)
  {
    var local, observed := [], [];
    for i := 0 to |list|
      invariant local == FreshAddrs(list[..i], true, now) && observed == FreshAddrs(list[..i], false, now)
    {
      assert list[..i + 1][..i] == list[..i];
      var e := list[i];
      if now - e.updatedAt > ENDPOINT_FRESHNESS {
      } else if e.local {
        local := local + [e.addr];
      } else {
        observed := observed + [e.addr];
      }
    }
    assert list[..|list|] == list;
    all := local + observed;
  }

  method CollectCandidates(endpoints: map<string, seq<Endpoint>>, now: int) returns (candidates: map<string, seq<string>>)
    ensures candidates == FreshCandidates(endpoints, now)
  {
    candidates := map[];
    var ids := endpoints.Keys;
    while ids != {}
      invariant ids <= endpoints.Keys
      invariant candidates == map id | id in endpoints && id !in ids && FreshList(endpoints[id], now) != [] :: FreshList(endpoints[id], now)
      decreases ids
    {
      var id :| id in ids;
      var all := SplitFresh(endpoints[id], now);
      if |all| > 0 {
        candidates := candidates[id := all];
      }
      ids := ids - {id};
    }
  }

  method Withhold(self: Node, nodes: seq<Node>, anyEnabled: bool, all: map<string, seq<string>>) returns (candidates: map<string, seq<string>>)
    ensures candidates == if !anyEnabled then all else if !FilterCapable(self) then map[]
                          else all - (set n | n in nodes && !FilterCapable(n) :: n.id)
  {
    candidates := all;
    if anyEnabled {
      if !FilterCapable(self) {
        candidates := map[];
      } else {
        for i := 0 to |nodes|
          invariant candidates == all - (set n | n in nodes[..i] && !FilterCapable(n) :: n.id)
        {
          assert nodes[..i + 1] == nodes[..i] + [nodes[i]];
          if !FilterCapable(nodes[i]) {
            candidates := candidates - {nodes[i].id};
          }
        }
        assert nodes[..|nodes|] == nodes;
      }
    }
  }

  method BuildPeers(cfg: Config, self: Node, nodes: seq<Node>, statics: seq<StaticPeer>, candidates: map<string, seq<string>>)
    returns (r: Option<seq<Peer>>)
    ensures r == PeersOf(cfg, self, nodes, statics, candidates)
  {
    if self.role == RoleHub {
      var peers: seq<Peer> := [];
      for i := 0 to |nodes|
        invariant peers == HubNodePeers(self.id, nodes[..i])
      {
        assert nodes[..i + 1][..i] == nodes[..i];
        if nodes[i].id != self.id {
          peers := peers + [HubPeer(nodes[i])];
        }
      }
      assert nodes[..|nodes|] == nodes;
      for i := 0 to |statics|
        invariant peers == HubNodePeers(self.id, nodes) + StaticPeers(statics[..i])
      {
        peers := peers + [StaticHubPeer(statics[i])];
      }
      assert statics[..|statics|] == statics;
      return Some(peers);
    }
    r := BuildSpokePeers(cfg, self, nodes, candidates);
  }

  method FindHub(nodes: seq<Node>) returns (hub: Option<Node>)
    ensures hub == HubOf(nodes)
  {
    for i := 0 to |nodes|
      invariant HubOf(nodes) == HubOf(nodes[i..])
    {
      assert nodes[i..][1..] == nodes[i + 1..];
      if nodes[i].role == RoleHub {
        return Some(nodes[i]);
      }
    }
    return None;
  }

  method BuildSpokePeers(cfg: Config, self: Node, nodes: seq<Node>, candidates: map<string, seq<string>>)
    returns (r: Option<seq<Peer>>)
    requires self.role == RoleNode
    ensures r == PeersOf(cfg, self, nodes, [], candidates)
  {
    var hub := FindHub(nodes);
    if hub.None? {
      return None;
    }
    var routes: seq<Prefix> := [];
    var others: seq<Peer> := [];
    for i := 0 to |nodes|
      invariant routes == OtherRoutes(self.id, nodes[..i])
    {
      assert nodes[..i + 1][..i] == nodes[..i];
      if nodes[i].id != self.id {
        routes := routes + nodes[i].enabled;
      }
    }
    for i := 0 to |nodes|
      invariant others == SpokePeers(self.id, nodes[..i], candidates)
    {
      assert nodes[..i + 1][..i] == nodes[..i];
      if nodes[i].id != self.id && nodes[i].role != RoleHub {
        others := others + [SpokePeer(nodes[i], candidates)];
      }
    }
    assert nodes[..|nodes|] == nodes;
    var h := hub.value;
    return Some([Peer(h.id, h.name, RoleHub, h.ip, h.key, cfg.hubEndpoint, [Masked(cfg.overlay)] + routes, KEEPALIVE_SEC, [], h.lockSig)] + others);
  }

  method BuildNetmapFor(lower: char -> char, cfg: Config, self: Node, v: View) returns (r: Option<Netmap>)
    ensures r == NetmapFor(lower, cfg, self, v)
  {
    var anyEnabled := false;
    for i := 0 to |v.policies|
      invariant anyEnabled <==> exists j :: 0 <= j < i && v.policies[j].enabled
    {
      anyEnabled := anyEnabled || v.policies[i].enabled;
    }
    var all := CollectCandidates(v.endpoints, v.now);
    var candidates := Withhold(self, v.nodes, anyEnabled, all);
    var peers := BuildPeers(cfg, self, v.nodes, v.statics, candidates);
    if peers.None? {
      return None;
    }
    var hosts := BuildHosts(lower, v.nodes, v.statics);
    var filter, forward := [], [];
    if anyEnabled {
      filter := ComputeFilterRules(self, v.nodes, v.statics, v.policies);
      forward := ComputeForwardRules(self, v.nodes, v.statics, v.policies);
    }
    r := Some(Netmap(v.version, self.id, v.lockKey, anyEnabled, peers.value, hosts, filter, forward));
  }
}
