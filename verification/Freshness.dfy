/** What a served netmap reflects (handleNetmap and buildNetmapFor in internal/coordinator/node.go). */
module Freshness {
  import opened Net
  import opened Options
  import opened Store
  import opened Names
  import opened Netmaps
  import opened Coordinators
  import opened LongPoll

  /** What is served at version v reflects every write whose bump was at most v. */
  lemma ServedReflectsBumps(cfg: Config, verify: Verifier, actions: seq<Action>, p: int, i: nat)
    requires var st := Run(cfg, verify, INIT, actions);
      p in st.pollers && st.pollers[p].stage.Served? && i < |st.log|
    ensures var st := Run(cfg, verify, INIT, actions);
      var s := st.pollers[p].stage;
      && s.at <= |st.log| && s.staticsAt <= |st.log|
      && s.nodes == ApprovedOf(NodesAt(st.log, s.at)) && s.statics == StaticsAt(st.log, s.staticsAt)
      && (st.log[i].bump.Some? && st.log[i].bump.value <= s.v ==> i < s.at && i < s.staticsAt)
  {
    RunKeepsOk(cfg, verify, actions);
  }

  /** Only quiet writes since k: the shown parts are those of the last table. */
  lemma {:induction false} QuietTail(st: State, k: nat, m: nat)
    requires LogOk(st) && k <= m <= |st.log| && forall i :: k <= i < m ==> !st.log[i].loud
    ensures QuietNodes(NodesAt(st.log, m)) == QuietNodes(NodesAt(st.log, k))
    ensures QuietStatics(StaticsAt(st.log, m)) == QuietStatics(StaticsAt(st.log, k))
    decreases m
  {
    if k < m {
      QuietTail(st, k, m - 1);
      assert QuietEntry(st.log, m - 1);
    }
  }

  /** Once nothing is pending, every write after a snapshot at the stored version is quiet. */
  lemma NothingLoudSince(st: State, k: nat)
    requires LogOk(st) && LaterThan(st.log, k, st.db.version) && forall w :: w in st.writers ==> !st.writers[w].Committed?
    ensures forall i :: k <= i < |st.log| ==> !st.log[i].loud
  {
    assert forall i: nat :: !Pending(st.writers, i);
  }

  lemma {:induction false} QuietApproved(xs: seq<Node>, ys: seq<Node>)
    requires QuietNodes(xs) == QuietNodes(ys)
    ensures QuietNodes(ApprovedOf(xs)) == QuietNodes(ApprovedOf(ys))
  {
    assert |xs| == |QuietNodes(xs)| == |QuietNodes(ys)| == |ys|;
    if xs != [] {
      var n := |xs| - 1;
      var x, y := xs[n], ys[n];
      assert QuietNodes(xs)[n] == QuietNodes(ys)[n];
      assert QuietNodes(xs[..n]) == QuietNodes(xs)[..n] == QuietNodes(ys)[..n] == QuietNodes(ys[..n]);
      QuietApproved(xs[..n], ys[..n]);
      QuietSnoc(ApprovedOf(xs[..n]), x);
      QuietSnoc(ApprovedOf(ys[..n]), y);
    }
  }

  lemma QuietSnoc(xs: seq<Node>, x: Node)
    ensures QuietNodes(xs + [x]) == QuietNodes(xs) + [QuietNode(x)]
    ensures xs + [] == xs
  {
  }

  /** What a netmap says of one peer: its key, its address and its AllowedIPs. */
  datatype Fact = Fact(key: string, ip: Addr, allowed: seq<Prefix>)

  function FactsOf(peers: seq<Peer>): seq<Fact> {
    seq(|peers|, i requires 0 <= i < |peers| => Fact(peers[i].key, peers[i].ip, peers[i].allowed))
  }

  lemma FactsConcat(xs: seq<Peer>, ys: seq<Peer>)
    ensures FactsOf(xs + ys) == FactsOf(xs) + FactsOf(ys)
  {
  }

  lemma QuietPrefix(xs: seq<Node>, ys: seq<Node>)
    requires QuietNodes(xs) == QuietNodes(ys) && xs != []
    ensures |xs| == |ys| && QuietNode(xs[|xs| - 1]) == QuietNode(ys[|ys| - 1])
    ensures QuietNodes(xs[..|xs| - 1]) == QuietNodes(ys[..|ys| - 1])
  {
    var n := |xs| - 1;
    assert |xs| == |QuietNodes(xs)| == |QuietNodes(ys)| == |ys|;
    assert QuietNodes(xs)[n] == QuietNodes(ys)[n];
    assert QuietNodes(xs[..n]) == QuietNodes(xs)[..n] == QuietNodes(ys)[..n] == QuietNodes(ys[..n]);
  }

  lemma {:induction false} SameHubFacts(self: string, xs: seq<Node>, ys: seq<Node>)
    requires QuietNodes(xs) == QuietNodes(ys)
    ensures FactsOf(HubNodePeers(self, xs)) == FactsOf(HubNodePeers(self, ys))
  {
    assert |xs| == |QuietNodes(xs)| == |QuietNodes(ys)| == |ys|;
    if xs != [] {
      QuietPrefix(xs, ys);
      var n := |xs| - 1;
      SameHubFacts(self, xs[..n], ys[..n]);
      FactsConcat(HubNodePeers(self, xs[..n]), if xs[n].id == self then [] else [HubPeer(xs[n])]);
      FactsConcat(HubNodePeers(self, ys[..n]), if ys[n].id == self then [] else [HubPeer(ys[n])]);
    }
  }

  lemma {:induction false} SameSpokeFacts(self: string, xs: seq<Node>, ys: seq<Node>, c: map<string, seq<string>>, d: map<string, seq<string>>)
    requires QuietNodes(xs) == QuietNodes(ys)
    ensures FactsOf(SpokePeers(self, xs, c)) == FactsOf(SpokePeers(self, ys, d))
  {
    assert |xs| == |QuietNodes(xs)| == |QuietNodes(ys)| == |ys|;
    if xs != [] {
      QuietPrefix(xs, ys);
      var n := |xs| - 1;
      SameSpokeFacts(self, xs[..n], ys[..n], c, d);
      FactsConcat(SpokePeers(self, xs[..n], c), if xs[n].id == self || xs[n].role == RoleHub then [] else [SpokePeer(xs[n], c)]);
      FactsConcat(SpokePeers(self, ys[..n], d), if ys[n].id == self || ys[n].role == RoleHub then [] else [SpokePeer(ys[n], d)]);
    }
  }

  lemma {:induction false} SameOtherRoutes(self: string, xs: seq<Node>, ys: seq<Node>)
    requires QuietNodes(xs) == QuietNodes(ys)
    ensures OtherRoutes(self, xs) == OtherRoutes(self, ys)
  {
    assert |xs| == |QuietNodes(xs)| == |QuietNodes(ys)| == |ys|;
    if xs != [] {
      QuietPrefix(xs, ys);
      SameOtherRoutes(self, xs[..|xs| - 1], ys[..|ys| - 1]);
    }
  }

  lemma {:induction false} SameHub(xs: seq<Node>, ys: seq<Node>)
    requires QuietNodes(xs) == QuietNodes(ys)
    ensures HubOf(xs).Some? <==> HubOf(ys).Some?
    ensures HubOf(xs).Some? ==> QuietNode(HubOf(xs).value) == QuietNode(HubOf(ys).value)
  {
    assert |xs| == |QuietNodes(xs)| == |QuietNodes(ys)| == |ys|;
    if xs != [] {
      assert QuietNodes(xs)[0] == QuietNodes(ys)[0];
      assert QuietNodes(xs[1..]) == QuietNodes(xs)[1..] == QuietNodes(ys)[1..] == QuietNodes(ys[1..]);
      SameHub(xs[1..], ys[1..]);
    }
  }

  lemma SameStaticFacts(ps: seq<StaticPeer>, qs: seq<StaticPeer>)
    requires QuietStatics(ps) == QuietStatics(qs)
    ensures FactsOf(StaticPeers(ps)) == FactsOf(StaticPeers(qs))
  {
    assert |ps| == |QuietStatics(ps)| == |QuietStatics(qs)| == |qs|;
    var xs, ys := FactsOf(StaticPeers(ps)), FactsOf(StaticPeers(qs));
    forall i | 0 <= i < |xs| ensures xs[i] == ys[i] {
      assert QuietStatics(ps)[i] == QuietStatics(qs)[i];
    }
  }

  lemma SameHosts(lower: char -> char, xs: seq<Node>, ys: seq<Node>, ps: seq<StaticPeer>, qs: seq<StaticPeer>)
    requires QuietNodes(xs) == QuietNodes(ys) && QuietStatics(ps) == QuietStatics(qs)
    ensures HostsOf(lower, xs, ps) == HostsOf(lower, ys, qs)
  {
    assert |xs| == |QuietNodes(xs)| == |QuietNodes(ys)| == |ys|;
    assert |ps| == |QuietStatics(ps)| == |QuietStatics(qs)| == |qs|;
    var d, e := DevicesOf(xs, ps), DevicesOf(ys, qs);
    forall i | 0 <= i < |d| ensures d[i] == e[i] {
      if i < |xs| {
        assert QuietNodes(xs)[i] == QuietNodes(ys)[i];
      } else {
        assert QuietStatics(ps)[i - |xs|] == QuietStatics(qs)[i - |xs|];
      }
    }
    assert d == e;
  }

  /** Peers built from tables that show the same carry the same keys, addresses and AllowedIPs. */
  lemma SameFacts(cfg: Config, self: Node, xs: seq<Node>, ys: seq<Node>, ps: seq<StaticPeer>, qs: seq<StaticPeer>,
                  c: map<string, seq<string>>, d: map<string, seq<string>>)
    requires QuietNodes(xs) == QuietNodes(ys) && QuietStatics(ps) == QuietStatics(qs)
    ensures var a, b := PeersOf(cfg, self, xs, ps, c), PeersOf(cfg, self, ys, qs, d);
      (a.Some? <==> b.Some?) && (a.Some? ==> FactsOf(a.value) == FactsOf(b.value))
  {
    if self.role == RoleHub {
      SameHubFacts(self.id, xs, ys);
      SameStaticFacts(ps, qs);
      FactsConcat(HubNodePeers(self.id, xs), StaticPeers(ps));
      FactsConcat(HubNodePeers(self.id, ys), StaticPeers(qs));
    } else {
      SameHub(xs, ys);
      if HubOf(xs).Some? {
        SameSpokeFacts(self.id, xs, ys, c, d);
        SameOtherRoutes(self.id, xs, ys);
        FactsConcat([RelayPeer(cfg, HubOf(xs).value, self.id, xs)], SpokePeers(self.id, xs, c));
        FactsConcat([RelayPeer(cfg, HubOf(ys).value, self.id, ys)], SpokePeers(self.id, ys, d));
        assert FactsOf([RelayPeer(cfg, HubOf(xs).value, self.id, xs)]) == FactsOf([RelayPeer(cfg, HubOf(ys).value, self.id, ys)]);
      }
    }
  }

  /** The shown parts of both snapshots are those of the current tables. */
  lemma CurrentSnapshot(st: State, q: Poller)
    requires LogOk(st) && SnapshotOk(st, q) && q.stage.Served? && q.stage.v == st.db.version
    requires forall w :: w in st.writers ==> !st.writers[w].Committed?
    ensures QuietNodes(q.stage.nodes) == QuietNodes(ApprovedOf(st.db.nodes))
    ensures QuietStatics(q.stage.statics) == QuietStatics(st.db.statics)
  {
    NothingLoudSince(st, q.stage.at);
    NothingLoudSince(st, q.stage.staticsAt);
    QuietTail(st, q.stage.at, |st.log|);
    QuietTail(st, q.stage.staticsAt, |st.log|);
    QuietApproved(NodesAt(st.log, q.stage.at), st.db.nodes);
  }

  /**
   * Freshness: when an agent's cursor equals the stored version and no handler
   * is between its commit and its bump, the peer keys, addresses, AllowedIPs
   * and hosts of the netmap it was served, whatever the rest of its view, are those
   * of a netmap built from the current tables, and both carry the stored version
   * and the id of the node that asked.
   */
  lemma CursorMeansCurrent(cfg: Config, verify: Verifier, lower: char -> char, actions: seq<Action>, p: int, rest: View, at: int)
    requires var st := Run(cfg, verify, INIT, actions);
      && p in st.pollers && st.pollers[p].stage.Served? && st.pollers[p].stage.v == st.db.version
      && forall w :: w in st.writers ==> !st.writers[w].Committed?
    ensures var st := Run(cfg, verify, INIT, actions);
      var self, s := st.pollers[p].self, st.pollers[p].stage;
      SameNetmap(NetmapFor(lower, cfg, self, rest.(nodes := s.nodes, statics := s.statics, version := s.v)),
                 NetmapFor(lower, cfg, self, ViewOf(st.db, at)), st.pollers[p].id, st.db.version)
  {
    RunKeepsOk(cfg, verify, actions);
    var st := Run(cfg, verify, INIT, actions);
    var q := st.pollers[p];
    CurrentSnapshot(st, q);
    SameShownNetmaps(lower, cfg, q.self, rest.(nodes := q.stage.nodes, statics := q.stage.statics, version := q.stage.v), ViewOf(st.db, at));
  }

  /** Two netmaps of this version for this node that agree on peer keys, addresses, AllowedIPs and hosts. */
  ghost predicate SameNetmap(a: Option<Netmap>, b: Option<Netmap>, id: string, version: int) {
    && (a.Some? <==> b.Some?)
    && (a.Some? ==> a.value.selfId == id && b.value.selfId == id && a.value.version == version && b.value.version == version && FactsOf(a.value.peers) == FactsOf(b.value.peers) && a.value.hosts == b.value.hosts)
  }

  lemma SameShownNetmaps(lower: char -> char, cfg: Config, self: Node, v: View, w: View)
    requires QuietNodes(v.nodes) == QuietNodes(w.nodes) && QuietStatics(v.statics) == QuietStatics(w.statics) && v.version == w.version
    ensures SameNetmap(NetmapFor(lower, cfg, self, v), NetmapFor(lower, cfg, self, w), self.id, v.version)
  {
    SameFacts(cfg, self, v.nodes, w.nodes, v.statics, w.statics, CandidatesFor(self, v), CandidatesFor(self, w));
    SameHosts(lower, v.nodes, w.nodes, v.statics, w.statics);
  }
}
