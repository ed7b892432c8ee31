/** The coordinator's handlers as they update its store (node.go, staticpeer.go, lock.go, store/store.go). */
module Servers {
  import opened Net
  import opened Options
  import opened Ipam
  import opened Store
  import opened Routes
  import opened Netmaps
  import opened Coordinators

  class Coordinator {
    const cfg: Config
    const verify: Verifier
    var nodes: seq<Node>
    var statics: seq<StaticPeer>
    var tokens: map<string, Token>
    var policies: seq<Policy>
    var endpoints: map<string, seq<Endpoint>>
    var lockKey: string
    var lockActive: bool
    var version: int

    function State(): Db
      reads this
    {
      Db(nodes, statics, tokens, policies, endpoints, lockKey, lockActive, version)
    }

    constructor (cfg: Config, verify: Verifier)
      ensures this.cfg == cfg && this.verify == verify && State() == EMPTY_DB
    {
      this.cfg, this.verify := cfg, verify;
      nodes, statics, tokens, policies, endpoints, lockKey, lockActive, version := [], [], map[], [], map[], "", false, 1;
    }

    // ---------- enrolment ----------

    method CollectIPs() returns (used: set<Addr>)
      ensures used == AllocatedIPs(State())
    {
      used := {};
      for i := 0 to |nodes|
        invariant used == set n | n in nodes[..i] :: n.ip
      {
        assert nodes[..i + 1] == nodes[..i] + [nodes[i]];
        used := used + {nodes[i].ip};
      }
      assert nodes[..|nodes|] == nodes;
      for i := 0 to |statics|
        invariant used == (set n | n in nodes :: n.ip) + (set p | p in statics[..i] :: p.ip)
      {
        assert statics[..i + 1] == statics[..i] + [statics[i]];
        used := used + {statics[i].ip};
      }
      assert statics[..|statics|] == statics;
    }

    method Allocate() returns (ip: Option<Addr>)
      ensures ip == Allocation(cfg, State())
    {
      var used := CollectIPs();
      used := used + {HubIP(cfg.overlay)};
      ip := AllocateIP(cfg.overlay, used);
    }

    method HubEnrolled() returns (r: bool)
      ensures r <==> HubOf(nodes).Some?
    {
      var hub := FindHub(nodes);
      r := hub.Some?;
    }

    method CanInsert(id: string, key: string, ip: Addr) returns (ok: bool)
      ensures ok == Insertable(nodes, id, key, ip)
    {
      for i := 0 to |nodes|
        invariant forall j :: 0 <= j < i ==> nodes[j].id != id && nodes[j].key != key && nodes[j].ip != ip
      {
        if nodes[i].id == id || nodes[i].key == key || nodes[i].ip == ip {
          return false;
        }
      }
      ok := true;
    }

    /** The one-time token is consumed together with the insert or not at all. */
    method HandleEnroll(req: EnrollRequest, now: int) returns (ok: bool)
      modifies this
      ensures Enroll(cfg, old(State()), req, now) == Outcome(State(), ok)
    {
      var ip: Option<Addr> := None;
      if req.role == RoleHub {
        var taken := HubEnrolled();
        if taken {
          return false;
        }
        ip := Some(HubIP(cfg.overlay));
      } else {
        ip := Allocate();
      }
      if ip.None? || !(req.tokenHash in tokens && !tokens[req.tokenHash].used && tokens[req.tokenHash].expires > now) {
        return false;
      }
      var free := CanInsert(req.id, req.key, ip.value);
      if !free {
        return false;
      }
      var tok := tokens[req.tokenHash];
      var name := if tok.hint != "" then tok.hint else req.hostname;
      tokens := tokens[req.tokenHash := tok.(used := true)];
      nodes := nodes + [Node(req.id, name, req.os, req.role, req.key, ip.value, [], [], "", !cfg.requireApproval || req.role == RoleHub, [])];
      version := version + 1;
      ok := true;
    }

    // ---------- nodes ----------

    method HandleRekey(id: string, key: string) returns (ok: bool)
      modifies this
      ensures Rekey(old(State()), id, key) == Outcome(State(), ok)
    {
      var at := NodeAt(nodes, id);
      if at.None? {
        return false;
      }
      var i := at.value;
      if nodes[i].key == key {
        return true;
      }
      for j := 0 to |nodes|
        invariant forall k :: 0 <= k < j ==> nodes[k].id == id || nodes[k].key != key
      {
        if nodes[j].id != id && nodes[j].key == key {
          return false;
        }
      }
      nodes := nodes[i := nodes[i].(key := key, lockSig := "")];
      version := version + 1;
      ok := true;
    }

    /** Whether another node already serves one of the routes. */
    method ServedElsewhere(id: string, routes: seq<Prefix>) returns (served: bool)
      ensures served == Served(nodes, id, routes)
    {
      for j := 0 to |nodes|
        invariant forall k, r :: 0 <= k < j && nodes[k].id != id && r in nodes[k].enabled ==> r !in routes
      {
        if nodes[j].id != id {
          var other := nodes[j].enabled;
          for a := 0 to |other|
            invariant forall c :: 0 <= c < a ==> other[c] !in routes
          {
            for b := 0 to |routes|
              invariant forall d :: 0 <= d < b ==> routes[d] != other[a]
            {
              if other[a] == routes[b] {
                assert 0 <= j < |nodes| && other[a] in nodes[j].enabled && other[a] in routes;
                return true;
              }
            }
          }
        }
      }
      served := false;
    }

    method AllAdvertised(advertised: seq<Prefix>, enabled: seq<Prefix>) returns (ok: bool)
      ensures ok <==> !exists r :: r in enabled && r !in advertised
    {
      for k := 0 to |enabled|
        invariant forall j :: 0 <= j < k ==> enabled[j] in advertised
      {
        if enabled[k] !in advertised {
          return false;
        }
      }
      ok := true;
    }

    method HandleNodeRoutes(id: string, routes: seq<Option<Prefix>>) returns (ok: bool)
      modifies this
      ensures EnableRoutes(cfg, old(State()), id, routes) == Outcome(State(), ok)
    {
      var at := NodeAt(nodes, id);
      if at.None? {
        return false;
      }
      var i := at.value;
      var norm := NormalizeRoutes(cfg.overlay, routes);
      if norm.None? {
        return false;
      }
      var enabled := norm.value;
      var known := AllAdvertised(nodes[i].advertised, enabled);
      if !known {
        return false;
      }
      var served := ServedElsewhere(id, enabled);
      if served {
        return false;
      }
      nodes := nodes[i := nodes[i].(enabled := enabled)];
      version := version + 1;
      ok := true;
    }

    /** Drops enabled routes that are no longer advertised. */
    method KeepAdvertised(enabled: seq<Prefix>, routes: seq<Prefix>) returns (out: seq<Prefix>)
      ensures out == StillAdvertised(enabled, routes)
    {
      out := [];
      for i := 0 to |enabled|
        invariant out == StillAdvertised(enabled[..i], routes)
      {
        assert enabled[..i + 1][..i] == enabled[..i];
        if enabled[i] in routes {
          out := out + [enabled[i]];
        }
      }
      assert enabled[..|enabled|] == enabled;
    }

    method AddressesOf(eps: seq<Endpoint>) returns (addrs: set<string>)
      ensures addrs == set e | e in eps :: e.addr
    {
      addrs := {};
      for i := 0 to |eps|
        invariant addrs == set e | e in eps[..i] :: e.addr
      {
        assert eps[..i + 1] == eps[..i] + [eps[i]];
        addrs := addrs + {eps[i].addr};
      }
      assert eps[..|eps|] == eps;
    }

    /** Compares sizes and looks for newcomers. */
    method Differs(before: set<string>, addrs: seq<string>) returns (changed: bool)
      ensures DistinctAddrs(addrs) ==> (changed <==> before != (set a | a in addrs))
    {
      changed := |before| != |addrs|;
      for i := 0 to |addrs|
        invariant changed <==> |before| != |addrs| || exists j :: 0 <= j < i && addrs[j] !in before
      {
        if addrs[i] !in before {
          changed := true;
        }
      }
      if DistinctAddrs(addrs) {
        SameSetIff(before, addrs);
      }
    }

    /**
     * Swaps the endpoints of one kind in one transaction; `changed` tells whether
     * the address set moved. A repeated address breaks the primary key and rolls
     * everything back.
     */
    method SwapEndpoints(id: string, local: bool, addrs: seq<string>, now: int) returns (ok: bool, changed: bool)
      modifies `endpoints
      ensures ok == DistinctAddrs(addrs)
      ensures State() == if ok then ReplaceEndpoints(old(State()), id, local, addrs, now) else old(State())
      ensures ok ==> changed == AddrsChanged(old(State()), id, local, addrs)
    {
      var eps := if id in endpoints then endpoints[id] else [];
      var before := AddressesOf(KeepKind(eps, local));
      changed := Differs(before, addrs);
      ok := DistinctAddrs(addrs);
      if ok {
        endpoints := endpoints[id := KeepKind(eps, !local) + seq(|addrs|, i requires 0 <= i < |addrs| => Endpoint(local, addrs[i], now))];
      }
    }

    /** Node ids by WireGuard key. */
    method IdsByKey() returns (ids: map<string, string>)
      ensures forall k :: k in ids <==> KeyAt(nodes, k).Some?
      ensures forall k :: k in ids ==> ids[k] == nodes[KeyAt(nodes, k).value].id
    {
      ids := map[];
      for i := 0 to |nodes|
        invariant forall k :: k in ids <==> KeyAt(nodes[..i], k).Some?
        invariant forall k :: k in ids ==> ids[k] == nodes[KeyAt(nodes[..i], k).value].id
      {
        assert nodes[..i + 1][..i] == nodes[..i];
        ids := ids[nodes[i].key := nodes[i].id];
      }
      assert nodes[..|nodes|] == nodes;
    }

    method StoreObserved(observed: seq<Observation>, now: int) returns (moved: bool)
      modifies `endpoints
      ensures ObserveAll(nodes, old(State()), observed, now) == Observed(State(), moved)
    {
      var ids := IdsByKey();
      moved := false;
      for i := 0 to |observed|
        invariant ObserveAll(nodes, old(State()), observed[..i], now) == Observed(State(), moved)
      {
        assert observed[..i + 1][..i] == observed[..i];
        var o := observed[i];
        if o.key in ids && o.addr.Some? {
          var _, changed := SwapEndpoints(ids[o.key], false, [o.addr.value], now);
          moved := moved || changed;
        }
      }
      assert observed[..|observed|] == observed;
    }

    method HandleStatus(id: string, addrs: seq<string>, routes: seq<Option<Prefix>>, observed: seq<Observation>, now: int) returns (ok: bool)
      modifies this
      ensures Status(cfg, old(State()), id, addrs, routes, observed, now) == Outcome(State(), ok)
    {
      var at := NodeAt(nodes, id);
      if at.None? {
        return false;
      }
      var stored, needBump := SwapEndpoints(id, true, addrs, now);
      if !stored {
        return false;
      }
      var norm := NormalizeRoutes(cfg.overlay, routes);
      if norm.None? {
        return false;
      }
      StoreReport(at.value, norm.value, observed, needBump, now);
      ok := true;
    }

    method StoreReport(i: nat, routes: seq<Prefix>, observed: seq<Observation>, moved: bool, now: int)
      requires i < |nodes|
      modifies this
      ensures State() == Reported(old(State()), i, routes, observed, moved, now)
    {
      var needBump := moved;
      var n := nodes[i];
      var still := KeepAdvertised(n.enabled, routes);
      nodes := nodes[i := n.(advertised := routes, enabled := still)];
      needBump := needBump || still != n.enabled;
      if n.role == RoleHub && |observed| > 0 {
        var observedMoved := StoreObserved(observed, now);
        needBump := needBump || observedMoved;
      }
      if needBump {
        version := version + 1;
      }
    }

    method HandleApprove(id: string) returns (ok: bool)
      modifies this
      ensures Approve(old(State()), id) == Outcome(State(), ok)
    {
      var at := NodeAt(nodes, id);
      if at.None? {
        return false;
      }
      if !nodes[at.value].approved {
        nodes := nodes[at.value := nodes[at.value].(approved := true)];
        version := version + 1;
      }
      ok := true;
    }

    method HandleNodeDelete(id: string) returns (ok: bool)
      modifies this
      ensures DeleteNode(old(State()), id) == Outcome(State(), ok)
    {
      var at := NodeAt(nodes, id);
      if at.None? {
        return false;
      }
      nodes := nodes[..at.value] + nodes[at.value + 1..];
      endpoints := endpoints - {id};
      version := version + 1;
      ok := true;
    }

    // ---------- static peers ----------

    method HandleStaticPeerCreate(id: string, name: string, key: string) returns (ok: bool)
      modifies this
      ensures CreateStatic(cfg, old(State()), id, name, key) == Outcome(State(), ok)
    {
      if name == "" {
        return false;
      }
      var hub := HubEnrolled();
      if !hub {
        return false;
      }
      var ip := Allocate();
      if ip.None? {
        return false;
      }
      for i := 0 to |statics|
        invariant forall j :: 0 <= j < i ==>
          statics[j].id != id && statics[j].name != name && statics[j].key != key && statics[j].ip != ip.value
      {
        if statics[i].id == id || statics[i].name == name || statics[i].key == key || statics[i].ip == ip.value {
          return false;
        }
      }
      statics := statics + [StaticPeer(id, name, key, ip.value, "", [])];
      version := version + 1;
      ok := true;
    }

    method HandleStaticPeerDelete(id: string) returns (ok: bool)
      modifies this
      ensures DeleteStatic(old(State()), id) == Outcome(State(), ok)
    {
      var at := StaticAt(statics, id);
      if at.None? {
        return false;
      }
      statics := statics[..at.value] + statics[at.value + 1..];
      version := version + 1;
      ok := true;
    }

    // ---------- network lock ----------

    method ClearLockSigs()
      modifies `nodes, `statics
      ensures State() == ClearSigs(old(State()))
    {
      for i := 0 to |nodes|
        invariant |nodes| == |old(nodes)| && statics == old(statics)
        invariant forall j :: 0 <= j < |nodes| ==> nodes[j] == if j < i then old(nodes)[j].(lockSig := "") else old(nodes)[j]
      {
        nodes := nodes[i := nodes[i].(lockSig := "")];
      }
      for i := 0 to |statics|
        invariant |statics| == |old(statics)| && nodes == ClearSigs(old(State())).nodes
        invariant forall j :: 0 <= j < |statics| ==> statics[j] == if j < i then old(statics)[j].(lockSig := "") else old(statics)[j]
      {
        statics := statics[i := statics[i].(lockSig := "")];
      }
    }

    method HandleLockInit(key: string) returns (ok: bool)
      modifies this
      ensures LockInit(old(State()), key) == Outcome(State(), ok)
    {
      if key == "" {
        return false;
      }
      if lockKey != "" && lockKey != key {
        if lockActive {
          return false;
        }
        ClearLockSigs();
      }
      lockKey := key;
      ok := true;
    }

    method StoreSignature(s: LockSignature) returns (ok: bool)
      modifies `nodes, `statics
      ensures ok == SignOne(verify, old(State()), s).Some?
      ensures State() == if ok then SignOne(verify, old(State()), s).value else old(State())
    {
      if s.isNode {
        var at := NodeAt(nodes, s.id);
        if at.None? || !verify(lockKey, nodes[at.value].key, nodes[at.value].ip, s.sig) {
          return false;
        }
        nodes := nodes[at.value := nodes[at.value].(lockSig := s.sig)];
      } else {
        var at := StaticAt(statics, s.id);
        if at.None? || !verify(lockKey, statics[at.value].key, statics[at.value].ip, s.sig) {
          return false;
        }
        statics := statics[at.value := statics[at.value].(lockSig := s.sig)];
      }
      ok := true;
    }

    /** Everything not yet signed, nodes first. */
    method PendingBindings() returns (out: seq<Binding>)
      ensures out == PendingNodes(nodes) + PendingStatics(statics)
      ensures out == [] <==> NothingPending(State())
    {
      out := [];
      for i := 0 to |nodes|
        invariant out == PendingNodes(nodes[..i])
      {
        assert nodes[..i + 1][..i] == nodes[..i];
        var n := nodes[i];
        if n.lockSig == "" {
          out := out + [Binding(true, n.id, n.name, n.key, n.ip)];
        }
      }
      assert nodes[..|nodes|] == nodes;
      ghost var unsigned := out;
      for i := 0 to |statics|
        invariant out == unsigned + PendingStatics(statics[..i])
      {
        assert statics[..i + 1][..i] == statics[..i];
        var p := statics[i];
        if p.lockSig == "" {
          out := out + [Binding(false, p.id, p.name, p.key, p.ip)];
        }
      }
      assert statics[..|statics|] == statics;
      PendingNodesEmptyIff(nodes);
      PendingStaticsEmptyIff(statics);
    }

    method HandleLockSign(sigs: seq<LockSignature>) returns (ok: bool)
      modifies this
      ensures LockSign(verify, old(State()), sigs) == Outcome(State(), ok)
    {
      if lockKey == "" {
        return false;
      }
      for i := 0 to |sigs|
        invariant SignAll(verify, old(State()), sigs[..i]) == Outcome(State(), true)
      {
        assert sigs[..i + 1][..i] == sigs[..i];
        var stored := StoreSignature(sigs[i]);
        if !stored {
          StopsAt(verify, old(State()), sigs, i);
          return false;
        }
      }
      assert sigs[..|sigs|] == sigs;
      var pending := PendingBindings();
      if |pending| == 0 {
        lockActive := true;
      }
      version := version + 1;
      ok := true;
    }

    method HandleLockDisable()
      modifies this
      ensures LockDisable(old(State())) == Outcome(State(), true)
    {
      lockKey, lockActive := "", false;
      version := version + 1;
    }
  }

  /** A failed signature ends the request: later ones change nothing. */
  lemma {:induction false} StopsAt(verify: Verifier, db: Db, sigs: seq<LockSignature>, i: nat)
    requires i < |sigs| && !SignAll(verify, db, sigs[..i + 1]).ok
    ensures SignAll(verify, db, sigs) == SignAll(verify, db, sigs[..i + 1])
    decreases |sigs|
  {
    if i + 1 == |sigs| {
      assert sigs[..i + 1] == sigs;
    } else {
      var init := sigs[..|sigs| - 1];
      assert init[..i + 1] == sigs[..i + 1];
      StopsAt(verify, db, init, i);
    }
  }

  lemma {:induction false} DistinctCount(addrs: seq<string>)
    requires DistinctAddrs(addrs)
    ensures |set a | a in addrs| == |addrs|
  {
    if addrs != [] {
      var init, last := addrs[..|addrs| - 1], addrs[|addrs| - 1];
      DistinctCount(init);
      assert (set a | a in addrs) == (set a | a in init) + {last};
    }
  }

  /** Comparing sizes and looking for newcomers compares the sets, when no address repeats. */
  lemma SameSetIff(before: set<string>, addrs: seq<string>)
    requires DistinctAddrs(addrs)
    ensures (|before| != |addrs| || exists j :: 0 <= j < |addrs| && addrs[j] !in before) <==> before != (set a | a in addrs)
  {
    var now := set a | a in addrs;
    DistinctCount(addrs);
    if |before| == |addrs| && forall j :: 0 <= j < |addrs| ==> addrs[j] in before {
      SubsetSameSize(now, before);
    }
    if j :| 0 <= j < |addrs| && addrs[j] !in before {
      assert addrs[j] in now;
    }
  }

  lemma {:induction false} SubsetSameSize(a: set<string>, b: set<string>)
    requires a <= b && |a| == |b|
    ensures a == b
  {
    if x :| x in b && x !in a {
      SubsetSize(a, b - {x});
    }
  }

  lemma {:induction false} SubsetSize(a: set<string>, b: set<string>)
    requires a <= b
    ensures |a| <= |b|
  {
    if x :| x in a {
      SubsetSize(a - {x}, b - {x});
    }
  }
}
