/** What single handlers change, row by row, in every sound state. */
module Handlers {
  import opened Net
  import opened Options
  import opened Ipam
  import opened Rules
  import opened Store
  import opened Acl
  import opened Routes
  import opened Netmaps
  import opened Coordinators

  lemma IdIsIndex(cfg: Config, db: Db, i: nat, j: nat)
    requires Inv(cfg, db) && i < |db.nodes| && j < |db.nodes| && db.nodes[i].id == db.nodes[j].id
    ensures i == j
  {
  }

  ghost predicate Known(db: Db, id: string) { exists n :: n in db.nodes && n.id == id }

  function ApprovedRow(n: Node, id: string): Node { if n.id == id then n.(approved := true) else n }

  /**
   * Approval succeeds iff the node exists; then this row and no other becomes
   * approved, the version grows iff it was not approved before, and the netmap
   * view gains exactly this node.
   */
  lemma ApproveExact(cfg: Config, db: Db, id: string, now: int, m: Node)
    requires Inv(cfg, db)
    ensures var r := Approve(db, id);
      && (r.ok <==> Known(db, id))
      && (m in r.db.nodes <==> exists n :: n in db.nodes && m == ApprovedRow(n, id))
      && (m in ViewOf(r.db, now).nodes <==> exists n :: n in db.nodes && (n.approved || n.id == id) && m == ApprovedRow(n, id))
      && (r.db.version == db.version + 1 <==> exists n :: n in db.nodes && n.id == id && !n.approved)
      && r.db == db.(nodes := r.db.nodes, version := r.db.version) && db.version <= r.db.version <= db.version + 1
  {
    var r, at := Approve(db, id), NodeAt(db.nodes, id);
    ApprovedMembers(r.db.nodes);
    if at.Some? {
      assert db.nodes[at.value] in db.nodes;
      forall i | 0 <= i < |db.nodes| ensures r.db.nodes[i] == ApprovedRow(db.nodes[i], id) {
        if db.nodes[i].id == id {
          IdIsIndex(cfg, db, i, at.value);
        }
      }
      SameMembers(db, r.db, id, m);
      forall n | n in db.nodes && n.id == id ensures n == db.nodes[at.value] {
        var i :| 0 <= i < |db.nodes| && db.nodes[i] == n;
        IdIsIndex(cfg, db, i, at.value);
      }
    }
  }

  lemma SameMembers(db: Db, t: Db, id: string, m: Node)
    requires |t.nodes| == |db.nodes| && forall i :: 0 <= i < |db.nodes| ==> t.nodes[i] == ApprovedRow(db.nodes[i], id)
    ensures m in t.nodes <==> exists n :: n in db.nodes && m == ApprovedRow(n, id)
  {
    if m in t.nodes {
      var i :| 0 <= i < |t.nodes| && t.nodes[i] == m;
      assert db.nodes[i] in db.nodes;
    }
    forall n | n in db.nodes && m == ApprovedRow(n, id) ensures m in t.nodes {
      var i :| 0 <= i < |db.nodes| && db.nodes[i] == n;
      assert t.nodes[i] == m;
    }
  }

  /** Deleting a node removes its row, its endpoints and nothing else. */
  lemma DeleteNodeExact(cfg: Config, db: Db, id: string, m: Node)
    requires Inv(cfg, db)
    ensures var r := DeleteNode(db, id);
      && (r.ok <==> Known(db, id))
      && (m in r.db.nodes <==> m in db.nodes && m.id != id)
      && r.db == if r.ok then db.(nodes := r.db.nodes, endpoints := db.endpoints - {id}, version := db.version + 1) else db
  {
    var at := NodeAt(db.nodes, id);
    if at.Some? {
      assert db.nodes[at.value] in db.nodes;
      RemovedAt(db.nodes, at.value, m);
      forall j | 0 <= j < |db.nodes| && db.nodes[j].id == id ensures j == at.value {
        IdIsIndex(cfg, db, j, at.value);
      }
    }
  }

  /** What is left of a table without row k. */
  lemma RemovedAt<T>(xs: seq<T>, k: nat, x: T)
    requires k < |xs|
    ensures x in xs[..k] + xs[k + 1..] <==> exists j :: 0 <= j < |xs| && j != k && xs[j] == x
  {
    var ys := xs[..k] + xs[k + 1..];
    forall j | 0 <= j < |xs| && j != k && xs[j] == x ensures x in ys {
      assert ys[if j < k then j else j - 1] == x;
    }
    if x in ys {
      var i :| 0 <= i < |ys| && ys[i] == x;
      assert xs[if i < k then i else i + 1] == x;
    }
  }

  /** A deleted spoke's address can be handed out again: the next allocation is that address or a lower one. */
  lemma DeleteFreesAddress(cfg: Config, db: Db, n: Node)
    requires Inv(cfg, db) && n in db.nodes && n.role == RoleNode
    ensures var t := DeleteNode(db, n.id).db;
      n.ip !in AllocatedIPs(t) && Allocation(cfg, t).Some? && Allocation(cfg, t).value <= n.ip
  {
    var t := DeleteNode(db, n.id).db;
    var i :| 0 <= i < |db.nodes| && db.nodes[i] == n;
    assert NodeOk(cfg, db.nodes[i]);
    forall m | m in t.nodes ensures m.ip != n.ip {
      DeleteNodeExact(cfg, db, n.id, m);
      var j :| 0 <= j < |db.nodes| && db.nodes[j] == m;
      assert if i < j then Compatible(db.nodes[i], db.nodes[j]) else Compatible(db.nodes[j], db.nodes[i]);
    }
    DeleteNodeExact(cfg, db, n.id, n);
    LeastFreeIsLeast(cfg.overlay, AllocatedIPs(t) + {HubIP(cfg.overlay)});
  }

  /** Deleting a static peer removes its row only, and frees its address. */
  lemma DeleteStaticExact(cfg: Config, db: Db, id: string, m: StaticPeer)
    requires Inv(cfg, db)
    ensures var r := DeleteStatic(db, id);
      && (r.ok <==> exists p :: p in db.statics && p.id == id)
      && (m in r.db.statics <==> m in db.statics && m.id != id)
      && (m in db.statics && m.id == id ==> m.ip !in AllocatedIPs(r.db))
      && r.db == if r.ok then db.(statics := r.db.statics, version := db.version + 1) else db
  {
    var at, ps := StaticAt(db.statics, id), DeleteStatic(db, id).db.statics;
    if at.Some? {
      assert db.statics[at.value] in db.statics;
      RemovedAt(db.statics, at.value, m);
      forall p | p in ps ensures p.ip != db.statics[at.value].ip {
        RemovedAt(db.statics, at.value, p);
      }
    }
  }

  /**
   * Disabling hides the lock key from every netmap but keeps the signatures: a
   * fully signed active lock is back, tables and all, after arming the same key
   * and an empty sign request.
   */
  lemma DisableRoundTrip(verify: Verifier, db: Db, now: int)
    requires db.lockActive && db.lockKey != "" && NothingPending(db)
    ensures ViewOf(LockDisable(db).db, now).lockKey == "" && ViewOf(db, now).lockKey == db.lockKey
    ensures LockSign(verify, LockInit(LockDisable(db).db, db.lockKey).db, []) == Outcome(db.(version := db.version + 2), true)
  {
  }

  // ---------- rows that one handler rewrites ----------

  /** The table with the row of one node replaced. */
  ghost predicate OneRowChanged(db: Db, t: Db, old': Node, new': Node) {
    forall m :: m in t.nodes <==> m == new' || (m in db.nodes && m != old')
  }

  lemma RowReplaced(cfg: Config, db: Db, i: nat, n: Node)
    requires Inv(cfg, db) && i < |db.nodes|
    ensures OneRowChanged(db, WithNode(db, i, n), db.nodes[i], n)
  {
    var t := WithNode(db, i, n);
    forall m ensures m in t.nodes <==> m == n || (m in db.nodes && m != db.nodes[i]) {
      assert t.nodes[i] == n;
      if m in t.nodes && m != n {
        var j :| 0 <= j < |t.nodes| && t.nodes[j] == m;
        assert j != i && db.nodes[j] == m;
        if m == db.nodes[i] {
          IdIsIndex(cfg, db, i, j);
        }
      }
      if m in db.nodes && m != db.nodes[i] {
        var j :| 0 <= j < |db.nodes| && db.nodes[j] == m;
        assert t.nodes[j] == m;
      }
    }
  }

  lemma NodeIsAt(cfg: Config, db: Db, n: Node)
    requires Inv(cfg, db) && n in db.nodes
    ensures NodeAt(db.nodes, n.id).Some? && db.nodes[NodeAt(db.nodes, n.id).value] == n
  {
    var j :| 0 <= j < |db.nodes| && db.nodes[j] == n;
    IdIsIndex(cfg, db, j, NodeAt(db.nodes, n.id).value);
  }

  /** A rekey is refused iff another node has the key; else the key is the node's, and a new one costs it its signature and a bump. */
  lemma RekeyExact(cfg: Config, db: Db, n: Node, key: string)
    requires Inv(cfg, db) && n in db.nodes
    ensures var r := Rekey(db, n.id, key);
      && (r.ok <==> forall m :: m in db.nodes && m != n ==> m.key != key)
      && (r.ok && key != n.key ==> OneRowChanged(db, r.db, n, n.(key := key, lockSig := "")) && r.db == Bumped(db.(nodes := r.db.nodes)))
      && (!r.ok || key == n.key ==> r.db == db)
  {
    NodeIsAt(cfg, db, n);
    var i := NodeAt(db.nodes, n.id).value;
    RowReplaced(cfg, db, i, n.(key := key, lockSig := ""));
    if KeyTaken(db.nodes, n.id, key) {
      var j :| 0 <= j < |db.nodes| && db.nodes[j].id != n.id && db.nodes[j].key == key;
      assert db.nodes[j] in db.nodes;
    }
    forall m | m in db.nodes && m != n && m.key == key ensures KeyTaken(db.nodes, n.id, key) && n.key != key {
      var j :| 0 <= j < |db.nodes| && db.nodes[j] == m;
      assert j != i;
      assert if i < j then Compatible(db.nodes[i], db.nodes[j]) else Compatible(db.nodes[j], db.nodes[i]);
    }
  }

  /** The row's enabled routes are exactly the requested ones, masked. */
  ghost predicate NowEnabled(db: Db, t: Db, n: Node, enabled: seq<Prefix>, routes: seq<Option<Prefix>>) {
    && OneRowChanged(db, t, n, n.(enabled := enabled))
    && forall p :: p in enabled <==> exists i :: 0 <= i < |routes| && routes[i].Some? && p == Masked(routes[i].value)
  }

  /** Enabling succeeds iff every route is acceptable, advertised by the node and enabled on no other; then exactly these are enabled. */
  lemma EnableExact(cfg: Config, db: Db, n: Node, routes: seq<Option<Prefix>>)
    requires Inv(cfg, db) && n in db.nodes
    ensures var r := EnableRoutes(cfg, db, n.id, routes);
      && (r.ok <==> forall i :: 0 <= i < |routes| ==>
            && routes[i].Some? && Acceptable(cfg.overlay, routes[i].value) && Masked(routes[i].value) in n.advertised
            && forall m :: m in db.nodes && m != n ==> Masked(routes[i].value) !in m.enabled)
      && (!r.ok ==> r.db == db)
      && (r.ok ==> r.db == Bumped(db.(nodes := r.db.nodes)) && exists enabled :: NowEnabled(db, r.db, n, enabled, routes))
  {
    NodeIsAt(cfg, db, n);
    var k := NodeAt(db.nodes, n.id).value;
    NormalizeExact(cfg.overlay, routes);
    var norm := NormalizeOf(cfg.overlay, routes);
    if norm.Some? {
      ServedIff(cfg, db, n, norm.value);
      RowReplaced(cfg, db, k, n.(enabled := norm.value));
      EnableCondition(db, n, routes, norm.value);
      var r := EnableRoutes(cfg, db, n.id, routes);
      assert r.ok ==> NowEnabled(db, r.db, n, norm.value, routes);
    }
  }

  lemma ServedIff(cfg: Config, db: Db, n: Node, routes: seq<Prefix>)
    requires Inv(cfg, db) && n in db.nodes
    ensures Served(db.nodes, n.id, routes) <==> exists m, p :: m in db.nodes && m != n && p in m.enabled && p in routes
  {
    if Served(db.nodes, n.id, routes) {
      var j, p :| 0 <= j < |db.nodes| && db.nodes[j].id != n.id && p in db.nodes[j].enabled && p in routes;
      assert db.nodes[j] in db.nodes && db.nodes[j] != n;
    }
    forall m, p | m in db.nodes && m != n && p in m.enabled && p in routes ensures Served(db.nodes, n.id, routes) {
      var j :| 0 <= j < |db.nodes| && db.nodes[j] == m;
      var i :| 0 <= i < |db.nodes| && db.nodes[i] == n;
      assert if i < j then Compatible(db.nodes[i], db.nodes[j]) else Compatible(db.nodes[j], db.nodes[i]);
    }
  }

  lemma EnableCondition(db: Db, n: Node, routes: seq<Option<Prefix>>, norm: seq<Prefix>)
    requires forall i :: 0 <= i < |routes| ==> routes[i].Some?
    requires forall p :: p in norm <==> exists i :: 0 <= i < |routes| && routes[i].Some? && p == Masked(routes[i].value)
    ensures (forall p :: p in norm ==> p in n.advertised) && !(exists m, p :: m in db.nodes && m != n && p in m.enabled && p in norm) <==>
      forall i :: 0 <= i < |routes| ==> Masked(routes[i].value) in n.advertised && forall m :: m in db.nodes && m != n ==> Masked(routes[i].value) !in m.enabled
  {
    forall i | 0 <= i < |routes| ensures Masked(routes[i].value) in norm {
    }
  }

  /** Tagging rewrites the tags of one row, which is what policies then match. */
  lemma TagNodeExact(cfg: Config, db: Db, n: Node, tags: seq<string>)
    requires Inv(cfg, db) && n in db.nodes
    ensures var r := TagNode(db, n.id, tags);
      r.ok && OneRowChanged(db, r.db, n, n.(tags := tags)) && r.db == Bumped(db.(nodes := r.db.nodes))
  {
    NodeIsAt(cfg, db, n);
    RowReplaced(cfg, db, NodeAt(db.nodes, n.id).value, n.(tags := tags));
  }

  lemma TagStaticExact(cfg: Config, db: Db, q: StaticPeer, tags: seq<string>)
    requires Inv(cfg, db) && q in db.statics
    ensures var r := TagStatic(db, q.id, tags);
      && r.ok && r.db == Bumped(db.(statics := r.db.statics))
      && forall m :: m in r.db.statics <==> m == q.(tags := tags) || (m in db.statics && m != q)
  {
    var j :| 0 <= j < |db.statics| && db.statics[j] == q;
    var i := StaticAt(db.statics, q.id).value;
    assert i == j;
    var t := TagStatic(db, q.id, tags).db;
    forall m ensures m in t.statics <==> m == q.(tags := tags) || (m in db.statics && m != q) {
      assert t.statics[i] == q.(tags := tags);
      if m in db.statics && m != q {
        var k :| 0 <= k < |db.statics| && db.statics[k] == m;
        assert t.statics[k] == m;
      }
      if m in t.statics && m != q.(tags := tags) {
        var k :| 0 <= k < |t.statics| && t.statics[k] == m;
        assert k != i && db.statics[k] == m;
      }
    }
  }

  /**
   * A static peer needs a name, a hub, a free address and an id, name and key
   * that no static peer has; it then gets the least free address, unsigned.
   */
  lemma CreateStaticExact(cfg: Config, db: Db, id: string, name: string, key: string)
    requires Inv(cfg, db)
    ensures var r := CreateStatic(cfg, db, id, name, key);
      && (r.ok <==>
            && name != "" && (exists n :: n in db.nodes && n.role == RoleHub)
            && (exists h: Addr :: IsHost(cfg.overlay, h) && h != HubIP(cfg.overlay) && h !in AllocatedIPs(db))
            && forall q :: q in db.statics ==> q.id != id && q.name != name && q.key != key)
      && (!r.ok ==> r.db == db)
      && (r.ok ==> Allocation(cfg, db).Some? && r.db == Bumped(db.(statics := db.statics + [StaticPeer(id, name, key, Allocation(cfg, db).value, "", [])])))
  {
    HubOfMembers(db.nodes);
    AllocationIsNew(cfg, db);
    LeastFreeIsLeast(cfg.overlay, AllocatedIPs(db) + {HubIP(cfg.overlay)});
    if HubOf(db.nodes).Some? {
      assert HubOf(db.nodes).value in db.nodes;
    }
    if Allocation(cfg, db).Some? {
      StaticInsertableIff(db, id, name, key, Allocation(cfg, db).value);
    }
  }

  lemma StaticInsertableIff(db: Db, id: string, name: string, key: string, ip: Addr)
    requires forall i :: 0 <= i < |db.statics| ==> db.statics[i].ip != ip
    ensures StaticInsertable(db.statics, id, name, key, ip) <==> forall q :: q in db.statics ==> q.id != id && q.name != name && q.key != key
  {
    forall i | 0 <= i < |db.statics| ensures db.statics[i] in db.statics {
    }
  }

  // ---------- policies ----------

  /** A created policy adds exactly what it allows; an invalid one is refused. */
  lemma CreatePolicyMeans(db: Db, p: Policy, srcTags: seq<string>, dstTags: seq<string>, l4: L4)
    ensures var r := CreatePolicy(db, p);
      && (r.ok <==> PolicyValid(p)) && (!r.ok ==> r.db == db)
      && (r.ok ==> r.db == Bumped(db.(policies := r.db.policies))
                   && (PolicyAllows(r.db.policies, srcTags, dstTags, l4) <==>
                         PolicyAllows(db.policies, srcTags, dstTags, l4) || PolicyAllows([p], srcTags, dstTags, l4)))
  {
    var ps := db.policies + [p];
    assert forall q :: q in ps <==> q in db.policies || q in [p];
  }

  lemma {:induction false} WithoutPolicyExact(ps: seq<Policy>, id: string, p: Policy)
    ensures p in WithoutPolicy(ps, id) <==> p in ps && p.id != id
  {
    if ps != [] {
      var init, last := ps[..|ps| - 1], ps[|ps| - 1];
      assert ps == init + [last];
      WithoutPolicyExact(init, id, p);
    }
  }

  /** A deleted policy stops allowing anything; the others go on. */
  lemma DeletePolicyMeans(db: Db, id: string, srcTags: seq<string>, dstTags: seq<string>, l4: L4)
    ensures var r := DeletePolicy(db, id);
      && (r.ok <==> exists p :: p in db.policies && p.id == id) && (!r.ok ==> r.db == db)
      && (r.ok ==> r.db == Bumped(db.(policies := r.db.policies))
                   && (PolicyAllows(r.db.policies, srcTags, dstTags, l4) <==>
                         exists p :: p in db.policies && p.id != id && PolicyAllows([p], srcTags, dstTags, l4)))
  {
    var rest := WithoutPolicy(db.policies, id);
    forall p ensures p in rest <==> p in db.policies && p.id != id {
      WithoutPolicyExact(db.policies, id, p);
    }
    forall p | p in db.policies && p.id != id && PolicyAllows([p], srcTags, dstTags, l4) ensures PolicyAllows(rest, srcTags, dstTags, l4) {
      assert p in rest && p in [p];
    }
    if PolicyAllows(rest, srcTags, dstTags, l4) {
      var p :| p in rest && p.enabled && TagMatch(p.srcTags, srcTags) && TagMatch(p.dstTags, dstTags) && L4Match(p.service, l4);
      assert p in [p];
    }
  }

  // ---------- signatures ----------

  /** A stored signature sits on the row it names, which it verifies for, and on no other. */
  lemma SignOneExact(cfg: Config, verify: Verifier, db: Db, s: LockSignature)
    requires Inv(cfg, db)
    ensures var r := SignOne(verify, db, s);
      && (s.isNode ==>
            && (r.Some? <==> exists n :: n in db.nodes && n.id == s.id && verify(db.lockKey, n.key, n.ip, s.sig))
            && (r.Some? ==> exists n :: n in db.nodes && n.id == s.id && OneRowChanged(db, r.value, n, n.(lockSig := s.sig)) && r.value.statics == db.statics))
      && (!s.isNode ==>
            && (r.Some? <==> exists q :: q in db.statics && q.id == s.id && verify(db.lockKey, q.key, q.ip, s.sig))
            && (r.Some? ==> r.value.nodes == db.nodes && exists q :: q in db.statics && q.id == s.id && q.(lockSig := s.sig) in r.value.statics))
  {
    if s.isNode {
      forall n | n in db.nodes && n.id == s.id ensures NodeAt(db.nodes, s.id).Some? && db.nodes[NodeAt(db.nodes, s.id).value] == n {
        NodeIsAt(cfg, db, n);
      }
      var at := NodeAt(db.nodes, s.id);
      if at.Some? {
        assert db.nodes[at.value] in db.nodes;
        RowReplaced(cfg, db, at.value, db.nodes[at.value].(lockSig := s.sig));
      }
    } else {
      StaticSigned(cfg, verify, db, s);
    }
  }

  lemma StaticSigned(cfg: Config, verify: Verifier, db: Db, s: LockSignature)
    requires Inv(cfg, db) && !s.isNode
    ensures var r := SignOne(verify, db, s);
      && (r.Some? <==> exists q :: q in db.statics && q.id == s.id && verify(db.lockKey, q.key, q.ip, s.sig))
      && (r.Some? ==> r.value.nodes == db.nodes && exists q :: q in db.statics && q.id == s.id && q.(lockSig := s.sig) in r.value.statics)
  {
    var at := StaticAt(db.statics, s.id);
    forall q | q in db.statics && q.id == s.id ensures at.Some? && db.statics[at.value] == q {
      var j :| 0 <= j < |db.statics| && db.statics[j] == q;
    }
    if at.Some? {
      assert db.statics[at.value] in db.statics;
      var r := SignOne(verify, db, s);
      if r.Some? {
        assert r.value.statics[at.value] == db.statics[at.value].(lockSig := s.sig);
      }
    }
  }

  /** A sign request that goes through activates the lock iff it leaves nothing unsigned, and otherwise only reports progress. */
  lemma ActivatesIff(verify: Verifier, db: Db, sigs: seq<LockSignature>)
    ensures var r := LockSign(verify, db, sigs);
      && (r.ok <==> db.lockKey != "" && SignAll(verify, db, sigs).ok)
      && (r.ok ==> r.db == Bumped(SignAll(verify, db, sigs).db).(lockActive := r.db.lockActive)
                   && (r.db.lockActive <==> SignAll(verify, db, sigs).db.lockActive || NothingPending(r.db)))
  {
  }

  /** The same rows apart from their signatures. */
  ghost predicate SameBindings(db: Db, t: Db) {
    && t.lockKey == db.lockKey && |t.nodes| == |db.nodes| && |t.statics| == |db.statics|
    && (forall i :: 0 <= i < |db.nodes| ==> t.nodes[i] == db.nodes[i].(lockSig := t.nodes[i].lockSig))
    && (forall i :: 0 <= i < |db.statics| ==> t.statics[i] == db.statics[i].(lockSig := t.statics[i].lockSig))
  }

  lemma {:induction false} SameIdsNodeAt(xs: seq<Node>, ys: seq<Node>, id: string)
    requires |xs| == |ys| && forall i :: 0 <= i < |xs| ==> xs[i].id == ys[i].id
    ensures NodeAt(xs, id) == NodeAt(ys, id)
  {
    if xs != [] {
      SameIdsNodeAt(xs[..|xs| - 1], ys[..|ys| - 1], id);
    }
  }

  lemma {:induction false} SameIdsStaticAt(xs: seq<StaticPeer>, ys: seq<StaticPeer>, id: string)
    requires |xs| == |ys| && forall i :: 0 <= i < |xs| ==> xs[i].id == ys[i].id
    ensures StaticAt(xs, id) == StaticAt(ys, id)
  {
    if xs != [] {
      SameIdsStaticAt(xs[..|xs| - 1], ys[..|ys| - 1], id);
    }
  }

  lemma SameBindingsSign(verify: Verifier, db: Db, t: Db, s: LockSignature)
    requires SameBindings(db, t)
    ensures SignOne(verify, t, s).Some? <==> SignOne(verify, db, s).Some?
    ensures SignOne(verify, t, s).Some? ==> SameBindings(db, SignOne(verify, t, s).value)
  {
    SameIdsNodeAt(t.nodes, db.nodes, s.id);
    SameIdsStaticAt(t.statics, db.statics, s.id);
  }

  lemma {:induction false} SignAllBindings(verify: Verifier, db: Db, sigs: seq<LockSignature>)
    ensures SameBindings(db, SignAll(verify, db, sigs).db)
  {
    if sigs != [] {
      SignAllBindings(verify, db, sigs[..|sigs| - 1]);
      SameBindingsSign(verify, db, SignAll(verify, db, sigs[..|sigs| - 1]).db, sigs[|sigs| - 1]);
    }
  }

  /** Each signature names a binding and verifies for it. */
  ghost predicate EachSigns(verify: Verifier, db: Db, sigs: seq<LockSignature>) {
    forall i :: 0 <= i < |sigs| ==> SignOne(verify, db, sigs[i]).Some?
  }

  lemma EachSignsSnoc(verify: Verifier, db: Db, sigs: seq<LockSignature>)
    requires sigs != []
    ensures EachSigns(verify, db, sigs) <==> EachSigns(verify, db, sigs[..|sigs| - 1]) && SignOne(verify, db, sigs[|sigs| - 1]).Some?
  {
    var init := sigs[..|sigs| - 1];
    assert forall i :: 0 <= i < |init| ==> init[i] == sigs[i];
  }

  lemma SignAllStep(verify: Verifier, db: Db, sigs: seq<LockSignature>)
    requires sigs != []
    ensures SignAll(verify, db, sigs).ok <==> SignAll(verify, db, sigs[..|sigs| - 1]).ok && SignOne(verify, db, sigs[|sigs| - 1]).Some?
  {
    SignAllBindings(verify, db, sigs[..|sigs| - 1]);
    SameBindingsSign(verify, db, SignAll(verify, db, sigs[..|sigs| - 1]).db, sigs[|sigs| - 1]);
  }

  /** A sign request goes through iff each of its signatures names a binding and verifies for it; bindings never change on the way. */
  lemma {:induction false} SignAllIff(verify: Verifier, db: Db, sigs: seq<LockSignature>)
    ensures SignAll(verify, db, sigs).ok <==> EachSigns(verify, db, sigs)
    ensures SameBindings(db, SignAll(verify, db, sigs).db)
  {
    SignAllBindings(verify, db, sigs);
    if sigs != [] {
      SignAllIff(verify, db, sigs[..|sigs| - 1]);
      SignAllStep(verify, db, sigs);
      EachSignsSnoc(verify, db, sigs);
    }
  }

  /** The last signature of a request that goes through is on its row. */
  lemma LastSignatureStored(verify: Verifier, db: Db, sigs: seq<LockSignature>)
    requires sigs != [] && SignAll(verify, db, sigs).ok
    ensures var s, t := sigs[|sigs| - 1], SignAll(verify, db, sigs).db;
      if s.isNode then exists n :: n in t.nodes && n.id == s.id && n.lockSig == s.sig
      else exists q :: q in t.statics && q.id == s.id && q.lockSig == s.sig
  {
    var s, before := sigs[|sigs| - 1], SignAll(verify, db, sigs[..|sigs| - 1]).db;
    var t := SignAll(verify, db, sigs).db;
    if s.isNode {
      assert t.nodes[NodeAt(before.nodes, s.id).value].lockSig == s.sig;
    } else {
      assert t.statics[StaticAt(before.statics, s.id).value].lockSig == s.sig;
    }
  }

  // ---------- announcing and enabling ----------

  /** What a node has just announced can be enabled, unless another node serves it. */
  lemma AnnouncedCanBeEnabled(cfg: Config, db: Db, n: Node, addrs: seq<string>, routes: seq<Option<Prefix>>, observed: seq<Observation>, now: int)
    requires Inv(cfg, db) && n in db.nodes && Status(cfg, db, n.id, addrs, routes, observed, now).ok
    ensures var t := Status(cfg, db, n.id, addrs, routes, observed, now).db;
      EnableRoutes(cfg, t, n.id, routes).ok <==>
        forall i, m :: 0 <= i < |routes| && m in db.nodes && m != n && routes[i].Some? ==> Masked(routes[i].value) !in m.enabled
  {
    var t := Status(cfg, db, n.id, addrs, routes, observed, now).db;
    NodeIsAt(cfg, db, n);
    var k := NodeAt(db.nodes, n.id).value;
    StatusRow(cfg, db, n.id, addrs, routes, observed, now);
    StatusKeepsInv(cfg, db, n.id, addrs, routes, observed, now);
    NormalizeExact(cfg.overlay, routes);
    var norm := NormalizeOf(cfg.overlay, routes).value;
    var row := n.(advertised := norm, enabled := StillAdvertised(n.enabled, norm));
    RowReplaced(cfg, db, k, row);
    assert row in t.nodes;
    EnableExact(cfg, t, row, routes);
    OthersAre(cfg, db, t, n, row);
  }

  lemma OthersAre(cfg: Config, db: Db, t: Db, n: Node, row: Node)
    requires Inv(cfg, db) && Inv(cfg, t) && n in db.nodes && row in t.nodes && row.id == n.id && OneRowChanged(db, t, n, row)
    ensures forall m :: m in t.nodes && m != row <==> m in db.nodes && m != n
  {
    forall m | m in db.nodes && m != n ensures m != row {
      NodeIsAt(cfg, db, m);
      NodeIsAt(cfg, db, n);
    }
  }
}
