/** The network lock from arming to enforcement (internal/coordinator/lock.go, internal/agent/lock.go). */
module Locks {
  import opened Net
  import opened Options
  import opened Ipam
  import opened Store
  import opened Netmaps
  import opened Coordinators
  import opened Agents

  /** Every stored signature verifies for its device's current key and address under this lock key. */
  ghost predicate SigsUnder(verify: Verifier, db: Db, lockKey: string) {
    && (forall i :: 0 <= i < |db.nodes| && db.nodes[i].lockSig != "" ==>
          verify(lockKey, db.nodes[i].key, db.nodes[i].ip, db.nodes[i].lockSig))
    && (forall i :: 0 <= i < |db.statics| && db.statics[i].lockSig != "" ==>
          verify(lockKey, db.statics[i].key, db.statics[i].ip, db.statics[i].lockSig))
  }

  ghost predicate NoSigs(db: Db) {
    (forall i :: 0 <= i < |db.nodes| ==> db.nodes[i].lockSig == "") && (forall i :: 0 <= i < |db.statics| ==> db.statics[i].lockSig == "")
  }

  /** `last` is the lock key armed most recently. */
  ghost predicate LockInv(verify: Verifier, db: Db, last: string) {
    && SigsUnder(verify, db, last)
    && (db.lockKey != "" ==> db.lockKey == last)
    && (db.lockActive ==> db.lockKey != "")
  }

  /** Arming from the disabled state reuses the last key, unless nothing is signed. */
  ghost predicate Disciplined(db: Db, last: string, op: Op) {
    op.OpLockInit? && db.lockKey == "" ==> op.key == last || NoSigs(db)
  }

  function LastKey(cfg: Config, verify: Verifier, db: Db, last: string, op: Op): string {
    if op.OpLockInit? && Handle(cfg, verify, db, op).ok then op.key else last
  }

  lemma EnrollKeepsLock(cfg: Config, verify: Verifier, db: Db, last: string, req: EnrollRequest, now: int)
    requires LockInv(verify, db, last)
    ensures LockInv(verify, Enroll(cfg, db, req, now).db, last)
  {
  }

  lemma {:induction false} SignAllKeepsLock(verify: Verifier, db: Db, last: string, sigs: seq<LockSignature>)
    requires LockInv(verify, db, last) && db.lockKey != ""
    ensures LockInv(verify, SignAll(verify, db, sigs).db, last)
    ensures SignAll(verify, db, sigs).db.lockKey == db.lockKey
  {
    if sigs != [] {
      SignAllKeepsLock(verify, db, last, sigs[..|sigs| - 1]);
      var before := SignAll(verify, db, sigs[..|sigs| - 1]);
      if before.ok {
        SignOneKeepsLock(verify, before.db, last, sigs[|sigs| - 1]);
      }
    }
  }

  lemma SignOneKeepsLock(verify: Verifier, db: Db, last: string, s: LockSignature)
    requires LockInv(verify, db, last) && db.lockKey != ""
    ensures var r := SignOne(verify, db, s); r.Some? ==> LockInv(verify, r.value, last) && r.value.lockKey == db.lockKey
  {
  }

  /** Replacing one node row by one with the same signed binding, or unsigned. */
  lemma NodeUpdateKeepsLock(verify: Verifier, db: Db, last: string, i: nat, n: Node)
    requires LockInv(verify, db, last) && i < |db.nodes|
    requires n.lockSig == "" || (n.key == db.nodes[i].key && n.ip == db.nodes[i].ip && n.lockSig == db.nodes[i].lockSig)
    ensures LockInv(verify, WithNode(db, i, n), last)
  {
  }

  /** LockInv reads the device tables and the lock settings only. */
  lemma SameLockTables(verify: Verifier, db: Db, db': Db, last: string)
    requires LockInv(verify, db, last)
    requires db'.nodes == db.nodes && db'.statics == db.statics && db'.lockKey == db.lockKey && db'.lockActive == db.lockActive
    ensures LockInv(verify, db', last)
  {
  }

  lemma RowUpdateKeepsLock(verify: Verifier, db: Db, db': Db, last: string, i: nat)
    requires LockInv(verify, db, last) && i < |db.nodes| == |db'.nodes|
    requires db'.nodes == db.nodes[i := db'.nodes[i]]
    requires db'.statics == db.statics && db'.lockKey == db.lockKey && db'.lockActive == db.lockActive
    requires var n, n' := db.nodes[i], db'.nodes[i];
      n'.lockSig == "" || (n'.key == n.key && n'.ip == n.ip && n'.lockSig == n.lockSig)
    ensures LockInv(verify, db', last)
  {
    NodeUpdateKeepsLock(verify, db, last, i, db'.nodes[i]);
    SameLockTables(verify, WithNode(db, i, db'.nodes[i]), db', last);
  }

  lemma DeleteNodeKeepsLock(verify: Verifier, db: Db, last: string, id: string)
    requires LockInv(verify, db, last)
    ensures LockInv(verify, DeleteNode(db, id).db, last)
  {
    var at, db' := NodeAt(db.nodes, id), DeleteNode(db, id).db;
    if at.Some? {
      assert forall j :: 0 <= j < |db'.nodes| ==> db'.nodes[j] == db.nodes[if j < at.value then j else j + 1];
    }
  }

  lemma RekeyKeepsLock(verify: Verifier, db: Db, last: string, id: string, key: string)
    requires LockInv(verify, db, last)
    ensures LockInv(verify, Rekey(db, id, key).db, last)
  {
    var at := NodeAt(db.nodes, id);
    if at.Some? {
      RowUpdateKeepsLock(verify, db, Rekey(db, id, key).db, last, at.value);
    }
  }

  lemma RoutesKeepLock(cfg: Config, verify: Verifier, db: Db, last: string, id: string, routes: seq<Option<Prefix>>)
    requires LockInv(verify, db, last)
    ensures LockInv(verify, EnableRoutes(cfg, db, id, routes).db, last)
  {
    var at := NodeAt(db.nodes, id);
    if at.Some? {
      RowUpdateKeepsLock(verify, db, EnableRoutes(cfg, db, id, routes).db, last, at.value);
    }
  }

  lemma StatusKeepsLock(cfg: Config, verify: Verifier, db: Db, last: string, id: string, addrs: seq<string>, routes: seq<Option<Prefix>>,
                        observed: seq<Observation>, now: int)
    requires LockInv(verify, db, last)
    ensures LockInv(verify, Status(cfg, db, id, addrs, routes, observed, now).db, last)
  {
    var at := NodeAt(db.nodes, id);
    StatusWrites(cfg, db, id, addrs, routes, observed, now);
    if at.Some? {
      RowUpdateKeepsLock(verify, db, Status(cfg, db, id, addrs, routes, observed, now).db, last, at.value);
    }
  }

  lemma TagsAndApprovalKeepLock(verify: Verifier, db: Db, last: string, id: string, tags: seq<string>)
    requires LockInv(verify, db, last)
    ensures LockInv(verify, Approve(db, id).db, last)
    ensures LockInv(verify, TagNode(db, id, tags).db, last)
  {
    var at := NodeAt(db.nodes, id);
    if at.Some? {
      RowUpdateKeepsLock(verify, db, Approve(db, id).db, last, at.value);
      RowUpdateKeepsLock(verify, db, TagNode(db, id, tags).db, last, at.value);
    }
  }

  lemma DeleteStaticKeepsLock(verify: Verifier, db: Db, last: string, id: string)
    requires LockInv(verify, db, last)
    ensures LockInv(verify, DeleteStatic(db, id).db, last)
  {
    var at, db' := StaticAt(db.statics, id), DeleteStatic(db, id).db;
    if at.Some? {
      assert forall j :: 0 <= j < |db'.statics| ==> db'.statics[j] == db.statics[if j < at.value then j else j + 1];
    }
  }

  lemma StaticsKeepLock(cfg: Config, verify: Verifier, db: Db, last: string, id: string, name: string, key: string, tags: seq<string>)
    requires LockInv(verify, db, last)
    ensures LockInv(verify, CreateStatic(cfg, db, id, name, key).db, last)
    ensures LockInv(verify, TagStatic(db, id, tags).db, last)
  {
  }

  lemma InitKeepsLock(verify: Verifier, db: Db, last: string, key: string)
    requires LockInv(verify, db, last) && (db.lockKey == "" ==> key == last || NoSigs(db))
    ensures LockInv(verify, LockInit(db, key).db, if LockInit(db, key).ok then key else last)
  {
  }

  lemma SignKeepsLock(verify: Verifier, db: Db, last: string, sigs: seq<LockSignature>)
    requires LockInv(verify, db, last)
    ensures LockInv(verify, LockSign(verify, db, sigs).db, last)
  {
    if db.lockKey != "" {
      SignAllKeepsLock(verify, db, last, sigs);
    }
  }

  lemma NodeHandlersKeepLock(cfg: Config, verify: Verifier, db: Db, last: string, op: Op)
    requires LockInv(verify, db, last)
    requires op.OpEnroll? || op.OpRekey? || op.OpRoutes? || op.OpStatus? || op.OpApprove? || op.OpTagNode? || op.OpDeleteNode?
    ensures LockInv(verify, Handle(cfg, verify, db, op).db, last)
  {
    match op
    case OpEnroll(req, now) => EnrollKeepsLock(cfg, verify, db, last, req, now);
    case OpRekey(id, key) => RekeyKeepsLock(verify, db, last, id, key);
    case OpRoutes(id, routes) => RoutesKeepLock(cfg, verify, db, last, id, routes);
    case OpStatus(id, addrs, routes, observed, now) => StatusKeepsLock(cfg, verify, db, last, id, addrs, routes, observed, now);
    case OpApprove(id) => TagsAndApprovalKeepLock(verify, db, last, id, []);
    case OpTagNode(id, tags) => TagsAndApprovalKeepLock(verify, db, last, id, tags);
    case OpDeleteNode(id) => DeleteNodeKeepsLock(verify, db, last, id);
  }

  lemma OtherHandlersKeepLock(cfg: Config, verify: Verifier, db: Db, last: string, op: Op)
    requires LockInv(verify, db, last) && !WritesDevices(op)
    ensures LockInv(verify, Handle(cfg, verify, db, op).db, last)
  {
    if !op.OpLockDisable? {
      SameLockTables(verify, db, Handle(cfg, verify, db, op).db, last);
    }
  }

  /** Signing, rekeying, enrolling, deleting and disciplined re-arming keep all signatures valid. */
  lemma HandleKeepsLock(cfg: Config, verify: Verifier, db: Db, last: string, op: Op)
    requires LockInv(verify, db, last) && Disciplined(db, last, op)
    ensures LockInv(verify, Handle(cfg, verify, db, op).db, LastKey(cfg, verify, db, last, op))
  {
    if !WritesDevices(op) {
      OtherHandlersKeepLock(cfg, verify, db, last, op);
    } else {
      match op
      case OpStatic(id, name, key) => StaticsKeepLock(cfg, verify, db, last, id, name, key, []);
      case OpTagStatic(id, tags) => StaticsKeepLock(cfg, verify, db, last, id, "", "", tags);
      case OpDeleteStatic(id) => DeleteStaticKeepsLock(verify, db, last, id);
      case OpLockInit(key) => InitKeepsLock(verify, db, last, key);
      case OpLockSign(sigs) => SignKeepsLock(verify, db, last, sigs);
      case _ => NodeHandlersKeepLock(cfg, verify, db, last, op);
    }
  }

  /** The key armed last in a run. */
  function LastOf(cfg: Config, verify: Verifier, ops: seq<Op>): string {
    if ops == [] then ""
    else
      var init := ops[..|ops| - 1];
      LastKey(cfg, verify, RunOps(cfg, verify, EMPTY_DB, init), LastOf(cfg, verify, init), ops[|ops| - 1])
  }

  ghost predicate DisciplinedRun(cfg: Config, verify: Verifier, ops: seq<Op>) {
    ops == [] ||
    var init := ops[..|ops| - 1];
    DisciplinedRun(cfg, verify, init) && Disciplined(RunOps(cfg, verify, EMPTY_DB, init), LastOf(cfg, verify, init), ops[|ops| - 1])
  }

  /** In every disciplined run, every stored signature is valid under the armed key. */
  lemma {:induction false} LockRuns(cfg: Config, verify: Verifier, ops: seq<Op>)
    requires DisciplinedRun(cfg, verify, ops)
    ensures LockInv(verify, RunOps(cfg, verify, EMPTY_DB, ops), LastOf(cfg, verify, ops))
  {
    if ops != [] {
      var init := ops[..|ops| - 1];
      LockRuns(cfg, verify, init);
      HandleKeepsLock(cfg, verify, RunOps(cfg, verify, EMPTY_DB, init), LastOf(cfg, verify, init), ops[|ops| - 1]);
    }
  }

  // ---------- an active lock holds ----------

  ghost predicate ActiveUnder(db: Db, key: string) { db.lockActive && db.lockKey == key && key != "" }

  lemma StepKeepsActive(cfg: Config, verify: Verifier, db: Db, op: Op, key: string)
    requires ActiveUnder(db, key) && !op.OpLockDisable?
    ensures ActiveUnder(Handle(cfg, verify, db, op).db, key)
  {
    if op.OpLockSign? {
      SignAllKeepsRest(verify, db, op.sigs);
    } else if op.OpStatus? {
      StatusWrites(cfg, db, op.id, op.addrs, op.routes, op.observed, op.now);
    }
  }

  lemma {:induction false} RunKeepsActive(cfg: Config, verify: Verifier, db: Db, ops: seq<Op>, key: string)
    requires ActiveUnder(db, key) && forall i :: 0 <= i < |ops| ==> !ops[i].OpLockDisable?
    ensures ActiveUnder(RunOps(cfg, verify, db, ops), key)
  {
    if ops != [] {
      RunKeepsActive(cfg, verify, db, ops[..|ops| - 1], key);
      StepKeepsActive(cfg, verify, RunOps(cfg, verify, db, ops[..|ops| - 1]), ops[|ops| - 1], key);
    }
  }

  /** Nothing but disabling it changes an active lock: whatever else happens, an agent that pinned its key is never refused. */
  lemma PinnedStayServed(lower: char -> char, cfg: Config, verify: Verifier, env: Env, db: Db, ops: seq<Op>, self: Node, now: int, saveOk: bool)
    requires db.lockActive && db.lockKey != "" && env.lockKeyOk(db.lockKey) && forall i :: 0 <= i < |ops| ==> !ops[i].OpLockDisable?
    ensures var nm := NetmapFor(lower, cfg, self, ViewOf(RunOps(cfg, verify, db, ops), now));
      nm.Some? ==> nm.value.lockKey == db.lockKey && Enforce(env, db.lockKey, nm.value, saveOk).nm.Some?
  {
    RunKeepsActive(cfg, verify, db, ops, db.lockKey);
  }

  // ---------- activation ----------

  /** Coordinator and agent verify the same way. */
  ghost predicate SameScheme(env: Env, verify: Verifier) {
    forall k: string, key: string, ip: Addr, sig: string ::
      env.verify(k, LockMessage(key, ip), sig) == verify(k, key, ip, sig)
  }

  /** With everything signed, every peer of any netmap passes the agents' check. */
  lemma NetmapPeersVerified(env: Env, verify: Verifier, lower: char -> char, cfg: Config, db: Db, last: string, self: Node, now: int)
    requires SameScheme(env, verify) && LockInv(verify, db, last) && NothingPending(db) && db.lockKey != ""
    requires NetmapFor(lower, cfg, self, ViewOf(db, now)).Some?
    ensures forall p :: p in NetmapFor(lower, cfg, self, ViewOf(db, now)).value.peers ==> Verified(env, db.lockKey, p)
  {
    var v := ViewOf(db, now);
    var candidates := CandidatesFor(self, v);
    var peers := PeersOf(cfg, self, v.nodes, v.statics, candidates).value;
    forall p | p in peers ensures Verified(env, db.lockKey, p) {
      PeersComeFromRows(cfg, self, v.nodes, v.statics, candidates, p);
      SignedRowVerifies(env, verify, db, last, p);
    }
  }

  lemma SignedRowVerifies(env: Env, verify: Verifier, db: Db, last: string, p: Peer)
    requires SameScheme(env, verify) && LockInv(verify, db, last) && NothingPending(db) && db.lockKey != ""
    requires FromNode(p, ApprovedOf(db.nodes)) || FromStatic(p, db.statics)
    ensures Verified(env, db.lockKey, p)
  {
    ApprovedMembers(db.nodes);
    if FromNode(p, ApprovedOf(db.nodes)) {
      var n :| n in ApprovedOf(db.nodes) && p.key == n.key && p.ip == n.ip && p.lockSig == n.lockSig;
      assert n in db.nodes;
      var i :| 0 <= i < |db.nodes| && db.nodes[i] == n;
      assert verify(db.lockKey, n.key, n.ip, n.lockSig);
    } else {
      var s :| s in db.statics && p.key == s.key && p.ip == s.ip && p.lockSig == s.lockSig;
      var i :| 0 <= i < |db.statics| && db.statics[i] == s;
      assert verify(db.lockKey, s.key, s.ip, s.lockSig);
    }
  }

  /** With valid signatures, a sign request that activates the lock leaves nothing unsigned. */
  lemma ActivationSigned(verify: Verifier, db: Db, last: string, sigs: seq<LockSignature>)
    requires LockInv(verify, db, last) && !db.lockActive && LockSign(verify, db, sigs).db.lockActive
    ensures LockSign(verify, db, sigs).ok
    ensures var t := LockSign(verify, db, sigs).db; NothingPending(t) && LockInv(verify, t, last) && t.lockKey == db.lockKey != ""
  {
    SignAllKeepsActive(verify, db, sigs);
    if db.lockKey != "" {
      SignAllKeepsLock(verify, db, last, sigs);
    }
  }

  /** Fully signed tables: any netmap passes an agent with an empty or equal pin whole. */
  lemma SignedNetmapKept(env: Env, verify: Verifier, lower: char -> char, cfg: Config, db: Db, last: string, self: Node, now: int, pin: string)
    requires SameScheme(env, verify) && LockInv(verify, db, last) && NothingPending(db) && db.lockActive
    requires (pin == "" || pin == db.lockKey) && env.lockKeyOk(db.lockKey)
    ensures var nm := NetmapFor(lower, cfg, self, ViewOf(db, now));
      nm.Some? ==> Enforce(env, pin, nm.value, true).nm == nm && Enforce(env, pin, nm.value, true).pin == db.lockKey
  {
    var nm := NetmapFor(lower, cfg, self, ViewOf(db, now));
    if nm.Some? {
      NetmapPeersVerified(env, verify, lower, cfg, db, last, self, now);
      AllVerifiedKept(env, db.lockKey, nm.value.peers);
    }
  }

  /**
   * Arming loses nobody: in a disciplined run, at the step that activates the
   * lock, every netmap an agent with an empty or equal pin receives keeps all
   * its peers.
   */
  lemma ActivationLosesNobody(env: Env, verify: Verifier, lower: char -> char, cfg: Config, ops: seq<Op>, sigs: seq<LockSignature>,
                              self: Node, now: int, pin: string)
    requires SameScheme(env, verify) && DisciplinedRun(cfg, verify, ops)
    requires var db := RunOps(cfg, verify, EMPTY_DB, ops);
      !db.lockActive && LockSign(verify, db, sigs).db.lockActive
    ensures var db := LockSign(verify, RunOps(cfg, verify, EMPTY_DB, ops), sigs).db;
      var nm := NetmapFor(lower, cfg, self, ViewOf(db, now));
      nm.Some? && (pin == "" || pin == db.lockKey) && env.lockKeyOk(db.lockKey) ==>
        Enforce(env, pin, nm.value, true).nm == nm && Enforce(env, pin, nm.value, true).pin == db.lockKey
  {
    LockRuns(cfg, verify, ops);
    var db0, last := RunOps(cfg, verify, EMPTY_DB, ops), LastOf(cfg, verify, ops);
    ActivationSigned(verify, db0, last, sigs);
    var db := LockSign(verify, db0, sigs).db;
    if (pin == "" || pin == db.lockKey) && env.lockKeyOk(db.lockKey) {
      SignedNetmapKept(env, verify, lower, cfg, db, last, self, now, pin);
    }
  }

  lemma {:induction false} SignAllKeepsActive(verify: Verifier, db: Db, sigs: seq<LockSignature>)
    ensures SignAll(verify, db, sigs).db.lockActive == db.lockActive
  {
    if sigs != [] {
      SignAllKeepsActive(verify, db, sigs[..|sigs| - 1]);
    }
  }

  // ---------- re-arming with another key ----------

  /** The two lock keys are one, or no stored signature verifies under both. */
  ghost predicate Separated(verify: Verifier, db: Db, k0: string, k1: string) {
    k0 == k1 ||
    ((forall i :: 0 <= i < |db.nodes| && db.nodes[i].lockSig != "" ==>
        !(verify(k0, db.nodes[i].key, db.nodes[i].ip, db.nodes[i].lockSig) && verify(k1, db.nodes[i].key, db.nodes[i].ip, db.nodes[i].lockSig))) &&
     (forall i :: 0 <= i < |db.statics| && db.statics[i].lockSig != "" ==>
        !(verify(k0, db.statics[i].key, db.statics[i].ip, db.statics[i].lockSig) && verify(k1, db.statics[i].key, db.statics[i].ip, db.statics[i].lockSig))))
  }

  /**
   * Exactly when re-arming after a disable is safe: the same key as before, or
   * no signature left over. Arming does not clear signatures in that state.
   */
  lemma RearmExact(verify: Verifier, db: Db, k0: string, k1: string)
    requires Separated(verify, db, k0, k1) && SigsUnder(verify, db, k0) && db.lockKey == "" && k1 != ""
    ensures SigsUnder(verify, LockInit(db, k1).db, k1) <==> k1 == k0 || NoSigs(db)
  {
    var db' := LockInit(db, k1).db;
    if SigsUnder(verify, db', k1) && !NoSigs(db) {
      if i :| 0 <= i < |db.nodes| && db.nodes[i].lockSig != "" {
        assert verify(k0, db.nodes[i].key, db.nodes[i].ip, db.nodes[i].lockSig) && verify(k1, db.nodes[i].key, db.nodes[i].ip, db.nodes[i].lockSig);
      } else {
        var i :| 0 <= i < |db.statics| && db.statics[i].lockSig != "";
        assert verify(k0, db.statics[i].key, db.statics[i].ip, db.statics[i].lockSig) && verify(k1, db.statics[i].key, db.statics[i].ip, db.statics[i].lockSig);
      }
    }
  }

  lemma {:induction false} NoneVerified(env: Env, pin: string, peers: seq<Peer>)
    requires forall p :: p in peers ==> !Verified(env, pin, p)
    ensures VerifiedPeers(env, pin, peers) == []
  {
    if peers != [] {
      assert peers[|peers| - 1] in peers;
      NoneVerified(env, pin, peers[..|peers| - 1]);
    }
  }

  /**
   * What goes wrong otherwise: with everything signed under k0, disabling and
   * arming k1 lets an empty sign request activate k1, and agents that pin it
   * drop every peer of every netmap.
   */
  lemma RearmDropsEveryone(env: Env, verify: Verifier, lower: char -> char, cfg: Config, db: Db, k0: string, k1: string, self: Node, now: int)
    requires SameScheme(env, verify) && Separated(verify, db, k0, k1)
    requires SigsUnder(verify, db, k0) && NothingPending(db) && db.lockKey == "" && k1 != "" && k1 != k0
    ensures var r := LockSign(verify, LockInit(db, k1).db, []);
      var nm := NetmapFor(lower, cfg, self, ViewOf(r.db, now));
      && r.ok && r.db.lockActive && r.db.lockKey == k1
      && (nm.Some? && env.lockKeyOk(k1) ==> Enforce(env, "", nm.value, true) == LockOutcome(k1, true, Some(nm.value.(peers := []))))
  {
    var db1 := LockSign(verify, LockInit(db, k1).db, []).db;
    var v := ViewOf(db1, now);
    var nm := NetmapFor(lower, cfg, self, v);
    if nm.Some? {
      var candidates := CandidatesFor(self, v);
      forall p | p in nm.value.peers ensures !Verified(env, k1, p) {
        PeersComeFromRows(cfg, self, v.nodes, v.statics, candidates, p);
        StaleRowFails(env, verify, db1, k0, k1, p);
      }
      NoneVerified(env, k1, nm.value.peers);
    }
  }

  lemma StaleRowFails(env: Env, verify: Verifier, db: Db, k0: string, k1: string, p: Peer)
    requires SameScheme(env, verify) && Separated(verify, db, k0, k1) && SigsUnder(verify, db, k0) && NothingPending(db) && k1 != k0
    requires FromNode(p, ApprovedOf(db.nodes)) || FromStatic(p, db.statics)
    ensures !Verified(env, k1, p)
  {
    ApprovedMembers(db.nodes);
    if FromNode(p, ApprovedOf(db.nodes)) {
      var n :| n in ApprovedOf(db.nodes) && p.key == n.key && p.ip == n.ip && p.lockSig == n.lockSig;
      assert n in db.nodes;
      var i :| 0 <= i < |db.nodes| && db.nodes[i] == n;
      assert verify(k0, n.key, n.ip, n.lockSig);
    } else {
      var s :| s in db.statics && p.key == s.key && p.ip == s.ip && p.lockSig == s.lockSig;
      var i :| 0 <= i < |db.statics| && db.statics[i] == s;
      assert verify(k0, s.key, s.ip, s.lockSig);
    }
  }

  // A run into that state, for any verifier with a signature that tells two keys apart.

  function SigningRun(a: string, sig: string): seq<Op> { HubRun() + [OpLockInit(a)] + [OpLockSign([LockSignature(true, "n", sig)])] }

  function RearmRun(a: string, b: string, sig: string): seq<Op> {
    SigningRun(a, sig) + [OpLockDisable] + [OpLockInit(b)] + [OpLockSign([])]
  }

  /** The hub alone, signed. */
  ghost predicate HubSigned(cfg: Config, db: Db, sig: string) {
    |db.nodes| == 1 && db.nodes[0].key == "wg" && db.nodes[0].ip == HubIP(cfg.overlay) && db.nodes[0].lockSig == sig && db.statics == []
  }

  lemma RearmSigned(cfg: Config, verify: Verifier, a: string, sig: string)
    requires a != "" && verify(a, "wg", HubIP(cfg.overlay), sig)
    ensures HubSigned(cfg, RunOps(cfg, verify, EMPTY_DB, SigningRun(a, sig)), sig)
  {
    var ops := HubRun();
    HubRunReaches(cfg, verify);
    RunSnoc(cfg, verify, ops, OpLockInit(a));
    RunSnoc(cfg, verify, ops + [OpLockInit(a)], OpLockSign([LockSignature(true, "n", sig)]));
    ArmAndSign(cfg, verify, RunOps(cfg, verify, EMPTY_DB, ops), a, sig);
  }

  lemma ArmAndSign(cfg: Config, verify: Verifier, db: Db, a: string, sig: string)
    requires HubAlone(cfg, db) && a != "" && verify(a, "wg", HubIP(cfg.overlay), sig)
    ensures HubSigned(cfg, LockSign(verify, LockInit(db, a).db, [LockSignature(true, "n", sig)]).db, sig)
  {
    var armed, s := LockInit(db, a).db, LockSignature(true, "n", sig);
    assert [s][..0] == [] && NodeAt(armed.nodes, "n") == Some(0);
    assert SignAll(verify, armed, [s]) == Outcome(WithNode(armed, 0, armed.nodes[0].(lockSig := sig)), true);
  }

  /** The run reaches an active lock whose stored signature does not verify. */
  lemma RearmWitness(cfg: Config, verify: Verifier, a: string, b: string, sig: string)
    requires a != "" && b != "" && sig != ""
    requires verify(a, "wg", HubIP(cfg.overlay), sig) && !verify(b, "wg", HubIP(cfg.overlay), sig)
    ensures var db := RunOps(cfg, verify, EMPTY_DB, RearmRun(a, b, sig));
      db.lockActive && db.lockKey == b && !SigsUnder(verify, db, b)
  {
    var ops := SigningRun(a, sig);
    RearmSigned(cfg, verify, a, sig);
    RunSnoc(cfg, verify, ops, OpLockDisable);
    RunSnoc(cfg, verify, ops + [OpLockDisable], OpLockInit(b));
    RunSnoc(cfg, verify, ops + [OpLockDisable] + [OpLockInit(b)], OpLockSign([]));
    RearmTail(cfg, verify, RunOps(cfg, verify, EMPTY_DB, ops), b, sig);
  }

  lemma RearmTail(cfg: Config, verify: Verifier, db: Db, b: string, sig: string)
    requires HubSigned(cfg, db, sig) && b != "" && sig != "" && !verify(b, "wg", HubIP(cfg.overlay), sig)
    ensures var r := LockSign(verify, LockInit(LockDisable(db).db, b).db, []).db;
      r.lockActive && r.lockKey == b && !SigsUnder(verify, r, b)
  {
    var r := LockSign(verify, LockInit(LockDisable(db).db, b).db, []).db;
    assert r.nodes == db.nodes && r.nodes[0].lockSig == sig;
  }
}
