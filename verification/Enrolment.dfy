/** Which enrolments succeed, over whole runs (handleEnroll in internal/coordinator/node.go, EnrollNode in store.go). */
module Enrolments {
  import opened Net
  import opened Options
  import opened Ipam
  import opened Store
  import opened Netmaps
  import opened Coordinators

  // ---------- a token's history ----------

  /** The step that created a token: the first to ask for it. */
  function CreatedAt(ops: seq<Op>, hash: string): (j: Option<nat>)
    ensures j.Some? ==> j.value < |ops| && ops[j.value].OpToken? && ops[j.value].hash == hash
    ensures j.None? ==> forall i :: 0 <= i < |ops| ==> !(ops[i].OpToken? && ops[i].hash == hash)
  {
    if ops == [] then None
    else
      var before, op := CreatedAt(ops[..|ops| - 1], hash), ops[|ops| - 1];
      if before.Some? then before
      else if op.OpToken? && op.hash == hash then Some(|ops| - 1)
      else None
  }

  /** Some step of the run enrolled a node with this token. */
  ghost predicate SpentBy(cfg: Config, verify: Verifier, ops: seq<Op>, hash: string) {
    exists k: nat :: k < |ops| && EnrolledAt(cfg, verify, ops, k, hash)
  }

  lemma SpentBySnoc(cfg: Config, verify: Verifier, ops: seq<Op>, hash: string)
    requires ops != []
    ensures SpentBy(cfg, verify, ops, hash) <==> SpentBy(cfg, verify, ops[..|ops| - 1], hash) || EnrolledAt(cfg, verify, ops, |ops| - 1, hash)
  {
    var n := |ops| - 1;
    var init := ops[..n];
    forall k: nat | k < n ensures EnrolledAt(cfg, verify, ops, k, hash) <==> EnrolledAt(cfg, verify, init, k, hash) {
      assert init[..k] == ops[..k] && init[k] == ops[k];
    }
  }

  lemma OthersKeepTokens(cfg: Config, verify: Verifier, db: Db, op: Op)
    requires !op.OpToken? && !op.OpEnroll?
    ensures Handle(cfg, verify, db, op).db.tokens == db.tokens
  {
    if op.OpLockSign? {
      SignAllKeepsRest(verify, db, op.sigs);
    } else if op.OpStatus? {
      StatusWrites(cfg, db, op.id, op.addrs, op.routes, op.observed, op.now);
    }
  }

  /** A token is stored as its creating step wrote it, and is used iff some step enrolled with it. */
  ghost predicate TokenIs(cfg: Config, verify: Verifier, ops: seq<Op>, hash: string) {
    var db, j := RunOps(cfg, verify, EMPTY_DB, ops), CreatedAt(ops, hash);
    && (hash in db.tokens <==> j.Some?)
    && (j.Some? ==> db.tokens[hash] == Token(ops[j.value].hint, ops[j.value].expires, db.tokens[hash].used))
    && (j.Some? ==> (db.tokens[hash].used <==> SpentBy(cfg, verify, ops, hash)))
    && (j.None? ==> !SpentBy(cfg, verify, ops, hash))
  }

  lemma {:induction false} TokenHistory(cfg: Config, verify: Verifier, ops: seq<Op>, hash: string)
    ensures TokenIs(cfg, verify, ops, hash)
  {
    if ops != [] {
      var n := |ops| - 1;
      TokenHistory(cfg, verify, ops[..n], hash);
      SpentBySnoc(cfg, verify, ops, hash);
      TokenStep(cfg, verify, ops, hash);
    }
  }

  lemma TokenStep(cfg: Config, verify: Verifier, ops: seq<Op>, hash: string)
    requires ops != [] && TokenIs(cfg, verify, ops[..|ops| - 1], hash)
    requires SpentBy(cfg, verify, ops, hash) <==> SpentBy(cfg, verify, ops[..|ops| - 1], hash) || EnrolledAt(cfg, verify, ops, |ops| - 1, hash)
    ensures TokenIs(cfg, verify, ops, hash)
  {
    var n := |ops| - 1;
    var init, op := ops[..n], ops[n];
    var before := RunOps(cfg, verify, EMPTY_DB, init);
    if op.OpEnroll? {
      EnrolTokens(cfg, before, op.req, op.now, hash);
    } else if !op.OpToken? {
      OthersKeepTokens(cfg, verify, before, op);
    }
  }

  lemma EnrolTokens(cfg: Config, db: Db, req: EnrollRequest, now: int, hash: string)
    ensures var r := Enroll(cfg, db, req, now);
      && (hash in r.db.tokens <==> hash in db.tokens)
      && (hash in db.tokens ==>
            r.db.tokens[hash] == db.tokens[hash].(used := db.tokens[hash].used || (r.ok && req.tokenHash == hash)))
      && (r.ok && req.tokenHash == hash ==> hash in db.tokens)
  {
  }

  // ---------- when an enrolment succeeds ----------

  /** A hub needs the network to be without one, a spoke a free host that is not the hub's. */
  ghost predicate AddressAvailable(cfg: Config, db: Db, role: Role) {
    if role == RoleHub then forall n :: n in db.nodes ==> n.role == RoleNode
    else exists h: Addr :: IsHost(cfg.overlay, h) && h != HubIP(cfg.overlay) && h !in AllocatedIPs(db)
  }

  lemma AddressIff(cfg: Config, db: Db, role: Role)
    ensures EnrollIp(cfg, db, role).Some? <==> AddressAvailable(cfg, db, role)
  {
    HubOfMembers(db.nodes);
    LeastFreeIsLeast(cfg.overlay, AllocatedIPs(db) + {HubIP(cfg.overlay)});
    if HubOf(db.nodes).Some? {
      assert HubOf(db.nodes).value in db.nodes;
    }
  }

  /** The address chosen is in no row, so only the id and the key can be taken. */
  lemma InsertableIff(cfg: Config, db: Db, role: Role, id: string, key: string)
    requires Inv(cfg, db) && EnrollIp(cfg, db, role).Some?
    ensures Insertable(db.nodes, id, key, EnrollIp(cfg, db, role).value) <==> forall n :: n in db.nodes ==> n.id != id && n.key != key
  {
    AllocationIsNew(cfg, db);
    HubOfMembers(db.nodes);
    forall i | 0 <= i < |db.nodes| ensures db.nodes[i].ip != EnrollIp(cfg, db, role).value {
      assert db.nodes[i] in db.nodes && NodeOk(cfg, db.nodes[i]);
    }
    if forall n :: n in db.nodes ==> n.id != id && n.key != key {
      forall i | 0 <= i < |db.nodes| ensures db.nodes[i].id != id && db.nodes[i].key != key {
        assert db.nodes[i] in db.nodes;
      }
    }
  }

  /**
   * After any run from the empty coordinator, an enrolment succeeds iff its token
   * was created with an expiry still ahead, no enrolment has used it, an address
   * is available, and neither its id nor its key is stored.
   */
  lemma EnrolIff(cfg: Config, verify: Verifier, ops: seq<Op>, req: EnrollRequest, now: int)
    ensures var db, j := RunOps(cfg, verify, EMPTY_DB, ops), CreatedAt(ops, req.tokenHash);
      Enroll(cfg, db, req, now).ok <==>
        && j.Some? && ops[j.value].expires > now && !SpentBy(cfg, verify, ops, req.tokenHash)
        && AddressAvailable(cfg, db, req.role)
        && forall n :: n in db.nodes ==> n.id != req.id && n.key != req.key
  {
    var db := RunOps(cfg, verify, EMPTY_DB, ops);
    TokenHistory(cfg, verify, ops, req.tokenHash);
    ReachableInv(cfg, verify, ops);
    AddressIff(cfg, db, req.role);
    if EnrollIp(cfg, db, req.role).Some? {
      InsertableIff(cfg, db, req.role, req.id, req.key);
    }
  }

  /**
   * And then it adds one row: the request's id, key, os and role, the token's
   * hint as its name if it has one, the reserved address for a hub and the least
   * free one for a spoke, nothing signed, tagged or routed, and approved iff
   * approval is off or it is the hub.
   */
  lemma EnrolledRow(cfg: Config, verify: Verifier, ops: seq<Op>, req: EnrollRequest, now: int)
    requires Enroll(cfg, RunOps(cfg, verify, EMPTY_DB, ops), req, now).ok
    ensures CreatedAt(ops, req.tokenHash).Some?
    ensures var db := RunOps(cfg, verify, EMPTY_DB, ops);
      var t, token := Enroll(cfg, db, req, now).db, ops[CreatedAt(ops, req.tokenHash).value];
      && |t.nodes| == |db.nodes| + 1 && t.nodes[..|db.nodes|] == db.nodes && t.version == db.version + 1
      && t == db.(nodes := t.nodes, tokens := t.tokens, version := t.version)
      && var n := t.nodes[|db.nodes|];
         && n.id == req.id && n.key == req.key && n.os == req.os && n.role == req.role
         && n.name == (if token.hint != "" then token.hint else req.hostname)
         && (n.approved <==> !cfg.requireApproval || req.role == RoleHub)
         && n.lockSig == "" && n.tags == [] && n.advertised == [] && n.enabled == []
         && (req.role == RoleHub ==> n.ip == HubIP(cfg.overlay))
         && (req.role == RoleNode ==> IsHost(cfg.overlay, n.ip) && n.ip !in AllocatedIPs(db) && n.ip != HubIP(cfg.overlay))
         && (req.role == RoleNode ==> forall h: Addr :: IsHost(cfg.overlay, h) && h < n.ip ==> h in AllocatedIPs(db) || h == HubIP(cfg.overlay))
  {
    TokenHistory(cfg, verify, ops, req.tokenHash);
    LeastFreeIsLeast(cfg.overlay, AllocatedIPs(RunOps(cfg, verify, EMPTY_DB, ops)) + {HubIP(cfg.overlay)});
  }
}
