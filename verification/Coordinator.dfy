/** The coordinator's handlers as atomic steps over its tables (node.go, staticpeer.go, store.go). */
module Coordinators {
  import opened Text
  import opened Net
  import opened Options
  import opened Ipam
  import opened Rules
  import opened Store
  import opened Routes
  import opened Netmaps

  datatype Token = Token(hint: string, expires: int, used: bool)

  datatype Db = Db(
    nodes: seq<Node>, statics: seq<StaticPeer>, tokens: map<string, Token>, policies: seq<Policy>,
    endpoints: map<string, seq<Endpoint>>, lockKey: string, lockActive: bool, version: int)

  const EMPTY_DB := Db([], [], map[], [], map[], "", false, 1)

  /** A handler's outcome: the tables afterwards and whether it succeeded. */
  datatype Outcome = Outcome(db: Db, ok: bool)

  function Refuse(db: Db): Outcome { Outcome(db, false) }

  function Bumped(db: Db): Db { db.(version := db.version + 1) }

  // ---------- lookups ----------

  function NodeAt(nodes: seq<Node>, id: string): (i: Option<nat>)
    ensures i.Some? ==> i.value < |nodes| && nodes[i.value].id == id
    ensures i.None? ==> forall j :: 0 <= j < |nodes| ==> nodes[j].id != id
  {
    if nodes == [] then None
    else if nodes[|nodes| - 1].id == id then Some(|nodes| - 1)
    else NodeAt(nodes[..|nodes| - 1], id)
  }

  function StaticAt(statics: seq<StaticPeer>, id: string): (i: Option<nat>)
    ensures i.Some? ==> i.value < |statics| && statics[i.value].id == id
    ensures i.None? ==> forall j :: 0 <= j < |statics| ==> statics[j].id != id
  {
    if statics == [] then None
    else if statics[|statics| - 1].id == id then Some(|statics| - 1)
    else StaticAt(statics[..|statics| - 1], id)
  }

  function AllocatedIPs(db: Db): set<Addr> {
    (set n | n in db.nodes :: n.ip) + (set p | p in db.statics :: p.ip)
  }

  /** The least free host, with the hub's address reserved even before it enrols. */
  function Allocation(cfg: Config, db: Db): Option<Addr> {
    LeastFree(cfg.overlay, AllocatedIPs(db) + {HubIP(cfg.overlay)})
  }

  // ---------- enrolment ----------

  datatype EnrollRequest = EnrollRequest(tokenHash: string, id: string, hostname: string, os: string, role: Role, key: string)

  predicate TokenUsable(db: Db, hash: string, now: int) {
    hash in db.tokens && !db.tokens[hash].used && db.tokens[hash].expires > now
  }

  function EnrollIp(cfg: Config, db: Db, role: Role): Option<Addr> {
    if role == RoleHub then (if HubOf(db.nodes).Some? then None else Some(HubIP(cfg.overlay)))
    else Allocation(cfg, db)
  }

  /** The UNIQUE columns of the nodes table admit this row. */
  predicate Insertable(nodes: seq<Node>, id: string, key: string, ip: Addr) {
    forall i :: 0 <= i < |nodes| ==> nodes[i].id != id && nodes[i].key != key && nodes[i].ip != ip
  }

  function EnrolledNode(cfg: Config, db: Db, req: EnrollRequest, ip: Addr): Node
    requires req.tokenHash in db.tokens
  {
    var hint := db.tokens[req.tokenHash].hint;
    Node(req.id, if hint != "" then hint else req.hostname, req.os, req.role, req.key, ip, [], [], "",
         !cfg.requireApproval || req.role == RoleHub, [])
  }

  function Enroll(cfg: Config, db: Db, req: EnrollRequest, now: int): Outcome {
    var ip := EnrollIp(cfg, db, req.role);
    if ip.None? || !TokenUsable(db, req.tokenHash, now) || !Insertable(db.nodes, req.id, req.key, ip.value) then Refuse(db)
    else
      var tok := db.tokens[req.tokenHash];
      Outcome(Bumped(db.(tokens := db.tokens[req.tokenHash := tok.(used := true)],
                         nodes := db.nodes + [EnrolledNode(cfg, db, req, ip.value)])), true)
  }

  function CreateToken(db: Db, hash: string, hint: string, expires: int): Outcome {
    if hash in db.tokens then Refuse(db)
    else Outcome(db.(tokens := db.tokens[hash := Token(hint, expires, false)]), true)
  }

  // ---------- node handlers ----------

  function WithNode(db: Db, i: nat, n: Node): Db
    requires i < |db.nodes|
  {
    db.(nodes := db.nodes[i := n])
  }

  predicate KeyTaken(nodes: seq<Node>, id: string, key: string) {
    exists j :: 0 <= j < |nodes| && nodes[j].id != id && nodes[j].key == key
  }

  /** A new key clears the lock signature, which covered the old one. */
  function Rekey(db: Db, id: string, key: string): Outcome {
    match NodeAt(db.nodes, id)
    case None => Refuse(db)
    case Some(i) =>
      if db.nodes[i].key == key then Outcome(db, true)
      else if KeyTaken(db.nodes, id, key) then Refuse(db)
      else Outcome(Bumped(WithNode(db, i, db.nodes[i].(key := key, lockSig := ""))), true)
  }

  /** Some other node already serves one of these routes. */
  predicate Served(nodes: seq<Node>, id: string, routes: seq<Prefix>) {
    exists j, r :: 0 <= j < |nodes| && nodes[j].id != id && r in nodes[j].enabled && r in routes
  }

  function EnableRoutes(cfg: Config, db: Db, id: string, routes: seq<Option<Prefix>>): Outcome {
    match NodeAt(db.nodes, id)
    case None => Refuse(db)
    case Some(i) =>
      var norm := NormalizeOf(cfg.overlay, routes);
      if norm.None? || (exists r :: r in norm.value && r !in db.nodes[i].advertised) || Served(db.nodes, id, norm.value)
      then Refuse(db)
      else Outcome(Bumped(WithNode(db, i, db.nodes[i].(enabled := norm.value))), true)
  }

  /** The enabled routes that are still advertised. */
  function StillAdvertised(enabled: seq<Prefix>, routes: seq<Prefix>): seq<Prefix> {
    if enabled == [] then []
    else
      var r := enabled[|enabled| - 1];
      StillAdvertised(enabled[..|enabled| - 1], routes) + if r in routes then [r] else []
  }

  lemma {:induction false} StillAdvertisedMembers(enabled: seq<Prefix>, routes: seq<Prefix>)
    ensures forall r :: r in StillAdvertised(enabled, routes) <==> r in enabled && r in routes
  {
    if enabled != [] {
      StillAdvertisedMembers(enabled[..|enabled| - 1], routes);
      assert enabled == enabled[..|enabled| - 1] + [enabled[|enabled| - 1]];
    }
  }

  function KeepKind(eps: seq<Endpoint>, local: bool): seq<Endpoint> {
    if eps == [] then []
    else
      KeepKind(eps[..|eps| - 1], local) + if eps[|eps| - 1].local == local then [eps[|eps| - 1]] else []
  }

  /** ReplaceEndpoints: one kind is swapped out, the other stays. */
  function ReplaceEndpoints(db: Db, id: string, local: bool, addrs: seq<string>, now: int): Db {
    var old' := if id in db.endpoints then db.endpoints[id] else [];
    db.(endpoints := db.endpoints[id := KeepKind(old', !local) + seq(|addrs|, i requires 0 <= i < |addrs| => Endpoint(local, addrs[i], now))])
  }

  /** The addresses stored for a node, by kind. */
  function AddrSet(db: Db, id: string, local: bool): set<string> {
    set e | e in (if id in db.endpoints then KeepKind(db.endpoints[id], local) else []) :: e.addr
  }

  predicate AddrsChanged(db: Db, id: string, local: bool, addrs: seq<string>) {
    AddrSet(db, id, local) != (set a | a in addrs)
  }

  predicate DistinctAddrs(addrs: seq<string>) { forall i, j :: 0 <= i < j < |addrs| ==> addrs[i] != addrs[j] }

  function KeyAt(nodes: seq<Node>, key: string): (i: Option<nat>)
    ensures i.Some? ==> i.value < |nodes| && nodes[i.value].key == key
  {
    if nodes == [] then None
    else if nodes[|nodes| - 1].key == key then Some(|nodes| - 1)
    else KeyAt(nodes[..|nodes| - 1], key)
  }

  /** Where the hub sees a key; None is an address sanitizeEndpoints dropped. */
  datatype Observation = Observation(key: string, addr: Option<string>)

  /** The tables after storing observations, and whether some address set moved on the way. */
  datatype Observed = Observed(db: Db, moved: bool)

  function ObserveAll(nodes: seq<Node>, db: Db, observed: seq<Observation>, now: int): Observed {
    if observed == [] then Observed(db, false)
    else
      var before, o := ObserveAll(nodes, db, observed[..|observed| - 1], now), observed[|observed| - 1];
      match KeyAt(nodes, o.key)
      case None => before // unknown keys are ignored
      case Some(i) =>
        if o.addr.None? then before
        else Observed(ReplaceEndpoints(before.db, nodes[i].id, false, [o.addr.value], now),
                      before.moved || AddrsChanged(before.db, nodes[i].id, false, [o.addr.value]))
  }

  /**
   * A heartbeat: local endpoints are stored first; bad routes then fail the
   * request without a bump. Observations count only from the hub.
   */
  function Status(cfg: Config, db: Db, id: string, addrs: seq<string>, routes: seq<Option<Prefix>>, observed: seq<Observation>, now: int): Outcome {
    match NodeAt(db.nodes, id)
    case None => Refuse(db)
    case Some(i) =>
      var db1 := ReplaceEndpoints(db, id, true, addrs, now);
      var norm := NormalizeOf(cfg.overlay, routes);
      if !DistinctAddrs(addrs) then Refuse(db) // the endpoints primary key rolls the insert back
      else if norm.None? then Refuse(db1)
      else
        Outcome(Reported(db1, i, norm.value, observed, AddrsChanged(db, id, true, addrs), now), true)
  }

  /** The rest of a heartbeat: routes, observations and, when anything moved, one bump. */
  function Reported(db: Db, i: nat, routes: seq<Prefix>, observed: seq<Observation>, moved: bool, now: int): Db
    requires i < |db.nodes|
  {
    var n := db.nodes[i];
    var still := StillAdvertised(n.enabled, routes);
    var db2 := WithNode(db, i, n.(advertised := routes, enabled := still));
    var o := if n.role == RoleHub then ObserveAll(db2.nodes, db2, observed, now) else Observed(db2, false);
    if moved || still != n.enabled || o.moved then Bumped(o.db) else o.db
  }

  lemma EndpointsOnly(db: Db, id: string, local: bool, addrs: seq<string>, now: int)
    ensures var t := ReplaceEndpoints(db, id, local, addrs, now); t == db.(endpoints := t.endpoints)
  {
  }

  lemma {:induction false} ObserveEndpointsOnly(nodes: seq<Node>, db: Db, observed: seq<Observation>, now: int)
    ensures var t := ObserveAll(nodes, db, observed, now).db; t == db.(endpoints := t.endpoints)
  {
    if observed != [] {
      ObserveEndpointsOnly(nodes, db, observed[..|observed| - 1], now);
    }
  }

  /** A heartbeat writes one row, and of that row only the routes. */
  lemma StatusWrites(cfg: Config, db: Db, id: string, addrs: seq<string>, routes: seq<Option<Prefix>>, observed: seq<Observation>, now: int)
    ensures var at, t := NodeAt(db.nodes, id), Status(cfg, db, id, addrs, routes, observed, now).db;
      if at.None? then t == db
      else
        && |t.nodes| == |db.nodes|
        && RoutesOnly(db.nodes[at.value], t.nodes[at.value])
        && t == db.(nodes := db.nodes[at.value := t.nodes[at.value]], endpoints := t.endpoints, version := t.version)
        && (t.version == db.version + 1 || (t.version == db.version && t.nodes[at.value].enabled == db.nodes[at.value].enabled))
  {
    var at := NodeAt(db.nodes, id);
    if at.Some? {
      EndpointsOnly(db, id, true, addrs, now);
      var db1 := ReplaceEndpoints(db, id, true, addrs, now);
      var t := Status(cfg, db, id, addrs, routes, observed, now).db;
      var norm := NormalizeOf(cfg.overlay, routes);
      if !DistinctAddrs(addrs) {
        assert t == db;
      } else if norm.None? {
        assert t == db1;
      } else {
        var n := db.nodes[at.value];
        var row := n.(advertised := norm.value, enabled := StillAdvertised(n.enabled, norm.value));
        var db2 := WithNode(db1, at.value, row);
        ObserveEndpointsOnly(db2.nodes, db2, observed, now);
        assert t.nodes == db.nodes[at.value := row];
      }
    }
  }

  ghost predicate RoutesOnly(n: Node, m: Node) { m == n.(advertised := m.advertised, enabled := m.enabled) }

  function Approve(db: Db, id: string): Outcome {
    match NodeAt(db.nodes, id)
    case None => Refuse(db)
    case Some(i) =>
      if db.nodes[i].approved then Outcome(db, true)
      else Outcome(Bumped(WithNode(db, i, db.nodes[i].(approved := true))), true)
  }

  function TagNode(db: Db, id: string, tags: seq<string>): Outcome {
    match NodeAt(db.nodes, id)
    case None => Refuse(db)
    case Some(i) => Outcome(Bumped(WithNode(db, i, db.nodes[i].(tags := tags))), true)
  }

  function DeleteNode(db: Db, id: string): Outcome {
    match NodeAt(db.nodes, id)
    case None => Refuse(db)
    case Some(i) =>
      Outcome(Bumped(db.(nodes := db.nodes[..i] + db.nodes[i + 1..], endpoints := db.endpoints - {id})), true)
  }

  // ---------- static peers and policies ----------

  predicate StaticInsertable(statics: seq<StaticPeer>, id: string, name: string, key: string, ip: Addr) {
    forall i :: 0 <= i < |statics| ==>
      statics[i].id != id && statics[i].name != name && statics[i].key != key && statics[i].ip != ip
  }

  function CreateStatic(cfg: Config, db: Db, id: string, name: string, key: string): Outcome {
    var ip := Allocation(cfg, db);
    if name == "" || HubOf(db.nodes).None? || ip.None? || !StaticInsertable(db.statics, id, name, key, ip.value) then Refuse(db)
    else Outcome(Bumped(db.(statics := db.statics + [StaticPeer(id, name, key, ip.value, "", [])])), true)
  }

  function TagStatic(db: Db, id: string, tags: seq<string>): Outcome {
    match StaticAt(db.statics, id)
    case None => Refuse(db)
    case Some(i) => Outcome(Bumped(db.(statics := db.statics[i := db.statics[i].(tags := tags)])), true)
  }

  function DeleteStatic(db: Db, id: string): Outcome {
    match StaticAt(db.statics, id)
    case None => Refuse(db)
    case Some(i) => Outcome(Bumped(db.(statics := db.statics[..i] + db.statics[i + 1..])), true)
  }

  /** What handlePolicyCreate lets through: a known protocol, real ports, ports only with tcp or udp. */
  predicate PolicyValid(p: Policy) {
    && (p.service.protocol == "any" || p.service.protocol == "tcp" || p.service.protocol == "udp" || p.service.protocol == "icmp")
    && (forall t :: t in p.service.ports ==> 1 <= PortValue(t) <= 65535)
    && (p.service.ports != [] ==> p.service.protocol == "tcp" || p.service.protocol == "udp")
  }

  function CreatePolicy(db: Db, p: Policy): Outcome {
    if !PolicyValid(p) then Refuse(db) else Outcome(Bumped(db.(policies := db.policies + [p])), true)
  }

  function WithoutPolicy(ps: seq<Policy>, id: string): seq<Policy> {
    if ps == [] then []
    else WithoutPolicy(ps[..|ps| - 1], id) + if ps[|ps| - 1].id == id then [] else [ps[|ps| - 1]]
  }

  function DeletePolicy(db: Db, id: string): Outcome {
    if exists p :: p in db.policies && p.id == id
    then Outcome(Bumped(db.(policies := WithoutPolicy(db.policies, id))), true)
    else Refuse(db)
  }

  // ---------- network lock ----------

  /** A signature over the binding of one node or static peer. */
  datatype LockSignature = LockSignature(isNode: bool, id: string, sig: string)

  /** Verification of a binding's signature: lock key, WireGuard key, address, signature. */
  type Verifier = (string, string, Addr, string) -> bool

  function ClearSigs(db: Db): Db {
    db.(nodes := seq(|db.nodes|, i requires 0 <= i < |db.nodes| => db.nodes[i].(lockSig := "")),
        statics := seq(|db.statics|, i requires 0 <= i < |db.statics| => db.statics[i].(lockSig := "")))
  }

  /** Arming with another key clears signatures, but only while a key is stored. No bump. */
  function LockInit(db: Db, key: string): Outcome {
    if key == "" then Refuse(db)
    else if db.lockKey != "" && db.lockKey != key then
      if db.lockActive then Refuse(db) else Outcome(ClearSigs(db).(lockKey := key), true)
    else Outcome(db.(lockKey := key), true)
  }

  /** One signature of a sign request: None when it names nothing or does not verify. */
  function SignOne(verify: Verifier, db: Db, s: LockSignature): Option<Db> {
    if s.isNode then
      match NodeAt(db.nodes, s.id)
      case None => None
      case Some(i) =>
        if verify(db.lockKey, db.nodes[i].key, db.nodes[i].ip, s.sig)
        then Some(WithNode(db, i, db.nodes[i].(lockSig := s.sig))) else None
    else
      match StaticAt(db.statics, s.id)
      case None => None
      case Some(i) =>
        if verify(db.lockKey, db.statics[i].key, db.statics[i].ip, s.sig)
        then Some(db.(statics := db.statics[i := db.statics[i].(lockSig := s.sig)])) else None
  }

  /** Signatures are stored one by one; a bad one stops the loop, keeping those before it. */
  function SignAll(verify: Verifier, db: Db, sigs: seq<LockSignature>): Outcome {
    if sigs == [] then Outcome(db, true)
    else
      var before := SignAll(verify, db, sigs[..|sigs| - 1]);
      if !before.ok then before
      else
        match SignOne(verify, before.db, sigs[|sigs| - 1])
        case None => Refuse(before.db)
        case Some(db') => Outcome(db', true)
  }

  /** A binding that awaits its signature. */
  datatype Binding = Binding(isNode: bool, id: string, name: string, key: string, ip: Addr)

  function PendingNodes(nodes: seq<Node>): seq<Binding> {
    if nodes == [] then []
    else
      var n := nodes[|nodes| - 1];
      PendingNodes(nodes[..|nodes| - 1]) + if n.lockSig == "" then [Binding(true, n.id, n.name, n.key, n.ip)] else []
  }

  function PendingStatics(statics: seq<StaticPeer>): seq<Binding> {
    if statics == [] then []
    else
      var p := statics[|statics| - 1];
      PendingStatics(statics[..|statics| - 1]) + if p.lockSig == "" then [Binding(false, p.id, p.name, p.key, p.ip)] else []
  }

  lemma {:induction false} PendingNodesMembers(nodes: seq<Node>, b: Binding)
    ensures b in PendingNodes(nodes) <==> exists n :: n in nodes && n.lockSig == "" && b == Binding(true, n.id, n.name, n.key, n.ip)
  {
    if nodes != [] {
      var init, m := nodes[..|nodes| - 1], nodes[|nodes| - 1];
      assert nodes == init + [m];
      PendingNodesMembers(init, b);
      assert forall n :: n in nodes <==> n in init || n == m;
    }
  }

  lemma {:induction false} PendingStaticsMembers(statics: seq<StaticPeer>, b: Binding)
    ensures b in PendingStatics(statics) <==> exists p :: p in statics && p.lockSig == "" && b == Binding(false, p.id, p.name, p.key, p.ip)
  {
    if statics != [] {
      var init, m := statics[..|statics| - 1], statics[|statics| - 1];
      assert statics == init + [m];
      PendingStaticsMembers(init, b);
      assert forall p :: p in statics <==> p in init || p == m;
    }
  }

  lemma {:induction false} PendingNodesEmptyIff(nodes: seq<Node>)
    ensures PendingNodes(nodes) == [] <==> forall i :: 0 <= i < |nodes| ==> nodes[i].lockSig != ""
  {
    if nodes != [] {
      PendingNodesEmptyIff(nodes[..|nodes| - 1]);
    }
  }

  lemma {:induction false} PendingStaticsEmptyIff(statics: seq<StaticPeer>)
    ensures PendingStatics(statics) == [] <==> forall i :: 0 <= i < |statics| ==> statics[i].lockSig != ""
  {
    if statics != [] {
      PendingStaticsEmptyIff(statics[..|statics| - 1]);
    }
  }

  predicate NothingPending(db: Db) {
    && (forall i :: 0 <= i < |db.nodes| ==> db.nodes[i].lockSig != "")
    && (forall i :: 0 <= i < |db.statics| ==> db.statics[i].lockSig != "")
  }

  function LockSign(verify: Verifier, db: Db, sigs: seq<LockSignature>): Outcome {
    if db.lockKey == "" then Refuse(db)
    else
      var r := SignAll(verify, db, sigs);
      if !r.ok then r
      else Outcome(Bumped(if NothingPending(r.db) then r.db.(lockActive := true) else r.db), true)
  }

  function LockDisable(db: Db): Outcome { Outcome(Bumped(db.(lockKey := "", lockActive := false)), true) }

  // ---------- runs ----------

  datatype Op =
    | OpToken(hash: string, hint: string, expires: int)
    | OpEnroll(req: EnrollRequest, now: int)
    | OpRekey(id: string, key: string)
    | OpRoutes(id: string, routes: seq<Option<Prefix>>)
    | OpStatus(id: string, addrs: seq<string>, routes: seq<Option<Prefix>>, observed: seq<Observation>, now: int)
    | OpApprove(id: string)
    | OpTagNode(id: string, tags: seq<string>)
    | OpDeleteNode(id: string)
    | OpStatic(id: string, name: string, key: string)
    | OpTagStatic(id: string, tags: seq<string>)
    | OpDeleteStatic(id: string)
    | OpPolicy(policy: Policy)
    | OpDeletePolicy(id: string)
    | OpLockInit(key: string)
    | OpLockSign(sigs: seq<LockSignature>)
    | OpLockDisable

  function Handle(cfg: Config, verify: Verifier, db: Db, op: Op): Outcome {
    match op
    case OpToken(hash, hint, expires) => CreateToken(db, hash, hint, expires)
    case OpEnroll(req, now) => Enroll(cfg, db, req, now)
    case OpRekey(id, key) => Rekey(db, id, key)
    case OpRoutes(id, routes) => EnableRoutes(cfg, db, id, routes)
    case OpStatus(id, addrs, routes, observed, now) => Status(cfg, db, id, addrs, routes, observed, now)
    case OpApprove(id) => Approve(db, id)
    case OpTagNode(id, tags) => TagNode(db, id, tags)
    case OpDeleteNode(id) => DeleteNode(db, id)
    case OpStatic(id, name, key) => CreateStatic(cfg, db, id, name, key)
    case OpTagStatic(id, tags) => TagStatic(db, id, tags)
    case OpDeleteStatic(id) => DeleteStatic(db, id)
    case OpPolicy(policy) => CreatePolicy(db, policy)
    case OpDeletePolicy(id) => DeletePolicy(db, id)
    case OpLockInit(key) => LockInit(db, key)
    case OpLockSign(sigs) => LockSign(verify, db, sigs)
    case OpLockDisable => LockDisable(db)
  }

  function RunOps(cfg: Config, verify: Verifier, db: Db, ops: seq<Op>): Db {
    if ops == [] then db
    else Handle(cfg, verify, RunOps(cfg, verify, db, ops[..|ops| - 1]), ops[|ops| - 1]).db
  }

  // ---------- what nodes are told ----------

  function ApprovedOf(nodes: seq<Node>): seq<Node> {
    if nodes == [] then []
    else ApprovedOf(nodes[..|nodes| - 1]) + if nodes[|nodes| - 1].approved then [nodes[|nodes| - 1]] else []
  }

  /** The tables as buildNetmapFor reads them: unapproved nodes are invisible, an arming lock key too. */
  function ViewOf(db: Db, now: int): View {
    View(ApprovedOf(db.nodes), db.statics, db.policies, db.endpoints, if db.lockActive then db.lockKey else "", now, db.version)
  }

  lemma {:induction false} ApprovedMembers(nodes: seq<Node>)
    ensures forall n :: n in ApprovedOf(nodes) <==> n in nodes && n.approved
  {
    if nodes != [] {
      ApprovedMembers(nodes[..|nodes| - 1]);
      assert nodes == nodes[..|nodes| - 1] + [nodes[|nodes| - 1]];
    }
  }

  // ---------- the invariant ----------

  /** A node row as every reachable state has it. */
  ghost predicate NodeOk(cfg: Config, n: Node) {
    && (if n.role == RoleHub then n.ip == HubIP(cfg.overlay) && n.approved
        else IsHost(cfg.overlay, n.ip) && n.ip != HubIP(cfg.overlay))
    && (forall r :: r in n.advertised ==> GoodRoute(cfg.overlay, r))
    && (forall r :: r in n.enabled ==> r in n.advertised)
  }

  ghost predicate StaticOk(cfg: Config, p: StaticPeer) { IsHost(cfg.overlay, p.ip) && p.ip != HubIP(cfg.overlay) }

  /** Two rows that can live in one nodes table. */
  ghost predicate Compatible(m: Node, n: Node) {
    && m.id != n.id && m.key != n.key && m.ip != n.ip
    && !(m.role == RoleHub && n.role == RoleHub)
    && (forall r :: r in m.enabled ==> r !in n.enabled)
  }

  /** One hub at the reserved address, distinct addresses, routes enabled once and only when advertised. */
  ghost predicate TablesOk(cfg: Config, nodes: seq<Node>, statics: seq<StaticPeer>) {
    && (forall i :: 0 <= i < |nodes| ==> NodeOk(cfg, nodes[i]))
    && (forall i :: 0 <= i < |statics| ==> StaticOk(cfg, statics[i]))
    && (forall i, j :: 0 <= i < j < |nodes| ==> Compatible(nodes[i], nodes[j]))
    && (forall i, j :: 0 <= i < j < |statics| ==> statics[i].ip != statics[j].ip && statics[i].id != statics[j].id)
    && (forall i, j :: 0 <= i < |nodes| && 0 <= j < |statics| ==> nodes[i].ip != statics[j].ip)
  }

  ghost predicate Inv(cfg: Config, db: Db) { TablesOk(cfg, db.nodes, db.statics) }

  /** Inv reads only the two device tables. */
  lemma SameTables(cfg: Config, db: Db, db': Db)
    requires Inv(cfg, db) && db'.nodes == db.nodes && db'.statics == db.statics
    ensures Inv(cfg, db')
  {
  }

  lemma UpdateKeepsInv(cfg: Config, db: Db, i: nat, n: Node)
    requires Inv(cfg, db) && i < |db.nodes| && NodeOk(cfg, n) && n.ip == db.nodes[i].ip
    requires forall j :: 0 <= j < |db.nodes| && j != i ==> Compatible(db.nodes[j], n) && Compatible(n, db.nodes[j])
    ensures Inv(cfg, WithNode(db, i, n))
  {
  }

  /** Changing only tags, approval, signature or the like keeps a row compatible. */
  lemma HarmlessUpdate(cfg: Config, db: Db, i: nat, n: Node)
    requires Inv(cfg, db) && i < |db.nodes|
    requires var o := db.nodes[i];
      && n.id == o.id && n.key == o.key && n.ip == o.ip && n.role == o.role && n.advertised == o.advertised && n.enabled == o.enabled
      && (o.approved ==> n.approved)
    ensures Inv(cfg, WithNode(db, i, n))
  {
    forall j | 0 <= j < |db.nodes| && j != i ensures Compatible(db.nodes[j], n) && Compatible(n, db.nodes[j]) {
      assert if j < i then Compatible(db.nodes[j], db.nodes[i]) else Compatible(db.nodes[i], db.nodes[j]);
    }
    UpdateKeepsInv(cfg, db, i, n);
  }

  lemma AllocationIsNew(cfg: Config, db: Db)
    ensures var ip := Allocation(cfg, db);
      ip.Some? ==> IsHost(cfg.overlay, ip.value) && ip.value != HubIP(cfg.overlay)
                   && (forall i :: 0 <= i < |db.nodes| ==> db.nodes[i].ip != ip.value)
                   && (forall i :: 0 <= i < |db.statics| ==> db.statics[i].ip != ip.value)
  {
    LeastFreeIsLeast(cfg.overlay, AllocatedIPs(db) + {HubIP(cfg.overlay)});
    var ip := Allocation(cfg, db);
    if ip.Some? {
      forall i | 0 <= i < |db.nodes| ensures db.nodes[i].ip != ip.value { assert db.nodes[i] in db.nodes; }
      forall i | 0 <= i < |db.statics| ensures db.statics[i].ip != ip.value { assert db.statics[i] in db.statics; }
    }
  }

  lemma EnrollKeepsInv(cfg: Config, db: Db, req: EnrollRequest, now: int)
    requires Inv(cfg, db)
    ensures Inv(cfg, Enroll(cfg, db, req, now).db)
  {
    AllocationIsNew(cfg, db);
    HubOfMembers(db.nodes);
    var r := Enroll(cfg, db, req, now);
    if r.ok {
      var n := EnrolledNode(cfg, db, req, EnrollIp(cfg, db, req.role).value);
      assert NodeOk(cfg, n);
      forall i | 0 <= i < |db.nodes| ensures Compatible(db.nodes[i], n) {
        assert db.nodes[i] in db.nodes;
      }
      assert forall j :: 0 <= j < |db.statics| ==> StaticOk(cfg, db.statics[j]);
    }
  }

  lemma RekeyKeepsInv(cfg: Config, db: Db, id: string, key: string)
    requires Inv(cfg, db)
    ensures Inv(cfg, Rekey(db, id, key).db)
  {
    var at := NodeAt(db.nodes, id);
    if at.Some? && db.nodes[at.value].key != key && !KeyTaken(db.nodes, id, key) {
      var i := at.value;
      var n := db.nodes[i].(key := key, lockSig := "");
      forall j | 0 <= j < |db.nodes| && j != i ensures Compatible(db.nodes[j], n) && Compatible(n, db.nodes[j]) {
        assert if j < i then Compatible(db.nodes[j], db.nodes[i]) else Compatible(db.nodes[i], db.nodes[j]);
      }
      UpdateKeepsInv(cfg, db, i, n);
      SameTables(cfg, WithNode(db, i, n), Rekey(db, id, key).db);
    }
  }

  /** Narrowing or replacing a node's routes, none of them served elsewhere. */
  lemma RouteUpdate(cfg: Config, db: Db, i: nat, n: Node)
    requires Inv(cfg, db) && i < |db.nodes| && NodeOk(cfg, n)
    requires n == db.nodes[i].(advertised := n.advertised, enabled := n.enabled)
    requires !Served(db.nodes, n.id, n.enabled)
    ensures Inv(cfg, WithNode(db, i, n))
  {
    forall j | 0 <= j < |db.nodes| && j != i ensures Compatible(db.nodes[j], n) && Compatible(n, db.nodes[j]) {
      assert if j < i then Compatible(db.nodes[j], db.nodes[i]) else Compatible(db.nodes[i], db.nodes[j]);
    }
    UpdateKeepsInv(cfg, db, i, n);
  }

  lemma RoutesKeepInv(cfg: Config, db: Db, id: string, routes: seq<Option<Prefix>>)
    requires Inv(cfg, db)
    ensures Inv(cfg, EnableRoutes(cfg, db, id, routes).db)
  {
    var r := EnableRoutes(cfg, db, id, routes);
    if r.ok {
      var i := NodeAt(db.nodes, id).value;
      var n := db.nodes[i].(enabled := NormalizeOf(cfg.overlay, routes).value);
      RouteUpdate(cfg, db, i, n);
      SameTables(cfg, WithNode(db, i, n), r.db);
    }
  }

  lemma StatusKeepsInv(cfg: Config, db: Db, id: string, addrs: seq<string>, routes: seq<Option<Prefix>>, observed: seq<Observation>, now: int)
    requires Inv(cfg, db)
    ensures Inv(cfg, Status(cfg, db, id, addrs, routes, observed, now).db)
  {
    var r := Status(cfg, db, id, addrs, routes, observed, now);
    StatusWrites(cfg, db, id, addrs, routes, observed, now);
    if r.ok {
      NormalizeExact(cfg.overlay, routes);
      var i, norm := NodeAt(db.nodes, id).value, NormalizeOf(cfg.overlay, routes).value;
      var still := StillAdvertised(db.nodes[i].enabled, norm);
      StillAdvertisedMembers(db.nodes[i].enabled, norm);
      var n := db.nodes[i].(advertised := norm, enabled := still);
      NotServedElsewhere(cfg, db, i, still);
      RouteUpdate(cfg, db, i, n);
      StatusRow(cfg, db, id, addrs, routes, observed, now);
      SameTables(cfg, WithNode(db, i, n), r.db);
    } else {
      SameTables(cfg, db, r.db);
    }
  }

  lemma StatusRow(cfg: Config, db: Db, id: string, addrs: seq<string>, routes: seq<Option<Prefix>>, observed: seq<Observation>, now: int)
    requires Status(cfg, db, id, addrs, routes, observed, now).ok
    ensures var i, norm := NodeAt(db.nodes, id).value, NormalizeOf(cfg.overlay, routes).value;
      Status(cfg, db, id, addrs, routes, observed, now).db.nodes ==
      db.nodes[i := db.nodes[i].(advertised := norm, enabled := StillAdvertised(db.nodes[i].enabled, norm))]
  {
    var i, norm := NodeAt(db.nodes, id).value, NormalizeOf(cfg.overlay, routes).value;
    var db2 := WithNode(ReplaceEndpoints(db, id, true, addrs, now), i, db.nodes[i].(advertised := norm, enabled := StillAdvertised(db.nodes[i].enabled, norm)));
    ObserveEndpointsOnly(db2.nodes, db2, observed, now);
  }

  lemma NotServedElsewhere(cfg: Config, db: Db, i: nat, routes: seq<Prefix>)
    requires Inv(cfg, db) && i < |db.nodes| && forall r :: r in routes ==> r in db.nodes[i].enabled
    ensures !Served(db.nodes, db.nodes[i].id, routes)
  {
    forall j, r | 0 <= j < |db.nodes| && db.nodes[j].id != db.nodes[i].id && r in db.nodes[j].enabled ensures r !in routes {
      assert if j < i then Compatible(db.nodes[j], db.nodes[i]) else Compatible(db.nodes[i], db.nodes[j]);
    }
  }

  lemma DeleteNodeKeepsInv(cfg: Config, db: Db, id: string)
    requires Inv(cfg, db)
    ensures Inv(cfg, DeleteNode(db, id).db)
  {
    var at := NodeAt(db.nodes, id);
    if at.Some? {
      var i := at.value;
      var ns := DeleteNode(db, id).db.nodes;
      assert forall j :: 0 <= j < |ns| ==> ns[j] == db.nodes[if j < i then j else j + 1];
    }
  }

  lemma DeleteStaticKeepsInv(cfg: Config, db: Db, id: string)
    requires Inv(cfg, db)
    ensures Inv(cfg, DeleteStatic(db, id).db)
  {
    var at := StaticAt(db.statics, id);
    if at.Some? {
      var i := at.value;
      var ps := DeleteStatic(db, id).db.statics;
      assert forall j :: 0 <= j < |ps| ==> ps[j] == db.statics[if j < i then j else j + 1];
    }
  }

  lemma CreateStaticKeepsInv(cfg: Config, db: Db, id: string, name: string, key: string)
    requires Inv(cfg, db)
    ensures Inv(cfg, CreateStatic(cfg, db, id, name, key).db)
  {
    AllocationIsNew(cfg, db);
  }

  lemma ClearSigsKeepsInv(cfg: Config, db: Db)
    requires Inv(cfg, db)
    ensures Inv(cfg, ClearSigs(db))
  {
    var db' := ClearSigs(db);
    forall i, j | 0 <= i < j < |db'.nodes| ensures Compatible(db'.nodes[i], db'.nodes[j]) {
      assert Compatible(db.nodes[i], db.nodes[j]);
    }
    forall i | 0 <= i < |db'.nodes| ensures NodeOk(cfg, db'.nodes[i]) {
      assert NodeOk(cfg, db.nodes[i]);
    }
  }

  lemma {:induction false} SignAllKeepsInv(cfg: Config, verify: Verifier, db: Db, sigs: seq<LockSignature>)
    requires Inv(cfg, db)
    ensures Inv(cfg, SignAll(verify, db, sigs).db)
  {
    if sigs != [] {
      SignAllKeepsInv(cfg, verify, db, sigs[..|sigs| - 1]);
      var before, s := SignAll(verify, db, sigs[..|sigs| - 1]), sigs[|sigs| - 1];
      if before.ok && s.isNode && NodeAt(before.db.nodes, s.id).Some? {
        var i := NodeAt(before.db.nodes, s.id).value;
        HarmlessUpdate(cfg, before.db, i, before.db.nodes[i].(lockSig := s.sig));
      }
    }
  }

  lemma LockSignKeepsInv(cfg: Config, verify: Verifier, db: Db, sigs: seq<LockSignature>)
    requires Inv(cfg, db)
    ensures Inv(cfg, LockSign(verify, db, sigs).db)
  {
    SignAllKeepsInv(cfg, verify, db, sigs);
    SameTables(cfg, SignAll(verify, db, sigs).db, if db.lockKey == "" then SignAll(verify, db, sigs).db else LockSign(verify, db, sigs).db);
  }

  lemma TagNodeKeepsInv(cfg: Config, db: Db, id: string, tags: seq<string>)
    requires Inv(cfg, db)
    ensures Inv(cfg, TagNode(db, id, tags).db)
  {
    var at := NodeAt(db.nodes, id);
    if at.Some? {
      HarmlessUpdate(cfg, db, at.value, db.nodes[at.value].(tags := tags));
    }
  }

  lemma ApproveKeepsInv(cfg: Config, db: Db, id: string)
    requires Inv(cfg, db)
    ensures Inv(cfg, Approve(db, id).db)
  {
    var at := NodeAt(db.nodes, id);
    if at.Some? {
      HarmlessUpdate(cfg, db, at.value, db.nodes[at.value].(approved := true));
    }
  }

  lemma TagStaticKeepsInv(cfg: Config, db: Db, id: string, tags: seq<string>)
    requires Inv(cfg, db)
    ensures Inv(cfg, TagStatic(db, id, tags).db)
  {
  }

  lemma LockInitKeepsInv(cfg: Config, db: Db, key: string)
    requires Inv(cfg, db)
    ensures Inv(cfg, LockInit(db, key).db)
  {
    ClearSigsKeepsInv(cfg, db);
  }

  /** The handlers that write to a device table. */
  predicate WritesDevices(op: Op) {
    !(op.OpToken? || op.OpPolicy? || op.OpDeletePolicy? || op.OpLockDisable?)
  }

  lemma OtherHandlersKeepInv(cfg: Config, verify: Verifier, db: Db, op: Op)
    requires Inv(cfg, db) && !WritesDevices(op)
    ensures Inv(cfg, Handle(cfg, verify, db, op).db)
  {
    SameTables(cfg, db, Handle(cfg, verify, db, op).db);
  }

  lemma NodeHandlersKeepInv(cfg: Config, verify: Verifier, db: Db, op: Op)
    requires Inv(cfg, db)
    requires op.OpEnroll? || op.OpRekey? || op.OpRoutes? || op.OpStatus? || op.OpApprove? || op.OpTagNode? || op.OpDeleteNode?
    ensures Inv(cfg, Handle(cfg, verify, db, op).db)
  {
    match op
    case OpEnroll(req, now) => EnrollKeepsInv(cfg, db, req, now);
    case OpRekey(id, key) => RekeyKeepsInv(cfg, db, id, key);
    case OpRoutes(id, routes) => RoutesKeepInv(cfg, db, id, routes);
    case OpStatus(id, addrs, routes, observed, now) => StatusKeepsInv(cfg, db, id, addrs, routes, observed, now);
    case OpApprove(id) => ApproveKeepsInv(cfg, db, id);
    case OpTagNode(id, tags) => TagNodeKeepsInv(cfg, db, id, tags);
    case OpDeleteNode(id) => DeleteNodeKeepsInv(cfg, db, id);
  }

  /** Every handler keeps the invariant. */
  lemma HandleKeepsInv(cfg: Config, verify: Verifier, db: Db, op: Op)
    requires Inv(cfg, db)
    ensures Inv(cfg, Handle(cfg, verify, db, op).db)
  {
    if !WritesDevices(op) {
      OtherHandlersKeepInv(cfg, verify, db, op);
    } else {
      match op
      case OpStatic(id, name, key) => CreateStaticKeepsInv(cfg, db, id, name, key);
      case OpTagStatic(id, tags) => TagStaticKeepsInv(cfg, db, id, tags);
      case OpDeleteStatic(id) => DeleteStaticKeepsInv(cfg, db, id);
      case OpLockInit(key) => LockInitKeepsInv(cfg, db, key);
      case OpLockSign(sigs) => LockSignKeepsInv(cfg, verify, db, sigs);
      case _ => NodeHandlersKeepInv(cfg, verify, db, op);
    }
  }

  /** Every reachable coordinator state satisfies the invariant. */
  lemma {:induction false} ReachableInv(cfg: Config, verify: Verifier, ops: seq<Op>)
    ensures Inv(cfg, RunOps(cfg, verify, EMPTY_DB, ops))
  {
    if ops != [] {
      ReachableInv(cfg, verify, ops[..|ops| - 1]);
      HandleKeepsInv(cfg, verify, RunOps(cfg, verify, EMPTY_DB, ops[..|ops| - 1]), ops[|ops| - 1]);
    }
  }

  /** Hiding unapproved nodes keeps the tables sound. */
  lemma {:induction false} ApprovedKeepsOk(cfg: Config, nodes: seq<Node>, statics: seq<StaticPeer>)
    requires TablesOk(cfg, nodes, statics)
    ensures TablesOk(cfg, ApprovedOf(nodes), statics)
  {
    if nodes != [] {
      var init, last := nodes[..|nodes| - 1], nodes[|nodes| - 1];
      ApprovedKeepsOk(cfg, init, statics);
      ApprovedMembers(init);
      var ns := ApprovedOf(init);
      forall i | 0 <= i < |ns| ensures Compatible(ns[i], last) {
        assert ns[i] in init;
        var j :| 0 <= j < |init| && init[j] == ns[i];
        assert Compatible(nodes[j], nodes[|nodes| - 1]);
      }
    }
  }

  ghost predicate PoliciesOk(db: Db) { forall p :: p in db.policies ==> PolicyValid(p) }

  lemma {:induction false} WithoutPolicyMembers(ps: seq<Policy>, id: string)
    ensures forall p :: p in WithoutPolicy(ps, id) ==> p in ps
  {
    if ps != [] {
      WithoutPolicyMembers(ps[..|ps| - 1], id);
    }
  }

  lemma {:induction false} SignAllKeepsRest(verify: Verifier, db: Db, sigs: seq<LockSignature>)
    ensures SignAll(verify, db, sigs).db.tokens == db.tokens && SignAll(verify, db, sigs).db.policies == db.policies
    ensures SignAll(verify, db, sigs).db.lockKey == db.lockKey && SignAll(verify, db, sigs).db.lockActive == db.lockActive
  {
    if sigs != [] {
      SignAllKeepsRest(verify, db, sigs[..|sigs| - 1]);
    }
  }

  lemma OthersKeepPolicies(cfg: Config, verify: Verifier, db: Db, op: Op)
    requires !op.OpPolicy? && !op.OpDeletePolicy? && !op.OpLockSign?
    ensures Handle(cfg, verify, db, op).db.policies == db.policies
  {
    if op.OpStatus? {
      StatusWrites(cfg, db, op.id, op.addrs, op.routes, op.observed, op.now);
    }
  }

  lemma HandleKeepsPolicies(cfg: Config, verify: Verifier, db: Db, op: Op)
    requires PoliciesOk(db)
    ensures PoliciesOk(Handle(cfg, verify, db, op).db)
  {
    if op.OpLockSign? {
      SignAllKeepsRest(verify, db, op.sigs);
    } else if op.OpDeletePolicy? {
      WithoutPolicyMembers(db.policies, op.id);
    } else if !op.OpPolicy? {
      OthersKeepPolicies(cfg, verify, db, op);
    }
  }

  lemma {:induction false} ReachablePolicies(cfg: Config, verify: Verifier, ops: seq<Op>)
    ensures PoliciesOk(RunOps(cfg, verify, EMPTY_DB, ops))
  {
    if ops != [] {
      ReachablePolicies(cfg, verify, ops[..|ops| - 1]);
      HandleKeepsPolicies(cfg, verify, RunOps(cfg, verify, EMPTY_DB, ops[..|ops| - 1]), ops[|ops| - 1]);
    }
  }

  /** A valid policy's ports are signed or plain numerals, so joining them with commas is unambiguous. */
  lemma ValidPortsAreFree(p: Policy)
    requires PolicyValid(p)
    ensures Free(p.service.ports, ',')
  {
    forall t | t in p.service.ports ensures ',' !in t {
      assert PortValue(t) >= 1;
      assert t != "" && t[0] == '+' ==> t == [t[0]] + t[1..];
    }
  }

  /** No stored policy that lists ports lets anything else through. */
  lemma PortsBind(cfg: Config, verify: Verifier, ops: seq<Op>, p: Policy, l4: L4)
    requires p in RunOps(cfg, verify, EMPTY_DB, ops).policies && p.service.ports != [] && L4Match(p.service, l4)
    ensures (l4.Tcp? || l4.Udp?) && 1 <= l4.port <= 65535 && HasPort(p.service.ports, l4.port)
  {
    ReachablePolicies(cfg, verify, ops);
  }

  // ---------- tokens ----------

  predicate Spent(db: Db, hash: string) { hash in db.tokens && db.tokens[hash].used }

  lemma SpentStaysSpent(cfg: Config, verify: Verifier, db: Db, op: Op, hash: string)
    requires Spent(db, hash)
    ensures Spent(Handle(cfg, verify, db, op).db, hash)
  {
    if op.OpLockSign? {
      SignAllKeepsRest(verify, db, op.sigs);
    } else if op.OpStatus? {
      StatusWrites(cfg, db, op.id, op.addrs, op.routes, op.observed, op.now);
    }
  }

  /** Op k of a run, and whether it was an enrolment with this token that succeeded. */
  predicate EnrolledAt(cfg: Config, verify: Verifier, ops: seq<Op>, k: nat, hash: string)
    requires k < |ops|
  {
    ops[k].OpEnroll? && ops[k].req.tokenHash == hash && Handle(cfg, verify, RunOps(cfg, verify, EMPTY_DB, ops[..k]), ops[k]).ok
  }

  lemma {:induction false} SpentAfter(cfg: Config, verify: Verifier, ops: seq<Op>, k: nat, m: nat, hash: string)
    requires k < m <= |ops| && EnrolledAt(cfg, verify, ops, k, hash)
    ensures Spent(RunOps(cfg, verify, EMPTY_DB, ops[..m]), hash)
    decreases m
  {
    assert ops[..m][..m - 1] == ops[..m - 1];
    if m > k + 1 {
      SpentAfter(cfg, verify, ops, k, m - 1, hash);
      SpentStaysSpent(cfg, verify, RunOps(cfg, verify, EMPTY_DB, ops[..m - 1]), ops[m - 1], hash);
    }
  }

  /** In any run, a token enrols at most one node, deletions or not. */
  lemma TokenEnrolsOnce(cfg: Config, verify: Verifier, ops: seq<Op>, j: nat, k: nat, hash: string)
    requires j < k < |ops| && EnrolledAt(cfg, verify, ops, j, hash)
    ensures !EnrolledAt(cfg, verify, ops, k, hash)
  {
    SpentAfter(cfg, verify, ops, j, k, hash);
  }

  // ---------- a first run ----------

  lemma RunSnoc(cfg: Config, verify: Verifier, ops: seq<Op>, op: Op)
    ensures RunOps(cfg, verify, EMPTY_DB, ops + [op]) == Handle(cfg, verify, RunOps(cfg, verify, EMPTY_DB, ops), op).db
  {
    assert (ops + [op])[..|ops|] == ops;
  }

  /** A hub enrols at the empty coordinator. */
  function HubRun(): seq<Op> {
    [OpToken("t", "", 1)] + [OpEnroll(EnrollRequest("t", "n", "vps", "linux", RoleHub, "wg"), 0)]
  }

  ghost predicate HubAlone(cfg: Config, db: Db) {
    && |db.nodes| == 1 && db.nodes[0] == Node("n", "vps", "linux", RoleHub, "wg", HubIP(cfg.overlay), [], [], "", true, [])
    && db.statics == [] && db.endpoints == map[] && db.lockKey == "" && !db.lockActive
  }

  lemma HubRunReaches(cfg: Config, verify: Verifier)
    ensures HubAlone(cfg, RunOps(cfg, verify, EMPTY_DB, HubRun()))
  {
    var first := [OpToken("t", "", 1)];
    assert [] + first == first;
    RunSnoc(cfg, verify, [], first[0]);
    RunSnoc(cfg, verify, first, HubRun()[1]);
  }
}
