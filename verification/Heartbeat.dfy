/** Which heartbeats store addresses that nobody is told about (handleStatus in internal/coordinator/node.go). */
module Heartbeats {
  import opened Net
  import opened Options
  import opened Store
  import opened Routes
  import opened Netmaps
  import opened Coordinators

  // ---------- address sets ----------

  lemma {:induction false} KeepKindConcat(xs: seq<Endpoint>, ys: seq<Endpoint>, local: bool)
    ensures KeepKind(xs + ys, local) == KeepKind(xs, local) + KeepKind(ys, local)
  {
    if ys == [] {
      assert xs + ys == xs;
    } else {
      var zs := xs + ys;
      assert zs[..|zs| - 1] == xs + ys[..|ys| - 1];
      KeepKindConcat(xs, ys[..|ys| - 1], local);
    }
  }

  ghost predicate AllOf(eps: seq<Endpoint>, local: bool) { forall i :: 0 <= i < |eps| ==> eps[i].local == local }

  lemma {:induction false} KeepKindIsUniform(eps: seq<Endpoint>, local: bool)
    ensures AllOf(KeepKind(eps, local), local)
  {
    if eps != [] {
      KeepKindIsUniform(eps[..|eps| - 1], local);
    }
  }

  lemma {:induction false} KeepUniform(eps: seq<Endpoint>, kind: bool, local: bool)
    requires AllOf(eps, kind)
    ensures KeepKind(eps, local) == if kind == local then eps else []
  {
    if eps != [] {
      KeepUniform(eps[..|eps| - 1], kind, local);
      assert eps == eps[..|eps| - 1] + [eps[|eps| - 1]];
    }
  }

  lemma ReplacedKinds(was: seq<Endpoint>, added: seq<Endpoint>, local: bool, kind: bool)
    requires AllOf(added, local)
    ensures KeepKind(KeepKind(was, !local) + added, kind) == if kind == local then added else KeepKind(was, !local)
  {
    var kept := KeepKind(was, !local);
    KeepKindConcat(kept, added, kind);
    KeepKindIsUniform(was, !local);
    KeepUniform(kept, !local, kind);
    KeepUniform(added, local, kind);
    assert [] + added == added && kept + [] == kept;
  }

  /** A node's stored addresses, none if it has no row. */
  function StoredOf(db: Db, id: string): seq<Endpoint> { if id in db.endpoints then db.endpoints[id] else [] }

  function Stamp(addrs: seq<string>, local: bool, now: int): seq<Endpoint> {
    seq(|addrs|, i requires 0 <= i < |addrs| => Endpoint(local, addrs[i], now))
  }

  function AddrsOf(eps: seq<Endpoint>): set<string> { set e | e in eps :: e.addr }

  lemma AddrSetOf(db: Db, id: string, kind: bool)
    ensures AddrSet(db, id, kind) == AddrsOf(KeepKind(StoredOf(db, id), kind))
  {
    assert KeepKind([], kind) == [];
  }

  lemma AddedSet(addrs: seq<string>, local: bool, now: int)
    ensures AddrsOf(Stamp(addrs, local, now)) == set a | a in addrs
  {
    var added := Stamp(addrs, local, now);
    forall a | a in addrs ensures exists e :: e in added && e.addr == a {
      var i :| 0 <= i < |addrs| && addrs[i] == a;
      assert added[i].addr == a;
    }
  }

  /** Replacing one node's addresses of one kind leaves every other address alone. */
  lemma ReplacedStored(db: Db, id: string, local: bool, addrs: seq<string>, now: int, x: string, kind: bool)
    ensures KeepKind(StoredOf(ReplaceEndpoints(db, id, local, addrs, now), x), kind) ==
      if x == id && kind == local then Stamp(addrs, local, now) else KeepKind(StoredOf(db, x), kind)
  {
    if x == id {
      var was, added := StoredOf(db, id), Stamp(addrs, local, now);
      assert StoredOf(ReplaceEndpoints(db, id, local, addrs, now), id) == KeepKind(was, !local) + added;
      ReplacedKinds(was, added, local, kind);
    }
  }

  lemma ReplacedSets(db: Db, id: string, local: bool, addrs: seq<string>, now: int, x: string, kind: bool)
    ensures AddrSet(ReplaceEndpoints(db, id, local, addrs, now), x, kind) ==
      if x == id && kind == local then (set a | a in addrs) else AddrSet(db, x, kind)
  {
    ReplacedStored(db, id, local, addrs, now, x, kind);
    AddrSetOf(db, x, kind);
    AddrSetOf(ReplaceEndpoints(db, id, local, addrs, now), x, kind);
    AddedSet(addrs, local, now);
  }

  /** Observations that move no address set leave every set as it was. */
  lemma {:induction false} StillObserved(nodes: seq<Node>, db: Db, observed: seq<Observation>, now: int, x: string, kind: bool)
    requires !ObserveAll(nodes, db, observed, now).moved
    ensures AddrSet(ObserveAll(nodes, db, observed, now).db, x, kind) == AddrSet(db, x, kind)
  {
    if observed != [] {
      var init, o := observed[..|observed| - 1], observed[|observed| - 1];
      StillObserved(nodes, db, init, now, x, kind);
      var at := KeyAt(nodes, o.key);
      if at.Some? && o.addr.Some? {
        ReplacedSets(ObserveAll(nodes, db, init, now).db, nodes[at.value].id, false, [o.addr.value], now, x, kind);
      }
    }
  }

  ghost predicate ObservedDiffers(db: Db, t: Db) { exists x :: AddrSet(t, x, false) != AddrSet(db, x, false) }

  /** Storing observation k changed what is stored for some node. */
  ghost predicate MovesAt(nodes: seq<Node>, db: Db, observed: seq<Observation>, now: int, k: nat)
    requires k < |observed|
  {
    ObservedDiffers(ObserveAll(nodes, db, observed[..k], now).db, ObserveAll(nodes, db, observed[..k + 1], now).db)
  }

  lemma MovesLast(nodes: seq<Node>, db: Db, observed: seq<Observation>, now: int)
    requires observed != []
    ensures ObserveAll(nodes, db, observed, now).moved <==>
      ObserveAll(nodes, db, observed[..|observed| - 1], now).moved || MovesAt(nodes, db, observed, now, |observed| - 1)
  {
    var init, o := observed[..|observed| - 1], observed[|observed| - 1];
    assert observed[..|observed|] == observed;
    var before, at := ObserveAll(nodes, db, init, now).db, KeyAt(nodes, o.key);
    if at.Some? && o.addr.Some? {
      ReplacedDiffers(before, nodes[at.value].id, [o.addr.value], now);
    }
  }

  lemma ReplacedDiffers(db: Db, id: string, addrs: seq<string>, now: int)
    ensures ObservedDiffers(db, ReplaceEndpoints(db, id, false, addrs, now)) <==> AddrsChanged(db, id, false, addrs)
  {
    ReplacedSets(db, id, false, addrs, now, id, false);
    forall x | x != id ensures AddrSet(ReplaceEndpoints(db, id, false, addrs, now), x, false) == AddrSet(db, x, false) {
      ReplacedSets(db, id, false, addrs, now, x, false);
    }
  }

  lemma MovesEarlier(nodes: seq<Node>, db: Db, observed: seq<Observation>, now: int, k: nat)
    requires k < |observed| - 1
    ensures MovesAt(nodes, db, observed[..|observed| - 1], now, k) <==> MovesAt(nodes, db, observed, now, k)
  {
    var init := observed[..|observed| - 1];
    assert init[..k] == observed[..k] && init[..k + 1] == observed[..k + 1];
  }

  ghost predicate SomeMoves(nodes: seq<Node>, db: Db, observed: seq<Observation>, now: int) {
    exists k: nat :: k < |observed| && MovesAt(nodes, db, observed, now, k)
  }

  lemma SomeMovesSnoc(nodes: seq<Node>, db: Db, observed: seq<Observation>, now: int)
    requires observed != []
    ensures SomeMoves(nodes, db, observed, now) <==>
      SomeMoves(nodes, db, observed[..|observed| - 1], now) || MovesAt(nodes, db, observed, now, |observed| - 1)
  {
    forall k: nat | k < |observed| - 1
      ensures MovesAt(nodes, db, observed[..|observed| - 1], now, k) <==> MovesAt(nodes, db, observed, now, k)
    {
      MovesEarlier(nodes, db, observed, now, k);
    }
    if SomeMoves(nodes, db, observed[..|observed| - 1], now) {
      var k: nat :| k < |observed| - 1 && MovesAt(nodes, db, observed[..|observed| - 1], now, k);
      assert MovesAt(nodes, db, observed, now, k);
    }
  }

  /** Observations count as a change iff storing one of them changed some address set. */
  lemma {:induction false} ObservedMovedIff(nodes: seq<Node>, db: Db, observed: seq<Observation>, now: int)
    ensures ObserveAll(nodes, db, observed, now).moved <==> SomeMoves(nodes, db, observed, now)
  {
    if observed != [] {
      ObservedMovedIff(nodes, db, observed[..|observed| - 1], now);
      MovesLast(nodes, db, observed, now);
      SomeMovesSnoc(nodes, db, observed, now);
    }
  }

  // ---------- heartbeats that store without announcing ----------

  ghost predicate SetsMoved(db: Db, t: Db) { exists x, kind :: AddrSet(t, x, kind) != AddrSet(db, x, kind) }

  /** A successful heartbeat that does not bump moved no address set. */
  lemma QuietHeartbeat(cfg: Config, db: Db, id: string, addrs: seq<string>, routes: seq<Option<Prefix>>, observed: seq<Observation>, now: int)
    requires Status(cfg, db, id, addrs, routes, observed, now).ok
    requires Status(cfg, db, id, addrs, routes, observed, now).db.version == db.version
    ensures !SetsMoved(db, Status(cfg, db, id, addrs, routes, observed, now).db)
  {
    var i, norm := NodeAt(db.nodes, id).value, NormalizeOf(cfg.overlay, routes).value;
    var n := db.nodes[i];
    var db1 := ReplaceEndpoints(db, id, true, addrs, now);
    var db2 := WithNode(db1, i, n.(advertised := norm, enabled := StillAdvertised(n.enabled, norm)));
    var t := Status(cfg, db, id, addrs, routes, observed, now).db;
    ObserveEndpointsOnly(db2.nodes, db2, observed, now);
    forall x, kind ensures AddrSet(t, x, kind) == AddrSet(db, x, kind) {
      ReplacedSets(db, id, true, addrs, now, x, kind);
      assert AddrSet(db2, x, kind) == AddrSet(db1, x, kind);
      if n.role == RoleHub {
        StillObserved(db2.nodes, db2, observed, now, x, kind);
      }
    }
  }

  /**
   * Exactly when a heartbeat changes some stored address set without a bump: a
   * known node, no repeated address, new local addresses, and a bad route.
   */
  lemma UnannouncedIff(cfg: Config, db: Db, id: string, addrs: seq<string>, routes: seq<Option<Prefix>>, observed: seq<Observation>, now: int)
    ensures var t := Status(cfg, db, id, addrs, routes, observed, now).db;
      (t.version == db.version && SetsMoved(db, t)) <==>
      NodeAt(db.nodes, id).Some? && DistinctAddrs(addrs) && AddrsChanged(db, id, true, addrs) && NormalizeOf(cfg.overlay, routes).None?
  {
    var r := Status(cfg, db, id, addrs, routes, observed, now);
    var bad := NodeAt(db.nodes, id).Some? && DistinctAddrs(addrs) && NormalizeOf(cfg.overlay, routes).None?;
    if bad {
      FailedHeartbeat(db, id, addrs, now);
    } else if r.ok {
      if r.db.version == db.version {
        QuietHeartbeat(cfg, db, id, addrs, routes, observed, now);
      }
    } else {
      assert r.db == db;
    }
  }

  lemma FailedHeartbeat(db: Db, id: string, addrs: seq<string>, now: int)
    ensures SetsMoved(db, ReplaceEndpoints(db, id, true, addrs, now)) <==> AddrsChanged(db, id, true, addrs)
  {
    var t := ReplaceEndpoints(db, id, true, addrs, now);
    ReplacedSets(db, id, true, addrs, now, id, true);
    forall x, kind | !AddrsChanged(db, id, true, addrs) ensures AddrSet(t, x, kind) == AddrSet(db, x, kind) {
      ReplacedSets(db, id, true, addrs, now, x, kind);
    }
  }

  /**
   * And nothing makes up for it: the next good heartbeat with the same addresses
   * bumps only if it retracts an enabled route, so the addresses stay unannounced.
   */
  lemma NeverAnnounced(cfg: Config, db: Db, id: string, addrs: seq<string>, bad: seq<Option<Prefix>>, good: seq<Option<Prefix>>,
                       observed: seq<Observation>, t1: int, t2: int)
    requires NodeAt(db.nodes, id).Some? && DistinctAddrs(addrs)
    requires NormalizeOf(cfg.overlay, bad).None? && NormalizeOf(cfg.overlay, good).Some?
    ensures var after := Status(cfg, Status(cfg, db, id, addrs, bad, observed, t1).db, id, addrs, good, [], t2);
      var n := db.nodes[NodeAt(db.nodes, id).value];
      && after.ok && AddrSet(after.db, id, true) == (set a | a in addrs)
      && (after.db.version == db.version <==> StillAdvertised(n.enabled, NormalizeOf(cfg.overlay, good).value) == n.enabled)
  {
    var db1 := ReplaceEndpoints(db, id, true, addrs, t1);
    assert Status(cfg, db, id, addrs, bad, observed, t1).db == db1;
    ReplacedSets(db, id, true, addrs, t1, id, true);
    var db2 := ReplaceEndpoints(db1, id, true, addrs, t2);
    ReplacedSets(db1, id, true, addrs, t2, id, true);
    var after := Status(cfg, db1, id, addrs, good, [], t2);
    assert after.db.endpoints == db2.endpoints;
  }

  // ---------- when a heartbeat wakes the others ----------

  /** The tables once routes are stored, before any observation. */
  function WithRoutes(db: Db, i: nat, routes: seq<Prefix>): Db
    requires i < |db.nodes|
  {
    WithNode(db, i, db.nodes[i].(advertised := routes, enabled := StillAdvertised(db.nodes[i].enabled, routes)))
  }

  lemma ReportBumps(db: Db, i: nat, routes: seq<Prefix>, observed: seq<Observation>, moved: bool, now: int)
    requires i < |db.nodes|
    ensures var t, seen := Reported(db, i, routes, observed, moved, now), WithRoutes(db, i, routes);
      && (t.version == db.version || t.version == db.version + 1)
      && (t.version == db.version + 1 <==>
            || moved || (exists r :: r in db.nodes[i].enabled && r !in routes)
            || (db.nodes[i].role == RoleHub && ObserveAll(seen.nodes, seen, observed, now).moved))
  {
    var seen := WithRoutes(db, i, routes);
    ObserveEndpointsOnly(seen.nodes, seen, observed, now);
    KeptAllIff(db.nodes[i].enabled, routes);
  }

  /** A successful heartbeat bumps iff the node's addresses moved, an observation moved some, or an enabled route was retracted. */
  lemma BumpsIff(cfg: Config, db: Db, id: string, addrs: seq<string>, routes: seq<Option<Prefix>>, observed: seq<Observation>, now: int)
    requires Status(cfg, db, id, addrs, routes, observed, now).ok
    ensures NodeAt(db.nodes, id).Some? && NormalizeOf(cfg.overlay, routes).Some?
    ensures var i, norm := NodeAt(db.nodes, id).value, NormalizeOf(cfg.overlay, routes).value;
      var t, seen := Status(cfg, db, id, addrs, routes, observed, now).db, WithRoutes(ReplaceEndpoints(db, id, true, addrs, now), i, norm);
      && (t.version == db.version || t.version == db.version + 1)
      && (t.version == db.version + 1 <==>
            || AddrSet(db, id, true) != (set a | a in addrs) || (exists r :: r in db.nodes[i].enabled && r !in norm)
            || (db.nodes[i].role == RoleHub && ObserveAll(seen.nodes, seen, observed, now).moved))
  {
    var i, norm := NodeAt(db.nodes, id).value, NormalizeOf(cfg.overlay, routes).value;
    ReportBumps(ReplaceEndpoints(db, id, true, addrs, now), i, norm, observed, AddrsChanged(db, id, true, addrs), now);
  }

  lemma {:induction false} KeptAllIff(enabled: seq<Prefix>, routes: seq<Prefix>)
    ensures StillAdvertised(enabled, routes) == enabled <==> forall r :: r in enabled ==> r in routes
  {
    StillAdvertisedMembers(enabled, routes);
    if enabled != [] {
      var init, last := enabled[..|enabled| - 1], enabled[|enabled| - 1];
      assert enabled == init + [last];
      KeptAllIff(init, routes);
      if forall r :: r in enabled ==> r in routes {
        assert forall r :: r in init ==> r in enabled;
      }
    }
  }

  // ---------- how long an address is worth ----------

  lemma {:induction false} KeepKindMembers(eps: seq<Endpoint>, local: bool, e: Endpoint)
    ensures e in KeepKind(eps, local) <==> e in eps && e.local == local
  {
    if eps != [] {
      var init, last := eps[..|eps| - 1], eps[|eps| - 1];
      assert eps == init + [last];
      KeepKindMembers(init, local, e);
    }
  }

  lemma {:induction false} ObserveKeepsLocal(nodes: seq<Node>, db: Db, observed: seq<Observation>, now: int, id: string)
    ensures KeepKind(StoredOf(ObserveAll(nodes, db, observed, now).db, id), true) == KeepKind(StoredOf(db, id), true)
  {
    if observed != [] {
      var init, o := observed[..|observed| - 1], observed[|observed| - 1];
      ObserveKeepsLocal(nodes, db, init, now, id);
      var at := KeyAt(nodes, o.key);
      if at.Some? && o.addr.Some? {
        ReplacedStored(ObserveAll(nodes, db, init, now).db, nodes[at.value].id, false, [o.addr.value], now, id, true);
      }
    }
  }

  lemma ReportKeepsLocal(db: Db, i: nat, routes: seq<Prefix>, observed: seq<Observation>, moved: bool, now: int, id: string)
    requires i < |db.nodes|
    ensures KeepKind(StoredOf(Reported(db, i, routes, observed, moved, now), id), true) == KeepKind(StoredOf(db, id), true)
  {
    var seen, t := WithRoutes(db, i, routes), Reported(db, i, routes, observed, moved, now);
    var o := if db.nodes[i].role == RoleHub then ObserveAll(seen.nodes, seen, observed, now).db else seen;
    assert t.endpoints == o.endpoints && seen.endpoints == db.endpoints;
    assert StoredOf(t, id) == StoredOf(o, id) && StoredOf(seen, id) == StoredOf(db, id);
    ObserveKeepsLocal(seen.nodes, seen, observed, now, id);
  }

  lemma StatusLocal(cfg: Config, db: Db, id: string, addrs: seq<string>, routes: seq<Option<Prefix>>, observed: seq<Observation>, now: int)
    requires NodeAt(db.nodes, id).Some? && DistinctAddrs(addrs)
    ensures KeepKind(StoredOf(Status(cfg, db, id, addrs, routes, observed, now).db, id), true) == Stamp(addrs, true, now)
  {
    var db1 := ReplaceEndpoints(db, id, true, addrs, now);
    ReplacedStored(db, id, true, addrs, now, id, true);
    if NormalizeOf(cfg.overlay, routes).Some? {
      ReportKeepsLocal(db1, NodeAt(db.nodes, id).value, NormalizeOf(cfg.overlay, routes).value, observed, AddrsChanged(db, id, true, addrs), now, id);
    }
  }

  /** The local endpoints a heartbeat leaves behind are its own, stamped with its time. */
  lemma HeartbeatStores(cfg: Config, db: Db, id: string, addrs: seq<string>, routes: seq<Option<Prefix>>, observed: seq<Observation>, now: int, e: Endpoint)
    requires NodeAt(db.nodes, id).Some? && DistinctAddrs(addrs)
    ensures e in StoredOf(Status(cfg, db, id, addrs, routes, observed, now).db, id) && e.local <==> e.local && e.updatedAt == now && e.addr in addrs
  {
    StatusLocal(cfg, db, id, addrs, routes, observed, now);
    KeepKindMembers(StoredOf(Status(cfg, db, id, addrs, routes, observed, now).db, id), true, e);
    StampMembers(addrs, now, e);
  }

  lemma StampMembers(addrs: seq<string>, now: int, e: Endpoint)
    ensures e in Stamp(addrs, true, now) <==> e.local && e.updatedAt == now && e.addr in addrs
  {
    var added := Stamp(addrs, true, now);
    if e.local && e.updatedAt == now && e.addr in addrs {
      var i :| 0 <= i < |addrs| && addrs[i] == e.addr;
      assert added[i] == e;
    }
  }

  /** So a reported LAN address is a candidate for the next 15 minutes and not a moment longer. */
  lemma ReportedIsFresh(cfg: Config, db: Db, id: string, addrs: seq<string>, routes: seq<Option<Prefix>>, observed: seq<Observation>, at: int, now: int, c: string)
    requires NodeAt(db.nodes, id).Some? && DistinctAddrs(addrs)
    ensures var eps := StoredOf(Status(cfg, db, id, addrs, routes, observed, at).db, id);
      c in FreshAddrs(eps, true, now) <==> c in addrs && now <= at + 15 * 60 * SECOND
  {
    var eps := StoredOf(Status(cfg, db, id, addrs, routes, observed, at).db, id);
    FreshAddrsMembers(eps, true, now, c);
    HeartbeatStores(cfg, db, id, addrs, routes, observed, at, Endpoint(true, c, at));
    forall e | e in eps && IsFresh(e, now) && e.local && e.addr == c ensures c in addrs && now <= at + 15 * 60 * SECOND {
      HeartbeatStores(cfg, db, id, addrs, routes, observed, at, e);
    }
  }

  lemma OneObserved(db: Db, id: string, addr: string, now: int)
    ensures KeepKind(StoredOf(ReplaceEndpoints(db, id, false, [addr], now), id), false) == [Endpoint(false, addr, now)]
  {
    ReplacedStored(db, id, false, [addr], now, id, false);
    assert Stamp([addr], false, now) == [Endpoint(false, addr, now)];
  }

  /** The last address the hub observed for a node is the one kept for it, stamped with the time of the report. */
  lemma LastObservationStays(nodes: seq<Node>, db: Db, observed: seq<Observation>, now: int)
    requires observed != []
    ensures var o := observed[|observed| - 1];
      KeyAt(nodes, o.key).Some? && o.addr.Some? ==>
        KeepKind(StoredOf(ObserveAll(nodes, db, observed, now).db, nodes[KeyAt(nodes, o.key).value].id), false) == [Endpoint(false, o.addr.value, now)]
  {
    var init, o := observed[..|observed| - 1], observed[|observed| - 1];
    var at := KeyAt(nodes, o.key);
    if at.Some? && o.addr.Some? {
      OneObserved(ObserveAll(nodes, db, init, now).db, nodes[at.value].id, o.addr.value, now);
    }
  }

  // ---------- a run ----------

  function BadThenGood(): seq<Op> {
    HubRun() + [OpStatus("n", ["1.2.3.4:5"], [None], [], 0)] + [OpStatus("n", ["1.2.3.4:5"], [], [], 0)]
  }

  /** From the empty coordinator: the hub's address is stored and its version is still that of the enrolment. */
  lemma UnannouncedWitness(cfg: Config, verify: Verifier)
    ensures var start, end := RunOps(cfg, verify, EMPTY_DB, HubRun()), RunOps(cfg, verify, EMPTY_DB, BadThenGood());
      AddrSet(start, "n", true) == {} && AddrSet(end, "n", true) == {"1.2.3.4:5"} && end.version == start.version
  {
    HubRunReaches(cfg, verify);
    RunSnoc(cfg, verify, HubRun(), OpStatus("n", ["1.2.3.4:5"], [None], [], 0));
    RunSnoc(cfg, verify, HubRun() + [OpStatus("n", ["1.2.3.4:5"], [None], [], 0)], OpStatus("n", ["1.2.3.4:5"], [], [], 0));
    BadThenGoodHub(cfg, RunOps(cfg, verify, EMPTY_DB, HubRun()), ["1.2.3.4:5"], [None], []);
  }

  lemma BadThenGoodHub(cfg: Config, db: Db, addrs: seq<string>, bad: seq<Option<Prefix>>, good: seq<Option<Prefix>>)
    requires HubAlone(cfg, db) && |addrs| == 1 && bad == [None] && good == []
    ensures var t := Status(cfg, Status(cfg, db, "n", addrs, bad, [], 0).db, "n", addrs, good, [], 0).db;
      AddrSet(db, "n", true) == {} && AddrSet(t, "n", true) == {addrs[0]} && t.version == db.version
  {
    assert NodeAt(db.nodes, "n") == Some(0);
    NormalizeExact(cfg.overlay, bad);
    NormalizeExact(cfg.overlay, good);
    assert bad[0].None?;
    NeverAnnounced(cfg, db, "n", addrs, bad, good, [], 0, 0);
    assert StillAdvertised([], NormalizeOf(cfg.overlay, good).value) == [];
    assert (set a | a in addrs) == {addrs[0]};
  }
}
