/** A node that is approved while its long-poll waits (the unapproved branch of handleNetmap in node.go). */
module Approvals {
  import opened Net
  import opened Options
  import opened Ipam
  import opened Store
  import opened Netmaps
  import opened Coordinators
  import opened LongPoll

  // ---------- every approval is announced, some too early ----------

  /** Write i turned the node's row from unapproved or absent to approved. */
  ghost predicate Approves(log: seq<Entry>, i: nat, id: string)
    requires i < |log|
  {
    !RowApproved(NodesAt(log, i), id) && RowApproved(log[i].nodes, id)
  }

  lemma {:induction false} FindApproval(log: seq<Entry>, k: nat, m: nat, id: string) returns (i: nat)
    requires k <= m <= |log| && !RowApproved(NodesAt(log, k), id) && RowApproved(NodesAt(log, m), id)
    ensures k <= i < m && Approves(log, i, id)
    decreases m
  {
    if RowApproved(NodesAt(log, m - 1), id) {
      i := FindApproval(log, k, m - 1, id);
    } else {
      i := m - 1;
    }
  }

  /** If its node is approved now, a request with an unapproved row has an approval committed after it read the row. */
  lemma ApprovalIsLogged(cfg: Config, verify: Verifier, actions: seq<Action>, p: int) returns (i: nat)
    requires var st := Run(cfg, verify, INIT, actions);
      p in st.pollers && !st.pollers[p].self.approved && RowApproved(st.db.nodes, st.pollers[p].id)
    ensures var st := Run(cfg, verify, INIT, actions);
      st.pollers[p].rowAt <= i < |st.log| && Approves(st.log, i, st.pollers[p].id)
  {
    RunKeepsOk(cfg, verify, actions);
    var st := Run(cfg, verify, INIT, actions);
    i := FindApproval(st.log, st.pollers[p].rowAt, |st.log|, st.pollers[p].id);
  }

  /** A request past its version check. */
  predicate PastCheck(q: Poller) { q.stage.Building? || q.stage.NodesRead? || q.stage.Served? }

  ghost predicate OnlyApprovedPass(st: State) { forall p :: p in st.pollers && PastCheck(st.pollers[p]) ==> st.pollers[p].self.approved }

  lemma {:induction false} RunOnlyApprovedPass(cfg: Config, verify: Verifier, actions: seq<Action>)
    ensures OnlyApprovedPass(Run(cfg, verify, INIT, actions))
  {
    if actions != [] {
      var init, a := actions[..|actions| - 1], actions[|actions| - 1];
      RunOnlyApprovedPass(cfg, verify, init);
      StepOnlyApprovedPass(cfg, verify, Run(cfg, verify, INIT, init), a);
    }
  }

  lemma StepOnlyApprovedPass(cfg: Config, verify: Verifier, st: State, a: Action)
    requires OnlyApprovedPass(st)
    ensures OnlyApprovedPass(Step(cfg, verify, st, a))
  {
    if a.Go? && a.p in st.pollers {
      assert PastCheck(Advance(st, st.pollers[a.p])) ==> Advance(st, st.pollers[a.p]).self.approved;
    }
  }

  /** In every interleaving, whoever is served a netmap was approved when its row was read, and the netmap is of approved nodes only. */
  lemma OnlyApprovedServed(cfg: Config, verify: Verifier, actions: seq<Action>, p: int)
    requires p in Run(cfg, verify, INIT, actions).pollers && Run(cfg, verify, INIT, actions).pollers[p].stage.Served?
    ensures var st := Run(cfg, verify, INIT, actions);
      var q := st.pollers[p];
      && q.self.id == q.id && q.self.approved && q.rowAt <= |st.log|
      && (NodeAt(NodesAt(st.log, q.rowAt), q.id).Some? ==> RowApproved(NodesAt(st.log, q.rowAt), q.id))
      && forall n :: n in q.stage.nodes ==> n.approved
  {
    RunKeepsOk(cfg, verify, actions);
    RunOnlyApprovedPass(cfg, verify, actions);
    var st := Run(cfg, verify, INIT, actions);
    assert PollerOk(st, st.pollers[p]) && PastCheck(st.pollers[p]);
    ApprovedMembers(NodesAt(st.log, st.pollers[p].stage.at));
  }

  /** With no handler under way, an approval has been announced, by closing one channel. */
  lemma ApprovalIsAnnounced(st: State, i: nat, id: string) returns (x: nat)
    requires LogOk(st) && WritersOk(st) && !Busy(st.writers) && i < |st.log| && Approves(st.log, i, id)
    ensures x < |st.closers| && st.closers[x] == i && forall y :: 0 <= y < |st.closers| && st.closers[y] == i ==> y == x
  {
    assert QuietEntry(st.log, i);
    if !st.log[i].loud {
      QuietNodeAt(st.log[i].nodes, NodesAt(st.log, i), id);
    }
    assert !Pending(st.writers, i) && !Announcing(st.writers, i);
    x :| 0 <= x < |st.closers| && st.closers[x] == i;
  }

  /** The request would not move if channels had been closed up to and including x and no further. */
  ghost predicate SleepsThrough(st: State, q: Poller, x: nat)
    requires x < |st.closers|
  {
    Advance(st.(closers := st.closers[..x + 1]), q) == q
  }

  /** No channel from c on was closed for any write but i. */
  ghost predicate OthersBelow(closers: seq<nat>, i: nat, c: nat) {
    forall y :: 0 <= y < |closers| && closers[y] != i ==> y < c
  }

  /**
   * Exactly which approvals a waiting request misses, over every interleaving:
   * the approval was announced by closing one channel x, and the request sleeps
   * through it iff x lies below the channel it captured. It is asleep now iff in
   * addition no other handler closed the captured channel or a later one.
   */
  lemma ApprovalMissedIff(cfg: Config, verify: Verifier, actions: seq<Action>, p: int, i: nat) returns (x: nat)
    requires var st := Run(cfg, verify, INIT, actions);
      && p in st.pollers && !st.pollers[p].self.approved && st.pollers[p].stage.Blocked? && !Busy(st.writers)
      && i < |st.log| && Approves(st.log, i, st.pollers[p].id)
    ensures var st := Run(cfg, verify, INIT, actions);
      var q := st.pollers[p];
      && x < |st.closers| && st.closers[x] == i && (forall y :: 0 <= y < |st.closers| && st.closers[y] == i ==> y == x)
      && (SleepsThrough(st, q, x) <==> x < q.stage.chan)
      && (Advance(st, q) == q <==> x < q.stage.chan && OthersBelow(st.closers, i, q.stage.chan))
  {
    RunKeepsOk(cfg, verify, actions);
    var st := Run(cfg, verify, INIT, actions);
    var q := st.pollers[p];
    x := ApprovalIsAnnounced(st, i, q.id);
    assert ChanOk(st, q);
    if q.stage.chan < st.Chan() {
      assert st.closers[q.stage.chan] == i ==> q.stage.chan == x;
    }
  }

  // ---------- a woken request ----------

  /** Two steps after it was woken, the request of an approved node is about to capture again, with its row as it is now. */
  lemma WokenRefetches(st: State, p: int)
    requires p in st.pollers && !st.pollers[p].self.approved && st.pollers[p].stage.Blocked?
    requires st.pollers[p].stage.chan < st.Chan() && RowApproved(st.db.nodes, st.pollers[p].id)
    ensures var t := GoTimes(st, p, 2);
      t == st.(pollers := t.pollers) && p in t.pollers && t.pollers[p].stage == Start && t.pollers[p].since == st.pollers[p].since
      && t.pollers[p].self == st.db.nodes[NodeAt(st.db.nodes, st.pollers[p].id).value]
  {
    assert GoTimes(st, p, 1) == GoStep(st, p);
  }

  lemma GoTimesAdd(st: State, p: int, n: nat, m: nat)
    ensures GoTimes(st, p, n + m) == GoTimes(GoTimes(st, p, n), p, m)
  {
  }

  lemma StartedServes(st: State, p: int)
    requires p in st.pollers && st.pollers[p].self.approved && st.pollers[p].stage == Start && st.db.version > st.pollers[p].since
    ensures var t := GoTimes(st, p, 4);
      p in t.pollers && t.pollers[p].self == st.pollers[p].self
      && t.pollers[p].stage == Served(st.db.version, ApprovedOf(st.db.nodes), |st.log|, st.db.statics, |st.log|)
  {
    var s1 := GoStep(st, p);
    var s2 := GoStep(s1, p);
    var s3 := GoStep(s2, p);
    assert GoTimes(st, p, 1) == s1 && GoTimes(st, p, 2) == s2 && GoTimes(st, p, 3) == s3;
  }

  /** Left alone, a woken request of an approved node reads its row again and serves the current tables. */
  lemma WokenSeesApproval(st: State, p: int)
    requires p in st.pollers && !st.pollers[p].self.approved && st.pollers[p].stage.Blocked?
    requires st.pollers[p].stage.chan < st.Chan() && RowApproved(st.db.nodes, st.pollers[p].id) && st.db.version > st.pollers[p].since
    ensures p in GoTimes(st, p, 6).pollers
    ensures var q := GoTimes(st, p, 6).pollers[p];
      && q.self == st.db.nodes[NodeAt(st.db.nodes, st.pollers[p].id).value] && q.self.approved
      && q.stage == Served(st.db.version, ApprovedOf(st.db.nodes), |st.log|, st.db.statics, |st.log|)
  {
    WokenRefetches(st, p);
    GoTimesAdd(st, p, 2, 4);
    StartedServes(GoTimes(st, p, 2), p);
  }

  // ---------- a schedule that misses one ----------

  /** Approve a node completely, then let the request capture and block. */
  function ApproveFirst(cfg: Config, verify: Verifier, st: State, p: int, w: int, id: string): State {
    GoStep(GoStep(NotifyStep(BumpStep(CommitStep(cfg, verify, st, w, OpApprove(id)), w), w), p), p)
  }

  lemma ApproveCommit(cfg: Config, verify: Verifier, st: State, w: int, id: string)
    requires WriterOf(st.writers, w) == Resting && NodeAt(st.db.nodes, id).Some? && !RowApproved(st.db.nodes, id)
    ensures var t := CommitStep(cfg, verify, st, w, OpApprove(id));
      && t.writers[w] == Committed(|st.log|) && |t.log| == |st.log| + 1
      && t.pollers == st.pollers && t.closers == st.closers && t.db.version == st.db.version
      && RowApproved(t.db.nodes, id)
  {
    var i := NodeAt(st.db.nodes, id).value;
    NodeAtUpdate(st.db.nodes, i, st.db.nodes[i].(approved := true), id);
  }

  lemma {:induction false} NodeAtUpdate(nodes: seq<Node>, i: nat, n: Node, id: string)
    requires NodeAt(nodes, id) == Some(i) && n.id == id
    ensures NodeAt(nodes[i := n], id) == Some(i)
  {
    var m := |nodes| - 1;
    if i < m {
      NodeAtUpdate(nodes[..m], i, n, id);
      assert nodes[i := n][..m] == nodes[..m][i := n];
    }
  }

  /** An approval carried out between the reading of the row and the capture is missed. */
  lemma ApproveFirstMisses(cfg: Config, verify: Verifier, st: State, p: int, w: int)
    requires p in st.pollers && !st.pollers[p].self.approved && st.pollers[p].stage == Start
    requires WriterOf(st.writers, w) == Resting
    requires NodeAt(st.db.nodes, st.pollers[p].id).Some? && !RowApproved(st.db.nodes, st.pollers[p].id)
    requires st.pollers[p].since <= st.db.version
    ensures var t := ApproveFirst(cfg, verify, st, p, w, st.pollers[p].id);
      && p in t.pollers && t.pollers[p].stage == Blocked(t.Chan()) && !t.pollers[p].self.approved
      && RowApproved(t.db.nodes, t.pollers[p].id) && t.db.version > t.pollers[p].since && WriterOf(t.writers, w) == Resting
  {
    ApproveCommit(cfg, verify, st, w, st.pollers[p].id);
  }

  // A concrete run into that state: a node enrols where approval is required and starts to poll.

  const LAPTOP := EnrollRequest("t", "n", "laptop", "linux", RoleNode, "wg")

  function EnrolActions(): seq<Action> { [Commit(0, OpToken("t", "", 1))] + [Commit(0, OpEnroll(LAPTOP, 0))] }

  function PollingActions(): seq<Action> { EnrolActions() + [Bump(0)] + [Notify(0)] + [Poll(1, "n", 2)] }

  lemma RunSnoc(cfg: Config, verify: Verifier, actions: seq<Action>, a: Action)
    ensures Run(cfg, verify, INIT, actions + [a]) == Step(cfg, verify, Run(cfg, verify, INIT, actions), a)
  {
    assert (actions + [a])[..|actions|] == actions;
  }

  ghost predicate OneUnapproved(st: State) {
    && |st.db.nodes| == 1 && st.db.nodes[0].id == "n" && !st.db.nodes[0].approved && st.db.version == 1
    && st.writers == map[0 := Committed(1)] && |st.log| == 2 && st.pollers == map[]
  }

  ghost predicate TokenReady(st: State) {
    && st.db == EMPTY_DB.(tokens := map["t" := Token("", 1, false)])
    && |st.log| == 1 && st.writers == map[0 := Resting] && st.pollers == map[]
  }

  lemma TokenReaches(cfg: Config, verify: Verifier)
    ensures TokenReady(Run(cfg, verify, INIT, [Commit(0, OpToken("t", "", 1))]))
  {
    assert [] + [Commit(0, OpToken("t", "", 1))] == [Commit(0, OpToken("t", "", 1))];
    RunSnoc(cfg, verify, [], Commit(0, OpToken("t", "", 1)));
  }

  lemma EnrolReaches(cfg: Config, verify: Verifier)
    requires cfg.requireApproval && Roomy(cfg)
    ensures OneUnapproved(Run(cfg, verify, INIT, EnrolActions()))
  {
    var first := [Commit(0, OpToken("t", "", 1))];
    TokenReaches(cfg, verify);
    RunSnoc(cfg, verify, first, Commit(0, OpEnroll(LAPTOP, 0)));
    EnrolStep(cfg, verify, Run(cfg, verify, INIT, first));
  }

  /** An IPv4 overlay with room for hosts besides the hub. */
  predicate Roomy(cfg: Config) { cfg.overlay.addr < INVALID && cfg.overlay.bits <= 29 }

  lemma {:induction false} Pow2AtLeast8(n: nat)
    requires n >= 3
    ensures Pow2(n) >= 8
  {
    if n > 3 {
      Pow2AtLeast8(n - 1);
    }
  }

  lemma RoomForOne(cfg: Config, db: Db)
    requires Roomy(cfg) && db.nodes == [] && db.statics == []
    ensures Allocation(cfg, db).Some?
  {
    var used := AllocatedIPs(db) + {HubIP(cfg.overlay)};
    LeastFreeIsLeast(cfg.overlay, used);
    Pow2AtLeast8(32 - cfg.overlay.bits);
    BroadcastFits(cfg.overlay);
    var h: Addr := Mask(cfg.overlay.addr, cfg.overlay.bits) + 2;
    assert IsHost(cfg.overlay, h) && h !in used;
  }

  lemma EnrolStep(cfg: Config, verify: Verifier, st: State)
    requires cfg.requireApproval && Roomy(cfg) && TokenReady(st)
    ensures OneUnapproved(CommitStep(cfg, verify, st, 0, OpEnroll(LAPTOP, 0)))
  {
    RoomForOne(cfg, st.db);
    var after := Enroll(cfg, st.db, LAPTOP, 0).db;
    assert |after.nodes| == 1 && after.nodes[0].id == "n" && !after.nodes[0].approved && after.version == 2;
  }

  /** The missed approval happens in a run from the empty coordinator, wherever approval is required and the overlay has room. */
  lemma MissedApprovalWitness(cfg: Config, verify: Verifier)
    requires cfg.requireApproval && Roomy(cfg)
    ensures var t := ApproveFirst(cfg, verify, Run(cfg, verify, INIT, PollingActions()), 1, 0, "n");
      && 1 in t.pollers && t.pollers[1].stage == Blocked(t.Chan()) && !t.pollers[1].self.approved
      && RowApproved(t.db.nodes, "n") && t.db.version > t.pollers[1].since
  {
    PollingReaches(cfg, verify);
    ApproveFirstMisses(cfg, verify, Run(cfg, verify, INIT, PollingActions()), 1, 0);
  }

  lemma PollingReaches(cfg: Config, verify: Verifier)
    requires cfg.requireApproval && Roomy(cfg)
    ensures var st := Run(cfg, verify, INIT, PollingActions());
      && 1 in st.pollers && st.pollers[1].id == "n" && !st.pollers[1].self.approved && st.pollers[1].stage == Start
      && WriterOf(st.writers, 0) == Resting && NodeAt(st.db.nodes, "n").Some? && !RowApproved(st.db.nodes, "n")
      && st.pollers[1].since == st.db.version
  {
    EnrolReaches(cfg, verify);
    RunSnoc(cfg, verify, EnrolActions(), Bump(0));
    RunSnoc(cfg, verify, EnrolActions() + [Bump(0)], Notify(0));
    RunSnoc(cfg, verify, EnrolActions() + [Bump(0)] + [Notify(0)], Poll(1, "n", 2));
    AnnounceAndPoll(Run(cfg, verify, INIT, EnrolActions()));
  }

  lemma AnnounceAndPoll(st: State)
    requires OneUnapproved(st)
    ensures var t := PollStep(NotifyStep(BumpStep(st, 0), 0), 1, "n", 2);
      && 1 in t.pollers && t.pollers[1] == Poller("n", st.db.nodes[0], 2, |t.log|, Start)
      && WriterOf(t.writers, 0) == Resting && t.db.nodes == st.db.nodes && NodeAt(t.db.nodes, "n") == Some(0) && t.db.version == 2
  {
    assert NodeAt(st.db.nodes, "n") == Some(0);
  }
}
