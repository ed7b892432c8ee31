/**
 * The netmap long-poll as interleaved steps: handlers commit, then bump the
 * version, then close the wake channel; pollers capture the channel before
 * they read the version (server.go:98-121, handleNetmap in node.go).
 */
module LongPoll {
  import opened Net
  import opened Options
  import opened Store
  import opened Names
  import opened Netmaps
  import opened Coordinators

  // ---------- state ----------

  /** One committed write: the device tables after it, whether it owes a bump, and the bump. */
  datatype Entry = Entry(nodes: seq<Node>, statics: seq<StaticPeer>, loud: bool, bump: Option<int>)

  /** A handler that committed entry i and owes its bump, or its notify. */
  datatype Writer = Resting | Committed(entry: nat) | Notifying(entry: nat)

  /** Where a poll request stands. */
  datatype Stage =
    | Start                                                     // about to capture the channel
    | Captured(chan: nat)
    | Blocked(chan: nat)                                        // in select
    | Refetch                                                   // unapproved and woken
    | Building(v: int)
    | NodesRead(v: int, nodes: seq<Node>, at: nat)              // at: writes committed before the read
    | Served(v: int, nodes: seq<Node>, at: nat, statics: seq<StaticPeer>, staticsAt: nat)
    | TimedOut

  /** A request: the row read at authentication or refetch, and the writes committed before that read. */
  datatype Poller = Poller(id: string, self: Node, since: int, rowAt: nat, stage: Stage)

  /** Channels are numbered: closers[x] is the write whose notify closed channel x. */
  datatype State = State(db: Db, closers: seq<nat>, log: seq<Entry>, writers: map<int, Writer>, pollers: map<int, Poller>) {
    /** The open channel; all smaller ones are closed. */
    function Chan(): nat { |closers| }
  }

  datatype Action =
    | Commit(w: int, op: Op)
    | Bump(w: int)
    | Notify(w: int)
    | Poll(p: int, id: string, since: int)
    | Go(p: int)
    | Timeout(p: int)

  const INIT := State(EMPTY_DB, [], [], map[], map[])

  function WriterOf(writers: map<int, Writer>, w: int): Writer { if w in writers then writers[w] else Resting }

  function CommitStep(cfg: Config, verify: Verifier, st: State, w: int, op: Op): State {
    if WriterOf(st.writers, w) != Resting then st
    else
      var after := Handle(cfg, verify, st.db, op).db;
      var loud := after.version != st.db.version;
      st.(db := after.(version := st.db.version),
          log := st.log + [Entry(after.nodes, after.statics, loud, None)],
          writers := st.writers[w := if loud then Committed(|st.log|) else Resting])
  }

  function BumpStep(st: State, w: int): State {
    match WriterOf(st.writers, w)
    case Committed(i) =>
      if i >= |st.log| then st
      else
        st.(db := Bumped(st.db),
            log := st.log[i := st.log[i].(bump := Some(st.db.version + 1))],
            writers := st.writers[w := Notifying(i)])
    case _ => st
  }

  function NotifyStep(st: State, w: int): State {
    match WriterOf(st.writers, w)
    case Notifying(i) => st.(closers := st.closers + [i], writers := st.writers[w := Resting])
    case _ => st
  }

  /** Authentication reads the node's row; an unknown token is refused. */
  function PollStep(st: State, p: int, id: string, since: int): State {
    match NodeAt(st.db.nodes, id)
    case None => st
    case Some(i) => st.(pollers := st.pollers[p := Poller(id, st.db.nodes[i], since, |st.log|, Start)])
  }

  /** The next step of handleNetmap for one request. */
  function Advance(st: State, q: Poller): Poller {
    match q.stage
    case Start => q.(stage := Captured(st.Chan()))
    case Captured(c) =>
      if q.self.approved && st.db.version > q.since then q.(stage := Building(st.db.version))
      else q.(stage := Blocked(c))
    case Blocked(c) =>
      if c >= st.Chan() then q
      else if q.self.approved then q.(stage := Start) else q.(stage := Refetch)
    case Refetch =>
      (match NodeAt(st.db.nodes, q.id)
       case None => q.(rowAt := |st.log|, stage := Start)
       case Some(i) => q.(self := st.db.nodes[i], rowAt := |st.log|, stage := Start))
    case Building(v) => q.(stage := NodesRead(v, ApprovedOf(st.db.nodes), |st.log|))
    case NodesRead(v, nodes, at) => q.(stage := Served(v, nodes, at, st.db.statics, |st.log|))
    case _ => q
  }

  function GoStep(st: State, p: int): State {
    if p in st.pollers then st.(pollers := st.pollers[p := Advance(st, st.pollers[p])]) else st
  }

  function TimeoutStep(st: State, p: int): State {
    if p in st.pollers && st.pollers[p].stage.Blocked? then st.(pollers := st.pollers[p := st.pollers[p].(stage := TimedOut)]) else st
  }

  function Step(cfg: Config, verify: Verifier, st: State, a: Action): State {
    match a
    case Commit(w, op) => CommitStep(cfg, verify, st, w, op)
    case Bump(w) => BumpStep(st, w)
    case Notify(w) => NotifyStep(st, w)
    case Poll(p, id, since) => PollStep(st, p, id, since)
    case Go(p) => GoStep(st, p)
    case Timeout(p) => TimeoutStep(st, p)
  }

  function Run(cfg: Config, verify: Verifier, st: State, actions: seq<Action>): State {
    if actions == [] then st
    else Step(cfg, verify, Run(cfg, verify, st, actions[..|actions| - 1]), actions[|actions| - 1])
  }

  // ---------- handlers that skip the bump show nothing new ----------

  /** The part of a row that netmap peers and hosts are made of. */
  function QuietNode(n: Node): Node { n.(advertised := [], lockSig := "") }

  function QuietNodes(nodes: seq<Node>): seq<Node> {
    seq(|nodes|, i requires 0 <= i < |nodes| => QuietNode(nodes[i]))
  }

  function QuietStatics(statics: seq<StaticPeer>): seq<StaticPeer> {
    seq(|statics|, i requires 0 <= i < |statics| => statics[i].(lockSig := ""))
  }

  ghost predicate SameShown(db: Db, db': Db) {
    QuietNodes(db'.nodes) == QuietNodes(db.nodes) && QuietStatics(db'.statics) == QuietStatics(db.statics)
  }

  lemma RowStaysQuiet(db: Db, db': Db, i: nat)
    requires i < |db.nodes| && db'.statics == db.statics
    requires |db'.nodes| == |db.nodes| && db'.nodes == db.nodes[i := db'.nodes[i]]
    requires QuietNode(db'.nodes[i]) == QuietNode(db.nodes[i])
    ensures SameShown(db, db')
  {
    var xs, ys := QuietNodes(db'.nodes), QuietNodes(db.nodes);
    forall j | 0 <= j < |xs| ensures xs[j] == ys[j] {
      assert db'.nodes[j] == if j == i then db'.nodes[i] else db.nodes[j];
    }
  }

  lemma StatusIsQuiet(cfg: Config, db: Db, id: string, addrs: seq<string>, routes: seq<Option<Prefix>>, observed: seq<Observation>, now: int)
    ensures var db' := Status(cfg, db, id, addrs, routes, observed, now).db;
      db'.version == db.version + 1 || (db'.version == db.version && SameShown(db, db'))
  {
    var at := NodeAt(db.nodes, id);
    var db' := Status(cfg, db, id, addrs, routes, observed, now).db;
    StatusWrites(cfg, db, id, addrs, routes, observed, now);
    if at.Some? && db'.version == db.version {
      RowStaysQuiet(db, db', at.value);
    }
  }

  lemma SignOneIsQuiet(verify: Verifier, db: Db, s: LockSignature)
    requires SignOne(verify, db, s).Some?
    ensures SameShown(db, SignOne(verify, db, s).value) && SignOne(verify, db, s).value.version == db.version
  {
    var db' := SignOne(verify, db, s).value;
    if s.isNode {
      RowStaysQuiet(db, db', NodeAt(db.nodes, s.id).value);
    } else {
      var xs, ys := QuietStatics(db'.statics), QuietStatics(db.statics);
      forall j | 0 <= j < |xs| ensures xs[j] == ys[j] {
      }
    }
  }

  lemma {:induction false} SignAllIsQuiet(verify: Verifier, db: Db, sigs: seq<LockSignature>)
    ensures SameShown(db, SignAll(verify, db, sigs).db) && SignAll(verify, db, sigs).db.version == db.version
  {
    if sigs != [] {
      var before := SignAll(verify, db, sigs[..|sigs| - 1]);
      SignAllIsQuiet(verify, db, sigs[..|sigs| - 1]);
      if before.ok && SignOne(verify, before.db, sigs[|sigs| - 1]).Some? {
        SignOneIsQuiet(verify, before.db, sigs[|sigs| - 1]);
      }
    }
  }

  lemma LockInitIsQuiet(db: Db, key: string)
    ensures SameShown(db, LockInit(db, key).db) && LockInit(db, key).db.version == db.version
  {
    var db' := LockInit(db, key).db;
    assert QuietNodes(db'.nodes) == QuietNodes(db.nodes);
    assert QuietStatics(db'.statics) == QuietStatics(db.statics);
  }

  lemma OthersBumpOrKeep(cfg: Config, verify: Verifier, db: Db, op: Op)
    requires !op.OpStatus? && !op.OpLockInit? && !op.OpLockSign?
    ensures var db' := Handle(cfg, verify, db, op).db;
      db'.version == db.version + 1 || (db'.version == db.version && db'.nodes == db.nodes && db'.statics == db.statics)
  {
  }

  /** Every handler either bumps the version once or leaves what peers and hosts show as it was. */
  lemma HandlersBumpWhatTheyShow(cfg: Config, verify: Verifier, db: Db, op: Op)
    ensures var db' := Handle(cfg, verify, db, op).db;
      db'.version == db.version + 1 || (db'.version == db.version && SameShown(db, db'))
  {
    match op
    case OpStatus(id, addrs, routes, observed, now) => StatusIsQuiet(cfg, db, id, addrs, routes, observed, now);
    case OpLockInit(key) => LockInitIsQuiet(db, key);
    case OpLockSign(sigs) => SignAllIsQuiet(verify, db, sigs);
    case _ => OthersBumpOrKeep(cfg, verify, db, op);
  }

  // ---------- the invariant ----------

  /** The nodes table after the first k writes. */
  ghost function NodesAt(log: seq<Entry>, k: nat): seq<Node>
    requires k <= |log|
  {
    if k == 0 then [] else log[k - 1].nodes
  }

  ghost function StaticsAt(log: seq<Entry>, k: nat): seq<StaticPeer>
    requires k <= |log|
  {
    if k == 0 then [] else log[k - 1].statics
  }

  ghost predicate Pending(writers: map<int, Writer>, i: nat) { exists w :: w in writers && writers[w] == Committed(i) }

  ghost predicate SomeNotifying(writers: map<int, Writer>) { exists w :: w in writers && writers[w].Notifying? }

  ghost predicate Announcing(writers: map<int, Writer>, i: nat) { exists w :: w in writers && writers[w] == Notifying(i) }

  ghost predicate Busy(writers: map<int, Writer>) { exists w :: w in writers && writers[w] != Resting }

  /** A write that owes no bump shows nothing new. */
  ghost predicate QuietEntry(log: seq<Entry>, i: nat)
    requires i < |log|
  {
    !log[i].loud ==>
      QuietNodes(log[i].nodes) == QuietNodes(NodesAt(log, i)) && QuietStatics(log[i].statics) == QuietStatics(StaticsAt(log, i))
  }

  ghost predicate LogOk(st: State) {
    && st.db.nodes == NodesAt(st.log, |st.log|) && st.db.statics == StaticsAt(st.log, |st.log|)
    && (forall i :: 0 <= i < |st.log| ==> QuietEntry(st.log, i))
    && (forall i :: 0 <= i < |st.log| && st.log[i].loud && st.log[i].bump.None? ==> Pending(st.writers, i))
    && (forall i :: 0 <= i < |st.log| && st.log[i].bump.Some? ==> st.log[i].bump.value <= st.db.version)
    && (forall i :: 0 <= i < |st.log| && st.log[i].loud && st.log[i].bump.Some? ==> Announcing(st.writers, i) || i in st.closers)
  }

  /** Every handler under way owes its own write, not announced yet; every channel was closed for another write. */
  ghost predicate WritersOk(st: State) {
    && (forall w :: w in st.writers && st.writers[w] != Resting ==> st.writers[w].entry < |st.log| && st.writers[w].entry !in st.closers)
    && (forall w, x :: w in st.writers && x in st.writers && w != x && st.writers[w] != Resting && st.writers[x] != Resting ==>
          st.writers[w].entry != st.writers[x].entry)
    && (forall x, y :: 0 <= x < y < |st.closers| ==> st.closers[x] != st.closers[y])
    && (forall x :: 0 <= x < |st.closers| ==> st.closers[x] < |st.log|)
  }

  /** Every write from number k on is bumped later than v, if at all. */
  ghost predicate LaterThan(log: seq<Entry>, k: nat, v: int) {
    forall i :: k <= i < |log| && log[i].bump.Some? ==> log[i].bump.value > v
  }

  ghost predicate RowApproved(nodes: seq<Node>, id: string) {
    NodeAt(nodes, id).Some? && nodes[NodeAt(nodes, id).value].approved
  }

  /** A captured channel was open when captured. */
  ghost predicate ChanOk(st: State, q: Poller) {
    q.stage.Captured? || q.stage.Blocked? ==> q.stage.chan <= st.Chan()
  }

  /** No lost wake-up. */
  ghost predicate WakeOk(st: State, q: Poller) {
    q.self.approved && q.stage.Blocked? && st.db.version > q.since ==> q.stage.chan < st.Chan() || SomeNotifying(st.writers)
  }

  /** A request holds its own node's row, as the table it was last read from had it. */
  ghost predicate RowOk(st: State, q: Poller) {
    && q.rowAt <= |st.log| && q.self.id == q.id
    && var nodes := NodesAt(st.log, q.rowAt);
       NodeAt(nodes, q.id).Some? ==> q.self == nodes[NodeAt(nodes, q.id).value]
  }

  /** What a request has read so far reflects every write bumped up to its version. */
  ghost predicate SnapshotOk(st: State, q: Poller) {
    match q.stage
    case Building(v) => q.since < v <= st.db.version
    case NodesRead(v, nodes, at) =>
      q.since < v <= st.db.version && at <= |st.log| && nodes == ApprovedOf(NodesAt(st.log, at)) && LaterThan(st.log, at, v)
    case Served(v, nodes, at, statics, staticsAt) =>
      && q.since < v <= st.db.version
      && at <= staticsAt <= |st.log| && nodes == ApprovedOf(NodesAt(st.log, at)) && LaterThan(st.log, at, v)
      && statics == StaticsAt(st.log, staticsAt) && LaterThan(st.log, staticsAt, v)
    case _ => true
  }

  ghost predicate PollerOk(st: State, q: Poller) {
    ChanOk(st, q) && WakeOk(st, q) && RowOk(st, q) && SnapshotOk(st, q)
  }

  ghost predicate StateOk(st: State) { LogOk(st) && WritersOk(st) && forall p :: p in st.pollers ==> PollerOk(st, st.pollers[p]) }

  // ---------- writers keep it ----------

  lemma {:induction false} QuietNodeAt(xs: seq<Node>, ys: seq<Node>, id: string)
    requires QuietNodes(xs) == QuietNodes(ys)
    ensures NodeAt(xs, id) == NodeAt(ys, id)
    ensures RowApproved(xs, id) <==> RowApproved(ys, id)
  {
    var qx, qy := QuietNodes(xs), QuietNodes(ys);
    assert |xs| == |ys|;
    assert forall i :: 0 <= i < |xs| ==> qx[i] == qy[i] && QuietNode(xs[i]) == QuietNode(ys[i]);
    if xs != [] {
      var n := |xs| - 1;
      assert QuietNodes(xs[..n]) == QuietNodes(ys[..n]);
      QuietNodeAt(xs[..n], ys[..n], id);
    }
  }

  /** A step of a handler that is not about to notify leaves the others' notifies due. */
  lemma KeepsAnnouncing(writers: map<int, Writer>, writers': map<int, Writer>, w: int)
    requires !WriterOf(writers, w).Notifying? && forall x :: x in writers && x != w ==> x in writers' && writers'[x] == writers[x]
    ensures forall i: nat :: Announcing(writers, i) ==> Announcing(writers', i)
  {
    forall i: nat | Announcing(writers, i) ensures Announcing(writers', i) {
      var x :| x in writers && writers[x] == Notifying(i);
      assert writers'[x] == Notifying(i);
    }
  }

  lemma CommitLog(cfg: Config, verify: Verifier, st: State, w: int, op: Op)
    requires LogOk(st)
    ensures LogOk(CommitStep(cfg, verify, st, w, op))
  {
    if WriterOf(st.writers, w) == Resting {
      HandlersBumpWhatTheyShow(cfg, verify, st.db, op);
      var t := CommitStep(cfg, verify, st, w, op);
      forall i | 0 <= i < |t.log| && t.log[i].loud && t.log[i].bump.None? ensures Pending(t.writers, i) {
        if i < |st.log| {
          var x :| x in st.writers && st.writers[x] == Committed(i);
          assert t.writers[x] == Committed(i);
        } else {
          assert t.writers[w] == Committed(i);
        }
      }
      forall i | 0 <= i < |t.log| ensures QuietEntry(t.log, i) {
        assert NodesAt(t.log, i) == NodesAt(st.log, i) && StaticsAt(t.log, i) == StaticsAt(st.log, i);
        assert i < |st.log| ==> QuietEntry(st.log, i);
      }
      KeepsAnnouncing(st.writers, t.writers, w);
    }
  }

  lemma CommitPoller(cfg: Config, verify: Verifier, st: State, w: int, op: Op, q: Poller)
    requires PollerOk(st, q)
    ensures PollerOk(CommitStep(cfg, verify, st, w, op), q)
  {
    if WriterOf(st.writers, w) == Resting {
      HandlersBumpWhatTheyShow(cfg, verify, st.db, op);
      var t := CommitStep(cfg, verify, st, w, op);
      if SomeNotifying(st.writers) {
        var x :| x in st.writers && st.writers[x].Notifying?;
        assert t.writers[x].Notifying?;
      }
      assert NodesAt(t.log, q.rowAt) == NodesAt(st.log, q.rowAt);
      SnapshotGrows(st.log, t.log, q.stage);
    }
  }

  /** A log that only gains entries and bumps keeps the tables at every earlier point. */
  lemma SnapshotGrows(log: seq<Entry>, log': seq<Entry>, stage: Stage)
    requires |log| <= |log'| && forall i :: 0 <= i < |log| ==> log'[i].nodes == log[i].nodes && log'[i].statics == log[i].statics
    ensures stage.NodesRead? && stage.at <= |log| ==> NodesAt(log', stage.at) == NodesAt(log, stage.at)
    ensures stage.Served? && stage.at <= stage.staticsAt <= |log| ==>
      NodesAt(log', stage.at) == NodesAt(log, stage.at) && StaticsAt(log', stage.staticsAt) == StaticsAt(log, stage.staticsAt)
  {
  }

  lemma BumpLog(st: State, w: int)
    requires LogOk(st)
    ensures LogOk(BumpStep(st, w))
  {
    var wr := WriterOf(st.writers, w);
    if wr.Committed? && wr.entry < |st.log| {
      var t := BumpStep(st, w);
      forall i | 0 <= i < |t.log| && t.log[i].loud && t.log[i].bump.None? ensures Pending(t.writers, i) {
        assert i != wr.entry && t.log[i] == st.log[i];
        var x :| x in st.writers && st.writers[x] == Committed(i);
        assert t.writers[x] == Committed(i);
      }
      forall i | 0 <= i < |t.log| ensures QuietEntry(t.log, i) {
        assert QuietEntry(st.log, i);
        assert NodesAt(t.log, i) == NodesAt(st.log, i) && StaticsAt(t.log, i) == StaticsAt(st.log, i);
      }
      KeepsAnnouncing(st.writers, t.writers, w);
      assert t.writers[w] == Notifying(wr.entry);
      assert Announcing(t.writers, wr.entry);
    }
  }

  lemma BumpPoller(st: State, w: int, q: Poller)
    requires PollerOk(st, q)
    ensures PollerOk(BumpStep(st, w), q)
  {
    var wr := WriterOf(st.writers, w);
    if wr.Committed? && wr.entry < |st.log| {
      var t := BumpStep(st, w);
      assert t.writers[w].Notifying?;
      assert NodesAt(t.log, q.rowAt) == NodesAt(st.log, q.rowAt);
      SnapshotGrows(st.log, t.log, q.stage);
    }
  }

  lemma NotifyLog(st: State, w: int)
    requires LogOk(st)
    ensures LogOk(NotifyStep(st, w))
  {
    var t := NotifyStep(st, w);
    forall i | 0 <= i < |t.log| && t.log[i].loud && t.log[i].bump.None? ensures Pending(t.writers, i) {
      var x :| x in st.writers && st.writers[x] == Committed(i);
      assert t.writers[x] == Committed(i);
    }
    forall i | 0 <= i < |t.log| && t.log[i].loud && t.log[i].bump.Some? ensures Announcing(t.writers, i) || i in t.closers {
      if i !in st.closers {
        var x :| x in st.writers && st.writers[x] == Notifying(i);
        if x == w {
          assert t.closers[|st.closers|] == i;
        } else {
          assert t.writers[x] == Notifying(i);
        }
      }
    }
  }

  lemma CommitWriters(cfg: Config, verify: Verifier, st: State, w: int, op: Op)
    requires WritersOk(st)
    ensures WritersOk(CommitStep(cfg, verify, st, w, op))
  {
    var t := CommitStep(cfg, verify, st, w, op);
    assert |st.log| !in st.closers;
    assert t.closers == st.closers;
  }

  lemma BumpWriters(st: State, w: int)
    requires WritersOk(st)
    ensures WritersOk(BumpStep(st, w))
  {
    var t := BumpStep(st, w);
    assert t.closers == st.closers && |t.log| == |st.log|;
  }

  lemma NotifyWriters(st: State, w: int)
    requires WritersOk(st)
    ensures WritersOk(NotifyStep(st, w))
  {
    var t := NotifyStep(st, w);
    if WriterOf(st.writers, w).Notifying? {
      var i := st.writers[w].entry;
      assert forall j :: j in t.closers <==> j in st.closers || j == i;
    }
  }

  lemma NotifyPoller(st: State, w: int, q: Poller)
    requires PollerOk(st, q)
    ensures PollerOk(NotifyStep(st, w), q)
  {
  }

  // ---------- pollers keep it ----------

  lemma NextOk(st: State, q: Poller)
    requires LogOk(st) && PollerOk(st, q)
    ensures PollerOk(st, Advance(st, q))
  {
  }

  lemma CommitKeepsOk(cfg: Config, verify: Verifier, st: State, w: int, op: Op)
    requires StateOk(st)
    ensures StateOk(CommitStep(cfg, verify, st, w, op))
  {
    var t := CommitStep(cfg, verify, st, w, op);
    CommitLog(cfg, verify, st, w, op);
    CommitWriters(cfg, verify, st, w, op);
    forall p | p in t.pollers ensures PollerOk(t, t.pollers[p]) {
      CommitPoller(cfg, verify, st, w, op, st.pollers[p]);
    }
  }

  lemma BumpKeepsOk(st: State, w: int)
    requires StateOk(st)
    ensures StateOk(BumpStep(st, w))
  {
    var t := BumpStep(st, w);
    BumpLog(st, w);
    BumpWriters(st, w);
    forall p | p in t.pollers ensures PollerOk(t, t.pollers[p]) {
      BumpPoller(st, w, st.pollers[p]);
    }
  }

  lemma NotifyKeepsOk(st: State, w: int)
    requires StateOk(st)
    ensures StateOk(NotifyStep(st, w))
  {
    var t := NotifyStep(st, w);
    NotifyLog(st, w);
    NotifyWriters(st, w);
    forall p | p in t.pollers ensures PollerOk(t, t.pollers[p]) {
      NotifyPoller(st, w, st.pollers[p]);
    }
  }

  lemma StepKeepsOk(cfg: Config, verify: Verifier, st: State, a: Action)
    requires StateOk(st)
    ensures StateOk(Step(cfg, verify, st, a))
  {
    var t := Step(cfg, verify, st, a);
    match a
    case Commit(w, op) => CommitKeepsOk(cfg, verify, st, w, op);
    case Bump(w) => BumpKeepsOk(st, w);
    case Notify(w) => NotifyKeepsOk(st, w);
    case Poll(p, id, since) => SamePollers(st, t, p);
    case Go(p) =>
      if p in st.pollers {
        NextOk(st, st.pollers[p]);
        SamePollers(st, t, p);
      }
    case Timeout(p) => SamePollers(st, t, p);
  }

  /** A request's own step changes nothing that the others' facts are about. */
  lemma SamePollers(st: State, t: State, p: int)
    requires StateOk(st) && t == st.(pollers := t.pollers)
    requires forall x :: x in t.pollers && x != p ==> x in st.pollers && t.pollers[x] == st.pollers[x]
    requires p in t.pollers ==> PollerOk(st, t.pollers[p])
    ensures StateOk(t)
  {
    forall x | x in t.pollers ensures PollerOk(t, t.pollers[x]) {
      assert PollerOk(st, t.pollers[x]);
    }
  }

  lemma {:induction false} RunKeepsOk(cfg: Config, verify: Verifier, actions: seq<Action>)
    ensures StateOk(Run(cfg, verify, INIT, actions))
  {
    if actions != [] {
      RunKeepsOk(cfg, verify, actions[..|actions| - 1]);
      StepKeepsOk(cfg, verify, Run(cfg, verify, INIT, actions[..|actions| - 1]), actions[|actions| - 1]);
    }
  }

  // ---------- no lost wake-up ----------

  /**
   * In every interleaving, an approved request blocked although the stored
   * version is past its cursor holds a closed channel, or some handler is
   * between its bump and its notify.
   */
  lemma NoLostWakeUp(cfg: Config, verify: Verifier, actions: seq<Action>, p: int)
    requires p in Run(cfg, verify, INIT, actions).pollers
    ensures var st := Run(cfg, verify, INIT, actions);
      var q := st.pollers[p];
      q.self.approved && q.stage.Blocked? && st.db.version > q.since ==>
        q.stage.chan < st.Chan() || exists w :: w in st.writers && st.writers[w].Notifying?
  {
    RunKeepsOk(cfg, verify, actions);
  }

  function GoTimes(st: State, p: int, n: nat): State { if n == 0 then st else GoStep(GoTimes(st, p, n - 1), p) }

  /** Left alone, a woken approved request serves the current tables at the current version. */
  lemma WokenIsServed(st: State, p: int)
    requires p in st.pollers && st.pollers[p].self.approved && st.pollers[p].stage.Blocked?
    requires st.pollers[p].stage.chan < st.Chan() && st.db.version > st.pollers[p].since
    ensures p in GoTimes(st, p, 5).pollers
    ensures GoTimes(st, p, 5).pollers[p].stage == Served(st.db.version, ApprovedOf(st.db.nodes), |st.log|, st.db.statics, |st.log|)
  {
    var s1 := GoStep(st, p);
    var s2 := GoStep(s1, p);
    var s3 := GoStep(s2, p);
    var s4 := GoStep(s3, p);
    assert GoTimes(st, p, 1) == s1 && GoTimes(st, p, 2) == s2 && GoTimes(st, p, 3) == s3 && GoTimes(st, p, 4) == s4;
  }
}
