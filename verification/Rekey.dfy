/**
 * Key rotation with crashes and failures at every point (internal/agent/rekey.go,
 * handleRekey in internal/coordinator/node.go). A key pair is written by its
 * public half.
 */
module Rekeying {
  import opened Options
  import opened Store
  import opened Netmaps
  import opened Coordinators

  /** Where a node's process stands. */
  datatype Phase =
    | Ready
    | Asserting(key: string)   // start-up re-assert sent, reply outstanding
    | Rotating(key: string)    // new key sent, reply outstanding
    | Accepted(key: string)    // the coordinator said yes
    | Stored(key: string)      // state file written, device still to swap

  /** One machine: the state file, the daemon's copy of it and the live device; `up` is false while no daemon runs. */
  datatype Machine = Machine(file: string, mem: string, dev: string, up: bool, phase: Phase)

  /** `sent` holds rekey requests on the wire; `minted` who generated which key. */
  datatype System = System(db: Db, machines: map<string, Machine>, sent: set<(string, string)>, minted: map<string, string>)

  datatype Event =
    | Start(id: string)
    | Crash(id: string)
    | Rotate(id: string, key: string)
    | Arrive(id: string, key: string)
    | GiveUp(id: string)
    | Save(id: string, ok: bool)
    | Swap(id: string, ok: bool)
    | CacheSave(id: string)
    | Join(cfg: Config, req: EnrollRequest, now: int)
    | Others(db: Db)

  /** What other handlers do to the nodes table: drop rows or change other columns. */
  ghost predicate KeepsKeys(db: Db, db': Db) {
    UniqueIds(db') && forall i :: 0 <= i < |db'.nodes| ==> exists j :: 0 <= j < |db.nodes| && db'.nodes[i].id == db.nodes[j].id && db'.nodes[i].key == db.nodes[j].key
  }

  ghost predicate UniqueIds(db: Db) { forall i, j :: 0 <= i < j < |db.nodes| ==> db.nodes[i].id != db.nodes[j].id }

  function SetMachine(s: System, id: string, m: Machine): System { s.(machines := s.machines[id := m]) }

  /** The daemon loads the state file, brings the device up and re-asserts its key. */
  function StartStep(s: System, id: string, m: Machine): System {
    if m.up || m.phase != Ready then s
    else SetMachine(s, id, Machine(m.file, m.file, m.file, true, Asserting(m.file))).(sent := s.sent + {(id, m.file)})
  }

  /** A new pair is generated and offered; with the daemon down this is the offline command. */
  function RotateStep(s: System, id: string, m: Machine, key: string): System {
    if m.phase != Ready || key in s.minted then s
    else SetMachine(s, id, m.(phase := Rotating(key))).(sent := s.sent + {(id, key)}, minted := s.minted[key := id])
  }

  /** The coordinator handles a request; a process still waiting for it gets the reply. */
  function ArriveStep(s: System, id: string, m: Machine, key: string): System {
    if (id, key) !in s.sent then s
    else
      var r := Coordinators.Rekey(s.db, id, key);
      var phase :=
        if m.phase == Asserting(key) then Ready
        else if m.phase == Rotating(key) then (if r.ok then Accepted(key) else Ready)
        else m.phase;
      SetMachine(s, id, m.(phase := phase)).(db := r.db, sent := s.sent - {(id, key)})
  }

  /** The reply is lost or times out; the request itself may still arrive. */
  function GiveUpStep(s: System, id: string, m: Machine): System {
    if m.phase.Asserting? || m.phase.Rotating? then SetMachine(s, id, m.(phase := Ready)) else s
  }

  /** The new key goes into the in-memory state and then to the state file. */
  function SaveStep(s: System, id: string, m: Machine, ok: bool): System {
    if !m.phase.Accepted? then s
    else
      var key := m.phase.key;
      SetMachine(s, id, m.(mem := key, file := if ok then key else m.file, phase := if ok && m.up then Stored(key) else Ready))
  }

  function SwapStep(s: System, id: string, m: Machine, ok: bool): System {
    if !m.phase.Stored? then s
    else SetMachine(s, id, m.(dev := if ok then m.phase.key else m.dev, phase := Ready))
  }

  /** Any other write of the state file, such as the netmap cache; applyMu keeps it out of a save. */
  function CacheSaveStep(s: System, id: string, m: Machine): System {
    if m.up && !m.phase.Stored? then SetMachine(s, id, m.(file := m.mem)) else s
  }

  function CrashStep(s: System, id: string, m: Machine): System { SetMachine(s, id, m.(up := false, phase := Ready)) }

  /** A new machine generates its key, enrols and writes its first state file. */
  function JoinStep(s: System, cfg: Config, req: EnrollRequest, now: int): System {
    var r := Enroll(cfg, s.db, req, now);
    if req.key in s.minted || req.id in s.machines || !r.ok then s
    else SetMachine(s, req.id, Machine(req.key, req.key, req.key, false, Ready)).(db := r.db, minted := s.minted[req.key := req.id])
  }

  ghost function MachineStep(s: System, e: Event, m: Machine): System
    requires !e.Others? && !e.Join?
  {
    match e
    case Start(id) => StartStep(s, id, m)
    case Crash(id) => CrashStep(s, id, m)
    case Rotate(id, key) => RotateStep(s, id, m, key)
    case Arrive(id, key) => ArriveStep(s, id, m, key)
    case GiveUp(id) => GiveUpStep(s, id, m)
    case Save(id, ok) => SaveStep(s, id, m, ok)
    case Swap(id, ok) => SwapStep(s, id, m, ok)
    case CacheSave(id) => CacheSaveStep(s, id, m)
  }

  ghost function Step(s: System, e: Event): System {
    if e.Others? then (if KeepsKeys(s.db, e.db) then s.(db := e.db) else s)
    else if e.Join? then JoinStep(s, e.cfg, e.req, e.now)
    else if e.id in s.machines then MachineStep(s, e, s.machines[e.id]) else s
  }

  ghost function Run(s: System, events: seq<Event>): System {
    if events == [] then s else Step(Run(s, events[..|events| - 1]), events[|events| - 1])
  }

  // ---------- keys belong to whoever generated them ----------

  ghost predicate Owns(minted: map<string, string>, id: string, key: string) { key in minted && minted[key] == id }

  ghost predicate MachineOk(minted: map<string, string>, id: string, m: Machine) {
    && Owns(minted, id, m.file)
    && (m.up ==> Owns(minted, id, m.mem) && Owns(minted, id, m.dev))
    && (!m.phase.Ready? ==> Owns(minted, id, m.phase.key))
    && (m.phase.Asserting? || m.phase.Stored? ==> m.up)
  }

  ghost predicate SystemOk(s: System) {
    && UniqueIds(s.db)
    && (forall i :: 0 <= i < |s.db.nodes| ==> Owns(s.minted, s.db.nodes[i].id, s.db.nodes[i].key))
    && (forall id :: id in s.machines ==> MachineOk(s.minted, id, s.machines[id]))
    && (forall r :: r in s.sent ==> Owns(s.minted, r.0, r.1))
  }

  /** No key of one node is registered for another. */
  lemma OwnKeyIsFree(s: System, id: string, key: string)
    requires SystemOk(s) && Owns(s.minted, id, key)
    ensures !KeyTaken(s.db.nodes, id, key)
    ensures Coordinators.Rekey(s.db, id, key).ok <==> NodeAt(s.db.nodes, id).Some?
  {
    forall j | 0 <= j < |s.db.nodes| && s.db.nodes[j].key == key ensures s.db.nodes[j].id == id {
      assert Owns(s.minted, s.db.nodes[j].id, s.db.nodes[j].key);
    }
  }

  lemma RekeyKeepsOwners(s: System, id: string, key: string)
    requires SystemOk(s) && Owns(s.minted, id, key)
    ensures SystemOk(s.(db := Coordinators.Rekey(s.db, id, key).db))
  {
  }

  lemma RotateKeepsOk(s: System, id: string, key: string)
    requires SystemOk(s) && id in s.machines
    ensures SystemOk(RotateStep(s, id, s.machines[id], key))
  {
    var m := s.machines[id];
    if m.phase == Ready && key !in s.minted {
      var t := RotateStep(s, id, m, key);
      forall x | x in t.machines ensures MachineOk(t.minted, x, t.machines[x]) {
        assert MachineOk(s.minted, x, s.machines[x]);
      }
    }
  }

  lemma JoinKeepsOk(s: System, cfg: Config, req: EnrollRequest, now: int)
    requires SystemOk(s)
    ensures SystemOk(JoinStep(s, cfg, req, now))
  {
    var t := JoinStep(s, cfg, req, now);
    if t != s {
      forall x | x in t.machines ensures MachineOk(t.minted, x, t.machines[x]) {
        assert x != req.id ==> MachineOk(s.minted, x, s.machines[x]);
      }
      forall i | 0 <= i < |t.db.nodes| ensures Owns(t.minted, t.db.nodes[i].id, t.db.nodes[i].key) {
        assert i < |s.db.nodes| ==> Owns(s.minted, s.db.nodes[i].id, s.db.nodes[i].key);
      }
    }
  }

  lemma StepKeepsOk(s: System, e: Event)
    requires SystemOk(s)
    ensures SystemOk(Step(s, e))
  {
    if e.Join? {
      JoinKeepsOk(s, e.cfg, e.req, e.now);
    } else if !e.Others? && e.id in s.machines {
      assert MachineOk(s.minted, e.id, s.machines[e.id]);
      if e.Rotate? {
        RotateKeepsOk(s, e.id, e.key);
      } else if e.Arrive? && (e.id, e.key) in s.sent {
        assert Owns(s.minted, (e.id, e.key).0, (e.id, e.key).1);
        RekeyKeepsOwners(s, e.id, e.key);
      }
    }
  }

  lemma {:induction false} RunKeepsOk(s: System, events: seq<Event>)
    requires SystemOk(s)
    ensures SystemOk(Run(s, events))
  {
    if events != [] {
      RunKeepsOk(s, events[..|events| - 1]);
      StepKeepsOk(Run(s, events[..|events| - 1]), events[|events| - 1]);
    }
  }

  /** A freshly enrolled fleet: every machine is down, its state file holding the registered key. */
  ghost predicate Enrolled(s: System) {
    && UniqueIds(s.db) && s.sent == {}
    && (forall i :: 0 <= i < |s.db.nodes| ==> Owns(s.minted, s.db.nodes[i].id, s.db.nodes[i].key))
    && (forall id :: id in s.machines ==>
          Registered(s.db, id).Some? && s.machines[id] == Machine(Registered(s.db, id).value, Registered(s.db, id).value, Registered(s.db, id).value, false, Ready))
  }

  /** The key the coordinator has for a node. */
  function Registered(db: Db, id: string): Option<string> {
    match NodeAt(db.nodes, id)
    case None => None
    case Some(i) => Some(db.nodes[i].key)
  }

  lemma RegisteredIs(db: Db, i: nat)
    requires UniqueIds(db) && i < |db.nodes|
    ensures Registered(db, db.nodes[i].id) == Some(db.nodes[i].key)
  {
  }

  lemma RekeyRegisters(db: Db, id: string, key: string)
    requires UniqueIds(db) && !KeyTaken(db.nodes, id, key)
    ensures UniqueIds(Coordinators.Rekey(db, id, key).db)
    ensures Registered(Coordinators.Rekey(db, id, key).db, id) == if Registered(db, id).None? then None else Some(key)
    ensures forall x :: x != id ==> Registered(Coordinators.Rekey(db, id, key).db, x) == Registered(db, x)
  {
    var t := Coordinators.Rekey(db, id, key).db;
    var at := NodeAt(db.nodes, id);
    if at.Some? {
      RegisteredIs(t, at.value);
      forall x | x != id ensures Registered(t, x) == Registered(db, x) {
        var j := NodeAt(db.nodes, x);
        if j.Some? {
          assert t.nodes[j.value] == db.nodes[j.value];
          RegisteredIs(t, j.value);
        } else {
          assert forall i :: 0 <= i < |t.nodes| ==> t.nodes[i].id == db.nodes[i].id;
        }
      }
    }
  }

  lemma OthersKeepRegistered(db: Db, db': Db, id: string)
    requires UniqueIds(db) && KeepsKeys(db, db')
    ensures Registered(db', id).None? || Registered(db', id) == Registered(db, id)
  {
    var at := NodeAt(db'.nodes, id);
    if at.Some? {
      var j :| 0 <= j < |db.nodes| && db'.nodes[at.value].id == db.nodes[j].id && db'.nodes[at.value].key == db.nodes[j].key;
      RegisteredIs(db, j);
    }
  }
}
