/** Restarts converge after rotations with crashes and failures at every point (internal/agent/rekey.go). */
module Convergence {
  import opened Options
  import opened Store
  import opened Netmaps
  import opened Coordinators
  import opened Rekeying

  /** State file, daemon and device hold one key and the coordinator has it, unless the node is gone. */
  ghost predicate Converged(s: System, id: string) {
    && id in s.machines && s.machines[id].up
    && s.machines[id].mem == s.machines[id].file && s.machines[id].dev == s.machines[id].file
    && (Registered(s.db, id).None? || Registered(s.db, id) == Some(s.machines[id].file))
  }

  /** No request for another key of this node is on the wire. */
  ghost predicate OnlySent(s: System, id: string, key: string) { forall k :: (id, k) in s.sent ==> k == key }

  /** The event is about this node's own process or requests. */
  predicate About(e: Event, id: string) { !e.Others? && !e.Join? && e.id == id }

  /** The daemon is left to itself: nothing but deliveries and cache writes happen to this node. */
  ghost predicate Undisturbed(events: seq<Event>, id: string) {
    forall i :: 0 <= i < |events| ==> !About(events[i], id) || events[i].Arrive? || events[i].CacheSave?
  }

  /** Started with key k and not touched since. */
  ghost predicate Running(s: System, id: string, k: string) {
    && id in s.machines && (s.machines[id].phase == Ready || s.machines[id].phase == Asserting(k))
    && s.machines[id] == Machine(k, k, k, true, s.machines[id].phase)
  }

  lemma StepKeepsRunning(s: System, e: Event, id: string, k: string)
    requires Running(s, id, k) && (!About(e, id) || e.Arrive? || e.CacheSave?)
    ensures Running(Step(s, e), id, k)
  {
  }

  /** The last rekey request of this node that reached the coordinator during the run. */
  ghost function LastArrived(s: System, events: seq<Event>, id: string): Option<string> {
    if events == [] then None
    else
      var init, e := events[..|events| - 1], events[|events| - 1];
      if About(e, id) && e.Arrive? && (id, e.key) in Run(s, init).sent then Some(e.key) else LastArrived(s, init, id)
  }

  /** What the coordinator must have registered if it still knows the node. */
  ghost function Expected(s: System, events: seq<Event>, id: string): Option<string> {
    var last := LastArrived(s, events, id);
    if last.Some? then last else Registered(s.db, id)
  }

  lemma StepRegisters(s: System, e: Event, id: string)
    requires SystemOk(s) && id in s.machines
    ensures var now := Registered(Step(s, e).db, id);
      now.None? || now == if About(e, id) && e.Arrive? && (id, e.key) in s.sent then Some(e.key) else Registered(s.db, id)
  {
    if e.Others? {
      if KeepsKeys(s.db, e.db) {
        OthersKeepRegistered(s.db, e.db, id);
      }
    } else if e.Join? {
      JoinRegisters(s, e.cfg, e.req, e.now, id);
    } else if e.Arrive? && e.id in s.machines && (e.id, e.key) in s.sent {
      assert Owns(s.minted, (e.id, e.key).0, (e.id, e.key).1);
      OwnKeyIsFree(s, e.id, e.key);
      RekeyRegisters(s.db, e.id, e.key);
    }
  }

  lemma JoinRegisters(s: System, cfg: Config, req: EnrollRequest, now: int, id: string)
    requires id in s.machines
    ensures Registered(JoinStep(s, cfg, req, now).db, id) == Registered(s.db, id)
  {
    var t := JoinStep(s, cfg, req, now);
    if t != s {
      assert t.db.nodes[..|t.db.nodes| - 1] == s.db.nodes;
    }
  }

  /** Over any run in which the daemon is left to itself, the coordinator has the key that arrived last. */
  lemma {:induction false} RunRegisters(s: System, events: seq<Event>, id: string, k: string)
    requires SystemOk(s) && Running(s, id, k) && Undisturbed(events, id)
    ensures Running(Run(s, events), id, k)
    ensures Registered(Run(s, events).db, id).None? || Registered(Run(s, events).db, id) == Expected(s, events, id)
  {
    if events != [] {
      var init, e := events[..|events| - 1], events[|events| - 1];
      RunRegisters(s, init, id, k);
      RunKeepsOk(s, init);
      StepKeepsRunning(Run(s, init), e, id, k);
      StepRegisters(Run(s, init), e, id);
    }
  }

  /** With only its re-assert on the wire, that is what arrives last once it arrives. */
  lemma {:induction false} AssertArrives(s: System, events: seq<Event>, id: string, k: string)
    requires Running(s, id, k) && Undisturbed(events, id) && OnlySent(s, id, k) && (id, k) in s.sent
    ensures OnlySent(Run(s, events), id, k) && Running(Run(s, events), id, k)
    ensures LastArrived(s, events, id) == Some(k) || (LastArrived(s, events, id).None? && (id, k) in Run(s, events).sent)
    ensures Arrive(id, k) in events ==> LastArrived(s, events, id) == Some(k)
  {
    if events != [] {
      var init, e := events[..|events| - 1], events[|events| - 1];
      AssertArrives(s, init, id, k);
      StepKeepsRunning(Run(s, init), e, id, k);
      assert Arrive(id, k) in events ==> Arrive(id, k) in init || e == Arrive(id, k);
      StepKeepsSent(Run(s, init), e, id, k);
    }
  }

  lemma StepKeepsSent(s: System, e: Event, id: string, k: string)
    requires id in s.machines && OnlySent(s, id, k) && (!About(e, id) || e.Arrive? || e.CacheSave?)
    ensures OnlySent(Step(s, e), id, k)
    ensures (id, k) in s.sent && e != Arrive(id, k) ==> (id, k) in Step(s, e).sent
  {
  }

  lemma EnrolledOk(s: System)
    requires Enrolled(s)
    ensures SystemOk(s)
  {
    forall id | id in s.machines ensures MachineOk(s.minted, id, s.machines[id]) {
      var i := NodeAt(s.db.nodes, id).value;
      assert Owns(s.minted, s.db.nodes[i].id, s.db.nodes[i].key);
    }
  }

  /** Over every run of a fleet, a re-assert of the key in the state file never meets a conflict. */
  lemma NeverTaken(s0: System, events: seq<Event>, id: string)
    requires Enrolled(s0) && id in Run(s0, events).machines
    ensures var s := Run(s0, events);
      var r := Coordinators.Rekey(s.db, id, s.machines[id].file);
      !KeyTaken(s.db.nodes, id, s.machines[id].file) && (r.ok <==> Registered(s.db, id).Some?)
      && (r.ok ==> Registered(r.db, id) == Some(s.machines[id].file))
  {
    EnrolledOk(s0);
    RunKeepsOk(s0, events);
    var s := Run(s0, events);
    assert MachineOk(s.minted, id, s.machines[id]);
    OwnKeyIsFree(s, id, s.machines[id].file);
    RekeyRegisters(s.db, id, s.machines[id].file);
  }

  ghost function Restarted(s: System, id: string): System { Step(Step(s, Crash(id)), Start(id)) }

  /**
   * Rotation converges. After any run of the fleet, enrolments, crashes, lost
   * replies and failed saves or swaps included, crash and restart a node and
   * leave its daemon alone: state file, memory and device hold one key, and the
   * coordinator agrees iff the last request of this node to reach it carried
   * that key. That is so once the re-assert has arrived, unless an older request
   * is still on the wire.
   */
  lemma RestartConverges(s0: System, before: seq<Event>, id: string, after: seq<Event>)
    requires Enrolled(s0) && id in Run(s0, before).machines && Undisturbed(after, id)
    ensures var s := Run(s0, before);
      var k := s.machines[id].file;
      var t := Run(Restarted(s, id), after);
      && Running(t, id, k)
      && (Converged(t, id) <==> Registered(t.db, id).None? || Expected(Restarted(s, id), after, id) == Some(k))
      && (OnlySent(s, id, k) && Arrive(id, k) in after ==> Converged(t, id))
  {
    EnrolledOk(s0);
    RunKeepsOk(s0, before);
    var s := Run(s0, before);
    var k := s.machines[id].file;
    var s2 := Restarted(s, id);
    StepKeepsOk(s, Crash(id));
    StepKeepsOk(Step(s, Crash(id)), Start(id));
    assert Running(s2, id, k) && (id, k) in s2.sent;
    RunRegisters(s2, after, id, k);
    if OnlySent(s, id, k) {
      assert OnlySent(s2, id, k);
      AssertArrives(s2, after, id, k);
    }
  }

  /** One late request: it undoes the convergence iff it carries another key. */
  lemma LateRequestDiverges(s: System, id: string, key: string)
    requires SystemOk(s) && Converged(s, id) && Registered(s.db, id).Some? && (id, key) in s.sent
    ensures Converged(Step(s, Arrive(id, key)), id) <==> key == s.machines[id].file
  {
    assert Owns(s.minted, (id, key).0, (id, key).1);
    OwnKeyIsFree(s, id, key);
    RekeyRegisters(s.db, id, key);
  }

  // ---------- what one rotation leaves behind ----------

  ghost function Rotation(s: System, id: string, key: string, saveOk: bool, swapOk: bool): System {
    Step(Step(Step(Step(s, Rotate(id, key)), Arrive(id, key)), Save(id, saveOk)), Swap(id, swapOk))
  }

  /**
   * The coordinator goes first: it and the daemon's memory hold the new key
   * even when the save or the swap fails, so without a restart the rotation is
   * consistent exactly when both succeed.
   */
  lemma RotationOutcome(s: System, id: string, key: string, saveOk: bool, swapOk: bool)
    requires SystemOk(s) && Converged(s, id) && s.machines[id].phase == Ready && Registered(s.db, id).Some? && key !in s.minted
    ensures var t := Rotation(s, id, key, saveOk, swapOk);
      && id in t.machines && Registered(t.db, id) == Some(key)
      && t.machines[id] == Machine(if saveOk then key else s.machines[id].file, key,
                                   if saveOk && swapOk then key else s.machines[id].dev, true, Ready)
      && (Converged(t, id) <==> saveOk && swapOk)
  {
    var s1 := Step(s, Rotate(id, key));
    StepKeepsOk(s, Rotate(id, key));
    assert (id, key) in s1.sent && Owns(s1.minted, id, key);
    OwnKeyIsFree(s1, id, key);
    RekeyRegisters(s1.db, id, key);
    assert Owns(s.minted, id, s.machines[id].file);
  }

  /** A rotation whose save failed reaches the state file with the next cache write; the device waits for a restart. */
  lemma CacheWriteHeals(s: System, id: string, key: string, swapOk: bool)
    requires SystemOk(s) && Converged(s, id) && s.machines[id].phase == Ready && Registered(s.db, id).Some? && key !in s.minted
    ensures var t := Step(Rotation(s, id, key, false, swapOk), CacheSave(id));
      id in t.machines && Registered(t.db, id) == Some(key) && t.machines[id] == Machine(key, key, s.machines[id].dev, true, Ready)
  {
    RotationOutcome(s, id, key, false, swapOk);
  }

  /** A rotation the coordinator refuses, as it does for a deleted node, changes no key anywhere. */
  lemma RefusedRotation(s: System, id: string, key: string, saveOk: bool, swapOk: bool)
    requires id in s.machines && s.machines[id].phase == Ready && Registered(s.db, id).None? && key !in s.minted
    ensures var t := Rotation(s, id, key, saveOk, swapOk);
      id in t.machines && t.machines[id] == s.machines[id] && t.db == s.db
  {
    var s1 := Step(s, Rotate(id, key));
    assert s1.machines[id].phase == Rotating(key) && (id, key) in s1.sent;
    var s2 := Step(s1, Arrive(id, key));
    assert !Coordinators.Rekey(s1.db, id, key).ok;
    assert s2.machines[id] == s.machines[id] && s2.db == s.db;
  }

  // ---------- a run that a late request undoes ----------

  lemma RunSnoc(s: System, events: seq<Event>, e: Event)
    ensures Run(s, events + [e]) == Step(Run(s, events), e)
  {
    assert (events + [e])[..|events|] == events;
  }

  /** A clean start, then a rotation whose request lingers while the node crashes. */
  function LingeringRun(id: string, k1: string, k2: string): seq<Event> {
    [] + [Start(id)] + [Arrive(id, k1)] + [Rotate(id, k2)] + [GiveUp(id)] + [Crash(id)]
  }

  function LateRun(id: string, k1: string, k2: string): seq<Event> {
    LingeringRun(id, k1, k2) + [Start(id)] + [Arrive(id, k1)]
  }

  lemma LingeringReaches(s0: System, id: string, k2: string)
    requires Enrolled(s0) && id in s0.machines && k2 !in s0.minted
    ensures var k1 := s0.machines[id].file;
      var s := Run(s0, LingeringRun(id, k1, k2));
      id in s.machines && s.machines[id] == Machine(k1, k1, k1, false, Ready) && s.sent == {(id, k2)} && s.db == s0.db
  {
    var k1 := s0.machines[id].file;
    CleanStart(s0, id);
    var s2 := Run(s0, [] + [Start(id)] + [Arrive(id, k1)]);
    RunSnoc(s0, [] + [Start(id)] + [Arrive(id, k1)], Rotate(id, k2));
    RunSnoc(s0, [] + [Start(id)] + [Arrive(id, k1)] + [Rotate(id, k2)], GiveUp(id));
    RunSnoc(s0, [] + [Start(id)] + [Arrive(id, k1)] + [Rotate(id, k2)] + [GiveUp(id)], Crash(id));
    var s3 := Step(s2, Rotate(id, k2));
    assert s3.sent == {(id, k2)} && s3.machines[id].phase == Rotating(k2);
  }

  lemma CleanStart(s0: System, id: string)
    requires Enrolled(s0) && id in s0.machines
    ensures var k1 := s0.machines[id].file;
      var s := Run(s0, [] + [Start(id)] + [Arrive(id, k1)]);
      id in s.machines && s.machines[id] == Machine(k1, k1, k1, true, Ready) && s.sent == {} && s.db == s0.db && s.minted == s0.minted
  {
    var k1 := s0.machines[id].file;
    RunSnoc(s0, [], Start(id));
    RunSnoc(s0, [] + [Start(id)], Arrive(id, k1));
    var s1 := Step(s0, Start(id));
    assert s1.sent == {(id, k1)} && s1.machines[id] == Machine(k1, k1, k1, true, Asserting(k1));
  }

  /** In any fleet, with any new key: the node converges after its restart and is undone by the lingering request. */
  lemma LateRequestWitness(s0: System, id: string, k2: string)
    requires Enrolled(s0) && id in s0.machines && k2 !in s0.minted
    ensures var k1 := s0.machines[id].file;
      && Converged(Run(s0, LateRun(id, k1, k2)), id)
      && !Converged(Run(s0, LateRun(id, k1, k2) + [Arrive(id, k2)]), id)
  {
    var k1 := s0.machines[id].file;
    var base := LingeringRun(id, k1, k2);
    EnrolledOk(s0);
    assert MachineOk(s0.minted, id, s0.machines[id]);
    LingeringReaches(s0, id, k2);
    RunSnoc(s0, base, Start(id));
    RunSnoc(s0, base + [Start(id)], Arrive(id, k1));
    RunSnoc(s0, LateRun(id, k1, k2), Arrive(id, k2));
    var s6 := Run(s0, base + [Start(id)]);
    assert s6.machines[id] == Machine(k1, k1, k1, true, Asserting(k1)) && (id, k1) in s6.sent && (id, k2) in s6.sent;
    var s7 := Run(s0, LateRun(id, k1, k2));
    assert s7.db == s0.db && (id, k2) in s7.sent;
    RunKeepsOk(s0, LateRun(id, k1, k2));
    LateRequestDiverges(s7, id, k2);
  }
}
