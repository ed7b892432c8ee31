/** The direct-path prober: one state machine per peer (internal/agent/probe.go). */
module Prober {
  import opened Text
  import opened Store
  import opened Netmaps

  const PROBE_TICK := 3 * SECOND
  const CANDIDATE_WINDOW := 10 * SECOND
  const DIRECT_STALE_AFTER := 3 * 60 * SECOND
  const RETRY_AFTER_FAIL := 30 * 60 * SECOND
  const RETRY_AFTER_DEMOTE := 2 * 60 * SECOND
  const MAX_CANDIDATES := 8

  /** time.Time{}: what a missing handshake or an unset retry time reads as. */
  const ZERO_TIME := 0

  datatype Phase = Idle | Probing | Direct

  datatype ProbeState = ProbeState(
    phase: Phase, candidates: seq<string>, candIdx: nat, attemptAt: int, nextRetryAt: int, confirmed: string)

  const UNPROBED := ProbeState(Idle, [], 0, ZERO_TIME, ZERO_TIME, "")

  /** The candidate endpoint to install, if any. */
  function EndpointOf(ps: ProbeState): string {
    if ps.phase == Idle || ps.candIdx >= |ps.candidates| then "" else ps.candidates[ps.candIdx]
  }

  // ---------- candidates ----------

  function Dialable(dialable: string -> bool, list: seq<string>): seq<string> {
    if list == [] then []
    else
      var c := list[|list| - 1];
      Dialable(dialable, list[..|list| - 1]) + if dialable(c) then [c] else []
  }

  /** The first eight dialable endpoints. */
  function ValidOf(dialable: string -> bool, list: seq<string>): (r: seq<string>)
    ensures |r| <= MAX_CANDIDATES
  {
    var all := Dialable(dialable, list);
    if |all| <= MAX_CANDIDATES then all else all[..MAX_CANDIDATES]
  }

  lemma {:induction false} DialableMembers(dialable: string -> bool, list: seq<string>)
    ensures forall c :: c in Dialable(dialable, list) <==> c in list && dialable(c)
  {
    if list != [] {
      DialableMembers(dialable, list[..|list| - 1]);
      assert list == list[..|list| - 1] + [list[|list| - 1]];
    }
  }

  /** A peer is worth probing iff it names some dialable endpoint. */
  lemma ValidEmptyIff(dialable: string -> bool, list: seq<string>)
    ensures ValidOf(dialable, list) == [] <==> forall c :: c in list ==> !dialable(c)
    ensures forall c :: c in ValidOf(dialable, list) ==> dialable(c)
  {
    DialableMembers(dialable, list);
    var all := Dialable(dialable, list);
    if all != [] {
      assert all[0] in all;
    }
  }

  /** The candidates kept are the first eight that can be dialled, or all if there are fewer. */
  lemma ValidExact(dialable: string -> bool, list: seq<string>)
    ensures ValidOf(dialable, list) <= Dialable(dialable, list)
    ensures |ValidOf(dialable, list)| == 8 || ValidOf(dialable, list) == Dialable(dialable, list)
  {
  }

  lemma {:induction false} DialablePrefix(dialable: string -> bool, list: seq<string>, i: nat)
    requires i <= |list|
    ensures Dialable(dialable, list[..i]) <= Dialable(dialable, list)
    decreases |list|
  {
    if i < |list| {
      var init := list[..|list| - 1];
      DialablePrefix(dialable, init, i);
      assert init[..i] == list[..i];
    } else {
      assert list[..i] == list;
    }
  }

  method ValidCandidates(dialable: string -> bool, list: seq<string>) returns (out: seq<string>)
    ensures out == ValidOf(dialable, list)
  {
    out := [];
    for i := 0 to |list|
      invariant out == Dialable(dialable, list[..i]) && |out| < MAX_CANDIDATES
    {
      assert list[..i + 1][..i] == list[..i];
      if dialable(list[i]) {
        out := out + [list[i]];
        if |out| == MAX_CANDIDATES {
          DialablePrefix(dialable, list, i + 1);
          break;
        }
      }
    }
    assert list[..|list|] == list;
  }

  // ---------- one peer ----------

  /** syncProbes for one peer: a new candidate list restarts or ends probing. */
  function SyncOne(ps: ProbeState, cands: seq<string>, now: int): ProbeState {
    if JoinCSV(ps.candidates) == JoinCSV(cands) then ps
    else
      var ps1 := ps.(candidates := cands);
      var ps2 := if ps1.phase == Probing then ps1.(candIdx := 0, attemptAt := now) else ps1;
      var ps3 := if ps2.phase == Idle then ps2.(nextRetryAt := ZERO_TIME) else ps2;
      if cands == [] && ps3.phase != Idle then ps3.(phase := Idle, confirmed := "") else ps3
  }

  method SyncState(ps: ProbeState, cands: seq<string>, now: int) returns (r: ProbeState)
    ensures r == SyncOne(ps, cands, now)
  {
    r := ps;
    if JoinCSV(ps.candidates) != JoinCSV(cands) {
      r := r.(candidates := cands);
      if r.phase == Probing {
        r := r.(candIdx := 0, attemptAt := now);
      }
      if r.phase == Idle {
        r := r.(nextRetryAt := ZERO_TIME);
      }
      if |cands| == 0 && r.phase != Idle {
        r := r.(phase := Idle, confirmed := "");
      }
    }
  }

  /** probeStep for one peer, with its last handshake and live endpoint. */
  function StepOne(ps: ProbeState, now: int, handshake: int, live: string): ProbeState {
    match ps.phase
    case Direct =>
      if now - handshake > DIRECT_STALE_AFTER
      then ps.(phase := Idle, confirmed := "", nextRetryAt := now + RETRY_AFTER_DEMOTE)
      else ps
    case Probing =>
      if now - handshake < DIRECT_STALE_AFTER then ps.(phase := Direct, confirmed := live)
      else if now - ps.attemptAt > CANDIDATE_WINDOW then
        var next := ps.(candIdx := ps.candIdx + 1, attemptAt := now);
        if next.candIdx >= |next.candidates|
        then next.(phase := Idle, nextRetryAt := now + RETRY_AFTER_FAIL)
        else next
      else ps
    case Idle =>
      if ps.candidates == [] then ps
      else if now - handshake < DIRECT_STALE_AFTER && live != "" then ps.(phase := Direct, confirmed := live)
      else if now > ps.nextRetryAt then ps.(phase := Probing, candIdx := 0, attemptAt := now)
      else ps
  }

  /** The switch of probeStep; `changed` asks for the peers to be composed again. */
  method StepState(ps: ProbeState, now: int, handshake: int, live: string) returns (r: ProbeState, changed: bool)
    ensures r == StepOne(ps, now, handshake, live)
    ensures changed <==> r != ps
  {
    r, changed := ps, false;
    match ps.phase
    case Direct =>
      if now - handshake > DIRECT_STALE_AFTER {
        r := r.(phase := Idle, confirmed := "", nextRetryAt := now + RETRY_AFTER_DEMOTE);
        changed := true;
      }
    case Probing =>
      if now - handshake < DIRECT_STALE_AFTER {
        r := r.(phase := Direct, confirmed := live);
        changed := true;
      } else if now - r.attemptAt > CANDIDATE_WINDOW {
        r := r.(candIdx := r.candIdx + 1);
        r := r.(attemptAt := now);
        if r.candIdx >= |r.candidates| {
          r := r.(phase := Idle, nextRetryAt := now + RETRY_AFTER_FAIL);
        }
        changed := true;
      }
    case Idle =>
      if |r.candidates| == 0 {
      } else if now - handshake < DIRECT_STALE_AFTER && live != "" {
        r := r.(phase := Direct, confirmed := live);
        changed := true;
      } else if now > r.nextRetryAt {
        r := r.(phase := Probing, candIdx := 0, attemptAt := now);
        changed := true;
      }
  }

  /** Probing points at a candidate, a direct path has candidates, and they are few. */
  ghost predicate WellFormed(ps: ProbeState) {
    && (ps.phase == Probing ==> ps.candIdx < |ps.candidates|)
    && (ps.phase == Direct ==> ps.candidates != [])
    && |ps.candidates| <= MAX_CANDIDATES
    && "" !in ps.candidates
  }

  lemma SyncKeepsWellFormed(ps: ProbeState, cands: seq<string>, now: int)
    requires WellFormed(ps) && |cands| <= MAX_CANDIDATES && "" !in cands
    ensures WellFormed(SyncOne(ps, cands, now))
    ensures SyncOne(ps, cands, now).candidates == [] <==> cands == []
    ensures SyncOne(ps, cands, now).phase == Direct ==> ps.phase == Direct && SyncOne(ps, cands, now).confirmed == ps.confirmed
  {
    if JoinCSV(ps.candidates) == JoinCSV(cands) {
      JoinEmptiness(ps.candidates, cands);
    }
  }

  lemma StepKeepsWellFormed(ps: ProbeState, now: int, handshake: int, live: string)
    requires WellFormed(ps)
    ensures WellFormed(StepOne(ps, now, handshake, live))
    ensures StepOne(ps, now, handshake, live).candidates == ps.candidates
    ensures StepOne(ps, now, handshake, live).phase == Direct ==> now - handshake <= DIRECT_STALE_AFTER
    ensures ps.candidates == [] ==> StepOne(ps, now, handshake, live) == ps && ps.phase == Idle
  {
  }

  /** What a new candidate list does: restart probing, keep a direct path, wake an idle peer, or end it all. */
  lemma SyncExact(ps: ProbeState, cands: seq<string>, now: int, t: int, handshake: int, live: string)
    requires WellFormed(ps) && |cands| <= MAX_CANDIDATES && "" !in cands
    ensures var r := SyncOne(ps, cands, now);
      if JoinCSV(ps.candidates) == JoinCSV(cands) then r == ps
      else
        && r.candidates == cands
        && (cands == [] ==> r.phase == Idle && (ps.phase != Idle ==> r.confirmed == ""))
        && (cands != [] ==> r.phase == ps.phase && r.confirmed == ps.confirmed)
        && (cands != [] && ps.phase == Probing ==> r.candIdx == 0 && r.attemptAt == now && EndpointOf(r) == cands[0])
        && (cands != [] && ps.phase == Idle && t > ZERO_TIME && t - handshake >= DIRECT_STALE_AFTER ==>
              Begins(StepOne(r, t, handshake, live), cands, t))
  {
  }

  /** Just started on the first candidate. */
  ghost predicate Begins(ps: ProbeState, cands: seq<string>, t: int) {
    ps.phase == Probing && ps.candidates == cands && ps.candIdx == 0 && ps.attemptAt == t
  }

  // ---------- direct or not ----------

  /** How recent, against three minutes, a handshake must be for a peer in this phase to be direct after a step. */
  predicate Recent(phase: Phase, now: int, handshake: int, live: string) {
    match phase
    case Direct => now - handshake <= 180_000_000_000
    case Probing => now - handshake < 180_000_000_000
    case Idle => now - handshake < 180_000_000_000 && live != ""
  }

  /** After a step a peer is direct iff it has candidates and a recent handshake; the path confirmed is the one reported. */
  lemma StepDirectIff(ps: ProbeState, now: int, handshake: int, live: string)
    requires WellFormed(ps)
    ensures var r := StepOne(ps, now, handshake, live);
      && (r.phase == Direct <==> ps.candidates != [] && Recent(ps.phase, now, handshake, live))
      && (r.phase == Direct ==> r == if ps.phase == Direct then ps else ps.(phase := Direct, confirmed := live))
  {
  }

  // ---------- probing ends ----------

  /** What the device reports about one peer. */
  datatype Seen = Seen(handshake: int, live: string)

  /** A tick: its time and what the device reports then. */
  datatype Look = Look(at: int, seen: Seen)

  function TickRun(ps: ProbeState, looks: seq<Look>): ProbeState {
    if looks == [] then ps
    else
      var l := looks[|looks| - 1];
      StepOne(TickRun(ps, looks[..|looks| - 1]), l.at, l.seen.handshake, l.seen.live)
  }

  /** The time of the last tick; before any, the start. */
  function LastAt(start: int, looks: seq<Look>): int { if looks == [] then start else looks[|looks| - 1].at }

  /** Ticks no more than three seconds apart, from the start on. */
  ghost predicate Ticking(start: int, looks: seq<Look>) {
    forall i :: 0 <= i < |looks| ==> LastAt(start, looks[..i]) <= looks[i].at <= LastAt(start, looks[..i]) + PROBE_TICK
  }

  ghost predicate SilentLook(l: Look) { l.at - l.seen.handshake >= DIRECT_STALE_AFTER }

  /** No tick sees a fresh handshake. */
  ghost predicate Silent(looks: seq<Look>) { forall i :: 0 <= i < |looks| ==> SilentLook(looks[i]) }

  ghost predicate NotAfter(looks: seq<Look>, t: int) { forall i :: 0 <= i < |looks| ==> looks[i].at <= t }

  /** 13 s for each of n candidates: the window plus one tick. */
  function Budget(n: nat): int { 13_000_000_000 * n }

  /** Where a silent run that began probing at `start` can be at time t. */
  ghost predicate OnSchedule(ps: ProbeState, cands: seq<string>, start: int, t: int) {
    && ps.candidates == cands
    && match ps.phase
       case Probing =>
         && ps.candIdx < |cands|
         && start + CANDIDATE_WINDOW * ps.candIdx <= ps.attemptAt <= start + Budget(ps.candIdx)
         && ps.attemptAt <= t <= ps.attemptAt + CANDIDATE_WINDOW
       case Idle =>
         && ps.candIdx == |cands|
         && start + CANDIDATE_WINDOW * |cands| + RETRY_AFTER_FAIL <= ps.nextRetryAt <= start + Budget(|cands|) + RETRY_AFTER_FAIL
       case Direct => false
  }

  lemma SilentStep(ps: ProbeState, cands: seq<string>, start: int, t: int, l: Look)
    requires OnSchedule(ps, cands, start, t) && t <= l.at <= t + PROBE_TICK && SilentLook(l)
    requires l.at <= start + RETRY_AFTER_FAIL
    ensures var next := StepOne(ps, l.at, l.seen.handshake, l.seen.live);
      && OnSchedule(next, cands, start, l.at)
      && ps.candIdx <= next.candIdx <= ps.candIdx + 1
      && (ps.phase == Idle ==> next == ps)
  {
    Windows(ps.candIdx);
  }

  lemma Windows(n: nat)
    ensures CANDIDATE_WINDOW * (n + 1) == CANDIDATE_WINDOW * n + CANDIDATE_WINDOW && 0 <= CANDIDATE_WINDOW * n
  {
  }

  lemma LooksSnoc(start: int, looks: seq<Look>)
    requires looks != [] && Ticking(start, looks) && Silent(looks)
    ensures var init := looks[..|looks| - 1];
      && Ticking(start, init) && Silent(init)
      && LastAt(start, init) <= looks[|looks| - 1].at <= LastAt(start, init) + PROBE_TICK && SilentLook(looks[|looks| - 1])
  {
    var n := |looks| - 1;
    var init := looks[..n];
    forall i | 0 <= i < n ensures LastAt(start, init[..i]) <= init[i].at <= LastAt(start, init[..i]) + PROBE_TICK && SilentLook(init[i]) {
      assert init[..i] == looks[..i] && init[i] == looks[i];
    }
    assert LastAt(start, looks[..n]) <= looks[n].at;
  }

  /**
   * With no handshake and no netmap change, candidates are tried once each and
   * in order, each for at least 10 s: after every tick the peer still probes,
   * within 13 s per candidate so far, or it is idle and stays idle.
   */
  lemma {:induction false} ProbingSchedule(ps: ProbeState, start: int, looks: seq<Look>)
    requires Ticking(start, looks) && Silent(looks) && NotAfter(looks, start + RETRY_AFTER_FAIL)
    requires Begins(ps, ps.candidates, start) && ps.candidates != []
    ensures OnSchedule(TickRun(ps, looks), ps.candidates, start, LastAt(start, looks))
    ensures looks != [] ==>
      var before := TickRun(ps, looks[..|looks| - 1]);
      var after := TickRun(ps, looks);
      before.candIdx <= after.candIdx <= before.candIdx + 1 && (before.phase == Idle ==> after == before)
  {
    if looks != [] {
      var init, l := looks[..|looks| - 1], looks[|looks| - 1];
      LooksSnoc(start, looks);
      ProbingSchedule(ps, start, init);
      SilentStep(TickRun(ps, init), ps.candidates, start, LastAt(start, init), l);
    }
  }

  /** Probing ends: past 13 s per candidate (at most 104 s) the peer is idle. */
  lemma ProbingEnds(ps: ProbeState, start: int, looks: seq<Look>)
    requires Ticking(start, looks) && Silent(looks) && NotAfter(looks, start + RETRY_AFTER_FAIL)
    requires WellFormed(ps) && Begins(ps, ps.candidates, start)
    requires LastAt(start, looks) >= start + Budget(|ps.candidates|)
    ensures var end := TickRun(ps, looks);
      && end.phase == Idle
      && end.candIdx == |ps.candidates|
      && start + 1_800_000_000_000 <= end.nextRetryAt <= start + 104_000_000_000 + 1_800_000_000_000
  {
    ProbingSchedule(ps, start, looks);
    BudgetGrows(TickRun(ps, looks).candIdx, |ps.candidates|);
    BudgetGrows(|ps.candidates| - 1, MAX_CANDIDATES);
    Windows(|ps.candidates|);
  }

  lemma BudgetGrows(k: nat, n: nat)
    ensures k < n ==> Budget(k) + 13_000_000_000 <= Budget(n)
    ensures Budget(8) == 104_000_000_000
  {
  }

  /** Every candidate has its turn: while the index climbs from 0 past k, some tick leaves it at k. */
  lemma {:induction false} EachCandidateTried(ps: ProbeState, start: int, looks: seq<Look>, k: nat) returns (m: nat)
    requires Ticking(start, looks) && Silent(looks) && NotAfter(looks, start + RETRY_AFTER_FAIL)
    requires Begins(ps, ps.candidates, start) && k < |ps.candidates| && k <= TickRun(ps, looks).candIdx
    ensures m <= |looks| && TickRun(ps, looks[..m]).phase == Probing && TickRun(ps, looks[..m]).candIdx == k
    decreases |looks|
  {
    ProbingSchedule(ps, start, looks);
    if TickRun(ps, looks).candIdx == k {
      m := |looks|;
      assert looks[..m] == looks;
    } else {
      var init := looks[..|looks| - 1];
      LooksSnoc(start, looks);
      m := EachCandidateTried(ps, start, init, k);
      assert looks[..m] == init[..m];
    }
  }

  /** A backed-off peer with silent handshakes does nothing before its retry time. */
  lemma {:induction false} BackoffHolds(ps: ProbeState, looks: seq<Look>)
    requires ps.phase == Idle && Silent(looks) && NotAfter(looks, ps.nextRetryAt)
    ensures TickRun(ps, looks) == ps
  {
    if looks != [] {
      BackoffHolds(ps, looks[..|looks| - 1]);
    }
  }

  /** And then starts over with the first candidate. */
  lemma BackoffThenProbes(ps: ProbeState, looks: seq<Look>, l: Look)
    requires ps.phase == Idle && ps.candidates != [] && Silent(looks) && NotAfter(looks, ps.nextRetryAt)
    requires SilentLook(l) && l.at > ps.nextRetryAt
    ensures Begins(TickRun(ps, looks + [l]), ps.candidates, l.at)
  {
    BackoffHolds(ps, looks);
    assert (looks + [l])[..|looks|] == looks;
  }

  /** A direct path that goes stale: idle at once, idle for two silent minutes, then probing again. */
  lemma DemotedRetries(ps: ProbeState, lost: Look, looks: seq<Look>, l: Look)
    requires WellFormed(ps) && ps.phase == Direct && lost.at - lost.seen.handshake > 180_000_000_000
    requires Silent(looks) && NotAfter(looks, lost.at + 120_000_000_000) && SilentLook(l) && l.at > lost.at + 120_000_000_000
    ensures var idle := TickRun(ps, [lost]);
      && idle.phase == Idle && idle.confirmed == "" && EndpointOf(idle) == ""
      && TickRun(idle, looks) == idle
      && Begins(TickRun(idle, looks + [l]), ps.candidates, l.at)
  {
    var idle := TickRun(ps, [lost]);
    assert [lost][..0] == [] && TickRun(ps, []) == ps;
    assert idle == StepOne(ps, lost.at, lost.seen.handshake, lost.seen.live);
    BackoffHolds(idle, looks);
    BackoffThenProbes(idle, looks, l);
  }

  // ---------- which endpoints ----------

  lemma DialableOne(dialable: string -> bool, c: string)
    ensures Dialable(dialable, [c]) == if dialable(c) then [c] else []
  {
    assert [c][..0] == [] && Dialable(dialable, []) == [];
  }

  /** Dropping what cannot be dialled goes endpoint by endpoint and keeps the order. */
  lemma {:induction false} DialableConcat(dialable: string -> bool, xs: seq<string>, ys: seq<string>)
    ensures Dialable(dialable, xs + ys) == Dialable(dialable, xs) + Dialable(dialable, ys)
  {
    if ys == [] {
      assert xs + ys == xs;
    } else {
      var zs, init := xs + ys, ys[..|ys| - 1];
      var last := if dialable(ys[|ys| - 1]) then [ys[|ys| - 1]] else [];
      assert zs[..|zs| - 1] == xs + init && zs[|zs| - 1] == ys[|ys| - 1];
      calc {
        Dialable(dialable, zs);
        Dialable(dialable, xs + init) + last;
        { DialableConcat(dialable, xs, init); }
        (Dialable(dialable, xs) + Dialable(dialable, init)) + last;
        Dialable(dialable, xs) + (Dialable(dialable, init) + last);
        Dialable(dialable, xs) + Dialable(dialable, ys);
      }
    }
  }
}
