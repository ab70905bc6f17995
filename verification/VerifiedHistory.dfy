/** The verified session of the lifecycle bridge and the phases its tracker
    collects, told by the events they have seen (src/GattProtocol.cpp,
    `LocalGattLifecycleBridge` and `VerifiedAccessPhaseTracker`). */
module VerifiedHistory {
  import opened Wrappers
  import opened Words
  import opened AccessEvents

  // ---------- Phases ----------

  /** The event opens the session to be tracked. */
  predicate Opens(e: Event) { e.code == ProofVerified && e.session != 0 && e.credential != 0 }

  /** Where the session being tracked was opened: by the last such event, unless
      its session has ended. */
  ghost function TrackedFrom(events: seq<Event>): (p: Option<nat>)
    ensures p.Some? ==> p.value < |events| && Opens(events[p.value])
  {
    if events == [] then None
    else
      var last, before := events[|events| - 1], TrackedFrom(events[..|events| - 1]);
      if Opens(last) then Some(|events| - 1)
      else if before.Some? && last.session == events[before.value].session && (last.code == SessionTerminated || last.code == SessionCompleted) then None
      else before
  }

  /** The event shows the phase. */
  predicate Shows(e: Event, phase: Phase) {
    match phase
    case ProofPhase => false
    case ArmedPhase => e.code == Armed
    case SensorPhase => e.code == SensorDetected
    case RelayOnPhase => e.code == RelayOn
    case RelayOffPhase => e.code == RelayOff
    case FailsafePhase => e.code == RelayOff && e.reason == RelayFailsafeCutoff
  }

  /** The proof, and what events of its session showed after it. */
  ghost predicate Occurred(events: seq<Event>, p: nat, phase: Phase)
    requires p < |events|
  {
    phase == ProofPhase || exists j | p < j < |events| :: events[j].session == events[p].session && Shows(events[j], phase)
  }

  function Watching(events: seq<Event>): Tracker {
    if events == [] then IDLE_TRACKER else Observing(Watching(events[..|events| - 1]), events[|events| - 1]).0
  }

  /** The tracker holds exactly what happened since. */
  ghost predicate TrackerKnows(events: seq<Event>) {
    var (t, p) := (Watching(events), TrackedFrom(events));
    && (t.active <==> p.Some?)
    && (p.Some? ==> t.session == events[p.value].session && forall phase :: phase in t.mask <==> Occurred(events, p.value, phase))
  }

  lemma OccurredNext(events: seq<Event>, e: Event, p: nat, phase: Phase)
    requires p < |events|
    ensures Occurred(events + [e], p, phase) <==> Occurred(events, p, phase) || (e.session == events[p].session && Shows(e, phase))
  {
    var all := events + [e];
    assert all[|events|] == e;
    if Occurred(events, p, phase) && phase != ProofPhase {
      var j :| p < j < |events| && events[j].session == events[p].session && Shows(events[j], phase);
      assert all[j] == events[j];
    }
  }

  lemma PhasesAreShown(e: Event, phase: Phase)
    ensures phase in PhasesOf(e) <==> Shows(e, phase)
  {
  }

  lemma {:induction false} TrackerIs(events: seq<Event>)
    ensures TrackerKnows(events)
  {
    if events != [] {
      var front, last := events[..|events| - 1], events[|events| - 1];
      TrackerIs(front);
      assert front + [last] == events;
      var p := TrackedFrom(front);
      if p.Some? {
        forall phase ensures Occurred(events, p.value, phase) <==> Occurred(front, p.value, phase) || (last.session == front[p.value].session && Shows(last, phase)) {
          OccurredNext(front, last, p.value, phase);
        }
      }
      forall phase ensures phase in PhasesOf(last) <==> Shows(last, phase) {
        PhasesAreShown(last, phase);
      }
      var newest := |events| - 1;
      forall phase ensures Occurred(events, newest, phase) <==> phase == ProofPhase {
        OnlyProof(events, newest, phase);
      }
      hide Occurred, PhasesOf, Shows;
    }
  }

  lemma OnlyProof(events: seq<Event>, p: nat, phase: Phase)
    requires p == |events| - 1
    ensures Occurred(events, p, phase) <==> phase == ProofPhase
  {
  }

  /** A mask is published exactly with the terminal of the session being tracked,
      and names exactly the phases of that session since its proof. */
  lemma PublishesExactly(events: seq<Event>, e: Event)
    ensures var (p, mask) := (TrackedFrom(events), Observing(Watching(events), e).1);
            && (mask.Some? <==> p.Some? && e.session == events[p.value].session && (e.code == SessionTerminated || e.code == SessionCompleted))
            && (mask.Some? ==> forall phase :: phase in mask.value <==> Occurred(events, p.value, phase))
  {
    TrackerIs(events);
    hide Occurred, Watching, TrackedFrom;
  }

  // ---------- The verified session ----------

  /** What the bridge is told. */
  datatype Move = Protocol(e: Event) | Beyond(code: EventCode, reason: EventReason, now: u64)

  predicate Verifies(m: Move) { m.Protocol? && m.e.code == ProofVerified && m.e.sequence != 0 && m.e.session != 0 && m.e.credential != 0 }

  function Bridging(moves: seq<Move>): Bridge {
    if moves == [] then IDLE_BRIDGE
    else
      var b := Bridging(moves[..|moves| - 1]);
      match moves[|moves| - 1]
      case Protocol(e) => Forwarding(b, e).0
      case Beyond(code, reason, now) => Lifecycle(b, code, reason, now).0
  }

  /** The highest number handed out or seen. */
  ghost function Highest(moves: seq<Move>): u64 {
    if moves == [] then 0
    else
      var front, last := moves[..|moves| - 1], moves[|moves| - 1];
      match last
      case Protocol(e) => if e.sequence > Highest(front) then e.sequence else Highest(front)
      case Beyond(_, _, _) => if VerifiedFrom(front).Some? && Highest(front) < 0xFFFF_FFFF_FFFF_FFFF then Highest(front) + 1 else Highest(front)
  }

  /** The proof of the verified session, unless the session has ended since. */
  ghost function VerifiedFrom(moves: seq<Move>): (p: Option<nat>)
    ensures p.Some? ==> p.value < |moves| && Verifies(moves[p.value])
  {
    if moves == [] then None
    else
      var front, last := moves[..|moves| - 1], moves[|moves| - 1];
      var before := VerifiedFrom(front);
      if Verifies(last) then Some(|moves| - 1)
      else
        match last
        case Protocol(e) => if before.Some? && e.code == SessionTerminated && e.session == moves[before.value].e.session then None else before
        case Beyond(code, _, _) =>
          if before.Some? && Highest(front) < 0xFFFF_FFFF_FFFF_FFFF && (code == SessionTerminated || code == SessionCompleted) then None else before
  }

  ghost predicate BridgeKnows(moves: seq<Move>) {
    var (b, p) := (Bridging(moves), VerifiedFrom(moves));
    && b.high == Highest(moves) && (b.active <==> p.Some?)
    && (p.Some? ==> var proof := moves[p.value].e; b.session == proof.session && b.boot == proof.boot && b.credential == proof.credential)
    && (!b.active ==> b.session == 0 && b.boot == 0 && b.credential == 0 && b.causation == 0)
  }

  lemma {:induction false} BridgeIs(moves: seq<Move>)
    ensures BridgeKnows(moves)
  {
    if moves != [] {
      BridgeIs(moves[..|moves| - 1]);
    }
  }

  /** An event is passed on as it is, under the credential of the verified
      session if it is of that session or verifies it. */
  lemma ForwardsExactly(moves: seq<Move>, e: Event)
    ensures var p := VerifiedFrom(moves);
            Forwarding(Bridging(moves), e).1 ==
              if Verifies(Protocol(e)) then e
              else if p.Some? && e.session == moves[p.value].e.session then e.(credential := moves[p.value].e.credential)
              else e
  {
    BridgeIs(moves);
    hide Bridging, VerifiedFrom, Highest;
  }

  /** A lifecycle event is emitted exactly while there is a verified session and
      a number left: for that session, under the next number. */
  lemma EmitsExactly(moves: seq<Move>, code: EventCode, reason: EventReason, now: u64)
    ensures var (p, e) := (VerifiedFrom(moves), Lifecycle(Bridging(moves), code, reason, now).1);
            && (e.Some? <==> p.Some? && Highest(moves) < 0xFFFF_FFFF_FFFF_FFFF)
            && (e.Some? ==>
                  var proof := moves[p.value].e;
                  && e.value.code == code && e.value.reason == reason && e.value.monotonic == now && e.value.sequence == Highest(moves) + 1
                  && e.value.session == proof.session && e.value.boot == proof.boot && e.value.credential == proof.credential)
  {
    BridgeIs(moves);
    hide Bridging, VerifiedFrom, Highest;
  }
}
