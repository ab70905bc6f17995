/** The canonical access-event path: the shared sequence allocator, the
    lifecycle bridge and the phase tracker (include/AccessEventSequence.h,
    src/GattProtocol.cpp). Sixteen-byte identities are their big-endian values,
    so zero is the all-zero identity. */
module AccessEvents {
  import opened Wrappers
  import opened Words

  const MAX_SEQUENCE: u64 := 0xFFFF_FFFF_FFFF_FFFF

  datatype EventCode =
    | GattConnected | GattFailed | ProofRequested | ProofVerified | ProofRejected
    | SessionTerminated | Armed | SensorDetected | RelayOn | RelayOff | SessionCompleted

  /** What the bridge emits of itself. */
  type LifecycleCode = c: EventCode | c in {Armed, SensorDetected, RelayOn, RelayOff, SessionCompleted, SessionTerminated} witness Armed

  datatype EventReason =
    | ConnectedReason | Disconnected | ChallengeIssuedReason | ProofValid | MalformedProof
    | ProtocolIncompatible | ProofExpired | AclNotFound | CredentialInactive | SignatureInvalid
    | OtaBusyReason | SessionTimeout | InternalError | ArmAccepted | SensorThresholdMet
    | RelayActivated | RelayHoldComplete | RelayFailsafeCutoff | AccessGranted | ArmTimeout
    | SessionSuperseded | TargetBusy

  datatype Event = Event(
    code: EventCode, reason: EventReason, monotonic: u64, session: nat, boot: nat,
    sequence: u64, hasCause: bool, cause: u64, credential: nat)

  predicate Terminal(code: EventCode) { code.SessionTerminated? || code.SessionCompleted? }

  // ---------- Sequence allocator ----------

  /** Zero when exhausted: an identity is never reused. */
  function NextSequence(last: u64): u64 { if last == MAX_SEQUENCE then 0 else last + 1 }

  class AccessEventSequence {
    var last: u64

    constructor ()
      ensures last == 0
    {
      last := 0;
    }

    method Next() returns (sequence: u64)
      modifies this
      ensures sequence == NextSequence(old(last))
      ensures last == if sequence == 0 then old(last) else sequence
    {
      if last == MAX_SEQUENCE {
        return 0;
      }
      last := last + 1;
      sequence := last;
    }

    method Advance(used: u64)
      modifies this
      ensures last == Max(old(last), used)
    {
      if used > last {
        last := used;
      }
    }
  }

  // ---------- Specification of the bridge and the tracker ----------

  datatype Bridge = Bridge(active: bool, session: nat, boot: nat, credential: nat, high: u64, causation: u64)

  const IDLE_BRIDGE := Bridge(false, 0, 0, 0, 0, 0)

  /** Phases seen after the proof of the verified session. */
  datatype Phase = ProofPhase | ArmedPhase | SensorPhase | RelayOnPhase | RelayOffPhase | FailsafePhase

  datatype Tracker = Tracker(active: bool, session: nat, mask: set<Phase>)

  const IDLE_TRACKER := Tracker(false, 0, {})

  function Cleared(b: Bridge): Bridge { Bridge(false, 0, 0, 0, b.high, 0) }

  /** Takes one protocol event: the bridge after it and what it forwards. */
  function Forwarding(b: Bridge, e: Event): (Bridge, Event) {
    var seen := b.(high := Max(b.high, e.sequence));
    var adopted :=
      if e.code == ProofVerified && e.sequence != 0 && e.session != 0 && e.credential != 0
      then seen.(session := e.session, boot := e.boot, credential := e.credential,
                 causation := e.sequence, active := true)
      else seen;
    var matches := adopted.active && e.session == adopted.session;
    var forwarded := if matches then e.(credential := adopted.credential) else e;
    var after :=
      if !matches then adopted
      else if e.code == SessionTerminated then Cleared(adopted)
      else if e.sequence > adopted.causation then adopted.(causation := e.sequence)
      else adopted;
    (after, forwarded)
  }

  /** Emits one lifecycle event of the verified session, if there is one. */
  function Lifecycle(b: Bridge, code: EventCode, reason: EventReason, now: u64): (Bridge, Option<Event>) {
    if !b.active || b.high == MAX_SEQUENCE then (b, None)
    else
      var sequence := b.high + 1;
      var e := Event(code, reason, now, b.session, b.boot, sequence, b.causation != 0, b.causation, b.credential);
      var after := b.(high := sequence, causation := sequence);
      (if Terminal(code) then Cleared(after) else after, Some(e))
  }

  function PhasesOf(e: Event): set<Phase> {
    match e.code
    case Armed => {ArmedPhase}
    case SensorDetected => {SensorPhase}
    case RelayOn => {RelayOnPhase}
    case RelayOff => if e.reason == RelayFailsafeCutoff then {RelayOffPhase, FailsafePhase} else {RelayOffPhase}
    case _ => {}
  }

  /** The tracker after one event, and the mask published if it is the
      terminal of the verified session. */
  function Observing(t: Tracker, e: Event): (Tracker, Option<set<Phase>>) {
    if e.code == ProofVerified then
      if e.session == 0 || e.credential == 0 then (t, None)
      else (Tracker(true, e.session, {ProofPhase}), None)
    else if !t.active || e.session != t.session then (t, None)
    else
      var mask := t.mask + PhasesOf(e);
      if Terminal(e.code) then (IDLE_TRACKER, Some(mask)) else (t.(mask := mask), None)
  }

  // ---------- Classes ----------

  class LocalGattLifecycleBridge {
    var downstream: seq<Event>
    var verifiedSessionActive: bool
    var sessionId: nat
    var bootId: nat
    var credentialId: nat
    var sequenceHighWater: u64
    var verifiedCausation: u64

    ghost function Model(): Bridge
      reads this
    {
      Bridge(verifiedSessionActive, sessionId, bootId, credentialId, sequenceHighWater, verifiedCausation)
    }

    constructor ()
      ensures Model() == IDLE_BRIDGE && downstream == []
    {
      downstream, verifiedSessionActive := [], false;
      sessionId, bootId, credentialId, sequenceHighWater, verifiedCausation := 0, 0, 0, 0, 0;
    }

    method Emit(event: Event)
      modifies this
      ensures (Model(), downstream) == (Forwarding(old(Model()), event).0, old(downstream) + [Forwarding(old(Model()), event).1])
    {
      sequenceHighWater := Max(sequenceHighWater, event.sequence);
      if event.code == ProofVerified && event.sequence != 0 && event.session != 0 && event.credential != 0 {
        sessionId := event.session;
        bootId := event.boot;
        credentialId := event.credential;
        verifiedCausation := event.sequence;
        verifiedSessionActive := true;
      }
      var matches := verifiedSessionActive && event.session == sessionId;
      var forwarded := event;
      if matches {
        forwarded := forwarded.(credential := credentialId);
      }
      downstream := downstream + [forwarded];
      if matches {
        if event.code == SessionTerminated {
          ClearVerifiedSession();
        } else if event.sequence > verifiedCausation {
          verifiedCausation := event.sequence;
        }
      }
    }

    method EmitLifecycle(code: EventCode, reason: EventReason, now: u64) returns (emitted: bool)
      modifies this
      ensures var (next, event) := Lifecycle(old(Model()), code, reason, now);
              && Model() == next && emitted == event.Some?
              && downstream == old(downstream) + if event.Some? then [event.value] else []
    {
      if !verifiedSessionActive || sequenceHighWater == MAX_SEQUENCE {
        return false;
      }
      var cause := verifiedCausation;
      sequenceHighWater := sequenceHighWater + 1;
      var sequence := sequenceHighWater;
      downstream := downstream + [Event(code, reason, now, sessionId, bootId, sequence, cause != 0, cause, credentialId)];
      verifiedCausation := sequence;
      if code == SessionCompleted || code == SessionTerminated {
        ClearVerifiedSession();
      }
      emitted := true;
    }

    method ClearVerifiedSession()
      modifies this
      ensures Model() == Cleared(old(Model())) && downstream == old(downstream)
    {
      verifiedSessionActive := false;
      sessionId, bootId, credentialId, verifiedCausation := 0, 0, 0, 0;
    }
  }

  class VerifiedAccessPhaseTracker {
    var verifiedSessionActive: bool
    var sessionId: nat
    var phaseMask: set<Phase>

    ghost function Model(): Tracker
      reads this
    {
      Tracker(verifiedSessionActive, sessionId, phaseMask)
    }

    constructor ()
      ensures Model() == IDLE_TRACKER
    {
      verifiedSessionActive, sessionId, phaseMask := false, 0, {};
    }

    method Observe(event: Event) returns (terminal: bool, mask: set<Phase>)
      modifies this
      ensures var (next, published) := Observing(old(Model()), event);
              && Model() == next && terminal == published.Some?
              && mask == if published.Some? then published.value else {}
    {
      terminal, mask := false, {};
      if event.code == ProofVerified {
        if event.session == 0 || event.credential == 0 {
          return;
        }
        verifiedSessionActive := true;
        sessionId := event.session;
        phaseMask := {ProofPhase};
        return;
      }
      if !verifiedSessionActive || event.session != sessionId {
        return;
      }
      if event.code == Armed {
        phaseMask := phaseMask + {ArmedPhase};
      } else if event.code == SensorDetected {
        phaseMask := phaseMask + {SensorPhase};
      } else if event.code == RelayOn {
        phaseMask := phaseMask + {RelayOnPhase};
      } else if event.code == RelayOff {
        phaseMask := phaseMask + {RelayOffPhase};
        if event.reason == RelayFailsafeCutoff {
          phaseMask := phaseMask + {FailsafePhase};
        }
      }
      if event.code != SessionCompleted && event.code != SessionTerminated {
        return;
      }
      terminal, mask := true, phaseMask;
      verifiedSessionActive, sessionId, phaseMask := false, 0, {};
    }
  }
}
