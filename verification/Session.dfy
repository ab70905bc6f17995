/** What each operation of the authenticated GATT session does
    (src/GattProtocol.cpp, `ProtocolCore`), as functions on one state. Hashes
    are stood for by what they are taken of; replies of the random source, the
    verifier and the control gate are parameters. */
module Session {
  import opened Wrappers
  import opened Words
  import opened Framing
  import opened AccessEvents

  const FAST_PROTOCOL: u16 := 2
  const CLIENT_HELLO_SIZE: nat := 16
  const CHALLENGE_SIZE: nat := 138
  const PROOF_SIZE: nat := 103
  const CHALLENGE_LIFETIME_MS: nat := 5000
  const FAILURE_WINDOW_MS: nat := 10000
  const OUTPUT_CAPACITY: nat := 4

  datatype ResultReason =
    | Accepted | UnsupportedVersion | MalformedMessage | SessionInvalid | ExpiredOrReplay | AclUnavailable
    | CredentialDenied | ProofInvalid | Busy | RateLimited | InternalFailClosed

  datatype SessionState = Idle | HelloReceived | ChallengeIssued | Verifying | Consumed | Completed

  datatype Owner = Owner(handle: u16, generation: u64)

  /** The negotiation whose hash a challenge carries. */
  datatype Transcript = NoTranscript | FastTranscript | HelloTranscript(clientHello: seq<byte>)

  datatype ChallengeData = ChallengeData(
    protocol: u16, session: nat, nonce: nat, boot: nat, deadline: u32, acl: u64, negotiation: Transcript)

  const NO_CHALLENGE := ChallengeData(0, 0, 0, 0, 0, 0, NoTranscript)

  /** The signed input covers the hash of `challenge`. */
  datatype VerifyRequest = VerifyRequest(
    protocol: u16, credential: nat, action: byte, capabilities: nat, challenge: ChallengeData, signature: seq<byte>)

  datatype Verdict = Verdict(reason: ResultReason, acl: u64)

  datatype Body =
    | HelloBody(selected: u16, status: byte)
    | ChallengeBody(challenge: ChallengeData)
    | ResultBody(protocol: u16, session: nat, reason: ResultReason, retryAfter: u32, acl: u64)

  datatype OutputMessage = OutputMessage(kind: MessageType, id: u16, owner: Owner, body: Body)

  /** What the session did to its collaborators, in order. */
  datatype Effect =
    | BeginAuth(ok: bool)
    | AbortAuth
    | Issue(challenge: ChallengeData)
    | Verify(request: VerifyRequest, verdict: Verdict)
    | Commit(action: byte, ok: bool)
    | Report(reason: ResultReason)

  /** Replies available to one call. A fill attempt is absent when it fails. */
  datatype Env = Env(
    sessionFills: seq<Option<nat>>, nonceFills: seq<Option<nat>>, activeAcl: u64,
    beginOk: bool, verdict: Verdict, commitOk: bool, commitRejection: ResultReason)

  /** The event sink: bridge, tracker and everything forwarded so far. */
  datatype Sink = Sink(bridge: Bridge, tracker: Tracker, downstream: seq<Event>)

  /** Numbering and clock of the emitted events. */
  datatype Events = Events(
    hasSink: bool, sequence: u64, causation: u64, monotonicHigh: u64, lastNow: u32, timeKnown: bool, sink: Sink)

  /** What belongs to the current session and the last one. */
  datatype Identity = Identity(
    protocol: u16, boot: nat, session: nat, previousSession: nat, nonce: nat, previousNonce: nat,
    acl: u64, deadline: u32, negotiation: Transcript, challenge: ChallengeData)

  /** Failure counting. `counted` and `granted` are totals kept for the proofs. */
  datatype Ledger = Ledger(failures: u32, windowStart: u32, backoffUntil: u32, counted: nat, granted: nat)

  datatype Outbox = Outbox(messages: seq<OutputMessage>, nextId: u16)

  datatype Core = Core(
    hasGate: bool, enabled: bool, rngReady: bool, otaBusy: bool, connected: bool, owner: Owner,
    state: SessionState, authActive: bool, id: Identity, ledger: Ledger,
    reassembly: Reassembly, outbox: Outbox, events: Events, log: seq<Effect>)

  function NewIdentity(boot: nat): Identity { Identity(0, boot, 0, 0, 0, 0, 0, 0, NoTranscript, NO_CHALLENGE) }

  /** A core just after `initialize` with a usable door identity. */
  function Initialized(boot: nat, hasGate: bool, hasSink: bool): Core {
    Core(hasGate, false, boot != 0, false, false, Owner(0, 0), Idle, false, NewIdentity(boot),
         Ledger(0, 0, 0, 0, 0), CLEARED, Outbox([], 1),
         Events(hasSink, 0, 0, 0, 0, false, Sink(IDLE_BRIDGE, IDLE_TRACKER, [])), [])
  }

  // ---------- Small steps ----------

  function Enabled(c: Core): bool { c.enabled && c.rngReady }

  /** `randomUnique`: the first of four fills that succeeds, is not all zero
      and differs from the previous value. */
  function RandomUnique(fills: seq<Option<nat>>, previous: nat, attempts: nat): Option<nat> {
    if attempts == 0 || fills == [] then None
    else if fills[0].Some? && fills[0].value != 0 && fills[0].value != previous then fills[0]
    else RandomUnique(fills[1..], previous, attempts - 1)
  }

  function FreshSession(id: Identity, env: Env): Option<nat> { RandomUnique(env.sessionFills, id.previousSession, 4) }

  function FreshNonce(id: Identity, env: Env): Option<nat> { RandomUnique(env.nonceFills, id.previousNonce, 4) }

  function Reason(code: EventCode, reason: ResultReason, otaBusy: bool): EventReason {
    if code == GattConnected then ConnectedReason
    else if code == GattFailed then Disconnected
    else if code == ProofRequested then ChallengeIssuedReason
    else if code == ProofVerified then ProofValid
    else match reason
      case UnsupportedVersion => ProtocolIncompatible
      case MalformedMessage => MalformedProof
      case ExpiredOrReplay => ProofExpired
      case AclUnavailable => AclNotFound
      case CredentialDenied => CredentialInactive
      case ProofInvalid => SignatureInvalid
      case Busy => if otaBusy then OtaBusyReason else TargetBusy
      case RateLimited => SessionTimeout
      case _ => InternalError
  }

  function Receiving(s: Sink, e: Event): Sink {
    var (b, forwarded) := Forwarding(s.bridge, e);
    Sink(b, Observing(s.tracker, forwarded).0, s.downstream + [forwarded])
  }

  /** Extends the wrapping 32-bit clock for the next event. */
  function Stamped(v: Events, now: u32): Events {
    v.(monotonicHigh := if v.timeKnown && now < v.lastNow then Wrap64(v.monotonicHigh + TWO_32) else v.monotonicHigh,
       timeKnown := true, lastNow := now)
  }

  /** Numbers and forwards one event; an exhausted allocator emits nothing. */
  function Sending(v: Events, code: EventCode, reason: EventReason, now: u32, session: nat, boot: nat, credential: nat): Events {
    var sequence := NextSequence(v.sequence);
    if sequence == 0 then v
    else
      var e := Event(code, reason, Wrap64(v.monotonicHigh + now), session, boot,
                     sequence, v.causation != 0, v.causation, credential);
      v.(sequence := sequence, causation := sequence, sink := Receiving(v.sink, e))
  }

  /** Nothing is emitted without a sink or an allocated session. */
  function Emit(c: Core, code: EventCode, reason: ResultReason, now: u32, credential: nat): Core {
    if !c.events.hasSink || c.id.session == 0 then c
    else
      c.(events := Sending(Stamped(c.events, now), code, Reason(code, reason, c.otaBusy), now,
                           c.id.session, c.id.boot, credential))
  }

  function Posted(o: Outbox, kind: MessageType, owner: Owner, body: Body): Outbox {
    if |o.messages| >= OUTPUT_CAPACITY then o
    else Outbox(o.messages + [OutputMessage(kind, o.nextId, owner, body)],
                if o.nextId == 0xFFFF then 1 else o.nextId + 1)
  }

  function Queue(c: Core, kind: MessageType, body: Body): Core {
    c.(outbox := Posted(c.outbox, kind, c.owner, body))
  }

  function QueueResult(c: Core, reason: ResultReason, retryAfter: u32): Core {
    Queue(c.(log := c.log + [Report(reason)]),
          if c.id.protocol == FAST_PROTOCOL then FastResult else MessageType.Result,
          ResultBody(c.id.protocol, c.id.session, reason, retryAfter, c.id.acl))
  }

  function ResetIdentity(id: Identity): Identity {
    NewIdentity(id.boot).(previousSession := id.previousSession, previousNonce := id.previousNonce)
  }

  function ResetPreservingOutputs(c: Core): Core {
    c.(state := Idle, id := ResetIdentity(c.id), reassembly := CLEARED)
  }

  function NoOutputs(o: Outbox): Outbox { o.(messages := []) }

  function Reset(c: Core): Core { ResetPreservingOutputs(c).(outbox := NoOutputs(c.outbox)) }

  function AbortControl(c: Core): Core {
    if !c.authActive then c
    else c.(authActive := false, log := c.log + if c.hasGate then [AbortAuth] else [])
  }

  predicate CanonicalRejection(reason: ResultReason) {
    reason in {UnsupportedVersion, MalformedMessage, ExpiredOrReplay, AclUnavailable, CredentialDenied, ProofInvalid}
  }

  function Backoff(failures: nat): nat {
    if failures == 3 then 1000 else if failures == 4 then 2000 else if failures == 5 then 4000 else 8000
  }

  function Failing(l: Ledger, now: u32): Ledger {
    var restart := l.failures == 0 || Reached(now, Wrap32(l.windowStart + FAILURE_WINDOW_MS));
    var failures := if restart then 1 else Wrap32(l.failures + 1);
    Ledger(failures, if restart then now else l.windowStart,
           if failures >= 3 then Wrap32(now + Backoff(failures)) else l.backoffUntil, l.counted + 1, l.granted)
  }

  function Granting(l: Ledger): Ledger { l.(failures := 0, granted := l.granted + 1) }

  predicate RateLimiting(l: Ledger, now: u32) { !Reached(now, l.backoffUntil) && l.failures >= 3 }

  function EmitRejection(c: Core, reason: ResultReason, now: u32): Core {
    Emit(if CanonicalRejection(reason) then Emit(c, ProofRejected, reason, now, 0) else c,
         SessionTerminated, reason, now, 0)
  }

  function Reject(c: Core, reason: ResultReason, now: u32, count: bool): Core {
    var reported := QueueResult(c, reason, if reason == RateLimited then 1000 else 0);
    var emitted := if c.id.session != 0 then EmitRejection(reported, reason, now) else reported;
    var closed := AbortControl(emitted);
    ResetPreservingOutputs(if count then closed.(ledger := Failing(c.ledger, now)) else closed)
  }

  // ---------- Operations ----------

  function SetEnabled(c: Core, on: bool): Core {
    var c1 := c.(enabled := on && c.rngReady);
    if c1.enabled then c1 else Reset(AbortControl(c1).(connected := false))
  }

  function SetOtaBusy(c: Core, busy: bool, now: u32): Core {
    var c1 := c.(otaBusy := busy);
    if busy && c.state != Idle && c.state != Completed && c.state != Consumed then
      var c2 := QueueResult(c1.(outbox := NoOutputs(c.outbox)), Busy, 1000);
      ResetPreservingOutputs(AbortControl(Emit(c2, SessionTerminated, Busy, now, 0)))
    else c1
  }

  function Connect(c: Core, handle: u16): (Core, bool) {
    if !Enabled(c) || c.connected then (c, false)
    else
      var g := Wrap64(c.owner.generation + 1);
      (Reset(c.(connected := true, owner := Owner(handle, if g == 0 then 1 else g))), true)
  }

  function Disconnect(c: Core, owner: Owner, now: u32): Core {
    if !c.connected || owner != c.owner then c
    else
      var c1 := c.(connected := false);
      if c.state != Idle && c.state != Completed then
        var c2 := Emit(c1, GattFailed, SessionInvalid, now, 0);
        Reset(AbortControl(Emit(c2, SessionTerminated, SessionInvalid, now, 0)))
      else Reset(c1)
  }

  function AbortTransport(c: Core, owner: Owner, reason: ResultReason, now: u32): Core {
    if !c.connected || owner != c.owner then c
    else if c.state != Completed then
      Reset(AbortControl(if c.id.session != 0 then Emit(c, SessionTerminated, reason, now, 0) else c))
    else Reset(c)
  }

  function Tick(c: Core, now: u32): Core {
    if c.reassembly.active && Reached(now, Wrap32(c.reassembly.started + ASSEMBLY_TIMEOUT_MS)) then
      Reject(c, MalformedMessage, now, true)
    else if c.state == ChallengeIssued && Reached(now, c.id.deadline) then Reject(c, ExpiredOrReplay, now, true)
    else c
  }

  function PopOutput(c: Core): (Core, Option<OutputMessage>) {
    if c.outbox.messages == [] then (c, None)
    else (c.(outbox := c.outbox.(messages := c.outbox.messages[1..])), Some(c.outbox.messages[0]))
  }

  function AdvanceSequence(c: Core, used: u64): Core { c.(events := c.events.(sequence := Max(c.events.sequence, used))) }

  /** Both random values of a new session, or what is left when one fails. */
  function Randomize(id: Identity, env: Env): (Identity, bool) {
    var s := FreshSession(id, env);
    if s.None? then (id.(session := 0), false)
    else
      var n := FreshNonce(id, env);
      if n.None? then (id.(session := s.value, nonce := 0), false)
      else
        (id.(session := s.value, nonce := n.value, previousSession := s.value, previousNonce := n.value,
             acl := env.activeAcl), true)
  }

  /** The next event of a new session has no cause. */
  function Uncaused(c: Core): Core { c.(events := c.events.(causation := 0)) }

  function RandomFailed(c: Core, now: u32): Core {
    Reject(c.(rngReady := false, enabled := false), InternalFailClosed, now, true)
  }

  function ChallengeFor(id: Identity, now: u32): ChallengeData {
    ChallengeData(id.protocol, id.session, id.nonce, id.boot, Wrap32(now + CHALLENGE_LIFETIME_MS), id.acl, id.negotiation)
  }

  function Issuing(c: Core, ch: ChallengeData): Core {
    c.(id := c.id.(challenge := ch, deadline := ch.deadline), state := ChallengeIssued, log := c.log + [Issue(ch)])
  }

  function BuildChallenge(c: Core, now: u32): Core {
    if c.state != HelloReceived then Reject(c, SessionInvalid, now, true)
    else
      var ch := ChallengeFor(c.id, now);
      Emit(Queue(Issuing(c, ch), if c.id.protocol == FAST_PROTOCOL then FastChallenge else MessageType.Challenge, ChallengeBody(ch)),
           ProofRequested, Accepted, now, 0)
  }

  /** Opens the gate, or reports why it stays closed. */
  function OpenGate(c: Core, env: Env): (Core, bool) {
    if !c.hasGate then (c.(authActive := false), false)
    else
      var begun := c.(authActive := true, log := c.log + [BeginAuth(env.beginOk)]);
      if env.beginOk then (begun, true) else (AbortControl(begun), false)
  }

  /** A fast session whose identity is known and announced. */
  function StartFast(c: Core, now: u32, env: Env): (Core, bool) {
    if c.otaBusy then
      (ResetPreservingOutputs(Emit(QueueResult(c, Busy, 1000), SessionTerminated, Busy, now, 0)), false)
    else if RateLimiting(c.ledger, now) then
      (ResetPreservingOutputs(Emit(QueueResult(c, RateLimited, Sub32(c.ledger.backoffUntil, now)),
                                   SessionTerminated, RateLimited, now, 0)), false)
    else
      var (g, open) := OpenGate(c, env);
      if !open then
        var reason := if c.hasGate then Busy else InternalFailClosed;
        (ResetPreservingOutputs(Emit(QueueResult(g, reason, if c.hasGate then 1000 else 0),
                                     SessionTerminated, reason, now, 0)), false)
      else (BuildChallenge(g.(id := g.id.(negotiation := FastTranscript), state := HelloReceived), now), true)
  }

  function BeginFastSession(c: Core, owner: Owner, now: u32, env: Env): (Core, bool) {
    if !Enabled(c) || !c.connected || owner != c.owner || c.state != Idle then (c, false)
    else
      var (id, filled) := Randomize(c.id.(protocol := FAST_PROTOCOL), env);
      if !filled then (RandomFailed(c.(id := id), now), false)
      else StartFast(Emit(Uncaused(c.(id := id)), GattConnected, Accepted, now, 0), now, env)
  }

  /** Version, framing and receive size offered by a client hello. */
  predicate HelloSupported(p: seq<byte>)
    requires |p| == CLIENT_HELLO_SIZE
  {
    var clientMin, clientMax := Read16(p[0], p[1]), Read16(p[2], p[3]);
    var framingMin, framingMax := p[4], p[5];
    var maxRx := Read16(p[6], p[7]);
    && clientMin != 0 && clientMin <= clientMax
    && framingMin <= 1 && framingMax >= 1 && framingMin <= framingMax
    && CHALLENGE_SIZE <= maxRx <= MAX_MESSAGE_SIZE
    && Min(clientMax, 1) >= Max(Max(clientMin, 1), 1)
    && clientMax >= 1 && clientMin <= 1
  }

  /** A negotiated session whose identity is known and announced. */
  function StartHello(c: Core, p: seq<byte>, now: u32, env: Env): (Core, bool) {
    var (g, open) := OpenGate(c, env);
    if !open then
      (ResetPreservingOutputs(Emit(Queue(g, TargetHello, HelloBody(0, 2)), SessionTerminated,
                                   if c.hasGate then Busy else InternalFailClosed, now, 0)), false)
    else
      (BuildChallenge(Queue(g.(id := g.id.(negotiation := HelloTranscript(p))), TargetHello, HelloBody(g.id.protocol, 0)), now), true)
  }

  function ProcessHello(c: Core, p: seq<byte>, now: u32, env: Env): (Core, bool) {
    if |p| != CLIENT_HELLO_SIZE || c.state != Idle then (Reject(c, MalformedMessage, now, true), false)
    else if !HelloSupported(p) then (Queue(c, TargetHello, HelloBody(0, 1)), false)
    else
      var (id, filled) := Randomize(c.id, env);
      if !filled then (RandomFailed(c.(id := id), now), false)
      else
        var named := c.(id := id.(protocol := Min(Read16(p[2], p[3]), 1)), state := HelloReceived);
        StartHello(Emit(Uncaused(named), GattConnected, Accepted, now, 0), p, now, env)
  }

  function PublicReason(reason: ResultReason): ResultReason {
    if reason in {AclUnavailable, CredentialDenied, UnsupportedVersion} then reason else ProofInvalid
  }

  predicate KnownAction(action: byte) { action == 1 || action == 2 }

  /** An open gate is asked to commit the action. */
  function Committing(c: Core, action: byte, env: Env): Core {
    if c.authActive && c.hasGate then c.(log := c.log + [Commit(action, env.commitOk)]) else c
  }

  function Decide(c: Core, action: byte, now: u32, env: Env): (Core, bool) {
    var committed := c.authActive && c.hasGate && env.commitOk;
    var c1 := Committing(c, action, env);
    if !committed then
      var reason := if c.hasGate && env.commitRejection == Busy then Busy else InternalFailClosed;
      (Reject(AbortControl(c1), reason, now, false), false)
    else
      (QueueResult(c1.(authActive := false), Accepted, 0).(state := Completed, ledger := Granting(c.ledger)), true)
  }

  /** The verifier has answered. */
  function Judged(c: Core, request: VerifyRequest, verdict: Verdict): Core {
    c.(id := c.id.(acl := verdict.acl), log := c.log + [Verify(request, verdict)])
  }

  function Judge(c: Core, request: VerifyRequest, now: u32, env: Env): (Core, bool) {
    var judged := Judged(c, request, env.verdict);
    if env.verdict.reason != Accepted then (Reject(judged, PublicReason(env.verdict.reason), now, true), false)
    else Decide(Emit(judged, ProofVerified, Accepted, now, request.credential), request.action, now, env)
  }

  function ProcessProof(c: Core, p: seq<byte>, now: u32, env: Env): (Core, bool) {
    if c.state != ChallengeIssued then (Reject(c, ExpiredOrReplay, now, true), false)
    else
      var consumed := c.(state := Consumed);
      if |p| != PROOF_SIZE then (Reject(consumed, MalformedMessage, now, true), false)
      else if Reached(now, c.id.deadline) then (Reject(consumed, ExpiredOrReplay, now, true), false)
      else if Read16(p[0], p[1]) != c.id.protocol || FromBigEndian(p[2..18]) != c.id.session then
        (Reject(consumed, SessionInvalid, now, true), false)
      else if !KnownAction(p[34]) then (Reject(consumed, ProofInvalid, now, true), false)
      else
        var request := VerifyRequest(Read16(p[0], p[1]), FromBigEndian(p[18..34]), p[34], FromBigEndian(p[35..39]),
                                     c.id.challenge, p[39..103]);
        Judge(consumed, request, now, env)
  }

  function Process(c: Core, kind: MessageType, p: seq<byte>, now: u32, env: Env): (Core, bool) {
    if kind == ClientHello then ProcessHello(c, p, now, env)
    else if kind == Proof && c.id.protocol != FAST_PROTOCOL then ProcessProof(c, p, now, env)
    else if kind == FastProof && c.id.protocol == FAST_PROTOCOL then ProcessProof(c, p, now, env)
    else (Reject(c, MalformedMessage, now, true), false)
  }

  /** Frames reach the reassembly only in these circumstances. */
  predicate Listening(c: Core, owner: Owner, now: u32) {
    && Enabled(c) && c.connected && owner == c.owner
    && !c.otaBusy && c.state != Completed
    && !RateLimiting(c.ledger, now)
  }

  function HandleFrame(c: Core, expected: MessageType, frame: seq<byte>, now: u32, env: Env): (Core, bool) {
    var (r, result) := AcceptFrame(c.reassembly, expected, frame, now);
    match result
    case Pending => (c.(reassembly := r), true)
    case Malformed => (Reject(c, MalformedMessage, now, true), false)
    case Complete(kind, payload) => Process(c.(reassembly := r), kind, payload, now, env)
  }

  function ReceiveFrame(c: Core, expected: MessageType, owner: Owner, frame: seq<byte>, now: u32, env: Env): (Core, bool) {
    if !Enabled(c) || !c.connected || owner != c.owner then (c, false)
    else if c.otaBusy then (QueueResult(c, Busy, 1000), false)
    else if c.state == Completed then (QueueResult(c, ExpiredOrReplay, 0), false)
    else if RateLimiting(c.ledger, now) then
      (QueueResult(c, RateLimited, Sub32(c.ledger.backoffUntil, now)), false)
    else HandleFrame(c, expected, frame, now, env)
  }

  /** The sink after one lifecycle event of the verified session, if any. */
  function Living(s: Sink, code: EventCode, reason: EventReason, now: u64): Sink {
    var (b, e) := Lifecycle(s.bridge, code, reason, now);
    if e.None? then s.(bridge := b)
    else Sink(b, Observing(s.tracker, e.value).0, s.downstream + [e.value])
  }

  /** A lifecycle event of the verified session, followed by the adapter
      advancing the shared allocator to the bridge's high water. */
  function LifecycleEvent(c: Core, code: EventCode, reason: EventReason, now: u64): Core {
    var sink := Living(c.events.sink, code, reason, now);
    AdvanceSequence(c.(events := c.events.(sink := sink)), sink.bridge.high)
  }

  // ---------- Calls and runs ----------

  datatype Call =
    | CallSetEnabled(on: bool)
    | CallSetOtaBusy(busy: bool)
    | CallConnect(handle: u16)
    | CallDisconnect(owner: Owner)
    | CallAbortTransport(owner: Owner, reason: ResultReason)
    | CallTick
    | CallPopOutput
    | CallAdvance(used: u64)
    | CallBeginFastSession(owner: Owner)
    | CallReceiveFrame(kind: MessageType, owner: Owner, frame: seq<byte>)
    | CallLifecycle(code: LifecycleCode, eventReason: EventReason, monotonic: u64)

  function Step(c: Core, call: Call, now: u32, env: Env): Core {
    match call
    case CallSetEnabled(on) => SetEnabled(c, on)
    case CallSetOtaBusy(busy) => SetOtaBusy(c, busy, now)
    case CallConnect(handle) => Connect(c, handle).0
    case CallDisconnect(owner) => Disconnect(c, owner, now)
    case CallAbortTransport(owner, reason) => AbortTransport(c, owner, reason, now)
    case CallTick => Tick(c, now)
    case CallPopOutput => PopOutput(c).0
    case CallAdvance(used) => AdvanceSequence(c, used)
    case CallBeginFastSession(owner) => BeginFastSession(c, owner, now, env).0
    case CallReceiveFrame(kind, owner, frame) => ReceiveFrame(c, kind, owner, frame, now, env).0
    case CallLifecycle(code, reason, monotonic) => LifecycleEvent(c, code, reason, monotonic)
  }
}
