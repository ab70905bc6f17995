/** Nothing the session has sent downstream is ever taken back. */
module SessionGrowth {
  import opened Wrappers
  import opened Words
  import opened Framing
  import opened AccessEvents
  import opened Session

  /** `d` goes on from `c`. */
  ghost predicate Grows(c: Core, d: Core) { c.events.sink.downstream <= d.events.sink.downstream }

  lemma ReceivingGrows(s: Sink, e: Event)
    ensures s.downstream <= Receiving(s, e).downstream
  {
    hide Observing;
  }

  lemma SendingGrows(v: Events, code: EventCode, reason: EventReason, now: u32, session: nat, boot: nat, credential: nat)
    ensures v.sink.downstream <= Sending(v, code, reason, now, session, boot, credential).sink.downstream
  {
    hide Receiving, NextSequence;
    ReceivingGrows(v.sink, Event(code, reason, Wrap64(v.monotonicHigh + now), session, boot,
                                 NextSequence(v.sequence), v.causation != 0, v.causation, credential));
  }

  lemma EmitGrows(c: Core, code: EventCode, reason: ResultReason, now: u32, credential: nat)
    ensures Grows(c, Emit(c, code, reason, now, credential))
  {
    hide Sending, Reason;
    SendingGrows(Stamped(c.events, now), code, Reason(code, reason, c.otaBusy), now, c.id.session, c.id.boot, credential);
  }

  lemma LifecycleGrows(c: Core, code: EventCode, reason: EventReason, monotonic: u64)
    ensures Grows(c, LifecycleEvent(c, code, reason, monotonic))
  {
    hide Lifecycle, Observing;
  }

  lemma EmitRejectionGrows(c: Core, reason: ResultReason, now: u32)
    ensures Grows(c, EmitRejection(c, reason, now))
  {
    hide Emit;
    EmitGrows(c, ProofRejected, reason, now, 0);
    EmitGrows(c, SessionTerminated, reason, now, 0);
    EmitGrows(Emit(c, ProofRejected, reason, now, 0), SessionTerminated, reason, now, 0);
  }

  lemma AbortSendsNothing(c: Core)
    ensures AbortControl(c).events == c.events
  {
  }

  lemma OpenGateSendsNothing(c: Core, env: Env)
    ensures OpenGate(c, env).0.events == c.events
  {
  }

  lemma RejectGrows(c: Core, reason: ResultReason, now: u32, count: bool)
    ensures Grows(c, Reject(c, reason, now, count))
  {
    hide EmitRejection, Failing, Posted, AbortControl;
    var reported := QueueResult(c, reason, if reason == RateLimited then 1000 else 0);
    EmitRejectionGrows(reported, reason, now);
    AbortSendsNothing(reported);
    AbortSendsNothing(EmitRejection(reported, reason, now));
  }

  lemma BuildChallengeGrows(c: Core, now: u32)
    ensures Grows(c, BuildChallenge(c, now))
  {
    hide Emit, Posted, Reject;
    RejectGrows(c, SessionInvalid, now, true);
    var ch := ChallengeFor(c.id, now);
    EmitGrows(Queue(Issuing(c, ch), if c.id.protocol == FAST_PROTOCOL then FastChallenge else MessageType.Challenge, ChallengeBody(ch)),
              ProofRequested, Accepted, now, 0);
  }

  lemma DeclineGrows(c: Core, reason: ResultReason, retryAfter: u32, now: u32)
    ensures Grows(c, ResetPreservingOutputs(Emit(QueueResult(c, reason, retryAfter), SessionTerminated, reason, now, 0)))
  {
    hide Emit, Posted;
    EmitGrows(QueueResult(c, reason, retryAfter), SessionTerminated, reason, now, 0);
  }

  lemma StartFastGrows(c: Core, now: u32, env: Env)
    ensures Grows(c, StartFast(c, now, env).0)
  {
    hide Emit, QueueResult, OpenGate, BuildChallenge, RateLimiting, ResetPreservingOutputs;
    DeclineGrows(c, Busy, 1000, now);
    DeclineGrows(c, RateLimited, Sub32(c.ledger.backoffUntil, now), now);
    OpenGateSendsNothing(c, env);
    var (g, open) := OpenGate(c, env);
    DeclineGrows(g, if c.hasGate then Busy else InternalFailClosed, if c.hasGate then 1000 else 0, now);
    BuildChallengeGrows(g.(id := g.id.(negotiation := FastTranscript), state := HelloReceived), now);
  }

  lemma StartHelloGrows(c: Core, p: seq<byte>, now: u32, env: Env)
    ensures Grows(c, StartHello(c, p, now, env).0)
  {
    hide Emit, Posted, OpenGate, BuildChallenge;
    OpenGateSendsNothing(c, env);
    var (g, open) := OpenGate(c, env);
    EmitGrows(Queue(g, TargetHello, HelloBody(0, 2)), SessionTerminated, if c.hasGate then Busy else InternalFailClosed, now, 0);
    BuildChallengeGrows(Queue(g.(id := g.id.(negotiation := HelloTranscript(p))), TargetHello, HelloBody(g.id.protocol, 0)), now);
  }

  lemma RandomFailedGrows(c: Core, id: Identity, now: u32)
    ensures Grows(c, RandomFailed(c.(id := id), now))
  {
    hide Reject;
    RejectGrows(c.(id := id, rngReady := false, enabled := false), InternalFailClosed, now, true);
  }

  lemma BeginFastSessionGrows(c: Core, owner: Owner, now: u32, env: Env)
    ensures Grows(c, BeginFastSession(c, owner, now, env).0)
  {
    hide Emit, StartFast, RandomFailed, Randomize;
    var (id, filled) := Randomize(c.id.(protocol := FAST_PROTOCOL), env);
    RandomFailedGrows(c, id, now);
    var named := Uncaused(c.(id := id));
    EmitGrows(named, GattConnected, Accepted, now, 0);
    StartFastGrows(Emit(named, GattConnected, Accepted, now, 0), now, env);
  }

  lemma ProcessHelloGrows(c: Core, p: seq<byte>, now: u32, env: Env)
    ensures Grows(c, ProcessHello(c, p, now, env).0)
  {
    hide Emit, StartHello, RandomFailed, Randomize, Reject, Posted, HelloSupported;
    RejectGrows(c, MalformedMessage, now, true);
    if |p| == CLIENT_HELLO_SIZE {
      var (id, filled) := Randomize(c.id, env);
      RandomFailedGrows(c, id, now);
      var named := c.(id := id.(protocol := Min(Read16(p[2], p[3]), 1)), state := HelloReceived);
      EmitGrows(Uncaused(named), GattConnected, Accepted, now, 0);
      StartHelloGrows(Emit(Uncaused(named), GattConnected, Accepted, now, 0), p, now, env);
    }
  }

  lemma DecideGrows(c: Core, action: byte, now: u32, env: Env)
    ensures Grows(c, Decide(c, action, now, env).0)
  {
    hide Reject, AbortControl, Posted, Granting;
    var c1 := Committing(c, action, env);
    AbortSendsNothing(c1);
    RejectGrows(AbortControl(c1), if c.hasGate && env.commitRejection == Busy then Busy else InternalFailClosed, now, false);
  }

  lemma JudgeGrows(c: Core, request: VerifyRequest, now: u32, env: Env)
    ensures Grows(c, Judge(c, request, now, env).0)
  {
    hide Emit, Reject, Decide, PublicReason;
    var judged := Judged(c, request, env.verdict);
    RejectGrows(judged, PublicReason(env.verdict.reason), now, true);
    EmitGrows(judged, ProofVerified, Accepted, now, request.credential);
    DecideGrows(Emit(judged, ProofVerified, Accepted, now, request.credential), request.action, now, env);
  }

  lemma ProcessProofGrows(c: Core, p: seq<byte>, now: u32, env: Env)
    ensures Grows(c, ProcessProof(c, p, now, env).0)
  {
    hide Reject, Judge, Reached, FromBigEndian;
    var consumed := c.(state := Consumed);
    RejectGrows(c, ExpiredOrReplay, now, true);
    RejectGrows(consumed, MalformedMessage, now, true);
    RejectGrows(consumed, ExpiredOrReplay, now, true);
    RejectGrows(consumed, SessionInvalid, now, true);
    RejectGrows(consumed, ProofInvalid, now, true);
    if |p| == PROOF_SIZE {
      JudgeGrows(consumed, VerifyRequest(Read16(p[0], p[1]), FromBigEndian(p[18..34]), p[34], FromBigEndian(p[35..39]),
                                         c.id.challenge, p[39..103]), now, env);
    }
  }

  lemma ReceiveFrameGrows(c: Core, expected: MessageType, owner: Owner, frame: seq<byte>, now: u32, env: Env)
    ensures Grows(c, ReceiveFrame(c, expected, owner, frame, now, env).0)
  {
    hide Reject, ProcessHello, ProcessProof, AcceptFrame, RateLimiting, Posted;
    RejectGrows(c, MalformedMessage, now, true);
    var (r, result) := AcceptFrame(c.reassembly, expected, frame, now);
    var next := c.(reassembly := r);
    RejectGrows(next, MalformedMessage, now, true);
    if result.Complete? {
      ProcessHelloGrows(next, result.payload, now, env);
      ProcessProofGrows(next, result.payload, now, env);
    }
  }

  lemma EndingsGrow(c: Core, busy: bool, owner: Owner, reason: ResultReason, now: u32)
    ensures Grows(c, SetOtaBusy(c, busy, now)) && Grows(c, Disconnect(c, owner, now)) && Grows(c, AbortTransport(c, owner, reason, now))
  {
    hide Emit, AbortControl, Posted;
    var busied := QueueResult(c.(otaBusy := busy).(outbox := NoOutputs(c.outbox)), Busy, 1000);
    EmitGrows(busied, SessionTerminated, Busy, now, 0);
    AbortSendsNothing(Emit(busied, SessionTerminated, Busy, now, 0));
    var gone := c.(connected := false);
    var failed := Emit(gone, GattFailed, SessionInvalid, now, 0);
    EmitGrows(gone, GattFailed, SessionInvalid, now, 0);
    EmitGrows(failed, SessionTerminated, SessionInvalid, now, 0);
    AbortSendsNothing(Emit(failed, SessionTerminated, SessionInvalid, now, 0));
    EmitGrows(c, SessionTerminated, reason, now, 0);
    AbortSendsNothing(c);
    AbortSendsNothing(Emit(c, SessionTerminated, reason, now, 0));
  }

  lemma QuietlyGrow(c: Core, on: bool, handle: u16, used: u64, now: u32)
    ensures Grows(c, SetEnabled(c, on)) && Grows(c, Connect(c, handle).0) && Grows(c, PopOutput(c).0)
    ensures Grows(c, AdvanceSequence(c, used)) && Grows(c, Tick(c, now))
  {
    hide AbortControl, Reject;
    AbortSendsNothing(c.(enabled := on && c.rngReady));
    RejectGrows(c, MalformedMessage, now, true);
    RejectGrows(c, ExpiredOrReplay, now, true);
  }

  /** Every call only appends to what was sent downstream. */
  lemma StepGrows(c: Core, call: Call, now: u32, env: Env)
    ensures Grows(c, Step(c, call, now, env))
  {
    hide SetEnabled, SetOtaBusy, Connect, Disconnect, AbortTransport, Tick, PopOutput, BeginFastSession, ReceiveFrame,
         LifecycleEvent, AdvanceSequence, Grows;
    match call {
      case CallBeginFastSession(owner) => BeginFastSessionGrows(c, owner, now, env);
      case CallReceiveFrame(kind, owner, frame) => ReceiveFrameGrows(c, kind, owner, frame, now, env);
      case CallSetOtaBusy(busy) => EndingsGrow(c, busy, c.owner, Busy, now);
      case CallDisconnect(owner) => EndingsGrow(c, false, owner, Busy, now);
      case CallAbortTransport(owner, reason) => EndingsGrow(c, false, owner, reason, now);
      case CallSetEnabled(on) => QuietlyGrow(c, on, 0, 0, now);
      case CallConnect(handle) => QuietlyGrow(c, false, handle, 0, now);
      case CallTick => QuietlyGrow(c, false, 0, 0, now);
      case CallPopOutput => QuietlyGrow(c, false, 0, 0, now);
      case CallAdvance(used) => QuietlyGrow(c, false, 0, used, now);
      case CallLifecycle(code, reason, monotonic) => LifecycleGrows(c, code, reason, monotonic);
    }
  }
}
