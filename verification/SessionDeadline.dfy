/** When a challenge is issued and when a proof is put to the verifier: exactly
    by which calls, and how long after one another in real time. */
module SessionDeadline {
  import opened Wrappers
  import opened Words
  import opened Framing
  import opened AccessEvents
  import opened Session
  import opened SessionGate
  import opened SessionBackoff

  // ---------- Which calls issue, which verify ----------

  /** The request a proof payload makes. */
  function RequestOf(p: seq<byte>, challenge: ChallengeData): VerifyRequest
    requires |p| == PROOF_SIZE
  {
    VerifyRequest(Read16(p[0], p[1]), FromBigEndian(p[18..34]), p[34], FromBigEndian(p[35..39]), challenge, p[39..103])
  }

  /** A proof to be put to the verifier: in time, of this session, for a known
      action. */
  predicate Timely(c: Core, p: seq<byte>, now: u32) {
    && c.state == ChallengeIssued && |p| == 103 && !Reached(now, c.id.challenge.deadline)
    && Read16(p[0], p[1]) == c.id.challenge.protocol && FromBigEndian(p[2..18]) == c.id.challenge.session
    && (p[34] == 1 || p[34] == 2)
  }

  /** The message a call completes for a core that listens to its sender. */
  function Heard(c: Core, call: Call, now: u32): Option<(MessageType, seq<byte>)> {
    if call.CallReceiveFrame? && c.enabled && c.rngReady && c.connected && call.owner == c.owner && !c.otaBusy
       && c.state != Completed && (Reached(now, c.ledger.backoffUntil) || c.ledger.failures < 3)
    then
      match AcceptFrame(c.reassembly, call.kind, call.frame, now).1
      case Complete(kind, p) => Some((kind, p))
      case _ => None
    else None
  }

  /** The proof a call puts to the verifier. */
  function Proven(c: Core, call: Call, now: u32): Option<seq<byte>> {
    var m := Heard(c, call, now);
    if m.Some? && m.value.0 == (if c.id.protocol == 2 then FastProof else Proof) && Timely(c, m.value.1, now)
    then Some(m.value.1) else None
  }

  /** A hello that offers version and framing one and room for a challenge. */
  predicate Offers(p: seq<byte>) {
    && |p| == 16 && Read16(p[0], p[1]) == 1 && Read16(p[2], p[3]) >= 1 && p[4] <= 1 <= p[5]
    && 138 <= Read16(p[6], p[7]) <= MAX_MESSAGE_SIZE
  }

  predicate CanOpen(c: Core, env: Env) {
    c.state == Idle && c.hasGate && env.beginOk && FreshSession(c.id, env).Some? && FreshNonce(c.id, env).Some?
  }

  /** The call opens a session, fast or for a hello. */
  predicate OpensSession(c: Core, call: Call, now: u32, env: Env) {
    && CanOpen(c, env)
    && (|| (call.CallBeginFastSession? && c.enabled && c.rngReady && c.connected && call.owner == c.owner && !c.otaBusy
            && (Reached(now, c.ledger.backoffUntil) || c.ledger.failures < 3))
        || (var m := Heard(c, call, now); m.Some? && m.value.0 == ClientHello && Offers(m.value.1)))
  }

  // ---------- What operations log ----------

  predicate Mute(e: Effect) { !e.Issue? && !e.Verify? }

  /** The log grew, by nothing that issues or verifies. */
  ghost predicate Murmurs(before: seq<Effect>, after: seq<Effect>) {
    before <= after && forall i | |before| <= i < |after| :: Mute(after[i])
  }

  lemma MurmursOn(a: seq<Effect>, b: seq<Effect>, c: seq<Effect>)
    requires Murmurs(a, b) && Murmurs(b, c)
    ensures Murmurs(a, c)
  {
  }

  lemma QueueResultLogs(c: Core, reason: ResultReason, retryAfter: u32)
    ensures QueueResult(c, reason, retryAfter).log == c.log + [Report(reason)]
    ensures Murmurs(c.log, QueueResult(c, reason, retryAfter).log)
  {
    hide Posted;
  }

  lemma AbortLogs(c: Core)
    ensures Murmurs(c.log, AbortControl(c).log)
  {
  }

  lemma RejectLogs(c: Core, reason: ResultReason, now: u32, count: bool)
    ensures Murmurs(c.log, Reject(c, reason, now, count).log)
  {
    hide EmitRejection, QueueResult, AbortControl, Failing, Murmurs;
    var reported := QueueResult(c, reason, if reason == RateLimited then 1000 else 0);
    QueueResultLogs(c, reason, if reason == RateLimited then 1000 else 0);
    EmitRejectionKeeps(reported, reason, now);
    var emitted := if c.id.session != 0 then EmitRejection(reported, reason, now) else reported;
    AbortLogs(emitted);
    MurmursOn(c.log, emitted.log, AbortControl(emitted).log);
  }

  lemma DeclineLogs(c: Core, reason: ResultReason, retryAfter: u32, now: u32)
    ensures Murmurs(c.log, ResetPreservingOutputs(Emit(QueueResult(c, reason, retryAfter), SessionTerminated, reason, now, 0)).log)
  {
    hide Emit, QueueResult, Murmurs;
    QueueResultLogs(c, reason, retryAfter);
    EmitKeeps(QueueResult(c, reason, retryAfter), SessionTerminated, reason, now, 0);
  }

  lemma DecideLogs(c: Core, action: byte, now: u32, env: Env)
    ensures Murmurs(c.log, Decide(c, action, now, env).0.log)
  {
    hide Reject, QueueResult, AbortControl, Granting;
    var c1 := Committing(c, action, env);
    AbortLogs(c1);
    RejectLogs(AbortControl(c1), if c.hasGate && env.commitRejection == Busy then Busy else InternalFailClosed, now, false);
    QueueResultLogs(c1.(authActive := false), Accepted, 0);
  }

  /** The verifier is asked once, and first of all. */
  lemma JudgeLogs(c: Core, request: VerifyRequest, now: u32, env: Env)
    ensures Murmurs(c.log + [Verify(request, env.verdict)], Judge(c, request, now, env).0.log)
  {
    hide Reject, Decide, Emit, PublicReason, Murmurs;
    var judged := Judged(c, request, env.verdict);
    RejectLogs(judged, PublicReason(env.verdict.reason), now, true);
    EmitKeeps(judged, ProofVerified, Accepted, now, request.credential);
    DecideLogs(Emit(judged, ProofVerified, Accepted, now, request.credential), request.action, now, env);
  }

  /** The log grew by that effect once, and otherwise by nothing that issues or
      verifies. */
  ghost predicate LogsOne(before: seq<Effect>, after: seq<Effect>, e: Effect) {
    && before <= after
    && exists k | |before| <= k < |after| :: after[k] == e && forall i | |before| <= i < |after| && i != k :: Mute(after[i])
  }

  lemma OneThenMurmurs(a: seq<Effect>, b: seq<Effect>, c: seq<Effect>, e: Effect)
    requires Murmurs(a, b) && Murmurs(b + [e], c)
    ensures LogsOne(a, c, e)
  {
    assert c[|b|] == e;
  }

  lemma OpenGateLogs(c: Core, env: Env)
    ensures Murmurs(c.log, OpenGate(c, env).0.log)
  {
  }

  /** The challenge issued at `now` expires five seconds later. */
  lemma BuildChallengeLogs(c: Core, now: u32)
    requires c.state == HelloReceived
    ensures var b := BuildChallenge(c, now);
            && b.log == c.log + [Issue(b.id.challenge)] && b.state == ChallengeIssued
            && b.id.challenge.deadline == Wrap32(now + 5000)
  {
    hide Emit, Posted;
    var ch := ChallengeFor(c.id, now);
    EmitKeeps(Queue(Issuing(c, ch), if c.id.protocol == FAST_PROTOCOL then FastChallenge else MessageType.Challenge, ChallengeBody(ch)),
              ProofRequested, Accepted, now, 0);
  }

  /** A new challenge waits, issued now. */
  ghost predicate Opens(c: Core, next: Core, now: u32) {
    && LogsOne(c.log, next.log, Issue(next.id.challenge)) && next.state == ChallengeIssued
    && next.id.challenge.deadline == Wrap32(now + 5000)
  }

  lemma StartFastLogs(c: Core, now: u32, env: Env)
    ensures var next := StartFast(c, now, env).0;
            if !c.otaBusy && !RateLimiting(c.ledger, now) && c.hasGate && env.beginOk then Opens(c, next, now)
            else Murmurs(c.log, next.log)
  {
    hide RateLimiting, BuildChallenge, Emit, QueueResult, ResetPreservingOutputs, Murmurs, LogsOne;
    DeclineLogs(c, Busy, 1000, now);
    DeclineLogs(c, RateLimited, Sub32(c.ledger.backoffUntil, now), now);
    var (g, open) := OpenGate(c, env);
    OpenGateLogs(c, env);
    DeclineLogs(g, if c.hasGate then Busy else InternalFailClosed, if c.hasGate then 1000 else 0, now);
    if open {
      var ready := g.(id := g.id.(negotiation := FastTranscript), state := HelloReceived);
      BuildChallengeLogs(ready, now);
      NothingSaid(BuildChallenge(ready, now).log);
      OneThenMurmurs(c.log, g.log, BuildChallenge(ready, now).log, Issue(BuildChallenge(ready, now).id.challenge));
    } else {
      var declined := ResetPreservingOutputs(Emit(QueueResult(g, if c.hasGate then Busy else InternalFailClosed, if c.hasGate then 1000 else 0),
                                                  SessionTerminated, if c.hasGate then Busy else InternalFailClosed, now, 0));
      MurmursOn(c.log, g.log, declined.log);
    }
  }

  lemma NothingSaid(log: seq<Effect>)
    ensures Murmurs(log, log)
  {
  }

  lemma StartHelloLogs(c: Core, p: seq<byte>, now: u32, env: Env)
    requires c.state == HelloReceived
    ensures var next := StartHello(c, p, now, env).0;
            if c.hasGate && env.beginOk then Opens(c, next, now) else Murmurs(c.log, next.log)
  {
    hide BuildChallenge, Emit, Posted, ResetPreservingOutputs, Murmurs, LogsOne;
    var (g, open) := OpenGate(c, env);
    OpenGateLogs(c, env);
    if open {
      var ready := Queue(g.(id := g.id.(negotiation := HelloTranscript(p))), TargetHello, HelloBody(g.id.protocol, 0));
      BuildChallengeLogs(ready, now);
      NothingSaid(BuildChallenge(ready, now).log);
      OneThenMurmurs(c.log, g.log, BuildChallenge(ready, now).log, Issue(BuildChallenge(ready, now).id.challenge));
    } else {
      ResetLogs(Queue(g, TargetHello, HelloBody(0, 2)), SessionTerminated, if c.hasGate then Busy else InternalFailClosed, now);
    }
  }

  lemma ResetLogs(c: Core, code: EventCode, reason: ResultReason, now: u32)
    ensures ResetPreservingOutputs(Emit(c, code, reason, now, 0)).log == c.log
  {
    hide Emit;
    EmitKeeps(c, code, reason, now, 0);
  }

  lemma BeginFastLogs(c: Core, owner: Owner, now: u32, env: Env)
    ensures var next := BeginFastSession(c, owner, now, env).0;
            if OpensSession(c, CallBeginFastSession(owner), now, env) then Opens(c, next, now) else Murmurs(c.log, next.log)
  {
    hide Reached, Reject, Emit, StartFast, Murmurs, LogsOne, FreshSession, FreshNonce;
    NothingSaid(c.log);
    var (id, filled) := Randomize(c.id.(protocol := FAST_PROTOCOL), env);
    FillsIgnoreProtocol(c.id, env);
    RejectLogs(c.(id := id, rngReady := false, enabled := false), InternalFailClosed, now, true);
    var named := Uncaused(c.(id := id));
    EmitKeeps(named, GattConnected, Accepted, now, 0);
    StartFastLogs(Emit(named, GattConnected, Accepted, now, 0), now, env);
  }

  lemma FillsIgnoreProtocol(id: Identity, env: Env)
    ensures FreshSession(id.(protocol := FAST_PROTOCOL), env) == FreshSession(id, env)
    ensures FreshNonce(id.(protocol := FAST_PROTOCOL), env) == FreshNonce(id, env)
  {
  }

  /** What a hello must offer. */
  lemma OffersIs(p: seq<byte>)
    ensures |p| == CLIENT_HELLO_SIZE && HelloSupported(p) <==> Offers(p)
  {
  }

  lemma ProcessHelloLogs(c: Core, p: seq<byte>, now: u32, env: Env)
    ensures var next := ProcessHello(c, p, now, env).0;
            if CanOpen(c, env) && Offers(p) then Opens(c, next, now) else Murmurs(c.log, next.log)
  {
    hide HelloSupported, Offers, Reject, Emit, StartHello, Murmurs, LogsOne, FreshSession, FreshNonce;
    NothingSaid(c.log);
    OffersIs(p);
    RejectLogs(c, MalformedMessage, now, true);
    if |p| == CLIENT_HELLO_SIZE {
      var (id, filled) := Randomize(c.id, env);
      RejectLogs(c.(id := id, rngReady := false, enabled := false), InternalFailClosed, now, true);
      var named := Uncaused(c.(id := id.(protocol := Min(Read16(p[2], p[3]), 1)), state := HelloReceived));
      EmitKeeps(named, GattConnected, Accepted, now, 0);
      StartHelloLogs(Emit(named, GattConnected, Accepted, now, 0), p, now, env);
    }
  }

  lemma ProcessProofLogs(c: Core, p: seq<byte>, now: u32, env: Env)
    requires Stable(c)
    ensures var next := ProcessProof(c, p, now, env).0;
            if Timely(c, p, now) then LogsOne(c.log, next.log, Verify(RequestOf(p, c.id.challenge), env.verdict))
            else Murmurs(c.log, next.log)
  {
    hide Reject, Judge, Reached, FromBigEndian, PhaseOf, Murmurs, LogsOne;
    RejectLogs(c, ExpiredOrReplay, now, true);
    var consumed := c.(state := Consumed);
    RejectLogs(consumed, MalformedMessage, now, true);
    RejectLogs(consumed, ExpiredOrReplay, now, true);
    RejectLogs(consumed, SessionInvalid, now, true);
    RejectLogs(consumed, ProofInvalid, now, true);
    if |p| == PROOF_SIZE {
      JudgeLogs(consumed, RequestOf(p, c.id.challenge), now, env);
      NothingSaid(c.log);
      OneThenMurmurs(c.log, c.log, Judge(consumed, RequestOf(p, c.id.challenge), now, env).0.log, Verify(RequestOf(p, c.id.challenge), env.verdict));
    }
  }

  /** What a frame makes the core log. */
  lemma ReceiveFrameLogs(c: Core, call: Call, now: u32, env: Env)
    requires Stable(c) && call.CallReceiveFrame?
    ensures Logged(c, call, now, env)
  {
    hide Stable, Reject, QueueResult, ProcessHello, ProcessProof, AcceptFrame, Murmurs, LogsOne, Offers, Timely, Reached, FreshSession, FreshNonce;
    NothingSaid(c.log);
    QueueResultLogs(c, Busy, 1000);
    QueueResultLogs(c, ExpiredOrReplay, 0);
    QueueResultLogs(c, RateLimited, Sub32(c.ledger.backoffUntil, now));
    RejectLogs(c, MalformedMessage, now, true);
    var (r, result) := AcceptFrame(c.reassembly, call.kind, call.frame, now);
    if result.Complete? {
      var next := c.(reassembly := r);
      BesideReassembly(c, r, result.payload, now, env);
      RejectLogs(next, MalformedMessage, now, true);
      ProcessHelloLogs(next, result.payload, now, env);
      ProcessProofLogs(next, result.payload, now, env);
    }
  }

  lemma BesideReassembly(c: Core, r: Reassembly, p: seq<byte>, now: u32, env: Env)
    ensures Stable(c) <==> Stable(c.(reassembly := r))
    ensures CanOpen(c, env) <==> CanOpen(c.(reassembly := r), env)
    ensures Timely(c, p, now) <==> Timely(c.(reassembly := r), p, now)
  {
    hide PhaseOf;
  }

  /** A call verifies exactly when it brings a timely proof, then with exactly
      its fields; it issues exactly when it opens a session; else neither. */
  ghost predicate Logged(c: Core, call: Call, now: u32, env: Env) {
    var next, proof := Step(c, call, now, env), Proven(c, call, now);
    if proof.Some? then LogsOne(c.log, next.log, Verify(RequestOf(proof.value, c.id.challenge), env.verdict))
    else if OpensSession(c, call, now, env) then Opens(c, next, now)
    else Murmurs(c.log, next.log)
  }

  lemma SetOtaBusyLogs(c: Core, busy: bool, now: u32)
    ensures Murmurs(c.log, SetOtaBusy(c, busy, now).log)
  {
    hide Emit, QueueResult, AbortControl, Murmurs;
    NothingSaid(c.log);
    var c1 := c.(otaBusy := busy, outbox := NoOutputs(c.outbox));
    QueueResultLogs(c1, Busy, 1000);
    var c2 := QueueResult(c1, Busy, 1000);
    EmitKeeps(c2, SessionTerminated, Busy, now, 0);
    AbortLogs(Emit(c2, SessionTerminated, Busy, now, 0));
    MurmursOn(c.log, c2.log, AbortControl(Emit(c2, SessionTerminated, Busy, now, 0)).log);
  }

  lemma DisconnectLogs(c: Core, owner: Owner, now: u32)
    ensures Murmurs(c.log, Disconnect(c, owner, now).log)
  {
    hide Emit, AbortControl, Murmurs;
    NothingSaid(c.log);
    var c1 := c.(connected := false);
    EmitKeeps(c1, GattFailed, SessionInvalid, now, 0);
    var c2 := Emit(c1, GattFailed, SessionInvalid, now, 0);
    EmitKeeps(c2, SessionTerminated, SessionInvalid, now, 0);
    AbortLogs(Emit(c2, SessionTerminated, SessionInvalid, now, 0));
  }

  lemma AbortTransportLogs(c: Core, owner: Owner, reason: ResultReason, now: u32)
    ensures Murmurs(c.log, AbortTransport(c, owner, reason, now).log)
  {
    hide Emit, AbortControl, Murmurs;
    NothingSaid(c.log);
    EmitKeeps(c, SessionTerminated, reason, now, 0);
    AbortLogs(Emit(c, SessionTerminated, reason, now, 0));
    AbortLogs(c);
  }

  lemma TickLogs(c: Core, now: u32)
    ensures Murmurs(c.log, Tick(c, now).log)
  {
    hide Reject, Murmurs;
    NothingSaid(c.log);
    RejectLogs(c, MalformedMessage, now, true);
    RejectLogs(c, ExpiredOrReplay, now, true);
  }

  lemma StepLogs(c: Core, call: Call, now: u32, env: Env)
    requires Stable(c)
    ensures Logged(c, call, now, env)
  {
    hide Stable, SetOtaBusy, Disconnect, AbortTransport, Tick, BeginFastSession, ReceiveFrame, Murmurs, LogsOne, Offers, Timely, CanOpen, Reached, Living,
         Opens, AbortControl, ResetIdentity, Wrap64;
    NothingSaid(c.log);
    match call {
      case CallSetOtaBusy(busy) => SetOtaBusyLogs(c, busy, now);
      case CallDisconnect(owner) => DisconnectLogs(c, owner, now);
      case CallAbortTransport(owner, reason) => AbortTransportLogs(c, owner, reason, now);
      case CallTick => TickLogs(c, now);
      case CallBeginFastSession(owner) => BeginFastLogs(c, owner, now, env);
      case CallReceiveFrame(kind, owner, frame) => ReceiveFrameLogs(c, call, now, env);
      case CallSetEnabled(on) => AbortLogs(c.(enabled := on && c.rngReady));
      case _ =>
    }
  }

  // ---------- Whole runs in real time ----------

  /** A core with the real time of every logged effect. */
  datatype Dated = Dated(core: Core, dates: seq<nat>)

  ghost function Dating(d: Dated, i: TimedInput): Dated {
    var next := Step(d.core, i.call, Wrap32(i.at), i.env);
    Dated(next, d.dates + seq(Max(0, |next.log| - |d.core.log|), _ => i.at))
  }

  ghost function RunDated(c: Core, inputs: seq<TimedInput>): Dated {
    if inputs == [] then Dated(c, seq(|c.log|, _ => 0))
    else Dating(RunDated(c, inputs[..|inputs| - 1]), inputs[|inputs| - 1])
  }

  /** Real time never runs backwards. */
  ghost predicate InOrder(inputs: seq<TimedInput>) { forall i, j | 0 <= i < j < |inputs| :: inputs[i].at <= inputs[j].at }

  ghost predicate DatesOk(d: Dated, now: nat) {
    && |d.dates| == |d.core.log|
    && (forall i, j | 0 <= i < j < |d.dates| :: d.dates[i] <= d.dates[j])
    && (forall i | 0 <= i < |d.dates| :: d.dates[i] <= now)
  }

  /** A challenge expires five seconds after its issue; only a challenge that
      has not, as the wrapping clock tells, is verified. */
  predicate EntryOk(e: Effect, at: nat) {
    match e
    case Issue(ch) => ch.deadline == Wrap32(at + 5000)
    case Verify(request, _) =>
      && !Reached(Wrap32(at), request.challenge.deadline) && request.protocol == request.challenge.protocol
      && (request.action == 1 || request.action == 2)
    case _ => true
  }

  ghost predicate DatedOk(d: Dated, now: nat) {
    Stable(d.core) && DatesOk(d, now) && forall i | 0 <= i < |d.dates| :: EntryOk(d.core.log[i], d.dates[i])
  }

  /** Whatever a call adds to the log is as it should be at that time. */
  lemma StepEntries(c: Core, call: Call, at: nat, env: Env)
    requires Stable(c)
    ensures var next := Step(c, call, Wrap32(at), env);
            c.log <= next.log && forall i | |c.log| <= i < |next.log| :: EntryOk(next.log[i], at)
  {
    hide Stable, Step, Heard, Reached, OpensSession, FromBigEndian, Wrap32;
    StepLogs(c, call, Wrap32(at), env);
    WrapAdd(at, 5000);
  }

  lemma DatingOk(d: Dated, now: nat, i: TimedInput)
    requires DatedOk(d, now) && now <= i.at
    ensures DatedOk(Dating(d, i), i.at)
  {
    StepEntries(d.core, i.call, i.at, i.env);
    StepStable(d.core, i.call, Wrap32(i.at), i.env);
    hide Step, Stable, EntryOk;
  }

  /** The time of the last call, if any. */
  function Latest(inputs: seq<TimedInput>): nat { if inputs == [] then 0 else inputs[|inputs| - 1].at }

  lemma {:induction false} RunDatedOk(boot: nat, hasGate: bool, hasSink: bool, inputs: seq<TimedInput>)
    requires InOrder(inputs)
    ensures DatedOk(RunDated(Initialized(boot, hasGate, hasSink), inputs), Latest(inputs))
  {
    hide Dating, Initialized;
    if inputs != [] {
      var front := inputs[..|inputs| - 1];
      RunDatedOk(boot, hasGate, hasSink, front);
      assert front != [] ==> Latest(front) == inputs[|front| - 1].at;
      DatingOk(RunDated(Initialized(boot, hasGate, hasSink), front), Latest(front), inputs[|inputs| - 1]);
    } else {
      InitialDated(boot, hasGate, hasSink);
    }
  }

  lemma InitialDated(boot: nat, hasGate: bool, hasSink: bool)
    ensures DatedOk(Dated(Initialized(boot, hasGate, hasSink), []), 0)
    ensures Initialized(boot, hasGate, hasSink).log == [] && Initialized(boot, hasGate, hasSink).state == Idle
  {
  }

  /** Entry `j` issues the challenge that entry `i` verifies. */
  ghost predicate IssueOf(log: seq<Effect>, j: nat, i: nat) {
    j < i <= |log| && log[j].Issue? && OnlyReports(log, j + 1, i)
  }

  /** Every verification is of a challenge issued less than five seconds ago,
      or at least 2^31 ms longer: the wrapping clock cannot tell the two apart. */
  lemma VerifiedInTime(d: Dated, now: nat, i: nat) returns (j: nat)
    requires DatedOk(d, now) && i < |d.core.log| && d.core.log[i].Verify?
    ensures IssueOf(d.core.log, j, i) && d.core.log[j].challenge == d.core.log[i].request.challenge
    ensures d.dates[j] <= d.dates[i]
    ensures d.dates[i] < d.dates[j] + 5000 || d.dates[i] >= d.dates[j] + 5000 + 0x8000_0000
    ensures d.core.log[i].request.protocol == d.core.log[j].challenge.protocol
    ensures d.core.log[i].request.action == 1 || d.core.log[i].request.action == 2
  {
    assert PhaseOf(d.core.log) != Broken;
    j := VerifyUsesFreshChallenge(d.core.log, i);
    assert EntryOk(d.core.log[i], d.dates[i]) && EntryOk(d.core.log[j], d.dates[j]);
    hide PhaseOf, Stable;
    if d.dates[i] < d.dates[j] + 5000 + 0x8000_0000 {
      WrapAdd(d.dates[j], 5000);
      DeadlineReached(d.dates[j], 5000, d.dates[i]);
    }
  }

  // ---------- With ticks often enough, always in time ----------

  /** The time of the last tick, or zero. */
  function TickedAt(inputs: seq<TimedInput>): nat {
    if inputs == [] then 0
    else if inputs[|inputs| - 1].call.CallTick? then inputs[|inputs| - 1].at
    else TickedAt(inputs[..|inputs| - 1])
  }

  /** No call comes 2^31 ms or more after the last tick. */
  ghost predicate Attended(inputs: seq<TimedInput>) {
    forall k | 0 <= k < |inputs| :: inputs[k].at < TickedAt(inputs[..k]) + 0x8000_0000
  }

  /** The challenge that waits was still valid at the last tick, and all that
      were verified were in time. */
  ghost predicate AttendedOk(d: Dated, ticked: nat)
    requires |d.dates| == |d.core.log|
  {
    && (d.core.state == ChallengeIssued ==> forall j: nat | IssueOf(d.core.log, j, |d.core.log|) :: ticked < d.dates[j] + 5000)
    && (forall i: nat, j: nat | i < |d.core.log| && d.core.log[i].Verify? && IssueOf(d.core.log, j, i) :: d.dates[i] < d.dates[j] + 5000)
  }

  /** While a challenge waits, the last issue is its own. */
  lemma WaitingIssue(c: Core, j: nat)
    requires Stable(c) && c.state == ChallengeIssued && IssueOf(c.log, j, |c.log|)
    ensures c.log[j] == Issue(c.id.challenge)
  {
    assert c.log[..|c.log|] == c.log;
    var origin := PhaseHasOrigin(c.log, |c.log|);
    hide PhaseOf;
    OneLastIssue(c.log, j, origin, |c.log|);
  }

  lemma OneLastIssue(log: seq<Effect>, j: nat, k: nat, end: nat)
    requires IssueOf(log, j, end) && IssueOf(log, k, end)
    ensures j == k
  {
  }

  /** When a challenge issued at `issue` counts as expired: exactly if the time
      since its deadline, modulo 2^32, is below 2^31. */
  lemma ExpiredExactly(issue: nat, at: nat)
    requires issue <= at
    ensures Reached(Wrap32(at), Wrap32(issue + 5000)) <==> (at - issue - 5000) % 0x1_0000_0000 < 0x8000_0000
    ensures at < issue + 5000 ==> !Reached(Wrap32(at), Wrap32(issue + 5000))
  {
    ElapsedWraps(issue + 5000, at);
  }

  /** Soon enough after the last tick the wrapping clock tells the deadline truly. */
  lemma DeadlineIsTrue(d: Dated, now: nat, ticked: nat, at: nat, j: nat)
    requires DatedOk(d, now) && AttendedOk(d, ticked) && now <= at < ticked + 0x8000_0000
    requires d.core.state == ChallengeIssued && IssueOf(d.core.log, j, |d.core.log|)
    ensures Reached(Wrap32(at), d.core.id.challenge.deadline) <==> at >= d.dates[j] + 5000
    ensures d.core.id.deadline == d.core.id.challenge.deadline
  {
    WaitingIssue(d.core, j);
    assert EntryOk(d.core.log[j], d.dates[j]) && d.dates[j] <= now;
    hide PhaseOf;
    WrapAdd(d.dates[j], 5000);
    DeadlineReached(d.dates[j], 5000, at);
  }

  /** Refusals reported do not make a core wait. */
  lemma {:induction false} ReportsKeepWaiting(log: seq<Effect>, from: nat)
    requires from <= |log| && OnlyReports(log, from, |log|) && PhaseOf(log).Waiting?
    ensures PhaseOf(log[..from]).Waiting?
    decreases |log|
  {
    if from == |log| {
      assert log[..from] == log;
    } else {
      var front := log[..|log| - 1];
      assert log[|log| - 1].Report?;
      assert front[..from] == log[..from];
      ReportsKeepWaiting(front, from);
    }
  }

  /** A challenge that still waits after a tick had not expired. */
  lemma TickExpires(c: Core, now: u32)
    requires c.state == ChallengeIssued && Tick(c, now).state == ChallengeIssued
    ensures !Reached(now, c.id.deadline)
  {
    hide Reached, Emit, Posted;
    RejectLedger(c, MalformedMessage, now, true);
    RejectLedger(c, ExpiredOrReplay, now, true);
    hide Reject;
  }

  lemma StillWaits(d: Dated, now: nat, ticked: nat, i: TimedInput, j: nat)
    requires DatedOk(d, now) && AttendedOk(d, ticked) && ticked <= now <= i.at < ticked + 0x8000_0000
    requires var next := Dating(d, i).core; next.state == ChallengeIssued && IssueOf(next.log, j, |next.log|)
    requires DatedOk(Dating(d, i), i.at)
    ensures (if i.call.CallTick? then i.at else ticked) < Dating(d, i).dates[j] + 5000
  {
    var n := Dating(d, i);
    StepEntries(d.core, i.call, i.at, i.env);
    assert n.core == Step(d.core, i.call, Wrap32(i.at), i.env);
    hide Step, EntryOk;
    if j < |d.core.log| {
      ReportsKeepWaiting(n.core.log, |d.core.log|);
      assert n.core.log[..|d.core.log|] == d.core.log;
      assert d.core.state == ChallengeIssued;
      assert IssueOf(d.core.log, j, |d.core.log|);
      if i.call.CallTick? {
        DeadlineIsTrue(d, now, ticked, i.at, j);
        StepIsTick(d.core, i);
        TickExpires(d.core, Wrap32(i.at));
      }
    }
  }

  lemma StepIsTick(c: Core, i: TimedInput)
    requires i.call.CallTick?
    ensures Step(c, i.call, Wrap32(i.at), i.env) == Tick(c, Wrap32(i.at))
  {
    hide Tick;
  }

  lemma VerifiesInTime(d: Dated, now: nat, ticked: nat, i: TimedInput, v: nat, j: nat)
    requires DatedOk(d, now) && AttendedOk(d, ticked) && ticked <= now <= i.at < ticked + 0x8000_0000
    requires var next := Dating(d, i).core; |d.core.log| <= v < |next.log| && next.log[v].Verify? && IssueOf(next.log, j, v)
    requires DatedOk(Dating(d, i), i.at)
    ensures Dating(d, i).dates[v] < Dating(d, i).dates[j] + 5000
  {
    var n := Dating(d, i);
    StepEntries(d.core, i.call, i.at, i.env);
    StepLogs(d.core, i.call, Wrap32(i.at), i.env);
    hide Step, EntryOk, Stable, OpensSession, Heard, Reached, FromBigEndian;
    assert n.core.log[j].Issue?;
    var proof := Proven(d.core, i.call, Wrap32(i.at));
    assert proof.Some?;
    assert j < |d.core.log|;
    assert IssueOf(d.core.log, j, |d.core.log|);
    DeadlineIsTrue(d, now, ticked, i.at, j);
  }

  lemma DatingAttended(d: Dated, now: nat, ticked: nat, i: TimedInput)
    requires DatedOk(d, now) && AttendedOk(d, ticked) && ticked <= now <= i.at < ticked + 0x8000_0000
    ensures DatedOk(Dating(d, i), i.at) && AttendedOk(Dating(d, i), if i.call.CallTick? then i.at else ticked)
  {
    DatingOk(d, now, i);
    StepEntries(d.core, i.call, i.at, i.env);
    var n := Dating(d, i);
    hide Step, EntryOk, Stable;
    if n.core.state == ChallengeIssued {
      forall j: nat | IssueOf(n.core.log, j, |n.core.log|) ensures (if i.call.CallTick? then i.at else ticked) < n.dates[j] + 5000 {
        StillWaits(d, now, ticked, i, j);
      }
    }
    forall v: nat, j: nat | v < |n.core.log| && n.core.log[v].Verify? && IssueOf(n.core.log, j, v) ensures n.dates[v] < n.dates[j] + 5000 {
      if v < |d.core.log| {
        assert IssueOf(d.core.log, j, v);
      } else {
        VerifiesInTime(d, now, ticked, i, v, j);
      }
    }
  }

  lemma {:induction false} RunAttended(boot: nat, hasGate: bool, hasSink: bool, inputs: seq<TimedInput>)
    requires InOrder(inputs) && Attended(inputs)
    ensures TickedAt(inputs) <= Latest(inputs)
    ensures DatedOk(RunDated(Initialized(boot, hasGate, hasSink), inputs), Latest(inputs))
    ensures AttendedOk(RunDated(Initialized(boot, hasGate, hasSink), inputs), TickedAt(inputs))
  {
    hide Dating, Initialized;
    InitialDated(boot, hasGate, hasSink);
    if inputs != [] {
      var front, last := inputs[..|inputs| - 1], inputs[|inputs| - 1];
      assert forall k | 0 <= k < |front| :: front[..k] == inputs[..k];
      RunAttended(boot, hasGate, hasSink, front);
      assert last.at < TickedAt(front) + 0x8000_0000;
      DatingAttended(RunDated(Initialized(boot, hasGate, hasSink), front), Latest(front), TickedAt(front), last);
    }
  }

  /** Over every run with a tick at least every 2^31 ms: what is verified is a
      challenge issued less than five seconds before. */
  lemma {:induction false} AttendedRunVerifiesInTime(boot: nat, hasGate: bool, hasSink: bool, inputs: seq<TimedInput>, i: nat) returns (j: nat)
    requires InOrder(inputs) && Attended(inputs)
    requires var d := RunDated(Initialized(boot, hasGate, hasSink), inputs); i < |d.core.log| && d.core.log[i].Verify?
    ensures var d := RunDated(Initialized(boot, hasGate, hasSink), inputs);
            && |d.dates| == |d.core.log| && IssueOf(d.core.log, j, i) && d.core.log[j].challenge == d.core.log[i].request.challenge
            && d.dates[j] <= d.dates[i] < d.dates[j] + 5000
  {
    var d := RunDated(Initialized(boot, hasGate, hasSink), inputs);
    RunAttended(boot, hasGate, hasSink, inputs);
    j := VerifiedInTime(d, Latest(inputs), i);
  }

  // ---------- Without ticks a stale proof can be verified ----------

  const LATE: nat := 1000 + 5000 + 0x8000_0000

  /** Draws session seven and nonce eight; the gate opens. */
  const DRAWN := Env([Some(7)], [Some(8)], 0, true, Verdict(Accepted, 0), true, Busy)

  /** A proof for session seven. */
  const STALE: seq<byte> := [0, 2] + [0, 0, 0, 0, 0, 0, 0, 0, 0, 0, 0, 0, 0, 0, 0, 7] + seq(16, _ => 0) + [1] + seq(68, _ => 0)

  const STALE_FRAME: seq<byte> := [83, 71, 1, TypeByte(FastProof), 0, 1, 0, 1, 0, 103] + STALE

  /** Enable, connect, open a session after a second; then nothing, no tick
      either, until the proof arrives. */
  const LATE_RUN: seq<TimedInput> := [
    TimedInput(CallSetEnabled(true), 0, DRAWN), TimedInput(CallConnect(7), 0, DRAWN),
    TimedInput(CallBeginFastSession(Owner(7, 1)), 1000, DRAWN),
    TimedInput(CallReceiveFrame(FastProof, Owner(7, 1), STALE_FRAME), LATE, DRAWN)]

  /** The challenge of that session waits. */
  predicate Late(c: Core) {
    && Enabled(c) && c.connected && c.owner == Owner(7, 1) && !c.otaBusy && c.ledger.failures == 0 && c.reassembly == CLEARED
    && c.state == ChallengeIssued && c.id.protocol == 2 && c.id.challenge.protocol == 2 && c.id.challenge.session == 7
    && c.id.challenge.deadline == 6000
  }

  lemma StaleIsProven(c: Core)
    requires Late(c)
    ensures Proven(c, CallReceiveFrame(FastProof, Owner(7, 1), STALE_FRAME), Wrap32(LATE)) == Some(STALE)
  {
    hide AcceptFrame, FromBigEndian, STALE;
    StaleFields();
    SingleFrame(STALE, Wrap32(LATE));
  }

  lemma SingleFrame(p: seq<byte>, now: u32)
    requires |p| == 103
    ensures AcceptFrame(CLEARED, FastProof, [83, 71, 1, TypeByte(FastProof), 0, 1, 0, 1, 0, 103] + p, now) == (CLEARED, Complete(FastProof, p))
  {
    hide Reached;
    var f: seq<byte> := [83, 71, 1, TypeByte(FastProof), 0, 1, 0, 1, 0, 103] + p;
    assert f[FRAME_HEADER_SIZE..] == p;
    NotYet(now);
    assert WellFormed(FastProof, f);
    var begun := Opened(CLEARED, FastProof, f, now);
    assert Fits(begun, FastProof, f, now);
    assert Appended(begun, f).bytes == p;
  }

  lemma NotYet(now: u32)
    ensures !Reached(now, Wrap32(now + ASSEMBLY_TIMEOUT_MS))
  {
    WrapAdd(now, ASSEMBLY_TIMEOUT_MS);
    ElapsedWraps(now + ASSEMBLY_TIMEOUT_MS, now);
  }

  lemma StaleFields()
    ensures |STALE| == 103 && Read16(STALE[0], STALE[1]) == 2 && STALE[34] == 1 && FromBigEndian(STALE[2..18]) == 7
  {
    var id: seq<byte> := [0, 0, 0, 0, 0, 0, 0, 0, 0, 0, 0, 0, 0, 0, 0, 7];
    assert STALE[2..18] == id;
    assert id[..15] == seq(15, _ => 0);
    ZerosReadZero(15);
  }

  lemma {:induction false} ZerosReadZero(n: nat)
    ensures FromBigEndian(seq(n, _ => 0)) == 0
  {
    if n > 0 {
      var zeros: seq<byte> := seq(n, _ => 0);
      assert zeros[..n - 1] == seq(n - 1, _ => 0);
      ZerosReadZero(n - 1);
    }
  }

  /** The session those three calls open. */
  lemma LateOpens()
    ensures var c := Step(Step(Initialized(1, true, false), CallSetEnabled(true), 0, DRAWN), CallConnect(7), 0, DRAWN);
            && c.log == []
            && var n := Step(c, CallBeginFastSession(Owner(7, 1)), 1000, DRAWN);
               Late(n) && n.log == [BeginAuth(true), Issue(n.id.challenge)]
  {
    var c := Step(Step(Initialized(1, true, false), CallSetEnabled(true), 0, DRAWN), CallConnect(7), 0, DRAWN);
    assert FreshSession(c.id, DRAWN) == Some(7) && FreshNonce(c.id, DRAWN) == Some(8);
    assert Randomize(c.id.(protocol := FAST_PROTOCOL), DRAWN).1;
  }

  lemma RunDatedPrefix(c: Core, inputs: seq<TimedInput>, k: nat)
    requires k < |inputs|
    ensures RunDated(c, inputs[..k + 1]) == Dating(RunDated(c, inputs[..k]), inputs[k])
  {
    hide Dating;
    assert inputs[..k + 1][..k] == inputs[..k];
  }

  lemma WaitingRun()
    ensures var d := RunDated(Initialized(1, true, false), LATE_RUN[..3]);
            Late(d.core) && d.core.log == [BeginAuth(true), Issue(d.core.id.challenge)] && d.dates == [1000, 1000]
  {
    hide Step, Initialized, STALE_FRAME, Late;
    var c := Initialized(1, true, false);
    assert LATE_RUN[..0] == [];
    RunDatedPrefix(c, LATE_RUN, 0);
    RunDatedPrefix(c, LATE_RUN, 1);
    RunDatedPrefix(c, LATE_RUN, 2);
    InitialDated(1, true, false);
    LateOpens();
    var first := Step(c, CallSetEnabled(true), 0, DRAWN);
    SetEnabledKeepsLog(c);
    assert RunDated(c, LATE_RUN[..2]).core == Step(first, CallConnect(7), 0, DRAWN);
    assert RunDated(c, LATE_RUN[..2]).dates == [];
  }

  lemma SetEnabledKeepsLog(c: Core)
    requires c == Initialized(1, true, false)
    ensures Step(c, CallSetEnabled(true), 0, DRAWN).log == []
  {
  }

  /** Nobody ticks, and 2^31 ms after its deadline the challenge is verified. */
  lemma LateProofIsVerified() returns (i: nat, j: nat)
    ensures InOrder(LATE_RUN)
    ensures var d := RunDated(Initialized(1, true, false), LATE_RUN);
            && |d.dates| == |d.core.log| && IssueOf(d.core.log, j, i) && i < |d.core.log| && d.core.log[i].Verify?
            && d.core.log[i].request.challenge == d.core.log[j].challenge
            && d.dates[i] == d.dates[j] + 5000 + 0x8000_0000
  {
    hide Step, Initialized, Stable, STALE_FRAME, Late, Murmurs, Heard, EntryOk;
    var c := Initialized(1, true, false);
    assert LATE_RUN[..4] == LATE_RUN;
    WaitingRun();
    var d := RunDated(c, LATE_RUN[..3]);
    RunDatedPrefix(c, LATE_RUN, 3);
    RunDatedOk(1, true, false, LATE_RUN[..3]);
    RunDatedOk(1, true, false, LATE_RUN);
    StaleIsProven(d.core);
    StepLogs(d.core, LATE_RUN[3].call, Wrap32(LATE), DRAWN);
    var n := RunDated(c, LATE_RUN);
    i :| 2 <= i < |n.core.log| && n.core.log[i].Verify?;
    j := VerifiedInTime(n, LATE, i);
    assert j == 1;
  }
}
