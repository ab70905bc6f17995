/** How the session answers every call, written out: what it does to its gate
    and verifier, which results and messages it queues, which events it emits,
    where it stands afterwards and what it counts
    (src/GattProtocol.cpp, `ProtocolCore`). */
module SessionAnswers {
  import opened Wrappers
  import opened Words
  import opened Framing
  import opened AccessEvents
  import opened Session
  import opened SessionGate
  import opened SessionDeadline

  datatype Reply = Reply(kind: MessageType, body: Body)

  datatype Told = Told(code: EventCode, reason: EventReason, session: nat, credential: nat)

  /** `anew`: the events start a new chain; `emptied`: queued messages are dropped. */
  datatype Answer = Answer(
    said: seq<Effect>, replies: seq<Reply>, told: seq<Told>, state: SessionState, counted: bool, anew: bool, emptied: bool)

  // ---------- The answers ----------

  function Unchanged(c: Core): Answer { Answer([], [], [], c.state, false, false, false) }

  function Closing(c: Core): seq<Effect> { if c.state == ChallengeIssued then [AbortAuth] else [] }

  function ResultTo(protocol: u16, session: nat, reason: ResultReason, retryAfter: u32, acl: u64): Reply {
    Reply(if protocol == 2 then FastResult else MessageType.Result, ResultBody(protocol, session, reason, retryAfter, acl))
  }

  /** The reason an event gives for a session's end. */
  function Why(reason: ResultReason, otaBusy: bool): EventReason {
    match reason
    case UnsupportedVersion => ProtocolIncompatible
    case MalformedMessage => MalformedProof
    case ExpiredOrReplay => ProofExpired
    case AclUnavailable => AclNotFound
    case CredentialDenied => CredentialInactive
    case ProofInvalid => SignatureInvalid
    case Busy => if otaBusy then OtaBusyReason else TargetBusy
    case RateLimited => SessionTimeout
    case SessionInvalid => InternalError
    case InternalFailClosed => InternalError
    case Accepted => InternalError
  }

  function Ended(reason: EventReason, session: nat): seq<Told> { [Told(SessionTerminated, reason, session, 0)] }

  /** A rejected session ends with its terminal; what the proof itself is to
      blame for is told first. */
  function Ending(reason: ResultReason, otaBusy: bool, session: nat): seq<Told> {
    if session == 0 then []
    else
      (match reason
       case SessionInvalid => []
       case Busy => []
       case RateLimited => []
       case InternalFailClosed => []
       case Accepted => []
       case _ => [Told(ProofRejected, Why(reason, otaBusy), session, 0)])
      + Ended(Why(reason, otaBusy), session)
  }

  /** A counted rejection of a session. */
  function Refusal(c: Core, reason: ResultReason, protocol: u16, session: nat): Answer {
    Answer([Report(reason)] + Closing(c), [ResultTo(protocol, session, reason, 0, c.id.acl)], Ending(reason, c.otaBusy, session),
           Idle, true, false, false)
  }

  function Refused(c: Core, reason: ResultReason): Answer { Refusal(c, reason, c.id.protocol, c.id.session) }

  function OnlyResult(c: Core, reason: ResultReason, retryAfter: u32): Answer {
    Answer([Report(reason)], [ResultTo(c.id.protocol, c.id.session, reason, retryAfter, c.id.acl)], [], c.state, false, false, false)
  }

  function Connected(session: nat): Told { Told(GattConnected, ConnectedReason, session, 0) }

  /** A new session that stays without a challenge. */
  function Declined(said: seq<Effect>, reply: Reply, reason: EventReason, session: nat): Answer {
    Answer(said, [reply], [Connected(session)] + Ended(reason, session), Idle, false, true, false)
  }

  /** A new session whose challenge now waits. */
  function Opened(first: seq<Reply>, kind: MessageType, ch: ChallengeData): Answer {
    Answer([BeginAuth(true), Issue(ch)], first + [Reply(kind, ChallengeBody(ch))],
           [Connected(ch.session), Told(ProofRequested, ChallengeIssuedReason, ch.session, 0)], ChallengeIssued, false, true, false)
  }

  /** The back-off holds. */
  predicate Limited(c: Core, now: u32) { c.ledger.failures >= 3 && Sub32(now, c.ledger.backoffUntil) >= 0x8000_0000 }

  function FastAnswer(c: Core, now: u32, env: Env): Answer {
    var (s, n) := (FreshSession(c.id, env), FreshNonce(c.id, env));
    if s.None? then Refusal(c, InternalFailClosed, 2, 0)
    else if n.None? then Refusal(c, InternalFailClosed, 2, s.value)
    else if c.otaBusy then
      Declined([Report(Busy)], ResultTo(2, s.value, Busy, 1000, env.activeAcl), OtaBusyReason, s.value)
    else if Limited(c, now) then
      Declined([Report(RateLimited)], ResultTo(2, s.value, RateLimited, Sub32(c.ledger.backoffUntil, now), env.activeAcl), SessionTimeout, s.value)
    else if !c.hasGate then
      Declined([Report(InternalFailClosed)], ResultTo(2, s.value, InternalFailClosed, 0, env.activeAcl), InternalError, s.value)
    else if !env.beginOk then
      Declined([BeginAuth(false), AbortAuth, Report(Busy)], ResultTo(2, s.value, Busy, 1000, env.activeAcl), TargetBusy, s.value)
    else
      Opened([], FastChallenge, ChallengeData(2, s.value, n.value, c.id.boot, Wrap32(now + 5000), env.activeAcl, FastTranscript))
  }

  function HelloAnswer(c: Core, p: seq<byte>, now: u32, env: Env): Answer {
    var (s, n) := (FreshSession(c.id, env), FreshNonce(c.id, env));
    if |p| != 16 || c.state != Idle then Refused(c, MalformedMessage)
    else if !Offers(p) then Answer([], [Reply(TargetHello, HelloBody(0, 1))], [], Idle, false, false, false)
    else if s.None? then Refusal(c, InternalFailClosed, c.id.protocol, 0)
    else if n.None? then Refusal(c, InternalFailClosed, c.id.protocol, s.value)
    else if !c.hasGate then Declined([], Reply(TargetHello, HelloBody(0, 2)), InternalError, s.value)
    else if !env.beginOk then Declined([BeginAuth(false), AbortAuth], Reply(TargetHello, HelloBody(0, 2)), TargetBusy, s.value)
    else
      Opened([Reply(TargetHello, HelloBody(1, 0))], MessageType.Challenge,
             ChallengeData(1, s.value, n.value, c.id.boot, Wrap32(now + 5000), env.activeAcl, HelloTranscript(p)))
  }

  /** What the peer learns of a verdict. */
  function Public(reason: ResultReason): ResultReason {
    match reason
    case AclUnavailable => AclUnavailable
    case CredentialDenied => CredentialDenied
    case UnsupportedVersion => UnsupportedVersion
    case _ => ProofInvalid
  }

  function VerdictAnswer(c: Core, request: VerifyRequest, env: Env): Answer {
    var verified := Verify(request, env.verdict);
    var (protocol, session, acl) := (c.id.protocol, c.id.session, env.verdict.acl);
    var valid := [Told(ProofVerified, ProofValid, session, request.credential)];
    if env.verdict.reason != Accepted then
      var reason := Public(env.verdict.reason);
      Answer([verified, Report(reason), AbortAuth], [ResultTo(protocol, session, reason, 0, acl)], Ending(reason, false, session),
             Idle, true, false, false)
    else if env.commitOk then
      Answer([verified, Commit(request.action, true), Report(Accepted)], [ResultTo(protocol, session, Accepted, 0, acl)], valid,
             Completed, false, false, false)
    else
      var reason := if env.commitRejection == Busy then Busy else InternalFailClosed;
      Answer([verified, Commit(request.action, false), AbortAuth, Report(reason)], [ResultTo(protocol, session, reason, 0, acl)],
             valid + Ended(if reason == Busy then TargetBusy else InternalError, session), Idle, false, false, false)
  }

  function ProofAnswer(c: Core, p: seq<byte>, now: u32, env: Env): Answer {
    if c.state != ChallengeIssued then Refused(c, ExpiredOrReplay)
    else if |p| != 103 then Refused(c, MalformedMessage)
    else if Sub32(now, c.id.challenge.deadline) < 0x8000_0000 then Refused(c, ExpiredOrReplay)
    else if Read16(p[0], p[1]) != c.id.challenge.protocol || FromBigEndian(p[2..18]) != c.id.challenge.session then Refused(c, SessionInvalid)
    else if p[34] != 1 && p[34] != 2 then Refused(c, ProofInvalid)
    else VerdictAnswer(c, RequestOf(p, c.id.challenge), env)
  }

  function MessageAnswer(c: Core, kind: MessageType, p: seq<byte>, now: u32, env: Env): Answer {
    if kind == ClientHello then HelloAnswer(c, p, now, env)
    else if kind == (if c.id.protocol == 2 then FastProof else Proof) then ProofAnswer(c, p, now, env)
    else Refused(c, MalformedMessage)
  }

  function FrameAnswer(c: Core, expected: MessageType, frame: seq<byte>, now: u32, env: Env): Answer {
    if c.otaBusy then OnlyResult(c, Busy, 1000)
    else if c.state == Completed then OnlyResult(c, ExpiredOrReplay, 0)
    else if Limited(c, now) then OnlyResult(c, RateLimited, Sub32(c.ledger.backoffUntil, now))
    else
      match AcceptFrame(c.reassembly, expected, frame, now).1
      case Pending => Unchanged(c)
      case Malformed => Refused(c, MalformedMessage)
      case Complete(kind, p) => MessageAnswer(c, kind, p, now, env)
  }

  function TickAnswer(c: Core, now: u32): Answer {
    if c.reassembly.active && Sub32(now, Wrap32(c.reassembly.started + 2000)) < 0x8000_0000 then Refused(c, MalformedMessage)
    else if c.state == ChallengeIssued && Sub32(now, c.id.challenge.deadline) < 0x8000_0000 then Refused(c, ExpiredOrReplay)
    else Unchanged(c)
  }

  predicate Mine(c: Core, owner: Owner) { c.connected && owner == c.owner }

  predicate Answered(call: Call) { !call.CallPopOutput? && !call.CallAdvance? && !call.CallLifecycle? }

  function AnswerTo(c: Core, call: Call, now: u32, env: Env): Answer
    requires Answered(call)
  {
    match call
    case CallSetEnabled(on) => if on && c.rngReady then Unchanged(c) else Answer(Closing(c), [], [], Idle, false, false, true)
    case CallSetOtaBusy(busy) =>
      if busy && c.state == ChallengeIssued
      then Answer([Report(Busy), AbortAuth], [ResultTo(c.id.protocol, c.id.session, Busy, 1000, c.id.acl)], Ended(OtaBusyReason, c.id.session),
                  Idle, false, false, true)
      else Unchanged(c)
    case CallConnect(handle) =>
      if c.enabled && c.rngReady && !c.connected then Answer([], [], [], Idle, false, false, true) else Unchanged(c)
    case CallDisconnect(owner) =>
      if !Mine(c, owner) then Unchanged(c)
      else
        Answer(Closing(c), [],
               if c.state == ChallengeIssued then [Told(GattFailed, Disconnected, c.id.session, 0)] + Ended(InternalError, c.id.session) else [],
               Idle, false, false, true)
    case CallAbortTransport(owner, reason) =>
      if !Mine(c, owner) then Unchanged(c)
      else
        Answer(Closing(c), [],
               if c.state != Completed && c.id.session != 0 then Ended(Why(reason, c.otaBusy), c.id.session) else [],
               Idle, false, false, true)
    case CallTick => TickAnswer(c, now)
    case CallBeginFastSession(owner) =>
      if c.enabled && c.rngReady && Mine(c, owner) && c.state == Idle then FastAnswer(c, now, env) else Unchanged(c)
    case CallReceiveFrame(kind, owner, frame) =>
      if c.enabled && c.rngReady && Mine(c, owner) then FrameAnswer(c, kind, frame, now, env) else Unchanged(c)
  }

  // ---------- What an answer does ----------

  /** Messages are queued in order while there are fewer than four, under ids
      from one to 65535 and around. */
  function Sent(o: Outbox, owner: Owner, replies: seq<Reply>): Outbox
    decreases |replies|
  {
    if replies == [] then o
    else
      var k := |replies| - 1;
      var before := Sent(o, owner, replies[..k]);
      if |before.messages| >= 4 then before
      else Outbox(before.messages + [OutputMessage(replies[k].kind, before.nextId, owner, replies[k].body)],
                  if before.nextId == 65535 then 1 else before.nextId + 1)
  }

  /** Events are numbered and forwarded in order, if anyone listens. */
  function Announced(v: Events, now: u32, boot: nat, told: seq<Told>): Events
    decreases |told|
  {
    if told == [] || !v.hasSink then v
    else
      var k := |told| - 1;
      Sending(Stamped(Announced(v, now, boot, told[..k]), now), told[k].code, told[k].reason, now, told[k].session, boot, told[k].credential)
  }

  /** A failure is counted from the last window of ten seconds on; the third,
      fourth, fifth and any further one hold sessions back for one, two, four
      and eight seconds. */
  function Failed(l: Ledger, now: u32): Ledger {
    var anew := l.failures == 0 || Sub32(now, Wrap32(l.windowStart + 10000)) < 0x8000_0000;
    var k: u32 := if anew then 1 else if l.failures == 0xFFFF_FFFF then 0 else l.failures + 1;
    Ledger(k, if anew then now else l.windowStart,
           if k < 3 then l.backoffUntil
           else if k == 3 then Wrap32(now + 1000)
           else if k == 4 then Wrap32(now + 2000)
           else if k == 5 then Wrap32(now + 4000)
           else Wrap32(now + 8000),
           l.counted + 1, l.granted)
  }

  ghost predicate Answers(c: Core, now: u32, next: Core, a: Answer) {
    && next.log == c.log + a.said
    && next.outbox == Sent(if a.emptied then c.outbox.(messages := []) else c.outbox, c.owner, a.replies)
    && next.events == Announced(if a.anew then c.events.(causation := 0) else c.events, now, c.id.boot, a.told)
    && next.state == a.state
    && next.ledger == (if a.counted then Failed(c.ledger, now)
                       else if a.state == Completed && c.state != Completed then c.ledger.(failures := 0, granted := c.ledger.granted + 1)
                       else c.ledger)
  }

  // ---------- Step by step ----------

  /** So far that has been said, queued and told. */
  ghost predicate Did(c: Core, now: u32, next: Core, a: Answer) {
    && next.log == c.log + a.said
    && next.outbox == Sent(if a.emptied then c.outbox.(messages := []) else c.outbox, c.owner, a.replies)
    && next.events == Announced(if a.anew then c.events.(causation := 0) else c.events, now, c.id.boot, a.told)
    && next.owner == c.owner && next.id.boot == c.id.boot
  }

  lemma SentMore(o: Outbox, owner: Owner, replies: seq<Reply>, r: Reply)
    ensures Sent(o, owner, replies + [r]) == Posted(Sent(o, owner, replies), r.kind, owner, r.body)
  {
    assert (replies + [r])[..|replies|] == replies;
  }

  lemma {:induction false} AnnouncedMore(v: Events, now: u32, boot: nat, told: seq<Told>, t: Told)
    ensures Announced(v, now, boot, told).hasSink == v.hasSink && (!v.hasSink ==> Announced(v, now, boot, told) == v)
    ensures Announced(v, now, boot, told + [t]) ==
              if !v.hasSink then v
              else Sending(Stamped(Announced(v, now, boot, told), now), t.code, t.reason, now, t.session, boot, t.credential)
    decreases |told|
  {
    hide Stamped;
    assert (told + [t])[..|told|] == told;
    if told != [] {
      var k := |told| - 1;
      AnnouncedMore(v, now, boot, told[..k], told[k]);
      assert told[..k] + [told[k]] == told;
      SendingKeepsSink(Stamped(Announced(v, now, boot, told[..k]), now), told[k], now, boot);
      StampedKeepsSink(Announced(v, now, boot, told[..k]), now);
    }
  }

  lemma SendingKeepsSink(v: Events, t: Told, now: u32, boot: nat)
    ensures Sending(v, t.code, t.reason, now, t.session, boot, t.credential).hasSink == v.hasSink
  {
    hide Receiving;
  }

  lemma StampedKeepsSink(v: Events, now: u32)
    ensures Stamped(v, now).hasSink == v.hasSink
  {
  }

  lemma ReportDid(c: Core, now: u32, next: Core, a: Answer, reason: ResultReason, retryAfter: u32)
    requires Did(c, now, next, a)
    ensures Did(c, now, QueueResult(next, reason, retryAfter),
                a.(said := a.said + [Report(reason)],
                   replies := a.replies + [ResultTo(next.id.protocol, next.id.session, reason, retryAfter, next.id.acl)]))
  {
    hide Sent, Announced, Posted;
    var r := ResultTo(next.id.protocol, next.id.session, reason, retryAfter, next.id.acl);
    SentMore(if a.emptied then c.outbox.(messages := []) else c.outbox, c.owner, a.replies, r);
  }

  lemma QueueDid(c: Core, now: u32, next: Core, a: Answer, r: Reply)
    requires Did(c, now, next, a)
    ensures Did(c, now, Queue(next, r.kind, r.body), a.(replies := a.replies + [r]))
  {
    hide Sent, Announced, Posted;
    SentMore(if a.emptied then c.outbox.(messages := []) else c.outbox, c.owner, a.replies, r);
  }

  lemma EmitDid(c: Core, now: u32, next: Core, a: Answer, code: EventCode, reason: ResultReason, credential: nat)
    requires Did(c, now, next, a) && next.id.session != 0
    ensures var e := Emit(next, code, reason, now, credential);
            && Did(c, now, e, a.(told := a.told + [Told(code, Reason(code, reason, next.otaBusy), next.id.session, credential)]))
            && e == next.(events := e.events)
  {
    hide Sent, Announced, Sending, Stamped, Reason;
    AnnouncedMore(if a.anew then c.events.(causation := 0) else c.events, now, c.id.boot, a.told,
                  Told(code, Reason(code, reason, next.otaBusy), next.id.session, credential));
  }

  lemma AbortDid(c: Core, now: u32, next: Core, a: Answer)
    requires Did(c, now, next, a) && (next.authActive ==> next.hasGate)
    ensures var e := AbortControl(next);
            && Did(c, now, e, a.(said := a.said + if next.authActive then [AbortAuth] else []))
            && e == next.(authActive := false, log := e.log)
  {
    hide Sent, Announced;
  }

  lemma ReasonsAre(reason: ResultReason, otaBusy: bool)
    ensures Reason(SessionTerminated, reason, otaBusy) == Why(reason, otaBusy) == Reason(ProofRejected, reason, otaBusy)
    ensures Reason(GattConnected, reason, otaBusy) == ConnectedReason && Reason(GattFailed, reason, otaBusy) == Disconnected
    ensures Reason(ProofRequested, reason, otaBusy) == ChallengeIssuedReason && Reason(ProofVerified, reason, otaBusy) == ProofValid
  {
  }

  lemma CanonicalIs(reason: ResultReason, otaBusy: bool, session: nat)
    requires session != 0
    ensures Ending(reason, otaBusy, session) ==
              (if CanonicalRejection(reason) then [Told(ProofRejected, Why(reason, otaBusy), session, 0)] else [])
              + [Told(SessionTerminated, Why(reason, otaBusy), session, 0)]
  {
    hide Why;
  }

  lemma EndingDid(c: Core, now: u32, next: Core, a: Answer, reason: ResultReason)
    requires Did(c, now, next, a)
    ensures var e := if next.id.session != 0 then EmitRejection(next, reason, now) else next;
            && Did(c, now, e, a.(told := a.told + Ending(reason, next.otaBusy, next.id.session)))
            && e == next.(events := e.events)
  {
    hide Did, Emit, Reason, Why, Ending, CanonicalRejection;
    var why, session := Why(reason, next.otaBusy), next.id.session;
    if session == 0 {
      NoEnding(reason, next.otaBusy);
      assert a.told + [] == a.told;
    } else {
      ReasonsAre(reason, next.otaBusy);
      CanonicalIs(reason, next.otaBusy, session);
      var rejected, ended := [Told(ProofRejected, why, session, 0)], [Told(SessionTerminated, why, session, 0)];
      if CanonicalRejection(reason) {
        EmitDid(c, now, next, a, ProofRejected, reason, 0);
        EmitDid(c, now, Emit(next, ProofRejected, reason, now, 0), a.(told := a.told + rejected), SessionTerminated, reason, 0);
        assert a.told + rejected + ended == a.told + (rejected + ended);
      } else {
        EmitDid(c, now, next, a, SessionTerminated, reason, 0);
        assert [] + ended == ended;
      }
    }
  }

  lemma NoEnding(reason: ResultReason, otaBusy: bool)
    ensures Ending(reason, otaBusy, 0) == []
  {
  }

  /** What a rejection adds to what was done before it. */
  function AndRefused(a: Answer, next: Core, reason: ResultReason, counted: bool): Answer {
    Answer(a.said + [Report(reason)] + (if next.authActive then [AbortAuth] else []),
           a.replies + [ResultTo(next.id.protocol, next.id.session, reason, 0, next.id.acl)],
           a.told + Ending(reason, next.otaBusy, next.id.session), Idle, counted, a.anew, a.emptied)
  }

  /** The result and the events of a rejection. */
  function Announcing(next: Core, reason: ResultReason, now: u32): Core {
    var reported := QueueResult(next, reason, 0);
    if next.id.session != 0 then EmitRejection(reported, reason, now) else reported
  }

  function AndAnnounced(a: Answer, next: Core, reason: ResultReason): Answer {
    Answer(a.said + [Report(reason)], a.replies + [ResultTo(next.id.protocol, next.id.session, reason, 0, next.id.acl)],
           a.told + Ending(reason, next.otaBusy, next.id.session), a.state, a.counted, a.anew, a.emptied)
  }

  lemma AnnouncingDid(c: Core, now: u32, next: Core, a: Answer, reason: ResultReason)
    requires Did(c, now, next, a)
    ensures var e := Announcing(next, reason, now);
            Did(c, now, e, AndAnnounced(a, next, reason)) && e == next.(outbox := e.outbox, log := e.log, events := e.events)
  {
    hide Did, EmitRejection, QueueResult, Ending;
    QueueResultIs(next, reason);
    ReportDid(c, now, next, a, reason, 0);
    var first := a.(said := a.said + [Report(reason)],
                    replies := a.replies + [ResultTo(next.id.protocol, next.id.session, reason, 0, next.id.acl)]);
    EndingDid(c, now, QueueResult(next, reason, 0), first, reason);
  }

  lemma RejectIs(next: Core, reason: ResultReason, now: u32, counted: bool)
    requires reason != RateLimited
    ensures var closed := AbortControl(Announcing(next, reason, now));
            Reject(next, reason, now, counted)
            == ResetPreservingOutputs(if counted then closed.(ledger := Failing(next.ledger, now)) else closed)
  {
    hide EmitRejection, QueueResult, AbortControl, Failing, ResetPreservingOutputs;
  }

  lemma RejectDid(c: Core, now: u32, next: Core, a: Answer, reason: ResultReason, counted: bool)
    requires Did(c, now, next, a) && (next.authActive ==> next.hasGate) && reason != RateLimited && next.ledger == c.ledger
    ensures Answers(c, now, Reject(next, reason, now, counted), AndRefused(a, next, reason, counted))
  {
    hide Did, Announcing, AbortControl, Ending, Failing, Failed, Reject, Answers, ResetPreservingOutputs;
    FailingIs(c.ledger, now);
    AnnouncingDid(c, now, next, a, reason);
    RejectIs(next, reason, now, counted);
    var e, second := Announcing(next, reason, now), AndAnnounced(a, next, reason);
    AbortDid(c, now, e, second);
    var closed := AbortControl(e);
    var third := second.(said := second.said + if next.authActive then [AbortAuth] else []);
    DidIdle(c, now, closed, third, if counted then closed.(ledger := Failing(c.ledger, now)) else closed, counted);
  }

  /** What was done stays done when the session is reset. */
  lemma DidIdle(c: Core, now: u32, done: Core, a: Answer, next: Core, counted: bool)
    requires Did(c, now, done, a) && next == done.(ledger := next.ledger)
    requires next.ledger == if counted then Failed(c.ledger, now) else c.ledger
    ensures Answers(c, now, ResetPreservingOutputs(next), a.(state := Idle, counted := counted))
  {
    hide Sent, Announced, Failed;
  }

  lemma FailingIs(l: Ledger, now: u32)
    ensures Failing(l, now) == Failed(l, now)
  {
    hide Wrap32, Sub32;
    NextCount(l.failures);
  }

  lemma NextCount(n: u32)
    ensures Wrap32(n + 1) == if n == 0xFFFF_FFFF then 0 else n + 1
  {
  }

  lemma QueueResultIs(c: Core, reason: ResultReason)
    ensures var q := QueueResult(c, reason, 0); q == c.(outbox := q.outbox, log := q.log)
  {
    ResultKeeps(c, reason, 0);
  }

  lemma ResultKeeps(c: Core, reason: ResultReason, retryAfter: u32)
    ensures var q := QueueResult(c, reason, retryAfter); q == c.(outbox := q.outbox, log := q.log)
  {
    hide Posted;
  }

  // ---------- Refusals ----------

  lemma Start(c: Core, now: u32)
    ensures Did(c, now, c, Unchanged(c)) && Answers(c, now, c, Unchanged(c))
  {
    assert c.log + [] == c.log;
  }

  lemma RefusalIs(c: Core, next: Core, reason: ResultReason)
    requires next.authActive <==> c.state == ChallengeIssued
    requires next.id.acl == c.id.acl && next.otaBusy == c.otaBusy
    ensures AndRefused(Unchanged(c), next, reason, true) == Refusal(c, reason, next.id.protocol, next.id.session)
  {
    hide Ending;
    assert [] + [Report(reason)] == [Report(reason)];
    assert [] + Ending(reason, c.otaBusy, next.id.session) == Ending(reason, c.otaBusy, next.id.session);
  }

  lemma RefusedDid(c: Core, now: u32, next: Core, reason: ResultReason)
    requires Stable(c) && next == c.(state := next.state, reassembly := next.reassembly) && reason != RateLimited
    ensures Answers(c, now, Reject(next, reason, now, true), Refused(c, reason))
  {
    hide Reject, Answers, Ending, PhaseOf, Did;
    Start(c, now);
    DidBeside(c, now, c, next, Unchanged(c));
    RefusalIs(c, next, reason);
    RejectDid(c, now, next, Unchanged(c), reason, true);
  }

  lemma DidBeside(c: Core, now: u32, next: Core, other: Core, a: Answer)
    requires Did(c, now, next, a)
    requires other == next.(state := other.state, reassembly := other.reassembly, id := other.id, enabled := other.enabled,
                            rngReady := other.rngReady, ledger := other.ledger, authActive := other.authActive) && other.id.boot == next.id.boot
    ensures Did(c, now, other, a)
  {
    hide Sent, Announced;
  }

  lemma RandomFailedDid(c: Core, now: u32, id: Identity)
    requires Stable(c) && c.state == Idle && id.boot == c.id.boot && id.acl == c.id.acl
    ensures Answers(c, now, RandomFailed(c.(id := id), now), Refusal(c, InternalFailClosed, id.protocol, id.session))
  {
    hide Reject, Answers, Ending, PhaseOf, Did;
    Start(c, now);
    var failed := c.(id := id, rngReady := false, enabled := false);
    DidBeside(c, now, c, failed, Unchanged(c));
    RefusalIs(c, failed, InternalFailClosed);
    RejectDid(c, now, failed, Unchanged(c), InternalFailClosed, true);
  }

  // ---------- New sessions ----------

  lemma UncausedDid(c: Core, now: u32, named: Core, a: Answer)
    requires named == c.(id := named.id, state := named.state) && named.id.boot == c.id.boot
    requires a == Answer([], [], [], c.state, false, true, false)
    ensures Did(c, now, Uncaused(named), a)
  {
    assert c.log + [] == c.log;
  }

  /** A new session is announced first, without a cause. */
  lemma NamedDid(c: Core, now: u32, named: Core)
    requires named == c.(id := named.id, state := named.state) && named.id.boot == c.id.boot && named.id.session != 0
    ensures var e := Emit(Uncaused(named), GattConnected, Accepted, now, 0);
            && Did(c, now, e, Answer([], [], [Connected(named.id.session)], c.state, false, true, false))
            && e == named.(events := e.events)
  {
    hide Emit, Did;
    var a := Answer([], [], [], c.state, false, true, false);
    UncausedDid(c, now, named, a);
    EmitDid(c, now, Uncaused(named), a, GattConnected, Accepted, 0);
    ReasonsAre(Accepted, named.otaBusy);
    assert a.told + [Connected(named.id.session)] == [Connected(named.id.session)];
  }

  lemma EndDid(c: Core, now: u32, next: Core, a: Answer, reason: ResultReason)
    requires Did(c, now, next, a) && next.id.session != 0 && next.ledger == c.ledger
    ensures Answers(c, now, ResetPreservingOutputs(Emit(next, SessionTerminated, reason, now, 0)),
                    a.(told := a.told + Ended(Why(reason, next.otaBusy), next.id.session), state := Idle, counted := false))
  {
    hide Did, Emit, Reason, Why, Answers, ResetPreservingOutputs;
    ReasonsAre(reason, next.otaBusy);
    EmitDid(c, now, next, a, SessionTerminated, reason, 0);
    var e := Emit(next, SessionTerminated, reason, now, 0);
    DidIdle(c, now, e, a.(told := a.told + Ended(Why(reason, next.otaBusy), next.id.session)), e, false);
  }

  lemma DeclineDid(c: Core, now: u32, next: Core, a: Answer, reason: ResultReason, retryAfter: u32)
    requires Did(c, now, next, a) && next.id.session != 0 && next.ledger == c.ledger
    ensures Answers(c, now, ResetPreservingOutputs(Emit(QueueResult(next, reason, retryAfter), SessionTerminated, reason, now, 0)),
                    a.(said := a.said + [Report(reason)],
                       replies := a.replies + [ResultTo(next.id.protocol, next.id.session, reason, retryAfter, next.id.acl)],
                       told := a.told + Ended(Why(reason, next.otaBusy), next.id.session), state := Idle, counted := false))
  {
    hide Did, Emit, Why, Answers, ResetPreservingOutputs, Posted;
    ReportDid(c, now, next, a, reason, retryAfter);
    EndDid(c, now, QueueResult(next, reason, retryAfter),
           a.(said := a.said + [Report(reason)],
              replies := a.replies + [ResultTo(next.id.protocol, next.id.session, reason, retryAfter, next.id.acl)]), reason);
  }

  lemma LogDid(c: Core, now: u32, next: Core, a: Answer, more: seq<Effect>, after: Core)
    requires Did(c, now, next, a) && after == next.(log := next.log + more, authActive := after.authActive)
    ensures Did(c, now, after, a.(said := a.said + more))
  {
    hide Sent, Announced;
  }

  /** What the gate is asked for a new session. */
  lemma GateDid(c: Core, now: u32, next: Core, a: Answer, env: Env)
    requires Did(c, now, next, a) && !next.authActive
    ensures var g := OpenGate(next, env).0;
            && Did(c, now, g, a.(said := a.said + if !next.hasGate then [] else if env.beginOk then [BeginAuth(true)] else [BeginAuth(false), AbortAuth]))
            && g == next.(log := g.log, authActive := OpenGate(next, env).1) && (OpenGate(next, env).1 <==> next.hasGate && env.beginOk)
  {
    hide Did;
    var g := OpenGate(next, env).0;
    var more: seq<Effect> := if !next.hasGate then [] else if env.beginOk then [BeginAuth(true)] else [BeginAuth(false), AbortAuth];
    assert g.log == next.log + more;
    LogDid(c, now, next, a, more, g);
  }

  /** The challenge is issued, queued and announced. */
  lemma ChallengeDid(c: Core, now: u32, next: Core, a: Answer)
    requires Did(c, now, next, a) && next.state == HelloReceived && next.id.session != 0 && next.ledger == c.ledger
    requires next.id.protocol == 1 || next.id.protocol == 2
    ensures var ch := ChallengeFor(next.id, now);
            Answers(c, now, BuildChallenge(next, now),
                    a.(said := a.said + [Issue(ch)],
                       replies := a.replies + [Reply(if next.id.protocol == 2 then FastChallenge else MessageType.Challenge, ChallengeBody(ch))],
                       told := a.told + [Told(ProofRequested, ChallengeIssuedReason, next.id.session, 0)],
                       state := ChallengeIssued, counted := false))
  {
    hide Emit, Queue, Did, Answers, Reason, Wrap32;
    var ch := ChallengeFor(next.id, now);
    var kind := if next.id.protocol == 2 then FastChallenge else MessageType.Challenge;
    var issued := next.(log := next.log + [Issue(ch)]);
    LogDid(c, now, next, a, [Issue(ch)], issued);
    var first := a.(said := a.said + [Issue(ch)]);
    DidBeside(c, now, issued, Issuing(next, ch), first);
    QueueKeeps(Issuing(next, ch), kind, ChallengeBody(ch));
    QueueDid(c, now, Issuing(next, ch), first, Reply(kind, ChallengeBody(ch)));
    var second := first.(replies := a.replies + [Reply(kind, ChallengeBody(ch))]);
    ReasonsAre(Accepted, next.otaBusy);
    EmitDid(c, now, Queue(Issuing(next, ch), kind, ChallengeBody(ch)), second, ProofRequested, Accepted, 0);
    DidWaits(c, now, BuildChallenge(next, now), second.(told := a.told + [Told(ProofRequested, ChallengeIssuedReason, next.id.session, 0)]));
  }

  lemma DidWaits(c: Core, now: u32, next: Core, a: Answer)
    requires Did(c, now, next, a) && next.state == ChallengeIssued && next.ledger == c.ledger
    ensures Answers(c, now, next, a.(state := ChallengeIssued, counted := false))
  {
    hide Sent, Announced;
  }

  lemma LimitedIs(c: Core, now: u32)
    ensures RateLimiting(c.ledger, now) <==> Limited(c, now)
  {
  }

  lemma RandomizedIs(c: Core, env: Env)
    ensures var (s, n) := (FreshSession(c.id, env), FreshNonce(c.id, env));
            && Randomize(c.id, env).1 == (s.Some? && n.Some?)
            && Randomize(c.id, env).0 == (if s.None? then c.id.(session := 0)
                                          else if n.None? then c.id.(session := s.value, nonce := 0)
                                          else
                                            c.id.(session := s.value, nonce := n.value, previousSession := s.value, previousNonce := n.value,
                                                  acl := env.activeAcl))
  {
    hide RandomUnique;
  }

  lemma Alone(e: Effect, r: Reply)
    ensures [] + [e] == [e] && [] + [r] == [r]
  {
  }

  lemma FreshIsNonzero(id: Identity, env: Env)
    ensures FreshSession(id, env).Some? ==> FreshSession(id, env).value != 0
  {
    RandomUniqueNonzero(env.sessionFills, id.previousSession, 4);
  }

  /** A fast session with identity `s`, announced, from there on. */
  lemma StartFastAnswers(c: Core, now: u32, env: Env, next: Core, s: nat, n: nat)
    requires Stable(c) && c.state == Idle
    requires Did(c, now, next, Answer([], [], [Connected(s)], Idle, false, true, false)) && s != 0
    requires next.id.session == s && next.id.nonce == n && next.id.protocol == 2 && next.id.acl == env.activeAcl && next.id.boot == c.id.boot
    requires next.otaBusy == c.otaBusy && next.hasGate == c.hasGate && !next.authActive && next.ledger == c.ledger
    requires FreshSession(c.id, env) == Some(s) && FreshNonce(c.id, env) == Some(n)
    ensures Answers(c, now, StartFast(next, now, env).0, FastAnswer(c, now, env))
  {
    hide Did, Emit, Answers, ResetPreservingOutputs, QueueResult, BuildChallenge, FreshSession, FreshNonce, PhaseOf, RateLimiting, Limited, Stable, OpenGate;
    LimitedIs(c, now);
    var a := Answer([], [], [Connected(s)], Idle, false, true, false);
    if next.otaBusy {
      Alone(Report(Busy), ResultTo(2, s, Busy, 1000, env.activeAcl));
      DeclineDid(c, now, next, a, Busy, 1000);
    } else if Limited(c, now) {
      Alone(Report(RateLimited), ResultTo(2, s, RateLimited, Sub32(c.ledger.backoffUntil, now), env.activeAcl));
      DeclineDid(c, now, next, a, RateLimited, Sub32(c.ledger.backoffUntil, now));
    } else {
      StartFastOpens(c, now, env, next, s, n);
    }
  }

  /** A session whose gate is open gets its challenge. */
  lemma OpenedDid(c: Core, now: u32, ready: Core, first: seq<Reply>)
    requires ready.state == HelloReceived && ready.id.session != 0 && ready.ledger == c.ledger
    requires ready.id.protocol == 1 || ready.id.protocol == 2
    requires Did(c, now, ready, Answer([BeginAuth(true)], first, [Connected(ready.id.session)], Idle, false, true, false))
    ensures Answers(c, now, BuildChallenge(ready, now),
                    Opened(first, if ready.id.protocol == 2 then FastChallenge else MessageType.Challenge, ChallengeFor(ready.id, now)))
  {
    hide Did, Answers, BuildChallenge;
    var ch, s := ChallengeFor(ready.id, now), ready.id.session;
    assert [BeginAuth(true)] + [Issue(ch)] == [BeginAuth(true), Issue(ch)];
    assert [Connected(s)] + [Told(ProofRequested, ChallengeIssuedReason, s, 0)] == [Connected(s), Told(ProofRequested, ChallengeIssuedReason, s, 0)];
    ChallengeDid(c, now, ready, Answer([BeginAuth(true)], first, [Connected(s)], Idle, false, true, false));
  }

  /** What a gate that stays closed was asked. */
  function AskedInVain(c: Core): seq<Effect> { if c.hasGate then [BeginAuth(false), AbortAuth] else [] }

  lemma GateOpens(c: Core, now: u32, next: Core, s: nat, env: Env)
    requires Did(c, now, next, Answer([], [], [Connected(s)], Idle, false, true, false)) && !next.authActive && next.hasGate == c.hasGate
    ensures var (g, open) := OpenGate(next, env);
            && (open <==> c.hasGate && env.beginOk)
            && Did(c, now, g, Answer(if open then [BeginAuth(true)] else AskedInVain(c), [], [Connected(s)], Idle, false, true, false))
            && g == next.(log := g.log, authActive := open)
  {
    hide Did, OpenGate;
    GateDid(c, now, next, Answer([], [], [Connected(s)], Idle, false, true, false), env);
    var asked := if !c.hasGate then [] else if env.beginOk then [BeginAuth(true)] else [BeginAuth(false), AbortAuth];
    assert [] + asked == asked;
  }

  lemma StartFastOpens(c: Core, now: u32, env: Env, next: Core, s: nat, n: nat)
    requires Stable(c) && c.state == Idle && !c.otaBusy && !Limited(c, now)
    requires Did(c, now, next, Answer([], [], [Connected(s)], Idle, false, true, false)) && s != 0
    requires next.id.session == s && next.id.nonce == n && next.id.protocol == 2 && next.id.acl == env.activeAcl && next.id.boot == c.id.boot
    requires next.otaBusy == c.otaBusy && next.hasGate == c.hasGate && !next.authActive && next.ledger == c.ledger
    requires FreshSession(c.id, env) == Some(s) && FreshNonce(c.id, env) == Some(n)
    ensures Answers(c, now, StartFast(next, now, env).0, FastAnswer(c, now, env))
  {
    hide Did, Emit, Answers, ResetPreservingOutputs, QueueResult, BuildChallenge, FreshSession, FreshNonce, PhaseOf, RateLimiting, Limited, Stable, OpenGate,
         Opened, Why;
    LimitedIs(c, now);
    GateOpens(c, now, next, s, env);
    var (g, open) := OpenGate(next, env);
    if open {
      var ready := g.(id := g.id.(negotiation := FastTranscript), state := HelloReceived);
      DidBeside(c, now, g, ready, Answer([BeginAuth(true)], [], [Connected(s)], Idle, false, true, false));
      OpenedDid(c, now, ready, []);
    } else {
      FastStaysClosed(c, now, env, g, s);
    }
  }

  lemma FastStaysClosed(c: Core, now: u32, env: Env, g: Core, s: nat)
    requires g.id.session == s != 0 && g.id.protocol == 2 && g.id.acl == env.activeAcl && !g.otaBusy && g.ledger == c.ledger
    requires Did(c, now, g, Answer(AskedInVain(c), [], [Connected(s)], Idle, false, true, false))
    ensures var reason, retryAfter := if c.hasGate then Busy else InternalFailClosed, if c.hasGate then 1000 else 0;
            Answers(c, now, ResetPreservingOutputs(Emit(QueueResult(g, reason, retryAfter), SessionTerminated, reason, now, 0)),
                    Declined(if c.hasGate then [BeginAuth(false), AbortAuth, Report(Busy)] else [Report(InternalFailClosed)],
                             ResultTo(2, s, reason, retryAfter, env.activeAcl), if c.hasGate then TargetBusy else InternalError, s))
  {
    hide Did, Emit, Answers, ResetPreservingOutputs, QueueResult;
    var reason, retryAfter := if c.hasGate then Busy else InternalFailClosed, if c.hasGate then 1000 else 0;
    DeclineDid(c, now, g, Answer(AskedInVain(c), [], [Connected(s)], Idle, false, true, false), reason, retryAfter);
    Alone(Report(reason), ResultTo(2, s, reason, retryAfter, env.activeAcl));
    assert AskedInVain(c) + [Report(reason)] == if c.hasGate then [BeginAuth(false), AbortAuth, Report(Busy)] else [Report(InternalFailClosed)];
  }

  lemma FastAnswers(c: Core, owner: Owner, now: u32, env: Env)
    requires Stable(c)
    ensures Answers(c, now, BeginFastSession(c, owner, now, env).0, AnswerTo(c, CallBeginFastSession(owner), now, env))
  {
    hide Answers, StartFast, RandomFailed, Emit, FreshSession, FreshNonce, PhaseOf, Did;
    Start(c, now);
    if Enabled(c) && c.connected && owner == c.owner && c.state == Idle {
      var fast := c.(id := c.id.(protocol := FAST_PROTOCOL));
      RandomizedIs(fast, env);
      FillsIgnoreProtocol(c.id, env);
      FreshIsNonzero(c.id, env);
      var (id, filled) := Randomize(c.id.(protocol := FAST_PROTOCOL), env);
      if !filled {
        RandomFailedDid(c, now, id);
      } else {
        NamedDid(c, now, c.(id := id));
        StartFastAnswers(c, now, env, Emit(Uncaused(c.(id := id)), GattConnected, Accepted, now, 0), id.session, id.nonce);
      }
    }
  }

  /** The same for a session negotiated by a hello. */
  lemma StartHelloAnswers(c: Core, p: seq<byte>, now: u32, env: Env, next: Core, s: nat, n: nat)
    requires Stable(c) && c.state == Idle && |p| == 16 && Offers(p)
    requires Did(c, now, next, Answer([], [], [Connected(s)], Idle, false, true, false)) && s != 0
    requires next.id.session == s && next.id.nonce == n && next.id.protocol == 1 && next.id.acl == env.activeAcl && next.id.boot == c.id.boot
    requires !c.otaBusy && !next.otaBusy && next.hasGate == c.hasGate && !next.authActive && next.ledger == c.ledger && next.state == HelloReceived
    requires FreshSession(c.id, env) == Some(s) && FreshNonce(c.id, env) == Some(n)
    ensures Answers(c, now, StartHello(next, p, now, env).0, HelloAnswer(c, p, now, env))
  {
    hide Did, Emit, Answers, ResetPreservingOutputs, Queue, BuildChallenge, FreshSession, FreshNonce, PhaseOf, Stable, OpenGate, Offers,
         Opened, Why;
    GateOpens(c, now, next, s, env);
    var (g, open) := OpenGate(next, env);
    if open {
      var bound := g.(id := g.id.(negotiation := HelloTranscript(p)));
      var hello := Reply(TargetHello, HelloBody(1, 0));
      var a := Answer([BeginAuth(true)], [], [Connected(s)], Idle, false, true, false);
      DidBeside(c, now, g, bound, a);
      QueueDid(c, now, bound, a, hello);
      Alone(BeginAuth(true), hello);
      QueueKeeps(bound, TargetHello, HelloBody(1, 0));
      OpenedDid(c, now, Queue(bound, TargetHello, HelloBody(1, 0)), [hello]);
    } else {
      HelloStaysClosed(c, now, g, s);
    }
  }

  lemma HelloStaysClosed(c: Core, now: u32, g: Core, s: nat)
    requires g.id.session == s != 0 && !g.otaBusy && g.ledger == c.ledger
    requires Did(c, now, g, Answer(AskedInVain(c), [], [Connected(s)], Idle, false, true, false))
    ensures Answers(c, now, ResetPreservingOutputs(Emit(Queue(g, TargetHello, HelloBody(0, 2)), SessionTerminated,
                                                        if c.hasGate then Busy else InternalFailClosed, now, 0)),
                    Declined(AskedInVain(c), Reply(TargetHello, HelloBody(0, 2)), if c.hasGate then TargetBusy else InternalError, s))
  {
    hide Did, Emit, Answers, ResetPreservingOutputs, Queue;
    var refusal := Reply(TargetHello, HelloBody(0, 2));
    var a := Answer(AskedInVain(c), [], [Connected(s)], Idle, false, true, false);
    QueueDid(c, now, g, a, refusal);
    Alone(AbortAuth, refusal);
    QueueKeeps(g, TargetHello, HelloBody(0, 2));
    EndDid(c, now, Queue(g, TargetHello, HelloBody(0, 2)), a.(replies := [refusal]), if c.hasGate then Busy else InternalFailClosed);
  }

  lemma QueueKeeps(c: Core, kind: MessageType, body: Body)
    ensures var q := Queue(c, kind, body); q == c.(outbox := q.outbox)
  {
    hide Posted;
  }

  lemma HelloAnswers(c: Core, p: seq<byte>, now: u32, env: Env)
    requires Stable(c) && !c.otaBusy
    ensures Answers(c, now, ProcessHello(c, p, now, env).0, HelloAnswer(c, p, now, env))
  {
    hide Answers, StartHello, RandomFailed, Emit, FreshSession, FreshNonce, PhaseOf, Did, Reject, HelloSupported, Offers;
    OffersIs(p);
    Start(c, now);
    RefusedDid(c, now, c, MalformedMessage);
    if |p| == 16 && c.state == Idle && Offers(p) {
      RandomizedIs(c, env);
      FreshIsNonzero(c.id, env);
      var (id, filled) := Randomize(c.id, env);
      if !filled {
        RandomFailedDid(c, now, id);
      } else {
        OffersOne(p);
        var named := c.(id := id.(protocol := Min(Read16(p[2], p[3]), 1)), state := HelloReceived);
        NamedDid(c, now, named);
        StartHelloAnswers(c, p, now, env, Emit(Uncaused(named), GattConnected, Accepted, now, 0), id.session, id.nonce);
      }
    } else if |p| == 16 && c.state == Idle {
      OutdatedAnswers(c, now);
    }
  }

  lemma OffersOne(p: seq<byte>)
    requires Offers(p)
    ensures Min(Read16(p[2], p[3]), 1) == 1
  {
  }

  lemma OutdatedAnswers(c: Core, now: u32)
    requires c.state == Idle
    ensures Answers(c, now, Queue(c, TargetHello, HelloBody(0, 1)), Answer([], [Reply(TargetHello, HelloBody(0, 1))], [], Idle, false, false, false))
  {
    hide Posted, Sent, Announced;
    SentMore(c.outbox, c.owner, [], Reply(TargetHello, HelloBody(0, 1)));
    Start(c, now);
    assert [] + [Reply(TargetHello, HelloBody(0, 1))] == [Reply(TargetHello, HelloBody(0, 1))];
    assert c.log + [] == c.log;
  }

  // ---------- Proofs ----------

  lemma PublicIs(reason: ResultReason)
    ensures PublicReason(reason) == Public(reason)
  {
  }

  /** A proof the verifier turned down. */
  lemma DeniedAnswers(c: Core, now: u32, next: Core, request: VerifyRequest, env: Env)
    requires Stable(c) && c.state == ChallengeIssued && next == c.(state := Consumed) && env.verdict.reason != Accepted
    ensures Answers(c, now, Reject(Judged(next, request, env.verdict), PublicReason(env.verdict.reason), now, true),
                    VerdictAnswer(c, request, env))
  {
    hide Reject, Answers, Ending, PhaseOf, Did, Why;
    PublicIs(env.verdict.reason);
    var judged, reason := Judged(next, request, env.verdict), Public(env.verdict.reason);
    Start(c, now);
    var logged := c.(log := c.log + [Verify(request, env.verdict)]);
    LogDid(c, now, c, Unchanged(c), [Verify(request, env.verdict)], logged);
    var a := Unchanged(c).(said := [] + [Verify(request, env.verdict)]);
    DidBeside(c, now, logged, judged, a);
    RejectDid(c, now, judged, a, reason, true);
    assert [] + [Verify(request, env.verdict)] + [Report(reason)] + [AbortAuth] == [Verify(request, env.verdict), Report(reason), AbortAuth];
    Alone(AbortAuth, ResultTo(c.id.protocol, c.id.session, reason, 0, env.verdict.acl));
    assert [] + Ending(reason, false, c.id.session) == Ending(reason, false, c.id.session);
  }

  /** The verified proof, told. */
  lemma ValidDid(c: Core, now: u32, next: Core, request: VerifyRequest, env: Env)
    requires Stable(c) && c.state == ChallengeIssued && next == c.(state := Consumed)
    ensures var judged := Judged(next, request, env.verdict);
            var e := Emit(judged, ProofVerified, Accepted, now, request.credential);
            && Did(c, now, e, Answer([Verify(request, env.verdict)], [], [Told(ProofVerified, ProofValid, c.id.session, request.credential)],
                                     c.state, false, false, false))
            && e == judged.(events := e.events)
  {
    hide Did, Emit, PhaseOf;
    Start(c, now);
    var judged := Judged(next, request, env.verdict);
    var logged := c.(log := c.log + [Verify(request, env.verdict)]);
    LogDid(c, now, c, Unchanged(c), [Verify(request, env.verdict)], logged);
    var verified, told := [Verify(request, env.verdict)], [Told(ProofVerified, ProofValid, c.id.session, request.credential)];
    assert [] + verified == verified && [] + told == told;
    DidBeside(c, now, logged, judged, Unchanged(c).(said := verified));
    ReasonsAre(Accepted, c.otaBusy);
    EmitDid(c, now, judged, Unchanged(c).(said := verified), ProofVerified, Accepted, request.credential);
  }

  lemma GrantedDid(c: Core, now: u32, next: Core, a: Answer)
    requires Did(c, now, next, a) && next.ledger == c.ledger && c.state != Completed
    ensures Answers(c, now, next.(state := Completed, ledger := Granting(c.ledger)), a.(state := Completed, counted := false))
  {
    hide Sent, Announced;
  }

  /** A proof the verifier approved: committed and accepted, or closed. */
  lemma DecideAnswers(c: Core, now: u32, next: Core, request: VerifyRequest, env: Env)
    requires Stable(c) && c.state == ChallengeIssued && env.verdict.reason == Accepted
    requires Did(c, now, next, Answer([Verify(request, env.verdict)], [], [Told(ProofVerified, ProofValid, c.id.session, request.credential)],
                                      c.state, false, false, false))
    requires next == c.(state := Consumed, id := c.id.(acl := env.verdict.acl), log := next.log, events := next.events)
    ensures Answers(c, now, Decide(next, request.action, now, env).0, VerdictAnswer(c, request, env))
  {
    hide Did, Answers, Reject, QueueResult, PhaseOf, Posted, Why, Ending;
    var verified, told := [Verify(request, env.verdict)], [Told(ProofVerified, ProofValid, c.id.session, request.credential)];
    var a := Answer(verified, [], told, c.state, false, false, false);
    var commit := [Commit(request.action, env.commitOk)];
    var c1 := Committing(next, request.action, env);
    LogDid(c, now, next, a, commit, c1);
    var b := a.(said := verified + commit);
    if env.commitOk {
      LogDid(c, now, c1, b, [], c1.(authActive := false));
      assert b.said + [] == b.said && c1.log + [] == c1.log;
      ReportDid(c, now, c1.(authActive := false), b, Accepted, 0);
      QueueResultIs(c1.(authActive := false), Accepted);
      var reply := ResultTo(c.id.protocol, c.id.session, Accepted, 0, env.verdict.acl);
      Alone(Report(Accepted), reply);
      assert verified + commit + [Report(Accepted)] == [Verify(request, env.verdict), Commit(request.action, true), Report(Accepted)];
      GrantedDid(c, now, QueueResult(c1.(authActive := false), Accepted, 0),
                 b.(said := verified + commit + [Report(Accepted)], replies := [reply]));
    } else {
      var reason := if env.commitRejection == Busy then Busy else InternalFailClosed;
      AbortDid(c, now, c1, b);
      var third := b.(said := verified + commit + [AbortAuth]);
      RejectDid(c, now, AbortControl(c1), third, reason, false);
      Alone(Report(reason), ResultTo(c.id.protocol, c.id.session, reason, 0, env.verdict.acl));
      assert verified + commit + [AbortAuth] + [Report(reason)] + []
             == [Verify(request, env.verdict), Commit(request.action, false), AbortAuth, Report(reason)];
      OnlyEnds(reason, c.id.session);
    }
  }

  lemma OnlyEnds(reason: ResultReason, session: nat)
    requires session != 0 && (reason == Busy || reason == InternalFailClosed)
    ensures Ending(reason, false, session) == Ended(if reason == Busy then TargetBusy else InternalError, session)
  {
    assert [] + Ended(Why(reason, false), session) == Ended(Why(reason, false), session);
  }

  lemma ProofAnswers(c: Core, p: seq<byte>, now: u32, env: Env)
    requires Stable(c)
    ensures Answers(c, now, ProcessProof(c, p, now, env).0, ProofAnswer(c, p, now, env))
  {
    hide Answers, Reject, Decide, Emit, Refused, VerdictAnswer, PhaseOf, FromBigEndian, Did, PublicReason;
    RefusedDid(c, now, c, ExpiredOrReplay);
    if c.state == ChallengeIssued {
      var consumed := c.(state := Consumed);
      RefusedDid(c, now, consumed, MalformedMessage);
      RefusedDid(c, now, consumed, ExpiredOrReplay);
      RefusedDid(c, now, consumed, SessionInvalid);
      RefusedDid(c, now, consumed, ProofInvalid);
      if |p| == 103 {
        var request := RequestOf(p, c.id.challenge);
        if env.verdict.reason != Accepted {
          DeniedAnswers(c, now, consumed, request, env);
        } else {
          ValidDid(c, now, consumed, request, env);
          DecideAnswers(c, now, Emit(Judged(consumed, request, env.verdict), ProofVerified, Accepted, now, request.credential), request, env);
        }
      }
    }
  }

  // ---------- Every call ----------

  /** What is answered after reassembly is what would be answered before. */
  lemma BesideFrame(c: Core, r: Reassembly, kind: MessageType, p: seq<byte>, now: u32, env: Env, next: Core)
    ensures Stable(c) <==> Stable(c.(reassembly := r))
    ensures MessageAnswer(c, kind, p, now, env) == MessageAnswer(c.(reassembly := r), kind, p, now, env)
    ensures Answers(c.(reassembly := r), now, next, MessageAnswer(c, kind, p, now, env)) ==> Answers(c, now, next, MessageAnswer(c, kind, p, now, env))
  {
    hide PhaseOf, FreshSession, FreshNonce, Offers, Ending, Why, FromBigEndian, Sent, Announced, Sub32;
  }

  lemma MessageAnswers(c: Core, kind: MessageType, p: seq<byte>, now: u32, env: Env)
    requires Stable(c) && !c.otaBusy
    ensures Answers(c, now, Process(c, kind, p, now, env).0, MessageAnswer(c, kind, p, now, env))
  {
    hide Answers, ProcessHello, ProcessProof, HelloAnswer, ProofAnswer, Reject, Refused, PhaseOf;
    RefusedDid(c, now, c, MalformedMessage);
    HelloAnswers(c, p, now, env);
    ProofAnswers(c, p, now, env);
  }

  lemma OnlyResultAnswers(c: Core, now: u32, reason: ResultReason, retryAfter: u32)
    ensures Answers(c, now, QueueResult(c, reason, retryAfter), OnlyResult(c, reason, retryAfter))
  {
    hide Posted, Sent, Announced;
    Start(c, now);
    ReportDid(c, now, c, Unchanged(c), reason, retryAfter);
    Alone(Report(reason), ResultTo(c.id.protocol, c.id.session, reason, retryAfter, c.id.acl));
  }

  lemma FrameAnswers(c: Core, kind: MessageType, owner: Owner, frame: seq<byte>, now: u32, env: Env)
    requires Stable(c)
    ensures Answers(c, now, ReceiveFrame(c, kind, owner, frame, now, env).0, AnswerTo(c, CallReceiveFrame(kind, owner, frame), now, env))
  {
    hide Answers, Process, MessageAnswer, QueueResult, OnlyResult, Reject, Refused, AcceptFrame, PhaseOf, RateLimiting, Limited, Stable;
    Start(c, now);
    LimitedIs(c, now);
    OnlyResultAnswers(c, now, Busy, 1000);
    OnlyResultAnswers(c, now, ExpiredOrReplay, 0);
    OnlyResultAnswers(c, now, RateLimited, Sub32(c.ledger.backoffUntil, now));
    RefusedDid(c, now, c, MalformedMessage);
    var (r, result) := AcceptFrame(c.reassembly, kind, frame, now);
    if result.Complete? && !c.otaBusy {
      BesideFrame(c, r, result.kind, result.payload, now, env, Process(c.(reassembly := r), result.kind, result.payload, now, env).0);
      MessageAnswers(c.(reassembly := r), result.kind, result.payload, now, env);
    }
    if result.Pending? {
      PendingAnswers(c, now, r);
    }
  }

  lemma PendingAnswers(c: Core, now: u32, r: Reassembly)
    ensures Answers(c, now, c.(reassembly := r), Unchanged(c))
  {
    Start(c, now);
    hide Sent, Announced;
  }

  lemma TickAnswers(c: Core, now: u32)
    requires Stable(c)
    ensures Answers(c, now, Tick(c, now), TickAnswer(c, now))
  {
    hide Answers, Reject, Refused, PhaseOf;
    Start(c, now);
    RefusedDid(c, now, c, MalformedMessage);
    RefusedDid(c, now, c, ExpiredOrReplay);
  }

  /** A reset that drops what was queued. */
  lemma EmptiedAnswers(c: Core, now: u32, next: Core, a: Answer, told: Answer)
    requires Did(c, now, next, a) && !a.emptied && a.replies == [] && next.ledger == c.ledger
    requires told == a.(state := Idle, counted := false, emptied := true)
    ensures Answers(c, now, Reset(next), told)
  {
    hide Announced;
  }

  lemma ConnectAnswers(c: Core, handle: u16, now: u32)
    ensures Answers(c, now, Connect(c, handle).0, AnswerTo(c, CallConnect(handle), now, NO_ENV))
  {
    hide Announced, Wrap64;
    Start(c, now);
    assert c.log + [] == c.log;
  }

  const NO_ENV := Env([], [], 0, false, Verdict(Accepted, 0), false, Accepted)

  lemma EnableAnswers(c: Core, on: bool, now: u32)
    requires Stable(c)
    ensures Answers(c, now, SetEnabled(c, on), AnswerTo(c, CallSetEnabled(on), now, NO_ENV))
  {
    hide PhaseOf, AbortControl, Did;
    var c1 := c.(enabled := on && c.rngReady);
    Start(c, now);
    DidBeside(c, now, c, c1, Unchanged(c));
    AbortDid(c, now, c1, Unchanged(c));
    assert [] + Closing(c) == Closing(c);
    if c1.enabled {
      PendingKeeps(c, now, c1);
    } else {
      var closed := AbortControl(c1).(connected := false);
      DidDisconnected(c, now, AbortControl(c1), closed, Unchanged(c).(said := Closing(c)));
      EmptiedAnswers(c, now, closed, Unchanged(c).(said := Closing(c)), Answer(Closing(c), [], [], Idle, false, false, true));
    }
  }

  lemma DidDisconnected(c: Core, now: u32, next: Core, other: Core, a: Answer)
    requires Did(c, now, next, a) && other == next.(connected := other.connected, otaBusy := other.otaBusy)
    ensures Did(c, now, other, a)
  {
    hide Sent, Announced;
  }

  lemma PendingKeeps(c: Core, now: u32, next: Core)
    requires next == c.(enabled := next.enabled, otaBusy := next.otaBusy)
    ensures Answers(c, now, next, Unchanged(c))
  {
    Start(c, now);
    hide Sent, Announced;
  }

  lemma DisconnectAnswers(c: Core, owner: Owner, now: u32)
    requires Stable(c)
    ensures Answers(c, now, Disconnect(c, owner, now), AnswerTo(c, CallDisconnect(owner), now, NO_ENV))
  {
    hide PhaseOf, AbortControl, Did, Emit, Reset, Answers;
    Start(c, now);
    var c1 := c.(connected := false);
    DidDisconnected(c, now, c, c1, Unchanged(c));
    if c.connected && owner == c.owner {
      if c.state == ChallengeIssued {
        ReasonsAre(SessionInvalid, c.otaBusy);
        var failed, ended := [Told(GattFailed, Disconnected, c.id.session, 0)], Ended(InternalError, c.id.session);
        assert [] + failed == failed && [] + [AbortAuth] == [AbortAuth];
        EmitDid(c, now, c1, Unchanged(c), GattFailed, SessionInvalid, 0);
        var c2 := Emit(c1, GattFailed, SessionInvalid, now, 0);
        EmitDid(c, now, c2, Unchanged(c).(told := failed), SessionTerminated, SessionInvalid, 0);
        var c3 := Emit(c2, SessionTerminated, SessionInvalid, now, 0);
        AbortDid(c, now, c3, Unchanged(c).(told := failed + ended));
        EmptiedAnswers(c, now, AbortControl(c3), Unchanged(c).(told := failed + ended, said := [AbortAuth]),
                       Answer([AbortAuth], [], failed + ended, Idle, false, false, true));
      } else {
        EmptiedAnswers(c, now, c1, Unchanged(c), Answer([], [], [], Idle, false, false, true));
      }
    }
  }

  lemma TransportAnswers(c: Core, owner: Owner, reason: ResultReason, now: u32)
    requires Stable(c)
    ensures Answers(c, now, AbortTransport(c, owner, reason, now), AnswerTo(c, CallAbortTransport(owner, reason), now, NO_ENV))
  {
    hide PhaseOf, AbortControl, Did, Emit, Reset, Answers, Why, Reason;
    Start(c, now);
    if c.connected && owner == c.owner {
      if c.state == Completed {
        EmptiedAnswers(c, now, c, Unchanged(c), Answer([], [], [], Idle, false, false, true));
      } else {
        ReasonsAre(reason, c.otaBusy);
        var ended := Ended(Why(reason, c.otaBusy), c.id.session);
        assert [] + ended == ended && [] + Closing(c) == Closing(c);
        var told := if c.id.session != 0 then ended else [];
        if c.id.session != 0 {
          EmitDid(c, now, c, Unchanged(c), SessionTerminated, reason, 0);
        }
        var c1 := if c.id.session != 0 then Emit(c, SessionTerminated, reason, now, 0) else c;
        AbortDid(c, now, c1, Unchanged(c).(told := told));
        EmptiedAnswers(c, now, AbortControl(c1), Unchanged(c).(told := told, said := Closing(c)),
                       Answer(Closing(c), [], told, Idle, false, false, true));
      }
    }
  }

  lemma BusyAnswers(c: Core, busy: bool, now: u32)
    requires Stable(c)
    ensures Answers(c, now, SetOtaBusy(c, busy, now), AnswerTo(c, CallSetOtaBusy(busy), now, NO_ENV))
  {
    hide PhaseOf, AbortControl, Did, Emit, Answers, QueueResult, Why, Reason, ResetPreservingOutputs;
    var c1 := c.(otaBusy := busy);
    PendingKeeps(c, now, c1);
    if busy && c.state == ChallengeIssued {
      BusyEnds(c, now);
    }
  }

  lemma BusyEnds(c: Core, now: u32)
    requires Stable(c) && c.state == ChallengeIssued
    ensures Answers(c, now, SetOtaBusy(c, true, now), AnswerTo(c, CallSetOtaBusy(true), now, NO_ENV))
  {
    hide PhaseOf, AbortControl, Did, Emit, Answers, QueueResult, Why, Reason, ResetPreservingOutputs;
    var c1 := c.(otaBusy := true);
    var empty := c1.(outbox := NoOutputs(c.outbox));
    var a := Answer([], [], [], c.state, false, false, true);
    EmptiedDid(c, now, empty, a);
    ReportDid(c, now, empty, a, Busy, 1000);
    var reply := ResultTo(c.id.protocol, c.id.session, Busy, 1000, c.id.acl);
    Alone(Report(Busy), reply);
    var b := a.(said := [Report(Busy)], replies := [reply]);
    var c2 := QueueResult(empty, Busy, 1000);
    ResultKeeps(empty, Busy, 1000);
    OtaReason();
    ReasonsAre(Busy, true);
    EmitDid(c, now, c2, b, SessionTerminated, Busy, 0);
    var ended := Ended(OtaBusyReason, c.id.session);
    assert [] + ended == ended;
    var c3 := Emit(c2, SessionTerminated, Busy, now, 0);
    AbortDid(c, now, c3, b.(told := ended));
    assert [Report(Busy)] + [AbortAuth] == [Report(Busy), AbortAuth];
    DidIdle(c, now, AbortControl(c3), b.(told := ended, said := [Report(Busy), AbortAuth]), AbortControl(c3), false);
  }

  lemma OtaReason()
    ensures Why(Busy, true) == OtaBusyReason
  {
  }

  lemma EmptiedDid(c: Core, now: u32, next: Core, a: Answer)
    requires next == c.(otaBusy := next.otaBusy, outbox := NoOutputs(c.outbox)) && a == Answer([], [], [], c.state, false, false, true)
    ensures Did(c, now, next, a)
  {
    assert c.log + [] == c.log;
  }

  /** Every call but those that take a message out, advance the shared numbering
      or pass on an event is answered as written out above. */
  lemma StepAnswers(c: Core, call: Call, now: u32, env: Env)
    requires Stable(c) && Answered(call)
    ensures Answers(c, now, Step(c, call, now, env), AnswerTo(c, call, now, env))
  {
    hide Answers, Stable, SetEnabled, SetOtaBusy, Connect, Disconnect, AbortTransport, Tick, BeginFastSession, ReceiveFrame, FastAnswer, FrameAnswer,
         TickAnswer, Why;
    match call {
      case CallSetEnabled(on) => EnableAnswers(c, on, now);
      case CallSetOtaBusy(busy) => BusyAnswers(c, busy, now);
      case CallConnect(handle) => ConnectAnswers(c, handle, now);
      case CallDisconnect(owner) => DisconnectAnswers(c, owner, now);
      case CallAbortTransport(owner, reason) => TransportAnswers(c, owner, reason, now);
      case CallTick => TickAnswers(c, now);
      case CallBeginFastSession(owner) => FastAnswers(c, owner, now, env);
      case CallReceiveFrame(kind, owner, frame) => FrameAnswers(c, kind, owner, frame, now, env);
    }
  }

  /** A fill that succeeded, is not zero and is not the value drawn before. */
  predicate Good(fill: Option<nat>, previous: nat) { fill.Some? && fill.value != 0 && fill.value != previous }

  /** The first good one of the first four fills, if any. */
  ghost predicate FirstGood(fills: seq<Option<nat>>, previous: nat, drawn: Option<nat>) {
    match drawn
    case Some(v) =>
      exists i | 0 <= i < |fills| && i < 4 :: fills[i] == Some(v) && Good(fills[i], previous) && forall j | 0 <= j < i :: !Good(fills[j], previous)
    case None => forall i | 0 <= i < |fills| && i < 4 :: !Good(fills[i], previous)
  }

  lemma {:induction false} DrawnIsFirst(fills: seq<Option<nat>>, previous: nat, attempts: nat) returns (i: nat)
    ensures var r := RandomUnique(fills, previous, attempts);
            && (r.Some? ==> i < |fills| && i < attempts && fills[i] == r && Good(r, previous))
            && (r.None? ==> i == if |fills| < attempts then |fills| else attempts)
            && (forall j | 0 <= j < i :: !Good(fills[j], previous))
    decreases attempts
  {
    i := 0;
    if attempts > 0 && fills != [] && !Good(fills[0], previous) {
      var k := DrawnIsFirst(fills[1..], previous, attempts - 1);
      i := k + 1;
      forall j | 0 <= j < i ensures !Good(fills[j], previous) {
        assert j > 0 ==> fills[j] == fills[1..][j - 1];
      }
    }
  }

  /** What identity and nonce a new session draws. */
  lemma DrawsFirstGood(id: Identity, env: Env)
    ensures FirstGood(env.sessionFills, id.previousSession, FreshSession(id, env))
    ensures FirstGood(env.nonceFills, id.previousNonce, FreshNonce(id, env))
  {
    var i := DrawnIsFirst(env.sessionFills, id.previousSession, 4);
    var j := DrawnIsFirst(env.nonceFills, id.previousNonce, 4);
    hide RandomUnique;
  }

  /** A connection is taken by an enabled core without one, under the next
      generation, which is never zero. */
  lemma ConnectTakes(c: Core, handle: u16)
    ensures var (next, taken) := Connect(c, handle);
            && (taken <==> c.enabled && c.rngReady && !c.connected)
            && (!taken ==> next == c)
            && (taken ==> next.connected && next.state == Idle && next.owner.handle == handle
                          && next.owner.generation == if c.owner.generation == 0xFFFF_FFFF_FFFF_FFFF then 1 else c.owner.generation + 1)
  {
  }

  /** Messages are taken out in the order they were queued, and nothing else
      happens. */
  lemma PopTakesOldest(c: Core)
    ensures var (next, taken) := PopOutput(c);
            && (taken.None? ==> next == c && c.outbox.messages == [])
            && (taken.Some? ==> [taken.value] + next.outbox.messages == c.outbox.messages && next == c.(outbox := c.outbox.(messages := next.outbox.messages)))
  {
  }

  /** How long a counted failure holds sessions back, in real time. */
  lemma HeldBackExactly(l: Ledger, at: nat, later: nat)
    requires at <= later < at + 0x8000_0000
    ensures var k := Failed(l, Wrap32(at)).failures;
            RateLimiting(Failing(l, Wrap32(at)), Wrap32(later)) <==>
              k >= 3 && later < at + (if k == 3 then 1000 else if k == 4 then 2000 else if k == 5 then 4000 else 8000)
  {
    hide Wrap32, Reached;
    FailingIs(l, Wrap32(at));
    DeadlineReached(at, 1000, later);
    DeadlineReached(at, 2000, later);
    DeadlineReached(at, 4000, later);
    DeadlineReached(at, 8000, later);
  }

  /** The extended clock tells real time, if an event comes at least every 2^32 ms. */
  lemma StampTellsRealTime(v: Events, last: nat, at: nat)
    requires if v.timeKnown then v.monotonicHigh + v.lastNow == last else v.monotonicHigh == last == 0
    requires last <= at < last + 0x1_0000_0000 && at < 0x1_0000_0000_0000_0000
    requires v.timeKnown ==> v.lastNow == Wrap32(last)
    ensures var w := Stamped(v, Wrap32(at));
            w.timeKnown && w.monotonicHigh + Wrap32(at) == at && w.lastNow == Wrap32(at)
  {
    if v.timeKnown {
      NextHigh(last, at);
    }
  }

  lemma NextHigh(last: nat, at: nat)
    requires last <= at < last + 0x1_0000_0000
    ensures at - Wrap32(at) == last - Wrap32(last) + (if Wrap32(at) < Wrap32(last) then 0x1_0000_0000 else 0)
  {
  }

  lemma SendingTellsTime(v: Events, code: EventCode, reason: EventReason, at: nat, session: nat, boot: nat, credential: nat)
    requires v.monotonicHigh + Wrap32(at) == at < 0x1_0000_0000_0000_0000 && v.sequence < MAX_SEQUENCE
    ensures var w := Sending(v, code, reason, Wrap32(at), session, boot, credential);
            |w.sink.downstream| == |v.sink.downstream| + 1 && w.sink.downstream[|v.sink.downstream|].monotonic == at
  {
  }

  // ---------- Idle sessions ----------

  /** Between sessions nothing of one is left but what may not be drawn again. */
  predicate Blank(c: Core) {
    c.state == Idle ==>
      c.id.protocol == 0 && c.id.session == 0 && c.id.nonce == 0 && c.id.acl == 0 && c.id.deadline == 0 && c.id.negotiation == NoTranscript
  }

  lemma ResetIsBlank(c: Core)
    ensures Blank(ResetPreservingOutputs(c)) && Blank(Reset(c))
  {
  }

  lemma RejectIsBlank(c: Core, reason: ResultReason, now: u32, counted: bool)
    ensures Blank(Reject(c, reason, now, counted))
  {
    hide QueueResult, EmitRejection, AbortControl, Failing, ResetPreservingOutputs, Blank;
    var reported := QueueResult(c, reason, if reason == RateLimited then 1000 else 0);
    var emitted := if c.id.session != 0 then EmitRejection(reported, reason, now) else reported;
    var closed := AbortControl(emitted);
    ResetIsBlank(if counted then closed.(ledger := Failing(c.ledger, now)) else closed);
  }

  lemma QueuedIsBlank(c: Core, reason: ResultReason, retryAfter: u32)
    ensures Blank(QueueResult(c, reason, retryAfter)) <==> Blank(c)
  {
    ResultKeeps(c, reason, retryAfter);
  }

  lemma ChallengeIsBlank(c: Core, now: u32)
    ensures Blank(BuildChallenge(c, now))
  {
    hide Reject, Emit, Queue;
    RejectIsBlank(c, SessionInvalid, now, true);
    var ch := ChallengeFor(c.id, now);
    var kind := if c.id.protocol == FAST_PROTOCOL then FastChallenge else MessageType.Challenge;
    QueueKeeps(Issuing(c, ch), kind, ChallengeBody(ch));
    EmitKeeps(Queue(Issuing(c, ch), kind, ChallengeBody(ch)), ProofRequested, Accepted, now, 0);
  }

  lemma FastIsBlank(c: Core, owner: Owner, now: u32, env: Env)
    requires Blank(c)
    ensures Blank(BeginFastSession(c, owner, now, env).0)
  {
    hide Reject, Emit, StartFast, Randomize, Blank;
    var (id, filled) := Randomize(c.id.(protocol := FAST_PROTOCOL), env);
    RejectIsBlank(c.(id := id, rngReady := false, enabled := false), InternalFailClosed, now, true);
    StartFastIsBlank(Emit(Uncaused(c.(id := id)), GattConnected, Accepted, now, 0), now, env);
  }

  lemma StartFastIsBlank(c: Core, now: u32, env: Env)
    ensures Blank(StartFast(c, now, env).0)
  {
    hide Emit, QueueResult, ResetPreservingOutputs, BuildChallenge, OpenGate, RateLimiting, Blank;
    ResetIsBlank(Emit(QueueResult(c, Busy, 1000), SessionTerminated, Busy, now, 0));
    ResetIsBlank(Emit(QueueResult(c, RateLimited, Sub32(c.ledger.backoffUntil, now)), SessionTerminated, RateLimited, now, 0));
    var (g, open) := OpenGate(c, env);
    var reason := if c.hasGate then Busy else InternalFailClosed;
    ResetIsBlank(Emit(QueueResult(g, reason, if c.hasGate then 1000 else 0), SessionTerminated, reason, now, 0));
    ChallengeIsBlank(g.(id := g.id.(negotiation := FastTranscript), state := HelloReceived), now);
  }

  lemma StartHelloIsBlank(c: Core, p: seq<byte>, now: u32, env: Env)
    ensures Blank(StartHello(c, p, now, env).0)
  {
    hide Emit, Queue, ResetPreservingOutputs, BuildChallenge, OpenGate, Blank;
    var (g, open) := OpenGate(c, env);
    ResetIsBlank(Emit(Queue(g, TargetHello, HelloBody(0, 2)), SessionTerminated, if c.hasGate then Busy else InternalFailClosed, now, 0));
    ChallengeIsBlank(Queue(g.(id := g.id.(negotiation := HelloTranscript(p))), TargetHello, HelloBody(g.id.protocol, 0)), now);
  }

  lemma HelloIsBlank(c: Core, p: seq<byte>, now: u32, env: Env)
    requires Blank(c)
    ensures Blank(ProcessHello(c, p, now, env).0)
  {
    hide Reject, Emit, StartHello, Randomize, HelloSupported, Queue;
    QueueKeeps(c, TargetHello, HelloBody(0, 1));
    RejectIsBlank(c, MalformedMessage, now, true);
    if |p| == 16 && c.state == Idle {
      var (id, filled) := Randomize(c.id, env);
      RejectIsBlank(c.(id := id, rngReady := false, enabled := false), InternalFailClosed, now, true);
      var named := c.(id := id.(protocol := Min(Read16(p[2], p[3]), 1)), state := HelloReceived);
      StartHelloIsBlank(Emit(Uncaused(named), GattConnected, Accepted, now, 0), p, now, env);
    }
  }

  lemma DecideIsBlank(c: Core, action: byte, now: u32, env: Env)
    ensures Blank(Decide(c, action, now, env).0)
  {
    hide Reject, QueueResult, AbortControl, Committing;
    var c1 := Committing(c, action, env);
    RejectIsBlank(AbortControl(c1), if c.hasGate && env.commitRejection == Busy then Busy else InternalFailClosed, now, false);
  }

  lemma ProofIsBlank(c: Core, p: seq<byte>, now: u32, env: Env)
    ensures Blank(ProcessProof(c, p, now, env).0)
  {
    hide Reject, Decide, Emit, Judged, FromBigEndian, Reached, Blank, PublicReason;
    RejectIsBlank(c, ExpiredOrReplay, now, true);
    var consumed := c.(state := Consumed);
    RejectIsBlank(consumed, MalformedMessage, now, true);
    RejectIsBlank(consumed, ExpiredOrReplay, now, true);
    RejectIsBlank(consumed, SessionInvalid, now, true);
    RejectIsBlank(consumed, ProofInvalid, now, true);
    if |p| == 103 {
      var request := RequestOf(p, c.id.challenge);
      var judged := Judged(consumed, request, env.verdict);
      RejectIsBlank(judged, PublicReason(env.verdict.reason), now, true);
      DecideIsBlank(Emit(judged, ProofVerified, Accepted, now, request.credential), request.action, now, env);
    }
  }

  lemma FrameIsBlank(c: Core, kind: MessageType, owner: Owner, frame: seq<byte>, now: u32, env: Env)
    requires Blank(c)
    ensures Blank(ReceiveFrame(c, kind, owner, frame, now, env).0)
  {
    hide Reject, QueueResult, ProcessHello, ProcessProof, AcceptFrame, RateLimiting;
    QueuedIsBlank(c, Busy, 1000);
    QueuedIsBlank(c, ExpiredOrReplay, 0);
    QueuedIsBlank(c, RateLimited, Sub32(c.ledger.backoffUntil, now));
    RejectIsBlank(c, MalformedMessage, now, true);
    var (r, result) := AcceptFrame(c.reassembly, kind, frame, now);
    if result.Complete? {
      var next := c.(reassembly := r);
      RejectIsBlank(next, MalformedMessage, now, true);
      HelloIsBlank(next, result.payload, now, env);
      ProofIsBlank(next, result.payload, now, env);
    }
  }

  lemma BusyIsBlank(c: Core, busy: bool, now: u32)
    requires Blank(c)
    ensures Blank(SetOtaBusy(c, busy, now))
  {
    hide QueueResult, Emit, AbortControl, ResetPreservingOutputs, NoOutputs;
    var c2 := QueueResult(c.(otaBusy := busy, outbox := NoOutputs(c.outbox)), Busy, 1000);
    ResetIsBlank(AbortControl(Emit(c2, SessionTerminated, Busy, now, 0)));
  }

  lemma EnableIsBlank(c: Core, on: bool)
    requires Blank(c)
    ensures Blank(SetEnabled(c, on))
  {
    hide AbortControl, Reset;
    ResetIsBlank(AbortControl(c.(enabled := on && c.rngReady)).(connected := false));
  }

  lemma DisconnectIsBlank(c: Core, owner: Owner, now: u32)
    requires Blank(c)
    ensures Blank(Disconnect(c, owner, now))
  {
    hide Emit, AbortControl, Reset, Blank;
    var c1 := c.(connected := false);
    ResetIsBlank(c1);
    var c2 := Emit(c1, GattFailed, SessionInvalid, now, 0);
    ResetIsBlank(AbortControl(Emit(c2, SessionTerminated, SessionInvalid, now, 0)));
  }

  lemma TransportIsBlank(c: Core, owner: Owner, reason: ResultReason, now: u32)
    requires Blank(c)
    ensures Blank(AbortTransport(c, owner, reason, now))
  {
    hide Emit, AbortControl, Reset, Blank;
    ResetIsBlank(c);
    ResetIsBlank(AbortControl(if c.id.session != 0 then Emit(c, SessionTerminated, reason, now, 0) else c));
  }

  lemma TickIsBlank(c: Core, now: u32)
    requires Blank(c)
    ensures Blank(Tick(c, now))
  {
    hide Reject, Reached, Blank;
    RejectIsBlank(c, MalformedMessage, now, true);
    RejectIsBlank(c, ExpiredOrReplay, now, true);
  }

  /** An idle session is blank, after any call. */
  lemma IdleIsBlank(c: Core, call: Call, now: u32, env: Env)
    requires Blank(c)
    ensures Blank(Step(c, call, now, env))
  {
    hide SetEnabled, SetOtaBusy, Disconnect, AbortTransport, Tick, BeginFastSession, ReceiveFrame, Living, Wrap64;
    match call {
      case CallBeginFastSession(owner) => FastIsBlank(c, owner, now, env);
      case CallReceiveFrame(kind, owner, frame) => FrameIsBlank(c, kind, owner, frame, now, env);
      case CallSetOtaBusy(busy) => BusyIsBlank(c, busy, now);
      case CallDisconnect(owner) => DisconnectIsBlank(c, owner, now);
      case CallAbortTransport(owner, reason) => TransportIsBlank(c, owner, reason, now);
      case CallTick => TickIsBlank(c, now);
      case CallSetEnabled(on) => EnableIsBlank(c, on);
      case _ =>
    }
  }

  lemma {:induction false} RunIsBlank(boot: nat, hasGate: bool, hasSink: bool, inputs: seq<Input>)
    ensures Blank(Run(Initialized(boot, hasGate, hasSink), inputs))
  {
    if inputs != [] {
      RunIsBlank(boot, hasGate, hasSink, inputs[..|inputs| - 1]);
      var last := inputs[|inputs| - 1];
      hide Step, Blank;
      IdleIsBlank(Run(Initialized(boot, hasGate, hasSink), inputs[..|inputs| - 1]), last.call, last.now, last.env);
    }
  }
}
