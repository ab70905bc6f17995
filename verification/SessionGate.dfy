/** Discipline of the control gate over whole runs of the session. */
module SessionGate {
  import opened Wrappers
  import opened Words
  import opened Framing
  import opened AccessEvents
  import opened Session

  // ---------- The language of gate words ----------

  datatype Phase =
    | Closed                                 // no authentication open
    | Refused                                // begin failed, abort due
    | Begun                                  // begin succeeded, challenge due
    | Waiting(challenge: ChallengeData)      // challenge issued and unused
    | Approved(action: byte)                 // verifier accepted, commit due
    | Denied                                 // verifier refused, abort due
    | Failed                                 // commit failed, abort due
    | Granted                                // commit succeeded, result due
    | Broken

  function NextPhase(p: Phase, e: Effect): Phase {
    match e
    case Report(reason) =>
      if reason == Accepted then (if p.Granted? then Closed else Broken)
      else if p.Granted? then Broken else p
    case BeginAuth(ok) => if p.Closed? then (if ok then Begun else Refused) else Broken
    case Issue(ch) => if p.Begun? then Waiting(ch) else Broken
    case Verify(request, verdict) =>
      if p == Waiting(request.challenge) then
        if verdict.reason == Accepted then Approved(request.action) else Denied
      else Broken
    case Commit(action, ok) => if p == Approved(action) then (if ok then Granted else Failed) else Broken
    case AbortAuth => if p.Refused? || p.Waiting? || p.Denied? || p.Failed? then Closed else Broken
  }

  function PhaseOf(log: seq<Effect>): Phase {
    if log == [] then Closed else NextPhase(PhaseOf(log[..|log| - 1]), log[|log| - 1])
  }

  lemma PhaseOfAppend(log: seq<Effect>, e: Effect)
    ensures PhaseOf(log + [e]) == NextPhase(PhaseOf(log), e)
  {
    assert (log + [e])[..|log|] == log;
  }

  lemma {:induction false} PrefixUnbroken(log: seq<Effect>, i: nat)
    requires i <= |log| && PhaseOf(log) != Broken
    ensures PhaseOf(log[..i]) != Broken
    decreases |log| - i
  {
    if i == |log| {
      assert log[..i] == log;
    } else {
      PrefixUnbroken(log, i + 1);
      assert log[..i + 1][..i] == log[..i];
    }
  }

  predicate OnlyReports(log: seq<Effect>, from: nat, to: nat)
    requires to <= |log|
  {
    forall k | from <= k < to :: log[k].Report? && log[k].reason != Accepted
  }

  /** Why a word is in a given phase: the effect that put it there. */
  lemma {:induction false} PhaseHasOrigin(log: seq<Effect>, i: nat) returns (j: nat)
    requires i <= |log| && (PhaseOf(log[..i]).Waiting? || PhaseOf(log[..i]).Approved? || PhaseOf(log[..i]).Granted?)
    ensures j < i && OnlyReports(log, j + 1, i)
    ensures PhaseOf(log[..i]).Waiting? ==> log[j] == Issue(PhaseOf(log[..i]).challenge)
    ensures PhaseOf(log[..i]).Approved? ==>
              log[j].Verify? && log[j].verdict.reason == Accepted && log[j].request.action == PhaseOf(log[..i]).action
    ensures PhaseOf(log[..i]).Granted? ==> j == i - 1 && log[j].Commit? && log[j].ok
  {
    assert log[..i][..i - 1] == log[..i - 1];
    j := i - 1;
    if log[i - 1].Report? {
      j := PhaseHasOrigin(log, i - 1);
    }
  }

  /** Every verification is of a challenge issued since the verification
      before it, with nothing but refusals reported in between. */
  lemma {:induction false} VerifyUsesFreshChallenge(log: seq<Effect>, i: nat) returns (j: nat)
    requires PhaseOf(log) != Broken && i < |log| && log[i].Verify?
    ensures j < i && log[j] == Issue(log[i].request.challenge) && OnlyReports(log, j + 1, i)
  {
    PrefixUnbroken(log, i + 1);
    assert log[..i + 1][..i] == log[..i];
    j := PhaseHasOrigin(log, i);
  }

  /** Two verifications, or two commits, never share a challenge issue. */
  lemma ChallengeIsSingleUse(log: seq<Effect>, first: nat, second: nat) returns (j: nat)
    requires PhaseOf(log) != Broken && first < second < |log|
    requires (log[first].Verify? && log[second].Verify?) || (log[first].Commit? && log[second].Commit?)
    ensures first < j < second && log[j].Issue?
  {
    var verify := second;
    if log[second].Commit? {
      verify := CommitFollowsApproval(log, second);
    }
    j := VerifyUsesFreshChallenge(log, verify);
  }

  lemma {:induction false} CommitFollowsApproval(log: seq<Effect>, i: nat) returns (j: nat)
    requires PhaseOf(log) != Broken && i < |log| && log[i].Commit?
    ensures j < i && OnlyReports(log, j + 1, i)
    ensures log[j].Verify? && log[j].verdict.reason == Accepted && log[j].request.action == log[i].action
  {
    PrefixUnbroken(log, i + 1);
    assert log[..i + 1][..i] == log[..i];
    j := PhaseHasOrigin(log, i);
  }

  /** An accepting result is reported only right after a successful commit. */
  lemma {:induction false} AcceptanceFollowsCommit(log: seq<Effect>, i: nat)
    requires PhaseOf(log) != Broken && i < |log| && log[i] == Report(Accepted)
    ensures i > 0 && log[i - 1].Commit? && log[i - 1].ok
  {
    PrefixUnbroken(log, i + 1);
    assert log[..i + 1][..i] == log[..i];
    var j := PhaseHasOrigin(log, i);
  }

  function Begins(log: seq<Effect>): nat {
    if log == [] then 0 else Begins(log[..|log| - 1]) + if log[|log| - 1].BeginAuth? then 1 else 0
  }

  function Ends(log: seq<Effect>): nat {
    if log == [] then 0
    else
      var e := log[|log| - 1];
      Ends(log[..|log| - 1]) + if e.AbortAuth? || (e.Commit? && e.ok) then 1 else 0
  }

  /** Each begin is ended by exactly one abort or successful commit. */
  lemma {:induction false} BeginsAreEnded(log: seq<Effect>)
    requires PhaseOf(log) != Broken
    ensures Begins(log) == Ends(log) + if PhaseOf(log).Closed? || PhaseOf(log).Granted? then 0 else 1
  {
    if log != [] {
      var front := log[..|log| - 1];
      assert PhaseOf(front) != Broken;
      BeginsAreEnded(front);
    }
  }

  // ---------- What every call keeps ----------

  ghost predicate OutboxOk(o: Outbox) {
    |o.messages| <= OUTPUT_CAPACITY && o.nextId != 0 && forall k | 0 <= k < |o.messages| :: o.messages[k].id != 0
  }

  ghost predicate Challenged(c: Core) {
    && c.hasGate && !c.otaBusy && c.connected && c.id.session != 0
    && c.id.challenge == ChallengeData(c.id.protocol, c.id.session, c.id.nonce, c.id.boot, c.id.deadline, c.id.acl, c.id.negotiation)
  }

  /** Between calls: idle, one unused challenge, or completed; authentication
      open exactly while a challenge waits, never during OTA; and the gate word
      complete up to that challenge. */
  ghost predicate Stable(c: Core) {
    && (c.state == Idle || c.state == ChallengeIssued || c.state == Completed)
    && (c.authActive <==> c.state == ChallengeIssued)
    && (c.state == ChallengeIssued ==> Challenged(c))
    && OutboxOk(c.outbox)
    && PhaseOf(c.log) == if c.state == ChallengeIssued then Waiting(c.id.challenge) else Closed
  }

  /** Authentication is closed and the outbox in order. */
  ghost predicate Preparing(c: Core) {
    OutboxOk(c.outbox) && !c.authActive && PhaseOf(c.log) == Closed
  }

  /** An open or closed authentication that an abort brings to `Closed`. */
  ghost predicate Abortable(c: Core) {
    && OutboxOk(c.outbox)
    && if c.authActive then
         c.hasGate && var p := PhaseOf(c.log); p.Waiting? || p.Denied? || p.Failed? || p.Refused?
       else PhaseOf(c.log).Closed?
  }

  lemma EmitKeeps(c: Core, code: EventCode, reason: ResultReason, now: u32, credential: nat)
    ensures var e := Emit(c, code, reason, now, credential); e == c.(events := e.events)
  {
  }

  lemma EmitRejectionKeeps(c: Core, reason: ResultReason, now: u32)
    ensures var e := EmitRejection(c, reason, now); e == c.(events := e.events)
  {
    EmitKeeps(c, ProofRejected, reason, now, 0);
    EmitKeeps(Emit(c, ProofRejected, reason, now, 0), SessionTerminated, reason, now, 0);
    EmitKeeps(c, SessionTerminated, reason, now, 0);
    hide Emit;
  }

  lemma QueueResultKeeps(c: Core, reason: ResultReason, retryAfter: u32)
    requires OutboxOk(c.outbox)
    ensures var q := QueueResult(c, reason, retryAfter);
            && OutboxOk(q.outbox)
            && q == c.(outbox := q.outbox, log := c.log + [Report(reason)])
            && PhaseOf(q.log) == NextPhase(PhaseOf(c.log), Report(reason))
  {
    PhaseOfAppend(c.log, Report(reason));
  }

  lemma AbortCloses(c: Core)
    requires Abortable(c)
    ensures Preparing(AbortControl(c))
  {
    PhaseOfAppend(c.log, AbortAuth);
  }

  /** Whatever is closed is stable once its session is reset. */
  lemma ClosedStable(c: Core)
    requires Preparing(c)
    ensures Stable(ResetPreservingOutputs(c)) && Stable(Reset(c))
  {
  }

  lemma ReportedKeeps(c: Core, reason: ResultReason, now: u32, retryAfter: u32)
    requires Abortable(c) && reason != Accepted
    ensures Abortable(QueueResult(c, reason, retryAfter))
    ensures Abortable(EmitRejection(QueueResult(c, reason, retryAfter), reason, now))
  {
    QueueResultKeeps(c, reason, retryAfter);
    EmitRejectionKeeps(QueueResult(c, reason, retryAfter), reason, now);
    hide QueueResult, EmitRejection, PhaseOf;
  }

  lemma RejectKeeps(c: Core, reason: ResultReason, now: u32, count: bool)
    requires Abortable(c) && reason != Accepted
    ensures Stable(Reject(c, reason, now, count))
  {
    var reported := QueueResult(c, reason, if reason == RateLimited then 1000 else 0);
    ReportedKeeps(c, reason, now, if reason == RateLimited then 1000 else 0);
    var emitted := if c.id.session != 0 then EmitRejection(reported, reason, now) else reported;
    AbortCloses(emitted);
    hide QueueResult, EmitRejection, AbortControl, Failing, PhaseOf;
    ClosedStable(AbortControl(emitted));
    ClosedStable(AbortControl(emitted).(ledger := Failing(c.ledger, now)));
  }

  lemma TerminateKeeps(c: Core, code: EventCode, reason: ResultReason, now: u32)
    requires Abortable(c)
    ensures var e := Emit(c, code, reason, now, 0);
            && Abortable(e)
            && Stable(ResetPreservingOutputs(AbortControl(e))) && Stable(Reset(AbortControl(e)))
            && (!c.authActive ==> Stable(ResetPreservingOutputs(e)))
  {
    EmitKeeps(c, code, reason, now, 0);
    hide Emit, PhaseOf;
    AbortCloses(Emit(c, code, reason, now, 0));
    hide AbortControl;
    ClosedStable(AbortControl(Emit(c, code, reason, now, 0)));
    if !c.authActive {
      ClosedStable(Emit(c, code, reason, now, 0));
    }
  }

  lemma SetEnabledStable(c: Core, on: bool)
    requires Stable(c)
    ensures Stable(SetEnabled(c, on))
  {
    AbortCloses(c.(enabled := on && c.rngReady));
  }

  lemma SetOtaBusyStable(c: Core, busy: bool, now: u32)
    requires Stable(c)
    ensures Stable(SetOtaBusy(c, busy, now))
  {
    var c1 := c.(otaBusy := busy, outbox := NoOutputs(c.outbox));
    hide PhaseOf;
    if busy && c.state == ChallengeIssued {
      assert Abortable(c1);
      ReportedKeeps(c1, Busy, now, 1000);
      hide QueueResult, Emit;
      TerminateKeeps(QueueResult(c1, Busy, 1000), SessionTerminated, Busy, now);
    }
  }

  lemma DisconnectStable(c: Core, owner: Owner, now: u32)
    requires Stable(c)
    ensures Stable(Disconnect(c, owner, now))
  {
    var c1 := c.(connected := false);
    hide Emit, PhaseOf;
    if c.state == ChallengeIssued {
      TerminateKeeps(c1, GattFailed, SessionInvalid, now);
      TerminateKeeps(Emit(c1, GattFailed, SessionInvalid, now, 0), SessionTerminated, SessionInvalid, now);
    }
  }

  lemma AbortTransportStable(c: Core, owner: Owner, reason: ResultReason, now: u32)
    requires Stable(c)
    ensures Stable(AbortTransport(c, owner, reason, now))
  {
    hide Emit, PhaseOf;
    TerminateKeeps(c, SessionTerminated, reason, now);
    AbortCloses(c);
    ClosedStable(AbortControl(c));
  }

  lemma TickStable(c: Core, now: u32)
    requires Stable(c)
    ensures Stable(Tick(c, now))
  {
    hide Reject, PhaseOf;
    RejectKeeps(c, MalformedMessage, now, true);
    RejectKeeps(c, ExpiredOrReplay, now, true);
  }

  lemma OpenGateKeeps(c: Core, env: Env)
    requires Preparing(c)
    ensures var (g, open) := OpenGate(c, env);
            && g == c.(authActive := open, log := g.log)
            && (open ==> c.hasGate && PhaseOf(g.log) == Begun)
            && (!open ==> Preparing(g))
  {
    PhaseOfAppend(c.log, BeginAuth(env.beginOk));
    if c.hasGate && !env.beginOk {
      AbortCloses(c.(authActive := true, log := c.log + [BeginAuth(env.beginOk)]));
    }
  }

  lemma BuildChallengeKeeps(c: Core, now: u32)
    requires OutboxOk(c.outbox) && c.authActive && c.hasGate && PhaseOf(c.log) == Begun
    requires c.state == HelloReceived && c.id.session != 0 && c.connected && !c.otaBusy
    ensures Stable(BuildChallenge(c, now)) && BuildChallenge(c, now).state == ChallengeIssued
  {
    var ch := ChallengeFor(c.id, now);
    PhaseOfAppend(c.log, Issue(ch));
    var queued := Queue(Issuing(c, ch), if c.id.protocol == FAST_PROTOCOL then FastChallenge else MessageType.Challenge, ChallengeBody(ch));
    EmitKeeps(queued, ProofRequested, Accepted, now, 0);
    hide Emit, PhaseOf;
  }

  /** A closed session that reports why and ends. */
  lemma DeclineKeeps(c: Core, reason: ResultReason, retryAfter: u32, now: u32)
    requires Preparing(c) && reason != Accepted
    ensures Stable(ResetPreservingOutputs(Emit(QueueResult(c, reason, retryAfter), SessionTerminated, reason, now, 0)))
  {
    QueueResultKeeps(c, reason, retryAfter);
    hide QueueResult, Emit;
    TerminateKeeps(QueueResult(c, reason, retryAfter), SessionTerminated, reason, now);
  }

  lemma {:induction false} RandomUniqueNonzero(fills: seq<Option<nat>>, previous: nat, attempts: nat)
    ensures var r := RandomUnique(fills, previous, attempts);
            r.Some? ==> r.value != 0 && r.value != previous && r in fills
  {
    if attempts != 0 && fills != [] {
      RandomUniqueNonzero(fills[1..], previous, attempts - 1);
    }
  }

  lemma RandomizeNames(id: Identity, env: Env)
    ensures var (r, filled) := Randomize(id, env);
            filled ==> r.session != 0 && Some(r.session) in env.sessionFills
  {
    RandomUniqueNonzero(env.sessionFills, id.previousSession, 4);
  }

  lemma RandomFailedStable(c: Core, now: u32)
    requires Preparing(c)
    ensures Stable(RandomFailed(c, now))
  {
    hide Reject;
    RejectKeeps(c.(rngReady := false, enabled := false), InternalFailClosed, now, true);
  }

  lemma StartFastStable(c: Core, now: u32, env: Env)
    requires Preparing(c) && c.id.session != 0 && c.connected
    ensures Stable(StartFast(c, now, env).0)
  {
    hide RateLimiting, OpenGate, BuildChallenge, Emit, QueueResult, Stable, ResetPreservingOutputs;
    if c.otaBusy {
      DeclineKeeps(c, Busy, 1000, now);
    } else if RateLimiting(c.ledger, now) {
      DeclineKeeps(c, RateLimited, Sub32(c.ledger.backoffUntil, now), now);
    } else {
      OpenGateKeeps(c, env);
      var (g, open) := OpenGate(c, env);
      if open {
        BuildChallengeKeeps(g.(id := g.id.(negotiation := FastTranscript), state := HelloReceived), now);
      } else {
        DeclineKeeps(g, if c.hasGate then Busy else InternalFailClosed, if c.hasGate then 1000 else 0, now);
      }
    }
  }

  lemma StartHelloStable(c: Core, p: seq<byte>, now: u32, env: Env)
    requires Preparing(c) && c.id.session != 0 && c.connected && c.state == HelloReceived && !c.otaBusy
    ensures Stable(StartHello(c, p, now, env).0)
  {
    OpenGateKeeps(c, env);
    var (g, open) := OpenGate(c, env);
    hide OpenGate, BuildChallenge, Emit, Stable, ResetPreservingOutputs;
    if open {
      BuildChallengeKeeps(Queue(g.(id := g.id.(negotiation := HelloTranscript(p))), TargetHello, HelloBody(g.id.protocol, 0)), now);
    } else {
      TerminateKeeps(Queue(g, TargetHello, HelloBody(0, 2)), SessionTerminated,
                     if c.hasGate then Busy else InternalFailClosed, now);
    }
  }

  lemma BeginFastSessionStable(c: Core, owner: Owner, now: u32, env: Env)
    requires Stable(c)
    ensures Stable(BeginFastSession(c, owner, now, env).0)
  {
    hide Randomize, RandomFailed, Emit, StartFast, PhaseOf;
    if Enabled(c) && c.connected && owner == c.owner && c.state == Idle {
      RandomizeNames(c.id.(protocol := FAST_PROTOCOL), env);
      var (id, filled) := Randomize(c.id.(protocol := FAST_PROTOCOL), env);
      if filled {
        EmitKeeps(Uncaused(c.(id := id)), GattConnected, Accepted, now, 0);
        StartFastStable(Emit(Uncaused(c.(id := id)), GattConnected, Accepted, now, 0), now, env);
      } else {
        RandomFailedStable(c.(id := id), now);
      }
    }
  }

  lemma ProcessHelloStable(c: Core, p: seq<byte>, now: u32, env: Env)
    requires Stable(c) && c.connected && !c.otaBusy
    ensures Stable(ProcessHello(c, p, now, env).0)
  {
    hide HelloSupported, Reject, Randomize, RandomFailed, Emit, StartHello, PhaseOf;
    if |p| != CLIENT_HELLO_SIZE || c.state != Idle {
      RejectKeeps(c, MalformedMessage, now, true);
    } else if HelloSupported(p) {
      RandomizeNames(c.id, env);
      var (id, filled) := Randomize(c.id, env);
      if filled {
        var named := c.(id := id.(protocol := Min(Read16(p[2], p[3]), 1)), state := HelloReceived);
        EmitKeeps(Uncaused(named), GattConnected, Accepted, now, 0);
        StartHelloStable(Emit(Uncaused(named), GattConnected, Accepted, now, 0), p, now, env);
      } else {
        RandomFailedStable(c.(id := id), now);
      }
    }
  }

  lemma DecideKeeps(c: Core, action: byte, now: u32, env: Env)
    requires OutboxOk(c.outbox) && c.authActive && c.hasGate && PhaseOf(c.log) == Approved(action)
    ensures Stable(Decide(c, action, now, env).0)
  {
    PhaseOfAppend(c.log, Commit(action, env.commitOk));
    var c1 := c.(log := c.log + [Commit(action, env.commitOk)]);
    if env.commitOk {
      QueueResultKeeps(c1.(authActive := false), Accepted, 0);
      hide QueueResult;
    } else {
      AbortCloses(c1);
      hide Reject, AbortControl;
      RejectKeeps(AbortControl(c1), if env.commitRejection == Busy then Busy else InternalFailClosed, now, false);
    }
  }

  lemma JudgeKeeps(c: Core, request: VerifyRequest, now: u32, env: Env)
    requires OutboxOk(c.outbox) && c.authActive && c.hasGate && PhaseOf(c.log) == Waiting(request.challenge)
    ensures Stable(Judge(c, request, now, env).0)
  {
    PhaseOfAppend(c.log, Verify(request, env.verdict));
    var judged := Judged(c, request, env.verdict);
    EmitKeeps(judged, ProofVerified, Accepted, now, request.credential);
    hide Reject, Decide, Emit;
    if env.verdict.reason != Accepted {
      RejectKeeps(judged, PublicReason(env.verdict.reason), now, true);
    } else {
      DecideKeeps(Emit(judged, ProofVerified, Accepted, now, request.credential), request.action, now, env);
    }
  }

  lemma ProcessProofStable(c: Core, p: seq<byte>, now: u32, env: Env)
    requires Stable(c)
    ensures Stable(ProcessProof(c, p, now, env).0)
  {
    hide Reject, Judge, Reached, FromBigEndian;
    RejectKeeps(c, ExpiredOrReplay, now, true);
    var consumed := c.(state := Consumed);
    if c.state == ChallengeIssued {
      RejectKeeps(consumed, MalformedMessage, now, true);
      RejectKeeps(consumed, ExpiredOrReplay, now, true);
      RejectKeeps(consumed, SessionInvalid, now, true);
      RejectKeeps(consumed, ProofInvalid, now, true);
      if |p| == PROOF_SIZE {
        var request := VerifyRequest(Read16(p[0], p[1]), FromBigEndian(p[18..34]), p[34], FromBigEndian(p[35..39]),
                                     c.id.challenge, p[39..103]);
        JudgeKeeps(consumed, request, now, env);
      }
    }
  }

  lemma ReceiveFrameStable(c: Core, expected: MessageType, owner: Owner, frame: seq<byte>, now: u32, env: Env)
    requires Stable(c)
    ensures Stable(ReceiveFrame(c, expected, owner, frame, now, env).0)
  {
    hide Stable, RateLimiting, Reject, QueueResult, ProcessHello, ProcessProof, AcceptFrame, HelloSupported;
    ReportStable(c, Busy, 1000);
    ReportStable(c, ExpiredOrReplay, 0);
    ReportStable(c, RateLimited, Sub32(c.ledger.backoffUntil, now));
    if Listening(c, owner, now) {
      var (r, result) := AcceptFrame(c.reassembly, expected, frame, now);
      ReassembledStable(c, r, now);
      if result.Complete? {
        ProcessHelloStable(c.(reassembly := r), result.payload, now, env);
        ProcessProofStable(c.(reassembly := r), result.payload, now, env);
      }
    }
  }

  lemma ReportStable(c: Core, reason: ResultReason, retryAfter: u32)
    requires Stable(c) && reason != Accepted
    ensures Stable(QueueResult(c, reason, retryAfter))
  {
    QueueResultKeeps(c, reason, retryAfter);
    hide QueueResult;
  }

  lemma ReassembledStable(c: Core, r: Reassembly, now: u32)
    requires Stable(c)
    ensures Stable(c.(reassembly := r))
    ensures Stable(Reject(c, MalformedMessage, now, true))
    ensures Stable(Reject(c.(reassembly := r), MalformedMessage, now, true))
  {
    hide Reject, PhaseOf;
    RejectKeeps(c, MalformedMessage, now, true);
    RejectKeeps(c.(reassembly := r), MalformedMessage, now, true);
  }

  lemma StepStable(c: Core, call: Call, now: u32, env: Env)
    requires Stable(c)
    ensures Stable(Step(c, call, now, env))
  {
    hide SetEnabled, SetOtaBusy, Disconnect, AbortTransport, Tick, BeginFastSession, ReceiveFrame, PhaseOf;
    match call {
      case CallSetEnabled(on) => SetEnabledStable(c, on);
      case CallSetOtaBusy(busy) => SetOtaBusyStable(c, busy, now);
      case CallDisconnect(owner) => DisconnectStable(c, owner, now);
      case CallAbortTransport(owner, reason) => AbortTransportStable(c, owner, reason, now);
      case CallTick => TickStable(c, now);
      case CallBeginFastSession(owner) => BeginFastSessionStable(c, owner, now, env);
      case CallReceiveFrame(kind, owner, frame) => ReceiveFrameStable(c, kind, owner, frame, now, env);
      case CallConnect(handle) => ClosedWhenDisconnected(c, handle);
      case _ =>
    }
  }

  lemma ClosedWhenDisconnected(c: Core, handle: u16)
    requires Stable(c)
    ensures Stable(Connect(c, handle).0)
  {
    hide PhaseOf;
  }

  datatype Input = Input(call: Call, now: u32, env: Env)

  function Run(c: Core, inputs: seq<Input>): Core {
    if inputs == [] then c
    else
      var last := inputs[|inputs| - 1];
      Step(Run(c, inputs[..|inputs| - 1]), last.call, last.now, last.env)
  }

  /** Over every run: the gate word is well formed and the state is stable. */
  lemma {:induction false} RunStable(boot: nat, hasGate: bool, hasSink: bool, inputs: seq<Input>)
    ensures Stable(Run(Initialized(boot, hasGate, hasSink), inputs))
    ensures PhaseOf(Run(Initialized(boot, hasGate, hasSink), inputs).log) != Broken
  {
    if inputs != [] {
      RunStable(boot, hasGate, hasSink, inputs[..|inputs| - 1]);
      var last := inputs[|inputs| - 1];
      StepStable(Run(Initialized(boot, hasGate, hasSink), inputs[..|inputs| - 1]), last.call, last.now, last.env);
    }
  }
}
