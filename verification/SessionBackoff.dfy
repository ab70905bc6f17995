/** The failure back-off bounds counted failures over every run, with no
    assumption on how far the wrapping clock runs. */
module SessionBackoff {
  import opened Wrappers
  import opened Words
  import opened Framing
  import opened AccessEvents
  import opened Session
  import opened SessionGate

  /** No partial message and no challenge that could expire. */
  predicate AtRest(c: Core) { c.state != ChallengeIssued && !c.reassembly.active }

  predicate FillsSucceed(c: Core, env: Env) { FreshSession(c.id, env).Some? && FreshNonce(c.id, env).Some? }

  // ---------- One call counts at most one failure ----------

  lemma EmitKeepsLedger(c: Core, code: EventCode, reason: ResultReason, now: u32, credential: nat)
    ensures var e := Emit(c, code, reason, now, credential);
            e.ledger == c.ledger && e.state == c.state && e.reassembly == c.reassembly && e.otaBusy == c.otaBusy
  {
  }

  lemma RejectLedger(c: Core, reason: ResultReason, now: u32, count: bool)
    ensures var r := Reject(c, reason, now, count);
            r.ledger == (if count then Failing(c.ledger, now) else c.ledger) && r.state == Idle && AtRest(r)
  {
    hide Failing, Posted, EmitRejection;
    var reported := QueueResult(c, reason, if reason == RateLimited then 1000 else 0);
    assert reported.ledger == c.ledger;
    EmitRejectionKeeps(reported, reason, now);
    var emitted := if c.id.session != 0 then EmitRejection(reported, reason, now) else reported;
    assert emitted.ledger == c.ledger;
    hide QueueResult;
    assert AbortControl(emitted).ledger == c.ledger;
    hide AbortControl;
  }

  lemma DeclineLedger(c: Core, reason: ResultReason, retryAfter: u32, now: u32)
    ensures var d := ResetPreservingOutputs(Emit(QueueResult(c, reason, retryAfter), SessionTerminated, reason, now, 0));
            d.ledger == c.ledger && AtRest(d)
  {
    EmitKeepsLedger(QueueResult(c, reason, retryAfter), SessionTerminated, reason, now, 0);
    hide Emit, Posted;
  }

  lemma BuildChallengeLedger(c: Core, now: u32)
    requires c.state == HelloReceived
    ensures BuildChallenge(c, now).ledger == c.ledger
  {
    hide Sending, Posted;
  }

  lemma StartFastLedger(c: Core, now: u32, env: Env)
    ensures StartFast(c, now, env).0.ledger == c.ledger
    ensures c.otaBusy || RateLimiting(c.ledger, now) ==> AtRest(StartFast(c, now, env).0)
  {
    hide RateLimiting, BuildChallenge, Emit, QueueResult, ResetPreservingOutputs, AtRest;
    DeclineLedger(c, Busy, 1000, now);
    DeclineLedger(c, RateLimited, Sub32(c.ledger.backoffUntil, now), now);
    var (g, open) := OpenGate(c, env);
    DeclineLedger(g, if c.hasGate then Busy else InternalFailClosed, if c.hasGate then 1000 else 0, now);
    BuildChallengeLedger(g.(id := g.id.(negotiation := FastTranscript), state := HelloReceived), now);
  }

  lemma StartHelloLedger(c: Core, p: seq<byte>, now: u32, env: Env)
    requires c.state == HelloReceived
    ensures StartHello(c, p, now, env).0.ledger == c.ledger
  {
    var (g, open) := OpenGate(c, env);
    EmitKeepsLedger(Queue(g, TargetHello, HelloBody(0, 2)), SessionTerminated,
                    if c.hasGate then Busy else InternalFailClosed, now, 0);
    BuildChallengeLedger(Queue(g.(id := g.id.(negotiation := HelloTranscript(p))), TargetHello, HelloBody(g.id.protocol, 0)), now);
    hide Emit, BuildChallenge, Posted;
  }

  /** The three ways a call can treat the ledger. */
  ghost predicate OneEntry(c: Core, next: Core, now: u32) {
    || next.ledger == c.ledger
    || (next.ledger == Failing(c.ledger, now) && AtRest(next))
    || (next.ledger == Granting(c.ledger) && next.state == Completed)
  }

  lemma BeginFastEntry(c: Core, owner: Owner, now: u32, env: Env)
    ensures OneEntry(c, BeginFastSession(c, owner, now, env).0, now)
    ensures AtRest(c) && RateLimiting(c.ledger, now) && FillsSucceed(c, env) ==>
              var next := BeginFastSession(c, owner, now, env).0;
              next.ledger == c.ledger && AtRest(next)
  {
    var (id, filled) := Randomize(c.id.(protocol := FAST_PROTOCOL), env);
    assert FillsSucceed(c, env) ==> filled;
    var named := Uncaused(c.(id := id));
    EmitKeepsLedger(named, GattConnected, Accepted, now, 0);
    RejectLedger(c.(id := id, rngReady := false, enabled := false), InternalFailClosed, now, true);
    StartFastLedger(Emit(named, GattConnected, Accepted, now, 0), now, env);
    hide Randomize, Reject, Emit, StartFast, RateLimiting, Failing, FreshSession, FreshNonce;
  }

  lemma ProcessHelloEntry(c: Core, p: seq<byte>, now: u32, env: Env)
    ensures OneEntry(c, ProcessHello(c, p, now, env).0, now)
  {
    hide HelloSupported, Randomize, Reject, Emit, StartHello, Failing;
    RejectLedger(c, MalformedMessage, now, true);
    if |p| == CLIENT_HELLO_SIZE {
      var (id, filled) := Randomize(c.id, env);
      RejectLedger(c.(id := id, rngReady := false, enabled := false), InternalFailClosed, now, true);
      var named := Uncaused(c.(id := id.(protocol := Min(Read16(p[2], p[3]), 1)), state := HelloReceived));
      EmitKeepsLedger(named, GattConnected, Accepted, now, 0);
      StartHelloLedger(Emit(named, GattConnected, Accepted, now, 0), p, now, env);
    }
  }

  lemma DecideEntry(c: Core, action: byte, now: u32, env: Env)
    ensures var d := Decide(c, action, now, env).0;
            d.ledger == c.ledger || (d.ledger == Granting(c.ledger) && d.state == Completed)
  {
    var c1 := Committing(c, action, env);
    RejectLedger(AbortControl(c1), if c.hasGate && env.commitRejection == Busy then Busy else InternalFailClosed, now, false);
    hide Reject, Posted, Granting;
  }

  lemma ProcessProofEntry(c: Core, p: seq<byte>, now: u32, env: Env)
    ensures OneEntry(c, ProcessProof(c, p, now, env).0, now)
  {
    hide Reject, Decide, Emit, Reached, FromBigEndian, Failing, Granting;
    RejectLedger(c, ExpiredOrReplay, now, true);
    var consumed := c.(state := Consumed);
    RejectLedger(consumed, MalformedMessage, now, true);
    RejectLedger(consumed, ExpiredOrReplay, now, true);
    RejectLedger(consumed, SessionInvalid, now, true);
    RejectLedger(consumed, ProofInvalid, now, true);
    if |p| == PROOF_SIZE {
      var request := VerifyRequest(Read16(p[0], p[1]), FromBigEndian(p[18..34]), p[34], FromBigEndian(p[35..39]),
                                   c.id.challenge, p[39..103]);
      var judged := Judged(consumed, request, env.verdict);
      RejectLedger(judged, PublicReason(env.verdict.reason), now, true);
      EmitKeepsLedger(judged, ProofVerified, Accepted, now, request.credential);
      DecideEntry(Emit(judged, ProofVerified, Accepted, now, request.credential), p[34], now, env);
    }
  }

  lemma ReceiveFrameEntry(c: Core, expected: MessageType, owner: Owner, frame: seq<byte>, now: u32, env: Env)
    ensures OneEntry(c, ReceiveFrame(c, expected, owner, frame, now, env).0, now)
    ensures RateLimiting(c.ledger, now) && AtRest(c) ==>
              var next := ReceiveFrame(c, expected, owner, frame, now, env).0;
              next.ledger == c.ledger && AtRest(next)
  {
    hide Reject, ProcessHello, ProcessProof, AcceptFrame, RateLimiting, Failing, Granting, Posted;
    RejectLedger(c, MalformedMessage, now, true);
    var (r, result) := AcceptFrame(c.reassembly, expected, frame, now);
    if result.Complete? {
      var next := c.(reassembly := r);
      RejectLedger(next, MalformedMessage, now, true);
      ProcessHelloEntry(next, result.payload, now, env);
      ProcessProofEntry(next, result.payload, now, env);
    }
  }

  lemma TickEntry(c: Core, now: u32)
    ensures OneEntry(c, Tick(c, now), now)
    ensures AtRest(c) ==> Tick(c, now) == c
  {
    RejectLedger(c, MalformedMessage, now, true);
    RejectLedger(c, ExpiredOrReplay, now, true);
    hide Reject, Failing;
  }

  lemma OtaLedger(c: Core, busy: bool, now: u32)
    ensures SetOtaBusy(c, busy, now).ledger == c.ledger
    ensures AtRest(c) ==> AtRest(SetOtaBusy(c, busy, now))
  {
    EmitKeepsLedger(QueueResult(c.(otaBusy := busy, outbox := NoOutputs(c.outbox)), Busy, 1000), SessionTerminated, Busy, now, 0);
    hide Emit, Posted;
  }

  lemma DisconnectLedger(c: Core, owner: Owner, now: u32)
    ensures Disconnect(c, owner, now).ledger == c.ledger
    ensures AtRest(c) ==> AtRest(Disconnect(c, owner, now))
  {
    var c1 := c.(connected := false);
    var c2 := Emit(c1, GattFailed, SessionInvalid, now, 0);
    EmitKeepsLedger(c1, GattFailed, SessionInvalid, now, 0);
    EmitKeepsLedger(c2, SessionTerminated, SessionInvalid, now, 0);
    hide Emit;
    ClosingLedger(Emit(c2, SessionTerminated, SessionInvalid, now, 0));
    ClosingLedger(c1);
    hide Reset, AbortControl;
  }

  lemma ClosingLedger(c: Core)
    ensures Reset(c).ledger == c.ledger && AtRest(Reset(c))
    ensures Reset(AbortControl(c)).ledger == c.ledger && AtRest(Reset(AbortControl(c)))
  {
  }

  lemma AbortTransportLedger(c: Core, owner: Owner, reason: ResultReason, now: u32)
    ensures AbortTransport(c, owner, reason, now).ledger == c.ledger
    ensures AtRest(c) ==> AtRest(AbortTransport(c, owner, reason, now))
  {
    EmitKeepsLedger(c, SessionTerminated, reason, now, 0);
    hide Emit;
    ClosingLedger(c);
    ClosingLedger(Emit(c, SessionTerminated, reason, now, 0));
    hide Reset, AbortControl;
  }

  /** Every call enters at most one failure or one success, and none at all
      while the back-off holds a session at rest. */
  lemma StepEntry(c: Core, call: Call, now: u32, env: Env)
    ensures OneEntry(c, Step(c, call, now, env), now)
    ensures RateLimiting(c.ledger, now) && AtRest(c) && FillsSucceed(c, env) ==>
              Step(c, call, now, env).ledger == c.ledger && AtRest(Step(c, call, now, env))
  {
    hide SetOtaBusy, Disconnect, AbortTransport, Tick, BeginFastSession, ReceiveFrame, Failing, RateLimiting, FillsSucceed;
    match call {
      case CallSetOtaBusy(busy) => OtaLedger(c, busy, now);
      case CallDisconnect(owner) => DisconnectLedger(c, owner, now);
      case CallAbortTransport(owner, reason) => AbortTransportLedger(c, owner, reason, now);
      case CallTick => TickEntry(c, now);
      case CallBeginFastSession(owner) => BeginFastEntry(c, owner, now, env);
      case CallReceiveFrame(kind, owner, frame) => ReceiveFrameEntry(c, kind, owner, frame, now, env);
      case _ =>
    }
  }

  // ---------- Whole runs in real time ----------

  /** A core with the real time, the counted failures of the current window
      and the real end of the back-off. */
  datatype Timed = Timed(core: Core, now: nat, recent: seq<nat>, until: nat)

  /** The records after a call that took the core to `next`. */
  function Counting(t: Timed, next: Core, at: nat): Timed {
    var recent :=
      if next.ledger.counted > t.core.ledger.counted then
        if next.ledger.failures == 1 then [at] else if next.ledger.failures == 0 then [] else t.recent + [at]
      else if next.ledger.granted > t.core.ledger.granted then []
      else t.recent;
    var until := if next.ledger.counted > t.core.ledger.counted && next.ledger.failures >= 3 then at + Backoff(next.ledger.failures) else t.until;
    Timed(next, at, recent, until)
  }

  function Advance(t: Timed, call: Call, at: nat, env: Env): Timed {
    Counting(t, Step(t.core, call, Wrap32(at), env), at)
  }

  /** Failures three and later keep the back-off distance. */
  ghost predicate Spaced(recent: seq<nat>) {
    forall j, k | 0 <= j && k == j + 1 < |recent| ::
      recent[j] + (if k >= 3 then Backoff(Min(k, 6)) else 0) <= recent[k]
  }

  ghost predicate Throttled(t: Timed) {
    && t.core.ledger.failures == |t.recent|
    && Spaced(t.recent)
    && (t.recent != [] ==> t.core.ledger.windowStart == Wrap32(t.recent[0]) && t.recent[|t.recent| - 1] <= t.now)
    && (|t.recent| >= 3 ==>
          && t.until == t.recent[|t.recent| - 1] + Backoff(|t.recent|)
          && t.core.ledger.backoffUntil == Wrap32(t.until)
          && (t.now < t.until ==> AtRest(t.core)))
  }

  lemma StillLimited(t: Timed, at: nat)
    requires Throttled(t) && |t.recent| >= 3 && t.now <= at < t.until
    ensures RateLimiting(t.core.ledger, Wrap32(at))
  {
    ElapsedWraps(t.until, at);
  }

  /** Adding a failure that keeps the distance. */
  lemma SpacedExtends(recent: seq<nat>, at: nat)
    requires Spaced(recent)
    requires recent != [] ==>
               recent[|recent| - 1] + (if |recent| >= 3 then Backoff(Min(|recent|, 6)) else 0) <= at
    ensures Spaced(recent + [at])
  {
  }

  lemma BackoffCaps(n: nat)
    requires n >= 3
    ensures Backoff(Min(n, 6)) == Backoff(n)
  {
  }

  /** A counted failure opens a window or joins the current one. */
  lemma FailingCases(l: Ledger, now: u32)
    ensures var f := Failing(l, now);
            && f.counted == l.counted + 1
            && (f.failures >= 3 ==> f.backoffUntil == Wrap32(now + Backoff(f.failures)))
            && (|| (f.failures == 1 && f.windowStart == now)
                || f.failures == 0
                || (f.failures == l.failures + 1 && f.failures >= 2 && f.windowStart == l.windowStart))
  {
    hide Reached, Backoff;
  }

  lemma FailureThrottled(t: Timed, next: Core, at: nat)
    requires Throttled(t) && t.now <= at && (|t.recent| >= 3 ==> at >= t.until)
    requires next.ledger == Failing(t.core.ledger, Wrap32(at)) && AtRest(next)
    ensures Throttled(Counting(t, next, at))
  {
    assert Spaced([at]) && Spaced([]);
    if |t.recent| >= 3 {
      BackoffCaps(|t.recent|);
    }
    if |t.recent| >= 1 {
      SpacedExtends(t.recent, at);
    }
    WrapAdd(at, Backoff(next.ledger.failures));
    FailingCases(t.core.ledger, Wrap32(at));
    hide Backoff, Failing, Wrap32, AtRest, Spaced;
  }

  lemma AdvanceThrottled(t: Timed, call: Call, at: nat, env: Env)
    requires Throttled(t) && t.now <= at && FillsSucceed(t.core, env)
    ensures Throttled(Advance(t, call, at, env))
  {
    StepEntry(t.core, call, Wrap32(at), env);
    var next := Step(t.core, call, Wrap32(at), env);
    if |t.recent| >= 3 && at < t.until {
      StillLimited(t, at);
    }
    hide Step, RateLimiting, Reached, FillsSucceed;
    if next.ledger == Failing(t.core.ledger, Wrap32(at)) && AtRest(next) {
      FailureThrottled(t, next, at);
    }
    hide AtRest, Spaced, Failing;
  }

  /** A failure inside the first ten seconds of a window stays in that window. */
  lemma WindowIsTenSeconds(t: Timed, at: nat)
    requires Throttled(t) && t.recent != [] && |t.recent| + 1 < TWO_32
    requires t.now <= at < t.recent[0] + 10000
    ensures Failing(t.core.ledger, Wrap32(at)).failures == |t.recent| + 1
    ensures Failing(t.core.ledger, Wrap32(at)).windowStart == t.core.ledger.windowStart
  {
    SpacedGrows(t.recent, |t.recent| - 1);
    DeadlineReached(t.recent[0], FAILURE_WINDOW_MS, at);
  }

  lemma {:induction false} SpacedGrows(recent: seq<nat>, k: nat)
    requires Spaced(recent) && k < |recent|
    ensures recent[0] <= recent[k]
    ensures k >= 6 ==> recent[k] >= recent[0] + 15000
  {
    if k > 0 {
      SpacedGrows(recent, k - 1);
      assert recent[k - 1] <= recent[k];
      if k == 6 {
        assert recent[2] + 1000 <= recent[3] && recent[3] + 2000 <= recent[4];
        assert recent[4] + 4000 <= recent[5] && recent[5] + 8000 <= recent[6];
        SpacedGrows(recent, 2);
      }
    }
  }

  datatype TimedInput = TimedInput(call: Call, at: nat, env: Env)

  ghost predicate Plausible(t: Timed, inputs: seq<TimedInput>)
    decreases inputs
  {
    inputs == [] || (t.now <= inputs[0].at && FillsSucceed(t.core, inputs[0].env)
                     && Plausible(Advance(t, inputs[0].call, inputs[0].at, inputs[0].env), inputs[1..]))
  }

  ghost function RunTimed(t: Timed, inputs: seq<TimedInput>): Timed
    decreases inputs
  {
    if inputs == [] then t
    else RunTimed(Advance(t, inputs[0].call, inputs[0].at, inputs[0].env), inputs[1..])
  }

  lemma {:induction false} RunThrottled(t: Timed, inputs: seq<TimedInput>)
    requires Throttled(t) && Plausible(t, inputs)
    ensures Throttled(RunTimed(t, inputs))
    decreases inputs
  {
    if inputs != [] {
      AdvanceThrottled(t, inputs[0].call, inputs[0].at, inputs[0].env);
      RunThrottled(Advance(t, inputs[0].call, inputs[0].at, inputs[0].env), inputs[1..]);
    }
  }

  /** Over every run with monotone time and working random fills: of the
      failures counted since a window began with no success between, at most
      six fall within ten seconds of its start. */
  lemma AtMostSixFailures(boot: nat, hasGate: bool, hasSink: bool, inputs: seq<TimedInput>, k: nat)
    requires Plausible(Timed(Initialized(boot, hasGate, hasSink), 0, [], 0), inputs)
    ensures var recent := RunTimed(Timed(Initialized(boot, hasGate, hasSink), 0, [], 0), inputs).recent;
            k < |recent| && recent[k] < recent[0] + 10000 ==> k < 6
  {
    var start := Timed(Initialized(boot, hasGate, hasSink), 0, [], 0);
    RunThrottled(start, inputs);
    var recent := RunTimed(start, inputs).recent;
    if k < |recent| {
      SpacedGrows(recent, k);
    }
  }
}
