/** The causation chains of the emitted access events, over whole runs. */
module SessionChain {
  import opened Wrappers
  import opened Words
  import opened Framing
  import opened AccessEvents
  import opened Session
  import opened SessionGate
  import opened SessionGrowth

  // ---------- What a well-formed event stream is ----------

  /** The latest event of a session. */
  function LastOf(d: seq<Event>, session: nat): Option<Event> {
    if d == [] then None
    else if d[|d| - 1].session == session then Some(d[|d| - 1])
    else LastOf(d[..|d| - 1], session)
  }

  /** `e` opens its session, or continues it from its latest event. */
  predicate LinkOk(d: seq<Event>, e: Event) {
    match LastOf(d, e.session)
    case None => e.code == GattConnected && !e.hasCause
    case Some(p) => e.code != GattConnected && e.hasCause && e.cause == p.sequence && !Terminal(p.code)
  }

  predicate ChainOk(d: seq<Event>) {
    d == [] ||
    var front, e := d[..|d| - 1], d[|d| - 1];
    && ChainOk(front) && LinkOk(front, e) && e.session != 0
    && (front != [] ==> front[|front| - 1].sequence < e.sequence)
  }

  lemma {:induction false} SequencesIncrease(d: seq<Event>, i: nat, j: nat)
    requires ChainOk(d) && i < j < |d|
    ensures d[i].sequence < d[j].sequence
  {
    var front := d[..|d| - 1];
    if j < |d| - 1 {
      SequencesIncrease(front, i, j);
    } else if i < j - 1 {
      SequencesIncrease(front, i, j - 1);
    }
  }

  lemma {:induction false} LastOfIsLatest(d: seq<Event>, session: nat) returns (i: nat)
    ensures LastOf(d, session).Some? ==> i < |d| && d[i] == LastOf(d, session).value && d[i].session == session
    ensures forall k | (if LastOf(d, session).Some? then i + 1 else 0) <= k < |d| :: d[k].session != session
  {
    i := 0;
    if d != [] {
      if d[|d| - 1].session == session {
        i := |d| - 1;
      } else {
        i := LastOfIsLatest(d[..|d| - 1], session);
      }
    }
  }

  /** The cause of an event is the event of the same session just before it;
      only the connection that opens a session has none. */
  lemma {:induction false} CauseIsPrevious(d: seq<Event>, j: nat) returns (i: nat)
    requires ChainOk(d) && j < |d|
    ensures d[j].hasCause <==> d[j].code != GattConnected
    ensures d[j].hasCause ==>
              && i < j && d[i].session == d[j].session && d[i].sequence == d[j].cause && !Terminal(d[i].code)
              && forall k | i < k < j :: d[k].session != d[j].session
    ensures !d[j].hasCause ==> forall k | 0 <= k < j :: d[k].session != d[j].session
  {
    if j == |d| - 1 {
      i := LastOfIsLatest(d[..j], d[j].session);
    } else {
      i := CauseIsPrevious(d[..|d| - 1], j);
    }
  }

  /** A session has at most one terminal, and nothing after it. */
  lemma {:induction false} TerminalIsLast(d: seq<Event>, i: nat, j: nat)
    requires ChainOk(d) && i < j < |d| && d[i].session == d[j].session
    ensures !Terminal(d[i].code)
    decreases j
  {
    var p := CauseIsPrevious(d, j);
    if i < p {
      TerminalIsLast(d, i, p);
    }
  }

  // ---------- The invariant ----------

  /** The stream is well formed, numbering is ahead of it, and bridge and
      tracker agree on a verified session whose chain the bridge can extend. */
  ghost predicate SinkOk(v: Events) {
    var b, t, d := v.sink.bridge, v.sink.tracker, v.sink.downstream;
    && ChainOk(d)
    && (d != [] ==> d[|d| - 1].sequence <= b.high) && b.high <= v.sequence
    && b.active == t.active
    && (b.active ==> b.session == t.session && b.session != 0 && b.credential != 0
                     && Continues(d, b.session, b.causation))
  }

  ghost predicate Continues(d: seq<Event>, session: nat, causation: u64) {
    var last := LastOf(d, session);
    && last.Some? && last.value.sequence == causation && !Terminal(last.value.code) && causation != 0
    && last.value.sequence <= (if d == [] then 0 else d[|d| - 1].sequence)
  }

  /** The next event of `session` continues its chain. */
  ghost predicate Linked(v: Events, session: nat) {
    Loud(v) ==> Continues(v.sink.downstream, session, v.causation)
  }

  /** Events are still numbered and sent. */
  predicate Loud(v: Events) { v.hasSink && v.sequence != MAX_SEQUENCE }

  ghost predicate Apart(v: Events, session: nat) { Loud(v) && v.sink.bridge.active ==> v.sink.bridge.session != session }

  /** The pending cause is the number of no event of another session. */
  ghost predicate Owned(v: Events, session: nat) {
    && v.causation <= v.sink.bridge.high
    && (v.causation != 0 ==> forall s | s != session && LastOf(v.sink.downstream, s).Some? ::
                               LastOf(v.sink.downstream, s).value.sequence != v.causation)
  }

  /** A live session is the last one that was drawn. */
  ghost predicate Own(c: Core) {
    Owned(c.events, c.id.previousSession) && (Loud(c.events) && c.id.session != 0 ==> c.id.session == c.id.previousSession)
  }

  ghost predicate Chained(c: Core) {
    && SinkOk(c.events) && Own(c)
    && (c.state == ChallengeIssued ==> Linked(c.events, c.id.session) && Apart(c.events, c.id.session))
    && (c.state == Idle ==> c.id.session == 0)
    && (c.state == Completed ==> !c.reassembly.active)
  }

  // ---------- One event ----------

  lemma Appending(d: seq<Event>, e: Event)
    requires ChainOk(d) && LinkOk(d, e) && e.session != 0
    requires d != [] ==> d[|d| - 1].sequence < e.sequence
    ensures ChainOk(d + [e])
    ensures forall s :: LastOf(d + [e], s) == if s == e.session then Some(e) else LastOf(d, s)
  {
    assert (d + [e])[..|d|] == d;
  }

  lemma {:induction false} LastOfBounded(d: seq<Event>, session: nat)
    requires ChainOk(d) && LastOf(d, session).Some?
    ensures LastOf(d, session).value.sequence <= d[|d| - 1].sequence
  {
    var i := LastOfIsLatest(d, session);
    if i < |d| - 1 {
      SequencesIncrease(d, i, |d| - 1);
    }
  }

  lemma ContinuesElsewhere(d: seq<Event>, e: Event, session: nat, causation: u64)
    requires Continues(d, session, causation) && e.session != session
    requires d != [] ==> d[|d| - 1].sequence < e.sequence
    ensures Continues(d + [e], session, causation)
  {
    assert (d + [e])[..|d|] == d;
  }

  lemma ContinuesHere(d: seq<Event>, e: Event)
    requires !Terminal(e.code) && e.sequence != 0
    ensures Continues(d + [e], e.session, e.sequence)
  {
    assert (d + [e])[..|d|] == d;
  }

  /** An event that fits the stream keeps bridge and tracker in step. */
  lemma ReceivingOk(v: Events, e: Event, next: Events)
    requires SinkOk(v) && v.sequence < e.sequence && e.session != 0 && LinkOk(v.sink.downstream, e)
    requires e.code != SessionCompleted
    requires next == v.(sequence := e.sequence, causation := e.sequence, sink := Receiving(v.sink, e))
    ensures SinkOk(next) && Owned(next, e.session)
    ensures !Terminal(e.code) ==> Linked(next, e.session)
    ensures e.code != ProofVerified ==>
              forall s | Apart(v, s) :: Apart(next, s)
  {
    var d, b := v.sink.downstream, v.sink.bridge;
    var (after, forwarded) := Forwarding(b, e);
    Appending(d, forwarded);
    forall s | s != e.session && LastOf(d, s).Some? ensures LastOf(d, s).value.sequence < e.sequence {
      LastOfBounded(d, s);
    }
    if !Terminal(e.code) {
      ContinuesHere(d, forwarded);
    }
    if b.active && b.session != e.session {
      ContinuesElsewhere(d, forwarded, b.session, b.causation);
    }
    hide ChainOk, LinkOk, LastOf, Continues;
  }

  lemma StampedKeeps(v: Events, now: u32)
    ensures Stamped(v, now) == v.(monotonicHigh := Stamped(v, now).monotonicHigh, lastNow := now, timeKnown := true)
    ensures SinkOk(v) ==> SinkOk(Stamped(v, now))
    ensures forall s :: Linked(v, s) == Linked(Stamped(v, now), s)
    ensures forall s :: Owned(v, s) == Owned(Stamped(v, now), s)
  {
  }

  /** Continuing a session keeps the stream well formed. */
  lemma SendingOk(v: Events, code: EventCode, reason: EventReason, now: u32, session: nat, boot: nat, credential: nat)
    requires SinkOk(v) && v.hasSink && session != 0 && code != SessionCompleted
    requires !Loud(v) || if code == GattConnected then LastOf(v.sink.downstream, session) == None && v.causation == 0
             else Linked(v, session)
    ensures var next := Sending(v, code, reason, now, session, boot, credential);
            && SinkOk(next) && next.hasSink && (Loud(v) ==> Owned(next, session)) && (!Loud(v) ==> next == v)
            && (!Terminal(code) ==> Linked(next, session))
            && (code != ProofVerified ==> forall s | Apart(v, s) :: Apart(next, s))
  {
    hide SinkOk, Receiving, Terminal, LastOf, Owned;
    if v.sequence != MAX_SEQUENCE {
      var sequence := NextSequence(v.sequence);
      var e := Event(code, reason, Wrap64(v.monotonicHigh + now), session, boot,
                     sequence, v.causation != 0, v.causation, credential);
      ReceivingOk(v, e, v.(sequence := sequence, causation := sequence, sink := Receiving(v.sink, e)));
      hide Apart, Linked;
    }
  }

  /** `Emit` for a live session, or for none. */
  lemma EmitChained(c: Core, code: EventCode, reason: ResultReason, now: u32, credential: nat)
    requires SinkOk(c.events) && Own(c) && code != SessionCompleted && code != GattConnected
    requires c.id.session != 0 ==> Linked(c.events, c.id.session)
    ensures var e := Emit(c, code, reason, now, credential);
            && e == c.(events := e.events)
            && SinkOk(e.events) && Own(e)
            && (c.id.session != 0 && !Terminal(code) ==> Linked(e.events, c.id.session))
            && (code != ProofVerified ==> forall s | Apart(c.events, s) :: Apart(e.events, s))
  {
    StampedKeeps(c.events, now);
    hide Stamped, SinkOk, Sending, Continues, Reason, Terminal, Owned;
    if c.events.hasSink && c.id.session != 0 {
      SendingOk(Stamped(c.events, now), code, Reason(code, reason, c.otaBusy), now, c.id.session, c.id.boot, credential);
    }
  }

  /** The first event of a session nobody has used. */
  lemma OpenChained(c: Core, now: u32)
    requires SinkOk(c.events) && Own(c) && c.events.causation == 0
    requires c.id.session != 0 && (Loud(c.events) ==> LastOf(c.events.sink.downstream, c.id.session) == None)
    ensures var e := Emit(c, GattConnected, Accepted, now, 0);
            && e == c.(events := e.events)
            && SinkOk(e.events) && Own(e) && Linked(e.events, c.id.session) && Apart(e.events, c.id.session)
  {
    assert Apart(c.events, c.id.session);
    StampedKeeps(c.events, now);
    hide Stamped, SinkOk, Sending, Continues, Reason, LastOf, Owned;
    if c.events.hasSink {
      SendingOk(Stamped(c.events, now), GattConnected, Reason(GattConnected, Accepted, c.otaBusy), now, c.id.session, c.id.boot, 0);
    }
  }

  // ---------- What every call keeps ----------

  /** Live or without a session; both ways its end is well formed. */
  ghost predicate Endable(c: Core) { SinkOk(c.events) && Own(c) && (c.id.session != 0 ==> Linked(c.events, c.id.session)) }

  lemma ResetChained(c: Core)
    requires SinkOk(c.events) && Own(c)
    ensures Chained(ResetPreservingOutputs(c)) && Chained(Reset(c))
    ensures Chained(ResetPreservingOutputs(AbortControl(c))) && Chained(Reset(AbortControl(c)))
  {
    hide SinkOk, Owned;
  }

  lemma EmitRejectionChained(c: Core, reason: ResultReason, now: u32)
    requires Endable(c)
    ensures SinkOk(EmitRejection(c, reason, now).events) && Own(EmitRejection(c, reason, now))
    ensures EmitRejection(c, reason, now).id == c.id
  {
    hide SinkOk, Emit, Linked, Own;
    if CanonicalRejection(reason) {
      EmitChained(c, ProofRejected, reason, now, 0);
      EmitChained(Emit(c, ProofRejected, reason, now, 0), SessionTerminated, reason, now, 0);
    } else {
      EmitChained(c, SessionTerminated, reason, now, 0);
    }
  }

  lemma RejectChained(c: Core, reason: ResultReason, now: u32, count: bool)
    requires Endable(c)
    ensures Chained(Reject(c, reason, now, count))
  {
    hide SinkOk, EmitRejection, Failing, Posted, Linked, AbortControl, Owned;
    var reported := QueueResult(c, reason, if reason == RateLimited then 1000 else 0);
    EmitRejectionChained(reported, reason, now);
    var emitted := if c.id.session != 0 then EmitRejection(reported, reason, now) else reported;
    AbortKeepsEvents(emitted);
    ResetChained(AbortControl(emitted));
    ResetChained(AbortControl(emitted).(ledger := Failing(c.ledger, now)));
    hide Chained, ResetPreservingOutputs;
  }

  lemma AbortKeepsEvents(c: Core)
    ensures var a := AbortControl(c);
            a.events == c.events && a.id == c.id && a.state == c.state && a.reassembly == c.reassembly
  {
  }

  /** Ending the session with a terminal event. */
  lemma TerminateChained(c: Core, code: EventCode, reason: ResultReason, now: u32)
    requires Endable(c) && code != SessionCompleted && code != GattConnected
    ensures var e := Emit(c, code, reason, now, 0);
            && SinkOk(e.events)
            && (!Terminal(code) ==> Endable(e))
            && Chained(ResetPreservingOutputs(e)) && Chained(Reset(e))
            && Chained(ResetPreservingOutputs(AbortControl(e))) && Chained(Reset(AbortControl(e)))
  {
    EmitChained(c, code, reason, now, 0);
    hide SinkOk, Emit, Linked;
    ResetChained(Emit(c, code, reason, now, 0));
  }

  lemma EndableWhenStable(c: Core)
    requires Stable(c) && Chained(c) && c.state != Completed
    ensures Endable(c)
  {
    hide SinkOk, PhaseOf, Linked;
  }

  lemma SetOtaBusyChained(c: Core, busy: bool, now: u32)
    requires Stable(c) && Chained(c)
    ensures Chained(SetOtaBusy(c, busy, now))
  {
    hide Emit, SinkOk, Linked, PhaseOf, AbortControl, ResetPreservingOutputs, Posted;
    if busy && c.state == ChallengeIssued {
      EndableWhenStable(c);
      TerminateChained(QueueResult(c.(otaBusy := busy, outbox := NoOutputs(c.outbox)), Busy, 1000), SessionTerminated, Busy, now);
    }
  }

  lemma DisconnectChained(c: Core, owner: Owner, now: u32)
    requires Stable(c) && Chained(c)
    ensures Chained(Disconnect(c, owner, now))
  {
    var c1 := c.(connected := false);
    ResetChained(c1);
    hide Emit, SinkOk, Linked, PhaseOf, AbortControl, Reset;
    if c.state == ChallengeIssued {
      EndableWhenStable(c);
      TerminateChained(c1, GattFailed, SessionInvalid, now);
      TerminateChained(Emit(c1, GattFailed, SessionInvalid, now, 0), SessionTerminated, SessionInvalid, now);
    }
  }

  lemma AbortTransportChained(c: Core, owner: Owner, reason: ResultReason, now: u32)
    requires Stable(c) && Chained(c)
    ensures Chained(AbortTransport(c, owner, reason, now))
  {
    ResetChained(c);
    hide Emit, SinkOk, Linked, PhaseOf, AbortControl, Reset;
    if c.state != Completed {
      EndableWhenStable(c);
      TerminateChained(c, SessionTerminated, reason, now);
    }
  }

  lemma TickChained(c: Core, now: u32)
    requires Stable(c) && Chained(c)
    ensures Chained(Tick(c, now))
  {
    hide Reject, SinkOk, Linked, PhaseOf;
    if c.state != Completed {
      EndableWhenStable(c);
      RejectChained(c, MalformedMessage, now, true);
      RejectChained(c, ExpiredOrReplay, now, true);
    }
  }

  /** The sink after a lifecycle event of the verified session. */
  lemma LifecycleSinkOk(v: Events, code: LifecycleCode, reason: EventReason, now: u64, next: Events)
    requires SinkOk(v) && Lifecycle(v.sink.bridge, code, reason, now).1.Some?
    requires var (b, sent) := Lifecycle(v.sink.bridge, code, reason, now);
             next == v.(sequence := Max(v.sequence, b.high),
                        sink := Sink(b, Observing(v.sink.tracker, sent.value).0, v.sink.downstream + [sent.value]))
    ensures SinkOk(next) && forall s :: Owned(v, s) ==> Owned(next, s)
  {
    var b, d := v.sink.bridge, v.sink.downstream;
    var e := Lifecycle(b, code, reason, now).1.value;
    Appending(d, e);
    if !Terminal(code) {
      ContinuesHere(d, e);
    }
    hide ChainOk, LinkOk, LastOf, Continues, PhasesOf;
  }

  lemma LifecycleChained(c: Core, code: LifecycleCode, reason: EventReason, now: u64)
    requires Stable(c) && Chained(c)
    ensures Chained(LifecycleEvent(c, code, reason, now))
  {
    var b, d := c.events.sink.bridge, c.events.sink.downstream;
    var (after, sent) := Lifecycle(b, code, reason, now);
    hide PhaseOf, ChainOk, LastOf, LinkOk, PhasesOf;
    if sent.Some? {
      var next := LifecycleEvent(c, code, reason, now);
      hide LifecycleEvent;
      assert next == c.(events := next.events) by { LifecycleKeeps(c, code, reason, now); }
      LifecycleKeeps(c, code, reason, now);
      LifecycleSinkOk(c.events, code, reason, now, next.events);
      if c.state == ChallengeIssued && c.events.hasSink && c.events.sequence != MAX_SEQUENCE {
        ContinuesElsewhere(d, sent.value, c.id.session, c.events.causation);
      }
      hide SinkOk, Continues, Observing, Owned;
    }
  }

  lemma LifecycleKeeps(c: Core, code: EventCode, reason: EventReason, now: u64)
    ensures var (b, sent) := Lifecycle(c.events.sink.bridge, code, reason, now);
            var v := c.events;
            LifecycleEvent(c, code, reason, now)
            == c.(events := v.(sequence := Max(v.sequence, b.high),
                  sink := if sent.None? then v.sink.(bridge := b)
                          else Sink(b, Observing(v.sink.tracker, sent.value).0, v.sink.downstream + [sent.value])))
  {
    hide Observing, Lifecycle;
  }

  lemma AdvanceChained(c: Core, used: u64)
    requires Chained(c)
    ensures Chained(AdvanceSequence(c, used))
  {
    hide ChainOk, Continues;
  }

  /** The call opens a session, so that identity and nonce are drawn. */
  predicate Opens(c: Core, call: Call, now: u32) {
    match call
    case CallBeginFastSession(owner) => Enabled(c) && c.connected && owner == c.owner && c.state == Idle
    case CallReceiveFrame(kind, owner, frame) =>
      && Listening(c, owner, now) && c.state == Idle
      && OpensWith(AcceptFrame(c.reassembly, kind, frame, now).1)
    case _ => false
  }

  predicate OpensWith(r: FrameResult) {
    r.Complete? && r.kind == ClientHello && |r.payload| == CLIENT_HELLO_SIZE && HelloSupported(r.payload)
  }

  /** What is drawn cannot start a chain: an identity without a nonce, whose
      terminal is sent before its causation is reset, or one already used. */
  predicate Unchained(c: Core, env: Env) {
    && Loud(c.events) && FreshSession(c.id, env).Some?
    && (FreshNonce(c.id, env).None? || LastOf(c.events.sink.downstream, FreshSession(c.id, env).value).Some?)
  }

  predicate Breaks(c: Core, call: Call, now: u32, env: Env) { Opens(c, call, now) && Unchained(c, env) }

  lemma BuildChallengeChained(c: Core, now: u32)
    requires c.state == HelloReceived && c.id.session != 0
    requires SinkOk(c.events) && Own(c) && Linked(c.events, c.id.session) && Apart(c.events, c.id.session)
    ensures Chained(BuildChallenge(c, now))
  {
    hide SinkOk, Linked, Posted, Emit;
    var ch := ChallengeFor(c.id, now);
    var queued := Queue(Issuing(c, ch), if c.id.protocol == FAST_PROTOCOL then FastChallenge else MessageType.Challenge, ChallengeBody(ch));
    EmitChained(queued, ProofRequested, Accepted, now, 0);
  }

  lemma OpenGateKeepsEvents(c: Core, env: Env)
    ensures var g := OpenGate(c, env).0;
            g.events == c.events && g.id == c.id && g.state == c.state && g.reassembly == c.reassembly
  {
  }

  lemma DeclineChained(c: Core, reason: ResultReason, retryAfter: u32, now: u32)
    requires Endable(c)
    ensures Chained(ResetPreservingOutputs(Emit(QueueResult(c, reason, retryAfter), SessionTerminated, reason, now, 0)))
  {
    hide SinkOk, Linked, Posted, Emit, Chained, ResetPreservingOutputs;
    TerminateChained(QueueResult(c, reason, retryAfter), SessionTerminated, reason, now);
  }

  lemma StartFastChained(c: Core, now: u32, env: Env)
    requires c.id.session != 0
    requires SinkOk(c.events) && Own(c) && Linked(c.events, c.id.session) && Apart(c.events, c.id.session)
    ensures Chained(StartFast(c, now, env).0)
  {
    OpenGateKeepsEvents(c, env);
    hide SinkOk, Linked, Apart, Emit, QueueResult, OpenGate, BuildChallenge, RateLimiting, Chained, ResetPreservingOutputs;
    DeclineChained(c, Busy, 1000, now);
    DeclineChained(c, RateLimited, Sub32(c.ledger.backoffUntil, now), now);
    var (g, open) := OpenGate(c, env);
    DeclineChained(g, if c.hasGate then Busy else InternalFailClosed, if c.hasGate then 1000 else 0, now);
    BuildChallengeChained(g.(id := g.id.(negotiation := FastTranscript), state := HelloReceived), now);
  }

  lemma StartHelloChained(c: Core, p: seq<byte>, now: u32, env: Env)
    requires c.id.session != 0 && c.state == HelloReceived
    requires SinkOk(c.events) && Own(c) && Linked(c.events, c.id.session) && Apart(c.events, c.id.session)
    ensures Chained(StartHello(c, p, now, env).0)
  {
    OpenGateKeepsEvents(c, env);
    hide SinkOk, Linked, Apart, Emit, Posted, OpenGate, BuildChallenge, Chained, ResetPreservingOutputs;
    var (g, open) := OpenGate(c, env);
    TerminateChained(Queue(g, TargetHello, HelloBody(0, 2)), SessionTerminated, if c.hasGate then Busy else InternalFailClosed, now);
    BuildChallengeChained(Queue(g.(id := g.id.(negotiation := HelloTranscript(p))), TargetHello, HelloBody(g.id.protocol, 0)), now);
  }

  lemma RandomizeDraws(id: Identity, env: Env)
    ensures var (r, filled) := Randomize(id, env);
            && filled == (FreshSession(id, env).Some? && FreshNonce(id, env).Some?)
            && r.session == (if FreshSession(id, env).Some? then FreshSession(id, env).value else 0)
            && (FreshSession(id, env).Some? ==> r.session != 0 && r.session != id.previousSession)
            && r.previousSession == if filled then r.session else id.previousSession
  {
    RandomUniqueNonzero(env.sessionFills, id.previousSession, 4);
    hide RandomUnique;
  }

  /** A session that is named but not yet announced. */
  lemma NamedOk(c: Core, named: Core)
    requires SinkOk(c.events) && Own(c) && named.events == c.events.(causation := 0)
    requires named.id.session == named.id.previousSession
    ensures SinkOk(named.events) && Own(named)
  {
    hide ChainOk, Continues;
  }

  /** A failed draw that sends nothing. */
  lemma RandomFailedChained(c: Core, id: Identity, now: u32)
    requires SinkOk(c.events) && Own(c) && id.previousSession == c.id.previousSession
    requires id.session == 0 || !Loud(c.events)
    ensures Chained(RandomFailed(c.(id := id), now))
  {
    hide SinkOk, Owned, Reject;
    RejectChained(c.(id := id, rngReady := false, enabled := false), InternalFailClosed, now, true);
  }

  lemma BeginFastChained(c: Core, owner: Owner, now: u32, env: Env)
    requires Stable(c) && Chained(c) && !Breaks(c, CallBeginFastSession(owner), now, env)
    ensures Chained(BeginFastSession(c, owner, now, env).0)
  {
    RandomizeDraws(c.id.(protocol := FAST_PROTOCOL), env);
    hide PhaseOf, Randomize, SinkOk, Linked, Apart, Own, Emit, StartFast, LastOf, RandomUnique, RandomFailed;
    if Opens(c, CallBeginFastSession(owner), now) {
      var (id, filled) := Randomize(c.id.(protocol := FAST_PROTOCOL), env);
      if filled {
        var named := Uncaused(c.(id := id));
        NamedOk(c, named);
        OpenChained(named, now);
        StartFastChained(Emit(named, GattConnected, Accepted, now, 0), now, env);
      } else {
        RandomFailedChained(c, id, now);
      }
    }
  }

  lemma ProcessHelloChained(c: Core, p: seq<byte>, now: u32, env: Env)
    requires Stable(c) && Chained(c) && c.state != Completed
    requires c.state == Idle && |p| == CLIENT_HELLO_SIZE && HelloSupported(p) ==> !Unchained(c, env)
    ensures Chained(ProcessHello(c, p, now, env).0)
  {
    RandomizeDraws(c.id, env);
    EndableWhenStable(c);
    hide PhaseOf, Randomize, SinkOk, Linked, Apart, Own, Emit, StartHello, LastOf, Reject, HelloSupported, Posted, RandomUnique, RandomFailed;
    RejectChained(c, MalformedMessage, now, true);
    if c.state == Idle && |p| == CLIENT_HELLO_SIZE && HelloSupported(p) {
      var (id, filled) := Randomize(c.id, env);
      if filled {
        var named := Uncaused(c.(id := id.(protocol := Min(Read16(p[2], p[3]), 1)), state := HelloReceived));
        NamedOk(c, named);
        OpenChained(named, now);
        StartHelloChained(Emit(named, GattConnected, Accepted, now, 0), p, now, env);
      } else {
        RandomFailedChained(c, id, now);
      }
    }
  }

  lemma DecideChained(c: Core, action: byte, now: u32, env: Env)
    requires Endable(c) && !c.reassembly.active
    ensures Chained(Decide(c, action, now, env).0)
  {
    hide SinkOk, Linked, Reject, AbortControl, Posted, Granting;
    var c1 := Committing(c, action, env);
    AbortKeepsEvents(c1);
    RejectChained(AbortControl(c1), if c.hasGate && env.commitRejection == Busy then Busy else InternalFailClosed, now, false);
  }

  lemma JudgeChained(c: Core, request: VerifyRequest, now: u32, env: Env)
    requires Endable(c) && !c.reassembly.active
    ensures Chained(Judge(c, request, now, env).0)
  {
    var judged := Judged(c, request, env.verdict);
    hide SinkOk, Linked, Apart, Reject, Decide, Emit, Chained, PublicReason;
    RejectChained(judged, PublicReason(env.verdict.reason), now, true);
    EmitChained(judged, ProofVerified, Accepted, now, request.credential);
    DecideChained(Emit(judged, ProofVerified, Accepted, now, request.credential), request.action, now, env);
  }

  lemma ProcessProofChained(c: Core, p: seq<byte>, now: u32, env: Env)
    requires Stable(c) && Chained(c) && c.state != Completed && !c.reassembly.active
    ensures Chained(ProcessProof(c, p, now, env).0)
  {
    EndableWhenStable(c);
    var consumed := c.(state := Consumed);
    hide PhaseOf, SinkOk, Linked, Apart, Reject, Judge, Reached, FromBigEndian, Chained, Stable;
    if c.state != ChallengeIssued {
      RejectChained(c, ExpiredOrReplay, now, true);
    } else if |p| != PROOF_SIZE {
      RejectChained(consumed, MalformedMessage, now, true);
    } else if Reached(now, c.id.deadline) {
      RejectChained(consumed, ExpiredOrReplay, now, true);
    } else if Read16(p[0], p[1]) != c.id.protocol || FromBigEndian(p[2..18]) != c.id.session {
      RejectChained(consumed, SessionInvalid, now, true);
    } else if !KnownAction(p[34]) {
      RejectChained(consumed, ProofInvalid, now, true);
    } else {
      var request := VerifyRequest(Read16(p[0], p[1]), FromBigEndian(p[18..34]), p[34], FromBigEndian(p[35..39]),
                                   c.id.challenge, p[39..103]);
      JudgeChained(consumed, request, now, env);
    }
  }

  lemma AcceptedCleared(r: Reassembly, expected: MessageType, f: seq<byte>, now: u32)
    ensures AcceptFrame(r, expected, f, now).1.Complete? ==> AcceptFrame(r, expected, f, now).0 == CLEARED
  {
    hide WellFormed, Fits, Opened;
  }

  lemma ReassembledChained(c: Core, r: Reassembly)
    requires Stable(c) && Chained(c) && c.state != Completed
    ensures Stable(c.(reassembly := r)) && Chained(c.(reassembly := r)) && Endable(c.(reassembly := r))
  {
    hide PhaseOf, SinkOk, Linked, Apart;
  }

  lemma ReceiveFrameChained(c: Core, expected: MessageType, owner: Owner, frame: seq<byte>, now: u32, env: Env)
    requires Stable(c) && Chained(c) && !Breaks(c, CallReceiveFrame(expected, owner, frame), now, env)
    ensures Chained(ReceiveFrame(c, expected, owner, frame, now, env).0)
  {
    var (r, result) := AcceptFrame(c.reassembly, expected, frame, now);
    AcceptedCleared(c.reassembly, expected, frame, now);
    var next := c.(reassembly := r);
    hide Reject, ProcessHello, ProcessProof, AcceptFrame, RateLimiting, Posted, PhaseOf, SinkOk, Linked, Apart, Owned, HelloSupported,
         LastOf, FreshSession, FreshNonce;
    if Listening(c, owner, now) {
      EndableWhenStable(c);
      ReassembledChained(c, r);
      hide Stable, Chained, Endable;
      RejectChained(c, MalformedMessage, now, true);
      if result.Complete? {
        RejectChained(next, MalformedMessage, now, true);
        if result.kind == ClientHello {
          ProcessHelloChained(next, result.payload, now, env);
        }
        ProcessProofChained(next, result.payload, now, env);
      }
    }
  }

  /** Every call keeps the chains unless it opens a session that cannot start one. */
  lemma StepChained(c: Core, call: Call, now: u32, env: Env)
    requires Stable(c) && Chained(c) && !Breaks(c, call, now, env)
    ensures Chained(Step(c, call, now, env))
  {
    hide SetEnabled, SetOtaBusy, Connect, Disconnect, AbortTransport, Tick, PopOutput, BeginFastSession, ReceiveFrame,
         LifecycleEvent, AdvanceSequence, Stable, Chained, Breaks;
    match call {
      case CallSetEnabled(on) => SetEnabledChained(c, on);
      case CallConnect(handle) => ConnectChained(c, handle);
      case CallSetOtaBusy(busy) => SetOtaBusyChained(c, busy, now);
      case CallDisconnect(owner) => DisconnectChained(c, owner, now);
      case CallAbortTransport(owner, reason) => AbortTransportChained(c, owner, reason, now);
      case CallTick => TickChained(c, now);
      case CallAdvance(used) => AdvanceChained(c, used);
      case CallBeginFastSession(owner) => BeginFastChained(c, owner, now, env);
      case CallReceiveFrame(kind, owner, frame) => ReceiveFrameChained(c, kind, owner, frame, now, env);
      case CallLifecycle(code, reason, monotonic) => LifecycleChained(c, code, reason, monotonic);
      case CallPopOutput => PopOutputChained(c);
    }
  }

  lemma SetEnabledChained(c: Core, on: bool)
    requires Chained(c)
    ensures Chained(SetEnabled(c, on))
  {
    var c1 := c.(enabled := on && c.rngReady);
    AbortKeepsEvents(c1);
    ResetChained(AbortControl(c1).(connected := false));
    hide SinkOk, Linked, Apart, AbortControl, Reset;
  }

  lemma ConnectChained(c: Core, handle: u16)
    requires Chained(c)
    ensures Chained(Connect(c, handle).0)
  {
    var g := Wrap64(c.owner.generation + 1);
    ResetChained(c.(connected := true, owner := Owner(handle, if g == 0 then 1 else g)));
    hide SinkOk, Linked, Apart, Reset;
  }

  lemma PopOutputChained(c: Core)
    requires Chained(c)
    ensures Chained(PopOutput(c).0)
  {
    hide SinkOk, Linked, Apart;
  }

  // ---------- Exactly when a chain breaks ----------

  lemma {:induction false} ChainPrefix(p: seq<Event>, d: seq<Event>)
    requires p <= d && ChainOk(d)
    ensures ChainOk(p)
    decreases |d|
  {
    if |p| < |d| {
      ChainPrefix(p, d[..|d| - 1]);
    } else {
      assert p == d;
    }
  }

  /** An announcement of a session already known. */
  lemma ReopenedBreaks(c: Core, now: u32)
    requires Loud(c.events) && c.id.session != 0 && LastOf(c.events.sink.downstream, c.id.session).Some?
    ensures !ChainOk(Emit(c, GattConnected, Accepted, now, 0).events.sink.downstream)
  {
    hide LastOf;
    var d, next := c.events.sink.downstream, Emit(c, GattConnected, Accepted, now, 0).events.sink.downstream;
    assert |next| == |d| + 1 && next[..|d|] == d && next[|d|].session == c.id.session && next[|d|].code == GattConnected;
  }

  /** The terminal of a session that was never announced. */
  lemma UnopenedBreaks(c: Core, now: u32)
    requires Loud(c.events) && c.id.session != 0 && Owned(c.events, c.id.previousSession) && c.id.session != c.id.previousSession
    ensures !ChainOk(Reject(c, InternalFailClosed, now, true).events.sink.downstream)
  {
    var d := c.events.sink.downstream;
    var next := Reject(c, InternalFailClosed, now, true).events.sink.downstream;
    hide Failing, Posted, LastOf;
    assert |next| == |d| + 1 && next[..|d|] == d && next[|d|].session == c.id.session && next[|d|].code == SessionTerminated;
    assert next[|d|].hasCause ==> next[|d|].cause == c.events.causation != 0;
  }

  lemma BrokenStays(c: Core, d: Core)
    requires Grows(c, d) && !ChainOk(c.events.sink.downstream)
    ensures !ChainOk(d.events.sink.downstream)
  {
    if ChainOk(d.events.sink.downstream) {
      ChainPrefix(c.events.sink.downstream, d.events.sink.downstream);
    }
  }

  lemma BeginFastBreaks(c: Core, owner: Owner, now: u32, env: Env)
    requires Chained(c) && Breaks(c, CallBeginFastSession(owner), now, env)
    ensures !ChainOk(BeginFastSession(c, owner, now, env).0.events.sink.downstream)
  {
    RandomizeDraws(c.id.(protocol := FAST_PROTOCOL), env);
    hide Randomize, SinkOk, Emit, StartFast, LastOf, RandomUnique, Reject, ChainOk, Owned, Linked;
    var (id, filled) := Randomize(c.id.(protocol := FAST_PROTOCOL), env);
    if filled {
      var named := Uncaused(c.(id := id));
      ReopenedBreaks(named, now);
      StartFastGrows(Emit(named, GattConnected, Accepted, now, 0), now, env);
      BrokenStays(Emit(named, GattConnected, Accepted, now, 0), BeginFastSession(c, owner, now, env).0);
    } else {
      UnopenedBreaks(c.(id := id, rngReady := false, enabled := false), now);
    }
  }

  lemma ProcessHelloBreaks(c: Core, p: seq<byte>, now: u32, env: Env)
    requires Chained(c) && c.state == Idle && |p| == CLIENT_HELLO_SIZE && HelloSupported(p) && Unchained(c, env)
    ensures !ChainOk(ProcessHello(c, p, now, env).0.events.sink.downstream)
  {
    RandomizeDraws(c.id, env);
    hide Randomize, SinkOk, Emit, StartHello, LastOf, RandomUnique, Reject, ChainOk, HelloSupported, Owned, Linked;
    var (id, filled) := Randomize(c.id, env);
    if filled {
      var named := Uncaused(c.(id := id.(protocol := Min(Read16(p[2], p[3]), 1)), state := HelloReceived));
      ReopenedBreaks(named, now);
      StartHelloGrows(Emit(named, GattConnected, Accepted, now, 0), p, now, env);
      BrokenStays(Emit(named, GattConnected, Accepted, now, 0), ProcessHello(c, p, now, env).0);
    } else {
      UnopenedBreaks(c.(id := id, rngReady := false, enabled := false), now);
    }
  }

  /** A chain breaks exactly when a session is opened, fast or by a hello, with
      an identity that comes without a nonce or was used before. */
  lemma BreaksExactly(c: Core, call: Call, now: u32, env: Env)
    requires Stable(c) && Chained(c)
    ensures ChainOk(Step(c, call, now, env).events.sink.downstream) <==> !Breaks(c, call, now, env)
  {
    hide ChainOk, Stable, BeginFastSession, ProcessHello, AcceptFrame, HelloSupported, Unchained, LastOf, Linked, Owned, RateLimiting;
    if !Breaks(c, call, now, env) {
      StepChained(c, call, now, env);
    } else if call.CallBeginFastSession? {
      BeginFastBreaks(c, call.owner, now, env);
    } else {
      var (r, result) := AcceptFrame(c.reassembly, call.kind, call.frame, now);
      UnchainedApart(c, r, env);
      ProcessHelloBreaks(c.(reassembly := r), result.payload, now, env);
    }
  }

  lemma UnchainedApart(c: Core, r: Reassembly, env: Env)
    ensures Unchained(c.(reassembly := r), env) == Unchained(c, env)
  {
  }

  /** No call of the run opens such a session. */
  ghost predicate KeepsChains(c: Core, inputs: seq<Input>) {
    inputs == [] ||
    var front, last := inputs[..|inputs| - 1], inputs[|inputs| - 1];
    KeepsChains(c, front) && !Breaks(Run(c, front), last.call, last.now, last.env)
  }

  lemma {:induction false} RunChained(boot: nat, hasGate: bool, hasSink: bool, inputs: seq<Input>)
    requires KeepsChains(Initialized(boot, hasGate, hasSink), inputs)
    ensures Chained(Run(Initialized(boot, hasGate, hasSink), inputs))
  {
    var c0 := Initialized(boot, hasGate, hasSink);
    if inputs != [] {
      var front, last := inputs[..|inputs| - 1], inputs[|inputs| - 1];
      RunStable(boot, hasGate, hasSink, front);
      RunChained(boot, hasGate, hasSink, front);
      hide Initialized, Stable, Breaks;
      StepChained(Run(c0, front), last.call, last.now, last.env);
    }
  }

  /** Over every run whatever: the events sent downstream form causation chains
      with increasing sequences if and only if no call opened a session with an
      identity that came without a nonce or was used before; and then bridge
      and tracker agree on the verified session. */
  lemma {:induction false} RunChainsExactly(boot: nat, hasGate: bool, hasSink: bool, inputs: seq<Input>)
    ensures var c := Run(Initialized(boot, hasGate, hasSink), inputs);
            && (ChainOk(c.events.sink.downstream) <==> KeepsChains(Initialized(boot, hasGate, hasSink), inputs))
            && (ChainOk(c.events.sink.downstream) ==>
                  && c.events.sink.bridge.active == c.events.sink.tracker.active
                  && (c.events.sink.bridge.active ==> c.events.sink.bridge.session == c.events.sink.tracker.session))
  {
    var c0 := Initialized(boot, hasGate, hasSink);
    if KeepsChains(c0, inputs) {
      RunChained(boot, hasGate, hasSink, inputs);
    } else {
      var front, last := inputs[..|inputs| - 1], inputs[|inputs| - 1];
      RunChainsExactly(boot, hasGate, hasSink, front);
      hide Initialized, Stable, Breaks, ChainOk, Step, Chained;
      var before := Run(c0, front);
      if KeepsChains(c0, front) {
        RunStable(boot, hasGate, hasSink, front);
        RunChained(boot, hasGate, hasSink, front);
        BreaksExactly(before, last.call, last.now, last.env);
      } else {
        StepGrows(before, last.call, last.now, last.env);
        BrokenStays(before, Run(c0, inputs));
      }
    }
  }

  // ---------- Two runs that do break it ----------

  function Drawing(session: Option<nat>, nonce: Option<nat>): Env {
    Env([session], [nonce], 0, false, Verdict(Accepted, 0), false, Busy)
  }

  /** Enabled and connected, ready for a session. */
  const READY: seq<Input> := [Input(CallSetEnabled(true), 0, Drawing(None, None)), Input(CallConnect(7), 0, Drawing(None, None))]

  function Opening(session: nat, nonce: Option<nat>): Input {
    Input(CallBeginFastSession(Owner(7, 1)), 0, Drawing(Some(session), nonce))
  }

  predicate Open(c: Core) {
    && Enabled(c) && c.connected && c.owner == Owner(7, 1) && c.state == Idle && !c.hasGate && !c.otaBusy && c.ledger.failures == 0
    && c.events.hasSink && c.events.sequence < 1000
  }

  lemma ReadyIsOpen()
    ensures Open(Run(Initialized(1, false, true), READY))
    ensures Run(Initialized(1, false, true), READY).id.previousSession == 0
    ensures Run(Initialized(1, false, true), READY).id.previousNonce == 0
    ensures Run(Initialized(1, false, true), READY).events.sequence == 0
  {
    var c0 := Initialized(1, false, true);
    assert READY[..1] == [READY[0]] && READY[..1][..0] == [];
    assert Run(c0, READY[..1]) == Step(c0, CallSetEnabled(true), 0, Drawing(None, None));
  }

  lemma RunSnoc(c: Core, inputs: seq<Input>, last: Input)
    ensures Run(c, inputs + [last]) == Step(Run(c, inputs), last.call, last.now, last.env)
    ensures KeepsChains(c, inputs + [last]) ==> !Breaks(Run(c, inputs), last.call, last.now, last.env)
  {
    assert (inputs + [last])[..|inputs|] == inputs;
  }

  /** The very first session, drawn without a nonce. */
  lemma FailedNonceRun()
    ensures !ChainOk(Run(Initialized(1, false, true), READY + [Opening(10, None)]).events.sink.downstream)
  {
    var c0 := Initialized(1, false, true);
    ReadyIsOpen();
    RunSnoc(c0, READY, Opening(10, None));
    RunChainsExactly(1, false, true, READY + [Opening(10, None)]);
    hide Initialized, Step, ChainOk, KeepsChains, LastOf, Run;
  }

  lemma EmitSends(c: Core, code: EventCode, reason: ResultReason, now: u32)
    requires c.events.hasSink && c.id.session != 0 && c.events.sequence < MAX_SEQUENCE
    ensures var e := Emit(c, code, reason, now, 0);
            && e == c.(events := e.events) && e.events.hasSink && e.events.sequence == c.events.sequence + 1
            && LastOf(e.events.sink.downstream, c.id.session).Some?
            && Grows(c, e)
  {
    EmitGrows(c, code, reason, now, 0);
  }

  /** Without a gate a session is announced and declined at once. */
  lemma Announced(c: Core, session: nat)
    requires Open(c) && session != 0 && session != c.id.previousSession && session != c.id.previousNonce
    ensures var o := Opening(session, Some(session));
            var n := Step(c, o.call, o.now, o.env);
            && (c.events.sequence < 900 ==> Open(n)) && n.id.previousSession == session && n.id.previousNonce == session
            && n.events.sequence == c.events.sequence + 2
            && LastOf(n.events.sink.downstream, session).Some?
  {
    var env := Drawing(Some(session), Some(session));
    var id := Randomize(c.id.(protocol := FAST_PROTOCOL), env).0;
    assert Randomize(c.id.(protocol := FAST_PROTOCOL), env).1 && id.session == session;
    var announced := Emit(Uncaused(c.(id := id)), GattConnected, Accepted, 0, 0);
    EmitSends(Uncaused(c.(id := id)), GattConnected, Accepted, 0);
    hide Emit, LastOf, Posted, Randomize;
    EmitSends(QueueResult(announced.(authActive := false), InternalFailClosed, 0), SessionTerminated, InternalFailClosed, 0);
  }

  lemma LastOfStays(c: Core, d: Core, session: nat)
    requires Grows(c, d) && LastOf(c.events.sink.downstream, session).Some?
    ensures LastOf(d.events.sink.downstream, session).Some?
  {
    var i := LastOfIsLatest(c.events.sink.downstream, session);
    var j := LastOfIsLatest(d.events.sink.downstream, session);
    assert d.events.sink.downstream[i].session == session;
  }

  lemma ReuseBreaks(c: Core, session: nat)
    requires Open(c) && session != 0 && session != c.id.previousSession && LastOf(c.events.sink.downstream, session).Some?
    ensures var o := Opening(session, Some(session)); Breaks(c, o.call, o.now, o.env)
  {
    hide LastOf;
  }

  lemma RunBreaks(inputs: seq<Input>, last: Input)
    requires Breaks(Run(Initialized(1, false, true), inputs), last.call, last.now, last.env)
    ensures !ChainOk(Run(Initialized(1, false, true), inputs + [last]).events.sink.downstream)
  {
    hide Breaks, ChainOk, Run;
    RunSnoc(Initialized(1, false, true), inputs, last);
    RunChainsExactly(1, false, true, inputs + [last]);
  }

  /** An identity drawn again two sessions later, with a good nonce. */
  lemma ReusedIdentityRun()
    ensures var inputs := READY + [Opening(10, Some(10))] + [Opening(20, Some(20))] + [Opening(10, Some(10))];
            !ChainOk(Run(Initialized(1, false, true), inputs).events.sink.downstream)
  {
    hide Initialized, Step, ChainOk, LastOf, Run, Grows, Breaks;
    var c0 := Initialized(1, false, true);
    var o, p := Opening(10, Some(10)), Opening(20, Some(20));
    ReadyIsOpen();
    RunSnoc(c0, READY, o);
    var first := Run(c0, READY + [o]);
    Announced(Run(c0, READY), 10);
    RunSnoc(c0, READY + [o], p);
    var second := Run(c0, READY + [o] + [p]);
    Announced(first, 20);
    StepGrows(first, p.call, p.now, p.env);
    LastOfStays(first, second, 10);
    ReuseBreaks(second, 10);
    RunBreaks(READY + [o] + [p], o);
  }
}
