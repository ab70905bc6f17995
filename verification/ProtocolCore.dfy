/** The authenticated GATT session as the firmware holds it: fields updated in
    place, a four-slot output ring, and the shared allocator, bridge and
    tracker as collaborating objects. Every method is proved to take the
    abstract state where the session specification says. */
module ProtocolCore {
  import opened Wrappers
  import opened Words
  import opened Framing
  import opened AccessEvents
  import opened Session
  import opened SessionGate
  import S = Session
  import G = SessionGate
  import A = SessionAnswers

  /** For calls that ask nobody anything. */
  const NO_REPLIES := Env([], [], 0, false, Verdict(Accepted, 0), false, Busy)

  const NO_MESSAGE := OutputMessage(ErrorMessage, 0, Owner(0, 0), HelloBody(0, 0))

  /** The `count` messages from slot `head` on. */
  function Ring(slots: seq<OutputMessage>, head: nat, count: nat): (m: seq<OutputMessage>)
    requires |slots| == OUTPUT_CAPACITY && head < OUTPUT_CAPACITY && count <= OUTPUT_CAPACITY
    ensures |m| == count
  {
    seq(count, i requires 0 <= i < count => slots[(head + i) % OUTPUT_CAPACITY])
  }

  lemma RingPush(slots: seq<OutputMessage>, head: nat, count: nat, m: OutputMessage)
    requires |slots| == OUTPUT_CAPACITY && head < OUTPUT_CAPACITY && count < OUTPUT_CAPACITY
    ensures Ring(slots[(head + count) % OUTPUT_CAPACITY := m], head, count + 1) == Ring(slots, head, count) + [m]
  {
    var after := slots[(head + count) % OUTPUT_CAPACITY := m];
    forall i | 0 <= i < count ensures Ring(after, head, count + 1)[i] == Ring(slots, head, count)[i] {
      assert (head + i) % OUTPUT_CAPACITY != (head + count) % OUTPUT_CAPACITY;
    }
  }

  lemma RingPop(slots: seq<OutputMessage>, head: nat, count: nat)
    requires |slots| == OUTPUT_CAPACITY && head < OUTPUT_CAPACITY && 0 < count <= OUTPUT_CAPACITY
    ensures Ring(slots, head, count)[0] == slots[head]
    ensures Ring(slots, (head + 1) % OUTPUT_CAPACITY, count - 1) == Ring(slots, head, count)[1..]
  {
    var rest := Ring(slots, (head + 1) % OUTPUT_CAPACITY, count - 1);
    forall i | 0 <= i < count - 1 ensures rest[i] == Ring(slots, head, count)[1..][i] {
      assert ((head + 1) % OUTPUT_CAPACITY + i) % OUTPUT_CAPACITY == (head + (i + 1)) % OUTPUT_CAPACITY;
    }
  }

  /** Reporting, emitting and aborting leave the reassembly alone. */
  lemma EmitBesideReassembly(c: Core, r: Reassembly, code: EventCode, reason: ResultReason, now: u32)
    ensures S.Emit(c.(reassembly := r), code, reason, now, 0) == S.Emit(c, code, reason, now, 0).(reassembly := r)
  {
    hide Sending, Stamped, Reason;
    var e := S.Emit(c, code, reason, now, 0);
    assert S.Emit(c.(reassembly := r), code, reason, now, 0).events == e.events;
    EmitKeeps(c, code, reason, now, 0);
    EmitKeeps(c.(reassembly := r), code, reason, now, 0);
    hide S.Emit;
  }

  lemma QueueResultBeside(c: Core, r: Reassembly, reason: ResultReason, retryAfter: u32)
    ensures S.QueueResult(c.(reassembly := r), reason, retryAfter) == S.QueueResult(c, reason, retryAfter).(reassembly := r)
    ensures S.QueueResult(c, reason, retryAfter).id == c.id
  {
    hide Posted;
  }

  lemma ResetBeside(c: Core, r: Reassembly, l: Ledger)
    ensures ResetPreservingOutputs(c.(reassembly := r)) == ResetPreservingOutputs(c)
    ensures ResetPreservingOutputs(c.(reassembly := r, ledger := l)) == ResetPreservingOutputs(c.(ledger := l))
  {
  }

  lemma AbortBesideReassembly(c: Core, r: Reassembly)
    ensures AbortControl(c.(reassembly := r)) == AbortControl(c).(reassembly := r)
  {
  }

  lemma EmitRejectionBeside(c: Core, r: Reassembly, reason: ResultReason, now: u32)
    ensures EmitRejection(c.(reassembly := r), reason, now) == EmitRejection(c, reason, now).(reassembly := r)
  {
    var e := if CanonicalRejection(reason) then S.Emit(c, ProofRejected, reason, now, 0) else c;
    EmitBesideReassembly(c, r, ProofRejected, reason, now);
    EmitBesideReassembly(e, r, SessionTerminated, reason, now);
    hide S.Emit, CanonicalRejection;
  }

  /** A rejection clears the reassembly whatever it held. */
  lemma RejectIgnoresReassembly(c: Core, r: Reassembly, reason: ResultReason, now: u32)
    ensures Reject(c.(reassembly := r), reason, now, true) == Reject(c, reason, now, true)
  {
    var q := S.QueueResult(c, reason, if reason == RateLimited then 1000 else 0);
    QueueResultBeside(c, r, reason, if reason == RateLimited then 1000 else 0);
    EmitRejectionBeside(q, r, reason, now);
    var e := if c.id.session != 0 then EmitRejection(q, reason, now) else q;
    AbortBesideReassembly(e, r);
    ResetBeside(AbortControl(e), r, Failing(c.ledger, now));
    hide Failing, S.QueueResult, EmitRejection, AbortControl, ResetPreservingOutputs;
  }

  class ProtocolCore {
    const boot: nat
    const authControlGate: bool
    const eventSink: bool
    const outputs: array<OutputMessage>
    const eventSequence: AccessEventSequence
    const bridge: LocalGattLifecycleBridge
    const tracker: VerifiedAccessPhaseTracker

    var enabled: bool
    var rngReady: bool
    var otaBusy: bool
    var connectionActive: bool
    var connectionOwner: Owner
    var state: SessionState
    var authControlActive: bool
    var identity: Identity
    var ledger: Ledger
    var reassembly: Reassembly
    var outputHead: nat
    var outputCount: nat
    var nextMessageId: u16
    var lastCausation: u64
    var monotonicHigh: u64
    var lastNow: u32
    var timeInitialized: bool
    ghost var log: seq<Effect>
    /** The calls made so far. */
    ghost var history: seq<G.Input>

    /** Between calls: the fields are those of the run of all calls so far, and
        that run is stable: its gate word well formed, one unused challenge at
        most, authentication open exactly while it waits. */
    ghost predicate Valid()
      reads this, outputs, eventSequence, bridge, tracker
    {
      && Wired()
      && Model() == G.Run(Initialized(boot, authControlGate, eventSink), history)
      && G.Stable(Model())
    }

    ghost predicate Wired()
      reads `outputHead, `outputCount
    {
      outputs.Length == OUTPUT_CAPACITY && outputHead < OUTPUT_CAPACITY && outputCount <= OUTPUT_CAPACITY
    }

    ghost function OutboxModel(): Outbox
      requires Wired()
      reads `outputHead, `outputCount, `nextMessageId, outputs
    {
      Outbox(Ring(outputs[..], outputHead, outputCount), nextMessageId)
    }

    ghost function SinkModel(): Sink
      reads bridge, tracker
    {
      Sink(bridge.Model(), tracker.Model(), bridge.downstream)
    }

    ghost function EventsModel(): Events
      reads `lastCausation, `monotonicHigh, `lastNow, `timeInitialized, eventSequence, bridge, tracker
    {
      Events(eventSink, eventSequence.last, lastCausation, monotonicHigh, lastNow, timeInitialized, SinkModel())
    }

    ghost function Model(): Core
      requires Wired()
      reads this, outputs, eventSequence, bridge, tracker
    {
      Core(authControlGate, enabled, rngReady, otaBusy, connectionActive, connectionOwner, state, authControlActive,
           identity, ledger, reassembly, OutboxModel(), EventsModel(), log)
    }

    constructor (boot: nat, gate: bool, sink: bool)
      ensures Valid() && history == [] && Model() == Initialized(boot, gate, sink)
      ensures this.boot == boot && authControlGate == gate && eventSink == sink
      ensures fresh(outputs) && fresh(eventSequence) && fresh(bridge) && fresh(tracker)
    {
      this.boot, authControlGate, eventSink := boot, gate, sink;
      outputs := new OutputMessage[OUTPUT_CAPACITY](i => NO_MESSAGE);
      eventSequence := new AccessEventSequence();
      bridge := new LocalGattLifecycleBridge();
      tracker := new VerifiedAccessPhaseTracker();
      enabled, rngReady, otaBusy, connectionActive := false, boot != 0, false, false;
      connectionOwner, state, authControlActive := Owner(0, 0), Idle, false;
      identity, ledger, reassembly := NewIdentity(boot), Ledger(0, 0, 0, 0, 0), CLEARED;
      outputHead, outputCount, nextMessageId := 0, 0, 1;
      lastCausation, monotonicHigh, lastNow, timeInitialized := 0, 0, 0, false;
      log, history := [], [];
      new;
      G.RunStable(boot, gate, sink, []);
      hide G.Stable;
    }

    /** Every public call starts by entering the history; `next` is where it leads. */
    ghost method Enter(call: Call, now: u32, env: Env, next: Core)
      requires Valid() && next == Step(Model(), call, now, env)
      modifies `history
      ensures Wired() && Model() == old(Model())
      ensures history == old(history) + [G.Input(call, now, env)]
      ensures next == G.Run(Initialized(boot, authControlGate, eventSink), history) && G.Stable(next)
    {
      hide Step, G.Stable, Initialized, OutboxModel, EventsModel;
      G.StepStable(Model(), call, now, env);
      history := history + [G.Input(call, now, env)];
      assert history[..|history| - 1] == old(history);
    }

    // ---------- Outputs and events ----------

    method Push(message: OutputMessage)
      requires Wired() && outputCount < OUTPUT_CAPACITY
      modifies `outputCount, outputs
      ensures Wired() && OutboxModel() == old(OutboxModel()).(messages := old(OutboxModel()).messages + [message])
    {
      var slot := (outputHead + outputCount) % outputs.Length;
      RingPush(outputs[..], outputHead, outputCount, message);
      hide Ring;
      outputs[slot] := message;
      assert outputs[..] == old(outputs[..])[slot := message];
      outputCount := outputCount + 1;
    }

    method Post(kind: MessageType, body: Body) returns (queued: bool)
      requires Wired()
      modifies `outputCount, `nextMessageId, outputs
      ensures Wired() && OutboxModel() == Posted(old(OutboxModel()), kind, connectionOwner, body)
      ensures queued == (|old(OutboxModel()).messages| < OUTPUT_CAPACITY)
    {
      hide Ring;
      if outputCount == outputs.Length {
        return false;
      }
      Push(OutputMessage(kind, nextMessageId, connectionOwner, body));
      nextMessageId := if nextMessageId == 0xFFFF then 1 else nextMessageId + 1;
      queued := true;
    }

    method Queue(kind: MessageType, body: Body) returns (queued: bool)
      requires Wired()
      modifies `outputCount, `nextMessageId, outputs
      ensures Wired() && history == old(history) && Model() == S.Queue(old(Model()), kind, body)
      ensures queued == (|old(OutboxModel()).messages| < OUTPUT_CAPACITY)
    {
      hide OutboxModel, EventsModel, Posted;
      queued := Post(kind, body);
    }

    method PopOutput() returns (output: Option<OutputMessage>)
      requires Valid()
      modifies this
      ensures Valid() && (Model(), output) == S.PopOutput(old(Model()))
      ensures history == old(history) + [G.Input(CallPopOutput, 0, NO_REPLIES)]
    {
      Enter(CallPopOutput, 0, NO_REPLIES, S.PopOutput(Model()).0);
      hide G.Stable, G.Run, Initialized, Step, S.PopOutput, OutboxModel, EventsModel;
      output := TakeOldest();
    }

    method TakeOldest() returns (output: Option<OutputMessage>)
      requires Wired()
      modifies this
      ensures Wired() && history == old(history) && (Model(), output) == S.PopOutput(old(Model()))
    {
      if outputCount == 0 {
        return None;
      }
      RingPop(outputs[..], outputHead, outputCount);
      output := Some(outputs[outputHead]);
      outputHead := (outputHead + 1) % outputs.Length;
      outputCount := outputCount - 1;
    }

    method QueueResult(reason: ResultReason, retryAfter: u32)
      requires Wired()
      modifies `log, `outputCount, `nextMessageId, outputs
      ensures Wired() && history == old(history) && Model() == S.QueueResult(old(Model()), reason, retryAfter)
    {
      hide S.Queue, OutboxModel, EventsModel;
      log := log + [Report(reason)];
      var queued := Queue(if identity.protocol == FAST_PROTOCOL then FastResult else MessageType.Result,
                          ResultBody(identity.protocol, identity.session, reason, retryAfter, identity.acl));
    }

    method ExtendTime(now: u32)
      modifies `monotonicHigh, `lastNow, `timeInitialized
      ensures EventsModel() == Stamped(old(EventsModel()), now)
    {
      if timeInitialized && now < lastNow {
        monotonicHigh := Wrap64(monotonicHigh + TWO_32);
      }
      timeInitialized, lastNow := true, now;
    }

    method Send(event: Event)
      modifies `lastCausation, bridge, tracker
      ensures EventsModel() == old(EventsModel()).(causation := event.sequence,
                                                   sink := Receiving(old(EventsModel()).sink, event))
    {
      bridge.Emit(event);
      var terminal, mask := tracker.Observe(bridge.downstream[|bridge.downstream| - 1]);
      lastCausation := event.sequence;
      hide Forwarding, Observing;
    }

    method TakeSequence() returns (sequence: u64)
      modifies eventSequence
      ensures sequence == NextSequence(old(EventsModel()).sequence)
      ensures EventsModel() == old(EventsModel()).(sequence := if sequence == 0 then old(EventsModel()).sequence else sequence)
    {
      sequence := eventSequence.Next();
    }

    method SendStamped(code: EventCode, reason: EventReason, now: u32, session: nat, boot: nat, credential: nat)
      modifies `lastCausation, eventSequence, bridge, tracker
      ensures EventsModel() == Sending(old(EventsModel()), code, reason, now, session, boot, credential)
    {
      hide Receiving, NextSequence;
      var sequence := TakeSequence();
      if sequence == 0 {
        return;
      }
      Send(Event(code, reason, Wrap64(monotonicHigh + now), session, boot, sequence, lastCausation != 0, lastCausation, credential));
    }

    method Emit(code: EventCode, reason: ResultReason, now: u32, credential: nat)
      requires Wired()
      modifies `lastCausation, `monotonicHigh, `lastNow, `timeInitialized, eventSequence, bridge, tracker
      ensures Wired() && history == old(history) && Model() == S.Emit(old(Model()), code, reason, now, credential)
    {
      hide OutboxModel, Sending, Stamped, Reason;
      if !eventSink || identity.session == 0 {
        return;
      }
      ExtendTime(now);
      SendStamped(code, Reason(code, reason, otaBusy), now, identity.session, identity.boot, credential);
    }

    // ---------- Closing ----------

    method AbortAuthControl()
      requires Wired()
      modifies `authControlActive, `log
      ensures Wired() && history == old(history) && Model() == AbortControl(old(Model()))
    {
      hide OutboxModel, EventsModel;
      if !authControlActive {
        return;
      }
      authControlActive := false;
      if authControlGate {
        log := log + [AbortAuth];
      }
    }

    method ResetSessionPreservingOutputs()
      requires Wired()
      modifies `state, `identity, `reassembly
      ensures Wired() && history == old(history) && Model() == ResetPreservingOutputs(old(Model()))
    {
      hide OutboxModel, EventsModel;
      state := Idle;
      identity := ResetIdentity(identity);
      reassembly := CLEARED;
    }

    method ClearOutputs()
      requires Wired()
      modifies `outputHead, `outputCount
      ensures Wired() && history == old(history) && Model() == old(Model()).(outbox := NoOutputs(old(Model()).outbox))
    {
      hide EventsModel;
      outputHead, outputCount := 0, 0;
    }

    method ResetSession()
      requires Wired()
      modifies `state, `identity, `reassembly, `outputHead, `outputCount
      ensures Wired() && history == old(history) && Model() == Reset(old(Model()))
    {
      hide OutboxModel, EventsModel, Model;
      ResetSessionPreservingOutputs();
      ClearOutputs();
    }

    method NextLedger(now: u32) returns (next: Ledger)
      ensures next == Failing(ledger, now)
    {
      hide Reached;
      var failures: int := ledger.failures;
      var start, until := ledger.windowStart, ledger.backoffUntil;
      if failures == 0 || Reached(now, Wrap32(start + FAILURE_WINDOW_MS)) {
        failures, start := 0, now;
      }
      failures := Wrap32(failures + 1);
      if failures >= 3 {
        var shift := Min(failures - 3, 3);
        until := Wrap32(now + if shift == 0 then 1000 else if shift == 1 then 2000 else if shift == 2 then 4000 else 8000);
      }
      next := Ledger(failures, start, until, ledger.counted + 1, ledger.granted);
    }

    method CountFailure(now: u32)
      requires Wired()
      modifies `ledger
      ensures Wired() && history == old(history) && Model() == old(Model()).(ledger := Failing(old(ledger), now))
    {
      hide OutboxModel, EventsModel, Failing;
      ledger := NextLedger(now);
    }

    method EmitRejection(reason: ResultReason, now: u32)
      requires Wired()
      modifies `lastCausation, `monotonicHigh, `lastNow, `timeInitialized, eventSequence, bridge, tracker
      ensures Wired() && history == old(history) && Model() == S.EmitRejection(old(Model()), reason, now)
    {
      hide Model, S.Emit, CanonicalRejection;
      if CanonicalRejection(reason) {
        Emit(ProofRejected, reason, now, 0);
      }
      Emit(SessionTerminated, reason, now, 0);
    }

    method Reject(reason: ResultReason, now: u32, countFailure: bool)
      requires Wired()
      modifies this, outputs, eventSequence, bridge, tracker
      ensures Wired() && history == old(history) && Model() == S.Reject(old(Model()), reason, now, countFailure)
    {
      hide OutboxModel, EventsModel, S.EmitRejection, S.QueueResult, Failing, AbortControl, ResetPreservingOutputs;
      QueueResult(reason, if reason == RateLimited then 1000 else 0);
      if identity.session != 0 {
        EmitRejection(reason, now);
      }
      AbortAuthControl();
      if countFailure {
        CountFailure(now);
      }
      ResetSessionPreservingOutputs();
    }

    // ---------- Transport ----------

    method SetEnabled(on: bool)
      requires Valid()
      modifies this
      ensures Valid() && Model() == S.SetEnabled(old(Model()), on)
      ensures history == old(history) + [G.Input(CallSetEnabled(on), 0, NO_REPLIES)]
    {
      Enter(CallSetEnabled(on), 0, NO_REPLIES, S.SetEnabled(Model(), on));
      hide G.Stable, G.Run, Initialized, Step, S.SetEnabled, OutboxModel, EventsModel;
      Switch(on);
    }

    method Switch(on: bool)
      requires Wired()
      modifies this
      ensures Wired() && history == old(history) && Model() == S.SetEnabled(old(Model()), on)
    {
      hide OutboxModel, EventsModel, AbortControl, Reset;
      enabled := on && rngReady;
      if !enabled {
        AbortAuthControl();
        connectionActive := false;
        ResetSession();
      }
    }

    method SetOtaBusy(busy: bool, now: u32)
      requires Valid()
      modifies this, outputs, eventSequence, bridge, tracker
      ensures Valid() && Model() == S.SetOtaBusy(old(Model()), busy, now)
      ensures history == old(history) + [G.Input(CallSetOtaBusy(busy), now, NO_REPLIES)]
    {
      Enter(CallSetOtaBusy(busy), now, NO_REPLIES, S.SetOtaBusy(Model(), busy, now));
      hide G.Stable, G.Run, Initialized, Step, S.SetOtaBusy, OutboxModel, EventsModel;
      Occupy(busy, now);
    }

    method Occupy(busy: bool, now: u32)
      requires Wired()
      modifies this, outputs, eventSequence, bridge, tracker
      ensures Wired() && history == old(history) && Model() == S.SetOtaBusy(old(Model()), busy, now)
    {
      hide OutboxModel, EventsModel, S.Emit, S.QueueResult, AbortControl, ResetPreservingOutputs, NoOutputs;
      otaBusy := busy;
      if busy && state != Idle && state != Completed && state != Consumed {
        ClearOutputs();
        QueueResult(Busy, 1000);
        Emit(SessionTerminated, Busy, now, 0);
        AbortAuthControl();
        ResetSessionPreservingOutputs();
      }
    }

    method Connect(handle: u16) returns (accepted: bool)
      requires Valid()
      modifies this
      ensures Valid() && (Model(), accepted) == S.Connect(old(Model()), handle)
      ensures history == old(history) + [G.Input(CallConnect(handle), 0, NO_REPLIES)]
    {
      Enter(CallConnect(handle), 0, NO_REPLIES, S.Connect(Model(), handle).0);
      hide G.Stable, G.Run, Initialized, Step, S.Connect, OutboxModel, EventsModel;
      accepted := Accept(handle);
    }

    method Accept(handle: u16) returns (accepted: bool)
      requires Wired()
      modifies this
      ensures Wired() && history == old(history) && (Model(), accepted) == S.Connect(old(Model()), handle)
    {
      hide OutboxModel, EventsModel, Reset;
      if !(enabled && rngReady) || connectionActive {
        return false;
      }
      connectionActive := true;
      var generation := Wrap64(connectionOwner.generation + 1);
      connectionOwner := Owner(handle, if generation == 0 then 1 else generation);
      ResetSession();
      accepted := true;
    }

    method Disconnect(owner: Owner, now: u32)
      requires Valid()
      modifies this, outputs, eventSequence, bridge, tracker
      ensures Valid() && Model() == S.Disconnect(old(Model()), owner, now)
      ensures history == old(history) + [G.Input(CallDisconnect(owner), now, NO_REPLIES)]
    {
      Enter(CallDisconnect(owner), now, NO_REPLIES, S.Disconnect(Model(), owner, now));
      hide G.Stable, G.Run, Initialized, Step, S.Disconnect, OutboxModel, EventsModel;
      Leave(owner, now);
    }

    method Leave(owner: Owner, now: u32)
      requires Wired()
      modifies this, outputs, eventSequence, bridge, tracker
      ensures Wired() && history == old(history) && Model() == S.Disconnect(old(Model()), owner, now)
    {
      hide OutboxModel, EventsModel, S.Emit, AbortControl, Reset;
      if !connectionActive || owner != connectionOwner {
        return;
      }
      connectionActive := false;
      if state != Idle && state != Completed {
        Emit(GattFailed, SessionInvalid, now, 0);
        Emit(SessionTerminated, SessionInvalid, now, 0);
        AbortAuthControl();
      }
      ResetSession();
    }

    method AbortTransport(owner: Owner, reason: ResultReason, now: u32)
      requires Valid()
      modifies this, outputs, eventSequence, bridge, tracker
      ensures Valid() && Model() == S.AbortTransport(old(Model()), owner, reason, now)
      ensures history == old(history) + [G.Input(CallAbortTransport(owner, reason), now, NO_REPLIES)]
    {
      Enter(CallAbortTransport(owner, reason), now, NO_REPLIES, S.AbortTransport(Model(), owner, reason, now));
      hide G.Stable, G.Run, Initialized, Step;
      hide OutboxModel, EventsModel, S.Emit, AbortControl, Reset;
      if !connectionActive || owner != connectionOwner {
        return;
      }
      if state != Completed {
        if identity.session != 0 {
          Emit(SessionTerminated, reason, now, 0);
        }
        AbortAuthControl();
      }
      ResetSession();
    }

    method Tick(now: u32)
      requires Valid()
      modifies this, outputs, eventSequence, bridge, tracker
      ensures Valid() && Model() == S.Tick(old(Model()), now)
      ensures history == old(history) + [G.Input(CallTick, now, NO_REPLIES)]
    {
      Enter(CallTick, now, NO_REPLIES, S.Tick(Model(), now));
      hide G.Stable, G.Run, Initialized, Step;
      hide OutboxModel, EventsModel, S.Reject;
      if reassembly.active && Reached(now, Wrap32(reassembly.started + ASSEMBLY_TIMEOUT_MS)) {
        Reject(MalformedMessage, now, true);
      } else if state == ChallengeIssued && Reached(now, identity.deadline) {
        Reject(ExpiredOrReplay, now, true);
      }
    }

    // ---------- Sessions ----------

    /** Draws both random values into the identity. */
    method DrawIdentity(env: Env) returns (filled: bool)
      modifies `identity
      ensures (identity, filled) == Randomize(old(identity), env)
    {
      var session := DrawUnique(env.sessionFills, identity.previousSession);
      identity := identity.(session := if session.Some? then session.value else 0);
      if session.None? {
        return false;
      }
      var nonce := DrawUnique(env.nonceFills, identity.previousNonce);
      identity := identity.(nonce := if nonce.Some? then nonce.value else 0);
      if nonce.None? {
        return false;
      }
      identity := identity.(previousSession := identity.session, previousNonce := identity.nonce, acl := env.activeAcl);
      filled := true;
    }

    method FailRandom(now: u32)
      requires Wired()
      modifies this, outputs, eventSequence, bridge, tracker
      ensures Wired() && history == old(history) && Model() == RandomFailed(old(Model()), now)
    {
      hide OutboxModel, EventsModel, S.Reject;
      rngReady, enabled := false, false;
      Reject(InternalFailClosed, now, true);
    }

    /** Announces a session whose identity was just drawn. */
    method Announce(now: u32)
      requires Wired()
      modifies this, eventSequence, bridge, tracker
      ensures Wired() && history == old(history) && Model() == S.Emit(Uncaused(old(Model())), GattConnected, Accepted, now, 0)
    {
      ClearCausation();
      hide Model, Uncaused, S.Emit;
      Emit(GattConnected, Accepted, now, 0);
    }

    method ClearCausation()
      requires Wired()
      modifies `lastCausation
      ensures Wired() && history == old(history) && Model() == Uncaused(old(Model()))
    {
      hide OutboxModel;
      lastCausation := 0;
    }

    method BeginAuth(env: Env) returns (open: bool)
      requires Wired()
      modifies `authControlActive, `log
      ensures Wired() && history == old(history) && (Model(), open) == OpenGate(old(Model()), env)
    {
      hide OutboxModel, EventsModel;
      authControlActive := authControlGate;
      if authControlActive {
        log := log + [S.BeginAuth(env.beginOk)];
        if env.beginOk {
          return true;
        }
      }
      AbortAuthControl();
      open := false;
    }

    /** Reports why a session is declined and ends it. */
    method Decline(reason: ResultReason, retryAfter: u32, now: u32)
      requires Wired()
      modifies this, outputs, eventSequence, bridge, tracker
      ensures Wired()
      ensures Model() == ResetPreservingOutputs(
                           S.Emit(S.QueueResult(old(Model()), reason, retryAfter), SessionTerminated, reason, now, 0))
      ensures history == old(history)
    {
      hide Model, S.QueueResult, S.Emit, ResetPreservingOutputs;
      QueueResult(reason, retryAfter);
      Emit(SessionTerminated, reason, now, 0);
      ResetSessionPreservingOutputs();
    }

    method BeginFastSession(owner: Owner, now: u32, env: Env) returns (begun: bool)
      requires Valid()
      modifies this, outputs, eventSequence, bridge, tracker
      ensures Valid() && (Model(), begun) == S.BeginFastSession(old(Model()), owner, now, env)
      ensures history == old(history) + [G.Input(CallBeginFastSession(owner), now, env)]
    {
      Enter(CallBeginFastSession(owner), now, env, S.BeginFastSession(Model(), owner, now, env).0);
      hide G.Stable, G.Run, Initialized, Step, S.BeginFastSession, OutboxModel, EventsModel;
      begun := OpenFast(owner, now, env);
    }

    method OpenFast(owner: Owner, now: u32, env: Env) returns (begun: bool)
      requires Wired()
      modifies this, outputs, eventSequence, bridge, tracker
      ensures Wired() && history == old(history) && (Model(), begun) == S.BeginFastSession(old(Model()), owner, now, env)
    {
      hide OutboxModel, EventsModel, S.Emit, Randomize, RandomFailed, S.StartFast, Uncaused;
      if !(enabled && rngReady) || !connectionActive || owner != connectionOwner || state != Idle {
        return false;
      }
      identity := identity.(protocol := FAST_PROTOCOL);
      var filled := DrawIdentity(env);
      if !filled {
        FailRandom(now);
        return false;
      }
      Announce(now);
      begun := StartFast(now, env);
    }

    method StartFast(now: u32, env: Env) returns (begun: bool)
      requires Wired()
      modifies this, outputs, eventSequence, bridge, tracker
      ensures Wired() && history == old(history) && (Model(), begun) == S.StartFast(old(Model()), now, env)
    {
      hide OutboxModel, EventsModel, S.QueueResult, S.Emit, ResetPreservingOutputs, OpenGate, RateLimiting, S.BuildChallenge;
      if otaBusy {
        Decline(Busy, 1000, now);
        return false;
      }
      if RateLimiting(ledger, now) {
        Decline(RateLimited, Sub32(ledger.backoffUntil, now), now);
        return false;
      }
      var open := BeginAuth(env);
      if !open {
        Decline(if authControlGate then Busy else InternalFailClosed, if authControlGate then 1000 else 0, now);
        return false;
      }
      identity := identity.(negotiation := FastTranscript);
      state := HelloReceived;
      BuildChallenge(now);
      begun := true;
    }

    method IssueChallenge(now: u32) returns (challenge: ChallengeData)
      requires Wired()
      modifies `identity, `state, `log
      ensures challenge == ChallengeFor(old(identity), now)
      ensures Wired() && history == old(history) && Model() == Issuing(old(Model()), challenge)
    {
      hide OutboxModel, EventsModel;
      challenge := ChallengeData(identity.protocol, identity.session, identity.nonce, identity.boot,
                                     Wrap32(now + CHALLENGE_LIFETIME_MS), identity.acl, identity.negotiation);
      identity := identity.(challenge := challenge, deadline := challenge.deadline);
      state := ChallengeIssued;
      log := log + [Issue(challenge)];
    }

    method BuildChallenge(now: u32)
      requires Wired()
      modifies this, outputs, eventSequence, bridge, tracker
      ensures Wired() && history == old(history) && Model() == S.BuildChallenge(old(Model()), now)
    {
      hide OutboxModel, EventsModel, S.Reject, S.Emit, S.Queue, ChallengeFor;
      if state != HelloReceived {
        Reject(SessionInvalid, now, true);
        return;
      }
      var challenge := IssueChallenge(now);
      var queued := Queue(if identity.protocol == FAST_PROTOCOL then FastChallenge else MessageType.Challenge,
                          ChallengeBody(challenge));
      Emit(ProofRequested, Accepted, now, 0);
    }

    method ProcessHello(p: seq<byte>, now: u32, env: Env) returns (accepted: bool)
      requires Wired()
      modifies this, outputs, eventSequence, bridge, tracker
      ensures Wired() && history == old(history) && (Model(), accepted) == S.ProcessHello(old(Model()), p, now, env)
    {
      hide OutboxModel, EventsModel, S.Reject, S.Emit, Randomize, RandomFailed, S.StartHello, Uncaused, HelloSupported, S.Queue;
      if |p| != CLIENT_HELLO_SIZE || state != Idle {
        Reject(MalformedMessage, now, true);
        return false;
      }
      if !HelloSupported(p) {
        var queued := Queue(TargetHello, HelloBody(0, 1));
        return false;
      }
      var filled := DrawIdentity(env);
      if !filled {
        FailRandom(now);
        return false;
      }
      identity := identity.(protocol := Min(Read16(p[2], p[3]), 1));
      state := HelloReceived;
      Announce(now);
      accepted := StartHello(p, now, env);
    }

    method StartHello(p: seq<byte>, now: u32, env: Env) returns (accepted: bool)
      requires Wired()
      modifies this, outputs, eventSequence, bridge, tracker
      ensures Wired() && history == old(history) && (Model(), accepted) == S.StartHello(old(Model()), p, now, env)
    {
      hide OutboxModel, EventsModel, S.Emit, ResetPreservingOutputs, OpenGate, S.BuildChallenge, S.Queue;
      var open := BeginAuth(env);
      if !open {
        var queued := Queue(TargetHello, HelloBody(0, 2));
        Emit(SessionTerminated, if authControlGate then Busy else InternalFailClosed, now, 0);
        ResetSessionPreservingOutputs();
        return false;
      }
      identity := identity.(negotiation := HelloTranscript(p));
      var queued := Queue(TargetHello, HelloBody(identity.protocol, 0));
      BuildChallenge(now);
      accepted := true;
    }

    // ---------- Proofs ----------

    method ProcessProof(p: seq<byte>, now: u32, env: Env) returns (accepted: bool)
      requires Wired()
      modifies this, outputs, eventSequence, bridge, tracker
      ensures Wired() && history == old(history) && (Model(), accepted) == S.ProcessProof(old(Model()), p, now, env)
    {
      hide OutboxModel, EventsModel, S.Reject, S.Judge, Reached, FromBigEndian;
      if state != ChallengeIssued {
        Reject(ExpiredOrReplay, now, true);
        return false;
      }
      state := Consumed;
      if |p| != PROOF_SIZE {
        Reject(MalformedMessage, now, true);
        return false;
      }
      if Reached(now, identity.deadline) {
        Reject(ExpiredOrReplay, now, true);
        return false;
      }
      if Read16(p[0], p[1]) != identity.protocol || FromBigEndian(p[2..18]) != identity.session {
        Reject(SessionInvalid, now, true);
        return false;
      }
      if !KnownAction(p[34]) {
        Reject(ProofInvalid, now, true);
        return false;
      }
      var request := VerifyRequest(Read16(p[0], p[1]), FromBigEndian(p[18..34]), p[34], FromBigEndian(p[35..39]),
                                   identity.challenge, p[39..103]);
      accepted := Judge(request, now, env);
    }

    method RecordVerdict(request: VerifyRequest, verdict: Verdict)
      requires Wired()
      modifies `identity, `log
      ensures Wired() && history == old(history) && Model() == Judged(old(Model()), request, verdict)
    {
      hide OutboxModel, EventsModel;
      identity := identity.(acl := verdict.acl);
      log := log + [Verify(request, verdict)];
    }

    method Judge(request: VerifyRequest, now: u32, env: Env) returns (accepted: bool)
      requires Wired()
      modifies this, outputs, eventSequence, bridge, tracker
      ensures Wired() && history == old(history) && (Model(), accepted) == S.Judge(old(Model()), request, now, env)
    {
      hide Model, S.Reject, S.Emit, S.Decide, PublicReason, Judged;
      RecordVerdict(request, env.verdict);
      if env.verdict.reason != Accepted {
        Reject(PublicReason(env.verdict.reason), now, true);
        return false;
      }
      Emit(ProofVerified, Accepted, now, request.credential);
      accepted := Decide(request.action, now, env);
    }

    method CommitAction(action: byte, env: Env) returns (committed: bool)
      requires Wired()
      modifies `log
      ensures committed == (authControlActive && authControlGate && env.commitOk)
      ensures Wired() && history == old(history) && Model() == Committing(old(Model()), action, env)
    {
      hide OutboxModel, EventsModel;
      committed := false;
      if authControlActive && authControlGate {
        log := log + [Commit(action, env.commitOk)];
        committed := env.commitOk;
      }
    }

    method Grant()
      requires Wired()
      modifies `state, `ledger
      ensures Wired() && history == old(history) && Model() == old(Model()).(state := Completed, ledger := Granting(old(ledger)))
    {
      hide OutboxModel, EventsModel;
      state := Completed;
      ledger := ledger.(failures := 0, granted := ledger.granted + 1);
    }

    method Decide(action: byte, now: u32, env: Env) returns (accepted: bool)
      requires Wired()
      modifies this, outputs, eventSequence, bridge, tracker
      ensures Wired() && history == old(history) && (Model(), accepted) == S.Decide(old(Model()), action, now, env)
    {
      hide OutboxModel, EventsModel, S.Reject, S.QueueResult, AbortControl, Granting;
      var committed := CommitAction(action, env);
      if !committed {
        AbortAuthControl();
        Reject(if authControlGate && env.commitRejection == Busy then Busy else InternalFailClosed, now, false);
        return false;
      }
      authControlActive := false;
      QueueResult(Accepted, 0);
      Grant();
      accepted := true;
    }

    method ProcessMessage(kind: MessageType, p: seq<byte>, now: u32, env: Env) returns (accepted: bool)
      requires Wired()
      modifies this, outputs, eventSequence, bridge, tracker
      ensures Wired() && history == old(history) && (Model(), accepted) == S.Process(old(Model()), kind, p, now, env)
    {
      hide OutboxModel, EventsModel, S.Reject, S.ProcessHello, S.ProcessProof;
      if kind == ClientHello {
        accepted := ProcessHello(p, now, env);
      } else if (kind == Proof && identity.protocol != FAST_PROTOCOL) || (kind == FastProof && identity.protocol == FAST_PROTOCOL) {
        accepted := ProcessProof(p, now, env);
      } else {
        Reject(MalformedMessage, now, true);
        accepted := false;
      }
    }

    // ---------- Frames ----------

    /** The reassembly part of `receiveFrame`, field by field. */
    method TakeFrame(expected: MessageType, f: seq<byte>, now: u32) returns (result: FrameResult)
      modifies `reassembly
      ensures result == AcceptFrame(old(reassembly), expected, f, now).1
      ensures result != Malformed ==> reassembly == AcceptFrame(old(reassembly), expected, f, now).0
    {
      hide Reached, WellFormed, TypeByte, Wrap32, Read16;
      var readable := HeaderUsable(expected, f);
      if !readable {
        return Malformed;
      }
      HeaderLength(expected, f);
      var index, count, total := f[6], f[7], Read16(f[8], f[9]);
      if !reassembly.active {
        if index != 0 {
          return Malformed;
        }
        reassembly := reassembly.(active := true, kind := expected, id := Read16(f[4], f[5]), count := count,
                                  total := total, started := now);
      } else if index + 1 == reassembly.next && f == reassembly.last {
        return Pending;
      }
      if Reached(now, Wrap32(reassembly.started + ASSEMBLY_TIMEOUT_MS)) || reassembly.kind != expected
         || reassembly.id != Read16(f[4], f[5]) || reassembly.count != count || reassembly.total != total
         || reassembly.next != index || |reassembly.bytes| + |f| - FRAME_HEADER_SIZE > total
      {
        return Malformed;
      }
      reassembly := reassembly.(bytes := reassembly.bytes + f[FRAME_HEADER_SIZE..], next := reassembly.next + 1, last := f);
      hide Fits;
      if index + 1 != count {
        return if |reassembly.bytes| >= total then Malformed else Pending;
      }
      if |reassembly.bytes| != total {
        return Malformed;
      }
      result := Complete(reassembly.kind, reassembly.bytes);
      reassembly := CLEARED;
    }

    /** What an enabled, undisturbed core does with a frame. */
    method HandleFrame(expected: MessageType, f: seq<byte>, now: u32, env: Env) returns (accepted: bool)
      requires Wired()
      modifies this, outputs, eventSequence, bridge, tracker
      ensures Wired() && history == old(history) && (Model(), accepted) == S.HandleFrame(old(Model()), expected, f, now, env)
    {
      hide OutboxModel, EventsModel, S.Reject, S.Process, AcceptFrame;
      ghost var before := Model();
      var result := TakeFrame(expected, f, now);
      assert Model() == before.(reassembly := reassembly);
      hide Model;
      if result == Malformed {
        RejectIgnoresReassembly(before, reassembly, MalformedMessage, now);
        Reject(MalformedMessage, now, true);
        return false;
      }
      if result == Pending {
        return true;
      }
      accepted := ProcessMessage(result.kind, result.payload, now, env);
    }

    method ReceiveFrame(expected: MessageType, owner: Owner, f: seq<byte>, now: u32, env: Env) returns (accepted: bool)
      requires Valid()
      modifies this, outputs, eventSequence, bridge, tracker
      ensures Valid() && (Model(), accepted) == S.ReceiveFrame(old(Model()), expected, owner, f, now, env)
      ensures history == old(history) + [G.Input(CallReceiveFrame(expected, owner, f), now, env)]
    {
      Enter(CallReceiveFrame(expected, owner, f), now, env, S.ReceiveFrame(Model(), expected, owner, f, now, env).0);
      hide G.Stable, G.Run, Initialized, Step;
      hide OutboxModel, EventsModel, S.QueueResult, S.HandleFrame, RateLimiting;
      if !(enabled && rngReady) || !connectionActive || owner != connectionOwner {
        return false;
      }
      if otaBusy {
        QueueResult(Busy, 1000);
        return false;
      }
      if state == Completed {
        QueueResult(ExpiredOrReplay, 0);
        return false;
      }
      if RateLimiting(ledger, now) {
        QueueResult(RateLimited, Sub32(ledger.backoffUntil, now));
        return false;
      }
      accepted := HandleFrame(expected, f, now, env);
    }

    /** Others draw numbers from the shared allocator. */
    method AdvanceSequence(used: u64)
      requires Valid()
      modifies `history, eventSequence
      ensures Valid() && Model() == S.AdvanceSequence(old(Model()), used)
      ensures history == old(history) + [G.Input(CallAdvance(used), 0, NO_REPLIES)]
    {
      Enter(CallAdvance(used), 0, NO_REPLIES, S.AdvanceSequence(Model(), used));
      hide G.Stable, G.Run, Initialized, Step, OutboxModel;
      eventSequence.Advance(used);
    }

    // ---------- Lifecycle of the verified session ----------

    method ForwardLifecycle(code: EventCode, reason: EventReason, now: u64) returns (emitted: bool)
      modifies bridge, tracker
      ensures SinkModel() == Living(old(SinkModel()), code, reason, now)
      ensures emitted == Lifecycle(old(bridge.Model()), code, reason, now).1.Some?
    {
      emitted := bridge.EmitLifecycle(code, reason, now);
      if emitted {
        var terminal, mask := tracker.Observe(bridge.downstream[|bridge.downstream| - 1]);
      } else {
        assert bridge.downstream == old(bridge.downstream);
        hide Observing;
      }
    }

    /** The bridge numbers one lifecycle event; the shared allocator follows. */
    method EmitLifecycle(code: LifecycleCode, reason: EventReason, now: u64) returns (emitted: bool)
      requires Valid()
      modifies `history, eventSequence, bridge, tracker
      ensures Valid() && Model() == LifecycleEvent(old(Model()), code, reason, now)
      ensures emitted == Lifecycle(old(bridge.Model()), code, reason, now).1.Some?
      ensures history == old(history) + [G.Input(CallLifecycle(code, reason, now), 0, NO_REPLIES)]
    {
      Enter(CallLifecycle(code, reason, now), 0, NO_REPLIES, LifecycleEvent(Model(), code, reason, now));
      hide G.Stable, G.Run, Initialized, Step, LifecycleEvent, OutboxModel, EventsModel;
      emitted := Relay(code, reason, now);
    }

    method Relay(code: LifecycleCode, reason: EventReason, now: u64) returns (emitted: bool)
      requires Wired()
      modifies `history, eventSequence, bridge, tracker
      ensures Wired() && history == old(history) && Model() == LifecycleEvent(old(Model()), code, reason, now)
      ensures emitted == Lifecycle(old(bridge.Model()), code, reason, now).1.Some?
    {
      hide OutboxModel, Lifecycle, Living;
      emitted := ForwardLifecycle(code, reason, now);
      eventSequence.Advance(bridge.sequenceHighWater);
    }
  }

  lemma CallIsAnswered(core: ProtocolCore, call: Call, now: u32, env: Env)
    requires core.Valid() && A.Answered(call)
    ensures A.Answers(core.Model(), now, Step(core.Model(), call, now, env), A.AnswerTo(core.Model(), call, now, env))
  {
    hide A.Answers, A.AnswerTo, Step, G.Stable, G.Run;
    A.StepAnswers(core.Model(), call, now, env);
  }

  /** One call of any kind. */
  method Perform(core: ProtocolCore, call: Call, now: u32, env: Env)
    requires core.Valid()
    modifies core, core.outputs, core.eventSequence, core.bridge, core.tracker
    ensures core.Valid() && core.Model() == Step(old(core.Model()), call, now, env)
    ensures |core.history| == |old(core.history)| + 1
    ensures A.Answered(call) ==> A.Answers(old(core.Model()), now, core.Model(), A.AnswerTo(old(core.Model()), call, now, env))
  {
    hide A.Answers, A.AnswerTo, G.Stable, G.Run, S.SetEnabled, S.SetOtaBusy, S.Connect, S.Disconnect, S.AbortTransport, S.Tick, S.PopOutput,
         S.BeginFastSession, S.ReceiveFrame, LifecycleEvent, S.AdvanceSequence, ProtocolCore.Model, ProtocolCore.Valid;
    if A.Answered(call) {
      CallIsAnswered(core, call, now, env);
    }
    match call {
      case CallSetEnabled(on) => core.SetEnabled(on);
      case CallSetOtaBusy(busy) => core.SetOtaBusy(busy, now);
      case CallConnect(handle) => var accepted := core.Connect(handle);
      case CallDisconnect(owner) => core.Disconnect(owner, now);
      case CallAbortTransport(owner, reason) => core.AbortTransport(owner, reason, now);
      case CallTick => core.Tick(now);
      case CallPopOutput => var output := core.PopOutput();
      case CallAdvance(used) => core.AdvanceSequence(used);
      case CallBeginFastSession(owner) => var begun := core.BeginFastSession(owner, now, env);
      case CallReceiveFrame(kind, owner, frame) => var accepted := core.ReceiveFrame(kind, owner, frame, now, env);
      case CallLifecycle(code, reason, monotonic) => var emitted := core.EmitLifecycle(code, reason, monotonic);
    }
  }

  lemma HeaderLength(expected: MessageType, f: seq<byte>)
    requires WellFormed(expected, f)
    ensures |f| > FRAME_HEADER_SIZE && f[6] < f[7]
  {
  }

  /** Whether the ten header bytes describe a frame of the expected type. */
  method HeaderUsable(expected: MessageType, f: seq<byte>) returns (usable: bool)
    ensures usable <==> WellFormed(expected, f)
  {
    if |f| <= FRAME_HEADER_SIZE || |f| > MAX_FRAME_SIZE {
      return false;
    }
    if f[0] != 83 || f[1] != 71 || f[2] != 1 || f[3] != TypeByte(expected) {
      return false;
    }
    var id, index, count, total := Read16(f[4], f[5]), f[6], f[7], Read16(f[8], f[9]);
    usable := !(id == 0 || count == 0 || index >= count || total == 0 || total > MAX_MESSAGE_SIZE);
  }

  /** `randomUnique`: up to four fills, keeping the first usable one. */
  method DrawUnique(fills: seq<Option<nat>>, previous: nat) returns (drawn: Option<nat>)
    ensures drawn == RandomUnique(fills, previous, 4)
  {
    var attempt := 0;
    while attempt < 4 && attempt < |fills|
      invariant 0 <= attempt <= 4 && attempt <= |fills|
      invariant RandomUnique(fills, previous, 4) == RandomUnique(fills[attempt..], previous, 4 - attempt)
    {
      if fills[attempt].Some? && fills[attempt].value != 0 && fills[attempt].value != previous {
        return fills[attempt];
      }
      attempt := attempt + 1;
    }
    drawn := None;
  }
}
