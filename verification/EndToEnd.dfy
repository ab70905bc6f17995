/** From frames on the air to the message handler of a listening core. */
module EndToEnd {
  import opened Wrappers
  import opened Words
  import opened Framing
  import opened Session
  import opened AccessEvents
  import opened SessionGate
  import opened SessionDeadline
  import A = Adapter

  /** The frames of a message in order of delivery. */
  function FramesOf(m: Message, capacity: nat, order: seq<nat>): (f: seq<seq<byte>>)
    requires Sendable(m, capacity) && forall i | 0 <= i < |order| :: order[i] < FragmentCount(|m.payload|, capacity)
    ensures |f| == |order|
  {
    seq(|order|, i requires 0 <= i < |order| => FrameOf(m, capacity, order[i]))
  }

  /** The frames of indications in order of delivery. */
  function FramesSent(sent: seq<A.Indication>, order: seq<nat>): (f: seq<seq<byte>>)
    requires forall i | 0 <= i < |order| :: order[i] < |sent|
    ensures |f| == |order|
  {
    seq(|order|, i requires 0 <= i < |order| => sent[order[i]].frame)
  }

  /** The core after `receiveFrame` has seen the first `k` frames, and its last
      answer. */
  ghost function Received(c: Core, owner: Owner, kind: MessageType, frames: seq<seq<byte>>, times: seq<nat>, env: Env, k: nat): (Core, bool)
    requires k <= |frames| == |times|
  {
    if k == 0 then (c, true)
    else ReceiveFrame(Received(c, owner, kind, frames, times, env, k - 1).0, kind, owner, frames[k - 1], Wrap32(times[k - 1]), env)
  }

  /** The same frames given to a reassembly alone. */
  ghost function Joined(r: Reassembly, kind: MessageType, frames: seq<seq<byte>>, times: seq<nat>, k: nat): (Reassembly, FrameResult)
    requires k <= |frames| == |times|
  {
    if k == 0 then (r, Pending)
    else AcceptFrame(Joined(r, kind, frames, times, k - 1).0, kind, frames[k - 1], Wrap32(times[k - 1]))
  }

  /** Until a frame completes a message only the reassembly moves. */
  lemma {:induction false} OnlyReassemblyMoves(c: Core, owner: Owner, kind: MessageType, frames: seq<seq<byte>>, times: seq<nat>,
                                               env: Env, k: nat)
    requires k < |frames| == |times|
    requires forall i | 0 <= i < |times| :: Listening(c, owner, Wrap32(times[i]))
    requires forall i | 0 < i <= k :: Joined(c.reassembly, kind, frames, times, i).1 == Pending
    ensures Received(c, owner, kind, frames, times, env, k)
            == (c.(reassembly := Joined(c.reassembly, kind, frames, times, k).0), true)
  {
    if k > 0 {
      OnlyReassemblyMoves(c, owner, kind, frames, times, env, k - 1);
      assert Joined(c.reassembly, kind, frames, times, k).1 == Pending;
      assert Listening(c, owner, Wrap32(times[k - 1]));
      hide AcceptFrame, Reject, Process, QueueResult;
    }
  }

  /** The core's own reassembly answers the last frame with this message, and
      the core does with it what its handler does. */
  ghost predicate Handed(c: Core, owner: Owner, kind: MessageType, payload: seq<byte>, frames: seq<seq<byte>>, times: seq<nat>, env: Env)
    requires 0 < |frames| == |times|
  {
    var last := |frames| - 1;
    var before := Received(c, owner, kind, frames, times, env, last).0;
    && AcceptFrame(before.reassembly, kind, frames[last], Wrap32(times[last])) == (CLEARED, Complete(kind, payload))
    && Received(c, owner, kind, frames, times, env, |frames|) == Process(c, kind, payload, Wrap32(times[last]), env)
  }

  lemma CompletedIsHanded(c: Core, owner: Owner, kind: MessageType, payload: seq<byte>, frames: seq<seq<byte>>, times: seq<nat>, env: Env)
    requires 0 < |frames| == |times| && c.reassembly == CLEARED
    requires forall i | 0 <= i < |times| :: Listening(c, owner, Wrap32(times[i]))
    requires forall i | 0 < i < |frames| :: Joined(CLEARED, kind, frames, times, i).1 == Pending
    requires Joined(CLEARED, kind, frames, times, |frames|) == (CLEARED, Complete(kind, payload))
    ensures Handed(c, owner, kind, payload, frames, times, env)
  {
    hide AcceptFrame, Listening, ReceiveFrame, Process, Wrap32;
    var last := |frames| - 1;
    OnlyReassemblyMoves(c, owner, kind, frames, times, env, last);
    CompletingFrame(c, Joined(CLEARED, kind, frames, times, last).0, owner, kind, payload, frames[last], Wrap32(times[last]), env);
  }

  lemma CompletingFrame(c: Core, r: Reassembly, owner: Owner, kind: MessageType, payload: seq<byte>, f: seq<byte>, now: u32, env: Env)
    requires c.reassembly == CLEARED && Listening(c, owner, now)
    requires AcceptFrame(r, kind, f, now) == (CLEARED, Complete(kind, payload))
    ensures ReceiveFrame(c.(reassembly := r), kind, owner, f, now, env) == Process(c, kind, payload, now, env)
  {
    hide AcceptFrame, Reject, Process, QueueResult, RateLimiting;
    assert c.(reassembly := r).(reassembly := CLEARED) == c;
  }

  lemma {:induction false} JoinedIsDeliver(m: Message, capacity: nat, order: seq<nat>, times: seq<nat>, k: nat)
    requires Sendable(m, capacity) && k <= |order| == |times|
    requires forall i | 0 <= i < |order| :: order[i] < FragmentCount(|m.payload|, capacity)
    ensures Joined(CLEARED, m.kind, FramesOf(m, capacity, order), times, k) == Deliver(CLEARED, m, capacity, order, times, k)
  {
    hide AcceptFrame, FrameOf, FragmentCount;
    if k > 0 {
      JoinedIsDeliver(m, capacity, order, times, k - 1);
    }
  }

  /** Every transportable message of any kind, cut into its frames and delivered
      in order with any immediate repeats before the last, reaches the handler
      of a core that listens throughout, with exactly its payload. */
  lemma DeliveredMessageIsProcessed(m: Message, capacity: nat, order: seq<nat>, times: seq<nat>, c: Core, owner: Owner, env: Env)
    requires Transportable(m, capacity)
    requires Schedule(order, FragmentCount(|m.payload|, capacity)) && InTime(times, |order|)
    requires c.reassembly == CLEARED
    requires forall i | 0 <= i < |times| :: Listening(c, owner, Wrap32(times[i]))
    ensures forall i | 0 <= i < |order| :: order[i] < FragmentCount(|m.payload|, capacity)
    ensures Handed(c, owner, m.kind, m.payload, FramesOf(m, capacity, order), times, env)
  {
    A.ScheduleBound(order, FragmentCount(|m.payload|, capacity));
    ReassemblyInvertsFragmentation(m, capacity, order, times);
    var frames := FramesOf(m, capacity, order);
    forall k | 0 <= k <= |order|
      ensures Joined(CLEARED, m.kind, frames, times, k) == Deliver(CLEARED, m, capacity, order, times, k)
    {
      JoinedIsDeliver(m, capacity, order, times, k);
    }
    hide Joined, Deliver, FramesOf, Listening, Handed;
    CompletedIsHanded(c, owner, m.kind, m.payload, frames, times, env);
  }

  lemma {:induction false} JoinedIsFed(kind: MessageType, sent: seq<A.Indication>, order: seq<nat>, times: seq<nat>, k: nat)
    requires k <= |order| == |times| && forall i | 0 <= i < |order| :: order[i] < |sent|
    ensures Joined(CLEARED, kind, FramesSent(sent, order), times, k) == A.Fed(CLEARED, kind, sent, order, times, k)
  {
    hide AcceptFrame;
    if k > 0 {
      JoinedIsFed(kind, sent, order, times, k - 1);
    }
  }

  /** Every message the transport reports confirmed was indicated in frames that
      hand a core that listens throughout exactly the staged payload, whatever
      the immediate repeats of frames before the last. */
  lemma ConfirmedMessageIsProcessed(inputs: seq<A.Input>, token: A.Token, kind: MessageType, success: bool,
                                    c: Core, owner: Owner, order: seq<nat>, times: seq<nat>, env: Env)
    requires A.Confirming(A.Run(inputs).state, token, kind, success).1 == A.MessageConfirmed
    requires var t := A.Run(inputs + [A.Confirm(token, kind, success)]);
             && t.staged.Some? && t.staged.value.message.id != 0
             && (forall mtu | mtu in A.Mtus(inputs) :: mtu <= 515)
             && Schedule(order, |t.indicated|) && InTime(times, |order|)
    requires c.reassembly == CLEARED
    requires forall i | 0 <= i < |times| :: Listening(c, owner, Wrap32(times[i]))
    ensures var t := A.Run(inputs + [A.Confirm(token, kind, success)]);
            && (forall k | 0 <= k < |order| :: order[k] < |t.indicated|)
            && Handed(c, owner, kind, t.staged.value.message.payload, FramesSent(t.indicated, order), times, env)
  {
    var t := A.Run(inputs + [A.Confirm(token, kind, success)]);
    A.ConfirmedFramesReassemble(inputs, token, kind, success, order, times);
    A.PendingBeforeLast(inputs, token, kind, success, order, times);
    forall k | 0 <= k <= |order|
      ensures Joined(CLEARED, kind, FramesSent(t.indicated, order), times, k) == A.Fed(CLEARED, kind, t.indicated, order, times, k)
    {
      JoinedIsFed(kind, t.indicated, order, times, k);
    }
    hide Joined, A.Fed, FramesSent, Listening, Handed, A.Run, A.Confirming;
    CompletedIsHanded(c, owner, kind, t.staged.value.message.payload, FramesSent(t.indicated, order), times, env);
  }

  // ---------- What the handler then does with the payload ----------

  /** A delivered proof is put to the verifier exactly if it is timely, then with
      exactly the fields of the sender's payload and the challenge issued. */
  lemma DeliveredProofIsVerified(m: Message, capacity: nat, order: seq<nat>, times: seq<nat>, c: Core, owner: Owner, env: Env)
    requires Transportable(m, capacity)
    requires Schedule(order, FragmentCount(|m.payload|, capacity)) && InTime(times, |order|)
    requires Stable(c) && c.reassembly == CLEARED
    requires forall i | 0 <= i < |times| :: Listening(c, owner, Wrap32(times[i]))
    requires m.kind == (if c.id.protocol == FAST_PROTOCOL then FastProof else Proof)
    ensures forall i | 0 <= i < |order| :: order[i] < FragmentCount(|m.payload|, capacity)
    ensures var next := Received(c, owner, m.kind, FramesOf(m, capacity, order), times, env, |order|).0;
            if Timely(c, m.payload, Wrap32(times[|times| - 1]))
            then LogsOne(c.log, next.log, Verify(RequestOf(m.payload, c.id.challenge), env.verdict))
            else Murmurs(c.log, next.log)
  {
    hide Transportable, ProcessProof, Stable, Timely, Received, FramesOf, AcceptFrame, Listening, LogsOne, Murmurs;
    DeliveredMessageIsProcessed(m, capacity, order, times, c, owner, env);
    ProcessProofLogs(c, m.payload, Wrap32(times[|times| - 1]), env);
  }

  /** A delivered hello that is answered with a challenge binds that challenge
      to exactly the sender's payload. */
  lemma DeliveredHelloIsBound(m: Message, capacity: nat, order: seq<nat>, times: seq<nat>, c: Core, owner: Owner, env: Env)
    requires Transportable(m, capacity) && m.kind == ClientHello
    requires Schedule(order, FragmentCount(|m.payload|, capacity)) && InTime(times, |order|)
    requires c.reassembly == CLEARED
    requires forall i | 0 <= i < |times| :: Listening(c, owner, Wrap32(times[i]))
    ensures forall i | 0 <= i < |order| :: order[i] < FragmentCount(|m.payload|, capacity)
    ensures var (next, accepted) := Received(c, owner, m.kind, FramesOf(m, capacity, order), times, env, |order|);
            accepted ==> next.state == ChallengeIssued && next.id.challenge.negotiation == HelloTranscript(m.payload)
  {
    DeliveredMessageIsProcessed(m, capacity, order, times, c, owner, env);
    HelloBinds(c, m.payload, Wrap32(times[|times| - 1]), env);
    hide ProcessHello, Received, FramesOf, AcceptFrame, Listening;
  }

  lemma HelloBinds(c: Core, p: seq<byte>, now: u32, env: Env)
    ensures var (next, accepted) := ProcessHello(c, p, now, env);
            accepted ==> next.state == ChallengeIssued && next.id.challenge.negotiation == HelloTranscript(p)
  {
    hide Reject, Emit, StartHello, HelloSupported, Randomize, RandomFailed;
    if |p| == CLIENT_HELLO_SIZE && c.state == Idle && HelloSupported(p) && Randomize(c.id, env).1 {
      var id := Randomize(c.id, env).0;
      var named := Uncaused(c.(id := id.(protocol := Min(Read16(p[2], p[3]), 1)), state := HelloReceived));
      EmitKeepsSession(named, GattConnected, now);
      StartHelloBinds(Emit(named, GattConnected, Accepted, now, 0), p, now, env);
    }
  }

  lemma EmitKeepsSession(c: Core, code: EventCode, now: u32)
    ensures var e := Emit(c, code, Accepted, now, 0); e.id == c.id && e.state == c.state
  {
    hide Sending, Stamped;
  }

  lemma StartHelloBinds(c: Core, p: seq<byte>, now: u32, env: Env)
    requires c.state == HelloReceived
    ensures var (next, accepted) := StartHello(c, p, now, env);
            accepted ==> next.state == ChallengeIssued && next.id.challenge.negotiation == HelloTranscript(p)
  {
    hide Emit, Posted, Reject;
    var (g, open) := OpenGate(c, env);
    if open {
      var q := Queue(g.(id := g.id.(negotiation := HelloTranscript(p))), TargetHello, HelloBody(g.id.protocol, 0));
      var ch := ChallengeFor(q.id, now);
      EmitKeepsSession(Queue(Issuing(q, ch), if q.id.protocol == FAST_PROTOCOL then FastChallenge else MessageType.Challenge, ChallengeBody(ch)),
                       ProofRequested, now);
    }
  }
}
