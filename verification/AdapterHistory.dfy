/** The adapter told by its history: who is connected and subscribed, when
    output is staged, indicated, confirmed and dropped
    (src/GattProtocol.cpp, `AdapterState`). */
module AdapterHistory {
  import opened Wrappers
  import opened Words
  import opened Framing
  import opened Adapter

  // ---------- Connection and subscriptions ----------

  /** Who is connected after these calls. */
  ghost function Joined(inputs: seq<Input>): Option<Owner> {
    if inputs == [] then None
    else
      var before, last := Joined(inputs[..|inputs| - 1]), inputs[|inputs| - 1];
      match last
      case Accept(o) => if before.None? && o.generation != 0 then Some(o) else before
      case Disconnect(handle) => if before.Some? && before.value.handle == handle then None else before
      case _ => before
  }

  /** The channel is subscribed: what its client said last since connecting. */
  ghost predicate Listens(inputs: seq<Input>, c: Channel) {
    if inputs == [] then false
    else
      var front, last := inputs[..|inputs| - 1], inputs[|inputs| - 1];
      match last
      case Accept(_) => Listens(front, c) && Joined(inputs) == Joined(front)
      case Disconnect(_) => Listens(front, c) && Joined(inputs) == Joined(front)
      case Subscribe(handle, kind, on) =>
        if Joined(front).Some? && Joined(front).value.handle == handle && ChannelOf(kind) == Some(c) then on else Listens(front, c)
      case _ => Listens(front, c)
  }

  lemma ChannelsAre()
    ensures ChannelOf(TargetHello) == Some(HelloChannel) && ChannelOf(Challenge) == Some(ChallengeChannel)
    ensures ChannelOf(Result) == Some(ResultChannel) == ChannelOf(ErrorMessage)
    ensures ChannelOf(FastChallenge) == Some(FastChannel) == ChannelOf(FastResult)
    ensures ChannelOf(ClientHello) == None == ChannelOf(Proof) && ChannelOf(FastProof) == None
  {
  }

  /** What of a run its history knows. */
  ghost predicate Known(inputs: seq<Input>) {
    var s := Run(inputs).state;
    && s.owner == (if Joined(inputs).Some? then Joined(inputs).value else Owner(0, 0))
    && (Joined(inputs).Some? ==> Joined(inputs).value.generation != 0)
    && (forall c :: c in s.channels <==> Listens(inputs, c))
    && (s.output.Some? ==> Joined(inputs) == Some(s.output.value.owner))
  }

  lemma {:induction false} RunIsKnown(inputs: seq<Input>)
    ensures Known(inputs)
  {
    if inputs != [] {
      var front, last := inputs[..|inputs| - 1], inputs[|inputs| - 1];
      RunIsKnown(front);
      assert front + [last] == inputs;
      hide Known, Run, Joined, Listens;
      InputKnown(front, last);
    }
  }

  lemma RunNext(front: seq<Input>, last: Input)
    ensures Run(front + [last]) == Track(Run(front), last)
  {
    assert (front + [last])[..|front|] == front;
  }

  lemma JoinedNext(front: seq<Input>, last: Input)
    ensures Joined(front + [last]) == match last
                                      case Accept(o) => if Joined(front).None? && o.generation != 0 then Some(o) else Joined(front)
                                      case Disconnect(handle) =>
                                        if Joined(front).Some? && Joined(front).value.handle == handle then None else Joined(front)
                                      case _ => Joined(front)
  {
    assert (front + [last])[..|front|] == front;
  }

  lemma ListensNext(front: seq<Input>, last: Input, c: Channel)
    ensures Listens(front + [last], c) ==
              match last
              case Accept(_) => Listens(front, c) && Joined(front + [last]) == Joined(front)
              case Disconnect(_) => Listens(front, c) && Joined(front + [last]) == Joined(front)
              case Subscribe(handle, kind, on) =>
                if Joined(front).Some? && Joined(front).value.handle == handle && ChannelOf(kind) == Some(c) then on else Listens(front, c)
              case _ => Listens(front, c)
  {
    assert (front + [last])[..|front|] == front;
  }

  lemma InputKnown(front: seq<Input>, last: Input)
    requires Known(front)
    ensures Known(front + [last])
  {
    hide Run, Joined, Listens, FrameOf, FragmentCount, PayloadCapacity, ChannelOf, Sendable;
    RunNext(front, last);
    JoinedNext(front, last);
    forall c ensures c in Run(front + [last]).state.channels <==> Listens(front + [last], c) {
      ListensNext(front, last, c);
    }
  }

  /** Over every run the owner is who is connected. */
  lemma OwnerIs(inputs: seq<Input>)
    ensures Run(inputs).state.owner == if Joined(inputs).Some? then Joined(inputs).value else Owner(0, 0)
    ensures forall o :: Accepting(Run(inputs).state, o).1 <==> Joined(inputs).None? && o.generation != 0
  {
    RunIsKnown(inputs);
    hide Run, Joined;
  }

  /** A client is subscribed exactly to what it said last. */
  lemma SubscriptionIs(inputs: seq<Input>, owner: Owner, kind: MessageType)
    ensures Subscribed(Run(inputs).state, owner, kind) <==>
              Joined(inputs) == Some(owner) && ChannelOf(kind).Some? && Listens(inputs, ChannelOf(kind).value)
    ensures forall handle, on ::
              Subscribing(Run(inputs).state, handle, kind, on).1 <==>
                Joined(inputs).Some? && Joined(inputs).value.handle == handle && ChannelOf(kind).Some?
  {
    RunIsKnown(inputs);
    hide Run, Joined, Listens, ChannelOf;
  }

  // ---------- Output ----------

  /** Output is staged exactly while there is none, for the connected and
      subscribed owner, and of a size that fits. */
  lemma StagesExactly(inputs: seq<Input>, o: Output)
    ensures var s := Run(inputs).state;
            var (next, staged) := Staging(s, o);
            && (staged <==> s.output.None? && Joined(inputs) == Some(o.owner) && 1 <= |o.message.payload| <= 2048
                            && ChannelOf(o.message.kind).Some? && Listens(inputs, ChannelOf(o.message.kind).value))
            && (!staged ==> next == s)
            && (staged ==> next.output == Some(o) && !next.pending && next.index == 0 && next.capacity == 0
                           && next.generation == (if s.generation == 0xFFFF_FFFF_FFFF_FFFF then 0 else s.generation + 1)
                           && next.owner == s.owner && next.channels == s.channels)
  {
    SubscriptionIs(inputs, o.owner, o.message.kind);
    RunIsKnown(inputs);
    hide Run, Joined, Listens, ChannelOf, Subscribed;
  }

  /** The payload bytes one indication carries. */
  function Carries(mtu: u16): nat { if mtu > 13 then mtu - 13 else 1 }

  /** The next fragment is indicated exactly while output waits for an
      indication over a link that cuts it as before into at most 255 parts,
      and the part fits the caller's buffer. */
  lemma BeginsExactly(inputs: seq<Input>, mtu: u16, now: u32, room: nat)
    ensures var (t, p) := (Run(inputs), Carries(mtu));
            var (s, k) := (t.state, |t.confirmed|);
            var i := Beginning(s, mtu, now, room).1;
            s.output.None? || s.pending ==> i.None?
    ensures var (t, p) := (Run(inputs), Carries(mtu));
            var (s, k) := (t.state, |t.confirmed|);
            var (next, i) := Beginning(s, mtu, now, room);
            s.output.Some? && !s.pending ==>
              var m := s.output.value.message;
              var rest := |m.payload| - k * p;
              && (i.Some? <==>
                    ChannelOf(m.kind).Some? && Listens(inputs, ChannelOf(m.kind).value) && (|m.payload| + p - 1) / p <= 255
                    && (s.capacity == 0 || s.capacity == p) && 10 + (if rest < p then rest else p) <= room)
              && (i.Some? ==>
                    Sendable(m, p) && k < FragmentCount(|m.payload|, p)
                    && i.value == Indication(FrameOf(m, p, k), m.kind, Token(s.output.value.owner, s.generation, k))
                    && next.pending && next.deadline == Wrap32(now + 1200) && next.output == s.output && next.index == k)
  {
    RunIsKnown(inputs);
    RunFollows(inputs);
    hide Run, Joined, Listens, ChannelOf;
    var (t, p) := (Run(inputs), Carries(mtu));
    if t.state.output.Some? && !t.state.pending {
      BeginsAt(t, Joined(inputs), mtu, now, room);
    }
  }

  lemma BeginsAt(t: Tracked, joined: Option<Owner>, mtu: u16, now: u32, room: nat)
    requires Follows(t) && t.state.output.Some? && !t.state.pending
    requires joined == Some(t.state.output.value.owner) && t.state.owner == joined.value && joined.value.generation != 0
    ensures var (s, k, p, m) := (t.state, |t.confirmed|, Carries(mtu), t.state.output.value.message);
            var (next, i) := Beginning(s, mtu, now, room);
            var rest := |m.payload| - k * p;
            && (i.Some? <==>
                  ChannelOf(m.kind).Some? && ChannelOf(m.kind).value in s.channels && (|m.payload| + p - 1) / p <= 255
                  && (s.capacity == 0 || s.capacity == p) && 10 + (if rest < p then rest else p) <= room)
            && (i.Some? ==>
                  Sendable(m, p) && k < FragmentCount(|m.payload|, p)
                  && i.value == Indication(FrameOf(m, p, k), m.kind, Token(s.output.value.owner, s.generation, k))
                  && next.pending && next.deadline == Wrap32(now + 1200) && next.output == s.output && next.index == k)
  {
    hide ChannelOf, Prefix, FrameOf;
    var (s, k, p, m) := (t.state, |t.confirmed|, Carries(mtu), t.state.output.value.message);
    CountBounds(|m.payload|, p);
    if Sendable(m, p) && k < FragmentCount(|m.payload|, p) {
      FrameSize(m, p, k);
    }
  }

  lemma FrameSize(m: Message, p: nat, k: nat)
    requires Sendable(m, p) && k < FragmentCount(|m.payload|, p)
    ensures k * p < |m.payload| && |FrameOf(m, p, k)| == 10 + if |m.payload| - k * p < p then |m.payload| - k * p else p
  {
    FragmentBounds(|m.payload|, p, k);
  }

  /** The confirmation of the indication that waits: its token, of a client and
      an output generation that are not zero, and its kind. */
  ghost predicate Honoured(t: Tracked, token: Token, kind: MessageType) {
    && t.state.output.Some? && |t.indicated| == |t.confirmed| + 1
    && token == t.indicated[|t.confirmed|].token && kind == t.indicated[|t.confirmed|].kind && token.outputGeneration != 0
  }

  /** How many parts the message staged has at the link it is sent over. */
  ghost function Parts(t: Tracked): nat
    requires t.state.output.Some? && t.state.capacity > 0
  {
    (|t.state.output.value.message.payload| + t.state.capacity - 1) / t.state.capacity
  }

  /** Exactly such a confirmation moves on to the next part, or ends the message:
      confirmed with its last part, and aborted if it failed. */
  lemma ConfirmsExactly(inputs: seq<Input>, token: Token, kind: MessageType, success: bool)
    ensures var t := Run(inputs);
            var (next, r) := Confirming(t.state, token, kind, success);
            && (r == Ignored <==> !Honoured(t, token, kind))
            && (r == Ignored ==> next == t.state)
            && (Honoured(t, token, kind) ==>
                  && t.state.capacity > 0
                  && r == (if !success then Aborted else if |t.confirmed| + 1 == Parts(t) then MessageConfirmed else FragmentConfirmed)
                  && (r == FragmentConfirmed ==> next == t.state.(pending := false, deadline := 0, index := |t.confirmed| + 1))
                  && (r != FragmentConfirmed ==> next.output.None? && !next.pending && next.owner == t.state.owner && next.channels == t.state.channels))
  {
    RunIsKnown(inputs);
    RunFollows(inputs);
    hide Run, Joined, Listens;
    var t := Run(inputs);
    if t.state.output.Some? {
      ConfirmsAt(t, token, kind, success);
    }
  }

  lemma ConfirmsAt(t: Tracked, token: Token, kind: MessageType, success: bool)
    requires Follows(t) && t.state.output.Some? && t.state.owner == t.state.output.value.owner && t.state.owner.generation != 0
    ensures var (next, r) := Confirming(t.state, token, kind, success);
            && (r == Ignored <==> !Honoured(t, token, kind))
            && (r == Ignored ==> next == t.state)
            && (Honoured(t, token, kind) ==>
                  && t.state.capacity > 0
                  && r == (if !success then Aborted else if |t.confirmed| + 1 == Parts(t) then MessageConfirmed else FragmentConfirmed)
                  && (r == FragmentConfirmed ==> next == t.state.(pending := false, deadline := 0, index := |t.confirmed| + 1))
                  && (r != FragmentConfirmed ==> next.output.None? && !next.pending && next.owner == t.state.owner && next.channels == t.state.channels))
  {
    hide FrameOf;
  }

  /** Output ends exactly when it is aborted, its client disconnects, its last
      part is confirmed or an indication fails. */
  lemma EndsExactly(inputs: seq<Input>, i: Input)
    requires Run(inputs).state.output.Some?
    ensures Run(inputs + [i]).state.output.None? <==>
              || i.Abort?
              || (i.Disconnect? && Joined(inputs).Some? && i.handle == Joined(inputs).value.handle)
              || (i.Confirm? && Confirming(Run(inputs).state, i.token, i.kind, i.success).1 in {Aborted, MessageConfirmed})
    ensures Run(inputs + [i]).state.output.Some? ==> Run(inputs + [i]).state.output == Run(inputs).state.output
  {
    RunIsKnown(inputs);
    RunNext(inputs, i);
    hide Run, Joined, Listens, FrameOf, FragmentCount, PayloadCapacity, ChannelOf, Sendable;
  }

  /** An output that was dropped can no longer be confirmed: its generation is over. */
  lemma DroppedIsOver(s: State)
    ensures Dropped(s).generation == (if s.generation == 0xFFFF_FFFF_FFFF_FFFF then 0 else s.generation + 1) != s.generation
    ensures Dropped(s).output.None? && !Dropped(s).pending && Dropped(s).index == 0 && Dropped(s).capacity == 0
    ensures Dropped(s).owner == s.owner && Dropped(s).channels == s.channels
  {
  }
}
