/** Stop-and-wait indications bound to a connection generation, an output
    generation and a fragment index (src/GattProtocol.cpp, `AdapterState`). */
module Adapter {
  import opened Wrappers
  import opened Words
  import opened Framing

  const CONFIRMATION_TIMEOUT_MS: nat := 1200
  const ATT_OVERHEAD: nat := 3

  datatype Owner = Owner(handle: u16, generation: u64) {
    predicate Valid() { generation != 0 }
  }

  const NO_OWNER := Owner(0, 0)

  datatype Token = Token(owner: Owner, outputGeneration: u64, fragment: nat) {
    predicate Valid() { owner.Valid() && outputGeneration != 0 }
  }

  datatype IndicationResult = Ignored | FragmentConfirmed | MessageConfirmed | Aborted

  /** The four characteristics a client can subscribe to. */
  datatype Channel = HelloChannel | ChallengeChannel | ResultChannel | FastChannel

  function ChannelOf(kind: MessageType): Option<Channel> {
    match kind
    case TargetHello => Some(HelloChannel)
    case Challenge => Some(ChallengeChannel)
    case Result => Some(ResultChannel)
    case ErrorMessage => Some(ResultChannel)
    case FastChallenge => Some(FastChannel)
    case FastResult => Some(FastChannel)
    case _ => None
  }

  datatype Output = Output(owner: Owner, message: Message)

  datatype State = State(
    owner: Owner, channels: set<Channel>, output: Option<Output>, generation: u64,
    pending: bool, capacity: nat, count: nat, index: nat, deadline: u32)

  const INITIAL := State(NO_OWNER, {}, None, 0, false, 0, 0, 0, 0)

  datatype Indication = Indication(frame: seq<byte>, kind: MessageType, token: Token)

  // ---------- Specification ----------

  function Dropped(s: State): State {
    s.(output := None, generation := Wrap64(s.generation + 1), pending := false,
       capacity := 0, count := 0, index := 0, deadline := 0)
  }

  function Accepting(s: State, owner: Owner): (State, bool) {
    if !owner.Valid() || s.owner.Valid() then (s, false)
    else (Dropped(s).(owner := owner, channels := {}), true)
  }

  function Disconnecting(s: State, handle: u16): State {
    if !s.owner.Valid() || s.owner.handle != handle then s
    else Dropped(s).(owner := NO_OWNER, channels := {})
  }

  function Subscribing(s: State, handle: u16, kind: MessageType, on: bool): (State, bool) {
    if !s.owner.Valid() || s.owner.handle != handle || ChannelOf(kind).None? then (s, false)
    else
      var c := ChannelOf(kind).value;
      (s.(channels := if on then s.channels + {c} else s.channels - {c}), true)
  }

  predicate Subscribed(s: State, owner: Owner, kind: MessageType) {
    owner.Valid() && owner == s.owner && ChannelOf(kind).Some? && ChannelOf(kind).value in s.channels
  }

  function Staging(s: State, o: Output): (State, bool) {
    if s.output.Some? || !o.owner.Valid() || o.owner != s.owner
       || |o.message.payload| == 0 || |o.message.payload| > MAX_MESSAGE_SIZE
       || !Subscribed(s, o.owner, o.message.kind)
    then (s, false)
    else (s.(output := Some(o), generation := Wrap64(s.generation + 1), pending := false,
             capacity := 0, count := 0, index := 0, deadline := 0), true)
  }

  function PayloadCapacity(mtu: u16): (c: nat)
    ensures c > 0
  {
    if mtu > FRAME_HEADER_SIZE + ATT_OVERHEAD then mtu - ATT_OVERHEAD - FRAME_HEADER_SIZE else 1
  }

  /** `room` is the size of the caller's frame buffer. */
  function Beginning(s: State, mtu: u16, now: u32, room: nat): (State, Option<Indication>) {
    if s.output.None? || s.pending || s.owner != s.output.value.owner
       || !Subscribed(s, s.owner, s.output.value.message.kind)
    then (s, None)
    else
      var m := s.output.value.message;
      var capacity := PayloadCapacity(mtu);
      var count := FragmentCount(|m.payload|, capacity);
      if count == 0 || count > MAX_FRAGMENTS || (s.capacity != 0 && s.capacity != capacity) then (s, None)
      else
        var fixed := s.(capacity := capacity, count := count);
        var fragment := s.index % 256;
        if !Sendable(m, capacity) || fragment >= count || |FrameOf(m, capacity, fragment)| > room then (fixed, None)
        else
          (fixed.(pending := true, deadline := Wrap32(now + CONFIRMATION_TIMEOUT_MS)),
           Some(Indication(FrameOf(m, capacity, fragment), m.kind, Token(s.owner, s.generation, fragment))))
  }

  function Confirming(s: State, token: Token, kind: MessageType, success: bool): (State, IndicationResult) {
    if !token.Valid() || s.output.None? || !s.pending || token.owner != s.owner
       || token.owner != s.output.value.owner || token.outputGeneration != s.generation
       || token.fragment != s.index || kind != s.output.value.message.kind
    then (s, Ignored)
    else if !success then (Dropped(s), Aborted)
    else if s.index + 1 >= s.count then (Dropped(s), MessageConfirmed)
    else (s.(pending := false, deadline := 0, index := s.index + 1), FragmentConfirmed)
  }

  predicate TimedOut(s: State, now: u32) { s.pending && Reached(now, s.deadline) }

  // ---------- The class ----------

  class AdapterState {
    var activeOwner: Owner
    var subscriptions: set<Channel>
    var output: Output
    var outputGeneration: u64
    var outputActive: bool
    var confirmationPending: bool
    var fragmentPayloadCapacity: nat
    var fragmentCount: nat
    var fragmentIndex: nat
    var confirmationDeadline: u32

    ghost function Model(): State
      reads this
    {
      State(activeOwner, subscriptions, if outputActive then Some(output) else None, outputGeneration,
            confirmationPending, fragmentPayloadCapacity, fragmentCount, fragmentIndex, confirmationDeadline)
    }

    constructor ()
      ensures Model() == INITIAL
    {
      activeOwner, subscriptions := NO_OWNER, {};
      output, outputGeneration, outputActive := Output(NO_OWNER, Message(ErrorMessage, 0, [])), 0, false;
      confirmationPending, fragmentPayloadCapacity, fragmentCount := false, 0, 0;
      fragmentIndex, confirmationDeadline := 0, 0;
    }

    method AbortOutput()
      modifies this
      ensures Model() == Dropped(old(Model()))
    {
      outputGeneration := Wrap64(outputGeneration + 1);
      output := Output(NO_OWNER, Message(ErrorMessage, 0, []));
      outputActive := false;
      confirmationPending := false;
      fragmentPayloadCapacity := 0;
      fragmentCount := 0;
      fragmentIndex := 0;
      confirmationDeadline := 0;
    }

    method AcceptConnection(owner: Owner) returns (accepted: bool)
      modifies this
      ensures (Model(), accepted) == Accepting(old(Model()), owner)
    {
      if !owner.Valid() || activeOwner.Valid() {
        return false;
      }
      activeOwner := owner;
      subscriptions := {};
      AbortOutput();
      accepted := true;
    }

    method Disconnect(handle: u16)
      modifies this
      ensures Model() == Disconnecting(old(Model()), handle)
    {
      if !activeOwner.Valid() || activeOwner.handle != handle {
        return;
      }
      activeOwner := NO_OWNER;
      subscriptions := {};
      AbortOutput();
    }

    method SetSubscribed(handle: u16, kind: MessageType, subscribed: bool) returns (changed: bool)
      modifies this
      ensures (Model(), changed) == Subscribing(old(Model()), handle, kind, subscribed)
    {
      if !activeOwner.Valid() || activeOwner.handle != handle {
        return false;
      }
      var channel := ChannelOf(kind);
      if channel.None? {
        return false;
      }
      if subscribed {
        subscriptions := subscriptions + {channel.value};
      } else {
        subscriptions := subscriptions - {channel.value};
      }
      changed := true;
    }

    method IsSubscribed(owner: Owner, kind: MessageType) returns (r: bool)
      ensures r <==> Subscribed(Model(), owner, kind)
    {
      var channel := ChannelOf(kind);
      r := owner.Valid() && owner == activeOwner && channel.Some? && channel.value in subscriptions;
    }

    method StageOutput(next: Output) returns (staged: bool)
      modifies this
      ensures (Model(), staged) == Staging(old(Model()), next)
    {
      var subscribed := IsSubscribed(next.owner, next.message.kind);
      if outputActive || !next.owner.Valid() || next.owner != activeOwner
         || |next.message.payload| == 0 || |next.message.payload| > MAX_MESSAGE_SIZE || !subscribed
      {
        return false;
      }
      outputGeneration := Wrap64(outputGeneration + 1);
      output := next;
      outputActive := true;
      confirmationPending := false;
      fragmentPayloadCapacity := 0;
      fragmentCount := 0;
      fragmentIndex := 0;
      confirmationDeadline := 0;
      staged := true;
    }

    method BeginNextIndication(mtu: u16, now: u32, frame: array<byte>)
      returns (written: nat, kind: MessageType, token: Token)
      modifies this, frame
      ensures var (next, indication) := Beginning(old(Model()), mtu, now, frame.Length);
              && Model() == next
              && (written != 0 <==> indication.Some?)
              && (indication.Some? ==> written <= frame.Length
                                       && indication.value == Indication(frame[..written], kind, token))
              && (indication.None? ==> (kind, token) == (ErrorMessage, Token(NO_OWNER, 0, 0)))
    {
      written, kind, token := 0, ErrorMessage, Token(NO_OWNER, 0, 0);
      var subscribed := IsSubscribed(activeOwner, output.message.kind);
      if !outputActive || confirmationPending || activeOwner != output.owner || !subscribed {
        return;
      }
      var payloadCapacity := if mtu > FRAME_HEADER_SIZE + 3 then mtu - 3 - FRAME_HEADER_SIZE else 1;
      var count := FragmentCount(|output.message.payload|, payloadCapacity);
      if count == 0 || count > 255 || (fragmentPayloadCapacity != 0 && fragmentPayloadCapacity != payloadCapacity) {
        return;
      }
      fragmentPayloadCapacity := payloadCapacity;
      fragmentCount := count;
      var length := BuildFrame(output.message, fragmentPayloadCapacity, fragmentIndex % 256, frame);
      if length == 0 {
        return;
      }
      confirmationPending := true;
      confirmationDeadline := Wrap32(now + CONFIRMATION_TIMEOUT_MS);
      written := length;
      kind := output.message.kind;
      token := Token(activeOwner, outputGeneration, fragmentIndex % 256);
    }

    method ConfirmationTimedOut(now: u32) returns (late: bool)
      ensures late <==> TimedOut(Model(), now)
    {
      late := confirmationPending && Reached(now, confirmationDeadline);
    }

    method ConfirmIndication(token: Token, kind: MessageType, success: bool) returns (r: IndicationResult)
      modifies this
      ensures (Model(), r) == Confirming(old(Model()), token, kind, success)
    {
      if !token.Valid() || !outputActive || !confirmationPending || token.owner != activeOwner
         || token.owner != output.owner || token.outputGeneration != outputGeneration
         || token.fragment != fragmentIndex || kind != output.message.kind
      {
        return Ignored;
      }
      confirmationPending := false;
      confirmationDeadline := 0;
      if !success {
        AbortOutput();
        return Aborted;
      }
      fragmentIndex := fragmentIndex + 1;
      if fragmentIndex >= fragmentCount {
        AbortOutput();
        return MessageConfirmed;
      }
      return FragmentConfirmed;
    }
  }

  // ---------- Whole runs ----------

  datatype Input =
    | Accept(owner: Owner)
    | Disconnect(handle: u16)
    | Subscribe(handle: u16, kind: MessageType, on: bool)
    | Stage(next: Output)
    | Begin(mtu: u16, now: u32, room: nat)
    | Confirm(token: Token, kind: MessageType, success: bool)
    | Abort

  /** A state with the history of the message staged last: what was indicated
      and which tokens were confirmed. */
  datatype Tracked = Tracked(state: State, staged: Option<Output>, indicated: seq<Indication>, confirmed: seq<Token>)

  function Track(t: Tracked, i: Input): Tracked {
    match i
    case Accept(o) => t.(state := Accepting(t.state, o).0)
    case Disconnect(h) => t.(state := Disconnecting(t.state, h))
    case Subscribe(h, k, on) => t.(state := Subscribing(t.state, h, k, on).0)
    case Stage(o) =>
      var (s, ok) := Staging(t.state, o);
      if ok then Tracked(s, Some(o), [], []) else t
    case Begin(mtu, now, room) =>
      var (s, indication) := Beginning(t.state, mtu, now, room);
      t.(state := s, indicated := t.indicated + if indication.Some? then [indication.value] else [])
    case Confirm(token, kind, success) =>
      var (s, r) := Confirming(t.state, token, kind, success);
      t.(state := s, confirmed := t.confirmed + if r == FragmentConfirmed || r == MessageConfirmed then [token] else [])
    case Abort => t.(state := Dropped(t.state))
  }

  function Run(inputs: seq<Input>): Tracked {
    if inputs == [] then Tracked(INITIAL, None, [], [])
    else Track(Run(inputs[..|inputs| - 1]), inputs[|inputs| - 1])
  }

  /** Indication `k` of message `o` under output generation `g`. */
  ghost function Nth(o: Output, capacity: nat, g: u64, k: nat): Indication
    requires Sendable(o.message, capacity) && k < FragmentCount(|o.message.payload|, capacity)
  {
    Indication(FrameOf(o.message, capacity, k), o.message.kind, Token(o.owner, g, k))
  }

  /** The history is exactly the first fragments, each confirmed by the token
      it was indicated with; at most the last one still waits. */
  ghost predicate Follows(t: Tracked) {
    t.state.output.Some? ==>
      && t.staged == t.state.output
      && 1 <= |t.state.output.value.message.payload| <= MAX_MESSAGE_SIZE
      && |t.confirmed| == t.state.index
      && |t.indicated| == t.state.index + (if t.state.pending then 1 else 0)
      && (t.state.capacity == 0 ==> t.indicated == [])
      && (t.state.capacity != 0 ==>
            && Sendable(t.state.output.value.message, t.state.capacity)
            && t.state.count == FragmentCount(|t.state.output.value.message.payload|, t.state.capacity)
            && t.state.index < t.state.count
            && Prefix(t, t.state.output.value, t.state.capacity, t.state.generation))
  }

  ghost predicate Prefix(t: Tracked, o: Output, capacity: nat, g: u64)
    requires Sendable(o.message, capacity)
  {
    && |t.confirmed| <= |t.indicated| <= FragmentCount(|o.message.payload|, capacity)
    && (forall k | 0 <= k < |t.indicated| :: t.indicated[k] == Nth(o, capacity, g, k))
    && (forall k | 0 <= k < |t.confirmed| :: t.confirmed[k] == t.indicated[k].token)
  }

  lemma TrackFollows(t: Tracked, i: Input)
    requires Follows(t)
    ensures Follows(Track(t, i))
  {
    if i.Begin? && t.state.output.Some? {
      PendingIsLast(t, i);
    }
  }

  lemma PendingIsLast(t: Tracked, i: Input)
    requires Follows(t) && i.Begin? && t.state.output.Some?
    ensures Follows(Track(t, i))
  {
    hide FrameOf, FragmentCount, Subscribed;
    var capacity := PayloadCapacity(i.mtu);
    var m := t.state.output.value.message;
    CountBounds(|m.payload|, capacity);
  }

  lemma {:induction false} RunFollows(inputs: seq<Input>)
    ensures Follows(Run(inputs))
  {
    if inputs != [] {
      RunFollows(inputs[..|inputs| - 1]);
      TrackFollows(Run(inputs[..|inputs| - 1]), inputs[|inputs| - 1]);
    }
  }

  /** Over every run: a report that the message is confirmed means that its
      fragments 0..n-1 were indicated once each, in order, at one capacity,
      and confirmed by their own tokens, this confirmation being the last. */
  lemma ConfirmedMeansDelivered(inputs: seq<Input>, token: Token, kind: MessageType, success: bool) returns (capacity: nat, g: u64)
    requires Confirming(Run(inputs).state, token, kind, success).1 == MessageConfirmed
    ensures var t := Run(inputs + [Confirm(token, kind, success)]);
            && t.staged.Some? && Sendable(t.staged.value.message, capacity) && t.staged.value.message.kind == kind
            && |t.indicated| == |t.confirmed| == FragmentCount(|t.staged.value.message.payload|, capacity)
            && Prefix(t, t.staged.value, capacity, g)
            && t.confirmed[|t.confirmed| - 1] == token
            && t.state.output.None?
  {
    RunFollows(inputs);
    var all := inputs + [Confirm(token, kind, success)];
    assert all[..|inputs|] == inputs;
    capacity, g := Run(inputs).state.capacity, Run(inputs).state.generation;
  }

  /** An indication times out exactly 1.2 seconds after it was made. */
  lemma TimesOutInTime(s: State, mtu: u16, at: nat, room: nat, later: nat)
    requires Beginning(s, mtu, Wrap32(at), room).1.Some? && at <= later < at + 1200 + 0x8000_0000
    ensures TimedOut(Beginning(s, mtu, Wrap32(at), room).0, Wrap32(later)) <==> later >= at + 1200
  {
    hide FrameOf, FragmentCount, Reached;
    WrapAdd(at, 1200);
    DeadlineReached(at, 1200, later);
  }

  // ---------- What fits a link ----------

  /** An indication over a link of this MTU carries at most three bytes less; a
      frame before the last of its message carries exactly that, and over a link
      too small for a header and a byte each frame carries one payload byte. */
  predicate FitsLink(frame: seq<byte>, mtu: u16) {
    && |frame| > 10
    && var (index: int, count: int) := (frame[6], frame[7]);
       if mtu > 13 then |frame| <= mtu - 3 && (index + 1 < count ==> |frame| == mtu - 3) else |frame| == 11
  }

  lemma FrameFits(m: Message, mtu: u16, index: nat)
    requires Sendable(m, PayloadCapacity(mtu)) && index < FragmentCount(|m.payload|, PayloadCapacity(mtu))
    ensures FitsLink(FrameOf(m, PayloadCapacity(mtu), index), mtu)
  {
    FragmentBounds(|m.payload|, PayloadCapacity(mtu), index);
    hide FragmentCount;
  }

  /** The MTUs at which the message staged last was indicated. */
  function Mtus(inputs: seq<Input>): seq<u16> {
    if inputs == [] then []
    else
      var front, last := inputs[..|inputs| - 1], inputs[|inputs| - 1];
      if last.Stage? && Staging(Run(front).state, last.next).1 then []
      else if last.Begin? && Beginning(Run(front).state, last.mtu, last.now, last.room).1.Some? then Mtus(front) + [last.mtu]
      else Mtus(front)
  }

  lemma BeginningFits(s: State, mtu: u16, now: u32, room: nat)
    ensures Beginning(s, mtu, now, room).1.Some? ==> FitsLink(Beginning(s, mtu, now, room).1.value.frame, mtu)
  {
    if Beginning(s, mtu, now, room).1.Some? {
      FrameFits(s.output.value.message, mtu, s.index % 256);
    }
    hide FitsLink, FragmentCount, FrameOf;
  }

  /** Over every run each indicated frame fits the link it is indicated over. */
  lemma {:induction false} IndicatedFit(inputs: seq<Input>)
    ensures |Mtus(inputs)| == |Run(inputs).indicated|
    ensures forall k | 0 <= k < |Mtus(inputs)| :: FitsLink(Run(inputs).indicated[k].frame, Mtus(inputs)[k])
  {
    hide FitsLink;
    if inputs != [] {
      var front, last := inputs[..|inputs| - 1], inputs[|inputs| - 1];
      IndicatedFit(front);
      TrackIs(Run(front), last);
      if last.Begin? {
        BeginningFits(Run(front).state, last.mtu, last.now, last.room);
      }
    }
    hide Track, Staging, Beginning;
  }

  /** Any input, on the object: whether output was staged, what was indicated
      and what became of a confirmation. */
  method Perform(a: AdapterState, i: Input) returns (staged: bool, sent: Option<Indication>, result: IndicationResult)
    modifies a
    ensures a.Model() == Reacting(old(a.Model()), i).state
    ensures staged == (i.Stage? && Staging(old(a.Model()), i.next).1)
    ensures sent == if i.Begin? then Beginning(old(a.Model()), i.mtu, i.now, i.room).1 else None
    ensures result == if i.Confirm? then Confirming(old(a.Model()), i.token, i.kind, i.success).1 else Ignored
  {
    hide AdapterState.Model, Accepting, Disconnecting, Subscribing, Beginning, Confirming, Dropped;
    staged, sent, result := false, None, Ignored;
    match i
    case Accept(owner) => var accepted := a.AcceptConnection(owner);
    case Disconnect(handle) => a.Disconnect(handle);
    case Subscribe(handle, kind, on) => var changed := a.SetSubscribed(handle, kind, on);
    case Stage(next) => staged := a.StageOutput(next);
    case Begin(mtu, now, room) =>
      var frame := new byte[room](_ => 0);
      var written, kind, token := a.BeginNextIndication(mtu, now, frame);
      if written != 0 {
        sent := Some(Indication(frame[..written], kind, token));
      }
    case Confirm(token, kind, success) => result := a.ConfirmIndication(token, kind, success);
    case Abort => a.AbortOutput();
  }

  /** An input on a state whose history does not matter. */
  function Reacting(s: State, i: Input): Tracked { Track(Tracked(s, None, [], []), i) }

  lemma TrackIs(t: Tracked, i: Input)
    ensures Track(t, i).state == Reacting(t.state, i).state
    ensures Track(t, i).staged == if i.Stage? && Staging(t.state, i.next).1 then Some(i.next) else t.staged
    ensures Track(t, i).indicated ==
              if i.Stage? && Staging(t.state, i.next).1 then []
              else if i.Begin? && Beginning(t.state, i.mtu, i.now, i.room).1.Some?
              then t.indicated + [Beginning(t.state, i.mtu, i.now, i.room).1.value]
              else t.indicated
    ensures Track(t, i).confirmed ==
              if i.Stage? && Staging(t.state, i.next).1 then []
              else if i.Confirm? && Confirming(t.state, i.token, i.kind, i.success).1 in {FragmentConfirmed, MessageConfirmed}
              then t.confirmed + [i.token]
              else t.confirmed
  {
    hide Accepting, Disconnecting, Subscribing, Staging, Beginning, Confirming, Dropped;
  }

  /** A new adapter through any inputs: what it indicated and confirmed of the
      message staged last are its first fragments, by their own tokens. */
  method Drive(inputs: seq<Input>) returns (a: AdapterState, staged: Option<Output>, indicated: seq<Indication>, confirmed: seq<Token>)
    ensures fresh(a) && Tracked(a.Model(), staged, indicated, confirmed) == Run(inputs)
    ensures Follows(Tracked(a.Model(), staged, indicated, confirmed))
    ensures |Mtus(inputs)| == |indicated| && forall k | 0 <= k < |indicated| :: FitsLink(indicated[k].frame, Mtus(inputs)[k])
  {
    hide AdapterState.Model, Track, Reacting, Staging, Beginning, Confirming, Follows;
    a := new AdapterState();
    staged, indicated, confirmed := None, [], [];
    var k := 0;
    assert inputs[..0] == [];
    while k < |inputs|
      invariant 0 <= k <= |inputs| && fresh(a)
      invariant Tracked(a.Model(), staged, indicated, confirmed) == Run(inputs[..k])
    {
      var i := inputs[k];
      TrackIs(Run(inputs[..k]), i);
      assert inputs[..k + 1][..k] == inputs[..k];
      var next, sent, result := Perform(a, i);
      if next {
        staged, indicated, confirmed := Some(i.next), [], [];
      }
      if sent.Some? {
        indicated := indicated + [sent.value];
      }
      if result == FragmentConfirmed || result == MessageConfirmed {
        confirmed := confirmed + [i.token];
      }
      k := k + 1;
    }
    assert inputs[..k] == inputs;
    RunFollows(inputs);
    IndicatedFit(inputs);
  }

  /** A token of another owner, output generation or fragment, or of another
      message type, changes nothing. */
  lemma StaleTokensAreIgnored(s: State, token: Token, kind: MessageType, success: bool)
    ensures (s.output.None? || !s.pending || token.owner != s.owner || token.outputGeneration != s.generation
             || token.fragment != s.index || kind != s.output.value.message.kind)
            ==> Confirming(s, token, kind, success) == (s, Ignored)
    ensures Confirming(s, token, kind, success).1 == Ignored ==> Confirming(s, token, kind, success).0 == s
    ensures Confirming(s, token, kind, success).1 != Ignored ==>
              token == Token(s.owner, s.generation, s.index) && Confirming(s, token, kind, success).0 != s
  {
    WrapMoves(s.generation);
  }

  lemma WrapMoves(g: u64)
    ensures Wrap64(g + 1) != g
  {
  }

  /** End to end: the frames whose confirmation was reported, delivered in
      order with any immediate repeats before the last one and within the
      assembly time, hand the receiver exactly the staged payload. */
  lemma ConfirmedFramesReassemble(inputs: seq<Input>, token: Token, kind: MessageType, success: bool,
                                  order: seq<nat>, times: seq<nat>)
    requires Confirming(Run(inputs).state, token, kind, success).1 == MessageConfirmed
    requires var t := Run(inputs + [Confirm(token, kind, success)]);
             && t.staged.Some? && t.staged.value.message.id != 0
             && (forall mtu | mtu in Mtus(inputs) :: mtu <= 515)
             && Schedule(order, |t.indicated|) && InTime(times, |order|)
    ensures var t := Run(inputs + [Confirm(token, kind, success)]);
            && (forall k | 0 <= k < |order| :: order[k] < |t.indicated|)
            && Fed(CLEARED, kind, t.indicated, order, times, |order|) == (CLEARED, Complete(kind, t.staged.value.message.payload))
  {
    var capacity, g := ConfirmedMeansDelivered(inputs, token, kind, success);
    var t := Run(inputs + [Confirm(token, kind, success)]);
    var m := t.staged.value.message;
    ScheduleBound(order, |t.indicated|);
    SmallFrames(inputs, token, kind, success);
    TransportableFrames(t, m, capacity, g);
    ReassemblyInvertsFragmentation(m, capacity, order, times);
    FedIsDeliver(t, m, capacity, g, order, times, |order|);
  }

  /** Nothing is reported before the last of those deliveries. */
  lemma PendingBeforeLast(inputs: seq<Input>, token: Token, kind: MessageType, success: bool,
                          order: seq<nat>, times: seq<nat>)
    requires Confirming(Run(inputs).state, token, kind, success).1 == MessageConfirmed
    requires var t := Run(inputs + [Confirm(token, kind, success)]);
             && t.staged.Some? && t.staged.value.message.id != 0
             && (forall mtu | mtu in Mtus(inputs) :: mtu <= 515)
             && Schedule(order, |t.indicated|) && InTime(times, |order|)
    ensures var t := Run(inputs + [Confirm(token, kind, success)]);
            && (forall k | 0 <= k < |order| :: order[k] < |t.indicated|)
            && forall k | 0 < k < |order| :: Fed(CLEARED, kind, t.indicated, order, times, k).1 == Pending
  {
    var capacity, g := ConfirmedMeansDelivered(inputs, token, kind, success);
    var t := Run(inputs + [Confirm(token, kind, success)]);
    var m := t.staged.value.message;
    ScheduleBound(order, |t.indicated|);
    SmallFrames(inputs, token, kind, success);
    TransportableFrames(t, m, capacity, g);
    hide Run, Confirming, Transportable, AcceptFrame, Prefix;
    ReassemblyInvertsFragmentation(m, capacity, order, times);
    forall k | 0 < k < |order| ensures Fed(CLEARED, kind, t.indicated, order, times, k).1 == Pending {
      FedIsDeliver(t, m, capacity, g, order, times, k);
    }
  }

  /** Up to that MTU every indicated frame is one the receiver takes. */
  lemma SmallFrames(inputs: seq<Input>, token: Token, kind: MessageType, success: bool)
    requires forall mtu | mtu in Mtus(inputs) :: mtu <= 515
    ensures var t := Run(inputs + [Confirm(token, kind, success)]);
            forall k | 0 <= k < |t.indicated| :: |t.indicated[k].frame| <= MAX_FRAME_SIZE
  {
    IndicatedFit(inputs);
    assert (inputs + [Confirm(token, kind, success)])[..|inputs|] == inputs;
    TrackIs(Run(inputs), Confirm(token, kind, success));
    hide Run, Track;
    assert forall k | 0 <= k < |Mtus(inputs)| :: Mtus(inputs)[k] in Mtus(inputs);
  }

  lemma TransportableFrames(t: Tracked, m: Message, capacity: nat, g: u64)
    requires t.staged.Some? && t.staged.value.message == m && Sendable(m, capacity) && m.id != 0
    requires Prefix(t, t.staged.value, capacity, g) && |t.indicated| == FragmentCount(|m.payload|, capacity)
    requires forall k | 0 <= k < |t.indicated| :: |t.indicated[k].frame| <= MAX_FRAME_SIZE
    ensures Transportable(m, capacity)
  {
    CountBounds(|m.payload|, capacity);
    var f := t.indicated[0].frame;
    assert f == FrameOf(m, capacity, 0);
    FragmentBounds(|m.payload|, capacity, 0);
  }

  /** Feeds indicated frames to the receiver in a given order. */
  ghost function Fed(r: Reassembly, kind: MessageType, sent: seq<Indication>, order: seq<nat>, times: seq<nat>, k: nat)
    : (Reassembly, FrameResult)
    requires k <= |order| == |times| && forall i | 0 <= i < |order| :: order[i] < |sent|
  {
    if k == 0 then (r, Pending)
    else AcceptFrame(Fed(r, kind, sent, order, times, k - 1).0, kind, sent[order[k - 1]].frame, Wrap32(times[k - 1]))
  }

  lemma {:induction false} ScheduleBound(order: seq<nat>, n: nat)
    requires Schedule(order, n)
    ensures forall k | 0 <= k < |order| :: order[k] < n
  {
    forall k | 0 <= k < |order| ensures order[k] < n {
      if k < |order| - 1 { assert order[k] < n - 1; }
    }
  }

  lemma {:induction false} FedIsDeliver(t: Tracked, m: Message, capacity: nat, g: u64, order: seq<nat>, times: seq<nat>, k: nat)
    requires t.staged.Some? && t.staged.value.message == m && Sendable(m, capacity)
    requires Prefix(t, t.staged.value, capacity, g)
    requires k <= |order| == |times|
    requires |t.indicated| == FragmentCount(|m.payload|, capacity)
    requires forall i | 0 <= i < |order| :: order[i] < |t.indicated|
    ensures Fed(CLEARED, m.kind, t.indicated, order, times, k) == Deliver(CLEARED, m, capacity, order, times, k)
  {
    hide AcceptFrame, FrameOf, FragmentCount, Wrap32;
    if k > 0 {
      FedIsDeliver(t, m, capacity, g, order, times, k - 1);
      assert t.indicated[order[k - 1]] == Nth(t.staged.value, capacity, g, order[k - 1]);
    }
  }
}
