/** Fragmentation of one message into frames and its reassembly
    (src/GattProtocol.cpp: `buildFrame` and the frame part of `receiveFrame`). */
module Framing {
  import opened Wrappers
  import opened Words

  const FRAME_HEADER_SIZE: nat := 10
  const MAX_MESSAGE_SIZE: nat := 2048
  const MAX_FRAME_SIZE: nat := 512
  const ASSEMBLY_TIMEOUT_MS: nat := 2000
  const MAX_FRAGMENTS: nat := 255

  datatype MessageType =
    | ClientHello | TargetHello | Challenge | Proof | Result
    | FastChallenge | FastProof | FastResult | ErrorMessage

  function TypeByte(t: MessageType): byte {
    match t
    case ClientHello => 0x01
    case TargetHello => 0x02
    case Challenge => 0x10
    case Proof => 0x11
    case Result => 0x12
    case FastChallenge => 0x20
    case FastProof => 0x21
    case FastResult => 0x22
    case ErrorMessage => 0x7f
  }

  /** What an output queue hands to the transport. */
  datatype Message = Message(kind: MessageType, id: u16, payload: seq<byte>)

  // ---------- Sender ----------

  function FragmentCount(length: nat, capacity: nat): nat
    requires capacity > 0
  {
    (length + capacity - 1) / capacity
  }

  /** The bytes of fragment `index`. */
  function Chunk(payload: seq<byte>, capacity: nat, index: nat): seq<byte>
    requires capacity > 0 && index < FragmentCount(|payload|, capacity)
  {
    FragmentBounds(|payload|, capacity, index);
    payload[index * capacity..Min((index + 1) * capacity, |payload|)]
  }

  lemma MulOrder(a: nat, b: nat, c: nat)
    requires a <= b
    ensures a * c <= b * c
  {
  }

  lemma CountBounds(length: nat, capacity: nat)
    requires capacity > 0
    ensures var n := FragmentCount(length, capacity);
            n * capacity >= length && (n > 0 ==> n * capacity < length + capacity)
  {
    var n := FragmentCount(length, capacity);
    assert n * capacity <= length + capacity - 1 < n * capacity + capacity;
  }

  lemma FragmentBounds(length: nat, capacity: nat, index: nat)
    requires capacity > 0 && index < FragmentCount(length, capacity)
    ensures 0 <= index * capacity < length
    ensures (index + 1) * capacity == index * capacity + capacity
    ensures (index + 1) * capacity >= length <==> index + 1 == FragmentCount(length, capacity)
  {
    var n := FragmentCount(length, capacity);
    hide FragmentCount;
    CountBounds(length, capacity);
    MulOrder(index + 1, n, capacity);
    if index + 1 < n {
      MulOrder(index + 2, n, capacity);
    }
  }

  predicate Sendable(m: Message, capacity: nat) {
    && capacity > 0
    && 1 <= |m.payload| <= MAX_MESSAGE_SIZE
    && FragmentCount(|m.payload|, capacity) <= MAX_FRAGMENTS
  }

  function Header(m: Message, index: byte, count: byte): (h: seq<byte>)
    requires |m.payload| <= MAX_MESSAGE_SIZE
    ensures |h| == FRAME_HEADER_SIZE
  {
    [83, 71, 1, TypeByte(m.kind)] + Bytes16(m.id) + [index, count] + Bytes16(|m.payload|)
  }

  /** Frame `index` of a message: ten header bytes, then the fragment. */
  function FrameOf(m: Message, capacity: nat, index: nat): (f: seq<byte>)
    requires Sendable(m, capacity) && index < FragmentCount(|m.payload|, capacity)
    ensures |f| > FRAME_HEADER_SIZE
  {
    FragmentBounds(|m.payload|, capacity, index);
    Header(m, index, FragmentCount(|m.payload|, capacity)) + Chunk(m.payload, capacity, index)
  }

  method WriteHeader(m: Message, index: byte, count: byte, output: array<byte>)
    requires |m.payload| <= MAX_MESSAGE_SIZE && output.Length >= FRAME_HEADER_SIZE
    modifies output
    ensures output[..FRAME_HEADER_SIZE] == Header(m, index, count)
    ensures output[FRAME_HEADER_SIZE..] == old(output[FRAME_HEADER_SIZE..])
  {
    output[0], output[1], output[2], output[3] := 83, 71, 1, TypeByte(m.kind);
    output[4], output[5] := m.id / 256, m.id % 256;
    output[6], output[7] := index, count;
    output[8], output[9] := |m.payload| / 256, |m.payload| % 256;
  }

  /** `buildFrame`: zero when nothing can be written. */
  method BuildFrame(m: Message, capacity: nat, index: byte, output: array<byte>) returns (written: nat)
    modifies output
    ensures written != 0 <==>
        Sendable(m, capacity) && index < FragmentCount(|m.payload|, capacity)
        && |FrameOf(m, capacity, index)| <= output.Length
    ensures written != 0 ==>
        written == |FrameOf(m, capacity, index)| && output[..written] == FrameOf(m, capacity, index)
        && output[written..] == old(output[written..])
    ensures written == 0 ==> output[..] == old(output[..])
  {
    if |m.payload| == 0 || |m.payload| > MAX_MESSAGE_SIZE || capacity == 0 {
      return 0;
    }
    var count := (|m.payload| + capacity - 1) / capacity;
    if count == 0 || count > 255 || index >= count {
      return 0;
    }
    var offset := index * capacity;
    FragmentBounds(|m.payload|, capacity, index);
    assert count == FragmentCount(|m.payload|, capacity);
    var length := Min(capacity, |m.payload| - offset);
    if output.Length < FRAME_HEADER_SIZE + length {
      return 0;
    }
    WriteHeader(m, index, count, output);
    forall i | 0 <= i < length {
      output[FRAME_HEADER_SIZE + i] := m.payload[offset + i];
    }
    written := FRAME_HEADER_SIZE + length;
    FragmentBounds(|m.payload|, capacity, index);
    var chunk := Chunk(m.payload, capacity, index);
    assert output[..written] == Header(m, index, count) + chunk by {
      assert output[..FRAME_HEADER_SIZE] == Header(m, index, count);
      assert output[FRAME_HEADER_SIZE..written] == chunk;
    }
  }

  // ---------- Receiver ----------

  datatype Reassembly = Reassembly(
    active: bool, kind: MessageType, id: u16, count: byte, next: nat,
    total: u16, started: u32, last: seq<byte>, bytes: seq<byte>)

  const CLEARED := Reassembly(false, ErrorMessage, 0, 0, 0, 0, 0, [], [])

  datatype FrameResult =
    | Pending
    | Malformed
    | Complete(kind: MessageType, payload: seq<byte>)

  predicate WellFormed(expected: MessageType, f: seq<byte>) {
    && FRAME_HEADER_SIZE < |f| <= MAX_FRAME_SIZE
    && f[0] == 83 && f[1] == 71 && f[2] == 1 && f[3] == TypeByte(expected)
    && Read16(f[4], f[5]) != 0
    && f[6] < f[7]
    && 0 < Read16(f[8], f[9]) <= MAX_MESSAGE_SIZE
  }

  /** The reassembly a new message starts with. */
  function Opened(r: Reassembly, expected: MessageType, f: seq<byte>, now: u32): Reassembly
    requires WellFormed(expected, f)
  {
    r.(active := true, kind := expected, id := Read16(f[4], f[5]), count := f[7],
       total := Read16(f[8], f[9]), started := now)
  }

  predicate Fits(r: Reassembly, expected: MessageType, f: seq<byte>, now: u32)
    requires WellFormed(expected, f)
  {
    && !Reached(now, Wrap32(r.started + ASSEMBLY_TIMEOUT_MS))
    && r.kind == expected && r.id == Read16(f[4], f[5]) && r.count == f[7]
    && r.total == Read16(f[8], f[9]) && r.next == f[6]
    && |r.bytes| + |f| - FRAME_HEADER_SIZE <= r.total
  }

  function Appended(r: Reassembly, f: seq<byte>): Reassembly
    requires |f| >= FRAME_HEADER_SIZE
  {
    r.(bytes := r.bytes + f[FRAME_HEADER_SIZE..], next := r.next + 1, last := f)
  }

  /** The frame part of `receiveFrame`. A malformed frame and a completed
      message both leave a cleared reassembly. */
  function AcceptFrame(r: Reassembly, expected: MessageType, f: seq<byte>, now: u32): (Reassembly, FrameResult) {
    if !WellFormed(expected, f) then (CLEARED, Malformed)
    else if !r.active && f[6] != 0 then (CLEARED, Malformed)
    else if r.active && f[6] + 1 == r.next && f == r.last then (r, Pending)
    else
      var current := if r.active then r else Opened(r, expected, f, now);
      if !Fits(current, expected, f, now) then (CLEARED, Malformed)
      else
        var next := Appended(current, f);
        if f[6] + 1 != f[7] then
          if |next.bytes| >= next.total then (CLEARED, Malformed) else (next, Pending)
        else if |next.bytes| != next.total then (CLEARED, Malformed)
        else (CLEARED, Complete(next.kind, next.bytes))
  }

  // ---------- Reassembly inverts fragmentation ----------

  /** Messages the receiver can take in frames of this capacity. */
  ghost predicate Transportable(m: Message, capacity: nat) {
    && Sendable(m, capacity)
    && m.id != 0
    && Min(capacity, |m.payload|) + FRAME_HEADER_SIZE <= MAX_FRAME_SIZE
  }

  /** The bytes of the first `count` fragments. */
  ghost function Upto(payload: seq<byte>, capacity: nat, count: nat): seq<byte> {
    payload[..Min(count * capacity, |payload|)]
  }

  /** The reassembly after fragments 0..index of a message. */
  ghost function Assembled(m: Message, capacity: nat, index: nat, started: u32): Reassembly
    requires Sendable(m, capacity) && index < FragmentCount(|m.payload|, capacity)
  {
    Reassembly(true, m.kind, m.id, FragmentCount(|m.payload|, capacity), index + 1, |m.payload|,
               started, FrameOf(m, capacity, index), Upto(m.payload, capacity, index + 1))
  }

  lemma FrameFields(m: Message, capacity: nat, index: nat)
    requires Transportable(m, capacity) && index < FragmentCount(|m.payload|, capacity)
    ensures var f := FrameOf(m, capacity, index);
            && WellFormed(m.kind, f)
            && Read16(f[4], f[5]) == m.id && f[6] == index
            && f[7] == FragmentCount(|m.payload|, capacity)
            && Read16(f[8], f[9]) == |m.payload|
            && f[FRAME_HEADER_SIZE..] == Chunk(m.payload, capacity, index)
  {
    FragmentBounds(|m.payload|, capacity, index);
  }

  ghost function Before(m: Message, capacity: nat, index: nat, started: u32): Reassembly
    requires Sendable(m, capacity) && index < FragmentCount(|m.payload|, capacity)
  {
    if index == 0 then CLEARED else Assembled(m, capacity, index - 1, started)
  }

  ghost function Current(r: Reassembly, expected: MessageType, f: seq<byte>, now: u32): Reassembly
    requires WellFormed(expected, f)
  {
    if r.active then r else Opened(r, expected, f, now)
  }

  /** The answer to a frame that fits. */
  lemma FittingFrame(r: Reassembly, expected: MessageType, f: seq<byte>, now: u32)
    requires WellFormed(expected, f) && (r.active || f[6] == 0)
    requires Fits(Current(r, expected, f, now), expected, f, now)
    ensures var next := Appended(Current(r, expected, f, now), f);
            AcceptFrame(r, expected, f, now)
            == if f[6] + 1 != f[7] then
                 if |next.bytes| >= next.total then (CLEARED, Malformed) else (next, Pending)
               else if |next.bytes| != next.total then (CLEARED, Malformed)
               else (CLEARED, Complete(next.kind, next.bytes))
  {
  }

  lemma ChunkExtends(payload: seq<byte>, capacity: nat, index: nat)
    requires capacity > 0 && index < FragmentCount(|payload|, capacity)
    ensures Upto(payload, capacity, index) + Chunk(payload, capacity, index) == Upto(payload, capacity, index + 1)
    ensures Upto(payload, capacity, 0) == []
    ensures if index + 1 == FragmentCount(|payload|, capacity) then Upto(payload, capacity, index + 1) == payload
            else |Upto(payload, capacity, index + 1)| < |payload|
  {
    FragmentBounds(|payload|, capacity, index);
    assert payload[..|payload|] == payload;
  }

  lemma NextFragmentFits(m: Message, capacity: nat, index: nat, started: nat, now: nat)
    requires Transportable(m, capacity) && index < FragmentCount(|m.payload|, capacity)
    requires started <= now < started + ASSEMBLY_TIMEOUT_MS && (index == 0 ==> now == started)
    ensures var f := FrameOf(m, capacity, index);
            var r := Before(m, capacity, index, Wrap32(started));
            && WellFormed(m.kind, f) && (r.active || f[6] == 0)
            && Fits(Current(r, m.kind, f, Wrap32(now)), m.kind, f, Wrap32(now))
            && Appended(Current(r, m.kind, f, Wrap32(now)), f) == Assembled(m, capacity, index, Wrap32(started))
  {
    FrameFields(m, capacity, index);
    ChunkExtends(m.payload, capacity, index);
    DeadlineReached(started, ASSEMBLY_TIMEOUT_MS, now);
    hide FrameOf, Chunk, FragmentCount, Reached, Upto, WellFormed, Wrap32;
  }

  lemma NextFragment(m: Message, capacity: nat, index: nat, started: nat, now: nat)
    requires Transportable(m, capacity) && index < FragmentCount(|m.payload|, capacity)
    requires started <= now < started + ASSEMBLY_TIMEOUT_MS && (index == 0 ==> now == started)
    ensures AcceptFrame(Before(m, capacity, index, Wrap32(started)), m.kind, FrameOf(m, capacity, index), Wrap32(now))
            == if index + 1 == FragmentCount(|m.payload|, capacity) then (CLEARED, Complete(m.kind, m.payload))
               else (Assembled(m, capacity, index, Wrap32(started)), Pending)
  {
    FrameFields(m, capacity, index);
    ChunkExtends(m.payload, capacity, index);
    NextFragmentFits(m, capacity, index, started, now);
    hide Upto, AcceptFrame, FrameOf, Fits, WellFormed, Before, FragmentCount;
    FittingFrame(Before(m, capacity, index, Wrap32(started)), m.kind, FrameOf(m, capacity, index), Wrap32(now));
  }

  lemma RepeatedFragment(m: Message, capacity: nat, index: nat, started: u32, now: u32)
    requires Transportable(m, capacity) && index < FragmentCount(|m.payload|, capacity)
    ensures var r := Assembled(m, capacity, index, started);
            AcceptFrame(r, m.kind, FrameOf(m, capacity, index), now) == (r, Pending)
  {
    FrameFields(m, capacity, index);
  }

  /** Deliveries in order from fragment 0 to the last one, each fragment but
      the last possibly repeated at once. */
  ghost predicate Schedule(order: seq<nat>, n: nat) {
    && order != [] && order[0] == 0 && order[|order| - 1] == n - 1
    && (forall k | 0 <= k < |order| - 1 :: order[k] < n - 1)
    && (forall j, k | 0 <= j && k == j + 1 < |order| :: order[k] == order[j] || order[k] == order[j] + 1)
  }

  ghost predicate InTime(times: seq<nat>, count: nat) {
    |times| == count > 0 && forall k | 0 <= k < count :: times[0] <= times[k] < times[0] + ASSEMBLY_TIMEOUT_MS
  }

  /** The receiver after the first `k` deliveries, and its last answer. */
  ghost function Deliver(r: Reassembly, m: Message, capacity: nat, order: seq<nat>, times: seq<nat>, k: nat)
    : (Reassembly, FrameResult)
    requires Sendable(m, capacity) && k <= |order| == |times|
    requires forall i | 0 <= i < |order| :: order[i] < FragmentCount(|m.payload|, capacity)
  {
    if k == 0 then (r, Pending)
    else AcceptFrame(Deliver(r, m, capacity, order, times, k - 1).0, m.kind,
                     FrameOf(m, capacity, order[k - 1]), Wrap32(times[k - 1]))
  }

  lemma {:induction false} DeliverPrefix(m: Message, capacity: nat, order: seq<nat>, times: seq<nat>, k: nat)
    requires Transportable(m, capacity)
    requires Schedule(order, FragmentCount(|m.payload|, capacity)) && InTime(times, |order|)
    requires 0 < k < |order|
    ensures Deliver(CLEARED, m, capacity, order, times, k)
            == (Assembled(m, capacity, order[k - 1], Wrap32(times[0])), Pending)
  {
    if k == 1 {
      NextFragment(m, capacity, 0, times[0], times[0]);
    } else {
      DeliverPrefix(m, capacity, order, times, k - 1);
      if order[k - 1] == order[k - 2] {
        RepeatedFragment(m, capacity, order[k - 1], Wrap32(times[0]), Wrap32(times[k - 1]));
      } else {
        NextFragment(m, capacity, order[k - 1], times[0], times[k - 1]);
      }
    }
  }

  /** Whatever the schedule of immediate repeats, the message arrives whole at
      the last delivery and nothing is reported before it. */
  lemma ReassemblyInvertsFragmentation(m: Message, capacity: nat, order: seq<nat>, times: seq<nat>)
    requires Transportable(m, capacity)
    requires Schedule(order, FragmentCount(|m.payload|, capacity)) && InTime(times, |order|)
    ensures Deliver(CLEARED, m, capacity, order, times, |order|) == (CLEARED, Complete(m.kind, m.payload))
    ensures forall k | 0 < k < |order| :: Deliver(CLEARED, m, capacity, order, times, k).1 == Pending
  {
    forall k | 0 < k < |order| ensures Deliver(CLEARED, m, capacity, order, times, k).1 == Pending {
      DeliverPrefix(m, capacity, order, times, k);
    }
    var last := order[|order| - 1];
    if |order| > 1 {
      DeliverPrefix(m, capacity, order, times, |order| - 1);
      assert order[|order| - 2] < last;
    }
    NextFragment(m, capacity, last, times[0], times[|order| - 1]);
  }

  // ---------- What a completed message can be made of ----------

  ghost function Concat(parts: seq<seq<byte>>): seq<byte> {
    if parts == [] then [] else Concat(parts[..|parts| - 1]) + parts[|parts| - 1][Min(FRAME_HEADER_SIZE, |parts[|parts| - 1]|)..]
  }

  /** `parts` are the accepted frames behind an open reassembly: one per
      index, in order, with one common header. */
  ghost predicate MadeOf(r: Reassembly, parts: seq<seq<byte>>) {
    && |parts| == r.next
    && |r.bytes| <= r.total
    && r.bytes == Concat(parts)
    && (parts != [] ==> r.active && r.last == parts[|parts| - 1])
    && (parts == [] ==> r == CLEARED)
    && SharedHeader(r, parts)
  }

  ghost predicate SharedHeader(r: Reassembly, parts: seq<seq<byte>>) {
    forall k | 0 <= k < |parts| ::
      WellFormed(r.kind, parts[k]) && Read16(parts[k][4], parts[k][5]) == r.id
      && parts[k][6] == k && parts[k][7] == r.count && Read16(parts[k][8], parts[k][9]) == r.total
  }

  lemma NextPart(r: Reassembly, parts: seq<seq<byte>>, expected: MessageType, f: seq<byte>, now: u32)
    requires MadeOf(r, parts) && WellFormed(expected, f) && (r.active || f[6] == 0)
    requires Fits(Current(r, expected, f, now), expected, f, now)
    ensures MadeOf(Appended(Current(r, expected, f, now), f), parts + [f])
    ensures |parts| == f[6] && Appended(Current(r, expected, f, now), f).bytes == Concat(parts + [f])
  {
    var all := parts + [f];
    assert all[..|parts|] == parts;
    var next := Appended(Current(r, expected, f, now), f);
    forall k | 0 <= k < |all|
      ensures WellFormed(next.kind, all[k]) && Read16(all[k][4], all[k][5]) == next.id
              && all[k][6] == k && all[k][7] == next.count && Read16(all[k][8], all[k][9]) == next.total
    {
      assert all[k] == if k < |parts| then parts[k] else f;
    }
  }

  lemma RefusedFrame(r: Reassembly, expected: MessageType, f: seq<byte>, now: u32)
    requires !(WellFormed(expected, f) && (r.active || f[6] == 0) && Fits(Current(r, expected, f, now), expected, f, now))
    ensures AcceptFrame(r, expected, f, now) == (CLEARED, Malformed) || AcceptFrame(r, expected, f, now) == (r, Pending)
  {
  }

  /** Any frame whatever either leaves the accepted parts alone, or drops
      them, or is the next part; and a completed payload is exactly the parts
      of all indices, with as many bytes as their headers announce. */
  lemma AcceptedPartsGrow(r: Reassembly, parts: seq<seq<byte>>, expected: MessageType, f: seq<byte>, now: u32)
    requires MadeOf(r, parts)
    ensures var (next, result) := AcceptFrame(r, expected, f, now);
            && (result == Malformed ==> next == CLEARED)
            && (result == Pending ==> next == r || MadeOf(next, parts + [f]))
            && (result.Complete? ==>
                  && next == CLEARED && WellFormed(expected, f)
                  && MadeOf(Appended(Current(r, expected, f, now), f), parts + [f])
                  && result == Complete(expected, Concat(parts + [f]))
                  && |parts| + 1 == f[7] && |result.payload| == Read16(f[8], f[9]))
  {
    hide MadeOf, Concat, AcceptFrame;
    if WellFormed(expected, f) && (r.active || f[6] == 0) && Fits(Current(r, expected, f, now), expected, f, now) {
      NextPart(r, parts, expected, f, now);
      FittingFrame(r, expected, f, now);
    } else {
      RefusedFrame(r, expected, f, now);
    }
  }
}
