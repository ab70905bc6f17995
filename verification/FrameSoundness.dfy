/** What the receiver of frames delivers, whatever arrives
    (src/GattProtocol.cpp, the frame part of `receiveFrame`): only messages
    whose parts arrived, one after the other and in time. */
module FrameSoundness {
  import opened Wrappers
  import opened Words
  import opened Framing

  // ---------- On the wire ----------

  lemma KindsOnTheWire()
    ensures TypeByte(ClientHello) == 0x01 && TypeByte(TargetHello) == 0x02
    ensures TypeByte(Challenge) == 0x10 && TypeByte(Proof) == 0x11 && TypeByte(Result) == 0x12
    ensures TypeByte(FastChallenge) == 0x20 && TypeByte(FastProof) == 0x21 && TypeByte(FastResult) == 0x22
    ensures TypeByte(ErrorMessage) == 0x7f
  {
  }

  /** The bytes of a frame: two mark bytes, the version, kind, id, place, number
      of parts and size of the whole, then the part. */
  lemma FrameLayout(m: Message, capacity: nat, index: nat)
    requires Sendable(m, capacity) && index < FragmentCount(|m.payload|, capacity)
    ensures index * capacity < |m.payload| && capacity >= 1 && 1 <= |m.payload| <= 2048
    ensures var n := (|m.payload| + capacity - 1) / capacity;
            var end := if (index + 1) * capacity <= |m.payload| then (index + 1) * capacity else |m.payload|;
            && n <= 255 && index * capacity <= end
            && FrameOf(m, capacity, index) ==
                 [83, 71, 1, TypeByte(m.kind), m.id / 256, m.id % 256, index, n, |m.payload| / 256, |m.payload| % 256]
                 + m.payload[index * capacity..end]
  {
    FragmentBounds(|m.payload|, capacity, index);
  }

  // ---------- Arrivals ----------

  /** A frame, when it came and what kind the receiver took it for. */
  datatype Arrival = Arrival(expected: MessageType, frame: seq<byte>, at: nat)

  /** The receiver after frames on an empty reassembly, and its last answer. */
  ghost function After(arrivals: seq<Arrival>): (Reassembly, FrameResult) {
    if arrivals == [] then (CLEARED, Pending)
    else
      var front, a := arrivals[..|arrivals| - 1], arrivals[|arrivals| - 1];
      AcceptFrame(After(front).0, a.expected, a.frame, Wrap32(a.at))
  }

  ghost predicate InOrder(arrivals: seq<Arrival>) { forall i, j | 0 <= i < j < |arrivals| :: arrivals[i].at <= arrivals[j].at }

  datatype Parts = Parts(kind: MessageType, id: nat, count: nat, total: nat)

  function Number(high: int, low: int): int { high * 256 + low }

  /** A whole frame that is part `i` of such a message. */
  ghost predicate IsPart(f: seq<byte>, p: Parts, i: nat) {
    && 10 < |f| <= 512 && f[0] == 83 && f[1] == 71 && f[2] == 1 && f[3] == TypeByte(p.kind)
    && Number(f[4], f[5]) == p.id > 0 && f[6] == i < f[7] == p.count && 0 < Number(f[8], f[9]) == p.total <= 2048
  }

  /** Two seconds have not passed, or 2^31 ms more have. */
  ghost predicate InTimeSince(first: nat, at: nat) { at < first + 2000 || first + 2000 + 0x8000_0000 <= at }

  /** The arrivals numbered `at` are parts 0, 1, .. of one message, each in time. */
  ghost predicate Collected(arrivals: seq<Arrival>, at: seq<nat>, p: Parts) {
    && (forall i, j | 0 <= i < j < |at| :: at[i] < at[j])
    && (forall i | 0 <= i < |at| :: at[i] < |arrivals| && arrivals[at[i]].expected == p.kind && IsPart(arrivals[at[i]].frame, p, i))
    && (forall i | 0 <= i < |at| :: InTimeSince(arrivals[at[0]].at, arrivals[at[i]].at))
  }

  /** Nothing but repeats came between them. */
  ghost predicate OnlyRepeats(arrivals: seq<Arrival>, at: seq<nat>) {
    && (forall i | 0 <= i < |at| :: at[i] < |arrivals|)
    && (forall i, j, q | 0 <= i && j == i + 1 < |at| && at[i] < q < at[j] && q < |arrivals| :: arrivals[q].frame == arrivals[at[i]].frame)
  }

  ghost function Contents(arrivals: seq<Arrival>, at: seq<nat>): seq<byte>
    requires forall i | 0 <= i < |at| :: at[i] < |arrivals| && |arrivals[at[i]].frame| >= 10
  {
    if at == [] then []
    else Contents(arrivals, at[..|at| - 1]) + arrivals[at[|at| - 1]].frame[10..]
  }

  /** What the reassembly holds. */
  ghost predicate Holds(arrivals: seq<Arrival>, at: seq<nat>, r: Reassembly) {
    && at != [] && |at| == r.next && Collected(arrivals, at, Parts(r.kind, r.id, r.count, r.total)) && OnlyRepeats(arrivals, at)
    && r.bytes == Contents(arrivals, at) && |r.bytes| < r.total
    && (forall q | at[|at| - 1] <= q < |arrivals| :: arrivals[q].frame == r.last)
    && r.started == Wrap32(arrivals[at[0]].at)
  }

  /** A message delivered with the last arrival. */
  ghost predicate Delivered(arrivals: seq<Arrival>, at: seq<nat>, kind: MessageType, payload: seq<byte>) {
    && at != [] && at[|at| - 1] == |arrivals| - 1 && OnlyRepeats(arrivals, at)
    && (exists id: nat :: Collected(arrivals, at, Parts(kind, id, |at|, |payload|)))
    && payload == Contents(arrivals, at)
  }

  // ---------- One more arrival ----------

  lemma {:induction false} ContentsLater(arrivals: seq<Arrival>, a: Arrival, at: seq<nat>)
    requires forall i | 0 <= i < |at| :: at[i] < |arrivals| && |arrivals[at[i]].frame| >= 10
    ensures Contents(arrivals + [a], at) == Contents(arrivals, at)
  {
    if at != [] {
      ContentsLater(arrivals, a, at[..|at| - 1]);
    }
  }

  lemma CollectedLater(arrivals: seq<Arrival>, a: Arrival, at: seq<nat>, p: Parts)
    requires Collected(arrivals, at, p) && OnlyRepeats(arrivals, at)
    ensures Collected(arrivals + [a], at, p) && OnlyRepeats(arrivals + [a], at)
    ensures Contents(arrivals + [a], at) == Contents(arrivals, at)
  {
    ContentsLater(arrivals, a, at);
  }

  lemma CollectedMore(arrivals: seq<Arrival>, a: Arrival, at: seq<nat>, p: Parts)
    requires Collected(arrivals, at, p)
    requires a.expected == p.kind && IsPart(a.frame, p, |at|)
    requires at != [] ==> InTimeSince(arrivals[at[0]].at, a.at)
    ensures Collected(arrivals + [a], at + [|arrivals|], p)
  {
    hide IsPart;
    var more, all := at + [|arrivals|], arrivals + [a];
    assert all[|arrivals|] == a;
    forall i | 0 <= i < |more|
      ensures more[i] < |all| && all[more[i]].expected == p.kind && IsPart(all[more[i]].frame, p, i)
      ensures InTimeSince(all[more[0]].at, all[more[i]].at)
    {
      assert i < |at| ==> all[more[i]] == arrivals[at[i]];
      assert at != [] ==> all[more[0]] == arrivals[at[0]];
    }
  }

  lemma RepeatsMore(arrivals: seq<Arrival>, a: Arrival, at: seq<nat>)
    requires OnlyRepeats(arrivals, at)
    requires at != [] ==> forall q | at[|at| - 1] <= q < |arrivals| :: arrivals[q].frame == arrivals[at[|at| - 1]].frame
    ensures OnlyRepeats(arrivals + [a], at + [|arrivals|])
  {
  }

  lemma ContentsMore(arrivals: seq<Arrival>, a: Arrival, at: seq<nat>)
    requires forall i | 0 <= i < |at| :: at[i] < |arrivals| && |arrivals[at[i]].frame| >= 10
    requires |a.frame| >= 10
    ensures Contents(arrivals + [a], at + [|arrivals|]) == Contents(arrivals, at) + a.frame[10..]
  {
    ContentsLater(arrivals, a, at);
    var more, all := at + [|arrivals|], arrivals + [a];
    assert all[|arrivals|] == a && more[..|more| - 1] == at;
  }

  /** The frame is a part in the sense of the wire, and comes in time. */
  lemma FittingIsPart(r: Reassembly, expected: MessageType, f: seq<byte>, now: u32)
    requires WellFormed(expected, f) && Fits(r, expected, f, now)
    ensures expected == r.kind && IsPart(f, Parts(r.kind, r.id, r.count, r.total), r.next)
    ensures !Reached(now, Wrap32(r.started + 2000))
  {
  }

  lemma NotReachedIsInTime(first: nat, at: nat)
    requires first <= at && !Reached(Wrap32(at), Wrap32(Wrap32(first) + 2000))
    ensures InTimeSince(first, at)
  {
    if at < first + 2000 + 0x8000_0000 {
      DeadlineReached(first, 2000, at);
    }
  }

  /** An accepted part goes to the end of what is held. */
  lemma PartHeld(arrivals: seq<Arrival>, a: Arrival, at: seq<nat>, r: Reassembly)
    requires if r.active then Holds(arrivals, at, r) else r == CLEARED && at == []
    requires InOrder(arrivals + [a]) && WellFormed(a.expected, a.frame) && (r.active || a.frame[6] == 0)
    requires Fits(Current(r, a.expected, a.frame, Wrap32(a.at)), a.expected, a.frame, Wrap32(a.at))
    ensures var c := Current(r, a.expected, a.frame, Wrap32(a.at));
            var (all, more, p) := (arrivals + [a], at + [|arrivals|], Parts(c.kind, c.id, c.count, c.total));
            && Collected(all, more, p) && OnlyRepeats(all, more) && c.bytes + a.frame[10..] == Contents(all, more)
            && c.next == |at| && c.started == Wrap32(all[more[0]].at)
  {
    var c := Current(r, a.expected, a.frame, Wrap32(a.at));
    FittingIsPart(c, a.expected, a.frame, Wrap32(a.at));
    if r.active {
      assert arrivals[at[0]].at <= a.at by {
        assert (arrivals + [a])[at[0]] == arrivals[at[0]] && (arrivals + [a])[|arrivals|] == a;
      }
      NotReachedIsInTime(arrivals[at[0]].at, a.at);
    }
    CollectedMore(arrivals, a, at, Parts(c.kind, c.id, c.count, c.total));
    RepeatsMore(arrivals, a, at);
    ContentsMore(arrivals, a, at);
  }

  lemma AfterOne(arrivals: seq<Arrival>, a: Arrival)
    ensures After(arrivals + [a]) == AcceptFrame(After(arrivals).0, a.expected, a.frame, Wrap32(a.at))
  {
    assert (arrivals + [a])[..|arrivals|] == arrivals;
  }

  lemma RepeatHeld(arrivals: seq<Arrival>, a: Arrival, at: seq<nat>, r: Reassembly)
    requires Holds(arrivals, at, r) && a.frame == r.last
    ensures Holds(arrivals + [a], at, r)
  {
    CollectedLater(arrivals, a, at, Parts(r.kind, r.id, r.count, r.total));
    hide Collected, OnlyRepeats;
    assert (arrivals + [a])[at[0]] == arrivals[at[0]];
  }

  /** What the answer to a frame can be. */
  lemma Answers(r: Reassembly, expected: MessageType, f: seq<byte>, now: u32)
    ensures var (next, answer) := AcceptFrame(r, expected, f, now);
            || (next == CLEARED && answer == Malformed)
            || (r.active && f == r.last && next == r && answer == Pending)
            || (&& WellFormed(expected, f) && (r.active || f[6] == 0)
                && var c := Current(r, expected, f, now);
                && Fits(c, expected, f, now)
                && if f[6] + 1 == f[7]
                   then next == CLEARED && answer == Complete(c.kind, c.bytes + f[10..]) && |c.bytes + f[10..]| == c.total
                   else answer == Pending && next == Appended(c, f) && |c.bytes + f[10..]| < c.total)
  {
    hide WellFormed, Fits;
  }

  lemma PartPending(arrivals: seq<Arrival>, a: Arrival, at: seq<nat>, r: Reassembly)
    requires if r.active then Holds(arrivals, at, r) else r == CLEARED && at == []
    requires InOrder(arrivals + [a]) && WellFormed(a.expected, a.frame) && (r.active || a.frame[6] == 0)
    requires var c := Current(r, a.expected, a.frame, Wrap32(a.at));
             Fits(c, a.expected, a.frame, Wrap32(a.at)) && |c.bytes + a.frame[10..]| < c.total
    ensures Holds(arrivals + [a], at + [|arrivals|], Appended(Current(r, a.expected, a.frame, Wrap32(a.at)), a.frame))
  {
    hide Collected, OnlyRepeats, Contents, Fits, InOrder, Holds, IsPart, Reached;
    PartHeld(arrivals, a, at, r);
    var c := Current(r, a.expected, a.frame, Wrap32(a.at));
    LastHeld(arrivals, a, at, Appended(c, a.frame));
  }

  lemma LastHeld(arrivals: seq<Arrival>, a: Arrival, at: seq<nat>, next: Reassembly)
    requires var (all, more) := (arrivals + [a], at + [|arrivals|]);
             && Collected(all, more, Parts(next.kind, next.id, next.count, next.total)) && OnlyRepeats(all, more)
             && next.bytes == Contents(all, more) && |next.bytes| < next.total && next.last == a.frame
             && next.next == |more| && next.started == Wrap32(all[more[0]].at)
    ensures Holds(arrivals + [a], at + [|arrivals|], next)
  {
    hide Collected, OnlyRepeats, Contents;
  }

  lemma PartCompletes(arrivals: seq<Arrival>, a: Arrival, at: seq<nat>, r: Reassembly)
    requires if r.active then Holds(arrivals, at, r) else r == CLEARED && at == []
    requires InOrder(arrivals + [a]) && WellFormed(a.expected, a.frame) && (r.active || a.frame[6] == 0)
    requires a.frame[6] + 1 == a.frame[7]
    requires var c := Current(r, a.expected, a.frame, Wrap32(a.at));
             Fits(c, a.expected, a.frame, Wrap32(a.at)) && |c.bytes + a.frame[10..]| == c.total
    ensures var c := Current(r, a.expected, a.frame, Wrap32(a.at));
            Delivered(arrivals + [a], at + [|arrivals|], c.kind, c.bytes + a.frame[10..])
  {
    hide Collected, OnlyRepeats, Contents, Fits, InOrder, Holds, Reached;
    var c := Current(r, a.expected, a.frame, Wrap32(a.at));
    PartHeld(arrivals, a, at, r);
    FittingIsPart(c, a.expected, a.frame, Wrap32(a.at));
    var more, payload := at + [|arrivals|], c.bytes + a.frame[10..];
    assert Collected(arrivals + [a], more, Parts(c.kind, c.id, |more|, |payload|));
  }

  /** Another arrival keeps what is known of the receiver, and a message it
      delivers was collected. */
  lemma ArrivalKnown(arrivals: seq<Arrival>, a: Arrival, at: seq<nat>) returns (more: seq<nat>)
    requires InOrder(arrivals + [a])
    requires var r := After(arrivals).0; if r.active then Holds(arrivals, at, r) else r == CLEARED && at == []
    ensures var r := After(arrivals + [a]).0; if r.active then Holds(arrivals + [a], more, r) else r == CLEARED
    ensures var answer := After(arrivals + [a]).1;
            answer.Complete? ==> Delivered(arrivals + [a], more, answer.kind, answer.payload)
  {
    hide AcceptFrame, After, Holds, Delivered, Fits, InOrder;
    more := at;
    var r, now := After(arrivals).0, Wrap32(a.at);
    AfterOne(arrivals, a);
    Answers(r, a.expected, a.frame, now);
    var (next, answer) := AcceptFrame(r, a.expected, a.frame, now);
    if r.active && a.frame == r.last && next == r && answer == Pending {
      RepeatHeld(arrivals, a, at, r);
    } else if answer != Malformed {
      more := at + [|arrivals|];
      if a.frame[6] + 1 == a.frame[7] {
        PartCompletes(arrivals, a, at, r);
      } else {
        PartPending(arrivals, a, at, r);
      }
    }
  }

  /** Whatever frames arrive, whenever: a delivered message was collected from
      arrivals that are all its parts in order, the last one just now, each in
      time after the first, with nothing but repeats between them. */
  lemma {:induction false} DeliveredWasCollected(arrivals: seq<Arrival>) returns (at: seq<nat>)
    requires InOrder(arrivals)
    ensures var r := After(arrivals).0; if r.active then Holds(arrivals, at, r) else r == CLEARED
    ensures var answer := After(arrivals).1; answer.Complete? ==> Delivered(arrivals, at, answer.kind, answer.payload)
  {
    at := [];
    if arrivals != [] {
      var front, a := arrivals[..|arrivals| - 1], arrivals[|arrivals| - 1];
      assert front + [a] == arrivals;
      at := DeliveredWasCollected(front);
      hide After, Holds, Delivered;
      at := ArrivalKnown(front, a, if After(front).0.active then at else []);
    }
  }
}
