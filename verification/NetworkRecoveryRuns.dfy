/** Real-time promises of the station-repair policy over every run. */
module NetworkRecoveryRuns {
  import opened Wrappers
  import opened Words
  import opened NetworkRecovery

  datatype Call =
    | CallObserveLink(generation: u32)
    | CallFailure(kind: Kind, generation: u32)
    | CallAdopted
    | CallObserveConnected(connected: bool)
    | CallNextAction(safe: bool)
    | CallCommit
    | CallReject
    | CallSuspend
    | CallResume

  function Step(s: State, call: Call, now: u32): State {
    match call
    case CallObserveLink(generation) => ObserveLink(s, generation)
    case CallFailure(kind, generation) => Failure(s, kind, now, generation)
    case CallAdopted => Adopted(s, now)
    case CallObserveConnected(connected) => ObserveConnected(s, now, connected)
    case CallNextAction(safe) => NextAction(s, now, safe)
    case CallCommit => Commit(s, now)
    case CallReject => ActionRejected(s, now)
    case CallSuspend => Suspend(s, now)
    case CallResume => Resume(s, now)
  }

  /** An accepted action: its real time, and how many stable sessions preceded it. */
  datatype Taken = Taken(at: nat, action: Action, epoch: nat)

  /** A counted failure, in real time without suspensions. */
  datatype Counting = Counting(kind: Kind, at: nat, generation: u32)

  /** The policy in real time: all actions ever accepted, the real times behind
      the stored ones, the failures behind the current evidence, the total
      suspended time, since when a session is held, and the last rejection
      since an action was accepted. */
  datatype Timed = Timed(
    policy: State, now: nat, taken: seq<Taken>, kept: seq<nat>, epoch: nat,
    behind: seq<Counting>, paused: nat, pausedAt: nat, session: Option<nat>, rejected: Option<nat>)

  const START := Timed(INITIAL, 0, [], [], 0, [], 0, 0, None, None)

  /** The real times whose stamps survive pruning. */
  function KeptAfter(kept: seq<nat>, times: seq<u32>, now: u32): seq<nat>
    requires |kept| == |times|
  {
    if kept == [] then []
    else
      var front := KeptAfter(kept[..|kept| - 1], times[..|times| - 1], now);
      if Sub32(now, times[|times| - 1]) < ACTION_WINDOW_MS then front + [kept[|kept| - 1]] else front
  }

  function Unpaused(t: Timed, at: nat): int { at - t.paused }

  ghost function Advance(t: Timed, call: Call, at: nat): Timed
    requires |t.kept| == |t.policy.budget.times|
  {
    var now := Wrap32(at);
    var next := Step(t.policy, call, now);
    var kept := if call.CallNextAction? || call.CallCommit? then KeptAfter(t.kept, t.policy.budget.times, now) else t.kept;
    var accepted := call.CallCommit? && Committable(t.policy, now);
    var counted := call.CallFailure? && !t.policy.suspended && (call.kind == Dns || call.kind == TransportKind);
    var cleared := || (call.CallObserveLink? && (!t.policy.link.seen || t.policy.link.generation != call.generation))
                   || (call.CallFailure? && !t.policy.suspended && (call.kind == Authorization || call.kind == LocalResource))
                   || (call.CallObserveConnected? && BecomesStable(t.policy, now, call.connected))
                   || accepted;
    Timed(next, at,
          if accepted then t.taken + [Taken(at, t.policy.selected, t.epoch)] else t.taken,
          if accepted then kept + [at] else kept,
          if call.CallObserveConnected? && BecomesStable(t.policy, now, call.connected) then t.epoch + 1 else t.epoch,
          if counted && Unpaused(t, at) >= 0 then
            (if t.policy.link.seen && t.policy.link.generation == call.generation then t.behind else [])
            + [Counting(call.kind, Unpaused(t, at), call.generation)]
          else if cleared then [] else t.behind,
          if call.CallResume? && t.policy.suspended && at >= t.pausedAt then t.paused + (at - t.pausedAt) else t.paused,
          if call.CallSuspend? && !t.policy.suspended then at else t.pausedAt,
          if t.policy.suspended then t.session
          else if call.CallAdopted? then Some(at)
          else if call.CallFailure? || call.CallSuspend? || (call.CallObserveConnected? && !call.connected) then None
          else t.session,
          if call.CallReject? && t.policy.selected != NoAction then Some(at) else if accepted then None else t.rejected)
  }

  // ---------- The budget ----------

  function CommitTimes(taken: seq<Taken>): seq<nat> { seq(|taken|, i requires 0 <= i < |taken| => taken[i].at) }

  /** Stored stamps are those of `kept`; any accepted action not kept is at
      least a window old. */
  ghost predicate BudgetOk(t: Timed) {
    var b := t.policy.budget;
    && |t.kept| == |b.times| <= ACTION_SLOTS
    && (forall i | 0 <= i < |t.kept| :: b.times[i] == Wrap32(t.kept[i]) && t.kept[i] <= t.now)
    && (forall i | 0 <= i < |t.taken| :: t.taken[i].at <= t.now)
    && Increasing(t.kept) && (forall x | x in t.kept :: x in CommitTimes(t.taken))
    && (forall i | 0 <= i < |t.taken| :: t.taken[i].at in t.kept || t.taken[i].at + ACTION_WINDOW_MS <= t.now)
    && (b.seen <==> t.taken != [])
    && (t.taken != [] ==> b.last == Wrap32(t.taken[|t.taken| - 1].at))
    && (b.restarting <==> t.taken != [] && t.taken[|t.taken| - 1].epoch == t.epoch)
    && (forall i | 0 <= i < |t.taken| :: t.taken[i].epoch <= t.epoch)
    && Spaced(t.taken)
  }

  /** Consecutive accepted actions are two minutes apart. */
  ghost predicate Gapped(taken: seq<Taken>) {
    forall i, j | 0 <= i < j < |taken| :: taken[i].at + ACTION_GAP_MS <= taken[j].at && taken[i].epoch <= taken[j].epoch
  }

  /** Any three accepted actions span fifteen minutes. */
  ghost predicate Windowed(taken: seq<Taken>) {
    forall i, k | 0 <= i && i + 2 <= k < |taken| :: taken[i].at + ACTION_WINDOW_MS <= taken[k].at
  }

  /** Between stable sessions only the first action can be a reassociation. */
  ghost predicate OneReassociation(taken: seq<Taken>) {
    forall i, j | 0 <= i < j < |taken| && taken[i].epoch == taken[j].epoch :: taken[j].action == RestartStationInterface
  }

  ghost predicate Spaced(taken: seq<Taken>) { Gapped(taken) && Windowed(taken) && OneReassociation(taken) }

  lemma {:induction false} KeptAfterPrunes(kept: seq<nat>, times: seq<u32>, now: nat)
    requires |kept| == |times| && forall i | 0 <= i < |kept| :: times[i] == Wrap32(kept[i]) && kept[i] <= now
    ensures var after := KeptAfter(kept, times, Wrap32(now));
            && |after| == |Pruned(times, Wrap32(now))| <= |kept|
            && (forall i | 0 <= i < |after| :: Pruned(times, Wrap32(now))[i] == Wrap32(after[i]) && after[i] <= now)
            && (forall x | x in kept :: x in after || x + ACTION_WINDOW_MS <= now)
  {
    if kept != [] {
      var last := |kept| - 1;
      KeptAfterPrunes(kept[..last], times[..last], now);
      ElapsedUnder(kept[last], now);
      forall x | x in kept ensures x in KeptAfter(kept, times, Wrap32(now)) || x + ACTION_WINDOW_MS <= now {
        if x != kept[last] {
          assert x in kept[..last];
        }
      }
    }
  }

  ghost predicate Increasing(times: seq<nat>) { forall i, j | 0 <= i < j < |times| :: times[i] < times[j] }

  /** Pruning keeps the order, and before the clock wraps only what is inside
      the window. */
  lemma {:induction false} KeptAfterStays(kept: seq<nat>, times: seq<u32>, now: nat)
    requires |kept| == |times| && Increasing(kept) && forall i | 0 <= i < |kept| :: times[i] == Wrap32(kept[i]) && kept[i] <= now
    ensures var after := KeptAfter(kept, times, Wrap32(now));
            Increasing(after) && forall x | x in after :: x in kept && (now < 0x1_0000_0000 ==> now < x + 900000)
  {
    if kept != [] {
      var last := |kept| - 1;
      KeptAfterStays(kept[..last], times[..last], now);
      ElapsedUnder(kept[last], now);
      var front := KeptAfter(kept[..last], times[..last], Wrap32(now));
      forall x | x in front ensures x in kept && x < kept[last] {
        assert x in kept[..last];
      }
      IncreasingAppend(front, kept[last]);
    }
  }

  lemma IncreasingAppend(times: seq<nat>, x: nat)
    requires Increasing(times) && forall y | y in times :: y < x
    ensures Increasing(times + [x])
  {
    assert forall i | 0 <= i < |times| :: times[i] in times;
  }

  lemma CommitTimesGrow(taken: seq<Taken>, t: Taken)
    ensures CommitTimes(taken + [t]) == CommitTimes(taken) + [t.at]
  {
  }

  /** Everything kept is no later than the last accepted action. */
  lemma KeptBeforeLast(t: Timed, x: nat)
    requires BudgetOk(t) && x in t.kept
    ensures t.taken != [] && x <= t.taken[|t.taken| - 1].at
  {
    hide Windowed, OneReassociation;
    var times := CommitTimes(t.taken);
    var i :| 0 <= i < |times| && times[i] == x;
    assert i < |t.taken| - 1 ==> t.taken[i].at + ACTION_GAP_MS <= t.taken[|t.taken| - 1].at;
  }

  lemma SpacedExtends(taken: seq<Taken>, t: Taken)
    requires Spaced(taken)
    requires taken != [] ==> taken[|taken| - 1].at + ACTION_GAP_MS <= t.at && taken[|taken| - 1].epoch <= t.epoch
    requires forall i | 0 <= i < |taken| - 1 :: taken[i].at + ACTION_WINDOW_MS <= t.at
    requires taken != [] && taken[|taken| - 1].epoch == t.epoch ==> t.action == RestartStationInterface
    ensures Spaced(taken + [t])
  {
    var all := taken + [t];
    assert Windowed(all) by {
      hide Gapped, OneReassociation;
    }
    assert Gapped(all) by {
      hide Windowed, OneReassociation;
      forall i, j | 0 <= i < j < |all| ensures all[i].at + ACTION_GAP_MS <= all[j].at && all[i].epoch <= all[j].epoch {
        if j == |taken| && i < |taken| - 1 {
          assert taken[i].at <= taken[|taken| - 1].at && taken[i].epoch <= taken[|taken| - 1].epoch;
        }
      }
    }
    assert OneReassociation(all) by {
      hide Windowed;
      forall i, j | 0 <= i < j < |all| && all[i].epoch == all[j].epoch ensures all[j].action == RestartStationInterface {
        if j == |taken| && i < |taken| - 1 {
          assert taken[i].epoch <= taken[|taken| - 1].epoch;
        }
      }
    }
  }

  lemma NextActionBudget(t: Timed, safe: bool, at: nat)
    requires BudgetOk(t) && t.now <= at
    ensures BudgetOk(Advance(t, CallNextAction(safe), at))
  {
    hide Candidate, Spaced, CommitTimes;
    KeptAfterPrunes(t.kept, t.policy.budget.times, at);
    KeptAfterStays(t.kept, t.policy.budget.times, at);
  }

  /** What a commit has checked, in real time. */
  lemma CommitChecks(t: Timed, at: nat)
    requires BudgetOk(t) && t.now <= at && Committable(t.policy, Wrap32(at))
    ensures |KeptAfter(t.kept, t.policy.budget.times, Wrap32(at))| < ACTION_SLOTS
    ensures t.taken != [] ==> t.taken[|t.taken| - 1].at + ACTION_GAP_MS <= at
    ensures t.policy.selected == if t.policy.budget.restarting then RestartStationInterface else ReassociateStation
  {
    hide Spaced;
    KeptAfterPrunes(t.kept, t.policy.budget.times, at);
    if t.taken != [] {
      ElapsedUnder(t.taken[|t.taken| - 1].at, at);
    }
  }

  /** With fewer than two kept, of any two earlier actions the older one is a
      window old. */
  lemma OlderIsOut(t: Timed, at: nat, i: nat)
    requires BudgetOk(t) && t.now <= at && i < |t.taken| - 1
    requires |KeptAfter(t.kept, t.policy.budget.times, Wrap32(at))| < ACTION_SLOTS
    ensures t.taken[i].at + ACTION_WINDOW_MS <= at
  {
    KeptAfterPrunes(t.kept, t.policy.budget.times, at);
    var after := KeptAfter(t.kept, t.policy.budget.times, Wrap32(at));
    var j := |t.taken| - 1;
    assert t.taken[i].at + ACTION_GAP_MS <= t.taken[j].at;
    hide KeptAfter, Pruned, Spaced;
    OnlyOne(after, t.taken[i].at, t.taken[j].at);
  }

  lemma OnlyOne(s: seq<nat>, x: nat, y: nat)
    requires |s| < 2 && x != y
    ensures x !in s || y !in s
  {
  }

  lemma CommitBudget(t: Timed, at: nat)
    requires BudgetOk(t) && t.now <= at
    ensures BudgetOk(Advance(t, CallCommit, at))
  {
    hide Spaced, KeptAfter, Candidate, CommitTimes;
    if Committable(t.policy, Wrap32(at)) {
      CommitChecks(t, at);
      forall i | 0 <= i < |t.taken| - 1 ensures t.taken[i].at + ACTION_WINDOW_MS <= at {
        OlderIsOut(t, at, i);
      }
      SpacedExtends(t.taken, Taken(at, t.policy.selected, t.epoch));
      hide Advance;
      CommittedBudget(t, at);
    } else {
      KeptAfterPrunes(t.kept, t.policy.budget.times, at);
      KeptAfterStays(t.kept, t.policy.budget.times, at);
    }
  }

  lemma CommittedBudget(t: Timed, at: nat)
    requires BudgetOk(t) && t.now <= at && Committable(t.policy, Wrap32(at))
    requires |KeptAfter(t.kept, t.policy.budget.times, Wrap32(at))| < ACTION_SLOTS
    requires Spaced(t.taken + [Taken(at, t.policy.selected, t.epoch)])
    ensures BudgetOk(Advance(t, CallCommit, at))
  {
    hide Candidate, Spaced, CommitTimes;
    CommitChecks(t, at);
    KeptAfterPrunes(t.kept, t.policy.budget.times, at);
    KeptAfterStays(t.kept, t.policy.budget.times, at);
    CommitTimesGrow(t.taken, Taken(at, t.policy.selected, t.epoch));
    var after := KeptAfter(t.kept, t.policy.budget.times, Wrap32(at));
    forall x | x in after ensures x < at {
      KeptBeforeLast(t, x);
    }
    IncreasingAppend(after, at);
    hide Increasing;
  }

  lemma OtherBudget(t: Timed, call: Call, at: nat)
    requires BudgetOk(t) && t.now <= at && !call.CallCommit? && !call.CallNextAction?
    ensures BudgetOk(Advance(t, call, at))
  {
    hide Spaced, Counted, Shifted, Wrap32, Sub32, CommitTimes, Increasing;
  }

  lemma BudgetKept(t: Timed, call: Call, at: nat)
    requires BudgetOk(t) && t.now <= at
    ensures BudgetOk(Advance(t, call, at))
  {
    hide BudgetOk, Advance;
    if call.CallCommit? {
      CommitBudget(t, at);
    } else if call.CallNextAction? {
      NextActionBudget(t, call.safe, at);
    } else {
      OtherBudget(t, call, at);
    }
  }

  // ---------- The evidence ----------

  function DnsTimes(behind: seq<Counting>): seq<nat> {
    if behind == [] then []
    else
      var last := behind[|behind| - 1];
      DnsTimes(behind[..|behind| - 1]) + if last.kind == Dns then [last.at] else []
  }

  function Times(behind: seq<Counting>): (r: seq<nat>)
    ensures |r| == |behind|
  {
    seq(|behind|, i requires 0 <= i < |behind| => behind[i].at)
  }

  function Capped(n: nat): u16 { Min(n, 0xFFFF) }

  /** `first` and `last` are the stamps of the ends of `times`, shifted by the
      pauses since. */
  ghost predicate Stamps(times: seq<nat>, paused: nat, first: u32, last: u32) {
    times != [] ==> first == Wrap32(times[0] + paused) && last == Wrap32(times[|times| - 1] + paused)
  }

  ghost predicate Ordered(times: seq<nat>, bound: int) {
    (forall i, j | 0 <= i < j < |times| :: times[i] <= times[j]) && (forall i | 0 <= i < |times| :: times[i] <= bound)
  }

  /** The real time up to which suspensions are accounted. */
  function Settled(t: Timed): nat { if t.policy.suspended then t.pausedAt else t.now }

  /** The evidence fields say what the failures behind them were. */
  ghost predicate Matches(e: Evidence, behind: seq<Counting>, paused: nat, bound: int) {
    && e.failures == Capped(|behind|) && e.dns == Capped(|DnsTimes(behind)|)
    && Stamps(Times(behind), paused, e.first, e.last)
    && Stamps(DnsTimes(behind), paused, e.firstDns, e.lastDns)
    && Ordered(Times(behind), bound) && Ordered(DnsTimes(behind), bound)
  }

  ghost predicate EvidenceOk(t: Timed) {
    && t.paused <= Settled(t) <= t.now
    && (t.policy.suspended ==> t.policy.suspendedAt == Wrap32(t.pausedAt))
    && Matches(t.policy.evidence, t.behind, t.paused, Settled(t) - t.paused)
    && (t.behind != [] ==> t.policy.link.seen)
    && (t.policy.link.connected <==> t.session.Some?)
    && (t.session.Some? ==> t.policy.link.adopted == Wrap32(t.session.value) && t.session.value <= t.now && !t.policy.suspended)
    && (t.policy.budget.rejectionSeen <==> t.rejected.Some?)
    && (t.rejected.Some? ==> t.policy.budget.rejected == Wrap32(t.rejected.value) && t.rejected.value <= t.now)
    && forall i | 0 <= i < |t.behind| :: t.behind[i].generation == t.policy.link.generation
  }

  /** Enough failures of one link, far enough apart in unsuspended real time. */
  ghost predicate Qualified(t: Timed) {
    && (forall i | 0 <= i < |t.behind| :: t.behind[i].generation == t.policy.link.generation)
    && (Spans(DnsTimes(t.behind), 3, 60000) || Spans(Times(t.behind), 6, 180000))
  }

  ghost predicate Spans(times: seq<nat>, count: nat, span: nat) {
    |times| >= count > 0 && times[0] + span <= times[|times| - 1]
  }

  lemma DueSpans(times: seq<nat>, bound: int, paused: nat, first: u32, last: u32, count: nat, span: nat)
    requires Ordered(times, bound) && Stamps(times, paused, first, last)
    requires 0 < count <= Capped(|times|) && Sub32(last, first) >= span
    ensures Spans(times, count, span)
  {
    ElapsedUnder(times[0] + paused, times[|times| - 1] + paused);
  }

  /** An action is only ever selected on failures of the current link that span
      the threshold in unsuspended real time. */
  lemma SelectedIsQualified(t: Timed, safe: bool, at: nat)
    requires EvidenceOk(t) && t.now <= at
    ensures NextAction(t.policy, Wrap32(at), safe).selected != NoAction ==>
              && safe && Qualified(t) && t.session.None? && !t.policy.suspended
              && (t.rejected.Some? ==> t.rejected.value + 30000 <= at)
  {
    if t.rejected.Some? {
      ElapsedUnder(t.rejected.value, at);
    }
    var e := t.policy.evidence;
    hide Held, Stamps, Ordered, Spans, DnsTimes, Times, Pruned;
    if DnsDue(e) {
      DueSpans(DnsTimes(t.behind), Settled(t) - t.paused, t.paused, e.firstDns, e.lastDns, DNS_FAILURES, DNS_SPAN_MS);
    }
    if TransportDue(e) {
      DueSpans(Times(t.behind), Settled(t) - t.paused, t.paused, e.first, e.last, TRANSPORT_FAILURES, TRANSPORT_SPAN_MS);
    }
  }

  /** Fewer than two accepted actions in the last fifteen minutes. */
  ghost predicate Affordable(t: Timed, at: nat) {
    var n := |t.taken|;
    (n > 0 ==> t.taken[n - 1].at + 120000 <= at) && (n > 1 ==> t.taken[n - 2].at + 900000 <= at)
  }

  /** When an action is due, in real time: no session and no suspension, half a
      minute since a rejection, the failures, and the budget. */
  ghost predicate Due(t: Timed, at: nat) {
    && t.session.None? && !t.policy.suspended && (t.rejected.Some? ==> t.rejected.value + 30000 <= at)
    && Qualified(t) && Affordable(t, at)
  }

  /** The first action between stable sessions reassociates, any other restarts
      the interface. */
  ghost function DueAction(t: Timed): Action {
    if t.taken != [] && t.taken[|t.taken| - 1].epoch == t.epoch then RestartStationInterface else ReassociateStation
  }

  lemma SpansDue(times: seq<nat>, bound: int, paused: nat, first: u32, last: u32, count: nat, span: nat)
    requires Ordered(times, bound) && Stamps(times, paused, first, last) && bound + paused < 0x1_0000_0000
    requires 0 < count < 0xFFFF
    ensures Spans(times, count, span) <==> Capped(|times|) >= count && Sub32(last, first) >= span
  {
    if times != [] {
      ElapsedUnder(times[0] + paused, times[|times| - 1] + paused);
    }
  }

  /** The evidence fields qualify exactly when the failures behind them do. */
  lemma EvidenceIsDue(t: Timed)
    requires EvidenceOk(t) && t.now < 0x1_0000_0000
    ensures DnsDue(t.policy.evidence) || TransportDue(t.policy.evidence) <==> Qualified(t)
  {
    var e := t.policy.evidence;
    hide Stamps, Ordered, Spans, DnsTimes, Times;
    SpansDue(DnsTimes(t.behind), Settled(t) - t.paused, t.paused, e.firstDns, e.lastDns, 3, 60000);
    SpansDue(Times(t.behind), Settled(t) - t.paused, t.paused, e.first, e.last, 6, 180000);
  }

  lemma GappedIsSorted(taken: seq<Taken>)
    requires Gapped(taken)
    ensures forall i, j | 0 <= i <= j < |taken| :: taken[i].at <= taken[j].at
  {
  }

  /** Two kept after pruning are two accepted actions inside the window. */
  lemma TwoInside(t: Timed, at: nat)
    requires BudgetOk(t) && t.now <= at < 0x1_0000_0000
    requires t.taken != [] ==> t.taken[|t.taken| - 1].at + 120000 <= at
    ensures |KeptAfter(t.kept, t.policy.budget.times, Wrap32(at))| < 2 <==> (|t.taken| > 1 ==> t.taken[|t.taken| - 2].at + 900000 <= at)
  {
    KeptAfterStays(t.kept, t.policy.budget.times, at);
    KeptAfterPrunes(t.kept, t.policy.budget.times, at);
    var after := KeptAfter(t.kept, t.policy.budget.times, Wrap32(at));
    var n := |t.taken|;
    hide KeptAfter, Pruned, Windowed, OneReassociation;
    if |after| < 2 && n > 1 {
      assert t.taken[n - 2].at + ACTION_GAP_MS <= t.taken[n - 1].at;
      OlderIsOut(t, at, n - 2);
    }
    if |after| >= 2 {
      var times := CommitTimes(t.taken);
      assert after[0] in after && after[1] in after && after[0] < after[1];
      var i :| 0 <= i < n && times[i] == after[0];
      var j :| 0 <= j < n && times[j] == after[1];
      GappedIsSorted(t.taken);
    }
  }

  /** Before the clock wraps, exactly what is due is a candidate. */
  lemma CandidateIsDue(t: Timed, at: nat)
    requires Kept(t) && t.now <= at < 0x1_0000_0000
    ensures Candidate(Prune(t.policy, Wrap32(at)), Wrap32(at)) == if Due(t, at) then DueAction(t) else NoAction
  {
    hide Spaced, Qualified, Matches, DnsDue, TransportDue, Pruned, KeptAfter;
    EvidenceIsDue(t);
    KeptAfterPrunes(t.kept, t.policy.budget.times, at);
    if t.rejected.Some? {
      ElapsedUnder(t.rejected.value, at);
    }
    if t.taken != [] {
      ElapsedUnder(t.taken[|t.taken| - 1].at, at);
    }
    if t.taken != [] ==> t.taken[|t.taken| - 1].at + 120000 <= at {
      TwoInside(t, at);
    }
  }

  /** Before the clock wraps, a safe request selects exactly the action that is
      due, and a commit is accepted exactly if it is the selected one. */
  lemma SelectsWhatIsDue(t: Timed, safe: bool, at: nat)
    requires Kept(t) && t.now <= at < 0x1_0000_0000
    ensures NextAction(t.policy, Wrap32(at), safe).selected == if safe && Due(t, at) then DueAction(t) else NoAction
    ensures Committable(t.policy, Wrap32(at)) <==> Due(t, at) && t.policy.selected == DueAction(t)
  {
    CandidateIsDue(t, at);
    hide Due, Candidate, Prune, Kept;
  }

  /** A session counts as stable only after a minute without interruption, and
      at the next observation after it unless 2^32 ms have gone by. */
  lemma StableIsLong(t: Timed, connected: bool, at: nat)
    requires EvidenceOk(t) && t.now <= at
    ensures BecomesStable(t.policy, Wrap32(at), connected) ==> connected && t.session.Some? && t.session.value + 60000 <= at
    ensures connected && t.session.Some? && !t.policy.link.stable && t.session.value + 60000 <= at < t.session.value + 0x1_0000_0000 ==>
              BecomesStable(t.policy, Wrap32(at), connected)
  {
    hide Matches;
    if t.session.Some? {
      ElapsedUnder(t.session.value, at);
    }
  }

  lemma MatchesLater(e: Evidence, behind: seq<Counting>, paused: nat, bound: int, later: int)
    requires Matches(e, behind, paused, bound) && bound <= later
    ensures Matches(e, behind, paused, later)
  {
  }

  /** Steps that neither count a failure nor end a suspension. */
  lemma QuietEvidence(t: Timed, call: Call, at: nat)
    requires BudgetOk(t) && EvidenceOk(t) && t.now <= at
    requires !call.CallFailure? && !(call.CallResume? && t.policy.suspended)
    ensures EvidenceOk(Advance(t, call, at))
  {
    hide Pruned, KeptAfter, Candidate, Spaced, Sub32, Stamps, Ordered, DnsTimes, Times;
    var next := Advance(t, call, at);
    MatchesLater(t.policy.evidence, t.behind, t.paused, Settled(t) - t.paused, Settled(next) - next.paused);
    EmptyMatches(next.paused, Settled(next) - next.paused);
    hide Matches;
  }

  lemma Appended(behind: seq<Counting>, c: Counting)
    ensures |Times(behind)| == |behind| && Times(behind + [c]) == Times(behind) + [c.at]
    ensures DnsTimes(behind + [c]) == if c.kind == Dns then DnsTimes(behind) + [c.at] else DnsTimes(behind)
  {
    assert (behind + [c])[..|behind|] == behind;
    assert DnsTimes(behind) + [] == DnsTimes(behind);
  }

  lemma LaterTime(times: seq<nat>, x: nat, paused: nat, first: u32, last: u32)
    requires Stamps(times, paused, first, last) && Ordered(times, x)
    ensures Stamps(times + [x], paused, if times == [] then Wrap32(x + paused) else first, Wrap32(x + paused))
    ensures Ordered(times + [x], x)
    ensures Capped(|times + [x]|) == Increment(Capped(|times|)) && (Capped(|times|) == 0 <==> times == [])
  {
    hide Wrap32;
  }

  lemma CountedMatches(e: Evidence, behind: seq<Counting>, paused: nat, now: nat, kind: Kind, generation: u32)
    requires Matches(e, behind, paused, now - paused) && paused <= now
    ensures Matches(Counted(e, kind, Wrap32(now)), behind + [Counting(kind, now - paused, generation)], paused, now - paused)
  {
    hide DnsTimes, Times, Wrap32, Stamps, Ordered, Capped, Increment;
    Appended(behind, Counting(kind, now - paused, generation));
    LaterTime(Times(behind), now - paused, paused, e.first, e.last);
    LaterTime(DnsTimes(behind), now - paused, paused, e.firstDns, e.lastDns);
  }

  lemma FailureEvidence(t: Timed, kind: Kind, generation: u32, at: nat)
    requires BudgetOk(t) && EvidenceOk(t) && t.now <= at
    ensures EvidenceOk(Advance(t, CallFailure(kind, generation), at))
  {
    hide Spaced, Matches, Counted, Wrap32;
    var next := Advance(t, CallFailure(kind, generation), at);
    MatchesLater(t.policy.evidence, t.behind, t.paused, Settled(t) - t.paused, Settled(next) - next.paused);
    EmptyMatches(t.paused, Settled(next) - next.paused);
    if !t.policy.suspended {
      var same := t.policy.link.seen && t.policy.link.generation == generation;
      var before := if same then t.behind else [];
      var e := if same then t.policy.evidence else NO_EVIDENCE;
      CountedMatches(e, before, t.paused, at, kind, generation);
      CountedIsEvidence(e, kind, Wrap32(at));
      var all := before + [Counting(kind, at - t.paused, generation)];
      assert forall i | 0 <= i < |all| :: all[i].generation == generation;
    }
  }

  lemma EmptyMatches(paused: nat, bound: int)
    ensures Matches(NO_EVIDENCE, [], paused, bound)
  {
  }

  lemma CountedIsEvidence(e: Evidence, kind: Kind, now: u32)
    ensures Counted(e, kind, now) != NO_EVIDENCE
  {
  }

  /** Stamps moved by a pause are those of the same times after it. */
  lemma ShiftStamp(x: nat, paused: nat, pausedAt: nat, now: nat)
    requires pausedAt <= now
    ensures Wrap32(Wrap32(x + paused) + Sub32(Wrap32(now), Wrap32(pausedAt))) == Wrap32(x + (paused + (now - pausedAt)))
  {
    ElapsedWraps(pausedAt, now);
    WrapAdd(x + paused, Wrap32(now - pausedAt));
    WrapAdd(now - pausedAt, x + paused);
  }

  lemma ShiftedMatches(e: Evidence, behind: seq<Counting>, paused: nat, pausedAt: nat, now: nat)
    requires paused <= pausedAt <= now && Matches(e, behind, paused, pausedAt - paused)
    ensures Matches(Shifted(e, Sub32(Wrap32(now), Wrap32(pausedAt))), behind, paused + (now - pausedAt), pausedAt - paused)
  {
    hide DnsTimes, Times, Wrap32, Sub32;
    var all, dns := Times(behind), DnsTimes(behind);
    if all != [] {
      ShiftStamp(all[0], paused, pausedAt, now);
      ShiftStamp(all[|all| - 1], paused, pausedAt, now);
    }
    if dns != [] {
      ShiftStamp(dns[0], paused, pausedAt, now);
      ShiftStamp(dns[|dns| - 1], paused, pausedAt, now);
    }
  }

  lemma ResumeEvidence(t: Timed, at: nat)
    requires BudgetOk(t) && EvidenceOk(t) && t.now <= at && t.policy.suspended
    ensures EvidenceOk(Advance(t, CallResume, at))
  {
    hide Spaced, Matches, Shifted, Sub32, Wrap32;
    ShiftedMatches(t.policy.evidence, t.behind, t.paused, t.pausedAt, at);
    NoEvidenceNothing(t);
    ShiftedEmpty(t.policy.evidence, Sub32(Wrap32(at), t.policy.suspendedAt));
  }

  lemma NoEvidenceNothing(t: Timed)
    requires EvidenceOk(t)
    ensures t.policy.evidence.failures == 0 ==> t.behind == []
  {
    hide DnsTimes, Times;
  }

  lemma ShiftedEmpty(e: Evidence, pause: u32)
    ensures Shifted(e, pause) == NO_EVIDENCE ==> e.failures == 0
  {
  }

  // ---------- Every run ----------

  ghost predicate Kept(t: Timed) { BudgetOk(t) && EvidenceOk(t) }

  lemma AdvanceKept(t: Timed, call: Call, at: nat)
    requires Kept(t) && t.now <= at
    ensures Kept(Advance(t, call, at))
  {
    hide BudgetOk, EvidenceOk, Advance;
    BudgetKept(t, call, at);
    if call.CallFailure? {
      FailureEvidence(t, call.kind, call.generation, at);
    } else if call.CallResume? && t.policy.suspended {
      ResumeEvidence(t, at);
    } else {
      QuietEvidence(t, call, at);
    }
  }

  datatype Input = Input(call: Call, at: nat)

  /** Real time never runs backwards. */
  ghost predicate Monotone(inputs: seq<Input>) { forall i, j | 0 <= i < j < |inputs| :: inputs[i].at <= inputs[j].at }

  ghost function Run(inputs: seq<Input>): (t: Timed)
    requires Monotone(inputs)
    ensures Kept(t) && (inputs != [] ==> t.now == inputs[|inputs| - 1].at) && (inputs == [] ==> t.now == 0)
  {
    if inputs == [] then START
    else
      var front, last := inputs[..|inputs| - 1], inputs[|inputs| - 1];
      AdvanceKept(Run(front), last.call, last.at);
      Advance(Run(front), last.call, last.at)
  }

  /** Over every run: accepted actions are two minutes apart, any three span
      fifteen minutes, and between two stable sessions at most the first is a
      reassociation. */
  lemma {:induction false} RepairBudget(inputs: seq<Input>, i: nat, j: nat)
    requires Monotone(inputs) && i < j < |Run(inputs).taken|
    ensures var taken := Run(inputs).taken;
            && taken[i].at + 120000 <= taken[j].at
            && (i + 2 <= j ==> taken[i].at + 900000 <= taken[j].at)
            && (taken[i].epoch == taken[j].epoch ==> taken[j].action != ReassociateStation)
  {
  }

  /** Over every run: an action is accepted only while the evidence qualifies. */
  lemma {:induction false} AcceptedIsQualified(inputs: seq<Input>, at: nat)
    requires Monotone(inputs) && Run(inputs).now <= at && Committable(Run(inputs).policy, Wrap32(at))
    ensures var t := Run(inputs);
            Qualified(t) && t.session.None? && !t.policy.suspended && (t.rejected.Some? ==> t.rejected.value + 30000 <= at)
  {
    SelectedIsQualified(Run(inputs), true, at);
  }

  /** The state after further calls. */
  ghost function After(s: State, calls: seq<Input>): State
    decreases |calls|
  {
    if calls == [] then s
    else
      var front, last := calls[..|calls| - 1], calls[|calls| - 1];
      Step(After(s, front), last.call, Wrap32(last.at))
  }

  /** How many of them are accepted commits. */
  ghost function Commits(s: State, calls: seq<Input>): nat
    decreases |calls|
  {
    if calls == [] then 0
    else
      var front, last := calls[..|calls| - 1], calls[|calls| - 1];
      Commits(s, front) + (if last.call.CallCommit? && Committable(After(s, front), Wrap32(last.at)) then 1 else 0)
  }

  lemma {:induction false} AfterAppend(s: State, calls: seq<Input>, more: seq<Input>)
    ensures After(s, calls + more) == After(After(s, calls), more)
    ensures Commits(s, calls + more) == Commits(s, calls) + Commits(After(s, calls), more)
    decreases |more|
  {
    hide Step, Committable;
    if more == [] {
      assert calls + more == calls;
    } else {
      var k := |more| - 1;
      assert (calls + more)[..|calls| + k] == calls + more[..k];
      AfterAppend(s, calls, more[..k]);
    }
  }

  lemma AfterOne(s: State, i: Input)
    ensures After(s, [i]) == Step(s, i.call, Wrap32(i.at))
    ensures Commits(s, [i]) == if i.call.CallCommit? && Committable(s, Wrap32(i.at)) then 1 else 0
  {
    hide Step, Committable;
    assert [i][..0] == [];
    assert After(s, []) == s && Commits(s, []) == 0;
  }

  /** A run goes on as its state does, and takes as many more actions. */
  lemma {:induction false} RunAppend(inputs: seq<Input>, more: seq<Input>)
    requires Monotone(inputs + more)
    ensures Monotone(inputs) && Run(inputs + more).policy == After(Run(inputs).policy, more)
    ensures |Run(inputs + more).taken| == |Run(inputs).taken| + Commits(Run(inputs).policy, more)
    decreases |more|
  {
    hide Step, Committable, Advance, Kept, Run;
    assert forall i | 0 <= i < |inputs| :: (inputs + more)[i] == inputs[i];
    if more == [] {
      assert inputs + more == inputs;
    } else {
      var k := |more| - 1;
      assert (inputs + more)[..|inputs| + k] == inputs + more[..k] && (inputs + more)[|inputs| + k] == more[k];
      RunUnfolds(inputs + more);
      RunAppend(inputs, more[..k]);
      TakenUnfolds(inputs + more);
    }
  }

  lemma KeptSizes(t: Timed)
    requires Kept(t)
    ensures |t.kept| == |t.policy.budget.times|
  {
  }

  lemma {:induction false} RunUnfolds(inputs: seq<Input>)
    requires Monotone(inputs) && inputs != []
    ensures var front, last := inputs[..|inputs| - 1], inputs[|inputs| - 1];
            && Monotone(front) && Run(inputs).now == last.at
            && Run(inputs).policy == Step(Run(front).policy, last.call, Wrap32(last.at))
  {
    var front := inputs[..|inputs| - 1];
    KeptSizes(Run(front));
    hide Kept, Step, KeptAfter;
  }

  /** A run leads the policy to this state at that time. */
  ghost predicate Leads(inputs: seq<Input>, s: State, at: nat) {
    Monotone(inputs) && Run(inputs).policy == s && Run(inputs).now == at
  }

  lemma {:induction false} LeadsOn(inputs: seq<Input>, s: State, at: nat, last: Input)
    requires Leads(inputs, s, at) && at <= last.at
    ensures Leads(inputs + [last], Step(s, last.call, Wrap32(last.at)), last.at)
  {
    assert inputs != [] ==> Run(inputs).now == inputs[|inputs| - 1].at;
    assert Monotone(inputs + [last]);
    assert (inputs + [last])[..|inputs|] == inputs;
    RunUnfolds(inputs + [last]);
    hide Monotone, Run, Step;
  }

  /** A state after name look-ups failed three times over a minute. */
  function AfterLookups(s: State, at: nat): State {
    s.(evidence := Evidence(3, 3, Wrap32(at), Wrap32(at + 60000), Wrap32(at), Wrap32(at + 60000)),
       link := Link(true, 7, false, false, s.link.adopted), selected := NoAction)
  }

  lemma {:induction false} FailingLookups(inputs: seq<Input>, s: State, now: nat, at: nat) returns (more: seq<Input>)
    requires Leads(inputs, s, now) && now <= at && !s.suspended && s.evidence == NO_EVIDENCE
    ensures Leads(more, AfterLookups(s, at), at + 60000)
  {
    hide Leads, Wrap32;
    var call := CallFailure(Dns, 7);
    var first := Failure(s, Dns, Wrap32(at), 7);
    var second := Failure(first, Dns, Wrap32(at), 7);
    var once, twice := inputs + [Input(call, at)], inputs + [Input(call, at)] + [Input(call, at)];
    LeadsOn(inputs, s, now, Input(call, at));
    LeadsOn(once, first, at, Input(call, at));
    LeadsOn(twice, second, at, Input(call, at + 60000));
    more := twice + [Input(call, at + 60000)];
  }

  // ---------- The policy object over runs ----------

  /** Any call, on the object. */
  method Perform(policy: NetworkRecoveryPolicy, call: Call, now: u32) returns (accepted: bool)
    requires policy.Valid()
    modifies policy, policy.actionTimes
    ensures policy.Valid() && policy.Model() == Step(old(policy.Model()), call, now)
    ensures accepted == (call.CallCommit? && Committable(old(policy.Model()), now))
  {
    hide NetworkRecoveryPolicy.Model, ObserveLink, Failure, Adopted, ObserveConnected, NextAction, Committable, Commit, ActionRejected, Suspend, Resume;
    accepted := false;
    match call
    case CallObserveLink(generation) => policy.ObserveLinkGeneration(generation);
    case CallFailure(kind, generation) => policy.NoteFailure(kind, now, generation);
    case CallAdopted => policy.NoteAdopted(now);
    case CallObserveConnected(connected) => policy.NoteConnected(now, connected);
    case CallNextAction(safe) => var chosen := policy.SelectNext(now, safe);
    case CallCommit => accepted := policy.CommitAction(now);
    case CallReject => policy.RejectAction(now);
    case CallSuspend => policy.NoteSuspend(now);
    case CallResume => policy.NoteResume(now);
  }

  /** A new policy through any calls at any times: the commits it accepts keep
      the budget. */
  method Drive(inputs: seq<Input>) returns (policy: NetworkRecoveryPolicy, commits: seq<nat>)
    requires Monotone(inputs)
    ensures fresh(policy) && policy.Valid() && policy.Model() == Run(inputs).policy && commits == CommitTimes(Run(inputs).taken)
    ensures forall i, j | 0 <= i < j < |commits| ::
              commits[i] + 120000 <= commits[j] && (i + 2 <= j ==> commits[i] + 900000 <= commits[j])
  {
    hide NetworkRecoveryPolicy.Model, Step, Run, Committable, CommitTimes, Monotone, Kept;
    policy := new NetworkRecoveryPolicy();
    commits := [];
    StartRuns();
    var k := 0;
    assert inputs[..0] == [];
    while k < |inputs|
      invariant 0 <= k <= |inputs| && fresh(policy) && fresh(policy.actionTimes) && policy.Valid()
      invariant Monotone(inputs[..k]) && policy.Model() == Run(inputs[..k]).policy && commits == CommitTimes(Run(inputs[..k]).taken)
    {
      var accepted := Perform(policy, inputs[k].call, Wrap32(inputs[k].at));
      PrefixTimes(inputs, k);
      if accepted {
        commits := commits + [inputs[k].at];
      }
      k := k + 1;
    }
    assert inputs[..k] == inputs;
    TimesKeepBudget(inputs);
  }

  lemma {:induction false} TimesKeepBudget(inputs: seq<Input>)
    requires Monotone(inputs)
    ensures var commits := CommitTimes(Run(inputs).taken);
            forall i, j | 0 <= i < j < |commits| ::
              commits[i] + 120000 <= commits[j] && (i + 2 <= j ==> commits[i] + 900000 <= commits[j])
  {
    hide Run;
    forall i, j | 0 <= i < j < |Run(inputs).taken|
      ensures Run(inputs).taken[i].at + 120000 <= Run(inputs).taken[j].at
      ensures i + 2 <= j ==> Run(inputs).taken[i].at + 900000 <= Run(inputs).taken[j].at
    {
      RepairBudget(inputs, i, j);
    }
  }

  lemma {:induction false} PrefixTimes(inputs: seq<Input>, k: nat)
    requires Monotone(inputs) && k < |inputs|
    ensures Monotone(inputs[..k]) && Monotone(inputs[..k + 1])
    ensures Run(inputs[..k + 1]).policy == Step(Run(inputs[..k]).policy, inputs[k].call, Wrap32(inputs[k].at))
    ensures CommitTimes(Run(inputs[..k + 1]).taken) ==
              if inputs[k].call.CallCommit? && Committable(Run(inputs[..k]).policy, Wrap32(inputs[k].at))
              then CommitTimes(Run(inputs[..k]).taken) + [inputs[k].at]
              else CommitTimes(Run(inputs[..k]).taken)
  {
    hide Step, Run, Committable;
    var longer := inputs[..k + 1];
    assert longer[..|longer| - 1] == inputs[..k] && longer[k] == inputs[k];
    RunUnfolds(longer);
    TakenUnfolds(longer);
  }

  lemma StartRuns()
    ensures Monotone([]) && Run([]).policy == INITIAL && CommitTimes(Run([]).taken) == []
  {
  }

  lemma {:induction false} TakenUnfolds(inputs: seq<Input>)
    requires Monotone(inputs) && inputs != []
    ensures var front, last := inputs[..|inputs| - 1], inputs[|inputs| - 1];
            Monotone(front) && Run(inputs).taken ==
              if last.call.CallCommit? && Committable(Run(front).policy, Wrap32(last.at))
              then Run(front).taken + [Taken(last.at, Run(front).policy.selected, Run(front).epoch)]
              else Run(front).taken
  {
    KeptSizes(Run(inputs[..|inputs| - 1]));
    hide Kept, Step, KeptAfter, Committable;
  }
}
