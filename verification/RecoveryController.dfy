/** The controller that drives one station repair at a time
    (include/NetworkRecoveryController.h), against a driver whose answers are
    arbitrary. */
module RecoveryController {
  import opened Wrappers
  import opened Words
  import opened NetworkRecovery
  import Runs = NetworkRecoveryRuns

  const DISCONNECT_TIMEOUT_MS: nat := 2000

  // ---------- The driver ----------

  datatype Question = ExternalActive | Associated | Safe | Owned

  /** A call on the driver with its answer. */
  datatype DriverEvent =
    | Told(question: Question, yes: bool) | Generation(value: u32) | Now(at: u32)
    | Reserve(granted: bool) | Release
    | InvalidateTransport | BeginDisconnect(begun: bool) | Cancel(disruptive: bool) | FinishReconnect(action: Action, finished: bool)

  datatype Hold = Free | Held | Misused

  /** Disruptive requests are only for the holder of a reservation; clearing
      the pending flag alone is always allowed. */
  function NextHold(h: Hold, e: DriverEvent): Hold {
    match e
    case Told(_, _) => h
    case Generation(_) => h
    case Now(_) => h
    case Reserve(ok) => if h == Free then (if ok then Held else Free) else Misused
    case Release => if h == Held then Free else Misused
    case Cancel(disruptive) => if disruptive && h != Held then Misused else h
    case _ => if h == Held then Held else Misused
  }

  function HoldOf(trace: seq<DriverEvent>): Hold {
    if trace == [] then Free else NextHold(HoldOf(trace[..|trace| - 1]), trace[|trace| - 1])
  }

  lemma HoldAppend(trace: seq<DriverEvent>, e: DriverEvent)
    ensures HoldOf(trace + [e]) == NextHold(HoldOf(trace), e)
  {
    assert (trace + [e])[..|trace|] == trace;
  }

  function Count(trace: seq<DriverEvent>, e: DriverEvent): nat {
    if trace == [] then 0 else Count(trace[..|trace| - 1], e) + if trace[|trace| - 1] == e then 1 else 0
  }

  predicate Disruptive(e: DriverEvent) {
    e.InvalidateTransport? || e.BeginDisconnect? || e == Cancel(true) || e.FinishReconnect?
  }

  /** A free driver has released every reservation it granted, exactly once. */
  lemma {:induction false} ReservationsAreReleased(trace: seq<DriverEvent>)
    requires HoldOf(trace) != Misused
    ensures Count(trace, Reserve(true)) == Count(trace, Release) + if HoldOf(trace) == Held then 1 else 0
  {
    if trace != [] {
      ReservationsAreReleased(trace[..|trace| - 1]);
    }
  }

  /** Every disruptive request was made under a reservation. */
  lemma {:induction false} DisruptionIsReserved(trace: seq<DriverEvent>, i: nat)
    requires HoldOf(trace) != Misused && i < |trace|
    requires Disruptive(trace[i])
    ensures HoldOf(trace[..i]) == Held
  {
    if i < |trace| - 1 {
      assert trace[..|trace| - 1][..i] == trace[..i];
      DisruptionIsReserved(trace[..|trace| - 1], i);
    }
  }

  /** The answer to one call, and how long it takes. */
  datatype Answer = Answer(yes: bool, generation: u32, elapsed: nat)

  class Driver {
    const answers: nat -> Answer
    var calls: nat
    var clock: nat
    ghost var trace: seq<DriverEvent>

    constructor (answers: nat -> Answer, clock: nat)
      ensures trace == [] && this.clock == clock
    {
      this.answers, this.clock, calls, trace := answers, clock, 0, [];
    }

    /** Time goes by. */
    method Pass(elapsed: nat)
      modifies `clock
      ensures clock == old(clock) + elapsed
    {
      clock := clock + elapsed;
    }

    method Ask(ghost e: DriverEvent) returns (a: Answer)
      modifies this
      ensures clock == old(clock) + a.elapsed && a == answers(old(calls))
      ensures HoldOf(trace) == NextHold(HoldOf(old(trace)), e) && trace == old(trace) + [e]
    {
      hide HoldOf, NextHold;
      HoldAppend(trace, e);
      a := answers(calls);
      calls, clock := calls + 1, clock + a.elapsed;
      trace := trace + [e];
    }

    method Holds(ghost question: Question) returns (yes: bool)
      modifies this
      ensures old(clock) <= clock && HoldOf(trace) == HoldOf(old(trace)) && trace == old(trace) + [Told(question, yes)]
    {
      yes := answers(calls).yes;
      var a := Ask(Told(question, yes));
    }

    method LinkGeneration() returns (generation: u32)
      modifies this
      ensures old(clock) <= clock && HoldOf(trace) == HoldOf(old(trace)) && trace == old(trace) + [Generation(generation)]
    {
      generation := answers(calls).generation;
      var a := Ask(Generation(generation));
    }

    method NowMillis() returns (now: u32)
      modifies this
      ensures old(clock) <= clock && now == Wrap32(clock)
      ensures HoldOf(trace) == HoldOf(old(trace)) && trace == old(trace) + [Now(now)]
    {
      now := Wrap32(clock + answers(calls).elapsed);
      var a := Ask(Now(now));
    }

    method TryReserve() returns (ok: bool)
      requires HoldOf(trace) == Free
      modifies this
      ensures old(clock) <= clock && HoldOf(trace) == (if ok then Held else Free) && trace == old(trace) + [Reserve(ok)]
    {
      ok := answers(calls).yes;
      var a := Ask(Reserve(ok));
    }

    method ReleaseReservation()
      requires HoldOf(trace) == Held
      modifies this
      ensures old(clock) <= clock && HoldOf(trace) == Free && trace == old(trace) + [Release]
    {
      var a := Ask(Release);
    }

    method Invalidate()
      requires HoldOf(trace) == Held
      modifies this
      ensures old(clock) <= clock && HoldOf(trace) == Held && trace == old(trace) + [InvalidateTransport]
    {
      var a := Ask(InvalidateTransport);
    }

    method Disconnect() returns (begun: bool)
      requires HoldOf(trace) == Held
      modifies this
      ensures old(clock) <= clock && HoldOf(trace) == Held && trace == old(trace) + [BeginDisconnect(begun)]
    {
      begun := answers(calls).yes;
      var a := Ask(BeginDisconnect(begun));
    }

    method Finish(action: Action) returns (finished: bool)
      requires HoldOf(trace) == Held
      modifies this
      ensures old(clock) <= clock && HoldOf(trace) == Held && trace == old(trace) + [FinishReconnect(action, finished)]
    {
      finished := answers(calls).yes;
      var a := Ask(FinishReconnect(action, finished));
    }

    /** `cancelRepair`: without disruption it only clears the pending flag. */
    method CancelRepair(disruptive: bool)
      requires HoldOf(trace) == Held || !disruptive
      modifies this
      ensures old(clock) <= clock && HoldOf(trace) == HoldOf(old(trace)) && trace == old(trace) + [Cancel(disruptive)]
    {
      var a := Ask(Cancel(disruptive));
    }
  }

  // ---------- Counters ----------

  function Saturate(n: nat): u32 { Min(n, 0xFFFF_FFFF) }

  function Bump(x: u32): u32 { if x == 0xFFFF_FFFF then x else x + 1 }

  /** How often each thing has truly happened. */
  datatype Totals = Totals(
    started: nat, completed: nat, refused: nat, failed: nat, timeouts: nat, cancelled: nat,
    deferred: nat, reserveFailures: nat, commitFailures: nat)

  datatype Diagnostics = Diagnostics(
    started: u32, completed: u32, rejected: u32, timeouts: u32, cancelled: u32,
    deferred: u32, reserveFailures: u32, commitFailures: u32)

  ghost predicate Shows(d: Diagnostics, t: Totals) {
    && d.started == Saturate(t.started) && d.completed == Saturate(t.completed)
    && d.rejected == Saturate(t.refused + t.failed) && d.timeouts == Saturate(t.timeouts)
    && d.cancelled == Saturate(t.cancelled) && d.deferred == Saturate(t.deferred)
    && d.reserveFailures == Saturate(t.reserveFailures) && d.commitFailures == Saturate(t.commitFailures)
  }

  // ---------- What one call means ----------

  datatype Outcome =
    | Idle | Unreserved | Deferred | Refused | Uncommitted | Started
    | Waiting | Completed | TimedOut | Failed | Cancelled

  datatype Repair = Repair(action: Action, at: u32, link: u32)

  function Tallied(t: Totals, o: Outcome): Totals {
    match o
    case Idle => t
    case Waiting => t
    case Unreserved => t.(reserveFailures := t.reserveFailures + 1)
    case Deferred => t.(deferred := t.deferred + 1)
    case Refused => t.(refused := t.refused + 1)
    case Uncommitted => t.(commitFailures := t.commitFailures + 1)
    case Started => t.(started := t.started + 1)
    case Completed => t.(completed := t.completed + 1)
    case TimedOut => t.(timeouts := t.timeouts + 1)
    case Failed => t.(failed := t.failed + 1)
    case Cancelled => t.(cancelled := t.cancelled + 1)
  }

  function Times(outcomes: seq<Outcome>, o: Outcome): nat {
    if outcomes == [] then 0 else Times(outcomes[..|outcomes| - 1], o) + if outcomes[|outcomes| - 1] == o then 1 else 0
  }

  /** Each total is how often its outcome occurred. */
  ghost predicate Counted(t: Totals, outcomes: seq<Outcome>) {
    && t.started == Times(outcomes, Started) && t.completed == Times(outcomes, Completed) && t.refused == Times(outcomes, Refused)
    && t.failed == Times(outcomes, Failed) && t.timeouts == Times(outcomes, TimedOut) && t.cancelled == Times(outcomes, Cancelled)
    && t.deferred == Times(outcomes, Deferred) && t.reserveFailures == Times(outcomes, Unreserved)
    && t.commitFailures == Times(outcomes, Uncommitted)
  }

  lemma CountedOnce(t: Totals, outcomes: seq<Outcome>, o: Outcome) returns (more: seq<Outcome>)
    requires Counted(t, outcomes)
    ensures more == outcomes + [o] && Counted(Tallied(t, o), more)
  {
    more := outcomes + [o];
    assert (outcomes + [o])[..|outcomes|] == outcomes;
  }

  /** The event `k` before the last one since `mark`; a release if there is none. */
  function Back(trace: seq<DriverEvent>, mark: nat, k: nat): DriverEvent {
    if mark + k < |trace| then trace[|trace| - 1 - k] else Release
  }

  predicate NotAdmitted(e: DriverEvent) { e in {Told(ExternalActive, true), Told(Associated, false), Told(Safe, false)} }

  /** What the driver was last asked and answered, by the outcome of a call
      without a pending repair; `r` is the repair that was started. */
  ghost predicate WhenIdle(trace: seq<DriverEvent>, mark: nat, r: Repair, o: Outcome) {
    var last, second, third, fourth := Back(trace, mark, 0), Back(trace, mark, 1), Back(trace, mark, 2), Back(trace, mark, 3);
    match o
    case Idle => NotAdmitted(last) || last.Generation?
    case Unreserved => last == Reserve(false)
    case Deferred => last.Now? && (NotAdmitted(second) || second.Generation?)
    case Refused => last == Cancel(true) && second.Now? && third == BeginDisconnect(false) && fourth == InvalidateTransport
    case Uncommitted => last == Cancel(true) && second.Now? && third == BeginDisconnect(true) && fourth == InvalidateTransport
    case Started => last == Now(r.at) && second == BeginDisconnect(true) && third == InvalidateTransport
                    && fourth == Generation(r.link) && r.action != NoAction
    case _ => false
  }

  predicate Expired(r: Repair, at: u32) { Sub32(at, r.at) >= 2000 }

  /** A repair still has to be finished: the link is down, or it is up again on
      another generation and the repair is more than a reassociation. */
  predicate Finishable(r: Repair, associated: DriverEvent, generation: DriverEvent) {
    && associated.Told? && associated.question == Associated && generation.Generation?
    && (associated.yes ==> generation.value != r.link && r.action != ReassociateStation)
  }

  /** The same while repair `r` was pending. */
  ghost predicate WhenPending(trace: seq<DriverEvent>, mark: nat, r: Repair, now: u32, o: Outcome) {
    var last, second, third, fourth := Back(trace, mark, 0), Back(trace, mark, 1), Back(trace, mark, 2), Back(trace, mark, 3);
    match o
    case Cancelled => || (last == Told(Owned, false) && second.Told? && second.question == ExternalActive)
                      || (last == Cancel(false) && second == Told(Owned, true) && third == Told(ExternalActive, true))
    case Deferred => last == Told(Safe, false) && second == Told(Owned, true) && third == Told(ExternalActive, false)
    case Unreserved => last == Reserve(false)
    case Waiting => || (last == Generation(r.link) && second == Told(Associated, true) && third == Told(Safe, true) && !Expired(r, now))
                    || (last.Now? && second == Generation(r.link) && third == Told(Associated, true) && !Expired(r, last.at))
    case TimedOut => last == Cancel(true) && second.Now? && Expired(r, second.at) && third == Generation(r.link)
                     && fourth == Told(Associated, true)
    case Completed => || (last == FinishReconnect(r.action, true) && Finishable(r, third, second))
                      || (last == Cancel(true) && second.Generation? && second.value != r.link
                          && third == Told(Associated, true) && r.action == ReassociateStation)
    case Failed => last == Cancel(true) && second == FinishReconnect(r.action, false) && Finishable(r, fourth, third)
    case _ => false
  }

  /** The answers of the driver decide the outcome. */
  lemma OutcomeIsDecided(trace: seq<DriverEvent>, mark: nat, r: Repair, now: u32, o: Outcome, other: Outcome)
    ensures WhenIdle(trace, mark, r, o) && WhenIdle(trace, mark, r, other) ==> o == other
    ensures WhenPending(trace, mark, r, now, o) && WhenPending(trace, mark, r, now, other) ==> o == other
  {
    hide Back, Sub32;
  }

  lemma EarlierMark(trace: seq<DriverEvent>, mark: nat, later: nat, r: Repair, now: u32, o: Outcome)
    requires mark <= later
    ensures WhenIdle(trace, later, r, o) ==> WhenIdle(trace, mark, r, o)
    ensures WhenPending(trace, later, r, now, o) ==> WhenPending(trace, mark, r, now, o)
  {
    hide Sub32;
  }

  /** Without the release that ends a reservation. */
  function Unreleased(trace: seq<DriverEvent>): seq<DriverEvent> {
    if trace != [] && trace[|trace| - 1] == Release then trace[..|trace| - 1] else trace
  }

  // ---------- Selection and commit ----------

  /** Right after a selection the commit succeeds exactly when neither the last
      action nor the last rejection looks recent again. */
  lemma CommitAfterSelection(s: State, selectedAt: u32, now: u32)
    requires NextAction(s, selectedAt, true).selected != NoAction && |s.budget.times| <= ACTION_SLOTS
    ensures var n := NextAction(s, selectedAt, true);
            Committable(n, now) <==>
              !(n.budget.seen && Sub32(now, n.budget.last) < ACTION_GAP_MS)
              && !(n.budget.rejectionSeen && Sub32(now, n.budget.rejected) < REJECTED_RETRY_MS)
  {
    hide Sub32, DnsDue, TransportDue, Pruned;
  }

  /** In real time below 2^32 ms nothing looks recent again. */
  lemma CommitInRealTime(s: State, selectedAt: nat, now: nat, lastAction: nat, lastRejection: nat)
    requires selectedAt <= now && |s.budget.times| <= ACTION_SLOTS
    requires NextAction(s, Wrap32(selectedAt), true).selected != NoAction
    requires s.budget.seen ==> s.budget.last == Wrap32(lastAction) && lastAction <= selectedAt && now < lastAction + 0x1_0000_0000
    requires s.budget.rejectionSeen ==>
               s.budget.rejected == Wrap32(lastRejection) && lastRejection <= selectedAt && now < lastRejection + 0x1_0000_0000
    ensures Committable(NextAction(s, Wrap32(selectedAt), true), Wrap32(now))
  {
    CommitAfterSelection(s, Wrap32(selectedAt), Wrap32(now));
    if s.budget.seen {
      ElapsedUnder(lastAction, selectedAt);
      ElapsedUnder(lastAction, now);
    }
    if s.budget.rejectionSeen {
      ElapsedUnder(lastRejection, selectedAt);
      ElapsedUnder(lastRejection, now);
    }
    hide Wrap32, DnsDue, TransportDue, Pruned;
  }

  /** That bound is needed: after calls that lead to an action committed at one
      minute and to new failures just before 2^32 ms have passed since, the
      controller's own observation of the link and selection do select an
      action, and its commit one millisecond later fails. */
  lemma {:induction false} WrappedCommitFails() returns (inputs: seq<Runs.Input>, s: State, now: nat, at: nat)
    ensures Runs.Leads(inputs, s, now) && now <= at
    ensures NextAction(ObserveLink(s, 7), Wrap32(at), true).selected == RestartStationInterface
    ensures !Committable(NextAction(ObserveLink(s, 7), Wrap32(at), true), Wrap32(at + 1))
  {
    hide Runs.Leads, Runs.AfterLookups, NextAction, ObserveLink, Committable, Wrap32;
    var committed := RepairedRun();
    LaterRepair();
    inputs := Runs.FailingLookups(committed, REPAIRED, 60000, LATER);
    s, now, at := Runs.AfterLookups(REPAIRED, LATER), LATER + 60000, LATER + 89999;
  }

  /** Half a minute before 2^32 ms. */
  const LATER: nat := 0x1_0000_0000 - 30000

  lemma {:induction false} RepairedRun() returns (inputs: seq<Runs.Input>)
    ensures Runs.Leads(inputs, REPAIRED, 60000)
  {
    EmptyRun();
    OneRepair();
    hide Runs.Leads, Runs.AfterLookups, NextAction, Commit;
    var failed := Runs.FailingLookups([], INITIAL, 0, 0);
    var select, commit := Runs.Input(Runs.CallNextAction(true), 60000), Runs.Input(Runs.CallCommit, 60000);
    Runs.LeadsOn(failed, Runs.AfterLookups(INITIAL, 0), 60000, select);
    Runs.LeadsOn(failed + [select], NextAction(Runs.AfterLookups(INITIAL, 0), 60000, true), 60000, commit);
    inputs := failed + [select] + [commit];
  }

  const REPAIRED: State := State(NO_EVIDENCE, Link(true, 7, false, false, 0), Budget([60000], true, 60000, false, 0, true), NoAction, false, 0)

  lemma OneRepair()
    ensures Commit(NextAction(Runs.AfterLookups(INITIAL, 0), 60000, true), 60000) == REPAIRED
  {
  }

  lemma LaterRepair()
    ensures var s := ObserveLink(Runs.AfterLookups(REPAIRED, LATER), 7);
            && NextAction(s, Wrap32(LATER + 89999), true).selected == RestartStationInterface
            && !Committable(NextAction(s, Wrap32(LATER + 89999), true), Wrap32(LATER + 89999 + 1))
  {
    var s := Runs.AfterLookups(REPAIRED, LATER);
    CommitAfterSelection(s, 59999, 60000);
  }

  lemma EmptyRun()
    ensures Runs.Leads([], INITIAL, 0)
  {
  }

  // ---------- The controller ----------

  class Controller {
    var diagnostics: Diagnostics
    var startedMs: u32
    var linkGeneration: u32
    var action: Action
    ghost var totals: Totals

    /** Counters show the totals, and every started repair is accounted for. */
    ghost predicate Valid()
      reads this
    {
      && Shows(diagnostics, totals)
      && totals.started == totals.completed + totals.timeouts + totals.cancelled + totals.failed + (if action == NoAction then 0 else 1)
    }

    constructor ()
      ensures Valid() && action == NoAction && totals == Totals(0, 0, 0, 0, 0, 0, 0, 0, 0)
    {
      diagnostics, totals := Diagnostics(0, 0, 0, 0, 0, 0, 0, 0), Totals(0, 0, 0, 0, 0, 0, 0, 0, 0);
      startedMs, linkGeneration, action := 0, 0, NoAction;
    }

    method NoteDeferred()
      requires Valid()
      modifies `diagnostics, `totals
      ensures Valid() && totals == old(totals).(deferred := old(totals).deferred + 1)
    {
      diagnostics := diagnostics.(deferred := Bump(diagnostics.deferred));
      totals := totals.(deferred := totals.deferred + 1);
    }

    method NoteReserveFailure()
      requires Valid()
      modifies `diagnostics, `totals
      ensures Valid() && totals == old(totals).(reserveFailures := old(totals).reserveFailures + 1)
    {
      diagnostics := diagnostics.(reserveFailures := Bump(diagnostics.reserveFailures));
      totals := totals.(reserveFailures := totals.reserveFailures + 1);
    }

    method NoteRefused()
      requires Valid()
      modifies `diagnostics, `totals
      ensures Valid() && totals == old(totals).(refused := old(totals).refused + 1)
    {
      diagnostics := diagnostics.(rejected := Bump(diagnostics.rejected));
      totals := totals.(refused := totals.refused + 1);
    }

    method NoteCommitFailure()
      requires Valid()
      modifies `diagnostics, `totals
      ensures Valid() && totals == old(totals).(commitFailures := old(totals).commitFailures + 1)
    {
      diagnostics := diagnostics.(commitFailures := Bump(diagnostics.commitFailures));
      totals := totals.(commitFailures := totals.commitFailures + 1);
    }

    method Start(next: Action, at: u32, generation: u32)
      requires Valid() && action == NoAction && next != NoAction
      modifies this
      ensures Valid() && action == next && startedMs == at && linkGeneration == generation
      ensures totals == old(totals).(started := old(totals).started + 1)
    {
      action, startedMs, linkGeneration := next, at, generation;
      diagnostics := diagnostics.(started := Bump(diagnostics.started));
      totals := totals.(started := totals.started + 1);
    }

    /** Ends the repair in one of four ways. */
    method Retire(o: Outcome)
      requires Valid() && action != NoAction && o in {Completed, TimedOut, Failed, Cancelled}
      modifies this
      ensures Valid() && action == NoAction && totals == Tallied(old(totals), o)
    {
      if o == Completed {
        diagnostics := diagnostics.(completed := Bump(diagnostics.completed));
      } else if o == TimedOut {
        diagnostics := diagnostics.(timeouts := Bump(diagnostics.timeouts));
      } else if o == Failed {
        diagnostics := diagnostics.(rejected := Bump(diagnostics.rejected));
      } else {
        diagnostics := diagnostics.(cancelled := Bump(diagnostics.cancelled));
      }
      totals := Tallied(totals, o);
      action, startedMs, linkGeneration := NoAction, 0, 0;
    }

    /** One of the admission queries fails. */
    method Blocked(driver: Driver, first: Question, second: Question) returns (blocked: bool)
      requires first in {Associated, Safe} && second in {Associated, Safe}
      modifies driver
      ensures old(driver.clock) <= driver.clock && HoldOf(driver.trace) == HoldOf(old(driver.trace)) && old(driver.trace) <= driver.trace
      ensures blocked ==> |driver.trace| > |old(driver.trace)| && NotAdmitted(driver.trace[|driver.trace| - 1])
      ensures !blocked ==> driver.trace == old(driver.trace) + [Told(ExternalActive, false), Told(first, true), Told(second, true)]
    {
      hide HoldOf;
      blocked := driver.Holds(ExternalActive);
      if !blocked {
        var one := driver.Holds(first);
        blocked := !one;
      }
      if !blocked {
        var other := driver.Holds(second);
        blocked := !other;
      }
    }

    function Pending(): Repair
      reads this
    {
      Repair(action, startedMs, linkGeneration)
    }

    /** The policy has just spent its budget on this repair. */
    ghost predicate Accepted(policy: NetworkRecoveryPolicy)
      reads this, policy
    {
      policy.actionSeen && policy.lastAction == startedMs && policy.stage == 1 && policy.failures == 0 && policy.selected == NoAction
    }

    /** What is done while the reservation is held. */
    method Attempt(chosen: Action, policy: NetworkRecoveryPolicy, driver: Driver, ghost lastAction: nat, ghost lastRejection: nat)
      returns (ghost outcome: Outcome, ghost calls: seq<Runs.Input>)
      requires Valid() && policy.Valid() && HoldOf(driver.trace) == Held && action == NoAction && chosen != NoAction
      modifies this, driver, policy, policy.actionTimes
      ensures Valid() && policy.Valid() && HoldOf(driver.trace) == Held && old(driver.trace) <= driver.trace
      ensures old(driver.clock) <= driver.clock && (outcome == Started <==> action != NoAction)
      ensures totals == Tallied(old(totals), outcome) && WhenIdle(driver.trace, |old(driver.trace)|, Pending(), outcome)
      ensures outcome == Started ==> Accepted(policy) && action == chosen
      ensures Recent(old(policy.Model()), old(driver.clock), driver.clock, lastAction, lastRejection) ==> outcome != Uncommitted
      ensures Made(old(policy.Model()), calls, policy.Model(), old(driver.clock), driver.clock, outcome == Started)
    {
      hide HoldOf, Valid, ObserveLink, NextAction, Pruned, Candidate, NetworkRecoveryPolicy.Model, Made;
      var blocked := Blocked(driver, Safe, Associated);
      if blocked {
        var at := driver.NowMillis();
        var none := policy.SelectNext(at, false);
        ghost var call := Runs.Input(Runs.CallNextAction(false), driver.clock);
        calls := [call];
        MadeOne(old(policy.Model()), call, old(driver.clock), driver.clock);
        NoteDeferred();
        return Deferred, calls;
      }
      var seen := driver.LinkGeneration();
      policy.ObserveLinkGeneration(seen);
      ghost var look := Runs.Input(Runs.CallObserveLink(seen), driver.clock);
      MadeOne(old(policy.Model()), look, old(driver.clock), driver.clock);
      LinkKeepsBudget(old(policy.Model()), seen);
      var selecting := driver.NowMillis();
      ghost var before, selectedAt, mark := policy.Model(), driver.clock, |driver.trace|;
      ModelFits(policy);
      var again := policy.SelectNext(selecting, true);
      ghost var select, chose := Runs.Input(Runs.CallNextAction(true), selectedAt), policy.Model();
      MadeOne(before, select, look.at, selectedAt);
      MadeThen(old(policy.Model()), [look], before, [select], chose, old(driver.clock), look.at, selectedAt, false);
      if again != chosen {
        NoteDeferred();
        return Deferred, [look] + [select];
      }
      ghost var more;
      outcome, more := Disconnect(chosen, policy, driver, before, selectedAt, lastAction, lastRejection);
      calls := [look] + [select] + more;
      MadeThen(old(policy.Model()), [look] + [select], chose, more, policy.Model(), old(driver.clock), selectedAt, driver.clock, outcome == Started);
      EarlierMark(driver.trace, |old(driver.trace)|, mark, Pending(), 0, outcome);
    }

    /** From the re-check to the accepted repair. */
    method Disconnect(chosen: Action, policy: NetworkRecoveryPolicy, driver: Driver, ghost before: State, ghost selectedAt: nat,
                      ghost lastAction: nat, ghost lastRejection: nat)
      returns (ghost outcome: Outcome, ghost calls: seq<Runs.Input>)
      requires Valid() && policy.Valid() && HoldOf(driver.trace) == Held && action == NoAction && chosen != NoAction
      requires policy.Model() == NextAction(before, Wrap32(selectedAt), true) && policy.Model().selected == chosen
      requires |before.budget.times| <= ACTION_SLOTS && selectedAt <= driver.clock
      modifies this, driver, policy, policy.actionTimes
      ensures Valid() && policy.Valid() && HoldOf(driver.trace) == Held && old(driver.trace) <= driver.trace
      ensures old(driver.clock) <= driver.clock && (outcome == Started <==> action != NoAction)
      ensures totals == Tallied(old(totals), outcome) && WhenIdle(driver.trace, |old(driver.trace)|, Pending(), outcome)
      ensures outcome == Started ==> Accepted(policy) && action == chosen
      ensures Recent(before, selectedAt, driver.clock, lastAction, lastRejection) ==> outcome != Uncommitted
      ensures Made(old(policy.Model()), calls, policy.Model(), old(driver.clock), driver.clock, outcome == Started)
    {
      hide HoldOf, Valid, Wrap32, Shows, NextAction, Pruned, Candidate, NetworkRecoveryPolicy.Model, WhenIdle, Made, ActionRejected, Commit, Committable;
      ghost var said := driver.trace;
      var generation := driver.LinkGeneration();
      driver.Invalidate();
      var begun := driver.Disconnect();
      if !begun {
        var at := driver.NowMillis();
        ghost var call := Runs.Input(Runs.CallReject, driver.clock);
        calls := [call];
        policy.RejectAction(at);
        driver.CancelRepair(true);
        MadeOne(old(policy.Model()), call, old(driver.clock), driver.clock);
        DisconnectIs(said, driver.trace, generation, false, at, Pending());
        NoteRefused();
        return Refused, calls;
      }
      var accepted := driver.NowMillis();
      if Recent(before, selectedAt, driver.clock, lastAction, lastRejection) {
        CommitInRealTime(before, selectedAt, driver.clock, lastAction, lastRejection);
      }
      ghost var at := driver.clock;
      ghost var call := Runs.Input(Runs.CallCommit, at);
      calls := [call];
      var committed := policy.CommitAction(accepted);
      if !committed {
        driver.CancelRepair(true);
        MadeOne(old(policy.Model()), call, old(driver.clock), driver.clock);
        DisconnectIs(said, driver.trace, generation, true, accepted, Pending());
        LaterIsRecent(before, selectedAt, at, driver.clock, lastAction, lastRejection);
        NoteCommitFailure();
        return Uncommitted, calls;
      }
      Start(chosen, accepted, generation);
      MadeOne(old(policy.Model()), call, old(driver.clock), driver.clock);
      DisconnectIs(said, driver.trace, generation, true, accepted, Pending());
      outcome := Started;
    }

    /** A look at the link, and what the policy selects on it. */
    method Choose(now: u32, policy: NetworkRecoveryPolicy, driver: Driver, ghost nowAt: nat)
      returns (chosen: Action, ghost generation: u32, ghost calls: seq<Runs.Input>)
      requires policy.Valid() && now == Wrap32(nowAt)
      modifies driver, policy, policy.actionTimes
      ensures policy.Valid() && old(driver.clock) <= driver.clock && HoldOf(driver.trace) == HoldOf(old(driver.trace))
      ensures driver.trace == old(driver.trace) + [Generation(generation)]
      ensures policy.Model() == NextAction(ObserveLink(old(policy.Model()), generation), now, true) && chosen == policy.Model().selected
      ensures Made(old(policy.Model()), calls, policy.Model(), nowAt, nowAt, false)
    {
      hide HoldOf, ObserveLink, NextAction, Made, NetworkRecoveryPolicy.Model;
      var seen := driver.LinkGeneration();
      generation := seen;
      policy.ObserveLinkGeneration(seen);
      ghost var look, middle := Runs.Input(Runs.CallObserveLink(seen), nowAt), policy.Model();
      MadeOne(old(policy.Model()), look, nowAt, nowAt);
      chosen := policy.SelectNext(now, true);
      ghost var select := Runs.Input(Runs.CallNextAction(true), nowAt);
      MadeOne(middle, select, nowAt, nowAt);
      calls := [look] + [select];
      MadeThen(old(policy.Model()), [look], middle, [select], policy.Model(), nowAt, nowAt, nowAt, false);
    }

    /** `lastAction` and `lastRejection` are the real times of the policy's own
        stamps: while they are less than 2^32 ms old no commit fails. */
    method ServiceIdle(now: u32, policy: NetworkRecoveryPolicy, driver: Driver, ghost nowAt: nat, ghost lastAction: nat, ghost lastRejection: nat)
      returns (busy: bool, ghost outcome: Outcome, ghost calls: seq<Runs.Input>)
      requires now == Wrap32(nowAt) && nowAt <= driver.clock
      requires Valid() && policy.Valid() && HoldOf(driver.trace) == Free && action == NoAction
      modifies this, driver, policy, policy.actionTimes
      ensures Valid() && policy.Valid() && HoldOf(driver.trace) == Free && old(driver.trace) <= driver.trace
      ensures old(driver.clock) <= driver.clock && busy == (action != NoAction) == (outcome == Started)
      ensures totals == Tallied(old(totals), outcome) && WhenIdle(Unreleased(driver.trace), |old(driver.trace)|, Pending(), outcome)
      ensures busy ==> Accepted(policy)
      ensures busy ==> exists g :: action == NextAction(ObserveLink(old(policy.Model()), g), now, true).selected
      ensures Recent(old(policy.Model()), old(driver.clock), driver.clock, lastAction, lastRejection) ==> outcome != Uncommitted
      ensures Made(old(policy.Model()), calls, policy.Model(), nowAt, driver.clock, outcome == Started)
    {
      hide HoldOf, ObserveLink, NextAction, Pruned, Valid, WhenIdle, Made, NetworkRecoveryPolicy.Model;
      var blocked := Blocked(driver, Associated, Safe);
      if blocked {
        var none := policy.SelectNext(now, false);
        ghost var call := Runs.Input(Runs.CallNextAction(false), nowAt);
        calls := [call];
        MadeOne(old(policy.Model()), call, nowAt, driver.clock);
        LastIsIdle(driver.trace, |old(driver.trace)|, Pending());
        return false, Idle, calls;
      }
      var chosen;
      ghost var generation;
      chosen, generation, calls := Choose(now, policy, driver, nowAt);
      ghost var chose := policy.Model();
      LinkKeepsBudget(old(policy.Model()), generation);
      SelectionKeepsStamps(ObserveLink(old(policy.Model()), generation), now, true);
      if chosen == NoAction {
        LastIsIdle(driver.trace, |old(driver.trace)|, Pending());
        MadeLater(old(policy.Model()), calls, chose, nowAt, nowAt, driver.clock, false);
        return false, Idle, calls;
      }
      var reserved := driver.TryReserve();
      if !reserved {
        NoteReserveFailure();
        LastIsIdle(driver.trace, |old(driver.trace)|, Pending());
        MadeLater(old(policy.Model()), calls, chose, nowAt, nowAt, driver.clock, false);
        return false, Unreserved, calls;
      }
      ghost var mark := |driver.trace|;
      ghost var begun, more := driver.clock, [];
      outcome, more := Attempt(chosen, policy, driver, lastAction, lastRejection);
      MadeLater(old(policy.Model()), calls, chose, nowAt, nowAt, begun, false);
      MadeThen(old(policy.Model()), calls, chose, more, policy.Model(), nowAt, begun, driver.clock, outcome == Started);
      calls := calls + more;
      EarlierMark(driver.trace, |old(driver.trace)|, mark, Pending(), 0, outcome);
      busy := action != NoAction;
      ghost var said := driver.trace;
      ghost var at := driver.clock;
      driver.ReleaseReservation();
      MadeLater(old(policy.Model()), calls, policy.Model(), nowAt, at, driver.clock, outcome == Started);
      assert Unreleased(driver.trace) == said;
    }

    // ---------- While a repair is pending ----------

    method ExternalTakeover(driver: Driver) returns (busy: bool)
      requires Valid() && action != NoAction
      modifies this, driver
      ensures Valid() && action == NoAction && !busy && totals == Tallied(old(totals), Cancelled) && old(driver.clock) <= driver.clock
      ensures HoldOf(driver.trace) == HoldOf(old(driver.trace))
      ensures driver.trace == old(driver.trace) + [Told(Owned, true), Cancel(false)] || driver.trace == old(driver.trace) + [Told(Owned, false)]
    {
      hide HoldOf, Valid;
      var owned := driver.Holds(Owned);
      if owned {
        driver.CancelRepair(false);
      }
      Retire(Cancelled);
      busy := false;
    }

    /** Neither taken over, nor lost, nor unsafe: otherwise the answer is known. */
    method StillPending(driver: Driver, ghost now: u32) returns (answer: Option<bool>, ghost outcome: Outcome)
      requires Valid() && action != NoAction
      modifies this, driver
      ensures Valid() && HoldOf(driver.trace) == HoldOf(old(driver.trace)) && old(driver.trace) <= driver.trace
      ensures old(driver.clock) <= driver.clock
      ensures answer.None? ==> Pending() == old(Pending()) && totals == old(totals)
                               && driver.trace == old(driver.trace) + [Told(ExternalActive, false), Told(Owned, true), Told(Safe, true)]
      ensures answer.Some? ==> answer.value == (action != NoAction) && totals == Tallied(old(totals), outcome)
                               && outcome in {Deferred, Cancelled} && (action != NoAction ==> Pending() == old(Pending()))
                               && answer.value == (outcome == Deferred)
                               && WhenPending(driver.trace, |old(driver.trace)|, old(Pending()), now, outcome)
    {
      hide HoldOf, Valid;
      var external := driver.Holds(ExternalActive);
      if external {
        var busy := ExternalTakeover(driver);
        return Some(busy), Cancelled;
      }
      var owned := driver.Holds(Owned);
      if !owned {
        Retire(Cancelled);
        return Some(false), Cancelled;
      }
      var safe := driver.Holds(Safe);
      if !safe {
        NoteDeferred();
        return Some(true), Deferred;
      }
      answer, outcome := None, Waiting;
    }

    method ServiceWaiting(now: u32, driver: Driver) returns (busy: bool, ghost outcome: Outcome)
      requires Valid() && action != NoAction && HoldOf(driver.trace) == Free
      modifies this, driver
      ensures Valid() && HoldOf(driver.trace) == Free && old(driver.trace) <= driver.trace
      ensures busy == (action != NoAction) == (outcome in {Unreserved, Deferred, Waiting}) && (busy ==> Pending() == old(Pending()))
      ensures old(driver.clock) <= driver.clock && !outcome.Started? && !outcome.Uncommitted?
      ensures totals == Tallied(old(totals), outcome)
      ensures WhenPending(Unreleased(driver.trace), |old(driver.trace)|, old(Pending()), now, outcome)
    {
      hide HoldOf, Valid, WhenPending, Unreleased;
      ghost var r, start, before := Pending(), |driver.trace|, driver.trace;
      var answer, early := StillPending(driver, now);
      if answer.Some? {
        EarlyIsLast(driver.trace, start, r, now, early);
        return answer.value, early;
      }
      var associated := driver.Holds(Associated);
      var generation := driver.LinkGeneration();
      WaitingIs(before, associated, generation, r, now);
      if associated && generation == linkGeneration && Sub32(now, startedMs) < DISCONNECT_TIMEOUT_MS {
        return true, Waiting;
      }
      var reserved := driver.TryReserve();
      if !reserved {
        NoteReserveFailure();
        return true, Unreserved;
      }
      ghost var mark := |driver.trace|;
      busy, outcome := Conclude(driver, now);
      EarlierMark(driver.trace, start, mark, r, now, outcome);
      ghost var said := driver.trace;
      driver.ReleaseReservation();
      ReleaseIsLast(said);
    }

    /** What is done with a pending repair while the reservation is held. */
    method Conclude(driver: Driver, ghost now: u32) returns (busy: bool, ghost outcome: Outcome)
      requires Valid() && action != NoAction && HoldOf(driver.trace) == Held
      modifies this, driver
      ensures Valid() && HoldOf(driver.trace) == Held && old(driver.trace) <= driver.trace
      ensures busy == (action != NoAction) == (outcome in {Unreserved, Deferred, Waiting}) && (busy ==> Pending() == old(Pending()))
      ensures old(driver.clock) <= driver.clock && !outcome.Started? && !outcome.Uncommitted?
      ensures totals == Tallied(old(totals), outcome)
      ensures WhenPending(driver.trace, |old(driver.trace)|, old(Pending()), now, outcome)
    {
      hide HoldOf, Valid, Sub32, Shows;
      var answer, early := StillPending(driver, now);
      if answer.Some? {
        return answer.value, early;
      }
      var associated := driver.Holds(Associated);
      var generation := driver.LinkGeneration();
      var changed := generation != linkGeneration;
      if associated && !changed {
        var at := driver.NowMillis();
        if Sub32(at, startedMs) < DISCONNECT_TIMEOUT_MS {
          return true, Waiting;
        }
        driver.CancelRepair(true);
        Retire(TimedOut);
        return false, TimedOut;
      }
      if action == ReassociateStation && associated && changed {
        driver.CancelRepair(true);
        Retire(Completed);
        return false, Completed;
      }
      var finished := driver.Finish(action);
      if finished {
        Retire(Completed);
        return false, Completed;
      }
      driver.CancelRepair(true);
      Retire(Failed);
      return false, Failed;
    }

    method Service(now: u32, policy: NetworkRecoveryPolicy, driver: Driver, ghost nowAt: nat, ghost lastAction: nat, ghost lastRejection: nat)
      returns (busy: bool, ghost outcome: Outcome, ghost calls: seq<Runs.Input>)
      requires now == Wrap32(nowAt) && nowAt <= driver.clock
      requires Valid() && policy.Valid() && HoldOf(driver.trace) == Free
      modifies this, driver, policy, policy.actionTimes
      ensures Valid() && policy.Valid() && HoldOf(driver.trace) == Free && old(driver.trace) <= driver.trace
      ensures busy == (action != NoAction) && totals == Tallied(old(totals), outcome)
      ensures var mark := |old(driver.trace)|;
              if old(action) == NoAction then WhenIdle(Unreleased(driver.trace), mark, Pending(), outcome)
              else WhenPending(Unreleased(driver.trace), mark, old(Pending()), now, outcome)
      ensures busy && old(action) != NoAction ==> Pending() == old(Pending())
      ensures busy && old(action) == NoAction ==> Accepted(policy)
      ensures Recent(old(policy.Model()), old(driver.clock), driver.clock, lastAction, lastRejection) ==>
                totals.commitFailures == old(totals).commitFailures
      ensures Made(old(policy.Model()), calls, policy.Model(), nowAt, driver.clock, outcome == Started) && old(driver.clock) <= driver.clock
    {
      hide WhenIdle, WhenPending;
      if action != NoAction {
        busy, outcome := ServiceWaiting(now, driver);
        calls := [];
      } else {
        busy, outcome, calls := ServiceIdle(now, policy, driver, nowAt, lastAction, lastRejection);
      }
    }
  }

  lemma DisconnectIs(before: seq<DriverEvent>, after: seq<DriverEvent>, generation: u32, begun: bool, at: u32, r: Repair)
    ensures var tried := before + [Generation(generation)] + [InvalidateTransport] + [BeginDisconnect(begun)] + [Now(at)];
            && before <= tried <= tried + [Cancel(true)]
            && (after == tried + [Cancel(true)] ==> WhenIdle(after, |before|, r, if begun then Uncommitted else Refused))
            && (after == tried && begun && r.action != NoAction && r.at == at && r.link == generation ==>
                  WhenIdle(after, |before|, r, Started))
  {
  }

  lemma LastIsIdle(trace: seq<DriverEvent>, mark: nat, r: Repair)
    requires |trace| > mark
    ensures Unreleased(trace) == trace || trace[|trace| - 1] == Release
    ensures NotAdmitted(trace[|trace| - 1]) || trace[|trace| - 1].Generation? ==> WhenIdle(Unreleased(trace), mark, r, Idle)
    ensures trace[|trace| - 1] == Reserve(false) ==> WhenIdle(Unreleased(trace), mark, r, Unreserved)
  {
  }

  /** Between two states of the policy: the calls it was given, in order of
      real time, of which one commit is accepted exactly when a repair starts. */
  ghost predicate Made(before: State, calls: seq<Runs.Input>, after: State, from: nat, to: nat, started: bool) {
    && Runs.Monotone(calls) && (forall i | 0 <= i < |calls| :: from <= calls[i].at <= to)
    && after == Runs.After(before, calls) && Runs.Commits(before, calls) == if started then 1 else 0
  }

  lemma MadeOne(before: State, i: Runs.Input, from: nat, to: nat)
    requires from <= i.at <= to
    ensures Made(before, [i], Runs.Step(before, i.call, Wrap32(i.at)), from, to, i.call.CallCommit? && Committable(before, Wrap32(i.at)))
  {
    hide Runs.Step, Committable, Wrap32;
    Runs.AfterOne(before, i);
  }

  lemma MadeThen(before: State, calls: seq<Runs.Input>, middle: State, more: seq<Runs.Input>, after: State, from: nat, at: nat, to: nat, started: bool)
    requires Made(before, calls, middle, from, at, false) && Made(middle, more, after, at, to, started) && from <= at <= to
    ensures Made(before, calls + more, after, from, to, started)
  {
    hide Runs.After, Runs.Commits;
    Runs.AfterAppend(before, calls, more);
  }

  lemma MadeLater(before: State, calls: seq<Runs.Input>, after: State, from: nat, at: nat, to: nat, started: bool)
    requires Made(before, calls, after, from, at, started) && at <= to
    ensures Made(before, calls, after, from, to, started)
  {
  }

  lemma ReleaseIsLast(trace: seq<DriverEvent>)
    ensures Unreleased(trace + [Release]) == trace
  {
  }

  lemma EarlyIsLast(trace: seq<DriverEvent>, mark: nat, r: Repair, now: u32, o: Outcome)
    requires WhenPending(trace, mark, r, now, o) && o in {Deferred, Cancelled}
    ensures Unreleased(trace) == trace
  {
  }

  lemma WaitingIs(before: seq<DriverEvent>, associated: bool, generation: u32, r: Repair, now: u32)
    ensures var asked := before + [Told(ExternalActive, false), Told(Owned, true), Told(Safe, true)]
                         + [Told(Associated, associated)] + [Generation(generation)];
            && before <= asked <= asked + [Reserve(false)]
            && (associated && generation == r.link && !Expired(r, now) ==> WhenPending(Unreleased(asked), |before|, r, now, Waiting))
            && WhenPending(Unreleased(asked + [Reserve(false)]), |before|, r, now, Unreserved)
  {
    hide Expired;
  }

  lemma ModelFits(policy: NetworkRecoveryPolicy)
    requires policy.Valid()
    ensures |policy.Model().budget.times| <= ACTION_SLOTS
  {
  }

  lemma LaterIsRecent(s: State, begin: nat, middle: nat, end: nat, lastAction: nat, lastRejection: nat)
    requires middle <= end
    ensures Recent(s, begin, end, lastAction, lastRejection) ==> Recent(s, begin, middle, lastAction, lastRejection)
  {
  }

  lemma LinkKeepsBudget(s: State, generation: u32)
    ensures ObserveLink(s, generation).budget == s.budget
  {
  }

  lemma SelectionKeepsStamps(s: State, now: u32, safe: bool)
    ensures var n := NextAction(s, now, safe).budget;
            n.seen == s.budget.seen && n.last == s.budget.last && n.rejectionSeen == s.budget.rejectionSeen && n.rejected == s.budget.rejected
  {
  }

  /** The policy's stamps are of real times at most 2^32 ms before `end`. */
  ghost predicate Recent(s: State, begin: nat, end: nat, lastAction: nat, lastRejection: nat) {
    && (s.budget.seen ==> s.budget.last == Wrap32(lastAction) && lastAction <= begin && end < lastAction + 0x1_0000_0000)
    && (s.budget.rejectionSeen ==>
          s.budget.rejected == Wrap32(lastRejection) && lastRejection <= begin && end < lastRejection + 0x1_0000_0000)
  }

  // ---------- Runs of the controller ----------

  /** After a wait the controller is serviced, or something is noted of the
      connection. */
  datatype Event = Event(wait: nat, noted: Option<Runs.Call>)

  /** Selecting, committing and rejecting are left to the controller. */
  predicate Noting(call: Runs.Call) { !call.CallNextAction? && !call.CallCommit? && !call.CallReject? }

  /** The policy's stamps are of these real times. */
  ghost predicate Stamped(s: State, at: nat, lastAction: nat, lastRejection: nat) {
    && (s.budget.seen ==> s.budget.last == Wrap32(lastAction) && lastAction <= at)
    && (s.budget.rejectionSeen ==> s.budget.rejected == Wrap32(lastRejection) && lastRejection <= at)
  }

  lemma StepStamped(s: State, call: Runs.Call, at: nat, lastAction: nat, lastRejection: nat) returns (action: nat, rejection: nat)
    requires Stamped(s, at, lastAction, lastRejection)
    ensures Stamped(Runs.Step(s, call, Wrap32(at)), at, action, rejection)
  {
    hide Wrap32, Pruned, Candidate, Sub32;
    action := if call.CallCommit? && Committable(s, Wrap32(at)) then at else lastAction;
    rejection := if call.CallReject? && s.selected != NoAction then at else lastRejection;
  }

  lemma {:induction false} CallsStamped(s: State, calls: seq<Runs.Input>, from: nat, to: nat, lastAction: nat, lastRejection: nat)
    returns (action: nat, rejection: nat)
    requires Stamped(s, from, lastAction, lastRejection) && from <= to
    requires forall i | 0 <= i < |calls| :: from <= calls[i].at <= to
    requires Runs.Monotone(calls)
    ensures Stamped(Runs.After(s, calls), to, action, rejection)
    decreases |calls|
  {
    hide Runs.Step, Wrap32;
    action, rejection := lastAction, lastRejection;
    if calls != [] {
      var k := |calls| - 1;
      action, rejection := CallsStamped(s, calls[..k], from, calls[k].at, lastAction, lastRejection);
      action, rejection := StepStamped(Runs.After(s, calls[..k]), calls[k].call, calls[k].at, action, rejection);
    }
  }

  /** What a run has done to policy and driver so far. */
  ghost predicate Ran(inputs: seq<Runs.Input>, s: State, at: nat, started: nat) {
    && Runs.Monotone(inputs) && (forall i | 0 <= i < |inputs| :: inputs[i].at <= at)
    && Runs.Run(inputs).policy == s && |Runs.Run(inputs).taken| == started
  }

  lemma {:induction false} RanOn(inputs: seq<Runs.Input>, s: State, at: nat, started: nat, calls: seq<Runs.Input>, after: State, from: nat, to: nat, more: bool)
    requires Ran(inputs, s, at, started) && Made(s, calls, after, from, to, more) && at <= from <= to
    ensures Ran(inputs + calls, after, to, started + (if more then 1 else 0))
  {
    hide Runs.Run, Runs.After, Runs.Commits;
    assert Runs.Monotone(inputs + calls);
    Runs.RunAppend(inputs, calls);
  }

  /** What holds of controller, policy and driver between services. */
  ghost predicate Going(controller: Controller, policy: NetworkRecoveryPolicy, driver: Driver, inputs: seq<Runs.Input>, outcomes: seq<Outcome>,
                        acted: nat, rejected: nat)
    reads controller, policy, policy.actionTimes, driver
  {
    && controller.Valid() && policy.Valid() && HoldOf(driver.trace) == Free
    && Ran(inputs, policy.Model(), driver.clock, controller.totals.started) && Counted(controller.totals, outcomes)
    && Stamped(policy.Model(), driver.clock, acted, rejected)
    && (driver.clock < 0x1_0000_0000 ==> controller.totals.commitFailures == 0)
  }

  /** Something is noted of the connection. */
  method NoteOnce(controller: Controller, policy: NetworkRecoveryPolicy, driver: Driver, event: Event, ghost inputs: seq<Runs.Input>,
                  ghost outcomes: seq<Outcome>, ghost acted: nat, ghost rejected: nat)
    returns (ghost more: seq<Runs.Input>, ghost lastActed: nat, ghost lastRejected: nat)
    requires Going(controller, policy, driver, inputs, outcomes, acted, rejected) && event.noted.Some? && Noting(event.noted.value)
    modifies driver, policy, policy.actionTimes
    ensures Going(controller, policy, driver, more, outcomes, lastActed, lastRejected)
  {
    hide NetworkRecoveryPolicy.Model, Runs.Step, Ran, Made, Stamped, Wrap32, Controller.Valid, Counted;
    ghost var before, at := policy.Model(), driver.clock;
    driver.Pass(event.wait);
    ghost var from := driver.clock;
    StampedLater(before, at, from, acted, rejected);
    var accepted := Runs.Perform(policy, event.noted.value, Wrap32(driver.clock));
    ghost var call := Runs.Input(event.noted.value, from);
    MadeOne(before, call, from, from);
    RanOn(inputs, before, at, controller.totals.started, [call], policy.Model(), from, from, false);
    lastActed, lastRejected := StepStamped(before, call.call, from, acted, rejected);
    more := inputs + [call];
  }

  method ServeOnce(controller: Controller, policy: NetworkRecoveryPolicy, driver: Driver, wait: nat, ghost inputs: seq<Runs.Input>,
                   ghost outcomes: seq<Outcome>, ghost acted: nat, ghost rejected: nat)
    returns (ghost more: seq<Runs.Input>, ghost longer: seq<Outcome>, ghost lastActed: nat, ghost lastRejected: nat)
    requires Going(controller, policy, driver, inputs, outcomes, acted, rejected)
    modifies controller, driver, policy, policy.actionTimes
    ensures Going(controller, policy, driver, more, longer, lastActed, lastRejected)
  {
    hide NetworkRecoveryPolicy.Model, Ran, Made, Stamped, WhenIdle, WhenPending, Wrap32, Committable, Controller.Valid, Counted, Tallied;
    ghost var before, at, totals := policy.Model(), driver.clock, controller.totals;
    driver.Pass(wait);
    ghost var from := driver.clock;
    StampedLater(before, at, from, acted, rejected);
    StampedIsRecent(before, from, acted, rejected);
    var busy;
    ghost var outcome, calls;
    busy, outcome, calls := controller.Service(Wrap32(driver.clock), policy, driver, from, acted, rejected);
    TalliedStarts(totals, outcome);
    RanOn(inputs, before, at, totals.started, calls, policy.Model(), from, driver.clock, outcome == Started);
    lastActed, lastRejected := MadeStamped(before, calls, policy.Model(), from, driver.clock, outcome == Started, acted, rejected);
    more := inputs + calls;
    longer := CountedOnce(totals, outcomes, outcome);
  }

  /** Any services and notes at any times, on a new controller and policy: every
      reservation is released, the repairs started are the commits the policy
      accepted and keep its budget, the totals count the outcomes, and in the
      first 2^32 ms no commit fails. */
  method Serve(events: seq<Event>, driver: Driver)
    returns (controller: Controller, policy: NetworkRecoveryPolicy, ghost inputs: seq<Runs.Input>, ghost outcomes: seq<Outcome>)
    requires driver.trace == [] && forall k | 0 <= k < |events| && events[k].noted.Some? :: Noting(events[k].noted.value)
    modifies driver
    ensures fresh(controller) && fresh(policy) && controller.Valid() && policy.Valid() && HoldOf(driver.trace) == Free
    ensures Ran(inputs, policy.Model(), driver.clock, controller.totals.started) && Counted(controller.totals, outcomes)
    ensures var commits := Runs.CommitTimes(Runs.Run(inputs).taken);
            && |commits| == controller.totals.started
            && forall i, j | 0 <= i < j < |commits| ::
                 commits[i] + 120000 <= commits[j] && (i + 2 <= j ==> commits[i] + 900000 <= commits[j])
    ensures driver.clock < 0x1_0000_0000 ==> controller.totals.commitFailures == 0
  {
    hide NetworkRecoveryPolicy.Model, Ran, Stamped, Controller.Valid, Counted, Going;
    controller := new Controller();
    policy := new NetworkRecoveryPolicy();
    inputs, outcomes := [], [];
    ghost var acted, rejected := 0, 0;
    NothingRan(driver.clock);
    NothingGoing(controller, policy, driver, inputs, outcomes);
    var k := 0;
    while k < |events|
      invariant 0 <= k <= |events| && fresh(controller) && fresh(policy) && fresh(policy.actionTimes)
      invariant Going(controller, policy, driver, inputs, outcomes, acted, rejected)
    {
      if events[k].noted.Some? {
        inputs, acted, rejected := NoteOnce(controller, policy, driver, events[k], inputs, outcomes, acted, rejected);
      } else {
        inputs, outcomes, acted, rejected := ServeOnce(controller, policy, driver, events[k].wait, inputs, outcomes, acted, rejected);
      }
      k := k + 1;
    }
    GoingMeans(controller, policy, driver, inputs, outcomes, acted, rejected);
    RanKeepsBudget(inputs, policy.Model(), driver.clock, controller.totals.started);
  }

  lemma NothingGoing(controller: Controller, policy: NetworkRecoveryPolicy, driver: Driver, inputs: seq<Runs.Input>, outcomes: seq<Outcome>)
    requires controller.Valid() && controller.totals == Totals(0, 0, 0, 0, 0, 0, 0, 0, 0) && outcomes == []
    requires policy.Valid() && driver.trace == [] && Ran(inputs, policy.Model(), driver.clock, 0) && Stamped(policy.Model(), driver.clock, 0, 0)
    ensures Going(controller, policy, driver, inputs, outcomes, 0, 0)
  {
    hide NetworkRecoveryPolicy.Model, Ran, Stamped, Controller.Valid, Counted, HoldOf;
    NoneCounted(controller.totals, outcomes);
    NothingHeld(driver.trace);
  }

  lemma NothingHeld(trace: seq<DriverEvent>)
    requires trace == []
    ensures HoldOf(trace) == Free
  {
  }

  lemma GoingMeans(controller: Controller, policy: NetworkRecoveryPolicy, driver: Driver, inputs: seq<Runs.Input>, outcomes: seq<Outcome>,
                   acted: nat, rejected: nat)
    requires Going(controller, policy, driver, inputs, outcomes, acted, rejected)
    ensures controller.Valid() && policy.Valid() && HoldOf(driver.trace) == Free
    ensures Ran(inputs, policy.Model(), driver.clock, controller.totals.started) && Counted(controller.totals, outcomes)
    ensures driver.clock < 0x1_0000_0000 ==> controller.totals.commitFailures == 0
  {
  }

  lemma TalliedStarts(t: Totals, o: Outcome)
    ensures Tallied(t, o).started == t.started + if o == Started then 1 else 0
  {
  }

  lemma NoneCounted(t: Totals, outcomes: seq<Outcome>)
    requires t == Totals(0, 0, 0, 0, 0, 0, 0, 0, 0) && outcomes == []
    ensures Counted(t, outcomes)
  {
  }

  lemma {:induction false} NothingRan(at: nat)
    ensures Ran([], INITIAL, at, 0) && Stamped(INITIAL, at, 0, 0)
  {
  }

  lemma StampedLater(s: State, at: nat, later: nat, lastAction: nat, lastRejection: nat)
    requires Stamped(s, at, lastAction, lastRejection) && at <= later
    ensures Stamped(s, later, lastAction, lastRejection)
  {
  }

  lemma StampedIsRecent(s: State, at: nat, lastAction: nat, lastRejection: nat)
    requires Stamped(s, at, lastAction, lastRejection)
    ensures forall end | end < 0x1_0000_0000 :: Recent(s, at, end, lastAction, lastRejection)
  {
  }

  lemma MadeStamped(s: State, calls: seq<Runs.Input>, after: State, from: nat, to: nat, started: bool, lastAction: nat, lastRejection: nat)
    returns (action: nat, rejection: nat)
    requires Made(s, calls, after, from, to, started) && from <= to && Stamped(s, from, lastAction, lastRejection)
    ensures Stamped(after, to, action, rejection)
  {
    action, rejection := CallsStamped(s, calls, from, to, lastAction, lastRejection);
  }

  lemma {:induction false} RanKeepsBudget(inputs: seq<Runs.Input>, s: State, at: nat, started: nat)
    requires Ran(inputs, s, at, started)
    ensures var commits := Runs.CommitTimes(Runs.Run(inputs).taken);
            && |commits| == started
            && forall i, j | 0 <= i < j < |commits| ::
                 commits[i] + 120000 <= commits[j] && (i + 2 <= j ==> commits[i] + 900000 <= commits[j])
  {
    hide Runs.Run;
    Runs.TimesKeepBudget(inputs);
  }
}
