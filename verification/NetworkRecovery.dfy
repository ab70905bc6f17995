/** The bounded station-repair policy (include/NetworkRecoveryPolicy.h) and
    what it promises in real time over whole runs, with no assumption on how
    far the 32-bit clock wraps. */
module NetworkRecovery {
  import opened Wrappers
  import opened Words

  const DNS_SPAN_MS: nat := 60000
  const TRANSPORT_SPAN_MS: nat := 180000
  const STABLE_MS: nat := 60000
  const ACTION_GAP_MS: nat := 120000
  const ACTION_WINDOW_MS: nat := 900000
  const REJECTED_RETRY_MS: nat := 30000
  const DNS_FAILURES: nat := 3
  const TRANSPORT_FAILURES: nat := 6
  const ACTION_SLOTS: nat := 2

  datatype Kind = Dns | TransportKind | Authorization | LocalResource

  datatype Action = NoAction | ReassociateStation | RestartStationInterface

  datatype Evidence = Evidence(failures: u16, dns: u16, first: u32, last: u32, firstDns: u32, lastDns: u32)

  const NO_EVIDENCE := Evidence(0, 0, 0, 0, 0, 0)

  datatype Link = Link(seen: bool, generation: u32, connected: bool, stable: bool, adopted: u32)

  datatype Budget = Budget(times: seq<u32>, seen: bool, last: u32, rejectionSeen: bool, rejected: u32, restarting: bool)

  datatype State = State(evidence: Evidence, link: Link, budget: Budget, selected: Action, suspended: bool, suspendedAt: u32)

  const INITIAL := State(NO_EVIDENCE, Link(false, 0, false, false, 0), Budget([], false, 0, false, 0, false), NoAction, false, 0)

  // ---------- Specification ----------

  function Cleared(s: State): State { s.(evidence := NO_EVIDENCE, selected := NoAction) }

  function ObserveLink(s: State, generation: u32): State {
    if s.link.seen && s.link.generation == generation then s
    else Cleared(s).(link := s.link.(seen := true, generation := generation))
  }

  function Increment(x: u16): u16 { if x == 0xFFFF then x else x + 1 }

  function Counted(e: Evidence, kind: Kind, now: u32): Evidence {
    var all := e.(first := if e.failures == 0 then now else e.first, failures := Increment(e.failures), last := now);
    if kind != Dns then all
    else all.(firstDns := if e.dns == 0 then now else e.firstDns, dns := Increment(e.dns), lastDns := now)
  }

  function Interrupted(s: State, generation: u32): State {
    ObserveLink(s.(selected := NoAction, link := s.link.(connected := false, stable := false)), generation)
  }

  function Failure(s: State, kind: Kind, now: u32, generation: u32): State {
    if s.suspended then s
    else
      var seen := Interrupted(s, generation);
      if kind == Authorization || kind == LocalResource then Cleared(seen)
      else seen.(evidence := Counted(seen.evidence, kind, now))
  }

  function Adopted(s: State, now: u32): State {
    if s.suspended then s
    else s.(selected := NoAction, link := s.link.(connected := true, stable := false, adopted := now))
  }

  predicate BecomesStable(s: State, now: u32, connected: bool) {
    !s.suspended && connected && s.link.connected && !s.link.stable && Sub32(now, s.link.adopted) >= STABLE_MS
  }

  function ObserveConnected(s: State, now: u32, connected: bool): State {
    if s.suspended then s
    else if !connected then s.(link := s.link.(connected := false, stable := false))
    else if BecomesStable(s, now, connected) then
      Cleared(s).(link := s.link.(stable := true), budget := s.budget.(restarting := false))
    else s
  }

  /** Accepted times still inside the rolling window, in order. */
  function Pruned(times: seq<u32>, now: u32): (r: seq<u32>)
    ensures |r| <= |times|
  {
    if times == [] then []
    else
      var front := Pruned(times[..|times| - 1], now);
      if Sub32(now, times[|times| - 1]) < ACTION_WINDOW_MS then front + [times[|times| - 1]] else front
  }

  function Prune(s: State, now: u32): State { s.(budget := s.budget.(times := Pruned(s.budget.times, now))) }

  predicate DnsDue(e: Evidence) { e.dns >= DNS_FAILURES && Sub32(e.lastDns, e.firstDns) >= DNS_SPAN_MS }

  predicate TransportDue(e: Evidence) { e.failures >= TRANSPORT_FAILURES && Sub32(e.last, e.first) >= TRANSPORT_SPAN_MS }

  predicate Held(s: State, now: u32) {
    || s.suspended || s.link.connected || |s.budget.times| >= ACTION_SLOTS
    || (s.budget.seen && Sub32(now, s.budget.last) < ACTION_GAP_MS)
    || (s.budget.rejectionSeen && Sub32(now, s.budget.rejected) < REJECTED_RETRY_MS)
  }

  function Candidate(s: State, now: u32): Action {
    if Held(s, now) || !(DnsDue(s.evidence) || TransportDue(s.evidence)) then NoAction
    else if s.budget.restarting then RestartStationInterface else ReassociateStation
  }

  function NextAction(s: State, now: u32, safe: bool): State {
    var p := Prune(s, now);
    p.(selected := if safe then Candidate(p, now) else NoAction)
  }

  predicate Committable(s: State, now: u32) {
    s.selected != NoAction && s.selected == Candidate(Prune(s, now), now)
  }

  function Spent(b: Budget, now: u32): Budget {
    b.(times := b.times + [now], last := now, seen := true, restarting := true, rejectionSeen := false)
  }

  function Commit(s: State, now: u32): State {
    var p := Prune(s, now);
    if !Committable(s, now) then p.(selected := NoAction)
    else
      Cleared(p).(budget := Spent(p.budget, now))
  }

  function ActionRejected(s: State, now: u32): State {
    if s.selected == NoAction then s
    else s.(selected := NoAction, budget := s.budget.(rejected := now, rejectionSeen := true))
  }

  function Suspend(s: State, now: u32): State {
    if s.suspended then s
    else s.(suspended := true, suspendedAt := now, selected := NoAction, link := s.link.(connected := false, stable := false))
  }

  function Shifted(e: Evidence, pause: u32): Evidence {
    var all := if e.failures == 0 then e else e.(first := Wrap32(e.first + pause), last := Wrap32(e.last + pause));
    if e.dns == 0 then all else all.(firstDns := Wrap32(e.firstDns + pause), lastDns := Wrap32(e.lastDns + pause))
  }

  function Resume(s: State, now: u32): State {
    if !s.suspended then s
    else s.(suspended := false, evidence := Shifted(s.evidence, Sub32(now, s.suspendedAt)))
  }

  // ---------- The class ----------

  class NetworkRecoveryPolicy {
    const actionTimes: array<u32>
    var actionCount: nat
    var wifiGeneration: u32
    var firstFailure: u32
    var lastFailure: u32
    var firstDns: u32
    var lastDns: u32
    var adoptedAt: u32
    var lastAction: u32
    var rejectedAt: u32
    var suspendedAt: u32
    var failures: u16
    var dnsFailures: u16
    var stage: nat
    var selected: Action
    var generationSeen: bool
    var actionSeen: bool
    var rejectionSeen: bool
    var connected: bool
    var stableObserved: bool
    var suspended: bool

    ghost predicate Valid()
      reads `actionCount, `stage
    {
      actionTimes.Length == ACTION_SLOTS && actionCount <= ACTION_SLOTS && stage <= 1
    }

    ghost function EvidenceModel(): Evidence
      reads `failures, `dnsFailures, `firstFailure, `lastFailure, `firstDns, `lastDns
    {
      Evidence(failures, dnsFailures, firstFailure, lastFailure, firstDns, lastDns)
    }

    ghost function LinkModel(): Link
      reads `generationSeen, `wifiGeneration, `connected, `stableObserved, `adoptedAt
    {
      Link(generationSeen, wifiGeneration, connected, stableObserved, adoptedAt)
    }

    ghost function BudgetModel(): Budget
      requires Valid()
      reads `actionCount, `stage, `actionSeen, `lastAction, `rejectionSeen, `rejectedAt, actionTimes
    {
      Budget(actionTimes[..actionCount], actionSeen, lastAction, rejectionSeen, rejectedAt, stage == 1)
    }

    ghost function Model(): State
      requires Valid()
      reads this, actionTimes
    {
      State(EvidenceModel(), LinkModel(), BudgetModel(), selected, suspended, suspendedAt)
    }

    constructor ()
      ensures Valid() && Model() == INITIAL && fresh(actionTimes)
    {
      actionTimes := new u32[ACTION_SLOTS](i => 0);
      actionCount, wifiGeneration, firstFailure, lastFailure, firstDns, lastDns := 0, 0, 0, 0, 0, 0;
      adoptedAt, lastAction, rejectedAt, suspendedAt, failures, dnsFailures := 0, 0, 0, 0, 0, 0;
      stage, selected, generationSeen, actionSeen, rejectionSeen := 0, NoAction, false, false, false;
      connected, stableObserved, suspended := false, false, false;
    }

    method ClearEvidence()
      modifies `failures, `dnsFailures, `firstFailure, `lastFailure, `firstDns, `lastDns, `selected
      ensures EvidenceModel() == NO_EVIDENCE && failures == 0 && selected == NoAction
    {
      failures, dnsFailures, firstFailure, lastFailure, firstDns, lastDns := 0, 0, 0, 0, 0, 0;
      selected := NoAction;
    }

    method ObserveLinkGeneration(generation: u32)
      requires Valid()
      modifies `failures, `dnsFailures, `firstFailure, `lastFailure, `firstDns, `lastDns, `selected, `wifiGeneration, `generationSeen
      ensures Model() == ObserveLink(old(Model()), generation)
    {
      hide EvidenceModel, BudgetModel;
      if !generationSeen || wifiGeneration != generation {
        ClearEvidence();
        wifiGeneration := generation;
        generationSeen := true;
      }
    }

    method CountFailure(kind: Kind, now: u32)
      modifies `failures, `dnsFailures, `firstFailure, `lastFailure, `firstDns, `lastDns
      ensures EvidenceModel() == Counted(old(EvidenceModel()), kind, now)
    {
      if failures == 0 {
        firstFailure := now;
      }
      failures := Increment(failures);
      lastFailure := now;
      if kind == Dns {
        if dnsFailures == 0 {
          firstDns := now;
        }
        dnsFailures := Increment(dnsFailures);
        lastDns := now;
      }
    }

    method Interrupt(generation: u32)
      requires Valid()
      modifies `failures, `dnsFailures, `firstFailure, `lastFailure, `firstDns, `lastDns, `selected, `wifiGeneration,
               `generationSeen, `connected, `stableObserved
      ensures Model() == Interrupted(old(Model()), generation)
    {
      hide EvidenceModel, BudgetModel, ObserveLink;
      selected := NoAction;
      connected := false;
      stableObserved := false;
      ObserveLinkGeneration(generation);
    }

    method NoteFailure(kind: Kind, now: u32, generation: u32)
      requires Valid()
      modifies this
      ensures Valid() && Model() == Failure(old(Model()), kind, now, generation)
    {
      hide Counted, EvidenceModel, BudgetModel, Interrupted;
      if suspended {
        return;
      }
      Interrupt(generation);
      if kind == Authorization || kind == LocalResource {
        ClearEvidence();
        return;
      }
      CountFailure(kind, now);
    }

    method NoteAdopted(now: u32)
      requires Valid()
      modifies this
      ensures Valid() && Model() == Adopted(old(Model()), now)
    {
      hide EvidenceModel, BudgetModel;
      if suspended {
        return;
      }
      selected := NoAction;
      connected := true;
      stableObserved := false;
      adoptedAt := now;
    }

    method NoteConnected(now: u32, isConnected: bool)
      requires Valid()
      modifies this
      ensures Valid() && Model() == ObserveConnected(old(Model()), now, isConnected)
    {
      hide EvidenceModel;
      if suspended {
        return;
      }
      if !isConnected {
        connected := false;
        stableObserved := false;
        return;
      }
      if connected && !stableObserved && Sub32(now, adoptedAt) >= STABLE_MS {
        ClearEvidence();
        stage := 0;
        stableObserved := true;
      }
    }

    method PruneActions(now: u32)
      requires Valid()
      modifies `actionCount, actionTimes
      ensures Valid() && Model() == Prune(old(Model()), now)
    {
      ghost var times := actionTimes[..actionCount];
      var retained, i := 0, 0;
      while i < actionCount
        invariant Valid() && actionCount == old(actionCount) && 0 <= retained <= i <= actionCount
        invariant actionTimes[..retained] == Pruned(times[..i], now)
        invariant actionTimes[i..actionCount] == times[i..]
      {
        assert times[..i + 1][..i] == times[..i] && actionTimes[i] == times[i];
        if Sub32(now, actionTimes[i]) < ACTION_WINDOW_MS {
          actionTimes[retained] := actionTimes[i];
          retained := retained + 1;
        }
        i := i + 1;
      }
      assert times[..i] == times;
      actionCount := retained;
    }

    method CandidateAt(now: u32) returns (action: Action)
      requires Valid()
      ensures action == Candidate(Model(), now)
    {
      if suspended || connected || actionCount == actionTimes.Length
         || (actionSeen && Sub32(now, lastAction) < ACTION_GAP_MS)
         || (rejectionSeen && Sub32(now, rejectedAt) < REJECTED_RETRY_MS)
      {
        return NoAction;
      }
      var dnsDue := dnsFailures >= DNS_FAILURES && Sub32(lastDns, firstDns) >= DNS_SPAN_MS;
      var transportDue := failures >= TRANSPORT_FAILURES && Sub32(lastFailure, firstFailure) >= TRANSPORT_SPAN_MS;
      if !dnsDue && !transportDue {
        return NoAction;
      }
      action := if stage == 0 then ReassociateStation else RestartStationInterface;
    }

    method SelectNext(now: u32, safe: bool) returns (action: Action)
      requires Valid()
      modifies `actionCount, `selected, actionTimes
      ensures Valid() && Model() == NextAction(old(Model()), now, safe) && action == Model().selected
    {
      hide Candidate, Pruned, EvidenceModel, LinkModel;
      PruneActions(now);
      var candidate := NoAction;
      if safe {
        candidate := CandidateAt(now);
      }
      selected := candidate;
      action := selected;
    }

    method CommitAction(now: u32) returns (accepted: bool)
      requires Valid()
      modifies this, actionTimes
      ensures Valid() && Model() == Commit(old(Model()), now) && accepted == Committable(old(Model()), now)
      ensures accepted ==> actionSeen && lastAction == now && stage == 1 && failures == 0 && selected == NoAction
    {
      hide Candidate, Pruned, EvidenceModel, LinkModel, Spent;
      PruneActions(now);
      var action := CandidateAt(now);
      if selected == NoAction || selected != action {
        selected := NoAction;
        return false;
      }
      CandidateHasRoom(Model(), now);
      SpendBudget(now);
      ClearEvidence();
      accepted := true;
    }

    method SpendBudget(now: u32)
      requires Valid() && actionCount < ACTION_SLOTS
      modifies `actionCount, `lastAction, `actionSeen, `stage, `rejectionSeen, actionTimes
      ensures Valid()
      ensures BudgetModel() == Spent(old(BudgetModel()), now) && lastAction == now && actionSeen && stage == 1
    {
      actionTimes[actionCount] := now;
      actionCount := actionCount + 1;
      lastAction := now;
      actionSeen := true;
      stage := 1;
      rejectionSeen := false;
    }

    method RejectAction(now: u32)
      requires Valid()
      modifies this
      ensures Valid() && Model() == ActionRejected(old(Model()), now)
    {
      hide EvidenceModel, LinkModel;
      if selected == NoAction {
        return;
      }
      selected := NoAction;
      rejectedAt := now;
      rejectionSeen := true;
    }

    method NoteSuspend(now: u32)
      requires Valid()
      modifies this
      ensures Valid() && Model() == Suspend(old(Model()), now)
    {
      hide EvidenceModel, BudgetModel;
      if suspended {
        return;
      }
      suspended := true;
      suspendedAt := now;
      selected := NoAction;
      connected := false;
      stableObserved := false;
    }

    method NoteResume(now: u32)
      requires Valid()
      modifies this
      ensures Valid() && Model() == Resume(old(Model()), now)
    {
      hide BudgetModel, LinkModel, EvidenceModel, Shifted, Sub32;
      if !suspended {
        return;
      }
      ShiftEvidence(Sub32(now, suspendedAt));
      suspended := false;
    }

    method ShiftEvidence(pause: u32)
      modifies `firstFailure, `lastFailure, `firstDns, `lastDns
      ensures EvidenceModel() == Shifted(old(EvidenceModel()), pause)
    {
      hide Wrap32;
      if failures != 0 {
        firstFailure := Wrap32(firstFailure + pause);
        lastFailure := Wrap32(lastFailure + pause);
      }
      if dnsFailures != 0 {
        firstDns := Wrap32(firstDns + pause);
        lastDns := Wrap32(lastDns + pause);
      }
    }
  }

  lemma CandidateHasRoom(s: State, now: u32)
    requires Candidate(s, now) != NoAction
    ensures |s.budget.times| < ACTION_SLOTS
  {
  }
}
