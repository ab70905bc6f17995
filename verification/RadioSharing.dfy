/** Sharing one radio between the recovery access point and station attempts
    (include/RecoveryRadioPolicy.h, `RecoveryRadioPolicy`). */
module RadioSharing {
  import opened Wrappers
  import opened Words

  datatype Phase = Inactive | ApQuiet | StationAttempt

  datatype Action = NoAction | StartAttempt | StopAttempt | ReleaseClients | ReleaseAndStart

  datatype Config = Config(quiet: u32, attempt: u32, authHold: u32, clientHold: u32, releaseInterval: u32)

  datatype State = State(
    phase: Phase, started: u32, authSeen: bool, lastAuth: u32, holdSeen: bool, holdStarted: u32,
    releasing: bool, lastRelease: u32, forced: bool)

  const STOPPED := State(Inactive, 0, false, 0, false, 0, false, 0, false)

  // ---------- Specification ----------

  function Begin(now: u32): State { STOPPED.(phase := ApQuiet, started := now) }

  function NoteAuth(s: State, now: u32): State {
    var n := s.(authSeen := true, lastAuth := now);
    if s.holdSeen then n.(holdStarted := now, releasing := false, forced := false) else n
  }

  /** Local work and failed attempts both restart the quiet phase. */
  function Quieten(s: State, now: u32): State { s.(phase := ApQuiet, started := now, forced := false) }

  predicate AuthHeld(c: Config, s: State, now: u32) { s.authSeen && Sub32(now, s.lastAuth) < c.authHold }

  function Held(s: State, now: u32, client: bool): State {
    if client && !s.holdSeen then s.(holdSeen := true, holdStarted := now) else s
  }

  function Update(c: Config, s: State, now: u32, connected: bool, client: bool, local: bool): (State, Action) {
    if s.phase == Inactive then (s, NoAction)
    else if connected then (STOPPED, NoAction)
    else
      var held := Held(s, now, client);
      var busy := local || AuthHeld(c, s, now);
      if s.phase == StationAttempt then
        if busy || (client && !s.forced) || Sub32(now, s.started) >= c.attempt
        then (held.(phase := ApQuiet, started := now, forced := false), StopAttempt)
        else (held, NoAction)
      else if s.releasing && !busy && Sub32(now, s.started) >= c.quiet then
        (held.(phase := StationAttempt, started := now, forced := true), ReleaseAndStart)
      else if client && !busy then
        if !s.releasing && Sub32(now, held.holdStarted) >= c.clientHold then
          (held.(releasing := true, lastRelease := now, started := now), ReleaseClients)
        else if s.releasing && Sub32(now, s.lastRelease) >= c.releaseInterval then (held.(lastRelease := now), ReleaseClients)
        else (held, NoAction)
      else if !busy && !(client && !s.forced) && Sub32(now, s.started) >= c.quiet then
        (held.(phase := StationAttempt, started := now, holdSeen := false, holdStarted := 0, releasing := false,
               lastRelease := 0, forced := false), StartAttempt)
      else (held, NoAction)
  }

  predicate Starts(a: Action) { a == StartAttempt || a == ReleaseAndStart }

  // ---------- The class ----------

  class RecoveryRadioPolicy {
    const config: Config
    var phase: Phase
    var phaseStarted: u32
    var authenticatedActivitySeen: bool
    var lastAuthenticatedActivity: u32
    var apClientHoldStarted: bool
    var apClientHoldStartedMs: u32
    var releasingStaleClients: bool
    var lastClientRelease: u32
    var forcedStaleAttempt: bool

    ghost function Model(): State
      reads this
    {
      State(phase, phaseStarted, authenticatedActivitySeen, lastAuthenticatedActivity, apClientHoldStarted,
            apClientHoldStartedMs, releasingStaleClients, lastClientRelease, forcedStaleAttempt)
    }

    constructor (config: Config)
      ensures this.config == config && Model() == STOPPED
    {
      this.config := config;
      phase, phaseStarted, authenticatedActivitySeen, lastAuthenticatedActivity := Inactive, 0, false, 0;
      apClientHoldStarted, apClientHoldStartedMs, releasingStaleClients := false, 0, false;
      lastClientRelease, forcedStaleAttempt := 0, false;
    }

    method Start(now: u32)
      modifies this
      ensures Model() == Begin(now)
    {
      Stop();
      phase, phaseStarted := ApQuiet, now;
    }

    method Stop()
      modifies this
      ensures Model() == STOPPED
    {
      phase, phaseStarted, authenticatedActivitySeen, lastAuthenticatedActivity := Inactive, 0, false, 0;
      apClientHoldStarted, apClientHoldStartedMs, releasingStaleClients := false, 0, false;
      lastClientRelease, forcedStaleAttempt := 0, false;
    }

    method NoteAuthenticatedActivity(now: u32)
      modifies this
      ensures Model() == NoteAuth(old(Model()), now)
    {
      authenticatedActivitySeen := true;
      lastAuthenticatedActivity := now;
      if apClientHoldStarted {
        apClientHoldStartedMs := now;
        releasingStaleClients := false;
        forcedStaleAttempt := false;
      }
    }

    method RestartQuiet(now: u32)
      modifies this
      ensures Model() == Quieten(old(Model()), now)
    {
      phase := ApQuiet;
      phaseStarted := now;
      forcedStaleAttempt := false;
    }

    method UpdateAt(now: u32, stationConnected: bool, apClientConnected: bool, localOperationActive: bool) returns (action: Action)
      modifies this
      ensures (Model(), action) == Update(config, old(Model()), now, stationConnected, apClientConnected, localOperationActive)
    {
      hide Sub32;
      if phase == Inactive {
        return NoAction;
      }
      if stationConnected {
        Stop();
        return NoAction;
      }
      var authenticatedHold := authenticatedActivitySeen && Sub32(now, lastAuthenticatedActivity) < config.authHold;
      if apClientConnected && !apClientHoldStarted {
        apClientHoldStarted, apClientHoldStartedMs := true, now;
      }
      var blocked := localOperationActive || authenticatedHold || (apClientConnected && !forcedStaleAttempt);
      if phase == StationAttempt {
        if blocked || Sub32(now, phaseStarted) >= config.attempt {
          RestartQuiet(now);
          return StopAttempt;
        }
        return NoAction;
      }
      action := QuietUpdate(now, apClientConnected, localOperationActive, authenticatedHold, blocked);
    }

    method QuietUpdate(now: u32, apClientConnected: bool, localOperationActive: bool, authenticatedHold: bool, blocked: bool)
      returns (action: Action)
      requires phase == ApQuiet && (apClientConnected ==> apClientHoldStarted)
      requires authenticatedHold <==> AuthHeld(config, Model(), now)
      requires blocked <==> localOperationActive || authenticatedHold || (apClientConnected && !forcedStaleAttempt)
      modifies this
      ensures (Model(), action) == Update(config, old(Model()), now, false, apClientConnected, localOperationActive)
    {
      hide Sub32, AuthHeld;
      if releasingStaleClients && !localOperationActive && !authenticatedHold && Sub32(now, phaseStarted) >= config.quiet {
        phase, phaseStarted, forcedStaleAttempt := StationAttempt, now, true;
        return ReleaseAndStart;
      }
      if apClientConnected && !localOperationActive && !authenticatedHold {
        if !releasingStaleClients && Sub32(now, apClientHoldStartedMs) >= config.clientHold {
          releasingStaleClients, lastClientRelease, phaseStarted := true, now, now;
          return ReleaseClients;
        }
        if releasingStaleClients && Sub32(now, lastClientRelease) >= config.releaseInterval {
          lastClientRelease := now;
          return ReleaseClients;
        }
        return NoAction;
      }
      if !blocked && Sub32(now, phaseStarted) >= config.quiet {
        phase, phaseStarted := StationAttempt, now;
        apClientHoldStarted, apClientHoldStartedMs, releasingStaleClients := false, 0, false;
        lastClientRelease, forcedStaleAttempt := 0, false;
        return StartAttempt;
      }
      action := NoAction;
    }
  }

  // ---------- Whole runs in real time ----------

  datatype Call =
    | CallBegin | CallStop | CallAuth | CallQuieten
    | CallUpdate(connected: bool, client: bool, local: bool)

  /** The policy with the real times behind its stamps and all attempt starts. */
  datatype Timed = Timed(state: State, now: nat, phaseAt: nat, authAt: nat, holdAt: nat, releasedAt: nat, starts: seq<nat>)

  const FRESH := Timed(STOPPED, 0, 0, 0, 0, 0, [])

  /** The call starts the hold of a client, or renews it. */
  predicate HoldsFrom(s: State, call: Call) {
    match call
    case CallAuth => s.holdSeen
    case CallUpdate(connected, client, local) => s.phase != Inactive && !connected && client && !s.holdSeen
    case _ => false
  }

  function Outcome(c: Config, s: State, call: Call, now: u32): (State, Action) {
    match call
    case CallBegin => (Begin(now), NoAction)
    case CallStop => (STOPPED, NoAction)
    case CallAuth => (NoteAuth(s, now), NoAction)
    case CallQuieten => (Quieten(s, now), NoAction)
    case CallUpdate(connected, client, local) => Update(c, s, now, connected, client, local)
  }

  function Advance(c: Config, t: Timed, call: Call, at: nat): Timed {
    var (next, action) := Outcome(c, t.state, call, Wrap32(at));
    Timed(next, at,
          if call.CallBegin? || call.CallQuieten? || Starts(action) || action == StopAttempt
             || (action == ReleaseClients && !t.state.releasing)
          then at else t.phaseAt,
          if call.CallAuth? then at else t.authAt,
          if HoldsFrom(t.state, call) then at else t.holdAt,
          if action == ReleaseClients then at else t.releasedAt,
          if Starts(action) then t.starts + [at] else t.starts)
  }

  ghost predicate Ok(c: Config, t: Timed) {
    && (t.state.phase != Inactive ==> t.state.started == Wrap32(t.phaseAt) && t.phaseAt <= t.now
                                      && forall i | 0 <= i < |t.starts| :: t.starts[i] <= t.phaseAt)
    && (t.state.phase == StationAttempt ==> t.starts != [] && t.starts[|t.starts| - 1] == t.phaseAt)
    && (t.state.releasing ==> t.state.lastRelease == Wrap32(t.releasedAt) && t.releasedAt <= t.now)
    && (t.state.authSeen ==> t.state.lastAuth == Wrap32(t.authAt) && t.authAt <= t.now)
    && (t.state.holdSeen ==> t.state.holdStarted == Wrap32(t.holdAt) && t.holdAt <= t.now)
    && (forall i | 0 <= i < |t.starts| :: t.starts[i] <= t.now)
    && Separated(c, t.starts)
  }

  ghost predicate Separated(c: Config, starts: seq<nat>) {
    forall i, j | 0 <= i < j < |starts| :: starts[i] + c.quiet <= starts[j]
  }

  /** A start finds no local work, no authenticated hold, and a whole quiet
      phase behind it, in real time and whatever the clock has wrapped. */
  lemma StartIsUndisturbed(c: Config, t: Timed, connected: bool, client: bool, local: bool, at: nat)
    requires Ok(c, t) && t.now <= at
    requires Starts(Update(c, t.state, Wrap32(at), connected, client, local).1)
    ensures !local && !connected && t.phaseAt + c.quiet <= at
    ensures t.state.authSeen ==> t.authAt + c.authHold <= at
  {
    ElapsedUnder(t.phaseAt, at);
    if t.state.authSeen {
      ElapsedUnder(t.authAt, at);
    }
    hide Wrap32;
  }

  /** The authenticated hold, in real time. */
  predicate Holding(c: Config, t: Timed, at: nat) { t.state.authSeen && at < t.authAt + c.authHold }

  /** A running attempt is stopped exactly by local work, an authenticated hold,
      a client it was not forced against, or the end of its time; then a quiet
      phase begins, and otherwise it goes on. */
  lemma AttemptStopsExactly(c: Config, t: Timed, client: bool, local: bool, at: nat)
    requires Ok(c, t) && t.now <= at && t.state.phase == StationAttempt
    requires at < t.phaseAt + 0x1_0000_0000 && (t.state.authSeen ==> at < t.authAt + 0x1_0000_0000)
    ensures t.starts != [] && t.starts[|t.starts| - 1] == t.phaseAt
    ensures var (next, action) := Update(c, t.state, Wrap32(at), false, client, local);
            if local || Holding(c, t, at) || (client && !t.state.forced) || at >= t.phaseAt + c.attempt
            then action == StopAttempt && next.phase == ApQuiet && next.started == Wrap32(at) && !next.forced
            else action == NoAction && next.phase == StationAttempt && next.started == t.state.started && next.forced == t.state.forced
  {
    ElapsedUnder(t.phaseAt, at);
    if t.state.authSeen {
      ElapsedUnder(t.authAt, at);
    }
    hide Wrap32;
  }

  /** What a quiet phase does, in real time: while local work or an authenticated
      hold goes on, nothing; once clients are being released, an attempt forced
      against them after a whole quiet phase, and until then a release per
      interval; with a client, a first release after its hold; without, an
      attempt after a whole quiet phase. */
  lemma QuietActsExactly(c: Config, t: Timed, client: bool, local: bool, at: nat)
    requires Ok(c, t) && t.now <= at && t.state.phase == ApQuiet
    requires at < t.phaseAt + 0x1_0000_0000 && (t.state.authSeen ==> at < t.authAt + 0x1_0000_0000)
    requires t.state.holdSeen ==> at < t.holdAt + 0x1_0000_0000
    requires t.state.releasing ==> at < t.releasedAt + 0x1_0000_0000
    ensures var (next, action) := Update(c, t.state, Wrap32(at), false, client, local);
            && action == (if local || Holding(c, t, at) then NoAction
                          else if t.state.releasing && at >= t.phaseAt + c.quiet then ReleaseAndStart
                          else if client && t.state.releasing then
                            if at >= t.releasedAt + c.releaseInterval then ReleaseClients else NoAction
                          else if client then
                            if at >= (if t.state.holdSeen then t.holdAt else at) + c.clientHold then ReleaseClients else NoAction
                          else if at >= t.phaseAt + c.quiet then StartAttempt else NoAction)
            && next.phase == (if Starts(action) then StationAttempt else ApQuiet)
            && (Starts(action) ==> next.forced == t.state.releasing)
            && next.releasing == (action != StartAttempt && (t.state.releasing || action == ReleaseClients))
            && next.holdSeen == (action != StartAttempt && (t.state.holdSeen || client))
  {
    ElapsedUnder(t.phaseAt, at);
    ElapsedUnder(at, at);
    if t.state.releasing {
      ElapsedUnder(t.releasedAt, at);
    }
    if t.state.holdSeen {
      ElapsedUnder(t.holdAt, at);
    }
    if t.state.authSeen {
      ElapsedUnder(t.authAt, at);
    }
    hide Wrap32;
  }

  /** Clients are released only while undisturbed, first after a whole client
      hold and then a release interval apart. */
  lemma ReleasesAreSpaced(c: Config, t: Timed, connected: bool, client: bool, local: bool, at: nat)
    requires Ok(c, t) && t.now <= at
    requires Update(c, t.state, Wrap32(at), connected, client, local).1 == ReleaseClients
    ensures client && !local && !connected && (t.state.authSeen ==> t.authAt + c.authHold <= at)
    ensures t.state.releasing ==> t.releasedAt + c.releaseInterval <= at
    ensures !t.state.releasing ==> (if t.state.holdSeen then t.holdAt + c.clientHold <= at else c.clientHold == 0)
  {
    ElapsedUnder(at, at);
    if t.state.releasing {
      ElapsedUnder(t.releasedAt, at);
    }
    if t.state.holdSeen {
      ElapsedUnder(t.holdAt, at);
    }
    if t.state.authSeen {
      ElapsedUnder(t.authAt, at);
    }
    hide Wrap32;
  }

  lemma AdvanceOk(c: Config, t: Timed, call: Call, at: nat)
    requires Ok(c, t) && t.now <= at
    ensures Ok(c, Advance(c, t, call, at))
  {
    hide Wrap32, Sub32;
    if call.CallUpdate? && Starts(Outcome(c, t.state, call, Wrap32(at)).1) {
      StartIsUndisturbed(c, t, call.connected, call.client, call.local, at);
    }
  }

  datatype Input = Input(call: Call, at: nat)

  ghost predicate Monotone(inputs: seq<Input>) { forall i, j | 0 <= i < j < |inputs| :: inputs[i].at <= inputs[j].at }

  ghost function Run(c: Config, inputs: seq<Input>): (t: Timed)
    requires Monotone(inputs)
    ensures Ok(c, t) && (inputs != [] ==> t.now == inputs[|inputs| - 1].at) && (inputs == [] ==> t.now == 0)
  {
    if inputs == [] then FRESH
    else
      var front, last := inputs[..|inputs| - 1], inputs[|inputs| - 1];
      AdvanceOk(c, Run(c, front), last.call, last.at);
      Advance(c, Run(c, front), last.call, last.at)
  }

  /** Over every run any two attempt starts are at least `quiet` apart. */
  lemma {:induction false} StartsAreSeparated(c: Config, inputs: seq<Input>, i: nat, j: nat)
    requires Monotone(inputs) && i < j < |Run(c, inputs).starts|
    ensures Run(c, inputs).starts[i] + c.quiet <= Run(c, inputs).starts[j]
  {
  }

  // ---------- The policy object over runs ----------

  /** Any call, on the object. */
  method Perform(policy: RecoveryRadioPolicy, call: Call, now: u32) returns (action: Action)
    modifies policy
    ensures (policy.Model(), action) == Outcome(policy.config, old(policy.Model()), call, now)
  {
    hide RecoveryRadioPolicy.Model, Update, NoteAuth, Quieten;
    action := NoAction;
    match call
    case CallBegin => policy.Start(now);
    case CallStop => policy.Stop();
    case CallAuth => policy.NoteAuthenticatedActivity(now);
    case CallQuieten => policy.RestartQuiet(now);
    case CallUpdate(connected, client, local) => action := policy.UpdateAt(now, connected, client, local);
  }

  /** A new policy through any calls at any times: the attempts it starts are at
      least the quiet time apart. */
  method Drive(config: Config, inputs: seq<Input>) returns (policy: RecoveryRadioPolicy, starts: seq<nat>)
    requires Monotone(inputs)
    ensures fresh(policy) && policy.config == config && policy.Model() == Run(config, inputs).state && starts == Run(config, inputs).starts
    ensures Separated(config, starts)
  {
    hide RecoveryRadioPolicy.Model, Run, Advance, Outcome, Monotone;
    policy := new RecoveryRadioPolicy(config);
    starts := [];
    var k := 0;
    RunsFromFresh(config);
    assert inputs[..0] == [];
    while k < |inputs|
      invariant 0 <= k <= |inputs| && fresh(policy) && policy.config == config && Monotone(inputs[..k])
      invariant policy.Model() == Run(config, inputs[..k]).state && starts == Run(config, inputs[..k]).starts
    {
      RunPrefix(config, inputs, k);
      OutcomeIs(config, Run(config, inputs[..k]), inputs[k].call, inputs[k].at);
      var action := Perform(policy, inputs[k].call, Wrap32(inputs[k].at));
      if Starts(action) {
        starts := starts + [inputs[k].at];
      }
      k := k + 1;
    }
    assert inputs[..k] == inputs;
    assert Ok(config, Run(config, inputs));
  }

  lemma RunsFromFresh(c: Config)
    ensures Monotone([]) && Run(c, []).state == STOPPED && Run(c, []).starts == []
  {
  }

  lemma {:induction false} RunPrefix(c: Config, inputs: seq<Input>, k: nat)
    requires Monotone(inputs) && k < |inputs|
    ensures Monotone(inputs[..k]) && Monotone(inputs[..k + 1])
    ensures Run(c, inputs[..k + 1]) == Advance(c, Run(c, inputs[..k]), inputs[k].call, inputs[k].at)
  {
    hide Advance, Ok;
    assert inputs[..k + 1][..k] == inputs[..k];
  }

  lemma OutcomeIs(c: Config, t: Timed, call: Call, at: nat)
    ensures var (next, action) := Outcome(c, t.state, call, Wrap32(at));
            && Advance(c, t, call, at).state == next
            && Advance(c, t, call, at).starts == if Starts(action) then t.starts + [at] else t.starts
  {
    hide Outcome;
  }

  // ---------- An attempt always comes ----------

  /** A quiet phase in real time. */
  datatype Quiet = Quiet(state: State, now: nat, phaseAt: nat, holdAt: nat)

  /** From here on the next update acts. */
  function Threshold(c: Config, q: Quiet): nat {
    if q.state.holdSeen && !q.state.releasing then Max(q.holdAt + c.clientHold, q.phaseAt + c.quiet) else q.phaseAt + c.quiet
  }

  /** By when an attempt starts if updates come at most `gap` apart. */
  function Deadline(c: Config, q: Quiet, gap: nat): nat {
    if q.state.releasing then q.phaseAt + c.quiet + gap
    else if q.state.holdSeen then Max(q.holdAt + c.clientHold, q.phaseAt + c.quiet) + c.quiet + 2 * gap
    else q.phaseAt + 2 * c.quiet + c.clientHold + 3 * gap
  }

  ghost predicate QuietOk(c: Config, q: Quiet) {
    && q.state.phase == ApQuiet && q.state.started == Wrap32(q.phaseAt) && q.phaseAt <= q.now
    && (q.state.holdSeen ==> q.state.holdStarted == Wrap32(q.holdAt) && q.holdAt <= q.now)
    && q.now <= Threshold(c, q)
  }

  ghost predicate Unwrapped(q: Quiet, bound: nat) {
    bound < q.phaseAt + 0x1_0000_0000 && (q.state.holdSeen ==> bound < q.holdAt + 0x1_0000_0000)
  }

  function AfterUpdate(c: Config, q: Quiet, client: bool, at: nat): Quiet {
    var (next, action) := Update(c, q.state, Wrap32(at), false, client, false);
    Quiet(next, at, if action == ReleaseClients && !q.state.releasing then at else q.phaseAt,
          if client && !q.state.holdSeen then at else q.holdAt)
  }

  lemma UnwrappedEarlier(q: Quiet, at: nat, bound: nat)
    requires Unwrapped(q, bound) && at <= bound
    ensures Unwrapped(q, at)
  {
  }

  /** One update during the quiet phase, without local work or an
      authenticated hold, starts an attempt or brings it no later. */
  lemma QuietStep(c: Config, q: Quiet, client: bool, at: nat, gap: nat)
    requires QuietOk(c, q) && q.now <= at <= q.now + gap && Unwrapped(q, at)
    requires !AuthHeld(c, q.state, Wrap32(at))
    ensures at <= Deadline(c, q, gap)
    ensures var next := AfterUpdate(c, q, client, at);
            || Starts(Update(c, q.state, Wrap32(at), false, client, false).1)
            || (QuietOk(c, next) && Deadline(c, next, gap) <= Deadline(c, q, gap)
                && next.state.authSeen == q.state.authSeen && next.state.lastAuth == q.state.lastAuth)
  {
    ElapsedUnder(q.phaseAt, at);
    ElapsedUnder(at, at);
    if q.state.holdSeen {
      ElapsedUnder(q.holdAt, at);
    }
    hide Wrap32, AuthHeld;
  }

  datatype Poll = Poll(at: nat, client: bool)

  /** Updates at most `gap` apart from `now` on. */
  ghost predicate Prompt(now: nat, polls: seq<Poll>, gap: nat) {
    && (polls != [] ==> now <= polls[0].at <= now + gap)
    && forall i, j | 0 <= i && j == i + 1 < |polls| :: polls[i].at <= polls[j].at <= polls[i].at + gap
  }

  /** Undisturbed updates: no station, no local work. */
  function Updates(polls: seq<Poll>): seq<Input> {
    if polls == [] then [] else [Input(CallUpdate(false, polls[0].client, false), polls[0].at)] + Updates(polls[1..])
  }

  /** The same quiet phase, seen as a run. */
  ghost predicate Same(t: Timed, q: Quiet) {
    t.state == q.state && t.now == q.now && t.phaseAt == q.phaseAt && (q.state.holdSeen ==> t.holdAt == q.holdAt)
  }

  lemma {:induction false} RunSnoc(c: Config, inputs: seq<Input>, last: Input)
    requires Monotone(inputs) && Run(c, inputs).now <= last.at
    ensures Monotone(inputs + [last]) && Run(c, inputs + [last]) == Advance(c, Run(c, inputs), last.call, last.at)
  {
    assert inputs != [] ==> Run(c, inputs).now == inputs[|inputs| - 1].at;
    assert Monotone(inputs + [last]);
    assert (inputs + [last])[..|inputs|] == inputs;
    hide Ok, Advance;
  }

  lemma {:induction false} MonotonePolls(c: Config, inputs: seq<Input>, polls: seq<Poll>, gap: nat)
    requires Monotone(inputs) && Prompt(Run(c, inputs).now, polls, gap)
    ensures Monotone(inputs + Updates(polls)) && Run(c, inputs).starts <= Run(c, inputs + Updates(polls)).starts
    decreases |polls|
  {
    hide Run, Monotone, Advance, Prompt, Ok, Updates;
    if polls == [] {
      assert Updates(polls) == [] && inputs + [] == inputs by { NoUpdates(); }
    } else {
      var first := Input(CallUpdate(false, polls[0].client, false), polls[0].at);
      PromptRest(Run(c, inputs).now, polls, gap);
      RunSnoc(c, inputs, first);
      AdvanceGrows(c, Run(c, inputs), first.call, first.at);
      MonotonePolls(c, inputs + [first], polls[1..], gap);
      NextUpdate(inputs, polls);
    }
  }

  lemma NoUpdates()
    ensures Updates([]) == []
  {
  }

  lemma {:induction false} NextUpdate(inputs: seq<Input>, polls: seq<Poll>)
    requires polls != []
    ensures inputs + [Input(CallUpdate(false, polls[0].client, false), polls[0].at)] + Updates(polls[1..]) == inputs + Updates(polls)
  {
  }

  lemma AdvanceGrows(c: Config, t: Timed, call: Call, at: nat)
    ensures Advance(c, t, call, at).now == at && t.starts <= Advance(c, t, call, at).starts
  {
    hide Outcome;
  }

  lemma PromptRest(now: nat, polls: seq<Poll>, gap: nat)
    requires polls != [] && Prompt(now, polls, gap)
    ensures now <= polls[0].at <= now + gap && Prompt(polls[0].at, polls[1..], gap)
  {
    assert |polls| > 1 ==> polls[0].at <= polls[1].at <= polls[0].at + gap;
    forall i, j | 0 <= i && j == i + 1 < |polls[1..]| ensures polls[1..][i].at <= polls[1..][j].at <= polls[1..][i].at + gap {
      assert polls[i + 1].at <= polls[j + 1].at <= polls[i + 1].at + gap;
    }
  }

  /** Whatever idle clients do, once updates have run past the deadline, an
      attempt has started in the run, and by the deadline. */
  lemma {:induction false} AttemptComes(c: Config, inputs: seq<Input>, q: Quiet, polls: seq<Poll>, gap: nat, bound: nat) returns (k: nat)
    requires Monotone(inputs) && Same(Run(c, inputs), q)
    requires QuietOk(c, q) && Prompt(q.now, polls, gap) && Deadline(c, q, gap) <= bound && Unwrapped(q, bound)
    requires forall i | 0 <= i < |polls| :: !AuthHeld(c, q.state, Wrap32(polls[i].at))
    requires polls != [] && polls[|polls| - 1].at > bound
    ensures Monotone(inputs + Updates(polls))
    ensures var all := Run(c, inputs + Updates(polls)).starts;
            |Run(c, inputs).starts| <= k < |all| && q.now <= all[k] <= bound
    decreases polls
  {
    hide Run, Monotone, Deadline, QuietOk, AuthHeld, Advance, Unwrapped, Prompt, Update, Ok, Separated;
    PromptRest(q.now, polls, gap);
    QuietPhase(c, q);
    var poll := polls[0];
    var first := Input(CallUpdate(false, poll.client, false), poll.at);
    var next := AfterUpdate(c, q, poll.client, poll.at);
    MonotonePolls(c, inputs, polls, gap);
    FirstInTime(c, q, poll.at, gap);
    UnwrappedEarlier(q, poll.at, bound);
    QuietStep(c, q, poll.client, poll.at, gap);
    RunSnoc(c, inputs, first);
    MonotonePolls(c, inputs + [first], polls[1..], gap);
    NextUpdate(inputs, polls);
    AdvanceIs(c, Run(c, inputs), q, poll.client, poll.at);
    if Starts(Update(c, q.state, Wrap32(poll.at), false, poll.client, false).1) {
      k := |Run(c, inputs).starts|;
    } else {
      UnwrappedKept(c, q, poll.client, poll.at, bound);
      SameHold(c, q.state, next.state, polls);
      assert polls[1..] != [] && polls[1..][|polls| - 2] == polls[|polls| - 1];
      k := AttemptComes(c, inputs + [first], next, polls[1..], gap, bound);
    }
  }

  lemma QuietPhase(c: Config, q: Quiet)
    requires QuietOk(c, q)
    ensures q.state.phase == ApQuiet
  {
  }

  /** One undisturbed update of the run is one step of the quiet phase. */
  lemma AdvanceIs(c: Config, t: Timed, q: Quiet, client: bool, at: nat)
    requires Same(t, q) && q.state.phase == ApQuiet
    ensures var n, action := Advance(c, t, CallUpdate(false, client, false), at), Update(c, q.state, Wrap32(at), false, client, false).1;
            && n.starts == (if Starts(action) then t.starts + [at] else t.starts)
            && (!Starts(action) ==> Same(n, AfterUpdate(c, q, client, at)))
  {
    hide Wrap32, Sub32, AuthHeld;
  }

  lemma FirstInTime(c: Config, q: Quiet, at: nat, gap: nat)
    requires QuietOk(c, q) && q.now <= at <= q.now + gap
    ensures at <= Deadline(c, q, gap)
  {
  }

  lemma UnwrappedKept(c: Config, q: Quiet, client: bool, at: nat, bound: nat)
    requires QuietOk(c, q) && Unwrapped(q, bound) && q.now <= at <= bound
    ensures Unwrapped(AfterUpdate(c, q, client, at), bound) || Starts(Update(c, q.state, Wrap32(at), false, client, false).1)
  {
    hide Wrap32, AuthHeld, Sub32;
  }

  lemma SameHold(c: Config, s: State, n: State, polls: seq<Poll>)
    requires n.authSeen == s.authSeen && n.lastAuth == s.lastAuth
    requires forall i | 0 <= i < |polls| :: !AuthHeld(c, s, Wrap32(polls[i].at))
    ensures polls != [] ==> forall i | 0 <= i < |polls[1..]| :: !AuthHeld(c, n, Wrap32(polls[1..][i].at))
  {
    if polls != [] {
      forall i | 0 <= i < |polls[1..]| ensures !AuthHeld(c, n, Wrap32(polls[1..][i].at)) {
        assert polls[1..][i] == polls[i + 1] && !AuthHeld(c, s, Wrap32(polls[i + 1].at));
      }
    }
  }

  /** In every run, from the beginning of a quiet phase: if updates then come at
      most `gap` apart without station, local work or authenticated hold, the
      run starts an attempt within twice the quiet time, one client hold and
      three update gaps, whatever idle clients do. */
  lemma {:induction false} AttemptStartsInTime(c: Config, inputs: seq<Input>, polls: seq<Poll>, gap: nat) returns (k: nat)
    requires Monotone(inputs) && polls != []
    requires var t := Run(c, inputs);
             var bound := t.now + 2 * c.quiet + c.clientHold + 3 * gap;
             var last := polls[|polls| - 1].at;
             && t.state.phase == ApQuiet && t.phaseAt == t.now && Prompt(t.now, polls, gap) && bound < last
             && bound < t.now + 0x1_0000_0000 && (t.state.holdSeen ==> bound < t.holdAt + 0x1_0000_0000)
             && (t.state.authSeen ==> t.authAt + c.authHold <= polls[0].at && last < t.authAt + 0x1_0000_0000)
    ensures Monotone(inputs + Updates(polls))
    ensures var t := Run(c, inputs);
            var all := Run(c, inputs + Updates(polls)).starts;
            |t.starts| <= k < |all| && t.now <= all[k] <= t.now + 2 * c.quiet + c.clientHold + 3 * gap
  {
    var t := Run(c, inputs);
    var q := Quiet(t.state, t.now, t.phaseAt, t.holdAt);
    forall i | 0 <= i < |polls| ensures !AuthHeld(c, q.state, Wrap32(polls[i].at)) {
      PollsInOrder(t.now, polls, gap, 0, i);
      PollsInOrder(t.now, polls, gap, i, |polls| - 1);
      if t.state.authSeen {
        ElapsedUnder(t.authAt, polls[i].at);
      }
    }
    hide Run, Monotone, AuthHeld;
    k := AttemptComes(c, inputs, q, polls, gap, t.now + 2 * c.quiet + c.clientHold + 3 * gap);
  }

  lemma {:induction false} PollsInOrder(now: nat, polls: seq<Poll>, gap: nat, i: nat, j: nat)
    requires Prompt(now, polls, gap) && i <= j < |polls|
    ensures now <= polls[0].at && polls[i].at <= polls[j].at
    decreases j
  {
    if i < j {
      PollsInOrder(now, polls, gap, i, j - 1);
    }
  }
}
