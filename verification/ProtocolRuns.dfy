/** What the session core guarantees as an object, over all calls it has served. */
module ProtocolRuns {
  import opened Wrappers
  import opened Words
  import opened AccessEvents
  import opened Session
  import opened SessionGate
  import opened SessionBackoff
  import opened SessionChain
  import opened SessionDeadline
  import P = ProtocolCore

  /** Whatever calls it served: its gate word is well formed and balanced, and
      its events form causation chains unless and only unless one of the calls
      opened a session that could not start one. */
  lemma CoreGuarantees(core: P.ProtocolCore)
    requires core.Valid()
    ensures PhaseOf(core.log) != Broken
    ensures Begins(core.log) == Ends(core.log) + if core.authControlActive then 1 else 0
    ensures core.authControlActive <==> core.state == ChallengeIssued
    ensures ChainOk(core.bridge.downstream) <==>
              KeepsChains(Initialized(core.boot, core.authControlGate, core.eventSink), core.history)
    ensures ChainOk(core.bridge.downstream) && core.bridge.verifiedSessionActive ==>
              core.tracker.Model().active && core.tracker.Model().session == core.bridge.sessionId
  {
    RunChainsExactly(core.boot, core.authControlGate, core.eventSink, core.history);
    hide Run, Initialized, KeepsChains, ChainOk;
    BeginsAreEnded(core.log);
  }

  lemma {:induction false} TimedSnoc(t: Timed, inputs: seq<TimedInput>, last: TimedInput)
    ensures RunTimed(t, inputs + [last]) == Advance(RunTimed(t, inputs), last.call, last.at, last.env)
    decreases |inputs|
  {
    hide Advance;
    if inputs != [] {
      assert (inputs + [last])[1..] == inputs[1..] + [last];
      TimedSnoc(Advance(t, inputs[0].call, inputs[0].at, inputs[0].env), inputs[1..], last);
    } else {
      assert inputs + [last] == [last] && [last][1..] == [];
      assert RunTimed(t, [last]) == RunTimed(Advance(t, last.call, last.at, last.env), []);
    }
  }

  lemma AdvanceSteps(t: Timed, call: Call, at: nat, env: Env)
    ensures Advance(t, call, at, env).core == Step(t.core, call, Wrap32(at), env)
  {
    hide Step;
  }

  lemma LogIsModels(core: P.ProtocolCore)
    requires core.Valid()
    ensures core.Model().log == core.log
  {
  }

  lemma {:induction false} AllVerifyInTime(boot: nat, gate: bool, sink: bool, inputs: seq<TimedInput>)
    requires InOrder(inputs) && Attended(inputs)
    ensures var d := RunDated(Initialized(boot, gate, sink), inputs);
            && |d.dates| == |d.core.log|
            && forall i: nat, j: nat | i < |d.core.log| && d.core.log[i].Verify? && IssueOf(d.core.log, j, i) ::
                 d.core.log[j].challenge == d.core.log[i].request.challenge && d.dates[j] <= d.dates[i] < d.dates[j] + 5000
  {
    hide Initialized, RunDated;
    RunAttended(boot, gate, sink, inputs);
    var d := RunDated(Initialized(boot, gate, sink), inputs);
    forall i: nat, j: nat | i < |d.core.log| && d.core.log[i].Verify? && IssueOf(d.core.log, j, i)
      ensures d.core.log[j].challenge == d.core.log[i].request.challenge && d.dates[j] <= d.dates[i] < d.dates[j] + 5000
    {
      var k := AttendedRunVerifiesInTime(boot, gate, sink, inputs, i);
      OneLastIssue(d.core.log, j, k, i);
    }
  }

  /** Serves any sequence of calls at any times. */
  method Drive(boot: nat, gate: bool, sink: bool, inputs: seq<TimedInput>)
    returns (core: P.ProtocolCore, ghost timed: Timed, ghost dates: seq<nat>)
    ensures fresh(core) && core.Valid() && |core.history| == |inputs|
    ensures timed == RunTimed(Timed(Initialized(boot, gate, sink), 0, [], 0), inputs) && core.Model() == timed.core
    ensures PhaseOf(core.log) != Broken
    ensures ChainOk(core.bridge.downstream) <==> KeepsChains(Initialized(boot, gate, sink), core.history)
    ensures Plausible(Timed(Initialized(boot, gate, sink), 0, [], 0), inputs) ==>
              forall k | 0 <= k < |timed.recent| && timed.recent[k] < timed.recent[0] + 10000 :: k < 6
    ensures Dated(core.Model(), dates) == RunDated(Initialized(boot, gate, sink), inputs)
    ensures InOrder(inputs) && Attended(inputs) ==>
              && |dates| == |core.log|
              && forall i: nat, j: nat | i < |core.log| && core.log[i].Verify? && IssueOf(core.log, j, i) ::
                   core.log[j].challenge == core.log[i].request.challenge && dates[j] <= dates[i] < dates[j] + 5000
  {
    hide P.ProtocolCore.Model, Initialized, Step, Advance, Stable, Run, AttendedOk;
    core := new P.ProtocolCore(boot, gate, sink);
    ghost var start := Timed(Initialized(boot, gate, sink), 0, [], 0);
    timed := start;
    ghost var first := Initialized(boot, gate, sink);
    dates := [];
    InitialDated(boot, gate, sink);
    var k := 0;
    assert inputs[..0] == [];
    while k < |inputs|
      invariant 0 <= k <= |inputs| && fresh(core) && core.Valid() && |core.history| == k
      invariant core.boot == boot && core.authControlGate == gate && core.eventSink == sink
      invariant fresh(core.outputs) && fresh(core.eventSequence) && fresh(core.bridge) && fresh(core.tracker)
      invariant timed == RunTimed(start, inputs[..k]) && core.Model() == timed.core
      invariant Dated(timed.core, dates) == RunDated(first, inputs[..k])
    {
      var i := inputs[k];
      P.Perform(core, i.call, Wrap32(i.at), i.env);
      TimedSnoc(start, inputs[..k], i);
      assert inputs[..k + 1] == inputs[..k] + [i];
      AdvanceSteps(timed, i.call, i.at, i.env);
      RunDatedPrefix(first, inputs, k);
      dates := RunDated(first, inputs[..k + 1]).dates;
      timed := Advance(timed, i.call, i.at, i.env);
      k := k + 1;
    }
    assert inputs[..k] == inputs;
    CoreGuarantees(core);
    LogIsModels(core);
    if InOrder(inputs) && Attended(inputs) {
      AllVerifyInTime(boot, gate, sink, inputs);
    }
    if Plausible(start, inputs) {
      forall k | 0 <= k < |timed.recent| && timed.recent[k] < timed.recent[0] + FAILURE_WINDOW_MS ensures k < 6 {
        AtMostSixFailures(boot, gate, sink, inputs, k);
      }
    }
  }
}
