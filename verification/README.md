# Verified models of the gatekeeper's protocol cores

These Dafny files model the decision logic of the door firmware and of its
host-side tools, and prove what they keep over whole runs:

- the Target's GATT transport and its single-use challenge session, with the
  authentication gate, the failure back-off and the causal event chain
  (`Framing`, `FrameSoundness`, `Adapter`, `AdapterHistory`, `EndToEnd`,
  `AccessEvents`, `VerifiedHistory`, `Session*`, `ProtocolCore`, `ProtocolRuns`);
- ordering of observed events and the causality search (`EventOrder`,
  `EventChronology`);
- publication of firmware and app releases over SFTP, where every request may
  fail before or after its effect (`Sftp`, `Immutable`, `TargetVersion`,
  `TargetPublish`, `MobilePublish`);
- the restart journal in retained memory (`RestartJournal`, `JournalDamage`);
- the resumable firmware download (`OtaDownload`);
- the budget of network repairs, its controller and the sharing of the radio
  (`NetworkRecovery`, `NetworkRecoveryRuns`, `RecoveryController`, `RadioSharing`);
- the recogniser of flat JSON commands (`FlatJson`);
- what is signed: canonical bytes of events, statuses, receipts and sensor
  sessions, and the recorder of the latter (`CanonicalBytes`, `AccessEvidence`,
  `Receipts`, `SensorSession`, `SensorEvidence`, `EvidenceLayout`).

`dafny verify dfyconfig.toml` checks everything. `Words`, `Decimals` and
`Wrappers` hold machine words, decimal digits and result types.

How the models are built:

- Classes of mutable fields are Dafny classes with those fields. Their methods
  are proved against functions on a plain state (`Model()`), and the theorems
  over runs are lemmas about those functions. `Session.Step` is the step of the
  session, `ProtocolCore` the class that refines it, ring buffers included.
- What the specification functions compute is said a second time without them,
  in numbers, bytes and real time: `EventChronology.OrderMeans`,
  `FrameSoundness.DeliveredWasCollected`, `AdapterHistory.ConfirmsExactly`,
  `VerifiedHistory.PublishesExactly`, `SessionAnswers.StepAnswers`,
  `SessionDeadline.StepLogs`, `TargetPublish.DecisionByNumbers`,
  `MobilePublish.AcceptableIs`, `JournalDamage.ValidMeans`,
  `NetworkRecoveryRuns.SelectsWhatIsDue`, `RadioSharing.QuietActsExactly`,
  `FlatJson.Alphabet` and the layouts of `EvidenceLayout`.
- Everything outside is arbitrary within its contract: replies of random
  source, verifier, gate and driver, answers of the download connection, and
  faults and rivals of the SFTP server are parameters of each run.
- The SFTP server logs every change, its own and the rivals', as one history.
  A publication is granted replacements of served files through `Allow`:
  `TargetSwap` or `MobileSwap` and nothing else, and `Server.Valid` says that
  every logged change was granted, merely added files or was a rival's. What
  this means for every moment of every history is proved of logs
  (`InstalledStaysWhole`, `EveryMomentIsServable`) and concluded for servers on
  which publications ran (`PublishSeries`).
- `ProtocolCore.Valid` says that the fields of the object are those of the run
  of all operations it has served, so the theorems over runs hold of objects
  (`ProtocolRuns`).
- A 32-bit time is the remainder of a true time. `SessionBackoff`,
  `NetworkRecoveryRuns`, `StartsAreSeparated` and `StartIsUndisturbed` hold
  across every wrap; `CommitInRealTime` and `AttemptStartsInTime` need, and
  state, intervals below 2^32 ms, `RecoveryController.Serve` and
  `SelectsWhatIsDue` a clock below it; the download needs idle limit plus ten of
  its slowest calls below 2^32 ms to end, and time limit plus five of them below
  it to end in time.
- Theorems over runs hold of objects: `Adapter.Drive`, `NetworkRecoveryRuns.Drive`,
  `RadioSharing.Drive`, `SensorSession.Drive` and `RecoveryController.Serve` take
  new objects through any calls at any times.
- Hashes are what they are taken of, signature checks and digests are unknown
  functions. Only `MixedPairsAreRejected` and `EveryMomentIsWholeOrRejected`
  assume of a digest that the artifacts in question do not collide.

Where the code does less than its documentation suggests, the model follows the
code:

- A session whose identity is drawn but whose nonce is not sends its terminal
  before its causation is reset. One whose identity was used before, but not
  immediately before, is announced again. `SessionChain.BreaksExactly` and
  `RunChainsExactly` show that these two, on the fast path and on the hello
  path, are exactly what breaks an event chain; `FailedNonceRun` and
  `ReusedIdentityRun` are runs that do.
- A proof that comes late is verified if 2^31 ms pass after the deadline of its
  challenge without a tick (`SessionDeadline.LateProofIsVerified`), and otherwise
  never (`AttendedRunVerifiesInTime`). Likewise a fragment 2^31 ms after the end
  of the assembly time (`FrameSoundness.DeliveredWasCollected`).
- A repair commit can fail right after its selection if the last action is
  2^32 ms old (`RecoveryController.WrappedCommitFails`, reached from the initial
  state).
- The last look at a fixed pointer does not protect it: a rival that writes at
  the very request of the replacement is overwritten, and only such a one
  (`TargetPublish.SwapUnlessChanged`, `RivalOverwritten`). The mobile publisher
  looks at the manifest only, so an APK that alone has changed since preflight
  is overwritten, and replaces it three requests later, over whatever rivals
  leave there meanwhile (`MobilePublish.PromoteUnlessChanged`, `PublishRoot`).
- Inside a failed mobile publication the rollback serves the old build after
  the new one was visible: exactly when it puts the old manifest back
  (`MobilePublish.FallsOnRollback`), as in the run of `RollbackLowersBuild`. At no
  moment is the build number below that of the start of any publication so far
  (`FloorHoldsAtEveryMoment`), and what is served then is a whole pair or
  rejected by every client (`EveryMomentIsWholeOrRejected`).
- The flat-JSON recogniser accepts every flat JSON object of strings and numbers
  (`FlatJson.JsonObjectsAccepted`) but also values that are neither
  (`NotOnlyNumbersAccepted`); the grammar in `FlatJson` is the one the code
  recognises.

## Model

| member | source | states |
|---|---|---|
| EventOrder.OrderEvents | observability/event_parser.py:524-575 | fails exactly when the stream is invalid, and otherwise returns the events in the lexicographically least order among all orders that respect every cause and every per-source sequence, taking the least free event each time; EventChronology says what valid and least are |
| EventChronology.OrderMeans | observability/event_parser.py:408-575 | in the fields of the events alone: it succeeds exactly for sound streams, and returns the one arrangement in which an event is taken while another was free only if it is synchronised and the other is not, or both are and its wall time is earlier, or equal and its id not above, or neither is and its instance, boot, sequence and id come first |
| EventChronology.ValidIsSound | observability/event_parser.py:408-521 | a stream is valid if and only if ids name one event each, causes are known (when strict), of the same session and of no later attempt, the clock and the attempts of a source rise with its sequences, sessions agree and end once, and some order puts every cause and every earlier sequence first |
| EventChronology.ChronologicalIsUnique | observability/event_parser.py:545-573 | there is only one such arrangement |
| EventChronology.KeyLessIs | observability/event_parser.py:547-551 | the key compares synchronisation, then wall time and id, or instance, boot, sequence and id |
| EventOrder.GreedyIsLeast | observability/event_parser.py:559-573 | a linearisation that always takes the least available event is the least linearisation |
| EventOrder.LeastIsUnique | observability/event_parser.py:524-575 | there is at most one least linearisation |
| EventOrder.OrderIgnoresArrival | observability/event_parser.py:524-575 | two streams with the same set of events, however reordered or repeated, fail alike or are ordered alike |
| EventOrder.OrderIds | observability/event_parser.py:545-573 | the loop of repeatedly popping the least ready event produces the least linearisation of the ids |
| EventOrder.PopLeast | observability/event_parser.py:559-566 | the popped event is ready and below every other ready event |
| EventOrder.KeyTotal | observability/event_parser.py:559-566 | the (tie-breaker, id) key is a total order on events of different ids |
| EventOrder.KeyTransitive | observability/event_parser.py:559-566 | that order is transitive |
| EventOrder.Deduplicate | observability/event_parser.py:379-405 | fails exactly when one id carries two different events, and otherwise keeps each distinct event once |
| EventOrder.ValidateStream | observability/event_parser.py:408-521 | accepts exactly the consistent, causally closed (when strict) and acyclic streams whose causes, sources and sessions agree |
| EventOrder.CheckCauses | observability/event_parser.py:427-434 | every known cause is of the same session and of no later attempt, or the stream is refused |
| EventOrder.CheckSources | observability/event_parser.py:436-453 | passes exactly when along each source, in the order of its sequence numbers, neither clock nor attempt falls |
| EventOrder.CheckSessions | observability/event_parser.py:455-492 | passes exactly when each session has one kind and one terminal event and, if an update, one component, one version and at most one digest, which its failure does not drop |
| EventOrder.AttemptsNeverFall | observability/event_parser.py:408-521 | in a valid stream no event causally precedes one of an earlier attempt, over causes and sequences alike |
| EventOrder.HasCycle | observability/event_parser.py:494-517 | the counting pass reports a cycle exactly when cause and sequence edges form one |
| EventOrder.CountingDecides | observability/event_parser.py:503-517 | when no parentless event is left, all events were counted exactly if the graph is acyclic |
| EventOrder.StuckIsCyclic | observability/event_parser.py:503-517 | a nonempty set of events each waiting for a parent in the set contains a cycle |
| EventOrder.LinearisationIsAcyclic | observability/event_parser.py:503-517 | where any respecting order exists there is no cycle |
| EventOrder.BuildEdges | observability/event_parser.py:494-502 | the edge dictionary holds exactly the cause edges and the edges between sequence neighbours of one source |
| EventOrder.SortBySequence | observability/event_parser.py:494-502 | the events of one source in ascending sequence |
| EventOrder.CausallyPrecedes | observability/event_parser.py:578-605 | the stack search answers true exactly for the reflexive-transitive closure of the edges |
| EventOrder.PrecedesTransitive | observability/event_parser.py:578-605 | causal precedence is transitive |
| EventOrder.PrecedenceIsOrder | observability/event_parser.py:578-605 | an event that strictly precedes another stands earlier in every respecting order, hence in the one returned |
| EventOrder.SelectChain | observability/event_parser.py:608-615 | the greedy scan selects required codes in order and no longer prefix of them can be found |
| EventOrder.RequiredCausalChain | observability/event_parser.py:608-622 | passes exactly when every required code occurs in order and the selected neighbours precede each other causally; what is missing is the rest of the codes |
| EventOrder.ChainIsCausal | observability/event_parser.py:608-622 | the first event of a passing chain causally precedes its last |
| Framing.BuildFrame | src/GattProtocol.cpp:1727-1756 | writes exactly the header and slice of the fragment, or nothing at all when the message, the index or the output is unsuitable |
| Framing.WriteHeader | src/GattProtocol.cpp:1745-1754 | fills the ten header bytes and leaves the rest of the buffer alone |
| Framing.NextFragment | src/GattProtocol.cpp:1185-1287 | a receiver holding fragments 0..i-1 and given fragment i within the assembly time holds 0..i, or delivers the whole payload if it was the last |
| Framing.RepeatedFragment | src/GattProtocol.cpp:1225-1250 | an immediate repeat of the last accepted fragment changes nothing, at any time |
| Framing.ReassemblyInvertsFragmentation | src/GattProtocol.cpp:1185-1287 | for every sendable message, every in-order schedule with immediate repeats and every timing within the assembly time, the message is delivered exactly, at the last frame and not before |
| Framing.AcceptedPartsGrow | src/GattProtocol.cpp:1185-1287 | any frame at all either leaves the accepted parts alone, drops them, or is the next part; a delivered payload is exactly the parts of all indices, with as many bytes as announced |
| FrameSoundness.DeliveredWasCollected | src/GattProtocol.cpp:1185-1287 | whatever frames arrive, whenever: a delivered message was collected from arrivals that are parts 0 to n-1 of one message (same kind, id, count and size, read from the bytes), in order, the last one just now, each less than two seconds after the first unless 2^31 ms more have gone by, with nothing but repeats between them, and is their contents |
| FrameSoundness.FrameLayout | src/GattProtocol.cpp:1727-1756 | the ten header bytes and the slice of a frame, in numbers |
| FrameSoundness.KindsOnTheWire | include/GattProtocol.h:71-81 | the byte of each message kind |
| Adapter.AdapterState.AcceptConnection | src/GattProtocol.cpp:771-779 | takes one owner of a usable handle and generation when none is connected |
| Adapter.AdapterState.Disconnect | src/GattProtocol.cpp:780-793 | only the owning handle ends the connection, which drops subscriptions and output |
| Adapter.AdapterState.SetSubscribed | src/GattProtocol.cpp:821-833 | changes exactly the subscription bit of the owner and kind |
| Adapter.AdapterState.IsSubscribed | src/GattProtocol.cpp:834-840 | true exactly for the current owner and a subscribed kind |
| Adapter.AdapterState.StageOutput | src/GattProtocol.cpp:889-907 | stages only when nothing is staged and the owner is subscribed, under a new output generation |
| Adapter.AdapterState.BeginNextIndication | src/GattProtocol.cpp:908-958 | writes the next fragment, cut to what one indication of the MTU at hand carries, and makes it pending under its token, or writes nothing |
| Adapter.AdapterState.ConfirmIndication | src/GattProtocol.cpp:960-984 | only the token of the pending fragment is honoured: it moves to the next fragment, ends the message, or ends it failed |
| Adapter.AdapterState.AbortOutput | src/GattProtocol.cpp:994-1003 | drops the staged output and nothing else |
| Adapter.AdapterState.ConfirmationTimedOut | src/GattProtocol.cpp:990-992 | true exactly while an indication is pending whose deadline is reached |
| Adapter.TimesOutInTime | src/GattProtocol.cpp:950-992 | an indication times out exactly 1200 ms after it was made |
| Adapter.RunFollows | src/GattProtocol.cpp:889-1003 | over every run the indicated frames are the fragments from 0 on of the staged message, at one capacity, the confirmed ones being a prefix |
| Adapter.IndicatedFit | src/GattProtocol.cpp:908-958 | over every run, with an MTU above 13 every indicated frame has at most MTU - 3 bytes and every one before the last exactly MTU - 3; with a smaller one it carries one payload byte |
| Adapter.Drive | src/GattProtocol.cpp:771-1003 | a new adapter through any calls has indicated and had confirmed, of the message staged last, its first fragments, by their own tokens, each in a frame that fits the MTU it was indicated over |
| Adapter.ConfirmedMeansDelivered | src/GattProtocol.cpp:960-984 | over every run, a report that the message is confirmed means that fragments 0..n-1 were indicated once each, in order, and confirmed by their own tokens |
| Adapter.StaleTokensAreIgnored | src/GattProtocol.cpp:960-984 | a token of another owner, output generation, fragment or kind changes nothing, and an ignored confirmation never changes anything |
| Adapter.ConfirmedFramesReassemble | src/GattProtocol.cpp:889-984 | the frames of a message confirmed over MTUs up to 515, fed in order with immediate repeats, reassemble to the staged payload |
| Adapter.PendingBeforeLast | src/GattProtocol.cpp:1185-1287 | and report nothing before the last of those deliveries |
| AdapterHistory.OwnerIs | src/GattProtocol.cpp:771-800 | over every run the owner is who connected last, while none was connected, and has not disconnected; exactly then is a connection taken |
| AdapterHistory.SubscriptionIs | src/GattProtocol.cpp:802-840 | a client is subscribed to a channel exactly if it said so last since connecting |
| AdapterHistory.StagesExactly | src/GattProtocol.cpp:889-906 | output is staged exactly while there is none, for the connected and subscribed owner, with 1 to 2048 bytes, under the next output generation |
| AdapterHistory.BeginsExactly | src/GattProtocol.cpp:908-945 | the next fragment is indicated exactly while output waits for an indication to a subscribed client over a link that cuts it as before into at most 255 parts, and the part fits the buffer; then it is that fragment, under its token, due in 1200 ms |
| AdapterHistory.ConfirmsExactly | src/GattProtocol.cpp:960-984 | a confirmation counts exactly if it names the indication that waits, by token and kind; it then moves to the next part, or ends the message with the last one, or ends it failed |
| AdapterHistory.EndsExactly | src/GattProtocol.cpp:780-1003 | output ends exactly when it is aborted, its client disconnects, its last part is confirmed or an indication fails |
| EndToEnd.OnlyReassemblyMoves | src/GattProtocol.cpp:1185-1287 | until the last frame nothing of the receiving core changes but its reassembly |
| EndToEnd.DeliveredMessageIsProcessed | src/GattProtocol.cpp:1185-1302 | any sendable message, framed at any capacity and delivered in order with immediate repeats and in time, is reassembled by a listening core to exactly its kind and payload and handed to the message handler with the last frame, not before |
| EndToEnd.DeliveredHelloIsBound | src/GattProtocol.cpp:1366-1439 | a challenge that answers a delivered hello is bound to exactly the payload sent |
| EndToEnd.DeliveredProofIsVerified | src/GattProtocol.cpp:1469-1516 | of a delivered proof the verifier is asked once, for exactly the fields of the payload sent and the challenge issued, if and only if it is timely: of the waiting challenge, before its deadline, for a known action |
| EndToEnd.ConfirmedMessageIsProcessed | src/GattProtocol.cpp:1185-1302 | every message the transport reports confirmed is reassembled by a listening core to exactly the staged kind and payload, and handed to the message handler |
| AccessEvents.AccessEventSequence.Next | include/AccessEventSequence.h:12-15 | hands out the next number, or zero for ever once exhausted |
| AccessEvents.AccessEventSequence.Advance | include/AccessEventSequence.h:16-18 | never goes back |
| AccessEvents.LocalGattLifecycleBridge.Emit | src/GattProtocol.cpp:621-648 | forwards every event, with the verified credential on the verified session, and remembers its last cause |
| AccessEvents.LocalGattLifecycleBridge.EmitLifecycle | src/GattProtocol.cpp:650-668 | numbers a lifecycle event of the verified session after the high water with the last event as cause, and forgets the session on a terminal |
| AccessEvents.LocalGattLifecycleBridge.ClearVerifiedSession | src/GattProtocol.cpp:708-714 | forgets the session but not the high water |
| AccessEvents.VerifiedAccessPhaseTracker.Observe | src/GattProtocol.cpp:716-769 | collects the phases of the verified session and publishes them at its terminal only |
| VerifiedHistory.PublishesExactly | src/GattProtocol.cpp:715-763 | over every sequence of events, a mask is published exactly with the terminal of the session proved last, if it has not ended, and names exactly the phases that events of that session showed since its proof |
| VerifiedHistory.BridgeIs | src/GattProtocol.cpp:621-714 | over every sequence of events the bridge holds session, boot and credential of the proof forwarded last, unless that session has ended, and the highest number seen |
| VerifiedHistory.ForwardsExactly | src/GattProtocol.cpp:621-649 | an event is passed on unchanged but for the credential of the verified session it is of |
| VerifiedHistory.EmitsExactly | src/GattProtocol.cpp:650-706 | a lifecycle event is emitted exactly while there is a verified session and a number left, with its session, boot and credential, under the next number |
| SessionGate.StepStable | src/GattProtocol.cpp:1033-1101 | every operation, from a stable state, ends in a stable one: idle, one unused challenge or completed; authentication open exactly while a challenge waits, never during OTA; the challenge bound to the current session |
| SessionGate.RunStable | src/GattProtocol.cpp:1306-1554 | over every run the trace of gate and verifier calls is a word of (begin (abort, or verify and commit, aborted if it fails))* with acceptance only after success |
| SessionGate.VerifyUsesFreshChallenge | src/GattProtocol.cpp:1469-1516 | every verification is of the challenge issued since the one before |
| SessionGate.ChallengeIsSingleUse | src/GattProtocol.cpp:1469-1475 | between two verifications, or two commits, a new challenge is issued |
| SessionGate.CommitFollowsApproval | src/GattProtocol.cpp:1516-1545 | every commit is of the action whose proof the verifier has just approved |
| SessionGate.AcceptanceFollowsCommit | src/GattProtocol.cpp:1536-1551 | a result of acceptance is queued only right after a successful commit |
| SessionGate.BeginsAreEnded | src/GattProtocol.cpp:1639-1643 | every begin is ended by exactly one abort or successful commit, but for the one still open |
| SessionGate.RandomUniqueNonzero | src/GattProtocol.cpp:1142-1154 | an accepted fill is nonzero, differs from the previous one and is one the source gave |
| SessionBackoff.StepEntry | src/GattProtocol.cpp:1175-1208 | each operation counts at most one failure or one success, and none while the back-off holds a resting session |
| SessionBackoff.AdvanceThrottled | src/GattProtocol.cpp:1611-1637 | each operation keeps failures from the third on apart by 1, 2, 4, then 8 seconds |
| SessionBackoff.WindowIsTenSeconds | src/GattProtocol.cpp:1622-1631 | a failure less than ten seconds into a window is counted in that window |
| SessionBackoff.SpacedGrows | src/GattProtocol.cpp:1629-1636 | the seventh failure comes at least 15 s after the first |
| SessionBackoff.RunThrottled | src/GattProtocol.cpp:1611-1637 | this spacing holds over every run |
| SessionBackoff.AtMostSixFailures | src/GattProtocol.cpp:1611-1637 | over every run with monotone time and working random fills at most six counted failures, with no success between, fall within ten seconds of the window start, whatever the clock has wrapped |
| SessionDeadline.StepLogs | src/GattProtocol.cpp:1033-1554 | a call asks the verifier if and only if it completes a timely proof for a core that listens, then once and for exactly the fields of the payload; it issues a challenge if and only if it opens a session, due five seconds later; and never otherwise |
| SessionDeadline.OffersIs | src/GattProtocol.cpp:1366-1390 | a hello is acceptable exactly if it offers version one, framing one and room for a challenge |
| SessionDeadline.VerifiedInTime | src/GattProtocol.cpp:1469-1516 | over every run every verification comes less than 5000 ms after the issue of its challenge, or more than 2^31 ms later still |
| SessionDeadline.AttendedRunVerifiesInTime | src/GattProtocol.cpp:1175-1183 | if the core is ticked at least once in any 2^31 ms after a deadline, every verification comes less than 5000 ms after the issue of its challenge |
| SessionDeadline.ExpiredExactly | src/GattProtocol.cpp:1480-1483 | a challenge counts as expired exactly if the real time since its deadline, modulo 2^32 ms, is below 2^31 ms |
| SessionDeadline.LateProofIsVerified | src/GattProtocol.cpp:1480-1483 | without such a tick it need not: a run in which a proof 5000 + 2^31 ms old is verified |
| SessionAnswers.StepAnswers | src/GattProtocol.cpp:1033-1682 | every call is answered exactly as written out: what is asked of gate and verifier in which order, which results and messages with which fields and retry times are queued, which events are emitted for which reasons, whether a session is idle, waiting or completed, and what the failure ledger counts and holds back |
| SessionAnswers.RunIsBlank | src/GattProtocol.cpp:1161-1173 | over every run, between sessions nothing of one is left but the values that may not be drawn again |
| SessionAnswers.PopTakesOldest | src/GattProtocol.cpp:1603-1609 | messages are taken out in the order they were queued |
| SessionAnswers.DrawsFirstGood | src/GattProtocol.cpp:1142-1154 | a session draws the first of at most four fills that succeeds, is not zero and differs from the value drawn before, for its identity and its nonce alike |
| SessionAnswers.ConnectTakes | src/GattProtocol.cpp:1061-1073 | a connection is taken exactly by an enabled core without one, under the next generation, which is never zero |
| SessionAnswers.HeldBackExactly | src/GattProtocol.cpp:1629-1636 | in real time, sessions are held back for exactly 1, 2, 4 and 8 seconds after the third, fourth, fifth and any later failure of a window |
| SessionAnswers.StampTellsRealTime | src/GattProtocol.cpp:1660-1672 | the extended event clock tells real time if events are less than 2^32 ms apart |
| SessionAnswers.SendingTellsTime | src/GattProtocol.cpp:1666-1680 | and the event carries that time |
| SessionChain.StepChained | src/GattProtocol.cpp:1655-1682 | every operation keeps the event chains intact unless it opens a session that cannot start one |
| SessionChain.BreaksExactly | src/GattProtocol.cpp:1306-1439 | a chain breaks if and only if a session is opened, fast or by a hello, while events are sent, with an identity that comes without a nonce or that was used before |
| SessionChain.RunChainsExactly | src/GattProtocol.cpp:621-769 | over every run whatever, the downstream events form causation chains if and only if no operation opened such a session, and then bridge and tracker agree on the verified session |
| SessionChain.RunChained | src/GattProtocol.cpp:621-769 | a run without such an opening keeps every chain, ready to be continued |
| SessionChain.FailedNonceRun | src/GattProtocol.cpp:1313-1320 | a run from initialization whose first session draws no nonce breaks its chain |
| SessionChain.ReusedIdentityRun | src/GattProtocol.cpp:1142-1154 | so does a run that draws, with a good nonce, the identity used two sessions before |
| SessionGrowth.StepGrows | src/GattProtocol.cpp:1655-1682 | no operation takes back an event already sent |
| SessionChain.SequencesIncrease | include/AccessEventSequence.h:10-22 | downstream sequences strictly increase, across sessions |
| SessionChain.CauseIsPrevious | src/GattProtocol.cpp:1655-1682 | the cause of an event is the event of its own session just before; only the opening connection has none |
| SessionChain.TerminalIsLast | src/GattProtocol.cpp:650-706 | nothing of a session follows its terminal |
| SessionChain.AdvanceChained | include/AccessEventSequence.h:16-18 | advancing the shared allocator keeps the chains |
| ProtocolCore.ProtocolCore.ReceiveFrame | src/GattProtocol.cpp:1185-1287 | refuses another owner, a disabled or busy core and a held back-off; otherwise reassembles and hands over whole messages |
| ProtocolCore.ProtocolCore.HandleFrame | src/GattProtocol.cpp:1205-1287 | drops malformed, out-of-order, inconsistent and late frames with a counted rejection |
| ProtocolCore.ProtocolCore.TakeFrame | src/GattProtocol.cpp:1236-1287 | the buffer then holds exactly the accepted parts |
| ProtocolCore.ProtocolCore.ProcessMessage | src/GattProtocol.cpp:1289-1304 | hellos and proofs go to their handlers, anything else is rejected |
| ProtocolCore.ProtocolCore.BeginFastSession | src/GattProtocol.cpp:1306-1364 | opens a session with fresh identity and issues one challenge, or ends it busy, limited or failed closed |
| ProtocolCore.ProtocolCore.ProcessHello | src/GattProtocol.cpp:1366-1439 | negotiates only the supported versions, then as above with the hello transcript bound in |
| ProtocolCore.ProtocolCore.BuildChallenge | src/GattProtocol.cpp:1441-1467 | issues the challenge of the current identity with a five-second deadline |
| ProtocolCore.ProtocolCore.ProcessProof | src/GattProtocol.cpp:1469-1516 | consumes the challenge before any check; only a timely proof of this session for a known action is verified |
| ProtocolCore.ProtocolCore.Judge | src/GattProtocol.cpp:1515-1535 | maps the verdict of the verifier to the public reason |
| ProtocolCore.ProtocolCore.Decide | src/GattProtocol.cpp:1536-1554 | commits the approved action, and reports acceptance only if that succeeds |
| ProtocolCore.ProtocolCore.Reject | src/GattProtocol.cpp:1611-1637 | queues the result, ends the session with its terminal, closes the gate and counts the failure |
| ProtocolCore.ProtocolCore.Tick | src/GattProtocol.cpp:1175-1183 | drops an expired assembly and rejects an expired challenge |
| ProtocolCore.ProtocolCore.SetEnabled | src/GattProtocol.cpp:1033-1040 | disabling closes the gate and forgets connection and session |
| ProtocolCore.ProtocolCore.SetOtaBusy | src/GattProtocol.cpp:1042-1059 | ends a live session as busy, its result replacing whatever was queued |
| ProtocolCore.ProtocolCore.Connect | src/GattProtocol.cpp:1061-1073 | takes one connection under a new nonzero generation |
| ProtocolCore.ProtocolCore.Disconnect | src/GattProtocol.cpp:1075-1086 | only the owner ends the connection; a live session gets its terminal |
| ProtocolCore.ProtocolCore.AbortTransport | src/GattProtocol.cpp:1088-1101 | ends an uncompleted session and never a completed one |
| ProtocolCore.ProtocolCore.Queue | src/GattProtocol.cpp:1584-1601 | appends to the ring unless it is full, under message ids that are never zero |
| ProtocolCore.ProtocolCore.PopOutput | src/GattProtocol.cpp:1603-1609 | takes the oldest message |
| ProtocolCore.ProtocolCore.Emit | src/GattProtocol.cpp:1655-1682 | numbers, times and links the event, and passes it through bridge and tracker |
| ProtocolCore.ProtocolCore.EmitLifecycle | src/GattProtocol.cpp:650-668 | the shared allocator follows the bridge |
| ProtocolCore.Perform | src/GattProtocol.cpp:1033-1554 | any operation takes the object where the session specification says, keeps its invariant and is answered as written out in SessionAnswers |
| ProtocolRuns.CoreGuarantees | src/GattProtocol.cpp:1005-1682 | whatever operations an object has served: its gate word is well formed and balanced, authentication is open exactly while a challenge waits, and its events are chained if and only if no opening broke them |
| ProtocolRuns.Drive | src/GattProtocol.cpp:1005-1682 | an object driven by any sequence of operations keeps all of that; with monotone time and working fills at most six failures in ten seconds; if ticked in time, every verification less than five seconds after its issue |
| ProtocolCore.RingPush | src/GattProtocol.cpp:1584-1601 | writing the slot after the last appends to the queue the ring stands for |
| ProtocolCore.RingPop | src/GattProtocol.cpp:1603-1609 | moving the head drops its first |
| ProtocolCore.HeaderUsable | src/GattProtocol.cpp:1209-1223 | accepts exactly the well-formed frames of the expected kind |
| ProtocolCore.DrawUnique | src/GattProtocol.cpp:1142-1154 | keeps the first of at most four fills that is nonzero and new |
| Immutable.PlaceImmutable | scripts/ota_contract_gate.py:3973-3988 | on return the bytes are in place and the staged copy is gone; a file already there is never altered; without faults it succeeds exactly if the place is free or holds the same bytes |
| Immutable.PreserveImmutable | scripts/ota_contract_gate.py:3991-4005 | the same for bytes not yet staged |
| TargetVersion.AutoHasCore | scripts/ota_contract_gate.py:3946-3960 | an automatic main version has the core (2, 1, its build number) |
| TargetVersion.CoreIs | scripts/ota_contract_gate.py:3956-3959 | a version has the core (a, b, c) exactly if it is three decimal numbers of these values with dots between, then nothing, a final newline, or a minus or plus and anything |
| TargetVersion.AutomaticIs | scripts/ota_contract_gate.py:3856-3858 | an automatic main version of sequence n is 2.1. and n without leading zeros, then +main.g and seven to forty hexadecimal digits |
| TargetPublish.UpgradeMeansRaise | scripts/ota_contract_gate.py:3926-3970 | replacement is decided exactly for a verified pointer of another identity with a strictly lower core; equal cores are always refused |
| TargetPublish.DecisionByNumbers | scripts/ota_contract_gate.py:3926-3970 | in numbers: an automatic candidate of sequence n replaces a verified pointer of another identity exactly if its version a.b.c has a < 2, or a = 2 and b < 1, or a = 2, b = 1 and c < n, and is refused otherwise |
| TargetPublish.IdentityByText | scripts/ota_contract_gate.py:4017-4033 | which candidates are identified, spelled out in commit, version, build and file name |
| TargetPublish.PublishTarget | scripts/ota_contract_gate.py:4008-4155 | whatever fails and whatever rivals do, the pointer is old, new or what a rival left, all changes form a Target history, and a return means artifact, history and previous history in place, an empty stage, and the new pointer but for later rivals; without rivals it also means a truthful report, and a verified pointer of another identity and a version not below 2.1.n is never replaced by a candidate of sequence n; without faults and rivals it returns exactly for a publishable candidate |
| TargetPublish.Inspect | scripts/ota_contract_gate.py:4021-4066 | without faults it ends well exactly when the candidate is identified and the decision on the pointer first read lets it go on; the report on the previous artifact is true |
| TargetPublish.PlaceArtifact | scripts/ota_contract_gate.py:4067-4089 | without faults it ends well exactly when the stage is new and the place of the artifact is free or holds it; nothing else published changes |
| TargetPublish.PublishDecided | scripts/ota_contract_gate.py:4067-4155 | the same from the first decision on; an idempotent run replaces nothing |
| TargetPublish.PublishStaged | scripts/ota_contract_gate.py:4101-4155 | the same from the placed artifact on |
| TargetPublish.SwapUnlessChanged | scripts/ota_contract_gate.py:4119-4148 | with any rivals: a pointer seen to have changed is not replaced, and a replacement meets another pointer than the one first read exactly when a rival writes it at the request of that replacement |
| TargetPublish.RivalOverwritten | scripts/ota_contract_gate.py:4008-4155 | such a run: the publication of any accepted candidate on an empty server overwrites the pointer that a rival writes at its 16th request |
| TargetPublish.ExampleCandidate | scripts/ota_contract_gate.py:4017-4033 | there is an accepted candidate |
| TargetPublish.PublishSeries | scripts/ota_contract_gate.py:4008-4155 | publications one after the other, whatever each returned: every manifest ever installed stays whole, and without rivals the core of the pointer never falls |
| TargetPublish.Commit | scripts/ota_contract_gate.py:4142-4148 | one atomic replacement with everything it names already in place, then the readback |
| TargetPublish.StagePair | scripts/ota_contract_gate.py:4068-4086 | three staged copies read back, in a directory that did not exist |
| TargetPublish.PreservePrevious | scripts/ota_contract_gate.py:4106-4118 | the replaced manifest is kept under its own commit, unaltered if already there |
| TargetPublish.InstalledStaysWhole | scripts/ota_contract_gate.py:4008-4155 | over every history of publications, crashes and rivals an installed manifest keeps its history copy and artifact for ever |
| TargetPublish.VersionNeverFalls | scripts/ota_contract_gate.py:3946-3970 | over every history without rivals each replaced pointer gives way to one with strictly higher version numbers |
| MobilePublish.MixedPairsAreRejected | scripts/ota_contract_gate.py:4379-4413 | from a valid pair, any mixture of halves is the old pair, the new one, or rejected by the hash check |
| MobilePublish.ReplacingRaisesBuild | scripts/ota_contract_gate.py:4432-4455 | replacement needs a strictly higher build number; equal ones are accepted only for the same valid pair; refusal means a build number at least as high |
| MobilePublish.BuildNeverBelow | scripts/ota_contract_gate.py:4432-4455 | no mixture carries a lower signed build number than the start |
| MobilePublish.ReadRoot | scripts/ota_contract_gate.py:4458-4485 | without faults fails exactly for an unsigned APK or an unverifiable manifest |
| MobilePublish.Decided | scripts/ota_contract_gate.py:4516-4568 | the decision accepts only an identified candidate, replaces only where the candidate may, and is idempotent only on the very bytes of a genuine pair |
| MobilePublish.AcceptableIs | scripts/ota_contract_gate.py:4439-4568 | it accepts exactly: no APK without a manifest, a manifest that verifies, of a lower build unless the pair is genuine and the very one to publish, and a candidate with a full commit and a build from one up |
| MobilePublish.AdmittedIs | scripts/ota_contract_gate.py:4439-4560 | the preflight of both roots likewise, without a look at bytes or candidate identity |
| MobilePublish.ValidPair | scripts/ota_contract_gate.py:4379-4411 | a pair is valid exactly if both halves are there, the manifest verifies, and the APK has its size, its digest and its identity |
| MobilePublish.DecidedTold | scripts/ota_contract_gate.py:4516-4568 | a report of a valid previous pair, of an upgrade and of the replacement of an invalid pair is true of the pair read |
| MobilePublish.PublishRoot | scripts/ota_contract_gate.py:4516-4730 | whatever fails and whatever rivals do: the new manifest is put in place only two requests after the second look, over what rivals left of the manifest first read; a return means the new pair but for later rivals, full history and an empty stage; the restored error means the genuine previous pair but for later rivals; a report of a valid previous pair, an upgrade or the replacement of an invalid pair means just that, in signature, size, digest and identity, and only the history of candidate and genuine previous pair is written; without rivals each half is one served or the new one, one failing request at most leaves a whole pair, and without faults it returns exactly for a publishable candidate |
| MobilePublish.Finish | scripts/ota_contract_gate.py:4634-4724 | the same from the complete history on; an idempotent run replaces nothing |
| MobilePublish.AcceptWinner | scripts/ota_contract_gate.py:4645-4676 | a pair changed meanwhile is accepted only if it is this very pair, and is never touched, whatever rivals do |
| MobilePublish.Prepare | scripts/ota_contract_gate.py:4569-4632 | staged copies and the history of the new and previous pair, with nothing served touched |
| MobilePublish.PromoteManifest | scripts/ota_contract_gate.py:4685-4687 | with the new APK in place, the manifest is replaced in one step at the first request, over what rivals leave there by then, and read back |
| MobilePublish.PromotePair | scripts/ota_contract_gate.py:4680-4689 | APK, then manifest, each replaced in one step over what rivals left; a failure comes from a failing request, and a failing last readback leaves the new pair |
| MobilePublish.Rollback | scripts/ota_contract_gate.py:4690-4717 | on return the previous pair is back but for later rivals, and without rivals it returns whenever none of its eight requests fails; the new manifest is not put in place |
| MobilePublish.PromoteOrRestore | scripts/ota_contract_gate.py:4680-4724 | restored is reported only when the previous valid pair is served again; without rivals one failing request at most leaves a whole pair; when only the last readback fails, the previous pair is restored and the served build number has fallen |
| MobilePublish.PromoteUnlessChanged | scripts/ota_contract_gate.py:4645-4724 | with any rivals: a manifest seen to have changed since preflight is not overwritten, and the new one is put only over what rivals left of it in the three requests after that look; an APK that alone has changed is overwritten |
| MobilePublish.PublishMobile | scripts/ota_contract_gate.py:4800-4840 | the primary changes only while the fallback serves the whole new pair; a root that is not admitted leaves both as they were; one failing request at most leaves each valid root a whole pair; without faults it returns exactly when both roots are publishable; all it did is recorded |
| MobilePublish.EveryMomentIsServable | scripts/ota_contract_gate.py:4800-4840 | after every change of a recorded publication each root serves its start or a mixture of it with a candidate of higher build, and a changed primary means a complete fallback |
| MobilePublish.EveryMomentIsWholeOrRejected | scripts/ota_contract_gate.py:4379-4455 | over any sequence of recorded publications, complete, failed or cut short, a root that began with a valid pair or no manifest serves at every moment that pair, the whole pair of a candidate so far, or one that the hash check rejects, unless two artifacts collide |
| MobilePublish.CutIsRecorded | scripts/ota_contract_gate.py:4516-4730 | a publication cut short after any change is a recorded publication |
| MobilePublish.FallsOnRollback | scripts/ota_contract_gate.py:4680-4717 | a replacement lowers the served build number if and only if it puts the old manifest back after the new one |
| MobilePublish.RollbackLowersBuild | scripts/ota_contract_gate.py:4680-4717 | a run that does so: the last readback fails, the rollback restores the valid pair of the fallback, and the record of the run shows the fall |
| MobilePublish.SecondReplacesFirst | scripts/ota_contract_gate.py:4432-4455 | there are a valid pair and a candidate that may replace it |
| MobilePublish.PublishSeries | scripts/ota_contract_gate.py:4800-4840 | publications one after the other on a server: their records follow each other and no root ends below the build it started with |
| MobilePublish.BuildFloorHolds | scripts/ota_contract_gate.py:4432-4455 | over any sequence of recorded publications, complete, failed or cut short, a root never ends with a lower signed build number than at the start of any of them |
| MobilePublish.FloorHoldsAtEveryMoment | scripts/ota_contract_gate.py:4432-4455 | nor does it serve one at any moment in between |
| RestartJournal.Checksum | include/RestartEvidenceRetention.h:49-71 | FNV-1a over the image with the magic as written and the checksum field as zero |
| RestartJournal.RawBytes | include/RestartEvidenceRetention.h:55-69 | those are the bytes of the image but for the two fields |
| RestartJournal.Image.Clear | include/RestartEvidenceRetention.h:45-47 | zeroes every field, the magic first |
| RestartJournal.Image.Usable | include/RestartEvidenceRetention.h:73-87 | true exactly for an image with magic, version, bounded nonzero count, checksum and valid records |
| RestartJournal.Image.CopyRecords | include/RestartEvidenceRetention.h:96-112 | copies the ring in order into a cleared image, or clears it again at an invalid record |
| RestartJournal.Image.Save | include/RestartEvidenceRetention.h:89-120 | commits exactly the savable rings; every intermediate write leaves the image without magic |
| RestartJournal.Journal.NewestIndex | include/RestartEvidenceRetention.h:138-155 | the valid slot of the newer generation |
| RestartJournal.Journal.SaveJournal | include/RestartEvidenceRetention.h:159-177 | writes only the slot that restores nothing, and reaches only states a cut save reaches |
| RestartJournal.RestoreNewest | include/RestartEvidenceRetention.h:179-209 | copies the newest valid FIFO to the front of the ring, and leaves the ring alone when there is none |
| RestartJournal.NeighbourIsNewer | include/RestartEvidenceRetention.h:133-136 | a generation is older than its successor, also across the wrap |
| RestartJournal.CutRestoresOldOrNew | include/RestartEvidenceRetention.h:159-177 | cut after any write, a restart restores the previous FIFO until the magic is written and the new one from then on; valid slots stay adjacent in generation |
| RestartJournal.CommittedSaves | include/RestartEvidenceRetention.h:159-177 | the slot just committed is the newest, next to its neighbour |
| RestartJournal.RunRestoresLastCommitted | include/RestartEvidenceRetention.h:133-209 | over any saves, rejected saves and cuts a restart restores the last committed FIFO, across every wrap |
| RestartJournal.FromCleared | include/RestartEvidenceRetention.h:122-124 | starting from a cleared journal |
| JournalDamage.DamageIsDetected | include/RestartEvidenceRetention.h:49-87 | whichever single byte of a valid image changes, magic, checksum or anything they cover, it is valid no more |
| JournalDamage.DamagedRunRestoresCommitted | include/RestartEvidenceRetention.h:133-209 | after any saves, rejected saves and cuts and then one damaged byte in a valid image, a restart restores a FIFO that was committed or nothing, and the last one if the other image held it |
| JournalDamage.DamagedImageIsSkipped | include/RestartEvidenceRetention.h:138-155 | a restart falls back from a damaged image to the other one |
| JournalDamage.OneByteChangesTheSum | include/RestartEvidenceRetention.h:57-70 | two texts of one length that differ in one byte have different checksums |
| JournalDamage.KnownChecksums | include/RestartEvidenceRetention.h:57-70 | the published values of 32-bit FNV-1a for nothing, a and foobar |
| JournalDamage.RawLayout | include/RestartEvidenceRetention.h:23-32 | the sixteen bytes before the records, each number from its low byte on |
| JournalDamage.ClearedIsZero | include/RestartEvidenceRetention.h:45-47 | a cleared image is zero throughout |
| JournalDamage.ValidMeans | include/RestartEvidenceRetention.h:73-87 | what a valid image is, in its bytes |
| JournalDamage.SavableMeans | include/RestartEvidenceRetention.h:89-112 | a ring is savable exactly if it holds one to all records from its head on, each accepted |
| JournalDamage.NewerIsAhead | include/RestartEvidenceRetention.h:133-136 | newer means ahead by less than 2^31, counted around the wrap |
| JournalDamage.FirstSave | include/RestartEvidenceRetention.h:159-177 | the first save goes to the first image, as generation one |
| JournalDamage.ImagesHoldCommitted | include/RestartEvidenceRetention.h:159-177 | after any run a valid image holds what it held at the start or a FIFO that the run committed |
| RestartJournal.Retention.Retain | include/RestartEvidenceRetention.h:211-213 | a count beyond the capacity retains nothing |
| RestartJournal.Retention.FrontRemoved | include/RestartEvidenceRetention.h:220-224 | counts down once per removal |
| RestartJournal.AcknowledgedOnce | include/RestartEvidenceRetention.h:211-224 | of all removals after retaining n records exactly the n-th acknowledges |
| OtaDownload.ContentRangeMatches | include/OtaDownload.h:15-34 | true exactly for a text that describes the bytes from the offset to the end of the total, as spelled in section 14.4 of RFC 9110 with any leading zeros |
| OtaDownload.AcceptedIsRest | include/OtaDownload.h:15-34 | the cursor scan accepts exactly those texts |
| OtaDownload.ReadNumber | include/OtaDownload.h:18-29 | reads the longest run of digits whose value fits 32 bits |
| OtaDownload.ResponseMatches | include/OtaDownload.h:36-44 | true exactly for an unencoded 200 from zero without a range, or a 206 of exactly the rest |
| OtaDownload.DownloadOta | include/OtaDownload.h:51-111 | whatever the connection answers and however late: complete means the writes concatenate to the ciphertext in chunks of 4096 bytes plus a last; complete and rejected come before the time limit, a timeout not before it, and with limit plus five slowest calls below 2^32 ms nothing goes on for more than five calls after it; it gives up only after one more failures than retries, each a fault the connection showed or an idle time that passed; rejected and failed writes come from the connection only; with idle limit plus ten slowest calls below 2^32 ms it ends within bytes plus twice the retries plus one idle times |
| OtaDownload.EnsureOpen | include/OtaDownload.h:64-79 | one open at the received offset, only when closed and rested |
| OtaDownload.Poll | include/OtaDownload.h:80-90 | waits only before the idle limit, and fails only on a lost connection or once the limit has passed in real time |
| OtaDownload.Round | include/OtaDownload.h:62-108 | one iteration keeps received bytes, written chunks and progress together, and fails or stops only for cause |
| OtaDownload.Fetch | include/OtaDownload.h:80-101 | a read continues the buffered bytes exactly where they end |
| OtaDownload.Exchange | include/OtaDownload.h:77-107 | waits, or takes the next bytes and stores full chunks |
| OtaDownload.Store | include/OtaDownload.h:103-107 | writes only full chunks, or the last |
| NetworkRecovery.NetworkRecoveryPolicy.ObserveLinkGeneration | include/NetworkRecoveryPolicy.h:33-39 | a new link drops all evidence of the old |
| NetworkRecovery.NetworkRecoveryPolicy.NoteFailure | include/NetworkRecoveryPolicy.h:44-65 | counts repairable failures of the current link, saturating; an authorization or local resource failure clears the evidence |
| NetworkRecovery.NetworkRecoveryPolicy.NoteAdopted | include/NetworkRecoveryPolicy.h:69-75 | an adopted session drops the selection and starts the stable timer, unless suspended |
| NetworkRecovery.NetworkRecoveryPolicy.NoteConnected | include/NetworkRecoveryPolicy.h:77-90 | a session that stays connected for the stable time clears the evidence and resets the stage, once, and never the budget |
| NetworkRecovery.NetworkRecoveryPolicy.SelectNext | include/NetworkRecoveryPolicy.h:95-99 | selects the candidate, or nothing while unsafe |
| NetworkRecovery.NetworkRecoveryPolicy.CommitAction | include/NetworkRecoveryPolicy.h:104-118 | spends the budget exactly when the selected action is still the candidate |
| NetworkRecovery.NetworkRecoveryPolicy.RejectAction | include/NetworkRecoveryPolicy.h:121-126 | drops the selection and starts the retry delay |
| NetworkRecovery.NetworkRecoveryPolicy.NoteSuspend | include/NetworkRecoveryPolicy.h:130-137 | a suspension starts once, drops the selection and breaks stability, but keeps stage and budget |
| NetworkRecovery.NetworkRecoveryPolicy.NoteResume | include/NetworkRecoveryPolicy.h:139-151 | shifts the evidence by the suspended time |
| NetworkRecovery.NetworkRecoveryPolicy.PruneActions | include/NetworkRecoveryPolicy.h:171-178 | keeps, in order and in place, exactly the actions of the rolling window |
| NetworkRecovery.NetworkRecoveryPolicy.CandidateAt | include/NetworkRecoveryPolicy.h:180-192 | the action the evidence and the budget allow |
| NetworkRecoveryRuns.RepairBudget | include/NetworkRecoveryPolicy.h:104-192 | over every run, across every wrap: accepted actions are 120 s apart, any three span 15 minutes, and at most the first between stable sessions is a reassociation |
| NetworkRecoveryRuns.Drive | include/NetworkRecoveryPolicy.h:33-192 | a new policy through any calls at any times: the commits it accepts are 120 s apart and any three span 15 minutes |
| NetworkRecoveryRuns.SelectedIsQualified | include/NetworkRecoveryPolicy.h:44-65 | an action is selected only on failures of one link generation that span the threshold in unsuspended real time |
| NetworkRecoveryRuns.AcceptedIsQualified | include/NetworkRecoveryPolicy.h:104-118 | over every run an action is accepted only on such failures |
| NetworkRecoveryRuns.SelectsWhatIsDue | include/NetworkRecoveryPolicy.h:95-192 | before the clock wraps, after any run: a safe request selects an action if and only if no session is held, nothing is suspended, 30 s have passed since a rejection, three failed look-ups of the current link span 60 s or six failures 180 s of unsuspended time, the last action is 120 s and the one before 900 s old, namely a restart of the interface if one was accepted since the last stable session and a reassociation otherwise; and a commit is accepted if and only if that is the action selected |
| NetworkRecoveryRuns.StableIsLong | include/NetworkRecoveryPolicy.h:77-91 | a session counts as stable exactly from the first observation 60 s after its adoption on, unless 2^32 ms have gone by |
| NetworkRecoveryRuns.AdvanceKept | include/NetworkRecoveryPolicy.h:33-151 | every call keeps budget and evidence true to real time |
| RecoveryController.Controller.Service | include/NetworkRecoveryController.h:26-28 | ends with every reservation released; what was counted and whether it is still active follow from the answers of the driver |
| RecoveryController.Controller.ServiceIdle | include/NetworkRecoveryController.h:59-106 | starts a repair only when admitted, reserved, admitted again, selected twice and disconnected, and then has spent the budget of the policy on it |
| RecoveryController.Controller.ServiceWaiting | include/NetworkRecoveryController.h:119-139 | keeps waiting while the link is unchanged and the time not over |
| RecoveryController.Controller.Conclude | include/NetworkRecoveryController.h:140-174 | completed, timed out, failed or cancelled, each only after its own answers |
| RecoveryController.OutcomeIsDecided | include/NetworkRecoveryController.h:59-173 | the last answers of the driver determine the outcome |
| RecoveryController.ReservationsAreReleased | include/NetworkRecoveryController.h:34-46 | every granted reservation is released exactly once |
| RecoveryController.DisruptionIsReserved | include/NetworkRecoveryController.h:86-104 | every disruptive request is made while reserved |
| RecoveryController.CommitAfterSelection | include/NetworkRecoveryController.h:95-103 | right after a selection the commit succeeds if and only if neither the last action nor the last rejection looks recent again |
| RecoveryController.CommitInRealTime | include/NetworkRecoveryController.h:95-103 | which cannot be otherwise while those are less than 2^32 ms old |
| RecoveryController.WrappedCommitFails | include/NetworkRecoveryController.h:95-103 | and does fail: a run from the initial state leads to a link observed and an action selected whose commit, exactly 2^32 ms after the last action, is refused |
| RecoveryController.Serve | include/NetworkRecoveryController.h:23-173 | over any services and notes at any times: every reservation is released, the repairs started are exactly the commits the policy accepted and keep its budget, the counters are how often each outcome occurred, and until the clock reaches 2^32 ms no commit fails |
| RadioSharing.RecoveryRadioPolicy.UpdateAt | include/RecoveryRadioPolicy.h:179-255 | one update: action, phase, timers and holds |
| RadioSharing.RecoveryRadioPolicy.QuietUpdate | include/RecoveryRadioPolicy.h:212-254 | the quiet phase: an attempt, a client release or nothing |
| RadioSharing.RecoveryRadioPolicy.NoteAuthenticatedActivity | include/RecoveryRadioPolicy.h:157-165 | renews the authenticated hold and a running client hold |
| RadioSharing.RecoveryRadioPolicy.RestartQuiet | include/RecoveryRadioPolicy.h:167-177 | local work and a failed attempt start the quiet phase again |
| RadioSharing.StartIsUndisturbed | include/RecoveryRadioPolicy.h:212-254 | an attempt starts without local work or an authenticated hold, a whole quiet phase after the last change, in real time |
| RadioSharing.AttemptStopsExactly | include/RecoveryRadioPolicy.h:202-211 | in real time, a running attempt stops exactly on local work, an authenticated hold, a client it was not forced against, or the end of its time, and then a quiet phase begins |
| RadioSharing.QuietActsExactly | include/RecoveryRadioPolicy.h:213-254 | in real time, what a quiet phase does at every moment: nothing while disturbed, a release of clients after their hold and then once per interval, a forced attempt after a whole quiet phase since the first release, an attempt after a whole quiet phase without clients |
| RadioSharing.ReleasesAreSpaced | include/RecoveryRadioPolicy.h:225-243 | across every wrap, clients are released only undisturbed, after a whole hold and then an interval apart |
| RadioSharing.StartsAreSeparated | include/RecoveryRadioPolicy.h:179-255 | over every run any two attempt starts are at least the quiet time apart |
| RadioSharing.Drive | include/RecoveryRadioPolicy.h:179-255 | a new policy through any calls at any times: the attempts it starts are at least the quiet time apart |
| RadioSharing.QuietStep | include/RecoveryRadioPolicy.h:212-254 | an undisturbed update starts an attempt or brings it no later |
| RadioSharing.AttemptComes | include/RecoveryRadioPolicy.h:212-254 | a run of undisturbed updates past the deadline has started an attempt by the deadline, whatever idle clients do |
| RadioSharing.AttemptStartsInTime | include/RecoveryRadioPolicy.h:212-254 | in every run, from the beginning of a quiet phase with undisturbed updates at most d apart, an attempt starts within twice the quiet time, one client hold and 3d, for intervals below 2^32 ms |
| FlatJson.HasExactUniqueFlatJsonFields | include/FlatJsonObjectPolicy.h:72-130 | true exactly for one to 31 names and a flat object in which each of them occurs once, in any order |
| FlatJson.AcceptsIffFlatObject | include/FlatJsonObjectPolicy.h:72-130 | the recogniser and the written-down grammar agree on every text |
| FlatJson.Alphabet | include/FlatJsonObjectPolicy.h:24-117 | the classes of characters of the grammar, in characters |
| FlatJson.MemberWritten | include/FlatJsonObjectPolicy.h:84-117 | a member is white space, a quoted name of at most 31 printable characters, a colon and a value |
| FlatJson.UnitsWritten | include/FlatJsonObjectPolicy.h:24-57 | a string is characters from space on, escapes, and four-digit code points |
| FlatJson.ObjectWritten | include/FlatJsonObjectPolicy.h:72-130 | an object is its members between braces, with commas between any two |
| FlatJson.MemberTakes | include/FlatJsonObjectPolicy.h:84-117 | every printed member, whatever follows its separator, is recognised with its name |
| FlatJson.MemberIsMember | include/FlatJsonObjectPolicy.h:84-117 | whatever is taken as a member is the print of one |
| FlatJson.FitsIsExact | include/FlatJsonObjectPolicy.h:91-94 | marking each name once until all are marked means distinct members that cover all names |
| FlatJson.ExactFits | include/FlatJsonObjectPolicy.h:91-94 | and conversely |
| FlatJson.JsonObjectsAccepted | include/FlatJsonObjectPolicy.h:72-130 | every flat object of JSON strings and of JSON numbers as in section 6 of RFC 8259, each field once, with any white space, is accepted |
| FlatJson.NotOnlyNumbersAccepted | include/FlatJsonObjectPolicy.h:106-117 | but a value need not be a number: an object whose value is the literal true is accepted |
| FlatJson.NumbersAreValues | include/FlatJsonObjectPolicy.h:106-117 | every nonempty run of number characters is a value |
| FlatJson.ConsumeKey | include/FlatJsonObjectPolicy.h:24-57 | takes exactly the printable unescaped names that fit the key buffer |
| FlatJson.ConsumeText | include/FlatJsonObjectPolicy.h:24-57 | takes exactly the strings of the grammar |
| FlatJson.ConsumeMember | include/FlatJsonObjectPolicy.h:84-117 | takes exactly one member |
| FlatJson.ScanMembers | include/FlatJsonObjectPolicy.h:84-129 | takes exactly the member lists that cover the names |
| CanonicalBytes.FieldIsPrefixFree | src/GattProtocol.cpp:136-193 | whatever follows, a field of known shape reads back exactly |
| CanonicalBytes.EncodingIsUnambiguous | src/GattProtocol.cpp:121-203 | fields of the same shapes with equal bytes are equal |
| CanonicalBytes.AddingAllFits | src/GattProtocol.cpp:126-134 | a builder is valid exactly when every field is writable and all fit the capacity |
| CanonicalBytes.CanonicalBinaryBuilder.Append | src/GattProtocol.cpp:126-134 | appends, or invalidates the builder for good |
| CanonicalBytes.CanonicalBinaryBuilder.AppendLpAscii | src/GattProtocol.cpp:161-179 | two length bytes and ASCII text |
| CanonicalBytes.CanonicalBinaryBuilder.AppendOptional | src/GattProtocol.cpp:181-193 | a presence byte, then the value if any |
| AccessEvidence.EventBytesAreUnambiguous | src/GattProtocol.cpp:286-334 | equal bytes of two encoded access events mean equal authenticated fields |
| AccessEvidence.StatusBytesAreUnambiguous | src/GattProtocol.cpp:336-388 | the same for access statuses |
| AccessEvidence.BuildAccessEventMacInput | src/GattProtocol.cpp:286-334 | succeeds exactly for a well-formed event that fits |
| AccessEvidence.BuildAccessStatusMacInput | src/GattProtocol.cpp:336-388 | succeeds exactly for a well-formed status that fits |
| Receipts.ParseIdIsCanonical | src/AccessEventReceipt.cpp:46-64 | an identity text is parsed if and only if it is the canonical text of an acceptable identity |
| Receipts.ReadId | src/AccessEventReceipt.cpp:46-64 | the octet loop computes that parse |
| Receipts.ReceiptBytesAreUnambiguous | src/AccessEventReceipt.cpp:67-118 | equal bytes mean the same kind of receipt and the same receipt, texts included |
| Receipts.CanonicalAccessEventReceipt | src/AccessEventReceipt.cpp:67-118 | succeeds exactly for a well-formed receipt that fits |
| Receipts.CanonicalSensorSessionReceipt | src/AccessEventReceipt.cpp:158-164 | the same bytes under the sensor domain |
| SensorSession.SensorSessionTracker.Begin | include/SensorSessionDiagnostics.h:45-51 | opens an empty window with the threshold |
| SensorSession.SensorSessionTracker.Observe | include/SensorSessionDiagnostics.h:52-69 | counts one reading |
| SensorSession.SensorSessionTracker.Finish | include/SensorSessionDiagnostics.h:70-82 | closes the window and appends it, or counts it dropped when four are pending |
| SensorSession.SensorSessionTracker.Take | include/SensorSessionDiagnostics.h:83-95 | removes the first window that ended at that time and keeps the order of the rest |
| SensorSession.SensorSessionTracker.ExpireOrphans | include/SensorSessionDiagnostics.h:98-110 | removes exactly the windows older than the retention, in place, and counts them |
| SensorSession.SurvivingIsFilter | include/SensorSessionDiagnostics.h:98-110 | expiry keeps exactly the recent windows |
| SensorSession.WindowCounts | include/SensorSessionDiagnostics.h:52-69 | below 2^32 readings each counter is the number of readings of its kind |
| SensorSession.WindowExtremes | include/SensorSessionDiagnostics.h:52-69 | the extremes bound and are attained by the valid readings; the last values are those of the last reading |
| SensorSession.ObservedSignable | include/SensorSessionDiagnostics.h:52-69 | a reading in range keeps a window signable |
| SensorSession.FinishedWindowsAreSignable | src/GattProtocol.cpp:459-473 | every finished window of fewer than 2^32 in-range readings passes the counter and range checks of the signer |
| SensorSession.Drive | include/SensorSessionDiagnostics.h:33-110 | a new tracker through fewer than 2^32 events in range: every window it holds or has handed out passes the counter and range checks of the signer |
| SensorEvidence.DecimalReads | src/GattProtocol.cpp:474-493 | decimal text reads back as its number |
| SensorEvidence.LinesSame | src/GattProtocol.cpp:474-493 | equal newline-separated texts of one-line fields have equal fields |
| SensorEvidence.SummaryTextIsUnambiguous | src/GattProtocol.cpp:424-493 | equal summary texts mean the same target and record |
| SensorEvidence.BuildSensorSummaryMacInput | src/GattProtocol.cpp:424-493 | succeeds exactly for an acceptable record with room for the text and its terminator |
| SensorEvidence.EvidenceIsUnambiguous | src/GattProtocol.cpp:286-493 | whatever their kinds (event, status, receipt of either kind, sensor summary), equal bytes mean the same evidence |
| EvidenceLayout.EventLayout | src/GattProtocol.cpp:286-334 | the bytes of an access event, value after value |
| EvidenceLayout.StatusLayout | src/GattProtocol.cpp:336-388 | the bytes of an access status, value after value |
| EvidenceLayout.ReceiptLayout | src/AccessEventReceipt.cpp:67-118 | the bytes of a receipt of either kind, value after value |
| EvidenceLayout.SummaryLayout | src/GattProtocol.cpp:424-493 | the text of a sensor summary, line after line |
| EvidenceLayout.EventAccepted | src/GattProtocol.cpp:286-312 | which access events are accepted, in numbers and characters |
| EvidenceLayout.StatusAccepted | src/GattProtocol.cpp:336-365 | which access statuses are accepted |
| EvidenceLayout.SummaryAccepted | src/GattProtocol.cpp:424-473 | which sensor summaries are accepted |
| EvidenceLayout.ReceiptAccepted | src/AccessEventReceipt.cpp:67-95 | which receipts are accepted |
| EvidenceLayout.IdAccepted | src/AccessEventReceipt.cpp:46-64 | an identity is 32 lower-case hexadecimal digits of a value that is not zero; a UUID is a random one with dashes after 8, 12, 16 and 20 digits |

## Left out

- Cryptography: SHA-256, HMAC, Ed25519 and AES-GCM themselves, tag derivation and APK signature tools.
- The radio, Wi-Fi, MQTT, SSH and flash drivers: they appear only as arbitrary answers.
- Timing side channels and the wiping of memory.
- Adapter.RunFollows: the ring of pending incoming writes and its overflow flag are not part of the run.
- ProtocolCore.ProtocolCore.ResetSession: later direct calls of the public `resetSession` and `initialize` are outside the runs, which start at `initialize`; verifier and gate do not call back into the core, and lifecycle events come between its operations.
- SessionGate.StepStable: 16-byte identities and 32-byte nonces are numbers, and the constant bytes of a challenge (magic, door identity, flags) are not carried.
- EventOrder.ValidateStream: the events have passed the per-event schema checks (`validate_event`), so exactly those of update sessions carry an update; the terminal codes of the catalogue are a parameter, a missing cause is an absent value, and a session that mixes kinds is refused, by whichever check.
- TargetPublish.PublishTarget: file names are structured values; local file reads, scheme, host and query of the artifact URL, the check of the remote directory, read size limits and prefetching, and the command line are outside.
- MobilePublish.PublishMobile: no other writer acts during a publication of both roots and the preflight of one (`ReadRoot`); the publication of one root (`PublishRoot`) is proved with rivals at every request. Creation of the remote root and the run-attempt pattern are outside.
- RestartJournal.Image.Save: clearing writes field by field from the magic on, as the layout has it; a capacity fits 16 bits and the configured magic is not zero.
- RestartJournal.CutRestoresOldOrNew: a checksum that matches by accident on a half-written image does not matter, since such an image has no magic; damage of more than one byte is outside.
- OtaDownload.DownloadOta: the loop is followed for a given number of rounds, since it is proved to end only where idle time is measurable; a pause takes at least a millisecond.
- RecoveryController.Controller.Service: at most one controller drives the driver, and the driver does not call the policy.
- FlatJson.HasExactUniqueFlatJsonFields: null pointers of input and field table are outside; the bit mask of seen fields is a set.
- AccessEvidence.BuildAccessEventMacInput: a null text is the empty text; the key registry and the credential reference derivation are outside.
- SensorSession.SensorSessionTracker.Begin: the age query and the persistent queue of summaries are outside.
- Simple rings and one-timer policies of the firmware (deferred queues, DNS, startup, latch, lease, advertising), workflow checkers, evidence registers and the other commands of the release tool: they would add only easy members.
