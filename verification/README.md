# A verified model of Altior's protocol cores

Altior is a desktop assistant whose Core process talks to agents, to the desktop shell and to a second
device. This project models the parts of it that are protocols and state machines without I/O, and proves
what they guarantee over whole runs, for every input.

The layout follows the program:

| files | part of the system |
|---|---|
| `Bytes`, `Encodings` | machine words, big-endian fields, associated data, key info, pairing transcripts |
| `ReplayWindow` | the 64-wide replay bitmap |
| `SymbolicCrypto`, `SessionV2`, `InboundRuns`, `SessionRuns`, `SessionOpens`, `SessionBlocks`, `SessionSecrecy` | the v2 two-device channel: turn ratchet, leased counters, crash and restore, a hostile network, which secrets reveal which turn |
| `SessionChains`, `SessionLaunches`, `SessionRollback`, `SessionReuse`, `SessionRestores` | when both sides share a chain, which stale snapshots a sender may come up from, what a restored receiver delivers again |
| `EventLog`, `Handshake`, `EventStream` | Core's bounded event log, token and version agreement, server and client sessions, reconnects |
| `AgentLifecycle`, `PromptRuntime`, `PromptRuns`, `PromptRejections`, `PromptGrants`, `PromptReplies`, `PromptVerdicts` | the agent lifecycle, prompt delivery and the prompt loop that drives both |
| `StreamDecoders` | the incremental frame and line decoders over one generic theory of draining a buffer |
| `Blobs` | convergent chunk encryption, manifests and reassembly |
| `Operations` | the operation registry and the command ledger |
| `CrdtState`, `AckFrontier`, `Supervision`, `SecretShape` | CRDT state framing and storage names, acknowledgement cursors, the supervisor, the credential scan |

Objects the program updates in place are classes with the same fields. Each of their methods is proved
equal to a function on values (`Opening`, `Sealing`, `Recorded`, `Appended`, `CatchUp`, `Iterate`, `Step`,
...), and the theorems about runs are about those functions, so they hold of the methods.

Primitives are free terms. HKDF (sections 2.2 and 2.3 of RFC 5869), X25519 (section 6.1 of RFC 7748),
ChaCha20-Poly1305 (section 2.8 of RFC 8439) and SHA-256 are datatypes: two terms are equal only when they
were built alike, and a Diffie-Hellman result is an unordered pair of secrets. No axiom is used.

## Where the code does not do what is written about it

Each of these is a lemma, with an exact condition or a concrete input.

- A counter block installed by `set_counter_block` does not raise the next counter, so a session can seal
  with counters that lie below the block it holds. Over everything a caller can do next, opening turns
  included, it stays inside the block exactly when the block starts at the next counter
  (`SessionBlocks.BlockIsRespectedIff`; `SessionBlocks.BlockGapExample`, and after a restore
  `SessionBlocks.RestoredGapExample`). Distinctness of counters does not depend on it
  (`SessionRuns.CountersNeverRepeat`).
- "Compromising the static key reveals no earlier turn" holds for the sender's static secret and not for the
  receiver's, which is one side of every turn's exchange. A chain can be computed exactly from the receiver's
  secret, or from the sender's together with the ephemeral of every turn up to it
  (`SessionSecrecy.ChainIsKnownIff`, `SessionSecrecy.SenderSecretAlone`, `SessionSecrecy.ReceiverSecretAlone`).
- A failed `open` changes the receiver in one case: counter 0 sealed under the next turn's key
  (`InboundRuns.FailedOpenChangesNothing`, `InboundRuns.CounterZeroMovesTheTurn`). No run of the two devices can produce that envelope
  (`SessionRuns.FailedArrivalIsHarmless`).
- `open` never looks at the session's direction: a session opens what it sealed itself
  (`SessionRuns.SealerOpensItsOwn`).
- Restoring a sender from a stale snapshot is not always a mistake. Sender and receiver share their chain as
  long as every launch covers what was sealed before it (`SessionChains.ChainsAgree`). A launch is harmless
  in all later runs exactly when every message a receiver can be walked up to lies on the way to the
  snapshot (`SessionLaunches.LaunchIsHarmlessIff`); for a snapshot from earlier on the sender's path that
  means some turn up to the next one was never sealed under (`SessionLaunches.EarlierPointIsHarmlessIff`).
  A run in which the chains part: `SessionRollback.RollbackSplitsTheChains`. The exact condition is for senders
  that never repeat an ephemeral, and needs that (`SessionReuse.ReusedEphemeralIsHarmful`).
- A restored receiver starts with an empty window. Over any run a (turn, counter) pair comes twice only with
  a restore at or below its turn in between (`SessionRestores.RepeatNeedsARestore`), and a restore at any
  saved snapshot of the receiver's path at or below that turn does let old messages deliver it again
  (`SessionRestores.RestoreBringsItBack`, `SessionRestores.RestoreDeliversAgain`).
- The runtime marks the prompt as written before it writes. A write that fails therefore ends
  `Indeterminate`, while `delivery.rs` describes that case as `Absent`
  (`PromptRuns.FailedPromptWriteIsIndeterminate`).
- "The prompt may be re-sent iff its error response was read" fails when the event handler asks for a
  cancel on that very message and the cancel fails. Per trace that is the only way it fails
  (`PromptRejections.RejectionRuleFailsIff`); over all transports and traces it holds exactly for handlers
  that do not ask for a cancel on that response (`PromptRejections.RejectionRuleIffHandlerSpares`).
- Answered permission requests stay pending, so a request that came before a cancel is answered a second
  time, as cancelled (`PromptReplies.RepliesAreCounted`, `PromptReplies.AnsweredTwiceIff`,
  `PromptReplies.GrantedThenCancelledTwice`).
- `LineDecoder` is documented as poisoned after a line that is not UTF-8. That line has already left the
  buffer: a decoder that failed fails for good exactly when what it keeps holds a line above the limit,
  whole or trailing (`Lines.PoisonedIff`, `Lines.FailedFeedPoisonsIff`, `Lines.NotPoisonedExample`).
- The floor is described as `None` while some device has no recorded cursor; the code gives one as soon as
  any device is recorded. A floor above 0 bounds what a roster of devices applied exactly when every one of
  them has a cursor (`AckFrontiers.FloorBoundsRosterIff`, `AckFrontiers.SilentDeviceExample`), and a first
  observation can lower it (`AckFrontiers.NewDeviceLowersFloorIff`).
- A hex-run minimum of 0 still asks for one digit (`SecretShape.DetectLongHexRun`).

## Model

| member | source | states |
|---|---|---|
| `Encodings.AssociatedDataV1Injective` | crates/altior-crypto/src/session.rs:240-258 | v1 associated data are equal iff sender, receiver and counter are |
| `Encodings.AssociatedDataInjective` | crates/altior-crypto/src/session_v2.rs:660-685 | v2 associated data are equal iff epoch sequence, epoch, turn, counter, sender and receiver all are |
| `Encodings.TurnKeyInfoInjective` | crates/altior-crypto/src/session_v2.rs:638-657 | the HKDF info of a turn key determines epoch, sequence, turn and both devices, and is determined by them |
| `Encodings.NonceInjective` | crates/altior-crypto/src/session_v2.rs:453-454 | distinct counters give distinct nonces |
| `Encodings.BelowIsTotal` | crates/altior-crypto/src/pairing.rs:36-55 | the byte order of labels picks exactly one of two different labels as the first |
| `Encodings.TranscriptIffSamePair` | crates/altior-crypto/src/pairing.rs:36-55 | two pairing transcripts are equal iff they are about the same unordered pair of identities |
| `Encodings.LowerLabelComesFirst` | crates/altior-crypto/src/pairing.rs:36-55 | the device with the smaller label comes first, whoever builds the transcript |
| `Encodings.IdentitiesEqual` | crates/altior-crypto/src/pairing.rs:91-97 | an encoded identity can be read back off the front of any byte string |
| `ReplayWindows.AcceptableIsFresh` | crates/altior-crypto/src/session.rs:275-285 | the bitmap test accepts a counter iff it is non-zero, never accepted, and above the window or inside it |
| `ReplayWindows.RecordedRefines` | crates/altior-crypto/src/session.rs:287-301 | after recording, bit i is set iff `highest - i` was accepted: shifting and setting bits is adding one element to the set |
| `ReplayWindows.RunsAgree` | crates/altior-crypto/src/session.rs:265-301 | on every list of counters the bitmap and a plain set of accepted counters give the same verdicts and stay in step |
| `ReplayWindows.ReplayWindow.Accept` | crates/altior-crypto/src/session.rs:275-285 | the verdict, and the recorded window exactly when it is positive |
| `ReplayWindows.ReplayWindow.Record` | crates/altior-crypto/src/session.rs:287-301 | the shifted or filled bitmap and the new maximum |
| `SymbolicCrypto.RootProtectsChain` | crates/altior-crypto/src/session_v2.rs:629-634 | a chain cannot be computed by an outsider that cannot compute its static root, whatever ephemerals it knows |
| `SymbolicCrypto.AtTurn` | crates/altior-crypto/src/session_v2.rs:629-634 | the earlier intermediate of a chain at a turn has that depth and the same root |
| `SessionV2s.NewOutbound` | crates/altior-crypto/src/session_v2.rs:220-258 | succeeds iff the ids differ, the lease gave a block not starting at 0 and the peer key is contributory; then the first counter is the block's start, at turn 0 on a root chain |
| `SessionV2s.NewInbound` | crates/altior-crypto/src/session_v2.rs:265-293 | succeeds iff the ids differ and the peer key is contributory; then turn 0 on a root chain with an empty window |
| `SessionV2s.HeaderRoundTrip` | crates/altior-crypto/src/session_v2.rs:503-530 | the offsets `open` reads at give back the fields `seal` wrote |
| `SessionV2s.InstallBlock` | crates/altior-crypto/src/session_v2.rs:369-378 | succeeds iff the block is not empty, starts above 0 and not below the next counter |
| `SessionV2s.TurnOpened` | crates/altior-crypto/src/session_v2.rs:397-414 | succeeds iff the session is outbound, the seed is not the reserved one and the peer key is contributory |
| `SessionOpens.HeaderIsItsFields` | crates/altior-crypto/src/session_v2.rs:509-530 | a header of this version is the encoding of the fields read off it |
| `SessionOpens.OpensIff` | crates/altior-crypto/src/session_v2.rs:503-599 | an envelope opens iff its header and body are a seal for this session's claims, on the chain of the current or the next turn, with a counter that is no replay |
| `SessionOpens.AnswerToASeal` | crates/altior-crypto/src/session_v2.rs:427-599 | for any two sessions, the answer and the error to what one sealed, from epochs, turns, chains and the window |
| `SessionOpens.ForeignFormatIsRefused` | crates/altior-crypto/src/session_v2.rs:504-512 | short envelopes and other versions are refused for that, before anything else, and change nothing |
| `SessionV2s.SessionV2.SetCounterBlock` | crates/altior-crypto/src/session_v2.rs:369-378 | installs the block or refuses a rewind and changes nothing |
| `SessionV2s.SessionV2.OpenTurn` | crates/altior-crypto/src/session_v2.rs:397-414 | links one Diffie-Hellman result onto the chain, or refuses and changes nothing |
| `SessionV2s.SessionV2.Seal` | crates/altior-crypto/src/session_v2.rs:427-484 | uses up one counter and emits the envelope of this turn, or refuses and changes nothing |
| `SessionV2s.SessionV2.Open` | crates/altior-crypto/src/session_v2.rs:503-599 | result and new state for a session of either direction, with every error in the order of the code; nothing commits before the tag is accepted |
| `InboundRuns.OpenKeepsConsistent` | crates/altior-crypto/src/session_v2.rs:530-599 | one arrival of any envelope keeps: window = deliveries of this turn, turns never decrease, no pair delivered twice |
| `InboundRuns.DeliversAtMostOnce` | crates/altior-crypto/src/session_v2.rs:503-599 | over the whole life of a receiver and any arrivals no (turn, counter) is delivered twice although the window restarts each turn |
| `InboundRuns.FreshSessionConsistent` | crates/altior-crypto/src/session_v2.rs:328-341 | a new or restored receiver satisfies the starting condition |
| `InboundRuns.FailedOpenChangesNothing` | crates/altior-crypto/src/session_v2.rs:556-599 | a failed open leaves the session as it was iff it was not counter 0 authenticated under the next turn |
| `InboundRuns.CounterZeroMovesTheTurn` | crates/altior-crypto/src/session_v2.rs:556-599 | for every session that envelope exists: refused as a replay, and the turn has moved |
| `SessionRuns.OwnKeyIsNotForeign` | crates/altior-crypto/src/session_v2.rs:638-657 | no key of this epoch, sequence and direction is a key of another, whatever the chains |
| `SessionRuns.OtherSessionsAreOffered` | crates/altior-crypto/src/session_v2.rs:427-484 | everything any other session seals, in another epoch or in the reverse direction, is at the network's disposal with every field rewritten |
| `SessionRuns.AcceptedMeansSealed` | crates/altior-crypto/src/session_v2.rs:548-585 | what the AEAD accepts, from a network that replays, rewrites, forges and brings in seals of other epochs and of the reverse direction, was sealed by the sender in this epoch under that chain, turn, counter and plaintext |
| `SessionRuns.SuccessfulArrivalIsAuthentic` | crates/altior-crypto/src/session_v2.rs:503-599 | a successful open returns a recorded message and leaves the receiver on that message's chain |
| `SessionRuns.FailedArrivalIsHarmless` | crates/altior-crypto/src/session_v2.rs:556-599 | in every reachable world a failed open changes nothing at all |
| `SessionRuns.StepKeepsInv` | crates/altior-crypto/src/session_v2.rs:220-599 | every step (start, restore, crash, save, lease, turn, seal, arrival, receiver restore) keeps the channel invariant |
| `SessionRuns.RunKeepsInv` | crates/altior-crypto/src/session_v2.rs:220-599 | so does every run |
| `SessionRuns.DeliveriesAreAuthentic` | crates/altior-crypto/src/session_v2.rs:397-599 | in every run, with seals of other epochs and the reverse direction in the network's hands, each delivery was sealed by the sender in this epoch under its turn and counter, none comes twice, turns never decrease |
| `SessionRuns.CountersNeverRepeat` | crates/altior-crypto/src/session_v2.rs:220-258 | over crashes, restores and leases the sealed counters rise strictly, are never 0, never overflow, and no nonce recurs |
| `SessionRuns.CounterNamesTheMessage` | crates/altior-crypto/src/session_v2.rs:427-441 | a delivered counter identifies one sealed message for good |
| `SessionChains.StepKeepsEarned` | crates/altior-crypto/src/session_v2.rs:503-599 | every step leaves live and saved receivers only where sealed messages of every turn took them |
| `SessionChains.ChainsAgree` | crates/altior-crypto/src/session_v2.rs:304-341 | while every launch covers what was sealed before it, the receiver's chain at its turn is the sender's chain at that turn |
| `SessionLaunches.LaunchIsHarmlessIff` | crates/altior-crypto/src/session_v2.rs:304-319 | a launch from any snapshot keeps both sides on one chain in every later run iff every message a receiver can be walked up to lies on the way to it |
| `SessionLaunches.EarlierPointIsHarmlessIff` | crates/altior-crypto/src/session_v2.rs:304-319 | a launch from an earlier point of the sender's path keeps both sides on one chain in every later run iff some turn from 1 to the one after it was never sealed under |
| `SessionLaunches.WalkUp` | crates/altior-crypto/src/session_v2.rs:535-599 | old messages alone take a receiver up to any chain all of whose turns were sealed under |
| `SessionReuse.ReusedEphemeralIsHarmful` | crates/altior-crypto/src/session_v2.rs:380-414 | a run in which a launch that meets the condition turns harmful because a turn repeats an abandoned ephemeral |
| `SessionRestores.RepeatNeedsARestore` | crates/altior-crypto/src/session_v2.rs:328-341 | over any number of receiver restores a (turn, counter) pair comes twice only with a restore at or below its turn in between |
| `SessionRestores.RestoreDeliversAgain` | crates/altior-crypto/src/session_v2.rs:328-341 | whatever a receiver delivers it delivers again once restored at the snapshot it had before |
| `SessionRestores.RestoreReaches` | crates/altior-crypto/src/session_v2.rs:328-341 | a receiver restored below a message all of whose turns were sealed under can be led to deliver it |
| `SessionRestores.RestoreBringsItBack` | crates/altior-crypto/src/session_v2.rs:328-341 | in every run, whatever the receiver delivered comes again after a restore at any saved snapshot of its path at or below that turn |
| `SessionRuns.ReceiverFollowsTheSender` | crates/altior-crypto/src/session_v2.rs:397-599 | in every run, stale restores included, the receiver's chain is one the sender itself held at that turn |
| `SessionRollback.RollbackSplitsTheChains` | crates/altior-crypto/src/session_v2.rs:304-319 | a run in which the sender starts afresh and both sides reach turn 1 on different chains |
| `SessionRuns.SealedThenOpened` | crates/altior-crypto/src/session_v2.rs:427-599 | a receiver in step opens what was sealed, and gets the plaintext iff its window does not refuse the counter |
| `SessionRuns.FreshEndpointsMeet` | crates/altior-crypto/src/session_v2.rs:220-293 | sender and receiver constructed apart hold the same root and derive the same turn key |
| `SessionRuns.SealerOpensItsOwn` | crates/altior-crypto/src/session_v2.rs:503-599 | a session of either direction opens what it just sealed iff its own window allows the counter |
| `SessionRuns.OpenedTurnIsInStep` | crates/altior-crypto/src/session_v2.rs:397-414 | a receiver on the previous chain is in step with the turn the sender opens |
| `SessionRuns.RestoredNeedsATurn` | crates/altior-crypto/src/session_v2.rs:304-319 | past turn 0 a restored sender seals iff it first opened a turn and its block is not empty |
| `SessionRuns.RestoredChannelWorks` | crates/altior-crypto/src/session_v2.rs:304-319 | restore, open a turn, seal, open: the plaintext arrives |
| `SessionBlocks.HandedOutUpToEnd` | crates/altior-crypto/src/session_v2.rs:397-441 | whatever turns and seals follow, the counters start at the next one and stay below the block's end |
| `SessionBlocks.HandedOutExactly` | crates/altior-crypto/src/session_v2.rs:427-441 | a session that may seal hands out its next counters in a row, one per message, exactly as many as its block has left |
| `SessionBlocks.SealsWhileTheBlockLasts` | crates/altior-crypto/src/session_v2.rs:427-441 | after any turns and messages the next seal succeeds iff fewer messages went before than the block had counters |
| `SessionBlocks.SealRefusals` | crates/altior-crypto/src/session_v2.rs:427-437 | refused as not open iff a turn is needed, as exhausted iff no counter is left |
| `SessionBlocks.BlockIsRespectedIff` | crates/altior-crypto/src/session_v2.rs:369-441 | over every list of turns and seals, all counters lie inside the installed block iff it starts at the next counter |
| `SessionBlocks.StuckSealsNothing` | crates/altior-crypto/src/session_v2.rs:397-430 | the one kind of session this leaves out, restored and unable to open a turn, never seals |
| `SessionBlocks.SendersAreNotStuck` | crates/altior-crypto/src/session_v2.rs:397-414 | no sender of a pairing is of that kind below the last turn number |
| `SessionBlocks.BlockGapExample` | crates/altior-crypto/src/session_v2.rs:369-378 | a session at counter 3 that installs 100..200 seals with 3 |
| `SessionBlocks.RestoredGapExample` | crates/altior-crypto/src/session_v2.rs:304-441 | a sender restored with 1..10 that installs 100..200 and opens its turn seals with 1 |
| `SessionSecrecy.ChainIsKnownIff` | crates/altior-crypto/src/session_v2.rs:10-13 | in every run a chain can be computed iff the receiver's static secret is known, or the sender's and the ephemeral of every turn up to it |
| `SessionSecrecy.SenderSecretAlone` | crates/altior-crypto/src/session_v2.rs:10-13 | the sender's static secret alone reveals turn 0 only |
| `SessionSecrecy.ReceiverSecretAlone` | crates/altior-crypto/src/session_v2.rs:397-414 | the receiver's static secret alone reveals every turn |
| `EventLogs.AppendHolds` | crates/altior-ipc/src/session.rs:91-105 | the ring stays the newest `capacity` events of the history, sequences are consecutive, overflow iff the history is full |
| `EventLogs.ReplayAgreesWithHistory` | crates/altior-ipc/src/session.rs:138-161 | the plan is the history after `since`, or a gap iff the first missing event was evicted, or up to date iff nothing is missing or nothing was asked |
| `EventLogs.RetainedIsTheWindow` | crates/altior-ipc/src/session.rs:113-122 | the reported window runs from the oldest kept to the newest event of the history, none iff there is no event |
| `EventLogs.AfterOfNumbered` | crates/altior-ipc/src/session.rs:138-161 | filtering a numbered history by sequence is cutting it at that place |
| `EventLogs.LaterThan` | crates/altior-ipc/src/session.rs:138-161 | the filter loop computes exactly the later events, in order |
| `EventLogs.NewEventLog` | crates/altior-ipc/src/session.rs:67-78 | refuses capacity 0 and otherwise starts with an empty history |
| `EventLogs.EventLog.Append` | crates/altior-ipc/src/session.rs:91-105 | appends one numbered event to the history, or reports overflow and changes nothing |
| `EventLogs.EventLog.PlanReplay` | crates/altior-ipc/src/session.rs:138-161 | the plan in terms of the whole history |
| `EventStreams.CatchUpReachesTheEnd` | crates/altior-ipc/src/session.rs:333-397 | what a subscriber is sent is a suffix of the history that joins its last event, with a boundary naming the first and last replayed sequence, or a gap that names everything it missed |
| `Handshakes.ConstantTimeEq` | crates/altior-ipc/src/auth.rs:148-167 | the loop over all bytes decides equality |
| `Handshakes.NegotiatesHighestCommon` | crates/altior-protocol/src/handshake.rs:102-138 | the highest version both ranges contain, none iff they are disjoint, whoever asks |
| `EventStreams.ServerSession.AcceptHello` | crates/altior-ipc/src/session.rs:291-317 | accepted iff ungreeted, the token is the launch token and a common version exists; a wrong token is told apart; reports the retained window |
| `EventStreams.GreetingsAreValid` | crates/altior-protocol/src/greeting.rs:92-111 | what a server with a sound log greets with passes the client's validation |
| `EventStreams.ServerSession.AcceptSubscribe` | crates/altior-ipc/src/session.rs:333-397 | one subscription per greeted connection, a malformed one does not use it up; the delivery and the log are those of the catch-up |
| `EventStreams.ServerSession.Publish` | crates/altior-ipc/src/session.rs:410-427 | sequences one event, or refuses before the greeting and on overflow |
| `EventStreams.ClientSession.AcceptGreeting` | crates/altior-ipc/src/session.rs:474-497 | accepted iff the version is the negotiated and supported one and the window is in order; the known Core instance keeps cursor and seen ids, another one clears them |
| `EventStreams.ClientSession.AcceptEvent` | crates/altior-ipc/src/session.rs:511-528 | applies an unseen id, recognises a seen one, and keeps the largest sequence |
| `EventStreams.StepKeepsInv` | crates/altior-ipc/src/session.rs:91-528 | emit, connect, subscribe, deliver, redeliver, drop and restart all keep the stream invariant |
| `EventStreams.RunKeepsInv` | crates/altior-ipc/src/session.rs:91-528 | so does every run |
| `EventStreams.RedeliverChangesNothing` | crates/altior-ipc/src/session.rs:511-528 | an event delivered again changes nothing anywhere |
| `EventStreams.LinkedCovers` | crates/altior-ipc/src/session.rs:511-528 | a linked list of applied events leaves no sequence unaccounted for |
| `EventStreams.ReconnectKeepsThePlace` | crates/altior-ipc/src/session.rs:474-508 | connecting to the same Core keeps cursor, seen ids and what was applied; to another Core it starts afresh |
| `EventStreams.OnlyRestartForgets` | crates/altior-ipc/src/session.rs:474-528 | what counts as applied is forgotten by a restart of Core and by no other step |
| `EventStreams.NothingIsLostSilently` | crates/altior-ipc/src/session.rs:333-528 | across any reconnects every sequence from the first to the last event applied since Core's last restart was applied exactly once or announced by a delivered gap, and cursor and seen ids are exactly those events' |
| `EventStreams.DeliveryIsApplied` | crates/altior-ipc/src/session.rs:511-528 | in every run each event taken off the connection is new and is applied |
| `EventStreams.DrainedClientIsCurrent` | crates/altior-ipc/src/session.rs:333-528 | a subscribed client whose connection is drained stands at the newest sequence |
| `AgentLifecycles.AgentLifecycle.OnPromptWritten` | crates/altior-acp/src/lifecycle.rs:101-107 | starts a turn only from ready |
| `AgentLifecycles.AgentLifecycle.OnPermissionRequested` | crates/altior-acp/src/lifecycle.rs:114-134 | queues while prompting, answers cancelled while cancelling, refuses otherwise |
| `AgentLifecycles.AgentLifecycle.OnCancelRequested` | crates/altior-acp/src/lifecycle.rs:140-160 | one cancel notification, then one answer per pending request |
| `AgentLifecycles.AgentLifecycle.OnPromptSettled` | crates/altior-acp/src/lifecycle.rs:168-182 | ends a running turn, refuses otherwise |
| `AgentLifecycles.AgentLifecycle.OnProcessLost` | crates/altior-acp/src/lifecycle.rs:185-189 | dead from every phase, with a kill order |
| `AgentLifecycles.AgentLifecycle.OnIdleElapsed` | crates/altior-acp/src/lifecycle.rs:192-195 | killing from every phase, with a kill order |
| `AgentLifecycles.AgentLifecycle.OnReaped` | crates/altior-acp/src/lifecycle.rs:198-202 | only a killed child is reaped to dead |
| `AgentLifecycles.CancelledTurnAnswersEveryRequest` | crates/altior-acp/src/lifecycle.rs:101-160 | in every run a cancelled turn sent one cancel and answered exactly the multiset of permission requests it received, before and after the cancel |
| `AgentLifecycles.EndOfTurnIsAccounted` | crates/altior-acp/src/lifecycle.rs:168-202 | a turn that settles or is lost ends with that account, and with nothing answered if it was not cancelled |
| `AgentLifecycles.KillIsFinal` | crates/altior-acp/src/lifecycle.rs:168-202 | after the first kill order nothing but kill orders is emitted and no phase ever runs again |
| `AgentLifecycles.PhaseIsTold` | crates/altior-acp/src/lifecycle.rs:101-202 | in every run the phase is what the inputs say: a prompt written and not settled, a cancel in that turn, a kill not reaped, a process lost |
| `AgentLifecycles.AnswersAreTold` | crates/altior-acp/src/lifecycle.rs:101-202 | and so is every answer: exactly what is refused, and what each accepted input makes the host do |
| `PromptDeliveries.PromptDelivery.MarkWritten` | crates/altior-acp/src/delivery.rs:92-101 | indeterminate and outstanding, refused while outstanding |
| `PromptDeliveries.PromptDelivery.Settle` | crates/altior-acp/src/delivery.rs:156-165 | a verdict for an outstanding attempt only |
| `PromptDeliveries.PromptDelivery.OnConnectionLost` | crates/altior-acp/src/delivery.rs:146-154 | indeterminate with its cause, for an outstanding attempt only |
| `PromptDeliveries.ReportsAreExact` | crates/altior-acp/src/delivery.rs:92-165 | over any reports a write is accepted unless one is outstanding, a verdict only for an outstanding write, and the attempt shows the latest accepted report |
| `PromptRuntimes.AcpRuntime.Cancel` | crates/altior-acp/src/runtime.rs:346-352 | the writes of a cancel, stopped at the first that fails |
| `PromptRuntimes.AcpRuntime.LoopBody` | crates/altior-acp/src/runtime.rs:207-311 | one iteration: signal, read, decode, events, dispatch, with every exit |
| `PromptRuntimes.AcpRuntime.PromptWithHandlers` | crates/altior-acp/src/runtime.rs:178-313 | the whole call over any trace; without a session it refuses and changes nothing |
| `PromptRuns.IterateIsOk` | crates/altior-acp/src/runtime.rs:207-311 | how one iteration may classify the attempt, what it reads, and how many cancels it writes |
| `PromptRuns.PromptIsClassified` | crates/altior-acp/src/runtime.rs:178-313 | on every trace one prompt line, at most one cancel, never `Absent`, and re-sendable iff the error response was read and no cancel failed |
| `PromptRejections.RejectionRuleFailsIff` | crates/altior-acp/src/runtime.rs:244-280 | on each transport and trace the rule fails iff the error response is read in an iteration whose only cancel request is the handler's on it, and that cancel fails |
| `PromptRejections.RejectionRuleIffHandlerSpares` | crates/altior-acp/src/runtime.rs:244-280 | over all transports and traces the rule holds iff the handler does not ask for a cancel on the prompt's error response |
| `PromptRuns.RejectionRuleHoldsIff` | crates/altior-acp/src/runtime.rs:244-280 | for an arbitrary handler: on which transports the rule holds on all traces |
| `PromptRuns.FailedPromptWriteIsIndeterminate` | crates/altior-acp/src/runtime.rs:196-200 | a failed prompt write ends indeterminate and is never re-sent |
| `PromptRuns.SoundLoopNeverFailsToCancel` | crates/altior-acp/src/runtime.rs:346-352 | on a transport whose writes succeed a cancel never fails |
| `PromptGrants.NoGrantAfterCancel` | crates/altior-acp/src/runtime.rs:207-305 | on every trace no permission is granted behind a written `session/cancel` |
| `PromptGrants.AnsweredPromptIsForgotten` | crates/altior-acp/src/runtime.rs:190-280 | on every exit the prompt id stops being awaited iff its answer was read and no cancel failed on it; no other id is touched |
| `PromptReplies.RepliesAreCounted` | crates/altior-acp/src/runtime.rs:282-305 | for every id: one reply per request read, plus one for each request before the first cancel |
| `PromptReplies.AnsweredTwiceIff` | crates/altior-acp/src/lifecycle.rs:114-160 | an id is answered more than once iff it was asked twice or asked before a cancel |
| `PromptReplies.GrantedThenCancelledTwice` | crates/altior-acp/src/runtime.rs:282-305 | a granted request followed by a cancel is answered as granted and as cancelled |
| `PromptVerdicts.GrantsAreTheHandlers` | crates/altior-acp/src/runtime.rs:282-305 | on every transport and trace, per id: one granting reply for each request read before the first cancel request whose verdict was a grant, and no other |
| `PromptVerdicts.OthersAreRefused` | crates/altior-acp/src/runtime.rs:306-310 | per id: one refusal for each request the host does not offer |
| `PromptVerdicts.CallEndsAtFirstVerdict` | crates/altior-acp/src/runtime.rs:207-311 | on a sound transport the call reads up to the first deciding read and ends with its verdict and phase, completed iff a well-formed response to the prompt |
| `PromptVerdicts.ReportedAnswerWasRead` | crates/altior-acp/src/runtime.rs:260-281 | on any transport a call that reports an answer has just read that very answer |
| `IncrementalDecoding.ChunkingIsIrrelevant` | crates/altior-ipc/src/frame.rs:73-108 | for any decoder step that later bytes cannot revise, every cut of a stream gives the items, rest and fault of one feed |
| `IncrementalDecoding.DecodesEncodings` | crates/altior-ipc/src/frame.rs:73-108 | a stream of encodings drains to the encoded items |
| `Frames.FrameDecoder.DecodeNext` | crates/altior-ipc/src/frame.rs:86-108 | one frame, more needed, or too large with the buffer kept |
| `Frames.FrameDecoder.Feed` | crates/altior-ipc/src/frame.rs:73-84 | the loop drains the extended buffer completely |
| `Frames.FramesSurviveChunking` | crates/altior-ipc/src/frame.rs:53-108 | frames do not depend on how the stream is cut; neither does the error |
| `Frames.FramesRoundTrip` | crates/altior-ipc/src/frame.rs:27-108 | concatenated encodings, cut anywhere, decode back to the payloads |
| `Frames.FramesAccountForTheStream` | crates/altior-ipc/src/frame.rs:73-108 | what a feed returns and keeps is the stream again; it faults iff the rest starts with a length above the limit |
| `Frames.EncodesWhatDecodes` | crates/altior-ipc/src/frame.rs:27-42 | the encoder gives exactly the bytes that decode to the payload; a refused payload has none |
| `Frames.PoisonedForever` | crates/altior-ipc/src/frame.rs:86-108 | after an oversized length every later feed fails alike |
| `Lines.LineDecoder.Feed` | crates/altior-acp/src/wire.rs:231-256 | the loop drains the extended buffer completely |
| `Lines.LinesSurviveChunking` | crates/altior-acp/src/wire.rs:213-256 | lines do not depend on how the stream is cut; neither does the kind of error, and a cut reports at most the size the whole shows |
| `Lines.LinesRoundTrip` | crates/altior-acp/src/wire.rs:196-256 | encoded newline-free lines, cut anywhere, come back |
| `Lines.LinesAccountForTheStream` | crates/altior-acp/src/wire.rs:231-256 | returned lines, the one invalid line a fault uses up, and what is kept make up the stream |
| `Lines.EncodesWhatDecodes` | crates/altior-acp/src/wire.rs:196-207 | for a sound line the encoder gives exactly the bytes that decode to it |
| `Lines.PoisonedIff` | crates/altior-acp/src/wire.rs:209-256 | every later feed of every chunk list fails iff the kept bytes hold a line, whole or trailing, above the limit |
| `Lines.FailedFeedPoisonsIff` | crates/altior-acp/src/wire.rs:231-256 | after a failed feed: poisoned iff the buffer held an oversized line; an oversize error always is |
| `Lines.TooLargeForever` | crates/altior-acp/src/wire.rs:231-256 | behind an oversized line every later feed reports it again, no smaller, and keeps everything |
| `Lines.NotPoisonedExample` | crates/altior-acp/src/wire.rs:231-256 | after an invalid line the next feed returns a valid one |
| `Blobs.PiecesCover` | crates/altior-crypto/src/blob.rs:132-150 | the pieces join to the plaintext, none is above 64 KiB, only the last is short |
| `Blobs.Split` | crates/altior-crypto/src/blob.rs:132-150 | the splitting loop produces exactly those pieces, one empty piece for an empty blob |
| `Blobs.SplitAndEncrypt` | crates/altior-crypto/src/blob.rs:132-181 | manifest and chunks agree entry by entry with the sealed pieces |
| `Blobs.DecryptAndReassemble` | crates/altior-crypto/src/blob.rs:193-241 | the loop computes the reassembly, with its errors in order |
| `Blobs.BlobRoundTrip` | crates/altior-crypto/src/blob.rs:132-241 | every plaintext comes back from any chunk map that contains the produced chunks |
| `Blobs.ReassemblyIsAuthentic` | crates/altior-crypto/src/blob.rs:193-241 | reassembly succeeds iff every chunk is the genuine seal at its place and the sizes add up, and then returns what the hashes name |
| `Blobs.RefusalNamesTheFirstBadChunk` | crates/altior-crypto/src/blob.rs:193-241 | a refusal names the first chunk that is not genuine, missing iff nothing was fetched for it, or sizes that do not add up |
| `Blobs.ManifestPinsThePlaintext` | crates/altior-crypto/src/blob.rs:193-241 | no two chunk maps or keys make one manifest yield different blobs |
| `Operations.NewOperationRegistry` | crates/altior-core/src/operations.rs:47-56 | refuses capacity 0 and otherwise knows nothing |
| `Operations.OperationRegistry.Admit` | crates/altior-core/src/operations.rs:84-96 | executes an unknown id, reports a known one, refuses when full |
| `Operations.OperationRegistry.AdmitOperation` | crates/altior-core/src/operations.rs:63-76 | the same for a raw id |
| `Operations.OperationRegistry.Retire` | crates/altior-core/src/operations.rs:98-106 | moves the id to the bounded memory of finished operations |
| `Operations.OperationRegistry.Known` | crates/altior-core/src/operations.rs:108-110 | admitted or remembered as finished |
| `Operations.MemoryIsExact` | crates/altior-core/src/operations.rs:63-110 | on every history of calls the registry holds the open operations and the newest `capacity` retirements, both within capacity |
| `Operations.AdmissionIsExact` | crates/altior-core/src/operations.rs:63-96 | on every history an admission executes iff its id is neither open nor among the newest retirements and fewer than `capacity` are open; duplicate iff known; full otherwise |
| `Operations.ForgottenAfterExactlyCapacity` | crates/altior-core/src/operations.rs:98-110 | a retired id is known iff fewer than `capacity` retirements followed its last one |
| `Operations.ReexecutionNeedsForgetting` | crates/altior-core/src/operations.rs:63-110 | an id executes twice only with its retirement and `capacity` further ones in between |
| `CommandLedgers.NewCommandLedger` | crates/altior-ipc/src/session.rs:554-564 | refuses capacity 0 and otherwise starts empty |
| `CommandLedgers.CommandLedger.RecordCommand` | crates/altior-ipc/src/session.rs:572-584 | records a new id, recognises an issued one, refuses when full |
| `CommandLedgers.CommandLedger.Clear` | crates/altior-ipc/src/session.rs:587-589 | forgets everything |
| `CommandLedgers.IssuedAtMostOnce` | crates/altior-ipc/src/session.rs:572-584 | between two clears no operation id is issued twice |
| `CommandLedgers.IssuedIffNew` | crates/altior-ipc/src/session.rs:572-589 | on any ledger and calls a command is issued iff it was not issued since the last clear and the ledger is not full |
| `CrdtState.ParseAcceptsExactlyFrames` | crates/altior-crdt/src/lib.rs:414-479 | a state parses to a payload iff it is the framing of that payload for this engine and digest and at most 8 MiB |
| `CrdtState.FrameRefusals` | crates/altior-crdt/src/lib.rs:425-479 | frames of another engine or schema, too large or cut short, and the error each gets |
| `CrdtState.OtherVersionIsRefused` | crates/altior-crdt/src/lib.rs:425-450 | another framing version is refused for its version |
| `CrdtState.StorageName` | crates/altior-crdt/src/lib.rs:405-412 | the loop appends the two hex digits of every byte |
| `CrdtState.HexInjective` | crates/altior-crdt/src/lib.rs:405-412 | hex names determine the logical name |
| `CrdtState.NamesInjective` | crates/altior-crdt/src/lib.rs:405-412 | stored names are equal iff kind and logical name are |
| `CrdtState.ValidateState` | crates/altior-crdt/src/automerge_engine.rs:258-285 | a document passes iff every readable root entry is accepted |
| `CrdtState.KeyNamesOneField` | crates/altior-crdt/src/automerge_engine.rs:258-285 | a root key names at most one declared field and is accepted iff its value has that field's type |
| `AckFrontiers.AckFrontier.Observe` | crates/altior-domain/src/vault.rs:439-446 | raises the device's cursor or leaves it, and touches no other |
| `AckFrontiers.AckFrontier.CompactionFloor` | crates/altior-domain/src/vault.rs:450-452 | the least cursor, none iff there is no cursor |
| `AckFrontiers.CursorsAreMaxima` | crates/altior-domain/src/vault.rs:435-446 | after any observations exactly the observed devices have cursors, each the maximum observed |
| `AckFrontiers.OrderDoesNotMatter` | crates/altior-domain/src/vault.rs:435-446 | lists with the same observations, in any order and multiplicity, give the same cursors |
| `AckFrontiers.KnownDeviceNeverLowersFloor` | crates/altior-domain/src/vault.rs:439-465 | observing a recorded device never lowers the floor |
| `AckFrontiers.NewDeviceLowersFloorIff` | crates/altior-domain/src/vault.rs:439-465 | a first observation lowers it iff it lies below |
| `AckFrontiers.FloorBoundsRosterIff` | crates/altior-domain/src/vault.rs:425-452 | the floor bounds what every device of a roster applied iff it is 0 or each has a cursor |
| `AckFrontiers.SilentDeviceExample` | crates/altior-domain/src/vault.rs:425-452 | with one device at 5 and a silent one the floor is 5 and does not bound the silent one |
| `Supervision.Supervisor.Start` | crates/altior-core/src/supervision.rs:131-134 | probes from every state |
| `Supervision.Supervisor.OnProbe` | crates/altior-core/src/supervision.rs:143-175 | attaches to a live Core, spawns otherwise, refused unless probing |
| `Supervision.Supervisor.OnSpawned` | crates/altior-core/src/supervision.rs:182-195 | attaches, refused unless starting |
| `Supervision.Supervisor.OnDisconnected` | crates/altior-core/src/supervision.rs:197-222 | escalates and backs off from every state |
| `Supervision.Supervisor.RetryProbe` | crates/altior-core/src/supervision.rs:229-241 | probes again, refused unless reconnecting |
| `Supervision.Supervisor.Stop` | crates/altior-core/src/supervision.rs:244-246 | stops and decides nothing |
| `Supervision.AttemptsEscalate` | crates/altior-core/src/supervision.rs:64-71 | in every run there is one attempt per disconnect and the k-th is max(first, min(max, max(first,1)+k-1)) |
| `Supervision.RunShowsAttempt` | crates/altior-core/src/supervision.rs:197-222 | in every run the starting and reconnecting states report the attempt of the latest disconnect |
| `Supervision.AttachIsProbed` | crates/altior-core/src/supervision.rs:131-239 | between two attaches, and between a disconnect and the next attach, there is a probe |
| `Supervision.EveryAnswerFits` | crates/altior-core/src/supervision.rs:131-246 | in every run each input is answered as the latest accepted answer demands, and refused exactly when out of order |
| `Supervision.AttachesAndSpawnsAreFounded` | crates/altior-core/src/supervision.rs:143-195 | an attach is made on a live probe or on a spawn that came up, a spawn on a probe that was not live |
| `SecretShape.Find` | crates/altior-domain/src/secret_shape.rs:197-247 | the first occurrence from an offset, or none |
| `SecretShape.ScanKeyword` | crates/altior-domain/src/secret_shape.rs:197-247 | the skipping scan finds an assignment iff some occurrence anywhere is one |
| `SecretShape.QualifiesIffShaped` | crates/altior-domain/src/secret_shape.rs:216-243 | an occurrence qualifies iff a word starts there and the text behind it is blanks, separator, blanks, quotes and a long enough value |
| `SecretShape.OccurrencesAreApart` | crates/altior-domain/src/secret_shape.rs:197-247 | skipping past a match loses nothing: no keyword overlaps itself |
| `SecretShape.KeywordsDoNotOverlap` | crates/altior-domain/src/secret_shape.rs:197-215 | all nine keywords have that property |
| `SecretShape.DetectCredentialAssignment` | crates/altior-domain/src/secret_shape.rs:197-247 | true iff some keyword occurs at a word boundary, followed by a separator and a qualifying value |
| `SecretShape.DetectLongHexRun` | crates/altior-domain/src/secret_shape.rs:254-267 | true iff there is a run of that many hex digits somewhere |

## Assumptions the theorems rest on

- Two-device runs: one live sender at a time; leased blocks start at or above the end of every earlier one;
  the static secrets of both devices are not compromised (ephemerals may be). The network can drop,
  duplicate, reorder, rewrite any header field, replace the ephemeral key, inject noise, bring in seals of
  other epochs, epoch sequences and of the reverse direction under any chain, and seal under any chain it can
  compute.
- `SessionLaunches`: in the runs after the launch the sender resumes where it stopped and opens no turn with
  the ephemeral of an abandoned one. `SessionChains.ChainsAgree` needs neither.
- Event stream: event ids and Core instances are never reused; a connection is first-in first-out; an event
  sequenced while a client is subscribed is enqueued to it; a subscription is answered in one step although
  the code takes the log lock twice.
- Prompt loop: one iteration's signal, read, event-handler verdict and permission-handler verdict are
  arbitrary inputs, and so is the success of every write.

## Left out

- Cryptographic internals: clamping, low-order points other than as one rejected point, AEAD failure while sealing, and collisions are not represented, since primitives are free terms.
- SessionV2s.SessionV2.Open: asks for a turn number below the largest 64-bit value, where the code overflows, and for the static secret when an envelope of the next turn gets as far as the key exchange, where the code panics without it.
- SessionV2s.SessionV2.OpenTurn: asks for a turn number below the largest 64-bit value, for the same reason.
- The all-zero epoch that `SessionEpoch::from_bytes` refuses: epochs here are any 16 bytes.
- Sealing and opening of the v1 session: its associated data and replay window are modelled, the rest is the v2 session without turns.
- Capabilities and product versions in the handshake: they travel along and decide nothing here.
- UTF-8 validity is a parameter of the line decoder; nothing depends on it.
- JSON: messages arrive typed, and a message that cannot be encoded counts as a failed write. `RpcMessage` decoding and encoding are not part of this model.
- Steering, session creation and loading, `mark_write_failed`, closing and terminating an agent: single branches without state over a run.
- The schema digest is a parameter of the CRDT framing; `DocumentSchema::new` and the engines themselves are not part of this model.
- Device labels of the acknowledgement frontier are numbers; `VaultDeviceRecord` is not part of this model: its operations are single guarded updates.
- Signing and verifying a pairing transcript are foreign calls.
- The other secret detectors (PEM, AWS, `sk-`, GitHub, Slack, JWT, base64): each is one pattern.
- Sizes of 2^64 bytes and more, and platform word sizes below 64 bits.
- Transports, discovery, storage, relay, context assembly, the sync node, timing, locks and threads, the desktop shell.
