# Campaign checkpoint and recovery: a verified model

A sealed roster of players shares one durable campaign. The store holds a journal, the
current projection and the checkpoints. A checkpoint collects one native-save proof per
slot and then commits. When a member is lost the server journals an attempt, makes every
member reload the last committed checkpoint (the first barrier), journals one restore,
makes every member apply the snapshot (the second barrier), and journals the completion.
The server may stop and restart at any point; it then loses its active checkpoint and its
barriers and rebuilds the open attempt from the journal.

## How the model is built

- `CampaignState`, `FullRoster`: the domain operations as functions of the aggregate, the
  rules every reachable aggregate keeps, and what full-roster eligibility means.
  `EditLaws` and `RosterVerdicts` say what the operations and verdicts are without naming
  their functions. `CampaignStateMachine` is the same domain as an object changed in place
  with rollback.
- `ByteCodec`, `CampaignCoreCodec`, `CodecBuffers`: the core-state and snapshot-intent
  formats byte by byte, as grammar functions and as the bounded writer and reader objects.
- `CommandPayload`, `MutationIds`, `SlotNames`: command payloads, the reserved mutation
  identities, and the slot hash (64-bit FNV-1a, section 2 of draft-eastlake-fnv).
  `WireFormats`: samples of all of these byte for byte.
- `CampaignStore`: the store's mutations. `CampaignHistory`: a strict automaton that
  replays a journal into a history and accepts exact records only.
- `RuntimeModel`: every operation of the service as a function of the durable and volatile
  state. Its `calls` argument is the number of store calls that succeed before one fails,
  so an operation may stop in its middle; `Restart` then is a crash at that point.
  `RuntimeService` has the store and the service as objects whose methods update their
  fields in place and are proved equal to these functions.
- `OperationShapes`, `RuntimeInvariants`, `RecoveryRebuild`, `RuntimeSafety`,
  `RecoverySafety`, `RuntimeRuns`, `OpenAttempt`: every run of the service, with restarts
  and failing calls anywhere, keeps the store equal to the projection of its replayed
  journal, and an open attempt open until it is completed.
- `RecoveryTheorems`, `JournalGrammar`, `BarrierFreshness`, `CheckpointTheorems`,
  `RetryTransparency`: what follows for every run. `CheckpointProgress` and
  `RecoveryProgress`: from which states a checkpoint and a recovery can still be finished.
- `EditAnswers`, `CheckpointAnswers`, `RecoveryAnswers`, `BarrierAnswers`,
  `RecoveryMessages`: for every state a run reaches, what each operation answers, what it
  leaves and what it sends, said of the replayed history. `CheckpointEnds`: what ends the
  activity of a checkpoint. `FailingCalls`: what repeating a step does whose store failed.
- `RecoveryClient`, `RecoveryClientState`, `RecoveryClientRuns`, `RecoveryGate`,
  `RecoveryComposition`: the client's state machine, alone, over sequences of events with
  the lock on the player's game, and composed with the server over a network that repeats,
  reorders and loses messages.
- `RecoveryRelease`, `RecoveryFollow`, `LostCompletion`, `CampaignScenario`: which clients
  can still be released from an open attempt when the client's own member reports only
  what its game has done, and how a client gets beyond release.
- `CampaignAdmission`, `AdmissionLaws`, `RosterLoss`, `LoadRequests`, `CampaignCreation`: the
  connection table, disconnects, requests to load a campaign, and creating one once.
- `SaveProvenance`, `ProvenanceEvents` and `SaveProvenanceThread`: quick-save tokens under
  any interleaving of threads. `IdentityStore`: the client's local files. `StringCache` and
  `StringCacheObject`: the replicated string table. `LobbyDirectory`: the join codes.

Hypotheses that the contracts state where they use them:

- No two slots of the sealed roster share a hash (`SlotsApart`, on the last state of a
  run). `SlotNames` proves it of every roster the server names itself.
- The store takes the texts of a checkpoint's acknowledgements (`NamesFit`), without which
  it cannot be committed: `CommitIff`. `SlotNames` proves it of the server's names for
  checkpoints of at most 105 bytes.

Hypotheses built into the model's types:

- One campaign: the service's maps are keyed by campaign, and each entry is independent.
- Journal payloads are compared as commands. `CommandPayload` proves that their bytes are
  equal exactly then.
- Reserved mutation identities are compared as identities, not by their texts.
  `TextsEqualIff` says exactly which different ones share a text: acknowledgements of slots
  one of whose names ends with a dash and the other's. `TextNamesRecord` proves that in a
  campaign whose slots the server named none do. For other slot names it is a hypothesis.
- Client mutation identities do not collide with the texts of reserved ones.
- The store compares a resent mutation by its whole request content, where the program
  compares a SHA-256 digest of it.
- Whether a save bundle parses is an arbitrary predicate of the configuration.

## What the proofs showed about the code

- At the largest version, `TransferSessionManager` and `SetReady` report a failure but keep
  the change; the roster edits do roll back, and `CommitCampaignStart` clears the manager
  it set. `RejectedUntouchedIff` gives the exact condition.
- A recovery that begins before the first checkpoint was committed fences the campaign
  for good: no run ever completes it, and the fence refuses the checkpoint it would need.
  `CanCompleteIff` gives the exact condition, `StuckBeforeCheckpoint` a run: a start and a
  roster loss.
- A client goes back in an attempt exactly when it takes a well-formed load request naming
  that attempt while it is completed, idle or merely locked (`GoesBackIff`): a late request
  for a completed attempt starts it over, directly or after a new lock.
- A client busy with one attempt turns down every other (`OtherAttemptIff`). If the
  completion it waits for is lost and the next attempt opens before it is sent again to
  that client, that attempt can never be completed: `BlockedForGood`. `CanReleaseIff` gives
  the exact condition, `StuckFromCreation` a run to such a state from the creation of any
  campaign that gets as far as a committed checkpoint. Until then the client's own repeated
  receipt gets it the completion (`AskingAgainReleases`), another member's does not
  (`RepeatsOfOthersChangeNothing`).
- A checkpoint can begin whose acknowledgements are too long for the store; it then can
  never be committed. `CommitIff` gives the exact condition, `LonePlayerLongCheckpoint` such
  a checkpoint. Only a caller of the runtime service itself can name one: the admission
  service names checkpoints with 43 characters (Code/campaign_protocol/CampaignAdmissionService.cpp:39-54,
  854).
- A member's disconnect is refused and not journaled when the load that precedes it
  fails. `DisconnectJournalsIff` gives the exact condition.
- 256 valid bindings whose identities have 253 or more characters each are saved without
  complaint but can never be loaded again; `SomeBindingsAreLost` shows some.
- Two acknowledgements can share one text; `SlotsCollideIff` says for which slots.
- Two threads can be armed with one quick-save request; only the first gets the verdict.
  `ArmedFindsPoppedIff` says when an armed thread still finds its request.

## Model

| member | source | states |
|---|---|---|
| CampaignState.RosterFaultIff | Code/campaign_runtime/CampaignState.cpp:98-157 | roster validation accepts exactly the rosters of at most ten well-formed slots (at least one when required) in which no two share a slot, player or binding |
| CampaignState.ValidateRoster | Code/campaign_runtime/CampaignState.cpp:98-157 | the loop with its three sets returns the error of the first fault in roster order |
| CampaignState.SortAscending | Code/campaign_runtime/CampaignState.cpp:159-169 | sorting a roster with distinct slots yields strictly ascending slots; with `Sort`'s own contract, a permutation of the input |
| CampaignState.AscendingUnique | Code/campaign_runtime/CampaignState.cpp:159-169 | two ascending rosters with the same slots are the same roster, so the sorted roster does not depend on how the sort works |
| CampaignState.ApplyKeepsInv | Code/campaign_runtime/CampaignState.cpp:171-384 | every operation, accepted or rejected, keeps: sorted, at most ten, unique slots, players and bindings; sealed iff past the lobby iff a manager, who is a member; nobody ready while unsealed |
| CampaignState.LobbyRunKeepsInv | Code/campaign_runtime/CampaignRuntimeService.cpp:906-1306 | these rules hold after any sequence of operations on a created lobby |
| CampaignState.SealedRunFrozen | Code/campaign_runtime/CampaignState.cpp:30-41 | once sealed, no sequence of operations unseals the roster or changes which player and binding owns which slot |
| CampaignState.VersionCountsChanges | Code/campaign_runtime/CampaignState.cpp:43-53 | the version grows by one exactly when a change is reported, a change is visible, and an unchanged success leaves the aggregate as it was |
| CampaignState.RejectedUntouchedIff | Code/campaign_runtime/CampaignState.cpp:171-384 | a rejected operation leaves the aggregate untouched iff it is not one of the listed operations that fail only because the version is the largest |
| CampaignState.RejectedUntouchedUnderInv | Code/campaign_runtime/CampaignState.cpp:171-384 | under the aggregate's rules, every rejection below the largest version, and every rejected roster edit or start at any version, leaves the aggregate untouched |
| CampaignState.RejectedReadinessStays | Code/campaign_runtime/CampaignState.cpp:348-384 | a concrete readiness change at the largest version that is refused and stays |
| CampaignStateMachine.CampaignAggregate.ReplaceRoster | Code/campaign_runtime/CampaignState.cpp:171-194 | the in-place replacement with its rollback has the effect of the domain function |
| CampaignStateMachine.CampaignAggregate.AddSlot | Code/campaign_runtime/CampaignState.cpp:196-226 | the in-place addition, with its conflict loop, has the effect of the domain function |
| CampaignStateMachine.CampaignAggregate.RemoveSlot | Code/campaign_runtime/CampaignState.cpp:228-247 | the in-place removal has the effect of the domain function |
| CampaignStateMachine.CampaignAggregate.ReplaceSlot | Code/campaign_runtime/CampaignState.cpp:249-285 | the in-place slot replacement, with its conflict loop, has the effect of the domain function |
| CampaignStateMachine.CampaignAggregate.CommitCampaignStart | Code/campaign_runtime/CampaignState.cpp:287-323 | starting seals, appoints and moves to character creation in place, or is rolled back as the code does |
| CampaignStateMachine.CampaignAggregate.TransferSessionManager | Code/campaign_runtime/CampaignState.cpp:325-346 | the in-place transfer, which does not roll back, has the effect of the domain function |
| CampaignStateMachine.CampaignAggregate.SetReady | Code/campaign_runtime/CampaignState.cpp:348-384 | the in-place readiness change, which does not roll back, has the effect of the domain function |
| EditLaws.AddIff | Code/campaign_runtime/CampaignState.cpp:196-226 | a slot is added iff the campaign is an unsealed lobby below the largest version with fewer than ten slots, and its owner is well formed and shares no slot, player or binding with anybody; the set of owners gains exactly it, nobody is ready, and nothing else changes but the version |
| EditLaws.AddConflicts | Code/campaign_runtime/CampaignState.cpp:209-222 | an addition that shares something with an owner is refused, with the error that names what it shares with the first such owner in slot order |
| EditLaws.RemoveIff | Code/campaign_runtime/CampaignState.cpp:228-247 | a slot is removed iff the campaign is an unsealed lobby below the largest version in which somebody owns it; the set of owners loses exactly that owner, nobody is ready, and nothing else changes but the version; otherwise the error says which of these fails |
| EditLaws.ReplaceIff | Code/campaign_runtime/CampaignState.cpp:249-285 | likewise the owner of a slot is exchanged for another one who shares nothing with the owners of other slots, and nobody else is; naming the owner again changes nothing |
| EditLaws.StartIff | Code/campaign_runtime/CampaignState.cpp:287-323 | a campaign starts iff it is an unsealed lobby below the largest version and the named manager is one of its players; it is then sealed as it is, in character creation, under exactly that manager |
| EditLaws.TransferIff | Code/campaign_runtime/CampaignState.cpp:325-346 | the session goes to exactly the named player iff its manager hands it over and that player is a member; nothing else changes but the version |
| EditLaws.ReadyIff | Code/campaign_runtime/CampaignState.cpp:348-384 | a member of the sealed roster changes exactly its own readiness; who owns what stays, and nothing else changes but the version |
| EditLaws.OwnersDecide | Code/campaign_runtime/CampaignState.cpp:159-169 | under the rules of the aggregate, the set of owners and the set of ready ones decide the whole roster |
| FullRoster.EligibleIff | Code/campaign_runtime/CampaignState.cpp:386-474 | eligible iff sealed, with a roster, and the admitted presences, all connected, are as a multiset exactly the roster's (campaign, slot, player, binding) identities |
| FullRoster.EligibilityIgnoresOrder | Code/campaign_runtime/CampaignState.cpp:386-474 | the verdict does not depend on the order of presences |
| FullRoster.Evaluate | Code/campaign_runtime/CampaignState.cpp:386-474 | the loop with its three sets returns the first fault in presence order, or the missing-member verdict |
| RosterVerdicts.RosterFaultIs | Code/campaign_runtime/CampaignState.cpp:98-157 | a roster is refused for its first bad slot: a malformed identity, or else the slot, the player or the binding it shares with an earlier one, in that order |
| RosterVerdicts.ImproperVerdict | Code/campaign_runtime/CampaignState.cpp:398-462 | the verdict on a sealed campaign is that on the first presence that is admitted without a connection, is no exact member, or is there twice |
| RosterVerdicts.IdentityFaultIs | Code/campaign_runtime/CampaignState.cpp:410-446 | which identity is called of the wrong campaign, player, binding or slot, and which an extra member, said of the set of owners |
| RosterVerdicts.ProperVerdict | Code/campaign_runtime/CampaignState.cpp:463-474 | when no presence is improper the campaign is complete, or the verdict is that a member is missing |
| CampaignCoreCodec.ParsePrinted | Code/campaign_runtime/CampaignCoreCodec.cpp:228-374 | what the writer prints for a valid image the reader parses back, and consumes all of it |
| CampaignCoreCodec.ParseExact | Code/campaign_runtime/CampaignCoreCodec.cpp:277-374 | a payload the reader accepts is, byte for byte, the printed form of what it read: no padding, no second spelling |
| CampaignCoreCodec.DecodeEncoded | Code/campaign_runtime/CampaignCoreCodec.cpp:249-374 | decoding an encoded aggregate with its records returns it with its roster in slot order |
| CampaignCoreCodec.DecodeEncodedAscending | Code/campaign_runtime/CampaignCoreCodec.cpp:249-374 | on a roster in slot order the round trip is the identity |
| CampaignCoreCodec.EncodeDecodedIff | Code/campaign_runtime/CampaignCoreCodec.cpp:249-374 | re-encoding a decoded payload gives the same bytes iff the payload lists its slots in ascending order |
| CampaignCoreCodec.DecodeEncodedIntent | Code/campaign_runtime/CampaignCoreCodec.cpp:376-504 | decoding an encoded snapshot intent returns the aggregate with its roster in slot order |
| CampaignCoreCodec.EncodeDecodedIntentIff | Code/campaign_runtime/CampaignCoreCodec.cpp:376-504 | re-encoding a decoded intent gives the same bytes iff its slots are in ascending order |
| CodecBuffers.CoreFits | Code/campaign_runtime/CampaignCoreCodec.cpp:28-88 | a valid aggregate never reaches the payload bound, so encoding cannot fail half way |
| CodecBuffers.IntentFits | Code/campaign_runtime/CampaignCoreCodec.cpp:28-88 | nor does its snapshot intent |
| CodecBuffers.Writer.Text | Code/campaign_runtime/CampaignCoreCodec.cpp:28-88 | the bounded text write appends exactly the length-prefixed bytes or reports failure |
| CodecBuffers.Reader.Text | Code/campaign_runtime/CampaignCoreCodec.cpp:90-171 | the text read never passes the end: it advances over exactly what the grammar reads, or fails |
| CodecBuffers.ValidateAggregate | Code/campaign_runtime/CampaignCoreCodec.cpp:184-226 | the validation loop accepts exactly the valid aggregates |
| CodecBuffers.EncodeCoreState | Code/campaign_runtime/CampaignCoreCodec.cpp:249-274 | the buffer writer produces exactly the printed core state of a valid aggregate and nothing otherwise |
| CodecBuffers.DecodeCoreState | Code/campaign_runtime/CampaignCoreCodec.cpp:277-374 | the buffer reader with its loops accepts exactly what the grammar accepts and returns the same aggregate |
| CodecBuffers.EncodeSnapshotIntent | Code/campaign_runtime/CampaignCoreCodec.cpp:376-424 | the buffer writer produces exactly the printed intent |
| CodecBuffers.DecodeSnapshotIntent | Code/campaign_runtime/CampaignCoreCodec.cpp:426-504 | the buffer reader accepts exactly what the intent grammar accepts |
| WireFormats.CoreOnTheWire | Code/campaign_runtime/CampaignCoreCodec.cpp:228-264 | the core state of a sample campaign, byte for byte: magic, codec, version, phase, manager, readiness list |
| WireFormats.IntentOnTheWire | Code/campaign_runtime/CampaignCoreCodec.cpp:376-418 | the snapshot intent of the same campaign, byte for byte |
| WireFormats.CommandOnTheWire | Code/campaign_runtime/CampaignRuntimeService.cpp:87-120 | the payload of a sample command, byte for byte: magic, name, length-prefixed fields |
| WireFormats.IdentityOnTheWire | Code/campaign_runtime/CampaignRuntimeService.cpp:558-588 | the text of a sample reserved identity, with its sixteen hexadecimal digits and its attempt |
| WireFormats.HashVectors | Code/campaign_runtime/CampaignRuntimeService.cpp:541-556 | the slot hash gives the published FNV-1a vectors of the empty text and of "a" |
| CommandPayload.PayloadInjective | Code/campaign_runtime/CampaignRuntimeService.cpp:87-120 | two different commands never have the same payload bytes, across kinds and however their fields are cut |
| CommandPayload.DecodedIff | Code/campaign_runtime/CampaignRuntimeService.cpp:158-193 | a payload decodes to a roster iff the roster is valid and the payload is, byte for byte, that of a campaign created with it |
| CommandPayload.DecodeCreateCampaignPayload | Code/campaign_runtime/CampaignRuntimeService.cpp:158-193 | the decoding loop accepts exactly what the payload grammar accepts |
| MutationIds.StableIdHash | Code/campaign_runtime/CampaignRuntimeService.cpp:541-556 | the hashing loop computes FNV-1a |
| MutationIds.OneByteApart | Code/campaign_runtime/CampaignRuntimeService.cpp:541-556 | identities of one length that differ in a single byte never collide |
| MutationIds.TextsEqualIff | Code/campaign_runtime/CampaignRuntimeService.cpp:483-498 | two reserved mutation identities have one text iff they are the same, or acknowledgements whose texts differ only in where the checkpoint ends and the slot begins |
| MutationIds.SlotsCollideIff | Code/campaign_runtime/CampaignRuntimeService.cpp:483-498 | for two different slots, some checkpoints give their acknowledgements one text iff the name of one ends with a dash and the name of the other |
| MutationIds.AcknowledgementsCanCollide | Code/campaign_runtime/CampaignRuntimeService.cpp:483-498 | a concrete pair of acknowledgements, both taken by the store, that share a text |
| MutationIds.StorableIff | Code/campaign_persistence/sqlite/SqliteValidation.cpp:12-22 | the identities the store is modelled to take are those whose text and whose checkpoint and slot are printable and at most 128 bytes long; every identity of a recovery is |
| SlotNames.TwoBytesApart | Code/campaign_runtime/CampaignRuntimeService.cpp:541-556 | identities that differ in their last two bytes, the first of them in its lowest bit only, never collide |
| SlotNames.NamesNeverCollide | Code/campaign_protocol/CampaignAdmissionService.cpp:578-595 | no two of the ten names the server gives to slots share a hash |
| SlotNames.ServerNamesAreApart | Code/campaign_protocol/CampaignAdmissionService.cpp:499-510 | so the hash hypothesis holds of every roster named by the server |
| SlotNames.TextNamesRecord | Code/campaign_persistence/sqlite/SqliteJournalOutbox.cpp:11-41 | in a campaign whose slots the server named, a reserved identity and a record of the journal have one text iff the record is of that identity |
| SlotNames.ServerNamesFitIff | Code/campaign_persistence/sqlite/SqliteValidation.h:14 | with the server's slot names the store takes all acknowledgements of a checkpoint iff its own identity is valid and at most 105 bytes long |
| CampaignHistory.ReplayIsSound | Code/campaign_runtime/CampaignRuntimeService.cpp:372-428 | every journal the automaton accepts yields a sound history: a campaign under the domain rules, checkpoints with the roster of the sealed campaign, exact proofs, and an attempt that stands on the last commit |
| RuntimeInvariants.CoreRevisionIsCampaignVersion | Code/campaign_runtime/CampaignRuntimeService.cpp:195-203 | the version inside the stored core state is the resulting revision of the last core-producing record |
| RuntimeInvariants.LoadAlwaysSucceeds | Code/campaign_runtime/CampaignRuntimeService.cpp:205-338 | the stored core state always decodes at the preferred revision, so the ancestor walk is never needed, and the loaded aggregate is the replayed campaign at the current revision |
| RuntimeInvariants.JournalIsAccounted | Code/campaign_runtime/CampaignRuntimeService.cpp:430-469 | every mutation identity in an accepted journal has had its effect in the history, which is what makes resends answerable and new identities new |
| RecoveryRebuild.ScanFindsAttempt | Code/campaign_runtime/CampaignRuntimeService.cpp:678-830 | the journal scan ends with the open attempt of the replayed history, its acknowledgement records and its restore, and never reports broken evidence |
| RecoveryRebuild.RebuildIsExact | Code/campaign_runtime/CampaignRuntimeService.cpp:678-883 | rebuilding never fails on a standing store; it gives the durable part of the open attempt in its lock with empty barriers, and nothing when none is open |
| RuntimeSafety.EditKeeps | Code/campaign_runtime/CampaignRuntimeService.cpp:964-1306 | every roster, start, manager or readiness command, ending anywhere, keeps the store equal to its replayed journal and the service in step with it |
| RuntimeSafety.BeginCheckpointKeeps | Code/campaign_runtime/CampaignRuntimeService.cpp:1308-1402 | so does beginning a checkpoint |
| RuntimeSafety.CommitStands | Code/campaign_persistence/sqlite/SqliteCheckpointStore.cpp:705-880 | committing once every slot has an exact proof writes a record the automaton accepts and exactly the projection it prescribes; a refused commit writes nothing |
| RuntimeSafety.RecordSaveKeeps | Code/campaign_runtime/CampaignRuntimeService.cpp:1404-1577 | recording a save, up to and including the commit, keeps the same invariant |
| RecoverySafety.FullBarrier | Code/campaign_runtime/CampaignRuntimeService.cpp:2098-2102 | a set of roster slots as large as the roster is the whole roster: the size tests are full coverage |
| RecoverySafety.BeginRecoveryKeeps | Code/campaign_runtime/CampaignRuntimeService.cpp:1678-1830 | beginning or re-entering a recovery keeps the invariant |
| RecoverySafety.PrepareKeeps | Code/campaign_runtime/CampaignRuntimeService.cpp:1832-1960 | preparing an attempt keeps the invariant |
| RecoverySafety.RestoreIsJournaled | Code/campaign_runtime/CampaignRuntimeService.cpp:2104-2134 | an attempt that has a restore has its record in the journal, so the restore is found and reused, never written twice |
| RecoverySafety.RestoreStands | Code/campaign_persistence/sqlite/SqliteCheckpointStore.cpp:882-1166 | the restore writes the rebased core state, its record is accepted, and the store equals the projection of the restored history |
| RecoverySafety.RecordLoadedKeeps | Code/campaign_runtime/CampaignRuntimeService.cpp:1962-2228 | a load report, up to and including the restore, keeps the invariant |
| RecoverySafety.RecordAppliedKeeps | Code/campaign_runtime/CampaignRuntimeService.cpp:2230-2422 | a snapshot report, up to and including the completion, keeps the invariant |
| RuntimeRuns.ExecExtends | Code/campaign_persistence/sqlite/SqliteJournalOutbox.cpp:74-115 | whatever state the store is in, a step only appends to the journal and a sealed roster stays sealed with its slots |
| RuntimeRuns.EveryRunIsValid | Code/campaign_runtime/CampaignRuntimeService.cpp:672-2422 | every run from a created lobby, with restarts and failing store calls anywhere, ends in a valid state |
| OpenAttempt.OpenAttemptStays | Code/campaign_runtime/CampaignRuntimeService.cpp:1678-2422 | whatever the step, an open attempt stays the open one, with its checkpoint and its acknowledgements, unless the step is the receipt that completes it |
| RecoveryTheorems.RunFollows | Code/campaign_runtime/CampaignRuntimeService.cpp:672-2422 | over every run the history only moves forward: saved campaigns and proofs stay, committed checkpoints are frozen, an attempt's acknowledgements only grow |
| RecoveryTheorems.RestartTransparency | Code/campaign_runtime/CampaignRuntimeService.cpp:678-883 | a restart at any moment rebuilds exactly the lost activity without its volatile part; a checkpoint that was active leaves no recovery |
| RecoveryTheorems.RestoreMeansCheckpoint | Code/campaign_runtime/CampaignRuntimeService.cpp:2135-2212 | take a checkpoint, let any run follow, recover it: what the service then loads is the aggregate of the checkpoint, changed only in its version, which is the restore revision |
| RecoveryTheorems.ChoiceIsPinned | Code/campaign_runtime/CampaignRuntimeService.cpp:1899-1946 | within one attempt, over any run and across restarts, the chosen checkpoint, its source revision and the restore never change and durable acknowledgements never shrink |
| JournalGrammar.OpenAttemptUnfolds | Code/campaign_runtime/CampaignRuntimeService.cpp:2061-2134 | the journal of an open attempt is: begin, one load per acknowledged slot, then, if restored, all slots' loads, one restore, one application per acknowledged slot, and nothing else |
| JournalGrammar.CompletedAttempt | Code/campaign_runtime/CampaignRuntimeService.cpp:2353-2412 | a completion record proves the whole attempt: begin, one load per roster slot, one restore, one application per roster slot, with nothing in between |
| BarrierFreshness.FirstBarrierIsFresh | Code/campaign_runtime/CampaignRuntimeService.cpp:1697-1720 | a service that applies a snapshot has seen every member prove its load, to a service prepared for it, since the last roster loss, repeated request or restart |
| BarrierFreshness.SecondBarrierIsFresh | Code/campaign_runtime/CampaignRuntimeService.cpp:2353-2412 | the report that completes an attempt is the last of a full set of applications, each to a service applying the snapshot, since the last roster loss, repeated request or restart |
| CheckpointTheorems.OneFenceAtATime | Code/campaign_runtime/CampaignRuntimeService.cpp:1308-1330 | an active checkpoint and an open recovery, even one not rebuilt yet, never exist together |
| CheckpointTheorems.FencedCommandsChangeNothing | Code/campaign_runtime/CampaignRuntimeService.cpp:886-904 | while either exists, every roster, phase, manager and readiness command is refused and changes nothing durable |
| CheckpointTheorems.NeverActiveAgain | Code/campaign_runtime/CampaignRuntimeService.cpp:1308-1402 | a stored checkpoint never becomes the active one again |
| CheckpointTheorems.DeadStaysDead | Code/campaign_runtime/CampaignRuntimeService.cpp:1308-1577 | a saved checkpoint that is neither committed nor active is never committed by any later run |
| CheckpointTheorems.CommittedForever | Code/campaign_persistence/sqlite/SqliteCheckpointStore.cpp:705-880 | a committed checkpoint is never changed or committed again by any later run |
| CheckpointTheorems.CommitCapturesCampaign | Code/campaign_runtime/CampaignRuntimeService.cpp:1482-1577 | a report that commits selects a checkpoint whose decoded snapshot is the campaign as it now loads, with an exact proof under the one save identity for every roster slot, and clears the activity |
| CheckpointEnds.ActivityEndsIff | Code/campaign_runtime/CampaignRuntimeService.cpp:1308-1830 | in every valid state, an active checkpoint stops being active iff the step abandons it, is a restart, is a stored member's failure report about it, is an accepted loss or requested load, or is the report that commits it; every other step leaves the activity as it was |
| CheckpointEnds.GivenUpIsDead | Code/campaign_runtime/CampaignRuntimeService.cpp:1641-1659 | each of these steps but the commit leaves the checkpoint dead |
| CheckpointEnds.GivenUpNeverCommits | Code/campaign_runtime/CampaignRuntimeService.cpp:1579-1659 | after a failure report, an abandonment, a restart or an accepted loss or load request, no later run commits the checkpoint that was active |
| CheckpointProgress.CheckpointCanCommit | Code/campaign_runtime/CampaignRuntimeService.cpp:1404-1577 | from any state in which a checkpoint is active, with revisions left and its acknowledgements short enough for the store, one exact proof for each slot still missing one, or one repeated proof if none is, commits it and leaves the service idle |
| CheckpointProgress.CommitIff | Code/campaign_runtime/CampaignRuntimeService.cpp:1404-1577 | given exact proofs, some run commits an active checkpoint iff the store takes the texts of all its acknowledgements and has a revision left for each missing proof and for the commit |
| CheckpointProgress.NewProofSaved | Code/campaign_persistence/sqlite/SqliteCheckpointStore.cpp:485-703 | a slot's first proof is accepted under a fresh mutation at the next revision and changes that slot alone |
| CheckpointProgress.KnownProofSaved | Code/campaign_persistence/sqlite/SqliteCheckpointStore.cpp:485-703 | a slot's own proof, given again, is accepted and changes nothing |
| RecoveryProgress.RecoveryCanComplete | Code/campaign_runtime/CampaignRuntimeService.cpp:1678-2422 | from any state with an open attempt, after whatever losses, restarts and failures, with a committed checkpoint, a revision left and everybody present: one lock, one preparation, and one load report and one receipt of each member in turn complete it |
| RecoveryProgress.CanCompleteIff | Code/campaign_runtime/CampaignRuntimeService.cpp:1905-1927 | with everybody present, some run completes an open attempt iff a checkpoint was committed before it and it is restored or has a revision left to restore at |
| RecoveryProgress.StuckForever | Code/campaign_runtime/CampaignRuntimeService.cpp:1908-1918 | an attempt without a committed checkpoint, or without a revision to restore at, stays open and fenced over every run |
| RetryTransparency.SuccessIsAnswered | Code/campaign_runtime/CampaignRuntimeService.cpp:372-428 | a command that succeeds is answered by the journal at the revision it was told |
| RetryTransparency.ResendIsInvisible | Code/campaign_runtime/CampaignRuntimeService.cpp:430-469 | with no fence up, a resend gets the first answer and changes nothing at all, whatever happened since |
| RetryTransparency.ReuseIsConflict | Code/campaign_runtime/CampaignRuntimeService.cpp:430-469 | the same mutation identity with another revision or other content is always a conflict and changes nothing |
| RetryTransparency.RetriesLeaveNoTrace | Code/campaign_runtime/CampaignRuntimeService.cpp:964-1306 | a run from which any resends of succeeded commands are left out ends in exactly the same state |
| EditAnswers.LooksAlways | Code/campaign_runtime/CampaignRuntimeService.cpp:678-883 | in every valid state two store calls are enough to know the open attempt: what was known, or else the durable part of what the journal has, and nothing else changes |
| EditAnswers.FencedAnswer | Code/campaign_runtime/CampaignRuntimeService.cpp:885-904 | while a checkpoint is active or a recovery open, an edit is told which of them, and the store stays |
| EditAnswers.StaleAnswer | Code/campaign_runtime/CampaignRuntimeService.cpp:340-370 | with no fence up, a new edit under another revision than the campaign's is told the right one and changes nothing |
| EditAnswers.NewEditAnswer | Code/campaign_runtime/CampaignRuntimeService.cpp:964-1306 | with no fence up, a new edit at the campaign's revision gets the error of its domain operation, or is refused for its name or for lack of a revision; otherwise exactly one record is journaled, the campaign becomes what the operation makes of it, and the reply names the new revision |
| CheckpointAnswers.BeginCheckpointAnswer | Code/campaign_runtime/CampaignRuntimeService.cpp:1308-1402 | with no fence up, a checkpoint begins iff it carries the save identity made from its own, everybody of the sealed roster is present, it is new, its text fits the store and a revision is left; it captures the campaign as it is and has no proof; otherwise the reply says which fails and nothing changes |
| CheckpointAnswers.NewSaveAnswer | Code/campaign_runtime/CampaignRuntimeService.cpp:1440-1577 | a member's first exact proof is stored under the next revision, unless the store refuses its text or has no revision left; the checkpoint is committed iff no proof is missing then and one more revision is left |
| CheckpointAnswers.KnownSaveAnswer | Code/campaign_runtime/CampaignRuntimeService.cpp:1440-1577 | a member's proof given again is answered as it was and may commit; another proof for that slot is a conflict and changes nothing |
| CheckpointAnswers.SaveRefused | Code/campaign_runtime/CampaignRuntimeService.cpp:1445-1480 | a report by somebody who is not a stored member, or without an exact proof, is refused and changes nothing |
| CheckpointAnswers.FailAnswer | Code/campaign_runtime/CampaignRuntimeService.cpp:1579-1653 | a stored member's failure report about the active checkpoint clears the activity and leaves the store alone; every other one is told why not and leaves the activity as it was |
| RecoveryAnswers.BeginAnswer | Code/campaign_runtime/CampaignRuntimeService.cpp:1722-1822 | with no attempt open, a loss opens one iff the campaign is running and sealed, the member is on its roster and the roster is not full, and a requested load iff it is full; the active checkpoint is given up, the history gains exactly that attempt with that cause, and one record is journaled; otherwise the reply says which fails and nothing changes |
| RecoveryAnswers.RelockAnswer | Code/campaign_runtime/CampaignRuntimeService.cpp:1697-1720 | while an attempt is open, known or not, either takes it back to its lock with both barriers empty and the new cause, and journals nothing |
| RecoveryAnswers.PrepareAnswer | Code/campaign_runtime/CampaignRuntimeService.cpp:1832-1960 | a preparation waits for the full roster; it then has the restored snapshot sent again while it is being applied, and otherwise makes everybody load the committed checkpoint, if there is one |
| BarrierAnswers.LoadRefused | Code/campaign_runtime/CampaignRuntimeService.cpp:1970-2060 | which load report is refused, with which error and what it leaves of the attempt: another attempt, a roster that is not full, somebody not on it, a failed load, a wrong proof, a locked attempt |
| BarrierAnswers.LoadAnswer | Code/campaign_runtime/CampaignRuntimeService.cpp:2061-2220 | while loads are collected, a load report that passes counts its member once; the one that completes the roster finds or writes the restore and has the snapshot sent |
| BarrierAnswers.LateLoadAnswer | Code/campaign_runtime/CampaignRuntimeService.cpp:2083-2091 | after the restore, a load report that passes changes nothing and has the restored snapshot sent again |
| BarrierAnswers.ReceiptRefused | Code/campaign_runtime/CampaignRuntimeService.cpp:2300-2352 | which receipt is refused while an attempt is open, and with which error |
| BarrierAnswers.ReceiptAnswer | Code/campaign_runtime/CampaignRuntimeService.cpp:2353-2412 | a receipt that passes counts its member once; the one that completes the roster ends the attempt |
| BarrierAnswers.LateReceiptAnswer | Code/campaign_runtime/CampaignRuntimeService.cpp:2243-2298 | with no attempt open, a member's receipt is told that its attempt is completed iff the journal holds that completion; nothing changes |
| FailingCalls.StepsResume | Code/campaign_runtime/CampaignRuntimeService.cpp:678-2430 | wherever the store fails in the middle of any step of a valid service, the step has done all of it, or doing it again brings the store and the activity to where doing it at once would have |
| FailingCalls.EditAllOrNothing | Code/campaign_runtime/CampaignRuntimeService.cpp:964-1306 | an edit whose store call fails reports the failure and leaves everything as it was |
| FailingCalls.SavesAgain | Code/campaign_runtime/CampaignRuntimeService.cpp:1440-1577 | a save report cut short reports the failure, and repeated gives the state, the commit and the answer it would have given, but for whether the proof was new |
| FailingCalls.BeginsAgain | Code/campaign_runtime/CampaignRuntimeService.cpp:1666-1830 | a loss or load request cut short, whatever it has ended by then, opens the same attempt with the same answer when it is repeated |
| FailingCalls.LoadsAgain | Code/campaign_runtime/CampaignRuntimeService.cpp:1963-2230 | a load report cut short may have counted its member already; repeated, it fires the same restore with the same answer |
| FailingCalls.ReceiptsAgain | Code/campaign_runtime/CampaignRuntimeService.cpp:2231-2430 | likewise a receipt and the completion |
| RuntimeService.ScanForAttempt | Code/campaign_runtime/CampaignRuntimeService.cpp:687-789 | the scan loop over the journal, with its early failures, gives the scan of the whole journal |
| RuntimeService.RecoverDurableSlots | Code/campaign_runtime/CampaignRuntimeService.cpp:809-841 | the loop that matches acknowledgement records with checkpoint slots collects exactly the acknowledged slots or reports a failure |
| RuntimeService.CampaignRuntimeService.LoadAggregate | Code/campaign_runtime/CampaignRuntimeService.cpp:264-338 | the two store calls and the decoding give the model's aggregate or its failure |
| RuntimeService.CampaignRuntimeService.ReconstructRecovery | Code/campaign_runtime/CampaignRuntimeService.cpp:678-883 | rebuilding in place is the model's rebuilding, with every store failure |
| RuntimeService.CampaignRuntimeService.CheckMutationFence | Code/campaign_runtime/CampaignRuntimeService.cpp:885-904 | the fence is the model's fence |
| RuntimeService.CampaignRuntimeService.EditCampaign | Code/campaign_runtime/CampaignRuntimeService.cpp:964-1306 | the shared course of the six editing commands is the model's |
| RuntimeService.CampaignRuntimeService.BeginCheckpoint | Code/campaign_runtime/CampaignRuntimeService.cpp:1308-1402 | beginning a checkpoint updates the activity and the store as the model says |
| RuntimeService.CampaignRuntimeService.RecordCheckpointSave | Code/campaign_runtime/CampaignRuntimeService.cpp:1404-1577 | recording a save and committing update the activity and the store as the model says |
| RuntimeService.CampaignRuntimeService.FailCheckpoint | Code/campaign_runtime/CampaignRuntimeService.cpp:1579-1653 | failing a checkpoint in place is the model's; FailAnswer says what that is |
| RuntimeService.CampaignRuntimeService.BeginRecovery | Code/campaign_runtime/CampaignRuntimeService.cpp:1678-1830 | opening or re-entering an attempt updates the service and the store as the model says |
| RuntimeService.CampaignRuntimeService.PrepareRecovery | Code/campaign_runtime/CampaignRuntimeService.cpp:1832-1960 | preparing chooses the checkpoint and the dispatch as the model says |
| RuntimeService.CampaignRuntimeService.RecordRecoveryLoaded | Code/campaign_runtime/CampaignRuntimeService.cpp:1962-2228 | a load report updates both slot sets, fires the first barrier and restores as the model says |
| RuntimeService.CampaignRuntimeService.RecordRecoverySnapshotApplied | Code/campaign_runtime/CampaignRuntimeService.cpp:2230-2422 | a snapshot report updates both slot sets, fires the second barrier and completes as the model says |
| RecoveryClientRuns.GoesBackIff | Code/campaign_client/CampaignRecoveryState.cpp:18-114 | over every sequence of events, a client is at some moment less far in an attempt than before iff it takes a well-formed load request naming that attempt while completed, idle or merely locked |
| RecoveryClientRuns.BelowAgainIff | Code/client/Services/Generic/CampaignRecoveryService.cpp:148-219 | a client that completed an attempt is in it and below its completion again iff it takes such a request, also when a new lock has made it forget the attempt before |
| RecoveryClientRuns.NoWayBack | Code/campaign_client/CampaignRecoveryState.cpp:69-169 | between such requests a client in an attempt has been in it, no further than now, with the same checkpoint and source and, once applied, the same restore |
| RecoveryClientRuns.OtherAttemptIff | Code/campaign_client/CampaignRecoveryState.cpp:81-114 | a well-formed load request of another attempt is started iff the client is completed, idle or locked on this campaign; otherwise it is rejected and stage and attempt stay |
| RecoveryClient.LateLoadRequestRestarts | Code/client/Services/Generic/CampaignRecoveryService.cpp:148-219 | a late load request starts a completed attempt over: the service locks again before it looks at the request |
| RecoveryClientState.CampaignRecoveryState.ObserveLoadRequest | Code/campaign_client/CampaignRecoveryState.cpp:81-114 | the in-place state machine takes the model's transition and action on a load request |
| RecoveryClientState.CampaignRecoveryState.ObserveSnapshot | Code/campaign_client/CampaignRecoveryState.cpp:125-141 | likewise on a snapshot |
| RecoveryClientState.CampaignRecoveryState.ObserveComplete | Code/campaign_client/CampaignRecoveryState.cpp:154-169 | likewise on a completion |
| RecoveryClientState.CampaignRecoveryState.ObserveAuthoritativeActive | Code/campaign_client/CampaignRecoveryState.cpp:44-67 | likewise on the news that the campaign is active |
| RecoveryGate.LockFollowsStage | Code/client/Services/Generic/CampaignRecoveryService.cpp:66-219 | over every sequence of events the player's game is locked exactly while the client is neither idle nor completed |
| RecoveryGate.UnlockedByCompletion | Code/client/Services/Generic/CampaignRecoveryService.cpp:385-435 | over every sequence of events, a client that has entered an attempt and finds its game unlocked has taken that attempt's exact completion, and was locked and in the attempt until then |
| RecoveryGate.UnlockedIff | Code/campaign_client/CampaignRecoveryState.cpp:154-169 | one event unlocks a client that has entered an attempt iff it is the completion of the attempt, checkpoint and restore it has applied |
| RecoveryGate.LoadRequestActions | Code/campaign_client/CampaignRecoveryState.cpp:81-114 | a load request is started by a free client and by one whose load failed, answered with the load result again by one that has loaded, ignored while loading, and rejected otherwise, with the state it leaves |
| RecoveryGate.SnapshotActions | Code/campaign_client/CampaignRecoveryState.cpp:125-141 | a snapshot is applied by a client that has loaded, answered with the receipt again by one that has applied it, and rejected otherwise |
| RecoveryGate.CompletionActions | Code/campaign_client/CampaignRecoveryState.cpp:154-169 | a completion releases exactly a client that has applied that restore of that attempt, also when it is repeated |
| RecoveryGate.ActiveActions | Code/campaign_client/CampaignRecoveryState.cpp:44-67 | the news of an active campaign makes a client that has applied its snapshot send the receipt again and releases one locked without the server's word |
| RecoveryComposition.WorldsBeginSound | Code/campaign_runtime/CampaignRuntimeService.cpp:906-962 | a created campaign, an empty network and a new client satisfy the joint invariant |
| RecoveryComposition.EveryWorldIsSound | Code/server/Services/CampaignProtocolService.cpp:1465-1655 | every run of server, network and client keeps it: every message in the client's network is backed by the journal, and what the client holds it has received and done |
| RecoveryComposition.ReleaseMeansEveryone | Code/campaign_client/CampaignRecoveryState.cpp:154-169 | a player whose game is unlocked although the client has entered an attempt loaded and applied exactly this attempt and restore, and the journal holds the completion with, for every member of the roster, one load before the one restore and one application after it |
| RecoveryRelease.HonestRunKeeps | Code/client/Services/Generic/CampaignRecoveryService.cpp:148-219 | when the client's member reports only what its game has done, every run keeps: each message, the client and its deeds fit the history, a deed of the open attempt shows in the client's stage, and the member counts for the second barrier only if its client applied the snapshot |
| RecoveryRelease.BlockedForGood | Code/campaign_client/CampaignRecoveryState.cpp:81-169 | an attempt whose client is busy with another one that nothing in the network lets it finish stays open and the client stays caught, over every such run |
| RecoveryFollow.CanReleaseIff | Code/campaign_client/CampaignRecoveryState.cpp:81-169 | with an attempt open that the service can complete and everybody present, some such run unlocks the client's game with it iff the client is completed, idle, merely locked, in this attempt already, or in another one that the messages still in the network let it finish |
| RecoveryFollow.AskingAgainReleases | Code/server/Services/CampaignProtocolService.cpp:1632-1646 | while no attempt is open, a client that applied the snapshot of a completed attempt and missed the completion is unlocked by its member's repeated receipt |
| RecoveryFollow.RepeatsOfOthersChangeNothing | Code/campaign_runtime/CampaignRuntimeService.cpp:2243-2298 | while no attempt is open, whatever receipts other members repeat, the service stays as it is and nothing is sent to this client |
| RecoveryMessages.SentOnPrepare | Code/server/Services/CampaignProtocolService.cpp:369-412 | exactly which message a preparation sends: the restored snapshot, the load request of the committed checkpoint, or none |
| RecoveryMessages.SentOnLoad | Code/server/Services/CampaignProtocolService.cpp:1465-1655 | before the restore, the load report that completes the roster has exactly the restored snapshot sent, and every other one nothing |
| RecoveryMessages.SentOnLateLoad | Code/campaign_runtime/CampaignRuntimeService.cpp:2083-2091 | after the restore, a repeated load report has exactly the restored snapshot of its attempt sent, and leaves the store and the activity as they are |
| RecoveryMessages.SentOnReceipt | Code/server/Services/CampaignProtocolService.cpp:1632-1646 | the receipt that completes the roster has the completion sent to everybody, a later one for a completed attempt to its own member, and every other receipt sends nothing |
| RecoveryMessages.AskingAgainApplies | Code/campaign_runtime/CampaignRuntimeService.cpp:2083-2091 | while the snapshot is applied and everybody is present, a client that has loaded and whose snapshot was lost gets and applies it after its member's repeated load report |
| LostCompletion.LostCompletionBlocks | Code/campaign_runtime/CampaignRuntimeService.cpp:2230-2422 | from every idle campaign with a committed checkpoint some such run leads to a blocked attempt that the service itself could complete: one recovery whose completion message is lost, and one more roster loss |
| CampaignScenario.StuckFromCreation | Code/campaign_runtime/CampaignRuntimeService.cpp:906-962 | and so from the creation of every campaign that can get as far as a committed checkpoint |
| CampaignScenario.LonePlayerCanBeStuck | Code/campaign_runtime/CampaignRuntimeService.cpp:906-962 | which a campaign of one player can, whatever the configuration |
| CampaignScenario.StuckBeforeCheckpoint | Code/campaign_runtime/CampaignRuntimeService.cpp:1908-1918 | every created campaign that starts and then loses a member has an open attempt that no run completes |
| CampaignScenario.LongCheckpointNeverCommits | Code/campaign_persistence/sqlite/SqliteValidation.h:14 | in every idle, started campaign with slots named by the server a checkpoint with a new identity of 106 to 110 bytes begins and no run commits it |
| CampaignScenario.LonePlayerLongCheckpoint | Code/campaign_persistence/sqlite/SqliteValidation.h:14 | a concrete such checkpoint, from the creation of a campaign of one player on |
| CampaignAdmission.CampaignAdmissionService.RegisterConnection | Code/campaign_protocol/CampaignAdmissionService.cpp:154-186 | registration keeps handles and players unique and admitted identities with their own player, and adds exactly the new record when it is accepted |
| CampaignAdmission.CampaignAdmissionService.Resume | Code/campaign_protocol/CampaignAdmissionService.cpp:635-694 | resuming admits the connection as the exact slot of its player, or changes nothing |
| CampaignAdmission.LossIsObserved | Code/campaign_protocol/CampaignAdmissionService.cpp:372-420 | the presences that remain after an admitted member's disconnect are never a full roster |
| CampaignAdmission.RecipientsIff | Code/campaign_protocol/CampaignAdmissionService.cpp:244-323 | for distinct checkpoint slots, recipients are found iff there are one to ten slots and the admitted connections are a one-to-one match with them, listed in slot order; the duplicate-admission error is unreachable |
| CampaignAdmission.CampaignAdmissionService.PrepareRecoveryRecipients | Code/campaign_protocol/CampaignAdmissionService.cpp:244-323 | the counting and matching loops give that plan |
| AdmissionLaws.RegisterIff | Code/campaign_protocol/CampaignAdmissionService.cpp:154-186 | a player connects iff its identity is well formed and the connection is new for a player not connected yet, or already that player's; the set of records gains at most one, which knows nothing else |
| AdmissionLaws.MissingIs | Code/campaign_protocol/CampaignAdmissionService.cpp:263-300 | a plan that fails names the first slot in order whose member is not admitted |
| RosterLoss.DisconnectJournalsIff | Code/campaign_protocol/CampaignAdmissionService.cpp:372-420 | a disconnect opens an attempt and gives up the active checkpoint iff none is open, the store answers three calls of the load and four of the report and has a revision left, the campaign has an active checkpoint or its full roster, and its roster has the member and is not full without it; otherwise the store stays as it was |
| RosterLoss.DisconnectLocks | Code/campaign_protocol/CampaignAdmissionService.cpp:384-413 | so a member of a full roster that disconnects with no attempt open locks the campaign iff the store answers those calls and has a revision left |
| RosterLoss.DisconnectRelocks | Code/campaign_runtime/CampaignRuntimeService.cpp:1697-1720 | while an attempt is open, rebuilt or not, a disconnect takes it back to its lock, empties both barriers and journals nothing |
| LoadRequests.LoadRequestOpensIff | Code/campaign_protocol/CampaignAdmissionService.cpp:947-986 | with no attempt open, an admitted member's request to load the campaign opens one iff everybody of the sealed roster is connected, the store answers three calls of the load and four of the recovery and has a revision left; an active checkpoint is given up and the history gains exactly that attempt; otherwise the store stays as it was |
| LoadRequests.LoadCampaignAnswer | Code/campaign_runtime/CampaignRuntimeService.cpp:2436-2471 | loading reports an open attempt as locked or restoring, else an active checkpoint, else whether everybody is present, and leaves only what it learned of the attempt |
| CampaignCreation.CreatedOnceAlways | Code/campaign_protocol/CampaignAdmissionService.cpp:422-527 | over every sequence of creations at most one campaign exists per player and mutation identity, so the several-campaigns error cannot occur |
| CampaignCreation.FindIff | Code/campaign_runtime/CampaignRuntimeService.cpp:2481-2556 | the lookup finds an identity iff a creation with that mutation made that player that member |
| CampaignCreation.RetriedCreate | Code/campaign_protocol/CampaignAdmissionService.cpp:422-527 | a retried creation, whatever was created in between, is answered with the same campaign, slot and binding or refused, and creates nothing |
| CampaignCreation.CreatedIff | Code/campaign_protocol/CampaignAdmissionService.cpp:422-527 | a request creates a campaign iff it comes from a party leader admitted nowhere who has no creation under that mutation identity, with well-formed identities and a new campaign; exactly one creation is added, and it makes that player and nobody else a member |
| CampaignCreation.AgainIff | Code/campaign_protocol/CampaignAdmissionService.cpp:422-527 | a request is answered with an earlier creation iff that made its player a member, who is admitted nowhere else and still holds the slot; unless it creates, nothing changes |
| CampaignCreation.FindCampaignCreation | Code/campaign_runtime/CampaignRuntimeService.cpp:2481-2556 | the lookup loop with its early failures gives that answer |
| SaveProvenance.EveryLifeIsProper | Code/campaign_client/CampaignSavePolicy.cpp:106-230 | under every interleaving each request is created once, taken and requeued, and ends once, dropped or consumed while taken; the table holds exactly the live requests in their states |
| SaveProvenance.ConsumedAtMostOnce | Code/campaign_client/CampaignSavePolicy.cpp:180-210 | after a request is consumed or dropped nothing ever happens to it again, and it is consumed only while it is taken |
| SaveProvenance.RequestsAreConserved | Code/campaign_client/CampaignSavePolicy.cpp:106-230 | Quick verdicts, dropped requests and live requests together are exactly the requests created |
| SaveProvenance.CreatedInQuickAction | Code/campaign_client/CampaignSavePolicy.cpp:115-150 | a request is created only by a successful push of the quick-save code inside a quick action |
| SaveProvenance.NoPoppedLeftBehind | Code/campaign_client/CampaignSavePolicy.cpp:152-178 | every popped request is armed on some thread, so when no thread is armed only queued requests are left |
| SaveProvenance.OnlyPoppedIsArmed | Code/campaign_client/CampaignSavePolicy.cpp:152-230 | on one thread the armed pointer is exactly the popped request |
| SaveProvenance.PoppedIff | Code/campaign_client/CampaignSavePolicy.cpp:115-230 | after every interleaving a request is popped iff some thread took it and no thread has given it up since: pushed it again, popped it as something else, or, armed with it, consumed it, popped or finished |
| SaveProvenance.ArmedFindsPoppedIff | Code/campaign_client/CampaignSavePolicy.cpp:152-210 | a thread armed with a request since some turn still finds it popped, and gets the Quick verdict if it asks, iff the request was taken then or later and no other thread has given it up after that; if no other thread took it, iff no other thread has given it up |
| SaveProvenance.TwoThreadsOnePointer | Code/campaign_client/CampaignSavePolicy.cpp:152-210 | a run in which two threads are armed with one pointer and only the first gets the verdict |
| SaveProvenance.OneManualPerScope | Code/campaign_client/CampaignSavePolicy.cpp:99-113 | while an outermost manual scope is open its thread has had one Manual verdict if it asked and none if it did not |
| SaveProvenance.ManualNeedsScope | Code/campaign_client/CampaignSavePolicy.cpp:180-187 | outside every manual scope no operation gives the Manual verdict |
| ProvenanceEvents.CreatedIff | Code/campaign_client/CampaignSavePolicy.cpp:118-155 | a request is created iff the quick-save code is pushed successfully, inside a quick action, for an address that is not tracked |
| ProvenanceEvents.TakenIff | Code/campaign_client/CampaignSavePolicy.cpp:157-186 | a tracked request is taken, and its thread armed, iff its address is popped under the quick-save code, unless the thread gives up that very request by popping |
| ProvenanceEvents.DroppedIff | Code/campaign_client/CampaignSavePolicy.cpp:118-230 | a tracked request is dropped iff its address is pushed as something else or popped as something else, or the thread armed with it, still popped, pops again or finishes |
| ProvenanceEvents.ConsumedIff | Code/campaign_client/CampaignSavePolicy.cpp:188-217 | a request is consumed, with the Quick verdict, iff a thread armed with it asks while it is popped and no Manual verdict is due |
| ProvenanceEvents.DepthIs | Code/campaign_client/CampaignSavePolicy.cpp:86-116 | over every run, the depth of a thread's quick actions, or manual saves, is the most it has begun more than ended since any moment |
| SaveProvenanceThread.CampaignSaveProvenance.ObserveQuickRequestPush | Code/campaign_client/CampaignSavePolicy.cpp:115-150 | the push updates the shared table and the thread in place as the model says |
| SaveProvenanceThread.CampaignSaveProvenance.ObserveQuickRequestPop | Code/campaign_client/CampaignSavePolicy.cpp:152-178 | so does the pop |
| SaveProvenanceThread.CampaignSaveProvenance.ConsumeProvenance | Code/campaign_client/CampaignSavePolicy.cpp:180-210 | so does asking for the verdict, which it returns |
| IdentityStore.HexRoundTrips | Code/campaign_client/CampaignIdentityStore.cpp:60-105 | bytes to hexadecimal and back is the identity within the limit, and every accepted text is the one its bytes are written as |
| IdentityStore.HexToBytes | Code/campaign_client/CampaignIdentityStore.cpp:81-105 | the pairwise loop accepts exactly even, short, lower-case text and returns its bytes |
| IdentityStore.BytesToHex | Code/campaign_client/CampaignIdentityStore.cpp:66-79 | the loop writes two digits per byte |
| IdentityStore.LoadOfSaveIff | Code/campaign_client/CampaignIdentityStore.cpp:331-459 | loading what was saved gives back the same bindings iff the text is within the size a load accepts |
| IdentityStore.ModestBindingsSurvive | Code/campaign_client/CampaignIdentityStore.cpp:331-459 | up to 256 bindings of at most 252 characters each always survive |
| IdentityStore.LongBindingsAreLost | Code/campaign_client/CampaignIdentityStore.cpp:331-459 | 256 bindings of 253 or more characters each are never loaded again |
| IdentityStore.SomeBindingsAreLost | Code/campaign_client/CampaignIdentityStore.cpp:331-459 | 256 distinct valid bindings of exactly 253 characters, which are saved and not loaded |
| IdentityStore.SaveBindings | Code/campaign_client/CampaignIdentityStore.cpp:423-459 | saving writes the header and one line per binding in ascending order of campaign, and refuses more than 256 |
| IdentityStore.LoadBindings | Code/campaign_client/CampaignIdentityStore.cpp:331-421 | the line loop accepts exactly the well-formed, duplicate-free files |
| IdentityStore.LoadedIff | Code/campaign_client/CampaignIdentityStore.cpp:331-421 | a file is loaded as a map iff it is within the size, begins with the header, and its other lines that are not empty are those of at most 256 well-formed entries of different campaigns, which are the entries of the map |
| StringCache.AddKeepsInverseIff | Code/encoding/StringCache.cpp:25-35 | adding keeps the two indexes exact inverses iff the string is known or its identity fits 32 bits |
| StringCache.ReplicaIsPrefix | Code/encoding/StringCache.cpp:25-77 | under any interleaving of additions, sends and deliveries the replica is a prefix of the server's table with equal identities |
| StringCache.ReplicaCatchesUp | Code/encoding/StringCache.cpp:37-77 | after any interleaving, one more send brings the replica to the whole table of the server once everything on its way has arrived |
| StringCache.ReceiverChecksHold | Code/encoding/StringCache.cpp:65-77 | both assertions of the receiver hold whenever it receives |
| StringCacheObject.StringCache.Deserialize | Code/encoding/StringCache.cpp:65-77 | the receiving loop adds the values in order; its two checks hold exactly for a contiguous update of new strings |
| StringCacheObject.StringCache.ProcessDirty | Code/encoding/StringCache.cpp:86-97 | every wanted string is added, in whatever order, and nothing else |
| LobbyDirectory.CampaignLobbyDirectory.Allocate | Code/campaign_protocol/CampaignLobbyDirectory.cpp:33-74 | an open lobby keeps its code, a new one gets the first usable generated code within the attempts, and the two maps stay exact inverses |
| LobbyDirectory.CampaignLobbyDirectory.Invalidate | Code/campaign_protocol/CampaignLobbyDirectory.cpp:152-166 | closing removes one lobby from both maps, keeps them inverse and leaves every other lobby alone |
| LobbyDirectory.UsableIff | Code/campaign_protocol/CampaignLobbyDirectory.cpp:33-74 | a generated code is chosen iff it is a code that leads to no lobby and none generated before it is |
| LobbyDirectory.CodesTellCampaigns | Code/campaign_protocol/CampaignLobbyDirectory.cpp:76-90 | two campaigns never share a code, and a code typed in either case leads to its campaign |
| LobbyDirectory.NormalizeTwice | Code/encoding/Structs/Campaign.cpp:97-117 | normalising a join code is idempotent |
| LobbyDirectory.NormalizeIff | Code/encoding/Structs/Campaign.cpp:97-117 | a join code is four letters, in either case but not I or O, or digits from 2 to 9, kept in capitals |

## Left out

- The store's argument checks other than that of identities, digests, outbox delivery, timestamps, character builds and adapter states, and the SQL itself: a store call here either has its effect or fails and changes nothing.
- CampaignState.LobbyRunKeepsInv: starts from one valid roster; deleting a campaign is not modelled.
- RuntimeRuns.EveryRunIsValid: covers one campaign; runs that mix campaigns are products of runs of one.
- CommandPayload.PayloadInjective: payload fields are taken to be shorter than 2^32 bytes, as their length prefix is.
- SaveProvenance.OneManualPerScope: the depth counters are unbounded here, 32 bits wide in the program.
- RecoveryComposition.ReleaseMeansEveryone: follows one client; reports to the server are not trusted at all, so the other members are any senders of accepted reports.
- RecoveryGate.LockFollowsStage: the lock is on or off; the gate's own states during a native load, its guard menu and the departure to the main menu, which opens it without the client, are not modelled.
- RecoveryRelease.BlockedForGood: a restart of the client's process, which would forget its attempt, is not modelled.
- MutationIds.TextsEqualIff: says nothing about client mutation identities, which the model keeps apart from reserved ones.
- IdentityStore.SaveBindings: the atomic replacement of the file, read errors, and the marker, artifact and player-identity files.
- LobbyDirectory.CampaignLobbyDirectory.Allocate: generated codes are a parameter, and exceptions are not modelled; forgetting a display name is left out as an easy member.
- Copies of activities and checkpoints inside replies, messages meant for people, and logging.
- The aggregate returned to queries, `LeaveCampaign`'s memory of a previous admission, and wire-level validation of identifiers.
- Liveness and timeouts: that members reconnect and resend. Proved is that a recovery can end, not that it does.
- `catch` handlers and allocation failure.
- `EvaluateTransition` and the other one-branch policies, the native-load evidence machine, the Helgen start barrier, the game calendar, and the quest-record audit script: easy members beside the protocol.
- Parsing of native save bundles is not part of this model.
