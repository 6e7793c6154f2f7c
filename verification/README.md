# DigiNode CC core, modelled and proved in Dafny

DigiNode CC runs a fleet of mesh radios from a controller ("Pi"). This project models the parts
of it in which a mistake is hardest to see, and proves what they are for:

- **Fleet key rotation** (`Keys`, `RecoveryCache`, `PiRadio`, `Rotation`, `Decodable`, `Healing`, `WireHashes`,
  `DispatcherHook`, `FleetService`, `Failures`). A rotation stages a new key on the controller (Phase A), moves the remotes (Phase B) and then
  promotes the controller while parking the old key in a recovery slot (Phase C). The radio, the recovery
  table and the rotation rows form one state; every handler is a step of it, and a queued job may run any
  number of times. Which admin messages arrive, which replies come back and which database writes succeed
  are arguments of each step, so a theorem over all runs is a theorem over all failures. `FleetService`
  holds the handlers themselves as methods, each proved to take exactly one such step.
- **Remote migration and the admin transaction tracker** (`Migration`, `Tracker`). Every mutex section and
  every channel operation is a separate step, and steps of all goroutines interleave freely. Frames may be
  lost, delayed and repeated, and several writers store stale copies of the same row.
- **Serial framing and the protobuf codec** (`Framing`, `Varint`, `Wire`, `MeshCodec`). The decoder state
  machine, varints on 64-bit words, and three message decoders that are instances of one fold over fields.
- **The command queue** (`Commands`, `CommandOutcomes`, `CommandRuns`, `CommandService`, `ScanMerge`). Pending commands, ack matching, STOP
  fan-out, the RAW_BLE bracket around a device scan, and the merge of scan rows.
- **Small stateful algorithms** (`Dedup`, `RateLimit`, `Geofence`).

`dafny verify dfyconfig.toml` checks everything.

## How to read it

Code that updates state in place is a class whose methods are proved against a specification; the
specification is a step relation or a function of the inputs, and the theorems are about whole runs of it.
Beside what is kept, lemmas say what each step does in the literals of the source: `CommandOutcomes`, the `Records`
lemmas of `Migration`, the field laws of `MeshCodec`, `Tracker.SendOutcome`, and the section "What the handlers do" of
`Rotation`.
The main theorems, by module:

| question | answer |
|---|---|
| Does the controller always have exactly one PRIMARY, and does staging ever hit it? | `Rotation.SlotInvAlways`, `Rotation.StepWrites` |
| Can a node left behind on an old key still be heard? | `Decodable.StillDecodable`, `Decodable.RetiredRunsAgree` |
| Can two keys be confused on the wire? | `WireHashes.HashNamesOneKey`, `Decodable.HeldHashNamesOneKey` |
| When does the dispatcher recognise a node left behind? | `DispatcherHook.HookStepIff`, `DispatcherHook.HookNamesKey` |
| Does `on_new_psk` mean that the node said so? | `Migration.MigratedMeansAnswered` |
| Can a reply be doubled, lost, or sent on a closed channel? | `Tracker.DeliveredExactlyOnce`, `Tracker.SendOkMeansAnswered`, `Tracker.GetReturnsWhatArrived` |
| Do messages survive the serial link? | `Framing.NoisyStreamDecodes`, `Framing.ChunkingIrrelevant`, `MeshCodec.MeshRoundTrip` |
| When exactly does a rotation keep its promises? | `Decodable.NextKeepsCacheIff`, `Decodable.CacheCompleteIff`, `Rotation.RetiredWithoutPromoteIff` |
| And does it come back after a failure? | `Healing.SixKeysHeal` |
| Is a command that left the queue finished? | `CommandRuns.RemovedUnfinishedIff` |
| Is every device scan bracketed? | `Commands.ScansAreBracketed`, `Commands.StopClosesItsScope` |

Assumptions that the source leaves to its surroundings: at most one rotation is open at a time and rotation
ids are fresh (`RotatePSK` does not check for another open rotation); database timestamps increase; the
fingerprint is injective on the keys that occur; a mesh packet that names a node as its sender came from
that node, and a node reports a channel only in answer to a request for one; generated ids are not in use; the clock of the filters does not run backwards. The radio's own
behaviour follows the comments beside the calls: setting a PRIMARY demotes the previous one, edits between
begin and commit apply together, and a read inside a transaction discards its edits.

## Where the code does less than it says

- Phase C reads "no PRIMARY with another key answered" as "already promoted"
  (internal/fleetsec/job_handlers.go:335-358). If the read of the PRIMARY slot fails, the rotation is marked
  retired while the radio still uses the old key. `Rotation.RetiredWithoutPromoteIff` gives the exact
  condition and `Failures.RetiredOnOldKey` a complete run from a fresh installation.
- Phase C goes on when the recovery insert fails (internal/fleetsec/job_handlers.go:386-390). If that attempt
  commits, the old key is in no slot, and an insert stored by an earlier attempt does not help, because only
  the slot returned by this attempt is written: `Failures.OldKeyForgotten`. And if an attempt stored its insert,
  lost its commit, and the next one takes the shortcut above, the table claims a slot for the current key
  that the radio does not show: `Failures.RetiredInFlight`. `Decodable.CacheCompleteIff` gives the exact
  condition over every Phase C step that retires a rotation, and `Decodable.NextKeepsCacheIff` over every
  step. `Healing.SixKeysHeal` says that six different keys demoted by clean steps repair either.
- The dispatcher's table of recovery hashes is rebuilt at startup and at the end of Phase C
  (cmd/diginode-cc/main.go:554-562, internal/fleetsec/job_handlers.go:446-449). A Phase C that finds the promote done
  (353-358), or whose mark fails (419-421), returns before that, and a failed listing is only logged. So a lost
  reply to the commit is enough for the table to miss a key that the radio holds: `Failures.HookNeverLearns`.
  `DispatcherHook.HookStepIff` gives the exact condition over every handler, `DispatcherHook.RestartIff` over a restart.
- Every second 0x94 of a run is not taken as a start byte (internal/serial/framing.go:59-66), so bytes that end in an
  odd number of them cost the frame behind them: `Framing.NoiseBeforeFrameIff`.
- `send` returns no error for an admin reply that cannot be decoded (internal/fleetsec/service.go:364-372).
  `Tracker.GetWithoutMessage` is a run in which a Get ends that way, and `Tracker.GetReturnsWhatArrived` says that
  a Get returns exactly what decoding the packet that took its transaction gave.
- An ack with an unrecognised token removes the command and leaves it SENT
  (internal/commands/service.go:458-459), and `send` may write SENT after an ack (internal/commands/service.go:836).
  `CommandRuns.UnknownTokenLeavesSent` and `CommandRuns.LateSendReopens` are runs of both, and
  `CommandRuns.RemovedUnfinishedIff` says exactly when a removed command is not finished.
- RotatePSK keeps the stored row when enqueueing Phase A fails (internal/fleetsec/channels.go:290-303), although it
  reports an error; `FleetService.Service.RotatePSK` keeps the two apart.
- The comment above the alert cache speaks of first-seen times (cmd/diginode-cc/main.go:724-727); the code refreshes the
  time on every arrival, and so does `Dedup.AlertFilter.IsDuplicateAlert`.
- The comment above `mergeScanRows` says the source of a merged row is otherwise "DEVICE"; the code keeps the
  source of the first row, and so does `ScanMerge.MergedIs`.

## Model

| member | source | states |
|---|---|---|
| `Keys.ChannelHash` | internal/fleetsec/keys.go:141-150 | the two byte loops compute the exclusive or of the name's bytes and the key's bytes |
| `Keys.HashIsOneXor` | internal/fleetsec/keys.go:126-150 | the hash of a name and a key is the exclusive or of their concatenation, and is the same with the two exchanged |
| `Keys.HashSeesOneByte` | internal/fleetsec/keys.go:126-150 | keys that differ in exactly one byte never share a hash |
| `RecoveryCache.RecoveryStore.AddRecoveryPSK` | internal/fleetsec/recovery_store.go:21-98 | fails exactly on an empty key, a blank fingerprint or a rolled back transaction, leaving the table alone; otherwise refreshes the row of a known fingerprint, fills the lowest free slot, or replaces the oldest row of a full table |
| `RecoveryCache.AddIs` | internal/fleetsec/recovery_store.go:34-98 | case by case: a known fingerprint keeps slot and key and gets a new time; otherwise the lowest free slot of 2..7, or the oldest row when all six are taken, gets the new row |
| `RecoveryCache.RecoveryStore.RebuildHashTable` | internal/fleetsec/recovery_hook.go:48-63 | the table knows exactly the hashes of the rows and maps each to the fingerprint of the row in the highest slot with that hash |
| `RecoveryCache.AddKeepsSlots` | internal/fleetsec/recovery_store.go:34-98 | an add keeps slots in 2..7 and fingerprints unique, leaves every surviving entry in its slot with its key, and evicts only the oldest row of a full table |
| `RecoveryCache.AddTracks` | internal/fleetsec/recovery_store.go:34-98 | an add with a newer timestamp extends the history the table stands for by its fingerprint |
| `RecoveryCache.TracksIsLastSix` | internal/fleetsec/recovery_store.go:34-98 | a table tied to a history holds exactly its last six distinct fingerprints |
| `RecoveryCache.CacheIsLastSix` | internal/fleetsec/recovery_store.go:21-98 | at every point of every run of adds with increasing timestamps the cached fingerprints are exactly the last six distinct ones added |
| `RecoveryCache.SlotStaysUntilEvicted` | internal/fleetsec/recovery_store.go:34-98 | an entry that stays cached between two points of a run has the same slot and key at both |
| `RecoveryCache.RepeatIsIdle` | internal/fleetsec/recovery_store.go:34-48 | adding the newest fingerprint again changes nothing in the last six |
| `PiRadio.PiHeltec.ProbeSlotsLocal` | internal/fleetsec/channels.go:313-340 | the probe changes no slot and reports the last slot that answered with role PRIMARY |
| `PiRadio.PiHeltec.ReadLocalChannel` | internal/fleetsec/channels.go:342-350 | reports the slot's channel when the reply came back; changes no slot |
| `PiRadio.PiHeltec.MigrateAtomicWithRecovery` | internal/fleetsec/channels.go:495-518 | the slots stay as they were or take all edits at once, whichever message is lost, and success is reported only in the second case |
| `PiRadio.PromotedSlots` | internal/fleetsec/channels.go:495-518 | a promote makes the staging slot the only PRIMARY, blanks the old one, puts the old key in the recovery slot and changes nothing else |
| `PiRadio.LastPrimaryIs` | internal/fleetsec/channels.go:313-340 | with one PRIMARY the probe finds it exactly when its slot answers |
| `PiRadio.FindOldIs` | internal/fleetsec/job_handlers.go:332-352 | with one PRIMARY, Phase C's scan finds it exactly when it answers and its key is not the new one |
| `PiRadio.AfterReadsKeepSlots` | internal/fleetsec/channels.go:313-340 | reads change no slot, and any read that arrives closes an open transaction |
| `Rotation.NextKeepsSlots` | internal/fleetsec/job_handlers.go:56-454 | every step, under every loss of messages and writes, keeps one PRIMARY in slot 0 or 1, the staging slot of the open rotation on the other one, and jobs matching their rows |
| `Rotation.SlotInvAlways` | internal/fleetsec/job_handlers.go:90-127 | that holds in every state of every run from a fresh installation, across any number of rotations and re-runs |
| `Rotation.PhaseAWritesOther` | internal/fleetsec/job_handlers.go:84-127 | Phase A writes nothing but the slot of the pair that is not PRIMARY, and there only the new key as SECONDARY |
| `Rotation.PhaseCSlotsDiffer` | internal/fleetsec/job_handlers.go:328-400 | when Phase C reaches its transaction, the wiped slot is the PRIMARY, the staging slot is the other of the pair, and the recovery slot is in 2..7 |
| `Rotation.StepWrites` | internal/fleetsec/channels.go:360-377 | which slots each kind of step may write: none, the other of the pair, or for a promote the pair and at most one of 2..7 |
| `Rotation.RotateStores` | internal/fleetsec/channels.go:213-271 | RotatePSK adds a pending row exactly when the key has 0, 16 or 32 bytes, its hash is on neither answering slot 0 or 1 nor in the listing, and the insert is stored |
| `Rotation.PhaseAStages` | internal/fleetsec/job_handlers.go:84-127 | when the PRIMARY answers, Phase A pins the other slot of the pair unless one is pinned, stages the key there unless that is done, and notes it when acknowledged; otherwise it does nothing |
| `Rotation.RetireQueuesIff` | internal/fleetsec/channels.go:577-640 | RetireOldPSK queues Phase C exactly for a row in staging_added with that pinned slot and an open gate, and changes nothing else |
| `Rotation.JobsPassedTheGate` | internal/fleetsec/channels.go:600-640 | in every run each queued Phase C comes from a RetireOldPSK of its rotation, staged in its slot, through an open gate |
| `Rotation.RetiresIff` | internal/fleetsec/job_handlers.go:353-440 | Phase C marks its rotation retired exactly when the mark is stored and, unless no old PRIMARY answered, every message up to the commit was acknowledged; it erases the key only then |
| `Rotation.RetiredWithoutPromoteIff` | internal/fleetsec/job_handlers.go:335-358 | a Phase C run leaves the rotation retired on a key that is not its own exactly when the PRIMARY's read failed, the radio was on another key and the mark was stored |
| `Decodable.NextKeepsCache` | internal/fleetsec/job_handlers.go:378-400 | every benign step keeps hashes distinct, the recovery slots following the table, and the table tracking the demoted keys; failed inserts in attempts that do not commit and lost reads with nothing in flight are benign |
| `Decodable.PhaseCKeepsCacheIff` | internal/fleetsec/job_handlers.go:310-450 | a Phase C step keeps all that exactly when it is benign: an unstored key is not promoted away from, and the shortcut does not retire a rotation whose key is in flight |
| `Decodable.RotateKeepsKeysIff` | internal/fleetsec/channels.go:222-231 | RotatePSK keeps what is known of the keys exactly when it accepts nothing but a known key that is not among the recovery keys and shares its hash with no other key held |
| `Decodable.ComparedIsNew` | internal/fleetsec/psk_collision.go:27-66 | if the check's two reads and its listing answered, a key it lets through is such a key |
| `Decodable.NextKeepsCacheIff` | internal/fleetsec/job_handlers.go:310-450 | every step, of any handler, keeps the whole invariant exactly when it is benign |
| `Decodable.CacheInvAlways` | internal/fleetsec/job_handlers.go:310-454 | that holds in every state of every run of benign steps, also between a failed Phase C and its repeat |
| `Decodable.AgreementAtRest` | internal/fleetsec/recovery_store.go:21-98 | with no rotation open, the table, slots 2..7 and the six most recently demoted keys agree |
| `Decodable.RetiredRunsAgree` | internal/fleetsec/job_handlers.go:378-430 | the same, at every point of every run of benign steps at which no rotation is open |
| `Decodable.StillDecodable` | internal/fleetsec/job_handlers.go:328-332 | in every state of such a run a packet under the current key or any of the six most recently demoted ones is decoded with exactly that key |
| `Decodable.CheckedKeyDiffers` | internal/fleetsec/psk_collision.go:27-66 | a candidate that passes the check differs in hash from every key on the radio and in the table |
| `WireHashes.NextKeepsHashes` | internal/fleetsec/channels.go:222-231 | RotatePSK, Phase A, RetireOldPSK and Phase C keep the keys of slots 0 and 1, the table and the open rotation apart by hash, given only that RotatePSK's own reads and listing answered when it accepted a key |
| `WireHashes.HashNamesOneKey` | internal/fleetsec/psk_collision.go:27-66 | in every such run, whatever Phase C loses, a wire hash names at most one of those keys |
| `Decodable.HeldHashNamesOneKey` | internal/fleetsec/channels.go:222-231 | in every run of benign steps that extends to all eight slots of the radio |
| `Decodable.CacheCompleteIff` | internal/fleetsec/job_handlers.go:335-405 | a Phase C step that retires the rotation leaves table, radio and demoted keys in agreement exactly when: the PRIMARY answered and its key was already the new one, stored by this attempt, or empty; or it did not answer and nothing was in flight |
| `Decodable.CommittedCompleteIff` | internal/fleetsec/job_handlers.go:378-405 | a committed promote does so exactly when this attempt's insert was stored or the old PRIMARY had no key |
| `Healing.NextKeepsSomeBase` | internal/fleetsec/job_handlers.go:378-405 | whatever Phase C loses, there is a list of keys whose last six the recovery table holds |
| `Healing.BenignStepHeals` | internal/fleetsec/job_handlers.go:378-405 | from any such state a benign step extends the keys that table, radio and demoted list agree on by exactly what it demotes |
| `Healing.Restored` | internal/fleetsec/recovery_store.go:34-98 | when those include six different keys and nothing is in flight, the whole invariant holds again |
| `Healing.SixKeysHeal` | internal/fleetsec/job_handlers.go:310-450 | in every run, after any failures of Phase C, six different keys demoted by benign steps restore the whole invariant |
| `DispatcherHook.HookStepIff` | internal/fleetsec/job_handlers.go:353-449 | from a dispatcher's table that names the recovery rows, a handler leaves one that does exactly when it stored no new row, or passed its mark with the listing succeeding |
| `DispatcherHook.RestartIff` | cmd/diginode-cc/main.go:554-562 | a restart leaves one that does exactly when the recovery table is empty, and the load behind it exactly when its listing succeeds or it did already |
| `DispatcherHook.UpToDateNames` | internal/fleetsec/recovery_hook.go:48-63 | in every run of benign steps, the table names the rows whenever the last step that spoiled it was followed by one that rebuilds it |
| `DispatcherHook.HookNamesKey` | internal/fleetsec/recovery_hook.go:72-84 | then, with no rotation open, it has the hash of a held key exactly when the key is one of the six most recently demoted, and maps it to that key's fingerprint |
| `Failures.RetiredOnOldKey` | internal/fleetsec/job_handlers.go:353-358 | a run from a fresh installation that ends retired with the radio still on the old key and no recovery row |
| `Failures.OldKeyForgotten` | internal/fleetsec/job_handlers.go:386-390 | a run from a fresh installation that ends retired on the new key with no slot that decodes the old one |
| `Failures.RetiredInFlight` | internal/fleetsec/job_handlers.go:353-400 | a run from a fresh installation that stores the old key, loses the commit and then the read, and ends retired with the table claiming a slot the radio does not show |
| `Failures.HookNeverLearns` | internal/fleetsec/job_handlers.go:353-358 | a run of benign steps from a fresh installation after which the radio decodes the old key and the dispatcher's table does not know its hash |
| `FleetService.Service.CheckPSKHashCollision` | internal/fleetsec/psk_collision.go:27-66 | refuses exactly when an answering slot 0 or 1 or a listed row has the candidate's hash; unanswered slots and a failed listing are skipped |
| `FleetService.Service.GenerateAvoidingCollision` | internal/fleetsec/psk_collision.go:72-90 | returns the first draw that does not collide within the attempt limit (8 when not positive), or an error when all collide or the source fails |
| `FleetService.Service.RotatePSK` | internal/fleetsec/channels.go:205-307 | stores the row exactly when the confirmation word, length, channel index, hash check, targets and insert all pass; succeeds exactly when Phase A was enqueued as well |
| `FleetService.Service.RunPhaseA` | internal/fleetsec/job_handlers.go:56-127 | takes exactly the Phase A step, and succeeds exactly when the PRIMARY answered from a usable slot and staging was acknowledged |
| `FleetService.Service.RetireOldPSK` | internal/fleetsec/channels.go:563-650 | succeeds exactly when the row is staged, its slot pinned and the gate open; then and only then one job, for that slot, is queued |
| `FleetService.Service.FindOldPrimary` | internal/fleetsec/job_handlers.go:332-352 | the scan loop returns the first answering PRIMARY whose fingerprint is not the new one |
| `FleetService.Service.RunPhaseC` | internal/fleetsec/job_handlers.go:310-454 | takes exactly the Phase C step, reports success exactly when the row ends retired, and rebuilds the dispatcher's table exactly when it passes its mark and the listing succeeds |
| `FleetService.Service.CacheOld` | internal/fleetsec/job_handlers.go:378-397 | stores the old key unless it is empty or the insert fails, and reports a slot only when it did |
| `FleetService.Service.PromotePi` | internal/fleetsec/job_handlers.go:361-449 | caches the old key, promotes and marks, with every partial failure accounted for |
| `FleetService.Service.MarkAndRebuild` | internal/fleetsec/job_handlers.go:419-449 | rebuilds the dispatcher's table only after the mark was stored |
| `Tracker.TransactionMap.Begin` | internal/fleetsec/transactions.go:144-165 | refused exactly for id 0 or an id in flight |
| `Tracker.TransactionMap.TakeForAck` | internal/fleetsec/transactions.go:217-263 | takes the transaction out exactly when the sender is the expected one and the ack is not a success for a Get |
| `Tracker.TransactionMap.TakeForAdmin` | internal/fleetsec/transactions.go:271-298 | takes the transaction out exactly when the sender is the expected one |
| `Tracker.TakeKeepsInv` | internal/fleetsec/transactions.go:192-204 | removing a registered transaction by its id hands it to exactly one deliverer, whoever removes it, and leaves every other transaction in its state |
| `Tracker.StepKeepsInv` | internal/fleetsec/transactions.go:144-298 | every mutex section, send, close and receive keeps the ownership invariant |
| `Tracker.InvMeansOneState` | internal/fleetsec/transactions.go:144-298 | under the invariant a transaction is registered, held by exactly one deliverer, or delivered once and closed, and only one of these |
| `Tracker.DeliveredExactlyOnce` | internal/fleetsec/transactions.go:144-298 | in every interleaving no send or close hits a closed channel, no send blocks, each transaction is in one of the three states, a taken one with exactly one deliverer, and at most one reply reaches it |
| `Tracker.SendOkMeansAnswered` | internal/fleetsec/service.go:346-392 | send reports no error only if, while the transaction was registered, a packet with its id arrived from the addressed node and became its reply, and for a Get only if it is an admin message |
| `Tracker.SendOutcome` | internal/fleetsec/service.go:358-391 | send ends without an error exactly when an admin message or a successful ack took its transaction; the ack gives no message, the admin message itself; a timeout, a cancellation and every other ack give an error |
| `Tracker.ReplyHasCause` | internal/fleetsec/transactions.go:166-298 | a waiter that received a reply had its transaction taken by a packet or by a watcher |
| `Tracker.PasskeyLearned` | internal/fleetsec/service.go:102-130 | an admin message with a passkey from the addressed node replaces that node's, a BAD_SESSION_KEY ack drops it, nothing else changes any |
| `Tracker.TakenCarries` | internal/fleetsec/transactions.go:251-297 | whatever interleaves afterwards, the packet that took a transaction out of the map is the one reply its waiter can receive |
| `Tracker.SourcedAlways` | internal/fleetsec/transactions.go:217-298 | every ack or admin reply under way or received became so when a packet took that transaction |
| `Tracker.GetReturnsWhatArrived` | internal/fleetsec/service.go:364-372 | a Get that ended without an error was taken by an inbound admin packet, and returns exactly what decoding that packet gave: its message, or nothing when it does not decode |
| `Tracker.GetReturnsMessage` | internal/fleetsec/service.go:364-372 | if every admin packet from the node under that id decodes, a Get without an error returns a message |
| `Tracker.GetWithoutMessage` | internal/fleetsec/transactions.go:289-297 | a run in which a Get ends without an error and without a message |
| `Tracker.PasskeysAreAuthentic` | internal/fleetsec/service.go:97-132 | a cached session passkey was sent by the node it is cached for |
| `Migration.BuildTargets` | internal/fleetsec/channels.go:233-257 | every requested node once, none zero, the local node included, all pending |
| `Migration.UniqueInOrder` | internal/fleetsec/channels.go:236-246 | targets stand in the order in which their nodes are first requested |
| `Migration.LocalComesLast` | internal/fleetsec/channels.go:247-254 | a local node that was not requested comes last |
| `Migration.TransitionTarget` | internal/fleetsec/channels.go:523-532 | the first target of the node takes the phase and the rest stay; found exactly when there is one |
| `Migration.ResetTargets` | internal/fleetsec/channels.go:769-812 | wanted targets in failed_b or phase_b_pushing become pending, in failed_c or phase_c_promoting has_new_psk, all others stay; eligible exactly when a wanted target is not done |
| `Migration.CommitVerify` | internal/fleetsec/channels.go:435-473 | succeeds exactly when some reply is an admin message reporting a channel with role PRIMARY whose key has the rotation's fingerprint |
| `Migration.RotateRecords` | internal/fleetsec/channels.go:233-257 | a new rotation has exactly the requested nodes and the local one as targets, none zero, all pending |
| `Migration.LoadStarts` | internal/fleetsec/job_handlers.go:207-248 | a Phase B job starts only with a stored key and a target that is not done, and moves that target alone to phase_b_pushing |
| `Migration.JudgeRecords` | internal/fleetsec/job_handlers.go:251-258 | the job moves its target to on_new_psk exactly when the reply shows a PRIMARY with the fingerprint of its key, and no other phase ever |
| `Migration.GiveUpRecords` | internal/fleetsec/job_handlers.go:251-256 | giving up moves the job's target, and no other, to failed_b |
| `Migration.RetryRecords` | internal/fleetsec/channels.go:769-812 | a retry's copy of the list resets wanted targets as the switch says and no others |
| `Migration.EditorRecords` | internal/fleetsec/job_handlers.go:406-444 | Phase C moves the local node to on_new_psk in its copy and erases the key, and storing a copy replaces the row's list |
| `Migration.PersistRecords` | internal/fleetsec/channels.go:523-532 | persisting sets the row's phase of that target to the job's, or the whole list to the job's copy |
| `Migration.VerifiedProves` | internal/fleetsec/channels.go:436-449 | a reply that passes the test was given by the probed node itself |
| `Migration.StepKeepsInv` | internal/fleetsec/job_handlers.go:197-302 | every step, stale rewrites by retry, Phase B and Phase C included, keeps each recorded migration backed by an answer |
| `Migration.MigratedMeansAnswered` | internal/fleetsec/job_handlers.go:251-258 | in every run a remote recorded on_new_psk was probed for that rotation and itself answered with role PRIMARY and the rotation's fingerprint |
| `Migration.AnswerIsAboutStagingSlot` | internal/fleetsec/channels.go:435-449 | with request ids that are not reused for the same node, that answer is about the staging slot |
| `Varint.EncodeVarint` | internal/serial/framing.go:433-443 | the buffer loop writes the base 128 form of every 64-bit word and never overruns ten bytes |
| `Varint.DecodeVarint` | internal/serial/framing.go:417-431 | the shift-and-or loop reads the value below the terminator modulo 2^64, and (0, 0) when ten bytes hold none |
| `Varint.ShiftedIn` | internal/serial/framing.go:423-426 | or-ing a shifted septet adds it, also at the tenth byte where its upper bits fall off |
| `Varint.RoundTrip` | internal/serial/framing.go:417-443 | decoding an encoded 64-bit word followed by anything gives the word and its length |
| `Varint.DecodedLocal` | internal/serial/framing.go:417-431 | what follows a varint does not change how it is read |
| `Wire.SkipField` | internal/serial/framing.go:1094-1117 | where each wire type ends, or -1 where there is no end; a length short of the wrap lands exactly behind the field, one of 2^63 or more before its body |
| `Wire.ReadField` | internal/serial/framing.go:797-849 | tag and body reading agree with the one-field parser on every input |
| `Wire.ReadBody` | internal/serial/framing.go:797-849 | the body cases by wire type agree with the parser |
| `Wire.FieldLocal` | internal/serial/framing.go:712-849 | a field is self-delimiting |
| `Wire.FoldSplit` | internal/serial/framing.go:712-849 | decoding a message is decoding its leading fields and going on from there |
| `Wire.IgnoredFieldAnywhere` | internal/serial/framing.go:1094-1117 | for any decoder of this shape, a field it ignores may stand at any boundary |
| `Wire.EncodeVarintField` | internal/serial/encode.go:42-49 | tag and value as varints |
| `Wire.EncodeLengthDelimited` | internal/serial/encode.go:31-39 | tag, length and bytes |
| `Wire.EncodeFixed32Field` | internal/serial/encode.go:52-59 | tag and four little-endian bytes |
| `Wire.VarintFieldParses` | internal/serial/encode.go:42-49 | the parser reads back number and word |
| `Wire.BytesFieldParses` | internal/serial/encode.go:31-39 | the parser reads back number and bytes |
| `Wire.Fixed32FieldParses` | internal/serial/encode.go:52-59 | the parser reads back number and word |
| `Wire.Fixed32RoundTrip` | internal/serial/encode.go:24-28 | little-endian reading undoes writing for every 32-bit word |
| `MeshCodec.DecodeDataPayload` | internal/serial/framing.go:797-849 | the loop computes the fold of its fields |
| `MeshCodec.DecodePosition` | internal/serial/framing.go:612-662 | the loop computes the fold of its fields |
| `MeshCodec.DecodeMeshPacket` | internal/serial/framing.go:712-795 | the loop computes the fold of its fields, with the nested Data decoder |
| `MeshCodec.MeshWords` | internal/serial/framing.go:724-756 | after any well-formed packet each handled varint field sets its own field to the low 32 bits, want_ack to non-zero, and no other |
| `MeshCodec.MeshFixed32s` | internal/serial/framing.go:767-786 | each handled fixed32 field sets its own field to its word and no other |
| `MeshCodec.MeshSignal` | internal/serial/framing.go:745-784 | every int32 rx_rssi is read back from its zigzag varint and from its fixed32 form |
| `MeshCodec.MeshData` | internal/serial/framing.go:757-766 | field 4 sets the payload to what decoding it as Data gives |
| `MeshCodec.DataFields` | internal/serial/framing.go:797-849 | the three fields of Data set port, payload and request id, and nothing else |
| `MeshCodec.PositionFields` | internal/serial/framing.go:612-662 | the five fields of Position set latitude, longitude, altitude, time and satellites, signed where the source reads them signed |
| `MeshCodec.UnknownFieldIgnored` | internal/serial/framing.go:612-662 | a field whose number is not handled for its wire type changes none of the three decoders' results at any boundary, even before malformed bytes |
| `MeshCodec.DataRoundTrip` | internal/serial/encode.go:75-80 | every port and payload survives building and decoding Data |
| `MeshCodec.PositionRoundTrip` | internal/serial/encode.go:149-156 | every int32 latitude, longitude and altitude survives, negative ones included |
| `MeshCodec.MeshRoundTrip` | internal/serial/encode.go:109-118 | every address, id, port and payload survives building and decoding the packet, and no other field is set |
| `MeshCodec.PositionPacketRoundTrip` | internal/serial/encode.go:149-162 | the whole chain from coordinates through Data, packet and ToRadio and back |
| `MeshCodec.PacketBytes` | internal/serial/encode.go:75-118 | the bytes of a built packet, tag by tag |
| `MeshCodec.PositionBytes` | internal/serial/encode.go:149-156 | the bytes of a position, with the altitude left out when it is zero |
| `MeshCodec.SignSurvives` | internal/meshtastic/dispatcher.go:691-740 | int32 to uint32 or sign-extended uint64 and back is the identity |
| `MeshCodec.ZigzagInverse` | internal/serial/framing.go:1088-1092 | zigzag decoding undoes zigzag encoding for every int32 |
| `Framing.FrameDecoder.Feed` | internal/serial/framing.go:49-91 | the byte loop gives the state and frames of the one-byte transition function, and keeps the buffer within 512 bytes and below the declared length |
| `Framing.EncodeFrame` | internal/serial/framing.go:94-105 | 0x94, 0xC3, the length high byte first, the payload; nothing for more than 512 bytes |
| `Framing.FedBounded` | internal/serial/framing.go:49-91 | that bound holds after every input |
| `Framing.FeedSplit` | internal/serial/framing.go:49-91 | feeding in two parts gives the frames of both and the same final state |
| `Framing.ChunkingIrrelevant` | internal/serial/framing.go:49-91 | any cutting into reads gives the same frames and final state |
| `Framing.FramesAreStretches` | internal/serial/framing.go:49-91 | from a fresh decoder the frames with their headers are disjoint stretches of the input, in order, and the unfinished one is its tail |
| `Framing.FramesFit` | internal/serial/framing.go:49-91 | no frame with its header is longer than the input |
| `Framing.FrameRead` | internal/serial/framing.go:94-105 | a decoder at rest turns an encoded payload of 1..512 bytes into exactly that payload |
| `Framing.NoiseRead` | internal/serial/framing.go:54-66 | bytes in which no odd run of 0x94 is followed by 0xC3 yield no frame, and leave the decoder waiting for a start exactly when they end in an even run |
| `Framing.NoisyStreamDecodes` | internal/serial/framing.go:49-105 | any stream of encoded payloads of 1..512 bytes separated by such bytes ending in even runs decodes to exactly those payloads |
| `Framing.StreamDecodes` | internal/serial/framing.go:49-105 | in particular any stream separated by bytes other than 0x94 |
| `Framing.NoiseBeforeFrameIff` | internal/serial/framing.go:54-66 | such bytes in front of a frame are harmless exactly when they end in an even number of bytes 0x94 |
| `Framing.StrayByteIff` | internal/serial/framing.go:54-66 | one stray byte before a frame is harmless exactly when it is not 0x94 |
| `ScanMerge.MergeScanRows` | internal/commands/service.go:715-753 | the loop with map and order list computes the merged rows |
| `ScanMerge.MergedIs` | internal/commands/service.go:693-753 | one row per device in order of first sight, last signal strength, first non-blank details, BLERAW if any row was |
| `ScanMerge.DistinctUnchanged` | internal/commands/service.go:715-753 | rows of different devices pass through unchanged |
| `ScanMerge.MergeInStages` | internal/commands/service.go:715-753 | merge(a + b) = merge(merge(a) + b) |
| `Commands.NextKeepsInv` | internal/commands/service.go:162-281 | enqueue, send, acks, fan-out, delete, timeout and detection keep pending commands active and RAW_BLE rows paired |
| `Commands.InvAlways` | internal/commands/service.go:162-596 | that holds in every state of every run with fresh ids |
| `Commands.ScansAreBracketed` | internal/commands/service.go:192-281 | an accepted DEVICE_SCAN_START has exactly one RAW_BLE_ON, at most one RAW_BLE_OFF, exactly one once an ack closed it, none otherwise, all to its own target |
| `Commands.StopClosesItsScope` | internal/commands/service.go:549-595 | after a matched STOP_ACK no running scan in scope is pending, those in scope are closed OK, and every other command is untouched |
| `CommandRuns.NeverPendingAgain` | internal/commands/service.go:284-308 | in every run a command that left the pending map, by an ack or otherwise, never returns to it |
| `CommandRuns.RemovedUnfinishedIff` | internal/commands/service.go:440-498 | in every run a command outside the pending map is neither OK nor ERROR exactly when it was deleted, closed with an unrecognised token, or sent after it left, and no later failed send used up its retries |
| `CommandRuns.UnknownTokenLeavesSent` | internal/commands/service.go:458-490 | a run in which an ack removes a command and leaves it SENT |
| `CommandRuns.LateSendReopens` | internal/commands/service.go:823-840 | a run in which a send that returns after the ack writes SENT over OK |
| `CommandRuns.RetriesAreFailures` | internal/commands/service.go:823-834 | in every run the retry counter is the number of failed sends, and a pending command has had fewer of them than its limit |
| `CommandRuns.AcceptedAfterGap` | internal/commands/service.go:166-171 | in every run a command is accepted only two seconds or more after every successful send to its node |
| `CommandService.Service.Enqueue` | internal/commands/service.go:162-257 | refused exactly within two seconds of the last send to the node; otherwise queued, with its RAW_BLE_ON for a device scan |
| `CommandService.Service.FindLatest` | internal/commands/service.go:362-387 | in any visiting order, a matching pending command of greatest creation time, or none when nothing matches |
| `CommandService.Service.CloseOne` | internal/commands/service.go:462-498 | takes one command out with its merged rows and its RAW_BLE_OFF |
| `CommandService.Service.FanOut` | internal/commands/service.go:510-595 | in any visiting order, closes exactly the commands in scope |
| `CommandService.Service.HandleStructuredACK` | internal/commands/service.go:311-596 | the whole handler takes exactly one ack step on a latest match, and changes nothing without one |
| `CommandOutcomes.ReachedIff` | internal/commands/service.go:323-384 | which commands an ack reaches: pending, PENDING, SENT or RUNNING, and named by the ack's command, its prefix or its suffix |
| `CommandOutcomes.MatchedOutcome` | internal/commands/service.go:419-498 | token by token what becomes of the matched command: STARTED keeps it as RUNNING, failure tokens give ERROR, success tokens OK, all others SENT, and all but the first take it out |
| `CommandOutcomes.MatchedDetections` | internal/commands/service.go:467-497 | a scan taken out carries its merged rows |
| `CommandOutcomes.OthersOutcome` | internal/commands/service.go:510-595 | every other command is closed as OK exactly when PROBE_ACK:STOPPED or the STOP_ACK halts it, and left alone otherwise |
| `CommandOutcomes.RateLimited` | internal/commands/service.go:166-171 | within two seconds of the last successful send to its node a command changes nothing |
| `CommandOutcomes.Queued` | internal/commands/service.go:173-257 | otherwise it waits as PENDING with three retries by default, and a DEVICE_SCAN_START brings a RAW_BLE_ON for the same node and target |
| `CommandOutcomes.SendDone` | internal/commands/service.go:823-840 | a successful send sets SENT, its time and the node's rate stamp; a failed one counts, and the last one sets ERROR and takes the command out |
| `CommandOutcomes.PlainAckDone` | internal/commands/service.go:284-308 | an ack by id finishes a pending command as OK and touches no other |
| `CommandOutcomes.TimeoutOutcome` | internal/commands/service.go:986-1043 | which running probes a sweep closes, as OK, and that it leaves every other command alone |
| `CommandOutcomes.DetectionOutcome` | internal/commands/service.go:609-650 | which scans note a detection, once for each device and source, and that nothing else changes |
| `CommandService.Service.IsOver` | internal/commands/service.go:999-1027 | true exactly for a sent probe with no FOREVER parameter and a positive number of seconds as its second parameter, whose duration and grace have passed |
| `CommandService.Service.EnforceScanTimeouts` | internal/commands/service.go:986-1043 | in any visiting order, closes exactly the running probes for which that holds |
| `CommandService.Service.RecordScanDetection` | internal/commands/service.go:609-650 | notes the detection once per device and source on exactly the running scans that listen to the node |
| `Geofence.PointInPolygon` | internal/geofences/service.go:160-183 | the toggling loop computes the parity of crossings of the closed chain; fewer than three vertices are never inside |
| `Geofence.EdgeCrosses` | internal/geofences/service.go:172-178 | true exactly when the ends lie on different sides and some point of the edge has the point's latitude and a greater longitude |
| `Geofence.MeetsAtSymmetric` | internal/geofences/service.go:172-178 | an edge meets the ray at the same longitude from either end |
| `Geofence.RotationInvariant` | internal/geofences/service.go:160-183 | starting the vertex list elsewhere does not change the answer |
| `Geofence.ReversalInvariant` | internal/geofences/service.go:160-183 | reversing the vertex list does not change the answer |
| `Geofence.OutsideBoxIsOutside` | internal/geofences/service.go:160-183 | a point outside the bounding box is never inside, the left-hand case by evenness of side changes around a closed chain |
| `Geofence.RectangleIff` | internal/geofences/service.go:160-183 | a rectangle contains exactly the points between its corners, the lower and left sides included |
| `Dedup.PacketFilter.IsDuplicate` | internal/meshtastic/dispatcher.go:486-510 | rejects exactly when a packet with the same sender and id was accepted less than 15 seconds ago |
| `Dedup.AlertFilter.IsDuplicateAlert` | cmd/diginode-cc/main.go:735-758 | drops a non-empty line exactly when it last arrived, kept or dropped, less than 5 seconds ago |
| `Dedup.Prune` | internal/meshtastic/dispatcher.go:500-508 | the sweep removes exactly the entries stamped before the cutoff |
| `Dedup.AnswerIsExact` | internal/meshtastic/dispatcher.go:486-510 | a pruned table tied to the calls answers as the full history does |
| `Dedup.TiedNext` | cmd/diginode-cc/main.go:735-758 | one call followed by any pruning of expired entries keeps the tie |
| `Dedup.PruningIsInvisible` | internal/meshtastic/dispatcher.go:486-510 | in every run, however it prunes, every call is answered by the unbounded reference |
| `Dedup.PacketKeyInjective` | internal/meshtastic/dispatcher.go:488-490 | no two pairs of sender and id share a 64-bit key |
| `Dedup.KeyedSeesPackets` | internal/meshtastic/dispatcher.go:488-495 | asking the history for the key is asking it for the packet |
| `RateLimit.Limiter.Allow` | internal/ratelimit/ratelimit.go:37-51 | answers what the client's past requests determine, whatever cleanup removed |
| `RateLimit.Limiter.Cleanup` | internal/ratelimit/ratelimit.go:67-80 | a sweep at any time changes no later answer |
| `RateLimit.Limiter.NeverOverTwice` | internal/ratelimit/ratelimit.go:37-80 | no client of a limiter with limit at least 1 gets more than twice the limit in any span of one window |
| `RateLimit.AtMostTwiceTheLimit` | internal/ratelimit/ratelimit.go:37-51 | the same for every log of requests |
| `RateLimit.WindowBound` | internal/ratelimit/ratelimit.go:37-51 | one window allows at most the limit |
| `RateLimit.WindowExact` | internal/ratelimit/ratelimit.go:37-51 | in one window exactly the first request and those up to the limit are allowed: none is refused before the limit is used up |
| `RateLimit.OpensIff` | internal/ratelimit/ratelimit.go:41-46 | a request opens a window exactly when it comes after the end of the one before it |
| `RateLimit.LogSpaced` | internal/ratelimit/ratelimit.go:37-51 | every request falls in its window and different windows do not overlap |

## Left out

- HTTP handlers, WebSocket broadcasts, MQTT, mail, tiles, ADS-B, ACARS, FAA and lookup clients, the web front end and configuration loading: input and output.
- DispatcherHook.HookStepIff: reading the recovery table and replacing the dispatcher's copy are one step, so a load that overlaps a Phase C is not modelled; neither are the checks behind the table (stranded flag, pending jobs, cooldown).
- SQL text and the job queue: tables are maps, and a queued job may run any number of times, one at a time.
- SHA-256, X25519, base64, the generated protobuf code, bcrypt, JWT and TOTP: library code. The fingerprint is a function parameter.
- Audit entries, the texts of errors, and the erasing of key copies in memory.
- Phase A's update of fleet_channels and its loop that queues Phase B; Phase B's session set-up and fire-and-forget frames to the remote, whose effect on the remote is only seen through its answers.
- The retirement gate: its answer is a parameter of RetireOldPSK. Phase A writes the new fingerprint early, so an open gate does not mean that every node has migrated. The phase_d_promoted value of old rows is not modelled.
- Marking nodes stranded, the recover_stranded job, StartRecovery, trust editing and the attempt counter.
- Overlapping rotations: they would share a staging slot.
- A database commit whose outcome is unknown to the caller.
- Deadlines and cancellation causes of the tracker: a watcher may fire at any time, and which Get variants expect an admin reply is a parameter of Begin.
- Wire.ReadField: as Wire.ReadBody.
- Wire.ReadBody: a declared length of 2^63 - 2^48 or more gives no result, because from there on int(length) or the position after it wraps; there the source panics or moves its position backwards.
- MeshCodec.DecodeMeshPacket: the same lengths have no result.
- MeshCodec.DecodeDataPayload: the same lengths have no result.
- MeshCodec.DecodePosition: the same lengths have no result.
- MeshCodec.MeshRoundTrip: payloads are shorter than that, which every Go slice is.
- The other decoders of framing.go and the other builders of encode.go: they repeat the same field loop.
- The command text builder, the ack name table and upper-casing of tokens: an ack arrives as a frame with the name it maps to. Result texts, probe hit counters, chat echo and persistence of commands.
- Library calls on text (trimming blanks, ignoring letter case, reading a number): they are parameters of EnforceScanTimeouts.
- CommandService.Service.Send: the transmission between the two locked sections is replaced by its outcome, and a command that was never queued is not sent.
- The three-second gap between a RAW_BLE row and its scan on the wire: sends happen in any order and at any time.
- Floating point rounding in Geofence.PointInPolygon: coordinates are reals.
- Inventory statistics, node classification and alert rules: single-function members.
