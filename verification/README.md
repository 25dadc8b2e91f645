# NosNode Seer: a verified model of its durable state, delivery and shutdown

NosNode Seer watches validators and sends alerts. What must not go wrong in it is what survives:
the state file that a crash may interrupt, the record of which alert each destination has
accepted, and the shutdown that joins the two. This project models that core and proves, over
every run and every interleaving, what a user can rely on. `dafny verify dfyconfig.toml` checks
all of it.

| file | models |
|---|---|
| `Basics.dfy` | shared types: time, destinations, bytes, alternating streams |
| `StateDocument.dfy` | which bytes decode to a state, and how a load chooses a file |
| `DiskModel.dfy` | the directory: visible entries, file data, and what a power failure may leave |
| `Checkpoint.dfy` | the checkpoint writer as small steps that may each fail, with kills, power failures and outside damage between them |
| `CheckpointSafety.dfy`, `BackupSafety.dfy` | what any load finds after any such run, and what the rollback copy keeps |
| `DurabilityLimits.dfy` | runs that show where durability ends |
| `CheckpointReports.dfy` | what a checkpoint reports, and that it does all it should |
| `StateWriter.dfy` | the writer as a program over the directory, shown to be a run of the step system |
| `Delivery.dfy` | the alarm cache with its reservations |
| `DeliveryProtocol.dfy` | any number of concurrent senders around the cache |
| `SerialWorker.dfy` | the one worker: emission order becomes acceptance order; the dashboard |
| `Shutdown.dfy` | the shutdown barrier over producers, monitors, worker and checkpoint |
| `AlertPath.dfy` | from a latch through channel and worker to a destination |
| `LockedSnapshot.dfy` | the two read-write locks around durable state |
| `Restart.dfy`, `RestartEquivalence.dfy` | snapshot, restore, and what a restart preserves |
| `Encryption.dfy` | the encrypted configuration file, both ways |
| `Signing.dfy` | classification, per-block results, counters, the result window |
| `Latches.dfy` | stalled, percentage, consecutive-miss and no-nodes alarms |
| `Endpoints.dfy` | choosing an RPC endpoint; node health |

## How the model is built

- **Disk.** A file's data and its directory entry become durable separately: data by a file sync,
  entries by a directory sync. After a power failure each name independently shows its visible
  entry or any entry it had since the last directory sync, and data that was not synced is
  arbitrary. Rename is atomic; a rename that reports failure may still have happened, as rename()
  in POSIX.1-2017 (System Interfaces, chapter 3) allows for an I/O error.
- **Parameters.** JSON is a codec with parse(encode(d)) = d. Key derivation, block cipher,
  authentication code and Base64 are functions with the laws written in `Crypto.Lawful`. Network
  outcomes, probes, random salts and vectors, and the clock are inputs of the steps.
- **Concurrency.** What the program does under one lock is one step; everything else may happen in
  between. Theorems speak about every run of such steps. All alerts of one alarm come from the one
  watch thread of its chain, so the channel holds them in the order its latch emitted them; that is
  what links the two in `AlertPath.dfy`.
- **Time** is in nanoseconds since Go's zero time; an absent map entry and a zero time are told
  apart exactly where the code does.

## What turned out not to hold as stated

For each of these the lemmas named show the failing case and the exact condition.

- A checkpoint interrupted by a power failure leaves the old or the new state only if no earlier
  directory sync is outstanding (`UnsettledDiskGoesBack`, `CrashSafeExactly`).
- A checkpoint that reported success is what the next load gives exactly if the document holds a
  durable field (`EmptyDocumentFailsLoad`) and reading the primary does not fail
  (`UnreadablePrimaryLoadsOlder`); `AcknowledgedLoadsExactly` and `EveryLoadIsRecent` have the exact
  conditions.
- A restart preserves sending decisions except exactly for day-old alarms and for PagerDuty
  triggers held back only by the flap window, which is not saved (`RestartForgetsOldAlarm`,
  `RestartForgetsFlap`, `DecisionsComeBack`).
- A restored node's down time is that of the last down node with its URL, which
  may be another entry (`SharedUrlBringsDown`, `NodeComesBack`).
- Decryption undoes encryption exactly if the random salt is not all zeros: encryption takes any
  salt it draws, decryption refuses that one (`ZeroSaltLosesText`, `RoundTrip`).
- A vote is counted for the block that follows its arrival, whatever its height
  (`LateVoteCountsForNextBlock`, `ForeignVotes`).
- Before the validator is known the no-nodes alarm counts all seconds waited, not an unbroken
  outage (`OneSecondRaisesNoNodes`, `StartupIsNotDebounced`); afterwards it does (`NoNodesDebounced`).

Where code and documentation differ the model follows the code. `docs/migration.md` says both files
hold the last known-good primary when replacing the primary fails, except that a rename may be
visible when the directory sync after it fails. A failed removal of the temporary file also leaves
the new primary installed (`FaultTable`). The watch loop's comment speaks of a 30-second delay; the
code waits 30 seconds per configured minute.

## Model

| member | source | states |
|---|---|---|
| StateDocument.EncodedDecodes | seer/state.go:67-102 | a written document is accepted again exactly when it has a durable field, and then gives the same state |
| StateDocument.ReadableExactly | seer/state.go:67-102 | a file is accepted exactly when it is one JSON value of version 0 or 1 with at least one of the three members, and gives that document |
| StateDocument.Load | seer/state.go:108-137 | a load starts empty exactly when neither file exists, succeeds otherwise exactly when a file decodes, and never discards an unreadable file silently |
| StateDocument.LoadExactly | seer/state.go:108-137 | which document is loaded, from which file and whether marked legacy, or which error, for every pair of reads |
| CheckpointSafety.StepSound | seer/state.go:330-372 | every file operation, whether it succeeds, fails, or fails after taking effect, and every kill or power failure keeps all possible outcomes of a load within the recent states |
| CheckpointReports.ReportIsFirstFault | seer/state.go:279-372 | in every run a checkpoint's result is exactly its first failing step, or success if there was none |
| CheckpointReports.SuccessMeansAllSucceeded | seer/state.go:279-372 | success is reported exactly when the read and every operation succeeded |
| CheckpointReports.FirstFailureReported | seer/state.go:279-372 | the first failing operation is reported with its stage and file, a failed read as such |
| CheckpointReports.OperationsInOrder | seer/state.go:290-372 | without a failure all nine operations of a replacement come in order, for the backup first when the primary is decodable, and none is left out |
| CheckpointReports.NoTempLeft | seer/state.go:336-346 | a checkpoint ends without any new name but the two state files, unless the removal itself failed |
| CheckpointSafety.EveryLoadIsRecent | seer/state.go:108-372 | at every moment of every run a load succeeds with a state attempted no earlier than the last acknowledged one; a load whose own reads fail does so exactly when the failing backup was not needed or a readable, equally recent backup stands in for the failing primary |
| CheckpointSafety.AcknowledgedStateSurvives | seer/state.go:108-306 | once a checkpoint reported success every later load gives it or a later attempted state, with failing reads under the same exact condition |
| CheckpointSafety.AcknowledgedLoadsExactly | seer/state.go:108-306 | until the next checkpoint begins, whatever crashes, a load gives the acknowledged state from the primary exactly when it has a durable field and reading the primary does not fail; if that fails the load is good exactly when the backup holds the same state |
| CheckpointSafety.AcknowledgedSettles | seer/state.go:279-306 | a checkpoint that reported success leaves files that no power failure changes and that share no data |
| CheckpointSafety.CrashSafeExactly | seer/state.go:279-372 | interrupted anywhere, a checkpoint leaves files that load the old or the new state, exactly when no outstanding directory entry could bring back another |
| CheckpointSafety.SettledIsCrashSafe | seer/state.go:279-372 | that is always so on settled files, as every successful checkpoint leaves them, whatever mix of valid, malformed and missing files loaded the old state |
| DurabilityLimits.UnsettledDiskGoesBack | seer/state.go:290-372 | a run from settled files: the directory sync of a checkpoint fails, its state loads, the next checkpoint begins, and a power failure brings back the state before both |
| DurabilityLimits.UnreadablePrimaryLoadsOlder | seer/state.go:108-121 | a run that ends with a checkpoint reporting success, after which a load that cannot read the primary gives the state before it |
| DurabilityLimits.UnsyncedMayBeLost | seer/state.go:347-359 | why the file is synced before it is renamed: until then a power failure may leave anything in it |
| BackupSafety.StepKeepsBackup | seer/state.go:290-372 | every step, outside damage to the primary included, keeps the rollback copy decodable, synced and shared with nothing |
| BackupSafety.BackupStaysDecodable | seer/state.go:290-300 | from settled files a decodable rollback copy stays decodable in every run and only ever holds its first content or a copied primary |
| BackupSafety.BackupOfCheckpointStays | seer/state.go:279-306 | the rollback copy beside an acknowledged checkpoint, if decodable, stays decodable in every run that goes on, damage to the primary included |
| BackupSafety.CopiedWerePrimaries | seer/state.go:290-297 | what is copied is the exact decodable content of the visible primary at the time it was read |
| StateWriter.StateFiles.Fill | seer/state.go:347-359 | writing and syncing the temporary file touches no state file, and a success leaves exactly the given bytes in it |
| StateWriter.StateFiles.Install | seer/state.go:360-371 | close, rename and directory sync: what the target holds for every point of failure |
| StateWriter.StateFiles.AtomicReplace | seer/state.go:330-372 | for every fault the target holds its old or its new content as that fault says, the other file is untouched, and the call is a run of the step system |
| StateWriter.StateFiles.WriteState | seer/state.go:275-306 | for every fault what both files hold, that the call is a run of the step system, that the fault returned is the first failing operation of that run, and success exactly when all succeeded |
| StateWriter.CheckpointSettled | seer/state.go:279-306 | a checkpoint over settled files: wherever along it the power fails, the files load the old or the new state; success leaves settled files that load the new one |
| StateWriter.EmptyDocumentFailsLoad | seer/state.go:87-92 | a first checkpoint makes the next load fail exactly when the state has no durable field |
| Delivery.AlarmCache.ReserveDelivery | seer/alert.go:155-185 | a delivery starts exactly when its key is free, its kind is due, and no PagerDuty trigger of it was accepted within five minutes; then only its key is added |
| Delivery.AlarmCache.CompleteDelivery | seer/alert.go:187-214 | frees the key; an acceptance sets or removes exactly its own entry, at its time, and a PagerDuty trigger its flap time |
| Delivery.AlarmCache.RecordDashboardAlarm | seer/alert.go:587-600 | sets the entry of one chain and message to the time, or removes it, and nothing else |
| Delivery.AlarmCache.ClearNoBlocks | seer/alert.go:101-114 | removes exactly the stalled alarms of the chain, in any iteration order |
| DeliveryProtocol.StepExclusive | seer/alert.go:155-214 | every step keeps reservations exactly the keys held, one sender each, each still justified |
| DeliveryProtocol.OneSenderPerKey | seer/alert.go:155-214 | in every run at most one sender holds a destination and message, and what justified it is still true |
| DeliveryProtocol.AcceptedAlternates | seer/alert.go:155-214 | what a destination accepts for a message alternates between trigger and resolution, from what was sent at the start |
| DeliveryProtocol.PagerDutyTriggersSpaced | seer/alert.go:175-214 | accepted PagerDuty triggers of one chain and message are at least five minutes apart |
| DeliveryProtocol.RejectionFreesKey | seer/alert.go:192-197 | a rejected delivery leaves sent, flapping and history alone and can be retried at once |
| DeliveryProtocol.DueDeliveryGoesThrough | seer/alert.go:155-214 | a delivery that may start can be carried through at once from any state, and is then recorded |
| DeliveryProtocol.DashboardStandsApart | seer/alert.go:101-114 | dashboard writes are possible at any time and touch no delivery |
| SerialWorker.NotificationWorker | seer/run.go:24-28 | the worker loop delivers the alerts one after the other, in order |
| SerialWorker.DeliverAlert | seer/run.go:30-46 | however the four concurrent deliveries of an alert interleave, and whenever each begins and ends, the cache ends as one function of the cache before |
| SerialWorker.DeliveredExactly | seer/run.go:30-46 | that cache, entry by entry: which destinations' entries are set, with their own completion times, or removed |
| SerialWorker.NotifyPagerDuty | seer/alert.go:522-558 | one reservation, at most two attempts, the second only after a failure; accepted if either was |
| SerialWorker.BeginsAlone | seer/run.go:37-45 | whether a delivery reserves does not depend on how far the others are |
| SerialWorker.Perform | seer/alert.go:155-214 | one move of one delivery, from any point of the four |
| SerialWorker.AcceptedAreChanges | seer/run.go:24-46 | for every destination but PagerDuty the accepted stream is the emitted one without what changes nothing or was rejected |
| SerialWorker.AlternatingStreamIsDelivered | seer/run.go:24-46 | when all is accepted an alternating emitted stream arrives whole and in order, and the alarm is left sent exactly after a trigger |
| SerialWorker.DashboardShowsOpenAlarms | seer/alert.go:587-600 | from a fresh start the dashboard shows a message exactly when the last word on it was a trigger |
| Shutdown.CheckpointIsFinal | seer/run.go:113-141 | once the checkpoint ran it holds the final state, no write followed it and none can |
| Shutdown.CheckpointHoldsAllAlerts | seer/run.go:113-239 | in every run of the program, a signal before the worker starts included, the checkpoint holds every alert ever sent, delivered, and the queue is empty |
| Shutdown.HoldsAllAlertsExactly | seer/run.go:113-141 | for the lifecycle alone, with alerts from any thread, that is so exactly when the worker was started or nothing was sent |
| Shutdown.OneCheckpoint | seer/run.go:113-141 | at most one checkpoint, none after a drain timeout |
| Shutdown.ChannelIsSafe | seer/runtime_state.go:35-68 | no send on the closed channel, no second close, never more than 64 queued |
| Shutdown.BothAtZero | seer/run.go:97-126 | waiting for monitors and then ingress finds both at zero together, and in every later state of the run they are |
| Shutdown.FirstInFirstOut | seer/run.go:24-28 | deliveries finish in the order the alerts were sent |
| Shutdown.ServedInOrder | seer/run.go:24-46 | each destination finishes the alerts in that order, each exactly once |
| Shutdown.DrainShortens | seer/run.go:113-130 | after the gate closed each draining step shortens the work left and no step adds any |
| Shutdown.DrainCanGoOn | seer/run.go:113-239 | in every run of the program some draining step is possible until the drain ends |
| Shutdown.DrainFinishes | seer/run.go:113-141 | every draining run of the program goes on by draining steps, no more than the work left, to the checkpoint |
| Shutdown.AlertCanBeSaved | seer/run.go:113-239 | a run of the program whose checkpoint holds a monitor's write and its alert, delivered everywhere |
| AlertPath.AlarmReachesDestination | seer/run.go:24-46 | end to end: when all is accepted, what a destination other than PagerDuty accepted for an alarm by shutdown is exactly what its latch emitted, and it stands as sent exactly when latched |
| LockedSnapshot.StoreStands | seer/state.go:224-247 | while a snapshot is under way no writer changes durable state |
| LockedSnapshot.SnapshotIsOneInstant | seer/state.go:224-265 | a finished piecewise snapshot equals the durable state of one instant, in every interleaving |
| LockedSnapshot.AccessUnderLock | seer/state.go:224-265 | which locks every copy and every write of durable state holds |
| LockedSnapshot.NoRace | seer/state.go:224-265 | no piece of durable state is ever open to a writer and to anyone else at once |
| LockedSnapshot.NoDeadlock | seer/alert.go:187-191 | whenever a thread has begun, some thread that has begun can go on |
| Restart.ClearStale | seer/types.go:533-545 | keeps exactly the alarms younger than 24 hours, in any iteration order |
| Restart.Config.SnapshotSavedState | seer/state.go:224-265 | the saved document of the running state, in any iteration order |
| Restart.Config.RestoreSavedState | seer/state.go:147-222 | the state after a restore, field by field |
| Restart.Config.RestoreDown | seer/state.go:198-209 | marks down exactly the nodes whose URL was saved with a time |
| Restart.Config.MarkNoNodes | seer/state.go:211-221 | a chain is without nodes when all its nodes are down, or it has none |
| RestartEquivalence.ChainRestoredExactly | seer/state.go:155-221 | a chain after restoring any document: its window, every node, and whether it counts as without nodes |
| RestartEquivalence.AlarmsRestoredExactly | seer/state.go:161-188 | the alarms after restoring any document, section by section |
| RestartEquivalence.DownSavedExactly | seer/state.go:224-247 | which chains and nodes the saved document lists as down, and since when |
| RestartEquivalence.NodeComesBack | seer/state.go:193-210 | a node comes back down exactly when the last down node of its URL had a time, and with that time |
| RestartEquivalence.SharedUrlBringsDown | seer/state.go:198-209 | two entries of one URL, one up and one down, from which both come back down |
| RestartEquivalence.NodesComeBack | seer/state.go:193-210 | with distinct URLs the same nodes are down since the same times, where there was a time |
| RestartEquivalence.BlocksComeBack | seer/state.go:155-159 | block windows come back unchanged |
| RestartEquivalence.SentComesBack | seer/state.go:165-188 | each destination's map and each chain's dashboard come back as their entries under a day old |
| RestartEquivalence.DecisionsComeBack | seer/state.go:161-188 | sending decisions are unchanged except exactly for day-old alarms and flap-held PagerDuty triggers |
| RestartEquivalence.RestartForgetsFlap | seer/state.go:161-188 | a PagerDuty trigger held back by the flap window that may be sent after a restart |
| RestartEquivalence.RestartForgetsOldAlarm | seer/types.go:533-545 | a trigger accepted a day ago that may be sent again after a restart |
| RestartEquivalence.DrainedHoldsNothing | seer/alert.go:192-194 | with no sender inside a delivery nothing is reserved |
| RestartEquivalence.RestartPreserves | seer/state.go:147-306 | through a successful checkpoint, any kills and power failures, a load and a restore: windows, down nodes, chains without nodes, sent alarms, dashboards and decisions, with exactly those exceptions |
| Encryption.OpenSealed | seer/encryption.go:98-100 | chained decryption undoes chained encryption |
| Encryption.SealOpened | seer/encryption.go:164-166 | chained encryption undoes chained decryption |
| Encryption.XorIsBitwise | seer/encryption.go:98-100 | a bit of the combination of two blocks is set exactly when the two bits differ |
| Encryption.UnpadPadded | seer/encryption.go:91-96 | padding is recognised and removed again |
| Encryption.PadUnpadded | seer/encryption.go:171-179 | well-padded whole blocks are the padding of what they unpad to |
| Encryption.GetKey | seer/encryption.go:30-58 | keys are derived exactly for an acceptable password, a known salt of 32 bytes not all zero, and a key not all zero; otherwise which error |
| Encryption.SealBlocks | seer/encryption.go:98-100 | each block of the result seals its block of the text combined with the result's block before it, the first with the vector |
| Encryption.OpenBlocks | seer/encryption.go:164-166 | each block of the result is its block opened and combined with the block before it, the first with the vector |
| Encryption.Encrypt | seer/encryption.go:61-123 | succeeds exactly for a non-empty plaintext and usable keys, with the Base64 of the file laid out byte by byte in `IsFile`; otherwise which error |
| Encryption.FramedIsFile | seer/encryption.go:79-118 | what encryption writes has that layout: salt, vector, chained blocks of the padded text, authentication code |
| Encryption.FileIsFramed | seer/encryption.go:79-118 | and only that has it |
| Encryption.DecryptParts | seer/encryption.go:141-180 | a file of the right length decrypts exactly when authentic and well padded |
| Encryption.Decrypt | seer/encryption.go:127-180 | gives a plaintext exactly when the decoded bytes are the file of that plaintext with the salt and vector found in it, on every input; otherwise which error |
| Encryption.RoundTrip | seer/encryption.go:61-180 | encrypting and decrypting gives the plaintext back exactly when the salt is not all zeros |
| Encryption.ZeroSaltLosesText | seer/encryption.go:30-58 | one byte encrypted under a salt of zeros that does not come back |
| Signing.ClassifyBlockEvent | seer/rpc_contract.go:100-113 | proposed, signed or missed by proposer and signers |
| Signing.ChainMonitor.RecordBlockResult | seer/runtime_state.go:144-154 | the window shows all results recorded so far, newest first, then what it began with, cut to its length; an unset one shows just the last |
| Signing.ChainMonitor.Count | seer/ws.go:163-182 | the six counters are the tallies of the results recorded so far, this one included |
| Signing.ChainMonitor.Consume | seer/ws.go:128-183 | after any stream and any reconnects the pending status, the window and the six counters are exact functions of the whole history |
| Signing.OneResultPerBlock | seer/ws.go:141-156 | every block of a known validator gets exactly one result, bonded or not |
| Signing.UnbondedBlock | seer/ws.go:141-156 | a block while not bonded gets what was pending, and no data when nothing was |
| Signing.PendingExactly | seer/ws.go:128-156 | pending are exactly the votes seen while bonded since the last block or connection |
| Signing.ConsecutiveExactly | seer/ws.go:163-182 | the consecutive misses are the misses since the last signed block, results without data aside |
| Signing.KindsAre | seer/ws.go:163-182 | which stored results count as which kind |
| Signing.BestIsMaximum | seer/ws.go:141-143 | the status kept for a block is the largest of the updates seen, or no data |
| Signing.BlocksPartition | seer/ws.go:163-182 | signed, missed and no-data results together are the blocks seen |
| Signing.BondedResultHasData | seer/ws.go:141-156 | a result recorded while bonded is never without data |
| Signing.ResultMeaning | seer/rpc_contract.go:100-129 | what each result means in terms of proposer, signers and votes seen |
| Signing.RoundResult | seer/ws.go:141-156 | the consumer records that result for a round of a bonded validator |
| Signing.ForeignVotes | seer/ws.go:141-143 | for votes of any heights in any order, what a round records is what the votes of the block's height give, exactly when no vote of the validator for another height is better |
| Signing.LateVoteCountsForNextBlock | seer/ws.go:141-143 | a late precommit turns the next missed block into a precommit miss |
| Latches.ChainWatch.RecordFinalBlock | seer/alert.go:678-687 | returns the time of the final block before, and sends nothing |
| Latches.ChainWatch.CheckStalledAlert | seer/alert.go:638-674 | over the watch's history: a stall is reported exactly when none is open and the last final block is too old, its end exactly when a final block came since |
| Latches.ChainWatch.CheckPercentageAlert | seer/alert.go:695-731 | without a window or when disabled nothing is sent and nothing moves; otherwise the alarm is open exactly above the threshold, or at it if it was open |
| Latches.ChainWatch.CheckConsecutive | seer/alert.go:852-877 | afterwards the alarm is open exactly when the limit is reached and its alerts are enabled or it was open |
| Latches.ChainWatch.WaitForMoniker | seer/alert.go:741-768 | an alert exactly when no node is seen, no alarm is open and the seconds waited in all have reached the limit |
| Latches.ChainWatch.PollNodes | seer/alert.go:787-818 | when disabled nothing is sent and nothing moves; otherwise the alarm is open exactly when no node was seen and it was open or the unbroken run of such polls exceeds the limit |
| Latches.ChainWatch.Run | seer/alert.go:736-877 | the whole watch: every second of waiting and all four checks of every round happen in order, and for each alarm the alerts sent alternate, beginning with a trigger |
| Latches.AlertsAlternate | seer/alert.go:638-877 | each alarm's alerts alternate beginning with a trigger, and its latch says which came last |
| Latches.DisabledSendsNothing | seer/alert.go:638-877 | an alarm that is not enabled never sends anything |
| Latches.PendingMeansStalled | seer/alert.go:678-687 | a pending resolution belongs to an open stalled alarm |
| Latches.ResolutionNeedsBlock | seer/alert.go:645-648 | between a stalled trigger and its resolution a final block was recorded |
| Latches.StalledExactly | seer/alert.go:638-653 | a stall is reported exactly when none is open and the last final block is too old, its end exactly when a final block came since |
| Latches.PercentageHysteresis | seer/alert.go:702-713 | the alarm is open above its threshold, closed below, unchanged at it |
| Latches.PercentageThreshold | seer/alert.go:702-707 | the percentage comparison is the integer comparison for a positive window |
| Latches.NoNodesDebounced | seer/alert.go:787-818 | a main-loop trigger happens exactly when an unbroken run of no-node polls exceeds the limit |
| Latches.StartupIsNotDebounced | seer/alert.go:742-768 | a startup trigger depends on all seconds waited and on the one poll |
| Latches.OneSecondRaisesNoNodes | seer/alert.go:742-768 | a minute of waiting with usable nodes and one second without raises a one-minute alarm |
| Endpoints.ChainRpc.NewRpc | seer/rpc.go:19-124 | selects exactly the first healthy node among those up at entry, or among all if none was; what every node, the client and the no-nodes flag are afterwards |
| Endpoints.IsFirstExactly | seer/rpc.go:59-124 | the node selected is the first healthy one among those up, or among all when none is up |
| Endpoints.ChainRpc.HealthProbe | seer/rpc.go:140-188 | every field of the node, and the no-nodes flag, after a health probe |
| Endpoints.EmptyPassMarksAllDown | seer/rpc.go:59-82 | a pass without selection leaves every node down and moves no existing down time |
| Endpoints.SecondPassSelects | seer/rpc.go:70-82 | a node healthy in two passes in a row makes one of them select |
| Endpoints.DownSinceOutageBegan | seer/rpc.go:59-68 | a node is down exactly during an outage, with the time the outage began, unless a probe began it for a node without a down alert |
| Endpoints.WasDownExactly | seer/rpc.go:140-188 | a node counts as having been down exactly when an outage of it ended |

## Left out

- Error texts of state decoding: a document is accepted or refused.
- HTTP, Telegram, PagerDuty and Slack clients and message building: an attempt is accepted or not.
- The consensus RPC adapter, address and protobuf decoding, and websocket dialing: wrappers around libraries.
- The hexadecimal form of consensus addresses: addresses are compared as given.
- Configuration loading, command line, legacy path selection, chain registry: input and shallow branching.
- Dashboard server, Prometheus exporter and logs: presentation.
- The jailed alert, which compares two snapshots of the validator, and the node-down alerts, which follow each node's state: the four alarms with a latch of their own are modelled.
- The 512-entry first fill of the result window: the window begins with any content.
- Invalid UTF-8 and out-of-range times in JSON: the codec law covers what encodes.
- Floating point: counters are natural numbers and the missed percentage is an exact rational.
- Permission bits and leftover temporary files: no load depends on them.
- Whether a cancelled monitor ever stops: a monitor may go on writing until it exits; only the drain steps are shown to make progress.
- EveryLoadIsRecent: a document without any durable field may only be stored over an existing primary or beside a backup (`Storable`); snapshots always have all fields.
