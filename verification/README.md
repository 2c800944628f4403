# BeaconGuardian agent: a verified model

BeaconGuardian is an endpoint agent. It enforces firewall rules that a server decides, watches the host
(network, USB, files, browsers, processes, mouse biometrics) and forwards what it sees. This project models
the parts of the agent that keep state over time and proves, for every input and every run, what they keep.

* **Hybrid firewall synchronisation.** Channel A reconciles whole snapshots, channel B applies single commands;
  both share one rule table and one JSON state file. `RuleLog` is the theory of "the last write wins";
  `RuleNames`, `SortedIds`, `FirewallApplier`, `StateStore`, `CommandReceiver` and `DesiredStateSync` model the
  code; `Reconciliation` says what one reconcile achieves under any failures, entry by entry of the snapshot, and
  `PollOutcome` what one poll achieves, command by command. `HybridSync` is the transition
  system in which every single rule write, store update, hand-over, crash, server append and local block is a
  step of its own. `Convergence` and `ConvergenceReached` prove what its runs guarantee and `CutReplays` what an
  unreadable state file can do to them. `ChannelRefinement` proves that whole calls of the modelled code are runs
  of it, `Interleavings` that every interleaving of the code's single steps is one, and `SequentialCalls` that the
  calls are such steps one after the other.
* **Offline event queue.** `EventQueue` is the code, `QueueRuns` its interleavings of enqueues, snapshots, single
  sends, commits and restarts, `QueueOverlap` what overlapping flushes do to the retry limit, `QueueDrain` the
  bound on how long a queue takes to empty.
* **Monitors.** `TrafficThrottle` and `NetworkMonitor` (traffic aggregation), `UsbScan` (bounded tree listing),
  `FileDedup` (deduplication with pruning), `BrowserHistory` (watermark cursors), `SnapshotDiff` (start and
  stop events).
* **`BiometricEngine`** (mode machine and windows) and **`BeaconClient`** (login backoff and retry loop).

What the world answers (PowerShell, the server, the clock, the file system, senders, training) is a parameter
everywhere, so each statement holds for every pattern of answers. Classes carry the fields the source updates;
their methods are proved against functions of the old state, and the lemmas are about those functions.

Where the code and its documentation disagree, the model follows the code:

* `docs/FIREWALL_INTEGRATION.md:125` and `docs/FIREWALL_INTEGRATION.md:144` promise that the next cycle of A
  repairs what B failed to do. A cycle skips an equal revision (`src/firewall/desired_state_sync.py:82`), so
  this is false: `BFailureNotRepaired` gives a run, and `RepairExact` says exactly when the agent can get its
  table right by itself as long as its store works.
* `docs/FIREWALL_INTEGRATION.md:12-15` asks for idempotent application. A removal can fail without an error
  (`SilentRemovalFailure`), so a second reconcile without errors may still change rules; `SecondReconcileIdle` says
  exactly when it does not.
* The warning at `src/monitors/network_monitor.py:121-124` announces an early flush; the code discards the
  table. `TrafficConservation` accounts for it, `CapDiscards` gives the packets, and `NothingDiscardedExact` says
  exactly when nothing is lost.

## Model

| member | source | states |
|---|---|---|
| RuleLog.ReplaySuffixExact | src/firewall/command_receiver.py:108-154 | Replaying any suffix of a last-writer-wins log turns a table into the log's final state if and only if the table already agrees with it on the ids the suffix does not touch. |
| RuleLog.ReplayOntoFinalState | src/firewall/command_receiver.py:82-154 | Replaying any suffix of the log onto its final state changes nothing, so B's replays are harmless to a table that is right. |
| RuleLog.SuffixHasLastWord | src/firewall/command_receiver.py:108-145 | On every id it touches, a suffix of a log has the same last word as the whole log. |
| RuleLog.CutReplayExact | src/firewall/command_receiver.py:82-162 | Replaying a log onto its final state and stopping after n commands changes nothing if and only if these commands already contain the last write of every id they touch. |
| RuleNames.PrintedNameListed | src/firewall/wfas_applier.py:15-17 | A printed display name is listed again under the id it was printed for if and only if the prefix ends in exactly one slash and the id is a non-negative 32-bit `[int]`. |
| RuleNames.ListedNamePrinted | src/firewall/wfas_applier.py:64-77 | A listed name is the printed name of the id the listing yields if and only if its digits have no leading zero. |
| RuleNames.ListingRoundTrip | src/firewall/wfas_applier.py:60-95 | The listing recovers exactly the ids whose printed names are present if and only if no name with leading zeros stands in for an absent printed name. |
| RuleNames.DecimalInjective | src/firewall/wfas_applier.py:15-17 | Different ids print different decimals, and only non-negative ids print digits throughout. |
| RuleNames.NormalPrefixOneSlash | src/firewall/wfas_applier.py:26-31 | The normalised prefix ends in exactly one slash, as the name round trip needs, if and only if the trimmed configured prefix does not end in two; a trailing slash does not change the names printed. |
| RuleNames.StripIdempotent | src/firewall/command_receiver.py:84-102 | Trimming trimmed text changes nothing, so a cursor survives being stored and sent again. |
| RuleNames.StripExactly | src/firewall/command_receiver.py:84-102 | Trimming takes all spaces off both ends and nothing else. |
| SortedIds.Sorted | src/firewall/wfas_applier.py:272-274 | The removal order holds exactly the ids of the set, strictly rising. |
| FirewallApplier.WindowsFirewallApplier.constructor | src/firewall/wfas_applier.py:26-31 | The prefix in use is not empty and ends in a slash, in exactly one if and only if the trimmed configured one does not end in two, and prints the same names as the configured one. |
| FirewallApplier.WindowsFirewallApplier.ListManagedRuleIds | src/firewall/wfas_applier.py:60-95 | Strictly rising ids, all non-negative and in range, exactly those under which some rule is listed when the system is supported and the listing answered; no errors exactly when it did without complaint. |
| FirewallApplier.WindowsFirewallApplier.RemoveRule | src/firewall/wfas_applier.py:97-104 | Only the rule of this id can go; failure is reported only with both an exit code and an error text. |
| FirewallApplier.WindowsFirewallApplier.UpsertRule | src/firewall/wfas_applier.py:106-154 | A refused address leaves the old rule, a failed creation leaves none, success leaves the content; no other rule changes. |
| FirewallApplier.AcceptedExactly | src/firewall/wfas_applier.py:117-128 | A list of addresses is accepted if and only if it is not empty, no address in it is, and every character is a letter, a digit or one of `:.-_/%`. |
| FirewallApplier.WindowsFirewallApplier.ApplyBCommand | src/firewall/wfas_applier.py:196-241 | Case by case, with the rule before and after: an upsert goes by the flat `ruleId`, or by the nested rule when there is none, and leaves the content, no rule after a failed creation, or the old rule when refused; a deletion leaves no rule when it works; no other name changes; which errors are returned; and it raises exactly on an upsert whose id is null or no integer. |
| FirewallApplier.WindowsFirewallApplier.Reconcile | src/firewall/wfas_applier.py:243-292 | Removals then upserts, as one trace of writes with every reply pattern; the errors in order; the stored ids are the final listing. The rows that follow say what that is, entry by entry. |
| Reconciliation.EntryDecides | src/firewall/wfas_applier.py:255-282 | Under any failures, the last entry of an id whose upsert was not refused and ran decides its rule: that content, or none when the creation failed. |
| Reconciliation.EntryReconciled | src/firewall/wfas_applier.py:255-282 | The last entry numbered n, with accepted addresses and a creation that works, is the rule of n afterwards. |
| Reconciliation.EntriesSkipped | src/firewall/wfas_applier.py:117-128 | An id all of whose entries are refused or never run keeps the rule it had. |
| Reconciliation.NamedIdsStay | src/firewall/wfas_applier.py:268-274 | An id is removed if and only if the listing answered, some rule is listed under it, and no entry of the snapshot carries it. |
| Reconciliation.EntryParsed | src/firewall/wfas_applier.py:253-264 | Every numbered entry is parsed, in order, so the reply to its upsert is the one for its place among the numbered entries. |
| Reconciliation.ParseErrorsExact | src/firewall/wfas_applier.py:253-264 | There is one error for each entry whose id is null or no integer. |
| Reconciliation.CleanExactly | src/firewall/wfas_applier.py:243-292 | A reconcile reports no error if and only if no entry has a bad id, the listing did not complain, no removal of a listed id outside the snapshot reported a failure, every numbered entry was accepted and created, and the profiles were enabled. |
| Reconciliation.ErrorsNameFailures | src/firewall/wfas_applier.py:243-292 | Each error stands for what went wrong: the removals and upserts that failed, under their ids, and no others. |
| Reconciliation.UndesiredId | src/firewall/wfas_applier.py:271-277 | Under any failures, an id outside the snapshot is gone exactly when it was listed and its removal took effect, else unchanged. |
| Reconciliation.DesiredId | src/firewall/wfas_applier.py:279-282 | A desired id ends as its last effective upsert left it: with that content, or absent when rule creation failed. |
| Reconciliation.DesiredIdRefused | src/firewall/wfas_applier.py:117-128 | A desired id whose every upsert was refused or never ran keeps the rule it had. |
| Reconciliation.CleanReconcileById | src/firewall/wfas_applier.py:243-292 | Whenever no error is reported, an id the snapshot numbers ends as its last entry says, and any other id goes exactly when it is listed and its removal worked. |
| Reconciliation.LastEntryWins | src/firewall/wfas_applier.py:255-282 | What the snapshot says of an id is its last entry of that number. |
| Reconciliation.SnapshotParsed | src/firewall/wfas_applier.py:255-264 | The parsed rules, folded with the last duplicate winning, are what the snapshot says of each id. |
| Reconciliation.CleanReconcileExact | src/firewall/wfas_applier.py:243-292 | A reconcile that reports no error makes the managed rules equal the snapshot if and only if every rule outside the snapshot has a listable id, the listing answered, and the removal of that id worked. |
| Reconciliation.SecondReconcileIdle | docs/FIREWALL_INTEGRATION.md:12-15 | Of two reconciles of one snapshot that report no error, the second changes no rule of the firewall if and only if it removes no id whose removal silently failed in the first. |
| Reconciliation.StoredIdsExact | src/firewall/wfas_applier.py:291-292 | After a reconcile that reports no error and whose last listing answered, the decimals stored are those of the listable ids of the snapshot, of those whose removal silently failed, of those a foreign rule spells with leading zeros, and no others. |
| Reconciliation.ForeignRulesUntouched | docs/FIREWALL_INTEGRATION.md:12-15 | No sequence of writes, so no run of reconciles and B commands, changes a rule whose name was not printed for an id. |
| Reconciliation.SilentRemovalFailure | src/firewall/wfas_applier.py:97-104 | A removal that fails with a blank error text leaves a reconcile without errors and the rule still there, and a later reconcile of the same snapshot, again without errors, changes it. |
| StateStore.LocalStateStore.Load | src/firewall/local_state_store.py:36-47 | The normal form of the file, or the defaults when the file is absent, unreadable, not a dictionary or not normalisable. |
| StateStore.LocalStateStore.Save | src/firewall/local_state_store.py:62-64 | Writes the normal form, or raises and leaves the file. |
| StateStore.LocalStateStore.MergeUpdate | src/firewall/local_state_store.py:66-73 | Replaces the file by load, assign, normalise as one step, or raises and leaves it. |
| StateStore.NormalizeIdempotent | src/firewall/local_state_store.py:23-34 | Normalising a normalised state changes nothing. |
| StateStore.LoadAfterSave | src/firewall/local_state_store.py:58-64 | Loading after a save gives the normal form of what was saved. |
| StateStore.MergeShows | src/firewall/local_state_store.py:66-73 | One channel's update never raises by itself and changes its own fields only; a failed read first resets the other channel's fields to the defaults. |
| StateStore.NoLostUpdate | src/firewall/desired_state_sync.py:99-105 | However the updates of A and B interleave, revision and rule ids are those of A's latest and the command id is that of B's latest. |
| CommandReceiver.FirewallCommandReceiver.Since | src/firewall/command_receiver.py:83-84 | The cursor sent is not blank and already trimmed, and there is none exactly when nothing but spaces is stored; NextSinceFollowsBatch says what it asks for. |
| CommandReceiver.FirewallCommandReceiver.HandOver | src/firewall/command_receiver.py:108-145 | Commands are handed over in order up to and including the first that raises; exactly those before it write. |
| CommandReceiver.FirewallCommandReceiver.PollOnce | src/firewall/command_receiver.py:82-162 | The request carries the stored cursor; rules and file change as the batch says, the file only after a whole batch; what each way of ending does to the error streak and how long the loop then pauses. |
| CommandReceiver.CursorAcknowledgesBatch | src/firewall/command_receiver.py:147-154 | After a batch the stored cursor acknowledges exactly the commands up to the end of that batch. |
| CommandReceiver.NextSinceFollowsBatch | src/firewall/command_receiver.py:82-154 | After a poll whose cursor could be stored, the next request asks for exactly what follows the batch; after any other poll, for what this one asked. |
| CommandReceiver.ErrorPauseBounds | src/firewall/command_receiver.py:159-162 | The pause after an error is 2, 4, 8, 16 or 32 seconds by the number of errors in a row, so the cap of 60 in the code never applies. |
| PollOutcome.MeaningExactly | src/firewall/wfas_applier.py:196-241 | What a server command means: which commands set an id to a content, drop it, name it, or raise. |
| PollOutcome.LogState | src/firewall/command_receiver.py:108-145 | The server's log leaves an id as the last command that names it says. |
| PollOutcome.PollDecides | src/firewall/command_receiver.py:108-145 | A poll leaves an id as the last command before the first raising one whose handler had an effect on it. |
| PollOutcome.PollKeeps | src/firewall/command_receiver.py:108-145 | An id on which no handler had an effect keeps its rule. |
| CommandReceiver.CursorStored | src/firewall/command_receiver.py:147-154 | The cursor stored after a whole batch is the trimmed `lastCommandId`, or the id of the last command when that is missing or blank; without either the file stays. |
| DesiredStateSync.FirewallDesiredStateSync.SyncCycle | src/firewall/desired_state_sync.py:70-122 | An equal revision is skipped; any other, lower ones included, is reconciled and stored even with errors; the status reported; the return value and failure streak of each case, including a report that raises after the revision is stored. |
| DesiredStateSync.CycleStores | src/firewall/desired_state_sync.py:82-105 | A cycle with another revision stores exactly that revision and the ids the reconcile found, errors or not, and keeps the cursor of channel B. |
| HybridSync.InvKept | src/firewall/desired_state_sync.py:70-105 | Each single step of either thread, a failing write, a crash, an unreadable load, a server append or a local block included, keeps the invariant: bounds, in-order delivery, and every id the last reconcile covered right, suspect, ahead of B or still to be written by A; except a step that cuts short what a channel does again while no reconcile of this log is to come. |
| HybridSync.InvAlongRun | src/firewall/command_receiver.py:82-154 | The invariant holds along every run in which nothing that is done again is cut short. |
| HybridSync.SafeInvAlongRun | src/firewall/command_receiver.py:82-162 | Bounds, in-order delivery, and that no command that raises is ever behind B, hold along every run whatsoever. |
| HybridSync.SightedIsUncut | src/firewall/local_state_store.py:36-47 | A run in which both channels can read their own fields never does anything again, so it is such a run. |
| Convergence.ChannelsConverge | docs/FIREWALL_INTEGRATION.md:127-131 | In every run, whatever fails, unreadable loads included as long as what they make a channel do again is not cut short: once A has stored the last revision and B is done, an id is as the server's log says if its last attempted write was a channel's and left what it meant to, and the last reconcile covered it: it is in the log's state, or can be listed and that reconcile's listing worked. |
| Convergence.LastAttemptHolds | src/firewall/wfas_applier.py:97-154 | In every run, an id whose last write did not go wrong holds what that write meant to leave, or what it had at first when nothing was written. |
| Convergence.SyncedTableExact | docs/FIREWALL_INTEGRATION.md:127-131 | In sync at the end of such a run, after a working listing and with no write gone wrong, the whole table is the state of the log if and only if each id outside it that no listing can see was removed last, or was never there nor written. |
| Convergence.FaultlessConvergence | docs/FIREWALL_INTEGRATION.md:147 | After any history, a continuation in which every write and listing works and nothing done again is cut short, beginning before A has started on the last revision and ending in sync, is right on every id that can be listed or is in the server's final state. |
| Convergence.FullConvergence | docs/FIREWALL_INTEGRATION.md:127-131 | After such a continuation, if the log leaves behind no id it once wrote that no listing can see, the whole managed table equals the fold of the server's log if and only if every unlistable id of the first table is in it. |
| Convergence.FaultlessTableExact | docs/FIREWALL_INTEGRATION.md:127-131 | The same for any log, unlistable ids it finally deletes included: the table equals the fold if and only if each id out of reach was removed last, or was never there nor written. |
| Convergence.UnlistableIdStranded | src/firewall/wfas_applier.py:64-77 | In every run, whatever works or fails, an id that no listing can see and the server never names keeps exactly the rule it had. |
| Convergence.NegativeIdStranded | src/firewall/wfas_applier.py:64-77 | For every unlistable id there is a faultless run that ends in sync with the leftover rule still there. |
| Convergence.AtLeastOnceInOrder | src/firewall/command_receiver.py:82-154 | In every run, with exceptions mid-batch, restarts and unreadable cursors, the stored cursor never passes a command that was not handed over, and no command is handed over before all earlier ones. |
| Convergence.PoisonBlocksCursor | src/firewall/command_receiver.py:159-162 | No run moves the cursor past a command whose handler raises. |
| Convergence.InSyncIsAtRest | src/firewall/desired_state_sync.py:81-85 | In sync, as long as the store can be read and no merge loses a field, nothing either thread does changes the table until the server has news. |
| Convergence.BFailureNotRepaired | docs/FIREWALL_INTEGRATION.md:144 | A run from a fresh start after which a failed command of B is never repaired without news from the server, as long as the store can be read and no merge loses a field. |
| ConvergenceReached.ConvergenceReachable | docs/FIREWALL_INTEGRATION.md:122-125 | Whenever A's stored revision is behind and no command ahead of the cursor raises, a restart, one poll and one cycle reach sync with every reached id right. |
| ConvergenceReached.CycleReaches | src/firewall/desired_state_sync.py:70-105 | One cycle of A alone gets every id it reaches right whenever A reconciles, even with a command ahead of B that raises: while the stored revision is behind, or when A cannot read it, which is how an unreadable load repairs what a readable one skips. |
| ConvergenceReached.SyncReachableExact | src/firewall/command_receiver.py:82-162 | From any state of any run, its revision stored or not, sync can be reached without news from the server if and only if no command ahead of the cursor raises. |
| ConvergenceReached.RepairExact | docs/FIREWALL_INTEGRATION.md:144 | Between polls and cycles, as long as the store can be read and no merge loses a field, wherever B's cursor stands and whether a command ahead raises or not, the agent can get every reached id right by itself if and only if the stored revision differs from the published one, or each wrong id is touched, by a command that can leave it right, before B stops. |
| ConvergenceReached.MendableAhead | src/firewall/command_receiver.py:108-145 | When no command ahead raises, an id can be mended exactly when some command ahead of the cursor touches it. |
| CutReplays.ReplayCutExact | src/firewall/local_state_store.py:36-47 | When all is well and B, unable to read its cursor, starts over and is stopped after n commands, both channels are in sync with nothing suspect, and the table is right if and only if these commands contain the last write of every id they touch; so a finished replay does no harm. |
| CutReplays.RewriteCutExact | src/firewall/local_state_store.py:36-47 | The same for A reconciling again a revision it could not read: only a snapshot that lists an id twice with different contents can do harm. |
| CutReplays.BlindReplayBreaks | src/firewall/command_receiver.py:82-162 | An instance that does harm: of two upserts of one id only the first is replayed, and its content stays although every write worked. |
| ChannelRefinement.PollIsRun | src/firewall/command_receiver.py:82-162 | One poll of the modelled code is a run of the transition system between corresponding states, also when it is not answered, a command makes it raise, or its file cannot be read before or at the update, or not written. |
| ChannelRefinement.CycleIsRun | src/firewall/desired_state_sync.py:70-122 | One cycle of the modelled code is a run of the transition system between corresponding states: unanswered, skipped or reconciling, whatever its listing and its writes achieve, with any prefix, with foreign rules that alias managed ids, on an unsupported system, and with a store that cannot be read or written. |
| Interleavings.StepSimulated | src/firewall/command_receiver.py:82-162 | Each single step of the code of either channel, of the server or of the local block controller, between any steps of the others, is matched by steps of the transition system. |
| Interleavings.InterleavingIsRun | docs/FIREWALL_INTEGRATION.md:127-131 | Every interleaving of these steps, a half-done reconcile with whole polls in between included, is a run of the transition system that ends in a corresponding state. |
| SequentialCalls.PollIsSteps | src/firewall/command_receiver.py:82-162 | The rules and the file a whole poll leaves are those of its steps one after the other. |
| SequentialCalls.CycleIsSteps | src/firewall/desired_state_sync.py:70-105 | The rules and the file a whole cycle leaves are those of its steps one after the other. |
| EventQueue.EventQueue.Enqueue | src/core/event_queue.py:110-128 | The new row comes last with no failures; below 10000 rows nothing leaves, from 10000 on the table ends with 10000 rows, the old ones kept being the newest. |
| EventQueue.EventQueue.Snapshot | src/core/event_queue.py:143-148 | The oldest rows, as many as the batch size allows, in id order. |
| EventQueue.EventQueue.SendAll | src/core/event_queue.py:153-179 | Every row of the batch is sent, retried or dropped, by its text, its answer and its failures so far. |
| EventQueue.EventQueue.Commit | src/core/event_queue.py:181-198 | Whatever happened to the table since the snapshot, each row present gets the fate its verdict calls for and rows without one stay. |
| EventQueue.EventQueue.FlushBatch | src/core/event_queue.py:138-207 | An uninterrupted flush; nothing happens before both senders are registered. |
| EventQueue.CommitSettles | src/core/event_queue.py:182-198 | The two deletes and the update of the commit amount to settling the table row by row. |
| EventQueue.FlushedExactly | src/core/event_queue.py:138-198 | After a whole flush a row of the batch is still there, with one failure more, if and only if it decodes, was refused and had failed fewer than 19 times; rows beyond the batch are untouched. |
| QueueRuns.Conservation | src/core/event_queue.py:110-198 | In every interleaving of enqueues, snapshots, single sends, commits and restarts, with any number of overlapping flushes: each id ever handed out is pending or has exactly one fate, only ids a sender has accepted count as sent, ids are never reused for another payload, and the table has at most 10000 rows. |
| QueueRuns.EvictsExactly | src/core/event_queue.py:112-121 | An enqueue evicts a row if and only if 10000 are pending and the row is the oldest of them. |
| QueueRuns.RowsLeaveForReasons | src/core/event_queue.py:112-198 | In every interleaving a row is evicted only after 10000 later ones were queued, dropped as malformed only when its text does not decode, and marked sent only when its sender accepted it. |
| QueueRuns.FatesAreFinal | src/core/event_queue.py:182-198 | No later event, a stale commit included, revives a row or changes why it left. |
| QueueRuns.AcceptedIsSettled | src/core/event_queue.py:153-198 | With one flusher, and as long as no restart meets an acceptance that is not committed, an accepted row has left the table as sent or evicted, or waits for the commit of the flush that saw it accepted. |
| QueueRuns.RestartLosesExactly | src/core/event_queue.py:153-198 | A restart keeps this guarantee if and only if no flush under way has seen a row accepted that is neither sent nor evicted yet. |
| QueueRuns.LostRowIsPending | src/core/event_queue.py:153-198 | Each acceptance such a restart loses leaves its row pending. |
| QueueRuns.RestartForgetsAcceptance | src/core/event_queue.py:153-198 | Such a restart occurs: stopped right after an acceptance, every queue keeps the accepted row pending, to be sent again. |
| QueueRuns.RetryExactness | src/core/event_queue.py:170-179 | With one flusher a row's counter is the number of its committed failed sends and below 20, and a row is dropped for its retries exactly when that number reaches 20. |
| QueueOverlap.OverlapBound | src/core/event_queue.py:143-198 | With at most m flushes under way at once, no pending row ever counts more than 18 + m failures. |
| QueueOverlap.OverlapBreaksRetryLimit | src/core/event_queue.py:92-98 | The bound is reached for every m: a run with at most m flushes under way after which a row is pending with 18 + m counted failures, past the limit of 20 from two flushers on. |
| QueueRuns.UninterruptedFlush | src/core/event_queue.py:138-207 | A snapshot followed by its sends and its commit is the queue's own flush. |
| QueueDrain.FlushUsesAttempts | src/core/event_queue.py:138-198 | Every flush of a non-empty table strictly lowers the sum of the attempts left. |
| QueueDrain.TwentyFlushes | src/core/event_queue.py:138-198 | Twenty flushes clear as many rows as one batch holds, whatever the senders answer. |
| QueueDrain.DrainBound | src/core/event_queue.py:138-198 | With no new rows and one flusher, N pending rows are gone after 20 * ceil(N / batch size) flushes, whatever the senders answer. |
| TrafficThrottle.RankedIsStableSort | src/monitors/network_monitor.py:170-174 | The ranking is a permutation with falling bytes that keeps records of equal bytes in order. |
| TrafficThrottle.ThrottleKeepsTotals | src/monitors/network_monitor.py:165-200 | At most 300 records are sent, with the same total bytes and packets. |
| TrafficThrottle.ThrottleKeepsLargest | src/monitors/network_monitor.py:165-200 | On overflow the 299 largest records stay, in falling order; kept and summarised together are a permutation of the input, and the last record carries the sums of the rest under the overflow key. |
| NetworkMonitor.NetworkMonitor.PacketCallback | src/monitors/network_monitor.py:115-135 | The packet is counted under its key and sets the last time; a new key starts with its own time, and at 50000 keys first clears the table. |
| NetworkMonitor.NetworkMonitor.GetAndClearTraffic | src/monitors/network_monitor.py:268-316 | One record per key held, in insertion order, with bytes, packets and the whole seconds between first and last packet, at least one; the table is empty afterwards. |
| NetworkMonitor.NetworkMonitor.Interval | src/monitors/network_monitor.py:146-163 | One interval hands over the throttled form of everything held. |
| NetworkMonitor.TrafficConservation | src/monitors/network_monitor.py:95-200 | Over any run, bytes and packets handed over, held and discarded by the cap add up to those captured, and no interval hands over more than 300 records. |
| NetworkMonitor.NothingDiscardedExact | src/monitors/network_monitor.py:117-125 | Over any run nothing is discarded if and only if no packet of a new connection arrives at a full table. |
| NetworkMonitor.CapDiscards | src/monitors/network_monitor.py:117-125 | The packets that do it: one each of 50001 connections discards the traffic of the first 50000. |
| NetworkMonitor.TableGroupsWindow | src/monitors/network_monitor.py:115-135 | At any time the table is the exact group-by of the packets since the last swap or clear: keys in order of appearance, each with its bytes, its packets and the times of its first and last packet; at most 50000 keys. |
| UsbScan.UsbScanner.RecursiveScan | src/monitors/usb_monitor.py:261-286 | At any depth and with any budget left, the scan adds exactly as much of the directory's unbounded listing as the budget allows, and it terminates. |
| UsbScan.UsbScanner.ScanUsbFiles | src/monitors/usb_monitor.py:255-289 | The result is the lines of the first 1000 items of the unbounded listing and the counter counts those items; when nothing fails there is one line for every entry of the first three levels, up to 1000. |
| UsbScan.ScanIsPrefix | src/monitors/usb_monitor.py:255-289 | When nothing fails there is one path for every entry at most three names deep, as many as the tree has entries on these levels, in pre-order; and the scan returns the lines of the first 1000 of them, each at the level of its path. |
| UsbScan.ListingPaths | src/monitors/usb_monitor.py:261-286 | Failures included, the unbounded listing has exactly one item for each path of at most three names that no failing entry cuts off, at the level of that path, each directory before what is below it and that before the next sibling. |
| UsbScan.ListingCounts | src/monitors/usb_monitor.py:261-286 | When nothing fails the listing of a directory has as many items as the tree has entries on the levels left. |
| UsbScan.EntriesSorted | src/monitors/usb_monitor.py:270-272 | Each directory is listed as a permutation of its entries, directories first, then by lower-case name, and entries that compare equal in the order they came. |
| FileDedup.FileWatcher.EventCallback | src/monitors/file_watcher.py:98-114 | An event is emitted if and only if the filter lets it through and its key was last emitted at least a second ago or is not held; the map then holds its time, keeps the other times, and forgets only from 1000 entries on and only what is two seconds old. |
| FileDedup.PruningIsInvisible | src/monitors/file_watcher.py:105-114 | For nondecreasing times, deduplication with pruning decides as a map that never forgets would. |
| FileDedup.FullIsLastEmission | src/monitors/file_watcher.py:105-109 | The map that never forgets holds a key exactly when it was emitted, with the time of its last emission. |
| FileDedup.EmissionsApart | src/monitors/file_watcher.py:105-109 | Emissions of one path and type are at least one second apart. |
| FileDedup.SuppressionHasReason | src/monitors/file_watcher.py:107-108 | Each suppressed event has an emission of the same path and type less than a second earlier. |
| FileDedup.EmittedExactly | src/monitors/file_watcher.py:98-114 | Over any run an event is emitted if and only if the filter lets it through and each earlier emission of its path and type is at least a second older. |
| BiometricEngine.BiometricEngine.FeedData | src/core/biometric_engine.py:96-113 | What one sample does in each mode, when it starts a training thread, and that with a target of zero every collected sample raises and none starts one. |
| BiometricEngine.BiometricEngine.TrainingWindows | src/core/biometric_engine.py:131-134 | The training sequences are all slices of seq_len consecutive samples, in order, and none when there are too few. |
| BiometricEngine.BiometricEngine.FinishTraining | src/core/biometric_engine.py:162-171 | Success guards with an emptied buffer; failure collects again and keeps the samples. |
| BiometricEngine.BiometricEngine.AnalysisWindow | src/core/biometric_engine.py:188-191 | The window analysed is a full one, and there is one exactly while guarding with a full buffer. |
| BiometricEngine.ModeMachine | src/core/biometric_engine.py:96-171 | Over every run without a reset: at most one training in flight, none ever with a target of zero, the run after k failures sees exactly the first target + k collected samples in order and starts as soon as they are there, and the inference buffer is the last seq_len samples fed while guarding. |
| BiometricEngine.TrainingDropsSamples | src/core/biometric_engine.py:96-113 | A sample fed while training runs leaves no trace in any later state. |
| BiometricEngine.AnalysesLastSamples | src/core/biometric_engine.py:188-194 | Over every such run an analysis takes place exactly when seq_len samples have been fed while guarding, and looks at the last seq_len of them, in order. |
| BeaconClient.BeaconClient.Authenticate | src/beacon/beacon_client.py:224-268 | One login: refused locally within 30 seconds of the failure remembered, with no request made; 423 remembers the time, 200 and 202 store what token there is and end the backoff. LoginCases spells out every field. |
| BeaconClient.BeaconClient.EnsureTokenFresh | src/beacon/beacon_client.py:192-204 | A token about to expire is dropped before the new login, a login that works is followed by a registration of the agent, and any other state is left alone. |
| BeaconClient.BeaconClient.Send | src/beacon/beacon_client.py:457-512 | The retry loop of three turns, each as PostsExactly and AfterPreparing say; true exactly when the last post it made was accepted. |
| BeaconClient.BackoffHolds | src/beacon/beacon_client.py:224-268 | In every sequential run with a nondecreasing clock no login starts within 30 seconds after one answered 423 (section 11.3 of RFC 4918). |
| BeaconClient.SendingKeepsInv | src/beacon/beacon_client.py:457-512 | A whole send, with all the logins it makes on the way and any time each step takes, keeps the lock backoff respected. |
| BeaconClient.SendBounds | src/beacon/beacon_client.py:514-556 | One send makes at most three posts, each with a token, none before the last accepted, and sleeps at most seven seconds. |
| BeaconClient.PreparedCases | src/beacon/beacon_client.py:467-479 | Which logins an attempt makes before it posts, when, and with which token, clock, failure time and registrations it is then left: none for a fresh token, one without a token, a refreshing one and perhaps a second for a token about to expire, and none within 30 seconds of a lock. |
| BeaconClient.PostsExactly | src/beacon/beacon_client.py:467-479 | An attempt makes one post if it has a token, and none otherwise: it holds one that is not about to expire, or is not backing off and a login, refreshing or second, grants one. |
| BeaconClient.AfterPreparing | src/beacon/beacon_client.py:480-511 | After each answer: no sleep after 200 and 201; after 401 the token is dropped and a login made unless it is backing off, with no sleep if that works; one, two or four seconds in every other case. |
| BeaconClient.SendInVain | src/beacon/beacon_client.py:457-512 | A send none of whose attempts gets a token posts nothing and sleeps exactly seven seconds. |
| BeaconClient.LandsAtOnce | src/beacon/beacon_client.py:457-512 | A send whose first attempt gets a token and sees its post accepted makes that post only and does not sleep. |
| BeaconClient.DeliveredExactly | src/beacon/beacon_client.py:457-512 | A payload is delivered if and only if one of the three attempts, each starting where the one before it failed, gets a token, as the clock and the login replies decide, and its post is answered 200 or 201. |
| BrowserHistory.HistoryCursor.ReadHistory | src/monitors/browser_monitor.py:106-129 | Every row is reported in order and the watermark becomes the maximum of the old one and all rows. |
| BrowserHistory.LaterReportsAreNewer | src/monitors/browser_monitor.py:94-129 | Over any run on any tables, each visit reported later is newer than each reported before. |
| BrowserHistory.ReportedAtOnceOrNever | src/monitors/browser_monitor.py:94-104 | A visit above the watermark is reported by the first poll that meets it or by no poll at all. |
| BrowserHistory.ReportedExactlyOnce | src/monitors/browser_monitor.py:156-185 | If no poll meets more than 100 visits above the watermark and what appears between polls lies above it, each visit seen is reported by exactly one poll. |
| SnapshotDiff.SnapshotMonitor.CheckEvents | src/monitors/usb_monitor.py:316-354 | The events are exactly the differences to the last snapshot, each once, and the snapshot is stored. |
| SnapshotDiff.StreamReplaysSnapshots | src/monitors/process_monitor.py:58-108 | Over any run, replaying all events onto the baseline yields the latest snapshot, and every start meets its id absent, every stop meets it present. |

## Left out

- PowerShell, SQLite, HTTP, psutil, watchdog and the file system: their answers are parameters, `ORDER BY`, `LIMIT` and `AUTOINCREMENT` are specification functions.
- Display names: several operating system rules with one name, wildcard or quote characters in the prefix, and the case-insensitive and Unicode-digit matching of PowerShell. An upsert removes and then creates in one external process and is one step here, so two upserts of one id that overlap, and could leave two rules of one name, are not modelled either.
- Loop timing: the delay between cycles of channel A and the interruptible sleep that waits out a pause of channel B.
- Firewall rule content: `Content` is what the rule creation is given; how a rule dictionary is normalised to it, the description text, and firewall profiles (no effect on rules) are not modelled.
- Conversions: what Python's `int` and `str` make of unusual JSON values is a parameter; `int` of an infinite float, which raises another exception than the code expects, is not modelled.
- Convergence.ChannelsConverge: a server that goes back to a lower revision is covered by `SyncCycle` only, the server of the transition system only appends; revisions start at 1, because a fresh store holds 0 and a server at revision 0 is never reconciled.
- Convergence.ChannelsConverge, Convergence.FaultlessConvergence: a step that cuts short what a channel does again after an unreadable load, while no reconcile of this log is to come, is excluded; `CutReplays` says when such a cut does harm.
- Interleavings.StepSimulated: the server names new commands afresh, publishes snapshots of its log and answers from the cursor on; the revision is loaded before the snapshot is fetched, as in the code.
- Convergence.FaultlessConvergence: the local block controller, which writes ids 9998 and 9999 of the same namespace, may act in the history but not in the faultless continuation.
- EventQueue.EventQueue.FlushBatch: leaves out row timestamps, the flush thread's timing and registration of the senders.
- NetworkMonitor.NetworkMonitor.GetAndClearTraffic: leaves out process names, timestamps as text and the internal-address flag of a record; the psutil fallback, which does not conserve bytes, is not modelled.
- UsbScan.UsbScanner.ScanUsbFiles: leaves out the text of a line (indentation and size format) and cycles through links; lower case is that of ASCII letters.
- FileDedup.FileWatcher.EventCallback: the path and extension filter is an input, the event text is left out; the run theorems take nondecreasing times, as a clock that steps back voids them.
- BiometricEngine.ModeMachine: no reset of the model, which can race the end of training, and no model loaded at the start; scaling, scores, thresholds and the progress percentage are left out.
- BeaconClient.BackoffHolds: sequential logins only, because the backoff check stands outside the lock; the answer to a registration, heartbeat, roles and one-time passwords are left out.
- BrowserHistory.HistoryCursor.ReadHistory: leaves out opening the database copy and rows whose date is null or zero.
- SnapshotDiff.SnapshotMonitor.CheckEvents: leaves out event texts and metadata; login events are the same difference of sets and would add nothing.
- User interface, configuration, TLS, credential storage and event-log tailing: input and output around libraries.
