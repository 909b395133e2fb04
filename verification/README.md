# A verified model of the sync engine's core protocols

The sync engine keeps mail, contacts and calendars of many accounts in step with remote servers.
This project models the parts of it whose correctness spans many steps, and proves what they
promise for every input and every run.

* **Account ownership** (`AccountOwnership`, `AccountFaults`, `SingleOwner`, `WakeUp`, `WakeUpFaults`,
  `LostWakeUps`, `SyncService`): sync processes
  share one row per account, claim it under the row lock, give it up by compare-and-swap and wake
  each other through one private queue per process and a shared queue. The protocol is a machine
  whose steps are operator writes, claims in two parts (monitors started under the row lock, then
  commit), stops in two parts (monitors killed, then release), the same stop from the HTTP thread,
  poll snapshots, flushes, shared events taken or declined, repeated events and crashes. A run may
  also contain faults: starts, commits and stops that raise, dropped offers, aborted polls, events
  made from a stale row or lost, and accounts taken away by force.
* **Syncback** (`SyncbackBatching`, `SyncbackMachine`, `SyncbackOrder`, `SyncbackOutcome`,
  `SyncbackService`, `SyncbackAssertion`): pending actions of an account are batched, merged, sent and retried by
  interleaved workers, with batches cut off by timeouts and restarts of the whole service.
* **Followers of the transaction log** (`DeltaSync`, `DeltaConvergence`, `DeltaFormatter`,
  `SearchIndex`): API clients and the contact search index rebuild tables from the log.
* **Contact groups** (`MoleculePool`, `GroupScores`, `ContactGroups`): groups of people are mined
  from sent messages by expanding, filtering, subsuming and combining candidate groups.
* **Gmail labels** (`GmailLabels`, `LabelUpdates`): optimistic label changes keep a message in
  exactly one of All Mail, Trash and Spam.
* **Connection pool** (`ConnectionPool`): greenlets share IMAP connections through a semaphore and
  a queue.
* **Paging and names** (`Paging`, `FolderPaths`): a cursor across shards, and folder paths to and
  from IMAP mailbox names (section 5.1.1 of RFC 3501).

Code that changes things in place is modelled by classes and methods with loops; protocols between
processes or greenlets are modelled as machines over their steps, and a run is any sequence of
enabled steps.

## What the results rest on

* Ownership: there is one zone, rows of accounts are not deleted, and exceptions come from the places
  listed in `AccountFaults`. The theorems hold for all runs whose faults are harmless (`SingleOwner`)
  or gentle (`WakeUpFaults`), and `SafeFaultIff`, `AwakeFaultIff`, `ServedFaultIff` and
  `CrashKeepsAwakeIff` say of every fault and crash exactly when it is; `LostWakeUps` has a run for
  each way of going wrong. `stop_sync` documents that it does nothing for an account that does not
  exist; the code kills the monitors and then raises, and the model follows the code
  (`NoSuchAccount`).
* Syncback: ids grow in scheduling order, one service works on an account, the account's state is
  constant during one batching call, marking finished entries does not raise, and a query for a list
  of ids returns rows in primary-key order. That merged entries carry equal retry counts is not
  assumed: the order is proved from the weaker fact that the counters of an account's pending
  entries never grow with the id, and equality is proved for runs without cut-offs.
* Transaction log: every write appends one entry in the same commit, ids grow with commit order and
  `created_at` never decreases with id, a poll sees one snapshot, and the workaround that skips
  messages without a thread drops nothing. Public ids stand for record ids.
* Contact groups: weights and similarities are exact rationals, groups are keyed by the set of
  addresses, and joining addresses with ", " keeps different groups apart.
* Gmail labels: in a namespace at most one category has each of the names all, trash, spam and
  inbox. A request that fails because there is not exactly one `all` category is rolled back.
* Connection pool: greenlets switch only where the code can block. A greenlet that is killed while
  it logs out after a discard-class error puts the broken connection back, since the handler only
  catches `Exception`; `BrokenNeverOffered` and `CutShortOffersBroken` say that this is the only way.
* Paging: the table does not change while the cursor is followed and cursors are not negative.

## Model

| member | source | states |
|---|---|---|
| `SingleOwner.SafeFaultIff` | inbox/mailsync/service.py:170-188 | of every fault: the ownership invariant survives if and only if no monitor runs when a start raises, the row already names the process when the commit of a claim raises, and nobody syncs an account that is taken away |
| `SingleOwner.SafeStartFails` | inbox/mailsync/service.py:233-274 | a start that raises part-way, made by a poll or for a shared event, keeps the invariant if and only if no monitor was running yet |
| `SingleOwner.SafeCommitFails` | inbox/mailsync/service.py:264-274 | a commit that raises after the process has noted the account keeps the invariant if and only if the row named the process before |
| `SingleOwner.SafeForcedRelease` | bin/unschedule-account-syncs:50-54 | taking an account away keeps the invariant if and only if no process syncs it |
| `SingleOwner.SafeRun` | inbox/mailsync/service.py:209-313 | in every state of every run with harmless faults, accounts a process believes it syncs have its name in their row, and monitors run only for those or under the row lock |
| `SingleOwner.SingleOwner` | inbox/mailsync/service.py:215-268 | in every such run a process runs monitors for an account only while the row names it or it holds the row lock, and no two processes run monitors for one account, crashes included |
| `SingleOwner.OwnerNeverHandedOver` | inbox/models/account.py:262-278 | no event changes the owner of a row from one process to another; it is released first |
| `SingleOwner.NoMonitorOverwritten` | inbox/mailsync/service.py:229-262 | a start that passes its checks never finds a monitor of the account already running, so no monitor slips out of the dictionaries |
| `SingleOwner.FailedStartOverwrites` | inbox/mailsync/service.py:233-274 | after a start that raised, the next poll starts the account again, over a running monitor if there was one |
| `WakeUp.AwakeStep` | inbox/models/account.py:348-422 | every step, except a crash with the last offer of an account in hand, keeps every account that needs attention pending with the process that must act |
| `WakeUp.ServedStep` | inbox/mailsync/service.py:284-313 | every step keeps that what a process syncs has monitors or is being stopped |
| `WakeUp.CrashKeepsAwakeIff` | inbox/mailsync/service.py:116-151 | a crash loses a wake-up if and only if the process held the last offer of an account that only the shared queue can place |
| `WakeUpFaults.AwakeTelling` | inbox/models/account.py:341-345 | a commit whose event is made from a stale row, in any of its columns, or is lost wakes the right process if and only if the event goes where the row would send it, nobody is needed, or the need is pending already |
| `WakeUpFaults.AwakeMisrouted` | inbox/mailsync/service.py:301-312 | the same for a release whose event is made from a stale row or lost |
| `WakeUpFaults.AwakeStartRefused` | inbox/mailsync/service.py:170-177 | a start skipped after a database error loses the account if and only if the account wants this process, no further poll follows and no event is queued |
| `WakeUpFaults.AwakeStartFails` | inbox/mailsync/service.py:271-274 | a start that raises part-way loses the account if and only if a poll made it, no further poll follows and no event is queued |
| `WakeUpFaults.AwakeOfferDropped` | inbox/mailsync/service.py:146-151 | a start that raises for a shared event loses the account if and only if that was its last offer |
| `WakeUpFaults.AwakeStopFails` | inbox/mailsync/service.py:183-188 | a stop that raises loses the account if and only if it must still be stopped or started here, no further poll follows and no event is queued |
| `WakeUpFaults.AwakeUnassignFails` | inbox/mailsync/frontend.py:92-99 | the same for a stop from the HTTP thread, where the main loop may still come to it |
| `WakeUpFaults.AwakeFaultIff` | inbox/mailsync/service.py:104-188 | of every harmless fault: exactly when it loses a wake-up |
| `WakeUpFaults.ServedFaultIff` | inbox/mailsync/service.py:284-312 | a stop that raises leaves an account synced without monitors if and only if it was counted as synced; no other fault does |
| `WakeUpFaults.NoLostWakeUp` | inbox/mailsync/service.py:108-204 | in every run whose faults and crashes are gentle, an enabled account without owner has an event queued or in hand or a poll still due, and so does an owner that must give up or restart an account |
| `WakeUpFaults.QuiescentIsSettled` | inbox/mailsync/service.py:108-132 | once the processes concerned are idle, an enabled account is synced by its owner, which is the desired host if any, and a disabled one is owned by nobody |
| `LostWakeUps.CrashInHandLosesWakeUp` | inbox/mailsync/service.py:116-121 | a run without faults after which a crash leaves an enabled account asleep |
| `LostWakeUps.DroppedOfferLosesWakeUp` | inbox/mailsync/service.py:149-151 | a run after which a raising start of an offered account leaves it asleep |
| `LostWakeUps.StaleWriteLosesWakeUp` | inbox/models/account.py:341-345 | a run after which disabling an account from a row read before the claim, or losing the event, never stops it |
| `LostWakeUps.MisroutedReleaseLosesWakeUp` | inbox/mailsync/service.py:301-312 | a run after which a release that read the row before the account was enabled again leaves it asleep |
| `LostWakeUps.RefusedStartLosesWakeUp` | inbox/mailsync/service.py:170-177 | a run after which a database error in the start loop leaves an owned account asleep |
| `LostWakeUps.FailedStopForgets` | inbox/mailsync/service.py:183-188 | a run with one failed stop that comes to rest with an enabled account counted as synced and without monitors |
| `LostWakeUps.FailedUnassignForgets` | inbox/mailsync/frontend.py:92-99 | the same from the HTTP thread |
| `LostWakeUps.FailedCommitDoubles` | inbox/mailsync/service.py:264-274 | a run with one failed commit after which two processes run monitors for one account |
| `LostWakeUps.ForcedReleaseDoubles` | bin/unschedule-account-syncs:50-54 | the same after an account is taken away from a running process |
| `LostWakeUps.FailedStartLosesMonitor` | inbox/mailsync/service.py:233-274 | a run with one start that raised in which the account is about to be started over its running monitor |
| `SyncService.AccountTable.CommitRow` | inbox/models/account.py:323-422 | a commit stores the row; an unchanged one tells nobody, a changed one sends exactly one event, to the owner that must give up, the desired host of an enabled account without owner, or the shared queue if there is none |
| `SyncService.SyncService.constructor` | inbox/mailsync/service.py:61-82 | a new process syncs nothing |
| `SyncService.SyncService.StartSync` | inbox/mailsync/service.py:209-275 | starts exactly if the row exists, is enabled, is free or its own, is not desired elsewhere and is not synced yet; what a raising monitor or commit leaves behind; and the process stays consistent exactly if such a fault left no monitor, or the row was its own |
| `SyncService.SyncService.ClaimAndStart` | inbox/mailsync/service.py:233-274 | the effect of a claim on row, monitors and fields for every fault |
| `SyncService.SyncService.StopSync` | inbox/mailsync/service.py:277-313 | afterwards the account has no monitors here, and its row is released exactly if it named this process and the release did not raise; if it raised, the account stays counted as synced |
| `SyncService.SyncService.StartAll` | inbox/mailsync/service.py:163-177 | for any snapshot, exactly the accounts that can still be claimed end up synced and owned, other rows are untouched |
| `SyncService.SyncService.StopAll` | inbox/mailsync/service.py:179-188 | exactly the listed accounts are stopped, and released where this process owned them |
| `SyncService.SyncService.Poll` | inbox/mailsync/service.py:162-204 | for any snapshot the process ends up syncing what it synced before or could claim of it and owning nothing outside it; on a current one it syncs and owns exactly the snapshot |
| `SyncService.SyncService.FlushPrivateQueue` | inbox/mailsync/service.py:128-132 | empties the process's own queue and no other |
| `SyncbackBatching.NextPending` | inbox/transactions/actions.py:237-247 | the query returns pending entries of the account in id order, nothing pending before a returned entry is missing, and short of the batch size nothing pending is missing at all |
| `SyncbackBatching.TasksForIsExact` | inbox/transactions/actions.py:133-216 | the tasks' ids in order are exactly the eligible entries in order, every id stays aligned with its record and its action, and only label changes are merged |
| `SyncbackBatching.MergedWherePossible` | inbox/transactions/actions.py:192-200 | two neighbouring tasks of the same change stay apart only if the second starts with the only record of the first |
| `SyncbackBatching.MergeKeepsEffect` | inbox/transactions/actions.py:359-392 | a merged task changes the mail server as its two parts one after the other |
| `SyncbackBatching.BatchingKeepsEffect` | inbox/actions/backends/gmail.py:19-37 | running the merged tasks of a batch changes the mail server exactly as running its entries one by one |
| `SyncbackBatching.StillPendingIsExact` | inbox/transactions/actions.py:462-475 | re-filtering keeps exactly the entries still pending, in order, each with its own record |
| `SyncbackOrder.OneActiveBatch` | inbox/transactions/actions.py:143-149 | two batches of one account never both have something pending |
| `SyncbackOrder.FirstReachesLimit` | inbox/transactions/actions.py:438-450 | in a merged call only the first entry can be the first to reach the retry limit |
| `SyncbackOrder.InvRun` | inbox/transactions/actions.py:208-216 | in every run `running_action_ids` is the disjoint union of the batches in flight, batches are closed downwards, and retry counters never grow with the id |
| `SyncbackOrder.LaunchIff` | inbox/transactions/actions.py:237-247 | a batch is launched exactly for a usable account with something pending and none of its next entries running, and holds exactly these |
| `SyncbackOrder.FirstPendingIsLaunched` | inbox/transactions/actions.py:240-247 | if something is pending and none of it is running, the first pending entry goes out with the next batch |
| `SyncbackOrder.SentInOrder` | inbox/transactions/actions.py:405-460 | in every run with cut-offs and restarts, an action is sent only while pending and only after every earlier action of its account has succeeded or failed, or in the same merged call |
| `SyncbackOrder.FinishedIdsAreRunning` | inbox/transactions/actions.py:282-286 | removing the ids of a finished batch never meets a missing id and never touches another batch |
| `SyncbackOutcome.FinishedForever` | inbox/transactions/actions.py:411-417 | a finished entry never changes again and no later call carries it |
| `SyncbackOutcome.HowActionsEnd` | inbox/transactions/actions.py:428-450 | an entry becomes failed if and only if it is its own 20th failed attempt, the `create_event` cascade or the grace period of an unusable account before the first running entry, and successful if and only if its own call succeeded |
| `SyncbackOutcome.HowFailingCommitsEnd` | inbox/transactions/actions.py:439-448 | committing a failed attempt counts a retry for its own entry and no other |
| `SyncbackOutcome.CompletedBatch` | inbox/transactions/actions.py:306-314 | a batch that runs to its end leaves none of its entries pending |
| `SyncbackOutcome.OneRecordPerCall` | inbox/transactions/actions.py:477-484 | actions other than label changes are sent for exactly one record, so the assertion on the number of records holds |
| `SyncbackOutcome.EvenRun` | inbox/transactions/actions.py:419-460 | in runs without cut-offs every counter is 0 outside the current call and the number of failed attempts inside it |
| `SyncbackOutcome.UndisturbedOutcome` | inbox/transactions/actions.py:444-450 | in such runs the assertion that merged entries fail together never fires, and an entry is given up exactly when the 20th attempt fails |
| `SyncbackService.LimitReached` | inbox/transactions/actions.py:438-450 | once one entry of a call reaches the limit, none stays pending or the assertion raises |
| `SyncbackService.AssertionRaisesIff` | inbox/transactions/actions.py:444-447 | in a failed call the assertion raises if and only if the first entry reaches the limit and another one does not |
| `SyncbackAssertion.CutOffCanFireAssertion` | inbox/transactions/actions.py:444-447 | a run with one cut-off batch in which the assertion fires |
| `SyncbackService.AllRetry` | inbox/transactions/actions.py:439-448 | below the limit every entry of the call counts one more retry and another attempt is left |
| `SyncbackService.MarkAllIsExact` | inbox/transactions/actions.py:424-430 | marking makes exactly the listed entries successful and changes nothing else |
| `SyncbackService.RetryIsExact` | inbox/transactions/actions.py:439-448 | a handler that gives up no entry counts exactly one retry for each entry of the call and changes nothing else |
| `SyncbackService.EntryFails` | inbox/transactions/actions.py:438-450 | a handler that gives up and does not meet the assertion leaves every entry of the call failed at 20 retries and finished entries as they are |
| `SyncbackService.AttemptsOutcome` | inbox/transactions/actions.py:419-460 | the first entry's counter says how many calls are left: all entries are successful if one of these succeeds, all failed otherwise, and the assertion raises exactly if none succeeds and the counters differ |
| `SyncbackService.AttemptsEvolve` | inbox/transactions/actions.py:419-460 | attempts never reopen a finished entry or change what an entry is |
| `SyncbackService.AttemptsFinish` | inbox/transactions/actions.py:419-460 | whatever the server answers, the attempts end with every entry finished or at the assertion; the loop never runs out of attempts |
| `SyncbackService.SyncbackService.constructor` | inbox/transactions/actions.py:129-131 | a new service runs nothing |
| `SyncbackService.AddTask` | inbox/transactions/actions.py:192-200 | a new task grows the last one or follows it, as merging demands |
| `SyncbackService.SyncbackService.CollectTasks` | inbox/transactions/actions.py:134-200 | the loop stops exactly at the first running entry; otherwise it has the tasks of all entries, or has expired those of an unusable account |
| `SyncbackService.SyncbackService.BatchLogEntries` | inbox/transactions/actions.py:133-216 | a batch of all listed entries exactly if the account is usable, there are entries and none is running; its ids join the running ones; an unusable account only loses its expired entries up to the first running one |
| `SyncbackService.SyncbackService.NotifyWorkerFinished` | inbox/transactions/actions.py:282-286 | exactly the ids of the batch leave the running ones |
| `SyncbackService.SyncbackService.MarkSuccess` | inbox/transactions/actions.py:424-430 | exactly the entries of the call become successful, nothing else changes |
| `SyncbackService.SyncbackService.CountFailure` | inbox/transactions/actions.py:434-450 | the handler of a failed call: each entry counts a retry, those at the limit fail with their cascade, and the assertion stops it where it should |
| `SyncbackService.SyncbackService.RunAttempts` | inbox/transactions/actions.py:419-460 | the retry loop, for every sequence of server answers, computes the attempts whose outcome is stated above |
| `SyncbackService.SyncbackService.ExecuteWithLock` | inbox/transactions/actions.py:405-460 | what was pending ends successful exactly if one of the calls that are left succeeds and failed otherwise, unless differing counters end it at the assertion; nothing finished is reopened |
| `DeltaSync.PendingShrinks` | inbox/transactions/delta_sync.py:228-232 | an empty-handed round of the scanning loop leaves strictly less of the log, so the loop ends |
| `DeltaConvergence.RollupKeepsMeaning` | inbox/transactions/delta_sync.py:161-227 | for any client state, the latest entry per type, record and command in id order does what all entries of the window one by one would do |
| `DeltaConvergence.ScanMeaning` | inbox/transactions/delta_sync.py:139-232 | a poll does to any client state what applying one by one every visible entry its new pointer passes would do; the pointer passes nothing it has not examined |
| `DeltaConvergence.EmptyScanReachesEnd` | inbox/transactions/delta_sync.py:153-157 | with a positive limit a poll without deltas has seen the end of the visible log |
| `DeltaConvergence.PollTells` | inbox/transactions/delta_sync.py:205-227 | a poll returns at most `limit` deltas, each telling of a visible entry after the pointer: its object, create, modify or delete by its command, its id, and the current value exactly if it is not a deletion |
| `DeltaConvergence.WindowIsFull` | inbox/transactions/delta_sync.py:153-154 | a window is the beginning of what is pending, as long as the limit allows |
| `DeltaConvergence.ZeroLimitSaysNothing` | inbox/transactions/delta_sync.py:153-157 | with limit 0 a poll returns nothing and stays where it is |
| `DeltaConvergence.ScanAgrees` | inbox/transactions/delta_sync.py:205-227 | a poll extends the client's agreement with the table to every object its new pointer has passed |
| `DeltaConvergence.ScanStaysInLog` | inbox/transactions/delta_sync.py:223-232 | the returned pointer never passes the end of the log |
| `DeltaConvergence.InvRun` | inbox/transactions/delta_sync.py:256-271 | the agreement holds in every state of every run of commits and polls, streamed or over HTTP |
| `DeltaConvergence.DeltaConvergence` | inbox/transactions/delta_sync.py:135-232 | in every run, a visible object whose last entry is at or before the client's pointer has exactly its table value in the copy, or is absent from both |
| `DeltaConvergence.EmptyPollMeansCaughtUp` | inbox/api/ns_api.py:1777-1791 | when a poll with a positive limit returns no deltas, the client has the whole visible table |
| `DeltaFormatter.RollupMembers` | inbox/transactions/delta_sync.py:171-172 | an entry survives the rollup exactly if it is the last of its type, record and command |
| `DeltaFormatter.LatestTransactions` | inbox/transactions/delta_sync.py:166-172 | the dictionary holds for every slot of the window its latest entry and nothing else |
| `DeltaFormatter.SortById` | inbox/transactions/delta_sync.py:223-226 | the same entries in ascending order of id |
| `DeltaFormatter.RollUp` | inbox/transactions/delta_sync.py:161-226 | grouping and sorting give the rollup of the window |
| `DeltaFormatter.FormatDeltas` | inbox/transactions/delta_sync.py:205-221 | deletions and entries of objects that still exist are shown, with event and current value as `PollTells` says |
| `DeltaFormatter.VisibleIff` | inbox/transactions/delta_sync.py:119-151 | which types the arguments let through; metadata only if it is not excluded and no list of types is given |
| `DeltaFormatter.FormatTransactionsAfterPointer` | inbox/transactions/delta_sync.py:119-232 | the code's loop, under the filter its arguments ask for, refines the scanning function that the convergence theorems are about |
| `DeltaFormatter.CursorSplitsLog` | inbox/transactions/delta_sync.py:21-73 | the cursor near a timestamp has passed exactly the entries created before it |
| `SearchIndex.DeleteDocs` | inbox/transactions/search.py:148-151 | the delete documents remove exactly the contacts with a delete transaction |
| `SearchIndex.BuildDocs` | inbox/transactions/search.py:140-165 | in whatever order contacts are loaded, the uploaded documents delete first and then store the current value of every added contact that exists |
| `SearchIndex.ChunkSettles` | inbox/transactions/search.py:85-114 | uploading a chunk settles every contact whose last transaction is in it and touches none whose last transaction came before it |
| `SearchIndex.IndexFollowsTable` | inbox/transactions/search.py:64-181 | over every run of changes, rounds, restarts and crashes between upload and commit, the index equals the table on every contact whose last transaction lies after the start and at or before the persisted pointer |
| `SearchIndex.WhereItStarts` | inbox/transactions/search.py:64-83 | a service that has run before resumes where it stopped; otherwise it starts behind everything logged so far |
| `SearchIndex.ContactSearchIndexService.SetTransactionPointers` | inbox/transactions/search.py:64-83 | every shard resumes at its persisted pointer, or at the end of its log if there is none |
| `SearchIndex.ContactSearchIndexService.IndexTransactions` | inbox/transactions/search.py:85-114 | every shard uploads one chunk and persists the id of its last transaction |
| `MoleculePool.Gather` | inbox/contacts/algorithms.py:105-111 | the pool holds each set of at least two participants with exactly its messages, and each of these messages has a weight |
| `MoleculePool.MessageWeightIs` | inbox/contacts/algorithms.py:28-31 | weight falls from 1 in proportion to the age over two years and never below 0.01 |
| `MoleculePool.Items` | inbox/contacts/algorithms.py:139-139 | every key once, in any order |
| `MoleculePool.ExpandMoleculePool` | inbox/contacts/algorithms.py:138-147 | in any iteration order, the groups are the old ones and all pairwise intersections of at least two addresses, and each group's messages are exactly its own and those of all pairs that meet in it |
| `MoleculePool.FiledWasSent` | inbox/contacts/algorithms.py:138-147 | every message filed under a group was sent to all its members and has a weight |
| `MoleculePool.OriginalGroupIsComplete` | inbox/contacts/algorithms.py:138-147 | a group that some message was sent to ends up with exactly the messages sent to at least its members |
| `MoleculePool.CompleteIff` | inbox/contacts/algorithms.py:138-147 | any group of the expanded pool holds exactly the messages sent to at least its members if and only if each of them was sent to a group that meets some candidate group in exactly this one |
| `MoleculePool.DerivedGroupCanMissMessages` | inbox/contacts/algorithms.py:138-147 | for every two incomparable groups with a message each, a third message to their union is sent to all of their intersection but not filed under it |
| `GroupScores.MessageListWeight` | inbox/contacts/algorithms.py:102-103 | the sum does not depend on the order of the ids |
| `GroupScores.SortKeeps` | inbox/contacts/algorithms.py:151-151 | sorting by size is descending and keeps the molecules |
| `GroupScores.AbsorbsIff` | inbox/contacts/algorithms.py:163-166 | the sharing error is below 0.3, written without the quotient |
| `GroupScores.FindAbsorber` | inbox/contacts/algorithms.py:158-168 | the first earlier surviving group that takes the group in, if there is one |
| `GroupScores.MarkSubsumed` | inbox/contacts/algorithms.py:155-168 | a group is dropped exactly for a surviving group before it that takes it in |
| `GroupScores.SubsumeMolecules` | inbox/contacts/algorithms.py:150-170 | every dropped group lies in a surviving one with sharing error below 0.3, and no survivor lies so inside a larger survivor; all divisions are safe |
| `GroupScores.ExpandIfSmall` | inbox/contacts/algorithms.py:116-119 | exactly below 1000 groups the pool is expanded, otherwise left as it is; either way every filed message went to all members |
| `GroupScores.FrequentMolecules` | inbox/contacts/algorithms.py:121-124 | exactly the groups of weight at least 2.5 stay |
| `GroupScores.ScoreGroups` | inbox/contacts/algorithms.py:132-134 | no score overwrites another: as many entries as groups, each with its own weight |
| `GroupScores.CombinedIsScored` | inbox/contacts/algorithms.py:130-134 | a union of frequent groups has weight at least 2.5, and each of its messages went to at least two of its members |
| `GroupScores.FrequentIsReported` | inbox/contacts/algorithms.py:126-134 | every frequent group lies inside a reported group |
| `GroupScores.ScorePool` | inbox/contacts/algorithms.py:121-134 | what is reported are the survivors of subsumption among the frequent groups, merged where similar and nowhere else, each with the weight of its messages |
| `GroupScores.CalculateGroupScores` | inbox/contacts/algorithms.py:88-134 | over 5000 candidates nothing; otherwise the report is made of the surviving frequent groups of the candidate pool by merging similar ones alone, reported groups have pairwise similarity at most 0.35, each score is at least 2.5 and is the weight of messages to at least two members, and every group with enough evidence lies inside a reported one |
| `ContactGroups.DissimilarIff` | inbox/contacts/algorithms.py:34-35 | similarity of at most 0.35, over cardinalities |
| `ContactGroups.FindPartner` | inbox/contacts/algorithms.py:180-188 | the first earlier uncombined molecule that is similar, if there is one |
| `ContactGroups.CombineRound` | inbox/contacts/algorithms.py:176-188 | every merge joins two similar molecules not merged before, what stays unmerged is pairwise dissimilar, and new molecules are unions of merged ones |
| `ContactGroups.RoundStep` | inbox/contacts/algorithms.py:190-194 | a round shortens the list by the number of new molecules, keeps all addresses and messages, and covers every molecule |
| `ContactGroups.LeavesKept` | inbox/contacts/algorithms.py:186-194 | the merges of a round use no molecule twice and lose none |
| `ContactGroups.MadeCombines` | inbox/contacts/algorithms.py:173-196 | molecules made by such merges cover every input, are exactly the unions of the inputs inside them, and keep all addresses and messages |
| `ContactGroups.DissimilarDistinct` | inbox/contacts/algorithms.py:34-35 | dissimilar groups are different groups |
| `ContactGroups.CombineSimilarMolecules` | inbox/contacts/algorithms.py:173-196 | it ends, remaining groups are pairwise dissimilar and distinct, every output is made by merging similar molecules alone, every input goes into exactly one output, and nothing is lost or invented |
| `GmailLabels.RefusalIff` | inbox/api/update.py:176-196 | exactly which requests are refused and with which error: two folders added, all three removed, or drafts or sent touched |
| `GmailLabels.AcceptedIff` | inbox/api/update.py:225-294 | exactly which updates go through: not refused, and `all` there exactly once if the inbox is added to a message that is not in all |
| `GmailLabels.MoveToTrash` | inbox/api/update.py:237-246 | moving a message to the trash is accepted and puts it there |
| `GmailLabels.LastRuleWins` | inbox/api/update.py:263-287 | the loop's `add` depends on whether inbox occurs, its `discard` on the last label with a rule alone |
| `GmailLabels.ExactlyOneIff` | inbox/api/update.py:225-298 | an update keeps the message in exactly one of all, trash and spam if and only if it does not add inbox with a trash or spam that is iterated later while the message is not in all |
| `GmailLabels.FolderAfter` | inbox/api/update.py:249-298 | within the guard the message ends in the added folder, in all if inbox was added, or where it was |
| `GmailLabels.OtherLabelsAfter` | inbox/api/update.py:198-213 | every other label is there exactly if it was there or added and not removed; the inbox also goes with trash and spam |
| `GmailLabels.InboxIsInAll` | inbox/api/update.py:281-294 | adding the inbox puts the message in the inbox and in all |
| `GmailLabels.OrderIrrelevantIff` | inbox/api/update.py:268-294 | the result is independent of the iteration order if and only if the request is refused, does not mix inbox with trash or spam, or needs an `all` category that is not there exactly once |
| `GmailLabels.MixedRequestBreaksExclusivity` | inbox/api/update.py:268-298 | a concrete mixed request that leaves a message in both all and spam |
| `GmailLabels.ServeKeeps` | inbox/api/update.py:12-65 | one message-level or thread-level request keeps exclusivity, and that the inbox is in all, for every message |
| `GmailLabels.ServedIff` | inbox/api/update.py:18-52 | exactly which requests take effect |
| `GmailLabels.ServeDoes` | inbox/api/update.py:18-52 | a request that takes effect moves the message, or the thread's messages that are not drafts, to the folder it asks for with its other labels; everything else stays |
| `GmailLabels.ExclusiveForever` | inbox/api/update.py:12-65 | over every run of guarded requests a message that started in exactly one folder stays in exactly one |
| `GmailLabels.RefusedForAllOrNone` | inbox/api/update.py:44-52 | a thread-level request is refused for all messages alike, and then nothing changes |
| `GmailLabels.ServeIgnoresOrder` | inbox/api/update.py:268-285 | the mailbox after a guarded request does not depend on iteration orders |
| `LabelUpdates.LabelTexts` | inbox/api/update.py:178-196 | the label of every category, refused exactly if one of them is drafts or sent |
| `LabelUpdates.LabelTextIs` | inbox/api/update.py:168-187 | exactly the five special labels go by their Gmail names, each by its own |
| `LabelUpdates.CheckLabels` | inbox/api/update.py:176-196 | refuses exactly the requests of `RefusalIff`, before anything changes |
| `LabelUpdates.CollectRules` | inbox/api/update.py:263-287 | the loop computes the rules that the theorems are about |
| `LabelUpdates.IndexByName` | inbox/api/update.py:266-266 | exactly the names the message has, each with a category of that name |
| `LabelUpdates.Message.AddAll` | inbox/api/update.py:201-202 | adds exactly the added categories |
| `LabelUpdates.Message.DiscardAll` | inbox/api/update.py:204-211 | removes exactly the removed categories that are not folders |
| `LabelUpdates.Message.DiscardNamed` | inbox/api/update.py:296-298 | discards exactly the indexed categories of the given names |
| `LabelUpdates.Message.ApplyGmailLabelRules` | inbox/api/update.py:249-298 | applies the rules to the categories as they were, or fails without exactly one `all` category |
| `LabelUpdates.Message.UpdateOptimistically` | inbox/api/update.py:198-213 | the categories of an accepted request are the updated ones; the lookup of `all` fails only when the inbox is added and there is not exactly one |
| `LabelUpdates.Message.UpdateMessageLabels` | inbox/api/update.py:166-222 | a refused request leaves the message alone; otherwise the categories are the updated ones and a change is scheduled exactly if there is one |
| `LabelUpdates.Message.UpdateMessage` | inbox/api/update.py:12-24 | the message-level request: labels compared with the message's own, a change scheduled exactly if they differ |
| `LabelUpdates.ThreadCategories` | inbox/models/thread.py:163-168 | the union of the categories of all messages |
| `LabelUpdates.UpdateThreadMessages` | inbox/api/update.py:49-52 | drafts are skipped, the others all updated and a change scheduled for each of them; a refused request leaves every message alone; a failing lookup of `all` stops at the first message not in all, with those before it updated and those after it untouched |
| `LabelUpdates.UpdateThread` | inbox/api/update.py:44-52 | the thread-level request keeps exclusivity within the guard for every message of the thread, and the state it leaves when it fails |
| `ConnectionPool.CountedStep` | inbox/crispin.py:177-203 | permits and their holders, and slots and their holders, always add up to the pool size |
| `ConnectionPool.QueueNeverBlocks` | inbox/crispin.py:171-178 | a greenlet that holds the semaphore never blocks on the queue's get or put |
| `ConnectionPool.PermitsReturn` | inbox/crispin.py:201-203 | the semaphore is never released above its bound, and an idle pool has all slots and permits |
| `ConnectionPool.OnePlaceStep` | inbox/crispin.py:178-202 | no step puts a connection in two places |
| `ConnectionPool.AccountedStep` | inbox/crispin.py:178-202 | every connection made and not dropped has a place, and no dropped one has |
| `ConnectionPool.InvRun` | inbox/crispin.py:144-203 | all of this in every reachable state, for every way of leaving `get` |
| `ConnectionPool.PoolIsSafe` | inbox/crispin.py:144-203 | in every run only the semaphore can block, every live connection has exactly one holder or slot, and an idle pool is whole |
| `ConnectionPool.BrokenNeverOffered` | inbox/crispin.py:187-198 | a connection that saw a discard-class error is offered again only if the logout after the error was cut short |
| `ConnectionPool.CutShortOffersBroken` | inbox/crispin.py:159-163 | and cutting that logout short does offer it |
| `ConnectionPool.WritableConnectionsAreScoped` | inbox/crispin.py:153-157 | a writable pool keeps a connection across calls only after an exception outside the discard class or a logout cut short |
| `ConnectionPool.CrispinConnectionPool.constructor` | inbox/crispin.py:144-151 | as many empty slots and permits as connections |
| `ConnectionPool.CrispinConnectionPool.Begin` | inbox/crispin.py:177-178 | with a permit left, the semaphore is taken and a slot is there at once |
| `ConnectionPool.CrispinConnectionPool.Connect` | inbox/crispin.py:180-182 | a slot with a connection hands it out, an empty one gets a new one, and if that raises the block is not entered |
| `ConnectionPool.CrispinConnectionPool.Get` | inbox/crispin.py:165-203 | a whole `get`: one slot moves to the end of the queue with what the exit leaves in it, and the permit comes back |
| `ConnectionPool.CrispinConnectionPool.End` | inbox/crispin.py:182-200 | what becomes of the client for every way the block can end |
| `ConnectionPool.CrispinConnectionPool.Finally` | inbox/crispin.py:201-203 | the client goes back into the queue with room to spare and the permit is returned within its bound |
| `Paging.PageOverShards` | inbox/api/filtering.py:627-666 | on well-placed rows, the first `limit` rows ahead of the cursor across all shards, and the last id as the next cursor, or none |
| `Paging.CollectPage` | inbox/api/filtering.py:629-666 | for any rows, well placed or not, the loop refines the function that the paging theorems are about, and a page is never longer than the limit |
| `Paging.PageIsExact` | inbox/api/filtering.py:634-665 | the same of the loop from any shard on; no id needs repair |
| `Paging.PageIsFull` | inbox/api/filtering.py:644-646 | a page is the beginning of the rows ahead, as long as the limit allows, and the rows ahead are those of all shards with a larger id |
| `Paging.RepairNamesShard` | inbox/api/filtering.py:660-663 | the repair makes an id without a shard name the shard it was found on and leaves others alone |
| `Paging.AllRowsAscending` | inbox/ignition.py:139-140 | shard order is id order |
| `Paging.NextCursorAdvances` | inbox/api/filtering.py:642-653 | the rows ahead of the next cursor are those ahead of this one without the page |
| `Paging.FollowReadsRest` | inbox/api/filtering.py:627-666 | following the cursor from anywhere reads exactly the rows ahead of it |
| `Paging.FollowVisitsEveryRowOnce` | inbox/api/filtering.py:627-666 | following the cursor from 0 visits every row of every shard once, in ascending order, in nonempty pages no longer than the limit, and ends |
| `Paging.StuckIff` | inbox/api/filtering.py:642-645 | the first page leads back to itself if and only if a row with id 0 fills the page or is the only row, since a cursor of 0 counts as none |
| `FolderPaths.NonEmptyIsFilter` | inbox/util/misc.py:193-193 | exactly the empty segments are dropped |
| `FolderPaths.SplitJoin` | inbox/util/misc.py:193-198 | splitting undoes joining for names without the separator |
| `FolderPaths.ImapPathShape` | inbox/util/misc.py:192-208 | an IMAP path starts with the prefix, and the joined names follow it after exactly one separator unless they start with it themselves |
| `FolderPaths.FsIsReplacement` | inbox/util/misc.py:219-229 | for every path: the prefix and one leading separator go, and the other separators become "/" |
| `FolderPaths.FolderPathRoundTrip` | inbox/util/misc.py:192-229 | to an IMAP path and back gives the path without empty segments if and only if no name contains the separator and the joined path does not already start with the prefix; a path without names has no IMAP path |
| `FolderPaths.ImapPathRoundTrip` | inbox/util/misc.py:192-229 | under the same condition the IMAP path survives the trip to a "/"-delimited path and back |

## Left out

- Zones, load averages, account limits per process, statsd, logging and heartbeats; whether a process accepts a shared event is nondeterministic.
- The `_sync_status` and `sync_state` fields of accounts: bookkeeping beside the ownership protocol.
- SyncService.SyncService.Poll: commits of others between its steps are not modelled in the class; the machine in `AccountOwnership` interleaves them.
- The deletion of account rows.
- Liveness under fair scheduling and wall-clock timing; safety, no lost wake-up and termination of loops are proved instead.
- `num_idle_workers`, the choice of namespaces per round and the pause between retries of the syncback service.
- The older allocator in inbox/scheduling/queue.py.
- SyncbackOutcome.HowActionsEnd: the local event that is deleted when `create_event` fails is not part of the model.
- SQL, Redis, HTTP and IMAP calls beyond their effect on rows, lists and sets.
- Encoding of objects in deltas (inbox/api/kellogs.py), request parsing and the other query builders of inbox/api/filtering.py.
- Paging.PageOverShards: result callbacks other than fetching the rows, and results without an id, are not modelled.
- The extraction of participants from messages (lower-casing, exclusion of the user), contact scores and group counts in inbox/contacts/algorithms.py; floating-point rounding.
- ConnectionPool.InvRun: the order in which the semaphore wakes waiting greenlets is not modelled.
- Folder moves and flag updates of inbox/api/update.py.
- FolderPaths.FolderPathRoundTrip: hierarchy delimiters of more than one character are not modelled.
- Recurring events, calendars, authentication, MIME, encryption and blob storage.
