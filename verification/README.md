# Kai: a verified model

This project models the stateful core of Kai, an agent framework with a web cockpit, in Dafny and
proves what its parts promise over whole runs. `dafny verify dfyconfig.toml` checks all of it.

| part | modules | modelled code |
|---|---|---|
| Breadth-first crawl | `Crawl` | queue, visited set, depth limit and fetch budget of the Brain's website ingest |
| Conversation store in memory | `HistoryWindow`, `RecentKeys`, `Conversations`, `WindowedLogs`, `AgentHistory` | LRU map with parallel timestamp lists, message and character window, the mutators |
| Write-behind flush | `HistoryFlush`, `HistoryProgress`, `HistoryLosses` | dirty set, snapshot, per-file write and commit, interleaved with the mutators |
| History on disk | `HistoryFiles`, `HistoryMigration`, `HistoryDisk`, `HistoryReaders`, `HistoryRestart` | per-conversation files, the migration from one legacy file, both readers |
| Recurring tasks | `Calendar`, `Recurrence`, `TaskStore`, `Timestamps`, `TaskPersistence` | calendar arithmetic, `pop_due`, limits, save and reload |
| Bot deployments | `Deployments`, `DeploymentsServices` | rows, run registry and processes as one state machine, control ports, reconciliation |
| Webhook replay protection | `Nonces` | the bounded nonce store and the order of the ingress route |
| Login rate limit | `RateLimiter` | the per-client sliding window |
| Credential secrets | `Secrets`, `KeyRotation` | versioned envelopes, key rotation among saves and restarts |
| Configuration layers | `ConfigMerge` | the recursive merge and the layers of `resolve_config` |

`Wrappers`, `Text`, `OrderedDicts`, `JsonValues` and `Decimal` hold what several parts share.

Code that updates state in place is modelled as classes and loops (`Frontier`, `HistoryStore`,
`HistoryFolder`, `Store`, `DeploymentsService`, `NonceStore`, `LoginRateLimiter`, `KeyState`). Their
methods are proved equal to functions on values, and the whole-run theorems are about those functions.
The outside world enters as parameters: page contents, clocks, directory listings, which file operation
fails, whether a spawned bot comes up, which bots answer, and the cipher.

## Where the code may surprise

- A mutation or an eviction during a flush is forgotten at commit. `HistoryFlush.CommitAgreesIff` and
  `HistoryFlush.AgreementIff` say exactly when that does no harm; two lemmas give runs where it does.
- A failed flush is not tried again until the next mutation or the `flush()` at shutdown
  (`HistoryFlush.StalledIffFailed`).
- A corrupt legacy file makes the agent drop the directory's conversations too, while the cockpit still
  shows them (`HistoryReaders.CorruptLegacyDisagreesIff`), although both are meant to merge the two sources.
- `clear_history` on an unknown key can exceed the cap (`Conversations.ClearKeepsCapIff`).
- `until` and `count` are not looked at before the first fire (`TaskStore.UntilHoldsIff`,
  `TaskStore.CountHoldsIff`); a count of zero fires once, or for ever after a restart
  (`TaskPersistence.ZeroCountRevives`); weekly recurrence with weekdays ignores its interval
  (`Recurrence.WeeklyIsEarliestMatch`); monthly recurrence drifts (`Recurrence.NoDriftIff`).
- Freshness and deduplication read the clock separately, so a slow enough replay can fall between them
  (`Nonces.ReplaysTurnedAwayIff`).
- A live bot that does not answer loses its control port when the cockpit starts
  (`Deployments.PortKeptIffAnswered`); without start ticks a reused pid can be hit by `stop`
  (`Deployments.StopSparesOthersIff`) and keeps a dead bot from being started
  (`Deployments.RefusedIffLive`, `Deployments.ReconcileRevives`).
- A secret that looks like an envelope, such as a long DSN whose scheme begins with `v`, is stored as it
  is and cannot be read back (`Secrets.SecretRoundTripIff`, `Secrets.UrlLooksEncrypted`).
- A rotation not written to `.env` is undone by a restart (`KeyRotation.RestartForgetsIff`), and the next
  one is no newer (`KeyRotation.UnwrittenVersionReusedIff`).
- One page whose fetch raises ends a whole crawl without result (`Crawl.BfsCrawl`).

## Model

| member | source | states |
|---|---|---|
| `Crawl.CrawlFindsShortestHops` | src/kai/cockpit/brains.py:245-280 | whatever the budget, every URL is queued at its shortest hop count from the seed through usable pages, queue depths never decrease and span at most two values, no URL is fetched twice, and the pages are exactly the usable ones fetched |
| `Crawl.CrawlIsComplete` | src/kai/cockpit/brains.py:245-280 | when the queue empties, the URLs fetched are exactly the valid ones within `maxDepth` such hops; the loop stops before that only after `maxPages` fetches |
| `Text.AsciiSpaces` | src/kai/cockpit/brains.py:257-259 | of the ASCII characters, exactly ten are white space |
| `Crawl.OnlyGoodPagesCount` | src/kai/cockpit/brains.py:249-280 | a crawl returns the text of exactly the pages it fetched that succeeded and have a character that is no white space, and follows the links of such pages only |
| `Crawl.BudgetOnlyExtends` | src/kai/cockpit/brains.py:237-261 | a larger page budget only adds fetches: a crawl under it yields a list of pages iff the crawl under the smaller one does and none of the added fetches raises, and the list then extends the smaller one's; a crawl that raises makes the same calls under both |
| `Crawl.LoggedAtShortestDepth` | src/kai/cockpit/brains.py:245-280 | the depth of any queue entry is the shortest hop count to its URL, in every valid state of the loop |
| `Crawl.FetchedIffNear` | src/kai/cockpit/brains.py:245-280 | in any valid state with an empty queue, a URL has been fetched iff it is valid and within the depth limit |
| `Crawl.StepKeepsValid` | src/kai/cockpit/brains.py:249-261 | one trip round the loop keeps the structural invariant: no URL queued twice, ordered depths, each entry discovered from an expanded page |
| `Crawl.EnqueueKeeps` | src/kai/cockpit/brains.py:264-280 | `enqueue_links` adds nothing but normalised links, each once and one hop deeper, and leaves every normalised link queued at most that deep |
| `Crawl.Frontier.EnqueueLinks` | src/kai/cockpit/brains.py:264-280 | the loop that updates queue and visited set in place computes that function, and the visited set stays the set of URLs ever queued |
| `Crawl.Frontier.VisitNext` | src/kai/cockpit/brains.py:249-261 | one trip of the loop body, updating queue and visited set in place, is one step of that function |
| `Crawl.BfsCrawl` | src/kai/cockpit/brains.py:237-261 | the crawl loop returns the pages, and makes the crawler calls, of the function the theorems are about, unless some URL it would fetch raises: then it ends with the exception at the first such URL |
| `HistoryWindow.HistoryWithinLimits` | src/kai/agent/history_store.py:242-246 | true iff both limits are met |
| `HistoryWindow.TrimToCharBudget` | src/kai/agent/history_store.py:248-266 | the backward scan keeps the newest messages that fit, each still with its own timestamp (or none where the list is short) |
| `HistoryWindow.TrimHistory` | src/kai/agent/history_store.py:268-283 | trimming both lists gives the trimmed log of entries, lists equally long |
| `HistoryWindow.TrimKeepsLongestRun` | src/kai/agent/history_store.py:242-283 | trimming keeps the longest run of newest entries within both limits, or the newest entry alone when it is oversized |
| `HistoryWindow.TrimIsEmptyIff` | src/kai/agent/history_store.py:268-283 | the window is empty iff there is nothing to keep or a limit is 0 |
| `HistoryWindow.WindowUnique` | src/kai/agent/history_store.py:248-266 | only one number of newest entries is a right one to keep |
| `HistoryWindow.TrimIdempotent` | src/kai/agent/history_store.py:268-283 | trimming twice is trimming once |
| `HistoryWindow.TrimThenAppend` | src/kai/agent/core.py:383-388 | trimming before an append loses nothing the later trim would keep |
| `HistoryWindow.WindowIsTrimmedLog` | src/kai/agent/core.py:383-388 | trimming after every append gives the window of the whole unbounded log |
| `Conversations.RetainsMostRecent` | src/kai/agent/history_store.py:211-240 | after any run of reads and appends with a cap of at least one, the store holds the last `cap` distinct keys used, in recency order |
| `Conversations.HoldsWhatWasSaid` | src/kai/agent/history_store.py:211-296 | over any run, clears and all, a store that never trims holds of each conversation everything appended since it was last cleared or dropped, told from the trace alone |
| `WindowedLogs.HoldsTrimmedSaid` | src/kai/agent/core.py:383-388 | so the store holds the window of exactly that, and holds exactly the keys the trace tells |
| `Conversations.RunHoldsKeys` | src/kai/agent/history_store.py:211-296 | the keys held and their order, told from the trace alone |
| `RecentKeys.RecencyMeans` | src/kai/agent/history_store.py:211-227 | that recency order lists exactly the keys used, once each, by last use |
| `Conversations.EvictKeepsNewest` | src/kai/agent/history_store.py:229-240 | eviction keeps the newest `cap` conversations unchanged |
| `Conversations.AccessFacts` | src/kai/agent/history_store.py:211-240 | a read leaves its key present with its messages, creates an unknown one empty, changes no other conversation it keeps, and respects the cap |
| `Conversations.HoldsMostRecent` | src/kai/agent/history_store.py:211-296 | after any run, clears and all, the store holds the most recently used keys in order of last use, a clear counting as a use iff it inserts its key, and exceeds the cap by no more than the clears that did so since a read or append last inserted one |
| `Conversations.ClearKeepsCapIff` | src/kai/agent/history_store.py:285-296 | clearing keeps the cap iff the key was known or there was room: an unknown key is inserted without eviction |
| `WindowedLogs.WindowedRunRefinesLogs` | src/kai/agent/history_store.py:211-296 | over any run, the store that trims holds the same conversations as one that never trims, each the trimmed window of the full log |
| `AgentHistory.HistoryStore.EvictExcess` | src/kai/agent/history_store.py:229-240 | evicts both maps alike and deletes exactly the evicted files |
| `AgentHistory.HistoryStore.GetHistory` | src/kai/agent/history_store.py:211-227 | the step of the flush model, with both maps in the same key order and equally long lists, returning the messages of the conversation |
| `AgentHistory.HistoryStore.TrimConversation` | src/kai/agent/history_store.py:268-283 | trims the two lists of one conversation and touches no other |
| `AgentHistory.HistoryStore.AppendEntries` | src/kai/agent/core.py:503-518 | fetch, append to both lists and trim is one append of the model: the conversation becomes the window of what it held and what is added |
| `AgentHistory.HistoryStore.Observe` | src/kai/agent/core.py:370-389 | unless there is neither text nor media, the conversation becomes the window of what it held and the stored message, and is marked dirty |
| `AgentHistory.HistoryStore.RecordAssistantMessage` | src/kai/agent/core.py:407-424 | unless it is blank, the conversation becomes the window of what it held and the assistant message, and is marked dirty |
| `AgentHistory.HistoryStore.PersistTurn` | src/kai/agent/core.py:477-520 | the conversation becomes the window of what it held and what the turn records, and is marked dirty if that is anything |
| `AgentHistory.TurnRecords` | src/kai/agent/core.py:488-500 | a turn records the question iff it is to be stored and was answered or delegated, and the answer iff there is one that was not delegated, each by its speaker with its own time, the question first |
| `AgentHistory.HistoryStore.ClearHistory` | src/kai/agent/history_store.py:285-296 | empties the conversation, inserting an unknown one, and marks it dirty |
| `AgentHistory.HistoryStore.MarkKey` | src/kai/agent/history_store.py:395-405 | marks one key, or all in memory, and schedules a flush if none is |
| `AgentHistory.HistoryStore.SnapshotForFlush` | src/kai/agent/history_store.py:441-454 | takes the snapshot step of the model, over the dirty keys, or over all conversations while migrating |
| `AgentHistory.HistoryStore.WriteNextFile` | src/kai/agent/history_store.py:328-352 | takes the write step of the model: an empty conversation loses its file |
| `AgentHistory.HistoryStore.CommitFlush` | src/kai/agent/history_store.py:428-437 | takes the commit step of the model |
| `AgentHistory.InStepAccess` | src/kai/agent/history_store.py:211-240 | reading keeps the two maps in step: same keys in the same order, lists of equal length |
| `AgentHistory.InStepAppend` | src/kai/agent/core.py:503-518 | so does appending and trimming |
| `HistoryFlush.WriteBehindAgreement` | src/kai/agent/history_store.py:395-454 | over every interleaving in which no conversation of a flush in flight is mutated, or evicted before its file is written, whenever nothing is dirty and no flush is in flight the files are exactly the non-empty conversations in memory |
| `HistoryFlush.CommitAgreesIff` | src/kai/agent/history_store.py:428-437 | a saved flush leaves disk and memory equal on every clean conversation iff memory still holds what the snapshot took, but for the conversations evicted after their file was written, of which it must hold nothing |
| `HistoryFlush.AgreementIff` | src/kai/agent/history_store.py:395-454 | over every interleaving whatever, disk and memory agree after each saved flush iff each of them finds memory so |
| `HistoryFlush.QuietRunIsKept` | src/kai/agent/history_store.py:420-439 | in a quiet interleaving each of them does |
| `HistoryFlush.StepKeepsInv` | src/kai/agent/history_store.py:328-454 | every step of mutators and flush keeps the invariant: a written file of the flush in flight holds the snapshot or its conversation was evicted since, and unless a commit found memory otherwise, disk and memory agree on what is not dirty |
| `HistoryFlush.MutateKeepsInv` | src/kai/agent/core.py:383-389 | so does every mutator, whatever it mutates or evicts |
| `HistoryLosses.MutationInFlightIsLost` | src/kai/agent/history_store.py:430-434 | runs from rest in which a conversation cleared during the write loses its dirty mark and stays on disk |
| `HistoryLosses.EvictionInFlightLeavesFile` | src/kai/agent/history_store.py:229-240 | runs from rest in which a conversation evicted before its file is written gets its file back |
| `HistoryFlush.DirtyIffMarked` | src/kai/agent/history_store.py:395-437 | over every interleaving, a conversation is dirty iff it was mutated, or a flush of it failed, after the last saved commit that covered it |
| `HistoryFlush.QuietDirtyIffNews` | src/kai/agent/history_store.py:395-454 | over a quiet interleaving from rest, a conversation is dirty iff that happened after the snapshot of the last saved flush that took it |
| `HistoryFlush.StalledIffFailed` | src/kai/agent/history_store.py:395-463 | over every interleaving from rest, dirty conversations are left with no flush to come iff a flush failed and only reads came after it, no mutation and no `flush()`; without failures never |
| `HistoryProgress.UndisturbedFlushCleans` | src/kai/agent/history_store.py:407-454 | a flush that meets no mutation and no failure leaves nothing dirty, but after a migration what memory does not hold, and disk and memory equal on everything else |
| `HistoryProgress.FlushCanFinish` | src/kai/agent/history_store.py:362-393 | whatever state a flush in flight is in, its remaining file operations lead to a saved commit |
| `HistoryRestart.StoppedRunReloadsClean` | src/kai/agent/history_store.py:80-179 | after any run from rest whose saved flushes found memory so, stopped anywhere, even in the middle of a flush or of the migration from a readable legacy file, loading gives every clean conversation with messages in memory exactly as memory held it, and once the migration is over no other clean one |
| `HistoryRestart.LoadingBacks` | src/kai/agent/history_store.py:80-100 | an agent that has loaded its folder within the cap, legacy file or not, has on disk what it holds in memory, as that law demands of its first state |
| `HistoryRestart.StoppedRunReloadsWhatWasSaid` | src/kai/agent/history_store.py:80-179 | a new agent, stopped anywhere in such a run, loads of every clean conversation exactly the window of what was appended to it since it was last cleared or dropped |
| `HistoryRestart.HoldsRemembered` | src/kai/agent/history_store.py:211-296 | over every interleaving whatever, flushes and all, that is what memory holds |
| `HistoryFiles.SerializedMessagesParse` | src/kai/agent/history_store.py:182-209 | messages written out parse back to the same messages and timestamps |
| `HistoryFiles.SerializedMessageParses` | src/kai/agent/history_store.py:182-209 | any message reads back if its role is known, without its timestamp if that is empty |
| `HistoryFiles.ParsesItemByItem` | src/kai/agent/history_store.py:182-196 | an item with a known role and a text is read as it stands, wherever it is, and any other is skipped |
| `HistoryFiles.LegacyDataIs` | src/kai/agent/history_store.py:163-171 | a legacy file lists its conversations under "history" or at the top |
| `HistoryFiles.LoadsWhatIsStored` | src/kai/agent/history_store.py:80-179 | from a well-formed folder within the cap, in any mix of directory and legacy file, the agent loads exactly what the folder holds, a directory file winning over the legacy one |
| `HistoryFiles.LoadsNewest` | src/kai/agent/history_store.py:80-135 | from a well-formed folder of any size the agent loads the last `cap` of the conversations of the directory's `cap` newest files, oldest first, and those only the legacy file holds next to them, each with what its own source holds |
| `HistoryFiles.LegacyOutlivesDirectory` | src/kai/agent/history_store.py:94-100 | a directory conversation is loaded iff those after it and all that only the legacy file holds leave room for it |
| `HistoryMigration.CrashLoads` | src/kai/agent/history_store.py:80-179 | loading what a save stopped after any number of its file operations has left gives every non-empty snapshotted conversation as it was stored or as the snapshot has it, and lacks it only if it was not stored before |
| `HistoryMigration.StoppedSaveIsWellFormed` | src/kai/agent/history_store.py:328-393 | a save stopped anywhere leaves a well-formed folder if it found one |
| `HistoryMigration.CrashKeepsConversations` | src/kai/agent/history_store.py:328-393 | the folder so left, well-formed or not, stores each of them as before or as the snapshot has it |
| `HistoryMigration.CompletedSaveIsWellFormed` | src/kai/agent/history_store.py:354-393 | a completed full save leaves a well-formed folder whatever it held before |
| `HistoryMigration.CompletedSaveStoresSnapshot` | src/kai/agent/history_store.py:362-393 | a completed full save stores exactly the non-empty conversations of the snapshot |
| `HistoryMigration.CompletedSaveLoads` | src/kai/agent/history_store.py:80-179 | loading after it, in any listing order, gives exactly those back |
| `HistoryMigration.PartialSaveStores` | src/kai/agent/history_store.py:362-393 | a completed save of some conversations writes the file of each, or removes it if the conversation is empty, leaves every other file as it was and drops the legacy file |
| `HistoryDisk.HistoryFolder.WriteConversationFile` | src/kai/agent/history_store.py:328-352 | performs the operations of writing one conversation, or a prefix of them if the disk fails |
| `HistoryDisk.HistoryFolder.PruneConversationFiles` | src/kai/agent/history_store.py:354-360 | deletes the listed files that were not written, as far as the disk allows |
| `HistoryDisk.HistoryFolder.SaveFromSnapshot` | src/kai/agent/history_store.py:362-393 | performs the operations of a save in order; succeeds iff all of them did |
| `HistoryDisk.HistoryFolder.CapHistoryPaths` | src/kai/agent/history_store.py:125-135 | keeps the newest files up to the cap and deletes the rest |
| `HistoryDisk.HistoryFolder.LoadConversationDir` | src/kai/agent/history_store.py:102-123 | reads the listed files in order |
| `HistoryDisk.HistoryFolder.LoadLegacyHistoryFile` | src/kai/agent/history_store.py:154-179 | adds the legacy conversations not already loaded; an unreadable file drops everything loaded |
| `HistoryDisk.HistoryFolder.EvictLoaded` | src/kai/agent/history_store.py:229-240 | evicts the oldest loaded conversations and deletes exactly their files |
| `HistoryDisk.HistoryFolder.LoadHistoryState` | src/kai/agent/history_store.py:80-100 | loads as the function the theorems are about, and deletes exactly the files beyond the cap and those of evicted conversations |
| `HistoryReaders.ReadHistoryDir` | src/kai/cockpit/deployment_chat.py:120-148 | the cockpit reads a directory file by file |
| `HistoryReaders.LoadHistoryRaw` | src/kai/cockpit/deployment_chat.py:165-185 | the cockpit merges both sources, the directory winning |
| `HistoryReaders.InteractionSummary` | src/kai/cockpit/deployment_chat.py:220-237 | counts conversations and messages of the merged sources |
| `HistoryReaders.MergedShows` | src/kai/cockpit/deployment_chat.py:120-185 | in whatever order the directory is listed, the cockpit reader finds exactly what the folder stores |
| `HistoryReaders.ShowsItemByItem` | src/kai/cockpit/deployment_helpers.py:97-115 | the cockpit shows any item with a role and a content, wherever it is, and skips the others |
| `HistoryReaders.TwoReadersAgree` | src/kai/cockpit/deployment_chat.py:165-185 | on every well-formed folder within the cap the cockpit shows the conversations the agent loads, message for message |
| `HistoryReaders.ReadersAgreeOnStoppedSave` | src/kai/cockpit/deployment_chat.py:165-185 | they agree on every folder that a save stopped anywhere leaves, as in the middle of a migration |
| `HistoryReaders.SummaryCountsConversations` | src/kai/cockpit/deployment_chat.py:220-237 | the summary is the number of conversations the agent loads and of their messages |
| `HistoryReaders.CorruptLegacyDisagreesIff` | src/kai/agent/history_store.py:154-179 | with an unreadable legacy file the agent loads nothing, so the readers agree iff the directory holds no readable conversation |
| `Calendar.NextDayCounts` | src/kai/agent/recurrence.py:7-15 | the Gregorian next day is valid and one day later in the day count |
| `Calendar.AddDaysCounts` | src/kai/agent/scheduler.py:170-180 | adding days moves the day count by exactly that many |
| `Calendar.OrdinalInjective` | src/kai/agent/scheduler.py:170-180 | two dates with one day count are the same date |
| `Calendar.OrdinalClosedForm` | src/kai/agent/scheduler.py:170-180 | the day count in closed form, which fixes month lengths and leap years |
| `Calendar.FirstIsOne` | src/kai/agent/recurrence.py:7-15 | the first date is 1 January of year 1, with day count 1 |
| `Calendar.OrdinalCounts` | src/kai/agent/recurrence.py:7-15 | a date has day count n + 1 iff it falls n days after that |
| `Calendar.WeekdayCycles` | src/kai/agent/recurrence.py:7-15 | and n days after it is weekday n mod 7, Monday being 0 |
| `Calendar.LaterIsHigher` | src/kai/agent/scheduler.py:155-167 | a later date has the higher day count |
| `Recurrence.ComputeAdvanceWeekly` | src/kai/agent/recurrence.py:7-15 | the search loop computes the weekly advance |
| `Recurrence.ComputeAdvanceMonthly` | src/kai/agent/recurrence.py:18-26 | the month-normalising loop ends and computes the monthly advance |
| `Recurrence.WeeklyIsEarliestMatch` | src/kai/agent/recurrence.py:7-15 | with a weekday in 0..6 the next date is the earliest later one on a listed weekday, at most seven days on, whatever the interval |
| `Recurrence.MondayWitness` | src/kai/agent/recurrence.py:7-15 | a task for Mondays due on Monday, 6 January 2025 moves to 13 January |
| `Recurrence.WeeklyWithoutMatch` | src/kai/agent/recurrence.py:7-15 | with no weekday in 0..6 the search runs out one day past the interval |
| `Recurrence.MonthlyStep` | src/kai/agent/recurrence.py:18-26 | year and month advance by exactly `interval`, to a valid, strictly later date no later in the month |
| `Recurrence.MonthlyDrift` | src/kai/agent/recurrence.py:18-26 | after n steps the day is the smallest of the start day and the visited month lengths, so never later in the month than one direct jump |
| `Recurrence.NoDriftIff` | src/kai/agent/recurrence.py:18-26 | n steps come to the date of the direct jump iff no month on the way is shorter than the day of that date |
| `Recurrence.DriftWitness` | src/kai/agent/recurrence.py:18-26 | January 31 goes to February 28 and then March 28, not March 31 |
| `TaskStore.AdvanceIsLater` | src/kai/agent/scheduler.py:170-180 | any recurrence moves the due time at least a day on |
| `TaskStore.Store.Cancel` | src/kai/agent/scheduler.py:237-251 | a task is removed iff it is stored and belongs to the chat |
| `TaskStore.Store.Pop` | src/kai/agent/scheduler.py:265-288 | returns the due tasks in store order and leaves the store the firing of all of them leaves |
| `TaskStore.DueListed` | src/kai/agent/scheduler.py:265-288 | a pop takes exactly the stored tasks due at its time, each once |
| `TaskStore.FiringLaw` | src/kai/agent/scheduler.py:155-180 | over any run of additions, cancellations and pops, the i-th fire of a task has the i-fold advance of its first due time, at least a day after the one before, never early; at most max(1, count) fires; all but the first within `until`; and unless cancelled the task stays stored until a limit ends it |
| `TaskStore.FiresFollowRepeat` | src/kai/agent/scheduler.py:170-180 | over any run the i-th fire of a daily task falls i * interval days after the first, of a weekly one without weekdays 7 * i * interval days, of a monthly one i clamped month steps; with weekdays each falls on the earliest listed weekday after the one before |
| `TaskStore.StoredMatchesFires` | src/kai/agent/scheduler.py:155-167 | over any run a task is stored iff it was added, is not cancelled, and has not fired or recurs with fewer fires than `count` and its next due time within `until`; it then has that due time and as many occurrences as fires so far |
| `TaskStore.PopFiresDue` | src/kai/agent/scheduler.py:265-288 | after any run, a pop fires every stored task that is due, once, and no other |
| `TaskStore.DueInOrder` | src/kai/agent/scheduler.py:265-288 | it lists them in store order |
| `TaskStore.PopOrder` | src/kai/agent/scheduler.py:265-288 | it leaves the other tasks in their order, followed by the fired ones that go on |
| `TaskStore.FirstFire` | src/kai/agent/scheduler.py:265-288 | after any run, a task added and popped when due fires once, whatever its `until` and `count` |
| `TaskStore.ZeroCountFires` | src/kai/agent/scheduler.py:155-167 | so a count of zero fires exactly once |
| `TaskStore.UntilHoldsIff` | src/kai/agent/scheduler.py:155-167 | over any run, all fires of a task are within `until` iff it has not fired or its first due time is |
| `TaskStore.CountHoldsIff` | src/kai/agent/scheduler.py:155-167 | over any run, a task fires at most `count` times iff it has not fired or its count is at least one |
| `TaskStore.PopDrops` | src/kai/agent/scheduler.py:265-288 | one pop makes every late task less late by a day at least, or drops it |
| `TaskStore.DrainEnds` | src/kai/agent/scheduler.py:265-288 | popping at one fixed time ends, after as many pops as the latest task is days late, with nothing due |
| `Timestamps.IsoRoundTrip` | src/kai/agent/helpers.py:20-41 | printing and parsing back drops the fraction of a second and nothing else |
| `Timestamps.IsoCanonical` | src/kai/agent/helpers.py:20-41 | a timestamp of the printed form that parses is the only one that prints its value |
| `Timestamps.IsoFields` | src/kai/agent/helpers.py:20-27 | a printed timestamp reads YYYY-MM-DDTHH:MM:SSZ, digit by digit |
| `Timestamps.OffsetsAlike` | src/kai/agent/helpers.py:30-41 | a final Z, +00:00 and no offset read alike |
| `TaskPersistence.TaskRoundTrip` | src/kai/agent/scheduler.py:122-152 | saving and reloading a task keeps whole seconds, reads a count of zero and an empty list of weekdays as none, and changes nothing else |
| `TaskPersistence.SaveTasks` | src/kai/agent/scheduler.py:218-229 | writes every task in store order |
| `TaskPersistence.LoadTasks` | src/kai/agent/scheduler.py:202-216 | loads item by item, skipping what has no id, up to the first malformed record |
| `TaskPersistence.LoadsItemByItem` | src/kai/agent/scheduler.py:202-216 | wherever it stands, an item without an id is skipped and a malformed one ends the loading with what came before |
| `TaskPersistence.OldRecordLoads` | src/kai/agent/scheduler.py:134-152 | a record with id, chat, due time and an old "message" loads with the defaults for all else |
| `TaskPersistence.UnreadableFieldsAreMalformed` | src/kai/agent/scheduler.py:134-152 | a timestamp that cannot be read, or null or a list where a number belongs, makes a record malformed |
| `TaskPersistence.SaveThenLoad` | src/kai/agent/scheduler.py:202-229 | saving a whole store and loading it keeps the order and reloads each task |
| `TaskPersistence.ReloadsAlikeIff` | src/kai/agent/scheduler.py:134-152 | a reload leaves a task as it was, but for its creation time, iff its times are whole seconds, its count not zero and its weekdays not an empty list |
| `TaskPersistence.ZeroCountRevives` | src/kai/agent/scheduler.py:155-167 | a task with a count of zero ends at its first fire, but reloaded before it recurs after every number of fires |
| `TaskPersistence.RestartsGoUnnoticed` | src/kai/agent/scheduler.py:202-288 | restarts between any events change neither what any pop fires nor its order, for tasks of that kind |
| `Deployments.SingleLiveBot` | src/kai/cockpit/deployments.py:311-344 | over any run of create, edit, start (successful or failed), stop, delete, reconcile, process death and pid reuse, a live bot is the one its row and its registry name, and no deployment has two |
| `Deployments.RowsStayInOrder` | src/kai/cockpit/deployments.py:245-277 | over any run, a running row is wanted, has a run id and a port in 8200..8299 no other running row has, and only running rows need a restart |
| `Deployments.NeedsRestartIffEdited` | src/kai/cockpit/deployments.py:245-277 | over any run a running row needs a restart iff it was edited since its bot was last started |
| `Deployments.OthersUntouched` | src/kai/cockpit/deployments.py:245-344 | an operation on one deployment leaves the rows and records of all others alone |
| `Deployments.StartEndsNoProcess` | src/kai/cockpit/deployment_process.py:27-85 | a start ends no process, and one that does not come up begins none and changes at most the port of its row |
| `Deployments.NoDeadRecordStays` | src/kai/runs.py:147-168 | looking up a record deletes it iff it is dead, so a stop leaves no dead record |
| `Deployments.AllocatorExact` | src/kai/cockpit/deployments.py:79-89 | the allocator returns the lowest port no running row holds and fails iff running rows hold all hundred, so there are at least a hundred of them |
| `Deployments.RefusedIffLive` | src/kai/cockpit/deployments.py:99-119 | after any run, a start is refused iff the bot is alive or its recorded pid has been reused unnoticed, never both; with start ticks, iff it is alive |
| `Deployments.StopSparesOthersIff` | src/kai/cockpit/deployment_process.py:127-169 | `stop` leaves no live bot of the deployment, and kills nothing else iff the recorded pid was not reused unnoticed, which start ticks exclude |
| `Deployments.ReusedPidIsKilled` | src/kai/runs.py:94-105 | without start ticks, a family of runs in which a bot dies, another process gets its pid and `stop` kills that one |
| `Deployments.DeleteKeeps` | src/kai/cockpit/deployment_process.py:172-225 | deleting leaves no live bot, row or record behind and keeps the invariant |
| `Deployments.StartLeavesLiveIff` | src/kai/cockpit/deployments.py:311-344 | after any run, a start leaves a live bot iff there was one, or the recorded pid has not been reused unnoticed and the attempt comes up with a port and a pid to be had; the row then says running, wanted and fresh; with start ticks no pid is reused unnoticed |
| `Deployments.StopIsFinal` | src/kai/cockpit/deployment_process.py:127-169 | after a stop, reconciling starts no bot for the deployment and leaves its row stopped and unwanted |
| `Deployments.RunningBotsHaveOwnPorts` | src/kai/cockpit/deployment_env.py:147-152 | two live bots whose rows say running listen on different ports |
| `Deployments.PortKeptIffAnswered` | src/kai/cockpit/deployments.py:534-544 | through the first loop of reconciling, the port of a live bot whose row says running stays held iff the bot answers; the bot lives on either way |
| `Deployments.AnsweringBotsHaveOwnPorts` | src/kai/cockpit/deployments.py:520-569 | over any run in which every live bot answers whenever the cockpit reconciles, every live bot's row says running and no two have one port |
| `Deployments.LiveBotsCanSharePort` | src/kai/cockpit/deployments.py:520-569 | a family of runs after which two live bots have one port |
| `Deployments.ReconcileRevives` | src/kai/cockpit/deployments.py:520-569 | after any run, with at most a hundred deployments and starts that succeed, reconciling leaves a live bot for exactly the deployments that should run, save those whose recorded pid is then reused unnoticed, and the unwanted ones that had one; it disturbs no process, and no pid is newly reused if no start gets a pid another row's own record names; with start ticks none ever is |
| `Deployments.LaunchKeeps` | src/kai/cockpit/deployment_process.py:27-85 | a start that comes up, or fails at any point, keeps the invariant |
| `Deployments.SettleKeeps` | src/kai/cockpit/deployments.py:534-544 | so does marking a silent deployment stopped |
| `Deployments.LeaveKeeps` | src/kai/cli/bot_runtime.py:286-316 | so does a bot that shuts down and takes its record away |
| `DeploymentsServices.DeploymentsService.IsLive` | src/kai/runs.py:94-105 | true iff the recorded process is the one alive, by start tick where both can be read, else by pid |
| `DeploymentsServices.DeploymentsService.GetRun` | src/kai/runs.py:147-168 | returns the record if live and deletes it if not |
| `DeploymentsServices.DeploymentsService.ResolveRun` | src/kai/cockpit/deployments.py:99-119 | with a fresh cache entry or none, the answer and the effect are those of resolving without a cache, and fresh entries stay fresh |
| `DeploymentsServices.DeploymentsService.AllocateControlPort` | src/kai/cockpit/deployments.py:79-89 | both loops together find the allocator's port |
| `DeploymentsServices.DeploymentsService.Start` | src/kai/cockpit/deployments.py:311-344 | takes the start step of the model and says whether the bot was started |
| `DeploymentsServices.DeploymentsService.Stop` | src/kai/cockpit/deployment_process.py:127-169 | takes the stop step of the model |
| `DeploymentsServices.DeploymentsService.Delete` | src/kai/cockpit/deployment_process.py:172-180 | takes the delete step of the model |
| `DeploymentsServices.DeploymentsService.FetchStatus` | src/kai/cockpit/deployment_process.py:234-243 | true iff the row's own record is live and the bot answers |
| `DeploymentsServices.DeploymentsService.Reconcile` | src/kai/cockpit/deployments.py:520-569 | both loops, with the run cache they share, take the reconcile step of the model |
| `Nonces.NonceStore.PruneOld` | src/kai/cockpit/connections/webhooks.py:29-33 | drops entries from the front while they are older than the window |
| `Nonces.NonceStore.RecordNew` | src/kai/cockpit/connections/webhooks.py:39-43 | records a nonce and evicts the oldest over the cap |
| `Nonces.NonceStore.CheckFreshness` | src/kai/cockpit/connections/webhooks.py:85-104 | fails closed without timestamp and nonce; else true iff the timestamp is in the window and the nonce unseen, which is then recorded |
| `Nonces.NonceStore.VerifyResend` | src/kai/cockpit/connections/webhooks.py:142-171 | false before pruning when a header is missing or the timestamp is no number |
| `Nonces.NonceStore.WebhookIngest` | src/kai/cockpit/routes/connections/webhooks.py:39-68 | verify, dedup, forward, record, in that order |
| `Nonces.StoreIsLogWindow` | src/kai/cockpit/connections/webhooks.py:20-51 | after any run of requests the pruned store is the longest suffix of the log of all records with at most 10000 entries, none older than 300 seconds |
| `Nonces.WindowIsLongest` | src/kai/cockpit/connections/webhooks.py:20-51 | that suffix fits and no longer one does |
| `Nonces.SeenIffInWindow` | src/kai/cockpit/connections/webhooks.py:112-115 | a nonce is seen iff the window holds a record of it |
| `Nonces.ResponseIs` | src/kai/cockpit/routes/connections/webhooks.py:39-68 | after any run a request is unauthorized iff a header is missing, the timestamp over 300 seconds off on either side or the signature wrong; deduplicated iff it passes and one of the last 10000 records is of its nonce and at most 300 seconds old; otherwise accepted iff well-formed and forwarded |
| `Nonces.CheckedOnce` | src/kai/cockpit/connections/webhooks.py:85-104 | a nonce passes the freshness check only once in 300 seconds |
| `Nonces.TimestampCheckedIff` | src/kai/cockpit/connections/webhooks.py:85-104 | without a nonce the check passes iff the timestamp is within 300 seconds of the clock |
| `Nonces.ReplayIsTurnedAway` | src/kai/cockpit/routes/connections/webhooks.py:49-66 | a request whose nonce was recorded, with fewer than 10000 records since, is turned away if the gap between verification and lookup is at most the time from its timestamp to its record |
| `Nonces.ReplaysTurnedAwayIff` | src/kai/cockpit/routes/connections/webhooks.py:49-66 | just after a request is accepted, all its replays with a given gap are turned away iff the gap is at most that time, or that time was already over the window |
| `Nonces.FailureLeavesNonceFree` | src/kai/cockpit/routes/connections/webhooks.py:60-66 | a request that could not be forwarded leaves its nonce free for a retry |
| `Nonces.RecordingAgainKeepsOrderIff` | src/kai/cockpit/connections/webhooks.py:39-43 | recording a present nonce keeps the times in order iff nothing after it is older |
| `RateLimiter.LoginRateLimiter.TryHit` | src/kai/cockpit/routes/auth.py:43-52 | the pruning loop and the append take the step of the model |
| `RateLimiter.RefusedIffFull` | src/kai/cockpit/routes/auth.py:43-52 | an attempt is refused iff at least `max` accepted attempts of the whole run lie within the window before it |
| `RateLimiter.WindowNeverOverfull` | src/kai/cockpit/routes/auth.py:43-52 | over a whole run, no closed stretch as long as the window holds more than `max` accepted attempts of one client |
| `Secrets.KeyState.DeriveFernet` | src/kai/cockpit/connections/secrets.py:89-103 | a cached key is the derived key |
| `Secrets.KeyState.EncryptFields` | src/kai/cockpit/connections/secrets.py:147-163 | encrypts in place exactly the non-empty secret fields that look plain |
| `Secrets.KeyState.DecryptFields` | src/kai/cockpit/connections/secrets.py:166-182 | decrypts exactly the secret fields that look encrypted, or fails |
| `Secrets.SecretIsSealed` | src/kai/cockpit/connections/secrets.py:114-163 | a secret is stored in an envelope of the version, whose token decrypts to it under that version's key, unless it is empty or looks like an envelope already |
| `Secrets.ConfigIsSealed` | src/kai/cockpit/connections/secrets.py:147-163 | so is every such secret of a configuration, and everything else is stored as given |
| `Secrets.DeclaredSecretsAreSealed` | src/kai/cockpit/connections/secrets.py:147-163 | that goes for database URLs, SMTP passwords, Cal.com keys and both Resend secrets |
| `Secrets.LooksEncryptedIff` | src/kai/cockpit/connections/secrets.py:134-144 | a text looks like an envelope iff it begins with v and more than ten characters follow from its first colon on |
| `Secrets.SecretRoundTripIff` | src/kai/cockpit/connections/secrets.py:114-144 | a secret saved and read back is the same iff it does not look like an envelope |
| `Secrets.UrlLooksEncrypted` | src/kai/cockpit/connections/secrets.py:134-144 | any URL whose scheme begins with `v` looks like an envelope, so it is stored as it is and cannot be read back |
| `Secrets.VerticaDsnLooksEncrypted` | src/kai/cockpit/connections/secrets.py:134-144 | such as `vertica://u:p@host/db` |
| `Secrets.ConfigRoundTripIff` | src/kai/cockpit/connections/secrets.py:147-182 | a configuration saved and read back is the same iff none of its secrets looks like an envelope |
| `Secrets.EncryptIsIdempotent` | src/kai/cockpit/connections/secrets.py:147-163 | encrypting again changes nothing, even under another version |
| `KeyRotation.RotateCredentialKey` | src/kai/cockpit/key_rotation.py:15-53 | the override moves first; the rows change only when all can be re-encrypted |
| `KeyRotation.RotationPreservesMeaning` | src/kai/cockpit/key_rotation.py:31-44 | over any run of saves, rotations and restarts that saves no secret looking like an envelope, every stored configuration, of credentials and of webhooks, reads back as what the events last gave |
| `KeyRotation.StoredIsEncrypted` | src/kai/cockpit/connections/secrets.py:147-163 | over any such run every non-empty stored secret is an envelope whose token decrypts to what was given |
| `KeyRotation.RotationSealsAll` | src/kai/cockpit/key_rotation.py:39-44 | after a rotation every non-empty credential secret is such an envelope of the new active version |
| `KeyRotation.RotationIsAllOrNothing` | src/kai/cockpit/key_rotation.py:31-47 | a rotation always moves the override, and either re-encrypts every credential or changes neither a connection nor the configuration |
| `Decimal.PrintAppendsDigit` | src/kai/cockpit/key_rotation.py:31-37 | numbers are printed in decimal |
| `KeyRotation.LeadingVs` | src/kai/cockpit/key_rotation.py:31-37 | the number is read behind any leading v |
| `KeyRotation.RotationAdvances` | src/kai/cockpit/key_rotation.py:31-37 | after any such run a rotation moves the active version to the next number |
| `KeyRotation.RotationReencryptsAll` | src/kai/cockpit/key_rotation.py:39-44 | and puts every credential under that version, leaving webhook connections as they were |
| `KeyRotation.VersionsCountRotations` | src/kai/cockpit/key_rotation.py:31-47 | while the process lives, or if every rotation reaches the configuration, the active version is the first plus the number of rotations |
| `KeyRotation.RestartForgetsIff` | src/kai/cockpit/key_rotation.py:47-73 | after any such run, a rotation survives a restart iff it was written to the configuration |
| `KeyRotation.UnwrittenVersionReusedIff` | src/kai/cockpit/key_rotation.py:31-73 | after any such run, an unwritten rotation, a restart and another rotation: the second gets no newer a version than the first, and the same one iff the configuration was up to date before |
| `ConfigMerge.DeepMerge` | src/kai/templates/resolver.py:208-216 | the key-by-key loop computes the merge |
| `ConfigMerge.MergeUnits` | src/kai/templates/resolver.py:208-216 | the empty map is a unit on both sides |
| `ConfigMerge.MergeIdempotent` | src/kai/templates/resolver.py:208-216 | merging a map with itself changes nothing |
| `ConfigMerge.MergeLookup` | src/kai/templates/resolver.py:208-216 | a path leads to the merge of two maps if both layers have one there, else to what the second layer has if it has anything or cuts the path, else to what the first has |
| `ConfigMerge.MergeIsRightIff` | src/kai/templates/resolver.py:208-216 | a layer overrides another entirely iff it covers all its keys, recursively |
| `ConfigMerge.MergeAssociativeIff` | src/kai/templates/resolver.py:208-216 | merging three layers regroups iff wherever the outer two hold a map the middle holds one too, recursively, or the last covers the first there |
| `ConfigMerge.ResolveCanPrecombineIff` | src/kai/templates/resolver.py:82-94 | when defaults, template and file regroup, the overriding layers can be combined before they are laid over the defaults iff defaults and the first two regroup with the last |

## Left out

- CorruptLegacyDisagreesIff: a history file that is not UTF-8 is merely unreadable here; the cockpit catches only I/O and JSON errors, so there such a file makes the reader raise.
- LoadTasks: a record without `chat_id` or `due_at` counts as malformed and ends the loading; in the code its `KeyError` is not caught and `load` raises.
- RestartForgetsIff: `envWritten` says that the rotated version reached the effective configuration; an environment variable of the same name takes precedence over the rewritten `.env`, so with one set a rotation that was written is lost all the same.
- HTTP, SMTP, SQL queries, templates, the command line, LLM calls and tools: plumbing over libraries or behaviour of an external model.
- URL parsing, validation and normalisation, and the crawler: fixed functions of their arguments; whether crawling a URL raises is one of them.
- The file-name hash of conversations is assumed injective, and sanitised instance ids and bot types distinct per deployment.
- JSON is modelled as values, not text; duplicate keys, and ids that are not strings, are not modelled. Message contents are strings, never missing.
- History without a data folder: nothing is then written or marked dirty. The cap on conversations is taken as at least one where a read creates a conversation, since with zero the read itself fails.
- A failure to delete the file of an evicted conversation.
- StalledIffFailed: `flush()`, as at a clean shutdown, is a flush that does not wait for the delay; not modelled are its cancelling a flush whose write is still running in its thread, and a mutation during a `flush()` that no scheduled flush preceded, which schedules the next flush at once rather than at the commit.
- Times are taken as already in UTC; time zones, relative times, surrounding spaces and timestamp forms other than those `to_iso` prints are not parsed. Advancing past the year 9999 does not overflow in the model; such a time could not be stored, and a store holding one is not saved or restarted. Years are printed with four digits; where the C library prints years before 1000 with fewer, the record cannot be parsed and ends the loading.
- The cockpit process itself dying in the middle of an operation, two service calls at once, a probe that raises instead of answering, and edits that set `control_port` by hand.
- RefusedIffLive: a bot that exits by itself stays an unreaped child of the cockpit until the next process is spawned, so its pid and start tick still match and a start is refused; in the model a process that dies is gone at once, as if reaped.
- A bot that shuts down counts as an ordinary process from the moment it removes its record, even if its `stop()` timed out and it is still serving.
- WebhookIngest: requests are handled one after the other; two at once with one nonce can both be forwarded, and the second record then keeps its old place, which RecordingAgainKeepsOrderIff describes.
- The randomness in Fernet tokens: the cipher is a fixed function of key and plaintext. The root key does not change, and HMAC signatures are a given truth value.
- Version names other than `v` followed by digits: NextVersion reads digits after any leading `v`, and Python's other spellings of integers are treated as errors.
- Configuration values that are neither text nor maps are treated as text, as `str` would make them.
- Settings forms, feature flags, escalation lists, goals and chat whitelists: single-branch facts.
- Regular-expression text clean-up and reasoning-channel stripping: no law of interest holds of the single pass.
