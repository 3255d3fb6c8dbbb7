# RARA runtime state: a verified model

RARA keeps a good deal of state outside the model conversation: the goal a thread pursues, the
boundary up to which turns were mined for memories, a task list shared between agents, session
transcripts, memory records, context shards, and the bookkeeping of capture and diagnostics. This
project models those components in Dafny and proves what they keep over whole runs: every
interleaving, every failed write, every crash point.

Where the source changes fields step by step, a class with the same fields has one method per
operation, and each method is proved equal to a specification function of the old state. What the
components promise is then proved about these functions: lemmas over runs, and for each operation
an exact account of its answer and of every field it leaves, in terms a caller can see beforehand.

| files | component |
|---|---|
| `Goals`, `GoalRuns`, `GoalOutcomes`, `GoalContinuation` | the goal store: write-ahead mutations, admission and membership tokens, what each operation answers, token accounting and progress |
| `AutoMemory`, `AutoMemoryRuns`, `AutoMemoryProgress` | the single-worker, coalescing extraction scheduler with panic recovery and drain, and what becomes of a notification |
| `TaskList`, `TaskListRuns`, `TaskListOutcomes` | the shared task list: two-sided dependencies, revisions, owner claims, id allocation, every field of an update |
| `Transcript`, `TranscriptRuns`, `SessionSave`, `SessionRecovery`, `SessionRuns` | transcript checkpoints (append or rewrite), their cache, crash-safe saving and recovery, and runs of both |
| `MemoryRecords`, `RecordCacheRuns` | the memory record file and its cache under concurrent readers and writers |
| `ContextShards`, `ContextSearch` | append-only context shards, their cache, and the ranked search over them |
| `ControlTokens`, `ControlTokensNormalForm`, `ControlTokensRest` | the scrubber of internal blocks and legacy markers |
| `ModelContext` | context blocks merged into the last user request |
| `Capture`, `CaptureRuns`, `Diagnostics` | session capture and the bounded diagnostic queue |
| `Prelude`, `StampedCache` | small shared types, number printing and parsing; eviction of the two file caches |

## How the world is modelled

- Files, database rows and JSON are values: sequences of lines or records, and maps. A write takes
  its outcome from the caller: it succeeds or leaves everything as it was. Byte-level facts that
  matter are explicit: an appended line may be cut anywhere, and then either does not parse or
  lacks only its newline.
- `Arc` identity is a number from a counter that never repeats. Clocks, sink answers, summarizer
  results, directory and hash order are parameters or events, so every statement holds for all of
  them.
- A step of a run is one critical section of the source, or one lock-free file access. Inheritance,
  which takes the lock of the source store and then its own, is one step; `InheritInTwoSections`
  shows that the two sections apart are a run of such steps as well.
- A session is what lies on disk and what the process has cached of its transcript; the process may
  restart, or its cache evict the transcript, between any two steps.
- Fixed-width counters are modelled with their saturation (token counts, revisions, the dropped
  counter) or wrap-around (the next task id at 64 bits).

## What the proofs found

- A cache hit on the memory records can be *newer* than the version its reader stat'ed: a second
  reader whose stat is just as old may read after a write and publish under the old stamp
  (`HitCanBeNewerThanItsStat`). Reads are still linearizable, and reads that no write overlaps are
  exact (`ReadsAreLinearizable`). All loads of a run are exact if and only if no read of the file
  was overtaken by a write after its stat (`LoadsAreExactIff`), and an answer differs from the
  stat'ed version if and only if the very read that loaded it was overtaken by a write that left
  other records (`AnswerDiffersIff`).
- A checkpoint that appends behind a whole entry whose newline never reached the file loses
  messages; this is the only case in which a checkpoint does not leave the given history
  (`CheckpointRefinesRewrite`, with `UnterminatedEntryIsLost` as an example). The cache then
  vouches for the wrong content: checkpoints of the same process keep the loss exactly as long as
  each history extends the one before (`WarmCacheKeepsTheLoss`), while one that reads the file
  again repairs it (`RestartHeals`).
- A completed save is still recovered, by its snapshot. Only messages of role `System` can be
  missing, exactly when the checkpoint `Loses`, or the transcript cannot be read: it appends behind
  an unterminated entry, or it goes on appending, on what the cache says, to a file that is damaged
  already (`CompletedSaveIsRecovered`, `CompletedAfterAnyRun`; `NextSaveLosesToo` is the second
  save of one process). The recorder of a thread (src/thread_store/recorder.rs:47-53) stores the
  whole history in the snapshot, and then nothing is missing (`RecordedSaveIsRecovered`).
- Before the first completed save there is no snapshot to fall back on, and recovery can yield a
  history from whose middle messages are missing (`HoleBeforeFirstSnapshot`), but only after an
  append began behind an unterminated entry (`RecoveryAfterAnyRun`).
- On a record file with a repeated id, readers do not see what operations on that id do, because
  these act on the first record of an id and readers use the last: an upsert or update exactly
  unless the last record already agrees, a deletion never (`UpsertIsSeenIff`, `UpdateIsSeenIff`,
  `DeleteIsSeenIff`, with `DeletedIdStaysVisible` as an example). Files written by these
  operations alone never repeat an id (`NoUpdateIsLost`).
- Session capture identifies a message by its position in the session's history. A history that is
  *replaced* within a session, as a compaction does (src/agent/compact/main.rs:86 and 220, with
  captures before and after it at src/tui/runtime/processor.rs:235 and 289), puts other messages at
  positions already sent; they are reported as captured and never reach the sink
  (`ReplacedMessageIsLost`). Everything captured is delivered if and only if captured histories of
  one session agree wherever both have a message (`EveryMessageIsDeliveredIff`).
- Session capture also compares the signature `{len}:{last id}` with the bare last id it stored.
  The ids the runtime builds (src/runtime_client.rs:231-240) never match, so this comparison loses
  nothing there; only for ids of another form, such as "1:x", could a batch be dropped
  (`ForeignIdsCanBeSuppressed`, `CaptureCoversSnapshotIff`).
- A requested claim of a budget-limited goal returns it as budget-limited even if its usage is
  below the budget again; only automatic claims tie the two together (`ClaimIsSafe`).
- Search depends on the order in which a directory is listed exactly when two shards hold a key and
  disagree on its latest checkpoint (`ListingsAgreeIff`). Appends never lead there, since every
  shard holds its own session only (`OwnSessionsAreDisjoint`); hand-edited shards can.
- Recovery exists twice: src/session.rs:309-367 is compiled for tests only, its production twin is
  src/thread_store.rs:705-760. They make the same decisions; the model is of both.

- The queue of the memory scheduler has one place. A notification whose turns are only queued is
  lost when another session's takes that place, or when the worker that runs it fails and nothing
  reaching as far is queued; nothing else loses it (`StepLosesIff`, `NotifiedTurnsAreExtracted`).
  The turns themselves are picked up by the next notification of the session that counts.
- An update of a task reports its owner as changed also when a claim or release took hold but was
  undone or overridden by the same update (`UpdateReportsIff`).

## Model

| member | source | states |
|---|---|---|
| Goals.Shared.constructor | src/runtime_goals.rs:107-126 | a process starts with the rows its database holds and with no token handed out |
| Goals.Shared.Fresh | src/runtime_goals.rs:106-113 | a token that was not handed out before, and no other one becomes issued |
| Goals.GoalStore.constructor | src/runtime_goals.rs:102-136 | a new store is empty, in memory only, with two tokens of its own |
| Goals.GoalStore.PersistRow | src/runtime_goals.rs:255-270 | writes the goal with its deferral flag, removes the row of no goal, succeeds without effect in memory, fails when persistence is disabled |
| Goals.GoalStore.MutateForTurn | src/runtime_goals.rs:220-253 | a change is persisted before it is visible, takes a fresh admission token, and moves membership exactly when the goal is another one; refused, unchanged or unwritten leaves all as it was |
| Goals.GoalStore.DeferContinuation | src/runtime_goals.rs:276-286 | tickets are invalidated at once, the flag is set only after it is written |
| Goals.GoalStore.TurnStarted | src/runtime_goals.rs:288-296 | tickets are invalidated at once, the flag is cleared only after that is written |
| Goals.GoalStore.Edit | src/runtime_goals.rs:310-330 | only with the current ticket; keeps membership and deferral |
| Goals.GoalStore.Replace | src/runtime_goals.rs:332-348 | only with the current ticket; a new goal gets new tokens and no deferral |
| Goals.GoalStore.ClaimContinuation | src/runtime_goals.rs:351-386 | who is admitted under which mode, when the goal turns budget-limited, and what a failed write leaves |
| Goals.GoalStore.DisableAfterPersistenceFailure | src/runtime_goals.rs:208-214 | empties the store, moves both tokens and refuses later writes |
| Goals.GoalStore.RestoreForThread | src/runtime_goals.rs:154-206 | takes goal and flag from the row, binds the store to it, rejects malformed rows without effect |
| Goals.GoalStore.InheritFrom | src/runtime_goals.rs:395-398 | copies the whole state, tokens included |
| GoalOutcomes.ClaimAdmitsIff | src/runtime_goals.rs:351-386 | a claim is admitted if and only if its ticket is current, there is a goal, an automatic claim meets no deferral, the goal is pursuing, or budget-limited and requested, and what must be written can be; the goal returned, by its budget fields |
| GoalOutcomes.MutationTakesEffectIff | src/runtime_goals.rs:220-253 | a change arrives if and only if it is accepted and, when it changes something, written; deferral and membership stay exactly for the same objective and creation time without a revival |
| GoalOutcomes.DeferralTakesEffectIff | src/runtime_goals.rs:276-286 | a deferral takes hold whenever there is a goal and the flag can be written |
| GoalOutcomes.TurnStartTakesEffectIff | src/runtime_goals.rs:288-296 | a started turn lifts the deferral unless that cannot be written |
| GoalOutcomes.TurnBeginsIff | src/runtime_goals.rs:142-152 | a turn is charged to the goal exactly when it is pursued; a ticket exists exactly for a goal |
| GoalOutcomes.EditTakesEffectIff | src/runtime_goals.rs:310-330 | exactly when an edit succeeds, and that it changes nothing but the objective and the admission |
| GoalOutcomes.ReplaceTakesEffectIff | src/runtime_goals.rs:332-348 | exactly when a replacement succeeds, with or without a goal before |
| GoalOutcomes.DisableTakesEffect | src/runtime_goals.rs:208-214 | disabling empties memory and leaves the disk, and the next operation but a restore neither shows a goal nor writes |
| GoalOutcomes.RestoreTakesEffectIff | src/runtime_goals.rs:154-206 | exactly which rows are restored, and that goal and flag are those of the row |
| GoalOutcomes.RestoredStoreWritesItsRow | src/runtime_goals.rs:184-187 | whatever operation follows a restore of a thread, and however its write ends, the row of that thread is what the store holds |
| GoalOutcomes.RestoredRowFollows | src/runtime_goals.rs:154-386 | the same at every moment of any run of many stores in which nobody else writes that row |
| GoalRuns.ApplyIsFresh | src/runtime_goals.rs:208-386 | an operation leaves the state alone or takes an admission token nobody has seen; membership moves to a fresh token or the creation time stays |
| GoalRuns.InheritInTwoSections | src/runtime_goals.rs:395-398 | inheritance split at its two locks, with any events between them, copies the state read at the first, again as a run of single steps |
| GoalRuns.TokensDetermineState | src/runtime_goals.rs:208-398 | over all runs of any number of stores, equal admission tokens at any two moments mean equal goal, flag and binding; equal membership means equal creation time |
| GoalRuns.TicketNeverActsOnAChangedGoal | src/runtime_goals.rs:298-386 | a claim, edit or replacement that takes effect works on exactly the state its ticket was issued for |
| GoalRuns.TurnIsChargedToItsOwnGoal | src/runtime_goals.rs:142-152 | a turn contributes tokens only to a goal of the membership, and so the creation time, it began under |
| GoalRuns.EditKeepsMembership | src/runtime_goals.rs:310-330 | editing the objective keeps a running turn chargeable |
| GoalRuns.ApplyAgrees | src/runtime_goals.rs:220-386 | each operation, written or failed, keeps memory and row in agreement and touches no other row |
| GoalRuns.MemoryEqualsDisk | src/runtime_goals.rs:154-296 | after every event of a sole-writer run the row is exactly goal and flag, or absent for no goal |
| GoalRuns.RestartRecoversMemory | src/runtime_goals.rs:154-206 | restoring the row of a live store yields its goal and flag, and fails exactly for blank objectives and zero budgets |
| GoalRuns.DisabledStaysEmpty | src/runtime_goals.rs:208-214 | over runs of many stores, a disabled store shows no goal and writes no row until it is restored, overwritten by inheritance or dropped |
| GoalContinuation.ContinueStoredGoal | src/runtime_client.rs:307-359 | accounting, the budget decision and the suppression of deferred goals, on the store |
| GoalContinuation.ClaimIsSafe | src/runtime_goals.rs:351-386 | a successful claim consumes its ticket for every later claim, a failed write keeps ticket and state, an admitted pursuing goal is below its budget |
| GoalContinuation.DeferralEndsExactlyByClearing | src/runtime_goals.rs:220-386 | a deferral ends if and only if one of the listed clearing operations succeeds |
| GoalContinuation.DeferralEndsExactlyIn | src/runtime_goals.rs:220-398 | the same for every event of a run of many stores, inheritance included |
| GoalContinuation.DeferredGoalIsNotAdmitted | src/runtime_goals.rs:351-386 | over any run of many stores without a clearing event for it, a deferred store admits no automatic claim |
| GoalContinuation.ContinueChargesTheTurn | src/runtime_client.rs:314-353 | the charge is exactly the turn's own delta or nothing; budget, membership and creation time stay; continue and exhausted mean below and at the budget |
| GoalContinuation.ContinueAnswersIff | src/runtime_client.rs:307-359 | a goal goes on if and only if it is pursued, not deferred and nothing waits for the user, and it is exhausted exactly when the charged turn reached the budget; the goal left, field by field |
| GoalContinuation.AutomaticRunRespectsBudget | src/runtime_client.rs:307-359 | in automatic runs usage is the saturating sum of the charges, overshoots by less than the last one, and at most one wrap-up is admitted |
| GoalContinuation.AutomaticRunFromIdle | src/runtime_client.rs:307-359 | the same, sum, overshoot, unchanged budget and single wrap-up, from every idle store with a goal |
| GoalContinuation.RunContinuesExactlyWithinBudget | src/runtime_client.rs:307-359 | progress: uninterrupted turns are admitted and charged one after the other if and only if the budget is not used up; one wrap-up turn follows, then the run is idle |
| GoalContinuation.RunStartsFromIdle | src/runtime_goals.rs:351-386 | an automatic claim starts such a run from every idle store with a pursued goal within budget |
| AutoMemory.AutoMemoryService.constructor | src/auto_memory.rs:81-86 | a new service is idle and has extracted nothing |
| AutoMemory.AutoMemoryService.LastCompletedTurns | src/auto_memory.rs:224-232 | the boundary of a session, zero when it has none |
| AutoMemory.AutoMemoryService.NotifyTurnCompleted | src/auto_memory.rs:88-150 | every fifth turn, unless covered, starts a worker or replaces the pending request |
| AutoMemory.AutoMemoryService.FinishRequest | src/auto_memory.rs:175-199 | success moves the boundary forward only; the pending request is handed over or the waiters are woken |
| AutoMemory.AutoMemoryService.RecoverWorkerExit | src/auto_memory.rs:201-222 | a panicked worker's request is dropped, the pending one goes on, or the waiters are woken |
| AutoMemoryRuns.WorkingWindow | src/auto_memory.rs:300-308 | the window a worker processes is exactly the turns after the boundary it read |
| AutoMemoryRuns.ExtractionsTileEverySession | src/auto_memory.rs:88-199 | in every run the successful windows of a session concatenate to exactly its first `last` turns, and each recorded span names the turns processed |
| AutoMemoryRuns.TurnsAreCommits | src/auto_memory.rs:265-273 | the turns windows are taken from are those the session committed, in order |
| AutoMemoryRuns.BoundaryNeverDecreases | src/auto_memory.rs:175-199 | no step moves a session's boundary back |
| AutoMemoryRuns.SingleWorkerAndNoLostWakeup | src/auto_memory.rs:140-250 | pending implies current, current is set exactly when one worker owns that key, and no drain waiter sleeps on the epoch of an idle service |
| AutoMemoryRuns.WorkerLoopEnds | src/auto_memory.rs:159-222 | without notifications every ended request uses up one of at most two |
| AutoMemoryProgress.NotificationOutcome | src/auto_memory.rs:88-150 | a notification counts if and only if the turns are a positive multiple of five not taken care of yet; it is then run or queued, and otherwise changes nothing |
| AutoMemoryProgress.NotifiedRequest | src/auto_memory.rs:123-137 | the request holds exactly the turns from the boundary on |
| AutoMemoryProgress.SucceedsIff | src/auto_memory.rs:300-308 | an extraction succeeds if and only if the summarizer does or no turn after the start was said by user or assistant |
| AutoMemoryProgress.FinishOutcome | src/auto_memory.rs:175-199 | the boundary reaches a turn if and only if it did or the request succeeded and reaches it; what was queued is running |
| AutoMemoryProgress.StepLosesIff | src/auto_memory.rs:88-222 | turns taken care of stay so, exactly unless their only request fails or is displaced from the queue by another session |
| AutoMemoryProgress.NotifiedTurnsAreExtracted | src/auto_memory.rs:88-222 | after any run, and any further events that do not lose it, a notification's turns are extracted or on their way, and extracted at idle |
| AutoMemoryProgress.WorkersCanFinish | src/auto_memory.rs:159-199 | from a started worker there is a run of successes, at most two, that reaches idle |
| AutoMemoryProgress.SucceedingWorkersExtract | src/auto_memory.rs:159-199 | if workers only succeed and nothing is notified, the boundary reaches the notified turns at idle |
| TaskList.TaskListStore.constructor | src/tasklist.rs:16-23 | a store opens the list as it lies on disk |
| TaskList.TaskListStore.HighestId | src/tasklist.rs:261-277 | the largest id that reads as a 64-bit number |
| TaskList.TaskListStore.CreateTask | src/tasklist.rs:66-99 | the next id, a pending task of revision 1 without links, or nothing when the id is taken |
| TaskList.TaskListStore.LoadDependencies | src/tasklist.rs:339-356 | succeeds exactly when every named task is valid, another one and present |
| TaskList.TaskListStore.WriteAll | src/tasklist.rs:384-386 | exactly the collected records are written |
| TaskList.TaskListStore.LinkBlocked | src/tasklist.rs:358-369 | each named task learns once that it is blocked, at one revision per new link |
| TaskList.TaskListStore.LinkBlockers | src/tasklist.rs:371-382 | each named task learns once that it blocks, at one revision per new link |
| TaskList.TaskListStore.LinkDependencies | src/tasklist.rs:338-382 | both loops together, nothing written when a check fails |
| TaskList.TaskListStore.ApplyDependencies | src/tasklist.rs:329-388 | neighbours are written exactly when all checks passed |
| TaskList.TaskListStore.RemoveKnownReferences | src/tasklist.rs:410-440 | the neighbours the deleted record lists lose every reference to it |
| TaskList.TaskListStore.Update | src/tasklist.rs:101-234 | the whole update: order of the checks, the outcome reported, the records left |
| TaskListRuns.UpdatedRecord | src/tasklist.rs:101-234 | after a successful update each record is the edited target, a linked neighbour or untouched |
| TaskListRuns.UpdatedEdges | src/tasklist.rs:329-388 | the edges afterwards are the old ones and the named ones, at both ends |
| TaskListRuns.DeletedEdges | src/tasklist.rs:117-136 | by symmetry the listed neighbours are all neighbours, so no reference survives |
| TaskListRuns.DependenciesStaySymmetric | src/tasklist.rs:66-234 | over every run edges are recorded at both ends, both ends exist, and no task refers to itself |
| TaskListRuns.AllocatedIdIsFree | src/tasklist.rs:261-277 | below the 64-bit limit a creation never collides |
| TaskListRuns.NewTaskIsUnreferenced | src/tasklist.rs:66-99 | a new task, even with the id of a deleted one, is referenced by nobody |
| TaskListRuns.RevisionsIdentifyRecords | src/tasklist.rs:138-225 | in delete-free runs revisions never go back and equal ones below the maximum mean equal records |
| TaskListRuns.SecondUpdateIsStale | src/tasklist.rs:138-156 | of two changing updates with one expected revision at most one succeeds |
| TaskListRuns.RejectionIsAtomic | src/tasklist.rs:138-205 | an update is rejected exactly by its guards, and then leaves every task as it was |
| TaskListRuns.HolderKeepsTask | src/tasklist.rs:587-619 | one cooperative step leaves the holder in place unless it releases |
| TaskListRuns.OwnershipIsALock | src/tasklist.rs:587-619 | without overrides and deletions a task changes hands only after its holder released it |
| TaskListOutcomes.UpdateOutcomeIff | src/tasklist.rs:101-234 | the outcome of an update, with revision, time and holder reported, by the first check it fails |
| TaskListOutcomes.UpdateSetsFields | src/tasklist.rs:158-196 | after an accepted update each supplied field is in the record and every other stays; the owner by claim, release and override |
| TaskListOutcomes.UpdateMergesMetadata | src/tasklist.rs:626-637 | a key is set, removed by null, or stays |
| TaskListOutcomes.UpdateAppendsDependencies | src/tasklist.rs:358-382 | new dependencies come behind the old ones, and no others |
| TaskListOutcomes.UpdateReportsIff | src/tasklist.rs:158-210 | exactly which fields are reported |
| TaskListOutcomes.UpdateMovesRevisionIff | src/tasklist.rs:206-225 | revision and time move exactly when something is reported, and the outcome names them and both statuses |
| TaskListOutcomes.UpdateLinksNeighbours | src/tasklist.rs:358-386 | a neighbour gets each new link at its end at one revision, all its other fields and all other records stay |
| TaskListOutcomes.WithoutKeepsOthers | src/tasklist.rs:432-435 | removing a reference keeps all others, as often as they occur |
| TaskListOutcomes.DeleteLeavesTheRest | src/tasklist.rs:117-136 | a deletion removes one record and from the others only references to it |
| TaskListOutcomes.CreatedRecord | src/tasklist.rs:66-99 | a new record field by field, under the number after the highest |
| TaskListOutcomes.ClaimTakesHold | src/tasklist.rs:587-605 | whoever has a claim accepted owns the task |
| TaskListOutcomes.ClaimsAreExclusive | src/tasklist.rs:587-605 | over any run without deletion, override or release by the claimer, a claim of somebody else is refused and told who holds the task |
| TaskListOutcomes.ReleaseFrees | src/tasklist.rs:607-617 | the holder's release is accepted, reported, and frees the task |
| StampedCache.Prune | src/session_transcript.rs:31-41 | leaves room for one entry, never evicts the preserved one, and evicts no more than needed |
| Transcript.LoadTranscript | src/session_transcript.rs:250-287 | entries in order and a saturating count of lines that do not parse, the unterminated rest included |
| Transcript.TranscriptStore.constructor | src/session_transcript.rs:25-29 | the files as they are and an empty cache |
| Transcript.TranscriptStore.Remember | src/session_transcript.rs:406-422 | the cache stays within its bound; it is coherent afterwards exactly when the remembered load is the file's |
| Transcript.TranscriptStore.LoadCached | src/session_transcript.rs:289-321 | with a coherent cache the cached load equals the direct load |
| Transcript.TranscriptStore.Write | src/session_transcript.rs:375-404 | one file replaced under a new stamp, others untouched |
| Transcript.TranscriptStore.AppendEntry | src/session_transcript.rs:230-248 | the line continues whatever followed the last newline, and the path leaves the cache |
| Transcript.TranscriptStore.AppendHistoryFrom | src/session_transcript.rs:170-182 | the entries of the history from an index on, one line each |
| Transcript.TranscriptStore.RewriteHistory | src/session_transcript.rs:184-228 | meta entry and whole history replace the file and are cached |
| Transcript.TranscriptStore.AppendHeader | src/session_transcript.rs:150-154 | a file without entries gets its meta entry first |
| Transcript.TranscriptStore.AppendNews | src/session_transcript.rs:150-156 | exactly what is new is appended |
| Transcript.TranscriptStore.AppendCheckpoint | src/session_transcript.rs:150-164 | the append path with what it puts into the cache |
| Transcript.TranscriptStore.RewriteCheckpoint | src/session_transcript.rs:142-168 | the rewrite path with what it puts into the cache |
| Transcript.ExtendsHistory | src/session_transcript.rs:144-149 | nothing failed to parse and the visible messages are a prefix of the history |
| Transcript.TranscriptStore.SyncHistoryCheckpoint | src/session_transcript.rs:142-168 | append when the visible messages are a prefix and nothing failed to parse, else rewrite; the cache stays coherent if and only if no entry was merged away |
| Transcript.AppendedLoad | src/session_transcript.rs:142-168 | the load put into the cache is the load of the file if and only if the checkpoint did not append behind an unterminated entry |
| TranscriptRuns.CheckpointRefinesRewrite | src/session_transcript.rs:142-186 | for every prior file the visible messages become the history, as by a rewrite, with the exact exception |
| TranscriptRuns.MergedVisible | src/session_transcript.rs:142-182 | what the exception loses, and that it leaves a parse error behind |
| TranscriptRuns.UnterminatedEntryIsLost | src/session_transcript.rs:142-182 | a concrete transcript and history for which the exception happens |
| TranscriptRuns.RestartHeals | src/session_transcript.rs:142-168 | the next checkpoint that reads the file repairs the loss |
| TranscriptRuns.WarmCacheKeepsTheLoss | src/session_transcript.rs:142-168 | over any run of checkpoints on the cached load, the file stays short exactly while each history extends the one before; afterwards nothing is missing |
| TranscriptRuns.AppendEqualsRewrite | src/session_transcript.rs:142-186 | on files written by checkpoints, append and rewrite give the same file |
| TranscriptRuns.RunEqualsRewrite | src/session_transcript.rs:142-186 | after any run of checkpoints the file is line for line one rewrite of the last history |
| TranscriptRuns.MessagesFormAChain | src/session_transcript.rs:363-373 | visible message i has id i and the id of message i-1 as parent |
| TranscriptRuns.MessageIdsDiffer | src/session_transcript.rs:434-436 | ids of different positions differ, those beyond six digits included |
| TranscriptRuns.MainChainEntries | src/session_transcript.rs:88-95 | the entries of a session's own transcript name that session, no agent and no sidechain |
| TranscriptRuns.FirstCheckpointIsComplete | src/session_transcript.rs:150-154 | a missing, empty or blank file is given the entries of a rewrite, the meta entry first |
| TranscriptRuns.VisibleIff | src/session_transcript.rs:323-339 | a main-chain message is visible, a sidechain message or another entry is not |
| TranscriptRuns.VisibleConcat | src/session_transcript.rs:323-339 | each entry by itself and in file order |
| TranscriptRuns.LoadedIff | src/session_transcript.rs:250-287 | every line that parses is loaded, as often as it is there |
| TranscriptRuns.MalformedLinesAreCounted | src/session_transcript.rs:250-287 | the count is the number of lines that do not parse, saturating |
| SessionSave.WithoutSystemConcat | src/session.rs:114-116 | each message is kept or left out by itself, so the kept ones stay in their order |
| SessionSave.WithoutSystemKeepsOthers | src/session.rs:114-116 | exactly the messages of other roles are kept, each as often as it occurs |
| SessionSave.SessionManager.constructor | src/session.rs:87-100 | a process starts with the snapshots and legacy histories as they are |
| SessionSave.SessionManager.SaveHistorySnapshot | src/session.rs:109-132 | the filtered history replaces the snapshot |
| SessionSave.SessionManager.SaveSession | src/session.rs:102-107 | transcript first, snapshot second, whatever the cache said; disk and cached load afterwards, and no other session changes |
| SessionSave.SessionManager.Believes | src/thread_store.rs:714-723 | when the transcript is believed over the snapshot and the legacy history |
| SessionSave.SessionManager.FallBack | src/thread_store.rs:742-760 | snapshot before legacy history, failure for one that does not parse, and what is written back and cached |
| SessionSave.SessionManager.LoadThreadHistoryMigration | src/thread_store.rs:705-760 | which of transcript, snapshot and legacy history is believed, the failures of unreadable and unparsable files, and what is written back and cached |
| SessionSave.CutFileLoad | src/session_transcript.rs:230-248 | a file cut while appending holds a part of the news and perhaps one torn line |
| SessionSave.CutAnywhere | src/session_transcript.rs:142-182 | whatever preceded it, a cut file shows a part of the new history that keeps the old one, or fails to parse and is not believed |
| SessionSave.WrittenSeen | src/session_transcript.rs:142-168 | on whatever cached load, a checkpoint leaves exactly the history, or a damaged file exactly when it `Loses` |
| SessionSave.CrashSafeSave | src/session.rs:102-132 | cut at any point, recovery yields old, old without system messages, new, or a part of new that extends old |
| SessionSave.CrashSafeFirstSave | src/session.rs:102-132 | the same for the first save: nothing, the legacy history, or a part of new |
| SessionSave.CompletedSaveIsRecovered | src/session.rs:102-107 | a completed save is what recovery finds, from any prior disk and cached load; its system messages are left out if and only if the checkpoint loses messages, which is decided before the call, or the file cannot be read |
| SessionSave.NextSaveLosesToo | src/session.rs:102-107 | after a merge the next save of the same process loses again, although nothing is unterminated any more |
| SessionSave.RecordedSaveIsRecovered | src/thread_store/recorder.rs:47-53 | with an unfiltered snapshot a completed save is recovered exactly, lossy or not |
| SessionSave.RecoveryIsIdempotent | src/thread_store.rs:705-760 | what recovery writes back makes the next recovery find the same history |
| SessionRecovery.TranscriptIsBelievedIff | src/thread_store.rs:714-728 | the transcript is believed if and only if it can be read and, given a fallback, shows a message, parses wholly and is not the snapshot cut short |
| SessionRecovery.FallbackOtherwise | src/thread_store.rs:729-760 | otherwise the snapshot, then the legacy history; exactly when recovery fails and when it finds nothing |
| SessionRecovery.NeverLessThanTheSnapshot | src/thread_store.rs:714-760 | with an intact snapshot recovery never yields a proper prefix of it |
| SessionRecovery.LegacyIsNotHidden | src/thread_store.rs:714-760 | an empty transcript never hides a legacy history |
| SessionRecovery.UnreadableIsNotNew | src/thread_store.rs:729-734 | an unreadable transcript without fallback is a failure, not a missing thread |
| SessionRecovery.FallbackIsWrittenBack | src/thread_store.rs:847-858 | what was recovered from is in the snapshot afterwards and, once mirrored, in the transcript |
| SessionRecovery.OtherwiseNothingIsWritten | src/thread_store.rs:705-760 | a recovery that fails, finds nothing or believes the transcript writes nothing |
| SessionRecovery.NextRecoveryNeedsNoLegacy | src/thread_store.rs:742-760 | after a mirrored fallback the transcript is believed again, also without the legacy file |
| SessionRuns.CutThinned | src/session_transcript.rs:142-182 | wherever an append is cut, and whatever it merged with, the transcript shows the new history with messages left out, none altered or reordered |
| SessionRuns.RecoveryAfterAnyRun | src/session.rs:102-132 | over any run of completed and cut saves, cached or restarted, and recoveries: the last completed history, with or without system messages, an attempt, or a part of one that still holds another of these; before the first completed save the same from nothing, but for an append behind an unterminated entry |
| SessionRuns.CompletedAfterAnyRun | src/session.rs:102-107 | at the end of any such run a completed save is what recovery finds, up to system messages, with the same exact condition |
| SessionRuns.HoleBeforeFirstSnapshot | src/session_transcript.rs:142-182 | a concrete run without a completed save whose recovery misses messages in the middle |
| MemoryRecords.ChangeIsIdempotent | src/memory_store_helpers.rs:218-253 | a patch keeps the record's id and reports no change the second time |
| MemoryRecords.PatchSetsFields | src/memory_store_helpers.rs:218-253 | each supplied field replaces the old one, an empty title does not; the update time moves exactly on a change; identity, source and creation time stay |
| MemoryRecords.PinSetsPin | src/memory_records.rs:111-129 | pinning changes the pin, and the time exactly if the pin changed |
| MemoryRecords.OtherRecordsStay | src/memory_store_helpers.rs:13-85 | an operation touches the first record of its id only; all others stay in place |
| MemoryRecords.WritesIff | src/memory_store_helpers.rs:13-85 | exactly when an operation writes the file |
| MemoryRecords.OperationRefinesMap | src/memory_store_helpers.rs:13-85 | on unique ids upsert, update and delete are the plain map operations and ids stay unique |
| MemoryRecords.UpsertIsSeenIff | src/memory_store_helpers.rs:13-34 | on any list, readers see an upsert if and only if its id is not repeated or nothing changed for them |
| MemoryRecords.UpdateIsSeenIff | src/memory_store_helpers.rs:36-63 | on any list, readers see an update if and only if its id is not repeated or the last record of it would not change |
| MemoryRecords.DeleteIsSeenIff | src/memory_store_helpers.rs:65-85 | on any list, readers see a deletion if and only if its id is not repeated, and otherwise no change at all |
| MemoryRecords.DeletedIdStaysVisible | src/memory_store_helpers.rs:65-85 | a concrete list on which a deleted id stays visible |
| MemoryRecords.MemoryRecordFileStore.constructor | src/memory_records.rs:69-75 | the file as it is and an empty cache |
| MemoryRecords.MemoryRecordFileStore.RecordMap | src/memory_store_helpers.rs:122-127 | the last record of an id counts |
| MemoryRecords.MemoryRecordFileStore.Find | src/memory_store_helpers.rs:24-24 | the first record of an id is found |
| MemoryRecords.MemoryRecordFileStore.WriteRecords | src/memory_store_helpers.rs:29-32 | file replaced under a new stamp and published |
| MemoryRecords.MemoryRecordFileStore.UpsertRecord | src/memory_store_helpers.rs:13-34 | replaces the first record of that id or appends |
| MemoryRecords.MemoryRecordFileStore.UpdateRecord | src/memory_store_helpers.rs:36-63 | changes that record only, writes only when it changed, reports a missing id |
| MemoryRecords.MemoryRecordFileStore.DeleteRecord | src/memory_store_helpers.rs:65-85 | removes and returns the first record of that id, or writes nothing |
| MemoryRecords.MemoryRecordFileStore.LoadRecordMapCached | src/memory_store_helpers.rs:87-102 | the cached map is the map of the file |
| RecordCacheRuns.ReaderStepKeeps | src/memory_store_helpers.rs:87-102 | stat, check, read and publish keep every entry and answer sound |
| RecordCacheRuns.WriterStepKeeps | src/memory_store_helpers.rs:13-85 | the lock holder always works on the current version |
| RecordCacheRuns.ReadsAreLinearizable | src/memory_store_helpers.rs:87-120 | in every interleaving an answer was the content of the file between the reader's stat and its return; exact when no write overlaps |
| RecordCacheRuns.ReadIsExactIff | src/memory_store_helpers.rs:99-100 | one read loads the stat'ed version if and only if no write overtook it or the overtaking writes left the same records |
| RecordCacheRuns.LoadsAreExactIff | src/memory_store_helpers.rs:87-120 | all loads of a run are exact if and only if no read was overtaken, and then so are all answers |
| RecordCacheRuns.AnswerDiffersIff | src/memory_store_helpers.rs:87-120 | an answer differs from the stat'ed version if and only if the read event that loaded its entry was overtaken by a write that left other records |
| RecordCacheRuns.HitCanBeNewerThanItsStat | src/memory_store_helpers.rs:87-120 | a concrete interleaving in which a hit differs from the stat'ed version |
| RecordCacheRuns.NoUpdateIsLost | src/memory_store_helpers.rs:13-85 | the file is what the completed writes make of a plain map, in lock order, and ids stay unique |
| RecordCacheRuns.UninterruptedLoadAnswers | src/memory_store_helpers.rs:87-102 | after any run, a load that nobody comes between answers with the current records, and the next one is a cache hit |
| RecordCacheRuns.UninterruptedWriteTakesEffect | src/memory_store_helpers.rs:13-85 | whoever gets the lock adds exactly the version its operation makes of the current one, and publishes it |
| ContextShards.LengthGrows | src/session_context.rs:81-88 | appends only: the length of a shard tells its versions apart |
| ContextShards.LengthIsAdditive | src/session_context.rs:183-187 | the length of a file is the sum of its lines' |
| ContextShards.HitIsSameVersion | src/session_context.rs:183-196 | a cached entry of the same length was stat'ed of the same version |
| ContextShards.FileIsItsAppends | src/session_context.rs:81-88 | over any run a shard is its old lines and the appended ones |
| ContextShards.CachedLoadIsDirectLoad | src/session_context.rs:63-98 | however appends, evictions and readers interleave, a cached load is a direct load at some moment of the read, and the present one when nothing was appended meanwhile |
| ContextShards.UninterruptedLoadAnswers | src/session_context.rs:183-213 | after any run, a load that nobody comes between answers with the present content and caches it |
| ContextShards.NextLoadHits | src/session_context.rs:183-197 | a cache that vouches for the length answers without a read |
| ContextShards.LoadContextCheckpointFile | src/session_context.rs:215-230 | the checkpoints of the lines that parse, in order |
| ContextShards.ContextShardStore.constructor | src/session_context.rs:24-27 | the shards as they are and an empty cache |
| ContextShards.ContextShardStore.AppendContextCheckpoint | src/session_context.rs:63-98 | one checkpoint is added to the shard of its own session and the cache stays valid |
| ContextShards.ContextShardStore.LoadContextCheckpointFileCached | src/session_context.rs:183-213 | equals the direct load and stays within the bound |
| ContextSearch.OwnSessionsAreDisjoint | src/session_context.rs:59-79 | shards of their own sessions never share a key |
| ContextSearch.LatestIsOrderIndependent | src/session_context.rs:109-115 | for shards that agree where they hold the same key, the latest checkpoint per session and turn does not depend on directory order |
| ContextSearch.OrderMatters | src/session_context.rs:109-115 | for shards that disagree on a key, two listings that differ |
| ContextSearch.ListingsAgreeIff | src/session_context.rs:109-115 | all listings of a directory give the same latest checkpoints if and only if its shards agree on every key they share |
| ContextSearch.RankingIsUnique | src/session_context.rs:129-135 | the comparison is a strict total order, so a ranking is determined by its hits |
| ContextSearch.SearchIsOrderIndependent | src/session_context.rs:100-138 | two searches of shards that agree on their keys give the same hits in the same order, for every directory and hash order |
| ContextSearch.LatestIsLast | src/session_context.rs:109-115 | the checkpoint of a session and turn is the last one recorded |
| ContextSearch.SearchReturnsTheBest | src/session_context.rs:116-137 | scores never increase along a result, ties go by time, session and turn, and what is left out is no better than anything returned, and only once the limit is reached |
| ContextSearch.LatestByKey | src/session_context.rs:109-115 | the loop that fills the map |
| ContextSearch.SearchContextShards | src/session_context.rs:100-138 | the first `limit` positive-scoring latest checkpoints in rank order; nothing for a blank query |
| ControlTokens.FindIn | src/control_tokens.rs:126-149 | the first occurrence from a position, or none |
| ControlTokens.StripBlocksLoop | src/control_tokens.rs:126-161 | the loop over blocks leaves exactly the text outside them, with the separator rule |
| ControlTokens.LegacyMarkerEnd | src/control_tokens.rs:101-116 | the bar of a marker opening here, if and only if there is one |
| ControlTokens.StripMarkersLoop | src/control_tokens.rs:72-99 | the scan leaves exactly the text outside markers, with the separator rule |
| ControlTokens.ScrubText | src/control_tokens.rs:51-57 | three block passes, then the marker scan unless no angle bracket is left |
| ControlTokensNormalForm.JoinCreatesNothing | src/control_tokens.rs:151-161 | where the separator rule joins two texts no tag or marker can straddle the seam |
| ControlTokensNormalForm.InternalPassRemovesTags | src/control_tokens.rs:118-124 | none of the three opening tags is left, whichever pass removed text around it |
| ControlTokensNormalForm.ShortcutAgreesWithScan | src/control_tokens.rs:51-57 | skipping the scan for text without an angle bracket gives the same result |
| ControlTokensNormalForm.ScrubReachesNormalForm | src/control_tokens.rs:51-161 | the output contains no opening tag and no marker |
| ControlTokensNormalForm.ScrubKeepsCleanText | src/control_tokens.rs:51-161 | clean text is left alone |
| ControlTokensNormalForm.ScrubIsIdempotent | src/control_tokens.rs:51-161 | scrubbing twice is scrubbing once |
| ControlTokensNormalForm.BalancedBlockIsCut | src/control_tokens.rs:126-161 | exactly the block goes, with a newline only between visible texts |
| ControlTokensNormalForm.OpenBlockIsCut | src/control_tokens.rs:126-149 | an unclosed block takes the rest and nothing before it |
| ControlTokensNormalForm.MarkerIsCut | src/control_tokens.rs:72-99 | exactly the marker goes, with a newline after visible text |
| ControlTokensNormalForm.NamesAreAscii | src/control_tokens.rs:109-111 | the characters of a marker's name, by their codes |
| ControlTokensRest.BlockThenRest | src/control_tokens.rs:126-161 | behind a block the scan goes on as if the rest were a text of its own, so of any number of blocks each goes and all text between them stays |
| ControlTokensRest.MarkerThenRest | src/control_tokens.rs:72-99 | the same for markers |
| ModelContext.KindNamesRoundTrip | src/model_context.rs:16-24 | a written kind is read back as itself and only its own name is read as it |
| ModelContext.KindNamesAre | src/model_context.rs:115-127 | the five names as they are written |
| ModelContext.MergedBuckets | src/model_context.rs:88-104 | a supplied kind holds exactly the supplied fragments, every other bucket what it held |
| ModelContext.UpsertIsIdempotent | src/model_context.rs:71-105 | a second upsert changes nothing, and finds the same message |
| ModelContext.UpsertIsStableNormalForm | src/model_context.rs:71-105 | context blocks first in kind order, other blocks in their original order, other messages and kinds untouched |
| ModelContext.UpsertGoesToLastUserText | src/model_context.rs:78-83 | only the last message of role `user` with visible text can change, by role and text |
| ModelContext.MergedInKindOrder | src/model_context.rs:26-34 | the order of the kinds in a merged request |
| ModelContext.MergedKeepsTheRequest | src/model_context.rs:88-97 | what is not context stays, a plain text as a block of its own |
| ModelContext.LookupFindsLastSupplied | src/model_context.rs:58-69 | a lookup that reaches the request finds the last supplied fragment of each supplied kind and the old one of the others |
| ModelContext.RetainOthers | src/model_context.rs:94-97 | blocks of supplied kinds are dropped, the rest kept in order |
| ModelContext.UpsertLatestUserModelContext | src/model_context.rs:71-105 | the array after the call, and `true` exactly when it changed |
| Capture.MemoryLifecycleCoordinator.constructor | src/memory_lifecycle.rs:106-111 | nothing sent yet |
| Capture.MemoryLifecycleCoordinator.PrepareRequest | src/memory_lifecycle.rs:168-207 | the unsent messages in order, or nothing |
| Capture.MemoryLifecycleCoordinator.CaptureSnapshot | src/memory_lifecycle.rs:113-152 | only an acknowledged batch changes the state, and marks the whole snapshot |
| Capture.RuntimeIdsDiffer | src/runtime_client.rs:231-240 | an id names one position of one session, whatever the session id contains |
| Capture.CaptureCoversSnapshotIff | src/memory_lifecycle.rs:113-207 | for any ids, exactly when a capture leaves its whole snapshot sent |
| Capture.UnsentConcat | src/memory_lifecycle.rs:177-182 | each message is sent or left out by itself, so a batch keeps the order of the snapshot |
| Capture.ForeignIdsCanBeSuppressed | src/memory_lifecycle.rs:187-193 | ids, not of the runtime's form, for which a batch is reported as captured but never sent |
| CaptureRuns.CapturedIsDeliveredOnce | src/memory_lifecycle.rs:113-207 | over any captures of runtime histories no id is delivered twice, and the delivered ids are exactly those of successfully captured snapshots |
| CaptureRuns.SentReaches | src/memory_lifecycle.rs:127-135 | the ids marked as sent are exactly the positions reached by acknowledged histories of their session |
| CaptureRuns.CapturedByEvents | src/memory_lifecycle.rs:113-152 | which captures are reported as successful follows from the events alone |
| CaptureRuns.EveryMessageIsDeliveredIff | src/memory_lifecycle.rs:113-207 | every message of every captured snapshot is delivered, and nothing else, if and only if captured histories of one session agree wherever both have a message |
| CaptureRuns.ReplacedMessageIsLost | src/runtime_client.rs:231-240 | a concrete pair of captures of one session after which a captured message was never delivered |
| Diagnostics.PendingDiagnostics.constructor | src/diagnostics.rs:49-53 | empty queue |
| Diagnostics.PendingDiagnostics.PushDiagnostic | src/diagnostics.rs:56-68 | repeats are ignored, the oldest makes room and is counted |
| Diagnostics.PendingDiagnostics.Drain | src/diagnostics.rs:70-82 | everything queued, a note when records were dropped, and the last record is remembered |
| Diagnostics.QueueIsNewestSuffix | src/diagnostics.rs:56-82 | the queue is the newest at most 256 records since the last drain, the counter says how many older ones went |
| Diagnostics.RepeatsAreIgnored | src/diagnostics.rs:56-63 | no record is accepted twice in a row, across drains too |
| Diagnostics.DrainsAccountForEveryRecord | src/diagnostics.rs:56-82 | every accepted record belongs to exactly one drain or the next, and each drain returns the newest 256 of its records in order with a note on how many older ones it omits |
| Diagnostics.PushIsAcceptedIff | src/diagnostics.rs:56-63 | a record is accepted exactly unless it repeats the last accepted one |

## Left out

- Byte-level files, JSON encoding and escaping, fsync, SQLite and the implementation of locks; a
  torn or whole unterminated last line is the only partial write modelled.
- Two live stores writing one goal row, and applying a prepared restore after other writes to the
  same thread: `MemoryEqualsDisk` asks for a sole writer. Inheritance is part of the token results.
- `continue_goal` reads the deferral flag under a second lock; the model reads it in the same step.
- One clock value per task update; the source reads the clock for each record it touches.
- I/O failures between the writes of one task update or deletion, and records of revision zero
  before they are normalized on reading.
- Failures while a legacy history is written back into the snapshot.
- Floating-point scores and tokenization in shard search are an arbitrary real-valued score of the
  text; record importance is a real number without NaN.
- `load_session_context_checkpoints`, which sorts the latest checkpoint per turn of one session.
- DeepSeek markup and end-of-sequence tokens in the scrubber, and the replay of streamed text.
- Overlapping captures: `capture` releases its lock before it awaits the sink
  (src/memory_lifecycle.rs:113-152), and the runs in `CaptureRuns` are sequential.
- Idempotency keys, timeouts and transport of captured batches; redaction and truncation of
  diagnostics.
- A worker task dropped by the executor before it is first polled.
- Normalizing new records and patches, label counts, record search, the event bus, adapters, the
  TUI, configuration, and everything that calls a language model.
