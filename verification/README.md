# A verified model of the QNAP AI Control Suite core

The suite lets an AI client operate a NAS through an agent (Go) and a bridge (JavaScript). This
project models the parts of it that have to be right under crashes, failures and concurrency, and
proves what they promise:

- **Jobs** (`job_*.dfy`). One goroutine per job, a lock per resource taken before a global semaphore,
  cancellation, shutdown, history trimming, idempotency keys, a write-ahead journal with snapshot
  compaction, and crash recovery. `JobManager` holds the manager as a class whose methods are proved
  against the operations of `JobSpec`; `JobWorld` makes these operations, the goroutine steps and
  crashes between any two disk writes the steps of one transition system; `JobHistory`,
  `JobVerdicts`, `JobAgreement`, `JobScheduling`, `JobRunning`, `JobPromises` and `JobKeys` prove properties
  of every run of it. `JobKeyReturn` gives a run after which keys collide, `JobStopScene` one in which more jobs are
  recorded as running than may run; `JobScenes` builds their beginnings.
- **Credentials** (`token_*.dfy`). A token file and a config hash updated without a log: rollback,
  verification, start-up reconciliation, and rotation under a lock; `TokenHistory` follows them over any
  history of requests, failed writes, crashes and restarts, from any stored credentials, and
  `TokenOrphans` says when such a history leaves a hash whose token nobody holds.
- **Tree sync** (`file_tree.dfy`, `tree_*.dfy`). A copy walk and a delete walk over a file system whose
  operations may fault, with exact results on success, limits on what a failure may change, and the
  exact condition for success.
- **Paths** (`paths.dfy`). Containment and archive destinations on path strings.
- **Approvals** (`json_numbers.dfy`, `canonical_json.dfy`, `approval_*.dfy`, `bridge_flow.dfy`). Expiring
  single-use tickets bound to the canonical request body, what such a binding fixes of what a handler
  reads, the gate in front of every handler, requests that interleave, and the bridge that asks the user and
  retries once, composed with arbitrary other traffic and lost messages.
- **Adapter commands** (`adapter_*.dfy`). Placeholder replacement one key after another, against filling
  all placeholders in one scan (`AdapterFilling`) and against what a template means (`AdapterTemplates`).

Conventions. A method with side effects is tied by its contract to a specification function or
predicate; lemmas state what holds of that specification. Clock readings, freshly drawn identifiers
and the fates of writes are parameters or nondeterministic choices, so every theorem covers all of
them. The code ignores a failed journal append, so memory and disk are said to agree job by job: on every
job but those in `stale`, which `JobAgreement` traces to a last append that failed. SHA-256 is idealised as an injective constructor.

## Model

| member | source | states |
|---|---|---|
| JobManager.Manager.NewWithOptions | agent/internal/jobs/jobs.go:112-146 | by default 200 jobs, four at a time and a journal of 32 MiB, logs of 16 MiB; with a journal path, the table is what recovery makes of the files, and if no disk call fails they lag behind it for no job with an id |
| JobManager.Manager.StartWithOptions | agent/internal/jobs/jobs.go:155-194 | a retained key returns its job and changes nothing, even while stopping; stopping refuses; otherwise a queued job with a new counter enters, the table is trimmed, and the job is recorded exactly if the append succeeds |
| JobManager.Manager.Enter | agent/internal/jobs/jobs.go:177-187 | the queued job enters under the counter just drawn, the table is trimmed and the job recorded |
| JobManager.Manager.FindKey | agent/internal/jobs/jobs.go:161-168 | finds a retained job with the key, or there is none |
| JobManager.Manager.MarkRunning | agent/internal/jobs/jobs.go:312-325 | only a queued job becomes running, and that is recorded exactly if the append succeeds |
| JobManager.Manager.Finish | agent/internal/jobs/jobs.go:327-369 | a terminal job or a stopping manager changes nothing; otherwise the outcome is entered, the table trimmed, and the job recorded even if the trim dropped it, exactly if the append succeeds |
| JobManager.Manager.Close | agent/internal/jobs/jobs.go:339-363 | the final record: cancelled if the context or the error says so, else failed or succeeded |
| JobManager.Manager.Write | agent/internal/jobs/jobs.go:364-365 | the new record replaces the job's entry, then trim, then record: with a journal path and a working append it reaches the journal |
| JobManager.Manager.Cancel | agent/internal/jobs/jobs.go:237-247 | true exactly for a retained live job, whose context is then cancelled; nothing else changes |
| JobManager.Manager.Shutdown | agent/internal/jobs/jobs.go:253-264 | sets stopping and collects exactly the live jobs for cancellation, leaving every record alone |
| JobManager.Manager.CancelCollected | agent/internal/jobs/jobs.go:265-267 | one of the cancellations that follow without the lock |
| JobManager.Manager.AppendLog | agent/internal/jobs/jobs.go:423-454 | the log becomes the bounded log of one more line, and the record is appended exactly when it changed and the append succeeds |
| JobManager.Manager.Logs | agent/internal/jobs/jobs.go:282-310 | the page from the clamped cursor, the next cursor and the truncation flag |
| JobManager.Manager.TrimLocked | agent/internal/jobs/jobs.go:402-421 | live jobs stay, only the oldest terminal ones go, and no more than needed |
| JobManager.Manager.OldestTerminal | agent/internal/jobs/jobs.go:404-415 | a terminal job no other terminal job is older than, or there is none |
| JobManager.Manager.PersistLocked | agent/internal/jobs/jobs.go:523-559 | the append happens exactly with a journal path and if it succeeds; the table is published and the journal emptied exactly if the journal has then reached the compaction size and those calls succeed |
| JobManager.Manager.CompactLocked | agent/internal/jobs/jobs.go:561-608 | publishes a complete listing of the table, ordered by creation time, before it empties the journal; each stage happens exactly if its call succeeds |
| JobManager.Manager.CollectJobs | agent/internal/jobs/jobs.go:565-568 | every retained job's record exactly once |
| JobManager.Manager.SortByAge | agent/internal/jobs/jobs.go:569 | the same listing in the order of creation |
| JobManager.Manager.LoadState | agent/internal/jobs/jobs.go:610-630 | the replayed store with every live job interrupted and recorded, then trimmed; only a live job whose append failed, or one without an id, is not recorded, and none with an id if no call fails |
| JobManager.Manager.InterruptLive | agent/internal/jobs/jobs.go:616-628 | every live job of the replay is interrupted, a crash at any write leaves each job as before or interrupted, and the store lags only for jobs whose append failed or that have no id |
| JobManager.Manager.LoadSnapshot | agent/internal/jobs/jobs.go:632-647 | the table read from the snapshot alone |
| JobManager.Manager.LoadJournal | agent/internal/jobs/jobs.go:649-665 | the journal replayed over the snapshot, the last record of each job winning, records without id skipped |
| JobManager.Manager.RestoreJob | agent/internal/jobs/jobs.go:667-673 | the record replaces the job's entry, its missing update time filled in |
| JobRecords.PersistCrashPoints | agent/internal/jobs/jobs.go:523-608 | at any crash point of recording a job, with or without compaction, each job reads back as before, as the record being written, or as the table holds it |
| JobRecords.AgreementGrows | agent/internal/jobs/jobs.go:523-548 | recording a job makes it agree with memory and keeps every other agreement, unless the append failed or the record has no id; a completed compaction makes all agree |
| JobRecords.ListingHoldsTable | agent/internal/jobs/jobs.go:565-570 | a published snapshot reads back exactly as the table |
| JobRecords.ReplayOfOneMore | agent/internal/jobs/jobs.go:644-663 | loading one more record is the replay of one more record |
| JobRecords.TrimStep | agent/internal/jobs/jobs.go:403-416 | dropping the oldest terminal job keeps the trim proper |
| JobSpec.TrailGrows | agent/internal/jobs/jobs.go:617-628 | recording one more recovered job keeps every crash point of recovery readable |
| JobSpec.LostStep | agent/internal/jobs/jobs.go:616-628 | recording one more recovered job settles it, or its append failed |
| JobIds.PrintId | agent/internal/jobs/jobs.go:731-742 | the loop from the low digit prints the hexadecimal numeral |
| JobIds.PrintedIdParsesBack | agent/internal/jobs/jobs.go:731-742 | a printed number is a canonical numeral that parses back to it |
| JobIds.ParsedNumeralPrintsBack | agent/internal/jobs/jobs.go:731-742 | and every canonical numeral is the print of what it parses to |
| JobIds.CounterIsInId | agent/internal/jobs/jobs.go:177-179 | equal job ids have equal counters and stamps, whatever the clock said |
| JobLog.LogIsBoundedPrefix | agent/internal/jobs/jobs.go:423-454 | any run of lines leaves at most 1000 lines and the byte limit, exact counters, and the input itself unless flagged, when it is a prefix with at most the last line cut and a bound was reached |
| JobLog.StoredLinesStay | agent/internal/jobs/jobs.go:429-450 | stored lines never change, and a truncated log never grows |
| JobLog.PagingReadsEachLineOnce | agent/internal/jobs/jobs.go:282-310 | following the cursors from 0 while the log grows reads every stored line once and in order, and makes progress |
| JobLog.LogKeepsWhatFits | agent/internal/jobs/jobs.go:423-454 | nothing is cut or dropped exactly if the output has at most 1000 lines, room for every line, and no more bytes than the limit |
| JobLog.PageHoldsLimit | agent/internal/jobs/jobs.go:282-310 | a page begins at the cursor, or at the nearest end, and holds as many lines as asked for, from one to 2000 and else 200, or as there are |
| JobLog.ReaderFollowsOutput | agent/internal/jobs/jobs.go:282-454 | a reader that polls while the job appends has read the job's output up to its cursor, cut only in a last line of a truncated log, and all of it as soon as that fits one page |
| JobHistory.DoesWrites | agent/internal/jobs/jobs.go:155-369 | an operation writes at most one record, and without one neither table nor disk changes |
| JobHistory.WritesAreProper | agent/internal/jobs/jobs.go:155-369 | a write is a new queued job or a new record of a live job; cancelled jobs never complete and nothing ends while stopping |
| JobHistory.StepKeepsSafe | agent/internal/jobs/jobs.go:155-369 | every step of the system keeps the durable invariant |
| JobHistory.RunIsSafe | agent/internal/jobs/jobs.go:112-369 | so does every run, with failed writes, crashes and restarts |
| JobHistory.StoreAgreesWithMemory | agent/internal/jobs/jobs.go:523-608 | at every lock release, replaying snapshot and journal gives exactly the record of each retained job that is not stale |
| JobHistory.AgreementReturns | agent/internal/jobs/jobs.go:523-608 | the job's next successful append or any completed compaction makes them agree again |
| JobHistory.CrashPointAgrees | agent/internal/jobs/jobs.go:523-608 | a crash inside an operation leaves every other retained job that is not stale exact, and the written one as it was or as it was to become |
| JobAgreement.StaleMeansLastAppendFailed | agent/internal/jobs/jobs.go:523-548 | a stale job with an id had a failed append in this very process and no successful one since |
| JobAgreement.DiskAgreesOrAppendFailed | agent/internal/jobs/jobs.go:523-608 | at every lock release a retained job reads back exactly as in memory, or its last append failed in this process |
| JobAgreement.NothingStale | agent/internal/jobs/jobs.go:523-630 | while no append fails, every retained job with an id reads back exactly, over any crashes, restarts and failed compactions |
| JobAgreement.CrashPointIsExact | agent/internal/jobs/jobs.go:523-608 | and a crash inside an operation finds every other job exact, the written one as it was or as it was to become |
| JobHistory.DurableVerdictIsFinal | agent/internal/jobs/jobs.go:327-369 | a terminal record on disk stays that very record through any crashes, recoveries and compactions, and memory shows no other |
| JobVerdicts.JobEndsAsReturned | agent/internal/jobs/jobs.go:327-369 | over any run, a job that ends while the manager is not stopping is cancelled if and only if its context was or its function said so, failed with the text of any other error, else succeeded with the result, the exit code kept in each case; and with that very record it is found on disk and in memory wherever it is found later, unless the append failed |
| JobVerdicts.FinishedEndsAs | agent/internal/jobs/jobs.go:339-363 | the final record of every outcome, field by field |
| JobVerdicts.OnlyFinishEnds | agent/internal/jobs/jobs.go:327-369 | within a process a job comes to its end, or leaves the table unended, in no other way |
| JobVerdicts.UncalledEndsCancelled | agent/internal/jobs/jobs.go:196-214 | over any run, a job whose function was never called ends only if it was cancelled, and then as cancelled |
| JobVerdicts.StartAnswers | agent/internal/jobs/jobs.go:159-176 | a start is answered with a retained job exactly if one has its key, and refused exactly while stopping otherwise |
| JobVerdicts.StartedRecord | agent/internal/jobs/jobs.go:177-187 | the record a job starts with, in memory and in the journal |
| JobVerdicts.MarkedRecord | agent/internal/jobs/jobs.go:312-325 | becoming running changes the status and notes when, and nothing else |
| JobVerdicts.RecoveredRecord | agent/internal/jobs/jobs.go:616-628 | a recorded job that was queued or running comes back interrupted, to be inspected and not retried; any other comes back as it was recorded |
| JobPromises.NoFunctionRunsTwice | agent/internal/jobs/jobs.go:189-214 | over the whole history a job's function is called at most once |
| JobPromises.CancelSticks | agent/internal/jobs/jobs.go:237-247 | after Cancel answers true the job is never seen succeeded or failed, in memory, on disk or after restarts |
| JobPromises.RecoveryKeepsTheNewest | agent/internal/jobs/jobs.go:610-630 | the loaded table is the newest maxHistory jobs of the replay, each of them terminal |
| JobPromises.RecoveryMayBeRepeated | agent/internal/jobs/jobs.go:610-630 | a recovery cut short anywhere leaves the next one the same jobs with the same verdicts |
| JobPromises.StoppingFreezesVerdicts | agent/internal/jobs/jobs.go:170-176 | while stopping no job enters, leaves or ends |
| JobPromises.StoppingCallsOff | agent/internal/jobs/jobs.go:253-267 | at every moment of every run, once the manager stops each job that has not ended is cancelled or its cancellation is still to be called |
| JobPromises.ShutdownLeavesJobsToRecovery | agent/internal/jobs/jobs.go:249-268 | a job live at shutdown whose start was recorded is seen as interrupted by the next boot, whatever happens before it, failed writes included |
| JobKeys.KeysStayDistinct | agent/internal/jobs/jobs.go:159-169 | an operation never makes two retained jobs share a key |
| JobKeys.NoSharedKeyWithinProcess | agent/internal/jobs/jobs.go:159-169 | nor does any run of one process that began with distinct keys |
| JobKeys.StartIsIdempotent | agent/internal/jobs/jobs.go:161-168 | a start with a retained key returns that job and the whole system is unchanged |
| JobKeys.RetainedByAge | agent/internal/jobs/jobs.go:402-421 | recovery drops a job with maxHistory newer ones and keeps a job when at most that many are as new |
| JobKeys.KeysAfterRestart | agent/internal/jobs/jobs.go:610-630 | a restart leaves distinct keys exactly when of any two recorded jobs with one key one has maxHistory newer jobs; if all recorded jobs fit, exactly when the recorded keys are distinct |
| JobKeys.RetainedKeysSurvive | agent/internal/jobs/jobs.go:159-169 | if every recorded job with a key was still retained, distinct keys survive the restart |
| JobKeys.UnlistedJobStays | agent/internal/jobs/jobs.go:523-608 | the exact writes that remove a dropped job from disk |
| JobKeys.TrimmedJobStaysRecorded | agent/internal/jobs/jobs.go:402-421 | a job trimmed from memory stays on disk with its key until a compaction removes it |
| JobKeyReturn.KeyReturnsAfterRestart | agent/internal/jobs/jobs.go:159-169 | a run without failed writes in which a trimmed job's key is taken again, so that every restart loads two jobs with that key |
| JobScheduling.StepKeepsLocks | agent/internal/jobs/jobs.go:196-214 | every step keeps the semaphore equal to its holders and every held resource with exactly one holder |
| JobScheduling.BoundedAndExclusive | agent/internal/jobs/jobs.go:196-214 | in every interleaving at most maxConcurrent functions run, and no two on one resource |
| JobRunning.RecordedRunningIsBounded | agent/internal/jobs/jobs.go:312-337 | until the manager stops at most maxConcurrent jobs are recorded as running, and after it that many of those whose goroutine still works for them |
| JobStopScene.MoreRecordedThanMayRun | agent/internal/jobs/jobs.go:332-337 | a run in which, after stopping, two jobs are recorded as running where one may run |
| JobScheduling.NoDeadlock | agent/internal/jobs/jobs.go:371-400 | as long as a goroutine has not ended, some goroutine can step |
| JobScheduling.WaiterMoves | agent/internal/jobs/jobs.go:371-400 | a waiting goroutine goes on when its resource or a slot is free, and a cancelled one has its outcome at once without waiting for either |
| JobScheduling.TrimExists | agent/internal/jobs/jobs.go:402-421 | every table can be trimmed, so a finish is never stuck |
| JobScheduling.StepUsesMeasure | agent/internal/jobs/jobs.go:196-214 | each goroutine step lowers the remaining-steps measure, and only a start raises it |
| JobScheduling.GoroutinesEnd | agent/internal/jobs/jobs.go:196-214 | goroutine steps are bounded by nine for each job started and those owed at the beginning |
| TokenStore.Storage.Update | agent/internal/auth/token_store.go:179-221 | every disk state it passes through, its result and the loaded config are those of the specified course; a token of other than 24 to 4096 characters, with white space at an end or with a line break, is invalid and changes nothing; any other is installed with its hash if the files are well formed and the writes succeed |
| TokenStore.UpdateAnswers | agent/internal/auth/token_store.go:179-252 | every answer to an update and what is then on disk, from the token, the files and the fates of the writes |
| TokenStore.FileReads | agent/internal/auth/token_store.go:408-421 | what a token file holds: its text but for one newline at the end, if that is an acceptable token |
| TokenStore.AcceptableIsValid | agent/internal/auth/token_store.go:244-252 | which tokens are accepted, in numbers and characters |
| TokenStore.Storage.RestoreState | agent/internal/auth/token_store.go:347-398 | restores the config first, then the token, and answers whether both steps and the check afterwards succeeded |
| TokenStore.Storage.Ensure | agent/internal/auth/token_store.go:67-139 | every disk state of start-up reconciliation, its result and the loaded config are those of the specified course |
| TokenStore.WrittenTokenReadsBack | agent/internal/auth/token_store.go:408-421 | a valid token written with its newline reads back |
| TokenStore.UpdateIsAllOrNothing | agent/internal/auth/token_store.go:179-221 | success leaves the new token and its hash; any error but recovery-required leaves the old token value and config bytes; recovery-required needs a failed rollback step |
| TokenStore.UpdateCrashPoints | agent/internal/auth/token_store.go:175-221 | wherever writes fail or a crash falls, the token is the old or the new one, the config is the old or the new one, and a token file never disappears |
| TokenStore.StrandedHash | agent/internal/auth/token_store.go:347-363 | the new hash is ever on disk without its token exactly when a late config save could not be rolled back while the token was |
| TokenStore.StartReconciles | agent/internal/auth/token_store.go:127-138 | a start that activates a token leaves it in the token file and its hash loaded and in the config file; a hash-only start changes nothing |
| TokenStore.StartActivates | agent/internal/auth/token_store.go:87-138 | without faults a token is activated exactly when the token file, or a legacy file its stored hash vouches for, has one |
| TokenStore.FaultlessStart | agent/internal/auth/token_store.go:67-139 | everything a start without faults does, from the two files and the stored hash |
| TokenStore.StartCrashPoints | agent/internal/auth/token_store.go:91-135 | a start cut short leaves the token in force unchanged and no hash but the old one or that token's |
| TokenRotation.AuthManager.Verify | agent/internal/auth/manager.go:23-30 | accepts exactly the token with the active hash |
| TokenRotation.AuthManager.SetTokenHash | agent/internal/auth/manager.go:32-40 | takes only a hash without white space around it, and keeps it in lower case |
| TokenRotation.Server.UpdateToken | agent/internal/api/admin.go:91-139 | re-checks the bearer under the lock; the disk states, result and runtime are those of the specified rotation; another bearer or an unacceptable token changes nothing, and the current bearer rotates to any acceptable token if the files are well formed and the writes succeed |
| TokenRotation.Server.Reveal | agent/internal/api/admin.go:60-76 | reveals a token exactly if it is the stored one and has the active hash |
| TokenRotation.RotationOutcome | agent/internal/api/admin.go:91-139 | a commit leaves runtime hash, loaded config, config file and token file in agreement; a failure leaves the runtime alone; stale exactly for another bearer |
| TokenHistory.RunStaysInOrder | agent/internal/api/admin.go:91-139 | through any history of rotations, failed writes, crashes and restarts, from a token file or a bare hash, the running agent accepts the hash the ledger names, and the next start a possible one |
| TokenHistory.CredentialsSurviveCrashes | agent/internal/auth/token_store.go:67-221 | after any history a successful start accepts a possible hash and stores any token it activates with its hash; without faults a start succeeds exactly when the first would have |
| TokenHistory.OldOrNew | agent/internal/auth/token_store.go:175-221 | an update cut short or in need of recovery leaves only the accepted and the new hash possible |
| TokenHistory.CommitPresentsHolder | agent/internal/api/admin.go:99-105 | every committed rotation presented the token then accepted, and its new token is accepted from there |
| TokenHistory.RotationsFormAChain | agent/internal/api/admin.go:99-105 | of two commits in a row the second presented the token the first installed, whatever the agent began with and whatever failed in between |
| TokenHistory.CommitLastsAcrossRestarts | agent/internal/auth/token_store.go:67-221 | from a commit on, through stops, starts and failures that need no recovery, token file, config file and agent all stand for the committed token, and the next commit presents it |
| TokenHistory.RunningAgentAgrees | agent/internal/api/admin.go:131-136 | while no update needed recovery, the active hash, the loaded config and the config file agree, and a token file that is there holds the token they stand for |
| TokenOrphans.OrphanedExactly | agent/internal/auth/token_store.go:347-398 | an event leaves the agent with a hash whose token nobody holds exactly if it is an update without a token file that saves the hash late, cannot restore the config and removes the new token |
| TokenOrphans.OrphanHasCause | agent/internal/auth/token_store.go:347-398 | an agent in that state has such an update behind it |
| TokenOrphans.TokenFileStays | agent/internal/auth/token_store.go:175-221 | a token file is never lost in any history, so an agent that has one never gets there |
| FileTree.FileSystem.Walk | agent/internal/files/files.go:580-587 | every path below the root once, each after the directories above it |
| FileTree.FileSystem.CopyFile | agent/internal/files/files.go:360-394 | the target is wholly old or wholly new, and new on success: the data of the source, its permission bits, and no others |
| TreeSync.MakeDirectory | agent/internal/files/files.go:711-739 | one directory on the way: made if missing, kept if there, what is in its way replaced only if allowed, a symlink always an error |
| TreeSync.EnsureTreeDirectory | agent/internal/files/files.go:696-742 | makes every missing directory on the way, replaces what is in the way only if allowed, fails on symlinks, and sets the mode |
| TreeSync.EnsureTreeParent | agent/internal/files/files.go:771-813 | the same for the directories above a file, which a walk always finds made |
| TreeSync.PrepareTreeFileDestination | agent/internal/files/files.go:744-769 | clears a directory only if allowed, fails on a symlink, keeps a file |
| TreeSync.CopyEntry | agent/internal/files/files.go:601-634 | puts the entry's image at its target path and nothing else, or skips a symlink; fails without faults exactly for a blocked entry |
| TreeSync.CopyWalk | agent/internal/files/files.go:580-635 | after success every source file and directory holds in the target and the counters are exact; a failure changed only entries of the source's domain |
| TreeSync.DeleteTreeExtras | agent/internal/files/files.go:815-840 | removes exactly what is extraneous or below something extraneous, and reports exactly the topmost ones, each once |
| TreeSync.PrepareTreeTarget | agent/internal/files/files.go:653-694 | makes only missing directories on the way to the target, and fails without faults exactly when a non-directory is in the way or it is not allowed |
| TreeSync.SyncTree | agent/internal/files/files.go:543-651 | success leaves the synced tree, exact counts, and lists of exactly what was deleted and skipped, each once; directories it makes above the target have mode 0755 but for the umask; failure is limited to what it may change; without faults it succeeds exactly when feasible |
| TreeSpec.CopiedOneMore | agent/internal/files/files.go:605-634 | one more copied entry keeps everything else as it should be |
| TreeSpec.SweptOneMore | agent/internal/files/files.go:827-838 | removing a topmost extra keeps the sweep exact |
| TreeSpec.WalksSync | agent/internal/files/files.go:578-644 | the two walks together leave the synced tree |
| TreeSpec.WalksReport | agent/internal/files/files.go:733-834 | the two walks together report exactly the discarded entries |
| TreeSpec.WalksReportOnce | agent/internal/files/files.go:733-834 | nothing is reported by both walks |
| TreePromises.MirrorMatches | agent/internal/files/files.go:535-651 | a mirroring sync leaves every source file's data and every file's and directory's permission bits, and no others, at its target, removes what the source lacks, keeps the entry where the source has a symlink but empties it, and leaves the source and everything outside alone |
| TreePromises.OverlayLosesNothing | agent/internal/files/files.go:528-533 | without deletion the source's files and directories overlay the target, data and permission bits, and even a failed sync loses no entry and leaves each file wholly old or new |
| TreePromises.SecondSyncIsIdle | agent/internal/files/files.go:535-651 | syncing again is feasible and changes, creates and deletes nothing |
| TreePromises.FeasibleMeans | agent/internal/files/files.go:543-769 | when a sync can succeed: the source is a directory apart from the target, and nothing at the target stands in the way that may not be replaced |
| TreePromises.CountersMean | agent/internal/files/files.go:601-634 | the counters count every file of the source, and its directories that the target lacked |
| TreePromises.DeletedMeans | agent/internal/files/files.go:733-838 | which target entries are reported as deleted |
| Paths.WithinIsSegmentPrefix | agent/internal/files/files.go:958-961 | on cleaned absolute paths containment is exactly segment prefix |
| Paths.ArchiveEntriesStayInside | agent/internal/files/files.go:1266-1276 | an entry is accepted exactly when it is relative, never climbs above the root and ends below it, and goes where following it leads |
| Paths.SecondCheckNeverFires | agent/internal/files/files.go:1271-1274 | the check after joining refuses nothing |
| Paths.JoinedSegments | agent/internal/files/files.go:1271 | joining a normal form to the root concatenates their segments |
| ApprovalTickets.Manager.constructor | agent/internal/approval/approval.go:72-83 | no tickets, and the given lifetime, or ten minutes if it is not positive |
| ApprovalTickets.Manager.Create | agent/internal/approval/approval.go:85-93 | prunes, then enters a pending ticket bound to the request, and hands out a copy without the binding |
| ApprovalTickets.Manager.Decide | agent/internal/approval/approval.go:95-116 | decides an unexpired pending or approved ticket; denied and used ones refuse |
| ApprovalTickets.Manager.Lookup | agent/internal/approval/approval.go:118-128 | hands out a copy and changes no state |
| ApprovalTickets.Manager.Consume | agent/internal/approval/approval.go:130-153 | uses up an unexpired approved ticket with this very binding |
| ApprovalTickets.Manager.ActiveLocked | agent/internal/approval/approval.go:155-165 | an expired ticket is deleted when seen |
| ApprovalTickets.Manager.PruneLocked | agent/internal/approval/approval.go:167-174 | exactly the unexpired tickets remain |
| ApprovalHistory.StateIsHistory | agent/internal/approval/approval.go:85-174 | over any history and clock a ticket is in the table exactly while nothing found it expired, in the state its decisions and consumption add up to |
| ApprovalHistory.ConsumeSucceedsExactly | agent/internal/approval/approval.go:130-153 | a consumption is granted exactly when the ticket was created for this binding, approved, never denied or consumed, and never found expired |
| ApprovalHistory.ConsumptionAnswers | agent/internal/approval/approval.go:130-153 | every answer to an attempt to use a ticket up, from the ticket's past alone |
| ApprovalHistory.DecisionAnswers | agent/internal/approval/approval.go:95-116 | every answer to a decision, and the state and time it gives the ticket, from its past alone |
| ApprovalHistory.LookupAnswers | agent/internal/approval/approval.go:118-128 | every answer to a look-up, from the ticket's past alone |
| ApprovalHistory.UncreatedIsNotFound | agent/internal/approval/approval.go:155-165 | a ticket that was never created is never found |
| ApprovalHistory.ConsumedAtMostOnce | agent/internal/approval/approval.go:130-153 | no ticket is consumed twice |
| ApprovalHistory.DenialIsFinal | agent/internal/approval/approval.go:102-107 | a denied ticket is never decided or consumed again |
| ApprovalGate.Server.OperationControl | agent/internal/api/control.go:33-70 | the ticket operations, the tickets and the reply are those of the specified service |
| ApprovalGate.Server.ApprovalRoute | agent/internal/api/control.go:86-122 | a well-formed decision is recorded under its ticket, anything else changes nothing |
| JsonNumbers.RoundedIsNearest | agent/internal/api/control.go:219-223 | no 64-bit float is nearer to a decimal number than the one it is decoded to |
| JsonNumbers.RoundedIsFloat | agent/internal/api/control.go:219-223 | within the range that result is a float, subnormal ones included |
| JsonNumbers.RangeIs | agent/internal/api/control.go:219-223 | a number has no float exactly from half a unit above the greatest float on |
| JsonNumbers.SmallNumbersAreExact | agent/internal/api/control.go:219-223 | whole numbers below 53 bits, written as such, share no float |
| CanonicalJson.CanonicalMergesFloatsOnly | agent/internal/api/control.go:215-228 | two JSON values have one canonical form exactly when they agree up to layout, field order, overwritten fields and numbers, fractions included, that one float stands for |
| CanonicalJson.HashedAlikeExactly | agent/internal/api/control.go:215-228 | two bodies are hashed alike exactly when they are equal, or both are JSON throughout with numbers in range and agree so |
| CanonicalJson.SmallValuesAreExact | agent/internal/api/control.go:215-228 | values whose numbers are such whole numbers agree as floats exactly when they agree as written |
| ApprovalGate.BindingIsSharedExactly | agent/internal/approval/approval.go:176-179 | two requests have one binding exactly when method, path and operation agree and the bodies are hashed alike |
| ApprovalGate.SmallBodiesAreBoundExactly | agent/internal/api/control.go:215-228 | with such whole numbers a binding leaves open only layout, field order and overwritten fields |
| ApprovalGate.NumbersShareABinding | agent/internal/api/control.go:215-228 | unequal bodies that share a binding: every number in another spelling, and 2^53 beside 2^53 + 1 |
| ApprovalReading.BindingFixesReading | agent/internal/api/server.go:1734-1745 | all bodies with one hash are read alike in a field, up to floats, exactly when no name of the field in any letter case ends as null and all of them end with one value |
| ApprovalReading.CaseDecidesByOrder | agent/internal/api/server.go:1734-1745 | two bodies with one hash that a handler reads differently |
| ApprovalReading.ApprovedReadingIsRead | agent/internal/api/control.go:46-68 | a handler that runs with a ticket reads in every such field what the request that was asked about says |
| ApprovalReading.DecisionIsAssigned | agent/internal/api/control.go:96-101 | the decision endpoint reads its field in this way |
| ApprovalReading.VerdictIs | agent/internal/api/control.go:86-102 | which requests to the decision endpoint carry a decision, and which one, in characters |
| ApprovalGate.HistoryIsHonest | agent/internal/api/control.go:33-122 | the operations of any sequence of requests form a history of the ticket manager |
| ApprovalPromises.HandlerNeedsTicket | agent/internal/api/control.go:46-84 | a handler runs with a ticket exactly when its operation requires approval |
| ApprovalPromises.HandlersFollowMode | agent/internal/api/control.go:46-84 | a handler ran with a ticket exactly if its operation is no decision and, where all writes need the user, not a mere read, or, where sensitive operations do, a sensitive one; else never |
| ApprovalPromises.RepliesFollowMode | agent/internal/api/control.go:41-70 | exactly when a request is not available, asked about, or handled without a ticket, mode by mode |
| ApprovalPromises.QuestionIsTheRequests | agent/internal/api/control.go:49-55 | the ticket of a question is new, pending, and says what the request was for |
| ApprovalPromises.HandledAsItShould | agent/internal/api/control.go:86-102 | which handled requests are decisions, well formed ones or others |
| ApprovalPromises.DecisionTakesEffect | agent/internal/approval/approval.go:95-116 | a granted decision put its ticket into the state it asked for |
| ApprovalPromises.OutcomeIsAnswer | agent/internal/api/control.go:103-121 | the outcome a decision is answered with is that of its attempt to decide |
| ApprovalPromises.RefusalTellsWhy | agent/internal/api/control.go:56-67 | a request that names a ticket someone was given is refused for what happened to that ticket |
| ApprovalPromises.OneRunPerTicket | agent/internal/api/control.go:46-68 | no ticket serves two handler runs |
| ApprovalPromises.ConsumedMeansRun | agent/internal/api/control.go:56-68 | a ticket was consumed exactly when some handler ran with it |
| ApprovalPromises.RunIsApproved | agent/internal/api/control.go:46-68 | a run with a ticket was asked for by the same method, path and operation with a body hashed alike, approved in between, never denied, and in time |
| ApprovalPromises.DecisionIsTheRequests | agent/internal/api/control.go:91-106 | the endpoint acts on the decision its request carried |
| ApprovalInterleaving.OneHandlerPerTicket | agent/internal/api/control.go:46-68 | however the operations of concurrent requests interleave, no two requests reach their handlers with one ticket |
| ApprovalInterleaving.ConsumersReachHandlers | agent/internal/api/control.go:46-68 | a request reaches its handler with a ticket exactly by a granted consumption of it |
| ApprovalInterleaving.GateFollowsMode | agent/internal/api/control.go:46-84 | in any interleaving a request passes the gate without a ticket exactly if its operation needs none in the given mode |
| ApprovalInterleaving.ConcurrentRunIsApproved | agent/internal/api/control.go:46-68 | nor does a request run with a ticket that was not asked for alike, approved by a decision request, undenied, unused and in time |
| ApprovalInterleaving.ServeFollowsNextOp | agent/internal/api/control.go:33-122 | serving a request performs just the operations of its program, one by one |
| ApprovalInterleaving.SerialIsInterleaved | agent/internal/api/control.go:33-122 | requests served one after the other are one of the interleavings |
| ApprovalBridge.AnswerApprovesExactly | mac-bridge/src/approval.js:132-147 | an answer approves exactly when accepted without an explicit denial, and is rejected exactly when it is none of the three actions |
| ApprovalBridge.ControlFieldsDoNotBind | mac-bridge/src/client.js:8-26 | approval and idempotency fields leave the body, so a call repeated with its ticket has the same binding |
| ApprovalBridge.DecisionIsUnderstood | mac-bridge/src/approval.js:37-41 | the decision request is understood by the agent as what it means |
| ApprovalBridge.RetryMatchesItsTicket | mac-bridge/src/client.js:32-47 | a retry is never refused for not matching its ticket |
| ApprovalBridge.UndisturbedRetryRuns | mac-bridge/src/approval.js:65-69 | unless the ticket expired, was denied or was used meanwhile, the retry runs the handler |
| ApprovalBridge.UndisturbedDecisionIsRecorded | mac-bridge/src/approval.js:35-48 | unless the ticket expired, was denied or was used meanwhile, the decision is recorded |
| ApprovalBridge.DropOneMore | mac-bridge/src/client.js:8-16 | exactly the two control fields leave the body |
| BridgeFlow.Network.Fetch | mac-bridge/src/client.js:49-93 | a request is served, once and among any other traffic, exactly if it is not lost, and its reply comes back exactly if that is not lost either |
| BridgeFlow.HandleApprovalRequired | mac-bridge/src/approval.js:21-78 | in every case of client, form answer and lost messages: which decision is sent, and exactly when the retry is, and how the call ends, with the agent's reason if it refused; a retry differs from the first attempt only in its ticket |
| BridgeFlow.CallTool | mac-bridge/src/tools/register.js:19-38 | one tool call runs its handler at most once, succeeds exactly if a reply says that it ran, and retries exactly after an accepted form and a confirmed approval |
| BridgeFlow.RetryOutcome | mac-bridge/src/approval.js:65-77 | the retry ran the handler or was refused for another reason than a mismatch, and undisturbed it ran |
| BridgeFlow.DecisionOutcome | mac-bridge/src/approval.js:35-48 | the decision that was served is recorded, undisturbed and in time |
| BridgeFlow.ApprovedCallSucceeds | mac-bridge/src/approval.js:21-78 | once the user approved, nothing is lost and nothing disturbs the ticket, the call runs its handler with it and succeeds |
| AdapterCommand.Command | agent/internal/qnap/ecosystem/ecosystem.go:122-152 | the loop over items, with the arguments spliced in, gives the specified argument vector or error |
| AdapterCommand.ExpandItem | agent/internal/qnap/ecosystem/ecosystem.go:130-142 | the loop over keys gives the specified expansion or error |
| AdapterCommand.OneEntryPerItem | agent/internal/qnap/ecosystem/ecosystem.go:124-144 | in the vector that is returned every item but the arguments is exactly one entry, whatever template and values contain |
| AdapterFilling.SequentialIsFillingExactly | agent/internal/qnap/ecosystem/ecosystem.go:130-142 | for an item without a brace inside a brace that one scan can fill, replacing key after key gives the same exactly when no value it uses holds a brace |
| AdapterFilling.SequentialIsFilling | agent/internal/qnap/ecosystem/ecosystem.go:130-142 | with such values the two agree on every such item, errors included |
| AdapterFilling.UnfillableFails | agent/internal/qnap/ecosystem/ecosystem.go:130-142 | such an item that one scan cannot fill fails key after key for all values |
| AdapterFilling.PutKeepsFilling | agent/internal/qnap/ecosystem/ecosystem.go:131-139 | replacing one key first does not change what one scan makes of the item |
| AdapterTemplates.FillingIsSubstitution | agent/internal/qnap/ecosystem/ecosystem.go:130-142 | one scan of a written template item substitutes its holes |
| AdapterTemplates.SequentialIsSimultaneous | agent/internal/qnap/ecosystem/ecosystem.go:130-142 | an item whose holes can be filled expands to what it means exactly when no value it uses holds a brace; one that cannot be filled fails for all values |
| AdapterTemplates.CommandIsMeant | agent/internal/qnap/ecosystem/ecosystem.go:122-152 | with used values that hold no brace the command is what its template means, and each error has its own cause: a blank or unknown hole, unused arguments, no absolute path |
| AdapterTemplates.CanFillMeans | agent/internal/qnap/ecosystem/ecosystem.go:130-142 | which holes can be filled, in names and characters |
| AdapterTemplates.UnfillableItemFailsCommand | agent/internal/qnap/ecosystem/ecosystem.go:124-144 | an item that cannot be filled fails its command for all values |
| AdapterTemplates.NestedHoleIsExpanded | agent/internal/qnap/ecosystem/ecosystem.go:131-139 | a brace inside a brace: key after key completes and replaces the outer placeholder, where one scan rejects the item |
| AdapterTemplates.PlaceholderInValueIsExpanded | agent/internal/qnap/ecosystem/ecosystem.go:131-139 | a brace inside a value: key after key replaces it as well, where one scan keeps it |

## Left out

Jobs:
- JobManager.Manager: jobs are entries of the table, not separate heap objects; a job that was dropped from the table cannot be reached by its goroutine any more, which the world model shows never happens to a live job.
- JobManager.Manager.AppendLog: the per-job log files it also writes; reading one back is a parameter of Logs.
- JobManager.Manager.TrimLocked: the deletion of a dropped job's log file.
- JobManager.Manager.Shutdown: its wait for the goroutines, and the deadline on it.
- JobManager.Manager.PersistLocked: the length of a journal line is a parameter, and a line is written whole or not at all.
- JobKeys.KeysAfterRestart: exact when creation times tell the recorded jobs apart or all of them fit; among jobs of equal time map order decides, and RetainedByAge says what holds then.
- JobPromises.RecoveryKeepsTheNewest: jobs of equal creation time may be kept or dropped either way, as map order decides.
- JobRecords.AgreementGrows: a snapshot record without an id is loaded as the code loads it, and its interruption stays unread until the next compaction; the manager never writes such a record itself.
- A status other than the six known ones in a journal or snapshot.
- JobIds.CounterIsInId: the counter is unbounded; the wrap-around of 64 bits is not modelled, and new ids are taken not to repeat ids of earlier processes.
- Result sizes, redaction, change events, Get and List, and the hashing of idempotency keys, which only keeps equality.

Credentials:
- TokenStore.Storage.Update: token lengths count characters where the code counts bytes, and white space beyond Latin-1 is not trimmed.
- TokenStore.Storage.Ensure: file modes, and a config that does not load; loading is taken to be stable under saving.
- Metadata, masking, token generation, and the command-line reset, which is run with the service stopped.

Tree sync:
- TreeSync.SyncTree: works on resolved paths; following symlinks in the ancestors of source and target, and the roots that decide what is allowed, are parameters.
- TreeSync.CopyWalk: the source is not changed by others during the walk.
- FileTree.FileSystem.Walk: gives any order in which directories come before their contents; the code's is lexical, and nothing depends on more.
- The other file actions, archive reading and writing, and compare-and-swap writes.

Approvals:
- ApprovalGate.Server.OperationControl: the rules that recognise sensitive payloads are a parameter that depends on method, path and body; audit records and the size limit of bodies are not modelled.
- ApprovalGate.HistoryIsHonest: requests one after the other; requests that interleave are the subject of ApprovalInterleaving, whose clock readings belong to the request.
- CanonicalJson.CanonicalMergesFloatsOnly: texts are compared after decoding, so spellings of one text and the replacement of malformed ones belong to the layout; the limit on nesting is not modelled.
- ApprovalReading.BindingFixesReading: fields that hold a text, a number or a flag, at the top level of a body that decodes; how repeated nested structures are merged is not modelled.
- BridgeFlow.CallTool: timeouts only lose a message, and their code is not told from that of any other loss; redirects, the transport, what a handler answers once it runs, and the rendering of results and of a first attempt's error are not modelled.
- ApprovalBridge.DecisionIsUnderstood: percent-encoding of the identifier, which its decoding undoes.

Adapter commands:
- AdapterCommand.Command: the look-up of the configured action, the built-in commands and the timeout.
- AdapterFilling.SequentialIsFillingExactly: nothing general is claimed for items with a brace inside a brace, where the two differ as the example shows.

Everywhere: HTTP routing, JSON encoding, process execution, the inventory parsers and the web interface.
