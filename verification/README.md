# NeroCD transfers, backups and migrations in Dafny

A model of the part of NeroCD that moves and keeps data: the two rendezvous through which backups are
downloaded and imports uploaded, the copies that hold the final block back, the migration ledger, the
backup scheduler, staged publication, verification and rotation of backups, and the text handling those
paths rely on. `dafny verify dfyconfig.toml` checks all of it.

## What is modelled, and how

**Rendezvous.** `DownloadProtocol` and `UploadProtocol` are labelled transition systems. A state holds every
session ever reserved; a step is a reservation or one atomic action of one thread of one session (browser
handler, runner handler, watchers, interrupter). Closing a pipe end is two actions, storing the error and
signalling, so that the closes of several threads interleave as they do in Go. A rendezvous in the pipe may
win against a close. Every call out of the handlers (repository, authority check, response write, deadline)
may succeed or fail at any point, and contexts may end at any point. Theorems are about every run:
`Run(steps)` for all `steps`. Histories (`log`) record what left, what arrived and what was checked when, and
no action reads them. `DownloadRefinement` and `UploadRefinement` show that every run drives one broker map, call by
call, through the contracts that the broker classes are proved against. `DownloadRuns` and `UploadRuns` give the other half: runs that do reach the receipt,
the acceptance, and each of the surprising outcomes below.

**Objects.** Brokers, copies, database, archive root, output directory, decoder, collector and output stream
are classes with methods, as in the source. System calls fail when they like: methods draw from
`Common.Fails()`, and where a contract says what happens if nothing fails, a ghost result `faulted` records
whether a call did.

**Schedules and ledgers.** `Scheduler` runs any number of scheduler processes against one schedule row, the
run rows and one advisory lock, with commits that succeed, are lost, or are lost after taking effect. Calls that
carry a run's ten-minute context end with it; file work and rotation carry none.
`Migration` runs interrupted at any statement, any number of times, by this or earlier releases.

## Where the code and its promises part

Each of these is a theorem with the exact condition.

- An upload whose body ends cleanly between two 32 KiB blocks, before its declared size, makes the copy fail
  with a plain end of input; that error closes the pipe, and the runner can take it for a complete body. The
  browser's request is still never accepted (`UploadRuns.CleanEndIsExactIff`).
- The storage download handlers ignore the result of the durable close, so a receipt stands for a durable close
  in the database variant only (`DownloadRuns.ReceiptImpliesCloseIffDatabase`).
- A runner whose offer finds `ready` already filled returns without writing anything, which the HTTP server
  sends as an empty 200; nothing was transferred (`DownloadRuns.EmptyOkIsReachable`,
  `DownloadRuns.EmptyOkOnlyFromFullReady`).
- The download broker's reserve overwrites a session with the same identifier, and keeps all sessions exactly if
  the identifier is new (`Brokers.DownloadBroker.Reserve`); identifiers are random, and the transition system draws
  them fresh.
- Two archive operations can overlap if and only if a live scheduler can lose its database connection and also be
  kept for more than ten minutes by work that carries no context, such as rotation. On any run with an overlap, one
  of the two processes has outlived its run in exactly this way (`SchedulerSafety.OverlapMeansOutlived`,
  `SchedulerSafety.NoOverlapIff`).
- Failures follow the backoff series on a run if and only if the run records no failure of a retry that was admitted
  under an earlier policy: a run records the count it was admitted with. Such a failure stores a wrong count, and a
  wrong delay too if the earlier interval was longer than a minute (`SchedulerSafety.SeriesIffNoOutdatedFailure`,
  `SchedulerSafety.OutdatedFailureStores`).
- A manifest whose indented text is longer than 64 KiB is published and then refused by verification
  (`Publication.PublishedVerifiesIff`). Every backup that needs 841 runner files or more is an instance
  (`Publication.BackupTooLong`), and so is the export of every verified archive whose compact manifest names as many
  within 64 KiB (`Publication.ExportTooLong`, `Publication.EdgeManifest`).
- Rotation refuses a directory of two files that is not a backup, but may have unlinked one of them by then
  (`Rotation.RefusalIsHarmlessIff`).
- Names sort by age exactly as long as years have four digits (`Names.NameOrderIffFourDigitYears`).

## Model

| member | source | states |
|---|---|---|
| `Pipes.StoredErrors` | internal/api/hosting_database_backup_download_handlers.go:358-391 | Over any history of closes each pipe end keeps the first error stored for it |
| `Pipes.EndOfInputMeaning` | internal/api/hosting_database_backup_download_handlers.go:253-270 | A read returns end of input exactly if the reader's end was never closed and the first writer close was a clean one |
| `DownloadSafety.BrokerSafety` | internal/api/hosting_database_backup_download_handlers.go:44-109 | In every reachable state: at most two sessions held, of different actors; `done` closed exactly once for every session that left and never for one still held; a session setting its plan is always held |
| `DownloadSafety.DownloadSafety` | internal/api/hosting_database_backup_download_handlers.go:253-270 | On every run: a transfer judged successful delivered exactly the runner's archive of the planned length and digest; nobody holds a byte of the last block unless length, digest, framing and authority were all checked while exactly that block was held back; delivered is a prefix of sent is a prefix of the archive |
| `DownloadSafety.ReceiptSafety` | internal/api/hosting_database_backup_download_handlers.go:467-477 | A receipt for an archive follows a complete verified delivery, and in the database variant a successful durable close; an empty 200 means that no byte left |
| `DownloadSafety.RunIsLater` | internal/api/hosting_database_backup_download_handlers.go:68-109 | Between any two points of a run a session keeps its identity, never comes back after removal, stays claimed with the same stream, and keeps its plan, its success, its answer and every byte sent and delivered |
| `DownloadSafety.OnlyClaimClaims` | internal/api/hosting_database_backup_download_handlers.go:68-77 | A session becomes claimed only by a claim with its own plan hash while it is held and not canceled |
| `DownloadSafety.OnlyRemoveRemoves` | internal/api/hosting_database_backup_download_handlers.go:95-109 | A session leaves the broker, gets its verdict and has `done` closed in one and the same action, by its own browser handler |
| `DownloadSafety.StepKeeps` | internal/api/hosting_database_backup_download_handlers.go:303-478 | Every action of every thread keeps the session invariant: bytes are conserved between archive, runner buffers, pipe, browser buffer and client |
| `DownloadRuns.ReceiptImpliesCloseIffDatabase` | internal/api/hosting_storage_backup_download_handlers.go:204-210 | A receipt implies a successful durable close on all runs if and only if the handlers are the database ones |
| `DownloadRuns.ReceiptIsReachable` | internal/api/hosting_storage_backup_download_handlers.go:453-463 | In both variants some run ends with a receipt and a complete delivery |
| `DownloadRuns.EmptyOkIsReachable` | internal/api/hosting_database_backup_download_handlers.go:451-455 | In both variants some run ends with an empty 200 for an archive of which nothing was sent |
| `DownloadRuns.EmptyOkOnlyFromFullReady` | internal/api/hosting_database_backup_download_handlers.go:451-455 | The answer becomes an empty 200 exactly at an offer that finds `ready` full |
| `UploadSafety.BrokerSafety` | internal/api/hosting_database_import_upload_handlers.go:33-76 | In every reachable state at most two uploads are held, of different actors and different stages |
| `UploadSafety.AcceptedIsExact` | internal/api/hosting_database_import_upload_handlers.go:147-228 | An accepted upload was received by the runner exactly as declared, the body was at its end, and authority was checked again after its last byte |
| `UploadSafety.CleanEndIsExactOrShort` | internal/api/hosting_database_import_upload_handlers.go:259-344 | When the runner's copy ends cleanly it holds the exact body, or all but the last block of a body that ended between blocks |
| `UploadSafety.NothingBeforeArmed` | internal/api/hosting_database_import_upload_handlers.go:147-228 | No byte flows before the session is armed; received is a prefix of sent is a prefix of the body |
| `UploadSafety.DoneSentOnce` | internal/api/hosting_database_import_upload_handlers.go:259-344 | A claimer that has left sent exactly one value on `done`, and that send never finds the channel full |
| `UploadSafety.StepKeepsIdentity` | internal/api/hosting_database_import_upload_handlers.go:57-76 | No action changes a session's identity or request, revives a removed session or undoes a claim, and only a claim with its hash claims it |
| `UploadSafety.EndBetweenBlocksIsShort` | internal/api/hosting_database_import_upload_handlers.go:231-257 | A clean end before the next block leaves exactly the last complete block unsent |
| `UploadRuns.CleanEndIsExactIff` | internal/api/hosting_database_import_upload_handlers.go:231-257 | A clean end stands for the exact body on every run if and only if the body does not end cleanly between blocks before its declared size |
| `UploadRuns.PlainEndIffBetweenBlocks` | internal/api/hosting_database_import_upload_handlers.go:231-257 | The copy on its own reports a plain end of input on exactly those requests |
| `UploadRuns.AcceptedIsReachable` | internal/api/hosting_database_import_upload_handlers.go:147-228 | Some run does end in acceptance |
| `BlockCopy.CopyBlocks` | internal/api/hosting_database_backup_download_handlers.go:481-519 | The read loop passes on exactly the bytes of a closed-form count, collects what it read, and ends as its outcome function says |
| `BlockCopy.CopyOneBlock` | internal/api/hosting_database_backup_download_handlers.go:481-519 | One iteration passes the previous block on only after the next one was read completely |
| `BlockCopy.PassOn` | internal/api/hosting_database_backup_download_handlers.go:481-519 | Writing the held-back block extends what the sink holds by exactly that part of the stream, or fills the sink exactly |
| `BlockCopy.CopyVerified` | internal/api/hosting_storage_backup_download_handlers.go:467-505 | The verified copy's outcome, the exact bytes passed on, and exactly when the caller's last check is consulted, for every input, digest and writer failure |
| `BlockCopy.CopyUpload` | internal/api/hosting_database_import_upload_handlers.go:231-257 | The upload copy's outcome, including which read error is returned, and the exact bytes passed on |
| `BlockCopy.DoneIffComplete` | internal/api/hosting_database_backup_download_handlers.go:481-519 | Success and a complete destination are the same, and then every check has passed |
| `BlockCopy.FailedCheckWithholdsLastBlock` | internal/api/hosting_database_backup_download_handlers.go:481-519 | A failed check costs exactly the last ((bytes - 1) mod 32768) + 1 bytes |
| `BlockCopy.ShortInputPassesWholeBlocks` | internal/api/hosting_database_backup_download_handlers.go:481-519 | A short input passes on whole blocks only, all that were read but the last |
| `Brokers.DownloadBroker.Reserve` | internal/api/hosting_database_backup_download_handlers.go:49-67 | Admits exactly below capacity and for an actor without a session; adds one unclaimed session, keeps the broker invariant, and keeps every session already held if and only if the identifier is new |
| `Brokers.DownloadBroker.Claim` | internal/api/hosting_database_backup_download_handlers.go:68-77 | Succeeds exactly once per session, on its hash, while it is not canceled; the map as callers see it changes by that claim alone |
| `Brokers.DownloadBroker.SetPlan` | internal/api/hosting_database_backup_download_handlers.go:90-94 | Sets the hash of one session; the map as callers see it changes by that alone |
| `Brokers.DownloadBroker.Remove` | internal/api/hosting_database_backup_download_handlers.go:95-109 | Takes one session out, records its verdict, closes `done` for the first time, tears its pipe down without overwriting an earlier error and never as end of input; other sessions are untouched |
| `Brokers.HoldsActor` | internal/api/hosting_database_backup_download_handlers.go:58-62 | Finds whether any held session belongs to the actor |
| `Brokers.HasRoom` | internal/api/hosting_database_backup_download_handlers.go:55-62 | The admission rule on the map is the one on what callers see of it |
| `DownloadRefinement.RunRefines` | internal/api/hosting_database_backup_download_handlers.go:44-109 | The broker calls that the steps of a run make, one by one, are accepted by the map broker one after the other, and the map then holds exactly the sessions present in the last state, with their actor, plan hash, claim and cancellation |
| `DownloadRefinement.MapSafety` | internal/api/hosting_database_backup_download_handlers.go:49-109 | In every reachable state that map is within capacity and holds no actor twice |
| `DownloadRefinement.AdmitsAgree` | internal/api/hosting_database_backup_download_handlers.go:49-67 | For a new identifier the transition system admits exactly whom the map broker admits |
| `DownloadRefinement.ClaimsAgree` | internal/api/hosting_database_backup_download_handlers.go:68-77 | A held session with its plan set can be claimed in the transition system exactly when the map broker lets it be claimed |
| `UploadRefinement.RunRefines` | internal/api/hosting_database_import_upload_handlers.go:33-76 | The same for uploads: the calls that the steps of a run make are accepted one after the other by one map, which holds exactly the sessions present |
| `UploadRefinement.AdmitsAgree` | internal/api/hosting_database_import_upload_handlers.go:33-54 | The transition system admits exactly the uploads the map broker admits |
| `UploadRefinement.ClaimsAgree` | internal/api/hosting_database_import_upload_handlers.go:57-66 | A held upload can be claimed in the transition system exactly when the map broker lets it be claimed |
| `Brokers.UploadBroker.Reserve` | internal/api/hosting_database_import_upload_handlers.go:33-54 | Admits exactly a new stage below capacity for an actor without an upload, and keeps every held session |
| `Brokers.UploadBroker.Claim` | internal/api/hosting_database_import_upload_handlers.go:57-66 | Succeeds exactly once per session and on its hash; changes nothing else |
| `Brokers.UploadBroker.Remove` | internal/api/hosting_database_import_upload_handlers.go:67-76 | Takes one session out and closes both pipe ends, never as end of input and never over an earlier error |
| `Migration.Database.Migrate` | cmd/nerocd/migrate.go:88-143 | The ledger loop, cut off at any statement, commits exactly what the run function says |
| `Migration.ResumptionEqualsCleanRun` | cmd/nerocd/migrate.go:102-143 | Any series of interrupted runs of this or earlier releases followed by one that completes leaves the schema and ledger of one clean run |
| `Migration.AttemptsLeaveCleanPrefix` | cmd/nerocd/migrate.go:102-143 | After any attempts the database is exactly at some prefix of the clean run |
| `Migration.CompletedIsExactlyOnce` | cmd/nerocd/migrate.go:109-143 | With distinct versions a completed run means every migration took effect exactly once, in order |
| `Migration.RetryCompletesIff` | cmd/nerocd/migrate.go:109-143 | After any attempts an uninterrupted run completes if and only if migrations of one version agree in their checksum; it then leaves the state of a clean run, for distinct versions everything applied once and in order |
| `Migration.CompletesIffNoDrift` | cmd/nerocd/migrate.go:109-120 | From any database and for any source, an uninterrupted run completes exactly if no recorded checksum differs from the source and migrations of one version agree |
| `Migration.DriftStopsTheRun` | cmd/nerocd/migrate.go:116-117 | A run whose source disagrees with the ledger at a migration never completes and does exactly what the source cut off before it would do |
| `Migration.OldSourceChangesNothing` | cmd/nerocd/migrate.go:109-120 | An earlier release run against a newer database changes nothing |
| `Migration.CompletedHasNoDrift` | cmd/nerocd/migrate.go:112-117 | A completed run found or recorded every migration's own checksum, and changed no earlier ledger row |
| `Migration.CleanIsExactlyOnce` | cmd/nerocd/migrate.go:109-143 | A clean prefix has run those migrations once each and recorded exactly them |
| `SchedulerSafety.OneRunAtATime` | cmd/nerocd/backup_scheduler.go:109-144 | On every run, even when connections are lost, at most one run row is running and the failure count stays between 0 and 8 |
| `SchedulerSafety.TerminalIsFinal` | cmd/nerocd/backup_scheduler.go:174-194 | Between any two points of a run no run row disappears or changes its start, and one that has ended never changes again |
| `SchedulerSafety.AdmittedOnlyWhenDue` | cmd/nerocd/backup_scheduler.go:114-144 | A run row appears only by the admission of the lock holder, when the schedule is enabled and due and every running row is older than ten minutes; afterwards it is the only running one |
| `SchedulerSafety.ReapplyIsIdle` | cmd/nerocd/backup_scheduler.go:76-86 | Applying the policy already in force changes nothing |
| `SchedulerSafety.OverlapMeansOutlived` | cmd/nerocd/backup_scheduler.go:88-172 | Under any rules, of two processes archiving or rotating at once, one is busy with work that carries no context, more than ten minutes after its admission, without the lock, and its row was ended by somebody else |
| `SchedulerSafety.OverlapMeansLoss` | cmd/nerocd/backup_scheduler.go:98-107 | Every run on which work overlaps has lost a connection |
| `SchedulerSafety.NoOverlapIff` | cmd/nerocd/backup_scheduler.go:88-172 | No two processes ever archive or rotate at once, on any run, if and only if live processes cannot both lose their connection and be kept beyond ten minutes by work without a context |
| `SchedulerSafety.SeriesIffNoOutdatedFailure` | cmd/nerocd/backup_scheduler.go:174-212 | On any one run the recorded counts and delays are the backoff series at every moment if and only if the run records no failure of a retry admitted under an earlier policy |
| `SchedulerSafety.OutdatedFailureStores` | cmd/nerocd/backup_scheduler.go:186-191 | What a failure admitted under an earlier policy stores: the count is wrong exactly if the run was a retry, the delay exactly if its interval was also longer than a minute |
| `SchedulerSafety.SeriesIffNoChangeInFlight` | cmd/nerocd/backup_scheduler.go:76-86 | The series holds on all runs if and only if the policy cannot be changed while a run is in flight |
| `SchedulerSafety.BackoffSeries` | cmd/nerocd/backup_scheduler.go:205-212 | The k-th consecutive failure gets count min(k, 8) and the k-th delay of the series |
| `SchedulerSafety.DelayShape` | cmd/nerocd/backup_scheduler.go:205-212 | Delays lie between one and 128 minutes and within the interval, never shrink, double up to the interval, and stay the same from the eighth failure on |
| `Publication.PublishedVerifiesIff` | cmd/nerocd/backup_export.go:111-191 | A published archive verifies, as what was written, exactly if its manifest is identified and the indented text written for it is at most 64 KiB long |
| `Publication.ExportVerifiesIff` | cmd/nerocd/backup_export.go:111-183 | An export verifies again with the same manifest exactly if the indented text written for it is at most 64 KiB long |
| `Publication.BackupTooLong` | cmd/nerocd/backup_restore.go:158-173 | Any backup that needs 841 or more runner files is published unless a call fails or the name is taken, and verification then refuses it |
| `Publication.ExportTooLong` | cmd/nerocd/backup_export.go:71-80 | Any archive whose compact manifest names 841 or more runner files within 64 KiB verifies and is exported, and verification refuses the export |
| `Publication.EdgeManifest` | cmd/nerocd/backup_export.go:163-175 | Such manifests exist, for any number of runner files from 841 to 1000 |
| `Manifests.FreshIsLonger` | cmd/nerocd/backup_export.go:163-175 | The text written for a manifest is always longer than its compact text |
| `Manifests.InventoryIsLong` | cmd/nerocd/backup_export.go:163-175 | The text written for any manifest spends at least 78 bytes on each runner file |
| `Manifests.CompactFitsFreshDoesNot` | cmd/nerocd/backup_restore.go:442-445 | For every manifest that is modest but for 841 to 1000 runner files with short references, the compact text is within the bound and the written text is not |
| `Publication.Output.Backup` | cmd/nerocd/backup_restore.go:78-177 | At every moment the final name is absent or a complete archive, and final once there; an existing name is untouched; only a failed call or a taken name prevents success; a failed backup that could clean up leaves the disk as it was, or the complete archive if only the last sync failed |
| `Publication.Output.Export` | cmd/nerocd/backup_export.go:19-81 | The same for an export, which succeeds without faults exactly on an input that verifies, and carries its manifest |
| `Publication.Output.FillBackup` | cmd/nerocd/backup_restore.go:121-167 | A staged backup is exactly a dump and a manifest recording its digest and size |
| `Publication.Output.FillExport` | cmd/nerocd/backup_export.go:56-73 | A staged export holds a dump with the digest and size of the verified one, or is refused |
| `Publication.Output.MakeStaging` | cmd/nerocd/backup_paths_unix.go:34-44 | Creates a new empty staging directory exactly if its name is free and no call fails; a failed open is undone if possible |
| `Publication.Output.WriteFile` | cmd/nerocd/backup_paths_unix.go:46-52 | Creates a file that did not exist with exactly this content, or fails touching only that name |
| `Publication.Output.Publish` | cmd/nerocd/backup_paths_unix.go:54-63 | One rename to a free name, which stands even if the sync after it fails |
| `Publication.Output.Cleanup` | cmd/nerocd/backup_paths_unix.go:65-76 | Never touches what was renamed; otherwise removes staging completely if its calls work |
| `Publication.Output.Finish` | cmd/nerocd/backup_restore.go:114-173 | Publishes or cleans up: safe at every moment, and no residue after a swept failure |
| `Rotation.Root.Rotate` | cmd/nerocd/backup_rotation_unix.go:17-74 | Success removes exactly the backups below the `retain` greatest names; anything else is untouched; removal goes lowest first; an unsafe candidate stops it before any change; without faults it succeeds exactly if all candidates are safe and all doomed ones are canonical |
| `Rotation.Root.RemoveTree` | cmd/nerocd/backup_rotation_unix.go:84-139 | Removes a directory only if it holds exactly the two private files; otherwise leaves exactly what unlinking in directory order left |
| `Rotation.Root.UnlinkAll` | cmd/nerocd/backup_rotation_unix.go:109-134 | The loop over the two entries empties the directory exactly if both are the private files of a backup |
| `Rotation.Root.Candidates` | cmd/nerocd/backup_rotation_unix.go:42-60 | Lists exactly the backups, or fails on a fault or an unsafe one |
| `Rotation.Root.RemoveAll` | cmd/nerocd/backup_rotation_unix.go:65-69 | Removes the lowest names in order and stops at the first failure; without faults it succeeds exactly if all of them are canonical |
| `Rotation.Root.RemoveNext` | cmd/nerocd/backup_rotation_unix.go:65-69 | One removal: nothing else changes, and a failure has touched nothing out of order |
| `Rotation.RefusalIsHarmlessIff` | cmd/nerocd/backup_rotation_unix.go:106-134 | A refused directory of two files stays untouched in every directory order if and only if neither is one removal would unlink |
| `Rotation.LowestAreDoomed` | cmd/nerocd/backup_rotation_unix.go:61-66 | The names before the last `retain` in sorted order are exactly those with at least `retain` backups above them |
| `Rotation.KeptAreGreatest` | cmd/nerocd/backup_rotation_unix.go:61-66 | Every kept backup has a greater name than every removed one |
| `Rotation.KeptAreNotOlder` | cmd/nerocd/backup_rotation_unix.go:61-66 | No kept backup was created in an earlier second than a removed one, up to the year 9999 |
| `Rotation.SurvivorCount` | cmd/nerocd/backup_rotation_unix.go:61-66 | Exactly min(retain, number of backups) survive |
| `Names.SortSorts` | cmd/nerocd/backup_rotation_unix.go:61 | Sorting distinct names yields the same names in strictly increasing order |
| `Names.NameOrderRefinesTime` | cmd/nerocd/backup_restore.go:108 | Up to the year 9999 an earlier second gives a lower name, whatever the random suffix |
| `Names.NameOrderIffFourDigitYears` | cmd/nerocd/backup_restore.go:108 | Names up to a year keep time order if and only if that year is at most 9999 |
| `PathWalk.Process.OpenDirectory` | cmd/nerocd/backup_paths_unix.go:123-147 | Opens exactly the directory its components lead to through real directories only; every failure has closed what it opened; without faults it succeeds on every such path |
| `PathWalk.Process.OpenAt` | cmd/nerocd/backup_paths_unix.go:139-144 | One hop: a new descriptor exactly if the entry is itself a directory |
| `PathWalk.LeadsStep` | cmd/nerocd/backup_paths_unix.go:123-147 | A trail of directories is a first hop and a trail of the rest |
| `PathWalk.SplitJoins` | cmd/nerocd/backup_paths_unix.go:131 | Splitting a path loses nothing and leaves no slash in a component |
| `JsonShape.Decoder.CheckValue` | cmd/nerocd/runner_build_config.go:93-143 | The recursive walk with its loops consumes and decides exactly as the check function |
| `JsonShape.Decoder.CheckDocument` | cmd/nerocd/runner_build_config.go:73-92 | Accepts exactly one admitted value and nothing after it |
| `JsonShape.CheckPrinted` | cmd/nerocd/runner_build_config.go:93-143 | On the tokens of any value the checker consumes exactly them if the value is admissible and fails otherwise |
| `JsonShape.AcceptedIsPrinted` | cmd/nerocd/runner_build_config.go:93-143 | Whatever the checker accepts is the printing of an admissible value |
| `JsonShape.CheckIsParser` | cmd/nerocd/runner_build_config.go:93-143 | The checker succeeds with a given rest exactly on printings of admissible values followed by it: depth at most 32, no null, ASCII keys distinct whatever their case |
| `UnicodeScan.ValidUnicode` | internal/api/managed_secret_handlers.go:87-125 | The index loop accepts exactly valid UTF-8 whose escapes are well formed and whose surrogates are all in adjacent high-low pairs |
| `UnicodeScan.ScanIsExact` | internal/api/managed_secret_handlers.go:87-125 | Scanning succeeds exactly on texts that split into well-formed units with every surrogate paired |
| `UnicodeScan.ScanDecidesPairing` | internal/api/managed_secret_handlers.go:100-122 | On any sequence of units the scanner decides exactly whether surrogates are paired |
| `UnicodeScan.ScannedHasUnits` | internal/api/managed_secret_handlers.go:92-122 | Whatever is accepted is a sequence of well-formed units |
| `UnicodeScan.EscapedTextRoundTrips` | internal/api/managed_secret_handlers.go:87-125 | Every sequence of Unicode scalars, written as escapes, is accepted and decodes back unchanged |
| `RunSpecCollector.CollectFromRunSpec` | cmd/nerocd/backup_restore.go:717-720 | Succeeds exactly if the tree is within depth 32 and 4096 nodes and every binding is valid, and then reports exactly its runner-file bindings in order |
| `RunSpecCollector.CollectFromWorkflow` | cmd/nerocd/backup_restore.go:722-725 | The same for a stored workflow |
| `RunSpecCollector.Collector.VisitRunSpec` | cmd/nerocd/backup_restore.go:732-744 | One visit: budgets spent, bindings validated and reported exactly as the tree functions say |
| `RunSpecCollector.Collector.VisitWorkflow` | cmd/nerocd/backup_restore.go:746-756 | The early refusal of a workflow with too many steps refuses nothing that the walk would have accepted |
| `RunSpecCollector.Collector.CollectBindings` | cmd/nerocd/backup_restore.go:758-775 | Validates all bindings and reports the runner-file ones in order |
| `RunSpecCollector.ItemsAreTheRunnerFiles` | cmd/nerocd/backup_restore.go:765-772 | An item is reported exactly if some binding names that runner file |
| `OwnedWrite.OwnedStream.Write` | cmd/nerocd-storage-archive/owned_io_unix.go:146-183 | The sink gains exactly the reported number of bytes of the buffer, in order, under every script of short writes, interruptions, waits, cancellations and errors |
| `OwnedWrite.OwnedStream.WriteAll` | cmd/nerocd-storage-archive/owned_io_unix.go:153-182 | The loop delivers exactly what the script of turns lets it deliver |
| `OwnedWrite.OwnedStream.TakeTurn` | cmd/nerocd-storage-archive/owned_io_unix.go:154-181 | One turn of the loop delivers what the kernel took and stops with the right error |
| `OwnedWrite.NilIffDelivered` | cmd/nerocd-storage-archive/owned_io_unix.go:146-183 | No error implies that everything was delivered, and the converse holds if and only if the turn that takes the last byte does not itself end in an error |
| `OwnedWrite.DeliveryGrows` | cmd/nerocd-storage-archive/owned_io_unix.go:146-183 | More turns never deliver less |
| `OwnedWrite.ErrorMeansMissing` | cmd/nerocd-storage-archive/owned_io_unix.go:162-177 | With a kernel that returns a count or an error, never both, an error always means that something is missing |
| `Quoting.QuoteLexesIff` | cmd/nerocd/production_roles.go:55-56 | A quoted value followed by text lexes back to exactly the value and the text if and only if the text does not start with the quote |
| `Quoting.IdentAndLiteralRoundTrip` | cmd/nerocd/production_roles.go:55-56 | Identifiers and literals lex back to themselves |
| `Quoting.PassfileRoundTrip` | cmd/nerocd/backup_restore.go:328-346 | libpq reads back exactly the staged password; exactly the passwords one line cannot hold are refused, and exactly the empty one stages no file |
| `Quoting.UnescapeUndoes` | cmd/nerocd/backup_restore.go:328-346 | Unescaping undoes escaping |

## Left out

- HTTP routing, headers, deadlines and multipart parsing: a stream is its content, and every deadline may strike at any point.
- Publication.PublishedVerifiesIff: a manifest's text is its value and its length; that the decoder reads the written text back as the value it was written from is assumed.
- Publication.ExportVerifiesIff: the same holds for the text an export writes.
- The scheduler's clocks are one: the database clock and the timers of contexts advance together, and a run's context starts at the instant its row is inserted. In the code the context starts when the commit has returned, so a bound call may outlast the stale threshold by the latency of that commit. The five-minute limit inside a backup, which is within the ten minutes, is not modelled apart.
- The repositories behind the handlers and their database rows, but for the plan a download creates: each call may succeed or fail.
- SHA-256, HMACs and hashes of plans: digests are an uninterpreted function of the content.
- Identifiers in the download transition system are drawn fresh for each request; what a repeated one does is stated about the broker alone.
- In the upload transition system no call outside the handlers itself returns the error `io.EOF`; only reading the body does.
- The commands around the scheduler (flags, signals, the five-second poll) and what `pg_dump` writes.
- The job queue's own migrations, after the ledger loop; a migration's SQL is assumed not to touch the ledger, and the session lock to serialise runs.
- Other writers in the output directory: the directory is owner-only and staging names are random, so the model has one writer.
- File modes on verification: staged files are created private, and the umask is assumed to leave the owner's bits alone.
- Restore, the runner-file inventory, operational results and the seeding commands.
- Lower-casing beyond the letters whose lower case can be ASCII: keys are ASCII by the time it matters.
- SQL lexing assumes `standard_conforming_strings`; statements built around quoted values are not modelled.
- The write call of the kernel is assumed to return a count or an error, never both, where `OwnedWrite.ErrorMeansMissing` says so; the exact statement without it is `OwnedWrite.NilIffDelivered`.
- The owned stream's reading side, its construction and its close.
- JsonShape.CheckIsParser: speaks of the tokens the decoder delivers; the decoder also refuses a number outside the range of a double, and any text that is not JSON.
- Decoding an admitted build configuration into its record, and the checks on its fields.
