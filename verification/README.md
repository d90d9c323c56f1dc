# Data protection operator: model and proofs

The operator backs up data sources on a schedule or on request, packages each run into an archive on
an NFS or MinIO backend, records it as a `Snapshot` object, thins each series of snapshots, and
restores from them. This project models its core in Dafny and proves what the pieces guarantee
together, over all inputs, all interleavings and all runs.

- **Records and retention.** `snapshots.dfy` is the store of snapshot records with the code that
  records a finished run and cuts a series back, any of whose calls may fail; `retention.dfy` says what
  one pass guarantees, by rank alone, and what becomes of a recording that breaks off.
- **The backend.** `nfs_backend.dfy` is a backup directory with the upload, pruning and cleanup
  scripts; `latest_json.dfy` and `stems.dfy` show when `latest.json` is right and why archive names
  sort by time.
- **The operator.** `finalizer.dfy` is the finalizer state machine. `operator_run.dfy` puts records,
  cleanup Jobs, directories and uploads in flight into one state with nine kinds of event, and names
  the assumptions under which the two retention tiers agree; `operator_safety.dfy`,
  `operator_steps.dfy`, `operator_events.dfy` and `operator_theorems.dfy` prove that they then agree in
  every state of every run. `operator_rounds.dfy` and `operator_needs.dfy` prove that each assumption is
  needed, `operator_guards.dfy` what deletes and vanishing records cost in any state. `any_runs.dfy` has
  the runs without these assumptions; `any_run_theorems.dfy` proves what the finalizer and the `Latest`
  flag guarantee there, and `any_run_failures.dfy` has the runs on which the finalizer fails.
- **The backup pod.** `backup_pod.dfy` steps the three containers command by command, any of which may
  fail, those included whose failure a pipe or a loop hides from `set -eu`; `pod_guarantees.dfy` has the
  theorems over all interleavings.
- **Controllers.** `backup_policy.dfy` (fan-out of CronJobs), `job_status.dfy`, `observations.dfy`,
  `backup_job.dfy` and `backup_job_runs.dfy` (manual backups), `restore_job.dfy` and `restore_runs.dfy`
  (restores, and what they find on the backend), `job_observer.dfy` (scheduled Jobs), with
  `native_jobs.dfy` for Job conditions.
- **Text.** `naming.dfy`, `env_keys.dfy`, `series.dfy`, `import_path.dfy`, `shell.dfy`,
  `annotations.dfy`, `overlay.dfy`; `strings.dfy`, `sorting.dfy`, `ranking.dfy` and `options.dfy` are
  what they are built from.

Code that changes things step by step is a class or a loop here too, and each method is proved equal
to a specification function of its old state; the theorems are about those functions. A name is a
sequence of characters; naming is restricted to ASCII input. The hash that shortens
long names is the hexadecimal text of any 32-bit function (`ShortHash`), so nothing depends on the
absence of collisions.

## What was found

The properties below hold of the code only under a condition, and the condition is proved exact or
shown to be needed.

- **Two retention tiers.** The upload prunes archives by file name and the controller prunes records by
  completion time. Every undeleted ready record keeps its archive over whole runs
  (`RestorableThroughout`) under nine assumptions, the `Guard`s of `OperatorRun`: each upload is
  recorded before the next one of its series; the name of an uploaded archive is the latest of its
  series; the recorded run is the last of its series to complete; recording an upload keeps no more
  records than the upload kept archives; a run that writes over a record writes over the oldest one
  left; no run is recorded under the name of a record whose cleanup Job is still there; a record without
  finalizers is deleted only when it is the oldest left; a record that vanishes while an upload
  waits does not save one that the upload pruned; and a Job that is seen again after its record has gone
  brings back a record that the pass deletes at once, or one in line with the others whose archive is
  still there. Each of them is needed: `EveryGuardIsNeeded` gives, for
  every one, a run that meets all others and ends with a record whose archive is gone. With all others
  met, the two configured numbers decide: no run loses an archive exactly if the controller's is not
  above the upload's (`TiersAgreeExact`).
- **A record that comes back.** A BackupJob looks at its completed native Job every 30 seconds and records
  its run each time (controllers/backupjob_controller.go:96-156). If a user deletes the record, its
  cleanup completes and the record goes, the next look creates the record anew: undeleted, succeeded and
  ready. With no upload waiting it is without an archive exactly if its archive is gone and fewer than
  keepLast records of the series are newer (`ReturnExact`); `NeedsHarmlessReturn` is such a run, and the
  restore gate is open for the record (`GateMissesReturn`).
- **A restore is carried out again.** The time to live removes the native Job of a finished restore, and
  the next reconcile creates it anew. A restore runs twice or more exactly when its Job is collected
  between two reconciles that would create one; that it has succeeded plays no part
  (`RestoredTwiceExact`).
- **A record that is written over while it is cleaned up.** A native Job that its time to live has removed
  is created again under its name, and its second run is recorded over the first one's record, even one
  that is being deleted. A cleanup Job that is there still has the first archive in hand, so the record
  goes and the second archive stays. After any run, the files of such a record are gone exactly if
  it was not written over with another artifact since its cleanup Job was rendered (`WrittenOverExact`,
  `FinalizerSafety`); `WrittenOverReached` is a run to such a state, and `LeftoverReached` one in which
  the completed cleanup Job of an earlier record lets a later one go at once (`LeftoverJobLoses`).
- **The numbers can differ.** The observer of scheduled Jobs looks the policy up by label value. If the
  policy's name is not its own label value (it has a dot, a double hyphen or more than 63 characters),
  the controller falls back to keeping 3 whatever the upload script was given (`KeepLastExact`). If the
  name of the source or storage is not its own label value, finished scheduled backups are never
  recorded at all (`ObservedExact`).
- **`Latest` is the run seen last.** The flag goes to the run that was recorded last, which is the newest
  one exactly when no newer run is recorded (`LatestIsNewestExact`); seeing an older Job again takes the
  flag back.
- **No ERR trap, no marker.** The wrapped addon command relies on `trap ... ERR`. A shell without it may
  ignore the line, or refuse it, which under `set -e` ends the script before the command runs; and the
  branch for a template without a command exits without firing the trap. Exactly then the addon can end
  without a marker (`NoMarkerExact`); the packager can under the same weakness of its own shell
  (`PackNoMarkerExact`). From then on, however the pod goes on, the upload script polls for ever
  (`WaitsForEver`).
- **Failures that go unnoticed.** The scripts set `-eu` and not `pipefail`. When `sha256sum` fails in front
  of its pipe (controllers/runtime_helpers.go:595), the package goes out with a blank checksum; when `find`
  fails in front of its pipe in the loop (:828), the upload prunes by what was listed, and ends well. So
  the summary's checksum is right exactly if `sha256sum` succeeded (`SummaryExact`), and the archives are
  those of a complete pruning exactly if the listing had the same victims (`PruningExact`);
  `FailsUnnoticed` has the runs. When `wc` fails (:596), the metadata has a blank for the size. A cleanup
  whose listing fails leaves `latest.json` right exactly if the greatest snapshot left was listed, or none
  is left (`CleanupLatest`).
- **A recording that breaks off.** Any call of a recording may fail half way. Once the next reconcile has
  repeated it, the records are as if it had gone through at once (`PersistRetried`).
- **The restore gate.** A restore is let through for a ready record that is being deleted, although its
  archive may be gone (`GateMissesDeletion`), for one that a waiting upload has pruned
  (`GateMissesWaiting`), and for one that is back without its archive (`GateMissesReturn`); under the nine
  assumptions, for an undeleted one, with no upload of its series waiting, it always finds the
  archive (`RestoreFindsArchive`).
- **Ready and phase.** The Pending branch leaves the `Ready` condition alone, so one lost status patch can
  leave a Pending backup Ready (`ReadyExact`, `ReadyNeedsPatches`).
- **Notifications.** One is delivered twice or more exactly when the first reconcile that finds the native
  Job over and gets it through loses its status patch, and another one gets it through later
  (`DeliveredTwiceExact`); `DeliveredTwice` is such a run. The same goes for scheduled Jobs
  (`AnnouncedTwiceExact`).
- **Normalising twice.** Resolving a restore normalises the import path twice. White space at the outer
  edges of the segments that the first cleaning leaves makes the resolved path differ from the validated
  one (`NormalizedTwiceExact`, `ResolvedDiffers`).
- **Upload may prune itself.** An upload whose archive name sorts behind `keepLast` others that are listed
  removes its own archive and still ends well (`UploadSurvivesExact`).

The execution-flow document (docs/EXECUTION-FLOW.zh-CN.md:198-218) says that the upload prunes old files
and writes `latest.json`, that the controller prunes old records and sets `status.latest`, and that
retention is therefore consistent in both tiers. The code makes that so only under the conditions
above, and the model follows the code.

## Model

| member | source | states |
|---|---|---|
| Snapshots.SnapshotClient.ReconcileSnapshotSeries | controllers/execution_helpers.go:249-284 | the list, filter, sort and delete-or-flag loop leaves the records exactly as `AfterPass` says by rank, whatever order the list came in; if a call fails, every record is as before or as after |
| Snapshots.SnapshotClient.PersistSnapshot | controllers/execution_helpers.go:178-247 | creating or updating the record, its status and the pass together leave `AfterPersist`; if a call fails, nothing is written, or all but the status, or the pass has begun |
| Snapshots.SnapshotClient.SeriesNewestFirst | controllers/execution_helpers.go:250-260 | the i-th listed record of the series is the one with exactly i newer ones |
| Snapshots.SnapshotClient.Settle | controllers/execution_helpers.go:261-281 | one turn of the loop deletes beyond `keepLast` and corrects the flag otherwise |
| Snapshots.SortSnapshotsNewestFirst | controllers/common.go:172-181 | the in-place sort orders by time, then name, and keeps the elements |
| Snapshots.EffectiveKeepLast | controllers/common.go:141-150 | a positive number that is asked for is kept as it is, and anything else gives three |
| Snapshots.NewerFirstExact | controllers/common.go:172-181 | a record is newer if its run completed later (or else started, or else the record was created), and of two at the same time the one with the greater name |
| Ranking.SliceStable | controllers/common.go:172-181 | an in-place stable sort under any strict total order gives an ordered permutation |
| Retention.RetentionExact | controllers/execution_helpers.go:249-284 | a pass with keepLast k keeps exactly the min(n, k) newest records, each newer than all others, with the flag corrected and nothing else; of the others those without finalizers are gone and the rest marked; other series are not touched |
| Retention.PolicyKeeps | controllers/common.go:141-150 | a pass with the number of a policy that asks for k > 0 leaves the min(n, k) newest records, and the min(n, 3) newest if it asks for none |
| Retention.NewestSurvives | controllers/execution_helpers.go:261-267 | with an effective keepLast the newest record of a series is never deleted |
| Retention.KeptStable | controllers/execution_helpers.go:261-267 | whether a record is kept is the same before and after the pass |
| Retention.LatestExact | controllers/execution_helpers.go:268-281 | after a pass the undeleted flagged records are the named one if it is kept and undeleted, and none otherwise |
| Retention.PassIdempotent | controllers/execution_helpers.go:249-284 | a second identical pass finds every flag right and nothing new to delete |
| Retention.PersistRetried | controllers/execution_helpers.go:178-284 | a recording that broke off anywhere and is then repeated leaves the records as if it had gone through at once |
| Retention.PersistLatest | controllers/execution_helpers.go:225-246 | recording a run leaves at most that run flagged in its series, whatever was flagged before, and flags nothing elsewhere |
| Retention.PersistExact | controllers/execution_helpers.go:178-247 | the record that a recording leaves has the series, storage, artifact, Job and times it was given, is succeeded and ready, and keeps finalizers and creation time |
| Retention.PersistStays | controllers/execution_helpers.go:225-284 | if fewer than keepLast other records are newer, the recorded one stays, as undeleted as it was, with the flag |
| Retention.LatestIsNewestExact | controllers/execution_helpers.go:225-246 | the flagged record is the newest of its series exactly when the run just recorded is |
| Retention.FewAreKept | controllers/execution_helpers.go:261-281 | a pass over no more records than it keeps deletes none and sets every flag right |
| NativeJobs.JobTerminalState | controllers/execution_helpers.go:37-55 | the outcome is Succeeded exactly if the first true Complete or Failed condition is a Complete one, and Failed exactly if it is a Failed one |
| NativeJobs.TerminalStateExact | controllers/execution_helpers.go:37-55 | the same of the specification function, and there is no outcome exactly when neither is true |
| NativeJobs.JobCompletedAt | controllers/execution_helpers.go:57-69 | the loop computes `CompletedTime` |
| NativeJobs.CompletedTimeIsLatest | controllers/execution_helpers.go:57-69 | the result is the latest time among Complete and Failed conditions of any status, and absent exactly when there is none |
| NfsBackend.NfsDirectory.Upload | controllers/runtime_helpers.go:811-842 | copying, pruning and writing `latest.json` leave `AfterUpload`, for whatever `find` lists |
| NfsBackend.NfsDirectory.Prune | controllers/runtime_helpers.go:825-834 | the counting loop removes exactly the listed snapshots with keepLast or more listed archives after them, and nothing for keepLast 0 |
| NfsBackend.NfsDirectory.Cleanup | controllers/snapshot_controller.go:165-180 | the script removes the three files and recomputes `latest.json` from what `find` lists, as `AfterCleanup` says |
| NfsBackend.NfsDirectory.FindSortedDescending | controllers/runtime_helpers.go:828-828 | `find ... sort -r` gives each name at the index that is its rank |
| LatestJson.DotSuffixOrder | controllers/snapshot_controller.go:172-178 | the order of two names without dots does not depend on a suffix that starts with a dot |
| LatestJson.SameOrder | controllers/snapshot_controller.go:172-178 | archives and metadata files sort alike |
| LatestJson.UploadExact | controllers/runtime_helpers.go:811-834 | an upload takes the three files of exactly the listed snapshots with keepLast listed archives after them; the new one has the files of the package, and the others theirs as before |
| LatestJson.CleanupExact | controllers/snapshot_controller.go:165-180 | a cleanup removes the three files of one snapshot and no other, and `latest.json` becomes the metadata of the listed snapshot that sorts last, or goes if none is listed |
| LatestJson.UploadLatestExact | controllers/runtime_helpers.go:818-834 | an upload leaves `latest.json` right exactly when no snapshot present sorts after it, whatever its listing misses |
| LatestJson.UploadSurvivesExact | controllers/runtime_helpers.go:818-834 | an upload keeps its own archive exactly when it is not listed or fewer than keepLast listed archives sort after it |
| LatestJson.CleanupLatest | controllers/snapshot_controller.go:165-180 | a cleanup removes three files and no other, and leaves `latest.json` right exactly when the greatest snapshot left is listed or none is left |
| LatestJson.LatestAgreesOverRuns | controllers/snapshot_controller.go:165-180 | over any run of uploads with increasing stems, whatever their listings miss, and cleanups that list everything, `latest.json` is the metadata of the greatest snapshot present, and absent exactly when there is none |
| Stems.PaddedOrder | controllers/runtime_helpers.go:592-592 | fixed-width numerals sort as their numbers |
| Stems.DateOrder | controllers/runtime_helpers.go:592-592 | time stamps sort as the clocks do, whatever follows |
| Stems.LaterStemSortsAfter | controllers/runtime_helpers.go:588-592 | a snapshot packaged later has the later name, whatever suffixes the two have, and no stem has a dot |
| Stems.StemExact | controllers/runtime_helpers.go:588-592 | a stem is the time stamp, a hyphen, and the requested name or else the slug |
| Stems.DateExact | controllers/runtime_helpers.go:592-592 | the time stamp can be read back |
| Stems.RequestedExact | controllers/runtime_helpers.go:588-591 | a requested name keeps letters, in lower case, and digits, and every other character but a line break becomes a hyphen |
| Finalizer.SnapshotReconciler.Reconcile | controllers/snapshot_controller.go:27-92 | the finalizer machine leaves `AfterReconcile`, and ends as `VerdictExact` says |
| Finalizer.VerdictExact | controllers/snapshot_controller.go:48-92 | in any state, a reconcile asks to be called again exactly if it leaves the cleanup Job of a guarded record without a true Complete or Failed condition; it fails exactly if the storage of such a record is missing or the first such condition of its Job is Failed; when it settles, the record is gone, not being deleted, or without the finalizer |
| Finalizer.FinalizerExact | controllers/snapshot_controller.go:33-92 | exactly when the finalizer is on a record afterwards, and exactly when the record goes |
| Finalizer.JobCreatedExact | controllers/snapshot_controller.go:60-76 | exactly when a cleanup Job is created, for which storage, path and snapshot, and no Job is changed or removed |
| Finalizer.ReconcileTouches | controllers/snapshot_controller.go:27-92 | no other record or Job changes, and no field of the record but its finalizers |
| OperatorSteps.PrunedIsDoomed | controllers/runtime_helpers.go:825-834 | an archive the upload prunes belongs to a record that recording the upload deletes |
| OperatorSteps.UploadInv | controllers/runtime_helpers.go:811-842 | an upload with its pruning keeps the invariant of the run |
| OperatorTheorems.ObserveInv | controllers/execution_helpers.go:178-247 | recording the waiting upload, with the retention pass, keeps it |
| OperatorTheorems.ReobserveInv | controllers/execution_helpers.go:178-247 | so does recording a run again while its record is there |
| OperatorTheorems.RecreateInv | controllers/backupjob_controller.go:96-121 | so does creating a record anew from a Job that is seen again, if the record goes at once or its archive is there, in line with the others |
| OperatorEvents.DeleteInv | controllers/snapshot_controller.go:27-92 | so does a user delete |
| OperatorEvents.ReconcileInv | controllers/snapshot_controller.go:27-92 | so does the finalizer machine |
| OperatorEvents.CleanupInv | controllers/snapshot_controller.go:165-180 | so does a cleanup script, whether it completes or breaks off |
| OperatorEvents.CleanupSparesOthers | controllers/snapshot_controller.go:101-180 | the files a cleanup removes belong to no other record |
| OperatorTheorems.StepInv | controllers/execution_helpers.go:178-284 | every event keeps the invariant |
| OperatorTheorems.RestorableThroughout | controllers/execution_helpers.go:178-284 | after any run that meets the nine assumptions every undeleted ready record has its archive on the backend, or a waiting upload pruned it and recording that upload deletes it |
| OperatorNeeds.EveryGuardIsNeeded | controllers/execution_helpers.go:178-284 | for each of the nine assumptions a run from the start that meets all others, with one keepLast in both tiers except where that is the one waived, and ends with an undeleted ready record without its archive |
| OperatorNeeds.ReturnExact | controllers/execution_helpers.go:183-222 | in any state without a waiting upload of the series, a Job seen again after its record has gone brings back a record without archive exactly if the archive is gone and fewer than keepLast records are newer |
| OperatorNeeds.TiersAgreeExact | controllers/execution_helpers.go:261-267 | with uploads that keep kU > 0 archives and recordings that keep kC > 0 records, no run that meets the other assumptions loses an archive exactly if kC <= kU |
| AnyRunTheorems.OneLatestThroughout | controllers/execution_helpers.go:225-284 | after any run whatever, at most one undeleted record of a series is flagged |
| AnyRunTheorems.RunInv | controllers/snapshot_controller.go:27-180 | after any run a completed cleanup Job has removed its files, and a cleanup Job removes what its record refers to exactly if the record was not written over with another artifact since |
| AnyRunTheorems.FinalizerSafety | controllers/snapshot_controller.go:27-92 | after any run a record that points at artifacts loses the cleanup finalizer, or vanishes with it, only by the reconciler, while being deleted, once its cleanup Job completed; the three files the Job was rendered for are then gone, and they are its own unless it was written over since |
| AnyRunTheorems.WrittenOverExact | controllers/snapshot_controller.go:60-92 | when the cleanup Job of a record whose archive is on the backend completes and the record goes, its files are gone exactly if it was not written over with another artifact since the Job was rendered |
| AnyRunTheorems.LeftoverJobLoses | controllers/snapshot_controller.go:62-92 | a record with a completed cleanup Job and its archive still there was written over, goes at once and leaves its archive |
| AnyRunFailures.WrittenOverReached | controllers/execution_helpers.go:178-222 | a run in which the second run of a Job is recorded over a record whose cleanup Job is at work |
| AnyRunFailures.LeftoverReached | controllers/execution_helpers.go:178-222 | a run in which it is recorded while the completed cleanup Job of the first record is still there |
| AnyRunTheorems.FinalizerNotAddedLate | controllers/snapshot_controller.go:33-46 | after any run no event adds the finalizer to a record being deleted |
| OperatorTheorems.ObserveExact | controllers/execution_helpers.go:261-267 | recording a waiting upload leaves every undeleted record its archive exactly when keepLast is within one of the rank of each pruned record |
| OperatorGuards.VanishExact | controllers/execution_helpers.go:261-267 | while an upload waits that pruned an archive, a newer record may vanish exactly if the record of that archive has keepLast newer records; else recording the upload leaves it without its archive |
| OperatorGuards.DeleteNeedsGuard | controllers/snapshot_controller.go:33-46 | deleting a record without finalizer before an older one makes the next upload and its recording, with one and the same keepLast, leave the older record without its archive |
| BackupPod.StepInv | controllers/runtime_helpers.go:556-635 | every command of every container, failing or not, keeps the protocol's invariant |
| PodGuarantees.FailuresExact | controllers/runtime_helpers.go:575-635 | a script ends badly exactly with a command that fails and whose failure is not hidden, and leaves its failed marker exactly if its trap fires; a done marker is there exactly when it was touched |
| PodGuarantees.WritesOnlyCompletePackages | controllers/runtime_helpers.go:811-824 | the backend is written only by the uploader, after the addon succeeded and with the whole package in place: the archive of the addon's output, the right checksum exactly if `sha256sum` succeeded, and the right size exactly if `wc` did |
| PodGuarantees.FailureReachesNothing | controllers/runtime_helpers.go:575-602 | without the addon's done marker the backend is as it was |
| PodGuarantees.EndedLeavesMarker | controllers/runtime_helpers.go:972-980 | with a trap that fires and a command, a container that ended left a marker, and one that ended well its done marker |
| PodGuarantees.UploadEndsWell | controllers/runtime_helpers.go:811-842 | an upload that ends well leaves `AfterUpload` of a package of the addon's output, for what its listing gave; its archive is there exactly when it is not listed or fewer than keepLast listed ones sort after it, and it is the addon's output |
| PodGuarantees.OthersAreSpared | controllers/runtime_helpers.go:811-834 | whatever fails, an older snapshot with fewer than keepLast archives after it keeps its three files as they were |
| PodGuarantees.SummaryExact | controllers/runtime_helpers.go:595-595 | a summary that can be read is there only after a good end and names the archive, and its checksum is right exactly if `sha256sum` succeeded |
| PodGuarantees.PruningExact | controllers/runtime_helpers.go:826-834 | the archives left are those of a complete pruning exactly if the listing, complete or not, had the same victims |
| PodGuarantees.FailsUnnoticed | controllers/runtime_helpers.go:588-602 | a run in which all ends well with a readable summary, `sha256sum` having failed or not and the listing having missed anything at all |
| PodGuarantees.RankNeverGrows | controllers/runtime_helpers.go:556-635 | no command takes the pod further from its end |
| PodGuarantees.NeverStuck | controllers/runtime_helpers.go:575-602 | with traps that fire and a command, until all containers ended one of them can act and any outcome brings the pod nearer its end |
| PodGuarantees.AdvancesBounded | controllers/runtime_helpers.go:556-635 | no run has more than 25 advancing commands |
| PodGuarantees.NoMarkerExact | controllers/runtime_helpers.go:972-998 | the addon can end unmarked exactly when its shell does not run the trap or the template has no command |
| PodGuarantees.PackNoMarkerExact | controllers/runtime_helpers.go:575-602 | the packager can end unmarked exactly when its shell refuses the trap, or ignores it and the addon can leave a marker |
| PodGuarantees.WaitsForEver | controllers/runtime_helpers.go:575-587 | from any reached state in which the addon or the packager has, however the pod goes on, it never ends, the upload script polls, and the backend is as it was |
| Shell.ReadQuoted | controllers/runtime_helpers.go:1000-1002 | reading a quoted value adds exactly the value to the current word |
| Shell.ShellCommandRoundTrip | controllers/runtime_helpers.go:982-1010 | for any words the shell reads the command line back as exactly those words, behind the `cd` if there is one |
| Shell.WrappedRoundTrip | controllers/runtime_helpers.go:972-980 | the wrapped script parses to exactly `set -eu`, the trap, the `cd`, the command and the `touch` |
| Shell.GivesTrap | controllers/runtime_helpers.go:976-976 | around a plain file name the adjacent quotes of the trap line make one word |
| Shell.TrapActionRoundTrip | controllers/runtime_helpers.go:976-976 | the trap's action, when it fires, touches the failed file |
| Naming.SanitizeName | api/v1alpha1/naming.go:52-88 | the streaming loop computes `Sanitized` |
| Naming.RunsEqualFields | api/v1alpha1/naming.go:62-80 | the runs found character by character are the fields between separators |
| Naming.SanitizedIsLabel | api/v1alpha1/naming.go:52-88 | every sanitised value is a lower-case label with alphanumeric ends and no double hyphen |
| Naming.LabelIsSanitized | api/v1alpha1/naming.go:52-88 | a label is its own sanitised value |
| Naming.BuildDNSLabelName | api/v1alpha1/naming.go:95-143 | the loop over any number of parts, the cut and the hash give `LabelName`, which is as `NameExact` says |
| Naming.NameExact | api/v1alpha1/naming.go:95-143 | a name within the limit splits at hyphens into the lower-cased runs of all parts in order, with "dp" for a part that has none; a longer one is the beginning of that text without trailing hyphens, a hyphen and the hash of the whole text |
| Naming.ShortNamesDiffer | api/v1alpha1/naming.go:95-113 | names within the limit are equal exactly if their parts have the same words |
| Naming.LongNamesDiffer | api/v1alpha1/naming.go:115-143 | names that are cut differ whenever the hashes of their whole texts do, whatever is left of the texts |
| Naming.LabelNameIsLabel | api/v1alpha1/naming.go:95-143 | every generated name is a label within its limit, the truncating branch included |
| Naming.LabelValueNamesItselfExact | api/v1alpha1/naming.go:36-38 | a name is its own label value exactly when it is a label of at most 63 characters |
| Naming.LabelValueIdempotent | api/v1alpha1/naming.go:36-38 | a label value is its own label value |
| EnvKeys.EnvKey | controllers/runtime_helpers.go:1261-1289 | the loop, its flag and the final trims compute the prefix and the upper-cased runs joined by single underscores |
| EnvKeys.EnvNameIsLegal | controllers/runtime_helpers.go:1261-1289 | every result is a legal environment variable name |
| EnvKeys.EnvNameExact | controllers/runtime_helpers.go:1261-1289 | two inputs share a name exactly when they have the same upper-cased runs, and the name behind the prefix gives the name again |
| Series.SplitsBack | controllers/runtime_helpers.go:236-267 | series and backend path split back into seven components: the label values of namespace, source, policy or Job, and storage, between fixed words |
| Series.SeriesAndPathAgree | controllers/runtime_helpers.go:236-267 | two runs share a series exactly when they share a backend path, and exactly when all their labels agree |
| Series.PathOfSeries | controllers/runtime_helpers.go:236-267 | the backend path of a run is a function of its series |
| Series.BackendPathInjective | controllers/runtime_helpers.go:236-267 | and that function is injective |
| Series.FallbackSeries | controllers/jobobserver_controller.go:63-66 | the series rebuilt from labels is the one the CronJob was rendered with |
| Series.RestoreReadsUpload | controllers/runtime_helpers.go:59-65 | the path a restore reads is the one the upload wrote |
| ImportPath.AcceptanceExact | api/v1alpha1/validation.go:148-175 | an import source is accepted exactly when storage and format are right and the segment walk of its relative path never leaves the root and ends strictly below it |
| ImportPath.CleanedWalk | api/v1alpha1/restorejob_types.go:41-54 | the cleaned segments are the directories the walk stands in, or begin with ".." once it has left the root |
| ImportPath.NormalizedIsStack | api/v1alpha1/restorejob_types.go:41-54 | a normalised relative path is the joined stack of the walk |
| ImportPath.CleanIdempotent | api/v1alpha1/restorejob_types.go:46-53 | cleaning a clean path changes nothing |
| ImportPath.NormalizedTwiceExact | controllers/runtime_helpers.go:215-216 | normalising any path twice is normalising it once exactly when no white space stands at the outer edges of the segments that cleaning leaves |
| ImportPath.NormalizedTwice | controllers/runtime_helpers.go:215-216 | so it is for every path none of whose segments starts or ends with white space |
| ImportPath.ResolvedAsAccepted | controllers/runtime_helpers.go:215-216 | an accepted path without white space at those edges is resolved to where its walk ends |
| ImportPath.ResolvedDiffers | controllers/runtime_helpers.go:215-216 | a path that is accepted as one file and resolved to another |
| Overlay.MergeEnvVars | controllers/runtime_helpers.go:1070-1087 | the indexed in-place merge keeps base names in place, appends new ones once, and means the base overridden by the overlays in order |
| Overlay.MergeRestoreSecretRefs | controllers/runtime_helpers.go:1160-1178 | the merge of secret references meets the same specification |
| Overlay.NewNamesExact | controllers/runtime_helpers.go:1070-1087 | the names that a merge appends are those that occur and are not known, each once, in the order of first occurrence |
| Overlay.MergeUnique | controllers/runtime_helpers.go:1070-1087 | that specification has exactly one result |
| Overlay.MergeDistinct | controllers/runtime_helpers.go:1070-1087 | a base without duplicates gives a result without duplicates |
| Annotations.NotificationRefNames | controllers/common.go:193-202 | the loop, sort and join give the sorted trimmed names joined by commas |
| Annotations.ParseNotificationAnnotation | controllers/jobobserver_controller.go:124-134 | the loop gives the trimmed non-empty parts |
| Annotations.AnnotationRoundTrip | controllers/common.go:193-202 | parsing the annotation of comma-free names gives back exactly the sorted trimmed non-empty names, with multiplicity |
| Annotations.HasDuplicateNames | api/v1alpha1/validation.go:216-229 | the loop answers yes exactly when two references have the same trimmed non-empty name |
| BackupPolicies.BackupPolicyReconciler.Reconcile | controllers/backuppolicy_controller.go:23-125 | phase, names, schedule time and the CronJobs after one reconcile, from a fresh or a stale list: Failed exactly if the policy is invalid or something it names is missing, Paused exactly if policy, schedule or source is; and every storage is served as `FanOutServes` says |
| BackupPolicies.FanOutServes | controllers/runtime_helpers.go:270-300 | under the name made of policy, storage and "backup" there is a CronJob with the schedule, suspended exactly if policy, schedule or source is; its series splits into the labels of namespace, source, policy and storage, its path belongs to that series, it keeps as many archives as the retention asks for or three, and it has all labels |
| BackupPolicies.BackupPolicyReconciler.ValidateBasic | api/v1alpha1/validation.go:71-91 | accepted exactly if the policy is valid |
| BackupPolicies.LatestCronScheduleTime | controllers/backuppolicy_controller.go:127-146 | the latest schedule time of the CronJobs with an allowed name, absent exactly when none has any |
| BackupPolicies.PredictCronJobNames | api/v1alpha1/validation.go:203-214 | the sorted names for the trimmed non-empty references |
| BackupPolicies.FanOutExact | controllers/backuppolicy_controller.go:64-107 | with a fresh list exactly the desired CronJobs match the selector, each as rendered, and others are untouched |
| BackupPolicies.FanOutConverges | controllers/backuppolicy_controller.go:64-107 | a second reconcile changes nothing |
| BackupPolicies.StaleListIsSafe | controllers/backuppolicy_controller.go:88-107 | however stale the list, no desired CronJob is deleted, every listed one that is not desired is, nothing else is touched, and schedule times stay |
| BackupPolicies.PolicyConverges | controllers/backuppolicy_controller.go:64-107 | both hold for what a policy renders |
| BackupPolicies.OtherPolicyUntouched | controllers/backuppolicy_controller.go:88-107 | the CronJobs of a policy with another label value and other names are left alone |
| BackupPolicies.StatusAsPredicted | controllers/backuppolicy_controller.go:109-110 | the status names are those `PredictCronJobNames` predicts |
| Observations.ObserveTerminalBackupJob | controllers/execution_helpers.go:71-121 | what is reported of a native Job and what is recorded of it |
| Observations.FoundExact | controllers/execution_helpers.go:71-121 | what is found of a native Job by its conditions and its pod: phase, record and probe result, also for a complete Job whose pod shows no artifact |
| Observations.SeenExact | controllers/execution_helpers.go:71-121 | there is nothing to observe exactly if no Complete or Failed condition is true, and the observation fails exactly if a call it needs does |
| Observations.ObserveExact | controllers/execution_helpers.go:71-121 | the records change exactly if the Job is complete with an artifact and the calls succeed, and then by recording its times and that artifact |
| BackupJobs.BackupJobReconciler.Reconcile | controllers/backupjob_controller.go:25-157 | the phase machine leaves `AfterReconcile` of status, native Job, records and notifications |
| BackupJobs.RefusedExact | controllers/backupjob_controller.go:31-70 | a backup that is invalid or names something missing is Failed, a paused one Paused, and nothing else happens |
| BackupJobs.StartedExact | controllers/backupjob_controller.go:70-94 | without a native Job one is created, and the backup is Running |
| BackupJobs.ReportedExact | controllers/backupjob_controller.go:96-156 | with one, phase, Ready, start, end, probe result and record name tell what its conditions and its pod say, whenever the calls and the patch succeed |
| BackupJobs.RecordedExact | controllers/backupjob_controller.go:97-121 | exactly when a reconcile records the run, under which name and with what |
| BackupJobs.NotifiedExact | controllers/backupjob_controller.go:122-138 | exactly when a reconcile sends the notification, and when its delivery is recorded |
| BackupJobRuns.RecordsStem | controllers/backupjob_controller.go:96-121 | after any run of any number of BackupJobs every record has the Job, times, stem, path, checksum and size of a native Job seen complete with an artifact summary |
| BackupJobRuns.ReadyThroughout | controllers/backupjob_controller.go:31-156 | while patches arrive, every BackupJob is Ready exactly while Succeeded, and was notified exactly once or never, as its status says |
| BackupJobRuns.SucceededStems | controllers/backupjob_controller.go:96-156 | after any run a BackupJob that is Succeeded or Ready had a native Job reported complete, whatever became of its patches |
| BackupJobRuns.ReadyExact | controllers/backupjob_controller.go:144-151 | one reconcile keeps Ready and phase together exactly unless it finds a Ready backup whose Job has not started |
| BackupJobRuns.ReadyNeedsPatches | controllers/backupjob_controller.go:84-93 | a run with one lost patch that ends Pending and Ready |
| BackupJobRuns.DeliveredOnce | controllers/backupjob_controller.go:122-138 | once a delivery is recorded nothing is sent again, over any run |
| BackupJobRuns.DeliveredTwiceExact | controllers/backupjob_controller.go:122-156 | over any run a notification is delivered twice or more exactly when the first reconcile that finds the native Job over and gets through loses its status patch and another one gets through later |
| BackupJobRuns.DeliveredTwice | controllers/backupjob_controller.go:153-155 | a run with one lost patch that delivers twice |
| RestoreJobs.ValidateBasic | api/v1alpha1/validation.go:123-146 | accepted exactly if the spec names one source of data, an acceptable one, no reference twice and no negative time to live |
| RestoreJobs.RestoreJobReconciler.Reconcile | controllers/restorejob_controller.go:24-137 | the phase machine with its gate leaves `AfterReconcile` |
| RestoreJobs.RefusedExact | controllers/restorejob_controller.go:30-64 | a restore that is invalid, names something missing, or names a snapshot that is not succeeded and ready is Failed, and nothing else happens |
| RestoreJobs.StartedExact | controllers/restorejob_controller.go:66-90 | without a native Job one is created that downloads what the spec names, and the restore is Running |
| RestoreJobs.ReportedExact | controllers/restorejob_controller.go:92-136 | with one, the restore is Succeeded and Ready exactly if the first true Complete or Failed condition is Complete, and Failed if it is Failed; start, end and probe result are those of the Job |
| RestoreJobs.NotifiedExact | controllers/restorejob_controller.go:101-118 | exactly when a reconcile sends the notification, and when its delivery is recorded |
| RestoreRuns.ReadyThroughout | controllers/restorejob_controller.go:30-136 | while patches arrive, a RestoreJob is Ready exactly while Succeeded and notified at most once |
| RestoreRuns.SucceededStems | controllers/restorejob_controller.go:92-136 | after any run a restore that is Succeeded or Ready had a native Job reported complete, whatever became of its patches |
| RestoreRuns.DeliveredOnce | controllers/restorejob_controller.go:101-118 | once a delivery is recorded nothing is sent again |
| RestoreRuns.DownloadAdmitted | controllers/restorejob_controller.go:36-90 | over any run what a restore downloads went through the gate: a reconcile found the spec valid, what it names there, and the snapshot succeeded and ready |
| RestoreRuns.RestoredTwiceExact | controllers/restorejob_controller.go:66-90 | over any run the native Job is created twice or more exactly when it is collected between two reconciles that would create it |
| RestoreRuns.RestoreFindsArchive | controllers/runtime_helpers.go:59-65 | in any state the operator reaches under the nine assumptions with no upload of the series waiting, a restore from an undeleted record past the gate finds its archive, and downloads the very file its upload wrote |
| RestoreRuns.GateMissesDeletion | controllers/restorejob_controller.go:56-64 | from any reached state an undeleted record past the gate can come to a state where the gate is open and the archive gone |
| RestoreRuns.GateMissesWaiting | controllers/restorejob_controller.go:56-64 | a run to a state where the gate is open for an undeleted record that a waiting upload has pruned |
| RestoreRuns.GateMissesReturn | controllers/restorejob_controller.go:56-64 | a run to a state where it is open for an undeleted record that came back after its cleanup, with no upload waiting |
| JobObserver.JobObserverReconciler.Reconcile | controllers/jobobserver_controller.go:24-122 | the observer leaves `AfterReconcile` of the Job's annotation, the records and the notifications |
| JobObserver.SeriesAsRendered | controllers/jobobserver_controller.go:63-66 | a Job is filed under the series that its CronJob carries, by annotation or by labels |
| JobObserver.ObservedExact | controllers/jobobserver_controller.go:44-90 | a scheduled Job with an artifact is recorded under the name made of Job, storage and "snapshot" within 63 characters, in the series of its CronJob and under its storage, when source and storage are named by labels of at most 63 characters, and never otherwise |
| JobObserver.KeepLastExact | controllers/jobobserver_controller.go:57-62 | the controller keeps as many records as the CronJob keeps archives exactly when the policy is named by such a label or the CronJob keeps three; else it keeps three |
| JobObserver.SeesOnly | controllers/jobobserver_controller.go:29-56 | a reconcile changes nothing but for a Job whose labels say that it is a backup of a policy, whose conditions say that it is over, and whose source and storage are there |
| JobObserver.AnnouncesExact | controllers/jobobserver_controller.go:91-120 | exactly when a reconcile announces the outcome of a Job, and when that is noted down |
| JobObserver.AnnouncedTwiceExact | controllers/jobobserver_controller.go:91-120 | over any run an outcome is announced exactly if some reconcile could announce it and got through, it is noted down exactly if its patch arrived too, and it is announced twice or more exactly if the first of these lost its patch and another got through later |
| JobObserver.AnnouncedOnce | controllers/jobobserver_controller.go:91-120 | while patches arrive an outcome is delivered at most once, and the annotation tells whether it was |
| JobObserver.QuietAfterwards | controllers/jobobserver_controller.go:91-120 | once annotated, nothing is announced again |

## Left out

- MinIO backends: their scripts hide failures of the removing command; only the NFS variants are modelled.
- Kubernetes itself: reads are consistent and single writes atomic, except where a lemma takes a stale list; a failing read makes a reconcile do nothing, like a reconcile that has not taken place.
- The JSON of termination messages and the HTTP of the notification gateway: a report is a datatype, a dispatch succeeds or fails.
- Observations.ObserveTerminalBackupJob: a recording that fails is taken to have written nothing, here and in the runs; what it may have written, and that repeating it comes to the same end, is stated for `PersistSnapshot` alone.
- Snapshots.SnapshotClient.ReconcileSnapshotSeries: `int32(index)` does not wrap, as no series comes near 2^31 records; two passes over one series at the same time are not modelled.
- OperatorTheorems.RestorableThroughout: besides the nine assumptions, stems, paths and storages are not blank, keepLast is positive and a complete Job has a completion time, as the code sees to; each upload in the run ends well. An upload that breaks off after copying leaves an archive without a record, which takes up a place in the pruning. Nobody edits records, finalizers or directories by hand. `latest.json` plays no part here.
- AnyRunTheorems.FinalizerSafety: every record has a cleanup Job name of its own, and an archive name is not used again for an upload while a record or a cleanup Job refers to it.
- BackupPod: where a trap fires, its `touch` succeeds. A container that is killed from outside, or a deadline that ends the pod, is not a step.
- Shell.WrappedRoundTrip: the failed-file path has plain characters only, as at both call sites; a word list says nothing of how the named program reads its options.
- Stems: the requested suffix is one line, as `sed` works line by line; `echo` is taken to print its argument.
- Naming: input outside ASCII, where classifying code points and cutting bytes can leave no label; joined names with hyphens in their parts can collide, so distinct names are a hypothesis.
- BackupPolicies: owner references and annotations of CronJobs, and a reconcile that fails half way through the storages.
- RestoreJobs: how the native restore Job unpacks what it downloads, and the format and display name of an import.
- Messages, generations, probe texts and timestamps of conditions in statuses.
- The reconcilers that only validate (addons, sources, storages, retention policies, endpoints), pod plumbing, defaults, installers and the addon images.
