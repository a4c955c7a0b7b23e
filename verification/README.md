# TinyAgent: verified models

TinyAgent runs a Fedora root inside an Android app. This project models, in Dafny 4.11, the parts of it that must
survive crashes, races and hostile numbers, and proves what they promise.

| file | models |
|---|---|
| `PackageState.dfy` | the recursive walk that flattens the package journals into a digest |
| `Publication.dfy`, `Device.dfy` | the crash-resumable upgrade of the package executables: the plan, its durable steps, and the code that takes them |
| `Preparation.dfy` | the checkpointed preparation around it: snapshot, native check, checkpoint, publication, migration, retirement |
| `AndroidJobs.dfy`, `AndroidOutcomes.dfy` | the durable queue of Android shell jobs and installations, and how its jobs end |
| `PackageJobs.dfy`, `PackageOutcomes.dfy`, `LogReader.dfy` | the single package writer with its bounded log tail, what its requests come to, and the client that prints it |
| `Descriptors.dfy`, `RootIdentity.dfy` | the hand-over of file descriptors to the executor and to the locked runtime, and the root's stable identity |
| `ApkDelta.dfy` | deltas between APKs, their application, and the exported script of positioned copies |
| `ShellFrames.dfy` | the bounded parser of shell-v2 frames |
| `ProcessIdentity.dfy`, `Recovery.dfy`, `ServiceStart.dfy` | recognising a process across PID reuse and reboot, the recovery that signals it, and the service that starts after it |
| `ArchiveSafety.dfy` | the acceptance of root archives and what extraction of an accepted one does |
| `CommandResult.dfy`, `Planning.dfy` | the success gate of package commands, their order and the planning cache |

## How to read it

Code that changes things step by step is a class or a method with loops; each is tied by its contract to functions of
the old state, or states outright what it achieves. Protocols are in addition given as values: a state, the steps
between states, and lemmas over every sequence of steps. A crash is a sequence that stops; the next start goes on from
what is durable. Ghost fields called `trail` or `log` record every durable state or event of an object, so that a
contract can speak about each moment and not only about the end. A lemma whose name ends in `Exactly` says what a
function of the model means in plain terms, without the functions it is built from.

The results to look at first are `Publication.Resumption` with `Publication.NothingLost`,
`Preparation.MixedPairKeepsChecked` with `Preparation.CheckpointOutlivesConfirmation` and `Preparation.PrepareLocked`,
`PackageState.RecordsExactly`, `AndroidJobs.AtMostOnce` with `AndroidOutcomes.UndisturbedShell`,
`PackageJobs.CancelIsFinal`, `Descriptors.DuplicationExact` and `Descriptors.HandOffDelivers` with
`Descriptors.HandOffReceived`, `Descriptors.Process.Launch`, `ApkDelta.Create` with `ApkDelta.ExecutorsAgree`, and
`ArchiveSafety.SafeExtracts`.

Assumptions: a digest is the content it was computed from (no collisions); a rename, an `AtomicFile` write and a
durable row save happen in one step and succeed, while plain writes may stop after any byte; a lock taken with `flock` is
exclusive and lasts as long as some descriptor of its open file description does; the installed paths, their
staging names and their backups are different paths, as they are in the pinned manifest; the environment only does what
the named parameter of a method says it did.

## What the models show about the code

- A new Android job cancelled before it is current is `cancelled` on disk except while it has been cancelled a second
  time as the current job; a crash then, and only then, leaves `unknown` (`AndroidJobs.CancelledExactly`,
  `AndroidJobs.CancelledTwiceThenCrash`). One cancellation is safe through any crash (`AndroidJobs.CancelledStays`).
- Two package commands can be alive at once exactly in two cases (`PackageJobs.OverlapExactly`): the slot is freed
  while the process is alive, as happens when reading its output fails and stopping it is not confirmed
  (`PackageJobs.OverlapAfterFailedStop`), or a service starts while a process is alive whose marker was still empty when
  recovery read it (`PackageJobs.OverlapAfterUnrecorded`). A crash while a recorded command runs is settled by the recovery
  that comes before the service (`ServiceStart.StartService`). Even then only one process gets past the root's lock.
- An Android job that was begun can say `cancelled` on disk although it was never aborted: when a re-check of it waits
  its turn, is cancelled, and the app dies before the worker reaches it. From then on neither inspection nor cancellation
  reaches the job (`AndroidJobs.TurnsCancelled`, `AndroidJobs.RecheckCancelLost`,
  `AndroidJobs.RecheckCancelledThenCrash`).
- A cancel of a package request between its final status and the save of it ends as `cancel_requested`
  (`PackageJobs.CancelInTheGap`); it never turns into `completed` or `failed`.
- The descriptor hand-over refuses a source that is not open except when its number is among the lowest free ones that
  the sources before it fill (`Descriptors.ClosedSourcesRefused`); then the source it passes for is handed over twice
  (`Descriptors.ClosedSourceAliases`).
- The exported script accepts plans that the delta tool refuses: a copy past the end of the old file writes nothing and
  leaves zeros (`ApkDelta.ScriptAcceptsMore`). On plans whose copies lie inside the old file the two always agree, and
  no other plan applies (`ApkDelta.ExecutorsAgree`).
- 1 MiB of shell output is already too much, because the byte of the exit frame counts (`ShellFrames.RoundTrip`).

## Model

| member | source | states |
|---|---|---|
| `PackageState.SnapshotFaithful` | `scripts/upgrade-dnfast-empty.py:100-128` | two package-state trees of one owner, named as directory entries are, have the same state digest if and only if the roots have the same identity and the trees agree in names, kinds, modes, groups and file bytes at every depth |
| `PackageState.RecordsExactly` | `scripts/upgrade-dnfast-empty.py:101-122` | the record list is one record for each file and directory at every depth, at its path and with its metadata and bytes, and stands in ascending order of the paths name by name, a directory before what it holds |
| `PackageState.SoundExactly` | `scripts/upgrade-dnfast-empty.py:105-117` | a tree passes the checks of the walk if and only if every node at every depth has the owner and is a directory or a regular file with one link |
| `PackageState.BeforeExactly` | `scripts/upgrade-dnfast-empty.py:103-103` | names sort by the first character in which they differ, a beginning before the whole |
| `PackageState.FlattenInjective` | `scripts/upgrade-dnfast-empty.py:102-122` | the record lists of two listings can agree, whatever follows them, only when the listed names and everything under them agree |
| `PackageState.Listing` | `scripts/upgrade-dnfast-empty.py:103-103` | the sorted listing holds exactly the names of the directory, in strictly ascending code-point order |
| `PackageState.Walker.Walk` | `scripts/upgrade-dnfast-empty.py:101-122` | the recursive walk extends the shared record list by exactly the flattening of the directory, and fails if and only if some node has another owner, kind or link count |
| `PackageState.Walker.Visit` | `scripts/upgrade-dnfast-empty.py:104-121` | one entry of the walk: its own record, then those below it |
| `Publication.Resumption` | `scripts/upgrade-dnfast-empty.py:130-189` | from an untouched root, whose libraries may already be there, interrupted at any file operation any number of times, partial writes included, the next run is accepted, ends in the same files as an uninterrupted first run, with every manifest file, every backup and no staging file, touches nothing else, and a further run changes nothing |
| `Publication.PublicationOrder` | `scripts/upgrade-dnfast-empty.py:138-184` | at every instant each executable is wholly old or wholly new, a new executable implies every private library and both backups are in place, and every staging file is a prefix of what it will become |
| `Publication.ChainResumable` | `scripts/upgrade-dnfast-empty.py:138-184` | every state reachable by durable steps keeps the invariant that makes a rerun possible |
| `Publication.StepKeepsResult` | `scripts/upgrade-dnfast-empty.py:138-165` | no durable step of a publication, taken from any state, changes what the rest of the plan leads to |
| `Publication.StepKeepsResumable` | `scripts/upgrade-dnfast-empty.py:138-184` | one durable step keeps executables, backups, libraries and staging files in order |
| `Publication.ResumableAccepted` | `scripts/upgrade-dnfast-empty.py:131-182` | every check of the upgrade passes in a state the invariant describes |
| `Publication.PlaceAllResult` | `scripts/upgrade-dnfast-empty.py:138-184` | a whole plan places every target with its data, removes the staging files and leaves every other path alone |
| `Publication.FinishedIdle` | `scripts/upgrade-dnfast-empty.py:167-189` | on a finished root the plan changes nothing and no durable step is possible |
| `Publication.NothingLost` | `scripts/upgrade-dnfast-empty.py:130-184` | whatever root the runs of an upgrade find and wherever they are interrupted, every path that was there holds what it held, except a known original executable, exchanged only once it is backed up, and staging files that began the very bytes to come |
| `Publication.AcceptsExactly` | `scripts/upgrade-dnfast-empty.py:130-184` | which roots a run accepts, path by path: both executables the original or the new one, backups and libraries absent or right, staging files beginnings of what they are to become |
| `Publication.PublishOrder` | `scripts/upgrade-dnfast-empty.py:177-178` | the publication order lists every payload once, private libraries before executables |
| `Publication.PublishOrderStable` | `scripts/upgrade-dnfast-empty.py:178-178` | within the libraries and within the executables the order is that of the archive |
| `Publication.ParentsExactly` | `scripts/upgrade-dnfast-empty.py:59-69` | the folders above a name are exactly its parts that end before a slash |
| `Publication.BackupFolders` | `scripts/upgrade-dnfast-empty.py:136-140` | the folders of a backup are the five down to the one named by the identity of the root, outermost first |
| `Device.MomentsChain` | `scripts/upgrade-dnfast-empty.py:54-192` | the files at the moments of any number of interrupted runs, making folders included, are such a chain of durable steps |
| `Device.Device.MakeFolders` | `scripts/upgrade-dnfast-empty.py:57-69` | every missing folder above a target is made, for a backup down to the one named by the root identity, outermost first, one durable step each |
| `Device.Device.Publish` | `scripts/upgrade-dnfast-empty.py:138-165` | stages, resumes or refuses one file, then renames it: success leaves exactly the placed file, refusal changes nothing, and every state on the way is one durable step from the one before |
| `Device.Device.Append` | `scripts/upgrade-dnfast-empty.py:150-162` | the missing bytes are written, and the state after every byte is one durable step from the one before |
| `Device.Device.Upgrade` | `scripts/upgrade-dnfast-empty.py:89-192` | the upgrade publishes if and only if the root identity is valid, the package state is allowed by the mode and every file check passes, and then the files are exactly the placed plan, with the backups below that identity; every state on the way is a durable step |
| `Device.Device.CheckExecutables` | `scripts/upgrade-dnfast-empty.py:130-135` | both installed executables are the original or the new one |
| `Device.Device.BackUp` | `scripts/upgrade-dnfast-empty.py:167-176` | every missing backup is published from an original executable, and an existing one must hold it |
| `Device.Device.InstallAll` | `scripts/upgrade-dnfast-empty.py:177-184` | every payload is published in order unless it is already there; a differing private library is preserved and refused |
| `Device.Device.CheckState` | `scripts/upgrade-dnfast-empty.py:93-129` | an empty state, a snapshot, or a state whose digest is the one checked before |
| `Device.DigestFaithful` | `scripts/upgrade-dnfast-empty.py:123-123` | digests taken of two roots agree if and only if the identities and the package states do, at every depth |
| `Device.LetThrough` | `scripts/upgrade-dnfast-empty.py:93-129` | with the digest of one package state exactly the states with the same entries are let through, without a digest exactly the empty one, and a snapshot publishes nothing |
| `Device.IdentityExactly` | `scripts/upgrade-dnfast-empty.py:89-91` | the identity the upgrade accepts is the one the launcher accepts, and one the launcher made is accepted |
| `Preparation.MixedPairFreezesJournals` | `app/src/main/java/io/github/gplaider/tinyagent/DnfastRuntime.java:43-79` | in every history that begins with an untouched 43b0928 root, while one executable is the 43b0928 one and the other is new, no command can be built, the journals and the checkpoint do not change, and the checkpoint equals the digest of the current package state |
| `Preparation.MixedPairKeepsChecked` | `app/src/main/java/io/github/gplaider/tinyagent/DnfastRuntime.java:43-68` | and the journals are those of the checkpoint: while the pair is mixed, the package state has at every depth exactly the entries it had when the accepted check before the publication began; a checkpoint from before the history binds the package state to every state it can be a digest of |
| `Preparation.CheckpointOrigin` | `app/src/main/java/io/github/gplaider/tinyagent/DnfastRuntime.java:59-64` | a checkpoint that was not there at first has been taken, after an accepted check, at some earlier moment of the history |
| `Preparation.MixedPairStaysEmpty` | `app/src/main/java/io/github/gplaider/tinyagent/DnfastRuntime.java:69-71` | in every history that begins with an untouched root of the oldest release, while the pair is mixed no command can be built, there is no checkpoint and the package state is still empty |
| `Preparation.CheckpointOutlivesConfirmation` | `app/src/main/java/io/github/gplaider/tinyagent/DnfastRuntime.java:74-79` | in every history, crashes included, a moment that loses the checkpoint comes right after accepted runs of check, migrate and verify, in this order, with the new executables in place and nothing published since |
| `Preparation.CheckpointAttestsCheck` | `app/src/main/java/io/github/gplaider/tinyagent/DnfastRuntime.java:52-64` | in every history a checkpoint is taken right after an accepted check with the old pair, and is the digest of the package state before that check |
| `Preparation.MixedBuildsNothing` | `app/src/main/java/io/github/gplaider/tinyagent/DnfastRuntime.java:91-94` | a mixed pair matches neither set of hashes a command may be built for |
| `Preparation.RunKeepsRoots` | `app/src/main/java/io/github/gplaider/tinyagent/DnfastRuntime.java:20-86` | the invariant of a root on either path holds after any sequence of native runs, checkpoints, publications, retirements and crashes |
| `Preparation.NextKeepsCheckedRoot` | `app/src/main/java/io/github/gplaider/tinyagent/DnfastRuntime.java:51-79` | one transition keeps the invariant of the checked path |
| `Preparation.NextKeepsEmptyRoot` | `app/src/main/java/io/github/gplaider/tinyagent/DnfastRuntime.java:69-79` | one transition keeps the invariant of the older path |
| `Preparation.PrepareLocked` | `app/src/main/java/io/github/gplaider/tinyagent/DnfastRuntime.java:20-86` | every step of a preparation is a transition of such a history, so the checkpoint goes only after check, migrate and verify have run and been accepted. Whatever the phone, it succeeds if and only if: on a first installation, there is no checkpoint or the confirming runs are accepted; with the new pair, also every file is right; else, the older pair may be published over and the runs are accepted; and the resulting files are given. On a root reachable from an untouched 43b0928 one that means that the native runs are accepted and leave the validated state alone, on one reachable from the oldest release that the new pair is there or the package state is empty |
| `Preparation.Unpack` | `app/src/main/java/io/github/gplaider/tinyagent/DnfastRuntime.java:33-33` | after a first installation every file of the release is installed with its bytes and every other path is as it was |
| `Preparation.EndsWhole` | `app/src/main/java/io/github/gplaider/tinyagent/DnfastRuntime.java:80-85` | unpacking and either plan end with the whole release, whatever there was before, so the closing comparison finds it |
| `Preparation.Validate` | `app/src/main/java/io/github/gplaider/tinyagent/DnfastRuntime.java:52-65` | the snapshot digest is returned and made durable if and only if the snapshot is possible and the native check of the old pair is accepted |
| `Preparation.SaveCheckpoint` | `app/src/main/java/io/github/gplaider/tinyagent/DnfastRuntime.java:62-64` | the checkpoint becomes the digest of the state the old pair has just checked, in one step |
| `Preparation.UpgradePair` | `app/src/main/java/io/github/gplaider/tinyagent/DnfastRuntime.java:43-72` | no checkpoint is lost; whatever the root, it publishes if and only if the state of the checkpoint is still there, or the old pair has checked a state that its check leaves alone, or the package state is empty, and the files are accepted; on a root reachable from an untouched 43b0928 one it publishes if and only if the state is, or can be, validated, on one reachable from the oldest release if and only if the package state is empty |
| `Preparation.Confirm` | `app/src/main/java/io/github/gplaider/tinyagent/DnfastRuntime.java:74-79` | it succeeds, and deletes the checkpoint after three accepted runs, if and only if the new pair is in place and check, migrate and verify are all accepted |
| `Preparation.DeleteCheckpoint` | `app/src/main/java/io/github/gplaider/tinyagent/DnfastRuntime.java:78-78` | the checkpoint is removed in one step, which the three accepted runs before it allow |
| `Preparation.RunNative` | `app/src/main/java/io/github/gplaider/tinyagent/DnfastRuntime.java:91-107` | a native command runs only when both executables are the expected ones, and changes the journals only |
| `Preparation.VerifyMembers` | `app/src/main/java/io/github/gplaider/tinyagent/DnfastRuntime.java:80-85` | succeeds if and only if every member of the manifest is installed with its content |
| `AndroidJobs.AtMostOnce` | `app/src/main/java/io/github/gplaider/tinyagent/AndroidJobs.java:79-114` | over any run of submissions, inspections, cancellations, closing, worker steps, crashes and restarts the remote start or installation of a job is issued at most once, only after a durable row past `queued`, so recovery never calls a started job cancelled |
| `AndroidJobs.Bookkeeping` | `app/src/main/java/io/github/gplaider/tinyagent/AndroidJobs.java:84-139` | queued and running tasks correspond one to one to the control flags, at most 16 created jobs are unfinished, and every row without a task has a terminal status on disk |
| `AndroidJobs.FirstInFirstOut` | `app/src/main/java/io/github/gplaider/tinyagent/AndroidJobs.java:20-20` | over any run jobs are begun in the order in which they were accepted |
| `AndroidJobs.RepeatedSubmission` | `app/src/main/java/io/github/gplaider/tinyagent/AndroidJobs.java:79-83` | a repeated ID with the same request gives the stored row unless the service is closed, with another request it is refused, and nothing changes, whatever happened in between |
| `AndroidJobs.CancelledBeforeCurrent` | `app/src/main/java/io/github/gplaider/tinyagent/AndroidJobs.java:98-99` | a created job cancelled before it is current is never started remotely, restarts included, and while the process lives it ends `cancelled` |
| `AndroidJobs.CancelledExactly` | `app/src/main/java/io/github/gplaider/tinyagent/AndroidJobs.java:35-45` | as long as no crash comes while such a job is cancelled again, its row is `cancelled` unless it has been cancelled again since it became current, and a crash turns it into `unknown` in just that case |
| `AndroidJobs.StepHeldMark` | `app/src/main/java/io/github/gplaider/tinyagent/AndroidJobs.java:167-172` | one event moves the row off `cancelled` exactly when it cancels the job while it is current, and back when the task ends |
| `AndroidJobs.CancelledStays` | `app/src/main/java/io/github/gplaider/tinyagent/AndroidJobs.java:167-172` | such a job stays `cancelled` on disk through crashes and restarts too, if it is not cancelled again |
| `AndroidJobs.CancelledTwiceThenCrash` | `app/src/main/java/io/github/gplaider/tinyagent/AndroidJobs.java:172-172` | the case occurs: a second cancellation followed by a crash makes any accepted job `unknown`, although it was never started |
| `AndroidJobs.TurnsCancelled` | `app/src/main/java/io/github/gplaider/tinyagent/AndroidJobs.java:90-177` | the row of a job that was begun turns `cancelled` in exactly two ways: the remote side reports it, or the job is cancelled while a re-check of it waits its turn, which asks the remote side nothing |
| `AndroidJobs.FinalForGood` | `app/src/main/java/io/github/gplaider/tinyagent/AndroidJobs.java:35-67` | a job without a task whose row is completed, failed or cancelled keeps that row for good, and nothing more is asked of the remote side about it, over every run, crashes and restarts included |
| `AndroidJobs.RecheckCancelLost` | `app/src/main/java/io/github/gplaider/tinyagent/AndroidJobs.java:167-172` | a begun job whose waiting re-check is cancelled just before a crash stays `cancelled` for good and is never aborted, whatever is requested afterwards |
| `AndroidJobs.RecheckCancelledThenCrash` | `app/src/main/java/io/github/gplaider/tinyagent/AndroidJobs.java:65-69` | the case occurs for any accepted shell job: its start is never answered, it is looked at again and cancelled, and the app dies |
| `AndroidJobs.RestartSpares` | `app/src/main/java/io/github/gplaider/tinyagent/AndroidJobs.java:35-45` | what recovery makes of a job held back by its flag: it stays `cancelled` exactly when that was on disk, and is `unknown` otherwise |
| `AndroidJobs.RunKeeps` | `app/src/main/java/io/github/gplaider/tinyagent/AndroidJobs.java:26-183` | the invariant of rows, flags, queue, worker and effects holds after any run |
| `AndroidJobs.SubmitKeeps` | `app/src/main/java/io/github/gplaider/tinyagent/AndroidJobs.java:70-89` | a submission keeps the invariant |
| `AndroidJobs.CancelKeeps` | `app/src/main/java/io/github/gplaider/tinyagent/AndroidJobs.java:167-177` | a cancellation, of a task or of an unknown job to be inspected, keeps the invariant |
| `AndroidJobs.InspectKeeps` | `app/src/main/java/io/github/gplaider/tinyagent/AndroidJobs.java:65-69` | a re-inspection keeps the invariant |
| `AndroidJobs.WorkKeeps` | `app/src/main/java/io/github/gplaider/tinyagent/AndroidJobs.java:94-139` | every worker step keeps the invariant, whatever the remote side answers |
| `AndroidJobs.RestartKeeps` | `app/src/main/java/io/github/gplaider/tinyagent/AndroidJobs.java:35-45` | a crash at any point and the recovery after it keep the invariant |
| `AndroidJobs.Service.constructor` | `app/src/main/java/io/github/gplaider/tinyagent/AndroidJobs.java:26-46` | recovery leaves every row with a terminal status, as specified, and keeps the invariant |
| `AndroidJobs.RecoveredRow` | `app/src/main/java/io/github/gplaider/tinyagent/AndroidJobs.java:37-44` | recovery makes a queued row cancelled, a starting, checking, running or cancel-requested one unknown, and leaves the others |
| `AndroidOutcomes.StartsQuiet` | `app/src/main/java/io/github/gplaider/tinyagent/AndroidJobs.java:26-46` | a start after any crash leaves an open, idle service without tasks or flags, with every row kept and its status as recovery makes it |
| `AndroidOutcomes.UndisturbedShell` | `app/src/main/java/io/github/gplaider/tinyagent/AndroidJobs.java:94-138` | from any idle service, a shell job that nothing disturbs, however often it is polled, is begun once and ends as the remote side reports: completed if and only if that is completion with exit 0, failed if and only if it is completion with another exit; the service is as before but for the row |
| `AndroidOutcomes.UndisturbedInstall` | `app/src/main/java/io/github/gplaider/tinyagent/AndroidJobs.java:94-138` | an installation that nothing disturbs is handed over once and is completed if and only if it is confirmed, else unknown |
| `AndroidOutcomes.CancelledRunning` | `app/src/main/java/io/github/gplaider/tinyagent/AndroidJobs.java:116-117` | a cancellation while a job runs makes the worker ask for its abortion before its status, and the row ends as then reported |
| `AndroidOutcomes.LostStartUnknown` | `app/src/main/java/io/github/gplaider/tinyagent/AndroidJobs.java:111-136` | a job whose start brings no answer ends unknown |
| `AndroidOutcomes.UnprovedFails` | `app/src/main/java/io/github/gplaider/tinyagent/AndroidJobs.java:102-132` | a job whose device is not proved ends failed and the remote side is asked nothing |
| `AndroidOutcomes.TurnsCompleted` | `app/src/main/java/io/github/gplaider/tinyagent/AndroidJobs.java:115-128` | in every reachable state a row turns completed if and only if the remote side reports completion with exit 0, or a task that ended so is saved |
| `AndroidOutcomes.TurnsFailed` | `app/src/main/java/io/github/gplaider/tinyagent/AndroidJobs.java:121-136` | a row turns failed if and only if the remote side reports completion with another exit, or a task that ended so is saved |
| `AndroidOutcomes.TurnsUnknown` | `app/src/main/java/io/github/gplaider/tinyagent/AndroidJobs.java:41-44` | a row turns unknown if and only if that is reported, or a task that ended so is saved, or the app dies while a task holds the job |
| `AndroidOutcomes.TurnsCancelRequested` | `app/src/main/java/io/github/gplaider/tinyagent/AndroidJobs.java:167-173` | a row turns cancel-requested if and only if its job is cancelled while it is current |
| `AndroidOutcomes.TurnsRunning` | `app/src/main/java/io/github/gplaider/tinyagent/AndroidJobs.java:122-162` | a row turns running if and only if that is reported, or the package of an installation has been checked |
| `AndroidOutcomes.TurnsChecking` | `app/src/main/java/io/github/gplaider/tinyagent/AndroidJobs.java:65-100` | a row turns checking if and only if an unknown shell job without a task is asked for or cancelled, or its re-check goes on |
| `AndroidOutcomes.TurnsStarting` | `app/src/main/java/io/github/gplaider/tinyagent/AndroidJobs.java:99-104` | a row turns starting if and only if that is reported, or a creation that its flag does not stop goes on |
| `AndroidOutcomes.BodyEnds` | `app/src/main/java/io/github/gplaider/tinyagent/AndroidJobs.java:99-132` | how a task ends at each point for each answer; the catch clause gives failed only when nothing has been asked of the remote side, and unknown otherwise |
| `AndroidOutcomes.BodyLeft` | `app/src/main/java/io/github/gplaider/tinyagent/AndroidJobs.java:99-132` | when a task is left: at a raised flag before the start, at an error, after an installation, or at a final report |
| `AndroidOutcomes.Asks` | `app/src/main/java/io/github/gplaider/tinyagent/AndroidJobs.java:106-116` | what is asked of the remote side, and when: a start by the job's own creation after proof, an abortion at a raised flag before a status query, and nothing else |
| `AndroidOutcomes.SubmitExactly` | `app/src/main/java/io/github/gplaider/tinyagent/AndroidJobs.java:70-89` | which submissions are accepted, character by character and field by field, and that an accepted one waits last in the queue with its row on disk |
| `Basics.IdExactly` | `app/src/main/java/io/github/gplaider/tinyagent/AndroidJobs.java:48-48` | an ID is 36 characters, dashes at four places and lower-case hexadecimal digits at all others |
| `Basics.BlankExactly` | `app/src/main/java/io/github/gplaider/tinyagent/AndroidJobs.java:77-77` | which texts of ASCII characters are blank |
| `AndroidOutcomes.RecheckExactly` | `app/src/main/java/io/github/gplaider/tinyagent/AndroidJobs.java:65-69` | when a job is looked at again, by inspection or by cancellation, and that nothing changes otherwise |
| `AndroidOutcomes.CancelExactly` | `app/src/main/java/io/github/gplaider/tinyagent/AndroidJobs.java:167-172` | what the cancellation of a job in hand writes |
| `AndroidJobs.Service.SubmitRequest` | `app/src/main/java/io/github/gplaider/tinyagent/AndroidJobs.java:70-89` | the object keeps the invariant, moves as specified, and accepts only a new ID, whose row is then `queued` and not begun |
| `AndroidJobs.Service.InspectId` | `app/src/main/java/io/github/gplaider/tinyagent/AndroidJobs.java:65-69` | the object keeps the invariant, moves as specified, and shows the row that is on disk |
| `AndroidJobs.Service.CancelId` | `app/src/main/java/io/github/gplaider/tinyagent/AndroidJobs.java:167-177` | the object keeps the invariant, moves as specified, shows the row that is on disk, and leaves the flag of a task raised |
| `AndroidJobs.Service.CloseService` | `app/src/main/java/io/github/gplaider/tinyagent/AndroidJobs.java:178-183` | every control flag is raised and the invariant kept |
| `AndroidJobs.Service.RunTask` | `app/src/main/java/io/github/gplaider/tinyagent/AndroidJobs.java:90-94` | for a fresh or an unknown job without task the flag is registered, a re-inspection saved as `checking`, the task queued, and the invariant kept |
| `AndroidJobs.Service.WorkerStep` | `app/src/main/java/io/github/gplaider/tinyagent/AndroidJobs.java:94-139` | each step of the task body keeps the invariant and moves the object as specified, with every job begun once at most |
| `PackageJobs.SingleWriter` | `app/src/main/java/io/github/gplaider/tinyagent/PackageJobs.java:45-91` | each request's command is launched at most once over every run, only the current request is ever `running`, and every stored output is exactly the last 16384 characters printed, marked truncated just when more were |
| `PackageJobs.OneCommandAtATime` | `app/src/main/java/io/github/gplaider/tinyagent/PackageJobs.java:68-89` | at most one command has a live process at any moment of a run, crashes at any point included, in which the slot is freed only after an exit and no service starts over a process that its marker does not name; while there is a service it is the current request's |
| `PackageJobs.OverlapExactly` | `app/src/main/java/io/github/gplaider/tinyagent/PackageJobs.java:84-88` | the condition is exact: when a task ends, the next request's command overlaps an earlier one just when the task's own process is still alive, and when a service starts, just when a process is alive whose marker does not name it |
| `PackageJobs.OverlapAfterFailedStop` | `app/src/main/java/io/github/gplaider/tinyagent/RuntimeProcessOutput.java:16-24` | the first case occurs: after a failed read and a stop that was not confirmed the next request runs beside the process left behind |
| `PackageJobs.OverlapAfterUnrecorded` | `app/src/main/assets/linux-launch.sh:5-10` | the second case occurs: a crash before the record is moved onto the marker lets the next service run a command beside the process, and after the move it does not |
| `PackageJobs.OneWorksOnTheRoot` | `native/dnfast-launch.c:171-172` | given that the lock is exclusive and lasts to the exit, which `Descriptors.Process.Launch` shows of the launcher's descriptors, at most one process gets past it over every run, and only a recorded one |
| `PackageJobs.CancelIsFinal` | `app/src/main/java/io/github/gplaider/tinyagent/PackageJobs.java:63-99` | after an accepted cancel the row never becomes `completed` or `failed` under any interleaving with lines, exit, requests, crash and restart |
| `PackageJobs.CancelInTheGap` | `app/src/main/java/io/github/gplaider/tinyagent/PackageJobs.java:83-97` | a cancel between the final status and its save ends as `cancel_requested`, and recovery makes it `interrupted` |
| `PackageJobs.RepeatedRequest` | `app/src/main/java/io/github/gplaider/tinyagent/PackageJobs.java:63-67` | a repeated ID with the same arguments gives the stored row, with others it is refused, and nothing changes |
| `PackageJobs.TailExtends` | `app/src/main/java/io/github/gplaider/tinyagent/PackageJobs.java:78-80` | keeping the tail of the tail and a new line keeps the tail of the whole log, and says rightly whether it was cut |
| `PackageJobs.CancelMarks` | `app/src/main/java/io/github/gplaider/tinyagent/PackageJobs.java:92-99` | an accepted cancel is of the current request and is on disk at once |
| `PackageJobs.RunKeeps` | `app/src/main/java/io/github/gplaider/tinyagent/PackageJobs.java:21-104` | the invariant of rows, current request, commands and logs holds after any run |
| `PackageJobs.Service.constructor` | `app/src/main/java/io/github/gplaider/tinyagent/PackageJobs.java:21-31` | the service is exactly the renewed one: no row is left running or cancel-requested, every other row is as it was |
| `PackageOutcomes.RenewedExactly` | `app/src/main/java/io/github/gplaider/tinyagent/PackageJobs.java:21-31` | a start rewrites exactly the running and cancel-requested rows, to interrupted, and nothing else |
| `PackageOutcomes.SubmitExactly` | `app/src/main/java/io/github/gplaider/tinyagent/PackageJobs.java:45-73` | which requests are accepted, argument by argument, and what an acceptance does |
| `PackageOutcomes.CancelExactly` | `app/src/main/java/io/github/gplaider/tinyagent/PackageJobs.java:92-99` | what a cancellation of the request in hand writes; any other changes nothing |
| `PackageOutcomes.CloseExactly` | `app/src/main/java/io/github/gplaider/tinyagent/PackageJobs.java:100-104` | a closed service takes no request until a service starts again, whatever happens in between |
| `PackageOutcomes.MarkedNotLaunched` | `app/src/main/java/io/github/gplaider/tinyagent/PackageJobs.java:92-97` | a request whose cancellation was accepted is not launched any more, over every run |
| `PackageOutcomes.TurnsFinal` | `app/src/main/java/io/github/gplaider/tinyagent/PackageJobs.java:83-88` | a row turns completed, failed or cancelled if and only if its task makes its last save having ended so |
| `PackageOutcomes.VerdictExactly` | `app/src/main/java/io/github/gplaider/tinyagent/PackageJobs.java:83-84` | a task ends cancelled if that was requested, else completed if and only if the command returned |
| `PackageOutcomes.TurnsInterrupted` | `app/src/main/java/io/github/gplaider/tinyagent/PackageJobs.java:26-29` | a row turns interrupted if and only if a service starts over it while it is running or cancel-requested |
| `PackageOutcomes.TurnsCancelRequested` | `app/src/main/java/io/github/gplaider/tinyagent/PackageJobs.java:92-104` | a row turns cancel-requested if and only if its request is cancelled, by name or by the close, or a cancel in the gap is saved |
| `PackageOutcomes.NeverRunningAgain` | `app/src/main/java/io/github/gplaider/tinyagent/PackageJobs.java:63-72` | no stored row turns running again |
| `PackageOutcomes.LaunchExactly` | `app/src/main/java/io/github/gplaider/tinyagent/LocalLinuxRuntime.java:342-351` | a command is launched by its own task only, once, and not after a cancellation |
| `PackageOutcomes.OutputKept` | `app/src/main/java/io/github/gplaider/tinyagent/PackageJobs.java:77-81` | over every run a row holds the last 16384 characters printed, or all of them, and says which |
| `PackageJobs.Service.SubmitArguments` | `app/src/main/java/io/github/gplaider/tinyagent/PackageJobs.java:45-91` | the object keeps the invariant, moves as specified, and accepts only a new ID while no request is in hand |
| `PackageJobs.Service.CancelId` | `app/src/main/java/io/github/gplaider/tinyagent/PackageJobs.java:92-99` | the object keeps the invariant, moves as specified, and accepts exactly the cancellation of the current request, which is then on disk |
| `PackageJobs.Service.CloseService` | `app/src/main/java/io/github/gplaider/tinyagent/PackageJobs.java:100-104` | the current request is marked cancelled and the service closed |
| `PackageJobs.Service.LaunchCommand` | `app/src/main/java/io/github/gplaider/tinyagent/LocalLinuxRuntime.java:342-351` | a command is started unless the request was cancelled, and never twice |
| `PackageJobs.Service.LaunchedLocks` | `native/dnfast-launch.c:171-172` | a launched process holds the root's lock or ends |
| `PackageJobs.Service.ProcessRecorded` | `app/src/main/assets/linux-launch.sh:5-10` | a live process is named by its marker from here on |
| `PackageJobs.Service.ProcessExits` | `app/src/main/java/io/github/gplaider/tinyagent/LocalLinuxRuntime.java:334-337` | a process that exits holds neither marker nor lock |
| `PackageJobs.Service.TaskBody` | `app/src/main/java/io/github/gplaider/tinyagent/PackageJobs.java:74-89` | an undisturbed task ends with its verdict, exit code and the tail of its lines on disk, its process gone and the slot free |
| `PackageJobs.Service.Line` | `app/src/main/java/io/github/gplaider/tinyagent/PackageJobs.java:77-81` | the row on disk holds the tail of the log with the line added |
| `PackageJobs.Service.SetStatus` | `app/src/main/java/io/github/gplaider/tinyagent/PackageJobs.java:83-84` | the final status respects a requested cancellation |
| `PackageJobs.Service.SaveAndClear` | `app/src/main/java/io/github/gplaider/tinyagent/PackageJobs.java:85-88` | the shared row is saved with a final or cancel-requested status and the slot is free |
| `ServiceStart.StartService` | `app/src/main/java/io/github/gplaider/tinyagent/RuntimeSetupService.java:67-71` | a service is constructed only after every marker has been settled, so every recorded process left by the crash has ended by then and only unrecorded ones are alive; the start is a run of the jobs' model, and for markers of distinct PIDs it happens if and only if each can be settled |
| `ServiceStart.StartIsARun` | `app/src/main/java/io/github/gplaider/tinyagent/LocalLinuxRuntime.java:386-412` | recovery and construction are exits of the recorded processes followed by the restart of the model, which its guard then allows |
| `Descriptors.HandOffDelivers` | `native/fd-gate/executor_fd.c:43-104` | for sources that are open, of any numbers, repeated or inside the target range, the new program starts with exactly descriptors 0 to 2 that survive exec and 3 + i naming source i, inheritable |
| `Descriptors.ParallelMove` | `native/fd-gate/executor_fd.c:58-78` | moving the copies down hands off exactly the sources: 0 to 2 unchanged, 3 + i is source i with close-on-exec clear, nothing from the count on |
| `Descriptors.DuplicationEffect` | `native/fd-gate/executor_fd.c:43-57` | a duplication run adds one new descriptor per source and changes nothing else |
| `Descriptors.DuplicationExact` | `native/fd-gate/executor_fd.c:46-57` | it succeeds if and only if enough descriptors are free and every source is open or among the lowest free numbers that the sources before it fill |
| `Descriptors.DuplicationFills` | `native/fd-gate/executor_fd.c:46-57` | the i-th duplicate is the i-th lowest free descriptor |
| `Descriptors.DuplicationSucceeds` | `native/fd-gate/executor_fd.c:47-57` | with every source open it succeeds if and only if enough descriptors are free |
| `Descriptors.ClosedSourcesRefused` | `native/fd-gate/executor_fd.c:48-56` | with descriptors enough, refusal means exactly that some source is closed and not among the lowest free numbers the sources before it fill |
| `Descriptors.ClosedSourceAliases` | `native/fd-gate/executor_fd.c:48-51` | a closed source that is not refused passes for the earlier one whose duplicate took its number |
| `Descriptors.PlanHandedTwice` | `native/fd-gate/executor_fd.c:48-51` | the case occurs: a closed manifest passes for the plan |
| `Descriptors.Process.DuplicateAll` | `native/fd-gate/executor_fd.c:44-57` | the loop computes the duplication, succeeds exactly as stated above, and on failure restores the table exactly |
| `Descriptors.Process.PlaceAll` | `native/fd-gate/executor_fd.c:58-73` | the second loop overlays the copies on the targets and never fails |
| `Descriptors.Process.MoveDown` | `native/fd-gate/executor_fd.c:58-76` | the second and third loop leave the original table with the targets replaced |
| `Descriptors.Process.HandOver` | `native/fd-gate/executor_fd.c:43-104` | refused and unchanged, stranded after the move, or executed with the inherited table |
| `Descriptors.Process.ExecCompact` | `native/fd-gate/executor_fd.c:37-104` | the move is made if and only if the arguments, the user and the memory allow it, enough descriptors are free and every source is open or will have been filled, with at most 1024 artifacts |
| `Descriptors.Process.ExecFixed` | `native/fd-gate/executor_fd.c:15-35` | the same for the plan alone, as descriptor 3 |
| `Descriptors.Process.TakeInherited` | `native/fd-gate/executor_fd.c:106-112` | marks the slot close-on-exec and returns a private duplicate |
| `Descriptors.Process.TakePlan` | `native/fd-gate/executor_fd.c:114-116` | takes slot 3 |
| `Descriptors.Process.TakeCompact` | `native/fd-gate/executor_fd.c:118-120` | takes slot 4 |
| `Descriptors.Process.TakeArtifact` | `native/fd-gate/executor_fd.c:122-125` | takes slot 5 + index, up to index 1023 |
| `Descriptors.TakesExact` | `native/fd-gate/executor_fd.c:106-125` | any series of takes, of slots handed over or not, of indices beyond the limit, or of numbers that are earlier duplicates: take j returns the next number if and only if it asks for something open and numbers last, and the table afterwards is the slots followed by the duplicates |
| `Descriptors.OnlyHandedOver` | `native/fd-gate/executor_fd.c:106-125` | no take, whatever it asks for, yields a description that was not handed over |
| `Descriptors.TakesHold` | `native/fd-gate/executor_fd.c:106-125` | take j of slots handed over returns the j-th number above the slots while numbers last, -1 from then on, and the slot's own description |
| `Descriptors.HandOffReceived` | `native/fd-gate/executor_fd.c:37-125` | end to end, what a take returns is the description the caller passed as the source of that slot |
| `Descriptors.SlotsUndisturbed` | `native/fd-gate/executor_fd.c:106-125` | whatever is taken, every slot keeps the description it was handed over with, and everything the program holds from 3 up is one of the sources |
| `Descriptors.TakesMark` | `native/fd-gate/executor_fd.c:106-112` | whatever is taken, a descriptor is marked close-on-exec if and only if it was before or was asked for within the index limit, and keeps its description |
| `Descriptors.TakenNotInherited` | `native/fd-gate/executor_fd.c:106-125` | a program that has taken its descriptors passes on neither one it asked for nor any duplicate, and everything else that was inheritable as it was |
| `Descriptors.ReceivedAsNamed` | `native/fd-gate/executor_fd.c:37-125` | by name: the plan, the manifest and artifact i are received as what the caller named plan, manifest and artifact i; an artifact that was not named is not received |
| `Descriptors.Process.Launch` | `native/dnfast-launch.c:172-192` | from the lock to the exec every table names the root's description, so the lock is never dropped, whatever fails on the way; it succeeds if and only if no file is refused and two descriptors are free from 10 up and four in all, and the runtime then starts with exactly the inheritable descriptors, the root on 5 and the context on 6 |
| `Descriptors.Process.StateDirectory` | `native/dnfast-launch.c:110-120` | the walk from a duplicate of the root to the state directory keeps everything open that was open, and succeeds if and only if every directory is accepted and descriptors suffice |
| `Descriptors.Process.SealedContext` | `native/dnfast-launch.c:138-162` | the context takes the lowest free descriptor and leaves no other behind |
| `Descriptors.Process.ReadIdentity` | `native/dnfast-launch.c:88-109` | reading or making the identity leaves the table as it was |
| `Descriptors.RoomLeft` | `native/dnfast-launch.c:172-185` | state and context take the two lowest free numbers, so two are left from 10 up exactly when there were two from 10 up and four in all |
| `Descriptors.Process.PublishLaunch` | `native/dnfast-launch.c:183-189` | at the exec descriptor 5 is the root and 6 the context, both inheritable, whatever numbers they had; every table on the way, also when it fails, names the root's description; it succeeds if and only if two descriptors are free from 10 up |
| `Descriptors.Process.MoveToFixed` | `native/dnfast-launch.c:186-188` | closing the originals and moving the safe duplicates leaves exactly the launch table |
| `RootIdentity.IdentityStable` | `native/dnfast-launch.c:88-109` | a root that has an identity keeps it through any launches interrupted anywhere, and one made by a launch is well formed |
| `RootIdentity.Launcher.RootId` | `native/dnfast-launch.c:88-109` | an existing identity is returned if valid and never replaced; where there is none, one is made if and only if its staging name is free and the calls write it all, and it appears whole, under its name, or not at all |
| `RootIdentity.Launcher.WriteAll` | `native/dnfast-launch.c:80-87` | short and interrupted writes add up to the whole text, and the staging file is always a prefix of it |
| `RootIdentity.HexIsHex` | `native/dnfast-launch.c:94-94` | the encoding of random bytes passes the check of the identity |
| `RootIdentity.HexValue` | `native/dnfast-launch.c:94-94` | the two digits of each byte say its value, the high half first |
| `RootIdentity.HexFaithful` | `native/dnfast-launch.c:92-98` | different random bytes make different identities |
| `RootIdentity.EnoughExactly` | `native/dnfast-launch.c:80-87` | writing succeeds if and only if some first calls, none of which takes nothing, add up to the bytes |
| `ApkDelta.Create` | `scripts/apk-delta.py:26-39` | the plan applies to the old file if and only if the copied entries follow each other inside the new one, which an ordered layout guarantees, and then gives exactly the new file; its copies are exactly the reusable entries, in order |
| `ApkDelta.Reconstruction` | `scripts/apk-delta.py:29-38` | the span loop: the spans stand for the new file if and only if the reused entries follow each other inside it, and copy exactly those |
| `ApkDelta.Locate` | `scripts/apk-delta.py:28-28` | the dictionary keeps, for each name, the last entry of that name |
| `ApkDelta.PreviousExactly` | `scripts/apk-delta.py:28-28` | the dictionary knows exactly the names of the old entries, and for each the place of the last one |
| `ApkDelta.CopiedExactly` | `scripts/apk-delta.py:30-33` | an entry is copied if and only if it has 4096 bytes or more and is byte for byte the old file's last entry of its name |
| `ApkDelta.AppliesExactly` | `scripts/apk-delta.py:43-71` | a plan applies if and only if the file is the one it was made from and its spans stand for the promised bytes of the promised size |
| `ApkDelta.LayoutKept` | `scripts/apk-delta.py:30-37` | an ordered layout without overlap stays one when only the reused entries are kept |
| `ApkDelta.Reuse` | `scripts/apk-delta.py:31-37` | one reused entry keeps the loop's meaning: the new file up to the cursor, or too much |
| `ApkDelta.ReusedInside` | `scripts/apk-delta.py:31-33` | a reused payload is inside the old file exactly when it is inside the new one |
| `ApkDelta.Directory.Apply` | `scripts/apk-delta.py:43-70` | the output appears complete and right or not at all, a failure leaves every file as it was, and success is exactly a valid plan with neither output nor staging file present |
| `ApkDelta.Directory.WriteSpans` | `scripts/apk-delta.py:52-62` | the span loop writes what the spans stand for, and gives up only when that is nothing or too much |
| `ApkDelta.ExportPlan` | `scripts/apk-delta-android.py:14-30` | the exported payload and commands, refused for negative copies or a wrong total |
| `ApkDelta.ExportReplays` | `scripts/apk-delta-android.py:17-29` | the positioned copies, run in order on an empty file, write what the spans stand for |
| `ApkDelta.ExecutorsAgree` | `scripts/apk-delta-android.py:14-39` | a plan applies if and only if its copies lie inside the old file and the script accepts it, and then both give the same bytes |
| `ApkDelta.ScriptAcceptsMore` | `scripts/apk-delta-android.py:18-28` | the script accepts a plan with a copy past the end of the old file, which does not apply |
| `ShellFrames.RoundTrip` | `app/src/main/java/io/github/gplaider/tinyagent/AdbShellResult.java:8-26` | encoded frames and an exit status parse back to both concatenations and the status if and only if they carry less than 1 MiB; otherwise the limit is exceeded |
| `ShellFrames.PrefixRejectedFrom` | `app/src/main/java/io/github/gplaider/tinyagent/AdbShellResult.java:12-25` | every proper prefix of such a stream is rejected |
| `ShellFrames.AcceptedIsEncoded` | `app/src/main/java/io/github/gplaider/tinyagent/AdbShellResult.java:12-25` | every accepted stream begins with the encoding of some frames and an exit status, and the result is what they carry |
| `ShellFrames.Parse` | `app/src/main/java/io/github/gplaider/tinyagent/AdbShellResult.java:15-21` | an accepted result holds less than 1 MiB in all |
| `ShellFrames.Read` | `app/src/main/java/io/github/gplaider/tinyagent/AdbShellResult.java:8-26` | the reading loop computes the parse, with both buffers never above 1 MiB together |
| `ShellFrames.LengthBytes` | `app/src/main/java/io/github/gplaider/tinyagent/AdbShellResult.java:14-14` | the little-endian length decodes to itself |
| `ShellFrames.FrameLayout` | `app/src/main/java/io/github/gplaider/tinyagent/AdbShellResult.java:13-24` | where each byte of a frame stands: kind, length from its lowest byte on, data |
| `ShellFrames.RefusedFor` | `app/src/main/java/io/github/gplaider/tinyagent/AdbShellResult.java:13-23` | why a stream is refused, in terms of the bytes after its well-formed frames |
| `ShellFrames.ParseFrames` | `app/src/main/java/io/github/gplaider/tinyagent/AdbShellResult.java:24-24` | well-formed frames are gathered in order, and the rest is parsed with what they carried |
| `ProcessIdentity.IdentityExact` | `app/src/main/java/io/github/gplaider/tinyagent/RuntimeProcessIdentity.java:13-19` | a record matches a current stat line if and only if PID, boot ID and start time agree, whatever the two names contain |
| `ProcessIdentity.StartTicksOfStat` | `app/src/main/java/io/github/gplaider/tinyagent/RuntimeProcessIdentity.java:5-12` | the start time is read from a stat line with any process name |
| `ProcessIdentity.LinesOfRecord` | `app/src/main/java/io/github/gplaider/tinyagent/RuntimeProcessIdentity.java:14-14` | a record splits into its PID, boot ID and stat line, line breaks in the name notwithstanding |
| `ProcessIdentity.MatchesOnly` | `app/src/main/java/io/github/gplaider/tinyagent/RuntimeProcessIdentity.java:13-19` | any record at all matches only with three lines, the current boot ID, a PID that both stat lines begin with, and one start time |
| `ProcessIdentity.FirstLineEnds` | `app/src/main/java/io/github/gplaider/tinyagent/LocalLinuxRuntime.java:392-392` | a line ends at any line break, and a carriage return with its line feed is one |
| `ProcessIdentity.SamePid` | `app/src/main/java/io/github/gplaider/tinyagent/RuntimeProcessIdentity.java:15-16` | a stat line begins with a PID and a parenthesis only for that PID |
| `Recovery.LauncherRecordRecognised` | `app/src/main/assets/linux-launch.sh:5-10` | the record a launcher writes, trimmed as recovery does, is recognised exactly for the same process of the same boot, and never for a zombie |
| `Recovery.LauncherMarkerSettled` | `app/src/main/java/io/github/gplaider/tinyagent/LocalLinuxRuntime.java:389-410` | the marker of process n, as its launch script left it, names n; it is settled if and only if n is not 1 and no process of the user that it recorded runs under n before the signal or after it |
| `Recovery.UnreadableStays` | `app/src/main/java/io/github/gplaider/tinyagent/LocalLinuxRuntime.java:377-385` | a process of this user that cannot be told from the recorded one keeps its marker, and so does one whose record is of an older form |
| `Recovery.RecordedPidSays` | `app/src/main/java/io/github/gplaider/tinyagent/LocalLinuxRuntime.java:392-392` | the PID of a record is the decimal number of its first line, signed or not, if it fits in 32 bits, and otherwise there is none |
| `Recovery.NotANumber` | `app/src/main/java/io/github/gplaider/tinyagent/LocalLinuxRuntime.java:392-392` | a first line with anything but a sign and digits names no process |
| `Recovery.Runtime.Recover` | `app/src/main/java/io/github/gplaider/tinyagent/LocalLinuxRuntime.java:389-411` | one marker is removed if and only if it can be settled, and then no process of this user that it names runs; a signal goes only to a recognised process, and no other process changes |
| `Recovery.Runtime.RecoverPreviousProcesses` | `app/src/main/java/io/github/gplaider/tinyagent/LocalLinuxRuntime.java:386-412` | all markers in order up to the first that cannot be settled, every signal and deletion justified; when it returns, no process that any marker named still runs, only processes named by a marker have changed, and for markers of distinct PIDs it returns if and only if each can be settled |
| `ArchiveSafety.SafeMembers` | `scripts/prepare-fedora.py:19-36` | the check accepts if and only if every path is plain and distinct, every ancestor present is a directory and every hard link targets a regular file of the archive |
| `ArchiveSafety.SafeExtracts` | `scripts/prepare-fedora.py:19-36` | an accepted archive extracts into an empty root in any order with links after their targets without leaving it, writing through a non-directory or overwriting, and every member ends at its own path |
| `ArchiveSafety.StepContains` | `scripts/prepare-fedora.py:30-36` | one extraction step finds nothing in its way and adds exactly the member and directories above it |
| `ArchiveSafety.NonDirectoryAbove` | `scripts/prepare-fedora.py:31-32` | finds a non-directory ancestor if and only if there is one |
| `ArchiveSafety.SafeExactly` | `scripts/prepare-fedora.py:19-36` | what is accepted, in full: relative names without climbing parts and whiteouts, different paths, nothing below anything but directories, hard links only to regular files of the archive |
| `ArchiveSafety.PartsJoin` | `scripts/prepare-fedora.py:22-23` | a slash separates the parts before it from those after it |
| `ArchiveSafety.PartsOfComponent` | `scripts/prepare-fedora.py:22-23` | a text without slashes is its own only part, and an empty one or a dot has none |
| `CommandResult.Require` | `app/src/main/java/io/github/gplaider/tinyagent/DnfastResult.java:10-54` | the result is accepted if and only if no line is a truncated result, the last result is successful and fits the action, and, for a verification, every journal is listed once in an accepted state |
| `CommandResult.JournalsSettled` | `app/src/main/java/io/github/gplaider/tinyagent/DnfastResult.java:40-51` | the row loop accepts exactly well formed rows with distinct IDs and accepted states |
| `CommandResult.VerifyStricter` | `app/src/main/java/io/github/gplaider/tinyagent/DnfastResult.java:49-50` | a verification accepts exactly what the check before an upgrade accepts with no journal still prepared |
| `CommandResult.AcceptedExactly` | `app/src/main/java/io/github/gplaider/tinyagent/DnfastResult.java:10-53` | the gate in full, case by case: exit 0, no cut line, and the last result of the schema succeeded, answers the action, and for a verification lists journals of different IDs in accepted states |
| `Planning.Runtime.RunPackages` | `app/src/main/java/io/github/gplaider/tinyagent/LocalLinuxRuntime.java:292-305` | a call does exactly what is specified of it; the commands launched are the first ones of the planned order, each only after all before it succeeded; success means all of them; the recursion ends |
| `Planning.InstallLaunchedLast` | `app/src/main/java/io/github/gplaider/tinyagent/LocalLinuxRuntime.java:295-303` | without a current marker an installation is launched only after check, migrate, verify and refresh, with these arguments, have succeeded in that order in the same call |
| `Planning.Runtime.RunPackageCommand` | `app/src/main/java/io/github/gplaider/tinyagent/LocalLinuxRuntime.java:306-317` | the marker is saved exactly when a refresh succeeded with the same known identity before and after, and is always one some refresh succeeded with |
| `Planning.Runtime.RememberPlanning` | `app/src/main/java/io/github/gplaider/tinyagent/DnfastRuntime.java:127-134` | saves the identity if it is still the one before |
| `Planning.Runtime.Launch` | `app/src/main/java/io/github/gplaider/tinyagent/DnfastRuntime.java:91-107` | a command is launched only for the expected executables, and accepted only with exit 0 and an accepted result |
| `Planning.Continue` | `app/src/main/java/io/github/gplaider/tinyagent/LocalLinuxRuntime.java:297-301` | the four preparatory commands extend each other in order and stop at the first failure |
| `Planning.InstallTwice` | `app/src/main/java/io/github/gplaider/tinyagent/LocalLinuxRuntime.java:292-317` | the planning cache: in a known environment that stays as it is, an installation without a current marker launches five commands and leaves the marker current, and the next installation launches itself alone |
| `Planning.SteadyRun` | `app/src/main/java/io/github/gplaider/tinyagent/LocalLinuxRuntime.java:306-317` | in such an environment commands that are accepted all run, and a refresh among them sets the marker |
| `Planning.RefreshExactly` | `app/src/main/java/io/github/gplaider/tinyagent/LocalLinuxRuntime.java:306-317` | when a refresh succeeds, and when it sets the marker |
| `Planning.UnexpectedExecutables` | `app/src/main/java/io/github/gplaider/tinyagent/DnfastRuntime.java:91-94` | over executables that are not the expected ones nothing is launched and nothing changes |
| `Planning.UnreadableIdentity` | `app/src/main/java/io/github/gplaider/tinyagent/DnfastRuntime.java:109-114` | nor when an installation or a refresh cannot read the identity it is to begin with |
| `Planning.CommandedStops` | `app/src/main/java/io/github/gplaider/tinyagent/LocalLinuxRuntime.java:297-304` | after a command that fails nothing more is launched or changed |
| `Planning.IdentityExactly` | `app/src/main/java/io/github/gplaider/tinyagent/DnfastRuntime.java:109-120` | when a planning identity is known, and that it tells root identities and launcher arguments apart |
| `Planning.KeptExactly` | `app/src/main/java/io/github/gplaider/tinyagent/LocalLinuxRuntime.java:309-314` | of an output exactly the last line that begins an object and mentions the schema is kept |
| `Planning.KeptDecides` | `app/src/main/java/io/github/gplaider/tinyagent/LocalLinuxRuntime.java:309-315` | what the gate accepts of the kept line is the last result of the whole output |
| `LogReader.ShownSinceMarker` | `scripts/tinyagent-packages.py:48-56` | after every poll the text printed since the last marker is exactly the output polled, and there is a marker just when some output did not continue the one before |
| `LogReader.SmallLogShownOnce` | `scripts/tinyagent-packages.py:51-53` | while the whole log fits the tail every character is printed exactly once, in order |
| `LogReader.JobLogShown` | `scripts/tinyagent-packages.py:47-60` | what is shown of a package job ends with the tail of its log, and is the whole log as long as that is not truncated |
| `LogReader.Bridge.Follow` | `scripts/tinyagent-packages.py:46-60` | one submission, then status queries until the job has ended, printing the specified text |
| `LogReader.Bridge.Execute` | `scripts/tinyagent-packages.py:36-62` | status and cancellation make one call; otherwise the exit code is 0 exactly for a completed job and 2 exactly when a call failed |
| `LogReader.ArgumentsExactly` | `scripts/tinyagent-packages.py:43-47` | what is submitted is what was asked for, with the assumed yes after the first word of an installation |
| `LogReader.NewsExactly` | `scripts/tinyagent-packages.py:50-56` | what one poll adds to what is shown: the end of an output that goes on, or a notice and the whole output |
| `LogReader.LiveExactly` | `scripts/tinyagent-packages.py:57-57` | the client waits exactly as long as a start of the service would mark the row interrupted |

## Left out

- Permissions, owners and link counts of directories, SELinux labels, memfd seals, credentials and file modes: kernel facts the code only compares; a file with wrong metadata is one `Odd` item.
- SHA-256, base64, JSON, ZIP, gzip, tar and UTF-8 decoding: byte strings, decoded values and entry layouts are where the models begin.
- Durability of `fsync` itself: what has been written or renamed is taken to stay.
- Publication.Resumption: a run that meets other writers is not modelled; journals and all other files stay as they are between runs, apart from the native runs of `Preparation`.
- Device.Device.Upgrade: the opening and closing of directories, components that are no directories, and the archive member checks before line 89 are not modelled.
- Preparation.Unpack: the first installation is one step, without its copy and extraction, so a crash inside it is not modelled.
- Preparation.PrepareLocked: copying the helper scripts and looking for Python are not modelled; they change nothing the protocol depends on.
- AndroidJobs.Service.WorkerStep: the texts of output, error and exit code in a row, the wait between polls and the forced closing of an installation's connection are not modelled; the remote side may answer anything at each step.
- AndroidJobs.AtMostOnce: at most one service object per process is modelled, and saves succeed.
- PackageJobs.SingleWriter: the error text of a row is not specified, and saves succeed.
- PackageJobs.OverlapExactly: a service that is created again in the same app process before the task of a closed one has ended is not modelled.
- PackageJobs.OneCommandAtATime: the commands of one request, which run one after the other, count as one process.
- Descriptors.Process.Launch: the opening of the root before the lock is not modelled; what is read from an opened file is part of whether it is accepted, and the label is compared as on Android.
- Descriptors.Process.ExecCompact: the argument vector of the new program, its environment and its file mode mask are not modelled.
- Recovery.RecordedPidSays: digits other than the ASCII ones, which the original's number parser also takes, count as no digits.
- RootIdentity.Launcher.RootId: the metadata checks of the identity file other than its length and alphabet are not modelled, and the number of interrupted writes is bounded by the list given.
- ApkDelta.Directory.Apply: an undecodable span counts as a failed plan before the loop, and the output name check of the exporter is not modelled.
- ServiceStart.StartService: the steps of preparation after recovery are not modelled; any of them may still fail, and then there is no service.
- Recovery.Runtime.Recover: the gap between the identity check and the signal is one step, and until the deadline only the signalled process may change.
- ArchiveSafety.SafeExtracts: contents and metadata of members are not modelled beyond which member a regular file came from.
- CommandResult.Require: decoding of a line and of the message are given; fields of unexpected types count as different text.
- Planning.Runtime.RunPackages: cancellation and the messages printed are not modelled; each launched command may change the environment in any way.
- LogReader.Bridge.Execute: the responses are a list, and a call beyond it counts as lost; the printed job ID and final row are not modelled.
- `LocalLinuxRuntime.start`, `cancel`, `stop` and `forget`: bookkeeping of a process map whose only hard step, the identity check before a signal, is in `Recovery`.
- Activities, notifications, WebView, ADB, TLS and HTTP transports, the remote job script, device checks, benchmarks and download scripts: user interface, foreign libraries or one-shot comparisons.
- `LocalPolicy`, `check-release.py` and the archive reader of `stage-proot.py`: they would only add easy members.
