# A verified model of the InfluxDB operator

The operator runs three controllers against a Kubernetes cluster. This project models what they do to the cluster,
to the pods' file systems, to the operator's own directory and to the object stores, and proves what a user of the
operator relies on.

**Influxdb controller** (`Kube`, `InfluxdbController`, `InfluxdbSafety`, `InfluxdbConvergence`, `InfluxdbCalm`,
`InfluxdbQueue`, `InfluxdbWatch`, `InfluxdbWiring`). A pass of `Reconcile` is a machine that makes one API call per
step on a versioned object store. Reads come from a cache of any age; a call may be lost, or may take effect and
still report an error; other writers, other passes and crashes come in between. The imperative code is proved to
drive the cluster exactly as the machine does. On the machine: user edits are never lost, the controller changes
only what it may and writes only values taken from states the cluster has held, CRs do not disturb each other, and
every set of CRs converges within a stated number of passes under any faults and stale reads, with and without the
watches that feed the controller's own writes back to it. What a pass without trouble does is given field by field;
the objects it makes refer to each other; and while others edit the cluster as they like, the watches lose no
wake-up, so that outside edits are repaired.

**Paths and archives** (`Paths`, `FileTree`, `Copy`, `Archive`, `TreeCopy`, `ArchiveSafety`). Path cleaning is a
walk on a stack of components. `untarAll` is a loop over archive members; unpacking the archive of a directory is
proved to lay its tree over whatever the destination holds, whichever way tar spells the names, with the exact
condition under which it succeeds; and whatever an archive holds, nothing outside the destination is touched. File
specs are parsed and printed.

**Backups and restores** (`Storage`, `Remote`, `Backup`, `Restore`, `Commands`, `RestorePaths`, `Coupling`,
`CouplingBackup`, `BackupSuccess`, `BackupOutcome`, `RestoreOutcome`, `CouplingRuns`, `RestoreLoop`, `RestoreRetry`,
`RoundTrip`, `Providers`, `ProviderSections`, `PageOverflow`, `RestartRun`, `RestoreContained`, `Interleaved`,
`InterleavedPasses`, `InterleavedRestore`). Backups and restores are one transition system over pods, the operator's
directory, the buckets and the mutable `RestoreDir`, in which a panic restarts the operator. An invariant couples
them name by name in every reachable state, however each pass ended. From it follow the survival of old backups, the
round trip from a backup to its restore, and when it is exact. The restore loop is also proved to copy a prefix of
its list when cut short, and repeated passes to end where one would, with the exact condition. A backup and a
restore that nothing stops succeed. A second, finer machine lets the two controllers run side by side, file by file
and key by key; every run of whole passes is one of its runs, the invariant holds at each of its points, and a
restore among backups brings back what one alone does.

**Deep copies, informers, conditions** (`DeepCopy`, `Informers`, `Conditions`). Copies on the heap that share
nothing; an informer factory under every interleaving of its critical sections; and a condition list that is a map
with a history.

`Basics` holds the shared small types. Run `dafny verify dfyconfig.toml`.

## Assumptions

* `Spec.Pod` and its claim are not nil, stored `Replicas` is not nil, and List answers in a stable order.
* The controller lists PodTemplate objects, not Pods, and so does the model.
* The convergence results are about a cluster in which only the controller writes. It may start from any contents;
  from then on its reads may be as old as that start, and each stale read counts like a failed call.
* The results about outside edits take the stateful set named like a CR to be owned by it, as those that the controller
  makes are, and a pass to read a cache that has seen what put its request in the queue.
* Every successful Update gives the object a new version, also one that changes nothing.
* In the backup and restore system passes of one controller do not overlap, as its queue guarantees. `Coupling` takes
  each pass as one step; `Interleaved` takes the two controllers side by side, with the moves of the one between the
  files or keys of the other. The second that names a backup is new; file names hold no slash; tar and ReadDir list
  what is there, in any order; buckets hold only what backups stored. `ContainerName` and `Containers[0]` see the same
  volume.
* A panic ends the process, since controller-runtime panics again after logging it. The deployment starts another one,
  and as it mounts no volume the container then has its image's files and `RestoreDir` its initial value.
* Namespaces and pod names hold neither `:` nor `/`, as Kubernetes guarantees; the operator's temporary
  directory is a rooted path without `:`.
* Faults, clock readings, credentials, the answers of tar and of the commands are parameters.

## Results that are conditions

* `Copy.FileSpecReprints`: an accepted file spec prints back to itself exactly unless it has a pod part and
  starts with a slash.
* `TreeCopy.MemberNameCut`: the slice in `untarAll` is out of bounds exactly for a lone file whose leading slash
  tar stripped.
* `TreeCopy.ExtractionOverlays`: unpacking over a destination succeeds exactly if no name is a file on one side
  and a directory on the other.
* `RoundTrip.WholeIffOnePage`: only the first page of S3's listing is read, and common prefixes take up room on it.
  A backup of non-empty files comes back whole exactly if its files and the common prefixes listed before the last
  of them fit on a page of 1000; where no other backup's folder is nested below it, exactly if it has at most 1000
  files. `PageOverflow.FilesFallOffThePage` is a run with more. Zero-length files are never copied.
* `BackupOutcome.StoredBackup` and `UnstoredBackup`: exactly when a backup reports success, for each kind of provider;
  `BackupOutcome.FailedCommand`: without a command that succeeded nothing is copied or uploaded.
* `InfluxdbWatch.NoWakeUpLost`: it needs stateful sets to be owned; `InfluxdbWatch.UnownedWakesNobody` shows an edit of
  one without owner that wakes nobody.
* `CouplingRuns.RestoreDirSwitches`: RestoreDir is switched exactly if a pv restore got past its setup since the
  operator was last restarted; `RestartRun.SwitchLost` is a run in which a Backup with an empty list of databases
  undoes it.
* `RestoreRetry.RetriesEndTheSame`: a retry ends as one uninterrupted pass exactly if RestoreDir had not been switched
  or nothing restarted the operator meanwhile. A failed fetch from S3 restarts it, as `CouplingRuns.RestorePanics`
  says; `RestartRun.RetryAfterPanic` is a run in which the retry then runs another command.
* `RestoreContained.ContainedExactly`: the files of a restore are all below RestoreDir exactly if no listed key,
  cleaned, leads out of it. So it is on S3 for every proper backup id, and on both providers where no folder of a
  backup has a `..` in it; `RestoreContained.Escapes` is an input on which it is not.
* `Providers.SiblingsLandApart`: GCS also lists ids that extend the requested one; S3 does not.
* The watches make the bound on passes larger: F + 2N without them, F + 5K with them, where F counts the
  calls that fail and the reads that are stale, and K the queued requests and the owners of stateful sets.

## Model

| member | source | states |
|---|---|---|
| Kube.Client.Send | pkg/controller/influxdb/influxdb_controller.go:71-75 | a call is answered by the API under the next scripted interference, staleness and fault |
| InfluxdbController.ReconcileInfluxdb.Reconcile | pkg/controller/influxdb/influxdb_controller.go:87-182 | a whole pass leaves the cluster, the script and the result exactly as the call-by-call machine does |
| InfluxdbController.ReconcileInfluxdb.ReconcileService | pkg/controller/influxdb/influxdb_controller.go:185-220 | the service part, with the version refreshed by its status update, is the machine from reading the Service to reading the claim |
| InfluxdbController.ReconcileInfluxdb.ReconcileClaim | pkg/controller/influxdb/influxdb_controller.go:223-259 | the claim part is the machine from reading the claim to reading the stateful set |
| InfluxdbController.ReconcileInfluxdb.ReconcileSet | pkg/controller/influxdb/influxdb_controller.go:124-155 | create and requeue, scale and requeue, or go on, exactly as the machine |
| InfluxdbController.ReconcileInfluxdb.ReconcileNodes | pkg/controller/influxdb/influxdb_controller.go:156-182 | list the templates, update Status.Nodes only if the names differ |
| InfluxdbController.GetPodNames | pkg/controller/influxdb/influxdb_controller.go:408-414 | nil exactly for no templates, and else their names in order |
| InfluxdbSafety.RunKeepsInv | pkg/controller/influxdb/influxdb_controller.go:87-182 | in every run with any number of passes, stale reads, faults and other writers, an object in memory differs from the stored one of its version only by the pending edit |
| InfluxdbSafety.StepEffect | pkg/controller/influxdb/influxdb_controller.go:87-182 | one step makes at most one permitted change: an object that is missing is made with, field by field, what a version of the CR that the cluster has held asks for; Replicas are set to its size; or one status field is written |
| InfluxdbSafety.StepsArePermitted | pkg/controller/influxdb/influxdb_controller.go:124-259 | the same for every controller step of every run, the values coming from the states before that step |
| InfluxdbSafety.NoLostUpdates | pkg/controller/influxdb/influxdb_controller.go:143-178 | in every reachable state every CR spec is the one a user wrote last |
| InfluxdbSafety.ServiceKeyInjective | pkg/controller/influxdb/influxdb_controller.go:362-381 | different CRs have differently named Services |
| InfluxdbSafety.OthersUntouched | pkg/controller/influxdb/influxdb_controller.go:185-281 | in every run a step of a pass for one CR leaves CR, Service and StatefulSet of every other CR as they were |
| InfluxdbConvergence.PassLeavesOthers | pkg/controller/influxdb/influxdb_controller.go:87-182 | a whole pass for one CR while nobody else writes, whatever stops it, leaves the CR, the Service and the StatefulSet of every other CR and every claim as they were |
| InfluxdbSafety.SelectorSeparates | pkg/controller/influxdb/influxdb_controller.go:362-405 | a Service selects the pod template of a stateful set if and only if the CR names are equal |
| InfluxdbSafety.ClaimKeptForever | pkg/controller/influxdb/influxdb_controller.go:223-259 | a claim that is there at any point of a run, with any passes under way, keeps its spec and owner to the end, however many CRs name it |
| InfluxdbSafety.FirstCreatorKept | pkg/controller/influxdb/influxdb_controller.go:223-259 | the step that creates a claim stores what its CR asks for with that CR as owner, and this stays so, also against passes that found the claim missing before |
| InfluxdbSafety.PassIsARun | pkg/controller/influxdb/influxdb_controller.go:87-182 | what the imperative pass does is one of the runs the safety results are about: it begins from a state without passes and makes its calls |
| InfluxdbSafety.ErrorsAreRefusals | pkg/controller/influxdb/influxdb_controller.go:87-260 | whatever goes on around it, a pass reports an error exactly if one of its calls was refused or lost; such a call ends it |
| InfluxdbSafety.BuiltFits | pkg/controller/influxdb/influxdb_controller.go:262-406 | the Service, the claim and the stateful set that the controller builds have, field by field, what the CR asks for |
| InfluxdbConvergence.StartIsSound | pkg/controller/influxdb/influxdb_controller.go:87-182 | the convergence results apply to any contents of the cluster to begin with |
| InfluxdbConvergence.QuietPass | pkg/controller/influxdb/influxdb_controller.go:87-182 | without other writers a pass errs only if a call fails or a read is stale, requeues only after making the stateful set ready, is done only when converged, and writes nothing exactly when all was in place |
| InfluxdbCalm.CalmPass | pkg/controller/influxdb/influxdb_controller.go:87-260 | a pass without trouble, field by field: what is missing is made, a name goes into the status exactly if its object was made, Replicas are set, node names are written if the set was right; done exactly in that case, else run again |
| InfluxdbCalm.NodeNamesAre | pkg/controller/influxdb/influxdb_controller.go:156-182 | the names stored are those of the templates that carry the CR's labels, in order, and nil for none |
| InfluxdbQueue.ConvergesUnderFaults | pkg/controller/influxdb/influxdb_controller.go:87-182 | N queued CRs, any cluster, any order, and F calls that fail or are answered from a stale cache: at most F + 2N passes, and all have converged when the queue is empty |
| InfluxdbQueue.VisitReducesDebt | pkg/controller/influxdb/influxdb_controller.go:50-64 | with the watches every pass without fault or stale read lowers queue length plus twice the work left, although writes enqueue requests, and no pass raises it |
| InfluxdbQueue.FeedbackLoopEnds | pkg/controller/influxdb/influxdb_controller.go:50-64 | the feedback loop ends within F + 5K passes, everything has converged, and no further pass writes anything, whatever fails or is stale in it |
| InfluxdbWatch.NoWakeUpLost | pkg/controller/influxdb/influxdb_controller.go:50-66 | over any run of passes and of other writers' changes, before and within passes, every CR whose stateful set is missing or has the wrong size is in the queue |
| InfluxdbWatch.EditsAreRepaired | pkg/controller/influxdb/influxdb_controller.go:50-66 | once the others stop, at most F + 5K passes are made, and when the queue is empty every stateful set has its CR's size and every queued CR has converged |
| InfluxdbWatch.UnownedWakesNobody | pkg/controller/influxdb/influxdb_controller.go:58-61 | the limit: an edit of a stateful set without owner reaches no queue |
| InfluxdbWiring.MadeSetsAreWired | pkg/controller/influxdb/influxdb_controller.go:262-406 | after any run of passes, a stateful set that the controller made for a converged CR is governed by the CR's own Service, runs its image and mounts its claim, both of which are stored, and the Service selects its pods |
| Paths.CleanRooted | pkg/remote/copy.go:258-262 | cleaning a rooted path is idempotent and keeps where the path leads |
| Paths.ResolveGood | pkg/remote/copy.go:258-262 | cleaning leaves no empty and no dot component |
| Paths.ResolveConcat | pkg/remote/copy.go:165-166 | joining continues the walk of the second path from where the first one leads |
| Paths.DirOfRender | pkg/remote/copy.go:166-169 | the parent of a clean rooted path is the path without its last component |
| Copy.FileSpecRoundTrip | pkg/remote/copy.go:125-148 | parsing `ns/pod:file` gives back the three parts for every file string, colons included |
| Copy.FileSpecReprints | pkg/remote/copy.go:125-148 | exactly which accepted arguments print back to themselves, and what the others mean |
| Copy.AcceptedExactly | pkg/remote/copy.go:125-148 | an argument is accepted exactly if it has no colon, or does not start with one and has at most one slash before it |
| FileTree.PutEffect | pkg/remote/copy.go:84-119 | making the parent and writing a file changes that file, adds directories above it, and nothing else |
| FileTree.PutSucceeds | pkg/remote/copy.go:84-119 | it succeeds if no ancestor is a file and the place is not a directory |
| Archive.FileSystem.UntarOne | pkg/remote/copy.go:163-205 | one round of the extraction loop, with Go's slice-bounds panic, is the step function |
| Archive.FileSystem.UntarAll | pkg/remote/copy.go:150-214 | the loop is the fold of the step over the members, and no members is an error |
| Archive.LexicalPlacement | pkg/remote/copy.go:165-186 | whatever dots and slashes a name holds, the output path is clean and at or below the cleaned destination |
| ArchiveSafety.UntarIsContained | pkg/remote/copy.go:150-214 | whatever an archive holds and wherever unpacking stops, nothing outside the destination changes but directories made on the way to it, nothing is removed, and only a name shorter than the prefix panics |
| ArchiveSafety.LoneFileUnpacks | pkg/remote/copy.go:150-214 | the archive of one file goes into the destination if that is a directory, else to the destination itself; exactly when that succeeds |
| TreeCopy.MemberNameCut | pkg/remote/copy.go:61-63 | both spellings of a member name leave the same relative path, and when exactly the cut is out of bounds |
| TreeCopy.ExtractIsPlace | pkg/remote/copy.go:163-205 | for the archive of a directory the loop's step writes one node at its re-rooted place; the special case of entry 0 never applies |
| TreeCopy.ExtractionOverlays | pkg/remote/copy.go:150-206 | over whatever the destination holds, unpacking the archive of a directory succeeds if and only if no name is a file on one side and a directory on the other; it lays the tree over the destination and changes nothing else |
| TreeCopy.ExtractionCopiesTree | pkg/remote/copy.go:150-206 | into a destination that holds nothing yet it always succeeds and leaves the tree re-rooted there |
| Storage.ListGcs | pkg/storage/gcs_storage.go:153-173 | the loop collects the keys with the prefix, in order |
| Storage.ListS3 | pkg/storage/s3_storage.go:94-101 | the loop keeps the objects of the answer, in order, and drops its common prefixes |
| Storage.FirstPage | pkg/storage/s3_storage.go:84-101 | the listing is a beginning of the keys directly below the folder, and all of them if and only if they and the common prefixes before the last of them fit on one page |
| Storage.FlatPage | pkg/storage/s3_storage.go:84-101 | where nothing lies deeper, the listing is the first 1000 keys below the folder |
| Storage.PrefixesListed | pkg/storage/s3_storage.go:84-101 | the answer holds each common prefix of the deeper keys once, and no entry twice |
| Storage.GcsMembers | pkg/storage/gcs_storage.go:153-173 | a key is listed if and only if it is stored and starts with the string |
| Storage.S3Members | pkg/storage/s3_storage.go:84-101 | a key is found if and only if it is stored one level below the folder |
| Storage.KeyInjective | pkg/controller/backup/backup_controller.go:227-253 | a key determines folder, time and file |
| Remote.K8sClient.CopyFromK8s | pkg/remote/copy.go:29-64 | the new host and the result of copying a directory out of a pod |
| Remote.K8sClient.CopyToK8s | pkg/remote/copy.go:66-123 | mkdir, then tar: the new host and the result of copying a file into a pod, also when only the directory was made; empty files are skipped |
| Remote.ReceivedShape | pkg/remote/copy.go:84-122 | the pod is left as it was, with the file's directory, or with the file; the last, which alone is a success, exactly if tar succeeds, the file has a name and a directory, and there is room for it |
| Backup.ReconcileBackup.BuildCommand | pkg/controller/backup/backup_controller.go:170-200 | the flags in order under their conditions; the panic on an empty, non-nil database list |
| Commands.BackupCommandSays | pkg/controller/backup/backup_controller.go:170-200 | read back pair by pair, the command says exactly what the Backup asks for, each option at most once and with its own value; there is none exactly for an empty list of databases |
| Backup.ReconcileBackup.RunBackup | pkg/controller/backup/backup_controller.go:167-225 | what the command leaves in the pod, also when it fails, and that an empty list of databases is a panic |
| Backup.ReconcileBackup.StoreFolder | pkg/controller/backup/backup_controller.go:227-253 | the upload loop of S3 stores exactly a prefix of the files; the loop of GCS is the same |
| Backup.ReconcileBackup.Reconcile | pkg/controller/backup/backup_controller.go:74-164 | the new host and the result of a whole backup pass: success, error or panic |
| Restore.ReconcileRestore.constructor | pkg/controller/restore/restore_controller.go:25 | RestoreDir starts as the restore directory |
| Restore.ReconcileRestore.BuildCommand | pkg/controller/restore/restore_controller.go:184-211 | the flags in order and the directory of the current RestoreDir |
| Commands.RestoreCommandSays | pkg/controller/restore/restore_controller.go:184-211 | read back pair by pair, the command says exactly what the Restore asks for, each option at most once and with its own value |
| Restore.ReconcileRestore.CopyKeys | pkg/controller/restore/restore_controller.go:116-139 | the copy loop from any state: it succeeds if and only if it got through the list, and panics where an S3 fetch failed |
| Restore.ReconcileRestore.Reconcile | pkg/controller/restore/restore_controller.go:77-229 | host, RestoreDir, command run and result, success, error or panic, of a whole restore pass |
| RestorePaths.KeyLandsOn | pkg/controller/restore/restore_controller.go:116-129 | whatever folder, id, namespace and pod a Restore holds, a listed key lands on a path ending in its own id and file name, or in the file name below RestoreDir |
| RestorePaths.OwnKeyLandsOn | pkg/controller/restore/restore_controller.go:116-129 | a backup's own key lands at RestoreDir/id/name in the named pod, through parsing and cleaning |
| Coupling.RestoreKeepsInv | pkg/controller/restore/restore_controller.go:100-211 | a restore pass of any provider, stopped anywhere or ended by a panic and a restart, keeps the coupling invariant |
| Coupling.RestartKeepsInv | pkg/controller/restore/restore_controller.go:25 | a restart, at any point, keeps the coupling invariant |
| CouplingBackup.CopyOut | pkg/controller/backup/backup_controller.go:105-126 | copying a backup out succeeds exactly if tar does and the pod is there; it either changes nothing or leaves a copy of the pod's directory |
| CouplingBackup.CopyHolds | pkg/controller/backup/backup_controller.go:105-126 | that copy has the same files with the same contents, and only proper names |
| CouplingBackup.UploadedEffect | pkg/controller/backup/backup_controller.go:236-250 | an upload keeps every other object, stores only local files, and all of them if it succeeds |
| CouplingBackup.FreshKey | pkg/controller/backup/backup_controller.go:227-253 | no stored key is a key of a backup taken at a new second |
| CouplingBackup.BackupKeepsInv | pkg/controller/backup/backup_controller.go:74-164 | a backup pass, successful, stopped anywhere or ended by a panic and a restart, keeps the coupling invariant and every object stored before |
| CouplingBackup.AfterBackupInv | pkg/controller/backup/backup_controller.go:167-177 | a backup pass panics exactly on an empty list of databases that is not nil, once past its setup |
| BackupSuccess.BackupSucceeds | pkg/controller/backup/backup_controller.go:74-164 | a backup whose command leaves its files in a new directory of the pod succeeds if nothing faults |
| BackupOutcome.FailedCommand | pkg/controller/backup/backup_controller.go:94-103 | unless its command was given, found its pod and succeeded, a backup does not succeed, and nothing is copied or uploaded |
| BackupOutcome.UnstoredBackup | pkg/controller/backup/backup_controller.go:74-164 | a backup that is stored nowhere succeeds exactly if its command does and the local folder can be made |
| BackupOutcome.StoredBackup | pkg/controller/backup/backup_controller.go:74-164 | a backup to s3 or gcs reports success exactly if clients, command, bucket and tar were all right and everything found in the copy is a file and was sent |
| CouplingRuns.ReachableInv | pkg/controller/restore/restore_controller.go:100-211 | the coupling invariant holds in every state reachable by backups, restores and restarts |
| CouplingRuns.RunKeepsInv | pkg/controller/backup/backup_controller.go:74-164 | every run, restarts included, keeps the invariant, all records and all stored objects |
| CouplingRuns.CompleteAgrees | pkg/controller/backup/backup_controller.go:105-156 | for a complete backup, the stored objects, its directory in its pod and every restored file agree name by name, also after RestoreDir has switched |
| CouplingRuns.OldBackupsSurvive | pkg/storage/gcs_storage.go:193-217 | every complete backup agrees name by name in every later state |
| CouplingRuns.RestoreDirSwitches | pkg/controller/restore/restore_controller.go:162-164 | RestoreDir takes two values and is the backup directory exactly if a pv restore got past its setup since the operator was last restarted |
| CouplingRuns.RestorePanics | pkg/controller/restore/restore_controller.go:119-121 | a restore pass panics exactly if it is on S3 and fetching the key that its loop has got to fails |
| RestartRun.SwitchLost | pkg/controller/backup/backup_controller.go:174-177 | a run in which the switch is lost: backup, pv restore, Backup with an empty list of databases |
| CouplingRuns.PvRunsOnBackup | pkg/controller/restore/restore_controller.go:162-215 | after any run, a pv restore by id into the running pod of its backup runs its command on the directory that the backup command wrote, and that directory holds exactly the files of the backup |
| RestoreOutcome.UntargetedPass | pkg/controller/restore/restore_controller.go:162-215 | a pv restore, or one of an unknown provider, runs its command exactly if the clients are made and the pod is running, however often it was run; it succeeds exactly if the command does, and changes no file |
| RestoreOutcome.CommandNeeds | pkg/controller/restore/restore_controller.go:100-228 | no restore runs its command without clients, listing and running pod, and one succeeds exactly if its command ran and succeeded |
| RoundTrip.CommandRunsOn | pkg/controller/restore/restore_controller.go:128-211 | the command of an s3 or gcs restore runs on the directory in which every place of the backup lies |
| RestoreLoop.KeysPlaced | pkg/storage/gcs_storage.go:227-249 | the loop over keys changes one pod only, as a sequence of puts |
| RestoreLoop.PlacedAt | pkg/storage/gcs_storage.go:227-249 | what a pass leaves at any one path: the content of the keys that land there, or what was there |
| RestoreLoop.CopiesPrefix | pkg/controller/restore/restore_controller.go:116-139 | a stopped pass has laid exactly a prefix of its keys over the tree, plus at most the directory of the next file; a full pass all of them |
| RestoreLoop.RetryConverges | pkg/controller/restore/restore_controller.go:116-139 | a pass after a stopped one succeeds if and only if one pass from the start would have, and leaves the same tree |
| RestoreRetry.PassShape | pkg/controller/restore/restore_controller.go:100-211 | a restore pass is that loop over one pod, and runs the command if and only if the loop got through the list and the pod is running |
| RestoreRetry.CommandAfterWholeList | pkg/controller/restore/restore_controller.go:116-215 | the restore command runs only after every listed key was copied; a stopped pass copied exactly a prefix |
| RestoreRetry.RetriesEndTheSame | pkg/controller/restore/restore_controller.go:100-215 | after any number of passes that end anywhere, panics and restarts included, a pass without faults ends as one uninterrupted pass, exactly if RestoreDir had not been switched or the operator was not restarted |
| RestartRun.RetryAfterPanic | pkg/controller/restore/restore_controller.go:119-129 | a run in which a retry ends otherwise: backup, pv restore, failed fetch; before and after it the same restore succeeds, with different commands |
| RoundTrip.RestoredPlaces | pkg/controller/restore/restore_controller.go:108-139 | a restore by own folder and id writes exactly the listed non-empty files, byte for byte, no other name in the directory and no other pod |
| RoundTrip.RestoredElsewhere | pkg/controller/restore/restore_controller.go:108-139 | a pass of any id, stopped anywhere, changes no file of the pod except at places named after a recorded backup's id and file |
| RestoreContained.WalkApplied | pkg/controller/restore/restore_controller.go:128-129 | cleaning the rest of a key does not change where it leads from any directory |
| RestoreContained.RestoreIsContained | pkg/controller/restore/restore_controller.go:108-139 | if no listed key leads out of RestoreDir, a pass of any id, stopped anywhere, changes no file outside it |
| RestoreContained.ContainedExactly | pkg/controller/restore/restore_controller.go:108-139 | a pass that gets to its command has put every file in its place, and all places are below RestoreDir if and only if no key leads out |
| RestoreContained.PlainFoldersContain | pkg/storage/gcs_storage.go:219-239 | where no folder of a backup in the bucket has a `..` in it, no key leads out, on either provider, whatever folder and id the Restore has |
| RestoreContained.S3RestoresInto | pkg/controller/restore/restore_controller.go:108-139 | on S3 a pass whose backup id is a proper name changes only files directly in RestoreDir/id |
| RestoreContained.Escapes | pkg/controller/restore/restore_controller.go:128-129 | the input that leads out: a folder and an id that go up; both providers list the keys, and they land outside RestoreDir |
| RoundTrip.RestoresOnlyOwn | pkg/controller/restore/restore_controller.go:108-139 | a pass that lists only the requested backup's keys changes no file outside RestoreDir/id |
| RoundTrip.S3ListsOnlyOwn | pkg/storage/s3_storage.go:84-101 | S3 lists only keys of the requested backup |
| RoundTrip.RestoredExactly | pkg/controller/restore/restore_controller.go:108-139 | after it RestoreDir/id holds exactly the backup's files, zero-length ones skipped, on GCS and where the backup fits on one page on S3; the command runs on that directory |
| RoundTrip.UnnestedPage | pkg/storage/s3_storage.go:84-101 | where no backup's folder is nested below, a backup fits on one page if and only if it has at most 1000 files |
| RoundTrip.WholeIffOnePage | pkg/storage/s3_storage.go:84-101 | on S3 a backup of non-empty files comes back whole if and only if it fits on one page, common prefixes counted |
| PageOverflow.FilesFallOffThePage | pkg/storage/s3_storage.go:84-101 | for every number of files beyond a page, under short names: a run from the start in which backup and restore succeed without a fault and a file is still missing |
| PageOverflow.AStart | pkg/storage/s3_storage.go:84-101 | there is such a start |
| RoundTrip.EndToEnd | pkg/controller/backup/backup_controller.go:105-156 | from a successful backup, over any later run, to its restore: the directory that the restore command runs on holds what the backup command wrote |
| RoundTrip.RestoreSucceeds | pkg/controller/restore/restore_controller.go:100-228 | without faults and with nothing in the way such a restore succeeds |
| Interleaved.MovedKeepsInv | pkg/controller/backup/backup_controller.go:105-156 | every single move of either controller, or a crash, keeps the coupling invariant and what the other pass under way relies on |
| Interleaved.InterleavedKeepsInv | pkg/controller/backup/backup_controller.go:227-253 | so does every interleaving of the moves; records stay and only become complete, no stored object is lost or changed |
| Interleaved.BackupsSurvive | pkg/storage/gcs_storage.go:193-217 | from the start, under every interleaving, every complete backup agrees name by name then and ever after |
| InterleavedPasses.AtomicIsInterleaved | pkg/controller/backup/backup_controller.go:74-164 | every run of whole passes and restarts is a run of the interleaved machine |
| InterleavedRestore.InterleavedRoundTrip | pkg/controller/restore/restore_controller.go:108-139 | a restore of a complete backup that lists it whole, with any moves of backups between its keys: when its command is due, RestoreDir/id holds the files of the backup |
| Providers.ProvidersAgree | pkg/storage/s3_storage.go:84-101 | on a bucket of backups under one folder both providers find the same keys; S3 lists the first page of them |
| Providers.GcsListsOnlyOwn | pkg/storage/gcs_storage.go:153-173 | there GCS too lists only keys of the requested backup |
| Providers.SiblingsLandApart | pkg/storage/gcs_storage.go:219-239 | a sibling id with the requested one as prefix is listed by GCS, not by S3, and restored into its own directory |
| ProviderSections.BackupWritesWhere | pkg/controller/backup/backup_controller.go:105-156 | a backup changes objects of its own provider's bucket only, under that section's folder, its own id and the name of a file it found |
| ProviderSections.RestoreReadsWhere | pkg/controller/restore/restore_controller.go:100-139 | the result of a restore depends on nothing in the buckets but the objects under its own provider's folder and its id |
| DeepCopy.CopyMap | pkg/apis/influxdata/v1alpha1/zz_generated.deepcopy.go:226-232 | copying a map entry by entry gives the same map in a new object; nil stays nil |
| DeepCopy.CopySlice | pkg/apis/influxdata/v1alpha1/zz_generated.deepcopy.go:238-244 | copying a slice of structs element by element: same values, all of it new |
| DeepCopy.CopyPodPolicy | pkg/apis/influxdata/v1alpha1/zz_generated.deepcopy.go:301-324 | the shallow alias is repaired field by field: same value, all new |
| DeepCopy.CopyInfluxdbSpec | pkg/apis/influxdata/v1alpha1/zz_generated.deepcopy.go:224-251 | the same for InfluxdbSpec |
| DeepCopy.CopyInfluxdbStatus | pkg/apis/influxdata/v1alpha1/zz_generated.deepcopy.go:264-272 | the same for InfluxdbStatus |
| DeepCopy.CopyInfluxdb | pkg/apis/influxdata/v1alpha1/zz_generated.deepcopy.go:163-170 | the same for Influxdb |
| DeepCopy.CopyInfluxdbList | pkg/apis/influxdata/v1alpha1/zz_generated.deepcopy.go:191-203 | the list copy is equal, all it reaches is new, and its items share nothing even where the source's do |
| DeepCopy.DeepCopyInfluxdbList | pkg/apis/influxdata/v1alpha1/zz_generated.deepcopy.go:206-213 | nil gives nil, otherwise an equal list none of whose reachable heap existed before |
| DeepCopy.Unseen | pkg/apis/influxdata/v1alpha1/zz_generated.deepcopy.go:191-213 | writes outside a list's own objects are not seen through it |
| DeepCopy.CopyBackupSpec | pkg/apis/influxdata/v1alpha1/zz_generated.deepcopy.go:90-99 | the same for BackupSpec |
| DeepCopy.CopyBackup | pkg/apis/influxdata/v1alpha1/zz_generated.deepcopy.go:29-36 | the same for Backup |
| DeepCopy.CopyBackupList | pkg/apis/influxdata/v1alpha1/zz_generated.deepcopy.go:57-69 | the same for BackupList |
| Informers.SharedInformerFactory.InformerFor | pkg/generated/informers/externalversions/factory.go:147-167 | the informer of a type, made if there is none |
| Informers.SharedInformerFactory.Start | pkg/generated/informers/externalversions/factory.go:111-121 | the loop, in any order of the map, launches what is not yet started |
| Informers.SharedInformerFactory.TakeSnapshot | pkg/generated/informers/externalversions/factory.go:125-136 | the loop collects exactly the started types |
| Informers.SharedInformerFactory.WaitForCacheSync | pkg/generated/informers/externalversions/factory.go:124-143 | the report has exactly the types of the snapshot, each with the outcome of its own informer |
| Informers.OneInformerPerType | pkg/generated/informers/externalversions/factory.go:147-167 | over every sequence of critical sections two callers get the same informer if and only if they ask for the same type |
| Informers.LaunchedOnce | pkg/generated/informers/externalversions/factory.go:111-121 | in every reachable state an informer was launched once if its type is started, else never |
| Informers.StartRunsAll | pkg/generated/informers/externalversions/factory.go:111-121 | everything registered before a Start runs after it and from then on, and the map order does not matter |
| Informers.SnapshotIsStarted | pkg/generated/informers/externalversions/factory.go:124-143 | a snapshot names exactly the started types, with the informers that callers get |
| Conditions.GetBackupCondition | pkg/api/backup/util.go:26-36 | the first entry of the type and its place; -1 for none and for a nil status |
| Conditions.UpdateBackupCondition | pkg/api/backup/util.go:41-64 | the new list and the result for every argument, also one that is an element of the list |
| Conditions.UpdateResult | pkg/api/backup/util.go:41-64 | for an argument of the caller's own the result is true if and only if the list changed; for an element of the list its time moves on and the result is false |
| Conditions.IsBackupCompleteConditionTrue | pkg/api/backup/util.go:73-82 | true if and only if there is a complete entry with status true |
| Conditions.FirstOrderKept | pkg/api/backup/util.go:41-64 | after any history there is one entry per type, in the order in which the types first came |
| Conditions.ListIsMap | pkg/api/backup/util.go:26-64 | looking a type up in the list gives what a map with its history holds |
| Conditions.LastTransition | pkg/api/backup/util.go:41-64 | an entry carries the contents of its last update and the time of the latest update that changed its status |
| Conditions.NeverBack | pkg/api/backup/util.go:41-64 | while the clock does not go back, no LastTransitionTime does |

## Left out

- Status.ServiceName and Status.PersistentVolumeClaimName in passes with faults: they may stay empty, because a failed status update after a successful create is never retried; what is proved is that no wrong name is written.
- InfluxdbWatch.NoWakeUpLost: speaks of the CR and the size of its stateful set; Services, claims and templates are not watched, and their deletion wakes nobody.
- InfluxdbSafety.ClaimKeptForever: speaks of claims that other writers leave alone, as does FirstCreatorKept.
- Finer interleaving of the two controllers than `Interleaved` has: running the backup command, fetching its directory with tar, sending one file and copying one key are each one step.
- The API server: validation of objects, garbage collection, errors of SetControllerReference; the constant volumes and mounts of the stateful set; the nested pod policy, kept as one value.
- Finer faults of a file transfer: tar in a pod writes a file whole or not at all, tar output arrives whole or the command fails, and writes of one object are atomic; the byte layout of tar and the pipe in makeTar.
- Symbolic links, file modes and ownership in untarAll; only the lexical place of such members is covered.
- Relative paths are resolved from the root.
- Buckets that hold objects not stored by a backup, and folders of the operator filled by others.
- The calendar: a backup id is any string of 14 digits, new for each backup.
- Conditions types: BackupCondition and its constants are not declared in backup_types.go and are read off their use.
- DeepCopy.CopyForeign: one stand-in for ObjectMeta, Affinity, Toleration, EnvVar, EnvFromSource, ResourceRequirements and PersistentVolumeClaim, with the same copy contract; slices that share a backing array in part; Restore and RestoreList, which hold nothing more.
- Informers: the custom resync periods and what an informer does once it runs.
- SPDY exec, kubeconfig, AWS and GCS sessions, secrets and credential files, the generated clientset, listers, scheme registration, the manager's main, manifests and scripts.
