# Verified model of the HCI controllers

A Dafny model of the backup, restore, ownership, image and backup-target controllers of a Kubernetes operator for
virtual machines, with proofs of what they keep. `dafny verify dfyconfig.toml` checks the whole project.

## What is modelled

* **The store.** An object is the sequence of its stored versions; the position is the resource version. An update
  succeeds only against the last one; reads may return any earlier one. Status is stored with the object. Empty lists
  and maps read back as nil, so the model does not tell them apart.
* **Backups.** `BackupWriters` says what each writer (initialisation, error reset, snapshot refresh, conclusion, class
  names, target, Longhorn callback, finalizer, user edit) makes of the version it holds, and when it may act.
  `BackupMachine` lets any number of calls hold stale copies and interleave, and `BackupHistory` shows what a stored
  version owes to the writes before it; `BackupReconciler` is one undisturbed pass, step by step, with the upload of its
  metadata, tied to the same writers.
* **Restores.** `RestoreWriters` says the same for restores and for the target VM. `RestoreMachine` interleaves
  overlapping restore passes, call by call, with all backup writers and with status changes of the VM. `RestorePass` is
  one undisturbed pass with claims, snapshot copies, secrets and a count of API writes; `RestoreProgress` shows how such
  passes complete a restore, `RestoreResources` what they leave behind, and `RestoredVm` what the VM they leave has in
  common with the one that was backed up.
* **The pipeline.** `Volumes` and `Secrets` follow volumes and secret references from a VM through backup and restore to
  the restored VM, with map iteration in an arbitrary order.
* **Ownership.** `PvcOwnership` is one pass of a VM's reconciler over claims and index, sharing objects with the index
  as the code does; `OwnerHandover` any interleaving of such passes on one claim.
* **The rest.** `Metadata` (upload and synchronisation), `SchemaOwners` and `StringOrder` (the owner annotation),
  `ImageProtocol` (finalizer), `BackupTarget` (convergence of the setting), `Conditions`, `Objects`, `Outcomes`.

A loop of the source is a method with a loop, an object updated in place a class; each is proved equal to a function,
and the properties are lemmas about those functions. Nil dereferences, writes to nil maps and indexes out of range are
the outcome `Panic`. Times are numbers, hashes and name joining are function parameters, and error messages are
shortened.

## What turned out not to hold

* ReadyToUse and the Ready condition can disagree, because the condition loop stops at the first errored volume
  (`BackupWriters.ReadyWithoutBeingReady`): they do iff there is an errored volume and every volume up to and including
  the first errored one is ready (`BackupWriters.ConcludedAgrees`).
* A pass over a backup can crash, for instance on a claim without storage class (`BackupReconciler.MountingCrashesWithoutClass`,
  `BackupReconciler.CreationCrashesWithoutClass`); `BackupReconciler.CrashesExactly` says when, and
  `RestoreProgress.PassCrashesExactly` when a pass over a restore does.
* A clean-up of old claims that succeeded cannot be repeated, so a restore whose last update was lost stays incomplete
  (`RestoreProgress.CleanupIsNotRepeatable`); listing a claim twice fails the same way.
* Secret references of the restored VM dangle when NewVM does not match the absence of the target
  (`RestoreResources.SecretsDangle`); `RestoreResources.SecretsResolveExactly` has the exact condition.
* A pass over a VM leaves the claim index out of step unless it has nothing to attach or detach
  (`PvcOwnership.CoherentAfterPass`).
* Claiming a claim without annotations writes to a nil map (`PvcOwnership.VmReconciler.SetOwnerOfPvcs`).
* Decoding panics when an entry adds to a schema first listed without references (`SchemaOwners.DecodeMeaning`), and so
  does adding an owner to such an entry (`SchemaOwners.AnnotationSchemaOwners.Add`).
* A backing image with another URL, held or on its way out can stay in the way of the right one
  (`ImageProtocol.BackingHasAppliedUrl`) and outlive its image for a while (`ImageProtocol.HeldThingsLinger`), and a cache
  that goes back in time leaves orphans (`ImageProtocol.OlderReadsLeaveOrphans`).
* A configured condition that starts Unknown, or is missing from a list of other conditions, is never set for S3 and NFS
  (`BackupTarget.ConditionAtFixpoint`).
* Two backups can share a metadata file (`Metadata.FileNamesCanCollide`), iff their names clash in the way
  `Metadata.FileNamesCollideExactly` says.

## Model

| member | source | states |
|---|---|---|
| `BackupMachine.ConcurrentWritersTakeTurns` | controllers/hci/virtualmachinebackup_controller.go:87-198 | However reconciles, snapshot-triggered reconciles, Longhorn callbacks and user edits interleave, and however old the versions they read, every stored version is its predecessor plus one enabled write: the overlapping system refines writers taking turns |
| `BackupMachine.ReadyBackupNeverChanges` | controllers/hci/virtualmachinebackup_controller.go:152-198 | In every such run a stored version with ReadyToUse=true is followed only by ready versions with the same source spec, secrets and, volume by volume, name, volume name, driver and claim |
| `BackupMachine.ReadyToUseMeansReady` | controllers/hci/backup_status.go:19-64 | In every such run every stored version has ReadyToUse=true iff its Ready condition is True, and then has a source, at least one volume, all volumes ready and no error on a volume or the status |
| `BackupMachine.StaleConclusionIsRefused` | controllers/hci/virtualmachinebackup_controller.go:187-195 | Once reconcileVolumeSnapshots stored a change, the updateConditions write on the copy read before it is refused by the store, whatever other calls, callbacks and users do in between |
| `BackupHistory.ReadyOnlyBySnapshots` | controllers/hci/virtualmachinebackup_controller.go:323-370 | In every run on a new backup with honest snapshots, a version that is ready to use has, for each of its volumes, a last snapshot refresh since its initialisation that saw that volume's snapshot ready and not in error |
| `BackupHistory.ReadyBySnapshots` | controllers/hci/virtualmachinebackup_controller.go:323-370 | Without that assumption, along every sequence of enabled writes: the same for the volumes up to the first one in error, and what that refresh saw is what the version records |
| `BackupHistory.VersionsRecordLooks` | controllers/hci/virtualmachinebackup_controller.go:346-365 | Every initialised version records, volume by volume, readiness, time and error of the last snapshot status seen since the status was last replaced, and a volume not yet seen is not ready |
| `BackupHistory.EveryVersionHoldsItsVm` | controllers/hci/virtualmachinebackup_controller.go:756-795 | In every run on a new backup, a version with a source holds name, namespace, annotations, whole spec and uid of the VM the last initialisation read, the data its secrets had then, and for each of its claims a volume backup named after it with the claim as read |
| `BackupHistory.VersionsHoldTheirVm` | controllers/hci/virtualmachinebackup_controller.go:756-795 | The same along every sequence of enabled writes |
| `BackupMachine.ReadyIsFrozen` | controllers/hci/virtualmachinebackup_controller.go:152-198 | Along every sequence of enabled writes a ready version stays ready with an unchanged core |
| `BackupMachine.VersionsAreSound` | controllers/hci/backup_status.go:19-64 | Along every sequence of enabled writes the ReadyToUse/condition agreement is kept |
| `BackupMachine.VersionsCoverTheirSource` | controllers/hci/virtualmachinebackup_controller.go:748-839 | Along every sequence of enabled writes each claim of the recorded source spec has a volume backup |
| `BackupMachine.NextKeepsInv` | controllers/hci/virtualmachinebackup_controller.go:87-198 | One API call of any thread keeps: history replays the log, and each held copy is the version it was read from, with a filled-in status at most |
| `BackupMachine.HeldWrite` | controllers/hci/virtualmachinebackup_controller.go:87-104 | A write computed on a held copy, whose missing status Reconcile filled in, equals the same write on the stored version |
| `BackupWriters.UpdateConditions` | controllers/hci/backup_status.go:19-64 | The loop with its early break computes the new status, or panics on a nil volume-backup name |
| `BackupWriters.ConcludedReads` | controllers/hci/backup_status.go:19-64 | From a status that is not ready: ReadyToUse says whether the volumes up to the first errored one are ready, the Ready condition whether all are ready and none errored; Error is nil when the condition is True; no condition is duplicated |
| `BackupWriters.ConcludedAgrees` | controllers/hci/backup_status.go:25-54 | ReadyToUse and the Ready condition come out equal unless there is an errored volume and every volume up to and including the first errored one is ready, and only then |
| `BackupWriters.ReadyWithoutBeingReady` | controllers/hci/backup_status.go:33-36 | A first volume that is ready and errored before an unready one gives ReadyToUse=true without a True Ready condition |
| `BackupWriters.ReconcileVolumeSnapshots` | controllers/hci/virtualmachinebackup_controller.go:323-370 | The loop computes the refreshed volumes, or stops at the first snapshot that is being deleted (requeue), cannot be reached or created (error), or crashes while it is created |
| `BackupWriters.RefreshedAt` | controllers/hci/virtualmachinebackup_controller.go:323-370 | A finished loop has one entry per volume, made from that volume and its own observation |
| `BackupWriters.RefreshRecords` | controllers/hci/virtualmachinebackup_controller.go:346-365 | A finished loop left each named volume whose snapshot has a status with exactly that status's readiness, creation time and error, and every other volume and field as it was |
| `BackupWriters.InitBackup` | controllers/hci/virtualmachinebackup_controller.go:748-795 | The built status is that of some order of the claim map, or the first failure of volumes, secrets, class names and target is returned |
| `BackupWriters.InitRecords` | controllers/hci/virtualmachinebackup_controller.go:756-795 | An initial status holds the VM's name, namespace, annotations, whole spec and uid, the backups of the secrets its spec refers to, the class names and, for a backup to a target only, the target; it is not ready, not in error and without conditions |
| `BackupWriters.ConcludedReports` | controllers/hci/backup_status.go:19-64 | A conclusion names the first errored volume in Error and in the conditions; without one it records completion, its time and both conditions when all volumes are ready, and progress otherwise |
| `BackupWriters.ErrorStatusReports` | controllers/hci/virtualmachinebackup_controller.go:684-702 | An error reset keeps nothing but the error and reports it in both conditions |
| `BackupWriters.NameLonghornBackup` | controllers/hci/backup_status.go:110-127 | Records the Longhorn backup name at every volume backed by the snapshot; panics iff a volume backup has no name |
| `BackupWriters.ApplyKeepsSound` | controllers/hci/virtualmachinebackup_controller.go:684-795 | Init, error reset, snapshot refresh, conclusion, class names, target and Longhorn names each keep ReadyToUse iff Ready condition, with all volumes ready and no error when true |
| `BackupWriters.ApplyKeepsReady` | controllers/hci/virtualmachinebackup_controller.go:515-556 | Every write that a ready backup allows leaves it ready and changes only class names, target and Longhorn backup names |
| `BackupWriters.ApplyKeepsCovers` | controllers/hci/virtualmachinebackup_controller.go:748-839 | Every write keeps each claim of the source spec among the volume backups |
| `BackupWriters.SameCore` | controllers/hci/virtualmachinebackup_controller.go:323-370 | Equal cores agree on source, secrets and each volume's name, volume name, driver and claim |
| `BackupReconciler.Reconciler.OnBackupChange` | controllers/hci/virtualmachinebackup_controller.go:152-198 | An undisturbed pass leaves the object, the outcome and the remote store the branches say, with refused updates, the crashes on a VM without template, on a claim without storage class and on an early stop of snapshot reconciliation, and the conflict of the second write |
| `BackupReconciler.Reconciler.HandleBackupReady` | controllers/hci/virtualmachinebackup_controller.go:515-632 | Class names are stored first, then the annotated target, then the metadata is uploaded, the last two only for backups of kind backup; the first error ends the pass |
| `BackupReconciler.Reconciler.InitFromSource` | controllers/hci/virtualmachinebackup_controller.go:165-183 | A VM without template crashes the pass; one that is not running has its volumes mounted first; then the status is built and stored |
| `BackupReconciler.Reconciler.SnapshotsThenConditions` | controllers/hci/virtualmachinebackup_controller.go:186-195 | Conditions are computed from, and stored against, the copy read before snapshots were reconciled |
| `BackupReconciler.Reconciler.StoreInit` | controllers/hci/virtualmachinebackup_controller.go:165-183 | Stores the status initBackup built, or leaves the object as it was with its error |
| `BackupReconciler.Reconciler.SetStatusError` | controllers/hci/virtualmachinebackup_controller.go:684-702 | Any existing status is wiped and replaced by the error, unless the update is refused, whose error is then returned |
| `BackupReconciler.PassIsEnabledWrites` | controllers/hci/virtualmachinebackup_controller.go:152-198 | An undisturbed pass is at most two writes, each enabled on the version it replaces, so its effects are those of the interleaved system |
| `BackupReconciler.SourcePassRecords` | controllers/hci/virtualmachinebackup_controller.go:165-183 | A pass that initialises the backup stores the VM's name, namespace, annotations, whole spec and uid, its secrets and all its claims; any other end leaves the backup as it was, or reset with the error |
| `BackupReconciler.ReadyStoredRecords` | controllers/hci/virtualmachinebackup_controller.go:515-556 | A pass over a ready backup changes only class names, set if there were none, and the target, set to the annotated one for a backup to a target |
| `BackupReconciler.SeesExactly` | controllers/hci/virtualmachinebackup_controller.go:372-470 | A present snapshot is read; a missing one is made, from its claim and the claim's storage class exactly if no Longhorn backup is recorded |
| `BackupReconciler.MountsExactly` | controllers/hci/virtualmachinebackup_controller.go:704-745 | A volume goes through iff it has no claim, or the claim is there with a class that is there and, if that is Longhorn's, with a Longhorn volume that accepts the update; it crashes iff the claim has no class |
| `BackupReconciler.ReadyInTwoPasses` | controllers/hci/virtualmachinebackup_controller.go:186-195 | An initialised backup whose snapshots are all ready is ready to use, and says so, after at most two undisturbed passes |
| `BackupReconciler.ReadyPassPublishes` | controllers/hci/virtualmachinebackup_controller.go:515-632 | A successful pass over a ready backup made for the current target puts its metadata into its file, leaves every other file alone, and makes the next pass write nothing to the store |
| `BackupReconciler.PublishesOnlyItsFile` | controllers/hci/virtualmachinebackup_controller.go:515-632 | A pass changes the backup target only if it succeeds on a ready backup of kind backup made for the current, not default, target, and then only in the backup's own file |
| `BackupReconciler.CrashesExactly` | controllers/hci/virtualmachinebackup_controller.go:152-198 | An undisturbed pass crashes iff, asking for its source VM, it finds one without template, or one that is not running and whose mounting first fails at a claim without storage class; or, with the backup initialised and the class names found, the snapshot of a named volume is being deleted, out of reach or cannot be created, or the update of what the snapshots changed is refused, or the first errored volume backup has no name |
| `BackupReconciler.MountLonghornVolumes` | controllers/hci/virtualmachinebackup_controller.go:704-745 | Volume after volume: missing claims, classes and Longhorn volumes are errors, a claim without storage class a crash, other provisioners are skipped |
| `BackupReconciler.MountedExactly` | controllers/hci/virtualmachinebackup_controller.go:704-745 | Mounting succeeds iff every volume does, and crashes iff a claim without storage class comes before any other failure |
| `BackupReconciler.MountingCrashesWithoutClass` | controllers/hci/virtualmachinebackup_controller.go:704-718 | The pass over a new backup of a VM that is not running crashes when the first volume is a claim without storage class, and stores nothing |
| `BackupReconciler.CreationCrashesWithoutClass` | controllers/hci/virtualmachinebackup_controller.go:389-396 | The pass over an initialised backup crashes when a volume's snapshot is absent, no Longhorn backup is recorded for it and its claim has no storage class |
| `Volumes.VolumeToPvcMappings` | controllers/hci/virtualmachinebackup_controller.go:962-979 | Maps each volume with a claim to it, the last volume of a name winning |
| `Volumes.LastVolumeIsMapped` | controllers/hci/virtualmachinebackup_controller.go:962-979 | Of several volumes of one name the last with a claim is mapped |
| `Volumes.BacksUpExactly` | controllers/hci/virtualmachinebackup_controller.go:797-839 | A claim can be backed up iff it exists, is bound, has a storage class, and its volume exists and is a CSI driver's |
| `Volumes.GetVolumeBackups` | controllers/hci/virtualmachinebackup_controller.go:797-839 | One volume backup per mapped name in an arbitrary enumeration of the map, or the first failure |
| `Volumes.GetVolumeRestores` | controllers/hci/virtualmachinerestore_controller.go:244-276 | One restore entry per volume backup, reusing existing entries; fails on the first unnamed volume backup |
| `Volumes.VolumeRestoresAt` | controllers/hci/virtualmachinerestore_controller.go:244-276 | Entry by entry: an existing entry of the volume is reused, otherwise the new one carries the spec of the claim backed up |
| `Volumes.GetNewVolumes` | controllers/hci/util.go:138-156 | Each volume with a claim gets the claim of the last restore entry of its name; the rest stay |
| `Volumes.PipelineRestoresVolumes` | controllers/hci/virtualmachinebackup_controller.go:797-838 | Backing up and restoring any volume list keeps length, names and other volumes, and rewires every claim to the restore's own claim for that volume, whatever order the map was walked in |
| `Volumes.PipelineKeepsVolumes` | controllers/hci/util.go:138-161 | The same field by field: each volume keeps its place, name and cloud-init, and its claim, if any, becomes the restore's own claim, spelt out |
| `Volumes.PipelineClaims` | controllers/hci/util.go:138-161 | Restored claims are distinct iff the volume names are, and none is a claim of the source when the restore's uid is fresh |
| `Volumes.VolumeRestoresPair` | controllers/hci/virtualmachinerestore_controller.go:244-276 | Listing succeeds iff every volume backup is named, and then pairs with the volume backups position by position |
| `Volumes.LastRestoreWins` | controllers/hci/util.go:138-156 | A volume is rewired to the last entry of its name, and left alone without one |
| `Volumes.NewVolumesOfPaired` | controllers/hci/util.go:138-156 | A restore list paired with backups that cover the volumes rewires every claim and nothing else |
| `Volumes.BackupsCoverVolumes` | controllers/hci/virtualmachinebackup_controller.go:797-839 | The volume backups of a VM cover all its claims |
| `Volumes.BackedUpVolume` | controllers/hci/virtualmachinebackup_controller.go:797-839 | Each volume backup is named after, and records, the claim its volume uses, and starts not ready and without error |
| `Volumes.RestoredClaimNamesInjective` | controllers/hci/util.go:158-161 | Two volumes get the same restored claim name iff they have the same name |
| `Secrets.GetSecretBackups` | controllers/hci/virtualmachinebackup_controller.go:860-903 | Backs up the collected references in order, skips names already seen, fails on the first missing secret |
| `Secrets.SecretRefsExactly` | controllers/hci/virtualmachinebackup_controller.go:860-890 | A name is collected iff it is the SSH key or user password of a credential, or the user data or network data of a cloud-init volume |
| `Secrets.SecretBackupsAreTheRefs` | controllers/hci/virtualmachinebackup_controller.go:860-922 | Succeeds iff every referenced secret exists; then lists exactly the referenced names, once each, with the non-empty part of the data |
| `Secrets.SanitizeForRestore` | controllers/hci/util.go:202-220 | Renames every secret reference in credentials and cloud-init volumes in place |
| `Secrets.SanitizedRefs` | controllers/hci/util.go:202-225 | Position by position the sanitized spec refers to the new name of what the spec referred to |
| `Secrets.SecretRefNamesDiffer` | controllers/hci/util.go:222-225 | New names for one VM are equal iff the hashes are |
| `Secrets.WrittenHoldsAll` | controllers/hci/virtualmachinerestore_controller.go:379-437 | After writing back, every backup is found under its new name with its data iff backups that share a new name carry the same data |
| `Secrets.WrittenElsewhere` | controllers/hci/virtualmachinerestore_controller.go:404-437 | Secrets under other names are left alone |
| `Secrets.SameCloudInitSameRefs` | controllers/hci/util.go:138-156 | Rewiring claims touches no secret reference |
| `RestoreMachine.DeletionsAreSafe` | controllers/hci/virtualmachinerestore_controller.go:714-821 | In every run of overlapping passes a claim is deleted only by a pass without NewVM and retain that saw all restored claims Bound and the VM Ready; it is not a restored claim, and the VM stored at that moment uses no claim listed for deletion |
| `RestoreMachine.ClaimsComeFromTheirVolume` | controllers/hci/virtualmachinerestore_controller.go:302-329 | In every run the positional lookup stays in bounds and every claim is made from the snapshot of the volume its entry names |
| `RestoreMachine.VersionsPair` | controllers/hci/virtualmachinerestore_controller.go:199-276 | In every run, for every stored version of restore and ready backup: VolumeRestores is empty, or has the same length, volume names and snapshot names position by position, and DeletedVolumes is empty or lists every claim of the backup in order |
| `RestoreMachine.RestoresAreSound` | controllers/hci/virtualmachinerestore_controller.go:113-149 | In every run Complete iff Ready condition True, exactly one Ready and one InProgress condition once status exists, Complete implies owner and TargetUID, and a completed version changes no more but for a deletion mark |
| `RestoreMachine.NextKeepsInv` | controllers/hci/virtualmachinerestore_controller.go:113-149 | Every API call of every pass, backup write, user edit and VM status change keeps the joint invariant |
| `RestoreMachine.PairingSurvives` | controllers/hci/virtualmachinerestore_controller.go:302-316 | A restore paired with one ready version of the backup is paired with every other |
| `RestoreMachine.PassWritesRestoredVm` | controllers/hci/virtualmachinerestore_controller.go:331-377 | What a pass creates or updates as target VM carries the restore's mark and uses only restored claims |
| `RestoreMachine.MarkedNow` | controllers/hci/virtualmachinerestore_controller.go:345-350 | Once a version of the VM carried the restore's mark, the current one does |
| `RestoreMachine.CompletedStays` | controllers/hci/virtualmachinerestore_controller.go:118-120 | Along every sequence of enabled restore writes a completed restore is only ever marked for deletion |
| `RestoreWriters.InitVolumesStatus` | controllers/hci/virtualmachinerestore_controller.go:199-223 | The loop computes the listed status, or fails on an unnamed volume backup |
| `RestoreWriters.ListedRecords` | controllers/hci/virtualmachinerestore_controller.go:199-223 | Listing succeeds iff volumes are listed already or every volume backup is named; it pairs volumes with the backup if there are none, lists the claim of every volume backup in order if old volumes are not kept and none are listed, and changes nothing else |
| `RestoreWriters.WroteReports` | controllers/hci/virtualmachinerestore_controller.go:766-845 | The InProgress and Ready conditions of each write with status, reason and message, and that a wait or an error changes nothing else, and completion only Complete and RestoreTime |
| `RestoreWriters.WroteKeepsSound` | controllers/hci/virtualmachinerestore_controller.go:182-197 | Each write of the restore keeps Complete iff Ready True, the condition list without duplicates, and owner and TargetUID set together |
| `RestoreWriters.WroteKeepsComplete` | controllers/hci/virtualmachinerestore_controller.go:118-120 | No write but a deletion mark is possible on a completed restore |
| `RestoreWriters.WrittenVmIsRestored` | controllers/hci/virtualmachinerestore_controller.go:458-518 | The created and the updated VM carry the restore's id and point every claim at the restored one |
| `RestorePass.RestoreReconciler.OnRestoreChange` | controllers/hci/virtualmachinerestore_controller.go:113-149 | An undisturbed pass leaves exactly the cluster and outcome of its branches, with the error exits for missing, unready and lost objects and for the mount and start calls, and the number of API writes |
| `RestorePass.RestoreReconciler.ReconcileResources` | controllers/hci/virtualmachinerestore_controller.go:278-300 | Volumes, then VM, then secrets, stopping at the first failure; the stored backup is not among what it may modify |
| `RestorePass.RestoreReconciler.ReconcileVolumeRestores` | controllers/hci/virtualmachinerestore_controller.go:302-329 | Looks at each restored claim by position, makes missing ones, and says whether all were Bound; panics beyond the backup's list |
| `RestorePass.RestoreReconciler.CreateRestoredPvc` | controllers/hci/virtualmachinerestore_controller.go:537-601 | Makes a Pending claim from the backup's snapshot, or its copy in another namespace, with filtered annotations |
| `RestorePass.RestoreReconciler.GetOrCreateVolumeSnapshot` | controllers/hci/virtualmachinerestore_controller.go:603-712 | Reuses or makes the copied snapshot and its content; panics on a missing Longhorn backup name |
| `RestorePass.RestoreReconciler.ReconcileVm` | controllers/hci/virtualmachinerestore_controller.go:331-377 | Creates or rewires the target VM; rewiring overwrites the volumes of the in-memory backup's shared template and leaves the stored backup alone |
| `RestorePass.RestoreReconciler.CreateNewVm` | controllers/hci/virtualmachinerestore_controller.go:458-518 | Computes the VM to create from the source, stores it and counts one write |
| `RestoredVm.NewVm` | controllers/hci/virtualmachinerestore_controller.go:458-518 | Over an absent target a successful pass leaves a VM named after the restore's target in the restore's namespace, with the source's run strategy or RerunOnFailure, as many MAC addresses, all blank, the restore's two annotations, and every secret reference of every credential and cloud-init volume under its new name, spelt out |
| `RestoredVm.ReplacedVm` | controllers/hci/virtualmachinerestore_controller.go:345-377 | Over a VM without the restore's mark it keeps name, namespace and uid, gets the source's run strategy, MAC addresses, credentials and volumes up to their claims, loses the claim-template annotation, gets the restore's two, and keeps all others |
| `RestoredVm.MarkedVm` | controllers/hci/virtualmachinerestore_controller.go:345-350 | A VM with the restore's mark is left as it is |
| `RestoredVm.WrittenVmHasVolumes` | controllers/hci/virtualmachinerestore_controller.go:331-377 | The VM written has every volume of the source in order, with the restore's claim for each claim |
| `RestoredVm.OwnerNamesTheTarget` | controllers/hci/virtualmachinerestore_controller.go:520-534 | The owner reference set has the target's name and the new VM's uid, or names the VM that was there |
| `RestoredVm.RestoresTheVmRead` | controllers/hci/virtualmachinerestore_controller.go:278-437 | End to end: a restore paired with a ready version of a backup that began without source leaves a VM with every volume of the VM the last initialisation read, under restored claims, each of whose secret references finds the data that VM's secret held then |
| `RestorePass.RestoreReconciler.ReconcileSecretBackups` | controllers/hci/virtualmachinerestore_controller.go:379-402 | Writes each backed-up secret under its new name for a new VM, under its own name otherwise |
| `RestorePass.RestoreReconciler.CreateOrUpdateSecret` | controllers/hci/virtualmachinerestore_controller.go:404-437 | Creates a missing secret, updates one whose data differs, writes nothing otherwise |
| `RestorePass.RestoreReconciler.DeleteOldPvc` | controllers/hci/virtualmachinerestore_controller.go:714-737 | Deletes the listed claims one by one unless they are kept; fails at the first that does not exist |
| `RestorePass.RestoreReconciler.UpdateStatus` | controllers/hci/virtualmachinerestore_controller.go:766-821 | Waiting for claims, failing to start, waiting for the VM, cleaning up and completing, in that order |
| `RestorePass.RestoreReconciler.UpdateStatusError` | controllers/hci/virtualmachinerestore_controller.go:823-845 | Reports the error in both conditions and writes only if that changes the status |
| `RestoreProgress.PassIsOneWrite` | controllers/hci/virtualmachinerestore_controller.go:113-149 | Whatever an undisturbed pass does to the stored restore is one of the writes of the overlapping system, enabled there |
| `RestoreProgress.OwnerIsTheMarkedVm` | controllers/hci/virtualmachinerestore_controller.go:520-534 | The owner a pass gives a restore is the VM it leaves in the cluster, which carries the restore's mark; so is TargetUID, unless one was recorded before, which stays |
| `RestoreProgress.NothingWithoutReadyBackup` | controllers/hci/virtualmachinerestore_controller.go:439-455 | With a backup that is missing, not ready or without source a pass changes no claim, snapshot, VM or secret, only the restore's own status; it fails as soon as there is a status, and completes nothing |
| `RestoreProgress.PassCrashesExactly` | controllers/hci/virtualmachinerestore_controller.go:302-329 | With distinct claims and copies a pass crashes iff it gets to look at the volumes and the first entry that does not go through misses its claim and has no volume backup at its position, or one in another namespace without copies and without a Longhorn backup name |
| `RestoreProgress.VolumesCrashExactly` | controllers/hci/virtualmachinerestore_controller.go:302-329 | Looking at the volumes succeeds iff no entry crashes or fails on the cluster as found, and crashes iff the first that does not go through crashes |
| `RestoreProgress.PassProgresses` | controllers/hci/virtualmachinerestore_controller.go:113-149 | Without API errors a pass over an incomplete restore succeeds, lowers the rank iff it is not waiting for claims or VM, and keeps what later passes rely on |
| `RestoreProgress.FourPassesComplete` | controllers/hci/virtualmachinerestore_controller.go:113-149 | Four passes that do not wait complete a restore, however many waiting passes and environment steps lie between |
| `RestoreProgress.PassesLowerRank` | controllers/hci/virtualmachinerestore_controller.go:113-149 | Non-waiting passes counted so far plus the rank left never exceed the initial rank until completion |
| `RestoreProgress.CompletesExactly` | controllers/hci/virtualmachinerestore_controller.go:766-821 | A pass completes the restore iff all claims are Bound, the start call succeeds, the VM is Ready, and old claims are kept or deletable |
| `RestoreProgress.FailsExactly` | controllers/hci/virtualmachinerestore_controller.go:766-821 | With the resources in place a pass fails iff all claims are Bound and the VM cannot be started, or is Ready and the old claims are to be deleted and cannot be; otherwise it completes or waits |
| `RestoreProgress.CompletionClearsOldClaims` | controllers/hci/virtualmachinerestore_controller.go:714-737 | A pass that completes a restore without NewVM or retain, whose listed old claims are those of a backup, leaves none of that backup's claims in the cluster but those still mounted |
| `RestoreProgress.OnlyListedClaimsGo` | controllers/hci/virtualmachinerestore_controller.go:714-737 | A pass removes no claim but those listed for deletion that are not mounted, and none while old volumes are kept |
| `RestoreProgress.PassReports` | controllers/hci/virtualmachinerestore_controller.go:766-845 | A pass reports completion with its time, InProgress False and Ready True, and an error with its message in both, except that listing stops without a report at an unnamed volume backup |
| `RestoreProgress.WaitingReports` | controllers/hci/virtualmachinerestore_controller.go:766-800 | While claims are not Bound InProgress is True, and while the VM is not Ready it is False; both say what is waited for |
| `RestoreProgress.OldDeletedExactly` | controllers/hci/virtualmachinerestore_controller.go:714-737 | The clean-up succeeds iff every listed claim exists and none that its first deletion removes is listed twice; then exactly the listed unmounted claims are gone |
| `RestoreProgress.CleanupIsNotRepeatable` | controllers/hci/virtualmachinerestore_controller.go:722-729 | When the clean-up went through but completion was not stored, no later pass completes while a removed claim is missing |
| `RestoreResources.ResourcesAgain` | controllers/hci/virtualmachinerestore_controller.go:278-437 | A second run right after a successful one gives the same answer and writes nothing, leaving the state as it is, iff secrets that end under one name carry the same data; the stored backup is never written |
| `RestoreResources.VolumesAgain` | controllers/hci/virtualmachinerestore_controller.go:302-329 | Volumes seen successfully once are seen again without a write in any cluster that still has the claims |
| `RestoreResources.SecretsQuiet` | controllers/hci/virtualmachinerestore_controller.go:404-437 | Writing secrets issues no write iff each is already there with its data |
| `RestoreResources.SecretsResolve` | controllers/hci/virtualmachinerestore_controller.go:379-437 | After any successful pass every secret reference of the VM resolves to a secret with the original's non-empty data, if NewVM holds exactly when the target was absent, or the VM a former pass marked names its secrets accordingly |
| `RestoreResources.SecretsResolveExactly` | controllers/hci/virtualmachinerestore_controller.go:379-437 | After any successful pass, over a target absent, found or marked, the references resolve iff each name the VM uses holds the right data: that of the source secret written under it, or else what was there before |
| `RestoreResources.SecretsDangle` | controllers/hci/virtualmachinerestore_controller.go:379-402 | In a cluster where none of the old and new names is in use, the references resolve iff there are none or the VM names its secrets as NewVM asks |
| `RestoreResources.EverySuccessClosesSecrets` | controllers/hci/virtualmachinerestore_controller.go:278-437 | A restore that asks for a new VM exactly if the target is absent when it starts has its secrets closed by every pass that succeeds, however many passes wrote the VM and failed or died before |
| `RestoreResources.ClaimsFromSnapshots` | controllers/hci/virtualmachinerestore_controller.go:302-329 | A claim the pass made is Pending, without owner, and made from its own volume's snapshot or the copy of it |
| `RestoreResources.VolumeSeenCopies` | controllers/hci/virtualmachinerestore_controller.go:603-712 | When such a claim is made, its copy is there, and so is the content, unless the copy was there already; a content made anew comes from a Longhorn backup that exists |
| `RestoreResources.CopiesAreMade` | controllers/hci/virtualmachinerestore_controller.go:603-712 | The copy of the snapshot that a claim in another namespace is made from is there afterwards, and no copy or content is ever removed |
| `Conditions.UpdateCondition` | controllers/hci/util.go:94-111 | Overwrites the first entry of the kind if it reports something else, appends one if there is none |
| `Conditions.UpdatedReports` | controllers/hci/util.go:94-111 | The report is what is read next, other kinds read as before, and no kind gets duplicated |
| `Conditions.UpdatedEntries` | controllers/hci/util.go:94-111 | The first entry of the kind gets status, reason, message and time, keeps its time if it said the same, and no other entry changes |
| `PvcOwnership.VmReconciler.SetOwnerOfPvcs` | controllers/hci/vm_controller.go:108-163 | Strips the owner from indexed claims no longer named, unless the indexed copy is out of date, then claims the named ones that are free; the indexed copies are stripped in place; crashes iff a claimable claim has no annotations at all |
| `PvcOwnership.VmReconciler.UnsetOwnerOfPvcs` | controllers/hci/vm_controller.go:166-201 | Strips the owner from every named live claim and deletes those asked for; crashes iff the VM has no template |
| `PvcOwnership.UnsetReleases` | controllers/hci/vm_controller.go:166-201 | A live claim named ends without owner, with all its other annotations, and is deleted iff asked for; a claim on its way out is left alone |
| `PvcOwnership.GetPvcNames` | controllers/hci/vm_controller.go:204-214 | Exactly the non-empty claim names of the volumes |
| `PvcOwnership.OwnersAfterPass` | controllers/hci/vm_controller.go:108-163 | From a coherent index, in a named namespace: a claim is the VM's if named, not on its way out, and free or already its own, free if it was the VM's and is not named, unchanged otherwise; other annotations stay |
| `PvcOwnership.NoNamespaceNeverDetaches` | controllers/hci/vm_controller.go:115-118 | Why the namespace matters: in an empty one, which no stored VM has, the index would be looked up under another key and an unnamed claim would keep its owner |
| `PvcOwnership.CoherentAfterPass` | controllers/hci/vm_controller.go:131-133 | The pass leaves the index coherent iff it has nothing to do: every live claim the VM names has an owner already, and no claim it does not name is owned by it |
| `PvcOwnership.CopyAnnotations` | controllers/hci/virtualmachinerestore_controller.go:556-569 | Copies all annotations but those under the two dropped prefixes, and adds the restore's name |
| `PvcOwnership.CopiedAnnotations` | controllers/hci/virtualmachinerestore_controller.go:556-569 | Key by key: exactly the annotations without the two prefixes are carried over, besides the restore's name |
| `PvcOwnership.RestoredClaimIsFree` | controllers/hci/virtualmachinerestore_controller.go:556-569 | A restored claim has no owner, and any VM can claim it without a crash |
| `OwnerHandover.OwnerNeverPassesDirectly` | controllers/hci/pvc_controller.go:63-89 | Under every interleaving of attach, detach and unset passes of any VMs on stale reads and a stale shared index, with other updates between, the owner stays, goes, or comes to a claim that had none |
| `OwnerHandover.RestoredClaimFirstOwner` | controllers/hci/virtualmachinerestore_controller.go:556-569 | For a claim made by a restore the first version has no owner, and the same holds from there on |
| `OwnerHandover.NextKeepsInv` | controllers/hci/pvc_controller.go:30-89 | Each call keeps: handovers only, held copies are stored versions, the indexed copy is the version filed, stripped at most |
| `OwnerHandover.AttachingIsARun` | controllers/hci/pvc_controller.go:63-76 | What an undisturbed pass of PvcOwnership makes of a claim its VM names, the two calls of the interleaved system make |
| `OwnerHandover.DetachingIsARun` | controllers/hci/vm_controller.go:122-140 | The same for a claim filed under the VM and no longer named, whether or not the indexed copy is out of date |
| `OwnerHandover.UnsettingIsARun` | controllers/hci/pvc_controller.go:78-89 | The same for revoking the owner of a claim that is kept |
| `Metadata.SanitizeVolumeBackups` | controllers/hci/virtualmachinebackup_controller.go:634-641 | Clears the three runtime fields of every volume backup in place |
| `Metadata.UploadMetadata` | controllers/hci/virtualmachinebackup_controller.go:558-632 | Writes the file only to the target the backup was made for, and only if it differs; fails without target in the status, with an undecodable setting, and when the store cannot be reached or written |
| `Metadata.UploadsOnlyToItsTarget` | controllers/hci/virtualmachinebackup_controller.go:558-632 | A backup made for another target than the current one, or any while that is the default, leaves the store as it is; one made for it ends in its own file and no other changes; failures are the store's |
| `Metadata.MetadataRecords` | controllers/hci/virtualmachinebackup_controller.go:590-641 | The file holds name, namespace, spec, source, secrets and each volume backup in full but for readiness, time and error |
| `Metadata.SyncVmBackup` | controllers/hci/backup_metadata.go:108-179 | Creates, file by file, the backups that do not exist yet, and stops at the first file that fails |
| `Metadata.RecreatedReads` | controllers/hci/backup_metadata.go:147-179 | A recreated backup has name, namespace, spec, source, volumes and secrets of its file and the current target, and is not ready |
| `Metadata.SyncCreatesWhatIsMissing` | controllers/hci/backup_metadata.go:147-179 | An absent backup becomes the one its first file stands for |
| `Metadata.SyncKeepsTheRest` | controllers/hci/backup_metadata.go:147-179 | Backups present, or without a file, are left as they were |
| `Metadata.RecreatedMatchesOriginal` | controllers/hci/backup_metadata.go:147-179 | A ready backup that was uploaded comes back with its name, spec, source, secrets and volumes up to the three runtime fields, not missing status, sound, and with the same metadata |
| `Metadata.RecreatedKeepsMetadata` | controllers/hci/virtualmachinebackup_controller.go:165-183 | Along every history without error reset and renamed Longhorn backups it never enters the source-VM branch and keeps its metadata |
| `Metadata.RoundTripNeverRewrites` | controllers/hci/virtualmachinebackup_controller.go:558-632 | The whole way: a ready backup is uploaded, any uploads whose names do not clash follow, another cluster without a backup of the name synchronises, and along every history of the recreated backup without error reset and renamed Longhorn backups, amid further such uploads, it keeps the metadata and uploading it leaves the store as it is |
| `Metadata.UploadArrives` | controllers/hci/backup_metadata.go:108-179 | Whatever order the store is listed in, a cluster without a backup of the name recreates it from its own file |
| `Metadata.HarmlessUploadsKeepFile` | controllers/hci/virtualmachinebackup_controller.go:558-632 | Uploads of other backups whose names do not clash, or of the same metadata, leave a backup's file as it is |
| `Metadata.OnlyErrorResetReopens` | controllers/hci/virtualmachinebackup_controller.go:165-183 | A write sends an initialised backup back to the source-VM branch iff it is an error reset |
| `Metadata.ErrorResetForgetsMetadata` | controllers/hci/virtualmachinebackup_controller.go:684-702 | An error reset is possible and makes a recreated backup ask for a source VM |
| `Metadata.FileNamesCollideExactly` | controllers/hci/util.go:227-229 | Two backups share a metadata file iff they are one backup, or one namespace continues the other with a dash and the names make up for the rest |
| `Metadata.NamespacesThatCanCollide` | controllers/hci/util.go:227-229 | Backups in two namespaces can share a file for some names iff one namespace followed by a dash is a prefix of the other |
| `Metadata.FileNamesCanCollide` | controllers/hci/util.go:227-229 | With dashes, two different backups share a file |
| `SchemaOwners.MarshalJson` | pkg/ref/annotation.go:56-68 | Whatever order the map is walked in, the list is sorted by schema with sorted references, one entry per schema |
| `SchemaOwners.UnmarshalJson` | pkg/ref/annotation.go:70-91 | The merge loop, with its panic on a nil reference set, computes the decoding |
| `SchemaOwners.DecodeMeaning` | pkg/ref/annotation.go:70-91 | Decoding drops blank schemas and merges duplicates by union; it panics iff an entry adds to a schema first listed without references |
| `SchemaOwners.DecodeUndoesEncode` | pkg/ref/annotation.go:56-91 | Decoding the encoding gives the map back iff the map has no blank schema and no nil reference set |
| `SchemaOwners.EncodeDecodedIsCanonical` | pkg/ref/annotation.go:56-91 | Encoding a decoded list whose entries all have references gives the sorted list with blanks dropped and duplicates merged |
| `SchemaOwners.OrderedEncodingIsUnique` | pkg/ref/annotation.go:56-68 | Only one sorted list has the entries of a map |
| `SchemaOwners.AnnotationSchemaOwners.Has` | pkg/ref/annotation.go:104-115 | True iff the pair is in the map |
| `SchemaOwners.AnnotationSchemaOwners.Add` | pkg/ref/annotation.go:117-133 | Adds the pair and says whether it was new; panics iff the schema's entry came without references, and then changes nothing |
| `SchemaOwners.AnnotationSchemaOwners.Remove` | pkg/ref/annotation.go:135-148 | Removes the pair, and the entry with its last pair, and says whether it was there, on any map |
| `SchemaOwners.AnnotationSchemaOwners.ListOwners` | pkg/ref/annotation.go:94-102 | The owners listed for a schema are those paired with it |
| `SchemaOwners.CallsRefineASet` | pkg/ref/annotation.go:94-148 | Any calls with slash-free names leave a map that holds an owner iff a plain set of (schema, namespace, name) does, without empty entries |
| `SchemaOwners.Bind` | pkg/ref/annotation.go:150-172 | Writes the encoding, or removes the annotation for an empty map, and keeps all other annotations |
| `SchemaOwners.BoundOwnersReadBack` | pkg/ref/annotation.go:194-206 | Owners bound to an object are read back from it; every other annotation stays |
| `SchemaOwners.ParseConstruct` | pkg/ref/api_id.go:9-23 | Parsing undoes constructing iff the namespace has no slash and, if it is empty, neither has the name |
| `SchemaOwners.ConstructParse` | pkg/ref/api_id.go:9-23 | Constructing what was parsed gives the reference back iff it does not start with a slash |
| `SchemaOwners.ConstructIsInjective` | pkg/ref/api_id.go:18-23 | On slash-free namespaces and names, equal references mean equal owners |
| `StringOrder.List` | pkg/ref/annotation.go:94-102 | The list is the one sorted list of the set |
| `StringOrder.SortedListIsUnique` | pkg/ref/annotation.go:174-186 | Two strictly sorted lists of the same strings are equal |
| `ImageProtocol.ImageReconciler.Reconcile` | controllers/hci/virtualmachineimage_controller.go:70-128 | An undisturbed pass removes what was made before the finalizer, initialises a new image, and remakes both objects on a URL change |
| `ImageProtocol.ImageReconciler.Initialize` | controllers/hci/virtualmachineimage_controller.go:130-176 | Finalizer first, then backing image unless one exists, storage class, and status |
| `ImageProtocol.BackingHasAppliedUrl` | controllers/hci/virtualmachineimage_controller.go:86-146 | After a pass that applied the URL there is a backing image with it, there to stay, iff none was in the way: at first initialisation one on its way out or with another URL, at a change of URL one on its way out or held by a finalizer |
| `ImageProtocol.NothingOutlivesTheFinalizer` | controllers/hci/virtualmachineimage_controller.go:86-146 | At every point between API calls of every run, with crashes anywhere, users creating, editing and deleting, and others holding what was made by finalizers, a backing image or storage class is there to stay only while the stored image carries the finalizer |
| `ImageProtocol.UnheldThingsGoAtOnce` | controllers/hci/virtualmachineimage_controller.go:103-128 | In runs where nobody holds what was made, it exists at all only while the stored image carries the finalizer |
| `ImageProtocol.HeldThingsLinger` | controllers/hci/virtualmachineimage_controller.go:103-128 | A run after which the image is gone and a backing image that was held is still there, on its way out |
| `ImageProtocol.PassIsARun` | controllers/hci/virtualmachineimage_controller.go:70-176 | From every state without a running pass an undisturbed pass leaves the image and what was made for it as one read of the newest version and at most six further calls of the interleaved system do |
| `ImageProtocol.RemovalTakesEverything` | controllers/hci/virtualmachineimage_controller.go:103-128 | A pass over a deleted image lets it go and leaves neither object to stay; one is on its way out iff it was, or was held |
| `ImageProtocol.InitializationRecords` | controllers/hci/virtualmachineimage_controller.go:86-176 | A pass over an image that is new or has another URL marks it, makes both objects and records URL and reachability; over any other it does nothing |
| `ImageProtocol.OlderReadsLeaveOrphans` | controllers/hci/virtualmachineimage_controller.go:86-146 | A run with a cache that goes back in time leaves a backing image without an image |
| `BackupTarget.BackupSettingReconciler.OnChange` | controllers/hci/backup_target.go:63-132 | One pass leaves the setting, Longhorn target and secret its branches say, with errors at each of its calls, and counts changes of the setting |
| `BackupTarget.BackupSettingReconciler.SetConfiguredCondition` | controllers/hci/backup_target.go:300-306 | True without a message, or False with the error; unchanged if the update fails |
| `BackupTarget.BackupSettingReconciler.UpdateLonghornTarget` | controllers/hci/backup_target.go:155-183 | The Longhorn setting holds the constructed endpoint, unless the call fails |
| `BackupTarget.BackupSettingReconciler.UpdateBackupTargetSecret` | controllers/hci/backup_target.go:208-298 | The secret holds the credentials and Longhorn refers to it, up to the first error |
| `BackupTarget.SettlesInTwoPasses` | controllers/hci/backup_target.go:63-183 | From any NFS, default or credential-carrying S3 target any number of passes changes the setting at most twice and nothing from the second pass on; there Longhorn points at the endpoint of the setting, unchanged by the passes, and S3 credentials are gone from it |
| `BackupTarget.FaultsOnlyDelay` | controllers/hci/backup_target.go:63-183 | After any passes that failed at any call, two passes without an error end with the Longhorn target, secret, reference and setting value that two passes would have reached from the start |
| `BackupTarget.SecretFollowsTarget` | controllers/hci/backup_target.go:208-298 | At the fixpoint the secret holds the credentials the setting came with, and exists for S3 only |
| `BackupTarget.SettledTarget` | controllers/hci/backup_target.go:63-318 | At the fixpoint, spelt out: for S3 Longhorn has bucket and region in its endpoint, the secret both keys, endpoint, certificate and style, the setting neither key; for NFS Longhorn has the endpoint with its scheme, and there is no secret; neither for the default |
| `BackupTarget.FirstErrorIsReported` | controllers/hci/backup_target.go:63-183 | The first error met is reported in the condition, and the calls behind it are not made |
| `BackupTarget.OthersAreRejected` | controllers/hci/backup_target.go:63-132 | Text that does not decode and targets of no known kind are reported and propagate nothing; a blank or deleted setting is left alone |
| `BackupTarget.ConditionAtFixpoint` | controllers/hci/backup_target.go:63-132 | At the fixpoint the condition is False for the default target; for S3 and NFS it is True, unless it started Unknown or absent from a list of other conditions, and only then it stays as it was |
| `BackupTarget.BareS3IsNotPropagated` | controllers/hci/backup_target.go:80-130 | An S3 target without credentials is confirmed but never reaches Longhorn |
| `BackupTarget.NfsSchemeIsOptional` | controllers/hci/backup_target.go:308-318 | The NFS endpoint carries its scheme once, whether or not the setting does |

## Left out

- BackupMachine.ReadyToUseMeansReady: assumes that no snapshot is reported both ready and errored, because the property fails otherwise; the exact condition is in `BackupWriters.ConcludedAgrees`.
- BackupMachine.ReadyBackupNeverChanges: users edit only the annotated target and the deletion mark of a backup. There is no status subresource, so they could write spec and status as well.
- RestorePass.RestoreReconciler.OnRestoreChange: creations and updates of the pass do not fail, and the recorded source has a template, as initialising a backup ensures.
- RestoredVm.RestoresTheVmRead: for a backup object that starts without a source; one recreated from metadata has the source of the file instead (`Metadata.RecreatedMatchesOriginal`). It assumes what `RestoreResources.SecretsResolve` does.
- RestoreMachine.DeletionsAreSafe: assumes that no claim name recorded by a ready backup contains the restore's uid, and that only the restore's passes change the VM's spec; another restore or a user may rewire it.
- RestoreMachine.ClaimsComeFromTheirVolume: a run has one restore and one backup object, and neither they nor the VM are deleted and created again under the same name.
- RestoreMachine.RestoresAreSound: for a restore created without status and owner references, whose spec and status users leave alone.
- RestoreMachine.NextKeepsInv: claims are not stored there; what a pass finds of one is arbitrary at each look. The secrets stage and the start call are in `RestorePass` only, since they touch neither restore, backup nor VM spec.
- RestoreProgress.FourPassesComplete: for the delete policy the old claims must exist, and be distinct or still mounted; the exact condition is in `RestoreProgress.CompletesExactly`.
- RestoreResources.SecretsResolve: assumes that the truncated hash distinguishes the secret names, and that nobody else changes the spec or the mark of a VM the restore has marked.
- PvcOwnership.OwnersAfterPass: needs an index coherent at entry; whether it is coherent afterwards is `PvcOwnership.CoherentAfterPass`. Claims are those of one namespace.
- OwnerHandover.OwnerNeverPassesDirectly: other writers of a claim are assumed to keep its owner annotation.
- Metadata.RoundTripNeverRewrites: for backups in a namespace, into a store whose files lie under their own names.
- Metadata.RecreatedKeepsMetadata: excludes error resets and changed Longhorn backup names, which do change the metadata.
- ImageProtocol.NothingOutlivesTheFinalizer: one image, one reconcile at a time, and derived names used by no other image, because storage class names omit the namespace.
- BackupTarget.SettlesInTwoPasses: no call of these passes fails and nobody edits the setting between them; failing passes before are covered by `BackupTarget.FaultsOnlyDelay`.
- BackupTarget.BackupSettingReconciler.UpdateBackupTargetSecret: additional CA and proxy data of the secret are not modelled.
- BackupWriters.ReconcileVolumeSnapshots: what it meets for a volume is its input; `BackupReconciler.SeenOf` computes it from the snapshots, the claim and the answers to creations. The closing store write is in `BackupReconciler.Reconciler.SnapshotsThenConditions`.
- RestorePass.RestoreReconciler.CreateRestoredPvc: owner references, labels and resource requests are not modelled, and the creation itself does not fail.
- RestorePass.RestoreReconciler.GetOrCreateVolumeSnapshot: the snapshot copies are their names only, and the creations do not fail.
- RestorePass.RestoreReconciler.CreateNewVm: template annotations and labels are not modelled, and the creation does not fail.
- Metadata.SyncVmBackup: a namespace created for a backup whose own creation then fails is not modelled.
- Contents of the VolumeSnapshot and VolumeSnapshotContent created for a backup: creating them succeeds with some status, fails, or crashes.
- The map from CSI driver to snapshot class, mounting by a restore, and the start call: arbitrary results.
- The VM as read by a backup: readiness, labels and template metadata other than annotations of claims; SSH key annotations renamed in a restored template.
- OnBackupRemove, OnRestoreRemove and the forced deletion of snapshots: clean-up around foreign finalizers.
- Store drivers, proxies and environment settings: reaching or writing the store fails or not; HTTP HEAD is an arbitrary answer.
- JSON text: taken as lossless on the modelled values; a list and its absence are told apart only in the owner annotation.
- Owner references and labels of created secrets.
- Restores whose target is not a VirtualMachine: the source answers with an error.
- Claims made from a VM's annotation, keypairs, other settings, backing-image progress: simple branches.
- Wiring: managers, watches, RBAC and generated code.
