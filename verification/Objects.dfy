/** The API objects the controllers read and write. A list or map read back from
    the store is empty exactly when the Go value is nil (all carry omitempty). */
module Objects {
  import opened Outcomes
  import opened Conditions

  datatype Error = Error(time: nat, message: Option<string>)

  // Virtual machines

  datatype CloudInit = CloudInit(userData: Option<string>, networkData: Option<string>)
  datatype Volume = Volume(name: string, claim: Option<string>, cloudInit: Option<CloudInit>)
  datatype Credential = Credential(sshKey: Option<string>, userPassword: Option<string>)
  datatype RunStrategy = Always | RerunOnFailure | Manual | Halted
  datatype VmSpec = VmSpec(runStrategy: Option<RunStrategy>, volumes: seq<Volume>, credentials: seq<Credential>,
        macs: seq<string>)
  datatype Vm = Vm(name: string, namespace: string, uid: string, annotations: map<string, string>, spec: VmSpec,
        ready: bool)

  // Claims, the volumes bound to them, and secrets

  datatype Phase = Pending | Bound | Lost
  /** `shape` stands for access modes, resources and volume mode. */
  datatype ClaimSpec = ClaimSpec(volumeName: string, storageClass: Option<string>, shape: string)
  datatype ClaimSource = ClaimSource(name: string, namespace: string, annotations: map<string, string>, spec: ClaimSpec)
  type Data = map<string, string>
  datatype SecretBackup = SecretBackup(name: string, data: Data)

  // VirtualMachineBackup

  datatype BackupType = BackupTo | SnapshotOnly
  datatype BackupSpec = BackupSpec(sourceName: string, kind: BackupType)
  datatype Target = Target(endpoint: string, bucketName: string, bucketRegion: string)
  datatype VmSource = VmSource(name: string, namespace: string, annotations: map<string, string>, spec: VmSpec)
  datatype VolumeBackup = VolumeBackup(
    name: Option<string>, volumeName: string, driver: string, claim: ClaimSource,
    longhornBackup: Option<string>, created: Option<nat>, ready: Option<bool>, error: Option<Error>)
  datatype BackupStatus = BackupStatus(
    sourceUid: Option<string>, created: Option<nat>, target: Option<Target>, classNames: map<string, string>,
    source: Option<VmSource>, volumes: seq<VolumeBackup>, secrets: seq<SecretBackup>,
    ready: Option<bool>, error: Option<Error>, conditions: seq<Condition>)
  datatype Backup = Backup(
    name: string, namespace: string, uid: string, annotated: Target, deleting: bool, finalizer: bool,
    spec: BackupSpec, status: Option<BackupStatus>)

  const NO_TARGET := Target("", "", "")
  const EMPTY_BACKUP_STATUS := BackupStatus(None, None, None, map[], None, [], [], None, None, [])

  predicate IsBackupReady(b: Backup) {
    b.status.Some? && b.status.value.ready == Some(true)
  }

  predicate IsBackupMissingStatus(b: Backup) {
    b.status.None? || b.status.value.source.None? || b.status.value.volumes == []
  }

  // VirtualMachineRestore

  datatype RestoreSpec = RestoreSpec(targetName: string, backupName: string, newVm: bool, retain: bool)
  datatype VolumeRestore = VolumeRestore(volumeName: string, claimName: string, spec: ClaimSpec,
        volumeBackupName: string)
  datatype OwnerRef = OwnerRef(name: string, uid: string)
  datatype RestoreStatus = RestoreStatus(
    volumes: seq<VolumeRestore>, restored: Option<nat>, deletedVolumes: seq<string>,
    complete: Option<bool>, conditions: seq<Condition>, targetUid: Option<string>)
  datatype Restore = Restore(
    name: string, namespace: string, uid: string, deleting: bool, owner: Option<OwnerRef>,
    spec: RestoreSpec, status: Option<RestoreStatus>)

  predicate IsRestoreProgressing(r: Restore) {
    r.status.None? || r.status.value.complete != Some(true)
  }

  predicate KeepsOldVolumes(r: Restore) {
    r.spec.newVm || r.spec.retain
  }

  predicate IsRestoreMissingVolumes(r: Restore)
    requires r.status.Some?
  {
    r.status.value.volumes == [] || (!KeepsOldVolumes(r) && r.status.value.deletedVolumes == [])
  }

  function RestoreId(r: Restore): string {
    r.name + "-" + r.uid
  }

  function RestoredClaimName(r: Restore, volumeName: string): string {
    "restore-" + r.spec.backupName + "-" + r.uid + "-" + volumeName
  }
}
