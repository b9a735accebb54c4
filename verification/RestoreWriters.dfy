/** What a restore pass writes: the restore object itself and the target VM. */
module RestoreWriters {
  import opened Outcomes
  import opened Conditions
  import opened Objects
  import opened Volumes
  import opened Secrets
  import opened PvcOwnership

  // The target VM

  const LAST_RESTORE_KEY := "restore.hci.wjyl.com/last-restore-uid"
  const CLAIM_TEMPLATES_KEY := "hci.wjyl.com/volumeClaimTemplates"

  predicate RestoredBy(r: Restore, vm: Vm) {
    LAST_RESTORE_KEY in vm.annotations && vm.annotations[LAST_RESTORE_KEY] == RestoreId(r)
  }

  /** A VM made from the backup: renamed secrets, restored volumes, no MAC addresses. */
  function CreatedVm(hex: string -> string, r: Restore, source: VmSource, vrs: seq<VolumeRestore>, uid: string): Vm {
    var spec := Sanitized(hex, r.spec.targetName, source.spec);
    Vm(r.spec.targetName, r.namespace, uid, map[LAST_RESTORE_KEY := RestoreId(r), RESTORE_NAME_KEY := r.name],
       VmSpec(Some(if source.spec.runStrategy.Some? then source.spec.runStrategy.value else RerunOnFailure),
              NewVolumes(spec.volumes, vrs), spec.credentials, seq(|spec.macs|, i => "")),
       false)
  }

  /** An existing VM given the backed-up spec, with restored volumes. */
  function UpdatedVm(r: Restore, source: VmSource, vrs: seq<VolumeRestore>, vm: Vm): Vm {
    vm.(spec := source.spec.(volumes := NewVolumes(source.spec.volumes, vrs)),
        annotations :=
          vm.annotations[LAST_RESTORE_KEY := RestoreId(r)][RESTORE_NAME_KEY := r.name] - {CLAIM_TEMPLATES_KEY})
  }

  lemma KeysDiffer()
    ensures LAST_RESTORE_KEY != RESTORE_NAME_KEY && LAST_RESTORE_KEY != CLAIM_TEMPLATES_KEY &&
      RESTORE_NAME_KEY != CLAIM_TEMPLATES_KEY
  {
    assert |LAST_RESTORE_KEY| != |RESTORE_NAME_KEY| && |LAST_RESTORE_KEY| != |CLAIM_TEMPLATES_KEY| &&
      |RESTORE_NAME_KEY| != |CLAIM_TEMPLATES_KEY|;
  }

  /** Every volume with a claim uses the restore's own claim for it. */
  predicate UsesRestoredClaims(r: Restore, volumes: seq<Volume>) {
    forall v | v in volumes && v.claim.Some? :: v.claim.value == RestoredClaimName(r, v.name)
  }

  lemma WrittenVmIsRestored(hex: string -> string, r: Restore, source: VmSource, vrs: seq<VolumeRestore>,
        vbs: seq<VolumeBackup>, uid: string, vm: Vm)
    requires Paired(r, vrs, vbs) && Covers(vbs, source.spec.volumes)
    ensures RestoredBy(r, CreatedVm(hex, r, source, vrs, uid)) &&
      UsesRestoredClaims(r, CreatedVm(hex, r, source, vrs, uid).spec.volumes)
    ensures RestoredBy(r, UpdatedVm(r, source, vrs, vm)) &&
      UsesRestoredClaims(r, UpdatedVm(r, source, vrs, vm).spec.volumes)
  {
    KeysDiffer();
    NewVolumesOfPaired(r, source.spec.volumes, vrs, vbs);
    var volumes := Sanitized(hex, r.spec.targetName, source.spec).volumes;
    assert Covers(vbs, volumes) by {
      forall v | v in volumes && v.claim.Some?
        ensures exists vb :: vb in vbs && vb.volumeName == v.name
      {
        var i :| 0 <= i < |volumes| && volumes[i] == v;
        assert source.spec.volumes[i] in source.spec.volumes;
      }
    }
    NewVolumesOfPaired(r, volumes, vrs, vbs);
  }

  // The restore object

  function InitialStatus(now: nat): RestoreStatus {
    RestoreStatus([], None, [], Some(false),
      [NewProgressing(True, "", "Initializing VirtualMachineRestore", now),
        NewReady(False, "", "Initializing VirtualMachineRestore", now)], None)
  }

  function OldClaims(vbs: seq<VolumeBackup>): seq<string> {
    seq(|vbs|, i requires 0 <= i < |vbs| => vbs[i].claim.name)
  }

  function ListedStatus(r: Restore, s: RestoreStatus, vbs: seq<VolumeBackup>): Outcome<RestoreStatus> {
    match if s.volumes == [] then VolumeRestores(r, s.volumes, vbs) else Ok(s.volumes)
    case Ok(vrs) =>
      Ok(s.(volumes := vrs, deletedVolumes := if !KeepsOldVolumes(r) && s.deletedVolumes == []
        then OldClaims(vbs) else s.deletedVolumes))
    case Err(e) => Err(e)
    case Panic => Panic
  }

  method InitVolumesStatus(r: Restore, s: RestoreStatus, vbs: seq<VolumeBackup>)
        returns (result: Outcome<RestoreStatus>)
    ensures result == ListedStatus(r, s, vbs)
  {
    var out := s;
    if out.volumes == [] {
      var vrs := GetVolumeRestores(r, out.volumes, vbs);
      if !vrs.Ok? {
        return if vrs.Err? then Err(vrs.message) else Panic;
      }
      out := out.(volumes := vrs.value);
    }
    if !KeepsOldVolumes(r) && s.deletedVolumes == [] {
      var deletedVolumes: seq<string> := [];
      for i := 0 to |vbs|
        invariant deletedVolumes == OldClaims(vbs)[..i]
      {
        deletedVolumes := deletedVolumes + [vbs[i].claim.name];
      }
      assert deletedVolumes == OldClaims(vbs);
      out := out.(deletedVolumes := deletedVolumes);
    }
    result := Ok(out);
  }

  /** The restore lists the claim of every volume backup, in order. */
  predicate ListsOldClaims(s: RestoreStatus, vbs: seq<VolumeBackup>) {
    |s.deletedVolumes| == |vbs| && forall i | 0 <= i < |vbs| :: s.deletedVolumes[i] == vbs[i].claim.name
  }

  /** Volumes are listed once, one for every volume backup; so are the old claims, all of them, unless they are
      kept. Listing changes nothing else and fails only for want of a snapshot name. */
  lemma ListedRecords(r: Restore, s: RestoreStatus, vbs: seq<VolumeBackup>)
    ensures var listed := ListedStatus(r, s, vbs);
      && (listed.Ok? <==> s.volumes != [] || forall vb | vb in vbs :: vb.name.Some?)
      && (listed.Ok? ==>
        && (s.volumes == [] ==> Paired(r, listed.value.volumes, vbs))
        && (s.volumes != [] ==> listed.value.volumes == s.volumes)
        && (!r.spec.newVm && !r.spec.retain && s.deletedVolumes == [] ==> ListsOldClaims(listed.value, vbs))
        && (r.spec.newVm || r.spec.retain || s.deletedVolumes != [] ==>
              listed.value.deletedVolumes == s.deletedVolumes)
        && listed.value == s.(volumes := listed.value.volumes, deletedVolumes := listed.value.deletedVolumes))
  {
    VolumeRestoresPair(r, vbs);
  }

  function FailedStatus(s: RestoreStatus, message: string, now: nat): RestoreStatus {
    s.(conditions := Report(s.conditions, NewProgressing(False, "Error", message, now),
      NewReady(False, "Error", message, now)))
  }

  function WaitingForClaims(s: RestoreStatus, now: nat): RestoreStatus {
    s.(conditions := Report(s.conditions, NewProgressing(True, "", "Creating new PVCs", now),
      NewReady(False, "", "Waiting for new PVCs", now)))
  }

  function WaitingForVm(s: RestoreStatus, now: nat): RestoreStatus {
    var message := "Waiting for target vm to be ready";
    s.(conditions := Report(s.conditions, NewProgressing(False, "", message, now), NewReady(False, "", message, now)))
  }

  function CompletedRestore(s: RestoreStatus, now: nat): RestoreStatus {
    s.(restored := Some(now), complete := Some(true),
       conditions := Report(s.conditions, NewProgressing(False, "", "Operation complete", now),
         NewReady(True, "", "Operation complete", now)))
  }

  datatype RestoreWriter =
    | UserEdit(deleting: bool)
    | Initialize(now: nat)
    | ListVolumes(backup: Backup)
    | SetOwner(owner: OwnerRef)
    | WaitForClaims(now: nat)
    | WaitForVm(now: nat)
    | Complete(now: nat)
    | Fail(message: string, now: nat)

  predicate Usable(b: Backup) {
    IsBackupReady(b) && b.status.value.source.Some?
  }

  /** The branch of the controller that leads to the write, taken on the version held. */
  predicate CanWrite(w: RestoreWriter, r: Restore) {
    match w
    case UserEdit(deleting) => r.deleting ==> deleting
    case Initialize(_) => !r.deleting && r.status.None?
    case Fail(_, _) => !r.deleting && IsRestoreProgressing(r) && r.status.Some?
    case ListVolumes(b) =>
      !r.deleting && IsRestoreProgressing(r) && r.status.Some? && IsRestoreMissingVolumes(r) &&
      Usable(b) && ListedStatus(r, r.status.value, b.status.value.volumes).Ok?
    case SetOwner(_) =>
      !r.deleting && IsRestoreProgressing(r) && r.status.Some? && !IsRestoreMissingVolumes(r) && r.owner.None?
    case _ =>
      !r.deleting && IsRestoreProgressing(r) && r.status.Some? && !IsRestoreMissingVolumes(r) && r.owner.Some?
  }

  function Wrote(w: RestoreWriter, r: Restore): Restore
    requires CanWrite(w, r)
  {
    match w
    case UserEdit(deleting) => r.(deleting := deleting)
    case Initialize(now) => r.(status := Some(InitialStatus(now)))
    case ListVolumes(b) => r.(status := Some(ListedStatus(r, r.status.value, b.status.value.volumes).value))
    case SetOwner(owner) =>
      var s := r.status.value;
      r.(owner := Some(owner), status := Some(if s.targetUid.None? then s.(targetUid := Some(owner.uid)) else s))
    case WaitForClaims(now) => r.(status := Some(WaitingForClaims(r.status.value, now)))
    case WaitForVm(now) => r.(status := Some(WaitingForVm(r.status.value, now)))
    case Complete(now) => r.(status := Some(CompletedRestore(r.status.value, now)))
    case Fail(message, now) => r.(status := Some(FailedStatus(r.status.value, message, now)))
  }

  // What every write keeps

  predicate IsComplete(r: Restore) {
    r.status.Some? && r.status.value.complete == Some(true)
  }

  predicate ReportsComplete(r: Restore) {
    r.status.Some? && StatusOf(r.status.value.conditions, Ready) == Some(True)
  }

  predicate SoundRestore(r: Restore) {
    && (IsComplete(r) <==> ReportsComplete(r))
    && (r.status.Some? ==>
      ExactlyOnce(r.status.value.conditions, Ready) && ExactlyOnce(r.status.value.conditions, InProgress))
    && (r.owner.Some? ==> r.status.Some? && r.status.value.targetUid.Some?)
    && (IsComplete(r) ==> r.owner.Some?)
  }

  lemma WroteKeepsSound(w: RestoreWriter, r: Restore)
    requires CanWrite(w, r) && SoundRestore(r)
    ensures SoundRestore(Wrote(w, r))
  {
    match w
    case Initialize(now) =>
      var cs := InitialStatus(now).conditions;
      FirstIs(cs, InProgress, 0);
      FirstIs(cs, Ready, 1);
    case WaitForClaims(now) =>
      ReportReads(r.status.value.conditions, NewProgressing(True, "", "Creating new PVCs", now),
        NewReady(False, "", "Waiting for new PVCs", now));
    case WaitForVm(now) =>
      var message := "Waiting for target vm to be ready";
      ReportReads(r.status.value.conditions, NewProgressing(False, "", message, now),
        NewReady(False, "", message, now));
    case Complete(now) =>
      ReportReads(r.status.value.conditions, NewProgressing(False, "", "Operation complete", now),
        NewReady(True, "", "Operation complete", now));
    case Fail(message, now) =>
      ReportReads(r.status.value.conditions, NewProgressing(False, "Error", message, now),
        NewReady(False, "Error", message, now));
    case _ =>
  }

  /** What each write reports, and what besides the report it leaves of the status. */
  lemma WroteReports(w: RestoreWriter, r: Restore)
    requires CanWrite(w, r)
    ensures var out := Wrote(w, r);
      match w
      case Initialize(now) =>
        var s := out.status.value;
        && s == RestoreStatus([], None, [], Some(false), s.conditions, None)
        && Says(s.conditions, InProgress, True, "", "Initializing VirtualMachineRestore")
        && Says(s.conditions, Ready, False, "", "Initializing VirtualMachineRestore")
      case WaitForClaims(now) =>
        OnlyReports(r, out, True, False, "", "Creating new PVCs", "Waiting for new PVCs")
      case WaitForVm(now) =>
        OnlyReports(r, out, False, False, "", "Waiting for target vm to be ready", "Waiting for target vm to be ready")
      case Fail(message, now) => OnlyReports(r, out, False, False, "Error", message, message)
      case Complete(now) =>
        var s, t := r.status.value, out.status.value;
        && out == r.(status := Some(s.(restored := Some(now), complete := Some(true), conditions := t.conditions)))
        && Says(t.conditions, InProgress, False, "", "Operation complete")
        && Says(t.conditions, Ready, True, "", "Operation complete")
      case _ => r.status.Some? ==> out.status.Some? && out.status.value.conditions == r.status.value.conditions
  {
    match w
    case Initialize(now) =>
      var cs := InitialStatus(now).conditions;
      FirstIs(cs, InProgress, 0);
      FirstIs(cs, Ready, 1);
    case WaitForClaims(now) =>
      ReportSays(r.status.value.conditions, NewProgressing(True, "", "Creating new PVCs", now),
        NewReady(False, "", "Waiting for new PVCs", now));
    case WaitForVm(now) =>
      var message := "Waiting for target vm to be ready";
      ReportSays(r.status.value.conditions, NewProgressing(False, "", message, now), NewReady(False, "", message, now));
    case Complete(now) =>
      ReportSays(r.status.value.conditions, NewProgressing(False, "", "Operation complete", now),
        NewReady(True, "", "Operation complete", now));
    case Fail(message, now) =>
      ReportSays(r.status.value.conditions, NewProgressing(False, "Error", message, now),
        NewReady(False, "Error", message, now));
    case _ =>
  }

  /** Only the conditions differ, and they report this. */
  predicate OnlyReports(r: Restore, out: Restore, progressing: Status, ready: Status, reason: string,
        progress: string, readiness: string)
    requires r.status.Some?
  {
    out.status.Some? && out == r.(status := Some(r.status.value.(conditions := out.status.value.conditions))) &&
    Says(out.status.value.conditions, InProgress, progressing, reason, progress) &&
    Says(out.status.value.conditions, Ready, ready, reason, readiness)
  }

  /** A completed restore is only ever marked for deletion. */
  lemma WroteKeepsComplete(w: RestoreWriter, r: Restore)
    requires CanWrite(w, r) && IsComplete(r)
    ensures Wrote(w, r) == r.(deleting := Wrote(w, r).deleting)
  {
  }

  predicate SameRestore(a: Restore, b: Restore) {
    a.name == b.name && a.namespace == b.namespace && a.uid == b.uid && a.spec == b.spec
  }

  lemma WroteKeepsIdentity(w: RestoreWriter, r: Restore)
    requires CanWrite(w, r)
    ensures SameRestore(r, Wrote(w, r))
  {
  }
}
