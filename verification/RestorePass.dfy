/** One pass over a VirtualMachineRestore that nothing interrupts, with all it reads and writes. */
module RestorePass {
  import opened Outcomes
  import opened Conditions
  import opened Objects
  import opened Volumes
  import opened Secrets
  import opened PvcOwnership
  import opened RestoreWriters

  /** A claim made from a snapshot; one still mounted outlives its deletion. */
  datatype Claim = Claim(phase: Phase, mounted: bool, annotations: map<string, string>, snapshot: string)

  /** `snapshots` and `contents` are the copies made for a restore into another namespace, `longhorn` the
      Longhorn backups; `writes` counts creations, updates and deletions. */
  datatype Cluster = Cluster(
    restore: Restore, backup: Option<Backup>, claims: map<string, Claim>, snapshots: set<string>, contents: set<string>,
    longhorn: set<string>, vm: Option<Vm>, secrets: map<string, Data>, writes: nat)

  /** Errors of mounting Longhorn volumes and of the start call, the uid a created VM gets, the time. */
  datatype Env = Env(mount: Option<string>, start: Option<string>, uid: string, now: nat)

  /** The VM, and whether every restored claim is Bound. */
  datatype Resources = Resources(vm: Vm, bound: bool)

  type Hex = string -> string
  type Joined = seq<string> -> string

  // Volumes

  function Sourced(safe: Joined, c: Cluster, vb: VolumeBackup): (Cluster, Outcome<string>)
    requires vb.name.Some?
  {
    if c.restore.namespace == vb.claim.namespace then (c, Ok(vb.name.value))
    else
      var snapshot := safe(["restore", c.restore.name, vb.name.value]);
      var content := safe(["restore", c.restore.namespace, c.restore.name, vb.name.value]);
      if snapshot in c.snapshots then (c, Ok(snapshot))
      else if content in c.contents
        then (c.(snapshots := c.snapshots + {snapshot}, writes := c.writes + 1), Ok(snapshot))
      else if vb.longhornBackup.None? then (c, Panic)
      else if vb.longhornBackup.value !in c.longhorn then (c, Err("longhorn backup not found"))
      else (c.(contents := c.contents + {content}, snapshots := c.snapshots + {snapshot}, writes := c.writes + 2),
        Ok(snapshot))
  }

  function ClaimMade(safe: Joined, c: Cluster, vr: VolumeRestore, vb: VolumeBackup): (Cluster, Outcome<bool>) {
    if vb.name.None? then (c, Err("missing VolumeSnapshot name"))
    else
      match Sourced(safe, c, vb)
      case (d, Ok(snapshot)) =>
        (d.(claims := d.claims[vr.claimName := Claim(Pending, false,
          RestoredAnnotations(vb.claim.annotations, c.restore.name), snapshot)],
            writes := d.writes + 1), Ok(false))
      case (d, Err(e)) => (d, Err(e))
      case (d, Panic) => (d, Panic)
  }

  predicate Lists(c: Cluster, n: nat) {
    c.restore.status.Some? && n <= |c.restore.status.value.volumes|
  }

  function VolumeSeen(safe: Joined, c: Cluster, b: Backup, i: nat, ready: bool): (Cluster, Outcome<bool>)
    requires Lists(c, i + 1) && b.status.Some?
  {
    var vr := c.restore.status.value.volumes[i];
    if vr.claimName !in c.claims then
      if i < |b.status.value.volumes| then ClaimMade(safe, c, vr, b.status.value.volumes[i]) else (c, Panic)
    else if c.claims[vr.claimName].phase.Pending? then (c, Ok(false))
    else if c.claims[vr.claimName].phase.Bound? then (c, Ok(ready))
    else (c, Err("PVC in status Lost"))
  }

  /** The first n volumes looked at, in order, until one fails. */
  function VolumesSeen(safe: Joined, c: Cluster, b: Backup, n: nat): (out: (Cluster, Outcome<bool>))
    requires Lists(c, n) && b.status.Some?
    ensures out.0 == c.(claims := out.0.claims, snapshots := out.0.snapshots, contents := out.0.contents,
      writes := out.0.writes)
  {
    if n == 0 then (c, Ok(true))
    else
      var (d, ready) := VolumesSeen(safe, c, b, n - 1);
      if ready.Ok? then VolumeSeen(safe, d, b, n - 1, ready.value) else (d, ready)
  }

  // The target VM

  function VmSeen(hex: Hex, c: Cluster, b: Backup, uid: string): (Cluster, Vm)
    requires Lists(c, 0) && Usable(b)
  {
    var source, vrs := b.status.value.source.value, c.restore.status.value.volumes;
    if c.vm.Some? && RestoredBy(c.restore, c.vm.value) then (c, c.vm.value)
    else
      var vm := if c.vm.None? then CreatedVm(hex, c.restore, source, vrs, uid)
        else UpdatedVm(c.restore, source, vrs, c.vm.value);
      (c.(vm := Some(vm), writes := c.writes + 1), vm)
  }

  // Secrets

  function Rename(hex: Hex, r: Restore): Hex {
    if r.spec.newVm then name => SecretRefName(hex, r.spec.targetName, name) else name => name
  }

  function SecretSeen(c: Cluster, name: string, data: Data): Cluster {
    if name in c.secrets && c.secrets[name] == data then c
    else c.(secrets := c.secrets[name := data], writes := c.writes + 1)
  }

  function SecretsSeen(c: Cluster, backups: seq<SecretBackup>, rename: Hex): (out: Cluster)
    ensures out == c.(secrets := out.secrets, writes := out.writes)
  {
    if backups == [] then c
    else
      var last := backups[|backups| - 1];
      SecretSeen(SecretsSeen(c, backups[..|backups| - 1], rename), rename(last.name), last.data)
  }

  function ResourcesSeen(hex: Hex, safe: Joined, c: Cluster, b: Backup, uid: string): (Cluster, Outcome<Resources>)
    requires Lists(c, 0) && Usable(b)
  {
    match VolumesSeen(safe, c, b, |c.restore.status.value.volumes|)
    case (d, Ok(bound)) =>
      var (e, vm) := VmSeen(hex, d, b, uid);
      (SecretsSeen(e, b.status.value.secrets, Rename(hex, c.restore)), Ok(Resources(vm, bound)))
    case (d, Err(m)) => (d, Err(m))
    case (d, Panic) => (d, Panic)
  }

  // Old claims

  function DeletedOne(c: Cluster, name: string): (Cluster, bool) {
    if name !in c.claims then (c, false)
    else if c.claims[name].mounted then (c.(writes := c.writes + 1), true)
    else (c.(claims := c.claims - {name}, writes := c.writes + 1), true)
  }

  /** The named claims deleted one after the other, and whether all could be. */
  function OldDeleted(c: Cluster, names: seq<string>): (out: (Cluster, bool))
    ensures out.0 == c.(claims := out.0.claims, writes := out.0.writes)
  {
    if names == [] then (c, true)
    else
      var (d, ok) := OldDeleted(c, names[..|names| - 1]);
      if ok then DeletedOne(d, names[|names| - 1]) else (d, false)
  }

  // Status

  /** Status updates compare first. */
  function StatusWritten(c: Cluster, s: RestoreStatus): Cluster {
    if c.restore.status == Some(s) then c else c.(restore := c.restore.(status := Some(s)), writes := c.writes + 1)
  }

  function Failed(c: Cluster, message: string, now: nat): (Cluster, Outcome<bool>)
    requires Lists(c, 0)
  {
    (StatusWritten(c, FailedStatus(c.restore.status.value, message, now)), Err(message))
  }

  function StatusUpdated(c: Cluster, res: Resources, env: Env): (Cluster, Outcome<bool>)
    requires Lists(c, 0)
  {
    var s := c.restore.status.value;
    if !res.bound then (StatusWritten(c, WaitingForClaims(s, env.now)), Ok(true))
    else if env.start.Some? then Failed(c, "failed to start vm, err:" + env.start.value, env.now)
    else if !res.vm.ready then (StatusWritten(c, WaitingForVm(s, env.now)), Ok(true))
    else
      match if KeepsOldVolumes(c.restore) then (c, true) else OldDeleted(c, s.deletedVolumes)
      case (d, false) => Failed(d, "error cleaning up", env.now)
      case (d, true) =>
        (d.(restore := c.restore.(status := Some(CompletedRestore(s, env.now))), writes := d.writes + 1), Ok(true))
  }

  // The whole pass

  function BackupFound(c: Cluster): Outcome<Backup> {
    if c.backup.None? then Err("backup not found")
    else if !IsBackupReady(c.backup.value) then Err("VMBackup is not ready")
    else if c.backup.value.status.value.source.None? then Err("empty vm backup source spec")
    else Ok(c.backup.value)
  }

  function VolumesListed(c: Cluster, b: Backup, env: Env): (Cluster, Outcome<bool>)
    requires Lists(c, 0) && Usable(b)
  {
    if env.mount.Some? then Failed(c, env.mount.value, env.now)
    else
      match ListedStatus(c.restore, c.restore.status.value, b.status.value.volumes)
      case Ok(s) => (c.(restore := c.restore.(status := Some(s)), writes := c.writes + 1), Ok(true))
      case Err(m) => (c, Err(m))
      case Panic => (c, Panic)
  }

  function OwnerSet(c: Cluster, vm: Vm): Cluster
    requires Lists(c, 0)
  {
    var s := c.restore.status.value;
    c.(restore := c.restore.(owner := Some(OwnerRef(vm.name, vm.uid)),
                             status := Some(if s.targetUid.None? then s.(targetUid := Some(vm.uid)) else s)),
       writes := c.writes + 1)
  }

  function Restoring(hex: Hex, safe: Joined, c: Cluster, b: Backup, env: Env): (Cluster, Outcome<bool>)
    requires Lists(c, 0) && Usable(b)
  {
    match ResourcesSeen(hex, safe, c, b, env.uid)
    case (d, Err(m)) => Failed(d, m, env.now)
    case (d, Panic) => (d, Panic)
    case (d, Ok(res)) => if c.restore.owner.None? then (OwnerSet(d, res.vm), Ok(true)) else StatusUpdated(d, res, env)
  }

  function PassOf(hex: Hex, safe: Joined, c: Cluster, env: Env): (Cluster, Outcome<bool>) {
    if c.restore.deleting || !IsRestoreProgressing(c.restore) then (c, Ok(true))
    else if c.restore.status.None? then
      (c.(restore := c.restore.(status := Some(InitialStatus(env.now))), writes := c.writes + 1), Ok(true))
    else
      match BackupFound(c)
      case Err(m) => Failed(c, m, env.now)
      case Panic => (c, Panic)
      case Ok(b) => if IsRestoreMissingVolumes(c.restore) then VolumesListed(c, b, env)
        else Restoring(hex, safe, c, b, env)
  }

  // The controller

  /** A VM template in memory: a spec copied by assignment shares it. */
  class Template {
    var volumes: seq<Volume>

    constructor (initial: seq<Volume>)
      ensures volumes == initial
    {
      volumes := initial;
    }
  }

  class RestoreReconciler {
    var restore: Restore
    var backup: Option<Backup>
    var claims: map<string, Claim>
    var snapshots: set<string>
    var contents: set<string>
    var longhorn: set<string>
    var vm: Option<Vm>
    var secrets: map<string, Data>
    var writes: nat
    const hex: Hex
    const safe: Joined

    constructor (c: Cluster, digest: Hex, join: Joined)
      ensures Now() == c && hex == digest && safe == join
    {
      restore, backup, claims, snapshots, contents := c.restore, c.backup, c.claims, c.snapshots, c.contents;
      longhorn, vm, secrets, writes, hex, safe := c.longhorn, c.vm, c.secrets, c.writes, digest, join;
    }

    function Now(): Cluster
      reads this
    {
      Cluster(restore, backup, claims, snapshots, contents, longhorn, vm, secrets, writes)
    }

    method GetOrCreateVolumeSnapshot(vb: VolumeBackup) returns (result: Outcome<string>)
      requires vb.name.Some? && restore.namespace != vb.claim.namespace
      modifies this`snapshots, this`contents, this`writes
      ensures (Now(), result) == Sourced(safe, old(Now()), vb)
    {
      var snapshot := safe(["restore", restore.name, vb.name.value]);
      if snapshot in snapshots {
        return Ok(snapshot);
      }
      var content := safe(["restore", restore.namespace, restore.name, vb.name.value]);
      if content !in contents {
        if vb.longhornBackup.None? {
          return Panic;
        }
        if vb.longhornBackup.value !in longhorn {
          return Err("longhorn backup not found");
        }
        contents, writes := contents + {content}, writes + 1;
      }
      snapshots, writes := snapshots + {snapshot}, writes + 1;
      result := Ok(snapshot);
    }

    method CreateRestoredPvc(vr: VolumeRestore, vb: VolumeBackup) returns (result: Outcome<bool>)
      modifies this`claims, this`snapshots, this`contents, this`writes
      ensures (Now(), result) == ClaimMade(safe, old(Now()), vr, vb)
    {
      if vb.name.None? {
        return Err("missing VolumeSnapshot name");
      }
      var dataSource := vb.name.value;
      if restore.namespace != vb.claim.namespace {
        var snapshot := GetOrCreateVolumeSnapshot(vb);
        if !snapshot.Ok? {
          return if snapshot.Err? then Err(snapshot.message) else Panic;
        }
        dataSource := snapshot.value;
      }
      var annotations := CopyAnnotations(vb.claim.annotations, restore.name);
      claims, writes := claims[vr.claimName := Claim(Pending, false, annotations, dataSource)], writes + 1;
      result := Ok(false);
    }

    /** One turn of the loop below. */
    method ReconcileVolumeRestore(b: Backup, i: nat, isVolumesReady: bool) returns (result: Outcome<bool>)
      requires restore.status.Some? && i < |restore.status.value.volumes| && b.status.Some?
      modifies this`claims, this`snapshots, this`contents, this`writes
      ensures (Now(), result) == VolumeSeen(safe, old(Now()), b, i, isVolumesReady)
    {
      var volumeRestore := restore.status.value.volumes[i];
      if volumeRestore.claimName !in claims {
        if i >= |b.status.value.volumes| {
          return Panic;
        }
        result := CreateRestoredPvc(volumeRestore, b.status.value.volumes[i]);
        return;
      }
      var phase := claims[volumeRestore.claimName].phase;
      if phase.Pending? {
        return Ok(false);
      }
      if !phase.Bound? {
        return Err("PVC in status Lost");
      }
      result := Ok(isVolumesReady);
    }

    method ReconcileVolumeRestores(b: Backup) returns (result: Outcome<bool>)
      requires restore.status.Some? && b.status.Some?
      modifies this`claims, this`snapshots, this`contents, this`writes
      ensures (Now(), result) == VolumesSeen(safe, old(Now()), b, |restore.status.value.volumes|)
    {
      var volumes := restore.status.value.volumes;
      ghost var start := Now();
      result := Ok(true);
      for i := 0 to |volumes|
        invariant result.Ok? && (Now(), result) == VolumesSeen(safe, start, b, i)
      {
        VolumesStep(safe, start, b, i);
        result := ReconcileVolumeRestore(b, i, result.value);
        if !result.Ok? {
          VolumesStop(safe, start, b, i + 1, |volumes|);
          return;
        }
      }
    }

    method CreateNewVm(b: Backup, uid: string) returns (created: Vm)
      requires restore.status.Some? && Usable(b)
      modifies this`vm, this`writes
      ensures created == CreatedVm(hex, restore, b.status.value.source.value, restore.status.value.volumes, uid)
      ensures vm == Some(created) && writes == old(writes) + 1
    {
      var source := b.status.value.source.value;
      var runStrategy := RerunOnFailure;
      if source.spec.runStrategy.Some? {
        runStrategy := source.spec.runStrategy.value;
      }
      var spec := SanitizeForRestore(hex, restore.spec.targetName, source.spec);
      var newVolumes := GetNewVolumes(spec.volumes, restore.status.value.volumes);
      var macs := spec.macs;
      for i := 0 to |macs|
        invariant |macs| == |spec.macs|
        invariant forall k | 0 <= k < i :: macs[k] == ""
      {
        macs := macs[i := ""];
      }
      assert macs == seq(|spec.macs|, i => "");
      created := Vm(restore.spec.targetName, restore.namespace, uid,
                    map[LAST_RESTORE_KEY := RestoreId(restore), RESTORE_NAME_KEY := restore.name],
                    VmSpec(Some(runStrategy), newVolumes, spec.credentials, macs), false);
      vm, writes := Some(created), writes + 1;
    }

    /** The template belongs to the backup held in memory. Rewiring an existing VM overwrites its volumes;
        the stored backup keeps them. */
    method ReconcileVm(b: Backup, template: Template, uid: string) returns (result: Vm)
      requires restore.status.Some? && Usable(b) && template.volumes == b.status.value.source.value.spec.volumes
      modifies this`vm, this`writes, template
      ensures (Now(), result) == VmSeen(hex, old(Now()), b, uid)
      ensures template.volumes ==
        if old(vm).Some? && !RestoredBy(restore, old(vm).value)
          then NewVolumes(old(template.volumes), restore.status.value.volumes)
        else old(template.volumes)
    {
      KeysDiffer();
      if vm.None? {
        result := CreateNewVm(b, uid);
      } else {
        result := vm.value;
      }
      if LAST_RESTORE_KEY in result.annotations && result.annotations[LAST_RESTORE_KEY] == RestoreId(restore) {
        return;
      }
      var newVolumes := GetNewVolumes(template.volumes, restore.status.value.volumes);
      var spec := b.status.value.source.value.spec;
      template.volumes := newVolumes;
      var annotations := result.annotations[LAST_RESTORE_KEY := RestoreId(restore)];
      annotations := annotations[RESTORE_NAME_KEY := restore.name];
      annotations := annotations - {CLAIM_TEMPLATES_KEY};
      result := result.(spec := spec.(volumes := template.volumes), annotations := annotations);
      vm, writes := Some(result), writes + 1;
    }

    method CreateOrUpdateSecret(name: string, data: Data)
      modifies this`secrets, this`writes
      ensures Now() == SecretSeen(old(Now()), name, data)
    {
      if name !in secrets {
        secrets, writes := secrets[name := data], writes + 1;
      } else if secrets[name] != data {
        secrets, writes := secrets[name := data], writes + 1;
      }
    }

    method ReconcileSecretBackups(b: Backup)
      requires b.status.Some?
      modifies this`secrets, this`writes
      ensures Now() == SecretsSeen(old(Now()), b.status.value.secrets, Rename(hex, restore))
    {
      var backups := b.status.value.secrets;
      if !restore.spec.newVm {
        for i := 0 to |backups|
          invariant Now() == SecretsSeen(old(Now()), backups[..i], Rename(hex, restore))
        {
          assert backups[..i + 1][..i] == backups[..i];
          CreateOrUpdateSecret(backups[i].name, backups[i].data);
        }
        assert backups[..|backups|] == backups;
        return;
      }
      for i := 0 to |backups|
        invariant Now() == SecretsSeen(old(Now()), backups[..i], Rename(hex, restore))
      {
        assert backups[..i + 1][..i] == backups[..i];
        CreateOrUpdateSecret(SecretRefName(hex, restore.spec.targetName, backups[i].name), backups[i].data);
      }
      assert backups[..|backups|] == backups;
    }

    method ReconcileResources(b: Backup, template: Template, uid: string) returns (result: Outcome<Resources>)
      requires restore.status.Some? && Usable(b) && template.volumes == b.status.value.source.value.spec.volumes
      modifies this`claims, this`snapshots, this`contents, this`vm, this`secrets, this`writes, template
      ensures (Now(), result) == ResourcesSeen(hex, safe, old(Now()), b, uid)
    {
      var bound := ReconcileVolumeRestores(b);
      if !bound.Ok? {
        return if bound.Err? then Err(bound.message) else Panic;
      }
      var target := ReconcileVm(b, template, uid);
      ReconcileSecretBackups(b);
      result := Ok(Resources(target, bound.value));
    }

    method DeleteOldPvc() returns (deleted: bool)
      requires restore.status.Some?
      modifies this`claims, this`writes
      ensures (Now(), deleted) == if KeepsOldVolumes(restore) then (old(Now()), true)
        else OldDeleted(old(Now()), restore.status.value.deletedVolumes)
    {
      if KeepsOldVolumes(restore) {
        return true;
      }
      var names := restore.status.value.deletedVolumes;
      for i := 0 to |names|
        invariant (Now(), true) == OldDeleted(old(Now()), names[..i])
      {
        assert names[..i + 1][..i] == names[..i];
        // a claim that is not found is deleted all the same, under an empty name
        if names[i] !in claims {
          DeletionStops(old(Now()), names, i);
          return false;
        }
        if !claims[names[i]].mounted {
          claims := claims - {names[i]};
        }
        writes := writes + 1;
      }
      assert names[..|names|] == names;
      deleted := true;
    }

    method UpdateStatusError(message: string, now: nat)
      requires restore.status.Some?
      modifies this`restore, this`writes
      ensures (Now(), Err(message)) == Failed(old(Now()), message, now)
    {
      var s := restore.status.value;
      var conditions := UpdateCondition(s.conditions, NewProgressing(False, "Error", message, now));
      conditions := UpdateCondition(conditions, NewReady(False, "Error", message, now));
      if s.(conditions := conditions) != s {
        restore, writes := restore.(status := Some(s.(conditions := conditions))), writes + 1;
      }
    }

    method Wait(progressing: Condition, ready: Condition)
      requires restore.status.Some?
      modifies this`restore, this`writes
      ensures Now() == StatusWritten(old(Now()), old(restore).status.value.(conditions :=
        Report(old(restore).status.value.conditions, progressing, ready)))
    {
      var s := restore.status.value;
      var conditions := UpdateCondition(s.conditions, progressing);
      conditions := UpdateCondition(conditions, ready);
      if s.(conditions := conditions) != s {
        restore, writes := restore.(status := Some(s.(conditions := conditions))), writes + 1;
      }
    }

    method UpdateStatus(res: Resources, env: Env) returns (result: Outcome<bool>)
      requires restore.status.Some?
      modifies this`restore, this`claims, this`writes
      ensures (Now(), result) == StatusUpdated(old(Now()), res, env)
    {
      if !res.bound {
        Wait(NewProgressing(True, "", "Creating new PVCs", env.now),
          NewReady(False, "", "Waiting for new PVCs", env.now));
        return Ok(true);
      }
      if env.start.Some? {
        var message := "failed to start vm, err:" + env.start.value;
        UpdateStatusError(message, env.now);
        return Err(message);
      }
      if !res.vm.ready {
        var message := "Waiting for target vm to be ready";
        Wait(NewProgressing(False, "", message, env.now), NewReady(False, "", message, env.now));
        return Ok(true);
      }
      var deleted := DeleteOldPvc();
      if !deleted {
        UpdateStatusError("error cleaning up", env.now);
        return Err("error cleaning up");
      }
      var s := restore.status.value;
      var conditions := UpdateCondition(s.conditions, NewProgressing(False, "", "Operation complete", env.now));
      conditions := UpdateCondition(conditions, NewReady(True, "", "Operation complete", env.now));
      restore := restore.(status := Some(s.(restored := Some(env.now), complete := Some(true),
        conditions := conditions)));
      writes := writes + 1;
      result := Ok(true);
    }

    method UpdateOwnerRefAndTargetUid(target: Vm)
      requires restore.status.Some?
      modifies this`restore, this`writes
      ensures Now() == OwnerSet(old(Now()), target)
    {
      var s := restore.status.value;
      if s.targetUid.None? {
        s := s.(targetUid := Some(target.uid));
      }
      restore, writes := restore.(owner := Some(OwnerRef(target.name, target.uid)), status := Some(s)), writes + 1;
    }

    method GetVmBackup() returns (result: Outcome<Backup>)
      ensures result == BackupFound(Now())
    {
      if backup.None? {
        return Err("backup not found");
      }
      if !IsBackupReady(backup.value) {
        return Err("VMBackup is not ready");
      }
      if backup.value.status.value.source.None? {
        return Err("empty vm backup source spec");
      }
      result := Ok(backup.value);
    }

    method OnRestoreChange(env: Env) returns (result: Outcome<bool>)
      modifies this`restore, this`claims, this`snapshots, this`contents, this`vm, this`secrets, this`writes
      ensures (Now(), result) == PassOf(hex, safe, old(Now()), env)
    {
      if restore.deleting || !IsRestoreProgressing(restore) {
        return Ok(true);
      }
      if restore.status.None? {
        restore, writes := restore.(status := Some(InitialStatus(env.now))), writes + 1;
        return Ok(true);
      }
      var found := GetVmBackup();
      if !found.Ok? {
        UpdateStatusError(found.message, env.now);
        return Err(found.message);
      }
      var b := found.value;
      if IsRestoreMissingVolumes(restore) {
        if env.mount.Some? {
          UpdateStatusError(env.mount.value, env.now);
          return Err(env.mount.value);
        }
        var listed := InitVolumesStatus(restore, restore.status.value, b.status.value.volumes);
        if !listed.Ok? {
          return if listed.Err? then Err(listed.message) else Panic;
        }
        restore, writes := restore.(status := Some(listed.value)), writes + 1;
        return Ok(true);
      }
      var template := new Template(b.status.value.source.value.spec.volumes);
      var resources := ReconcileResources(b, template, env.uid);
      if resources.Err? {
        UpdateStatusError(resources.message, env.now);
        return Err(resources.message);
      }
      if resources.Panic? {
        return Panic;
      }
      if restore.owner.None? {
        UpdateOwnerRefAndTargetUid(resources.value.vm);
        return Ok(true);
      }
      result := UpdateStatus(resources.value, env);
    }
  }

  lemma VolumesStep(safe: Joined, c: Cluster, b: Backup, i: nat)
    requires Lists(c, i + 1) && b.status.Some? && VolumesSeen(safe, c, b, i).1.Ok?
    ensures var (d, ready) := VolumesSeen(safe, c, b, i);
      VolumesSeen(safe, c, b, i + 1) == VolumeSeen(safe, d, b, i, ready.value)
  {
  }

  lemma {:induction false} VolumesStop(safe: Joined, c: Cluster, b: Backup, n: nat, m: nat)
    requires Lists(c, m) && b.status.Some? && n <= m && !VolumesSeen(safe, c, b, n).1.Ok?
    ensures VolumesSeen(safe, c, b, m) == VolumesSeen(safe, c, b, n)
  {
    if n < m {
      VolumesStop(safe, c, b, n, m - 1);
    }
  }

  lemma {:induction false} DeletionStops(c: Cluster, names: seq<string>, i: nat)
    requires i < |names| && OldDeleted(c, names[..i]).1 && names[i] !in OldDeleted(c, names[..i]).0.claims
    ensures OldDeleted(c, names) == (OldDeleted(c, names[..i]).0, false)
  {
    var front := names[..|names| - 1];
    if i < |front| {
      assert front[..i] == names[..i];
      DeletionStops(c, front, i);
    } else {
      assert front == names[..i];
    }
  }
}
