/** One Reconcile pass over a VirtualMachineBackup that no other call disturbs. */
module BackupReconciler {
  import opened Outcomes
  import opened Conditions
  import opened Objects
  import opened Volumes
  import opened Secrets
  import opened BackupWriters
  import opened BackupMachine
  import M = Metadata

  /** Errors the API server answers the first and the second update of the backup with. */
  datatype Refusals = Refusals(first: Option<string>, second: Option<string>)

  /** What the pass meets besides the backup: the source VM; storage, with each class's provisioner (Longhorn or
      not) and each Longhorn volume's update (an error, or none); the snapshots there are, and the answers to
      creating others, which have no status yet unless given here. */
  datatype Surroundings = Surroundings(
    source: Result<Vm>, hasTemplate: bool, running: bool,
    storage: Storage, classes: map<string, bool>, longhornVolumes: map<string, Option<string>>,
    secretStore: map<string, Data>, classNames: Result<map<string, string>>, site: M.Site,
    snapshots: map<string, Seen>, creations: map<string, Result<Option<SnapshotStatus>>>,
    refusals: Refusals, errorStoredBeforeCrash: bool, now: nat)

  // mountLonghornVolumes

  function MountedOne(v: Volume, e: Surroundings): Outcome<bool> {
    if v.claim.None? then Ok(true)
    else if v.claim.value !in e.storage.claims then Err("failed to get pvc")
    else
      var spec := e.storage.claims[v.claim.value].spec;
      if spec.storageClass.None? then Panic
      else if spec.storageClass.value !in e.classes then Err("storage class not found")
      else if !e.classes[spec.storageClass.value] then Ok(true)
      else if spec.volumeName !in e.longhornVolumes then Err("failed to get volume")
      else if e.longhornVolumes[spec.volumeName].Some? then Err(e.longhornVolumes[spec.volumeName].value)
      else Ok(true)
  }

  /** Volume after volume, up to the first that fails. */
  function Mounted(volumes: seq<Volume>, e: Surroundings): Outcome<bool> {
    if volumes == [] then Ok(true)
    else
      var front := Mounted(volumes[..|volumes| - 1], e);
      if front.Ok? then MountedOne(volumes[|volumes| - 1], e) else front
  }

  method MountLonghornVolumes(volumes: seq<Volume>, e: Surroundings) returns (outcome: Outcome<bool>)
    ensures outcome == Mounted(volumes, e)
  {
    for i := 0 to |volumes|
      invariant Mounted(volumes[..i], e) == Ok(true)
    {
      assert volumes[..i + 1][..i] == volumes[..i];
      if volumes[i].claim.None? {
        continue;
      }
      var name := volumes[i].claim.value;
      if name !in e.storage.claims {
        MountingStops(volumes, e, i);
        return Err("failed to get pvc");
      }
      var claim := e.storage.claims[name];
      if claim.spec.storageClass.None? {
        MountingStops(volumes, e, i);
        return Panic;
      }
      if claim.spec.storageClass.value !in e.classes {
        MountingStops(volumes, e, i);
        return Err("storage class not found");
      }
      if !e.classes[claim.spec.storageClass.value] {
        continue;
      }
      if claim.spec.volumeName !in e.longhornVolumes {
        MountingStops(volumes, e, i);
        return Err("failed to get volume");
      }
      if e.longhornVolumes[claim.spec.volumeName].Some? {
        MountingStops(volumes, e, i);
        return Err(e.longhornVolumes[claim.spec.volumeName].value);
      }
    }
    assert volumes[..|volumes|] == volumes;
    outcome := Ok(true);
  }

  lemma {:induction false} MountingStops(volumes: seq<Volume>, e: Surroundings, i: nat)
    requires i < |volumes| && Mounted(volumes[..i], e).Ok? && !MountedOne(volumes[i], e).Ok?
    ensures Mounted(volumes, e) == MountedOne(volumes[i], e)
  {
    var n := |volumes| - 1;
    if i < n {
      assert volumes[..n][..i] == volumes[..i];
      MountingStops(volumes[..n], e, i);
    } else {
      assert volumes[..n] == volumes[..i];
    }
  }

  // What the snapshot loop meets

  /** An absent snapshot is created, from the claim unless a Longhorn backup is recorded. */
  function SeenOf(vb: VolumeBackup, e: Surroundings): Seen {
    if vb.name.None? then Present(None)
    else if vb.name.value in e.snapshots then e.snapshots[vb.name.value]
    else if vb.longhornBackup.None? && vb.claim.name !in e.storage.claims then Unreachable("claim not found")
    else if vb.longhornBackup.None? && e.storage.claims[vb.claim.name].spec.storageClass.None? then CreationPanics
    else if vb.name.value !in e.creations then Present(None)
    else
      match e.creations[vb.name.value]
      case Success(status) => Present(status)
      case Failure(m) => Unreachable(m)
  }

  function SeenFor(vbs: seq<VolumeBackup>, e: Surroundings): seq<Seen> {
    seq(|vbs|, i requires 0 <= i < |vbs| => SeenOf(vbs[i], e))
  }

  /** The stored object after the pass, and how the pass ended. */
  datatype Passed = Passed(stored: Backup, outcome: Outcome<bool>)

  /** setStatusError, its update refused or not. */
  function ErrorStored(b: Backup, message: string, refusal: Option<string>, now: nat): Passed {
    if refusal.Some? then Passed(b, Err(refusal.value))
      else Passed(b.(status := Some(ErrorStatus(message, now))), Err(message))
  }

  function Failed(b: Backup, message: string, e: Surroundings): Passed {
    ErrorStored(b, message, e.refusals.first, e.now)
  }

  function Initialised(b: Backup, init: Outcome<BackupStatus>, refusal: Option<string>): Passed {
    match init
    case Ok(status) => if refusal.Some? then Passed(b, Err(refusal.value))
      else Passed(b.(status := Some(status)), Ok(true))
    case Err(m) => Passed(b, Err(m))
    case Panic => Passed(b, Panic)
  }

  ghost predicate InitPass(b: Backup, vm: Vm, e: Surroundings, p: Passed) {
    exists init :: InitStatusFor(b, vm, e.storage, e.secretStore, e.classNames, e.site.setting, init) &&
      p == Initialised(b, init, e.refusals.first)
  }

  function WithTarget(b: Backup, refusal: Option<string>): Passed
    requires b.status.Some?
  {
    if refusal.Some? then Passed(b, Err(refusal.value))
    else Passed(b.(status := Some(b.status.value.(target := Some(b.annotated)))), Ok(true))
  }

  /** handleBackupReady before the upload. */
  function ReadyStored(b: Backup, e: Surroundings): Passed
    requires b.status.Some?
  {
    var unnamed := b.status.value.classNames == map[];
    if unnamed && e.classNames.Failure? then Passed(b, Err(e.classNames.message))
    else if unnamed && e.refusals.first.Some? then Passed(b, Err(e.refusals.first.value))
    else
      var named := if unnamed then b.(status := Some(b.status.value.(classNames := e.classNames.value))) else b;
      if b.spec.kind.SnapshotOnly? || b.annotated == NO_TARGET then Passed(named, Ok(true))
      else WithTarget(named, if unnamed then e.refusals.second else e.refusals.first)
  }

  function ReadyPass(b: Backup, remote: M.Remote, e: Surroundings): (Passed, M.Remote)
    requires b.status.Some?
  {
    var p := ReadyStored(b, e);
    if !p.outcome.Ok? || b.spec.kind.SnapshotOnly? then (p, remote)
    else
      match M.Uploaded(remote, p.stored, e.site)
      case Success(store) => (p, store)
      case Failure(m) => (Passed(p.stored, Err(m)), remote)
  }

  function ConcludedAlone(b: Backup, refreshed: Backup, e: Surroundings): Passed
    requires b.status.Some?
  {
    match Concluded(b.status.value, e.now)
    case Ok(status) =>
      if status == b.status.value then Passed(refreshed, Ok(true))
      else if refreshed != b
        then Passed(refreshed, Err(if e.refusals.second.Some? then e.refusals.second.value else "conflict"))
      else if e.refusals.first.Some? then Passed(b, Err(e.refusals.first.value))
      else Passed(b.(status := Some(status)), Ok(true))
    case _ => Passed(refreshed, Panic)
  }

  function SnapshotPassAlone(b: Backup, e: Surroundings): Passed
    requires b.status.Some?
  {
    var s := b.status.value;
    match SnapshotPassOf(s.volumes, SeenFor(s.volumes, e))
    case Requeue => Passed(b, Panic)
    case Crashed => Passed(b, Panic)
    case Stopped(m) => Passed(if e.errorStoredBeforeCrash then Failed(b, m, e).stored else b, Panic)
    case Refreshed(volumes) =>
      var refreshed := b.(status := Some(s.(volumes := volumes)));
      if refreshed != b && e.refusals.first.Some? then
        Passed(if e.errorStoredBeforeCrash
          then ErrorStored(b, e.refusals.first.value, e.refusals.second, e.now).stored else b, Panic)
      else ConcludedAlone(b, refreshed, e)
  }

  /** A pass that nothing disturbs may leave the object, end and leave the remote store like this. */
  ghost predicate PassAlone(b: Backup, remote: M.Remote, e: Surroundings, p: Passed, store: M.Remote) {
    if !b.deleting && IsBackupReady(b) then (p, store) == ReadyPass(b, remote, e)
    else store == remote && UnreadyPass(b, e, p)
  }

  ghost predicate UnreadyPass(b: Backup, e: Surroundings, p: Passed)
    requires b.deleting || !IsBackupReady(b)
  {
    if b.deleting then p == Passed(b, Ok(true))
    else if IsBackupMissingStatus(b) then
      if e.source.Failure? then p == Failed(b, e.source.message, e) else SourcePass(b, e.source.value, e, p)
    else if e.classNames.Failure? then p == Failed(b, e.classNames.message, e)
    else p == SnapshotPassAlone(b, e)
  }

  ghost predicate SourcePass(b: Backup, vm: Vm, e: Surroundings, p: Passed) {
    if !e.hasTemplate then p == Passed(b, Panic)
    else
      match if e.running then Ok(true) else Mounted(vm.spec.volumes, e)
      case Ok(_) => InitPass(b, vm, e, p)
      case Err(m) => p == Failed(b, m, e)
      case Panic => p == Passed(b, Panic)
  }

  class Reconciler {
    var history: seq<Backup>
    var remote: M.Remote  // the metadata files of the backup target

    constructor (b: Backup, store: M.Remote)
      ensures history == [b] && remote == store
    {
      history, remote := [b], store;
    }

    function Current(): Backup
      reads this
      requires history != []
    {
      history[|history| - 1]
    }

    method Update(obj: Backup, rv: nat, refusal: Option<string>) returns (error: Option<string>)
      requires history != []
      modifies this`history
      ensures history == (if refusal.Some? then old(history) else Put(old(history), rv, obj)) && history != []
      ensures error == if refusal.Some? then refusal else if rv == |old(history)| - 1 then None else Some("conflict")
      ensures error.None? ==> Current() == obj
      ensures error.Some? ==> history == old(history)
    {
      if refusal.Some? {
        return refusal;
      }
      if rv != |history| - 1 {
        return Some("conflict");
      }
      if obj != history[rv] {
        history := history + [obj];
      }
      error := None;
    }

    method SetStatusError(held: Backup, rv: nat, message: string, refusal: Option<string>, now: nat)
          returns (outcome: Outcome<bool>)
      requires history != [] && rv == |history| - 1
      modifies this`history
      ensures history != [] && outcome == ErrorStored(held, message, refusal, now).outcome
      ensures Current() == if refusal.Some? then old(Current()) else ErrorStored(held, message, refusal, now).stored
    {
      var status := EMPTY_BACKUP_STATUS.(error := Some(Error(now, Some(message))));
      status := status.(conditions := Updated(status.conditions, NewProgressing(False, "Error", message, now)));
      status := status.(conditions := Updated(status.conditions, NewReady(False, "", "Not Ready", now)));
      var error := Update(held.(status := Some(status)), rv, refusal);
      outcome := if error.Some? then Err(error.value) else Err(message);
    }

    method HandleBackupReady(held: Backup, rv: nat, e: Surroundings) returns (outcome: Outcome<bool>)
      requires history != [] && rv == |history| - 1 && Current() == held && held.status.Some?
      modifies this
      ensures history != [] && (Passed(Current(), outcome), remote) == ReadyPass(held, old(remote), e)
    {
      var b, version, refusal := held, rv, e.refusals.first;
      if b.status.value.classNames == map[] {
        if e.classNames.Failure? {
          return Err(e.classNames.message);
        }
        var error := Update(b.(status := Some(b.status.value.(classNames := e.classNames.value))), version, refusal);
        if error.Some? {
          return Err(error.value);
        }
        b, version, refusal := Current(), |history| - 1, e.refusals.second;
      }
      if b.spec.kind.SnapshotOnly? {
        return Ok(true);
      }
      if b.annotated != NO_TARGET {
        var error := Update(b.(status := Some(b.status.value.(target := Some(b.annotated)))), version, refusal);
        if error.Some? {
          return Err(error.value);
        }
        b := Current();
      }
      var uploaded, wrote := M.UploadMetadata(remote, b, e.site);
      if uploaded.Failure? {
        return Err(uploaded.message);
      }
      remote := uploaded.value;
      outcome := Ok(true);
    }

    method OnBackupChange(rv: nat, e: Surroundings) returns (outcome: Outcome<bool>)
      requires history != [] && rv == |history| - 1
      modifies this
      ensures history != [] && PassAlone(old(Current()), old(remote), e, Passed(Current(), outcome), remote)
    {
      ghost var b := Current();
      var held := Entered(history[rv], e.now);
      if held.deleting {
        return Ok(true);
      }
      if IsBackupReady(held) {
        outcome := HandleBackupReady(held, rv, e);
        return;
      }
      if IsBackupMissingStatus(held) {
        if e.source.Failure? {
          outcome := SetStatusError(held, rv, e.source.message, e.refusals.first, e.now);
          return;
        }
        outcome := InitFromSource(b, held, rv, e);
        return;
      }
      if e.classNames.Failure? {
        outcome := SetStatusError(held, rv, e.classNames.message, e.refusals.first, e.now);
        return;
      }
      outcome := SnapshotsThenConditions(held, rv, e);
    }

    method InitFromSource(ghost b: Backup, held: Backup, rv: nat, e: Surroundings) returns (outcome: Outcome<bool>)
      requires history != [] && rv == |history| - 1 && Current() == b && e.source.Success?
      requires held == b.(status := held.status)
      modifies this`history
      ensures history != [] && SourcePass(b, e.source.value, e, Passed(Current(), outcome))
    {
      if !e.hasTemplate {
        return Panic;  // vm.Spec.Template is nil
      }
      if !e.running {
        var mounted := MountLonghornVolumes(e.source.value.spec.volumes, e);
        if mounted.Err? {
          outcome := SetStatusError(held, rv, mounted.message, e.refusals.first, e.now);
          return;
        }
        if mounted.Panic? {
          return Panic;
        }
      }
      outcome := StoreInit(b, held, rv, e);
    }

    method StoreInit(ghost b: Backup, held: Backup, rv: nat, e: Surroundings) returns (outcome: Outcome<bool>)
      requires history != [] && rv == |history| - 1 && Current() == b && e.source.Success?
      requires held == b.(status := held.status)
      modifies this`history
      ensures history != [] && InitPass(b, e.source.value, e, Passed(Current(), outcome))
    {
      var vm, target := e.source.value, e.site.setting;
      var init := InitBackup(held, vm, e.storage, e.secretStore, e.classNames, target);
      ghost var order :| InitStatusIn(held, vm, order, e.storage, e.secretStore, e.classNames, target, init);
      assert InitStatusIn(b, vm, order, e.storage, e.secretStore, e.classNames, target, init);
      assert InitStatusFor(b, vm, e.storage, e.secretStore, e.classNames, target, init);
      outcome := Ok(true);
      if init.Ok? {
        var error := Update(held.(status := Some(init.value)), rv, e.refusals.first);
        outcome := if error.Some? then Err(error.value) else Ok(true);
      } else {
        outcome := if init.Err? then Err(init.message) else Panic;
      }
      assert Passed(Current(), outcome) == Initialised(b, init, e.refusals.first);
    }

    method SnapshotsThenConditions(held: Backup, rv: nat, e: Surroundings) returns (outcome: Outcome<bool>)
      requires history != [] && rv == |history| - 1 && Current() == held && held.status.Some?
      modifies this`history
      ensures history != [] && Passed(Current(), outcome) == SnapshotPassAlone(held, e)
    {
      var s := held.status.value;
      var refreshed := ReconcileVolumeSnapshots(s.volumes, SeenFor(s.volumes, e));
      if refreshed.Requeue? || refreshed.Crashed? {
        return Panic;  // err.Error() on a nil error, or a nil class name
      }
      if refreshed.Stopped? {
        if e.errorStoredBeforeCrash {
          outcome := SetStatusError(held, rv, refreshed.message, e.refusals.first, e.now);
        }
        return Panic;  // *result on a nil result
      }
      var refusal := e.refusals.first;
      if refreshed.volumes != s.volumes {
        var error := Update(held.(status := Some(s.(volumes := refreshed.volumes))), rv, refusal);
        if error.Some? {
          if e.errorStoredBeforeCrash {
            outcome := SetStatusError(held, rv, error.value, e.refusals.second, e.now);
          }
          return Panic;  // *result again
        }
        refusal := e.refusals.second;
      }
      outcome := ConcludeFrom(held, rv, s, refusal, e.now);
    }

    method ConcludeFrom(held: Backup, rv: nat, s: BackupStatus, refusal: Option<string>, now: nat)
          returns (outcome: Outcome<bool>)
      requires history != [] && rv < |history| && held.status == Some(s)
      modifies this`history
      ensures history != []
      ensures match Concluded(s, now)
        case Ok(status) =>
          if status == s then history == old(history) && outcome == Ok(true)
          else if refusal.Some? then history == old(history) && outcome == Err(refusal.value)
          else if rv != |old(history)| - 1 then history == old(history) && outcome == Err("conflict")
          else Current() == held.(status := Some(status)) && outcome == Ok(true)
        case _ => history == old(history) && outcome == Panic
    {
      var concluded := UpdateConditions(s, now);
      if !concluded.Ok? {
        return Panic;
      }
      if concluded.value != s {
        var error := Update(held.(status := Some(concluded.value)), rv, refusal);
        if error.Some? {
          return Err(error.value);
        }
      }
      outcome := Ok(true);
    }
  }

  // The pass consists of the writes the interleaved machine allows

  ghost predicate Leads(b: Backup, log: seq<Writer>, stored: Backup) {
    exists history :: Replays(history, log) && history[0] == b && history[|log|] == stored
  }

  lemma NoWrite(b: Backup)
    ensures Leads(b, [], b)
  {
    assert Replays([b], []);
  }

  lemma OneWrite(b: Backup, w: Writer)
    requires Enabled(w, b)
    ensures Leads(b, [w], Apply(w, b))
  {
    assert Replays([b, Apply(w, b)], [w]);
  }

  lemma TwoWrites(b: Backup, w: Writer, v: Writer)
    requires Enabled(w, b) && Enabled(v, Apply(w, b))
    ensures Leads(b, [w, v], Apply(v, Apply(w, b)))
  {
    var history, log := [b, Apply(w, b)], [w];
    assert Replays(history, log);
    AppendWrite(history, log, v);
    assert log + [v] == [w, v];
  }

  /** An undisturbed pass makes at most two writes, each enabled on the version it replaces. */
  lemma PassIsEnabledWrites(b: Backup, remote: M.Remote, e: Surroundings, p: Passed, store: M.Remote)
        returns (log: seq<Writer>)
    requires PassAlone(b, remote, e, p, store)
    ensures |log| <= 2 && Leads(b, log, p.stored)
  {
    if p.stored == b {
      NoWrite(b);
      log := [];
    } else if !b.deleting && IsBackupReady(b) {
      log := ReadyPassWrites(b, e);
    } else if p.outcome.Err? && p.stored == ErrorStored(b, p.outcome.message, None, e.now).stored {
      log := [ErrorReset(p.outcome.message, e.now)];
      OneWrite(b, log[0]);
    } else if IsBackupMissingStatus(b) {
      log := InitPassWrites(b, e.source.value, e, p);
    } else {
      log := SnapshotPassWrites(b, e);
    }
  }

  lemma InitPassWrites(b: Backup, vm: Vm, e: Surroundings, p: Passed) returns (log: seq<Writer>)
    requires !b.deleting && !IsBackupReady(b) && IsBackupMissingStatus(b) && InitPass(b, vm, e, p) && p.stored != b
    ensures |log| <= 2 && Leads(b, log, p.stored)
  {
    var init :| InitStatusFor(b, vm, e.storage, e.secretStore, e.classNames, e.site.setting, init) &&
      p == Initialised(b, init, e.refusals.first);
    var order :| InitStatusIn(b, vm, order, e.storage, e.secretStore, e.classNames, e.site.setting, init);
    var target := if e.site.setting.Success? then e.site.setting.value else NO_TARGET;
    assert init == InitStatus(b, vm, order, e.storage, e.secretStore, Success(e.classNames.value), Success(target));
    log := [Init(vm, order, e.storage, e.secretStore, e.classNames.value, target)];
    OneWrite(b, log[0]);
  }

  lemma ReadyPassWrites(b: Backup, e: Surroundings) returns (log: seq<Writer>)
    requires !b.deleting && IsBackupReady(b) && ReadyStored(b, e).stored != b
    ensures |log| <= 2 && Leads(b, log, ReadyStored(b, e).stored)
  {
    if b.status.value.classNames != map[] {
      log := [TargetFromAnnotation];
      OneWrite(b, log[0]);
    } else if b.spec.kind.SnapshotOnly? || b.annotated == NO_TARGET || e.refusals.second.Some? {
      log := [ClassNames(e.classNames.value)];
      OneWrite(b, log[0]);
    } else {
      log := [ClassNames(e.classNames.value), TargetFromAnnotation];
      TwoWrites(b, log[0], log[1]);
    }
  }

  lemma SnapshotPassWrites(b: Backup, e: Surroundings) returns (log: seq<Writer>)
    requires !b.deleting && !IsBackupReady(b) && !IsBackupMissingStatus(b)
    ensures |log| <= 2 && Leads(b, log, SnapshotPassAlone(b, e).stored)
  {
    var s := b.status.value;
    var seen := SeenFor(s.volumes, e);
    if SnapshotPassAlone(b, e).stored == b {
      log := [];
      NoWrite(b);
    } else {
      var pass := SnapshotPassOf(s.volumes, seen);
      if pass.Stopped? {
        log := [ErrorReset(pass.message, e.now)];
      } else if pass.volumes == s.volumes {
        log := [Conclude(e.now)];
      } else if e.refusals.first.Some? {
        log := [ErrorReset(e.refusals.first.value, e.now)];
      } else {
        log := [Snapshots(seen)];
      }
      OneWrite(b, log[0]);
    }
  }

  // What one pass does

  /** A volume can be mounted exactly when it has no claim, or its claim is there with a class that is there, and
      either not Longhorn's or on a Longhorn volume that accepts the update. */
  lemma MountsExactly(v: Volume, e: Surroundings)
    ensures MountedOne(v, e).Ok? <==>
      v.claim.None? ||
      (&& v.claim.value in e.storage.claims
       && var spec := e.storage.claims[v.claim.value].spec;
       && spec.storageClass.Some? && spec.storageClass.value in e.classes
       && (e.classes[spec.storageClass.value] ==>
             spec.volumeName in e.longhornVolumes && e.longhornVolumes[spec.volumeName].None?))
    ensures MountedOne(v, e).Panic? <==>
      v.claim.Some? && v.claim.value in e.storage.claims && e.storage.claims[v.claim.value].spec.storageClass.None?
  {
  }

  /** Only a missing snapshot is created, and it needs its claim, with a storage class, only while no Longhorn
      backup is recorded. */
  lemma SeesExactly(vb: VolumeBackup, e: Surroundings)
    requires vb.name.Some?
    ensures vb.name.value in e.snapshots ==> SeenOf(vb, e) == e.snapshots[vb.name.value]
    ensures vb.name.value !in e.snapshots && vb.longhornBackup.Some? ==>
      (SeenOf(vb, e).Present? <==> vb.name.value in e.creations ==> e.creations[vb.name.value].Success?)
    ensures vb.name.value !in e.snapshots && vb.longhornBackup.None? ==>
      (SeenOf(vb, e).Present? <==>
        && vb.claim.name in e.storage.claims && e.storage.claims[vb.claim.name].spec.storageClass.Some?
        && (vb.name.value in e.creations ==> e.creations[vb.name.value].Success?))
    ensures SeenOf(vb, e).Present? && vb.name.value !in e.snapshots && vb.name.value in e.creations ==>
      e.creations[vb.name.value] == Success(SeenOf(vb, e).status)
  {
  }

  /** A pass that initialises the backup records the VM in full with the secrets it refers to; whatever ends the
      pass otherwise leaves the backup as it was, or reset with the error. */
  lemma SourcePassRecords(b: Backup, vm: Vm, e: Surroundings, p: Passed)
    requires SourcePass(b, vm, e, p)
    ensures p.outcome.Ok? ==>
      && p.stored == b.(status := p.stored.status) && p.stored.status.Some?
      && var s := p.stored.status.value;
      && s.source == Some(VmSource(vm.name, vm.namespace, vm.annotations, vm.spec)) && s.sourceUid == Some(vm.uid)
      && SecretBackups(SecretRefs(vm.spec), e.secretStore) == Ok(s.secrets) && Covers(s.volumes, vm.spec.volumes)
      && s.ready == Some(false) && e.classNames == Success(s.classNames)
      && (b.spec.kind.BackupTo? ==> s.target.Some? && e.site.setting == Success(s.target.value))
    ensures !p.outcome.Ok? ==>
      p.stored == b || (p.outcome.Err? && p.stored == b.(status := Some(ErrorStatus(p.outcome.message, e.now))))
  {
    if p.outcome.Ok? {
      var init :| InitStatusFor(b, vm, e.storage, e.secretStore, e.classNames, e.site.setting, init) &&
        p == Initialised(b, init, e.refusals.first);
      var order :| InitStatusIn(b, vm, order, e.storage, e.secretStore, e.classNames, e.site.setting, init);
      InitRecords(b, vm, order, e.storage, e.secretStore, e.classNames, e.site.setting);
      BackupsCoverVolumes(b.name, vm.spec.volumes, order, e.storage);
    }
  }

  /** A pass over a ready backup records the class names while there are none, then the target the backup is
      annotated with, and nothing else. */
  lemma ReadyStoredRecords(b: Backup, e: Surroundings)
    requires IsBackupReady(b)
    ensures var p := ReadyStored(b, e);
      && p.stored == b.(status := p.stored.status) && p.stored.status.Some?
      && var s, t := b.status.value, p.stored.status.value;
      && t == s.(classNames := t.classNames, target := t.target)
      && (s.classNames != map[] ==> t.classNames == s.classNames)
      && (p.outcome.Ok? && s.classNames == map[] ==> e.classNames == Success(t.classNames))
      && (p.outcome.Ok? && b.spec.kind.BackupTo? && b.annotated != NO_TARGET ==> t.target == Some(b.annotated))
      && (b.spec.kind.SnapshotOnly? || b.annotated == NO_TARGET ==> t.target == s.target)
  {
  }

  /** The store of backup targets changes only by a successful pass over a ready backup to the current target, and
      only in the file under the backup's name. */
  lemma PublishesOnlyItsFile(b: Backup, remote: M.Remote, e: Surroundings, p: Passed, store: M.Remote)
    requires PassAlone(b, remote, e, p, store) && store != remote
    ensures !b.deleting && IsBackupReady(b) && b.spec.kind.BackupTo? && p.outcome.Ok? && !e.site.isDefault
    ensures p.stored.status.Some? && e.site.setting.Success? &&
      p.stored.status.value.target == Some(e.site.setting.value)
    ensures store == remote[b.namespace + "-" + b.name + ".cfg" := M.MetadataOf(b)]
  {
    StoredKeepsMetadata(b, e);
  }

  // What undisturbed passes achieve

  /** Every snapshot the backup names is ready and not in error. */
  predicate SnapshotsReady(vbs: seq<VolumeBackup>, snapshots: map<string, Seen>) {
    forall vb | vb in vbs :: vb.name.Some? && vb.name.value in snapshots &&
      var seen := snapshots[vb.name.value];
      seen.Present? && seen.status.Some? && seen.status.value.ready == Some(true) && seen.status.value.error.None?
  }

  lemma RefreshingReadySnapshots(vbs: seq<VolumeBackup>, e: Surroundings)
    requires SnapshotsReady(vbs, e.snapshots)
    ensures var p := SnapshotPassOf(vbs, SeenFor(vbs, e));
      p.Refreshed? && |p.volumes| == |vbs| && AllReady(p.volumes) && FirstError(p.volumes) == |vbs| &&
        SnapshotsReady(p.volumes, e.snapshots)
  {
    var seen := SeenFor(vbs, e);
    forall i | 0 <= i < |vbs|
      ensures seen[i] == e.snapshots[vbs[i].name.value] && seen[i].Present?
    {
      assert vbs[i] in vbs;
    }
    PresentSnapshotsRefresh(vbs, seen);
    RefreshedAt(vbs, seen);
    ReadyOneByOne(vbs, SnapshotPassOf(vbs, seen).volumes, e.snapshots);
  }

  lemma ReadyOneByOne(vbs: seq<VolumeBackup>, out: seq<VolumeBackup>, snapshots: map<string, Seen>)
    requires SnapshotsReady(vbs, snapshots) && |out| == |vbs|
    requires forall i | 0 <= i < |vbs| ::
      vbs[i].name.Some? && vbs[i].name.value in snapshots &&
        out[i] == RefreshedVolume(vbs[i], snapshots[vbs[i].name.value])
    ensures AllReady(out) && FirstError(out) == |out| && SnapshotsReady(out, snapshots)
  {
    forall vb | vb in out
      ensures vb.ready == Some(true) && vb.error.None?
      ensures exists was :: was in vbs && was.name == vb.name
    {
      var i :| 0 <= i < |out| && out[i] == vb;
      assert vbs[i] in vbs;
    }
  }

  /** Refreshing again from the same snapshots changes nothing. */
  lemma RefreshingTwice(vbs: seq<VolumeBackup>, e: Surroundings)
    requires SnapshotPassOf(vbs, SeenFor(vbs, e)).Refreshed?
    ensures var out := SnapshotPassOf(vbs, SeenFor(vbs, e)).volumes;
      SnapshotPassOf(out, SeenFor(out, e)) == Refreshed(out)
  {
    var seen := SeenFor(vbs, e);
    RefreshedAt(vbs, seen);
    var out := SnapshotPassOf(vbs, seen).volumes;
    assert SeenFor(out, e) == seen;
    RefreshedAgain(vbs, out, seen);
  }

  lemma {:induction false} RefreshedAgain(vbs: seq<VolumeBackup>, out: seq<VolumeBackup>, seen: seq<Seen>)
    requires |seen| == |vbs| == |out| && SnapshotPassOf(vbs, seen).Refreshed?
    requires forall i | 0 <= i < |vbs| :: out[i] == RefreshedVolume(vbs[i], seen[i])
    ensures SnapshotPassOf(out, seen) == Refreshed(out)
  {
    if vbs != [] {
      var n := |vbs| - 1;
      RefreshedAgain(vbs[..n], out[..n], seen[..n]);
    }
  }

  lemma {:induction false} PresentSnapshotsRefresh(vbs: seq<VolumeBackup>, seen: seq<Seen>)
    requires |seen| == |vbs| && forall s | s in seen :: s.Present?
    ensures SnapshotPassOf(vbs, seen).Refreshed?
  {
    if vbs != [] {
      var n := |vbs| - 1;
      assert forall s | s in seen[..n] :: s in seen;
      assert seen[n] in seen;
      PresentSnapshotsRefresh(vbs[..n], seen[..n]);
    }
  }

  /** The phase after initBackup. */
  predicate Waiting(b: Backup) {
    !b.deleting && !IsBackupReady(b) && !IsBackupMissingStatus(b) && !ReportsReady(b.status.value)
  }

  lemma ConcludesOnceRecorded(b: Backup, e: Surroundings)
    requires Waiting(b) && SnapshotsReady(b.status.value.volumes, e.snapshots) && e.refusals.first.None?
    requires SnapshotPassOf(b.status.value.volumes, SeenFor(b.status.value.volumes, e)) ==
      Refreshed(b.status.value.volumes)
    requires AllReady(b.status.value.volumes) && FirstError(b.status.value.volumes) == |b.status.value.volumes|
    ensures var p := SnapshotPassAlone(b, e);
      p.outcome == Ok(true) && IsBackupReady(p.stored) && ReportsReady(p.stored.status.value)
  {
    ConcludedReads(b.status.value, e.now);
    ExaminedReady(b.status.value.volumes);
  }

  lemma RecordsFirst(b: Backup, e: Surroundings, volumes: seq<VolumeBackup>)
    requires Waiting(b) && SnapshotPassOf(b.status.value.volumes, SeenFor(b.status.value.volumes, e)) ==
      Refreshed(volumes)
    requires volumes != b.status.value.volumes && e.refusals.first.None?
    ensures SnapshotPassAlone(b, e).stored == b.(status := Some(b.status.value.(volumes := volumes)))
  {
  }

  /** An initialised backup whose snapshots are all ready becomes ready to use, and says so, in the
      second undisturbed pass at the latest: the first may only store the state of the snapshots. */
  lemma ReadyInTwoPasses(b: Backup, remote: M.Remote, e: Surroundings)
    requires Waiting(b) && SnapshotsReady(b.status.value.volumes, e.snapshots) && e.classNames.Success? &&
      e.refusals.first.None?
    ensures forall p, store | PassAlone(b, remote, e, p, store) :: p == SnapshotPassAlone(b, e) && store == remote
    ensures var first := SnapshotPassAlone(b, e);
      if IsBackupReady(first.stored) then ReportsReady(first.stored.status.value)
      else
        first.stored.status.Some? &&
        var second := SnapshotPassAlone(first.stored, e);
        (forall p, store | PassAlone(first.stored, remote, e, p, store) :: p == second && store == remote) &&
        second.outcome == Ok(true) && IsBackupReady(second.stored) && ReportsReady(second.stored.status.value)
  {
    var s := b.status.value;
    RefreshingReadySnapshots(s.volumes, e);
    RefreshingTwice(s.volumes, e);
    var volumes := SnapshotPassOf(s.volumes, SeenFor(s.volumes, e)).volumes;
    if volumes == s.volumes {
      ConcludesOnceRecorded(b, e);
    } else {
      RecordsFirst(b, e, volumes);
      ConcludesOnceRecorded(SnapshotPassAlone(b, e).stored, e);
    }
  }

  lemma StoredKeepsMetadata(b: Backup, e: Surroundings)
    requires IsBackupReady(b)
    ensures var p := ReadyStored(b, e);
      IsBackupReady(p.stored) && M.MetadataOf(p.stored) == M.MetadataOf(b) && p.stored.name == b.name &&
        p.stored.namespace == b.namespace
  {
  }

  lemma StoredOnce(b: Backup, e: Surroundings)
    requires IsBackupReady(b) && ReadyStored(b, e).outcome.Ok?
    ensures var out := ReadyStored(b, e).stored; ReadyStored(out, e).stored == out
  {
    var out := ReadyStored(b, e).stored;
    if out.status.value.classNames == map[] {
      assert out.(status := Some(out.status.value.(classNames := e.classNames.value))) == out;
    }
  }

  /** A successful pass over a ready backup made for the current target leaves its metadata in its file and
      every other file alone; the next one writes nothing. */
  lemma ReadyPassPublishes(b: Backup, remote: M.Remote, e: Surroundings)
    requires IsBackupReady(b) && b.spec.kind.BackupTo? && ReadyPass(b, remote, e).0.outcome.Ok?
    requires !e.site.isDefault && ReadyStored(b, e).stored.status.value.target == Some(e.site.setting.value)
    ensures var (p, store) := ReadyPass(b, remote, e);
      && p.stored == ReadyStored(b, e).stored && IsBackupReady(p.stored)
      && store == remote[M.FileName(b.namespace, b.name) := M.MetadataOf(b)]
      && ReadyPass(p.stored, store, e).1 == store
  {
    StoredKeepsMetadata(b, e);
    StoredKeepsMetadata(ReadyStored(b, e).stored, e);
    StoredOnce(b, e);
    var file := M.FileName(b.namespace, b.name);
    if file in remote && remote[file] == M.MetadataOf(b) {
      assert remote[file := M.MetadataOf(b)] == remote;
    }
  }

  // Crashes

  /** Mounting reaches a claim without storage class before any other failure. */
  predicate MountingCrashes(volumes: seq<Volume>, e: Surroundings) {
    exists i :: 0 <= i < |volumes| && MountedOne(volumes[i], e).Panic? && forall j | 0 <= j < i ::
      MountedOne(volumes[j], e).Ok?
  }

  lemma {:induction false} MountedExactly(volumes: seq<Volume>, e: Surroundings)
    ensures Mounted(volumes, e).Ok? <==> forall i | 0 <= i < |volumes| :: MountedOne(volumes[i], e).Ok?
    ensures Mounted(volumes, e).Panic? <==> MountingCrashes(volumes, e)
  {
    if volumes != [] {
      var n := |volumes| - 1;
      var front := volumes[..n];
      MountedExactly(front, e);
      assert forall i | 0 <= i < n :: front[i] == volumes[i];
      if MountingCrashes(front, e) {
        var i :| 0 <= i < n && MountedOne(front[i], e).Panic? && forall j | 0 <= j < i :: MountedOne(front[j], e).Ok?;
        assert MountedOne(volumes[i], e).Panic?;
      }
      if MountingCrashes(volumes, e) {
        var i :| 0 <= i <= n && MountedOne(volumes[i], e).Panic? && forall j | 0 <= j < i ::
          MountedOne(volumes[j], e).Ok?;
        if i < n {
          assert MountedOne(front[i], e).Panic?;
        }
      }
    }
  }

  /** The snapshot of some named volume is being deleted, out of reach, or cannot be created: with an error, or
      for want of a storage class. */
  predicate SnapshotsStopEarly(vbs: seq<VolumeBackup>, e: Surroundings) {
    exists vb :: vb in vbs && vb.name.Some? && !SeenOf(vb, e).Present?
  }

  /** Some volume has something new to record. */
  predicate SnapshotsChanged(vbs: seq<VolumeBackup>, e: Surroundings) {
    exists vb :: vb in vbs && RefreshedVolume(vb, SeenOf(vb, e)) != vb
  }

  lemma {:induction false} RefreshedExactly(vbs: seq<VolumeBackup>, seen: seq<Seen>)
    requires |seen| == |vbs|
    ensures SnapshotPassOf(vbs, seen).Refreshed? <==>
      forall i | 0 <= i < |vbs| :: vbs[i].name.Some? ==> seen[i].Present?
  {
    if vbs != [] {
      var n := |vbs| - 1;
      RefreshedExactly(vbs[..n], seen[..n]);
      assert forall i | 0 <= i < n :: vbs[..n][i] == vbs[i] && seen[..n][i] == seen[i];
    }
  }

  lemma StopsEarlyExactly(vbs: seq<VolumeBackup>, e: Surroundings)
    ensures SnapshotPassOf(vbs, SeenFor(vbs, e)).Refreshed? <==> !SnapshotsStopEarly(vbs, e)
    ensures SnapshotPassOf(vbs, SeenFor(vbs, e)).Refreshed? ==>
      (SnapshotPassOf(vbs, SeenFor(vbs, e)).volumes != vbs <==> SnapshotsChanged(vbs, e))
  {
    var seen := SeenFor(vbs, e);
    RefreshedExactly(vbs, seen);
    if i :| 0 <= i < |vbs| && vbs[i].name.Some? && !seen[i].Present? {
      assert vbs[i] in vbs;
    }
    if SnapshotsStopEarly(vbs, e) {
      var vb :| vb in vbs && vb.name.Some? && !SeenOf(vb, e).Present?;
      var i :| 0 <= i < |vbs| && vbs[i] == vb;
      assert !seen[i].Present?;
    }
    if SnapshotPassOf(vbs, seen).Refreshed? {
      ChangedExactly(vbs, e);
    }
  }

  lemma ChangedExactly(vbs: seq<VolumeBackup>, e: Surroundings)
    requires SnapshotPassOf(vbs, SeenFor(vbs, e)).Refreshed?
    ensures SnapshotPassOf(vbs, SeenFor(vbs, e)).volumes != vbs <==> SnapshotsChanged(vbs, e)
  {
    RefreshedAt(vbs, SeenFor(vbs, e));
    var out := SnapshotPassOf(vbs, SeenFor(vbs, e)).volumes;
    if SnapshotsChanged(vbs, e) {
      var vb :| vb in vbs && RefreshedVolume(vb, SeenOf(vb, e)) != vb;
      var i :| 0 <= i < |vbs| && vbs[i] == vb;
      assert out[i] != vbs[i];
    } else {
      assert forall i | 0 <= i < |vbs| :: vbs[i] in vbs && out[i] == vbs[i];
    }
  }

  lemma InitNeverPanics(b: Backup, vm: Vm, order: seq<string>, storage: Storage, secrets: map<string, Data>,
                        classNames: Result<map<string, string>>, target: Result<Target>)
    requires forall n | n in order :: n in ClaimMap(vm.spec.volumes)
    ensures !InitStatus(b, vm, order, storage, secrets, classNames, target).Panic?
  {
    VolumeBackupsNeverPanic(b.name, ClaimMap(vm.spec.volumes), order, storage);
    SecretBackupsNeverPanic(SecretRefs(vm.spec), secrets);
  }

  lemma {:induction false} VolumeBackupsNeverPanic(backupName: string, m: map<string, string>, order: seq<string>,
        s: Storage)
    requires forall n | n in order :: n in m
    ensures !VolumeBackupsInOrder(backupName, m, order, s).Panic?
  {
    if order != [] {
      VolumeBackupsNeverPanic(backupName, m, order[..|order| - 1], s);
    }
  }

  lemma {:induction false} SecretBackupsNeverPanic(refs: seq<string>, secrets: map<string, Data>)
    ensures !SecretBackups(refs, secrets).Panic?
  {
    if refs != [] {
      SecretBackupsNeverPanic(refs[..|refs| - 1], secrets);
    }
  }

  /** What makes a pass over a backup that asks for its source VM crash: a VM without template, or, before
      mounting fails otherwise, a claim of a VM that is not running without storage class. */
  ghost predicate SourceCrashes(e: Surroundings) {
    e.source.Success? && (!e.hasTemplate || (!e.running && MountingCrashes(e.source.value.spec.volumes, e)))
  }

  /** What makes a pass over an initialised backup crash: the snapshot loop stops early, or what it found new is
      refused by the API server, or the first errored volume backup has no name. */
  ghost predicate SnapshotsCrash(vbs: seq<VolumeBackup>, e: Surroundings) {
    || SnapshotsStopEarly(vbs, e)
    || (SnapshotsChanged(vbs, e) && e.refusals.first.Some?)
    || (FirstError(vbs) < |vbs| && vbs[FirstError(vbs)].name.None?)
  }

  /** When an undisturbed pass crashes. */
  lemma CrashesExactly(b: Backup, remote: M.Remote, e: Surroundings, p: Passed, store: M.Remote)
    requires PassAlone(b, remote, e, p, store)
    ensures p.outcome.Panic? <==>
      && !b.deleting && !IsBackupReady(b)
      && if IsBackupMissingStatus(b) then SourceCrashes(e)
        else e.classNames.Success? && SnapshotsCrash(b.status.value.volumes, e)
  {
    if b.deleting || IsBackupReady(b) {
    } else if IsBackupMissingStatus(b) {
      if e.source.Success? {
        SourceCrashesExactly(b, e.source.value, e, p);
      }
    } else {
      StopsEarlyExactly(b.status.value.volumes, e);
    }
  }

  lemma SourceCrashesExactly(b: Backup, vm: Vm, e: Surroundings, p: Passed)
    requires SourcePass(b, vm, e, p) && e.source == Success(vm)
    ensures p.outcome.Panic? <==> SourceCrashes(e)
  {
    MountedExactly(vm.spec.volumes, e);
    if e.hasTemplate && (e.running || Mounted(vm.spec.volumes, e).Ok?) {
      var init :| InitStatusFor(b, vm, e.storage, e.secretStore, e.classNames, e.site.setting, init) &&
        p == Initialised(b, init, e.refusals.first);
      var order :| InitStatusIn(b, vm, order, e.storage, e.secretStore, e.classNames, e.site.setting, init);
      InitNeverPanics(b, vm, order, e.storage, e.secretStore, e.classNames, e.site.setting);
    }
  }

  /** A new backup of a VM that is not running, whose first volume is a claim without storage class. */
  lemma MountingCrashesWithoutClass(b: Backup, remote: M.Remote, e: Surroundings, p: Passed, store: M.Remote,
        claimName: string)
    requires PassAlone(b, remote, e, p, store) && !b.deleting && !IsBackupReady(b) && IsBackupMissingStatus(b)
    requires e.source.Success? && !e.running && e.source.value.spec.volumes != []
    requires e.source.value.spec.volumes[0].claim == Some(claimName)
    requires claimName in e.storage.claims && e.storage.claims[claimName].spec.storageClass.None?
    ensures p.outcome.Panic? && p.stored == b
  {
    assert MountedOne(e.source.value.spec.volumes[0], e).Panic?;
    CrashesExactly(b, remote, e, p, store);
  }

  /** An initialised backup with a volume whose snapshot is absent, for which no Longhorn backup is recorded, and
      whose claim has no storage class. */
  lemma CreationCrashesWithoutClass(b: Backup, remote: M.Remote, e: Surroundings, p: Passed, store: M.Remote,
        vb: VolumeBackup)
    requires PassAlone(b, remote, e, p, store) && !b.deleting && !IsBackupReady(b) && !IsBackupMissingStatus(b)
    requires e.classNames.Success? && vb in b.status.value.volumes && vb.name.Some? && vb.name.value !in e.snapshots
    requires vb.longhornBackup.None? && vb.claim.name in e.storage.claims
    requires e.storage.claims[vb.claim.name].spec.storageClass.None?
    ensures p.outcome.Panic?
  {
    assert !SeenOf(vb, e).Present?;
    CrashesExactly(b, remote, e, p, store);
  }
}
