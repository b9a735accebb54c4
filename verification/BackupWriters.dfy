/** What each writer of a VirtualMachineBackup makes of the version it holds. */
module BackupWriters {
  import opened Outcomes
  import opened Conditions
  import opened Objects
  import opened Volumes
  import opened Secrets

  // updateConditions

  /** Index of the first volume in error; the number of volumes when there is none. */
  function FirstError(vbs: seq<VolumeBackup>): (k: nat)
    ensures k <= |vbs|
    ensures k < |vbs| ==> vbs[k].error.Some?
    ensures forall j | 0 <= j < k :: vbs[j].error.None?
  {
    if vbs == [] then 0
    else
      var front := FirstError(vbs[..|vbs| - 1]);
      if front < |vbs| - 1 || vbs[|vbs| - 1].error.Some? then front else |vbs|
  }

  predicate AllReady(vbs: seq<VolumeBackup>) {
    forall vb | vb in vbs :: vb.ready == Some(true)
  }

  /** The volumes the loop looks at: it stops behind the first one in error. */
  function Examined(vbs: seq<VolumeBackup>): seq<VolumeBackup> {
    var k := FirstError(vbs);
    if k < |vbs| then vbs[..k + 1] else vbs
  }

  function ErrorMessage(name: string): string {
    "VolumeSnapshot " + name + " in error state"
  }

  function InProgressStatus(s: BackupStatus, now: nat): BackupStatus {
    if s.error.None? && s.ready != Some(true) then
      s.(conditions := Report(s.conditions, NewProgressing(True, "", "Operation in progress", now),
        NewReady(False, "", "Not ready", now)))
    else s
  }

  function CompletedStatus(s: BackupStatus, ready: bool, now: nat): BackupStatus {
    if ready && s.ready != Some(true) then
      s.(created := Some(now), error := None,
         conditions := Report(s.conditions, NewProgressing(False, "", "Operation complete", now),
           NewReady(True, "", "Operation complete", now)))
    else s
  }

  function ErroredStatus(s: BackupStatus, message: string, now: nat): BackupStatus {
    if s.error.None? || s.error.value.message != Some(message) then
      s.(error := Some(Error(now, Some(message))),
         conditions := Report(s.conditions, NewProgressing(False, "Error", message, now),
           NewReady(False, "", "Not Ready", now)))
    else s
  }

  function Concluded(s: BackupStatus, now: nat): Outcome<BackupStatus> {
    var k := FirstError(s.volumes);
    if k < |s.volumes| && s.volumes[k].name.None? then Panic
    else
      var ready := AllReady(Examined(s.volumes));
      var done := CompletedStatus(InProgressStatus(s, now), ready, now);
      var verdict := if k < |s.volumes| then ErroredStatus(done, ErrorMessage(s.volumes[k].name.value), now) else done;
      Ok(verdict.(ready := Some(ready)))
  }

  method UpdateConditions(s: BackupStatus, now: nat) returns (result: Outcome<BackupStatus>)
    ensures result == Concluded(s, now)
  {
    var out := s;
    if out.error.None? && out.ready != Some(true) {
      out := out.(conditions := Updated(out.conditions, NewProgressing(True, "", "Operation in progress", now)));
      out := out.(conditions := Updated(out.conditions, NewReady(False, "", "Not ready", now)));
    }
    var ready := true;
    var errorMessage := "";
    for i := 0 to |s.volumes|
      invariant FirstError(s.volumes) >= i && errorMessage == ""
      invariant ready == AllReady(s.volumes[..i])
    {
      var vb := s.volumes[i];
      assert s.volumes[..i + 1] == s.volumes[..i] + [vb];
      if vb.ready.None? || !vb.ready.value {
        ready := false;
      }
      if vb.error.Some? {
        assert FirstError(s.volumes) == i;
        if vb.name.None? {
          return Panic;
        }
        errorMessage := ErrorMessage(vb.name.value);
        break;
      }
    }
    assert s.volumes[..|s.volumes|] == s.volumes;
    assert ready == AllReady(Examined(s.volumes));
    if ready && out.ready != Some(true) {
      out := out.(created := Some(now), error := None);
      out := out.(conditions := Updated(out.conditions, NewProgressing(False, "", "Operation complete", now)));
      out := out.(conditions := Updated(out.conditions, NewReady(True, "", "Operation complete", now)));
    }
    if errorMessage != "" && (out.error.None? || out.error.value.message != Some(errorMessage)) {
      out := out.(error := Some(Error(now, Some(errorMessage))));
      out := out.(conditions := Updated(out.conditions, NewProgressing(False, "Error", errorMessage, now)));
      out := out.(conditions := Updated(out.conditions, NewReady(False, "", "Not Ready", now)));
    }
    result := Ok(out.(ready := Some(ready)));
  }

  predicate ReportsReady(s: BackupStatus) {
    StatusOf(s.conditions, Ready) == Some(True)
  }

  /** There is a volume in error, and the first such and all before it are ready: the loop stops there without
      clearing `ready`. */
  predicate ErroredWhileReady(vbs: seq<VolumeBackup>) {
    FirstError(vbs) < |vbs| && AllReady(Examined(vbs))
  }

  predicate OnceEach(s: BackupStatus) {
    AtMostOnce(s.conditions, Ready) && AtMostOnce(s.conditions, InProgress)
  }

  lemma InProgressReads(s: BackupStatus, now: nat)
    requires !ReportsReady(s)
    ensures !ReportsReady(InProgressStatus(s, now))
    ensures OnceEach(s) ==> OnceEach(InProgressStatus(s, now))
  {
    ReportReads(s.conditions, NewProgressing(True, "", "Operation in progress", now),
      NewReady(False, "", "Not ready", now));
  }

  lemma CompletedReads(s: BackupStatus, ready: bool, now: nat)
    requires s.ready != Some(true) && !ReportsReady(s)
    ensures ReportsReady(CompletedStatus(s, ready, now)) <==> ready
    ensures OnceEach(s) ==> OnceEach(CompletedStatus(s, ready, now))
  {
    ReportReads(s.conditions, NewProgressing(False, "", "Operation complete", now),
      NewReady(True, "", "Operation complete", now));
  }

  lemma ErroredReads(s: BackupStatus, message: string, now: nat)
    requires ReportsReady(s) ==> s.error.None?
    ensures !ReportsReady(ErroredStatus(s, message, now))
    ensures OnceEach(s) ==> OnceEach(ErroredStatus(s, message, now))
  {
    ReportReads(s.conditions, NewProgressing(False, "Error", message, now), NewReady(False, "", "Not Ready", now));
  }

  lemma ExaminedReady(vbs: seq<VolumeBackup>)
    ensures FirstError(vbs) == |vbs| ==> Examined(vbs) == vbs
    ensures FirstError(vbs) < |vbs| ==> vbs[FirstError(vbs)] in Examined(vbs)
    ensures AllReady(vbs) ==> AllReady(Examined(vbs))
  {
  }

  /** Without an errored volume ReadyToUse and the Ready condition both say whether all volumes are
      ready; with one, the condition says False and ReadyToUse whether the volumes up to it are ready. */
  lemma ConcludedReads(s: BackupStatus, now: nat)
    requires s.ready != Some(true) && !ReportsReady(s) && Concluded(s, now).Ok?
    ensures Concluded(s, now).value.ready == Some(AllReady(Examined(s.volumes)))
    ensures ReportsReady(Concluded(s, now).value) <==> AllReady(s.volumes) && FirstError(s.volumes) == |s.volumes|
    ensures ReportsReady(Concluded(s, now).value) ==> Concluded(s, now).value.error.None?
    ensures OnceEach(s) ==> OnceEach(Concluded(s, now).value)
    ensures Concluded(s, now).value.volumes == s.volumes && Concluded(s, now).value.source == s.source
  {
    var ready := AllReady(Examined(s.volumes));
    var k := FirstError(s.volumes);
    var s0 := InProgressStatus(s, now);
    InProgressReads(s, now);
    CompletedReads(s0, ready, now);
    ExaminedReady(s.volumes);
    if k < |s.volumes| {
      ErroredReads(CompletedStatus(s0, ready, now), ErrorMessage(s.volumes[k].name.value), now);
    }
  }

  lemma InProgressSays(s: BackupStatus, now: nat)
    ensures var out := InProgressStatus(s, now);
      && out.error == s.error && out.created == s.created && out.ready == s.ready
      && (s.error.None? && s.ready != Some(true) ==>
        Says(out.conditions, InProgress, True, "", "Operation in progress") &&
        Says(out.conditions, Ready, False, "", "Not ready"))
  {
    ReportSays(s.conditions, NewProgressing(True, "", "Operation in progress", now),
      NewReady(False, "", "Not ready", now));
  }

  lemma CompletedSays(s: BackupStatus, now: nat)
    requires s.ready != Some(true)
    ensures var out := CompletedStatus(s, true, now);
      && out.error.None? && out.created == Some(now)
      && Says(out.conditions, InProgress, False, "", "Operation complete")
      && Says(out.conditions, Ready, True, "", "Operation complete")
  {
    ReportSays(s.conditions, NewProgressing(False, "", "Operation complete", now),
      NewReady(True, "", "Operation complete", now));
  }

  lemma ErroredSays(s: BackupStatus, message: string, now: nat)
    ensures var out := ErroredStatus(s, message, now);
      && out.error.Some? && out.error.value.message == Some(message)
      && (s.error.None? ==>
        Says(out.conditions, InProgress, False, "Error", message) &&
          Says(out.conditions, Ready, False, "", "Not Ready"))
  {
    ReportSays(s.conditions, NewProgressing(False, "Error", message, now), NewReady(False, "", "Not Ready", now));
  }

  /** What is concluded besides readiness: completion ends progress and records the time, an errored volume is
      reported by its name, and as long as neither happened progress goes on. */
  lemma ConcludedReports(s: BackupStatus, now: nat)
    requires s.ready != Some(true) && Concluded(s, now).Ok?
    ensures var out, k := Concluded(s, now).value, FirstError(s.volumes);
      if k < |s.volumes| then
        && s.volumes[k].name.Some? && out.error.Some?
        && var message := "VolumeSnapshot " + s.volumes[k].name.value + " in error state";
        && out.error.value.message == Some(message)
        && (s.error.None? ==>
          Says(out.conditions, InProgress, False, "Error", message) &&
            Says(out.conditions, Ready, False, "", "Not Ready"))
      else if AllReady(s.volumes) then
        out.error.None? && out.created == Some(now) &&
          Says(out.conditions, InProgress, False, "", "Operation complete") &&
        Says(out.conditions, Ready, True, "", "Operation complete")
      else
        out.error == s.error && out.created == s.created &&
        (s.error.None? ==>
          Says(out.conditions, InProgress, True, "", "Operation in progress") &&
          Says(out.conditions, Ready, False, "", "Not ready"))
  {
    var k, ready := FirstError(s.volumes), AllReady(Examined(s.volumes));
    var s0 := InProgressStatus(s, now);
    InProgressSays(s, now);
    CompletedSays(s0, now);
    ExaminedReady(s.volumes);
    if k < |s.volumes| {
      ErroredSays(CompletedStatus(s0, ready, now), ErrorMessage(s.volumes[k].name.value), now);
    }
  }

  /** From a status that is not ready, ReadyToUse and the Ready condition come out equal unless there is an
      errored volume and every volume up to and including the first errored one is ready, and only then. */
  lemma ConcludedAgrees(s: BackupStatus, now: nat)
    requires s.ready != Some(true) && !ReportsReady(s) && Concluded(s, now).Ok?
    ensures ((Concluded(s, now).value.ready == Some(true)) <==> ReportsReady(Concluded(s, now).value)) <==>
      !ErroredWhileReady(s.volumes)
  {
    ConcludedReads(s, now);
    ExaminedReady(s.volumes);
  }

  lemma FirstErrsSecondWaits(bad: VolumeBackup, slow: VolumeBackup)
    requires bad.error.Some? && bad.ready == Some(true) && slow.ready != Some(true)
    ensures FirstError([bad, slow]) == 0 && AllReady(Examined([bad, slow])) && !AllReady([bad, slow])
  {
    var vbs := [bad, slow];
    assert vbs[0] == bad && vbs[1] in vbs && vbs[..1] == [bad];
  }

  /** A backup of two volumes, the first ready but errored, the second not ready, is declared ready
      to use while its Ready condition is not True. */
  lemma ReadyWithoutBeingReady(bad: VolumeBackup, slow: VolumeBackup, now: nat)
    requires bad.error.Some? && bad.ready == Some(true) && bad.name.Some? && slow.ready != Some(true)
    ensures var out := Concluded(EMPTY_BACKUP_STATUS.(volumes := [bad, slow], ready := Some(false)), now);
      out.Ok? && out.value.ready == Some(true) && !ReportsReady(out.value)
  {
    FirstErrsSecondWaits(bad, slow);
    ConcludedReads(EMPTY_BACKUP_STATUS.(volumes := [bad, slow], ready := Some(false)), now);
  }

  lemma ConcludedKeepsTheRest(s: BackupStatus, now: nat)
    requires Concluded(s, now).Ok?
    ensures var out := Concluded(s, now).value;
      out.volumes == s.volumes && out.source == s.source && out.secrets == s.secrets && out.target == s.target
  {
  }

  // reconcileVolumeSnapshots

  datatype SnapshotStatus = SnapshotStatus(ready: Option<bool>, created: Option<nat>, error: Option<Error>)

  /** What the loop meets for one volume: a snapshot (found or just created), one on its way out, an API error,
      or a crash while creating one. */
  datatype Seen = Present(status: Option<SnapshotStatus>) | BeingDeleted | Unreachable(message: string) | CreationPanics

  datatype SnapshotPass = Refreshed(volumes: seq<VolumeBackup>) | Requeue | Stopped(message: string) | Crashed

  function RefreshedVolume(vb: VolumeBackup, seen: Seen): VolumeBackup {
    if vb.name.Some? && seen.Present? && seen.status.Some? then
      vb.(ready := seen.status.value.ready, created := seen.status.value.created, error := seen.status.value.error)
    else vb
  }

  function SnapshotPassOf(vbs: seq<VolumeBackup>, seen: seq<Seen>): SnapshotPass
    requires |seen| == |vbs|
  {
    if vbs == [] then Refreshed([])
    else
      var n := |vbs| - 1;
      match SnapshotPassOf(vbs[..n], seen[..n])
      case Refreshed(front) =>
        if vbs[n].name.Some? && seen[n].BeingDeleted? then Requeue
        else if vbs[n].name.Some? && seen[n].Unreachable? then Stopped(seen[n].message)
        else if vbs[n].name.Some? && seen[n].CreationPanics? then Crashed
        else Refreshed(front + [RefreshedVolume(vbs[n], seen[n])])
      case Requeue => Requeue
      case Stopped(e) => Stopped(e)
      case Crashed => Crashed
  }

  /** How the loop ends at a snapshot that is not there to be read. */
  function Stop(seen: Seen): SnapshotPass
    requires !seen.Present?
  {
    match seen
    case BeingDeleted => Requeue
    case Unreachable(m) => Stopped(m)
    case CreationPanics => Crashed
  }

  method ReconcileVolumeSnapshots(vbs: seq<VolumeBackup>, seen: seq<Seen>) returns (result: SnapshotPass)
    requires |seen| == |vbs|
    ensures result == SnapshotPassOf(vbs, seen)
  {
    var volumes := vbs;
    for i := 0 to |vbs|
      invariant |volumes| == |vbs| && volumes[i..] == vbs[i..]
      invariant SnapshotPassOf(vbs[..i], seen[..i]) == Refreshed(volumes[..i])
    {
      assert vbs[..i + 1][..i] == vbs[..i] && seen[..i + 1][..i] == seen[..i];
      ghost var before := volumes;
      if vbs[i].name.Some? {
        if seen[i].Unreachable? {
          SnapshotPassStops(vbs, seen, i);
          return Stopped(seen[i].message);
        }
        if seen[i].BeingDeleted? {
          SnapshotPassStops(vbs, seen, i);
          return Requeue;
        }
        if seen[i].CreationPanics? {
          SnapshotPassStops(vbs, seen, i);
          return Crashed;
        }
        if seen[i].status.Some? {
          var status := seen[i].status.value;
          volumes := volumes[i := volumes[i].(ready := status.ready, created := status.created, error := status.error)];
        }
      }
      assert volumes[..i + 1] == before[..i] + [RefreshedVolume(vbs[i], seen[i])];
    }
    assert vbs[..|vbs|] == vbs && seen[..|vbs|] == seen && volumes[..|vbs|] == volumes;
    result := Refreshed(volumes);
  }

  lemma {:induction false} SnapshotPassStops(vbs: seq<VolumeBackup>, seen: seq<Seen>, i: nat)
    requires |seen| == |vbs| && i < |vbs| && SnapshotPassOf(vbs[..i], seen[..i]).Refreshed?
    requires vbs[i].name.Some? && !seen[i].Present?
    ensures SnapshotPassOf(vbs, seen) == Stop(seen[i])
  {
    var n := |vbs| - 1;
    if i < n {
      assert vbs[..n][..i] == vbs[..i] && seen[..n][..i] == seen[..i];
      SnapshotPassStops(vbs[..n], seen[..n], i);
    } else {
      assert vbs[..n] == vbs[..i] && seen[..n] == seen[..i];
    }
  }

  /** A finished loop has copied readiness, time and error of each named volume's own snapshot, as soon as that
      has a status, and touched nothing else. */
  lemma RefreshRecords(vbs: seq<VolumeBackup>, seen: seq<Seen>)
    requires |seen| == |vbs| && SnapshotPassOf(vbs, seen).Refreshed?
    ensures var out := SnapshotPassOf(vbs, seen).volumes;
      |out| == |vbs| &&
      forall i | 0 <= i < |vbs| ::
        match seen[i]
        case Present(Some(st)) =>
          out[i] == if vbs[i].name.Some?
            then vbs[i].(ready := st.ready, created := st.created, error := st.error) else vbs[i]
        case _ => out[i] == vbs[i]
  {
    RefreshedAt(vbs, seen);
  }

  /** Each volume is refreshed from its own observation. */
  lemma {:induction false} RefreshedAt(vbs: seq<VolumeBackup>, seen: seq<Seen>)
    requires |seen| == |vbs| && SnapshotPassOf(vbs, seen).Refreshed?
    ensures var out := SnapshotPassOf(vbs, seen).volumes;
      |out| == |vbs| && forall i | 0 <= i < |vbs| :: out[i] == RefreshedVolume(vbs[i], seen[i])
  {
    if vbs != [] {
      RefreshedAt(vbs[..|vbs| - 1], seen[..|vbs| - 1]);
    }
  }

  // initBackup

  function InitStatus(b: Backup, vm: Vm, order: seq<string>, storage: Storage, secrets: map<string, Data>,
                      classNames: Result<map<string, string>>, target: Result<Target>): Outcome<BackupStatus>
    requires forall n | n in order :: n in ClaimMap(vm.spec.volumes)
  {
    match VolumeBackupsInOrder(b.name, ClaimMap(vm.spec.volumes), order, storage)
    case Ok(vbs) =>
      (match SecretBackups(SecretRefs(vm.spec), secrets)
       case Ok(sbs) =>
         if classNames.Failure? then Err(classNames.message)
         else if b.spec.kind.BackupTo? && target.Failure? then Err(target.message)
         else
           Ok(EMPTY_BACKUP_STATUS.(
              ready := Some(false), sourceUid := Some(vm.uid),
              source := Some(VmSource(vm.name, vm.namespace, vm.annotations, vm.spec)),
              volumes := vbs, secrets := sbs, classNames := classNames.value,
              target := if b.spec.kind.BackupTo? then Some(target.value) else None))
       case Err(e) => Err(e)
       case Panic => Panic)
    case Err(e) => Err(e)
    case Panic => Panic
  }

  /** The initial status for some order of the claim map, or the first failure. */
  ghost predicate InitStatusFor(b: Backup, vm: Vm, storage: Storage, secrets: map<string, Data>,
                                classNames: Result<map<string, string>>, target: Result<Target>,
                                  result: Outcome<BackupStatus>)
  {
    exists order :: InitStatusIn(b, vm, order, storage, secrets, classNames, target, result)
  }

  ghost predicate InitStatusIn(b: Backup, vm: Vm, order: seq<string>, storage: Storage, secrets: map<string, Data>,
                               classNames: Result<map<string, string>>, target: Result<Target>,
                                 result: Outcome<BackupStatus>)
  {
    && (forall n | n in order :: n in ClaimMap(vm.spec.volumes))
    && result == InitStatus(b, vm, order, storage, secrets, classNames, target)
    && (result.Ok? ==> Enumerates(order, ClaimMap(vm.spec.volumes).Keys))
  }

  method InitBackup(b: Backup, vm: Vm, storage: Storage, secrets: map<string, Data>,
                    classNames: Result<map<string, string>>, target: Result<Target>)
    returns (result: Outcome<BackupStatus>)
    ensures InitStatusFor(b, vm, storage, secrets, classNames, target, result)
  {
    var status := EMPTY_BACKUP_STATUS.(ready := Some(false), sourceUid := Some(vm.uid),
                                       source := Some(VmSource(vm.name, vm.namespace, vm.annotations, vm.spec)));
    var volumes := GetVolumeBackups(b.name, vm.spec.volumes, storage);
    ghost var order :| VisitedIn(b.name, vm.spec.volumes, storage, volumes, order);
    if !volumes.Ok? {
      result := if volumes.Err? then Err(volumes.message) else Panic;
      assert InitStatusIn(b, vm, order, storage, secrets, classNames, target, result);
      return;
    }
    status := status.(volumes := volumes.value);
    var backups := GetSecretBackups(vm.spec, secrets);
    if !backups.Ok? {
      result := if backups.Err? then Err(backups.message) else Panic;
      assert InitStatusIn(b, vm, order, storage, secrets, classNames, target, result);
      return;
    }
    status := status.(secrets := backups.value);
    if classNames.Failure? {
      result := Err(classNames.message);
      assert InitStatusIn(b, vm, order, storage, secrets, classNames, target, result);
      return;
    }
    status := status.(classNames := classNames.value);
    if b.spec.kind.BackupTo? {
      if target.Failure? {
        result := Err(target.message);
        assert InitStatusIn(b, vm, order, storage, secrets, classNames, target, result);
        return;
      }
      status := status.(target := Some(target.value));
    }
    result := Ok(status);
    assert InitStatusIn(b, vm, order, storage, secrets, classNames, target, result);
  }

  /** An initial status records the VM it was read from in full, the secrets it refers to, the class names and,
      for a backup to a target, the target; nothing is ready or in error yet. */
  lemma InitRecords(b: Backup, vm: Vm, order: seq<string>, storage: Storage, secrets: map<string, Data>,
        classNames: Result<map<string, string>>, target: Result<Target>)
    requires forall n | n in order :: n in ClaimMap(vm.spec.volumes)
    requires InitStatus(b, vm, order, storage, secrets, classNames, target).Ok?
    ensures var s := InitStatus(b, vm, order, storage, secrets, classNames, target).value;
      && s.source == Some(VmSource(vm.name, vm.namespace, vm.annotations, vm.spec)) && s.sourceUid == Some(vm.uid)
      && SecretBackups(SecretRefs(vm.spec), secrets) == Ok(s.secrets)
      && VolumeBackupsInOrder(b.name, ClaimMap(vm.spec.volumes), order, storage) == Ok(s.volumes)
      && classNames == Success(s.classNames)
      && (b.spec.kind.BackupTo? ==> s.target.Some? && target == Success(s.target.value))
      && (b.spec.kind.SnapshotOnly? ==> s.target.None?)
      && s.ready == Some(false) && s.error.None? && s.created.None? && s.conditions == []
  {
  }

  // setStatusError

  function ErrorStatus(message: string, now: nat): BackupStatus {
    EMPTY_BACKUP_STATUS.(
      error := Some(Error(now, Some(message))),
      conditions := Report([], NewProgressing(False, "Error", message, now), NewReady(False, "", "Not Ready", now)))
  }

  /** An error reset keeps nothing but the error, and reports it. */
  lemma ErrorStatusReports(message: string, now: nat)
    ensures var s := ErrorStatus(message, now);
      && s.error == Some(Error(now, Some(message))) && s.ready.None? && s.source.None? && s.volumes == [] &&
        s.secrets == []
      && s.target.None? && s.classNames == map[] && s.created.None? && s.sourceUid.None?
      && Says(s.conditions, InProgress, False, "Error", message) && Says(s.conditions, Ready, False, "", "Not Ready")
  {
    ReportSays([], NewProgressing(False, "Error", message, now), NewReady(False, "", "Not Ready", now));
  }

  // OnLHBackupChanged

  function WithLonghornName(vbs: seq<VolumeBackup>, snapshot: string, longhornBackup: string): seq<VolumeBackup> {
    seq(|vbs|, i requires 0 <= i < |vbs| =>
      if vbs[i].name == Some(snapshot) then vbs[i].(longhornBackup := Some(longhornBackup)) else vbs[i])
  }

  method NameLonghornBackup(vbs: seq<VolumeBackup>, snapshot: string, longhornBackup: string)
    returns (result: Outcome<seq<VolumeBackup>>)
    ensures result.Ok? <==> forall vb | vb in vbs :: vb.name.Some?
    ensures result.Ok? ==> result.value == WithLonghornName(vbs, snapshot, longhornBackup)
    ensures result.Ok? ==> |result.value| == |vbs| && forall i | 0 <= i < |vbs| ::
      result.value[i] == if vbs[i].name == Some(snapshot) then vbs[i].(longhornBackup := Some(longhornBackup))
        else vbs[i]
    ensures !result.Ok? ==> result.Panic?
  {
    var volumes := vbs;
    for i := 0 to |vbs|
      invariant |volumes| == |vbs|
      invariant forall k | 0 <= k < i ::
        vbs[k].name.Some? && volumes[k] == WithLonghornName(vbs, snapshot, longhornBackup)[k]
      invariant forall k | i <= k < |vbs| :: volumes[k] == vbs[k]
    {
      if vbs[i].name.None? {
        return Panic;
      }
      if vbs[i].name.value == snapshot {
        volumes := volumes[i := volumes[i].(longhornBackup := Some(longhornBackup))];
      }
    }
    result := Ok(volumes);
  }

  // All writers together

  /** A write of the backup object, with everything it read elsewhere. */
  datatype Writer =
    | Edit(annotated: Target, deleting: bool)
    | Finalize(on: bool)
    | ErrorReset(message: string, now: nat)
    | Init(vm: Vm, order: seq<string>, storage: Storage, secretStore: map<string, Data>, names: map<string, string>,
      target: Target)
    | Snapshots(seen: seq<Seen>)
    | Conclude(now: nat)
    | ClassNames(names: map<string, string>)
    | TargetFromAnnotation
    | LonghornName(snapshot: string, longhornBackup: string)

  predicate AllNamed(vbs: seq<VolumeBackup>) {
    forall vb | vb in vbs :: vb.name.Some?
  }

  /** The branch of the controller that leads to the write, taken on the version held. */
  ghost predicate Enabled(w: Writer, b: Backup) {
    match w
    case Edit(_, deleting) => b.deleting ==> deleting
    case Finalize(on) => on != b.finalizer && (on ==> !b.deleting)
    case ErrorReset(_, _) => !b.deleting && !IsBackupReady(b)
    case Init(vm, order, storage, secrets, names, target) =>
      !b.deleting && !IsBackupReady(b) && IsBackupMissingStatus(b) &&
      Enumerates(order, ClaimMap(vm.spec.volumes).Keys) &&
      InitStatus(b, vm, order, storage, secrets, Success(names), Success(target)).Ok?
    case Snapshots(seen) =>
      !b.deleting && !IsBackupReady(b) && !IsBackupMissingStatus(b) &&
      |seen| == |b.status.value.volumes| && SnapshotPassOf(b.status.value.volumes, seen).Refreshed?
    case Conclude(now) =>
      !b.deleting && !IsBackupReady(b) && !IsBackupMissingStatus(b) && Concluded(b.status.value, now).Ok?
    case ClassNames(_) => !b.deleting && IsBackupReady(b) && b.status.value.classNames == map[]
    case TargetFromAnnotation => b.status.Some? && b.spec.kind.BackupTo? && b.annotated != NO_TARGET
    case LonghornName(_, _) => b.status.Some? && b.status.value.target.Some? && AllNamed(b.status.value.volumes)
  }

  ghost function Apply(w: Writer, b: Backup): Backup
    requires Enabled(w, b)
  {
    match w
    case Edit(annotated, deleting) => b.(annotated := annotated, deleting := deleting)
    case Finalize(on) => b.(finalizer := on)
    case ErrorReset(message, now) => b.(status := Some(ErrorStatus(message, now)))
    case Init(vm, order, storage, secrets, names, target) =>
      b.(status := Some(InitStatus(b, vm, order, storage, secrets, Success(names), Success(target)).value))
    case Snapshots(seen) =>
      b.(status := Some(b.status.value.(volumes := SnapshotPassOf(b.status.value.volumes, seen).volumes)))
    case Conclude(now) => b.(status := Some(Concluded(b.status.value, now).value))
    case ClassNames(names) => b.(status := Some(b.status.value.(classNames := names)))
    case TargetFromAnnotation => b.(status := Some(b.status.value.(target := Some(b.annotated))))
    case LonghornName(snapshot, lh) =>
      b.(status := Some(b.status.value.(volumes := WithLonghornName(b.status.value.volumes, snapshot, lh))))
  }

  // What every write keeps

  predicate HonestVolume(vb: VolumeBackup) {
    vb.error.Some? ==> vb.ready != Some(true)
  }

  /** No snapshot is reported both ready and in error. */
  predicate Honest(w: Writer) {
    w.Snapshots? ==>
      forall s | s in w.seen && s.Present? && s.status.Some? && s.status.value.error.Some? ::
      s.status.value.ready != Some(true)
  }

  ghost predicate SoundStatus(s: BackupStatus) {
    && (s.ready == Some(true) <==> ReportsReady(s))
    && OnceEach(s)
    && (forall vb | vb in s.volumes :: HonestVolume(vb))
    && (s.ready == Some(true) ==>
          s.source.Some? && s.volumes != [] && s.error.None? && AllReady(s.volumes) && forall vb | vb in s.volumes ::
            vb.error.None?)
  }

  ghost predicate Sound(b: Backup) {
    b.status.Some? ==> SoundStatus(b.status.value)
  }

  lemma ApplyKeepsSound(w: Writer, b: Backup)
    requires Enabled(w, b) && Honest(w) && Sound(b)
    ensures Sound(Apply(w, b))
  {
    match w
    case ErrorReset(message, now) =>
      ReportReads([], NewProgressing(False, "Error", message, now), NewReady(False, "", "Not Ready", now));
    case Init(vm, order, storage, secrets, names, target) =>
      InitIsSound(w, b);
    case Snapshots(seen) =>
      RefreshedAt(b.status.value.volumes, seen);
    case Conclude(now) =>
      ConcludeIsSound(b.status.value, now);
    case LonghornName(snapshot, lh) =>
      var vbs := b.status.value.volumes;
      forall vb | vb in WithLonghornName(vbs, snapshot, lh)
        ensures exists was :: was in vbs && vb == was.(longhornBackup := vb.longhornBackup)
      {
        var i :| 0 <= i < |vbs| && vb == WithLonghornName(vbs, snapshot, lh)[i];
        assert vbs[i] in vbs;
      }
    case _ =>
  }

  lemma ConcludeIsSound(s: BackupStatus, now: nat)
    requires s.ready != Some(true) && s.source.Some? && s.volumes != [] && SoundStatus(s) && Concluded(s, now).Ok?
    ensures SoundStatus(Concluded(s, now).value)
  {
    ConcludedReads(s, now);
    ExaminedReady(s.volumes);
    if FirstError(s.volumes) < |s.volumes| {
      assert HonestVolume(s.volumes[FirstError(s.volumes)]);
    }
  }

  lemma InitIsSound(w: Writer, b: Backup)
    requires w.Init? && Enabled(w, b)
    ensures Sound(Apply(w, b))
    ensures Covers(Apply(w, b).status.value.volumes, w.vm.spec.volumes)
  {
    BackupsCoverVolumes(b.name, w.vm.spec.volumes, w.order, w.storage);
    forall vb | vb in Apply(w, b).status.value.volumes
      ensures vb.error.None? && vb.ready == Some(false)
    {
      BackedUpVolume(b.name, ClaimMap(w.vm.spec.volumes), w.order, w.storage, vb);
    }
  }

  /** Once the source spec is recorded, its claims are all among the backed-up volumes. */
  ghost predicate CoversSource(b: Backup) {
    b.status.Some? && b.status.value.source.Some? ==>
      Covers(b.status.value.volumes, b.status.value.source.value.spec.volumes)
  }

  lemma ApplyKeepsCovers(w: Writer, b: Backup)
    requires Enabled(w, b) && CoversSource(b)
    ensures CoversSource(Apply(w, b))
  {
    if w.Init? {
      InitIsSound(w, b);
    } else if w.Snapshots? {
      SnapshotsKeepCovers(w, b);
    } else if w.LonghornName? {
      SameVolumeNamesCover(b.status.value.volumes, Apply(w, b).status.value.volumes, b.status.value.source);
    } else if w.Conclude? {
      ConcludedKeepsTheRest(b.status.value, w.now);
    }
  }

  lemma SnapshotsKeepCovers(w: Writer, b: Backup)
    requires w.Snapshots? && Enabled(w, b) && CoversSource(b)
    ensures CoversSource(Apply(w, b))
  {
    RefreshedAt(b.status.value.volumes, w.seen);
    SameVolumeNamesCover(b.status.value.volumes, Apply(w, b).status.value.volumes, b.status.value.source);
  }

  lemma SameVolumeNamesCover(vbs: seq<VolumeBackup>, out: seq<VolumeBackup>, source: Option<VmSource>)
    requires |out| == |vbs| && forall i | 0 <= i < |vbs| :: out[i].volumeName == vbs[i].volumeName
    requires source.Some? ==> Covers(vbs, source.value.spec.volumes)
    ensures source.Some? ==> Covers(out, source.value.spec.volumes)
  {
    if source.Some? {
      forall v | v in source.value.spec.volumes && v.claim.Some?
        ensures exists vb :: vb in out && vb.volumeName == v.name
      {
        var vb :| vb in vbs && vb.volumeName == v.name;
        var i :| 0 <= i < |vbs| && vbs[i] == vb;
        assert out[i] in out;
      }
    }
  }

  /** Everything of a status but the snapshot class names, the target and the Longhorn backup names. */
  function Core(s: BackupStatus): BackupStatus {
    s.(classNames := map[], target := None,
       volumes := seq(|s.volumes|, i requires 0 <= i < |s.volumes| => s.volumes[i].(longhornBackup := None)))
  }

  /** A write leaves a ready backup ready and its core as it was. */
  lemma ApplyKeepsReady(w: Writer, b: Backup)
    requires Enabled(w, b) && IsBackupReady(b)
    ensures IsBackupReady(Apply(w, b)) && Core(Apply(w, b).status.value) == Core(b.status.value)
  {
  }

  /** Equal cores agree on the source and, volume by volume, on name, volume name, driver and claim. */
  lemma SameCore(s: BackupStatus, t: BackupStatus)
    requires Core(s) == Core(t)
    ensures s.source == t.source && s.secrets == t.secrets && s.ready == t.ready && |s.volumes| == |t.volumes|
    ensures forall i | 0 <= i < |s.volumes| ::
      s.volumes[i].name == t.volumes[i].name && s.volumes[i].volumeName == t.volumes[i].volumeName &&
      s.volumes[i].driver == t.volumes[i].driver && s.volumes[i].claim == t.volumes[i].claim
  {
    forall i | 0 <= i < |s.volumes|
      ensures s.volumes[i].(longhornBackup := None) == t.volumes[i].(longhornBackup := None)
    {
      assert Core(s).volumes[i] == Core(t).volumes[i];
    }
  }
}
