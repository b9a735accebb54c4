/** What a stored version of a backup owes to the writes before it: its source to the last initialisation, and
    the verdict on each volume to the last look at that volume's snapshot. */
module BackupHistory {
  import opened Outcomes
  import opened Objects
  import opened Volumes
  import opened Secrets
  import opened BackupWriters
  import opened BackupMachine

  /** Writes that replace the whole status. */
  predicate Replaces(w: Writer) {
    w.Init? || w.ErrorReset?
  }

  /** The write saw a snapshot with a status for the volume at position i. */
  predicate Looks(w: Writer, i: nat) {
    w.Snapshots? && i < |w.seen| && w.seen[i].Present? && w.seen[i].status.Some?
  }

  // Volumes

  /** The last look at volume i behind version j, unless the status has been replaced since. */
  function LastLook(log: seq<Writer>, j: nat, i: nat): (k: Option<nat>)
    requires j <= |log|
    ensures k.Some? ==> k.value < j && Looks(log[k.value], i)
    ensures k.Some? ==> forall m | k.value < m < j :: !Looks(log[m], i) && !Replaces(log[m])
    ensures k.None? ==> forall m | 0 <= m < j && Looks(log[m], i) :: exists n :: m < n < j && Replaces(log[n])
  {
    if j == 0 || Replaces(log[j - 1]) then None
    else if Looks(log[j - 1], i) then Some(j - 1)
    else LastLook(log, j - 1, i)
  }

  /** The volume records readiness, time and error as the last look found them; before any look it is not ready. */
  predicate Records(vb: VolumeBackup, log: seq<Writer>, j: nat, i: nat)
    requires j <= |log|
  {
    vb.name.Some? &&
    match LastLook(log, j, i)
    case None => vb.ready == Some(false) && vb.created.None? && vb.error.None?
    case Some(k) =>
      var st := log[k].seen[i].status.value;
      vb.ready == st.ready && vb.created == st.created && vb.error == st.error
  }

  ghost predicate RecordsLooks(b: Backup, log: seq<Writer>, j: nat)
    requires j <= |log|
  {
    !IsBackupMissingStatus(b) ==>
      forall i | 0 <= i < |b.status.value.volumes| :: Records(b.status.value.volumes[i], log, j, i)
  }

  lemma {:induction false} VersionsRecordLooks(history: seq<Backup>, log: seq<Writer>, j: nat)
    requires Replays(history, log) && j < |history| && IsBackupMissingStatus(history[0])
    ensures RecordsLooks(history[j], log, j)
  {
    if j > 0 {
      VersionsRecordLooks(history, log, j - 1);
      WriteRecords(history[j - 1], log, j - 1);
    }
  }

  lemma WriteRecords(b: Backup, log: seq<Writer>, j: nat)
    requires j < |log| && Enabled(log[j], b) && RecordsLooks(b, log, j)
    ensures RecordsLooks(Apply(log[j], b), log, j + 1)
  {
    var w := log[j];
    if w.Init? {
      InitRecordsNothing(b, log, j);
    } else if w.Snapshots? {
      SnapshotsRecord(b, log, j);
    } else if w.Conclude? {
      ConcludedKeepsTheRest(b.status.value, w.now);
      assert forall i: nat :: LastLook(log, j + 1, i) == LastLook(log, j, i);
    } else {
      assert !Replaces(w) ==> forall i: nat :: LastLook(log, j + 1, i) == LastLook(log, j, i);
    }
  }

  lemma InitRecordsNothing(b: Backup, log: seq<Writer>, j: nat)
    requires j < |log| && log[j].Init? && Enabled(log[j], b)
    ensures RecordsLooks(Apply(log[j], b), log, j + 1)
  {
    var w := log[j];
    InitRecords(b, w.vm, w.order, w.storage, w.secretStore, Success(w.names), Success(w.target));
    var vbs := Apply(w, b).status.value.volumes;
    forall i | 0 <= i < |vbs|
      ensures Records(vbs[i], log, j + 1, i)
    {
      BackedUpVolume(b.name, ClaimMap(w.vm.spec.volumes), w.order, w.storage, vbs[i]);
    }
  }

  lemma SnapshotsRecord(b: Backup, log: seq<Writer>, j: nat)
    requires j < |log| && log[j].Snapshots? && Enabled(log[j], b) && RecordsLooks(b, log, j)
    ensures RecordsLooks(Apply(log[j], b), log, j + 1)
  {
    var vbs, seen := b.status.value.volumes, log[j].seen;
    RefreshRecords(vbs, seen);
    var out := Apply(log[j], b).status.value.volumes;
    forall i | 0 <= i < |out|
      ensures Records(out[i], log, j + 1, i)
    {
      assert Records(vbs[i], log, j, i);
    }
  }

  /** A version ready to use was concluded from volumes that are ready up to the first one in error. */
  lemma {:induction false} ReadyVersionsExamined(history: seq<Backup>, log: seq<Writer>, j: nat)
    requires Replays(history, log) && j < |history| && !IsBackupReady(history[0])
    ensures IsBackupReady(history[j]) ==>
      !IsBackupMissingStatus(history[j]) && AllReady(Examined(history[j].status.value.volumes))
  {
    if j > 0 {
      ReadyVersionsExamined(history, log, j - 1);
      WriteExamines(log[j - 1], history[j - 1]);
    }
  }

  ghost predicate ExaminedIfReady(b: Backup) {
    IsBackupReady(b) ==> !IsBackupMissingStatus(b) && AllReady(Examined(b.status.value.volumes))
  }

  lemma WriteExamines(w: Writer, b: Backup)
    requires Enabled(w, b) && ExaminedIfReady(b)
    ensures ExaminedIfReady(Apply(w, b))
  {
    var out := Apply(w, b);
    if w.Conclude? {
      ConcludedKeepsTheRest(b.status.value, w.now);
    } else if w.LonghornName? && IsBackupReady(b) {
      SameVerdicts(b.status.value.volumes, out.status.value.volumes);
    }
  }

  lemma SameVerdicts(vbs: seq<VolumeBackup>, out: seq<VolumeBackup>)
    requires |out| == |vbs| && forall i | 0 <= i < |vbs| :: out[i].ready == vbs[i].ready && out[i].error == vbs[i].error
    requires AllReady(Examined(vbs))
    ensures AllReady(Examined(out))
  {
    var k, l := FirstError(vbs), FirstError(out);
    assert k == l;
    forall vb | vb in Examined(out)
      ensures vb.ready == Some(true)
    {
      var i :| 0 <= i < |Examined(out)| && Examined(out)[i] == vb;
      assert Examined(vbs)[i] in Examined(vbs);
    }
  }

  /** A backup is ready to use only if the last look at each of its volumes, up to the first one in error, found
      the snapshot ready; what it found is what the backup records. */
  lemma ReadyBySnapshots(history: seq<Backup>, log: seq<Writer>, j: nat, i: nat)
    requires Replays(history, log) && j < |history| && IsBackupMissingStatus(history[0]) && !IsBackupReady(history[0])
    requires IsBackupReady(history[j]) && i < |Examined(history[j].status.value.volumes)|
    ensures var vb, k := history[j].status.value.volumes[i], LastLook(log, j, i);
      k.Some? && log[k.value].seen[i].status.value.ready == Some(true) &&
      vb.created == log[k.value].seen[i].status.value.created && vb.error == log[k.value].seen[i].status.value.error
  {
    VersionsRecordLooks(history, log, j);
    ReadyVersionsExamined(history, log, j);
    var vbs := history[j].status.value.volumes;
    assert Examined(vbs)[i] in Examined(vbs) && Examined(vbs)[i] == vbs[i];
    assert Records(vbs[i], log, j, i);
  }

  /** When no look finds a snapshot both ready and in error, this holds for every volume, and none is in error. */
  lemma ReadyByAllSnapshots(history: seq<Backup>, log: seq<Writer>, j: nat, i: nat)
    requires Replays(history, log) && j < |history| && IsBackupMissingStatus(history[0]) && !IsBackupReady(history[0])
    requires forall w | w in log :: Honest(w)
    requires IsBackupReady(history[j]) && i < |history[j].status.value.volumes|
    ensures var k := LastLook(log, j, i);
      k.Some? && log[k.value].seen[i].status.value.ready == Some(true) &&
      log[k.value].seen[i].status.value.error.None?
  {
    var vbs := history[j].status.value.volumes;
    var e := FirstError(vbs);
    if e < |vbs| {
      ReadyBySnapshots(history, log, j, e);
      HonestLook(log, LastLook(log, j, e).value, e);
    }
    ReadyBySnapshots(history, log, j, i);
    HonestLook(log, LastLook(log, j, i).value, i);
  }

  lemma HonestLook(log: seq<Writer>, k: nat, i: nat)
    requires k < |log| && Looks(log[k], i) && forall w | w in log :: Honest(w)
    ensures log[k].seen[i].status.value.ready == Some(true) ==> log[k].seen[i].status.value.error.None?
  {
    assert Honest(log[k]) && log[k].seen[i] in log[k].seen;
  }

  /** The same of every run of overlapping calls, callbacks and edits on a new backup. */
  lemma ReadyOnlyBySnapshots(b: Backup, actions: seq<Action>, j: nat, i: nat)
    requires b.status.None? && HonestActions(actions) && j < |Run(Start(b), actions).history|
    requires var v := Run(Start(b), actions).history[j]; IsBackupReady(v) && i < |v.status.value.volumes|
    ensures var log := Run(Start(b), actions).log;
      j <= |log| &&
      exists k :: 0 <= k < j && Looks(log[k], i) && log[k].seen[i].status.value.ready == Some(true) &&
        log[k].seen[i].status.value.error.None? && forall m | k < m < j :: !Looks(log[m], i) && !Replaces(log[m])
  {
    ConcurrentWritersTakeTurns(b, actions);
    HonestLog(Start(b), actions);
    var s := Run(Start(b), actions);
    ReadyByAllSnapshots(s.history, s.log, j, i);
    assert Looks(s.log[LastLook(s.log, j, i).value], i);
  }

  // Source and secrets

  /** The last initialisation behind version j, unless an error reset followed. */
  function LastInit(log: seq<Writer>, j: nat): (k: Option<nat>)
    requires j <= |log|
    ensures k.Some? ==> k.value < j && log[k.value].Init? && forall m | k.value < m < j :: !Replaces(log[m])
    ensures k.None? ==> forall m | 0 <= m < j && log[m].Init? :: exists n :: m < n < j && log[n].ErrorReset?
  {
    if j == 0 || log[j - 1].ErrorReset? then None
    else if log[j - 1].Init? then Some(j - 1)
    else LastInit(log, j - 1)
  }

  /** The status holds the VM as the initialisation read it: all of it, the secrets it refers to, and for each of
      its claims a volume backup. */
  ghost predicate Holds(s: BackupStatus, backupName: string, w: Writer)
    requires w.Init?
  {
    && s.source == Some(VmSource(w.vm.name, w.vm.namespace, w.vm.annotations, w.vm.spec))
    && s.sourceUid == Some(w.vm.uid)
    && SecretBackups(SecretRefs(w.vm.spec), w.secretStore) == Ok(s.secrets)
    && Covers(s.volumes, w.vm.spec.volumes)
    && forall vb | vb in s.volumes :: IsOf(vb, backupName, w)
  }

  /** The volume backup is named after the claim of one of the VM's volumes and holds that claim as it was read. */
  ghost predicate IsOf(vb: VolumeBackup, backupName: string, w: Writer)
    requires w.Init?
  {
    exists v :: v in w.vm.spec.volumes && v.name == vb.volumeName && v.claim.Some? &&
      vb.name == Some(backupName + "-volume-" + v.claim.value) &&
      v.claim.value in w.storage.claims && vb.claim == w.storage.claims[v.claim.value]
  }

  ghost predicate HoldsLastInit(b: Backup, log: seq<Writer>, j: nat)
    requires j <= |log|
  {
    b.status.Some? && b.status.value.source.Some? ==>
      LastInit(log, j).Some? && Holds(b.status.value, b.name, log[LastInit(log, j).value])
  }

  /** Every stored version that has a source has it, in full, from the last initialisation, with that VM's
      secrets and claims. */
  lemma {:induction false} VersionsHoldTheirVm(history: seq<Backup>, log: seq<Writer>, j: nat)
    requires Replays(history, log) && j < |history|
    requires history[0].status.Some? ==> history[0].status.value.source.None?
    ensures history[j].name == history[0].name && HoldsLastInit(history[j], log, j)
  {
    if j > 0 {
      VersionsHoldTheirVm(history, log, j - 1);
      WriteHolds(history[j - 1], log, j - 1);
    }
  }

  lemma WriteHolds(b: Backup, log: seq<Writer>, j: nat)
    requires j < |log| && Enabled(log[j], b) && HoldsLastInit(b, log, j)
    ensures Apply(log[j], b).name == b.name && HoldsLastInit(Apply(log[j], b), log, j + 1)
  {
    var w := log[j];
    var out := Apply(w, b);
    if w.Init? {
      InitHolds(b, w);
    } else if out.status.Some? && out.status.value.source.Some? {
      OtherWriteKeepsIdentity(w, b);
      SameIdentityHolds(b.status.value, out.status.value, b.name, log[LastInit(log, j).value]);
    }
  }

  /** The statuses agree on source and secrets and, volume by volume, on name, volume name and claim. */
  ghost predicate SameIdentity(s: BackupStatus, t: BackupStatus) {
    && t.source == s.source && t.sourceUid == s.sourceUid && t.secrets == s.secrets && |t.volumes| == |s.volumes|
    && forall i | 0 <= i < |s.volumes| ::
      t.volumes[i].name == s.volumes[i].name && t.volumes[i].volumeName == s.volumes[i].volumeName &&
      t.volumes[i].claim == s.volumes[i].claim
  }

  lemma OtherWriteKeepsIdentity(w: Writer, b: Backup)
    requires Enabled(w, b) && !w.Init? && Apply(w, b).status.Some? && Apply(w, b).status.value.source.Some?
    ensures !w.ErrorReset? && b.status.Some? && SameIdentity(b.status.value, Apply(w, b).status.value)
  {
    if w.Snapshots? {
      RefreshRecords(b.status.value.volumes, w.seen);
    } else if w.Conclude? {
      ConcludedKeepsTheRest(b.status.value, w.now);
    }
  }

  lemma InitHolds(b: Backup, w: Writer)
    requires w.Init? && Enabled(w, b)
    ensures Holds(Apply(w, b).status.value, b.name, w)
  {
    var m := ClaimMap(w.vm.spec.volumes);
    InitRecords(b, w.vm, w.order, w.storage, w.secretStore, Success(w.names), Success(w.target));
    BackupsCoverVolumes(b.name, w.vm.spec.volumes, w.order, w.storage);
    ClaimMapKeys(w.vm.spec.volumes);
    forall vb | vb in Apply(w, b).status.value.volumes
      ensures IsOf(vb, b.name, w)
    {
      BackedUpVolume(b.name, m, w.order, w.storage, vb);
      var v :| v in w.vm.spec.volumes && v.name == vb.volumeName && v.claim == Some(m[vb.volumeName]);
    }
  }

  lemma SameIdentityHolds(s: BackupStatus, t: BackupStatus, backupName: string, w: Writer)
    requires w.Init? && Holds(s, backupName, w) && SameIdentity(s, t)
    ensures Holds(t, backupName, w)
  {
    SameVolumeNamesCover(s.volumes, t.volumes, s.source);
    forall vb | vb in t.volumes
      ensures IsOf(vb, backupName, w)
    {
      var i :| 0 <= i < |t.volumes| && t.volumes[i] == vb;
      assert IsOf(s.volumes[i], backupName, w);
    }
  }

  /** Over every run on a new backup: a version with a source holds, in full, the VM of the last initialisation,
      and that initialisation was enabled on the version it replaced. */
  lemma EveryVersionHoldsItsVm(b: Backup, actions: seq<Action>, j: nat) returns (k: nat)
    requires b.status.None? && j < |Run(Start(b), actions).history|
    requires var v := Run(Start(b), actions).history[j]; v.status.Some? && v.status.value.source.Some?
    ensures var s := Run(Start(b), actions);
      k < j <= |s.log| && s.log[k].Init? && (forall m | k < m < j ::
        !Replaces(s.log[m])) && Enabled(s.log[k], s.history[k]) &&
      Holds(s.history[j].status.value, b.name, s.log[k])
  {
    var s := Run(Start(b), actions);
    ConcurrentWritersTakeTurns(b, actions);
    VersionsHoldTheirVm(s.history, s.log, j);
    k := LastInit(s.log, j).value;
  }
}
