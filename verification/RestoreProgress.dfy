/** How uninterrupted passes bring a restore to completion, and what they leave behind. */
module RestoreProgress {
  import opened Outcomes
  import opened Conditions
  import opened Objects
  import opened Volumes
  import opened RestoreWriters
  import opened RestorePass

  // A pass against the write list of the overlapping machine

  /** Whatever a pass does to the stored restore is one of the writes that overlapping passes are made of. */
  lemma PassIsOneWrite(hex: Hex, safe: Joined, c: Cluster, env: Env) returns (w: Option<RestoreWriter>)
    ensures w.None? ==> PassOf(hex, safe, c, env).0.restore == c.restore
    ensures w.Some? ==> CanWrite(w.value, c.restore) && PassOf(hex, safe, c, env).0.restore == Wrote(w.value, c.restore)
  {
    var d := PassOf(hex, safe, c, env).0;
    if d.restore == c.restore {
      w := None;
    } else if c.restore.status.None? {
      w := Some(Initialize(env.now));
    } else if !BackupFound(c).Ok? {
      w := Some(Fail(BackupFound(c).message, env.now));
    } else if IsRestoreMissingVolumes(c.restore) {
      w := Some(if env.mount.Some? then Fail(env.mount.value, env.now) else ListVolumes(c.backup.value));
    } else {
      w := RestoringWrites(hex, safe, c, c.backup.value, env);
    }
  }

  lemma RestoringWrites(hex: Hex, safe: Joined, c: Cluster, b: Backup, env: Env) returns (w: Option<RestoreWriter>)
    requires Lists(c, 0) && Usable(b) && !c.restore.deleting && IsRestoreProgressing(c.restore) &&
      !IsRestoreMissingVolumes(c.restore)
    ensures w.None? ==> Restoring(hex, safe, c, b, env).0.restore == c.restore
    ensures w.Some? ==>
      CanWrite(w.value, c.restore) && Restoring(hex, safe, c, b, env).0.restore == Wrote(w.value, c.restore)
  {
    var (d, r) := ResourcesSeen(hex, safe, c, b, env.uid);
    w := None;
    if r.Err? {
      w := Some(Fail(r.message, env.now));
    } else if r.Ok? && c.restore.owner.None? {
      w := Some(SetOwner(OwnerRef(r.value.vm.name, r.value.vm.uid)));
    } else if r.Ok? {
      w := UpdateWrites(d, r.value, env);
    }
  }

  lemma UpdateWrites(c: Cluster, res: Resources, env: Env) returns (w: Option<RestoreWriter>)
    requires Lists(c, 0) && !c.restore.deleting && IsRestoreProgressing(c.restore) &&
      !IsRestoreMissingVolumes(c.restore) && c.restore.owner.Some?
    ensures w.Some? && CanWrite(w.value, c.restore) && StatusUpdated(c, res, env).0.restore == Wrote(w.value, c.restore)
  {
    if !res.bound {
      w := Some(WaitForClaims(env.now));
    } else if env.start.Some? {
      w := Some(Fail("failed to start vm, err:" + env.start.value, env.now));
    } else if !res.vm.ready {
      w := Some(RestoreWriter.WaitForVm(env.now));
    } else if KeepsOldVolumes(c.restore) || OldDeleted(c, c.restore.status.value.deletedVolumes).1 {
      w := Some(Complete(env.now));
    } else {
      w := Some(Fail("error cleaning up", env.now));
    }
  }

  /** Nothing is made from a backup that is missing, not ready, or without source: a pass then changes no more
      than the restore's own status, fails as soon as there is a status to report in, and completes nothing. */
  lemma NothingWithoutReadyBackup(hex: Hex, safe: Joined, c: Cluster, env: Env)
    requires c.backup.None? || !Usable(c.backup.value)
    ensures var (d, result) := PassOf(hex, safe, c, env);
      && d == c.(restore := c.restore.(status := d.restore.status), writes := d.writes)
      && (result.Err? <==> !c.restore.deleting && IsRestoreProgressing(c.restore) && c.restore.status.Some?)
      && (IsComplete(d.restore) ==> d == c)
  {
  }

  lemma ResourcesLeaveMarkedVm(hex: Hex, safe: Joined, c: Cluster, b: Backup, uid: string)
    requires Lists(c, 0) && Usable(b) && ResourcesSeen(hex, safe, c, b, uid).1.Ok?
    ensures var (d, r) := ResourcesSeen(hex, safe, c, b, uid);
      d.restore == c.restore && d.vm == Some(r.value.vm) && RestoredBy(d.restore, r.value.vm)
  {
    KeysDiffer();
  }

  /** The owner a pass gives a restore is the VM it leaves in the cluster, which carries the restore's mark; so
      is the target uid, unless an earlier one is recorded, which stays. */
  lemma OwnerIsTheMarkedVm(hex: Hex, safe: Joined, c: Cluster, env: Env)
    requires c.restore.owner.None?
    ensures var d := PassOf(hex, safe, c, env).0;
      d.restore.owner.Some? ==>
        && d.vm.Some? && d.restore.owner == Some(OwnerRef(d.vm.value.name, d.vm.value.uid)) &&
          RestoredBy(d.restore, d.vm.value)
        && c.restore.status.Some? && d.restore.status.Some?
        && d.restore.status.value.targetUid ==
             if c.restore.status.value.targetUid.Some? then c.restore.status.value.targetUid else Some(d.vm.value.uid)
  {
    if PassOf(hex, safe, c, env).0.restore.owner.Some? {
      var w := PassIsOneWrite(hex, safe, c, env);
      assert w.Some? && w.value.SetOwner?;
      ResourcesLeaveMarkedVm(hex, safe, c, c.backup.value, env.uid);
    }
  }

  // Crashes

  function CopyName(safe: Joined, r: Restore, vb: VolumeBackup): string
    requires vb.name.Some?
  {
    safe(["restore", r.name, vb.name.value])
  }

  function ContentName(safe: Joined, r: Restore, vb: VolumeBackup): string
    requires vb.name.Some?
  {
    safe(["restore", r.namespace, r.name, vb.name.value])
  }

  /** The entry's claim is missing, and either the backup has no volume at its position, or the volume's snapshot
      lies in another namespace, no copy of it or of its content is there, and its Longhorn backup is unknown. */
  predicate EntryCrashes(safe: Joined, c: Cluster, b: Backup, i: nat)
    requires Lists(c, i + 1) && b.status.Some?
  {
    var vbs := b.status.value.volumes;
    c.restore.status.value.volumes[i].claimName !in c.claims &&
    (i < |vbs| ==>
      && vbs[i].name.Some? && vbs[i].claim.namespace != c.restore.namespace && vbs[i].longhornBackup.None?
      && CopyName(safe, c.restore, vbs[i]) !in c.snapshots && ContentName(safe, c.restore, vbs[i]) !in c.contents)
  }

  /** The entry's claim is Lost, or cannot be made: its volume backup has no name, or the Longhorn backup that is
      needed does not exist. */
  predicate EntryFails(safe: Joined, c: Cluster, b: Backup, i: nat)
    requires Lists(c, i + 1) && b.status.Some?
  {
    var name, vbs := c.restore.status.value.volumes[i].claimName, b.status.value.volumes;
    if name in c.claims then c.claims[name].phase.Lost?
    else
      i < |vbs| &&
      (vbs[i].name.None? ||
       (vbs[i].claim.namespace != c.restore.namespace && vbs[i].longhornBackup.Some? &&
         vbs[i].longhornBackup.value !in c.longhorn &&
        CopyName(safe, c.restore, vbs[i]) !in c.snapshots && ContentName(safe, c.restore, vbs[i]) !in c.contents))
  }

  /** No two entries have one claim, and no two volume backups one name for their copies. */
  ghost predicate Distinct(safe: Joined, r: Restore, b: Backup)
    requires r.status.Some? && b.status.Some?
  {
    var vrs, vbs := r.status.value.volumes, b.status.value.volumes;
    && (forall i, j | 0 <= i < j < |vrs| :: vrs[i].claimName != vrs[j].claimName)
    && (forall i, j | 0 <= i < j < |vbs| && vbs[i].name.Some? && vbs[j].name.Some? ::
          CopyName(safe, r, vbs[i]) != CopyName(safe, r, vbs[j]) &&
            ContentName(safe, r, vbs[i]) != ContentName(safe, r, vbs[j]))
  }

  lemma EntryOutcome(safe: Joined, c: Cluster, b: Backup, i: nat, ready: bool)
    requires Lists(c, i + 1) && b.status.Some?
    ensures VolumeSeen(safe, c, b, i, ready).1.Panic? <==> EntryCrashes(safe, c, b, i)
    ensures VolumeSeen(safe, c, b, i, ready).1.Err? <==> EntryFails(safe, c, b, i)
  {
  }

  /** Entry i finds what it needs as it was. */
  predicate Untouched(safe: Joined, c: Cluster, d: Cluster, b: Backup, i: nat)
    requires Lists(c, i + 1) && b.status.Some?
  {
    var name, vbs := c.restore.status.value.volumes[i].claimName, b.status.value.volumes;
    && d.restore == c.restore && d.longhorn == c.longhorn
    && (name in d.claims <==> name in c.claims) && (name in c.claims ==> d.claims[name] == c.claims[name])
    && (i < |vbs| && vbs[i].name.Some? ==>
          && (CopyName(safe, c.restore, vbs[i]) in d.snapshots <==> CopyName(safe, c.restore, vbs[i]) in c.snapshots)
          && (ContentName(safe, c.restore, vbs[i]) in d.contents <==>
            ContentName(safe, c.restore, vbs[i]) in c.contents))
  }

  lemma OtherEntryTouchesNothing(safe: Joined, c: Cluster, b: Backup, k: nat, i: nat, ready: bool)
    requires k < i && Lists(c, i + 1) && b.status.Some? && Distinct(safe, c.restore, b)
    ensures Untouched(safe, c, VolumeSeen(safe, c, b, k, ready).0, b, i)
  {
  }

  lemma {:induction false} EarlierEntriesTouchNothing(safe: Joined, c: Cluster, b: Backup, k: nat, i: nat)
    requires k <= i && Lists(c, i + 1) && b.status.Some? && Distinct(safe, c.restore, b)
    ensures Untouched(safe, c, VolumesSeen(safe, c, b, k).0, b, i)
  {
    if k > 0 {
      EarlierEntriesTouchNothing(safe, c, b, k - 1, i);
      var (d, ready) := VolumesSeen(safe, c, b, k - 1);
      if ready.Ok? {
        OtherEntryTouchesNothing(safe, d, b, k - 1, i, ready.value);
      }
    }
  }

  ghost predicate NoneStops(safe: Joined, c: Cluster, b: Backup, n: nat)
    requires Lists(c, n) && b.status.Some?
  {
    forall j | 0 <= j < n :: !EntryCrashes(safe, c, b, j) && !EntryFails(safe, c, b, j)
  }

  /** The first entry that does not go through decides. */
  ghost predicate FirstCrash(safe: Joined, c: Cluster, b: Backup, n: nat)
    requires Lists(c, n) && b.status.Some?
  {
    exists i :: 0 <= i < n && EntryCrashes(safe, c, b, i) && NoneStops(safe, c, b, i)
  }

  ghost predicate CrashesAsSaid(safe: Joined, c: Cluster, b: Backup, n: nat, outcome: Outcome<bool>)
    requires Lists(c, n) && b.status.Some?
  {
    (outcome.Ok? <==> NoneStops(safe, c, b, n)) && (outcome.Panic? <==> FirstCrash(safe, c, b, n))
  }

  lemma {:induction false} VolumesCrashExactly(safe: Joined, c: Cluster, b: Backup, n: nat)
    requires Lists(c, n) && b.status.Some? && Distinct(safe, c.restore, b)
    ensures CrashesAsSaid(safe, c, b, n, VolumesSeen(safe, c, b, n).1)
  {
    if n > 0 {
      VolumesCrashExactly(safe, c, b, n - 1);
      if VolumesSeen(safe, c, b, n - 1).1.Ok? {
        NextEntry(safe, c, b, n - 1);
      } else {
        VolumesStop(safe, c, b, n - 1, n);
      }
      CrashesOneMore(safe, c, b, n - 1, VolumesSeen(safe, c, b, n - 1).1, VolumesSeen(safe, c, b, n).1);
    }
  }

  lemma CrashesOneMore(safe: Joined, c: Cluster, b: Backup, i: nat, before: Outcome<bool>, after: Outcome<bool>)
    requires Lists(c, i + 1) && b.status.Some? && CrashesAsSaid(safe, c, b, i, before)
    requires before.Ok? ==>
      (after.Panic? <==> EntryCrashes(safe, c, b, i)) && (after.Err? <==> EntryFails(safe, c, b, i))
    requires !before.Ok? ==> after == before
    ensures CrashesAsSaid(safe, c, b, i + 1, after)
  {
    OneMoreEntry(safe, c, b, i);
  }

  lemma OneMoreEntry(safe: Joined, c: Cluster, b: Backup, n: nat)
    requires Lists(c, n + 1) && b.status.Some?
    ensures NoneStops(safe, c, b, n + 1) <==>
      NoneStops(safe, c, b, n) && !EntryCrashes(safe, c, b, n) && !EntryFails(safe, c, b, n)
    ensures FirstCrash(safe, c, b, n + 1) <==>
      FirstCrash(safe, c, b, n) || (NoneStops(safe, c, b, n) && EntryCrashes(safe, c, b, n))
    ensures FirstCrash(safe, c, b, n) ==> !NoneStops(safe, c, b, n)
  {
  }

  lemma NextEntry(safe: Joined, c: Cluster, b: Backup, i: nat)
    requires Lists(c, i + 1) && b.status.Some? && Distinct(safe, c.restore, b) && VolumesSeen(safe, c, b, i).1.Ok?
    ensures VolumesSeen(safe, c, b, i + 1).1.Panic? <==> EntryCrashes(safe, c, b, i)
    ensures VolumesSeen(safe, c, b, i + 1).1.Err? <==> EntryFails(safe, c, b, i)
  {
    EarlierEntriesTouchNothing(safe, c, b, i, i);
    var (d, ready) := VolumesSeen(safe, c, b, i);
    SameLook(safe, c, d, b, i);
    EntryOutcome(safe, d, b, i, ready.value);
    VolumesStep(safe, c, b, i);
  }

  lemma SameLook(safe: Joined, c: Cluster, d: Cluster, b: Backup, i: nat)
    requires Lists(c, i + 1) && b.status.Some? && Untouched(safe, c, d, b, i)
    ensures EntryCrashes(safe, d, b, i) <==> EntryCrashes(safe, c, b, i)
    ensures EntryFails(safe, d, b, i) <==> EntryFails(safe, c, b, i)
  {
  }

  /** When an undisturbed pass crashes: only while it looks at the volumes of a listed restore, at an entry that
      crashes behind entries that go through. */
  lemma PassCrashesExactly(hex: Hex, safe: Joined, c: Cluster, env: Env)
    requires c.restore.status.Some? && BackupFound(c).Ok? ==> Distinct(safe, c.restore, c.backup.value)
    ensures PassOf(hex, safe, c, env).1.Panic? <==>
      && !c.restore.deleting && IsRestoreProgressing(c.restore) && c.restore.status.Some? && BackupFound(c).Ok?
      && !IsRestoreMissingVolumes(c.restore) && FirstCrash(safe, c, c.backup.value, |c.restore.status.value.volumes|)
  {
    if !c.restore.deleting && IsRestoreProgressing(c.restore) && c.restore.status.Some? && BackupFound(c).Ok? {
      var b := c.backup.value;
      if IsRestoreMissingVolumes(c.restore) {
        RestoresNeverPanic(c.restore, c.restore.status.value.volumes, b.status.value.volumes);
      } else {
        VolumesCrashExactly(safe, c, b, |c.restore.status.value.volumes|);
      }
    }
  }

  lemma {:induction false} RestoresNeverPanic(r: Restore, existing: seq<VolumeRestore>, vbs: seq<VolumeBackup>)
    ensures !VolumeRestores(r, existing, vbs).Panic?
  {
    if vbs != [] {
      RestoresNeverPanic(r, existing, vbs[..|vbs| - 1]);
    }
  }

  // Deleting old claims

  predicate Deletable(claims: map<string, Claim>, names: seq<string>) {
    forall i | 0 <= i < |names| :: names[i] in claims && (names[i] in names[..i] ==> claims[names[i]].mounted)
  }

  function Remaining(claims: map<string, Claim>, names: seq<string>): map<string, Claim> {
    map n | n in claims && (n in names ==> claims[n].mounted) :: claims[n]
  }

  lemma DeletableLast(claims: map<string, Claim>, front: seq<string>, last: string)
    ensures Deletable(claims, front + [last]) <==>
      Deletable(claims, front) && last in claims && (last in front ==> claims[last].mounted)
  {
    var names := front + [last];
    assert names[..|front|] == front && names[|front|] == last;
    assert forall i | 0 <= i < |front| :: names[i] == front[i] && names[..i] == front[..i];
  }

  /** The clean-up goes through exactly when every old claim exists and none that its first deletion removes
      is listed twice; then it removes the listed claims that are not mounted, and no other. */
  lemma {:induction false} OldDeletedExactly(c: Cluster, names: seq<string>)
    ensures OldDeleted(c, names).1 <==> Deletable(c.claims, names)
    ensures OldDeleted(c, names).1 ==> OldDeleted(c, names).0.claims == Remaining(c.claims, names)
  {
    if names == [] {
    } else {
      var front, last := names[..|names| - 1], names[|names| - 1];
      OldDeletedExactly(c, front);
      DeletableLast(c.claims, front, last);
      assert names == front + [last];
      if Deletable(c.claims, names) {
        RemainingLast(c.claims, front, last);
      }
    }
  }

  lemma RemainingLast(claims: map<string, Claim>, front: seq<string>, last: string)
    requires last in claims
    ensures Remaining(claims, front + [last]) == if claims[last].mounted then Remaining(claims, front)
      else Remaining(claims, front) - {last}
  {
  }

  /** A restore is completed exactly by a pass that finds all claims Bound, gets the VM started and Ready, and
      can delete the old claims unless they are kept. */
  lemma CompletesExactly(c: Cluster, res: Resources, env: Env)
    requires Lists(c, 0) && IsRestoreProgressing(c.restore)
    ensures IsComplete(StatusUpdated(c, res, env).0.restore) <==>
      res.bound && env.start.None? && res.vm.ready &&
        (KeepsOldVolumes(c.restore) || Deletable(c.claims, c.restore.status.value.deletedVolumes))
  {
    OldDeletedExactly(c, c.restore.status.value.deletedVolumes);
  }

  lemma {:induction false} DeletionTakesListed(c: Cluster, names: seq<string>)
    ensures forall n | n in c.claims && (n !in names || c.claims[n].mounted) ::
      n in OldDeleted(c, names).0.claims && OldDeleted(c, names).0.claims[n] == c.claims[n]
  {
    if names != [] {
      var front := names[..|names| - 1];
      DeletionTakesListed(c, front);
      assert names == front + [names[|names| - 1]];
    }
  }

  predicate ClaimStays(c: Cluster, d: Cluster, name: string)
    requires name in c.claims
  {
    name in d.claims && d.claims[name] == c.claims[name]
  }

  /** The claim is none of those that may be deleted, or would outlive it. */
  predicate Spared(c: Cluster, name: string)
    requires name in c.claims
  {
    c.restore.status.Some? ==>
      KeepsOldVolumes(c.restore) || name !in c.restore.status.value.deletedVolumes || c.claims[name].mounted
  }

  /** A pass removes no claim but those listed for deletion that are not mounted, and none at all while old volumes
      are kept. */
  lemma OnlyListedClaimsGo(hex: Hex, safe: Joined, c: Cluster, env: Env, name: string)
    requires name in c.claims && Spared(c, name)
    ensures var d := PassOf(hex, safe, c, env).0; name in d.claims && d.claims[name] == c.claims[name]
  {
    if !c.restore.deleting && IsRestoreProgressing(c.restore) && c.restore.status.Some? && BackupFound(c).Ok? {
      if !IsRestoreMissingVolumes(c.restore) {
        RestoringSpares(hex, safe, c, c.backup.value, env, name);
      }
    }
  }

  lemma RestoringSpares(hex: Hex, safe: Joined, c: Cluster, b: Backup, env: Env, name: string)
    requires Lists(c, 0) && Usable(b) && name in c.claims && Spared(c, name)
    ensures ClaimStays(c, Restoring(hex, safe, c, b, env).0, name)
  {
    SeeingKeepsClaim(safe, c, b, |c.restore.status.value.volumes|, name);
    ResourcesAddOnly(hex, safe, c, b, env.uid);
    var (d, r) := ResourcesSeen(hex, safe, c, b, env.uid);
    if r.Ok? && c.restore.owner.Some? {
      UpdateSpares(d, r.value, env, name);
    }
  }

  lemma ResourcesAddOnly(hex: Hex, safe: Joined, c: Cluster, b: Backup, uid: string)
    requires Lists(c, 0) && Usable(b)
    ensures ResourcesSeen(hex, safe, c, b, uid).0.restore == c.restore
    ensures ResourcesSeen(hex, safe, c, b, uid).0.claims ==
      VolumesSeen(safe, c, b, |c.restore.status.value.volumes|).0.claims
  {
  }

  lemma UpdateSpares(c: Cluster, res: Resources, env: Env, name: string)
    requires Lists(c, 0) && name in c.claims && Spared(c, name)
    ensures ClaimStays(c, StatusUpdated(c, res, env).0, name)
  {
    DeletionTakesListed(c, c.restore.status.value.deletedVolumes);
  }

  lemma {:induction false} SeeingKeepsClaim(safe: Joined, c: Cluster, b: Backup, n: nat, name: string)
    requires Lists(c, n) && b.status.Some? && name in c.claims
    ensures ClaimStays(c, VolumesSeen(safe, c, b, n).0, name)
  {
    if n > 0 {
      SeeingKeepsClaim(safe, c, b, n - 1, name);
    }
  }

  /** None of the claims the backup was made from is left, unless something still mounts it. */
  predicate OldClaimsGone(d: Cluster, vbs: seq<VolumeBackup>) {
    forall vb | vb in vbs && vb.claim.name in d.claims :: d.claims[vb.claim.name].mounted
  }

  /** A pass that completes a restore into the same VM, whose old claims are listed, leaves none of the claims the
      backup was made from, unless something still mounts it. */
  lemma CompletionClearsOldClaims(hex: Hex, safe: Joined, c: Cluster, env: Env, vbs: seq<VolumeBackup>)
    requires c.restore.status.Some? && IsRestoreProgressing(c.restore)
    requires !c.restore.spec.newVm && !c.restore.spec.retain
    requires c.restore.status.value.deletedVolumes == [] || ListsOldClaims(c.restore.status.value, vbs)
    ensures var d := PassOf(hex, safe, c, env).0;
      IsComplete(d.restore) ==> forall vb | vb in vbs && vb.claim.name in d.claims :: d.claims[vb.claim.name].mounted
  {
    if !c.restore.deleting && BackupFound(c).Ok? {
      if !IsRestoreMissingVolumes(c.restore) {
        RestoringClears(hex, safe, c, c.backup.value, env, vbs);
      }
    }
  }

  lemma RestoringClears(hex: Hex, safe: Joined, c: Cluster, b: Backup, env: Env, vbs: seq<VolumeBackup>)
    requires Lists(c, 0) && Usable(b) && IsRestoreProgressing(c.restore) && !KeepsOldVolumes(c.restore)
    requires ListsOldClaims(c.restore.status.value, vbs)
    ensures var d := Restoring(hex, safe, c, b, env).0; IsComplete(d.restore) ==> OldClaimsGone(d, vbs)
  {
    var (d, r) := ResourcesSeen(hex, safe, c, b, env.uid);
    ResourcesAddOnly(hex, safe, c, b, env.uid);
    if r.Ok? && c.restore.owner.Some? {
      UpdateClears(d, r.value, env, vbs);
    }
  }

  lemma UpdateClears(c: Cluster, res: Resources, env: Env, vbs: seq<VolumeBackup>)
    requires Lists(c, 0) && IsRestoreProgressing(c.restore) && !KeepsOldVolumes(c.restore)
    requires ListsOldClaims(c.restore.status.value, vbs)
    ensures var d := StatusUpdated(c, res, env).0; IsComplete(d.restore) ==> OldClaimsGone(d, vbs)
  {
    var names := c.restore.status.value.deletedVolumes;
    OldDeletedExactly(c, names);
    forall vb | vb in vbs
      ensures vb.claim.name in names
    {
      var i :| 0 <= i < |vbs| && vbs[i] == vb;
      assert names[i] == vb.claim.name;
    }
  }

  // Reports

  /** Completion says so, and when; an error is reported, and does not complete. */
  predicate ReportsOutcome(r: Restore, out: Restore, result: Outcome<bool>, now: nat) {
    && (IsComplete(out) ==>
          && out.status.value.restored == Some(now)
          && Says(out.status.value.conditions, InProgress, False, "", "Operation complete")
          && Says(out.status.value.conditions, Ready, True, "", "Operation complete"))
    && (result.Err? ==>
          r.status.Some? && !IsComplete(out) &&
          OnlyReports(r, out, False, False, "Error", result.message, result.message))
  }

  lemma FailedReports(c: Cluster, message: string, now: nat)
    requires Lists(c, 0) && IsRestoreProgressing(c.restore)
    ensures var (d, result) := Failed(c, message, now); ReportsOutcome(c.restore, d.restore, result, now)
  {
    ReportSays(c.restore.status.value.conditions, NewProgressing(False, "Error", message, now),
      NewReady(False, "Error", message, now));
  }

  lemma UpdateReports(c: Cluster, res: Resources, env: Env)
    requires Lists(c, 0) && IsRestoreProgressing(c.restore)
    ensures var (d, result) := StatusUpdated(c, res, env); ReportsOutcome(c.restore, d.restore, result, env.now)
  {
    if res.bound && env.start.Some? {
      FailedReports(c, "failed to start vm, err:" + env.start.value, env.now);
    } else if res.bound && res.vm.ready {
      var (d, ok) := if KeepsOldVolumes(c.restore) then (c, true) else OldDeleted(c,
        c.restore.status.value.deletedVolumes);
      if ok {
        ReportSays(c.restore.status.value.conditions, NewProgressing(False, "", "Operation complete", env.now),
          NewReady(True, "", "Operation complete", env.now));
      } else {
        FailedReports(d, "error cleaning up", env.now);
      }
    }
  }

  lemma WrittenReports(c: Cluster, progressing: Condition, ready: Condition)
    requires Lists(c, 0) && progressing.kind == InProgress && ready.kind == Ready && progressing.reason == ready.reason
    ensures var s := c.restore.status.value;
      var d := StatusWritten(c, s.(conditions := Report(s.conditions, progressing, ready)));
      OnlyReports(c.restore, d.restore, progressing.status, ready.status, ready.reason, progressing.message,
        ready.message)
  {
    ReportSays(c.restore.status.value.conditions, progressing, ready);
  }

  /** While claims are not all Bound, and then while the VM is not Ready, the pass says what it waits for. */
  lemma WaitingReports(c: Cluster, res: Resources, env: Env)
    requires Lists(c, 0) && env.start.None? && !(res.bound && res.vm.ready)
    ensures var (d, result) := StatusUpdated(c, res, env);
      && result.Ok?
      && if res.bound
        then OnlyReports(c.restore, d.restore, False, False, "", "Waiting for target vm to be ready",
          "Waiting for target vm to be ready")
        else OnlyReports(c.restore, d.restore, True, False, "", "Creating new PVCs", "Waiting for new PVCs")
  {
    if res.bound {
      var message := "Waiting for target vm to be ready";
      WrittenReports(c, NewProgressing(False, "", message, env.now), NewReady(False, "", message, env.now));
    } else {
      WrittenReports(c, NewProgressing(True, "", "Creating new PVCs", env.now),
        NewReady(False, "", "Waiting for new PVCs", env.now));
    }
  }

  lemma RestoringReports(hex: Hex, safe: Joined, c: Cluster, b: Backup, env: Env)
    requires Lists(c, 0) && Usable(b) && IsRestoreProgressing(c.restore)
    ensures var (d, result) := Restoring(hex, safe, c, b, env); ReportsOutcome(c.restore, d.restore, result, env.now)
  {
    var (d, r) := ResourcesSeen(hex, safe, c, b, env.uid);
    if r.Err? {
      FailedReports(d, r.message, env.now);
    } else if r.Ok? && c.restore.owner.Some? {
      UpdateReports(d, r.value, env);
    }
  }

  /** A pass reports its completion and its errors, except that a volume backup without name keeps it from listing
      the volumes without a word. */
  lemma PassReports(hex: Hex, safe: Joined, c: Cluster, env: Env)
    requires IsRestoreProgressing(c.restore)
    ensures var (d, result) := PassOf(hex, safe, c, env);
      if result.Err? && IsRestoreMissingVolumes(c.restore) && BackupFound(c).Ok? && env.mount.None? then d == c
      else ReportsOutcome(c.restore, d.restore, result, env.now)
  {
    if !c.restore.deleting && c.restore.status.Some? {
      if BackupFound(c).Err? {
        FailedReports(c, BackupFound(c).message, env.now);
      } else if !IsRestoreMissingVolumes(c.restore) {
        RestoringReports(hex, safe, c, c.backup.value, env);
      } else if env.mount.Some? {
        FailedReports(c, env.mount.value, env.now);
      }
    }
  }

  /** Once all claims are Bound the pass fails exactly if the VM cannot be started, or is Ready and the old claims,
      unless they are kept, cannot all be deleted; before that, and while the VM is not Ready, it only waits. */
  lemma FailsExactly(c: Cluster, res: Resources, env: Env)
    requires Lists(c, 0)
    ensures !StatusUpdated(c, res, env).1.Panic?
    ensures StatusUpdated(c, res, env).1.Err? <==>
      res.bound &&
      (env.start.Some? ||
       (res.vm.ready && !KeepsOldVolumes(c.restore) && !Deletable(c.claims, c.restore.status.value.deletedVolumes)))
  {
    OldDeletedExactly(c, c.restore.status.value.deletedVolumes);
  }

  /** When the clean-up went through but completion was not stored, a later pass cannot repeat the clean-up:
      the restore stays incomplete as long as a removed claim is missing. */
  lemma CleanupIsNotRepeatable(c: Cluster, d: Cluster, name: string, res: Resources, env: Env)
    requires Lists(c, 0) && IsRestoreProgressing(c.restore) && !KeepsOldVolumes(c.restore)
    requires OldDeleted(c, c.restore.status.value.deletedVolumes).1
    requires name in c.restore.status.value.deletedVolumes && name in c.claims && !c.claims[name].mounted
    requires d.restore == c.restore && d.claims == OldDeleted(c, c.restore.status.value.deletedVolumes).0.claims
    ensures !IsComplete(StatusUpdated(d, res, env).0.restore)
  {
    var names := c.restore.status.value.deletedVolumes;
    OldDeletedExactly(c, names);
    CompletesExactly(d, res, env);
    var i :| 0 <= i < |names| && names[i] == name;
    assert names[i] !in d.claims;
  }

  // Progress

  /** Passes left, not counting those that only wait. */
  function Rank(r: Restore): nat {
    if !IsRestoreProgressing(r) then 0
    else if r.status.None? then 4
    else if IsRestoreMissingVolumes(r) then 3
    else if r.owner.None? then 2
    else 1
  }

  /** Everything a restore relies on: its backup ready and paired with it, volume by volume; snapshots within
      reach; no claim lost; and, unless old volumes are kept, old claims that can be deleted. */
  ghost predicate Healthy(c: Cluster) {
    && !c.restore.deleting && BackupFound(c).Ok?
    && var vbs := c.backup.value.status.value.volumes;
    && vbs != [] && (forall vb | vb in vbs :: vb.name.Some? && Reachable(c, vb))
    && (c.restore.status.Some? && c.restore.status.value.volumes != [] ==>
      Paired(c.restore, c.restore.status.value.volumes, vbs))
    && (c.restore.status.Some? && c.restore.status.value.deletedVolumes != [] ==>
      c.restore.status.value.deletedVolumes == OldClaims(vbs))
    && NoneLost(c.claims)
    && (!KeepsOldVolumes(c.restore) ==> Deletable(c.claims, OldClaims(vbs)))
  }

  predicate Reachable(c: Cluster, vb: VolumeBackup) {
    vb.claim.namespace == c.restore.namespace || (vb.longhornBackup.Some? && vb.longhornBackup.value in c.longhorn)
  }

  predicate NoneLost(claims: map<string, Claim>) {
    forall n | n in claims :: !claims[n].phase.Lost?
  }

  predicate NoErrors(env: Env) {
    env.mount.None? && env.start.None?
  }

  predicate AllBound(c: Cluster, n: nat)
    requires Lists(c, n)
  {
    forall i | 0 <= i < n ::
      var name := c.restore.status.value.volumes[i].claimName; name in c.claims && c.claims[name].phase.Bound?
  }

  /** The pass will find a claim not yet Bound or a VM not yet Ready. */
  predicate Waits(c: Cluster) {
    Rank(c.restore) == 1 &&
    !(AllBound(c, |c.restore.status.value.volumes|) && c.vm.Some? && c.vm.value.ready)
  }

  /** Claims are only added, and those added are Pending. */
  predicate OnlyAdds(before: map<string, Claim>, after: map<string, Claim>) {
    forall n | n in after :: if n in before then after[n] == before[n] else after[n].phase.Pending?
  }

  lemma HealthyVolume(safe: Joined, c: Cluster, b: Backup, i: nat, ready: bool)
    requires Lists(c, i + 1) && b.status.Some? && i < |b.status.value.volumes|
    requires b.status.value.volumes[i].name.Some? && Reachable(c, b.status.value.volumes[i])
    requires NoneLost(c.claims)
    ensures var (d, now) := VolumeSeen(safe, c, b, i, ready);
      var name := c.restore.status.value.volumes[i].claimName;
      now.Ok? && (now.value <==> ready && name in c.claims && c.claims[name].phase.Bound?) &&
      Added(c, d) && d.claims.Keys == c.claims.Keys + {name}
  {
  }

  ghost predicate Added(c: Cluster, d: Cluster) {
    c.claims.Keys <= d.claims.Keys && OnlyAdds(c.claims, d.claims) && NoneLost(d.claims) &&
      c.longhorn == d.longhorn && c.restore == d.restore
  }

  /** The first n volumes were seen without an error, and only claims added on the way. */
  ghost predicate WentWell(c: Cluster, n: nat, seen: (Cluster, Outcome<bool>))
    requires Lists(c, n)
  {
    seen.1.Ok? && (seen.1.value <==> AllBound(c, n)) && Added(c, seen.0)
  }

  lemma OneMoreWentWell(safe: Joined, c: Cluster, b: Backup, i: nat, seen: (Cluster, Outcome<bool>))
    requires Lists(c, i + 1) && b.status.Some? && i < |b.status.value.volumes| && WentWell(c, i, seen)
    requires b.status.value.volumes[i].name.Some? && Reachable(c, b.status.value.volumes[i])
    ensures WentWell(c, i + 1, VolumeSeen(safe, seen.0, b, i, seen.1.value))
  {
    HealthyVolume(safe, seen.0, b, i, seen.1.value);
    AddedTwice(c, seen.0, VolumeSeen(safe, seen.0, b, i, seen.1.value).0);
    BoundAsBefore(c, seen.0, c.restore.status.value.volumes[i].claimName);
  }

  lemma {:induction false} HealthyVolumes(safe: Joined, c: Cluster, b: Backup, n: nat)
    requires Lists(c, n) && b.status.Some? && |c.restore.status.value.volumes| == |b.status.value.volumes|
    requires forall vb | vb in b.status.value.volumes :: vb.name.Some? && Reachable(c, vb)
    requires NoneLost(c.claims)
    ensures WentWell(c, n, VolumesSeen(safe, c, b, n))
  {
    if n > 0 {
      HealthyVolumes(safe, c, b, n - 1);
      assert b.status.value.volumes[n - 1] in b.status.value.volumes;
      OneMoreWentWell(safe, c, b, n - 1, VolumesSeen(safe, c, b, n - 1));
      VolumesStep(safe, c, b, n - 1);
    }
  }

  lemma BoundAsBefore(c: Cluster, d: Cluster, name: string)
    requires Added(c, d)
    ensures name in d.claims && d.claims[name].phase.Bound? <==> name in c.claims && c.claims[name].phase.Bound?
  {
    assert name in c.claims.Keys ==> name in d.claims.Keys;
  }

  lemma AddedTwice(c: Cluster, d: Cluster, e: Cluster)
    requires Added(c, d) && Added(d, e)
    ensures Added(c, e)
  {
    forall n | n in e.claims
      ensures if n in c.claims then e.claims[n] == c.claims[n] else e.claims[n].phase.Pending?
    {
      assert n in d.claims ==> e.claims[n] == d.claims[n];
      assert n in c.claims.Keys ==> n in d.claims.Keys;
    }
  }

  lemma AddingKeepsDeletable(before: map<string, Claim>, after: map<string, Claim>, names: seq<string>)
    requires before.Keys <= after.Keys && OnlyAdds(before, after) && Deletable(before, names)
    ensures Deletable(after, names)
  {
    forall i | 0 <= i < |names|
      ensures names[i] in after && (names[i] in names[..i] ==> after[names[i]].mounted)
    {
      assert names[i] in before.Keys && names[i] in after.Keys;
    }
  }

  /** Without API errors a pass over an incomplete restore succeeds, and brings it closer to completion exactly
      when it is not waiting. */
  lemma PassProgresses(hex: Hex, safe: Joined, c: Cluster, env: Env)
    requires Healthy(c) && IsRestoreProgressing(c.restore) && NoErrors(env)
    ensures var (d, result) := PassOf(hex, safe, c, env);
      && result.Ok?
      && (Waits(c) ==> Rank(d.restore) == Rank(c.restore))
      && (!Waits(c) ==> Rank(d.restore) < Rank(c.restore))
      && (IsRestoreProgressing(d.restore) ==> Healthy(d))
  {
    if c.restore.status.None? {
    } else if IsRestoreMissingVolumes(c.restore) {
      ListingProgresses(c, c.backup.value, env);
    } else {
      RestoringProgresses(hex, safe, c, c.backup.value, env);
    }
  }

  lemma ListingProgresses(c: Cluster, b: Backup, env: Env)
    requires Healthy(c) && IsRestoreProgressing(c.restore) && NoErrors(env) && c.restore.status.Some? &&
      IsRestoreMissingVolumes(c.restore)
    requires c.backup == Some(b)
    ensures var (d, result) := VolumesListed(c, b, env);
      result.Ok? && Rank(d.restore) < 3 && Healthy(d) && IsRestoreProgressing(d.restore)
  {
    var vbs := b.status.value.volumes;
    VolumeRestoresPair(c.restore, vbs);
    assert |OldClaims(vbs)| == |vbs|;
  }

  lemma HealthyResources(hex: Hex, safe: Joined, c: Cluster, b: Backup, uid: string)
    requires Healthy(c) && c.restore.status.Some? && c.restore.status.value.volumes != [] && c.backup == Some(b)
    ensures var (d, r) := ResourcesSeen(hex, safe, c, b, uid);
      && r.Ok? && (r.value.bound <==> AllBound(c, |c.restore.status.value.volumes|))
      && (r.value.vm.ready <==> c.vm.Some? && c.vm.value.ready)
      && Added(c, d) && d.backup == c.backup
  {
    HealthyVolumes(safe, c, b, |c.restore.status.value.volumes|);
  }

  lemma AddedKeepsHealthy(c: Cluster, d: Cluster)
    requires Healthy(c) && Added(c, d) && d.backup == c.backup
    ensures Healthy(d)
  {
    var vbs := c.backup.value.status.value.volumes;
    if !KeepsOldVolumes(c.restore) {
      AddingKeepsDeletable(c.claims, d.claims, OldClaims(vbs));
    }
    assert forall vb :: Reachable(c, vb) == Reachable(d, vb);
  }

  lemma StatusChangeKeepsHealthy(c: Cluster, r: Restore, writes: nat)
    requires Healthy(c) && SameRestore(c.restore, r) && !r.deleting && c.restore.status.Some? && r.status.Some?
    requires r.status.value.volumes == c.restore.status.value.volumes &&
      r.status.value.deletedVolumes == c.restore.status.value.deletedVolumes
    ensures Healthy(c.(restore := r, writes := writes))
  {
    var d := c.(restore := r, writes := writes);
    assert forall vb :: Reachable(c, vb) == Reachable(d, vb);
    assert forall name :: RestoredClaimName(c.restore, name) == RestoredClaimName(r, name);
  }

  lemma UpdatingProgresses(c: Cluster, res: Resources, env: Env)
    requires Healthy(c) && NoErrors(env) && Rank(c.restore) == 1
    ensures var (d, result) := StatusUpdated(c, res, env);
      && result.Ok?
      && (res.bound && res.vm.ready ==> Rank(d.restore) == 0)
      && (!(res.bound && res.vm.ready) ==> Rank(d.restore) == 1 && Healthy(d))
  {
    var s := c.restore.status.value;
    if !res.bound {
      StatusChangeKeepsHealthy(c, c.restore.(status := Some(WaitingForClaims(s, env.now))), c.writes + 1);
    } else if !res.vm.ready {
      StatusChangeKeepsHealthy(c, c.restore.(status := Some(RestoreWriters.WaitingForVm(s, env.now))), c.writes + 1);
    } else if !KeepsOldVolumes(c.restore) {
      OldDeletedExactly(c, s.deletedVolumes);
    }
  }

  lemma RestoringProgresses(hex: Hex, safe: Joined, c: Cluster, b: Backup, env: Env)
    requires Healthy(c) && IsRestoreProgressing(c.restore) && NoErrors(env) && c.restore.status.Some? &&
      !IsRestoreMissingVolumes(c.restore)
    requires c.backup == Some(b)
    ensures var (d, result) := Restoring(hex, safe, c, b, env);
      && result.Ok?
      && (Waits(c) ==> Rank(d.restore) == 1)
      && (!Waits(c) ==> Rank(d.restore) < Rank(c.restore))
      && (IsRestoreProgressing(d.restore) ==> Healthy(d))
  {
    HealthyResources(hex, safe, c, b, env.uid);
    var (d, r) := ResourcesSeen(hex, safe, c, b, env.uid);
    AddedKeepsHealthy(c, d);
    if c.restore.owner.None? {
      StatusChangeKeepsHealthy(d, OwnerSet(d, r.value.vm).restore, d.writes + 1);
    } else {
      UpdatingProgresses(d, r.value, env);
    }
  }

  /** One pass, and anything the surroundings do before the next that leaves the restore to the passes. */
  ghost predicate PassTo(hex: Hex, safe: Joined, c: Cluster, env: Env, d: Cluster) {
    (IsRestoreProgressing(c.restore) ==>
      Healthy(c)) && NoErrors(env) && d.restore == PassOf(hex, safe, c, env).0.restore
  }

  ghost predicate Passes(hex: Hex, safe: Joined, cs: seq<Cluster>, envs: seq<Env>) {
    |cs| == |envs| + 1 && forall i | 0 <= i < |envs| :: PassTo(hex, safe, cs[i], envs[i], cs[i + 1])
  }

  function NonWaiting(cs: seq<Cluster>): nat {
    if cs == [] then 0 else NonWaiting(cs[..|cs| - 1]) + if Waits(cs[|cs| - 1]) then 0 else 1
  }

  lemma PassLowersRank(hex: Hex, safe: Joined, c: Cluster, env: Env, d: Cluster)
    requires PassTo(hex, safe, c, env, d)
    ensures Rank(d.restore) == 0 || Rank(d.restore) + (if Waits(c) then 0 else 1) <= Rank(c.restore)
  {
    if IsRestoreProgressing(c.restore) {
      PassProgresses(hex, safe, c, env);
    }
  }

  lemma {:induction false} PassesLowerRank(hex: Hex, safe: Joined, cs: seq<Cluster>, envs: seq<Env>)
    requires Passes(hex, safe, cs, envs)
    ensures Rank(cs[|envs|].restore) == 0 || Rank(cs[|envs|].restore) + NonWaiting(cs[..|envs|]) <= Rank(cs[0].restore)
  {
    if envs != [] {
      var k := |envs| - 1;
      PassesLowerRank(hex, safe, cs[..k + 1], envs[..k]);
      assert cs[..k + 1][..k] == cs[..k] && cs[..|envs|][..k] == cs[..k];
      assert PassTo(hex, safe, cs[k], envs[k], cs[k + 1]);
      PassLowersRank(hex, safe, cs[k], envs[k], cs[k + 1]);
      CompletedRankStays(hex, safe, cs[k], envs[k]);
    }
  }

  lemma CompletedRankStays(hex: Hex, safe: Joined, c: Cluster, env: Env)
    ensures Rank(c.restore) == 0 ==> PassOf(hex, safe, c, env).0 == c
  {
  }

  /** Four passes that do not wait complete a restore, however many waiting passes lie between them. */
  lemma FourPassesComplete(hex: Hex, safe: Joined, cs: seq<Cluster>, envs: seq<Env>)
    requires Passes(hex, safe, cs, envs) && NonWaiting(cs[..|envs|]) >= 4
    ensures IsComplete(cs[|envs|].restore)
  {
    PassesLowerRank(hex, safe, cs, envs);
  }
}
