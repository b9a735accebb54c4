/** From the volumes of a VM to its backup, to a restore, and back to the volumes of a restored VM. */
module Volumes {
  import opened Outcomes
  import opened Objects

  // VM volumes -> volume backups

  /** Volume name to claim name; the last of several volumes with one name counts. */
  function ClaimMap(volumes: seq<Volume>): map<string, string> {
    if volumes == [] then map[]
    else
      var m := ClaimMap(volumes[..|volumes| - 1]);
      var v := volumes[|volumes| - 1];
      if v.claim.Some? then m[v.name := v.claim.value] else m
  }

  method VolumeToPvcMappings(volumes: seq<Volume>) returns (pvcs: map<string, string>)
    ensures pvcs == ClaimMap(volumes)
  {
    pvcs := map[];
    for i := 0 to |volumes|
      invariant pvcs == ClaimMap(volumes[..i])
    {
      assert volumes[..i + 1][..i] == volumes[..i];
      if volumes[i].claim.Some? {
        pvcs := pvcs[volumes[i].name := volumes[i].claim.value];
      }
    }
    assert volumes[..|volumes|] == volumes;
  }

  /** The mapped names are the names of the volumes that have a claim. */
  lemma {:induction false} ClaimMapKeys(volumes: seq<Volume>)
    ensures forall n :: n in ClaimMap(volumes) <==> exists v :: v in volumes && v.claim.Some? && v.name == n
    ensures forall n | n in ClaimMap(volumes) :: exists v ::
      v in volumes && v.name == n && v.claim == Some(ClaimMap(volumes)[n])
  {
    if volumes != [] {
      var front := volumes[..|volumes| - 1];
      ClaimMapKeys(front);
      assert volumes == front + [volumes[|volumes| - 1]];
    }
  }

  /** The last volume of a name decides. */
  lemma {:induction false} LastVolumeIsMapped(volumes: seq<Volume>, i: nat)
    requires i < |volumes| && volumes[i].claim.Some?
    requires forall j | i < j < |volumes| && volumes[j].claim.Some? :: volumes[j].name != volumes[i].name
    ensures volumes[i].name in ClaimMap(volumes) && ClaimMap(volumes)[volumes[i].name] == volumes[i].claim.value
  {
    if i < |volumes| - 1 {
      LastVolumeIsMapped(volumes[..|volumes| - 1], i);
    }
  }

  /** The claims and persistent volumes a backup looks up; a volume maps to its CSI driver, or none. */
  datatype Storage = Storage(claims: map<string, ClaimSource>, drivers: map<string, Option<string>>)

  function VolumeBackupOf(backupName: string, volumeName: string, claimName: string,
        s: Storage): Outcome<VolumeBackup> {
    if claimName !in s.claims then Err("claim not found")
    else
      var claim := s.claims[claimName];
      if claim.spec.volumeName == "" then Err("unbound claim")
      else if claim.spec.storageClass.None? then Err("no storage class")
      else if claim.spec.volumeName !in s.drivers then Err("volume not found")
      else if s.drivers[claim.spec.volumeName].None? then Err("not from CSI driver")
      else Ok(VolumeBackup(Some(backupName + "-volume-" + claimName), volumeName,
                           s.drivers[claim.spec.volumeName].value, claim, None, None, Some(false), None))
  }

  /** A claim can be backed up exactly when it is there, bound, of a storage class, and on a volume of a driver. */
  lemma BacksUpExactly(backupName: string, volumeName: string, claimName: string, s: Storage)
    ensures VolumeBackupOf(backupName, volumeName, claimName, s).Ok? <==>
      && claimName in s.claims && s.claims[claimName].spec.volumeName != "" &&
        s.claims[claimName].spec.storageClass.Some?
      && s.claims[claimName].spec.volumeName in s.drivers && s.drivers[s.claims[claimName].spec.volumeName].Some?
  {
  }

  /** Volume backups for the names in the order the Go map happens to yield them. */
  function VolumeBackupsInOrder(backupName: string, m: map<string, string>, order: seq<string>,
        s: Storage): Outcome<seq<VolumeBackup>>
    requires forall n | n in order :: n in m
  {
    if order == [] then Ok([])
    else
      var last := order[|order| - 1];
      match VolumeBackupsInOrder(backupName, m, order[..|order| - 1], s)
      case Ok(front) =>
        (match VolumeBackupOf(backupName, last, m[last], s)
         case Ok(vb) => Ok(front + [vb])
         case Err(e) => Err(e)
         case Panic => Panic)
      case Err(e) => Err(e)
      case Panic => Panic
  }

  /** Each name once, and every name. */
  ghost predicate Enumerates(order: seq<string>, names: set<string>) {
    (forall i, j | 0 <= i < j < |order| :: order[i] != order[j]) && (forall n :: n in order <==> n in names)
  }

  /** The result of visiting the mapped volumes one by one in some order: all of them, or up to a failure. */
  ghost predicate VisitedInSomeOrder(backupName: string, volumes: seq<Volume>, s: Storage,
        result: Outcome<seq<VolumeBackup>>) {
    exists order :: VisitedIn(backupName, volumes, s, result, order)
  }

  ghost predicate VisitedIn(backupName: string, volumes: seq<Volume>, s: Storage, result: Outcome<seq<VolumeBackup>>,
        order: seq<string>) {
    && (forall n | n in order :: n in ClaimMap(volumes))
    && result == VolumeBackupsInOrder(backupName, ClaimMap(volumes), order, s)
    && (result.Ok? ==> Enumerates(order, ClaimMap(volumes).Keys))
  }

  method GetVolumeBackups(backupName: string, volumes: seq<Volume>, s: Storage)
        returns (result: Outcome<seq<VolumeBackup>>)
    ensures VisitedInSomeOrder(backupName, volumes, s, result)
  {
    var m := VolumeToPvcMappings(volumes);
    var left := m.Keys;
    var backups := [];
    ghost var order: seq<string> := [];
    while left != {}
      invariant left <= m.Keys
      invariant forall n | n in order :: n in m
      invariant Enumerates(order, m.Keys - left)
      invariant VolumeBackupsInOrder(backupName, m, order, s) == Ok(backups)
      decreases left
    {
      var name :| name in left;
      left := left - {name};
      var vb := VolumeBackupOf(backupName, name, m[name], s);
      VisitedOneMore(backupName, m, order, name, s);
      order := order + [name];
      if !vb.Ok? {
        result := if vb.Err? then Err(vb.message) else Panic;
        assert VisitedIn(backupName, volumes, s, result, order);
        return;
      }
      backups := backups + [vb.value];
    }
    result := Ok(backups);
    assert VisitedIn(backupName, volumes, s, result, order);
  }

  lemma VisitedOneMore(backupName: string, m: map<string, string>, order: seq<string>, name: string, s: Storage)
    requires name in m && (forall n | n in order :: n in m) && VolumeBackupsInOrder(backupName, m, order, s).Ok?
    ensures VolumeBackupsInOrder(backupName, m, order + [name], s) ==
      match VolumeBackupOf(backupName, name, m[name], s)
      case Ok(vb) => Ok(VolumeBackupsInOrder(backupName, m, order, s).value + [vb])
      case Err(e) => Err(e)
      case Panic => Panic
  {
    assert (order + [name])[..|order|] == order;
  }

  /** A finished list has one entry per mapped volume, in the order visited, made from that volume's claim. */
  lemma {:induction false} VolumeBackupsAt(backupName: string, m: map<string, string>, order: seq<string>, s: Storage,
        i: nat)
    requires forall n | n in order :: n in m
    requires VolumeBackupsInOrder(backupName, m, order, s).Ok?
    requires i < |order|
    ensures var vbs := VolumeBackupsInOrder(backupName, m, order, s).value;
      |vbs| == |order| && VolumeBackupOf(backupName, order[i], m[order[i]], s) == Ok(vbs[i])
  {
    if i < |order| - 1 {
      VolumeBackupsAt(backupName, m, order[..|order| - 1], s, i);
    } else if |order| > 1 {
      VolumeBackupsAt(backupName, m, order[..|order| - 1], s, |order| - 2);
    }
  }

  // Volume backups -> volume restores

  function FirstRestoreFor(existing: seq<VolumeRestore>, volumeName: string): Option<VolumeRestore> {
    if existing == [] then None
    else if existing[0].volumeName == volumeName then Some(existing[0])
    else FirstRestoreFor(existing[1..], volumeName)
  }

  function VolumeRestoreOf(r: Restore, existing: seq<VolumeRestore>, vb: VolumeBackup): Outcome<VolumeRestore> {
    match FirstRestoreFor(existing, vb.volumeName)
    case Some(vr) => Ok(vr)
    case None =>
      if vb.name.None? then Err("VolumeSnapshotName missing")
      else Ok(VolumeRestore(vb.volumeName, RestoredClaimName(r, vb.volumeName), vb.claim.spec, vb.name.value))
  }

  function VolumeRestores(r: Restore, existing: seq<VolumeRestore>,
        vbs: seq<VolumeBackup>): Outcome<seq<VolumeRestore>> {
    if vbs == [] then Ok([])
    else
      match VolumeRestores(r, existing, vbs[..|vbs| - 1])
      case Ok(front) =>
        (match VolumeRestoreOf(r, existing, vbs[|vbs| - 1])
         case Ok(vr) => Ok(front + [vr])
         case Err(e) => Err(e)
         case Panic => Panic)
      case Err(e) => Err(e)
      case Panic => Panic
  }

  method GetVolumeRestores(r: Restore, existing: seq<VolumeRestore>, vbs: seq<VolumeBackup>)
    returns (result: Outcome<seq<VolumeRestore>>)
    ensures result == VolumeRestores(r, existing, vbs)
  {
    var restores := [];
    for i := 0 to |vbs|
      invariant VolumeRestores(r, existing, vbs[..i]) == Ok(restores)
    {
      var vb := vbs[i];
      var found := false;
      assert vbs[..i + 1][..i] == vbs[..i];
      for j := 0 to |existing|
        invariant !found
        invariant VolumeRestores(r, existing, vbs[..i]) == Ok(restores)
        invariant FirstRestoreFor(existing, vb.volumeName) == FirstRestoreFor(existing[j..], vb.volumeName)
      {
        if vb.volumeName == existing[j].volumeName {
          restores := restores + [existing[j]];
          found := true;
          break;
        }
      }
      if !found {
        if vb.name.None? {
          VolumeRestoresErr(r, existing, vbs, i);
          return Err("VolumeSnapshotName missing");
        }
        restores := restores + [VolumeRestore(vb.volumeName, RestoredClaimName(r, vb.volumeName), vb.claim.spec,
          vb.name.value)];
      }
    }
    assert vbs[..|vbs|] == vbs;
    result := Ok(restores);
  }

  /** The first volume backup that cannot be turned into a volume restore decides the result. */
  lemma {:induction false} VolumeRestoresErr(r: Restore, existing: seq<VolumeRestore>, vbs: seq<VolumeBackup>, i: nat)
    requires i < |vbs| && VolumeRestores(r, existing, vbs[..i]).Ok?
    requires VolumeRestoreOf(r, existing, vbs[i]).Err?
    ensures VolumeRestores(r, existing, vbs) == Err(VolumeRestoreOf(r, existing, vbs[i]).message)
  {
    if i < |vbs| - 1 {
      assert vbs[..|vbs| - 1][..i] == vbs[..i];
      VolumeRestoresErr(r, existing, vbs[..|vbs| - 1], i);
    } else {
      assert vbs[..|vbs| - 1] == vbs[..i];
    }
  }

  /** Restores pair with backups by position: same volume, same snapshot. */
  predicate Paired(r: Restore, vrs: seq<VolumeRestore>, vbs: seq<VolumeBackup>) {
    |vrs| == |vbs| &&
    forall i | 0 <= i < |vrs| ::
      vrs[i].volumeName == vbs[i].volumeName && vbs[i].name == Some(vrs[i].volumeBackupName) &&
      vrs[i].claimName == RestoredClaimName(r, vbs[i].volumeName)
  }

  lemma {:induction false} VolumeRestoresPair(r: Restore, vbs: seq<VolumeBackup>)
    ensures VolumeRestores(r, [], vbs).Ok? <==> forall vb | vb in vbs :: vb.name.Some?
    ensures VolumeRestores(r, [], vbs).Ok? ==> Paired(r, VolumeRestores(r, [], vbs).value, vbs)
  {
    if vbs != [] {
      var front := vbs[..|vbs| - 1];
      VolumeRestoresPair(r, front);
      assert vbs == front + [vbs[|vbs| - 1]];
    }
  }

  /** Entries there are already for a volume are kept; a new one carries the spec of the claim backed up. */
  lemma {:induction false} VolumeRestoresAt(r: Restore, existing: seq<VolumeRestore>, vbs: seq<VolumeBackup>, i: nat)
    requires VolumeRestores(r, existing, vbs).Ok? && i < |vbs|
    ensures var vrs := VolumeRestores(r, existing, vbs).value;
      && |vrs| == |vbs| && vrs[i].volumeName == vbs[i].volumeName
      && (if forall vr | vr in existing :: vr.volumeName != vbs[i].volumeName then vrs[i].spec == vbs[i].claim.spec
          else vrs[i] in existing)
  {
    FirstRestoreIsListed(existing, vbs[i].volumeName);
    if i < |vbs| - 1 {
      VolumeRestoresAt(r, existing, vbs[..|vbs| - 1], i);
    } else if |vbs| > 1 {
      VolumeRestoresAt(r, existing, vbs[..|vbs| - 1], |vbs| - 2);
    }
  }

  lemma {:induction false} FirstRestoreIsListed(existing: seq<VolumeRestore>, volumeName: string)
    ensures FirstRestoreFor(existing, volumeName).None? <==> forall vr | vr in existing :: vr.volumeName != volumeName
    ensures FirstRestoreFor(existing, volumeName).Some? ==>
      var vr := FirstRestoreFor(existing, volumeName).value; vr in existing && vr.volumeName == volumeName
  {
    if existing != [] {
      FirstRestoreIsListed(existing[1..], volumeName);
      assert existing == [existing[0]] + existing[1..];
    }
  }

  lemma {:induction false} FirstRestoreWins(existing: seq<VolumeRestore>, i: nat)
    requires i < |existing| && forall j | 0 <= j < i :: existing[j].volumeName != existing[i].volumeName
    ensures FirstRestoreFor(existing, existing[i].volumeName) == Some(existing[i])
  {
    if i > 0 {
      FirstRestoreWins(existing[1..], i - 1);
    }
  }

  // Volume restores -> volumes of the restored VM

  /** The claim a restore gives a volume: the last entry with its name. */
  function NewClaim(vrs: seq<VolumeRestore>, volumeName: string): Option<string> {
    if vrs == [] then None
    else if vrs[|vrs| - 1].volumeName == volumeName then Some(vrs[|vrs| - 1].claimName)
    else NewClaim(vrs[..|vrs| - 1], volumeName)
  }

  /** The last entry of a name decides; without an entry the claim stays. */
  lemma {:induction false} LastRestoreWins(vrs: seq<VolumeRestore>, i: nat, volumeName: string)
    requires i <= |vrs| && (i < |vrs| ==> vrs[i].volumeName == volumeName)
    requires forall j | 0 <= j < |vrs| && (j > i || i == |vrs|) :: vrs[j].volumeName != volumeName
    ensures NewClaim(vrs, volumeName) == if i < |vrs| then Some(vrs[i].claimName) else None
  {
    if i < |vrs| - 1 {
      LastRestoreWins(vrs[..|vrs| - 1], i, volumeName);
    } else if i == |vrs| && i > 0 {
      LastRestoreWins(vrs[..|vrs| - 1], |vrs| - 1, volumeName);
    }
  }

  function Rewired(v: Volume, vrs: seq<VolumeRestore>): Volume {
    if v.claim.Some? && NewClaim(vrs, v.name).Some? then v.(claim := NewClaim(vrs, v.name)) else v
  }

  function NewVolumes(volumes: seq<Volume>, vrs: seq<VolumeRestore>): seq<Volume> {
    seq(|volumes|, i requires 0 <= i < |volumes| => Rewired(volumes[i], vrs))
  }

  method GetNewVolumes(volumes: seq<Volume>, vrs: seq<VolumeRestore>) returns (newVolumes: seq<Volume>)
    ensures newVolumes == NewVolumes(volumes, vrs)
  {
    newVolumes := volumes;
    for j := 0 to |volumes|
      invariant |newVolumes| == |volumes|
      invariant forall k | 0 <= k < j :: newVolumes[k] == Rewired(volumes[k], vrs)
      invariant forall k | j <= k < |volumes| :: newVolumes[k] == volumes[k]
    {
      var vol := volumes[j];
      if vol.claim.Some? {
        for i := 0 to |vrs|
          invariant |newVolumes| == |volumes|
          invariant forall k | 0 <= k < j :: newVolumes[k] == Rewired(volumes[k], vrs)
          invariant forall k | j < k < |volumes| :: newVolumes[k] == volumes[k]
          invariant newVolumes[j] == Rewired(vol, vrs[..i])
        {
          assert vrs[..i + 1][..i] == vrs[..i];
          if vrs[i].volumeName != vol.name {
            continue;
          }
          newVolumes := newVolumes[j := vol.(claim := Some(vrs[i].claimName))];
        }
        assert vrs[..|vrs|] == vrs;
      }
    }
  }

  lemma {:induction false} NewClaimOfPaired(r: Restore, vrs: seq<VolumeRestore>, vbs: seq<VolumeBackup>,
        volumeName: string)
    requires Paired(r, vrs, vbs)
    ensures (exists vb :: vb in vbs && vb.volumeName == volumeName) ==>
      NewClaim(vrs, volumeName) == Some(RestoredClaimName(r, volumeName))
    ensures (forall vb | vb in vbs :: vb.volumeName != volumeName) ==> NewClaim(vrs, volumeName) == None
  {
    if vrs != [] {
      var n := |vrs| - 1;
      NewClaimOfPaired(r, vrs[..n], vbs[..n], volumeName);
      assert vbs == vbs[..n] + [vbs[n]];
    }
  }

  // The whole pipeline

  /** Every volume with a claim is among the backed-up volumes. */
  ghost predicate Covers(vbs: seq<VolumeBackup>, volumes: seq<Volume>) {
    forall v | v in volumes && v.claim.Some? :: exists vb :: vb in vbs && vb.volumeName == v.name
  }

  function RestoredVolume(r: Restore, v: Volume): Volume {
    if v.claim.Some? then v.(claim := Some(RestoredClaimName(r, v.name))) else v
  }

  lemma NewVolumesOfPaired(r: Restore, volumes: seq<Volume>, vrs: seq<VolumeRestore>, vbs: seq<VolumeBackup>)
    requires Paired(r, vrs, vbs) && Covers(vbs, volumes)
    ensures |NewVolumes(volumes, vrs)| == |volumes|
    ensures forall i | 0 <= i < |volumes| :: NewVolumes(volumes, vrs)[i] == RestoredVolume(r, volumes[i])
  {
    forall i | 0 <= i < |volumes|
      ensures Rewired(volumes[i], vrs) == RestoredVolume(r, volumes[i])
    {
      if volumes[i].claim.Some? {
        NewClaimOfPaired(r, vrs, vbs, volumes[i].name);
      }
    }
  }

  lemma BackupsCoverVolumes(backupName: string, volumes: seq<Volume>, order: seq<string>, s: Storage)
    requires Enumerates(order, ClaimMap(volumes).Keys)
    requires VolumeBackupsInOrder(backupName, ClaimMap(volumes), order, s).Ok?
    ensures Covers(VolumeBackupsInOrder(backupName, ClaimMap(volumes), order, s).value, volumes)
  {
    var m := ClaimMap(volumes);
    var vbs := VolumeBackupsInOrder(backupName, m, order, s).value;
    ClaimMapKeys(volumes);
    forall v | v in volumes && v.claim.Some?
      ensures exists vb :: vb in vbs && vb.volumeName == v.name
    {
      assert v.name in order;
      var i :| 0 <= i < |order| && order[i] == v.name;
      VolumeBackupsAt(backupName, m, order, s, i);
      assert vbs[i] in vbs;
    }
  }

  /** Each backed-up volume is named, carries no verdict yet, and records the claim its VM volume uses. */
  lemma BackedUpVolume(backupName: string, m: map<string, string>, order: seq<string>, s: Storage, vb: VolumeBackup)
    requires forall n | n in order :: n in m
    requires VolumeBackupsInOrder(backupName, m, order, s).Ok?
    requires vb in VolumeBackupsInOrder(backupName, m, order, s).value
    ensures vb.volumeName in m && m[vb.volumeName] in s.claims && vb.claim == s.claims[m[vb.volumeName]]
    ensures vb.name == Some(backupName + "-volume-" + m[vb.volumeName])
    ensures vb.ready == Some(false) && vb.error.None? && vb.longhornBackup.None? && vb.created.None?
    ensures vb.claim.spec.volumeName in s.drivers && s.drivers[vb.claim.spec.volumeName] == Some(vb.driver)
  {
    var vbs := VolumeBackupsInOrder(backupName, m, order, s).value;
    VolumeBackupsCount(backupName, m, order, s);
    var i :| 0 <= i < |vbs| && vbs[i] == vb;
    VolumeBackupsAt(backupName, m, order, s, i);
    assert order[i] in m;
  }

  lemma {:induction false} VolumeBackupsCount(backupName: string, m: map<string, string>, order: seq<string>,
        s: Storage)
    requires forall n | n in order :: n in m
    requires VolumeBackupsInOrder(backupName, m, order, s).Ok?
    ensures |VolumeBackupsInOrder(backupName, m, order, s).value| == |order|
  {
    if order != [] {
      VolumeBackupsCount(backupName, m, order[..|order| - 1], s);
    }
  }

  /** Backing up and restoring a volume list rewires each claim to the restore's own claim for that
      volume and changes nothing else, whatever order the map was walked in. */
  lemma PipelineRestoresVolumes(backupName: string, volumes: seq<Volume>, order: seq<string>, s: Storage, r: Restore)
    requires Enumerates(order, ClaimMap(volumes).Keys)
    requires VolumeBackupsInOrder(backupName, ClaimMap(volumes), order, s).Ok?
    ensures
      var vbs := VolumeBackupsInOrder(backupName, ClaimMap(volumes), order, s).value;
      VolumeRestores(r, [], vbs).Ok? &&
      NewVolumes(volumes, VolumeRestores(r, [], vbs).value) ==
        seq(|volumes|, i requires 0 <= i < |volumes| => RestoredVolume(r, volumes[i]))
  {
    var vbs := VolumeBackupsInOrder(backupName, ClaimMap(volumes), order, s).value;
    BackupsCoverVolumes(backupName, volumes, order, s);
    forall vb | vb in vbs
      ensures vb.name.Some?
    {
      BackedUpVolume(backupName, ClaimMap(volumes), order, s, vb);
    }
    VolumeRestoresPair(r, vbs);
    NewVolumesOfPaired(r, volumes, VolumeRestores(r, [], vbs).value, vbs);
  }

  /** The same, volume by volume and field by field. */
  lemma PipelineKeepsVolumes(backupName: string, volumes: seq<Volume>, order: seq<string>, s: Storage, r: Restore,
        i: nat)
    requires Enumerates(order, ClaimMap(volumes).Keys) && i < |volumes|
    requires VolumeBackupsInOrder(backupName, ClaimMap(volumes), order, s).Ok?
    ensures
      var vbs := VolumeBackupsInOrder(backupName, ClaimMap(volumes), order, s).value;
      VolumeRestores(r, [], vbs).Ok? &&
      var out := NewVolumes(volumes, VolumeRestores(r, [], vbs).value);
      && |out| == |volumes| && out[i].name == volumes[i].name && out[i].cloudInit == volumes[i].cloudInit
      && out[i].claim == if volumes[i].claim.None? then None
                         else Some("restore-" + r.spec.backupName + "-" + r.uid + "-" + volumes[i].name)
  {
    PipelineRestoresVolumes(backupName, volumes, order, s, r);
  }

  /** No claim of the restore's own making exists before it: its uid occurs in no claim name. */
  ghost predicate FreshUid(r: Restore, claimName: string) {
    forall before: string, after: string :: claimName != before + r.uid + after
  }

  lemma FreshUidNames(r: Restore, claimName: string, volumeName: string)
    requires FreshUid(r, claimName)
    ensures claimName != RestoredClaimName(r, volumeName)
  {
    var before, after := "restore-" + r.spec.backupName + "-", "-" + volumeName;
    assert RestoredClaimName(r, volumeName) == before + r.uid + after;
  }

  lemma RestoredClaimNamesInjective(r: Restore, a: string, b: string)
    ensures RestoredClaimName(r, a) == RestoredClaimName(r, b) <==> a == b
  {
    var prefix := "restore-" + r.spec.backupName + "-" + r.uid + "-";
    assert RestoredClaimName(r, a)[|prefix|..] == a;
    assert RestoredClaimName(r, b)[|prefix|..] == b;
  }

  /** Claims of the restored VM are distinct exactly when the volume names are, and none of them is
      a claim the source VM used. */
  lemma PipelineClaims(volumes: seq<Volume>, r: Restore, i: nat, j: nat)
    requires i < j < |volumes| && volumes[i].claim.Some? && volumes[j].claim.Some?
    ensures RestoredVolume(r, volumes[i]).claim == RestoredVolume(r, volumes[j]).claim <==>
      volumes[i].name == volumes[j].name
    ensures (forall v | v in volumes && v.claim.Some? :: FreshUid(r, v.claim.value)) ==>
      forall v | v in volumes && v.claim.Some? :: RestoredVolume(r, volumes[i]).claim != v.claim
  {
    RestoredClaimNamesInjective(r, volumes[i].name, volumes[j].name);
    forall v | v in volumes && v.claim.Some? && FreshUid(r, v.claim.value)
      ensures RestoredVolume(r, volumes[i]).claim != v.claim
    {
      FreshUidNames(r, v.claim.value, volumes[i].name);
    }
  }
}
