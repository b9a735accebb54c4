/** Backup metadata: uploaded to the backup target by one cluster, turned back into backups by another. */
module Metadata {
  import opened Outcomes
  import opened Objects
  import opened BackupWriters
  import opened BackupMachine

  datatype Metadata = Metadata(
    name: string, namespace: string, spec: BackupSpec, source: Option<VmSource>,
    volumes: seq<VolumeBackup>, secrets: seq<SecretBackup>)

  const DEFAULT_NAMESPACE := "default"

  function FileName(namespace: string, name: string): string {
    namespace + "-" + name + ".cfg"
  }

  function Sanitized(vb: VolumeBackup): VolumeBackup {
    vb.(ready := None, created := None, error := None)
  }

  function AllSanitized(vbs: seq<VolumeBackup>): seq<VolumeBackup> {
    seq(|vbs|, i requires 0 <= i < |vbs| => Sanitized(vbs[i]))
  }

  method SanitizeVolumeBackups(volumeBackups: array<VolumeBackup>)
    modifies volumeBackups
    ensures volumeBackups[..] == AllSanitized(old(volumeBackups[..]))
  {
    for i := 0 to volumeBackups.Length
      invariant forall k | 0 <= k < i :: volumeBackups[k] == Sanitized(old(volumeBackups[k]))
      invariant forall k | i <= k < volumeBackups.Length :: volumeBackups[k] == old(volumeBackups[k])
    {
      volumeBackups[i] := volumeBackups[i].(ready := None);
      volumeBackups[i] := volumeBackups[i].(created := None);
      volumeBackups[i] := volumeBackups[i].(error := None);
    }
  }

  function MetadataOf(b: Backup): Metadata
    requires b.status.Some?
  {
    var s := b.status.value;
    Metadata(b.name, if b.namespace == "" then DEFAULT_NAMESPACE
      else b.namespace, b.spec, s.source, AllSanitized(s.volumes), s.secrets)
  }

  type Remote = map<string, Metadata>

  /** Where a cluster stands with its backup target: the decoded setting, whether that is the default, and
      what goes wrong reaching the store or writing to it. */
  datatype Site = Site(setting: Result<Target>, isDefault: bool, open: Option<string>, write: Option<string>)

  /** Uploading: only to the target the backup was made for, and only when the file differs. */
  function Uploaded(remote: Remote, b: Backup, site: Site): Result<Remote>
    requires b.status.Some?
  {
    var file := FileName(b.namespace, b.name);
    if b.status.value.target.None? then Failure("no backup target in vmbackup.status")
    else if site.setting.Failure? then Failure(site.setting.message)
    else if site.isDefault || b.status.value.target.value != site.setting.value then Success(remote)
    else if site.open.Some? then Failure(site.open.value)
    else if file in remote && remote[file] == MetadataOf(b) then Success(remote)
    else if site.write.Some? then Failure(site.write.value)
    else Success(remote[file := MetadataOf(b)])
  }

  method UploadMetadata(remote: Remote, b: Backup, site: Site) returns (result: Result<Remote>, wrote: bool)
    requires b.status.Some?
    ensures result == Uploaded(remote, b, site)
    ensures wrote <==> result.Success? && result.value != remote
  {
    wrote := false;
    if b.status.value.target.None? {
      return Failure("no backup target in vmbackup.status"), false;
    }
    if site.setting.Failure? {
      return Failure(site.setting.message), false;
    }
    if site.isDefault {
      return Success(remote), false;
    }
    if b.status.value.target.value != site.setting.value {
      return Success(remote), false;
    }
    if site.open.Some? {
      return Failure(site.open.value), false;
    }
    var volumes := new VolumeBackup[|b.status.value.volumes|](i requires 0 <= i < |b.status.value.volumes| =>
      b.status.value.volumes[i]);
    assert volumes[..] == b.status.value.volumes;
    SanitizeVolumeBackups(volumes);
    var namespace := b.namespace;
    if b.namespace == "" {
      namespace := DEFAULT_NAMESPACE;
    }
    var metadata := Metadata(b.name, namespace, b.spec, b.status.value.source, volumes[..], b.status.value.secrets);
    var file := FileName(b.namespace, b.name);
    var shouldUpload := true;
    if file in remote && remote[file] == metadata {
      shouldUpload := false;
    }
    if shouldUpload {
      if site.write.Some? {
        return Failure(site.write.value), false;
      }
      wrote := true;
      result := Success(remote[file := metadata]);
    } else {
      result := Success(remote);
    }
  }

  /** The file written describes the backup in full, except for the state of its snapshots. */
  lemma MetadataRecords(b: Backup)
    requires b.status.Some?
    ensures var m, s := MetadataOf(b), b.status.value;
      && m.name == b.name && m.namespace == (if b.namespace == "" then "default" else b.namespace)
      && m.spec == b.spec && m.source == s.source && m.secrets == s.secrets && |m.volumes| == |s.volumes|
      && forall i | 0 <= i < |s.volumes| ::
        m.volumes[i] == VolumeBackup(s.volumes[i].name, s.volumes[i].volumeName, s.volumes[i].driver,
          s.volumes[i].claim, s.volumes[i].longhornBackup, None, None, None)
  {
  }

  /** A backup made for another target than the current one, or any while that is the default, leaves the store as
      it is; one made for it is described by the file under its name. */
  lemma UploadsOnlyToItsTarget(remote: Remote, b: Backup, site: Site)
    requires b.status.Some? && b.status.value.target.Some? && site.setting.Success?
    ensures var its := b.status.value.target == Some(site.setting.value) && !site.isDefault;
      var result := Uploaded(remote, b, site);
      && (!its ==> result == Success(remote))
      && (its && result.Success? ==> result.value == remote[b.namespace + "-" + b.name + ".cfg" := MetadataOf(b)])
    ensures Uploaded(remote, b, site).Failure? ==>
      site.open == Some(Uploaded(remote, b, site).message) || site.write == Some(Uploaded(remote, b, site).message)
  {
    var file := FileName(b.namespace, b.name);
    if file in remote && remote[file] == MetadataOf(b) {
      assert remote[file := MetadataOf(b)] == remote;
    }
  }

  // Synchronising

  type Cluster = map<(string, string), Backup>

  function Located(m: Metadata): Metadata {
    if m.namespace == "" then m.(namespace := DEFAULT_NAMESPACE) else m
  }

  function Key(m: Metadata): (string, string) {
    (Located(m).namespace, m.name)
  }

  /** The backup a metadata file stands for; the API server gives it a uid. */
  function Recreated(m: Metadata, target: Target, uid: string): Backup {
    Backup(m.name, Located(m).namespace, uid, NO_TARGET, false, false, m.spec,
           Some(EMPTY_BACKUP_STATUS.(ready := Some(false), target := Some(target), source := m.source,
             volumes := m.volumes, secrets := m.secrets)))
  }

  function Synced(c: Cluster, files: seq<Metadata>, target: Target, uid: string): Cluster {
    if files == [] then c
    else
      var before := Synced(c, files[..|files| - 1], target, uid);
      var m := files[|files| - 1];
      if Key(m) in before then before else before[Key(m) := Recreated(m, target, uid)]
  }

  /** The files read before the first one that fails. */
  function Taken(files: seq<Result<Metadata>>, n: nat): seq<Metadata>
    requires n <= |files| && forall i | 0 <= i < n :: files[i].Success?
  {
    seq(n, i requires 0 <= i < n => files[i].value)
  }

  lemma SyncedOneMore(c: Cluster, files: seq<Result<Metadata>>, target: Target, uid: string, i: nat)
    requires i < |files| && forall k | 0 <= k <= i :: files[k].Success?
    ensures var before, m := Synced(c, Taken(files, i), target, uid), files[i].value;
      Synced(c, Taken(files, i + 1), target, uid) == if Key(m) in before then before
        else before[Key(m) := Recreated(m, target, uid)]
  {
    assert Taken(files, i + 1)[..i] == Taken(files, i);
  }

  /** A file fails when it cannot be read or decoded, or when the API calls about its backup fail. */
  method SyncVmBackup(c: Cluster, files: seq<Result<Metadata>>, target: Target, uid: string)
        returns (out: Cluster, read: nat)
    ensures read <= |files| && forall i | 0 <= i < read :: files[i].Success?
    ensures read < |files| ==> files[read].Failure?
    ensures out == Synced(c, Taken(files, read), target, uid)
  {
    out := c;
    for i := 0 to |files|
      invariant forall k | 0 <= k < i :: files[k].Success?
      invariant out == Synced(c, Taken(files, i), target, uid)
    {
      if files[i].Failure? {
        return out, i;
      }
      var m := files[i].value;
      SyncedOneMore(c, files, target, uid, i);
      if m.namespace == "" {
        m := m.(namespace := DEFAULT_NAMESPACE);
      }
      if (m.namespace, m.name) !in out {
        out := out[(m.namespace, m.name) := Recreated(m, target, uid)];
      }
    }
    read := |files|;
  }

  /** Backups already present are kept, and a backup that was absent is the one its first file stands for. */
  lemma {:induction false} SyncCreatesWhatIsMissing(c: Cluster, files: seq<Metadata>, target: Target, uid: string,
        i: nat)
    requires i < |files| && Key(files[i]) !in c && forall j | 0 <= j < i :: Key(files[j]) != Key(files[i])
    ensures Key(files[i]) in Synced(c, files, target, uid) &&
      Synced(c, files, target, uid)[Key(files[i])] == Recreated(files[i], target, uid)
  {
    var n := |files| - 1;
    if i < n {
      SyncCreatesWhatIsMissing(c, files[..n], target, uid, i);
    } else {
      SyncKeepsTheRest(c, files[..n], target, uid, Key(files[i]));
    }
  }

  lemma {:induction false} SyncKeepsTheRest(c: Cluster, files: seq<Metadata>, target: Target, uid: string,
        key: (string, string))
    requires key in c || forall m | m in files :: Key(m) != key
    ensures key in Synced(c, files, target, uid) <==> key in c
    ensures key in c ==> Synced(c, files, target, uid)[key] == c[key]
  {
    if files != [] {
      SyncKeepsTheRest(c, files[..|files| - 1], target, uid, key);
    }
  }

  /** A recreated backup stands under the name in its file, for the current target, with nothing ready yet. */
  lemma RecreatedReads(m: Metadata, target: Target, uid: string)
    ensures var r := Recreated(m, target, uid);
      && r.name == m.name && r.namespace == (if m.namespace == "" then "default" else m.namespace) && r.uid == uid
      && r.spec == m.spec && !r.deleting && !r.finalizer && r.annotated == NO_TARGET && r.status.Some?
      && r.status.value == BackupStatus(None, None, Some(target), map[], m.source, m.volumes, m.secrets, Some(false),
           None, [])
  {
  }

  // The round trip

  lemma SanitizedTwice(vbs: seq<VolumeBackup>)
    ensures AllSanitized(AllSanitized(vbs)) == AllSanitized(vbs)
  {
  }

  /** What comes back has the spec, source, secrets and volumes of the original up to the three runtime
      fields, belongs under the original's name, is not sent back to the source VM, and has the metadata
      that was uploaded. */
  lemma RecreatedMatchesOriginal(b: Backup, target: Target, uid: string)
    requires IsBackupReady(b) && Sound(b) && CoversSource(b) && b.namespace != ""
    ensures var r := Recreated(MetadataOf(b), target, uid);
      (r.namespace, r.name) == (b.namespace, b.name) && r.spec == b.spec &&
      r.status.value.source == b.status.value.source && r.status.value.secrets == b.status.value.secrets &&
      r.status.value.volumes == AllSanitized(b.status.value.volumes) &&
      !IsBackupMissingStatus(r) && Sound(r) && CoversSource(r) && MetadataOf(r) == MetadataOf(b)
  {
    var r := Recreated(MetadataOf(b), target, uid);
    SanitizedTwice(b.status.value.volumes);
    SameVolumeNamesCover(b.status.value.volumes, r.status.value.volumes, b.status.value.source);
  }

  /** No error reset, and callbacks only confirm the Longhorn backup names already recorded. */
  ghost predicate Undisturbed(history: seq<Backup>, log: seq<Writer>)
    requires Replays(history, log)
  {
    forall i | 0 <= i < |log| ::
      !log[i].ErrorReset? &&
      (log[i].LonghornName? ==> Apply(log[i], history[i]) == history[i])
  }

  lemma WriteKeepsMetadata(w: Writer, b: Backup)
    requires Enabled(w, b) && !IsBackupMissingStatus(b)
    requires !w.ErrorReset? && (w.LonghornName? ==> Apply(w, b) == b)
    ensures !IsBackupMissingStatus(Apply(w, b)) && MetadataOf(Apply(w, b)) == MetadataOf(b)
    ensures b.status.value.target.Some? ==> Apply(w, b).status.value.target.Some?
  {
    if w.Snapshots? {
      RefreshedAt(b.status.value.volumes, w.seen);
      SameSanitized(b, Apply(w, b));
    } else if w.Conclude? {
      ConcludedKeepsTheRest(b.status.value, w.now);
    }
  }

  lemma SameSanitized(b: Backup, out: Backup)
    requires b.status.Some? && out.status.Some? && |out.status.value.volumes| == |b.status.value.volumes|
    requires forall i | 0 <= i < |b.status.value.volumes| ::
      Sanitized(out.status.value.volumes[i]) == Sanitized(b.status.value.volumes[i])
    requires out == b.(status := Some(b.status.value.(volumes := out.status.value.volumes)))
    ensures MetadataOf(out) == MetadataOf(b)
  {
  }

  /** Along every undisturbed history a recreated backup never re-enters the source-VM branch and keeps
      its metadata, so the upload that follows readiness finds the remote file equal and writes nothing. */
  lemma {:induction false} RecreatedKeepsMetadata(history: seq<Backup>, log: seq<Writer>, j: nat)
    requires Replays(history, log) && j < |history| && Undisturbed(history, log)
    requires !IsBackupMissingStatus(history[0])
    ensures !IsBackupMissingStatus(history[j]) && MetadataOf(history[j]) == MetadataOf(history[0])
    ensures history[0].status.value.target.Some? ==> history[j].status.value.target.Some?
    ensures j < |log| ==> !log[j].Init?
  {
    if j > 0 {
      RecreatedKeepsMetadata(history, log, j - 1);
      WriteKeepsMetadata(log[j - 1], history[j - 1]);
    }
  }

  lemma {:induction false} NameIsFixed(history: seq<Backup>, log: seq<Writer>, j: nat)
    requires Replays(history, log) && j < |history|
    ensures history[j].name == history[0].name && history[j].namespace == history[0].namespace &&
      history[j].spec == history[0].spec
  {
    if j > 0 {
      NameIsFixed(history, log, j - 1);
    }
  }

  /** The only write that sends a backup back to its source VM is an error reset. */
  lemma OnlyErrorResetReopens(w: Writer, b: Backup)
    requires Enabled(w, b) && !IsBackupMissingStatus(b)
    ensures IsBackupMissingStatus(Apply(w, b)) <==> w.ErrorReset?
  {
    if w.Snapshots? {
      RefreshedAt(b.status.value.volumes, w.seen);
    }
    if w.Conclude? {
      ConcludedKeepsTheRest(b.status.value, w.now);
    }
  }

  /** An error reset undoes the recreation: the backup then asks for a source VM. */
  lemma ErrorResetForgetsMetadata(m: Metadata, target: Target, uid: string, message: string, now: nat)
    ensures var r := Recreated(m, target, uid); var w := ErrorReset(message, now);
      Enabled(w, r) && IsBackupMissingStatus(Apply(w, r))
  {
  }

  // File names

  /** The second namespace continues the first with a dash, and the first name makes up for the rest. */
  predicate NameClash(ns1: string, n1: string, ns2: string, n2: string) {
    ns1 + "-" <= ns2 && n1 == ns2[|ns1| + 1..] + "-" + n2
  }

  lemma JoinedNames(ns1: string, n1: string, ns2: string, n2: string)
    requires |ns1| <= |ns2|
    ensures FileName(ns1, n1) == FileName(ns2, n2) <==> (ns1 == ns2 && n1 == n2) || NameClash(ns1, n1, ns2, n2)
  {
    var f1, f2 := FileName(ns1, n1), FileName(ns2, n2);
    assert f1 == (ns1 + "-") + n1 + ".cfg" && f2 == (ns2 + "-") + n2 + ".cfg";
    if f1 == f2 {
      assert ns1 == f1[..|ns1|] == ns2[..|ns1|] && f1[|ns1|] == '-';
      assert n1 == f1[|ns1| + 1..|f1| - 4] == f2[|ns1| + 1..|f2| - 4];
      if |ns1| < |ns2| {
        assert ns2[|ns1|] == f2[|ns1|] == '-';
        assert f2[|ns1| + 1..|f2| - 4] == ns2[|ns1| + 1..] + "-" + n2;
      } else {
        assert f2[|ns1| + 1..|f2| - 4] == n2;
      }
    }
    if NameClash(ns1, n1, ns2, n2) {
      assert ns2 == ns1 + "-" + ns2[|ns1| + 1..];
    }
  }

  /** Two backups share a file exactly when they are one backup or their names clash. */
  lemma FileNamesCollideExactly(ns1: string, n1: string, ns2: string, n2: string)
    ensures FileName(ns1, n1) == FileName(ns2, n2) <==>
      (ns1 == ns2 && n1 == n2) || NameClash(ns1, n1, ns2, n2) || NameClash(ns2, n2, ns1, n1)
  {
    if |ns1| <= |ns2| {
      JoinedNames(ns1, n1, ns2, n2);
    } else {
      JoinedNames(ns2, n2, ns1, n1);
    }
  }

  /** Backups in two namespaces can share a file exactly when one namespace continues the other with a dash. */
  lemma NamespacesThatCanCollide(ns1: string, ns2: string)
    requires ns1 != ns2
    ensures (exists n1, n2 :: n1 != "" && n2 != "" && FileName(ns1, n1) == FileName(ns2, n2)) <==>
      ns1 + "-" <= ns2 || ns2 + "-" <= ns1
  {
    if exists n1, n2 :: n1 != "" && n2 != "" && FileName(ns1, n1) == FileName(ns2, n2) {
      var n1, n2 :| n1 != "" && n2 != "" && FileName(ns1, n1) == FileName(ns2, n2);
      FileNamesCollideExactly(ns1, n1, ns2, n2);
    }
    if ns1 + "-" <= ns2 {
      var n1, n2 := ns2[|ns1| + 1..] + "-" + "x", "x";
      FileNamesCollideExactly(ns1, n1, ns2, n2);
      assert n1 != "" && n2 != "" && FileName(ns1, n1) == FileName(ns2, n2);
    }
    if ns2 + "-" <= ns1 {
      var n1, n2 := "x", ns1[|ns2| + 1..] + "-" + "x";
      FileNamesCollideExactly(ns1, n1, ns2, n2);
      assert n1 != "" && n2 != "" && FileName(ns1, n1) == FileName(ns2, n2);
    }
  }

  lemma FileNamesCanCollide()
    ensures FileName("a-b", "c") == FileName("a", "b-c")
  {
    assert FileName("a-b", "c") == "a-b-c.cfg" == FileName("a", "b-c");
  }

  // From one cluster to the other

  datatype Upload = Upload(backup: Backup, site: Site)

  function AfterUpload(remote: Remote, u: Upload): Remote {
    if u.backup.status.Some? && Uploaded(remote, u.backup, u.site).Success?
      then Uploaded(remote, u.backup, u.site).value else remote
  }

  function AfterUploads(remote: Remote, uploads: seq<Upload>): Remote {
    if uploads == [] then remote
      else AfterUpload(AfterUploads(remote, uploads[..|uploads| - 1]), uploads[|uploads| - 1])
  }

  /** Every file lies under the name of the backup it describes. */
  ghost predicate WellFiled(remote: Remote) {
    forall f | f in remote :: remote[f].namespace != "" && f == FileName(remote[f].namespace, remote[f].name)
  }

  /** An upload of the same metadata, or of a backup whose names do not clash. */
  predicate Harmless(u: Upload, b: Backup)
    requires b.status.Some?
  {
    var o := u.backup;
    o.namespace != "" &&
    if (o.namespace, o.name) == (b.namespace, b.name) then o.status.Some? ==> MetadataOf(o) == MetadataOf(b)
    else !NameClash(o.namespace, o.name, b.namespace, b.name) && !NameClash(b.namespace, b.name, o.namespace, o.name)
  }

  predicate Holds(remote: Remote, b: Backup)
    requires b.status.Some?
  {
    FileName(b.namespace, b.name) in remote && remote[FileName(b.namespace, b.name)] == MetadataOf(b)
  }

  lemma {:induction false} HarmlessUploadsKeepFile(remote: Remote, uploads: seq<Upload>, b: Backup)
    requires b.status.Some? && b.namespace != "" && WellFiled(remote) && forall u | u in uploads :: Harmless(u, b)
    ensures WellFiled(AfterUploads(remote, uploads))
    ensures Holds(remote, b) ==> Holds(AfterUploads(remote, uploads), b)
  {
    if uploads != [] {
      var front, last := uploads[..|uploads| - 1], uploads[|uploads| - 1];
      HarmlessUploadsKeepFile(remote, front, b);
      assert Harmless(last, b);
      FileNamesCollideExactly(last.backup.namespace, last.backup.name, b.namespace, b.name);
    }
  }

  /** The files of a store, in any order. */
  ghost predicate Listing(remote: Remote, names: seq<string>, files: seq<Metadata>) {
    && |files| == |names|
    && (forall i | 0 <= i < |names| :: names[i] in remote && files[i] == remote[names[i]])
    && (forall f | f in remote :: f in names)
  }

  function Lookup(c: Cluster, key: (string, string)): Option<Backup> {
    if key in c then Some(c[key]) else None
  }

  /** A backup uploaded by one cluster is recreated from its own file by a cluster that has no backup of the
      name, whatever else was and is uploaded without clashing. */
  lemma UploadArrives(remote: Remote, b: Backup, names: seq<string>, files: seq<Metadata>, c: Cluster, target: Target,
        uid: string)
    requires b.status.Some? && b.namespace != "" && WellFiled(remote) && Holds(remote, b) &&
      Listing(remote, names, files)
    requires (b.namespace, b.name) !in c
    ensures Lookup(Synced(c, files, target, uid), (b.namespace, b.name)) == Some(Recreated(MetadataOf(b), target, uid))
  {
    var file := FileName(b.namespace, b.name);
    forall i | 0 <= i < |files| && Key(files[i]) == (b.namespace, b.name)
      ensures files[i] == MetadataOf(b)
    {
      assert names[i] == FileName(remote[names[i]].namespace, remote[names[i]].name);
    }
    assert file in names;
    var k :| 0 <= k < |names| && names[k] == file;
    var i := 0;
    while Key(files[i]) != (b.namespace, b.name)
      invariant 0 <= i <= k && forall j | 0 <= j < i :: Key(files[j]) != (b.namespace, b.name)
      decreases k - i
    {
      i := i + 1;
    }
    SyncCreatesWhatIsMissing(c, files, target, uid, i);
  }

  lemma OwnUploadIsFiled(remote: Remote, b: Backup, site: Site)
    requires b.status.Some? && b.namespace != "" && WellFiled(remote)
    requires Uploaded(remote, b, site).Success? && !site.isDefault && b.status.value.target == Some(site.setting.value)
    ensures var first := AfterUpload(remote, Upload(b, site)); WellFiled(first) && Holds(first, b)
  {
  }

  lemma SameMetadataWritesNothing(store: Remote, b: Backup, again: Backup, site: Site)
    requires b.status.Some? && again.status.Some? && Holds(store, b)
    requires again.namespace == b.namespace && again.name == b.name && MetadataOf(again) == MetadataOf(b)
    ensures AfterUpload(store, Upload(again, site)) == store
  {
  }

  /** What a recreated backup keeps of the original, all its history long. */
  lemma RecreatedStaysFaithful(b: Backup, target: Target, uid: string, history: seq<Backup>, log: seq<Writer>, j: nat)
    requires IsBackupReady(b) && Sound(b) && CoversSource(b) && b.namespace != ""
    requires Replays(history, log) && Undisturbed(history, log) && j < |history|
    requires history[0] == Recreated(MetadataOf(b), target, uid)
    ensures history[j].status.Some? && MetadataOf(history[j]) == MetadataOf(b) && history[j].status.value.target.Some?
    ensures history[j].namespace == b.namespace && history[j].name == b.name
  {
    RecreatedMatchesOriginal(b, target, uid);
    RecreatedKeepsMetadata(history, log, j);
    NameIsFixed(history, log, j);
  }

  /** The whole way: a ready backup is uploaded, any harmless uploads follow, another cluster synchronises,
      and its recreated backup lives through any undisturbed history among further harmless uploads. It
      keeps the metadata, and uploading it leaves the store as it is. */
  lemma RoundTripNeverRewrites(remote: Remote, b: Backup, site: Site, others: seq<Upload>, names: seq<string>,
        files: seq<Metadata>,
                               c: Cluster, target: Target, uid: string, history: seq<Backup>, log: seq<Writer>, j: nat,
                               later: seq<Upload>, here: Site)
    requires IsBackupReady(b) && Sound(b) && CoversSource(b) && b.namespace != "" && WellFiled(remote)
    requires Uploaded(remote, b, site).Success? && !site.isDefault && b.status.value.target == Some(site.setting.value)
    requires forall u | u in others + later :: Harmless(u, b)
    requires Listing(AfterUploads(AfterUpload(remote, Upload(b, site)), others), names, files) &&
      (b.namespace, b.name) !in c
    requires Replays(history, log) && Undisturbed(history, log) && j < |history|
    requires Lookup(Synced(c, files, target, uid), (b.namespace, b.name)) == Some(history[0])
    ensures history[j].status.Some? && MetadataOf(history[j]) == MetadataOf(b) && history[j].status.value.target.Some?
    ensures var store := AfterUploads(AfterUploads(AfterUpload(remote, Upload(b, site)), others), later);
      Holds(store, b) && AfterUpload(store, Upload(history[j], here)) == store
  {
    var first := AfterUpload(remote, Upload(b, site));
    var second := AfterUploads(first, others);
    OwnUploadIsFiled(remote, b, site);
    assert forall u | u in others :: u in others + later;
    assert forall u | u in later :: u in others + later;
    HarmlessUploadsKeepFile(first, others, b);
    HarmlessUploadsKeepFile(second, later, b);
    UploadArrives(second, b, names, files, c, target, uid);
    RecreatedStaysFaithful(b, target, uid, history, log, j);
    SameMetadataWritesNothing(AfterUploads(second, later), b, history[j], here);
  }
}
