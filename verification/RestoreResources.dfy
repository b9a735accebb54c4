/** What reconciling the resources of a restore leaves behind: repeating it changes nothing, and the
    restored VM finds its secrets. */
module RestoreResources {
  import opened Outcomes
  import opened Objects
  import opened Volumes
  import opened Secrets
  import opened PvcOwnership
  import opened RestoreWriters
  import opened RestorePass

  // Repeating the pass

  ghost predicate Keeps(before: map<string, Claim>, after: map<string, Claim>) {
    forall n | n in before :: n in after && after[n] == before[n]
  }

  /** A successful look at the volumes finds them again in any cluster that still has the claims, without a write. */
  lemma {:induction false} VolumesAgain(safe: Joined, c: Cluster, b: Backup, n: nat, e: Cluster)
    requires Lists(c, n) && b.status.Some? && VolumesSeen(safe, c, b, n).1.Ok?
    requires e.restore == c.restore && Keeps(VolumesSeen(safe, c, b, n).0.claims, e.claims)
    ensures VolumesSeen(safe, e, b, n) == (e, VolumesSeen(safe, c, b, n).1)
    ensures Keeps(c.claims, VolumesSeen(safe, c, b, n).0.claims)
  {
    if n > 0 {
      var (d, ready) := VolumesSeen(safe, c, b, n - 1);
      assert ready.Ok?;
      var name := c.restore.status.value.volumes[n - 1].claimName;
      var after := VolumeSeen(safe, d, b, n - 1, ready.value).0;
      assert after.claims == (if name in d.claims then d.claims else d.claims[name := after.claims[name]]);
      VolumesAgain(safe, c, b, n - 1, e);
    }
  }

  lemma {:induction false} SecretsGrow(c: Cluster, backups: seq<SecretBackup>, rename: Hex)
    ensures SecretsSeen(c, backups, rename).secrets == Written(c.secrets, backups, rename)
    ensures SecretsSeen(c, backups, rename).writes >= c.writes
    ensures SecretsSeen(c, backups, rename).writes == c.writes ==> SecretsSeen(c, backups, rename) == c
  {
    if backups != [] {
      var last := backups[|backups| - 1];
      SecretsGrow(c, backups[..|backups| - 1], rename);
      assert Written(c.secrets, backups, rename) ==
        Written(c.secrets, backups[..|backups| - 1], rename)[rename(last.name) := last.data];
    }
  }

  /** Writing the secrets issues no write exactly when each is already there with its data. */
  lemma {:induction false} SecretsQuiet(c: Cluster, backups: seq<SecretBackup>, rename: Hex)
    ensures SecretsSeen(c, backups, rename).writes == c.writes <==> AllHeld(c.secrets, backups, rename)
  {
    if backups != [] {
      var n := |backups| - 1;
      SecretsQuiet(c, backups[..n], rename);
      SecretsGrow(c, backups[..n], rename);
      assert AllHeld(c.secrets, backups, rename) <==>
        AllHeld(c.secrets, backups[..n], rename) && rename(backups[n].name) in c.secrets &&
          c.secrets[rename(backups[n].name)] == backups[n].data by {
        assert forall i | 0 <= i < n :: backups[..n][i] == backups[i];
      }
    }
  }

  ghost predicate SameNameSameData(backups: seq<SecretBackup>, rename: Hex) {
    forall i, j | 0 <= i < j < |backups| && rename(backups[i].name) == rename(backups[j].name) ::
      backups[i].data == backups[j].data
  }

  /** After a successful run a second one, with nothing in between, gives the same answer; it writes nothing,
      and so changes nothing, exactly when secrets that end up under one name carry the same data. Neither
      run touches the stored backup. */
  lemma ResourcesAgain(hex: Hex, safe: Joined, c: Cluster, b: Backup, uid: string, uid2: string)
    requires Lists(c, 0) && Usable(b) && ResourcesSeen(hex, safe, c, b, uid).1.Ok?
    ensures var (d, r) := ResourcesSeen(hex, safe, c, b, uid);
      var (e, r2) := ResourcesSeen(hex, safe, d, b, uid2);
      && r2 == r && d.backup == c.backup && e.backup == c.backup
      && (e.writes == d.writes <==> SameNameSameData(b.status.value.secrets, Rename(hex, c.restore)))
      && (e.writes == d.writes ==> e == d)
  {
    var n := |c.restore.status.value.volumes|;
    var (v, bound) := VolumesSeen(safe, c, b, n);
    var (w, vm) := VmSeen(hex, v, b, uid);
    WrittenVmHasMark(hex, v, b, uid);
    var rename, backups := Rename(hex, c.restore), b.status.value.secrets;
    var d := SecretsSeen(w, backups, rename);
    VolumesAgain(safe, c, b, n, d);
    assert VmSeen(hex, d, b, uid2) == (d, vm);
    SecretsGrow(w, backups, rename);
    SecretsGrow(d, backups, rename);
    SecretsQuiet(d, backups, rename);
    WrittenHoldsAll(w.secrets, backups, rename);
  }

  lemma WrittenVmHasMark(hex: Hex, c: Cluster, b: Backup, uid: string)
    requires Lists(c, 0) && Usable(b)
    ensures var (d, vm) := VmSeen(hex, c, b, uid); d.vm == Some(vm) && RestoredBy(d.restore, vm)
  {
    KeysDiffer();
  }

  // Secrets

  /** The reference is set exactly where the source's was, and finds what is not empty in the source's secret. */
  ghost predicate Finds(name: Option<string>, secrets: map<string, Data>, was: Option<string>,
        original: map<string, Data>) {
    (name.Some? <==> was.Some?) &&
    (name.Some? && was.Some? ==>
      was.value in original && name.value in secrets && HoldsNonEmpty(secrets[name.value], original[was.value]))
  }

  ghost predicate CredentialFinds(c: Credential, secrets: map<string, Data>, was: Credential,
        original: map<string, Data>) {
    Finds(c.sshKey, secrets, was.sshKey, original) && Finds(c.userPassword, secrets, was.userPassword, original)
  }

  ghost predicate VolumeFinds(v: Volume, secrets: map<string, Data>, was: Volume, original: map<string, Data>) {
    (v.cloudInit.Some? <==> was.cloudInit.Some?) &&
    (v.cloudInit.Some? && was.cloudInit.Some? ==>
      && Finds(v.cloudInit.value.userData, secrets, was.cloudInit.value.userData, original)
      && Finds(v.cloudInit.value.networkData, secrets, was.cloudInit.value.networkData, original))
  }

  /** Every SSH key, user password, user data and network data of the spec finds the non-empty data of the secret
      that the source refers to at the same place. */
  ghost predicate Resolved(spec: VmSpec, secrets: map<string, Data>, source: VmSpec, original: map<string, Data>) {
    && |spec.credentials| == |source.credentials| && |spec.volumes| == |source.volumes|
    && (forall i | 0 <= i < |source.credentials| ::
          CredentialFinds(spec.credentials[i], secrets, source.credentials[i], original))
    && (forall i | 0 <= i < |source.volumes| :: VolumeFinds(spec.volumes[i], secrets, source.volumes[i], original))
  }

  /** A secret of the source under its new name, or under its own. */
  function RefName(hex: Hex, r: Restore, renamed: bool): Hex {
    if renamed then name => SecretRefName(hex, r.spec.targetName, name) else name => name
  }

  function Named(hex: Hex, r: Restore, renamed: bool, was: Option<string>): Option<string> {
    if was.Some? then Some(RefName(hex, r, renamed)(was.value)) else None
  }

  predicate CredentialNames(hex: Hex, r: Restore, renamed: bool, c: Credential, was: Credential) {
    c.sshKey == Named(hex, r, renamed, was.sshKey) && c.userPassword == Named(hex, r, renamed, was.userPassword)
  }

  predicate VolumeNames(hex: Hex, r: Restore, renamed: bool, v: Volume, was: Volume) {
    if was.cloudInit.None? then v.cloudInit.None?
    else
      && v.cloudInit.Some? && v.cloudInit.value.userData == Named(hex, r, renamed, was.cloudInit.value.userData)
      && v.cloudInit.value.networkData == Named(hex, r, renamed, was.cloudInit.value.networkData)
  }

  /** Field by field, the spec refers to the source's secrets all by their new names, or all by their own. */
  ghost predicate NamesAll(hex: Hex, r: Restore, renamed: bool, spec: VmSpec, source: VmSpec) {
    && |spec.credentials| == |source.credentials| && |spec.volumes| == |source.volumes|
    && (forall i | 0 <= i < |source.credentials| ::
          CredentialNames(hex, r, renamed, spec.credentials[i], source.credentials[i]))
    && (forall i | 0 <= i < |source.volumes| :: VolumeNames(hex, r, renamed, spec.volumes[i], source.volumes[i]))
  }

  /** How the VM names them that a pass goes on with: as found if the restore has marked it, by new names if
      it is absent, by their own if it exists. */
  ghost predicate WillName(hex: Hex, r: Restore, vm: Option<Vm>, source: VmSpec, renamed: bool) {
    if vm.Some? && RestoredBy(r, vm.value) then NamesAll(hex, r, renamed, vm.value.spec, source) else renamed <==>
      vm.None?
  }

  lemma SeenVmNames(hex: Hex, c: Cluster, b: Backup, uid: string, renamed: bool)
    requires Lists(c, 0) && Usable(b) && WillName(hex, c.restore, c.vm, b.status.value.source.value.spec, renamed)
    ensures NamesAll(hex, c.restore, renamed, VmSeen(hex, c, b, uid).1.spec, b.status.value.source.value.spec)
  {
  }

  /** Distinct secrets get distinct new names. */
  ghost predicate Distinguishes(hex: Hex, names: seq<string>) {
    forall m, n | m in names && n in names && hex(m) == hex(n) :: m == n
  }

  lemma BackupsWritten(hex: Hex, r: Restore, secrets: map<string, Data>, refs: seq<string>,
        original: map<string, Data>, n: string)
    requires SecretBackups(refs, original).Ok? && Distinguishes(hex, refs) && n in refs
    ensures n in original
    ensures var out := Written(secrets, SecretBackups(refs, original).value, Rename(hex, r));
      Rename(hex, r)(n) in out && out[Rename(hex, r)(n)] == NonEmpty(original[n])
  {
    var backups, rename := SecretBackups(refs, original).value, Rename(hex, r);
    SecretBackupsAreTheRefs(refs, original);
    forall i, j | 0 <= i < j < |backups|
      ensures rename(backups[i].name) != rename(backups[j].name)
    {
      assert backups[i] in backups && backups[j] in backups;
      SecretRefNamesDiffer(hex, r.spec.targetName, backups[i].name, backups[j].name);
    }
    WrittenHoldsAll(secrets, backups, rename);
    var sb :| sb in backups && sb.name == n;
    var i :| 0 <= i < |backups| && backups[i] == sb;
  }

  /** The data a name will hold once the secrets are written: that of the source secret written under it, if
      there is one, and else what is there already. */
  ghost predicate HoldsAfter(hex: Hex, r: Restore, secrets: map<string, Data>, refs: seq<string>,
        original: map<string, Data>, name: string, data: Data)
    requires forall n | n in refs :: n in original
  {
    if exists m :: m in refs && Rename(hex, r)(m) == name
    then forall m | m in refs && Rename(hex, r)(m) == name :: NonEmpty(original[m]) == data
    else name in secrets && secrets[name] == data
  }

  lemma HoldsAfterIsWritten(hex: Hex, r: Restore, secrets: map<string, Data>, refs: seq<string>,
        original: map<string, Data>, name: string, data: Data)
    requires (forall n | n in refs :: n in original) && SecretBackups(refs, original).Ok? && Distinguishes(hex, refs)
    ensures var out := Written(secrets, SecretBackups(refs, original).value, Rename(hex, r));
      name in out && out[name] == data <==> HoldsAfter(hex, r, secrets, refs, original, name, data)
  {
    if m :| m in refs && Rename(hex, r)(m) == name {
      BackupsWritten(hex, r, secrets, refs, original, m);
      forall k | k in refs && Rename(hex, r)(k) == name
        ensures k == m
      {
        SecretRefNamesDiffer(hex, r.spec.targetName, k, m);
      }
    } else {
      SecretBackupsAreTheRefs(refs, original);
      WrittenElsewhere(secrets, SecretBackups(refs, original).value, Rename(hex, r), name);
    }
  }

  /** The backup holds the secrets of its source as they were, under distinguishable names. */
  ghost predicate BacksUp(hex: Hex, b: Backup, original: map<string, Data>)
    requires Usable(b)
  {
    var refs := SecretRefs(b.status.value.source.value.spec);
    SecretBackups(refs, original) == Ok(b.status.value.secrets) && Distinguishes(hex, refs) && forall n | n in refs ::
      n in original
  }

  /** After any successful pass, over a target that is absent, found, or marked by an earlier pass, the VM's
      references resolve exactly when each name it uses holds the right data once the secrets are written. */
  lemma SecretsResolveExactly(hex: Hex, safe: Joined, c: Cluster, b: Backup, uid: string, original: map<string, Data>,
        renamed: bool)
    requires Lists(c, 0) && Usable(b) && BacksUp(hex, b, original)
    requires WillName(hex, c.restore, c.vm, b.status.value.source.value.spec, renamed)
    ensures var (d, r) := ResourcesSeen(hex, safe, c, b, uid);
      var source := b.status.value.source.value.spec;
      r.Ok? ==>
        (Resolved(r.value.vm.spec, d.secrets, source, original) <==>
         EachHolds(hex, c.restore, c.secrets, SecretRefs(source), original, renamed))
  {
    if ResourcesSeen(hex, safe, c, b, uid).1.Ok? {
      var source := b.status.value.source.value.spec;
      var v := VolumesSeen(safe, c, b, |c.restore.status.value.volumes|).0;
      var (w, vm) := VmSeen(hex, v, b, uid);
      SeenVmNames(hex, v, b, uid, renamed);
      SecretsGrow(w, b.status.value.secrets, Rename(hex, c.restore));
      var out := Written(c.secrets, b.status.value.secrets, Rename(hex, c.restore));
      ResolvedByName(hex, c.restore, renamed, vm.spec, out, source, original);
      forall n | n in SecretRefs(source)
        ensures HeldByName(hex, c.restore, renamed, out, original, n) <==>
          HoldsAfter(hex, c.restore, c.secrets, SecretRefs(source), original, RefName(hex, c.restore, renamed)(n),
            NonEmpty(original[n]))
      {
        HoldsAfterIsWritten(hex, c.restore, c.secrets, SecretRefs(source), original,
          RefName(hex, c.restore, renamed)(n), NonEmpty(original[n]));
      }
    }
  }

  /** Each name the VM uses will hold the data of the secret it stands for. */
  ghost predicate EachHolds(hex: Hex, r: Restore, secrets: map<string, Data>, refs: seq<string>,
        original: map<string, Data>, renamed: bool)
    requires forall n | n in refs :: n in original
  {
    forall n | n in refs ::
      HoldsAfter(hex, r, secrets, refs, original, RefName(hex, r, renamed)(n), NonEmpty(original[n]))
  }

  /** The name of source secret n holds the data it had. */
  ghost predicate HeldByName(hex: Hex, r: Restore, renamed: bool, secrets: map<string, Data>,
        original: map<string, Data>, n: string)
    requires n in original
  {
    RefName(hex, r, renamed)(n) in secrets && secrets[RefName(hex, r, renamed)(n)] == NonEmpty(original[n])
  }

  lemma NamedFinds(hex: Hex, r: Restore, renamed: bool, secrets: map<string, Data>, original: map<string, Data>,
        was: Option<string>)
    requires was.Some? ==> was.value in original
    ensures Finds(Named(hex, r, renamed, was), secrets, was, original) <==>
      was.Some? ==> HeldByName(hex, r, renamed, secrets, original, was.value)
  {
    if was.Some? && RefName(hex, r, renamed)(was.value) in secrets {
      NonEmptyExactly(secrets[RefName(hex, r, renamed)(was.value)], original[was.value]);
    }
  }

  lemma FieldsAreRefs(source: VmSpec)
    ensures forall c, n | c in source.credentials && MentionedByCredential(c, n) :: n in SecretRefs(source)
    ensures forall v, n | v in source.volumes && MentionedByVolume(v, n) :: n in SecretRefs(source)
    ensures forall n | n in SecretRefs(source) ::
      || (exists i :: 0 <= i < |source.credentials| && MentionedByCredential(source.credentials[i], n))
      || (exists i :: 0 <= i < |source.volumes| && MentionedByVolume(source.volumes[i], n))
  {
    forall n
      ensures n in AllCredentialRefs(source.credentials) <==>
        exists i :: 0 <= i < |source.credentials| && MentionedByCredential(source.credentials[i], n)
    {
      CredentialRefsExactly(source.credentials, n);
    }
    forall n
      ensures n in AllVolumeRefs(source.volumes) <==>
        exists i :: 0 <= i < |source.volumes| && MentionedByVolume(source.volumes[i], n)
    {
      VolumeRefsExactly(source.volumes, n);
    }
  }

  lemma CredentialResolves(hex: Hex, r: Restore, renamed: bool, secrets: map<string, Data>,
        original: map<string, Data>, c: Credential, was: Credential)
    requires CredentialNames(hex, r, renamed, c, was) && forall n | MentionedByCredential(was, n) :: n in original
    ensures CredentialFinds(c, secrets, was, original) <==>
      forall n | MentionedByCredential(was, n) :: HeldByName(hex, r, renamed, secrets, original, n)
  {
    assert was.sshKey.Some? ==> MentionedByCredential(was, was.sshKey.value);
    assert was.userPassword.Some? ==> MentionedByCredential(was, was.userPassword.value);
    NamedFinds(hex, r, renamed, secrets, original, was.sshKey);
    NamedFinds(hex, r, renamed, secrets, original, was.userPassword);
  }

  lemma VolumeResolves(hex: Hex, r: Restore, renamed: bool, secrets: map<string, Data>,
        original: map<string, Data>, v: Volume, was: Volume)
    requires VolumeNames(hex, r, renamed, v, was) && forall n | MentionedByVolume(was, n) :: n in original
    ensures VolumeFinds(v, secrets, was, original) <==>
      forall n | MentionedByVolume(was, n) :: HeldByName(hex, r, renamed, secrets, original, n)
  {
    if was.cloudInit.Some? {
      var cloud := was.cloudInit.value;
      assert cloud.userData.Some? ==> MentionedByVolume(was, cloud.userData.value);
      assert cloud.networkData.Some? ==> MentionedByVolume(was, cloud.networkData.value);
      NamedFinds(hex, r, renamed, secrets, original, cloud.userData);
      NamedFinds(hex, r, renamed, secrets, original, cloud.networkData);
    }
  }

  /** References named one way resolve exactly when the name of each source secret holds its data. */
  lemma ResolvedByName(hex: Hex, r: Restore, renamed: bool, spec: VmSpec, secrets: map<string, Data>, source: VmSpec,
        original: map<string, Data>)
    requires NamesAll(hex, r, renamed, spec, source) && forall n | n in SecretRefs(source) :: n in original
    ensures Resolved(spec, secrets, source, original) <==>
      forall n | n in SecretRefs(source) :: HeldByName(hex, r, renamed, secrets, original, n)
  {
    FieldsAreRefs(source);
    forall i | 0 <= i < |source.credentials|
      ensures CredentialFinds(spec.credentials[i], secrets, source.credentials[i], original) <==>
        forall n | MentionedByCredential(source.credentials[i], n) :: HeldByName(hex, r, renamed, secrets, original, n)
    {
      CredentialResolves(hex, r, renamed, secrets, original, spec.credentials[i], source.credentials[i]);
    }
    forall i | 0 <= i < |source.volumes|
      ensures VolumeFinds(spec.volumes[i], secrets, source.volumes[i], original) <==>
        forall n | MentionedByVolume(source.volumes[i], n) :: HeldByName(hex, r, renamed, secrets, original, n)
    {
      VolumeResolves(hex, r, renamed, secrets, original, spec.volumes[i], source.volumes[i]);
    }
  }

  /** Secret closure: when a new VM is asked for exactly if the target is absent, or the VM a former pass marked
      names its secrets accordingly, every reference resolves to a secret with the source's non-empty data. */
  lemma SecretsResolve(hex: Hex, safe: Joined, c: Cluster, b: Backup, uid: string, original: map<string, Data>)
    requires Lists(c, 0) && Usable(b) && ResourcesSeen(hex, safe, c, b, uid).1.Ok? && BacksUp(hex, b, original)
    requires WillName(hex, c.restore, c.vm, b.status.value.source.value.spec, c.restore.spec.newVm)
    ensures var (d, r) := ResourcesSeen(hex, safe, c, b, uid);
      Resolved(r.value.vm.spec, d.secrets, b.status.value.source.value.spec, original)
  {
    var refs := SecretRefs(b.status.value.source.value.spec);
    SecretsResolveExactly(hex, safe, c, b, uid, original, c.restore.spec.newVm);
    forall n | n in refs
      ensures HoldsAfter(hex, c.restore, c.secrets, refs, original, Rename(hex, c.restore)(n), NonEmpty(original[n]))
    {
      forall m | m in refs && Rename(hex, c.restore)(m) == Rename(hex, c.restore)(n)
        ensures m == n
      {
        SecretRefNamesDiffer(hex, c.restore.spec.targetName, m, n);
      }
      assert n in refs && Rename(hex, c.restore)(n) == Rename(hex, c.restore)(n);
    }
  }

  /** None of the names, old or new, is in use yet, and no old name is another's new name. */
  ghost predicate NamesUnused(hex: Hex, r: Restore, secrets: map<string, Data>, refs: seq<string>) {
    && (forall n | n in refs :: n !in secrets && SecretRefName(hex, r.spec.targetName, n) !in secrets)
    && (forall m, n | m in refs && n in refs :: m != SecretRefName(hex, r.spec.targetName, n))
  }

  /** While the names are unused the references resolve only under that condition: otherwise they all dangle. */
  lemma SecretsDangle(hex: Hex, safe: Joined, c: Cluster, b: Backup, uid: string, original: map<string, Data>,
        renamed: bool)
    requires Lists(c, 0) && Usable(b) && BacksUp(hex, b, original)
    requires WillName(hex, c.restore, c.vm, b.status.value.source.value.spec, renamed)
    ensures var (d, r) := ResourcesSeen(hex, safe, c, b, uid);
      var source := b.status.value.source.value.spec;
      r.Ok? && NamesUnused(hex, c.restore, c.secrets, SecretRefs(source)) ==>
        (Resolved(r.value.vm.spec, d.secrets, source, original) <==>
          SecretRefs(source) == [] || (c.restore.spec.newVm <==> renamed))
  {
    var refs := SecretRefs(b.status.value.source.value.spec);
    if ResourcesSeen(hex, safe, c, b, uid).1.Ok? && NamesUnused(hex, c.restore, c.secrets, refs) {
      SecretsResolveExactly(hex, safe, c, b, uid, original, renamed);
      if c.restore.spec.newVm <==> renamed {
        SecretsResolve(hex, safe, c, b, uid, original);
      } else if refs != [] {
        assert refs[0] in refs;
        assert !HoldsAfter(hex, c.restore, c.secrets, refs, original, RefName(hex, c.restore, renamed)(refs[0]),
          NonEmpty(original[refs[0]]));
      }
    }
  }

  // Secrets over several passes

  /** What may happen to the target besides the restore's passes: none is created, an unmarked one stays and
      may be changed, a marked one keeps its mark and its spec. */
  predicate TargetLeft(r: Restore, before: Option<Vm>, after: Option<Vm>) {
    if before.None? then after.None?
    else if !RestoredBy(r, before.value) then after.Some? && !RestoredBy(r, after.value)
    else after.Some? && RestoredBy(r, after.value) && after.value.spec == before.value.spec
  }

  /** From one moment to the next a pass writes the VM, or only other things happen. Secrets and claims may
      have been written in part, as by a pass that failed or died at any point, or not at all. */
  ghost predicate GoesOn(hex: Hex, b: Backup, c: Cluster, d: Cluster)
    requires Usable(b)
  {
    Lists(c, 0) && SameRestore(c.restore, d.restore) &&
    (TargetLeft(c.restore, c.vm, d.vm) || exists uid :: d.vm == Some(VmSeen(hex, c, b, uid).1))
  }

  lemma GoingOnKeepsNames(hex: Hex, b: Backup, c: Cluster, d: Cluster, renamed: bool)
    requires Usable(b) && GoesOn(hex, b, c, d) &&
      WillName(hex, c.restore, c.vm, b.status.value.source.value.spec, renamed)
    ensures WillName(hex, d.restore, d.vm, b.status.value.source.value.spec, renamed)
  {
    if !TargetLeft(c.restore, c.vm, d.vm) {
      var uid :| d.vm == Some(VmSeen(hex, c, b, uid).1);
      SeenVmNames(hex, c, b, uid, renamed);
      WrittenVmHasMark(hex, c, b, uid);
    }
  }

  /** A restore that asks for a new VM exactly if the target is absent when it starts has its secrets closed by
      every pass that succeeds, however many passes wrote the VM and failed or died before. */
  lemma {:induction false} EverySuccessClosesSecrets(hex: Hex, safe: Joined, cs: seq<Cluster>, b: Backup, uid: string,
        original: map<string, Data>)
    requires cs != [] && Usable(b) && BacksUp(hex, b, original)
    requires forall i | 0 <= i < |cs| - 1 :: GoesOn(hex, b, cs[i], cs[i + 1])
    requires (cs[0].vm.Some? ==> !RestoredBy(cs[0].restore, cs[0].vm.value)) && (cs[0].restore.spec.newVm <==>
      cs[0].vm.None?)
    requires var last := cs[|cs| - 1]; Lists(last, 0) && ResourcesSeen(hex, safe, last, b, uid).1.Ok?
    ensures var (d, r) := ResourcesSeen(hex, safe, cs[|cs| - 1], b, uid);
      Resolved(r.value.vm.spec, d.secrets, b.status.value.source.value.spec, original)
  {
    NamesStay(hex, b, cs, |cs| - 1);
    SecretsResolve(hex, safe, cs[|cs| - 1], b, uid, original);
  }

  lemma {:induction false} NamesStay(hex: Hex, b: Backup, cs: seq<Cluster>, k: nat)
    requires Usable(b) && k < |cs|
    requires forall i | 0 <= i < |cs| - 1 :: GoesOn(hex, b, cs[i], cs[i + 1])
    requires WillName(hex, cs[0].restore, cs[0].vm, b.status.value.source.value.spec, cs[0].restore.spec.newVm)
    ensures cs[k].restore.spec == cs[0].restore.spec
    ensures WillName(hex, cs[k].restore, cs[k].vm, b.status.value.source.value.spec, cs[0].restore.spec.newVm)
  {
    if k > 0 {
      NamesStay(hex, b, cs, k - 1);
      assert GoesOn(hex, b, cs[k - 1], cs[k - 1 + 1]);
      GoingOnKeepsNames(hex, b, cs[k - 1], cs[k], cs[0].restore.spec.newVm);
    }
  }

  // Claims

  predicate DistinctClaims(vrs: seq<VolumeRestore>, n: nat)
    requires n <= |vrs|
  {
    forall i, j | 0 <= i < j < n :: vrs[i].claimName != vrs[j].claimName
  }

  function MadeFrom(safe: Joined, r: Restore, vb: VolumeBackup): Claim
    requires vb.name.Some?
  {
    Claim(Pending, false, RestoredAnnotations(vb.claim.annotations, r.name),
          if r.namespace == vb.claim.namespace then vb.name.value else safe(["restore", r.name, vb.name.value]))
  }

  lemma MissingClaimIsMade(safe: Joined, c: Cluster, b: Backup, i: nat, ready: bool)
    requires Lists(c, i + 1) && b.status.Some? && VolumeSeen(safe, c, b, i, ready).1.Ok?
    ensures var (d, now) := VolumeSeen(safe, c, b, i, ready);
      var name := c.restore.status.value.volumes[i].claimName;
      && (now.value ==> ready) && d.claims.Keys == c.claims.Keys + {name}
      && (forall n | n in c.claims :: d.claims[n] == c.claims[n])
      && (name !in c.claims ==>
           !now.value && i < |b.status.value.volumes| && b.status.value.volumes[i].name.Some? &&
           d.claims[name] == MadeFrom(safe, c.restore, b.status.value.volumes[i]))
  {
  }

  /** A claim the pass had to make is Pending, owned by nobody, and made from its own volume's snapshot: the
      backup's in the backup's namespace, the restore's copy of it elsewhere. */
  lemma {:induction false} ClaimsFromSnapshots(safe: Joined, c: Cluster, b: Backup, n: nat, i: nat)
    requires Lists(c, n) && b.status.Some? && VolumesSeen(safe, c, b, n).1.Ok? && i < n
    requires DistinctClaims(c.restore.status.value.volumes, n)
    requires c.restore.status.value.volumes[i].claimName !in c.claims
    ensures i < |b.status.value.volumes| && b.status.value.volumes[i].name.Some?
    ensures var (d, ready) := VolumesSeen(safe, c, b, n);
      var name := c.restore.status.value.volumes[i].claimName;
      name in d.claims && !ready.value && d.claims[name] == MadeFrom(safe, c.restore, b.status.value.volumes[i])
  {
    var (d, ready) := VolumesSeen(safe, c, b, n - 1);
    assert ready.Ok?;
    MissingClaimIsMade(safe, d, b, n - 1, ready.value);
    if i < n - 1 {
      ClaimsFromSnapshots(safe, c, b, n - 1, i);
    } else {
      NotMadeBefore(safe, c, b, n - 1, c.restore.status.value.volumes[i].claimName);
    }
  }

  lemma {:induction false} NotMadeBefore(safe: Joined, c: Cluster, b: Backup, n: nat, name: string)
    requires Lists(c, n) && b.status.Some? && name !in c.claims && VolumesSeen(safe, c, b, n).1.Ok?
    requires forall i | 0 <= i < n :: c.restore.status.value.volumes[i].claimName != name
    ensures name !in VolumesSeen(safe, c, b, n).0.claims
  {
    if n > 0 {
      var (d, ready) := VolumesSeen(safe, c, b, n - 1);
      assert ready.Ok?;
      NotMadeBefore(safe, c, b, n - 1, name);
      MissingClaimIsMade(safe, d, b, n - 1, ready.value);
    }
  }

  /** The snapshot a claim was made from elsewhere is there, copied from a content that was there or was made. */
  predicate HasCopy(safe: Joined, c: Cluster, d: Cluster, vb: VolumeBackup)
    requires vb.name.Some?
  {
    var copy, content := safe(["restore", c.restore.name, vb.name.value]), safe(["restore", c.restore.namespace,
      c.restore.name, vb.name.value]);
    && copy in d.snapshots
    && (copy !in c.snapshots ==> content in d.contents)
    && (copy !in c.snapshots && content !in c.contents ==>
          vb.longhornBackup.Some? && vb.longhornBackup.value in c.longhorn)
  }

  predicate OnlyGrows(c: Cluster, d: Cluster) {
    d.restore == c.restore && c.snapshots <= d.snapshots && c.contents <= d.contents && d.longhorn == c.longhorn
  }

  lemma VolumeSeenCopies(safe: Joined, c: Cluster, b: Backup, i: nat, ready: bool)
    requires Lists(c, i + 1) && b.status.Some?
    ensures var (d, seen) := VolumeSeen(safe, c, b, i, ready);
      && OnlyGrows(c, d)
      && (seen.Ok? && c.restore.status.value.volumes[i].claimName !in c.claims && i < |b.status.value.volumes| &&
          b.status.value.volumes[i].claim.namespace != c.restore.namespace ==>
            b.status.value.volumes[i].name.Some? && HasCopy(safe, c, d, b.status.value.volumes[i]))
  {
  }

  /** The copy that a claim in another namespace is made from exists after the pass; no copy is ever removed. */
  lemma {:induction false} CopiesAreMade(safe: Joined, c: Cluster, b: Backup, n: nat, i: nat)
    requires Lists(c, n) && b.status.Some? && VolumesSeen(safe, c, b, n).1.Ok? && i < n
    requires DistinctClaims(c.restore.status.value.volumes, n)
    requires c.restore.status.value.volumes[i].claimName !in c.claims
    ensures i < |b.status.value.volumes| && b.status.value.volumes[i].name.Some?
    ensures OnlyGrows(c, VolumesSeen(safe, c, b, n).0)
    ensures b.status.value.volumes[i].claim.namespace != c.restore.namespace ==>
      safe(["restore", c.restore.name, b.status.value.volumes[i].name.value]) in VolumesSeen(safe, c, b, n).0.snapshots
  {
    ClaimsFromSnapshots(safe, c, b, n, i);
    var (d, ready) := VolumesSeen(safe, c, b, n - 1);
    assert ready.Ok?;
    VolumeSeenCopies(safe, d, b, n - 1, ready.value);
    if i < n - 1 {
      CopiesAreMade(safe, c, b, n - 1, i);
    } else {
      VolumesSeenGrow(safe, c, b, n - 1);
      NotMadeBefore(safe, c, b, n - 1, c.restore.status.value.volumes[i].claimName);
    }
  }

  lemma {:induction false} VolumesSeenGrow(safe: Joined, c: Cluster, b: Backup, n: nat)
    requires Lists(c, n) && b.status.Some?
    ensures OnlyGrows(c, VolumesSeen(safe, c, b, n).0)
  {
    if n > 0 {
      VolumesSeenGrow(safe, c, b, n - 1);
      var (d, ready) := VolumesSeen(safe, c, b, n - 1);
      if ready.Ok? {
        VolumeSeenCopies(safe, d, b, n - 1, ready.value);
      }
    }
  }
}
