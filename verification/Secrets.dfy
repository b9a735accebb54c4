/** The secrets a VM refers to: collected into a backup, renamed in a restored spec, written back. */
module Secrets {
  import opened Outcomes
  import opened Objects

  // Collecting

  function Listed(name: Option<string>): seq<string> {
    if name.Some? then [name.value] else []
  }

  function CredentialRefs(c: Credential): seq<string> {
    Listed(c.sshKey) + Listed(c.userPassword)
  }

  function VolumeRefs(v: Volume): seq<string> {
    if v.cloudInit.Some? then Listed(v.cloudInit.value.userData) + Listed(v.cloudInit.value.networkData) else []
  }

  function AllCredentialRefs(cs: seq<Credential>): seq<string> {
    if cs == [] then [] else AllCredentialRefs(cs[..|cs| - 1]) + CredentialRefs(cs[|cs| - 1])
  }

  function AllVolumeRefs(vs: seq<Volume>): seq<string> {
    if vs == [] then [] else AllVolumeRefs(vs[..|vs| - 1]) + VolumeRefs(vs[|vs| - 1])
  }

  /** Every secret name the spec mentions, with repetitions. */
  function SecretRefs(spec: VmSpec): seq<string> {
    AllCredentialRefs(spec.credentials) + AllVolumeRefs(spec.volumes)
  }

  predicate MentionedByCredential(c: Credential, name: string) {
    c.sshKey == Some(name) || c.userPassword == Some(name)
  }

  predicate MentionedByVolume(v: Volume, name: string) {
    v.cloudInit.Some? && (v.cloudInit.value.userData == Some(name) || v.cloudInit.value.networkData == Some(name))
  }

  /** The names collected are those in the SSH-key and user-password fields of the credentials and the user-data
      and network-data fields of the cloud-init volumes. */
  lemma SecretRefsExactly(spec: VmSpec, name: string)
    ensures name in SecretRefs(spec) <==>
      || (exists c :: c in spec.credentials && (c.sshKey == Some(name) || c.userPassword == Some(name)))
      || (exists v :: v in spec.volumes && v.cloudInit.Some? &&
           (v.cloudInit.value.userData == Some(name) || v.cloudInit.value.networkData == Some(name)))
  {
    CredentialRefsExactly(spec.credentials, name);
    VolumeRefsExactly(spec.volumes, name);
    assert (exists c :: c in spec.credentials && MentionedByCredential(c, name)) <==>
      (exists c :: c in spec.credentials && (c.sshKey == Some(name) || c.userPassword == Some(name)));
  }

  lemma {:induction false} CredentialRefsExactly(cs: seq<Credential>, name: string)
    ensures name in AllCredentialRefs(cs) <==> exists c :: c in cs && MentionedByCredential(c, name)
  {
    if cs != [] {
      var front, last := cs[..|cs| - 1], cs[|cs| - 1];
      CredentialRefsExactly(front, name);
      assert cs == front + [last];
      assert name in CredentialRefs(last) <==> MentionedByCredential(last, name);
    }
  }

  lemma {:induction false} VolumeRefsExactly(vs: seq<Volume>, name: string)
    ensures name in AllVolumeRefs(vs) <==> exists v :: v in vs && MentionedByVolume(v, name)
  {
    if vs != [] {
      var front, last := vs[..|vs| - 1], vs[|vs| - 1];
      VolumeRefsExactly(front, name);
      assert vs == front + [last];
      assert name in VolumeRefs(last) <==> MentionedByVolume(last, name);
    }
  }

  /** Holding the original's entries that are not empty, and no others. */
  ghost predicate HoldsNonEmpty(data: Data, original: Data) {
    (forall k :: k in data <==> k in original && original[k] != "") && forall k | k in data :: data[k] == original[k]
  }

  lemma NonEmptyExactly(data: Data, original: Data)
    ensures HoldsNonEmpty(data, original) <==> data == NonEmpty(original)
  {
  }

  function NonEmpty(data: Data): Data {
    map k | k in data && data[k] != "" :: data[k]
  }

  /** One backup per name, in order of first mention; an error as soon as a secret is missing. */
  function SecretBackups(refs: seq<string>, secrets: map<string, Data>): Outcome<seq<SecretBackup>> {
    if refs == [] then Ok([])
    else
      var front, name := refs[..|refs| - 1], refs[|refs| - 1];
      match SecretBackups(front, secrets)
      case Ok(backups) =>
        if name in front then Ok(backups)
        else if name !in secrets then Err("secret not found")
        else Ok(backups + [SecretBackup(name, NonEmpty(secrets[name]))])
      case Err(e) => Err(e)
      case Panic => Panic
  }

  method GetSecretBackups(spec: VmSpec, secrets: map<string, Data>) returns (result: Outcome<seq<SecretBackup>>)
    ensures result == SecretBackups(SecretRefs(spec), secrets)
  {
    var fromCredentials := CollectCredentialRefs(spec.credentials);
    var fromVolumes := CollectVolumeRefs(spec.volumes);
    result := BackUpOnce(fromCredentials + fromVolumes, secrets);
  }

  method CollectCredentialRefs(credentials: seq<Credential>) returns (refs: seq<string>)
    ensures refs == AllCredentialRefs(credentials)
  {
    refs := [];
    for i := 0 to |credentials|
      invariant refs == AllCredentialRefs(credentials[..i])
    {
      var credential := credentials[i];
      ghost var before := refs;
      if credential.sshKey.Some? {
        refs := refs + [credential.sshKey.value];
      }
      if credential.userPassword.Some? {
        refs := refs + [credential.userPassword.value];
      }
      assert refs == before + CredentialRefs(credential);
      assert credentials[..i + 1][..i] == credentials[..i];
    }
    assert credentials[..|credentials|] == credentials;
  }

  method CollectVolumeRefs(volumes: seq<Volume>) returns (refs: seq<string>)
    ensures refs == AllVolumeRefs(volumes)
  {
    refs := [];
    for i := 0 to |volumes|
      invariant refs == AllVolumeRefs(volumes[..i])
    {
      var volume := volumes[i];
      ghost var before := refs;
      if volume.cloudInit.Some? && volume.cloudInit.value.userData.Some? {
        refs := refs + [volume.cloudInit.value.userData.value];
      }
      if volume.cloudInit.Some? && volume.cloudInit.value.networkData.Some? {
        refs := refs + [volume.cloudInit.value.networkData.value];
      }
      assert refs == before + VolumeRefs(volume);
      assert volumes[..i + 1][..i] == volumes[..i];
    }
    assert volumes[..|volumes|] == volumes;
  }

  method BackUpOnce(refs: seq<string>, secrets: map<string, Data>) returns (result: Outcome<seq<SecretBackup>>)
    ensures result == SecretBackups(refs, secrets)
  {
    var backups := [];
    var kept: set<string> := {};
    for i := 0 to |refs|
      invariant kept == set n | n in refs[..i]
      invariant SecretBackups(refs[..i], secrets) == Ok(backups)
    {
      var name := refs[i];
      assert refs[..i + 1][..i] == refs[..i];
      if name in kept {
        continue;
      }
      if name !in secrets {
        MissingSecretErr(refs, secrets, i);
        return Err("secret not found");
      }
      kept := kept + {name};
      backups := backups + [SecretBackup(name, NonEmpty(secrets[name]))];
    }
    assert refs[..|refs|] == refs;
    result := Ok(backups);
  }

  lemma {:induction false} MissingSecretErr(refs: seq<string>, secrets: map<string, Data>, i: nat)
    requires i < |refs| && refs[i] !in secrets && refs[i] !in refs[..i]
    requires SecretBackups(refs[..i], secrets).Ok?
    ensures SecretBackups(refs, secrets) == Err("secret not found")
  {
    var n := |refs| - 1;
    if i < n {
      assert refs[..n][..i] == refs[..i];
      MissingSecretErr(refs[..n], secrets, i);
    } else {
      assert refs[..n] == refs[..i];
    }
  }

  predicate DistinctNames(backups: seq<SecretBackup>) {
    forall i, j | 0 <= i < j < |backups| :: backups[i].name != backups[j].name
  }

  /** Collection succeeds exactly when every mentioned secret exists; then it lists exactly the mentioned
      names, each once, with the non-empty part of its data. */
  lemma {:induction false} SecretBackupsAreTheRefs(refs: seq<string>, secrets: map<string, Data>)
    ensures SecretBackups(refs, secrets).Ok? <==> forall n | n in refs :: n in secrets
    ensures SecretBackups(refs, secrets).Ok? ==>
      var backups := SecretBackups(refs, secrets).value;
      DistinctNames(backups) &&
      (forall sb | sb in backups :: sb.name in refs && sb.data == NonEmpty(secrets[sb.name])) &&
      (forall n | n in refs :: exists sb :: sb in backups && sb.name == n)
  {
    if refs != [] {
      var front, name := refs[..|refs| - 1], refs[|refs| - 1];
      SecretBackupsAreTheRefs(front, secrets);
      assert refs == front + [name];
      if SecretBackups(refs, secrets).Ok? {
        var old_ := SecretBackups(front, secrets).value;
        var backups := SecretBackups(refs, secrets).value;
        forall n | n in refs
          ensures exists sb :: sb in backups && sb.name == n
        {
          if n in front {
            var sb :| sb in old_ && sb.name == n;
            assert sb in backups;
          } else {
            assert backups[|backups| - 1].name == n;
          }
        }
      }
    }
  }

  // Renaming

  /** The name a restored VM uses for a secret; `hex` is the truncated digest. */
  function SecretRefName(hex: string -> string, vmName: string, secretName: string): string {
    "vm-" + vmName + "-" + hex(secretName) + "-ref"
  }

  lemma SecretRefNamesDiffer(hex: string -> string, vmName: string, a: string, b: string)
    ensures SecretRefName(hex, vmName, a) == SecretRefName(hex, vmName, b) <==> hex(a) == hex(b)
  {
    var prefix := "vm-" + vmName + "-";
    var na, nb := SecretRefName(hex, vmName, a), SecretRefName(hex, vmName, b);
    assert na[|prefix|..|na| - 4] == hex(a);
    assert nb[|prefix|..|nb| - 4] == hex(b);
  }

  function Renamed(hex: string -> string, vmName: string, name: Option<string>): Option<string> {
    if name.Some? then Some(SecretRefName(hex, vmName, name.value)) else None
  }

  function SanitizedCredential(hex: string -> string, vmName: string, c: Credential): Credential {
    Credential(Renamed(hex, vmName, c.sshKey), Renamed(hex, vmName, c.userPassword))
  }

  function SanitizedVolume(hex: string -> string, vmName: string, v: Volume): Volume {
    if v.cloudInit.None? then v
    else v.(cloudInit := Some(CloudInit(Renamed(hex, vmName, v.cloudInit.value.userData),
      Renamed(hex, vmName, v.cloudInit.value.networkData))))
  }

  function Sanitized(hex: string -> string, vmName: string, spec: VmSpec): VmSpec {
    spec.(
      credentials := seq(|spec.credentials|, i requires 0 <= i < |spec.credentials| => SanitizedCredential(hex,
        vmName, spec.credentials[i])),
      volumes := seq(|spec.volumes|, i requires 0 <= i < |spec.volumes| => SanitizedVolume(hex, vmName,
        spec.volumes[i])))
  }

  method SanitizeForRestore(hex: string -> string, vmName: string, spec: VmSpec) returns (out: VmSpec)
    ensures out == Sanitized(hex, vmName, spec)
  {
    var credentials := spec.credentials;
    for i := 0 to |spec.credentials|
      invariant |credentials| == |spec.credentials|
      invariant forall k | 0 <= k < i :: credentials[k] == SanitizedCredential(hex, vmName, spec.credentials[k])
      invariant forall k | i <= k < |credentials| :: credentials[k] == spec.credentials[k]
    {
      var c := credentials[i];
      if c.sshKey.Some? {
        c := c.(sshKey := Some(SecretRefName(hex, vmName, c.sshKey.value)));
      }
      if c.userPassword.Some? {
        c := c.(userPassword := Some(SecretRefName(hex, vmName, c.userPassword.value)));
      }
      credentials := credentials[i := c];
    }
    var volumes := spec.volumes;
    for i := 0 to |spec.volumes|
      invariant |volumes| == |spec.volumes|
      invariant forall k | 0 <= k < i :: volumes[k] == SanitizedVolume(hex, vmName, spec.volumes[k])
      invariant forall k | i <= k < |volumes| :: volumes[k] == spec.volumes[k]
    {
      var v := volumes[i];
      if v.cloudInit.Some? {
        var cloud := v.cloudInit.value;
        if cloud.userData.Some? {
          cloud := cloud.(userData := Some(SecretRefName(hex, vmName, cloud.userData.value)));
        }
        if cloud.networkData.Some? {
          cloud := cloud.(networkData := Some(SecretRefName(hex, vmName, cloud.networkData.value)));
        }
        volumes := volumes[i := v.(cloudInit := Some(cloud))];
      }
    }
    out := spec.(credentials := credentials, volumes := volumes);
    var expected := Sanitized(hex, vmName, spec);
    assert out.credentials == expected.credentials && out.volumes == expected.volumes;
  }

  /** Position by position, the new names of the old ones. */
  predicate RenamedAll(hex: string -> string, vmName: string, refs: seq<string>, out: seq<string>) {
    |out| == |refs| && forall i | 0 <= i < |refs| :: out[i] == SecretRefName(hex, vmName, refs[i])
  }

  lemma RenamedBoth(hex: string -> string, vmName: string, a: seq<string>, a': seq<string>, b: seq<string>,
        b': seq<string>)
    requires RenamedAll(hex, vmName, a, a') && RenamedAll(hex, vmName, b, b')
    ensures RenamedAll(hex, vmName, a + b, a' + b')
  {
  }

  /** Position by position, the sanitized spec mentions the new name of what the spec mentioned. */
  lemma SanitizedRefs(hex: string -> string, vmName: string, spec: VmSpec)
    ensures RenamedAll(hex, vmName, SecretRefs(spec), SecretRefs(Sanitized(hex, vmName, spec)))
  {
    var out := Sanitized(hex, vmName, spec);
    SanitizedCredentialRefs(hex, vmName, spec.credentials, out.credentials);
    SanitizedVolumeRefs(hex, vmName, spec.volumes, out.volumes);
    RenamedBoth(hex, vmName, AllCredentialRefs(spec.credentials), AllCredentialRefs(out.credentials),
      AllVolumeRefs(spec.volumes), AllVolumeRefs(out.volumes));
  }

  lemma {:induction false} SanitizedCredentialRefs(hex: string -> string, vmName: string, cs: seq<Credential>,
        out: seq<Credential>)
    requires |out| == |cs| && forall i | 0 <= i < |cs| :: out[i] == SanitizedCredential(hex, vmName, cs[i])
    ensures RenamedAll(hex, vmName, AllCredentialRefs(cs), AllCredentialRefs(out))
  {
    if cs != [] {
      var n := |cs| - 1;
      SanitizedCredentialRefs(hex, vmName, cs[..n], out[..n]);
      var c := cs[n];
      RenamedBoth(hex, vmName, Listed(c.sshKey), Listed(out[n].sshKey), Listed(c.userPassword),
        Listed(out[n].userPassword));
      RenamedBoth(hex, vmName, AllCredentialRefs(cs[..n]), AllCredentialRefs(out[..n]), CredentialRefs(c),
        CredentialRefs(out[n]));
    }
  }

  lemma {:induction false} SanitizedVolumeRefs(hex: string -> string, vmName: string, vs: seq<Volume>, out: seq<Volume>)
    requires |out| == |vs| && forall i | 0 <= i < |vs| :: out[i] == SanitizedVolume(hex, vmName, vs[i])
    ensures RenamedAll(hex, vmName, AllVolumeRefs(vs), AllVolumeRefs(out))
  {
    if vs != [] {
      var n := |vs| - 1;
      SanitizedVolumeRefs(hex, vmName, vs[..n], out[..n]);
      SanitizedOneVolume(hex, vmName, vs[n]);
      RenamedBoth(hex, vmName, AllVolumeRefs(vs[..n]), AllVolumeRefs(out[..n]), VolumeRefs(vs[n]), VolumeRefs(out[n]));
    }
  }

  lemma SanitizedOneVolume(hex: string -> string, vmName: string, v: Volume)
    ensures RenamedAll(hex, vmName, VolumeRefs(v), VolumeRefs(SanitizedVolume(hex, vmName, v)))
  {
    if v.cloudInit.Some? {
      var was, now := v.cloudInit.value, SanitizedVolume(hex, vmName, v).cloudInit.value;
      RenamedBoth(hex, vmName, Listed(was.userData), Listed(now.userData), Listed(was.networkData),
        Listed(now.networkData));
    }
  }

  /** Rewiring claims touches no secret reference. */
  lemma {:induction false} SameCloudInitSameRefs(vs: seq<Volume>, out: seq<Volume>)
    requires |out| == |vs| && forall i | 0 <= i < |vs| :: out[i].cloudInit == vs[i].cloudInit
    ensures AllVolumeRefs(out) == AllVolumeRefs(vs)
  {
    if vs != [] {
      SameCloudInitSameRefs(vs[..|vs| - 1], out[..|vs| - 1]);
    }
  }

  // Writing back

  /** The secrets after each backup has been created or updated under its new name. */
  function Written(secrets: map<string, Data>, backups: seq<SecretBackup>, rename: string -> string)
    : map<string, Data>
  {
    if backups == [] then secrets
    else
      var last := backups[|backups| - 1];
      Written(secrets, backups[..|backups| - 1], rename)[rename(last.name) := last.data]
  }

  /** What a new name holds is the data of the last backup written under it. */
  lemma {:induction false} WrittenAt(secrets: map<string, Data>, backups: seq<SecretBackup>, rename: string -> string,
        i: nat)
    returns (l: nat)
    requires i < |backups|
    ensures i <= l < |backups| && rename(backups[l].name) == rename(backups[i].name)
    ensures rename(backups[i].name) in Written(secrets, backups, rename)
    ensures Written(secrets, backups, rename)[rename(backups[i].name)] == backups[l].data
  {
    var n := |backups| - 1;
    if rename(backups[n].name) == rename(backups[i].name) {
      l := n;
    } else {
      l := WrittenAt(secrets, backups[..n], rename, i);
    }
  }

  /** Secrets that no backup is written under are left alone. */
  lemma {:induction false} WrittenElsewhere(secrets: map<string, Data>, backups: seq<SecretBackup>,
        rename: string -> string, name: string)
    requires forall sb | sb in backups :: rename(sb.name) != name
    ensures name in Written(secrets, backups, rename) <==> name in secrets
    ensures name in secrets ==> Written(secrets, backups, rename)[name] == secrets[name]
  {
    if backups != [] {
      WrittenElsewhere(secrets, backups[..|backups| - 1], rename, name);
    }
  }

  ghost predicate AllHeld(secrets: map<string, Data>, backups: seq<SecretBackup>, rename: string -> string) {
    forall i | 0 <= i < |backups| ::
      rename(backups[i].name) in secrets && secrets[rename(backups[i].name)] == backups[i].data
  }

  /** Every backup is found under its new name with its own data exactly when no two backups that
      share a new name carry different data. */
  lemma WrittenHoldsAll(secrets: map<string, Data>, backups: seq<SecretBackup>, rename: string -> string)
    ensures AllHeld(Written(secrets, backups, rename), backups, rename) <==>
      forall i, j | 0 <= i < j < |backups| && rename(backups[i].name) == rename(backups[j].name) ::
        backups[i].data == backups[j].data
  {
    if forall i, j | 0 <= i < j < |backups| && rename(backups[i].name) == rename(backups[j].name) ::
      backups[i].data == backups[j].data {
      forall i | 0 <= i < |backups|
        ensures rename(backups[i].name) in Written(secrets, backups, rename)
        ensures Written(secrets, backups, rename)[rename(backups[i].name)] == backups[i].data
      {
        var l := WrittenAt(secrets, backups, rename, i);
      }
    }
  }
}
