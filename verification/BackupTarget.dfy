/** The backup-target setting and the Longhorn settings and secret derived from it. */
module BackupTarget {
  import opened Outcomes
  import opened Conditions

  datatype TargetKind = S3 | Nfs | Unset | Unsupported(name: string)
  datatype TargetSetting = TargetSetting(
    kind: TargetKind, endpoint: string, accessKeyId: string, secretAccessKey: string,
    bucketName: string, bucketRegion: string, cert: string, virtualHostedStyle: bool)

  const DEFAULT_TARGET := TargetSetting(Unset, "", "", "", "", "", "", false)
  const NFS_PREFIX := "nfs://"
  const BACKUP_TARGET_SECRET := "hci-backup-target-secret"

  predicate IsDefaultTarget(t: TargetSetting) {
    t == DEFAULT_TARGET
  }

  predicate HasCredentials(t: TargetSetting) {
    t.secretAccessKey != "" || t.accessKeyId != ""
  }

  function TrimPrefix(s: string, prefix: string): string {
    if prefix <= s then s[|prefix|..] else s
  }

  function ConstructEndpoint(t: TargetSetting): string {
    match t.kind
    case S3 => "s3://" + t.bucketName + "@" + t.bucketRegion + "/"
    case Nfs => NFS_PREFIX + TrimPrefix(t.endpoint, NFS_PREFIX)
    case _ => t.endpoint
  }

  /** The NFS endpoint always carries the scheme once; writing it in the setting is optional. */
  lemma NfsSchemeIsOptional(t: TargetSetting, host: string)
    requires t.kind.Nfs? && !(NFS_PREFIX <= host)
    ensures ConstructEndpoint(t.(endpoint := host)) == NFS_PREFIX + host
    ensures ConstructEndpoint(t.(endpoint := NFS_PREFIX + host)) == NFS_PREFIX + host
  {
    assert (NFS_PREFIX + host)[|NFS_PREFIX|..] == host;
  }

  /** The text of the setting: absent, undecodable, or a target. */
  datatype Value = Blank | Malformed | Decoded(target: TargetSetting)
  datatype Configured = Configured(status: Status, message: string, reason: string)
  /** `condition` is the configured one; `otherConditions` whether the list holds any of another kind. */
  datatype Setting = Setting(deleting: bool, value: Value, condition: Option<Configured>, otherConditions: bool)
  datatype Credentials = Credentials(accessKeyId: string, secretAccessKey: string, endpoint: string, cert: string,
        virtualHostedStyle: bool)

  datatype State = State(setting: Setting, longhornTarget: Option<string>, secret: Option<Credentials>,
        longhornSecret: Option<string>)

  function CredentialsOf(t: TargetSetting): Credentials {
    Credentials(t.accessKeyId, t.secretAccessKey, t.endpoint, t.cert, t.virtualHostedStyle)
  }

  /** The whole list is empty, or the configured condition is False. */
  predicate NeedsConfirmation(s: Setting) {
    (s.condition.None? && !s.otherConditions) || (s.condition.Some? && s.condition.value.status == False)
  }

  /** Errors a pass meets: updating the Longhorn target, writing or deleting the secret, the same for the
      reference to it, and updating the setting. */
  datatype Faults = Faults(target: Option<string>, secret: Option<string>, reference: Option<string>,
        setting: Option<string>)

  const NO_FAULTS := Faults(None, None, None, None)

  function Stored(s: State, setting: Setting, f: Faults): State {
    if f.setting.Some? then s else s.(setting := setting)
  }

  function Reported(s: State, status: Status, message: string, reason: string, f: Faults): State {
    Stored(s, s.setting.(condition := Some(Configured(status, message, reason))), f)
  }

  function Confirmed(s: State, f: Faults): State {
    if NeedsConfirmation(s.setting) then Reported(s, True, "", "", f) else s
  }

  /** Longhorn's target, then the secret, then the reference to it, up to the first error. */
  function Propagated(s: State, t: TargetSetting, f: Faults): (State, Option<string>) {
    if f.target.Some? then (s, f.target)
    else
      var s1 := s.(longhornTarget := Some(ConstructEndpoint(t)));
      if f.secret.Some? then (s1, f.secret)
      else
        var s2 := s1.(secret := if t.kind.S3? then Some(CredentialsOf(t)) else None);
        if f.reference.Some? then (s2, f.reference)
        else (s2.(longhornSecret := if t.kind.S3? then Some(BACKUP_TARGET_SECRET) else None), None)
  }

  function Stripped(t: TargetSetting): TargetSetting {
    t.(accessKeyId := "", secretAccessKey := "")
  }

  /** The state one undisturbed pass leaves. */
  function After(s: State, f: Faults): State {
    if s.setting.deleting || s.setting.value.Blank? then s
    else if s.setting.value.Malformed? then Reported(s, False, "unmarshal failed", "Error", f)
    else
      var t := s.setting.value.target;
      if t.kind.S3? && !HasCredentials(t) then Confirmed(s, f)
      else if t.kind.S3? || t.kind.Nfs? || IsDefaultTarget(t) then
        var (done, error) := Propagated(s, t, f);
        if error.Some? then Reported(done, False, error.value, "Error", f)
        else if t.kind.S3? then Stored(done, s.setting.(value := Decoded(Stripped(t))), f)
        else if t.kind.Nfs? then Confirmed(done, f)
        else Reported(done, False, "", "", f)
      else Reported(s, False, "invalid backup target", "Error", f)
  }

  class BackupSettingReconciler {
    var setting: Setting
    var longhornTarget: Option<string>
    var secret: Option<Credentials>
    var longhornSecret: Option<string>
    var settingWrites: nat  // updates that changed the setting

    constructor (s: State)
      ensures Snapshot() == s && settingWrites == 0
    {
      setting, longhornTarget, secret, longhornSecret := s.setting, s.longhornTarget, s.secret, s.longhornSecret;
      settingWrites := 0;
    }

    function Snapshot(): State
      reads this
    {
      State(setting, longhornTarget, secret, longhornSecret)
    }

    method UpdateSetting(s: Setting, fault: Option<string>)
      modifies this`setting, this`settingWrites
      ensures setting == (if fault.Some? then old(setting) else s)
      ensures settingWrites == old(settingWrites) + if old(setting) == setting then 0 else 1
    {
      if fault.None? && s != setting {
        setting := s;
        settingWrites := settingWrites + 1;
      }
    }

    method UpdateLonghornTarget(t: TargetSetting, fault: Option<string>) returns (error: Option<string>)
      modifies this`longhornTarget
      ensures error == fault
      ensures longhornTarget == if fault.Some? then old(longhornTarget) else Some(ConstructEndpoint(t))
    {
      if fault.Some? {
        return fault;
      }
      if longhornTarget.None? {
        longhornTarget := Some(ConstructEndpoint(t));
        return None;
      }
      if longhornTarget.value != ConstructEndpoint(t) {
        longhornTarget := Some(ConstructEndpoint(t));
      }
      error := None;
    }

    method UpdateBackupTargetSecret(t: TargetSetting, f: Faults) returns (error: Option<string>)
      modifies this`secret, this`longhornSecret
      ensures error == if f.secret.Some? then f.secret else f.reference
      ensures secret == if f.secret.Some? then old(secret) else Some(CredentialsOf(t))
      ensures longhornSecret == if error.Some? then old(longhornSecret) else Some(BACKUP_TARGET_SECRET)
    {
      if f.secret.Some? {
        return f.secret;
      }
      secret := Some(CredentialsOf(t));
      if f.reference.Some? {
        return f.reference;
      }
      if longhornSecret.None? || longhornSecret.value != BACKUP_TARGET_SECRET {
        longhornSecret := Some(BACKUP_TARGET_SECRET);
      }
      error := None;
    }

    method DeleteBackupTargetSecret(f: Faults) returns (error: Option<string>)
      modifies this`secret, this`longhornSecret
      ensures error == if f.secret.Some? then f.secret else f.reference
      ensures secret == if f.secret.Some? then old(secret) else None
      ensures longhornSecret == if error.Some? then old(longhornSecret) else None
    {
      if f.secret.Some? {
        return f.secret;
      }
      secret := None;
      if f.reference.Some? {
        return f.reference;
      }
      longhornSecret := None;
      error := None;
    }

    method SetConfiguredCondition(error: Option<string>, fault: Option<string>)
      modifies this`setting, this`settingWrites
      ensures setting == if fault.Some? then old(setting) else old(setting).(condition := Some(
        if error.None? then Configured(True, "", "") else Configured(False, error.value, "Error")))
      ensures settingWrites == old(settingWrites) + if old(setting) == setting then 0 else 1
    {
      var condition := if setting.condition.Some? then setting.condition.value else Configured(Unknown, "", "");
      if error.None? {
        condition := condition.(status := True, message := "", reason := "");
      } else {
        condition := condition.(status := False, message := error.value, reason := "Error");
      }
      UpdateSetting(setting.(condition := Some(condition)), fault);
    }

    method OnChange(f: Faults)
      modifies this
      ensures Snapshot() == After(old(Snapshot()), f)
      ensures settingWrites == old(settingWrites) + if old(setting) == setting then 0 else 1
    {
      if setting.deleting || setting.value.Blank? {
        return;
      }
      if setting.value.Malformed? {
        SetConfiguredCondition(Some("unmarshal failed"), f.setting);
        return;
      }
      var t := setting.value.target;
      if t.kind.S3? {
        if t.secretAccessKey != "" || t.accessKeyId != "" {
          var error := UpdateLonghornTarget(t, f.target);
          if error.None? {
            error := UpdateBackupTargetSecret(t, f);
          }
          if error.Some? {
            SetConfiguredCondition(error, f.setting);
            return;
          }
          UpdateSetting(setting.(value := Decoded(t.(secretAccessKey := "", accessKeyId := ""))), f.setting);
          return;
        }
      } else if t.kind.Nfs? {
        var error := UpdateLonghornTarget(t, f.target);
        if error.None? {
          error := DeleteBackupTargetSecret(f);
        }
        if error.Some? {
          SetConfiguredCondition(error, f.setting);
          return;
        }
      } else {
        if IsDefaultTarget(t) {
          var error := UpdateLonghornTarget(t, f.target);
          if error.None? {
            error := DeleteBackupTargetSecret(f);
          }
          if error.Some? {
            SetConfiguredCondition(error, f.setting);
            return;
          }
          UpdateSetting(setting.(condition := Some(Configured(False, "", ""))), f.setting);
          return;
        }
        SetConfiguredCondition(Some("invalid backup target"), f.setting);
        return;
      }
      if (setting.condition.None? && !setting.otherConditions) ||
        (setting.condition.Some? && setting.condition.value.status == False) {
        SetConfiguredCondition(None, f.setting);
      }
    }
  }

  // Convergence

  predicate Supported(t: TargetSetting) {
    t.kind.Nfs? || IsDefaultTarget(t) || (t.kind.S3? && HasCredentials(t))
  }

  function Passes(s: State, n: nat): State {
    if n == 0 then s else After(Passes(s, n - 1), NO_FAULTS)
  }

  lemma TwoPasses(s: State)
    ensures Passes(s, 1) == After(s, NO_FAULTS) && Passes(s, 2) == After(After(s, NO_FAULTS), NO_FAULTS)
  {
    assert Passes(s, 1) == After(Passes(s, 0), NO_FAULTS);
  }

  function Change(before: State, after: State): (k: nat)
    ensures k <= 1
  {
    if after.setting == before.setting then 0 else 1
  }

  /** How many of the first n passes change the setting. */
  function SettingChanges(s: State, n: nat): (k: nat)
    ensures k <= n
  {
    if n == 0 then 0 else SettingChanges(s, n - 1) + Change(Passes(s, n - 1), Passes(s, n))
  }

  lemma SecondPassSettles(s: State)
    requires !s.setting.deleting && s.setting.value.Decoded? && Supported(s.setting.value.target)
    ensures var last := After(After(s, NO_FAULTS), NO_FAULTS);
      After(last, NO_FAULTS) == last && last.setting.value.Decoded? &&
      var t := last.setting.value.target;
      last.longhornTarget == Some(ConstructEndpoint(t)) &&
        ConstructEndpoint(t) == ConstructEndpoint(s.setting.value.target) &&
      (t.kind.S3? ==> !HasCredentials(t))
  {
  }

  /** From a supported target any number of passes changes the setting at most twice and, from the
      second on, nothing at all. There Longhorn points at the endpoint of the setting, which is the
      endpoint asked for, and an S3 setting holds no credentials. */
  lemma {:induction false} SettlesInTwoPasses(s: State, n: nat)
    requires !s.setting.deleting && s.setting.value.Decoded? && Supported(s.setting.value.target)
    ensures SettingChanges(s, n) <= 2
    ensures n >= 2 ==>
      Passes(s, n) == Passes(s, 2) && SettingChanges(s, n) == SettingChanges(s, 2) &&
      Passes(s, n).setting.value.Decoded? &&
      var t := Passes(s, n).setting.value.target;
      Passes(s, n).longhornTarget == Some(ConstructEndpoint(t)) &&
        ConstructEndpoint(t) == ConstructEndpoint(s.setting.value.target) &&
      (t.kind.S3? ==> !HasCredentials(t))
  {
    TwoPasses(s);
    SecondPassSettles(s);
    if n > 2 {
      SettlesInTwoPasses(s, n - 1);
      assert Passes(s, n) == After(Passes(s, n - 1), NO_FAULTS);
    }
  }

  /** At the fixpoint the secret holds the credentials that were in the setting, and exists for S3 only. */
  lemma SecretFollowsTarget(s: State)
    requires !s.setting.deleting && s.setting.value.Decoded? && Supported(s.setting.value.target)
    ensures var t := s.setting.value.target; var last := Passes(s, 2);
      last.secret == (if t.kind.S3? then Some(CredentialsOf(t)) else None) &&
      last.longhornSecret == (if t.kind.S3? then Some(BACKUP_TARGET_SECRET) else None)
  {
    TwoPasses(s);
  }

  /** What Longhorn and the secret hold in the end, spelt out: for S3 bucket, region and both keys, which the
      setting no longer holds; for NFS the endpoint with its scheme and no secret; neither for the default. */
  lemma SettledTarget(s: State)
    requires !s.setting.deleting && s.setting.value.Decoded? && Supported(s.setting.value.target)
    ensures var t := s.setting.value.target; var last := Passes(s, 2);
      match t.kind
      case S3 =>
        && last.longhornTarget == Some("s3://" + t.bucketName + "@" + t.bucketRegion + "/")
        && last.longhornSecret == Some("hci-backup-target-secret") && last.secret.Some?
        && var held := last.secret.value;
        && held.accessKeyId == t.accessKeyId && held.secretAccessKey == t.secretAccessKey
        && held.endpoint == t.endpoint && held.cert == t.cert && held.virtualHostedStyle == t.virtualHostedStyle
        && last.setting.value == Decoded(t.(accessKeyId := "", secretAccessKey := ""))
      case Nfs =>
        && last.longhornTarget == Some(if "nfs://" <= t.endpoint then t.endpoint else "nfs://" + t.endpoint)
        && last.longhornSecret.None? && last.secret.None? && last.setting.value == Decoded(t)
      case _ =>
        last.longhornTarget == Some("") && last.longhornSecret.None? && last.secret.None? &&
        last.setting.value == Decoded(t)
  {
    SettlesInTwoPasses(s, 2);
    SecretFollowsTarget(s);
    SettledSetting(s);
    EndpointReads(s.setting.value.target);
  }

  lemma EndpointReads(t: TargetSetting)
    ensures ConstructEndpoint(t) ==
      match t.kind
      case S3 => "s3://" + t.bucketName + "@" + t.bucketRegion + "/"
      case Nfs => if "nfs://" <= t.endpoint then t.endpoint else "nfs://" + t.endpoint
      case _ => t.endpoint
  {
    if "nfs://" <= t.endpoint {
      assert t.endpoint == "nfs://" + t.endpoint[|"nfs://"|..];
    }
  }

  lemma SettledSetting(s: State)
    requires !s.setting.deleting && s.setting.value.Decoded? && Supported(s.setting.value.target)
    ensures var t := s.setting.value.target;
      Passes(s, 2).setting.value == Decoded(if t.kind.S3? then t.(accessKeyId := "", secretAccessKey := "") else t)
  {
    TwoPasses(s);
  }

  /** What is not a target is reported and goes no further; a blank or deleted setting is left alone. */
  lemma OthersAreRejected(s: State, f: Faults)
    requires s.setting.deleting || !s.setting.value.Decoded? ||
      (s.setting.value.target.kind.Unset? && s.setting.value.target != DEFAULT_TARGET) ||
      s.setting.value.target.kind.Unsupported?
    ensures var out := After(s, f);
      && out.longhornTarget == s.longhornTarget && out.secret == s.secret && out.longhornSecret == s.longhornSecret
      && out.setting.value == s.setting.value
      && (s.setting.deleting || s.setting.value.Blank? ==> out == s)
      && (!s.setting.deleting && !s.setting.value.Blank? && f.setting.None? ==>
            out.setting.condition == Some(Configured(False,
              if s.setting.value.Malformed? then "unmarshal failed" else "invalid backup target", "Error")))
  {
  }

  /** The first error on the way is reported, and what lies behind it is left as it was. */
  lemma FirstErrorIsReported(s: State, f: Faults)
    requires !s.setting.deleting && s.setting.value.Decoded? && Supported(s.setting.value.target)
    requires f.setting.None? && (f.target.Some? || f.secret.Some? || f.reference.Some?)
    ensures var out := After(s, f);
      && out.setting.value == s.setting.value && out.longhornSecret == s.longhornSecret
      && (f.target.Some? ==> out.longhornTarget == s.longhornTarget && out.secret == s.secret)
      && (f.target.None? && f.secret.Some? ==> out.secret == s.secret)
      && out.setting.condition == Some(Configured(False,
           if f.target.Some? then f.target.value else if f.secret.Some? then f.secret.value else f.reference.value,
           "Error"))
  {
  }

  /** The condition ends False for the default target. For S3 and NFS it ends True, exactly unless it started
      Unknown, or absent from a list that was not empty; then it stays so. */
  lemma ConditionAtFixpoint(s: State)
    requires !s.setting.deleting && s.setting.value.Decoded? && Supported(s.setting.value.target)
    ensures var was, now := s.setting.condition, Passes(s, 2).setting.condition;
      if IsDefaultTarget(s.setting.value.target) then now == Some(Configured(False, "", ""))
      else
        var stuck := if was.Some? then was.value.status == Unknown else s.setting.otherConditions;
        (now.Some? && now.value.status == True <==> !stuck) && (stuck ==> now == was)
  {
    TwoPasses(s);
  }

  // Failing passes

  function FaultyPasses(s: State, fs: seq<Faults>): State {
    if fs == [] then s else After(FaultyPasses(s, fs[..|fs| - 1]), fs[|fs| - 1])
  }

  /** The target is still asked for in full, or has been passed on in full and stripped of its credentials. */
  predicate StillAsked(s: State, t: TargetSetting) {
    && !s.setting.deleting && s.setting.value.Decoded?
    && (s.setting.value.target == t ||
        (t.kind.S3? && s.setting.value.target == Stripped(t) && s.longhornTarget == Some(ConstructEndpoint(t)) &&
         s.secret == Some(CredentialsOf(t)) && s.longhornSecret == Some(BACKUP_TARGET_SECRET)))
  }

  lemma {:induction false} FaultyPassesKeepAsking(s: State, fs: seq<Faults>)
    requires !s.setting.deleting && s.setting.value.Decoded? && Supported(s.setting.value.target)
    ensures StillAsked(FaultyPasses(s, fs), s.setting.value.target)
  {
    if fs != [] {
      FaultyPassesKeepAsking(s, fs[..|fs| - 1]);
    }
  }

  /** After any passes that failed anywhere, two without an error end where two passes would have ended from
      the start: no credentials are lost on the way. */
  lemma FaultsOnlyDelay(s: State, fs: seq<Faults>)
    requires !s.setting.deleting && s.setting.value.Decoded? && Supported(s.setting.value.target)
    ensures var last, direct := Passes(FaultyPasses(s, fs), 2), Passes(s, 2);
      && last.longhornTarget == direct.longhornTarget && last.secret == direct.secret &&
        last.longhornSecret == direct.longhornSecret
      && last.setting.value == direct.setting.value && After(last, NO_FAULTS) == last
  {
    FaultyPassesKeepAsking(s, fs);
    TwoPasses(FaultyPasses(s, fs));
    TwoPasses(s);
  }

  /** An S3 target that arrives without credentials is confirmed but never reaches Longhorn. */
  lemma BareS3IsNotPropagated(s: State)
    requires !s.setting.deleting && s.setting.value.Decoded? && s.setting.value.target.kind.S3? &&
      !HasCredentials(s.setting.value.target)
    ensures Passes(s, 1).longhornTarget == s.longhornTarget && Passes(s, 1).secret == s.secret &&
      Passes(s, 2) == Passes(s, 1)
  {
    TwoPasses(s);
  }
}
