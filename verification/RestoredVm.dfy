/** What the VM a restore leaves behind has in common with the VM that was backed up. */
module RestoredVm {
  import opened Outcomes
  import opened Objects
  import opened Volumes
  import opened Secrets
  import opened PvcOwnership
  import opened BackupWriters
  import opened RestoreWriters
  import opened RestorePass
  import opened RestoreResources
  import B = BackupMachine
  import H = BackupHistory

  function ClaimOf(r: Restore, v: Volume): Option<string> {
    if v.claim.None? then None else Some("restore-" + r.spec.backupName + "-" + r.uid + "-" + v.name)
  }

  /** The VM has the source's volumes, in order, each claim replaced by the restore's own. */
  ghost predicate HasVolumesOf(r: Restore, vm: Vm, source: VmSpec) {
    |vm.spec.volumes| == |source.volumes| &&
    forall i | 0 <= i < |source.volumes| ::
      && vm.spec.volumes[i].name == source.volumes[i].name
      && vm.spec.volumes[i].claim == ClaimOf(r, source.volumes[i])
      && (vm.spec.volumes[i].cloudInit.Some? <==> source.volumes[i].cloudInit.Some?)
  }

  function RefOf(hex: Hex, r: Restore, was: Option<string>): Option<string> {
    if was.None? then None else Some("vm-" + r.spec.targetName + "-" + hex(was.value) + "-ref")
  }

  /** The restore lists, in order, the volumes of a backup that covers its source. */
  ghost predicate PairsWithBackup(c: Cluster, b: Backup)
    requires Lists(c, 0) && Usable(b)
  {
    Paired(c.restore, c.restore.status.value.volumes, b.status.value.volumes) &&
    Covers(b.status.value.volumes, b.status.value.source.value.spec.volumes)
  }

  /** A VM that was not there is made under the target's name in the restore's namespace: the source's strategy, or
      to rerun on failure; as many MAC addresses, all blank; and each secret under its new name. */
  lemma NewVm(hex: Hex, safe: Joined, c: Cluster, b: Backup, uid: string)
    requires Lists(c, 0) && Usable(b) && c.vm.None?
    ensures var (d, r) := ResourcesSeen(hex, safe, c, b, uid);
      var source := b.status.value.source.value.spec;
      r.Ok? ==>
        var vm := r.value.vm;
        && d.vm == Some(vm) && vm.name == c.restore.spec.targetName && vm.namespace == c.restore.namespace
        && vm.uid == uid && !vm.ready
        && vm.annotations ==
             map[LAST_RESTORE_KEY := c.restore.name + "-" + c.restore.uid, RESTORE_NAME_KEY := c.restore.name]
        && vm.spec.runStrategy == (if source.runStrategy.None? then Some(RerunOnFailure) else source.runStrategy)
        && |vm.spec.macs| == |source.macs| && (forall m | m in vm.spec.macs :: m == "")
        && |vm.spec.credentials| == |source.credentials|
        && (forall i | 0 <= i < |source.credentials| ::
              && vm.spec.credentials[i].sshKey == RefOf(hex, c.restore, source.credentials[i].sshKey)
              && vm.spec.credentials[i].userPassword == RefOf(hex, c.restore, source.credentials[i].userPassword))
        && |vm.spec.volumes| == |source.volumes|
        && (forall i | 0 <= i < |source.volumes| ::
              && vm.spec.volumes[i].name == source.volumes[i].name
              && (vm.spec.volumes[i].cloudInit.Some? <==> source.volumes[i].cloudInit.Some?))
        && (forall i | 0 <= i < |source.volumes| && source.volumes[i].cloudInit.Some? ::
              var cloud, was := vm.spec.volumes[i].cloudInit, source.volumes[i].cloudInit.value;
              && cloud.Some? && cloud.value.userData == RefOf(hex, c.restore, was.userData)
              && cloud.value.networkData == RefOf(hex, c.restore, was.networkData))
  {
  }

  /** A VM that was there without the restore's mark keeps its identity and gets the source's spec, all but the
      claims; of its annotations the claim templates go and the restore's two are set. */
  lemma ReplacedVm(hex: Hex, safe: Joined, c: Cluster, b: Backup, uid: string)
    requires Lists(c, 0) && Usable(b) && c.vm.Some? && !RestoredBy(c.restore, c.vm.value)
    ensures var (d, r) := ResourcesSeen(hex, safe, c, b, uid);
      var source, was := b.status.value.source.value.spec, c.vm.value;
      r.Ok? ==>
        var vm := r.value.vm;
        && d.vm == Some(vm) && vm.name == was.name && vm.namespace == was.namespace && vm.uid == was.uid
        && vm.ready == was.ready
        && vm.spec.runStrategy == source.runStrategy && vm.spec.macs == source.macs
        && vm.spec.credentials == source.credentials && |vm.spec.volumes| == |source.volumes|
        && (forall i | 0 <= i < |source.volumes| ::
              vm.spec.volumes[i] == source.volumes[i].(claim := vm.spec.volumes[i].claim))
        && CLAIM_TEMPLATES_KEY !in vm.annotations && RESTORE_NAME_KEY in vm.annotations &&
            vm.annotations[RESTORE_NAME_KEY] == c.restore.name
        && LAST_RESTORE_KEY in vm.annotations &&
            vm.annotations[LAST_RESTORE_KEY] == c.restore.name + "-" + c.restore.uid
        && (forall k | k !in {LAST_RESTORE_KEY, RESTORE_NAME_KEY, CLAIM_TEMPLATES_KEY} ::
              (k in vm.annotations <==> k in was.annotations) &&
              (k in was.annotations ==> vm.annotations[k] == was.annotations[k]))
  {
    KeysDiffer();
  }

  /** A VM that carries the restore's mark is left as it is. */
  lemma MarkedVm(hex: Hex, safe: Joined, c: Cluster, b: Backup, uid: string)
    requires Lists(c, 0) && Usable(b) && c.vm.Some? && RestoredBy(c.restore, c.vm.value)
    ensures var (d, r) := ResourcesSeen(hex, safe, c, b, uid);
      d.vm == c.vm && (r.Ok? ==> Some(r.value.vm) == c.vm)
  {
  }

  /** The VM written, new or replaced, has every volume of the source with the restore's claim for it. */
  lemma WrittenVmHasVolumes(hex: Hex, safe: Joined, c: Cluster, b: Backup, uid: string)
    requires Lists(c, 0) && Usable(b) && PairsWithBackup(c, b)
    requires c.vm.Some? ==> !RestoredBy(c.restore, c.vm.value)
    ensures var (d, r) := ResourcesSeen(hex, safe, c, b, uid);
      r.Ok? ==> d.vm == Some(r.value.vm) && HasVolumesOf(c.restore, r.value.vm, b.status.value.source.value.spec)
  {
    var source, vrs, vbs := b.status.value.source.value.spec, c.restore.status.value.volumes, b.status.value.volumes;
    NewVolumesOfPaired(c.restore, source.volumes, vrs, vbs);
    var volumes := Sanitized(hex, c.restore.spec.targetName, source).volumes;
    assert Covers(vbs, volumes) by {
      forall v | v in volumes && v.claim.Some?
        ensures exists vb :: vb in vbs && vb.volumeName == v.name
      {
        var i :| 0 <= i < |volumes| && volumes[i] == v;
        assert source.volumes[i] in source.volumes;
      }
    }
    NewVolumesOfPaired(c.restore, volumes, vrs, vbs);
  }

  /** The owner reference a pass gives the restore names its target, with the uid the created VM got, or the VM
      that was there. */
  lemma OwnerNamesTheTarget(hex: Hex, safe: Joined, c: Cluster, env: Env)
    requires c.restore.owner.None?
    ensures var d := PassOf(hex, safe, c, env).0;
      d.restore.owner.Some? ==>
        d.restore.owner == Some(if c.vm.None? then OwnerRef(c.restore.spec.targetName, env.uid)
          else OwnerRef(c.vm.value.name, c.vm.value.uid))
  {
  }

  // From the VM that was read to the VM that is restored

  /** The pair of an initialised backup and a restore of it that finds no VM it has marked itself, and asks for a new
      VM exactly if there is none. */
  ghost predicate RestoresVersion(hex: Hex, history: seq<Backup>, log: seq<Writer>, j: nat, c: Cluster) {
    && B.Replays(history, log) && j < |history| && Usable(history[j])
    && (history[0].status.Some? ==> history[0].status.value.source.None?)
    && Lists(c, 0) && Paired(c.restore, c.restore.status.value.volumes, history[j].status.value.volumes)
    && (c.vm.Some? ==> !RestoredBy(c.restore, c.vm.value)) && (c.restore.spec.newVm <==> c.vm.None?)
    && Distinguishes(hex, SecretRefs(history[j].status.value.source.value.spec))
  }

  /** End to end: the restored VM has every volume of the VM that the last initialisation of the backup read,
      under the restore's claims, and each of its secret references finds what that VM's secret held then. */
  lemma RestoresTheVmRead(hex: Hex, safe: Joined, history: seq<Backup>, log: seq<Writer>, j: nat, c: Cluster,
        uid: string)
    requires RestoresVersion(hex, history, log, j, c)
    ensures var (d, r) := ResourcesSeen(hex, safe, c, history[j], uid);
      var k := H.LastInit(log, j);
      k.Some? && log[k.value].Init? &&
      (r.Ok? ==>
        && HasVolumesOf(c.restore, r.value.vm, log[k.value].vm.spec)
        && Resolved(r.value.vm.spec, d.secrets, log[k.value].vm.spec, log[k.value].secretStore))
  {
    var b := history[j];
    H.VersionsHoldTheirVm(history, log, j);
    var w := log[H.LastInit(log, j).value];
    SecretBackupsAreTheRefs(SecretRefs(w.vm.spec), w.secretStore);
    assert BacksUp(hex, b, w.secretStore);
    WrittenVmHasVolumes(hex, safe, c, b, uid);
    if ResourcesSeen(hex, safe, c, b, uid).1.Ok? {
      SecretsResolve(hex, safe, c, b, uid, w.secretStore);
    }
  }
}
