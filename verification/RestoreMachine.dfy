/** Overlapping passes over one VirtualMachineRestore, interleaved call by call with the writers of its
    backup and with KubeVirt's updates of the target VM. Reads may return any earlier version. */
module RestoreMachine {
  import opened Outcomes
  import opened Conditions
  import opened Objects
  import opened Volumes
  import opened BackupWriters
  import B = BackupMachine
  import R = RestoreWriters

  /** What a pass holds: the restore it read, the ready backup it read, and the claims seen Bound so far. */
  datatype Pass = Pass(r: Restore, rv: nat, b: Backup, bv: nat, bound: set<string>, allBound: bool)

  datatype Local =
    | Idle
    | Entered(r: Restore, rv: nat)         // after the Get of the restore
    | HasBackup(p: Pass)                   // getVMBackup succeeded
    | Claims(p: Pass, i: nat)              // reconcileVolumeRestores, at volume i
    | SeekVm(p: Pass)                      // before getVM
    | VmAbsent(p: Pass)                    // about to create it
    | VmOther(p: Pass, vm: Vm, vmRv: nat)  // found without this restore's mark
    | VmWritten(p: Pass, created: bool)    // about to read it back
    | HasVm(p: Pass, vm: Vm)               // reconcileResources done
    | Deleting(p: Pass, vm: Vm, k: nat)    // deleteOldPVC, at entry k
    | Finishing(p: Pass)                   // about to store completion

  /** A claim created by a pass: the restore entry it is for and the volume backup it is made from. */
  datatype Creation = Creation(vr: VolumeRestore, vb: VolumeBackup)

  /** A claim deleted by a pass: the VM as the pass saw it, and as it was stored at that moment. */
  datatype Deletion = Deletion(claim: string, pass: Pass, seen: Vm, stored: Option<Vm>)

  datatype State = State(
    backups: seq<Backup>, backupLog: seq<Writer>, restores: seq<Restore>, restoreLog: seq<R.RestoreWriter>,
    vms: seq<Option<Vm>>, threads: map<nat, Local>, created: seq<Creation>, deleted: seq<Deletion>, panicked: bool)

  datatype Action =
    | BackupWrite(change: Writer)
    | EditRestore(deleting: bool)
    | VmStatus(ready: bool)
    | Enter(thread: nat, version: nat)
    | ReadBackup(thread: nat, version: nat)
    | StartClaims(thread: nat)
    | SeeClaim(thread: nat, seen: Option<Phase>)
    | FindVm(thread: nat, version: nat)
    | CreateVm(thread: nat, uid: string)
    | UpdateVm(thread: nat)
    | RereadVm(thread: nat, version: nat)
    | DeleteNext(thread: nat)
    | WriteRestore(thread: nat, writer: R.RestoreWriter)
    | Stop(thread: nat)  // finished, an API error, or a crash

  function At(s: State, t: nat): Local {
    if t in s.threads then s.threads[t] else Idle
  }

  function Go(s: State, t: nat, l: Local): State {
    s.(threads := s.threads[t := l])
  }

  predicate RestoredVersion(r: Restore, vm: Option<Vm>) {
    vm.Some? && R.RestoredBy(r, vm.value)
  }

  function Found(p: Pass, vms: seq<Option<Vm>>, version: nat): Local
    requires version < |vms|
  {
    if vms[version].None? then VmAbsent(p)
    else if R.RestoredBy(p.r, vms[version].value) then HasVm(p, vms[version].value)
    else VmOther(p, vms[version].value, version)
  }

  /** Which write of the restore may come next in each place, and only there. */
  predicate Follows(l: Local, w: R.RestoreWriter) {
    match l
    case Idle => false
    case Entered(_, _) => w.Initialize? || w.Fail?
    case HasBackup(p) => w.Fail? || w == R.ListVolumes(p.b)
    case HasVm(p, vm) =>
      w.Fail? || w == R.SetOwner(OwnerRef(vm.name, vm.uid)) || (w.WaitForClaims? && !p.allBound) ||
        (w.WaitForVm? && p.allBound && !vm.ready)
    case Finishing(_) => w.Complete?
    case _ => w.Fail?
  }

  function HeldRestore(l: Local): (Restore, nat)
    requires !l.Idle?
  {
    if l.Entered? then (l.r, l.rv) else (l.p.r, l.p.rv)
  }

  ghost function Next(hex: string -> string, s: State, a: Action): State
    requires s.backups != [] && s.restores != [] && s.vms != []
  {
    match a
    case WriteRestore(t, w) => WriteStep(s, t, w)
    case BackupWrite(w) => BackupStep(s, w)
    case _ => if a.EditRestore? || a.VmStatus? then OutsideStep(s, a) else PassStep(hex, s, a)
  }

  function OutsideStep(s: State, a: Action): State
    requires s.restores != [] && s.vms != []
  {
    match a
    case EditRestore(deleting) => EditStep(s, R.UserEdit(deleting))
    case VmStatus(ready) => VmStatusStep(s, ready)
    case _ => s
  }

  ghost function BackupStep(s: State, w: Writer): State
    requires s.backups != []
  {
    var current := s.backups[|s.backups| - 1];
    if Enabled(w, current) then s.(backups := s.backups + [Apply(w, current)], backupLog := s.backupLog + [w]) else s
  }

  function StoreWrite(s: State, w: R.RestoreWriter, r: Restore): State
    requires R.CanWrite(w, r)
  {
    s.(restores := s.restores + [R.Wrote(w, r)], restoreLog := s.restoreLog + [w])
  }

  function EditStep(s: State, w: R.RestoreWriter): State
    requires s.restores != []
  {
    if R.CanWrite(w, s.restores[|s.restores| - 1]) then StoreWrite(s, w, s.restores[|s.restores| - 1]) else s
  }

  function AddVm(s: State, vm: Vm): State {
    s.(vms := s.vms + [Some(vm)])
  }

  function VmStatusStep(s: State, ready: bool): State
    requires s.vms != []
  {
    var current := s.vms[|s.vms| - 1];
    if current.Some? then AddVm(s, current.value.(ready := ready)) else s
  }

  /** An update of the restore succeeds only against its current version. */
  function WriteStep(s: State, t: nat, w: R.RestoreWriter): State {
    var l := At(s, t);
    if l.Idle? || !Follows(l, w) || !R.CanWrite(w, HeldRestore(l).0) then s
    else if HeldRestore(l).1 == |s.restores| - 1 then Go(StoreWrite(s, w, HeldRestore(l).0), t, Local.Idle)
    else Go(s, t, Local.Idle)
  }

  function PassStep(hex: string -> string, s: State, a: Action): State
    requires s.vms != []
  {
    match a
    case Enter(t, v) => EnterStep(s, t, v)
    case ReadBackup(t, v) => ReadBackupStep(s, t, v)
    case Stop(t) => Go(s, t, Local.Idle)
    case _ => ResourceStep(hex, s, a)
  }

  function ResourceStep(hex: string -> string, s: State, a: Action): State
    requires s.vms != []
  {
    match a
    case StartClaims(t) => StartClaimsStep(s, t)
    case SeeClaim(t, seen) => SeeClaimStep(s, t, seen)
    case _ => TargetStep(hex, s, a)
  }

  function TargetStep(hex: string -> string, s: State, a: Action): State
    requires s.vms != []
  {
    match a
    case FindVm(t, v) => FindVmStep(s, t, v)
    case CreateVm(t, uid) => CreateVmStep(hex, s, t, uid)
    case UpdateVm(t) => UpdateVmStep(s, t)
    case RereadVm(t, v) => RereadVmStep(s, t, v)
    case DeleteNext(t) => DeleteNextStep(s, t)
    case _ => s
  }

  function EnterStep(s: State, t: nat, v: nat): State {
    if At(s, t).Idle? && v < |s.restores| && !s.restores[v].deleting && IsRestoreProgressing(s.restores[v])
    then Go(s, t, Entered(s.restores[v], v)) else s
  }

  function ReadBackupStep(s: State, t: nat, v: nat): State {
    var l := At(s, t);
    if l.Entered? && l.r.status.Some? && v < |s.backups| && R.Usable(s.backups[v])
    then Go(s, t, HasBackup(Pass(l.r, l.rv, s.backups[v], v, {}, true))) else s
  }

  function StartClaimsStep(s: State, t: nat): State {
    var l := At(s, t);
    if l.HasBackup? && l.p.r.status.Some? && !IsRestoreMissingVolumes(l.p.r) then Go(s, t, Claims(l.p, 0)) else s
  }

  function SeeClaimStep(s: State, t: nat, seen: Option<Phase>): State {
    var l := At(s, t);
    if !l.Claims? || l.p.r.status.None? then s
    else if l.i >= |l.p.r.status.value.volumes| then Go(s, t, SeekVm(l.p))
    else SeeOneClaim(s, t, l.p, l.i, seen)
  }

  function SeeOneClaim(s: State, t: nat, p: Pass, i: nat, seen: Option<Phase>): State
    requires p.r.status.Some? && i < |p.r.status.value.volumes|
  {
    var vr := p.r.status.value.volumes[i];
    match seen
    case Some(Bound) => Go(s, t, Claims(p.(bound := p.bound + {vr.claimName}), i + 1))
    case Some(Pending) => Go(s, t, Claims(p.(allBound := false), i + 1))
    case Some(Lost) => s  // an error: WriteRestore or Stop comes next
    case None =>
      if p.b.status.None? || i >= |p.b.status.value.volumes|
        then Go(s.(panicked := true), t, Idle)  // index out of range
      else if p.b.status.value.volumes[i].name.None? then s
      else Go(s.(created := s.created + [Creation(vr, p.b.status.value.volumes[i])]), t,
        Claims(p.(allBound := false), i + 1))
  }

  function FindVmStep(s: State, t: nat, v: nat): State {
    var l := At(s, t);
    if l.SeekVm? && v < |s.vms| then Go(s, t, Found(l.p, s.vms, v)) else s
  }

  function CreateVmStep(hex: string -> string, s: State, t: nat, uid: string): State
    requires s.vms != []
  {
    var l := At(s, t);
    if !l.VmAbsent? || !R.Usable(l.p.b) || l.p.r.status.None? then s
    else if s.vms[|s.vms| - 1].Some? then Go(s, t, Local.Idle)  // already exists
    else Go(AddVm(s, R.CreatedVm(hex, l.p.r, l.p.b.status.value.source.value, l.p.r.status.value.volumes, uid)), t,
      VmWritten(l.p, true))
  }

  function UpdateVmStep(s: State, t: nat): State {
    var l := At(s, t);
    if !l.VmOther? || !R.Usable(l.p.b) || l.p.r.status.None? then s
    else if l.vmRv != |s.vms| - 1 then Go(s, t, Local.Idle)  // conflict
    else Go(AddVm(s, R.UpdatedVm(l.p.r, l.p.b.status.value.source.value, l.p.r.status.value.volumes, l.vm)), t,
      VmWritten(l.p, false))
  }

  function RereadVmStep(s: State, t: nat, v: nat): State {
    var l := At(s, t);
    if !l.VmWritten? || v >= |s.vms| then s
    else if s.vms[v].None? then Go(s, t, Local.Idle)
    else if l.created then Go(s, t, Found(l.p, s.vms, v))
    else Go(s, t, HasVm(l.p, s.vms[v].value))
  }

  function DeleteNextStep(s: State, t: nat): State
    requires s.vms != []
  {
    var l := At(s, t);
    if l.HasVm? && l.p.r.owner.Some? && l.p.allBound && l.vm.ready then Go(s, t, Deleting(l.p, l.vm, 0))
    else if !l.Deleting? || l.p.r.status.None? then s
    else if KeepsOldVolumes(l.p.r) || l.k >= |l.p.r.status.value.deletedVolumes| then Go(s, t, Finishing(l.p))
    else DeleteOne(s, t, l.p, l.vm, l.k)
  }

  function DeleteOne(s: State, t: nat, p: Pass, vm: Vm, k: nat): State
    requires s.vms != [] && p.r.status.Some? && k < |p.r.status.value.deletedVolumes|
  {
    Go(s.(deleted := s.deleted + [Deletion(p.r.status.value.deletedVolumes[k], p, vm, s.vms[|s.vms| - 1])]), t,
      Deleting(p, vm, k + 1))
  }

  ghost function Run(hex: string -> string, s: State, actions: seq<Action>): (out: State)
    requires s.backups != [] && s.restores != [] && s.vms != []
    ensures out.backups != [] && out.restores != [] && out.vms != []
  {
    if actions == [] then s
    else
      var before := Run(hex, s, actions[..|actions| - 1]);
      NextGrows(hex, before, actions[|actions| - 1]);
      Next(hex, before, actions[|actions| - 1])
  }

  predicate Extends(s: State, out: State) {
    s.backups <= out.backups && s.restores <= out.restores && s.vms <= out.vms
  }

  lemma PassStepGrows(hex: string -> string, s: State, a: Action)
    requires s.vms != []
    ensures Extends(s, PassStep(hex, s, a))
  {
  }

  lemma NextGrows(hex: string -> string, s: State, a: Action)
    requires s.backups != [] && s.restores != [] && s.vms != []
    ensures Extends(s, Next(hex, s, a))
  {
    PassStepGrows(hex, s, a);
  }

  /** A backup and a restore as users create them, and a target VM this restore has never touched. */
  ghost predicate Initial(s: State) {
    && |s.backups| == 1 && s.backupLog == [] && CoversSource(s.backups[0])
    && |s.restores| == 1 && s.restoreLog == [] && s.restores[0].status.None? && s.restores[0].owner.None?
    && |s.vms| == 1 && !RestoredVersion(s.restores[0], s.vms[0])
    && s.threads == map[] && s.created == [] && s.deleted == [] && !s.panicked
  }

  // Histories

  ghost predicate ReplaysRestore(restores: seq<Restore>, log: seq<R.RestoreWriter>) {
    |restores| == |log| + 1 &&
    forall i | 0 <= i < |log| :: R.CanWrite(log[i], restores[i]) && restores[i + 1] == R.Wrote(log[i], restores[i])
  }

  /** The volumes a restore lists are paired, position by position, with those of a ready backup version,
      and the old claims it lists are that version's claims. */
  ghost predicate ListedFrom(r: Restore, backups: seq<Backup>) {
    r.status.Some? && r.status.value.volumes != [] ==>
      exists i :: 0 <= i < |backups| && R.Usable(backups[i]) && PairedWith(r, backups[i])
  }

  /** Old claims are listed together with volumes or not at all. */
  predicate ListsBoth(r: Restore) {
    r.status.Some? && r.status.value.volumes == [] ==> r.status.value.deletedVolumes == []
  }

  predicate PairedWith(r: Restore, b: Backup)
    requires r.status.Some? && b.status.Some?
  {
    Paired(r, r.status.value.volumes, b.status.value.volumes) &&
    (r.status.value.deletedVolumes == [] || r.status.value.deletedVolumes == R.OldClaims(b.status.value.volumes))
  }

  ghost predicate RestoresInv(restores: seq<Restore>, log: seq<R.RestoreWriter>, backups: seq<Backup>) {
    && ReplaysRestore(restores, log)
    && (forall j | 0 <= j < |restores| :: R.SoundRestore(restores[j]) && R.SameRestore(restores[0], restores[j]))
    && (forall j | 0 <= j < |restores| :: ListsBoth(restores[j]))
    && (forall j | 0 <= j < |restores| :: ListedFrom(restores[j], backups))
  }

  /** Once a version of the VM carries the restore's mark, so do all later ones, and marked versions use
      restored claims only. */
  ghost predicate VmsInv(r: Restore, vms: seq<Option<Vm>>) {
    && vms != []
    && (forall k | 0 < k < |vms| && RestoredVersion(r, vms[k - 1]) :: RestoredVersion(r, vms[k]))
    && (forall k | 0 <= k < |vms| && RestoredVersion(r, vms[k]) :: R.UsesRestoredClaims(r, vms[k].value.spec.volumes))
  }

  /** Some version of the VM carries the mark. */
  ghost predicate Marked(r: Restore, vms: seq<Option<Vm>>) {
    exists k :: 0 <= k < |vms| && RestoredVersion(r, vms[k])
  }

  lemma MarkedNow(r: Restore, vms: seq<Option<Vm>>)
    requires VmsInv(r, vms) && Marked(r, vms)
    ensures RestoredVersion(r, vms[|vms| - 1])
  {
    var k :| 0 <= k < |vms| && RestoredVersion(r, vms[k]);
    while k < |vms| - 1
      invariant 0 <= k < |vms| && RestoredVersion(r, vms[k])
    {
      assert RestoredVersion(r, vms[(k + 1) - 1]);
      k := k + 1;
    }
  }

  lemma AppendVm(r: Restore, vms: seq<Option<Vm>>, vm: Vm)
    requires VmsInv(r, vms)
    requires RestoredVersion(r, vms[|vms| - 1]) ==> R.RestoredBy(r, vm)
    requires R.RestoredBy(r, vm) ==> R.UsesRestoredClaims(r, vm.spec.volumes)
    ensures VmsInv(r, vms + [Some(vm)])
    ensures R.RestoredBy(r, vm) ==> Marked(r, vms + [Some(vm)])
  {
    var out := vms + [Some(vm)];
    assert out[|vms|] == Some(vm);
  }

  // Passes

  ghost predicate PassHolds(p: Pass, s: State) {
    && p.rv < |s.restores| && p.r == s.restores[p.rv]
    && p.bv < |s.backups| && p.b == s.backups[p.bv] && R.Usable(p.b)
    && p.r.status.Some? && IsRestoreProgressing(p.r) && !p.r.deleting
  }

  predicate AllSeenBound(p: Pass, n: nat)
    requires p.r.status.Some?
  {
    p.allBound ==>
      n <= |p.r.status.value.volumes| && forall i | 0 <= i < n :: p.r.status.value.volumes[i].claimName in p.bound
  }

  /** The pass has its volumes, paired with the backup it read. */
  ghost predicate Ranging(p: Pass, s: State) {
    PassHolds(p, s) && !IsRestoreMissingVolumes(p.r) && PairedWith(p.r, p.b)
  }

  ghost predicate Looked(p: Pass, s: State) {
    Ranging(p, s) && AllSeenBound(p, |p.r.status.value.volumes|)
  }

  ghost predicate Holds(l: Local, s: State) {
    match l
    case Idle => true
    case Entered(r, rv) => rv < |s.restores| && r == s.restores[rv] && IsRestoreProgressing(r) && !r.deleting
    case HasBackup(p) => PassHolds(p, s) && p.bound == {} && p.allBound
    case Claims(p, i) => Ranging(p, s) && AllSeenBound(p, i)
    case SeekVm(p) => Looked(p, s)
    case VmAbsent(p) => Looked(p, s)
    case VmOther(p, vm, vmRv) => Looked(p, s) && vmRv < |s.vms| && s.vms[vmRv] == Some(vm) && !R.RestoredBy(p.r, vm)
    case VmWritten(p, _) => Looked(p, s) && Marked(p.r, s.vms)
    case HasVm(p, vm) => Looked(p, s) && Marked(p.r, s.vms)
    case Deleting(p, vm, k) => Looked(p, s) && Marked(p.r, s.vms) && p.r.owner.Some? && p.allBound && vm.ready
    case Finishing(p) => Looked(p, s) && Marked(p.r, s.vms) && p.r.owner.Some? && p.allBound
  }

  /** What is true of every deletion. */
  ghost predicate Justified(d: Deletion, s: State) {
    && Looked(d.pass, s) && d.pass.allBound && d.seen.ready && !KeepsOldVolumes(d.pass.r)
    && d.claim in d.pass.r.status.value.deletedVolumes
    && d.stored.Some? && R.UsesRestoredClaims(d.pass.r, d.stored.value.spec.volumes)
  }

  predicate SameVolume(c: Creation) {
    c.vr.volumeName == c.vb.volumeName && c.vb.name == Some(c.vr.volumeBackupName)
  }

  ghost predicate StoresInv(s: State) {
    && B.Replays(s.backups, s.backupLog) && CoversSource(s.backups[0])
    && RestoresInv(s.restores, s.restoreLog, s.backups)
    && VmsInv(s.restores[0], s.vms)
    && (forall c | c in s.created :: SameVolume(c))
    && (forall d | d in s.deleted :: Justified(d, s))
    && !s.panicked
  }

  ghost predicate Inv(s: State) {
    StoresInv(s) && forall t | t in s.threads :: Holds(s.threads[t], s)
  }

  // The invariant is kept

  lemma HoldsLater(s: State, out: State, l: Local)
    requires Extends(s, out) && Holds(l, s)
    ensures Holds(l, out)
  {
    if l.VmWritten? || l.HasVm? || l.Deleting? || l.Finishing? {
      var k :| 0 <= k < |s.vms| && RestoredVersion(l.p.r, s.vms[k]);
      assert out.vms[k] == s.vms[k];
    }
  }

  lemma AllHoldLater(s: State, out: State)
    requires Extends(s, out) && Inv(s)
    ensures forall t | t in s.threads :: Holds(s.threads[t], out)
    ensures forall d | d in s.deleted :: Justified(d, out)
  {
    forall t | t in s.threads
      ensures Holds(s.threads[t], out)
    {
      HoldsLater(s, out, s.threads[t]);
    }
  }

  lemma ListedLater(restores: seq<Restore>, log: seq<R.RestoreWriter>, backups: seq<Backup>, more: seq<Backup>)
    requires RestoresInv(restores, log, backups) && backups <= more
    ensures RestoresInv(restores, log, more)
  {
    forall j | 0 <= j < |restores|
      ensures ListedFrom(restores[j], more)
    {
      if restores[j].status.Some? && restores[j].status.value.volumes != [] {
        var i :| 0 <= i < |backups| && R.Usable(backups[i]) && PairedWith(restores[j], backups[i]);
        assert more[i] == backups[i];
      }
    }
  }

  /** Two ready versions of a backup pair with the same restores: the volume list is frozen. */
  lemma PairingSurvives(s: State, r: Restore, i: nat, j: nat)
    requires B.Replays(s.backups, s.backupLog) && i < |s.backups| && j < |s.backups|
    requires R.Usable(s.backups[i]) && R.Usable(s.backups[j]) && r.status.Some? && PairedWith(r, s.backups[i])
    ensures PairedWith(r, s.backups[j])
  {
    if i <= j {
      B.ReadyIsFrozen(s.backups, s.backupLog, i, j);
    } else {
      B.ReadyIsFrozen(s.backups, s.backupLog, j, i);
    }
    SameCore(s.backups[i].status.value, s.backups[j].status.value);
    assert R.OldClaims(s.backups[i].status.value.volumes) == R.OldClaims(s.backups[j].status.value.volumes);
  }

  lemma WroteKeepsRestoresInv(s: State, w: R.RestoreWriter)
    requires Inv(s)
    requires R.CanWrite(w, s.restores[|s.restores| - 1])
    requires w.ListVolumes? ==> exists i :: 0 <= i < |s.backups| && s.backups[i] == w.backup
    ensures RestoresInv(s.restores + [R.Wrote(w, s.restores[|s.restores| - 1])], s.restoreLog + [w], s.backups)
  {
    var r := s.restores[|s.restores| - 1];
    R.WroteKeepsSound(w, r);
    R.WroteKeepsIdentity(w, r);
    WroteKeepsListing(s, w, r);
    AppendWrite(s.restores, s.restoreLog, w);
    AppendRestore(s, w, R.Wrote(w, r));
  }

  lemma AppendRestore(s: State, w: R.RestoreWriter, out: Restore)
    requires Inv(s)
    requires ReplaysRestore(s.restores + [out], s.restoreLog + [w])
    requires R.SoundRestore(out) && ListedFrom(out, s.backups) && ListsBoth(out)
    requires R.SameRestore(s.restores[|s.restores| - 1], out)
    ensures RestoresInv(s.restores + [out], s.restoreLog + [w], s.backups)
  {
  }

  lemma AppendWrite(restores: seq<Restore>, log: seq<R.RestoreWriter>, w: R.RestoreWriter)
    requires ReplaysRestore(restores, log) && R.CanWrite(w, restores[|restores| - 1])
    ensures ReplaysRestore(restores + [R.Wrote(w, restores[|restores| - 1])], log + [w])
  {
    var out, more := restores + [R.Wrote(w, restores[|restores| - 1])], log + [w];
    forall i | 0 <= i < |more|
      ensures R.CanWrite(more[i], out[i]) && out[i + 1] == R.Wrote(more[i], out[i])
    {
      if i < |log| {
        assert more[i] == log[i] && out[i] == restores[i] && out[i + 1] == restores[i + 1];
      }
    }
  }

  lemma WroteKeepsListing(s: State, w: R.RestoreWriter, r: Restore)
    requires Inv(s) && r == s.restores[|s.restores| - 1] && R.CanWrite(w, r)
    requires w.ListVolumes? ==> exists i :: 0 <= i < |s.backups| && s.backups[i] == w.backup
    ensures ListedFrom(R.Wrote(w, r), s.backups) && ListsBoth(R.Wrote(w, r))
  {
    if w.ListVolumes? {
      var i :| 0 <= i < |s.backups| && s.backups[i] == w.backup;
      ListingPairs(s, r, w.backup, i);
      ListedNeverEmpty(r, w.backup);
    } else {
      OtherWriteKeepsListing(w, r, s.backups);
    }
  }

  lemma OtherWriteKeepsListing(w: R.RestoreWriter, r: Restore, backups: seq<Backup>)
    requires R.CanWrite(w, r) && !w.ListVolumes? && ListedFrom(r, backups) && ListsBoth(r)
    ensures ListedFrom(R.Wrote(w, r), backups) && ListsBoth(R.Wrote(w, r))
  {
    var out := R.Wrote(w, r);
    if out.status.Some? && out.status.value.volumes != [] {
      var i :| 0 <= i < |backups| && R.Usable(backups[i]) && PairedWith(r, backups[i]);
      assert PairedWith(out, backups[i]);
    }
  }

  lemma ListedNeverEmpty(r: Restore, b: Backup)
    requires R.CanWrite(R.ListVolumes(b), r)
    requires r.status.value.volumes == [] ==> r.status.value.deletedVolumes == []
    ensures var out := R.Wrote(R.ListVolumes(b), r).status.value;
      out.volumes == [] ==> out.deletedVolumes == []
  {
    VolumeRestoresPair(r, b.status.value.volumes);
  }

  lemma ListingPairs(s: State, r: Restore, b: Backup, i: nat)
    requires Inv(s) && r == s.restores[|s.restores| - 1] && i < |s.backups| && s.backups[i] == b
    requires R.CanWrite(R.ListVolumes(b), r)
    ensures ListedFrom(R.Wrote(R.ListVolumes(b), r), s.backups)
  {
    var out := R.Wrote(R.ListVolumes(b), r);
    if out.status.value.volumes != [] {
      if r.status.value.volumes == [] {
        VolumeRestoresPair(r, b.status.value.volumes);
        assert PairedWith(out, s.backups[i]);
      } else {
        var j :| 0 <= j < |s.backups| && R.Usable(s.backups[j]) && PairedWith(r, s.backups[j]);
        PairingSurvives(s, r, j, i);
        assert PairedWith(out, s.backups[i]);
      }
    }
  }

  lemma SameMarks(a: Restore, b: Restore, vms: seq<Option<Vm>>)
    requires R.SameRestore(a, b)
    ensures forall vm :: RestoredVersion(a, vm) == RestoredVersion(b, vm)
    ensures forall volumes :: R.UsesRestoredClaims(a, volumes) == R.UsesRestoredClaims(b, volumes)
    ensures Marked(a, vms) == Marked(b, vms)
  {
    forall volumes
      ensures R.UsesRestoredClaims(a, volumes) == R.UsesRestoredClaims(b, volumes)
    {
    }
  }

  /** Moving one thread on keeps the invariant when the stores do and the thread's new place is right. */
  lemma GoKeepsInv(s: State, mid: State, t: nat, l: Local)
    requires Inv(s) && Extends(s, mid) && mid.threads == s.threads && StoresInv(mid) && Holds(l, mid)
    ensures Inv(Go(mid, t, l))
  {
    AllHoldLater(s, mid);
    var out := Go(mid, t, l);
    forall u | u in out.threads
      ensures Holds(out.threads[u], out)
    {
      HoldsLater(mid, out, out.threads[u]);
    }
  }

  lemma BackupGrows(s: State, backups: seq<Backup>, log: seq<Writer>)
    requires Inv(s) && s.backups <= backups && B.Replays(backups, log)
    ensures Inv(s.(backups := backups, backupLog := log))
  {
    ListedLater(s.restores, s.restoreLog, s.backups, backups);
    AllHoldLater(s, s.(backups := backups, backupLog := log));
  }

  lemma BackupWriteKeepsInv(s: State, w: Writer)
    requires Inv(s)
    ensures Inv(BackupStep(s, w))
  {
    var current := s.backups[|s.backups| - 1];
    if Enabled(w, current) {
      B.AppendWrite(s.backups, s.backupLog, w);
      BackupGrows(s, s.backups + [Apply(w, current)], s.backupLog + [w]);
    }
  }

  lemma RestoreGrows(s: State, w: R.RestoreWriter)
    requires Inv(s) && R.CanWrite(w, s.restores[|s.restores| - 1])
    requires w.ListVolumes? ==> exists i :: 0 <= i < |s.backups| && s.backups[i] == w.backup
    ensures var mid := StoreWrite(s, w, s.restores[|s.restores| - 1]); Extends(s, mid) && StoresInv(mid)
  {
    var mid := StoreWrite(s, w, s.restores[|s.restores| - 1]);
    WroteKeepsRestoresInv(s, w);
    AllHoldLater(s, mid);
  }

  lemma VmGrows(s: State, vm: Vm)
    requires Inv(s)
    requires RestoredVersion(s.restores[0], s.vms[|s.vms| - 1]) ==> R.RestoredBy(s.restores[0], vm)
    requires R.RestoredBy(s.restores[0], vm) ==> R.UsesRestoredClaims(s.restores[0], vm.spec.volumes)
    ensures var mid := AddVm(s, vm);
      Extends(s, mid) && StoresInv(mid) && (R.RestoredBy(s.restores[0], vm) ==> Marked(s.restores[0], mid.vms))
  {
    var mid := AddVm(s, vm);
    AppendVm(s.restores[0], s.vms, vm);
    AllHoldLater(s, mid);
  }

  lemma WriteRestoreKeepsInv(s: State, t: nat, w: R.RestoreWriter)
    requires Inv(s)
    ensures Inv(WriteStep(s, t, w))
  {
    var l := At(s, t);
    if !l.Idle? && Follows(l, w) && R.CanWrite(w, HeldRestore(l).0) {
      assert Holds(l, s);
      if HeldRestore(l).1 == |s.restores| - 1 {
        HeldIsCurrent(s, l, w);
        RestoreGrows(s, w);
        GoKeepsInv(s, StoreWrite(s, w, HeldRestore(l).0), t, Local.Idle);
      } else {
        GoKeepsInv(s, s, t, Local.Idle);
      }
    }
  }

  lemma HeldIsCurrent(s: State, l: Local, w: R.RestoreWriter)
    requires Inv(s) && Holds(l, s) && !l.Idle? && Follows(l, w) && HeldRestore(l).1 == |s.restores| - 1
    ensures HeldRestore(l).0 == s.restores[|s.restores| - 1]
    ensures w.ListVolumes? ==> exists i :: 0 <= i < |s.backups| && s.backups[i] == w.backup
  {
  }

  lemma StartClaimsKeepsInv(s: State, t: nat)
    requires Inv(s)
    ensures Inv(StartClaimsStep(s, t))
  {
    var l := At(s, t);
    if l.HasBackup? && l.p.r.status.Some? && !IsRestoreMissingVolumes(l.p.r) {
      assert Holds(l, s);
      assert ListedFrom(s.restores[l.p.rv], s.backups);
      var i :| 0 <= i < |s.backups| && R.Usable(s.backups[i]) && PairedWith(l.p.r, s.backups[i]);
      PairingSurvives(s, l.p.r, i, l.p.bv);
      GoKeepsInv(s, s, t, Claims(l.p, 0));
    }
  }

  /** The positional lookup is in bounds and hits the volume the restore entry names. */
  lemma PositionIsRight(p: Pass, s: State, i: nat)
    requires Ranging(p, s) && i < |p.r.status.value.volumes|
    ensures i < |p.b.status.value.volumes| && p.b.status.value.volumes[i].name.Some?
    ensures SameVolume(Creation(p.r.status.value.volumes[i], p.b.status.value.volumes[i]))
  {
  }

  lemma SeeOneKeepsInv(s: State, t: nat, p: Pass, i: nat, seen: Option<Phase>)
    requires Inv(s) && Holds(Claims(p, i), s) && i < |p.r.status.value.volumes|
    ensures Inv(SeeOneClaim(s, t, p, i, seen))
  {
    if seen.None? {
      PositionIsRight(p, s, i);
      var mid := s.(created := s.created + [Creation(p.r.status.value.volumes[i], p.b.status.value.volumes[i])]);
      AllHoldLater(s, mid);
      GoKeepsInv(s, mid, t, Claims(p.(allBound := false), i + 1));
    } else if seen.value.Bound? {
      GoKeepsInv(s, s, t, Claims(p.(bound := p.bound + {p.r.status.value.volumes[i].claimName}), i + 1));
    } else if seen.value.Pending? {
      GoKeepsInv(s, s, t, Claims(p.(allBound := false), i + 1));
    }
  }

  lemma FoundHolds(p: Pass, s: State, v: nat)
    requires Inv(s) && Looked(p, s) && v < |s.vms|
    ensures Holds(Found(p, s.vms, v), s)
  {
    if RestoredVersion(p.r, s.vms[v]) {
      assert Marked(p.r, s.vms);
    }
  }

  /** What a pass makes of the target VM carries its mark and uses its claims. */
  lemma PassWritesRestoredVm(hex: string -> string, p: Pass, s: State, uid: string, vm: Vm)
    requires Inv(s) && Ranging(p, s)
    ensures var r := s.restores[0];
      var source := p.b.status.value.source.value;
      var vrs := p.r.status.value.volumes;
      R.RestoredBy(r, R.CreatedVm(hex, p.r, source, vrs, uid)) &&
        R.UsesRestoredClaims(r, R.CreatedVm(hex, p.r, source, vrs, uid).spec.volumes) &&
      R.RestoredBy(r, R.UpdatedVm(p.r, source, vrs, vm)) &&
        R.UsesRestoredClaims(r, R.UpdatedVm(p.r, source, vrs, vm).spec.volumes)
  {
    B.VersionsCoverTheirSource(s.backups, s.backupLog, p.bv);
    var source, vrs := p.b.status.value.source.value, p.r.status.value.volumes;
    R.WrittenVmIsRestored(hex, p.r, source, vrs, p.b.status.value.volumes, uid, vm);
    SameMarks(s.restores[0], p.r, s.vms);
    assert RestoredVersion(p.r, Some(R.CreatedVm(hex, p.r, source, vrs, uid)));
    assert RestoredVersion(p.r, Some(R.UpdatedVm(p.r, source, vrs, vm)));
  }

  lemma VmStepKeepsInv(s: State, t: nat, p: Pass, vm: Vm, created: bool)
    requires Inv(s) && Looked(p, s)
    requires R.RestoredBy(s.restores[0], vm) && R.UsesRestoredClaims(s.restores[0], vm.spec.volumes)
    ensures Inv(Go(AddVm(s, vm), t, VmWritten(p, created)))
  {
    var mid := AddVm(s, vm);
    VmGrows(s, vm);
    SameMarks(s.restores[0], p.r, mid.vms);
    GoKeepsInv(s, mid, t, VmWritten(p, created));
  }

  lemma CreateVmKeepsInv(hex: string -> string, s: State, t: nat, uid: string)
    requires Inv(s)
    ensures Inv(CreateVmStep(hex, s, t, uid))
  {
    var l := At(s, t);
    if l.VmAbsent? {
      assert Holds(l, s);
      var vm := R.CreatedVm(hex, l.p.r, l.p.b.status.value.source.value, l.p.r.status.value.volumes, uid);
      PassWritesRestoredVm(hex, l.p, s, uid, vm);
      if s.vms[|s.vms| - 1].Some? {
        GoKeepsInv(s, s, t, Local.Idle);
      } else {
        VmStepKeepsInv(s, t, l.p, vm, true);
      }
    }
  }

  lemma UpdateVmKeepsInv(hex: string -> string, s: State, t: nat)
    requires Inv(s)
    ensures Inv(UpdateVmStep(s, t))
  {
    var l := At(s, t);
    if l.VmOther? {
      assert Holds(l, s);
      var vm := R.UpdatedVm(l.p.r, l.p.b.status.value.source.value, l.p.r.status.value.volumes, l.vm);
      PassWritesRestoredVm(hex, l.p, s, "", l.vm);
      if l.vmRv != |s.vms| - 1 {
        GoKeepsInv(s, s, t, Local.Idle);
      } else {
        VmStepKeepsInv(s, t, l.p, vm, false);
      }
    }
  }

  lemma DeletionIsJustified(s: State, p: Pass, vm: Vm, k: nat)
    requires Inv(s) && Holds(Deleting(p, vm, k), s) && !KeepsOldVolumes(p.r) && k < |p.r.status.value.deletedVolumes|
    ensures Justified(Deletion(p.r.status.value.deletedVolumes[k], p, vm, s.vms[|s.vms| - 1]), s)
  {
    SameMarks(s.restores[0], p.r, s.vms);
    MarkedNow(s.restores[0], s.vms);
  }

  lemma DeletionGrows(s: State, d: Deletion)
    requires Inv(s) && Justified(d, s)
    ensures var mid := s.(deleted := s.deleted + [d]); Extends(s, mid) && StoresInv(mid)
  {
    var mid := s.(deleted := s.deleted + [d]);
    AllHoldLater(s, mid);
    JustifiedLater(s, mid, d);
  }

  lemma JustifiedLater(s: State, out: State, d: Deletion)
    requires Extends(s, out) && Justified(d, s)
    ensures Justified(d, out)
  {
  }

  lemma DeleteOneKeepsInv(s: State, t: nat, p: Pass, vm: Vm, k: nat)
    requires Inv(s) && Holds(Deleting(p, vm, k), s) && !KeepsOldVolumes(p.r) && k < |p.r.status.value.deletedVolumes|
    ensures Inv(DeleteOne(s, t, p, vm, k))
  {
    var d := Deletion(p.r.status.value.deletedVolumes[k], p, vm, s.vms[|s.vms| - 1]);
    DeletionIsJustified(s, p, vm, k);
    DeletionGrows(s, d);
    var mid := s.(deleted := s.deleted + [d]);
    HoldsLater(s, mid, Deleting(p, vm, k));
    GoKeepsInv(s, mid, t, Deleting(p, vm, k + 1));
  }

  lemma BeginDeletingKeepsInv(s: State, t: nat, p: Pass, vm: Vm)
    requires Inv(s) && Holds(HasVm(p, vm), s) && p.r.owner.Some? && p.allBound && vm.ready
    ensures Inv(Go(s, t, Deleting(p, vm, 0)))
  {
    GoKeepsInv(s, s, t, Deleting(p, vm, 0));
  }

  lemma EndDeletingKeepsInv(s: State, t: nat, p: Pass, vm: Vm, k: nat)
    requires Inv(s) && Holds(Deleting(p, vm, k), s)
    ensures Inv(Go(s, t, Finishing(p)))
  {
    GoKeepsInv(s, s, t, Finishing(p));
  }

  lemma DeleteNextKeepsInv(s: State, t: nat)
    requires Inv(s)
    ensures Inv(DeleteNextStep(s, t))
  {
    var l := At(s, t);
    if l.HasVm? || l.Deleting? {
      assert Holds(l, s);
      if l.HasVm? {
        if l.p.r.owner.Some? && l.p.allBound && l.vm.ready {
          BeginDeletingKeepsInv(s, t, l.p, l.vm);
        }
      } else if KeepsOldVolumes(l.p.r) || l.k >= |l.p.r.status.value.deletedVolumes| {
        EndDeletingKeepsInv(s, t, l.p, l.vm, l.k);
      } else {
        DeleteOneKeepsInv(s, t, l.p, l.vm, l.k);
      }
    }
  }

  lemma EnterKeepsInv(s: State, t: nat, v: nat)
    requires Inv(s)
    ensures Inv(EnterStep(s, t, v))
  {
    if EnterStep(s, t, v) != s {
      GoKeepsInv(s, s, t, Entered(s.restores[v], v));
    }
  }

  lemma ReadBackupKeepsInv(s: State, t: nat, v: nat)
    requires Inv(s)
    ensures Inv(ReadBackupStep(s, t, v))
  {
    var l := At(s, t);
    if ReadBackupStep(s, t, v) != s {
      assert Holds(l, s);
      GoKeepsInv(s, s, t, HasBackup(Pass(l.r, l.rv, s.backups[v], v, {}, true)));
    }
  }

  lemma SeeClaimKeepsInv(s: State, t: nat, seen: Option<Phase>)
    requires Inv(s)
    ensures Inv(SeeClaimStep(s, t, seen))
  {
    var l := At(s, t);
    assert Holds(l, s);
    if l.Claims? {
      if l.i >= |l.p.r.status.value.volumes| {
        GoKeepsInv(s, s, t, SeekVm(l.p));
      } else {
        SeeOneKeepsInv(s, t, l.p, l.i, seen);
      }
    }
  }

  lemma FindVmKeepsInv(s: State, t: nat, v: nat)
    requires Inv(s)
    ensures Inv(FindVmStep(s, t, v))
  {
    var l := At(s, t);
    if l.SeekVm? && v < |s.vms| {
      assert Holds(l, s);
      FoundHolds(l.p, s, v);
      GoKeepsInv(s, s, t, Found(l.p, s.vms, v));
    }
  }

  lemma RereadVmKeepsInv(s: State, t: nat, v: nat)
    requires Inv(s)
    ensures Inv(RereadVmStep(s, t, v))
  {
    var l := At(s, t);
    if l.VmWritten? && v < |s.vms| {
      assert Holds(l, s);
      if s.vms[v].None? {
        GoKeepsInv(s, s, t, Local.Idle);
      } else if l.created {
        FoundHolds(l.p, s, v);
        GoKeepsInv(s, s, t, Found(l.p, s.vms, v));
      } else {
        GoKeepsInv(s, s, t, HasVm(l.p, s.vms[v].value));
      }
    }
  }

  lemma TargetStepKeepsInv(hex: string -> string, s: State, a: Action)
    requires Inv(s)
    ensures Inv(TargetStep(hex, s, a))
  {
    match a
    case FindVm(t, v) => FindVmKeepsInv(s, t, v);
    case CreateVm(t, uid) => CreateVmKeepsInv(hex, s, t, uid);
    case UpdateVm(t) => UpdateVmKeepsInv(hex, s, t);
    case RereadVm(t, v) => RereadVmKeepsInv(s, t, v);
    case DeleteNext(t) => DeleteNextKeepsInv(s, t);
    case _ =>
  }

  lemma ResourceStepKeepsInv(hex: string -> string, s: State, a: Action)
    requires Inv(s)
    ensures Inv(ResourceStep(hex, s, a))
  {
    match a
    case StartClaims(t) => StartClaimsKeepsInv(s, t);
    case SeeClaim(t, seen) => SeeClaimKeepsInv(s, t, seen);
    case _ => TargetStepKeepsInv(hex, s, a);
  }

  lemma StopKeepsInv(s: State, t: nat)
    requires Inv(s)
    ensures Inv(Go(s, t, Local.Idle))
  {
    GoKeepsInv(s, s, t, Local.Idle);
  }

  lemma PassStepKeepsInv(hex: string -> string, s: State, a: Action)
    requires Inv(s)
    ensures Inv(PassStep(hex, s, a))
  {
    match a
    case Enter(t, v) => EnterKeepsInv(s, t, v);
    case ReadBackup(t, v) => ReadBackupKeepsInv(s, t, v);
    case Stop(t) => StopKeepsInv(s, t);
    case _ => ResourceStepKeepsInv(hex, s, a);
  }

  /** Growing stores keep the invariant when no thread moves. */
  lemma StoresKeepInv(s: State, out: State)
    requires Inv(s) && Extends(s, out) && out.threads == s.threads && StoresInv(out)
    ensures Inv(out)
  {
    AllHoldLater(s, out);
  }

  lemma EditKeepsInv(s: State, w: R.RestoreWriter)
    requires Inv(s) && w.UserEdit?
    ensures Inv(EditStep(s, w))
  {
    var r := s.restores[|s.restores| - 1];
    if R.CanWrite(w, r) {
      RestoreGrows(s, w);
      StoresKeepInv(s, StoreWrite(s, w, r));
    }
  }

  lemma StatusChangeGrows(s: State, vm: Vm, ready: bool)
    requires Inv(s) && s.vms[|s.vms| - 1] == Some(vm)
    ensures var mid := AddVm(s, vm.(ready := ready)); Extends(s, mid) && StoresInv(mid)
  {
    assert RestoredVersion(s.restores[0], Some(vm)) == R.RestoredBy(s.restores[0], vm);
    VmGrows(s, vm.(ready := ready));
  }

  lemma VmStatusKeepsInv(s: State, ready: bool)
    requires Inv(s)
    ensures Inv(VmStatusStep(s, ready))
  {
    var current := s.vms[|s.vms| - 1];
    if current.Some? {
      StatusChangeGrows(s, current.value, ready);
      StoresKeepInv(s, AddVm(s, current.value.(ready := ready)));
    }
  }

  lemma OutsideStepKeepsInv(s: State, a: Action)
    requires Inv(s)
    ensures Inv(OutsideStep(s, a))
  {
    match a
    case EditRestore(deleting) => EditKeepsInv(s, R.UserEdit(deleting));
    case VmStatus(ready) => VmStatusKeepsInv(s, ready);
    case _ =>
  }

  lemma NextKeepsInv(hex: string -> string, s: State, a: Action)
    requires Inv(s)
    ensures Inv(Next(hex, s, a))
  {
    match a
    case WriteRestore(t, w) => WriteRestoreKeepsInv(s, t, w);
    case BackupWrite(w) => BackupWriteKeepsInv(s, w);
    case _ =>
      if a.EditRestore? || a.VmStatus? {
        OutsideStepKeepsInv(s, a);
      } else {
        PassStepKeepsInv(hex, s, a);
      }
  }

  lemma InitialInv(s: State)
    requires Initial(s)
    ensures Inv(s)
  {
  }

  lemma {:induction false} RunKeepsInv(hex: string -> string, s: State, actions: seq<Action>)
    requires Inv(s)
    ensures Inv(Run(hex, s, actions)) && Extends(s, Run(hex, s, actions))
  {
    if actions != [] {
      var before := Run(hex, s, actions[..|actions| - 1]);
      RunKeepsInv(hex, s, actions[..|actions| - 1]);
      NextKeepsInv(hex, before, actions[|actions| - 1]);
      NextGrows(hex, before, actions[|actions| - 1]);
    }
  }

  // Main results

  /** In every run no lookup by position fails, and a claim is only ever made from the snapshot of the volume
      whose entry it restores. */
  lemma ClaimsComeFromTheirVolume(hex: string -> string, s: State, actions: seq<Action>)
    requires Initial(s)
    ensures !Run(hex, s, actions).panicked
    ensures forall c | c in Run(hex, s, actions).created ::
      c.vr.volumeName == c.vb.volumeName && c.vb.name == Some(c.vr.volumeBackupName)
  {
    InitialInv(s);
    RunKeepsInv(hex, s, actions);
  }

  /** Whatever versions of the two objects are compared, the restore lists no volumes yet, or pairs with the
      ready backup volume by volume and lists all of its claims for deletion, or none. */
  lemma VersionsPair(hex: string -> string, s: State, actions: seq<Action>, i: nat, j: nat)
    requires Initial(s)
    requires j < |Run(hex, s, actions).restores| && i < |Run(hex, s, actions).backups|
    requires R.Usable(Run(hex, s, actions).backups[i]) && Run(hex, s, actions).restores[j].status.Some?
    ensures var r, b := Run(hex, s, actions).restores[j], Run(hex, s, actions).backups[i];
      r.status.value.volumes == [] ||
      (&& Paired(r, r.status.value.volumes, b.status.value.volumes)
       && (r.status.value.deletedVolumes == [] || R.ListsOldClaims(r.status.value, b.status.value.volumes)))
  {
    InitialInv(s);
    RunKeepsInv(hex, s, actions);
    var out := Run(hex, s, actions);
    if out.restores[j].status.value.volumes != [] {
      StoredVersionsPair(out, i, j);
    }
  }

  lemma StoredVersionsPair(s: State, i: nat, j: nat)
    requires Inv(s) && j < |s.restores| && i < |s.backups| && R.Usable(s.backups[i]) && s.restores[j].status.Some?
    requires s.restores[j].status.value.volumes != []
    ensures PairedWith(s.restores[j], s.backups[i])
    ensures var t := s.restores[j].status.value;
      t.deletedVolumes == [] || R.ListsOldClaims(t, s.backups[i].status.value.volumes)
  {
    var r := s.restores[j];
    assert ListedFrom(r, s.backups);
    var k :| 0 <= k < |s.backups| && R.Usable(s.backups[k]) && PairedWith(r, s.backups[k]);
    PairingSurvives(s, r, k, i);
  }

  /** No claim the backup records carries the restore's uid in its name. */
  ghost predicate FreshFor(r: Restore, backups: seq<Backup>) {
    forall b | b in backups && R.Usable(b) :: ClaimsFresh(r, b.status.value.volumes)
  }

  ghost predicate ClaimsFresh(r: Restore, vbs: seq<VolumeBackup>) {
    forall vb | vb in vbs :: FreshUid(r, vb.claim.name)
  }

  /** A claim is deleted only by a pass that keeps no old volumes, saw all restored claims Bound and the VM
      Ready; it is none of the restored claims, and the VM stored at that moment uses none of the claims the
      pass deletes. */
  lemma DeletionsAreSafe(hex: string -> string, s: State, actions: seq<Action>, d: Deletion)
    requires Initial(s) && d in Run(hex, s, actions).deleted
    requires FreshFor(s.restores[0], Run(hex, s, actions).backups)
    ensures !d.pass.r.spec.newVm && !d.pass.r.spec.retain && d.seen.ready && d.pass.r in Run(hex, s, actions).restores
    ensures d.pass.r.status.Some? && d.claim in d.pass.r.status.value.deletedVolumes
    ensures forall vr | vr in d.pass.r.status.value.volumes :: vr.claimName in d.pass.bound && vr.claimName != d.claim
    ensures d.stored.Some? && forall v | v in d.stored.value.spec.volumes && v.claim.Some? ::
      v.claim.value !in d.pass.r.status.value.deletedVolumes
  {
    InitialInv(s);
    RunKeepsInv(hex, s, actions);
    var out := Run(hex, s, actions);
    var p := d.pass;
    assert Justified(d, out);
    assert p.b in out.backups && R.SameRestore(s.restores[0], p.r);
    forall name, volumeName | name in p.r.status.value.deletedVolumes
      ensures name != RestoredClaimName(p.r, volumeName)
    {
      var k :| 0 <= k < |p.b.status.value.volumes| && name == R.OldClaims(p.b.status.value.volumes)[k];
      assert p.b.status.value.volumes[k] in p.b.status.value.volumes;
      assert FreshUid(s.restores[0], name);
      FreshUidNames(p.r, name, volumeName);
    }
  }

  lemma {:induction false} CompletedStays(restores: seq<Restore>, log: seq<R.RestoreWriter>, i: nat, j: nat)
    requires ReplaysRestore(restores, log) && i <= j < |restores| && R.IsComplete(restores[i])
    ensures restores[j] == restores[i].(deleting := restores[j].deleting)
  {
    if i < j {
      CompletedStays(restores, log, i, j - 1);
      R.WroteKeepsComplete(log[j - 1], restores[j - 1]);
    }
  }

  /** Every stored version says Complete exactly when its Ready condition is True, carries one Ready and one
      InProgress condition as soon as it has a status, and is complete only with owner and target uid set.
      A completed version changes no more, but for a deletion mark. */
  lemma RestoresAreSound(hex: string -> string, s: State, actions: seq<Action>, i: nat, j: nat)
    requires Initial(s) && i <= j < |Run(hex, s, actions).restores|
    ensures var r := Run(hex, s, actions).restores[j];
      && (R.IsComplete(r) <==> R.ReportsComplete(r))
      && (r.status.Some? ==>
        ExactlyOnce(r.status.value.conditions, Ready) && ExactlyOnce(r.status.value.conditions, InProgress))
      && (R.IsComplete(r) ==> r.owner.Some? && r.status.value.targetUid.Some?)
    ensures var out := Run(hex, s, actions);
      R.IsComplete(out.restores[i]) ==> out.restores[j] == out.restores[i].(deleting := out.restores[j].deleting)
  {
    InitialInv(s);
    RunKeepsInv(hex, s, actions);
    var out := Run(hex, s, actions);
    assert R.SoundRestore(out.restores[j]);
    if R.IsComplete(out.restores[i]) {
      CompletedStays(out.restores, out.restoreLog, i, j);
    }
  }
}
