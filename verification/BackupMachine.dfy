/** All writers of one VirtualMachineBackup, interleaved call by call on copies that may be stale. */
module BackupMachine {
  import opened Outcomes
  import opened Objects
  import opened BackupWriters

  // The versions of the object, as one writer after another

  /** Every stored version is its immediate predecessor plus one enabled write. */
  ghost predicate Replays(history: seq<Backup>, log: seq<Writer>) {
    |history| == |log| + 1 &&
    forall i | 0 <= i < |log| :: Enabled(log[i], history[i]) && history[i + 1] == Apply(log[i], history[i])
  }

  lemma AppendWrite(history: seq<Backup>, log: seq<Writer>, w: Writer)
    requires Replays(history, log) && Enabled(w, history[|log|])
    ensures Replays(history + [Apply(w, history[|log|])], log + [w])
  {
    var out, more := history + [Apply(w, history[|log|])], log + [w];
    forall i | 0 <= i < |more|
      ensures Enabled(more[i], out[i]) && out[i + 1] == Apply(more[i], out[i])
    {
      if i < |log| {
        assert more[i] == log[i] && out[i] == history[i] && out[i + 1] == history[i + 1];
      }
    }
  }

  lemma {:induction false} ReadyIsFrozen(history: seq<Backup>, log: seq<Writer>, i: nat, j: nat)
    requires Replays(history, log) && i <= j < |history| && IsBackupReady(history[i])
    ensures IsBackupReady(history[j]) && Core(history[j].status.value) == Core(history[i].status.value)
  {
    if i < j {
      ReadyIsFrozen(history, log, i, j - 1);
      ApplyKeepsReady(log[j - 1], history[j - 1]);
    }
  }

  lemma {:induction false} VersionsAreSound(history: seq<Backup>, log: seq<Writer>, j: nat)
    requires Replays(history, log) && j < |history|
    requires Sound(history[0]) && forall w | w in log :: Honest(w)
    ensures Sound(history[j])
  {
    if j > 0 {
      VersionsAreSound(history, log, j - 1);
      ApplyKeepsSound(log[j - 1], history[j - 1]);
    }
  }

  lemma {:induction false} VersionsCoverTheirSource(history: seq<Backup>, log: seq<Writer>, j: nat)
    requires Replays(history, log) && j < |history| && CoversSource(history[0])
    ensures CoversSource(history[j])
  {
    if j > 0 {
      VersionsCoverTheirSource(history, log, j - 1);
      ApplyKeepsCovers(log[j - 1], history[j - 1]);
    }
  }

  // The store

  /** An update succeeds only against the current version; writing back the same object changes nothing. */
  function Put(history: seq<Backup>, rv: nat, obj: Backup): (out: seq<Backup>)
    requires history != []
  {
    if rv == |history| - 1 && obj != history[rv] then history + [obj] else history
  }

  // Threads

  /** What a running call holds between two API calls: the copy it read and that copy's version. */
  datatype Local =
    | Idle
    | Reconciling(obj: Backup, rv: nat)      // Reconcile, right after its Get
    | SnapshotsDone(obj: Backup, rv: nat)    // reconcileVolumeSnapshots returned nil, nil; still the first copy
    | SnapshotsFailed(obj: Backup, rv: nat)  // it returned an error: nil result about to be dereferenced
    | ReadyHeld(obj: Backup, rv: nat)        // handleBackupReady, before configureBackupTargetOnStatus
    | FinalizerHeld(obj: Backup, rv: nat)    // Reconcile, re-read to add or remove the finalizer
    | CallbackHeld(obj: Backup, rv: nat)     // OnLHBackupChanged

  datatype Action =
    | Read(thread: nat, version: nat, now: nat)
    | ReadForFinalizer(thread: nat, version: nat)
    | ReadForCallback(thread: nat, version: nat)
    | KeepClassNames(thread: nat)
    | SnapshotError(thread: nat)
    | Write(thread: nat, writer: Writer, reread: nat)
    | Stop(thread: nat)                      // finished, returned an error, or crashed
    | UserEdit(writer: Writer)

  datatype State = State(history: seq<Backup>, log: seq<Writer>, threads: map<nat, Local>)

  function At(s: State, t: nat): Local {
    if t in s.threads then s.threads[t] else Idle
  }

  /** Reconcile fills a missing status in its own copy before deciding anything. */
  function Entered(b: Backup, now: nat): Backup {
    if b.status.None? then b.(status := Some(EMPTY_BACKUP_STATUS.(created := Some(now)))) else b
  }

  /** Which write may come next in each place. */
  predicate Follows(l: Local, w: Writer) {
    match l
    case Idle => false
    case Reconciling(_, _) => w.ErrorReset? || w.Init? || w.Snapshots? || w.ClassNames?
    case SnapshotsDone(_, _) => w.Conclude?
    case SnapshotsFailed(_, _) => w.ErrorReset?
    case ReadyHeld(_, _) => w.TargetFromAnnotation?
    case FinalizerHeld(_, _) => w.Finalize?
    case CallbackHeld(_, _) => w.LonghornName?
  }

  /** The write's own guard against a call that would change nothing in the status. */
  predicate ComparesFirst(w: Writer) {
    w.Snapshots? || w.Conclude? || w.LonghornName?
  }

  function After(l: Local, w: Writer, history: seq<Backup>, stored: bool, reread: nat): Local
    requires !l.Idle?
  {
    if w.Snapshots? then (if stored then SnapshotsDone(l.obj, l.rv) else SnapshotsFailed(l.obj, l.rv))
    else if w.ClassNames? && stored && reread < |history| then ReadyHeld(history[reread], reread)
    else Idle
  }

  ghost function Next(s: State, a: Action): State
    requires s.history != []
  {
    match a
    case Read(t, v, now) =>
      if At(s, t).Idle? && v < |s.history|
        then s.(threads := s.threads[t := Reconciling(Entered(s.history[v], now), v)]) else s
    case ReadForFinalizer(t, v) =>
      if At(s, t).Idle? && v < |s.history| then s.(threads := s.threads[t := FinalizerHeld(s.history[v], v)]) else s
    case ReadForCallback(t, v) =>
      if At(s, t).Idle? && v < |s.history| then s.(threads := s.threads[t := CallbackHeld(s.history[v], v)]) else s
    case KeepClassNames(t) =>
      var l := At(s, t);
      if l.Reconciling? && !l.obj.deleting && IsBackupReady(l.obj) && l.obj.status.value.classNames != map[]
      then s.(threads := s.threads[t := ReadyHeld(l.obj, l.rv)]) else s
    case SnapshotError(t) =>
      var l := At(s, t);
      if l.Reconciling? && !l.obj.deleting && !IsBackupReady(l.obj) && !IsBackupMissingStatus(l.obj)
      then s.(threads := s.threads[t := SnapshotsFailed(l.obj, l.rv)]) else s
    case Write(t, w, reread) =>
      var l := At(s, t);
      if Follows(l, w) && Enabled(w, l.obj) then WriteStep(s, t, l, w, reread) else s
    case Stop(t) => s.(threads := s.threads[t := Idle])
    case UserEdit(w) =>
      var current := s.history[|s.history| - 1];
      if w.Edit? && Enabled(w, current) && Apply(w, current) != current
      then s.(history := s.history + [Apply(w, current)], log := s.log + [w]) else s
  }

  ghost function WriteStep(s: State, t: nat, l: Local, w: Writer, reread: nat): State
    requires s.history != [] && Follows(l, w) && Enabled(w, l.obj)
  {
    var obj := Apply(w, l.obj);
    if ComparesFirst(w) && obj.status == l.obj.status then
      s.(threads := s.threads[t := After(l, w, s.history, true, reread)])
    else
      var history := Put(s.history, l.rv, obj);
      s.(history := history,
         log := if |history| > |s.history| then s.log + [w] else s.log,
         threads := s.threads[t := After(l, w, history, l.rv == |s.history| - 1, reread)])
  }

  ghost function Run(s: State, actions: seq<Action>): (out: State)
    requires s.history != []
    ensures out.history != []
  {
    if actions == [] then s
    else
      var before := Run(s, actions[..|actions| - 1]);
      NextKeepsHistory(before, actions[|actions| - 1]);
      Next(before, actions[|actions| - 1])
  }

  lemma NextKeepsHistory(s: State, a: Action)
    requires s.history != []
    ensures s.history <= Next(s, a).history
  {
  }

  // Refinement

  /** A held copy is the version it was read from, with a status filled in at most. */
  ghost predicate Holds(l: Local, history: seq<Backup>) {
    l.Idle? ||
    (l.rv < |history| &&
     if l.Reconciling? then exists now :: l.obj == Entered(history[l.rv], now) else l.obj == history[l.rv])
  }

  ghost predicate Inv(s: State) {
    Replays(s.history, s.log) && forall t | t in s.threads :: Holds(s.threads[t], s.history)
  }

  lemma EnteredWrites(w: Writer, b: Backup, now: nat)
    requires w.ErrorReset? || w.Init? || w.Snapshots? || w.ClassNames?
    requires Enabled(w, Entered(b, now))
    ensures Enabled(w, b) && Apply(w, b) == Apply(w, Entered(b, now))
  {
  }

  lemma NextKeepsInv(s: State, a: Action)
    requires s.history != [] && Inv(s)
    ensures Inv(Next(s, a))
  {
    var out := Next(s, a);
    HoldsLater(s, out.history);
    match a
    case Read(t, v, now) =>
      if v < |s.history| {
        assert Holds(Reconciling(Entered(s.history[v], now), v), s.history);
      }
    case Write(t, w, reread) =>
      var l := At(s, t);
      if Follows(l, w) && Enabled(w, l.obj) {
        WriteKeepsInv(s, t, l, w, reread);
      }
    case _ =>
  }

  lemma HoldsLater(s: State, history: seq<Backup>)
    requires Inv(s) && s.history <= history
    ensures forall t | t in s.threads :: Holds(s.threads[t], history)
  {
  }

  /** A write computed on a held copy is the same write on the stored version it was read from. */
  lemma HeldWrite(l: Local, w: Writer, history: seq<Backup>)
    requires Holds(l, history) && Follows(l, w) && Enabled(w, l.obj)
    ensures Enabled(w, history[l.rv]) && Apply(w, history[l.rv]) == Apply(w, l.obj)
    ensures w.Snapshots? ==> l.obj == history[l.rv]
  {
    if l.Reconciling? {
      var now :| l.obj == Entered(history[l.rv], now);
      EnteredWrites(w, history[l.rv], now);
    }
  }

  lemma PutReplays(history: seq<Backup>, log: seq<Writer>, rv: nat, w: Writer)
    requires Replays(history, log) && rv < |history| && Enabled(w, history[rv])
    ensures var out := Put(history, rv, Apply(w, history[rv]));
      history <= out && Replays(out, if |out| > |history| then log + [w] else log)
  {
    if rv == |history| - 1 {
      AppendWrite(history, log, w);
    }
  }

  lemma MoveKeepsInv(s: State, history: seq<Backup>, log: seq<Writer>, t: nat, l: Local)
    requires Inv(s) && s.history <= history && Replays(history, log) && Holds(l, history)
    ensures Inv(State(history, log, s.threads[t := l]))
  {
    HoldsLater(s, history);
  }

  lemma AfterHolds(l: Local, w: Writer, history: seq<Backup>, stored: bool, reread: nat)
    requires Holds(l, history) && Follows(l, w) && (w.Snapshots? ==> l.obj == history[l.rv])
    ensures Holds(After(l, w, history, stored, reread), history)
  {
  }

  lemma WriteKeepsInv(s: State, t: nat, l: Local, w: Writer, reread: nat)
    requires s.history != [] && Inv(s) && l == At(s, t) && Follows(l, w) && Enabled(w, l.obj)
    ensures Inv(WriteStep(s, t, l, w, reread))
  {
    HeldWrite(l, w, s.history);
    PutReplays(s.history, s.log, l.rv, w);
    var out := WriteStep(s, t, l, w, reread);
    HoldsLater(s, out.history);
    var stored := (ComparesFirst(w) && Apply(w, l.obj).status == l.obj.status) || l.rv == |s.history| - 1;
    AfterHolds(l, w, out.history, stored, reread);
    MoveKeepsInv(s, out.history, out.log, t, At(out, t));
  }

  lemma {:induction false} RunKeepsInv(s: State, actions: seq<Action>)
    requires s.history != [] && Inv(s)
    ensures Inv(Run(s, actions)) && s.history <= Run(s, actions).history && s.log <= Run(s, actions).log
  {
    if actions != [] {
      var before := Run(s, actions[..|actions| - 1]);
      RunKeepsInv(s, actions[..|actions| - 1]);
      NextKeepsInv(before, actions[|actions| - 1]);
      NextKeepsHistory(before, actions[|actions| - 1]);
    }
  }

  ghost function Start(b: Backup): State {
    State([b], [], map[])
  }

  /** However calls, callbacks and edits interleave, and however stale their reads, the stored versions
      are those of writers taking turns on the current version. */
  lemma ConcurrentWritersTakeTurns(b: Backup, actions: seq<Action>)
    ensures var s := Run(Start(b), actions); s.history[0] == b && Replays(s.history, s.log)
  {
    RunKeepsInv(Start(b), actions);
  }

  /** A stored backup that is ready to use stays so, with the same source spec, secrets and, volume by
      volume, the same name, volume name, driver and claim. */
  lemma ReadyBackupNeverChanges(b: Backup, actions: seq<Action>, i: nat, j: nat)
    requires i <= j < |Run(Start(b), actions).history| && IsBackupReady(Run(Start(b), actions).history[i])
    ensures var h := Run(Start(b), actions).history;
      IsBackupReady(h[j]) &&
      var s, t := h[i].status.value, h[j].status.value;
      s.source == t.source && s.secrets == t.secrets && |s.volumes| == |t.volumes| &&
      forall k | 0 <= k < |s.volumes| ::
        s.volumes[k].name == t.volumes[k].name && s.volumes[k].volumeName == t.volumes[k].volumeName &&
        s.volumes[k].driver == t.volumes[k].driver && s.volumes[k].claim == t.volumes[k].claim
  {
    var s := Run(Start(b), actions);
    ConcurrentWritersTakeTurns(b, actions);
    ReadyIsFrozen(s.history, s.log, i, j);
    SameCore(s.history[i].status.value, s.history[j].status.value);
  }

  ghost predicate HonestActions(actions: seq<Action>) {
    forall a | a in actions && a.Write? :: Honest(a.writer)
  }

  lemma {:induction false} HonestLog(s: State, actions: seq<Action>)
    requires s.history != [] && (forall w | w in s.log :: Honest(w)) && HonestActions(actions)
    ensures forall w | w in Run(s, actions).log :: Honest(w)
  {
    if actions != [] {
      var front, last := actions[..|actions| - 1], actions[|actions| - 1];
      assert HonestActions(front) by {
        forall a | a in front && a.Write?
          ensures Honest(a.writer)
        {
          assert a in actions;
        }
      }
      HonestLog(s, front);
      assert last in actions;
      assert forall w | w in Next(Run(s, front), last).log ::
        w in Run(s, front).log || w.Edit? || (last.Write? && w == last.writer);
    }
  }

  /** When no snapshot is reported both ready and in error, every stored version says ReadyToUse exactly
      when its Ready condition is True, and then has volumes, all ready, and no error anywhere. */
  lemma ReadyToUseMeansReady(b: Backup, actions: seq<Action>, j: nat)
    requires Sound(b) && HonestActions(actions) && j < |Run(Start(b), actions).history|
    ensures Sound(Run(Start(b), actions).history[j])
  {
    var s := Run(Start(b), actions);
    ConcurrentWritersTakeTurns(b, actions);
    HonestLog(Start(b), actions);
    VersionsAreSound(s.history, s.log, j);
  }

  /** The thread an action belongs to; user edits belong to none. */
  predicate IsBy(a: Action, t: nat) {
    match a
    case UserEdit(_) => false
    case _ => a.thread == t
  }

  lemma {:induction false} OthersLeaveThread(s: State, actions: seq<Action>, t: nat)
    requires s.history != [] && forall a | a in actions :: !IsBy(a, t)
    ensures At(Run(s, actions), t) == At(s, t) && s.history <= Run(s, actions).history
  {
    if actions != [] {
      var front, last := actions[..|actions| - 1], actions[|actions| - 1];
      assert last in actions && forall a | a in front :: a in actions;
      OthersLeaveThread(s, front, t);
      NextKeepsHistory(Run(s, front), last);
    }
  }

  /** updateConditions runs on the copy read before reconcileVolumeSnapshots stored its own: once that store
      changed the object, the later write is refused, whatever other calls, callbacks and users do in between. */
  lemma StaleConclusionIsRefused(s: State, t: nat, seen: seq<Seen>, between: seq<Action>, now: nat)
    requires s.history != [] && Inv(s) && At(s, t).Reconciling?
    requires Next(s, Write(t, Snapshots(seen), 0)).history != s.history
    requires forall a | a in between :: !IsBy(a, t)
    ensures var stored := Next(s, Write(t, Snapshots(seen), 0));
      var later := Run(stored, between);
      At(later, t).SnapshotsDone? && Next(later, Write(t, Conclude(now), 0)).history == later.history
  {
    StoredThenBehind(s, t, seen);
    OthersLeaveThread(Next(s, Write(t, Snapshots(seen), 0)), between, t);
  }

  lemma StoredThenBehind(s: State, t: nat, seen: seq<Seen>)
    requires s.history != [] && Inv(s) && At(s, t).Reconciling?
    requires Next(s, Write(t, Snapshots(seen), 0)).history != s.history
    ensures var stored := Next(s, Write(t, Snapshots(seen), 0));
      stored.history != [] && At(stored, t).SnapshotsDone? && At(stored, t).rv < |stored.history| - 1
  {
  }
}
