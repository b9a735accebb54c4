/** The owner annotation of one claim under any number of VM reconcilers, restores and other writers. */
module OwnerHandover {
  import opened Outcomes
  import opened PvcOwnership

  /** A stored version; its position in the history is its resource version. */
  datatype Version = Version(annotations: Annotations, deleting: bool)

  datatype Local =
    | Idle
    | Claiming(pvc: Version, rv: nat, vm: string)   // SetOwnerlessPVCReference, after its Get
    | Releasing(annotations: Annotations, rv: nat)  // detach loop, the indexed copy stripped
    | Unsetting(pvc: Version, rv: nat)              // UnsetBoundedPVCReference, after its Get

  /** The object in the index is shared: stripping it changes what later passes find there. */
  datatype Indexed = Indexed(annotations: Annotations, rv: nat)
  datatype State = State(history: seq<Version>, index: Option<Indexed>, threads: map<nat, Local>)

  datatype Action =
    | ReadToClaim(thread: nat, version: nat, namespace: string, name: string)
    | Claim(thread: nat)
    | Detach(thread: nat)
    | Release(thread: nat)
    | ReadToUnset(thread: nat, version: nat)
    | UnsetOwner(thread: nat)
    | FeedIndex(version: nat)
    | OtherUpdate(annotations: Annotations, deleting: bool)
    | Stop(thread: nat)

  function At(s: State, t: nat): Local {
    if t in s.threads then s.threads[t] else Idle
  }

  function Put(history: seq<Version>, rv: nat, v: Version): seq<Version> {
    if rv == |history| - 1 then history + [v] else history
  }

  function Next(s: State, a: Action): (out: State)
    requires s.history != []
    ensures s.history <= out.history
  {
    match a
    case ReadToClaim(t, v, namespace, name) =>
      if v < |s.history|
        then s.(threads := s.threads[t := Claiming(s.history[v], v, OwnerValue(namespace, name))]) else s
    case Claim(t) =>
      var l := At(s, t);
      if !l.Claiming? then s
      else if l.pvc.deleting || (OwnerIn(l.pvc.annotations) != "" && OwnerIn(l.pvc.annotations) != l.vm) ||
        l.pvc.annotations == map[]
      then s.(threads := s.threads[t := Idle])
      else s.(history := Put(s.history, l.rv, l.pvc.(annotations := l.pvc.annotations[OWNER_KEY := l.vm])),
        threads := s.threads[t := Idle])
    case Detach(t) =>
      if s.index.None? then s
      else
        var stripped := s.index.value.annotations - {OWNER_KEY};
        s.(index := Some(Indexed(stripped, s.index.value.rv)),
          threads := s.threads[t := Releasing(stripped, s.index.value.rv)])
    case Release(t) =>
      var l := At(s, t);
      if !l.Releasing? || l.rv >= |s.history| then s
      else s.(history := Put(s.history, l.rv, s.history[l.rv].(annotations := l.annotations)),
        threads := s.threads[t := Idle])
    case ReadToUnset(t, v) =>
      if v < |s.history| then s.(threads := s.threads[t := Unsetting(s.history[v], v)]) else s
    case UnsetOwner(t) =>
      var l := At(s, t);
      if !l.Unsetting? then s
      else if l.pvc.deleting then s.(threads := s.threads[t := Idle])
      else s.(history := Put(s.history, l.rv, l.pvc.(annotations := l.pvc.annotations - {OWNER_KEY})),
        threads := s.threads[t := Idle])
    case FeedIndex(v) =>
      if v < |s.history| && OwnerIn(s.history[v].annotations) != "" && !s.history[v].deleting
      then s.(index := Some(Indexed(s.history[v].annotations, v))) else s
    case OtherUpdate(annotations, deleting) =>
      var current := s.history[|s.history| - 1];
      if OwnerIn(annotations) == OwnerIn(current.annotations)
        then s.(history := s.history + [Version(annotations, deleting)]) else s
    case Stop(t) => s.(threads := s.threads[t := Idle])
  }

  function Run(s: State, actions: seq<Action>): (out: State)
    requires s.history != []
    ensures out.history != []
  {
    if actions == [] then s else Next(Run(s, actions[..|actions| - 1]), actions[|actions| - 1])
  }

  /** The owner stays, goes, or comes to a claim that had none. */
  predicate Handover(a: Version, b: Version) {
    OwnerIn(a.annotations) == "" || OwnerIn(b.annotations) == "" || OwnerIn(a.annotations) == OwnerIn(b.annotations)
  }

  ghost predicate Holds(l: Local, history: seq<Version>) {
    match l
    case Idle => true
    case Claiming(pvc, rv, vm) => rv < |history| && pvc == history[rv]
    case Unsetting(pvc, rv) => rv < |history| && pvc == history[rv]
    case Releasing(annotations, rv) => rv < |history| && annotations == history[rv].annotations - {OWNER_KEY}
  }

  ghost predicate Handovers(history: seq<Version>) {
    history != [] && forall i | 0 < i < |history| :: Handover(history[i - 1], history[i])
  }

  /** The indexed copy is the version it was filed from, stripped at most. */
  ghost predicate IndexHolds(index: Option<Indexed>, history: seq<Version>) {
    index.None? ||
    (index.value.rv < |history| && index.value.annotations - {OWNER_KEY} ==
      history[index.value.rv].annotations - {OWNER_KEY})
  }

  ghost predicate Inv(s: State) {
    Handovers(s.history) && IndexHolds(s.index, s.history) && forall t | t in s.threads ::
      Holds(s.threads[t], s.history)
  }

  lemma HoldsLater(s: State, history: seq<Version>)
    requires Inv(s) && s.history <= history
    ensures IndexHolds(s.index, history) && forall t | t in s.threads :: Holds(s.threads[t], history)
  {
  }

  lemma PutKeepsHandovers(history: seq<Version>, rv: nat, v: Version)
    requires Handovers(history) && rv < |history| && Handover(history[rv], v)
    ensures Handovers(Put(history, rv, v))
  {
  }

  lemma NextKeepsInv(s: State, a: Action)
    requires Inv(s)
    ensures Inv(Next(s, a))
  {
    HoldsLater(s, Next(s, a).history);
    match a
    case Claim(t) =>
      var l := At(s, t);
      if l.Claiming? && (OwnerIn(l.pvc.annotations) == "" || OwnerIn(l.pvc.annotations) == l.vm) {
        PutKeepsHandovers(s.history, l.rv, l.pvc.(annotations := l.pvc.annotations[OWNER_KEY := l.vm]));
      }
    case Detach(t) =>
      if s.index.Some? {
        var stripped := s.index.value.annotations - {OWNER_KEY};
        assert stripped - {OWNER_KEY} == stripped;
      }
    case Release(t) =>
      var l := At(s, t);
      if l.Releasing? {
        PutKeepsHandovers(s.history, l.rv, s.history[l.rv].(annotations := l.annotations));
      }
    case UnsetOwner(t) =>
      var l := At(s, t);
      if l.Unsetting? {
        PutKeepsHandovers(s.history, l.rv, l.pvc.(annotations := l.pvc.annotations - {OWNER_KEY}));
      }
    case _ =>
  }

  /** Under every interleaving the annotation never passes from one VM straight to another. */
  lemma {:induction false} OwnerNeverPassesDirectly(first: Version, actions: seq<Action>)
    ensures var s := Run(State([first], None, map[]), actions);
      Inv(s) && Handovers(s.history)
  {
    if actions != [] {
      OwnerNeverPassesDirectly(first, actions[..|actions| - 1]);
      NextKeepsInv(Run(State([first], None, map[]), actions[..|actions| - 1]), actions[|actions| - 1]);
    }
  }

  function Current(s: State): Version
    requires s.history != []
  {
    s.history[|s.history| - 1]
  }

  /** The current version as a claim in the store. */
  function AsPvc(s: State): Pvc
    requires s.history != []
  {
    Pvc(Current(s).annotations, Current(s).deleting, |s.history| - 1)
  }

  /** What an undisturbed pass makes of the claim, it makes by these calls: attaching it, if the VM names it, */
  lemma AttachingIsARun(s: State, t: nat, namespace: string, name: string, claim: string)
    requires s.history != []
    ensures var out := Next(Next(s, ReadToClaim(t, |s.history| - 1, namespace, name)), Claim(t));
      var p := Attached(AsPvc(s), claim, {claim}, OwnerValue(namespace, name));
      Current(out) == Version(p.annotations, p.deleting)
  {
  }

  /** detaching it, through the copy in the index, if that is filed under the VM and not named, */
  lemma DetachingIsARun(s: State, t: nat, claim: string, cached: Cached)
    requires s.history != [] && s.index == Some(Indexed(cached.pvc.annotations, cached.pvc.rv))
    requires cached.pvc.rv < |s.history|
    ensures var out := Next(Next(s, Detach(t)), Release(t));
      var p := Detached(AsPvc(s), claim, map[claim := cached], {}, cached.filedUnder);
      Current(out) == Version(p.annotations, p.deleting)
  {
  }

  /** and revoking the owner of a claim that is not to be deleted. */
  lemma UnsettingIsARun(s: State, t: nat)
    requires s.history != []
    ensures var out := Next(Next(s, ReadToUnset(t, |s.history| - 1)), UnsetOwner(t));
      Current(out) == Version(Unset(AsPvc(s), false).annotations, Current(s).deleting)
  {
  }

  /** For a claim made by a restore there was no owner before the first VM either. */
  lemma RestoredClaimFirstOwner(annotations: Annotations, restoreName: string, actions: seq<Action>)
    ensures var s := Run(State([Version(RestoredAnnotations(annotations, restoreName), false)], None, map[]), actions);
      Handovers(s.history) && OwnerIn(s.history[0].annotations) == ""
  {
    var first := Version(RestoredAnnotations(annotations, restoreName), false);
    RestoredClaimIsFree(annotations, restoreName, "");
    OwnerNeverPassesDirectly(first, actions);
    FirstVersionStays(State([first], None, map[]), actions);
  }

  lemma {:induction false} FirstVersionStays(s: State, actions: seq<Action>)
    requires s.history != []
    ensures Run(s, actions).history[0] == s.history[0]
  {
    if actions != [] {
      FirstVersionStays(s, actions[..|actions| - 1]);
    }
  }
}
