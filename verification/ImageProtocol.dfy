/** The backing image and storage class made for a VirtualMachineImage, guarded by its finalizer. */
module ImageProtocol {
  import opened Outcomes

  datatype Initialized = Never | Succeeded | Refused
  datatype Image = Image(url: string, appliedUrl: string, initialized: Initialized, finalizer: bool, deleting: bool)

  /** As a user creates it. */
  function NewImage(url: string): Image {
    Image(url, "", Never, false, false)
  }

  /** What the API server keeps of an update: nothing, once a deleted object has no finalizer left. */
  function Kept(image: Image): Option<Image> {
    if image.deleting && !image.finalizer then None else Some(image)
  }

  function WithStatus(image: Image, reachable: bool): Image {
    image.(appliedUrl := image.url, initialized := if reachable then Succeeded else Refused)
  }

  // Objects made for an image

  /** A backing image or storage class. One held by a finalizer of its own outlives its deletion for a while. */
  datatype Thing = Absent | Live(held: bool) | Ending

  function Deleted(t: Thing): Thing {
    if t.Live? && t.held then Ending else if t.Live? then Absent else t
  }

  /** One that exists already, even if it is on its way out, is left as it is. */
  function Created(t: Thing): Thing {
    if t.Absent? then Live(false) else t
  }

  // One undisturbed pass

  /** `url` is the URL the backing image was made with. */
  datatype Cluster = Cluster(image: Option<Image>, backing: Thing, url: string, class_: Thing)

  function PassAlone(c: Cluster, reachable: bool): Cluster {
    if c.image.None? then c
    else
      var image := c.image.value;
      if image.deleting then Cluster(Kept(image.(finalizer := false)), Deleted(c.backing), c.url, Deleted(c.class_))
      else if image.initialized.Never? then
        Cluster(Some(WithStatus(image, reachable).(finalizer := true)), Created(c.backing),
                if c.backing.Absent? then image.url else c.url, Created(c.class_))
      else if image.url != image.appliedUrl then
        Cluster(Some(WithStatus(image, reachable).(finalizer := true)), Created(Deleted(c.backing)),
                if Deleted(c.backing).Absent? then image.url else c.url, Created(Deleted(c.class_)))
      else c
  }

  class ImageReconciler {
    var image: Option<Image>
    var backing: Thing
    var url: string
    var class_: Thing

    constructor (c: Cluster)
      ensures Snapshot() == c
    {
      image, backing, url, class_ := c.image, c.backing, c.url, c.class_;
    }

    function Snapshot(): Cluster
      reads this
    {
      Cluster(image, backing, url, class_)
    }

    method DeleteBackingImageAndStorageClass()
      modifies this`backing, this`class_
      ensures backing == Deleted(old(backing)) && class_ == Deleted(old(class_))
    {
      backing := Deleted(backing);
      class_ := Deleted(class_);
    }

    method Initialize(reachable: bool)
      requires image.Some? && !image.value.deleting
      modifies this
      ensures image == Some(WithStatus(old(image.value), reachable).(finalizer := true))
      ensures backing == Created(old(backing)) && class_ == Created(old(class_))
      ensures url == if old(backing).Absent? then old(image.value.url) else old(url)
    {
      if !image.value.finalizer {
        image := Kept(image.value.(finalizer := true));
      }
      if backing.Absent? {  // an existing one answers AlreadyExists, which is ignored
        backing, url := Live(false), image.value.url;
      }
      if class_.Absent? {
        class_ := Live(false);
      }
      var toUpdate := image.value.(appliedUrl := image.value.url);
      if !reachable {
        image := Kept(toUpdate.(initialized := Refused));
        return;
      }
      image := Kept(toUpdate.(initialized := Succeeded));
    }

    method Reconcile(reachable: bool)
      modifies this
      ensures Snapshot() == PassAlone(old(Snapshot()), reachable)
    {
      if image.None? {
        return;
      }
      if image.value.deleting {
        class_ := Deleted(class_);
        backing := Deleted(backing);
        image := Kept(image.value.(finalizer := false));
        return;
      }
      if image.value.initialized.Never? {
        Initialize(reachable);
      } else if image.value.url != image.value.appliedUrl {
        DeleteBackingImageAndStorageClass();
        Initialize(reachable);
      }
    }
  }

  /** After a pass that applied the image's URL there is a backing image with that URL, and it is there to stay,
      exactly unless one was there before that could not be replaced: at the first initialisation, one on its
      way out or with another URL; at a change of URL, one on its way out or held. */
  lemma BackingHasAppliedUrl(c: Cluster, reachable: bool)
    requires c.image.Some? && !c.image.value.deleting
    requires c.image.value.initialized.Never? || c.image.value.url != c.image.value.appliedUrl
    ensures PassAlone(c, reachable).image.value.appliedUrl == c.image.value.url
    ensures PassAlone(c, reachable).backing.Live? && PassAlone(c, reachable).url == c.image.value.url <==>
      !(c.backing.Ending? ||
        (c.backing.Live? && if c.image.value.initialized.Never? then c.url != c.image.value.url else c.backing.held))
  {
  }

  /** A pass over a deleted image takes away what was made for it, at once unless it is held, and lets the image
      go. */
  lemma RemovalTakesEverything(c: Cluster, reachable: bool)
    requires c.image.Some? && c.image.value.deleting
    ensures var out := PassAlone(c, reachable);
      && out.image.None? && !out.backing.Live? && !out.class_.Live?
      && (out.backing.Ending? <==> c.backing.Ending? || c.backing == Live(true))
      && (out.class_.Ending? <==> c.class_.Ending? || c.class_ == Live(true))
  {
  }

  /** A pass over an image that is new or got another URL marks it, makes what is missing and records the URL and
      whether the backing image can be reached; one over any other image does nothing. */
  lemma InitializationRecords(c: Cluster, reachable: bool)
    requires c.image.Some? && !c.image.value.deleting
    ensures var image, out := c.image.value, PassAlone(c, reachable);
      if image.initialized.Never? || image.url != image.appliedUrl then
        && out.image == Some(Image(image.url, image.url, if reachable then Succeeded else Refused, true, false))
        && !out.backing.Absent? && !out.class_.Absent?
      else out == c
  {
  }

  // Passes under interference

  /** The next call of the running pass, with the copy of the image it holds and that copy's version. */
  datatype Local =
    | Idle
    | DropBacking(image: Image, rv: nat)      // URL changed: delete the backing image,
    | DropClass(image: Image, rv: nat)        // then the storage class
    | AddFinalizer(image: Image, rv: nat)     // initialize
    | MakeBacking(image: Image, rv: nat)
    | MakeClass(image: Image, rv: nat)
    | StoreStatus(image: Image, rv: nat)
    | RemoveClass(image: Image, rv: nat)      // onRemove
    | RemoveBacking(image: Image, rv: nat)
    | RemoveFinalizer(image: Image, rv: nat)

  /** Versions of the stored image (None while there is none), what exists for it, the newest version the
      cache has shown, and the pass in progress. */
  datatype State = State(history: seq<Option<Image>>, backing: Thing, class_: Thing, shown: nat, local: Local)

  datatype Action =
    | Read(version: nat)
    | Step(reachable: bool)
    | Crash
    | UserCreates(url: string)
    | UserEdits(url: string)
    | UserDeletes
    | Hold(backing: Thing, class_: Thing)  // other controllers add or drop finalizers, or finish a deletion
    | ReadOlder(version: nat)   // what a cache that went back in time would allow

  function Current(s: State): Option<Image>
    requires s.history != []
  {
    s.history[|s.history| - 1]
  }

  function Decide(image: Image, rv: nat): Local {
    if image.deleting then RemoveClass(image, rv)
    else if image.initialized.Never? then AddFinalizer(image, rv)
    else if image.url != image.appliedUrl then DropBacking(image, rv)
    else Idle
  }

  /** What others can make of a thing: they create none and delete none. */
  predicate MayBecome(before: Thing, after: Thing) {
    match before
    case Absent => after.Absent?
    case Live(_) => after.Live?
    case Ending => !after.Live?
  }

  function Next(s: State, a: Action): (out: State)
    requires s.history != []
    ensures s.history <= out.history
  {
    match a
    case Read(v) =>
      if s.local.Idle? && s.shown <= v < |s.history| then
        s.(shown := v, local := if s.history[v].Some? then Decide(s.history[v].value, v) else Idle)
      else s
    case ReadOlder(v) =>
      if s.local.Idle? && v < |s.history| then
        s.(local := if s.history[v].Some? then Decide(s.history[v].value, v) else Idle)
      else s
    case Step(reachable) => if s.local.Idle? then s else PassStep(s, reachable)
    case Crash => s.(local := Idle)
    case Hold(backing, class_) =>
      if MayBecome(s.backing, backing) && MayBecome(s.class_, class_)
        then s.(backing := backing, class_ := class_) else s
    case UserCreates(url) => if Current(s).None? then s.(history := s.history + [Some(NewImage(url))]) else s
    case UserEdits(url) => if Current(s).Some?
      then s.(history := s.history + [Some(Current(s).value.(url := url))]) else s
    case UserDeletes =>
      if Current(s).Some? then s.(history := s.history + [Kept(Current(s).value.(deleting := true))]) else s
  }

  function PassStep(s: State, reachable: bool): (out: State)
    requires s.history != [] && !s.local.Idle?
    ensures s.history <= out.history
  {
    var image, rv := s.local.image, s.local.rv;
    var fits := rv == |s.history| - 1;
    match s.local
    case DropBacking(_, _) => s.(backing := Deleted(s.backing), local := DropClass(image, rv))
    case DropClass(_, _) => s.(class_ := Deleted(s.class_), local := AddFinalizer(image, rv))
    case AddFinalizer(_, _) =>
      var marked := image.(finalizer := true);
      if image.finalizer then s.(local := MakeBacking(image, rv))
      else if fits then s.(history := s.history + [Some(marked)], local := MakeBacking(marked, |s.history|))
      else s.(local := Idle)
    case MakeBacking(_, _) => s.(backing := Created(s.backing), local := MakeClass(image, rv))
    case MakeClass(_, _) => s.(class_ := Created(s.class_), local := StoreStatus(image, rv))
    case StoreStatus(_, _) =>
      s.(history := if fits then s.history + [Some(WithStatus(image, reachable))] else s.history, local := Idle)
    case RemoveClass(_, _) => s.(class_ := Deleted(s.class_), local := RemoveBacking(image, rv))
    case RemoveBacking(_, _) => s.(backing := Deleted(s.backing), local := RemoveFinalizer(image, rv))
    case RemoveFinalizer(_, _) =>
      s.(history := if fits then s.history + [Kept(image.(finalizer := false))] else s.history, local := Idle)
  }

  function Run(s: State, actions: seq<Action>): (out: State)
    requires s.history != []
    ensures out.history != []
  {
    if actions == [] then s else Next(Run(s, actions[..|actions| - 1]), actions[|actions| - 1])
  }

  const START := State([None], Absent, Absent, 0, Idle)

  /** What is there to stay is there for a stored image with its finalizer. */
  predicate Guarded(s: State)
    requires s.history != []
  {
    s.backing.Live? || s.class_.Live? ==> Marked(Current(s))
  }

  predicate Marked(image: Option<Image>) {
    image.Some? && image.value.finalizer
  }

  /** The finalizer is present in version k and gone in the next. */
  predicate LosesFinalizer(history: seq<Option<Image>>, k: nat)
    requires k + 1 < |history|
  {
    Marked(history[k]) && !Marked(history[k + 1])
  }

  predicate DeletingIsMarked(image: Option<Image>) {
    image.Some? && image.value.deleting ==> image.value.finalizer
  }

  /** A finalizer is only ever lost from a deleted version that the cache has already shown. */
  ghost predicate HistoryInv(history: seq<Option<Image>>, shown: nat) {
    && history != [] && shown < |history|
    && (forall k | 0 <= k < |history| :: DeletingIsMarked(history[k]))
    && (forall k | 0 <= k && k + 1 < |history| && LosesFinalizer(history, k) :: k <= shown && history[k].value.deleting)
  }

  lemma AppendKeepsHistory(history: seq<Option<Image>>, shown: nat, image: Option<Image>)
    requires HistoryInv(history, shown) && DeletingIsMarked(image)
    requires Marked(history[|history| - 1]) && !Marked(image) ==>
      shown == |history| - 1 && history[|history| - 1].value.deleting
    ensures HistoryInv(history + [image], shown)
  {
    var out := history + [image];
    forall k | 0 <= k && k + 1 < |out| && LosesFinalizer(out, k)
      ensures k <= shown && out[k].value.deleting
    {
      if k + 1 < |history| {
        assert LosesFinalizer(history, k);
      }
    }
  }

  ghost predicate AllMarkedFrom(history: seq<Option<Image>>, rv: nat) {
    forall k | rv <= k < |history| :: Marked(history[k])
  }

  /** What the running pass knows. */
  ghost predicate LocalInv(s: State) {
    s.local.Idle? ||
    (s.local.rv < |s.history| && s.history[s.local.rv] == Some(s.local.image) &&
     match s.local
     case MakeBacking(_, rv) => AllMarkedFrom(s.history, rv)
     case MakeClass(_, rv) => AllMarkedFrom(s.history, rv)
     case StoreStatus(_, rv) => AllMarkedFrom(s.history, rv)
     case RemoveClass(image, rv) => image.deleting && rv == s.shown
     case RemoveBacking(image, rv) => image.deleting && rv == s.shown && !s.class_.Live?
     case RemoveFinalizer(image, rv) => image.deleting && rv == s.shown && !s.class_.Live? && !s.backing.Live?
     case _ => !s.local.image.deleting && s.local.rv == s.shown)
  }

  ghost predicate Inv(s: State) {
    HistoryInv(s.history, s.shown) && LocalInv(s) && Guarded(s)
  }

  lemma MarkedStaysMarked(history: seq<Option<Image>>, shown: nat)
    requires HistoryInv(history, shown) && Marked(history[shown]) && !history[shown].value.deleting
    ensures AllMarkedFrom(history, shown)
  {
    var k := shown;
    while k < |history| - 1
      invariant shown <= k < |history|
      invariant forall i | shown <= i <= k :: Marked(history[i])
    {
      assert !LosesFinalizer(history, k);
      k := k + 1;
    }
  }

  lemma UserKeepsInv(s: State, image: Option<Image>)
    requires Inv(s) && DeletingIsMarked(image) && (Marked(Current(s)) ==> Marked(image))
    ensures Inv(s.(history := s.history + [image]))
  {
    AppendKeepsHistory(s.history, s.shown, image);
  }

  lemma NextKeepsInv(s: State, a: Action)
    requires Inv(s) && !a.ReadOlder?
    ensures Inv(Next(s, a))
  {
    match a
    case Step(reachable) =>
      if !s.local.Idle? {
        StepKeepsInv(s, reachable);
      }
    case UserCreates(url) =>
      if Current(s).None? {
        UserKeepsInv(s, Some(NewImage(url)));
      }
    case UserEdits(url) =>
      if Current(s).Some? {
        UserKeepsInv(s, Some(Current(s).value.(url := url)));
      }
    case UserDeletes =>
      if Current(s).Some? {
        UserKeepsInv(s, Kept(Current(s).value.(deleting := true)));
      }
    case _ =>
  }

  lemma StepKeepsInv(s: State, reachable: bool)
    requires Inv(s) && !s.local.Idle?
    ensures Inv(PassStep(s, reachable))
  {
    match s.local
    case AddFinalizer(image, rv) =>
      if image.finalizer {
        MarkedStaysMarked(s.history, s.shown);
      } else if rv == |s.history| - 1 {
        AppendKeepsHistory(s.history, s.shown, Some(image.(finalizer := true)));
      }
    case StoreStatus(image, rv) =>
      AppendKeepsHistory(s.history, s.shown, Some(WithStatus(image, reachable)));
    case RemoveFinalizer(image, rv) =>
      if rv == |s.history| - 1 {
        AppendKeepsHistory(s.history, s.shown, Kept(image.(finalizer := false)));
      }
    case _ =>
  }

  /** At every point of every run, with passes crashing anywhere, users creating, editing and deleting the
      image at any time, and other controllers holding and releasing what was made for it, that is there to
      stay only while the stored image carries the finalizer; the cache never goes back in time. */
  lemma {:induction false} NothingOutlivesTheFinalizer(actions: seq<Action>)
    requires forall a | a in actions :: !a.ReadOlder?
    ensures Inv(Run(START, actions)) && Guarded(Run(START, actions))
  {
    if actions != [] {
      assert actions[|actions| - 1] in actions;
      NothingOutlivesTheFinalizer(actions[..|actions| - 1]);
      NextKeepsInv(Run(START, actions[..|actions| - 1]), actions[|actions| - 1]);
    }
  }

  predicate Unheld(t: Thing) {
    t.Absent? || t == Live(false)
  }

  lemma NextKeepsUnheld(s: State, a: Action)
    requires s.history != [] && Unheld(s.backing) && Unheld(s.class_) && !a.Hold?
    ensures Unheld(Next(s, a).backing) && Unheld(Next(s, a).class_)
  {
  }

  lemma {:induction false} RunKeepsUnheld(actions: seq<Action>)
    requires forall a | a in actions :: !a.Hold?
    ensures Unheld(Run(START, actions).backing) && Unheld(Run(START, actions).class_)
  {
    if actions != [] {
      assert actions[|actions| - 1] in actions;
      RunKeepsUnheld(actions[..|actions| - 1]);
      NextKeepsUnheld(Run(START, actions[..|actions| - 1]), actions[|actions| - 1]);
    }
  }

  /** In runs where nobody holds what was made, it exists at all only while the image carries the finalizer. */
  lemma UnheldThingsGoAtOnce(actions: seq<Action>)
    requires forall a | a in actions :: !a.ReadOlder? && !a.Hold?
    ensures var s := Run(START, actions); !s.backing.Absent? || !s.class_.Absent? ==> Marked(Current(s))
  {
    NothingOutlivesTheFinalizer(actions);
    RunKeepsUnheld(actions);
  }

  lemma Extend(actions: seq<Action>, s: State, a: Action) returns (longer: seq<Action>, next: State)
    requires s.history != [] && Run(START, actions) == s
    ensures longer == actions + [a] && next == Next(s, a) && Run(START, longer) == next
  {
    longer, next := actions + [a], Next(s, a);
    assert longer[..|longer| - 1] == actions;
  }

  /** What of a state an undisturbed pass sees. */
  function SeenIn(s: State, url: string): Cluster
    requires s.history != []
  {
    Cluster(Current(s), s.backing, url, s.class_)
  }

  function StepsOf(s: State, n: nat, reachable: bool): (out: State)
    requires s.history != []
    ensures out.history != []
  {
    if n == 0 then s else Next(StepsOf(s, n - 1, reachable), Step(reachable))
  }

  /** The calls of a pass: one read, then n others. */
  function Calls(version: nat, n: nat, reachable: bool): (actions: seq<Action>)
    ensures |actions| == n + 1 && actions[0] == Read(version)
    ensures forall i | 0 < i <= n :: actions[i] == Step(reachable)
  {
    if n == 0 then [Read(version)] else Calls(version, n - 1, reachable) + [Step(reachable)]
  }

  lemma {:induction false} CallsRun(s: State, version: nat, n: nat, reachable: bool)
    requires s.history != []
    ensures Run(s, Calls(version, n, reachable)) == StepsOf(Next(s, Read(version)), n, reachable)
  {
    if n == 0 {
      OneCall(s, Read(version));
    } else {
      CallsRun(s, version, n - 1, reachable);
      OneCallMore(s, Calls(version, n - 1, reachable), Step(reachable));
    }
  }

  lemma OneCall(s: State, a: Action)
    requires s.history != []
    ensures Run(s, [a]) == Next(s, a)
  {
    assert [a][..0] == [];
  }

  lemma OneCallMore(s: State, actions: seq<Action>, a: Action)
    requires s.history != []
    ensures Run(s, actions + [a]) == Next(Run(s, actions), a)
  {
    assert (actions + [a])[..|actions|] == actions;
  }

  /** An undisturbed pass is a read of the newest version and the calls that follow, in a state that no pass runs
      in: it leaves the image and what was made for it as those calls do. */
  lemma PassIsARun(s: State, url: string, reachable: bool) returns (n: nat, out: State)
    requires s.history != [] && s.shown < |s.history| && s.local.Idle?
    ensures n <= 6 && out == Run(s, Calls(|s.history| - 1, n, reachable))
    ensures Left(out, PassAlone(SeenIn(s, url), reachable))
  {
    n, out := StepsLeave(s, url, reachable);
    CallsRun(s, |s.history| - 1, n, reachable);
  }

  /** The state holds what the pass leaves, and no pass is running. */
  predicate Left(s: State, c: Cluster)
    requires s.history != []
  {
    s.local.Idle? && Current(s) == c.image && s.backing == c.backing && s.class_ == c.class_
  }

  lemma StepsLeave(s: State, url: string, reachable: bool) returns (n: nat, out: State)
    requires s.history != [] && s.shown < |s.history| && s.local.Idle?
    ensures n <= 6 && out == StepsOf(Next(s, Read(|s.history| - 1)), n, reachable)
    ensures Left(out, PassAlone(SeenIn(s, url), reachable))
  {
    var now := Next(s, Read(|s.history| - 1));
    n, out := 0, now;
    if Current(s).Some? {
      var image := Current(s).value;
      if image.deleting {
        n := 3;
        out := RemovalLeaves(s, url, reachable);
      } else if image.initialized.Never? {
        n := 4;
        out := InitializationLeaves(s, url, reachable);
      } else if image.url != image.appliedUrl {
        n := 6;
        out := ChangeLeaves(s, url, reachable);
      }
    }
  }

  lemma RemovalLeaves(s: State, url: string, reachable: bool) returns (out: State)
    requires s.history != [] && s.shown < |s.history| && s.local.Idle?
    requires Current(s).Some? && Current(s).value.deleting
    ensures out == StepsOf(Next(s, Read(|s.history| - 1)), 3, reachable)
    ensures Left(out, PassAlone(SeenIn(s, url), reachable))
  {
    var now := Next(s, Read(|s.history| - 1));
    RemovalSteps(now, reachable);
    out := StepsOf(now, 3, reachable);
  }

  lemma InitializationLeaves(s: State, url: string, reachable: bool) returns (out: State)
    requires s.history != [] && s.shown < |s.history| && s.local.Idle?
    requires Current(s).Some? && !Current(s).value.deleting && Current(s).value.initialized.Never?
    ensures out == StepsOf(Next(s, Read(|s.history| - 1)), 4, reachable)
    ensures Left(out, PassAlone(SeenIn(s, url), reachable))
  {
    var now := Next(s, Read(|s.history| - 1));
    assert StepsOf(now, 0, reachable) == now;
    InitializeSteps(now, 0, reachable);
    out := StepsOf(now, 4, reachable);
  }

  lemma ChangeLeaves(s: State, url: string, reachable: bool) returns (out: State)
    requires s.history != [] && s.shown < |s.history| && s.local.Idle?
    requires Current(s).Some? && !Current(s).value.deleting && !Current(s).value.initialized.Never?
    requires Current(s).value.url != Current(s).value.appliedUrl
    ensures out == StepsOf(Next(s, Read(|s.history| - 1)), 6, reachable)
    ensures Left(out, PassAlone(SeenIn(s, url), reachable))
  {
    var now := Next(s, Read(|s.history| - 1));
    DropSteps(now, reachable);
    InitializeSteps(now, 2, reachable);
    out := StepsOf(now, 6, reachable);
  }

  lemma DropSteps(s: State, reachable: bool)
    requires s.history != [] && s.local.DropBacking?
    ensures StepsOf(s, 2, reachable) == State(s.history, Deleted(s.backing), Deleted(s.class_), s.shown,
      AddFinalizer(s.local.image, s.local.rv))
  {
    assert StepsOf(s, 1, reachable) == Next(StepsOf(s, 0, reachable), Step(reachable));
  }

  lemma RemovalSteps(s: State, reachable: bool)
    requires s.history != [] && s.local.RemoveClass? && s.local.rv == |s.history| - 1
    ensures var out := StepsOf(s, 3, reachable);
      && out.local.Idle? && Current(out) == Kept(s.local.image.(finalizer := false))
      && out.backing == Deleted(s.backing) && out.class_ == Deleted(s.class_)
  {
    assert StepsOf(s, 1, reachable) == Next(StepsOf(s, 0, reachable), Step(reachable));
    assert StepsOf(s, 2, reachable) == Next(StepsOf(s, 1, reachable), Step(reachable));
  }

  /** initialize, from the point where it begins. */
  lemma InitializeSteps(s: State, n: nat, reachable: bool)
    requires s.history != []
    requires var now := StepsOf(s, n, reachable);
      now.local.AddFinalizer? && now.local.rv == |now.history| - 1 && Current(now) == Some(now.local.image)
    ensures var now, out := StepsOf(s, n, reachable), StepsOf(s, n + 4, reachable);
      && out.local.Idle? && Current(out) == Some(WithStatus(now.local.image, reachable).(finalizer := true))
      && out.backing == Created(now.backing) && out.class_ == Created(now.class_)
  {
    var now := StepsOf(s, n, reachable);
    var marked := now.local.image.(finalizer := true);
    var s1 := StepsOf(s, n + 1, reachable);
    assert s1 == Next(now, Step(reachable));
    assert s1.local == MakeBacking(marked, |s1.history| - 1) && s1.backing == now.backing && s1.class_ == now.class_;
    var s2 := StepsOf(s, n + 2, reachable);
    assert s2 == Next(s1, Step(reachable));
    assert s2 == s1.(backing := Created(now.backing), local := MakeClass(marked, |s1.history| - 1));
    var s3 := StepsOf(s, n + 3, reachable);
    assert s3 == Next(s2, Step(reachable));
    assert s3 == s2.(class_ := Created(now.class_), local := StoreStatus(marked, |s1.history| - 1));
    assert StepsOf(s, n + 4, reachable) == Next(s3, Step(reachable));
  }

  const MARKED := NewImage("u").(finalizer := true)

  /** A pass marks a new image and dies. */
  lemma MarkedThenCrashed() returns (actions: seq<Action>, s: State)
    ensures s == State([None, Some(NewImage("u")), Some(MARKED)], Absent, Absent, 1, Idle) && Run(START, actions) == s
  {
    actions, s := [], START;
    actions, s := Extend(actions, s, UserCreates("u"));
    actions, s := Extend(actions, s, Read(1));
    actions, s := Extend(actions, s, Step(true));
    actions, s := Extend(actions, s, Crash);
  }

  /** It is then deleted, and the cache shows that. */
  lemma MarkedThenRemoved() returns (actions: seq<Action>, s: State)
    ensures s == State([None, Some(NewImage("u")), Some(MARKED), Some(MARKED.(deleting := true)), None], Absent,
      Absent, 3, Idle)
    ensures Run(START, actions) == s
  {
    actions, s := MarkedThenCrashed();
    actions, s := Extend(actions, s, UserDeletes);
    actions, s := Extend(actions, s, Read(3));
    actions, s := Extend(actions, s, Step(true));
    actions, s := Extend(actions, s, Step(true));
    actions, s := Extend(actions, s, Step(true));
  }

  /** With a cache that shows an older version after a newer one the property fails: a pass on the
      version before deletion makes a backing image for an image that is gone. */
  lemma OlderReadsLeaveOrphans() returns (actions: seq<Action>)
    ensures !Guarded(Run(START, actions))
  {
    var s;
    actions, s := MarkedThenRemoved();
    actions, s := Extend(actions, s, ReadOlder(2));
    actions, s := Extend(actions, s, Step(true));
    actions, s := Extend(actions, s, Step(true));
    assert s.backing.Live? && Current(s) == None;
  }

  /** A pass makes the backing image of a marked image, somebody holds it, and the pass dies. */
  lemma MadeThenHeld() returns (actions: seq<Action>, s: State)
    ensures s == State([None, Some(NewImage("u")), Some(MARKED)], Live(true), Absent, 2, Idle) &&
      Run(START, actions) == s
  {
    actions, s := MarkedThenCrashed();
    actions, s := Extend(actions, s, Read(2));
    actions, s := Extend(actions, s, Step(true));
    actions, s := Extend(actions, s, Step(true));
    actions, s := Extend(actions, s, Hold(Live(true), Absent));
    actions, s := Extend(actions, s, Crash);
  }

  /** The image is then deleted, and the next pass has taken away the storage class. */
  lemma HeldThenRemoving() returns (actions: seq<Action>, s: State)
    ensures s.history == [None, Some(NewImage("u")), Some(MARKED), Some(MARKED.(deleting := true))]
    ensures s.backing == Live(true) && s.local == RemoveBacking(MARKED.(deleting := true), 3) &&
      Run(START, actions) == s
  {
    actions, s := MadeThenHeld();
    actions, s := Extend(actions, s, UserDeletes);
    actions, s := Extend(actions, s, Read(3));
    actions, s := Extend(actions, s, Step(true));
  }

  /** A backing image that is held is still there, on its way out, when the image is gone. */
  lemma HeldThingsLinger() returns (actions: seq<Action>)
    ensures Run(START, actions).backing.Ending? && Current(Run(START, actions)) == None
  {
    var s;
    actions, s := HeldThenRemoving();
    actions, s := Extend(actions, s, Step(true));
    actions, s := Extend(actions, s, Step(true));
  }
}
