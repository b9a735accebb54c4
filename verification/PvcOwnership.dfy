/** Which VM owns a claim: an annotation on the claim, with a secondary index kept by hand. */
module PvcOwnership {
  import opened Outcomes
  import opened Objects

  type Annotations = map<string, string>

  const OWNER_KEY := "hci.wjyl.com/owned-by"
  const PV_PREFIX := "pv.kubernetes.io"
  const RESTORE_NAME_KEY := "restore.hci.wjyl.com/name"

  datatype Pvc = Pvc(annotations: Annotations, deleting: bool, rv: nat)

  function OwnerIn(annotations: Annotations): string {
    if OWNER_KEY in annotations then annotations[OWNER_KEY] else ""
  }

  function Owner(p: Pvc): string {
    OwnerIn(p.annotations)
  }

  /** An update that changes nothing keeps the version. */
  function Stored(p: Pvc, annotations: Annotations): Pvc {
    if annotations == p.annotations then p else p.(annotations := annotations, rv := p.rv + 1)
  }

  /** How the attach step names a VM. */
  function OwnerValue(namespace: string, name: string): string {
    namespace + "/" + name
  }

  /** How the index lookup names it. */
  function IndexKey(namespace: string, name: string): string {
    if namespace == "" then name else namespace + "/" + name
  }

  lemma KeysAgree(namespace: string, name: string)
    ensures OwnerValue(namespace, name) == IndexKey(namespace, name) <==> namespace != ""
  {
    if namespace == "" {
      assert |OwnerValue(namespace, name)| == |name| + 1;
    }
  }

  /** An object in the index, filed under the owner it had when it was added. */
  datatype Cached = Cached(filedUnder: string, pvc: Pvc)

  function ClaimNames(volumes: seq<Volume>): set<string> {
    set v | v in volumes && v.claim.Some? && v.claim.value != "" :: v.claim.value
  }

  method GetPvcNames(volumes: seq<Volume>) returns (names: set<string>)
    ensures names == ClaimNames(volumes)
  {
    names := {};
    for i := 0 to |volumes|
      invariant names == ClaimNames(volumes[..i])
    {
      assert volumes[..i + 1] == volumes[..i] + [volumes[i]];
      if volumes[i].claim.Some? && volumes[i].claim.value != "" {
        names := names + {volumes[i].claim.value};
      }
    }
    assert volumes[..|volumes|] == volumes;
  }

  predicate FiledHere(index: map<string, Cached>, name: string, key: string) {
    name in index && index[name].filedUnder == key
  }

  /** The claim after the detach loop: an indexed claim the VM no longer names loses its owner, unless
      the indexed copy is out of date. */
  function Detached(p: Pvc, name: string, index: map<string, Cached>, names: set<string>, key: string): Pvc {
    if FiledHere(index, name, key) && name !in names && index[name].pvc.rv == p.rv
    then Stored(p, index[name].pvc.annotations - {OWNER_KEY}) else p
  }

  predicate Claimable(p: Pvc, owner: string) {
    !p.deleting && (Owner(p) == "" || Owner(p) == owner)
  }

  /** The claim after the attach loop. */
  function Attached(p: Pvc, name: string, names: set<string>, owner: string): Pvc {
    if name in names && Claimable(p, owner) && p.annotations != map[]
    then Stored(p, p.annotations[OWNER_KEY := owner]) else p
  }

  /** The copy in the index is stripped in place, and stays filed where it was. */
  function StrippedIndex(index: map<string, Cached>, names: set<string>, key: string): map<string, Cached> {
    map n | n in index ::
      if index[n].filedUnder == key && n !in names
      then index[n].(pvc := index[n].pvc.(annotations := index[n].pvc.annotations - {OWNER_KEY})) else index[n]
  }

  /** Writing the owner into a claim with no annotations at all writes to a nil map. */
  predicate WritesToNil(p: Pvc, owner: string) {
    Claimable(p, owner) && p.annotations == map[]
  }

  class VmReconciler {
    var pvcs: map<string, Pvc>  // the claims of the VM's namespace
    var index: map<string, Cached>

    constructor (claims: map<string, Pvc>, indexed: map<string, Cached>)
      ensures pvcs == claims && index == indexed
    {
      pvcs, index := claims, indexed;
    }

    method Update(name: string, annotations: Annotations, rv: nat) returns (ok: bool)
      modifies this`pvcs
      ensures ok <==> name in old(pvcs) && old(pvcs)[name].rv == rv
      ensures pvcs == if ok then old(pvcs)[name := Stored(old(pvcs)[name], annotations)] else old(pvcs)
    {
      if name !in pvcs || pvcs[name].rv != rv {
        return false;
      }
      pvcs := pvcs[name := Stored(pvcs[name], annotations)];
      ok := true;
    }

    /** Detach, then attach; `crashed` when the attach loop stops the process. */
    method SetOwnerOfPvcs(namespace: string, vmName: string, template: Option<seq<Volume>>) returns (crashed: bool)
      modifies this
      ensures template.None? ==> !crashed && pvcs == old(pvcs) && index == old(index)
      ensures template.Some? ==>
        var names, key, owner := ClaimNames(template.value), IndexKey(namespace, vmName), OwnerValue(namespace, vmName);
        pvcs.Keys == old(pvcs.Keys) && index == StrippedIndex(old(index), names, key) &&
        (crashed <==> exists n :: n in names && n in old(pvcs) && WritesToNil(old(pvcs)[n], owner)) &&
        forall n | n in old(pvcs) ::
          var detached := Detached(old(pvcs)[n], n, old(index), names, key);
          pvcs[n] == Attached(detached, n, names, owner) || (crashed && pvcs[n] == detached)
    {
      if template.None? {
        return false;
      }
      var names := GetPvcNames(template.value);
      ghost var before := pvcs;
      ghost var entries := index;
      DetachUnnamed(names, IndexKey(namespace, vmName));
      crashed := AttachNamed(names, OwnerValue(namespace, vmName), before, entries, IndexKey(namespace, vmName));
    }

    method DetachUnnamed(names: set<string>, key: string)
      modifies this
      ensures pvcs.Keys == old(pvcs.Keys) && index == StrippedIndex(old(index), names, key)
      ensures forall n | n in old(pvcs) :: pvcs[n] == Detached(old(pvcs)[n], n, old(index), names, key)
    {
      var attached := set n | n in index && index[n].filedUnder == key;
      var left := attached;
      while left != {}
        invariant left <= attached && index.Keys == old(index.Keys) && pvcs.Keys == old(pvcs.Keys)
        invariant forall n | n in index ::
          index[n] == if n in left then old(index)[n] else StrippedIndex(old(index), names, key)[n]
        invariant forall n | n in pvcs ::
          pvcs[n] == if n in left then old(pvcs)[n] else Detached(old(pvcs)[n], n, old(index), names, key)
        decreases left
      {
        var n :| n in left;
        left := left - {n};
        if n in names {
          continue;
        }
        var cached := index[n].pvc;
        var annotations := cached.annotations - {OWNER_KEY};
        index := index[n := index[n].(pvc := cached.(annotations := annotations))];
        var ok := Update(n, annotations, cached.rv);
      }
      assert index == StrippedIndex(old(index), names, key);
    }

    method AttachNamed(names: set<string>, owner: string, ghost before: map<string, Pvc>,
          ghost entries: map<string, Cached>, ghost key: string)
      returns (crashed: bool)
      requires pvcs.Keys == before.Keys
      requires forall n | n in before :: pvcs[n] == Detached(before[n], n, entries, names, key)
      modifies this`pvcs
      ensures pvcs.Keys == before.Keys
      ensures crashed <==> exists n :: n in names && n in before && WritesToNil(before[n], owner)
      ensures forall n | n in before ::
        pvcs[n] == Attached(old(pvcs)[n], n, names, owner) || (crashed && pvcs[n] == old(pvcs)[n])
    {
      var left := names;
      while left != {}
        invariant left <= names && pvcs.Keys == before.Keys
        invariant forall n | n in names && n in before && n !in left :: !WritesToNil(before[n], owner)
        invariant forall n | n in before ::
          pvcs[n] == if n in left then old(pvcs)[n] else Attached(old(pvcs)[n], n, names, owner)
        decreases left
      {
        var n :| n in left;
        if n in pvcs {
          var pvc := pvcs[n];
          assert pvc == before[n];
          if !pvc.deleting && (Owner(pvc) == "" || Owner(pvc) == owner) {
            if pvc.annotations == map[] {
              assert WritesToNil(before[n], owner);
              return true;
            }
            var ok := Update(n, pvc.annotations[OWNER_KEY := owner], pvc.rv);
          }
        }
        left := left - {n};
      }
      crashed := false;
    }

    /** Revokes the owner of every claim the VM names and deletes those it asks to remove; a VM without
        template stops the process. */
    method UnsetOwnerOfPvcs(template: Option<seq<Volume>>, removed: set<string>) returns (crashed: bool)
      modifies this`pvcs
      ensures crashed <==> template.None?
      ensures crashed ==> pvcs == old(pvcs)
      ensures !crashed ==>
        && pvcs.Keys == old(pvcs.Keys)
        && forall n | n in pvcs ::
             pvcs[n] == if n in ClaimNames(template.value) then Unset(old(pvcs)[n], n in removed) else old(pvcs)[n]
    {
      if template.None? {
        return true;
      }
      crashed := false;
      var names := GetPvcNames(template.value);
      var left := names;
      while left != {}
        invariant left <= names && pvcs.Keys == old(pvcs.Keys)
        invariant forall n | n in pvcs ::
          pvcs[n] == if n in names && n !in left then Unset(old(pvcs)[n], n in removed) else old(pvcs)[n]
        decreases left
      {
        var n :| n in left;
        left := left - {n};
        if n !in pvcs {
          continue;
        }
        var pvc := pvcs[n];
        if !pvc.deleting {
          var ok := Update(n, pvc.annotations - {OWNER_KEY}, pvc.rv);
        }
        if n in removed {
          pvcs := pvcs[n := Deleted(pvcs[n])];
        }
      }
    }
  }

  /** Claims carry the protection finalizer: deleting one marks it. */
  function Deleted(p: Pvc): Pvc {
    if p.deleting then p else p.(deleting := true, rv := p.rv + 1)
  }

  function Unset(p: Pvc, remove: bool): Pvc {
    var unset := if p.deleting then p else Stored(p, p.annotations - {OWNER_KEY});
    if remove then Deleted(unset) else unset
  }

  /** A live claim ends without owner, its other annotations as they were, and on its way out exactly if asked for;
      one that is on its way out already is left alone. */
  lemma UnsetReleases(p: Pvc, remove: bool)
    ensures p.deleting ==> Unset(p, remove) == p
    ensures !p.deleting ==>
      var out := Unset(p, remove);
      && Owner(out) == "" && OWNER_KEY !in out.annotations && (out.deleting <==> remove)
      && (forall k | k != OWNER_KEY :: k in out.annotations <==> k in p.annotations)
      && (forall k | k != OWNER_KEY && k in p.annotations :: out.annotations[k] == p.annotations[k])
  {
  }

  /** The index files exactly the owned claims, each under its owner and with its current contents. */
  ghost predicate Coherent(index: map<string, Cached>, pvcs: map<string, Pvc>) {
    forall n :: (n in index <==> n in pvcs && Owner(pvcs[n]) != "") &&
      (n in index ==> index[n] == Cached(Owner(pvcs[n]), pvcs[n]))
  }

  /** The owner a claim should have once the VM's pass is over. */
  function OwnerAfter(p: Pvc, named: bool, owner: string): string {
    if named then (if !p.deleting && (Owner(p) == "" || Owner(p) == owner) then owner else Owner(p))
    else if Owner(p) == owner then "" else Owner(p)
  }

  function AfterPass(p: Pvc, n: string, index: map<string, Cached>, names: set<string>, namespace: string,
        vmName: string): Pvc {
    Attached(Detached(p, n, index, names, IndexKey(namespace, vmName)), n, names, OwnerValue(namespace, vmName))
  }

  /** From a coherent index, in a named namespace, a claim ends up owned by the VM if it is named, not on its way
      out, and was free or already the VM's, free if it was the VM's and is no longer named, and as before
      otherwise; no other annotation changes. */
  lemma OwnersAfterPass(pvcs: map<string, Pvc>, index: map<string, Cached>, names: set<string>, namespace: string,
        vmName: string, n: string)
    requires Coherent(index, pvcs) && namespace != "" && n in pvcs
    requires n in names ==> !WritesToNil(pvcs[n], OwnerValue(namespace, vmName))
    ensures var out := AfterPass(pvcs[n], n, index, names, namespace, vmName);
      Owner(out) == OwnerAfter(pvcs[n], n in names, OwnerValue(namespace, vmName)) &&
      out.annotations - {OWNER_KEY} == pvcs[n].annotations - {OWNER_KEY} && out.deleting == pvcs[n].deleting
  {
    KeysAgree(namespace, vmName);
    assert |OwnerValue(namespace, vmName)| > 0;
  }

  /** The namespace is needed: in an empty one, which no stored VM has, the lookup would use another key and a
      claim that is no longer named would keep its owner. */
  lemma NoNamespaceNeverDetaches(pvcs: map<string, Pvc>, index: map<string, Cached>, names: set<string>,
        vmName: string, n: string)
    requires Coherent(index, pvcs) && n in pvcs && n !in names && Owner(pvcs[n]) == OwnerValue("", vmName)
    ensures Owner(AfterPass(pvcs[n], n, index, names, "", vmName)) == OwnerValue("", vmName)
  {
    KeysAgree("", vmName);
  }

  /** The pass leaves the index coherent exactly when it has nothing to attach or detach: every live claim the
      VM names has an owner already, and every claim it does not name has not this VM for its owner. */
  lemma CoherentAfterPass(pvcs: map<string, Pvc>, index: map<string, Cached>, names: set<string>, namespace: string,
        vmName: string)
    requires Coherent(index, pvcs) && namespace != ""
    requires forall n | n in names && n in pvcs :: !WritesToNil(pvcs[n], OwnerValue(namespace, vmName))
    ensures
      Coherent(StrippedIndex(index, names, IndexKey(namespace, vmName)), map n | n in pvcs ::
        AfterPass(pvcs[n], n, index, names, namespace, vmName)) <==>
      forall n | n in pvcs ::
        (n in names && !pvcs[n].deleting ==> Owner(pvcs[n]) != "") && (n !in names ==>
          Owner(pvcs[n]) != OwnerValue(namespace, vmName))
  {
    KeysAgree(namespace, vmName);
    assert |OwnerValue(namespace, vmName)| > 0;
    CoherentIfOwnersStay(pvcs, index, names, namespace, vmName);
    forall n | n in pvcs
      ensures Owner(AfterPass(pvcs[n], n, index, names, namespace, vmName)) == Owner(pvcs[n]) <==>
        (n in names && !pvcs[n].deleting ==> Owner(pvcs[n]) != "") && (n !in names ==>
          Owner(pvcs[n]) != OwnerValue(namespace, vmName))
    {
    }
  }

  lemma CoherentIfOwnersStay(pvcs: map<string, Pvc>, index: map<string, Cached>, names: set<string>,
        namespace: string, vmName: string)
    requires Coherent(index, pvcs) && namespace != ""
    requires forall n | n in names && n in pvcs :: !WritesToNil(pvcs[n], OwnerValue(namespace, vmName))
    ensures
      Coherent(StrippedIndex(index, names, IndexKey(namespace, vmName)), map n | n in pvcs ::
        AfterPass(pvcs[n], n, index, names, namespace, vmName)) <==>
      forall n | n in pvcs :: Owner(AfterPass(pvcs[n], n, index, names, namespace, vmName)) == Owner(pvcs[n])
  {
    KeysAgree(namespace, vmName);
    assert |OwnerValue(namespace, vmName)| > 0;
    var index', pvcs' := StrippedIndex(index, names, IndexKey(namespace, vmName)), map n | n in pvcs ::
      AfterPass(pvcs[n], n, index, names, namespace, vmName);
    if forall n | n in pvcs :: Owner(pvcs'[n]) == Owner(pvcs[n]) {
      forall n | n in pvcs
        ensures pvcs'[n] == pvcs[n]
        ensures n in index ==> index'[n] == index[n]
      {
        UnchangedOwnerUnchangedClaim(pvcs, index, names, namespace, vmName, n);
      }
    } else {
      var n :| n in pvcs && Owner(pvcs'[n]) != Owner(pvcs[n]);
      assert n in index' ==> index'[n].filedUnder == Owner(pvcs[n]);
    }
  }

  lemma UnchangedOwnerUnchangedClaim(pvcs: map<string, Pvc>, index: map<string, Cached>, names: set<string>,
        namespace: string, vmName: string, n: string)
    requires Coherent(index, pvcs) && namespace != "" && n in pvcs
    requires Owner(AfterPass(pvcs[n], n, index, names, namespace, vmName)) == Owner(pvcs[n])
    ensures AfterPass(pvcs[n], n, index, names, namespace, vmName) == pvcs[n]
    ensures n in index ==> StrippedIndex(index, names, IndexKey(namespace, vmName))[n] == index[n]
  {
    KeysAgree(namespace, vmName);
    assert |OwnerValue(namespace, vmName)| > 0;
    var p := pvcs[n];
    if n in names && Claimable(p, OwnerValue(namespace, vmName)) && p.annotations != map[] {
      assert p.annotations[OWNER_KEY := OwnerValue(namespace, vmName)] == p.annotations;
    }
  }

  // Claims made by a restore

  predicate CarriedOver(key: string) {
    !(PV_PREFIX <= key) && !(OWNER_KEY <= key)
  }

  function RestoredAnnotations(annotations: Annotations, restoreName: string): Annotations {
    (map k | k in annotations && CarriedOver(k) :: annotations[k])[RESTORE_NAME_KEY := restoreName]
  }

  method CopyAnnotations(annotations: Annotations, restoreName: string) returns (out: Annotations)
    ensures out == RestoredAnnotations(annotations, restoreName)
  {
    var prefixes := [PV_PREFIX, OWNER_KEY];
    out := map[];
    var left := annotations.Keys;
    while left != {}
      invariant left <= annotations.Keys
      invariant out == map k | k in annotations && k !in left && CarriedOver(k) :: annotations[k]
      decreases left
    {
      var key :| key in left;
      left := left - {key};
      var needSkip := false;
      for i := 0 to |prefixes|
        invariant needSkip <==> exists j :: 0 <= j < i && prefixes[j] <= key
      {
        if prefixes[i] <= key {
          needSkip := true;
          break;
        }
      }
      assert needSkip <==> prefixes[0] <= key || prefixes[1] <= key;
      if !needSkip {
        out := out[key := annotations[key]];
      }
    }
    out := out[RESTORE_NAME_KEY := restoreName];
  }

  /** A restored claim carries the annotations of the claim backed up, save those of the volume binder and of the
      owner, and the name of the restore. */
  lemma CopiedAnnotations(annotations: Annotations, restoreName: string, key: string)
    ensures var out := RestoredAnnotations(annotations, restoreName);
      && "restore.hci.wjyl.com/name" in out && out["restore.hci.wjyl.com/name"] == restoreName
      && (key != "restore.hci.wjyl.com/name" ==>
            (key in out <==> key in annotations && !("pv.kubernetes.io" <= key) && !("hci.wjyl.com/owned-by" <= key)) &&
            (key in out ==> out[key] == annotations[key]))
  {
  }

  /** A restored claim starts without an owner, so the first VM that names it can have it. */
  lemma RestoredClaimIsFree(annotations: Annotations, restoreName: string, owner: string)
    ensures var p := Pvc(RestoredAnnotations(annotations, restoreName), false, 0);
      Owner(p) == "" && Claimable(p, owner) && !WritesToNil(p, owner)
  {
    assert RESTORE_NAME_KEY in RestoredAnnotations(annotations, restoreName);
    assert |RESTORE_NAME_KEY| != |OWNER_KEY|;
  }
}
