/** The owned-by annotation: a map from schema to owner references, and its JSON list form. */
module SchemaOwners {
  import opened Outcomes
  import opened StringOrder

  // Owner references

  /** Position of the first slash; the length when there is none. */
  function FirstSlash(s: string): (i: nat)
    ensures i <= |s|
    ensures i < |s| ==> s[i] == '/'
    ensures forall j | 0 <= j < i :: s[j] != '/'
  {
    if s == "" || s[0] == '/' then 0 else 1 + FirstSlash(s[1..])
  }

  function Parse(ref: string): (string, string) {
    var i := FirstSlash(ref);
    if i == |ref| then ("", ref) else (ref[..i], ref[i + 1..])
  }

  function Construct(namespace: string, name: string): string {
    if namespace == "" then name else namespace + "/" + name
  }

  predicate SlashFree(s: string) {
    '/' !in s
  }

  /** Parsing undoes constructing exactly when the namespace has no slash and, if it is empty, neither has the
      name. */
  lemma ParseConstruct(namespace: string, name: string)
    ensures Parse(Construct(namespace, name)) == (namespace, name) <==>
      SlashFree(namespace) && (namespace == "" ==> SlashFree(name))
  {
    var ref := Construct(namespace, name);
    var i := FirstSlash(ref);
    if namespace == "" {
      assert i == |ref| <==> SlashFree(name);
    } else {
      assert ref[|namespace|] == '/';
      assert ref[..|namespace|] == namespace && ref[|namespace| + 1..] == name;
      if SlashFree(namespace) {
        assert forall j | 0 <= j < |namespace| :: ref[j] == namespace[j];
        assert i == |namespace|;
      } else {
        var j :| 0 <= j < |namespace| && namespace[j] == '/';
        assert ref[j] == '/';
        assert i <= j;
      }
    }
  }

  /** Constructing back what was parsed gives the same reference, unless it starts with a slash. */
  lemma ConstructParse(ref: string)
    ensures Construct(Parse(ref).0, Parse(ref).1) == ref <==> (ref == "" || ref[0] != '/')
  {
    var i := FirstSlash(ref);
    if 0 < i < |ref| {
      assert ref == ref[..i] + "/" + ref[i + 1..];
    }
  }

  lemma ConstructIsInjective(ns1: string, n1: string, ns2: string, n2: string)
    requires SlashFree(ns1) && SlashFree(n1) && SlashFree(ns2) && SlashFree(n2)
    ensures Construct(ns1, n1) == Construct(ns2, n2) <==> ns1 == ns2 && n1 == n2
  {
    ParseConstruct(ns1, n1);
    ParseConstruct(ns2, n2);
  }

  // The map and its wire form

  /** `refs` is None for a nil reference set. */
  datatype Entry = Entry(schema: string, refs: Option<set<string>>)
  datatype WireEntry = WireEntry(schema: string, refs: Option<seq<string>>)
  type OwnerMap = map<string, Entry>

  /** Entries are filed under their own schema. */
  ghost predicate WellKeyed(m: OwnerMap) {
    forall k | k in m :: m[k].schema == k
  }

  ghost predicate WellFormed(m: OwnerMap) {
    WellKeyed(m) && forall k | k in m :: k != "" && m[k].refs.Some?
  }

  function RefSet(e: Entry): set<string> {
    if e.refs.Some? then e.refs.value else {}
  }

  ghost function Wire(e: Entry): WireEntry {
    WireEntry(e.schema, Some(SortedOf(RefSet(e))))
  }

  ghost function Encode(m: OwnerMap): seq<WireEntry> {
    var keys := SortedOf(m.Keys);
    seq(|keys|, i requires 0 <= i < |keys| => Wire(m[keys[i]]))
  }

  predicate Ordered(s: seq<WireEntry>) {
    forall i, j | 0 <= i < j < |s| :: !Less(s[j].schema, s[i].schema)
  }

  method SortBySchema(s: seq<WireEntry>) returns (out: seq<WireEntry>)
    ensures Ordered(out) && multiset(out) == multiset(s)
  {
    out := [];
    for i := 0 to |s|
      invariant Ordered(out) && multiset(out) == multiset(s[..i])
    {
      assert s[..i + 1] == s[..i] + [s[i]];
      out := InsertBySchema(s[i], out);
    }
    assert s[..|s|] == s;
  }

  method InsertBySchema(e: WireEntry, s: seq<WireEntry>) returns (out: seq<WireEntry>)
    requires Ordered(s)
    ensures Ordered(out) && multiset(out) == multiset(s) + multiset{e}
  {
    var k := 0;
    while k < |s| && !Less(e.schema, s[k].schema)
      invariant k <= |s| && forall j | 0 <= j < k :: !Less(e.schema, s[j].schema)
    {
      k := k + 1;
    }
    forall j | k <= j < |s|
      ensures !Less(s[j].schema, e.schema)
    {
      if Less(s[j].schema, e.schema) {
        LessIsTransitive(s[j].schema, e.schema, s[k].schema);
        LessIsStrictTotal(s[j].schema, s[k].schema);
      }
    }
    assert s == s[..k] + s[k..];
    out := s[..k] + [e] + s[k..];
  }

  /** Walks the map in whatever order it yields, then sorts: the order walked does not show. */
  method MarshalJson(m: OwnerMap) returns (list: seq<WireEntry>)
    ensures Ordered(list) && |list| == |m|
    ensures forall e :: e in list <==> exists k :: k in m && e == Wire(m[k])
    ensures WellKeyed(m) ==> list == Encode(m)
  {
    var left := m.Keys;
    list := [];
    while left != {}
      invariant left <= m.Keys && |list| + |left| == |m|
      invariant forall e :: e in list <==> exists k :: k in m && k !in left && e == Wire(m[k])
      decreases left
    {
      var k :| k in left;
      left := left - {k};
      var refs := List(RefSet(m[k]));
      ghost var before := list;
      list := list + [WireEntry(m[k].schema, Some(refs))];
      assert Wire(m[k]) == WireEntry(m[k].schema, Some(refs));
      forall e
        ensures e in list <==> exists k :: k in m && k !in left && e == Wire(m[k])
      {
        if e in list && e !in before {
          assert e == Wire(m[k]);
        }
      }
    }
    ghost var unsorted := list;
    list := SortBySchema(list);
    assert forall e :: e in list <==> e in multiset(list);
    assert forall e :: e in unsorted <==> e in multiset(unsorted);
    assert |multiset(list)| == |multiset(unsorted)|;
    if WellKeyed(m) {
      OrderedEncodingIsUnique(m, list);
    }
  }

  lemma OrderedEncodingIsUnique(m: OwnerMap, list: seq<WireEntry>)
    requires WellKeyed(m) && Ordered(list) && |list| == |m|
    requires forall e :: e in list <==> exists k :: k in m && e == Wire(m[k])
    ensures list == Encode(m)
  {
    var schemas := seq(|list|, i requires 0 <= i < |list| => list[i].schema);
    forall i | 0 <= i < |list|
      ensures list[i].schema in m && list[i] == Wire(m[list[i].schema])
    {
      assert list[i] in list;
    }
    forall k
      ensures k in schemas <==> k in m.Keys
    {
      if k in m {
        assert Wire(m[k]) in list;
        var i :| 0 <= i < |list| && list[i] == Wire(m[k]);
        assert schemas[i] == k;
      }
    }
    AsManyAsItsElements(schemas, m.Keys);
    forall i, j | 0 <= i < j < |schemas|
      ensures Less(schemas[i], schemas[j])
    {
      LessIsStrictTotal(schemas[i], schemas[j]);
    }
    SortedListIsUnique(schemas, SortedOf(m.Keys));
  }

  /** A list as long as the set of its elements repeats none of them. */
  lemma {:induction false} AsManyAsItsElements(s: seq<string>, elements: set<string>)
    requires |s| == |elements| && forall x :: x in s <==> x in elements
    ensures forall i, j | 0 <= i < j < |s| :: s[i] != s[j]
  {
    forall i, j | 0 <= i < j < |s|
      ensures s[i] != s[j]
    {
      if s[i] == s[j] {
        var rest := s[..i] + s[i + 1..];
        assert forall x | x in elements :: x in rest by {
          forall x | x in elements
            ensures x in rest
          {
            assert x in s;
            var k :| 0 <= k < |s| && s[k] == x;
            if k == i {
              assert rest[j - 1] == x;
            } else {
              assert rest[if k < i then k else k - 1] == x;
            }
          }
        }
        FewElements(rest, elements);
      }
    }
  }

  lemma {:induction false} FewElements(s: seq<string>, elements: set<string>)
    requires forall x | x in elements :: x in s
    ensures |elements| <= |s|
  {
    if s == [] {
      assert elements == {};
    } else {
      FewElements(s[1..], elements - {s[0]});
    }
  }

  // Decoding

  function ElementsOf(list: Option<seq<string>>): Option<set<string>> {
    if list.Some? then Some(set x | x in list.value) else None
  }

  function DecodedWith(m: OwnerMap, e: WireEntry): Outcome<OwnerMap> {
    if e.schema == "" then Ok(m)
    else if e.schema !in m then Ok(m[e.schema := Entry(e.schema, ElementsOf(e.refs))])
    else if e.refs.None? || e.refs.value == [] then Ok(m)
    else if m[e.schema].refs.None? then Panic
    else Ok(m[e.schema := m[e.schema].(refs := Some(m[e.schema].refs.value + ElementsOf(e.refs).value))])
  }

  function Decode(list: seq<WireEntry>): Outcome<OwnerMap> {
    if list == [] then Ok(map[])
    else
      match Decode(list[..|list| - 1])
      case Ok(m) => DecodedWith(m, list[|list| - 1])
      case other => other
  }

  method UnmarshalJson(list: seq<WireEntry>) returns (result: Outcome<OwnerMap>)
    ensures result == Decode(list)
  {
    var owners: OwnerMap := map[];
    for i := 0 to |list|
      invariant Decode(list[..i]) == Ok(owners)
    {
      var e := list[i];
      assert list[..i + 1][..i] == list[..i];
      if e.schema == "" {
        continue;
      }
      if e.schema !in owners {
        owners := owners[e.schema := Entry(e.schema, ElementsOf(e.refs))];
        continue;
      }
      if e.refs.Some? && e.refs.value != [] {
        if owners[e.schema].refs.None? {
          PanicIsFinal(list, i + 1);
          return Panic;
        }
        var merged := owners[e.schema].refs.value + set x | x in e.refs.value;
        owners := owners[e.schema := owners[e.schema].(refs := Some(merged))];
      }
    }
    assert list[..|list|] == list;
    result := Ok(owners);
  }

  lemma {:induction false} PanicIsFinal(list: seq<WireEntry>, n: nat)
    requires n <= |list| && Decode(list[..n]).Panic?
    ensures Decode(list).Panic?
  {
    if n < |list| {
      assert list[..|list| - 1][..n] == list[..n];
      PanicIsFinal(list[..|list| - 1], n);
    } else {
      assert list[..n] == list;
    }
  }

  /** All references listed for a schema. */
  function RefsFor(list: seq<WireEntry>, schema: string): set<string> {
    set i, x | 0 <= i < |list| && list[i].schema == schema && list[i].refs.Some? && x in list[i].refs.value :: x
  }

  function Schemas(list: seq<WireEntry>): set<string> {
    set e | e in list && e.schema != "" :: e.schema
  }

  /** Index of the first entry of a schema; the length of the list when there is none. */
  function FirstOf(list: seq<WireEntry>, schema: string): (i: nat)
    ensures i <= |list|
    ensures i < |list| ==> list[i].schema == schema
    ensures forall j | 0 <= j < i :: list[j].schema != schema
  {
    if list == [] then 0
    else
      var n := |list| - 1;
      var i := FirstOf(list[..n], schema);
      if i < n || list[n].schema == schema then i else |list|
  }

  /** An entry adds references to a schema whose first entry came without a reference list. */
  predicate AddsToNil(list: seq<WireEntry>, j: nat)
    requires j < |list|
  {
    var i := FirstOf(list, list[j].schema);
    i < j && list[j].schema != "" && list[i].refs.None? && list[j].refs.Some? && list[j].refs.value != []
  }

  /** The references a schema ends up with. */
  function MergedRefs(list: seq<WireEntry>, schema: string): Option<set<string>> {
    var i := FirstOf(list, schema);
    if i < |list| && list[i].refs.None? then None else Some(RefsFor(list, schema))
  }

  /** The map holds, for each schema listed, the references merged for it. */
  ghost predicate Merged(m: OwnerMap, list: seq<WireEntry>) {
    m.Keys == Schemas(list) && forall k | k in m :: m[k] == Entry(k, MergedRefs(list, k))
  }

  /** What decoding an entry list means: blank schemas dropped, entries of one schema merged by union;
      it panics exactly when an entry adds to a schema first listed without references. */
  lemma {:induction false} DecodeMeaning(list: seq<WireEntry>)
    ensures Decode(list).Panic? <==> exists j :: 0 <= j < |list| && AddsToNil(list, j)
    ensures Decode(list).Ok? <==> !Decode(list).Panic?
    ensures Decode(list).Ok? ==> Merged(Decode(list).value, list)
  {
    if list != [] {
      var n := |list| - 1;
      var front := list[..n];
      DecodeMeaning(front);
      AddsToNilFront(list);
      if Decode(front).Ok? {
        DecodePanicsAtLast(list, Decode(front).value);
        if Decode(list).Ok? {
          DecodeMergesLast(list, Decode(front).value);
        }
      } else {
        var j :| 0 <= j < n && AddsToNil(front, j);
        assert AddsToNil(list, j);
      }
    }
  }

  lemma AddsToNilFront(list: seq<WireEntry>)
    requires list != []
    ensures forall j | 0 <= j < |list| - 1 :: AddsToNil(list, j) <==> AddsToNil(list[..|list| - 1], j)
  {
    forall j | 0 <= j < |list| - 1
      ensures AddsToNil(list, j) <==> AddsToNil(list[..|list| - 1], j)
    {
      FirstOfFront(list, list[j].schema);
    }
  }

  lemma ListedSchema(list: seq<WireEntry>, schema: string)
    ensures schema in Schemas(list) <==> schema != "" && FirstOf(list, schema) < |list|
  {
    if FirstOf(list, schema) < |list| {
      assert list[FirstOf(list, schema)] in list;
    }
  }

  lemma DecodePanicsAtLast(list: seq<WireEntry>, m: OwnerMap)
    requires list != [] && Decode(list[..|list| - 1]) == Ok(m) && Merged(m, list[..|list| - 1])
    ensures Decode(list).Panic? <==> AddsToNil(list, |list| - 1)
  {
    var n := |list| - 1;
    ListedSchema(list[..n], list[n].schema);
    FirstOfFront(list, list[n].schema);
  }

  lemma DecodeMergesLast(list: seq<WireEntry>, m: OwnerMap)
    requires list != [] && Decode(list[..|list| - 1]) == Ok(m) && Merged(m, list[..|list| - 1]) && Decode(list).Ok?
    ensures Merged(Decode(list).value, list)
  {
    SchemasOfFront(list);
    forall k | k in Decode(list).value
      ensures Decode(list).value[k] == Entry(k, MergedRefs(list, k))
    {
      DecodeMergesEntry(list, m, k);
    }
  }

  lemma DecodeMergesEntry(list: seq<WireEntry>, m: OwnerMap, k: string)
    requires list != [] && Decode(list[..|list| - 1]) == Ok(m) && Merged(m, list[..|list| - 1]) && Decode(list).Ok?
    requires k in Decode(list).value
    ensures Decode(list).value[k] == Entry(k, MergedRefs(list, k))
  {
    var n := |list| - 1;
    MergedRefsStep(list, k);
    if list[n].schema == k {
      DecodeMergesLastEntry(list, m);
    }
  }

  lemma DecodeMergesLastEntry(list: seq<WireEntry>, m: OwnerMap)
    requires list != [] && Decode(list[..|list| - 1]) == Ok(m) && Merged(m, list[..|list| - 1]) && Decode(list).Ok?
    requires list[|list| - 1].schema in Decode(list).value
    ensures var k := list[|list| - 1].schema; Decode(list).value[k] == Entry(k, MergedRefs(list, k))
  {
    var n := |list| - 1;
    var e := list[n];
    MergedRefsStep(list, e.schema);
    ListedSchema(list[..n], e.schema);
    if e.schema in m && m[e.schema].refs.Some? {
      var add := if e.refs.Some? then ElementsOf(e.refs).value else {};
      assert Decode(list).value[e.schema].refs.value == m[e.schema].refs.value + add;
    }
  }

  lemma FirstOfFront(list: seq<WireEntry>, schema: string)
    requires list != []
    ensures var n := |list| - 1; var i := FirstOf(list[..n], schema);
      FirstOf(list, schema) == if i < n || list[n].schema == schema then i else |list|
  {
  }

  lemma MergedRefsStep(list: seq<WireEntry>, k: string)
    requires list != []
    ensures var n := |list| - 1; var front, e := list[..n], list[n];
      MergedRefs(list, k) ==
        if e.schema != k then MergedRefs(front, k)
        else if FirstOf(front, k) == n then ElementsOf(e.refs)
        else if MergedRefs(front, k).None? then None
        else Some(MergedRefs(front, k).value + if e.refs.Some? then ElementsOf(e.refs).value else {})
  {
    FirstOfFront(list, k);
    RefsForFront(list, k);
    var n := |list| - 1;
    var front, e := list[..n], list[n];
    if e.schema != k {
      assert RefsFor(list, k) == RefsFor(front, k);
    } else if FirstOf(front, k) == n {
      assert RefsFor(front, k) == {};
      assert e.refs.Some? ==> RefsFor(list, k) == ElementsOf(e.refs).value;
    }
  }

  lemma SchemasOfFront(list: seq<WireEntry>)
    requires list != []
    ensures var n := |list| - 1;
      Schemas(list) == Schemas(list[..n]) + if list[n].schema == "" then {} else {list[n].schema}
  {
    assert list == list[..|list| - 1] + [list[|list| - 1]];
  }

  lemma RefsForFront(list: seq<WireEntry>, schema: string)
    requires list != []
    ensures var n := |list| - 1;
      RefsFor(list, schema) == RefsFor(list[..n], schema) +
        if list[n].schema == schema && list[n].refs.Some? then ElementsOf(list[n].refs).value else {}
  {
    var n := |list| - 1;
    var was, add := RefsFor(list[..n], schema), if list[n].schema == schema && list[n].refs.Some?
      then ElementsOf(list[n].refs).value else {};
    forall x
      ensures x in RefsFor(list, schema) <==> x in was + add
    {
      if x in RefsFor(list, schema) {
        var i :| 0 <= i < |list| && list[i].schema == schema && list[i].refs.Some? && x in list[i].refs.value;
        if i < n {
          assert list[..n][i] == list[i];
        }
      }
      if x in was {
        var i :| 0 <= i < n && list[..n][i].schema == schema && list[..n][i].refs.Some? && x in list[..n][i].refs.value;
        assert list[i] == list[..n][i];
      }
    }
  }

  // Round trips

  lemma EncodeEntries(m: OwnerMap, k: string)
    requires WellKeyed(m)
    ensures k in m <==> FirstOf(Encode(m), k) < |Encode(m)|
    ensures k in m ==> MergedRefs(Encode(m), k) == Some(RefSet(m[k]))
  {
    var list := Encode(m);
    var keys := SortedOf(m.Keys);
    forall i | 0 <= i < |list|
      ensures keys[i] in m && list[i].schema == keys[i] && list[i] == Wire(m[keys[i]])
    {
      assert keys[i] in keys;
    }
    if k in m {
      assert k in keys;
      var i :| 0 <= i < |keys| && keys[i] == k;
      assert list[i].schema == k;
      forall x
        ensures x in RefsFor(list, k) <==> x in RefSet(m[k])
      {
        if x in RefsFor(list, k) {
          var j :| 0 <= j < |list| && list[j].schema == k && list[j].refs.Some? && x in list[j].refs.value;
          assert keys[j] == k;
        }
        if x in RefSet(m[k]) {
          assert x in list[i].refs.value;
        }
      }
      assert RefsFor(list, k) == RefSet(m[k]);
      assert list[FirstOf(list, k)].refs.Some?;
    }
  }

  lemma EncodedListNeverPanics(m: OwnerMap)
    ensures Decode(Encode(m)).Ok?
  {
    DecodeMeaning(Encode(m));
  }

  /** Decoding undoes encoding exactly for the maps without a blank schema or a nil reference set. */
  lemma DecodeUndoesEncode(m: OwnerMap)
    requires WellKeyed(m)
    ensures Decode(Encode(m)) == Ok(m) <==> WellFormed(m)
  {
    var list := Encode(m);
    EncodedListNeverPanics(m);
    DecodeMeaning(list);
    var out := Decode(list).value;
    forall k
      ensures k in out <==> k in m && k != ""
      ensures k in out ==> out[k] == Entry(k, Some(RefSet(m[k])))
    {
      EncodeEntries(m, k);
      ListedSchema(list, k);
    }
    if WellFormed(m) {
      assert out.Keys == m.Keys;
      assert out == m;
    }
  }

  /** The list in normal form: each schema once, in order, with all its references, in order. */
  ghost function Canonical(list: seq<WireEntry>): seq<WireEntry> {
    var schemas := SortedOf(Schemas(list));
    seq(|schemas|, i requires 0 <= i < |schemas| => WireEntry(schemas[i], Some(SortedOf(RefsFor(list, schemas[i])))))
  }

  lemma EncodeDecodedIsCanonical(list: seq<WireEntry>)
    requires forall e | e in list :: e.refs.Some?
    ensures Decode(list).Ok? && Encode(Decode(list).value) == Canonical(list)
  {
    DecodeMeaning(list);
    var m := Decode(list).value;
    var schemas := SortedOf(Schemas(list));
    forall i | 0 <= i < |schemas|
      ensures Wire(m[schemas[i]]) == Canonical(list)[i]
    {
      assert schemas[i] in schemas;
      var k := FirstOf(list, schemas[i]);
      ListedSchema(list, schemas[i]);
      assert list[k] in list;
    }
  }

  // Adding and removing owners

  /** The (schema, owner) pairs a map stands for. */
  function Pairs(m: OwnerMap): set<(string, string)> {
    set k, r | k in m && r in RefSet(m[k]) :: (k, r)
  }

  /** Every schema filed has a reference set. */
  ghost predicate Usable(m: OwnerMap) {
    WellKeyed(m) && forall k | k in m :: m[k].refs.Some?
  }

  ghost predicate NoEmptyEntries(m: OwnerMap) {
    forall k | k in m :: RefSet(m[k]) != {}
  }

  predicate HasPair(m: OwnerMap, schema: string, ref: string) {
    schema in m && m[schema].schema == schema && ref in RefSet(m[schema])
  }

  function Added(m: OwnerMap, schema: string, ref: string): OwnerMap {
    if HasPair(m, schema, ref) then m
    else
      var entry := if schema in m then m[schema] else Entry(schema, Some({}));
      m[schema := entry.(refs := Some(RefSet(entry) + {ref}))]
  }

  function Removed(m: OwnerMap, schema: string, ref: string): OwnerMap {
    if !HasPair(m, schema, ref) then m
    else if RefSet(m[schema]) - {ref} == {} then m - {schema}
    else m[schema := m[schema].(refs := Some(RefSet(m[schema]) - {ref}))]
  }

  lemma HasPairIsMembership(m: OwnerMap, schema: string, ref: string)
    requires WellKeyed(m)
    ensures HasPair(m, schema, ref) <==> (schema, ref) in Pairs(m)
  {
  }

  lemma AddedPairs(m: OwnerMap, schema: string, ref: string)
    requires WellKeyed(m)
    ensures WellKeyed(Added(m, schema, ref)) && (Usable(m) ==> Usable(Added(m, schema, ref)))
    ensures Pairs(Added(m, schema, ref)) == Pairs(m) + {(schema, ref)}
    ensures NoEmptyEntries(m) ==> NoEmptyEntries(Added(m, schema, ref))
  {
    var out := Added(m, schema, ref);
    forall p
      ensures p in Pairs(out) <==> p in Pairs(m) + {(schema, ref)}
    {
      HasPairIsMembership(m, p.0, p.1);
    }
  }

  lemma RemovedPairs(m: OwnerMap, schema: string, ref: string)
    requires WellKeyed(m)
    ensures WellKeyed(Removed(m, schema, ref)) && (Usable(m) ==> Usable(Removed(m, schema, ref)))
    ensures Pairs(Removed(m, schema, ref)) == Pairs(m) - {(schema, ref)}
    ensures NoEmptyEntries(m) ==> NoEmptyEntries(Removed(m, schema, ref))
  {
    var out := Removed(m, schema, ref);
    forall p
      ensures p in Pairs(out) <==> p in Pairs(m) - {(schema, ref)}
    {
      HasPairIsMembership(m, p.0, p.1);
      if HasPair(m, schema, ref) && p.0 == schema && RefSet(m[schema]) - {ref} == {} {
        assert p.1 in RefSet(m[schema]) ==> p.1 == ref;
      }
    }
  }

  class AnnotationSchemaOwners {
    var m: OwnerMap

    constructor (owners: OwnerMap)
      ensures m == owners
    {
      m := owners;
    }

    method Has(schema: string, namespace: string, name: string) returns (has: bool)
      ensures WellKeyed(m) ==> (has <==> (schema, Construct(namespace, name)) in Pairs(m))
      ensures has == HasPair(m, schema, Construct(namespace, name))
    {
      var ref := Construct(namespace, name);
      if schema !in m {
        return false;
      }
      var entry := m[schema];
      has := entry.schema == schema && ref in RefSet(entry);
    }

    /** Adding to an entry that was decoded without references writes to a nil map. */
    method Add(schema: string, namespace: string, name: string) returns (added: Outcome<bool>)
      modifies this
      ensures !added.Err? && (added.Panic? <==> schema in old(m) && old(m)[schema].refs.None?)
      ensures added.Panic? ==> m == old(m)
      ensures added.Ok? ==>
        m == Added(old(m), schema, Construct(namespace, name)) && (added.value <==>
          !HasPair(old(m), schema, Construct(namespace, name)))
      ensures added.Ok? && WellKeyed(old(m)) ==>
        && WellKeyed(m) && (Usable(old(m)) ==> Usable(m))
        && Pairs(m) == old(Pairs(m)) + {(schema, Construct(namespace, name))}
        && (added.value <==> (schema, Construct(namespace, name)) !in old(Pairs(m)))
    {
      var ref := Construct(namespace, name);
      if WellKeyed(m) {
        AddedPairs(m, schema, ref);
        HasPairIsMembership(m, schema, ref);
      }
      var has := Has(schema, namespace, name);
      if has {
        return Ok(false);
      }
      var entry := Entry(schema, Some({}));
      if schema in m {
        entry := m[schema];
      }
      if entry.refs.None? {
        return Panic;
      }
      entry := entry.(refs := Some(entry.refs.value + {ref}));
      m := m[schema := entry];
      added := Ok(true);
    }

    method Remove(schema: string, namespace: string, name: string) returns (removed: bool)
      modifies this
      ensures m == Removed(old(m), schema, Construct(namespace, name))
      ensures removed <==> HasPair(old(m), schema, Construct(namespace, name))
      ensures WellKeyed(old(m)) ==>
        && WellKeyed(m) && (Usable(old(m)) ==> Usable(m))
        && Pairs(m) == old(Pairs(m)) - {(schema, Construct(namespace, name))}
        && (removed <==> (schema, Construct(namespace, name)) in old(Pairs(m)))
    {
      var ref := Construct(namespace, name);
      if WellKeyed(m) {
        RemovedPairs(m, schema, ref);
        HasPairIsMembership(m, schema, ref);
      }
      var has := Has(schema, namespace, name);
      if !has {
        return false;
      }
      var refs := m[schema].refs.value - {ref};
      if |refs| == 0 {
        m := m - {schema};
      } else {
        m := m[schema := m[schema].(refs := Some(refs))];
      }
      removed := true;
    }

    method ListOwners(schema: string) returns (owners: set<string>)
      ensures WellKeyed(m) ==> forall r :: r in owners <==> (schema, r) in Pairs(m)
    {
      if schema !in m || m[schema].schema != schema {
        return {};
      }
      owners := RefSet(m[schema]);
    }
  }

  /** One call, naming an owner by namespace and name. */
  datatype Call = AddCall(schema: string, namespace: string, name: string)
        | RemoveCall(schema: string, namespace: string, name: string)

  function RunMap(m: OwnerMap, calls: seq<Call>): OwnerMap {
    if calls == [] then m
    else
      var c := calls[|calls| - 1];
      var before := RunMap(m, calls[..|calls| - 1]);
      match c
      case AddCall(schema, namespace, name) => Added(before, schema, Construct(namespace, name))
      case RemoveCall(schema, namespace, name) => Removed(before, schema, Construct(namespace, name))
  }

  /** The same calls on a plain set of (schema, namespace, name). */
  function RunSet(s: set<(string, string, string)>, calls: seq<Call>): set<(string, string, string)> {
    if calls == [] then s
    else
      var c := calls[|calls| - 1];
      var before := RunSet(s, calls[..|calls| - 1]);
      match c
      case AddCall(schema, namespace, name) => before + {(schema, namespace, name)}
      case RemoveCall(schema, namespace, name) => before - {(schema, namespace, name)}
  }

  ghost predicate SlashFreeCalls(calls: seq<Call>) {
    forall c | c in calls :: SlashFree(c.namespace) && SlashFree(c.name)
  }

  /** From the empty map, any calls with slash-free namespaces and names leave a map that holds an owner
      exactly when the plain set does, with no empty entries. */
  lemma {:induction false} CallsRefineASet(calls: seq<Call>, schema: string, namespace: string, name: string)
    requires SlashFreeCalls(calls) && SlashFree(namespace) && SlashFree(name)
    ensures Usable(RunMap(map[], calls)) && NoEmptyEntries(RunMap(map[], calls))
    ensures HasPair(RunMap(map[], calls), schema, Construct(namespace, name)) <==>
      (schema, namespace, name) in RunSet({}, calls)
  {
    if calls != [] {
      var front, c := calls[..|calls| - 1], calls[|calls| - 1];
      assert c in calls && forall d | d in front :: d in calls;
      CallsRefineASet(front, schema, namespace, name);
      var before := RunMap(map[], front);
      var ref := Construct(c.namespace, c.name);
      AddedPairs(before, c.schema, ref);
      RemovedPairs(before, c.schema, ref);
      HasPairIsMembership(before, schema, Construct(namespace, name));
      HasPairIsMembership(RunMap(map[], calls), schema, Construct(namespace, name));
      ConstructIsInjective(namespace, name, c.namespace, c.name);
    }
  }

  // The annotation

  datatype Note = Text(text: string) | OwnerList(list: seq<WireEntry>)
  type Annotations = map<string, Note>

  const OWNED_BY := "hci.wjyl.com/owned-by"

  ghost function Bound(annotations: Annotations, m: OwnerMap): Annotations {
    if m == map[] then annotations - {OWNED_BY} else annotations[OWNED_BY := OwnerList(Encode(m))]
  }

  method Bind(annotations: Annotations, m: OwnerMap) returns (out: Annotations)
    ensures WellKeyed(m) ==> out == Bound(annotations, m)
    ensures out - {OWNED_BY} == annotations - {OWNED_BY} && (OWNED_BY in out <==> m != map[])
  {
    out := annotations;
    if |m| == 0 {
      out := out - {OWNED_BY};
    } else {
      var list := MarshalJson(m);
      out := out[OWNED_BY := OwnerList(list)];
    }
  }

  function OwnersOf(annotations: Annotations): Outcome<OwnerMap> {
    if OWNED_BY !in annotations then Ok(map[])
    else
      match annotations[OWNED_BY]
      case Text(_) => Err("failed to unmarshal annotation schema owners")
      case OwnerList(list) => Decode(list)
  }

  /** Owners bound to an object are read back from it, and every other annotation stays as it was. */
  lemma BoundOwnersReadBack(annotations: Annotations, m: OwnerMap)
    requires WellFormed(m)
    ensures OwnersOf(Bound(annotations, m)) == Ok(m)
    ensures forall k | k != OWNED_BY :: k in Bound(annotations, m) <==> k in annotations
    ensures forall k | k != OWNED_BY && k in annotations :: Bound(annotations, m)[k] == annotations[k]
  {
    DecodeUndoesEncode(m);
  }
}
