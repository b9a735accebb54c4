/** The order sort.Sort and List() put strings in, and the one sorted list of a set. */
module StringOrder {

  predicate Less(a: string, b: string) {
    b != "" && (a == "" || a[0] < b[0] || (a[0] == b[0] && Less(a[1..], b[1..])))
  }

  lemma {:induction false} LessIsStrictTotal(a: string, b: string)
    ensures !(Less(a, b) && Less(b, a)) && (a == b ==> !Less(a, b)) && (a != b ==> Less(a, b) || Less(b, a))
  {
    if a != "" && b != "" && a[0] == b[0] {
      LessIsStrictTotal(a[1..], b[1..]);
      assert a == [a[0]] + a[1..] && b == [b[0]] + b[1..];
    }
  }

  lemma {:induction false} LessIsTransitive(a: string, b: string, c: string)
    requires Less(a, b) && Less(b, c)
    ensures Less(a, c)
  {
    if a != "" && a[0] == b[0] == c[0] {
      LessIsTransitive(a[1..], b[1..], c[1..]);
    }
  }

  predicate StrictlySorted(s: seq<string>) {
    forall i, j | 0 <= i < j < |s| :: Less(s[i], s[j])
  }

  /** Two strictly sorted lists of the same strings are the same list. */
  lemma {:induction false} SortedListIsUnique(s: seq<string>, t: seq<string>)
    requires StrictlySorted(s) && StrictlySorted(t)
    requires forall x :: x in s <==> x in t
    ensures s == t
  {
    assert t != [] ==> t[0] in t;
    if s != [] {
      assert s[0] in t;
      assert t[0] in s;
      var i :| 0 <= i < |t| && t[i] == s[0];
      var j :| 0 <= j < |s| && s[j] == t[0];
      LessIsStrictTotal(s[0], t[0]);
      assert s[0] == t[0];
      forall x
        ensures x in s[1..] <==> x in t[1..]
      {
        if x in s[1..] {
          var k :| 1 <= k < |s| && s[k] == x;
          LessIsStrictTotal(s[0], x);
          assert x in s;
        }
        if x in t[1..] {
          var k :| 1 <= k < |t| && t[k] == x;
          LessIsStrictTotal(t[0], x);
          assert x in t;
        }
      }
      SortedListIsUnique(s[1..], t[1..]);
    }
  }

  function Inserted(x: string, s: seq<string>): (out: seq<string>)
    requires StrictlySorted(s) && x !in s
    ensures StrictlySorted(out)
    ensures forall y :: y in out <==> y == x || y in s
  {
    if s == [] then [x]
    else
      LessIsStrictTotal(x, s[0]);
      assert s == [s[0]] + s[1..];
      if Less(x, s[0]) then
        assert forall j | 0 <= j < |s| :: Less(x, s[j]) by {
          forall j | 0 < j < |s|
            ensures Less(x, s[j])
          {
            LessIsTransitive(x, s[0], s[j]);
          }
        }
        [x] + s
      else
        var rest := Inserted(x, s[1..]);
        assert forall y | y in rest :: Less(s[0], y);
        [s[0]] + rest
  }

  ghost function SortedOf(names: set<string>): (out: seq<string>)
    ensures StrictlySorted(out)
    ensures forall x :: x in out <==> x in names
  {
    if names == {} then []
    else
      var x :| x in names;
      Inserted(x, SortedOf(names - {x}))
  }

  method List(names: set<string>) returns (out: seq<string>)
    ensures out == SortedOf(names)
  {
    var left := names;
    out := [];
    while left != {}
      invariant left <= names && StrictlySorted(out)
      invariant forall x :: x in out <==> x in names - left
      decreases left
    {
      var x :| x in left;
      left := left - {x};
      out := Inserted(x, out);
    }
    SortedListIsUnique(out, SortedOf(names));
  }
}
