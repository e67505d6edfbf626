/** Strings in lexicographic order, and the canonical (strictly sorted) listing of a finite set of them. */
module Strings {
  import opened Collections
  import opened NamesetModule

  predicate Less(a: string, b: string) {
    if b == "" then false
    else if a == "" then true
    else a[0] < b[0] || (a[0] == b[0] && Less(a[1..], b[1..]))
  }

  lemma {:induction false} LessTotal(a: string, b: string)
    ensures !Less(a, a)
    ensures a == b || Less(a, b) || Less(b, a)
    ensures !(Less(a, b) && Less(b, a))
  {
    if a != "" {
      LessTotal(a[1..], if b == "" then a[1..] else b[1..]);
      if b != "" && a[0] == b[0] && a[1..] == b[1..] {
        assert a == [a[0]] + a[1..] && b == [b[0]] + b[1..];
      }
    }
  }

  lemma {:induction false} LessTransitive(a: string, b: string, c: string)
    requires Less(a, b) && Less(b, c)
    ensures Less(a, c)
  {
    if a != "" && a[0] == b[0] == c[0] {
      LessTransitive(a[1..], b[1..], c[1..]);
    }
  }

  /** Up to position i, which both strings have, they are the same, and there a holds the lower character. */
  ghost predicate LowerAt(a: string, b: string, i: nat) {
    i < |a| && i < |b| && a[..i] == b[..i] && a[i] < b[i]
  }

  /** A proper prefix comes first; otherwise the first character in which the strings differ decides. */
  lemma {:induction false} LessMeans(a: string, b: string)
    ensures Less(a, b) <==> a < b || exists i: nat :: LowerAt(a, b, i)
    decreases |a|
  {
    if a != "" && b != "" {
      LessMeans(a[1..], b[1..]);
      forall i: nat | 0 < i <= |a| && i <= |b| && a[..i] == b[..i] ensures a[0] == b[0] {
        assert a[..i][0] == b[..i][0];
      }
      assert a == [a[0]] + a[1..] && b == [b[0]] + b[1..];
      if a[0] < b[0] {
        assert LowerAt(a, b, 0);
      } else if a[0] == b[0] {
        forall i: nat | LowerAt(a[1..], b[1..], i) ensures LowerAt(a, b, i + 1) {
          assert a[..i + 1] == [a[0]] + a[1..][..i] && b[..i + 1] == [b[0]] + b[1..][..i];
        }
        forall i: nat | LowerAt(a, b, i) ensures i > 0 && LowerAt(a[1..], b[1..], i - 1) {
          assert a[1..][..i - 1] == a[..i][1..] && b[1..][..i - 1] == b[..i][1..];
        }
        assert a < b <==> a[1..] < b[1..];
      }
    }
  }

  ghost predicate StrictlySorted(s: seq<string>) {
    forall i, j :: 0 <= i < j < |s| ==> Less(s[i], s[j])
  }

  lemma StrictlySortedNoDuplicates(s: seq<string>)
    requires StrictlySorted(s)
    ensures NoDuplicates(s)
  {
    forall i, j | 0 <= i < j < |s| ensures s[i] != s[j] {
      LessTotal(s[i], s[j]);
    }
  }

  /** The first name of a strictly sorted listing is below every other member. */
  lemma SortedHead(s: seq<string>)
    requires StrictlySorted(s) && s != []
    ensures Elements(s[1..]) == Elements(s) - {s[0]}
    ensures forall x | x in s :: x == s[0] || Less(s[0], x)
  {
    StrictlySortedNoDuplicates(s);
    assert s == [s[0]] + s[1..];
    ElementsConcat([s[0]], s[1..]);
  }

  /** A finite set of names has only one strictly sorted listing. */
  lemma {:induction false} SortedUnique(s: seq<string>, t: seq<string>)
    requires StrictlySorted(s) && StrictlySorted(t) && Elements(s) == Elements(t)
    ensures s == t
  {
    if s == [] {
      ElementsEmpty(t);
    } else {
      assert s[0] in Elements(t);
      SortedHead(s);
      SortedHead(t);
      assert t[0] in Elements(s);
      LessTotal(s[0], t[0]);
      assert s[0] == t[0];
      SortedUnique(s[1..], t[1..]);
    }
  }

  /** One step of an insertion sort. */
  function Insert(s: seq<string>, x: string): seq<string> {
    if s == [] then [x]
    else if Less(s[0], x) then [s[0]] + Insert(s[1..], x)
    else [x] + s
  }

  lemma PrependSorted(h: string, t: seq<string>)
    requires StrictlySorted(t)
    requires forall y | y in Elements(t) :: Less(h, y)
    ensures StrictlySorted([h] + t)
    ensures Elements([h] + t) == {h} + Elements(t)
  {
  }

  lemma {:induction false} InsertSorted(s: seq<string>, x: string)
    requires StrictlySorted(s) && x !in s
    ensures StrictlySorted(Insert(s, x))
    ensures Elements(Insert(s, x)) == Elements(s) + {x}
  {
    if s != [] {
      SortedHead(s);
      if Less(s[0], x) {
        InsertSorted(s[1..], x);
        PrependSorted(s[0], Insert(s[1..], x));
      } else {
        LessTotal(s[0], x);
        forall y | y in Elements(s) ensures Less(x, y) {
          if y != s[0] {
            LessTransitive(x, s[0], y);
          }
        }
        PrependSorted(x, s);
      }
    }
  }

  /** slices.Sort on a slice without duplicates. */
  method SortNames(names: seq<string>) returns (sorted: seq<string>)
    requires NoDuplicates(names)
    ensures StrictlySorted(sorted) && Elements(sorted) == Elements(names)
  {
    sorted := [];
    for n := 0 to |names|
      invariant StrictlySorted(sorted) && Elements(sorted) == Elements(names[..n])
    {
      ListingPrefix(names, n);
      assert names[n] !in Elements(sorted);
      InsertSorted(sorted, names[n]);
      sorted := Insert(sorted, names[n]);
    }
    assert names[..|names|] == names;
  }

  lemma {:induction false} CanonicalExists(s: set<string>) returns (r: seq<string>)
    ensures StrictlySorted(r) && Elements(r) == s
  {
    if s == {} {
      r := [];
    } else {
      var x :| x in s;
      var t := CanonicalExists(s - {x});
      assert x !in Elements(t);
      InsertSorted(t, x);
      r := Insert(t, x);
    }
  }

  /** The one strictly sorted listing of a set of names. */
  ghost function Canonical(s: set<string>): (r: seq<string>)
    ensures StrictlySorted(r) && Elements(r) == s
  {
    assert exists r: seq<string> :: StrictlySorted(r) && Elements(r) == s by {
      var w := CanonicalExists(s);
    }
    var r: seq<string> :| StrictlySorted(r) && Elements(r) == s;
    r
  }

  lemma CanonicalIs(r: seq<string>, s: set<string>)
    requires StrictlySorted(r) && Elements(r) == s
    ensures r == Canonical(s)
  {
    SortedUnique(r, Canonical(s));
  }

  /** mergeStringSlices: whatever order the set is walked in, the result is the canonical listing of the union. */
  method MergeStringSlices(a: seq<string>, b: seq<string>) returns (result: seq<string>)
    ensures result == Canonical(Elements(a) + Elements(b))
  {
    var ns := new Nameset<string>();
    for i := 0 to |a|
      invariant ns.Members() == Elements(a[..i])
    {
      ListingPrefix(a, i);
      ns.Add(a[i]);
    }
    assert a[..|a|] == a;
    for i := 0 to |b|
      invariant ns.Members() == Elements(a) + Elements(b[..i])
    {
      ListingPrefix(b, i);
      ns.Add(b[i]);
    }
    assert b[..|b|] == b;
    var items := ns.All();
    result := SortNames(items);
    CanonicalIs(result, Elements(a) + Elements(b));
  }

  ghost function Merged(a: seq<string>, b: seq<string>): seq<string> {
    Canonical(Elements(a) + Elements(b))
  }

  /** Merging depends on the two inputs as sets only; it is commutative, associative and settles after one round. */
  lemma MergeLaws(a: seq<string>, b: seq<string>, c: seq<string>, d: seq<string>)
    ensures Merged(a, b) == Merged(b, a)
    ensures Merged(a, b) == Merged(d, b) <==> Elements(a) + Elements(b) == Elements(d) + Elements(b)
    ensures Merged(Merged(a, b), c) == Merged(a, Merged(b, c))
    ensures Merged(a, Merged(a, b)) == Merged(a, b)
    ensures Merged(a, b) == a <==> StrictlySorted(a) && Elements(b) <= Elements(a)
  {
    assert Elements(a) + Elements(b) == Elements(b) + Elements(a);
    assert Elements(a) + Elements(b) + Elements(c) == Elements(a) + (Elements(b) + Elements(c));
    assert Elements(a) + (Elements(a) + Elements(b)) == Elements(a) + Elements(b);
    if StrictlySorted(a) && Elements(b) <= Elements(a) {
      assert Elements(a) + Elements(b) == Elements(a);
      CanonicalIs(a, Elements(a));
    }
  }
}
