/** Options and duplicate-free listings, shared by every other module. */
module Collections {
  datatype Option<+T> = None | Some(value: T)

  function Elements<T>(s: seq<T>): set<T> {
    set x | x in s
  }

  ghost predicate NoDuplicates<T>(s: seq<T>) {
    forall i, j :: 0 <= i < j < |s| ==> s[i] != s[j]
  }

  /** s lists the members of elems, each exactly once, in some order. */
  ghost predicate Listing<T>(s: seq<T>, elems: set<T>) {
    Elements(s) == elems && NoDuplicates(s)
  }

  lemma ElementsEmpty<T>(s: seq<T>)
    ensures Elements(s) == {} <==> s == []
  {
    if s != [] {
      assert s[0] in Elements(s);
    }
  }

  lemma ElementsAppend<T>(s: seq<T>, x: T)
    ensures Elements(s + [x]) == Elements(s) + {x}
  {
  }

  lemma ElementsConcat<T>(s: seq<T>, t: seq<T>)
    ensures Elements(s + t) == Elements(s) + Elements(t)
  {
  }

  lemma ListingPrefix<T>(s: seq<T>, i: nat)
    requires i < |s|
    ensures Elements(s[..i + 1]) == Elements(s[..i]) + {s[i]}
    ensures NoDuplicates(s) ==> s[i] !in s[..i]
  {
  }

  /** Two listings of disjoint sets, one after the other, list the union. */
  lemma ListingConcat<T>(s: seq<T>, t: seq<T>, a: set<T>, b: set<T>)
    requires Listing(s, a) && Listing(t, b) && a !! b
    ensures Listing(s + t, a + b)
  {
    ElementsConcat(s, t);
    forall i, j | 0 <= i < j < |s + t|
      ensures (s + t)[i] != (s + t)[j]
    {
      if i < |s| <= j {
        assert (s + t)[i] in Elements(s) && (s + t)[j] in Elements(t);
      }
    }
  }

  lemma {:induction false} ListingLength<T>(s: seq<T>, elems: set<T>)
    requires Listing(s, elems)
    ensures |s| == |elems|
  {
    ElementsEmpty(s);
    if s != [] {
      var last := s[|s| - 1];
      assert s == s[..|s| - 1] + [last];
      ElementsAppend(s[..|s| - 1], last);
      assert last !in Elements(s[..|s| - 1]);
      ListingLength(s[..|s| - 1], elems - {last});
    }
  }
}
