/** pkg/nameset: a mutable set, kept as the keys of a map that is edited in place. */
module NamesetModule {
  import opened Collections

  class Nameset<T(==)> {
    var data: map<T, bool>

    constructor ()
      ensures data == map[]
    {
      data := map[];
    }

    function Members(): set<T>
      reads this
    {
      data.Keys
    }

    method Add(i: T)
      modifies this
      ensures Members() == old(Members()) + {i}
    {
      data := data[i := true];
    }

    method Remove(i: T)
      modifies this
      ensures Members() == old(Members()) - {i}
    {
      data := data - {i};
    }

    predicate Contains(i: T)
      reads this
    {
      i in data
    }

    /**
     * Offers the members accepted by `filter` to `yield`, one by one in some order,
     * and stops after the first offer that `yield` turns down.
     */
    method Filter(filter: T -> bool, yield_: T -> bool) returns (offered: seq<T>)
      ensures NoDuplicates(offered)
      ensures forall x | x in Elements(offered) :: x in Members() && filter(x)
      ensures forall i | 0 <= i < |offered| - 1 :: yield_(offered[i])
      ensures (forall x | x in offered :: yield_(x)) ==> Elements(offered) == set x | x in Members() && filter(x)
    {
      offered := [];
      var rest := data.Keys;
      while rest != {}
        invariant rest <= Members() && Elements(offered) !! rest
        invariant NoDuplicates(offered)
        invariant Elements(offered) == set x | x in Members() - rest && filter(x)
        invariant forall x | x in offered :: x in Elements(offered)
        invariant forall i | 0 <= i < |offered| :: yield_(offered[i])
        decreases rest
      {
        var i :| i in rest;
        rest := rest - {i};
        if filter(i) {
          ElementsAppend(offered, i);
          assert i !in Elements(offered);
          offered := offered + [i];
          if !yield_(i) {
            return;
          }
        }
      }
    }

    /** A full `range` over the set: every member once, in an order the caller may not rely on. */
    method All() returns (items: seq<T>)
      ensures Listing(items, Members())
    {
      items := [];
      var rest := data.Keys;
      while rest != {}
        invariant rest <= Members() && Elements(items) == Members() - rest
        invariant NoDuplicates(items)
        decreases rest
      {
        var i :| i in rest;
        ElementsAppend(items, i);
        assert i !in Elements(items);
        items := items + [i];
        rest := rest - {i};
      }
    }
  }
}
