/**
 * Whether the reconciles of one AppProject come to rest. `Reconciled` is what the ArgocdUser controller
 * makes of an AppProject it finds; one that it creates is stored as desired.
 */
module Settling {
  import opened Collections
  import opened Strings
  import opened NamespaceIndex
  import opened ClusterModel
  import opened Projects
  import opened UserProjects

  /**
   * The repositories settle after one update: the next reconcile, with the same public repositories and
   * whatever targets the index gives by then, leaves them, and the roles, as they are.
   */
  lemma ReposSettle(found: AppProject, desired: AppProject, later: AppProject)
    requires later.sourceRepos == desired.sourceRepos && later.roles == desired.roles
    ensures var once := Reconciled(found, desired);
      && Reconciled(once, later) == Retargeted(once, later)
      && Elements(once.sourceRepos) == Elements(desired.sourceRepos) + Elements(found.sourceRepos)
  {
  }

  /**
   * The index lists namespaces and sources in no fixed order, and lists are compared in order. So after a
   * reconcile that found the AppProject, the next one is certain to find nothing to write exactly if
   * neither list has another order. This goes for the ArgocdUser controller, which settles the rest in one
   * round, and for the other one alike.
   */
  lemma SecondPushIsQuiet(found: AppProject, ix: Index, team: string, publicRepos: seq<string>)
    ensures (forall d, e | Desires(ix, team, publicRepos, d) && Desires(ix, team, publicRepos, e) ::
               Reconciled(Reconciled(found, d), e) == Reconciled(found, d))
            <==> |NamespacesOf(ix, team)| <= 1 && |SourcesOf(ix, team)| <= 1
    ensures (forall d, e | Desires(ix, team, publicRepos, d) && Desires(ix, team, publicRepos, e) ::
               Retargeted(Retargeted(found, d), e) == Retargeted(found, d))
            <==> |NamespacesOf(ix, team)| <= 1 && |SourcesOf(ix, team)| <= 1
  {
    if |NamespacesOf(ix, team)| <= 1 && |SourcesOf(ix, team)| <= 1 {
      forall d, e | Desires(ix, team, publicRepos, d) && Desires(ix, team, publicRepos, e)
        ensures d == e && Reconciled(Reconciled(found, d), e) == Reconciled(found, d)
      {
        OneOrder(ix, team, publicRepos, d, e);
        ReposSettle(found, d, e);
      }
    } else {
      var d, e := TwoOrders(ix, team, publicRepos);
      ReposSettle(found, d, e);
    }
  }

  lemma OneOrder(ix: Index, team: string, publicRepos: seq<string>, d: AppProject, e: AppProject)
    requires Desires(ix, team, publicRepos, d) && Desires(ix, team, publicRepos, e)
    requires |NamespacesOf(ix, team)| <= 1 && |SourcesOf(ix, team)| <= 1
    ensures d == e
  {
    var s :| Listing(s, NamespacesOf(ix, team)) && d.destinations == Wildcards(s);
    var t :| Listing(t, NamespacesOf(ix, team)) && e.destinations == Wildcards(t);
    ShortListings(s, t, NamespacesOf(ix, team));
    ShortListings(d.sourceNamespaces, e.sourceNamespaces, SourcesOf(ix, team));
  }

  /** With two namespaces, or with two sources, the same index gives different AppProjects. */
  lemma TwoOrders(ix: Index, team: string, publicRepos: seq<string>) returns (d: AppProject, e: AppProject)
    requires |NamespacesOf(ix, team)| >= 2 || |SourcesOf(ix, team)| >= 2
    ensures Desires(ix, team, publicRepos, d) && Desires(ix, team, publicRepos, e)
    ensures |NamespacesOf(ix, team)| >= 2 ==> d.destinations != e.destinations
    ensures |SourcesOf(ix, team)| >= 2 ==> d.sourceNamespaces != e.sourceNamespaces
  {
    var s, t := TwoListings(NamespacesOf(ix, team));
    var u, v := TwoListings(SourcesOf(ix, team));
    d := AppProject(Wildcards(s), u, publicRepos, RolesOf(team), false);
    e := AppProject(Wildcards(t), v, publicRepos, RolesOf(team), false);
    if |NamespacesOf(ix, team)| >= 2 {
      assert Wildcards(s)[0].ns == s[0] && Wildcards(t)[0].ns == t[0];
    }
  }

  lemma ShortListings(s: seq<string>, t: seq<string>, names: set<string>)
    requires Listing(s, names) && Listing(t, names) && |names| <= 1
    ensures s == t
  {
    ListingLength(s, names);
    ListingLength(t, names);
    if |s| == 1 {
      assert s[0] in Elements(s) && t[0] in Elements(t);
      assert |names - {s[0]}| == 0;
      assert t[0] !in names - {s[0]};
    }
  }

  /** Two listings of the same names, with different heads if there are two names. */
  lemma TwoListings(names: set<string>) returns (s: seq<string>, t: seq<string>)
    ensures Listing(s, names) && Listing(t, names)
    ensures |names| >= 2 ==> s != [] && t != [] && s[0] != t[0]
  {
    s := Canonical(names);
    t := s;
    StrictlySortedNoDuplicates(s);
    if |names| >= 2 {
      s, t := SwappedListings(names);
    }
  }

  lemma SwappedListings(names: set<string>) returns (s: seq<string>, t: seq<string>)
    requires |names| >= 2
    ensures Listing(s, names) && Listing(t, names) && s != [] && t != [] && s[0] != t[0]
  {
    var a :| a in names;
    assert |names - {a}| == |names| - 1;
    var b :| b in names - {a};
    var rest := Canonical(names - {a, b});
    StrictlySortedNoDuplicates(rest);
    s, t := [a, b] + rest, [b, a] + rest;
    assert names == {a, b} + (names - {a, b});
    assert Elements([a, b]) == {a, b} && Elements([b, a]) == {a, b};
    ListingConcat([a, b], rest, {a, b}, names - {a, b});
    ListingConcat([b, a], rest, {a, b}, names - {a, b});
  }

  /** There is always something that createAppProj may make of an index. */
  lemma SomeDesired(ix: Index, team: string, publicRepos: seq<string>) returns (d: AppProject)
    ensures Desires(ix, team, publicRepos, d)
  {
    var s, t := TwoListings(NamespacesOf(ix, team));
    var u, v := TwoListings(SourcesOf(ix, team));
    d := AppProject(Wildcards(s), u, publicRepos, RolesOf(team), false);
  }

  /**
   * An AppProject that is created holds the public repositories as written. So after a reconcile that
   * created the AppProject, the next one is certain to find nothing to write exactly if, besides, these are
   * strictly sorted already.
   */
  lemma CreatedProjectIsQuiet(ix: Index, team: string, publicRepos: seq<string>)
    ensures (forall d, e | Desires(ix, team, publicRepos, d) && Desires(ix, team, publicRepos, e) ::
               Reconciled(d, e) == d)
            <==> |NamespacesOf(ix, team)| <= 1 && |SourcesOf(ix, team)| <= 1 && StrictlySorted(publicRepos)
  {
    MergeLaws(publicRepos, publicRepos, publicRepos, publicRepos);
    if |NamespacesOf(ix, team)| <= 1 && |SourcesOf(ix, team)| <= 1 {
      forall d, e | Desires(ix, team, publicRepos, d) && Desires(ix, team, publicRepos, e)
        ensures d == e && (Reconciled(d, e) == d <==> StrictlySorted(publicRepos))
      {
        OneOrder(ix, team, publicRepos, d, e);
      }
      var d := SomeDesired(ix, team, publicRepos);
      assert Reconciled(d, d) == d <==> StrictlySorted(publicRepos);
    } else {
      var d, e := TwoOrders(ix, team, publicRepos);
      assert Reconciled(d, e) != d;
    }
  }

  /** It does happen: nothing in the index, and two public repositories in the wrong order. */
  lemma UnsortedReposAreRewritten() returns (d: AppProject)
    ensures Desires(Index({}, {}), "team", ["b", "a"], d) && Reconciled(d, d) != d
  {
    d := SomeDesired(Index({}, {}), "team", ["b", "a"]);
    MergeLaws(["b", "a"], ["b", "a"], [], []);
    assert !Less(["b", "a"][0], ["b", "a"][1]);
  }

  // ---- The AppProject watch ----

  /**
   * The ArgocdUser controller is woken by every change of its AppProject, its own included. In such a run
   * each reconcile, of one and the same index, changes what the one before left.
   */
  ghost predicate SelfWoken(run: seq<AppProject>, ix: Index, team: string, publicRepos: seq<string>) {
    forall i | 0 <= i < |run| - 1 :: Rewritten(run[i], run[i + 1], ix, team, publicRepos)
  }

  ghost predicate Rewritten(a: AppProject, b: AppProject, ix: Index, team: string, publicRepos: seq<string>) {
    a != b && exists d :: Desires(ix, team, publicRepos, d) && b == Reconciled(a, d)
  }

  /** With two namespaces or two sources there is always a reconcile left that writes. */
  lemma AlwaysRewritten(a: AppProject, ix: Index, team: string, publicRepos: seq<string>) returns (b: AppProject)
    requires |NamespacesOf(ix, team)| >= 2 || |SourcesOf(ix, team)| >= 2
    ensures Rewritten(a, b, ix, team, publicRepos)
  {
    var d, e := TwoOrders(ix, team, publicRepos);
    b := if Reconciled(a, d) != a then Reconciled(a, d) else Reconciled(a, e);
    assert a != b;
  }

  /** So from any AppProject there are runs of any length in which the controller is woken by its own writes. */
  lemma {:induction false} EndlessWrites(a: AppProject, ix: Index, team: string, publicRepos: seq<string>, n: nat)
    returns (run: seq<AppProject>)
    requires |NamespacesOf(ix, team)| >= 2 || |SourcesOf(ix, team)| >= 2
    ensures |run| == n + 1 && run[0] == a && SelfWoken(run, ix, team, publicRepos)
    decreases n
  {
    if n == 0 {
      run := [a];
    } else {
      var b := AlwaysRewritten(a, ix, team, publicRepos);
      var rest := EndlessWrites(b, ix, team, publicRepos, n - 1);
      run := [a] + rest;
      forall i | 0 <= i < |run| - 1 ensures Rewritten(run[i], run[i + 1], ix, team, publicRepos) {
        if i > 0 {
          assert Rewritten(rest[i - 1], rest[i - 1 + 1], ix, team, publicRepos);
        }
      }
    }
  }

  /** Otherwise one write is the last. */
  lemma OneWriteSettles(run: seq<AppProject>, ix: Index, team: string, publicRepos: seq<string>)
    requires SelfWoken(run, ix, team, publicRepos)
    requires |NamespacesOf(ix, team)| <= 1 && |SourcesOf(ix, team)| <= 1
    ensures |run| <= 2
  {
    if |run| > 2 {
      assert Rewritten(run[0], run[0 + 1], ix, team, publicRepos);
      assert Rewritten(run[1], run[1 + 1], ix, team, publicRepos);
      var d :| Desires(ix, team, publicRepos, d) && run[1] == Reconciled(run[0], d);
      var e :| Desires(ix, team, publicRepos, e) && run[2] == Reconciled(run[1], e);
      OneOrder(ix, team, publicRepos, d, e);
      ReposSettle(run[0], d, e);
    }
  }

  /** The reconciles that the AppProject watch asks for come to an end exactly if neither list has another order. */
  lemma WatchComesToRest(ix: Index, team: string, publicRepos: seq<string>)
    ensures (forall run | SelfWoken(run, ix, team, publicRepos) :: |run| <= 2)
            <==> |NamespacesOf(ix, team)| <= 1 && |SourcesOf(ix, team)| <= 1
  {
    if |NamespacesOf(ix, team)| <= 1 && |SourcesOf(ix, team)| <= 1 {
      forall run | SelfWoken(run, ix, team, publicRepos) ensures |run| <= 2 {
        OneWriteSettles(run, ix, team, publicRepos);
      }
    } else {
      var d := SomeDesired(ix, team, publicRepos);
      var run := EndlessWrites(d, ix, team, publicRepos, 2);
    }
  }
}
