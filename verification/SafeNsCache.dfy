/**
 * SafeNsCache: the index both controllers share, kept as three maps of mutable name sets. The ghost
 * field `index` is its value; `history` is every value it has had, oldest first.
 */
module NsCache {
  import opened Collections
  import opened NamesetModule
  import opened NamespaceIndex
  import opened ClusterModel
  import opened ApiClient

  /** A Go map from names to name sets. `rel` is the relation it stores, as (key, member) pairs. */
  class EdgeMap {
    var sets: map<string, Nameset<string>>
    ghost var rel: set<(string, string)>
    ghost var Repr: set<object>

    /** Distinct keys own distinct name sets, so an edit under one key cannot show under another. */
    ghost predicate Valid()
      reads this, Repr
      ensures Valid() ==> this in Repr
    {
      && this in Repr
      && (forall k | k in sets :: sets[k] in Repr && sets[k] as object != this)
      && (forall a, b | a in sets && b in sets && a != b :: sets[a] != sets[b])
      && (forall k, x :: (k, x) in rel <==> k in sets && x in sets[k].Members())
    }

    constructor ()
      ensures Valid() && fresh(Repr) && rel == {}
    {
      sets, rel, Repr := map[], {}, {this};
    }

    /** Adds x to the set of k, which is made first if k has none. */
    method AddTo(k: string, x: string)
      requires Valid()
      modifies Repr
      ensures Valid() && fresh(Repr - old(Repr)) && old(Repr) <= Repr
      ensures rel == old(rel) + {(k, x)}
    {
      if k !in sets {
        var empty := new Nameset<string>();
        sets := sets[k := empty];
        Repr := Repr + {empty};
      }
      sets[k].Add(x);
      rel := rel + {(k, x)};
    }

    method RemoveFrom(k: string, x: string)
      requires Valid()
      modifies Repr
      ensures Valid() && Repr == old(Repr) && rel == old(rel) - {(k, x)}
    {
      if k in sets {
        sets[k].Remove(x);
      }
      rel := rel - {(k, x)};
    }

    method MembersOf(k: string) returns (r: seq<string>)
      requires Valid()
      ensures NoDuplicates(r) && forall x :: x in Elements(r) <==> (k, x) in rel
    {
      if k in sets {
        r := sets[k].All();
      } else {
        r := [];
      }
    }

    /** The keys whose set holds x. */
    method KeysWith(x: string) returns (r: seq<string>)
      requires Valid()
      ensures NoDuplicates(r) && forall k :: k in Elements(r) <==> (k, x) in rel
    {
      r := [];
      var rest := sets.Keys;
      while rest != {}
        invariant rest <= sets.Keys && NoDuplicates(r)
        invariant forall k :: k in Elements(r) <==> k in sets.Keys - rest && x in sets[k].Members()
        decreases rest
      {
        var k :| k in rest;
        rest := rest - {k};
        if sets[k].Contains(x) {
          ElementsAppend(r, k);
          assert k !in Elements(r);
          r := r + [k];
        }
      }
    }
  }

  ghost function Reversed(rel: set<(string, string)>): set<(string, string)> {
    set e | e in rel :: (e.1, e.0)
  }

  lemma ReversedMember(rel: set<(string, string)>)
    ensures forall a, b :: (a, b) in Reversed(rel) <==> (b, a) in rel
  {
  }

  lemma ReversedUpdate(rel: set<(string, string)>, a: string, b: string)
    ensures Reversed(rel + {(a, b)}) == Reversed(rel) + {(b, a)}
    ensures Reversed(rel - {(a, b)}) == Reversed(rel) - {(b, a)}
  {
  }

  /** Every AppProject but "default" has exactly the destination namespaces that the index gives it. */
  ghost predicate Matches(ix: Index, c: Cluster) {
    forall p | p != "default" ::
      NamespacesOf(ix, p) ==
      if ProjectKey(p) in c.objects && c.objects[ProjectKey(p)].content.ProjectObject?
      then DestNamespaces(c.objects[ProjectKey(p)].content.project.destinations) else {}
  }

  lemma MatchesListed(items: seq<(string, AppProject)>, c: Cluster)
    requires forall n, p :: (n, p) in items
               <==> ProjectKey(n) in c.objects && c.objects[ProjectKey(n)].content == ProjectObject(p)
    ensures Matches(Index(PairsOfAll(items), {}), c)
  {
    forall p, ns | p != "default"
      ensures ns in NamespacesOf(Index(PairsOfAll(items), {}), p) <==>
              ProjectKey(p) in c.objects && c.objects[ProjectKey(p)].content.ProjectObject?
              && ns in DestNamespaces(c.objects[ProjectKey(p)].content.project.destinations)
    {
      PairsOfAllMember(items, ns, p);
      if ProjectKey(p) in c.objects && c.objects[ProjectKey(p)].content.ProjectObject? {
        assert (p, c.objects[ProjectKey(p)].content.project) in items;
      }
    }
  }

  class SafeNsCache {
    const projects: EdgeMap
    const namespaces: EdgeMap
    const sources: EdgeMap
    /** InitOrPass has run; until then the maps are nil, which can be read but not written. */
    var initDone: bool
    var initFailed: bool

    ghost var index: Index
    ghost var history: seq<Index>
    ghost var Repr: set<object>

    /** The three maps share nothing with each other. */
    ghost predicate Owned()
      reads this, Repr
    {
      && this in Repr && projects in Repr && namespaces in Repr && sources in Repr
      && projects.Repr <= Repr && namespaces.Repr <= Repr && sources.Repr <= Repr
      && this !in projects.Repr && this !in namespaces.Repr && this !in sources.Repr
      && projects.Repr !! namespaces.Repr && projects.Repr !! sources.Repr && namespaces.Repr !! sources.Repr
      && projects.Valid() && namespaces.Valid() && sources.Valid()
    }

    /** The two directions of the membership relation agree. */
    ghost predicate Valid()
      reads this, Repr
      ensures Valid() ==> this in Repr
    {
      && Owned()
      && projects.rel == index.members
      && namespaces.rel == Reversed(index.members)
      && sources.rel == index.trusts
      && history != [] && history[|history| - 1] == index
      && (!initDone ==> index == Index({}, {}))
    }

    constructor ()
      ensures Valid() && fresh(Repr)
      ensures index == Index({}, {}) && !initDone && !initFailed
    {
      var p := new EdgeMap();
      var n := new EdgeMap();
      var s := new EdgeMap();
      projects, namespaces, sources := p, n, s;
      initDone, initFailed := false, false;
      index := Index({}, {});
      history := [Index({}, {})];
      Repr := {this} + p.Repr + n.Repr + s.Repr;
    }

    method AddEdge(m: EdgeMap, k: string, x: string)
      requires Owned() && (m == projects || m == namespaces || m == sources)
      modifies m.Repr, this`Repr
      ensures Owned() && fresh(Repr - old(Repr))
      ensures unchanged(`initDone, `initFailed, `index, `history)
      ensures m.rel == old(m.rel) + {(k, x)}
      ensures m != projects ==> projects.rel == old(projects.rel) && projects.Repr == old(projects.Repr)
      ensures m != namespaces ==> namespaces.rel == old(namespaces.rel) && namespaces.Repr == old(namespaces.Repr)
      ensures m != sources ==> sources.rel == old(sources.rel) && sources.Repr == old(sources.Repr)
    {
      m.AddTo(k, x);
      Repr := Repr + m.Repr;
    }

    method AddBothEdges(ns: string, proj: string)
      requires Owned() && namespaces.rel == Reversed(projects.rel)
      modifies projects.Repr, namespaces.Repr, this`Repr
      ensures Owned() && fresh(Repr - old(Repr)) && namespaces.rel == Reversed(projects.rel)
      ensures unchanged(`initDone, `initFailed, `index, `history)
      ensures projects.rel == old(projects.rel) + {(ns, proj)}
      ensures sources.rel == old(sources.rel)
    {
      ReversedUpdate(projects.rel, ns, proj);
      AddEdge(projects, ns, proj);
      AddEdge(namespaces, proj, ns);
    }

    /** Records the new value of the index. */
    ghost method Note(ix: Index)
      requires Owned()
      modifies this`index, this`history
      ensures Owned() && index == ix && history == old(history) + [ix]
    {
      index := ix;
      history := history + [index];
    }

    method TrustSource(ns: string, proj: string)
      requires Valid() && initDone
      modifies Repr
      ensures Valid() && fresh(Repr - old(Repr))
      ensures initDone == old(initDone) && initFailed == old(initFailed)
      ensures index == old(index).(trusts := old(index).trusts + {(ns, proj)})
      ensures history == old(history) + [index]
    {
      AddEdge(sources, ns, proj);
      Note(index.(trusts := index.trusts + {(ns, proj)}));
    }

    method UnTrustSource(ns: string, proj: string)
      requires Valid()
      modifies Repr
      ensures Valid() && Repr == old(Repr)
      ensures initDone == old(initDone) && initFailed == old(initFailed)
      ensures index == old(index).(trusts := old(index).trusts - {(ns, proj)})
      ensures history == old(history) + [index]
    {
      sources.RemoveFrom(ns, proj);
      Note(index.(trusts := index.trusts - {(ns, proj)}));
    }

    /** Adds the edge in both directions. */
    method JoinProject(ns: string, proj: string)
      requires Valid() && initDone
      modifies Repr
      ensures Valid() && fresh(Repr - old(Repr))
      ensures initDone == old(initDone) && initFailed == old(initFailed)
      ensures index == old(index).(members := old(index).members + {(ns, proj)})
      ensures history == old(history) + [index]
    {
      AddBothEdges(ns, proj);
      Note(index.(members := index.members + {(ns, proj)}));
    }

    /** Removes the edge in both directions; unknown names are ignored. */
    method LeaveProject(ns: string, proj: string)
      requires Valid()
      modifies Repr
      ensures Valid() && Repr == old(Repr)
      ensures initDone == old(initDone) && initFailed == old(initFailed)
      ensures index == old(index).(members := old(index).members - {(ns, proj)})
      ensures history == old(history) + [index]
    {
      projects.RemoveFrom(ns, proj);
      namespaces.RemoveFrom(proj, ns);
      ReversedUpdate(index.members, ns, proj);
      Note(index.(members := index.members - {(ns, proj)}));
    }

    method GetProjects(ns: string) returns (r: seq<string>)
      requires Valid()
      ensures Listing(r, ProjectsOf(index, ns))
    {
      r := projects.MembersOf(ns);
    }

    method GetNamespaces(proj: string) returns (r: seq<string>)
      requires Valid()
      ensures Listing(r, NamespacesOf(index, proj))
      ensures history != [] && Elements(r) == NamespacesOf(history[|history| - 1], proj)
    {
      r := namespaces.MembersOf(proj);
      ReversedMember(index.members);
    }

    /** Looks through every namespace for the given project. */
    method GetSources(proj: string) returns (r: seq<string>)
      requires Valid()
      ensures Listing(r, SourcesOf(index, proj))
      ensures history != [] && Elements(r) == SourcesOf(history[|history| - 1], proj)
    {
      r := sources.KeysWith(proj);
    }

    /** Loads the destinations of one AppProject. */
    method LoadProject(name: string, destinations: seq<Destination>)
      requires Owned() && namespaces.rel == Reversed(projects.rel)
      modifies Repr
      ensures Owned() && fresh(Repr - old(Repr)) && namespaces.rel == Reversed(projects.rel)
      ensures unchanged(`initDone, `initFailed, `index, `history)
      ensures projects.rel == old(projects.rel) + PairsOf(name, destinations)
      ensures sources.rel == old(sources.rel)
    {
      for i := 0 to |destinations|
        invariant Owned() && fresh(Repr - old(Repr)) && namespaces.rel == Reversed(projects.rel)
        invariant unchanged(`initDone, `initFailed, `index, `history)
        invariant projects.rel == old(projects.rel) + PairsOf(name, destinations[..i])
        invariant sources.rel == old(sources.rel)
      {
        PairsOfStep(name, destinations, i);
        if name == "default" {
          continue;
        }
        AddBothEdges(destinations[i].ns, name);
      }
      assert destinations[..|destinations|] == destinations;
    }

    method LoadAll(items: seq<(string, AppProject)>)
      requires Owned() && projects.rel == {} && namespaces.rel == {} && sources.rel == {}
      modifies Repr
      ensures Owned() && fresh(Repr - old(Repr))
      ensures unchanged(`initDone, `initFailed, `index, `history)
      ensures projects.rel == PairsOfAll(items) && namespaces.rel == Reversed(projects.rel) && sources.rel == {}
    {
      for i := 0 to |items|
        invariant Owned() && fresh(Repr - old(Repr))
        invariant unchanged(`initDone, `initFailed, `index, `history)
        invariant projects.rel == PairsOfAll(items[..i]) && namespaces.rel == Reversed(projects.rel)
                    && sources.rel == {}
      {
        assert items[..i + 1][..i] == items[..i];
        LoadProject(items[i].0, items[i].1.destinations);
      }
      assert items[..|items|] == items;
    }

    method Fill(listed: Reply<seq<(string, AppProject)>>)
      requires Valid() && !initDone
      modifies Repr
      ensures Valid() && fresh(Repr - old(Repr)) && initDone && initFailed == !listed.Ok?
      ensures index == Index(if listed.Ok? then PairsOfAll(listed.value) else {}, {})
      ensures history == old(history) + [index]
    {
      if listed.Ok? {
        LoadAll(listed.value);
      }
      Note(Index(projects.rel, {}));
      initDone, initFailed := true, !listed.Ok?;
    }

    /**
     * Fills the index from the AppProjects that exist, the first time it is called. A failure to list
     * them is final: every later call reports it again.
     */
    method InitOrPass(client: Client) returns (ok: bool)
      requires Valid() && client.Valid() && client !in Repr
      modifies Repr, client`cluster
      ensures Valid() && fresh(Repr - old(Repr)) && initDone
      ensures client.Valid() && Rely(client.actor, old(client.cluster), client.cluster)
      ensures client.exclusive ==> client.cluster == old(client.cluster)
      ensures ok == !initFailed
      ensures client.reliable && !old(initDone) ==> ok
      ensures old(initDone) ==> initFailed == old(initFailed) && index == old(index) && history == old(history)
                                && client.cluster == old(client.cluster)
      ensures !old(initDone) && initFailed ==> index == Index({}, {})
      ensures !old(initDone) && !initFailed ==> index.trusts == {} && Matches(index, client.cluster)
    {
      if initDone {
        RelyReflexive(client.actor, client.cluster);
        return !initFailed;
      }
      var listed := client.ListProjects();
      Fill(listed);
      if listed.Ok? {
        MatchesListed(listed.value, client.cluster);
      }
      ok := !initFailed;
    }

    /**
     * The other controller acts on the index: any number of its operations, in any order, the first filling
     * included.
     */
    method Interfere()
      requires Valid()
      modifies Repr
      ensures Valid() && fresh(Repr - old(Repr))
      ensures old(initDone) ==> initDone && initFailed == old(initFailed)
      ensures old(history) <= history
    {
      var rounds: int := *;
      while rounds > 0
        invariant Valid() && fresh(Repr - old(Repr))
        invariant old(initDone) ==> initDone && initFailed == old(initFailed)
        invariant old(history) <= history
      {
        var ns: string := *;
        var proj: string := *;
        var listed: Reply<seq<(string, AppProject)>> := *;
        if {
          case !initDone => Fill(listed);
          case initDone => TrustSource(ns, proj);
          case true => UnTrustSource(ns, proj);
          case initDone => JoinProject(ns, proj);
          case true => LeaveProject(ns, proj);
        }
        rounds := rounds - 1;
      }
    }
  }
}
