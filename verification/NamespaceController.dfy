/** NamespaceReconciler: keeps the index in line with namespace labels and pushes it into AppProjects. */
module NamespaceController {
  import opened Collections
  import opened NamesetModule
  import opened Labels
  import opened NamespaceIndex
  import opened NsCache
  import opened ClusterModel
  import opened ApiClient
  import opened Projects

  /**
   * The index after namespace n was seen with these labels. Its memberships become the label's. Its
   * source trusts gain the label's, but lose an old one only if that project's name is the name of a
   * namespace that trusts a project named n.
   */
  ghost predicate IndexUpdate(ix: Index, n: string, projects: set<string>, sources: set<string>, ix': Index) {
    && (forall m, p :: (m, p) in ix'.members <==> if m == n then p in projects else (m, p) in ix.members)
    && (forall m, p :: (m, p) in ix'.trusts <==>
          if m == n then p in sources || ((n, p) in ix.trusts && (p, n) !in ix.trusts) else (m, p) in ix.trusts)
  }

  ghost function SymmetricDifference(a: set<string>, b: set<string>): set<string> {
    (a - b) + (b - a)
  }

  ghost function Pairs(n: string, names: set<string>): set<(string, string)> {
    set p | p in names :: (n, p)
  }

  lemma PairsGrow(n: string, names: set<string>, p: string)
    ensures Pairs(n, names + {p}) == Pairs(n, names) + {(n, p)}
  {
  }

  method JoinAll(cache: SafeNsCache, n: string, items: seq<string>)
    requires cache.Valid() && cache.initDone
    modifies cache.Repr
    ensures cache.Valid() && fresh(cache.Repr - old(cache.Repr))
    ensures cache.initDone && cache.initFailed == old(cache.initFailed)
    ensures cache.index == old(cache.index).(members := old(cache.index.members) + Pairs(n, Elements(items)))
  {
    for i := 0 to |items|
      invariant cache.Valid() && fresh(cache.Repr - old(cache.Repr))
      invariant cache.initDone && cache.initFailed == old(cache.initFailed)
      invariant cache.index == old(cache.index).(members := old(cache.index.members) + Pairs(n, Elements(items[..i])))
    {
      ListingPrefix(items, i);
      PairsGrow(n, Elements(items[..i]), items[i]);
      cache.JoinProject(n, items[i]);
    }
    assert items[..|items|] == items;
  }

  method TrustAll(cache: SafeNsCache, n: string, items: seq<string>)
    requires cache.Valid() && cache.initDone
    modifies cache.Repr
    ensures cache.Valid() && fresh(cache.Repr - old(cache.Repr))
    ensures cache.initDone && cache.initFailed == old(cache.initFailed)
    ensures cache.index == old(cache.index).(trusts := old(cache.index.trusts) + Pairs(n, Elements(items)))
  {
    for i := 0 to |items|
      invariant cache.Valid() && fresh(cache.Repr - old(cache.Repr))
      invariant cache.initDone && cache.initFailed == old(cache.initFailed)
      invariant cache.index == old(cache.index).(trusts := old(cache.index.trusts) + Pairs(n, Elements(items[..i])))
    {
      ListingPrefix(items, i);
      PairsGrow(n, Elements(items[..i]), items[i]);
      cache.TrustSource(n, items[i]);
    }
    assert items[..|items|] == items;
  }

  lemma LeaveStep(current: seq<string>, i: nat, wanted: set<string>, left: seq<string>, n: string,
                  members: set<(string, string)>)
    requires i < |current| && NoDuplicates(current) && Listing(left, Elements(current[..i]) - wanted)
    requires (n, current[i]) in members
    ensures var t := current[i];
      && Elements(current[..i + 1]) == Elements(current[..i]) + {t}
      && (t in wanted <==> t in wanted - Elements(current[..i]))
      && (t !in wanted ==>
            && Listing(left + [t], Elements(current[..i + 1]) - wanted)
            && members - Pairs(n, Elements(left)) - {(n, t)} == members - Pairs(n, Elements(left + [t])))
      && (t in wanted ==>
            && Elements(current[..i + 1]) - wanted == Elements(current[..i]) - wanted
            && members - Pairs(n, Elements(left)) + {(n, t)} == members - Pairs(n, Elements(left)))
  {
    var t := current[i];
    ListingPrefix(current, i);
    ElementsAppend(left, t);
    PairsGrow(n, Elements(left), t);
    assert t !in Elements(left);
  }

  /** Settles one current project t of namespace n: leaves it unless it is wanted. */
  method SettleProject(cache: SafeNsCache, n: string, t: string, wanted: Nameset<string>) returns (gone: bool)
    requires cache.Valid() && cache.initDone && wanted !in cache.Repr
    modifies cache.Repr, wanted
    ensures cache.Valid() && fresh(cache.Repr - old(cache.Repr)) && wanted !in cache.Repr
    ensures cache.initDone && cache.initFailed == old(cache.initFailed)
    ensures wanted.Members() == old(wanted.Members()) - {t} && gone == (t !in old(wanted.Members()))
    ensures cache.index == old(cache.index).(
              members := if gone then old(cache.index.members) - {(n, t)} else old(cache.index.members) + {(n, t)})
  {
    gone := !wanted.Contains(t);
    if gone {
      cache.LeaveProject(n, t);
    } else {
      wanted.Remove(t);
      cache.JoinProject(n, t);
    }
  }

  /** Leaves the current projects that are not wanted, and strikes the others off the wanted ones. */
  method LeaveOrKeep(cache: SafeNsCache, n: string, current: seq<string>, wanted: Nameset<string>)
    returns (left: seq<string>)
    requires cache.Valid() && cache.initDone && wanted !in cache.Repr
    requires Listing(current, ProjectsOf(cache.index, n))
    modifies cache.Repr, wanted
    ensures cache.Valid() && fresh(cache.Repr - old(cache.Repr))
    ensures cache.initDone && cache.initFailed == old(cache.initFailed)
    ensures wanted.Members() == old(wanted.Members()) - Elements(current)
    ensures Listing(left, Elements(current) - old(wanted.Members()))
    ensures cache.index == old(cache.index).(members := old(cache.index.members) - Pairs(n, Elements(left)))
  {
    left := [];
    ghost var was, want := cache.index, wanted.Members();
    for i := 0 to |current|
      invariant cache.Valid() && fresh(cache.Repr - old(cache.Repr)) && wanted !in cache.Repr
      invariant cache.initDone && cache.initFailed == old(cache.initFailed)
      invariant wanted.Members() == want - Elements(current[..i])
      invariant Listing(left, Elements(current[..i]) - want)
      invariant cache.index == was.(members := was.members - Pairs(n, Elements(left)))
    {
      var t := current[i];
      assert t in Elements(current);
      LeaveStep(current, i, want, left, n, was.members);
      var gone := SettleProject(cache, n, t, wanted);
      if gone {
        left := left + [t];
      }
    }
    assert current[..|current|] == current;
  }

  lemma TrustStep(current: seq<string>, i: nat, wanted: set<string>, n: string, trusts: set<(string, string)>)
    requires i < |current| && NoDuplicates(current)
    ensures var s, seen, next := current[i], Elements(current[..i]), Elements(current[..i + 1]);
      && next == seen + {s}
      && (s in wanted <==> s in wanted - seen)
      && var was := trusts - Pairs(n, seen - wanted) + Pairs(n, seen * wanted);
         trusts - Pairs(n, next - wanted) + Pairs(n, next * wanted)
         == if s in wanted then was + {(n, s)} else was - {(n, s)}
  {
    var s, seen := current[i], Elements(current[..i]);
    ListingPrefix(current, i);
    if s in wanted {
      assert seen + {s} - wanted == seen - wanted;
      assert (seen + {s}) * wanted == seen * wanted + {s};
      PairsGrow(n, seen * wanted, s);
    } else {
      assert seen + {s} - wanted == (seen - wanted) + {s};
      assert (seen + {s}) * wanted == seen * wanted;
      PairsGrow(n, seen - wanted, s);
    }
  }

  /** Settles one trust: drops it unless it is wanted. */
  method SettleSource(cache: SafeNsCache, n: string, s: string, wanted: Nameset<string>)
    requires cache.Valid() && cache.initDone && wanted !in cache.Repr
    modifies cache.Repr, wanted
    ensures cache.Valid() && fresh(cache.Repr - old(cache.Repr)) && wanted !in cache.Repr
    ensures cache.initDone && cache.initFailed == old(cache.initFailed)
    ensures wanted.Members() == old(wanted.Members()) - {s}
    ensures cache.index == old(cache.index).(
              trusts := if s in old(wanted.Members()) then old(cache.index.trusts) + {(n, s)}
                        else old(cache.index.trusts) - {(n, s)})
  {
    if !wanted.Contains(s) {
      cache.UnTrustSource(n, s);
    } else {
      wanted.Remove(s);
      cache.TrustSource(n, s);
    }
  }

  /** Drops the listed trusts that are not wanted, confirms the others and strikes them off the wanted ones. */
  method UnTrustOrKeep(cache: SafeNsCache, n: string, current: seq<string>, wanted: Nameset<string>)
    requires cache.Valid() && cache.initDone && wanted !in cache.Repr && NoDuplicates(current)
    modifies cache.Repr, wanted
    ensures cache.Valid() && fresh(cache.Repr - old(cache.Repr))
    ensures cache.initDone && cache.initFailed == old(cache.initFailed)
    ensures wanted.Members() == old(wanted.Members()) - Elements(current)
    ensures cache.index == old(cache.index).(
              trusts := old(cache.index.trusts) - Pairs(n, Elements(current) - old(wanted.Members()))
                        + Pairs(n, Elements(current) * old(wanted.Members())))
  {
    ghost var was, want := cache.index, wanted.Members();
    for i := 0 to |current|
      invariant cache.Valid() && fresh(cache.Repr - old(cache.Repr)) && wanted !in cache.Repr
      invariant cache.initDone && cache.initFailed == old(cache.initFailed)
      invariant wanted.Members() == want - Elements(current[..i])
      invariant cache.index == was.(
                  trusts := was.trusts - Pairs(n, Elements(current[..i]) - want)
                      + Pairs(n, Elements(current[..i]) * want))
    {
      TrustStep(current, i, want, n, was.trusts);
      SettleSource(cache, n, current[i], wanted);
    }
    assert current[..|current|] == current;
  }

  /** Takes namespace n out of the projects its label no longer names and puts it into those it does. */
  method UpdateProjects(cache: SafeNsCache, n: string, value: string) returns (joined: seq<string>, left: seq<string>)
    requires cache.Valid() && cache.initDone
    modifies cache.Repr
    ensures cache.Valid() && fresh(cache.Repr - old(cache.Repr))
    ensures cache.initDone && cache.initFailed == old(cache.initFailed)
    ensures cache.index == old(cache.index).(
              members := old(cache.index.members) - Pairs(n, Elements(left)) + Pairs(n, Elements(joined)))
    ensures Listing(joined, LabelSet(value) - ProjectsOf(old(cache.index), n))
    ensures Listing(left, ProjectsOf(old(cache.index), n) - LabelSet(value))
  {
    var toAdd := LabelToProjects(value);
    var current := cache.GetProjects(n);
    left := LeaveOrKeep(cache, n, current, toAdd);
    var items := toAdd.All();
    joined := toAdd.All();
    JoinAll(cache, n, items);
  }

  /** Brings the source trusts of namespace n in line with its source label, as far as the code does. */
  method UpdateSources(cache: SafeNsCache, n: string, value: string)
    requires cache.Valid() && cache.initDone
    modifies cache.Repr
    ensures cache.Valid() && fresh(cache.Repr - old(cache.Repr))
    ensures cache.initDone && cache.initFailed == old(cache.initFailed)
    ensures cache.index.members == old(cache.index.members)
    ensures forall m, p :: (m, p) in cache.index.trusts <==>
              if m == n then p in LabelSet(value)
                  || ((n, p) in old(cache.index.trusts) && (p, n) !in old(cache.index.trusts))
              else (m, p) in old(cache.index.trusts)
  {
    var toAdd := LabelToProjects(value);
    var current := cache.GetSources(n);
    UnTrustOrKeep(cache, n, current, toAdd);
    var items := toAdd.All();
    TrustAll(cache, n, items);
  }

  /** Offers the desired targets to the AppProject of a team, if there is one. */
  method PushTargets(client: Client, team: string, desired: AppProject, ghost ix: Index, ghost dirty: set<string>)
    returns (outcome: Outcome)
    requires client.Valid() && client.actor == NamespaceWorker && Obeys(client.actor, client.steps)
    requires Synced(desired, ix, team)
    modifies client`cluster, client`steps
    ensures client.Valid() && Obeys(client.actor, client.steps) && old(client.steps) <= client.steps
    ensures client.exclusive ==>
              Pushes({team}, ix, old(client.cluster), dirty, client.cluster,
                     if outcome.Done? then dirty - {team} else dirty + {team})
    ensures forall t | t in client.steps[|old(client.steps)|..] :: TargetsWritten(t, team, ix)
    ensures outcome.Done? ==> InLine(client.cluster, team, ix)
    ensures client.Calm() ==> outcome.Done?
  {
    var r := client.Get(ProjectKey(team));
    PushFailed(client.cluster, team, ix, dirty);
    if r.NotFound? {
      PushNotNeeded(client.cluster, team, ix, dirty);
      return Done;
    }
    if r.Failed? {
      return Error(ApiError);
    }
    ghost var read := client.cluster;
    assert Typed(ProjectKey(team), r.value.content);
    var found, needsUpdate := Retarget(r.value.content.project, desired);
    if needsUpdate {
      var u, before := client.Update(ProjectKey(team), ProjectObject(found), r.value.version);
      if u.Ok? || client.cluster != before {
        SameVersionSameObject(read, before, ProjectKey(team));
        PushTakesEffect(before, team, found, ix, dirty);
      }
      if !u.Ok? {
        return Error(ApiError);
      }
    } else {
      PushNotNeeded(client.cluster, team, ix, dirty);
    }
    outcome := Done;
  }

  /** Marks changed within s, then within t. */
  lemma DirtyTwice(s: set<string>, t: set<string>, d: set<string>, d': set<string>, d'': set<string>)
    requires s !! t && d' - s == d - s && d'' - t == d' - t
    ensures s * d'' == s * d' && d'' - (s + t) == d - (s + t)
  {
    forall x
      ensures x in s * d'' <==> x in s * d'
      ensures x in d'' - (s + t) <==> x in d - (s + t)
    {
      assert (x in d' - s <==> x in d - s) && (x in d'' - t <==> x in d' - t);
    }
  }

  lemma DirtyStep(done: set<string>, p: string, d: set<string>, d': set<string>)
    requires p !in done && (d' == d - {p} || d' == d + {p})
    ensures (done + {p}) * d' != {} <==> done * d != {} || p in d'
    ensures forall d0: set<string> | d - done == d0 - done :: d' - (done + {p}) == d0 - (done + {p})
  {
    assert (done + {p}) * d' == done * d + ({p} * d');
    assert p in d' ==> p in {p} * d';
    forall d0: set<string> | d - done == d0 - done ensures d' - (done + {p}) == d0 - (done + {p}) {
      forall x ensures x in d' - (done + {p}) <==> x in d0 - (done + {p}) {
        assert x in d - done <==> x in d0 - done;
      }
    }
  }

  class NamespaceReconciler {
    const client: Client
    const cache: SafeNsCache
    const publicRepos: seq<string>
    /** The projects handed to ReconcileAppProject, in order. */
    ghost var attempts: seq<string>
    /** The projects whose latest push failed. */
    ghost var dirty: set<string>

    constructor (client: Client, cache: SafeNsCache, publicRepos: seq<string>)
      requires client.Valid() && cache.Valid() && client !in cache.Repr && client.actor == NamespaceWorker
      ensures Valid() && this.client == client && this.cache == cache && attempts == [] && dirty == {}
    {
      this.client, this.cache, this.publicRepos := client, cache, publicRepos;
      attempts, dirty := [], {};
    }

    ghost predicate Valid()
      reads this, client, cache, cache.Repr
    {
      && client.Valid() && cache.Valid()
      && client !in cache.Repr && this !in cache.Repr
      && client.actor == NamespaceWorker
    }

    /** Pushes the index into one AppProject, if it exists. The reconciler's mutex keeps the index still. */
    method ReconcileAppProject(team: string) returns (outcome: Outcome)
      requires Valid() && Obeys(client.actor, client.steps)
      modifies this`attempts, this`dirty, client`cluster, client`steps
      ensures Valid() && Obeys(client.actor, client.steps) && old(client.steps) <= client.steps
      ensures attempts == old(attempts) + [team]
      ensures dirty == if outcome.Done? then old(dirty) - {team} else old(dirty) + {team}
      ensures client.exclusive ==>
                Pushes({team}, cache.index, old(client.cluster), old(dirty), client.cluster, dirty)
      ensures Wrote(old(client.steps), client.steps, {team}, cache.index)
      ensures outcome.Done? ==> InLine(client.cluster, team, cache.index)
      ensures client.Calm() ==> outcome.Done?
    {
      var namespaces := cache.GetNamespaces(team);
      var sources := cache.GetSources(team);
      var desired := CreateAppProj(team, namespaces, sources, publicRepos);
      outcome := PushTargets(client, team, desired, cache.index, dirty);
      WroteOne(old(client.steps), client.steps, team, cache.index);
      attempts := attempts + [team];
      dirty := if outcome.Done? then dirty - {team} else dirty + {team};
    }

    /** What pushing the AppProjects in `done` amounts to, from the given state of cluster, marks and log. */
    ghost predicate Pushed(done: set<string>, failed: bool, start: Cluster, startDirty: set<string>,
                           startSteps: seq<Transition>)
      requires Valid()
      reads this, client, cache, cache.Repr
    {
      && (client.Calm() ==> !failed)
      && (failed <==> done * dirty != {})
      && dirty - done == startDirty - done
      && Wrote(startSteps, client.steps, done, cache.index)
      && (client.exclusive ==> Pushes(done, cache.index, start, startDirty, client.cluster, dirty))
    }

    /** Pushes one more. */
    method PushNext(team: string, failed: bool, ghost done: set<string>,
                    ghost start: Cluster, ghost startDirty: set<string>, ghost startSteps: seq<Transition>)
      returns (failedNow: bool)
      requires Valid() && Obeys(client.actor, client.steps) && WellFormed(start)
      requires team !in done && Pushed(done, failed, start, startDirty, startSteps)
      modifies this`attempts, this`dirty, client`cluster, client`steps
      ensures Valid() && Obeys(client.actor, client.steps) && attempts == old(attempts) + [team]
      ensures Pushed(done + {team}, failedNow, start, startDirty, startSteps)
    {
      ghost var mid, midDirty, midSteps := client.cluster, dirty, client.steps;
      var outcome := ReconcileAppProject(team);
      WroteTwice(startSteps, midSteps, client.steps, done, {team}, cache.index);
      if client.exclusive {
        PushesCompose(done, {team}, cache.index, start, startDirty, mid, midDirty, client.cluster, dirty);
      }
      DirtyStep(done, team, midDirty, dirty);
      failedNow := failed || !outcome.Done?;
    }

    /** Pushes the index into several AppProjects; a failure does not stop the others. */
    method PushAll(items: seq<string>) returns (failed: bool)
      requires Valid() && Obeys(client.actor, client.steps) && NoDuplicates(items)
      modifies this`attempts, this`dirty, client`cluster, client`steps
      ensures Valid() && Obeys(client.actor, client.steps) && attempts == old(attempts) + items
      ensures Pushed(Elements(items), failed, old(client.cluster), old(dirty), old(client.steps))
    {
      failed := false;
      PushesNothing(cache.index, client.cluster, dirty);
      for i := 0 to |items|
        invariant Valid() && Obeys(client.actor, client.steps) && attempts == old(attempts) + items[..i]
        invariant Pushed(Elements(items[..i]), failed, old(client.cluster), old(dirty), old(client.steps))
      {
        ListingPrefix(items, i);
        failed := PushNext(items[i], failed, Elements(items[..i]), old(client.cluster), old(dirty), old(client.steps));
        assert items[..i + 1] == items[..i] + [items[i]];
      }
      assert items[..|items|] == items;
    }

    /** Pushes the projects just joined, then the projects just left. */
    method PushBoth(joined: seq<string>, left: seq<string>) returns (failed: bool)
      requires Valid() && Obeys(client.actor, client.steps)
      requires NoDuplicates(joined) && NoDuplicates(left) && Elements(joined) !! Elements(left)
      modifies this`attempts, this`dirty, client`cluster, client`steps
      ensures Valid() && Obeys(client.actor, client.steps) && attempts == old(attempts) + (joined + left)
      ensures Pushed(Elements(joined + left), failed, old(client.cluster), old(dirty), old(client.steps))
    {
      var notJoined := PushAll(joined);
      ghost var mid, midDirty, midSteps := client.cluster, dirty, client.steps;
      var notLeft := PushAll(left);
      ElementsConcat(joined, left);
      WroteTwice(old(client.steps), midSteps, client.steps, Elements(joined), Elements(left), cache.index);
      DirtyTwice(Elements(joined), Elements(left), old(dirty), midDirty, dirty);
      assert Elements(joined + left) * dirty == Elements(joined) * midDirty + Elements(left) * dirty;
      if client.exclusive {
        PushesCompose(Elements(joined), Elements(left), cache.index, old(client.cluster), old(dirty), mid, midDirty,
                      client.cluster, dirty);
      }
      failed := notJoined || notLeft;
    }

    /** What Reconcile does with a namespace that is gone; failures are not reported. */
    method PushGone(name: string)
      requires Valid() && Obeys(client.actor, client.steps)
      modifies this`attempts, this`dirty, client`cluster, client`steps
      ensures Valid() && Obeys(client.actor, client.steps) && old(attempts) <= attempts
      ensures Listing(attempts[|old(attempts)|..], ProjectsOf(cache.index, name))
      ensures Wrote(old(client.steps), client.steps, Elements(attempts[|old(attempts)|..]), cache.index)
      ensures client.exclusive ==>
                Pushes(Elements(attempts[|old(attempts)|..]), cache.index, old(client.cluster), old(dirty),
                       client.cluster, dirty)
      ensures client.Calm() ==> Elements(attempts[|old(attempts)|..]) * dirty == {}
    {
      var oldTeams := cache.GetProjects(name);
      var _ := PushAll(oldTeams);
      assert attempts[|old(attempts)|..] == oldTeams;
    }

    /** What Reconcile does with a namespace that exists. */
    method Observe(name: string, projectsLabel: string, sourceLabel: string) returns (outcome: Outcome)
      requires Valid() && Obeys(client.actor, client.steps) && cache.initDone
      modifies this`attempts, this`dirty, client`cluster, client`steps, cache.Repr
      ensures Valid() && fresh(cache.Repr - old(cache.Repr)) && Obeys(client.actor, client.steps)
      ensures cache.initDone && cache.initFailed == old(cache.initFailed)
      ensures IndexUpdate(old(cache.index), name, LabelSet(projectsLabel), LabelSet(sourceLabel), cache.index)
      ensures old(attempts) <= attempts
      ensures Listing(attempts[|old(attempts)|..],
                      SymmetricDifference(ProjectsOf(old(cache.index), name), LabelSet(projectsLabel)))
      ensures outcome.Done? <==> Elements(attempts[|old(attempts)|..]) * dirty == {}
      ensures Wrote(old(client.steps), client.steps, Elements(attempts[|old(attempts)|..]), cache.index)
      ensures client.exclusive ==>
                Pushes(Elements(attempts[|old(attempts)|..]), cache.index, old(client.cluster), old(dirty),
                       client.cluster, dirty)
      ensures client.Calm() ==> outcome.Done?
    {
      UpdateSources(cache, name, sourceLabel);
      var joined, left := UpdateProjects(cache, name, projectsLabel);
      ghost var wanted, had := LabelSet(projectsLabel), ProjectsOf(old(cache.index), name);
      ListingConcat(joined, left, wanted - had, had - wanted);
      assert SymmetricDifference(had, wanted) == (wanted - had) + (had - wanted);
      var failed := PushBoth(joined, left);
      assert attempts[|old(attempts)|..] == joined + left;
      outcome := if failed then Error(ApiError) else Done;
    }

    /**
     * One reconcile request for a namespace. `base` is the index when the namespace is looked up and
     * `observed` what the look-up said (Failed also when there was none).
     */
    method Reconcile(name: string) returns (outcome: Outcome, ghost base: Index, ghost observed: Reply<Stored>)
      requires Valid() && Obeys(client.actor, client.steps)
      modifies this`attempts, this`dirty, client`cluster, client`steps, cache.Repr
      ensures Valid() && fresh(cache.Repr - old(cache.Repr)) && Obeys(client.actor, client.steps)
      ensures cache.initDone
      ensures old(cache.initDone) ==> base == old(cache.index) && cache.initFailed == old(cache.initFailed)
      ensures client.exclusive && !old(cache.initDone) && !cache.initFailed ==>
                base.trusts == {} && Matches(base, old(client.cluster))
      ensures cache.initFailed ==>
                outcome == Error(NotInitialised) && observed.Failed? && client.steps == old(client.steps)
      ensures cache.initFailed && client.exclusive ==> client.cluster == old(client.cluster)
      ensures old(attempts) <= attempts && Handled(name, base, observed, cache.index, attempts[|old(attempts)|..])
      ensures Wrote(old(client.steps), client.steps, Elements(attempts[|old(attempts)|..]), cache.index)
      ensures outcome.Done? <==>
                observed.NotFound? || (observed.Ok? && Elements(attempts[|old(attempts)|..]) * dirty == {})
      ensures client.exclusive ==>
                && (observed.Ok? ==>
                      NamespaceKey(name) in old(client.cluster.objects)
                      && observed.value == old(client.cluster).objects[NamespaceKey(name)])
                && (observed.NotFound? ==> NamespaceKey(name) !in old(client.cluster.objects))
                && Pushes(Elements(attempts[|old(attempts)|..]), cache.index, old(client.cluster), old(dirty),
                          client.cluster, dirty)
      ensures client.Calm() && (old(cache.initDone) ==> !old(cache.initFailed)) ==>
                && outcome.Done? && Elements(attempts[|old(attempts)|..]) * dirty == {}
                && (observed.Ok? <==> NamespaceKey(name) in old(client.cluster.objects))
    {
      var ok := cache.InitOrPass(client);
      base, observed := cache.index, Failed;
      PushesNothing(cache.index, client.cluster, dirty);
      assert attempts[|old(attempts)|..] == [];
      if !ok {
        return Error(NotInitialised), base, observed;
      }
      var r := client.Get(NamespaceKey(name));
      observed := r;
      match r
      case Failed =>
        outcome := Error(ApiError);
      case NotFound =>
        PushGone(name);
        outcome := Done;
      case Ok(found) =>
        assert Typed(NamespaceKey(name), found.content);
        outcome := Observe(name, found.content.projectsLabel, found.content.sourceLabel);
    }
  }

  /**
   * What a reconcile does to the index, and which AppProjects it pushes: exactly those whose relation to
   * the namespace changed, each once; for a namespace that is gone, those it was last seen in.
   */
  ghost predicate Handled(name: string, base: Index, observed: Reply<Stored>, index: Index, attempts: seq<string>) {
    match observed
    case Failed => index == base && attempts == []
    case NotFound => index == base && Listing(attempts, ProjectsOf(base, name))
    case Ok(found) =>
      && found.content.NamespaceObject?
      && IndexUpdate(base, name, LabelSet(found.content.projectsLabel), LabelSet(found.content.sourceLabel), index)
      && Listing(attempts, SymmetricDifference(ProjectsOf(base, name), LabelSet(found.content.projectsLabel)))
  }
}
