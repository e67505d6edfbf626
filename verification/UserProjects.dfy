/** The AppProject of an ArgocdUser. */
module UserProjects {
  import opened Collections
  import opened Strings
  import opened Naming
  import opened NamespaceIndex
  import opened NsCache
  import opened ClusterModel
  import opened ApiClient
  import opened Projects
  import opened OwnSteps

  /** Nothing but the AppProject of `name` differs. */
  ghost predicate ProjectOnly(name: string, c: Cluster, c': Cluster) {
    && c'.written - {ProjectEntry(name)} == c.written - {ProjectEntry(name)}
    && forall k | k != ProjectKey(name) :: SameObject(c, c', k)
  }

  /** Changing nothing but one's own AppProject, and dropping none of its repositories, keeps the guarantee. */
  lemma ProjectChange(name: string, c: Cluster, d: Cluster)
    requires Advances(c, d) && Carries(c, name) && ProjectOnly(name, c, d)
    requires ProjectKey(name) in c.objects && ProjectKey(name) in d.objects ==>
               var o, o' := c.objects[ProjectKey(name)].content, d.objects[ProjectKey(name)].content;
               o.ProjectObject? && o'.ProjectObject? ==>
                   Elements(o.project.sourceRepos) <= Elements(o'.project.sourceRepos)
    ensures Guarantee(name, c, d) && Carries(d, name) && (Leaving(c, name) ==> Leaving(d, name))
  {
    assert SameObject(c, d, UserKey(name)) && SameObject(c, d, ConfigMapKey) && SameObject(c, d, SecretKey);
    assert forall b :: SameObject(c, d, BindingKey(b));
    assert forall p | p != name :: SameObject(c, d, ProjectKey(p));
    forall e | (e in c.written) != (e in d.written) ensures e == ProjectEntry(name) {
      assert (e in d.written - {ProjectEntry(name)}) == (e in c.written - {ProjectEntry(name)});
    }
  }

  lemma CreateProjectOwn(name: string, c: Cluster, p: AppProject)
    requires WellFormed(c) && ProjectKey(name) !in c.objects && !p.terminating && Carries(c, name)
    ensures var d := CreateEffect(c, ProjectKey(name), ProjectObject(p));
      Guarantee(name, c, d) && Carries(d, name) && ProjectOnly(name, c, d)
  {
    CreateAdvances(c, ProjectKey(name), ProjectObject(p));
    ProjectChange(name, c, CreateEffect(c, ProjectKey(name), ProjectObject(p)));
  }

  lemma UpdateProjectOwn(name: string, c: Cluster, p: AppProject)
    requires WellFormed(c) && ProjectKey(name) in c.objects && Carries(c, name)
    requires Elements(c.objects[ProjectKey(name)].content.project.sourceRepos) <= Elements(p.sourceRepos)
    requires p.terminating == c.objects[ProjectKey(name)].content.project.terminating
    ensures var d := UpdateEffect(c, ProjectKey(name), ProjectObject(p), true);
      && Guarantee(name, c, d) && Carries(d, name) && ProjectOnly(name, c, d)
      && ProjectKey(name) in d.objects && d.objects[ProjectKey(name)].content == ProjectObject(p)
  {
    UpdateAdvances(c, ProjectKey(name), ProjectObject(p), true);
    ProjectChange(name, c, UpdateEffect(c, ProjectKey(name), ProjectObject(p), true));
  }

  /** The AppProject of `name` is there, with these destination namespaces and sources. */
  ghost predicate HasTargets(c: Cluster, name: string, namespaces: set<string>, sources: set<string>) {
    ProjectKey(name) in c.objects
    && var o := c.objects[ProjectKey(name)].content;
       && o.ProjectObject? && AnyServer(o.project.destinations)
       && DestNamespaces(o.project.destinations) == namespaces && Elements(o.project.sourceNamespaces) == sources
  }

  /** The destinations are those of the first index, the sources those of the second. */
  ghost predicate HasTargetsOf(c: Cluster, name: string, first: Index, second: Index) {
    HasTargets(c, name, NamespacesOf(first, name), SourcesOf(second, name))
  }

  ghost predicate ProjectIs(c: Cluster, name: string, p: AppProject) {
    ProjectKey(name) in c.objects && c.objects[ProjectKey(name)].content == ProjectObject(p)
  }

  /** What the ArgocdUser controller makes of an AppProject it found: targets, roles, and more repositories. */
  ghost function Reconciled(found: AppProject, desired: AppProject): AppProject {
    Retargeted(found, desired).(roles := desired.roles, sourceRepos := Merged(desired.sourceRepos, found.sourceRepos))
  }

  method Revise(project: AppProject, desired: AppProject) returns (found: AppProject, needsUpdate: bool)
    ensures found == Reconciled(project, desired)
    ensures needsUpdate <==> found != project
  {
    var repos := MergeStringSlices(desired.sourceRepos, project.sourceRepos);
    found, needsUpdate := Retarget(project, desired);
    if found.roles != desired.roles {
      found := found.(roles := desired.roles);
      needsUpdate := true;
    }
    var bothEmpty := |found.sourceRepos| == 0 && |repos| == 0;
    if !bothEmpty && found.sourceRepos != repos {
      found := found.(sourceRepos := repos);
      needsUpdate := true;
    }
  }

  method CreateProject(client: Client, name: string, desired: AppProject) returns (outcome: Outcome)
    requires Live(client, name) && !desired.terminating && AnyServer(desired.destinations)
    modifies client`cluster, client`steps
    ensures Live(client, name) && old(client.steps) <= client.steps
    ensures forall t | t in client.steps[|old(client.steps)|..] ::
              HasTargets(t.post, name, DestNamespaces(desired.destinations), Elements(desired.sourceNamespaces))
    ensures client.exclusive ==> ProjectOnly(name, old(client.cluster), client.cluster)
    ensures client.exclusive && !outcome.Done? ==>
              client.cluster == old(client.cluster) || ProjectIs(client.cluster, name, desired)
    ensures outcome.Done? ==> ProjectIs(client.cluster, name, desired)
    ensures client.Calm() && ProjectKey(name) !in old(client.cluster).objects ==> outcome.Done?
  {
    var created, before := client.Create(ProjectKey(name), ProjectObject(desired));
    if client.cluster != before {
      CreateProjectOwn(name, before, desired);
    }
    outcome := if created.Ok? then Done else Error(ApiError);
  }

  method UpdateProject(client: Client, name: string, found: AppProject, version: nat, ghost read: Cluster)
    returns (outcome: Outcome)
    requires Live(client, name) && read == client.cluster && ProjectKey(name) in read.objects
    requires read.objects[ProjectKey(name)].version == version
    requires Elements(read.objects[ProjectKey(name)].content.project.sourceRepos) <= Elements(found.sourceRepos)
    requires AnyServer(found.destinations)
    requires found.terminating == read.objects[ProjectKey(name)].content.project.terminating
    modifies client`cluster, client`steps
    ensures Live(client, name) && old(client.steps) <= client.steps
    ensures forall t | t in client.steps[|old(client.steps)|..] ::
              HasTargets(t.post, name, DestNamespaces(found.destinations), Elements(found.sourceNamespaces))
    ensures client.exclusive ==> ProjectOnly(name, old(client.cluster), client.cluster)
    ensures client.exclusive && !outcome.Done? ==>
              client.cluster == old(client.cluster) || ProjectIs(client.cluster, name, found)
    ensures outcome.Done? ==> ProjectIs(client.cluster, name, found)
    ensures client.Calm() ==> outcome.Done?
  {
    var updated, before := client.Update(ProjectKey(name), ProjectObject(found), version);
    if updated.Ok? || client.cluster != before {
      SameVersionSameObject(read, before, ProjectKey(name));
      UpdateProjectOwn(name, before, found);
    }
    outcome := if updated.Ok? then Done else Error(ApiError);
  }

  /** Creates the AppProject or brings it in line with `desired`. */
  method ApplyProject(client: Client, name: string, desired: AppProject) returns (outcome: Outcome)
    requires Live(client, name) && !desired.terminating && AnyServer(desired.destinations)
    modifies client`cluster, client`steps
    ensures Live(client, name) && old(client.steps) <= client.steps
    ensures forall t | t in client.steps[|old(client.steps)|..] ::
              HasTargets(t.post, name, DestNamespaces(desired.destinations), Elements(desired.sourceNamespaces))
    ensures outcome.Done? ==>
              HasTargets(client.cluster, name, DestNamespaces(desired.destinations), Elements(desired.sourceNamespaces))
    ensures client.exclusive ==> ProjectOnly(name, old(client.cluster), client.cluster)
    ensures client.exclusive ==>
              || (client.cluster == old(client.cluster) && !outcome.Done?)
              || ProjectIs(client.cluster, name,
                           if ProjectKey(name) in old(client.cluster).objects
                           then Reconciled(old(client.cluster).objects[ProjectKey(name)].content.project, desired)
                           else desired)
    ensures client.Calm() ==> outcome.Done?
  {
    var r := client.Get(ProjectKey(name));
    if r.NotFound? {
      outcome := CreateProject(client, name, desired);
      return;
    }
    if r.Failed? {
      return Error(ApiError);
    }
    assert Typed(ProjectKey(name), r.value.content);
    var found, needsUpdate := Revise(r.value.content.project, desired);
    outcome := Done;
    if needsUpdate {
      outcome := UpdateProject(client, name, found, r.value.version, client.cluster);
    }
  }

  /** The namespace controller may act on the index meanwhile. */
  method Meanwhile(cache: SafeNsCache, alone: bool)
    requires cache.Valid()
    modifies cache.Repr
    ensures cache.Valid() && fresh(cache.Repr - old(cache.Repr))
    ensures old(cache.initDone) || alone ==>
              cache.initDone == old(cache.initDone) && cache.initFailed == old(cache.initFailed)
    ensures old(cache.history) <= cache.history && (alone ==> cache.history == old(cache.history))
  {
    if !alone {
      cache.Interfere();
    }
  }

  /** The first read, under a lock of its own, at moment i. */
  method ReadNamespaces(cache: SafeNsCache, name: string, alone: bool) returns (namespaces: seq<string>, ghost i: nat)
    requires cache.Valid()
    modifies cache.Repr
    ensures cache.Valid() && fresh(cache.Repr - old(cache.Repr))
    ensures old(cache.initDone) || alone ==>
              cache.initDone == old(cache.initDone) && cache.initFailed == old(cache.initFailed)
    ensures old(cache.history) <= cache.history && (alone ==> cache.history == old(cache.history))
    ensures i + 1 == |cache.history| && Elements(namespaces) == NamespacesOf(cache.history[i], name)
  {
    Meanwhile(cache, alone);
    i := |cache.history| - 1;
    namespaces := cache.GetNamespaces(name);
  }

  /** The second read, under a lock of its own, at moment j. */
  method ReadSources(cache: SafeNsCache, name: string, alone: bool) returns (sources: seq<string>, ghost j: nat)
    requires cache.Valid()
    modifies cache.Repr
    ensures cache.Valid() && fresh(cache.Repr - old(cache.Repr))
    ensures old(cache.initDone) || alone ==>
              cache.initDone == old(cache.initDone) && cache.initFailed == old(cache.initFailed)
    ensures old(cache.history) <= cache.history && (alone ==> cache.history == old(cache.history))
    ensures j + 1 == |cache.history| && Elements(sources) == SourcesOf(cache.history[j], name)
  {
    Meanwhile(cache, alone);
    j := |cache.history| - 1;
    sources := cache.GetSources(name);
  }

  /** Both reads: the index may move on between them. */
  method ReadIndex(cache: SafeNsCache, name: string, alone: bool)
    returns (namespaces: seq<string>, sources: seq<string>, ghost i: nat, ghost j: nat)
    requires cache.Valid()
    modifies cache.Repr
    ensures cache.Valid() && fresh(cache.Repr - old(cache.Repr))
    ensures old(cache.initDone) || alone ==>
              cache.initDone == old(cache.initDone) && cache.initFailed == old(cache.initFailed)
    ensures old(cache.history) <= cache.history && (alone ==> cache.history == old(cache.history))
    ensures old(|cache.history|) <= i + 1 && i <= j < |cache.history|
    ensures Elements(namespaces) == NamespacesOf(cache.history[i], name)
    ensures Elements(sources) == SourcesOf(cache.history[j], name)
  {
    namespaces, i := ReadNamespaces(cache, name, alone);
    sources, j := ReadSources(cache, name, alone);
  }

  /** Creates or updates the AppProject from these two lists. */
  method ApplyTargets(client: Client, name: string, namespaces: seq<string>, sources: seq<string>,
                      publicRepos: seq<string>)
    returns (outcome: Outcome)
    requires Live(client, name)
    modifies client`cluster, client`steps
    ensures Live(client, name) && old(client.steps) <= client.steps
    ensures forall t | t in client.steps[|old(client.steps)|..] ::
              HasTargets(t.post, name, Elements(namespaces), Elements(sources))
    ensures outcome.Done? ==> HasTargets(client.cluster, name, Elements(namespaces), Elements(sources))
    ensures client.exclusive ==> ProjectOnly(name, old(client.cluster), client.cluster)
    ensures client.exclusive && !outcome.Done? ==>
              || client.cluster == old(client.cluster)
              || HasTargets(client.cluster, name, Elements(namespaces), Elements(sources))
    ensures client.exclusive && outcome.Done? ==> RolesAndRepos(old(client.cluster), client.cluster, name, publicRepos)
    ensures client.Calm() ==> outcome.Done?
  {
    var desired := CreateAppProj(name, namespaces, sources, publicRepos);
    outcome := ApplyProject(client, name, desired);
  }

  /** Takes a snapshot of the index and applies it; `i` and `j` are the moments of its two reads. */
  method ApplySnapshot(client: Client, cache: SafeNsCache, name: string, publicRepos: seq<string>)
    returns (outcome: Outcome, ghost i: nat, ghost j: nat)
    requires Live(client, name) && cache.Valid() && client !in cache.Repr
    modifies client`cluster, client`steps, cache.Repr
    ensures Live(client, name) && old(client.steps) <= client.steps
    ensures cache.Valid() && fresh(cache.Repr - old(cache.Repr))
    ensures old(cache.initDone) || client.exclusive ==>
              cache.initDone == old(cache.initDone) && cache.initFailed == old(cache.initFailed)
    ensures old(cache.history) <= cache.history && (client.exclusive ==> cache.history == old(cache.history))
    ensures old(|cache.history|) <= i + 1 && i <= j < |cache.history|
    ensures forall t | t in client.steps[|old(client.steps)|..] ::
              HasTargetsOf(t.post, name, cache.history[i], cache.history[j])
    ensures outcome.Done? ==> HasTargetsOf(client.cluster, name, cache.history[i], cache.history[j])
    ensures client.exclusive ==> ProjectOnly(name, old(client.cluster), client.cluster)
    ensures client.exclusive && !outcome.Done? ==>
              || client.cluster == old(client.cluster)
              || HasTargetsOf(client.cluster, name, cache.index, cache.index)
    ensures client.exclusive && outcome.Done? ==>
              && HasTargetsOf(client.cluster, name, cache.index, cache.index)
              && RolesAndRepos(old(client.cluster), client.cluster, name, publicRepos)
    ensures client.Calm() ==> outcome.Done?
  {
    var namespaces, sources;
    namespaces, sources, i, j := ReadIndex(cache, name, client.exclusive);
    outcome := ApplyTargets(client, name, namespaces, sources, publicRepos);
  }

  /** An AppProject with the targets of two moments has those of now exactly if the index says the same of it. */
  lemma OldSnapshot(c: Cluster, name: string, first: Index, second: Index, now: Index)
    requires HasTargetsOf(c, name, first, second)
    ensures HasTargetsOf(c, name, now, now) <==>
              NamespacesOf(first, name) == NamespacesOf(now, name) && SourcesOf(second, name) == SourcesOf(now, name)
  {
  }

  /** A team with namespace "ns", its AppProject in line with the index that says so. */
  ghost function TeamWithNamespace(): Cluster {
    var role := RoleSpec("", []);
    Cluster(map[UserKey("team") := Stored(UserObject(ArgocdUser(role, role, role, None, true, false, false)), 1),
                ProjectKey("team") := Stored(ProjectObject(TeamProject(["ns"])), 1)], {}, 1)
  }

  ghost function TeamProject(namespaces: seq<string>): AppProject {
    AppProject(Wildcards(namespaces), [], [], RolesOf("team"), false)
  }

  lemma TeamTargets()
    ensures var read, now := Index({("ns", "team")}, {}), Index({}, {});
      && NamespacesOf(read, "team") == {"ns"} && SourcesOf(read, "team") == {}
      && NamespacesOf(now, "team") == {} && SourcesOf(now, "team") == {}
    ensures forall namespaces ::
              DestNamespaces(Wildcards(namespaces)) == Elements(namespaces) && AnyServer(Wildcards(namespaces))
    ensures Elements(["ns"]) == {"ns"} && Elements<string>([]) == {}
  {
    forall namespaces {
      WildcardNamespaces(namespaces);
    }
  }

  /**
   * It does happen. The ArgocdUser worker reads the index while "ns" is in the project. Then the namespace
   * controller takes "ns" out and pushes that; the AppProject is in line. The ArgocdUser worker goes on,
   * finds the AppProject different from what it read before, and puts "ns" back in.
   */
  lemma OldSnapshotExists() returns (c0: Cluster, read: Index, c1: Cluster, now: Index, c2: Cluster)
    ensures WellFormed(c0) && HasTargetsOf(c0, "team", read, read)
    ensures NamespaceGuarantee(c0, c1) && HasTargetsOf(c1, "team", now, now)
    ensures Guarantee("team", c1, c2) && HasTargetsOf(c2, "team", read, read) && !HasTargetsOf(c2, "team", now, now)
  {
    read, now, c0 := Index({("ns", "team")}, {}), Index({}, {}), TeamWithNamespace();
    TeamTargets();
    assert c0.objects[ProjectKey("team")].content == ProjectObject(TeamProject(["ns"]));
    c1 := UpdateEffect(c0, ProjectKey("team"), ProjectObject(TeamProject([])), false);
    PushTakesEffect(c0, "team", TeamProject([]), now, {});
    c2 := UpdateEffect(c1, ProjectKey("team"), ProjectObject(TeamProject(["ns"])), true);
    assert SameObject(c0, c1, UserKey("team"));
    UpdateProjectOwn("team", c1, TeamProject(["ns"]));
    OldSnapshot(c2, "team", read, read, now);
    assert "ns" in NamespacesOf(read, "team");
  }

  /**
   * reconcileAppProject of the ArgocdUser controller. It does not hold the namespace controller's
   * mutex, so the index may be filled or move on between its two reads and around the write. `i` and `j`
   * are the moments of the two reads: every write carries the destinations of one single moment, and the
   * sources of one single moment. A call without errors ends with an AppProject that has them. They are
   * those of now exactly if what the index says of this project is what it said at those two moments.
   */
  method ReconcileAppProject(client: Client, cache: SafeNsCache, name: string, publicRepos: seq<string>)
    returns (outcome: Outcome, ghost i: nat, ghost j: nat)
    requires Live(client, name) && cache.Valid() && client !in cache.Repr
    modifies client`cluster, client`steps, cache.Repr
    ensures Live(client, name) && old(client.steps) <= client.steps
    ensures cache.Valid() && fresh(cache.Repr - old(cache.Repr))
    ensures old(cache.initDone) || client.exclusive ==>
              cache.initDone == old(cache.initDone) && cache.initFailed == old(cache.initFailed)
    ensures old(cache.history) <= cache.history && (client.exclusive ==> cache.history == old(cache.history))
    ensures old(|cache.history|) <= i + 1 && i <= j < |cache.history|
    ensures forall t | t in client.steps[|old(client.steps)|..] ::
              HasTargetsOf(t.post, name, cache.history[i], cache.history[j])
    ensures outcome.Done? ==> HasTargetsOf(client.cluster, name, cache.history[i], cache.history[j])
    ensures outcome.Done? ==>
              (HasTargetsOf(client.cluster, name, cache.index, cache.index) <==>
               && NamespacesOf(cache.history[i], name) == NamespacesOf(cache.index, name)
               && SourcesOf(cache.history[j], name) == SourcesOf(cache.index, name))
    ensures client.exclusive ==> ProjectOnly(name, old(client.cluster), client.cluster)
    ensures client.exclusive && !outcome.Done? ==>
              || client.cluster == old(client.cluster)
              || HasTargetsOf(client.cluster, name, cache.index, cache.index)
    ensures client.exclusive && outcome.Done? ==>
              && HasTargetsOf(client.cluster, name, cache.index, cache.index)
              && RolesAndRepos(old(client.cluster), client.cluster, name, publicRepos)
    ensures client.Calm() ==> outcome.Done?
  {
    outcome, i, j := ApplySnapshot(client, cache, name, publicRepos);
    Meanwhile(cache, client.exclusive);
    if outcome.Done? {
      OldSnapshot(client.cluster, name, cache.history[i], cache.history[j], cache.index);
    }
  }

  /** The roles are the operator's, and the public repositories have joined those already listed. */
  ghost predicate RolesAndRepos(c: Cluster, c': Cluster, name: string, publicRepos: seq<string>) {
    var k := ProjectKey(name);
    k in c'.objects && c'.objects[k].content.ProjectObject?
    && var p' := c'.objects[k].content.project;
       && p'.roles == RolesOf(name)
       && p'.sourceRepos == if k in c.objects && c.objects[k].content.ProjectObject?
                            then Merged(publicRepos, c.objects[k].content.project.sourceRepos) else publicRepos
  }
}
