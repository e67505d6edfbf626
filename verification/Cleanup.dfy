/** What is removed when an ArgocdUser is deleted. */
module Cleanup {
  import opened Collections
  import opened Naming
  import opened MergePatch
  import opened ClusterModel
  import opened ApiClient
  import opened OwnSteps
  import opened UserProjects
  import opened StaticUsers

  /** The worker of `name` is at work on an ArgocdUser that carries the finalizer and is on its way out. */
  ghost predicate Clearing(client: Client, name: string)
    reads client
  {
    Live(client, name) && Leaving(client.cluster, name)
  }

  lemma DeleteProjectOwn(name: string, c: Cluster, lingers: bool)
    requires WellFormed(c) && ProjectKey(name) in c.objects && Carries(c, name)
    ensures var d := DeleteEffect(c, ProjectKey(name), lingers);
      && Guarantee(name, c, d) && Carries(d, name) && (Leaving(c, name) ==> Leaving(d, name)) && ProjectOnly(name, c, d)
      && d.written == c.written - {ProjectEntry(name)} && ProjectCleaned(name, c, d)
  {
    DeleteAdvances(c, ProjectKey(name), lingers);
    assert Typed(ProjectKey(name), c.objects[ProjectKey(name)].content);
    ProjectChange(name, c, DeleteEffect(c, ProjectKey(name), lingers));
  }

  /** The AppProject is gone, or on its way out and otherwise as it was. */
  ghost predicate ProjectCleaned(name: string, c: Cluster, c': Cluster) {
    var k := ProjectKey(name);
    k in c'.objects ==>
      && k in c.objects && c.objects[k].content.ProjectObject?
      && c'.objects[k].content == ProjectObject(c.objects[k].content.project.(terminating := true))
  }

  /** Every change since then left the AppProject alone or cleaned it up. */
  ghost predicate CleansProject(name: string, before: seq<Transition>, after: seq<Transition>) {
    && before <= after
    && forall t | t in after[|before|..] ::
         SameObject(t.pre, t.post, ProjectKey(name)) || ProjectCleaned(name, t.pre, t.post)
  }

  lemma CleansProjectTwice(name: string, a: seq<Transition>, b: seq<Transition>, c: seq<Transition>)
    requires CleansProject(name, a, b) && CleansProject(name, b, c)
    ensures CleansProject(name, a, c)
  {
    assert c[|a|..] == b[|a|..] + c[|b|..];
  }

  lemma ChangeCleansProject(name: string, steps: seq<Transition>, c: Cluster, d: Cluster)
    requires c == d || SameObject(c, d, ProjectKey(name)) || ProjectCleaned(name, c, d)
    ensures CleansProject(name, steps, steps + Change(c, d))
  {
    assert (steps + Change(c, d))[|steps|..] == Change(c, d);
  }

  lemma KeepsIsClean(name: string, a: seq<Transition>, b: seq<Transition>)
    requires KeepsProjects(a, b)
    ensures CleansProject(name, a, b)
  {
    forall t | t in b[|a|..] ensures SameObject(t.pre, t.post, ProjectKey(name)) {
      assert SameProjects(t.pre, t.post);
    }
  }

  method DeleteFoundProject(client: Client, name: string) returns (outcome: Outcome)
    requires Clearing(client, name)
    modifies client`cluster, client`steps
    ensures Clearing(client, name) && Advances(old(client.cluster), client.cluster)
    ensures CleansProject(name, old(client.steps), client.steps)
    ensures EntriesOf(name) * client.cluster.written <= old(client.cluster.written)
    ensures outcome.Done? ==> ProjectEntry(name) !in client.cluster.written
    ensures client.exclusive ==> ProjectOnly(name, old(client.cluster), client.cluster)
    ensures client.exclusive ==>
              || ProjectCleaned(name, old(client.cluster), client.cluster)
              || (client.cluster == old(client.cluster) && !outcome.Done?)
    ensures client.Calm() ==> outcome.Done?
  {
    var deleted, before := client.Delete(ProjectKey(name));
    if deleted.Ok? || client.cluster != before {
      DeleteProjectOwn(name, before, true);
      DeleteProjectOwn(name, before, false);
    }
    ChangeCleansProject(name, old(client.steps), before, client.cluster);
    match deleted
    case NotFound =>
      assert ProjectEntry(name) in client.cluster.written ==> Present(client.cluster, ProjectEntry(name));
      outcome := Done;
    case Failed =>
      outcome := Error(ApiError);
    case Ok(_) =>
      outcome := Done;
  }

  method DeleteAppProject(client: Client, name: string) returns (outcome: Outcome)
    requires Clearing(client, name)
    modifies client`cluster, client`steps
    ensures Clearing(client, name) && Advances(old(client.cluster), client.cluster)
    ensures CleansProject(name, old(client.steps), client.steps)
    ensures EntriesOf(name) * client.cluster.written <= old(client.cluster.written)
    ensures outcome.Done? ==> ProjectEntry(name) !in client.cluster.written
    ensures client.exclusive ==> ProjectOnly(name, old(client.cluster), client.cluster)
    ensures client.exclusive ==>
              || ProjectCleaned(name, old(client.cluster), client.cluster)
              || (client.cluster == old(client.cluster) && !outcome.Done?)
    ensures client.Calm() ==> outcome.Done?
  {
    var r := client.Get(ProjectKey(name));
    if r.NotFound? {
      assert ProjectEntry(name) in client.cluster.written ==> Present(client.cluster, ProjectEntry(name));
      return Done;
    }
    if r.Failed? {
      return Error(ApiError);
    }
    assert Typed(ProjectKey(name), r.value.content);
    if r.value.content.project.terminating {
      assert ProjectEntry(name) in client.cluster.written ==> Present(client.cluster, ProjectEntry(name));
      return Done;
    }
    outcome := DeleteFoundProject(client, name);
  }

  /** The worker's data keys are gone from object k; the other data is as before. */
  ghost predicate KeysRemoved(name: string, c: Cluster, c': Cluster, k: Key) {
    && (k in c.objects <==> k in c'.objects)
    && (k in c.objects ==>
          c.objects[k].content.DataObject?
          && c'.objects[k].content == DataObject(c.objects[k].content.data - OwnDataKeys(name, k)))
  }

  ghost predicate NoneWritten(name: string, c: Cluster, k: Key) {
    forall x | x in OwnDataKeys(name, k) :: DataEntry(k, x) !in c.written
  }

  /** The read held something, and nothing but keys of this worker. */
  predicate OwnKeysOnly(name: string, k: Key, read: Data) {
    read != map[] && read.Keys <= OwnDataKeys(name, k)
  }

  lemma NothingLeft(data: Data, keys: set<string>)
    ensures data - keys == map[] <==> data.Keys <= keys
  {
    var left := data - keys;
    assert left.Keys == data.Keys - keys;
    assert forall x :: x in left.Keys <==> x in data.Keys && x !in keys;
    if left.Keys == {} {
      assert left == map[];
    }
  }

  /** All data under keys of others is kept. */
  ghost predicate OthersKept(name: string, t: Transition, k: Key) {
    forall x | x !in OwnDataKeys(name, k) :: SameData(t.pre, t.post, k, x)
  }

  /**
   * Taking one's keys out of an object that may have changed since it was read: what others keep there
   * survives exactly if the read held something of theirs, or nothing at all, or there is nothing to lose.
   */
  lemma RemovalIsolation(name: string, c: Cluster, k: Key, read: Data)
    requires k in c.objects && c.objects[k].content.DataObject?
    ensures OthersKept(name, Transition(c, PatchEffect(c, k, Diff(read, read - OwnDataKeys(name, k)))), k) <==>
              !(OwnKeysOnly(name, k, read) && !(c.objects[k].content.data.Keys <= OwnDataKeys(name, k)))
  {
    var modified, now := read - OwnDataKeys(name, k), c.objects[k].content.data;
    var d := PatchEffect(c, k, Diff(read, modified));
    assert d.objects[k].content == DataObject(Apply(now, Diff(read, modified)));
    NothingLeft(read, OwnDataKeys(name, k));
    forall x | x !in OwnDataKeys(name, k)
      ensures SameData(c, d, k, x) <==> !(OwnKeysOnly(name, k, read) && x in now)
    {
      assert MergePatch.SameAt(read, modified, x);
      PatchIsolation(read, modified, now, x);
    }
    if OwnKeysOnly(name, k, read) && !(now.Keys <= OwnDataKeys(name, k)) {
      var x :| x in now && x !in OwnDataKeys(name, k);
      assert !SameData(c, d, k, x);
    }
  }

  lemma RemoveKeysEffect(name: string, read: Cluster, c: Cluster, k: Key, original: Data)
    requires WellFormed(read) && WellFormed(c) && (k == ConfigMapKey || k == SecretKey) && k in c.objects
               && Leaving(c, name)
    requires k in read.objects && read.objects[k].content == DataObject(original)
    requires EntriesOf(name) * c.written <= read.written
    ensures c.objects[k].content.DataObject?
    ensures var d := PatchEffect(c, k, Diff(original, original - OwnDataKeys(name, k)));
      && Guarantee(name, c, d) && (forall k' | k' != k :: SameObject(c, d, k'))
      && NoneWritten(name, d, k) && EntriesOf(name) * d.written <= c.written
           && (c == read ==> KeysRemoved(name, c, d, k))
  {
    var modified := original - OwnDataKeys(name, k);
    assert forall x | x !in OwnDataKeys(name, k) :: MergePatch.SameAt(original, modified, x);
    PatchOwn(name, c, k, original, modified);
    PatchLeaves(c, k, original, modified);
    var d := PatchEffect(c, k, Diff(original, modified));
    forall x | x in OwnDataKeys(name, k) ensures DataEntry(k, x) !in d.written {
      OwnEntries(name, k, x);
      if x !in original {
        assert MergePatch.SameAt(original, modified, x);
        assert DataEntry(k, x) in read.written ==> Present(read, DataEntry(k, x));
      }
    }
    forall e | e in EntriesOf(name) * d.written ensures e in c.written {
      if e.DataEntry? {
        OwnEntries(name, k, e.dataKey);
      }
    }
    if c == read {
      PatchRoundTrip(original, modified);
    }
  }

  /** What this removal does to the data of others is told by what was read and by what is there. */
  ghost predicate RemovalFollowsRead(name: string, k: Key, read: Data, t: Transition) {
    && k in t.pre.objects && t.pre.objects[k].content.DataObject?
    && (OthersKept(name, t, k) <==>
          !(OwnKeysOnly(name, k, read) && !(t.pre.objects[k].content.data.Keys <= OwnDataKeys(name, k))))
  }

  lemma RemovalStep(name: string, was: Cluster, c: Cluster, d: Cluster, k: Key, read: Data)
    requires WellFormed(was) && WellFormed(c) && (k == ConfigMapKey || k == SecretKey) && Leaving(c, name)
    requires k in c.objects && c.objects[k].content.DataObject?
    requires k in was.objects && was.objects[k].content == DataObject(read)
    requires EntriesOf(name) * c.written <= was.written
    requires d == PatchEffect(c, k, Diff(read, read - OwnDataKeys(name, k)))
    ensures Guarantee(name, c, d) && Leaving(d, name) && (forall k' | k' != k :: SameObject(c, d, k'))
    ensures NoneWritten(name, d, k) && EntriesOf(name) * d.written <= c.written
    ensures RemovalFollowsRead(name, k, read, Transition(c, d)) && (c == was ==> KeysRemoved(name, c, d, k))
  {
    RemoveKeysEffect(name, was, c, k, read);
    RemovalIsolation(name, c, k, read);
    assert SameObject(c, d, UserKey(name));
  }

  /** Patches the three keys of `name` out of the data that was read. */
  method RemoveFoundEntries(client: Client, name: string, k: Key, read: Data) returns (outcome: Outcome)
    requires Clearing(client, name) && (k == ConfigMapKey || k == SecretKey)
    requires k in client.cluster.objects && client.cluster.objects[k].content == DataObject(read)
    modifies client`cluster, client`steps
    ensures Clearing(client, name) && Advances(old(client.cluster), client.cluster)
    ensures CleansProject(name, old(client.steps), client.steps)
    ensures EntriesOf(name) * client.cluster.written <= old(client.cluster.written)
    ensures outcome.Done? ==> NoneWritten(name, client.cluster, k)
    ensures forall t | t in client.steps[|old(client.steps)|..] :: RemovalFollowsRead(name, k, read, t)
    ensures client.exclusive ==> forall k' | k' != k :: SameObject(old(client.cluster), client.cluster, k')
    ensures client.exclusive ==>
              || KeysRemoved(name, old(client.cluster), client.cluster, k)
              || (client.cluster == old(client.cluster) && !outcome.Done?)
    ensures client.Calm() ==> outcome.Done?
  {
    ghost var was := client.cluster;
    var patched, before := client.PatchData(k, Diff(read, read - OwnDataKeys(name, k)));
    if patched.Ok? || client.cluster != before {
      RemovalStep(name, was, before, client.cluster, k, read);
    }
    ChangeCleansProject(name, old(client.steps), before, client.cluster);
    outcome := if patched.Ok? then Done else Error(ApiError);
  }

  /** removeConfigMapEntries and removeSecretEntries: takes the three keys of `name` out of one shared object. */
  method RemoveEntries(client: Client, name: string, k: Key) returns (outcome: Outcome)
    requires Clearing(client, name) && (k == ConfigMapKey || k == SecretKey)
    modifies client`cluster, client`steps
    ensures Clearing(client, name) && Advances(old(client.cluster), client.cluster)
    ensures CleansProject(name, old(client.steps), client.steps)
    ensures EntriesOf(name) * client.cluster.written <= old(client.cluster.written)
    ensures outcome.Done? ==> NoneWritten(name, client.cluster, k)
    ensures client.exclusive ==> forall k' | k' != k :: SameObject(old(client.cluster), client.cluster, k')
    ensures client.exclusive ==>
              || KeysRemoved(name, old(client.cluster), client.cluster, k)
              || (client.cluster == old(client.cluster) && !outcome.Done?)
    ensures client.Calm() ==> outcome.Done?
  {
    var r := client.Get(k);
    if r.NotFound? {
      forall x | x in OwnDataKeys(name, k) ensures DataEntry(k, x) !in client.cluster.written {
        assert DataEntry(k, x) in client.cluster.written ==> Present(client.cluster, DataEntry(k, x));
      }
      return Done;
    }
    if r.Failed? {
      return Error(ApiError);
    }
    assert Typed(k, r.value.content);
    outcome := RemoveFoundEntries(client, name, k, r.value.content.data);
  }

  /** A Group of this ArgocdUser. */
  ghost predicate OwnGroup(name: string, k: Key) {
    exists role | IsRole(role) :: k == GroupKey(GroupName(name, role))
  }

  ghost predicate GroupsOnly(name: string, c: Cluster, c': Cluster) {
    c'.written == c.written && forall k :: SameObject(c, c', k) || (k !in c'.objects && OwnGroup(name, k))
  }

  ghost predicate GroupsGone(name: string, c: Cluster) {
    forall role | IsRole(role) :: GroupKey(GroupName(name, role)) !in c.objects
  }

  /** Deletes the Groups, if the operator alone decides who is in them. */
  method DeleteGroups(client: Client, installed: bool, name: string, authoritative: bool) returns (outcome: Outcome)
    requires Clearing(client, name)
    modifies client`cluster, client`steps
    ensures Clearing(client, name) && Advances(old(client.cluster), client.cluster)
    ensures CleansProject(name, old(client.steps), client.steps)
    ensures EntriesOf(name) * client.cluster.written <= old(client.cluster.written)
    ensures client.exclusive ==> GroupsOnly(name, old(client.cluster), client.cluster)
    ensures client.exclusive && !(installed && authoritative) ==> client.cluster == old(client.cluster)
    ensures client.exclusive && installed && authoritative && outcome.Done? ==> GroupsGone(name, client.cluster)
    ensures client.Calm() ==> outcome.Done?
  {
    if !installed || !authoritative {
      return Done;
    }
    for i := 0 to |GROUP_ROLES|
      invariant Clearing(client, name) && Advances(old(client.cluster), client.cluster)
      invariant KeepsProjects(old(client.steps), client.steps)
      invariant EntriesOf(name) * client.cluster.written <= old(client.cluster.written)
      invariant client.exclusive ==> GroupsOnly(name, old(client.cluster), client.cluster)
      invariant client.exclusive ==>
                  forall j | 0 <= j < i :: GroupKey(GroupName(name, GROUP_ROLES[j])) !in client.cluster.objects
    {
      ghost var mid, midSteps := client.cluster, client.steps;
      var role := GROUP_ROLES[i];
      assert IsRole(role) && OwnGroup(name, GroupKey(GroupName(name, role)));
      var deleted, _ := DeleteOwn(client, name, GroupKey(GroupName(name, role)));
      KeepsProjectsTwice(old(client.steps), midSteps, client.steps);
      KeepsIsClean(name, old(client.steps), client.steps);
      if client.exclusive {
        GroupsOnlyTwice(name, GroupKey(GroupName(name, role)), old(client.cluster), mid, client.cluster);
      }
      if deleted.Failed? {
        return Error(ApiError);
      }
    }
    KeepsIsClean(name, old(client.steps), client.steps);
    outcome := Done;
  }

  lemma GroupsOnlyTwice(name: string, g: Key, a: Cluster, b: Cluster, c: Cluster)
    requires GroupsOnly(name, a, b) && OnlyChanged({g}, b, c) && OwnGroup(name, g)
               && (SameObject(b, c, g) || g !in c.objects)
    ensures GroupsOnly(name, a, c)
  {
    forall k ensures SameObject(a, c, k) || (k !in c.objects && OwnGroup(name, k)) {
      assert SameObject(a, b, k) || (k !in b.objects && OwnGroup(name, k));
      assert k != g ==> SameObject(b, c, k);
    }
  }

  /** A clean-up leaves object k alone, unless it is one of the Groups that go too. */
  ghost predicate CleanupFrame(name: string, groupsToo: bool, c: Cluster, c': Cluster, k: Key) {
    SameObject(c, c', k) || (groupsToo && k !in c'.objects && OwnGroup(name, k))
  }

  /**
   * How far a clean-up that may have stopped partway has come: each of its parts is done or untouched.
   * Nothing is said of the objects in `besides`.
   */
  ghost predicate Progress(name: string, groupsToo: bool, c: Cluster, c': Cluster, besides: set<Key>) {
    && (SameObject(c, c', ProjectKey(name)) || ProjectCleaned(name, c, c'))
    && (SameObject(c, c', ConfigMapKey) || KeysRemoved(name, c, c', ConfigMapKey))
    && (SameObject(c, c', SecretKey) || KeysRemoved(name, c, c', SecretKey))
    && forall k | k !in {ProjectKey(name), ConfigMapKey, SecretKey} + besides :: CleanupFrame(name, groupsToo, c, c', k)
  }

  /** A complete clean-up: progress with every part done. */
  ghost predicate Cleaned(name: string, groupsToo: bool, c: Cluster, c': Cluster, besides: set<Key>) {
    && Progress(name, groupsToo, c, c', besides)
    && ProjectCleaned(name, c, c')
    && KeysRemoved(name, c, c', ConfigMapKey)
    && KeysRemoved(name, c, c', SecretKey)
    && (groupsToo ==> GroupsGone(name, c'))
  }

  lemma FrameAdds(name: string, groupsToo: bool, a: Cluster, b: Cluster, c: Cluster, k: Key)
    requires CleanupFrame(name, groupsToo, a, b, k) && CleanupFrame(name, groupsToo, b, c, k)
    ensures CleanupFrame(name, groupsToo, a, c, k)
  {
  }

  lemma RemovedTwice(name: string, a: Cluster, b: Cluster, c: Cluster, k: Key)
    requires SameObject(a, b, k) || KeysRemoved(name, a, b, k)
    requires SameObject(b, c, k) || KeysRemoved(name, b, c, k)
    ensures SameObject(a, c, k) || KeysRemoved(name, a, c, k)
    ensures KeysRemoved(name, a, b, k) || KeysRemoved(name, b, c, k) ==> KeysRemoved(name, a, c, k)
  {
    if k in a.objects && a.objects[k].content.DataObject? {
      var data := a.objects[k].content.data;
      assert data - OwnDataKeys(name, k) - OwnDataKeys(name, k) == data - OwnDataKeys(name, k);
    }
  }

  /** Progress adds up, and what is done stays done. */
  lemma ProgressAdds(name: string, groupsToo: bool, a: Cluster, b: Cluster, c: Cluster, besides: set<Key>)
    requires Progress(name, groupsToo, a, b, besides) && Progress(name, groupsToo, b, c, besides)
    requires forall role | IsRole(role) :: GroupKey(GroupName(name, role)) !in besides
    ensures Progress(name, groupsToo, a, c, besides)
    ensures ProjectCleaned(name, a, b) || ProjectCleaned(name, b, c) ==> ProjectCleaned(name, a, c)
    ensures forall k | k == ConfigMapKey || k == SecretKey ::
              KeysRemoved(name, a, b, k) || KeysRemoved(name, b, c, k) ==> KeysRemoved(name, a, c, k)
    ensures GroupsGone(name, b) ==> GroupsGone(name, c)
  {
    forall k | k !in {ProjectKey(name), ConfigMapKey, SecretKey} + besides
        ensures CleanupFrame(name, groupsToo, a, c, k) {
      FrameAdds(name, groupsToo, a, b, c, k);
    }
    RemovedTwice(name, a, b, c, ConfigMapKey);
    RemovedTwice(name, a, b, c, SecretKey);
    forall role | IsRole(role) && GroupsGone(name, b) ensures GroupKey(GroupName(name, role)) !in c.objects {
      assert CleanupFrame(name, groupsToo, b, c, GroupKey(GroupName(name, role)));
    }
  }

  /** A clean-up of everything, then a change of one object that it does not concern. */
  lemma CleanedThenChanged(name: string, groupsToo: bool, a: Cluster, b: Cluster, c: Cluster, k: Key)
    requires Progress(name, groupsToo, a, b, {}) && OnlyChanged({k}, b, c) && k == UserKey(name)
    ensures Progress(name, groupsToo, a, c, {k})
    ensures Cleaned(name, groupsToo, a, b, {}) ==> Cleaned(name, groupsToo, a, c, {k})
  {
    assert SameObject(b, c, ProjectKey(name)) && SameObject(b, c, ConfigMapKey) && SameObject(b, c, SecretKey);
    forall k' | k' !in {ProjectKey(name), ConfigMapKey, SecretKey} + {k}
        ensures CleanupFrame(name, groupsToo, a, c, k') {
      assert CleanupFrame(name, groupsToo, a, b, k') && SameObject(b, c, k');
    }
    forall role | IsRole(role) && GroupsGone(name, b) ensures GroupKey(GroupName(name, role)) !in c.objects {
      assert SameObject(b, c, GroupKey(GroupName(name, role)));
    }
  }

  method RemoveBothEntries(client: Client, name: string, ghost groupsToo: bool) returns (outcome: Outcome)
    requires Clearing(client, name)
    modifies client`cluster, client`steps
    ensures Clearing(client, name) && Advances(old(client.cluster), client.cluster)
    ensures CleansProject(name, old(client.steps), client.steps)
    ensures EntriesOf(name) * client.cluster.written <= old(client.cluster.written)
    ensures outcome.Done? ==>
              NoneWritten(name, client.cluster, ConfigMapKey) && NoneWritten(name, client.cluster, SecretKey)
    ensures client.exclusive ==> Progress(name, groupsToo, old(client.cluster), client.cluster, {})
    ensures client.exclusive && outcome.Done? ==>
              && KeysRemoved(name, old(client.cluster), client.cluster, ConfigMapKey)
              && KeysRemoved(name, old(client.cluster), client.cluster, SecretKey)
    ensures client.Calm() ==> outcome.Done?
  {
    outcome := RemoveEntries(client, name, ConfigMapKey);
    if !outcome.Done? {
      return;
    }
    ghost var mid, midSteps := client.cluster, client.steps;
    outcome := RemoveEntries(client, name, SecretKey);
    CleansProjectTwice(name, old(client.steps), midSteps, client.steps);
    forall x | x in OwnDataKeys(name, ConfigMapKey) ensures DataEntry(ConfigMapKey, x) !in client.cluster.written {
      OwnEntries(name, ConfigMapKey, x);
      assert DataEntry(ConfigMapKey, x) !in mid.written;
    }
    if client.exclusive {
      ProgressAdds(name, groupsToo, old(client.cluster), mid, client.cluster, {});
    }
  }

  /** cleanupResources: four parts in a fixed order; the first failure stops it. */
  method CleanupResources(client: Client, installed: bool, name: string, authoritative: bool) returns (outcome: Outcome)
    requires Clearing(client, name)
    modifies client`cluster, client`steps
    ensures Clearing(client, name) && Advances(old(client.cluster), client.cluster)
    ensures CleansProject(name, old(client.steps), client.steps)
    ensures outcome.Done? ==> EntriesOf(name) !! client.cluster.written
    ensures client.exclusive ==> Progress(name, installed && authoritative, old(client.cluster), client.cluster, {})
    ensures client.exclusive && outcome.Done? ==>
              Cleaned(name, installed && authoritative, old(client.cluster), client.cluster, {})
    ensures client.Calm() ==> outcome.Done?
  {
    ghost var c0, groupsToo := client.cluster, installed && authoritative;
    outcome := DeleteAppProject(client, name);
    ghost var c1, s1 := client.cluster, client.steps;
    if client.exclusive {
      ProjectProgress(name, groupsToo, c0, c1);
    }
    if !outcome.Done? {
      return;
    }
    outcome := RemoveBothEntries(client, name, groupsToo);
    ghost var c2, s2 := client.cluster, client.steps;
    CleansProjectTwice(name, old(client.steps), s1, s2);
    if client.exclusive {
      ProgressAdds(name, groupsToo, c0, c1, c2, {});
    }
    if !outcome.Done? {
      return;
    }
    NoEntries(name, c1, c2);
    outcome := DeleteGroups(client, installed, name, authoritative);
    CleansProjectTwice(name, old(client.steps), s2, client.steps);
    if client.exclusive {
      GroupsProgress(name, groupsToo, c2, client.cluster);
      ProgressAdds(name, groupsToo, c0, c2, client.cluster, {});
    }
  }

  lemma ProjectProgress(name: string, groupsToo: bool, c: Cluster, c': Cluster)
    requires ProjectOnly(name, c, c') && (ProjectCleaned(name, c, c') || c' == c)
    ensures Progress(name, groupsToo, c, c', {})
  {
  }

  lemma GroupsProgress(name: string, groupsToo: bool, c: Cluster, c': Cluster)
    requires GroupsOnly(name, c, c') && (groupsToo || c' == c)
    ensures Progress(name, groupsToo, c, c', {})
  {
  }

  lemma NoEntries(name: string, c: Cluster, c': Cluster)
    requires ProjectEntry(name) !in c.written && EntriesOf(name) * c'.written <= c.written
    requires NoneWritten(name, c', ConfigMapKey) && NoneWritten(name, c', SecretKey)
    ensures EntriesOf(name) !! c'.written
  {
  }

  /**
   * However often a clean-up failed partway, the one that finally succeeds leaves what a single
   * successful clean-up of the first state would have left.
   */
  lemma {:induction false} CleanupRetries(name: string, groupsToo: bool, attempts: seq<Cluster>, besides: set<Key>)
    requires |attempts| >= 2
    requires forall i | 0 <= i < |attempts| - 2 :: Progress(name, groupsToo, attempts[i], attempts[i + 1], besides)
    requires Cleaned(name, groupsToo, attempts[|attempts| - 2], attempts[|attempts| - 1], besides)
    requires forall role | IsRole(role) :: GroupKey(GroupName(name, role)) !in besides
    ensures Cleaned(name, groupsToo, attempts[0], attempts[|attempts| - 1], besides)
  {
    if |attempts| > 2 {
      CleanupRetries(name, groupsToo, attempts[1..], besides);
      ProgressAdds(name, groupsToo, attempts[0], attempts[1], attempts[|attempts| - 1], besides);
    }
  }

  /** Two complete clean-ups of the same state agree, but for how far the AppProject is on its way out. */
  lemma CleanedUnique(name: string, groupsToo: bool, c: Cluster, d: Cluster, d': Cluster, besides: set<Key>)
    requires WellFormed(c) && Cleaned(name, groupsToo, c, d, besides) && Cleaned(name, groupsToo, c, d', besides)
    ensures forall k | k !in {ProjectKey(name)} + besides :: (k in d.objects <==> k in d'.objects)
    ensures forall k | k !in {ProjectKey(name)} + besides && k in d.objects && k in d'.objects ::
              d.objects[k].content == d'.objects[k].content
  {
    forall k | k !in {ProjectKey(name), ConfigMapKey, SecretKey} + besides
      ensures k in d.objects <==> k in d'.objects
      ensures k in d.objects ==> d.objects[k].content == d'.objects[k].content
    {
      assert CleanupFrame(name, groupsToo, c, d, k) && CleanupFrame(name, groupsToo, c, d', k);
    }
  }

  /** A clean-up removes all of its own data keys, and another name's keys and AppProject stay as they were. */
  lemma CleanedFrame(name: string, groupsToo: bool, c: Cluster, d: Cluster, other: string, role: string)
    requires WellFormed(c) && Cleaned(name, groupsToo, c, d, {UserKey(name)}) && IsRole(role)
    ensures !Present(d, ProjectEntry(name)) && !Present(d, AccountEntry(name, role))
              && !Present(d, PasswordEntry(name, role))
    ensures other != name ==>
              && SameObject(c, d, ProjectKey(other)) && SameObject(c, d, GroupKey(GroupName(other, role)))
              && (ConfigMapKey in c.objects ==> SameData(c, d, ConfigMapKey, AccountKey(other, role)))
              && (SecretKey in c.objects ==> SameData(c, d, SecretKey, PasswordKey(other, role)))
  {
    if other != name {
      forall role' | IsRole(role')
        ensures AccountKey(other, role) != AccountKey(name, role')
                  && PasswordKey(other, role) != PasswordKey(name, role')
                && GroupName(other, role) != GroupName(name, role')
      {
        if AccountKey(other, role) == AccountKey(name, role') {
          AccountKeyInjective(other, role, name, role');
        }
        if PasswordKey(other, role) == PasswordKey(name, role') {
          PasswordKeyInjective(other, role, name, role');
        }
        if GroupName(other, role) == GroupName(name, role') {
          GroupNameInjective(other, role, name, role');
        }
      }
      assert CleanupFrame(name, groupsToo, c, d, ProjectKey(other));
      assert CleanupFrame(name, groupsToo, c, d, GroupKey(GroupName(other, role)));
    }
  }

  /**
   * A clean-up leaves argocd-cm without any data, where the next write of an account fails, exactly if
   * it held nothing but the keys of this one ArgocdUser.
   */
  lemma CleanedEmptiesConfigMap(name: string, groupsToo: bool, c: Cluster, d: Cluster)
    requires WellFormed(c) && Cleaned(name, groupsToo, c, d, {UserKey(name)})
    ensures Emptied(d, ConfigMapKey) <==>
              ConfigMapKey in c.objects && c.objects[ConfigMapKey].content.data.Keys <= OwnDataKeys(name, ConfigMapKey)
  {
    if ConfigMapKey in c.objects {
      var data := c.objects[ConfigMapKey].content.data;
      assert d.objects[ConfigMapKey].content == DataObject(data - OwnDataKeys(name, ConfigMapKey));
      NothingLeft(data, OwnDataKeys(name, ConfigMapKey));
    }
  }
}
