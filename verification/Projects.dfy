/** AppProjects: the desired one for a team, and what it means to bring existing ones in line with the index. */
module Projects {
  import opened Collections
  import opened NamespaceIndex
  import opened ClusterModel

  /** Every destination stands for its namespace on any server. */
  ghost predicate AnyServer(destinations: seq<Destination>) {
    forall d | d in destinations :: d.server == "*"
  }

  /** Destinations and source namespaces are what the index says, as sets. */
  ghost predicate Synced(p: AppProject, ix: Index, team: string) {
    && AnyServer(p.destinations)
    && DestNamespaces(p.destinations) == NamespacesOf(ix, team)
    && Elements(p.sourceNamespaces) == SourcesOf(ix, team)
  }

  function Wildcards(namespaces: seq<string>): seq<Destination> {
    seq(|namespaces|, i requires 0 <= i < |namespaces| => Destination(namespaces[i], "*"))
  }

  lemma WildcardNamespaces(namespaces: seq<string>)
    ensures DestNamespaces(Wildcards(namespaces)) == Elements(namespaces)
    ensures AnyServer(Wildcards(namespaces))
  {
    forall n ensures n in DestNamespaces(Wildcards(namespaces)) <==> n in namespaces {
      if n in namespaces {
        var i :| 0 <= i < |namespaces| && namespaces[i] == n;
        assert Wildcards(namespaces)[i].ns == n;
      }
    }
  }

  /** What createAppProj may make of this index: each of its two lists comes in an arbitrary order. */
  ghost predicate Desires(ix: Index, team: string, publicRepos: seq<string>, d: AppProject) {
    && d == AppProject(d.destinations, d.sourceNamespaces, publicRepos, RolesOf(team), false)
    && (exists s :: Listing(s, NamespacesOf(ix, team)) && d.destinations == Wildcards(s))
    && Listing(d.sourceNamespaces, SourcesOf(ix, team))
  }

  /** createAppProj, given its two reads of the index: the namespaces of the team and its sources. */
  method CreateAppProj(team: string, namespaces: seq<string>, sources: seq<string>, publicRepos: seq<string>)
    returns (project: AppProject)
    ensures DestNamespaces(project.destinations) == Elements(namespaces) && AnyServer(project.destinations)
    ensures project == AppProject(Wildcards(namespaces), sources, publicRepos, RolesOf(team), false)
  {
    var destinations := [];
    for k := 0 to |namespaces|
      invariant destinations == Wildcards(namespaces[..k])
    {
      destinations := destinations + [Destination(namespaces[k], "*")];
    }
    assert namespaces[..|namespaces|] == namespaces;
    WildcardNamespaces(namespaces);
    project := AppProject(destinations, sources, publicRepos, RolesOf(team), false);
  }

  ghost function Retargeted(found: AppProject, desired: AppProject): AppProject {
    found.(destinations := desired.destinations, sourceNamespaces := desired.sourceNamespaces)
  }

  /** Destinations and source namespaces as desired; an empty list is not told from a missing one. */
  method Retarget(project: AppProject, desired: AppProject) returns (found: AppProject, needsUpdate: bool)
    ensures found == Retargeted(project, desired)
    ensures needsUpdate <==> found != project
  {
    found, needsUpdate := project, false;
    var bothEmpty := |found.destinations| == 0 && |desired.destinations| == 0;
    if !bothEmpty && desired.destinations != found.destinations {
      found := found.(destinations := desired.destinations);
      needsUpdate := true;
    }
    bothEmpty := |found.sourceNamespaces| == 0 && |desired.sourceNamespaces| == 0;
    if !bothEmpty && desired.sourceNamespaces != found.sourceNamespaces {
      found := found.(sourceNamespaces := desired.sourceNamespaces);
      needsUpdate := true;
    }
  }

  /**
   * From cluster c to c' exactly the AppProjects in `ps` that exist were offered the targets of the
   * index; an offer that failed is in `dirty'`. Nothing else changed, and nothing came or went.
   */
  ghost predicate Pushes(ps: set<string>, ix: Index, c: Cluster, dirty: set<string>, c': Cluster, dirty': set<string>) {
    && c'.written == c.written
    && (forall k :: k in c.objects <==> k in c'.objects)
    && (forall k | k in c.objects && !(k.ProjectKey? && k.name in ps) :: c'.objects[k] == c.objects[k])
    && (forall p | p in ps && ProjectKey(p) in c.objects ::
          var o, o' := c.objects[ProjectKey(p)].content, c'.objects[ProjectKey(p)].content;
          SameExceptTargets(o, o') && (p in dirty' || Synced(o'.project, ix, p)))
    && (forall p | p !in ps :: p in dirty' <==> p in dirty)
  }

  /** A change that gives one AppProject the targets of this index and touches nothing else of it. */
  ghost predicate TargetsWritten(t: Transition, team: string, ix: Index) {
    && ProjectKey(team) in t.pre.objects && ProjectKey(team) in t.post.objects
    && SameExceptTargets(t.pre.objects[ProjectKey(team)].content, t.post.objects[ProjectKey(team)].content)
    && Synced(t.post.objects[ProjectKey(team)].content.project, ix, team)
  }

  /** Every change since then gave one of these AppProjects the targets of this index and touched nothing else of it. */
  ghost predicate Wrote(before: seq<Transition>, after: seq<Transition>, teams: set<string>, ix: Index) {
    before <= after && forall t | t in after[|before|..] :: exists team :: team in teams && TargetsWritten(t, team, ix)
  }

  lemma WroteOne(before: seq<Transition>, after: seq<Transition>, team: string, ix: Index)
    requires before <= after && forall t | t in after[|before|..] :: TargetsWritten(t, team, ix)
    ensures Wrote(before, after, {team}, ix)
  {
    forall t | t in after[|before|..] ensures exists p :: p in {team} && TargetsWritten(t, p, ix) {
      assert team in {team} && TargetsWritten(t, team, ix);
    }
  }

  lemma WroteTwice(a: seq<Transition>, b: seq<Transition>, c: seq<Transition>, ps: set<string>, qs: set<string>,
                   ix: Index)
    requires Wrote(a, b, ps, ix) && Wrote(b, c, qs, ix)
    ensures Wrote(a, c, ps + qs, ix)
  {
    assert c[|a|..] == b[|a|..] + c[|b|..];
    forall t | t in c[|a|..] ensures exists team :: team in ps + qs && TargetsWritten(t, team, ix) {
      if t in b[|a|..] {
        var team :| team in ps && TargetsWritten(t, team, ix);
        assert team in ps + qs;
      } else {
        var team :| team in qs && TargetsWritten(t, team, ix);
        assert team in ps + qs;
      }
    }
  }

  /** The AppProject of this team, if there is one, has the targets of this index. */
  ghost predicate InLine(c: Cluster, team: string, ix: Index) {
    ProjectKey(team) in c.objects ==>
      c.objects[ProjectKey(team)].content.ProjectObject?
          && Synced(c.objects[ProjectKey(team)].content.project, ix, team)
  }

  lemma PushTakesEffect(c: Cluster, team: string, found: AppProject, ix: Index, dirty: set<string>)
    requires WellFormed(c) && ProjectKey(team) in c.objects && Synced(found, ix, team)
    requires SameExceptTargets(c.objects[ProjectKey(team)].content, ProjectObject(found))
    ensures var d := UpdateEffect(c, ProjectKey(team), ProjectObject(found), false);
      && NamespaceGuarantee(c, d) && TargetsWritten(Transition(c, d), team, ix) && InLine(d, team, ix)
      && Pushes({team}, ix, c, dirty, d, dirty - {team}) && Pushes({team}, ix, c, dirty, d, dirty + {team})
  {
    UpdateAdvances(c, ProjectKey(team), ProjectObject(found), false);
  }

  lemma PushNotNeeded(c: Cluster, team: string, ix: Index, dirty: set<string>)
    requires WellFormed(c) && InLine(c, team, ix)
    ensures Pushes({team}, ix, c, dirty, c, dirty - {team})
  {
  }

  lemma PushFailed(c: Cluster, team: string, ix: Index, dirty: set<string>)
    requires WellFormed(c)
    ensures Pushes({team}, ix, c, dirty, c, dirty + {team})
  {
  }

  lemma PushesNothing(ix: Index, c: Cluster, dirty: set<string>)
    ensures Pushes({}, ix, c, dirty, c, dirty)
  {
  }

  lemma PushesCompose(ps: set<string>, qs: set<string>, ix: Index, a: Cluster, da: set<string>, b: Cluster,
                      db: set<string>, c: Cluster, dc: set<string>)
    requires WellFormed(a)
    requires Pushes(ps, ix, a, da, b, db) && Pushes(qs, ix, b, db, c, dc) && ps !! qs
    ensures Pushes(ps + qs, ix, a, da, c, dc)
  {
  }
}
