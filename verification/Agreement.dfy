/**
 * Whole runs of reconciles, each one whole, by both controllers: the index against the labels seen, and
 * the AppProjects against the index.
 */
module Agreement {
  import opened Collections
  import opened Labels
  import opened NamespaceIndex
  import opened NsCache
  import opened ClusterModel
  import opened ApiClient
  import opened Projects
  import opened NamespaceController
  import opened UserProjects
  import opened Cleanup
  import opened UserController

  /**
   * `dirty` are the projects that the namespace controller last failed to push and nobody has brought in line
   * since.
   */
  datatype State = State(index: Index, cluster: Cluster, dirty: set<string>)

  /** One whole reconcile, or a change by somebody else. */
  datatype Event =
    | NamespaceEvent(name: string, observed: Reply<Stored>, attempts: seq<string>)
    | UserEvent(name: string)
    | Outside

  /** What the look-up of a namespace says is what the cluster holds; it may also fail. */
  ghost predicate LookedUp(c: Cluster, name: string, observed: Reply<Stored>) {
    && (observed.Ok? ==> NamespaceKey(name) in c.objects && observed.value == c.objects[NamespaceKey(name)])
    && (observed.NotFound? ==> NamespaceKey(name) !in c.objects)
  }

  /** What NamespaceReconciler.Reconcile ensures when nobody else acts meanwhile. */
  ghost predicate NamespaceStep(s: State, name: string, observed: Reply<Stored>, attempts: seq<string>, s': State) {
    && LookedUp(s.cluster, name, observed)
    && Handled(name, s.index, observed, s'.index, attempts)
    && Pushes(Elements(attempts), s'.index, s.cluster, s.dirty, s'.cluster, s'.dirty)
  }

  /**
   * What ArgocdUserReconciler.Reconcile ensures when nobody else acts meanwhile; only a push that went
   * through clears a mark.
   */
  ghost predicate UserStep(s: State, name: string, s': State) {
    && s'.index == s.index
    && UserEffect(name, s.index, s.cluster, s'.cluster)
    && s'.dirty <= s.dirty && s'.dirty - {name} == s.dirty - {name}
    && (HasTargetsOf(s'.cluster, name, s.index, s.index) || (name in s.dirty ==> name in s'.dirty))
  }

  /** AppProjects may go, one that is terminating among them, but none comes or changes. */
  ghost predicate NoNewProjects(c: Cluster, c': Cluster) {
    forall p :: SameObject(c, c', ProjectKey(p)) || ProjectKey(p) !in c'.objects
  }

  /** Others edit labels, ArgocdUsers, ConfigMaps and so on, and may delete AppProjects, but they do not edit them. */
  ghost predicate OutsideStep(s: State, s': State) {
    s'.index == s.index && s'.dirty == s.dirty && NoNewProjects(s.cluster, s'.cluster)
  }

  ghost predicate Follows(s: State, e: Event, s': State) {
    WellFormed(s'.cluster) &&
    match e
    case NamespaceEvent(n, observed, attempts) => NamespaceStep(s, n, observed, attempts, s')
    case UserEvent(n) => UserStep(s, n, s')
    case Outside => OutsideStep(s, s')
  }

  ghost predicate History(states: seq<State>, events: seq<Event>) {
    && |states| == |events| + 1
    && WellFormed(states[0].cluster)
    && forall i | 0 <= i < |events| :: Follows(states[i], events[i], states[i + 1])
  }

  /**
   * Every AppProject that exists, except "default", has the destinations of the index, unless its latest push
   * failed.
   */
  ghost predicate Agrees(s: State) {
    forall p | p != "default" && p !in s.dirty && ProjectKey(p) in s.cluster.objects ::
      var o := s.cluster.objects[ProjectKey(p)].content;
      o.ProjectObject? && DestNamespaces(o.project.destinations) == NamespacesOf(s.index, p)
  }

  lemma AgreesAfterInit(ix: Index, c: Cluster)
    requires WellFormed(c) && Matches(ix, c)
    ensures Agrees(State(ix, c, {}))
  {
  }

  /** Only the projects a namespace joined or left get other namespaces. */
  lemma UntouchedProjects(name: string, base: Index, observed: Reply<Stored>, ix: Index, attempts: seq<string>,
                          p: string)
    requires Handled(name, base, observed, ix, attempts) && p !in Elements(attempts)
    ensures NamespacesOf(ix, p) == NamespacesOf(base, p)
  {
  }

  lemma NamespaceStepAgrees(s: State, name: string, observed: Reply<Stored>, attempts: seq<string>, s': State)
    requires Agrees(s) && NamespaceStep(s, name, observed, attempts, s')
    ensures Agrees(s')
  {
    forall p | p !in Elements(attempts) ensures NamespacesOf(s'.index, p) == NamespacesOf(s.index, p) {
      UntouchedProjects(name, s.index, observed, s'.index, attempts, p);
    }
  }

  lemma UserStepAgrees(s: State, name: string, s': State)
    requires Agrees(s) && UserStep(s, name, s')
    ensures Agrees(s')
  {
    forall p | p != "default" && p !in s'.dirty && ProjectKey(p) in s'.cluster.objects
      ensures s'.cluster.objects[ProjectKey(p)].content.ProjectObject?
      ensures DestNamespaces(s'.cluster.objects[ProjectKey(p)].content.project.destinations)
                == NamespacesOf(s'.index, p)
    {
      if p != name {
        assert SameObject(s.cluster, s'.cluster, ProjectKey(p));
        assert p !in s'.dirty - {name};
        assert p !in s.dirty;
      }
    }
  }

  /** In every history that starts in agreement, every state is in agreement. */
  lemma {:induction false} AlwaysAgrees(states: seq<State>, events: seq<Event>, i: nat)
    requires History(states, events) && Agrees(states[0]) && i < |states|
    ensures Agrees(states[i])
  {
    if i > 0 {
      AlwaysAgrees(states, events, i - 1);
      var s, e, s' := states[i - 1], events[i - 1], states[i];
      assert Follows(states[i - 1], events[i - 1], states[i - 1 + 1]);
      match e
      case NamespaceEvent(n, observed, attempts) => NamespaceStepAgrees(s, n, observed, attempts, s');
      case UserEvent(n) => UserStepAgrees(s, n, s');
      case Outside =>
        assert forall p :: SameObject(s.cluster, s'.cluster, ProjectKey(p)) || ProjectKey(p) !in s'.cluster.objects;
    }
  }

  /**
   * A namespace seen with the project label it was last seen with pushes nothing. So a push that failed
   * is not made up for when the failed request is tried again: the project stays as it was left.
   */
  lemma SameLabelPushesNothing(s: State, name: string, observed: Reply<Stored>, attempts: seq<string>, s': State)
    requires NamespaceStep(s, name, observed, attempts, s') && observed.Ok?
    ensures attempts == [] <==> ProjectsOf(s.index, name) == LabelSet(observed.value.content.projectsLabel)
    ensures attempts == [] ==>
              s'.cluster.objects == s.cluster.objects && s'.dirty == s.dirty && s'.index.members == s.index.members
    ensures ProjectsOf(s'.index, name) == LabelSet(observed.value.content.projectsLabel)
  {
    var wanted, had := LabelSet(observed.value.content.projectsLabel), ProjectsOf(s.index, name);
    assert SymmetricDifference(had, wanted) == {} <==> had == wanted by {
      assert had == (had * wanted) + (had - wanted) && wanted == (had * wanted) + (wanted - had);
    }
    ElementsEmpty(attempts);
    assert attempts == [] <==> had == wanted;
    if attempts == [] {
      assert forall k :: k in s.cluster.objects <==> k in s'.cluster.objects;
      forall e: (string, string) ensures e in s'.index.members <==> e in s.index.members {
        assert e == (e.0, e.1);
        assert (name, e.1) in s.index.members <==> e.1 in had;
      }
    }
  }

  /** What is left undone: the retry of a request whose push failed leaves the project marked and unchanged. */
  lemma FailedPushStays(s: State, t: State, u: State, name: string, observed: Reply<Stored>, again: Reply<Stored>,
                        first: seq<string>, second: seq<string>, p: string)
    requires NamespaceStep(s, name, observed, first, t) && NamespaceStep(t, name, again, second, u)
    requires observed.Ok? && again.Ok? && again.value.content == observed.value.content
    requires p in t.dirty
    ensures p in u.dirty && SameObject(t.cluster, u.cluster, ProjectKey(p))
  {
    SameLabelPushesNothing(s, name, observed, first, t);
    SameLabelPushesNothing(t, name, again, second, u);
  }

  /** What seeing namespace "ns" with label "team" does to an empty index. */
  lemma FirstLabelHandled(observed: Reply<Stored>)
    requires observed == Ok(Stored(NamespaceObject("team", ""), 1))
    ensures Handled("ns", Index({}, {}), observed, Index({("ns", "team")}, {}), ["team"])
  {
    SplitDotFree("team");
    SplitDotFree("");
    assert Split("team") == ["team"] && Split("") == [""];
    assert LabelSet("team") == {"team"} && LabelSet("") == {};
    assert SymmetricDifference(ProjectsOf(Index({}, {}), "ns"), LabelSet("team")) == {"team"};
    assert Elements(["team"]) == {"team"};
  }

  /** A namespace labelled for a team whose AppProject has no destinations yet. */
  ghost function NewNamespace(): Cluster {
    Cluster(map[ProjectKey("team") := Stored(ProjectObject(AppProject([], [], [], RolesOf("team"), false)), 1),
                NamespaceKey("ns") := Stored(NamespaceObject("team", ""), 1)], {}, 1)
  }

  lemma NewNamespaceAgrees()
    ensures WellFormed(NewNamespace()) && Agrees(State(Index({}, {}), NewNamespace(), {}))
  {
    var project := NewNamespace().objects[ProjectKey("team")].content.project;
    assert DestNamespaces(project.destinations) == {} == NamespacesOf(Index({}, {}), "team");
  }

  lemma FailedPushStep(observed: Reply<Stored>)
    requires observed == Ok(Stored(NamespaceObject("team", ""), 1))
    ensures NamespaceStep(State(Index({}, {}), NewNamespace(), {}), "ns", observed, ["team"],
                          State(Index({("ns", "team")}, {}), NewNamespace(), {"team"}))
  {
    FirstLabelHandled(observed);
    assert Elements(["team"]) == {"team"} && {} + {"team"} == {"team"};
    PushFailed(NewNamespace(), "team", Index({("ns", "team")}, {}), {});
  }

  /** It does happen: the push of AppProject "team" then fails, and the AppProject is left without the namespace. */
  lemma FailedPushExists() returns (s: State, observed: Reply<Stored>, t: State)
    ensures WellFormed(s.cluster) && Agrees(s) && observed.Ok? && NamespaceStep(s, "ns", observed, ["team"], t)
    ensures "team" in t.dirty && !HasTargetsOf(t.cluster, "team", t.index, t.index)
  {
    observed := Ok(Stored(NamespaceObject("team", ""), 1));
    s, t := State(Index({}, {}), NewNamespace(), {}), State(Index({("ns", "team")}, {}), NewNamespace(), {"team"});
    NewNamespaceAgrees();
    FailedPushStep(observed);
    assert "ns" in NamespacesOf(t.index, "team");
  }

  // ---- The index against the labels ----

  /** A look-up that found this namespace. */
  ghost predicate Sees(e: Event, n: string) {
    e.NamespaceEvent? && e.name == n && e.observed.Ok? && e.observed.value.content.NamespaceObject?
  }

  /**
   * The project set last seen for each namespace that was ever seen; look-ups that found nothing or failed do
   * not count.
   */
  ghost function LastSeen(events: seq<Event>): map<string, set<string>> {
    if events == [] then map[]
    else
      var seen, e := LastSeen(events[..|events| - 1]), events[|events| - 1];
      if e.NamespaceEvent? && Sees(e, e.name)
      then seen[e.name := LabelSet(e.observed.value.content.projectsLabel)] else seen
  }

  /** The index moves from step to step as the events say, whoever else is at work on the cluster. */
  ghost predicate IndexHistory(indices: seq<Index>, events: seq<Event>) {
    && |indices| == |events| + 1
    && forall i | 0 <= i < |events| ::
         if events[i].NamespaceEvent?
             then Handled(events[i].name, indices[i], events[i].observed, indices[i + 1], events[i].attempts)
         else indices[i + 1] == indices[i]
  }

  lemma IndexHistoryPrefix(indices: seq<Index>, events: seq<Event>)
    requires IndexHistory(indices, events) && events != []
    ensures IndexHistory(indices[..|events|], events[..|events| - 1])
  {
  }

  /**
   * At every moment, a namespace is a member of exactly the projects of its last seen label, or of those
   * it started in if it was never seen; read the other way, a project holds exactly the namespaces whose
   * last seen label names it.
   */
  lemma {:induction false} IndexTracksLabels(indices: seq<Index>, events: seq<Event>, ns: string, proj: string)
    requires IndexHistory(indices, events)
    ensures (ns, proj) in indices[|events|].members
            <==> if ns in LastSeen(events) then proj in LastSeen(events)[ns] else (ns, proj) in indices[0].members
    decreases |events|
  {
    if events != [] {
      var k := |events| - 1;
      IndexHistoryPrefix(indices, events);
      IndexTracksLabels(indices[..|events|], events[..k], ns, proj);
      assert events[k].NamespaceEvent? ==>
             Handled(events[k].name, indices[k], events[k].observed, indices[k + 1], events[k].attempts);
    }
  }

  /** The same, as sets in both directions. */
  lemma IndexRefinesLabels(indices: seq<Index>, events: seq<Event>, name: string)
    requires IndexHistory(indices, events)
    ensures ProjectsOf(indices[|events|], name)
         == if name in LastSeen(events) then LastSeen(events)[name] else ProjectsOf(indices[0], name)
    ensures forall n :: n in NamespacesOf(indices[|events|], name)
              <==> if n in LastSeen(events) then name in LastSeen(events)[n] else n in NamespacesOf(indices[0], name)
  {
    forall p ensures (name, p) in indices[|events|].members
                     <==> if name in LastSeen(events) then p in LastSeen(events)[name]
                          else (name, p) in indices[0].members
    {
      IndexTracksLabels(indices, events, name, p);
    }
    forall n ensures (n, name) in indices[|events|].members
                     <==> if n in LastSeen(events) then name in LastSeen(events)[n] else (n, name) in indices[0].members
    {
      IndexTracksLabels(indices, events, n, name);
    }
  }

  ghost function Indices(states: seq<State>): (r: seq<Index>)
    ensures |r| == |states| && forall i | 0 <= i < |r| :: r[i] == states[i].index
  {
    seq(|states|, i requires 0 <= i < |states| => states[i].index)
  }

  lemma HistoryOfIndices(states: seq<State>, events: seq<Event>)
    requires History(states, events)
    ensures IndexHistory(Indices(states), events)
  {
    forall i | 0 <= i < |events|
      ensures if events[i].NamespaceEvent?
                then Handled(events[i].name, states[i].index, events[i].observed, states[i + 1].index,
                             events[i].attempts)
              else states[i + 1].index == states[i].index
    {
      assert Follows(states[i], events[i], states[i + 1]);
    }
  }

  /**
   * From labels to AppProjects: after any run, an AppProject whose latest push did not fail has as
   * destinations exactly the namespaces whose last seen label names it, and of those never seen the ones
   * it had at the start.
   */
  lemma DestinationsFollowLabels(states: seq<State>, events: seq<Event>, p: string, n: string)
    requires History(states, events) && Agrees(states[0])
    requires var s := states[|events|]; p != "default" && p !in s.dirty && ProjectKey(p) in s.cluster.objects
    ensures var o := states[|events|].cluster.objects[ProjectKey(p)].content;
      && o.ProjectObject?
      && (n in DestNamespaces(o.project.destinations) <==>
            if n in LastSeen(events) then p in LastSeen(events)[n] else n in NamespacesOf(states[0].index, p))
  {
    AlwaysAgrees(states, events, |events|);
    HistoryOfIndices(states, events);
    IndexTracksLabels(Indices(states), events, n, p);
  }

  // ---- The labels in the cluster ----

  /** The projects that the label of a namespace names; none if there is no such namespace. */
  ghost function LabelOf(c: Cluster, n: string): set<string> {
    if NamespaceKey(n) in c.objects && c.objects[NamespaceKey(n)].content.NamespaceObject?
    then LabelSet(c.objects[NamespaceKey(n)].content.projectsLabel) else {}
  }

  /** Event i is the last one in which the namespace was found. */
  ghost predicate LastLook(events: seq<Event>, n: string, i: nat) {
    i < |events| && Sees(events[i], n) && forall j | i < j < |events| :: !Sees(events[j], n)
  }

  lemma {:induction false} LastLookExists(events: seq<Event>, n: string) returns (i: nat)
    requires n in LastSeen(events)
    ensures LastLook(events, n, i)
    decreases |events|
  {
    var k := |events| - 1;
    if Sees(events[k], n) {
      i := k;
    } else {
      i := LastLookExists(events[..k], n);
      assert events[..k][i] == events[i];
      forall j | i < j < |events| ensures !Sees(events[j], n) {
        assert j < k ==> events[..k][j] == events[j];
      }
    }
  }

  lemma {:induction false} LastSeenAt(events: seq<Event>, n: string, i: nat)
    requires LastLook(events, n, i)
    ensures n in LastSeen(events) && LastSeen(events)[n] == LabelSet(events[i].observed.value.content.projectsLabel)
    decreases |events|
  {
    var k := |events| - 1;
    if i < k {
      assert forall j | 0 <= j < k :: events[..k][j] == events[j];
      LastSeenAt(events[..k], n, i);
    }
  }

  /** What was last seen of a namespace is the label that it had in the cluster when it was last found. */
  lemma LastSeenIsLabel(states: seq<State>, events: seq<Event>, n: string, i: nat)
    requires History(states, events) && LastLook(events, n, i)
    ensures n in LastSeen(events) && LastSeen(events)[n] == LabelOf(states[i].cluster, n)
  {
    LastSeenAt(events, n, i);
    assert Follows(states[i], events[i], states[i + 1]);
  }

  /** The label of this namespace is now what it was when the namespace was last found. */
  ghost predicate LabelUpToDate(states: seq<State>, events: seq<Event>, n: string)
    requires |states| == |events| + 1
  {
    exists i: nat :: LastLook(events, n, i) && LabelOf(states[|events|].cluster, n) == LabelOf(states[i].cluster, n)
  }

  /** The namespaces whose label in the cluster names this project. */
  ghost function NamedBy(c: Cluster, p: string): (r: set<string>)
    ensures forall n :: n in r <==> p in LabelOf(c, n)
  {
    set k | k in c.objects && k.NamespaceKey? && p in LabelOf(c, k.name) :: k.name
  }

  /**
   * From the labels in the cluster to AppProjects: if no label changed after its namespace was last looked
   * at, an AppProject whose latest push did not fail has as destinations exactly the namespaces whose label
   * names it. A namespace that was never found may be left out of account if what it started with is right.
   */
  lemma DestinationsAreLabels(states: seq<State>, events: seq<Event>, p: string)
    requires History(states, events) && Agrees(states[0])
    requires var s := states[|events|]; p != "default" && p !in s.dirty && ProjectKey(p) in s.cluster.objects
    requires forall n ::
               || LabelUpToDate(states, events, n)
               || (n !in LastSeen(events)
                   && (n in NamespacesOf(states[0].index, p) <==> p in LabelOf(states[|events|].cluster, n)))
    ensures var o := states[|events|].cluster.objects[ProjectKey(p)].content;
      o.ProjectObject? && DestNamespaces(o.project.destinations) == NamedBy(states[|events|].cluster, p)
  {
    AlwaysAgrees(states, events, |events|);
    var c := states[|events|].cluster;
    forall n
      ensures n in DestNamespaces(c.objects[ProjectKey(p)].content.project.destinations) <==> p in LabelOf(c, n)
    {
      DestinationsFollowLabels(states, events, p, n);
      if LabelUpToDate(states, events, n) {
        var i: nat :| LastLook(events, n, i) && LabelOf(c, n) == LabelOf(states[i].cluster, n);
        LastSeenIsLabel(states, events, n, i);
      }
    }
  }

  /**
   * One namespace at a time, and exactly: a destination is right if and only if the label names the project
   * now just as it did when the namespace was last found.
   */
  lemma DestinationRightIff(states: seq<State>, events: seq<Event>, p: string, n: string, i: nat)
    requires History(states, events) && Agrees(states[0]) && LastLook(events, n, i)
    requires var s := states[|events|]; p != "default" && p !in s.dirty && ProjectKey(p) in s.cluster.objects
    ensures var c := states[|events|].cluster;
      && c.objects[ProjectKey(p)].content.ProjectObject?
      && ((n in DestNamespaces(c.objects[ProjectKey(p)].content.project.destinations) <==> p in LabelOf(c, n))
          <==> (p in LabelOf(states[i].cluster, n) <==> p in LabelOf(c, n)))
  {
    DestinationsFollowLabels(states, events, p, n);
    LastSeenIsLabel(states, events, n, i);
  }

  // ---- Namespaces that are gone ----

  /**
   * A request for a namespace that is gone leaves the index as it is: nothing of the namespace is in it
   * afterwards exactly if nothing was before.
   */
  lemma GoneKeepsIndex(s: State, name: string, attempts: seq<string>, s': State)
    requires NamespaceStep(s, name, NotFound, attempts, s')
    ensures s'.index == s.index && NamespaceKey(name) !in s.cluster.objects
    ensures ProjectsOf(s'.index, name) == {} && TrustedBy(s'.index, name) == {}
            <==> ProjectsOf(s.index, name) == {} && TrustedBy(s.index, name) == {}
  {
  }

  /** As long as a namespace is not found again, its memberships stay what they were. */
  lemma {:induction false} UnseenKeepsProjects(indices: seq<Index>, events: seq<Event>, n: string, i: nat)
    requires IndexHistory(indices, events) && i <= |events|
    requires forall j | i <= j < |events| :: !Sees(events[j], n)
    ensures ProjectsOf(indices[|events|], n) == ProjectsOf(indices[i], n)
    decreases |events|
  {
    if i < |events| {
      var k := |events| - 1;
      IndexHistoryPrefix(indices, events);
      assert forall j | 0 <= j < k :: events[..k][j] == events[j];
      UnseenKeepsProjects(indices[..|events|], events[..k], n, i);
      assert ProjectsOf(indices[k], n) == ProjectsOf(indices[i], n);
      if events[k].NamespaceEvent? {
        assert Handled(events[k].name, indices[k], events[k].observed, indices[k + 1], events[k].attempts);
      }
      assert !Sees(events[k], n);
      forall p ensures p in ProjectsOf(indices[k + 1], n) <==> p in ProjectsOf(indices[k], n) {
      }
    }
  }

  /**
   * A namespace that was found to be gone in event i, and was not found again since, is still a destination
   * of exactly the projects it was last seen in.
   */
  lemma GoneStaysDestination(states: seq<State>, events: seq<Event>, n: string, p: string, i: nat)
    requires History(states, events) && Agrees(states[0])
    requires i < |events| && events[i].NamespaceEvent? && events[i].name == n && events[i].observed.NotFound?
    requires forall j | i < j < |events| :: !Sees(events[j], n)
    requires var s := states[|events|]; p != "default" && p !in s.dirty && ProjectKey(p) in s.cluster.objects
    ensures var o := states[|events|].cluster.objects[ProjectKey(p)].content;
      && NamespaceKey(n) !in states[i].cluster.objects && o.ProjectObject?
      && (n in DestNamespaces(o.project.destinations) <==> p in ProjectsOf(states[i].index, n))
  {
    assert Follows(states[i], events[i], states[i + 1]);
    AlwaysAgrees(states, events, |events|);
    HistoryOfIndices(states, events);
    UnseenKeepsProjects(Indices(states), events, n, i);
    assert p in ProjectsOf(states[|events|].index, n) <==> n in NamespacesOf(states[|events|].index, p);
  }

  /** It does happen: namespace "ns" is gone, every push succeeds, and the AppProject still lists it. */
  lemma GoneExists() returns (s: State)
    ensures WellFormed(s.cluster) && Agrees(s) && s.dirty == {} && NamespaceStep(s, "ns", NotFound, ["team"], s)
    ensures NamespaceKey("ns") !in s.cluster.objects && HasTargets(s.cluster, "team", {"ns"}, {})
  {
    var project := AppProject([Destination("ns", "*")], [], [], RolesOf("team"), false);
    var c := Cluster(map[ProjectKey("team") := Stored(ProjectObject(project), 1)], {}, 1);
    s := State(Index({("ns", "team")}, {}), c, {});
    assert project.destinations[0] == Destination("ns", "*");
    assert DestNamespaces(project.destinations) == {"ns"} == NamespacesOf(s.index, "team");
    assert Elements<string>([]) == {} == SourcesOf(s.index, "team");
    assert Elements(["team"]) == {"team"} == ProjectsOf(s.index, "ns");
    forall p | p != "team" ensures NamespacesOf(s.index, p) == {} {
    }
    PushNotNeeded(s.cluster, "team", s.index, {});
    assert {} - {"team"} == {};
  }

  // ---- The source trusts ----

  ghost function SourceLabel(e: Event): set<string> {
    if e.NamespaceEvent? && e.observed.Ok? && e.observed.value.content.NamespaceObject?
    then LabelSet(e.observed.value.content.sourceLabel) else {}
  }

  /** All projects that a source label of ns has ever named. */
  ghost function EverTrusted(events: seq<Event>, ns: string): set<string> {
    if events == [] then {}
    else
      var e := events[|events| - 1];
      EverTrusted(events[..|events| - 1], ns) + if e.NamespaceEvent? && e.name == ns then SourceLabel(e) else {}
  }

  /**
   * One reconcile brings the trusts of a namespace to its source label exactly if every project to be
   * dropped has the name of a namespace that trusts a project named like this one.
   */
  lemma SourceLabelApplied(n: string, ix: Index, projects: set<string>, sources: set<string>, ix': Index)
    requires IndexUpdate(ix, n, projects, sources, ix')
    ensures TrustedBy(ix', n) == sources <==> forall p | p in TrustedBy(ix, n) - sources :: p in SourcesOf(ix, n)
    ensures TrustedBy(ix', n) == (TrustedBy(ix, n) - (SourcesOf(ix, n) - sources)) + sources
    ensures forall m | m != n :: TrustedBy(ix', m) == TrustedBy(ix, m)
  {
    assert forall p :: p in TrustedBy(ix', n) <==> p in sources || (p in TrustedBy(ix, n) && p !in SourcesOf(ix, n));
    if TrustedBy(ix', n) == sources {
      forall p | p in TrustedBy(ix, n) - sources ensures p in SourcesOf(ix, n) {
        assert p !in TrustedBy(ix', n);
      }
    }
  }

  /** A namespace whose source label is taken away keeps being trusted for the project it named. */
  lemma RemovedSourceLabelStays()
    ensures var ix := Index({}, {("ns", "team")});
      IndexUpdate(ix, "ns", {}, {}, ix) && TrustedBy(ix, "ns") == {"team"}
  {
  }

  /** In every run, a namespace trusts only projects that a source label of its own has named. */
  lemma {:induction false} TrustsComeFromLabels(indices: seq<Index>, events: seq<Event>, ns: string)
    requires IndexHistory(indices, events) && indices[0].trusts == {}
    ensures TrustedBy(indices[|events|], ns) <= EverTrusted(events, ns)
    decreases |events|
  {
    if events == [] {
      assert TrustedBy(indices[0], ns) == {};
    } else {
      var k := |events| - 1;
      IndexHistoryPrefix(indices, events);
      TrustsComeFromLabels(indices[..|events|], events[..k], ns);
      assert indices[..|events|][k] == indices[k];
      var e := events[k];
      if e.NamespaceEvent? {
        assert Handled(e.name, indices[k], e.observed, indices[k + 1], e.attempts);
      } else {
        assert indices[k + 1] == indices[k];
      }
    }
  }

  /** What a namespace ever trusted was named by its own label in one of the events. */
  lemma {:induction false} EverTrustedByEvent(events: seq<Event>, ns: string, p: string) returns (i: nat)
    requires p in EverTrusted(events, ns)
    ensures i < |events| && events[i].NamespaceEvent? && events[i].name == ns && p in SourceLabel(events[i])
    decreases |events|
  {
    var k := |events| - 1;
    if p in EverTrusted(events[..k], ns) {
      i := EverTrustedByEvent(events[..k], ns, p);
    } else {
      i := k;
    }
  }

  /** If no namespace has the name of a project, a namespace trusts every project its source label ever named. */
  lemma {:induction false} TrustsOnlyGrow(indices: seq<Index>, events: seq<Event>, ns: string)
    requires IndexHistory(indices, events) && indices[0].trusts == {}
    requires forall i, j | 0 <= i < |events| && 0 <= j < |events| && events[i].NamespaceEvent? ::
               events[i].name !in SourceLabel(events[j])
    ensures TrustedBy(indices[|events|], ns) == EverTrusted(events, ns)
    decreases |events|
  {
    if events == [] {
      assert TrustedBy(indices[0], ns) == {};
    } else {
      var k := |events| - 1;
      IndexHistoryPrefix(indices, events);
      TrustsOnlyGrow(indices[..|events|], events[..k], ns);
      assert indices[..|events|][k] == indices[k];
      var e := events[k];
      if e.NamespaceEvent? && e.observed.Ok? {
        assert Handled(e.name, indices[k], e.observed, indices[k + 1], e.attempts);
        forall i | 0 <= i < k ensures e.name !in SourceLabel(events[..k][i]) {
          assert e.name !in SourceLabel(events[i]);
        }
        forall m ensures (m, e.name) !in indices[k].trusts {
          if (m, e.name) in indices[k].trusts {
            TrustsComeFromLabels(indices[..|events|], events[..k], m);
            assert e.name in TrustedBy(indices[..|events|][k], m);
            var i := EverTrustedByEvent(events[..k], m, e.name);
          }
        }
        assert forall p :: (ns, p) in indices[k + 1].trusts <==>
                             (ns, p) in indices[k].trusts || (ns == e.name && p in SourceLabel(e));
      } else {
        assert indices[k + 1] == indices[k];
      }
    }
  }
}
