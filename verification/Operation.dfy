/** The operator at work: any number of whole reconciles of both controllers, in any order, from start-up on. */
module Operation {
  import opened Collections
  import opened NamespaceIndex
  import opened NsCache
  import opened ClusterModel
  import opened ApiClient
  import opened NamespaceController
  import opened StaticUsers
  import opened UserController
  import UserProjects
  import opened Naming
  import opened Agreement
  import opened Cleanup
  import opened Groups
  import opened Labels
  import opened Projects
  import opened Reliability

  /** What the operator is started with: environment variables and what discovery found. */
  datatype Settings = Settings(publicRepos: seq<string>, installed: bool, authoritative: bool, bcrypt: Bcrypt)

  /** A reconciler of its own for one request. */
  method NewNamespaceReconciler(cache: SafeNsCache, settings: Settings, cluster: Cluster, ghost dirty: set<string>,
                                reliable: bool)
    returns (reconciler: NamespaceReconciler)
    requires cache.Valid() && WellFormed(cluster)
    ensures fresh(reconciler) && fresh(reconciler.client) && reconciler.cache == cache && reconciler.Valid()
    ensures reconciler.client.exclusive && reconciler.client.reliable == reliable
              && reconciler.client.cluster == cluster
    ensures reconciler.client.steps == [] && reconciler.attempts == [] && reconciler.dirty == dirty
  {
    var client := new Client(NamespaceWorker, true, reliable, cluster);
    reconciler := new NamespaceReconciler(client, cache, settings.publicRepos);
    reconciler.dirty := dirty;
  }

  /** NamespaceReconciler.Reconcile on its own. */
  method ReconcileNamespace(cache: SafeNsCache, settings: Settings, cluster: Cluster, ghost dirty: set<string>,
                            name: string,
                            reliable: bool)
    returns (cluster': Cluster, outcome: Outcome, ghost dirty': set<string>, ghost observed: Reply<Stored>,
             ghost attempts: seq<string>)
    requires cache.Valid() && cache.initDone && WellFormed(cluster)
    modifies cache.Repr
    ensures cache.Valid() && fresh(cache.Repr - old(cache.Repr)) && WellFormed(cluster')
    ensures cache.initDone && cache.initFailed == old(cache.initFailed)
    ensures NamespaceStep(State(old(cache.index), cluster, dirty), name, observed, attempts,
                          State(cache.index, cluster', dirty'))
    ensures outcome.Done? <==> observed.NotFound? || (observed.Ok? && Elements(attempts) * dirty' == {})
    ensures cache.initFailed ==> outcome == Error(NotInitialised) && observed.Failed? && cluster' == cluster
    ensures reliable && !cache.initFailed ==>
              outcome.Done? && Elements(attempts) * dirty' == {}
                  && (observed.Ok? <==> NamespaceKey(name) in cluster.objects)
  {
    var reconciler := NewNamespaceReconciler(cache, settings, cluster, dirty, reliable);
    ghost var base;
    outcome, base, observed := reconciler.Reconcile(name);
    cluster', dirty', attempts := reconciler.client.cluster, reconciler.dirty, reconciler.attempts;
    assert reconciler.attempts[0..] == attempts;
  }

  /**
   * One whole reconcile of a namespace. If the API server is reliable and the index was filled, the
   * namespace is in the index as its label says, and every AppProject concerned is in line.
   */
  method NamespaceTurn(cache: SafeNsCache, settings: Settings, cluster: Cluster, ghost dirty: set<string>, name: string,
                       reliable: bool)
    returns (cluster': Cluster, outcome: Outcome, ghost dirty': set<string>, ghost e: Event)
    requires cache.Valid() && cache.initDone && WellFormed(cluster)
    modifies cache.Repr
    ensures cache.Valid() && fresh(cache.Repr - old(cache.Repr))
    ensures cache.initDone && cache.initFailed == old(cache.initFailed)
    ensures Follows(State(old(cache.index), cluster, dirty), e, State(cache.index, cluster', dirty'))
    ensures Answers(e, ForNamespace(name)) && (outcome.Done? ==> !e.observed.Failed?)
    ensures outcome.Done? <==> e.observed.NotFound? || (e.observed.Ok? && Elements(e.attempts) * dirty' == {})
    ensures cache.initFailed ==>
              outcome == Error(NotInitialised) && cluster' == cluster && cache.index == old(cache.index)
    ensures reliable && !cache.initFailed ==>
              && outcome.Done? && (e.observed.Ok? <==> NamespaceKey(name) in cluster.objects)
              && WellServed(State(old(cache.index), cluster, dirty), e, State(cache.index, cluster', dirty'))
              && (NamespaceKey(name) in cluster.objects ==> ProjectsOf(cache.index, name) == LabelOf(cluster, name))
              && (forall p | p in e.attempts :: p !in dirty' && InLine(cluster', p, cache.index))
  {
    ghost var observed, attempts;
    cluster', outcome, dirty', observed,
        attempts := ReconcileNamespace(cache, settings, cluster, dirty, name, reliable);
    e := NamespaceEvent(name, observed, attempts);
    if reliable && !cache.initFailed {
      ServedNamespace(State(old(cache.index), cluster, dirty), name, observed, attempts,
                      State(cache.index, cluster', dirty'));
    }
  }

  /** What a namespace reconcile amounts to in which no call failed. */
  lemma ServedNamespace(s: State, name: string, observed: Reply<Stored>, attempts: seq<string>, s': State)
    requires WellFormed(s.cluster) && NamespaceStep(s, name, observed, attempts, s')
    requires !observed.Failed? && Elements(attempts) * s'.dirty == {}
    ensures NamespaceKey(name) in s.cluster.objects ==> ProjectsOf(s'.index, name) == LabelOf(s.cluster, name)
    ensures forall p | p in attempts :: p !in s'.dirty && InLine(s'.cluster, p, s'.index)
  {
    forall p | p in attempts ensures p !in s'.dirty && InLine(s'.cluster, p, s'.index) {
      assert p in Elements(attempts) && p !in Elements(attempts) * s'.dirty;
      assert ProjectKey(p) in s'.cluster.objects ==> ProjectKey(p) in s.cluster.objects;
    }
  }

  method NewUserReconciler(cache: SafeNsCache, settings: Settings, cluster: Cluster, name: string, reliable: bool)
    returns (reconciler: ArgocdUserReconciler)
    requires cache.Valid() && WellFormed(cluster) && Sound(settings.bcrypt)
    ensures fresh(reconciler) && fresh(reconciler.client) && reconciler.cache == cache
              && reconciler.client !in cache.Repr
    ensures reconciler.client.exclusive && reconciler.client.reliable == reliable
              && reconciler.client.cluster == cluster
    ensures AtWork(reconciler.client, name) && reconciler.bcrypt == settings.bcrypt
    ensures reconciler.groupCRDInstalled == settings.installed
    ensures reconciler.groupMembershipAuthoritative == settings.authoritative
  {
    var client := new Client(UserWorker(name), true, reliable, cluster);
    reconciler := new ArgocdUserReconciler(client, cache, settings.publicRepos, settings.installed,
                                           settings.authoritative, settings.bcrypt);
  }

  /**
   * One whole reconcile of an ArgocdUser, by a worker of its own; any call may fail, unless the API server is
   * reliable.
   */
  method ReconcileUser(cache: SafeNsCache, settings: Settings, cluster: Cluster, name: string, reliable: bool)
    returns (cluster': Cluster, outcome: Outcome)
    requires cache.Valid() && WellFormed(cluster) && Sound(settings.bcrypt)
    modifies cache.Repr
    ensures cache.Valid() && fresh(cache.Repr - old(cache.Repr)) && cache.index == old(cache.index)
    ensures cache.initDone == old(cache.initDone) && cache.initFailed == old(cache.initFailed)
    ensures WellFormed(cluster') && UserEffect(name, cache.index, cluster, cluster')
              && OwnFrame(name, cluster, cluster')
    ensures outcome.Done? && UserStays(cluster, name) ==>
              var user := cluster.objects[UserKey(name)].content.user;
              Provided(settings.bcrypt, cluster', cache.index, name, user, settings.installed,
                       AuthoritativeFor(user.authoritative, settings.authoritative))
    ensures outcome.Done? && Leaving(cluster, name) ==> EntriesOf(name) !! cluster'.written && !Carries(cluster', name)
    ensures reliable && UserStays(cluster, name) ==>
              && Carries(cluster', name) && UserProjects.HasTargetsOf(cluster', name, cache.index, cache.index)
              && AccessRight(cluster', name, cluster.objects[UserKey(name)].content.user.admin.users)
              && (Ready(settings.bcrypt, cluster, cluster.objects[UserKey(name)].content.user) ==> outcome.Done?)
    ensures reliable && !UserStays(cluster, name) ==> outcome.Done?
  {
    var reconciler := NewUserReconciler(cache, settings, cluster, name, reliable);
    outcome := reconciler.Reconcile(name);
    cluster' := reconciler.client.cluster;
  }

  method UserTurn(cache: SafeNsCache, settings: Settings, cluster: Cluster, ghost dirty: set<string>, name: string,
                  reliable: bool)
    returns (cluster': Cluster, outcome: Outcome, ghost dirty': set<string>, ghost e: Event)
    requires cache.Valid() && cache.initDone && WellFormed(cluster) && Sound(settings.bcrypt)
    modifies cache.Repr
    ensures cache.Valid() && fresh(cache.Repr - old(cache.Repr)) && cache.index == old(cache.index)
    ensures cache.initDone && cache.initFailed == old(cache.initFailed)
    ensures Follows(State(cache.index, cluster, dirty), e, State(cache.index, cluster', dirty'))
    ensures Answers(e, ForUser(name))
    ensures outcome.Done? && Leaving(cluster, name) ==> EntriesOf(name) !! cluster'.written && !Carries(cluster', name)
    ensures outcome.Done? || reliable ==>
              WellServed(State(cache.index, cluster, dirty), e, State(cache.index, cluster', dirty'))
    ensures reliable && !UserStays(cluster, name) ==> outcome.Done?
  {
    cluster', outcome := ReconcileUser(cache, settings, cluster, name, reliable);
    dirty' := if UserProjects.HasTargetsOf(cluster', name, cache.index, cache.index)
              then dirty - {name} else dirty;
    e := UserEvent(name);
  }

  // ---- Before the index is filled ----

  /**
   * A reconcile of an ArgocdUser that comes before the first of any namespace: the index is still empty,
   * so the AppProject loses the destinations it had, and the index that is then filled from the
   * AppProjects does not hold them until their namespaces are seen.
   */
  method EarlyUserTurn(settings: Settings, cluster: Cluster, name: string, reliable: bool)
    returns (cluster': Cluster, outcome: Outcome, ok: bool, ghost index: Index)
    requires WellFormed(cluster) && Sound(settings.bcrypt) && name != "default"
    ensures outcome.Done? && UserStays(cluster, name) ==> UserProjects.HasTargets(cluster', name, {}, {})
    ensures outcome.Done? && UserStays(cluster, name) && ok ==> NamespacesOf(index, name) == {}
    ensures reliable ==> ok
    ensures reliable && UserStays(cluster, name) ==>
              UserProjects.HasTargets(cluster', name, {}, {}) && NamespacesOf(index, name) == {}
    ensures UserEffect(name, Index({}, {}), cluster, cluster') && OwnFrame(name, cluster, cluster')
  {
    var cache := new SafeNsCache();
    cluster', outcome := ReconcileUser(cache, settings, cluster, name, reliable);
    NothingIndexed(name);
    var lister := new Client(NamespaceWorker, true, reliable, cluster');
    ok := cache.InitOrPass(lister);
    index := cache.index;
  }

  lemma NothingIndexed(name: string)
    ensures NamespacesOf(Index({}, {}), name) == {} && SourcesOf(Index({}, {}), name) == {}
  {
  }

  /** A team as it may be found at start-up, with its AppProject open to namespace "ns". */
  function TeamAtStart(): Cluster {
    var role := RoleSpec("secret", []);
    var project := AppProject([Destination("ns", "*")], [], [], RolesOf("team"), false);
    var objects :=
      map[UserKey("team") := Stored(UserObject(ArgocdUser(role, role, role, None, true, false, false)), 1),
          ProjectKey("team") := Stored(ProjectObject(project), 1),
          ConfigMapKey := Stored(DataObject(map["url" := "https://argocd"]), 1),
          SecretKey := Stored(DataObject(map[]), 1)];
    Cluster(objects, {}, 1)
  }

  lemma TeamStays()
    ensures WellFormed(TeamAtStart()) && UserStays(TeamAtStart(), "team")
  {
  }

  /** It does happen: a first reconcile in which nothing fails takes "ns" away from this team. */
  method EarlyLoss() returns (cluster': Cluster, ghost index: Index)
    ensures UserProjects.HasTargets(TeamAtStart(), "team", {"ns"}, {})
    ensures UserProjects.HasTargets(cluster', "team", {}, {}) && NamespacesOf(index, "team") == {}
  {
    var bcrypt := Bcrypt((password, salt) => "#" + password, (hash, password) => hash == "#" + password);
    var cluster := TeamAtStart();
    TeamStays();
    assert cluster.objects[ProjectKey("team")].content.project.destinations == [Destination("ns", "*")];
    var outcome, ok;
    cluster', outcome, ok, index := EarlyUserTurn(Settings([], false, false, bcrypt), cluster, "team", true);
  }

  /** The answer to a request, when the AppProjects could not be listed at start-up. */
  ghost predicate BlindTurn(c: Cluster, r: Request, reliable: bool, outcome: Outcome, c': Cluster) {
    match r
    case ForNamespace(_) => outcome == Error(NotInitialised) && c' == c
    case ForUser(n) =>
      && UserEffect(n, Index({}, {}), c, c')
      && ((outcome.Done? || reliable) && UserStays(c, n) ==> UserProjects.HasTargets(c', n, {}, {}))
    case FromOthers => NoNewProjects(c, c')
  }

  /** The run answers the requests one by one, each as best it can. */
  ghost predicate BlindRun(run: seq<Cluster>, requests: seq<Request>, reliable: bool, outcomes: seq<Outcome>) {
    && |run| == |requests| + 1 && |outcomes| == |requests|
    && forall i | 0 <= i < |requests| :: BlindTurn(run[i], requests[i], reliable, outcomes[i], run[i + 1])
  }

  /** One request after a start at which the AppProjects could not be listed. */
  method AnswerBlindly(cache: SafeNsCache, settings: Settings, cluster: Cluster, request: Request, reliable: bool)
    returns (cluster': Cluster, outcome: Outcome)
    requires cache.Valid() && cache.initDone && cache.initFailed && cache.index == Index({}, {})
    requires WellFormed(cluster) && Sound(settings.bcrypt)
    modifies cache.Repr
    ensures cache.Valid() && fresh(cache.Repr - old(cache.Repr))
    ensures cache.initDone && cache.initFailed && cache.index == Index({}, {})
    ensures WellFormed(cluster') && BlindTurn(cluster, request, reliable, outcome, cluster')
  {
    outcome := Done;
    match request {
      case ForNamespace(name) =>
        ghost var dirty, e;
        cluster', outcome, dirty, e := NamespaceTurn(cache, settings, cluster, {}, name, reliable);
      case ForUser(name) =>
        cluster', outcome := ReconcileUser(cache, settings, cluster, name, reliable);
        NothingIndexed(name);
      case FromOthers =>
        cluster' := OutsideTurn(cluster);
    }
  }

  method OperateBlind(cache: SafeNsCache, settings: Settings, cluster: Cluster, requests: seq<Request>, reliable: bool)
    returns (cluster': Cluster, outcomes: seq<Outcome>, ghost run: seq<Cluster>)
    requires cache.Valid() && cache.initDone && cache.initFailed && cache.index == Index({}, {})
    requires WellFormed(cluster) && Sound(settings.bcrypt)
    modifies cache.Repr
    ensures BlindRun(run, requests, reliable, outcomes) && run[0] == cluster && run[|requests|] == cluster'
  {
    cluster', outcomes, run := cluster, [], [cluster];
    for i := 0 to |requests|
      invariant cache.Valid() && fresh(cache.Repr - old(cache.Repr))
      invariant cache.initDone && cache.initFailed && cache.index == Index({}, {}) && WellFormed(cluster')
      invariant BlindRun(run, requests[..i], reliable, outcomes) && run[0] == cluster && run[i] == cluster'
    {
      var outcome;
      cluster', outcome := AnswerBlindly(cache, settings, cluster', requests[i], reliable);
      outcomes, run := outcomes + [outcome], run + [cluster'];
    }
    assert requests[..|requests|] == requests;
  }

  // ---- After it is filled ----

  /** Others change anything but AppProjects, which they may only delete. */
  method OutsideTurn(cluster: Cluster) returns (cluster': Cluster)
    requires WellFormed(cluster)
    ensures WellFormed(cluster') && NoNewProjects(cluster, cluster')
  {
    cluster' := cluster;
    var next: Cluster := *;
    if WellFormed(next)
       && forall k | k in next.objects && k.ProjectKey? :: k in cluster.objects && next.objects[k] == cluster.objects[k]
    {
      cluster' := next;
    }
  }

  method Turn(cache: SafeNsCache, settings: Settings, cluster: Cluster, ghost dirty: set<string>, request: Request,
              reliable: bool)
    returns (cluster': Cluster, outcome: Outcome, ghost dirty': set<string>, ghost e: Event)
    requires cache.Valid() && cache.initDone && !cache.initFailed && WellFormed(cluster) && Sound(settings.bcrypt)
    modifies cache.Repr
    ensures cache.Valid() && fresh(cache.Repr - old(cache.Repr)) && cache.initDone && !cache.initFailed
    ensures WellFormed(cluster') && Answers(e, request)
    ensures Follows(State(old(cache.index), cluster, dirty), e, State(cache.index, cluster', dirty'))
    ensures reliable ==> WellServed(State(old(cache.index), cluster, dirty), e, State(cache.index, cluster', dirty'))
    ensures Reported(State(old(cache.index), cluster, dirty), e, outcome, State(cache.index, cluster', dirty'))
  {
    outcome := Done;
    match request {
      case ForNamespace(name) =>
        cluster', outcome, dirty', e := NamespaceTurn(cache, settings, cluster, dirty, name, reliable);
      case ForUser(name) =>
        cluster', outcome, dirty', e := UserTurn(cache, settings, cluster, dirty, name, reliable);
      case FromOthers =>
        cluster' := OutsideTurn(cluster);
        dirty', e := dirty, Outside;
    }
  }

  /** Start-up: the index is filled from the AppProjects, or cannot be. */
  method Start(cluster: Cluster, listable: bool) returns (cache: SafeNsCache, ok: bool)
    requires WellFormed(cluster)
    ensures fresh(cache.Repr) && cache.Valid() && cache.initDone && cache.initFailed == !ok
    ensures ok ==> cache.index.trusts == {} && Matches(cache.index, cluster)
    ensures !ok ==> cache.index == Index({}, {})
    ensures listable ==> ok
  {
    cache := new SafeNsCache();
    var client := new Client(NamespaceWorker, true, listable, cluster);
    ok := cache.InitOrPass(client);
  }

  /**
   * The operator from start-up on, answering any sequence of requests, whichever calls fail. If the
   * AppProjects could be listed, they agree with the index after each reconcile, unless their latest push
   * failed. If not, no namespace is ever looked at, and every ArgocdUser that is reconciled is left without
   * destinations. If no call fails from then on, once every namespace has been handled since its label last
   * changed, the destinations are exactly what the labels in the cluster say.
   */
  method Operate(cluster: Cluster, settings: Settings, requests: seq<Request>, listable: bool, reliable: bool)
    returns (ok: bool, cluster': Cluster, outcomes: seq<Outcome>, ghost states: seq<State>, ghost events: seq<Event>,
             ghost blind: seq<Cluster>)
    requires WellFormed(cluster) && Sound(settings.bcrypt)
    ensures listable ==> ok
    ensures ok ==>
              && AnswersAll(states, events, requests) && states[0].cluster == cluster
              && states[0].dirty == {} && states[0].index.trusts == {} && Matches(states[0].index, cluster)
    ensures ok ==> states[|events|].cluster == cluster' && forall i | 0 <= i < |states| :: Agrees(states[i])
    ensures ok ==> AllReported(states, events, outcomes)
    ensures ok && reliable ==>
              && AllWellServed(states, events)
              && forall p | p != "default" && ProjectKey(p) in cluster'.objects && AllHandled(states, requests, p) ::
                   var o := cluster'.objects[ProjectKey(p)].content;
                   o.ProjectObject? && DestNamespaces(o.project.destinations) == NamedBy(cluster', p)
    ensures !ok ==>
              && BlindRun(blind, requests, reliable, outcomes)
              && blind[0] == cluster && blind[|requests|] == cluster'
  {
    cluster', outcomes, states, events, blind := cluster, [], [], [], [];
    var cache;
    cache, ok := Start(cluster, listable);
    if ok {
      AgreesAfterInit(cache.index, cluster);
      cluster', outcomes, states, events := OperateListed(cache, settings, cluster, requests, reliable);
      if reliable {
        forall p | p != "default" && ProjectKey(p) in cluster'.objects && AllHandled(states, requests, p)
          ensures var o := cluster'.objects[ProjectKey(p)].content;
            o.ProjectObject? && DestNamespaces(o.project.destinations) == NamedBy(cluster', p)
        {
          HandledLabelsAreApplied(states, events, requests, p);
        }
      }
    } else {
      cluster', outcomes, blind := OperateBlind(cache, settings, cluster, requests, reliable);
    }
  }

  method OperateListed(cache: SafeNsCache, settings: Settings, cluster: Cluster, requests: seq<Request>, reliable: bool)
    returns (cluster': Cluster, outcomes: seq<Outcome>, ghost states: seq<State>, ghost events: seq<Event>)
    requires cache.Valid() && cache.initDone && !cache.initFailed && WellFormed(cluster) && Sound(settings.bcrypt)
    requires Agrees(State(cache.index, cluster, {}))
    modifies cache.Repr
    ensures AnswersAll(states, events, requests) && states[0] == State(old(cache.index), cluster, {})
    ensures states[|events|].cluster == cluster' && forall i | 0 <= i < |states| :: Agrees(states[i])
    ensures AllReported(states, events, outcomes) && (reliable ==> AllWellServed(states, events))
  {
    cluster', outcomes := cluster, [];
    ghost var dirty: set<string> := {};
    states, events := [State(cache.index, cluster', dirty)], [];
    ghost var start := states[0];
    for k := 0 to |requests|
      invariant cache.Valid() && fresh(cache.Repr - old(cache.Repr)) && cache.initDone && !cache.initFailed
      invariant WellFormed(cluster') && AnswersAll(states, events, requests[..k])
      invariant states[0] == start && states[k] == State(cache.index, cluster', dirty)
      invariant AllReported(states, events, outcomes) && (reliable ==> AllWellServed(states, events))
    {
      var outcome;
      ghost var dirty', e;
      cluster', outcome, dirty', e := Turn(cache, settings, cluster', dirty, requests[k], reliable);
      dirty := dirty';
      Extend(states, events, requests[..k], outcomes, e, requests[k], outcome, State(cache.index, cluster', dirty));
      assert requests[..k + 1] == requests[..k] + [requests[k]];
      states, events, outcomes := states + [State(cache.index, cluster', dirty)], events + [e], outcomes + [outcome];
    }
    assert requests[..|requests|] == requests;
    forall i | 0 <= i < |states| ensures Agrees(states[i]) {
      AlwaysAgrees(states, events, i);
    }
  }

  lemma Extend(states: seq<State>, events: seq<Event>, requests: seq<Request>, outcomes: seq<Outcome>,
               e: Event, r: Request, outcome: Outcome, s: State)
    requires AnswersAll(states, events, requests) && Follows(states[|events|], e, s) && Answers(e, r)
    requires AllReported(states, events, outcomes) && Reported(states[|events|], e, outcome, s)
    ensures AllReported(states + [s], events + [e], outcomes + [outcome])
    ensures AnswersAll(states + [s], events + [e], requests + [r])
    ensures AllWellServed(states, events) && WellServed(states[|events|], e, s) ==>
              AllWellServed(states + [s], events + [e])
  {
  }
}
