/** ArgocdUserReconciler: the life of an ArgocdUser from the finalizer that comes first to the one that goes last. */
module UserController {
  import opened Collections
  import opened Naming
  import opened MergePatch
  import opened NamespaceIndex
  import opened NsCache
  import opened ClusterModel
  import opened ApiClient
  import opened OwnSteps
  import opened Bindings
  import opened UserProjects
  import opened StaticUsers
  import opened Groups
  import opened Cleanup

  lemma SameProjectsTwice(a: Cluster, b: Cluster, c: Cluster)
    requires SameProjects(a, b) && SameProjects(b, c)
    ensures SameProjects(a, c)
  {
  }

  /** AppProjects left alone around the one step that touches that of `name`. */
  lemma UserEffectAround(name: string, ix: Index, a: Cluster, b: Cluster, c: Cluster, d: Cluster)
    requires SameProjects(a, b) && UserEffect(name, ix, b, c) && SameProjects(c, d)
    ensures UserEffect(name, ix, a, d)
  {
  }

  /** What a reconcile of `name` may do to AppProjects, when nobody else acts meanwhile. */
  ghost predicate UserEffect(name: string, ix: Index, c: Cluster, c': Cluster) {
    && (forall p | p != name :: SameObject(c, c', ProjectKey(p)))
    && (SameObject(c, c', ProjectKey(name)) || ProjectCleaned(name, c, c')
        || HasTargetsOf(c', name, ix, ix))
  }

  /** The targets of the AppProject are what the index said at some moments, not before `start`. */
  ghost predicate OfMoments(c: Cluster, name: string, history: seq<Index>, start: nat) {
    exists i: nat, j: nat :: start <= i + 1 && i <= j < |history| && HasTargetsOf(c, name, history[i], history[j])
  }

  /**
   * Every change since then left the AppProject alone, cleaned it up, or gave it the destinations of one
   * single moment and the sources of one single moment.
   */
  ghost predicate ProjectWrites(name: string, history: seq<Index>, start: nat, before: seq<Transition>,
                                after: seq<Transition>) {
    && before <= after
    && forall t | t in after[|before|..] ::
         || SameObject(t.pre, t.post, ProjectKey(name)) || ProjectCleaned(name, t.pre, t.post)
         || OfMoments(t.post, name, history, start)
  }

  lemma ProjectWritesTwice(name: string, h: seq<Index>, h': seq<Index>, start: nat,
                           a: seq<Transition>, b: seq<Transition>, c: seq<Transition>)
    requires h <= h' && ProjectWrites(name, h, start, a, b) && ProjectWrites(name, h', start, b, c)
    ensures ProjectWrites(name, h', start, a, c)
  {
    assert c[|a|..] == b[|a|..] + c[|b|..];
    forall t | t in b[|a|..] && OfMoments(t.post, name, h, start) ensures OfMoments(t.post, name, h', start) {
      var i: nat, j: nat :| start <= i + 1 && i <= j < |h| && HasTargetsOf(t.post, name, h[i], h[j]);
      assert h'[i] == h[i] && h'[j] == h[j];
    }
  }

  lemma CleansWrites(name: string, h: seq<Index>, start: nat, a: seq<Transition>, b: seq<Transition>)
    requires CleansProject(name, a, b)
    ensures ProjectWrites(name, h, start, a, b)
  {
  }

  lemma KeepsWrites(name: string, h: seq<Index>, start: nat, a: seq<Transition>, b: seq<Transition>)
    requires KeepsProjects(a, b)
    ensures ProjectWrites(name, h, start, a, b)
  {
    KeepsIsClean(name, a, b);
  }

  /** Every declared user is in the Group, and nobody else if the operator alone decides. */
  ghost predicate GroupRight(c: Cluster, name: string, role: string, declared: seq<string>, authoritative: bool) {
    var k := GroupKey(GroupName(name, role));
    k in c.objects && c.objects[k].content.GroupObject?
    && Elements(declared) <= Elements(c.objects[k].content.users)
    && (authoritative ==> Elements(c.objects[k].content.users) == Elements(declared))
  }

  /** What an ArgocdUser is promised for one role. */
  ghost predicate RoleRight(b: Bcrypt, c: Cluster, name: string, role: string, spec: RoleSpec, installed: bool,
                            authoritative: bool) {
    && AccountRight(c, name, role)
    && PasswordRight(b, c, name, role, spec.ciPass)
    && (installed ==> GroupRight(c, name, role, spec.users, authoritative))
  }

  /** Each role has its own part of the spec. */
  ghost predicate AllRolesRight(b: Bcrypt, c: Cluster, name: string, user: ArgocdUser, installed: bool,
                                authoritative: bool) {
    && RoleRight(b, c, name, "admin", user.admin, installed, authoritative)
    && RoleRight(b, c, name, "view", user.view, installed, authoritative)
    && RoleRight(b, c, name, "sync", user.sync, installed, authoritative)
  }

  /** The call ends with this role, with its own error; its account is there if there is an argocd-cm to hold it. */
  ghost predicate RoleFails(b: Bcrypt, c: Cluster, name: string, role: string, spec: RoleSpec, outcome: Outcome,
                            c': Cluster) {
    && outcome.Error? && RoleAnswer(b, c, name, role, spec.ciPass, outcome)
    && (ConfigMapKey in c.objects && !Emptied(c, ConfigMapKey) ==> AccountRight(c', name, role))
  }

  /**
   * What a calm call answers for the three roles, and what it leaves: every role before the first one that
   * cannot be served is right, and the error is that role's own.
   */
  ghost predicate StaticAnswer(b: Bcrypt, c: Cluster, name: string, user: ArgocdUser, installed: bool,
                               authoritative: bool,
                               outcome: Outcome, c': Cluster) {
    || RoleFails(b, c, name, "admin", user.admin, outcome, c')
    || (&& RoleRight(b, c', name, "admin", user.admin, installed, authoritative)
        && RoleFails(b, c, name, "view", user.view, outcome, c'))
    || (&& RoleRight(b, c', name, "admin", user.admin, installed, authoritative)
        && RoleRight(b, c', name, "view", user.view, installed, authoritative)
        && RoleFails(b, c, name, "sync", user.sync, outcome, c'))
    || (outcome.Done? && AllRolesRight(b, c', name, user, installed, authoritative))
  }

  /** Only the two shared objects matter to what is answered. */
  lemma AnswerFromShared(b: Bcrypt, c: Cluster, d: Cluster, name: string, user: ArgocdUser, installed: bool,
                         authoritative: bool, outcome: Outcome, c': Cluster)
    requires SameShared(c, d) && StaticAnswer(b, d, name, user, installed, authoritative, outcome, c')
    ensures StaticAnswer(b, c, name, user, installed, authoritative, outcome, c')
  {
  }

  /** Work on one role does not change the answer for another. */
  lemma AnswerKept(b: Bcrypt, name: string, role: string, c: Cluster, c': Cluster, other: string, ciPass: string,
                   outcome: Outcome)
    requires RoleFrame(name, role, c, c') && IsRole(role) && IsRole(other) && role != other
    requires SharedReady(c) && SharedReady(c')
    ensures RoleAnswer(b, c', name, other, ciPass, outcome) ==> RoleAnswer(b, c, name, other, ciPass, outcome)
  {
    if PasswordKey(name, role) == PasswordKey(name, other) {
      PasswordKeyInjective(name, role, name, other);
    }
    assert SameObject(c, c', SecretKey) || SameData(c, c', SecretKey, PasswordKey(name, other));
  }

  /** A calm call that could be answered for all three roles is answered for all three. */
  lemma ReadyIsServed(b: Bcrypt, c: Cluster, name: string, user: ArgocdUser, installed: bool, authoritative: bool,
                      outcome: Outcome, c': Cluster)
    requires Ready(b, c, user) && StaticAnswer(b, c, name, user, installed, authoritative, outcome, c')
    ensures outcome.Done?
  {
  }

  /** The members of a Group. */
  ghost predicate GroupHas(c: Cluster, name: string, role: string, members: set<string>) {
    var k := GroupKey(GroupName(name, role));
    k in c.objects && c.objects[k].content.GroupObject? && Elements(c.objects[k].content.users) == members
  }

  /** Nobody was removed from a Group of this name. */
  ghost predicate AllMembersKept(name: string, c: Cluster, c': Cluster) {
    forall role | IsRole(role) :: MembersKept(Transition(c, c'), GroupKey(GroupName(name, role)))
  }

  ghost predicate SameGroups(c: Cluster, c': Cluster) {
    forall g :: SameObject(c, c', GroupKey(g))
  }

  lemma GroupsUntouched(name: string, a: Cluster, b: Cluster, c: Cluster)
    requires WellFormed(a) && SameGroups(a, b) && AllMembersKept(name, b, c)
    ensures AllMembersKept(name, a, c)
  {
    forall role | IsRole(role) ensures MembersKept(Transition(a, c), GroupKey(GroupName(name, role))) {
      assert SameObject(a, b, GroupKey(GroupName(name, role)));
      assert MembersKept(Transition(b, c), GroupKey(GroupName(name, role)));
    }
  }

  /** Work on one role keeps the members of its Group and leaves the others alone. */
  lemma RoleKeepsMembers(name: string, role: string, a: Cluster, b: Cluster, c: Cluster)
    requires WellFormed(b) && AllMembersKept(name, a, b) && RoleFrame(name, role, b, c) && IsRole(role)
    requires MembersKept(Transition(b, c), GroupKey(GroupName(name, role)))
    ensures AllMembersKept(name, a, c)
  {
    forall r | IsRole(r) ensures MembersKept(Transition(a, c), GroupKey(GroupName(name, r))) {
      var k := GroupKey(GroupName(name, r));
      assert MembersKept(Transition(a, b), k);
      if GroupName(name, r) != GroupName(name, role) {
        assert SameObject(b, c, k) && (k in b.objects ==> Typed(k, b.objects[k].content));
      }
    }
  }

  lemma NoMembersLost(name: string, c: Cluster)
    requires WellFormed(c)
    ensures AllMembersKept(name, c, c)
  {
    forall role | IsRole(role) ensures MembersKept(Transition(c, c), GroupKey(GroupName(name, role))) {
      var k := GroupKey(GroupName(name, role));
      assert k in c.objects ==> Typed(k, c.objects[k].content);
    }
  }

  /** Work on one role touches one account key, one password key and one Group. */
  ghost predicate RoleFrame(name: string, role: string, c: Cluster, c': Cluster) {
    && OneKeyChanged(c, c', ConfigMapKey, AccountKey(name, role))
    && OneKeyChanged(c, c', SecretKey, PasswordKey(name, role))
    && forall k | k != ConfigMapKey && k != SecretKey && k != GroupKey(GroupName(name, role)) :: SameObject(c, c', k)
  }

  lemma RoleFrameExtends(name: string, role: string, a: Cluster, b: Cluster, c: Cluster)
    requires RoleFrame(name, role, a, b) && OnlyChanged({GroupKey(GroupName(name, role))}, b, c)
    ensures RoleFrame(name, role, a, c)
  {
    OneKeyInTwoSteps(a, b, c, ConfigMapKey, AccountKey(name, role));
    OneKeyInTwoSteps(a, b, c, SecretKey, PasswordKey(name, role));
    forall k | k != ConfigMapKey && k != SecretKey && k != GroupKey(GroupName(name, role)) ensures SameObject(a, c, k) {
      assert SameObject(a, b, k) && SameObject(b, c, k);
    }
  }

  lemma RoleFrameKeeps(b: Bcrypt, name: string, role: string, c: Cluster, c': Cluster, other: string, spec: RoleSpec,
                       installed: bool, authoritative: bool)
    requires RoleFrame(name, role, c, c') && IsRole(role) && IsRole(other) && role != other
    requires RoleRight(b, c, name, other, spec, installed, authoritative)
    ensures RoleRight(b, c', name, other, spec, installed, authoritative)
  {
    if AccountKey(name, role) == AccountKey(name, other) {
      AccountKeyInjective(name, role, name, other);
    }
    if PasswordKey(name, role) == PasswordKey(name, other) {
      PasswordKeyInjective(name, role, name, other);
    }
    if GroupName(name, role) == GroupName(name, other) {
      GroupNameInjective(name, role, name, other);
    }
    assert SameObject(c, c', ConfigMapKey)
           || SameData(c, c', ConfigMapKey, AccountKey(name, other));
    assert SameObject(c, c', SecretKey)
           || SameData(c, c', SecretKey, PasswordKey(name, other));
    assert SameObject(c, c', GroupKey(GroupName(name, other)));
  }

  /** In shared object k at most the data keys of `name` differ. */
  ghost predicate SharedFrame(name: string, c: Cluster, c': Cluster, k: Key) {
    SameObject(c, c', k) || forall x | x !in OwnDataKeys(name, k) :: SameData(c, c', k, x)
  }

  lemma SharedFrameTwice(name: string, a: Cluster, b: Cluster, c: Cluster, k: Key)
    requires SharedFrame(name, a, b, k) && SharedFrame(name, b, c, k)
    ensures SharedFrame(name, a, c, k)
  {
    if !SameObject(a, c, k) {
      forall x | x !in OwnDataKeys(name, k) ensures SameData(a, c, k, x) {
        assert SameData(a, b, k, x) || SameData(b, c, k, x);
      }
    }
  }

  /** A reconcile of `name` on its own leaves all objects of others, and their entries in the shared ones. */
  ghost predicate OwnFrame(name: string, c: Cluster, c': Cluster) {
    && (forall k | k !in OwnObjects(name) + {ConfigMapKey, SecretKey} :: SameObject(c, c', k))
    && SharedFrame(name, c, c', ConfigMapKey) && SharedFrame(name, c, c', SecretKey)
  }

  lemma OwnFrameTwice(name: string, a: Cluster, b: Cluster, c: Cluster)
    requires OwnFrame(name, a, b) && OwnFrame(name, b, c)
    ensures OwnFrame(name, a, c)
  {
    SharedFrameTwice(name, a, b, c, ConfigMapKey);
    SharedFrameTwice(name, a, b, c, SecretKey);
    forall k | k !in OwnObjects(name) + {ConfigMapKey, SecretKey} ensures SameObject(a, c, k) {
      assert SameObject(a, b, k) && SameObject(b, c, k);
    }
  }

  lemma OneOwnObject(name: string, c: Cluster, c': Cluster, k: Key)
    requires (forall k' | k' != k :: SameObject(c, c', k')) && k in OwnObjects(name)
    ensures OwnFrame(name, c, c')
  {
  }

  lemma StaticIsOwn(name: string, c: Cluster, c': Cluster)
    requires StaticOnly(name, c, c')
    ensures OwnFrame(name, c, c')
  {
  }

  lemma CleanupIsOwn(name: string, groupsToo: bool, c: Cluster, c': Cluster)
    requires Progress(name, groupsToo, c, c', {UserKey(name)})
    ensures OwnFrame(name, c, c')
  {
    forall k | k !in OwnObjects(name) + {ConfigMapKey, SecretKey} ensures SameObject(c, c', k) {
      assert CleanupFrame(name, groupsToo, c, c', k);
    }
    forall k, x | k in {ConfigMapKey, SecretKey} && x !in OwnDataKeys(name, k) && k in c.objects
        && KeysRemoved(name, c, c', k)
      ensures SameData(c, c', k, x)
    {
    }
  }

  lemma RoleFrameStatic(name: string, role: string, a: Cluster, b: Cluster, c: Cluster)
    requires StaticOnly(name, a, b) && RoleFrame(name, role, b, c) && IsRole(role)
    ensures StaticOnly(name, a, c)
  {
    SharedFrameTwice(name, a, b, c, ConfigMapKey);
    SharedFrameTwice(name, a, b, c, SecretKey);
    forall k | k != ConfigMapKey && k != SecretKey && !OwnGroup(name, k)
      ensures SameObject(a, c, k)
    {
      assert SameObject(a, b, k) && SameObject(b, c, k);
    }
  }

  lemma AfterRole(name: string, role: string, a: Cluster, b: Cluster, c: Cluster, authoritative: bool)
    requires StaticOnly(name, a, b) && RoleFrame(name, role, b, c) && IsRole(role)
    requires WellFormed(b) && (!authoritative ==> AllMembersKept(name, a, b))
    requires !authoritative ==> MembersKept(Transition(b, c), GroupKey(GroupName(name, role)))
    ensures StaticOnly(name, a, c) && (!authoritative ==> AllMembersKept(name, a, c))
  {
    RoleFrameStatic(name, role, a, b, c);
    if !authoritative {
      RoleKeepsMembers(name, role, a, b, c);
    }
  }

  /** Only the static users and Groups of `name` differ. */
  ghost predicate StaticOnly(name: string, c: Cluster, c': Cluster) {
    && (forall k | k != ConfigMapKey && k != SecretKey && !OwnGroup(name, k) :: SameObject(c, c', k))
    && SharedFrame(name, c, c', ConfigMapKey) && SharedFrame(name, c, c', SecretKey)
  }

  /**
   * The binding makes the admins of this ArgocdUser subjects of a ClusterRole that is there, allows what is
   * due to this ArgocdUser, and is that of no other.
   */
  ghost predicate AccessRight(c: Cluster, name: string, admins: seq<string>) {
    && BindingKey(BindingName(name)) in c.objects
    && c.objects[BindingKey(BindingName(name))].content.BindingObject?
    && var b := c.objects[BindingKey(BindingName(name))].content.binding;
       && b.owners == [name] && b.subjects == admins && b.roleRef.kind == "ClusterRole"
       && ClusterRoleKey(b.roleRef.name) in c.objects
       && c.objects[ClusterRoleKey(b.roleRef.name)].content == ClusterRoleObject(ClusterRole([name], [name]))
       && b.roleRef.name == ClusterRoleName(name)
       && forall other | other != name :: ClusterRoleName(other) != b.roleRef.name
  }

  ghost predicate SameShared(c: Cluster, c': Cluster) {
    SameObject(c, c', ConfigMapKey) && SameObject(c, c', SecretKey)
  }

  /** Nothing stands in the way of an ArgocdUser: the shared objects are there and bcrypt takes its passwords. */
  ghost predicate Ready(b: Bcrypt, c: Cluster, user: ArgocdUser) {
    SharedReady(c) && Hashable(b, user.admin.ciPass) && Hashable(b, user.view.ciPass) && Hashable(b, user.sync.ciPass)
  }

  /** Everything an ArgocdUser stands for is in place. */
  ghost predicate Provided(b: Bcrypt, c: Cluster, ix: Index, name: string, user: ArgocdUser, installed: bool,
                           authoritative: bool) {
    && Carries(c, name)
    && AccessRight(c, name, user.admin.users)
    && HasTargetsOf(c, name, ix, ix)
    && AllRolesRight(b, c, name, user, installed, authoritative)
  }

  lemma AfterAccess(name: string, merges: bool, a: Cluster, b: Cluster, c: Cluster, d: Cluster)
    requires WellFormed(a) && WellFormed(b) && SameGroups(a, b) && ProjectOnly(name, b, c)
    requires merges ==> AllMembersKept(name, c, d)
    ensures merges ==> AllMembersKept(name, a, d)
  {
    if merges {
      forall g ensures SameObject(a, c, GroupKey(g)) {
        assert SameObject(a, b, GroupKey(g)) && SameObject(b, c, GroupKey(g));
      }
      GroupsUntouched(name, a, c, d);
    }
  }

  lemma ContentsAreOwn(name: string, a: Cluster, b: Cluster, c: Cluster, d: Cluster)
    requires OwnFrame(name, a, b) && ProjectOnly(name, b, c) && StaticOnly(name, c, d)
    ensures OwnFrame(name, a, d)
  {
    OneOwnObject(name, b, c, ProjectKey(name));
    StaticIsOwn(name, c, d);
    OwnFrameTwice(name, a, b, c);
    OwnFrameTwice(name, a, c, d);
  }

  /** Access first, then the AppProject, then the static users: none undoes what came before. */
  lemma ProvidedTogether(name: string, admins: seq<string>, publicRepos: seq<string>, ix: Index, a: Cluster,
                         b: Cluster, c: Cluster, d: Cluster)
    requires SameProjects(a, b) && UserEffect(name, ix, b, c) && ProjectOnly(name, b, c) && StaticOnly(name, c, d)
    ensures UserEffect(name, ix, a, d)
    ensures AccessRight(b, name, admins) ==> AccessRight(d, name, admins)
    ensures HasTargetsOf(c, name, ix, ix) ==> HasTargetsOf(d, name, ix, ix)
    ensures RolesAndRepos(b, c, name, publicRepos) ==> RolesAndRepos(a, d, name, publicRepos)
  {
    assert SameProjects(c, d);
    UserEffectAround(name, ix, a, b, c, d);
    assert SameObject(a, b, ProjectKey(name)) && SameObject(c, d, ProjectKey(name));
    if AccessRight(b, name, admins) {
      AccessKept(name, admins, b, c, d);
    }
  }

  lemma AccessKept(name: string, admins: seq<string>, a: Cluster, b: Cluster, c: Cluster)
    requires AccessRight(a, name, admins) && ProjectOnly(name, a, b) && StaticOnly(name, b, c)
    ensures AccessRight(c, name, admins)
  {
    var k, k' := ClusterRoleKey(ClusterRoleName(name)), BindingKey(BindingName(name));
    assert SameObject(a, b, k) && SameObject(b, c, k);
    assert SameObject(a, b, k') && SameObject(b, c, k');
  }

  lemma FinalizerAdded(name: string, c: Cluster, user: ArgocdUser)
    requires WellFormed(c) && UserKey(name) in c.objects && c.objects[UserKey(name)].content == UserObject(user)
    requires !user.deleting
    ensures var d := UpdateEffect(c, UserKey(name), UserObject(user.(finalizer := true)), true);
      Guarantee(name, c, d) && Carries(d, name) && OnlyChanged({UserKey(name)}, c, d)
  {
    UpdateAdvances(c, UserKey(name), UserObject(user.(finalizer := true)), true);
  }

  lemma FinalizerRemoved(name: string, c: Cluster, user: ArgocdUser)
    requires WellFormed(c) && UserKey(name) in c.objects && c.objects[UserKey(name)].content == UserObject(user)
    requires user.deleting && user.finalizer && EntriesOf(name) !! c.written
    ensures var d := UpdateEffect(c, UserKey(name), UserObject(user.(finalizer := false)), true);
      Guarantee(name, c, d) && !Carries(d, name) && OnlyChanged({UserKey(name)}, c, d)
  {
    UpdateAdvances(c, UserKey(name), UserObject(user.(finalizer := false)), true);
  }

  lemma AfterFinalizer(name: string, ix: Index, publicRepos: seq<string>, a: Cluster, b: Cluster, c: Cluster)
    requires OnlyChanged({UserKey(name)}, a, b)
    ensures SameProjects(a, b) && SameShared(a, b) && SameGroups(a, b)
    ensures b == c || UserEffect(name, ix, b, c) ==> UserEffect(name, ix, a, c)
    ensures RolesAndRepos(b, c, name, publicRepos) ==> RolesAndRepos(a, c, name, publicRepos)
  {
    assert SameProjects(a, b);
    if UserEffect(name, ix, b, c) {
      UserEffectAround(name, ix, a, b, c, c);
    }
    assert SameObject(a, b, ProjectKey(name));
  }

  /** At work on a request for `name`, finalizer or not. */
  ghost predicate AtWork(client: Client, name: string)
    reads client
  {
    client.Valid() && client.actor == UserWorker(name) && Obeys(client.actor, client.steps)
  }

  /** Adds the finalizer unless it is there. */
  method AddFinalizer(client: Client, name: string, user: ArgocdUser, version: nat) returns (outcome: Outcome)
    requires AtWork(client, name) && !user.deleting
    requires UserKey(name) in client.cluster.objects
               && client.cluster.objects[UserKey(name)] == Stored(UserObject(user), version)
    modifies client`cluster, client`steps
    ensures AtWork(client, name) && (outcome.Done? ==> Live(client, name))
    ensures KeepsProjects(old(client.steps), client.steps)
    ensures client.exclusive ==> OnlyChanged({UserKey(name)}, old(client.cluster), client.cluster)
    ensures client.Calm() ==> outcome.Done?
  {
    if user.finalizer {
      return Done;
    }
    ghost var read := client.cluster;
    var updated, before := client.Update(UserKey(name), UserObject(user.(finalizer := true)), version);
    if updated.Ok? || client.cluster != before {
      SameVersionSameObject(read, before, UserKey(name));
      FinalizerAdded(name, before, user);
    }
    ChangeKeepsProjects(old(client.steps), before, client.cluster, UserKey(name));
    outcome := if updated.Ok? then Done else Error(ApiError);
  }

  /** Goes through only if the ArgocdUser is still the one that was read, marked for deletion. */
  method RemoveFinalizer(client: Client, name: string, user: ArgocdUser, version: nat, ghost read: Cluster)
    returns (outcome: Outcome)
    requires AtWork(client, name) && user.deleting && user.finalizer && EntriesOf(name) !! client.cluster.written
    requires WellFormed(read) && Advances(read, client.cluster)
    requires UserKey(name) in read.objects && read.objects[UserKey(name)] == Stored(UserObject(user), version)
    modifies client`cluster, client`steps
    ensures AtWork(client, name) && KeepsProjects(old(client.steps), client.steps)
    ensures client.exclusive ==> OnlyChanged({UserKey(name)}, old(client.cluster), client.cluster)
    ensures outcome.Done? ==> EntriesOf(name) !! client.cluster.written
    ensures client.exclusive && outcome.Done? ==> !Carries(client.cluster, name)
    ensures client.Calm() && SameObject(read, old(client.cluster), UserKey(name)) ==> outcome.Done?
  {
    var updated, before := client.Update(UserKey(name), UserObject(user.(finalizer := false)), version);
    if updated.Ok? || client.cluster != before {
      SameVersionSameObject(read, before, UserKey(name));
      FinalizerRemoved(name, before, user);
    }
    ChangeKeepsProjects(old(client.steps), before, client.cluster, UserKey(name));
    outcome := if updated.Ok? then Done else Error(ApiError);
  }

  class ArgocdUserReconciler {
    const client: Client
    const cache: SafeNsCache
    const publicRepos: seq<string>
    const groupCRDInstalled: bool
    const groupMembershipAuthoritative: bool
    const bcrypt: Bcrypt

    constructor (client: Client, cache: SafeNsCache, publicRepos: seq<string>, groupCRDInstalled: bool,
                 authoritative: bool, bcrypt: Bcrypt)
      requires Sound(bcrypt)
      ensures this.client == client && this.cache == cache && this.publicRepos == publicRepos
      ensures this.groupCRDInstalled == groupCRDInstalled && this.groupMembershipAuthoritative == authoritative
      ensures this.bcrypt == bcrypt
    {
      this.client, this.cache, this.publicRepos := client, cache, publicRepos;
      this.groupCRDInstalled, this.groupMembershipAuthoritative := groupCRDInstalled, authoritative;
      this.bcrypt := bcrypt;
    }

    method ReconcileRole(name: string, role: string, spec: RoleSpec, authoritative: bool) returns (outcome: Outcome)
      requires Live(client, name) && IsRole(role) && Sound(bcrypt)
      modifies client`cluster, client`steps
      ensures Live(client, name) && KeepsProjects(old(client.steps), client.steps)
      ensures client.exclusive ==> RoleFrame(name, role, old(client.cluster), client.cluster)
      ensures client.exclusive && outcome.Done? ==>
                RoleRight(bcrypt, client.cluster, name, role, spec, groupCRDInstalled, authoritative)
      ensures client.exclusive && !authoritative ==>
                MembersKept(Transition(old(client.cluster), client.cluster), GroupKey(GroupName(name, role)))
      ensures client.Calm() ==> RoleAnswer(bcrypt, old(client.cluster), name, role, spec.ciPass, outcome)
      ensures client.Calm() && outcome.Error? ==>
                RoleFails(bcrypt, old(client.cluster), name, role, spec, outcome, client.cluster)
      ensures client.Calm() && outcome.Done? ==> SharedReady(client.cluster)
    {
      ghost var was := client.cluster;
      outcome := UpdateUserArgocdConfig(client, bcrypt, name, role, spec.ciPass);
      ghost var mid, midSteps := client.cluster, client.steps;
      if client.exclusive {
        assert SameObject(was, mid, GroupKey(GroupName(name, role)));
        NoMembersLost(name, was);
        assert MembersKept(Transition(was, mid), GroupKey(GroupName(name, role)));
      }
      if outcome.Done? {
        var undeclared;
        outcome, undeclared := ReconcileArgoUsersGroup(client, groupCRDInstalled, name, role, spec.users,
                                                       authoritative);
        KeepsProjectsTwice(old(client.steps), midSteps, client.steps);
        if client.exclusive {
          RoleFrameExtends(name, role, was, mid, client.cluster);
          assert SameShared(mid, client.cluster);
        }
      }
    }

    /** reconcileArgocdStaticUser: admin, then view, then sync, each with its own part of the spec. */
    method ReconcileStaticUser(name: string, user: ArgocdUser) returns (outcome: Outcome)
      requires Live(client, name) && Sound(bcrypt)
      modifies client`cluster, client`steps
      ensures Live(client, name) && KeepsProjects(old(client.steps), client.steps)
      ensures client.exclusive ==> StaticOnly(name, old(client.cluster), client.cluster)
      ensures client.exclusive && outcome.Done? ==>
                var authoritative := AuthoritativeFor(user.authoritative, groupMembershipAuthoritative);
                && RoleRight(bcrypt, client.cluster, name, "admin", user.admin, groupCRDInstalled, authoritative)
                && RoleRight(bcrypt, client.cluster, name, "view", user.view, groupCRDInstalled, authoritative)
                && RoleRight(bcrypt, client.cluster, name, "sync", user.sync, groupCRDInstalled, authoritative)
      ensures client.exclusive
              && (user.authoritative == Some(false)
                  || (user.authoritative == None && !groupMembershipAuthoritative)) ==>
                AllMembersKept(name, old(client.cluster), client.cluster)
      ensures client.exclusive && outcome.Done? && groupCRDInstalled
              && (user.authoritative == Some(true) || (user.authoritative == None && groupMembershipAuthoritative)) ==>
                && GroupHas(client.cluster, name, "admin", Elements(user.admin.users))
                && GroupHas(client.cluster, name, "view", Elements(user.view.users))
                && GroupHas(client.cluster, name, "sync", Elements(user.sync.users))
      ensures client.Calm() ==>
                StaticAnswer(bcrypt, old(client.cluster), name, user, groupCRDInstalled,
                             AuthoritativeFor(user.authoritative, groupMembershipAuthoritative), outcome,
                                 client.cluster)
    {
      var authoritative := AuthoritativeFor(user.authoritative, groupMembershipAuthoritative);
      ghost var c0 := client.cluster;
      NoMembersLost(name, c0);
      outcome := ReconcileRole(name, ADMIN, user.admin, authoritative);
      ghost var c1, s1 := client.cluster, client.steps;
      if client.exclusive {
        AfterRole(name, ADMIN, c0, c0, c1, authoritative);
      }
      if !outcome.Done? {
        return;
      }
      outcome := ReconcileRole(name, VIEW, user.view, authoritative);
      ghost var c2, s2 := client.cluster, client.steps;
      KeepsProjectsTwice(old(client.steps), s1, s2);
      if client.exclusive {
        AfterRole(name, VIEW, c0, c1, c2, authoritative);
        RoleFrameKeeps(bcrypt, name, VIEW, c1, c2, ADMIN, user.admin, groupCRDInstalled, authoritative);
      }
      if client.Calm() {
        AnswerKept(bcrypt, name, ADMIN, c0, c1, VIEW, user.view.ciPass, outcome);
      }
      if !outcome.Done? {
        return;
      }
      outcome := ReconcileRole(name, SYNC, user.sync, authoritative);
      KeepsProjectsTwice(old(client.steps), s2, client.steps);
      if client.exclusive {
        AfterRole(name, SYNC, c0, c2, client.cluster, authoritative);
        RoleFrameKeeps(bcrypt, name, SYNC, c2, client.cluster, ADMIN, user.admin, groupCRDInstalled, authoritative);
        RoleFrameKeeps(bcrypt, name, SYNC, c2, client.cluster, VIEW, user.view, groupCRDInstalled, authoritative);
      }
      if client.Calm() {
        AnswerKept(bcrypt, name, VIEW, c1, c2, SYNC, user.sync.ciPass, outcome);
        AnswerKept(bcrypt, name, ADMIN, c0, c1, SYNC, user.sync.ciPass, outcome);
      }
    }

    /** The ClusterRole, then its binding. */
    method ReconcileAccess(name: string, user: ArgocdUser) returns (outcome: Outcome)
      requires Live(client, name)
      modifies client`cluster, client`steps
      ensures Live(client, name) && KeepsProjects(old(client.steps), client.steps)
      ensures client.exclusive ==> SameProjects(old(client.cluster), client.cluster)
      ensures client.exclusive ==> OwnFrame(name, old(client.cluster), client.cluster)
      ensures client.exclusive && outcome.Done? ==> AccessRight(client.cluster, name, user.admin.users)
      ensures client.exclusive ==> SameShared(old(client.cluster), client.cluster)
      ensures client.exclusive ==> SameGroups(old(client.cluster), client.cluster)
      ensures client.Calm() ==> outcome.Done?
    {
      outcome := ReconcileClusterRole(client, name);
      ghost var mid, midSteps := client.cluster, client.steps;
      if client.exclusive {
        OneOwnObject(name, old(client.cluster), mid, ClusterRoleKey(ClusterRoleName(name)));
      }
      if !outcome.Done? {
        return;
      }
      outcome := ReconcileClusterRoleBinding(client, name, user.admin.users);
      KeepsProjectsTwice(old(client.steps), midSteps, client.steps);
      if client.exclusive {
        OneOwnObject(name, mid, client.cluster, BindingKey(BindingName(name)));
        OwnFrameTwice(name, old(client.cluster), mid, client.cluster);
        SameProjectsTwice(old(client.cluster), mid, client.cluster);
        assert SameObject(mid, client.cluster, ClusterRoleKey(ClusterRoleName(name)));
        assert SameShared(old(client.cluster), mid) && SameShared(mid, client.cluster);
        assert SameGroups(old(client.cluster), mid) && SameGroups(mid, client.cluster);
        forall other | other != name ensures ClusterRoleName(other) != ClusterRoleName(name) {
          ObjectNamesInjective(name, other);
        }
      }
    }

    method ProvideProject(name: string) returns (outcome: Outcome)
      requires Live(client, name) && cache.Valid() && client !in cache.Repr
      modifies client`cluster, client`steps, cache.Repr
      ensures Live(client, name) && cache.Valid() && fresh(cache.Repr - old(cache.Repr)) && client !in cache.Repr
      ensures old(cache.initDone) || client.exclusive ==>
                cache.initDone == old(cache.initDone) && cache.initFailed == old(cache.initFailed)
      ensures old(cache.history) <= cache.history
      ensures ProjectWrites(name, cache.history, old(|cache.history|), old(client.steps), client.steps)
      ensures client.exclusive ==> cache.history == old(cache.history) && cache.index == old(cache.index)
      ensures client.exclusive ==> UserEffect(name, cache.index, old(client.cluster), client.cluster)
      ensures client.exclusive ==> ProjectOnly(name, old(client.cluster), client.cluster)
      ensures client.exclusive && outcome.Done? ==>
                && HasTargetsOf(client.cluster, name, cache.index, cache.index)
                && RolesAndRepos(old(client.cluster), client.cluster, name, publicRepos)
      ensures client.Calm() ==> outcome.Done?
    {
      ghost var i, j;
      outcome, i, j := UserProjects.ReconcileAppProject(client, cache, name, publicRepos);
      assert forall t | t in client.steps[|old(client.steps)|..] ::
               OfMoments(t.post, name, cache.history, old(|cache.history|));
    }

    /** The AppProject, then the static users; `mid` is the cluster between the two. */
    method ProvideContents(name: string, user: ArgocdUser) returns (outcome: Outcome, ghost mid: Cluster)
      requires Live(client, name) && Sound(bcrypt) && cache.Valid() && client !in cache.Repr
      modifies client`cluster, client`steps, cache.Repr
      ensures Live(client, name) && cache.Valid() && fresh(cache.Repr - old(cache.Repr))
      ensures old(cache.initDone) || client.exclusive ==>
                cache.initDone == old(cache.initDone) && cache.initFailed == old(cache.initFailed)
      ensures old(cache.history) <= cache.history
      ensures ProjectWrites(name, cache.history, old(|cache.history|), old(client.steps), client.steps)
      ensures client.exclusive ==> cache.history == old(cache.history) && cache.index == old(cache.index)
      ensures client.exclusive ==> UserEffect(name, cache.index, old(client.cluster), mid)
      ensures client.exclusive ==> ProjectOnly(name, old(client.cluster), mid) && StaticOnly(name, mid, client.cluster)
      ensures client.Calm() || (client.exclusive && outcome.Done?) ==>
                && HasTargetsOf(mid, name, cache.index, cache.index)
                && RolesAndRepos(old(client.cluster), mid, name, publicRepos)
      ensures client.exclusive && outcome.Done? ==>
                AllRolesRight(bcrypt, client.cluster, name, user, groupCRDInstalled, Mode(user))
      ensures WellFormed(mid) && (client.exclusive && Merges(user) ==> AllMembersKept(name, mid, client.cluster))
      ensures client.Calm() ==>
                StaticAnswer(bcrypt, old(client.cluster), name, user, groupCRDInstalled, Mode(user), outcome,
                             client.cluster)
    {
      outcome := ProvideProject(name);
      mid := client.cluster;
      ghost var midSteps := client.steps;
      assert client.exclusive ==> SameShared(old(client.cluster), mid);
      if outcome.Done? {
        outcome := ReconcileStaticUser(name, user);
        KeepsWrites(name, cache.history, old(|cache.history|), midSteps, client.steps);
        ProjectWritesTwice(name, cache.history, cache.history, old(|cache.history|), old(client.steps), midSteps,
                           client.steps);
        if client.Calm() {
          AnswerFromShared(bcrypt, old(client.cluster), mid, name, user, groupCRDInstalled,
                           Mode(user), outcome, client.cluster);
        }
      } else {
        NoMembersLost(name, mid);
      }
    }

    /** Membership of the Groups of this ArgocdUser is merged: nobody may be removed. */
    ghost predicate Merges(user: ArgocdUser) {
      user.authoritative == Some(false) || (user.authoritative == None && !groupMembershipAuthoritative)
    }

    /** The mode that goes for this ArgocdUser. */
    ghost function Mode(user: ArgocdUser): bool {
      AuthoritativeFor(user.authoritative, groupMembershipAuthoritative)
    }

    /** From c to c', nobody else acting, this ArgocdUser was served, as far as the outcome says. */
    ghost predicate Served(name: string, user: ArgocdUser, ix: Index, outcome: Outcome, c: Cluster, c': Cluster) {
      && UserEffect(name, ix, c, c') && OwnFrame(name, c, c')
      && (Merges(user) ==> AllMembersKept(name, c, c'))
      && (outcome.Done? ==>
            && Provided(bcrypt, c', ix, name, user, groupCRDInstalled, Mode(user))
            && RolesAndRepos(c, c', name, publicRepos))
    }

    /** No call having failed either, all but the static users is in place, and these as far as can be. */
    ghost predicate CalmlyServed(name: string, user: ArgocdUser, ix: Index, outcome: Outcome, c: Cluster, c': Cluster) {
      && Carries(c', name) && AccessRight(c', name, user.admin.users)
      && HasTargetsOf(c', name, ix, ix) && RolesAndRepos(c, c', name, publicRepos)
      && StaticAnswer(bcrypt, c, name, user, groupCRDInstalled, Mode(user), outcome, c')
    }

    lemma AccessOnly(name: string, user: ArgocdUser, ix: Index, outcome: Outcome, a: Cluster, b: Cluster)
      requires WellFormed(a) && WellFormed(b) && outcome.Error?
      requires OwnFrame(name, a, b) && SameProjects(a, b) && SameGroups(a, b)
      ensures Served(name, user, ix, outcome, a, b)
    {
      NoMembersLost(name, b);
      GroupsUntouched(name, a, b, b);
      assert forall p :: SameObject(a, b, ProjectKey(p));
    }

    lemma AccessAndContents(name: string, user: ArgocdUser, ix: Index, outcome: Outcome,
                            a: Cluster, b: Cluster, c: Cluster, d: Cluster)
      requires WellFormed(a) && WellFormed(b) && Carries(d, name)
      requires OwnFrame(name, a, b) && SameProjects(a, b) && SameGroups(a, b) && AccessRight(b, name, user.admin.users)
      requires UserEffect(name, ix, b, c) && ProjectOnly(name, b, c) && StaticOnly(name, c, d)
      requires Merges(user) ==> AllMembersKept(name, c, d)
      requires outcome.Done? ==>
                 && HasTargetsOf(c, name, ix, ix) && RolesAndRepos(b, c, name, publicRepos)
                 && AllRolesRight(bcrypt, d, name, user, groupCRDInstalled, Mode(user))
      ensures Served(name, user, ix, outcome, a, d)
    {
      ContentsAreOwn(name, a, b, c, d);
      ProvidedTogether(name, user.admin.users, publicRepos, ix, a, b, c, d);
      AfterAccess(name, Merges(user), a, b, c, d);
    }

    lemma AccessAndCalmContents(name: string, user: ArgocdUser, ix: Index, outcome: Outcome,
                                a: Cluster, b: Cluster, c: Cluster, d: Cluster)
      requires Carries(d, name) && SameProjects(a, b) && SameShared(a, b) && AccessRight(b, name, user.admin.users)
      requires UserEffect(name, ix, b, c) && ProjectOnly(name, b, c) && StaticOnly(name, c, d)
      requires HasTargetsOf(c, name, ix, ix) && RolesAndRepos(b, c, name, publicRepos)
      requires StaticAnswer(bcrypt, b, name, user, groupCRDInstalled, Mode(user), outcome, d)
      ensures CalmlyServed(name, user, ix, outcome, a, d)
    {
      ProvidedTogether(name, user.admin.users, publicRepos, ix, a, b, c, d);
      AnswerFromShared(bcrypt, a, b, name, user, groupCRDInstalled, Mode(user), outcome, d);
    }

    /** The finalizer before it makes no difference. */
    lemma ServedAfterFinalizer(name: string, user: ArgocdUser, ix: Index, outcome: Outcome, a: Cluster, b: Cluster,
                               c: Cluster)
      requires WellFormed(a) && OnlyChanged({UserKey(name)}, a, b)
      ensures Served(name, user, ix, outcome, b, c) ==> Served(name, user, ix, outcome, a, c)
      ensures CalmlyServed(name, user, ix, outcome, b, c) ==> CalmlyServed(name, user, ix, outcome, a, c)
    {
      AfterFinalizer(name, ix, publicRepos, a, b, c);
      if Served(name, user, ix, outcome, b, c) {
        OneOwnObject(name, a, b, UserKey(name));
        OwnFrameTwice(name, a, b, c);
        if Merges(user) {
          GroupsUntouched(name, a, b, c);
        }
      }
      if CalmlyServed(name, user, ix, outcome, b, c) {
        AnswerFromShared(bcrypt, a, b, name, user, groupCRDInstalled, Mode(user), outcome, c);
      }
    }

    lemma NotServed(name: string, user: ArgocdUser, ix: Index, outcome: Outcome, c: Cluster)
      requires WellFormed(c) && outcome.Error?
      ensures Served(name, user, ix, outcome, c, c)
    {
      NoMembersLost(name, c);
    }

    /** What Reconcile does for an ArgocdUser that is here to stay. */
    method Provide(name: string, user: ArgocdUser) returns (outcome: Outcome)
      requires Live(client, name) && Sound(bcrypt) && cache.Valid() && client !in cache.Repr
      modifies client`cluster, client`steps, cache.Repr
      ensures Live(client, name) && cache.Valid() && fresh(cache.Repr - old(cache.Repr))
      ensures old(cache.initDone) || client.exclusive ==>
                cache.initDone == old(cache.initDone) && cache.initFailed == old(cache.initFailed)
      ensures old(cache.history) <= cache.history && (client.exclusive ==> cache.history == old(cache.history))
      ensures ProjectWrites(name, cache.history, old(|cache.history|), old(client.steps), client.steps)
      ensures client.exclusive ==> Served(name, user, cache.index, outcome, old(client.cluster), client.cluster)
      ensures client.Calm() ==> CalmlyServed(name, user, cache.index, outcome, old(client.cluster), client.cluster)
    {
      ghost var a, ix := client.cluster, cache.index;
      outcome := ReconcileAccess(name, user);
      KeepsWrites(name, cache.history, old(|cache.history|), old(client.steps), client.steps);
      if outcome.Done? {
        ghost var b, c, midSteps := client.cluster, client.cluster, client.steps;
        outcome, c := ProvideContents(name, user);
        KeepsWrites(name, cache.history, old(|cache.history|), old(client.steps), midSteps);
        ProjectWritesTwice(name, cache.history, cache.history, old(|cache.history|), old(client.steps), midSteps,
                           client.steps);
        if client.exclusive {
          AccessAndContents(name, user, ix, outcome, a, b, c, client.cluster);
        }
        if client.Calm() {
          AccessAndCalmContents(name, user, ix, outcome, a, b, c, client.cluster);
        }
      } else if client.exclusive {
        AccessOnly(name, user, ix, outcome, a, client.cluster);
      }
    }

    /** The finalizer, if it is missing, before anything else. */
    method Admit(name: string, user: ArgocdUser, version: nat) returns (outcome: Outcome)
      requires AtWork(client, name) && Sound(bcrypt) && cache.Valid() && client !in cache.Repr && !user.deleting
      requires UserKey(name) in client.cluster.objects
                 && client.cluster.objects[UserKey(name)] == Stored(UserObject(user), version)
      modifies client`cluster, client`steps, cache.Repr
      ensures AtWork(client, name) && cache.Valid() && fresh(cache.Repr - old(cache.Repr))
      ensures old(cache.initDone) || client.exclusive ==>
                cache.initDone == old(cache.initDone) && cache.initFailed == old(cache.initFailed)
      ensures old(cache.history) <= cache.history && (client.exclusive ==> cache.history == old(cache.history))
      ensures ProjectWrites(name, cache.history, old(|cache.history|), old(client.steps), client.steps)
      ensures client.exclusive ==> Served(name, user, cache.index, outcome, old(client.cluster), client.cluster)
      ensures client.Calm() ==> CalmlyServed(name, user, cache.index, outcome, old(client.cluster), client.cluster)
    {
      outcome := AddFinalizer(client, name, user, version);
      ghost var a, b, midSteps := old(client.cluster), client.cluster, client.steps;
      KeepsWrites(name, cache.history, old(|cache.history|), old(client.steps), midSteps);
      if outcome.Done? {
        outcome := Provide(name, user);
        ProjectWritesTwice(name, old(cache.history), cache.history, old(|cache.history|), old(client.steps), midSteps,
                           client.steps);
      } else {
        NotServed(name, user, cache.index, outcome, b);
      }
      if client.exclusive {
        ServedAfterFinalizer(name, user, cache.index, outcome, a, b, client.cluster);
      }
    }

    /** What Reconcile does for an ArgocdUser marked for deletion. */
    method Dismiss(name: string, user: ArgocdUser, version: nat) returns (outcome: Outcome)
      requires Live(client, name) && client !in cache.Repr && cache.Valid() && user.deleting && user.finalizer
      requires client.cluster.objects[UserKey(name)] == Stored(UserObject(user), version)
      modifies client`cluster, client`steps
      ensures AtWork(client, name) && CleansProject(name, old(client.steps), client.steps)
      ensures outcome.Done? ==> EntriesOf(name) !! client.cluster.written
      ensures client.exclusive ==>
                Progress(name, GroupsToo(user), old(client.cluster), client.cluster, {UserKey(name)})
      ensures client.exclusive && outcome.Done? ==>
                && Cleaned(name, GroupsToo(user), old(client.cluster), client.cluster, {UserKey(name)})
                && !Carries(client.cluster, name)
      ensures client.exclusive
              && (user.authoritative == Some(false)
                  || (user.authoritative == None && !groupMembershipAuthoritative)) ==>
                forall role | IsRole(role) ::
                  SameObject(old(client.cluster), client.cluster, GroupKey(GroupName(name, role)))
      ensures client.exclusive && outcome.Done? && groupCRDInstalled
              && (user.authoritative == Some(true) || (user.authoritative == None && groupMembershipAuthoritative)) ==>
                forall role | IsRole(role) :: GroupKey(GroupName(name, role)) !in client.cluster.objects
      ensures client.exclusive ==> OwnFrame(name, old(client.cluster), client.cluster)
      ensures client.exclusive ==> UserEffect(name, cache.index, old(client.cluster), client.cluster)
      ensures client.Calm() ==> outcome.Done?
    {
      ghost var read := client.cluster;
      var authoritative := AuthoritativeFor(user.authoritative, groupMembershipAuthoritative);
      outcome := CleanupResources(client, groupCRDInstalled, name, authoritative);
      ghost var mid, midSteps := client.cluster, client.steps;
      if outcome.Done? {
        assert client.exclusive ==> CleanupFrame(name, GroupsToo(user), read, mid, UserKey(name));
        outcome := RemoveFinalizer(client, name, user, version, read);
        KeepsIsClean(name, midSteps, client.steps);
        CleansProjectTwice(name, old(client.steps), midSteps, client.steps);
      }
      if client.exclusive {
        CleanedThenChanged(name, GroupsToo(user), read, mid, client.cluster, UserKey(name));
        CleanupIsOwn(name, GroupsToo(user), read, client.cluster);
        ProgressLeavesProjects(name, GroupsToo(user), cache.index, read, client.cluster);
        if !GroupsToo(user) {
          GroupsLeftAlone(name, read, client.cluster);
        }
      }
    }

    /** The Groups of this ArgocdUser go with it. */
    ghost predicate GroupsToo(user: ArgocdUser) {
      groupCRDInstalled && AuthoritativeFor(user.authoritative, groupMembershipAuthoritative)
    }

    /**
     * One reconcile request for an ArgocdUser. Whatever fails, and whatever others do meanwhile, every
     * single step keeps the guarantee of the worker of this name, and every write to the AppProject has
     * the destinations of one single moment and the sources of one single moment. On its own, a reconcile
     * that succeeds leaves everything in place, or, for an ArgocdUser on its way out, nothing; one that
     * stops partway through a clean-up leaves each part of it either done or untouched. If nothing fails,
     * finalizer, access and AppProject are in place even if a role cannot be served.
     */
    method Reconcile(name: string) returns (outcome: Outcome)
      requires AtWork(client, name) && Sound(bcrypt) && cache.Valid() && client !in cache.Repr
      modifies client`cluster, client`steps, cache.Repr
      ensures AtWork(client, name) && cache.Valid() && fresh(cache.Repr - old(cache.Repr))
      ensures old(cache.initDone) || client.exclusive ==>
                cache.initDone == old(cache.initDone) && cache.initFailed == old(cache.initFailed)
      ensures old(cache.history) <= cache.history && (client.exclusive ==> cache.history == old(cache.history))
      ensures ProjectWrites(name, cache.history, old(|cache.history|), old(client.steps), client.steps)
      ensures client.exclusive ==> UserEffect(name, cache.index, old(client.cluster), client.cluster)
      ensures client.exclusive ==> OwnFrame(name, old(client.cluster), client.cluster)
      ensures client.exclusive && outcome.Done? && UserStays(old(client.cluster), name) ==>
                var user := old(client.cluster).objects[UserKey(name)].content.user;
                var authoritative := AuthoritativeFor(user.authoritative, groupMembershipAuthoritative);
                && Provided(bcrypt, client.cluster, cache.index, name, user, groupCRDInstalled, authoritative)
                && RolesAndRepos(old(client.cluster), client.cluster, name, publicRepos)
                && RoleRight(bcrypt, client.cluster, name, "admin", user.admin, groupCRDInstalled, authoritative)
                && RoleRight(bcrypt, client.cluster, name, "view", user.view, groupCRDInstalled, authoritative)
                && RoleRight(bcrypt, client.cluster, name, "sync", user.sync, groupCRDInstalled, authoritative)
      ensures client.exclusive && UserStays(old(client.cluster), name)
              && Merges(old(client.cluster).objects[UserKey(name)].content.user) ==>
                AllMembersKept(name, old(client.cluster), client.cluster)
      ensures client.Calm() && UserStays(old(client.cluster), name) ==>
                var user := old(client.cluster).objects[UserKey(name)].content.user;
                && Carries(client.cluster, name) && AccessRight(client.cluster, name, user.admin.users)
                && HasTargetsOf(client.cluster, name, cache.index, cache.index)
                && RolesAndRepos(old(client.cluster), client.cluster, name, publicRepos)
                && StaticAnswer(bcrypt, old(client.cluster), name, user, groupCRDInstalled,
                                AuthoritativeFor(user.authoritative, groupMembershipAuthoritative), outcome,
                                    client.cluster)
                && (Ready(bcrypt, old(client.cluster), user) ==> outcome.Done?)
      ensures client.exclusive && Leaving(old(client.cluster), name) ==>
                var user := old(client.cluster).objects[UserKey(name)].content.user;
                && Progress(name, GroupsToo(user), old(client.cluster), client.cluster, {UserKey(name)})
                && (outcome.Done? ==>
                      && Cleaned(name, GroupsToo(user), old(client.cluster), client.cluster, {UserKey(name)})
                      && !Carries(client.cluster, name))
      ensures client.exclusive && Leaving(old(client.cluster), name) ==>
                var user := old(client.cluster).objects[UserKey(name)].content.user;
                && (user.authoritative == Some(false)
                    || (user.authoritative == None && !groupMembershipAuthoritative) ==>
                      forall role | IsRole(role) ::
                        SameObject(old(client.cluster), client.cluster, GroupKey(GroupName(name, role))))
                && (outcome.Done? && groupCRDInstalled
                    && (user.authoritative == Some(true)
                        || (user.authoritative == None && groupMembershipAuthoritative)) ==>
                      forall role | IsRole(role) :: GroupKey(GroupName(name, role)) !in client.cluster.objects)
      ensures outcome.Done? && Leaving(old(client.cluster), name) ==> EntriesOf(name) !! client.cluster.written
      ensures client.exclusive && !UserStays(old(client.cluster), name) && !Leaving(old(client.cluster), name) ==>
                client.cluster == old(client.cluster)
      ensures client.Calm() && !UserStays(old(client.cluster), name) ==> outcome.Done?
    {
      var r := client.Get(UserKey(name));
      CleansWrites(name, cache.history, old(|cache.history|), old(client.steps), client.steps);
      if r.NotFound? {
        return Done;
      }
      if r.Failed? {
        if client.exclusive {
          if Leaving(client.cluster, name) {
            NoProgress(name, GroupsToo(client.cluster.objects[UserKey(name)].content.user), client.cluster);
          }
          NoMembersLost(name, client.cluster);
        }
        return Error(ApiError);
      }
      assert Typed(UserKey(name), r.value.content);
      var user := r.value.content.user;
      if user.deleting {
        if user.finalizer {
          outcome := Dismiss(name, user, r.value.version);
          CleansWrites(name, cache.history, old(|cache.history|), old(client.steps), client.steps);
        } else {
          outcome := Done;
        }
        return;
      }
      ghost var was := client.cluster;
      outcome := Admit(name, user, r.value.version);
      if client.Calm() && Ready(bcrypt, was, user) {
        ReadyIsServed(bcrypt, was, name, user, groupCRDInstalled, Mode(user), outcome, client.cluster);
      }
    }
  }

  lemma GroupsLeftAlone(name: string, c: Cluster, c': Cluster)
    requires Progress(name, false, c, c', {UserKey(name)})
    ensures forall role | IsRole(role) :: SameObject(c, c', GroupKey(GroupName(name, role)))
  {
    forall role | IsRole(role) ensures SameObject(c, c', GroupKey(GroupName(name, role))) {
      assert CleanupFrame(name, false, c, c', GroupKey(GroupName(name, role)));
    }
  }

  lemma NoProgress(name: string, groupsToo: bool, c: Cluster)
    ensures Progress(name, groupsToo, c, c, {UserKey(name)})
  {
  }

  lemma ProgressLeavesProjects(name: string, groupsToo: bool, ix: Index, c: Cluster, c': Cluster)
    requires Progress(name, groupsToo, c, c', {UserKey(name)})
    ensures UserEffect(name, ix, c, c')
  {
    forall p | p != name ensures SameObject(c, c', ProjectKey(p)) {
      assert CleanupFrame(name, groupsToo, c, c', ProjectKey(p));
    }
  }

  ghost predicate UserStays(c: Cluster, name: string) {
    UserKey(name) in c.objects && c.objects[UserKey(name)].content.UserObject?
        && !c.objects[UserKey(name)].content.user.deleting
  }
}
