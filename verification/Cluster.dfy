/**
 * The API server as the two controllers see it: a map of objects with resource versions, the effect of
 * every call that changes it, and the rely/guarantee conditions under which the workers share it.
 */
module ClusterModel {
  import opened Collections
  import opened Naming
  import opened MergePatch

  datatype RoleSpec = RoleSpec(ciPass: string, users: seq<string>)

  /**
   * `authoritative` is the parsed authoritative-groups annotation (None when absent or unparseable);
   * `finalizer` says whether this operator's finalizer is on the object, `otherFinalizers` any other.
   */
  datatype ArgocdUser = ArgocdUser(
    admin: RoleSpec, view: RoleSpec, sync: RoleSpec,
    authoritative: Option<bool>, finalizer: bool, otherFinalizers: bool, deleting: bool)

  datatype Destination = Destination(ns: string, server: string)

  /** The roles of an AppProject: those the operator derives from the team name, or something else. */
  datatype ProjectRoles = RolesOf(team: string) | OtherRoles(tag: int)

  datatype AppProject = AppProject(
    destinations: seq<Destination>, sourceNamespaces: seq<string>, sourceRepos: seq<string>,
    roles: ProjectRoles, terminating: bool)

  datatype RoleRef = RoleRef(kind: string, name: string)
  datatype Binding = Binding(owners: seq<string>, subjects: seq<string>, roleRef: RoleRef)
  datatype ClusterRole = ClusterRole(owners: seq<string>, rules: seq<string>)

  datatype Key =
    | UserKey(name: string)
    | ProjectKey(name: string)
    | GroupKey(name: string)
    | ClusterRoleKey(name: string)
    | BindingKey(name: string)
    | NamespaceKey(name: string)
    | ConfigMapKey  // argocd-cm
    | SecretKey     // argocd-secret

  datatype Object =
    | UserObject(user: ArgocdUser)
    | ProjectObject(project: AppProject)
    | GroupObject(users: seq<string>)
    | ClusterRoleObject(clusterRole: ClusterRole)
    | BindingObject(binding: Binding)
    | NamespaceObject(projectsLabel: string, sourceLabel: string)
    | DataObject(data: Data)

  datatype Stored = Stored(content: Object, version: nat)

  /** Something the operator creates for one ArgocdUser and must remove again. */
  datatype Entry =
    | ProjectEntry(name: string)
    | DataEntry(key: Key, dataKey: string)

  /**
   * `written` is a history variable: the entries that are there now and that the operator put there or,
   * for an AppProject, last brought in line for its ArgocdUser.
   * `clock` is the last resource version handed out.
   */
  datatype Cluster = Cluster(objects: map<Key, Stored>, written: set<Entry>, clock: nat)

  predicate Typed(k: Key, o: Object) {
    match k
    case UserKey(_) => o.UserObject?
    case ProjectKey(_) => o.ProjectObject?
    case GroupKey(_) => o.GroupObject?
    case ClusterRoleKey(_) => o.ClusterRoleObject?
    case BindingKey(_) => o.BindingObject?
    case NamespaceKey(_) => o.NamespaceObject?
    case ConfigMapKey => o.DataObject?
    case SecretKey => o.DataObject?
  }

  predicate Present(c: Cluster, e: Entry) {
    match e
    case ProjectEntry(n) =>
      ProjectKey(n) in c.objects
      && var o := c.objects[ProjectKey(n)].content; o.ProjectObject? && !o.project.terminating
    case DataEntry(k, x) =>
      k in c.objects && var o := c.objects[k].content; o.DataObject? && x in o.data
  }

  predicate WellFormed(c: Cluster) {
    && (forall k | k in c.objects :: Typed(k, c.objects[k].content) && c.objects[k].version <= c.clock)
    && (forall e | e in c.written :: Present(c, e))
  }

  predicate Carries(c: Cluster, name: string) {
    UserKey(name) in c.objects
    && var o := c.objects[UserKey(name)].content; o.UserObject? && o.user.finalizer
  }

  function AccountEntry(name: string, role: string): Entry {
    DataEntry(ConfigMapKey, AccountKey(name, role))
  }

  function PasswordEntry(name: string, role: string): Entry {
    DataEntry(SecretKey, PasswordKey(name, role))
  }

  function EntriesOf(name: string): set<Entry> {
    {ProjectEntry(name)}
    + (set role | role in GROUP_ROLES :: AccountEntry(name, role))
    + (set role | role in GROUP_ROLES :: PasswordEntry(name, role))
  }

  lemma EntriesDisjoint(n: string, m: string)
    requires n != m
    ensures EntriesOf(n) !! EntriesOf(m)
  {
    forall role, role' | role in GROUP_ROLES && role' in GROUP_ROLES
      ensures AccountEntry(n, role) != AccountEntry(m, role') && PasswordEntry(n, role) != PasswordEntry(m, role')
    {
      if AccountKey(n, role) == AccountKey(m, role') {
        AccountKeyInjective(n, role, m, role');
      }
      if PasswordKey(n, role) == PasswordKey(m, role') {
        PasswordKeyInjective(n, role, m, role');
      }
    }
  }

  // ---- The effect of the calls that change the cluster ----

  /** Writing what is stored already changes nothing: no new version is handed out, and no watch fires. */
  function Put(c: Cluster, k: Key, o: Object): Cluster {
    if k in c.objects && c.objects[k].content == o then c
    else c.(objects := c.objects[k := Stored(o, c.clock + 1)], clock := c.clock + 1)
  }

  function Drop(c: Cluster, k: Key): Cluster {
    c.(objects := c.objects - {k}, clock := c.clock + 1)
  }

  function CreateEffect(c: Cluster, k: Key, o: Object): Cluster {
    var d := Put(c, k, o);
    if k.ProjectKey? then d.(written := d.written + {ProjectEntry(k.name)}) else d
  }

  /** The mark of deletion belongs to the server; an update cannot change it. */
  function KeepMark(stored: Object, o: Object): Object {
    if o.UserObject? && stored.UserObject? then UserObject(o.user.(deleting := stored.user.deleting))
    else if o.ProjectObject? && stored.ProjectObject?
        then ProjectObject(o.project.(terminating := stored.project.terminating))
    else o
  }

  /**
   * An object marked for deletion goes away when an update removes its last finalizer. An AppProject that
   * an ArgocdUser worker updates (`adopts`) counts as written for that ArgocdUser from then on.
   */
  function UpdateEffect(c: Cluster, k: Key, o: Object, adopts: bool): Cluster
    requires k in c.objects
  {
    var o' := KeepMark(c.objects[k].content, o);
    if o'.UserObject? && o'.user.deleting && !o'.user.finalizer && !o'.user.otherFinalizers then Drop(c, k)
    else
      var d := Put(c, k, o');
      if adopts && k.ProjectKey? && o'.ProjectObject? && !o'.project.terminating
      then d.(written := d.written + {ProjectEntry(k.name)}) else d
  }

  /** `lingers`: the AppProject carries finalizers of its own, so deleting it only marks it as terminating. */
  function DeleteEffect(c: Cluster, k: Key, lingers: bool): Cluster
    requires k in c.objects
  {
    var o := c.objects[k].content;
    var d := if o.ProjectObject? && lingers then Put(c, k, ProjectObject(o.project.(terminating := true)))
             else Drop(c, k);
    if k.ProjectKey? then d.(written := d.written - {ProjectEntry(k.name)}) else d
  }

  /**
   * An AppProject counts as written from when its ArgocdUser's worker creates or updates it, unless it is
   * terminating, until it is deleted; what the namespace controller updates counts as before.
   */
  lemma ProjectsAreRecorded(c: Cluster, n: string, o: Object, lingers: bool)
    requires WellFormed(c) && o.ProjectObject?
    ensures var d := CreateEffect(c, ProjectKey(n), o);
      d.written == c.written + {ProjectEntry(n)} && d.objects[ProjectKey(n)].content == o
    ensures ProjectKey(n) in c.objects ==>
              && UpdateEffect(c, ProjectKey(n), o, false).written == c.written
              && DeleteEffect(c, ProjectKey(n), lingers).written == c.written - {ProjectEntry(n)}
              && var d := UpdateEffect(c, ProjectKey(n), o, true);
                 (ProjectEntry(n) in d.written <==> !c.objects[ProjectKey(n)].content.project.terminating)
                 && d.written - {ProjectEntry(n)} == c.written - {ProjectEntry(n)}
  {
    assert ProjectKey(n) in c.objects ==> Typed(ProjectKey(n), c.objects[ProjectKey(n)].content);
    assert ProjectEntry(n) in c.written ==> Present(c, ProjectEntry(n));
  }

  function PatchEffect(c: Cluster, k: Key, patch: Patch): Cluster
    requires k in c.objects && c.objects[k].content.DataObject?
  {
    Put(c, k, DataObject(Apply(c.objects[k].content.data, patch))).(written := WrittenAfter(c.written, k, patch))
  }

  function WrittenAfter(written: set<Entry>, k: Key, patch: Patch): set<Entry> {
    match patch
    case NoChange => written
    case DropData => set e | e in written && !(e.DataEntry? && e.key == k)
    case Members(m) =>
      written - (set x | x in m && m[x].None? :: DataEntry(k, x)) + (set x | x in m && m[x].Some? :: DataEntry(k, x))
  }

  // ---- Rely: what a worker may count on while others act ----

  /** Resource versions only move forward, and an object that changed carries a version that is new. */
  predicate Advances(c: Cluster, c': Cluster) {
    && WellFormed(c')
    && c.clock <= c'.clock
    && forall k | k in c'.objects ::
         (k in c.objects && c.objects[k] == c'.objects[k]) || c.clock < c'.objects[k].version
  }

  lemma PatchAdvances(c: Cluster, k: Key, patch: Patch)
    requires WellFormed(c) && (k == ConfigMapKey || k == SecretKey) && k in c.objects
    ensures Advances(c, PatchEffect(c, k, patch))
  {
    var d := PatchEffect(c, k, patch);
    assert Typed(k, c.objects[k].content);
    forall e | e in d.written ensures Present(d, e) {
      assert e in c.written ==> Present(c, e);
    }
  }

  lemma CreateAdvances(c: Cluster, k: Key, o: Object)
    requires WellFormed(c) && Typed(k, o) && k !in c.objects && (o.ProjectObject? ==> !o.project.terminating)
    ensures Advances(c, CreateEffect(c, k, o))
  {
  }

  lemma UpdateAdvances(c: Cluster, k: Key, o: Object, adopts: bool)
    requires WellFormed(c) && Typed(k, o) && k in c.objects && !o.DataObject?
    ensures Advances(c, UpdateEffect(c, k, o, adopts))
  {
    var d := UpdateEffect(c, k, o, adopts);
    forall e | e in d.written ensures Present(d, e) {
      assert e in c.written ==> Present(c, e);
    }
  }

  lemma DeleteAdvances(c: Cluster, k: Key, lingers: bool)
    requires WellFormed(c) && k in c.objects && k != ConfigMapKey && k != SecretKey
    ensures Advances(c, DeleteEffect(c, k, lingers))
  {
  }

  /** An update is accepted only if the object is still the one that was read. */
  lemma SameVersionSameObject(c: Cluster, c': Cluster, k: Key)
    requires WellFormed(c) && Advances(c, c') && k in c.objects && k in c'.objects
    requires c.objects[k].version == c'.objects[k].version
    ensures c.objects[k] == c'.objects[k]
  {
  }

  datatype Actor = UserWorker(name: string) | NamespaceWorker

  /** The ArgocdUser carries the finalizer and is marked for deletion. */
  predicate Leaving(c: Cluster, name: string) {
    Carries(c, name) && c.objects[UserKey(name)].content.user.deleting
  }

  /**
   * Nobody but the worker of a name takes the finalizer off that ArgocdUser, nobody takes back the mark of
   * deletion, and nobody but that worker creates entries for it.
   */
  predicate Rely(actor: Actor, c: Cluster, c': Cluster) {
    && Advances(c, c')
    && (actor.UserWorker? ==>
          && (Carries(c, actor.name) ==> Carries(c', actor.name))
          && (Leaving(c, actor.name) ==> Leaving(c', actor.name))
          && EntriesOf(actor.name) * c'.written <= c.written)
  }

  lemma RelyReflexive(actor: Actor, c: Cluster)
    requires WellFormed(c)
    ensures Rely(actor, c, c)
  {
  }

  lemma RelyTransitive(actor: Actor, a: Cluster, b: Cluster, c: Cluster)
    requires Rely(actor, a, b) && Rely(actor, b, c)
    ensures Rely(actor, a, c)
  {
  }

  // ---- Guarantee: what every single step of a worker keeps ----

  function OwnDataKeys(name: string, k: Key): set<string> {
    if k == ConfigMapKey then set role | role in GROUP_ROLES :: AccountKey(name, role)
    else if k == SecretKey then set role | role in GROUP_ROLES :: PasswordKey(name, role)
    else {}
  }

  function OwnObjects(name: string): set<Key> {
    {UserKey(name), ProjectKey(name), ClusterRoleKey(ClusterRoleName(name)), BindingKey(BindingName(name))}
    + set role | role in GROUP_ROLES :: GroupKey(GroupName(name, role))
  }

  ghost predicate SameObject(c: Cluster, c': Cluster, k: Key) {
    (k in c.objects <==> k in c'.objects) && (k in c.objects ==> c.objects[k] == c'.objects[k])
  }

  /** A ConfigMap or Secret that holds no data. */
  ghost predicate Emptied(c: Cluster, k: Key) {
    k in c.objects && c.objects[k].content == DataObject(map[])
  }

  ghost predicate SameData(c: Cluster, c': Cluster, k: Key, x: string) {
    && k in c.objects && c.objects[k].content.DataObject?
    && k in c'.objects && c'.objects[k].content.DataObject?
    && MergePatch.SameAt(c.objects[k].content.data, c'.objects[k].content.data, x)
  }

  /**
   * In a shared ConfigMap or Secret a worker changes only the data keys of its own name. The exception is
   * the clean-up of an ArgocdUser on its way out, which may empty the object.
   */
  ghost predicate DataFrame(name: string, c: Cluster, c': Cluster, k: Key) {
    || SameObject(c, c', k)
    || (forall x | x !in OwnDataKeys(name, k) :: SameData(c, c', k, x))
    || (Leaving(c, name) && k in c.objects && c.objects[k].content.DataObject? && Emptied(c', k))
  }

  /** The ArgocdUser itself is never created, and only its finalizer changes; that goes last. */
  ghost predicate FinalizerRule(name: string, c: Cluster, c': Cluster) {
    var k := UserKey(name);
    && (k in c'.objects ==> k in c.objects)
    && (k in c.objects && k in c'.objects ==>
          var o, o' := c.objects[k].content, c'.objects[k].content;
          o.UserObject? && o'.UserObject? && o'.user == o.user.(finalizer := o'.user.finalizer))
    && (k in c.objects && k !in c'.objects ==> Carries(c, name))
    && (Carries(c, name) && !Carries(c', name) ==>
          c.objects[k].content.user.deleting && EntriesOf(name) !! c'.written)
  }

  ghost predicate WrittenRule(name: string, c: Cluster, c': Cluster) {
    && (forall e | e in c'.written && e !in c.written :: e in EntriesOf(name) && Carries(c', name))
    && (forall e | e in c.written && e !in c'.written :: e in EntriesOf(name) || (e.DataEntry? && Emptied(c', e.key)))
  }

  /** A repository once listed in an AppProject is never dropped from it. */
  ghost predicate KeepsRepos(c: Cluster, c': Cluster) {
    forall p | ProjectKey(p) in c.objects && ProjectKey(p) in c'.objects ::
      var o, o' := c.objects[ProjectKey(p)].content, c'.objects[ProjectKey(p)].content;
      o.ProjectObject? && o'.ProjectObject? ==> Elements(o.project.sourceRepos) <= Elements(o'.project.sourceRepos)
  }

  /** The API server rejects a change of roleRef, so no step may attempt one. */
  ghost predicate KeepsRoleRef(c: Cluster, c': Cluster) {
    forall b | BindingKey(b) in c.objects && BindingKey(b) in c'.objects ::
      var o, o' := c.objects[BindingKey(b)].content, c'.objects[BindingKey(b)].content;
      o.BindingObject? && o'.BindingObject? ==> o.binding.roleRef == o'.binding.roleRef
  }

  ghost predicate Guarantee(name: string, c: Cluster, c': Cluster) {
    && Advances(c, c')
    && (forall k | k !in OwnObjects(name) && k != ConfigMapKey && k != SecretKey :: SameObject(c, c', k))
    && DataFrame(name, c, c', ConfigMapKey)
    && DataFrame(name, c, c', SecretKey)
    && FinalizerRule(name, c, c')
    && WrittenRule(name, c, c')
    && KeepsRepos(c, c')
    && KeepsRoleRef(c, c')
  }

  ghost predicate SameExceptTargets(o: Object, o': Object) {
    && o.ProjectObject? && o'.ProjectObject?
    && o'.project == o.project.(destinations := o'.project.destinations,
                                sourceNamespaces := o'.project.sourceNamespaces)
  }

  /** The namespace controller only ever rewrites the destinations and source namespaces of existing AppProjects. */
  ghost predicate NamespaceGuarantee(c: Cluster, c': Cluster) {
    && Advances(c, c')
    && c'.written == c.written
    && (forall k :: k in c.objects <==> k in c'.objects)
    && (forall k | k in c.objects ::
          SameObject(c, c', k) || SameExceptTargets(c.objects[k].content, c'.objects[k].content))
  }

  datatype Transition = Transition(pre: Cluster, post: Cluster)

  /** The log of a call: nothing if it changed nothing. */
  function Change(pre: Cluster, post: Cluster): seq<Transition> {
    if pre == post then [] else [Transition(pre, post)]
  }

  ghost predicate StepKept(actor: Actor, t: Transition) {
    match actor
    case UserWorker(n) => Guarantee(n, t.pre, t.post)
    case NamespaceWorker => NamespaceGuarantee(t.pre, t.post)
  }

  ghost predicate Obeys(actor: Actor, steps: seq<Transition>) {
    forall t | t in steps :: StepKept(actor, t)
  }
}
