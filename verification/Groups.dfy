/** The OpenShift Groups of an ArgocdUser. */
module Groups {
  import opened Collections
  import opened NamesetModule
  import opened Strings
  import opened Naming
  import opened ClusterModel
  import opened ApiClient
  import opened OwnSteps

  /** groupMembershipAuthoritativeFor: the annotation wins over the cluster-wide default. */
  function AuthoritativeFor(annotation: Option<bool>, clusterDefault: bool): bool {
    match annotation
    case Some(value) => value
    case None => clusterDefault
  }

  /** The membership a Group should end up with. */
  ghost function Desired(existing: seq<string>, declared: seq<string>, authoritative: bool): seq<string> {
    Canonical(if authoritative then Elements(declared) else Elements(existing) + Elements(declared))
  }

  /** The members a Group holds that the ArgocdUser does not declare. */
  ghost function Undeclared(existing: seq<string>, declared: seq<string>): seq<string> {
    Canonical(Elements(existing) - Elements(declared))
  }

  method DesiredGroupUsers(existing: seq<string>, declared: seq<string>, authoritative: bool)
    returns (desired: seq<string>, undeclared: seq<string>)
    ensures desired == Desired(existing, declared, authoritative)
    ensures undeclared == Undeclared(existing, declared)
    ensures StrictlySorted(desired) && StrictlySorted(undeclared)
    ensures Elements(desired) == if authoritative then Elements(declared) else Elements(existing) + Elements(declared)
    ensures Elements(undeclared) == Elements(existing) - Elements(declared)
  {
    var declaredSet := new Nameset<string>();
    for i := 0 to |declared|
      invariant declaredSet.Members() == Elements(declared[..i])
    {
      ListingPrefix(declared, i);
      declaredSet.Add(declared[i]);
    }
    assert declared[..|declared|] == declared;
    var undeclaredSet := new Nameset<string>();
    for i := 0 to |existing|
      invariant declaredSet.Members() == Elements(declared)
      invariant undeclaredSet.Members() == Elements(existing[..i]) - Elements(declared)
    {
      ListingPrefix(existing, i);
      if !declaredSet.Contains(existing[i]) {
        undeclaredSet.Add(existing[i]);
      }
    }
    assert existing[..|existing|] == existing;
    var items := undeclaredSet.All();
    undeclared := SortNames(items);
    CanonicalIs(undeclared, Elements(existing) - Elements(declared));
    if authoritative {
      desired := MergeStringSlices(declared, []);
      assert Elements(declared) + Elements([]) == Elements(declared);
    } else {
      desired := MergeStringSlices(existing, declared);
    }
  }

  /**
   * Reconciling a Group settles in one round: applied to its own result it changes nothing. It then
   * reports the same drift when it merges, and none when it is authoritative.
   */
  lemma GroupSettles(existing: seq<string>, declared: seq<string>, authoritative: bool)
    ensures var desired := Desired(existing, declared, authoritative);
      && Desired(desired, declared, authoritative) == desired
      && StrictlySorted(desired)
      && Undeclared(desired, declared) == if authoritative then [] else Undeclared(existing, declared)
  {
    var desired := Desired(existing, declared, authoritative);
    if authoritative {
      assert Elements(desired) - Elements(declared) == {};
      CanonicalIs([], {});
    } else {
      assert Elements(desired) + Elements(declared) == Elements(existing) + Elements(declared);
      assert Elements(desired) - Elements(declared) == Elements(existing) - Elements(declared);
    }
  }

  /**
   * A Group that is created holds the declared list as written; the next reconcile leaves it alone
   * exactly if that list is strictly sorted already.
   */
  lemma CreatedGroupSettles(declared: seq<string>, authoritative: bool)
    ensures Desired(declared, declared, authoritative) == declared <==> StrictlySorted(declared)
  {
    assert Elements(declared) + Elements(declared) == Elements(declared);
    if StrictlySorted(declared) {
      CanonicalIs(declared, Elements(declared));
    }
  }

  /** In this change every member of the Group before is still a member after. */
  ghost predicate MembersKept(t: Transition, k: Key) {
    k in t.pre.objects ==>
      k in t.post.objects && t.pre.objects[k].content.GroupObject? && t.post.objects[k].content.GroupObject?
      && Elements(t.pre.objects[k].content.users) <= Elements(t.post.objects[k].content.users)
  }

  /** However many such changes follow one another, nobody is ever removed. */
  lemma {:induction false} MembersOnlyGrow(run: seq<Cluster>, k: Key)
    requires run != [] && k in run[0].objects && run[0].objects[k].content.GroupObject?
    requires forall i | 0 <= i < |run| - 1 ::
               SameObject(run[i], run[i + 1], k) || MembersKept(Transition(run[i], run[i + 1]), k)
    ensures var last := run[|run| - 1];
      k in last.objects && last.objects[k].content.GroupObject?
      && Elements(run[0].objects[k].content.users) <= Elements(last.objects[k].content.users)
  {
    if |run| > 1 {
      assert SameObject(run[0], run[0 + 1], k) || MembersKept(Transition(run[0], run[0 + 1]), k);
      forall i | 0 <= i < |run[1..]| - 1
        ensures SameObject(run[1..][i], run[1..][i + 1], k) || MembersKept(Transition(run[1..][i], run[1..][i + 1]), k)
      {
        assert SameObject(run[i + 1], run[i + 1 + 1], k) || MembersKept(Transition(run[i + 1], run[i + 1 + 1]), k);
      }
      MembersOnlyGrow(run[1..], k);
    }
  }

  /** Writes still to come for one Group: two while it is missing, one while its list is not the desired one. */
  ghost function GroupDebt(c: Cluster, name: string, role: string, declared: seq<string>, authoritative: bool): nat {
    var k := GroupKey(GroupName(name, role));
    if k !in c.objects || !c.objects[k].content.GroupObject? then 2
    else if c.objects[k].content.users == Desired(c.objects[k].content.users, declared, authoritative) then 0
    else 1
  }

  /** What one reconcile makes of the Group under `k`. */
  ghost predicate GroupReconciled(c: Cluster, c': Cluster, k: Key, declared: seq<string>, authoritative: bool) {
    k in c'.objects
    && c'.objects[k].content
       == GroupObject(if k in c.objects && c.objects[k].content.GroupObject?
                      then Desired(c.objects[k].content.users, declared, authoritative) else declared)
  }

  /** ReconcileArgoUsersGroup; `undeclared` is what it reports as drift. */
  method ReconcileArgoUsersGroup(client: Client, installed: bool, name: string, role: string, declared: seq<string>,
                                 authoritative: bool)
    returns (outcome: Outcome, undeclared: seq<string>)
    requires Live(client, name) && IsRole(role)
    modifies client`cluster, client`steps
    ensures Live(client, name) && KeepsProjects(old(client.steps), client.steps)
    ensures !installed ==>
              && outcome.Done? && undeclared == []
              && client.cluster == old(client.cluster) && client.steps == old(client.steps)
    ensures !authoritative ==>
              forall t | t in client.steps[|old(client.steps)|..] :: MembersKept(t, GroupKey(GroupName(name, role)))
    ensures client.exclusive ==> OnlyChanged({GroupKey(GroupName(name, role))}, old(client.cluster), client.cluster)
    ensures client.exclusive && !authoritative ==>
              MembersKept(Transition(old(client.cluster), client.cluster), GroupKey(GroupName(name, role)))
    ensures var k := GroupKey(GroupName(name, role));
      client.exclusive && installed && outcome.Done? ==>
        && GroupReconciled(old(client.cluster), client.cluster, k, declared, authoritative)
        && undeclared == if k in old(client.cluster).objects
                         then Undeclared(old(client.cluster).objects[k].content.users, declared) else []
    ensures client.exclusive && !outcome.Done? ==>
              || client.cluster == old(client.cluster)
              || GroupReconciled(old(client.cluster), client.cluster, GroupKey(GroupName(name, role)), declared,
                                 authoritative)
    ensures client.exclusive ==>
              |client.steps| - |old(client.steps)| + GroupDebt(client.cluster, name, role, declared, authoritative)
              <= GroupDebt(old(client.cluster), name, role, declared, authoritative)
    ensures client.Calm() ==> outcome.Done?
  {
    undeclared := [];
    if !installed {
      return Done, undeclared;
    }
    var k := GroupKey(GroupName(name, role));
    var r := client.Get(k);
    if r.NotFound? {
      var created, _ := CreateOwn(client, name, k, GroupObject(declared));
      return if created then Done else Error(ApiError), undeclared;
    }
    if r.Failed? {
      return Error(ApiError), undeclared;
    }
    assert Typed(k, r.value.content);
    var users := r.value.content.users;
    var desired;
    desired, undeclared := DesiredGroupUsers(users, declared, authoritative);
    GroupSettles(users, declared, authoritative);
    outcome := Done;
    var bothEmpty := |users| == 0 && |desired| == 0;
    // Lists of different Go types are never deeply equal; whether these two are is the Group API's choice.
    var typesDiffer: bool := *;
    if !bothEmpty && (typesDiffer || users != desired) {
      var updated, _ := UpdateOwn(client, name, k, GroupObject(desired), r.value.version, client.cluster);
      if !updated {
        outcome := Error(ApiError);
      }
    }
  }
}
