/** The ClusterRole and ClusterRoleBinding of an ArgocdUser. */
module Bindings {
  import opened Collections
  import opened Naming
  import opened ClusterModel
  import opened ApiClient
  import opened OwnSteps

  method ReconcileClusterRole(client: Client, name: string) returns (outcome: Outcome)
    requires Live(client, name)
    modifies client`cluster, client`steps
    ensures Live(client, name) && KeepsProjects(old(client.steps), client.steps)
    ensures client.exclusive ==>
              OnlyChanged({ClusterRoleKey(ClusterRoleName(name))}, old(client.cluster), client.cluster)
    ensures outcome.Done? ==>
              ClusterRoleKey(ClusterRoleName(name)) in client.cluster.objects
              && client.cluster.objects[ClusterRoleKey(ClusterRoleName(name))].content
                   == ClusterRoleObject(ClusterRole([name], [name]))
    ensures client.Calm() ==> outcome.Done?
  {
    var k := ClusterRoleKey(ClusterRoleName(name));
    var desired := ClusterRole([name], [name]);
    var r := client.Get(k);
    if r.NotFound? {
      var created, _ := CreateOwn(client, name, k, ClusterRoleObject(desired));
      return if created then Done else Error(ApiError);
    }
    if r.Failed? {
      return Error(ApiError);
    }
    assert Typed(k, r.value.content);
    var existing := r.value.content.clusterRole;
    var needsUpdate := false;
    if existing.owners != desired.owners {
      existing := existing.(owners := desired.owners);
      needsUpdate := true;
    }
    if existing.rules != desired.rules {
      existing := existing.(rules := desired.rules);
      needsUpdate := true;
    }
    if needsUpdate {
      var updated, _ := UpdateOwn(client, name, k, ClusterRoleObject(existing), r.value.version, client.cluster);
      if !updated {
        return Error(ApiError);
      }
    }
    outcome := Done;
  }

  /** The binding under `k` is exactly `b`. */
  ghost predicate BindingIs(c: Cluster, k: Key, b: Binding) {
    k in c.objects && c.objects[k].content == BindingObject(b)
  }

  /**
   * From any earlier state, one call without errors leaves exactly the desired binding, whoever else
   * acts meanwhile. A failure leaves the earlier one, or the desired one if only the answer was lost, or
   * none at all if the roleRef was wrong and only the Delete took effect. A binding that is right stays.
   */
  method ReconcileClusterRoleBinding(client: Client, name: string, admins: seq<string>) returns (outcome: Outcome)
    requires Live(client, name)
    modifies client`cluster, client`steps
    ensures Live(client, name) && KeepsProjects(old(client.steps), client.steps)
    ensures outcome.Done? ==>
              && BindingKey(BindingName(name)) in client.cluster.objects
              && client.cluster.objects[BindingKey(BindingName(name))].content.BindingObject?
              && var b := client.cluster.objects[BindingKey(BindingName(name))].content.binding;
                 && b.owners == [name] && b.subjects == admins
                 && b.roleRef.kind == "ClusterRole" && b.roleRef.name == ClusterRoleName(name)
    ensures var k := BindingKey(BindingName(name));
      var desired := Binding([name], admins, RoleRef("ClusterRole", ClusterRoleName(name)));
      client.exclusive ==>
        && OnlyChanged({k}, old(client.cluster), client.cluster)
        && (BindingIs(old(client.cluster), k, desired) ==> client.cluster == old(client.cluster))
        && (|| SameObject(old(client.cluster), client.cluster, k)
            || BindingIs(client.cluster, k, desired)
            || (k in old(client.cluster).objects && k !in client.cluster.objects
                && old(client.cluster).objects[k].content.binding.roleRef != desired.roleRef))
    ensures client.Calm() ==> outcome.Done?
  {
    var k := BindingKey(BindingName(name));
    var desired := Binding([name], admins, RoleRef("ClusterRole", ClusterRoleName(name)));
    var r := client.Get(k);
    if r.NotFound? {
      var created, _ := CreateOwn(client, name, k, BindingObject(desired));
      return if created then Done else Error(ApiError);
    }
    if r.Failed? {
      return Error(ApiError);
    }
    assert Typed(k, r.value.content);
    var existing := r.value.content.binding;
    var needsUpdate, needsRecreate := false, false;
    if existing.owners != desired.owners {
      existing := existing.(owners := desired.owners);
      needsUpdate := true;
    }
    // An empty list of subjects reads back as nil, which is never equal to the list that was built.
    if existing.subjects != desired.subjects || desired.subjects == [] {
      existing := existing.(subjects := desired.subjects);
      needsUpdate := true;
    }
    if existing.roleRef != desired.roleRef {
      needsRecreate := true;
    }
    if needsRecreate {
      outcome := Recreate(client, name, k, desired);
    } else if needsUpdate {
      var updated, _ := UpdateOwn(client, name, k, BindingObject(existing), r.value.version, client.cluster);
      if !updated {
        return Error(ApiError);
      }
      outcome := Done;
    } else {
      outcome := Done;
    }
  }

  /** The API server does not let a roleRef be changed, so the binding is deleted and created again. */
  method Recreate(client: Client, name: string, k: Key, desired: Binding) returns (outcome: Outcome)
    requires Live(client, name) && k == BindingKey(BindingName(name))
    modifies client`cluster, client`steps
    ensures Live(client, name) && KeepsProjects(old(client.steps), client.steps)
    ensures outcome.Done? ==> BindingIs(client.cluster, k, desired)
    ensures client.exclusive ==>
              && OnlyChanged({k}, old(client.cluster), client.cluster)
              && (|| SameObject(old(client.cluster), client.cluster, k)
                  || BindingIs(client.cluster, k, desired) || k !in client.cluster.objects)
    ensures client.Calm() && k in old(client.cluster).objects ==> outcome.Done?
  {
    var deleted, _ := DeleteOwn(client, name, k);
    if !deleted.Ok? {
      return Error(ApiError);
    }
    ghost var mid := client.steps;
    var created, _ := CreateOwn(client, name, k, BindingObject(desired));
    KeepsProjectsTwice(old(client.steps), mid, client.steps);
    outcome := if created then Done else Error(ApiError);
  }
}
