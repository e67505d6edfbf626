/**
 * The client through which one worker talks to the API server. Every call may fail, and before every
 * call other workers and people may have acted, within the rely condition of this worker.
 */
module ApiClient {
  import opened Collections
  import opened MergePatch
  import opened ClusterModel

  /** NotFound is the API server's own answer; Failed is any other error, a version conflict included. */
  datatype Reply<+T> = Ok(value: T) | NotFound | Failed

  datatype Fault =
    | ApiError         // a call to the API server failed
    | Missing          // the shared ConfigMap or Secret does not exist
    | HashFailed       // bcrypt refuses the password: it has more than 72 bytes
    | NilMapWrite      // a write into the nil data map of an empty ConfigMap
    | NotInitialised   // the AppProjects could not be listed at start-up

  datatype Outcome = Done | Error(fault: Fault)

  class Client {
    const actor: Actor
    /** True when nobody else acts during the calls made through this client. */
    const exclusive: bool
    /** True when no call through this client fails for want of the API server. */
    const reliable: bool
    var cluster: Cluster
    /** The changes made through this client, each with the cluster just before and just after it. */
    ghost var steps: seq<Transition>

    constructor (actor: Actor, exclusive: bool, reliable: bool, cluster: Cluster)
      requires WellFormed(cluster)
      ensures this.actor == actor && this.exclusive == exclusive && this.reliable == reliable && this.cluster == cluster
      ensures steps == [] && Valid()
    {
      this.actor, this.exclusive, this.reliable, this.cluster := actor, exclusive, reliable, cluster;
      steps := [];
    }

    ghost predicate Valid()
      reads this
    {
      WellFormed(cluster)
    }

    /** Nobody interferes and no call fails. */
    ghost predicate Calm() {
      exclusive && reliable
    }

    /** The other clients act: any number of their steps, all of which this worker may meet. */
    method Interfere()
      requires Valid()
      modifies this`cluster
      ensures Valid() && Rely(actor, old(cluster), cluster)
      ensures exclusive ==> cluster == old(cluster)
    {
      var next: Cluster := *;
      if !exclusive && Rely(actor, cluster, next) {
        cluster := next;
      }
    }

    method Get(k: Key) returns (r: Reply<Stored>)
      requires Valid()
      modifies this`cluster
      ensures Valid() && Rely(actor, old(cluster), cluster)
      ensures exclusive ==> cluster == old(cluster)
      ensures r.Ok? ==> k in cluster.objects && r.value == cluster.objects[k]
      ensures r.NotFound? ==> k !in cluster.objects
      ensures reliable ==> !r.Failed?
    {
      Interfere();
      var fails: bool := *;
      if fails && !reliable {
        return Failed;
      }
      r := if k in cluster.objects then Ok(cluster.objects[k]) else NotFound;
    }

    /** All AppProjects with their names, in no particular order. */
    method ListProjects() returns (r: Reply<seq<(string, AppProject)>>)
      requires Valid()
      modifies this`cluster
      ensures Valid() && Rely(actor, old(cluster), cluster)
      ensures exclusive ==> cluster == old(cluster)
      ensures r.Ok? ==>
                forall n, p :: (n, p) in r.value <==>
                  ProjectKey(n) in cluster.objects && cluster.objects[ProjectKey(n)].content == ProjectObject(p)
      ensures reliable ==> r.Ok?
    {
      Interfere();
      var fails: bool := *;
      if fails && !reliable {
        return Failed;
      }
      var items: seq<(string, AppProject)> := [];
      var rest := cluster.objects.Keys;
      while rest != {}
        invariant rest <= cluster.objects.Keys
        invariant forall n, p :: (n, p) in items <==>
                    ProjectKey(n) in cluster.objects.Keys - rest
                        && cluster.objects[ProjectKey(n)].content == ProjectObject(p)
        decreases rest
      {
        var k :| k in rest;
        rest := rest - {k};
        assert Typed(k, cluster.objects[k].content);
        if k.ProjectKey? {
          items := items + [(k.name, cluster.objects[k].content.project)];
        }
      }
      r := Ok(items);
    }

    // A call that changes something may have done so although it reports a failure.

    method Create(k: Key, o: Object) returns (r: Reply<()>, ghost before: Cluster)
      requires Valid() && Typed(k, o) && (o.ProjectObject? ==> !o.project.terminating)
      modifies this`cluster, this`steps
      ensures Valid() && WellFormed(before) && Rely(actor, old(cluster), before)
      ensures exclusive ==> before == old(cluster)
      ensures Advances(before, cluster) && steps == old(steps) + Change(before, cluster)
      ensures r.Ok? || cluster != before ==> k !in before.objects && cluster == CreateEffect(before, k, o)
      ensures reliable && k !in before.objects ==> r.Ok?
    {
      Interfere();
      before := cluster;
      var fails: bool := *;
      var unanswered: bool := *;
      if (fails && !reliable) || k in cluster.objects {
        return Failed, before;
      }
      CreateAdvances(cluster, k, o);
      cluster := CreateEffect(cluster, k, o);
      steps := steps + Change(before, cluster);
      r := if unanswered && !reliable then Failed else Ok(());
    }

    /** Replaces the whole object, unless it changed since the read that gave `version`. */
    method Update(k: Key, o: Object, version: nat) returns (r: Reply<()>, ghost before: Cluster)
      requires Valid() && Typed(k, o) && !o.DataObject?
      modifies this`cluster, this`steps
      ensures Valid() && WellFormed(before) && Rely(actor, old(cluster), before)
      ensures exclusive ==> before == old(cluster)
      ensures Advances(before, cluster) && steps == old(steps) + Change(before, cluster)
      ensures r.Ok? || cluster != before ==>
                && k in before.objects && before.objects[k].version == version
                && cluster == UpdateEffect(before, k, o, actor.UserWorker?)
      ensures reliable && k in before.objects && before.objects[k].version == version ==> r.Ok?
    {
      Interfere();
      before := cluster;
      var fails: bool := *;
      var unanswered: bool := *;
      if fails && !reliable {
        return Failed, before;
      }
      if k !in cluster.objects {
        return NotFound, before;
      }
      if cluster.objects[k].version != version {
        return Failed, before;
      }
      UpdateAdvances(cluster, k, o, actor.UserWorker?);
      cluster := UpdateEffect(cluster, k, o, actor.UserWorker?);
      steps := steps + Change(before, cluster);
      r := if unanswered && !reliable then Failed else Ok(());
    }

    method Delete(k: Key) returns (r: Reply<()>, ghost before: Cluster)
      requires Valid() && !k.UserKey? && k != ConfigMapKey && k != SecretKey
      modifies this`cluster, this`steps
      ensures Valid() && WellFormed(before) && Rely(actor, old(cluster), before)
      ensures exclusive ==> before == old(cluster)
      ensures Advances(before, cluster) && steps == old(steps) + Change(before, cluster)
      ensures r.Ok? || cluster != before ==>
                && k in before.objects
                && (cluster == DeleteEffect(before, k, true) || cluster == DeleteEffect(before, k, false))
      ensures r.NotFound? ==> k !in cluster.objects && cluster == before
      ensures reliable ==> !r.Failed?
    {
      Interfere();
      before := cluster;
      var fails: bool := *;
      var unanswered: bool := *;
      if fails && !reliable {
        return Failed, before;
      }
      if k !in cluster.objects {
        return NotFound, before;
      }
      var lingers: bool := *;
      DeleteAdvances(cluster, k, lingers);
      cluster := DeleteEffect(cluster, k, lingers);
      steps := steps + Change(before, cluster);
      r := if unanswered && !reliable then Failed else Ok(());
    }

    /** Applies a merge patch to whatever the object holds now; no version is compared. */
    method PatchData(k: Key, patch: Patch) returns (r: Reply<()>, ghost before: Cluster)
      requires Valid() && (k == ConfigMapKey || k == SecretKey)
      modifies this`cluster, this`steps
      ensures Valid() && WellFormed(before) && Rely(actor, old(cluster), before)
      ensures exclusive ==> before == old(cluster)
      ensures Advances(before, cluster) && steps == old(steps) + Change(before, cluster)
      ensures r.Ok? || cluster != before ==>
                && k in before.objects && before.objects[k].content.DataObject?
                && cluster == PatchEffect(before, k, patch)
      ensures reliable && k in before.objects ==> r.Ok?
    {
      Interfere();
      before := cluster;
      var fails: bool := *;
      var unanswered: bool := *;
      if fails && !reliable {
        return Failed, before;
      }
      if k !in cluster.objects {
        return NotFound, before;
      }
      PatchAdvances(cluster, k, patch);
      cluster := PatchEffect(cluster, k, patch);
      steps := steps + Change(before, cluster);
      r := if unanswered && !reliable then Failed else Ok(());
    }
  }
}
