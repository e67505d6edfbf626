/** The kinds of change an ArgocdUser worker makes, and why each keeps its guarantee. */
module OwnSteps {
  import opened Collections
  import opened Naming
  import opened MergePatch
  import opened ClusterModel
  import opened ApiClient

  /** The worker of `name` is at work on an ArgocdUser that carries the finalizer. */
  ghost predicate Live(client: Client, name: string)
    reads client
  {
    && client.Valid() && client.actor == UserWorker(name)
    && Obeys(client.actor, client.steps)
    && Carries(client.cluster, name)
  }

  /** Nothing but the objects under `ks` differs. */
  ghost predicate OnlyChanged(ks: set<Key>, c: Cluster, c': Cluster) {
    c'.written == c.written && forall k | k !in ks :: SameObject(c, c', k)
  }

  /** No change since then touched an AppProject. */
  ghost predicate KeepsProjects(before: seq<Transition>, after: seq<Transition>) {
    && before <= after
    && forall t | t in after[|before|..] :: SameProjects(t.pre, t.post)
  }

  ghost predicate SameProjects(c: Cluster, c': Cluster) {
    forall p :: SameObject(c, c', ProjectKey(p))
  }

  lemma KeepsProjectsTwice(a: seq<Transition>, b: seq<Transition>, c: seq<Transition>)
    requires KeepsProjects(a, b) && KeepsProjects(b, c)
    ensures KeepsProjects(a, c)
  {
    assert c[|a|..] == b[|a|..] + c[|b|..];
  }

  lemma ChangeKeepsProjects(steps: seq<Transition>, c: Cluster, d: Cluster, k: Key)
    requires c == d || ((forall k' | k' != k :: SameObject(c, d, k')) && !k.ProjectKey?)
    ensures KeepsProjects(steps, steps + Change(c, d))
  {
    assert (steps + Change(c, d))[|steps|..] == Change(c, d);
    if c != d {
      forall p ensures SameObject(c, d, ProjectKey(p)) {
      }
    }
  }

  /** A ClusterRole, binding or Group that belongs to `name`. */
  ghost predicate PlainOwn(name: string, k: Key) {
    k in OwnObjects(name) && (k.ClusterRoleKey? || k.BindingKey? || k.GroupKey?)
  }

  /** Changing nothing but one ClusterRole, binding or Group of one's own keeps the guarantee. */
  lemma OwnChange(name: string, c: Cluster, d: Cluster, k: Key)
    requires Advances(c, d) && PlainOwn(name, k) && OnlyChanged({k}, c, d)
    requires k.BindingKey? && k in c.objects && k in d.objects
             && c.objects[k].content.BindingObject? && d.objects[k].content.BindingObject? ==>
               c.objects[k].content.binding.roleRef == d.objects[k].content.binding.roleRef
    ensures Guarantee(name, c, d) && Carries(d, name) == Carries(c, name)
    ensures Leaving(d, name) == Leaving(c, name)
  {
    assert SameObject(c, d, UserKey(name)) && SameObject(c, d, ConfigMapKey) && SameObject(c, d, SecretKey);
    assert forall p :: SameObject(c, d, ProjectKey(p));
    forall b | BindingKey(b) != k ensures SameObject(c, d, BindingKey(b)) {
    }
  }

  /** Creating or replacing a ClusterRole, binding or Group of one's own. */
  lemma PutOwn(name: string, c: Cluster, k: Key, o: Object)
    requires WellFormed(c) && Typed(k, o)
    requires PlainOwn(name, k)
    requires k.BindingKey? && k in c.objects ==> c.objects[k].content.binding.roleRef == o.binding.roleRef
    ensures Guarantee(name, c, Put(c, k, o)) && OnlyChanged({k}, c, Put(c, k, o))
    ensures Carries(Put(c, k, o), name) == Carries(c, name)
  {
    var d := Put(c, k, o);
    forall e | e in d.written ensures Present(d, e) {
      assert Present(c, e);
    }
    OwnChange(name, c, d, k);
  }

  lemma UpdateIsPut(c: Cluster, k: Key, o: Object, adopts: bool)
    requires Typed(k, o) && k in c.objects && !k.UserKey? && !k.ProjectKey?
    ensures UpdateEffect(c, k, o, adopts) == Put(c, k, o)
  {
  }

  /** Deleting a binding or Group of one's own. */
  lemma DropOwn(name: string, c: Cluster, k: Key, lingers: bool)
    requires WellFormed(c) && k in c.objects && k in OwnObjects(name) && (k.BindingKey? || k.GroupKey?)
    ensures var d := DeleteEffect(c, k, lingers);
      Guarantee(name, c, d) && OnlyChanged({k}, c, d) && d.objects == c.objects - {k}
          && Carries(d, name) == Carries(c, name)
  {
    DeleteAdvances(c, k, lingers);
    assert Typed(k, c.objects[k].content);
    OwnChange(name, c, DeleteEffect(c, k, lingers), k);
  }

  lemma OwnEntries(name: string, k: Key, x: string)
    requires k == ConfigMapKey || k == SecretKey
    ensures x in OwnDataKeys(name, k) <==> DataEntry(k, x) in EntriesOf(name)
  {
  }

  /** Which entries count as written after a patch computed from a read of `original`. */
  lemma DiffWrites(written: set<Entry>, k: Key, original: Data, modified: Data, e: Entry)
    ensures e in WrittenAfter(written, k, Diff(original, modified)) <==>
              if e.DataEntry? && e.key == k
                  && (Wipes(original, modified) || !MergePatch.SameAt(original, modified, e.dataKey))
              then e.dataKey in modified else e in written
  {
  }

  /** What a patch computed from a read of `original` leaves behind, in the data and in the history. */
  lemma PatchLeaves(c: Cluster, k: Key, original: Data, modified: Data)
    requires k in c.objects && c.objects[k].content.DataObject?
    ensures var d := PatchEffect(c, k, Diff(original, modified));
      && k in d.objects && d.objects[k].content.DataObject? && (forall k' | k' != k :: SameObject(c, d, k'))
      && (forall x :: MergePatch.SameAt(
            d.objects[k].content.data,
            if Wipes(original, modified) || !MergePatch.SameAt(original, modified, x) then modified
            else c.objects[k].content.data, x))
      && (forall e: Entry :: e in d.written <==>
            if e.DataEntry? && e.key == k
                && (Wipes(original, modified) || !MergePatch.SameAt(original, modified, e.dataKey))
            then e.dataKey in modified else e in c.written)
  {
    forall x {
      ApplyDiff(original, modified, c.objects[k].content.data, x);
    }
    forall e {
      DiffWrites(c.written, k, original, modified, e);
    }
  }

  /** A wipe leaves nothing behind. */
  lemma WipeLeavesNothing(c: Cluster, k: Key, original: Data, modified: Data)
    requires k in c.objects && c.objects[k].content.DataObject? && Wipes(original, modified)
    ensures Emptied(PatchEffect(c, k, Diff(original, modified)), k)
  {
  }

  /** What PatchLeaves says is all that the guarantee needs. */
  lemma PatchKeepsGuarantee(name: string, c: Cluster, d: Cluster, k: Key, original: Data, modified: Data)
    requires WellFormed(c) && (k == ConfigMapKey || k == SecretKey)
    requires Advances(c, d) && k in c.objects && c.objects[k].content.DataObject? && k in d.objects
               && d.objects[k].content.DataObject?
    requires forall k' | k' != k :: SameObject(c, d, k')
    requires forall x | x !in OwnDataKeys(name, k) :: MergePatch.SameAt(original, modified, x)
    requires Carries(c, name) && (Wipes(original, modified) ==> Leaving(c, name) && Emptied(d, k))
    requires !Wipes(original, modified) ==> forall x | x !in OwnDataKeys(name, k) :: SameData(c, d, k, x)
    requires forall e: Entry :: e in d.written <==>
               if e.DataEntry? && e.key == k
                   && (Wipes(original, modified) || !MergePatch.SameAt(original, modified, e.dataKey))
               then e.dataKey in modified else e in c.written
    ensures Guarantee(name, c, d) && Carries(d, name)
  {
    assert SameObject(c, d, UserKey(name));
    assert forall p :: SameObject(c, d, ProjectKey(p));
    assert forall b :: SameObject(c, d, BindingKey(b));
    forall e: Entry | (e in c.written) != (e in d.written)
      ensures e in EntriesOf(name) || (e in c.written && e.DataEntry? && Emptied(d, e.key))
    {
      OwnEntries(name, k, e.dataKey);
    }
  }

  /**
   * Patching one's own keys of a shared object. Only what was edited relative to the read changes;
   * whatever else the object holds by now survives, unless the patch is the wipe of one on the way out.
   */
  lemma PatchOwn(name: string, c: Cluster, k: Key, original: Data, modified: Data)
    requires WellFormed(c) && (k == ConfigMapKey || k == SecretKey) && k in c.objects
    requires forall x | x !in OwnDataKeys(name, k) :: MergePatch.SameAt(original, modified, x)
    requires Carries(c, name) && (Wipes(original, modified) ==> Leaving(c, name))
    ensures c.objects[k].content.DataObject?
    ensures var d := PatchEffect(c, k, Diff(original, modified));
      Guarantee(name, c, d) && Carries(d, name) && forall k' | k' != k :: SameObject(c, d, k')
  {
    assert Typed(k, c.objects[k].content);
    var d := PatchEffect(c, k, Diff(original, modified));
    PatchAdvances(c, k, Diff(original, modified));
    PatchLeaves(c, k, original, modified);
    if Wipes(original, modified) {
      WipeLeavesNothing(c, k, original, modified);
    } else {
      forall x | x !in OwnDataKeys(name, k) ensures SameData(c, d, k, x) {
        assert MergePatch.SameAt(original, modified, x);
      }
    }
    PatchKeepsGuarantee(name, c, d, k, original, modified);
  }

  method CreateOwn(client: Client, name: string, k: Key, o: Object) returns (ok: bool, ghost before: Cluster)
    requires Live(client, name) && Typed(k, o) && PlainOwn(name, k)
    modifies client`cluster, client`steps
    ensures Live(client, name) && client.steps == old(client.steps) + Change(before, client.cluster)
    ensures KeepsProjects(old(client.steps), client.steps)
    ensures ok || client.cluster != before ==>
              k !in before.objects && k in client.cluster.objects && client.cluster.objects[k].content == o
    ensures client.exclusive ==> before == old(client.cluster) && OnlyChanged({k}, before, client.cluster)
    ensures client.Calm() && k !in old(client.cluster).objects ==> ok
  {
    var r: Reply<()>;
    r, before := client.Create(k, o);
    ok := r.Ok?;
    if client.cluster != before {
      PutOwn(name, before, k, o);
    }
    ChangeKeepsProjects(old(client.steps), before, client.cluster, k);
  }

  /** Replaces an object read in `read`; accepted only if it has not changed since. */
  method UpdateOwn(client: Client, name: string, k: Key, o: Object, version: nat, ghost read: Cluster)
    returns (ok: bool, ghost before: Cluster)
    requires Live(client, name) && Typed(k, o) && PlainOwn(name, k)
    requires read == client.cluster && k in read.objects && read.objects[k].version == version
    requires k.BindingKey? ==> read.objects[k].content.binding.roleRef == o.binding.roleRef
    modifies client`cluster, client`steps
    ensures Live(client, name) && client.steps == old(client.steps) + Change(before, client.cluster)
    ensures KeepsProjects(old(client.steps), client.steps)
    ensures ok || client.cluster != before ==>
              && k in before.objects && before.objects[k] == read.objects[k]
              && k in client.cluster.objects && client.cluster.objects[k].content == o
    ensures read.objects[k].content == o ==> client.cluster == before
    ensures client.exclusive ==> before == read && OnlyChanged({k}, before, client.cluster)
    ensures client.Calm() ==> ok
  {
    var r: Reply<()>;
    r, before := client.Update(k, o, version);
    ok := r.Ok?;
    if r.Ok? || client.cluster != before {
      SameVersionSameObject(read, before, k);
      UpdateIsPut(before, k, o, true);
      PutOwn(name, before, k, o);
    }
    ChangeKeepsProjects(old(client.steps), before, client.cluster, k);
  }

  method DeleteOwn(client: Client, name: string, k: Key) returns (r: Reply<()>, ghost before: Cluster)
    requires Live(client, name) && PlainOwn(name, k) && !k.ClusterRoleKey?
    modifies client`cluster, client`steps
    ensures Live(client, name) && client.steps == old(client.steps) + Change(before, client.cluster)
    ensures KeepsProjects(old(client.steps), client.steps)
    ensures Advances(old(client.cluster), client.cluster)
    ensures old(Leaving(client.cluster, name)) ==> Leaving(client.cluster, name)
    ensures r.Ok? || client.cluster != before ==>
              k in before.objects && client.cluster.objects == before.objects - {k}
    ensures r.NotFound? ==> k !in client.cluster.objects && client.cluster == before
    ensures EntriesOf(name) * client.cluster.written <= old(client.cluster.written)
    ensures client.exclusive ==> before == old(client.cluster) && OnlyChanged({k}, before, client.cluster)
    ensures client.Calm() ==> !r.Failed?
  {
    r, before := client.Delete(k);
    if r.Ok? || client.cluster != before {
      DropOwn(name, before, k, true);
      DropOwn(name, before, k, false);
    }
    ChangeKeepsProjects(old(client.steps), before, client.cluster, k);
  }
}
