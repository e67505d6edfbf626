/**
 * Safety over whole runs: ArgocdUser workers, the namespace controller and people act on the cluster in
 * any order, one change at a time.
 */
module Lifecycle {
  import opened Collections
  import opened Naming
  import opened ClusterModel

  /**
   * What people and other programs may do: anything but touch the finalizer, undo a deletion or act for the
   * operator.
   */
  ghost predicate External(c: Cluster, c': Cluster) {
    && Advances(c, c')
    && c'.written <= c.written
    && forall n | Carries(c, n) :: Carries(c', n) && (Leaving(c, n) ==> Leaving(c', n))
  }

  ghost predicate OperatorStep(c: Cluster, c': Cluster) {
    (exists n :: Guarantee(n, c, c')) || NamespaceGuarantee(c, c')
  }

  ghost predicate Step(c: Cluster, c': Cluster) {
    OperatorStep(c, c') || External(c, c')
  }

  ghost predicate Run(run: seq<Cluster>) {
    run != [] && forall i | 0 <= i < |run| - 1 :: Step(run[i], run[i + 1])
  }

  /** Whatever the operator has written for a name, the ArgocdUser of that name is there and carries the finalizer. */
  ghost predicate Safe(c: Cluster) {
    WellFormed(c) && forall n | EntriesOf(n) * c.written != {} :: Carries(c, n)
  }

  /** No two workers share an object, argocd-cm and argocd-secret apart. */
  lemma OwnObjectsDisjoint(n: string, m: string)
    requires n != m
    ensures OwnObjects(n) !! OwnObjects(m)
  {
    ObjectNamesInjective(n, m);
    forall role, role' | IsRole(role) && IsRole(role') ensures GroupName(n, role) != GroupName(m, role') {
      if GroupName(n, role) == GroupName(m, role') {
        GroupNameInjective(n, role, m, role');
      }
    }
  }

  lemma UserOfOthers(n: string, m: string)
    requires n != m
    ensures UserKey(m) !in OwnObjects(n)
  {
    OwnObjectsDisjoint(n, m);
  }

  /** What one worker guarantees is what every other worker relies on. */
  lemma GuaranteeMeetsRely(m: string, n: string, c: Cluster, c': Cluster)
    requires m != n && Guarantee(m, c, c')
    ensures Rely(UserWorker(n), c, c') && Rely(NamespaceWorker, c, c')
  {
    UserOfOthers(m, n);
    assert SameObject(c, c', UserKey(n));
    EntriesDisjoint(m, n);
  }

  lemma OthersMeetRely(n: string, c: Cluster, c': Cluster)
    requires (exists m | m != n :: Guarantee(m, c, c')) || NamespaceGuarantee(c, c') || External(c, c')
    ensures Rely(UserWorker(n), c, c') && Rely(NamespaceWorker, c, c')
  {
    if m :| m != n && Guarantee(m, c, c') {
      GuaranteeMeetsRely(m, n, c, c');
    } else if NamespaceGuarantee(c, c') {
      assert SameObject(c, c', UserKey(n)) by {
        assert UserKey(n) in c.objects ==>
               SameObject(c, c', UserKey(n))
               || SameExceptTargets(c.objects[UserKey(n)].content, c'.objects[UserKey(n)].content);
        assert WellFormed(c');
      }
    }
  }

  lemma WorkerKeepsSafe(n: string, c: Cluster, c': Cluster)
    requires Safe(c) && Guarantee(n, c, c')
    ensures Safe(c')
  {
    forall m | EntriesOf(m) * c'.written != {} ensures Carries(c', m) {
      var e :| e in EntriesOf(m) * c'.written;
      if m == n {
        if e in c.written {
          assert e in EntriesOf(m) * c.written;
          assert Carries(c, m);
        }
      } else {
        EntriesDisjoint(m, n);
        assert e in EntriesOf(m) * c.written;
        UserOfOthers(n, m);
        assert SameObject(c, c', UserKey(m));
      }
    }
  }

  lemma StepKeepsSafe(c: Cluster, c': Cluster)
    requires Safe(c) && Step(c, c')
    ensures Safe(c')
  {
    if n :| Guarantee(n, c, c') {
      WorkerKeepsSafe(n, c, c');
    } else {
      forall m | EntriesOf(m) * c'.written != {} ensures Carries(c', m) {
        var e :| e in EntriesOf(m) * c'.written;
        assert e in EntriesOf(m) * c.written;
        OthersMeetRely(m, c, c');
      }
    }
  }

  /**
   * At every moment of every run: an AppProject that is not terminating, an account key or a password key
   * that the operator wrote for `name` is there only while ArgocdUser `name` is there and carries the
   * finalizer. Once the finalizer is gone, so are all of these.
   */
  lemma {:induction false} LifecycleSafety(run: seq<Cluster>, i: nat, name: string)
    requires Run(run) && Safe(run[0]) && i < |run|
    ensures Safe(run[i])
    ensures ProjectEntry(name) in run[i].written ==> Carries(run[i], name)
    ensures forall role | IsRole(role)
              && (AccountEntry(name, role) in run[i].written || PasswordEntry(name, role) in run[i].written) ::
              Carries(run[i], name)
  {
    if i > 0 {
      LifecycleSafety(run, i - 1, name);
      assert Step(run[i - 1], run[i - 1 + 1]);
      StepKeepsSafe(run[i - 1], run[i]);
    }
    forall e | e in EntriesOf(name) && e in run[i].written ensures Carries(run[i], name) {
      assert e in EntriesOf(name) * run[i].written;
    }
    forall role | IsRole(role)
        ensures AccountEntry(name, role) in EntriesOf(name) && PasswordEntry(name, role) in EntriesOf(name) {
    }
  }

  ghost function ReposOf(c: Cluster, p: string): set<string> {
    if ProjectKey(p) in c.objects && c.objects[ProjectKey(p)].content.ProjectObject?
    then Elements(c.objects[ProjectKey(p)].content.project.sourceRepos) else {}
  }

  /** As long as an AppProject exists and only the operator edits it, no repository is ever dropped from it. */
  lemma {:induction false} ReposOnlyGrow(run: seq<Cluster>, p: string)
    requires run != [] && forall i | 0 <= i < |run| - 1 :: OperatorStep(run[i], run[i + 1])
    requires forall i | 0 <= i < |run| :: WellFormed(run[i]) && ProjectKey(p) in run[i].objects
    ensures ReposOf(run[0], p) <= ReposOf(run[|run| - 1], p)
  {
    if |run| > 1 {
      var c, c' := run[0], run[1];
      assert OperatorStep(run[0], run[0 + 1]);
      assert Typed(ProjectKey(p), c.objects[ProjectKey(p)].content)
             && Typed(ProjectKey(p), c'.objects[ProjectKey(p)].content);
      if n :| Guarantee(n, c, c') {
        assert KeepsRepos(c, c');
      } else {
        assert SameObject(c, c', ProjectKey(p))
               || SameExceptTargets(c.objects[ProjectKey(p)].content, c'.objects[ProjectKey(p)].content);
      }
      forall i | 0 <= i < |run[1..]| - 1 ensures OperatorStep(run[1..][i], run[1..][i + 1]) {
        assert OperatorStep(run[i + 1], run[i + 1 + 1]);
      }
      ReposOnlyGrow(run[1..], p);
    }
  }

  /** A change by a worker whose name this data key does not belong to, or by the namespace controller. */
  ghost predicate Foreign(c: Cluster, c': Cluster, k: Key, x: string) {
    (exists n :: Guarantee(n, c, c') && x !in OwnDataKeys(n, k)) || NamespaceGuarantee(c, c')
  }

  lemma ForeignKeepsKey(c: Cluster, c': Cluster, k: Key, x: string)
    requires (k == ConfigMapKey || k == SecretKey) && Foreign(c, c', k, x)
    requires WellFormed(c) && k in c.objects
    ensures SameData(c, c', k, x) || Emptied(c', k)
  {
    assert Typed(k, c.objects[k].content);
    if n :| Guarantee(n, c, c') && x !in OwnDataKeys(n, k) {
      assert DataFrame(n, c, c', k);
    } else {
      assert SameObject(c, c', k) || SameExceptTargets(c.objects[k].content, c'.objects[k].content);
    }
  }

  /**
   * Whatever the workers of other names do, in any order, an entry of a shared object stays as it is,
   * unless at some moment a clean-up empties the object. Only the worker of an ArgocdUser on its way out
   * can do that.
   */
  lemma {:induction false} EntriesSurvive(run: seq<Cluster>, k: Key, x: string)
    requires run != [] && (k == ConfigMapKey || k == SecretKey) && k in run[0].objects && WellFormed(run[0])
    requires forall i | 0 <= i < |run| - 1 :: Foreign(run[i], run[i + 1], k, x)
    ensures SameData(run[0], run[|run| - 1], k, x) || exists i :: 0 < i < |run| && Emptied(run[i], k)
  {
    assert Typed(k, run[0].objects[k].content);
    if |run| > 1 {
      assert Foreign(run[0], run[0 + 1], k, x);
      ForeignKeepsKey(run[0], run[1], k, x);
      if !Emptied(run[1], k) {
        forall i | 0 <= i < |run[1..]| - 1 ensures Foreign(run[1..][i], run[1..][i + 1], k, x) {
          assert Foreign(run[i + 1], run[i + 1 + 1], k, x);
        }
        EntriesSurvive(run[1..], k, x);
        if i :| 0 < i < |run[1..]| && Emptied(run[1..][i], k) {
          assert Emptied(run[i + 1], k);
        }
      }
    }
  }

  /** No other change empties a shared object that holds something. */
  lemma OnlyLeaversEmpty(c: Cluster, c': Cluster, k: Key, x: string, n: string)
    requires (k == ConfigMapKey || k == SecretKey) && Guarantee(n, c, c') && x !in OwnDataKeys(n, k)
    requires k in c.objects && c.objects[k].content.DataObject? && x in c.objects[k].content.data && Emptied(c', k)
    ensures Leaving(c, n)
  {
    assert DataFrame(n, c, c', k);
    assert !SameData(c, c', k, x);
  }
}
