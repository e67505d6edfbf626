/**
 * The operator watches the ConfigMap, Secret and Groups it writes, so each write asks for more
 * reconciles. For a fixed set of ArgocdUsers this comes to an end: every write pays off a debt.
 */
module Quiescence {
  import opened Collections
  import opened Naming
  import opened MergePatch
  import opened ClusterModel
  import opened ApiClient
  import opened OwnSteps
  import opened StaticUsers
  import opened Groups

  /** One role of one ArgocdUser, with what it declares and how its Group is managed. */
  datatype Slot = Slot(name: string, role: string, spec: RoleSpec, authoritative: bool)

  ghost predicate Distinct(slots: seq<Slot>) {
    && (forall s | s in slots :: IsRole(s.role))
    && forall i, j | 0 <= i < j < |slots| :: slots[i].name != slots[j].name || slots[i].role != slots[j].role
  }

  /** The two kinds of call that write to shared objects; both hold the reconciler's mutex throughout. */
  datatype Call = ConfigCall(slot: Slot) | GroupCall(slot: Slot)

  ghost function ConfigDebt(b: Bcrypt, c: Cluster, s: Slot): nat {
    AccountDebt(c, s.name, s.role) + PasswordDebt(b, c, s.name, s.role, s.spec.ciPass)
  }

  ghost function UsersDebt(c: Cluster, s: Slot): nat {
    GroupDebt(c, s.name, s.role, s.spec.users, s.authoritative)
  }

  ghost function SlotDebt(b: Bcrypt, c: Cluster, s: Slot): nat {
    ConfigDebt(b, c, s) + UsersDebt(c, s)
  }

  ghost function TotalDebt(b: Bcrypt, c: Cluster, slots: seq<Slot>): nat {
    if slots == [] then 0 else SlotDebt(b, c, slots[0]) + TotalDebt(b, c, slots[1..])
  }

  /**
   * What UpdateUserArgocdConfig and ReconcileArgoUsersGroup ensure, `writes` being the number of changes
   * they made; either may stop at any failed call.
   */
  ghost predicate CallEffect(b: Bcrypt, c: Cluster, call: Call, writes: nat, c': Cluster) {
    var s := call.slot;
    match call
    case ConfigCall(_) =>
      && OneKeyChanged(c, c', ConfigMapKey, AccountKey(s.name, s.role))
      && OneKeyChanged(c, c', SecretKey, PasswordKey(s.name, s.role))
      && (forall k | k != ConfigMapKey && k != SecretKey :: SameObject(c, c', k))
      && writes + ConfigDebt(b, c', s) <= ConfigDebt(b, c, s)
    case GroupCall(_) =>
      && OnlyChanged({GroupKey(GroupName(s.name, s.role))}, c, c')
      && writes + UsersDebt(c', s) <= UsersDebt(c, s)
  }

  lemma OwnDebt(b: Bcrypt, c: Cluster, call: Call, writes: nat, c': Cluster)
    requires CallEffect(b, c, call, writes, c')
    ensures writes + SlotDebt(b, c', call.slot) <= SlotDebt(b, c, call.slot)
    ensures if call.ConfigCall? then UsersDebt(c', call.slot) == UsersDebt(c, call.slot)
            else ConfigDebt(b, c', call.slot) == ConfigDebt(b, c, call.slot)
  {
    var s := call.slot;
    if call.ConfigCall? {
      assert SameObject(c, c', GroupKey(GroupName(s.name, s.role)));
    } else {
      assert SameObject(c, c', ConfigMapKey) && SameObject(c, c', SecretKey);
    }
  }

  /** Keys and Groups of different roles or names never coincide, so nobody else's debt changes. */
  lemma OtherDebt(b: Bcrypt, c: Cluster, call: Call, writes: nat, c': Cluster, t: Slot)
    requires CallEffect(b, c, call, writes, c') && IsRole(call.slot.role) && IsRole(t.role)
    requires t.name != call.slot.name || t.role != call.slot.role
    ensures ConfigDebt(b, c', t) == ConfigDebt(b, c, t) && UsersDebt(c', t) == UsersDebt(c, t)
  {
    var s := call.slot;
    if AccountKey(s.name, s.role) == AccountKey(t.name, t.role) {
      AccountKeyInjective(s.name, s.role, t.name, t.role);
    }
    if PasswordKey(s.name, s.role) == PasswordKey(t.name, t.role) {
      PasswordKeyInjective(s.name, s.role, t.name, t.role);
    }
    if GroupName(s.name, s.role) == GroupName(t.name, t.role) {
      GroupNameInjective(s.name, s.role, t.name, t.role);
    }
    assert SameObject(c, c', GroupKey(GroupName(t.name, t.role)));
    assert SameObject(c, c', ConfigMapKey)
           || SameData(c, c', ConfigMapKey, AccountKey(t.name, t.role));
    assert SameObject(c, c', SecretKey)
           || SameData(c, c', SecretKey, PasswordKey(t.name, t.role));
  }

  lemma {:induction false} TotalUnchanged(b: Bcrypt, c: Cluster, call: Call, writes: nat, c': Cluster, slots: seq<Slot>)
    requires CallEffect(b, c, call, writes, c') && IsRole(call.slot.role)
    requires forall t | t in slots :: IsRole(t.role) && (t.name != call.slot.name || t.role != call.slot.role)
    ensures TotalDebt(b, c', slots) == TotalDebt(b, c, slots)
  {
    if slots != [] {
      OtherDebt(b, c, call, writes, c', slots[0]);
      TotalUnchanged(b, c, call, writes, c', slots[1..]);
    }
  }

  /** Every write lowers the total debt. */
  lemma {:induction false} WritesPayDebt(b: Bcrypt, c: Cluster, call: Call, writes: nat, c': Cluster, slots: seq<Slot>)
    requires CallEffect(b, c, call, writes, c') && Distinct(slots) && call.slot in slots
    ensures writes + TotalDebt(b, c', slots) <= TotalDebt(b, c, slots)
  {
    assert slots == [slots[0]] + slots[1..];
    if slots[0] == call.slot {
      OwnDebt(b, c, call, writes, c');
      forall t | t in slots[1..] ensures t.name != call.slot.name || t.role != call.slot.role {
        var j :| 0 <= j < |slots[1..]| && slots[1..][j] == t;
        assert slots[j + 1] == t;
      }
      TotalUnchanged(b, c, call, writes, c', slots[1..]);
    } else {
      var j :| 0 <= j < |slots| && slots[j] == call.slot;
      OtherDebt(b, c, call, writes, c', slots[0]);
      WritesPayDebt(b, c, call, writes, c', slots[1..]);
    }
  }

  lemma {:induction false} DebtBounded(b: Bcrypt, c: Cluster, slots: seq<Slot>)
    ensures TotalDebt(b, c, slots) <= 4 * |slots|
  {
    if slots != [] {
      DebtBounded(b, c, slots[1..]);
    }
  }

  ghost function Sum(writes: seq<nat>): nat {
    if writes == [] then 0 else writes[0] + Sum(writes[1..])
  }

  /**
   * However many calls follow one another, in whatever order and with whatever failures: together they
   * write at most as often as the debt at the start, which is at most four times per role. From then on
   * nothing is written any more.
   */
  lemma {:induction false} FinitelyManyWrites(b: Bcrypt, run: seq<Cluster>, calls: seq<Call>, writes: seq<nat>,
                                              slots: seq<Slot>)
    requires |run| == |calls| + 1 && |writes| == |calls| && Distinct(slots)
    requires forall i | 0 <= i < |calls| ::
               calls[i].slot in slots && CallEffect(b, run[i], calls[i], writes[i], run[i + 1])
    ensures Sum(writes) + TotalDebt(b, run[|calls|], slots) <= TotalDebt(b, run[0], slots) <= 4 * |slots|
  {
    DebtBounded(b, run[0], slots);
    if calls != [] {
      assert calls[0].slot in slots && CallEffect(b, run[0], calls[0], writes[0], run[0 + 1]);
      WritesPayDebt(b, run[0], calls[0], writes[0], run[1], slots);
      forall i | 0 <= i < |calls[1..]|
        ensures calls[1..][i].slot in slots
                  && CallEffect(b, run[1..][i], calls[1..][i], writes[1..][i], run[1..][i + 1])
      {
        assert calls[i + 1].slot in slots && CallEffect(b, run[i + 1], calls[i + 1], writes[i + 1], run[i + 1 + 1]);
      }
      FinitelyManyWrites(b, run[1..], calls[1..], writes[1..], slots);
    }
  }

  /** Once a debt is paid, further calls for that role write nothing. */
  lemma NothingLeftToWrite(b: Bcrypt, c: Cluster, call: Call, writes: nat, c': Cluster)
    requires CallEffect(b, c, call, writes, c') && SlotDebt(b, c, call.slot) == 0
    ensures writes == 0
  {
  }

  // ---- The calls as coded ----

  method ConfigTurn(b: Bcrypt, cluster: Cluster, s: Slot, reliable: bool) returns (cluster': Cluster, ghost writes: nat)
    requires WellFormed(cluster) && Carries(cluster, s.name) && IsRole(s.role) && Sound(b)
    ensures WellFormed(cluster') && CallEffect(b, cluster, ConfigCall(s), writes, cluster')
    ensures reliable && SharedReady(cluster) && Hashable(b, s.spec.ciPass) ==>
              SharedReady(cluster') && ConfigDebt(b, cluster', s) == 0
  {
    var client := new Client(UserWorker(s.name), true, reliable, cluster);
    var outcome := UpdateUserArgocdConfig(client, b, s.name, s.role, s.spec.ciPass);
    cluster', writes := client.cluster, |client.steps|;
  }

  method GroupTurn(b: Bcrypt, installed: bool, cluster: Cluster, s: Slot, reliable: bool)
    returns (cluster': Cluster, ghost writes: nat)
    requires WellFormed(cluster) && Carries(cluster, s.name) && IsRole(s.role)
    ensures WellFormed(cluster') && CallEffect(b, cluster, GroupCall(s), writes, cluster')
    ensures SharedReady(cluster) ==> SharedReady(cluster')
    ensures reliable && installed ==> UsersDebt(cluster', s) == 0 || UsersDebt(cluster', s) < UsersDebt(cluster, s)
  {
    var client := new Client(UserWorker(s.name), true, reliable, cluster);
    var outcome, undeclared := ReconcileArgoUsersGroup(client, installed, s.name, s.role, s.spec.users,
                                                       s.authoritative);
    cluster', writes := client.cluster, |client.steps|;
    var k := GroupKey(GroupName(s.name, s.role));
    assert SameObject(cluster, cluster', ConfigMapKey) && SameObject(cluster, cluster', SecretKey);
    if k in cluster.objects {
      assert Typed(k, cluster.objects[k].content);
      GroupSettles(cluster.objects[k].content.users, s.spec.users, s.authoritative);
    }
  }

  /** What these calls have brought about for one role, none having failed. */
  ghost predicate Progressed(b: Bcrypt, c: Cluster, calls: seq<Call>, s: Slot) {
    && (ConfigCall(s) in calls ==> ConfigDebt(b, c, s) == 0)
    && (UsersDebt(c, s) == 0 || UsersDebt(c, s) + multiset(calls)[GroupCall(s)] <= 2)
  }

  lemma CallProgresses(b: Bcrypt, c: Cluster, calls: seq<Call>, call: Call, writes: nat, c': Cluster, slots: seq<Slot>,
                       s: Slot)
    requires Distinct(slots) && call.slot in slots && s in slots
    requires Progressed(b, c, calls, s) && CallEffect(b, c, call, writes, c')
    requires if call.ConfigCall? then ConfigDebt(b, c', call.slot) == 0
             else UsersDebt(c', call.slot) == 0 || UsersDebt(c', call.slot) < UsersDebt(c, call.slot)
    ensures Progressed(b, c', calls + [call], s)
  {
    assert multiset(calls + [call]) == multiset(calls) + multiset{call};
    if s == call.slot {
      OwnDebt(b, c, call, writes, c');
    } else {
      var i :| 0 <= i < |slots| && slots[i] == s;
      var j :| 0 <= j < |slots| && slots[j] == call.slot;
      OtherDebt(b, c, call, writes, c', s);
    }
  }

  method OneCall(b: Bcrypt, installed: bool, cluster: Cluster, slots: seq<Slot>, ghost calls: seq<Call>, call: Call,
                 reliable: bool)
    returns (cluster': Cluster, ghost writes: nat)
    requires WellFormed(cluster) && Distinct(slots) && Sound(b)
    requires call.slot in slots && Carries(cluster, call.slot.name)
    ensures WellFormed(cluster') && CallEffect(b, cluster, call, writes, cluster')
    ensures writes + TotalDebt(b, cluster', slots) <= TotalDebt(b, cluster, slots)
    ensures reliable && installed && SharedReady(cluster) && Hashable(b, call.slot.spec.ciPass) ==>
              && SharedReady(cluster')
              && forall s | s in slots && Progressed(b, cluster, calls, s) ::
                   Progressed(b, cluster', calls + [call], s)
  {
    ghost var calm := reliable && installed && SharedReady(cluster) && Hashable(b, call.slot.spec.ciPass);
    if call.ConfigCall? {
      cluster', writes := ConfigTurn(b, cluster, call.slot, reliable);
    } else {
      cluster', writes := GroupTurn(b, installed, cluster, call.slot, reliable);
    }
    AfterCall(b, cluster, calls, call, writes, cluster', slots, calm);
  }

  /**
   * The watches ask for calls, for any role in any order; the number of writes stays bounded, whatever
   * fails. If nothing fails, one call for the static user and two for the Group pay the whole debt of a role.
   */
  method Churn(b: Bcrypt, installed: bool, cluster: Cluster, slots: seq<Slot>, calls: seq<Call>, reliable: bool)
    returns (cluster': Cluster, ghost written: nat)
    requires WellFormed(cluster) && Distinct(slots) && Sound(b)
    requires (forall s | s in slots :: Carries(cluster, s.name)) && (forall call | call in calls :: call.slot in slots)
    ensures WellFormed(cluster')
    ensures written + TotalDebt(b, cluster', slots) <= TotalDebt(b, cluster, slots) <= 4 * |slots|
    ensures reliable && installed && SharedReady(cluster) && (forall s | s in slots :: Hashable(b, s.spec.ciPass)) ==>
              forall s | s in slots && ConfigCall(s) in calls && multiset(calls)[GroupCall(s)] >= 2 ::
                SlotDebt(b, cluster', s) == 0
  {
    DebtBounded(b, cluster, slots);
    cluster', written := cluster, 0;
    ghost var calm := reliable && installed && SharedReady(cluster) && forall s | s in slots ::
        Hashable(b, s.spec.ciPass);
    for i := 0 to |calls|
      invariant WellFormed(cluster') && forall s | s in slots :: Carries(cluster', s.name)
      invariant written + TotalDebt(b, cluster', slots) <= TotalDebt(b, cluster, slots)
      invariant calm ==> SharedReady(cluster') && forall s | s in slots :: Progressed(b, cluster', calls[..i], s)
    {
      var call := calls[i];
      assert call in calls && call.slot in slots;
      var before := cluster';
      ghost var writes;
      cluster', writes := OneCall(b, installed, before, slots, calls[..i], call, reliable);
      assert calls[..i + 1] == calls[..i] + [call];
      written := written + writes;
      CallKeepsFinalizers(b, before, call, writes, cluster', slots);
    }
    assert calls[..|calls|] == calls;
  }

  lemma CallKeepsFinalizers(b: Bcrypt, c: Cluster, call: Call, writes: nat, c': Cluster, slots: seq<Slot>)
    requires CallEffect(b, c, call, writes, c') && forall s | s in slots :: Carries(c, s.name)
    ensures forall s | s in slots :: Carries(c', s.name)
  {
    forall s | s in slots ensures Carries(c', s.name) {
      assert SameObject(c, c', UserKey(s.name));
    }
  }

  lemma AfterCall(b: Bcrypt, c: Cluster, calls: seq<Call>, call: Call, writes: nat, c': Cluster, slots: seq<Slot>,
                  calm: bool)
    requires Distinct(slots) && call.slot in slots && CallEffect(b, c, call, writes, c')
    requires calm ==> if call.ConfigCall? then ConfigDebt(b, c', call.slot) == 0
                      else UsersDebt(c', call.slot) == 0 || UsersDebt(c', call.slot) < UsersDebt(c, call.slot)
    ensures writes + TotalDebt(b, c', slots) <= TotalDebt(b, c, slots)
    ensures calm ==> forall s | s in slots && Progressed(b, c, calls, s) :: Progressed(b, c', calls + [call], s)
  {
    WritesPayDebt(b, c, call, writes, c', slots);
    if calm {
      forall s | s in slots && Progressed(b, c, calls, s) ensures Progressed(b, c', calls + [call], s) {
        CallProgresses(b, c, calls, call, writes, c', slots, s);
      }
    }
  }
}
