/** The static ArgoCD users of an ArgocdUser: one account key and one password key per role. */
module StaticUsers {
  import opened Collections
  import opened Naming
  import opened MergePatch
  import opened ClusterModel
  import opened ApiClient
  import opened OwnSteps

  const ACCOUNT_VALUE := "apiKey,login"

  /** bcrypt, kept abstract: hashing with a salt, and checking a password against a hash. */
  datatype Bcrypt = Bcrypt(generate: (string, nat) -> string, matches: (string, string) -> bool)

  /** The one thing assumed of bcrypt: a hash made from a password is accepted for it. */
  ghost predicate Sound(b: Bcrypt) {
    forall password: string, salt: nat | |password| <= 72 :: b.matches(b.generate(password, salt), password)
  }

  /** bcrypt takes the password: it is short enough and its hash is not empty. */
  ghost predicate Hashable(b: Bcrypt, password: string) {
    |password| <= 72 && forall salt: nat :: b.generate(password, salt) != ""
  }

  method HashPassword(b: Bcrypt, password: string) returns (hash: Option<string>)
    requires Sound(b)
    ensures hash.Some? ==> |password| <= 72 && b.matches(hash.value, password)
    ensures |password| > 72 ==> hash.None?
    ensures Hashable(b, password) ==> hash.Some?
  {
    if |password| > 72 {
      return None;
    }
    var random: int := *;
    var bytes := b.generate(password, if random < 0 then -random else random);
    hash := if bytes == "" then None else Some(bytes);
  }

  ghost predicate AccountRight(c: Cluster, name: string, role: string) {
    ConfigMapKey in c.objects
    && var o := c.objects[ConfigMapKey].content;
       o.DataObject? && AccountKey(name, role) in o.data && o.data[AccountKey(name, role)] == ACCOUNT_VALUE
  }

  ghost predicate PasswordRight(b: Bcrypt, c: Cluster, name: string, role: string, ciPass: string) {
    SecretKey in c.objects
    && var o := c.objects[SecretKey].content;
       o.DataObject? && PasswordKey(name, role) in o.data && b.matches(o.data[PasswordKey(name, role)], ciPass)
  }

  /** The two entries as they appear in argocd-cm and argocd-secret. */
  lemma EntriesAsWritten(b: Bcrypt, c: Cluster, ciPass: string)
    requires ConfigMapKey in c.objects && c.objects[ConfigMapKey].content.DataObject?
    requires SecretKey in c.objects && c.objects[SecretKey].content.DataObject?
    ensures AccountRight(c, "team", "view") <==>
              var data := c.objects[ConfigMapKey].content.data;
              "accounts.team-view-ci" in data && data["accounts.team-view-ci"] == "apiKey,login"
    ensures PasswordRight(b, c, "team", "view", ciPass) <==>
              var data := c.objects[SecretKey].content.data;
              "accounts.team-view-ci.password" in data && b.matches(data["accounts.team-view-ci.password"], ciPass)
  {
    KeysAsWritten();
  }

  /** Object k differs at most in the data key x. */
  ghost predicate OneKeyChanged(c: Cluster, c': Cluster, k: Key, x: string) {
    SameObject(c, c', k)
    || forall y | y != x :: SameData(c, c', k, y)
  }

  lemma OneKeyInTwoSteps(a: Cluster, b: Cluster, c: Cluster, k: Key, x: string)
    requires (OneKeyChanged(a, b, k, x) && SameObject(b, c, k)) || (SameObject(a, b, k) && OneKeyChanged(b, c, k, x))
    ensures OneKeyChanged(a, c, k, x)
  {
    if !SameObject(a, c, k) {
      forall y | y != x ensures SameData(a, c, k, y) {
        assert SameData(a, b, k, y) || SameData(b, c, k, y);
      }
    }
  }

  lemma SetKeyEffect(name: string, c: Cluster, k: Key, original: Data, x: string, value: string)
    requires WellFormed(c) && (k == ConfigMapKey || k == SecretKey) && k in c.objects
    requires x in OwnDataKeys(name, k) && Carries(c, name) && (x in original ==> original[x] != value)
    ensures c.objects[k].content.DataObject?
    ensures var d := PatchEffect(c, k, Diff(original, original[x := value]));
      && Guarantee(name, c, d) && Carries(d, name)
      && k in d.objects && d.objects[k].content.DataObject?
      && x in d.objects[k].content.data && d.objects[k].content.data[x] == value
      && OneKeyChanged(c, d, k, x) && forall k' | k' != k :: SameObject(c, d, k')
  {
    var modified := original[x := value];
    assert forall y | y != x :: MergePatch.SameAt(original, modified, y);
    assert !Wipes(original, modified) by {
      assert x in modified;
    }
    PatchOwn(name, c, k, original, modified);
    PatchLeaves(c, k, original, modified);
    var d := PatchEffect(c, k, Diff(original, modified));
    assert x in modified && !MergePatch.SameAt(original, modified, x);
    assert MergePatch.SameAt(d.objects[k].content.data, modified, x);
    forall y | y != x ensures SameData(c, d, k, y) {
      assert MergePatch.SameAt(original, modified, y);
    }
  }

  /** Sets one of the worker's own data keys, by a patch against the data that was read. */
  method SetOwnKey(client: Client, name: string, k: Key, original: Data, x: string, value: string) returns (ok: bool)
    requires Live(client, name) && (k == ConfigMapKey || k == SecretKey) && x in OwnDataKeys(name, k)
    requires x in original ==> original[x] != value
    modifies client`cluster, client`steps
    ensures Live(client, name) && KeepsProjects(old(client.steps), client.steps)
    ensures |client.steps| <= |old(client.steps)| + 1
    ensures ok || |client.steps| > |old(client.steps)| ==>
                   k in client.cluster.objects && client.cluster.objects[k].content.DataObject?
                   && x in client.cluster.objects[k].content.data && client.cluster.objects[k].content.data[x] == value
    ensures client.exclusive ==>
              && OneKeyChanged(old(client.cluster), client.cluster, k, x)
              && forall k' | k' != k :: SameObject(old(client.cluster), client.cluster, k')
    ensures client.exclusive && |client.steps| == |old(client.steps)| ==> client.cluster == old(client.cluster)
    ensures client.Calm() && k in old(client.cluster).objects ==> ok
  {
    var r, before := client.PatchData(k, Diff(original, original[x := value]));
    ok := r.Ok?;
    if ok || client.cluster != before {
      SetKeyEffect(name, before, k, original, x, value);
    }
    ChangeKeepsProjects(old(client.steps), before, client.cluster, k);
  }

  /** The account entry of one role in argocd-cm. */
  method ReconcileAccount(client: Client, name: string, role: string) returns (outcome: Outcome)
    requires Live(client, name) && IsRole(role)
    modifies client`cluster, client`steps
    ensures Live(client, name) && KeepsProjects(old(client.steps), client.steps)
    ensures outcome.Done? ==> AccountRight(client.cluster, name, role)
    ensures client.exclusive ==>
              && OneKeyChanged(old(client.cluster), client.cluster, ConfigMapKey, AccountKey(name, role))
              && (forall k | k != ConfigMapKey :: SameObject(old(client.cluster), client.cluster, k))
              && |client.steps| - |old(client.steps)| + (if AccountRight(client.cluster, name, role) then 0 else 1)
                 <= (if AccountRight(old(client.cluster), name, role) then 0 else 1)
    ensures client.exclusive ==>
              (outcome == Error(NilMapWrite) ==> Emptied(old(client.cluster), ConfigMapKey))
              && (Emptied(old(client.cluster), ConfigMapKey) ==>
                  outcome == Error(NilMapWrite) || outcome == Error(ApiError))
    ensures client.Calm() ==>
              outcome == if ConfigMapKey !in old(client.cluster).objects then Error(Missing)
                         else if Emptied(old(client.cluster), ConfigMapKey) then Error(NilMapWrite) else Done
  {
    var key := AccountKey(name, role);
    var r := client.Get(ConfigMapKey);
    if r.NotFound? {
      return Error(Missing);
    }
    if r.Failed? {
      return Error(ApiError);
    }
    assert Typed(ConfigMapKey, r.value.content);
    var data := r.value.content.data;
    outcome := Done;
    if key !in data || data[key] != ACCOUNT_VALUE {
      if data == map[] {
        return Error(NilMapWrite);
      }
      var ok := SetOwnKey(client, name, ConfigMapKey, data, key, ACCOUNT_VALUE);
      if !ok {
        return Error(ApiError);
      }
    }
  }

  /** The password entry of one role in argocd-secret: hashed anew only if the stored hash does not fit. */
  method ReconcilePassword(client: Client, b: Bcrypt, name: string, role: string, ciPass: string)
    returns (outcome: Outcome)
    requires Live(client, name) && IsRole(role) && Sound(b)
    modifies client`cluster, client`steps
    ensures Live(client, name) && KeepsProjects(old(client.steps), client.steps)
    ensures outcome != Error(NilMapWrite)
    ensures outcome.Done? ==> PasswordRight(b, client.cluster, name, role, ciPass)
    ensures client.exclusive ==>
              && OneKeyChanged(old(client.cluster), client.cluster, SecretKey, PasswordKey(name, role))
              && (forall k | k != SecretKey :: SameObject(old(client.cluster), client.cluster, k))
              && |client.steps| - |old(client.steps)|
                   + (if PasswordRight(b, client.cluster, name, role, ciPass) then 0 else 1)
                 <= (if PasswordRight(b, old(client.cluster), name, role, ciPass) then 0 else 1)
    ensures client.Calm() && SecretKey !in old(client.cluster).objects ==> outcome == Error(Missing)
    ensures client.Calm() && SecretKey in old(client.cluster).objects ==>
              && (PasswordRight(b, old(client.cluster), name, role, ciPass) || Hashable(b, ciPass) ==> outcome.Done?)
              && (!PasswordRight(b, old(client.cluster), name, role, ciPass) && |ciPass| > 72 ==>
                  outcome == Error(HashFailed))
              && (outcome == Done || outcome == Error(HashFailed))
  {
    var key := PasswordKey(name, role);
    var r := client.Get(SecretKey);
    if r.NotFound? {
      return Error(Missing);
    }
    if r.Failed? {
      return Error(ApiError);
    }
    assert Typed(SecretKey, r.value.content);
    var data := r.value.content.data;
    outcome := Done;
    if key !in data || !b.matches(data[key], ciPass) {
      var hash := HashPassword(b, ciPass);
      if hash.None? {
        return Error(HashFailed);
      }
      var ok := SetOwnKey(client, name, SecretKey, data, key, hash.value);
      if !ok {
        return Error(ApiError);
      }
    }
  }

  ghost function AccountDebt(c: Cluster, name: string, role: string): nat {
    if AccountRight(c, name, role) then 0 else 1
  }

  ghost function PasswordDebt(b: Bcrypt, c: Cluster, name: string, role: string, ciPass: string): nat {
    if PasswordRight(b, c, name, role, ciPass) then 0 else 1
  }

  /** Both shared objects are there, and argocd-cm holds something. */
  ghost predicate SharedReady(c: Cluster) {
    ConfigMapKey in c.objects && SecretKey in c.objects && !Emptied(c, ConfigMapKey)
  }

  /**
   * What a calm call answers for one role, told by the cluster before it: which of the shared objects is
   * missing or empty, or that the password is too long for bcrypt and no hash that fits is stored. Between
   * that and a password that bcrypt takes lies one for which it may return an empty hash.
   */
  ghost predicate RoleAnswer(b: Bcrypt, c: Cluster, name: string, role: string, ciPass: string, outcome: Outcome) {
    if ConfigMapKey !in c.objects then outcome == Error(Missing)
    else if Emptied(c, ConfigMapKey) then outcome == Error(NilMapWrite)
    else if SecretKey !in c.objects then outcome == Error(Missing)
    else if PasswordRight(b, c, name, role, ciPass) || Hashable(b, ciPass) then outcome == Done
    else if |ciPass| > 72 then outcome == Error(HashFailed)
    else outcome == Done || outcome == Error(HashFailed)
  }

  /** UpdateUserArgocdConfig: the account first, then the password; a failure stops it. */
  method UpdateUserArgocdConfig(client: Client, b: Bcrypt, name: string, role: string, ciPass: string)
    returns (outcome: Outcome)
    requires Live(client, name) && IsRole(role) && Sound(b)
    modifies client`cluster, client`steps
    ensures Live(client, name) && KeepsProjects(old(client.steps), client.steps)
    ensures client.exclusive ==>
              && OneKeyChanged(old(client.cluster), client.cluster, ConfigMapKey, AccountKey(name, role))
              && OneKeyChanged(old(client.cluster), client.cluster, SecretKey, PasswordKey(name, role))
              && (forall k | k != ConfigMapKey && k != SecretKey :: SameObject(old(client.cluster), client.cluster, k))
    ensures client.exclusive && outcome.Done? ==>
              AccountRight(client.cluster, name, role) && PasswordRight(b, client.cluster, name, role, ciPass)
    ensures client.exclusive ==>
              |client.steps| - |old(client.steps)|
              + AccountDebt(client.cluster, name, role) + PasswordDebt(b, client.cluster, name, role, ciPass)
              <= AccountDebt(old(client.cluster), name, role) + PasswordDebt(b, old(client.cluster), name, role, ciPass)
    ensures client.exclusive ==>
              (outcome == Error(NilMapWrite) ==> Emptied(old(client.cluster), ConfigMapKey))
              && (Emptied(old(client.cluster), ConfigMapKey) ==>
                  outcome == Error(NilMapWrite) || outcome == Error(ApiError))
    ensures client.Calm() ==> RoleAnswer(b, old(client.cluster), name, role, ciPass, outcome)
    ensures client.Calm() && ConfigMapKey in old(client.cluster).objects
              && !Emptied(old(client.cluster), ConfigMapKey) ==>
              AccountRight(client.cluster, name, role)
    ensures client.Calm() && outcome.Done? ==> SharedReady(client.cluster)
  {
    outcome := ReconcileAccount(client, name, role);
    if outcome.Done? {
      ghost var mid, midSteps := client.cluster, client.steps;
      outcome := ReconcilePassword(client, b, name, role, ciPass);
      KeepsProjectsTwice(old(client.steps), midSteps, client.steps);
      if client.exclusive {
        assert SameObject(old(client.cluster), mid, SecretKey) && SameObject(mid, client.cluster, ConfigMapKey);
        OneKeyInTwoSteps(old(client.cluster), mid, client.cluster, ConfigMapKey, AccountKey(name, role));
        OneKeyInTwoSteps(old(client.cluster), mid, client.cluster, SecretKey, PasswordKey(name, role));
        forall k | k != ConfigMapKey && k != SecretKey ensures SameObject(old(client.cluster), client.cluster, k) {
          assert SameObject(old(client.cluster), mid, k) && SameObject(mid, client.cluster, k);
        }
      }
    } else if client.exclusive {
      assert SameObject(old(client.cluster), client.cluster, SecretKey);
    }
  }
}
