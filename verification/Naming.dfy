/** How the names of Groups, account keys and password keys are built from an ArgocdUser name and a role. */
module Naming {
  import opened Collections

  const ADMIN := "admin"
  const VIEW := "view"
  const SYNC := "sync"
  const GROUP_ROLES: seq<string> := [ADMIN, VIEW, SYNC]

  predicate IsRole(role: string) {
    role in GROUP_ROLES
  }

  function GroupName(name: string, role: string): string {
    name + "-" + role
  }

  function AccountKey(name: string, role: string): string {
    "accounts." + name + "-" + role + "-ci"
  }

  function PasswordKey(name: string, role: string): string {
    "accounts." + name + "-" + role + "-ci.password"
  }

  function ClusterRoleName(name: string): string {
    name + "-argocduser-clusterrole"
  }

  function BindingName(name: string): string {
    name + "-argocduser-clusterrolebinding"
  }

  lemma RolesAsWritten()
    ensures forall role :: IsRole(role) <==> role == "admin" || role == "view" || role == "sync"
  {
  }

  /** The data keys as they appear in argocd-cm and argocd-secret. */
  lemma KeysAsWritten()
    ensures AccountKey("team", "view") == "accounts.team-view-ci"
    ensures PasswordKey("team", "view") == "accounts.team-view-ci.password"
  {
  }

  /** The names of objects as they appear in a cluster. */
  lemma ObjectsAsWritten()
    ensures GroupName("team", "view") == "team-view"
    ensures ClusterRoleName("team") == "team-argocduser-clusterrole"
    ensures BindingName("team") == "team-argocduser-clusterrolebinding"
  {
  }

  predicate HasSuffix(s: string, suffix: string) {
    |suffix| <= |s| && s[|s| - |suffix|..] == suffix
  }

  function TrimSuffix(s: string, suffix: string): string {
    if HasSuffix(s, suffix) then s[..|s| - |suffix|] else s
  }

  /** The ArgocdUser that the Group watch enqueues for a Group of this name, if any. */
  function GroupOwner(groupName: string): Option<string> {
    if HasSuffix(groupName, "-" + ADMIN) then Some(TrimSuffix(groupName, "-" + ADMIN))
    else if HasSuffix(groupName, "-" + VIEW) then Some(TrimSuffix(groupName, "-" + VIEW))
    else if HasSuffix(groupName, "-" + SYNC) then Some(TrimSuffix(groupName, "-" + SYNC))
    else None
  }

  lemma ConcatCancels(a: string, s: string, b: string, t: string)
    requires a + s == b + t && |s| == |t|
    ensures a == b && s == t
  {
    assert a == (a + s)[..|a|] && b == (b + t)[..|b|];
    assert s == (a + s)[|a|..] && t == (b + t)[|b|..];
  }

  lemma GroupNameParts(name: string, role: string)
    requires IsRole(role)
    ensures HasSuffix(GroupName(name, role), "-" + role)
    ensures TrimSuffix(GroupName(name, role), "-" + role) == name
    ensures GroupName(name, role)[|GroupName(name, role)| - 1] == role[|role| - 1]
  {
    assert GroupName(name, role) == name + ("-" + role);
  }

  lemma GroupNameInjective(name: string, role: string, name': string, role': string)
    requires IsRole(role) && IsRole(role')
    requires GroupName(name, role) == GroupName(name', role')
    ensures name == name' && role == role'
  {
    GroupNameParts(name, role);
    GroupNameParts(name', role');
    assert role == role';
  }

  lemma AccountKeyInjective(name: string, role: string, name': string, role': string)
    requires IsRole(role) && IsRole(role')
    requires AccountKey(name, role) == AccountKey(name', role')
    ensures name == name' && role == role'
  {
    assert AccountKey(name, role) == "accounts." + (GroupName(name, role) + "-ci");
    assert AccountKey(name', role') == "accounts." + (GroupName(name', role') + "-ci");
    assert AccountKey(name, role)[9..] == GroupName(name, role) + "-ci";
    ConcatCancels(GroupName(name, role), "-ci", GroupName(name', role'), "-ci");
    GroupNameInjective(name, role, name', role');
  }

  lemma PasswordKeyInjective(name: string, role: string, name': string, role': string)
    requires IsRole(role) && IsRole(role')
    requires PasswordKey(name, role) == PasswordKey(name', role')
    ensures name == name' && role == role'
  {
    assert PasswordKey(name, role) == AccountKey(name, role) + ".password";
    assert PasswordKey(name', role') == AccountKey(name', role') + ".password";
    ConcatCancels(AccountKey(name, role), ".password", AccountKey(name', role'), ".password");
    AccountKeyInjective(name, role, name', role');
  }

  lemma ObjectNamesInjective(name: string, name': string)
    ensures ClusterRoleName(name) == ClusterRoleName(name') ==> name == name'
    ensures BindingName(name) == BindingName(name') ==> name == name'
  {
    if ClusterRoleName(name) == ClusterRoleName(name') {
      ConcatCancels(name, "-argocduser-clusterrole", name', "-argocduser-clusterrole");
    }
    if BindingName(name) == BindingName(name') {
      ConcatCancels(name, "-argocduser-clusterrolebinding", name', "-argocduser-clusterrolebinding");
    }
  }

  lemma WatchReadsName(name: string, role: string)
    requires IsRole(role)
    ensures GroupOwner(GroupName(name, role)) == Some(name)
  {
    var g := GroupName(name, role);
    GroupNameParts(name, role);
    assert HasSuffix(g, "-" + ADMIN) ==> g[|g| - 1] == 'n';
    assert HasSuffix(g, "-" + VIEW) ==> g[|g| - 1] == 'w';
  }

  lemma SuffixGivesName(groupName: string, role: string)
    requires HasSuffix(groupName, "-" + role)
    ensures groupName == GroupName(TrimSuffix(groupName, "-" + role), role)
  {
  }

  /**
   * The Group watch enqueues `name` exactly for the Groups named after `name` and one of the roles,
   * and that role is unique.
   */
  lemma WatchInvertsNaming(groupName: string, name: string)
    ensures GroupOwner(groupName) == Some(name)
            <==> exists role | IsRole(role) :: groupName == GroupName(name, role)
    ensures forall role, role' | IsRole(role) && IsRole(role') ::
              groupName == GroupName(name, role) && groupName == GroupName(name, role') ==> role == role'
  {
    if GroupOwner(groupName) == Some(name) {
      var role := if HasSuffix(groupName, "-" + ADMIN) then ADMIN
                  else if HasSuffix(groupName, "-" + VIEW) then VIEW else SYNC;
      SuffixGivesName(groupName, role);
      assert IsRole(role);
    }
    forall role | IsRole(role) && groupName == GroupName(name, role)
      ensures GroupOwner(groupName) == Some(name)
    {
      WatchReadsName(name, role);
    }
    forall role, role' | IsRole(role) && IsRole(role') && groupName == GroupName(name, role)
        && groupName == GroupName(name, role')
      ensures role == role'
    {
      GroupNameInjective(name, role, name, role');
    }
  }
}
