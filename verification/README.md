# ArgoCD complementary operator: a verified model

The operator has two controllers. The namespace controller reads two labels of every namespace, keeps an
index of them in memory, and pushes the index into the destinations and source namespaces of ArgoCD
AppProjects. The ArgocdUser controller creates, for every ArgocdUser, a ClusterRole and its binding, an
AppProject, three account keys in `argocd-cm`, three password keys in `argocd-secret` and three OpenShift
Groups, and removes them again before it lets the ArgocdUser go. This project models both controllers,
the index they share and the API server they talk to, and proves what they keep.

## How the model works

- **State that the code changes in place is a class.** `Nameset`, `SafeNsCache` (three maps of mutable
  name sets), both reconcilers. A ghost value `index` stands for the three maps; `history` is every value
  it has had.
- **The API server is a value, `Cluster`.** It maps keys to objects with resource versions. `written` is
  a history variable: what the operator has put there for some ArgocdUser and that is still there (an
  AppProject that is terminating no longer counts). Writing what is stored already changes nothing.
- **Every call may fail, and others act before every call.** `ApiClient.Client` replaces the cluster,
  before each call, by an arbitrary one that its *rely* condition allows, and may then answer with an
  error, whether or not the call took effect. An Update is refused if the resource version moved on; a
  merge patch is never refused for that reason. A client that is `exclusive` meets no interference;
  failures remain. Contracts that start with `client.exclusive ==>` are about a reconcile as one whole;
  all the others hold under interference. A client that is `Calm()` meets neither interference nor
  failures; contracts about it say that the work is then done, or which error of the operator's own is
  returned instead.
- **Each worker's single changes are logged in `steps`**, and every reconcile proves that each of them
  keeps the worker's *guarantee*. `Lifecycle` shows that the guarantee of one worker implies the rely
  condition of every other. Assumed: at most one worker at a time per ArgocdUser name (the work queue
  sees to that), nobody but the operator removes its finalizer, and nobody undoes a deletion.
- **Go map iteration is an arbitrary choice** (`var k :| k in rest`), so what is proved of the lists
  built this way holds for every order.
- **bcrypt is a pair of functions** of which one thing is assumed: a hash made from a password is
  accepted for it.

## Main results

- *Whole-run agreement* (`Operation.Operate`): from start-up on, whatever sequence of requests the
  operator answers and whichever calls fail, every AppProject but "default" has, after each whole
  reconcile, exactly the destination namespaces of the index, unless its latest push failed; and what is
  reported of each request is what happened.
- *Labels are applied* (`Operation.Operate`, `Reliability.HandledLabelsAreApplied`): if no call fails, then,
  once every namespace has been handled since its label last changed, every AppProject but "default" has
  exactly the destination namespaces whose label in the cluster names it.
- *From labels to AppProjects* (`Agreement.DestinationsFollowLabels`, `Agreement.DestinationsAreLabels`):
  after any such run the destinations of an AppProject are exactly the namespaces whose last seen label
  names it. If no label changed after its namespace was last looked at, these are exactly the namespaces
  whose label in the cluster names it.
- *Lifecycle safety* (`Lifecycle.LifecycleSafety`): at every moment of every interleaved run, an
  AppProject that is not terminating, an account key or a password key that the operator wrote for a name
  is there only while that ArgocdUser exists and carries the finalizer.
- *Index refinement* (`Agreement.IndexRefinesLabels`): the index always equals what the labels last seen
  say, in both directions.
- *Quiescence* (`Quiescence.Churn`, `Quiescence.FinitelyManyWrites`): although the operator is woken by
  its own changes of shared objects, for n roles it makes at most 4n of them, in any order of wake-ups and
  with failures anywhere. If nothing fails, one call for the static user of a role and two for its Group
  leave nothing to change.
- *No torn snapshots* (`UserProjects.ReconcileAppProject`): although the ArgocdUser controller reads the
  index without the other controller's mutex, all destinations it writes are those of one single moment.
  They are the present ones if and only if the index still says the same of the project.
- *Isolation* (`Lifecycle.EntriesSurvive`, `MergePatch.OthersSurvive`, `Cleanup.RemovalIsolation`): an
  entry of `argocd-cm` or `argocd-secret` survives whatever the workers of other names do, with one
  exception, which is stated exactly (see below).
- *Provisioning and removal* (`UserController.ArgocdUserReconciler.Reconcile`): one reconcile without
  failures puts everything an ArgocdUser stands for in place, from any state of the cluster in which
  `argocd-cm` is not empty, the Secret exists and bcrypt takes the passwords. In any other state
  finalizer, access and AppProject are in place all the same, so is every role before the first one that
  cannot be served, and the error returned is that role's own. Where membership of Groups is merged,
  nobody is ever removed; where it is authoritative, each Group has exactly the members declared. For
  one marked for deletion it deletes the AppProject, the six keys and, in authoritative mode, the
  Groups, leaves every other object as it was, and lets the ArgocdUser go. If it stops partway, each
  part is either done or untouched.
- *Clean-up* (`Cleanup.CleanupResources`, `Cleanup.CleanupRetries`, `Cleanup.CleanedFrame`): any number
  of attempts that stop partway and one that succeeds amount to one success. On its own a clean-up
  touches nobody else's entries.
- *Closed forms and inverses*: label parser, group and account names, merging of lists, merge patches.

## Where the code does less than it says

The model follows the code. These places are stated as results:

- `README.md:68-78` says the source label lets applications be created in a namespace. Taking the label
  away does not in general take the permission away: the code looks up the current trusts under the wrong
  key (`internal/controller/namespace_controller.go:259` passes a namespace name to a function keyed by
  project). `Agreement.SourceLabelApplied` gives the exact condition under which one reconcile brings the
  trusts to the label, `Agreement.RemovedSourceLabelStays` a state in which it does not.
- A push that failed is reported as an error so that the request is tried again, but the retry finds the
  index up to date and pushes nothing: `Agreement.SameLabelPushesNothing`, `Agreement.FailedPushStays`,
  `Agreement.FailedPushExists`. A change of the source label alone pushes nothing either (same lemma). A
  later reconcile of the ArgocdUser makes up for both.
- A namespace that is deleted stays in the index: the request that finds it gone removes nothing
  (`Agreement.GoneKeepsIndex`), and until it is found again it remains a destination of exactly the projects
  it was last seen in (`Agreement.GoneStaysDestination`); `Agreement.GoneExists` is such a state, with every
  push successful.
- If an ArgocdUser is reconciled before any namespace is, its AppProject loses all its destinations, and
  the index, filled afterwards, does not know them until their namespaces are seen:
  `Operation.EarlyUserTurn`, `Operation.EarlyLoss`.
- If the AppProjects cannot be listed at start-up, that is final: every namespace reconcile fails, and
  every ArgocdUser that is reconciled is left without destinations: `Operation.OperateBlind`.
- The index lists namespaces and sources in no fixed order, and both lists are compared in order. So after a
  reconcile that found its AppProject, a second, identical one of either controller is certain to find
  nothing to write exactly if there is at most one namespace and at most one source
  (`Settling.SecondPushIsQuiet`). After one that created it, the public repositories must be strictly sorted
  too, because they are stored as written and sorted only by the next reconcile
  (`Settling.CreatedProjectIsQuiet`, `Settling.UnsortedReposAreRewritten`).
- For the same reason the ArgocdUser controller, which is woken by its own changes of AppProjects, may keep
  itself busy without end, with nobody else acting: `Settling.EndlessWrites`, and
  `Settling.WatchComesToRest` for the exact condition.
- A clean-up patches the keys of its ArgocdUser out of what it read. If it read nothing else, the patch
  drops the whole `data` member, and with it whatever others added between read and patch
  (`internal/controller/argocduser_controller.go:706-713`, `732-737`): `MergePatch.WipeLosesAddition` is
  such a case, `Cleanup.RemovalIsolation` gives the exact condition, `Lifecycle.OnlyLeaversEmpty` shows
  that only an ArgocdUser on its way out can cause it.
- A Group is created with the declared list as written; the next reconcile leaves its members as they are
  exactly if that list is strictly sorted: `Groups.CreatedGroupSettles`.
- Writing an account into an `argocd-cm` without data panics (nil map); the model reports `NilMapWrite`.
  `StaticUsers.ReconcileAccount` says when; `Cleanup.CleanedEmptiesConfigMap` says exactly when a
  clean-up brings that about.

## Model

| member | source | states |
|---|---|---|
| NamesetModule.Nameset.constructor | pkg/nameset/nameset.go:47-51 | a new set is empty |
| NamesetModule.Nameset.Add | pkg/nameset/nameset.go:9-11 | afterwards the set holds what it held and the item |
| NamesetModule.Nameset.Remove | pkg/nameset/nameset.go:13-15 | afterwards the set holds what it held except the item; a missing item is no error |
| NamesetModule.Nameset.Filter | pkg/nameset/nameset.go:27-35 | offers accepted members only, each at most once, goes on only while they are taken, and offers all of them if none is turned down |
| NamesetModule.Nameset.All | pkg/nameset/nameset.go:37-45 | every member exactly once, in an arbitrary order |
| Strings.SortNames | internal/controller/controller_common.go:330 | the result is strictly sorted and has the same members |
| Strings.SortedUnique | internal/controller/controller_common.go:312-332 | a finite set of names has only one strictly sorted listing |
| Strings.InsertSorted | internal/controller/controller_common.go:330 | inserting a new name into a strictly sorted list keeps it strictly sorted and adds just that name |
| Strings.LessMeans | internal/controller/controller_common.go:330 | in the order of names a proper prefix comes first, and otherwise the first character that differs decides |
| Strings.MergeStringSlices | internal/controller/controller_common.go:312-332 | whatever the iteration order, the result is the one strictly sorted listing of the union |
| Strings.MergeLaws | internal/controller/controller_common.go:312-332 | merging is commutative, associative and idempotent; it depends on nothing but the union of members, so neither order nor duplicates matter; it leaves the first list alone exactly if that is strictly sorted and contains the second |
| Naming.GroupNameInjective | internal/controller/argocduser_controller.go:540 | Groups of different (name, role) pairs have different names |
| Naming.AccountKeyInjective | internal/controller/argocduser_controller.go:457 | account keys of different (name, role) pairs differ |
| Naming.PasswordKeyInjective | internal/controller/argocduser_controller.go:482 | password keys of different (name, role) pairs differ |
| Naming.ObjectNamesInjective | internal/controller/argocduser_controller.go:237-238 | ClusterRoles and bindings of different names have different names |
| Naming.RolesAsWritten | internal/controller/controller_common.go:55 | the roles are "admin", "view" and "sync" and no other |
| Naming.KeysAsWritten | internal/controller/argocduser_controller.go:457-482 | one account key and one password key, literally |
| Naming.ObjectsAsWritten | internal/controller/argocduser_controller.go:237-540 | one Group, one ClusterRole and one binding name, literally |
| Naming.WatchReadsName | internal/controller/argocduser_controller.go:840-848 | the Group watch reads the name back from `name-role`, whatever dashes or role words the name itself contains |
| Naming.WatchInvertsNaming | internal/controller/argocduser_controller.go:831-857 | the watch enqueues a name exactly for the Groups named after it and a role, and that role is unique |
| Labels.LabelToProjects | internal/controller/namespace_controller.go:390-404 | a fresh set that holds exactly the projects named by the label value |
| Labels.LabelRoundTrip | internal/controller/namespace_controller.go:390-404 | any dot-joined listing of dot-free names, with extra leading, trailing or repeated dots, reads back as the set of these names |
| Labels.LabelSegments | internal/controller/namespace_controller.go:390-404 | for every string the result is exactly its maximal non-empty dot-free segments |
| Labels.SplitJoin | internal/controller/namespace_controller.go:397 | splitting undoes joining of dot-free pieces |
| Labels.JoinSplit | internal/controller/namespace_controller.go:397 | joining undoes splitting, for every string |
| Labels.PiecesDotFree | internal/controller/namespace_controller.go:397 | no piece contains a dot |
| MergePatch.PatchIsolation | internal/controller/argocduser_controller.go:471-474 | a patch computed from an old read, applied to whatever is stored by then (section 2 of RFC 7396): an edited key ends up as edited; any other key is as stored, except exactly where the edit leaves nothing of what was read and the key is there |
| MergePatch.OthersSurvive | internal/controller/argocduser_controller.go:706-713 | all that others wrote survives if and only if the edit leaves something, or read nothing, or nothing else is stored |
| MergePatch.WipeLosesAddition | internal/controller/argocduser_controller.go:706-713 | a clean-up whose read held one account key, and an entry added meanwhile that it loses |
| MergePatch.PatchRoundTrip | internal/controller/argocduser_controller.go:492-497 | applied to the read it was computed from, a patch gives the edited data |
| MergePatch.PatchesCommute | internal/controller/argocduser_controller.go:706-713 | two editors with different reads who change different keys: the order of their patches does not matter if and only if neither drops all data while the other sets a key; then no edit is lost |
| ClusterModel.EntriesDisjoint | internal/controller/argocduser_controller.go:706-737 | what the operator keeps for one name never overlaps what it keeps for another |
| ClusterModel.SameVersionSameObject | internal/controller/argocduser_controller.go:403-405 | an update that is accepted meets the very object that was read, whatever others did meanwhile |
| ClusterModel.ProjectsAreRecorded | internal/controller/argocduser_controller.go:345-408 | an AppProject counts as written from when its worker creates or updates it, unless it is terminating, until it is deleted; a push of the namespace controller does not change that |
| ClusterModel.RelyTransitive | internal/controller/namespace_controller.go:42-51 | a rely condition covers any number of steps of others |
| ApiClient.Client.Update | internal/controller/argocduser_controller.go:403-408 | takes effect only if the object is still of the version read, and then replaces it, or changes nothing if it is the same already; a failure may or may not have taken effect |
| ApiClient.Client.PatchData | internal/controller/argocduser_controller.go:474-477 | applies a merge patch, of single keys or of the whole data, to what is stored at that moment; no version is compared; a failure may or may not have taken effect |
| ApiClient.Client.Create | internal/controller/argocduser_controller.go:345-348 | creates only what is not there; a failure may or may not have taken effect |
| ApiClient.Client.Delete | internal/controller/argocduser_controller.go:683-690 | the object goes, or, an AppProject with finalizers, is marked as terminating; NotFound means it is not there; a failure may or may not have taken effect |
| ApiClient.Client.Get | internal/controller/argocduser_controller.go:341-355 | an answer is the object at the moment of the call; NotFound means there is none |
| ApiClient.Client.ListProjects | internal/controller/namespace_controller.go:173-178 | lists exactly the AppProjects there are at that moment |
| NsCache.EdgeMap.AddTo | internal/controller/namespace_controller.go:68-72 | adds one pair to the stored relation and no other, although the name sets are shared objects edited in place |
| NsCache.EdgeMap.RemoveFrom | internal/controller/namespace_controller.go:79-81 | removes one pair from the stored relation and no other |
| NsCache.SafeNsCache.constructor | internal/controller/namespace_controller.go:54-61 | an index nobody has filled is empty and well formed |
| NsCache.SafeNsCache.TrustSource | internal/controller/namespace_controller.go:63-73 | adds one trust; memberships and all other trusts stay; the two-way invariant is kept |
| NsCache.SafeNsCache.UnTrustSource | internal/controller/namespace_controller.go:75-82 | removes one trust and nothing else |
| NsCache.SafeNsCache.JoinProject | internal/controller/namespace_controller.go:84-100 | adds one membership, seen from both directions; both maps keep agreeing and no other key's set changes |
| NsCache.SafeNsCache.LeaveProject | internal/controller/namespace_controller.go:102-114 | removes one membership, seen from both directions, and nothing else; unknown names are ignored |
| NsCache.SafeNsCache.GetProjects | internal/controller/namespace_controller.go:116-129 | lists the projects of a namespace, each once, in any order |
| NsCache.SafeNsCache.GetNamespaces | internal/controller/namespace_controller.go:131-143 | lists exactly the namespaces whose projects include this one, although it reads the other map |
| NsCache.SafeNsCache.GetSources | internal/controller/namespace_controller.go:145-160 | lists exactly the namespaces that trust a project, each once |
| NsCache.SafeNsCache.LoadProject | internal/controller/namespace_controller.go:180-195 | adds one membership per destination of an AppProject, and none for "default" |
| NsCache.SafeNsCache.InitOrPass | internal/controller/namespace_controller.go:162-199 | once filled, every project has exactly the destination namespaces its AppProject had; later calls change nothing; a failure to list is reported for ever and leaves the index empty |
| NsCache.MatchesListed | internal/controller/namespace_controller.go:176-196 | an index filled from a complete list agrees with every AppProject but "default" |
| NamespaceIndex.PairsOfAllMember | internal/controller/namespace_controller.go:180-196 | a namespace is a member of a project after loading exactly if a listed AppProject of that name, not "default", has it as a destination |
| Projects.CreateAppProj | internal/controller/controller_common.go:183-291 | the desired AppProject has exactly the given destination namespaces, each on any server, sources and public repositories |
| Projects.Retarget | internal/controller/namespace_controller.go:348-374 | targets become the desired ones, and an update is called for exactly if that changes anything |
| Projects.PushesCompose | internal/controller/namespace_controller.go:303-323 | pushes of disjoint sets of projects, one after the other, are a push of the union: none undoes another |
| Projects.WroteTwice | internal/controller/namespace_controller.go:303-323 | writes of the targets of one index to some AppProjects, then to others, are writes of these targets to all of them |
| NamespaceController.SettleProject | internal/controller/namespace_controller.go:284-292 | a current project is left if it is not wanted, else struck off the wanted ones |
| NamespaceController.LeaveOrKeep | internal/controller/namespace_controller.go:284-294 | what is left is exactly current minus wanted, what remains wanted exactly wanted minus current, and only these memberships go |
| NamespaceController.UnTrustOrKeep | internal/controller/namespace_controller.go:261-270 | of the listed trusts those not wanted are removed and the wanted ones are set, whether or not they were there |
| NamespaceController.UpdateProjects | internal/controller/namespace_controller.go:277-299 | the projects of the namespace become the label set; joined and left are the two halves of the difference |
| NamespaceController.UpdateSources | internal/controller/namespace_controller.go:254-275 | the trusts of the namespace become the label's, plus every old one whose project is not the name of a namespace that trusts a project named like this one; other namespaces' trusts stay |
| NamespaceController.PushTargets | internal/controller/namespace_controller.go:340-386 | changes nothing but targets, to what the index says; on success the AppProject, if there is one, is in line, whoever acts meanwhile; every write carries the targets of the index; a missing AppProject is no failure |
| NamespaceController.NamespaceReconciler.ReconcileAppProject | internal/controller/namespace_controller.go:335-387 | the same for the index as it is, its lists being read in arbitrary order; records the attempt and whether it failed; every write carries the targets of the index |
| NamespaceController.NamespaceReconciler.PushAll | internal/controller/namespace_controller.go:303-323 | every listed project is tried exactly once, a failure stops none of the others, failure is reported exactly if one of them failed, and every write carries the targets of the index |
| NamespaceController.NamespaceReconciler.Observe | internal/controller/namespace_controller.go:253-325 | exact diff: memberships become the label set, other namespaces' stay; exactly the symmetric difference is pushed, each project once |
| NamespaceController.NamespaceReconciler.PushGone | internal/controller/namespace_controller.go:229-247 | for a namespace that is gone: the projects it was last seen in are each tried once; none is out of line afterwards if no call fails |
| NamespaceController.NamespaceReconciler.Reconcile | internal/controller/namespace_controller.go:214-326 | what one request does to index, AppProjects and outcome in all cases: not initialised, look-up failed, namespace gone, namespace seen; every write, under interference too, carries the targets of the index to one of the projects concerned; nothing else in the cluster changes |
| Agreement.AgreesAfterInit | internal/controller/namespace_controller.go:162-199 | after a successful start-up the AppProjects agree with the index |
| Agreement.UntouchedProjects | internal/controller/namespace_controller.go:284-323 | a project that is not pushed has the namespaces it had |
| Agreement.NamespaceStepAgrees | internal/controller/namespace_controller.go:214-326 | a namespace reconcile keeps agreement, failures included |
| Agreement.UserStepAgrees | internal/controller/argocduser_controller.go:99-165 | an ArgocdUser reconcile keeps agreement, failures included |
| Agreement.AlwaysAgrees | internal/controller/namespace_controller.go:214-326 | by induction, every state of every run of reconciles agrees |
| Agreement.SameLabelPushesNothing | internal/controller/namespace_controller.go:284-323 | a reconcile pushes nothing exactly if the project label is what it was when last seen; then no object changes |
| Agreement.FailedPushStays | internal/controller/namespace_controller.go:303-325 | after a failed push, the identical retry leaves the AppProject as it was and still out of line |
| Agreement.FailedPushExists | internal/controller/namespace_controller.go:303-313 | a cluster with a labelled namespace and an AppProject, for which the push fails and the AppProject is out of line |
| Agreement.IndexTracksLabels | internal/controller/namespace_controller.go:227-299 | by induction over any events: a membership is in the index exactly if the label last seen, or the start if none was seen, has it |
| Agreement.IndexRefinesLabels | internal/controller/namespace_controller.go:86-143 | the same as sets in both directions; look-ups that fail or find nothing change nothing |
| Agreement.HistoryOfIndices | internal/controller/namespace_controller.go:214-326 | in a run of whole reconciles the index moves as the events say |
| Agreement.DestinationsFollowLabels | internal/controller/namespace_controller.go:162-326 | after any run, an AppProject not pushed in vain has exactly the namespaces whose last seen label names it, or which it had at the start and which were never found |
| Agreement.LastSeenIsLabel | internal/controller/namespace_controller.go:227-299 | what was last seen of a namespace is the label it had in the cluster when it was last found |
| Agreement.DestinationsAreLabels | internal/controller/namespace_controller.go:227-323 | if every label is what it was when its namespace was last found, such an AppProject has exactly the namespaces whose label in the cluster names it |
| Agreement.DestinationRightIff | internal/controller/namespace_controller.go:227-323 | of one namespace: the destination is right if and only if its label names the project now just as when it was last found |
| Agreement.GoneKeepsIndex | internal/controller/namespace_controller.go:229-247 | a request for a namespace that is gone leaves the index alone: nothing of the namespace is left if and only if nothing was there |
| Agreement.UnseenKeepsProjects | internal/controller/namespace_controller.go:229-247 | by induction, as long as a namespace is not found, its memberships stay what they were |
| Agreement.GoneStaysDestination | internal/controller/namespace_controller.go:229-247 | a namespace found to be gone is, until it is found again, a destination of exactly the projects it was in |
| Agreement.GoneExists | internal/controller/namespace_controller.go:229-247 | a state in which the namespace is gone, every push succeeds and the AppProject still lists it |
| Agreement.SourceLabelApplied | internal/controller/namespace_controller.go:254-275 | one reconcile brings the trusts to the source label if and only if each trust to be dropped is a namespace that trusts a project named like this one; the exact new set; nobody else's trusts change |
| Agreement.RemovedSourceLabelStays | internal/controller/namespace_controller.go:259-275 | a state where removing the source label changes nothing |
| Agreement.TrustsComeFromLabels | internal/controller/namespace_controller.go:254-275 | in every run, whatever the names, a namespace trusts only projects that a source label of its own has named |
| Agreement.EverTrustedByEvent | internal/controller/namespace_controller.go:254-275 | for each such project there is an event in which this namespace was found with a source label that names it |
| Agreement.TrustsOnlyGrow | internal/controller/namespace_controller.go:254-275 | over runs where no namespace has the name of a project, a namespace trusts exactly the union of all its source labels seen |
| Operation.NamespaceTurn | internal/controller/namespace_controller.go:214-326 | the reconcile as coded, run on its own, is a step of the run model that answers this very request; it reports Done exactly if the namespace was found to be gone, or was found and every AppProject concerned is in line; if no call fails, it is looked up, the index has its projects as the label names them, and every AppProject concerned is in line; after a failed start-up it reports NotInitialised and changes nothing |
| Operation.ReconcileNamespace | internal/controller/namespace_controller.go:214-326 | the same, with what was looked up and which AppProjects were tried; a call that fails nowhere finds the namespace exactly if it is there |
| Operation.ServedNamespace | internal/controller/namespace_controller.go:227-325 | a step in which no call failed leaves the index as the label says and every AppProject that was tried in line |
| Operation.ReconcileUser | internal/controller/argocduser_controller.go:99-165 | one whole reconcile touches no AppProject but its own, nobody else's objects or entries, and not the index; success leaves everything in place, or nothing that was written and no finalizer; if no call fails, finalizer, access and AppProject are in place whatever the outcome |
| Operation.Start | internal/controller/namespace_controller.go:221-223 | start-up fills the index from the AppProjects, or reports that it could not, leaving it empty; it succeeds if they can be listed |
| Operation.UserTurn | internal/controller/argocduser_controller.go:99-165 | the reconcile as coded, run on its own, is a step of the run model that answers this very request and leaves the index alone; on success, and also if no call failed, the AppProject of one that stays is in line |
| Operation.EarlyUserTurn | internal/controller/argocduser_controller.go:337-374 | an ArgocdUser reconcile before start-up of the index empties its AppProject, and the index that is filled afterwards does not hold the lost destinations; both are certain if no call fails; no other AppProject changes |
| Operation.EarlyLoss | internal/controller/argocduser_controller.go:337-374 | a team whose AppProject does lose a destination in this way |
| Operation.OperateBlind | internal/controller/namespace_controller.go:176-181 | after a start-up that could not list the AppProjects, any sequence of requests: every one for a namespace fails with NotInitialised and changes nothing; every one for an ArgocdUser that succeeds, or meets no failure, leaves its AppProject without destinations |
| Operation.AnswerBlindly | internal/controller/namespace_controller.go:176-181 | one such request: what is answered and what it leaves, for each kind of request |
| Operation.Operate | internal/controller/namespace_controller.go:162-326 | start-up followed by any sequence of requests to both controllers as coded, while others may delete AppProjects: the run answers exactly these requests, every state on the way is in agreement, and each reported outcome is what happened; if no call fails and every namespace was handled since its label last changed, destinations are exactly the labels in the cluster; if start-up failed, every request is answered as in `OperateBlind` |
| Operation.OperateListed | internal/controller/namespace_controller.go:214-326 | the part after a start-up that filled the index |
| Reliability.NothingMarked | internal/controller/namespace_controller.go:303-325 | by induction, in a run in which no call fails no AppProject is ever out of line |
| Reliability.RequestFindsNamespace | internal/controller/namespace_controller.go:227-247 | in such a run a request for a namespace that is there finds it |
| Reliability.HandledIsUpToDate | internal/controller/namespace_controller.go:227-299 | if a request for a namespace was answered when its label was already what it is at the end, what was last seen of it is its label |
| Reliability.HandledLabelsAreApplied | internal/controller/namespace_controller.go:214-326 | in a run in which no call fails, once every namespace was handled since its label last changed, or needed no handling, an AppProject other than "default" has exactly the destination namespaces whose label in the cluster names it |
| Bindings.ReconcileClusterRole | internal/controller/argocduser_controller.go:167-233 | success leaves exactly the desired owner and rules, whoever acts meanwhile; nothing else changes |
| Bindings.ReconcileClusterRoleBinding | internal/controller/argocduser_controller.go:235-329 | from any binding or none, a calm call succeeds, and success leaves owner and subjects as desired and a roleRef to the ClusterRole named after this ArgocdUser; failure leaves the old one, the desired one, or none if the roleRef was wrong; a right one stays; no update changes a roleRef |
| Bindings.Recreate | internal/controller/argocduser_controller.go:309-319 | delete then create: success gives the desired binding, failure leaves the old one, the desired one or none |
| UserProjects.Revise | internal/controller/argocduser_controller.go:357-400 | targets and roles as desired, repositories merged, and an update is called for exactly if that changes anything |
| UserProjects.ApplyProject | internal/controller/argocduser_controller.go:339-412 | success leaves an AppProject with the desired targets under interference; alone, exactly the reconciled form of what was there |
| UserProjects.ReadIndex | internal/controller/controller_common.go:184-194 | each read is the value at one moment of the call, the second not before the first, even if the index is filled or changed between them |
| UserProjects.ReconcileAppProject | internal/controller/argocduser_controller.go:333-413 | no torn snapshots, the index being filled or changed at any time: all writes carry the namespaces of one moment and the sources of one moment; success leaves them in place, and they are the present ones if and only if the index says the same of the project as at those moments |
| UserProjects.OldSnapshotExists | internal/controller/argocduser_controller.go:337-405 | the three steps by which an old index is written: from an AppProject in line with the index that was read, the namespace controller brings it in line with a new index, then the ArgocdUser worker, within its guarantee, brings it back in line with the old one only |
| UserProjects.ProjectChange | internal/controller/argocduser_controller.go:390-408 | a change of nothing but one's own AppProject that drops no repository keeps the worker's guarantee |
| Settling.ReposSettle | internal/controller/argocduser_controller.go:357 | after one update repositories and roles are a fixed point, and none was dropped |
| Settling.SecondPushIsQuiet | internal/controller/argocduser_controller.go:359-379 | for both controllers, the AppProject being there: whatever orders the index lists namespaces and sources in, the next reconcile finds nothing to write, if and only if there is at most one namespace and at most one source |
| Settling.TwoOrders | internal/controller/namespace_controller.go:133-160 | with two namespaces the destinations, with two sources the source namespaces, of two desired AppProjects from one index differ |
| Settling.CreatedProjectIsQuiet | internal/controller/argocduser_controller.go:343-357 | after the AppProject was created, the next reconcile finds nothing to write if and only if, besides, the public repositories are strictly sorted |
| Settling.UnsortedReposAreRewritten | internal/controller/argocduser_controller.go:343-357 | an empty index and two public repositories in the wrong order, for which it does write |
| Settling.AlwaysRewritten | internal/controller/argocduser_controller.go:801-825 | with two namespaces or two sources, whatever the AppProject holds, there is a reconcile of the present index that changes it |
| Settling.EndlessWrites | internal/controller/argocduser_controller.go:801-825 | so from any AppProject there are runs of any length in which the controller is woken by nothing but its own writes |
| Settling.OneWriteSettles | internal/controller/argocduser_controller.go:801-825 | otherwise every such run ends after one write |
| Settling.WatchComesToRest | internal/controller/argocduser_controller.go:801-825 | such runs are bounded if and only if there is at most one namespace and at most one source |
| StaticUsers.HashPassword | internal/controller/controller_common.go:293-310 | a hash fits its password; a password of more than 72 bytes has none; one that bcrypt takes has one |
| StaticUsers.SetOwnKey | internal/controller/argocduser_controller.go:471-477 | a patch from an old read sets one key, and everything written by others meanwhile survives; if the call fails the key is set or nothing changed |
| StaticUsers.ReconcileAccount | internal/controller/argocduser_controller.go:456-479 | success leaves the right account value, only that key changes, and every write pays one unit of debt; a calm call fails exactly if the ConfigMap is missing (Missing) or without data (NilMapWrite) |
| StaticUsers.ReconcilePassword | internal/controller/argocduser_controller.go:481-523 | success leaves a hash that fits, only that key changes, a fitting hash is not replaced; a calm call fails if the Secret is missing, or if a password that does not fit is too long to hash |
| StaticUsers.UpdateUserArgocdConfig | internal/controller/argocduser_controller.go:450-524 | both of these together, under one debt; a calm call answers what the cluster before it says: Missing, NilMapWrite, HashFailed or Done, and leaves the account right if there is an argocd-cm with data, even if the password fails |
| StaticUsers.EntriesAsWritten | internal/controller/argocduser_controller.go:457-482 | one account entry and one password entry, literally as they stand in argocd-cm and argocd-secret |
| Groups.DesiredGroupUsers | internal/controller/controller_common.go:114-138 | both lists are strictly sorted; the desired members are the declared ones, or existing and declared ones together; the undeclared ones are the existing ones that are not declared |
| Groups.GroupSettles | internal/controller/controller_common.go:114-138 | applied to its own result nothing changes; drift is reported again when merging, none when authoritative |
| Groups.CreatedGroupSettles | internal/controller/argocduser_controller.go:544-556 | a Group created as declared keeps its list in the next reconcile if and only if the declared list is strictly sorted |
| Groups.MembersOnlyGrow | internal/controller/argocduser_controller.go:583-598 | no run of merging reconciles ever removes a member |
| Groups.ReconcileArgoUsersGroup | internal/controller/argocduser_controller.go:526-600 | the closed form of the Group and of the drift; merging keeps every member, in every single change under interference and over the whole call alone; every change pays one unit of debt, whether or not an Update is also sent for an unchanged list; a failure leaves the Group as it was or as desired |
| Cleanup.DeleteAppProject | internal/controller/argocduser_controller.go:666-693 | success means gone or terminating and otherwise as it was, and nothing written for it is left; failure leaves it so or untouched; a calm call succeeds |
| Cleanup.RemoveEntries | internal/controller/argocduser_controller.go:695-743 | success takes out exactly the three keys of this name and leaves all other data; none that the operator wrote is left, under interference too; a missing object is no failure |
| Cleanup.RemoveFoundEntries | internal/controller/argocduser_controller.go:706-718 | a patch from a read that may be old takes out this name's keys; what others keep there survives exactly unless the read held only own keys and theirs came later |
| Cleanup.RemovalIsolation | internal/controller/argocduser_controller.go:706-737 | the data of others survives the removal if and only if the read was empty or held a key of theirs, or none is stored |
| Cleanup.DeleteGroups | internal/controller/argocduser_controller.go:637-664 | deletes the three Groups only where the operator alone decides their members, else changes nothing |
| Cleanup.CleanupResources | internal/controller/argocduser_controller.go:602-628 | success means nothing written for this name is left, under interference; on its own, every part is done on success, and done or untouched on failure |
| Cleanup.ProgressAdds | internal/controller/argocduser_controller.go:602-628 | partial clean-ups add up, and what is done stays done |
| Cleanup.CleanupRetries | internal/controller/argocduser_controller.go:602-628 | any number of partial clean-ups and one complete one amount to one complete clean-up of the first state |
| Cleanup.CleanedUnique | internal/controller/argocduser_controller.go:602-743 | two complete clean-ups of one state leave the same cluster, but for how far the AppProject is on its way out |
| Cleanup.CleanedThenChanged | internal/controller/argocduser_controller.go:115-133 | removing the finalizer afterwards undoes nothing of a clean-up |
| Cleanup.CleanedFrame | internal/controller/argocduser_controller.go:666-743 | AppProject, account keys and password keys of this name are gone, those and the Groups of every other name are as they were |
| Cleanup.CleanedEmptiesConfigMap | internal/controller/argocduser_controller.go:706-713 | a clean-up leaves `argocd-cm` without data if and only if it held nothing but keys of this name |
| UserController.RoleFrameKeeps | internal/controller/argocduser_controller.go:415-448 | work on one role leaves what is right for another role right |
| UserController.ProvidedTogether | internal/controller/argocduser_controller.go:144-162 | none of the three parts of a reconcile undoes an earlier one |
| UserController.ContentsAreOwn | internal/controller/argocduser_controller.go:144-162 | providing for one ArgocdUser touches nobody else's objects or entries |
| UserController.CleanupIsOwn | internal/controller/argocduser_controller.go:602-628 | nor does cleaning up after it |
| UserController.ProjectWritesTwice | internal/controller/argocduser_controller.go:144-162 | writes that each carry targets of single moments do so together, though the index moves on |
| UserController.AnswerKept | internal/controller/argocduser_controller.go:415-448 | work on one role does not change what a calm call answers for another |
| UserController.ReadyIsServed | internal/controller/argocduser_controller.go:415-448 | with the shared objects there and passwords that can be hashed, no error of the operator's own is left to return |
| UserController.RoleKeepsMembers | internal/controller/argocduser_controller.go:563-598 | nobody is lost from any of the three Groups while one of them is reconciled in merging mode |
| UserController.GroupsLeftAlone | internal/controller/argocduser_controller.go:637-664 | a clean-up, complete or partial, that is not to take the Groups leaves them as they were |
| UserController.ArgocdUserReconciler.AccessAndContents | internal/controller/argocduser_controller.go:144-162 | the parts of a reconcile of its own add up to one that serves the ArgocdUser, as far as its outcome says |
| UserController.ArgocdUserReconciler.AccessAndCalmContents | internal/controller/argocduser_controller.go:144-162 | the same where no call failed: what the first parts established stands whatever the last one answers |
| UserController.AddFinalizer | internal/controller/argocduser_controller.go:135-142 | work goes on only with the finalizer in place |
| UserController.RemoveFinalizer | internal/controller/argocduser_controller.go:124-129 | the finalizer goes only when nothing written for the name is left |
| UserController.ArgocdUserReconciler.ReconcileRole | internal/controller/argocduser_controller.go:418-425 | success makes one role right and touches only its own two keys and its Group; where membership is merged no member is lost, whatever the outcome; a calm call answers what the cluster before it says |
| UserController.ArgocdUserReconciler.ReconcileStaticUser | internal/controller/argocduser_controller.go:415-448 | success makes all three roles right at once, "admin", "view" and "sync" each by its own part of the spec; by annotation, or default where there is none: merging loses no member of any Group, authoritative leaves exactly the declared ones; a calm call makes every role right before the first that cannot be served, and returns that role's own error |
| UserController.ArgocdUserReconciler.ReconcileAccess | internal/controller/argocduser_controller.go:144-152 | success leaves a binding of the declared admins to a ClusterRole that is in the cluster, is as desired and is no other ArgocdUser's; nothing else changes |
| UserController.ArgocdUserReconciler.Provide | internal/controller/argocduser_controller.go:144-164 | success leaves everything the ArgocdUser stands for in place at once, roles and repositories of the AppProject included; in a calm call access and AppProject are in place whatever the outcome, and the roles as far as they can be |
| UserController.ArgocdUserReconciler.ProvideContents | internal/controller/argocduser_controller.go:154-162 | AppProject first, then static users, which leave the AppProject alone; a calm call leaves the AppProject in line even if a static user fails |
| UserController.ArgocdUserReconciler.Dismiss | internal/controller/argocduser_controller.go:115-133 | success means that the clean-up is complete with respect to the state before, that nothing written is left and that the finalizer is gone; failure leaves each part done or untouched; nothing of others is touched; the Groups stay as they were for the annotation "false", and are gone on success for "true" where Groups are installed; without annotation the default decides |
| UserController.ArgocdUserReconciler.Reconcile | internal/controller/argocduser_controller.go:99-165 | under interference: every single change keeps the worker's guarantee, every write to the AppProject carries one moment of namespaces and one of sources or cleans it up, and success for an ArgocdUser on its way out leaves nothing written; alone: success means everything provided, each role by its own part of the spec, or a complete clean-up and the finalizer gone; failure partway through a clean-up leaves each part done or untouched; Groups go by annotation, else default; objects of others and their entries in shared ones stay as they were; an ArgocdUser without finalizer that is being deleted is left alone; a calm call leaves finalizer, access and AppProject in place whatever the outcome, every role right before the first that cannot be served, with that role's own error, and succeeds if the shared objects are there and the passwords can be hashed |
| OwnSteps.PutOwn | internal/controller/argocduser_controller.go:211-229 | creating or replacing one of its own objects keeps the worker's guarantee |
| OwnSteps.OwnChange | internal/controller/argocduser_controller.go:300-328 | a change of nothing but one of its own objects keeps the guarantee, unless it changes a roleRef |
| OwnSteps.PatchOwn | internal/controller/argocduser_controller.go:471-497 | patching its own keys of a shared object from an old read keeps the guarantee: no other key changes, except that a clean-up may empty the object |
| OwnSteps.PatchLeaves | internal/controller/argocduser_controller.go:706-737 | after a patch, edited keys are as edited and all others as stored, unless the patch drops all data; the history of written entries changes for the keys concerned only |
| Lifecycle.GuaranteeMeetsRely | internal/controller/argocduser_controller.go:99-165 | what one worker guarantees is what every other worker relies on |
| Lifecycle.OthersMeetRely | internal/controller/namespace_controller.go:335-387 | so are the steps of the namespace controller and of people |
| Lifecycle.OwnObjectsDisjoint | internal/controller/argocduser_controller.go:237-540 | workers of different names share no object but argocd-cm and argocd-secret |
| Lifecycle.WorkerKeepsSafe | internal/controller/argocduser_controller.go:115-142 | one change of a worker keeps safety |
| Lifecycle.LifecycleSafety | internal/controller/argocduser_controller.go:115-162 | at every moment of every interleaved run, what was written for a name is there only while its ArgocdUser carries the finalizer |
| Lifecycle.EntriesSurvive | internal/controller/argocduser_controller.go:471-497 | over any run of the workers of other names and the namespace controller, an entry of a shared object stays as it is, unless at some moment a clean-up empties the object |
| Lifecycle.OnlyLeaversEmpty | internal/controller/argocduser_controller.go:706-737 | only the worker of an ArgocdUser marked for deletion empties an object that holds entries of others |
| Lifecycle.ReposOnlyGrow | internal/controller/argocduser_controller.go:390-399 | over any run of the operator no repository is dropped from an AppProject |
| Quiescence.OtherDebt | internal/controller/argocduser_controller.go:457-482 | a call for one role leaves both debts of every other role as they are |
| Quiescence.WritesPayDebt | internal/controller/argocduser_controller.go:450-600 | every change lowers the total debt |
| Quiescence.FinitelyManyWrites | internal/controller/argocduser_controller.go:759-800 | any sequence of calls makes at most as many changes as the debt at its start, at most four per role |
| Quiescence.NothingLeftToWrite | internal/controller/argocduser_controller.go:469-598 | without debt nothing is changed |
| Quiescence.ConfigTurn | internal/controller/argocduser_controller.go:450-524 | one call for a static user is such a call; if nothing fails its debt is paid |
| Quiescence.GroupTurn | internal/controller/argocduser_controller.go:526-600 | so is one for a Group; if nothing fails its debt is paid or goes down |
| Quiescence.CallProgresses | internal/controller/argocduser_controller.go:450-600 | progress of one role is kept by calls for the others and completed by its own |
| Quiescence.Churn | internal/controller/argocduser_controller.go:450-600 | the calls as coded, any sequence of them with failures anywhere, stay within that bound; if none fails, one call for the static user and two for the Group pay the whole debt of a role |

## Left out

- Operation.Operate: takes each reconcile as one whole; for reconciles interleaved call by call the claim is the weaker one of `UserProjects.ReconcileAppProject` (each write has the index of one moment), because the ArgocdUser controller can then write an index that is no longer the present one.
- Operation.Operate: assumes that nobody but the operator edits or creates AppProjects; others may delete them.
- Groups.ReconcileArgoUsersGroup: Events, metrics and log lines are not modelled; the list of undeclared members they report is.
- ApiClient.Client.Get: reads the present state, not that of a lagging informer cache.
- ApiClient.Client.ListProjects: reads all pages at once, from one namespace.
- StaticUsers.HashPassword: counts characters as bytes; the salt is an arbitrary number; bcrypt's own failures are an arbitrary empty hash.
- StaticUsers.ReconcileAccount: the panic is reported as an error; that the process recovers and the mutex is released is Go's and controller-runtime's doing.
- Projects.CreateAppProj: role policies are an opaque function of the team name, and the white and black lists of cluster resources are left out: constants built from one name, never compared by either reconcile.
- Bindings.ReconcileClusterRole: the rule body is an opaque function of the name; SetControllerReference is taken to succeed.
- Projects.Retarget: nil and empty lists are one value; the code, too, treats them alike here. For binding subjects, where it does not, the model follows it.
- MergePatch.PatchIsolation: of a ConfigMap or Secret only the `data` member is modelled, absent or an object of strings; the operator edits no other.
- Quiescence.Churn: counts changes of what is stored, which is what wakes the operator. Whether the code sends an Update for a Group whose list is right depends on the Go type of `Group.Users`, which is not part of this model: both are allowed, and such an Update changes nothing.
- NamesetModule.Nameset.All: walks the whole set; no caller in the controllers stops early. `Filter` keeps the early stop.
- Names are split where one Go function is too long for one contract: `Observe`, `PushAll`, `UpdateProjects`, `Admit`, `Provide`, `Dismiss` and the like are sections of the two `Reconcile` functions in their order.
- Watches other than the name parser, manager set-up, CRD discovery, environment variables and their parsing (`ParseBool`, comma lists): taken as given values.
- Garbage collection of ClusterRoles and bindings through owner references: done by Kubernetes.
- Locks: a locked section is one step; deadlock and fairness are not stated.
