/** Runs that answer a given sequence of requests, and what they come to when no call fails. */
module Reliability {
  import opened Collections
  import opened Labels
  import opened NamespaceIndex
  import opened ClusterModel
  import opened ApiClient
  import opened Projects
  import opened NamespaceController
  import opened UserProjects
  import opened UserController
  import opened Agreement

  /** Who is to be reconciled; in between others may act. */
  datatype Request = ForNamespace(name: string) | ForUser(name: string) | FromOthers

  ghost predicate Answers(e: Event, r: Request) {
    match r
    case ForNamespace(n) => e.NamespaceEvent? && e.name == n
    case ForUser(n) => e.UserEvent? && e.name == n
    case FromOthers => e.Outside?
  }

  /** The run answers the requests one by one. */
  ghost predicate AnswersAll(states: seq<State>, events: seq<Event>, requests: seq<Request>) {
    History(states, events) && |events| == |requests| && forall i | 0 <= i < |requests| ::
        Answers(events[i], requests[i])
  }

  /**
   * A reconcile in which no call failed: the namespace was looked up, every AppProject that was tried was
   * brought in line, and so was that of an ArgocdUser that stays.
   */
  ghost predicate WellServed(s: State, e: Event, s': State) {
    match e
    case NamespaceEvent(n, observed, attempts) => !observed.Failed? && Elements(attempts) * s'.dirty == {}
    case UserEvent(n) => UserStays(s.cluster, n) ==> HasTargetsOf(s'.cluster, n, s'.index, s'.index)
    case Outside => true
  }

  ghost predicate AllWellServed(states: seq<State>, events: seq<Event>) {
    |states| == |events| + 1 && forall i | 0 <= i < |events| :: WellServed(states[i], events[i], states[i + 1])
  }

  /**
   * What the controller reports of a reconcile: a namespace is done exactly if it was found to be gone, or
   * was found and every AppProject concerned is in line; an ArgocdUser only if its AppProject is in line.
   */
  ghost predicate Reported(s: State, e: Event, outcome: Outcome, s': State) {
    match e
    case NamespaceEvent(_, observed, attempts) =>
      outcome.Done? <==> observed.NotFound? || (observed.Ok? && Elements(attempts) * s'.dirty == {})
    case UserEvent(_) => outcome.Done? ==> WellServed(s, e, s')
    case Outside => true
  }

  ghost predicate AllReported(states: seq<State>, events: seq<Event>, outcomes: seq<Outcome>) {
    && |states| == |events| + 1 && |outcomes| == |events|
    && forall i | 0 <= i < |events| :: Reported(states[i], events[i], outcomes[i], states[i + 1])
  }

  /** No AppProject is ever marked. */
  lemma {:induction false} NothingMarked(states: seq<State>, events: seq<Event>, i: nat)
    requires History(states, events) && AllWellServed(states, events) && states[0].dirty == {} && i < |states|
    ensures states[i].dirty == {}
  {
    if i > 0 {
      NothingMarked(states, events, i - 1);
      assert Follows(states[i - 1], events[i - 1], states[i - 1 + 1]);
      assert WellServed(states[i - 1], events[i - 1], states[i - 1 + 1]);
      forall p ensures p !in states[i].dirty {
        var e := events[i - 1];
        assert e.NamespaceEvent? ==> p !in Elements(e.attempts) * states[i].dirty;
      }
    }
  }

  /** A namespace that is there is found. */
  lemma RequestFindsNamespace(states: seq<State>, events: seq<Event>, requests: seq<Request>, n: string, i: nat)
    requires AnswersAll(states, events, requests) && AllWellServed(states, events)
    requires i < |requests| && requests[i] == ForNamespace(n) && NamespaceKey(n) in states[i].cluster.objects
    ensures Sees(events[i], n)
  {
    assert Answers(events[i], requests[i]) && Follows(states[i], events[i], states[i + 1]);
    assert WellServed(states[i], events[i], states[i + 1]);
  }

  /** There is a last look, not before one that is known. */
  lemma {:induction false} LastLookAfter(events: seq<Event>, n: string, i: nat) returns (k: nat)
    requires i < |events| && Sees(events[i], n)
    ensures i <= k && LastLook(events, n, k)
    decreases |events|
  {
    var last := |events| - 1;
    if Sees(events[last], n) {
      k := last;
    } else {
      assert events[..last][i] == events[i];
      k := LastLookAfter(events[..last], n, i);
      assert events[..last][k] == events[k];
      forall j | k < j < |events| ensures !Sees(events[j], n) {
        assert j < last ==> events[..last][j] == events[j];
      }
    }
  }

  /** A request for this namespace was answered when its label was already what it is at the end. */
  ghost predicate HandledSinceChange(states: seq<State>, requests: seq<Request>, n: string)
    requires |states| == |requests| + 1
  {
    exists i: nat :: i < |requests| && HandledLast(states, requests, n, i)
  }

  ghost predicate HandledLast(states: seq<State>, requests: seq<Request>, n: string, i: nat)
    requires |states| == |requests| + 1 && i < |requests|
  {
    && requests[i] == ForNamespace(n) && NamespaceKey(n) in states[i].cluster.objects
    && forall j | i <= j < |states| :: LabelOf(states[j].cluster, n) == LabelOf(states[i].cluster, n)
  }

  lemma HandledIsUpToDate(states: seq<State>, events: seq<Event>, requests: seq<Request>, n: string)
    requires AnswersAll(states, events, requests) && AllWellServed(states, events)
    requires HandledSinceChange(states, requests, n)
    ensures LabelUpToDate(states, events, n)
  {
    var i: nat :| i < |requests| && HandledLast(states, requests, n, i);
    RequestFindsNamespace(states, events, requests, n, i);
    var k := LastLookAfter(events, n, i);
    assert LabelOf(states[|events|].cluster, n) == LabelOf(states[k].cluster, n);
  }

  /** Nothing was ever asked for this namespace, and what it started with is right. */
  ghost predicate RightFromStart(states: seq<State>, requests: seq<Request>, p: string, n: string)
    requires |states| == |requests| + 1
  {
    && ForNamespace(n) !in requests
    && (n in NamespacesOf(states[0].index, p) <==> p in LabelOf(states[|requests|].cluster, n))
  }

  lemma {:induction false} NeverAskedNeverSeen(events: seq<Event>, n: string)
    requires forall i | 0 <= i < |events| :: !Sees(events[i], n)
    ensures n !in LastSeen(events)
    decreases |events|
  {
    if events != [] {
      var last := |events| - 1;
      assert forall i | 0 <= i < last :: events[..last][i] == events[i];
      NeverAskedNeverSeen(events[..last], n);
      assert !Sees(events[last], n);
    }
  }

  /** Every namespace has been handled since its label last changed, or needed no handling. */
  ghost predicate AllHandled(states: seq<State>, requests: seq<Request>, p: string)
    requires |states| == |requests| + 1
  {
    forall n :: HandledSinceChange(states, requests, n) || RightFromStart(states, requests, p, n)
  }

  /**
   * If no call fails and every namespace has been handled since its label last changed, then an AppProject,
   * "default" apart, has as destinations exactly the namespaces whose label in the cluster names it.
   */
  lemma HandledLabelsAreApplied(states: seq<State>, events: seq<Event>, requests: seq<Request>, p: string)
    requires AnswersAll(states, events, requests) && AllWellServed(states, events)
    requires Agrees(states[0]) && states[0].dirty == {} && AllHandled(states, requests, p)
    requires p != "default" && ProjectKey(p) in states[|events|].cluster.objects
    ensures var o := states[|events|].cluster.objects[ProjectKey(p)].content;
      o.ProjectObject? && DestNamespaces(o.project.destinations) == NamedBy(states[|events|].cluster, p)
  {
    NothingMarked(states, events, |events|);
    forall n
      ensures LabelUpToDate(states, events, n)
              || (n !in LastSeen(events)
                  && (n in NamespacesOf(states[0].index, p) <==> p in LabelOf(states[|events|].cluster, n)))
    {
      if HandledSinceChange(states, requests, n) {
        HandledIsUpToDate(states, events, requests, n);
      } else {
        assert RightFromStart(states, requests, p, n);
        forall i | 0 <= i < |events| ensures !Sees(events[i], n) {
          assert Answers(events[i], requests[i]) && requests[i] in requests;
        }
        NeverAskedNeverSeen(events, n);
      }
    }
    DestinationsAreLabels(states, events, p);
  }
}
