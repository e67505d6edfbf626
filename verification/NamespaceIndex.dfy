/** The namespace index as a value: who may deploy where, and whose applications a namespace may hold. */
module NamespaceIndex {
  import opened Collections
  import opened ClusterModel

  /** `members` holds (namespace, project) pairs, `trusts` holds (namespace, project) pairs of source labels. */
  datatype Index = Index(members: set<(string, string)>, trusts: set<(string, string)>)

  ghost function ProjectsOf(ix: Index, ns: string): (r: set<string>)
    ensures forall p :: p in r <==> (ns, p) in ix.members
  {
    set e | e in ix.members && e.0 == ns :: e.1
  }

  ghost function NamespacesOf(ix: Index, proj: string): (r: set<string>)
    ensures forall n :: n in r <==> (n, proj) in ix.members
  {
    set e | e in ix.members && e.1 == proj :: e.0
  }

  /** What a namespace trusts: the projects whose applications it may hold. */
  ghost function TrustedBy(ix: Index, ns: string): (r: set<string>)
    ensures forall p :: p in r <==> (ns, p) in ix.trusts
  {
    set e | e in ix.trusts && e.0 == ns :: e.1
  }

  /** The source namespaces of a project: those that trust it. */
  ghost function SourcesOf(ix: Index, proj: string): (r: set<string>)
    ensures forall n :: n in r <==> (n, proj) in ix.trusts
  {
    set e | e in ix.trusts && e.1 == proj :: e.0
  }

  ghost function DestNamespaces(destinations: seq<Destination>): set<string> {
    set d | d in destinations :: d.ns
  }

  /** The membership pairs that the destinations of one AppProject stand for; "default" is left alone. */
  ghost function PairsOf(name: string, destinations: seq<Destination>): set<(string, string)> {
    if name == "default" then {} else set d | d in destinations :: (d.ns, name)
  }

  lemma PairsOfStep(name: string, destinations: seq<Destination>, i: nat)
    requires i < |destinations|
    ensures PairsOf(name, destinations[..i + 1])
         == PairsOf(name, destinations[..i]) + if name == "default" then {} else {(destinations[i].ns, name)}
  {
    assert destinations[..i + 1] == destinations[..i] + [destinations[i]];
  }

  ghost function PairsOfAll(items: seq<(string, AppProject)>): set<(string, string)> {
    if items == [] then {}
    else PairsOfAll(items[..|items| - 1]) + PairsOf(items[|items| - 1].0, items[|items| - 1].1.destinations)
  }

  lemma {:induction false} PairsOfAllMember(items: seq<(string, AppProject)>, ns: string, proj: string)
    ensures (ns, proj) in PairsOfAll(items)
            <==> proj != "default" && exists a :: (proj, a) in items && ns in DestNamespaces(a.destinations)
  {
    if items != [] {
      var rest, last := items[..|items| - 1], items[|items| - 1];
      assert items == rest + [last];
      PairsOfAllMember(rest, ns, proj);
    }
  }
}
