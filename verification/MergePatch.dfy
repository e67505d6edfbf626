/**
 * JSON Merge Patch (section 2 of RFC 7396) on a ConfigMap or Secret. Such an object has a member `data`,
 * an object of strings, which is left out when it is empty.
 */
module MergePatch {
  import opened Collections

  type Data = map<string, string>

  /**
   * The patch says nothing about `data`, or sets it to null, which removes it whole, or lists members of
   * it; of these one set to None stands for null, which removes that member.
   */
  datatype Patch = NoChange | DropData | Members(members: map<string, Option<string>>)

  /** client.MergeFrom(original): what turns `original` into `modified`, data that is empty being absent. */
  function Diff(original: Data, modified: Data): Patch {
    if original == modified then NoChange
    else if modified == map[] then DropData
    else Members((map k | k in original && k !in modified :: None)
                 + (map k | k in modified && (k !in original || original[k] != modified[k]) :: Some(modified[k])))
  }

  /** MergePatch(target, patch). */
  function Apply(target: Data, patch: Patch): Data {
    match patch
    case NoChange => target
    case DropData => map[]
    case Members(m) =>
      (map k | k in target && k !in m :: target[k]) + (map k | k in m && m[k].Some? :: m[k].value)
  }

  ghost predicate SameAt(a: Data, b: Data, k: string) {
    (k in a <==> k in b) && (k in a ==> a[k] == b[k])
  }

  /** An edit that leaves nothing of what was read: its patch drops `data` whole. */
  predicate Wipes(original: Data, modified: Data) {
    modified == map[] && original != map[]
  }

  /** An edit that adds a member or changes its value. */
  ghost predicate Sets(original: Data, modified: Data) {
    exists k :: k in modified && !SameAt(original, modified, k)
  }

  /** Data that is the same at every key is the same. */
  lemma SameEverywhere(a: Data, b: Data)
    requires forall k :: SameAt(a, b, k)
    ensures a == b
  {
    forall k ensures k in a <==> k in b {
      assert SameAt(a, b, k);
    }
    forall k | k in a ensures a[k] == b[k] {
      assert SameAt(a, b, k);
    }
  }

  /** The data afterwards, key by key. */
  lemma ApplyDiff(original: Data, modified: Data, target: Data, k: string)
    ensures SameAt(Apply(target, Diff(original, modified)),
                   if Wipes(original, modified) || !SameAt(original, modified, k) then modified else target, k)
  {
  }

  /**
   * What a patch computed from a read of `original` does to the data found later, whatever that is: a
   * member the editor changed ends up as edited. Any other member is as it is now, unless it is there and
   * the editor left nothing of what was read.
   */
  lemma PatchIsolation(original: Data, modified: Data, target: Data, k: string)
    ensures var result := Apply(target, Diff(original, modified));
      if SameAt(original, modified, k)
      then SameAt(result, target, k) <==> !(Wipes(original, modified) && k in target)
      else SameAt(result, modified, k)
  {
    ApplyDiff(original, modified, target, k);
  }

  /** All that others wrote survives exactly if the edit is no wipe or there is nothing to lose. */
  lemma OthersSurvive(original: Data, modified: Data, target: Data)
    ensures (forall k | SameAt(original, modified, k) :: SameAt(Apply(target, Diff(original, modified)), target, k))
            <==> !(Wipes(original, modified) && !(target.Keys <= original.Keys))
  {
    forall k | SameAt(original, modified, k)
      ensures SameAt(Apply(target, Diff(original, modified)), target, k)
              <==> !(Wipes(original, modified) && k in target)
    {
      PatchIsolation(original, modified, target, k);
    }
    if Wipes(original, modified) && !(target.Keys <= original.Keys) {
      var k :| k in target && k !in original;
      assert SameAt(original, modified, k);
    }
  }

  /** Applied to the very read it was computed from, a patch gives the edited data. */
  lemma PatchRoundTrip(original: Data, modified: Data)
    ensures Apply(original, Diff(original, modified)) == modified
  {
    forall k ensures SameAt(Apply(original, Diff(original, modified)), modified, k) {
      ApplyDiff(original, modified, original, k);
    }
    SameEverywhere(Apply(original, Diff(original, modified)), modified);
  }

  /** Two edits of different keys, one patch after the other. */
  lemma TwoEdits(original: Data, mine: Data, original': Data, theirs: Data, target: Data, k: string)
    requires SameAt(original, mine, k) || SameAt(original', theirs, k)
    ensures var result := Apply(Apply(target, Diff(original, mine)), Diff(original', theirs));
      SameAt(result,
             if Wipes(original', theirs) || !SameAt(original', theirs, k) then theirs
             else if Wipes(original, mine) || !SameAt(original, mine, k) then mine else target, k)
  {
    ApplyDiff(original, mine, target, k);
    ApplyDiff(original', theirs, Apply(target, Diff(original, mine)), k);
  }

  /** Neither edit wipes what the other sets. */
  ghost predicate Apart(original: Data, mine: Data, original': Data, theirs: Data) {
    && !(Wipes(original, mine) && Sets(original', theirs))
    && !(Wipes(original', theirs) && Sets(original, mine))
  }

  lemma ApartCommutes(original: Data, mine: Data, original': Data, theirs: Data, target: Data, k: string)
    requires SameAt(original, mine, k) || SameAt(original', theirs, k)
    requires Apart(original, mine, original', theirs)
    ensures var pq := Apply(Apply(target, Diff(original, mine)), Diff(original', theirs));
      && SameAt(pq, Apply(Apply(target, Diff(original', theirs)), Diff(original, mine)), k)
      && (!SameAt(original, mine, k) ==> SameAt(pq, mine, k))
  {
    TwoEdits(original, mine, original', theirs, target, k);
    TwoEdits(original', theirs, original, mine, target, k);
    assert Wipes(original, mine) && k in theirs ==> SameAt(original', theirs, k);
    assert Wipes(original', theirs) && k in mine ==> SameAt(original, mine, k);
  }

  lemma WipeDoesNotCommute(original: Data, mine: Data, original': Data, theirs: Data, target: Data)
    requires forall k :: SameAt(original, mine, k) || SameAt(original', theirs, k)
    requires Wipes(original, mine) && Sets(original', theirs)
    ensures Apply(Apply(target, Diff(original, mine)), Diff(original', theirs))
            != Apply(Apply(target, Diff(original', theirs)), Diff(original, mine))
  {
    var k :| k in theirs && !SameAt(original', theirs, k);
    TwoEdits(original, mine, original', theirs, target, k);
    TwoEdits(original', theirs, original, mine, target, k);
  }

  /**
   * Editors who start from different reads and change different members: the order of their patches does
   * not matter exactly if neither wipes what the other sets. Then neither edit is lost.
   */
  lemma PatchesCommute(original: Data, mine: Data, original': Data, theirs: Data, target: Data)
    requires forall k :: SameAt(original, mine, k) || SameAt(original', theirs, k)
    ensures var p, q := Diff(original, mine), Diff(original', theirs);
      && (Apply(Apply(target, p), q) == Apply(Apply(target, q), p) <==> Apart(original, mine, original', theirs))
      && (Apart(original, mine, original', theirs) ==>
            forall k :: !SameAt(original, mine, k) ==> SameAt(Apply(Apply(target, p), q), mine, k))
  {
    var p, q := Diff(original, mine), Diff(original', theirs);
    var pq, qp := Apply(Apply(target, p), q), Apply(Apply(target, q), p);
    if Apart(original, mine, original', theirs) {
      forall k ensures SameAt(pq, qp, k) && (!SameAt(original, mine, k) ==> SameAt(pq, mine, k)) {
        ApartCommutes(original, mine, original', theirs, target, k);
      }
      SameEverywhere(pq, qp);
    } else if Wipes(original, mine) && Sets(original', theirs) {
      WipeDoesNotCommute(original, mine, original', theirs, target);
    } else {
      WipeDoesNotCommute(original', theirs, original, mine, target);
    }
  }

  /**
   * A clean-up whose read held one account key and nothing else, when somebody has added `url` meanwhile:
   * the addition is lost.
   */
  lemma WipeLosesAddition()
    ensures var read: Data := map["accounts.a-admin-ci" := "apiKey,login"];
      var now := read["url" := "https://argocd"];
      Apply(now, Diff(read, read - {"accounts.a-admin-ci"})) == map[]
  {
    var read: Data := map["accounts.a-admin-ci" := "apiKey,login"];
    assert read - {"accounts.a-admin-ci"} == map[];
    assert "accounts.a-admin-ci" in read;
  }
}
