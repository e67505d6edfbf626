/** labelToProjects: the period-separated value of a namespace label, read as a set of project names. */
module Labels {
  import opened Collections
  import opened NamesetModule

  predicate DotFree(s: string) {
    '.' !in s
  }

  /** strings.Split(l, "."): the pieces between consecutive dots, empty pieces included. */
  function Split(l: string): (pieces: seq<string>)
    ensures pieces != []
  {
    if l == "" then [""]
    else
      var rest := Split(l[1..]);
      if l[0] == '.' then [""] + rest
      else [[l[0]] + rest[0]] + rest[1..]
  }

  function Join(pieces: seq<string>): string {
    if pieces == [] then ""
    else if |pieces| == 1 then pieces[0]
    else pieces[0] + "." + Join(pieces[1..])
  }

  /** The projects named by a label value. */
  function LabelSet(l: string): set<string> {
    set s | s in Split(l) && s != ""
  }

  method LabelToProjects(l: string) returns (result: Nameset<string>)
    ensures fresh(result) && result.Members() == LabelSet(l)
  {
    result := new Nameset<string>();
    if l == "" {
      return;
    }
    var pieces := Split(l);
    for i := 0 to |pieces|
      invariant fresh(result)
      invariant result.Members() == set s | s in pieces[..i] && s != ""
    {
      ListingPrefix(pieces, i);
      if pieces[i] != "" {
        result.Add(pieces[i]);
      }
    }
    assert pieces[..|pieces|] == pieces;
  }

  lemma {:induction false} SplitDotFree(p: string)
    requires DotFree(p)
    ensures Split(p) == [p]
  {
    if p != "" {
      SplitDotFree(p[1..]);
      assert p == [p[0]] + p[1..];
    }
  }

  lemma {:induction false} SplitAtDot(p: string, rest: string)
    requires DotFree(p)
    ensures Split(p + "." + rest) == [p] + Split(rest)
  {
    if p == "" {
      assert p + "." + rest == "." + rest;
      assert ("." + rest)[1..] == rest;
    } else {
      SplitAtDot(p[1..], rest);
      assert (p + "." + rest)[1..] == p[1..] + "." + rest;
      assert p == [p[0]] + p[1..];
    }
  }

  lemma {:induction false} SplitJoin(pieces: seq<string>)
    requires pieces != [] && forall p | p in pieces :: DotFree(p)
    ensures Split(Join(pieces)) == pieces
  {
    if |pieces| == 1 {
      SplitDotFree(pieces[0]);
    } else {
      SplitJoin(pieces[1..]);
      SplitAtDot(pieces[0], Join(pieces[1..]));
    }
  }

  lemma {:induction false} PiecesDotFree(l: string)
    ensures forall p | p in Split(l) :: DotFree(p)
  {
    if l != "" {
      PiecesDotFree(l[1..]);
      assert Split(l[1..])[0] in Split(l[1..]);
    }
  }

  lemma {:induction false} JoinSplit(l: string)
    ensures Join(Split(l)) == l
  {
    if l != "" {
      JoinSplit(l[1..]);
      var rest := Split(l[1..]);
      assert l == [l[0]] + l[1..];
      if l[0] == '.' {
        assert Split(l)[1..] == rest;
      } else if |rest| > 1 {
        assert Split(l)[1..] == rest[1..];
      }
    }
  }

  /**
   * Any dot-joined listing of a set of dot-free names reads back as that set. Empty pieces stand for
   * extra leading, trailing and repeated dots; repeated names are allowed too.
   */
  lemma LabelRoundTrip(names: set<string>, pieces: seq<string>)
    requires pieces != [] && forall p | p in pieces :: DotFree(p)
    requires names == set p | p in pieces && p != ""
    ensures LabelSet(Join(pieces)) == names
  {
    SplitJoin(pieces);
  }

  /** l[i..j] is a non-empty run without dots that cannot be extended on either side. */
  ghost predicate MaximalSegment(l: string, i: int, j: int) {
    && 0 <= i < j <= |l|
    && DotFree(l[i..j])
    && (i == 0 || l[i - 1] == '.')
    && (j == |l| || l[j] == '.')
  }

  /** No position inside a dot-free slice holds a dot. */
  lemma DotFreeSlice(l: string, i: int, j: int)
    requires 0 <= i <= j <= |l| && DotFree(l[i..j])
    ensures forall m | i <= m < j :: l[m] != '.'
  {
  }

  ghost predicate HasSegment(l: string, s: string) {
    exists i, j :: MaximalSegment(l, i, j) && l[i..j] == s
  }

  /** The first piece of a split ends at the first dot. */
  lemma {:induction false} FirstPiece(l: string)
    ensures DotFree(Split(l)[0]) && Split(l)[0] <= l
    ensures var k := |Split(l)[0]|; k == |l| || l[k] == '.'
    ensures |Split(l)| == 1 ==> Split(l)[0] == l
    ensures |Split(l)| > 1 ==> |Split(l)[0]| < |l| && Split(l)[1..] == Split(l[|Split(l)[0]| + 1..])
  {
    if l != "" && l[0] != '.' {
      FirstPiece(l[1..]);
      var k := |Split(l[1..])[0]|;
      assert l == [l[0]] + l[1..];
      if |Split(l)| > 1 {
        assert l[1..][k + 1..] == l[k + 2..];
      }
    }
  }

  /** For every label value, the projects are exactly its maximal non-empty dot-free segments. */
  lemma {:induction false} LabelSegments(l: string, s: string)
    ensures s in LabelSet(l) <==> HasSegment(l, s)
    decreases |l|
  {
    FirstPiece(l);
    var first := Split(l)[0];
    var k := |first|;
    assert first == l[0..k];
    assert Split(l) == [first] + Split(l)[1..];
    assert k > 0 ==> MaximalSegment(l, 0, k);
    if k == |l| {
      assert Split(l) == [first] by {
        SplitDotFree(l);
      }
      forall i, j | MaximalSegment(l, i, j) ensures i == 0 && j == k {
        assert DotFree(l);
      }
    } else {
      assert |Split(l)| > 1 by {
        assert l[k] == '.' && first != l;
      }
      var rest := l[k + 1..];
      LabelSegments(rest, s);
      forall i, j | MaximalSegment(rest, i, j)
        ensures MaximalSegment(l, i + k + 1, j + k + 1) && l[i + k + 1..j + k + 1] == rest[i..j]
      {
        assert l[i + k + 1..j + k + 1] == rest[i..j];
      }
      forall i, j | MaximalSegment(l, i, j)
        ensures (i == 0 && j == k)
                  || (i > k && MaximalSegment(rest, i - k - 1, j - k - 1) && l[i..j] == rest[i - k - 1..j - k - 1])
      {
        DotFreeSlice(l, i, j);
        DotFreeSlice(l, 0, k);
        if i > k {
          assert l[i..j] == rest[i - k - 1..j - k - 1];
        }
      }
    }
  }
}
