/**
 * Group names as paths. The round-robin queue splits a group on its dots and walks one tree level
 * per segment; the node at the end of the walk carries the dot-joined path as its group key.
 */
module GroupPath {

  type Path = seq<string>

  /** Position of the last dot, or -1. */
  function LastDot(s: string): (i: int)
    ensures -1 <= i < |s|
    ensures i >= 0 ==> s[i] == '.'
    ensures forall j :: i < j < |s| ==> s[j] != '.'
  {
    if s == "" then -1
    else if s[|s| - 1] == '.' then |s| - 1
    else LastDot(s[..|s| - 1])
  }

  predicate DotFree(s: string) {
    forall i :: 0 <= i < |s| ==> s[i] != '.'
  }

  /** `strings.Split(group, ".")`. */
  function Split(s: string): (p: Path)
    ensures |p| >= 1
    ensures forall i :: 0 <= i < |p| ==> DotFree(p[i])
    decreases |s|
  {
    var i := LastDot(s);
    if i < 0 then [s] else Split(s[..i]) + [s[i + 1..]]
  }

  /** The group key of the node at a path; the root's is empty. */
  function Join(p: Path): string {
    if p == [] then ""
    else if |p| == 1 then p[0]
    else Join(p[..|p| - 1]) + "." + p[|p| - 1]
  }

  /** Groups the round-robin queue and its snapshots handle: no empty segment. */
  predicate ValidGroup(s: string) {
    forall i :: 0 <= i < |Split(s)| ==> Split(s)[i] != ""
  }

  predicate ValidPath(p: Path) {
    forall i :: 0 <= i < |p| ==> p[i] != "" && DotFree(p[i])
  }

  lemma {:induction false} JoinSplit(s: string)
    ensures Join(Split(s)) == s
    decreases |s|
  {
    var i := LastDot(s);
    if i >= 0 {
      JoinSplit(s[..i]);
      assert Split(s)[..|Split(s)| - 1] == Split(s[..i]);
      assert s == s[..i] + "." + s[i + 1..];
    }
  }

  lemma SplitAtLastDot(front: string, last: string)
    requires DotFree(last)
    ensures Split(front + "." + last) == Split(front) + [last]
  {
    var s := front + "." + last;
    var d := |front|;
    assert s[d] == '.';
    assert forall j :: d < j < |s| ==> s[j] == last[j - d - 1];
    assert LastDot(s) == d;
    assert s[..d] == front && s[d + 1..] == last;
  }

  lemma NoDotSplit(s: string)
    requires DotFree(s)
    ensures Split(s) == [s]
  {
  }

  lemma {:induction false} SplitJoin(p: Path)
    requires p != [] && forall i :: 0 <= i < |p| ==> DotFree(p[i])
    ensures Split(Join(p)) == p
    decreases |p|
  {
    if |p| == 1 {
      NoDotSplit(p[0]);
    } else {
      var front, last := p[..|p| - 1], p[|p| - 1];
      SplitJoin(front);
      SplitAtLastDot(Join(front), last);
      assert p == front + [last];
    }
  }

  /** Distinct nodes have distinct group keys. */
  lemma JoinInjective(p: Path, q: Path)
    requires ValidPath(p) && ValidPath(q) && Join(p) == Join(q)
    ensures p == q
  {
    if p == [] || q == [] {
      JoinNonEmpty(p);
      JoinNonEmpty(q);
    } else {
      SplitJoin(p);
      SplitJoin(q);
    }
  }

  lemma JoinNonEmpty(p: Path)
    requires ValidPath(p)
    ensures Join(p) == "" <==> p == []
  {
  }

  /** The key as the source builds it, one level at a time; below an empty key it takes the name alone. */
  function GroupKey(p: Path): string {
    if p == [] then ""
    else
      var key := GroupKey(p[..|p| - 1]);
      if key == "" then p[|p| - 1] else key + "." + p[|p| - 1]
  }

  /** The key is the dot-joined path exactly if the path does not start with an empty segment. */
  lemma KeyIsJoinIff(p: Path)
    ensures GroupKey(p) == Join(p) <==> |p| <= 1 || p[0] != ""
  {
    if |p| > 1 {
      if p[0] != "" { FullKey(p); } else { ShorterKey(p); }
    }
  }

  lemma {:induction false} FullKey(p: Path)
    requires p != [] && p[0] != ""
    ensures GroupKey(p) == Join(p) != ""
  {
    if |p| > 1 { FullKey(p[..|p| - 1]); }
  }

  lemma {:induction false} ShorterKey(p: Path)
    requires |p| > 1 && p[0] == ""
    ensures |GroupKey(p)| < |Join(p)|
  {
    var front := p[..|p| - 1];
    if |front| > 1 {
      ShorterKey(front);
    } else {
      assert GroupKey(front[..0]) == "";
    }
  }

  /** So the group ".a" shares its counter with the group "a". */
  lemma LeadingDotShares(a: string)
    requires a != "" && DotFree(a)
    ensures Split("." + a) == ["", a] && Split(a) == [a] && GroupKey(Split("." + a)) == GroupKey(Split(a))
  {
    NoDotSplit(a);
    NoDotSplit("");
    SplitAtLastDot("", a);
    assert "" + "." + a == "." + a;
    assert ["", a][..1] == [""] && [""][..0] == [] && [a][..0] == [];
  }
}
