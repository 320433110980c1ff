/** Which file system a directory is on: the longest mount point above it, over an unordered table. */
module Mounts {
  import opened Bytes
  import opened Paths

  /** The code's test for a mount point that dir may be under. */
  predicate Matches(point: Path, dir: Path) {
    point == [SLASH] || Slashed(point) <= dir || dir == point
  }

  /** point is a longest one of the mount points dir may be under. */
  ghost predicate Longest(mounts: map<Path, Bytes>, dir: Path, point: Path) {
    && point in mounts && Matches(point, dir)
    && forall q :: q in mounts && Matches(q, dir) ==> |q| <= |point|
  }

  /** The type of the longest matching mount point, or "" when none matches. */
  method FsTypeName(mounts: map<Path, Bytes>, dir: Path) returns (typ: Bytes)
    ensures (forall q :: q in mounts ==> !Matches(q, dir)) ==> typ == []
    ensures dir != [] && dir[0] == SLASH ==> forall q :: Longest(mounts, dir, q) ==> typ == mounts[q]
    ensures (exists q :: q in mounts && Matches(q, dir)) ==> exists q :: Longest(mounts, dir, q) && typ == mounts[q]
  {
    hide Matches;
    var best: Bytes := [];
    var bestLen := -1;
    ghost var bestPoint: Path := [];
    var rest := mounts.Keys;
    while rest != {}
      invariant rest <= mounts.Keys
      invariant bestLen == -1 ==> best == [] && forall q :: q in mounts && q !in rest ==> !Matches(q, dir)
      invariant bestLen != -1 ==>
        bestPoint in mounts && Matches(bestPoint, dir) && best == mounts[bestPoint] && bestLen == |bestPoint|
      invariant forall q :: q in mounts && q !in rest && Matches(q, dir) ==> |q| <= bestLen
      decreases rest
    {
      var point :| point in rest;
      if Matches(point, dir) && |point| > bestLen {
        best, bestLen := mounts[point], |point|;
        bestPoint := point;
      }
      rest := rest - {point};
    }
    typ := best;
    if bestLen != -1 {
      assert Longest(mounts, dir, bestPoint);
      if dir != [] && dir[0] == SLASH {
        forall q | Longest(mounts, dir, q) ensures q == bestPoint {
          LongestIsUnique(mounts, dir, q, bestPoint);
        }
      }
    }
  }

  lemma {:induction false} MatchIsPrefix(point: Path, dir: Path)
    requires dir != [] && dir[0] == SLASH && Matches(point, dir)
    ensures point <= dir
  {
  }

  /** For an absolute directory there is only one longest point, so the order of the table cannot matter. */
  lemma {:induction false} LongestIsUnique(mounts: map<Path, Bytes>, dir: Path, p: Path, q: Path)
    requires dir != [] && dir[0] == SLASH && Longest(mounts, dir, p) && Longest(mounts, dir, q)
    ensures p == q
  {
    hide Matches;
    MatchIsPrefix(p, dir);
    MatchIsPrefix(q, dir);
  }

  /** And it is the innermost: every other mount point above the directory is above it too, which is how
      the kernel resolves a path. */
  lemma {:induction false} LongestIsInnermost(mounts: map<Path, Bytes>, dir: Path, p: Path, q: Path)
    requires Clean(dir) && Clean(p) && Clean(q)
    requires Longest(mounts, dir, p) && q in mounts && Matches(q, dir)
    ensures q == p || Contains(q, p)
  {
    hide Clean, CleanRelative;
    MatchIsAncestor(p, dir);
    MatchIsAncestor(q, dir);
    AncestorsAreComparable(p, q, dir);
    if Contains(p, q) {
      ContainsIsShorter(p, q);
    }
  }

  /** The test finds exactly the mount points the directory is at or below. */
  lemma {:induction false} MatchIsAncestor(point: Path, dir: Path)
    requires Clean(point) && Clean(dir)
    ensures Matches(point, dir) <==> point == dir || Contains(point, dir)
  {
  }

  lemma {:induction false} ContainsIsShorter(p: Path, q: Path)
    requires Contains(p, q) && Clean(p) && Clean(q) && |q| <= |p|
    ensures p == q
  {
    if p != [SLASH] { CleanHasNoTrailingSlash(p); }
  }
}
