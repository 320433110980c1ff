/** Slash-separated paths: splitting, containment, and what makes one clean. */
module Paths {
  import opened Bytes

  type Path = Bytes

  const SLASH: byte := 0x2F
  const DOT: byte := 0x2E

  /** Length of a path up to and including its last slash. */
  function DirLen(p: Path): (n: nat)
    ensures n <= |p|
    ensures n > 0 ==> p[n - 1] == SLASH
    ensures forall i :: n <= i < |p| ==> p[i] != SLASH
  {
    if p == [] then 0 else if p[|p| - 1] == SLASH then |p| else DirLen(p[..|p| - 1])
  }

  /** filepath.Split. */
  function Dir(p: Path): Path {
    p[..DirLen(p)]
  }

  function Base(p: Path): Bytes {
    p[DirLen(p)..]
  }

  lemma {:induction false} DirLenIs(p: Path, n: nat)
    requires n <= |p| && (n > 0 ==> p[n - 1] == SLASH) && forall i :: n <= i < |p| ==> p[i] != SLASH
    ensures DirLen(p) == n
  {
  }

  lemma {:induction false} SplitJoined(p: Path, name: Bytes)
    requires SLASH !in name
    ensures Dir(Dir(p) + name) == Dir(p) && Base(Dir(p) + name) == name
  {
    var n, q := DirLen(p), Dir(p) + name;
    assert forall i :: n <= i < |q| ==> q[i] == name[i - n];
    DirLenIs(q, n);
  }

  // ----- containment

  /** strings.TrimSuffix(p, "/") + "/" */
  function Slashed(p: Path): (q: Path)
    ensures p <= q && q != [] && q[|q| - 1] == SLASH
  {
    if p != [] && p[|p| - 1] == SLASH then p else p + [SLASH]
  }

  /** child lies below parent; both clean. The root directory also contains itself. */
  predicate Contains(parent: Path, child: Path) {
    Slashed(parent) <= child
  }

  /** s[i..j] is a maximal stretch without a slash. */
  ghost predicate IsComponent(s: Path, i: nat, j: nat) {
    && i <= j <= |s|
    && (forall k :: i <= k < j ==> s[k] != SLASH)
    && (i == 0 || s[i - 1] == SLASH)
    && (j == |s| || s[j] == SLASH)
  }

  /** A relative path with no empty, "." or ".." component: in particular not empty and not absolute. */
  ghost predicate CleanRelative(s: Path) {
    forall i: nat, j: nat :: IsComponent(s, i, j) ==> i < j && s[i..j] != [DOT] && s[i..j] != [DOT, DOT]
  }

  /** An absolute path filepath.Clean leaves alone. */
  ghost predicate Clean(p: Path) {
    p == [SLASH] || (|p| > 1 && p[0] == SLASH && CleanRelative(p[1..]))
  }

  lemma {:induction false} ContainsIsTransitive(a: Path, b: Path, c: Path)
    requires Contains(a, b) && Contains(b, c)
    ensures Contains(a, c)
  {
  }

  /** What lies below root has its directory there, and with it every sibling. */
  lemma {:induction false} ContainsSiblings(root: Path, p: Path, name: Bytes)
    requires Contains(root, p)
    ensures Contains(root, Dir(p) + name)
  {
    var n := |Slashed(root)|;
    assert p[n - 1] == Slashed(root)[n - 1] == SLASH;
    assert Slashed(root) == p[..n] == Dir(p)[..n];
  }

  lemma {:induction false} CleanHasNoTrailingSlash(p: Path)
    requires Clean(p) && p != [SLASH]
    ensures p[|p| - 1] != SLASH && Slashed(p) == p + [SLASH]
  {
    var s := p[1..];
    assert !IsComponent(s, |s|, |s|);
  }

  lemma {:induction false} SlashedIsInjective(a: Path, b: Path)
    requires Clean(a) && Clean(b) && Slashed(a) == Slashed(b)
    ensures a == b
  {
    if a != [SLASH] { CleanHasNoTrailingSlash(a); }
    if b != [SLASH] { CleanHasNoTrailingSlash(b); }
    assert a == [SLASH] && b != [SLASH] ==> |b + [SLASH]| > 1;
    assert b == [SLASH] && a != [SLASH] ==> |a + [SLASH]| > 1;
    assert a != [SLASH] && b != [SLASH] ==> a == Slashed(a)[..|a|] && b == Slashed(b)[..|b|];
  }

  lemma {:induction false} ShorterAncestorContains(a: Path, b: Path, c: Path)
    requires Clean(a) && Clean(b) && Contains(a, c) && Contains(b, c) && |Slashed(a)| <= |Slashed(b)|
    ensures a == b || Contains(a, b)
  {
    assert Slashed(a) == c[..|Slashed(a)|] && Slashed(b) == c[..|Slashed(b)|];
    if |Slashed(a)| == |Slashed(b)| {
      SlashedIsInjective(a, b);
    } else {
      assert Slashed(a) == Slashed(b)[..|Slashed(a)|] == b[..|Slashed(a)|];
    }
  }

  /** Two ancestors of one path lie on one line. */
  lemma {:induction false} AncestorsAreComparable(a: Path, b: Path, c: Path)
    requires Clean(a) && Clean(b) && (a == c || Contains(a, c)) && (b == c || Contains(b, c))
    ensures a == b || Contains(a, b) || Contains(b, a)
  {
    if Contains(a, c) && Contains(b, c) {
      if |Slashed(a)| <= |Slashed(b)| {
        ShorterAncestorContains(a, b, c);
      } else {
        ShorterAncestorContains(b, a, c);
      }
    }
  }

  /** Components do not depend on what stands before a slash. */
  lemma {:induction false} ComponentShift(s: Path, d: nat, i: nat, j: nat)
    requires d <= |s| && (d == 0 || s[d - 1] == SLASH) && j <= |s| - d
    ensures IsComponent(s[d..], i, j) <==> IsComponent(s, i + d, j + d)
    ensures i <= j ==> s[d..][i..j] == s[i + d..j + d]
  {
    var t := s[d..];
    assert forall k :: 0 <= k < |t| ==> t[k] == s[k + d];
    assert forall k :: d <= k < |s| ==> s[k] == t[k - d];
  }

  lemma {:induction false} ComponentBounds(s: Path)
    ensures forall i: nat, j: nat :: IsComponent(s, i, j) ==> i <= j <= |s|
  {
  }

  lemma {:induction false} CleanTail(s: Path, d: nat)
    requires CleanRelative(s) && d <= |s| && (d == 0 || s[d - 1] == SLASH)
    ensures CleanRelative(s[d..])
  {
    hide IsComponent;
    ComponentBounds(s[d..]);
    forall i: nat, j: nat | IsComponent(s[d..], i, j)
      ensures i < j && s[d..][i..j] != [DOT] && s[d..][i..j] != [DOT, DOT]
    {
      ComponentShift(s, d, i, j);
    }
  }

  /** What is left of a clean path below one of its ancestors is a clean relative path. */
  lemma {:induction false} BelowIsClean(root: Path, abs: Path)
    requires Clean(root) && Clean(abs) && Contains(root, abs) && abs != root
    ensures CleanRelative(abs[|Slashed(root)|..])
    ensures abs == Slashed(root) + abs[|Slashed(root)|..]
  {
    hide Clean, CleanRelative, Slashed;
    var n := |Slashed(root)|;
    BelowSlash(root, abs);
    CleanTail(abs[1..], n - 1);
    DropDrop(abs, n);
  }

  lemma {:induction false} BelowSlash(root: Path, abs: Path)
    requires Clean(root) && Clean(abs) && Contains(root, abs) && abs != root
    ensures CleanRelative(abs[1..]) && abs[|Slashed(root)| - 1] == SLASH
    ensures abs == Slashed(root) + abs[|Slashed(root)|..]
  {
    hide CleanRelative;
    assert abs[|Slashed(root)| - 1] == Slashed(root)[|Slashed(root)| - 1];
    assert abs != [SLASH];
  }

  lemma {:induction false} DropDrop(s: Path, n: nat)
    requires 0 < n <= |s|
    ensures s[1..][n - 1..] == s[n..]
  {
  }

  lemma {:induction false} JoinIsClean(a: Path, b: Path)
    requires CleanRelative(a) && CleanRelative(b)
    ensures CleanRelative(a + [SLASH] + b)
  {
    var s, m := a + [SLASH] + b, |a| + 1;
    assert s[|a|] == SLASH && s[m..] == b;
    forall i: nat, j: nat | IsComponent(s, i, j)
      ensures i < j && s[i..j] != [DOT] && s[i..j] != [DOT, DOT]
    {
      if j <= |a| {
        assert forall k :: 0 <= k < |a| ==> a[k] == s[k];
        assert IsComponent(a, i, j) && s[i..j] == a[i..j];
      } else {
        ComponentShift(s, m, i - m, j - m);
      }
    }
  }

  /** A clean relative path is not empty, not absolute, and never climbs. */
  lemma {:induction false} CleanRelativeStays(s: Path)
    requires CleanRelative(s)
    ensures s != [] && s[0] != SLASH && s != [DOT]
  {
    assert !IsComponent(s, 0, 0);
    assert IsComponent([DOT], 0, 1) && [DOT][0..1] == [DOT];
  }
}
