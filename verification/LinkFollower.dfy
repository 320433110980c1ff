/** Following symlinks out of the watched tree, and turning event paths back into protocol paths. */
module LinkFollower {
  import opened Wrappers
  import opened Paths

  const MAX_FOLLOWED_TARGETS: nat := 256

  /** A symlink by its root-relative path, and the directory it leads to. */
  datatype Follow = Follow(linkRel: Path, targetAbs: Path)

  /** The protocol form of a path under root, or none. */
  function Relative(root: Path, abs: Path): Option<Path> {
    if abs == root then Some([DOT])
    else if Contains(root, abs) then Some(abs[|Slashed(root)|..])
    else None
  }

  /** The protocol form of a path under a followed target, or none. */
  function LinkRelative(f: Follow, abs: Path): Option<Path> {
    if abs == f.targetAbs then Some(f.linkRel)
    else if f.targetAbs + [SLASH] <= abs then Some(f.linkRel + [SLASH] + abs[|f.targetAbs| + 1..])
    else None
  }

  /** Every link-relative form, in the order the links were recorded. */
  function LinkNames(follows: seq<Follow>, abs: Path): seq<Path> {
    if follows == [] then []
    else
      LinkNames(follows[..|follows| - 1], abs)
      + (match LinkRelative(follows[|follows| - 1], abs) case None => [] case Some(r) => [r])
  }

  /** All protocol paths of an event, the root's and every link's: the full specification of rel. */
  function AllNames(root: Path, follows: seq<Follow>, abs: Path): seq<Path> {
    (match Relative(root, abs) case None => [] case Some(r) => [r]) + LinkNames(follows, abs)
  }

  /** Equal to or below. */
  predicate Within(target: Path, t: Path) {
    t == target || Contains(target, t)
  }

  /** A target the guardrails let through: a directory neither in the root's tree nor above it. */
  ghost predicate OutOfTree(root: Path, t: Path) {
    Clean(t) && t != root && !Contains(root, t) && !Contains(t, root)
  }

  /** What consider does with a symlink. */
  datatype Decision = Ignored | Recorded | Watched | OverBudget

  ghost function Decide(follows: seq<Follow>, watched: nat, f: Follow): Decision {
    if f in follows then Ignored
    else if exists g :: g in follows && Within(g.targetAbs, f.targetAbs) then Recorded
    else if watched >= MAX_FOLLOWED_TARGETS then OverBudget
    else Watched
  }

  /** Broken links, links to files, and links into or above the tree are ignored. */
  ghost function Considered(
    root: Path, follows: seq<Follow>, watched: nat, abs: Path, resolved: Option<Path>): Decision
  {
    var name := Relative(root, abs);
    if name.None? || name == Some([DOT]) || resolved.None? || !OutOfTree(root, resolved.value) then Ignored
    else Decide(follows, watched, Follow(name.value, resolved.value))
  }

  /** Every recorded link has a clean name and leads out of the tree. */
  ghost predicate UsableLinks(root: Path, follows: seq<Follow>) {
    forall f :: f in follows ==> CleanRelative(f.linkRel) && OutOfTree(root, f.targetAbs)
  }

  ghost predicate Covers(targets: set<Path>, p: Path) {
    exists t :: t in targets && Within(t, p)
  }

  ghost predicate LinkedTo(follows: seq<Follow>, t: Path) {
    exists f :: f in follows && f.targetAbs == t
  }

  /** Every recorded target equals or lies below a watched one, and every watched one is recorded. */
  ghost predicate WatchesCover(follows: seq<Follow>, targets: set<Path>) {
    && (forall f :: f in follows ==> Covers(targets, f.targetAbs))
    && (forall t :: t in targets ==> LinkedTo(follows, t))
  }

  /** The targets were handed out once each, none within an earlier one, and not too many. */
  ghost predicate WatchedOnce(targets: set<Path>, watched: seq<Path>) {
    && (forall t :: t in targets <==> t in watched)
    && (forall i, j :: 0 <= i < j < |watched| ==> !Within(watched[i], watched[j]))
    && |watched| == |targets| <= MAX_FOLLOWED_TARGETS
  }

  ghost predicate NoneTwice(follows: seq<Follow>) {
    forall i, j :: 0 <= i < j < |follows| ==> follows[i] != follows[j]
  }

  /** A link somewhere below root to a directory neither in its tree nor above it. */
  ghost predicate Usable(root: Path, abs: Path, resolved: Option<Path>) {
    Contains(root, abs) && abs != root && resolved.Some? && OutOfTree(root, resolved.value)
  }

  /** The link at abs. */
  ghost function LinkAt(root: Path, abs: Path, target: Path): Follow
    requires Contains(root, abs)
  {
    Follow(abs[|Slashed(root)|..], target)
  }

  class Follower {
    const root: Path
    var follows: seq<Follow>
    var targets: set<Path>
    var partial: bool
    /** The targets handed out for watching, in order. */
    ghost var watched: seq<Path>

    ghost predicate Valid()
      reads this
    {
      && Clean(root) && UsableLinks(root, follows) && WatchesCover(follows, targets) && WatchedOnce(targets, watched)
      && NoneTwice(follows)
    }

    constructor (root: Path)
      requires Clean(root)
      ensures Valid() && this.root == root && follows == [] && watched == [] && !partial
    {
      this.root, follows, targets, partial, watched := root, [], {}, false, [];
    }

    /** `resolved` is the directory the symlink at abs leads to, if it leads to one. */
    method Consider(abs: Path, resolved: Option<Path>) returns (target: Path, watch: bool)
      requires Valid() && Clean(abs) && (resolved.Some? ==> Clean(resolved.value))
      modifies this
      ensures Valid()
      ensures Did(Considered(root, old(follows), old(|watched|), abs, resolved),
                  Follow(Relative(root, abs).GetOr([]), resolved.GetOr([])), target, watch)
      // A usable link is recorded, once, unless the budget is spent; no other is.
      ensures Usable(root, abs, resolved) && LinkAt(root, abs, resolved.value) !in follows ==>
        partial && |targets| >= MAX_FOLLOWED_TARGETS
      ensures forall f :: f in follows && f !in old(follows) ==>
        Usable(root, abs, resolved) && f == LinkAt(root, abs, resolved.value)
      // Its target is handed out if and only if no link recorded before covers it.
      ensures watch ==> Usable(root, abs, resolved) && target == resolved.value
      ensures watch ==> forall f :: f in old(follows) ==> !Within(f.targetAbs, target)
      ensures follows != old(follows) && !watch ==>
        exists f :: f in old(follows) && resolved.Some? && Within(f.targetAbs, resolved.value)
    {
      hide CleanRelative, Slashed, UsableLinks, WatchesCover, WatchedOnce, NoneTwice;
      target, watch := [], false;
      var name := Relative(root, abs);
      if Contains(root, abs) && abs != root {
        BelowIsClean(root, abs);
        CleanRelativeStays(abs[|Slashed(root)|..]);
      }
      if name.None? || name == Some([DOT]) {
        return;
      }
      var linkRel := name.value;
      if resolved.None? {
        return;
      }
      var t := resolved.value;
      if t == root || Contains(root, t) || Contains(t, root) {
        return;
      }
      target, watch := Record(Follow(linkRel, t));
    }

    /** What consider does under its lock, with a usable link. */
    method Record(f: Follow) returns (target: Path, watch: bool)
      requires Valid() && CleanRelative(f.linkRel) && OutOfTree(root, f.targetAbs)
      modifies this
      ensures Valid() && Did(Decide(old(follows), old(|watched|), f), f, target, watch)
      ensures f !in follows ==> partial && |targets| >= MAX_FOLLOWED_TARGETS
      ensures forall g :: g in follows && g !in old(follows) ==> g == f
      ensures watch ==> target == f.targetAbs && forall g :: g in old(follows) ==> !Within(g.targetAbs, target)
      ensures follows != old(follows) && !watch ==> exists g :: g in old(follows) && Within(g.targetAbs, f.targetAbs)
    {
      hide Clean, CleanRelative, OutOfTree, Within, Contains, UsableLinks, WatchesCover, WatchedOnce, NoneTwice;
      WatchedCount(targets, watched);
      target, watch := [], false;
      for i := 0 to |follows|
        invariant f !in follows[..i]
      {
        if follows[i].linkRel == f.linkRel && follows[i].targetAbs == f.targetAbs {
          return;
        }
      }
      assert follows[..|follows|] == follows;
      NoneTwiceMore(follows, f);
      for i := 0 to |follows|
        invariant unchanged(this)
        invariant forall g :: g in follows[..i] ==> !Within(g.targetAbs, f.targetAbs)
      {
        WithinIs(follows[i].targetAbs, f.targetAbs);
        if f.targetAbs == follows[i].targetAbs || Contains(follows[i].targetAbs, f.targetAbs) {
          RecordCovered(root, follows, targets, follows[i], f);
          follows := follows + [f];
          return;
        }
      }
      if |targets| >= MAX_FOLLOWED_TARGETS {
        partial := true;
        return;
      }
      RecordWatched(root, follows, targets, watched, f);
      follows := follows + [f];
      targets := targets + {f.targetAbs};
      watched := watched + [f.targetAbs];
      return f.targetAbs, true;
    }

    /** The effect of each decision, on the whole state. */
    twostate predicate Did(d: Decision, f: Follow, target: Path, watch: bool)
      reads this
    {
      match d
      case Ignored => !watch && unchanged(this)
      case Recorded => !watch && follows == old(follows) + [f] && unchanged(`targets, `watched, `partial)
      case OverBudget => !watch && partial && unchanged(`follows, `targets, `watched)
      case Watched => watch && target == f.targetAbs && follows == old(follows) + [f]
                      && watched == old(watched) + [target] && target !in old(targets) && unchanged(`partial)
    }

    /** The loop stops at the root's own name; nothing is lost by that. */
    method Rel(abs: Path) returns (names: seq<Path>)
      requires Valid()
      ensures names == AllNames(root, follows, abs)
      // In the root's tree, its relative path; elsewhere, one name for every link it lies behind, in recording order.
      ensures Within(root, abs) ==> names == [if abs == root then [DOT] else abs[|Slashed(root)|..]]
      ensures Clean(abs) && !Within(root, abs) ==> NamesOf(names, Reaching(follows, abs), abs)
    {
      hide Clean, CleanRelative, Contains, WatchesCover, WatchedOnce, LinkRelative, OutOfTree, Reaching, Slashed;
      hide NamesOf, NoneTwice;
      var r := Relative(root, abs);
      LinkNamesAre(root, follows, abs);
      if r.Some? {
        NoNameTwice(root, follows, abs);
        return [r.value];
      }
      names := [];
      for i := 0 to |follows|
        invariant names == LinkNames(follows[..i], abs)
      {
        assert follows[..i + 1][..i] == follows[..i];
        var f := follows[i];
        LinkRelativeIs(f, abs);
        if abs == f.targetAbs {
          names := names + [f.linkRel];
        } else if f.targetAbs + [SLASH] <= abs {
          names := names + [f.linkRel + [SLASH] + abs[|f.targetAbs| + 1..]];
        }
      }
      assert follows[..|follows|] == follows;
    }
  }

  lemma {:induction false} WithinIsTransitive(a: Path, b: Path, c: Path)
    requires Within(a, b) && Within(b, c)
    ensures Within(a, c)
  {
  }

  lemma {:induction false} WithinIs(a: Path, b: Path)
    ensures Within(a, b) <==> b == a || Contains(a, b)
  {
  }

  lemma {:induction false} WatchedCount(targets: set<Path>, watched: seq<Path>)
    requires WatchedOnce(targets, watched)
    ensures |targets| == |watched|
  {
  }

  lemma {:induction false} LinkRelativeIs(f: Follow, abs: Path)
    ensures LinkRelative(f, abs) == if abs == f.targetAbs then Some(f.linkRel)
      else if f.targetAbs + [SLASH] <= abs then Some(f.linkRel + [SLASH] + abs[|f.targetAbs| + 1..])
      else None
  {
  }

  lemma {:induction false} LinkedToMore(follows: seq<Follow>, f: Follow, t: Path)
    requires LinkedTo(follows, t) || f.targetAbs == t
    ensures LinkedTo(follows + [f], t)
  {
    if f.targetAbs == t {
      assert f in follows + [f];
    } else {
      var g :| g in follows && g.targetAbs == t;
      assert g in follows + [f];
    }
  }

  lemma {:induction false} UsableMore(root: Path, follows: seq<Follow>, f: Follow)
    requires UsableLinks(root, follows) && CleanRelative(f.linkRel) && OutOfTree(root, f.targetAbs)
    ensures UsableLinks(root, follows + [f])
  {
    hide CleanRelative, OutOfTree;
    assert forall g :: g in follows + [f] <==> g in follows || g == f;
  }

  lemma {:induction false} RecordCovered(root: Path, follows: seq<Follow>, targets: set<Path>, g: Follow, f: Follow)
    requires UsableLinks(root, follows) && WatchesCover(follows, targets)
    requires CleanRelative(f.linkRel) && OutOfTree(root, f.targetAbs)
    requires g in follows && Within(g.targetAbs, f.targetAbs)
    ensures UsableLinks(root, follows + [f]) && WatchesCover(follows + [f], targets)
  {
    hide CleanRelative, OutOfTree, Within, LinkedTo, UsableLinks;
    UsableMore(root, follows, f);
    assert Covers(targets, g.targetAbs);
    var w :| w in targets && Within(w, g.targetAbs);
    WithinIsTransitive(w, g.targetAbs, f.targetAbs);
    assert Covers(targets, f.targetAbs);
    forall t | t in targets ensures LinkedTo(follows + [f], t) {
      LinkedToMore(follows, f, t);
    }
    assert forall h :: h in follows + [f] <==> h in follows || h == f;
  }

  lemma {:induction false} RecordWatched(
    root: Path, follows: seq<Follow>, targets: set<Path>, watched: seq<Path>, f: Follow)
    requires UsableLinks(root, follows) && WatchesCover(follows, targets) && WatchedOnce(targets, watched)
    requires CleanRelative(f.linkRel) && OutOfTree(root, f.targetAbs) && |targets| < MAX_FOLLOWED_TARGETS
    requires forall g :: g in follows ==> !Within(g.targetAbs, f.targetAbs)
    ensures f.targetAbs !in targets
    ensures UsableLinks(root, follows + [f]) && WatchesCover(follows + [f], targets + {f.targetAbs})
    ensures WatchedOnce(targets + {f.targetAbs}, watched + [f.targetAbs])
  {
    hide CleanRelative, OutOfTree, Within, LinkedTo, UsableLinks, WatchedOnce;
    UsableMore(root, follows, f);
    var t := f.targetAbs;
    WithinIs(t, t);
    forall w | w in targets ensures !Within(w, t) {
      NotWithin(follows, w, t);
    }
    WatchedMore(targets, watched, t);
    forall h | h in follows + [f] ensures Covers(targets + {t}, h.targetAbs) {
      if h != f {
        assert Covers(targets, h.targetAbs);
        var w :| w in targets && Within(w, h.targetAbs);
        assert w in targets + {t};
      } else {
        assert t in targets + {t};
      }
    }
    forall w | w in targets + {t} ensures LinkedTo(follows + [f], w) {
      LinkedToMore(follows, f, w);
    }
  }

  lemma {:induction false} NotWithin(follows: seq<Follow>, w: Path, t: Path)
    requires LinkedTo(follows, w) && forall g :: g in follows ==> !Within(g.targetAbs, t)
    ensures !Within(w, t)
  {
    hide Within;
    var g :| g in follows && g.targetAbs == w;
  }

  lemma {:induction false} WatchedMore(targets: set<Path>, watched: seq<Path>, t: Path)
    requires WatchedOnce(targets, watched) && |targets| < MAX_FOLLOWED_TARGETS
    requires Within(t, t) && forall w :: w in targets ==> !Within(w, t)
    ensures t !in targets && WatchedOnce(targets + {t}, watched + [t])
  {
    hide Within;
    assert forall i :: 0 <= i < |watched| ==> watched[i] in watched;
  }

  /** A target outside the tree shares no path with it. */
  lemma {:induction false} TreesAreDisjoint(root: Path, t: Path, abs: Path)
    requires Clean(root) && OutOfTree(root, t) && Within(root, abs)
    ensures !Within(t, abs)
  {
    if Within(t, abs) {
      AncestorsAreComparable(root, t, abs);
    }
  }

  lemma {:induction false} LinkRelativeIsWithin(root: Path, f: Follow, abs: Path)
    requires Clean(root) && OutOfTree(root, f.targetAbs)
    ensures f.targetAbs != [SLASH] && Slashed(f.targetAbs) == f.targetAbs + [SLASH]
    ensures LinkRelative(f, abs).Some? <==> Within(f.targetAbs, abs)
  {
    assert f.targetAbs != [SLASH] by {
      assert root[0] == SLASH;
    }
    CleanHasNoTrailingSlash(f.targetAbs);
  }

  /** No path under root has a link name as well: this is what makes the early return complete. */
  lemma {:induction false} NoNameTwice(root: Path, follows: seq<Follow>, abs: Path)
    requires Clean(root) && (forall f :: f in follows ==> OutOfTree(root, f.targetAbs))
    requires Relative(root, abs).Some?
    ensures LinkNames(follows, abs) == []
  {
    if follows != [] {
      var f := follows[|follows| - 1];
      assert f in follows;
      TreesAreDisjoint(root, f.targetAbs, abs);
      LinkRelativeIsWithin(root, f, abs);
      NoNameTwice(root, follows[..|follows| - 1], abs);
    }
  }

  /** The links whose targets hold abs, in the order they were recorded. */
  ghost function Reaching(follows: seq<Follow>, abs: Path): seq<Follow> {
    if follows == [] then []
    else
      Reaching(follows[..|follows| - 1], abs)
      + if Within(follows[|follows| - 1].targetAbs, abs) then [follows[|follows| - 1]] else []
  }

  /** One name through each of these links. */
  ghost predicate NamesOf(names: seq<Path>, links: seq<Follow>, abs: Path) {
    |names| == |links| && forall i :: 0 <= i < |names| ==> ThroughLink(links[i], names[i], abs)
  }

  lemma {:induction false} LinkNamesAre(root: Path, follows: seq<Follow>, abs: Path)
    requires Clean(root) && UsableLinks(root, follows)
    ensures Clean(abs) ==> NamesOf(LinkNames(follows, abs), Reaching(follows, abs), abs)
  {
    hide Clean, CleanRelative, OutOfTree, Within, ThroughLink, LinkRelative;
    if Clean(abs) && follows != [] {
      var f, rest := follows[|follows| - 1], follows[..|follows| - 1];
      assert f in follows;
      LinkNamesAre(root, rest, abs);
      LinkRelativeIsWithin(root, f, abs);
      if LinkRelative(f, abs).Some? {
        LinkNameLeadsBack(root, f, abs);
      }
    }
  }

  /** That is every link that leads there. */
  lemma {:induction false} ReachingIsAll(follows: seq<Follow>, abs: Path)
    ensures forall f :: f in Reaching(follows, abs) <==> f in follows && Within(f.targetAbs, abs)
    ensures NoneTwice(follows) ==> NoneTwice(Reaching(follows, abs))
  {
    hide Within;
    if follows != [] {
      var f, rest := follows[|follows| - 1], follows[..|follows| - 1];
      ReachingIsAll(rest, abs);
      assert follows == rest + [f];
      if NoneTwice(follows) {
        assert forall i :: 0 <= i < |rest| ==> rest[i] != f;
        assert f !in Reaching(rest, abs);
      }
    }
  }

  lemma {:induction false} NoneTwiceMore(follows: seq<Follow>, f: Follow)
    ensures NoneTwice(follows) && f !in follows ==> NoneTwice(follows + [f])
  {
  }

  // ----- where a protocol path leads

  /** The consumer's reading of a protocol path: below the root, or through a recorded link. */
  ghost predicate LeadsTo(root: Path, follows: seq<Follow>, name: Path, abs: Path) {
    || (name == [DOT] && abs == root)
    || abs == Slashed(root) + name
    || exists f :: f in follows && ThroughLink(f, name, abs)
  }

  ghost predicate ThroughLink(f: Follow, name: Path, abs: Path) {
    || (name == f.linkRel && abs == f.targetAbs)
    || (f.linkRel + [SLASH] <= name && abs == f.targetAbs + [SLASH] + name[|f.linkRel| + 1..])
  }

  /** A path the protocol allows: relative, with no empty, "." or ".." component, or "." itself. */
  ghost predicate ProtocolPath(name: Path) {
    name == [DOT] || CleanRelative(name)
  }

  /** Round trip: every name an event gets leads back to the event's path, and is a legal protocol path, never an
      absolute one. */
  lemma {:induction false} NamesLeadBack(root: Path, follows: seq<Follow>, abs: Path, name: Path)
    requires Clean(root) && Clean(abs)
    requires forall f :: f in follows ==> CleanRelative(f.linkRel) && OutOfTree(root, f.targetAbs)
    requires name in AllNames(root, follows, abs)
    ensures LeadsTo(root, follows, name, abs) && ProtocolPath(name)
    ensures name != [] && name[0] != SLASH
  {
    if Relative(root, abs).Some? {
      NoNameTwice(root, follows, abs);
      if abs != root { BelowIsClean(root, abs); }
    } else {
      LinkNamesLeadBack(root, follows, abs, name);
    }
    if name != [DOT] {
      CleanRelativeStays(name);
    }
  }

  lemma {:induction false} LinkNamesLeadBack(root: Path, follows: seq<Follow>, abs: Path, name: Path)
    requires Clean(root) && Clean(abs)
    requires forall f :: f in follows ==> CleanRelative(f.linkRel) && OutOfTree(root, f.targetAbs)
    requires name in LinkNames(follows, abs)
    ensures (exists f :: f in follows && ThroughLink(f, name, abs)) && CleanRelative(name)
  {
    var f, rest := follows[|follows| - 1], follows[..|follows| - 1];
    assert f in follows;
    if name in LinkNames(rest, abs) {
      LinkNamesLeadBack(root, rest, abs, name);
    } else {
      LinkNameLeadsBack(root, f, abs);
    }
  }

  lemma {:induction false} LinkNameLeadsBack(root: Path, f: Follow, abs: Path)
    requires Clean(root) && Clean(abs) && CleanRelative(f.linkRel) && OutOfTree(root, f.targetAbs)
    requires LinkRelative(f, abs).Some?
    ensures ThroughLink(f, LinkRelative(f, abs).value, abs) && CleanRelative(LinkRelative(f, abs).value)
  {
    LinkRelativeIsWithin(root, f, abs);
    if abs != f.targetAbs {
      BelowIsClean(f.targetAbs, abs);
      var rest := abs[|f.targetAbs| + 1..];
      JoinIsClean(f.linkRel, rest);
      assert (f.linkRel + [SLASH] + rest)[|f.linkRel| + 1..] == rest;
    }
  }

  /** A path has a name if and only if it is in the root's tree or in a followed one. */
  lemma {:induction false} NamedExactlyIfCovered(root: Path, follows: seq<Follow>, abs: Path)
    requires Clean(root) && (forall f :: f in follows ==> OutOfTree(root, f.targetAbs))
    ensures AllNames(root, follows, abs) != [] <==>
      Within(root, abs) || exists f :: f in follows && Within(f.targetAbs, abs)
  {
    LinkNamedExactlyIfWithin(root, follows, abs);
  }

  lemma {:induction false} LinkNamedExactlyIfWithin(root: Path, follows: seq<Follow>, abs: Path)
    requires Clean(root) && (forall f :: f in follows ==> OutOfTree(root, f.targetAbs))
    ensures LinkNames(follows, abs) != [] <==> exists f :: f in follows && Within(f.targetAbs, abs)
  {
    if follows != [] {
      var f, rest := follows[|follows| - 1], follows[..|follows| - 1];
      LinkNamedExactlyIfWithin(root, rest, abs);
      assert f in follows && forall g :: g in follows <==> g in rest || g == f;
      LinkRelativeIsWithin(root, f, abs);
    }
  }
}
