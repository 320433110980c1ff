/** The watchers and the link follower together: whatever is watched, and whatever an event is about, has a name the
    consumer knows. */
module Naming {
  import opened Wrappers
  import opened Paths
  import opened Coalescer
  import opened Walks
  import opened LinkFollower
  import K = Kqueue
  import I = Inotify
  import Listings

  /** An event about p goes out under some name. */
  ghost predicate Heard(root: Path, follows: seq<Follow>, p: Path) {
    AllNames(root, follows, p) != []
  }

  ghost predicate Usable(root: Path, follows: seq<Follow>) {
    Clean(root) && forall f :: f in follows ==> OutOfTree(root, f.targetAbs)
  }

  /** Every link a walk follows leads where the follower has recorded one to lead. */
  ghost predicate Taken(t: Tree, follows: seq<Follow>) {
    match t
    case Gone => true
    case File => true
    case Link(followed) => followed.Some? ==> LinkedTo(follows, followed.value.path)
    case Directory(_, _, children) => forall c :: c in children ==> Taken(c.tree, follows)
  }

  ghost predicate AllHeard(root: Path, follows: seq<Follow>, ps: set<Path>) {
    forall p :: p in ps ==> Heard(root, follows, p)
  }

  ghost predicate NodesHeard(root: Path, follows: seq<Follow>, nodes: set<Node>) {
    forall n :: n in nodes ==> Heard(root, follows, n.path)
  }

  /** Everything a walk is to watch or to tell of. */
  ghost predicate ExtentHeard(root: Path, follows: seq<Follow>, e: K.Extent) {
    NodesHeard(root, follows, e.watch) && NodesHeard(root, follows, NodeSet(e.tell))
  }

  ghost predicate ScopeHeard(root: Path, follows: seq<Follow>, s: I.Scope) {
    AllHeard(root, follows, s.watch) && AllHeard(root, follows, s.tell + s.leaves)
  }

  ghost predicate ChangesHeard(root: Path, follows: seq<Follow>, sent: seq<Change>) {
    forall c :: c in sent ==> Heard(root, follows, c.path)
  }

  /** What lies in a directory with a name has one. */
  lemma {:induction false} EntryHeard(root: Path, follows: seq<Follow>, dir: Path, name: Name)
    requires Usable(root, follows) && Heard(root, follows, dir)
    ensures Heard(root, follows, Join(dir, name))
  {
    hide AllNames, Clean, OutOfTree, Slashed;
    NamedExactlyIfCovered(root, follows, dir);
    NamedExactlyIfCovered(root, follows, Join(dir, name));
    forall t | Within(t, dir) ensures Within(t, Join(dir, name)) {
      if t != dir { ContainsIsTransitive(t, dir, Join(dir, name)); }
    }
  }

  lemma {:induction false} TargetHeard(root: Path, follows: seq<Follow>, p: Path)
    requires Usable(root, follows) && LinkedTo(follows, p)
    ensures Heard(root, follows, p)
  {
    hide AllNames, Clean, OutOfTree;
    NamedExactlyIfCovered(root, follows, p);
  }

  /** So does everything a walk from there comes to, through links or not. */
  lemma {:induction false} WalkHeard(
    root: Path, follows: seq<Follow>, p: Path, t: Tree, top: bool, report: bool, followLinks: bool)
    requires Usable(root, follows) && Heard(root, follows, p) && (followLinks ==> Taken(t, follows))
    ensures ExtentHeard(root, follows, K.ExtentOf(p, t, top, report, followLinks))
    decreases t, 0
  {
    hide Heard, Usable, LinkedTo;
    K.ExtentOfIs(p, t, top, report, followLinks);
    match t
    case Gone =>
    case File =>
    case Link(followed) =>
      if followLinks && followed.Some? {
        TargetHeard(root, follows, followed.value.path);
        WalkHeard(root, follows, followed.value.path, followed.value.tree, true, false, false);
      }
    case Directory(pseudo, listing, children) =>
      if !pseudo {
        ChildrenHeard(root, follows, p, children, |children|, report, followLinks);
      }
  }

  lemma {:induction false} ChildrenHeard(
    root: Path, follows: seq<Follow>, dir: Path, children: seq<Child>, n: nat, report: bool, followLinks: bool)
    requires Usable(root, follows) && Heard(root, follows, dir) && n <= |children|
    requires followLinks ==> forall c :: c in children ==> Taken(c.tree, follows)
    ensures ExtentHeard(root, follows, K.ExtentIn(dir, children, n, report, followLinks))
    decreases children, n
  {
    hide Heard, Usable, Taken, Join;
    if n > 0 {
      ChildrenHeard(root, follows, dir, children, n - 1, report, followLinks);
      EntryHeard(root, follows, dir, children[n - 1].name);
      WalkHeard(root, follows, Join(dir, children[n - 1].name), children[n - 1].tree, false, report, followLinks);
      K.ExtentInMore(dir, children, n - 1, report, followLinks);
    }
  }

  /** The same of a new entry. */
  lemma {:induction false} ArrivalHeard(root: Path, follows: seq<Follow>, abs: Path, t: Tree, scoped: bool)
    requires Usable(root, follows) && Heard(root, follows, abs) && Taken(t, follows)
    ensures ExtentHeard(root, follows, K.ArrivalExtent(abs, t, scoped))
  {
    hide Heard, Usable, LinkedTo, K.ExtentOf;
    match t
    case Gone =>
    case File =>
    case Link(followed) =>
      if !scoped && followed.Some? {
        TargetHeard(root, follows, followed.value.path);
        WalkHeard(root, follows, followed.value.path, followed.value.tree, true, true, false);
      }
    case Directory(_, _, _) =>
      if !scoped {
        WalkHeard(root, follows, abs, t, true, true, true);
      }
  }

  /** A kqueue walk: if everything watched had a name, everything still has one, and so does whatever it emitted. */
  lemma {:induction false} KqueueWalkIsHeard(
    root: Path, follows: seq<Follow>, a: K.Held, b: K.Held, start: seq<Change>, out: seq<Change>, p: Path, t: Tree,
    top: bool, report: bool, followLinks: bool)
    requires Usable(root, follows) && Heard(root, follows, p) && (followLinks ==> Taken(t, follows))
    requires K.Walked(a, b, start, out, K.ExtentOf(p, t, top, report, followLinks))
    requires AllHeard(root, follows, a.isDir.Keys)
    ensures AllHeard(root, follows, b.isDir.Keys) && ChangesHeard(root, follows, Since(start, out))
  {
    hide Heard, Usable, Taken, K.ExtentOf, Since, Listings.Recorded, K.Covers, K.Tried, Told;
    WalkHeard(root, follows, p, t, top, report, followLinks);
    ToldMeans(K.ExtentOf(p, t, top, report, followLinks).tell, Since(start, out), Since(a.denied, b.denied),
              !b.partial);
  }

  /** A kqueue re-listing: the same. */
  lemma {:induction false} KqueueRescanIsHeard(
    root: Path, follows: seq<Follow>, a: K.Held, b: K.Held, dir: Path, prev: set<Name>, now: set<Name>,
    arrived: map<Name, Tree>, sent: seq<Change>, diff: seq<Change>, skip: seq<Path>, all: bool, scoped: bool)
    requires Usable(root, follows) && Heard(root, follows, dir) && now <= arrived.Keys
    requires forall n :: n in now - prev ==> Taken(arrived[n], follows)
    requires Listings.IsDiff(prev, now, diff)
    requires Listings.Emitted(dir, sent, diff, K.AllBrought(dir, now - prev, arrived, scoped), skip, all, scoped)
    requires K.Turned(a, b, K.AllArrived(dir, now - prev, arrived, scoped), dir, prev - now)
    requires AllHeard(root, follows, a.isDir.Keys)
    ensures AllHeard(root, follows, b.isDir.Keys) && ChangesHeard(root, follows, sent)
  {
    hide Heard, Usable, Taken, Since, Listings.Departed, K.ArrivalExtent, Join, AllTold;
    forall name | name in now - prev
      ensures ExtentHeard(root, follows, K.ArrivalExtent(Join(dir, name), arrived[name], scoped))
    {
      EntryHeard(root, follows, dir, name);
      ArrivalHeard(root, follows, Join(dir, name), arrived[name], scoped);
    }
    forall c | c in diff ensures Heard(root, follows, Join(dir, c.path)) {
      assert c.path in now || c.path in prev;
      EntryHeard(root, follows, dir, c.path);
    }
  }

  /** Everything an inotify walk comes to. */
  lemma {:induction false} InotifyScopeHeard(
    root: Path, follows: seq<Follow>, p: Path, t: Tree, top: bool, followLinks: bool, pseudo: iset<Path>)
    requires Usable(root, follows) && Heard(root, follows, p) && (followLinks ==> Taken(t, follows))
    ensures ScopeHeard(root, follows, I.ScopeOf(p, t, top, followLinks, pseudo))
    decreases t, 0
  {
    hide Heard, Usable, LinkedTo;
    I.ScopeOfIs(p, t, top, followLinks, pseudo);
    match t
    case Gone =>
    case File =>
    case Link(followed) =>
      if followLinks && followed.Some? {
        TargetHeard(root, follows, followed.value.path);
        InotifyScopeHeard(root, follows, followed.value.path, followed.value.tree, true, false, pseudo);
      }
    case Directory(_, _, children) =>
      if p !in pseudo {
        InotifyChildrenHeard(root, follows, p, children, |children|, followLinks, pseudo);
      }
  }

  lemma {:induction false} InotifyChildrenHeard(
    root: Path, follows: seq<Follow>, dir: Path, children: seq<Child>, n: nat, followLinks: bool, pseudo: iset<Path>)
    requires Usable(root, follows) && Heard(root, follows, dir) && n <= |children|
    requires followLinks ==> forall c :: c in children ==> Taken(c.tree, follows)
    ensures ScopeHeard(root, follows, I.ScopeIn(dir, children, n, followLinks, pseudo))
    decreases children, n
  {
    hide Heard, Usable, Taken, Join, ScopeHeard, I.Scope.Plus, I.ScopeIn, I.ScopeOf;
    I.ScopeInNone(dir, children, followLinks, pseudo);
    NothingHeard(root, follows);
    if n > 0 {
      InotifyChildrenHeard(root, follows, dir, children, n - 1, followLinks, pseudo);
      EntryHeard(root, follows, dir, children[n - 1].name);
      InotifyScopeHeard(root, follows, Join(dir, children[n - 1].name), children[n - 1].tree, false, followLinks,
                        pseudo);
      I.ScopeInMore(dir, children, n - 1, followLinks, pseudo);
      BothHeard(root, follows, I.ScopeIn(dir, children, n - 1, followLinks, pseudo),
                I.ScopeOf(Join(dir, children[n - 1].name), children[n - 1].tree, false, followLinks, pseudo));
    }
  }

  lemma {:induction false} NothingHeard(root: Path, follows: seq<Follow>)
    ensures ScopeHeard(root, follows, I.NOTHING)
  {
  }

  lemma {:induction false} BothHeard(root: Path, follows: seq<Follow>, s: I.Scope, t: I.Scope)
    requires ScopeHeard(root, follows, s) && ScopeHeard(root, follows, t)
    ensures ScopeHeard(root, follows, s.Plus(t))
  {
    hide Heard;
  }

  /** An inotify walk: the same as for kqueue. */
  lemma {:induction false} InotifyWalkIsHeard(
    root: Path, follows: seq<Follow>, a: I.Held, b: I.Held, report: bool, p: Path, t: Tree, top: bool,
    followLinks: bool, pseudo: iset<Path>)
    requires Usable(root, follows) && Heard(root, follows, p) && (followLinks ==> Taken(t, follows))
    requires I.Walked(a, b, report, I.ScopeOf(p, t, top, followLinks, pseudo))
    requires AllHeard(root, follows, a.paths.Keys)
    ensures AllHeard(root, follows, b.paths.Keys) && ChangesHeard(root, follows, Since(a.out, b.out))
  {
    hide Heard, Usable, Taken, I.ScopeOf, I.Tells, I.Watched, I.Grown, I.Spent;
    InotifyScopeHeard(root, follows, p, t, top, followLinks, pseudo);
  }
}
