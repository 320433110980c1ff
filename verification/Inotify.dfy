/** The inotify backend: one watch per directory, under a limit, in two tables; and what each event does. */
module Inotify {
  import opened Bytes
  import opened Wrappers
  import opened Paths
  import opened Coalescer
  import opened Walks

  const HEADROOM: nat := 64

  /** Watch descriptors and directories name each other. */
  ghost predicate Inverse(wd: map<int, Path>, paths: map<Path, int>) {
    && (forall d :: d in wd ==> wd[d] in paths && paths[wd[d]] == d)
    && (forall p :: p in paths ==> paths[p] in wd && wd[paths[p]] == p)
  }

  /** The kernel gives one descriptor per inode. Adding a directory it already watches under another name
      answers with the old descriptor, and then, and only then, the tables stop being inverse. */
  lemma {:induction false} InverseUnlessSameInode(wd: map<int, Path>, paths: map<Path, int>, p: Path, d: int)
    requires Inverse(wd, paths) && p !in paths
    ensures Inverse(wd[d := p], paths[p := d]) <==> d !in wd
  {
    if d in wd {
      var q := wd[d];
      assert q != p && q in paths[p := d] && wd[d := p][paths[p := d][q]] == p;
    }
  }

  // ----- what a walk comes across

  /** Directories that need a watch; those a report names and those it does not, being the walk's start or
      found through a link; and every file and link. */
  datatype Scope = Scope(watch: set<Path>, tell: set<Path>, quiet: set<Path>, leaves: set<Path>) {
    ghost function Plus(other: Scope): Scope {
      Scope(watch + other.watch, tell + other.tell, quiet + other.quiet, leaves + other.leaves)
    }
  }

  const NOTHING: Scope := Scope({}, {}, {}, {})

  function DirScope(p: Path, top: bool): Scope {
    if top then Scope({p}, {}, {p}, {}) else Scope({p}, {p}, {}, {})
  }

  function LeafScope(p: Path): Scope {
    Scope({}, {}, {}, {p})
  }

  /** What is at or below p; `pseudo` is the cached mount table's answer. */
  ghost function ScopeOf(p: Path, t: Tree, top: bool, followLinks: bool, pseudo: iset<Path>): Scope
    decreases t, 0
  {
    match t
    case Gone => NOTHING
    case File => LeafScope(p)
    case Link(followed) =>
      if followLinks && followed.Some? then
        LeafScope(p).Plus(Quietly(ScopeOf(followed.value.path, followed.value.tree, true, false, pseudo)))
      else LeafScope(p)
    case Directory(_, _, children) =>
      if p in pseudo then NOTHING else DirScope(p, top).Plus(ScopeIn(p, children, |children|, followLinks, pseudo))
  }

  ghost function ScopeIn(dir: Path, children: seq<Child>, n: nat, followLinks: bool, pseudo: iset<Path>): Scope
    requires n <= |children|
    decreases children, n
  {
    if n == 0 then NOTHING
    else
      ScopeIn(dir, children, n - 1, followLinks, pseudo)
      .Plus(ScopeOf(Join(dir, children[n - 1].name), children[n - 1].tree, false, followLinks, pseudo))
  }

  /** A followed tree is watched, but nothing in it is told of. */
  ghost function Quietly(s: Scope): Scope {
    Scope(s.watch, {}, s.watch, {})
  }

  /** A Modified went out for each of these since. */
  ghost predicate Tells(before: seq<Change>, after: seq<Change>, ps: set<Path>) {
    before <= after && forall p :: p in ps ==> Change(Modified, p) in after[|before|..]
  }

  /** Nothing went out since but a Modified for some of these. */
  ghost predicate TellsOnly(before: seq<Change>, after: seq<Change>, ps: set<Path>) {
    before <= after && forall c :: c in after[|before|..] ==> c.kind == Modified && c.path in ps
  }

  ghost predicate Watched(paths: map<Path, int>, ps: set<Path>, skip: seq<Path>) {
    forall p :: p in ps ==> p in paths || p in skip
  }

  /** What is watched, what went out, what was refused a watch, and how often that was for want of watches. */
  datatype Held = Held(
    paths: map<Path, int>, out: seq<Change>, partial: bool, denied: seq<Path>, exhausted: nat, limit: nat)

  /** No watch was lost, and none of the last ones was taken; only for these, or if the kernel had none left, did the
      feed turn partial. */
  ghost predicate Grown(a: Held, b: Held) {
    && (forall p :: p in a.paths ==> p in b.paths && b.paths[p] == a.paths[p])
    && (|b.paths| <= |a.paths| || |b.paths| + HEADROOM <= b.limit)
    && (a.partial ==> b.partial) && a.denied <= b.denied && a.out <= b.out && a.exhausted <= b.exhausted
    && b.limit == a.limit
    && (b.partial && !a.partial ==> |b.paths| + HEADROOM >= b.limit || b.exhausted > a.exhausted)
  }

  /** It turned partial only if these do not fit beside what was watched, or the kernel had no watch left. */
  ghost predicate Spent(a: Held, b: Held, watch: set<Path>) {
    b.partial && !a.partial ==> |a.paths.Keys + watch| + HEADROOM > a.limit || b.exhausted > a.exhausted
  }

  /** At most these directories are added and refused; unless the watches ran out, every other one is watched. */
  ghost predicate Adds(a: Held, b: Held, watch: set<Path>) {
    && b.paths.Keys <= a.paths.Keys + watch
    && (forall p :: p in Since(a.denied, b.denied) ==> p in watch)
    && (!b.partial ==> Watched(b.paths, watch, Since(a.denied, b.denied)))
  }

  /** A report names nothing but what is in `s`, and every directory that was added, but the quiet ones; and every file
      and link, unless the watches ran out. */
  ghost predicate Reports(a: Held, b: Held, report: bool, s: Scope) {
    if report then
      && TellsOnly(a.out, b.out, s.tell + s.leaves)
      && Tells(a.out, b.out, b.paths.Keys - a.paths.Keys - s.quiet)
      && (!b.partial ==> Tells(a.out, b.out, s.leaves))
    else b.out == a.out
  }

  /** What a walk over `s` leaves behind. */
  ghost predicate Walked(a: Held, b: Held, report: bool, s: Scope) {
    Grown(a, b) && Spent(a, b, s.watch) && Adds(a, b, s.watch) && Reports(a, b, report, s)
  }

  lemma {:induction false} WalkedMeans(a: Held, b: Held, report: bool, s: Scope)
    requires Walked(a, b, report, s)
    ensures a.out <= b.out
  {
    hide Spent, Adds, Reports;
  }

  lemma {:induction false} WalkedNothing(h: Held, report: bool)
    ensures Walked(h, h, report, NOTHING)
  {
  }

  lemma {:induction false} WalkedLeaf(a: Held, b: Held, report: bool, p: Path)
    requires b == a.(out := a.out + if report then [Change(Modified, p)] else [])
    ensures Walked(a, b, report, LeafScope(p))
  {
    assert b.out[|a.out|..] == if report then [Change(Modified, p)] else [];
  }

  lemma {:induction false} WalkedDir(a: Held, b: Held, report: bool, p: Path, top: bool)
    requires Grown(a, b) && Spent(a, b, {p})
    requires b.paths.Keys <= a.paths.Keys + {p} && (b.denied == a.denied || b.denied == a.denied + [p])
    requires !b.partial ==> p in b.paths || b.denied == a.denied + [p]
    requires b.out == a.out + if report && !top && p in b.paths && p !in a.paths then [Change(Modified, p)] else []
    ensures Walked(a, b, report, DirScope(p, top))
  {
    hide Grown, Spent;
    assert b.out[|a.out|..] == if report && !top && p in b.paths && p !in a.paths then [Change(Modified, p)] else [];
  }

  lemma {:induction false} WalkedQuietly(a: Held, b: Held, report: bool, s: Scope)
    requires Walked(a, b, false, s)
    ensures Walked(a, b, report, Quietly(s))
  {
    hide Grown, Spent;
    assert b.paths.Keys - a.paths.Keys - s.watch == {};
  }

  lemma {:induction false} TellsOn(start: seq<Change>, mid: seq<Change>, out: seq<Change>, p: set<Path>, q: set<Path>)
    requires start <= mid <= out
    ensures Tells(start, mid, p) && Tells(mid, out, q) ==> Tells(start, out, p + q)
    ensures TellsOnly(start, mid, p) && TellsOnly(mid, out, q) ==> TellsOnly(start, out, p + q)
  {
    assert out[|start|..] == mid[|start|..] + out[|mid|..];
  }

  lemma {:induction false} TellsFewer(start: seq<Change>, out: seq<Change>, p: set<Path>, q: set<Path>)
    requires q <= p
    ensures Tells(start, out, p) ==> Tells(start, out, q)
  {
  }

  lemma {:induction false} WatchedOn(
    b: map<Path, int>, c: map<Path, int>, p: set<Path>, q: set<Path>, skip: seq<Path>, more: seq<Path>)
    requires b.Keys <= c.Keys
    ensures Watched(b, p, skip) && Watched(c, q, more) ==> Watched(c, p + q, skip + more)
  {
  }

  lemma {:induction false} WalkedOn(a: Held, b: Held, c: Held, report: bool, s: Scope, t: Scope)
    requires Walked(a, b, report, s) && Walked(b, c, report, t)
    ensures Walked(a, c, report, s.Plus(t))
  {
    hide Grown, Spent, Adds, Reports;
    GrownOn(a, b, c);
    SpentOn(a, b, c, s.watch, t.watch);
    AddsOn(a, b, c, s.watch, t.watch);
    ReportsOn(a, b, c, report, s, t);
  }

  lemma {:induction false} AddsOn(a: Held, b: Held, c: Held, m: set<Path>, n: set<Path>)
    requires Grown(a, b) && Grown(b, c) && Adds(a, b, m) && Adds(b, c, n)
    ensures Adds(a, c, m + n)
  {
    hide Watched, Since;
    SinceMore(a.denied, b.denied, c.denied);
    WatchedOn(b.paths, c.paths, m, n, Since(a.denied, b.denied), Since(b.denied, c.denied));
  }

  lemma {:induction false} ReportsOn(a: Held, b: Held, c: Held, report: bool, s: Scope, t: Scope)
    requires Grown(a, b) && Grown(b, c) && Reports(a, b, report, s) && Reports(b, c, report, t)
    ensures Reports(a, c, report, s.Plus(t))
  {
    hide Tells, TellsOnly, Grown;
    GrownOn(a, b, c);
    if report {
      var added, later := b.paths.Keys - a.paths.Keys - s.quiet, c.paths.Keys - b.paths.Keys - t.quiet;
      TellsOn(a.out, b.out, c.out, s.leaves, t.leaves);
      TellsOn(a.out, b.out, c.out, added, later);
      TellsFewer(a.out, c.out, added + later, c.paths.Keys - a.paths.Keys - (s.quiet + t.quiet));
      TellsOn(a.out, b.out, c.out, s.tell + s.leaves, t.tell + t.leaves);
      assert s.tell + s.leaves + (t.tell + t.leaves) == s.Plus(t).tell + s.Plus(t).leaves;
    }
  }

  lemma {:induction false} GrownOn(a: Held, b: Held, c: Held)
    requires Grown(a, b) && Grown(b, c)
    ensures Grown(a, c) && (b.partial ==> c.partial) && b.paths.Keys <= c.paths.Keys && a.denied <= b.denied <= c.denied
    ensures a.out <= b.out <= c.out
  {
    NoFewer(b.paths.Keys, c.paths.Keys);
  }

  /** What does not fit in part does not fit. */
  lemma {:induction false} SpentOn(a: Held, b: Held, c: Held, m: set<Path>, n: set<Path>)
    requires Grown(a, b) && Grown(b, c) && Adds(a, b, m)
    ensures Spent(a, b, m) && Spent(b, c, n) ==> Spent(a, c, m + n)
  {
    NoFewer(a.paths.Keys + m, a.paths.Keys + (m + n));
    NoFewer(b.paths.Keys + n, a.paths.Keys + (m + n));
  }

  /** With the watches run out, what is below a directory may be left out. */
  lemma {:induction false} WalkedLess(a: Held, b: Held, report: bool, s: Scope, t: Scope)
    requires Walked(a, b, report, s) && b.partial
    ensures Walked(a, b, report, s.Plus(t))
  {
    hide Grown, Spent, Watched;
    SpentMore(a, b, s.watch, t.watch);
  }

  lemma {:induction false} SpentMore(a: Held, b: Held, m: set<Path>, n: set<Path>)
    requires Spent(a, b, m)
    ensures Spent(a, b, m + n)
  {
    NoFewer(a.paths.Keys + m, a.paths.Keys + (m + n));
  }

  lemma {:induction false} SameSize(wd: map<int, Path>, paths: map<Path, int>)
    requires Inverse(wd, paths)
    ensures |wd| == |paths|
  {
    forall d: int | d in wd ensures wd[d] in paths && paths[wd[d]] == d {
    }
    NoMore(wd, paths);
    NoMore(paths, wd);
  }

  lemma {:induction false} ScopeOfIs(p: Path, t: Tree, top: bool, followLinks: bool, pseudo: iset<Path>)
    ensures ScopeOf(p, t, top, followLinks, pseudo) ==
      match t
      case Gone => NOTHING
      case File => LeafScope(p)
      case Link(followed) =>
        if followLinks && followed.Some? then
          LeafScope(p).Plus(Quietly(ScopeOf(followed.value.path, followed.value.tree, true, false, pseudo)))
        else LeafScope(p)
      case Directory(_, _, children) =>
        if p in pseudo then NOTHING else DirScope(p, top).Plus(ScopeIn(p, children, |children|, followLinks, pseudo))
  {
    hide ScopeIn, LeafScope, Quietly, DirScope;
  }

  lemma {:induction false} ScopeInMore(dir: Path, children: seq<Child>, n: nat, followLinks: bool, pseudo: iset<Path>)
    requires n < |children|
    ensures ScopeIn(dir, children, 0, followLinks, pseudo) == NOTHING
    ensures ScopeIn(dir, children, n + 1, followLinks, pseudo)
         == ScopeIn(dir, children, n, followLinks, pseudo)
            .Plus(ScopeOf(Join(dir, children[n].name), children[n].tree, false, followLinks, pseudo))
  {
    hide ScopeOf, Join;
  }

  lemma {:induction false} ScopeInNone(dir: Path, children: seq<Child>, followLinks: bool, pseudo: iset<Path>)
    ensures ScopeIn(dir, children, 0, followLinks, pseudo) == NOTHING
  {
  }

  // ----- that is everything there is

  /** A walk from p comes to `found` at q, through directories that are not pseudo file systems. */
  ghost predicate Comes(p: Path, t: Tree, q: Path, found: Tree, pseudo: iset<Path>)
    decreases t
  {
    || (q == p && found == t)
    || (t.Directory? && p !in pseudo
        && exists c :: c in t.children && Comes(Join(p, c.name), c.tree, q, found, pseudo))
  }

  ghost predicate Within(a: Scope, b: Scope) {
    a.watch <= b.watch && a.tell <= b.tell && a.leaves <= b.leaves
  }

  lemma {:induction false} ChildWithin(
    dir: Path, children: seq<Child>, i: nat, n: nat, followLinks: bool, pseudo: iset<Path>)
    requires i < n <= |children|
    ensures Within(ScopeOf(Join(dir, children[i].name), children[i].tree, false, followLinks, pseudo),
                   ScopeIn(dir, children, n, followLinks, pseudo))
    decreases n
  {
    hide Join, ScopeOf;
    ScopeInMore(dir, children, n - 1, followLinks, pseudo);
    if i < n - 1 {
      ChildWithin(dir, children, i, n - 1, followLinks, pseudo);
    }
  }

  /** Every directory a walk comes to is to be watched, and told of unless the walk starts there; every file and link
      is to be told of. */
  lemma {:induction false} ScopeReaches(
    p: Path, t: Tree, top: bool, followLinks: bool, pseudo: iset<Path>, q: Path, found: Tree)
    requires Comes(p, t, q, found, pseudo)
    ensures var s := ScopeOf(p, t, top, followLinks, pseudo);
      && (found.File? || found.Link? ==> q in s.leaves)
      && (found.Directory? && q !in pseudo ==> q in s.watch && (!(top && q == p) ==> q in s.tell))
    decreases t
  {
    hide ScopeOf, ScopeIn, Join, Quietly;
    ScopeOfIs(p, t, top, followLinks, pseudo);
    if !(q == p && found == t) {
      var c :| c in t.children && Comes(Join(p, c.name), c.tree, q, found, pseudo);
      var i :| 0 <= i < |t.children| && t.children[i] == c;
      ScopeReaches(Join(p, c.name), c.tree, false, followLinks, pseudo, q, found);
      ChildWithin(p, t.children, i, |t.children|, followLinks, pseudo);
    }
  }

  /** A walk that follows links watches what is behind those it comes to. */
  lemma {:induction false} ScopeFollows(p: Path, t: Tree, top: bool, pseudo: iset<Path>, q: Path, link: Tree)
    requires Comes(p, t, q, link, pseudo) && link.Link? && link.followed.Some?
    ensures var target := link.followed.value;
      ScopeOf(target.path, target.tree, true, false, pseudo).watch <= ScopeOf(p, t, top, true, pseudo).watch
    decreases t
  {
    hide ScopeOf, ScopeIn, Join;
    ScopeOfIs(p, t, top, true, pseudo);
    if !(q == p && link == t) {
      var c :| c in t.children && Comes(Join(p, c.name), c.tree, q, link, pseudo);
      var i :| 0 <= i < |t.children| && t.children[i] == c;
      ScopeFollows(Join(p, c.name), c.tree, false, pseudo, q, link);
      ChildWithin(p, t.children, i, |t.children|, true, pseudo);
    }
  }

  /** What one event of the kernel says. */
  datatype Event = Event(wd: int, overflow: bool, selfGone: bool, ignored: bool, left: bool, came: bool, isDir: bool,
    name: Bytes)

  class Watcher {
    const root: Path
    const limit: nat
    const scoped: bool
    /** Read once and cached, so a directory's answer never changes. */
    const pseudo: iset<Path>
    var wd: map<int, Path>
    var paths: map<Path, int>
    var partial: bool
    /** Everything emitted, by absolute path. */
    var out: seq<Change>
    /** Every directory that was refused a watch, in order. */
    ghost var denied: seq<Path>
    /** How many of them were for want of watches. */
    ghost var exhausted: nat

    ghost predicate Valid()
      reads this
    {
      Inverse(wd, paths) && forall p :: p in paths ==> p !in pseudo
    }

    ghost function Now(): Held
      reads this
    {
      Held(paths, out, partial, denied, exhausted, limit)
    }

    constructor (root: Path, limit: nat, scoped: bool, pseudo: iset<Path>)
      ensures Valid() && paths == map[] && !partial && out == [] && denied == []
      ensures this.root == root && this.limit == limit && this.scoped == scoped && this.pseudo == pseudo
    {
      this.root, this.limit, this.scoped, this.pseudo := root, limit, scoped, pseudo;
      wd, paths, partial, out, denied, exhausted := map[], map[], false, [], [], 0;
    }

    /** inotify_add_watch on a directory of its own inode, or an error, perhaps for want of watches. */
    method AddWatch(ghost p: Path) returns (d: Option<int>, full: bool)
      modifies this`denied, this`exhausted
      ensures exhausted == old(exhausted) + if d.None? && full then 1 else 0
      ensures d.Some? ==> d.value !in wd && denied == old(denied)
      ensures d.None? ==> denied == old(denied) + [p]
    {
      var got: int := *;
      var failed: bool := *;
      full := *;
      if failed || got in wd {
        denied, exhausted := denied + [p], exhausted + if full then 1 else 0;
        return None, full;
      }
      return Some(got), full;
    }

    method Emit(kind: Kind, abs: Path)
      modifies this`out
      ensures out == old(out) + [Change(kind, abs)]
    {
      out := out + [Change(kind, abs)];
    }

    /** What the walk does at a directory; false to skip what is below it. Only a new watch is reported. */
    method Enter(p: Path, report: bool) returns (go: bool)
      requires Valid() && p !in pseudo
      modifies this
      ensures Valid() && Grown(old(Now()), Now()) && Spent(old(Now()), Now(), {p})
      ensures !partial ==> go && (p in paths || denied == old(denied) + [p])
      ensures denied == old(denied) || (p !in paths && denied == old(denied) + [p])
      ensures p in paths ==> go
      ensures paths.Keys <= old(paths).Keys + {p}
      ensures p !in old(paths) && p in paths ==> paths[p] !in old(wd)
      ensures old(p !in paths && |wd| + HEADROOM >= limit) ==> !go && partial
      ensures !go ==> partial
      ensures partial && !old(partial) ==> !go
      ensures out == old(out) + if report && p in paths && p !in old(paths) then [Change(Modified, p)] else []
    {
      if p in paths {
        return true;
      }
      SameSize(wd, paths);
      if |wd| + HEADROOM >= limit {
        partial := true;
        return false;
      }
      var d, full := AddWatch(p);
      if d.None? {
        if full {
          partial := true;
        }
        return !full;
      }
      InverseUnlessSameInode(wd, paths, p, d.value);
      wd := wd[d.value := p];
      paths := paths[p := d.value];
      if report {
        Emit(Modified, p);
      }
      return true;
    }

    method AddTree(p: Path, t: Tree, top: bool, report: bool, followLinks: bool)
      requires Valid()
      modifies this
      ensures Valid() && Walked(old(Now()), Now(), report, ScopeOf(p, t, top, followLinks, pseudo))
      decreases t, 0, 1
    {
      hide Inverse, Walked, ScopeOf, ScopeIn, LeafScope, DirScope, Quietly, Scope.Plus;
      ScopeOfIs(p, t, top, followLinks, pseudo);
      WalkedNothing(Now(), report);
      match t
      case Gone =>
      case File =>
        if report {
          Emit(Modified, p);
        }
        WalkedLeaf(old(Now()), Now(), report, p);
      case Link(followed) =>
        AddLink(p, followed, t, top, report, followLinks);
      case Directory(_, _, children) =>
        if p !in paths && p in pseudo {
          return;
        }
        AddDirectory(p, children, top, report, followLinks);
    }

    method AddLink(p: Path, followed: Option<Target>, t: Tree, top: bool, report: bool, followLinks: bool)
      requires Valid() && t == Link(followed)
      modifies this
      ensures Valid() && Walked(old(Now()), Now(), report, ScopeOf(p, t, top, followLinks, pseudo))
      decreases t, 0, 0
    {
      hide Inverse, Walked, ScopeOf, ScopeIn, LeafScope, DirScope, Quietly, Scope.Plus;
      ScopeOfIs(p, t, top, followLinks, pseudo);
      if report {
        Emit(Modified, p);
      }
      ghost var mid := Now();
      WalkedLeaf(old(Now()), mid, report, p);
      if followLinks && followed.Some? {
        ghost var from := followed.value;
        AddTree(followed.value.path, followed.value.tree, true, false, false);
        ghost var found := ScopeOf(from.path, from.tree, true, false, pseudo);
        WalkedQuietly(mid, Now(), report, found);
        WalkedOn(old(Now()), mid, Now(), report, LeafScope(p), Quietly(found));
      }
    }

    method AddDirectory(p: Path, children: seq<Child>, top: bool, report: bool, followLinks: bool)
      requires Valid() && p !in pseudo
      modifies this
      ensures Valid()
      ensures Walked(old(Now()), Now(), report,
                     DirScope(p, top).Plus(ScopeIn(p, children, |children|, followLinks, pseudo)))
      decreases children, |children| + 1
    {
      hide Inverse, Walked, ScopeOf, ScopeIn, LeafScope, DirScope, Quietly, Scope.Plus, Grown, Spent;
      ghost var below := ScopeIn(p, children, |children|, followLinks, pseudo);
      var go := Enter(p, report && !top);
      ghost var mid := Now();
      WalkedDir(old(Now()), mid, report, p, top);
      if go {
        AddChildren(p, children, report, followLinks);
        WalkedOn(old(Now()), mid, Now(), report, DirScope(p, top), below);
      } else {
        WalkedLess(old(Now()), mid, report, DirScope(p, top), below);
      }
    }

    method AddChildren(dir: Path, children: seq<Child>, report: bool, followLinks: bool)
      requires Valid()
      modifies this
      ensures Valid() && Walked(old(Now()), Now(), report, ScopeIn(dir, children, |children|, followLinks, pseudo))
      decreases children, |children|
    {
      hide Inverse, Walked, ScopeOf, ScopeIn, LeafScope, DirScope, Quietly, Scope.Plus, Join;
      WalkedNothing(Now(), report);
      ScopeInNone(dir, children, followLinks, pseudo);
      for n := 0 to |children|
        invariant Valid() && Walked(old(Now()), Now(), report, ScopeIn(dir, children, n, followLinks, pseudo))
      {
        ghost var mid := Now();
        AddTree(Join(dir, children[n].name), children[n].tree, false, report, followLinks);
        ScopeInMore(dir, children, n, followLinks, pseudo);
        WalkedOn(old(Now()), mid, Now(), report, ScopeIn(dir, children, n, followLinks, pseudo),
                 ScopeOf(Join(dir, children[n].name), children[n].tree, false, followLinks, pseudo));
      }
    }

    /** Forgets exactly dir and what lies below it. */
    method Remove(dir: Path)
      requires Valid()
      modifies this`wd, this`paths
      ensures Valid()
      ensures forall p :: p in paths <==> p in old(paths) && !Dropped(dir, p)
      ensures forall p :: p in paths ==> paths[p] == old(paths)[p]
      ensures forall d :: d in wd <==> d in old(wd) && !Dropped(dir, old(wd)[d])
    {
      hide Dropped;
      var rest := paths.Keys;
      while rest != {}
        invariant rest <= paths.Keys <= old(paths).Keys
        invariant Valid()
        invariant forall p :: p in old(paths) ==> (p in paths <==> p in rest || !Dropped(dir, p))
        invariant forall p :: p in paths ==> paths[p] == old(paths)[p]
        invariant forall d :: d in wd <==> d in old(wd) && old(wd)[d] in paths
        decreases rest
      {
        var p :| p in rest;
        if Dropped(dir, p) {
          var d := paths[p];
          paths := paths - {p};
          wd := wd - {d};
        }
        rest := rest - {p};
      }
    }

    /** What a vanished directory does to the tables. */
    twostate predicate Forgot(dir: Path)
      reads this
    {
      && (forall p :: p in paths <==> p in old(paths) && !Dropped(dir, p))
      && (forall p :: p in paths ==> paths[p] == old(paths)[p])
    }

    /** What a reporting walk adds, once `start` went out. */
    twostate predicate Added(start: seq<Change>, s: Scope)
      reads this
    {
      Walked(old(Now()).(out := start), Now(), true, s)
    }

    /** One event. `found` is what is at its path by then. */
    method Dispatch(e: Event, found: Tree)
      requires Valid()
      modifies this
      ensures Valid() && old(out) <= out
      ensures e.overflow ==> out == old(out) + [Change(Overflow, [])] && unchanged(`wd, `paths, `partial)
      ensures !e.overflow && e.wd !in old(wd) ==> unchanged(this)
      ensures !e.overflow && e.wd in old(wd) ==>
        var dir := old(wd)[e.wd];
        var abs := Join(dir, e.name);
        if e.selfGone && dir == root then out == old(out) + [Change(Overflow, [])] && unchanged(`wd, `paths, `partial)
        else if e.selfGone then out == old(out) + [Change(Deleted, dir)] && unchanged(`partial) && Forgot(dir)
        else if e.ignored || e.name == [] then unchanged(this)
        else if e.left then out == old(out) + [Change(Deleted, abs)]
          && unchanged(`partial) && if e.isDir then Forgot(abs) else unchanged(`wd, `paths)
        else if scoped || !e.came then out == old(out) + [Change(Modified, abs)] && unchanged(`wd, `paths, `partial)
        else if e.isDir then Added(old(out) + [Change(Modified, abs)], ScopeOf(abs, found, true, true, pseudo))
        else if found.Link? && found.followed.Some? then
          Added(old(out) + [Change(Modified, abs)],
                ScopeOf(found.followed.value.path, found.followed.value.tree, true, false, pseudo))
        else out == old(out) + [Change(Modified, abs)] && unchanged(`wd, `paths, `partial)
    {
      hide Inverse, Dropped, Walked, ScopeOf, Join;
      if e.overflow {
        Emit(Overflow, []);
        return;
      }
      if e.wd !in wd {
        return;
      }
      var dir := wd[e.wd];
      if e.selfGone {
        if dir == root {
          Emit(Overflow, []);
          return;
        }
        Remove(dir);
        Emit(Deleted, dir);
        return;
      }
      if e.ignored || e.name == [] {
        return;
      }
      var abs := Join(dir, e.name);
      if e.left {
        if e.isDir {
          Remove(abs);
        }
        Emit(Deleted, abs);
      } else if e.came && e.isDir {
        Emit(Modified, abs);
        if !scoped {
          ghost var mid := Now();
          AddTree(abs, found, true, true, true);
          WalkedMeans(mid, Now(), true, ScopeOf(abs, found, true, true, pseudo));
        }
      } else {
        Emit(Modified, abs);
        if !scoped && e.came {
          match found
          case Link(followed) =>
            if followed.Some? {
              ghost var mid, from := Now(), followed.value;
              AddTree(followed.value.path, followed.value.tree, true, true, false);
              WalkedMeans(mid, Now(), true, ScopeOf(from.path, from.tree, true, false, pseudo));
            }
          case _ =>
        }
      }
    }
  }
}
