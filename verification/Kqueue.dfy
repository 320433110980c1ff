/** The kqueue backend: its descriptor tables under a budget, its walks, and the re-listing of a directory of which
    the kernel only says that something in it changed. What kernel and file system answer is left open. */
module Kqueue {
  import opened Wrappers
  import opened Paths
  import opened Coalescer
  import opened Walks
  import opened Listings

  // ----- what a complete walk must do

  /** What a walk is to tell the consumer of, in this order; to watch; and to note. */
  datatype Extent = Extent(tell: seq<Node>, watch: set<Node>, visits: set<Visit>) {
    ghost function Plus(more: Extent): Extent {
      Extent(tell + more.tell, watch + more.watch, visits + more.visits)
    }
  }

  const NO_EXTENT: Extent := Extent([], {}, {})

  /** An entry of a directory; every entry is told of, but only a file needs a descriptor of its own. */
  function EntryExtent(p: Path, file: bool, report: bool): Extent {
    Extent(if report then [Node(p, false)] else [], if file then {Node(p, false)} else {}, {})
  }

  function DirExtent(p: Path, listing: Option<set<Name>>, report: bool): Extent {
    Extent(if report then [Node(p, true)] else [], {Node(p, true)},
      if listing.Some? then {Visit(p, listing.value)} else {})
  }

  /** Everything at or below p. The directory a walk starts at (`top`) is not told of; nor is anything found through
      a link, and no link is followed from there. */
  ghost function ExtentOf(p: Path, t: Tree, top: bool, report: bool, followLinks: bool): Extent
    decreases t, 0
  {
    match t
    case Gone => NO_EXTENT
    case File => EntryExtent(p, true, report)
    case Link(followed) =>
      if followLinks && followed.Some? then
        EntryExtent(p, false, report).Plus(ExtentOf(followed.value.path, followed.value.tree, true, false, false))
      else EntryExtent(p, false, report)
    case Directory(pseudo, listing, children) =>
      if pseudo then NO_EXTENT
      else DirExtent(p, listing, report && !top).Plus(ExtentIn(p, children, |children|, report, followLinks))
  }

  ghost function ExtentIn(dir: Path, children: seq<Child>, n: nat, report: bool, followLinks: bool): Extent
    requires n <= |children|
    decreases children, n
  {
    if n == 0 then NO_EXTENT
    else
      ExtentIn(dir, children, n - 1, report, followLinks)
      .Plus(ExtentOf(Join(dir, children[n - 1].name), children[n - 1].tree, false, report, followLinks))
  }

  /** What a new entry calls for; scoped feeds leave directories and links alone. */
  ghost function ArrivalExtent(abs: Path, t: Tree, scoped: bool): Extent {
    match t
    case Gone => NO_EXTENT
    case File => EntryExtent(abs, true, false)
    case Link(followed) =>
      if !scoped && followed.Some? then ExtentOf(followed.value.path, followed.value.tree, true, true, false)
      else NO_EXTENT
    case Directory(_, _, _) => if scoped then NO_EXTENT else ExtentOf(abs, t, true, true, true)
  }

  // ----- that is everything there is

  lemma {:induction false} ExtentOfIs(p: Path, t: Tree, top: bool, report: bool, followLinks: bool)
    ensures ExtentOf(p, t, top, report, followLinks) ==
      match t
      case Gone => NO_EXTENT
      case File => EntryExtent(p, true, report)
      case Link(followed) =>
        if followLinks && followed.Some? then
          EntryExtent(p, false, report).Plus(ExtentOf(followed.value.path, followed.value.tree, true, false, false))
        else EntryExtent(p, false, report)
      case Directory(pseudo, listing, children) =>
        if pseudo then NO_EXTENT
        else DirExtent(p, listing, report && !top).Plus(ExtentIn(p, children, |children|, report, followLinks))
  {
    hide ExtentIn, EntryExtent, DirExtent, Extent.Plus;
  }

  lemma {:induction false} ExtentInNone(dir: Path, children: seq<Child>, report: bool, followLinks: bool)
    ensures ExtentIn(dir, children, 0, report, followLinks) == NO_EXTENT
  {
  }

  lemma {:induction false} ExtentInMore(dir: Path, children: seq<Child>, n: nat, report: bool, followLinks: bool)
    requires n < |children|
    ensures ExtentIn(dir, children, n + 1, report, followLinks)
         == ExtentIn(dir, children, n, report, followLinks)
            .Plus(ExtentOf(Join(dir, children[n].name), children[n].tree, false, report, followLinks))
  {
    hide Join, ExtentOf, Extent.Plus;
  }

  ghost predicate Within(a: Extent, b: Extent) {
    (forall n :: n in a.tell ==> n in b.tell) && a.watch <= b.watch && a.visits <= b.visits
  }

  lemma {:induction false} ChildWithin(
    dir: Path, children: seq<Child>, i: nat, n: nat, report: bool, followLinks: bool)
    requires i < n <= |children|
    ensures Within(ExtentOf(Join(dir, children[i].name), children[i].tree, false, report, followLinks),
                   ExtentIn(dir, children, n, report, followLinks))
    decreases n
  {
    hide Join, ExtentOf;
    ExtentInMore(dir, children, n - 1, report, followLinks);
    if i < n - 1 {
      ChildWithin(dir, children, i, n - 1, report, followLinks);
    }
  }

  /** Whatever a walk comes to is to be watched, if it is a file or a directory; to be noted, if it is a directory that
      can be listed; and on a reporting walk to be told of, but for the directory the walk starts at. */
  lemma {:induction false} ExtentReaches(
    p: Path, t: Tree, top: bool, report: bool, followLinks: bool, q: Path, found: Tree)
    requires Reaches(p, t, q, found)
    ensures var e := ExtentOf(p, t, top, report, followLinks);
      && (found.File? ==> Node(q, false) in e.watch)
      && (found.Directory? && !found.pseudo ==> Node(q, true) in e.watch)
      && (found.Directory? && !found.pseudo && found.listing.Some? ==> Visit(q, found.listing.value) in e.visits)
      && (report && (found.File? || found.Link?) ==> Node(q, false) in e.tell)
      && (report && found.Directory? && !found.pseudo && !(top && q == p) ==> Node(q, true) in e.tell)
    decreases t
  {
    hide ExtentOf, ExtentIn, Join;
    ExtentOfIs(p, t, top, report, followLinks);
    if !(q == p && found == t) {
      var c :| c in t.children && Reaches(Join(p, c.name), c.tree, q, found);
      var i :| 0 <= i < |t.children| && t.children[i] == c;
      ExtentReaches(Join(p, c.name), c.tree, false, report, followLinks, q, found);
      ChildWithin(p, t.children, i, |t.children|, report, followLinks);
    }
  }

  /** A walk that follows links watches and notes what is behind those it comes to. */
  lemma {:induction false} ExtentFollows(
    p: Path, t: Tree, top: bool, report: bool, q: Path, link: Tree)
    requires Reaches(p, t, q, link) && link.Link? && link.followed.Some?
    ensures var target := link.followed.value;
      Within(ExtentOf(target.path, target.tree, true, false, false).(tell := []), ExtentOf(p, t, top, report, true))
    decreases t
  {
    hide ExtentOf, ExtentIn, Join;
    ExtentOfIs(p, t, top, report, true);
    if !(q == p && link == t) {
      var c :| c in t.children && Reaches(Join(p, c.name), c.tree, q, link);
      var i :| 0 <= i < |t.children| && t.children[i] == c;
      ExtentFollows(Join(p, c.name), c.tree, false, report, q, link);
      ChildWithin(p, t.children, i, |t.children|, report, true);
    }
  }

  /** What n may stand for: a directory with something in it, or else a file or a link. */
  ghost predicate StandsFor(n: Node, found: Tree) {
    if n.dir then found.Directory? && !found.pseudo else found.File? || found.Link?
  }

  /** And nothing else: what a walk is to tell of it comes to, and so with what it is to watch, or that is behind a
      link it comes to. */
  lemma {:induction false} ExtentIsReached(
    p: Path, t: Tree, top: bool, report: bool, followLinks: bool, n: Node)
    ensures n in ExtentOf(p, t, top, report, followLinks).tell ==>
      report && exists found :: Reaches(p, t, n.path, found) && StandsFor(n, found)
    ensures n in ExtentOf(p, t, top, report, followLinks).watch ==>
      || (exists found :: Reaches(p, t, n.path, found) && StandsFor(n, found))
      || (followLinks && exists q, link :: Reaches(p, t, q, link) && Behind(link, n))
    decreases t, 0
  {
    hide ExtentOf, ExtentIn, Join;
    ExtentOfIs(p, t, top, report, followLinks);
    assert Reaches(p, t, p, t);
    match t
    case Gone =>
    case File =>
      assert StandsFor(Node(p, false), t);
    case Link(followed) =>
      assert StandsFor(Node(p, false), t);
      if followLinks && followed.Some? {
        ExtentIsReached(followed.value.path, followed.value.tree, true, false, false, n);
      }
    case Directory(pseudo, _, children) =>
      if !pseudo {
        assert StandsFor(Node(p, true), t);
        ChildrenAreReached(p, t, |children|, report, followLinks, n);
      }
  }

  ghost predicate Behind(link: Tree, n: Node) {
    link.Link? && link.followed.Some?
    && n in ExtentOf(link.followed.value.path, link.followed.value.tree, true, false, false).watch
  }

  lemma {:induction false} ChildrenAreReached(
    p: Path, t: Tree, m: nat, report: bool, followLinks: bool, n: Node)
    requires t.Directory? && !t.pseudo && m <= |t.children|
    ensures n in ExtentIn(p, t.children, m, report, followLinks).tell ==>
      report && exists found :: Reaches(p, t, n.path, found) && StandsFor(n, found)
    ensures n in ExtentIn(p, t.children, m, report, followLinks).watch ==>
      || (exists found :: Reaches(p, t, n.path, found) && StandsFor(n, found))
      || (followLinks && exists q, link :: Reaches(p, t, q, link) && Behind(link, n))
    decreases t.children, m
  {
    hide ExtentOf, ExtentIn, Join, StandsFor, Behind;
    ExtentInNone(p, t.children, report, followLinks);
    if m > 0 {
      var c := t.children[m - 1];
      ExtentInMore(p, t.children, m - 1, report, followLinks);
      ChildrenAreReached(p, t, m - 1, report, followLinks, n);
      ExtentIsReached(Join(p, c.name), c.tree, false, report, followLinks, n);
      forall q, found | Reaches(Join(p, c.name), c.tree, q, found) ensures Reaches(p, t, q, found) {
        assert c in t.children;
      }
      if q, link :| Reaches(Join(p, c.name), c.tree, q, link) && Behind(link, n) {
        assert Reaches(p, t, q, link);
      }
    }
  }

  /** A new file is watched in every feed; in an unscoped one, what a new directory holds is watched, noted and told of,
      and so is what a new link leads to. */
  lemma {:induction false} ArrivalReaches(abs: Path, t: Tree, scoped: bool, q: Path, found: Tree)
    requires t.File? ==> q == abs && found == t
    requires t.Directory? ==> !scoped && Reaches(abs, t, q, found)
    requires t.Link? ==>
      !scoped && t.followed.Some? && Reaches(t.followed.value.path, t.followed.value.tree, q, found)
    requires !t.Gone?
    ensures var e := ArrivalExtent(abs, t, scoped);
      var start := if t.Link? then t.followed.value.path else abs;
      && (found.File? ==> Node(q, false) in e.watch)
      && (found.Directory? && !found.pseudo ==> Node(q, true) in e.watch)
      && (found.Directory? && !found.pseudo && found.listing.Some? ==> Visit(q, found.listing.value) in e.visits)
      && ((found.File? || found.Link?) && !t.File? ==> Node(q, false) in e.tell)
      && (found.Directory? && !found.pseudo && q != start ==> Node(q, true) in e.tell)
  {
    hide ExtentOf, Reaches;
    match t
    case File =>
    case Link(followed) =>
      ExtentReaches(followed.value.path, followed.value.tree, true, true, false, q, found);
    case Directory(_, _, _) =>
      ExtentReaches(abs, t, true, true, true, q, found);
  }

  // ----- what a walk did

  /** Only what is to be watched was opened. */
  ghost predicate Tried(denied: seq<Path>, nodes: set<Node>) {
    forall p :: p in denied ==> p in PathsOf(nodes)
  }

  ghost predicate Covers(paths: map<Path, int>, nodes: set<Node>, skip: seq<Path>) {
    forall n :: n in nodes ==> n.path in paths || n.path in skip
  }

  /** Nothing watched was lost or moved to another descriptor. */
  ghost predicate Keeps(before: map<Path, int>, after: map<Path, int>) {
    forall p :: p in before ==> p in after && after[p] == before[p]
  }

  /** Nothing is forgotten, and what is watched now and was not before is among these. */
  ghost predicate OnlyAdds(before: map<Path, bool>, after: map<Path, bool>, nodes: set<Node>) {
    && (forall q :: q in before ==> q in after && after[q] == before[q])
    && (forall q :: q in after && q !in before ==> Node(q, after[q]) in nodes)
  }

  /** The tables and the notes, as far as a walk changes them, every path whose open has failed, and the budget. */
  datatype Held = Held(
    paths: map<Path, int>, isDir: map<Path, bool>, notes: Notes, partial: bool, denied: seq<Path>, budget: nat)

  /** The feed turned partial only if what was watched and what was to be does not fit the budget. */
  ghost predicate OverBudget(a: Held, b: Held, watch: set<Node>) {
    b.partial && !a.partial ==> |a.paths.Keys + PathsOf(watch)| > a.budget
  }

  /** A walk's effect on them. Unless the budget ran out, everything it came to is watched and noted but what could
      not be opened on this walk. */
  ghost predicate Spread(a: Held, b: Held, watch: set<Node>, visits: set<Visit>) {
    && Keeps(a.paths, b.paths) && a.denied <= b.denied && (a.partial ==> b.partial) && b.budget == a.budget
    && b.paths.Keys <= a.paths.Keys + PathsOf(watch) && OverBudget(a, b, watch)
    && OnlyAdds(a.isDir, b.isDir, watch)
    && Tried(Since(a.denied, b.denied), watch)
    && (!b.partial ==> Covers(b.paths, watch, Since(a.denied, b.denied)))
    && Recorded(a.notes, b.notes, visits, Since(a.denied, b.denied), !b.partial)
  }

  /** A whole walk: that, and what the consumer is told. */
  ghost predicate Walked(a: Held, b: Held, start: seq<Change>, out: seq<Change>, e: Extent) {
    && Spread(a, b, e.watch, e.visits)
    && start <= out && Told(e.tell, Since(start, out), Since(a.denied, b.denied), !b.partial)
  }

  /** A directory entry, and whether it is neither a directory nor a link. */
  datatype Entry = Entry(name: Name, file: bool)

  ghost function EntryNames(entries: seq<Entry>): set<Name> {
    set e | e in entries :: e.name
  }

  /** The files among them get descriptors. */
  ghost function EntryNodes(dir: Path, entries: seq<Entry>): set<Node> {
    set e | e in entries && e.file :: Node(Join(dir, e.name), false)
  }

  ghost function EntryChanges(dir: Path, entries: seq<Entry>): seq<Change> {
    seq(|entries|, i requires 0 <= i < |entries| => Change(Modified, Join(dir, entries[i].name)))
  }

  // ----- tables

  /** Descriptors and paths name each other, and nothing else is kept about anything unwatched. */
  ghost predicate Tables(
    fds: map<int, Path>, paths: map<Path, int>, isDir: map<Path, bool>, names: map<Path, set<Name>>)
  {
    && (forall fd :: fd in fds ==> fds[fd] in paths && paths[fds[fd]] == fd)
    && (forall p :: p in paths ==> paths[p] in fds && fds[paths[p]] == p)
    && isDir.Keys == paths.Keys
    && names.Keys <= paths.Keys
  }

  class Watcher {
    const root: Path
    const budget: nat
    const scoped: bool
    var fds: map<int, Path>
    var paths: map<Path, int>
    var isDir: map<Path, bool>
    var names: map<Path, set<Name>>
    var partial: bool
    /** Everything emitted, by absolute path. */
    var out: seq<Change>
    ghost var log: map<Path, Log>
    ghost var missed: map<Path, set<Name>>
    /** Every path whose open failed, in order. */
    ghost var denied: seq<Path>

    ghost function NotesNow(): Notes
      reads this
    {
      Notes(names, log, missed)
    }

    ghost function Now(): Held
      reads this
    {
      Held(paths, isDir, NotesNow(), partial, denied, budget)
    }

    ghost predicate Valid()
      reads this
    {
      Tables(fds, paths, isDir, names) && |fds| <= budget && LogsHold(NotesNow(), out)
    }

    /** Every directory: the diffs sent of it, replayed over what it held when it was first recorded, give its last
        listing but for the names missed, whatever else was listed, walked or dropped in between. */
    lemma {:induction false} NamesReplay(dir: Path)
      requires Valid() && dir in names
      ensures dir in log && dir in missed
      ensures var heard := Present(ReplayDiffs(StartView(log[dir].start), log[dir].diffs));
        forall n: Name :: n in heard <==> (n in names[dir] <==> n !in missed[dir])
      ensures forall diff, c :: diff in log[dir].diffs && c in diff ==> Change(c.kind, Join(dir, c.path)) in out
    {
      hide Tables, Present, ReplayDiffs, Join;
      assert InStep(log[dir], names[dir], missed[dir]);
    }

    /** No descriptor was closed, and the feed turned partial only with the budget spent. */
    twostate predicate Grew()
      reads this
    {
      old(|fds|) <= |fds| && (partial && !old(partial) ==> |fds| == budget)
    }

    constructor (root: Path, budget: nat, scoped: bool)
      ensures Valid() && paths == map[] && names == map[] && missed == map[] && !partial && out == [] && denied == []
      ensures this.root == root && this.budget == budget && this.scoped == scoped
    {
      this.root, this.budget, this.scoped := root, budget, scoped;
      fds, paths, isDir, names, partial, out := map[], map[], map[], map[], false, [];
      log, missed, denied := map[], map[], [];
    }

    /** open and kevent: a descriptor nobody holds, or an error. */
    method Open(ghost path: Path) returns (fd: Option<int>)
      modifies this`denied
      ensures fd.Some? ==> fd.value !in fds && denied == old(denied)
      ensures fd.None? ==> denied == old(denied) + [path]
    {
      var got: int := *;
      var failed: bool := *;
      if failed || got in fds {
        denied := denied + [path];
        return None;
      }
      return Some(got);
    }

    /** Whether path is watched now; a full budget marks the feed partial instead. */
    method Watch(path: Path, dir: bool) returns (ok: bool)
      requires Valid()
      modifies this`fds, this`paths, this`isDir, this`partial, this`denied
      ensures Valid() && Grew()
      ensures ok <==> path in paths
      ensures ok && path !in old(paths) ==> paths == old(paths)[path := paths[path]] && paths[path] !in old(fds)
      ensures ok && path !in old(paths) ==> path !in old(isDir) && isDir == old(isDir)[path := dir]
      ensures ok && path !in old(paths) ==> old(|fds|) < budget
      ensures path in old(paths) || !ok ==> unchanged(`fds, `paths, `isDir)
      ensures path !in old(paths) && old(|fds|) >= budget ==> !ok && partial
      ensures old(partial) ==> partial
      ensures partial && !old(partial) ==> path !in paths && |paths| >= budget
      // Its own open, and nothing else, may have failed.
      ensures denied == old(denied) || (!ok && denied == old(denied) + [path])
      ensures !ok && !partial ==> denied == old(denied) + [path]
    {
      hide LogsHold, Tables;
      if path in paths {
        return true;
      }
      if |fds| >= budget {
        SameSize(fds, paths, isDir, names);
        partial := true;
        return false;
      }
      var fd := Open(path);
      if fd.None? {
        return false;
      }
      Register(fd.value, path, dir);
      return true;
    }

    method Register(fd: int, path: Path, dir: bool)
      requires Valid() && fd !in fds && path !in paths && |fds| < budget
      modifies this`fds, this`paths, this`isDir
      ensures Valid() && fds == old(fds)[fd := path] && paths == old(paths)[path := fd]
      ensures isDir == old(isDir)[path := dir] && path !in old(isDir) && |fds| == old(|fds|) + 1
    {
      hide LogsHold, Tables;
      WatchedOne(fds, paths, isDir, names, fd, path, dir);
      fds := fds[fd := path];
      paths := paths[path := fd];
      isDir := isDir[path := dir];
    }

    /** Drops exactly path and what lies below it, from every table. */
    method Unwatch(path: Path)
      requires Valid()
      modifies this`fds, this`paths, this`isDir, this`names, this`log, this`missed
      ensures Valid()
      ensures forall p :: p in paths <==> p in old(paths) && !Dropped(path, p)
      ensures forall p :: p in paths ==> paths[p] == old(paths)[p]
      ensures forall p :: p in isDir ==> p in old(isDir) && isDir[p] == old(isDir)[p]
      ensures forall fd :: fd in fds <==> fd in old(fds) && !Dropped(path, old(fds)[fd])
      ensures NotesNow() == Kept(old(NotesNow()), (set p | p in old(names) && !Dropped(path, p)))
    {
      hide Dropped, LogsHold, Shrunk, Tables, Kept;
      ghost var was, notes := Tabs(fds, paths, isDir, names), NotesNow();
      ghost var left := set p | p in names && !Dropped(path, p);
      Close(path);
      ShrunkIs(was, Tabs(fds, paths, isDir, names), path);
      KeptHolds(notes, left, out);
      ghost var kept := Kept(notes, left);
      log, missed := kept.log, kept.missed;
    }

    /** The loop over the watched paths. */
    method Close(path: Path)
      requires Tables(fds, paths, isDir, names) && |fds| <= budget
      modifies this`fds, this`paths, this`isDir, this`names
      ensures Tables(fds, paths, isDir, names) && |fds| <= budget
      ensures Shrunk(old(Tabs(fds, paths, isDir, names)), Tabs(fds, paths, isDir, names))
      ensures Closed(old(paths), paths, {}, path)
    {
      hide Dropped, Shrunk, Tables, Closed, Without;
      ghost var was := Tabs(fds, paths, isDir, names);
      var rest := paths.Keys;
      ShrunkNone(was);
      ClosedNone(paths, path);
      while rest != {}
        invariant rest <= paths.Keys
        invariant Tables(fds, paths, isDir, names) && |fds| <= budget
        invariant Shrunk(was, Tabs(fds, paths, isDir, names)) && Closed(was.paths, paths, rest, path)
        decreases rest
      {
        var p :| p in rest;
        ClosedMore(was.paths, paths, rest, path, p);
        if Dropped(path, p) {
          ShrunkMore(was, Tabs(fds, paths, isDir, names), p);
          CloseOne(p);
        }
        rest := rest - {p};
      }
    }

    method CloseOne(p: Path)
      requires p in paths
      modifies this`fds, this`paths, this`isDir, this`names
      ensures paths == old(paths) - {p}
      ensures Tabs(fds, paths, isDir, names) == Without(old(Tabs(fds, paths, isDir, names)), p)
    {
      var fd := paths[p];
      fds, paths, isDir, names := fds - {fd}, paths - {p}, isDir - {p}, names - {p};
    }

    method Emit(kind: Kind, abs: Path)
      requires Valid()
      modifies this`out
      ensures Valid() && out == old(out) + [Change(kind, abs)]
    {
      hide Tables, LogsHold;
      LogsHoldOn(NotesNow(), out, Change(kind, abs));
      out := out + [Change(kind, abs)];
    }

    /** The walk: watches every directory and file it comes to, and reports them if asked to. */
    method AddTree(p: Path, t: Tree, top: bool, report: bool, followLinks: bool)
      requires Valid()
      modifies this
      ensures Valid() && Grew()
      ensures Walked(old(Now()), Now(), old(out), out, ExtentOf(p, t, top, report, followLinks))
      decreases t, 0
    {
      hide Tables, LogsHold, Walked, ExtentOf, ExtentIn, EntryExtent, DirExtent, Extent.Plus;
      ExtentOfIs(p, t, top, report, followLinks);
      WalkedNothing(Now(), out);
      match t
      case Gone =>
      case File =>
        See(p, true, report);
      case Link(followed) =>
        See(p, false, report);
        if followLinks && followed.Some? {
          ghost var mid, told, from := Now(), out, followed.value;
          AddTree(followed.value.path, followed.value.tree, true, false, false);
          WalkedOn(old(Now()), mid, Now(), old(out), told, out, EntryExtent(p, false, report),
                   ExtentOf(from.path, from.tree, true, false, false));
        }
      case Directory(pseudo, listing, children) =>
        if pseudo {
          return;
        }
        AddDirectory(p, listing, children, report && !top, report, followLinks);
    }

    /** Tells of an entry if asked to, and watches it if it is a file. */
    method See(abs: Path, file: bool, report: bool)
      requires Valid()
      modifies this`fds, this`paths, this`isDir, this`partial, this`denied, this`out
      ensures Valid() && Grew() && out == old(out) + if report then [Change(Modified, abs)] else []
      ensures Walked(old(Now()), Now(), old(out), out, EntryExtent(abs, file, report))
    {
      hide Tables, LogsHold, Spread;
      ghost var was, told := Now(), out;
      if report {
        Emit(Modified, abs);
      }
      SpreadNothing(was, told);
      if file {
        var ok := Watch(abs, false);
        WatchSpreads(was, Now(), abs, false, ok, told);
      }
      EntryTold(abs, file, report, told, out, Since(was.denied, denied), !partial);
    }

    method AddDirectory(
      p: Path, listing: Option<set<Name>>, children: seq<Child>, own: bool, report: bool, followLinks: bool)
      requires Valid()
      modifies this
      ensures Valid() && Grew()
      ensures Walked(old(Now()), Now(), old(out), out,
                     DirExtent(p, listing, own).Plus(ExtentIn(p, children, |children|, report, followLinks)))
      decreases children, |children| + 1
    {
      hide Tables, LogsHold, Walked, Noting, ExtentOf, ExtentIn, EntryExtent, DirExtent, Extent.Plus;
      ghost var below := ExtentIn(p, children, |children|, report, followLinks);
      var go := Enter(p, listing, own);
      ghost var mid, told := Now(), out;
      if go {
        AddChildren(p, children, report, followLinks);
        WalkedOn(old(Now()), mid, Now(), old(out), told, out, DirExtent(p, listing, own), below);
      } else {
        WalkedLess(old(Now()), mid, old(out), told, DirExtent(p, listing, own), below);
      }
    }

    /** A directory on the walk; false when the budget says to skip what is below it. */
    method Enter(p: Path, listing: Option<set<Name>>, report: bool) returns (go: bool)
      requires Valid()
      modifies this
      ensures Valid() && Grew()
      ensures !go ==> partial
      ensures p in paths ==> go
      ensures !partial ==> go && (p in paths || denied == old(denied) + [p])
      ensures out == old(out) + if p in paths && report then [Change(Modified, p)] else []
      ensures NotesNow() ==
        if p in paths && listing.Some? then old(Noting(NotesNow(), p, listing.value)) else old(NotesNow())
      ensures Walked(old(Now()), Now(), old(out), out, DirExtent(p, listing, report))
    {
      hide Tables, LogsHold, Noting, Spread, DirExtent, Walked, Since;
      ghost var was, told := Now(), out;
      var ok := Watch(p, true);
      ghost var seen := Now();
      WatchSpreads(was, seen, p, true, ok, told);
      go := ok || !partial;
      if ok && report {
        Emit(Modified, p);
      }
      if ok && listing.Some? {
        Note(p, listing.value);
      }
      EnterWalks(was, seen, Now(), told, out, p, listing, report);
    }

    /** Notes what a watched directory holds. */
    method Note(dir: Path, now: set<Name>)
      requires Valid() && dir in paths
      modifies this`names, this`log, this`missed
      ensures Valid() && NotesNow() == old(Noting(NotesNow(), dir, now))
    {
      hide Tables, LogsHold, Noting;
      NamesWatched(fds, paths, isDir, names, dir, now);
      NotingHolds(NotesNow(), dir, now, out);
      NotingNames(NotesNow(), dir, now);
      ghost var notes := Noting(NotesNow(), dir, now);
      names, log, missed := names[dir := now], notes.log, notes.missed;
    }

    method AddChildren(dir: Path, children: seq<Child>, report: bool, followLinks: bool)
      requires Valid()
      modifies this
      ensures Valid() && Grew()
      ensures Walked(old(Now()), Now(), old(out), out, ExtentIn(dir, children, |children|, report, followLinks))
      decreases children, |children|
    {
      hide Tables, LogsHold, Walked, ExtentOf, ExtentIn, EntryExtent, DirExtent, Extent.Plus, Join;
      WalkedNothing(Now(), out);
      ExtentInNone(dir, children, report, followLinks);
      for n := 0 to |children|
        invariant Valid() && Grew()
        invariant Walked(old(Now()), Now(), old(out), out, ExtentIn(dir, children, n, report, followLinks))
      {
        ghost var mid, told := Now(), out;
        AddTree(Join(dir, children[n].name), children[n].tree, false, report, followLinks);
        ExtentInMore(dir, children, n, report, followLinks);
        WalkedOn(old(Now()), mid, Now(), old(out), told, out, ExtentIn(dir, children, n, report, followLinks),
                 ExtentOf(Join(dir, children[n].name), children[n].tree, false, report, followLinks));
      }
    }

    /** Records what a directory holds and watches the files in it. */
    method Snapshot(dir: Path, listing: Option<seq<Entry>>, report: bool)
      requires Valid() && dir in paths
      modifies this
      ensures Valid() && Grew() && dir in paths
      ensures NotesNow() == old(Noting(NotesNow(), dir, EntryNames(listing.GetOr([]))))
      ensures out == old(out) + if report then EntryChanges(dir, listing.GetOr([])) else []
      ensures Spread(old(Now()), Now(), EntryNodes(dir, listing.GetOr([])),
                     {Visit(dir, EntryNames(listing.GetOr([])))})
    {
      hide Tables, LogsHold, Join, EntryNames, EntryNodes, EntryChanges, Spread, Noting;
      var now := SeeAll(dir, listing.GetOr([]), report);
      ghost var mid := Now();
      SpreadMeans(old(Now()), mid, EntryNodes(dir, listing.GetOr([])), {});
      Note(dir, now);
      NoteSpreads(old(Now()), mid, dir, now, EntryNodes(dir, listing.GetOr([])));
    }

    /** Tells of the entries if asked to, watches the files among them, and collects the names. */
    method SeeAll(dir: Path, entries: seq<Entry>, report: bool) returns (now: set<Name>)
      requires Valid()
      modifies this`fds, this`paths, this`isDir, this`partial, this`denied, this`out
      ensures Valid() && Grew() && now == EntryNames(entries)
      ensures out == old(out) + if report then EntryChanges(dir, entries) else []
      ensures Spread(old(Now()), Now(), EntryNodes(dir, entries), {})
    {
      hide Tables, LogsHold, Join, EntryNames, EntryNodes, EntryChanges, EntryExtent, Spread, Told, Since;
      now := {};
      EntriesNone(dir);
      SpreadNothing(Now(), out);
      for i := 0 to |entries|
        invariant Valid() && Grew() && now == EntryNames(entries[..i])
        invariant Spread(old(Now()), Now(), EntryNodes(dir, entries[..i]), {})
        invariant out == old(out) + if report then EntryChanges(dir, entries[..i]) else []
      {
        ghost var mid, abs := Now(), Join(dir, entries[i].name);
        See(Join(dir, entries[i].name), entries[i].file, report);
        EntriesMore(dir, entries, i);
        EntrySpread(old(Now()), mid, Now(), EntryNodes(dir, entries[..i]), abs, entries[i].file, report);
        now := now + {entries[i].name};
      }
      assert entries[..|entries|] == entries;
    }

    /** A directory of a scoped feed, and the files right inside it; `there` is what stat says afterwards. */
    method AddOne(dir: Path, pseudo: bool, listing: Option<seq<Entry>>, there: bool)
      requires Valid()
      modifies this
      ensures Valid() && Grew()
      ensures pseudo ==> unchanged(this)
      ensures !pseudo && dir !in paths ==> unchanged(`fds, `paths, `isDir, `names, `log, `missed)
      ensures !pseudo && dir !in paths ==> out == old(out) + if there || dir == root then [] else [Change(Deleted, dir)]
      ensures !pseudo && dir in paths ==> out == old(out)
      ensures !pseudo && dir in paths ==> NotesNow() == old(Noting(NotesNow(), dir, EntryNames(listing.GetOr([]))))
      ensures !pseudo && dir !in paths ==> Spread(old(Now()), Now(), {Node(dir, true)}, {})
      ensures !pseudo && dir in paths ==>
        Spread(old(Now()), Now(), {Node(dir, true)} + EntryNodes(dir, listing.GetOr([])),
               {Visit(dir, EntryNames(listing.GetOr([])))})
    {
      hide Tables, LogsHold, Join, EntryNames, EntryNodes, EntryChanges, Noting, Spread;
      if pseudo {
        return;
      }
      ghost var was, told := Now(), out;
      var ok := Watch(dir, true);
      ghost var mid := Now();
      WatchSpreads(was, mid, dir, true, ok, told);
      if !ok {
        if !there && dir != root {
          Emit(Deleted, dir);
        }
        return;
      }
      Snapshot(dir, listing, false);
      ghost var visits := {Visit(dir, EntryNames(listing.GetOr([])))};
      SpreadOn(was, mid, Now(), {Node(dir, true)}, EntryNodes(dir, listing.GetOr([])), {}, visits);
      assert {} + visits == visits;
    }

    /** Watches what a new entry calls for and reports what it brings. */
    method Arrive(abs: Path, t: Tree)
      requires Valid()
      modifies this
      ensures Valid() && Grew()
      ensures Walked(old(Now()), Now(), old(out), out, ArrivalExtent(abs, t, scoped))
    {
      hide Tables, LogsHold, Walked, ExtentOf, ExtentIn, EntryExtent;
      WalkedNothing(Now(), out);
      match t
      case Gone =>
      case Link(followed) =>
        if !scoped && followed.Some? {
          AddTree(followed.value.path, followed.value.tree, true, true, false);
        }
      case Directory(_, _, _) =>
        if !scoped {
          AddTree(abs, t, true, true, true);
        }
      case File =>
        See(abs, true, false);
    }

    /** Re-lists a directory: one Modified for every new name, one Deleted for every name gone. `diff` is
        what this call emits itself, by name; `arrived` is what is found at each new name. */
    method Rescan(dir: Path, listing: Option<set<Name>>, arrived: map<Name, Tree>) returns (ghost diff: seq<Change>)
      requires Valid() && dir in paths
      requires listing.Some? ==> listing.value <= arrived.Keys
      modifies this
      ensures Valid() && dir in paths
      ensures listing.None? ==> unchanged(this) && diff == []
      ensures listing.Some? ==> Relisted(dir, listing.value, arrived, diff, out)
    {
      hide Tables, LogsHold, Recorded, RelistedNotes, IsDiff, InDir, Departed, DiffSoFar, Emitted, Kept, Relist;
      hide AllArrived, AllBrought, AllVisits, OnlyAdds, Covers, Since, Turned;
      diff := [];
      if listing.None? {
        return;
      }
      var now := listing.value;
      var prev := if dir in names then names[dir] else {};
      ghost var start, mid := NotesNow(), NotesNow();
      diff, mid := Turnover(dir, prev, now, arrived);
      assert prev == LastOf(start, dir);
      ghost var left := NotesNow();
      Relisting(start, mid, left, dir, now, prev, diff, AllVisits(dir, now - prev, arrived, scoped),
                AllBrought(dir, now - prev, arrived, scoped), old(out), out, scoped, Since(old(denied), denied),
                !partial);
      TurnedNotes(old(Now()), Now(), Relist(left, start, dir, now, diff), AllArrived(dir, now - prev, arrived, scoped),
                  dir, prev - now);
      Renote(dir, now, diff, start);
    }

    /** The directory's own note after a re-listing. */
    method Renote(dir: Path, now: set<Name>, ghost diff: seq<Change>, ghost start: Notes)
      requires Valid() && dir in paths && LogsHold(Relist(NotesNow(), start, dir, now, diff), out)
      modifies this`names, this`log, this`missed
      ensures Valid() && NotesNow() == Relist(old(NotesNow()), start, dir, now, diff)
    {
      hide Tables, LogsHold, LogOf, MissedOf, LastOf, Delta;
      NamesWatched(fds, paths, isDir, names, dir, now);
      ghost var notes := Relist(NotesNow(), start, dir, now, diff);
      names, log, missed := names[dir := now], notes.log, notes.missed;
    }

    /** What came and what went, but for the directory's own note. `mid` are the notes in between. */
    method Turnover(dir: Path, prev: set<Name>, now: set<Name>, arrived: map<Name, Tree>)
      returns (ghost diff: seq<Change>, ghost mid: Notes)
      requires Valid() && dir in paths && now <= arrived.Keys
      modifies this
      ensures Valid() && dir in paths && IsDiff(prev, now, diff)
      ensures Turned(old(Now()), Now(), AllArrived(dir, now - prev, arrived, scoped), dir, prev - now)
      ensures old(out) <= out
      ensures Emitted(dir, Since(old(out), out), diff, AllBrought(dir, now - prev, arrived, scoped),
                      Since(old(denied), denied), !partial, scoped)
      ensures Recorded(old(NotesNow()), mid, AllVisits(dir, now - prev, arrived, scoped), Since(old(denied), denied),
                       !partial)
      ensures NotesNow() == Kept(mid, (set p | p in mid.names && !Departed(dir, prev - now, p)))
    {
      hide Tables, LogsHold, Recorded, IsDiff, InDir, Departed, DiffSoFar, Emitted, Kept, Since;
      hide AllArrived, AllBrought, AllVisits, Spread, Pruned, Turned;
      diff := Arrivals(dir, prev, now, arrived);
      ghost var met := Now();
      mid := met.notes;
      SpreadMeans(old(Now()), met, AllArrived(dir, now - prev, arrived, scoped),
                  AllVisits(dir, now - prev, arrived, scoped));
      diff := Departures(dir, prev, now, old(out), diff, AllBrought(dir, now - prev, arrived, scoped),
                         Since(old(denied), denied));
      TurnedOver(old(Now()), met, Now(), AllArrived(dir, now - prev, arrived, scoped),
                 AllVisits(dir, now - prev, arrived, scoped), dir, prev - now);
      PrunedMeans(met, Now(), dir, prev - now);
      DiffDone(prev, now, diff);
    }

    /** What one more listing of a directory does to the tables and the notes, and what it emits. */
    twostate predicate Relisted(
      dir: Path, now: set<Name>, arrived: map<Name, Tree>, diff: seq<Change>, told: seq<Change>)
      requires now <= arrived.Keys
      reads this
    {
      var came, went, skip := now - old(Last(dir)), old(Last(dir)) - now, Since(old(denied), denied);
      && IsDiff(old(Last(dir)), now, diff)
      && RelistedNotes(old(NotesNow()), NotesNow(), dir, now, diff, went, AllVisits(dir, came, arrived, scoped), skip,
           !partial)
      && old(out) <= told
      && Emitted(dir, Since(old(out), told), diff, AllBrought(dir, came, arrived, scoped), skip, !partial, scoped)
      && Turned(old(Now()), Now(), AllArrived(dir, came, arrived, scoped), dir, went)
    }

    method Arrivals(dir: Path, prev: set<Name>, now: set<Name>, arrived: map<Name, Tree>)
      returns (ghost diff: seq<Change>)
      requires Valid() && now <= arrived.Keys
      modifies this
      ensures Valid() && Grew()
      ensures DiffSoFar(prev, now, {}, prev - now, diff)
      ensures Arrived(old(Now()), Now(), dir, old(out), out, diff, now - prev, arrived, scoped)
    {
      hide Tables, LogsHold, DiffSoFar, Arrived, Walked, ArrivalExtent, Join;
      diff := [];
      var rest := now - prev;
      ghost var done: set<Name> := {};
      DiffNone(prev, now);
      ArrivedNone(Now(), dir, out, arrived, scoped);
      while rest != {}
        invariant rest <= now - prev && done == now - prev - rest
        invariant Valid() && Grew()
        invariant DiffSoFar(prev, now, rest, prev - now, diff)
        invariant Arrived(old(Now()), Now(), dir, old(out), out, diff, done, arrived, scoped)
        decreases rest
      {
        var name :| name in rest;
        ghost var mid, told := Now(), out;
        Emit(Modified, Join(dir, name));
        Arrive(Join(dir, name), arrived[name]);
        ArrivedMore(old(Now()), mid, Now(), dir, old(out), told, out, diff, done, name, arrived, scoped);
        assert prev - now - {name} == prev - now;
        DiffMore(prev, now, rest, prev - now, diff, Change(Modified, name));
        diff := diff + [Change(Modified, name)];
        rest, done := rest - {name}, done + {name};
      }
      assert done == now - prev;
    }

    method Departures(
      dir: Path, prev: set<Name>, now: set<Name>, ghost start: seq<Change>, ghost arrivals: seq<Change>,
      ghost brought: set<Node>, ghost skip: seq<Path>)
      returns (ghost diff: seq<Change>)
      requires Valid() && dir in paths && start <= out
      requires DiffSoFar(prev, now, {}, prev - now, arrivals)
      requires Emitted(dir, Since(start, out), arrivals, brought, skip, !partial, scoped)
      modifies this`fds, this`paths, this`isDir, this`names, this`log, this`missed, this`out
      ensures Valid() && dir in paths && start <= out && Pruned(old(Now()), Now(), dir, prev - now)
      ensures DiffSoFar(prev, now, {}, {}, diff)
      ensures Emitted(dir, Since(start, out), diff, brought, skip, !partial, scoped)
    {
      hide Tables, LogsHold, DiffSoFar, Emitted, Pruned, Join, Since;
      diff := arrivals;
      var rest := prev - now;
      ghost var done: set<Name> := {};
      PrunedNone(Now(), dir, out);
      while rest != {}
        invariant rest <= prev - now && done == prev - now - rest
        invariant Valid() && dir in paths && start <= out && Pruned(old(Now()), Now(), dir, done)
        invariant DiffSoFar(prev, now, {}, rest, diff)
        invariant Emitted(dir, Since(start, out), diff, brought, skip, !partial, scoped)
        decreases rest
      {
        var name :| name in rest;
        ghost var mid := Now();
        EmittedOne(dir, start, out, diff, Change(Deleted, name), brought, skip, !partial, scoped);
        Depart(dir, name);
        PrunedMore(old(Now()), mid, Now(), dir, done, name);
        DiffMore(prev, now, {}, rest, diff, Change(Deleted, name));
        diff := diff + [Change(Deleted, name)];
        ghost var none: set<Name> := {};
        assert none - {name} == none;
        rest, done := rest - {name}, done + {name};
      }
      assert done == prev - now;
    }

    /** One entry is gone, and everything below it. */
    method Depart(dir: Path, name: Name)
      requires Valid() && dir in paths
      modifies this`fds, this`paths, this`isDir, this`names, this`log, this`missed, this`out
      ensures Valid() && dir in paths && out == old(out) + [Change(Deleted, Join(dir, name))]
      ensures DroppedFrom(old(Now()), Now(), Join(dir, name))
    {
      hide Tables, LogsHold, Dropped, Join, Kept;
      NotAbove(dir, name);
      Unwatch(Join(dir, name));
      Emit(Deleted, Join(dir, name));
    }

    /** One kernel event: vanished or renamed, written, or touched. `diff` and `told` are the rescan's. */
    method Dispatch(
      fd: int, gone: bool, written: bool, touched: bool, listing: Option<set<Name>>, arrived: map<Name, Tree>)
      returns (ghost diff: seq<Change>, ghost told: seq<Change>)
      requires Valid() && (listing.Some? ==> listing.value <= arrived.Keys)
      modifies this
      ensures Valid()
      ensures fd !in old(fds) ==> unchanged(this)
      ensures fd in old(fds) && gone && old(fds)[fd] == root ==>
        out == old(out) + [Change(Overflow, [])] && unchanged(`fds, `paths, `isDir, `names, `partial, `log, `missed)
      ensures fd in old(fds) && gone && old(fds)[fd] != root ==>
        out == old(out) + [Change(Deleted, old(fds)[fd])] && unchanged(`partial)
      ensures fd in old(fds) && gone && old(fds)[fd] != root ==>
        forall p :: p in paths <==> p in old(paths) && !Dropped(old(fds)[fd], p)
      ensures fd in old(fds) && gone && old(fds)[fd] != root ==>
        NotesNow() == Kept(old(NotesNow()), (set p | p in old(names) && !Dropped(old(fds)[fd], p)))
      ensures fd in old(fds) && !gone ==> old(fds)[fd] in paths && paths[old(fds)[fd]] == fd
      ensures fd in old(fds) && !gone && !old(isDir)[old(fds)[fd]] ==>
        out == old(out) + [Change(Modified, old(fds)[fd])]
        && unchanged(`fds, `paths, `isDir, `names, `partial, `log, `missed)
      ensures fd in old(fds) && !gone && old(isDir)[old(fds)[fd]] ==>
        out == told + if touched then [Change(Modified, old(fds)[fd])] else []
      ensures fd in old(fds) && !gone && old(isDir)[old(fds)[fd]] && written && listing.Some? ==>
        Relisted(old(fds)[fd], listing.value, arrived, diff, told)
      ensures fd in old(fds) && !gone && old(isDir)[old(fds)[fd]] && !(written && listing.Some?) ==>
        told == old(out) && unchanged(`fds, `paths, `isDir, `names, `partial, `log, `missed)
    {
      hide Dropped, IsDiff, Departed, Emitted, AllArrived, AllBrought, AllVisits, OnlyAdds, LogsHold, RelistedNotes;
      hide Kept, Since;
      diff, told := [], out;
      if fd !in fds {
        return;
      }
      var path := fds[fd];
      if gone {
        if path == root {
          Emit(Overflow, []);
          return;
        }
        Unwatch(path);
        Emit(Deleted, path);
        return;
      }
      if isDir[path] {
        if written {
          NoneDeparted(path, Last(path), if listing.Some? then listing.value else {});
          diff := Rescan(path, listing, arrived);
          told := out;
        }
        if touched {
          Emit(Modified, path);
        }
        return;
      }
      Emit(Modified, path);
    }

    /** The names a directory had when it was last listed. */
    ghost function Last(dir: Path): set<Name>
      reads this
    {
      if dir in names then names[dir] else {}
    }
  }

  // ----- what a re-listing did

  ghost function AllArrived(dir: Path, arrivals: set<Name>, arrived: map<Name, Tree>, scoped: bool): set<Node>
    requires arrivals <= arrived.Keys
  {
    set name, n | name in arrivals && n in ArrivalExtent(Join(dir, name), arrived[name], scoped).watch :: n
  }

  ghost function AllBrought(dir: Path, arrivals: set<Name>, arrived: map<Name, Tree>, scoped: bool): set<Node>
    requires arrivals <= arrived.Keys
  {
    set name, n | name in arrivals && n in ArrivalExtent(Join(dir, name), arrived[name], scoped).tell :: n
  }

  ghost function AllVisits(dir: Path, arrivals: set<Name>, arrived: map<Name, Tree>, scoped: bool): set<Visit>
    requires arrivals <= arrived.Keys
  {
    set name, v | name in arrivals && v in ArrivalExtent(Join(dir, name), arrived[name], scoped).visits :: v
  }

  /** What the arrivals in `done` have done so far. */
  ghost predicate Arrived(
    a: Held, b: Held, dir: Path, start: seq<Change>, out: seq<Change>, diff: seq<Change>, done: set<Name>,
    arrived: map<Name, Tree>, scoped: bool)
    requires done <= arrived.Keys
  {
    && Spread(a, b, AllArrived(dir, done, arrived, scoped), AllVisits(dir, done, arrived, scoped)) && start <= out
    && Emitted(dir, Since(start, out), diff, AllBrought(dir, done, arrived, scoped), Since(a.denied, b.denied),
         !b.partial, scoped)
  }

  /** What arrivals and departures do to the tables: they lose exactly what departed, and gain only these nodes; and
      unless the budget ran out, all of these but what departed again or could not be opened. */
  ghost predicate Turned(a: Held, b: Held, nodes: set<Node>, dir: Path, went: set<Name>) {
    && a.denied <= b.denied && (a.partial ==> b.partial) && OverBudget(a, b, nodes)
    && (forall p :: p in b.paths ==> !Departed(dir, went, p))
    && (forall p :: p in a.paths && !Departed(dir, went, p) ==> p in b.paths && b.paths[p] == a.paths[p])
    && (forall q :: q in b.isDir ==> if q in a.isDir then b.isDir[q] == a.isDir[q] else Node(q, b.isDir[q]) in nodes)
    && (!b.partial ==> forall n :: n in nodes ==>
      n.path in b.paths || n.path in Since(a.denied, b.denied) || Departed(dir, went, n.path))
  }

  /** What unwatching does. */
  ghost predicate DroppedFrom(a: Held, b: Held, path: Path) {
    && b.partial == a.partial && b.denied == a.denied
    && (forall p :: p in b.paths <==> p in a.paths && !Dropped(path, p))
    && (forall p :: p in b.paths ==> b.paths[p] == a.paths[p])
    && (forall p :: p in b.isDir ==> p in a.isDir && b.isDir[p] == a.isDir[p])
    && b.notes == Kept(a.notes, (set p | p in a.notes.names && !Dropped(path, p)))
  }

  /** The same for every departed entry. */
  ghost predicate Pruned(a: Held, b: Held, dir: Path, went: set<Name>) {
    && b.partial == a.partial && b.denied == a.denied
    && (forall p :: p in b.paths <==> p in a.paths && !Departed(dir, went, p))
    && (forall p :: p in b.paths ==> b.paths[p] == a.paths[p])
    && (forall p :: p in b.isDir ==> p in a.isDir && b.isDir[p] == a.isDir[p])
    && b.notes == Kept(a.notes, (set p | p in a.notes.names && !Departed(dir, went, p)))
  }

  // ----- walks

  lemma {:induction false} OnlyMore(
    a: map<Path, bool>, b: map<Path, bool>, c: map<Path, bool>, m: set<Node>, n: set<Node>)
    requires OnlyAdds(a, b, m) && OnlyAdds(b, c, n)
    ensures OnlyAdds(a, c, m + n)
  {
  }

  lemma {:induction false} OnlyWider(a: map<Path, bool>, b: map<Path, bool>, m: set<Node>, n: set<Node>)
    requires OnlyAdds(a, b, m)
    ensures OnlyAdds(a, b, m + n)
  {
  }

  lemma {:induction false} KeepsOn(a: map<Path, int>, b: map<Path, int>, c: map<Path, int>)
    requires Keeps(a, b) && Keeps(b, c)
    ensures Keeps(a, c)
  {
  }

  lemma {:induction false} CoversMore(
    before: map<Path, int>, after: map<Path, int>, m: set<Node>, n: set<Node>, skip: seq<Path>, more: seq<Path>)
    requires Keeps(before, after)
    ensures Covers(before, m, skip) && Covers(after, n, more) ==> Covers(after, m + n, skip + more)
  {
  }

  lemma {:induction false} SpreadNothing(h: Held, out: seq<Change>)
    requires LogsHold(h.notes, out)
    ensures Spread(h, h, {}, {})
  {
    hide LogsHold, Recorded;
    RecordedNone(h.notes, out);
  }

  lemma {:induction false} SpreadOn(
    a: Held, b: Held, c: Held, m: set<Node>, n: set<Node>, v: set<Visit>, w: set<Visit>)
    requires Spread(a, b, m, v) && Spread(b, c, n, w)
    ensures Spread(a, c, m + n, v + w)
  {
    hide OnlyAdds, Covers, Recorded, Since, Keeps, PathsOf, OverBudget;
    PathsOfMore(m, n);
    OverBudgetOn(a, b, c, m, n);
    KeepsOn(a.paths, b.paths, c.paths);
    SinceMore(a.denied, b.denied, c.denied);
    OnlyMore(a.isDir, b.isDir, c.isDir, m, n);
    CoversMore(b.paths, c.paths, m, n, Since(a.denied, b.denied), Since(b.denied, c.denied));
    RecordedOn(a.notes, b.notes, c.notes, v, w, Since(a.denied, b.denied), Since(b.denied, c.denied), !b.partial,
      !c.partial);
  }

  lemma {:induction false} OverBudgetOn(a: Held, b: Held, c: Held, m: set<Node>, n: set<Node>)
    requires b.budget == a.budget && b.paths.Keys <= a.paths.Keys + PathsOf(m)
    ensures OverBudget(a, b, m) ==> OverBudget(a, b, m + n)
    ensures OverBudget(a, b, m) && OverBudget(b, c, n) ==> OverBudget(a, c, m + n)
  {
    hide PathsOf;
    PathsOfMore(m, n);
    var all := a.paths.Keys + PathsOf(m + n);
    NoFewer(a.paths.Keys + PathsOf(m), all);
    NoFewer(b.paths.Keys + PathsOf(n), all);
  }

  lemma {:induction false} SpreadMeans(a: Held, b: Held, watch: set<Node>, visits: set<Visit>)
    requires Spread(a, b, watch, visits)
    ensures Keeps(a.paths, b.paths) && a.denied <= b.denied && (a.partial ==> b.partial)
    ensures OnlyAdds(a.isDir, b.isDir, watch)
    ensures !b.partial ==> Covers(b.paths, watch, Since(a.denied, b.denied))
    ensures Recorded(a.notes, b.notes, visits, Since(a.denied, b.denied), !b.partial)
  {
  }

  lemma {:induction false} WalkedNothing(h: Held, out: seq<Change>)
    requires LogsHold(h.notes, out)
    ensures Walked(h, h, out, out, NO_EXTENT)
  {
    hide LogsHold, Spread;
    SpreadNothing(h, out);
  }

  lemma {:induction false} WalkedOn(
    a: Held, b: Held, c: Held, start: seq<Change>, mid: seq<Change>, out: seq<Change>, e: Extent, f: Extent)
    requires Walked(a, b, start, mid, e) && Walked(b, c, mid, out, f)
    ensures Walked(a, c, start, out, e.Plus(f))
  {
    hide Spread, Told, Since;
    SpreadOn(a, b, c, e.watch, f.watch, e.visits, f.visits);
    assert a.denied <= b.denied <= c.denied && (b.partial ==> c.partial) by {
      SpreadMeans(a, b, e.watch, e.visits);
      SpreadMeans(b, c, f.watch, f.visits);
    }
    SinceMore(a.denied, b.denied, c.denied);
    SinceMore(start, mid, out);
    ToldOn(e.tell, Since(start, mid), Since(a.denied, b.denied), !b.partial,
           f.tell, Since(mid, out), Since(b.denied, c.denied), !c.partial);
  }

  /** Over budget, what is below a directory may be left out. */
  lemma {:induction false} WalkedLess(a: Held, b: Held, start: seq<Change>, out: seq<Change>, e: Extent, f: Extent)
    requires Walked(a, b, start, out, e) && b.partial
    ensures Walked(a, b, start, out, e.Plus(f))
  {
    hide OnlyAdds, Covers, Recorded, Told, Since, PathsOf, OverBudget;
    PathsOfMore(e.watch, f.watch);
    OverBudgetOn(a, b, b, e.watch, f.watch);
    OnlyWider(a.isDir, b.isDir, e.watch, f.watch);
    RecordedWider(a.notes, b.notes, e.visits, f.visits, Since(a.denied, b.denied));
    ToldNothing(f.tell, Since(a.denied, b.denied));
    ToldAppend(e.tell, Since(start, out), f.tell, [], Since(a.denied, b.denied), false);
    assert Since(start, out) + [] == Since(start, out);
  }

  lemma {:induction false} EntryTold(
    abs: Path, file: bool, report: bool, start: seq<Change>, out: seq<Change>, skip: seq<Path>, all: bool)
    requires out == start + if report then [Change(Modified, abs)] else []
    ensures Told(EntryExtent(abs, file, report).tell, Since(start, out), skip, all)
  {
    ToldOne(Node(abs, false), report, true, skip, all);
    assert Since(start, out) == if report then [Change(Modified, abs)] else [];
  }

  /** A directory: `b` once it was watched or could not be, `c` once it was noted. */
  lemma {:induction false} EnterWalks(
    a: Held, b: Held, c: Held, start: seq<Change>, out: seq<Change>, p: Path, listing: Option<set<Name>>, report: bool)
    requires Spread(a, b, {Node(p, true)}, {}) && b.notes == a.notes
    requires c == if p in b.paths && listing.Some? then b.(notes := Noting(b.notes, p, listing.value)) else b
    requires out == start + if p in b.paths && report then [Change(Modified, p)] else []
    ensures Walked(a, c, start, out, DirExtent(p, listing, report))
  {
    hide OnlyAdds, Noting, Recorded, Keeps;
    var skip := Since(a.denied, b.denied);
    if p in b.paths && listing.Some? {
      NoteSpreads(a, b, p, listing.value, {Node(p, true)});
    } else {
      SkippedRecords(a.notes, DirExtent(p, listing, report).visits, skip, !b.partial);
    }
    ToldOne(Node(p, true), report, p in b.paths, skip, !b.partial);
    assert p !in b.paths && !b.partial ==> Node(p, true).path in skip;
    assert Since(start, out) == if report && p in b.paths then [Change(Modified, p)] else [];
  }

  lemma {:induction false} NoteSpreads(a: Held, b: Held, dir: Path, names: set<Name>, nodes: set<Node>)
    requires Spread(a, b, nodes, {}) && b.notes == a.notes
    ensures Spread(a, b.(notes := Noting(b.notes, dir, names)), nodes, {Visit(dir, names)})
  {
    hide OnlyAdds, Covers, Noting, Recorded, Keeps;
    NotingRecords(a.notes, dir, names, Since(a.denied, b.denied), !b.partial);
  }

  lemma {:induction false} EntrySpread(
    a: Held, b: Held, c: Held, nodes: set<Node>, abs: Path, file: bool, report: bool)
    requires Spread(a, b, nodes, {})
    requires Spread(b, c, EntryExtent(abs, file, report).watch, EntryExtent(abs, file, report).visits)
    ensures Spread(a, c, nodes + if file then {Node(abs, false)} else {}, {})
  {
    hide Spread;
    var none: set<Visit> := {};
    SpreadOn(a, b, c, nodes, if file then {Node(abs, false)} else {}, none, none);
    assert none + none == none;
  }

  // ----- arrivals and departures

  lemma {:induction false} ArrivedNone(
    h: Held, dir: Path, out: seq<Change>, arrived: map<Name, Tree>, scoped: bool)
    requires LogsHold(h.notes, out)
    ensures Arrived(h, h, dir, out, out, [], {}, arrived, scoped)
  {
    hide LogsHold, Spread;
    SpreadNothing(h, out);
    assert AllArrived(dir, {}, arrived, scoped) == {} && AllVisits(dir, {}, arrived, scoped) == {};
    assert InDir(dir, []) == [];
  }

  lemma {:induction false} ArrivedMore(
    a: Held, b: Held, c: Held, dir: Path, start: seq<Change>, mid: seq<Change>, out: seq<Change>, diff: seq<Change>,
    done: set<Name>, name: Name, arrived: map<Name, Tree>, scoped: bool)
    requires done <= arrived.Keys && name in arrived && Arrived(a, b, dir, start, mid, diff, done, arrived, scoped)
    requires Walked(b, c, mid + [Change(Modified, Join(dir, name))], out,
                    ArrivalExtent(Join(dir, name), arrived[name], scoped))
    ensures Arrived(a, c, dir, start, out, diff + [Change(Modified, name)], done + {name}, arrived, scoped)
  {
    hide Spread, Emitted, ArrivalExtent, AllArrived, AllVisits, AllBrought, Since, Told, Join;
    var e := ArrivalExtent(Join(dir, name), arrived[name], scoped);
    var now := Change(Modified, Join(dir, name));
    AllMore(dir, done, name, arrived, scoped);
    SpreadOn(a, b, c, AllArrived(dir, done, arrived, scoped), e.watch, AllVisits(dir, done, arrived, scoped), e.visits);
    assert a.denied <= b.denied <= c.denied && (b.partial ==> c.partial) by {
      SpreadMeans(a, b, AllArrived(dir, done, arrived, scoped), AllVisits(dir, done, arrived, scoped));
      SpreadMeans(b, c, e.watch, e.visits);
    }
    SinceMore(a.denied, b.denied, c.denied);
    SinceMore(start, mid + [now], out);
    SinceOne(start, mid, now);
    EmittedMore(dir, Since(start, mid), diff, Change(Modified, name), e.tell, Since(mid + [now], out),
                AllBrought(dir, done, arrived, scoped), Since(a.denied, b.denied), Since(b.denied, c.denied),
                !b.partial, !c.partial, scoped);
  }

  /** One more arrival adds what it calls for; in a scoped feed it has nothing to tell. */
  lemma {:induction false} AllMore(dir: Path, done: set<Name>, name: Name, arrived: map<Name, Tree>, scoped: bool)
    requires done <= arrived.Keys && name in arrived
    ensures var e := ArrivalExtent(Join(dir, name), arrived[name], scoped);
      && AllArrived(dir, done + {name}, arrived, scoped) == AllArrived(dir, done, arrived, scoped) + e.watch
      && AllVisits(dir, done + {name}, arrived, scoped) == AllVisits(dir, done, arrived, scoped) + e.visits
      && AllBrought(dir, done + {name}, arrived, scoped) == AllBrought(dir, done, arrived, scoped) + NodeSet(e.tell)
      && (scoped ==> e.tell == [])
  {
    hide Join, ExtentOf;
    assert scoped ==> ArrivalExtent(Join(dir, name), arrived[name], scoped).tell == [];
    AllMoreSets(dir, done, name, arrived, scoped);
  }

  lemma {:induction false} AllMoreSets(dir: Path, done: set<Name>, name: Name, arrived: map<Name, Tree>, scoped: bool)
    requires done <= arrived.Keys && name in arrived
    ensures var e := ArrivalExtent(Join(dir, name), arrived[name], scoped);
      && AllArrived(dir, done + {name}, arrived, scoped) == AllArrived(dir, done, arrived, scoped) + e.watch
      && AllVisits(dir, done + {name}, arrived, scoped) == AllVisits(dir, done, arrived, scoped) + e.visits
      && AllBrought(dir, done + {name}, arrived, scoped) == AllBrought(dir, done, arrived, scoped) + NodeSet(e.tell)
  {
    hide Join, ArrivalExtent;
  }

  /** The tables after arrivals (`b`) and departures (`c`). */
  lemma {:induction false} TurnedOver(
    a: Held, b: Held, c: Held, nodes: set<Node>, visits: set<Visit>, dir: Path, went: set<Name>)
    requires Spread(a, b, nodes, visits) && Pruned(b, c, dir, went)
    ensures Turned(a, c, nodes, dir, went)
  {
    hide Departed, Since, Recorded, Kept;
  }

  lemma {:induction false} TurnedNotes(a: Held, b: Held, notes: Notes, nodes: set<Node>, dir: Path, went: set<Name>)
    requires Turned(a, b, nodes, dir, went)
    ensures Turned(a, b.(notes := notes), nodes, dir, went)
  {
    hide Departed, Since;
  }

  lemma {:induction false} PrunedMeans(a: Held, b: Held, dir: Path, went: set<Name>)
    requires Pruned(a, b, dir, went)
    ensures b.partial == a.partial && b.denied == a.denied
    ensures b.notes == Kept(a.notes, (set p | p in a.notes.names && !Departed(dir, went, p)))
  {
    hide Departed, Kept;
  }

  lemma {:induction false} PrunedNone(h: Held, dir: Path, out: seq<Change>)
    requires LogsHold(h.notes, out)
    ensures Pruned(h, h, dir, {})
  {
    hide Departed, LogsHold, Kept;
    DepartedNone(dir);
    KeptAll(h.notes, out);
    assert (set p | p in h.notes.names && !Departed(dir, {}, p)) == h.notes.names.Keys;
  }

  lemma {:induction false} PrunedMore(a: Held, b: Held, c: Held, dir: Path, done: set<Name>, name: Name)
    requires Pruned(a, b, dir, done) && DroppedFrom(b, c, Join(dir, name))
    ensures Pruned(a, c, dir, done + {name})
  {
    hide Departed, Dropped, Join, Kept;
    DepartedOne(dir, done, name);
    KeptFewer(a.notes, (set p | p in a.notes.names && !Departed(dir, done, p)), dir, done, name);
  }

  lemma {:induction false} NamesWatched(
    fds: map<int, Path>, paths: map<Path, int>, isDir: map<Path, bool>, names: map<Path, set<Name>>, dir: Path,
    now: set<Name>)
    requires Tables(fds, paths, isDir, names) && dir in paths
    ensures Tables(fds, paths, isDir, names[dir := now])
  {
  }

  lemma {:induction false} EntriesNone(dir: Path)
    ensures EntryNames([]) == {} && EntryNodes(dir, []) == {} && EntryChanges(dir, []) == []
  {
  }

  lemma {:induction false} EntriesMore(dir: Path, entries: seq<Entry>, i: nat)
    requires i < |entries|
    ensures EntryNames(entries[..i + 1]) == EntryNames(entries[..i]) + {entries[i].name}
    ensures EntryChanges(dir, entries[..i + 1])
         == EntryChanges(dir, entries[..i]) + [Change(Modified, Join(dir, entries[i].name))]
    ensures EntryNodes(dir, entries[..i + 1])
         == EntryNodes(dir, entries[..i]) + if entries[i].file then {Node(Join(dir, entries[i].name), false)} else {}
  {
    hide Join;
    assert entries[..i + 1] == entries[..i] + [entries[i]];
  }

  /** What watching a path does, or failing to. */
  lemma {:induction false} WatchSpreads(a: Held, b: Held, path: Path, dir: bool, ok: bool, out: seq<Change>)
    requires LogsHold(a.notes, out) && b.notes == a.notes && (a.partial ==> b.partial) && (ok <==> path in b.paths)
    requires b.denied == a.denied || b.denied == a.denied + [path]
    requires !ok && !b.partial ==> b.denied == a.denied + [path]
    requires b.paths == a.paths || (path in b.paths && path !in a.paths && b.paths == a.paths[path := b.paths[path]])
    requires b.isDir == a.isDir || (b.isDir == a.isDir[path := dir] && path !in a.isDir)
    requires b.budget == a.budget
    requires b.partial && !a.partial ==> path !in b.paths && b.paths == a.paths && |a.paths| >= a.budget
    ensures Spread(a, b, {Node(path, dir)}, {})
  {
    hide LogsHold, Recorded, PathsOf, OverBudget;
    RecordedNone(a.notes, out);
    WatchOverruns(a, b, path, dir);
    assert Covers(b.paths, {Node(path, dir)}, Since(a.denied, b.denied)) || b.partial;
  }

  lemma {:induction false} WatchOverruns(a: Held, b: Held, path: Path, dir: bool)
    requires b.partial && !a.partial ==> path !in a.paths && |a.paths| >= a.budget
    ensures PathsOf({Node(path, dir)}) == {path} && OverBudget(a, b, {Node(path, dir)})
  {
    assert forall n :: n in {Node(path, dir)} ==> n.path == path;
    assert Node(path, dir).path in PathsOf({Node(path, dir)});
  }

  lemma {:induction false} SameSize(
    fds: map<int, Path>, paths: map<Path, int>, isDir: map<Path, bool>, names: map<Path, set<Name>>)
    requires Tables(fds, paths, isDir, names)
    ensures |fds| == |paths|
  {
    forall fd: int | fd in fds ensures fds[fd] in paths && paths[fds[fd]] == fd {
    }
    NoMore(fds, paths);
    NoMore(paths, fds);
  }

  lemma {:induction false} WatchedOne(
    fds: map<int, Path>, paths: map<Path, int>, isDir: map<Path, bool>, names: map<Path, set<Name>>, fd: int,
    path: Path, dir: bool)
    requires Tables(fds, paths, isDir, names) && fd !in fds && path !in paths
    ensures Tables(fds[fd := path], paths[path := fd], isDir[path := dir], names) && path !in isDir
    ensures |fds[fd := path]| == |fds| + 1
  {
  }

  /** The four tables. */
  datatype Tabs = Tabs(
    fds: map<int, Path>, paths: map<Path, int>, isDir: map<Path, bool>, names: map<Path, set<Name>>)

  /** b is a, less what is kept of the paths it has lost. */
  ghost predicate Shrunk(a: Tabs, b: Tabs) {
    && b.paths.Keys <= a.paths.Keys && (forall p :: p in b.paths ==> b.paths[p] == a.paths[p])
    && (forall p :: p in b.isDir ==> p in a.isDir && b.isDir[p] == a.isDir[p])
    && (forall p :: p in b.names <==> p in a.names && p in b.paths)
    && (forall p :: p in b.names ==> b.names[p] == a.names[p])
    && (forall fd :: fd in b.fds <==> fd in a.fds && a.fds[fd] in b.paths)
    && (forall fd :: fd in b.fds ==> b.fds[fd] == a.fds[fd])
  }

  /** Of what was watched, what is dropped is gone, but for what the loop has not come to. */
  ghost predicate Closed(before: map<Path, int>, after: map<Path, int>, rest: set<Path>, path: Path) {
    forall p :: p in before ==> (p in after <==> p in rest || !Dropped(path, p))
  }

  lemma {:induction false} ClosedNone(paths: map<Path, int>, path: Path)
    ensures Closed(paths, paths, paths.Keys, path)
  {
    hide Dropped;
  }

  lemma {:induction false} ClosedMore(
    before: map<Path, int>, after: map<Path, int>, rest: set<Path>, path: Path, p: Path)
    requires Closed(before, after, rest, path) && p in rest && rest <= after.Keys
    ensures Dropped(path, p) ==> Closed(before, after - {p}, rest - {p}, path)
    ensures !Dropped(path, p) ==> Closed(before, after, rest - {p}, path)
  {
    hide Dropped;
  }

  ghost function Without(b: Tabs, p: Path): Tabs
    requires p in b.paths
  {
    Tabs(b.fds - {b.paths[p]}, b.paths - {p}, b.isDir - {p}, b.names - {p})
  }

  lemma {:induction false} ShrunkNone(a: Tabs)
    requires Tables(a.fds, a.paths, a.isDir, a.names)
    ensures Shrunk(a, a)
  {
  }

  lemma {:induction false} ShrunkMore(a: Tabs, b: Tabs, p: Path)
    requires Tables(a.fds, a.paths, a.isDir, a.names) && Tables(b.fds, b.paths, b.isDir, b.names)
    requires Shrunk(a, b) && p in b.paths
    ensures var c := Without(b, p);
      Tables(c.fds, c.paths, c.isDir, c.names) && Shrunk(a, c) && |c.fds| <= |b.fds|
  {
    TablesWithout(b, p);
  }

  lemma {:induction false} TablesWithout(b: Tabs, p: Path)
    requires Tables(b.fds, b.paths, b.isDir, b.names) && p in b.paths
    ensures var c := Without(b, p);
      Tables(c.fds, c.paths, c.isDir, c.names) && |c.fds| <= |b.fds|
  {
    assert (b.fds - {b.paths[p]}).Keys == b.fds.Keys - {b.paths[p]};
  }

  lemma {:induction false} ShrunkIs(a: Tabs, b: Tabs, path: Path)
    requires Tables(a.fds, a.paths, a.isDir, a.names) && Shrunk(a, b)
    requires Closed(a.paths, b.paths, {}, path)
    ensures forall p :: p in b.paths <==> p in a.paths && !Dropped(path, p)
    ensures forall p :: p in b.paths ==> b.paths[p] == a.paths[p]
    ensures forall p :: p in b.isDir ==> p in a.isDir && b.isDir[p] == a.isDir[p]
    ensures forall fd :: fd in b.fds <==> fd in a.fds && !Dropped(path, a.fds[fd])
    ensures forall log, missed ::
      Kept(Notes(a.names, log, missed), (set p | p in a.names && !Dropped(path, p))).names == b.names
  {
    hide Dropped;
  }
}
