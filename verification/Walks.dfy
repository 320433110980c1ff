/** What the watchers walk over, and what a walk tells the consumer. */
module Walks {
  import opened Bytes
  import opened Paths
  import opened Coalescer
  import opened Wrappers

  /** What a directory calls one of its entries. */
  type Name = b: Bytes | b != [] witness [0x61]

  /** filepath.Join of a clean directory and an entry name. */
  function Join(dir: Path, name: Bytes): Path {
    Slashed(dir) + name
  }

  /** What a walk finds at a path. A directory tells its entry names apart from the children the walk goes
      on to, since the two are read one after the other; a link, what following it would add. */
  datatype Tree =
    | Gone
    | File
    | Link(followed: Option<Target>)
    | Directory(pseudo: bool, listing: Option<set<Name>>, children: seq<Child>)

  datatype Child = Child(name: Name, tree: Tree)

  datatype Target = Target(path: Path, tree: Tree)

  /** A path a walk comes to, and whether it is a directory. */
  datatype Node = Node(path: Path, dir: bool)

  /** What unwatch drops: a path and everything below it. */
  predicate Dropped(path: Path, p: Path) {
    p == path || path + [SLASH] <= p
  }

  lemma {:induction false} NotAbove(dir: Path, name: Name)
    ensures !Dropped(Join(dir, name), dir)
  {
    assert |Join(dir, name)| > |dir| || (|Join(dir, name)| == |dir| + |name| && |name| > 0);
  }

  /** That is the path itself and what has it, and a slash, in front. */
  lemma {:induction false} DroppedIs(path: Path, p: Path)
    ensures Dropped(path, p) <==> p == path || (|p| > |path| && p[..|path|] == path && p[|path|] == SLASH)
  {
  }

  /** So nothing else in the directory goes with an entry, even if its name begins with the entry's. */
  lemma {:induction false} SiblingsStay(dir: Path, m: Name, n: Name)
    requires m != n && SLASH !in m && SLASH !in n
    ensures !Dropped(Join(dir, m), Join(dir, n))
  {
    var d := Slashed(dir);
    assert Join(dir, m)[|d|..] == m && Join(dir, n)[|d|..] == n;
    DroppedIs(Join(dir, m), Join(dir, n));
    if |m| < |n| {
      assert Join(dir, n)[|d| + |m|] == n[|m|];
      assert n[|m|] in n;
    }
  }

  // ----- where a walk gets to

  /** A walk from p comes to `found` at q, through directories only. */
  ghost predicate Reaches(p: Path, t: Tree, q: Path, found: Tree)
    decreases t
  {
    || (q == p && found == t)
    || (t.Directory? && !t.pseudo
        && exists c :: c in t.children && Reaches(Join(p, c.name), c.tree, q, found))
  }

  /** What b has beyond a. */
  function Since<T>(a: seq<T>, b: seq<T>): seq<T> {
    if |a| <= |b| then b[|a|..] else []
  }

  lemma {:induction false} SinceMore<T>(a: seq<T>, b: seq<T>, c: seq<T>)
    requires a <= b <= c
    ensures a <= c && Since(a, c) == Since(a, b) + Since(b, c)
  {
  }

  lemma {:induction false} SinceOne<T>(a: seq<T>, b: seq<T>, x: T)
    requires a <= b
    ensures Since(a, b + [x]) == Since(a, b) + [x]
  {
  }

  // ----- telling

  /** A Modified went out for each of these, in order; with `all`, only directories among `skip` were passed over. */
  ghost predicate Told(nodes: seq<Node>, sent: seq<Change>, skip: seq<Path>, all: bool) {
    if nodes == [] then sent == []
    else
      var n, rest := nodes[|nodes| - 1], nodes[..|nodes| - 1];
      || (sent != [] && sent[|sent| - 1] == Change(Modified, n.path) && Told(rest, sent[..|sent| - 1], skip, all))
      || ((!all || (n.dir && n.path in skip)) && Told(rest, sent, skip, all))
  }

  ghost function NodeSet(nodes: seq<Node>): set<Node> {
    set n | n in nodes
  }

  ghost function PathsOf(nodes: set<Node>): set<Path> {
    set n | n in nodes :: n.path
  }

  /** These were told of, but for directories among `skip`. */
  ghost predicate AllTold(sent: seq<Change>, nodes: set<Node>, skip: seq<Path>) {
    forall n :: n in nodes ==> Change(Modified, n.path) in sent || (n.dir && n.path in skip)
  }

  ghost function Modifieds(nodes: seq<Node>): seq<Change> {
    seq(|nodes|, i requires 0 <= i < |nodes| => Change(Modified, nodes[i].path))
  }

  lemma {:induction false} ToldWider(
    nodes: seq<Node>, sent: seq<Change>, skip: seq<Path>, more: seq<Path>, some: bool, all: bool)
    requires Told(nodes, sent, skip, some) && (all ==> some) && forall p :: p in skip ==> p in more
    ensures Told(nodes, sent, more, all)
    decreases |nodes|
  {
    if nodes != [] {
      var n, rest := nodes[|nodes| - 1], nodes[..|nodes| - 1];
      if sent != [] && sent[|sent| - 1] == Change(Modified, n.path) && Told(rest, sent[..|sent| - 1], skip, some) {
        ToldWider(rest, sent[..|sent| - 1], skip, more, some, all);
      } else {
        ToldWider(rest, sent, skip, more, some, all);
      }
    }
  }

  lemma {:induction false} ToldAppend(
    a: seq<Node>, x: seq<Change>, b: seq<Node>, y: seq<Change>, skip: seq<Path>, all: bool)
    requires Told(a, x, skip, all) && Told(b, y, skip, all)
    ensures Told(a + b, x + y, skip, all)
    decreases |b|
  {
    if b == [] {
      assert a + b == a && x + y == x;
    } else {
      var n, rest := b[|b| - 1], b[..|b| - 1];
      assert (a + b)[..|a + b| - 1] == a + rest;
      if y != [] && y[|y| - 1] == Change(Modified, n.path) && Told(rest, y[..|y| - 1], skip, all) {
        ToldAppend(a, x, rest, y[..|y| - 1], skip, all);
        assert (x + y)[..|x + y| - 1] == x + y[..|y| - 1];
      } else {
        ToldAppend(a, x, rest, y, skip, all);
      }
    }
  }

  /** Once the budget ran out, anything may be passed over. */
  lemma {:induction false} ToldNothing(nodes: seq<Node>, skip: seq<Path>)
    ensures Told(nodes, [], skip, false)
    decreases |nodes|
  {
    if nodes != [] {
      ToldNothing(nodes[..|nodes| - 1], skip);
    }
  }

  /** What was told is of these, and with `all` it is of all of them but directories among `skip`. */
  lemma {:induction false} ToldMeans(nodes: seq<Node>, sent: seq<Change>, skip: seq<Path>, all: bool)
    requires Told(nodes, sent, skip, all)
    ensures forall c :: c in sent ==> c.kind == Modified && c.path in PathsOf(NodeSet(nodes))
    ensures all ==> AllTold(sent, NodeSet(nodes), skip)
    decreases |nodes|
  {
    if nodes != [] {
      var n, rest := nodes[|nodes| - 1], nodes[..|nodes| - 1];
      assert nodes == rest + [n];
      assert n in NodeSet(nodes);
      if sent != [] && sent[|sent| - 1] == Change(Modified, n.path) && Told(rest, sent[..|sent| - 1], skip, all) {
        ToldMeans(rest, sent[..|sent| - 1], skip, all);
        assert sent == sent[..|sent| - 1] + [Change(Modified, n.path)];
      } else {
        ToldMeans(rest, sent, skip, all);
      }
      assert forall m :: m in NodeSet(nodes) <==> m in NodeSet(rest) || m == n;
    }
  }

  /** With nothing passed over, it is all of it, once and in order. */
  lemma {:induction false} ToldInFull(nodes: seq<Node>, sent: seq<Change>)
    requires Told(nodes, sent, [], true)
    ensures sent == Modifieds(nodes)
    decreases |nodes|
  {
    if nodes != [] {
      var rest := nodes[..|nodes| - 1];
      ToldInFull(rest, sent[..|sent| - 1]);
      assert Modifieds(nodes) == Modifieds(rest) + [Change(Modified, nodes[|nodes| - 1].path)];
      assert sent == sent[..|sent| - 1] + [sent[|sent| - 1]];
    }
  }

  lemma {:induction false} ToldOn(
    a: seq<Node>, x: seq<Change>, skip: seq<Path>, some: bool, b: seq<Node>, y: seq<Change>, more: seq<Path>, all: bool)
    requires Told(a, x, skip, some) && Told(b, y, more, all) && (all ==> some)
    ensures Told(a + b, x + y, skip + more, all)
  {
    hide Told;
    ToldWider(a, x, skip, skip + more, some, all);
    ToldWider(b, y, more, skip + more, all, all);
    ToldAppend(a, x, b, y, skip + more, all);
  }

  lemma {:induction false} ToldOne(n: Node, report: bool, told: bool, skip: seq<Path>, all: bool)
    requires told || !all || (n.dir && n.path in skip)
    ensures Told(if report then [n] else [], if report && told then [Change(Modified, n.path)] else [], skip, all)
  {
    assert [n][..0] == [] && [Change(Modified, n.path)][..0] == [];
    assert Told([], [], skip, all);
  }

  lemma {:induction false} ToldNone(sent: seq<Change>, skip: seq<Path>, all: bool)
    requires Told([], sent, skip, all)
    ensures sent == []
  {
  }

  lemma {:induction false} NoFewer(a: set<Path>, b: set<Path>)
    requires a <= b
    ensures |a| <= |b|
  {
    assert b == a + (b - a);
  }

  /** What is undone by another map has no more keys than that. */
  lemma {:induction false} NoMore<A, B>(m: map<A, B>, back: map<B, A>)
    requires forall a :: a in m ==> m[a] in back && back[m[a]] == a
    ensures |m| <= |back|
    decreases |m|
  {
    if m != map[] {
      var a :| a in m;
      NoMore(m - {a}, back - {m[a]});
      assert (m - {a}).Keys == m.Keys - {a} && (back - {m[a]}).Keys == back.Keys - {m[a]};
    }
  }
}
