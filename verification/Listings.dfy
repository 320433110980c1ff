/** What is noted of directories: the names last seen, what was sent of them, and what was missed; and the diff
    that turns one more listing into events. */
module Listings {
  import opened Paths
  import opened Coalescer
  import opened Walks

  // ----- what is noted

  /** A directory a walk comes to, and what it holds then. */
  datatype Visit = Visit(dir: Path, names: set<Name>)

  /** What a directory held when it was first recorded, and every diff sent of it since. */
  datatype Log = Log(start: set<Name>, diffs: seq<seq<Change>>)

  /** What is noted of directories: the names last seen; what was sent of them; and the names a walk found come or
      gone without a word to the consumer, which therefore is wrong about them. */
  datatype Notes = Notes(names: map<Path, set<Name>>, log: map<Path, Log>, missed: map<Path, set<Name>>)

  /** What is in one of them only. */
  ghost function Delta(a: set<Name>, b: set<Name>): set<Name> {
    (a - b) + (b - a)
  }

  function StartView(start: set<Name>): map<Path, Kind> {
    map n | n in start :: Modified
  }

  /** Whoever starts from the first listing and replays what was sent has exactly these names, but for those missed. */
  ghost predicate InStep(l: Log, names: set<Name>, missed: set<Name>) {
    Present(ReplayDiffs(StartView(l.start), l.diffs)) == Delta(names, missed)
  }

  ghost predicate Sent(dir: Path, diffs: seq<seq<Change>>, out: seq<Change>) {
    forall diff, c :: diff in diffs && c in diff ==> Change(c.kind, Join(dir, c.path)) in out
  }

  ghost predicate SameKeys(n: Notes) {
    n.log.Keys == n.names.Keys == n.missed.Keys
  }

  /** Every diff noted was sent, and every directory is in step. */
  ghost predicate LogsHold(n: Notes, out: seq<Change>) {
    && SameKeys(n)
    && (forall d :: d in n.names ==> InStep(n.log[d], n.names[d], n.missed[d]))
    && (forall d :: d in n.log ==> Sent(d, n.log[d].diffs, out))
  }

  /** A walk notes what a directory holds. What has changed since it was last noted is missed: nothing is sent. */
  ghost function Noting(n: Notes, dir: Path, names: set<Name>): Notes {
    if dir !in n.names then Notes(n.names[dir := names], n.log[dir := Log(names, [])], n.missed[dir := {}])
    else
      Notes(n.names[dir := names], n.log, n.missed[dir := Delta(MissedOf(n, dir), Delta(n.names[dir], names))])
  }

  /** What is missed of d if only walks noted it since a. */
  ghost function MissedSince(a: Notes, b: Notes, d: Path): set<Name> {
    if d in a.names then Delta(MissedOf(a, d), Delta(a.names[d], LastOf(b, d)))
    else Delta(LogOf(b, d).start, LastOf(b, d))
  }

  /** What is noted after these visits: nothing but what they found, and with `all`, all of it, but of directories
      among `skip`. No log loses or gains a diff. */
  ghost predicate Recorded(a: Notes, b: Notes, visits: set<Visit>, skip: seq<Path>, all: bool) {
    && SameKeys(a) && SameKeys(b) && a.names.Keys <= b.names.Keys
    && (forall d :: d in b.names ==> (d in a.names && b.names[d] == a.names[d]) || Visit(d, b.names[d]) in visits)
    && (forall d :: d in a.log ==> b.log[d] == a.log[d])
    && (forall d :: d in b.log && d !in a.log ==> b.log[d].diffs == [] && Visit(d, b.log[d].start) in visits)
    && (forall d :: d in b.names ==> b.missed[d] == MissedSince(a, b, d))
    && (all ==> AllNoted(b, visits, skip))
  }

  /** What is noted of a visited directory is what one of the visits found. */
  ghost predicate Noted(n: Notes, visits: set<Visit>, v: Visit) {
    v.dir in n.names && Visit(v.dir, n.names[v.dir]) in visits
  }

  ghost predicate AllNoted(n: Notes, visits: set<Visit>, skip: seq<Path>) {
    forall v :: v in visits ==> Noted(n, visits, v) || v.dir in skip
  }

  /** The same, but for dir and what departed from it. */
  ghost predicate AllNotedBut(n: Notes, visits: set<Visit>, skip: seq<Path>, dir: Path, went: set<Name>) {
    forall v :: v in visits ==> Noted(n, visits, v) || v.dir in skip || v.dir == dir || Departed(dir, went, v.dir)
  }

  ghost function LogOf(n: Notes, dir: Path): Log {
    if dir in n.log then n.log[dir] else Log({}, [])
  }

  ghost function MissedOf(n: Notes, dir: Path): set<Name> {
    if dir in n.missed then n.missed[dir] else {}
  }

  ghost function LastOf(n: Notes, dir: Path): set<Name> {
    if dir in n.names then n.names[dir] else {}
  }

  /** A directory's own note once it was re-listed: the diff is added to its log, and what it tells of is no longer
      missed. */
  ghost function Relist(n: Notes, a: Notes, dir: Path, now: set<Name>, diff: seq<Change>): Notes {
    Notes(n.names[dir := now], n.log[dir := Log(LogOf(a, dir).start, LogOf(a, dir).diffs + [diff])],
          n.missed[dir := MissedOf(a, dir) - Delta(LastOf(a, dir), now)])
  }

  /** p is, or lies below, one of the departed entries of dir. */
  ghost predicate Departed(dir: Path, departed: set<Name>, p: Path) {
    exists n :: n in departed && Dropped(Join(dir, n), p)
  }

  /** What is noted after a directory was re-listed: of itself, that; of other directories, nothing but what visits
      to arrivals found, and with `all`, all of that. */
  ghost predicate RelistedNotes(
    a: Notes, b: Notes, dir: Path, now: set<Name>, diff: seq<Change>, went: set<Name>, visits: set<Visit>,
    skip: seq<Path>, all: bool)
  {
    && SameKeys(a) && SameKeys(b) && dir in b.names && b.names[dir] == now
    && b.log[dir] == Log(LogOf(a, dir).start, LogOf(a, dir).diffs + [diff])
    && b.missed[dir] == MissedOf(a, dir) - Delta(LastOf(a, dir), now)
    && (forall d :: d in b.names && d != dir ==>
          (d in a.names && b.names[d] == a.names[d]) || Visit(d, b.names[d]) in visits)
    && (forall d :: d in a.log && d != dir && !Departed(dir, went, d) ==> d in b.log && b.log[d] == a.log[d])
    && (forall d :: d in b.log && d != dir && d !in a.log ==>
      b.log[d].diffs == [] && Visit(d, b.log[d].start) in visits)
    && (forall d :: d in b.names && d != dir ==> b.missed[d] == MissedSince(a, b, d))
    && (all ==> AllNotedBut(b, visits, skip, dir, went))
  }

  // ----- the diff

  /** Every changed name once: those that arrived, then those that went. */
  ghost predicate IsDiff(prev: set<Name>, now: set<Name>, diff: seq<Change>) {
    && (forall c ::
          c in diff <==> (c.kind == Modified && c.path in now - prev) || (c.kind == Deleted && c.path in prev - now))
    && (forall i, j :: 0 <= i < j < |diff| ==> diff[i].path != diff[j].path)
    && (forall i, j :: 0 <= i < j < |diff| && diff[i].kind == Deleted ==> diff[j].kind == Deleted)
  }

  ghost predicate DiffSoFar(prev: set<Name>, now: set<Name>, toCome: set<Name>, toGo: set<Name>, diff: seq<Change>) {
    && (forall c ::
          c in diff <==>
            (c.kind == Modified && c.path in now - prev - toCome) || (c.kind == Deleted && c.path in prev - now - toGo))
    && (forall i, j :: 0 <= i < j < |diff| ==> diff[i].path != diff[j].path)
    && (forall i, j :: 0 <= i < j < |diff| && diff[i].kind == Deleted ==> diff[j].kind == Deleted)
  }

  ghost function InDir(dir: Path, diff: seq<Change>): seq<Change> {
    seq(|diff|, i requires 0 <= i < |diff| => Change(diff[i].kind, Join(dir, diff[i].path)))
  }

  /** Everything in diff went out, and besides it only what the arrivals brought: in a scoped feed nothing, and with
      `all` everything, but directories among `skip`. */
  ghost predicate Emitted(
    dir: Path, sent: seq<Change>, diff: seq<Change>, brought: set<Node>, skip: seq<Path>, all: bool, scoped: bool)
  {
    && (forall c :: c in diff ==> Change(c.kind, Join(dir, c.path)) in sent)
    && (forall c :: c in sent ==> c in InDir(dir, diff) || (c.kind == Modified && c.path in PathsOf(brought)))
    && (all ==> AllTold(sent, brought, skip))
    && (scoped ==> sent == InDir(dir, diff))
  }

  lemma {:induction false} EmittedMore(
    dir: Path, sent: seq<Change>, diff: seq<Change>, c: Change, nodes: seq<Node>, rest: seq<Change>,
    brought: set<Node>, skip: seq<Path>, more: seq<Path>, some: bool, all: bool, scoped: bool)
    requires Emitted(dir, sent, diff, brought, skip, some, scoped) && Told(nodes, rest, more, all) && (all ==> some)
    requires scoped ==> nodes == []
    ensures Emitted(dir, sent + [Change(c.kind, Join(dir, c.path))] + rest, diff + [c], brought + NodeSet(nodes),
                    skip + more, all, scoped)
  {
    hide Join, InDir, Told, PathsOf, AllTold, NodeSet;
    var e := Change(c.kind, Join(dir, c.path));
    ToldMeans(nodes, rest, more, all);
    InDirMore(dir, diff, c);
    PathsOfMore(brought, NodeSet(nodes));
    AllToldMore(sent, [e] + rest, brought, NodeSet(nodes), skip, more);
    assert sent + [e] + rest == sent + ([e] + rest);
    AllToldLater(rest, [e], NodeSet(nodes), more);
    if scoped {
      ToldNone(rest, more, all);
      assert sent + [e] + rest == InDir(dir, diff) + [e];
    }
  }

  lemma {:induction false} InDirMore(dir: Path, diff: seq<Change>, c: Change)
    ensures InDir(dir, diff + [c]) == InDir(dir, diff) + [Change(c.kind, Join(dir, c.path))]
  {
    hide Join;
  }

  lemma {:induction false} PathsOfMore(a: set<Node>, b: set<Node>)
    ensures PathsOf(a + b) == PathsOf(a) + PathsOf(b)
  {
  }

  lemma {:induction false} AllToldMore(
    sent: seq<Change>, rest: seq<Change>, a: set<Node>, b: set<Node>, skip: seq<Path>, more: seq<Path>)
    ensures AllTold(sent, a, skip) && AllTold(rest, b, more) ==> AllTold(sent + rest, a + b, skip + more)
  {
  }

  lemma {:induction false} AllToldLater(sent: seq<Change>, first: seq<Change>, a: set<Node>, skip: seq<Path>)
    ensures AllTold(sent, a, skip) ==> AllTold(first + sent, a, skip)
  {
  }

  /** One more event of the directory's own. */
  lemma {:induction false} EmittedOne(
    dir: Path, start: seq<Change>, out: seq<Change>, diff: seq<Change>, c: Change, brought: set<Node>,
    skip: seq<Path>, all: bool, scoped: bool)
    requires start <= out && Emitted(dir, Since(start, out), diff, brought, skip, all, scoped)
    ensures Emitted(dir, Since(start, out + [Change(c.kind, Join(dir, c.path))]), diff + [c], brought, skip, all,
                    scoped)
  {
    hide Emitted, Join, Since;
    var e := Change(c.kind, Join(dir, c.path));
    assert Told([], [], [], all);
    EmittedMore(dir, Since(start, out), diff, c, [], [], brought, skip, [], all, all, scoped);
    SinceOne(start, out, e);
    assert Since(start, out) + [e] + [] == Since(start, out) + [e];
    assert brought + NodeSet([]) == brought && skip + [] == skip;
  }

  lemma {:induction false} DiffNone(prev: set<Name>, now: set<Name>)
    ensures DiffSoFar(prev, now, now - prev, prev - now, [])
  {
  }

  lemma {:induction false} DiffDone(prev: set<Name>, now: set<Name>, diff: seq<Change>)
    requires DiffSoFar(prev, now, {}, {}, diff)
    ensures IsDiff(prev, now, diff)
  {
  }

  lemma {:induction false} DiffMore(
    prev: set<Name>, now: set<Name>, toCome: set<Name>, toGo: set<Name>, diff: seq<Change>, c: Change)
    requires DiffSoFar(prev, now, toCome, toGo, diff)
    requires (c.kind == Modified && c.path in toCome && toCome <= now - prev && toGo == prev - now)
      || (c.kind == Deleted && c.path in toGo && toGo <= prev - now && toCome == {})
    ensures DiffSoFar(prev, now, toCome - {c.path}, toGo - {c.path}, diff + [c])
  {
    forall i | 0 <= i < |diff|
      ensures diff[i].path != c.path
      ensures diff[i].kind == Deleted ==> c.kind == Deleted
    {
      assert diff[i] in diff;
    }
    assert forall d :: d in diff + [c] <==> d in diff || d == c;
  }

  lemma {:induction false} DepartedNone(dir: Path)
    ensures forall p :: !Departed(dir, {}, p)
  {
  }

  lemma {:induction false} DepartedOne(dir: Path, done: set<Name>, name: Name)
    ensures !Dropped(Join(dir, name), dir)
    ensures forall p :: Departed(dir, done + {name}, p) <==> Departed(dir, done, p) || Dropped(Join(dir, name), p)
  {
    hide Dropped;
    NotAbove(dir, name);
  }

  lemma {:induction false} NoneDeparted(dir: Path, prev: set<Name>, now: set<Name>)
    ensures !Departed(dir, prev - now, dir)
  {
    hide Dropped;
    forall n | n in prev - now ensures !Dropped(Join(dir, n), dir) {
      NotAbove(dir, n);
    }
  }

  // ----- replay

  /** The names a consumer holds that applies the events it is sent. */
  ghost function Present(view: map<Path, Kind>): set<Path> {
    set p | p in view && view[p] == Modified
  }

  ghost function ReplayDiffs(view: map<Path, Kind>, diffs: seq<seq<Change>>): map<Path, Kind> {
    if diffs == [] then view else Replay(ReplayDiffs(view, diffs[..|diffs| - 1]), diffs[|diffs| - 1])
  }

  /** One diff, replayed by a consumer that is wrong about some names, leaves it wrong about those the diff does not
      tell of. */
  lemma {:induction false} DiffReplays(
    view: map<Path, Kind>, prev: set<Name>, missed: set<Name>, now: set<Name>, diff: seq<Change>)
    requires Present(view) == Delta(prev, missed) && IsDiff(prev, now, diff)
    ensures Present(Replay(view, diff)) == Delta(now, missed - Delta(prev, now))
  {
    forall c, d | c in diff && d in diff && c.path == d.path ensures c == d {}
    forall p ensures p in Present(Replay(view, diff)) <==> p in Delta(now, missed - Delta(prev, now)) {
      ReplayListed(view, diff, p);
      if p in now - prev {
        assert Change(Modified, p) in diff;
      } else if p in prev - now {
        assert Change(Deleted, p) in diff;
      } else {
        assert forall c :: c in diff ==> c.path != p;
        assert p in Present(view) <==> p in Delta(prev, missed);
      }
    }
  }

  lemma {:induction false} ReplayDiffsMore(view: map<Path, Kind>, diffs: seq<seq<Change>>, diff: seq<Change>)
    ensures ReplayDiffs(view, diffs + [diff]) == Replay(ReplayDiffs(view, diffs), diff)
  {
    hide Replay;
    assert (diffs + [diff])[..|diffs|] == diffs;
  }

  /** So a log stays in step with every diff that is sent, whatever order that is in... */
  lemma {:induction false} StaysInStep(
    l: Log, prev: set<Name>, missed: set<Name>, now: set<Name>, diff: seq<Change>)
    requires InStep(l, prev, missed) && IsDiff(prev, now, diff)
    ensures InStep(Log(l.start, l.diffs + [diff]), now, missed - Delta(prev, now))
  {
    hide Present, ReplayDiffs, Replay, IsDiff, Delta;
    ReplayDiffsMore(StartView(l.start), l.diffs, diff);
    DiffReplays(ReplayDiffs(StartView(l.start), l.diffs), prev, missed, now, diff);
  }

  lemma {:induction false} StartsInStep(start: set<Name>)
    ensures InStep(Log(start, []), start, {})
  {
  }

  /** ...while a walk that notes a directory again makes the consumer miss exactly the names that changed, if it
      missed none before; it is still right about the directory if and only if nothing changed. */
  lemma {:induction false} NotingMisses(n: Notes, dir: Path, names: set<Name>)
    requires SameKeys(n) && dir in n.names && n.missed[dir] == {} && InStep(n.log[dir], n.names[dir], {})
    ensures var m := Noting(n, dir, names);
      && m.log[dir] == n.log[dir] && m.missed[dir] == Delta(n.names[dir], names)
      && InStep(m.log[dir], m.names[dir], m.missed[dir])
      && var heard := Present(ReplayDiffs(StartView(m.log[dir].start), m.log[dir].diffs));
        heard == m.names[dir] <==> names == n.names[dir]
  {
    hide Present, ReplayDiffs;
    assert Delta(n.names[dir], {}) == n.names[dir];
    DeltaMoved(n.names[dir], {}, names);
  }

  /** A directory that held a is walked again and found to hold a and b. The rescan that follows finds nothing new,
      sends nothing, and the consumer never hears of b. */
  lemma {:induction false} MissedForGood(dir: Path)
    ensures var a: Name, b: Name := [0x61], [0x62];
      var n := Noting(Noting(Notes(map[], map[], map[]), dir, {a}), dir, {a, b});
      && IsDiff(n.names[dir], {a, b}, []) && n.missed[dir] == {b}
      && var m := Relist(n, n, dir, {a, b}, []);
        && m.names[dir] == {a, b} && m.missed[dir] == {b}
        && Present(ReplayDiffs(StartView(m.log[dir].start), m.log[dir].diffs)) == {a}
  {
    hide Present, ReplayDiffs, StartView, Noting, Relist, Delta, IsDiff;
    var a: Name, b: Name := [0x61], [0x62];
    assert a[0] != b[0];
    var none := Notes(map[], map[], map[]);
    var first := Noting(none, dir, {a});
    NotingIs(none, dir, {a});
    DeltaOn({}, {a}, {a}, {a});
    StartsInStep({a});
    NotingMisses(first, dir, {a, b});
    NotingIs(first, dir, {a, b});
    var n := Noting(first, dir, {a, b});
    RelistIs(n, n, dir, {a, b}, []);
    NoDiff({a, b});
    StaysInStep(n.log[dir], {a, b}, n.missed[dir], {a, b}, []);
    DeltaOfTwo(a, b);
  }

  lemma {:induction false} DeltaOfTwo(a: Name, b: Name)
    requires a != b
    ensures Delta({a}, {a, b}) == {b} && {b} - Delta({a, b}, {a, b}) == {b} && Delta({a, b}, {b}) == {a}
  {
  }

  lemma {:induction false} NoDiff(names: set<Name>)
    ensures IsDiff(names, names, [])
  {
  }

  /** Moving from x to y behind the consumer's back. */
  lemma {:induction false} DeltaMoved(x: set<Name>, missed: set<Name>, y: set<Name>)
    ensures Delta(x, missed) == Delta(y, Delta(missed, Delta(x, y)))
  {
  }

  lemma {:induction false} DeltaOn(missed: set<Name>, x: set<Name>, y: set<Name>, z: set<Name>)
    ensures Delta(Delta(missed, Delta(x, y)), Delta(y, z)) == Delta(missed, Delta(x, z))
    ensures Delta(Delta(x, y), Delta(y, z)) == Delta(x, z)
    ensures Delta(x, x) == {} && Delta(missed, {}) == missed
  {
  }

  // ----- how notes go on

  lemma {:induction false} LogsHoldOn(n: Notes, out: seq<Change>, c: Change)
    requires LogsHold(n, out)
    ensures LogsHold(n, out + [c])
  {
    hide InStep, Join;
  }

  lemma {:induction false} NotingNames(n: Notes, dir: Path, names: set<Name>)
    ensures Noting(n, dir, names).names == n.names[dir := names]
  {
  }

  lemma {:induction false} NotingHolds(n: Notes, dir: Path, names: set<Name>, out: seq<Change>)
    requires LogsHold(n, out)
    ensures LogsHold(Noting(n, dir, names), out)
  {
    hide Present, ReplayDiffs, Join, Delta, StartView;
    StartsInStep(names);
    if dir in n.names {
      DeltaMoved(n.names[dir], n.missed[dir], names);
      assert InStep(n.log[dir], n.names[dir], n.missed[dir]);
    }
    assert Sent(dir, [], out);
  }

  /** The notes of these directories only. */
  ghost function Kept(n: Notes, left: set<Path>): Notes {
    Notes(map d | d in n.names && d in left :: n.names[d], map d | d in n.log && d in left :: n.log[d],
      map d | d in n.missed && d in left :: n.missed[d])
  }

  lemma {:induction false} KeptHolds(n: Notes, left: set<Path>, out: seq<Change>)
    requires LogsHold(n, out)
    ensures LogsHold(Kept(n, left), out)
  {
    hide InStep, Join;
  }

  lemma {:induction false} KeptAll(n: Notes, out: seq<Change>)
    requires LogsHold(n, out)
    ensures Kept(n, n.names.Keys) == n
  {
    hide InStep, Join;
  }

  lemma {:induction false} KeptFewer(n: Notes, left: set<Path>, dir: Path, done: set<Name>, name: Name)
    requires left == set p | p in n.names && !Departed(dir, done, p)
    requires forall p :: Departed(dir, done + {name}, p) <==> Departed(dir, done, p) || Dropped(Join(dir, name), p)
    ensures Kept(Kept(n, left), (set p | p in Kept(n, left).names && !Dropped(Join(dir, name), p)))
         == Kept(n, (set p | p in n.names && !Departed(dir, done + {name}, p)))
  {
    hide Departed, Dropped, Join;
  }

  lemma {:induction false} RecordedNone(n: Notes, out: seq<Change>)
    requires LogsHold(n, out)
    ensures forall skip, all :: Recorded(n, n, {}, skip, all)
  {
    hide InStep, Join, Sent, Delta;
    forall d | d in n.names ensures n.missed[d] == MissedSince(n, n, d) {
      DeltaOn(n.missed[d], n.names[d], n.names[d], n.names[d]);
    }
  }

  lemma {:induction false} NotingIs(n: Notes, dir: Path, names: set<Name>)
    requires SameKeys(n)
    ensures var m := Noting(n, dir, names);
      && SameKeys(m) && m.names == n.names[dir := names]
      && m.log == (if dir in n.names then n.log else n.log[dir := Log(names, [])])
      && m.missed == n.missed[dir := MissedSince(n, m, dir)]
  {
    hide Delta;
    DeltaOn({}, names, names, names);
  }

  lemma {:induction false} NotedOne(n: Notes, v: Visit, skip: seq<Path>)
    requires v.dir in n.names && n.names[v.dir] == v.names
    ensures AllNoted(n, {v}, skip)
  {
  }

  lemma {:induction false} NotingRecords(n: Notes, p: Path, names: set<Name>, skip: seq<Path>, all: bool)
    requires Recorded(n, n, {}, skip, all)
    ensures Recorded(n, Noting(n, p, names), {Visit(p, names)}, skip, all)
  {
    hide Delta, Noting, MissedSince, AllNoted;
    var m := Noting(n, p, names);
    NotingIs(n, p, names);
    NotedOne(m, Visit(p, names), skip);
    forall d | d in n.names && d != p ensures n.missed[d] == MissedSince(n, m, d) {
      MissedAlike(n, n, m, d);
    }
  }

  lemma {:induction false} SkippedRecords(n: Notes, visits: set<Visit>, skip: seq<Path>, all: bool)
    requires Recorded(n, n, {}, skip, all) && (all ==> forall v :: v in visits ==> v.dir in skip)
    ensures Recorded(n, n, visits, skip, all)
  {
    hide MissedSince, AllNoted;
    SkippedNoted(n, visits, skip);
  }

  lemma {:induction false} SkippedNoted(n: Notes, visits: set<Visit>, skip: seq<Path>)
    ensures (forall v :: v in visits ==> v.dir in skip) ==> AllNoted(n, visits, skip)
  {
    hide Noted;
  }

  lemma {:induction false} RecordedOn(
    a: Notes, b: Notes, c: Notes, v: set<Visit>, w: set<Visit>, skip: seq<Path>, more: seq<Path>, some: bool, all: bool)
    requires Recorded(a, b, v, skip, some) && Recorded(b, c, w, more, all) && (all ==> some)
    ensures Recorded(a, c, v + w, skip + more, all)
  {
    hide Delta, AllNoted, MissedSince;
    forall d | d in c.names ensures c.missed[d] == MissedSince(a, c, d) {
      MissedOn(a, b, c, d);
    }
    if all {
      AllNotedOn(b, c, v, w, skip, more);
    }
  }

  lemma {:induction false} AllNotedOn(
    b: Notes, c: Notes, v: set<Visit>, w: set<Visit>, skip: seq<Path>, more: seq<Path>)
    requires AllNoted(b, v, skip) && AllNoted(c, w, more) && b.names.Keys <= c.names.Keys
    requires forall d :: d in c.names ==> (d in b.names && c.names[d] == b.names[d]) || Visit(d, c.names[d]) in w
    ensures AllNoted(c, v + w, skip + more)
  {
    hide Noted;
    forall x | x in v + w ensures Noted(c, v + w, x) || x.dir in skip + more {
      if x in v {
        NotedOn(b, c, v, w, x);
      } else {
        NotedWider(c, w, v + w, x);
      }
    }
  }

  lemma {:induction false} MissedOn(a: Notes, b: Notes, c: Notes, d: Path)
    requires SameKeys(a) && SameKeys(b) && SameKeys(c) && d in c.names
    requires (d in b.names ==> b.missed[d] == MissedSince(a, b, d)) && c.missed[d] == MissedSince(b, c, d)
    requires d in a.names ==> d in b.names
    requires d in b.log ==> d in c.log && c.log[d] == b.log[d]
    ensures c.missed[d] == MissedSince(a, c, d)
  {
    hide Delta;
    if d in a.names {
      DeltaOn(a.missed[d], a.names[d], b.names[d], c.names[d]);
    } else if d in b.names {
      DeltaOn({}, b.log[d].start, b.names[d], c.names[d]);
    }
  }

  lemma {:induction false} NotedOn(b: Notes, c: Notes, v: set<Visit>, w: set<Visit>, x: Visit)
    requires b.names.Keys <= c.names.Keys
    requires forall d :: d in c.names ==> (d in b.names && c.names[d] == b.names[d]) || Visit(d, c.names[d]) in w
    ensures Noted(b, v, x) ==> Noted(c, v + w, x)
  {
  }

  lemma {:induction false} NotedWider(n: Notes, v: set<Visit>, w: set<Visit>, x: Visit)
    requires v <= w
    ensures Noted(n, v, x) ==> Noted(n, w, x)
  {
  }

  lemma {:induction false} RecordedWider(a: Notes, b: Notes, v: set<Visit>, w: set<Visit>, skip: seq<Path>)
    requires Recorded(a, b, v, skip, false)
    ensures Recorded(a, b, v + w, skip, false)
  {
    hide Delta, MissedSince, AllNoted;
  }

  /** The notes after a re-listing: what arrivals brought, less what departed, and the diff. */
  lemma {:induction false} Relisting(
    a: Notes, m: Notes, e: Notes, dir: Path, now: set<Name>, prev: set<Name>, diff: seq<Change>,
    visits: set<Visit>, brought: set<Node>, start: seq<Change>, out: seq<Change>, scoped: bool, skip: seq<Path>,
    all: bool)
    requires LogsHold(a, start) && LogsHold(e, out) && Recorded(a, m, visits, skip, all) && start <= out
    requires e == Kept(m, (set p | p in m.names && !Departed(dir, prev - now, p)))
    requires prev == LastOf(a, dir) && IsDiff(prev, now, diff)
    requires Emitted(dir, Since(start, out), diff, brought, skip, all, scoped)
    ensures LogsHold(Relist(e, a, dir, now, diff), out)
    ensures RelistedNotes(a, Relist(e, a, dir, now, diff), dir, now, diff, prev - now, visits, skip, all)
  {
    hide Departed, InStep, IsDiff, Join, InDir, Sent, Delta, Recorded, Relist, Kept, RelistedNotes, AllTold, PathsOf;
    StartsInStep({});
    StaysInStep(LogOf(a, dir), LastOf(a, dir), MissedOf(a, dir), now, diff);
    SentNone(dir, start);
    SentOn(dir, LogOf(a, dir).diffs, diff, start, out);
    RelistedFrame(a, m, e, dir, now, diff, prev - now, visits, skip, all);
    RelistedHolds(a, e, dir, now, diff, out);
  }

  lemma {:induction false} RelistedFrame(
    a: Notes, m: Notes, e: Notes, dir: Path, now: set<Name>, diff: seq<Change>, went: set<Name>, visits: set<Visit>,
    skip: seq<Path>, all: bool)
    requires Recorded(a, m, visits, skip, all) && e == Kept(m, (set p | p in m.names && !Departed(dir, went, p)))
    ensures RelistedNotes(a, Relist(e, a, dir, now, diff), dir, now, diff, went, visits, skip, all)
  {
    hide Departed, Delta, MissedSince, AllNoted, AllNotedBut, Relist, Kept, Recorded, RelistedNotes, MissedOf;
    hide LogOf, LastOf;
    var b := Relist(e, a, dir, now, diff);
    assert SameKeys(m) by { RecordedKeys(a, m, visits, skip, all); }
    KeptIs(m, set p | p in m.names && !Departed(dir, went, p));
    RelistIs(e, a, dir, now, diff);
    RelistedIs(a, m, b, dir, now, diff, went, visits, skip, all);
  }

  lemma {:induction false} RecordedKeys(a: Notes, b: Notes, visits: set<Visit>, skip: seq<Path>, all: bool)
    requires Recorded(a, b, visits, skip, all)
    ensures SameKeys(a) && SameKeys(b)
  {
  }

  lemma {:induction false} RelistedIs(
    a: Notes, m: Notes, b: Notes, dir: Path, now: set<Name>, diff: seq<Change>, went: set<Name>, visits: set<Visit>,
    skip: seq<Path>, all: bool)
    requires Recorded(a, m, visits, skip, all) && SameKeys(b) && dir in b.names && b.names[dir] == now
    requires b.log[dir] == Log(LogOf(a, dir).start, LogOf(a, dir).diffs + [diff])
    requires b.missed[dir] == MissedOf(a, dir) - Delta(LastOf(a, dir), now)
    requires forall d :: d in b.names && d != dir ==>
      d in m.names && b.names[d] == m.names[d] && b.log[d] == m.log[d] && b.missed[d] == m.missed[d]
    requires forall d :: d in m.names && d != dir && !Departed(dir, went, d) ==> d in b.names
    ensures RelistedNotes(a, b, dir, now, diff, went, visits, skip, all)
  {
    hide Departed, Delta, MissedSince, AllNoted, AllNotedBut, MissedOf;
    forall d | d in b.names && d != dir ensures b.missed[d] == MissedSince(a, b, d) {
      MissedAlike(a, m, b, d);
    }
    if all {
      AllNotedAlike(m, b, visits, skip, dir, went);
    }
  }

  lemma {:induction false} AllNotedAlike(
    m: Notes, b: Notes, visits: set<Visit>, skip: seq<Path>, dir: Path, went: set<Name>)
    requires AllNoted(m, visits, skip)
    requires forall d :: d in m.names && d != dir && !Departed(dir, went, d) ==>
      d in b.names && b.names[d] == m.names[d]
    ensures AllNotedBut(b, visits, skip, dir, went)
  {
    hide Departed;
    forall v | v in visits && v.dir != dir && !Departed(dir, went, v.dir) && Noted(m, visits, v)
      ensures Noted(b, visits, v)
    {
    }
  }

  lemma {:induction false} KeptIs(n: Notes, left: set<Path>)
    requires SameKeys(n) && left <= n.names.Keys
    ensures var k := Kept(n, left);
      && SameKeys(k) && k.names.Keys == left
      && forall d :: d in left ==> k.names[d] == n.names[d] && k.log[d] == n.log[d] && k.missed[d] == n.missed[d]
  {
  }

  lemma {:induction false} RelistIs(n: Notes, a: Notes, dir: Path, now: set<Name>, diff: seq<Change>)
    requires SameKeys(n)
    ensures var b := Relist(n, a, dir, now, diff);
      && SameKeys(b) && b.names.Keys == n.names.Keys + {dir} && b.names[dir] == now
      && b.log[dir] == Log(LogOf(a, dir).start, LogOf(a, dir).diffs + [diff])
      && b.missed[dir] == MissedOf(a, dir) - Delta(LastOf(a, dir), now)
      && forall d :: d in n.names && d != dir ==>
        b.names[d] == n.names[d] && b.log[d] == n.log[d] && b.missed[d] == n.missed[d]
  {
    hide LogOf, MissedOf, LastOf, Delta;
  }

  lemma {:induction false} MissedAlike(a: Notes, m: Notes, b: Notes, d: Path)
    requires LogOf(m, d) == LogOf(b, d) && LastOf(m, d) == LastOf(b, d)
    ensures MissedSince(a, m, d) == MissedSince(a, b, d)
  {
  }

  lemma {:induction false} RelistedHolds(
    a: Notes, e: Notes, dir: Path, now: set<Name>, diff: seq<Change>, out: seq<Change>)
    requires LogsHold(e, out)
    requires var l := Log(LogOf(a, dir).start, LogOf(a, dir).diffs + [diff]);
      Sent(dir, l.diffs, out) && InStep(l, now, MissedOf(a, dir) - Delta(LastOf(a, dir), now))
    ensures LogsHold(Relist(e, a, dir, now, diff), out)
  {
    hide InStep, Sent, Delta;
  }

  lemma {:induction false} SentNone(dir: Path, out: seq<Change>)
    ensures Sent(dir, [], out)
  {
  }

  lemma {:induction false} SentOn(
    dir: Path, diffs: seq<seq<Change>>, diff: seq<Change>, start: seq<Change>, out: seq<Change>)
    requires Sent(dir, diffs, start) && start <= out
    requires forall c :: c in diff ==> Change(c.kind, Join(dir, c.path)) in Since(start, out)
    ensures Sent(dir, diffs + [diff], out)
  {
    hide Join;
    forall d, c | d in diffs + [diff] && c in d ensures Change(c.kind, Join(dir, c.path)) in out {
      if d == diff {
        assert Change(c.kind, Join(dir, c.path)) in Since(start, out);
      } else {
        assert d in diffs;
        assert Change(c.kind, Join(dir, c.path)) in start;
      }
    }
  }
}
