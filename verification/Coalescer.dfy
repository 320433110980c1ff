/** Folding bursts of changes into batches, with timer callbacks that may come late. Each method is one
    critical section of the code; a batch that was taken but not yet handed to Emit is in flight. */
module Coalescer {
  import opened Paths

  datatype Kind = Modified | Deleted | Overflow

  datatype Change = Change(kind: Kind, path: Path)

  type Batch = seq<Change>

  type Timer = nat

  // ----- what a stream of changes means, path by path

  /** The last kind of every path since the last overflow. */
  function Apply(m: map<Path, Kind>, c: Change): map<Path, Kind> {
    if c.kind == Overflow then map[] else m[c.path := c.kind]
  }

  function Replay(m: map<Path, Kind>, cs: seq<Change>): map<Path, Kind> {
    if cs == [] then m else Apply(Replay(m, cs[..|cs| - 1]), cs[|cs| - 1])
  }

  function ReplayBatches(bs: seq<Batch>): map<Path, Kind> {
    if bs == [] then map[] else Replay(ReplayBatches(bs[..|bs| - 1]), bs[|bs| - 1])
  }

  lemma {:induction false} ReplayOne(m: map<Path, Kind>, cs: seq<Change>, c: Change)
    ensures Replay(m, cs + [c]) == Apply(Replay(m, cs), c)
  {
    assert (cs + [c])[..|cs|] == cs;
  }

  lemma {:induction false} ReplayBatch(bs: seq<Batch>, b: Batch)
    ensures ReplayBatches(bs + [b]) == Replay(ReplayBatches(bs), b)
  {
    assert (bs + [b])[..|bs|] == bs;
  }

  /** b lists exactly the entries of `pending`, in some order. */
  ghost predicate Lists(b: Batch, pending: map<Path, Kind>) {
    && (forall c :: c in b <==> c.path in pending && c.kind == pending[c.path])
    && (forall p :: p in pending ==> pending[p] != Overflow)
  }

  lemma {:induction false} ReplayListed(m: map<Path, Kind>, b: Batch, p: Path)
    requires forall c :: c in b ==> c.kind != Overflow
    requires forall c, d :: c in b && d in b && c.path == d.path ==> c == d
    ensures p in Replay(m, b) <==> p in m || exists c :: c in b && c.path == p
    ensures forall c :: c in b && c.path == p ==> p in Replay(m, b) && Replay(m, b)[p] == c.kind
    ensures (forall c :: c in b ==> c.path != p) && p in m ==> Replay(m, b)[p] == m[p]
  {
    if b != [] {
      var before, last := b[..|b| - 1], b[|b| - 1];
      ReplayListed(m, before, p);
      assert b == before + [last];
      assert forall c :: c in b <==> c in before || c == last;
    }
  }

  /** Replaying a batch is overriding by the entries it was made from. */
  lemma {:induction false} ReplayIsOverride(m: map<Path, Kind>, b: Batch, pending: map<Path, Kind>)
    requires Lists(b, pending)
    ensures Replay(m, b) == m + pending
  {
    forall p
      ensures p in Replay(m, b) <==> p in m || p in pending
      ensures p in Replay(m, b) ==> Replay(m, b)[p] == (m + pending)[p]
    {
      ReplayListed(m, b, p);
      if p in pending {
        assert Change(pending[p], p) in b;
      }
    }
  }

  // ----- order within a batch

  /** Go's string order. */
  predicate Less(a: Path, b: Path) {
    if b == [] then false
    else if a == [] then true
    else if a[0] != b[0] then a[0] < b[0]
    else Less(a[1..], b[1..])
  }

  lemma {:induction false} LessIsTransitive(a: Path, b: Path, c: Path)
    requires Less(a, b) && Less(b, c)
    ensures Less(a, c)
    decreases |a|
  {
    if a != [] && a[0] == b[0] == c[0] { LessIsTransitive(a[1..], b[1..], c[1..]); }
  }

  lemma {:induction false} LessIsTotal(a: Path, b: Path)
    ensures Less(a, b) || Less(b, a) || a == b
    ensures !(Less(a, b) && Less(b, a))
    ensures !Less(a, a)
    decreases |a|
  {
    if a != [] && b != [] {
      assert a == [a[0]] + a[1..] && b == [b[0]] + b[1..];
      LessIsTotal(a[1..], b[1..]);
    } else if a != [] {
      LessIsTotal(a[1..], a[1..]);
    }
  }

  /** The first byte that differs decides, and a beginning comes before the whole. */
  lemma {:induction false} LessIsLexicographic(a: Path, b: Path)
    ensures Less(a, b) <==> a < b || exists k :: 0 <= k < |a| && k < |b| && a[..k] == b[..k] && a[k] < b[k]
    decreases |a|
  {
    if a != [] && b != [] {
      if a[0] == b[0] {
        LessIsLexicographic(a[1..], b[1..]);
        assert a == [a[0]] + a[1..] && b == [b[0]] + b[1..];
        if k :| 0 <= k < |a[1..]| && k < |b[1..]| && a[1..][..k] == b[1..][..k] && a[1..][k] < b[1..][k] {
          assert a[..k + 1] == [a[0]] + a[1..][..k] && b[..k + 1] == [b[0]] + b[1..][..k];
        }
        if k :| 0 <= k < |a| && k < |b| && a[..k] == b[..k] && a[k] < b[k] {
          assert k > 0 && a[1..][..k - 1] == a[..k][1..] && b[1..][..k - 1] == b[..k][1..];
          assert a[1..][k - 1] == a[k] && b[1..][k - 1] == b[k];
        }
      } else {
        if a[0] < b[0] {
          assert a[..0] == b[..0];
        }
        forall k | 0 < k < |a| && k < |b| ensures a[..k] != b[..k] {
          assert a[..k][0] != b[..k][0];
        }
      }
    }
  }

  /** Deletes first, then by path. */
  predicate Before(a: Change, b: Change) {
    if a.kind != b.kind then a.kind == Deleted else Less(a.path, b.path)
  }

  ghost predicate Ordered(b: Batch) {
    forall i, j :: 0 <= i < j < |b| ==> Before(b[i], b[j])
  }

  lemma {:induction false} BeforeIsTransitive(a: Change, b: Change, c: Change)
    requires a.kind != Overflow && b.kind != Overflow && c.kind != Overflow
    requires Before(a, b) && Before(b, c)
    ensures Before(a, c)
  {
    if a.kind == b.kind == c.kind { LessIsTransitive(a.path, b.path, c.path); }
  }

  /** Puts a change where it belongs. */
  method Insert(b: Batch, c: Change) returns (r: Batch)
    requires Ordered(b) && c !in b && c.kind != Overflow && forall d :: d in b ==> d.kind != Overflow
    ensures Ordered(r) && forall d :: d in r <==> d in b || d == c
    ensures |r| == |b| + 1
  {
    hide Less;
    var i := 0;
    while i < |b| && Before(b[i], c)
      invariant 0 <= i <= |b|
      invariant forall k :: 0 <= k < i ==> Before(b[k], c)
    {
      i := i + 1;
    }
    forall k | i <= k < |b| ensures Before(c, b[k]) {
      assert b[k] in b && b[i] in b;
      BeforeIsTotal(b[i], c);
      if k > i { BeforeIsTransitive(c, b[i], b[k]); }
    }
    r := b[..i] + [c] + b[i..];
    InsertedAll(b, c, i);
    InsertedInOrder(b, c, i);
  }

  lemma {:induction false} BeforeIsTotal(a: Change, b: Change)
    requires a.kind != Overflow && b.kind != Overflow && a != b
    ensures Before(a, b) || Before(b, a)
  {
    LessIsTotal(a.path, b.path);
  }

  lemma {:induction false} InsertedAll(b: Batch, c: Change, i: nat)
    requires i <= |b|
    ensures forall d :: d in b[..i] + [c] + b[i..] <==> d in b || d == c
  {
    assert b == b[..i] + b[i..];
  }

  lemma {:induction false} InsertedInOrder(b: Batch, c: Change, i: nat)
    requires Ordered(b) && i <= |b|
    requires forall k :: 0 <= k < i ==> Before(b[k], c)
    requires forall k :: i <= k < |b| ==> Before(c, b[k])
    ensures Ordered(b[..i] + [c] + b[i..])
  {
    hide Before;
    var r := b[..i] + [c] + b[i..];
    assert forall k :: 0 <= k < |r| ==> r[k] == if k < i then b[k] else if k == i then c else b[k - 1];
  }

  /** The batch flush makes of what is pending. */
  method MakeBatch(pending: map<Path, Kind>) returns (b: Batch)
    requires forall p :: p in pending ==> pending[p] != Overflow
    ensures Lists(b, pending) && Ordered(b) && |b| == |pending|
    // Deletions come first, and on each side the paths ascend.
    ensures forall i, j :: 0 <= i < j < |b| && b[i].kind == Modified ==> b[j].kind == Modified
    ensures forall i, j :: 0 <= i < j < |b| && b[i].kind == b[j].kind ==> Less(b[i].path, b[j].path)
  {
    hide Ordered, Before, Less;
    b := [];
    OrderedNone();
    var rest := pending.Keys;
    while rest != {}
      invariant rest <= pending.Keys && |b| + |rest| == |pending|
      invariant Ordered(b)
      invariant forall c :: c in b <==> c.path in pending && c.path !in rest && c.kind == pending[c.path]
      decreases rest
    {
      var p :| p in rest;
      b := Insert(b, Change(pending[p], p));
      rest := rest - {p};
    }
    OrderedMeans(b, pending);
  }

  lemma {:induction false} OrderedMeans(b: Batch, pending: map<Path, Kind>)
    requires Ordered(b) && forall c :: c in b ==> c.kind != Overflow
    ensures forall i, j :: 0 <= i < j < |b| && b[i].kind == Modified ==> b[j].kind == Modified
    ensures forall i, j :: 0 <= i < j < |b| && b[i].kind == b[j].kind ==> Less(b[i].path, b[j].path)
  {
    hide Less;
    forall i, j | 0 <= i < j < |b|
      ensures b[i].kind == Modified ==> b[j].kind == Modified
      ensures b[i].kind == b[j].kind ==> Less(b[i].path, b[j].path)
    {
      assert Before(b[i], b[j]) && b[i] in b && b[j] in b;
    }
  }

  lemma {:induction false} OrderedNone()
    ensures Ordered([])
  {
  }

  // ----- the coalescer

  /** What was taken, then what is pending, is all that was added. */
  ghost predicate NothingLost(raw: seq<Change>, taken: seq<Batch>, pending: map<Path, Kind>) {
    ReplayBatches(taken) + pending == Replay(map[], raw)
  }

  /** Every taken batch is in flight or emitted, once; in the order taken, unless Emit calls overtook. */
  ghost predicate Handed(taken: seq<Batch>, inFlight: seq<Batch>, emitted: seq<Batch>, inOrder: bool) {
    multiset(emitted) + multiset(inFlight) == multiset(taken) && (inOrder ==> emitted + inFlight == taken)
  }

  ghost predicate NoOverflow(pending: map<Path, Kind>) {
    forall p :: p in pending ==> pending[p] != Overflow
  }

  ghost predicate AllWellMade(taken: seq<Batch>) {
    forall b :: b in taken ==> WellMade(b)
  }

  lemma {:induction false} HandedMore(
    taken: seq<Batch>, inFlight: seq<Batch>, emitted: seq<Batch>, inOrder: bool, b: Batch)
    requires Handed(taken, inFlight, emitted, inOrder)
    ensures Handed(taken + [b], inFlight + [b], emitted, inOrder)
  {
    assert emitted + (inFlight + [b]) == emitted + inFlight + [b];
  }

  lemma {:induction false} HandedOver(
    taken: seq<Batch>, inFlight: seq<Batch>, emitted: seq<Batch>, inOrder: bool, i: nat)
    requires Handed(taken, inFlight, emitted, inOrder) && i < |inFlight|
    ensures Handed(taken, inFlight[..i] + inFlight[i + 1..], emitted + [inFlight[i]], inOrder && i == 0)
  {
    var b := inFlight[i];
    assert inFlight == inFlight[..i] + [b] + inFlight[i + 1..];
    assert i == 0 ==> emitted + [b] + (inFlight[..0] + inFlight[1..]) == emitted + inFlight;
  }

  lemma {:induction false} WellMadeMore(taken: seq<Batch>, b: Batch)
    requires AllWellMade(taken) && WellMade(b)
    ensures AllWellMade(taken + [b])
  {
    hide WellMade;
  }

  lemma {:induction false} LostNothingTaken(raw: seq<Change>, taken: seq<Batch>, b: Batch, pending: map<Path, Kind>)
    requires NothingLost(raw, taken, pending) && Lists(b, pending)
    ensures NothingLost(raw, taken + [b], map[])
  {
    hide ReplayBatches, Replay, Lists;
    ReplayBatch(taken, b);
    ReplayIsOverride(ReplayBatches(taken), b, pending);
    assert ReplayBatches(taken + [b]) + map[] == ReplayBatches(taken + [b]);
  }

  lemma {:induction false} LostNothingAdded(raw: seq<Change>, taken: seq<Batch>, pending: map<Path, Kind>, c: Change)
    requires NothingLost(raw, taken, pending)
    ensures c.kind != Overflow ==> NothingLost(raw + [c], taken, pending[c.path := c.kind])
    ensures c.kind == Overflow ==> NothingLost(raw + [c], taken + [[c]], map[]) && WellMade([c])
  {
    hide ReplayBatches, Replay, WellMade;
    ReplayOne(map[], raw, c);
    if c.kind == Overflow {
      OverflowTaken(taken, c);
      var none: map<Path, Kind> := map[];
      assert none + none == none;
    } else {
      AddPending(ReplayBatches(taken), pending, c);
    }
  }

  /** Everything pending was taken as one batch, in order, and put in flight; nothing, if nothing was pending. */
  ghost predicate Took(
    pending: map<Path, Kind>, taken: seq<Batch>, inFlight: seq<Batch>, takenNow: seq<Batch>, inFlightNow: seq<Batch>)
  {
    if pending == map[] then takenNow == taken && inFlightNow == inFlight
    else
      exists b ::
        Lists(b, pending) && Ordered(b) && takenNow == taken + [b] && inFlightNow == inFlight + [b]
  }

  class Coalescer {
    var pending: map<Path, Kind>
    var timer: set<Timer>
    /** Batches taken by a flush or an overflow whose Emit has not run yet. */
    var inFlight: seq<Batch>
    /** Batches Emit was called with. */
    var emitted: seq<Batch>
    var nextTimer: Timer
    /** Timers whose callback may still run, stopped ones included. */
    var armed: set<Timer>

    ghost var raw: seq<Change>
    ghost var taken: seq<Batch>
    ghost var inOrder: bool

    /** At most one timer is set, and it will fire; while anything is pending, one is set. */
    ghost predicate TimerLive()
      reads this
    {
      && timer <= armed
      && (forall s, t :: s in timer && t in timer ==> s == t)
      && (pending != map[] ==> timer != {})
      && (forall t :: t in armed ==> t < nextTimer)
    }

    ghost predicate Valid()
      reads this
    {
      && TimerLive()
      && NothingLost(raw, taken, pending)
      && Handed(taken, inFlight, emitted, inOrder)
      && NoOverflow(pending)
      && AllWellMade(taken)
    }

    constructor ()
      ensures Valid() && raw == [] && taken == [] && inOrder && pending == map[]
    {
      pending, timer, inFlight, emitted, nextTimer, armed := map[], {}, [], [], 0, {};
      raw, taken, inOrder := [], [], true;
    }

    /** An overflow stands for everything pending, and goes out at once. */
    method AddOverflow(c: Change)
      requires Valid() && c.kind == Overflow
      modifies this
      ensures Valid() && raw == old(raw) + [c] && emitted == old(emitted) && inOrder == old(inOrder)
      ensures pending == map[] && taken == old(taken) + [[c]] && inFlight == old(inFlight) + [[c]]
      ensures timer == {} && (armed == old(armed) || armed == old(armed) - old(timer))
    {
      hide NothingLost, Handed, AllWellMade, WellMade;
      LostNothingAdded(raw, taken, pending, c);
      HandedMore(taken, inFlight, emitted, inOrder, [c]);
      WellMadeMore(taken, [c]);
      raw, pending := raw + [c], map[];
      var stopped: bool := *;
      if stopped {
        armed := armed - timer;
      }
      timer := {};
      inFlight, taken := inFlight + [[c]], taken + [[c]];
    }

    method Add(c: Change)
      requires Valid()
      modifies this
      ensures Valid() && raw == old(raw) + [c] && emitted == old(emitted) && inOrder == old(inOrder)
      ensures c.kind == Overflow ==>
        pending == map[] && taken == old(taken) + [[c]] && inFlight == old(inFlight) + [[c]]
      ensures c.kind != Overflow ==>
        pending == old(pending)[c.path := c.kind] && taken == old(taken) && inFlight == old(inFlight)
      // A change waits for the timer that is set, if one is, and does not put it off; an overflow stops it, or comes
      // too late to.
      ensures c.kind != Overflow ==> old(timer) <= timer && armed == old(armed) + timer
      ensures c.kind == Overflow ==> timer == {} && (armed == old(armed) || armed == old(armed) - old(timer))
    {
      hide NothingLost, Handed, AllWellMade, WellMade;
      LostNothingAdded(raw, taken, pending, c);
      if c.kind == Overflow {
        AddOverflow(c);
        return;
      }
      raw := raw + [c];
      pending := pending[c.path := c.kind];
      if timer == {} {
        timer, armed := {nextTimer}, armed + {nextTimer};
        nextTimer := nextTimer + 1;
      }
    }

    /** The critical section of flush. */
    method Take()
      requires Valid()
      modifies this
      ensures Valid() && raw == old(raw) && emitted == old(emitted) && inOrder == old(inOrder) && armed == old(armed)
      ensures pending == map[] && timer == {}
      ensures Took(old(pending), old(taken), old(inFlight), taken, inFlight)
    {
      hide NothingLost, Handed, AllWellMade, WellMade, Lists, Ordered;
      var batch := pending;
      pending := map[];
      timer := {};
      if batch == map[] {
        return;
      }
      var b := MakeBatch(batch);
      BatchIsWellMade(b, batch);
      LostNothingTaken(raw, taken, b, batch);
      HandedMore(taken, inFlight, emitted, inOrder, b);
      WellMadeMore(taken, b);
      inFlight, taken := inFlight + [b], taken + [b];
    }

    /** A timer callback, possibly of a timer stopped long ago. */
    method Fire(t: Timer)
      requires Valid() && t in armed
      modifies this
      ensures Valid() && raw == old(raw) && emitted == old(emitted) && inOrder == old(inOrder)
        && armed == old(armed) - {t}
      ensures pending == map[] && timer == {}
      ensures Took(old(pending), old(taken), old(inFlight), taken, inFlight)
    {
      hide NothingLost, Handed, AllWellMade, Lists, Ordered;
      Take();
      armed := armed - {t};
    }

    /** One Emit call, for any batch in flight: the lock is not held, so any may come first. */
    method Deliver(i: nat)
      requires Valid() && i < |inFlight|
      modifies this
      ensures Valid() && raw == old(raw) && taken == old(taken) && pending == old(pending)
      ensures timer == old(timer) && armed == old(armed)
      ensures emitted == old(emitted) + [old(inFlight)[i]] && inFlight == old(inFlight)[..i] + old(inFlight)[i + 1..]
      ensures inOrder == (old(inOrder) && i == 0)
    {
      hide NothingLost, Handed, AllWellMade;
      HandedOver(taken, inFlight, emitted, inOrder, i);
      inOrder := inOrder && i == 0;
      emitted := emitted + [inFlight[i]];
      inFlight := inFlight[..i] + inFlight[i + 1..];
    }

    /** After a last flush and the last Emit, what the consumer saw in order means what was added. Had two
        Emit calls overtaken each other, it need not: see ReorderedBatchesMayLie. */
    lemma {:induction false} AllDelivered()
      requires Valid() && pending == map[] && inFlight == []
      ensures multiset(emitted) == multiset(taken)
      ensures inOrder ==> ReplayBatches(emitted) == Replay(map[], raw)
      ensures forall b :: b in emitted ==> WellMade(b)
    {
      hide ReplayBatches, Replay, WellMade;
      assert ReplayBatches(taken) + map[] == ReplayBatches(taken);
      assert emitted + [] == emitted;
      forall b | b in emitted ensures b in taken {
        assert b in multiset(emitted);
      }
    }
  }

  /** A batch Emit may get: an overflow by itself, or every path once, deletes first, then by path. */
  ghost predicate WellMade(b: Batch) {
    if exists c :: c in b && c.kind == Overflow then |b| == 1
    else b != [] && Ordered(b) && forall i, j :: 0 <= i < j < |b| ==> b[i].path != b[j].path
  }

  lemma {:induction false} BatchIsWellMade(b: Batch, pending: map<Path, Kind>)
    requires Lists(b, pending) && Ordered(b) && pending != map[]
    ensures WellMade(b)
  {
    hide Less;
    var p :| p in pending;
    assert Change(pending[p], p) in b;
    forall i, j | 0 <= i < j < |b| ensures b[i].path != b[j].path {
      assert b[i] in b && b[j] in b && Before(b[i], b[j]);
      LessIsTotal(b[i].path, b[i].path);
    }
  }

  lemma {:induction false} OverflowTaken(taken: seq<Batch>, c: Change)
    requires c.kind == Overflow
    ensures ReplayBatches(taken + [[c]]) == map[]
    ensures WellMade([c])
  {
    ReplayBatch(taken, [c]);
    ReplayOne(ReplayBatches(taken), [], c);
    assert [] + [c] == [c];
    assert c in [c];
  }

  lemma {:induction false} AddPending(m: map<Path, Kind>, pending: map<Path, Kind>, c: Change)
    ensures m + pending[c.path := c.kind] == (m + pending)[c.path := c.kind]
  {
  }

  /** Emit runs outside the lock, so two batches can overtake each other. The consumer ends up the same
      exactly when they agree on every path both list... */
  lemma {:induction false} OvertakingIsHarmless(
    m: map<Path, Kind>, first: map<Path, Kind>, second: map<Path, Kind>, b: Batch, c: Batch)
    requires Lists(b, first) && Lists(c, second)
    ensures Replay(Replay(m, c), b) == Replay(Replay(m, b), c)
      <==> forall p :: p in first && p in second ==> first[p] == second[p]
  {
    hide Lists, Replay;
    ReplayIsOverride(m, b, first);
    ReplayIsOverride(m, c, second);
    ReplayIsOverride(m + first, c, second);
    ReplayIsOverride(m + second, b, first);
    SwappedOverrides(m, first, second);
  }

  lemma {:induction false} SwappedOverrides(m: map<Path, Kind>, first: map<Path, Kind>, second: map<Path, Kind>)
    ensures m + second + first == m + first + second
      <==> forall p :: p in first && p in second ==> first[p] == second[p]
  {
    var kept, swapped := m + first + second, m + second + first;
    assert forall p :: p in first && p in second ==> kept[p] == second[p] && swapped[p] == first[p];
    assert kept.Keys == swapped.Keys;
  }

  /** ...and never when one of them is an overflow and the other is not empty. */
  lemma {:induction false} OvertakingAnOverflow(
    m: map<Path, Kind>, pending: map<Path, Kind>, b: Batch, overflow: Change)
    requires Lists(b, pending) && pending != map[] && overflow.kind == Overflow
    ensures Replay(Replay(m, [overflow]), b) == pending && Replay(Replay(m, b), [overflow]) == map[]
  {
    hide Lists;
    assert [] + [overflow] == [overflow];
    ReplayOne(m, [], overflow);
    ReplayOne(Replay(m, b), [], overflow);
    ReplayIsOverride(map[], b, pending);
  }

  /** So a file can be deleted while the consumer believes it modified. */
  lemma {:induction false} ReorderedBatchesMayLie(p: Path)
    ensures var first, second := [Change(Modified, p)], [Change(Deleted, p)];
      && p in ReplayBatches([first, second]) && ReplayBatches([first, second])[p] == Deleted
      && p in ReplayBatches([second, first]) && ReplayBatches([second, first])[p] == Modified
  {
    ReplayTwo(Change(Modified, p), Change(Deleted, p));
    ReplayTwo(Change(Deleted, p), Change(Modified, p));
  }

  lemma {:induction false} ReplayTwo(c: Change, d: Change)
    ensures ReplayBatches([[c], [d]]) == Apply(Apply(map[], c), d)
  {
    ReplayBatch([], [c]);
    ReplayBatch([[c]], [d]);
    assert [] + [[c]] == [[c]] && [[c]] + [[d]] == [[c], [d]];
    ReplayOne(map[], [], c);
    ReplayOne(Apply(map[], c), [], d);
    assert [] + [c] == [c] && [] + [d] == [d];
  }
}
