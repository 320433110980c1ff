/** What a set of saved regions can undo, whatever happened to the file in between. */
module SavedRegions {
  import opened Bytes

  /** Old bytes and the offset they came from. */
  datatype Region = Region(off: nat, data: Bytes)

  ghost predicate Covered(regs: seq<Region>, k: nat) {
    exists i :: 0 <= i < |regs| && regs[i].off <= k < regs[i].off + |regs[i].data|
  }

  ghost predicate FaithfulRegion(orig: Bytes, r: Region) {
    r.off + |r.data| <= |orig| && r.data == orig[r.off..r.off + |r.data|]
  }

  /** Every region holds exactly the old file's bytes at its offset, inside the old file. */
  ghost predicate Faithful(orig: Bytes, regs: seq<Region>) {
    forall i :: 0 <= i < |regs| ==> FaithfulRegion(orig, regs[i])
  }

  /** The file may be torn in any way at all, longer or shorter than the old one, as long as each old
      position that no region covers still reads as its old byte (a missing byte reads as zero). */
  ghost predicate Damaged(orig: Bytes, cur: Bytes, regs: seq<Region>) {
    forall k :: 0 <= k < |orig| && !Covered(regs, k) ==> At(cur, k) == orig[k]
  }

  /** Writes the regions back in order, as the rollback loop does. */
  function Replay(f: Bytes, regs: seq<Region>): Bytes
    decreases |regs|
  {
    if regs == [] then f else Replay(WriteAt(f, regs[0].data, regs[0].off), regs[1..])
  }

  /** A whole rollback: all regions, then the old size. */
  function Rollback(f: Bytes, regs: seq<Region>, size: nat): Bytes {
    Truncate(Replay(f, regs), size)
  }

  lemma {:induction false} ReplayAppend(f: Bytes, regs: seq<Region>, r: Region)
    ensures Replay(f, regs + [r]) == WriteAt(Replay(f, regs), r.data, r.off)
    decreases |regs|
  {
    if regs == [] {
      assert (regs + [r])[1..] == [];
    } else {
      assert (regs + [r])[1..] == regs[1..] + [r];
      ReplayAppend(WriteAt(f, regs[0].data, regs[0].off), regs[1..], r);
    }
  }

  lemma {:induction false} CoveredByFirstOrRest(regs: seq<Region>, k: nat)
    requires regs != []
    ensures Covered(regs, k) <==> regs[0].off <= k < regs[0].off + |regs[0].data| || Covered(regs[1..], k)
  {
    assert regs == [regs[0]] + regs[1..];
    if Covered(regs[1..], k) {
      var i :| 0 <= i < |regs[1..]| && regs[1..][i].off <= k < regs[1..][i].off + |regs[1..][i].data|;
      assert regs[i + 1] == regs[1..][i];
    }
  }

  /** What a rollback makes of any file, position by position: the old byte wherever a region covers it,
      and the file's own byte elsewhere. */
  lemma {:induction false} RollbackAt(orig: Bytes, cur: Bytes, regs: seq<Region>, k: nat)
    requires Faithful(orig, regs) && k < |orig|
    ensures Rollback(cur, regs, |orig|)[k] == if Covered(regs, k) then orig[k] else At(cur, k)
  {
    ReplayAt(orig, cur, regs, k);
    AtTruncate(Replay(cur, regs), |orig|, k);
  }

  lemma {:induction false} ReplayAt(orig: Bytes, cur: Bytes, regs: seq<Region>, k: nat)
    requires Faithful(orig, regs) && k < |orig|
    ensures At(Replay(cur, regs), k) == if Covered(regs, k) then orig[k] else At(cur, k)
    decreases |regs|
  {
    if regs != [] {
      CoveredByFirstOrRest(regs, k);
      AtWriteAt(cur, regs[0].data, regs[0].off, k);
      ReplayAt(orig, WriteAt(cur, regs[0].data, regs[0].off), regs[1..], k);
    }
  }

  /** The undo theorem: replaying faithful regions gives back bytes and length exactly when no uncovered
      old byte was lost, whatever else tore the file; zero-filled gaps and overlapping regions included. */
  lemma {:induction false} RollbackRestores(orig: Bytes, cur: Bytes, regs: seq<Region>)
    requires Faithful(orig, regs)
    ensures Rollback(cur, regs, |orig|) == orig <==> Damaged(orig, cur, regs)
  {
    hide Rollback, Replay, Covered;
    RollbackLength(cur, regs, |orig|);
    forall k | 0 <= k < |orig|
      ensures Rollback(cur, regs, |orig|)[k] == if Covered(regs, k) then orig[k] else At(cur, k)
    {
      RollbackAt(orig, cur, regs, k);
    }
  }

  lemma {:induction false} RollbackLength(cur: Bytes, regs: seq<Region>, size: nat)
    ensures |Rollback(cur, regs, size)| == size
  {
  }

  /** A file that was replaced while its journal was pending survives the next rollback exactly when it is
      as long as the old one and agrees with it everywhere the journal saved. */
  lemma {:induction false} ReplacementSurvives(orig: Bytes, next: Bytes, regs: seq<Region>)
    requires Faithful(orig, regs)
    ensures Rollback(next, regs, |orig|) == next
      <==> |next| == |orig| && forall k :: 0 <= k < |orig| && Covered(regs, k) ==> next[k] == orig[k]
  {
    hide Rollback, Replay, Covered;
    RollbackLength(next, regs, |orig|);
    forall k | 0 <= k < |orig|
      ensures Rollback(next, regs, |orig|)[k] == if Covered(regs, k) then orig[k] else At(next, k)
    {
      RollbackAt(orig, next, regs, k);
    }
  }

  /** Writing regions back never touches a position none of them holds. */
  lemma {:induction false} ReplayKeepsUncovered(cur: Bytes, regs: seq<Region>, k: nat)
    requires !Covered(regs, k)
    ensures At(Replay(cur, regs), k) == At(cur, k)
    decreases |regs|
  {
    if regs != [] {
      CoveredByFirstOrRest(regs, k);
      AtWriteAt(cur, regs[0].data, regs[0].off, k);
      ReplayKeepsUncovered(WriteAt(cur, regs[0].data, regs[0].off), regs[1..], k);
    }
  }

  /** The last region that holds a position decides its byte. */
  lemma {:induction false} ReplayHit(cur: Bytes, regs: seq<Region>, i: nat, k: nat)
    requires i < |regs| && regs[i].off <= k < regs[i].off + |regs[i].data|
    requires forall j :: i < j < |regs| ==> !(regs[j].off <= k < regs[j].off + |regs[j].data|)
    ensures At(Replay(cur, regs), k) == regs[i].data[k - regs[i].off]
    decreases i
  {
    var next := WriteAt(cur, regs[0].data, regs[0].off);
    if i > 0 {
      ReplayHit(next, regs[1..], i - 1, k);
    } else {
      AtWriteAt(cur, regs[0].data, regs[0].off, k);
      assert !Covered(regs[1..], k) by {
        assert forall j :: 0 <= j < |regs[1..]| ==> regs[1..][j] == regs[j + 1];
      }
      ReplayKeepsUncovered(next, regs[1..], k);
    }
  }

  lemma {:induction false} Undamaged(orig: Bytes, regs: seq<Region>)
    ensures Damaged(orig, orig, regs)
  {
  }

  /** Any write whose old positions are covered keeps the file restorable, from any torn state; the gap it
      may zero was missing, hence covered. */
  lemma {:induction false} WriteKeepsDamaged(orig: Bytes, cur: Bytes, regs: seq<Region>, data: Bytes, off: nat)
    requires Damaged(orig, cur, regs)
    requires forall k :: off <= k < off + |data| && k < |orig| ==> Covered(regs, k)
    ensures Damaged(orig, WriteAt(cur, data, off), regs)
  {
  }

  /** So does any truncation whose lost old positions are covered. */
  lemma {:induction false} TruncateKeepsDamaged(orig: Bytes, cur: Bytes, regs: seq<Region>, size: nat)
    requires Damaged(orig, cur, regs)
    requires forall k :: size <= k < |orig| ==> Covered(regs, k)
    ensures Damaged(orig, Truncate(cur, size), regs)
  {
  }

  /** A rollback cut short inside region i (its first m bytes written) can be started over. */
  lemma {:induction false} PartialRestoreKeepsDamaged(orig: Bytes, cur: Bytes, regs: seq<Region>, i: nat, m: nat)
    requires Damaged(orig, cur, regs) && i < |regs| && m <= |regs[i].data|
    ensures Damaged(orig, WriteAt(cur, regs[i].data[..m], regs[i].off), regs)
  {
    WriteKeepsDamaged(orig, cur, regs, regs[i].data[..m], regs[i].off);
  }

  /** Writing any leading part of a saved region over the untouched file changes nothing. */
  lemma {:induction false} RestoreOverOld(orig: Bytes, r: Region, m: nat)
    requires FaithfulRegion(orig, r) && m <= |r.data|
    ensures WriteAt(orig, r.data[..m], r.off) == orig
  {
  }

  /** Something a rollback did before it was cut short. */
  datatype Attempt = WroteBack(i: nat, m: nat) | CutToOld

  ghost predicate Possible(regs: seq<Region>, a: Attempt) {
    a.WroteBack? ==> a.i < |regs| && a.m <= |regs[a.i].data|
  }

  /** The file after any number of interrupted rollbacks, each part of each in any order. */
  ghost function AfterAttempts(orig: Bytes, cur: Bytes, regs: seq<Region>, attempts: seq<Attempt>): Bytes
    requires forall a :: a in attempts ==> Possible(regs, a)
    decreases |attempts|
  {
    if attempts == [] then cur
    else
      var before := AfterAttempts(orig, cur, regs, attempts[..|attempts| - 1]);
      assert Possible(regs, attempts[|attempts| - 1]) by { assert attempts[|attempts| - 1] in attempts; }
      match attempts[|attempts| - 1]
      case WroteBack(i, m) =>
        WriteAt(before, regs[i].data[..m], regs[i].off)
      case CutToOld => Truncate(before, |orig|)
  }

  /** Recovery is restartable: interrupted anywhere, any number of times, it still ends in the old file. */
  lemma {:induction false} RollbackRestartable(orig: Bytes, cur: Bytes, regs: seq<Region>, attempts: seq<Attempt>)
    requires Faithful(orig, regs) && Damaged(orig, cur, regs)
    requires forall a :: a in attempts ==> Possible(regs, a)
    ensures Rollback(AfterAttempts(orig, cur, regs, attempts), regs, |orig|) == orig
  {
    AttemptsKeepDamaged(orig, cur, regs, attempts);
    RollbackRestores(orig, AfterAttempts(orig, cur, regs, attempts), regs);
  }

  lemma {:induction false} AttemptsKeepDamaged(orig: Bytes, cur: Bytes, regs: seq<Region>, attempts: seq<Attempt>)
    requires Damaged(orig, cur, regs)
    requires forall a :: a in attempts ==> Possible(regs, a)
    ensures Damaged(orig, AfterAttempts(orig, cur, regs, attempts), regs)
    decreases |attempts|
  {
    hide Damaged, WriteAt, Truncate;
    if attempts != [] {
      var before := AfterAttempts(orig, cur, regs, attempts[..|attempts| - 1]);
      AttemptsKeepDamaged(orig, cur, regs, attempts[..|attempts| - 1]);
      match attempts[|attempts| - 1]
      case WroteBack(i, m) =>
        assert attempts[|attempts| - 1] in attempts;
        PartialRestoreKeepsDamaged(orig, before, regs, i, m);
      case CutToOld => TruncateKeepsDamaged(orig, before, regs, |orig|);
    }
  }
}
