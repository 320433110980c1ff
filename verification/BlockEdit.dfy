/** An edit by blocks: which bytes a patch holds, what applying it makes of a file, and which old bytes
    have to be saved first. */
module BlockEdit {
  import opened Bytes
  import opened SavedRegions

  /** Where each changed block of a file starts that will end up `finalSize` long. */
  datatype Edit = Edit(block: nat, finalSize: nat, offs: seq<nat>) {
    /** How many bytes the patch has for the j-th changed block: the file's last block may be partial. */
    function Len(j: nat): int
      requires j < |offs|
    {
      Min(block, finalSize - offs[j])
    }

    /** Whole blocks apart, in order, none past the final end. */
    ghost predicate WellFormed() {
      && block > 0
      && (forall i, j :: 0 <= i < j < |offs| ==> offs[i] + block <= offs[j])
      && (forall j :: 0 <= j < |offs| ==> offs[j] <= finalSize)
    }

    /** Position k lies in the j-th changed block. */
    ghost predicate Holds(j: nat, k: nat) {
      j < |offs| && offs[j] <= k < offs[j] + block
    }
  }

  /** The offsets the code computes from ascending block indices. */
  function EditOf(block: nat, finalSize: nat, indices: seq<nat>): (e: Edit)
    ensures |e.offs| == |indices|
  {
    Edit(block, finalSize, seq(|indices|, j requires 0 <= j < |indices| => indices[j] * block))
  }

  ghost predicate Ascending(indices: seq<nat>) {
    forall i, j :: 0 <= i < j < |indices| ==> indices[i] < indices[j]
  }

  /** Ascending indices whose blocks start within the final size make a well-formed edit. */
  lemma {:induction false} AscendingIsWellFormed(block: nat, finalSize: nat, indices: seq<nat>)
    requires block > 0 && Ascending(indices)
    requires forall j :: 0 <= j < |indices| ==> EditOf(block, finalSize, indices).offs[j] <= finalSize
    ensures EditOf(block, finalSize, indices).WellFormed()
  {
    forall i, j | 0 <= i < j < |indices| ensures indices[i] * block + block <= indices[j] * block {
      MulMonotone(indices[i] + 1, indices[j], block);
    }
  }

  /** Bytes the patch has for the first n changed blocks. */
  function PatchLen(e: Edit, n: nat): int
    requires n <= |e.offs|
  {
    if n == 0 then 0 else PatchLen(e, n - 1) + e.Len(n - 1)
  }

  lemma {:induction false} OffsetIsAtLeastPosition(e: Edit, j: nat)
    requires e.WellFormed() && j < |e.offs|
    ensures j * e.block <= e.offs[j]
  {
    if j > 0 {
      OffsetIsAtLeastPosition(e, j - 1);
      assert j * e.block == (j - 1) * e.block + e.block;
    }
  }

  /** Patch accounting: block lengths are in [0, block], every block but the last is whole, so the j-th
      changed block sits at j*block in the patch, and the patch is no longer than the final file. */
  lemma {:induction false} PatchLayout(e: Edit, n: nat)
    requires e.WellFormed() && n <= |e.offs|
    ensures forall j :: 0 <= j < |e.offs| ==> 0 <= e.Len(j) <= e.block
    ensures n < |e.offs| ==> PatchLen(e, n) == n * e.block
    ensures 0 <= PatchLen(e, n) <= n * e.block
    ensures PatchLen(e, n) <= e.finalSize
  {
    if n > 0 {
      PatchLayout(e, n - 1);
      assert n * e.block == (n - 1) * e.block + e.block;
      OffsetIsAtLeastPosition(e, n - 1);
      assert n < |e.offs| ==> e.offs[n - 1] + e.block <= e.offs[n] <= e.finalSize;
    }
  }

  // ----- applying

  /** A patch that goes with this edit. */
  ghost predicate Fits(e: Edit, patch: Bytes) {
    e.WellFormed() && |patch| == PatchLen(e, |e.offs|)
  }

  /** The j-th changed block's new bytes, which follow those of the blocks before it. */
  function PatchBlock(e: Edit, patch: Bytes, j: nat): (r: Region)
    requires Fits(e, patch) && j < |e.offs|
    ensures r.off == e.offs[j] && |r.data| == e.Len(j)
  {
    PatchHasBlock(e, patch, j);
    Region(e.offs[j], patch[PatchLen(e, j)..PatchLen(e, j + 1)])
  }

  lemma {:induction false} PatchHasBlock(e: Edit, patch: Bytes, j: nat)
    requires Fits(e, patch) && j < |e.offs|
    ensures 0 <= PatchLen(e, j) <= PatchLen(e, j + 1) <= |patch|
  {
    PatchLayout(e, j);
    PatchLenMonotone(e, j, j + 1);
    PatchLenMonotone(e, j + 1, |e.offs|);
  }

  lemma {:induction false} PatchLenMonotone(e: Edit, m: nat, n: nat)
    requires e.WellFormed() && m <= n <= |e.offs|
    ensures PatchLen(e, m) <= PatchLen(e, n)
    decreases n
  {
    if m < n {
      PatchLenMonotone(e, m, n - 1);
      assert e.Len(n - 1) >= 0;
    }
  }

  /** The first n writes of the apply loop. */
  function Writes(e: Edit, patch: Bytes, n: nat): (w: seq<Region>)
    requires Fits(e, patch) && n <= |e.offs|
    ensures |w| == n && forall j :: 0 <= j < n ==> w[j] == PatchBlock(e, patch, j)
  {
    if n == 0 then [] else Writes(e, patch, n - 1) + [PatchBlock(e, patch, n - 1)]
  }

  /** The file a commit of this edit is meant to leave. */
  function Patched(f: Bytes, e: Edit, patch: Bytes): (g: Bytes)
    requires Fits(e, patch)
    ensures |g| == e.finalSize
  {
    Truncate(Replay(f, Writes(e, patch, |e.offs|)), e.finalSize)
  }

  lemma {:induction false} PatchBlockAt(e: Edit, patch: Bytes, j: nat, i: nat)
    requires Fits(e, patch) && j < |e.offs| && i < e.Len(j)
    ensures 0 <= PatchLen(e, j) + i < |patch| && PatchBlock(e, patch, j).data[i] == patch[PatchLen(e, j) + i]
  {
    PatchHasBlock(e, patch, j);
  }

  lemma {:induction false} LastWriteWins(f: Bytes, w: seq<Region>, size: nat, j: nat, k: nat)
    requires k < size && j < |w| && w[j].off <= k < w[j].off + |w[j].data|
    requires forall i :: j < i < |w| ==> k < w[i].off
    ensures Truncate(Replay(f, w), size)[k] == w[j].data[k - w[j].off]
  {
    ReplayHit(f, w, j, k);
    AtTruncate(Replay(f, w), size, k);
  }

  /** What a commit leaves, position by position. A position in a changed block shows the patch's byte for
      it, wherever the other blocks are... */
  lemma {:induction false} PatchedInBlock(f: Bytes, e: Edit, patch: Bytes, j: nat, k: nat)
    requires Fits(e, patch) && k < e.finalSize && e.Holds(j, k)
    ensures 0 <= PatchLen(e, j) + (k - e.offs[j]) < |patch|
    ensures Patched(f, e, patch)[k] == patch[PatchLen(e, j) + (k - e.offs[j])]
  {
    hide PatchBlock, Truncate, Replay;
    PatchBlockAt(e, patch, j, k - e.offs[j]);
    LastWriteWins(f, Writes(e, patch, |e.offs|), e.finalSize, j, k);
  }

  /** ...and every other position shows its old byte, or zero past the old end. */
  lemma {:induction false} PatchedElsewhere(f: Bytes, e: Edit, patch: Bytes, k: nat)
    requires Fits(e, patch) && k < e.finalSize && forall j: nat :: !e.Holds(j, k)
    ensures Patched(f, e, patch)[k] == At(f, k)
  {
    var w := Writes(e, patch, |e.offs|);
    forall j | 0 <= j < |w| ensures !(w[j].off <= k < w[j].off + |w[j].data|) {
      assert !e.Holds(j, k);
    }
    ReplayKeepsUncovered(f, w, k);
    AtTruncate(Replay(f, w), e.finalSize, k);
  }

  // ----- what has to be saved

  function SavedBlocks(f: Bytes, e: Edit, n: nat): seq<Region>
    requires n <= |e.offs|
  {
    if n == 0 then []
    else if e.offs[n - 1] >= |f| then SavedBlocks(f, e, n - 1)
    else SavedBlocks(f, e, n - 1) + [OldBlock(f, e, n - 1)]
  }

  /** A changed block's overlap with the old file. */
  function OldBlock(f: Bytes, e: Edit, j: nat): Region
    requires j < |e.offs| && e.offs[j] < |f|
  {
    Region(e.offs[j], f[e.offs[j]..e.offs[j] + Min(e.block, |f| - e.offs[j])])
  }

  /** Every region the journal saves: the changed blocks, and the tail a shrinking edit cuts off. */
  function Saved(f: Bytes, e: Edit): seq<Region> {
    SavedBlocks(f, e, |e.offs|) + if e.finalSize < |f| then [Region(e.finalSize, f[e.finalSize..])] else []
  }

  lemma {:induction false} CoveredAppend(regs: seq<Region>, r: Region, k: nat)
    ensures Covered(regs + [r], k) <==> Covered(regs, k) || r.off <= k < r.off + |r.data|
  {
    var all := regs + [r];
    assert all[|regs|] == r;
    if Covered(regs, k) {
      var i :| 0 <= i < |regs| && regs[i].off <= k < regs[i].off + |regs[i].data|;
      assert all[i] == regs[i];
    }
  }

  lemma {:induction false} SavedBlocksCover(f: Bytes, e: Edit, n: nat, k: nat)
    requires n <= |e.offs| && k < |f|
    ensures Covered(SavedBlocks(f, e, n), k) <==> exists j: nat :: j < n && e.Holds(j, k)
  {
    if n > 0 {
      SavedBlocksCover(f, e, n - 1, k);
      if e.offs[n - 1] < |f| {
        CoveredAppend(SavedBlocks(f, e, n - 1), OldBlock(f, e, n - 1), k);
      }
      assert (exists j: nat :: j < n && e.Holds(j, k))
        <==> (exists j: nat :: j < n - 1 && e.Holds(j, k)) || e.Holds(n - 1, k);
    }
  }

  /** Coverage, both ways: the saved regions contain an old position exactly when the apply may overwrite
      it or the truncation cuts it off. */
  lemma {:induction false} SavedCovers(f: Bytes, e: Edit, k: nat)
    requires k < |f|
    ensures Covered(Saved(f, e), k) <==> k >= e.finalSize || exists j: nat :: e.Holds(j, k)
  {
    SavedBlocksCover(f, e, |e.offs|, k);
    if e.finalSize < |f| {
      CoveredAppend(SavedBlocks(f, e, |e.offs|), Region(e.finalSize, f[e.finalSize..]), k);
    } else {
      assert Saved(f, e) == SavedBlocks(f, e, |e.offs|);
    }
  }

  lemma {:induction false} SavedBlocksAreFaithful(f: Bytes, e: Edit, n: nat)
    requires n <= |e.offs|
    ensures Faithful(f, SavedBlocks(f, e, n))
    ensures |SavedBlocks(f, e, n)| <= n
  {
    if n > 0 { SavedBlocksAreFaithful(f, e, n - 1); }
  }

  lemma {:induction false} SavedIsFaithful(f: Bytes, e: Edit)
    ensures Faithful(f, Saved(f, e))
    ensures |Saved(f, e)| <= |e.offs| + 1
  {
    SavedBlocksAreFaithful(f, e, |e.offs|);
  }

  function TotalData(regs: seq<Region>): nat {
    if regs == [] then 0 else TotalData(regs[..|regs| - 1]) + |regs[|regs| - 1].data|
  }

  lemma {:induction false} TotalDataAppend(regs: seq<Region>, r: Region)
    ensures TotalData(regs + [r]) == TotalData(regs) + |r.data|
  {
    assert (regs + [r])[..|regs|] == regs;
  }

  lemma {:induction false} OldBlockSize(f: Bytes, e: Edit, n: nat)
    requires n < |e.offs|
    ensures TotalData(SavedBlocks(f, e, n + 1))
         <= TotalData(SavedBlocks(f, e, n)) + if e.offs[n] < |f| then Min(e.block, |f| - e.offs[n]) else 0
  {
    if e.offs[n] < |f| {
      TotalDataAppend(SavedBlocks(f, e, n), OldBlock(f, e, n));
    }
  }

  lemma {:induction false} SavedBlocksSize(f: Bytes, e: Edit, n: nat)
    requires e.WellFormed() && n < |e.offs|
    ensures TotalData(SavedBlocks(f, e, n + 1)) <= Min(|f|, e.offs[n] + e.block)
  {
    var before := TotalData(SavedBlocks(f, e, n));
    assert before <= Min(|f|, e.offs[n]) by {
      if n > 0 {
        SavedBlocksSize(f, e, n - 1);
      }
    }
    OldBlockSize(f, e, n);
  }

  lemma {:induction false} AllSavedBlocksSize(f: Bytes, e: Edit)
    requires e.WellFormed()
    ensures TotalData(SavedBlocks(f, e, |e.offs|)) <= Min(|f|, e.finalSize + e.block)
  {
    if |e.offs| > 0 {
      SavedBlocksSize(f, e, |e.offs| - 1);
    }
  }

  /** The journal's data never exceeds the old file by more than one block: only the block the new end
      falls into can be saved twice. */
  lemma {:induction false} SavedSize(f: Bytes, e: Edit)
    requires e.WellFormed()
    ensures TotalData(Saved(f, e)) <= |f| + e.block
  {
    hide SavedBlocks, TotalData, Edit.WellFormed;
    var regs := SavedBlocks(f, e, |e.offs|);
    AllSavedBlocksSize(f, e);
    if e.finalSize < |f| {
      TotalDataAppend(regs, Region(e.finalSize, f[e.finalSize..]));
    } else {
      assert Saved(f, e) == regs;
    }
  }

  /** Any torn apply can be undone: however many blocks are written, and however little of the next one... */
  lemma {:induction false} TornApplyIsDamaged(f: Bytes, e: Edit, cur: Bytes, j: nat, data: Bytes)
    requires Damaged(f, cur, Saved(f, e)) && j < |e.offs| && |data| <= e.block
    ensures Damaged(f, WriteAt(cur, data, e.offs[j]), Saved(f, e))
  {
    forall k: nat | e.offs[j] <= k < e.offs[j] + |data| && k < |f| ensures Covered(Saved(f, e), k) {
      assert e.Holds(j, k);
      SavedCovers(f, e, k);
    }
    WriteKeepsDamaged(f, cur, Saved(f, e), data, e.offs[j]);
  }

  /** ...and whether or not the file was cut already. */
  lemma {:induction false} CutIsDamaged(f: Bytes, e: Edit, cur: Bytes)
    requires Damaged(f, cur, Saved(f, e))
    ensures Damaged(f, Truncate(cur, e.finalSize), Saved(f, e))
  {
    forall k: nat | e.finalSize <= k < |f| ensures Covered(Saved(f, e), k) {
      SavedCovers(f, e, k);
    }
    TruncateKeepsDamaged(f, cur, Saved(f, e), e.finalSize);
  }

  /** The file when an apply stops after n whole blocks and m bytes of the next, cut to the final size
      already or not. */
  ghost function Stopped(f: Bytes, e: Edit, patch: Bytes, n: nat, m: nat, cut: bool): Bytes
    requires Fits(e, patch) && n <= |e.offs| && (n < |e.offs| ==> m <= e.Len(n))
  {
    var whole := Replay(f, Writes(e, patch, n));
    var torn := if n < |e.offs| then WriteAt(whole, PatchBlock(e, patch, n).data[..m], e.offs[n]) else whole;
    if cut then Truncate(torn, e.finalSize) else torn
  }

  /** A crash anywhere in the apply: replaying the saved regions gives back exactly the old file, whether
      the edit grows, shrinks or keeps it. */
  lemma {:induction false} CrashIsUndone(f: Bytes, e: Edit, patch: Bytes, n: nat, m: nat, cut: bool)
    requires Fits(e, patch) && n <= |e.offs| && (n < |e.offs| ==> m <= e.Len(n))
    ensures Rollback(Stopped(f, e, patch, n, m, cut), Saved(f, e), |f|) == f
    ensures Damaged(f, Stopped(f, e, patch, n, m, cut), Saved(f, e))
  {
    hide Replay, WriteAt, Truncate, Saved, Damaged, PatchBlock, Writes, Rollback;
    SavedIsFaithful(f, e);
    ApplyingIsDamaged(f, e, patch, n);
    var whole := Replay(f, Writes(e, patch, n));
    if n < |e.offs| {
      TornApplyIsDamaged(f, e, whole, n, PatchBlock(e, patch, n).data[..m]);
    }
    CutIsDamaged(f, e, if n < |e.offs| then WriteAt(whole, PatchBlock(e, patch, n).data[..m], e.offs[n]) else whole);
    RollbackRestores(f, Stopped(f, e, patch, n, m, cut), Saved(f, e));
  }

  lemma {:induction false} ApplyingIsDamaged(f: Bytes, e: Edit, patch: Bytes, n: nat)
    requires Fits(e, patch) && n <= |e.offs|
    ensures Damaged(f, Replay(f, Writes(e, patch, n)), Saved(f, e))
  {
    hide WriteAt, Saved, Damaged, PatchBlock;
    if n == 0 {
      Undamaged(f, Saved(f, e));
    } else {
      ApplyingIsDamaged(f, e, patch, n - 1);
      ReplayAppend(f, Writes(e, patch, n - 1), PatchBlock(e, patch, n - 1));
      TornApplyIsDamaged(f, e, Replay(f, Writes(e, patch, n - 1)), n - 1, PatchBlock(e, patch, n - 1).data);
    }
  }

  // ----- a sweep that runs in the middle of an apply

  /** What a commit leaves if its journal is rolled back and removed under it between the n-th write and the next:
      it goes on with the writes that are left. */
  ghost function SweptUnder(f: Bytes, e: Edit, patch: Bytes, n: nat): Bytes
    requires Fits(e, patch) && n <= |e.offs|
  {
    Truncate(Replay(Rollback(Stopped(f, e, patch, n, 0, false), Saved(f, e), |f|),
                    Writes(e, patch, |e.offs|)[n..]), e.finalSize)
  }

  /** That is what was asked for if and only if the writes already made changed nothing. */
  lemma {:induction false} SweepUnderApply(f: Bytes, e: Edit, patch: Bytes, n: nat)
    requires Fits(e, patch) && n <= |e.offs|
    ensures SweptUnder(f, e, patch, n) == Patched(f, e, patch)
      <==> forall j: nat, k: nat :: j < n && k < e.finalSize && e.Holds(j, k) ==> Patched(f, e, patch)[k] == At(f, k)
  {
    hide Patched, Fits, PatchLen, At, SweptUnder;
    var left, asked := SweptUnder(f, e, patch, n), Patched(f, e, patch);
    SweptUnderLength(f, e, patch, n);
    forall k: nat | k < e.finalSize
      ensures left[k] == asked[k] || left[k] == At(f, k)
      ensures (forall j: nat :: j < n ==> !e.Holds(j, k)) ==> left[k] == asked[k]
      ensures (exists j: nat :: j < n && e.Holds(j, k)) ==> left[k] == At(f, k)
    {
      SweptUnderAt(f, e, patch, n, k);
    }
  }

  lemma {:induction false} SweptUnderLength(f: Bytes, e: Edit, patch: Bytes, n: nat)
    requires Fits(e, patch) && n <= |e.offs|
    ensures |SweptUnder(f, e, patch, n)| == e.finalSize
  {
  }

  /** The sweep takes everything back, so only the writes that were left count. */
  lemma {:induction false} SweptUnderIs(f: Bytes, e: Edit, patch: Bytes, n: nat)
    requires Fits(e, patch) && n <= |e.offs|
    ensures SweptUnder(f, e, patch, n) == Truncate(Replay(f, Writes(e, patch, |e.offs|)[n..]), e.finalSize)
  {
    hide Replay, Truncate, Saved, Stopped, Rollback, PatchBlock, Writes;
    CrashIsUndone(f, e, patch, n, 0, false);
  }

  lemma {:induction false} SweptUnderAt(f: Bytes, e: Edit, patch: Bytes, n: nat, k: nat)
    requires Fits(e, patch) && n <= |e.offs| && k < e.finalSize
    ensures |SweptUnder(f, e, patch, n)| == e.finalSize
    ensures SweptUnder(f, e, patch, n)[k] ==
      if exists j: nat :: j < n && e.Holds(j, k) then At(f, k) else Patched(f, e, patch)[k]
  {
    hide SweptUnder, At, Fits, Patched;
    SweptUnderLength(f, e, patch, n);
    if j: nat :| n <= j && e.Holds(j, k) {
      SweptUnderHit(f, e, patch, n, j, k);
    } else {
      SweptUnderMiss(f, e, patch, n, k);
      if !exists j: nat :: j < n && e.Holds(j, k) {
        PatchedElsewhere(f, e, patch, k);
      }
    }
  }

  lemma {:induction false} SweptUnderHit(f: Bytes, e: Edit, patch: Bytes, n: nat, j: nat, k: nat)
    requires Fits(e, patch) && n <= j && e.Holds(j, k) && k < e.finalSize
    ensures |SweptUnder(f, e, patch, n)| == e.finalSize && forall i: nat :: i < n ==> !e.Holds(i, k)
    ensures SweptUnder(f, e, patch, n)[k] == Patched(f, e, patch)[k]
  {
    hide Replay, Truncate, PatchBlock, SweptUnder;
    SweptUnderIs(f, e, patch, n);
    SweptUnderLength(f, e, patch, n);
    var w := Writes(e, patch, |e.offs|);
    LastWriteWins(f, w[n..], e.finalSize, j - n, k);
    LastWriteWins(f, w, e.finalSize, j, k);
  }

  lemma {:induction false} SweptUnderMiss(f: Bytes, e: Edit, patch: Bytes, n: nat, k: nat)
    requires Fits(e, patch) && n <= |e.offs| && k < e.finalSize && forall j: nat :: n <= j ==> !e.Holds(j, k)
    ensures |SweptUnder(f, e, patch, n)| == e.finalSize && SweptUnder(f, e, patch, n)[k] == At(f, k)
  {
    hide Replay, Truncate, PatchBlock, SweptUnder;
    SweptUnderIs(f, e, patch, n);
    SweptUnderLength(f, e, patch, n);
    var rest := Writes(e, patch, |e.offs|)[n..];
    forall i | 0 <= i < |rest| ensures !(rest[i].off <= k < rest[i].off + |rest[i].data|) {
      assert !e.Holds(i + n, k);
    }
    ReplayKeepsUncovered(f, rest, k);
    AtTruncate(Replay(f, rest), e.finalSize, k);
  }

  // ----- a commit that does not see a pending journal

  /** It edits the torn file. The result is what was asked for exactly when nothing it leaves alone was torn. */
  lemma {:induction false} BlindCommitNow(orig: Bytes, cur: Bytes, e: Edit, patch: Bytes)
    requires Fits(e, patch)
    ensures Patched(cur, e, patch) == Patched(orig, e, patch)
      <==> forall k: nat :: k < e.finalSize && (forall j: nat :: !e.Holds(j, k)) ==> At(cur, k) == At(orig, k)
  {
    hide Patched, At, Fits, PatchLen;
    forall k: nat | k < e.finalSize
      ensures (exists j: nat :: e.Holds(j, k)) ==> Patched(cur, e, patch)[k] == Patched(orig, e, patch)[k]
      ensures (forall j: nat :: !e.Holds(j, k)) ==>
        Patched(cur, e, patch)[k] == At(cur, k) && Patched(orig, e, patch)[k] == At(orig, k)
    {
      BlindCommitAt(orig, cur, e, patch, k);
    }
    if Patched(cur, e, patch) == Patched(orig, e, patch) {
    } else {
      var k :| 0 <= k < e.finalSize && Patched(cur, e, patch)[k] != Patched(orig, e, patch)[k];
    }
  }

  lemma {:induction false} BlindCommitAt(orig: Bytes, cur: Bytes, e: Edit, patch: Bytes, k: nat)
    requires Fits(e, patch) && k < e.finalSize
    ensures (exists j: nat :: e.Holds(j, k)) ==> Patched(cur, e, patch)[k] == Patched(orig, e, patch)[k]
    ensures (forall j: nat :: !e.Holds(j, k)) ==>
      Patched(cur, e, patch)[k] == At(cur, k) && Patched(orig, e, patch)[k] == At(orig, k)
  {
    hide Patched, At, Fits, PatchLen;
    if j: nat :| e.Holds(j, k) {
      PatchedInBlock(cur, e, patch, j, k);
      PatchedInBlock(orig, e, patch, j, k);
    } else {
      PatchedElsewhere(cur, e, patch, k);
      PatchedElsewhere(orig, e, patch, k);
    }
  }

  /** The next recovery rolls the unseen journal back over it. That leaves what was asked for if and only if the
      commit keeps the size and changes nothing the journal had saved. */
  lemma {:induction false} BlindCommitEnds(orig: Bytes, cur: Bytes, regs: seq<Region>, e: Edit, patch: Bytes)
    requires Faithful(orig, regs) && Damaged(orig, cur, regs) && Fits(e, patch)
    ensures Rollback(Patched(cur, e, patch), regs, |orig|) == Patched(orig, e, patch)
      <==> e.finalSize == |orig| && forall k :: 0 <= k < |orig| && Covered(regs, k) ==>
        Patched(orig, e, patch)[k] == orig[k]
  {
    hide Patched, Fits, PatchLen, Rollback, Covered, Faithful;
    var now, asked := Patched(cur, e, patch), Patched(orig, e, patch);
    RollbackLength(now, regs, |orig|);
    if e.finalSize == |orig| {
      forall k: nat | k < |orig|
        ensures Rollback(now, regs, |orig|)[k] == if Covered(regs, k) then orig[k] else asked[k]
      {
        RollbackAt(orig, now, regs, k);
        BlindCommitAt(orig, cur, e, patch, k);
      }
    }
  }

  /** Blocks 0 and 1 of 1 1 1 become 2 2, and the process dies before the journal is gone. A commit of 9 9 to
      blocks 1 and 2 that cannot see the journal reports success over 2 9 9; the next recovery makes it 1 1 9. */
  lemma {:induction false} BlindCommitSpoils()
    ensures var orig, first, second := [1, 1, 1], Edit(1, 3, [0, 1]), Edit(1, 3, [1, 2]);
      && Fits(first, [2, 2]) && Fits(second, [9, 9])
      && Stopped(orig, first, [2, 2], 2, 0, false) == [2, 2, 1]
      && Patched([2, 2, 1], second, [9, 9]) == [2, 9, 9]
      && Rollback([2, 9, 9], Saved(orig, first), 3) == [1, 1, 9]
      && Patched(orig, second, [9, 9]) == [1, 9, 9]
  {
    var orig: Bytes, first, second := [1, 1, 1], Edit(1, 3, [0, 1]), Edit(1, 3, [1, 2]);
    hide Edit.WellFormed, Fits, Patched, Stopped, Saved, SavedBlocks, Writes, PatchBlock, Replay, WriteAt, PatchLen;
    EditOfTwo(orig, first, [2, 2]);
    EditOfTwo(orig, second, [9, 9]);
    EditOfTwo([2, 2, 1], second, [9, 9]);
    RollbackOfTwo(orig, first, [2, 9, 9]);
    SetThree(1, 1, 1, 2, 2, 9);
    SetThree(2, 2, 1, 9, 9, 9);
    SetThree(2, 9, 9, 1, 1, 1);
    SetThree(1, 1, 1, 1, 9, 9);
  }

  lemma {:induction false} SetThree(a: byte, b: byte, c: byte, x: byte, y: byte, z: byte)
    ensures var f: Bytes := [a, b, c];
      f[0 := x][1 := y] == [x, y, c] && f[1 := y][2 := z] == [a, y, z]
  {
  }

  lemma {:induction false} WriteOne(f: Bytes, b: byte, k: nat)
    requires k < |f|
    ensures WriteAt(f, [b], k) == f[k := b]
  {
  }

  lemma {:induction false} ReplayTwo(f: Bytes, r: Region, s: Region, b: byte, c: byte)
    requires r.data == [b] && s.data == [c] && r.off < |f| && s.off < |f|
    ensures Replay(f, [r, s]) == f[r.off := b][s.off := c]
  {
    hide WriteAt;
    WriteOne(f, b, r.off);
    WriteOne(f[r.off := b], c, s.off);
    assert [r] + [s] == [r, s] && [r][1..] == [];
    ReplayAppend(f, [r], s);
  }

  lemma {:induction false} RollbackOfTwo(f: Bytes, e: Edit, cur: Bytes)
    requires e.block == 1 && |f| == |cur| == e.finalSize == 3 && |e.offs| == 2 && e.offs[0] < e.offs[1] < 3
    ensures Rollback(cur, Saved(f, e), 3) == cur[e.offs[0] := f[e.offs[0]]][e.offs[1] := f[e.offs[1]]]
  {
    hide Replay, WriteAt;
    assert OldBlock(f, e, 0).data == [f[e.offs[0]]] && OldBlock(f, e, 1).data == [f[e.offs[1]]];
    assert SavedBlocks(f, e, 0) == [];
    assert SavedBlocks(f, e, 1) == [OldBlock(f, e, 0)];
    assert SavedBlocks(f, e, 2) == [OldBlock(f, e, 0), OldBlock(f, e, 1)];
    assert Saved(f, e) == [OldBlock(f, e, 0), OldBlock(f, e, 1)];
    ReplayTwo(cur, OldBlock(f, e, 0), OldBlock(f, e, 1), f[e.offs[0]], f[e.offs[1]]);
  }

  lemma {:induction false} EditOfTwo(f: Bytes, e: Edit, patch: Bytes)
    requires e.block == 1 && |f| == e.finalSize == 3 && |e.offs| == 2 && e.offs[0] < e.offs[1] < 3 && |patch| == 2
    ensures Fits(e, patch)
    ensures Patched(f, e, patch) == Stopped(f, e, patch, 2, 0, false) == f[e.offs[0] := patch[0]][e.offs[1] := patch[1]]
  {
    hide Replay, WriteAt;
    assert PatchLen(e, 0) == 0 && PatchLen(e, 1) == 1 && PatchLen(e, 2) == 2;
    var r, s := PatchBlock(e, patch, 0), PatchBlock(e, patch, 1);
    assert r.data == [patch[0]] && s.data == [patch[1]];
    assert Writes(e, patch, 2) == [r, s];
    ReplayTwo(f, r, s, patch[0], patch[1]);
  }
}
