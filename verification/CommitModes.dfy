/** The two ways to commit the same edit, and what a diff makes of either. */
module CommitModes {
  import opened Bytes
  import opened Wrappers
  import opened SavedRegions
  import opened BlockEdit
  import opened BlockDiff
  import Host

  /** The clone once the client has written every changed block into it. */
  ghost function PatchedClone(orig: Bytes, e: Edit, patch: Bytes): Bytes
    requires Fits(e, patch)
  {
    Replay(orig, Writes(e, patch, |e.offs|))
  }

  ghost predicate Reaches(r: Region, size: nat) {
    r.data != [] && r.off + |r.data| >= size
  }

  lemma {:induction false} ReplayReaches(f: Bytes, regs: seq<Region>, size: nat)
    ensures |Replay(f, regs)| >= size <==> |f| >= size || exists i :: 0 <= i < |regs| && Reaches(regs[i], size)
    decreases |regs|
  {
    if regs != [] {
      var next := WriteAt(f, regs[0].data, regs[0].off);
      ReplayReaches(next, regs[1..], size);
      assert forall i :: 0 <= i < |regs[1..]| ==> regs[1..][i] == regs[i + 1];
      if exists i :: 0 <= i < |regs| && Reaches(regs[i], size) {
        var i :| 0 <= i < |regs| && Reaches(regs[i], size);
        assert i > 0 ==> Reaches(regs[1..][i - 1], size);
      }
      if exists i :: 0 <= i < |regs[1..]| && Reaches(regs[1..][i], size) {
        var i :| 0 <= i < |regs[1..]| && Reaches(regs[1..][i], size);
        assert Reaches(regs[i + 1], size);
      }
    }
  }

  /** The edit itself makes the file long enough: no growth is left to the final truncation. */
  ghost predicate CarriesTheEnd(orig: Bytes, e: Edit) {
    e.finalSize <= |orig| || exists j :: 0 <= j < |e.offs| && e.offs[j] < e.finalSize <= e.offs[j] + e.block
  }

  /** The modes agree exactly when the changed blocks reach the final size: then the rename path makes the
      same bytes as the in-place path. Otherwise it finds blocks missing where in place pads with zeros. */
  lemma {:induction false} ModesAgree(orig: Bytes, e: Edit, patch: Bytes)
    requires Fits(e, patch)
    ensures Host.RenameResult(PatchedClone(orig, e, patch), e.finalSize)
         == if CarriesTheEnd(orig, e) then Some(Patched(orig, e, patch)) else None
  {
    hide Replay, Truncate, PatchBlock;
    var w := Writes(e, patch, |e.offs|);
    ReplayReaches(orig, w, e.finalSize);
    forall j | 0 <= j < |e.offs|
      ensures w[j].off == e.offs[j] && |w[j].data| == e.Len(j)
      ensures Reaches(w[j], e.finalSize) ==> e.offs[j] < e.finalSize <= e.offs[j] + e.block
      ensures e.offs[j] < e.finalSize <= e.offs[j] + e.block ==> Reaches(w[j], e.finalSize)
    {
      assert w[j] == PatchBlock(e, patch, j);
    }
  }

  lemma {:induction false} LastBlockDiffers(orig: Bytes, next: Bytes, block: nat)
    requires block > 0 && |next| > |orig|
    ensures Differs(orig, next, block, (|next| - 1) / block)
  {
    var i := (|next| - 1) / block;
    InItsBlock(block, |next| - 1, i);
    assert |Piece(next, block, i)| == |next| - i * block;
    assert |Piece(orig, block, i)| < |next| - i * block;
  }

  /** A diff always carries the end, so a fully patched clone is never found short. */
  lemma {:induction false} DiffCarriesTheEnd(orig: Bytes, next: Bytes, block: nat)
    requires block > 0
    ensures CarriesTheEnd(orig, DiffEdit(orig, next, block))
  {
    hide ChangedBlocks, BlockCount, Piece, Differs;
    if |next| > |orig| {
      var k := |next| - 1;
      var i, n := k / block, BlockCount(|next|, block);
      InItsBlock(block, k, i);
      BlockStarts(|next|, block, i);
      LastBlockDiffers(orig, next, block);
      ChangedIsExact(orig, next, block, n);
      var indices := ChangedBlocks(orig, next, block, n);
      var j :| 0 <= j < |indices| && indices[j] == i;
      assert DiffEdit(orig, next, block).offs[j] == i * block;
    }
  }

  /** Either way, committing a diff leaves exactly the new file. */
  lemma {:induction false} DiffCommitsEitherWay(orig: Bytes, next: Bytes, block: nat)
    requires block > 0
    ensures var e := DiffEdit(orig, next, block);
      var patch := PatchOf(orig, next, block, BlockCount(|next|, block));
      && Fits(e, patch)
      && Patched(orig, e, patch) == next
      && Host.RenameResult(PatchedClone(orig, e, patch), |next|) == Some(next)
  {
    hide ChangedBlocks, PatchOf, BlockCount, Patched, CarriesTheEnd, Fits;
    DiffThenApply(orig, next, block);
    DiffCarriesTheEnd(orig, next, block);
    ModesAgree(orig, DiffEdit(orig, next, block), PatchOf(orig, next, block, BlockCount(|next|, block)));
  }

  /** A commit request made by a diff asks for exactly the new file. */
  lemma {:induction false} DiffRequest(req: Host.Request, orig: Bytes, next: Bytes)
    requires req.block > 0 && req.finalSize == |next|
    requires req.indices == ChangedBlocks(orig, next, req.block, BlockCount(|next|, req.block))
    requires req.patch == PatchOf(orig, next, req.block, BlockCount(|next|, req.block))
    ensures Fits(req.Edit(), req.patch) && req.Result(orig) == next
  {
    hide ChangedBlocks, PatchOf, BlockCount, Patched, Fits;
    DiffThenApply(orig, next, req.block);
  }

  /** An in-place request that stops short of the final size: committed with zeros at the end here, refused
      by the rename path. */
  lemma {:induction false} ModesCanDiffer()
    ensures var e := Edit(1, 1, []);
      Fits(e, []) && Patched([], e, []) == [0] && Host.RenameResult(PatchedClone([], e, []), 1) == None
  {
    var e := Edit(1, 1, []);
    ModesAgree([], e, []);
    assert Zeros(1) == [0];
  }
}
