/** The client's side of a block upload: which blocks changed, and the patch that carries them. */
module BlockDiff {
  import opened Bytes
  import opened BlockEdit

  /** How many blocks a file has, the last one perhaps partial. */
  function BlockCount(size: nat, block: nat): nat
    requires block > 0
  {
    (size + block - 1) / block
  }

  /** The i-th block of a file, empty past its end. */
  function Piece(f: Bytes, block: nat, i: nat): Bytes {
    if i * block >= |f| then [] else f[i * block..Min(i * block + block, |f|)]
  }

  predicate Differs(orig: Bytes, next: Bytes, block: nat, i: nat) {
    Piece(orig, block, i) != Piece(next, block, i)
  }

  /** The indices below n whose blocks differ. */
  function ChangedBlocks(orig: Bytes, next: Bytes, block: nat, n: nat): seq<nat> {
    if n == 0 then []
    else if Differs(orig, next, block, n - 1) then ChangedBlocks(orig, next, block, n - 1) + [n - 1]
    else ChangedBlocks(orig, next, block, n - 1)
  }

  /** Their new bytes, in index order. */
  function PatchOf(orig: Bytes, next: Bytes, block: nat, n: nat): Bytes {
    if n == 0 then []
    else if Differs(orig, next, block, n - 1) then PatchOf(orig, next, block, n - 1) + Piece(next, block, n - 1)
    else PatchOf(orig, next, block, n - 1)
  }

  /** The edit that turns `orig` into `next`. */
  function DiffEdit(orig: Bytes, next: Bytes, block: nat): Edit
    requires block > 0
  {
    EditOf(block, |next|, ChangedBlocks(orig, next, block, BlockCount(|next|, block)))
  }

  /** The loop that builds index list and patch. */
  method Diff(orig: Bytes, next: Bytes, block: nat) returns (indices: seq<nat>, patch: Bytes)
    requires block > 0
    ensures indices == ChangedBlocks(orig, next, block, BlockCount(|next|, block))
    ensures patch == PatchOf(orig, next, block, BlockCount(|next|, block))
    ensures Fits(EditOf(block, |next|, indices), patch) && Patched(orig, EditOf(block, |next|, indices), patch) == next
  {
    hide Patched, PatchLen, Fits, ChangedBlocks, PatchOf, BlockCount, Piece;
    indices, patch := [], [];
    var blocks := BlockCount(|next|, block);
    NoBlock(orig, next, block);
    for i := 0 to blocks
      invariant indices == ChangedBlocks(orig, next, block, i)
      invariant patch == PatchOf(orig, next, block, i)
    {
      OneMoreBlock(orig, next, block, i);
      var off := i * block;
      var nEnd := off + block;
      if nEnd > |next| {
        nEnd := |next|;
      }
      var oEnd := off + block;
      if oEnd > |orig| {
        oEnd := |orig|;
      }
      var ob: Bytes := [];
      if off < |orig| {
        ob := orig[off..oEnd];
      }
      if ob != next[off..nEnd] {
        indices := indices + [i];
        patch := patch + next[off..nEnd];
      }
    }
    DiffThenApply(orig, next, block);
  }

  lemma {:induction false} NoBlock(orig: Bytes, next: Bytes, block: nat)
    ensures ChangedBlocks(orig, next, block, 0) == [] && PatchOf(orig, next, block, 0) == []
  {
  }

  /** One round of the loop: what it reads, and what it adds. */
  lemma {:induction false} OneMoreBlock(orig: Bytes, next: Bytes, block: nat, i: nat)
    requires block > 0 && i < BlockCount(|next|, block)
    ensures var off := i * block;
      && off < |next| && Piece(next, block, i) == next[off..Min(off + block, |next|)]
      && Piece(orig, block, i) == if off < |orig| then orig[off..Min(off + block, |orig|)] else []
    ensures ChangedBlocks(orig, next, block, i + 1) == ChangedBlocks(orig, next, block, i)
      + if Piece(orig, block, i) != Piece(next, block, i) then [i] else []
    ensures PatchOf(orig, next, block, i + 1) == PatchOf(orig, next, block, i)
      + if Piece(orig, block, i) != Piece(next, block, i) then Piece(next, block, i) else []
  {
    BlockStarts(|next|, block, i);
  }

  lemma {:induction false} BlockStarts(size: nat, block: nat, i: nat)
    requires block > 0
    ensures i < BlockCount(size, block) <==> i * block < size
  {
    var n := BlockCount(size, block);
    assert n * block <= size + block - 1 < n * block + block;
    if i < n {
      MulMonotone(i + 1, n, block);
      assert (i + 1) * block == i * block + block;
    } else {
      MulMonotone(n, i, block);
    }
  }

  /** Every position lies in exactly one block. */
  lemma {:induction false} InItsBlock(block: nat, k: nat, i: nat)
    requires block > 0
    ensures i * block <= k < i * block + block <==> i == k / block
  {
    var q := k / block;
    assert q * block <= k < q * block + block;
    if i < q {
      MulMonotone(i + 1, q, block);
      assert (i + 1) * block == i * block + block;
    } else if i > q {
      MulMonotone(q + 1, i, block);
      assert (q + 1) * block == q * block + block;
    }
  }

  lemma {:induction false} ChangedIsExact(orig: Bytes, next: Bytes, block: nat, n: nat)
    ensures Ascending(ChangedBlocks(orig, next, block, n))
    ensures forall i: nat :: i in ChangedBlocks(orig, next, block, n) <==> i < n && Differs(orig, next, block, i)
  {
    hide Differs;
    if n > 0 {
      ChangedIsExact(orig, next, block, n - 1);
      var before := ChangedBlocks(orig, next, block, n - 1);
      assert forall j :: 0 <= j < |before| ==> before[j] in before;
    }
  }

  /** A diff is a list of blocks a commit accepts. */
  lemma {:induction false} DiffIsWellFormed(orig: Bytes, next: Bytes, block: nat)
    requires block > 0
    ensures DiffEdit(orig, next, block).WellFormed()
  {
    var n := BlockCount(|next|, block);
    var indices := ChangedBlocks(orig, next, block, n);
    ChangedIsExact(orig, next, block, n);
    forall j | 0 <= j < |indices| ensures EditOf(block, |next|, indices).offs[j] <= |next| {
      assert indices[j] in indices;
      BlockStarts(|next|, block, indices[j]);
    }
    AscendingIsWellFormed(block, |next|, indices);
  }

  lemma {:induction false} PieceLength(f: Bytes, block: nat, i: nat)
    requires i * block < |f|
    ensures |Piece(f, block, i)| == Min(block, |f| - i * block)
  {
  }

  /** After n blocks, the patch so far is as long as the commit expects of the indices so far. */
  lemma {:induction false} DiffLength(orig: Bytes, next: Bytes, block: nat, n: nat)
    requires block > 0 && n <= BlockCount(|next|, block)
    requires ChangedBlocks(orig, next, block, n) <= ChangedBlocks(orig, next, block, BlockCount(|next|, block))
    ensures |PatchOf(orig, next, block, n)|
         == PatchLen(DiffEdit(orig, next, block), |ChangedBlocks(orig, next, block, n)|)
  {
    hide Piece, Differs;
    if n > 0 {
      DiffLength(orig, next, block, n - 1);
      if Differs(orig, next, block, n - 1) {
        BlockStarts(|next|, block, n - 1);
        PieceLength(next, block, n - 1);
        var e, j := DiffEdit(orig, next, block), |ChangedBlocks(orig, next, block, n)| - 1;
        assert e.offs[j] == (n - 1) * block;
      }
    }
  }

  /** The diff's patch is exactly as long as a commit demands, so a commit takes it. */
  lemma {:induction false} DiffFits(orig: Bytes, next: Bytes, block: nat)
    requires block > 0
    ensures Fits(DiffEdit(orig, next, block), PatchOf(orig, next, block, BlockCount(|next|, block)))
  {
    DiffIsWellFormed(orig, next, block);
    DiffLength(orig, next, block, BlockCount(|next|, block));
  }

  /** Each changed block's new bytes are where the commit reads them. */
  lemma {:induction false} DiffHolds(orig: Bytes, next: Bytes, block: nat, n: nat, j: nat)
    requires block > 0 && n <= BlockCount(|next|, block)
    requires ChangedBlocks(orig, next, block, n) <= ChangedBlocks(orig, next, block, BlockCount(|next|, block))
    requires j < |ChangedBlocks(orig, next, block, n)|
    ensures var e := DiffEdit(orig, next, block);
      var patch := PatchOf(orig, next, block, n);
      && 0 <= PatchLen(e, j) <= PatchLen(e, j) + |Piece(next, block, ChangedBlocks(orig, next, block, n)[j])| <= |patch|
      && patch[PatchLen(e, j)..PatchLen(e, j) + |Piece(next, block, ChangedBlocks(orig, next, block, n)[j])|]
         == Piece(next, block, ChangedBlocks(orig, next, block, n)[j])
  {
    hide Piece, Differs;
    if j < |ChangedBlocks(orig, next, block, n - 1)| {
      DiffHolds(orig, next, block, n - 1, j);
    } else {
      DiffLength(orig, next, block, n - 1);
    }
  }

  lemma {:induction false} SamePieces(orig: Bytes, next: Bytes, block: nat, k: nat)
    requires block > 0 && k < |next| && Piece(orig, block, k / block) == Piece(next, block, k / block)
    ensures At(orig, k) == next[k]
  {
    InItsBlock(block, k, k / block);
    var off := k / block * block;
    assert Piece(next, block, k / block)[k - off] == next[k];
    assert Piece(orig, block, k / block)[k - off] == orig[k];
  }

  /** Diff, then apply: for every pair of files and every block size, committing the changed blocks and the
      new size leaves exactly the new file, whether it grew, shrank or ends inside a block. */
  lemma {:induction false} DiffThenApply(orig: Bytes, next: Bytes, block: nat)
    requires block > 0
    ensures var e := DiffEdit(orig, next, block);
      var patch := PatchOf(orig, next, block, BlockCount(|next|, block));
      Fits(e, patch) && Patched(orig, e, patch) == next
  {
    DiffFits(orig, next, block);
    var e := DiffEdit(orig, next, block);
    var patch := PatchOf(orig, next, block, BlockCount(|next|, block));
    forall k | 0 <= k < |next| ensures Patched(orig, e, patch)[k] == next[k] {
      DiffThenApplyAt(orig, next, block, k);
    }
  }

  lemma {:induction false} DiffThenApplyAt(orig: Bytes, next: Bytes, block: nat, k: nat)
    requires block > 0 && k < |next|
    requires Fits(DiffEdit(orig, next, block), PatchOf(orig, next, block, BlockCount(|next|, block)))
    ensures Patched(orig, DiffEdit(orig, next, block), PatchOf(orig, next, block, BlockCount(|next|, block)))[k]
      == next[k]
  {
    hide PatchLen, Patched, Fits, ChangedBlocks, PatchOf;
    var n := BlockCount(|next|, block);
    var e, indices, patch := DiffEdit(orig, next, block), ChangedBlocks(orig, next, block, n),
      PatchOf(orig, next, block, n);
    var i := k / block;
    ChangedIsExact(orig, next, block, n);
    InItsBlock(block, k, i);
    BlockStarts(|next|, block, i);
    if i in indices {
      var j :| 0 <= j < |indices| && indices[j] == i;
      DiffHolds(orig, next, block, n, j);
      PatchedInBlock(orig, e, patch, j, k);
      var t := k - e.offs[j];
      assert Piece(next, block, i)[t] == next[k];
      assert patch[PatchLen(e, j)..PatchLen(e, j) + |Piece(next, block, i)|][t] == patch[PatchLen(e, j) + t];
    } else {
      forall j: nat ensures !e.Holds(j, k) {
        if j < |indices| {
          assert indices[j] in indices;
          InItsBlock(block, k, indices[j]);
        }
      }
      PatchedElsewhere(orig, e, patch, k);
      SamePieces(orig, next, block, k);
    }
  }
}
