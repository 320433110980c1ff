/** The host's digests of a file that others may be writing to meanwhile, and the client's comparison. */
module BlockHash {
  import opened Bytes
  import opened Wrappers
  import opened BlockDiff
  import opened Host

  const DEFAULT_BLOCK: nat := 0x10_0000

  /** A file open for reading. Anyone may change it between two system calls. */
  class OpenFile {
    var content: Bytes
    var pos: nat
    var mtimeS: int
    var mtimeNS: int
    /** Nobody has changed it, and no read has failed. */
    ghost var steady: bool

    constructor (content: Bytes, mtimeS: int, mtimeNS: int)
      ensures this.content == content && pos == 0 && steady
      ensures this.mtimeS == mtimeS && this.mtimeNS == mtimeNS
    {
      this.content, this.pos, this.mtimeS, this.mtimeNS, steady := content, 0, mtimeS, mtimeNS, true;
    }

    method Interfere()
      modifies this`content, this`mtimeS, this`mtimeNS, this`steady
      ensures steady ==> old(steady) && content == old(content) && mtimeS == old(mtimeS) && mtimeNS == old(mtimeNS)
    {
      var changed: bool := *;
      if changed {
        content, mtimeS, mtimeNS := *, *, *;
        steady := false;
      }
    }

    method Stat() returns (s: Stat)
      modifies this`content, this`mtimeS, this`mtimeNS, this`steady
      ensures steady ==> old(steady) && content == old(content) && mtimeS == old(mtimeS) && mtimeNS == old(mtimeNS)
      ensures s == Host.Stat.Stat(|content|, mtimeS, mtimeNS)
    {
      Interfere();
      s := Host.Stat.Stat(|content|, mtimeS, mtimeNS);
    }

    /** io.ReadFull: as much of n bytes as the file has, or an error. */
    method ReadFull(n: nat) returns (data: Bytes, failed: bool)
      modifies this
      ensures steady ==> old(steady) && content == old(content) && mtimeS == old(mtimeS) && mtimeNS == old(mtimeNS)
      ensures steady ==> !failed && data == Stretch(content, old(pos), n)
      ensures |data| <= n && pos == old(pos) + |data|
    {
      Interfere();
      failed := *;
      if failed {
        data, steady := [], false;
      } else {
        data := Stretch(content, pos, n);
      }
      pos := pos + |data|;
    }
  }

  function Stretch(f: Bytes, pos: nat, n: nat): (b: Bytes)
    ensures |b| <= n
  {
    if pos >= |f| then [] else f[pos..Min(pos + n, |f|)]
  }

  /** What hash prints. */
  datatype Listing = Listing(stat: Stat, block: nat, blocks: nat, digests: seq<Bytes>, whole: Bytes)

  function Joined(pieces: seq<Bytes>): Bytes {
    if pieces == [] then [] else Joined(pieces[..|pieces| - 1]) + pieces[|pieces| - 1]
  }

  lemma {:induction false} JoinedNone()
    ensures Joined([]) == []
  {
  }

  lemma {:induction false} JoinedMore(pieces: seq<Bytes>, piece: Bytes)
    ensures Joined(pieces + [piece]) == Joined(pieces) + piece
  {
    assert (pieces + [piece])[..|pieces|] == pieces;
  }

  /** Whole blocks, then perhaps a shorter last one, `size` bytes in all. */
  ghost predicate Partitions(pieces: seq<Bytes>, size: nat, block: nat)
    requires block > 0
  {
    && |pieces| == BlockCount(size, block)
    && (forall i :: 0 <= i < |pieces| - 1 ==> |pieces[i]| == block)
    && (|pieces| > 0 ==> 0 < |pieces[|pieces| - 1]| <= block)
    && |Joined(pieces)| == size
  }

  ghost predicate AreDigests(digests: seq<Bytes>, pieces: seq<Bytes>, sha256: Bytes -> Bytes) {
    |digests| == |pieces| && forall i :: 0 <= i < |pieces| ==> digests[i] == sha256(pieces[i])
  }

  /** Digests of every block and of the whole, or an error. `pieces` are the bytes that were read. */
  method Hash(f: OpenFile, blockArg: int, sha256: Bytes -> Bytes)
    returns (o: Outcome, l: Option<Listing>, ghost pieces: seq<Bytes>)
    requires f.pos == 0
    modifies f
    ensures (o == Done <==> l.Some?) && (l.None? ==> o == Refused(Io) || o == Refused(Changed))
    ensures l.Some? ==>
      var v := l.value;
      && v.block == (if blockArg <= 0 then DEFAULT_BLOCK else blockArg)
      && v.blocks == |v.digests|
      && Partitions(pieces, v.stat.size, v.block)
      && AreDigests(v.digests, pieces, sha256)
      && v.whole == sha256(Joined(pieces))
      && f.pos == v.stat.size
    // Whoever changed the file meanwhile: its stat is the same now as before the first read.
    ensures l.Some? ==> l.value.stat == Stat.Stat(|f.content|, f.mtimeS, f.mtimeNS)
    ensures f.steady ==> l.Some? && Joined(pieces) == f.content
    ensures f.steady ==> forall i :: 0 <= i < |pieces| ==> pieces[i] == Piece(f.content, l.value.block, i)
    ensures f.steady ==> old(f.steady) && f.content == old(f.content)
  {
    hide Stretch, Piece, WholeSoFar, SteadySoFar, Joined;
    var block: nat := if blockArg <= 0 then DEFAULT_BLOCK else blockArg;
    pieces := [];
    var before := f.Stat();
    var blocks := (before.size + block - 1) / block;
    var digests: seq<Bytes> := [];
    var fed: Bytes := [];
    var read := 0;
    NothingYet(f.content, block, blocks);
    JoinedNone();
    for i := 0 to blocks
      invariant |pieces| == i && AreDigests(digests, pieces, sha256)
      invariant fed == Joined(pieces) && read == |fed| == f.pos
      invariant WholeSoFar(pieces, block, blocks, read)
      invariant f.steady ==> old(f.steady) && f.content == old(f.content)
      invariant f.steady ==> before == Stat.Stat(|f.content|, f.mtimeS, f.mtimeNS)
      invariant f.steady ==> SteadySoFar(f.content, pieces, fed, block)
    {
      var buf, failed := f.ReadFull(block);
      if f.steady {
        SteadyNext(f.content, pieces, fed, block, blocks, buf);
      }
      if failed || |buf| == 0 || (|buf| < block && i != blocks - 1) {
        return Refused(Io), None, pieces;
      }
      JoinedMore(pieces, buf);
      WholeNext(pieces, block, blocks, read, buf);
      read := read + |buf|;
      digests := digests + [sha256(buf)];
      fed := fed + buf;
      pieces := pieces + [buf];
    }
    if f.steady {
      SteadyAll(f.content, pieces, fed, block);
    }
    WholeAll(pieces, block, blocks, read);
    var after := f.Stat();
    if after != before || read != before.size {
      return Refused(Changed), None, pieces;
    }
    l := Some(Listing(before, block, blocks, digests, sha256(fed)));
    o := Done;
  }

  /** The blocks read so far are whole, except perhaps the very last; `read` is where the next starts. */
  ghost predicate WholeSoFar(pieces: seq<Bytes>, block: nat, blocks: nat, read: nat) {
    && |pieces| <= blocks
    && (forall j :: 0 <= j < |pieces| && j < blocks - 1 ==> |pieces[j]| == block)
    && (|pieces| == blocks > 0 ==> 0 < |pieces[blocks - 1]| <= block)
    && (|pieces| < blocks ==> read == |pieces| * block)
  }

  lemma {:induction false} WholeNext(pieces: seq<Bytes>, block: nat, blocks: nat, read: nat, buf: Bytes)
    requires WholeSoFar(pieces, block, blocks, read) && |pieces| < blocks
    requires 0 < |buf| <= block && (|buf| == block || |pieces| == blocks - 1)
    ensures WholeSoFar(pieces + [buf], block, blocks, read + |buf|)
  {
    assert (|pieces| + 1) * block == |pieces| * block + block;
  }

  lemma {:induction false} WholeAll(pieces: seq<Bytes>, block: nat, blocks: nat, read: nat)
    requires WholeSoFar(pieces, block, blocks, read) && |pieces| == blocks
    ensures forall i :: 0 <= i < |pieces| - 1 ==> |pieces[i]| == block
    ensures |pieces| > 0 ==> 0 < |pieces[|pieces| - 1]| <= block
  {
  }

  /** Nobody interfered: the blocks read so far are the file's, and `fed` is all of them. */
  ghost predicate SteadySoFar(f: Bytes, pieces: seq<Bytes>, fed: Bytes, block: nat) {
    && (forall j :: 0 <= j < |pieces| ==> pieces[j] == Piece(f, block, j))
    && fed == Stretch(f, 0, |pieces| * block)
  }

  lemma {:induction false} NothingYet(f: Bytes, block: nat, blocks: nat)
    ensures WholeSoFar([], block, blocks, 0) && SteadySoFar(f, [], [], block)
  {
  }

  lemma {:induction false} SteadyNext(f: Bytes, pieces: seq<Bytes>, fed: Bytes, block: nat, blocks: nat, buf: Bytes)
    requires block > 0 && blocks == BlockCount(|f|, block) && |pieces| < blocks
    requires SteadySoFar(f, pieces, fed, block) && buf == Stretch(f, |fed|, block)
    ensures SteadySoFar(f, pieces + [buf], fed + buf, block)
    ensures |buf| > 0 && (|pieces| < blocks - 1 ==> |buf| == block)
  {
    hide BlockCount, Piece, Stretch;
    NextStretch(f, block, |pieces|);
  }

  lemma {:induction false} NextStretch(f: Bytes, block: nat, i: nat)
    requires block > 0 && i < BlockCount(|f|, block)
    ensures |Stretch(f, 0, i * block)| == i * block && Stretch(f, i * block, block) == Piece(f, block, i)
    ensures Stretch(f, 0, i * block) + Stretch(f, i * block, block) == Stretch(f, 0, (i + 1) * block)
    ensures |Stretch(f, i * block, block)| > 0
    ensures i < BlockCount(|f|, block) - 1 ==> |Stretch(f, i * block, block)| == block
  {
    hide BlockCount;
    BlockStarts(|f|, block, i);
    BlockStarts(|f|, block, i + 1);
    assert (i + 1) * block == i * block + block;
    NextPiece(f, block, i);
  }

  lemma {:induction false} SteadyAll(f: Bytes, pieces: seq<Bytes>, fed: Bytes, block: nat)
    requires block > 0 && |pieces| == BlockCount(|f|, block) && SteadySoFar(f, pieces, fed, block)
    ensures fed == f && forall j :: 0 <= j < |pieces| ==> pieces[j] == Piece(f, block, j)
  {
    BlockStarts(|f|, block, |pieces|);
  }

  lemma {:induction false} NextPiece(f: Bytes, block: nat, i: nat)
    requires block > 0 && i * block <= |f|
    ensures Stretch(f, i * block, block) == Piece(f, block, i)
    ensures Stretch(f, 0, i * block) + Piece(f, block, i) == Stretch(f, 0, i * block + block)
  {
  }

  // ----- comparing digests

  /** The client's diff: a block is taken for unchanged only if the host listed the same digest for it. */
  function DigestChanged(digests: seq<Bytes>, next: Bytes, block: nat, sha256: Bytes -> Bytes, n: nat): seq<nat> {
    if n == 0 then []
    else
      var before := DigestChanged(digests, next, block, sha256, n - 1);
      if SameDigest(digests, next, block, sha256, n - 1) then before else before + [n - 1]
  }

  /** No block was changed into another one with the same digest. */
  ghost predicate NoCollision(orig: Bytes, next: Bytes, block: nat, sha256: Bytes -> Bytes, n: nat)
    requires block > 0
  {
    forall i :: 0 <= i < n && i < BlockCount(|orig|, block)
      && sha256(Piece(orig, block, i)) == sha256(Piece(next, block, i))
      ==> Piece(orig, block, i) == Piece(next, block, i)
  }

  predicate SameDigest(digests: seq<Bytes>, next: Bytes, block: nat, sha256: Bytes -> Bytes, i: nat) {
    i < |digests| && digests[i] == sha256(Piece(next, block, i))
  }

  lemma {:induction false} DigestChangedIsExact(
    digests: seq<Bytes>, next: Bytes, block: nat, sha256: Bytes -> Bytes, n: nat)
    ensures forall i: nat ::
      i in DigestChanged(digests, next, block, sha256, n) <==> i < n && !SameDigest(digests, next, block, sha256, i)
  {
    hide SameDigest;
    if n > 0 { DigestChangedIsExact(digests, next, block, sha256, n - 1); }
  }

  lemma {:induction false} SelectsSame(
    orig: Bytes, next: Bytes, block: nat, digests: seq<Bytes>, sha256: Bytes -> Bytes, n: nat)
    requires forall i :: 0 <= i < n ==>
      (SameDigest(digests, next, block, sha256, i) <==> !Differs(orig, next, block, i))
    ensures DigestChanged(digests, next, block, sha256, n) == ChangedBlocks(orig, next, block, n)
  {
    hide SameDigest, Differs;
    if n > 0 { SelectsSame(orig, next, block, digests, sha256, n - 1); }
  }

  /** Comparing digests selects exactly the changed blocks, if and only if no changed block collides. */
  lemma {:induction false} DigestsSelectChanged(
    orig: Bytes, next: Bytes, block: nat, digests: seq<Bytes>, sha256: Bytes -> Bytes)
    requires block > 0 && |digests| == BlockCount(|orig|, block)
    requires forall i :: 0 <= i < |digests| ==> digests[i] == sha256(Piece(orig, block, i))
    ensures var n := BlockCount(|next|, block);
      DigestChanged(digests, next, block, sha256, n) == ChangedBlocks(orig, next, block, n)
      <==> NoCollision(orig, next, block, sha256, n)
  {
    hide Piece, BlockCount, ChangedBlocks, DigestChanged;
    var n := BlockCount(|next|, block);
    forall i | 0 <= i < n ensures i >= |digests| ==> Differs(orig, next, block, i) {
      DigestStep(orig, next, block, i);
    }
    if NoCollision(orig, next, block, sha256, n) {
      SelectsSame(orig, next, block, digests, sha256, n);
    }
    if DigestChanged(digests, next, block, sha256, n) == ChangedBlocks(orig, next, block, n) {
      DigestChangedIsExact(digests, next, block, sha256, n);
      ChangedIsExact(orig, next, block, n);
      forall i | 0 <= i < n && i < |digests| && sha256(Piece(orig, block, i)) == sha256(Piece(next, block, i))
        ensures Piece(orig, block, i) == Piece(next, block, i)
      {
        assert SameDigest(digests, next, block, sha256, i);
        assert i !in ChangedBlocks(orig, next, block, n);
        assert !Differs(orig, next, block, i);
      }
    }
  }

  lemma {:induction false} DigestStep(orig: Bytes, next: Bytes, block: nat, i: nat)
    requires block > 0 && i < BlockCount(|next|, block)
    ensures i >= BlockCount(|orig|, block) ==> Differs(orig, next, block, i)
  {
    BlockStarts(|next|, block, i);
    BlockStarts(|orig|, block, i);
  }
}
