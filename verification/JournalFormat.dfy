/** The rollback journal on disk: its writer's layout and its reader, which streams. */
module JournalFormat {
  import opened Bytes
  import opened SavedRegions

  /** "USSHDJ1\n" */
  const MAGIC: Bytes := [0x55, 0x53, 0x53, 0x48, 0x44, 0x4A, 0x31, 0x0A]

  datatype Journal = Journal(target: Bytes, origSize: nat, finalSize: nat, regs: seq<Region>)

  /** Every number in the journal fits the int64 the code holds it in. */
  ghost predicate Encodable(j: Journal) {
    && |j.target| <= MAX_INT64 && j.origSize <= MAX_INT64 && j.finalSize <= MAX_INT64
    && |j.regs| <= MAX_INT64
    && forall i :: 0 <= i < |j.regs| ==> EncodableRegion(j.regs[i])
  }

  ghost predicate EncodableRegion(r: Region) {
    r.off <= MAX_INT64 && |r.data| <= MAX_INT64
  }

  function SerializeRegion(r: Region): Bytes {
    PutUint64(r.off) + PutUint64(|r.data|) + r.data
  }

  function SerializeRegions(regs: seq<Region>): Bytes {
    if regs == [] then [] else SerializeRegion(regs[0]) + SerializeRegions(regs[1..])
  }

  function SerializeHeader(j: Journal): Bytes {
    MAGIC + PutUint64(|j.target|) + j.target + PutUint64(j.origSize) + PutUint64(j.finalSize) + PutUint64(|j.regs|)
  }

  function Serialize(j: Journal): Bytes {
    SerializeHeader(j) + SerializeRegions(j.regs)
  }

  lemma {:induction false} SmallUint64(v: nat)
    requires v < 0x1_0000
    ensures PutUint64(v) == [0, 0, 0, 0, 0, 0, v / 256, v % 256]
  {
    assert BigEndian(0, 0) == [];
    assert BigEndian(0, 1) == [0];
    assert BigEndian(0, 2) == [0, 0];
    assert BigEndian(0, 3) == [0, 0, 0];
    assert BigEndian(0, 4) == [0, 0, 0, 0];
    assert BigEndian(0, 5) == [0, 0, 0, 0, 0];
    assert BigEndian(0, 6) == [0, 0, 0, 0, 0, 0];
    assert BigEndian(v / 256, 7) == [0, 0, 0, 0, 0, 0, v / 256];
  }

  /** A journal byte by byte: of "/a", 258 bytes long, to become 2, with the bytes 7 and 8 saved at 1. */
  lemma {:induction false} JournalBytes()
    ensures Serialize(Journal([0x2F, 0x61], 258, 2, [Region(1, [7, 8])])) ==
      [0x55, 0x53, 0x53, 0x48, 0x44, 0x4A, 0x31, 0x0A]
      + [0, 0, 0, 0, 0, 0, 0, 2] + [0x2F, 0x61]
      + [0, 0, 0, 0, 0, 0, 1, 2] + [0, 0, 0, 0, 0, 0, 0, 2] + [0, 0, 0, 0, 0, 0, 0, 1]
      + [0, 0, 0, 0, 0, 0, 0, 1] + [0, 0, 0, 0, 0, 0, 0, 2] + [7, 8]
  {
    hide PutUint64;
    SmallUint64(1);
    SmallUint64(2);
    SmallUint64(258);
    var r := Region(1, [7, 8]);
    assert SerializeRegions([r]) == SerializeRegion(r) + SerializeRegions([r][1..]) == SerializeRegion(r);
  }

  // ----- reading

  datatype Read<T> = Short | Got(value: T, rest: Bytes)

  /** io.ReadFull into make([]byte, n); a negative n panics, which stops the reader just as early. */
  function ReadFull(b: Bytes, n: int): Read<Bytes> {
    if n < 0 || |b| < n then Short else Got(b[..n], b[n..])
  }

  function ReadInt64(b: Bytes): Read<int> {
    match ReadFull(b, 8)
    case Short => Short
    case Got(v, rest) => Got(GetInt64(v), rest)
  }

  datatype Header = Header(target: Bytes, origSize: int, finalSize: int, count: int)

  /** Magic and target name, which journalTarget and rollbackJournal both start with. */
  function ReadTarget(b: Bytes): Read<Bytes> {
    match ReadFull(b, |MAGIC|)
    case Short => Short
    case Got(magic, b1) =>
      if magic != MAGIC then Short
      else
        match ReadInt64(b1)
        case Short => Short
        case Got(n, b2) => ReadFull(b2, n)
  }

  function ReadSizes(target: Bytes, b: Bytes): Read<Header> {
    match ReadInt64(b)
    case Short => Short
    case Got(origSize, b1) =>
      match ReadInt64(b1)
      case Short => Short
      case Got(finalSize, b2) =>
        match ReadInt64(b2)
        case Short => Short
        case Got(count, b3) => Got(Header(target, origSize, finalSize, count), b3)
  }

  function ReadHeader(b: Bytes): Read<Header> {
    match ReadTarget(b)
    case Short => Short
    case Got(target, rest) => ReadSizes(target, rest)
  }

  /** One region, which the loop also writes; a negative offset is refused by WriteAt. */
  function ReadRegion(b: Bytes): (r: Read<Region>)
    ensures r.Got? ==> |r.rest| < |b|
  {
    match ReadInt64(b)
    case Short => Short
    case Got(off, b1) =>
      match ReadInt64(b1)
      case Short => Short
      case Got(length, b2) =>
        match ReadFull(b2, length)
        case Short => Short
        case Got(data, rest) => if off < 0 then Short else Got(Region(off, data), rest)
  }

  /** The regions the loop gets to write, and what is left once it is done or stuck. */
  datatype Regions = Regions(regs: seq<Region>, done: bool, rest: Bytes)

  /** `count` reads in a row, up to the first that fails. */
  function ReadMany(read: Bytes -> Read<Region>, b: Bytes, count: int): Regions
    decreases count
  {
    if count <= 0 then Regions([], true, b)
    else
      match read(b)
      case Short => Regions([], false, b)
      case Got(r, rest) =>
        var more := ReadMany(read, rest, count - 1);
        Regions([r] + more.regs, more.done, more.rest)
  }

  function ReadRegions(b: Bytes, count: int): Regions {
    ReadMany(ReadRegion, b, count)
  }

  /** What rollbackJournal makes of a journal's bytes: no header, so nothing is touched; a header and some
      regions, which are written before the reader fails; or all of it. */
  datatype Parsed =
    | Rejected
    | Stuck(target: Bytes, regs: seq<Region>)
    | Complete(target: Bytes, origSize: nat, regs: seq<Region>)

  function Parse(b: Bytes): Parsed {
    match ReadHeader(b)
    case Short => Rejected
    case Got(h, rest) =>
      var body := ReadRegions(rest, h.count);
      if body.done && h.origSize >= 0 then Complete(h.target, h.origSize, body.regs) else Stuck(h.target, body.regs)
  }

  /** A file that does not begin with the magic is not read any further: nothing of it is replayed. */
  lemma {:induction false} ForeignFileIsRejected(b: Bytes)
    ensures Parse(b) != Rejected ==> MAGIC <= b
  {
    hide ReadSizes, ReadRegions, ReadInt64;
  }

  // ----- locality: more bytes never change what was already read

  lemma {:induction false} ReadIsLocal(b: Bytes, x: Bytes)
    ensures forall n: int :: ReadFull(b, n).Got? ==>
      ReadFull(b + x, n) == Got(ReadFull(b, n).value, ReadFull(b, n).rest + x)
    ensures ReadInt64(b).Got? ==> ReadInt64(b + x) == Got(ReadInt64(b).value, ReadInt64(b).rest + x)
  {
    forall n: int | ReadFull(b, n).Got?
      ensures ReadFull(b + x, n) == Got(ReadFull(b, n).value, ReadFull(b, n).rest + x)
    {
      assert (b + x)[..n] == b[..n] && (b + x)[n..] == b[n..] + x;
    }
    assert ReadFull(b, 8).Got? ==> ReadFull(b + x, 8).Got?;
  }

  lemma {:induction false} ReadTargetIsLocal(b: Bytes, x: Bytes)
    requires ReadTarget(b).Got?
    ensures ReadTarget(b + x) == Got(ReadTarget(b).value, ReadTarget(b).rest + x)
  {
    ReadIsLocal(b, x);
    var b1 := ReadFull(b, |MAGIC|).rest;
    assert ReadFull(b + x, |MAGIC|).rest == b1 + x;
    ReadIsLocal(b1, x);
    ReadIsLocal(ReadInt64(b1).rest, x);
  }

  lemma {:induction false} ReadHeaderIsLocal(b: Bytes, x: Bytes)
    requires ReadHeader(b).Got?
    ensures ReadHeader(b + x) == Got(ReadHeader(b).value, ReadHeader(b).rest + x)
  {
    ReadTargetIsLocal(b, x);
    var b0 := ReadTarget(b).rest;
    ReadIsLocal(b0, x);
    var b1 := ReadInt64(b0).rest;
    ReadIsLocal(b1, x);
    ReadIsLocal(ReadInt64(b1).rest, x);
  }

  lemma {:induction false} ReadRegionIsLocal(b: Bytes, x: Bytes)
    requires ReadRegion(b).Got?
    ensures ReadRegion(b + x) == Got(ReadRegion(b).value, ReadRegion(b).rest + x)
  {
    ReadIsLocal(b, x);
    var b1 := ReadInt64(b).rest;
    ReadIsLocal(b1, x);
    ReadIsLocal(ReadInt64(b1).rest, x);
  }

  ghost predicate Local(read: Bytes -> Read<Region>) {
    forall b, x {:trigger read(b + x)} :: read(b).Got? ==> read(b + x) == Got(read(b).value, read(b).rest + x)
  }

  /** What a reader that sees x bytes more gets: at least as many regions, and the same ones if it had
      finished already. */
  ghost predicate Extends(a: Regions, c: Regions, x: Bytes) {
    a.regs <= c.regs && (a.done ==> c == Regions(a.regs, true, a.rest + x))
  }

  lemma {:induction false} ReadManyIsLocal(read: Bytes -> Read<Region>, b: Bytes, x: Bytes, count: int)
    requires Local(read)
    ensures Extends(ReadMany(read, b, count), ReadMany(read, b + x, count), x)
    decreases count
  {
    if count > 0 && read(b).Got? {
      assert read(b + x) == Got(read(b).value, read(b).rest + x);
      ReadManyIsLocal(read, read(b).rest, x, count - 1);
    }
  }

  lemma {:induction false} ReadRegionsIsLocal(b: Bytes, x: Bytes, count: int)
    ensures Extends(ReadRegions(b, count), ReadRegions(b + x, count), x)
  {
    forall b, x {:trigger ReadRegion(b + x)} | ReadRegion(b).Got?
      ensures ReadRegion(b + x) == Got(ReadRegion(b).value, ReadRegion(b).rest + x)
    {
      ReadRegionIsLocal(b, x);
    }
    assert Local(ReadRegion);
    ReadManyIsLocal(ReadRegion, b, x, count);
  }

  // ----- the round trip

  lemma {:induction false} ReadBack(b: Bytes, x: Bytes)
    ensures ReadFull(b + x, |b|) == Got(b, x)
    ensures forall v: nat :: v <= MAX_INT64 && b == PutUint64(v) ==> ReadInt64(b + x) == Got(v, x)
  {
    assert (b + x)[..|b|] == b && (b + x)[|b|..] == x;
    forall v: nat | v <= MAX_INT64 && b == PutUint64(v) ensures ReadInt64(b + x) == Got(v, x) {
      Int64RoundTrip(v);
    }
  }

  lemma {:induction false} ReadBackInt64(v: nat, x: Bytes)
    requires v <= MAX_INT64
    ensures ReadInt64(PutUint64(v) + x) == Got(v, x)
  {
    ReadBack(PutUint64(v), x);
  }

  lemma {:induction false} ReadRegionBack(r: Region, x: Bytes)
    requires EncodableRegion(r)
    ensures ReadRegion(SerializeRegion(r) + x) == Got(r, x)
  {
    var b2 := r.data + x;
    var b1 := PutUint64(|r.data|) + b2;
    assert SerializeRegion(r) + x == PutUint64(r.off) + b1;
    ReadBackInt64(r.off, b1);
    ReadBackInt64(|r.data|, b2);
    ReadBack(r.data, x);
  }

  /** The regions `read` finds one after the other at the head of b. */
  ghost predicate Starts(read: Bytes -> Read<Region>, b: Bytes, regs: seq<Region>, x: Bytes)
    decreases |regs|
  {
    if regs == [] then b == x else read(b).Got? && read(b).value == regs[0] && Starts(read, read(b).rest, regs[1..], x)
  }

  lemma {:induction false} ReadManyBack(read: Bytes -> Read<Region>, b: Bytes, regs: seq<Region>, x: Bytes)
    requires Starts(read, b, regs, x)
    ensures ReadMany(read, b, |regs|) == Regions(regs, true, x)
    decreases |regs|
  {
    if regs != [] {
      ReadManyBack(read, read(b).rest, regs[1..], x);
      assert [regs[0]] + regs[1..] == regs;
    }
  }

  lemma {:induction false} SerializedStarts(regs: seq<Region>, x: Bytes)
    requires forall i :: 0 <= i < |regs| ==> EncodableRegion(regs[i])
    ensures Starts(ReadRegion, SerializeRegions(regs) + x, regs, x)
    decreases |regs|
  {
    if regs == [] {
      assert SerializeRegions(regs) + x == x;
    } else {
      var tail := SerializeRegions(regs[1..]) + x;
      assert SerializeRegions(regs) + x == SerializeRegion(regs[0]) + tail;
      ReadRegionBack(regs[0], tail);
      SerializedStarts(regs[1..], x);
    }
  }

  lemma {:induction false} ReadRegionsBack(regs: seq<Region>, x: Bytes)
    requires forall i :: 0 <= i < |regs| ==> EncodableRegion(regs[i])
    ensures ReadRegions(SerializeRegions(regs) + x, |regs|) == Regions(regs, true, x)
  {
    SerializedStarts(regs, x);
    ReadManyBack(ReadRegion, SerializeRegions(regs) + x, regs, x);
  }

  lemma {:induction false} ReadTargetBack(target: Bytes, x: Bytes)
    requires |target| <= MAX_INT64
    ensures ReadTarget(MAGIC + PutUint64(|target|) + target + x) == Got(target, x)
  {
    var b2 := target + x;
    var b1 := PutUint64(|target|) + b2;
    assert MAGIC + PutUint64(|target|) + target + x == MAGIC + b1;
    ReadBack(MAGIC, b1);
    ReadBackInt64(|target|, b2);
    ReadBack(target, x);
  }

  lemma {:induction false} ReadHeaderBack(j: Journal, x: Bytes)
    requires Encodable(j)
    ensures ReadHeader(SerializeHeader(j) + x) == Got(Header(j.target, j.origSize, j.finalSize, |j.regs|), x)
  {
    var b3 := PutUint64(|j.regs|) + x;
    var b2 := PutUint64(j.finalSize) + b3;
    var b1 := PutUint64(j.origSize) + b2;
    assert SerializeHeader(j) + x == MAGIC + PutUint64(|j.target|) + j.target + b1;
    ReadTargetBack(j.target, b1);
    ReadBackInt64(j.origSize, b2);
    ReadBackInt64(j.finalSize, b3);
    ReadBackInt64(|j.regs|, x);
  }

  /** Reading what was written gives every field back and leaves exactly what follows. */
  lemma {:induction false} RoundTrip(j: Journal, x: Bytes)
    requires Encodable(j)
    ensures ReadHeader(Serialize(j) + x)
         == Got(Header(j.target, j.origSize, j.finalSize, |j.regs|), SerializeRegions(j.regs) + x)
    ensures ReadRegions(SerializeRegions(j.regs) + x, |j.regs|) == Regions(j.regs, true, x)
    ensures Parse(Serialize(j) + x) == Complete(j.target, j.origSize, j.regs)
  {
    var body := SerializeRegions(j.regs) + x;
    assert Serialize(j) + x == SerializeHeader(j) + body;
    ReadHeaderBack(j, body);
    ReadRegionsBack(j.regs, x);
  }

  /** No strict prefix of a journal passes for a journal: what its reader gets to write before failing is a
      leading part of the saved regions, on the right target. */
  lemma {:induction false} TornJournalIsRefused(j: Journal, p: Bytes)
    requires Encodable(j) && p < Serialize(j)
    ensures !Parse(p).Complete?
    ensures Parse(p).Stuck? ==> Parse(p).target == j.target && Parse(p).regs <= j.regs
  {
    var x := Serialize(j)[|p|..];
    assert Serialize(j) == p + x;
    RoundTrip(j, []);
    assert Serialize(j) + [] == Serialize(j);
    assert SerializeRegions(j.regs) + [] == SerializeRegions(j.regs);
    if ReadHeader(p).Got? {
      ReadHeaderIsLocal(p, x);
      var rest := ReadHeader(p).rest;
      assert rest + x == SerializeRegions(j.regs);
      ReadRegionsIsLocal(rest, x, |j.regs|);
    }
  }

  /** A header that can be read off any leading part of a journal is that journal's. */
  lemma {:induction false} TornHeaderIsRight(j: Journal, p: Bytes)
    requires Encodable(j) && p <= Serialize(j) && ReadHeader(p).Got?
    ensures ReadHeader(p).value == Header(j.target, j.origSize, j.finalSize, |j.regs|)
  {
    var x := Serialize(j)[|p|..];
    assert Serialize(j) == p + x;
    assert Serialize(j) + [] == Serialize(j);
    RoundTrip(j, []);
    ReadHeaderIsLocal(p, x);
  }

  /** Two journals with the same bytes are the same journal. */
  lemma {:induction false} SerializeIsInjective(j: Journal, k: Journal)
    requires Encodable(j) && Encodable(k) && Serialize(j) == Serialize(k)
    ensures j == k
  {
    RoundTrip(j, []);
    RoundTrip(k, []);
  }

  /** Nor is one journal the beginning of another: a journal's end is where its last byte is. */
  lemma {:induction false} SerializeIsPrefixFree(j: Journal, k: Journal)
    requires Encodable(j) && Encodable(k) && Serialize(j) <= Serialize(k)
    ensures j == k
  {
    RoundTrip(j, []);
    assert Serialize(j) + [] == Serialize(j);
    if Serialize(j) == Serialize(k) {
      SerializeIsInjective(j, k);
    } else {
      TornJournalIsRefused(k, Serialize(j));
    }
  }
}
