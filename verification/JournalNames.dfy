/** Where a journal lives, and what the two lookups, by target and by sweep, recognise one by. */
module JournalNames {
  import opened Bytes
  import opened Paths

  /** "ussh-delta-journal-" */
  const STEM: Bytes := [0x75, 0x73, 0x73, 0x68, 0x2D, 0x64, 0x65, 0x6C, 0x74, 0x61, 0x2D,
                        0x6A, 0x6F, 0x75, 0x72, 0x6E, 0x61, 0x6C, 0x2D]

  /** ".ussh-delta-journal-" */
  const SUFFIX: Bytes := [DOT] + STEM

  /** abs2journal: a hidden sibling of the target, tagged with random hex. */
  function JournalPath(target: Path, tag: Bytes): Path {
    Dir(target) + JournalName(Base(target), tag)
  }

  function JournalName(name: Bytes, tag: Bytes): Bytes {
    [DOT] + name + SUFFIX + tag
  }

  predicate OccursAt(s: Bytes, sub: Bytes, i: nat) {
    i + |sub| <= |s| && s[i..i + |sub|] == sub
  }

  /** The first place `sub` starts, or -1: what indexOf computes. */
  ghost predicate FirstOccurrence(s: Bytes, sub: Bytes, r: int) {
    if r < 0 then r == -1 && forall i: nat :: !OccursAt(s, sub, i)
    else OccursAt(s, sub, r) && forall i: nat :: i < r ==> !OccursAt(s, sub, i)
  }

  method IndexOf(s: Bytes, sub: Bytes) returns (r: int)
    ensures FirstOccurrence(s, sub, r)
  {
    var i := 0;
    while i + |sub| <= |s|
      invariant forall k: nat :: k < i ==> !OccursAt(s, sub, k)
    {
      if s[i..i + |sub|] == sub {
        return i;
      }
      i := i + 1;
    }
    return -1;
  }

  /** Some target could have this journal. */
  predicate JournalNamed(p: Path) {
    Base(p) != [] && Base(p)[0] == DOT && exists i :: 0 < i < |Base(p)| && OccursAt(Base(p), SUFFIX, i)
  }

  /** The sweep's test: the suffix must be there, and not first at the very start. */
  ghost predicate SweepSees(name: Bytes) {
    name != [] && name[0] == DOT && !OccursAt(name, SUFFIX, 0) && exists i: nat :: i > 0 && OccursAt(name, SUFFIX, i)
  }

  method IsJournalName(name: Bytes) returns (b: bool)
    ensures b <==> SweepSees(name)
  {
    var i := IndexOf(name, SUFFIX);
    b := |name| > 0 && name[0] == DOT && i > 0;
  }

  /** No byte of a path means something else to filepath.Glob than itself: none is "*", "?", "[" or "\". */
  predicate NoMeta(p: Path) {
    0x2A !in p && 0x3F !in p && 0x5B !in p && 0x5C !in p
  }

  /** p is named like one of the target's journals. That is what the glob for them matches, as long as the target
      has no metacharacter. */
  predicate Tagged(target: Path, p: Path) {
    Dir(p) == Dir(target) && [DOT] + Base(target) + SUFFIX <= Base(p)
  }

  lemma {:induction false} JournalNameHasSuffix(name: Bytes, tag: Bytes)
    ensures OccursAt(JournalName(name, tag), SUFFIX, |name| + 1)
    ensures [DOT] + name + SUFFIX <= JournalName(name, tag)
  {
  }

  /** Every journal of a target is named like one, whatever its tag. */
  lemma {:induction false} OwnJournalsAreTagged(target: Path, tag: Bytes)
    requires SLASH !in tag
    ensures Tagged(target, JournalPath(target, tag))
    ensures JournalNamed(JournalPath(target, tag))
    ensures Base(JournalPath(target, tag)) == JournalName(Base(target), tag)
  {
    assert SLASH !in SUFFIX;
    assert SLASH !in Base(target);
    SplitJoined(target, JournalName(Base(target), tag));
    JournalNameHasSuffix(Base(target), tag);
  }

  lemma {:induction false} TaggedAreJournals(target: Path, p: Path)
    requires Tagged(target, p)
    ensures JournalNamed(p)
  {
    var i := 1 + |Base(target)|;
    assert Base(p)[i..i + |SUFFIX|] == ([DOT] + Base(target) + SUFFIX)[i..i + |SUFFIX|] == SUFFIX;
    assert OccursAt(Base(p), SUFFIX, i);
  }

  lemma {:induction false} PrefixBeforeDot(stem: Bytes, name: Bytes, rest: Bytes)
    requires DOT !in stem && rest != [] && rest[0] == DOT
    ensures stem <= name + rest <==> stem <= name
  {
    if |name| < |stem| {
      assert (name + rest)[|name|] == DOT;
      assert stem[|name|] in stem;
    }
  }

  lemma {:induction false} OccursInFront(stem: Bytes, s: Bytes)
    ensures OccursAt([DOT] + s, [DOT] + stem, 0) <==> stem <= s
  {
    if |stem| <= |s| {
      assert ([DOT] + s)[0..1 + |stem|] == [DOT] + s[..|stem|];
      assert ([DOT] + s[..|stem|])[1..] == s[..|stem|] && ([DOT] + stem)[1..] == stem;
    }
  }

  /** The sweep finds a target's journals exactly when the target's name does not itself start with
      "ussh-delta-journal-". */
  lemma {:induction false} SweepMissesExactly(name: Bytes, tag: Bytes)
    ensures SweepSees(JournalName(name, tag)) <==> !(STEM <= name)
  {
    hide OccursAt;
    JournalNameHasSuffix(name, tag);
    var rest := SUFFIX + tag;
    assert JournalName(name, tag) == [DOT] + (name + rest);
    OccursInFront(STEM, name + rest);
    PrefixBeforeDot(STEM, name, rest);
  }
}
