/** The journalled commit as a state machine over a disk. A step is one system call's effect, cut short
    anywhere; a run may stop between any two, which is what a crash is, and go on with a recovery. */
module CommitProtocol {
  import opened Bytes
  import opened Paths
  import opened SavedRegions
  import opened JournalFormat
  import opened JournalNames
  import opened BlockEdit

  /** One in-place commit: what was asked for, and the file it found. */
  datatype Record = Record(target: Path, tag: Bytes, orig: Bytes, edit: Edit, patch: Bytes) {
    ghost predicate Good() {
      && SLASH !in tag && !JournalNamed(target)
      && Fits(edit, patch)
      && |target| <= MAX_INT64 && |orig| <= MAX_INT64 && edit.finalSize <= MAX_INT64 && |edit.offs| < MAX_INT64
    }

    function Path(): Path {
      JournalPath(target, tag)
    }

    function Regs(): seq<Region> {
      Saved(orig, edit)
    }

    /** What writeJournal writes. */
    function Bytes(): Bytes {
      Serialize(Journal(target, |orig|, edit.finalSize, Regs()))
    }

    /** What the commit is to leave. */
    function Next(): Bytes
      requires Good()
    {
      Patched(orig, edit, patch)
    }
  }

  /** What is known of journals beyond their bytes: those a later commit overlooked; those that are on disk for
      good; and those whose targets are. */
  datatype Marks = Marks(stale: set<Path>, synced: set<Path>, settled: set<Path>)

  /** The disk, and for each journal on it the commit that is writing or wrote it. */
  datatype State = State(files: map<Path, Bytes>, live: map<Path, Record>, marks: Marks)

  ghost predicate JournalsAreLive(s: State) {
    s.marks.stale <= s.live.Keys && forall p :: p in s.live <==> p in s.files && JournalNamed(p)
  }

  /** A journal is a leading part of its commit's serialization. */
  ghost predicate Written(s: State, jp: Path)
    requires jp in s.live && jp in s.files
  {
    s.live[jp].Good() && jp == s.live[jp].Path() && s.files[jp] <= s.live[jp].Bytes()
  }

  /** Until it is synced its target is untouched; from then on it is whole and its target can be undone. */
  ghost predicate Guards(s: State, jp: Path)
    requires jp in s.live && jp in s.files
  {
    var r := s.live[jp];
    && r.target in s.files
    && (if jp in s.marks.synced then s.files[jp] == r.Bytes() && Damaged(r.orig, s.files[r.target], r.Regs())
        else s.files[r.target] == r.orig)
  }

  ghost predicate JournalHolds(s: State, jp: Path)
    requires jp in s.live && jp in s.files
  {
    Written(s, jp) && (jp !in s.marks.stale ==> Guards(s, jp))
  }

  ghost predicate OneJournalPerTarget(s: State) {
    forall p, q :: p in s.live && q in s.live && s.live[p].target == s.live[q].target ==>
      p == q || p in s.marks.stale || q in s.marks.stale
  }

  ghost predicate Inv(s: State) {
    && JournalsAreLive(s)
    && (forall jp :: jp in s.live ==> JournalHolds(s, jp))
    && OneJournalPerTarget(s)
  }

  /** A journal guards the file. */
  ghost predicate Pending(s: State, target: Path) {
    exists jp :: jp in s.live && jp !in s.marks.stale && s.live[jp].target == target
  }

  /** A journal names the file that no longer goes with it. */
  ghost predicate Spoiled(s: State, target: Path) {
    exists jp :: jp in s.live && jp in s.marks.stale && s.live[jp].target == target
  }

  // ----- what a file means

  /** jp is a whole journal that would restore p. */
  ghost predicate Undoes(files: map<Path, Bytes>, jp: Path, p: Path) {
    jp in files && JournalNamed(jp) && Parse(files[jp]).Complete? && Parse(files[jp]).target == p
  }

  /** The content a file stands for: what rolling back its journal gives, or else its bytes. Nothing here
      looks at the commits, only at what is on disk. */
  ghost function Content(files: map<Path, Bytes>, p: Path): Bytes
    requires p in files
  {
    if exists jp :: Undoes(files, jp, p) then
      var jp :| Undoes(files, jp, p);
      Rollback(files[p], Parse(files[jp]).regs, Parse(files[jp]).origSize)
    else files[p]
  }

  /** Every file's content; a spoiled file has none until the journals that spoil it are gone. */
  ghost function Contents(s: State): map<Path, Bytes> {
    map p | p in s.files && !JournalNamed(p) && !Spoiled(s, p) :: Content(s.files, p)
  }

  // ----- steps

  datatype Action =
    | CreateJournal(r: Record)
    | AppendJournal(jp: Path, chunk: Bytes)
    | SyncJournal(jp: Path)
    | WriteBlock(jp: Path, j: nat, m: nat)
    | CutToFinal(jp: Path)
    | RestoreRegion(jp: Path, i: nat, m: nat)
    | RestoreSize(jp: Path)
    | SyncTarget(jp: Path)
    | RemoveJournal(jp: Path)
    | Overlook(jp: Path)
    | LoseJournal(jp: Path, n: nat)
    | LoseTarget(jp: Path, content: Bytes)
    | Put(p: Path, content: Bytes)
    | Delete(p: Path)
    | Rename(from: Path, to: Path)

  /** The regions a reader of a journal's bytes gets to write, whole or torn. */
  function Readable(b: Bytes): seq<Region> {
    match Parse(b)
    case Rejected => []
    case Stuck(_, regs) => regs
    case Complete(_, _, regs) => regs
  }

  /** A journal, the commit it belongs to, and that commit's target are all there. */
  ghost predicate Has(s: State, jp: Path) {
    jp in s.live && jp in s.files && s.live[jp].target in s.files && s.live[jp].Good()
  }

  ghost predicate Whole(s: State, jp: Path) {
    Has(s, jp) && s.files[jp] == s.live[jp].Bytes()
  }

  /** The journal is on disk for good, so its target may be overwritten. */
  ghost predicate Armed(s: State, jp: Path) {
    Whole(s, jp) && jp in s.marks.synced && jp !in s.marks.stale
  }

  /** A rollback may write to the journal's target: nothing else guards it. */
  ghost predicate Alone(s: State, jp: Path) {
    Has(s, jp) && (jp in s.marks.stale ==> !Pending(s, s.live[jp].target))
  }

  /** A file outside the protocol: no journal, and none guards it. */
  ghost predicate Free(s: State, p: Path) {
    !JournalNamed(p) && !Pending(s, p)
  }

  ghost function Current(s: State, jp: Path): Bytes
    requires Has(s, jp)
  {
    s.files[s.live[jp].target]
  }

  /** A write to a journal's target, which is not on disk for good before the next sync. */
  ghost function SetTarget(s: State, jp: Path, content: Bytes): State
    requires Has(s, jp)
  {
    State(s.files[s.live[jp].target := content], s.live, s.marks.(settled := s.marks.settled - {jp}))
  }

  ghost function Removed(s: State, jp: Path): State {
    State(s.files - {jp}, s.live - {jp},
          Marks(s.marks.stale - {jp}, s.marks.synced - {jp}, s.marks.settled - {jp}))
  }

  ghost predicate Enabled(s: State, a: Action) {
    match a
    case CreateJournal(r) =>
      r.Good() && r.Path() !in s.files && r.target in s.files && s.files[r.target] == r.orig && !Pending(s, r.target)
    case AppendJournal(jp, chunk) => jp in s.live && jp in s.files && s.files[jp] + chunk <= s.live[jp].Bytes()
    case SyncJournal(jp) => Whole(s, jp) && jp !in s.marks.stale
    case WriteBlock(jp, j, m) => Armed(s, jp) && j < |s.live[jp].edit.offs| && m <= s.live[jp].edit.Len(j)
    case CutToFinal(jp) => Armed(s, jp)
    case RestoreRegion(jp, i, m) =>
      Alone(s, jp) && i < |Readable(s.files[jp])| && m <= |Readable(s.files[jp])[i].data|
    case RestoreSize(jp) => Whole(s, jp) && Alone(s, jp)
    case SyncTarget(jp) => Has(s, jp)
    case RemoveJournal(jp) =>
      && Whole(s, jp) && Alone(s, jp) && jp in s.marks.settled
      && (jp !in s.marks.stale ==> Current(s, jp) == s.live[jp].orig || Current(s, jp) == s.live[jp].Next())
    case Overlook(jp) => jp in s.live && jp !in s.marks.stale
    case LoseJournal(jp, n) => jp in s.live && jp in s.files && jp !in s.marks.synced && n <= |s.files[jp]|
    case LoseTarget(jp, content) =>
      Armed(s, jp) && jp !in s.marks.settled && Damaged(s.live[jp].orig, content, s.live[jp].Regs())
    case Put(p, content) => Free(s, p)
    case Delete(p) => Free(s, p)
    case Rename(from, to) => from != to && from in s.files && Free(s, from) && Free(s, to)
  }

  ghost function Effect(s: State, a: Action): State
    requires Enabled(s, a)
  {
    match a
    case CreateJournal(r) =>
      var jp := r.Path();
      State(s.files[jp := []], s.live[jp := r],
            Marks(s.marks.stale, s.marks.synced - {jp}, s.marks.settled + {jp}))
    case AppendJournal(jp, chunk) => s.(files := s.files[jp := s.files[jp] + chunk])
    case SyncJournal(jp) => s.(marks := s.marks.(synced := s.marks.synced + {jp}))
    case WriteBlock(jp, j, m) =>
      var w := PatchBlock(s.live[jp].edit, s.live[jp].patch, j);
      SetTarget(s, jp, WriteAt(Current(s, jp), w.data[..m], w.off))
    case CutToFinal(jp) => SetTarget(s, jp, Truncate(Current(s, jp), s.live[jp].edit.finalSize))
    case RestoreRegion(jp, i, m) =>
      var r := Readable(s.files[jp])[i];
      SetTarget(s, jp, WriteAt(Current(s, jp), r.data[..m], r.off))
    case RestoreSize(jp) => SetTarget(s, jp, Truncate(Current(s, jp), |s.live[jp].orig|))
    case SyncTarget(jp) => s.(marks := s.marks.(settled := s.marks.settled + {jp}))
    case RemoveJournal(jp) => Removed(s, jp)
    case Overlook(jp) => s.(marks := s.marks.(stale := s.marks.stale + {jp}))
    case LoseJournal(jp, n) => s.(files := s.files[jp := s.files[jp][..n]])
    case LoseTarget(jp, content) => SetTarget(s, jp, content)
    case Put(p, content) => s.(files := s.files[p := content])
    case Delete(p) => s.(files := s.files - {p})
    case Rename(from, to) => s.(files := (s.files - {from})[to := s.files[from]])
  }

  /** p gets a new content, if it can have one. */
  ghost function With(s: State, p: Path, content: Bytes): map<Path, Bytes> {
    if Spoiled(s, p) then Contents(s) else Contents(s)[p := content]
  }

  /** The same step of a disk whose commits are atomic: only dropping the journal of an applied commit changes
      anything, and it changes that one file to what was asked for. An overlooked journal costs its target its
      content; when the last of them is dropped, the target stands for its own bytes again. */
  ghost function AtomicEffect(s: State, a: Action): map<Path, Bytes>
    requires Enabled(s, a)
  {
    var c := Contents(s);
    match a
    case RemoveJournal(jp) =>
      if jp in s.marks.stale then
        if Spoiled(Removed(s, jp), s.live[jp].target) then c else c[s.live[jp].target := Current(s, jp)]
      else if Current(s, jp) == s.live[jp].orig then c
      else With(s, s.live[jp].target, s.live[jp].Next())
    case Overlook(jp) => c - {s.live[jp].target}
    case Put(p, content) => With(s, p, content)
    case Delete(p) => c - {p}
    case Rename(from, to) => if Spoiled(s, to) then c - {from} else (c - {from})[to := s.files[from]]
    case _ => c
  }

  // ----- journals of a state

  lemma {:induction false} GoodIsEncodable(r: Record)
    requires r.Good()
    ensures Encodable(Journal(r.target, |r.orig|, r.edit.finalSize, r.Regs()))
    ensures Faithful(r.orig, r.Regs())
  {
    hide SavedBlocks, OldBlock, Saved;
    SavedIsFaithful(r.orig, r.edit);
  }

  lemma {:induction false} WholeJournalParses(r: Record)
    requires r.Good()
    ensures Parse(r.Bytes()) == Complete(r.target, |r.orig|, r.Regs())
  {
    hide Saved, Parse, SerializeHeader, SerializeRegions, ReadHeader, ReadRegions;
    GoodIsEncodable(r);
    RoundTrip(Journal(r.target, |r.orig|, r.edit.finalSize, r.Regs()), []);
    assert r.Bytes() + [] == r.Bytes();
  }

  lemma {:induction false} TornJournalParses(r: Record, b: Bytes)
    requires r.Good() && b < r.Bytes()
    ensures !Parse(b).Complete?
    ensures Readable(b) <= r.Regs()
  {
    hide Saved, Parse, Serialize;
    GoodIsEncodable(r);
    TornJournalIsRefused(Journal(r.target, |r.orig|, r.edit.finalSize, r.Regs()), b);
  }

  lemma {:induction false} ReadableIsSaved(r: Record, b: Bytes)
    requires r.Good() && b <= r.Bytes()
    ensures Readable(b) <= r.Regs()
    ensures Parse(b).Complete? <==> b == r.Bytes()
    ensures b == r.Bytes() ==> Parse(b) == Complete(r.target, |r.orig|, r.Regs())
  {
    hide Saved, Parse, Serialize;
    if b == r.Bytes() {
      WholeJournalParses(r);
    } else {
      TornJournalParses(r, b);
    }
  }

  /** A journal that guards its target can undo it, synced or not. */
  lemma {:induction false} GuardedIsDamaged(s: State, jp: Path)
    requires Inv(s) && jp in s.live && jp !in s.marks.stale
    ensures Has(s, jp) && Damaged(s.live[jp].orig, Current(s, jp), s.live[jp].Regs())
    ensures s.files[jp] <= s.live[jp].Bytes() && jp == s.live[jp].Path()
    ensures !Whole(s, jp) ==> Current(s, jp) == s.live[jp].orig
  {
    hide Record.Bytes, Record.Regs, Record.Path, JournalNamed, Fits, Damaged;
    assert JournalHolds(s, jp);
    Undamaged(s.live[jp].orig, s.live[jp].Regs());
  }

  /** What is on disk means: the old content while a journal guards it, else its bytes. */
  lemma {:induction false} ContentIs(s: State, p: Path)
    requires Inv(s) && p in s.files && !JournalNamed(p) && !Spoiled(s, p)
    ensures forall jp :: jp in s.live && s.live[jp].target == p ==> Content(s.files, p) == s.live[jp].orig
    ensures !Pending(s, p) ==> Content(s.files, p) == s.files[p]
  {
    hide Saved, Parse, Serialize, Rollback, Damaged, JournalNamed;
    forall jp | Undoes(s.files, jp, p)
      ensures jp in s.live && s.live[jp].target == p && Whole(s, jp)
      ensures Rollback(s.files[p], Parse(s.files[jp]).regs, Parse(s.files[jp]).origSize) == s.live[jp].orig
    {
      UndoingIsWhole(s, jp, p);
      GuardedIsDamaged(s, jp);
      var r := s.live[jp];
      ReadableIsSaved(r, s.files[jp]);
      GoodIsEncodable(r);
      RollbackRestores(r.orig, s.files[p], r.Regs());
    }
    forall jp | jp in s.live && s.live[jp].target == p
      ensures Content(s.files, p) == s.live[jp].orig
    {
      GuardedIsDamaged(s, jp);
      ReadableIsSaved(s.live[jp], s.files[jp]);
      if Whole(s, jp) {
        assert Undoes(s.files, jp, p);
      } else {
        assert forall jq :: Undoes(s.files, jq, p) ==> jq == jp;
      }
    }
  }

  lemma {:induction false} UndoingIsWhole(s: State, jp: Path, p: Path)
    requires Inv(s) && Undoes(s.files, jp, p)
    ensures jp in s.live && s.live[jp].target == p && s.live[jp].Good() && s.files[jp] == s.live[jp].Bytes()
  {
    hide Parse, Record.Bytes, Record.Regs, Record.Path, JournalNamed, Fits, Guards;
    assert JournalHolds(s, jp);
    ReadableIsSaved(s.live[jp], s.files[jp]);
  }

  /** The same content, read off the guarding commits instead of the disk. */
  ghost function View(s: State, p: Path): Bytes
    requires p in s.files
  {
    if Pending(s, p) then
      var jp :| jp in s.live && jp !in s.marks.stale && s.live[jp].target == p;
      s.live[jp].orig
    else s.files[p]
  }

  lemma {:induction false} ContentIsView(s: State, p: Path)
    requires Inv(s) && p in s.files && !JournalNamed(p) && !Spoiled(s, p)
    ensures Content(s.files, p) == View(s, p)
  {
    hide Content, Inv, JournalNamed, Spoiled;
    ContentIs(s, p);
  }

  lemma {:induction false} PendingView(s: State, jp: Path)
    requires Inv(s) && Has(s, jp) && jp !in s.marks.stale
    ensures View(s, s.live[jp].target) == s.live[jp].orig
  {
    hide JournalsAreLive, JournalHolds, Record.Good;
    assert Pending(s, s.live[jp].target);
  }

  /** The same journals name p, and go with it or not as before. */
  ghost predicate SameNaming(s: State, t: State, p: Path) {
    && (forall jp :: jp in s.live && s.live[jp].target == p ==>
          jp in t.live && t.live[jp] == s.live[jp] && (jp in t.marks.stale <==> jp in s.marks.stale))
    && (forall jp :: jp in t.live && t.live[jp].target == p ==> jp in s.live && t.live[jp] == s.live[jp])
  }

  /** A file looks the same as long as its bytes and the journals that name it are. */
  lemma {:induction false} SamePending(s: State, t: State, p: Path)
    requires OneJournalPerTarget(s) && OneJournalPerTarget(t) && SameNaming(s, t, p)
    requires p in s.files <==> p in t.files
    requires p in s.files && !Pending(s, p) ==> s.files[p] == t.files[p]
    ensures SameView(s, t, p)
  {
    if p in s.files && Pending(s, p) {
      var jp :| jp in s.live && jp !in s.marks.stale && s.live[jp].target == p;
      assert View(s, p) == s.live[jp].orig;
      assert Pending(t, p);
      assert View(t, p) == t.live[jp].orig;
    }
  }

  ghost predicate SameView(s: State, t: State, p: Path) {
    && (Spoiled(s, p) <==> Spoiled(t, p))
    && (p in s.files <==> p in t.files)
    && (p in s.files ==> View(s, p) == View(t, p))
  }

  lemma {:induction false} SameContents(s: State, t: State)
    requires Inv(s) && Inv(t)
    requires forall p :: !JournalNamed(p) ==> SameView(s, t, p)
    ensures Contents(s) == Contents(t)
  {
    hide Content, Inv, JournalNamed, View, Spoiled;
    forall p | !JournalNamed(p)
      ensures p in s.files <==> p in t.files
      ensures Spoiled(s, p) <==> Spoiled(t, p)
      ensures p in s.files && !Spoiled(s, p) ==> Content(s.files, p) == Content(t.files, p)
    {
      assert SameView(s, t, p);
      if p in s.files && !Spoiled(s, p) {
        ContentIsView(s, p);
        ContentIsView(t, p);
      }
    }
  }

  /** What is known to be on disk for good is not part of any content. */
  lemma {:induction false} SyncedIsInvisible(s: State, t: State)
    requires t.files == s.files && t.live == s.live && t.marks.stale == s.marks.stale
    ensures Contents(t) == Contents(s)
  {
    hide Content, JournalNamed;
    forall p ensures Spoiled(s, p) <==> Spoiled(t, p) {}
  }

  // ----- every step keeps the invariant and has its atomic effect

  /** What a guarding journal allows its target to be. */
  ghost predicate Allows(s: State, jp: Path, content: Bytes)
    requires jp in s.live
  {
    if jp in s.marks.synced then Damaged(s.live[jp].orig, content, s.live[jp].Regs()) else content == s.live[jp].orig
  }

  /** Changing a guarded target in any way its journal can undo is invisible. */
  lemma {:induction false} TargetStepKeepsInv(s: State, jp: Path, content: Bytes)
    requires Inv(s) && Has(s, jp) && jp !in s.marks.stale && Allows(s, jp, content)
    ensures Inv(SetTarget(s, jp, content))
  {
    hide Damaged, JournalNamed, Fits, Record.Regs, Record.Bytes, Record.Path;
    var t := SetTarget(s, jp, content);
    assert JournalHolds(s, jp);
    forall q | q in t.live ensures q in t.files && JournalHolds(t, q) {
      assert JournalHolds(s, q);
    }
  }

  lemma {:induction false} TargetStep(s: State, jp: Path, content: Bytes)
    requires Inv(s) && Has(s, jp) && jp !in s.marks.stale && Allows(s, jp, content)
    ensures Inv(SetTarget(s, jp, content))
    ensures Contents(SetTarget(s, jp, content)) == Contents(s)
  {
    hide Damaged, JournalNamed, JournalHolds, Contents, Record.Regs, Record.Bytes, Record.Good, Record.Path;
    hide View, Spoiled, Allows;
    var t := SetTarget(s, jp, content);
    TargetStepKeepsInv(s, jp, content);
    forall p | !JournalNamed(p) ensures SameView(s, t, p) {
      assert p == s.live[jp].target ==> Pending(s, p);
      SamePending(s, t, p);
    }
    SameContents(s, t);
  }

  lemma {:induction false} WriteBlockStep(s: State, jp: Path, j: nat, m: nat)
    requires Inv(s) && Enabled(s, WriteBlock(jp, j, m))
    ensures Inv(Effect(s, WriteBlock(jp, j, m)))
    ensures Contents(Effect(s, WriteBlock(jp, j, m))) == Contents(s)
  {
    hide Contents, JournalNamed, Record.Bytes, Damaged, WriteAt, PatchBlock, Inv;
    var r := s.live[jp];
    var w := PatchBlock(r.edit, r.patch, j);
    GuardedIsDamaged(s, jp);
    TornApplyIsDamaged(r.orig, r.edit, Current(s, jp), j, w.data[..m]);
    TargetStep(s, jp, WriteAt(Current(s, jp), w.data[..m], w.off));
  }

  lemma {:induction false} CutToFinalStep(s: State, jp: Path)
    requires Inv(s) && Enabled(s, CutToFinal(jp))
    ensures Inv(Effect(s, CutToFinal(jp)))
    ensures Contents(Effect(s, CutToFinal(jp))) == Contents(s)
  {
    hide Contents, JournalNamed, Record.Bytes, Damaged, Truncate, Inv;
    var r := s.live[jp];
    GuardedIsDamaged(s, jp);
    CutIsDamaged(r.orig, r.edit, Current(s, jp));
    TargetStep(s, jp, Truncate(Current(s, jp), r.edit.finalSize));
  }

  /** A power loss may leave anything the journal can undo of a target that was not synced. */
  lemma {:induction false} LoseTargetStep(s: State, jp: Path, content: Bytes)
    requires Inv(s) && Enabled(s, LoseTarget(jp, content))
    ensures Inv(Effect(s, LoseTarget(jp, content)))
    ensures Contents(Effect(s, LoseTarget(jp, content))) == Contents(s)
  {
    hide Contents, JournalNamed, Record.Bytes, Record.Regs, Record.Good, Damaged, Inv;
    TargetStep(s, jp, content);
  }

  lemma {:induction false} ReadableWhole(s: State, jp: Path)
    requires Inv(s) && jp in s.live
    ensures jp in s.files && Readable(s.files[jp]) <= s.live[jp].Regs()
    ensures Whole(s, jp) ==> Readable(s.files[jp]) == s.live[jp].Regs()
  {
    hide Record.Bytes, Record.Regs, Parse, JournalNamed, Guards;
    assert JournalHolds(s, jp);
    ReadableIsSaved(s.live[jp], s.files[jp]);
  }

  lemma {:induction false} RestoreRegionStep(s: State, jp: Path, i: nat, m: nat)
    requires Inv(s) && Enabled(s, RestoreRegion(jp, i, m))
    ensures Inv(Effect(s, RestoreRegion(jp, i, m)))
    ensures Contents(Effect(s, RestoreRegion(jp, i, m))) == Contents(s)
  {
    hide Contents, JournalNamed, Record.Bytes, Record.Regs, Record.Good, Damaged, WriteAt, Readable, Inv, Pending;
    var r := s.live[jp];
    ReadableWhole(s, jp);
    var region := Readable(s.files[jp])[i];
    if jp in s.marks.stale {
      SpoiledStep(s, jp, WriteAt(Current(s, jp), region.data[..m], region.off));
    } else {
      GuardedIsDamaged(s, jp);
      RestoredIsAllowed(s, jp, i, m);
      TargetStep(s, jp, WriteAt(Current(s, jp), region.data[..m], region.off));
    }
  }

  lemma {:induction false} RestoredIsAllowed(s: State, jp: Path, i: nat, m: nat)
    requires Inv(s) && Has(s, jp) && jp !in s.marks.stale
    requires i < |Readable(s.files[jp])| && m <= |Readable(s.files[jp])[i].data|
    ensures var region := Readable(s.files[jp])[i];
      Allows(s, jp, WriteAt(Current(s, jp), region.data[..m], region.off))
  {
    hide JournalNamed, Record.Bytes, Record.Regs, Record.Path, Fits, Damaged, WriteAt, Readable;
    var r := s.live[jp];
    assert JournalHolds(s, jp);
    ReadableWhole(s, jp);
    GoodIsEncodable(r);
    var region := Readable(s.files[jp])[i];
    assert region == r.Regs()[i];
    if jp in s.marks.synced {
      PartialRestoreKeepsDamaged(r.orig, Current(s, jp), r.Regs(), i, m);
    } else {
      RestoreOverOld(r.orig, region, m);
    }
  }

  lemma {:induction false} RestoreSizeStep(s: State, jp: Path)
    requires Inv(s) && Enabled(s, RestoreSize(jp))
    ensures Inv(Effect(s, RestoreSize(jp)))
    ensures Contents(Effect(s, RestoreSize(jp))) == Contents(s)
  {
    hide Contents, JournalNamed, Record.Bytes, Record.Regs, Record.Good, Damaged, Truncate, Inv, Pending;
    if jp in s.marks.stale {
      SpoiledStep(s, jp, Truncate(Current(s, jp), |s.live[jp].orig|));
    } else {
      ResizedIsAllowed(s, jp);
      TargetStep(s, jp, Truncate(Current(s, jp), |s.live[jp].orig|));
    }
  }

  lemma {:induction false} ResizedIsAllowed(s: State, jp: Path)
    requires Inv(s) && Has(s, jp) && jp !in s.marks.stale
    ensures Allows(s, jp, Truncate(Current(s, jp), |s.live[jp].orig|))
  {
    hide JournalNamed, Record.Bytes, Record.Regs, Record.Path, Record.Good, Damaged;
    var r := s.live[jp];
    assert JournalHolds(s, jp);
    if jp in s.marks.synced {
      TruncateKeepsDamaged(r.orig, Current(s, jp), r.Regs(), |r.orig|);
    }
    assert Truncate(r.orig, |r.orig|) == r.orig;
  }

  lemma {:induction false} CreateJournalKeepsInv(s: State, r: Record)
    requires Inv(s) && Enabled(s, CreateJournal(r))
    ensures Inv(Effect(s, CreateJournal(r)))
  {
    hide JournalNamed, Fits, Damaged, Record.Regs, Record.Path, Record.Bytes;
    var t := Effect(s, CreateJournal(r));
    OwnJournalsAreTagged(r.target, r.tag);
    assert JournalNamed(r.Path()) by { RecordPath(r); }
    assert r.Path() !in s.live;
    NewJournalHolds(s, r);
    forall q | q in s.live ensures JournalHolds(t, q) {
      assert JournalHolds(s, q);
    }
    forall p | p in s.live && p !in s.marks.stale ensures s.live[p].target != r.target {
      assert !Pending(s, r.target);
    }
  }

  lemma {:induction false} RecordPath(r: Record)
    ensures r.Path() == JournalPath(r.target, r.tag)
  {
  }

  lemma {:induction false} NewJournalHolds(s: State, r: Record)
    requires Enabled(s, CreateJournal(r)) && JournalNamed(r.Path())
    ensures JournalHolds(Effect(s, CreateJournal(r)), r.Path())
  {
    hide JournalNamed, Record.Regs, Record.Path;
    var t := Effect(s, CreateJournal(r));
    assert t.files[r.target] == r.orig;
  }

  lemma {:induction false} CreateJournalStep(s: State, r: Record)
    requires Inv(s) && Enabled(s, CreateJournal(r))
    ensures Inv(Effect(s, CreateJournal(r)))
    ensures Contents(Effect(s, CreateJournal(r))) == Contents(s)
  {
    hide Contents, JournalNamed, JournalHolds, Fits, Damaged, Record.Regs, Record.Path, Record.Bytes;
    var t := Effect(s, CreateJournal(r));
    CreateJournalKeepsInv(s, r);
    assert JournalNamed(r.Path()) by { RecordPath(r); OwnJournalsAreTagged(r.target, r.tag); }
    assert r.Path() !in s.live && r.Path() !in s.marks.stale;
    forall p | !JournalNamed(p) ensures SameView(s, t, p) {
      if p == r.target {
        PendingView(t, r.Path());
      } else {
        SamePending(s, t, p);
      }
    }
    SameContents(s, t);
  }

  /** Growing a journal is invisible, up to and including the byte that makes it whole. */
  lemma {:induction false} JournalStepKeepsInv(s: State, jp: Path, bytes: Bytes)
    requires Inv(s) && jp in s.live && bytes <= s.live[jp].Bytes()
    requires jp in s.marks.synced && jp !in s.marks.stale ==> jp in s.files && bytes == s.files[jp]
    ensures Inv(s.(files := s.files[jp := bytes]))
  {
    hide JournalNamed, Fits, Damaged, Record.Regs, Record.Path, Record.Bytes;
    var t := s.(files := s.files[jp := bytes]);
    forall q | q in t.live ensures q in t.files && JournalHolds(t, q) {
      assert JournalHolds(s, q) && JournalHolds(s, jp);
    }
  }

  lemma {:induction false} JournalStep(s: State, jp: Path, bytes: Bytes)
    requires Inv(s) && jp in s.live && bytes <= s.live[jp].Bytes()
    requires jp in s.marks.synced && jp !in s.marks.stale ==> jp in s.files && bytes == s.files[jp]
    ensures Inv(s.(files := s.files[jp := bytes]))
    ensures Contents(s.(files := s.files[jp := bytes])) == Contents(s)
  {
    hide Contents, JournalNamed, Record.Regs, Record.Path, Record.Bytes, JournalHolds, View, Spoiled;
    var t := s.(files := s.files[jp := bytes]);
    JournalStepKeepsInv(s, jp, bytes);
    forall p | !JournalNamed(p) ensures SameView(s, t, p) {
      SamePending(s, t, p);
    }
    SameContents(s, t);
  }

  lemma {:induction false} AppendJournalStep(s: State, jp: Path, chunk: Bytes)
    requires Inv(s) && Enabled(s, AppendJournal(jp, chunk))
    ensures Inv(Effect(s, AppendJournal(jp, chunk)))
    ensures Contents(Effect(s, AppendJournal(jp, chunk))) == Contents(s)
  {
    hide Contents, Record.Regs, Record.Path, Record.Bytes, Fits, Damaged, JournalNamed;
    assert JournalHolds(s, jp);
    SyncedStays(s, jp, chunk);
    JournalStep(s, jp, s.files[jp] + chunk);
  }

  lemma {:induction false} SyncedStays(s: State, jp: Path, chunk: Bytes)
    requires Inv(s) && Enabled(s, AppendJournal(jp, chunk))
    ensures jp in s.marks.synced ==> s.files[jp] + chunk == s.files[jp] || jp in s.marks.stale
  {
    hide Record.Regs, Record.Path, Record.Bytes, Fits, Damaged, JournalNamed;
    assert JournalHolds(s, jp);
    if jp in s.marks.synced && jp !in s.marks.stale {
      assert |s.files[jp] + chunk| <= |s.live[jp].Bytes()|;
      assert chunk == [];
    }
  }

  /** A power loss may cut a journal that was not synced. */
  lemma {:induction false} LoseJournalStep(s: State, jp: Path, n: nat)
    requires Inv(s) && Enabled(s, LoseJournal(jp, n))
    ensures Inv(Effect(s, LoseJournal(jp, n)))
    ensures Contents(Effect(s, LoseJournal(jp, n))) == Contents(s)
  {
    hide Contents, Record.Regs, Record.Path, Record.Bytes, Guards, Fits, JournalNamed;
    assert JournalHolds(s, jp);
    JournalStep(s, jp, s.files[jp][..n]);
  }

  /** Once a whole journal is on disk for good, it guards its target against anything it can undo. */
  lemma {:induction false} SyncJournalStep(s: State, jp: Path)
    requires Inv(s) && Enabled(s, SyncJournal(jp))
    ensures Inv(Effect(s, SyncJournal(jp)))
    ensures Contents(Effect(s, SyncJournal(jp))) == Contents(s)
  {
    hide Contents, Record.Regs, Record.Path, Record.Bytes, Fits, Damaged, JournalNamed;
    var t := Effect(s, SyncJournal(jp));
    GuardedIsDamaged(s, jp);
    forall q | q in t.live ensures q in t.files && JournalHolds(t, q) {
      assert JournalHolds(s, q);
    }
    SyncedIsInvisible(s, t);
  }

  lemma {:induction false} SyncTargetStep(s: State, jp: Path)
    requires Inv(s) && Enabled(s, SyncTarget(jp))
    ensures Inv(Effect(s, SyncTarget(jp)))
    ensures Contents(Effect(s, SyncTarget(jp))) == Contents(s)
  {
    hide Contents, Record.Regs, Record.Path, Record.Bytes, Fits, Damaged, JournalNamed;
    var t := Effect(s, SyncTarget(jp));
    forall q | q in t.live ensures q in t.files && JournalHolds(t, q) {
      assert JournalHolds(s, q);
    }
    SyncedIsInvisible(s, t);
  }

  /** A journal nobody saw no longer guards its target, which stands for nothing from then on. */
  lemma {:induction false} OverlookStep(s: State, jp: Path)
    requires Inv(s) && Enabled(s, Overlook(jp))
    ensures Inv(Effect(s, Overlook(jp)))
    ensures Contents(Effect(s, Overlook(jp))) == Contents(s) - {s.live[jp].target}
  {
    hide Content, Inv, JournalNamed, Spoiled;
    OverlookKeepsInv(s, jp);
    OverlookSpoils(s, jp);
  }

  lemma {:induction false} OverlookKeepsInv(s: State, jp: Path)
    requires Inv(s) && Enabled(s, Overlook(jp))
    ensures Inv(Effect(s, Overlook(jp)))
  {
    hide Record.Regs, Record.Path, Record.Bytes, Fits, Damaged, JournalNamed;
    var t := Effect(s, Overlook(jp));
    forall q | q in t.live ensures q in t.files && JournalHolds(t, q) {
      assert JournalHolds(s, q);
    }
  }

  lemma {:induction false} OverlookSpoils(s: State, jp: Path)
    requires Enabled(s, Overlook(jp))
    ensures forall p :: Spoiled(Effect(s, Overlook(jp)), p) <==> Spoiled(s, p) || p == s.live[jp].target
  {
    var t := Effect(s, Overlook(jp));
    assert jp in t.live && jp in t.marks.stale;
  }

  lemma {:induction false} RemoveJournalKeepsInv(s: State, jp: Path)
    requires Inv(s) && jp in s.live
    ensures Inv(Removed(s, jp))
  {
    hide JournalNamed, Fits, Damaged, Record.Regs, Record.Path, Record.Bytes;
    var t := Removed(s, jp);
    forall q | q in t.live ensures q in t.files && JournalHolds(t, q) {
      assert JournalHolds(s, q) && JournalHolds(s, jp);
    }
  }

  /** The commit point. Dropping a journal shows the target's own bytes: the old ones after a rollback, the
      requested ones after an apply. No other file changes, and nothing is shown of a file that another journal
      still spoils. */
  lemma {:induction false} RemoveJournalStep(s: State, jp: Path)
    requires Inv(s) && Alone(s, jp)
    ensures Inv(Removed(s, jp))
    ensures Contents(Removed(s, jp)) ==
      if Spoiled(Removed(s, jp), s.live[jp].target) then Contents(s)
      else Contents(s)[s.live[jp].target := Current(s, jp)]
  {
    hide Content, JournalNamed, Fits, Damaged, Record.Regs, Record.Path, Record.Bytes, JournalHolds, View;
    hide Pending, Spoiled, JournalsAreLive, Record.Good;
    var t, target := Removed(s, jp), s.live[jp].target;
    RemoveJournalKeepsInv(s, jp);
    RemovedNames(s, jp);
    forall p | p in t.files && !JournalNamed(p) && !Spoiled(t, p)
      ensures p in s.files && Content(t.files, p) == if p == target then Current(s, jp) else Content(s.files, p)
    {
      ContentIsView(t, p);
      if p == target {
        UnpendingView(t, target);
      } else {
        ContentIsView(s, p);
        SamePending(s, t, p);
        assert SameView(s, t, p);
      }
    }
    assert JournalNamed(jp) by { LiveIsNamed(s, jp); }
    assert !JournalNamed(target) by { TargetIsNoJournal(s, jp); }
  }

  lemma {:induction false} LiveIsNamed(s: State, jp: Path)
    requires Inv(s) && jp in s.live
    ensures JournalNamed(jp)
  {
    hide JournalNamed, JournalHolds;
  }

  lemma {:induction false} TargetIsNoJournal(s: State, jp: Path)
    requires Has(s, jp)
    ensures !JournalNamed(s.live[jp].target)
  {
    hide Record.Bytes, Record.Regs, Record.Path, Fits, JournalNamed;
  }

  /** Who names whom once a journal is gone. */
  lemma {:induction false} RemovedNames(s: State, jp: Path)
    requires Inv(s) && Alone(s, jp)
    ensures var t := Removed(s, jp);
      && !Pending(t, s.live[jp].target)
      && (Spoiled(t, s.live[jp].target) ==> Spoiled(s, s.live[jp].target))
      && (jp !in s.marks.stale ==> (Spoiled(t, s.live[jp].target) <==> Spoiled(s, s.live[jp].target)))
      && (forall p :: p != s.live[jp].target ==> (Spoiled(t, p) <==> Spoiled(s, p)) && SameNaming(s, t, p))
  {
    hide JournalNamed, JournalHolds, Record.Good, JournalsAreLive;
    var t := Removed(s, jp);
    forall p | p != s.live[jp].target ensures (Spoiled(t, p) <==> Spoiled(s, p)) && SameNaming(s, t, p) {
      if Spoiled(s, p) {
        var q :| q in s.live && q in s.marks.stale && s.live[q].target == p;
        assert q in t.live && q in t.marks.stale;
      }
    }
    if Spoiled(s, s.live[jp].target) && jp !in s.marks.stale {
      var q :| q in s.live && q in s.marks.stale && s.live[q].target == s.live[jp].target;
      assert q in t.live && q in t.marks.stale;
    }
  }

  lemma {:induction false} UnpendingView(s: State, p: Path)
    requires p in s.files && !Pending(s, p)
    ensures View(s, p) == s.files[p]
  {
  }

  /** Moves on files the protocol has no part in do exactly what they say, to those files only. */
  lemma {:induction false} FreeStepKeepsInv(s: State, files: map<Path, Bytes>, settled: set<Path>)
    requires Inv(s)
    requires forall p :: !Free(s, p) ==> (p in s.files <==> p in files) && (p in s.files ==> s.files[p] == files[p])
    ensures Inv(State(files, s.live, s.marks.(settled := settled)))
  {
    hide JournalNamed, Fits, Damaged, Record.Regs, Record.Path, Record.Bytes;
    var t := State(files, s.live, s.marks.(settled := settled));
    forall q | q in t.live ensures q in t.files && JournalHolds(t, q) {
      assert JournalHolds(s, q);
      assert q !in s.marks.stale ==> Pending(s, s.live[q].target) && !Free(s, s.live[q].target);
      assert !Free(s, q);
    }
    forall p ensures p in t.live <==> p in t.files && JournalNamed(p) {
      assert Free(s, p) ==> !JournalNamed(p);
    }
  }

  lemma {:induction false} FreeStepContent(s: State, files: map<Path, Bytes>, settled: set<Path>, p: Path)
    requires Inv(s) && !JournalNamed(p) && p in files && !Spoiled(s, p)
    requires forall q :: !Free(s, q) ==> (q in s.files <==> q in files) && (q in s.files ==> s.files[q] == files[q])
    ensures Content(files, p) == if Free(s, p) then files[p] else Content(s.files, p)
    ensures !Free(s, p) ==> p in s.files
  {
    hide JournalNamed, Content, View, JournalHolds, JournalsAreLive;
    var t := State(files, s.live, s.marks.(settled := settled));
    FreeStepKeepsInv(s, files, settled);
    assert !Spoiled(t, p);
    ContentIsView(t, p);
    if Free(s, p) {
      assert !Pending(t, p);
      UnpendingView(t, p);
    } else {
      ContentIsView(s, p);
      SamePending(s, t, p);
    }
  }

  lemma {:induction false} FreeContent(s: State, p: Path)
    requires Inv(s) && Free(s, p) && p in s.files && !Spoiled(s, p)
    ensures Content(s.files, p) == s.files[p]
  {
    hide JournalNamed, Content, JournalHolds, JournalsAreLive, Spoiled;
    ContentIsView(s, p);
    UnpendingView(s, p);
  }

  lemma {:induction false} SpoiledAfter(s: State, t: State, p: Path)
    requires t.live == s.live && t.marks.stale == s.marks.stale
    ensures Spoiled(t, p) <==> Spoiled(s, p)
  {
  }

  lemma {:induction false} PutContents(s: State, p: Path, content: Bytes, settled: set<Path>)
    requires Inv(s) && Free(s, p)
    ensures var t := State(s.files[p := content], s.live, s.marks.(settled := settled));
      Inv(t) && Contents(t) == With(s, p, content)
  {
    hide JournalNamed, Content, Free, Inv, Spoiled;
    var t := State(s.files[p := content], s.live, s.marks.(settled := settled));
    assert Free(s, p) && !JournalNamed(p) by { FreeIs(s, p); }
    FreeStepKeepsInv(s, t.files, settled);
    forall q | q in t.files && !JournalNamed(q) && !Spoiled(s, q)
      ensures Content(t.files, q) == if q == p then content else Content(s.files, q)
    {
      FreeStepContent(s, t.files, settled, q);
      if q != p && Free(s, q) { FreeContent(s, q); }
    }
    forall q ensures Spoiled(t, q) <==> Spoiled(s, q) {
      SpoiledAfter(s, t, q);
    }
  }

  /** Rolling back an overlooked journal changes a file that stands for nothing. */
  lemma {:induction false} SpoiledStep(s: State, jp: Path, content: Bytes)
    requires Inv(s) && Alone(s, jp) && jp in s.marks.stale
    ensures Inv(SetTarget(s, jp, content)) && Contents(SetTarget(s, jp, content)) == Contents(s)
  {
    hide JournalNamed, Inv, Contents, Pending, Record.Good;
    TargetIsNoJournal(s, jp);
    PutContents(s, s.live[jp].target, content, s.marks.settled - {jp});
    assert Spoiled(s, s.live[jp].target);
  }

  lemma {:induction false} PutStep(s: State, p: Path, content: Bytes)
    requires Inv(s) && Enabled(s, Put(p, content))
    ensures Inv(Effect(s, Put(p, content)))
    ensures Contents(Effect(s, Put(p, content))) == With(s, p, content)
  {
    hide JournalNamed, Contents, Free, Inv, Spoiled;
    PutContents(s, p, content, s.marks.settled);
    assert s.marks.(settled := s.marks.settled) == s.marks;
  }

  lemma {:induction false} FreeIs(s: State, p: Path)
    ensures Free(s, p) <==> !JournalNamed(p) && !Pending(s, p)
  {
  }

  lemma {:induction false} DeleteStep(s: State, p: Path)
    requires Inv(s) && Enabled(s, Delete(p))
    ensures Inv(Effect(s, Delete(p)))
    ensures Contents(Effect(s, Delete(p))) == Contents(s) - {p}
  {
    hide JournalNamed, Content, Free, Inv, Spoiled;
    var t := s.(files := s.files - {p});
    FreeStepKeepsInv(s, t.files, s.marks.settled);
    assert s.marks.(settled := s.marks.settled) == s.marks;
    forall q | q in t.files && !JournalNamed(q) && !Spoiled(s, q)
      ensures Content(t.files, q) == Content(s.files, q)
    {
      FreeStepContent(s, t.files, s.marks.settled, q);
      if Free(s, q) { FreeContent(s, q); }
    }
    forall q ensures Spoiled(t, q) <==> Spoiled(s, q) {
      SpoiledAfter(s, t, q);
    }
  }

  lemma {:induction false} RenameStep(s: State, from: Path, to: Path)
    requires Inv(s) && Enabled(s, Rename(from, to))
    ensures Inv(Effect(s, Rename(from, to)))
    ensures Contents(Effect(s, Rename(from, to))) ==
      if Spoiled(s, to) then Contents(s) - {from} else (Contents(s) - {from})[to := s.files[from]]
  {
    hide JournalNamed, Content, Free, Inv, Spoiled;
    var t := s.(files := (s.files - {from})[to := s.files[from]]);
    assert Free(s, to) && !JournalNamed(to) by { FreeIs(s, to); }
    FreeStepKeepsInv(s, t.files, s.marks.settled);
    assert s.marks.(settled := s.marks.settled) == s.marks;
    forall q | q in t.files && !JournalNamed(q) && !Spoiled(s, q)
      ensures Content(t.files, q) == if q == to then s.files[from] else Content(s.files, q)
    {
      FreeStepContent(s, t.files, s.marks.settled, q);
      if q != to && Free(s, q) { FreeContent(s, q); }
    }
    forall q ensures Spoiled(t, q) <==> Spoiled(s, q) {
      SpoiledAfter(s, t, q);
    }
  }

  /** Atomic refinement, one step: whatever system call comes next, however little of it gets done, the
      disk stays recoverable and means what the atomic disk would mean. */
  lemma {:induction false} StepRefinesAtomic(s: State, a: Action)
    requires Inv(s) && Enabled(s, a)
    ensures Inv(Effect(s, a)) && Contents(Effect(s, a)) == AtomicEffect(s, a)
  {
    hide Inv, Enabled, Contents, Spoiled;
    match a
    case CreateJournal(r) => CreateJournalStep(s, r);
    case AppendJournal(jp, chunk) => AppendJournalStep(s, jp, chunk);
    case SyncJournal(jp) => SyncJournalStep(s, jp);
    case WriteBlock(jp, j, m) => WriteBlockStep(s, jp, j, m);
    case CutToFinal(jp) => CutToFinalStep(s, jp);
    case RestoreRegion(jp, i, m) => RestoreRegionStep(s, jp, i, m);
    case RestoreSize(jp) => RestoreSizeStep(s, jp);
    case SyncTarget(jp) => SyncTargetStep(s, jp);
    case RemoveJournal(jp) => RemoveJournalRefines(s, jp);
    case Overlook(jp) => OverlookStep(s, jp);
    case LoseJournal(jp, n) => LoseJournalStep(s, jp, n);
    case LoseTarget(jp, content) => LoseTargetStep(s, jp, content);
    case Put(p, content) => PutStep(s, p, content);
    case Delete(p) => DeleteStep(s, p);
    case Rename(from, to) => RenameStep(s, from, to);
  }

  lemma {:induction false} RemoveJournalRefines(s: State, jp: Path)
    requires Inv(s) && Enabled(s, RemoveJournal(jp))
    ensures Inv(Effect(s, RemoveJournal(jp)))
    ensures Contents(Effect(s, RemoveJournal(jp))) == AtomicEffect(s, RemoveJournal(jp))
  {
    hide Contents, Record.Bytes, Record.Next, JournalNamed, Spoiled, Pending, Inv, Record.Good;
    RemoveJournalStep(s, jp);
    RemovedNames(s, jp);
    if jp !in s.marks.stale && !Spoiled(s, s.live[jp].target) {
      PendingContent(s, jp);
      assert Contents(s)[s.live[jp].target := s.live[jp].orig] == Contents(s);
    }
  }

  /** While a journal guards it, a file means what the commit found. */
  lemma {:induction false} PendingContent(s: State, jp: Path)
    requires Inv(s) && jp in s.live && !Spoiled(s, s.live[jp].target)
    ensures Has(s, jp) && s.live[jp].target in Contents(s)
    ensures Contents(s)[s.live[jp].target] == s.live[jp].orig
  {
    hide Content, Record.Bytes, Record.Regs, Record.Path, JournalNamed, Damaged, Inv, Record.Good;
    assert jp !in s.marks.stale;
    GuardedIsDamaged(s, jp);
    TargetIsNoJournal(s, jp);
    ContentIs(s, s.live[jp].target);
  }

  /** With no journal naming it, it means its bytes. */
  lemma {:induction false} FreeContents(s: State, p: Path)
    requires Inv(s) && p in s.files && Free(s, p) && !Spoiled(s, p)
    ensures p in Contents(s) && Contents(s)[p] == s.files[p]
  {
    hide Content, Inv, JournalNamed, Spoiled;
    ContentIs(s, p);
  }

  // ----- power loss

  ghost predicate Loses(a: Action) {
    a.LoseJournal? || a.LoseTarget?
  }

  ghost predicate LossStep(s: State, t: State) {
    exists a :: Loses(a) && Enabled(s, a) && t == Effect(s, a)
  }

  /** A power loss: any journals and targets that were not synced lose what they may, one after the other. */
  ghost predicate IsLoss(loss: seq<State>) {
    |loss| > 0 && forall i :: 0 <= i < |loss| - 1 ==> LossStep(loss[i], loss[i + 1])
  }

  lemma {:induction false} LossIsInvisible(loss: seq<State>, i: nat)
    requires IsLoss(loss) && Inv(loss[0]) && i < |loss|
    ensures Inv(loss[i]) && Contents(loss[i]) == Contents(loss[0])
  {
    hide Inv, Contents, Enabled, Effect, AtomicEffect;
    if i > 0 {
      LossIsInvisible(loss, i - 1);
      assert LossStep(loss[i - 1], loss[i - 1 + 1]);
      var a :| Loses(a) && Enabled(loss[i - 1], a) && loss[i] == Effect(loss[i - 1], a);
      StepRefinesAtomic(loss[i - 1], a);
      LostIsInvisible(loss[i - 1], a);
    }
  }

  lemma {:induction false} LostIsInvisible(s: State, a: Action)
    requires Enabled(s, a) && Loses(a)
    ensures AtomicEffect(s, a) == Contents(s)
  {
    hide Contents, Enabled;
  }

  // ----- whole runs

  /** A disk nobody has edited in place yet. */
  ghost predicate Init(s: State) {
    s.live == map[] && s.marks == Marks({}, {}, {}) && forall p :: p in s.files ==> !JournalNamed(p)
  }

  ghost predicate Step(s: State, t: State) {
    exists a :: Enabled(s, a) && t == Effect(s, a)
  }

  ghost predicate IsRun(run: seq<State>) {
    |run| > 0 && Init(run[0]) && forall i :: 0 <= i < |run| - 1 ==> Step(run[i], run[i + 1])
  }

  /** One step of the atomic disk. */
  ghost predicate AtomicStep(s: State, t: State) {
    exists a :: Enabled(s, a) && Contents(t) == AtomicEffect(s, a)
  }

  lemma {:induction false} RunKeepsInv(run: seq<State>, i: nat)
    requires IsRun(run) && i < |run|
    ensures Inv(run[i])
  {
    hide Inv, Init, Enabled, Effect;
    if i == 0 {
      InitIsInv(run[0]);
    } else {
      RunKeepsInv(run, i - 1);
      assert Step(run[i - 1], run[i - 1 + 1]);
      var a :| Enabled(run[i - 1], a) && run[i] == Effect(run[i - 1], a);
      StepRefinesAtomic(run[i - 1], a);
    }
  }

  lemma {:induction false} InitIsInv(s: State)
    requires Init(s)
    ensures Inv(s)
  {
    hide JournalNamed;
  }

  /** Atomic refinement, whole runs: whatever mixture of commits, failing writes, crashes and power losses at any
      point of journalling, applying or rolling back, recoveries and moves on other files led here, every step was
      one of the atomic disk, and every state can be recovered. A file has two journals that would restore it
      only if one of them was overlooked. */
  lemma {:induction false} RunRefinesAtomic(run: seq<State>)
    requires IsRun(run)
    ensures forall i :: 0 <= i < |run| - 1 ==> AtomicStep(run[i], run[i + 1])
    ensures forall i :: 0 <= i < |run| ==> Inv(run[i])
    ensures forall i, p, q, t :: 0 <= i < |run| && Undoes(run[i].files, p, t) && Undoes(run[i].files, q, t) ==>
      p == q || Spoiled(run[i], t)
  {
    hide Inv, Enabled, Effect, AtomicEffect, Undoes, Spoiled;
    forall i | 0 <= i < |run| ensures Inv(run[i]) {
      RunKeepsInv(run, i);
    }
    forall i | 0 <= i < |run| - 1 ensures AtomicStep(run[i], run[i + 1]) {
      assert Step(run[i], run[i + 1]);
      var a :| Enabled(run[i], a) && run[i + 1] == Effect(run[i], a);
      StepRefinesAtomic(run[i], a);
    }
    forall i, p, q, t | 0 <= i < |run| && Undoes(run[i].files, p, t) && Undoes(run[i].files, q, t)
      ensures p == q || Spoiled(run[i], t)
    {
      UndoingIsWhole(run[i], p, t);
      UndoingIsWhole(run[i], q, t);
      SameTarget(run[i], p, q);
    }
  }

  lemma {:induction false} SameTarget(s: State, p: Path, q: Path)
    requires Inv(s) && p in s.live && q in s.live && s.live[p].target == s.live[q].target
    ensures p == q || Spoiled(s, s.live[p].target)
  {
    hide JournalHolds, JournalsAreLive;
  }
}
