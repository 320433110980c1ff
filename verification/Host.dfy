/** The host half of an in-place commit: the system calls, each of which may fail or be the last one before
    a crash, and the code that journals, applies, verifies, rolls back and sweeps. */
module Host {
  import opened Bytes
  import opened Wrappers
  import opened Paths
  import opened SavedRegions
  import opened JournalFormat
  import opened JournalNames
  import opened BlockEdit
  import opened CommitProtocol

  /** How a system call goes: through, with an error, or with the process gone. The last two may come after
      any part of its effect. */
  datatype Fate = Fine | Fails | Halts

  /** The error codes the commands report. */
  datatype Code = Usage | Changed | Mismatch | Io

  datatype Outcome = Done | Refused(code: Code) | Halted

  function OutcomeOf(f: Fate): Outcome {
    match f
    case Fine => Done
    case Fails => Refused(Io)
    case Halts => Halted
  }

  /** The identity the guards compare. */
  datatype Stat = Stat(size: nat, mtimeS: int, mtimeNS: int)

  class Disk {
    /** Every regular file by its path. */
    var files: map<Path, Bytes>
    ghost var live: map<Path, Record>
    ghost var marks: Marks
    /** Every state the disk went through. */
    ghost var run: seq<State>
    /** How many system calls failed or halted so far, how many of them halted, and every file whose mtime was set. */
    ghost var failures: nat
    ghost var halts: nat
    ghost var stamped: seq<Path>

    ghost function Now(): State
      reads this
    {
      State(files, live, marks)
    }

    ghost predicate Valid()
      reads this
    {
      IsRun(run) && run[|run| - 1] == Now() && Inv(Now())
    }

    constructor (files: map<Path, Bytes>)
      requires forall p :: p in files ==> !JournalNamed(p)
      ensures Valid() && this.files == files && live == map[] && marks == Marks({}, {}, {})
    {
      var none: set<Path> := {};
      this.files, live, marks := files, map[], Marks(none, none, none);
      failures, halts, stamped := 0, 0, [];
      run := [State(files, map[], Marks(none, none, none))];
      new;
      InitIsInv(Now());
    }

    /** No system call has failed or halted since. */
    twostate predicate Calm()
      reads this
    {
      failures == old(failures)
    }

    /** This is how it ended, and it ended early only if the process was gone. */
    twostate predicate Ended(o: Outcome)
      reads this
    {
      o == Halted <==> halts != old(halts)
    }

    /** The mtime of p was set at most, and only if that was asked for; and so it was if the rest went through. */
    twostate predicate Stamps(p: Path, asked: bool, through: bool)
      reads this
    {
      && (stamped == old(stamped) || (asked && stamped == old(stamped) + [p]))
      && (through ==> stamped == old(stamped) + if asked then [p] else [])
    }

    /** The disk went on from where it was. */
    twostate predicate Moved()
      reads this
    {
      Valid() && old(run) <= run && old(failures) <= failures && old(halts) <= halts
    }

    /** And no mtime was set. */
    twostate predicate Ran()
      reads this
    {
      Moved() && stamped == old(stamped)
    }

    /** Nothing happened that any content shows: only bytes a journal can undo changed, and what is synced. */
    twostate predicate Quiet()
      reads this
    {
      Ran() && live == old(live) && marks.stale == old(marks.stale) && Contents(Now()) == old(Contents(Now()))
    }

    /** How the outcome of a system call goes with the failures counted. */
    twostate predicate Went(o: Outcome)
      reads this
    {
      && old(failures) <= failures && old(halts) <= halts && Ended(o)
      && (o == Done <==> Calm()) && (o.Refused? ==> o == Refused(Io))
    }

    // ----- system calls

    method Syscall() returns (f: Fate)
      modifies this`failures, this`halts
      ensures failures == old(failures) + if f == Fine then 0 else 1
      ensures halts == old(halts) + if f == Halts then 1 else 0
    {
      f := *;
      if f != Fine {
        failures := failures + 1;
      }
      if f == Halts {
        halts := halts + 1;
      }
    }

    /** A call with another way to go if it fails; only an end of the process counts. */
    method Try() returns (f: Fate)
      modifies this`failures, this`halts
      ensures old(failures) <= failures && (f != Halts <==> Calm())
      ensures halts == old(halts) + if f == Halts then 1 else 0
    {
      f := *;
      if f == Halts {
        failures, halts := failures + 1, halts + 1;
      }
    }

    /** pwrite: when it does not go through, any leading part of the data may have been written. */
    method Pwrite(p: Path, data: Bytes, off: nat) returns (o: Outcome, ghost m: nat)
      requires p in files
      modifies this`files, this`failures, this`halts
      ensures m <= |data| && files == old(files)[p := WriteAt(old(files[p]), data[..m], off)]
      ensures Went(o) && (o == Done ==> m == |data|)
    {
      var f := Syscall();
      var n: nat := |data|;
      if f != Fine {
        n :| 0 <= n <= |data|;
      }
      files := files[p := WriteAt(files[p], data[..n], off)];
      o, m := OutcomeOf(f), n;
    }

    /** A call that takes effect or not: always when it goes through, never when it fails. */
    method Attempt() returns (o: Outcome, now: bool)
      modifies this`failures, this`halts
      ensures Went(o) && (o == Done ==> now) && (o.Refused? ==> !now)
    {
      var f := Syscall();
      now := f == Fine;
      if f == Halts {
        now := *;
      }
      o := OutcomeOf(f);
    }

    method Ftruncate(p: Path, size: nat) returns (o: Outcome, ghost happened: bool)
      requires p in files
      modifies this`files, this`failures, this`halts
      ensures files == if happened then old(files)[p := Truncate(old(files[p]), size)] else old(files)
      ensures Went(o) && (o == Done ==> happened) && (o.Refused? ==> !happened)
    {
      var now: bool;
      o, now := Attempt();
      if now {
        files := files[p := Truncate(files[p], size)];
      }
      happened := now;
    }

    method Unlink(p: Path) returns (o: Outcome, ghost happened: bool)
      requires p in files
      modifies this`files, this`failures, this`halts
      ensures files == if happened then old(files) - {p} else old(files)
      ensures Went(o) && (o == Done ==> happened) && (o.Refused? ==> !happened)
    {
      var now: bool;
      o, now := Attempt();
      if now {
        files := files - {p};
      }
      happened := now;
    }

    /** utimes. */
    method Stamp(p: Path) returns (o: Outcome)
      modifies this`stamped, this`failures, this`halts
      ensures Went(o) && (stamped == old(stamped) || stamped == old(stamped) + [p])
      ensures (o == Done ==> stamped == old(stamped) + [p]) && (o.Refused? ==> stamped == old(stamped))
    {
      var now: bool;
      o, now := Attempt();
      if now {
        stamped := stamped + [p];
      }
    }

    // ----- the run

    /** Records the step the files just took. */
    ghost method Took(a: Action)
      requires IsRun(run) && Inv(run[|run| - 1]) && Enabled(run[|run| - 1], a)
      requires files == Effect(run[|run| - 1], a).files
      modifies this`live, this`marks, this`run
      ensures Valid() && old(run) < run
      ensures Now() == Effect(old(run)[|old(run)| - 1], a)
      ensures Contents(Now()) == AtomicEffect(old(run)[|old(run)| - 1], a)
    {
      hide Inv, Enabled, Effect, AtomicEffect, Contents, Init;
      var s := run[|run| - 1];
      var t := Effect(s, a);
      StepRefinesAtomic(s, a);
      RunExtends(run, a);
      live, marks := t.live, t.marks;
      run := run + [t];
    }

    /** Whatever guards p is overlooked from here on: the code goes ahead without it. */
    ghost method Ignore(p: Path)
      requires Valid()
      modifies this`live, this`marks, this`run
      ensures Valid() && old(run) <= run && live == old(live) && !Pending(Now(), p)
      ensures !old(Pending(Now(), p)) ==> Now() == old(Now())
      ensures Contents(Now()) == if old(Pending(Now(), p)) then old(Contents(Now())) - {p} else old(Contents(Now()))
      ensures old(marks.stale) <= marks.stale && marks.synced == old(marks.synced)
        && marks.settled == old(marks.settled)
      ensures forall q :: q in marks.stale && q !in old(marks.stale) ==> q in live && live[q].target == p
      ensures forall q :: Spoiled(Now(), q) <==> old(Spoiled(Now(), q)) || (q == p && old(Pending(Now(), p)))
      ensures forall q :: q != p ==> (Pending(Now(), q) <==> old(Pending(Now(), q)))
    {
      hide IsRun, Inv, Enabled, Effect, AtomicEffect, Contents, JournalNamed, Pending, Spoiled;
      var s := Now();
      if Pending(s, p) {
        var jp := OverlookTaken(s, p);
        Took(Overlook(jp));
      }
    }

    // ----- power loss

    /** What a journal was not synced of may be cut off. */
    method LoseJournalEnd(jp: Path, n: nat)
      requires Valid() && jp in live && jp in files && jp !in marks.synced && n <= |files[jp]|
      modifies this
      ensures Quiet() && marks == old(marks) && files == old(files)[jp := old(files[jp])[..n]]
    {
      hide IsRun, Inv, Enabled, Effect, AtomicEffect, Contents, JournalNamed;
      LoseJournalTaken(Now(), jp, n);
      files := files[jp := files[jp][..n]];
      Took(LoseJournal(jp, n));
    }

    /** A target that was not synced may come back as anything its journal can undo. */
    method LoseTargetBytes(jp: Path, target: Path, content: Bytes)
      requires Valid() && Armed(Now(), jp) && jp !in marks.settled && target == live[jp].target
      requires Damaged(live[jp].orig, content, live[jp].Regs())
      modifies this
      ensures Quiet() && Armed(Now(), jp) && files == old(files)[target := content]
    {
      hide IsRun, Inv, Enabled, Effect, AtomicEffect, Contents, JournalNamed, Damaged;
      hide Record.Bytes, Record.Regs, Record.Good;
      ghost var s := Now();
      LoseTargetTaken(s, jp, content);
      files := files[target := content];
      Took(LoseTarget(jp, content));
      HasKept(s, jp, content);
    }

    // ----- journalling

    /** Creates an empty journal, unless the name is taken. */
    method Create(jp: Path, ghost r: Record) returns (o: Outcome)
      requires Valid() && r.Good() && jp == r.Path() && r.target in files && files[r.target] == r.orig
      requires !Pending(Now(), r.target)
      modifies this
      ensures Ran() && Contents(Now()) == old(Contents(Now())) && marks.stale == old(marks.stale)
      ensures files - {jp} == old(files) - {jp} && (jp in old(files) ==> files == old(files))
      ensures o == Done ==> jp !in old(files) && files == old(files)[jp := []] && live == old(live)[jp := r]
      ensures o == Done ==> jp !in marks.synced && jp in marks.settled && Calm()
      ensures o != Done ==> jp in old(files) || !Calm()
      ensures Ended(o) && (o.Refused? ==> o == Refused(Io))
    {
      hide IsRun, Inv, Enabled, Effect, AtomicEffect, Contents, JournalNamed, Pending;
      hide Record.Bytes, Record.Regs, Record.Good, Record.Path;
      ghost var s := Now();
      if jp in files {
        return Refused(Io);
      }
      var created: bool;
      o, created := Attempt();
      if created {
        files := files[jp := []];
        CreateTaken(s, r);
        Took(CreateJournal(r));
      }
    }

    /** One write to a journal; what is left of it is `rest`. */
    method Append(jp: Path, chunk: Bytes, ghost rest: Bytes) returns (o: Outcome)
      requires Valid() && jp in live && jp in files && files[jp] + (chunk + rest) == live[jp].Bytes()
      modifies this
      ensures Quiet() && Went(o) && marks == old(marks) && jp in files && files == old(files)[jp := files[jp]]
      ensures o == Done ==> files[jp] == old(files[jp]) + chunk && files[jp] + rest == live[jp].Bytes()
    {
      hide IsRun, Inv, Enabled, Effect, AtomicEffect, Contents, JournalNamed;
      hide Record.Bytes, Record.Regs, Record.Good, Record.Path;
      ghost var s := Now();
      var f := Syscall();
      var n: nat := |chunk|;
      if f != Fine {
        n :| 0 <= n <= |chunk|;
      }
      files := files[jp := files[jp] + chunk[..n]];
      o := OutcomeOf(f);
      AppendTaken(s, jp, chunk, n, rest);
      Took(AppendJournal(jp, chunk[..n]));
      assert s.files[jp] + chunk + rest == s.files[jp] + (chunk + rest);
    }

    /** fsync of a whole journal, which may come too late even if it fails. */
    method SyncNew(jp: Path) returns (o: Outcome)
      requires Valid() && Whole(Now(), jp) && jp !in marks.stale
      modifies this
      ensures Quiet() && Went(o) && files == old(files) && marks.settled == old(marks.settled)
      ensures o == Done ==> Armed(Now(), jp)
    {
      hide IsRun, Inv, Enabled, Effect, AtomicEffect, Contents, JournalNamed, Whole;
      ghost var s := Now();
      var f := Syscall();
      o := OutcomeOf(f);
      if f == Fine {
        SyncJournalTaken(s, jp);
        Took(SyncJournal(jp));
      }
    }

    /** fsync of a journal's target. */
    method SyncOld(jp: Path) returns (o: Outcome)
      requires Valid() && Has(Now(), jp)
      modifies this
      ensures Quiet() && Went(o) && files == old(files) && marks.synced == old(marks.synced)
      ensures o == Done ==> jp in marks.settled
      ensures (old(Whole(Now(), jp)) ==> Whole(Now(), jp)) && (old(Alone(Now(), jp)) ==> Alone(Now(), jp))
    {
      hide IsRun, Inv, Enabled, Effect, AtomicEffect, Contents, JournalNamed, Has, Whole, Alone;
      ghost var s := Now();
      var f := Syscall();
      o := OutcomeOf(f);
      if f == Fine {
        SyncTargetTaken(s, jp);
        Took(SyncTarget(jp));
      }
    }

    /** The old bytes of everything the apply will destroy, written down before any of it is. */
    method WriteJournal(
      jp: Path, target: Path, origSize: nat, finalSize: nat, block: nat, indices: seq<nat>, ghost r: Record)
      returns (o: Outcome)
      requires Valid() && r.Good() && jp == r.Path() && target == r.target && target in files
      requires files[target] == r.orig && origSize == |r.orig| && r.edit == EditOf(block, finalSize, indices)
      requires !Pending(Now(), target)
      modifies this
      ensures Ran() && Contents(Now()) == old(Contents(Now())) && marks.stale == old(marks.stale)
      ensures files - {jp} == old(files) - {jp} && (jp in old(files) ==> files == old(files))
      ensures o == Done ==> jp !in old(files) && files == old(files)[jp := r.Bytes()] && live == old(live)[jp := r]
      ensures o == Done ==> Armed(Now(), jp) && Calm()
      ensures o != Done ==> jp in old(files) || !Calm()
      ensures Ended(o) && (o.Refused? ==> o == Refused(Io))
    {
      hide IsRun, Inv, Enabled, Effect, AtomicEffect, Contents, JournalNamed, Pending;
      hide Record.Bytes, Record.Regs, Record.Good, Record.Path, PutUint64, Saved, SerializeRegions, Rest;
      FreshIsNotStale(Now(), jp);
      o := Create(jp, r);
      if o != Done { return; }
      RestIsAll(r);
      o := FillJournal(jp, target, origSize, finalSize, block, indices, r);
    }

    /** What goes into a new journal, and the sync that makes it count. */
    method FillJournal(
      jp: Path, target: Path, origSize: nat, finalSize: nat, block: nat, indices: seq<nat>, ghost r: Record)
      returns (o: Outcome)
      requires Valid() && jp in live && live[jp] == r && jp !in marks.stale && r.Good()
      requires jp in files && files[jp] + Rest(r, 0) == r.Bytes() && jp != target && target == r.target
      requires target in files && files[target] == r.orig
      requires origSize == |r.orig| && r.edit == EditOf(block, finalSize, indices)
      modifies this
      ensures Quiet() && Went(o) && files - {jp} == old(files) - {jp} && jp in files
      ensures marks.settled == old(marks.settled)
      ensures o == Done ==> files == old(files)[jp := r.Bytes()] && Armed(Now(), jp)
    {
      hide IsRun, Inv, Enabled, Effect, AtomicEffect, Contents, JournalNamed;
      hide Record.Bytes, Record.Regs, Record.Good, Record.Path, PutUint64, Saved, SerializeRegions, Rest;
      o := WriteHeader(jp, target, origSize, finalSize, r);
      if o != Done { return; }
      o := WriteBody(jp, target, origSize, finalSize, block, indices, r);
      if o != Done { return; }
      o := SyncNew(jp);
    }

    /** How many regions there are, and the regions. */
    method WriteBody(
      jp: Path, target: Path, origSize: nat, finalSize: nat, block: nat, indices: seq<nat>, ghost r: Record)
      returns (o: Outcome)
      requires Valid() && jp in live && live[jp] == r && r.Good()
      requires jp in files && files[jp] + Rest(r, 5) == r.Bytes() && jp != target && target == r.target
      requires target in files && files[target] == r.orig
      requires origSize == |r.orig| && r.edit == EditOf(block, finalSize, indices)
      modifies this
      ensures Quiet() && Went(o) && marks == old(marks) && jp in files && files == old(files)[jp := files[jp]]
      ensures o == Done ==> files[jp] == r.Bytes()
    {
      hide IsRun, Inv, Enabled, Effect, AtomicEffect, Contents, JournalNamed;
      hide Record.Bytes, Record.Regs, Record.Good, Record.Path, PutUint64, Saved, SerializeRegions, Rest;
      var spans := SpansToSave(origSize, finalSize, block, indices, r.orig);
      RegsAreSaved(r);
      RestSplits(r);
      o := Append(jp, PutUint64(|spans|), Rest(r, 6));
      if o != Done { return; }
      o := WriteRegions(jp, target, spans, r);
    }

    method WriteHeader(jp: Path, target: Path, origSize: nat, finalSize: nat, ghost r: Record) returns (o: Outcome)
      requires Valid() && jp in live && live[jp] == r && jp in files && files[jp] + Rest(r, 0) == r.Bytes()
      requires target == r.target && origSize == |r.orig| && finalSize == r.edit.finalSize
      modifies this
      ensures Quiet() && Went(o) && marks == old(marks) && jp in files && files == old(files)[jp := files[jp]]
      ensures o == Done ==> files[jp] + Rest(r, 5) == r.Bytes()
    {
      hide IsRun, Inv, Enabled, Effect, AtomicEffect, Contents, JournalNamed;
      hide Record.Bytes, Record.Regs, Record.Good, Record.Path, PutUint64, Rest, SerializeRegions;
      o := WriteTarget(jp, target, r);
      if o != Done { return; }
      o := WriteSizes(jp, origSize, finalSize, r);
    }

    method WriteTarget(jp: Path, target: Path, ghost r: Record) returns (o: Outcome)
      requires Valid() && jp in live && live[jp] == r && jp in files && files[jp] + Rest(r, 0) == r.Bytes()
      requires target == r.target
      modifies this
      ensures Quiet() && Went(o) && marks == old(marks) && jp in files && files == old(files)[jp := files[jp]]
      ensures o == Done ==> files[jp] + Rest(r, 3) == r.Bytes()
    {
      hide IsRun, Inv, Enabled, Effect, AtomicEffect, Contents, JournalNamed;
      hide Record.Bytes, Record.Regs, Record.Good, Record.Path, PutUint64, Rest, SerializeRegions;
      RestSplits(r);
      o := Append(jp, MAGIC, Rest(r, 1));
      if o != Done { return; }
      o := Append(jp, PutUint64(|target|), Rest(r, 2));
      if o != Done { return; }
      o := Append(jp, target, Rest(r, 3));
    }

    method WriteSizes(jp: Path, origSize: nat, finalSize: nat, ghost r: Record) returns (o: Outcome)
      requires Valid() && jp in live && live[jp] == r && jp in files && files[jp] + Rest(r, 3) == r.Bytes()
      requires origSize == |r.orig| && finalSize == r.edit.finalSize
      modifies this
      ensures Quiet() && Went(o) && marks == old(marks) && jp in files && files == old(files)[jp := files[jp]]
      ensures o == Done ==> files[jp] + Rest(r, 5) == r.Bytes()
    {
      hide IsRun, Inv, Enabled, Effect, AtomicEffect, Contents, JournalNamed;
      hide Record.Bytes, Record.Regs, Record.Good, Record.Path, PutUint64, Rest, SerializeRegions;
      RestSplits(r);
      o := Append(jp, PutUint64(origSize), Rest(r, 4));
      if o != Done { return; }
      o := Append(jp, PutUint64(finalSize), Rest(r, 5));
    }

    /** Reads one region of the target and writes offset, length and bytes. */
    method WriteRegion(jp: Path, off: nat, data: Bytes, ghost tail: Bytes) returns (o: Outcome)
      requires Valid() && jp in live && jp in files
      requires files[jp] + (PutUint64(off) + (PutUint64(|data|) + (data + tail))) == live[jp].Bytes()
      modifies this
      ensures Quiet() && Went(o) && marks == old(marks) && jp in files && files == old(files)[jp := files[jp]]
      ensures o == Done ==> files[jp] + tail == live[jp].Bytes()
    {
      hide IsRun, Inv, Enabled, Effect, AtomicEffect, Contents, JournalNamed;
      hide Record.Bytes, Record.Regs, Record.Good, Record.Path, PutUint64;
      var f := Syscall();
      o := OutcomeOf(f);
      if o != Done { return; }
      o := Append(jp, PutUint64(off), PutUint64(|data|) + (data + tail));
      if o != Done { return; }
      o := Append(jp, PutUint64(|data|), data + tail);
      if o != Done { return; }
      o := Append(jp, data, tail);
    }

    method WriteRegions(jp: Path, target: Path, spans: seq<Span>, ghost r: Record) returns (o: Outcome)
      requires Valid() && jp in live && live[jp] == r && r.Good() && jp in files
      requires target == r.target && target in files && jp != target && files[target] == r.orig
      requires AreSpans(spans, r.Regs()) && files[jp] + SerializeRegions(r.Regs()) == r.Bytes()
      modifies this
      ensures Quiet() && Went(o) && marks == old(marks) && jp in files && files == old(files)[jp := files[jp]]
      ensures o == Done ==> files[jp] == r.Bytes()
    {
      hide IsRun, Inv, Enabled, Effect, AtomicEffect, Contents, JournalNamed;
      hide Record.Bytes, Record.Regs, Record.Good, Record.Path, PutUint64, SerializeRegions;
      ghost var regs := r.Regs();
      GoodIsEncodable(r);
      assert regs[0..] == regs;
      o := Done;
      for i := 0 to |spans|
        invariant Quiet() && marks == old(marks) && jp in files && files == old(files)[jp := files[jp]]
        invariant files[jp] + SerializeRegions(regs[i..]) == r.Bytes()
        invariant Calm() && halts == old(halts) && o == Done
      {
        SerializeNext(regs, i);
        assert FaithfulRegion(r.orig, regs[i]);
        var off, length := spans[i].off, spans[i].length;
        var data := files[target][off..off + length];
        o := WriteRegion(jp, off, data, SerializeRegions(regs[i + 1..]));
        if o != Done { return; }
      }
      SerializeNone(regs);
      assert files[jp] + [] == files[jp];
    }

    // ----- writes to the target

    /** Writes one changed block's new bytes, or some of them. */
    method OverwriteBlock(jp: Path, target: Path, off: nat, data: Bytes, ghost j: nat) returns (o: Outcome)
      requires Valid() && Armed(Now(), jp) && target == live[jp].target && j < |live[jp].edit.offs|
      requires PatchBlock(live[jp].edit, live[jp].patch, j) == Region(off, data)
      modifies this
      ensures Quiet() && Went(o) && Armed(Now(), jp)
      ensures target in old(files) && target in files && files == old(files)[target := files[target]]
      ensures o == Done ==> files[target] == WriteAt(old(files[target]), data, off)
    {
      hide IsRun, Inv, Enabled, Effect, AtomicEffect, Contents, JournalNamed;
      hide Record.Bytes, Record.Regs, Record.Good, Record.Path, WriteAt, PatchBlock;
      ghost var s := Now();
      ghost var m: nat;
      o, m := Pwrite(target, data, off);
      WriteBlockTaken(s, jp, j, m);
      Took(WriteBlock(jp, j, m));
      HasKept(s, jp, files[target]);
      assert data[..|data|] == data;
    }

    method CutFile(jp: Path, target: Path, finalSize: nat) returns (o: Outcome)
      requires Valid() && Armed(Now(), jp) && target == live[jp].target && finalSize == live[jp].edit.finalSize
      modifies this
      ensures Quiet() && Went(o) && Armed(Now(), jp)
      ensures target in old(files) && target in files && files == old(files)[target := files[target]]
      ensures o == Done ==> files[target] == Truncate(old(files[target]), finalSize)
    {
      hide IsRun, Inv, Enabled, Effect, AtomicEffect, Contents, JournalNamed;
      hide Record.Bytes, Record.Regs, Record.Good, Record.Path, Truncate;
      ghost var s := Now();
      ghost var happened: bool;
      o, happened := Ftruncate(target, finalSize);
      if happened {
        CutTaken(s, jp);
        Took(CutToFinal(jp));
        HasKept(s, jp, files[target]);
      }
    }

    /** Writes back one region the journal has, or some of it. */
    method PutBackRegion(jp: Path, target: Path, region: Region, ghost i: nat) returns (o: Outcome)
      requires Valid() && Alone(Now(), jp) && target == live[jp].target
      requires i < |Readable(files[jp])| && Readable(files[jp])[i] == region
      modifies this
      ensures Quiet() && Went(o) && Alone(Now(), jp) && files[jp] == old(files[jp]) && marks.synced == old(marks.synced)
      ensures target in old(files) && target in files && files == old(files)[target := files[target]]
      ensures o == Done ==> files[target] == WriteAt(old(files[target]), region.data, region.off)
    {
      hide IsRun, Inv, Enabled, Effect, AtomicEffect, Contents, JournalNamed, Pending;
      hide Record.Bytes, Record.Regs, Record.Good, Record.Path, WriteAt, Readable;
      ghost var s := Now();
      ghost var m: nat;
      o, m := Pwrite(target, region.data, region.off);
      RestoreRegionTaken(s, jp, i, m);
      Took(RestoreRegion(jp, i, m));
      HasKept(s, jp, files[target]);
      assert region.data[..|region.data|] == region.data;
    }

    method PutBackSize(jp: Path, target: Path, size: nat) returns (o: Outcome)
      requires Valid() && Whole(Now(), jp) && Alone(Now(), jp)
      requires target == live[jp].target && size == |live[jp].orig|
      modifies this
      ensures Quiet() && Went(o) && Whole(Now(), jp) && Alone(Now(), jp)
      ensures target in old(files) && target in files && files == old(files)[target := files[target]]
      ensures o == Done ==> files[target] == Truncate(old(files[target]), size)
    {
      hide IsRun, Inv, Enabled, Effect, AtomicEffect, Contents, JournalNamed, Pending;
      hide Record.Bytes, Record.Regs, Record.Good, Record.Path, Truncate;
      ghost var s := Now();
      ghost var happened: bool;
      o, happened := Ftruncate(target, size);
      if happened {
        RestoreSizeTaken(s, jp);
        Took(RestoreSize(jp));
        HasKept(s, jp, files[target]);
      }
    }

    /** Drops a whole journal whose target is on disk for good: the commit point when the target holds the new
        content, the end of a rollback when it holds the old. */
    method DropJournal(jp: Path) returns (o: Outcome, ghost happened: bool)
      requires Valid() && Whole(Now(), jp) && Alone(Now(), jp) && jp in marks.settled
      requires jp in marks.stale || files[live[jp].target] == live[jp].orig || files[live[jp].target] == live[jp].Next()
      modifies this
      ensures Ran() && Went(o)
      ensures (o == Done ==> happened) && (o.Refused? ==> !happened)
      ensures Now() == if happened then Removed(old(Now()), jp) else old(Now())
      ensures happened ==> Contents(Now()) == if Spoiled(Now(), old(live[jp]).target) then old(Contents(Now()))
        else old(Contents(Now()))[old(live[jp]).target := old(files[live[jp].target])]
    {
      hide IsRun, Inv, Enabled, Effect, AtomicEffect, Contents, JournalNamed, Pending, Spoiled;
      hide Record.Bytes, Record.Regs, Record.Good, Record.Path, Record.Next;
      ghost var s := Now();
      o, happened := Unlink(jp);
      if happened {
        RemoveTaken(s, jp);
        Took(RemoveJournal(jp));
      }
    }

    // ----- rollback

    /** The regions a journal has, written back one by one until one cannot be read. */
    method PutBackRegions(jp: Path, target: Path, body: Bytes, count: int) returns (o: Outcome)
      requires Valid() && Alone(Now(), jp) && target == live[jp].target
      requires Readable(files[jp]) == ReadRegions(body, count).regs
      modifies this
      ensures Quiet() && Alone(Now(), jp) && files[jp] == old(files[jp]) && marks.synced == old(marks.synced)
      ensures target in old(files) && target in files && files == old(files)[target := files[target]]
      ensures o == Done ==> ReadRegions(body, count).done && Calm()
      ensures o == Done ==> files[target] == Replay(old(files[target]), ReadRegions(body, count).regs)
      ensures Calm() ==> (o == Done <==> ReadRegions(body, count).done) && o != Halted
      ensures Ended(o) && (o.Refused? ==> o == Refused(Io))
    {
      hide IsRun, Inv, Enabled, Effect, AtomicEffect, Contents, JournalNamed, Pending;
      hide Record.Bytes, Record.Regs, Record.Good, Record.Path;
      hide ReadRegion, ReadMany, ReadRegions, Replay, WriteAt, Readable;
      ghost var all := ReadRegions(body, count);
      ghost var start := files[target];
      ReplayNone(start);
      ReadRegionsIs(body, count);
      var k, rest := 0, body;
      o := Done;
      while k < count
        invariant 0 <= k <= |all.regs| && (k <= count || k == 0)
        invariant Quiet() && Alone(Now(), jp) && files[jp] == old(files[jp]) && marks.synced == old(marks.synced)
        invariant target in files && files == old(files)[target := files[target]]
        invariant Calm() && halts == old(halts) && o == Done
        invariant all.regs[k..] == ReadMany(ReadRegion, rest, count - k).regs
        invariant all.done == ReadMany(ReadRegion, rest, count - k).done
        invariant files[target] == Replay(start, all.regs[..k])
      {
        var next := ReadRegion(rest);
        ReadManyNext(rest, count - k);
        if next.Short? {
          return Refused(Io);
        }
        ReplayOneMore(start, all.regs, k);
        o := PutBackRegion(jp, target, next.value, k);
        if o != Done { return; }
        k, rest := k + 1, next.rest;
      }
      ReadManyNext(rest, count - k);
      assert all.regs[..k] == all.regs;
    }

    /** Restores a journal's target and drops the journal. A journal that is not there is no error. One that was
        overlooked is rolled back all the same, over whatever its target holds by now. */
    method RollbackJournal(jp: Path) returns (o: Outcome)
      requires Valid() && JournalNamed(jp)
      modifies this
      ensures Ran() && Kept(old(Now()), Now())
      ensures jp !in old(files) ==> Now() == old(Now()) && (Calm() ==> o == Done)
      ensures jp in old(files) ==> jp in old(live) && Touched(old(Now()), Now(), jp)
      ensures jp in old(files) && jp !in old(marks.stale) ==> Contents(Now()) == old(Contents(Now()))
      ensures o == Done && jp in old(files) ==> old(Whole(Now(), jp)) && RolledBack(old(Now()), Now(), jp)
      ensures o != Done && o != Halted ==> live == old(live) && (jp in files <==> jp in old(files))
      ensures o == Done ==> jp !in files
      ensures jp in old(files) && jp !in old(marks.stale) && !old(Whole(Now(), jp)) ==> Now().files == old(files)
      ensures Calm() ==> o != Halted && (o == Done <==> jp in old(files) ==> old(Whole(Now(), jp)))
      ensures Ended(o) && (o.Refused? ==> o == Refused(Io))
    {
      hide IsRun, Inv, Enabled, Effect, AtomicEffect, Contents, JournalNamed, Pending, Spoiled, Kept, Touched;
      hide Record.Bytes, Record.Regs, Record.Good, Record.Path;
      hide Readable, Whole, Alone, ReadHeader, ReadRegions, Replay, Truncate, RolledBack;
      ghost var s := Now();
      NothingTouched(s, jp);
      if jp in files {
        LiveIs(s, jp);
        ReadableIsBody(s, jp);
      }
      var f := Syscall();
      if f == Halts {
        return Halted;
      }
      if jp !in files {
        return Done;
      }
      if f == Fails {
        return Refused(Io);
      }
      var header := ReadHeader(files[jp]);
      if header.Short? {
        return Refused(Io);
      }
      f := Syscall();
      if f != Fine {
        return OutcomeOf(f);
      }
      var target := header.value.target;
      if target !in files {
        NotWhole(s, jp);
        return Refused(Io);
      }
      o := RollbackOpened(jp, target, header.value, header.rest);
    }

    /** The rollback once header and target are open. */
    method RollbackOpened(jp: Path, target: Path, header: Header, body: Bytes) returns (o: Outcome)
      requires Valid() && JournalNamed(jp) && jp in files && jp in live && target == live[jp].target && target in files
      requires ReadHeader(files[jp]) == Got(header, body)
      modifies this
      ensures Ran() && Kept(old(Now()), Now())
      ensures Touched(old(Now()), Now(), jp)
      ensures jp !in old(marks.stale) ==> Contents(Now()) == old(Contents(Now()))
      ensures o == Done ==> old(Whole(Now(), jp)) && RolledBack(old(Now()), Now(), jp)
      ensures o != Done && o != Halted ==> live == old(live) && jp in files
      ensures o == Done ==> jp !in files
      ensures jp !in old(marks.stale) && !old(Whole(Now(), jp)) ==> files == old(files)
      ensures Calm() ==> o != Halted && (o == Done <==> old(Whole(Now(), jp)))
      ensures Ended(o) && (o.Refused? ==> o == Refused(Io))
    {
      hide IsRun, Inv, Enabled, Effect, AtomicEffect, Contents, JournalNamed, Pending, Spoiled, Kept, Touched;
      hide Record.Bytes, Record.Regs, Record.Good, Record.Path;
      hide Readable, Whole, Alone, ReadHeader, ReadRegions, Replay, Truncate, RolledBack, Rollback;
      ghost var s := Now();
      ReadableIsBody(s, jp);
      if jp in marks.stale {
        Ignore(target);
      }
      ghost var t := Now();
      IgnoredForRollback(s, t, jp);
      o := PutBackRegions(jp, target, body, header.count);
      ghost var u := Now();
      RollingOn(s, t, u, jp);
      RolledSoFar(t, u, jp);
      if o != Done { return; }
      o := PutBackSize(jp, target, header.origSize);
      ghost var v := Now();
      RollingOn(s, u, v, jp);
      if o != Done { return; }
      RestoredWhole(t, jp, files[target]);
      o := CloseRollback(jp, s);
    }

    /** The end of a rollback that began at s: the sync, and the removal. */
    method CloseRollback(jp: Path, ghost s: State) returns (o: Outcome)
      requires Valid() && Inv(s) && Rolling(s, Now(), jp) && Whole(s, jp) && Whole(Now(), jp) && Alone(Now(), jp)
      requires Current(Now(), jp) == Rollback(Current(s, jp), s.live[jp].Regs(), |s.live[jp].orig|)
      requires jp !in s.marks.stale ==> Current(Now(), jp) == s.live[jp].orig
      modifies this
      ensures Ran() && Went(o) && Kept(s, Now()) && Touched(s, Now(), jp)
      ensures jp !in s.marks.stale ==> Contents(Now()) == Contents(s)
      ensures o == Done ==> RolledBack(s, Now(), jp) && jp !in files
      ensures o.Refused? ==> live == s.live && jp in files
    {
      hide IsRun, Inv, Enabled, Effect, AtomicEffect, Contents, JournalNamed, Pending, Spoiled, Kept, Touched;
      hide Record.Bytes, Record.Regs, Record.Good, Record.Path, Whole, Alone, RolledBack, Rollback;
      ghost var v := Now();
      WholeIs(v, jp);
      o := SyncOld(jp);
      ghost var w := Now();
      WholeIs(s, jp);
      RollingOn(s, v, w, jp);
      if o != Done { return; }
      ghost var happened: bool;
      o, happened := DropJournal(jp);
      if happened {
        DroppedTouches(s, w, jp);
        DroppedRollsBack(s, w, jp);
      }
    }

    /** filepath.Glob for a target's journals. A directory that cannot be read is no error there: it only hides
        names. A metacharacter anywhere in the path makes it match some other set of journals. */
    method Glob(target: Path) returns (halted: bool, matches: set<Path>, ghost listed: bool)
      modifies this`failures, this`halts
      ensures old(failures) <= failures && (Calm() ==> listed && !halted)
      ensures old(halts) <= halts && (halted <==> halts != old(halts))
      ensures forall p :: p in matches ==> p in files && JournalNamed(p)
      ensures listed && NoMeta(target) ==> matches == set p | p in files && Tagged(target, p)
    {
      hide Tagged, JournalNamed;
      var f := Syscall();
      halted, listed := f == Halts, f == Fine;
      matches := set p | p in files && if NoMeta(target) then Tagged(target, p) else JournalNamed(p);
      if f != Fine || !NoMeta(target) {
        var some: set<Path> := *;
        matches := matches * some;
      }
      forall p | Tagged(target, p) ensures JournalNamed(p) {
        TaggedAreJournals(target, p);
      }
    }

    /** Every journal the target's glob came up with, rolled back. */
    method RollbackJournalsFor(target: Path) returns (o: Outcome, ghost listed: bool, ghost seen: set<Path>)
      requires Valid()
      modifies this
      ensures Ran() && Kept(old(Now()), Now())
      ensures forall p :: p in seen ==> p in old(files) && JournalNamed(p)
      ensures listed && NoMeta(target) ==> seen == set p | p in old(files) && Tagged(target, p)
      ensures o == Done ==> Looked(old(Now()), Now(), seen) && Undone(old(Now()), files, seen, {})
      ensures o == Done && listed && NoMeta(target) ==> forall p :: p in files ==> !Tagged(target, p)
      // A torn journal makes it fail; nothing else does but a failing call.
      ensures o == Done ==> forall p :: p in seen ==> old(Whole(Now(), p))
      ensures Calm() ==> listed && o != Halted && ((forall p :: p in seen ==> old(Whole(Now(), p))) ==> o == Done)
      ensures Ended(o) && (o.Refused? ==> o == Refused(Io))
    {
      hide IsRun, Inv, Enabled, Effect, AtomicEffect, Contents, JournalNamed, Pending, Spoiled, Kept, Touched;
      hide Record.Bytes, Record.Regs, Record.Good, Record.Path, Tagged, Whole, Looked, RolledBack, Unseen, Undone;
      ghost var s := Now();
      NothingLooked(s);
      NothingUndone(s);
      var halted: bool, matches: set<Path>;
      halted, matches, listed := Glob(target);
      seen := matches;
      if halted {
        return Halted, listed, seen;
      }
      var rest := matches;
      ghost var done: set<Path> := {};
      o := Done;
      while rest != {}
        invariant rest <= matches && done == matches - rest
        invariant Ran() && halts == old(halts) && (Calm() ==> listed) && o == Done
        invariant Kept(s, Now()) && Looked(s, Now(), done) && Undone(s, files, done, {})
        invariant forall p :: p in done ==> Whole(s, p)
        decreases rest
      {
        var m :| m in rest;
        ghost var before := Now();
        LookedStill(s, before, done, m);
        o := RollbackJournal(m);
        KeptIsTransitive(s, before, Now());
        if o != Done {
          return;
        }
        LookedMore(s, before, Now(), done, m);
        UndoneMore(s, before, Now(), done, m);
        rest, done := rest - {m}, done + {m};
      }
      assert done == seen;
      if listed && NoMeta(target) {
        NoneLeft(s, Now(), seen, target);
      }
    }

    // ----- commit

    /** The apply loop: patch bytes in index order, each at its block, then the final size. */
    method Apply(jp: Path, target: Path, block: nat, indices: seq<nat>, finalSize: nat, patch: Bytes)
      returns (o: Outcome)
      requires Valid() && Armed(Now(), jp) && target == live[jp].target && files[target] == live[jp].orig
      requires live[jp].edit == EditOf(block, finalSize, indices) && live[jp].patch == patch
      modifies this
      ensures Quiet() && Went(o) && Armed(Now(), jp)
      ensures target in old(files) && files == old(files)[target := files[target]]
      ensures o == Done ==> files[target] == live[jp].Next() && jp in marks.settled
    {
      hide IsRun, Inv, Enabled, Effect, AtomicEffect, Contents, JournalNamed;
      hide Record.Bytes, Record.Regs, Record.Good, Record.Path, Record.Next;
      hide WriteAt, Replay, Truncate, PatchBlock, Writes, PatchLen, Fits;
      ghost var r := live[jp];
      ghost var e := r.edit;
      NextIs(r);
      ApplyNothing(r);
      var pos := 0;
      o := Done;
      for n := 0 to |indices|
        invariant Quiet() && Armed(Now(), jp) && target in old(files) && target in files
        invariant files == old(files)[target := files[target]]
        invariant Calm() && halts == old(halts) && o == Done
        invariant pos == PatchLen(e, n)
        invariant files[target] == Replay(r.orig, Writes(e, patch, n))
      {
        ApplyNext(r, n);
        var off := indices[n] * block;
        assert off == e.offs[n];
        var length := Min(block, finalSize - off);
        var f := Syscall();
        o := OutcomeOf(f);
        if o != Done { return; }
        o := OverwriteBlock(jp, target, off, patch[pos..pos + length], n);
        if o != Done { return; }
        pos := pos + length;
      }
      o := CutFile(jp, target, finalSize);
      if o != Done { return; }
      o := SyncOld(jp);
    }

    /** The whole commit. `committed` tells whether the journal of the applied commit is gone, `seen` what the
        lookup for older journals came up with, `listed` whether it could read the directory, `looked` whether it got
        through. */
    method InPlaceCommit(req: Request, tag: Bytes, mtimeS: int, mtimeNS: int, sha256: Bytes -> Bytes)
      returns (o: Outcome, ghost committed: bool, ghost listed: bool, ghost seen: set<Path>, ghost looked: bool)
      requires Valid() && !JournalNamed(req.file) && SLASH !in tag && req.FitsInt64()
      requires forall p :: p in files ==> |files[p]| <= MAX_INT64
      modifies this
      ensures Moved() && Ended(o) && Stamps(req.file, req.mtime, committed || o == Done)
      ensures committed || o == Done ==> looked && req.file in old(files) && Fits(req.Edit(), req.patch)
      ensures forall p :: p in seen ==> p in old(files) && JournalNamed(p)
      ensures listed && NoMeta(req.file) ==> seen == set p | p in old(files) && Tagged(req.file, p)
      // No commit gets past a torn journal that was seen.
      ensures looked ==> req.block > 0 && forall p :: p in seen ==> old(Whole(Now(), p))
      // Other files keep their content.
      ensures KeptBut(old(Now()), Now(), req.file)
      // So does this one, or it gets the requested one, unless a journal that guards it was not seen...
      ensures !old(Unseen(Now(), seen, req.file)) && !old(Spoiled(Now(), req.file)) ==>
        Shows(old(Now()), Now(), req, committed)
      // ...which a caller can rule out: it takes an unreadable directory or a metacharacter, and a torn file.
      ensures (listed && NoMeta(req.file)) || !old(Pending(Now(), req.file)) ==> !old(Unseen(Now(), seen, req.file))
      // Otherwise what was edited is the torn file; see BlockEdit.BlindCommitEnds for what becomes of that.
      ensures o == Done && !old(Spoiled(Now(), req.file)) ==> Edited(old(Now()), Now(), seen, req)
      // Whatever fails, a commit that went through had the digest and the base it was given.
      ensures (committed || o == Done) && req.sha256.Some? ==>
        req.file in files && sha256(files[req.file]) == req.sha256.value
      ensures (committed || o == Done) && req.base.Some? && !old(Spoiled(Now(), req.file)) ==>
        req.base.value == Stat(|old(Found(Now(), seen, req.file))|, mtimeS, mtimeNS)
      // The bytes a refusal leaves. With no failing call it rolls back what it did, and nothing is left of it...
      ensures req.block <= 0 ==> o == Refused(Usage) && Now() == old(Now())
      ensures o.Refused? && Calm() && looked ==> Undone(old(Now()), files, seen, {})
      // ...and so it does if the only failing call is what it is refused for, but for its own journal, unless that
      // was the stamp.
      ensures o == Refused(Io) && failures <= old(failures) + 1 && looked && !committed ==>
        Undone(old(Now()), files, seen, {JournalPath(req.file, tag)}) || Unstamped(req, tag, files, sha256)
      ensures o != Done && committed ==> !Calm()
      ensures Calm() ==> listed
      ensures Calm() && req.block > 0 && (forall p :: p in seen ==> old(Whole(Now(), p))) ==> looked
      // With no failing call the outcome is what the checks say; and whatever fails, no check is said to have failed
      // that did not.
      ensures Calm() && Plain(req.file, tag, old(files)) && o == Done ==> committed
      ensures (Calm() && Plain(req.file, tag, old(files))) || (o.Refused? && o.code != Io) ==>
        old(Spoiled(Now(), req.file)) || o == old(Verdict(req, Now(), seen, mtimeS, mtimeNS, sha256))
    {
      hide IsRun, Inv, Enabled, Effect, AtomicEffect, Contents, JournalNamed, Pending, Spoiled, Kept, Looked;
      hide Record.Bytes, Record.Regs, Record.Good, Record.Path, Whole, Unseen, Tagged, SameContent, KeptBut;
      hide Request.Result, Fits, CheckedArgs, JournalPath, NoMeta, Found, Undone, Unstamped, Left, CommittedOver;
      ghost var s := Now();
      committed, looked := false, false;
      NothingKept(s, req.file);
      if req.block <= 0 {
        NoneSeen(s, req.file);
        TaggedAreAll(s, req.file);
        return Refused(Usage), false, true, set p | p in files && Tagged(req.file, p), false;
      }
      o, listed, seen := RollbackJournalsFor(req.file);
      ghost var t := Now();
      KeptForOne(s, t, req.file);
      AfterLookup(s, t, seen, listed, req.file, tag, o == Done);
      if o != Done { return; }
      looked := true;
      ghost var count := failures;
      o, committed := CommitFound(req, tag, mtimeS, mtimeNS, sha256);
      Committed(s, t, Now(), seen, req, committed);
      UndoneLeft(s, t.files, files, seen, req, tag, o, committed, failures - count, sha256);
    }

    /** The commit once the lookup is done. */
    method CommitFound(req: Request, tag: Bytes, mtimeS: int, mtimeNS: int, sha256: Bytes -> Bytes)
      returns (o: Outcome, ghost committed: bool)
      requires Valid() && !JournalNamed(req.file) && SLASH !in tag && req.FitsInt64() && req.block > 0
      requires req.file in files ==> |files[req.file]| <= MAX_INT64
      modifies this
      ensures Moved() && Ended(o) && Stamps(req.file, req.mtime, committed || o == Done)
      ensures committed || o == Done ==> req.file in old(files) && Fits(req.Edit(), req.patch)
      ensures CommittedOver(old(Now()), Now(), req, committed)
      ensures o == Done ==> req.file in files && files[req.file] == req.Result(old(files[req.file]))
      ensures (committed || o == Done) && req.sha256.Some? ==>
        req.file in files && sha256(files[req.file]) == req.sha256.value
      ensures (committed || o == Done) && req.base.Some? ==>
        req.base.value == Stat(|old(files[req.file])|, mtimeS, mtimeNS)
      ensures Left(req, tag, old(files), files, o, committed, failures - old(failures), sha256)
      ensures o != Done && committed ==> !Calm()
      ensures Calm() && JournalPath(req.file, tag) !in old(files) && o == Done ==> committed
      ensures (Calm() && JournalPath(req.file, tag) !in old(files)) || (o.Refused? && o.code != Io) ==>
        o == if !Ascending(req.indices) then Refused(Usage)
             else if req.file !in old(files) then Refused(Io)
             else CheckedArgs(req, old(files[req.file]), mtimeS, mtimeNS, sha256)
    {
      hide IsRun, Inv, Contents, JournalNamed, Pending, Spoiled, Request.Result, Fits, CheckedArgs, JournalPath, Left;
      committed := false;
      NotCommitted(Now(), req);
      NothingLeft(req, tag, files, sha256);
      var ascending := IsAscending(req.indices);
      if !ascending {
        return Refused(Usage), false;
      }
      var f := Syscall();
      if f != Fine {
        return OutcomeOf(f), false;
      }
      if req.file !in files {
        return Refused(Io), false;
      }
      o, committed := CommitOpened(req, tag, mtimeS, mtimeNS, sha256);
    }

    /** The checks made against the opened file and the patch. */
    method CommitOpened(req: Request, tag: Bytes, mtimeS: int, mtimeNS: int, sha256: Bytes -> Bytes)
      returns (o: Outcome, ghost committed: bool)
      requires Valid() && !JournalNamed(req.file) && SLASH !in tag && req.FitsInt64()
      requires req.file in files && |files[req.file]| <= MAX_INT64 && req.block > 0 && Ascending(req.indices)
      modifies this
      ensures Moved() && Ended(o) && Stamps(req.file, req.mtime, committed || o == Done)
      ensures committed || o == Done ==> Fits(req.Edit(), req.patch)
      ensures CommittedOver(old(Now()), Now(), req, committed)
      ensures o == Done ==> req.file in files && files[req.file] == req.Result(old(files[req.file]))
      ensures (committed || o == Done) && req.sha256.Some? ==>
        req.file in files && sha256(files[req.file]) == req.sha256.value
      ensures (committed || o == Done) && req.base.Some? ==>
        req.base.value == Stat(|old(files[req.file])|, mtimeS, mtimeNS)
      ensures Left(req, tag, old(files), files, o, committed, failures - old(failures), sha256)
      ensures o != Done && committed ==> !Calm()
      ensures Calm() && JournalPath(req.file, tag) !in old(files) && o == Done ==> committed
      ensures (Calm() && JournalPath(req.file, tag) !in old(files)) || (o.Refused? && o.code != Io) ==>
        o == CheckedArgs(req, old(files[req.file]), mtimeS, mtimeNS, sha256)
    {
      hide IsRun, Inv, Enabled, Effect, AtomicEffect, Contents, JournalNamed, Pending, Spoiled;
      hide Record.Bytes, Record.Regs, Record.Good, Record.Path, Request.Result, Request.Checked, PatchLen, JournalPath;
      hide Left;
      committed := false;
      NotCommitted(Now(), req);
      NothingLeft(req, tag, files, sha256);
      var origSize := |files[req.file]|;
      if req.base.Some? && req.base.value != Stat(origSize, mtimeS, mtimeNS) {
        return Refused(Changed), false;
      }
      var inside, patchLen := ExpectedPatch(req.block, req.finalSize, req.indices);
      if !inside {
        return Refused(Usage), false;
      }
      var f := Syscall();
      if f != Fine {
        return OutcomeOf(f), false;
      }
      AscendingIsWellFormed(req.block, req.finalSize, req.indices);
      if |req.patch| != patchLen {
        return Refused(Mismatch), false;
      }
      o, committed := CommitChecked(req, tag, sha256);
    }

    /** The commit once every argument check is passed. A journal that still guards the file is ignored. */
    method CommitChecked(req: Request, tag: Bytes, sha256: Bytes -> Bytes) returns (o: Outcome, ghost committed: bool)
      requires Valid() && !JournalNamed(req.file) && SLASH !in tag && req.FitsInt64()
      requires req.file in files && |files[req.file]| <= MAX_INT64 && req.block > 0 && Fits(req.Edit(), req.patch)
      modifies this
      ensures Moved() && Ended(o) && Stamps(req.file, req.mtime, committed || o == Done)
      ensures CommittedOver(old(Now()), Now(), req, committed)
      ensures o == Done ==> req.file in files && files[req.file] == req.Result(old(files[req.file]))
      ensures (committed || o == Done) && req.sha256.Some? ==>
        req.file in files && sha256(files[req.file]) == req.sha256.value
      ensures Left(req, tag, old(files), files, o, committed, failures - old(failures), sha256)
      ensures o != Done && committed ==> !Calm()
      ensures Calm() && JournalPath(req.file, tag) !in old(files) && o == Done ==> committed
      ensures (Calm() && JournalPath(req.file, tag) !in old(files)) || (o.Refused? && o.code != Io) ==>
        o == req.Checked(old(files[req.file]), sha256)
    {
      hide IsRun, Inv, Enabled, Effect, AtomicEffect, Contents, JournalNamed, Pending, Spoiled, Whole, JournalPath;
      hide Record.Bytes, Record.Regs, Record.Good, Record.Path, Record.Next, Request.Result, Request.Checked, Fits;
      hide CommittedOver, Left;
      committed := false;
      ghost var r := Record(req.file, tag, files[req.file], req.Edit(), req.patch);
      var jp := JournalPath(req.file, tag);
      RequestIsGood(req, r, jp);
      ghost var was := Now();
      Ignore(req.file);
      ghost var s := Now();
      CommittedIs(was, s, req);
      o := WriteJournal(jp, req.file, |files[req.file]|, req.finalSize, req.block, req.indices, r);
      ghost var t, count := Now(), failures;
      JournalLeft(req, tag, was.files, t.files, o, count - old(failures), sha256);
      if o != Done { return; }
      SpoiledAsBefore(s, t, jp, r, req.file);
      JournaledIs(req.file, tag);
      o, committed := CommitJournalled(req, jp, r, sha256);
      ApplyLeft(req, tag, was.files, t.files, files, o, committed, failures - count, sha256);
    }

    /** The commit once its journal is on disk. */
    method CommitJournalled(req: Request, jp: Path, ghost r: Record, sha256: Bytes -> Bytes)
      returns (o: Outcome, ghost committed: bool)
      requires Valid() && JournalNamed(jp) && Armed(Now(), jp) && live[jp] == r && r.Good() && r.target == req.file
      requires files[req.file] == r.orig && jp != req.file && r.patch == req.patch && Fits(req.Edit(), req.patch)
      requires req.block > 0 && r.edit == req.Edit() == EditOf(req.block, req.finalSize, req.indices)
      requires r.Next() == req.Result(r.orig)
      modifies this
      ensures Moved() && Ended(o) && Stamps(req.file, req.mtime, committed || o == Done)
      ensures Contents(Now()) ==
        if committed && !old(Spoiled(Now(), req.file)) then old(Contents(Now()))[req.file := req.Result(r.orig)]
        else old(Contents(Now()))
      ensures o == Done ==> req.file in files && files[req.file] == req.Result(r.orig)
      ensures (committed || o == Done) && req.sha256.Some? ==>
        req.file in files && sha256(files[req.file]) == req.sha256.value
      // A refusal takes everything back if no call fails. So does one that is due to the only failing call, unless
      // that is the stamp.
      ensures files - {jp, req.file} == old(files) - {jp, req.file}
      ensures o.Refused? && Calm() ==> files == old(files) - {jp}
      ensures o == Refused(Io) && failures <= old(failures) + 1 && !committed ==>
        files == old(files) - {jp} || (jp in files && Stamping(req, files, sha256))
      ensures o != Done && committed ==> !Calm()
      ensures Calm() && o == Done ==> committed
      ensures Calm() || (o.Refused? && o.code != Io) ==> o == req.Checked(r.orig, sha256)
    {
      hide IsRun, Inv, Enabled, Effect, AtomicEffect, Contents, JournalNamed, Pending, Spoiled, Whole;
      hide Record.Bytes, Record.Regs, Record.Good, Record.Path, Record.Next, Request.Result, Request.Checked, Fits;
      hide EditOf, Stamping;
      committed := false;
      ghost var t := Now();
      WholeIs(t, jp);
      o := Apply(jp, req.file, req.block, req.indices, req.finalSize, req.patch);
      SpoiledAfter(t, Now(), req.file);
      WholeIs(Now(), jp);
      AppliedFrame(t.files, files, req.file, jp, r.orig);
      if o == Halted { return; }
      if o != Done {
        o := Undo(jp, Io);
        return;
      }
      o, committed := Finish(jp, req, sha256);
    }

    /** Rolls back and reports an error; a rollback that fails is not reported. */
    method Undo(jp: Path, code: Code) returns (o: Outcome)
      requires Valid() && JournalNamed(jp) && Armed(Now(), jp)
      modifies this
      ensures Ran() && Contents(Now()) == old(Contents(Now()))
      ensures Ended(o) && (o == Halted || o == Refused(code))
      ensures Calm() ==> o == Refused(code)
      // The old bytes are back, and the journal is gone.
      ensures Calm() ==> files == (old(files) - {jp})[old(live[jp].target) := old(live[jp].orig)]
      ensures files - {jp, old(live[jp].target)} == old(files) - {jp, old(live[jp].target)}
    {
      hide Contents, Inv, IsRun, JournalNamed, Kept, Touched, RolledBack, Whole;
      ghost var s := Now();
      WholeIs(s, jp);
      var undone := RollbackJournal(jp);
      o := if undone == Halted then Halted else Refused(code);
      UndoneFiles(s, Now(), jp, undone == Done);
    }

    /** Digest, mtime, and the removal that makes the commit final. */
    method Finish(jp: Path, req: Request, sha256: Bytes -> Bytes) returns (o: Outcome, ghost committed: bool)
      requires Valid() && JournalNamed(jp) && Armed(Now(), jp) && jp in marks.settled
      requires req.file == live[jp].target && Fits(req.Edit(), req.patch)
      requires files[req.file] == live[jp].Next() == req.Result(live[jp].orig)
      modifies this
      ensures Moved() && Ended(o) && Stamps(req.file, req.mtime, committed || o == Done)
      ensures Contents(Now()) ==
        if committed && !old(Spoiled(Now(), req.file))
        then old(Contents(Now()))[req.file := req.Result(old(live[jp]).orig)] else old(Contents(Now()))
      ensures o == Done ==> req.file in files && files[req.file] == req.Result(old(live[jp]).orig)
      ensures (committed || o == Done) && req.sha256.Some? ==>
        req.file in files && sha256(files[req.file]) == req.sha256.value
      ensures files - {jp, req.file} == old(files) - {jp, req.file}
      ensures o.Refused? && Calm() ==> files == (old(files) - {jp})[req.file := old(live[jp]).orig]
      ensures o == Refused(Io) && failures <= old(failures) + 1 && !committed ==>
        files == (old(files) - {jp})[req.file := old(live[jp]).orig] || (jp in files && Stamping(req, files, sha256))
      ensures o != Done && committed ==> !Calm()
      ensures Calm() && o == Done ==> committed
      ensures Calm() || (o.Refused? && o.code != Io) ==> o == req.Checked(old(live[jp]).orig, sha256)
    {
      hide IsRun, Inv, Enabled, Effect, AtomicEffect, Contents, JournalNamed, Pending, Spoiled, Whole, Alone;
      hide Record.Bytes, Record.Regs, Record.Good, Record.Path, Record.Next, Request.Result, Fits;
      committed := false;
      WholeIs(Now(), jp);
      if req.sha256.Some? {
        var f := Syscall();
        if f == Halts {
          return Halted, false;
        }
        if f == Fails {
          o := Undo(jp, Io);
          return;
        }
        if sha256(files[req.file]) != req.sha256.value {
          o := Undo(jp, Mismatch);
          return;
        }
      }
      o, committed := Release(jp, req);
    }

    /** The mtime, the removal, and the closing stat. */
    method Release(jp: Path, req: Request) returns (o: Outcome, ghost committed: bool)
      requires Valid() && Armed(Now(), jp) && jp in marks.settled && req.file == live[jp].target
      requires req.file in files && files[req.file] == live[jp].Next()
      modifies this
      ensures Moved() && Ended(o) && Stamps(req.file, req.mtime, committed || o == Done)
      ensures Contents(Now()) ==
        if committed && !old(Spoiled(Now(), req.file)) then old(Contents(Now()))[req.file := old(files[req.file])]
        else old(Contents(Now()))
      // The new bytes stay where they are. Unless the journal is gone, the next recovery takes them back.
      ensures Now() == if committed then Removed(old(Now()), jp) else old(Now())
      ensures jp in files <==> !committed
      ensures req.file in files && files[req.file] == old(files[req.file])
      ensures o != Done && committed ==> !Calm()
      ensures Calm() ==> o == Done && committed
      // If only one call fails and it is refused all the same, that was the stamp.
      ensures o.Refused? && failures <= old(failures) + 1 && !committed ==> req.mtime && stamped == old(stamped)
      ensures o.Refused? ==> o == Refused(Io)
    {
      hide IsRun, Inv, Enabled, Effect, AtomicEffect, Contents, JournalNamed, Pending, Spoiled, Whole;
      hide Record.Bytes, Record.Regs, Record.Good, Record.Path, Record.Next;
      committed := false;
      WholeIs(Now(), jp);
      JournalIsNotTarget(Now(), jp);
      RemovedNames(Now(), jp);
      if req.mtime {
        o := Stamp(req.file);
        if o != Done { return; }
      }
      o, committed := DropJournal(jp);
      if o == Halted { return; }
      var f := Syscall();
      o := OutcomeOf(f);
    }

    // ----- recovery sweep

    /** filepath.WalkDir: what is below a directory that cannot be read, or some of it, is passed over. */
    method Walk(root: Path) returns (halted: bool, found: set<Path>, ghost unreadable: set<Path>)
      modifies this`failures, this`halts
      ensures old(failures) <= failures && (Calm() ==> !halted && unreadable == {})
      ensures old(halts) <= halts && (halted <==> halts != old(halts))
      ensures forall p :: p in found ==> p in files && Under(root, p)
      ensures forall p :: p in files && Under(root, p) && p !in found ==> exists d :: d in unreadable && Under(d, p)
    {
      hide Under;
      halted, found, unreadable := false, set p | p in files && Under(root, p), {};
      var failed: set<Path> := *;
      halted := *;
      if failed != {} || halted {
        failures, halts := failures + 1, halts + if halted then 1 else 0;
        unreadable := failed;
        var some: set<Path> := *;
        var hidden := set p | p in found && p in some && exists d :: d in failed && Under(d, p);
        found := found - hidden;
      }
    }

    /** Reads whom a swept journal names, rolls it back and reports on it. */
    method SweepOne(p: Path, ghost s: State) returns (r: Outcome, result: Recovered)
      requires Valid() && Inv(s) && Kept(s, Now()) && SameBytes(s, Now(), p)
      requires p in s.files && p in files && JournalNamed(p)
      modifies this
      ensures Ran() && Ended(r) && Kept(s, Now()) && Touched(old(Now()), Now(), p)
      ensures r == Halted ==> !Calm()
      ensures r != Halted ==> Reports(s, Now(), p, result, Calm())
    {
      hide IsRun, Inv, Enabled, Effect, AtomicEffect, Contents, JournalNamed, Pending, Spoiled, Kept, Touched;
      hide Record.Bytes, Record.Regs, Record.Good, Record.Path, Whole, RolledBack, ReadTarget;
      ghost var before := Now();
      WholeAsBefore(s, before, p);
      SweptTarget(s, p);
      var f := Syscall();
      var target := if f == Fine then TargetOf(files[p]) else [];
      NothingTouched(before, p);
      if f == Halts {
        r, result := Halted, Recovered(target, false);
      } else {
        r := RollbackJournal(p);
        result := Recovered(target, r == Done);
        KeptIsTransitive(s, before, Now());
      }
    }

    /** Rolls back every journal the sweep comes across under root, whatever happens to the others. `swept` are
        their paths, in the order of the results, `unreadable` the directories it could not look into. */
    method Recover(root: Path)
      returns (o: Outcome, results: seq<Recovered>, ghost swept: seq<Path>, ghost unreadable: set<Path>)
      requires Valid()
      modifies this
      ensures Ran() && Sweeps(old(Now()), Now(), root, swept, results, Calm())
      // No failing call stops it, short of an end of the process.
      ensures Ended(o) && (o == Done || (o == Halted && !Calm()))
      ensures Calm() ==> unreadable == {}
      ensures o == Done ==> forall p :: Swept(old(Now()), root, p) ==>
        p in swept || exists d :: d in unreadable && Under(d, p)
    {
      hide IsRun, Inv, Enabled, Effect, AtomicEffect, Contents, JournalNamed, Pending, Spoiled, Kept;
      hide Record.Bytes, Record.Regs, Record.Good, Record.Path, Whole, ReadTarget, Base;
      hide SweepSees, SweptSoFar, Sweeps, Reports, Under, Swept, Touched, SameBytes;
      ghost var s := Now();
      var halted: bool, all: set<Path>;
      results, swept := [], [];
      halted, all, unreadable := Walk(root);
      NothingSwept(s, root, all, Calm());
      if halted {
        SweptMeans(s, s, root, {}, swept, results, false);
        return Halted, results, swept, unreadable;
      }
      var rest := all;
      while rest != {}
        invariant rest <= all && Ran() && halts == old(halts) && (Calm() ==> unreadable == {})
        invariant SweptSoFar(s, Now(), root, all - rest, swept, results, Calm())
        decreases rest
      {
        var p :| p in rest;
        ghost var before, wasCalm, count := Now(), Calm(), failures;
        var seen := IsJournalName(Base(p));
        if seen {
          NotYetSwept(s, before, root, all - rest, swept, results, wasCalm, p);
          var r, result := SweepOne(p, s);
          if r == Halted {
            SweptHalfway(s, before, Now(), root, all - rest, swept, results, wasCalm, p);
            return Halted, results, swept, unreadable;
          }
          SweptOneMore(s, before, Now(), root, all, rest, swept, results, wasCalm, p, result, failures == count);
          results, swept := results + [result], swept + [p];
        } else {
          SweptSkip(s, before, root, all, rest, swept, results, wasCalm, p);
        }
        rest := rest - {p};
      }
      assert all - rest == all;
      SweptMeans(s, Now(), root, all, swept, results, Calm());
      SweptAll(s, Now(), root, all, swept, results, Calm(), unreadable);
      o := Done;
    }

    // ----- rename mode

    /** A private copy next to the file, byte for byte what the file holds: torn, if the file is. */
    method Clone(file: Path, base: Option<Stat>, tag: Bytes, mtimeS: int, mtimeNS: int)
      returns (o: Outcome, dst: Path)
      requires Valid() && CloneIsFree(Now(), file, tag)
      modifies this
      ensures Ran() && Ended(o) && live == old(live) && dst == ClonePath(file, tag)
      ensures o == Done ==> file in old(files) && files == old(files)[dst := old(files[file])]
      ensures o == Done ==> Contents(Now()) == old(Contents(Now()))[dst := old(files[file])]
      ensures file in old(Contents(Now())) && !old(Pending(Now(), file)) ==>
        file in old(files) && old(Contents(Now())[file]) == old(files[file])
      ensures files - {dst} == old(files) - {dst} && Contents(Now()) - {dst} == old(Contents(Now())) - {dst}
      // A base that is given matches, or else nothing is copied.
      ensures o == Done && base.Some? ==> base.value == Stat(|old(files[file])|, mtimeS, mtimeNS)
      ensures o.Refused? && o.code != Io ==>
        && o == Refused(Changed) && file in old(files)
        && base.Some? && base.value != Stat(|old(files[file])|, mtimeS, mtimeNS)
      ensures o.Refused? && failures <= old(failures) + 1 ==> files == old(files)
      ensures Calm() ==> o == if file !in old(files) then Refused(Io)
                            else if base.Some? && base.value != Stat(|old(files[file])|, mtimeS, mtimeNS)
                              then Refused(Changed)
                            else Done
    {
      hide IsRun, Inv, Enabled, Effect, AtomicEffect, Contents, JournalNamed, Pending, Spoiled, Free, ClonePath;
      ghost var s := Now();
      dst := ClonePath(file, tag);
      CloneMeans(s, file, tag);
      UnguardedIs(s, file);
      var f := Syscall();
      if f != Fine {
        return OutcomeOf(f), dst;
      }
      if file !in files {
        return Refused(Io), dst;
      }
      if base.Some? && base.value != Stat(|files[file]|, mtimeS, mtimeNS) {
        return Refused(Changed), dst;
      }
      o := CopyTo(dst, files[file]);
    }

    /** The reflink, or else the byte copy, and the closing stat; a copy that fails is removed. */
    method CopyTo(dst: Path, content: Bytes) returns (o: Outcome)
      requires Valid() && !JournalNamed(dst) && Unnamed(Now(), dst) && dst !in files
      modifies this
      ensures Ran() && live == old(live) && (Calm() ==> o == Done)
      ensures files - {dst} == old(files) - {dst} && Contents(Now()) - {dst} == old(Contents(Now())) - {dst}
      ensures o == Done ==> files == old(files)[dst := content]
      ensures o == Done ==> Contents(Now()) == old(Contents(Now()))[dst := content]
      ensures Ended(o) && (o.Refused? ==> o == Refused(Io))
      // The only failing call is what it is refused for: then the copy is removed.
      ensures o.Refused? && failures <= old(failures) + 1 ==> files == old(files)
    {
      hide IsRun, Inv, Enabled, Effect, AtomicEffect, Contents, JournalNamed, Unnamed;
      ghost var before := files;
      var f := Fill(dst, content);
      if f == Fine {
        f := Syscall();
      }
      if f == Fails {
        var halted: bool;
        ghost var gone: bool;
        ghost var left := files;
        halted, gone := Abandon(dst);
        NothingCopied(before, left, files, dst, gone);
        if halted { f := Halts; }
      }
      o := OutcomeOf(f);
    }

    /** Without reflinks there is nothing to fail but the copy. */
    method Fill(dst: Path, content: Bytes) returns (f: Fate)
      requires Valid() && !JournalNamed(dst) && Unnamed(Now(), dst) && dst !in files
      modifies this
      ensures Ran() && live == old(live) && (Calm() ==> f == Fine)
      ensures Unnamed(Now(), dst) && (f == Halts <==> halts != old(halts))
      ensures files - {dst} == old(files) - {dst} && Contents(Now()) - {dst} == old(Contents(Now())) - {dst}
      ensures f == Fails ==> failures == old(failures) + 1
      ensures f == Fine ==> files == old(files)[dst := content]
      ensures f == Fine ==> Contents(Now()) == old(Contents(Now()))[dst := content]
    {
      hide IsRun, Inv, Enabled, Effect, AtomicEffect, Contents, JournalNamed, Unnamed;
      f := Fails;
      var reflinks: bool := *;
      if reflinks {
        f := Try();
      }
      if f == Fails {
        f := Syscall();
      }
      var n: nat, created := |content|, true;
      if f != Fine {
        n :| 0 <= n <= |content|;
        created := *;
      }
      if created {
        ghost var was, meant := files, Contents(Now());
        Put(dst, content[..n]);
        EditsBut(was, dst, content[..n]);
        EditsBut(meant, dst, content[..n]);
      }
      assert content[..|content|] == content;
    }

    /** A file that no journal names gets new content. Any journal that did guard it is ignored. */
    method Put(p: Path, content: Bytes)
      requires Valid() && !JournalNamed(p)
      modifies this`files, this`live, this`marks, this`run
      ensures Valid() && old(run) <= run && live == old(live) && files == old(files)[p := content]
      ensures Contents(Now()) - {p} == old(Contents(Now())) - {p}
      ensures old(Unnamed(Now(), p)) ==> Unnamed(Now(), p) && Contents(Now()) == old(Contents(Now()))[p := content]
      ensures forall q :: q != p && old(Unnamed(Now(), q)) ==> Unnamed(Now(), q)
    {
      hide IsRun, Inv, Enabled, Effect, AtomicEffect, Contents, JournalNamed, Unnamed, Pending, Spoiled;
      ghost var s := Now();
      Ignore(p);
      ghost var t := Now();
      IgnoredFree(s, t, p);
      files := files[p := content];
      PutTaken(t, p, content);
      Took(Action.Put(p, content));
      UnnamedStill(s, t, Now(), p);
      EditsBut(Contents(t), p, content);
    }

    method Drop(p: Path)
      requires Valid() && !JournalNamed(p)
      modifies this`files, this`live, this`marks, this`run
      ensures Valid() && old(run) <= run && live == old(live) && files == old(files) - {p}
      ensures Contents(Now()) == old(Contents(Now())) - {p}
    {
      hide IsRun, Inv, Enabled, Effect, AtomicEffect, Contents, JournalNamed, Unnamed, Pending, Spoiled;
      ghost var s := Now();
      Ignore(p);
      ghost var t := Now();
      IgnoredFree(s, t, p);
      files := files - {p};
      DropTaken(t, p);
      Took(Delete(p));
    }

    method Move(from: Path, to: Path)
      requires Valid() && !JournalNamed(from) && !JournalNamed(to) && from in files && from != to
      modifies this`files, this`live, this`marks, this`run
      ensures Valid() && old(run) <= run && live == old(live) && files == (old(files) - {from})[to := old(files[from])]
      ensures Contents(Now()) - {from, to} == old(Contents(Now())) - {from, to}
      ensures old(Unnamed(Now(), to)) ==> Contents(Now()) == (old(Contents(Now())) - {from})[to := old(files[from])]
    {
      hide IsRun, Inv, Enabled, Effect, AtomicEffect, Contents, JournalNamed, Unnamed, Pending, Spoiled;
      ghost var s := Now();
      Ignore(from);
      ghost var t := Now();
      IgnoredFree(s, t, from);
      Ignore(to);
      ghost var u := Now();
      IgnoredFree(t, u, to);
      IgnoredBoth(s, t, u, from, to);
      files := (files - {from})[to := files[from]];
      MoveTaken(u, from, to);
      Took(Rename(from, to));
    }

    /** Removes a clone, if it is there; the code ignores a failure to. */
    method Abandon(from: Path) returns (halted: bool, ghost gone: bool)
      requires Valid() && !JournalNamed(from)
      modifies this
      ensures Ran() && live == old(live) && (halted <==> halts != old(halts))
      ensures files == if gone then old(files) - {from} else old(files)
      ensures Contents(Now()) == if gone then old(Contents(Now())) - {from} else old(Contents(Now()))
      ensures (gone ==> from in old(files)) && (Calm() ==> !halted && (gone <==> from in old(files)))
    {
      hide IsRun, Inv, Enabled, Effect, AtomicEffect, Contents, JournalNamed;
      var o, now := Attempt();
      gone := now && from in files;
      if now && from in files {
        Drop(from);
      }
      halted := o == Halted;
    }

    /** The end of rename mode: size, digest, stamp, then the rename. `cut` tells whether the clone was cut to
        size, `gone` whether it was removed. Nothing here looks for a journal of the original. */
    method Commit(req: RenameRequest, mtimeS: int, mtimeNS: int, sha256: Bytes -> Bytes)
      returns (o: Outcome, ghost renamed: bool, ghost cut: bool, ghost gone: bool)
      requires Valid() && !JournalNamed(req.file) && !JournalNamed(req.from)
      modifies this
      ensures Moved() && Ended(o) && Stamps(req.from, req.mtime, renamed) && live == old(live)
      ensures (o == Done ==> renamed) && (gone ==> !renamed) && (cut || gone || renamed ==> req.from in old(files))
      ensures cut ==> |old(files[req.from])| > req.size
      ensures files ==
        if renamed then (old(files) - {req.from})[req.file := Truncate(old(files[req.from]), req.size)]
        else
          var left := if cut then old(files)[req.from := Truncate(old(files[req.from]), req.size)] else old(files);
          if gone then left - {req.from} else left
      ensures renamed ==> RenameResult(old(files[req.from]), req.size) == Some(files[req.file])
      // What the files stand for goes the same way, as long as no journal names them.
      ensures Contents(Now()) - {req.file, req.from} == old(Contents(Now())) - {req.file, req.from}
      ensures old(Unnamed(Now(), req.file)) && old(Unnamed(Now(), req.from)) ==>
        if renamed then Contents(Now()) == (old(Contents(Now())) - {req.from})[req.file := files[req.file]]
        else Contents(Now()) - {req.from} == old(Contents(Now())) - {req.from}
      // A refusal leaves the original alone exactly if it is not itself the clone, or nothing was done to that.
      ensures o.Refused? && !renamed && req.file in old(files) ==>
        ((req.file in files && files[req.file] == old(files[req.file])) <==> req.from != req.file || (!gone && !cut))
      // Whatever fails, what was renamed has the digest it was given, and replaced the base it was given.
      ensures renamed ==> Dir(req.from) == Dir(req.file)
      ensures renamed && req.sha256.Some? ==> sha256(files[req.file]) == req.sha256.value
      ensures renamed && req.base.Some? ==>
        req.file in old(files) && req.base.value == Stat(|old(files[req.file])|, mtimeS, mtimeNS)
      // A refusal removes the clone, if the only failing call is what it is for; but not from another directory.
      ensures Dir(req.from) != Dir(req.file) ==> o == Refused(Usage) && Now() == old(Now())
      ensures o.Refused? && Calm() && Dir(req.from) == Dir(req.file) ==> req.from !in files
      ensures o == Refused(Io) && failures <= old(failures) + 1 && !renamed ==>
        req.from !in files || (req.base.Some? && req.file !in old(files))
      // With no failing call, all of it is determined; and no check is ever said to have failed that did not.
      ensures Calm() || (o.Refused? && o.code != Io) ==> o == RenameVerdict(req, old(files), mtimeS, mtimeNS, sha256)
      ensures Calm() ==> files == RenameEnd(req, old(files), mtimeS, mtimeNS, sha256)
    {
      hide IsRun, Inv, Enabled, Effect, AtomicEffect, Contents, JournalNamed, Unnamed, CloneVerdict, Truncate;
      renamed, cut, gone := false, false, false;
      if Dir(req.from) != Dir(req.file) {
        return Refused(Usage), false, false, false;
      }
      ghost var was, meant := files, Contents(Now());
      o, cut := CheckClone(req, mtimeS, mtimeNS, sha256);
      if cut { EditsBut(was, req.from, files[req.from]); }
      ghost var left := Contents(Now());
      WithoutMore(left, meant, req.file, req.from);
      if o == Halted { return; }
      if o != Done {
        var halted: bool;
        halted, gone := Abandon(req.from);
        if halted { o := Halted; }
        return;
      }
      o, renamed, gone := RenameClone(req.file, req.from);
      WithoutMore(Contents(Now()), left, req.file, req.from);
    }

    method RenameClone(file: Path, from: Path) returns (o: Outcome, ghost renamed: bool, ghost gone: bool)
      requires Valid() && !JournalNamed(file) && !JournalNamed(from) && from in files
      modifies this
      ensures Ran() && Ended(o) && live == old(live) && (o.Refused? ==> o == Refused(Io))
      ensures gone ==> !renamed
      ensures files == if renamed then (old(files) - {from})[file := old(files[from])]
                       else if gone then old(files) - {from} else old(files)
      ensures Contents(Now()) - {file, from} == old(Contents(Now())) - {file, from}
      ensures renamed && old(Unnamed(Now(), file)) && old(Unnamed(Now(), from)) ==>
        Contents(Now()) == (old(Contents(Now())) - {from})[file := old(files[from])]
      ensures !renamed ==> Contents(Now()) - {from} == old(Contents(Now())) - {from}
      ensures (o == Done ==> renamed) && (o == Done <==> Calm())
      ensures o.Refused? && !renamed && failures <= old(failures) + 1 ==> from !in files
    {
      hide IsRun, Inv, Enabled, Effect, AtomicEffect, Contents, JournalNamed, Unnamed;
      renamed, gone := false, false;
      ghost var meant := Contents(Now());
      var moved: bool;
      o, moved := Attempt();
      if o.Refused? {
        var halted: bool;
        halted, gone := Abandon(from);
        WithoutMore(Contents(Now()), meant, file, from);
        return if halted then Halted else o, false, gone;
      }
      if moved && from != file {
        Move(from, file);
        assert {from, file} == {file, from};
      } else if moved {
        RenamedOntoItself(Now(), file);
      }
      renamed := moved;
      if o == Done {
        var f := Syscall();
        o := OutcomeOf(f);
      }
    }

    /** Everything Commit checks or does before the rename: the clone may come out cut. */
    method CheckClone(req: RenameRequest, mtimeS: int, mtimeNS: int, sha256: Bytes -> Bytes)
      returns (o: Outcome, ghost cut: bool)
      requires Valid() && !JournalNamed(req.file) && !JournalNamed(req.from)
      modifies this
      ensures Moved() && Ended(o) && Stamps(req.from, req.mtime, o == Done) && live == old(live)
      ensures cut ==> req.from in old(files) && |old(files[req.from])| > req.size
      ensures files == if cut then old(files)[req.from := Truncate(old(files[req.from]), req.size)] else old(files)
      ensures Contents(Now()) - {req.from} == old(Contents(Now())) - {req.from}
      ensures forall q :: old(Unnamed(Now(), q)) ==> Unnamed(Now(), q)
      ensures o == Done ==> req.from in files && |old(files[req.from])| >= req.size
      ensures o == Done ==> files[req.from] == Truncate(old(files[req.from]), req.size)
      ensures o == Done && req.sha256.Some? ==> sha256(files[req.from]) == req.sha256.value
      ensures o == Done && req.base.Some? ==>
        req.file in old(files) && req.base.value == Stat(|old(files[req.file])|, mtimeS, mtimeNS)
      ensures o == Done ==> Calm()
      ensures o == Refused(Io) && Calm() ==> req.from !in files || (req.base.Some? && req.file !in old(files))
      ensures Calm() || (o.Refused? && o.code != Io) ==> o == CloneVerdict(req, old(files), mtimeS, mtimeNS, sha256)
      ensures Calm() ==> (cut <==> Cuts(req, old(files), mtimeS, mtimeNS))
    {
      hide IsRun, Inv, Enabled, Effect, AtomicEffect, Contents, JournalNamed, Unnamed;
      cut := false;
      o := CheckBase(req, mtimeS, mtimeNS);
      if o != Done { return; }
      var f := Syscall();
      if f != Fine {
        return OutcomeOf(f), false;
      }
      if req.from !in files {
        return Refused(Io), false;
      }
      var size := |files[req.from]|;
      if size < req.size {
        return Refused(Mismatch), false;
      }
      if size > req.size {
        var now: bool;
        o, now := Attempt();
        cut := now;
        if now {
          Put(req.from, Truncate(files[req.from], req.size));
        }
        if o != Done {
          return;
        }
      }
      assert !cut ==> Truncate(files[req.from], size) == files[req.from];
      o := CheckDigest(req, sha256);
    }

    method CheckBase(req: RenameRequest, mtimeS: int, mtimeNS: int) returns (o: Outcome)
      modifies this`failures, this`halts
      ensures old(failures) <= failures && old(halts) <= halts && (o == Done ==> Calm()) && Ended(o)
      ensures o == Done && req.base.Some? ==>
        req.file in files && req.base.value == Stat(|files[req.file]|, mtimeS, mtimeNS)
      ensures Calm() || (o.Refused? && o.code != Io) ==> o == BaseVerdict(req, files, mtimeS, mtimeNS)
    {
      o := Done;
      if req.base.Some? {
        var f := Syscall();
        if f != Fine {
          return OutcomeOf(f);
        }
        if req.file !in files {
          return Refused(Io);
        }
        if req.base.value != Stat(|files[req.file]|, mtimeS, mtimeNS) {
          return Refused(Changed);
        }
      }
    }

    method CheckDigest(req: RenameRequest, sha256: Bytes -> Bytes) returns (o: Outcome)
      requires req.from in files
      modifies this`stamped, this`failures, this`halts
      ensures old(failures) <= failures && old(halts) <= halts && (o == Done ==> Calm()) && Ended(o)
      ensures Stamps(req.from, req.mtime, o == Done)
      ensures o == Done && req.sha256.Some? ==> sha256(files[req.from]) == req.sha256.value
      ensures Calm() || (o.Refused? && o.code != Io) ==>
        o == if req.sha256.Some? && sha256(files[req.from]) != req.sha256.value then Refused(Mismatch) else Done
    {
      if req.sha256.Some? {
        var f := Syscall();
        if f != Fine {
          return OutcomeOf(f);
        }
        if sha256(files[req.from]) != req.sha256.value {
          return Refused(Mismatch);
        }
      }
      var f := Syscall();
      if f != Fine {
        return OutcomeOf(f);
      }
      if req.mtime {
        o := Stamp(req.from);
        return;
      }
      o := Done;
    }
  }

  /** ".ussh-delta-" */
  const CLONE_SUFFIX: Bytes := [DOT, 0x75, 0x73, 0x73, 0x68, 0x2D, 0x64, 0x65, 0x6C, 0x74, 0x61, 0x2D]

  /** tempName: the clone of a file is a hidden sibling. */
  function ClonePath(file: Path, tag: Bytes): Path {
    Dir(file) + [DOT] + Base(file) + CLONE_SUFFIX + tag
  }

  /** So the rename stays in one directory. */
  lemma {:induction false} CloneIsSibling(file: Path, tag: Bytes)
    requires SLASH !in tag
    ensures Dir(ClonePath(file, tag)) == Dir(file)
    ensures Base(ClonePath(file, tag)) == [DOT] + Base(file) + CLONE_SUFFIX + tag
  {
    var name := [DOT] + Base(file) + CLONE_SUFFIX + tag;
    assert ClonePath(file, tag) == Dir(file) + name;
    assert SLASH !in CLONE_SUFFIX && SLASH !in Base(file);
    SplitJoined(file, name);
  }

  /** A clone with a hexadecimal tag is named like a journal if and only if its file already was, but for the dot. */
  lemma {:induction false} CloneNamedLikeAJournal(file: Path, tag: Bytes)
    requires SLASH !in tag && DOT !in tag && SUFFIX[|CLONE_SUFFIX|] !in tag
    ensures JournalNamed(ClonePath(file, tag))
      <==> exists i :: 0 < i < |Base(file)| && OccursAt([DOT] + Base(file), SUFFIX, i)
  {
    CloneIsSibling(file, tag);
    var front, name := [DOT] + Base(file), [DOT] + Base(file) + CLONE_SUFFIX + tag;
    assert DOT !in STEM && DOT !in CLONE_SUFFIX[1..];
    forall i | 0 < i < |name|
      ensures OccursAt(name, SUFFIX, i) <==> i < |Base(file)| && OccursAt(front, SUFFIX, i)
    {
      SuffixInClone(front, tag, i);
    }
  }

  lemma {:induction false} SuffixInClone(front: Bytes, tag: Bytes, i: nat)
    requires DOT !in tag && SUFFIX[|CLONE_SUFFIX|] !in tag
    ensures OccursAt(front + CLONE_SUFFIX + tag, SUFFIX, i) <==> OccursAt(front, SUFFIX, i)
    ensures OccursAt(front, SUFFIX, i) ==> i + 1 < |front|
  {
    var name, n := front + CLONE_SUFFIX + tag, |front|;
    assert name[..n] == front;
    if i + |SUFFIX| <= n {
      assert name[i..i + |SUFFIX|] == front[i..i + |SUFFIX|];
    } else if i + |SUFFIX| <= |name| {
      SuffixNotAcross(front, tag, i);
    }
  }

  lemma {:induction false} SuffixNotAcross(front: Bytes, tag: Bytes, i: nat)
    requires DOT !in tag && SUFFIX[|CLONE_SUFFIX|] !in tag
    requires |front| < i + |SUFFIX| <= |front + CLONE_SUFFIX + tag|
    ensures (front + CLONE_SUFFIX + tag)[i..i + |SUFFIX|] != SUFFIX
  {
    var name, n := front + CLONE_SUFFIX + tag, |front|;
    var here := name[i..i + |SUFFIX|];
    if i < n {
      assert here[n - i] == name[n] == DOT;
      assert SUFFIX[n - i] in STEM;
    } else if i == n {
      var k := |CLONE_SUFFIX|;
      assert here[k] == name[n + k] == tag[0];
      assert tag[0] in tag;
    } else {
      assert here[0] == name[i];
      assert name[i] in CLONE_SUFFIX[1..] || name[i] in tag;
    }
  }

  /** No journal names the file, nor is it one. */
  ghost predicate Unnamed(s: State, p: Path) {
    !JournalNamed(p) && !Pending(s, p) && !Spoiled(s, p)
  }

  /** The random name is not taken, and is not one a journal could have. */
  ghost predicate CloneIsFree(s: State, file: Path, tag: Bytes) {
    ClonePath(file, tag) !in s.files && Unnamed(s, ClonePath(file, tag))
  }

  datatype RenameRequest = RenameRequest(
    file: Path, from: Path, size: nat, sha256: Option<Bytes>, mtime: bool, base: Option<Stat>)

  /** What a clone becomes on commit: too short is refused, too long is cut. */
  ghost function RenameResult(clone: Bytes, size: nat): Option<Bytes> {
    if |clone| < size then None else Some(Truncate(clone, size))
  }

  /** The check that the original is still the one that was hashed. */
  ghost function BaseVerdict(req: RenameRequest, files: map<Path, Bytes>, mtimeS: int, mtimeNS: int): Outcome {
    if req.base.Some? && req.file !in files then Refused(Io)
    else if req.base.Some? && req.base.value != Stat(|files[req.file]|, mtimeS, mtimeNS) then Refused(Changed)
    else Done
  }

  ghost predicate Cuts(req: RenameRequest, files: map<Path, Bytes>, mtimeS: int, mtimeNS: int) {
    BaseVerdict(req, files, mtimeS, mtimeNS) == Done && req.from in files && |files[req.from]| > req.size
  }

  ghost function CloneVerdict(
    req: RenameRequest, files: map<Path, Bytes>, mtimeS: int, mtimeNS: int, sha256: Bytes -> Bytes): (o: Outcome)
    ensures o != Halted
  {
    if BaseVerdict(req, files, mtimeS, mtimeNS) != Done then BaseVerdict(req, files, mtimeS, mtimeNS)
    else if req.from !in files then Refused(Io)
    else if |files[req.from]| < req.size then Refused(Mismatch)
    else if req.sha256.Some? && sha256(Truncate(files[req.from], req.size)) != req.sha256.value then Refused(Mismatch)
    else Done
  }

  ghost function RenameVerdict(
    req: RenameRequest, files: map<Path, Bytes>, mtimeS: int, mtimeNS: int, sha256: Bytes -> Bytes): Outcome
  {
    if Dir(req.from) != Dir(req.file) then Refused(Usage) else CloneVerdict(req, files, mtimeS, mtimeNS, sha256)
  }

  /** The files after a commit in which no call fails. */
  ghost function RenameEnd(
    req: RenameRequest, files: map<Path, Bytes>, mtimeS: int, mtimeNS: int, sha256: Bytes -> Bytes): map<Path, Bytes>
  {
    if Dir(req.from) != Dir(req.file) then files
    else if CloneVerdict(req, files, mtimeS, mtimeNS, sha256) != Done then files - {req.from}
    else (files - {req.from})[req.file := Truncate(files[req.from], req.size)]
  }

  /** Which requests go through, and which of the error codes the others get. */
  lemma {:induction false} RenameVerdictMeans(
    req: RenameRequest, files: map<Path, Bytes>, mtimeS: int, mtimeNS: int, sha256: Bytes -> Bytes)
    ensures var o, sibling := RenameVerdict(req, files, mtimeS, mtimeNS, sha256), Dir(req.from) == Dir(req.file);
      var same := req.base.None? || (req.file in files && req.base.value == Stat(|files[req.file]|, mtimeS, mtimeNS));
      var there := req.from in files && |files[req.from]| >= req.size;
      var digested := req.sha256.None? || (there && sha256(files[req.from][..req.size]) == req.sha256.value);
      && (o == Done <==> sibling && same && there && digested)
      && (o == Refused(Usage) <==> !sibling)
      && (o == Refused(Changed) <==> sibling && !same && req.file in files)
      && (o == Refused(Mismatch) <==> sibling && same && req.from in files && !(there && digested))
  {
  }

  /** A refused commit leaves the original as it was if and only if it was not handed in as its own clone. */
  lemma {:induction false} RefusalKeepsOriginal(
    req: RenameRequest, files: map<Path, Bytes>, mtimeS: int, mtimeNS: int, sha256: Bytes -> Bytes)
    requires req.file in files && RenameVerdict(req, files, mtimeS, mtimeNS, sha256) != Done
    ensures var end := RenameEnd(req, files, mtimeS, mtimeNS, sha256);
      (req.file in end && end[req.file] == files[req.file]) <==> req.from != req.file
  {
  }

  /** commit --file /x --from /x, after x changed: refused, and x is deleted. */
  lemma {:induction false} CommitOntoItself(sha256: Bytes -> Bytes)
    ensures var x := [SLASH, 0x78];
      var req := RenameRequest(x, x, 1, None, false, Some(Stat(1, 0, 0)));
      && RenameVerdict(req, map[x := [7]], 5, 0, sha256) == Refused(Changed)
      && RenameEnd(req, map[x := [7]], 5, 0, sha256) == map[]
  {
    var x: Path := [SLASH, 0x78];
    assert map[x := [7]] - {x} == map[];
  }

  /** One journal the sweep came across. */
  datatype Recovered = Recovered(target: Bytes, rolledBack: bool)

  /** The walk from root visits p. */
  predicate Under(root: Path, p: Path) {
    p == root || Contains(root, p)
  }

  ghost predicate Swept(s: State, root: Path, p: Path) {
    p in s.files && Under(root, p) && SweepSees(Base(p))
  }

  /** What journalTarget makes of a journal; an error comes with an empty name. */
  function TargetOf(b: Bytes): Bytes {
    match ReadTarget(b)
    case Short => []
    case Got(target, _) => target
  }

  /** A journal is reported rolled back if and only if it is gone; then it was whole. The target reported is the
      one a whole journal names, unless reading it failed: then it is empty, whatever the rollback did. With no
      failing system call, every whole journal is rolled back. */
  ghost predicate Reports(s: State, t: State, p: Path, result: Recovered, calm: bool) {
    && p in s.files && result.rolledBack == (p !in t.files)
    && (result.rolledBack ==> Whole(s, p))
    && (result.target == TargetOf(s.files[p]) || (!calm && result.target == []))
    && (Whole(s, p) ==> TargetOf(s.files[p]) == s.live[p].target)
    && (calm ==> (result.rolledBack <==> Whole(s, p)))
  }

  ghost function Members(paths: seq<Path>): set<Path> {
    set p | p in paths
  }

  /** What the sweep recognises under root. */
  ghost function SweptOf(s: State, root: Path): set<Path> {
    set p | p in s.files && Swept(s, root, p)
  }

  /** p is there or not, and holds what it held. */
  ghost predicate SameBytes(s: State, t: State, p: Path) {
    (p in t.files <==> p in s.files) && (p in s.files ==> t.files[p] == s.files[p])
  }

  /** One of these journals is the file's. */
  ghost predicate Named(s: State, done: set<Path>, p: Path) {
    exists jp :: jp in done && jp in s.live && s.live[jp].target == p
  }

  /** Nothing but these journals and their files was touched; a journal is as it was or gone, and then it was
      whole. */
  ghost predicate Framed(s: State, t: State, done: set<Path>) {
    && (forall p :: p !in done && !Named(s, done, p) ==> SameBytes(s, t, p))
    && (forall p :: p in done && p in s.files && JournalNamed(p) ==>
          if p in t.files then t.files[p] == s.files[p] else Whole(s, p))
  }

  /** What is left of a file whose journal was swept, if nothing spoils it. With the journal gone, it is the old
      content; so it is with a torn one, which stays, and then nothing has changed. */
  ghost predicate Restored(s: State, t: State, jp: Path) {
    jp in s.live && !Spoiled(s, s.live[jp].target) ==>
      var file, orig := s.live[jp].target, s.live[jp].orig;
      && (jp !in t.files ==> file in t.files && t.files[file] == orig)
      && (!Whole(s, jp) ==>
            jp in t.files && file in s.files && file in t.files && t.files[file] == s.files[file] == orig)
  }

  /** What a sweep leaves, wherever it stops: no content changes; only recognised journals and their files are
      touched, and those come out as `Restored` says; and the results tell the truth about `swept`, the journals
      reported on, each only once. */
  ghost predicate Sweeps(
    s: State, t: State, root: Path, swept: seq<Path>, results: seq<Recovered>, calm: bool)
  {
    && Kept(s, t) && Framed(s, t, SweptOf(s, root))
    && (forall p :: Swept(s, root, p) ==> Restored(s, t, p))
    && |swept| == |results|
    && (forall i :: 0 <= i < |swept| ==> Swept(s, root, swept[i]) && Reports(s, t, swept[i], results[i], calm))
    && (forall i, j :: 0 <= i < j < |swept| ==> swept[i] != swept[j])
  }

  ghost predicate SweptSoFar(
    s: State, t: State, root: Path, visited: set<Path>, swept: seq<Path>, results: seq<Recovered>, calm: bool)
  {
    && Kept(s, t) && |swept| == |results|
    && (forall p :: p in swept <==> p in visited && Swept(s, root, p))
    && (forall i, j :: 0 <= i < j < |swept| ==> swept[i] != swept[j])
    && (forall i :: 0 <= i < |swept| ==> Reports(s, t, swept[i], results[i], calm))
    && Framed(s, t, Members(swept))
  }

  lemma {:induction false} SweptIsJournal(p: Path)
    requires SweepSees(Base(p))
    ensures JournalNamed(p)
  {
  }

  /** What InPlaceCommit is asked for. */
  datatype Request = Request(
    file: Path, patch: Bytes, block: int, indices: seq<nat>, finalSize: nat,
    sha256: Option<Bytes>, mtime: bool, base: Option<Stat>)
  {
    /** The code's own int64 arithmetic: block offsets do not overflow. */
    ghost predicate FitsInt64() {
      && |file| <= MAX_INT64 && finalSize <= MAX_INT64 && |indices| < MAX_INT64
      && forall i :: 0 <= i < |indices| ==> indices[i] * block <= MAX_INT64
    }

    ghost function Edit(): Edit {
      EditOf(if block > 0 then block else 0, finalSize, indices)
    }

    /** The file a commit of this request makes of `content`. */
    ghost function Result(content: Bytes): Bytes
      requires Fits(Edit(), patch)
    {
      Patched(content, Edit(), patch)
    }

    /** The last check, made on the applied file. */
    ghost function Checked(content: Bytes, digest: Bytes -> Bytes): Outcome
      requires Fits(Edit(), patch)
    {
      if sha256.Some? && digest(Result(content)) != sha256.value then Refused(Mismatch) else Done
    }
  }

  /** Every check is passed, and the stamp is yet to be set. */
  ghost predicate Stamping(req: Request, files: map<Path, Bytes>, sha256: Bytes -> Bytes) {
    req.mtime && (req.sha256.Some? ==> req.file in files && sha256(files[req.file]) == req.sha256.value)
  }

  /** The new bytes passed every check, but could not be stamped; the journal is still there. */
  ghost predicate Unstamped(req: Request, tag: Bytes, files: map<Path, Bytes>, sha256: Bytes -> Bytes) {
    JournalPath(req.file, tag) in files && Stamping(req, files, sha256)
  }

  /** What a commit that did not go through leaves of the files it found. With no failing call that is all of them. If
      the only failing call is what it is refused for, there may be a torn journal beside them, or the new bytes that
      could not be stamped. */
  ghost predicate Left(
    req: Request, tag: Bytes, before: map<Path, Bytes>, after: map<Path, Bytes>, o: Outcome, committed: bool,
    failed: int, sha256: Bytes -> Bytes)
  {
    var jp := JournalPath(req.file, tag);
    && after - {jp, req.file} == before - {jp, req.file}
    && (o.Refused? && failed == 0 ==> after == before)
    && (o == Refused(Io) && failed <= 1 && !committed ==>
      after - {jp} == before - {jp} || Unstamped(req, tag, after, sha256))
  }

  lemma {:induction false} NothingLeft(req: Request, tag: Bytes, files: map<Path, Bytes>, sha256: Bytes -> Bytes)
    ensures forall o, failed :: Left(req, tag, files, files, o, false, failed, sha256)
  {
    hide JournalPath, Unstamped;
  }

  lemma {:induction false} JournalLeft(
    req: Request, tag: Bytes, before: map<Path, Bytes>, after: map<Path, Bytes>, o: Outcome, failed: int,
    sha256: Bytes -> Bytes)
    requires var jp := JournalPath(req.file, tag);
      after - {jp} == before - {jp} && (o != Done && failed == 0 ==> after == before)
    ensures o != Done ==> Left(req, tag, before, after, o, false, failed, sha256)
  {
    hide JournalPath, Unstamped;
    WithoutMore(after, before, req.file, JournalPath(req.file, tag));
    assert {req.file, JournalPath(req.file, tag)} == {JournalPath(req.file, tag), req.file};
  }

  lemma {:induction false} ApplyLeft(
    req: Request, tag: Bytes, before: map<Path, Bytes>, mid: map<Path, Bytes>, after: map<Path, Bytes>, o: Outcome,
    committed: bool, failed: int, sha256: Bytes -> Bytes)
    requires var jp := JournalPath(req.file, tag);
      && jp !in before && jp in mid && mid - {jp} == before
      && after - {jp, req.file} == mid - {jp, req.file}
      && (o.Refused? && failed == 0 ==> after == mid - {jp})
      && (o == Refused(Io) && failed <= 1 && !committed ==> after == mid - {jp} || Unstamped(req, tag, after, sha256))
    ensures Left(req, tag, before, after, o, committed, failed, sha256)
  {
    hide JournalPath, Unstamped;
    var jp := JournalPath(req.file, tag);
    assert before - {jp} == before && (mid - {jp}) - {req.file} == mid - {jp, req.file};
    assert before - {jp, req.file} == (before - {jp}) - {req.file};
  }

  lemma {:induction false} AppliedFrame(
    before: map<Path, Bytes>, after: map<Path, Bytes>, file: Path, jp: Path, orig: Bytes)
    requires file in before && file in after && jp != file && jp in before
    requires after == before[file := after[file]] && before[file] == orig
    ensures after - {jp, file} == before - {jp, file} && (after - {jp})[file := orig] == before - {jp} && jp in after
  {
  }

  /** What is left of the files once these journals are rolled back: the journals are gone, their files hold the old
      bytes, unless an overlooked journal spoiled them, and no other file has changed. `but` are not spoken of. */
  ghost predicate Undone(s: State, files: map<Path, Bytes>, done: set<Path>, but: set<Path>) {
    && (forall p :: p !in but ==> (p in files <==> p in s.files && p !in done))
    && (forall p :: p in files && p in s.files && p !in but && !Named(s, done, p) ==> files[p] == s.files[p])
    && (forall jp :: jp in done && jp in s.live && !Spoiled(s, s.live[jp].target) ==> Back(s, files, jp, but))
  }

  ghost predicate Back(s: State, files: map<Path, Bytes>, jp: Path, but: set<Path>)
    requires jp in s.live
  {
    s.live[jp].target in but || (s.live[jp].target in files && files[s.live[jp].target] == s.live[jp].orig)
  }

  lemma {:induction false} NothingUndone(s: State)
    ensures Undone(s, s.files, {}, {})
  {
    hide Spoiled;
  }

  lemma {:induction false} UndoneMore(s: State, b: State, t: State, done: set<Path>, m: Path)
    requires Inv(s) && Inv(b) && Kept(s, b) && Undone(s, b.files, done, {})
    requires m in s.files && m in b.files && m !in done && JournalNamed(m)
    requires RolledBack(b, t, m)
    ensures Undone(s, t.files, done + {m}, {})
  {
    hide JournalNamed, Contents, Record.Good, Record.Bytes, Rollback, Inv, Spoiled, Pending, Kept, Undone, RolledBack;
    SameRecord(s, b, m);
    BackMore(s, b, t, done, m);
    UndoneFrame(s, b, t, done, m);
    UndoneBy(s, t, done + {m});
  }

  lemma {:induction false} UndoneBy(s: State, t: State, done: set<Path>)
    requires forall p :: p in t.files <==> p in s.files && p !in done
    requires forall p :: p in t.files && p in s.files && !Named(s, done, p) ==> t.files[p] == s.files[p]
    requires forall jp :: jp in done && jp in s.live && !Spoiled(s, s.live[jp].target) ==> Back(s, t.files, jp, {})
    ensures Undone(s, t.files, done, {})
  {
    hide Named, Spoiled, Back;
  }

  lemma {:induction false} SameRecord(s: State, b: State, m: Path)
    requires Inv(s) && Inv(b) && Kept(s, b) && m in b.files && JournalNamed(m)
    ensures m in s.live && m in b.live && b.live[m] == s.live[m] && !JournalNamed(s.live[m].target)
    ensures !Spoiled(s, s.live[m].target) ==> m !in b.marks.stale && m !in s.marks.stale
  {
    hide JournalNamed, Inv, Contents, Pending;
    LiveIs(b, m);
    LiveTargetIsNoJournal(s, m);
  }

  lemma {:induction false} UndoneFrame(s: State, b: State, t: State, done: set<Path>, m: Path)
    requires Undone(s, b.files, done, {}) && m in s.files && m !in done && RolledBack(b, t, m)
    requires m in s.live && m in b.live && b.live[m] == s.live[m] && JournalNamed(m) && !JournalNamed(s.live[m].target)
    ensures forall p :: p in t.files <==> p in s.files && p !in done + {m}
    ensures forall p :: p in t.files && p in s.files && !Named(s, done + {m}, p) ==> t.files[p] == s.files[p]
  {
    hide JournalNamed, Record.Good, Rollback, Spoiled, Back;
    forall p | p in t.files && p in s.files && !Named(s, done + {m}, p) ensures t.files[p] == s.files[p] {
      assert m in done + {m};
      NamedMore(s, done, m, p);
    }
  }

  lemma {:induction false} NamedMore(s: State, done: set<Path>, m: Path, p: Path)
    ensures Named(s, done, p) ==> Named(s, done + {m}, p)
  {
    if Named(s, done, p) {
      var jp :| jp in done && jp in s.live && s.live[jp].target == p;
      assert jp in done + {m};
    }
  }

  lemma {:induction false} BackMore(s: State, b: State, t: State, done: set<Path>, m: Path)
    requires Inv(s) && Undone(s, b.files, done, {}) && m !in done && RolledBack(b, t, m)
    requires m in s.live && m in b.live && b.live[m] == s.live[m] && JournalNamed(m) && !JournalNamed(s.live[m].target)
    requires !Spoiled(s, s.live[m].target) ==> m !in b.marks.stale && m !in s.marks.stale
    ensures forall jp :: jp in done + {m} && jp in s.live && !Spoiled(s, s.live[jp].target) ==> Back(s, t.files, jp, {})
  {
    hide JournalNamed, Record.Good, Rollback, Spoiled, Named, Inv;
    forall jp | jp in done + {m} && jp in s.live && !Spoiled(s, s.live[jp].target) ensures Back(s, t.files, jp, {}) {
      if jp != m {
        assert Back(s, b.files, jp, {});
        NotSpoiling(s, s.live[jp].target, jp);
        if s.live[jp].target == s.live[m].target {
          SameGuard(s, jp, m);
        }
        LiveTargetIsNoJournal(s, jp);
      }
    }
  }

  /** What a refused commit left, in terms of the files before its lookup. */
  lemma {:induction false} UndoneLeft(
    s: State, before: map<Path, Bytes>, after: map<Path, Bytes>, seen: set<Path>, req: Request, tag: Bytes,
    o: Outcome, committed: bool, failed: int, sha256: Bytes -> Bytes)
    requires Undone(s, before, seen, {}) && Left(req, tag, before, after, o, committed, failed, sha256)
    ensures o.Refused? && failed == 0 ==> Undone(s, after, seen, {})
    ensures o == Refused(Io) && failed <= 1 && !committed ==>
      Undone(s, after, seen, {JournalPath(req.file, tag)}) || Unstamped(req, tag, after, sha256)
  {
    hide JournalPath, Unstamped, Undone;
    UndoneBut(s, before, after, seen, JournalPath(req.file, tag));
  }

  lemma {:induction false} UndoneBut(
    s: State, before: map<Path, Bytes>, after: map<Path, Bytes>, done: set<Path>, jp: Path)
    ensures Undone(s, before, done, {}) && after == before ==> Undone(s, after, done, {})
    ensures Undone(s, before, done, {}) && after - {jp} == before - {jp} ==> Undone(s, after, done, {jp})
  {
    hide Named, Spoiled;
    if Undone(s, before, done, {}) && after - {jp} == before - {jp} {
      forall p | p != jp
        ensures p in after <==> p in before
        ensures p in after ==> after[p] == before[p]
      {
        assert p in after - {jp} <==> p in before - {jp};
        if p in after { assert (after - {jp})[p] == after[p]; }
        if p in before { assert (before - {jp})[p] == before[p]; }
      }
    }
  }

  /** The bytes after a rollback of an armed journal that went through, and the frame of any other. */
  lemma {:induction false} UndoneFiles(s: State, t: State, jp: Path, done: bool)
    requires Inv(s) && Armed(s, jp) && Touched(s, t, jp) && (done ==> RolledBack(s, t, jp))
    ensures done ==> t.files == (s.files - {jp})[s.live[jp].target := s.live[jp].orig]
    ensures t.files - {jp, s.live[jp].target} == s.files - {jp, s.live[jp].target}
  {
    hide JournalNamed, Inv, Record.Good, Record.Bytes, Rollback, Whole;
    WholeIs(s, jp);
    LiveTargetIsNoJournal(s, jp);
  }

  /** The lookup for older journals takes the name as it is, or the new journal's name is not taken. */
  ghost predicate Plain(file: Path, tag: Bytes, files: map<Path, Bytes>) {
    NoMeta(file) || JournalPath(file, tag) !in files
  }

  /** A journal that guards the file and was not among those seen. */
  ghost predicate Unseen(s: State, seen: set<Path>, target: Path) {
    exists jp :: jp in s.live && jp !in s.marks.stale && s.live[jp].target == target && jp !in seen
  }

  /** The bytes a commit finds once the journals that were seen are rolled back. */
  ghost function Found(s: State, seen: set<Path>, file: Path): Bytes
    requires file in s.files
  {
    if Unseen(s, seen, file) || file !in Contents(s) then s.files[file] else Contents(s)[file]
  }

  /** The file holds what was asked for of what the commit found. */
  ghost predicate Edited(s: State, t: State, seen: set<Path>, req: Request) {
    && req.file in s.files && req.file in t.files && Fits(req.Edit(), req.patch)
    && (!Unseen(s, seen, req.file) ==> req.file in Contents(s))
    && t.files[req.file] == req.Result(Found(s, seen, req.file))
  }

  /** How a commit ends when no system call fails, check by check. */
  ghost function Verdict(
    req: Request, s: State, seen: set<Path>, mtimeS: int, mtimeNS: int, sha256: Bytes -> Bytes): Outcome
  {
    if req.block <= 0 then Refused(Usage)
    else if exists p :: p in seen && !Whole(s, p) then Refused(Io)
    else if !Ascending(req.indices) then Refused(Usage)
    else if req.file !in s.files then Refused(Io)
    else CheckedArgs(req, Found(s, seen, req.file), mtimeS, mtimeNS, sha256)
  }

  /** Which requests go through, and which of the error codes the others get. */
  lemma {:induction false} VerdictMeans(
    req: Request, s: State, seen: set<Path>, mtimeS: int, mtimeNS: int, sha256: Bytes -> Bytes)
    requires req.file in s.files
    ensures var o, found := Verdict(req, s, seen, mtimeS, mtimeNS, sha256), Found(s, seen, req.file);
      var clear := req.block > 0 && forall p :: p in seen ==> Whole(s, p);
      var same := req.base.None? || req.base.value == Stat(|found|, mtimeS, mtimeNS);
      var inside := forall j :: 0 <= j < |req.indices| ==> req.Edit().offs[j] <= req.finalSize;
      && (o == Done ==> Fits(req.Edit(), req.patch))
      && (Fits(req.Edit(), req.patch) ==>
        var digested := req.sha256.None? || sha256(Patched(found, req.Edit(), req.patch)) == req.sha256.value;
        o == Done <==> clear && Ascending(req.indices) && same && inside && digested)
      && (o == Refused(Changed) <==> clear && Ascending(req.indices) && !same)
      && (o == Refused(Io) <==> req.block > 0 && !clear)
      && (o == Refused(Usage) <==> req.block <= 0 || (clear && (!Ascending(req.indices) || (same && !inside))))
  {
    hide Whole, Found, Fits, Patched;
  }

  ghost function CheckedArgs(
    req: Request, content: Bytes, mtimeS: int, mtimeNS: int, sha256: Bytes -> Bytes): Outcome
  {
    if req.base.Some? && req.base.value != Stat(|content|, mtimeS, mtimeNS) then Refused(Changed)
    else if exists j :: 0 <= j < |req.indices| && req.Edit().offs[j] > req.finalSize then Refused(Usage)
    else if !Fits(req.Edit(), req.patch) then Refused(Mismatch)
    else req.Checked(content, sha256)
  }

  method IsAscending(indices: seq<nat>) returns (b: bool)
    ensures b <==> Ascending(indices)
  {
    var i := 1;
    while i < |indices|
      invariant 1 <= i
      invariant forall j, k :: 0 <= j < k < i && k < |indices| ==> indices[j] < indices[k]
    {
      if indices[i] <= indices[i - 1] {
        return false;
      }
      i := i + 1;
    }
    return true;
  }

  /** Whether every block starts within the final size, and then the length the patch must have. */
  method ExpectedPatch(block: nat, finalSize: nat, indices: seq<nat>) returns (inside: bool, patchLen: int)
    ensures inside <==> forall j :: 0 <= j < |indices| ==> EditOf(block, finalSize, indices).offs[j] <= finalSize
    ensures inside ==> patchLen == PatchLen(EditOf(block, finalSize, indices), |indices|)
  {
    ghost var e := EditOf(block, finalSize, indices);
    patchLen := 0;
    for n := 0 to |indices|
      invariant patchLen == PatchLen(e, n)
      invariant forall j :: 0 <= j < n ==> e.offs[j] <= finalSize
    {
      var off := indices[n] * block;
      assert off == e.offs[n];
      if off > finalSize {
        return false, 0;
      }
      patchLen := patchLen + Min(block, finalSize - off);
    }
    return true, patchLen;
  }

  /** A region to save, before its bytes are read. */
  datatype Span = Span(off: nat, length: nat)

  ghost predicate AreSpans(spans: seq<Span>, regs: seq<Region>) {
    |spans| == |regs| && forall i :: 0 <= i < |spans| ==> spans[i] == Span(regs[i].off, |regs[i].data|)
  }

  /** What the apply will destroy, block by block, and what the final truncation will. */
  method SpansToSave(origSize: nat, finalSize: nat, block: nat, indices: seq<nat>, ghost orig: Bytes)
    returns (spans: seq<Span>)
    requires origSize == |orig|
    ensures AreSpans(spans, Saved(orig, EditOf(block, finalSize, indices)))
  {
    ghost var e := EditOf(block, finalSize, indices);
    spans := [];
    for n := 0 to |indices|
      invariant AreSpans(spans, SavedBlocks(orig, e, n))
    {
      var off := indices[n] * block;
      assert off == e.offs[n];
      if off < origSize {
        spans := spans + [Span(off, Min(block, origSize - off))];
      }
    }
    if finalSize < origSize {
      spans := spans + [Span(finalSize, origSize - finalSize)];
    }
  }

  /** What is left of a journal once the first k header fields are written. */
  ghost function Rest(r: Record, k: nat): Bytes
    requires k <= 6
    decreases 6 - k
  {
    if k == 6 then SerializeRegions(r.Regs())
    else
      (match k
       case 0 => MAGIC
       case 1 => PutUint64(|r.target|)
       case 2 => r.target
       case 3 => PutUint64(|r.orig|)
       case 4 => PutUint64(r.edit.finalSize)
       case _ => PutUint64(|r.Regs()|)) + Rest(r, k + 1)
  }

  lemma {:induction false} RestSplits(r: Record)
    ensures Rest(r, 0) == MAGIC + Rest(r, 1)
    ensures Rest(r, 1) == PutUint64(|r.target|) + Rest(r, 2)
    ensures Rest(r, 2) == r.target + Rest(r, 3)
    ensures Rest(r, 3) == PutUint64(|r.orig|) + Rest(r, 4)
    ensures Rest(r, 4) == PutUint64(r.edit.finalSize) + Rest(r, 5)
    ensures Rest(r, 5) == PutUint64(|r.Regs()|) + Rest(r, 6)
    ensures Rest(r, 6) == SerializeRegions(r.Regs())
  {
    hide PutUint64, SerializeRegions, Record.Regs;
  }

  lemma {:induction false} RestIsAll(r: Record)
    ensures [] + Rest(r, 0) == r.Bytes()
  {
    hide PutUint64, SerializeRegions, Record.Regs, Rest;
    RestSplits(r);
  }

  lemma {:induction false} RegsAreSaved(r: Record)
    ensures r.Regs() == Saved(r.orig, r.edit)
  {
  }

  lemma {:induction false} SerializeNext(regs: seq<Region>, i: nat)
    requires i < |regs|
    ensures SerializeRegions(regs[i..])
         == PutUint64(regs[i].off) + (PutUint64(|regs[i].data|) + (regs[i].data + SerializeRegions(regs[i + 1..])))
  {
    hide PutUint64;
    assert regs[i..][1..] == regs[i + 1..];
  }

  lemma {:induction false} SerializeNone(regs: seq<Region>)
    ensures SerializeRegions(regs[|regs|..]) == []
  {
  }

  // ----- what methods keep

  ghost predicate SizesFit(files: map<Path, Bytes>) {
    forall p :: p in files && !JournalNamed(p) ==> |files[p]| <= MAX_INT64
  }

  /** No content changed or went, and none came but of files that were spoiled; no journal came, and none that was
      overlooked guards anything again. */
  ghost predicate Kept(s: State, t: State) {
    && (forall p :: p in Contents(s) ==> p in Contents(t) && Contents(t)[p] == Contents(s)[p])
    && (forall p :: p in Contents(t) ==> p in Contents(s) || Spoiled(s, p))
    && (forall p :: Spoiled(t, p) ==> Spoiled(s, p))
    && (forall p :: Pending(t, p) ==> Pending(s, p))
    && (forall p :: !JournalNamed(p) ==> (p in t.files <==> p in s.files))
    && (forall p :: p in t.live ==> p in s.live && t.live[p] == s.live[p])
    && (forall p :: p in t.live && p !in t.marks.stale ==> p !in s.marks.stale)
  }

  /** The same for all files but one. */
  ghost predicate KeptBut(s: State, t: State, file: Path) {
    && (forall p :: p != file && p in Contents(s) ==> p in Contents(t) && Contents(t)[p] == Contents(s)[p])
    && (forall p :: p != file && p in Contents(t) ==> p in Contents(s) || Spoiled(s, p))
  }

  ghost predicate SameContent(s: State, t: State, p: Path) {
    (p in Contents(s) <==> p in Contents(t)) && (p in Contents(s) ==> Contents(t)[p] == Contents(s)[p])
  }

  lemma {:induction false} NothingKept(s: State, file: Path)
    ensures Kept(s, s) && KeptBut(s, s, file) && SameContent(s, s, file)
  {
  }

  lemma {:induction false} KeptIsTransitive(s: State, t: State, u: State)
    requires Kept(s, t) && Kept(t, u)
    ensures Kept(s, u)
  {
    hide Contents, Spoiled, Pending, JournalNamed;
  }

  lemma {:induction false} KeptForOne(s: State, t: State, file: Path)
    requires Kept(s, t)
    ensures KeptBut(s, t, file) && (!Spoiled(s, file) ==> SameContent(s, t, file))
    ensures forall p :: Spoiled(t, p) ==> Spoiled(s, p)
  {
    hide Contents, Spoiled, Pending, JournalNamed;
  }

  /** On a disk no commit has gone wrong on, that is all there is to it: the contents are the same. */
  lemma {:induction false} KeptIsSame(s: State, t: State)
    requires Kept(s, t) && s.marks.stale == {}
    ensures Contents(t) == Contents(s)
  {
    hide Contents, Pending, JournalNamed;
  }

  /** There, a commit changes at most the content of its own file. */
  lemma {:induction false} KeptButIsSame(s: State, t: State, file: Path)
    requires KeptBut(s, t, file) && s.marks.stale == {}
    ensures SameContent(s, t, file) ==> Contents(t) == Contents(s)
    ensures file in Contents(t) ==> Contents(t) == Contents(s)[file := Contents(t)[file]]
  {
    hide Contents, Pending, JournalNamed;
  }

  /** A rollback of jp, as far as it went, touched nothing but that journal and its target. */
  ghost predicate Touched(s: State, t: State, jp: Path) {
    && jp in s.live && jp in s.files && JournalNamed(jp)
    && (forall p :: p != jp && p != s.live[jp].target ==>
          (p in t.files <==> p in s.files) && (p in s.files ==> t.files[p] == s.files[p]))
    && (if jp in t.files then t.files[jp] == s.files[jp] else Whole(s, jp))
    && t.live == (if jp in t.files then s.live else s.live - {jp})
    && (forall q :: q in t.live && (q == jp || s.live[q].target != s.live[jp].target || jp !in s.marks.stale) ==>
          (q in t.marks.stale <==> q in s.marks.stale))
  }

  /** A rollback of jp that went through. */
  ghost predicate RolledBack(s: State, t: State, jp: Path) {
    && Has(s, jp) && t.live == s.live - {jp}
    && t.files == (s.files - {jp})[s.live[jp].target := Rollback(Current(s, jp), s.live[jp].Regs(), |s.live[jp].orig|)]
    && (jp !in s.marks.stale ==> t.files[s.live[jp].target] == s.live[jp].orig)
  }

  lemma {:induction false} NothingTouched(s: State, jp: Path)
    requires Inv(s) && JournalNamed(jp)
    ensures Kept(s, s) && (jp in s.files ==> Touched(s, s, jp))
  {
    hide Contents, Spoiled, Pending, JournalNamed, JournalHolds;
  }

  /** A rollback under way: nothing shows. */
  ghost predicate Rolling(s: State, t: State, jp: Path) {
    && Touched(s, t, jp) && Kept(s, t) && Contents(t) == Contents(s)
    && t.live == s.live && jp in t.files && s.live[jp].target in t.files
    && (jp in t.marks.stale <==> jp in s.marks.stale)
  }

  lemma {:induction false} RollingOn(s: State, t: State, u: State, jp: Path)
    requires Inv(s) && Rolling(s, t, jp) && Has(s, jp)
    requires u.live == t.live && u.marks.stale == t.marks.stale && Contents(u) == Contents(t)
    requires s.live[jp].target in u.files && u.files == t.files[s.live[jp].target := u.files[s.live[jp].target]]
    ensures Rolling(s, u, jp)
  {
    hide Contents, JournalNamed, Record.Good, Inv, Kept, Whole;
    TargetIsNoJournal(s, jp);
    KeptOn(s, t, u);
  }

  lemma {:induction false} KeptOn(s: State, t: State, u: State)
    requires Kept(s, t) && u.live == t.live && u.marks.stale == t.marks.stale && Contents(u) == Contents(t)
    requires u.files.Keys == t.files.Keys
    ensures Kept(s, u)
  {
    hide Contents, JournalNamed;
    forall p
      ensures Spoiled(u, p) <==> Spoiled(t, p)
      ensures Pending(u, p) <==> Pending(t, p)
    {
    }
  }

  /** What guards the target of an overlooked journal is ignored before that is rolled back. */
  lemma {:induction false} IgnoredForRollback(s: State, t: State, jp: Path)
    requires Inv(s) && Has(s, jp) && JournalNamed(jp) && t.files == s.files && t.live == s.live
    requires jp !in s.marks.stale ==> t == s
    requires jp in s.marks.stale ==>
      && !Pending(t, s.live[jp].target) && s.marks.stale <= t.marks.stale && t.marks.synced == s.marks.synced
      && (forall q :: q in t.marks.stale && q !in s.marks.stale ==>
        q in s.live && s.live[q].target == s.live[jp].target)
      && Contents(t) == (if Pending(s, s.live[jp].target) then Contents(s) - {s.live[jp].target} else Contents(s))
    ensures Alone(t, jp) && Rolling(s, t, jp) && t.marks.synced == s.marks.synced
    ensures (Whole(t, jp) <==> Whole(s, jp)) && Current(t, jp) == Current(s, jp)
    ensures jp in s.files && s.files[jp] == t.files[jp]
  {
    hide Contents, JournalNamed, Record.Good, Record.Bytes, Inv, Kept, Pending, Spoiled;
    if jp in s.marks.stale {
      IgnoredKept(s, t, jp);
    } else {
      NothingTouched(s, jp);
    }
  }

  lemma {:induction false} IgnoredKept(s: State, t: State, jp: Path)
    requires jp in s.live && jp in s.marks.stale && t.files == s.files && t.live == s.live
    requires s.marks.stale <= t.marks.stale
    requires forall q :: q in t.marks.stale && q !in s.marks.stale ==>
      q in s.live && s.live[q].target == s.live[jp].target
    requires Contents(t) ==
      (if Pending(s, s.live[jp].target) then Contents(s) - {s.live[jp].target} else Contents(s))
    ensures Kept(s, t) && Contents(t) == Contents(s)
  {
    hide Content, JournalNamed;
    assert Spoiled(s, s.live[jp].target);
    forall p ensures Spoiled(t, p) ==> Spoiled(s, p) {}
    forall p ensures Pending(t, p) ==> Pending(s, p) {}
  }

  lemma {:induction false} WholeIs(s: State, jp: Path)
    ensures Whole(s, jp) <==> Has(s, jp) && s.files[jp] == s.live[jp].Bytes()
  {
  }

  lemma {:induction false} NotWhole(s: State, jp: Path)
    requires jp in s.live && s.live[jp].target !in s.files
    ensures !Whole(s, jp)
  {
  }

  /** A rollback's writes leave a target with a torn journal as it was. */
  lemma {:induction false} RolledSoFar(s: State, t: State, jp: Path)
    requires Inv(s) && Inv(t) && Has(s, jp) && Has(t, jp) && t.live == s.live && t.files[jp] == s.files[jp]
    requires t.marks.stale == s.marks.stale
    ensures Whole(t, jp) <==> Whole(s, jp)
    ensures !Whole(s, jp) && jp !in s.marks.stale ==> Current(t, jp) == Current(s, jp)
  {
    hide Record.Bytes, Record.Good, Inv;
    if jp !in s.marks.stale {
      GuardedIsDamaged(s, jp);
      GuardedIsDamaged(t, jp);
    }
  }

  /** All the regions of a whole journal, and the old size, are its rollback; it restores a guarded target. */
  lemma {:induction false} RestoredWhole(s: State, jp: Path, content: Bytes)
    requires Inv(s) && Whole(s, jp)
    requires content == Truncate(Replay(Current(s, jp), Readable(s.files[jp])), |s.live[jp].orig|)
    ensures content == Rollback(Current(s, jp), s.live[jp].Regs(), |s.live[jp].orig|)
    ensures jp !in s.marks.stale ==> content == s.live[jp].orig
  {
    hide Record.Regs, Record.Bytes, Fits, Damaged, JournalNamed, Replay, Truncate, Readable, Inv;
    ReadableWhole(s, jp);
    if jp !in s.marks.stale {
      GuardedIsDamaged(s, jp);
      GoodIsEncodable(s.live[jp]);
      RollbackRestores(s.live[jp].orig, Current(s, jp), s.live[jp].Regs());
    }
  }

  /** The end of a rollback shows only where nothing was shown before. */
  lemma {:induction false} DroppedTouches(s: State, v: State, jp: Path)
    requires Inv(s) && Inv(v) && Rolling(s, v, jp) && Whole(s, jp) && Alone(v, jp)
    requires jp !in s.marks.stale ==> Current(v, jp) == s.live[jp].orig
    requires Contents(Removed(v, jp)) ==
      if Spoiled(Removed(v, jp), s.live[jp].target) then Contents(v)
      else Contents(v)[s.live[jp].target := Current(v, jp)]
    ensures Kept(s, Removed(v, jp)) && Touched(s, Removed(v, jp), jp)
    ensures jp !in s.marks.stale ==> Contents(Removed(v, jp)) == Contents(s)
  {
    hide Contents, JournalNamed, Record.Good, Inv, Spoiled, Pending, Kept, Touched;
    DroppedTouch(s, v, jp);
    RemovedNames(v, jp);
    if jp in s.marks.stale {
      SpoiledBy(s, jp);
    } else if !Spoiled(Removed(v, jp), s.live[jp].target) {
      PendingContent(v, jp);
      assert Contents(v)[s.live[jp].target := s.live[jp].orig] == Contents(v);
    }
    SpoiledHasNone(s, s.live[jp].target);
    DroppedKeeps(s, v, jp);
  }

  lemma {:induction false} SpoiledHasNone(s: State, p: Path)
    ensures Spoiled(s, p) ==> p !in Contents(s)
  {
    hide Content, JournalNamed, Spoiled;
  }

  lemma {:induction false} DroppedTouch(s: State, v: State, jp: Path)
    requires Inv(s) && Rolling(s, v, jp) && Whole(s, jp)
    ensures Touched(s, Removed(v, jp), jp)
  {
    hide Contents, JournalNamed, Record.Good, Inv, Spoiled, Pending, Kept;
    TargetIsNoJournal(s, jp);
  }

  lemma {:induction false} DroppedKeeps(s: State, v: State, jp: Path)
    requires Inv(s) && Inv(v) && Rolling(s, v, jp) && Has(s, jp) && Alone(v, jp)
    requires var t, target := Removed(v, jp), s.live[jp].target;
      if Contents(t) == Contents(v) then true
      else Spoiled(s, target) && Contents(t) == Contents(v)[target := Current(v, jp)]
    requires Spoiled(s, s.live[jp].target) ==> s.live[jp].target !in Contents(s)
    ensures Kept(s, Removed(v, jp))
  {
    hide Contents, JournalNamed, Record.Good, Inv, Spoiled, Pending, Touched;
    var t, target := Removed(v, jp), s.live[jp].target;
    RemovedNames(v, jp);
    TargetIsNoJournal(s, jp);
    LiveIsNamed(v, jp);
    forall p ensures Spoiled(t, p) ==> Spoiled(s, p) {}
    forall p ensures Pending(t, p) ==> Pending(s, p) {
      RemovedPending(v, jp, p);
    }
  }

  lemma {:induction false} DroppedRollsBack(s: State, v: State, jp: Path)
    requires Inv(s) && Rolling(s, v, jp) && Has(s, jp)
    requires Current(v, jp) == Rollback(Current(s, jp), s.live[jp].Regs(), |s.live[jp].orig|)
    requires jp !in s.marks.stale ==> Current(v, jp) == s.live[jp].orig
    ensures RolledBack(s, Removed(v, jp), jp)
  {
    hide Contents, JournalNamed, Record.Good, Inv, Spoiled, Pending, Kept, Rollback;
    TargetIsNoJournal(s, jp);
    LiveIsNamed(s, jp);
    var t := Removed(v, jp);
    var files := (s.files - {jp})[s.live[jp].target := Current(v, jp)];
    assert t.files.Keys == files.Keys;
    assert t.files == files;
  }

  lemma {:induction false} SpoiledBy(s: State, jp: Path)
    requires jp in s.live && jp in s.marks.stale
    ensures Spoiled(s, s.live[jp].target) && s.live[jp].target !in Contents(s)
  {
    hide Content, JournalNamed;
  }

  lemma {:induction false} RemovedPending(s: State, jp: Path, p: Path)
    ensures Pending(Removed(s, jp), p) ==> Pending(s, p)
  {
  }

  // ----- looking for journals

  /** The journals in `done` are gone, the others as they were; and a file is guarded now if it was by one of the
      others, in which case it was not touched. */
  ghost predicate Looked(s: State, t: State, done: set<Path>) {
    && (forall p :: p in done ==> p !in t.files)
    && Untouched(s, t, t.files.Keys + s.files.Keys - done)
    && (forall p :: !Spoiled(s, p) ==> (Pending(t, p) <==> Unseen(s, done, p)))
    && (forall p :: !Spoiled(s, p) && Pending(t, p) ==> p in s.files && p in t.files && t.files[p] == s.files[p])
    && (SizesFit(s.files) ==> SizesFit(t.files))
  }

  /** The journals among these are as they were. */
  ghost predicate Untouched(s: State, t: State, rest: set<Path>) {
    forall p :: p in rest && JournalNamed(p) ==>
      && (p in t.files <==> p in s.files)
      && (p in s.files ==> p in s.live && p in t.live && t.live[p] == s.live[p] && t.files[p] == s.files[p])
  }

  lemma {:induction false} NothingUntouched(s: State, rest: set<Path>)
    requires Inv(s)
    ensures Untouched(s, s, rest)
  {
    hide JournalNamed, JournalHolds;
  }

  lemma {:induction false} UntouchedStill(s: State, t: State, rest: set<Path>, p: Path)
    requires Untouched(s, t, rest) && Kept(s, t) && p in rest && p in s.files && JournalNamed(p)
    ensures p in t.files && p in s.live && p in t.live && t.live[p] == s.live[p] && t.files[p] == s.files[p]
    ensures Whole(s, p) <==> Whole(t, p)
  {
    hide JournalNamed, Record.Bytes, Record.Good, Contents, Spoiled, Pending;
    if Has(s, p) { TargetIsNoJournal(s, p); }
    if Has(t, p) { TargetIsNoJournal(t, p); }
  }

  lemma {:induction false} UntouchedMore(s: State, b: State, t: State, rest: set<Path>, m: Path)
    requires Untouched(s, b, rest) && Touched(b, t, m) && Inv(b)
    ensures Untouched(s, t, rest - {m})
    ensures forall q :: JournalNamed(q) && q != m ==> (q in t.files <==> q in b.files)
  {
    hide JournalNamed, Inv;
    LiveTargetIsNoJournal(b, m);
  }

  lemma {:induction false} LiveTargetIsNoJournal(s: State, jp: Path)
    requires Inv(s) && jp in s.live
    ensures !JournalNamed(s.live[jp].target)
  {
    hide JournalNamed, Record.Bytes, Record.Path, Record.Regs, Guards, Fits;
    assert JournalHolds(s, jp);
  }

  lemma {:induction false} NothingLooked(s: State)
    requires Inv(s)
    ensures Kept(s, s) && Looked(s, s, {})
  {
    hide JournalNamed, Contents, Inv;
    NothingUntouched(s, s.files.Keys + s.files.Keys - {});
    forall p | Pending(s, p) ensures p in s.files {
      var jp :| jp in s.live && jp !in s.marks.stale && s.live[jp].target == p;
      GuardedIsDamaged(s, jp);
    }
  }

  lemma {:induction false} LookedStill(s: State, t: State, done: set<Path>, p: Path)
    requires Looked(s, t, done) && Kept(s, t) && p !in done && p in s.files && JournalNamed(p)
    ensures p in t.files && (Whole(s, p) <==> Whole(t, p))
  {
    hide JournalNamed, Whole, Untouched, Kept, Spoiled, Pending, Unseen, SizesFit;
    UntouchedStill(s, t, t.files.Keys + s.files.Keys - done, p);
  }

  lemma {:induction false} LookedMore(s: State, b: State, t: State, done: set<Path>, m: Path)
    requires Inv(s) && Inv(b) && Looked(s, b, done) && Kept(s, b) && Kept(s, t)
    requires m !in done && Touched(b, t, m) && RolledBack(b, t, m)
    ensures Looked(s, t, done + {m})
  {
    hide JournalNamed, Contents, Record.Good, Record.Bytes, Rollback, Inv, Spoiled, Pending, Unseen, Untouched, Kept;
    TargetIsNoJournal(b, m);
    UntouchedMore(s, b, t, b.files.Keys + s.files.Keys - done, m);
    UntouchedAsWell(s, b, t, done, m);
    forall p | !Spoiled(s, p)
      ensures Pending(t, p) <==> Unseen(s, done + {m}, p)
      ensures Pending(t, p) ==> p in s.files && p in t.files && t.files[p] == s.files[p]
    {
      LookedMoreAt(s, b, t, done, m, p);
    }
    if SizesFit(b.files) { RolledBackFits(b, t, m); }
  }

  lemma {:induction false} UntouchedAsWell(s: State, b: State, t: State, done: set<Path>, m: Path)
    requires Untouched(s, t, b.files.Keys + s.files.Keys - done - {m}) && t.files.Keys <= b.files.Keys
    ensures Untouched(s, t, t.files.Keys + s.files.Keys - (done + {m}))
  {
    hide JournalNamed;
  }

  lemma {:induction false} RolledBackFits(b: State, t: State, m: Path)
    requires Inv(b) && RolledBack(b, t, m) && SizesFit(b.files)
    ensures SizesFit(t.files)
  {
    hide JournalNamed, Record.Bytes, Record.Path, Fits, Inv;
    RollbackLength(Current(b, m), b.live[m].Regs(), |b.live[m].orig|);
  }

  lemma {:induction false} LookedMoreAt(s: State, b: State, t: State, done: set<Path>, m: Path, p: Path)
    requires Inv(s) && Inv(b) && Looked(s, b, done) && Kept(s, b) && Kept(s, t)
    requires m !in done && Touched(b, t, m) && RolledBack(b, t, m) && !Spoiled(s, p)
    ensures Pending(t, p) <==> Unseen(s, done + {m}, p)
    ensures Pending(t, p) ==> p in s.files && p in t.files && t.files[p] == s.files[p]
  {
    hide JournalNamed, Contents, Record.Good, Record.Bytes, Record.Path, Rollback, JournalHolds, Looked, RolledBack;
    hide Touched, Inv, Kept, Spoiled;
    if Pending(t, p) {
      var jp :| jp in t.live && jp !in t.marks.stale && t.live[jp].target == p;
      GuardStays(s, b, t, done, m, p, jp);
      assert Unseen(s, done + {m}, p);
    }
    if Unseen(s, done + {m}, p) {
      var jp :| jp in s.live && jp !in s.marks.stale && s.live[jp].target == p && jp !in done + {m};
      GuardIsKept(s, b, t, done, m, p, jp);
      assert Pending(t, p);
    }
  }

  lemma {:induction false} NotSpoiling(s: State, p: Path, jp: Path)
    requires !Spoiled(s, p) && jp in s.live && s.live[jp].target == p
    ensures jp !in s.marks.stale
  {
  }

  lemma {:induction false} GuardStays(s: State, b: State, t: State, done: set<Path>, m: Path, p: Path, jp: Path)
    requires Inv(s) && Inv(b) && Looked(s, b, done) && Kept(s, b) && Kept(s, t)
    requires m !in done && Touched(b, t, m) && RolledBack(b, t, m) && !Spoiled(s, p)
    requires jp in t.live && jp !in t.marks.stale && t.live[jp].target == p
    ensures jp in s.live && jp !in s.marks.stale && s.live[jp].target == p && jp !in done + {m}
    ensures p in s.files && p in t.files && t.files[p] == s.files[p]
  {
    hide JournalNamed, Contents, Record.Good, Record.Bytes, Record.Path, Rollback, JournalHolds, Spoiled, SizesFit;
    hide OneJournalPerTarget, Untouched, Unseen;
    GuardWas(s, b, t, done, m, p, jp);
    assert Pending(b, p);
    if b.live[m].target == p {
      NotSpoiling(b, p, m);
      SameGuard(b, m, jp);
    }
    LiveTargetIsNoJournal(b, jp);
  }

  lemma {:induction false} SameGuard(s: State, p: Path, q: Path)
    requires Inv(s) && p in s.live && q in s.live && p !in s.marks.stale && q !in s.marks.stale
    requires s.live[p].target == s.live[q].target
    ensures p == q
  {
    hide JournalsAreLive, JournalHolds;
  }

  lemma {:induction false} GuardWas(s: State, b: State, t: State, done: set<Path>, m: Path, p: Path, jp: Path)
    requires Inv(s) && Inv(b) && Looked(s, b, done) && Kept(s, b) && Kept(s, t)
    requires m !in done && Touched(b, t, m) && RolledBack(b, t, m) && !Spoiled(s, p)
    requires jp in t.live && jp !in t.marks.stale && t.live[jp].target == p
    ensures jp in b.live && jp !in b.marks.stale && b.live[jp].target == p && jp != m
    ensures jp in s.live && jp !in s.marks.stale && s.live[jp].target == p && jp !in done + {m}
  {
    hide JournalNamed, Contents, Record.Good, Record.Bytes, Record.Path, Rollback, JournalHolds, Spoiled, SizesFit;
    hide OneJournalPerTarget, Pending, Unseen;
    assert jp in b.live && jp != m;
    NotSpoiling(b, p, jp);
    assert jp in b.files && JournalNamed(jp) && jp !in done;
    NotSpoiling(s, p, jp);
  }

  lemma {:induction false} GuardIsKept(s: State, b: State, t: State, done: set<Path>, m: Path, p: Path, jp: Path)
    requires Inv(s) && Inv(b) && Looked(s, b, done) && Kept(s, b) && Kept(s, t)
    requires m !in done && Touched(b, t, m) && RolledBack(b, t, m) && !Spoiled(s, p)
    requires jp in s.live && jp !in s.marks.stale && s.live[jp].target == p && jp !in done + {m}
    ensures jp in t.live && jp !in t.marks.stale && t.live[jp].target == p
  {
    hide JournalNamed, Contents, Record.Good, Record.Bytes, Record.Path, Rollback, JournalHolds, Spoiled, SizesFit;
    hide Pending, Unseen;
    assert jp in s.files && JournalNamed(jp);
    assert jp in b.live && b.live[jp] == s.live[jp];
    NotSpoiling(t, p, jp);
  }

  lemma {:induction false} NoneLeft(s: State, t: State, seen: set<Path>, target: Path)
    requires Looked(s, t, seen) && seen == set p | p in s.files && Tagged(target, p)
    ensures forall p :: p in t.files ==> !Tagged(target, p)
  {
    hide JournalNamed, Tagged, Spoiled, Pending, Unseen, SizesFit;
    forall p | p in t.files && Tagged(target, p) ensures false {
      TaggedAreJournals(target, p);
    }
  }

  /** Nothing is left unseen by a lookup that can read the directory and takes the name as it is. */
  lemma {:induction false} NoneSeen(s: State, file: Path)
    requires Inv(s)
    ensures !Unseen(s, (set p | p in s.files && Tagged(file, p)), file)
  {
    hide JournalNamed, Record.Bytes, Record.Regs, Fits, Guards, Tagged;
    forall jp | jp in s.live && s.live[jp].target == file ensures jp in s.files && Tagged(file, jp) {
      assert JournalHolds(s, jp);
      OwnJournalsAreTagged(s.live[jp].target, s.live[jp].tag);
    }
  }

  lemma {:induction false} TaggedAreAll(s: State, file: Path)
    ensures forall p :: p in (set q | q in s.files && Tagged(file, q)) ==> p in s.files && JournalNamed(p)
  {
    hide JournalNamed, Tagged;
    forall p | p in s.files && Tagged(file, p) ensures JournalNamed(p) {
      TaggedAreJournals(file, p);
    }
  }

  /** What a commit may rely on once its lookup is done. */
  lemma {:induction false} AfterLookup(
    s: State, t: State, seen: set<Path>, listed: bool, file: Path, tag: Bytes, done: bool)
    requires Inv(s) && Inv(t) && Kept(s, t) && !JournalNamed(file) && SLASH !in tag && SizesFit(s.files)
    requires listed && NoMeta(file) ==> seen == set p | p in s.files && Tagged(file, p)
    requires done ==> Looked(s, t, seen)
    ensures (listed && NoMeta(file)) || !Pending(s, file) ==> !Unseen(s, seen, file)
    ensures file in t.files <==> file in s.files
    ensures done && file in t.files ==> |t.files[file]| <= MAX_INT64
    ensures done && !Spoiled(s, file) ==> !Spoiled(t, file) && (Pending(t, file) <==> Unseen(s, seen, file))
    ensures done && !Spoiled(s, file) && file in s.files ==>
      t.files[file] == Found(s, seen, file) && (!Unseen(s, seen, file) ==> file in Contents(s))
    ensures done && file in s.files && !Spoiled(s, file) && !Unseen(s, seen, file) ==>
      file in Contents(t) && Contents(t)[file] == t.files[file]
    ensures done && listed && NoMeta(file) ==> JournalPath(file, tag) !in t.files
    ensures done && JournalPath(file, tag) !in s.files ==> JournalPath(file, tag) !in t.files
  {
    hide JournalNamed, Contents, Inv, Tagged, NoMeta, JournalPath, Spoiled;
    if listed && NoMeta(file) {
      NoneSeen(s, file);
    }
    OwnJournalsAreTagged(file, tag);
    if done && !Spoiled(s, file) && file in t.files && !Pending(t, file) {
      FreeContents(t, file);
    }
  }

  // ----- a commit's effect

  /** A commit of a file that a journal still guards ignores that journal; only other files keep their content. */
  ghost predicate CommittedOver(s: State, t: State, req: Request, committed: bool) {
    && (committed ==> Fits(req.Edit(), req.patch) && req.file in s.files)
    && (if Pending(s, req.file) then Contents(t) - {req.file} == Contents(s) - {req.file}
        else if committed && !Spoiled(s, req.file) then
          Contents(t) == Contents(s)[req.file := req.Result(s.files[req.file])]
        else Contents(t) == Contents(s))
  }

  /** What a commit makes of its own file: what was asked for if it came to the commit point, else nothing. */
  ghost predicate Shows(s: State, t: State, req: Request, committed: bool) {
    if committed then
      && Fits(req.Edit(), req.patch) && req.file in Contents(s) && req.file in Contents(t)
      && Contents(t)[req.file] == req.Result(Contents(s)[req.file])
    else SameContent(s, t, req.file)
  }

  lemma {:induction false} NotCommitted(s: State, req: Request)
    ensures CommittedOver(s, s, req, false)
  {
  }

  /** What a commit does after ignoring what guarded its file. */
  lemma {:induction false} CommittedIs(s: State, t: State, req: Request)
    requires Fits(req.Edit(), req.patch) && req.file in s.files
    requires !Pending(s, req.file) ==> t == s
    requires Pending(s, req.file) ==> Contents(t) == Contents(s) - {req.file} && Spoiled(t, req.file)
    ensures forall u, committed ::
      Contents(u) == (if committed && !Spoiled(t, req.file)
                      then Contents(t)[req.file := req.Result(s.files[req.file])] else Contents(t))
      ==> CommittedOver(s, u, req, committed)
  {
    hide Contents, Request.Result, Fits, Pending, Spoiled;
    assert (Contents(s) - {req.file}) - {req.file} == Contents(s) - {req.file};
  }

  /** The lookup's effect and the commit's, together. */
  lemma {:induction false} Committed(s: State, t: State, u: State, seen: set<Path>, req: Request, committed: bool)
    requires KeptBut(s, t, req.file) && CommittedOver(t, u, req, committed)
    requires forall p :: Spoiled(t, p) ==> Spoiled(s, p)
    requires !Spoiled(s, req.file) ==>
      SameContent(s, t, req.file) && (Pending(t, req.file) <==> Unseen(s, seen, req.file))
    requires !Spoiled(s, req.file) && !Unseen(s, seen, req.file) ==>
      req.file in t.files ==> req.file in Contents(t) && Contents(t)[req.file] == t.files[req.file]
    ensures KeptBut(s, u, req.file)
    ensures !Spoiled(s, req.file) && !Unseen(s, seen, req.file) ==> Shows(s, u, req, committed)
  {
    hide Contents, Request.Result, Fits, Pending, Spoiled, Unseen;
    forall p | p != req.file
      ensures p in Contents(u) <==> p in Contents(t)
      ensures p in Contents(u) ==> Contents(u)[p] == Contents(t)[p]
    {
      assert p in Contents(u) - {req.file} <==> p in Contents(t) - {req.file};
      if p in Contents(u) { assert (Contents(u) - {req.file})[p] == Contents(u)[p]; }
      if p in Contents(t) { assert (Contents(t) - {req.file})[p] == Contents(t)[p]; }
    }
  }

  lemma {:induction false} FreshIsNotStale(s: State, jp: Path)
    requires Inv(s)
    ensures jp !in s.files ==> jp !in s.marks.stale
  {
    hide JournalNamed, JournalHolds;
  }

  lemma {:induction false} SpoiledAsBefore(s: State, t: State, jp: Path, r: Record, p: Path)
    requires t.live == s.live[jp := r] && t.marks.stale == s.marks.stale && jp !in s.marks.stale
    ensures Spoiled(t, p) <==> Spoiled(s, p)
  {
    if Spoiled(s, p) {
      var q :| q in s.live && q in s.marks.stale && s.live[q].target == p;
      assert q in t.live && t.live[q] == s.live[q];
    }
  }

  lemma {:induction false} JournaledIs(file: Path, tag: Bytes)
    requires SLASH !in tag
    ensures JournalNamed(JournalPath(file, tag))
  {
    OwnJournalsAreTagged(file, tag);
  }

  // ----- the steps behind the system calls

  lemma {:induction false} OverlookTaken(s: State, p: Path) returns (jp: Path)
    requires Inv(s) && Pending(s, p)
    ensures Enabled(s, Overlook(jp)) && Effect(s, Overlook(jp)) == s.(marks := s.marks.(stale := s.marks.stale + {jp}))
    ensures AtomicEffect(s, Overlook(jp)) == Contents(s) - {p} && jp in s.live && s.live[jp].target == p
    ensures var t := Effect(s, Overlook(jp));
      && !Pending(t, p)
      && (forall q :: Spoiled(t, q) <==> Spoiled(s, q) || q == p)
      && (forall q :: q != p ==> (Pending(t, q) <==> Pending(s, q)))
  {
    hide Contents, JournalNamed, JournalHolds, JournalsAreLive;
    jp :| jp in s.live && jp !in s.marks.stale && s.live[jp].target == p;
    var t := Effect(s, Overlook(jp));
    forall q ensures Spoiled(t, q) <==> Spoiled(s, q) || q == p {
      assert jp in t.live && jp in t.marks.stale;
    }
    forall q | q != p ensures Pending(t, q) <==> Pending(s, q) {}
  }

  lemma {:induction false} CreateTaken(s: State, r: Record)
    requires Inv(s) && r.Good() && r.Path() !in s.files && r.target in s.files && s.files[r.target] == r.orig
    requires !Pending(s, r.target)
    ensures var a, jp := CreateJournal(r), r.Path();
      && Enabled(s, a)
      && Effect(s, a) == State(s.files[jp := []], s.live[jp := r],
                               Marks(s.marks.stale, s.marks.synced - {jp}, s.marks.settled + {jp}))
      && AtomicEffect(s, a) == Contents(s)
  {
    hide Contents, Pending, Inv;
  }

  lemma {:induction false} AppendTaken(s: State, jp: Path, chunk: Bytes, n: nat, rest: Bytes)
    requires jp in s.live && jp in s.files && s.files[jp] + (chunk + rest) == s.live[jp].Bytes() && n <= |chunk|
    ensures var a := AppendJournal(jp, chunk[..n]);
      Enabled(s, a) && Effect(s, a) == s.(files := s.files[jp := s.files[jp] + chunk[..n]])
      && AtomicEffect(s, a) == Contents(s)
  {
    hide Record.Bytes, Contents;
    assert s.files[jp] + (chunk + rest) == s.files[jp] + chunk[..n] + (chunk[n..] + rest);
  }

  lemma {:induction false} SyncJournalTaken(s: State, jp: Path)
    requires Whole(s, jp) && jp !in s.marks.stale
    ensures var a := SyncJournal(jp);
      Enabled(s, a) && Effect(s, a) == s.(marks := s.marks.(synced := s.marks.synced + {jp}))
      && AtomicEffect(s, a) == Contents(s) && Armed(Effect(s, a), jp)
  {
    hide Record.Bytes, Record.Good, Contents;
  }

  lemma {:induction false} SyncTargetTaken(s: State, jp: Path)
    requires Has(s, jp)
    ensures var a := SyncTarget(jp);
      && Enabled(s, a) && Effect(s, a) == s.(marks := s.marks.(settled := s.marks.settled + {jp}))
      && AtomicEffect(s, a) == Contents(s)
      && (Whole(s, jp) ==> Whole(Effect(s, a), jp)) && (Alone(s, jp) ==> Alone(Effect(s, a), jp))
  {
    hide Record.Good, Record.Bytes, Contents;
  }

  lemma {:induction false} LoseJournalTaken(s: State, jp: Path, n: nat)
    requires jp in s.live && jp in s.files && jp !in s.marks.synced && n <= |s.files[jp]|
    ensures var a := LoseJournal(jp, n);
      Enabled(s, a) && Effect(s, a) == s.(files := s.files[jp := s.files[jp][..n]]) && AtomicEffect(s, a) == Contents(s)
  {
    hide Contents;
  }

  lemma {:induction false} LoseTargetTaken(s: State, jp: Path, content: Bytes)
    requires Armed(s, jp) && jp !in s.marks.settled && Damaged(s.live[jp].orig, content, s.live[jp].Regs())
    ensures var a := LoseTarget(jp, content);
      Enabled(s, a) && Effect(s, a) == SetTarget(s, jp, content) && AtomicEffect(s, a) == Contents(s)
  {
    hide Contents, Damaged, Record.Bytes, Record.Regs, Record.Good;
  }

  lemma {:induction false} JournalIsNotTarget(s: State, jp: Path)
    requires Inv(s) && Has(s, jp)
    ensures s.live[jp].target != jp
  {
    hide JournalHolds, JournalNamed, Record.Good;
    TargetIsNoJournal(s, jp);
  }

  lemma {:induction false} HasKept(s: State, jp: Path, content: Bytes)
    requires Inv(s) && Has(s, jp)
    ensures var t := SetTarget(s, jp, content);
      && Has(t, jp) && t.files[jp] == s.files[jp]
      && (Whole(s, jp) ==> Whole(t, jp)) && (Armed(s, jp) ==> Armed(t, jp)) && (Alone(s, jp) ==> Alone(t, jp))
  {
    hide Record.Bytes, Record.Good, Inv;
    JournalIsNotTarget(s, jp);
  }

  lemma {:induction false} WriteBlockTaken(s: State, jp: Path, j: nat, m: nat)
    requires Armed(s, jp) && j < |s.live[jp].edit.offs| && m <= s.live[jp].edit.Len(j)
    ensures var a, w := WriteBlock(jp, j, m), PatchBlock(s.live[jp].edit, s.live[jp].patch, j);
      Enabled(s, a) && Effect(s, a) == SetTarget(s, jp, WriteAt(Current(s, jp), w.data[..m], w.off))
      && AtomicEffect(s, a) == Contents(s)
  {
    hide Record.Bytes, Record.Good, Contents, WriteAt, PatchBlock;
  }

  lemma {:induction false} CutTaken(s: State, jp: Path)
    requires Armed(s, jp)
    ensures var a := CutToFinal(jp);
      Enabled(s, a) && Effect(s, a) == SetTarget(s, jp, Truncate(Current(s, jp), s.live[jp].edit.finalSize))
      && AtomicEffect(s, a) == Contents(s)
  {
    hide Record.Bytes, Record.Good, Contents, Truncate;
  }

  lemma {:induction false} RestoreRegionTaken(s: State, jp: Path, i: nat, m: nat)
    requires Alone(s, jp) && i < |Readable(s.files[jp])| && m <= |Readable(s.files[jp])[i].data|
    ensures var a, r := RestoreRegion(jp, i, m), Readable(s.files[jp])[i];
      Enabled(s, a) && Effect(s, a) == SetTarget(s, jp, WriteAt(Current(s, jp), r.data[..m], r.off))
      && AtomicEffect(s, a) == Contents(s)
  {
    hide Record.Bytes, Record.Good, Contents, WriteAt, Readable, Pending;
  }

  lemma {:induction false} RestoreSizeTaken(s: State, jp: Path)
    requires Whole(s, jp) && Alone(s, jp)
    ensures var a := RestoreSize(jp);
      Enabled(s, a) && Effect(s, a) == SetTarget(s, jp, Truncate(Current(s, jp), |s.live[jp].orig|))
      && AtomicEffect(s, a) == Contents(s)
  {
    hide Record.Bytes, Record.Good, Contents, Truncate, Pending;
  }

  lemma {:induction false} RemoveTaken(s: State, jp: Path)
    requires Inv(s) && Whole(s, jp) && Alone(s, jp) && jp in s.marks.settled
    requires jp in s.marks.stale || Current(s, jp) == s.live[jp].orig || Current(s, jp) == s.live[jp].Next()
    ensures var a := RemoveJournal(jp);
      && Enabled(s, a) && Effect(s, a) == Removed(s, jp)
      && AtomicEffect(s, a) == if Spoiled(Removed(s, jp), s.live[jp].target) then Contents(s)
                               else Contents(s)[s.live[jp].target := Current(s, jp)]
  {
    hide Record.Bytes, Record.Good, Record.Next, Contents, Inv, Pending, Spoiled;
    RemovedNames(s, jp);
    if jp !in s.marks.stale && !Spoiled(s, s.live[jp].target) {
      PendingContent(s, jp);
      assert Contents(s)[s.live[jp].target := s.live[jp].orig] == Contents(s);
    }
  }

  lemma {:induction false} ReadRegionsIs(b: Bytes, count: int)
    ensures ReadRegions(b, count) == ReadMany(ReadRegion, b, count)
  {
  }

  lemma {:induction false} ReadManyNext(b: Bytes, count: int)
    ensures var all, next := ReadMany(ReadRegion, b, count), ReadRegion(b);
      if count <= 0 then all.done && all.regs == []
      else if next.Short? then !all.done && all.regs == []
      else
        var more := ReadMany(ReadRegion, next.rest, count - 1);
        all.regs == [next.value] + more.regs && all.done == more.done
  {
    hide ReadRegion;
  }

  lemma {:induction false} ReplayOneMore(f: Bytes, regs: seq<Region>, k: nat)
    requires k < |regs|
    ensures Replay(f, regs[..k + 1]) == WriteAt(Replay(f, regs[..k]), regs[k].data, regs[k].off)
    ensures regs[k..][0] == regs[k] && regs[k..][1..] == regs[k + 1..]
  {
    hide Replay, WriteAt;
    assert regs[..k + 1] == regs[..k] + [regs[k]];
    ReplayAppend(f, regs[..k], regs[k]);
  }

  lemma {:induction false} ReplayNone(f: Bytes)
    ensures Replay(f, []) == f
  {
  }

  lemma {:induction false} LiveIs(s: State, jp: Path)
    requires Inv(s) && jp in s.files && JournalNamed(jp)
    ensures jp in s.live
  {
    hide JournalNamed, JournalHolds;
  }

  /** What the reader finds in a live journal: the right header, a leading part of the saved regions, and
      an end exactly if the journal is whole. */
  lemma {:induction false} ReadableIsBody(s: State, jp: Path)
    requires Inv(s) && jp in s.live && jp in s.files
    ensures var header, r := ReadHeader(s.files[jp]), s.live[jp];
      && (header.Short? ==> !Whole(s, jp))
      && (header.Got? ==>
            && header.value == Header(r.target, |r.orig|, r.edit.finalSize, |r.Regs()|)
            && Readable(s.files[jp]) == ReadRegions(header.rest, header.value.count).regs
            && (r.target in s.files ==>
              Has(s, jp) && (Whole(s, jp) <==> ReadRegions(header.rest, header.value.count).done)))
    ensures Readable(s.files[jp]) <= s.live[jp].Regs()
  {
    hide ReadHeader, ReadRegions, Record.Regs, Fits, Damaged, JournalNamed, Serialize, Guards;
    var r := s.live[jp];
    assert JournalHolds(s, jp);
    ReadableIsSaved(r, s.files[jp]);
    GoodIsEncodable(r);
    if ReadHeader(s.files[jp]).Got? {
      TornHeaderIsRight(Journal(r.target, |r.orig|, r.edit.finalSize, r.Regs()), s.files[jp]);
    }
  }

  /** The sweep reports the target the rollback restores. */
  lemma {:induction false} SweptTarget(s: State, p: Path)
    requires Inv(s) && p in s.files && JournalNamed(p)
    ensures Whole(s, p) ==> TargetOf(s.files[p]) == s.live[p].target
  {
    hide JournalNamed, Record.Bytes, Record.Good, Inv, ReadHeader, ReadRegions, TargetOf;
    LiveIs(s, p);
    ReadableIsBody(s, p);
    if ReadHeader(s.files[p]).Got? {
      TargetOfHeader(s.files[p]);
    }
  }

  lemma {:induction false} TargetOfHeader(b: Bytes)
    requires ReadHeader(b).Got?
    ensures TargetOf(b) == ReadHeader(b).value.target
  {
  }

  lemma {:induction false} NothingSwept(s: State, root: Path, all: set<Path>, calm: bool)
    ensures SweptSoFar(s, s, root, all - all, [], [], calm) && SweptSoFar(s, s, root, {}, [], [], calm)
  {
    hide JournalNamed, Contents, Pending, Spoiled, Swept, Whole;
  }

  /** A journal not visited yet is as it was. */
  lemma {:induction false} NotYetSwept(
    s: State, t: State, root: Path, visited: set<Path>, swept: seq<Path>, results: seq<Recovered>, calm: bool, p: Path)
    requires Inv(s) && SweptSoFar(s, t, root, visited, swept, results, calm) && p !in visited
    requires p in s.files && SweepSees(Base(p))
    ensures Kept(s, t) && JournalNamed(p) && SameBytes(s, t, p) && p in t.files
  {
    hide JournalNamed, SweepSees, Swept, Kept, Reports, Whole, Inv;
    SweptIsJournal(p);
    NotATarget(s, Members(swept), p);
  }

  lemma {:induction false} NotATarget(s: State, done: set<Path>, p: Path)
    requires Inv(s) && JournalNamed(p)
    ensures !Named(s, done, p)
  {
    hide JournalNamed, Inv;
    forall jp | jp in s.live ensures s.live[jp].target != p {
      LiveTargetIsNoJournal(s, jp);
    }
  }

  lemma {:induction false} WholeAsBefore(s: State, t: State, p: Path)
    requires Inv(s) && Inv(t) && Kept(s, t) && SameBytes(s, t, p) && p in s.files && JournalNamed(p)
    ensures p in s.live && p in t.live && t.live[p] == s.live[p] && (Whole(t, p) <==> Whole(s, p))
  {
    hide JournalNamed, Record.Bytes, Record.Good, Contents, Spoiled, Pending, JournalHolds;
    LiveTargetIsNoJournal(s, p);
  }

  /** A rollback leaves the other journals alone. */
  lemma {:induction false} OthersStay(s: State, t: State, jp: Path)
    requires Inv(s) && Touched(s, t, jp)
    ensures forall q :: JournalNamed(q) && q != jp ==> SameBytes(s, t, q)
  {
    hide JournalNamed, Inv, Whole;
    LiveTargetIsNoJournal(s, jp);
  }

  lemma {:induction false} FramedMore(s: State, b: State, t: State, done: set<Path>, p: Path)
    requires Inv(s) && Inv(b) && Kept(s, b) && Framed(s, b, done) && Touched(b, t, p)
    requires p !in done && SameBytes(s, b, p)
    ensures Framed(s, t, done + {p})
  {
    hide JournalNamed, Inv, Whole, Kept;
    WholeAsBefore(s, b, p);
    OthersStay(b, t, p);
    forall q | q !in done + {p} && !Named(s, done + {p}, q) ensures SameBytes(s, t, q) {
      assert p in done + {p} && s.live[p].target != q;
      assert !Named(s, done, q);
    }
  }

  /** The sweep stopped in the middle of a rollback. */
  lemma {:induction false} SweptHalfway(
    s: State, before: State, now: State, root: Path, visited: set<Path>, swept: seq<Path>, results: seq<Recovered>,
    calm: bool, p: Path)
    requires Inv(s) && Inv(before) && Inv(now) && SweptSoFar(s, before, root, visited, swept, results, calm)
    requires p !in visited && p in s.files && SweepSees(Base(p)) && Under(root, p)
    requires SameBytes(s, before, p) && Touched(before, now, p) && Kept(s, now)
    ensures Sweeps(s, now, root, swept, results, false)
  {
    hide JournalNamed, Whole, SweepSees, Under, TargetOf, Kept, Framed, SameBytes, Touched, Inv, Restored;
    FramedMore(s, before, now, Members(swept), p);
    SweptReported(s, before, now, root, visited, swept, results, calm, p);
    FramedWider(s, now, root, Members(swept) + {p});
  }

  /** Reports are not changed by what comes later, but for what can be said of a sweep that is no longer calm. */
  lemma {:induction false} SweptReported(
    s: State, before: State, now: State, root: Path, visited: set<Path>, swept: seq<Path>, results: seq<Recovered>,
    calm: bool, p: Path)
    requires Inv(before) && SweptSoFar(s, before, root, visited, swept, results, calm)
    requires p !in visited && Touched(before, now, p)
    ensures forall i :: 0 <= i < |swept| ==> Swept(s, root, swept[i]) && swept[i] != p
    ensures forall i, still :: 0 <= i < |swept| && (still ==> calm) ==> Reports(s, now, swept[i], results[i], still)
  {
    hide JournalNamed, Whole, SweepSees, Under, TargetOf, Kept, Framed, Touched, Inv;
    OthersStay(before, now, p);
    forall i | 0 <= i < |swept|
      ensures Swept(s, root, swept[i]) && swept[i] != p && (swept[i] in before.files <==> swept[i] in now.files)
    {
      assert swept[i] in swept;
      SweptIsJournal(swept[i]);
    }
  }

  lemma {:induction false} FramedWider(s: State, t: State, root: Path, done: set<Path>)
    requires Inv(s) && Inv(t) && Kept(s, t) && Framed(s, t, done) && forall p :: p in done ==> Swept(s, root, p)
    ensures Framed(s, t, SweptOf(s, root)) && forall jp :: Swept(s, root, jp) ==> Restored(s, t, jp)
  {
    hide JournalNamed, Whole, SweepSees, Under, Kept, Inv, Restored;
    var all := SweptOf(s, root);
    forall p | Named(s, done, p) ensures Named(s, all, p) {
      var jp :| jp in done && jp in s.live && s.live[jp].target == p;
      assert jp in all;
    }
    forall jp | Swept(s, root, jp)
      ensures if jp in t.files then t.files[jp] == s.files[jp] else Whole(s, jp)
      ensures Restored(s, t, jp)
    {
      SweptIsJournal(jp);
      if jp !in done { NotATarget(s, done, jp); }
      RestoredOne(s, t, jp);
    }
  }

  lemma {:induction false} RestoredOne(s: State, t: State, jp: Path)
    requires Inv(s) && Inv(t) && Kept(s, t) && jp in s.files && JournalNamed(jp)
    requires if jp in t.files then t.files[jp] == s.files[jp] else Whole(s, jp)
    ensures Restored(s, t, jp)
  {
    hide JournalNamed, Contents, Spoiled, Pending, Inv, Record.Bytes, Record.Good, Damaged;
    LiveIs(s, jp);
    var file := s.live[jp].target;
    if !Spoiled(s, file) {
      PendingContent(s, jp);
      if jp !in t.files {
        Unguarded(s, t, jp);
        FreeContents(t, file);
      } else if !Whole(s, jp) {
        NotSpoiling(s, file, jp);
        GuardedIsDamaged(s, jp);
        LiveIs(t, jp);
        NotSpoiling(t, file, jp);
        GuardedIsDamaged(t, jp);
        LiveTargetIsNoJournal(s, jp);
      }
    }
  }

  /** With its journal gone, nothing guards the file. */
  lemma {:induction false} Unguarded(s: State, t: State, jp: Path)
    requires Inv(s) && Inv(t) && Kept(s, t) && jp in s.live && jp !in t.files && !Spoiled(s, s.live[jp].target)
    requires s.live[jp].target in s.files && s.live[jp].target in Contents(s)
    ensures Free(t, s.live[jp].target) && !Spoiled(t, s.live[jp].target) && s.live[jp].target in t.files
  {
    hide JournalNamed, Contents, Spoiled, Inv;
    var file := s.live[jp].target;
    NotSpoiling(s, file, jp);
    LiveTargetIsNoJournal(s, jp);
    if Pending(t, file) {
      var q :| q in t.live && q !in t.marks.stale && t.live[q].target == file;
      SameGuard(s, q, jp);
      LiveIsThere(t, q);
    }
  }

  lemma {:induction false} LiveIsThere(s: State, jp: Path)
    requires Inv(s) && jp in s.live
    ensures jp in s.files
  {
    hide JournalNamed, JournalHolds;
  }

  /** A sweep in which no call fails leaves every file under its root with the bytes it stands for, whatever state
      it was in, if its name does not hide its journals from the sweep. */
  lemma {:induction false} SweepRestores(
    s: State, t: State, root: Path, swept: seq<Path>, results: seq<Recovered>, file: Path)
    requires Inv(s) && Inv(t) && Sweeps(s, t, root, swept, results, true)
    requires forall p :: Swept(s, root, p) ==> p in swept
    requires file in Contents(s) && Contains(root, file) && !(STEM <= Base(file))
    ensures file in t.files && t.files[file] == Contents(s)[file]
  {
    hide Contents, JournalNamed, Spoiled, Inv, Whole, Swept, Framed, Restored, Reports;
    KeptContent(s, t, file);
    if Pending(t, file) {
      var jp :| jp in t.live && jp !in t.marks.stale && t.live[jp].target == file;
      GuardIsSwept(s, root, file, jp);
      SweptWas(s, t, root, swept, results, jp);
      PendingContent(s, jp);
      LiveIsThere(t, jp);
      RestoredTorn(s, t, jp);
    } else {
      FreeContents(t, file);
    }
  }

  lemma {:induction false} KeptContent(s: State, t: State, file: Path)
    requires Kept(s, t) && file in Contents(s)
    ensures file in Contents(t) && Contents(t)[file] == Contents(s)[file] && file in t.files
    ensures !JournalNamed(file) && !Spoiled(t, file) && !Spoiled(s, file)
  {
    hide Content, JournalNamed, Spoiled, Pending;
  }

  lemma {:induction false} GuardIsSwept(s: State, root: Path, file: Path, jp: Path)
    requires Inv(s) && jp in s.live && s.live[jp].target == file && Contains(root, file) && !(STEM <= Base(file))
    ensures Swept(s, root, jp)
  {
    hide JournalNamed, Record.Bytes, Record.Regs, Fits, Guards, SweepSees, Contains, Base, Dir;
    assert JournalHolds(s, jp);
    var tag := s.live[jp].tag;
    OwnJournalsAreTagged(file, tag);
    SweepMissesExactly(Base(file), tag);
    ContainsSiblings(root, file, JournalName(Base(file), tag));
  }

  lemma {:induction false} SweptWas(
    s: State, t: State, root: Path, swept: seq<Path>, results: seq<Recovered>, jp: Path)
    requires Sweeps(s, t, root, swept, results, true) && jp in swept
    ensures Restored(s, t, jp) && jp in s.files && (jp in t.files <==> !Whole(s, jp))
  {
    hide Restored, Kept, Framed, Whole, Under, SweepSees;
    var i :| 0 <= i < |swept| && swept[i] == jp;
    assert Reports(s, t, swept[i], results[i], true);
  }

  lemma {:induction false} RestoredTorn(s: State, t: State, jp: Path)
    requires Restored(s, t, jp) && jp in s.live && !Spoiled(s, s.live[jp].target) && !Whole(s, jp)
    ensures s.live[jp].target in t.files && t.files[s.live[jp].target] == s.live[jp].orig
  {
    hide Spoiled, Whole;
  }

  /** End to end: a commit that stopped anywhere, whatever its outcome, then a power loss, then a sweep in which no
      call fails. The file holds what it held, or what was asked for if the commit had come to its end. */
  lemma {:induction false} StoppedCommitIsRecovered(
    s: State, t: State, req: Request, committed: bool, loss: seq<State>,
    u: State, root: Path, swept: seq<Path>, results: seq<Recovered>)
    requires Inv(t) && req.file in Contents(s) && Shows(s, t, req, committed)
    requires IsLoss(loss) && loss[0] == t
    requires Inv(u) && Sweeps(loss[|loss| - 1], u, root, swept, results, true)
    requires forall p :: Swept(loss[|loss| - 1], root, p) ==> p in swept
    requires Contains(root, req.file) && !(STEM <= Base(req.file))
    ensures req.file in u.files
    ensures u.files[req.file] == if committed then req.Result(Contents(s)[req.file]) else Contents(s)[req.file]
  {
    hide Contents, Inv, Sweeps, Swept, Contains, Request.Result, Fits, LossStep;
    LossIsInvisible(loss, |loss| - 1);
    SweepRestores(loss[|loss| - 1], u, root, swept, results, req.file);
  }

  lemma {:induction false} SweptOneMore(
    s: State, before: State, now: State, root: Path, all: set<Path>, rest: set<Path>,
    swept: seq<Path>, results: seq<Recovered>, wasCalm: bool, p: Path, result: Recovered, calm: bool)
    requires Inv(s) && Inv(before) && SweptSoFar(s, before, root, all - rest, swept, results, wasCalm)
    requires rest <= all && p in rest && p in s.files && SweepSees(Base(p)) && Under(root, p)
    requires SameBytes(s, before, p) && Touched(before, now, p) && Kept(s, now)
    requires Reports(s, now, p, result, calm)
    ensures SweptSoFar(s, now, root, all - (rest - {p}), swept + [p], results + [result], calm && wasCalm)
  {
    hide JournalNamed, Whole, SweepSees, Under, TargetOf, Kept, Framed, SameBytes, Touched, Inv;
    assert all - (rest - {p}) == (all - rest) + {p};
    FramedMore(s, before, now, Members(swept), p);
    assert Members(swept + [p]) == Members(swept) + {p};
    SweptReported(s, before, now, root, all - rest, swept, results, wasCalm, p);
  }

  lemma {:induction false} SweptSkip(
    s: State, t: State, root: Path, all: set<Path>, rest: set<Path>,
    swept: seq<Path>, results: seq<Recovered>, calm: bool, p: Path)
    requires SweptSoFar(s, t, root, all - rest, swept, results, calm)
    requires rest <= all && p in rest && !SweepSees(Base(p))
    ensures SweptSoFar(s, t, root, all - (rest - {p}), swept, results, calm)
  {
    hide Whole, SweepSees, Under, Reports, Framed, Kept;
    assert all - (rest - {p}) == (all - rest) + {p};
  }

  lemma {:induction false} SweptMeans(
    s: State, t: State, root: Path, visited: set<Path>, swept: seq<Path>, results: seq<Recovered>, calm: bool)
    requires Inv(s) && Inv(t) && SweptSoFar(s, t, root, visited, swept, results, calm)
    ensures Sweeps(s, t, root, swept, results, calm)
  {
    hide Swept, Reports, Framed, Restored, Inv, Kept, SweptOf;
    FramedWider(s, t, root, Members(swept));
    forall i | 0 <= i < |swept| ensures Swept(s, root, swept[i]) {
      assert swept[i] in swept;
    }
  }

  lemma {:induction false} SweptAll(
    s: State, t: State, root: Path, all: set<Path>, swept: seq<Path>, results: seq<Recovered>, calm: bool,
    unreadable: set<Path>)
    requires SweptSoFar(s, t, root, all, swept, results, calm)
    requires forall p :: p in s.files && Under(root, p) && p !in all ==> exists d :: d in unreadable && Under(d, p)
    ensures forall p :: Swept(s, root, p) ==> p in swept || exists d :: d in unreadable && Under(d, p)
  {
    hide Whole, SweepSees, Under, Reports, Framed, Kept;
  }

  lemma {:induction false} NextIs(r: Record)
    requires r.Good()
    ensures Fits(r.edit, r.patch)
    ensures r.Next() == Truncate(Replay(r.orig, Writes(r.edit, r.patch, |r.edit.offs|)), r.edit.finalSize)
  {
  }

  lemma {:induction false} ApplyNothing(r: Record)
    requires Fits(r.edit, r.patch)
    ensures PatchLen(r.edit, 0) == 0 && Replay(r.orig, Writes(r.edit, r.patch, 0)) == r.orig
  {
  }

  /** One round of the apply loop: which bytes of the patch go where, and what the file is then. */
  lemma {:induction false} ApplyNext(r: Record, n: nat)
    requires Fits(r.edit, r.patch) && n < |r.edit.offs|
    ensures var e, pos := r.edit, PatchLen(r.edit, n);
      && 0 <= pos <= pos + e.Len(n) <= |r.patch|
      && PatchLen(e, n + 1) == pos + e.Len(n)
      && PatchBlock(e, r.patch, n) == Region(e.offs[n], r.patch[pos..pos + e.Len(n)])
      && Replay(r.orig, Writes(e, r.patch, n + 1))
         == WriteAt(Replay(r.orig, Writes(e, r.patch, n)), r.patch[pos..pos + e.Len(n)], e.offs[n])
  {
    hide Replay, WriteAt;
    PatchHasBlock(r.edit, r.patch, n);
    ReplayAppend(r.orig, Writes(r.edit, r.patch, n), PatchBlock(r.edit, r.patch, n));
  }

  lemma {:induction false} RequestIsGood(req: Request, r: Record, jp: Path)
    requires !JournalNamed(req.file) && req.FitsInt64() && Fits(req.Edit(), req.patch) && SLASH !in r.tag
    requires r == Record(req.file, r.tag, r.orig, req.Edit(), req.patch) && |r.orig| <= MAX_INT64
    requires jp == JournalPath(req.file, r.tag)
    ensures r.Good() && r.Path() == jp && r.Next() == req.Result(r.orig)
    ensures req.block > 0 && req.Edit() == EditOf(req.block, req.finalSize, req.indices)
  {
  }

  lemma {:induction false} NothingCopied(
    before: map<Path, Bytes>, left: map<Path, Bytes>, after: map<Path, Bytes>, dst: Path, gone: bool)
    requires left - {dst} == before - {dst} && dst !in before && after == if gone then left - {dst} else left
    ensures gone || dst !in left ==> after == before
  {
    assert before - {dst} == before;
    assert dst !in left ==> left - {dst} == left;
  }

  lemma {:induction false} EditsBut(m: map<Path, Bytes>, p: Path, v: Bytes)
    ensures m[p := v] - {p} == m - {p}
  {
  }

  lemma {:induction false} CloneMeans(s: State, file: Path, tag: Bytes)
    requires CloneIsFree(s, file, tag)
    ensures !JournalNamed(ClonePath(file, tag)) && Unnamed(s, ClonePath(file, tag)) && ClonePath(file, tag) !in s.files
  {
  }

  /** A file nothing guards stands for its bytes. */
  lemma {:induction false} UnguardedIs(s: State, p: Path)
    requires Inv(s)
    ensures p in Contents(s) && !Pending(s, p) ==> p in s.files && Contents(s)[p] == s.files[p]
  {
    hide JournalNamed, Inv, Content, Pending, Spoiled;
    if p in Contents(s) && !Pending(s, p) {
      FreeContents(s, p);
    }
  }

  lemma {:induction false} IgnoredFree(s: State, t: State, p: Path)
    requires !JournalNamed(p) && !Pending(t, p) && (!Pending(s, p) ==> t == s)
    requires Contents(t) == if Pending(s, p) then Contents(s) - {p} else Contents(s)
    ensures Free(t, p) && Contents(t) - {p} == Contents(s) - {p}
    ensures Unnamed(s, p) ==> t == s && !Spoiled(t, p)
  {
    hide Contents, JournalNamed, Pending, Spoiled;
  }

  lemma {:induction false} UnnamedStill(s: State, t: State, u: State, p: Path)
    requires u.live == t.live && u.marks == t.marks && (!Pending(s, p) ==> t == s)
    requires forall q :: Spoiled(t, q) <==> Spoiled(s, q) || (q == p && Pending(s, p))
    requires forall q :: q != p ==> (Pending(t, q) <==> Pending(s, q))
    ensures forall q :: Unnamed(s, q) ==> Unnamed(u, q)
  {
    hide JournalNamed;
    forall q
      ensures Pending(u, q) <==> Pending(t, q)
      ensures Spoiled(u, q) <==> Spoiled(t, q)
    {
    }
  }

  lemma {:induction false} IgnoredBoth(s: State, t: State, u: State, from: Path, to: Path)
    requires from != to && !JournalNamed(to) && !Pending(t, from) && !Pending(u, to)
    requires !Pending(s, from) ==> t == s
    requires !Pending(t, to) ==> u == t
    requires forall q :: Spoiled(t, q) <==> Spoiled(s, q) || (q == from && Pending(s, from))
    requires forall q :: q != from ==> (Pending(t, q) <==> Pending(s, q))
    requires forall q :: q != to ==> (Pending(u, q) <==> Pending(t, q))
    requires Contents(t) - {from} == Contents(s) - {from} && Contents(u) - {to} == Contents(t) - {to}
    ensures !Pending(u, from) && Contents(u) - {from, to} == Contents(s) - {from, to}
    ensures Unnamed(s, to) ==> !Spoiled(u, to) && Contents(u) - {from} == Contents(s) - {from}
  {
    hide Contents, JournalNamed, Pending, Spoiled;
    WithoutBoth(Contents(t), from, to);
    WithoutBoth(Contents(s), from, to);
    WithoutBoth(Contents(u), from, to);
  }

  lemma {:induction false} WithoutBoth(m: map<Path, Bytes>, p: Path, q: Path)
    ensures (m - {p}) - {q} == m - {p, q} == (m - {q}) - {p}
  {
  }

  lemma {:induction false} WithoutMore(a: map<Path, Bytes>, b: map<Path, Bytes>, p: Path, q: Path)
    ensures a - {q} == b - {q} ==> a - {p, q} == b - {p, q}
  {
    WithoutBoth(a, q, p);
    WithoutBoth(b, q, p);
    assert {p, q} == {q, p};
  }

  lemma {:induction false} PutTaken(s: State, p: Path, content: Bytes)
    requires Free(s, p)
    ensures var a := Action.Put(p, content);
      Enabled(s, a) && Effect(s, a) == s.(files := s.files[p := content])
      && AtomicEffect(s, a) == if Spoiled(s, p) then Contents(s) else Contents(s)[p := content]
  {
    hide Contents, Free, Spoiled;
  }

  lemma {:induction false} DropTaken(s: State, p: Path)
    requires Free(s, p)
    ensures var a := Delete(p);
      Enabled(s, a) && Effect(s, a) == s.(files := s.files - {p}) && AtomicEffect(s, a) == Contents(s) - {p}
  {
    hide Contents, Free;
  }

  lemma {:induction false} MoveTaken(s: State, from: Path, to: Path)
    requires Free(s, from) && Free(s, to) && from in s.files && from != to
    ensures var a := Rename(from, to);
      Enabled(s, a) && Effect(s, a) == s.(files := (s.files - {from})[to := s.files[from]])
      && AtomicEffect(s, a) ==
         if Spoiled(s, to) then Contents(s) - {from} else (Contents(s) - {from})[to := s.files[from]]
  {
    hide Contents, Free, Spoiled;
  }

  lemma {:induction false} RenamedOntoItself(s: State, file: Path)
    requires Inv(s) && file in s.files
    ensures s.files == (s.files - {file})[file := s.files[file]]
    ensures Unnamed(s, file) ==> Contents(s) == (Contents(s) - {file})[file := s.files[file]]
  {
    hide JournalNamed, Inv, Contents, Pending, Spoiled;
    if Unnamed(s, file) {
      FreeContents(s, file);
    }
  }

  lemma {:induction false} RunExtends(run: seq<State>, a: Action)
    requires IsRun(run) && Enabled(run[|run| - 1], a)
    ensures IsRun(run + [Effect(run[|run| - 1], a)])
  {
    hide Enabled, Effect, Init;
    var next := run + [Effect(run[|run| - 1], a)];
    forall i | 0 <= i < |next| - 1 ensures Step(next[i], next[i + 1]) {
      if i < |run| - 1 {
        assert Step(run[i], run[i + 1]);
      } else {
        assert next[i] == run[|run| - 1];
      }
    }
  }
}
