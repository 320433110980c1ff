# Verified model of ussh-fsmonitor

ussh-fsmonitor is the helper that uSSH starts on a remote host. It streams file changes from the host,
and it commits edited files block by block. This project models both halves in Dafny and proves what
they keep.

## What is modelled

**The journalled in-place commit** (`internal/delta/inplace.go`) is the centre. A commit overwrites
the changed blocks of a live file and cuts it to its new size, and first writes an undo journal; a
later commit, or a sweep, rolls the journal back if the commit never finished.

- `Bytes.dfy`, `SavedRegions.dfy`: a file is a byte string, changed by a write that may leave a
  zero-filled gap and by a truncation that may extend. The central notion is `Damaged`: a file may be
  torn in any way at all as long as each old position that no saved region covers still reads as its
  old byte. That is exactly what a rollback can undo (`RollbackRestores`, both ways).
- `JournalFormat.dfy`: the binary journal, its writer's layout and its streaming reader.
- `BlockEdit.dfy`: which bytes a patch holds, what applying it leaves, what must be saved first.
- `CommitProtocol.dfy`: the protocol as a state machine. A step is the effect of one system call, cut
  short after any part of it, or a power loss, which may leave a target that was not synced as anything
  its journal can undo, and cut a journal that was not synced. A *content* is defined from the bytes on
  disk alone: what rolling back a complete journal naming the file would give, or else the file's bytes.
  `RunRefinesAtomic` says of every run that each step is a step of a disk whose commits are atomic. When
  the code goes ahead without a journal that guards a file, that journal is marked overlooked; the file is
  then *spoiled* and has no content until the overlooked journals are gone.
- `Host.dfy`: the code itself, as the methods of a class `Disk` whose fields they update. Every system
  call may succeed, fail, or be the last one before the process dies, the last two after any part of
  its effect. The ghost field `run` records every state the disk went through; each method is proved to
  extend a run of the state machine, so `RunRefinesAtomic` applies to the code, and to any number of
  commits, recoveries and power losses in a row, including those that stop halfway. The ghost fields `failures` and
  `halts` count the system calls that failed or halted, and `stamped` lists the files whose mtime was set. A method
  ends as halted exactly if a call halted. A method call during which no call fails (`Calm`) has its outcome
  determined exactly, whatever earlier failures have left on the disk: a commit's by its checks and the
  journals it finds (`Verdict`), a sweep's by which journals are whole (`Reports`, `Restored`).
  `StoppedCommitIsRecovered` puts it all together: a commit stopped anywhere, a power loss, and a sweep in which
  no call fails leave the bytes the file held before, or those asked for if the journal was already gone.
- `JournalNames.dfy`, `Paths.dfy`: journal names, the per-target glob, the sweep's test, slash paths.

**The upload around it** (`internal/delta/delta.go`, the diff loop of `internal/selftest/selftest.go`):
`BlockDiff.dfy` (diff, then apply, is exact), `CommitModes.dfy` (rename mode and in-place mode make the
same bytes, exactly when the edit reaches the final size), `BlockHash.dfy` (digests of a file others
may be writing to), and the rename mode in `Host.dfy` (`Clone`, `Commit`).

**The watcher** (`internal/watch`): `LinkFollower.dfy` (symlinks out of the tree and the way back to
protocol paths), `Walks.dfy`, `Kqueue.dfy` and `Inotify.dfy` (descriptor tables under a budget, and walks that pass
over nothing but what cannot be opened; the ghost field `denied` lists that), `Listings.dfy` (the listing diff that
turns contentless events into one event per name, with a log per directory of every diff sent and of every name the
consumer is wrong about), `Naming.dfy` (whatever is watched or told of has a protocol name),
`Coalescer.dfy` (bursts, late timers, batches in flight),
`Mounts.dfy` (longest mount point).

## Assumptions

The code relies on these without checking them; the model makes each explicit.

- Block indices are not negative, and index times block size fits an int64 (`Host.Request.FitsInt64`);
  so do file sizes and the number of indices. The code multiplies unchecked (inplace.go:95, 123, 229).
- A journal is appended to the disk in order, so what an interrupted write or a power loss leaves of it is a
  leading part; the journal has no checksum that would tell otherwise. Once it is synced (inplace.go:263) it
  stays, directory entry included, and once removed it does not come back; the code does not sync the
  directory before the first overwrite.
- One name per file and no outside writer during a commit: journals are found by name, not by inode.
- Neither the target of an in-place commit nor, in rename mode, the file or its clone is itself named like a
  journal. Whatever filepath.Glob makes of a
  path with a metacharacter, it is some set of journals, since the pattern's tail is literal.
- Random tags have no slash. A taken journal name fails the exclusive creation, as modelled; a taken
  clone name is assumed not to happen.
- SHA-256 is any function from byte strings to byte strings; collisions are a hypothesis only where a
  statement names them.
- The kernel hands out a descriptor nobody holds, and one per watched path. What happens otherwise is
  `Inotify.InverseUnlessSameInode`.
- Watched paths are absolute and clean.

## What the code does not promise

Statements one might expect that are false of the code. Each is in the model as the code has it.

- A commit does not always see the journal of an interrupted one. The lookup (inplace.go:350) drops every
  error: a directory that cannot be read, or a metacharacter anywhere in the path, makes it come up empty,
  and the commit then edits the torn file and reports success. `Host.Disk.InPlaceCommit` says when that can
  happen, a condition a caller can check (`(listed && NoMeta) || !Pending` rules it out);
  `BlockEdit.BlindCommitSpoils` is an input on which the next recovery then leaves neither the old file nor
  the requested one, and `BlockEdit.BlindCommitEnds` says exactly when it does leave the requested one.
- Rename mode never looks for a journal (delta.go:278-354), so a clone of a torn file is torn, and renaming
  over a file with a journal spoils it; `SavedRegions.ReplacementSurvives` says exactly which replaced files
  the next rollback leaves alone.
- A journal whose writing failed is not cleaned up. It stays, changes nothing, and no later commit whose lookup
  sees it succeeds, with or without failing calls (`Host.Disk.InPlaceCommit`: `Done` only if every journal seen was
  whole); nor does any sweep remove it (`Host.Restored`).
- An apply outlives its connection (inplace.go:179-187), and the sweep made on reconnect does not know of it. It can
  replay and remove the journal between two of the apply's writes; the apply goes on with the rest. What that leaves
  is the requested file if and only if the writes already made had changed nothing (`BlockEdit.SweepUnderApply`). The
  journal being gone, a digest that does not match then rolls nothing back.
- An error does not mean the new bytes are absent. A failing mtime stamp returns an error with the new
  bytes in place and the journal still live, so the next recovery takes the file back
  (`Host.Disk.Release`: not `committed`). A failing last stat returns an error after the commit
  (`committed`, yet refused).
- Success does not mean the journal is gone: its removal's error is ignored (inplace.go:164), so a
  commit can report success and be undone by the next recovery (`Host.Disk.InPlaceCommit`: `Done`
  implies `committed` only if no call failed).
- The sweep does not find every journal. It passes over names that start with the journal stem
  (`JournalNames.SweepMissesExactly`) and over what lies below a directory it cannot read, and still
  succeeds (`Host.Disk.Recover`). Nor does it always know what it rolled back: if reading the target's name
  fails, it reports an empty one (`Host.Reports`).
- The comment at delta.go:276-277 says that a failed commit always removes the clone and leaves the original
  untouched. It does not remove a clone in another directory (delta.go:291-293), and it deletes the original
  when that is handed in as its own clone: `Host.RefusalKeepsOriginal`, `Host.CommitOntoItself`.
- The two commit modes differ on an edit that stops short of its final size:
  `CommitModes.ModesCanDiffer`.
- Batches can reach the consumer out of order, because `Emit` runs outside the lock:
  `Coalescer.ReorderedBatchesMayLie`, and exactly when it matters, `Coalescer.OvertakingIsHarmless`.
- A kqueue walk that comes to a directory already watched replaces the names noted of it without sending
  anything. The names it finds changed are missed (`Listings.NotingMisses`) until they change again;
  `Listings.MissedForGood` is an input on which the consumer never hears of a new file.

## Model

| member | source | states |
|---|---|---|
| `Bytes.Int64RoundTrip` | internal/delta/inplace.go:206-219 | an int64 written big-endian and read back is the same for every non-negative value |
| `Bytes.AtWriteAt` | internal/delta/inplace.go:330 | a write past the end shows its data, zeros in the gap, and the old bytes elsewhere |
| `SavedRegions.RollbackAt` | internal/delta/inplace.go:316-339 | position by position, a rollback of any file shows the old byte where a region covers it and the file's own byte elsewhere |
| `SavedRegions.RollbackRestores` | internal/delta/inplace.go:311-339 | a rollback gives back old bytes and old length if and only if no uncovered old byte was lost, however the file was torn, gaps and overlapping regions included |
| `SavedRegions.ReplacementSurvives` | internal/delta/delta.go:345 | a file replaced while its journal is pending survives the next rollback if and only if it is as long as the old one and agrees with it on everything saved |
| `SavedRegions.ReplayHit` | internal/delta/inplace.go:317-333 | of several writes to one position, the last decides |
| `SavedRegions.WriteKeepsDamaged` | internal/delta/inplace.go:128 | any write whose old positions are saved keeps any torn file restorable, the gap it zero-fills included |
| `SavedRegions.TruncateKeepsDamaged` | internal/delta/inplace.go:132-134 | so does any truncation whose lost positions are saved |
| `SavedRegions.PartialRestoreKeepsDamaged` | internal/delta/inplace.go:317-333 | so does a rollback cut short inside any region |
| `SavedRegions.RestoreOverOld` | internal/delta/inplace.go:317-333 | writing any part of a saved region over the untouched file changes nothing, so a torn journal is harmless |
| `SavedRegions.AttemptsKeepDamaged` | internal/delta/inplace.go:316-343 | so does any number of interrupted rollbacks, any part of each |
| `SavedRegions.RollbackRestartable` | internal/delta/inplace.go:266-268 | after any number of interrupted rollbacks, one more ends in the old file |
| `JournalFormat.ReadRegionsIsLocal` | internal/delta/inplace.go:283-333 | bytes that come later never change a region already read |
| `JournalFormat.RoundTrip` | internal/delta/inplace.go:202-262 | reading a written journal gives target, sizes, count, offsets and data back and consumes exactly the journal |
| `JournalFormat.JournalBytes` | internal/delta/inplace.go:202-262 | a journal byte by byte: magic, name length, name, sizes, count, and each region's offset, length and bytes, all numbers big-endian in eight bytes |
| `JournalFormat.ForeignFileIsRejected` | internal/delta/inplace.go:277-281 | a file that does not begin with the magic is refused before anything of it is replayed |
| `JournalFormat.TornJournalIsRefused` | internal/delta/inplace.go:277-333 | no strict prefix of a journal is taken for complete; what its reader writes before failing is a leading part of the saved regions, on the right target |
| `JournalFormat.TornHeaderIsRight` | internal/delta/inplace.go:279-309 | a header that can be read off a leading part of a journal is that journal's header |
| `JournalFormat.SerializeIsInjective` | internal/delta/inplace.go:194-264 | journals with the same bytes are the same journal |
| `JournalFormat.SerializeIsPrefixFree` | internal/delta/inplace.go:194-264 | no journal is the beginning of another |
| `BlockEdit.AscendingIsWellFormed` | internal/delta/inplace.go:68-98 | the index checks make blocks that do not overlap, in order, none past the final size |
| `BlockEdit.PatchLayout` | internal/delta/inplace.go:91-100 | every block length is in [0, block], all but the last block are whole, and the expected patch is never longer than the final file |
| `BlockEdit.PatchedInBlock` | internal/delta/inplace.go:120-136 | a committed file shows, at each position of a changed block, the patch byte for that position |
| `BlockEdit.PatchedElsewhere` | internal/delta/inplace.go:120-136 | and at every other position its old byte, or zero past the old end |
| `BlockEdit.SavedCovers` | internal/delta/inplace.go:224-237 | an old position is saved if and only if the apply may overwrite it or cut it off |
| `BlockEdit.SavedIsFaithful` | internal/delta/inplace.go:224-262 | every saved region lies inside the old file and holds its bytes; at most one region more than there are blocks |
| `BlockEdit.SavedSize` | internal/delta/inplace.go:224-237 | the saved data is at most the old file plus one block |
| `BlockEdit.TornApplyIsDamaged` | internal/delta/inplace.go:122-131 | writing any part of any changed block keeps any torn file restorable |
| `BlockEdit.CutIsDamaged` | internal/delta/inplace.go:132-134 | so does the final truncation, done early or late |
| `BlockEdit.CrashIsUndone` | internal/delta/inplace.go:120-136 | stopping the apply after any number of blocks, inside any write, before or after the truncation, and replaying the journal gives back exactly the old file, for edits that grow, shrink or keep it |
| `BlockEdit.BlindCommitNow` | internal/delta/inplace.go:346-360 | a commit that does not see a journal leaves what was asked for if and only if nothing it leaves alone was torn |
| `BlockEdit.BlindCommitEnds` | internal/delta/inplace.go:346-360 | the next recovery then leaves what was asked for if and only if the commit keeps the size and changes nothing the unseen journal had saved |
| `BlockEdit.BlindCommitSpoils` | internal/delta/inplace.go:346-360 | an input on which it leaves neither the old file nor the requested one |
| `BlockEdit.SweepUnderApply` | internal/delta/inplace.go:179-187 | a sweep that rolls the journal back between two writes of an apply still running leaves what was asked for if and only if the writes already made changed nothing |
| `BlockDiff.Diff` | internal/selftest/selftest.go:123-144 | the loop's indices and patch are the changed blocks and their bytes, and committing them yields the new file |
| `BlockDiff.ChangedIsExact` | internal/selftest/selftest.go:125-144 | the indices ascend and are exactly those of the blocks that differ |
| `BlockDiff.BlockStarts` | internal/delta/delta.go:124 | the rounded-up quotient counts exactly the blocks that start inside the file |
| `BlockDiff.DiffFits` | internal/delta/inplace.go:91-110 | a diff passes every index and patch-length check of the commit |
| `BlockDiff.DiffHolds` | internal/delta/inplace.go:121-127 | each changed block's new bytes are where the apply loop reads them |
| `BlockDiff.DiffThenApply` | internal/selftest/selftest.go:123-158 | for every old file, new file and block size, diff then commit leaves exactly the new file |
| `Paths.SplitJoined` | internal/delta/inplace.go:189-192 | a sibling built from split and join splits back into the same directory and its own name |
| `Paths.ContainsIsTransitive` | internal/watch/symlink.go:125-129 | containment is transitive |
| `Paths.AncestorsAreComparable` | internal/watch/symlink.go:125-129 | two ancestors of one path are equal or one contains the other |
| `Paths.BelowIsClean` | internal/watch/watch.go:103-114 | what is left of a clean path below its root is a clean relative path, and joins back |
| `Paths.JoinIsClean` | internal/watch/symlink.go:111 | a link name joined with a clean rest has no empty, "." or ".." component |
| `JournalNames.IndexOf` | internal/delta/inplace.go:449-456 | the first occurrence, or -1 if there is none |
| `JournalNames.IsJournalName` | internal/delta/inplace.go:402-406 | true if and only if the name is hidden and the journal suffix occurs in it, but not at its very start |
| `JournalNames.OwnJournalsAreTagged` | internal/delta/inplace.go:189-192 | every journal of a target, whatever its tag, is a hidden sibling named after it and the suffix, which is what the lookup reads literally |
| `JournalNames.TaggedAreJournals` | internal/delta/inplace.go:346-350 | a name of that shape is a journal name |
| `JournalNames.SweepMissesExactly` | internal/delta/inplace.go:402-406 | the sweep recognises a target's journals if and only if the target's name does not start with "ussh-delta-journal-" |
| `CommitProtocol.WholeJournalParses` | internal/delta/inplace.go:277-333 | the journal of a commit reads back as its target, old size and saved regions |
| `CommitProtocol.ReadableIsSaved` | internal/delta/inplace.go:277-333 | any leading part of it makes a reader write only saved regions, and is complete only when it is all there |
| `CommitProtocol.GuardedIsDamaged` | internal/delta/inplace.go:21-27 | a journal that was not overlooked can undo whatever its target has become, and a torn one still has an untouched target |
| `CommitProtocol.ContentIs` | internal/delta/inplace.go:21-27 | the content on disk, which ignores the commits, is the old file while a journal guards it and the file's bytes otherwise |
| `CommitProtocol.PendingContent` | internal/delta/inplace.go:21-27 | while a journal exists its target stands for what the commit found |
| `CommitProtocol.CreateJournalStep` | internal/delta/inplace.go:197-200 | creating a journal changes no content and keeps the disk recoverable |
| `CommitProtocol.AppendJournalStep` | internal/delta/inplace.go:202-262 | nor does any write to it, the byte that completes it included |
| `CommitProtocol.SyncJournalStep` | internal/delta/inplace.go:263 | syncing a whole journal changes no content; only from then on may its target be written |
| `CommitProtocol.LoseJournalStep` | internal/delta/inplace.go:263 | a power loss that cuts a journal before that changes no content |
| `CommitProtocol.WriteBlockStep` | internal/delta/inplace.go:128 | nor does overwriting any part of any block |
| `CommitProtocol.CutToFinalStep` | internal/delta/inplace.go:132-134 | nor does the truncation to the new size |
| `CommitProtocol.LoseTargetStep` | internal/delta/inplace.go:135 | nor does one that leaves anything the journal can undo of a target not yet synced |
| `CommitProtocol.LossIsInvisible` | internal/delta/inplace.go:21-27 | a power loss, whatever journals and targets it hits and in whatever order, changes no content |
| `CommitProtocol.RestoreRegionStep` | internal/delta/inplace.go:330-332 | nor does writing back any part of a region, from a whole journal or a torn one |
| `CommitProtocol.RestoreSizeStep` | internal/delta/inplace.go:335-337 | nor does the truncation to the old size |
| `CommitProtocol.SyncTargetStep` | internal/delta/inplace.go:338 | nor does syncing the target, without which the journal may not be removed |
| `CommitProtocol.RemoveJournalStep` | internal/delta/inplace.go:162-164 | removing a journal makes its target stand for its own bytes, unless another overlooked journal names it, and changes no other content: the commit point |
| `CommitProtocol.OverlookStep` | internal/delta/inplace.go:346-360 | going ahead without a journal costs its target its content and no other file anything |
| `CommitProtocol.SpoiledStep` | internal/delta/inplace.go:390-397 | rolling an overlooked journal back changes no content |
| `CommitProtocol.PutStep` | internal/delta/delta.go:195-202 | a file without a journal takes a new content, and no other content changes |
| `CommitProtocol.DeleteStep` | internal/delta/delta.go:287-290 | removing a file without a journal removes that content and changes no other |
| `CommitProtocol.RenameStep` | internal/delta/delta.go:345-347 | a rename between files without journals moves one content and changes no other |
| `CommitProtocol.StepRefinesAtomic` | internal/delta/inplace.go:21-27 | whatever system call comes next, however little of it is done, the disk stays recoverable and its contents change as on a disk with atomic commits |
| `CommitProtocol.RunKeepsInv` | internal/delta/inplace.go:21-27 | every state of every run is recoverable |
| `CommitProtocol.RunRefinesAtomic` | internal/delta/inplace.go:346-360 | every step of every run, with failures, crashes, power losses and recoveries anywhere, is a step of the atomic disk; a file has two complete journals only if one was overlooked |
| `Host.Disk.constructor` | internal/delta/inplace.go:369-380 | a disk without journals starts a run |
| `Host.Disk.Pwrite` | internal/delta/inplace.go:128-130 | a write that fails or is cut off has written some leading part of its data |
| `Host.Disk.LoseJournalEnd` | internal/delta/inplace.go:263 | a power loss before a journal is synced is one of the run's steps, and changes no content |
| `Host.Disk.LoseTargetBytes` | internal/delta/inplace.go:135 | so is one before its target is |
| `Host.Disk.WriteJournal` | internal/delta/inplace.go:194-264 | success leaves exactly the serialized journal, synced, and nothing else changed; failure at any point, and what it leaves, changes no content |
| `Host.Disk.FillJournal` | internal/delta/inplace.go:202-263 | the writes after the creation add up to the serialization, and only a sync that went through arms it |
| `Host.SpansToSave` | internal/delta/inplace.go:224-237 | the regions computed from indices are the saved regions of the edit |
| `Host.Disk.Apply` | internal/delta/inplace.go:120-136 | success leaves the file the edit asks for; failure anywhere leaves its content unchanged |
| `Host.ApplyNext` | internal/delta/inplace.go:122-131 | each round consumes the patch exactly where the last one ended, with no short read |
| `Host.IsAscending` | internal/delta/inplace.go:68-72 | the neighbour check accepts exactly the strictly ascending lists |
| `Host.ExpectedPatch` | internal/delta/inplace.go:91-100 | accepts exactly the indices inside the final size, and then computes the length the apply consumes |
| `Host.ReadableIsBody` | internal/delta/inplace.go:279-333 | a live journal has the right header if any, its readable regions are a leading part of the saved ones, and its loop ends if and only if the journal is whole |
| `Host.RolledSoFar` | internal/delta/inplace.go:316-339 | a torn journal's rollback leaves its target as it was; a whole one's, with the old size, restores it |
| `Host.Disk.PutBackRegions` | internal/delta/inplace.go:317-333 | writes back exactly the regions that can be read, in order, and fails if one cannot |
| `Host.Disk.DropJournal` | internal/delta/inplace.go:343 | removing the journal is the one step of a rollback or commit that may change a content, and changes only its target's |
| `Host.Disk.RollbackJournal` | internal/delta/inplace.go:266-344 | a missing journal is no error; a whole one leaves the old file and no journal; a torn one is refused and stays, with every file as it was; one that was overlooked is replayed over whatever its target holds; only the journal and its target are touched, and no content changes but that of files already spoiled; if no call fails in it, it succeeds if and only if the journal is whole or missing |
| `Host.Disk.RollbackOpened` | internal/delta/inplace.go:311-343 | the same once header and target are open |
| `Host.Disk.CloseRollback` | internal/delta/inplace.go:338-343 | a restored target is synced before its journal goes; the rollback of a journal that guarded its file shows nowhere |
| `Host.Disk.Glob` | internal/delta/inplace.go:350 | with the directory read and no metacharacter in the path, exactly the target's journals; otherwise some set of journals, and no error |
| `Host.Disk.RollbackJournalsFor` | internal/delta/inplace.go:346-360 | success means every journal seen was whole, and leaves none of them; they are all of the target's if the directory was read and the path has no metacharacter; the others are untouched; if no call fails and every journal seen is whole, it succeeds; and the files whose journals were seen hold their old bytes |
| `Host.AfterLookup` | internal/delta/inplace.go:346-360 | after the lookup, a file is guarded if and only if it was by a journal not seen; an unguarded one holds its content, a guarded one the torn bytes it had |
| `Host.Disk.InPlaceCommit` | internal/delta/inplace.go:55-177 | no other file's content changes; this one's becomes exactly the requested one or stays, whatever fails or stops it, unless a journal guarding it was not seen, which a readable directory and a path without metacharacters rule out; then success means the edit of the torn bytes; no commit gets past a torn journal it sees; if no call fails in it the outcome is exactly the one the checks and those journals say, whatever earlier failures left; whatever fails, success means that the base and the digest given match, that the mtime asked for was set, and a check said to have failed did; and a refusal leaves the bytes as the lookup left them, its own journal gone, if no call fails, and the same but for that journal if only the call it is refused for does, unless that is the stamp |
| `Host.VerdictMeans` | internal/delta/inplace.go:60-155 | with no failing call a commit goes through if and only if block size, journals seen, index order, base, index bounds, patch length and digest are all right; and it is refused as changed, io or usage exactly if that is the first thing wrong |
| `Host.UndoneMore` | internal/delta/inplace.go:346-360 | each rollback of the lookup gives one more file its old bytes back and takes one more journal away, and touches nothing else |
| `Host.KeptButIsSame` | internal/delta/inplace.go:55-177 | on a disk where no journal was ever overlooked, that means the contents change in that one place or not at all |
| `Host.Disk.CommitFound` | internal/delta/inplace.go:68-177 | after the lookup, every outcome leaves the files as `InPlaceCommit` says of the ones it found |
| `Host.Disk.CommitOpened` | internal/delta/inplace.go:86-110 | base guard, index bound and patch length refuse before anything is written, in that order, and whatever else fails none of them refuses wrongly or is got past |
| `Host.Disk.CommitChecked` | internal/delta/inplace.go:112-142 | a failed apply is rolled back and reported, and leaves the files as they were, but for a journal that could not be written or rolled back; a journal that still guards the file is ignored |
| `Host.Disk.CommitJournalled` | internal/delta/inplace.go:120-155 | once the journal is there: success leaves the requested bytes; a refusal leaves the files exactly as they were, without the journal, if no call fails or only the one it is refused for, unless that is the stamp |
| `Host.Disk.Undo` | internal/delta/inplace.go:137-141 | if no call fails in it, the old bytes are back and the journal is gone, and the error it was called for is what is reported; no third file is touched |
| `Host.Disk.Finish` | internal/delta/inplace.go:144-156 | a digest that does not match or cannot be read rolls back: the old bytes are there again and the journal is gone, if no other call fails; success means the digest matches |
| `Host.Disk.Release` | internal/delta/inplace.go:157-176 | the content changes if and only if the journal is removed, and nothing else does; the stamp comes first: if it fails, the new bytes stay in place and the journal live; a failing last stat comes too late |
| `Host.Disk.Walk` | internal/delta/inplace.go:379-385 | every file below the root is visited but some of those below a directory that could not be read, and that is no error |
| `Host.Disk.SweepOne` | internal/delta/inplace.go:390-397 | one journal's report is true of it, and only it and its file are touched |
| `Host.Disk.Recover` | internal/delta/inplace.go:369-400 | every journal the sweep recognises under the root is reported exactly once, but for those below a directory it could not read; nothing but these journals and their files is touched; a journal is gone only if it was whole, and then its file holds the old bytes; a torn one stays, with its file as it was (both unless an overlooked journal names the file too); if no call fails in the sweep, every whole one is gone; the target reported is the right one, or empty if reading it failed; no content changes but that of files already spoiled; a failing call stops it only if it ends the process |
| `Host.RestoredOne` | internal/delta/inplace.go:362-368 | a file nothing spoils holds the old bytes once its journal is gone, and did so all along if that is torn |
| `Host.SweepRestores` | internal/delta/inplace.go:362-368 | a sweep in which no call fails leaves every file below its root with exactly the bytes it stands for, whatever interrupted commits and rollbacks left, unless its name begins with the journal stem |
| `Host.StoppedCommitIsRecovered` | internal/delta/inplace.go:21-32 | a commit stopped anywhere, then a power loss, then a sweep in which no call fails: the file holds the old bytes, or the requested ones if the commit had come to its end |
| `Host.KeptIsSame` | internal/delta/inplace.go:369-400 | on a disk where no journal was ever overlooked, no content changes at all |
| `Host.SweptTarget` | internal/delta/inplace.go:408-427 | the target read from a whole journal is the one its rollback restores |
| `Host.Disk.Clone` | internal/delta/delta.go:166-213 | success adds one file with the original's bytes, which are its content unless a journal guards it, and means that the base given matches; whatever fails, nothing but the clone's path changes; if no call fails, reflinks or not, the outcome is the guard's; a refusal leaves no file behind unless a second call fails |
| `Host.Disk.Commit` | internal/delta/delta.go:276-354 | the original becomes the clone cut to size, or the clone is cut, removed or neither, and no third file changes, whatever fails or stops it; a refusal leaves the original alone if and only if it is not its own clone or nothing was done to that; if no call fails outcome and files are exactly what the checks say; whatever fails, a clone that was renamed is a sibling, has the size and the digest asked for, was stamped if that was asked for, and replaced the original the base is of, and a check said to have failed did; a refusal removes a sibling clone, if no call fails or only the one it is refused for |
| `Host.RenameVerdictMeans` | internal/delta/delta.go:278-335 | with no failing call a clone goes through if and only if it is a sibling, the base matches, it is long enough and its digest matches; and it is refused as usage, changed or mismatch exactly if that is the first thing wrong |
| `Host.CloneIsSibling` | internal/delta/delta.go:219-222 | a clone's path is in the original's directory, so the commit does not refuse it for that |
| `Host.CloneNamedLikeAJournal` | internal/delta/delta.go:219-231 | with a hexadecimal tag, a clone is named like a journal if and only if its original, but for the leading dot, already was: no sweep takes one for a journal |
| `Host.RefusalKeepsOriginal` | internal/delta/delta.go:276-290 | with no failing call, a refusal leaves the original as it was if and only if it was not handed in as its own clone |
| `Host.CommitOntoItself` | internal/delta/delta.go:287-300 | an input on which a refusal deletes the original |
| `Host.Disk.CopyTo` | internal/delta/delta.go:195-211 | a copy that fails or stops halfway changes nothing but the clone's path, and is removed unless that fails too |
| `Host.Disk.CheckClone` | internal/delta/delta.go:294-344 | before the rename only the clone may change, and only by being cut to size; it passes only with the base and the digest asked for, and is refused for a check only if that failed |
| `CommitModes.ModesAgree` | internal/delta/delta.go:315-322 | both modes make the same bytes if and only if the edit reaches the final size; otherwise rename mode finds blocks missing |
| `CommitModes.DiffCarriesTheEnd` | internal/delta/delta.go:315-317 | an edit made by a diff always reaches the final size, so a fully patched clone is never found short |
| `CommitModes.DiffCommitsEitherWay` | README.md:100-107 | for every old and new file and block size, both modes leave exactly the new file |
| `CommitModes.DiffRequest` | internal/selftest/selftest.go:123-153 | a commit request made by a diff asks for exactly the new file |
| `CommitModes.ModesCanDiffer` | internal/delta/delta.go:316-317 | an input on which in-place mode pads with zeros and rename mode refuses |
| `BlockHash.Hash` | internal/delta/delta.go:99-156 | success lists ceil(size/block) digests of consecutive pieces of exactly the opening size, and the digest of their concatenation, whoever writes to the file; if nobody does and no read fails, it succeeds and the pieces are the file's blocks; the stat listed is that of the file both before the first read and after the last |
| `BlockHash.DigestsSelectChanged` | README.md:100-104 | comparing digests selects exactly the changed blocks if and only if no changed block collides |
| `LinkFollower.Follower.constructor` | internal/watch/symlink.go:43-45 | a fresh follower has no links and is not partial |
| `LinkFollower.Follower.Consider` | internal/watch/symlink.go:47-94 | each link is ignored, recorded, watched or refused for budget exactly as the guardrails say; every recorded target stays at or below a watched one, targets are handed out once each, at most 256, none inside an earlier one; an accepted link is recorded unless the budget is spent, one to a target already followed too |
| `LinkFollower.Follower.Record` | internal/watch/symlink.go:72-94 | the same for the locked part, on the whole state; only a refusal for budget sets partial |
| `LinkFollower.Follower.Rel` | internal/watch/symlink.go:96-115 | in every reachable state the early return loses nothing: the result is every name the event has, and outside the root's tree that is one name for each recorded link that leads there, in the order they were recorded |
| `LinkFollower.LinkNamesAre` | internal/watch/symlink.go:106-114 | the link names of a path are as many as the links that lead there, and each resolves to the path through its own link |
| `LinkFollower.ReachingIsAll` | internal/watch/symlink.go:106-114 | those links are all whose target is the path or above it, each once |
| `LinkFollower.TreesAreDisjoint` | internal/watch/symlink.go:66-70 | no path lies both in the root's tree and under a followed target |
| `LinkFollower.NoNameTwice` | internal/watch/symlink.go:100-103 | so a path with a root-relative name has no link-relative one |
| `LinkFollower.NamesLeadBack` | internal/protocol/protocol.go:11-13 | every name leads back to the event's path through the root or a recorded link, is not absolute, and has no empty, "." or ".." component unless it is "." itself |
| `LinkFollower.NamedExactlyIfCovered` | internal/watch/symlink.go:96-115 | a path has a name if and only if it lies in the root's tree or a followed one |
| `Naming.WalkHeard` | internal/watch/symlink.go:96-115 | everything a kqueue walk comes to, through recorded links or not, has a protocol name |
| `Naming.ArrivalHeard` | internal/watch/kqueue_bsd.go:304-327 | so does everything a new entry brings |
| `Naming.KqueueWalkIsHeard` | internal/watch/kqueue_bsd.go:215-268 | if everything watched had a name before a kqueue walk, it still does, and so does everything the walk emitted: no event goes out to nobody |
| `Naming.KqueueRescanIsHeard` | internal/watch/kqueue_bsd.go:286-338 | the same of a re-listing and what its arrivals bring |
| `Naming.InotifyScopeHeard` | internal/watch/symlink.go:96-115 | everything an inotify walk comes to has a protocol name |
| `Naming.InotifyWalkIsHeard` | internal/watch/inotify_linux.go:101-161 | the same of an inotify walk |
| `Coalescer.ReplayIsOverride` | internal/watch/watch.go:87-90 | applying a batch in any order sets exactly the entries it was made from |
| `Coalescer.LessIsTotal` | internal/watch/watch.go:95 | the path order is total and strict |
| `Coalescer.LessIsLexicographic` | internal/watch/watch.go:95 | it is the order of the first byte that differs, a beginning before the whole |
| `Coalescer.Insert` | internal/watch/watch.go:91-96 | keeps the batch in order and adds exactly one change |
| `Coalescer.MakeBatch` | internal/watch/watch.go:87-96 | lists every pending path once with its last kind, no deletion after a modification and the paths ascending within each kind, whatever order the map is read in |
| `Coalescer.Coalescer.constructor` | internal/watch/watch.go:46-53 | a fresh coalescer meets the invariant |
| `Coalescer.Coalescer.Add` | internal/watch/watch.go:55-76 | keeps, under any interleaving: nothing added is lost, a pending change always has a live timer, each batch is in flight or emitted once; an overflow drops what is pending and goes out alone; a change waits for the timer already set and never puts it off, and an overflow leaves none set |
| `Coalescer.Coalescer.Take` | internal/watch/watch.go:78-96 | takes everything pending as one well-ordered batch and keeps the same |
| `Coalescer.Coalescer.Fire` | internal/watch/watch.go:74 | so does a callback, of a timer stopped long ago too |
| `Coalescer.Coalescer.Deliver` | internal/watch/watch.go:97 | Emit calls may overtake each other; no batch is lost or sent twice |
| `Coalescer.Coalescer.AllDelivered` | internal/watch/watch.go:42-45 | after a last flush every batch arrived once, each listing its paths once, deletes first; received in order they mean what was added, each path's last kind since the last overflow |
| `Coalescer.OvertakingIsHarmless` | internal/watch/watch.go:83-97 | two batches may be swapped without the consumer noticing if and only if they agree on every path both list |
| `Coalescer.OvertakingAnOverflow` | internal/watch/watch.go:64-66 | an overflow and a batch that change places always make a difference |
| `Coalescer.ReorderedBatchesMayLie` | internal/watch/watch.go:83-97 | an example: a deleted file the consumer believes modified |
| `Kqueue.Watcher.constructor` | internal/watch/kqueue_bsd.go:59-72 | a fresh watcher's tables are consistent and empty |
| `Kqueue.Watcher.Watch` | internal/watch/kqueue_bsd.go:134-172 | descriptors and paths stay mutually inverse and within budget; true if and only if the path is watched; a full budget sets partial, and otherwise only the path's own open can be at fault, and only that does |
| `Kqueue.Watcher.Unwatch` | internal/watch/kqueue_bsd.go:174-189 | drops exactly the path and what lies below it, from all four tables |
| `Walks.DroppedIs` | internal/watch/kqueue_bsd.go:174-189 | what goes with a path is the path itself and what begins with it and a slash |
| `Walks.SiblingsStay` | internal/watch/kqueue_bsd.go:174-189 | so no other entry of a directory goes with one, even if its name begins with that one's |
| `Kqueue.Watcher.Snapshot` | internal/watch/kqueue_bsd.go:191-213 | the recorded names are exactly the listed ones, or none if the listing failed; each is reported in order if asked; no descriptor is spent on anything but its files, and unless the budget is spent each file has one that could be opened |
| `Kqueue.Watcher.AddOne` | internal/watch/kqueue_bsd.go:270-284 | a pseudo file system changes nothing; a missing directory other than the root is reported deleted; otherwise the directory and those of its files that can be opened are watched, and nothing else |
| `Kqueue.Watcher.AddTree` | internal/watch/kqueue_bsd.go:215-268 | nothing watched is lost, nothing outside the tree is opened, added or reported, each path gets the right kind of descriptor, and what is noted of directories is what was found at one of the visits or as before; unless the budget is spent, everything in the tree is watched and noted but what could not be opened on this walk, and everything is reported once, in walk order, but directories that could not be opened; through one hop of links; the feed turns partial only if what was watched and what the tree calls for exceed the budget |
| `Kqueue.ExtentReaches` | internal/watch/kqueue_bsd.go:215-268 | that is all of it: whatever lies in the tree outside pseudo file systems is watched if it is a file or directory, noted if it is a directory that can be listed, and on a reporting walk told of, but for the start |
| `Kqueue.ExtentFollows` | internal/watch/kqueue_bsd.go:220-235 | a walk that follows links watches and notes what is behind each one it comes to |
| `Kqueue.ExtentIsReached` | internal/watch/kqueue_bsd.go:215-268 | and nothing else: whatever is to be told of or watched lies in the tree, or, if watched, behind a link in it |
| `Kqueue.Watcher.AddDirectory` | internal/watch/kqueue_bsd.go:245-266 | the same for one directory; an unreadable one is skipped without stopping the walk |
| `Kqueue.Watcher.Enter` | internal/watch/kqueue_bsd.go:249-265 | a directory that is watched and can be read has its names noted; one that cannot be opened is the only thing skipped, until the budget is spent |
| `Kqueue.Watcher.Rescan` | internal/watch/kqueue_bsd.go:286-338 | its own events name every changed entry once, arrivals first, and besides them only what new directories and links bring: all of that, unless the budget is spent, but directories that could not be opened; the diff is added to the directory's log and what it tells of is no longer missed; what is noted of other directories changes only by visits to arrivals and by departures; the tables lose exactly the departed subtrees and gain exactly what the arrivals call for and could be opened; an unreadable directory changes nothing; the feed turns partial only if what was watched and what the arrivals call for exceed the budget |
| `Kqueue.Watcher.Arrive` | internal/watch/kqueue_bsd.go:304-327 | a new file is watched in every feed, a new directory or link only in an unscoped one, which then reports what it holds; unless the budget is spent, all of it is watched, noted and told of but what could not be opened |
| `Kqueue.ArrivalReaches` | internal/watch/kqueue_bsd.go:304-327 | that is all of it: a new file itself, and whatever a new directory holds or a new link leads to in an unscoped feed |
| `Kqueue.Watcher.Dispatch` | internal/watch/kqueue_bsd.go:389-421 | what each kind of event emits and what it leaves of the tables and of what is noted; unknown descriptors change nothing; a vanished root is an overflow |
| `Kqueue.Watcher.NamesReplay` | internal/watch/kqueue_bsd.go:286-338 | in every state the watcher can reach, every diff in a directory's log was sent, and a consumer that replays the log over the names first noted is right about every name but exactly those noted as missed |
| `Listings.DiffReplays` | internal/watch/kqueue_bsd.go:297-337 | one diff, in whatever order the maps were read, leaves a consumer right about every name it tells of and as right or wrong as before about the others |
| `Listings.StaysInStep` | internal/watch/kqueue_bsd.go:297-337 | so a directory's log stays true of what the consumer knows with every diff |
| `Listings.NotingMisses` | internal/watch/kqueue_bsd.go:258-265 | a walk that notes a directory again makes the consumer miss exactly the names that changed; it is still right about the directory if and only if none did |
| `Listings.MissedForGood` | internal/watch/kqueue_bsd.go:258-265 | an input on which a walk finds a new file, the rescan that follows sends nothing, and the consumer never hears of it |
| `Listings.RecordedOn` | internal/watch/kqueue_bsd.go:258-265 | over any number of visits, what is missed of a directory is what changed between the first and the last |
| `Listings.RelistedFrame` | internal/watch/kqueue_bsd.go:286-338 | a re-listing keeps every other directory's log and what is missed of it, but for departures |
| `Listings.EmittedMore` | internal/watch/kqueue_bsd.go:297-337 | each event of a re-listing, with what it brings, adds to what was told without losing any of it |
| `Walks.ToldMeans` | internal/watch/kqueue_bsd.go:215-268 | what a walk told is of its nodes, and unless the budget was spent of all of them but directories that could not be opened |
| `Walks.ToldInFull` | internal/watch/kqueue_bsd.go:215-268 | with nothing passed over, a walk tells of every node once, in walk order |
| `Walks.ToldAppend` | internal/watch/kqueue_bsd.go:215-268 | one walk after another tells of the nodes of both, in order |
| `Inotify.InverseUnlessSameInode` | internal/watch/inotify_linux.go:146-155 | adding a watch keeps the two tables inverse if and only if the kernel's descriptor is new |
| `Inotify.Watcher.constructor` | internal/watch/inotify_linux.go:60-70 | fresh tables are inverse and empty |
| `Inotify.Watcher.Enter` | internal/watch/inotify_linux.go:131-159 | a directory gets one watch at most and is reported only when it does; at 64 below the limit, and only there or when the kernel has none left, the walk stops below it and the feed is partial; otherwise only a refusal of its own keeps it from being watched |
| `Inotify.Watcher.AddTree` | internal/watch/inotify_linux.go:101-161 | the tables stay inverse and within the limit, nothing outside the tree is tried, watched or reported; a report names every directory that was added, but the start of the walk and what lies behind a link; unless the watches ran out, every directory is watched but those refused on this walk, and a report names every file and every link; they did only if what was watched and what the tree calls for come within 64 of the limit, or the kernel had none left |
| `Inotify.ScopeReaches` | internal/watch/inotify_linux.go:101-161 | that is all of it: every directory in the tree outside pseudo file systems is to be watched, and told of but for the start; every file and link is to be told of |
| `Inotify.ScopeFollows` | internal/watch/inotify_linux.go:106-121 | a walk that follows links watches what is behind each one it comes to |
| `Inotify.Watcher.Remove` | internal/watch/inotify_linux.go:163-174 | both tables lose exactly the directory and what lies below it |
| `Inotify.Watcher.Dispatch` | internal/watch/inotify_linux.go:257-305 | what each kind of event emits and does to the tables: unknown descriptors change nothing, a vanished root is an overflow, a departed directory takes exactly its subtree along, a new one brings its tree in an unscoped feed: every file and link in it and every directory but those refused, unless the watches ran out |
| `Mounts.FsTypeName` | internal/watch/pseudofs_linux.go:41-53 | the type of the longest matching mount point, or none, whatever order the map is read in |
| `Mounts.LongestIsUnique` | internal/watch/pseudofs_linux.go:44-52 | an absolute directory has only one longest mount point |
| `Mounts.LongestIsInnermost` | internal/watch/pseudofs_linux.go:11-14 | every other mount point above the directory is above that one too, as in the kernel's resolution |
| `Mounts.MatchIsAncestor` | internal/watch/pseudofs_linux.go:41-53 | the test finds exactly the mount points the directory is at or below |

## Left out

- Files that are not regular, relative paths, and errors of path resolution: a `Disk` holds regular files by absolute path.
- The patch file: its bytes are part of the request, its removal (inplace.go:165) is not modelled.
- Modification times beyond the guard's comparison and that a commit set one, permissions, inode numbers, owners and extended attributes; a rollback does not restore the mtime.
- A target that an outside program writes to, deletes or replaces while a journal guards it.
- A journal written by another program or damaged on disk: every journal is a leading part of one a commit wrote.
- Signals and the disconnect guard: a signal that kills the process is a halt, which any system call may be.
- Power loss outside the journalled commit: files no journal names are taken to be durable as written, so the syncs of rename mode (delta.go:337, 348) have no effect here.
- How a reflink works: a clone is a reflink, where the file system has them, or a byte copy with the same content.
- Host.Disk.Commit: the rename is one step, as the kernel promises; its directory sync is not modelled.
- Host.Disk.Recover: visits files in any order; journals that appear in the tree during the walk are not modelled.
- The order in which the glob lists journals (any order), and which journals a path with metacharacters matches (any).
- Coalescer.Insert: sort.Slice is modelled as an insertion sort; the order it establishes is total, so the result is the same.
- Coalescer.Coalescer.Take: one critical section and the batch made from it are one step, the Emit call is another (`Deliver`); time itself is not modelled, a live timer may fire at any moment.
- Kqueue.Watcher.Rescan: descriptor numbers reused within one batch of events, and files replaced under the same name, are not told apart, as in the code.
- Kqueue.Watcher.AddTree: what the walk finds is given as one tree; a tree that changes during the walk is covered only in that a directory's names and its children may disagree. What following a link would add is part of the tree; the decision itself is `LinkFollower.Follower.Consider`, and `Naming` joins the two.
- Inotify.Watcher.Dispatch: takes an event apart from its bytes; decoding the kernel's buffer (inotify_linux.go:246-255) and the scoped start (inotify_linux.go:176-201), which repeats `Enter` for one directory, are not modelled.
- Inotify.Watcher.AddTree: an inode watched under two names is excluded; `InverseUnlessSameInode` says what it would break.
- The FSEvents backend: filtering around a foreign callback; its path rewriting is LinkFollower.
- The listing of pseudo file systems, and parsing of the mount table.
- JSON, command line, logging, pings, version statements and the signature checker.
