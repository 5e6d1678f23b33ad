# Vitastor: a verified model of its hard core

Vitastor is a distributed block store. This project models three parts of it in Dafny and proves what
they promise:

- **The blockstore** (`src/blockstore`): a journaled, versioned object store. An object has one clean
  copy and a stack of dirty versions. Reads overlay the stack on the clean copy, a flusher folds stable
  versions into it, and a restart replays the journal. Proved: reads return the oldest-to-newest replay,
  with the exact condition under which their own assertions hold; a flush keeps the meaning; a crash at
  any step of any run, followed by a restart, gives the contents from before the crash, in whatever order
  the writes of an object reach the journal, and with the exact condition under which the workflow states come
  back too; the ring buffer of the journal is never overrun (with the exact condition under which the space
  check is sound); the replay undoes the writer, whatever part of the sectors under way is on the disk; trimming
  never gives up a sector that is referenced or has an entry under way; versions, waiting states, counters and
  block ownership stay consistent over every run; listings and resharding refine simple lookups.
- **The client queue** (`src/client/cluster_client.cpp`): wait counters are exact after every change of
  the queue, so writes and syncs never overtake each other; slicing sends every byte of a request to its
  own place.
- **The monitor** (`mon`): placement changes are optimistic transactions that never lose an update, in
  every interleaving; changing the number of placement groups forgets no place where data may be;
  failure domains are folded, distributed and unfolded without leaving their domain; level patterns are
  compiled to rules and pruned without a change of meaning.

`dafny verify dfyconfig.toml` checks everything.

## How it is built

| module | about |
|---|---|
| Basics | definitions that many modules share |
| Overlay, Versions, Reads | copy vectors with holes, version stacks, `dequeue_read` |
| Answers | what a read answers, by the states, kinds and numbers of the versions |
| Flush | `scan_dirty`, bitmap update, torn writes |
| Replayed | journal replay per object |
| Mirror, Marking, Placing | which versions the replay of any tail of the journal over any clean version rebuilds |
| Recovery, Runs | crash consistency of the contents over runs |
| States, Tracking, Restarts | the workflow states that a replay gives to these versions, over runs |
| Deletes, Disorder | journals after which the replay and `dirty_db` differ, and exactly when |
| Strays, TakenAlong | runs after which a rollback undoes a delete, or meets a half flushed version |
| Alignment, JournalRing, JournalCheck, Reservation | ring arithmetic and the space check |
| JournalLog, JournalWriter, JournalOrder | sectors and their replay; the writer with sector writes, references and trims; the order in which operations are told |
| JournalRuns | runs of the journal that end badly |
| Counters, Stability, Waiting, Store | version and waiting states, allocator, sector references and counters |
| Effects | what the operations of the store do to the entries of an object, by their states, kinds and numbers |
| Service | store and devices together: a finished write is read back, a flush leaves both in agreement |
| EarlyUnblock, LateRollback | runs of the store after which a read ends in an assertion |
| Listing, Shards, Metadata | object listings, the sharded clean index, loading of metadata |
| OpQueue, Slicing | the client |
| PgHistory, MonCommit, Monitors | histories of placement groups, requests, the protocol of monitors and store |
| Distribution, Folding, Unfolding, LevelRules | placement logic of the monitor |

Data is a sequence of granules of `bitmap_granularity` bytes, data checksums are off, and the allocator is a
set of blocks. The checksums that chain journal entries are ideal: entries are numbered, and an entry follows on
exactly if its number does. In `Runs` a journal entry is durable when it is written, one flusher works at a
time, and a metadata block is written atomically; the sector writes behind that are in `JournalWriter`.
Inputs that the code takes from outside (device contents, random choices, optimizer results, watch
messages) are parameters. Weights and shares are exact reals.

## What the code does not do

Some promises hold only under a condition. For each the table names the lemma that proves when it holds,
and the concrete input, run or journal for which it does not.

- A read meets its own assertions if and only if the visible versions are readable: small writes over a
  delete or over nothing have to hold the whole requested range (`DequeueRead`). The store guarantees that
  as long as exactly those small writes wait that do not rest on a durable big write (`AllReadable`). Every
  step keeps that, except that a big write which becomes durable also lets small writes go that have
  another unfinished big write in between; it is kept if and only if there is none (`UnblockIff`). A run of
  four writes ends in an assertion (`ReadAsserts`).
- A journaled delete is final after a restart if and only if the journal has made the version below it stable
  when the delete is written (`DeleteEffectiveIff`); otherwise a delete that was rolled back can come back
  (`RolledBackDeleteReturns`).
- A rollback is final after a restart if and only if the journal has made nothing above it stable
  (`RollbackEffectiveIff`). `dirty_db` does not see that for an instant write over an unstable version,
  which its entry makes stable together with all below (`RolledBackInstantReturns`).
- A big write that is journaled late has the contents of its place after every restart if and only if the newest
  version is not a delete with a higher number (`LateWriteFitsIff`); over such a delete it brings the object
  back (`LateWriteRevives`). Of two writes over a flushed delete, the higher one journaled first, the lower one
  is lost in a rollback if and only if it is numbered below that delete (`FlushedWriteLostIff`).
- A plain write that is journaled late stays out of a stable version's way, that is, no restart finds it
  unstable below one, if and only if the journal has made nothing above it stable (`LatePlainIff`,
  `PlainBelowInstant`). Contents do not suffer, but the flusher throws on such a stack
  (`src/blockstore/blockstore_flush.cpp:967-976`, `ScanDirty`).
- A restart brings back all states that the journal gave, and not only the contents, if and only if there is no
  delete over a version whose entry is still in the journal and above the metadata entry while the higher ones
  that made it stable are trimmed, or nothing made it stable (`RestartExactIff`). Exactly such a delete can be undone by a rollback after
  the restart (`DeleteUndoneIff`), and a run with two crashes and a trim leads to one (`StrayRun`).
- An instant write that becomes stable takes plain versions above it along in `dirty_db`, but not in the replay
  (`InstantBelowPlain`). If such a version is being flushed at a crash, a later rollback of it finds parts
  of it in the clean copy (`TornRun`); an interrupted flush leaves lower versions unharmed if and only if its
  copies do not go where these read from (`UnharmedIff`).
- A rollback is checked first, journaled, and carried out after that. Then it removes all versions above the
  target if and only if none of them is in flight or stable by then (`KeptIff`), and the program ends if and only
  if a big write that is not journaled yet is among those that go (`FinishRollback`). With a newer write in flight
  nothing goes, although the journal has the rollback: after a restart that write has lost what it was made over,
  and reading it ends in an assertion (`RestartAsserts`).
- An operation is told that its journal sector is written although an earlier sector write is not reported, if and
  only if a sector write behind the one that is reported now was reported before and another one in front of it is
  still open (`TooEarlyIff`), against the comment at `src/blockstore/blockstore_journal.cpp:240-241`. After a crash
  every entry whose operation was told is found, whatever else is on the disk, if and only if none of them is
  behind a sector whose last entry is under way (`SurvivesIff`). Three sector writes of which the second is
  the last to come through are enough to lose one (`ToldEntryLost`).
- Replay takes the sector at the start of the journal as it is, without comparing checksums. It finds the journal
  and nothing else if and only if no sector of the turn before is still there (`Restart`). A whole tail of old
  entries does no harm to contents (`EarlierStart`), but replay can also stop early among them
  (`OldEntryAlone`), and then a deleted object is back (`BackWithoutDelete`).
- Releasing the last reference to a sector is safe if and only if no entry under way depends on it (`Release`). Two
  stabilizations of one version that overlap break that: the start passes a sector that still takes entries,
  and the next one is outside the live part, which is an assertion (`OpenSectorTrimmed`).
- The space check of the journal accepts a batch of headers that overruns the start of the ring if and
  only if the batch takes a whole turn or passes the end of the ring a second time (`CheckAvailable`,
  `ReservationSoundIff`). 306 stabilizations in a journal of 4 MiB do (`ReservationOverrun`).
- The check counts one sector too few, and the assertion that writer and check agree fails, if and only if a
  batch opens as many sectors as there are buffers, two or more (`SyncBatch`). Syncs, stabilizations and rollbacks
  make it (`src/blockstore/blockstore_sync.cpp:143`, `src/blockstore/blockstore_stable.cpp:386`,
  `src/blockstore/blockstore_rollback.cpp:87`). With two buffers 103 stabilizations after a full sector are such a
  batch (`CountMismatch`).
- The next free position stays aligned to journal blocks for all data if and only if the bitmap
  granularity is a multiple of the journal block size (`SettingsKeepAlignmentIff`); nothing checks this
  relation of the two settings. With 8 KiB and 4 KiB a header is written across the end of the ring
  (`HeaderLeavesRing`).
- A write to a pool with immediate commit and no write-back cache keeps the wait counters exact if and
  only if no sync and no write-back is queued when it comes, and if it is a write-back itself, no write of
  new data behind it (`UntrackedEnqueue`, `UntrackedErase`). After a sync its counter becomes negative,
  which is an assertion (`CounterGoesNegative`).
- A comparison on the modification revision does not notice that `/pg/config` was deleted. A transaction
  replaces the configuration it was computed from if and only if the key is still there
  (`ReplacesItsBasisIff`, `DeletedConfigComesBack`).
- `move_leftmost` can leave its array unsorted, but only after the last exchange, when nothing is more
  than one apart (`PassedAll`).

## Model

| member | source | states |
|---|---|---|
| Overlay.FindHoles | src/blockstore/blockstore_read.cpp:40-74 | for both kinds of callbacks, the calls tile the item's range exactly once, what was covered keeps its source, every hole gets the new source, and the loop ends although the callback inserts into the vector it scans |
| Overlay.TotalLenFull | src/blockstore/blockstore_read.cpp:453-488 | the running total equals the request length if and only if no granule of the request is left uncovered |
| Reads.FulfillRead | src/blockstore/blockstore_read.cpp:76-112 | a version only fills granules that newer versions left open, with the right byte of its medium |
| Reads.FulfillBig | src/blockstore/blockstore_read.cpp:617-637 | a dirty big write completes the vector: its range from its block, zeroes around it |
| Reads.FulfillClean | src/blockstore/blockstore_read.cpp:638-678 | the clean copy completes the vector: set bitmap bits from the block, cleared ones as zeroes |
| Reads.DequeueRead | src/blockstore/blockstore_read.cpp:381-512 | for every stack, version and non-empty range: "not found" exactly when the oldest-to-newest replay of the visible versions leaves no object; otherwise the bytes and the version of that replay if the versions are readable, and one of the two assertions if and only if they are not. The rows of `Answers` say the same without visibility and replay |
| Answers.UnfinishedIgnored | src/blockstore/blockstore_read.cpp:410-415 | a version that waits, is in flight or is submitted changes no answer |
| Answers.NewerIgnored | src/blockstore/blockstore_read.cpp:410-415 | neither does a version above the requested one |
| Answers.DeletedNotFound | src/blockstore/blockstore_read.cpp:405-455 | if the newest of the versions at or below the requested one that are written, synced or stable is a delete, the object is not found |
| Answers.WrittenIsFound | src/blockstore/blockstore_read.cpp:405-488 | if it is a write, written and not synced being enough, the answer has its number and in its range its bytes, from its block or its place in the journal; a big write always answers and has zeroes elsewhere |
| Answers.SmallOnlyInRange | src/blockstore/blockstore_read.cpp:405-488 | outside the range of a newest small write the bytes are those that would be read without it |
| Answers.AssertedIff | src/blockstore/blockstore_read.cpp:456-488 | with a small write as the newest version the read ends in an assertion if and only if some requested granule outside its range cannot be read without that write |
| Answers.CleanAnswers | src/blockstore/blockstore_read.cpp:405-455 | without any such version the clean copy answers with its number, set granules from its block and zeroes elsewhere, or the object is not found |
| Reads.BasedReadable | src/blockstore/blockstore_read.cpp:410-488 | when small writes are visible only over an existing object, every range is readable |
| Flush.ScanDirty | src/blockstore/blockstore_flush.cpp:952-1058 | fails if and only if a version is not stable; otherwise the newest-first plan describes the oldest-to-newest replay of the stack, and its target is the block of the last big write that only small ones follow, or none |
| Flush.UpdateBitmap | src/blockstore/blockstore_flush.cpp:639-708 | a granule of the new clean copy is marked exactly when the flushed versions, or the old copy if it stays, wrote it |
| Flush.FlushedCopyIsTheStack | src/blockstore/blockstore_flush.cpp:513-605 | after all copies, the new clean copy alone reads as the whole stack did over the old one |
| Flush.TornIsHidden | src/blockstore/blockstore_flush.cpp:513-560 | before the new metadata entry, any subset of the copies may be on disk, even inside the old clean block, and reads do not change |
| Flush.FlushObject | src/blockstore/blockstore_flush.cpp:1270-1284 | a complete flush turns stack and clean copy into a clean copy of the same meaning, and into nothing for a delete; the copy is in the block of the last big write, or stays in its block if there is none |
| Replayed.MarkStableLoop | src/blockstore/blockstore_stable.cpp:429-561 | the loops of `mark_stable` with `forget_dirty` leave exactly the versions that the recursive walk keeps |
| Replayed.RollbackLoop | src/blockstore/blockstore_rollback.cpp:125-168 | removes from the top exactly while the version is above the target and not stable |
| Replayed.ReplayJournal | src/blockstore/blockstore_init.cpp:741-1180 | the loop over the entries computes the replay of the log |
| Replayed.ProjectedReplay | src/blockstore/blockstore_init.cpp:741-1218 | entries of different objects may be interleaved in any way: each object ends with the replay of its own entries |
| Placing.MirrorsSnoc | src/blockstore/blockstore_init.cpp:780-1171 | if the log mirrors a version history and an entry carries it to the next one, the longer log mirrors that, for every trim position and every clean version found at the restart |
| Placing.WriteCarries | src/blockstore/blockstore_init.cpp:809-1100 | replaying a write rebuilds the history with the new version in its place, above all deletes but otherwise anywhere, whatever part of the journal is left and whatever clean version is found; an instant one makes all below it stable |
| Placing.DeleteCarries | src/blockstore/blockstore_init.cpp:1125-1171 | so does a delete over any history, also when entries below it are partly trimmed |
| Placing.RenewCarries | src/blockstore/blockstore_init.cpp:998-1100 | a big write numbered at or below the last delete starts a new history |
| Placing.StabilizeCarries | src/blockstore/blockstore_init.cpp:1101-1112 | replaying a stabilization, of a stable version or a delete too, marks the history down to what was stable, although the replay forgets what it hides |
| Placing.RollbackCarries | src/blockstore/blockstore_init.cpp:1113-1124 | replaying a rollback drops exactly the versions above it when none of them is stable |
| Placing.MirrorsRaised | src/blockstore/blockstore_stable.cpp:434-462 | what `dirty_db` makes stable on its own, without a journal entry, leaves the mirror as it is |
| Recovery.RestartPreservesContents | src/blockstore/blockstore_init.cpp:332-1218 | from every state that satisfies the invariant, in each phase of a flush and with writes in flight, loading metadata and replaying the journal rebuilds the top of the history over leftovers that it hides, reads as before the crash, and satisfies the invariant again |
| Recovery.RestartInv | src/blockstore/blockstore_init.cpp:332-1218 | every state that may come back, with deletes and taken along versions as unstable as the replay finds them, satisfies the invariant and has the contents from before the crash |
| Recovery.EarlierStart | src/blockstore/blockstore_init.cpp:609-614 | a replay that starts at any earlier position, over entries that are trimmed already, gives the same contents |
| Runs.StepIsRight | src/blockstore/blockstore_write.cpp:543-660 | every step keeps the invariant and changes the contents as it says: writes are submitted in one order and journaled in another, above and below stable versions, and apply in the order of versions; deletes remove, over unstable versions too, rollbacks restore; stabilizations of any version, flush steps, trims, crashes and work on other objects change nothing |
| Runs.WriteOnTop | src/blockstore/blockstore_write.cpp:391-511 | a write that is newer than all others applies over what was there |
| Runs.LateWriteIsHidden | src/blockstore/blockstore_write.cpp:543-596 | a big write that is journaled late, below a newer big write, changes no contents |
| Runs.RunKeepsInv | src/blockstore/blockstore_flush.cpp:328-637 | the invariant holds at every moment of every run, through any number of crashes |
| Runs.CrashAnywhere | src/blockstore/blockstore_init.cpp:332-430 | at every moment of every run, replaying what is on disk gives the contents that the last acknowledged step left, also between zeroing the old metadata entry and writing the new one, whatever the order of journal entries |
| Tracking.CalmIff | src/blockstore/blockstore_init.cpp:1125-1171 | what a replay has below a delete is stable if and only if every version since the last delete that it finds was made stable by an entry that it also finds |
| Restarts.RunTracked | src/blockstore/blockstore_init.cpp:780-1171 | in every run without plain writes below what the journal made stable and without stabilizations of deletes, the state of every version above the last delete is known for every tail of the journal and every clean version |
| Restarts.RestartExactIff | src/blockstore/blockstore_init.cpp:1101-1171 | all states come back if and only if there is no delete over a version that is still journaled above the metadata entry while what made it stable is trimmed or missing: a condition on the state before the crash |
| Restarts.DeleteUndoneIff | src/blockstore/blockstore_rollback.cpp:12-54 | after a restart some rollback is accepted that brings the deleted object back if and only if the delete is such a one |
| Deletes.DeleteEffectiveIff | src/blockstore/blockstore_write.cpp:757-815 | a journaled delete is final if and only if the journal has made the version it deletes stable |
| Deletes.RolledBackDeleteReturns | src/blockstore/blockstore_init.cpp:1125-1171 | a concrete journal in which a rolled back delete is replayed as stable |
| Disorder.RollbackEffectiveIff | src/blockstore/blockstore_rollback.cpp:125-168 | nothing above a rollback is left after any restart if and only if the journal has made nothing above it stable |
| Disorder.RolledBackInstantReturns | src/blockstore/blockstore_init.cpp:992-995 | a concrete journal with an instant write over a plain one: `dirty_db` waits with both and rolls both back, the replay has both, stable |
| Disorder.LateWriteFitsIff | src/blockstore/blockstore_init.cpp:998-1100 | a late big write, replayed with any tail of the journal over any clean version, has the contents of its place in the order of versions if and only if the newest version is not a delete with a higher number |
| Disorder.LateWriteRevives | src/blockstore/blockstore_init.cpp:998-1100 | a concrete journal in which a late big write brings a deleted object back |
| Disorder.FlushedWriteLostIff | src/blockstore/blockstore_init.cpp:998-1171 | of two writes over a flushed delete with the higher one journaled first, the lower one flushed and the higher one rolled back, the contents of the lower one are lost if and only if it is numbered below the delete |
| Disorder.InstantBelowPlain | src/blockstore/blockstore_stable.cpp:434-462 | a concrete pair of versions where an instant write takes a plain one along in `dirty_db` but not in the replay |
| Disorder.LatePlainIff | src/blockstore/blockstore_flush.cpp:952-976 | after a plain write is journaled no restart finds it unstable below a stable version if and only if the journal has made nothing above it stable |
| Disorder.PlainBelowInstant | src/blockstore/blockstore_flush.cpp:967-976 | a concrete journal after which a stable version is above an unstable one |
| Strays.StrayBelowDelete | src/blockstore/blockstore_init.cpp:1101-1171 | a concrete journal tail over which a stable delete comes back unstable |
| Strays.StrayRun | src/blockstore/blockstore_rollback.cpp:12-54 | a run of the object with two crashes and a trim that ends there: the object is deleted, and a rollback to version 1 brings it back |
| TakenAlong.UnharmedIff | src/blockstore/blockstore_flush.cpp:513-560 | an interrupted flush leaves the contents of any lower versions as they were if and only if its copies do not go where these read from |
| TakenAlong.TornRun | src/blockstore/blockstore_stable.cpp:434-462 | a run in which a version that an instant one has taken along is being flushed at a crash: after its rollback the object reads partly as that version |
| JournalRing.SpansApart | src/blockstore/blockstore_write.cpp:443-511 | stretches of the ring at different distances from its start share no byte, across all wraps |
| JournalRing.DistIsInverse | src/blockstore/blockstore_journal.cpp:131-170 | offsets and distances below the capacity correspond one to one |
| JournalRing.StepNotCrossing | src/blockstore/blockstore_journal.cpp:131-170 | the writer's assertion on a new header sector holds if and only if the ring is not full after it |
| JournalRing.BatchSafeIff | src/blockstore/blockstore_journal.cpp:131-170 | the headers of a batch never come round to the start if and only if the distance after the batch stays below the capacity |
| JournalRing.AcceptedIff | src/blockstore/blockstore_journal.cpp:103-127 | the comparison of positions accepts exactly if what is to be written ends before the end of the ring or leaves more than one block of the capacity free |
| JournalRing.ReservationSoundIff | src/blockstore/blockstore_journal.cpp:18-129 | an accepted reservation is kept by the headers that follow if and only if the batch does not pass the end of the ring a second time |
| JournalRing.DataSafe | src/blockstore/blockstore_write.cpp:443-511 | data inside a reservation lies between the old and the new next free position, never crosses the start, and none of the writer's assertions fails |
| JournalRing.SmallWriteSafe | src/blockstore/blockstore_write.cpp:391-511 | the entry and the data of a small write are always covered by its reservation, which also counts entries of big writes to come |
| JournalRing.DataKeepsAlignmentIff | src/blockstore/blockstore_write.cpp:443-511 | the next free position stays aligned if and only if the data length is |
| JournalRing.SettingsKeepAlignmentIff | src/blockstore/blockstore_disk.cpp:140-170 | all data lengths of a granularity keep the next free position aligned if and only if the granularity is a multiple of the journal block size |
| JournalRing.HeaderLeavesRing | src/blockstore/blockstore_journal.cpp:131-170 | with journal blocks of 8 KiB and a granularity of 4 KiB, after one small write the check accepts another one whose header crosses the end of the ring, and no assertion stops it |
| JournalCheck.WalkOver | src/blockstore/blockstore_journal.cpp:18-86 | the walk over the sector buffers ends, and where it ends with room it stands where the writer will stand after the batch |
| JournalCheck.SubmitBatch | src/blockstore/blockstore_sync.cpp:100-143 | the writer submits the start sector, if it is used or dirty, and every sector that it opens, and ends where the check ended |
| JournalCheck.SpaceCheck.constructor | src/blockstore/blockstore_journal.cpp:6-16 | the check starts where the writer is |
| JournalCheck.SpaceCheck.CheckAvailable | src/blockstore/blockstore_journal.cpp:18-129 | "available" implies that headers and data fit, the headers if and only if the batch takes less than a turn and does not pass the end twice; "wait for space" if and only if headers and data reach the end of the ring and leave less than a block of its capacity (for a batch of less than a turn); every buffer that is entered is idle, except that the last one is dirty or being written when the answer is to wait for it; "too big" implies that all buffers are used up |
| Reservation.ReservationOverrun | src/blockstore/blockstore_journal.cpp:18-129 | a journal of 4 MiB with 32 idle buffers and 306 stabilizations of 40 bytes: the check answers "available" and the batch overruns |
| Reservation.SyncBatch | src/blockstore/blockstore_sync.cpp:77-143 | for a safe batch the assertion that check and writer count the same number of sectors holds if and only if the batch does not open as many sectors as there are buffers, two or more |
| Reservation.CountMismatch | src/blockstore/blockstore_sync.cpp:77-143 | two buffers, a full clean sector and 103 entries: the check counts one sector, the writer submits two |
| Reservation.AppendBatch | src/blockstore/blockstore_stable.cpp:357-385 | from the verdict to the ring: a batch of stabilizations that takes less than a turn and passes the end of the ring at most once is appended as a whole after a positive verdict, within the writer's assertions, and not at all otherwise |
| Reservation.AppendSmall | src/blockstore/blockstore_write.cpp:391-511 | the same for a small write, whose data lies in the free space that was reserved |
| JournalLog.RecoverSector | src/blockstore/blockstore_init.cpp:780-808 | the walk over the entries of a sector ends where the writer did, and reports a mismatch if and only if some recorded data offset is not the computed one |
| JournalLog.Recover | src/blockstore/blockstore_init.cpp:751-808 | for every disk that has pieces of what was written: replay finds a piece of the history; if and only if the start has no sector of the turn before, that is the journal up to the first entry that is missing, without a mismatch of data offsets, and when nothing is missing it stops at the next free position |
| JournalLog.DiskOfStores | src/blockstore/blockstore_journal.cpp:131-170 | no live sector overwrites another one, so that any part of them can be on the disk |
| JournalLog.SurvivesIff | src/blockstore/blockstore_init.cpp:751-779 | replay finds every entry that is not under way, from every disk that has all of these and any beginnings of sectors beyond, if and only if none of them is behind a sector whose last entry is under way |
| JournalLog.DropShaped | src/blockstore/blockstore_flush.cpp:1385-1465 | moving the start to a later sector keeps all the rest in place and in ring order |
| JournalLog.LeastIsFirst | src/blockstore/blockstore_journal.cpp:273-312 | the search by offset in the ordered map of sectors finds the first referenced sector in ring order, with and without a wrap |
| JournalLog.LowerBound | src/blockstore/blockstore_journal.cpp:273-312 | the smallest key that is not below a position, if there is one |
| JournalWriter.RingLog.MakeRoom | src/blockstore/blockstore_journal.cpp:131-170 | a new header sector comes only when the entry does not fit, at the next free position, and loses no entry; the current one is submitted by then |
| JournalWriter.RingLog.Append | src/blockstore/blockstore_journal.cpp:131-170 | the entry goes into the current sector if and only if it has room there and, without overwrites, the sector is not written yet, otherwise into a new one at the next free position; its data follows, from the front of the ring if it does not fit before the end; the entry becomes the last one of the log, its header is in the live part, its data lies in free space, its sector gains one reference if it is a version's own entry; entries of stabilizations and rollbacks share sectors without a reference |
| JournalWriter.RingLog.WriteSector | src/blockstore/blockstore_journal.cpp:172-210 | the entries of the current sector that are not submitted wait for one sector write, the one of the current batch if there is one; in a journal without overwrites the sector takes no more entries |
| JournalWriter.RingLog.Land | src/blockstore/blockstore_journal.cpp:211-224 | a sector write is reported; whatever is open has an entry under way still |
| JournalWriter.RingLog.Complete | src/blockstore/blockstore_write.cpp:721-755 | the entry of an operation that is told is no longer under way; the current sector closes exactly when it has neither entries to submit nor writes under way, and if it stays open some entry of it is under way |
| JournalWriter.RingLog.Release | src/blockstore/blockstore_rollback.cpp:202-243 | the sector loses one reference; what is under way stays protected from trims if and only if none of it depends on a last reference that goes |
| JournalWriter.RingLog.GetTrimPos | src/blockstore/blockstore_journal.cpp:273-312 | the first referenced sector in ring order, or the next free position when nothing is referenced |
| JournalWriter.RingLog.BeginTrim | src/blockstore/blockstore_flush.cpp:1385-1417 | the start that is written is that position |
| JournalWriter.RingLog.FinishTrim | src/blockstore/blockstore_flush.cpp:1443-1466 | whatever was appended, completed or released meanwhile, only sectors without references and without entries under way are given up and the rest stays |
| JournalWriter.RingLog.Restart | src/blockstore/blockstore_init.cpp:751-808 | in every state of the journal, for every disk that has all entries that are not under way and any beginnings of sectors beyond: replay finds the journal up to the first missing entry if and only if no sector of the turn before is at the start, and then everything that is not under way unless an operation was told too early; otherwise it finds a piece of the history that starts with the old sector; the same for the new start of an unfinished trim, which leaves all that is under way |
| JournalOrder.AfterKeeps | src/blockstore/blockstore_journal.cpp:211-258 | every report keeps the flights in order and the first of them unreported, so that nobody waits without reason |
| JournalOrder.FlushQueue.HandleWrite | src/blockstore/blockstore_journal.cpp:211-258 | of the flights from the reported write on, those of this write are told if there is none before them, and all others that were reported; nothing else changes |
| JournalOrder.TooEarlyIff | src/blockstore/blockstore_journal.cpp:225-258 | an operation is told before an earlier sector write is reported if and only if it is behind the reported write, was reported before, and another write in front of it is not |
| JournalRuns.ToldEntryLost | src/blockstore/blockstore_journal.cpp:211-258 | a run with three sector writes after which replay misses an entry whose operation was told |
| JournalRuns.OldEntryAlone | src/blockstore/blockstore_init.cpp:766 | a run with a whole turn of the journal after which replay finds one entry of the turn before and nothing of what followed it |
| JournalRuns.BackWithoutDelete | src/blockstore/blockstore_init.cpp:998-1171 | replaying a write without the delete that followed it brings the object back |
| JournalRuns.OpenSectorTrimmed | src/blockstore/blockstore_journal.cpp:273-312 | a run with two overlapping stabilizations of one version after which the sector that takes the next entry is outside the live part |
| Counters.TotalUpdate | src/blockstore/blockstore_rollback.cpp:170-243 | when one object changes, every total changes by what that object accounts for |
| Counters.ErasedReading | src/blockstore/blockstore_rollback.cpp:202-243 | erasing entries releases each of their sectors and blocks once, except the block that stays |
| Stability.StableBelow | src/blockstore/blockstore_stable.cpp:429-561 | versions grow along the stack and everything below a stable version is stable |
| Stability.MarkDown | src/blockstore/blockstore_stable.cpp:455-561 | the downward loop stabilizes everything from the version on, and its increments leave the counters of entries to flush and of existing objects as if counted anew |
| Stability.MarkStable | src/blockstore/blockstore_stable.cpp:429-561 | stabilizes exactly the version and what is below it, for an instant one also the synced ones above; an instant one waits for unstable ones below |
| Stability.EraseDirty | src/blockstore/blockstore_rollback.cpp:170-243 | every sector and block that is released is in use, once |
| Stability.RollbackVerdict | src/blockstore/blockstore_rollback.cpp:12-54 | "go on" if and only if everything above the version is synced and unstable; otherwise the highest entry that is not decides: "sync first" if it is written or stable, "wait" if it is not finished |
| Stability.KeptIff | src/blockstore/blockstore_rollback.cpp:125-168 | `mark_rolled_back` removes all versions above the target if and only if none of them is in flight or stable by then |
| Stability.MarkRolledBack | src/blockstore/blockstore_rollback.cpp:125-168 | with the entries as they are by then: those on top above the target go down to the first that is in flight or stable, what they held is given back, and the program ends if and only if a big write without a journal sector is among them |
| Stability.OneBlockRemains | src/blockstore/blockstore_flush.cpp:1286-1320 | of the blocks of the flushed entries and the old clean copy exactly the new clean one stays allocated |
| Stability.FlushSettles | src/blockstore/blockstore_flush.cpp:1270-1302 | after a flush there is no clean entry exactly if the last flushed entry is a delete; otherwise it has the number of that entry and the block of the last big write, or the old block if there is none |
| Stability.FlushFrees | src/blockstore/blockstore_flush.cpp:1286-1320 | of the old clean block and the blocks of the flushed big writes exactly that one is allocated afterwards, and no other block changes |
| Waiting.AllReadable | src/blockstore/blockstore_write.cpp:35-45 | while the right small writes wait, every read of every version of the object meets its assertions |
| Waiting.UnblockIff | src/blockstore/blockstore_write.cpp:645-660 | after a big write has become durable and everything that waits above it goes on, the right writes wait if and only if none of these has another unfinished big write in between |
| Store.UnblockSmall | src/blockstore/blockstore_write.cpp:645-660 | exactly the entries above that wait for a big write go on, whatever lies in between |
| Store.UnblockAfterDelete | src/blockstore/blockstore_rollback.cpp:170-201 | after the flush of a delete the writes that waited for it go on, those above the first big one of them wait for a big write |
| Store.StableVerdict | src/blockstore/blockstore_stable.cpp:291-353 | from the version downwards the first entry that is not just synced decides: "go on" if it is stable or there is none, "sync first" if it is written, "wait" if it is not finished; "not found" and "done" exactly when the version is newer than all, or stable already |
| Store.AdvancedKeeps | src/blockstore/blockstore_stable.cpp:512-520 | whatever entries are added, advance, are flushed or rolled back meanwhile, a version whose stabilization was accepted can be marked stable or is gone: no entry in flight is met (every operation of the store promises this) |
| Store.Store.Enqueue | src/blockstore/blockstore_write.cpp:6-213 | the new entry has the next version or a requested higher one, is big over a missing or deleted object, waits for unfinished writes below it, and nothing else changes; a number at or below a delete is put above it until the delete is flushed; the right writes wait |
| Store.NewEntry | src/blockstore/blockstore_write.cpp:6-140 | "already deleted" exactly for a delete of a missing object, "version exists" exactly for a number that is taken and not over a delete |
| Store.Store.SubmitBig | src/blockstore/blockstore_write.cpp:310-351 | one free block becomes the block of this entry |
| Store.Store.Restore | src/blockstore/blockstore_write.cpp:214-302 | a write over a flushed delete gets its own number back unless a version below has reached it; then it and all above are cancelled |
| Store.Store.WriteEntry | src/blockstore/blockstore_write.cpp:391-434 | one reference to the journal sector is added for this entry |
| Store.Store.Complete | src/blockstore/blockstore_write.cpp:598-660 | the entry becomes written, synced, or stable if it is instant and all below is, taking synced ones above along; a durable big write lets go what waits above; the right writes wait afterwards if and only if none of these has another unfinished big write in between |
| Store.Store.FinishStable | src/blockstore/blockstore_stable.cpp:411-427 | after the journal write exactly these entries become stable, and nothing else changes: the version, if it is still there, with all below it if it is plain; if it is instant and all below is stable, with the durable ones right above it. The counters follow |
| Store.Store.FinishRollback | src/blockstore/blockstore_rollback.cpp:112-122 | after the journal write exactly the versions on top that are above the target and written or synced by then are removed, down to the first that is not, and the counters follow; the program ends if and only if one of them has no journal sector |
| Store.Store.FinishFlush | src/blockstore/blockstore_flush.cpp:1270-1320 | the first entries give way to the new clean entry, none exactly for a delete, with the number of the last of them and the block of the last big write or the old one; of their blocks exactly that one stays allocated, and no other block changes; after a delete the writes that waited for it start, those over a big write that did wait for that; the number of existing objects stays, and the right writes wait |
| Store.BlockOwnership | src/blockstore/blockstore_flush.cpp:1286-1320 | in every reachable state a block is allocated if and only if exactly one object owns it, once: as its clean block or by a submitted big write |
| Store.UsedBlocksCount | src/blockstore/blockstore_stable.cpp:465-515 | the number of used blocks equals the number of objects whose newest stable state exists |
| Effects.EnqueuedNumber | src/blockstore/blockstore_write.cpp:6-110 | a requested number above all versions is taken; otherwise the entry gets the least number above all, and remembers the requested one |
| Effects.RefusedIff | src/blockstore/blockstore_write.cpp:75-139 | a number is refused as taken if and only if some version of the object has it or a higher one and the newest entry is neither a delete nor waits for one |
| Effects.EnqueuedKind | src/blockstore/blockstore_write.cpp:6-160 | a write is small exactly if it does not cover the block and there is something under it: a big write with only small ones above, or a clean copy with only small ones |
| Effects.EnqueuedState | src/blockstore/blockstore_write.cpp:25-168 | a write numbered at or below existing versions, or behind one that waits for a delete, waits for the delete; a small one waits exactly while the last big write under it is not synced; everything else starts at once |
| Effects.CompletedAs | src/blockstore/blockstore_write.cpp:598-660 | the state of every entry after the end of a write: written, synced, or stable if it is instant over stable ones, then with the durable ones right above; a durable big write starts what waits for a big write above; nothing else changes |
| Effects.CountersAre | src/blockstore/blockstore_rollback.cpp:170-243 | what exact counters are: a sector is counted once per entry that refers to it, entries to flush are the stable big writes and deletes, a block is allocated exactly if some object has it as its clean block or by a submitted big write and then only one does, used blocks are the objects whose last stable entry is no delete |
| Service.CompleteThenRead | src/blockstore/blockstore_read.cpp:405-488 | after the end of a write a read at its number returns it, synced or not: its number and its bytes; after the end of a delete the object is not found |
| Service.SameTarget | src/blockstore/blockstore_flush.cpp:1270-1302 | the block that the flusher copies to is the one that the database gets |
| Service.FlushThenFinish | src/blockstore/blockstore_flush.cpp:1270-1320 | after a flush and the update of the database both name the same version and block, and that block is allocated |
| EarlyUnblock.ReadAsserts | src/blockstore/blockstore_read.cpp:410-415 | a run of the store with four writes after which a read of the newest version ends in an assertion |
| LateRollback.RestartAsserts | src/blockstore/blockstore_rollback.cpp:125-168 | a run of the store in which a rollback is accepted, a write enqueued and the rollback marked: reads find both writes, and after a replay of the journal a read ends in an assertion |
| Listing.ReplaceStable | src/blockstore/blockstore_impl.cpp:370-390 | the binary search finds the object in the sorted part if and only if it is there, and changes only its version |
| Listing.MergeDelete | src/blockstore/blockstore_impl.cpp:583-594 | merging a stable delete clears the listed version of its object and of no other |
| Listing.MergeStable | src/blockstore/blockstore_impl.cpp:595-630 | merging a stable version sets it for its object only, replacing or appending |
| Listing.ProcessList | src/blockstore/blockstore_impl.cpp:433-685 | returns as stable exactly the objects whose dirty versions, folded over the clean one, end present, each once with that version, and as unstable exactly the other non-delete dirty versions in order |
| Listing.ListedIs | src/blockstore/blockstore_impl.cpp:583-630 | the version listed for an object is that of its newest delete or stable or instant write, absent for a delete; without one it is the clean version |
| Listing.UnstableHas | src/blockstore/blockstore_impl.cpp:583-655 | exactly the writes of the group that are neither stable nor instant are listed as unstable |
| Shards.MoveShard | src/blockstore/blockstore_impl.cpp:405-431 | every entry of a shard arrives in the shard of its group and nowhere else |
| Shards.CleanDb.Reshard | src/blockstore/blockstore_impl.cpp:405-431 | no lookup changes when a pool is divided into another number of groups, and each group then has only objects whose pool and stripe number belong to it |
| Shards.GroupShard | src/blockstore/blockstore_impl.cpp:392-403 | the shard of a group holds all existing objects of the group and nothing else |
| Metadata.LoadMetadata | src/blockstore/blockstore_init.cpp:332-430 | of several slots of one object the newest wins, exactly the winning blocks are allocated, older slots are wiped, and the count of used blocks is that of loaded objects |
| OpQueue.IncWait | src/client/cluster_client.cpp:231-280 | exactly the later operations that this one blocks change their counters, and exactly those that become free are continued |
| OpQueue.CountBlockers | src/client/cluster_client.cpp:196-229 | the counter of a new operation is the number of queued operations that block it |
| OpQueue.Queue.Enqueue | src/client/cluster_client.cpp:831-847 | keeps all counters exact; a read starts at once, always; a sync if and only if only reads are queued; a write or delete if and only if no sync and, unless it is a write-back itself, no write-back is queued |
| OpQueue.Queue.Erase | src/client/cluster_client.cpp:282-330 | keeps all counters exact and non-negative and continues those that waited for this operation alone |
| OpQueue.Queue.Unshift | src/client/cluster_client.cpp:183-194 | keeps all counters exact: what the operation blocks waits once more |
| OpQueue.Barrier | src/client/cluster_client.cpp:196-280 | a sync with counter zero has no earlier write or sync in the queue, a write none of the syncs or write-backs that it must not overtake |
| OpQueue.CounterIs | src/client/cluster_client.cpp:196-280 | in every state of the queue the counter of an operation is the number of operations before it that it has to wait for, named by their kinds and flags; zero for reads |
| OpQueue.ReadHoldsNobody | src/client/cluster_client.cpp:196-280 | no operation waits for a read |
| OpQueue.UntrackedEnqueue | src/client/cluster_client.cpp:831-847 | a write with immediate commit that starts without counting keeps the counters exact if and only if no sync and no write-back is queued |
| OpQueue.ImmediateWriteAfterSync | src/client/cluster_client.cpp:231-280 | behind any queued sync its counter is -1 when the sync is done |
| OpQueue.CounterGoesNegative | src/client/cluster_client.cpp:231-280 | a sync, an immediate write and the end of the sync: the counter is -1 |
| OpQueue.UntrackedErase | src/client/cluster_client.cpp:282-330 | leaving without telling others is right if and only if it is not a write-back or no write of new data is queued behind it |
| Slicing.TakeBytes | src/client/cluster_client.cpp:1131-1157 | the next bytes of the caller's buffers are taken in order, across buffer ends |
| Slicing.AddIov | src/client/cluster_client.cpp:1131-1169 | the list grows by exactly these bytes, by scrap of the same length, or not at all |
| Slicing.SkipPart | src/client/cluster_client.cpp:1211-1249 | a part of a layered read is trimmed at both ends to what is not filled; in between each unfilled byte goes to its own place and each filled one to scrap |
| Slicing.SliceRw | src/client/cluster_client.cpp:1171-1266 | each part lies in one stripe and its list is as long as its range; without skipping the parts take all buffers in order; with skipping every unfilled byte goes to its own place and every filled one to scrap or nowhere |
| PgHistory.MergeGroups | mon/pg_utils.js:9-45 | merging old groups one by one gives the union of what they know |
| PgHistory.MergedIncludes | mon/pg_utils.js:9-45 | the merged history has the OSD set, former sets, peers and epoch of each merged group |
| PgHistory.MergedOnly | mon/pg_utils.js:9-45 | and no OSD set from anywhere else |
| PgHistory.MergedFrom | mon/pg_utils.js:9-45 | nor a peer or an epoch |
| PgHistory.SourceOf | mon/pg_utils.js:47-96 | the new group of a stripe takes over its old group, in all three cases of divisibility |
| PgHistory.SourcesExact | mon/pg_utils.js:47-72 | when one count divides the other, a new group takes over an old one if and only if they share a stripe |
| PgHistory.ScalePgHistory | mon/pg_utils.js:47-96 | new groups get their merged histories, removed ones are marked |
| PgHistory.ForgetsNothing | mon/pg_utils.js:47-96 | for every stripe the history of its new group includes the OSD set, all former sets, all peers and the epoch of its old one |
| MonCommit.MessageRefreshes | mon/mon.js:191-240 | a watch message brings the cache to its revision, and OSD sets that failed transactions left in it are ones their group has had |
| MonCommit.Monitor.Load | mon/mon.js:398-411 | in every history of the store that has these contents at this revision, the cache is up to date |
| MonCommit.Monitor.OnMessage | mon/mon.js:191-240 | an up-to-date cache is up to date with the revision of the message, whatever failed transactions have left in it |
| MonCommit.Monitor.PoolHistories | mon/mon.js:619-650 | the histories that the groups of a pool start with, merged when their number changes |
| MonCommit.Monitor.PushSets | mon/pg_gen.js:84-107 | groups that move gain the OSD set they leave, also in the cached object itself; `OnlyMoved` says which these are |
| MonCommit.Monitor.SavePool | mon/pg_gen.js:84-145 | the request compares every history of the pool, writes the new ones and deletes the rest, and says nothing about other pools |
| MonCommit.Monitor.ApplyPoolPgs | mon/mon.js:570-676 | the request changes exactly the pools that are new, changed or gone; the cache gains at most the current OSD set of each group |
| Monitors.BuiltExtends | mon/mon.js:570-693 | a request built from a cache extends the contents of the revision that the cache is of |
| Monitors.OnlyMoved | mon/pg_gen.js:84-107 | with the number of groups unchanged a history gains exactly the OSD set that is replaced, if some OSD is in it, and nothing else; a set of zeroes is not added; groups of a new pool start without a history |
| Monitors.SucceedsIff | mon/mon.js:678-693 | a transaction succeeds if and only if the monitor is still the master and nobody has written the configuration or a compared history since the revision it has seen; keys that do not exist at the end count as not written |
| Monitors.ReplacesItsBasisIff | mon/mon.js:678-693 | a transaction that succeeds replaces the configuration it was computed from if and only if the key is still there |
| Monitors.DeletedConfigComesBack | mon/mon.js:678-693 | a concrete log in which a deleted configuration is written again |
| Monitors.CommitExtends | mon/mon.js:678-693 | the comparisons make the request extend the contents that it replaces |
| Monitors.StepKeepsInv | mon/mon.js:191-240 | loading, messages, building, committing and failing of any monitors and any other writes keep all caches and requests sound |
| Monitors.NoLostUpdates | mon/mon.js:570-693 | in every run each successful transaction, under the current lease, sets its pools in the configuration before it and leaves the others, and for every stripe of every pool that stays the history of its group afterwards includes the one before and, if any OSD was in the set that is replaced, that set |
| Monitors.OsdStaysKnown | mon/pg_gen.js:84-107 | in every run, whatever OSD had a stripe before a successful transaction is in a set that its group has or knows afterwards |
| Distribution.MoveLeftmost | mon/lp_optimizer/fold.js:188-202 | the first item moves behind all that are not greater, the others keep their order |
| Distribution.MoveRightmost | mon/lp_optimizer/fold.js:204-218 | the last item moves before all that are greater, the others keep their order |
| Distribution.HelpsIff | mon/lp_optimizer/fold.js:159-176 | an exchange reduces the deviation if and only if one lacks, the other has too much and they are more than one apart |
| Distribution.PassedAll | mon/lp_optimizer/fold.js:188-202 | if the first item passes even the last one, everything is within one of each other |
| Distribution.StopsTight | mon/lp_optimizer/fold.js:159-176 | where the loop stops no two items differ by more than one in what they have beyond their share |
| Distribution.Exchange | mon/lp_optimizer/fold.js:159-176 | an exchange keeps every slot placed once, strictly decreases the total deviation, and takes no item below its share |
| Distribution.Balance | mon/lp_optimizer/fold.js:159-176 | the loop ends with an even distribution, takes no item below its share of the slots it had, and does nothing to one that is even |
| Distribution.MoveAway | mon/lp_optimizer/fold.js:143-158 | items without a target lose all their slots to the ones that lack most |
| Distribution.AdjustDistribution | mon/lp_optimizer/fold.js:116-186 | every slot gets one item of positive weight, counts minus exact shares differ by at most one (`Fair`: in slots, weights and their sum), every item of positive weight keeps all its slots or at least the whole part of its share of them, and a distribution that is like this, such as its own result, does not change |
| Folding.FoldSound | mon/lp_optimizer/fold.js:38-59 | one fold keeps every original leaf in exactly one leaf of the tree, once |
| Folding.FoldRooted | mon/lp_optimizer/fold.js:38-59 | and in one that takes the place of a node above it |
| Folding.FoldWeighed | mon/lp_optimizer/fold.js:38-59 | and every leaf as large as the original leaves in it |
| Folding.FoldFailureDomains | mon/lp_optimizer/fold.js:10-64 | ends with every inner node having a child that has children or whose level a rule mentions, all of that kept, and no node gone whose level a rule mentions |
| Folding.TotalSize | mon/lp_optimizer/fold.js:10-64 | the leaves of the folded tree are together as large as the original ones |
| Unfolding.Distribute | mon/lp_optimizer/fold.js:88-103 | the slots of a folded node go to its leaves of positive size by their shares, and stay if they are spread already |
| Unfolding.UnfoldFailureDomains | mon/lp_optimizer/fold.js:71-111 | every slot of a folded node gets one of its leaves of positive size, each node's slots are spread, other slots stay, and nodes that were spread before keep all their slots |
| Unfolding.FoldPrevPgs | mon/lp_optimizer/fold.js:221-237 | every leaf is replaced by the folded node it is in |
| Unfolding.UnfoldThenFold | mon/lp_optimizer/fold.js:221-237 | folding unfolded groups gives the groups back |
| Unfolding.FoldThenUnfold | mon/lp_optimizer/fold.js:71-111 | unfolding folded groups gives them back when they are spread |
| Unfolding.RefoldedIsHome | mon/lp_optimizer/fold.js:221-237 | folding original groups puts each leaf into the one node that stands for it |
| Unfolding.StaysBelow | mon/lp_optimizer/fold.js:71-111 | a chunk goes to a leaf below the original node of its failure domain |
| LevelRules.AddLevel | mon/lp_optimizer/dsl_pgs.js:34-57 | each position gets the rule of its level: the same node as the first position with its symbol, or a different one from all first positions before it |
| LevelRules.FirstsArranged | mon/lp_optimizer/dsl_pgs.js:45-51 | these other positions are in the order of object properties: symbols that look like numbers by value, then the others by age |
| LevelRules.CompileRules | mon/lp_optimizer/dsl_pgs.js:30-58 | all positions get the rules of all levels |
| LevelRules.RulesMean | mon/lp_optimizer/dsl_pgs.js:299-310 | the rules accept a choice if and only if, on every level, two positions share a node exactly when their symbols are equal |
| LevelRules.RulesLookBack | mon/lp_optimizer/dsl_pgs.js:299-300 | rules only look at positions that are chosen already |
| LevelRules.PruneRow | mon/lp_optimizer/dsl_pgs.js:80-91 | filtering and splicing in place leaves exactly what one pass keeps |
| LevelRules.ParseLevelIndexes | mon/lp_optimizer/dsl_pgs.js:30-95 | exactly those positions are pruned from a rule that a higher level of the sequence tells apart, and rules left without any |
| LevelRules.PruningKeepsMeaning | mon/lp_optimizer/dsl_pgs.js:59-93 | on every choice where equal lower nodes have equal upper nodes, the pruned rules accept exactly what the full ones do |

## Left out

- Data checksums and partial checksum blocks: checksum arithmetic and buffer aliasing.
- `fsync_batch` across flushers: one flusher. The steps of `Runs` take a journal entry as durable; `ToldEntryLost` and `OldEntryAlone` show when the journal does not keep that.
- Freeing of blocks that readers still use: readers do not take part in the allocator invariant.
- The counter of used blocks and the bookkeeping of doubly allocated blocks during journal replay: after a restart the blocks of one object are apart, those of different objects are not compared.
- Entries that an earlier restart has cut off and that are still on the disk: their numbers count as smaller than those of all live entries.
- The choice of a sector buffer by the writer, and reading the journal in chunks.
- Zero-length reads.
- Metadata that is not kept in memory: zeroing old entries in a second pass.
- Listing limits, and listings of a group that span pools.
- Throttling, waiting for submission queue entries, timers and retries.
- Reads of bitmaps and deletes in `slice_rw`, and layered reads of empty requests, on which the source fails its own assertion.
- The write-back cache of the client and operations that are continued from inside `inc_wait`.
- Search in `filter_tree_by_rules`, `lp_solve`, hashing, statistics, transports and drivers: input and output, or no property worth stating.
- Primaries, pause flags and the tree hash in the configuration are one opaque value in `MonCommit`.
- Watch messages are taken to carry all changes up to the revision in their header, in order.
- Runs.StepIsRight: no lower write is in flight when a delete is journaled; a rollback drops nothing that the journal or `dirty_db` has ever made stable; over a flushed delete writes do not come below an earlier higher one. `LateWriteFitsIff`, `RollbackEffectiveIff`, `DeleteUndoneIff`, `TornRun` and `FlushedWriteLostIff` show what happens otherwise. That no lower write is in flight when a version is flushed, and that small writes come over an existing object, the source itself ensures.
- Restarts.RestartExactIff: for histories without plain writes below what the journal made stable (`LatePlainIff`) and without stabilizations of deletes; that the contents come back is proved for all. The same holds for `DeleteUndoneIff`, `DeleteEffectiveIff` and `RollbackEffectiveIff`.
- Store.Store.FinishStable: the version can be marked, as the check has found and every operation keeps; a number that was given up and taken again meanwhile is left out.
- Store.Store.Restore: nothing from the write on is submitted yet, and its number is above that of the clean copy if no dirty version is below; the source takes this for granted, because the delete that the write waited for removed that copy.
- JournalWriter.RingLog.Append: the journal geometry is aligned to its block size; `HeaderLeavesRing` shows what happens otherwise.
- Slicing.SliceRw: offsets, lengths and filled ranges are multiples of the bitmap granularity.
- Unfolding.UnfoldFailureDomains: a folded node that is used has some leaf of positive size; the source divides by zero otherwise.
- Folding.FoldFailureDomains: node names are numbers visited in increasing order, the root is not a node, and every parent is a node of the list.
- LevelRules.PruningKeepsMeaning: indexes have one symbol per position, as mon/pool_config.js:131-136 checks.
- Monitors.NoLostUpdates: histories of groups that the configuration does not have are not kept.
