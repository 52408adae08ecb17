# A verified model of RoseDB

RoseDB is a Bitcask store: an append-only log in segment files, and an index in memory from each key to
the position of its newest record. This project models the engine, the parts it stands on and the
consistent-hash proxy in front of it, and proves that they keep their promises; where the code keeps
less than it promises, it proves exactly when.

`dafny verify dfyconfig.toml` checks everything.

## How the model is built

**The log.** `Record` and `Codec` are the records and their bytes. `Log` reads a log as a sequence of
blocks: records that compaction rewrote, finished batches, and what crashes left of batches. It holds both
the recovery pass of the code, record by record with a buffer for each batch id, and the meaning of a log,
the newest committed record of each key. `Wal` is the contract of the write-ahead log library: chunk sizes
add up, chunks are written in order, and a new segment begins only when the next write does not fit.
`Visibility` says what a reader sees through an index.

**The engine as a state machine.** `Store` has the state (log, index, HINT and MERGEFIN of the data
directory, merge directory, clock) with one function for each step that the code takes under its lock, and
the invariant of all runs. `Hints` says what a HINT file has to say, and exactly when loading it gives the
right index and the right answers; `Recovering`, `Committing` and `Merging` prove what each step keeps.
`Runs` puts them together: any interleaving of commits, reads with lazy deletion, crashes in the middle of a
commit, restarts, and the start, the clock reading, every round and the end of a merge, with crashes in
between, is compared with a plain map.

**Where the engine does less.** `Reusing` and `Failures` have the failing cases as theorems: for
all states that show them, and on a state that a legal run reaches (`Aliasing` follows the longest of these
runs step by step). Four guards keep them out of the main theorem. All of them are conditions on the state
before the step, and each comes with the exact condition:

- A record of a torn batch that has expired takes its key out of the index, although its batch never
  finished (db.go:727-729). Recovery is right if and only if no such record lies over a live key
  (`Harmless`; `RecoveryExact`).
- A merge does not copy records with a negative expiry time (merge.go:130), though such records never
  expire (record.go:39). A time to live that overflows gives one. Nothing else is lost (`NoneLost`;
  `MergedKey`).
- The HINT file of an interrupted merge is moved into the data directory although there is no MERGEFIN
  beside it (merge.go:294-295). Keys can disappear, and a key can read another key's value. Nothing is wrong
  while no earlier merge has completed. In general two conditions matter. The hints stand (`StrayOK`) if for
  each key that the rest of the log neither commits nor erases they say what the merged segments say, or are
  silent about a record that has expired; exactly then every index entry is the newest record of its key
  (`IndexExact`). They show the right answers (`HintsShow`) if for each such key the record under the hint
  reads like the live merged record; exactly then readers notice nothing (`ReadExact`). The second is weaker:
  two keys may happen to hold the same value.
- A finished batch must not reuse the id of a torn one; finished batches may share ids. If it does, it takes
  the torn one's unexpired records with it. Only keys of such torn batches are touched (`TakenFrom`), all
  others read as without reuse (`ReuseFrame`), and recovery is right if and only if each record that is taken
  says what the newest committed one says (`ReuseExact`).

An opening is `Unnoticed` if its three guards hold in the reader's sense, and `Safe` if they hold and the hints
stand. Readers notice nothing if and only if it is unnoticed, in every state and at the end of every run
(`ReopenExact`, `OpeningIsExact`, `CrashIsExact`). It is safe if and only if, besides, the state is in order
again, so that the run can go on (`SafeExact`); `EveryRunIsAMap` asks that of each opening on the way.

The proxy does less when a node is added that is there already, as when a request is repeated: the migration
puts its keys on itself and deletes them. `MigrationExact` says for each key where it ends, and `AddedTwice`
that such a node loses all it has.

**The objects.** `Engine` and `Batches` hold the database and the batch as classes whose methods are the
procedures of merge.go, db.go and batch.go, loops included. Each takes exactly the step of the state machine
that it stands for; a ghost field carries the state. Values that a method changes in several steps are
computed in local variables and assigned under the lock at its end.

**Around the engine.** `Keys` is the order of keys and the ordered-map contract of the B-tree; `Traversal` the
index iterator and the database iterator; `Snapshots` the stability of an open iterator; `Sweeping` the
expiry sweep; `Watching` the event queue; `Sharding` the hash ring; `Migrating` the proxy's data migration,
with requests that may fail before or after they have taken effect.

Time is a clock reading (a natural number of nanoseconds) that is passed to each operation and does not go
back between steps; an iterator may read a different time for every record it examines.

## Model

| member | source | states |
|---|---|---|
| Runs.EveryRunIsAMap | db.go:674-742 | After any run of commits, reads, crashes, restarts and merge steps, in any order, in which each opening is safe, what can be read at any later time is what the plain map of finished batches holds |
| Runs.RunsGoOn | db.go:674-742 | After any run, commits of distinct keys with a fresh id, reads and the start of a merge are possible at any time from the clock on, and so is a safe restart |
| Runs.OpeningIsExact | merge.go:231-298 | At the end of any such run an opening shows the plain map from then on if and only if it is unnoticed; that it is safe is not assumed |
| Runs.CrashIsExact | db.go:674-742 | The same for an opening after a crash in the middle of a commit, before its end record |
| Runs.EveryIndexEntryIsNewest | batch.go:199-218 | In every reachable state each index entry leads to a Normal record of that key, the newest committed one, so the panic about deleted data cannot happen |
| Runs.RunRefines | merge.go:67-173 | Every reachable state satisfies the invariant and agrees with the specification map at all times from its clock on |
| Runs.StepRefines | batch.go:460-541 | Each single step of the engine keeps the invariant and does to the contents what the specification map does |
| Runs.CrashRefines | batch.go:484-505 | A crash after any number of a batch's chunks, then a restart: the batch has happened entirely if its end record reached the log, otherwise not at all |
| Recovering.ReopenExact | merge.go:231-298 | In every state that satisfies the invariant, an interrupted merge included: opening shows what was visible before, at that moment and ever after, if and only if no torn record is harmful, no merged record has a negative expiry time, and the records under the hints read like those they stand for |
| Recovering.SafeExact | merge.go:231-298 | Opening is safe if and only if it shows what was visible before and its result satisfies the invariant |
| Recovering.ReopenedInv | db.go:171-181 | The opened state satisfies the invariant if and only if no torn record is harmful and the hints stand |
| Recovering.MergedKey | merge.go:100-152 | After commits were interleaved with a merge, keys written during the scan keep their newer state, all others come from the merged copy, and exactly the lost keys disappear |
| Recovering.MergedContents | merge.go:270-297 | Unless a record with a negative expiry time was merged, splicing in the merge output changes nothing that can be read |
| Hints.HintRefinesScan | merge.go:322-355 | Loading HINT and skipping the segments up to MERGEFIN builds the index that reading the whole log from an empty index builds, if and only if the hints say of each key what the merged segments say, keys excepted that the rest of the log commits or erases |
| Hints.IndexExact | db.go:171-181 | For any hints: after loading, each index entry leads to the newest record of its key and only expired keys are missing, if and only if no torn record is harmful and the hints stand |
| Hints.ReadExact | db.go:171-181 | For any hints: after loading, what can be read is what the log says, if and only if no torn record is harmful and the record under each hint that matters reads like the live merged record of its key |
| Recovering.FirstMergeStray | merge.go:294-295 | While no earlier merge has completed, the hints of an interrupted merge stand, at any time |
| Recovering.OutputFits | merge.go:270-289 | The output of a merge never uses a segment id above the segment that was active when the merge began, the only ids that are moved |
| Recovering.SpliceBlocks | merge.go:270-289 | After the segment files are moved, the log is the merge output followed by the segments that the merge did not read |
| Log.RecoverIsReplay | db.go:684-739 | The pass over records with per-batch buffers computes the block-wise replay, even if finished batches share ids, and leaves only torn batches buffered |
| Log.FlushIsApply | db.go:706-731 | Dropping expired keys while reading and flushing the buffer at the end record comes to the index update of the commit, because the keys of a batch are distinct |
| Log.CommitMeaning | batch.go:519-524 | The records of a finished batch change the meaning of the log to the old contents with the writes laid over them |
| Visibility.RecoveryExact | db.go:674-742 | Recovery makes visible exactly the live contents of the log, and builds a correct index, if and only if no torn record is harmful; it never shows anything else |
| Visibility.ReplayAt | db.go:705-738 | For each key, the recovered index holds the newest committed record if it is a live put, unless a torn record erased the key, and nothing else |
| Visibility.VisibleIsLive | batch.go:177-219 | Reading through a correct index at any later time shows exactly the unexpired part of what the log says |
| Visibility.IndexedRecord | batch.go:199-213 | Under a correct index each entry reads the newest record of its key, which is Normal and holds that key |
| Crashing.CrashExact | db.go:171-181 | Behind merged segments, with any HINT file, cut the log after any record and open at any time: exactly the batches whose end records survived can be read, if and only if no torn record that is left is harmful and each hint that matters after the cut reads right |
| Crashing.ProperHintsShow | merge.go:322-355 | Hints that say what the merged segments say read right after any cut |
| Crashing.CrashAtomicity | db.go:684-739 | A log without merged segments, cut after any record and recovered from an empty index: exactly the batches whose end records survived are visible, if and only if no torn record that is left is harmful |
| Crashing.CutOK | batch.go:484-501 | A log cut anywhere is a well-formed log that means what its whole blocks mean |
| Crashing.NoTtlNoHarm | db.go:726-730 | Torn batches without expiry times are never harmful |
| Committing.CommitOK | batch.go:460-541 | A commit keeps the invariant and lays its writes over the contents; an empty batch or one larger than a segment changes nothing |
| Committing.CommitIndex | batch.go:519-524 | The index update of a commit keeps the index correct for the log with the batch appended |
| Committing.CommitMoves | batch.go:519-524 | A commit leaves each index entry where it was or moves it to the active segment or later, never back into the segments being merged |
| Committing.TornOK | batch.go:484-505 | Any part of a batch without its end record leaves the invariant and every key's newest committed record as they were |
| Committing.TouchOK | batch.go:214-217 | Lazy deletion of an expired key keeps the invariant and the log |
| Committing.MergeKept | merge.go:131-135 | If no index entry has moved back into the segments being merged, the bookkeeping of a running merge stays valid |
| Committing.BlocksGrow | batch.go:492-501 | Appending a block keeps the log well formed unless it reuses the id of a torn batch |
| Merging.MergeStartOK | merge.go:67-117 | Rotating and starting a merge keeps the invariant and the log |
| Merging.MergeClockOK | merge.go:113 | Reading the merge's clock after the lock has been released, whatever was committed since the rotation, keeps the invariant |
| Merging.MergeStepOK | merge.go:118-152 | Each round of the scan keeps the invariant, whatever was committed before it |
| Merging.MergeFinishOK | merge.go:155-172 | Writing MERGEFIN keeps the invariant |
| Merging.AbandonOK | merge.go:246-268 | If a crash leaves an empty MERGEFIN, the Open that removes the merge directory and fails keeps the invariant and everything that can be read |
| Runs.AbandonRefines | merge.go:300-318 | After that, an opening that is safe shows the plain map |
| Merging.PointedAt | merge.go:131-135 | A scanned record that the index points at is the newest of its key in the segments being merged |
| Merging.WriteFits | merge.go:137-143 | Greedy filling with copies that are no longer than their originals never gets ahead of the source |
| Merging.CopyAdded | merge.go:134-152 | No key is copied twice, and each copy is the newest record of its key |
| Compaction.MergeIsExact | merge.go:67-173 | With no concurrent writers the output holds exactly one record for each key whose record is to be kept, with its value and expiry time, and nothing else |
| Compaction.MergeWholeOK | merge.go:67-173 | A whole undisturbed merge keeps the invariant, the index and the log, and leaves a finished output for exactly the segments that were there |
| Compaction.OneRecordPerKey | merge.go:127-152 | The output has as many records as keys |
| Failures.LostIsLost | merge.go:127-130 | Every key that a merge loses could be read before the reload and cannot be read after it |
| Failures.NegativeExpiryIsLost | merge.go:127-130 | Put a key with a negative expiry time, merge, reopen: a reachable state in which the key can be read before the reopening and not after it |
| Failures.StrayHintLoses | merge.go:294-295 | A key in merged segments that the stray hints do not mention is in neither the index nor the view after the next opening |
| Failures.StrayHintReads | merge.go:294-295 | A key that they do mention, and that the rest of the log neither commits nor erases, shows whatever record lies under the hint, another key's if it is one |
| Failures.AliasedRead | merge.go:294-295 | Put two keys, merge, reopen, put the first again, start a merge, crash when the second has been copied: a reachable state in which the second key has its own value before the reopening and the first one's old value after it |
| Failures.InterruptedMergeLoses | merge.go:294-295 | After a crash right at the start of a later merge, every key that was not written since the merge before could be read until then and cannot be read after the opening |
| Failures.SecondMergeInterrupted | merge.go:294-295 | Put, merge, reopen, start a second merge, crash, reopen: a reachable state in which the key can be read before the reopening and not after it |
| Failures.TornErases | db.go:726-730 | A live key that a torn, expired record lies over could be read before the opening and cannot be read after it |
| Failures.TornExpiryIsLost | db.go:726-730 | Put a key, tear a second put of it that has an expiry time, open: from a reachable state, at every time, the committed value can be read before that expiry time and is gone from then on |
| Failures.ReusedIdRevives | db.go:706-717 | Tear a put, restart, put another key in a batch of the same id, restart: from a reachable state on, the torn put can be read although its batch never finished |
| Reusing.ReuseExact | db.go:684-739 | For every well-formed log, ids reused or not: recovery shows exactly what the log says if and only if no torn record erases a live key that is not taken, and each record that is taken from a torn batch agrees with the newest committed one of its key |
| Reusing.ReuseFrame | db.go:684-739 | Key by key: a key that is not taken can be read if and only if it is live and not erased, with its newest committed value; a key that is taken reads the torn batch's put, or nothing if that is a delete |
| Reusing.TakenFrom | db.go:706-717 | What is taken for a key is an unexpired record of that key, of a torn batch whose id a later finished batch has |
| Reusing.RecoverIsAbsorbed | db.go:684-739 | The buffered pass computes the replay of the log in which each finished batch has absorbed the unexpired records buffered for its id, and leaves the unabsorbed ones buffered |
| Reusing.NothingAbsorbed | db.go:706-717 | If no finished batch reuses a torn one's id, nothing is absorbed |
| Reusing.NothingTaken | db.go:706-717 | Nor is any record taken |
| Engine.DB.constructor | db.go:97-139 | A new database is the empty state and satisfies the invariant |
| Engine.DB.Fetch | batch.go:199-218 | A lookup finds exactly the keys that are visible, with the visible value, drops the index entry of any other key and no other, and never meets a delete marker |
| Engine.DB.WriteBatch | batch.go:492-541 | Success exactly if batch and end record fit into a segment; then the log grows by exactly these records, one behind the other, in the active segment or in the next one if they do not fit there; the log and index are those of the commit step, for any id; if the batch is in order the invariant holds again and the database shows what the batch showed, at all later times |
| Engine.DB.IndexBatch | batch.go:519-524 | The loop computes the index update of the commit |
| Engine.DB.MergeBegin | merge.go:67-107 | ErrDBClosed if closed; nothing if there is one segment without a record; ErrMergeRunning if a merge runs; otherwise it starts: everything written so far is to be read, nothing has been copied, and writers have a new segment |
| Engine.DB.MergeReadClock | merge.go:113 | Takes the step that reads the merge's clock, after the lock was released |
| Engine.DB.MergeNext | merge.go:118-152 | Takes exactly one scan step |
| Engine.DB.MergeEnd | merge.go:155-172 | Takes the finish step |
| Engine.DB.DoMerge | merge.go:67-173 | Refused as above, and then nothing happens; otherwise an undisturbed merge takes start, clock reading, all rounds and finish, and ends with an output for exactly the segments there were |
| Wal.EmptyIs | merge.go:75-79 | A log counts as empty exactly if it is a single segment file without a record |
| Engine.DB.MoveSegments | merge.go:270-289 | The loop that removes and renames segment files computes the spliced log |
| Engine.DB.LoadMergeFiles | merge.go:231-298 | Leaves the files that the load step has, with HINT moved even without MERGEFIN |
| Engine.DB.LoadIndexFromHintFile | merge.go:322-355 | The loop builds the map of the hints, later ones over earlier ones |
| Engine.DB.FlushBatch | db.go:710-717 | The loop flushes the buffered records into the index |
| Engine.DB.ReadSegment | db.go:693-738 | The loop over the records of a segment continues the recovery |
| Engine.DB.LoadIndexFromWAL | db.go:674-742 | Reading segment after segment and skipping those up to MERGEFIN is recovery over the rest of the log |
| Engine.DB.Restart | merge.go:40-64 | Always ends open, in the reopened state, with the MERGEFIN of a finished merge and the HINT of any; views stay as they were at all later times if and only if the opening is unnoticed, and the database is valid besides if and only if it is safe |
| Engine.CommitViewAt | batch.go:519-541 | When the log has the batch laid over it, the view at any later time is the old view with the batch laid over it |
| Engine.FilesSplice | merge.go:270-289 | Moving files by id and splicing blocks is the same, empty output files included |
| Batches.Batch.LookupPendingWrites | batch.go:579-591 | Finds the pending write of exactly this key, or reports that there is none, however the hash function collides |
| Batches.Batch.AppendPendingWrites | batch.go:594-601 | Keeps keys distinct and buckets exact, and adds the write |
| Batches.Batch.Put | batch.go:119-174 | ErrKeyIsEmpty, ErrDBClosed, ErrReadOnlyBatch in this order; otherwise the pending writes have this put, and nothing else changes |
| Batches.Batch.Delete | batch.go:222-253 | The same for a delete, which carries no value and no expiry time |
| Batches.Batch.Get | batch.go:177-219 | After the checks for an empty key and a closed database, answers as the database overlaid with the pending writes; only a key that is not pending is looked up |
| Batches.Batch.Exist | batch.go:256-292 | True exactly for the keys that this overlay shows |
| Batches.Batch.FindShown | batch.go:309-337 | The record that the overlay shows for a key, from the pending writes or from the database |
| Batches.Batch.Expire | batch.go:295-344 | Gives a key that is shown a new expiry time and keeps its value; any other key is reported missing |
| Batches.Batch.TTL | batch.go:347-398 | The remaining time of a key that is shown; a missing key is reported, except that a pending delete answers -1 without an error, which the tests pin |
| Batches.Batch.Persist | batch.go:401-453 | Removes the expiry time of a key that is shown; writes nothing if it has none |
| Batches.Batch.Commit | batch.go:460-541 | ErrDBClosed, then nothing for a read-only or empty batch, then ErrBatchCommitted, ErrBatchRollbacked, and an error if the records do not fit into a segment; otherwise the database takes the commit step with the pending writes, for any id; if the id is not a torn batch's, the database is valid again and shows at all later times what the batch showed |
| Batches.Batch.StampRecords | batch.go:484-490 | Every pending record gets the batch's id and is otherwise unchanged |
| Batches.Batch.Rollback | batch.go:545-576 | Pending writes are gone after a rollback; it is refused when closed, committed or rolled back already |
| Batches.OverlayAt | batch.go:188-196 | For each key the overlay shows the last pending write, and the database where there is none |
| Batches.PendingUpdate | batch.go:131-141 | Changing a pending write in place changes the answer for its key alone |
| Codec.DecodeEncode | record.go:57-114 | A record with machine-sized fields decodes to itself if its encoding is shorter than 2^32 bytes, and panics the decoder otherwise, whatever lies behind the slice |
| Codec.Layout | record.go:50-78 | The encoding byte for byte, on a record of each type |
| Codec.NoUvarint | record.go:85-99 | What is no varint: too short, an eleventh byte, or a tenth above 1 |
| Codec.HeaderFits | record.go:22-25 | At most 31 header bytes |
| Codec.ClearedIdNeverLonger | merge.go:137-140 | Clearing the batch id never lengthens a record |
| Codec.DecodeEncodeHint | record.go:116-162 | A hint record decodes to itself, with at most 25 bytes before the key |
| Codec.HintLayout | record.go:116-137 | A hint record byte for byte |
| Codec.MergeFinRoundTrip | record.go:164-168 | The four little-endian bytes of MERGEFIN read back |
| Codec.MergeFinLayout | record.go:164-168 | MERGEFIN is little-endian |
| Codec.EncodeLogRecord | record.go:57-78 | Filling the header array with a moving index and appending it, key and value gives the encoding |
| Codec.DecodeLogRecord | record.go:81-114 | Stepping a 32-bit index through the bytes of a slice gives the decoding, panics included; key and value may reach into the slice's capacity |
| Codec.EncodeHintRecord | record.go:116-137 | The 25-byte scratch buffer suffices and gives the encoding |
| Record.DecimalRoundTrip | batch.go:492-499 | The id in an end record's key parses back to itself |
| Record.DecimalIs | batch.go:492-499 | The text of a number is its decimal digits |
| Keys.LessIs | index/btree.go:151-188 | Keys are in the order of bytes.Compare: a proper prefix is less, otherwise the first byte that differs decides |
| Keys.WalkOK | index/btree.go:151-188 | The walk over the tree visits each entry of the index once, ascending or, in reverse, descending |
| Keys.FromCuts | index/btree.go:203-223 | Seeking cuts the walk at the first element that does not lie before the key |
| Traversal.TreeIterator.Rewind | index/btree.go:190-201 | Everything is ahead again |
| Traversal.TreeIterator.Seek | index/btree.go:203-223 | What is ahead starts at the first element at or past the key; an exhausted iterator stays exhausted |
| Traversal.TreeIterator.Next | index/btree.go:225-254 | Exactly the current element is passed |
| Traversal.Iterator.constructor | iterator.go:31-40 | A new iterator will hand out what the whole snapshot yields |
| Traversal.Iterator.SkipToNext | iterator.go:107-154 | Moves to the next element to hand out without losing one; while open there is an item exactly if the position is valid; the error is set exactly if a record on the way could not be read, and closes the iterator unless errors are passed over |
| Traversal.Iterator.Rewind | iterator.go:44-50 | Everything is handed out again |
| Traversal.Iterator.Seek | iterator.go:54-60 | From the key on, everything is handed out |
| Traversal.Iterator.Next | iterator.go:63-69 | Exactly one item is passed |
| Traversal.Traverse | iterator.go:44-84 | The loop from Rewind while valid terminates and collects what the snapshot yields, errors included |
| Traversal.TraversalExact | iterator.go:107-154 | A traversal of one state yields exactly the keys with the prefix that are visible when their record is examined, with their values, in strict order, so none twice |
| Traversal.ErrorEnds | iterator.go:125-139 | The first record that cannot be read ends the traversal, or is left out of it if errors are passed over |
| Snapshots.SnapshotStable | iterator.go:125-152 | Commits, lazy deletions and merge steps, in any number and order, never change what an open iterator reads for an entry of its snapshot |
| Snapshots.TraversalAcross | iterator.go:107-154 | A traversal whose records are examined in any later states of a run without openings hands out what it would have handed out in the state of its creation: each key with the prefix that is visible there at the time of examination, with its value, in strict order |
| Sweeping.SweepEnds | db.go:758-789 | The sweep comes to an end if and only if the greatest key has been passed or has expired |
| Sweeping.RoundKeeps | db.go:758-789 | At every round no live entry has been removed, and everything the sweep has passed is live |
| Sweeping.SweptAll | db.go:769-774 | When nothing is ahead exactly the live entries, and those below the starting cursor, are left |
| Sweeping.RoundShrinks | db.go:777-788 | Each round leaves fewer keys ahead if the greatest key has expired |
| Sweeping.Sweeper.SweepRound | db.go:759-788 | Over exactly if no key is left from the cursor on; otherwise one round: a hundred keys from the cursor on, or all if there are fewer, the expired ones dropped, the cursor at the last |
| Sweeping.RoundExact | db.go:763-788 | A round, entry by entry: which keys it passes, which stay, where the cursor is left |
| Sweeping.Sweeper.DeleteExpiredKeys | db.go:747-789 | Within a given number of rounds: it ends if and only if one of the rounds finds nothing ahead, then with exactly the unexpired entries from the cursor on and a nil cursor; otherwise it stands where that many rounds lead; the contents stay as they were at all later times |
| Watching.EventQueue.Push | watch.go:98-101 | Appends to the unread events |
| Watching.EventQueue.Pop | watch.go:103-107 | Takes the oldest unread event |
| Watching.Watcher.PutEvent | watch.go:45-52 | The unread events are the newest ones, all of them or the last capacity minus 2 |
| Watching.Watcher.GetEvent | watch.go:55-62 | The oldest unread event, or none |
| Watching.DropOldest | watch.go:45-62 | Over any run of puts and gets the queue holds the newest events in order, and what was popped is an ordered part of what was pushed before them |
| Watching.NothingLost | watch.go:45-62 | Nothing is lost if and only if every event was put while there was room for it |
| Watching.TooSmall | watch.go:45-52 | A queue of capacity 1 or 2 never delivers anything |
| Sharding.ConsistentHashRing.AddNode | sharding/consistent_hash.go:40-57 | Positions stay sorted and gain one occurrence for each virtual node, the hash of a number below the replica count followed by the node's name, which is mapped to such a node; all others are as before |
| Sharding.ConsistentHashRing.RemoveNode | sharding/consistent_hash.go:61-76 | One occurrence of each of the node's virtual positions is gone, and all of them are unmapped; all others are as before |
| Sharding.ConsistentHashRing.GetNode | sharding/consistent_hash.go:86-104 | The node at the first position at or after the key's hash, going round at the end; none if the ring is empty |
| Sharding.AddMoves | sharding/consistent_hash.go:40-57 | For any hash function, adding nodes to a proper ring gives a proper ring in which every key goes where it went before or to a new node |
| Sharding.RemovedOK | sharding/consistent_hash.go:61-76 | Removing leaves every position mapped if and only if no other node shares one of the removed positions |
| Sharding.RemoveReroutes | sharding/consistent_hash.go:61-104 | A key keeps its position if that survives, and otherwise goes to the next surviving one |
| Sharding.RemoveMoves | sharding/consistent_hash.go:61-76 | Only keys of the removed node move, if its positions are its own |
| Sharding.AddThenRemove | sharding/consistent_hash.go:40-76 | Adding a node and removing it again restores the ring if and only if its positions were free |
| Sharding.AddAgain | sharding/consistent_hash.go:40-57 | Adding a node a second time changes no route if its positions are its own |
| Sharding.DistinctPositions | sharding/consistent_hash.go:40-57 | If all positions are distinct each node has its positions for itself, once each |
| Sharding.ConsistentHashRing.AllDistinct | sharding/consistent_hash.go:40-57 | With an injective hash function, different names that do not begin with a digit get pairwise different positions, as many as replicas for each |
| Migrating.AddAndMigrate | cmd/proxy/main.go:102-121 | For any ring, stores and node, one that is there already included: in every state on the way, whichever requests fail, keys are kept and all else is untouched; a key that has not left its old node has a failed request of its own, or that node's key list failed; if no request fails and the nodes are there, the passes are taken one after the other, every key ends where MigrationExact says, placed stores are placed again, and a node that was added before loses all it has |
| Migrating.MigrationExact | cmd/proxy/main.go:189-247 | If no request fails: a key that does not go to the new node, or whose node is not an old one, stays; any other ends on the new node alone as it travelled, unless the new node comes up in the list with the key's node or after it, and then it is on no node |
| Migrating.AddedTwice | cmd/proxy/main.go:189-247 | A node that is among the old ones, placed stores, no failing request: afterwards that node is empty and the others are as they were; the contents survive if and only if it held nothing |
| Migrating.ProperIsKept | cmd/proxy/main.go:189-247 | In every state of a migration the value of each key that is not doomed is on some node; if the new node is not among the old ones and values travel unharmed the union of all nodes never changes |
| Migrating.CarryExact | cmd/proxy/main.go:193-243 | After a migration without failures the contents are unchanged if and only if no key that had to move was doomed, and trimming and the unescaped form body left its value alone |
| Migrating.PlacedAfter | cmd/proxy/main.go:189-247 | Placed stores with all nodes listed: after a migration without failures every key is where the new ring sends it |
| Migrating.MoveKey | cmd/proxy/main.go:215-243 | One key, read, put and deleted, with any request failing and the two nodes equal or not: each state is the one before, one with a copy, or one with the key moved; it ends moved exactly if the key and the new node are there and no request fails |
| Migrating.MigrateNode | cmd/proxy/main.go:193-245 | All keys of a node that the ring sends to the new node: every state is proper; a key that stays has a failed request; if none fails and both nodes are there it is the pass over that node |
| Migrating.MigrateData | cmd/proxy/main.go:189-247 | The same for all old nodes in turn |
| Migrating.PutConserves | cmd/proxy/main.go:227-234 | Putting a key's value on the new node keeps what must be kept and, unless the nodes are the same, brings it there |
| Migrating.DeleteConserves | cmd/proxy/main.go:237-243 | So does deleting it after it has arrived, or in a pass over the new node itself |

## Left out

- Wal: the log library is used by its contract. A chunk costs its data and seven header bytes; padding at the
  end of its 32 KB blocks and chunks split over blocks are not modelled, and a position is a segment and an
  offset, which stands for the block number and the offset in the block.
- Runs.EveryRunIsAMap: asks that each opening on the way is safe and that no batch reuses the id of a torn one.
  What happens otherwise is in ReopenExact, SafeExact and ReuseExact; a run that goes on after an opening that
  was unnoticed but not safe is not followed further.
- Engine.DB.LoadMergeFiles: moving the merge output is one step. A crash in the middle of it is not modelled;
  a second pass would remove segments that the first one had moved.
- Engine.DB.MergeBegin: rotating, emptying the merge directory and creating its files is one step.
- Engine.DB.MergeEnd: creating MERGEFIN and writing it are one step. The crash between them is a step of Runs,
  CrashInEnd; the Open that fails then is not a method of the model.
- Engine.DB.DoMerge: whole Merge calls are serial. Merge(true) gives up the lock between its two halves; commits
  in between are among the interleavings of Runs, a second Merge there is not.
- Engine.DB.ReadSegment: batch ids in end records are decimal numbers, so the parse error is not modelled.
- Batches.Batch.Commit: syncing is assumed to succeed; a failed Sync would leave a finished batch in the log
  that is not in the index. The watch events that a commit emits are not part of its contract; Watching
  models their queue on its own.
- Batches.Batch.Expire: adds without the wrap-around of 64-bit nanoseconds; Put takes any expiry time,
  negative ones included. Each operation reads the clock once.
- Batches.Batch.StampRecords: records are values. The pools of batches, records and buffers, and changes that a
  caller makes to a slice it has passed in, are not modelled.
- Batches.Batch.Rollback: a second Commit or Rollback after the lock was given up is refused in the model as in
  the code, but what other batches do meanwhile is not modelled.
- Traversal.Iterator.SkipToNext: an unreadable record is one that is not at its position; other I/O errors and an
  iterator that is kept over a reopening are not modelled.
- Sweeping.Sweeper.DeleteExpiredKeys: the timeout is a number of rounds, after any of which the sweep may be
  cut off; its goroutine, which would go on, is not modelled. The clock is read once for all rounds.
- Migrating.AddAndMigrate: no client writes during the migration, keys that need no escaping in a request, and
  response bodies that are read completely. With a body that breaks off the code would put what it has read
  and delete the original.
- Hash functions (crc32, memhash) are arbitrary functions; batch ids are arbitrary non-zero numbers.
- Locks and goroutines: steps happen one at a time, as the database lock makes them.
- The single-operation methods of DB, which open a batch, call it and commit it.
- The eight scans over the index with their regular expressions, Stat and Sync.
- HTTP handlers and clients, the dashboard, the command line, replication and failover.
