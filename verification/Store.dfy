/** The storage engine as a state machine: the data directory, the index, the merge directory and
    the clock, with one function for every step the code takes under its lock. */
module Store {
  import opened Record
  import opened Seqs
  import opened Log
  import opened Visibility
  import opened Wal

  // ---------- State ----------

  /** A record of the HINT file. */
  datatype Hint = Hint(key: Bytes, pos: Pos)

  function HintMap(hs: seq<Hint>): Index {
    if hs == [] then map[] else HintMap(Init(hs))[Last(hs).key := Last(hs).pos]
  }

  /** The merge directory: absent, being written (its MERGEFIN is missing), or complete.
      `upTo` is the segment that was active when the merge started, `started` the merge's clock
      reading, `todo` what its reader has still to return. */
  datatype MergeDir =
    | NoMerge
    | Scanning(upTo: nat, started: nat, todo: seq<Entry>, out: Wal, hints: seq<Hint>)
    | Finished(upTo: nat, started: nat, out: Wal, hints: seq<Hint>)

  /** `hint` and `fin` are the HINT and MERGEFIN files of the data directory (0: no MERGEFIN). */
  datatype Store = Store(wal: Wal, index: Index, hint: seq<Hint>, fin: nat, merge: MergeDir, clock: nat)

  function NewStore(cap: nat, now: nat): Store {
    Store(NewWal(cap), map[], [], 0, NoMerge, now)
  }

  function View(s: Store, t: int): Contents {
    Visible(s.index, Flat(s.wal.Blocks()), t)
  }

  // ---------- Batches ----------

  function Stamp(writes: seq<LogRecord>, id: nat): seq<LogRecord> {
    seq(|writes|, i requires 0 <= i < |writes| => writes[i].(batchId := id))
  }

  function BatchRecords(id: nat, writes: seq<LogRecord>): seq<LogRecord> {
    Stamp(writes, id) + [EndRecord(id)]
  }

  /** WriteAll refuses a batch that is larger than a segment. */
  predicate TooLarge(cap: nat, id: nat, writes: seq<LogRecord>) {
    Total(BatchRecords(id, writes)) > cap
  }

  function BatchBlock(id: nat, writes: seq<LogRecord>, w: Wal): Block {
    var es := Place(BatchRecords(id, writes), w.active, w.fill);
    PlaceOK(BatchRecords(id, writes), w.active, w.fill);
    Done(id, es[..|writes|], es[|writes|])
  }

  /** Batch.Commit (batch.go:460-541). */
  function CommitStep(s: Store, id: nat, writes: seq<LogRecord>, now: nat): Store {
    if writes == [] then s
    else if TooLarge(s.wal.cap, id, writes) then s.(clock := now)
    else
      var size := Total(BatchRecords(id, writes));
      var w := s.wal.MakeRoom(size);
      var b := BatchBlock(id, writes, w);
      s.(wal := w.Append(b, size), index := ApplyOps(s.index, b.ops, now), clock := now)
  }

  /** The lazy deletion of an expired key that Get, Exist, Expire, TTL, Persist and the expiry sweep
      perform (batch.go:214-217, batch.go:287-290, db.go:784-786). */
  function Touch(s: Store, key: Bytes, now: nat): Store {
    if key in s.index && Stale(Read(Flat(s.wal.Blocks()), s.index[key]), now)
    then s.(index := s.index - {key}, clock := now)
    else s.(clock := now)
  }

  predicate Stale(r: Option<LogRecord>, now: nat) {
    r.Some? && (r.value.typ == DELETED || r.value.IsExpired(now))
  }

  // ---------- Opening ----------

  /** Rename the merge output over the segments up to `upTo`; empty files are not moved
      (merge.go:270-289). */
  function Splice<T>(segs: map<nat, seq<T>>, out: map<nat, seq<T>>, upTo: nat): map<nat, seq<T>> {
    map id | id in segs.Keys + out.Keys && (if id <= upTo then id >= 1 && Segment(out, id) != [] else id in segs)
      :: if id <= upTo then Segment(out, id) else Segment(segs, id)
  }

  /** loadMergeFiles (merge.go:231-298): a HINT file is moved even when there is no MERGEFIN. */
  function LoadMerge(s: Store): Store {
    match s.merge
    case NoMerge => s
    case Scanning(_, _, _, _, hints) => s.(hint := hints, merge := NoMerge)
    case Finished(upTo, _, out, hints) =>
      s.(wal := s.wal.(segs := Splice(s.wal.segs, out.segs, upTo)), hint := hints, fin := upTo, merge := NoMerge)
  }

  /** loadIndex (db.go:171-181): the HINT file first, then every record after segment `fin`. */
  function LoadedIndex(s: Store, now: nat): Index {
    Recover(Recovery(HintMap(s.hint), map[]), Flat(ReplayedPart(s)), now).index
  }

  function Reopen(s: Store, now: nat): Store {
    var s' := LoadMerge(s);
    s'.(index := LoadedIndex(s', now), clock := now)
  }

  /** What a crash in the middle of a commit leaves: the first `n` chunks of the batch. */
  function TornWrite(s: Store, id: nat, writes: seq<LogRecord>, n: nat): Store
    requires n <= |writes| + 1
  {
    if n == 0 || writes == [] || TooLarge(s.wal.cap, id, writes) then s
    else
      var w := s.wal.MakeRoom(Total(BatchRecords(id, writes)));
      var rs := BatchRecords(id, writes)[..n];
      var b := if n == |writes| + 1 then BatchBlock(id, writes, w) else Torn(id, Place(rs, w.active, w.fill));
      s.(wal := w.Append(b, Total(rs)))
  }

  /** A crash in the middle of a commit (`n` chunks are on disk), then a restart. */
  function Crash(s: Store, id: nat, writes: seq<LogRecord>, n: nat, now: nat): Store
    requires n <= |writes| + 1
  {
    Reopen(TornWrite(s, id, writes, n), now)
  }

  // ---------- Compaction ----------

  /** doMerge up to its loop (merge.go:68-117): rotate, empty the merge directory, open the reader. The
      clock is read in a step of its own, MergeClock. */
  function MergeStart(s: Store, now: nat): Store {
    if s.wal.IsEmpty() || s.merge.Scanning? then s.(clock := now)
    else
      var upTo := s.wal.active;
      s.(wal := s.wal.Rotate(), clock := now,
         merge := Scanning(upTo, now, Flat(Cat(s.wal.segs, 1, upTo)), NewWal(s.wal.cap), []))
  }

  /** The merge reads the clock after it has released the lock (merge.go:93, merge.go:113), so writers may
      have committed since the rotation. */
  function MergeClock(s: Store, now: nat): Store
    requires s.merge.Scanning?
  {
    s.(merge := Scanning(s.merge.upTo, now, s.merge.todo, s.merge.out, s.merge.hints), clock := now)
  }

  /** The test of merge.go:130; note that it also rejects negative expiry times. */
  predicate Mergeable(r: LogRecord, started: nat) {
    r.typ == NORMAL && (r.expire == 0 || r.expire > started)
  }

  function Cleared(r: LogRecord): LogRecord {
    r.(batchId := MERGE_FINISHED_BATCH_ID)
  }

  /** One write into the merge directory. */
  function MergeWrite(out: Wal, r: LogRecord): Wal {
    var w := out.MakeRoom(Cost(r));
    w.Append(Merged(Entry(w.Frontier(), r)), Cost(r))
  }

  /** One round of doMerge's loop (merge.go:118-152). */
  function MergeStep(s: Store): Store
    requires s.merge.Scanning? && s.merge.todo != []
  {
    var m := s.merge;
    var e := m.todo[0];
    if Mergeable(e.rec, m.started) && e.rec.key in s.index && s.index[e.rec.key] == e.pos then
      var r := Cleared(e.rec);
      s.(merge := Scanning(m.upTo, m.started, m.todo[1..], MergeWrite(m.out, r),
                           m.hints + [Hint(r.key, m.out.MakeRoom(Cost(r)).Frontier())]))
    else
      s.(merge := m.(todo := m.todo[1..]))
  }

  /** MERGEFIN is written (merge.go:158-169). */
  function MergeFinish(s: Store): Store
    requires s.merge.Scanning? && s.merge.todo == []
  {
    s.(merge := Finished(s.merge.upTo, s.merge.started, s.merge.out, s.merge.hints))
  }

  /** A crash after MERGEFIN was created and before its four bytes were written: the next Open cannot read
      them, removes the merge directory and fails (merge.go:246-248, merge.go:265-268, merge.go:314-316); the
      one after that finds no merge. */
  function AbandonMerge(s: Store): Store {
    s.(merge := NoMerge)
  }

  // ---------- Invariant ----------

  ghost predicate AllMerged(bs: seq<Block>) {
    forall i :: 0 <= i < |bs| ==> bs[i].Merged? && BlockOK(bs[i])
  }

  ghost predicate SameEntry(a: Index, b: Index, k: Bytes) {
    (k in a <==> k in b) && (k in a ==> a[k] == b[k])
  }

  /** The hints say of a key what the merged segments say, or it does not matter: the rest of the log
      commits the key again or erases it, or the key has no hint and its record has expired. */
  ghost predicate HintStands(hints: Index, merged: seq<Block>, rest: seq<Block>, now: int, k: Bytes) {
    || k in Newest(rest) || Damaged(rest, now, k) || SameEntry(hints, Replay(map[], merged, 0), k)
    || (k !in hints && k in Newest(merged) && Newest(merged)[k].rec.IsExpired(now))
  }

  ghost predicate HintsStandFor(hints: Index, merged: seq<Block>, rest: seq<Block>, now: int) {
    forall k :: HintStands(hints, merged, rest, now, k)
  }

  function MergedPart(s: Store): seq<Block> {
    Cat(s.wal.segs, 1, s.fin)
  }

  /** What loadIndexFromWAL does not skip. */
  function ReplayedPart(s: Store): seq<Block> {
    Cat(s.wal.segs, s.fin + 1, s.wal.active)
  }

  ghost predicate HintOK(s: Store) {
    && s.fin < s.wal.active && AllMerged(MergedPart(s))
    && HintsStandFor(HintMap(s.hint), MergedPart(s), ReplayedPart(s), s.clock)
  }

  /** Where the part of the source that has been read ends. */
  function ReadUpTo(read: seq<Entry>): Pos {
    if read == [] then Pos(1, 0) else End(Last(read))
  }

  /** Each copy is the newest record of its key in the source. */
  ghost predicate CopiesOK(latest: map<Bytes, Entry>, read: seq<Entry>, copies: map<Bytes, Entry>, started: nat) {
    forall k :: k in copies ==> CopyOK(latest, read, copies[k].rec, started, k)
  }

  ghost predicate CopyOK(latest: map<Bytes, Entry>, read: seq<Entry>, copy: LogRecord, started: nat, k: Bytes) {
    k in latest && latest[k] in read && Mergeable(latest[k].rec, started) && StoredOf(latest[k].rec) == StoredOf(copy)
  }

  /** Each scanned record that the index still points at has been copied. */
  ghost predicate NothingMissed(latest: map<Bytes, Entry>, read: seq<Entry>, copies: map<Bytes, Entry>,
                                index: Index, started: nat) {
    forall k :: k in index && Wanted(latest, read, index, started, k) ==> k in copies
  }

  ghost predicate Wanted(latest: map<Bytes, Entry>, read: seq<Entry>, index: Index, started: nat, k: Bytes) {
    k in latest && latest[k] in read && Mergeable(latest[k].rec, started) && k in index && index[k] == latest[k].pos
  }

  ghost predicate KeysDistinct(bs: seq<Block>) {
    forall i, j :: 0 <= i < j < |bs| && bs[i].Merged? && bs[j].Merged? ==> bs[i].e.rec.key != bs[j].e.rec.key
  }

  /** The merge so far, for the source `src`, the part `read` of it that has been scanned, and the
      index. The output is never ahead of the source, and no key is copied twice. */
  ghost predicate MergeOK(src: seq<Block>, read: seq<Entry>, index: Index, started: nat, out: Wal, hints: seq<Hint>) {
    && WalOK(out) && AllMerged(out.Blocks()) && KeysDistinct(out.Blocks())
    && HintMap(hints) == Replay(map[], out.Blocks(), 0)
    && AtMost(out.Frontier(), ReadUpTo(read))
    && CopiesOK(Newest(src), read, Newest(out.Blocks()), started)
    && NothingMissed(Newest(src), read, Newest(out.Blocks()), index, started)
  }

  function Source(s: Store): seq<Block>
    requires !s.merge.NoMerge?
  {
    Cat(s.wal.segs, 1, s.merge.upTo)
  }

  /** The segments that the merge does not read. */
  function Tail(s: Store): seq<Block>
    requires !s.merge.NoMerge?
  {
    Cat(s.wal.segs, s.merge.upTo + 1, s.wal.active)
  }

  ghost predicate MergeInv(s: Store) {
    !s.merge.NoMerge? ==>
      && 1 <= s.merge.upTo < s.wal.active && s.merge.started <= s.clock && s.merge.out.cap == s.wal.cap
      && exists read :: Scanned(s, read)
  }

  ghost predicate Scanned(s: Store, read: seq<Entry>)
    requires !s.merge.NoMerge?
  {
    && Flat(Source(s)) == read + (if s.merge.Scanning? then s.merge.todo else [])
    && MergeOK(Source(s), read, s.index, s.merge.started, s.merge.out, s.merge.hints)
  }

  ghost predicate LogInv(s: Store) {
    WalOK(s.wal) && BlocksOK(s.wal.Blocks())
  }

  ghost predicate Inv(s: Store) {
    && LogInv(s)
    && IndexOK(s.index, Newest(s.wal.Blocks()), s.clock)
    && HintOK(s)
    && MergeInv(s)
  }
}
