/** The database object: its files, its index and the procedures of merge.go and db.go that change
    them, each proved to take exactly the step of the state machine it stands for. */
module Engine {
  import opened Record
  import opened Seqs
  import opened Log
  import opened Visibility
  import opened Wal
  import opened Store
  import opened Recovering
  import opened Committing
  import opened Merging
  import opened Compaction

  // ---------- Files ----------

  /** The segment files of a write-ahead log, as the library keeps them. */
  datatype Files = Files(cap: nat, segs: map<nat, seq<Entry>>, active: nat, fill: nat) {

    function Rotate(): Files {
      Files(cap, segs[active + 1 := []], active + 1, 0)
    }

    function MakeRoom(size: nat): Files {
      if fill + size > cap then Rotate() else this
    }

    function Append(es: seq<Entry>, size: nat): Files {
      Files(cap, segs[active := Segment(segs, active) + es], active, fill + size)
    }

    /** WAL.Write. */
    function Write(r: LogRecord): (Files, Pos) {
      var f := MakeRoom(Cost(r));
      var p := Pos(f.active, f.fill);
      (f.Append([Entry(p, r)], Cost(r)), p)
    }

    /** WAL.WriteAll: all records in one piece, or none if they do not fit into a segment. */
    function WriteAll(rs: seq<LogRecord>): Option<(Files, seq<Entry>)> {
      if Total(rs) > cap then None else
      var f := MakeRoom(Total(rs));
      var es := Place(rs, f.active, f.fill);
      Some((f.Append(es, Total(rs)), es))
    }

    function All(): seq<Entry> {
      Cat(segs, 1, active)
    }

    /** WAL.Read. */
    function ReadAt(p: Pos): Option<LogRecord> {
      Read(All(), p)
    }

    predicate IsEmpty() {
      segs.Keys == {active} && fill == 0
    }
  }

  function FlatSegs(segs: map<nat, seq<Block>>): map<nat, seq<Entry>> {
    map id | id in segs :: Flat(segs[id])
  }

  function FilesOf(w: Wal): Files {
    Files(w.cap, FlatSegs(w.segs), w.active, w.fill)
  }

  lemma {:induction false} FlatCat(segs: map<nat, seq<Block>>, lo: nat, hi: nat)
    requires lo >= 1
    ensures Cat(FlatSegs(segs), lo, hi) == Flat(Cat(segs, lo, hi))
    decreases hi
  {
    if hi >= lo {
      FlatCat(segs, lo, hi - 1);
      FlatAppend(Cat(segs, lo, hi - 1), Segment(segs, hi));
    }
  }

  lemma FilesRotate(w: Wal)
    ensures FilesOf(w.Rotate()) == FilesOf(w).Rotate()
  {
    assert FlatSegs(w.Rotate().segs) == FlatSegs(w.segs)[w.active + 1 := []];
  }

  lemma FilesMakeRoom(w: Wal, size: nat)
    ensures FilesOf(w.MakeRoom(size)) == FilesOf(w).MakeRoom(size)
  {
    FilesRotate(w);
  }

  lemma FilesAppend(w: Wal, b: Block, size: nat)
    ensures FilesOf(w.Append(b, size)) == FilesOf(w).Append(Entries(b), size)
  {
    FlatAppend(Segment(w.segs, w.active), [b]);
    FlatOne(b);
    assert FlatSegs(w.Append(b, size).segs) == FlatSegs(w.segs)[w.active := Flat(Segment(w.segs, w.active)) + Entries(b)];
  }

  lemma FilesWrite(w: Wal, r: LogRecord)
    ensures FilesOf(w).Write(r) == (FilesOf(MergeWrite(w, r)), w.MakeRoom(Cost(r)).Frontier())
  {
    hide Cost, FlatSegs;
    var w1 := w.MakeRoom(Cost(r));
    FilesMakeRoom(w, Cost(r));
    FilesAppend(w1, Merged(Entry(w1.Frontier(), r)), Cost(r));
  }

  lemma FreshFiles(cap: nat)
    ensures FilesOf(NewWal(cap)) == Files(cap, map[1 := []], 1, 0)
  {
    assert FlatSegs(map[1 := []]) == map[1 := []];
  }

  lemma SameKeys(segs: map<nat, seq<Block>>)
    ensures FlatSegs(segs).Keys == segs.Keys
  {
  }

  // ---------- The merge directory ----------

  /** What doMerge holds while it runs, and what it leaves in the merge directory. */
  datatype MergeFiles =
    | NoDir
    | Open(prevActiveSegId: nat, started: nat, reader: seq<Entry>, files: Files, hints: seq<Hint>)
    | Complete(mergeFinSegmentId: nat, started: nat, files: Files, hints: seq<Hint>)

  function MergeFilesOf(m: MergeDir): MergeFiles {
    match m
    case NoMerge => NoDir
    case Scanning(upTo, started, todo, out, hints) => Open(upTo, started, todo, FilesOf(out), hints)
    case Finished(upTo, started, out, hints) => Complete(upTo, started, FilesOf(out), hints)
  }

  /** Everything on disk: the segment files, HINT and MERGEFIN of the data directory (0: no MERGEFIN),
      and the merge directory. */
  datatype Disk = Disk(files: Files, hint: seq<Hint>, fin: nat, merge: MergeFiles)

  function DiskOf(s: Store): Disk {
    Disk(FilesOf(s.wal), s.hint, s.fin, MergeFilesOf(s.merge))
  }

  // The disk after the start of a merge.
  function AfterStart(d: Disk, now: nat): Disk {
    if d.files.IsEmpty() || d.merge.Open? then d
    else Disk(d.files.Rotate(), d.hint, d.fin,
              Open(d.files.active, now, d.files.All(), Files(d.files.cap, map[1 := []], 1, 0), []))
  }

  lemma AfterStartIs(d: Disk, now: nat)
    ensures AfterStart(d, now)
         == if d.files.IsEmpty() || d.merge.Open? then d
            else d.(files := d.files.Rotate(),
                    merge := Open(d.files.active, now, Cat(d.files.segs, 1, d.files.active),
                                  Files(d.files.cap, map[1 := []], 1, 0), []))
  {
  }

  lemma NotStarted(d: Disk, now: nat)
    requires d.files.IsEmpty() || d.merge.Open?
    ensures AfterStart(d, now) == d
  {
  }

  lemma StartDisk(s: Store, now: nat)
    ensures DiskOf(MergeStart(s, now)) == AfterStart(DiskOf(s), now) && MergeStart(s, now).index == s.index
    ensures (DiskOf(s).files.IsEmpty() <==> s.wal.IsEmpty()) && (DiskOf(s).merge.Open? <==> s.merge.Scanning?)
  {
    FilesRotate(s.wal);
    FreshFiles(s.wal.cap);
    SameKeys(s.wal.segs);
    FilesOfAll(s.wal);
    hide FlatSegs, Flat, Cat;
  }

  lemma ClockDisk(s: Store, now: nat)
    requires s.merge.Scanning?
    ensures var d := DiskOf(s);
            && d.merge.Open? && MergeClock(s, now).index == s.index
            && DiskOf(MergeClock(s, now))
               == d.(merge := Open(d.merge.prevActiveSegId, now, d.merge.reader, d.merge.files, d.merge.hints))
  {
    hide FilesOf;
  }

  /** A merge has started: it is to read every record there is, has copied none, and writers have a new
      segment. */
  ghost predicate HasStarted(s: Store, s': Store) {
    && s'.merge.Scanning? && s'.merge.upTo == s.wal.active && s'.merge.todo == Flat(s.wal.Blocks())
    && s'.merge.out.Blocks() == [] && s'.merge.hints == []
    && s'.wal.active == s.wal.active + 1 && s'.wal.fill == 0 && s'.wal.Blocks() == s.wal.Blocks()
    && s'.index == s.index && s'.hint == s.hint && s'.fin == s.fin
  }

  lemma StartsIf(s: Store, now: nat)
    requires Inv(s)
    ensures s.wal.IsEmpty() <==> s.wal.segs.Keys == {s.wal.active} && Flat(s.wal.Blocks()) == []
    ensures if s.wal.IsEmpty() || s.merge.Scanning? then MergeStart(s, now) == s.(clock := now)
            else HasStarted(s, MergeStart(s, now))
  {
    hide IndexOK, HintOK, MergeInv, BlocksOK, Flat, Spaced;
    EmptyIs(s.wal);
    RotateOK(s.wal);
    NewWalOK(s.wal.cap);
  }

  lemma WholeIs(s: Store, now: nat, started: nat)
    requires Inv(s) && started >= now >= s.clock && !s.wal.IsEmpty() && !s.merge.Scanning?
    ensures MergeStart(s, now).merge.Scanning?
    ensures var s' := MergeWhole(s, now, started);
            && s' == MergeFinish(ScanAll(MergeClock(MergeStart(s, now), started)))
            && s'.merge.Finished? && s'.merge.upTo == s.wal.active && s'.wal.Blocks() == s.wal.Blocks()
  {
    hide MergeInv, HintOK, IndexOK, BlocksOK, ScanAll, Source, MergeClock, Spaced;
    MergeWholeOK(s, now, started);
    RotateOK(s.wal);
  }

  // The merge directory after one round of the loop.
  lemma StepFiles(s: Store)
    requires s.merge.Scanning? && s.merge.todo != []
    ensures var m, e, r := MergeFilesOf(s.merge), s.merge.todo[0], Cleared(s.merge.todo[0].rec);
            && m.Open? && m.reader == s.merge.todo && m.started == s.merge.started
            && MergeFilesOf(MergeStep(s).merge)
               == (if Mergeable(e.rec, m.started) && e.rec.key in s.index && s.index[e.rec.key] == e.pos
                   then Open(m.prevActiveSegId, m.started, m.reader[1..], m.files.Write(r).0,
                             m.hints + [Hint(r.key, m.files.Write(r).1)])
                   else m.(reader := m.reader[1..]))
  {
    hide FilesOf, Cost, MergeWrite;
    FilesWrite(s.merge.out, Cleared(s.merge.todo[0].rec));
  }

  lemma StepRest(s: Store)
    requires s.merge.Scanning? && s.merge.todo != []
    ensures DiskOf(MergeStep(s)) == DiskOf(s).(merge := MergeFilesOf(MergeStep(s).merge)) && MergeStep(s).index == s.index
  {
    hide FilesOf, Cost, MergeWrite, MergeFilesOf;
  }

  lemma StepShrinks(s: Store)
    requires s.merge.Scanning? && s.merge.todo != []
    ensures MergeStep(s).merge.Scanning? && |MergeStep(s).merge.todo| == |s.merge.todo| - 1
  {
  }

  /** What a batch over the contents `base` answers: its own writes first, then the database. */
  function Answers(base: Contents, ws: seq<LogRecord>, now: nat): Contents {
    Live(Overlay(base, ws), now)
  }

  /** After a commit the database shows the batch's answers. */
  ghost predicate CommitShows(s: Store, s': Store, ws: seq<LogRecord>, now: nat) {
    forall t: nat :: t >= now ==> View(s', t) == Answers(View(s, t), ws, t)
  }

  /** What is sure of a commit whose batch is in order: the invariant holds again, and the database shows
      what the batch showed. */
  ghost predicate CommitSound(s: Store, s': Store, id: nat, ws: seq<LogRecord>, now: nat) {
    Inv(s) && BatchOK(s, id, ws) && now >= s.clock ==>
      Inv(s') && (!TooLarge(s.wal.cap, id, ws) ==> CommitShows(s, s', ws, now))
  }

  lemma CommitIsSound(s: Store, id: nat, ws: seq<LogRecord>, now: nat)
    requires ws != []
    ensures CommitSound(s, CommitStep(s, id, ws, now), id, ws, now)
  {
    hide CommitStep, CommitShows, TooLarge, Inv, BatchOK, Meaning, Newest, Overlay;
    if Inv(s) && BatchOK(s, id, ws) && now >= s.clock {
      CommitOK(s, id, ws, now);
      if !TooLarge(s.wal.cap, id, ws) {
        CommitViews(s, id, ws, now);
      }
    }
  }

  /** The files and the index after a commit, whatever its id. */
  lemma CommitHolds(disk: Disk, index: Index, s: Store, id: nat, ws: seq<LogRecord>, now: nat)
    requires Holds(disk, index, s) && ws != []
    ensures var s', written := CommitStep(s, id, ws, now), disk.files.WriteAll(Stamp(ws, id) + [EndRecord(id)]);
            && (written.None? <==> TooLarge(s.wal.cap, id, ws))
            && (written.None? ==> Holds(disk, index, s'))
            && (written.Some? ==>
                 && |ws| <= |written.value.1| && (forall i :: 0 <= i < |ws| ==> written.value.1[i].rec == Stamp(ws, id)[i])
                 && Holds(disk.(files := written.value.0), ApplyOps(index, written.value.1[..|ws|], now), s'))
  {
    hide CommitStep, ApplyOps, Place;
    if !TooLarge(s.wal.cap, id, ws) {
      WrittenFiles(s, id, ws, now);
    }
    CommitRest(s, id, ws, now);
    hide FilesOf;
  }

  lemma CommitRest(s: Store, id: nat, ws: seq<LogRecord>, now: nat)
    requires ws != []
    ensures var s' := CommitStep(s, id, ws, now);
            && s'.hint == s.hint && s'.fin == s.fin && s'.merge == s.merge
            && (TooLarge(s.wal.cap, id, ws) ==> s'.wal == s.wal && s'.index == s.index)
  {
    hide ApplyOps, Place, Total, Inv;
  }

  lemma WrittenFiles(s: Store, id: nat, ws: seq<LogRecord>, now: nat)
    requires ws != [] && !TooLarge(s.wal.cap, id, ws)
    ensures var s', rs := CommitStep(s, id, ws, now), BatchRecords(id, ws);
            var w := s.wal.MakeRoom(Total(rs));
            var es := Place(rs, w.active, w.fill);
            && FilesOf(s.wal).WriteAll(rs) == Some((FilesOf(s'.wal), es)) && |es| == |ws| + 1
            && (forall i :: 0 <= i < |ws| ==> es[i].rec == Stamp(ws, id)[i])
            && s'.index == ApplyOps(s.index, es[..|ws|], now)
  {
    hide Place, Total, FlatSegs, Cost, Spaced;
    var rs := BatchRecords(id, ws);
    var w := s.wal.MakeRoom(Total(rs));
    FilesMakeRoom(s.wal, Total(rs));
    PlaceOK(rs, w.active, w.fill);
    var b := BatchBlock(id, ws, w);
    assert Entries(b) == Place(rs, w.active, w.fill);
    FilesAppend(w, b, Total(rs));
  }

  lemma CommitViews(s: Store, id: nat, ws: seq<LogRecord>, now: nat)
    requires Inv(s) && BatchOK(s, id, ws) && now >= s.clock && ws != [] && !TooLarge(s.wal.cap, id, ws)
    ensures CommitShows(s, CommitStep(s, id, ws, now), ws, now)
  {
    hide Inv, CommitStep, View, Answers;
    CommitOK(s, id, ws, now);
    CommitClock(s, id, ws, now);
    forall t: nat | t >= now ensures View(CommitStep(s, id, ws, now), t) == Answers(View(s, t), ws, t) {
      CommitViewAt(s, CommitStep(s, id, ws, now), ws, t);
    }
  }

  lemma CommitClock(s: Store, id: nat, ws: seq<LogRecord>, now: nat)
    requires ws != []
    ensures CommitStep(s, id, ws, now).clock == now
  {
    hide ApplyOps, Place, Total;
  }

  lemma CommitViewAt(s: Store, s': Store, ws: seq<LogRecord>, t: nat)
    requires Inv(s) && Inv(s') && t >= s.clock && t >= s'.clock
    requires Meaning(Newest(s'.wal.Blocks())) == Overlay(Meaning(Newest(s.wal.Blocks())), ws)
    ensures View(s', t) == Answers(View(s, t), ws, t)
  {
    hide Inv, Meaning, Newest, View, Overlay;
    ViewIsLive(s, t);
    ViewIsLive(s', t);
    var m := Meaning(Newest(s.wal.Blocks()));
    assert Live(Live(m, t), t) == Live(m, t);
    OverlayLive(m, Live(m, t), ws, t);
  }

  /** The records are behind all others, in one piece: in the active segment, or in the next one if they do
      not fit there. */
  ghost predicate Grows(w: Wal, w': Wal, rs: seq<LogRecord>) {
    exists es :: && Flat(w'.Blocks()) == Flat(w.Blocks()) + es && Records(es) == rs
                 && w'.active == (if w.fill + Total(rs) > w.cap then w.active + 1 else w.active)
                 && Chained(es, w'.active, if w.fill + Total(rs) > w.cap then 0 else w.fill)
                 && (es != [] ==> w'.fill == Last(es).pos.off + 7 + |Codec.Encode(Last(es).rec)|)
  }

  lemma CommitGrows(s: Store, id: nat, ws: seq<LogRecord>, now: nat)
    requires ws != [] && Stamp(ws, id) == ws
    ensures LogInv(s) ==>
      Grows(s.wal, CommitStep(s, id, ws, now).wal, if TooLarge(s.wal.cap, id, ws) then [] else ws + [EndRecord(id)])
  {
    hide ApplyOps, Place, Spaced, Cost, Flat, BlocksOK, EndRecord;
    if LogInv(s) {
      var rs := ws + [EndRecord(id)];
      if TooLarge(s.wal.cap, id, ws) {
        assert Flat(s.wal.Blocks()) + [] == Flat(s.wal.Blocks());
        assert Records([]) == [] && Total([]) == 0;
      } else {
        var w := s.wal.MakeRoom(Total(rs));
        var b := BatchBlock(id, ws, w);
        PlaceOK(rs, w.active, w.fill);
        assert Entries(b) == Place(rs, w.active, w.fill);
        BlockGrows(s.wal, b, rs, id);
      }
    }
  }

  lemma BlockGrows(w: Wal, b: Block, rs: seq<LogRecord>, id: nat)
    requires WalOK(w) && Total(rs) <= w.cap
    requires Entries(b) == Place(rs, w.MakeRoom(Total(rs)).active, w.MakeRoom(Total(rs)).fill)
    ensures Grows(w, w.MakeRoom(Total(rs)).Append(b, Total(rs)), rs)
  {
    hide Place, Spaced, Cost, Flat, WalOK, Records, Total, Cat;
    var w1 := w.MakeRoom(Total(rs));
    GrownOK(w, b, rs, Total(rs));
    PlaceOK(rs, w1.active, w1.fill);
    FlatAppend(w.Blocks(), [b]);
    FlatOne(b);
    PlaceChained(rs, w1.active, w1.fill);
    assert Records(Entries(b)) == rs;
  }

  // What is behind the index entry of a key.
  lemma FetchedRecord(s: Store, key: Bytes, now: nat)
    requires Inv(s) && now >= s.clock
    ensures key !in s.index ==> key !in View(s, now)
    ensures key in s.index ==>
      var r := Read(Flat(s.wal.Blocks()), s.index[key]);
      && r.Some? && r.value.typ == NORMAL && r.value.key == key
      && (r.value.IsExpired(now) ==> key !in View(s, now))
      && (!r.value.IsExpired(now) ==> key in View(s, now) && View(s, now)[key] == StoredOf(r.value))
  {
    if key in s.index {
      IndexedRecord(s.index, s.wal.Blocks(), s.clock, key);
    }
  }

  /** The files and the index are those of the state `s`. */
  ghost predicate Holds(disk: Disk, index: Index, s: Store) {
    disk == DiskOf(s) && index == s.index
  }

  // A lookup, in terms of files and index.
  lemma Fetching(disk: Disk, index: Index, s: Store, key: Bytes, now: nat)
    requires Holds(disk, index, s) && Inv(s) && now >= s.clock
    ensures Inv(Touch(s, key, now))
    ensures key !in index ==> key !in View(s, now) && Holds(disk, index, Touch(s, key, now))
    ensures key in index ==>
      var r := disk.files.ReadAt(index[key]);
      && r.Some? && r.value.typ == NORMAL && r.value.key == key
      && (r.value.IsExpired(now) ==> key !in View(s, now) && Holds(disk, index - {key}, Touch(s, key, now)))
      && (!r.value.IsExpired(now) ==>
           key in View(s, now) && View(s, now)[key] == StoredOf(r.value) && Holds(disk, index, Touch(s, key, now)))
  {
    hide Inv, FilesOf, MergeFilesOf, Cat, Flat, View, Read;
    TouchOK(s, key, now);
    FetchedRecord(s, key, now);
    assert disk.files.All() == Flat(s.wal.Blocks()) by {
      FilesOfAll(s.wal);
    }
  }

  lemma FilesOfAll(w: Wal)
    ensures FilesOf(w).All() == Flat(w.Blocks())
  {
    FlatCat(w.segs, 1, w.active);
  }

  // ---------- The database ----------

  datatype MergeError = NoError | ErrDBClosed | ErrMergeRunning

  class DB {
    var disk: Disk
    var index: Index
    var closed: bool
    ghost var st: Store

    /** The fields are those of the state `st`, and `st` satisfies the invariant of all runs. */
    ghost predicate Valid()
      reads this
    {
      Holds(disk, index, st) && Inv(st)
    }

    constructor (cap: nat, now: nat)
      ensures Valid() && st == NewStore(cap, now) && !closed
    {
      disk := Disk(Files(cap, map[1 := []], 1, 0), [], 0, NoDir);
      index, closed := map[], false;
      st := NewStore(cap, now);
      new;
      assert FlatSegs(st.wal.segs) == map[1 := []];
      assert Cat(st.wal.segs, 1, 0) == [];
      assert st.wal.Blocks() == [];
    }

    /** The part that Get, Exist, Expire, TTL and Persist share (batch.go:199-218): look the key up, read
        its record, and drop the index entry if the record has expired. The record is never a delete
        marker, so the panic of batch.go:211-213 is not reached. */
    method Fetch(key: Bytes, now: nat) returns (r: Option<LogRecord>)
      requires Valid() && now >= st.clock
      modifies this`index, this`st
      ensures Valid() && st == Touch(old(st), key, now)
      ensures r.Some? <==> key in View(old(st), now)
      ensures r.Some? ==> r.value.key == key && r.value.typ == NORMAL && StoredOf(r.value) == View(old(st), now)[key]
      ensures r.Some? ==> !r.value.IsExpired(now)
      ensures index == if key in View(old(st), now) then old(index) else old(index) - {key}
    {
      hide Inv, Holds, View, Read, Touch, Files.All;
      Fetching(disk, index, st, key, now);
      ghost var s' := Touch(st, key, now);
      if key !in index {
        st := s';
        return None;
      }
      r := disk.files.ReadAt(index[key]);
      if r.value.typ == DELETED {
        assert false;
      }
      if r.value.IsExpired(now) {
        index := index - {key};
        r := None;
      }
      st := s';
    }

    // ---------- The writing part of Batch.Commit (batch.go:501-524) ----------

    /** The loop that enters a batch into the index, or takes its keys out of it. */
    static method IndexBatch(before: Index, writes: seq<LogRecord>, chunks: seq<Entry>, now: nat) returns (after: Index)
      requires |writes| <= |chunks| && forall i :: 0 <= i < |writes| ==> chunks[i].rec == writes[i]
      ensures after == ApplyOps(before, chunks[..|writes|], now)
    {
      after := before;
      var i := 0;
      while i < |writes|
        invariant 0 <= i <= |writes|
        invariant after == ApplyOps(before, chunks[..i], now)
      {
        var record := writes[i];
        Snoc(chunks[..i], chunks[i]);
        assert chunks[..i + 1] == chunks[..i] + [chunks[i]];
        if record.typ == DELETED || record.IsExpired(now) {
          after := after - {record.key};
        } else {
          after := after[record.key := chunks[i].pos];
        }
        i := i + 1;
      }
    }

    /** The batch's records and its end record go to the log in one piece, then into the index. */
    static method WriteRecords(disk: Disk, index: Index, id: nat, writes: seq<LogRecord>, now: nat, ghost s: Store)
      returns (ok: bool, disk': Disk, index': Index, ghost s': Store)
      requires Holds(disk, index, s) && writes != [] && Stamp(writes, id) == writes
      ensures s' == CommitStep(s, id, writes, now) && Holds(disk', index', s') && CommitSound(s, s', id, writes, now)
      ensures ok <==> Total(writes + [EndRecord(id)]) <= s.wal.cap
      ensures LogInv(s) ==> Grows(s.wal, s'.wal, if ok then writes + [EndRecord(id)] else [])
    {
      hide CommitStep, CommitSound, Files.WriteAll, Holds, ApplyOps, Stamp, EndRecord, Total, LogInv, Grows;
      CommitGrows(s, id, writes, now);
      CommitHolds(disk, index, s, id, writes, now);
      CommitIsSound(s, id, writes, now);
      s' := CommitStep(s, id, writes, now);
      var written := disk.files.WriteAll(writes + [EndRecord(id)]);
      ok, disk', index' := written.Some?, disk, index;
      if ok {
        disk' := disk.(files := written.value.0);
        index' := IndexBatch(index, writes, written.value.1, now);
      }
    }

    method WriteBatch(id: nat, writes: seq<LogRecord>, now: nat) returns (ok: bool)
      requires Holds(disk, index, st) && writes != [] && Stamp(writes, id) == writes
      modifies this`disk, this`index, this`st
      ensures Holds(disk, index, st) && st == CommitStep(old(st), id, writes, now)
      ensures CommitSound(old(st), st, id, writes, now)
      ensures ok <==> Total(writes + [EndRecord(id)]) <= old(st).wal.cap
      ensures LogInv(old(st)) ==> Grows(old(st).wal, st.wal, if ok then writes + [EndRecord(id)] else [])
    {
      hide CommitStep, CommitSound, Holds, Stamp, Grows;
      ok, disk, index, st := WriteRecords(disk, index, id, writes, now, st);
    }

    // ---------- Compaction (merge.go:67-173) ----------

    /** From the lock to the open reader: rotate, and start with an empty merge directory. */
    static method OpenMerge(disk: Disk, now: nat, ghost s: Store) returns (disk': Disk)
      requires disk == DiskOf(s) && !disk.files.IsEmpty() && !disk.merge.Open?
      ensures disk' == DiskOf(MergeStart(s, now))
    {
      StartDisk(s, now);
      AfterStartIs(disk, now);
      hide MergeStart, DiskOf, AfterStart, Cat;
      var prevActiveSegId := disk.files.active;
      var reader := Cat(disk.files.segs, 1, prevActiveSegId);
      disk' := disk.(files := disk.files.Rotate(),
                     merge := Open(prevActiveSegId, now, reader, Files(disk.files.cap, map[1 := []], 1, 0), []));
    }

    static method TryMerge(disk: Disk, index: Index, closed: bool, now: nat, ghost s: Store)
      returns (started: bool, err: MergeError, disk': Disk, ghost s': Store)
      requires Holds(disk, index, s) && Inv(s) && now >= s.clock
      ensures Holds(disk', index, s') && Inv(s') && s' == if closed then s else MergeStart(s, now)
      ensures var empty := s.wal.segs.Keys == {s.wal.active} && Flat(s.wal.Blocks()) == [];
        && (started <==> !closed && !empty && !s.merge.Scanning?)
        && err == (if closed then ErrDBClosed else if !empty && s.merge.Scanning? then ErrMergeRunning else NoError)
      ensures if started then HasStarted(s, s') else s' == if closed then s else s.(clock := now)
    {
      hide Inv, MergeStart, DiskOf, AfterStart, Flat, Cat, HasStarted;
      StartsIf(s, now);
      if closed {
        return false, ErrDBClosed, disk, s;
      }
      MergeStartOK(s, now);
      StartDisk(s, now);
      started, err, disk', s' := false, NoError, disk, MergeStart(s, now);
      if disk.files.IsEmpty() {
        NotStarted(disk, now);
      } else if disk.merge.Open? {
        err := ErrMergeRunning;
        NotStarted(disk, now);
      } else {
        started := true;
        disk' := OpenMerge(disk, now, s);
      }
    }

    method MergeBegin(now: nat) returns (started: bool, err: MergeError)
      requires Valid() && now >= st.clock
      modifies this`disk, this`st
      ensures Valid() && st == if closed then old(st) else MergeStart(old(st), now)
      ensures var empty := old(st).wal.segs.Keys == {old(st).wal.active} && Flat(old(st).wal.Blocks()) == [];
        && (started <==> !closed && !empty && !old(st).merge.Scanning?)
        && err == (if closed then ErrDBClosed else if !empty && old(st).merge.Scanning? then ErrMergeRunning else NoError)
      ensures if started then HasStarted(old(st), st) else st == if closed then old(st) else old(st).(clock := now)
    {
      hide Inv, MergeStart, Holds, HasStarted;
      started, err, disk, st := TryMerge(disk, index, closed, now, st);
    }

    /** The clock reading, after the lock has been released and before the first record is read
        (merge.go:93-117). */
    method MergeReadClock(now: nat)
      requires Valid() && st.merge.Scanning? && st.merge.todo == Flat(Source(st)) && now >= st.clock
      modifies this`disk, this`st
      ensures Valid() && st == MergeClock(old(st), now)
    {
      hide Inv, MergeClock, DiskOf, Source, Flat;
      MergeClockOK(st, now);
      ClockDisk(st, now);
      var m := disk.merge;
      ghost var s' := MergeClock(st, now);
      disk := disk.(merge := Open(m.prevActiveSegId, now, m.reader, m.files, m.hints));
      st := s';
    }

    /** One round of the loop: read a record, and copy it if the index still points at it. */
    static method CopyRecord(m: MergeFiles, index: Index, ghost s: Store) returns (m': MergeFiles)
      requires s.merge.Scanning? && s.merge.todo != [] && m == MergeFilesOf(s.merge) && index == s.index
      ensures m' == MergeFilesOf(MergeStep(s).merge)
    {
      hide Files.Write, MergeFilesOf, MergeStep;
      StepFiles(s);
      var e := m.reader[0];
      m' := m.(reader := m.reader[1..]);
      if e.rec.typ == NORMAL && (e.rec.expire == 0 || e.rec.expire > m.started) {
        if e.rec.key in index && index[e.rec.key] == e.pos {
          var record := e.rec.(batchId := MERGE_FINISHED_BATCH_ID);
          var (files, newPosition) := m.files.Write(record);
          m' := Open(m.prevActiveSegId, m.started, m.reader[1..], files, m.hints + [Hint(record.key, newPosition)]);
        }
      }
    }

    static method NextRecord(disk: Disk, index: Index, ghost s: Store) returns (disk': Disk, ghost s': Store)
      requires Holds(disk, index, s) && Inv(s) && s.merge.Scanning? && s.merge.todo != []
      ensures Holds(disk', index, s') && Inv(s') && s' == MergeStep(s)
    {
      hide Inv, MergeStep, MergeFilesOf, FilesOf;
      MergeStepOK(s);
      StepRest(s);
      s' := MergeStep(s);
      var m := CopyRecord(disk.merge, index, s);
      disk' := disk.(merge := m);
    }

    method MergeNext()
      requires Valid() && st.merge.Scanning? && st.merge.todo != []
      modifies this`disk, this`st
      ensures Valid() && st == MergeStep(old(st))
    {
      hide Inv, MergeStep, Holds;
      disk, st := NextRecord(disk, index, st);
    }

    /** MERGEFIN is written. */
    static method FinishFiles(disk: Disk, index: Index, ghost s: Store) returns (disk': Disk, ghost s': Store)
      requires Holds(disk, index, s) && Inv(s) && s.merge.Scanning? && s.merge.todo == []
      ensures Holds(disk', index, s') && Inv(s') && s' == MergeFinish(s)
    {
      hide Inv, FilesOf;
      MergeFinishOK(s);
      s' := MergeFinish(s);
      disk' := disk.(merge := Complete(disk.merge.prevActiveSegId, disk.merge.started, disk.merge.files, disk.merge.hints));
    }

    method MergeEnd()
      requires Valid() && st.merge.Scanning? && st.merge.todo == []
      modifies this`disk, this`st
      ensures Valid() && st == MergeFinish(old(st))
    {
      hide Inv, MergeFinish, Holds;
      disk, st := FinishFiles(disk, index, st);
    }

    /** doMerge, when nothing else happens meanwhile: rotation at `now`, clock reading at `started`. */
    method DoMerge(now: nat, started: nat) returns (err: MergeError)
      requires Valid() && started >= now >= st.clock
      modifies this`disk, this`st
      ensures Valid()
      ensures var empty := old(st).wal.segs.Keys == {old(st).wal.active} && Flat(old(st).wal.Blocks()) == [];
        && err == (if closed then ErrDBClosed else if !empty && old(st).merge.Scanning? then ErrMergeRunning else NoError)
        && (if closed || empty || old(st).merge.Scanning? then st == if closed then old(st) else old(st).(clock := now)
            else st.merge.Finished? && st.merge.upTo == old(st).wal.active && st.wal.Blocks() == old(st).wal.Blocks())
      ensures !closed && !old(st).wal.IsEmpty() && !old(st).merge.Scanning? ==> st == MergeWhole(old(st), now, started)
    {
      hide Inv, MergeStep, MergeStart, MergeWhole, HasStarted, FilesOf, Flat, Cat, Source;
      StartsIf(st, now);
      var begun;
      begun, err := MergeBegin(now);
      if !begun {
        return;
      }
      WholeIs(old(st), now, started);
      StartReads(old(st), now);
      MergeReadClock(started);
      ghost var s0 := st;
      while disk.merge.reader != []
        invariant Valid() && st.merge.Scanning?
        invariant ScanAll(st) == ScanAll(s0)
        decreases |disk.merge.reader|
      {
        StepShrinks(st);
        MergeNext();
      }
      MergeEnd();
    }

    // ---------- Opening (merge.go:231-298, merge.go:322-355, db.go:674-742) ----------

    /** The loop of loadMergeFiles (merge.go:270-289): remove each old segment file, and rename the
        output file over it unless that is missing or empty. */
    static method MoveSegments(segs: map<nat, seq<Entry>>, out: map<nat, seq<Entry>>, mergeFinSegmentId: nat)
      returns (moved: map<nat, seq<Entry>>)
      requires 0 !in segs
      ensures moved == Splice(segs, out, mergeFinSegmentId)
    {
      hide Splice;
      SpliceStart(segs, out);
      moved := segs;
      for fileId := 1 to mergeFinSegmentId + 1
        invariant moved == Splice(segs, out, fileId - 1)
      {
        SpliceNext(segs, out, fileId);
        moved := moved - {fileId};
        if fileId in out && out[fileId] != [] {
          moved := moved[fileId := out[fileId]];
        }
      }
    }

    /** loadMergeFiles: the segment files, then MERGEFIN and HINT; a HINT file is moved even without
        a MERGEFIN. */
    method LoadMergeFiles()
      requires Valid()
      modifies this`disk
      ensures disk == DiskOf(LoadMerge(st))
    {
      hide StrayOK, Cat, Flat, FlatSegs, Splice, IndexOK, BlocksOK, HintOK, Spaced;
      var d := disk;
      match d.merge {
        case NoDir =>
        case Open(_, _, _, _, hints) =>
          d := d.(hint := hints, merge := NoDir);
        case Complete(mergeFinSegmentId, _, files, hints) =>
          FilesSplice(st);
          NoSegmentZero(st.wal);
          var segs := MoveSegments(d.files.segs, files.segs, mergeFinSegmentId);
          d := Disk(d.files.(segs := segs), hints, mergeFinSegmentId, NoDir);
      }
      disk := d;
    }

    /** loadIndexFromHintFile. */
    static method LoadIndexFromHintFile(hintFile: seq<Hint>) returns (index: Index)
      ensures index == HintMap(hintFile)
    {
      index := map[];
      var i := 0;
      while i < |hintFile|
        invariant 0 <= i <= |hintFile|
        invariant index == HintMap(hintFile[..i])
      {
        Snoc(hintFile[..i], hintFile[i]);
        assert hintFile[..i + 1] == hintFile[..i] + [hintFile[i]];
        index := index[hintFile[i].key := hintFile[i].pos];
        i := i + 1;
      }
      assert hintFile[..i] == hintFile;
    }

    /** The flush of a finished batch's buffered records (db.go:710-717). */
    static method FlushBatch(before: Index, records: seq<IndexRecord>) returns (index: Index)
      ensures index == Flush(before, records)
    {
      index := before;
      var i := 0;
      while i < |records|
        invariant 0 <= i <= |records|
        invariant index == Flush(before, records[..i])
      {
        Snoc(records[..i], records[i]);
        assert records[..i + 1] == records[..i] + [records[i]];
        if records[i].typ == NORMAL {
          index := index[records[i].key := records[i].pos];
        }
        if records[i].typ == DELETED {
          index := index - {records[i].key};
        }
        i := i + 1;
      }
      assert records[..i] == records;
    }

    /** The inner loop of loadIndexFromWAL: the records of one segment (db.go:693-738). */
    static method ReadSegment(before: Recovery, file: seq<Entry>, now: nat) returns (after: Recovery)
      ensures after == Recover(before, file, now)
    {
      var index: Index, pending: Pending := before.index, before.pending;
      var i := 0;
      while i < |file|
        invariant 0 <= i <= |file|
        invariant Recovery(index, pending) == Recover(before, file[..i], now)
      {
        Snoc(file[..i], file[i]);
        assert file[..i + 1] == file[..i] + [file[i]];
        var record, position := file[i].rec, file[i].pos;
        if record.typ == BATCH_FINISHED {
          var batchId := ParseDecimal(record.key);
          index := FlushBatch(index, Buffered(pending, batchId));
          pending := pending - {batchId};
        } else if record.typ == NORMAL && record.batchId == MERGE_FINISHED_BATCH_ID {
          index := index[record.key := position];
        } else if record.IsExpired(now) {
          index := index - {record.key};
        } else {
          var indexRecord := IndexRecord(record.key, record.typ, position);
          pending := pending[record.batchId := Buffered(pending, record.batchId) + [indexRecord]];
        }
        i := i + 1;
      }
      assert file[..i] == file;
      after := Recovery(index, pending);
    }

    /** loadIndexFromWAL: read segment after segment, skipping those up to MERGEFIN. */
    static method LoadIndexFromWAL(hinted: Index, files: Files, mergeFin: nat, now: nat) returns (index: Index)
      ensures index == Recover(Recovery(hinted, map[]), Cat(files.segs, mergeFin + 1, files.active), now).index
    {
      var start := Recovery(hinted, map[]);
      var r := start;
      var segmentId := 1;
      while segmentId <= files.active
        invariant 1 <= segmentId <= files.active + 1
        invariant r == Recover(start, Cat(files.segs, mergeFin + 1, segmentId - 1), now)
      {
        if segmentId > mergeFin {
          var file := Segment(files.segs, segmentId);
          r := ReadSegment(r, file, now);
          RecoverAppend(start, Cat(files.segs, mergeFin + 1, segmentId - 1), file, now);
        }
        segmentId := segmentId + 1;
      }
      index := r.index;
    }

    /** loadIndex: a new index from the HINT file and from the log (db.go:171-181, merge.go:57-62). */
    method LoadIndex(now: nat)
      modifies this`index
      ensures index == IndexOfDisk(disk, now)
    {
      hide Recover, Cat, HintMap;
      var hinted := LoadIndexFromHintFile(disk.hint);
      index := LoadIndexFromWAL(hinted, disk.files, disk.fin, now);
    }

    /** Close, which waits for a running merge (db.go:193-195). */
    method Close()
      requires Valid() && !st.merge.Scanning?
      modifies this`closed
      ensures Valid() && closed
    {
      closed := true;
    }

    /** Open, after Close or a crash, or the second half of Merge(true) (merge.go:40-64): the merge output
        replaces the old files, the index is built afresh, and the database is open. Readers notice nothing
        exactly if the opening is unnoticed, and the database is in order again exactly if it is safe. */
    method Restart(now: nat)
      requires Valid() && now >= st.clock
      modifies this`disk, this`index, this`closed, this`st
      ensures Holds(disk, index, st) && st == Reopen(old(st), now) && !closed
      ensures st.merge.NoMerge? && st.fin == if old(st).merge.Finished? then old(st).merge.upTo else old(st).fin
      ensures st.hint == if old(st).merge.NoMerge? then old(st).hint else old(st).merge.hints
      ensures Unnoticed(old(st), now) <==> ViewsKept(old(st), st, now)
      ensures Safe(old(st), now) <==> Valid() && ViewsKept(old(st), st, now)
    {
      hide Inv, Safe, Unnoticed, ViewsKept, View, Reopen, LoadMerge, IndexOfDisk, DiskOf;
      ReopenFiles(st, now);
      ReopenExact(st, now);
      SafeExact(st, now);
      RestartHolds(st, now);
      LoadMergeFiles();
      LoadIndex(now);
      closed, st := false, Reopen(st, now);
    }
  }

  lemma ReopenFiles(s: Store, now: nat)
    ensures var s' := Reopen(s, now);
            && s'.merge.NoMerge? && s'.fin == (if s.merge.Finished? then s.merge.upTo else s.fin)
            && s'.hint == if s.merge.NoMerge? then s.hint else s.merge.hints
  {
    hide Recover, Splice;
  }

  lemma RestartHolds(s: Store, now: nat)
    ensures DiskOf(Reopen(s, now)) == DiskOf(LoadMerge(s))
    ensures Reopen(s, now).index == IndexOfDisk(DiskOf(LoadMerge(s)), now)
  {
    hide Recover;
    var s1 := LoadMerge(s);
    assert s1.merge.NoMerge?;
    hide LoadMerge;
    FlatCat(s1.wal.segs, s1.fin + 1, s1.wal.active);
  }

  function IndexOfDisk(d: Disk, now: nat): Index {
    Recover(Recovery(HintMap(d.hint), map[]), Cat(d.files.segs, d.fin + 1, d.files.active), now).index
  }

  lemma NoSegmentZero(w: Wal)
    requires WalOK(w)
    ensures 0 !in FlatSegs(w.segs)
  {
  }

  lemma SpliceStart(segs: map<nat, seq<Entry>>, out: map<nat, seq<Entry>>)
    requires 0 !in segs
    ensures Splice(segs, out, 0) == segs
  {
  }

  lemma SpliceNext(segs: map<nat, seq<Entry>>, out: map<nat, seq<Entry>>, id: nat)
    requires id >= 1
    ensures Splice(segs, out, id)
         == if Segment(out, id) != [] then (Splice(segs, out, id - 1) - {id})[id := out[id]]
            else Splice(segs, out, id - 1) - {id}
  {
  }

  // Moving segment files and moving their blocks is the same.
  lemma FilesSplice(s: Store)
    requires Inv(s) && s.merge.Finished?
    ensures Splice(FlatSegs(s.wal.segs), FlatSegs(s.merge.out.segs), s.merge.upTo) == FlatSegs(LoadMerge(s).wal.segs)
  {
    hide Scanned, Spaced;
    var read := ReadOf(s);
    OutputOK(s, read);
    hide Inv;
    SpliceFlat(s.wal.segs, s.merge.out, s.merge.upTo);
  }

  lemma SpliceFlat(segs: map<nat, seq<Block>>, out: Wal, upTo: nat)
    requires WalOK(out) && AllMerged(out.Blocks())
    ensures Splice(FlatSegs(segs), FlatSegs(out.segs), upTo) == FlatSegs(Splice(segs, out.segs, upTo))
  {
    forall id | id in out.segs ensures Flat(out.segs[id]) != [] <==> out.segs[id] != [] {
      if out.segs[id] != [] {
        var b := Last(out.segs[id]);
        CatHas(out.segs, 1, out.active, id, b);
        assert Entries(b) != [];
      }
    }
    hide WalOK, AllMerged, Flat, Cat;
    SpliceOfFlat(segs, out.segs, upTo);
  }

  lemma SpliceOfFlat(segs: map<nat, seq<Block>>, out: map<nat, seq<Block>>, upTo: nat)
    requires forall id :: id in out ==> (Flat(out[id]) != [] <==> out[id] != [])
    ensures Splice(FlatSegs(segs), FlatSegs(out), upTo) == FlatSegs(Splice(segs, out, upTo))
  {
    hide Flat;
    var a, b := Splice(FlatSegs(segs), FlatSegs(out), upTo), FlatSegs(Splice(segs, out, upTo));
    assert a.Keys == b.Keys;
  }

  lemma {:induction false} CatHas<T>(segs: map<nat, seq<T>>, lo: nat, hi: nat, id: nat, x: T)
    requires 1 <= lo <= id <= hi && id in segs && x in segs[id]
    ensures x in Cat(segs, lo, hi)
    decreases hi
  {
    if id < hi {
      CatHas(segs, lo, hi - 1, id, x);
    }
  }
}
