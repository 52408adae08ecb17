/** The steps of a merge (merge.go:67-173), each of which may be interleaved with any other step. */
module Merging {
  import opened Record
  import opened Seqs
  import opened Log
  import opened Visibility
  import opened Wal
  import opened Store
  import opened Hints
  import opened Recovering
  import opened Committing

  // ---------- Start ----------

  lemma MergeStartOK(s: Store, now: nat)
    requires Inv(s) && now >= s.clock
    ensures Inv(MergeStart(s, now)) && MergeStart(s, now).wal.Blocks() == s.wal.Blocks()
  {
    if s.wal.IsEmpty() || s.merge.Scanning? {
      Ticked(s, now);
    } else {
      RotateOK(s.wal);
      Rotated(s, now);
    }
  }

  lemma Rotated(s: Store, now: nat)
    requires Inv(s) && now >= s.clock && !s.wal.IsEmpty() && !s.merge.Scanning?
    requires WalOK(s.wal.Rotate()) && s.wal.Rotate().Blocks() == s.wal.Blocks()
    ensures Inv(MergeStart(s, now))
  {
    hide BlocksOK, MergeInv, HintOK, Cat, Newest, IndexOK;
    RotatedHints(s, now);
    RotatedMerge(s, now);
    IndexOKLater(s.index, Newest(s.wal.Blocks()), s.clock, now);
    hide WalOK;
  }

  lemma RotatedHints(s: Store, now: nat)
    requires HintOK(s) && now >= s.clock && !s.wal.IsEmpty() && !s.merge.Scanning?
    ensures HintOK(MergeStart(s, now))
  {
    hide Cat, HintsStandFor, HintMap, AllMerged, ReplayedPart;
    var s' := MergeStart(s, now);
    StandsLater(HintMap(s.hint), MergedPart(s), ReplayedPart(s), s.clock, now);
    RotatedSuffix(s, s');
    CatFrame(s'.wal.segs, s.wal.segs, 1, s.fin);
  }

  lemma RotatedMerge(s: Store, now: nat)
    requires s.wal.active >= 1 && !s.wal.IsEmpty() && !s.merge.Scanning?
    ensures MergeInv(MergeStart(s, now))
  {
    var s' := MergeStart(s, now);
    hide Flat, MergeOK, Cat;
    CatFrame(s'.wal.segs, s.wal.segs, 1, s.wal.active);
    EmptyMerge(Source(s'), s.index, now, s.wal.cap);
    assert [] + s'.merge.todo == Flat(Source(s'));
    assert Scanned(s', []);
  }

  lemma RotatedSuffix(s: Store, s': Store)
    requires s'.wal == s.wal.Rotate() && s'.fin == s.fin < s.wal.active
    ensures ReplayedPart(s') == ReplayedPart(s)
  {
    CatFrame(s'.wal.segs, s.wal.segs, s.fin + 1, s.wal.active);
    assert ReplayedPart(s') == Cat(s'.wal.segs, s.fin + 1, s.wal.active) + [];
  }

  lemma EmptyMerge(src: seq<Block>, index: Index, now: nat, cap: nat)
    ensures MergeOK(src, [], index, now, NewWal(cap), [])
  {
    hide WalOK, NothingMissed, CopiesOK, CopyOK, Wanted, Cost;
    NewWalOK(cap);
    NothingYet(Newest(src), index, now);
  }

  lemma NewWalOK(cap: nat)
    ensures WalOK(NewWal(cap)) && NewWal(cap).Blocks() == []
  {
    assert Cat(NewWal(cap).segs, 1, 0) == [];
    assert Cat(NewWal(cap).segs, 1, 1) == [];
  }

  lemma NothingYet(src: map<Bytes, Entry>, index: Index, now: nat)
    ensures CopiesOK(src, [], map[], now) && NothingMissed(src, [], map[], index, now)
  {
  }

  /** Reading the clock, before the first record is read. */
  lemma MergeClockOK(s: Store, now: nat)
    requires Inv(s) && s.merge.Scanning? && s.merge.todo == Flat(Source(s)) && now >= s.clock
    ensures Inv(MergeClock(s, now))
  {
    var s1 := s.(clock := now);
    Ticked(s, now);
    var read := ReadOf(s1);
    assert |read + s.merge.todo| == |Flat(Source(s))|;
    assert read == [];
    NothingRead(Source(s), s.index, s.merge.started, now, s.merge.out, s.merge.hints);
    hide LogInv, IndexOK, HintOK, MergeOK, Cat, Flat;
    assert Scanned(MergeClock(s, now), []);
  }

  lemma NothingRead(src: seq<Block>, index: Index, started: nat, now: nat, out: Wal, hints: seq<Hint>)
    requires MergeOK(src, [], index, started, out, hints)
    ensures MergeOK(src, [], index, now, out, hints)
  {
    hide WalOK, AllMerged, KeysDistinct, Newest, HintMap, Replay, AtMost;
    forall k ensures k !in Newest(out.Blocks()) {
      assert k in Newest(out.Blocks()) ==> CopyOK(Newest(src), [], Newest(out.Blocks())[k].rec, started, k);
    }
  }

  // ---------- One round of the loop ----------

  /** The index test of merge.go:134: a record the index points at is the newest of its key in the
      merge's source, and it has not been copied yet. */
  lemma PointedAt(s: Store, read: seq<Entry>, e: Entry)
    requires Inv(s) && s.merge.Scanning? && s.merge.todo != [] && Scanned(s, read) && e == s.merge.todo[0]
    requires e.rec.key in s.index && s.index[e.rec.key] == e.pos
    ensures e.rec.key in Newest(Source(s)) && Newest(Source(s))[e.rec.key] == e
  {
    hide WalOK, Spaced, Cat, Flat, Newest, IndexOK, HintOK, Scanned, BlocksOK;
    var k, all := e.rec.key, s.wal.Blocks();
    SourceOK(s);
    SpacedWal(s.wal);
    FlatAppend(Source(s), Tail(s));
    NewestAppend(Source(s), Tail(s));
    NextInSource(s, read, e);
    var d := IndexedEntry(s, k);
    OneAtEachPosition(Flat(all), d, e);
    SourceAndTail(s, k);
  }

  lemma NextInSource(s: Store, read: seq<Entry>, e: Entry)
    requires WalOK(s.wal) && s.merge.Scanning? && s.merge.todo != [] && Scanned(s, read) && e == s.merge.todo[0]
    ensures e in Flat(Source(s)) && e.pos.seg <= s.merge.upTo
  {
    hide WalOK, MergeOK, Flat, Cat;
    assert Flat(Source(s))[|read|] == e;
    EntriesWithin(s.wal, 1, s.merge.upTo, e);
  }

  /** An index entry is the position of a record in the log, the newest of its key. */
  lemma IndexedEntry(s: Store, k: Bytes) returns (e: Entry)
    requires LogInv(s) && IndexOK(s.index, Newest(s.wal.Blocks()), s.clock) && k in s.index
    ensures e in Flat(s.wal.Blocks()) && e.pos == s.index[k]
    ensures k in Newest(s.wal.Blocks()) && e == Newest(s.wal.Blocks())[k]
  {
    hide WalOK, Newest, Flat, Cat;
    e := Newest(s.wal.Blocks())[k];
    NewestIn(s.wal.Blocks(), k);
  }

  lemma NotYetRead(s: Store, read: seq<Entry>, e: Entry)
    requires WalOK(s.wal) && s.merge.Scanning? && s.merge.todo != [] && Scanned(s, read) && e == s.merge.todo[0]
    requires s.merge.upTo < s.wal.active
    ensures e !in read && (forall i :: 0 <= i < |read| ==> AtMost(End(read[i]), e.pos))
    ensures EntryOK(s.wal, e.pos.seg, e) && 1 <= e.pos.seg <= s.merge.upTo
  {
    hide WalOK, Cat, MergeOK, Flat;
    CatSplit(s.wal.segs, 1, s.merge.upTo, s.wal.active);
    FlatAppend(Source(s), Tail(s));
    SpacedWal(s.wal);
    SpacedParts(Flat(Source(s)), Flat(Tail(s)));
    var f := Flat(Source(s));
    assert f[|read|] == e;
    EntriesWithin(s.wal, 1, s.merge.upTo, e);
    forall i | 0 <= i < |read| ensures AtMost(End(read[i]), e.pos) {
      assert f[i] == read[i];
    }
  }

  /** Merged output fits: a copy is never longer than the record it copies, and filling segments
      greedily with a subsequence never gets ahead of the source. So every output segment has an id
      of at most `upTo`, the only ids that loadMergeFiles moves (merge.go:270-289). */
  lemma WriteFits(out: Wal, read: seq<Entry>, e: Entry, size: nat)
    requires size <= Cost(e.rec) && e.pos.seg >= 1 && End(e).off <= out.cap
    requires AtMost(out.Frontier(), ReadUpTo(read))
    requires forall i :: 0 <= i < |read| ==> AtMost(End(read[i]), e.pos)
    ensures out.MakeRoom(size).fill + size <= out.cap
    ensures AtMost(Pos(out.MakeRoom(size).active, out.MakeRoom(size).fill + size), End(e))
  {
    hide Cost;
    if read != [] {
      assert AtMost(End(read[|read| - 1]), e.pos);
    }
  }

  lemma CopyCost(r: LogRecord)
    ensures Cost(Cleared(r)) <= Cost(r)
  {
    Codec.ClearedIdNeverLonger(r);
  }

  lemma MergeWriteOK(out: Wal, r: LogRecord)
    requires WalOK(out) && out.MakeRoom(Cost(r)).fill + Cost(r) <= out.cap
    ensures var w := out.MakeRoom(Cost(r));
            && WalOK(MergeWrite(out, r))
            && MergeWrite(out, r).Blocks() == out.Blocks() + [Merged(Entry(w.Frontier(), r))]
            && MergeWrite(out, r).Frontier() == Pos(w.active, w.fill + Cost(r))
            && MergeWrite(out, r).cap == out.cap
  {
    hide Spaced, Cat, Flat, Cost;
    var w := out.MakeRoom(Cost(r));
    if out.fill + Cost(r) > out.cap {
      RotateOK(out);
    }
    assert Init([r]) == [];
    assert Total([r]) == Cost(r);
    assert Place([r], w.active, w.fill) == [Entry(w.Frontier(), r)];
    AppendOK(w, Merged(Entry(w.Frontier(), r)), [r]);
  }

  lemma MergeStepOK(s: Store)
    requires Inv(s) && s.merge.Scanning? && s.merge.todo != []
    ensures Inv(MergeStep(s)) && MergeStep(s).wal == s.wal && MergeStep(s).index == s.index
  {
    hide WalOK, BlocksOK, IndexOK, HintOK, Scanned, MergeStep, Newest, Flat, Cat;
    StepFrame(s);
    var e := s.merge.todo[0];
    var read := ReadOf(s);
    NotYetRead(s, read, e);
    SourceOK(s);
    if e.rec.key in s.index && s.index[e.rec.key] == e.pos {
      PointedAt(s, read, e);
    }
    MergeRound(s, read, e);
    MergeGoesOn(s, MergeStep(s), read + [e]);
  }

  // What a round leaves alone.
  lemma StepFrame(s: Store)
    requires s.merge.Scanning? && s.merge.todo != []
    ensures var s' := MergeStep(s);
            && s' == s.(merge := s'.merge) && s'.merge.Scanning?
            && s'.merge.upTo == s.merge.upTo && s'.merge.started == s.merge.started
  {
    hide MergeWrite, Cost;
  }

  lemma MergeGoesOn(s: Store, s': Store, read: seq<Entry>)
    requires Inv(s) && !s.merge.NoMerge? && s' == s.(merge := s'.merge) && !s'.merge.NoMerge?
    requires s'.merge.upTo == s.merge.upTo && s'.merge.started == s.merge.started && s'.merge.out.cap == s.merge.out.cap
    requires Scanned(s', read)
    ensures Inv(s')
  {
    hide WalOK, Spaced, Cat, BlocksOK, Flat, IndexOK, MergeOK, Newest, Replay, HintMap, HintsStandFor;
  }

  lemma SourceOK(s: Store)
    requires LogInv(s) && !s.merge.NoMerge? && s.merge.upTo <= s.wal.active
    ensures BlocksOK(Source(s)) && BlocksOK(Tail(s)) && s.wal.Blocks() == Source(s) + Tail(s)
  {
    CatSplit(s.wal.segs, 1, s.merge.upTo, s.wal.active);
    PartsOK(Source(s), Tail(s));
  }

  lemma MergeRound(s: Store, read: seq<Entry>, e: Entry)
    requires s.merge.Scanning? && s.merge.todo != [] && Scanned(s, read) && e == s.merge.todo[0]
    requires BlocksOK(Source(s)) && e !in read && s.merge.out.cap == s.wal.cap
    requires forall i :: 0 <= i < |read| ==> AtMost(End(read[i]), e.pos)
    requires EntryOK(s.wal, e.pos.seg, e) && 1 <= e.pos.seg
    requires e.rec.key in s.index && s.index[e.rec.key] == e.pos
      ==> e.rec.key in Newest(Source(s)) && Newest(Source(s))[e.rec.key] == e
    ensures Scanned(MergeStep(s), read + [e]) && MergeStep(s).merge.out.cap == s.wal.cap
  {
    hide Spaced, Cat, BlocksOK, Flat, MergeOK, Newest, AtMost, Cost;
    assert read + s.merge.todo == (read + [e]) + s.merge.todo[1..];
    if Mergeable(e.rec, s.merge.started) && e.rec.key in s.index && s.index[e.rec.key] == e.pos {
      CopyStep(s, Source(s), read, e);
    } else {
      SkipStep(s, Source(s), read, e);
    }
  }

  lemma SkipStep(s: Store, src: seq<Block>, read: seq<Entry>, e: Entry)
    requires s.merge.Scanning? && BlocksOK(src)
    requires MergeOK(src, read, s.index, s.merge.started, s.merge.out, s.merge.hints)
    requires !(Mergeable(e.rec, s.merge.started) && e.rec.key in s.index && s.index[e.rec.key] == e.pos)
    requires forall i :: 0 <= i < |read| ==> AtMost(End(read[i]), e.pos)
    requires e.pos.seg >= 1
    ensures MergeOK(src, read + [e], s.index, s.merge.started, s.merge.out, s.merge.hints)
  {
    hide WalOK, BlocksOK, KeysDistinct, AllMerged, Cat, HintMap, Replay;
    var latest, copies, read' := Newest(src), Newest(s.merge.out.Blocks()), read + [e];
    Farther(s.merge.out.Frontier(), read, e);
    forall k | k in s.index && Wanted(latest, read', s.index, s.merge.started, k) ensures k in copies {
      NewestIn(src, k);
      assert latest[k] != e;
      assert latest[k] in read;
      assert Wanted(latest, read, s.index, s.merge.started, k);
    }
    CopiesKept(latest, read, e, copies, s.merge.started);
  }

  lemma Farther(p: Pos, read: seq<Entry>, e: Entry)
    requires AtMost(p, ReadUpTo(read)) && e.pos.seg >= 1
    requires forall i :: 0 <= i < |read| ==> AtMost(End(read[i]), e.pos)
    ensures AtMost(p, ReadUpTo(read + [e]))
  {
    hide Cost;
    Snoc(read, e);
    if read != [] {
      assert AtMost(End(read[|read| - 1]), e.pos);
    }
  }

  lemma CopiesKept(latest: map<Bytes, Entry>, read: seq<Entry>, e: Entry, copies: map<Bytes, Entry>, started: nat)
    requires CopiesOK(latest, read, copies, started)
    ensures CopiesOK(latest, read + [e], copies, started)
  {
    forall k | k in copies ensures CopyOK(latest, read + [e], copies[k].rec, started, k) {
      assert CopyOK(latest, read, copies[k].rec, started, k);
    }
  }

  lemma CopyStep(s: Store, src: seq<Block>, read: seq<Entry>, e: Entry)
    requires s.merge.Scanning? && BlocksOK(src) && Mergeable(e.rec, s.merge.started)
    requires MergeOK(src, read, s.index, s.merge.started, s.merge.out, s.merge.hints)
    requires e.rec.key in Newest(src) && Newest(src)[e.rec.key] == e && e !in read
    requires forall i :: 0 <= i < |read| ==> AtMost(End(read[i]), e.pos)
    requires e.pos.seg >= 1 && End(e).off <= s.merge.out.cap
    ensures var r := Cleared(e.rec);
            MergeOK(src, read + [e], s.index, s.merge.started, MergeWrite(s.merge.out, r),
                    s.merge.hints + [Hint(r.key, s.merge.out.MakeRoom(Cost(r)).Frontier())])
  {
    hide WalOK, BlocksOK, Cat, Cost, AtMost, KeysDistinct, CopiesOK, NothingMissed;
    hide HintMap, Replay, Newest, AllMerged, MergeWrite;
    var r, out := Cleared(e.rec), s.merge.out;
    var b := Merged(Entry(out.MakeRoom(Cost(r)).Frontier(), r));
    CopyCost(e.rec);
    AllMergedGrows(out.Blocks(), b);
    WriteFits(out, read, e, Cost(r));
    MergeWriteOK(out, r);
    HintsGrow(s.merge.hints, out.Blocks(), b.e);
    Snoc(read, e);
    NewestGrow(out.Blocks(), b);
    CopyAdded(Newest(src), read, e, Newest(out.Blocks()), b.e, s.merge.started);
    CopyFound(src, read, e, Newest(out.Blocks()), b.e, s.index, s.merge.started);
    NewKeyDistinct(out.Blocks(), b);
  }

  lemma AllMergedGrows(bs: seq<Block>, b: Block)
    requires AllMerged(bs) && b.Merged? && BlockOK(b)
    ensures AllMerged(bs + [b])
  {
  }

  // The hint written for a copy is the index entry that reading the copy would make.
  lemma HintsGrow(hints: seq<Hint>, bs: seq<Block>, c: Entry)
    requires HintMap(hints) == Replay(map[], bs, 0)
    ensures HintMap(hints + [Hint(c.rec.key, c.pos)]) == Replay(map[], bs + [Merged(c)], 0)
  {
    Snoc(hints, Hint(c.rec.key, c.pos));
    Snoc(bs, Merged(c));
  }

  lemma CopyIsRead(latest: map<Bytes, Entry>, read: seq<Entry>, copies: map<Bytes, Entry>, started: nat, k: Bytes)
    requires CopiesOK(latest, read, copies, started)
    ensures k in copies ==> k in latest && latest[k] in read
  {
    if k in copies {
      assert CopyOK(latest, read, copies[k].rec, started, k);
    }
  }

  lemma CopyAdded(latest: map<Bytes, Entry>, read: seq<Entry>, e: Entry, copies: map<Bytes, Entry>, c: Entry,
                  started: nat)
    requires CopiesOK(latest, read, copies, started) && c.rec == Cleared(e.rec) && Mergeable(e.rec, started)
    requires e.rec.key in latest && latest[e.rec.key] == e && e !in read
    ensures e.rec.key !in copies && CopiesOK(latest, read + [e], copies + map[e.rec.key := c], started)
  {
    CopyIsRead(latest, read, copies, started, e.rec.key);
    forall j | j in copies + map[e.rec.key := c]
      ensures CopyOK(latest, read + [e], (copies + map[e.rec.key := c])[j].rec, started, j)
    {
      if j != e.rec.key { assert CopyOK(latest, read, copies[j].rec, started, j); }
    }
  }

  lemma CopyFound(src: seq<Block>, read: seq<Entry>, e: Entry, copies: map<Bytes, Entry>, c: Entry, index: Index,
                  started: nat)
    requires BlocksOK(src) && NothingMissed(Newest(src), read, copies, index, started)
    ensures NothingMissed(Newest(src), read + [e], copies + map[e.rec.key := c], index, started)
  {
    var latest := Newest(src);
    forall j | j in index && Wanted(latest, read + [e], index, started, j) ensures j in copies + map[e.rec.key := c] {
      NewestIn(src, j);
      if latest[j] != e {
        assert Wanted(latest, read, index, started, j);
      }
    }
  }

  lemma NewKeyDistinct(bs: seq<Block>, b: Block)
    requires KeysDistinct(bs) && AllMerged(bs) && b.Merged? && b.e.rec.key !in Newest(bs)
    ensures KeysDistinct(bs + [b])
  {
    forall i | 0 <= i < |bs| ensures bs[i].e.rec.key != b.e.rec.key {
      KeyInNewest(bs, i);
    }
  }

  lemma {:induction false} KeyInNewest(bs: seq<Block>, i: nat)
    requires i < |bs| && AllMerged(bs)
    ensures bs[i].e.rec.key in Newest(bs)
  {
    if i < |bs| - 1 {
      assert Init(bs)[i] == bs[i];
      KeyInNewest(Init(bs), i);
    }
  }

  // ---------- Finish ----------

  lemma MergeFinishOK(s: Store)
    requires Inv(s) && s.merge.Scanning? && s.merge.todo == []
    ensures Inv(MergeFinish(s)) && MergeFinish(s).wal == s.wal && MergeFinish(s).index == s.index
  {
    var read := ReadOf(s);
    assert read + [] == read;
    MergeGoesOn(s, MergeFinish(s), read);
  }

  /** Without its directory a merge has never been: the invariant holds, and all can be read. */
  lemma AbandonOK(s: Store)
    requires Inv(s)
    ensures Inv(AbandonMerge(s)) && AbandonMerge(s).wal == s.wal && AbandonMerge(s).clock == s.clock
    ensures forall t :: View(AbandonMerge(s), t) == View(s, t)
  {
    hide WalOK, BlocksOK, IndexOK, HintsStandFor, HintMap, AllMerged, Cat, Flat;
  }
}
