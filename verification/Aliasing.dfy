/** A run after which a key reads another key's record: put two keys, merge, reopen, put the first one again,
    start a second merge, crash when the second key has been copied, reopen. */
module Aliasing {
  import opened Record
  import opened Seqs
  import opened Log
  import opened Visibility
  import opened Wal
  import opened Store
  import opened Compaction

  // ---------- Small logs ----------

  lemma PlaceSnoc(rs: seq<LogRecord>, r: LogRecord, seg: nat, off: nat)
    ensures Place(rs + [r], seg, off) == Place(rs, seg, off) + [Entry(Pos(seg, off + Total(rs)), r)]
    ensures Total(rs + [r]) == Total(rs) + Cost(r)
  {
    hide Cost;
    Snoc(rs, r);
  }

  lemma PlaceOne(r: LogRecord, seg: nat, off: nat)
    ensures Place([r], seg, off) == [Entry(Pos(seg, off), r)] && Total([r]) == Cost(r)
  {
    hide Cost;
    assert Init([r]) == [];
    assert [] + [Entry(Pos(seg, off), r)] == [Entry(Pos(seg, off), r)];
  }

  lemma PlaceTwo(x: LogRecord, y: LogRecord, seg: nat, off: nat)
    ensures Place([x, y], seg, off) == [Entry(Pos(seg, off), x), Entry(Pos(seg, off + Cost(x)), y)]
    ensures Total([x, y]) == Cost(x) + Cost(y)
  {
    hide Cost;
    PlaceOne(x, seg, off);
    PlaceSnoc([x], y, seg, off);
    assert [x] + [y] == [x, y];
  }

  lemma PlaceThree(x: LogRecord, y: LogRecord, z: LogRecord, seg: nat, off: nat)
    ensures Place([x, y, z], seg, off)
         == [Entry(Pos(seg, off), x), Entry(Pos(seg, off + Cost(x)), y), Entry(Pos(seg, off + Cost(x) + Cost(y)), z)]
    ensures Total([x, y, z]) == Cost(x) + Cost(y) + Cost(z)
  {
    hide Cost;
    PlaceTwo(x, y, seg, off);
    PlaceSnoc([x, y], z, seg, off);
    assert [x, y] + [z] == [x, y, z];
  }

  // ---------- The run ----------

  function PutOf(k: Bytes, v: Bytes, id: nat): LogRecord {
    LogRecord(k, v, NORMAL, id, 0)
  }

  function Two(a: Bytes, va: Bytes, b: Bytes, vb: Bytes): seq<LogRecord> {
    [PutOf(a, va, 0), PutOf(b, vb, 0)]
  }

  // The two keys in one batch, in segment 1.
  function BothPut(cap: nat, a: Bytes, va: Bytes, b: Bytes, vb: Bytes): Store {
    CommitStep(NewStore(cap, 0), 1, Two(a, va, b, vb), 0)
  }

  function PairBlock(a: Bytes, va: Bytes, b: Bytes, vb: Bytes): Block {
    var x, y := PutOf(a, va, 1), PutOf(b, vb, 1);
    Done(1, [Entry(Pos(1, 0), x), Entry(Pos(1, Cost(x)), y)], Entry(Pos(1, Cost(x) + Cost(y)), EndRecord(1)))
  }

  // A commit that fits into the active segment.
  lemma CommitIs(s: Store, id: nat, ws: seq<LogRecord>, b: Block, size: nat)
    requires ws != [] && !TooLarge(s.wal.cap, id, ws) && size == Total(BatchRecords(id, ws))
    requires s.wal.fill + size <= s.wal.cap
    requires b == BatchBlock(id, ws, s.wal)
    ensures CommitStep(s, id, ws, 0)
         == s.(wal := s.wal.Append(b, size), index := ApplyOps(s.index, b.ops, 0), clock := 0)
  {
    hide Total, Place, ApplyOps;
  }

  lemma ApplyTwo(e: Entry, f: Entry)
    requires e.rec.typ == f.rec.typ == NORMAL && e.rec.expire == f.rec.expire == 0 && e.rec.key != f.rec.key
    ensures ApplyOps(map[], [e, f], 0) == map[e.rec.key := e.pos, f.rec.key := f.pos]
  {
    var ops := [e, f];
    assert Init(ops) == [e] && Init([e]) == [];
    assert ApplyOps(map[], [e], 0) == ApplyOps(map[], Init([e]), 0)[e.rec.key := e.pos];
    assert ApplyOps(map[], ops, 0) == ApplyOps(map[], Init(ops), 0)[f.rec.key := f.pos];
  }

  lemma BothPutIs(cap: nat, a: Bytes, va: Bytes, b: Bytes, vb: Bytes)
    requires a != b && !TooLarge(cap, 1, Two(a, va, b, vb))
    ensures var x, y := PutOf(a, va, 1), PutOf(b, vb, 1);
            && Cost(x) + Cost(y) <= cap
            && BothPut(cap, a, va, b, vb)
               == Store(Wal(cap, map[1 := [PairBlock(a, va, b, vb)]], 1, Cost(x) + Cost(y) + Cost(EndRecord(1))),
                        map[a := Pos(1, 0), b := Pos(1, Cost(x))], [], 0, NoMerge, 0)
  {
    hide Place, Total, ApplyOps, EndRecord, TooLarge, BatchBlock, BatchRecords, Cost, PairBlock;
    var x, y, ws, s := PutOf(a, va, 1), PutOf(b, vb, 1), Two(a, va, b, vb), NewStore(cap, 0);
    var block := PairBlock(a, va, b, vb);
    var size := Cost(x) + Cost(y) + Cost(EndRecord(1));
    PairPlaced(a, va, b, vb, s.wal);
    assert size <= cap by { Fits(cap, 1, ws); }
    CommitIs(s, 1, ws, block, size);
    AppendEmpty(s.wal, block, size);
    assert map[1 := []][1 := [block]] == map[1 := [block]];
  }

  lemma Fits(cap: nat, id: nat, ws: seq<LogRecord>)
    requires !TooLarge(cap, id, ws)
    ensures Total(BatchRecords(id, ws)) <= cap
  {
  }

  lemma PairPlaced(a: Bytes, va: Bytes, b: Bytes, vb: Bytes, w: Wal)
    requires w.active == 1 && w.fill == 0
    ensures BatchBlock(1, Two(a, va, b, vb), w) == PairBlock(a, va, b, vb)
    ensures Total(BatchRecords(1, Two(a, va, b, vb)))
         == Cost(PutOf(a, va, 1)) + Cost(PutOf(b, vb, 1)) + Cost(EndRecord(1))
    ensures PairBlock(a, va, b, vb).Done?
    ensures a != b ==>
      ApplyOps(map[], PairBlock(a, va, b, vb).ops, 0) == map[a := Pos(1, 0), b := Pos(1, Cost(PutOf(a, va, 1)))]
  {
    hide Cost, EndRecord;
    hide ApplyOps;
    hide Place, Total;
    var x, y, ws := PutOf(a, va, 1), PutOf(b, vb, 1), Two(a, va, b, vb);
    if a != b {
      ApplyTwo(Entry(Pos(1, 0), x), Entry(Pos(1, Cost(x)), y));
    }
    assert Stamp(ws, 1) == [x, y];
    assert BatchRecords(1, ws) == [x, y, EndRecord(1)];
    PlaceThree(x, y, EndRecord(1), 1, 0);
  }

  // The first block of a segment.
  lemma AppendEmpty(w: Wal, b: Block, size: nat)
    requires Segment(w.segs, w.active) == []
    ensures w.Append(b, size) == Wal(w.cap, w.segs[w.active := [b]], w.active, w.fill + size)
  {
    assert [] + [b] == [b];
  }

  // ---------- The first merge ----------

  lemma FlatTwoMerged(e: Entry, f: Entry)
    ensures Flat([Merged(e), Merged(f)]) == [e, f]
  {
    var bs := [Merged(e), Merged(f)];
    assert Init(bs) == [Merged(e)] && Init([Merged(e)]) == [];
    assert Flat([Merged(e)]) == Flat([]) + [e];
    assert Flat(bs) == Flat(Init(bs)) + [f];
  }

  // One record is copied into the merge directory, and fits into its segment.
  lemma CopyIs(s: Store, bs: seq<Block>)
    requires s.merge.Scanning? && s.merge.todo != []
    requires var e := s.merge.todo[0];
             && Mergeable(e.rec, s.merge.started) && e.rec.key in s.index && s.index[e.rec.key] == e.pos
             && s.merge.out.fill + Cost(Cleared(e.rec)) <= s.merge.out.cap
             && Segment(s.merge.out.segs, s.merge.out.active) == bs
    ensures var e, m := s.merge.todo[0], s.merge;
            var c := Entry(m.out.Frontier(), Cleared(e.rec));
            MergeStep(s) == s.(merge := Scanning(m.upTo, m.started, m.todo[1..],
              Wal(m.out.cap, m.out.segs[m.out.active := bs + [Merged(c)]], m.out.active, m.out.fill + Cost(c.rec)),
              m.hints + [Hint(e.rec.key, c.pos)]))
  {
    hide Cost;
  }

  lemma SkipIs(s: Store)
    requires s.merge.Scanning? && s.merge.todo != []
    requires var e := s.merge.todo[0];
             !(Mergeable(e.rec, s.merge.started) && e.rec.key in s.index && s.index[e.rec.key] == e.pos)
    ensures var m := s.merge;
            MergeStep(s) == s.(merge := Scanning(m.upTo, m.started, m.todo[1..], m.out, m.hints))
  {
  }

  // What the merge of the two keys leaves.
  function MergedPair(a: Bytes, va: Bytes, b: Bytes, vb: Bytes): seq<Block> {
    [Merged(Entry(Pos(1, 0), PutOf(a, va, 0))), Merged(Entry(Pos(1, Cost(PutOf(a, va, 0))), PutOf(b, vb, 0)))]
  }

  // The state while the merge runs: what is still to be read, what has been copied.
  function Copying(cap: nat, a: Bytes, va: Bytes, b: Bytes, vb: Bytes, todo: seq<Entry>, copies: seq<Block>,
                   fill: nat, hints: seq<Hint>): Store
  {
    Store(Wal(cap, map[1 := [PairBlock(a, va, b, vb)], 2 := []], 2, 0),
          map[a := Pos(1, 0), b := Pos(1, Cost(PutOf(a, va, 1)))], [], 0,
          Scanning(1, 0, todo, Wal(cap, map[1 := copies], 1, fill), hints), 0)
  }

  lemma StartedIs(cap: nat, a: Bytes, va: Bytes, b: Bytes, vb: Bytes)
    requires a != b && !TooLarge(cap, 1, Two(a, va, b, vb))
    ensures !BothPut(cap, a, va, b, vb).wal.IsEmpty()
    ensures MergeStart(BothPut(cap, a, va, b, vb), 0)
         == Copying(cap, a, va, b, vb, Entries(PairBlock(a, va, b, vb)), [], 0, [])
  {
    hide Cost, PairBlock, BothPut, TooLarge;
    BothPutIs(cap, a, va, b, vb);
    var s, block := BothPut(cap, a, va, b, vb), PairBlock(a, va, b, vb);
    CostPositive(EndRecord(1));
    assert Cat(s.wal.segs, 1, 1) == [block] by {
      assert Cat(s.wal.segs, 1, 0) == [];
      assert [] + [block] == [block];
    }
    FlatOne(block);
    assert map[1 := [block]][2 := []] == map[1 := [block], 2 := []];
  }

  lemma CostPositive(r: LogRecord)
    ensures Cost(r) > 0
  {
  }

  lemma MergedCost(k: Bytes, v: Bytes)
    ensures Cleared(PutOf(k, v, 1)) == PutOf(k, v, 0) && Cost(PutOf(k, v, 0)) <= Cost(PutOf(k, v, 1))
  {
    Codec.ClearedIdNeverLonger(PutOf(k, v, 1));
  }

  /** The two copies of the first merge. */
  lemma ScannedIs(cap: nat, a: Bytes, va: Bytes, b: Bytes, vb: Bytes)
    requires a != b && Cost(PutOf(a, va, 1)) + Cost(PutOf(b, vb, 1)) <= cap
    ensures var x, y, pos := PutOf(a, va, 0), PutOf(b, vb, 0), Pos(1, Cost(PutOf(a, va, 0)));
            ScanAll(Copying(cap, a, va, b, vb, Entries(PairBlock(a, va, b, vb)), [], 0, []))
            == Copying(cap, a, va, b, vb, [], MergedPair(a, va, b, vb), Cost(x) + Cost(y),
                       [Hint(a, Pos(1, 0)), Hint(b, pos)])
  {
    var x, y := PutOf(a, va, 0), PutOf(b, vb, 0);
    MergedCost(a, va);
    MergedCost(b, vb);
    var e, f := Entry(Pos(1, 0), PutOf(a, va, 1)), Entry(Pos(1, Cost(PutOf(a, va, 1))), PutOf(b, vb, 1));
    var end := Entry(Pos(1, Cost(PutOf(a, va, 1)) + Cost(PutOf(b, vb, 1))), EndRecord(1));
    assert Entries(PairBlock(a, va, b, vb)) == [e, f, end];
    var ma, mb := Merged(Entry(Pos(1, 0), x)), Merged(Entry(Pos(1, Cost(x)), y));
    var s0 := Copying(cap, a, va, b, vb, [e, f, end], [], 0, []);
    var s1 := Copying(cap, a, va, b, vb, [f, end], [ma], Cost(x), [Hint(a, Pos(1, 0))]);
    var hints := [Hint(a, Pos(1, 0)), Hint(b, Pos(1, Cost(x)))];
    var s2 := Copying(cap, a, va, b, vb, [end], [ma, mb], Cost(x) + Cost(y), hints);
    var s3 := Copying(cap, a, va, b, vb, [], [ma, mb], Cost(x) + Cost(y), hints);
    hide Cost, EndRecord, PairBlock;
    FirstCopy(s0, s1, e, f, end, ma);
    SecondCopy(s1, s2, f, end, ma, mb);
    ThirdSkipped(s2, s3, end);
    hide Copying, MergeStep;
    assert s0.merge.todo != [] && s1.merge.todo != [] && s2.merge.todo != [];
    ScanThree(s0, s1, s2, s3);
  }

  lemma ScanThree(s0: Store, s1: Store, s2: Store, s3: Store)
    requires s0.merge.Scanning? && s1.merge.Scanning? && s2.merge.Scanning? && s3.merge.Scanning?
    requires s0.merge.todo != [] && s1.merge.todo != [] && s2.merge.todo != [] && s3.merge.todo == []
    requires MergeStep(s0) == s1 && MergeStep(s1) == s2 && MergeStep(s2) == s3
    ensures ScanAll(s0) == s3
  {
    hide MergeStep;
    assert ScanAll(s2) == ScanAll(s3) == s3;
    assert ScanAll(s1) == ScanAll(s2);
  }

  lemma FirstCopy(s0: Store, s1: Store, e: Entry, f: Entry, end: Entry, ma: Block)
    requires s0.merge.Scanning? && s0.merge.todo == [e, f, end] && s0.merge.started == 0 && s0.merge.hints == []
    requires Mergeable(e.rec, 0) && e.rec.key in s0.index && s0.index[e.rec.key] == e.pos
    requires s0.merge.out == Wal(s0.wal.cap, map[1 := []], 1, 0) && Cost(Cleared(e.rec)) <= s0.wal.cap
    requires ma == Merged(Entry(Pos(1, 0), Cleared(e.rec)))
    requires s1 == s0.(merge := Scanning(s0.merge.upTo, 0, [f, end],
                         Wal(s0.wal.cap, map[1 := [ma]], 1, Cost(Cleared(e.rec))), [Hint(e.rec.key, Pos(1, 0))]))
    ensures MergeStep(s0) == s1
  {
    hide Cost;
    CopyIs(s0, []);
    assert s0.merge.todo[1..] == [f, end];
    assert [] + [ma] == [ma];
    assert map[1 := []][1 := [ma]] == map[1 := [ma]];
    assert [] + [Hint(e.rec.key, Pos(1, 0))] == [Hint(e.rec.key, Pos(1, 0))];
  }

  lemma SecondCopy(s1: Store, s2: Store, f: Entry, end: Entry, ma: Block, mb: Block)
    requires s1.merge.Scanning? && s1.merge.todo == [f, end] && s1.merge.started == 0 && |s1.merge.hints| == 1
    requires Mergeable(f.rec, 0) && f.rec.key in s1.index && s1.index[f.rec.key] == f.pos
    requires s1.merge.out.cap == s1.wal.cap && s1.merge.out.segs == map[1 := [ma]] && s1.merge.out.active == 1
    requires s1.merge.out.fill + Cost(Cleared(f.rec)) <= s1.wal.cap
    requires mb == Merged(Entry(Pos(1, s1.merge.out.fill), Cleared(f.rec)))
    requires s2 == s1.(merge := Scanning(s1.merge.upTo, 0, [end],
                         Wal(s1.wal.cap, map[1 := [ma, mb]], 1, s1.merge.out.fill + Cost(Cleared(f.rec))),
                         [s1.merge.hints[0], Hint(f.rec.key, Pos(1, s1.merge.out.fill))]))
    ensures MergeStep(s1) == s2
  {
    hide Cost;
    CopyIs(s1, [ma]);
    assert s1.merge.todo[1..] == [end];
    assert [ma] + [mb] == [ma, mb];
    assert map[1 := [ma]][1 := [ma, mb]] == map[1 := [ma, mb]];
    var h := Hint(f.rec.key, Pos(1, s1.merge.out.fill));
    assert s1.merge.hints + [h] == [s1.merge.hints[0], h];
  }

  lemma ThirdSkipped(s2: Store, s3: Store, end: Entry)
    requires s2.merge.Scanning? && s2.merge.todo == [end] && !Mergeable(end.rec, s2.merge.started)
    requires s3 == s2.(merge := Scanning(s2.merge.upTo, s2.merge.started, [], s2.merge.out, s2.merge.hints))
    ensures MergeStep(s2) == s3
  {
    SkipIs(s2);
    assert s2.merge.todo[1..] == [];
  }

  // ---------- The reopened log, and the first key again ----------

  function Index0(a: Bytes, va: Bytes, b: Bytes): Index {
    map[a := Pos(1, 0), b := Pos(1, Cost(PutOf(a, va, 0)))]
  }

  function Hints0(a: Bytes, va: Bytes, b: Bytes): seq<Hint> {
    [Hint(a, Pos(1, 0)), Hint(b, Pos(1, Cost(PutOf(a, va, 0))))]
  }

  lemma WholeIs(cap: nat, a: Bytes, va: Bytes, b: Bytes, vb: Bytes)
    requires a != b && !TooLarge(cap, 1, Two(a, va, b, vb))
    ensures !BothPut(cap, a, va, b, vb).wal.IsEmpty() && !BothPut(cap, a, va, b, vb).merge.Scanning?
    ensures MergeWhole(BothPut(cap, a, va, b, vb), 0, 0)
         == MergeFinish(Copying(cap, a, va, b, vb, [], MergedPair(a, va, b, vb),
                                Cost(PutOf(a, va, 0)) + Cost(PutOf(b, vb, 0)), Hints0(a, va, b)))
  {
    hide Cost, PairBlock, BothPut, MergeStart, ScanAll, MergedPair, TooLarge;
    StartedIs(cap, a, va, b, vb);
    BothPutIs(cap, a, va, b, vb);
    ScannedIs(cap, a, va, b, vb);
    var s := MergeStart(BothPut(cap, a, va, b, vb), 0);
    assert MergeClock(s, 0) == s;
  }

  // After the first merge and reopening: the two merged records, and an empty active segment.
  function Reopened(cap: nat, a: Bytes, va: Bytes, b: Bytes, vb: Bytes): Store {
    Store(Wal(cap, map[1 := MergedPair(a, va, b, vb), 2 := []], 2, 0),
          Index0(a, va, b), Hints0(a, va, b), 1, NoMerge, 0)
  }

  lemma HintsAre(a: Bytes, va: Bytes, b: Bytes)
    requires a != b
    ensures HintMap(Hints0(a, va, b)) == Index0(a, va, b)
  {
    hide Cost;
    var h, i := Hint(a, Pos(1, 0)), Hint(b, Pos(1, Cost(PutOf(a, va, 0))));
    assert Init([h, i]) == [h] && Init([h]) == [];
    assert HintMap([h]) == HintMap([])[a := h.pos];
  }

  lemma ReopenedIs(cap: nat, a: Bytes, va: Bytes, b: Bytes, vb: Bytes)
    requires a != b && !TooLarge(cap, 1, Two(a, va, b, vb))
    ensures Reopen(MergeWhole(BothPut(cap, a, va, b, vb), 0, 0), 0) == Reopened(cap, a, va, b, vb)
  {
    hide Cost, BothPut, MergeWhole, TooLarge, HintMap, Hints0, Index0, Reopen, PairBlock;
    WholeIs(cap, a, va, b, vb);
    HintsAre(a, va, b);
    var s := MergeFinish(Copying(cap, a, va, b, vb, [], MergedPair(a, va, b, vb),
                                 Cost(PutOf(a, va, 0)) + Cost(PutOf(b, vb, 0)), Hints0(a, va, b)));
    var pair := MergedPair(a, va, b, vb);
    assert pair != [];
    hide MergedPair;
    LoadedPair(s, [PairBlock(a, va, b, vb)], pair, Index0(a, va, b));
  }

  // Loading a finished merge of the one segment in front of an empty one.
  lemma LoadedPair(s: Store, was: seq<Block>, pair: seq<Block>, index: Index)
    requires s.merge.Finished? && s.merge.upTo == 1 && HintMap(s.merge.hints) == index && pair != []
    requires s.wal.segs == map[1 := was, 2 := []] && s.wal.active == 2 && s.merge.out.segs == map[1 := pair]
    ensures Reopen(s, 0)
         == Store(Wal(s.wal.cap, map[1 := pair, 2 := []], 2, s.wal.fill), index, s.merge.hints, 1, NoMerge, 0)
  {
    hide HintMap, Splice;
    SplicedPair(was, pair);
    assert Cat(map[1 := pair, 2 := []], 2, 2) == [] by {
      assert Cat(map[1 := pair, 2 := []], 2, 1) == [];
    }
    hide Cat;
    assert Recover(Recovery(index, map[]), Flat([]), 0).index == index;
  }

  lemma SplicedPair(was: seq<Block>, pair: seq<Block>)
    requires pair != []
    ensures Splice(map[1 := was, 2 := []], map[1 := pair], 1) == map[1 := pair, 2 := []]
  {
    var a, b := Splice(map[1 := was, 2 := []], map[1 := pair], 1), map[1 := pair, 2 := []];
    assert a.Keys == {1, 2} == b.Keys;
  }

  lemma ApplyOne(index: Index, e: Entry)
    requires e.rec.typ == NORMAL && e.rec.expire == 0
    ensures ApplyOps(index, [e], 0) == index[e.rec.key := e.pos]
  {
    assert Init([e]) == [];
    assert ApplyOps(index, Init([e]), 0) == index;
  }

  function AgainBlock(a: Bytes, wa: Bytes): Block {
    var x := PutOf(a, wa, 2);
    Done(2, [Entry(Pos(2, 0), x)], Entry(Pos(2, Cost(x)), EndRecord(2)))
  }

  // The first key has been put again, in segment 2.
  function Again(cap: nat, a: Bytes, va: Bytes, b: Bytes, vb: Bytes, wa: Bytes): Store {
    Store(Wal(cap, map[1 := MergedPair(a, va, b, vb), 2 := [AgainBlock(a, wa)]], 2,
              Cost(PutOf(a, wa, 2)) + Cost(EndRecord(2))),
          Index0(a, va, b)[a := Pos(2, 0)], Hints0(a, va, b), 1, NoMerge, 0)
  }

  lemma AgainIs(cap: nat, a: Bytes, va: Bytes, b: Bytes, vb: Bytes, wa: Bytes)
    requires !TooLarge(cap, 2, [PutOf(a, wa, 0)])
    ensures CommitStep(Reopened(cap, a, va, b, vb), 2, [PutOf(a, wa, 0)], 0) == Again(cap, a, va, b, vb, wa)
  {
    var x, ws, s := PutOf(a, wa, 2), [PutOf(a, wa, 0)], Reopened(cap, a, va, b, vb);
    hide Cost, MergedPair, Index0, Hints0;
    assert Stamp(ws, 2) == [x];
    assert BatchRecords(2, ws) == [x, EndRecord(2)];
    PlaceTwo(x, EndRecord(2), 2, 0);
    ApplyOne(s.index, Entry(Pos(2, 0), x));
    hide Place, Total, ApplyOps, EndRecord;
    var block, size := AgainBlock(a, wa), Cost(x) + Cost(EndRecord(2));
    assert BatchBlock(2, ws, s.wal) == block;
    hide AgainBlock, TooLarge, BatchBlock, Stamp;
    CommitIs(s, 2, ws, block, size);
    AppendEmpty(s.wal, block, size);
    assert s.wal.segs[2 := [block]] == map[1 := MergedPair(a, va, b, vb), 2 := [block]];
  }

  // ---------- The second merge, up to the copy of the second key ----------

  lemma LogIs(cap: nat, a: Bytes, va: Bytes, b: Bytes, vb: Bytes, wa: Bytes, segs: map<nat, seq<Block>>)
    requires 1 in segs && segs[1] == MergedPair(a, va, b, vb) && 2 in segs && segs[2] == [AgainBlock(a, wa)]
    ensures Cat(segs, 1, 2) == MergedPair(a, va, b, vb) + [AgainBlock(a, wa)]
    ensures Flat(Cat(segs, 1, 2))
         == [Entry(Pos(1, 0), PutOf(a, va, 0)), Entry(Pos(1, Cost(PutOf(a, va, 0))), PutOf(b, vb, 0)),
             Entry(Pos(2, 0), PutOf(a, wa, 2)), Entry(Pos(2, Cost(PutOf(a, wa, 2))), EndRecord(2))]
  {
    hide Cost, EndRecord;
    var e, f := Entry(Pos(1, 0), PutOf(a, va, 0)), Entry(Pos(1, Cost(PutOf(a, va, 0))), PutOf(b, vb, 0));
    var g, h := Entry(Pos(2, 0), PutOf(a, wa, 2)), Entry(Pos(2, Cost(PutOf(a, wa, 2))), EndRecord(2));
    var pair, block := MergedPair(a, va, b, vb), AgainBlock(a, wa);
    assert Cat(segs, 1, 0) == [] && Cat(segs, 1, 1) == [] + pair;
    assert [] + pair == pair;
    FlatAppend(pair, [block]);
    FlatTwoMerged(e, f);
    FlatOne(block);
    assert Entries(block) == [g, h];
    assert [e, f] + [g, h] == [e, f, g, h];
  }

  // The interrupted merge: the second key's copy is where the first key's merged record is.
  function Interrupted(cap: nat, a: Bytes, va: Bytes, b: Bytes, vb: Bytes, wa: Bytes): Store {
    Store(Wal(cap, map[1 := MergedPair(a, va, b, vb), 2 := [AgainBlock(a, wa)], 3 := []], 3, 0),
          Index0(a, va, b)[a := Pos(2, 0)], Hints0(a, va, b), 1,
          Scanning(2, 0, [Entry(Pos(2, 0), PutOf(a, wa, 2)), Entry(Pos(2, Cost(PutOf(a, wa, 2))), EndRecord(2))],
                   Wal(cap, map[1 := [Merged(Entry(Pos(1, 0), PutOf(b, vb, 0)))]], 1, Cost(PutOf(b, vb, 0))),
                   [Hint(b, Pos(1, 0))]), 0)
  }

  lemma SecondMergeIs(cap: nat, a: Bytes, va: Bytes, b: Bytes, vb: Bytes, wa: Bytes)
    requires a != b && Cost(PutOf(b, vb, 0)) <= cap
    ensures var s := MergeStart(Again(cap, a, va, b, vb, wa), 0);
            && s.merge.Scanning? && s.merge.todo != []
            && MergeStep(s).merge.Scanning? && MergeStep(s).merge.todo != []
            && MergeStep(MergeStep(s)) == Interrupted(cap, a, va, b, vb, wa)
  {
    hide Cost, EndRecord, MergedPair, AgainBlock, Hints0, Flat, Cat;
    var s0 := Again(cap, a, va, b, vb, wa);
    var e, f := Entry(Pos(1, 0), PutOf(a, va, 0)), Entry(Pos(1, Cost(PutOf(a, va, 0))), PutOf(b, vb, 0));
    var g, h := Entry(Pos(2, 0), PutOf(a, wa, 2)), Entry(Pos(2, Cost(PutOf(a, wa, 2))), EndRecord(2));
    LogIs(cap, a, va, b, vb, wa, s0.wal.segs);
    var s := MergeStart(s0, 0);
    assert s.merge == Scanning(2, 0, [e, f, g, h], NewWal(cap), []);
    SkipIs(s);
    assert s.merge.todo[1..] == [f, g, h];
    var s1 := MergeStep(s);
    CopyIs(s1, []);
    assert s1.merge.todo[1..] == [g, h];
    var m := Merged(Entry(Pos(1, 0), PutOf(b, vb, 0)));
    assert [] + [m] == [m] && map[1 := []][1 := [m]] == map[1 := [m]];
    assert [] + [Hint(b, Pos(1, 0))] == [Hint(b, Pos(1, 0))];
    assert s.wal.segs == map[1 := MergedPair(a, va, b, vb), 2 := [AgainBlock(a, wa)], 3 := []];
  }
}
