/** The write-ahead log library, by contract: segment files filled in order, chunk sizes that add up,
    and a new segment only when the next write does not fit. */
module Wal {
  import opened Record
  import opened Seqs
  import opened Log
  import opened Visibility

  // ---------- Segment files in order ----------

  function Segment<T>(segs: map<nat, seq<T>>, id: nat): seq<T> {
    if id in segs then segs[id] else []
  }

  /** The contents of the segments `lo` to `hi`, in order of id; missing files are skipped. */
  function Cat<T>(segs: map<nat, seq<T>>, lo: nat, hi: nat): seq<T>
    requires lo >= 1
    decreases hi
  {
    if hi < lo then [] else Cat(segs, lo, hi - 1) + Segment(segs, hi)
  }

  lemma {:induction false} CatFrame<T>(a: map<nat, seq<T>>, b: map<nat, seq<T>>, lo: nat, hi: nat)
    requires lo >= 1 && forall i :: lo <= i <= hi ==> Segment(a, i) == Segment(b, i)
    ensures Cat(a, lo, hi) == Cat(b, lo, hi)
    decreases hi
  {
    if hi >= lo {
      CatFrame(a, b, lo, hi - 1);
    }
  }

  lemma {:induction false} CatSplit<T>(segs: map<nat, seq<T>>, lo: nat, mid: nat, hi: nat)
    requires 1 <= lo <= mid + 1 && mid <= hi
    ensures Cat(segs, lo, hi) == Cat(segs, lo, mid) + Cat(segs, mid + 1, hi)
    decreases hi
  {
    if hi > mid {
      CatSplit(segs, lo, mid, hi - 1);
      assert Cat(segs, lo, mid) + (Cat(segs, mid + 1, hi - 1) + Segment(segs, hi))
          == Cat(segs, lo, mid) + Cat(segs, mid + 1, hi - 1) + Segment(segs, hi);
    } else {
      assert Cat(segs, lo, mid) + [] == Cat(segs, lo, mid);
    }
  }

  lemma {:induction false} CatEmpty<T>(segs: map<nat, seq<T>>, lo: nat, mid: nat, hi: nat)
    requires 1 <= lo && mid <= hi && forall i :: mid < i <= hi ==> Segment(segs, i) == []
    ensures Cat(segs, lo, hi) == Cat(segs, lo, mid)
    decreases hi
  {
    if hi > mid && hi >= lo {
      CatEmpty(segs, lo, mid, hi - 1);
    }
  }

  // The elements of the whole are the elements of the segments.
  lemma {:induction false} CatElement<T>(segs: map<nat, seq<T>>, lo: nat, hi: nat, x: T)
    requires lo >= 1 && x in Cat(segs, lo, hi)
    ensures exists id :: lo <= id <= hi && id in segs && x in segs[id]
    decreases hi
  {
    if x in Segment(segs, hi) {
      assert hi in segs;
    } else {
      CatElement(segs, lo, hi - 1, x);
    }
  }

  // ---------- A log and its frontier ----------

  /** `cap` is the segment size; `fill` bytes of segment `active` are used. */
  datatype Wal = Wal(cap: nat, segs: map<nat, seq<Block>>, active: nat, fill: nat) {

    function Blocks(): seq<Block> {
      Cat(segs, 1, active)
    }

    function Frontier(): Pos {
      Pos(active, fill)
    }

    /** dataFiles.IsEmpty(): one segment, and nothing in it. */
    predicate IsEmpty() {
      segs.Keys == {active} && fill == 0
    }

    /** OpenNewActiveSegment. */
    function Rotate(): Wal {
      Wal(cap, segs[active + 1 := []], active + 1, 0)
    }

    /** Rotation happens exactly when the next write does not fit. */
    function MakeRoom(size: nat): Wal {
      if fill + size > cap then Rotate() else this
    }

    function Append(b: Block, size: nat): Wal {
      Wal(cap, segs[active := Segment(segs, active) + [b]], active, fill + size)
    }
  }

  function NewWal(cap: nat): Wal {
    Wal(cap, map[1 := []], 1, 0)
  }

  ghost predicate EntryOK(w: Wal, id: nat, e: Entry) {
    e.pos.seg == id && End(e).off <= w.cap && AtMost(End(e), w.Frontier())
  }

  ghost predicate WalOK(w: Wal) {
    && 1 <= w.active && w.active in w.segs && w.fill <= w.cap
    && (forall id :: id in w.segs ==> 1 <= id <= w.active)
    && (forall id, b, e :: id in w.segs && b in w.segs[id] && e in Entries(b) ==> EntryOK(w, id, e))
    && Spaced(Flat(w.Blocks()))
    && (Flat(Segment(w.segs, w.active)) == [] ==> w.fill == 0)
  }

  /** A log is empty exactly if it is a single segment file without a record. */
  lemma EmptyIs(w: Wal)
    requires WalOK(w)
    ensures w.IsEmpty() <==> w.segs.Keys == {w.active} && Flat(w.Blocks()) == []
  {
    hide Spaced, Flat, Cat;
    if w.segs.Keys == {w.active} {
      OneSegment(w.segs, w.active);
      if w.fill == 0 && Flat(w.Blocks()) != [] {
        EntriesWithin(w, w.active, w.active, Flat(Cat(w.segs, w.active, w.active))[0]);
      }
    }
  }

  lemma OneSegment<T>(segs: map<nat, seq<T>>, id: nat)
    requires id >= 1 && segs.Keys == {id}
    ensures Cat(segs, 1, id) == Segment(segs, id) == Cat(segs, id, id)
  {
    CatEmpty(segs, 1, 0, id - 1);
    assert Cat(segs, 1, id - 1) == [] && Cat(segs, id, id - 1) == [];
  }

  // Where the entries of a stretch of segments lie.
  lemma EntriesWithin(w: Wal, lo: nat, hi: nat, e: Entry)
    requires WalOK(w) && lo >= 1 && e in Flat(Cat(w.segs, lo, hi))
    ensures lo <= e.pos.seg <= hi && EntryOK(w, e.pos.seg, e)
  {
    hide Spaced, Flat, Cat, Entries, AtMost, End;
    var b := FlatElement(Cat(w.segs, lo, hi), e);
    CatElement(w.segs, lo, hi, b);
    var id :| lo <= id <= hi && id in w.segs && b in w.segs[id];
    assert EntryOK(w, id, e);
  }

  lemma {:induction false} FlatElement(bs: seq<Block>, e: Entry) returns (b: Block)
    requires e in Flat(bs)
    ensures b in bs && e in Entries(b)
  {
    if e in Entries(Last(bs)) {
      b := Last(bs);
    } else {
      b := FlatElement(Init(bs), e);
    }
  }

  // ---------- Writing ----------

  function Total(rs: seq<LogRecord>): nat {
    if rs == [] then 0 else Total(Init(rs)) + Cost(Last(rs))
  }

  /** Chunks one after the other from `off` on. */
  function Place(rs: seq<LogRecord>, seg: nat, off: nat): seq<Entry> {
    if rs == [] then []
    else Place(Init(rs), seg, off) + [Entry(Pos(seg, off + Total(Init(rs))), Last(rs))]
  }

  // Where the chunks of `rs` are, if they take `total` bytes from `off` on.
  ghost predicate Placed(es: seq<Entry>, rs: seq<LogRecord>, seg: nat, off: nat, total: nat) {
    && |es| == |rs| && Records(es) == rs && Spaced(es)
    && (forall i :: 0 <= i < |es| ==> es[i].rec == rs[i] && es[i].pos.seg == seg && off <= es[i].pos.off)
    && (forall i :: 0 <= i < |es| ==> End(es[i]).off <= off + total)
  }

  lemma PlacedSnoc(es: seq<Entry>, rs: seq<LogRecord>, seg: nat, off: nat, total: nat, e: Entry, end: nat)
    requires Placed(es, rs, seg, off, total) && e.pos == Pos(seg, off + total) && end == total + Cost(e.rec)
    ensures Placed(es + [e], rs + [e.rec], seg, off, end)
  {
    Snoc(es, e);
    hide Cost;
    forall i | 0 <= i < |es| ensures AtMost(End(es[i]), e.pos) {}
  }

  lemma {:induction false} PlaceIsPlaced(rs: seq<LogRecord>, seg: nat, off: nat)
    ensures Placed(Place(rs, seg, off), rs, seg, off, Total(rs))
  {
    assert Placed([], [], seg, off, 0);
    hide Placed, Cost;
    if rs != [] {
      PlaceIsPlaced(Init(rs), seg, off);
      Unsnoc(rs);
      var e := Entry(Pos(seg, off + Total(Init(rs))), Last(rs));
      PlacedSnoc(Place(Init(rs), seg, off), Init(rs), seg, off, Total(Init(rs)), e, Total(rs));
    }
  }

  lemma PlaceOK(rs: seq<LogRecord>, seg: nat, off: nat)
    ensures var es := Place(rs, seg, off);
            && |es| == |rs| && Records(es) == rs && Spaced(es)
            && (forall i :: 0 <= i < |es| ==> es[i].rec == rs[i] && es[i].pos.seg == seg && off <= es[i].pos.off)
            && (forall i :: 0 <= i < |es| ==> End(es[i]).off <= off + Total(rs))
  {
    PlaceIsPlaced(rs, seg, off);
    hide Place, Total, Cost, Spaced, Records;
  }

  /** The first chunk starts at `off`, and each of the others behind the seven bytes of a chunk header and
      the encoding of the record before it. */
  ghost predicate Chained(es: seq<Entry>, seg: nat, off: nat) {
    && (es != [] ==> es[0].pos == Pos(seg, off))
    && (forall i :: 0 < i < |es| ==> es[i].pos == Pos(seg, es[i - 1].pos.off + 7 + |Codec.Encode(es[i - 1].rec)|))
  }

  lemma {:induction false} PlaceChained(rs: seq<LogRecord>, seg: nat, off: nat)
    ensures var es := Place(rs, seg, off);
            && |es| == |rs| && Chained(es, seg, off)
            && off + Total(rs) == if es == [] then off else Last(es).pos.off + 7 + |Codec.Encode(Last(es).rec)|
  {
    if rs != [] {
      PlaceChained(Init(rs), seg, off);
      Snoc(Place(Init(rs), seg, off), Last(Place(rs, seg, off)));
    }
  }

  lemma {:induction false} PlacePrefix(rs: seq<LogRecord>, seg: nat, off: nat, n: nat)
    requires n <= |rs|
    ensures |Place(rs, seg, off)| == |rs| && Place(rs, seg, off)[..n] == Place(rs[..n], seg, off)
    ensures Total(rs[..n]) <= Total(rs)
  {
    PlaceLength(rs, seg, off);
    hide Cost, Spaced;
    if n == |rs| {
      assert rs[..n] == rs;
    } else {
      PlacePrefix(Init(rs), seg, off, n);
      assert Init(rs)[..n] == rs[..n];
      PlaceLength(Init(rs), seg, off);
    }
  }

  lemma PlaceLength(rs: seq<LogRecord>, seg: nat, off: nat)
    ensures |Place(rs, seg, off)| == |rs|
  {
    PlaceOK(rs, seg, off);
  }

  lemma SpacedAppend(a: seq<Entry>, b: seq<Entry>, p: Pos)
    requires Spaced(a) && Spaced(b)
    requires forall i :: 0 <= i < |a| ==> AtMost(End(a[i]), p)
    requires forall i :: 0 <= i < |b| ==> AtMost(p, b[i].pos)
    ensures Spaced(a + b)
  {
  }

  lemma RotateOK(w: Wal)
    requires WalOK(w)
    ensures WalOK(w.Rotate()) && w.Rotate().Blocks() == w.Blocks()
  {
    hide Spaced, Flat, Entries;
    var w' := w.Rotate();
    CatFrame(w.segs, w'.segs, 1, w.active);
    assert Cat(w'.segs, 1, w.active + 1) == Cat(w'.segs, 1, w.active) + [];
    assert w'.Blocks() == w.Blocks();
    forall id, c, e | id in w'.segs && c in w'.segs[id] && e in Entries(c) ensures EntryOK(w', id, e) {
      assert c in w.segs[id] && EntryOK(w, id, e);
    }
  }

  lemma AppendBlocks(w: Wal, b: Block, size: nat)
    requires w.active >= 1
    ensures w.Append(b, size).Blocks() == w.Blocks() + [b]
    ensures w.active - 1 >= 1 ==> Cat(w.Append(b, size).segs, 1, w.active - 1) == Cat(w.segs, 1, w.active - 1)
  {
    var w' := w.Append(b, size);
    CatFrame(w.segs, w'.segs, 1, w.active - 1);
    assert Cat(w.segs, 1, w.active - 1) + (Segment(w.segs, w.active) + [b]) == w.Blocks() + [b];
  }

  /** One write: it goes behind everything written before, within one segment. */
  lemma AppendOK(w: Wal, b: Block, rs: seq<LogRecord>)
    requires WalOK(w) && Entries(b) == Place(rs, w.active, w.fill) && w.fill + Total(rs) <= w.cap
    ensures var w' := w.Append(b, Total(rs));
            WalOK(w') && w'.Blocks() == w.Blocks() + [b]
  {
    hide Total, Place, Spaced, Cat, Flat, Cost, AtMost;
    var w' := w.Append(b, Total(rs));
    AppendBlocks(w, b, Total(rs));
    PlaceOK(rs, w.active, w.fill);
    AppendSpaced(w, Entries(b));
    FlatAppend(w.Blocks(), [b]);
    FlatOne(b);
    AppendFill(w, b, rs);
    forall id, c, e | id in w'.segs && c in w'.segs[id] && e in Entries(c) ensures EntryOK(w', id, e) {
      if id in w.segs && c in w.segs[id] {
        assert EntryOK(w, id, e);
        FrontierGrows(e, w, w');
      } else {
        assert c == b && id == w.active;
        EndsBefore(e, w');
      }
    }
  }

  lemma AppendFill(w: Wal, b: Block, rs: seq<LogRecord>)
    requires Entries(b) == Place(rs, w.active, w.fill) && (Flat(Segment(w.segs, w.active)) == [] ==> w.fill == 0)
    ensures Flat(Segment(w.segs, w.active) + [b]) == [] ==> w.fill + Total(rs) == 0
  {
    hide Place, Flat, Cost;
    PlaceOK(rs, w.active, w.fill);
    FlatAppend(Segment(w.segs, w.active), [b]);
    FlatOne(b);
  }

  lemma FlatOne(b: Block)
    ensures Flat([b]) == Entries(b)
  {
    assert Init([b]) == [];
  }

  lemma FrontierGrows(e: Entry, w: Wal, w': Wal)
    requires AtMost(End(e), w.Frontier()) && w.active == w'.active && w.fill <= w'.fill
    ensures AtMost(End(e), w'.Frontier())
  {
  }

  lemma EndsBefore(e: Entry, w: Wal)
    requires e.pos.seg == w.active && End(e).off <= w.fill
    ensures AtMost(End(e), w.Frontier())
  {
  }

  lemma AppendSpaced(w: Wal, es: seq<Entry>)
    requires WalOK(w) && Spaced(es)
    requires forall i :: 0 <= i < |es| ==> es[i].pos.seg == w.active && w.fill <= es[i].pos.off
    ensures Spaced(Flat(w.Blocks()) + es)
  {
    hide Spaced, Flat, Cat;
    forall i | 0 <= i < |Flat(w.Blocks())| ensures AtMost(End(Flat(w.Blocks())[i]), w.Frontier()) {
      EntriesWithin(w, 1, w.active, Flat(w.Blocks())[i]);
    }
    SpacedAppend(Flat(w.Blocks()), es, w.Frontier());
  }
}
