/** Reused batch ids: what recovery makes of a log in which a finished batch has the id of an earlier torn
    one, for every well-formed log. */
module Reusing {
  import opened Record
  import opened Seqs
  import opened Log
  import opened Visibility

  /** Well-formed blocks; unlike BlocksOK this allows a finished batch the id of a torn one. */
  ghost predicate WellFormed(bs: seq<Block>) {
    forall i :: 0 <= i < |bs| ==> BlockOK(bs[i])
  }

  function Unexpired(ops: seq<Entry>, now: int): seq<Entry> {
    if ops == [] then []
    else if Last(ops).rec.IsExpired(now) then Unexpired(Init(ops), now) else Unexpired(Init(ops), now) + [Last(ops)]
  }

  function Expired(ops: seq<Entry>, now: int): seq<Entry> {
    if ops == [] then []
    else if Last(ops).rec.IsExpired(now) then Expired(Init(ops), now) + [Last(ops)] else Expired(Init(ops), now)
  }

  /** The records of torn batches that are still buffered for `id` after the log. */
  function Left(bs: seq<Block>, id: nat, now: int): seq<Entry> {
    if bs == [] then [] else
    var before := Left(Init(bs), id, now);
    match Last(bs)
    case Merged(_) => before
    case Torn(i, ops) => if i == id then before + Unexpired(ops, now) else before
    case Done(i, _, _) => if i == id then [] else before
  }

  /** A finished batch absorbs the buffered records of its id: its own expired records come first, then the
      buffered ones, then its other records. */
  function Absorb(b: Block, left: seq<Entry>, now: int): Block {
    match b
    case Done(id, ops, end) => if left == [] then b else Done(id, Expired(ops, now) + left + Unexpired(ops, now), end)
    case _ => b
  }

  function BlockId(b: Block): nat {
    match b
    case Merged(_) => 0
    case Torn(id, _) => id
    case Done(id, _, _) => id
  }

  function Absorbed(bs: seq<Block>, now: int): seq<Block> {
    if bs == [] then []
    else Absorbed(Init(bs), now) + [Absorb(Last(bs), Left(Init(bs), BlockId(Last(bs)), now), now)]
  }

  // ---------- Buffers and batches ----------

  function IndexRecords(es: seq<Entry>): seq<IndexRecord> {
    if es == [] then [] else IndexRecords(Init(es)) + [IndexRecord(Last(es).rec.key, Last(es).rec.typ, Last(es).pos)]
  }

  lemma {:induction false} KeptIsUnexpired(ops: seq<Entry>, now: int)
    ensures Kept(ops, now) == IndexRecords(Unexpired(ops, now))
  {
    if ops != [] {
      KeptIsUnexpired(Init(ops), now);
      Snoc(Unexpired(Init(ops), now), Last(ops));
    }
  }

  lemma {:induction false} IndexRecordsAppend(a: seq<Entry>, b: seq<Entry>)
    ensures IndexRecords(a + b) == IndexRecords(a) + IndexRecords(b)
  {
    if b == [] {
      assert a + b == a;
    } else {
      InitAppend(a, b);
      IndexRecordsAppend(a, Init(b));
    }
  }

  lemma {:induction false} ApplyAppend(index: Index, a: seq<Entry>, b: seq<Entry>, now: int)
    ensures ApplyOps(index, a + b, now) == ApplyOps(ApplyOps(index, a, now), b, now)
  {
    if b == [] {
      assert a + b == a;
    } else {
      InitAppend(a, b);
      ApplyAppend(index, a, Init(b), now);
    }
  }

  lemma {:induction false} FlushAppend(index: Index, a: seq<IndexRecord>, b: seq<IndexRecord>)
    ensures Flush(index, a + b) == Flush(Flush(index, a), b)
  {
    if b == [] {
      assert a + b == a;
    } else {
      InitAppend(a, b);
      FlushAppend(index, a, Init(b));
    }
  }

  /** Unexpired puts and deletes. */
  ghost predicate Flushable(es: seq<Entry>, now: int) {
    forall e :: e in es ==> !e.rec.IsExpired(now) && e.rec.typ in {NORMAL, DELETED}
  }

  lemma {:induction false} ApplyIsFlush(index: Index, es: seq<Entry>, now: int)
    requires Flushable(es, now)
    ensures ApplyOps(index, es, now) == Flush(index, IndexRecords(es))
  {
    if es != [] {
      assert Last(es) in es;
      ApplyIsFlush(index, Init(es), now);
      Snoc(IndexRecords(Init(es)), IndexRecord(Last(es).rec.key, Last(es).rec.typ, Last(es).pos));
    }
  }

  lemma {:induction false} ApplyExpired(index: Index, ops: seq<Entry>, now: int)
    ensures ApplyOps(index, Expired(ops, now), now) == DropExpired(index, ops, now)
    ensures forall e :: e in Expired(ops, now) ==> e in ops
  {
    if ops != [] {
      ApplyExpired(index, Init(ops), now);
      Snoc(Expired(Init(ops), now), Last(ops));
    }
  }

  lemma {:induction false} UnexpiredOK(ops: seq<Entry>, now: int)
    ensures forall e :: e in Unexpired(ops, now) ==> e in ops && !e.rec.IsExpired(now)
  {
    if ops != [] {
      UnexpiredOK(Init(ops), now);
    }
  }

  lemma UnexpiredFlushable(id: nat, ops: seq<Entry>, now: int)
    requires OpsOK(id, ops)
    ensures Flushable(Unexpired(ops, now), now)
  {
    UnexpiredOK(ops, now);
  }

  /** What is buffered are unexpired puts and deletes that the log holds, of torn batches of that id. */
  lemma {:induction false} LeftOK(bs: seq<Block>, id: nat, now: int)
    requires WellFormed(bs)
    ensures Flushable(Left(bs, id, now), now) && (forall e :: e in Left(bs, id, now) ==> e in Flat(bs))
    ensures Left(bs, id, now) != [] ==> id in TornIds(bs)
  {
    if bs != [] {
      LeftOK(Init(bs), id, now);
      assert BlockOK(Last(bs)) && TornIds(Init(bs)) <= TornIds(bs);
      match Last(bs) {
        case Merged(_) =>
        case Torn(i, ops) =>
          UnexpiredOK(ops, now);
          UnexpiredFlushable(i, ops, now);
          assert bs[|bs| - 1].Torn?;
          assert i in TornIds(bs);
        case Done(_, _, _) =>
      }
    }
  }

  // ---------- Recovery ----------

  ghost predicate Buffers(p: Pending, bs: seq<Block>, now: int) {
    forall id :: Buffered(p, id) == IndexRecords(Left(bs, id, now))
  }

  /** The pass over the records computes the replay of the absorbed log; what it leaves in its buffers are
      the records that no finished batch has absorbed. */
  lemma {:induction false} RecoverIsAbsorbed(bs: seq<Block>, now: int)
    requires WellFormed(bs)
    ensures var r := Recover(Recovery(map[], map[]), Flat(bs), now);
            r.index == Replay(map[], Absorbed(bs, now), now) && Buffers(r.pending, bs, now)
  {
    if bs != [] {
      var start, bs', b := Recovery(map[], map[]), Init(bs), Last(bs);
      var left := Left(bs', BlockId(b), now);
      RecoverIsAbsorbed(bs', now);
      LeftOK(bs', BlockId(b), now);
      assert BlockOK(b);
      hide Recover, BlockOK, ReplayBlock, Entries, Left, Absorb, Buffers, Flushable;
      RecoverAppend(start, Flat(bs'), Entries(b), now);
      AbsorbBlock(Recover(start, Flat(bs'), now), bs, now);
      Snoc(Absorbed(bs', now), Absorb(b, left, now));
    }
  }

  lemma AbsorbBlock(r: Recovery, bs: seq<Block>, now: int)
    requires bs != [] && BlockOK(Last(bs)) && Buffers(r.pending, Init(bs), now)
    requires Flushable(Left(Init(bs), BlockId(Last(bs)), now), now)
    ensures var b, r' := Last(bs), Recover(r, Entries(Last(bs)), now);
            && r'.index == ReplayBlock(r.index, Absorb(b, Left(Init(bs), BlockId(b), now), now), now)
            && Buffers(r'.pending, bs, now)
  {
    match Last(bs) {
      case Merged(e) =>
        assert Recover(r, [e], now) == RecoverStep(Recover(r, [], now), e, now);
      case Torn(id, ops) =>
        AbsorbTorn(r, bs, id, ops, now);
      case Done(id, ops, end) =>
        AbsorbDone(r, Left(Init(bs), id, now), id, ops, end, now);
    }
  }

  lemma AbsorbTorn(r: Recovery, bs: seq<Block>, id: nat, ops: seq<Entry>, now: int)
    requires bs != [] && Last(bs) == Torn(id, ops) && BlockOK(Last(bs)) && Buffers(r.pending, Init(bs), now)
    ensures var r' := Recover(r, ops, now);
            r'.index == DropExpired(r.index, ops, now) && Buffers(r'.pending, bs, now)
  {
    hide Recover, Kept, Unexpired, IndexRecords;
    var r' := Recover(r, ops, now);
    RecoverOps(r, id, ops, now);
    KeptIsUnexpired(ops, now);
    IndexRecordsAppend(Left(Init(bs), id, now), Unexpired(ops, now));
    hide BlockOK;
    forall i ensures Buffered(r'.pending, i) == IndexRecords(Left(bs, i, now)) {
      assert Buffered(r.pending, i) == IndexRecords(Left(Init(bs), i, now));
      if i != id {
        assert Buffered(r'.pending, i) == Buffered(r'.pending - {id}, i);
        assert Buffered(r.pending, i) == Buffered(r.pending - {id}, i);
      }
    }
  }

  lemma AbsorbDone(r: Recovery, left: seq<Entry>, id: nat, ops: seq<Entry>, end: Entry, now: int)
    requires BlockOK(Done(id, ops, end)) && Flushable(left, now) && Buffered(r.pending, id) == IndexRecords(left)
    ensures var r', b := Recover(r, ops + [end], now), Absorb(Done(id, ops, end), left, now);
            r'.index == ReplayBlock(r.index, b, now)
            && forall i :: Buffered(r'.pending, i) == if i == id then [] else Buffered(r.pending, i)
  {
    Snoc(ops, end);
    RecoverOps(r, id, ops, now);
    DecimalRoundTrip(id);
    var r1 := Recover(r, ops, now);
    forall i ensures Buffered(r1.pending - {id}, i) == if i == id then [] else Buffered(r.pending, i) {
      assert Buffered(r1.pending - {id}, i) == Buffered(r.pending - {id}, i);
    }
    FlushIsApply(r.index, id, ops, now);
    if left != [] {
      AbsorbedBatch(r.index, left, id, ops, now);
    } else {
      assert Buffered(r.pending, id) + Kept(ops, now) == Kept(ops, now);
    }
  }

  // The flush with leftovers, as one update.
  lemma AbsorbedBatch(index: Index, left: seq<Entry>, id: nat, ops: seq<Entry>, now: int)
    requires OpsOK(id, ops) && Flushable(left, now)
    ensures Flush(DropExpired(index, ops, now), IndexRecords(left) + Kept(ops, now))
         == ApplyOps(index, Expired(ops, now) + left + Unexpired(ops, now), now)
  {
    var dropped := DropExpired(index, ops, now);
    ApplyExpired(index, ops, now);
    ApplyAppend(index, Expired(ops, now) + left, Unexpired(ops, now), now);
    ApplyAppend(index, Expired(ops, now), left, now);
    ApplyIsFlush(dropped, left, now);
    UnexpiredFlushable(id, ops, now);
    ApplyIsFlush(ApplyOps(dropped, left, now), Unexpired(ops, now), now);
    KeptIsUnexpired(ops, now);
    FlushAppend(dropped, IndexRecords(left), Kept(ops, now));
  }

  // ---------- What can be read ----------

  /** Without a reused id nothing is absorbed. */
  lemma {:induction false} NothingAbsorbed(bs: seq<Block>, now: int)
    requires BlocksOK(bs)
    ensures Absorbed(bs, now) == bs
  {
    if bs != [] {
      var b := Last(bs);
      assert BlocksOK(Init(bs));
      NothingAbsorbed(Init(bs), now);
      LeftOK(Init(bs), BlockId(b), now);
      NotReused(bs);
      Unsnoc(bs);
    }
  }

  lemma NotReused(bs: seq<Block>)
    requires BlocksOK(bs) && bs != []
    ensures Last(bs).Done? ==> Last(bs).id !in TornIds(Init(bs))
  {
    forall i | 0 <= i < |Init(bs)| && Init(bs)[i].Torn? ensures Last(bs).Done? ==> Init(bs)[i].id != Last(bs).id {
      assert Init(bs)[i] == bs[i];
    }
  }

  // The absorbed log holds records of the log itself.
  lemma {:induction false} AbsorbedIn(bs: seq<Block>, now: int, k: Bytes)
    requires WellFormed(bs)
    ensures forall i :: 0 <= i < |Absorbed(bs, now)| ==> Shaped(Absorbed(bs, now)[i])
    ensures k in Newest(Absorbed(bs, now)) ==>
      Newest(Absorbed(bs, now))[k] in Flat(bs) && Newest(Absorbed(bs, now))[k].rec.key == k
  {
    if bs != [] {
      var b, left := Last(bs), Left(Init(bs), BlockId(Last(bs)), now);
      AbsorbedIn(Init(bs), now, k);
      LeftOK(Init(bs), BlockId(b), now);
      assert BlockOK(b);
      AbsorbIn(b, left, Flat(Init(bs)), now, k);
      hide Left, Absorb, BlockOK, WellFormed, Entries, Committed, Shaped;
      Snoc(Absorbed(Init(bs), now), Absorb(b, left, now));
    }
  }

  lemma AbsorbIn(b: Block, left: seq<Entry>, flat: seq<Entry>, now: int, k: Bytes)
    requires BlockOK(b) && Flushable(left, now) && forall e :: e in left ==> e in flat
    ensures Shaped(Absorb(b, left, now))
    ensures k in Committed(Absorb(b, left, now)) ==>
      Committed(Absorb(b, left, now))[k] in flat + Entries(b) && Committed(Absorb(b, left, now))[k].rec.key == k
  {
    match b {
      case Merged(e) =>
      case Torn(_, _) =>
      case Done(id, ops, _) =>
        ApplyExpired(map[], ops, now);
        UnexpiredOK(ops, now);
    }
  }

  /** What recovery makes visible: the live contents of the absorbed log, without the keys that torn records
      erase. */
  ghost function Recovered(bs: seq<Block>, now: int): Contents {
    var absorbed := Absorbed(bs, now);
    map k | k in Live(Meaning(Newest(absorbed)), now) && !Damaged(absorbed, now, k) :: StoredOf(Newest(absorbed)[k].rec)
  }

  lemma RecoveredIsVisible(bs: seq<Block>, now: int)
    requires WellFormed(bs) && Spaced(Flat(bs))
    ensures Visible(Recover(Recovery(map[], map[]), Flat(bs), now).index, Flat(bs), now) == Recovered(bs, now)
  {
    hide Recover, WellFormed, Absorbed, Damaged, Newest, Replay, Read, Flat, Spaced;
    RecoverIsAbsorbed(bs, now);
    var index := Replay(map[], Absorbed(bs, now), now);
    forall k ensures k in Visible(index, Flat(bs), now) <==> k in Recovered(bs, now)
      ensures k in Recovered(bs, now) ==> Visible(index, Flat(bs), now)[k] == Recovered(bs, now)[k]
    {
      RecoveredKey(bs, now, k);
    }
    assert Visible(index, Flat(bs), now) == Recovered(bs, now);
  }

  lemma RecoveredKey(bs: seq<Block>, now: int, k: Bytes)
    requires WellFormed(bs) && Spaced(Flat(bs))
    ensures var index := Replay(map[], Absorbed(bs, now), now);
            && (k in Visible(index, Flat(bs), now) <==> k in Recovered(bs, now))
            && (k in Recovered(bs, now) ==> Visible(index, Flat(bs), now)[k] == Recovered(bs, now)[k])
  {
    hide WellFormed, Absorbed, Damaged, Newest, Replay, Read, Flat, Spaced;
    var a := Absorbed(bs, now);
    AbsorbedIn(bs, now, k);
    ReplayShapedAt(a, now, k);
    if k in Newest(a) {
      ReadFinds(Flat(bs), Newest(a)[k]);
    }
  }

  // ---------- Which keys a reused id touches ----------

  /** The record of a torn batch that recovery takes last for a key, if there is one: the last block that
      commits, absorbs or erases the key is a finished batch that has the key among the buffered records of
      its id, and does not write it itself, unless with a record that has expired. */
  function Taken(bs: seq<Block>, now: int, k: Bytes): Option<Entry> {
    if bs == [] then None else
    match Last(bs)
    case Merged(e) => if e.rec.key == k then None else Taken(Init(bs), now, k)
    case Torn(_, ops) => if k in OpMap(Expired(ops, now)) then None else Taken(Init(bs), now, k)
    case Done(id, ops, _) =>
      var own, left := OpMap(ops), OpMap(Left(Init(bs), id, now));
      if k in own && !own[k].rec.IsExpired(now) then None
      else if k in left then Some(left[k])
      else if k in own then None
      else Taken(Init(bs), now, k)
  }

  /** A finished batch has the id of an earlier torn one, and the torn one holds this record. */
  ghost predicate FromTorn(bs: seq<Block>, e: Entry) {
    exists i, j :: 0 <= i < j < |bs| && bs[i].Torn? && bs[j].Done? && bs[i].id == bs[j].id && e in bs[i].ops
  }

  // The buffered records of an id come from torn batches of that id.
  lemma {:induction false} LeftFrom(bs: seq<Block>, id: nat, now: int, e: Entry) returns (i: nat)
    requires e in Left(bs, id, now)
    ensures i < |bs| && bs[i].Torn? && bs[i].id == id && e in bs[i].ops && !e.rec.IsExpired(now)
  {
    if Last(bs).Torn? && Last(bs).id == id {
      UnexpiredOK(Last(bs).ops, now);
    }
    if Last(bs).Torn? && Last(bs).id == id && e in Unexpired(Last(bs).ops, now) {
      i := |bs| - 1;
    } else {
      i := LeftFrom(Init(bs), id, now, e);
    }
  }

  /** Only the unexpired records of torn batches whose ids are reused can be taken, each for its own key. */
  lemma {:induction false} TakenFrom(bs: seq<Block>, now: int, k: Bytes)
    requires Taken(bs, now, k).Some?
    ensures var e := Taken(bs, now, k).value;
            FromTorn(bs, e) && e.rec.key == k && !e.rec.IsExpired(now)
  {
    var e, b := Taken(bs, now, k).value, Last(bs);
    if b.Done? && e in Left(Init(bs), b.id, now) && e.rec.key == k {
      var i := LeftFrom(Init(bs), b.id, now, e);
      assert bs[i] == Init(bs)[i] && bs[|bs| - 1] == b;
    } else {
      TakenFrom(Init(bs), now, k);
      var i, j :| 0 <= i < j < |Init(bs)| && Init(bs)[i].Torn? && Init(bs)[j].Done?
                  && Init(bs)[i].id == Init(bs)[j].id && e in Init(bs)[i].ops;
      assert bs[i] == Init(bs)[i] && bs[j] == Init(bs)[j];
    }
  }

  lemma {:induction false} OpMapAppend(a: seq<Entry>, b: seq<Entry>)
    ensures OpMap(a + b) == OpMap(a) + OpMap(b)
  {
    if b == [] {
      assert a + b == a;
    } else {
      InitAppend(a, b);
      OpMapAppend(a, Init(b));
      UnionUpdate(OpMap(a), OpMap(Init(b)), Last(b).rec.key, Last(b));
    }
  }

  // A batch splits into its expired and its unexpired writes.
  lemma {:induction false} Split(id: nat, ops: seq<Entry>, now: int, k: Bytes)
    requires OpsOK(id, ops)
    ensures var own, old', new' := OpMap(ops), OpMap(Expired(ops, now)), OpMap(Unexpired(ops, now));
            && (k in new' <==> k in own && !own[k].rec.IsExpired(now)) && (k in new' ==> new'[k] == own[k])
            && (k in old' <==> k in own && own[k].rec.IsExpired(now)) && (k in old' ==> old'[k] == own[k])
  {
    if ops != [] {
      var e := Last(ops);
      Split(id, Init(ops), now, k);
      Snoc(Unexpired(Init(ops), now), e);
      Snoc(Expired(Init(ops), now), e);
      WrittenOnce(id, ops);
    }
  }

  lemma WrittenOnce(id: nat, ops: seq<Entry>)
    requires OpsOK(id, ops) && ops != []
    ensures Last(ops).rec.key !in OpMap(Init(ops))
  {
    forall e | e in Init(ops) ensures e.rec.key != Last(ops).rec.key {
      var i :| 0 <= i < |Init(ops)| && Init(ops)[i] == e;
      assert ops[i].rec.key != ops[|ops| - 1].rec.key;
    }
  }

  // What the absorbed batch says of one key.
  lemma AbsorbedOps(id: nat, ops: seq<Entry>, end: Entry, left: seq<Entry>, now: int, k: Bytes)
    requires OpsOK(id, ops)
    ensures var c, own := Committed(Absorb(Done(id, ops, end), left, now)), OpMap(ops);
            if k in own && !own[k].rec.IsExpired(now) then k in c && c[k] == own[k]
            else if k in OpMap(left) then k in c && c[k] == OpMap(left)[k]
            else (k in c <==> k in own) && (k in c ==> c[k] == own[k])
  {
    Split(id, ops, now, k);
    OpMapAppend(Expired(ops, now) + left, Unexpired(ops, now));
    OpMapAppend(Expired(ops, now), left);
    hide OpMap, Expired, Unexpired, OpsOK;
  }

  lemma {:induction false} ExpiredIn(ops: seq<Entry>, now: int, e: Entry)
    ensures e in Expired(ops, now) <==> e in ops && e.rec.IsExpired(now)
  {
    if ops != [] {
      ExpiredIn(Init(ops), now, e);
      Unsnoc(ops);
    }
  }

  lemma ErasesIs(b: Block, now: int, k: Bytes)
    requires b.Torn?
    ensures Erases(b, now, k) <==> k in OpMap(Expired(b.ops, now))
  {
    if Erases(b, now, k) {
      var i :| 0 <= i < |b.ops| && b.ops[i].rec.key == k && b.ops[i].rec.IsExpired(now);
      ExpiredIn(b.ops, now, b.ops[i]);
    }
    if k in OpMap(Expired(b.ops, now)) {
      ExpiredIn(b.ops, now, OpMap(Expired(b.ops, now))[k]);
    }
  }

  /** The newest committed record of a key, if it is live and no torn record erases it. */
  ghost function ShownOf(bs: seq<Block>, now: int, k: Bytes): Option<LogRecord> {
    if k in Newest(bs) && Newest(bs)[k].rec.typ == NORMAL && !Newest(bs)[k].rec.IsExpired(now) && !Damaged(bs, now, k)
    then Some(Newest(bs)[k].rec) else None
  }

  /** A key that is taken shows the taken record; any other key shows what it would show without reuse. */
  ghost function ShownAfter(bs: seq<Block>, now: int, k: Bytes): Option<LogRecord> {
    match Taken(bs, now, k)
    case Some(e) => if e.rec.typ == NORMAL then Some(e.rec) else None
    case None => ShownOf(bs, now, k)
  }

  function Readable(r: LogRecord, now: int): Option<LogRecord> {
    if r.typ == NORMAL && !r.IsExpired(now) then Some(r) else None
  }

  lemma ShownStep(bs: seq<Block>, now: int, k: Bytes)
    requires bs != []
    ensures var c := Committed(Last(bs));
            ShownOf(bs, now, k) == if Erases(Last(bs), now, k) then None
                                   else if k in c then Readable(c[k].rec, now)
                                   else ShownOf(Init(bs), now, k)
  {
    hide Damaged, Erases, Committed;
    DamagedStep(bs, now, k);
  }

  lemma {:induction false} AbsorbedShows(bs: seq<Block>, now: int, k: Bytes)
    requires WellFormed(bs)
    ensures ShownOf(Absorbed(bs, now), now, k) == ShownAfter(bs, now, k)
  {
    if bs != [] {
      var before, b := Init(bs), Last(bs);
      AbsorbedShows(before, now, k);
      LeftOK(before, BlockId(b), now);
      hide Left, Damaged, Absorb, Erases, Committed, ShownOf;
      Snoc(Absorbed(before, now), Absorb(b, Left(before, BlockId(b), now), now));
      ShownStep(bs, now, k);
      ShownStep(Absorbed(bs, now), now, k);
      AbsorbedBlock(b, Left(before, BlockId(b), now), now, k);
    }
  }

  // One block of the log and what it becomes, for one key.
  ghost predicate BecomesAt(b: Block, left: seq<Entry>, a: Block, now: int, k: Bytes) {
    match b
    case Merged(e) => a == b && !Erases(b, now, k)
    case Torn(_, ops) => a == b && (Erases(b, now, k) <==> k in OpMap(Expired(ops, now)))
    case Done(_, ops, _) =>
      var c, own, kept := Committed(a), OpMap(ops), OpMap(left);
      && !Erases(a, now, k) && !Erases(b, now, k)
      && (k in kept ==> !kept[k].rec.IsExpired(now) && kept[k].rec.typ in {NORMAL, DELETED})
      && (if k in own && !own[k].rec.IsExpired(now) then k in c && c[k] == own[k]
          else if k in kept then k in c && c[k] == kept[k]
          else (k in c <==> k in own) && (k in c ==> c[k] == own[k]))
  }

  lemma AbsorbedBlock(b: Block, left: seq<Entry>, now: int, k: Bytes)
    requires BlockOK(b) && Flushable(left, now)
    ensures BecomesAt(b, left, Absorb(b, left, now), now, k)
  {
    match b {
      case Merged(e) =>
      case Torn(_, ops) => ErasesIs(b, now, k);
      case Done(id, ops, end) =>
        AbsorbedOps(id, ops, end, left, now, k);
        assert k in OpMap(left) ==> OpMap(left)[k] in left;
    }
  }

  // ---------- The exact effect ----------

  /** What a reused id does and does not do, key by key. A key that is not taken can be read exactly if it is
      live and no torn record erases it, and reads its newest committed record, as without reuse. A key that
      is taken reads the torn batch's record, or cannot be read if that is a delete. */
  lemma ReuseFrame(bs: seq<Block>, now: int, k: Bytes)
    requires WellFormed(bs) && Spaced(Flat(bs))
    ensures var shown := Visible(Recover(Recovery(map[], map[]), Flat(bs), now).index, Flat(bs), now);
            var live := Live(Meaning(Newest(bs)), now);
            match Taken(bs, now, k)
            case None => (k in shown <==> k in live && !Damaged(bs, now, k)) && (k in shown ==> shown[k] == live[k])
            case Some(e) => (k in shown <==> e.rec.typ == NORMAL) && (k in shown ==> shown[k] == StoredOf(e.rec))
  {
    hide Recover, Absorbed, Damaged, Newest, Flat, Spaced, Taken;
    RecoveredIsVisible(bs, now);
    AbsorbedShows(bs, now, k);
  }

  /** Recovery gives the key back as the log has it: a key that is not taken must not be erased by a torn
      record while it is live; a taken one must say what the newest committed record says. */
  ghost predicate ReuseHarmless(bs: seq<Block>, now: int, k: Bytes) {
    var live := Live(Meaning(Newest(bs)), now);
    match Taken(bs, now, k)
    case None => k in live ==> !Damaged(bs, now, k)
    case Some(e) => if e.rec.typ == NORMAL then k in live && live[k] == StoredOf(e.rec) else k !in live
  }

  /** Recovery of any well-formed log, ids reused or not, shows exactly what the log says if and only if no
      torn record erases a live key that is not taken, and each record that is taken from a torn batch
      agrees with the newest committed one of its key. */
  lemma ReuseExact(bs: seq<Block>, now: int)
    requires WellFormed(bs) && Spaced(Flat(bs))
    ensures Visible(Recover(Recovery(map[], map[]), Flat(bs), now).index, Flat(bs), now) == Live(Meaning(Newest(bs)), now)
            <==> forall k :: ReuseHarmless(bs, now, k)
  {
    hide WellFormed, Recover, Damaged, Newest, Flat, Spaced, Taken, Visible, Live, Meaning;
    var shown := Visible(Recover(Recovery(map[], map[]), Flat(bs), now).index, Flat(bs), now);
    var live := Live(Meaning(Newest(bs)), now);
    forall k
      ensures ReuseHarmless(bs, now, k) <==> (k in shown <==> k in live) && (k in shown ==> shown[k] == live[k])
    {
      ReuseFrame(bs, now, k);
    }
    if forall k :: ReuseHarmless(bs, now, k) {
      forall k ensures (k in shown <==> k in live) && (k in shown ==> shown[k] == live[k]) {
        assert ReuseHarmless(bs, now, k);
      }
      assert shown == live;
    }
  }

  /** Without a reused id nothing is taken. */
  lemma NothingTaken(bs: seq<Block>, now: int, k: Bytes)
    requires BlocksOK(bs)
    ensures Taken(bs, now, k) == None
  {
    if Taken(bs, now, k).Some? {
      TakenFrom(bs, now, k);
    }
  }
}
