/** What a log means: which records count, what recovery makes of them (db.go:674-742), and which
    position the index has to hold for a key. */
module Log {
  import opened Record
  import opened Seqs

  /** Where a chunk starts: its segment and the byte offset inside it. */
  datatype Pos = Pos(seg: nat, off: nat)

  datatype Entry = Entry(pos: Pos, rec: LogRecord)

  type Index = map<Bytes, Pos>

  // ---------- The shape of a log ----------

  /** A log is a sequence of blocks: a record that compaction rewrote, a finished batch with its
      end record, or what a crash left of a batch. */
  datatype Block =
    | Merged(e: Entry)
    | Done(id: nat, ops: seq<Entry>, end: Entry)
    | Torn(id: nat, ops: seq<Entry>)

  function Entries(b: Block): seq<Entry> {
    match b
    case Merged(e) => [e]
    case Done(_, ops, end) => ops + [end]
    case Torn(_, ops) => ops
  }

  /** The records on disk, in reading order. */
  function Flat(bs: seq<Block>): seq<Entry> {
    if bs == [] then [] else Flat(Init(bs)) + Entries(Last(bs))
  }

  lemma {:induction false} FlatAppend(a: seq<Block>, b: seq<Block>)
    ensures Flat(a + b) == Flat(a) + Flat(b)
  {
    if b == [] {
      assert a + b == a;
    } else {
      InitAppend(a, b);
      FlatAppend(a, Init(b));
    }
  }

  ghost predicate OpsOK(id: nat, ops: seq<Entry>) {
    && (forall i :: 0 <= i < |ops| ==> ops[i].rec.batchId == id && ops[i].rec.typ in {NORMAL, DELETED})
    && (forall i, j :: 0 <= i < j < |ops| ==> ops[i].rec.key != ops[j].rec.key)
  }

  /** Batch ids are never 0, a batch holds each key once, and a rewritten record carries id 0. */
  ghost predicate BlockOK(b: Block) {
    match b
    case Merged(e) => e.rec.typ == NORMAL && e.rec.batchId == MERGE_FINISHED_BATCH_ID
    case Done(id, ops, end) => id != 0 && OpsOK(id, ops) && end.rec == EndRecord(id)
    case Torn(id, ops) => id != 0 && OpsOK(id, ops)
  }

  /** Well-formed blocks, and no finished batch reuses the id of an earlier torn one.
      Finished batches may share an id. */
  ghost predicate BlocksOK(bs: seq<Block>) {
    && (forall i :: 0 <= i < |bs| ==> BlockOK(bs[i]))
    && (forall i, j :: 0 <= i < j < |bs| && bs[i].Torn? && bs[j].Done? ==> bs[i].id != bs[j].id)
  }

  ghost function TornIds(bs: seq<Block>): set<nat> {
    set i | 0 <= i < |bs| && bs[i].Torn? :: bs[i].id
  }

  // ---------- The newest committed record of each key ----------

  function OpMap(ops: seq<Entry>): (m: map<Bytes, Entry>)
    ensures forall k :: k in m ==> m[k] in ops && m[k].rec.key == k
    ensures forall e :: e in ops ==> e.rec.key in m
  {
    if ops == [] then map[] else OpMap(Init(ops))[Last(ops).rec.key := Last(ops)]
  }

  function Committed(b: Block): map<Bytes, Entry> {
    match b
    case Merged(e) => map[e.rec.key := e]
    case Done(_, ops, _) => OpMap(ops)
    case Torn(_, _) => map[]
  }

  function Newest(bs: seq<Block>): map<Bytes, Entry> {
    if bs == [] then map[] else Newest(Init(bs)) + Committed(Last(bs))
  }

  lemma UnionAssociative<K, V>(a: map<K, V>, b: map<K, V>, c: map<K, V>)
    ensures a + (b + c) == (a + b) + c
  {
  }

  lemma UnionUpdate<K, V>(a: map<K, V>, b: map<K, V>, k: K, v: V)
    ensures a + b[k := v] == (a + b)[k := v]
  {
  }

  lemma {:induction false} NewestAppend(a: seq<Block>, b: seq<Block>)
    ensures Newest(a + b) == Newest(a) + Newest(b)
  {
    hide Committed;
    if b == [] {
      assert a + b == a;
    } else {
      InitAppend(a, b);
      NewestAppend(a, Init(b));
      UnionAssociative(Newest(a), Newest(Init(b)), Committed(Last(b)));
    }
  }

  lemma {:induction false} NewestIn(bs: seq<Block>, k: Bytes)
    requires BlocksOK(bs) && k in Newest(bs)
    ensures Newest(bs)[k] in Flat(bs) && Newest(bs)[k].rec.key == k
    ensures Newest(bs)[k].rec.typ in {NORMAL, DELETED}
  {
    var b := Last(bs);
    if k !in Committed(b) {
      NewestIn(Init(bs), k);
    } else {
      assert Committed(b)[k] in Entries(b);
    }
  }

  // ---------- What a log says about the data ----------

  datatype Stored = Stored(value: Bytes, expire: int)

  type Contents = map<Bytes, Stored>

  function StoredOf(r: LogRecord): Stored {
    Stored(r.value, r.expire)
  }

  function Meaning(newest: map<Bytes, Entry>): Contents {
    map k | k in newest && newest[k].rec.typ == NORMAL :: StoredOf(newest[k].rec)
  }

  /** What can be read at time `t`. */
  function Live(m: Contents, t: int): Contents {
    map k | k in m && !ExpiredAt(m[k].expire, t) :: m[k]
  }

  /** The writes of a batch, laid over `m` one after the other. */
  function Overlay(m: Contents, writes: seq<LogRecord>): Contents {
    if writes == [] then m else
    var w := Last(writes);
    if w.typ == DELETED then Overlay(m, Init(writes)) - {w.key}
    else Overlay(m, Init(writes))[w.key := StoredOf(w)]
  }

  function Records(es: seq<Entry>): seq<LogRecord> {
    if es == [] then [] else Records(Init(es)) + [Last(es).rec]
  }

  lemma MeaningOfOne(m: map<Bytes, Entry>, k: Bytes, e: Entry)
    ensures Meaning(m[k := e]) == if e.rec.typ == NORMAL then Meaning(m)[k := StoredOf(e.rec)] else Meaning(m) - {k}
  {
  }

  lemma {:induction false} CommitMeaning(n: map<Bytes, Entry>, id: nat, ops: seq<Entry>)
    requires OpsOK(id, ops)
    ensures Meaning(n + OpMap(ops)) == Overlay(Meaning(n), Records(ops))
  {
    hide Meaning;
    if ops == [] {
      assert n + OpMap(ops) == n;
    } else {
      var e := Last(ops);
      CommitMeaning(n, id, Init(ops));
      UnionUpdate(n, OpMap(Init(ops)), e.rec.key, e);
      MeaningOfOne(n + OpMap(Init(ops)), e.rec.key, e);
      Snoc(Records(Init(ops)), e.rec);
      assert e.rec.typ in {NORMAL, DELETED};
    }
  }

  // ---------- Recovery, record by record (db.go:684-739) ----------

  /** IndexRecord of record.go:46-50. */
  datatype IndexRecord = IndexRecord(key: Bytes, typ: Byte, pos: Pos)

  type Pending = map<nat, seq<IndexRecord>>

  datatype Recovery = Recovery(index: Index, pending: Pending)

  function Buffered(p: Pending, id: nat): seq<IndexRecord> {
    if id in p then p[id] else []
  }

  function Flush(index: Index, rs: seq<IndexRecord>): Index {
    if rs == [] then index else
    var r := Last(rs);
    if r.typ == NORMAL then Flush(index, Init(rs))[r.key := r.pos]
    else if r.typ == DELETED then Flush(index, Init(rs)) - {r.key}
    else Flush(index, Init(rs))
  }

  function RecoverStep(r: Recovery, e: Entry, now: int): Recovery {
    if e.rec.typ == BATCH_FINISHED then
      var id := ParseDecimal(e.rec.key);
      Recovery(Flush(r.index, Buffered(r.pending, id)), r.pending - {id})
    else if e.rec.typ == NORMAL && e.rec.batchId == MERGE_FINISHED_BATCH_ID then
      r.(index := r.index[e.rec.key := e.pos])
    else if e.rec.IsExpired(now) then
      r.(index := r.index - {e.rec.key})
    else
      var record := IndexRecord(e.rec.key, e.rec.typ, e.pos);
      r.(pending := r.pending[e.rec.batchId := Buffered(r.pending, e.rec.batchId) + [record]])
  }

  function Recover(r: Recovery, es: seq<Entry>, now: int): Recovery {
    if es == [] then r else RecoverStep(Recover(r, Init(es), now), Last(es), now)
  }

  lemma {:induction false} RecoverAppend(r: Recovery, a: seq<Entry>, b: seq<Entry>, now: int)
    ensures Recover(r, a + b, now) == Recover(Recover(r, a, now), b, now)
  {
    if b == [] {
      assert a + b == a;
    } else {
      InitAppend(a, b);
      RecoverAppend(r, a, Init(b), now);
    }
  }

  // ---------- Recovery, block by block ----------

  /** The index update of a commit (batch.go:519-524). */
  function ApplyOps(index: Index, ops: seq<Entry>, now: int): Index {
    if ops == [] then index else
    var e := Last(ops);
    if e.rec.typ == DELETED || e.rec.IsExpired(now) then ApplyOps(index, Init(ops), now) - {e.rec.key}
    else ApplyOps(index, Init(ops), now)[e.rec.key := e.pos]
  }

  function DropExpired(index: Index, ops: seq<Entry>, now: int): Index {
    if ops == [] then index else
    var e := Last(ops);
    var rest := DropExpired(index, Init(ops), now);
    if e.rec.IsExpired(now) then rest - {e.rec.key} else rest
  }

  /** What recovery comes to: a rewritten record enters the index, a finished batch is applied as its
      commit applied it, and a torn batch removes the keys of its records that have expired. */
  function ReplayBlock(index: Index, b: Block, now: int): Index {
    match b
    case Merged(e) => index[e.rec.key := e.pos]
    case Done(_, ops, _) => ApplyOps(index, ops, now)
    case Torn(_, ops) => DropExpired(index, ops, now)
  }

  function Replay(index: Index, bs: seq<Block>, now: int): Index {
    if bs == [] then index else ReplayBlock(Replay(index, Init(bs), now), Last(bs), now)
  }

  lemma {:induction false} ReplayAppend(index: Index, a: seq<Block>, b: seq<Block>, now: int)
    ensures Replay(index, a + b, now) == Replay(Replay(index, a, now), b, now)
  {
    if b == [] {
      assert a + b == a;
    } else {
      InitAppend(a, b);
      ReplayAppend(index, a, Init(b), now);
    }
  }

  // The unexpired records of a batch, as they are buffered.
  function Kept(ops: seq<Entry>, now: int): seq<IndexRecord> {
    if ops == [] then [] else
    var e := Last(ops);
    if e.rec.IsExpired(now) then Kept(Init(ops), now)
    else Kept(Init(ops), now) + [IndexRecord(e.rec.key, e.rec.typ, e.pos)]
  }

  lemma {:induction false} KeptKeys(ops: seq<Entry>, now: int, k: Bytes)
    requires forall i :: 0 <= i < |ops| ==> ops[i].rec.key != k
    ensures forall i :: 0 <= i < |Kept(ops, now)| ==> Kept(ops, now)[i].key != k
  {
    if ops != [] {
      KeptKeys(Init(ops), now, k);
    }
  }

  // Removing a key commutes with flushing records of other keys.
  lemma {:induction false} FlushWithout(index: Index, rs: seq<IndexRecord>, k: Bytes)
    requires forall i :: 0 <= i < |rs| ==> rs[i].key != k
    ensures Flush(index - {k}, rs) == Flush(index, rs) - {k}
  {
    if rs != [] {
      FlushWithout(index, Init(rs), k);
    }
  }

  // Dropping first and flushing later is the commit's own update, because keys are distinct.
  lemma {:induction false} FlushIsApply(index: Index, id: nat, ops: seq<Entry>, now: int)
    requires OpsOK(id, ops)
    ensures Flush(DropExpired(index, ops, now), Kept(ops, now)) == ApplyOps(index, ops, now)
  {
    if ops != [] {
      var e := Last(ops);
      FlushIsApply(index, id, Init(ops), now);
      assert e.rec.typ in {NORMAL, DELETED};
      if e.rec.IsExpired(now) {
        KeptKeys(Init(ops), now, e.rec.key);
        FlushWithout(DropExpired(index, Init(ops), now), Kept(Init(ops), now), e.rec.key);
      } else {
        Snoc(Kept(Init(ops), now), IndexRecord(e.rec.key, e.rec.typ, e.pos));
      }
    }
  }

  lemma {:induction false} RecoverOps(r: Recovery, id: nat, ops: seq<Entry>, now: int)
    requires id != 0 && OpsOK(id, ops)
    ensures var r' := Recover(r, ops, now);
            && r'.index == DropExpired(r.index, ops, now)
            && r'.pending - {id} == r.pending - {id}
            && Buffered(r'.pending, id) == Buffered(r.pending, id) + Kept(ops, now)
  {
    if ops != [] {
      RecoverOps(r, id, Init(ops), now);
      assert Last(ops).rec.batchId == id && Last(ops).rec.typ in {NORMAL, DELETED};
    }
  }

  /** The code's pass over the records (with its per-batch buffers) computes the block-wise replay,
      for any ids of finished batches; only torn batches are left in the buffers. */
  lemma {:induction false} RecoverIsReplay(index: Index, bs: seq<Block>, now: int)
    requires BlocksOK(bs)
    ensures var r := Recover(Recovery(index, map[]), Flat(bs), now);
            r.index == Replay(index, bs, now) && r.pending.Keys <= TornIds(bs)
  {
    var start := Recovery(index, map[]);
    if bs != [] {
      hide Recover, BlockOK, ReplayBlock, Entries;
      var b, bs' := Last(bs), Init(bs);
      RecoverIsReplay(index, bs', now);
      assert TornIds(bs') <= TornIds(bs);
      RecoverAppend(start, Flat(bs'), Entries(b), now);
      if b.Torn? { assert b.id in TornIds(bs); }
      RecoverBlock(Recover(start, Flat(bs'), now), b, now);
    }
  }

  lemma RecoverBlock(r: Recovery, b: Block, now: int)
    requires BlockOK(b) && (b.Done? ==> b.id !in r.pending)
    ensures var r' := Recover(r, Entries(b), now);
            && r'.index == ReplayBlock(r.index, b, now)
            && r'.pending.Keys <= r.pending.Keys + (if b.Torn? then {b.id} else {})
  {
    match b {
      case Merged(e) =>
        assert Recover(r, [e], now) == RecoverStep(Recover(r, [], now), e, now);
      case Torn(id, ops) =>
        RecoverOps(r, id, ops, now);
        var p := Recover(r, ops, now).pending;
        forall i | i in p && i != id ensures i in r.pending {
          assert i in p - {id};
        }
      case Done(id, ops, end) =>
        RecoverDone(r, id, ops, end, now);
    }
  }

  lemma RecoverDone(r: Recovery, id: nat, ops: seq<Entry>, end: Entry, now: int)
    requires BlockOK(Done(id, ops, end)) && id !in r.pending
    ensures Recover(r, ops + [end], now) == Recovery(ApplyOps(r.index, ops, now), r.pending)
  {
    Snoc(ops, end);
    RecoverOps(r, id, ops, now);
    DecimalRoundTrip(id);
    FlushIsApply(r.index, id, ops, now);
    assert r.pending - {id} == r.pending;
    assert Buffered(r.pending, id) + Kept(ops, now) == Kept(ops, now);
  }
}
