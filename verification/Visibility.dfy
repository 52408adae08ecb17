/** What a reader sees through the index, and exactly when recovery restores it. */
module Visibility {
  import opened Record
  import opened Seqs
  import opened Log
  import Codec

  // ---------- Positions ----------

  // The seven bytes of a chunk header (merge.go:313).
  const CHUNK_HEADER: nat := 7

  /** What a record takes up in a segment. */
  function Cost(r: LogRecord): nat {
    CHUNK_HEADER + |Codec.Encode(r)|
  }

  /** Where the next chunk of the same segment may start. */
  function End(e: Entry): Pos {
    Pos(e.pos.seg, e.pos.off + Cost(e.rec))
  }

  predicate AtMost(p: Pos, q: Pos) {
    p.seg < q.seg || (p.seg == q.seg && p.off <= q.off)
  }

  /** Reading order is position order, and chunks do not overlap. */
  ghost predicate Spaced(es: seq<Entry>) {
    forall i, j :: 0 <= i < j < |es| ==> AtMost(End(es[i]), es[j].pos)
  }

  /** WAL.Read: the record whose chunk starts at `p`. */
  function Read(es: seq<Entry>, p: Pos): Option<LogRecord> {
    if es == [] then None
    else if Last(es).pos == p then Some(Last(es).rec)
    else Read(Init(es), p)
  }

  lemma {:induction false} ReadFinds(es: seq<Entry>, e: Entry)
    requires Spaced(es) && e in es
    ensures Read(es, e.pos) == Some(e.rec)
  {
    if Last(es) != e {
      var i :| 0 <= i < |es| && es[i] == e;
      assert AtMost(End(es[i]), es[|es| - 1].pos);
      assert Init(es)[i] == e;
      ReadFinds(Init(es), e);
    }
  }

  lemma OneAtEachPosition(es: seq<Entry>, d: Entry, e: Entry)
    requires Spaced(es) && d in es && e in es && d.pos == e.pos
    ensures d == e
  {
    ReadFinds(es, d);
    ReadFinds(es, e);
  }

  // ---------- The index and what it shows ----------

  /** What reads return at time `t`: the record under the index entry, unless it is a delete marker
      or has expired (batch.go:200-218, db.go:644-651). */
  function Visible(index: Index, es: seq<Entry>, t: int): Contents {
    map k | k in index && Shown(Read(es, index[k]), t) :: StoredOf(Read(es, index[k]).value)
  }

  predicate Shown(r: Option<LogRecord>, t: int) {
    r.Some? && r.value.typ != DELETED && !r.value.IsExpired(t)
  }

  /** Every index entry is the position of the newest committed record of its key, a Normal one, and
      only keys whose newest record has expired by `t` may be missing. */
  ghost predicate IndexOK(index: Index, newest: map<Bytes, Entry>, t: int) {
    && (forall k :: k in index ==> k in newest && newest[k].rec.typ == NORMAL && index[k] == newest[k].pos)
    && (forall k :: k in newest && newest[k].rec.typ == NORMAL && k !in index ==> newest[k].rec.IsExpired(t))
  }

  lemma IndexOKLater(index: Index, newest: map<Bytes, Entry>, t: int, t': int)
    requires IndexOK(index, newest, t) && t <= t'
    ensures IndexOK(index, newest, t')
  {
  }

  /** Under IndexOK, the record behind an index entry is a Normal record of that very key: the
      panic "Deleted data cannot exist in the index" (batch.go:211-213) is unreachable. */
  lemma IndexedRecord(index: Index, bs: seq<Block>, t: int, k: Bytes)
    requires BlocksOK(bs) && Spaced(Flat(bs)) && IndexOK(index, Newest(bs), t) && k in index
    ensures Read(Flat(bs), index[k]) == Some(Newest(bs)[k].rec)
    ensures Newest(bs)[k].rec.typ == NORMAL && Newest(bs)[k].rec.key == k
  {
    NewestIn(bs, k);
    ReadFinds(Flat(bs), Newest(bs)[k]);
  }

  /** A correct index shows exactly the live part of what the log says. */
  lemma VisibleIsLive(index: Index, bs: seq<Block>, t: int, t': int)
    requires BlocksOK(bs) && Spaced(Flat(bs)) && IndexOK(index, Newest(bs), t) && t <= t'
    ensures Visible(index, Flat(bs), t') == Live(Meaning(Newest(bs)), t')
  {
    hide BlocksOK, Spaced, Flat, Newest, Read;
    forall k | k in index
      ensures Read(Flat(bs), index[k]) == Some(Newest(bs)[k].rec)
    {
      IndexedRecord(index, bs, t, k);
    }
  }

  // ---------- Exactly when recovery is right ----------

  /** A torn record of `k` that has expired: recovery takes `k` out of the index on meeting it,
      before knowing whether its batch was finished (db.go:727-729). */
  ghost predicate Erases(b: Block, now: int, k: Bytes) {
    b.Torn? && exists i :: 0 <= i < |b.ops| && b.ops[i].rec.key == k && b.ops[i].rec.IsExpired(now)
  }

  /** Some torn block erases `k` and nothing after it commits `k` again. */
  ghost predicate Damaged(bs: seq<Block>, now: int, k: Bytes) {
    exists i :: 0 <= i < |bs| && Erases(bs[i], now, k) && forall j :: i < j < |bs| ==> k !in Committed(bs[j])
  }

  lemma DamagedStep(bs: seq<Block>, now: int, k: Bytes)
    requires bs != []
    ensures Damaged(bs, now, k) <==> Erases(Last(bs), now, k) || (Damaged(Init(bs), now, k) && k !in Committed(Last(bs)))
  {
    hide Erases, Committed;
    var n := |bs| - 1;
    if Damaged(bs, now, k) {
      var i :| 0 <= i < |bs| && Erases(bs[i], now, k) && forall j :: i < j < |bs| ==> k !in Committed(bs[j]);
      if i < n {
        assert k !in Committed(bs[n]);
        assert Erases(Init(bs)[i], now, k);
        forall j | i < j < |Init(bs)| ensures k !in Committed(Init(bs)[j]) { assert Init(bs)[j] == bs[j]; }
      }
    }
    if Erases(Last(bs), now, k) {
      assert Erases(bs[n], now, k);
    }
    if Damaged(Init(bs), now, k) && k !in Committed(Last(bs)) {
      var i :| 0 <= i < n && Erases(Init(bs)[i], now, k) && forall j :: i < j < n ==> k !in Committed(Init(bs)[j]);
      assert Erases(bs[i], now, k);
      forall j | i < j < |bs| ensures k !in Committed(bs[j]) { if j < n { assert Init(bs)[j] == bs[j]; } }
    }
  }

  // What ApplyOps and DropExpired do to one key.
  lemma {:induction false} ApplyOpsAt(index: Index, ops: seq<Entry>, now: int, k: Bytes)
    ensures var r, m := ApplyOps(index, ops, now), OpMap(ops);
            if k !in m then (k in r <==> k in index) && (k in r ==> r[k] == index[k])
            else if m[k].rec.typ == DELETED || m[k].rec.IsExpired(now) then k !in r
            else k in r && r[k] == m[k].pos
  {
    if ops != [] {
      ApplyOpsAt(index, Init(ops), now, k);
    }
  }

  lemma {:induction false} DropExpiredAt(index: Index, ops: seq<Entry>, now: int, k: Bytes)
    ensures var r := DropExpired(index, ops, now);
            var gone := exists i :: 0 <= i < |ops| && ops[i].rec.key == k && ops[i].rec.IsExpired(now);
            (k in r <==> k in index && !gone) && (k in r ==> r[k] == index[k])
  {
    if ops != [] {
      DropExpiredAt(index, Init(ops), now, k);
      var gone := exists i :: 0 <= i < |ops| && ops[i].rec.key == k && ops[i].rec.IsExpired(now);
      var before := exists i :: 0 <= i < |Init(ops)| && Init(ops)[i].rec.key == k && Init(ops)[i].rec.IsExpired(now);
      if before {
        var i :| 0 <= i < |Init(ops)| && Init(ops)[i].rec.key == k && Init(ops)[i].rec.IsExpired(now);
        assert ops[i] == Init(ops)[i];
      }
      if gone && !(Last(ops).rec.key == k && Last(ops).rec.IsExpired(now)) {
        var i :| 0 <= i < |ops| && ops[i].rec.key == k && ops[i].rec.IsExpired(now);
        assert ops[i] == Init(ops)[i];
      }
    }
  }

  ghost predicate ReplayedKey(index: Index, bs: seq<Block>, now: int, k: Bytes) {
    var m := Newest(bs);
    && (k in index ==> k in m && m[k].rec.typ == NORMAL && index[k] == m[k].pos && !Damaged(bs, now, k))
    && (k in m && m[k].rec.typ == NORMAL && !m[k].rec.IsExpired(now) && !Damaged(bs, now, k) ==> k in index)
  }

  /** Rewritten records are Normal, and batches hold puts and deletes. */
  ghost predicate Shaped(b: Block) {
    match b
    case Merged(e) => e.rec.typ == NORMAL
    case Torn(_, ops) => forall e :: e in ops ==> e.rec.typ in {NORMAL, DELETED}
    case Done(_, ops, _) => forall e :: e in ops ==> e.rec.typ in {NORMAL, DELETED}
  }

  lemma {:induction false} ReplayShapedAt(bs: seq<Block>, now: int, k: Bytes)
    requires forall i :: 0 <= i < |bs| ==> Shaped(bs[i])
    ensures ReplayedKey(Replay(map[], bs, now), bs, now, k)
  {
    if bs != [] {
      ReplayShapedAt(Init(bs), now, k);
      DamagedStep(bs, now, k);
      var before := Replay(map[], Init(bs), now);
      assert Shaped(Last(bs));
      match Last(bs) {
        case Merged(e) =>
        case Torn(id, ops) =>
          DropExpiredAt(before, ops, now, k);
        case Done(id, ops, end) =>
          ApplyOpsAt(before, ops, now, k);
          assert k in OpMap(ops) ==> OpMap(ops)[k] in ops;
      }
    }
  }

  /** Key by key, what recovery puts into the index: the newest committed record, if it is Normal and
      has not expired, unless a torn record erased it. */
  lemma ReplayAt(bs: seq<Block>, now: int, k: Bytes)
    requires BlocksOK(bs)
    ensures ReplayedKey(Replay(map[], bs, now), bs, now, k)
  {
    forall i | 0 <= i < |bs| ensures Shaped(bs[i]) {
      assert BlockOK(bs[i]);
    }
    hide BlocksOK, Shaped, ReplayedKey;
    ReplayShapedAt(bs, now, k);
  }

  lemma NewestOp(id: nat, ops: seq<Entry>, k: Bytes)
    requires OpsOK(id, ops)
    ensures k in OpMap(ops) ==> OpMap(ops)[k].rec.typ in {NORMAL, DELETED}
  {
    if k in OpMap(ops) {
      assert OpMap(ops)[k] in ops;
    }
  }

  /** No torn record has erased a key that is live at `now`. */
  ghost predicate Harmless(bs: seq<Block>, now: int) {
    forall k :: k in Live(Meaning(Newest(bs)), now) ==> !Damaged(bs, now, k)
  }

  /** Recovery at `now` makes visible exactly the live part of what the log says, and leaves a correct
      index, if and only if no torn record is harmful. */
  lemma RecoveryExact(bs: seq<Block>, now: int)
    requires BlocksOK(bs) && Spaced(Flat(bs))
    ensures Harmless(bs, now) ==> IndexOK(Replay(map[], bs, now), Newest(bs), now)
    ensures Visible(Replay(map[], bs, now), Flat(bs), now).Keys <= Live(Meaning(Newest(bs)), now).Keys
    ensures Harmless(bs, now) <==> Visible(Replay(map[], bs, now), Flat(bs), now) == Live(Meaning(Newest(bs)), now)
  {
    var r, m := Replay(map[], bs, now), Newest(bs);
    forall k ensures ReplayedKey(r, bs, now, k) {
      ReplayAt(bs, now, k);
    }
    assert forall k :: k in Live(Meaning(m), now) <==> k in m && m[k].rec.typ == NORMAL && !m[k].rec.IsExpired(now);
    forall k | k in Visible(r, Flat(bs), now) ensures k in Live(Meaning(m), now) {
      assert ReplayedKey(r, bs, now, k);
      NewestIn(bs, k);
      ReadFinds(Flat(bs), m[k]);
    }
    if Harmless(bs, now) {
      forall k ensures k in m && m[k].rec.typ == NORMAL && k !in r ==> m[k].rec.IsExpired(now) {
        assert ReplayedKey(r, bs, now, k);
      }
      forall k | k in r ensures k in m && m[k].rec.typ == NORMAL && r[k] == m[k].pos {
        assert ReplayedKey(r, bs, now, k);
      }
      VisibleIsLive(r, bs, now, now);
    } else {
      var k :| k in Live(Meaning(m), now) && Damaged(bs, now, k);
      assert ReplayedKey(r, bs, now, k);
      assert k !in Visible(r, Flat(bs), now);
    }
  }

  // A key ends up the same from two starting points that agree on it, or if some block commits it.
  lemma {:induction false} ReplayFrom(a0: Index, b0: Index, bs: seq<Block>, now: int, k: Bytes)
    requires k in Newest(bs) || ((k in a0 <==> k in b0) && (k in a0 ==> a0[k] == b0[k]))
    ensures var a, b := Replay(a0, bs, now), Replay(b0, bs, now);
            (k in a <==> k in b) && (k in a ==> a[k] == b[k])
  {
    if bs != [] {
      var a, b := Replay(a0, Init(bs), now), Replay(b0, Init(bs), now);
      if k in Newest(Init(bs)) || ((k in a0 <==> k in b0) && (k in a0 ==> a0[k] == b0[k])) {
        ReplayFrom(a0, b0, Init(bs), now, k);
      }
      match Last(bs) {
        case Merged(e) =>
        case Torn(id, ops) =>
          DropExpiredAt(a, ops, now, k);
          DropExpiredAt(b, ops, now, k);
        case Done(id, ops, end) =>
          ApplyOpsAt(a, ops, now, k);
          ApplyOpsAt(b, ops, now, k);
      }
    }
  }

  // A key that no block commits keeps its entry unless a torn record erases it.
  lemma {:induction false} ReplayUntouched(index: Index, bs: seq<Block>, now: int, k: Bytes)
    requires k !in Newest(bs)
    ensures var a := Replay(index, bs, now);
            (k in a <==> k in index && !Damaged(bs, now, k)) && (k in a ==> a[k] == index[k])
  {
    if bs != [] {
      var a := Replay(index, Init(bs), now);
      ReplayUntouched(index, Init(bs), now, k);
      DamagedStep(bs, now, k);
      match Last(bs) {
        case Merged(e) =>
        case Torn(id, ops) => DropExpiredAt(a, ops, now, k);
        case Done(id, ops, end) => ApplyOpsAt(a, ops, now, k);
      }
    }
  }
}
