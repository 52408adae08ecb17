/** Steps that write to the log or shrink the index: commits, torn writes and lazy deletions. */
module Committing {
  import opened Record
  import opened Seqs
  import opened Log
  import opened Visibility
  import opened Wal
  import opened Store
  import opened Hints
  import opened Recovering

  // ---------- The log grows by one block ----------

  function Grown(w: Wal, b: Block, rs: seq<LogRecord>, size: nat): Wal {
    w.MakeRoom(size).Append(b, Total(rs))
  }

  lemma GrownOK(w: Wal, b: Block, rs: seq<LogRecord>, size: nat)
    requires WalOK(w) && Total(rs) <= size <= w.cap
    requires Entries(b) == Place(rs, w.MakeRoom(size).active, w.MakeRoom(size).fill)
    ensures var w' := Grown(w, b, rs, size);
            && WalOK(w') && w'.Blocks() == w.Blocks() + [b] && w'.active >= w.active && w'.cap == w.cap
            && (forall i :: 0 <= i < |Entries(b)| ==> Entries(b)[i].pos.seg == w'.active)
  {
    hide Spaced, Cat, Flat, Place, Total;
    if w.fill + size > w.cap {
      RotateOK(w);
    }
    var w1 := w.MakeRoom(size);
    AppendOK(w1, b, rs);
    PlaceOK(rs, w1.active, w1.fill);
  }

  lemma GrownPrefix(w: Wal, b: Block, rs: seq<LogRecord>, size: nat, upTo: nat)
    requires upTo < w.active
    ensures Cat(Grown(w, b, rs, size).segs, 1, upTo) == Cat(w.segs, 1, upTo)
  {
    var w' := Grown(w, b, rs, size);
    forall i | 1 <= i <= upTo ensures Segment(w'.segs, i) == Segment(w.segs, i) {}
    CatFrame(w'.segs, w.segs, 1, upTo);
  }

  /** A new block keeps the log well formed unless it reuses the id of a torn batch. */
  lemma BlocksGrow(bs: seq<Block>, b: Block)
    requires BlocksOK(bs) && BlockOK(b) && (b.Done? ==> b.id !in TornIds(bs))
    ensures BlocksOK(bs + [b])
  {
    var c := bs + [b];
    forall i, j | 0 <= i < j < |c| && c[i].Torn? && c[j].Done? ensures c[i].id != c[j].id {
      assert bs[i] == c[i];
      if j < |bs| {
        assert bs[j] == c[j];
      } else {
        assert c[i].id in TornIds(bs);
      }
    }
  }

  lemma NewestGrow(bs: seq<Block>, b: Block)
    ensures Newest(bs + [b]) == Newest(bs) + Committed(b)
  {
    Snoc(bs, b);
  }

  // The hint file and the merge do not notice the new block.
  lemma RestKept(s: Store, s': Store, b: Block, rs: seq<LogRecord>, size: nat)
    requires Inv(s) && s'.wal == Grown(s.wal, b, rs, size) && WalOK(s'.wal)
    requires s'.wal.Blocks() == s.wal.Blocks() + [b]
    requires s'.hint == s.hint && s'.fin == s.fin && s'.merge == s.merge && s'.clock >= s.clock
    requires forall k :: k in s'.index ==>
      (k in s.index && s'.index[k] == s.index[k]) || s'.index[k].seg >= s.wal.active
    ensures HintOK(s') && MergeInv(s')
  {
    hide Spaced, Flat, WalOK, BlocksOK, MergeOK, HintsStandFor, HintMap;
    GrownPrefix(s.wal, b, rs, size, s.fin);
    GrownSuffix(s, s', b);
    StandsGrown(HintMap(s.hint), MergedPart(s), ReplayedPart(s), b, s.clock);
    StandsLater(HintMap(s.hint), MergedPart(s), ReplayedPart(s) + [b], s.clock, s'.clock);
    if !s.merge.NoMerge? {
      GrownPrefix(s.wal, b, rs, size, s.merge.upTo);
      var read := ReadOf(s);
      MergeKept(s, s'.index, read);
      assert Scanned(s', read);
    }
  }

  lemma GrownSuffix(s: Store, s': Store, b: Block)
    requires s.fin < s.wal.active <= s'.wal.active && s'.fin == s.fin && MergedPart(s') == MergedPart(s)
    requires s'.wal.Blocks() == s.wal.Blocks() + [b]
    ensures ReplayedPart(s') == ReplayedPart(s) + [b]
  {
    CatSplit(s.wal.segs, 1, s.fin, s.wal.active);
    CatSplit(s'.wal.segs, 1, s.fin, s'.wal.active);
    assert MergedPart(s) + ReplayedPart(s') == MergedPart(s) + (ReplayedPart(s) + [b]);
    assert ReplayedPart(s') == (MergedPart(s) + ReplayedPart(s'))[|MergedPart(s)|..];
  }

  /** Once a key's index position leaves the rotated segments it never returns to them: an index that
      only lost entries or moved them to newer segments leaves the merge's bookkeeping valid. */
  lemma MergeKept(s: Store, index': Index, read: seq<Entry>)
    requires WalOK(s.wal) && !s.merge.NoMerge? && Scanned(s, read) && s.merge.upTo < s.wal.active
    requires forall k :: k in index' ==> (k in s.index && index'[k] == s.index[k]) || index'[k].seg >= s.wal.active
    ensures MergeOK(Source(s), read, index', s.merge.started, s.merge.out, s.merge.hints)
  {
    hide Spaced, Flat, WalOK, KeysDistinct, CopiesOK, AtMost, Cat, Newest;
    var src := Newest(Source(s));
    forall k | k in index' && Wanted(src, read, index', s.merge.started, k)
      ensures k in Newest(s.merge.out.Blocks())
    {
      assert src[k] in Flat(Source(s));
      EntriesWithin(s.wal, 1, s.merge.upTo, src[k]);
      assert Wanted(src, read, s.index, s.merge.started, k);
    }
  }

  // ---------- Commit ----------

  /** What a batch always satisfies: its pending writes have distinct keys and are puts or deletes,
      and its id is neither 0 nor that of a torn batch. */
  ghost predicate BatchOK(s: Store, id: nat, writes: seq<LogRecord>) {
    && id != 0 && id !in TornIds(s.wal.Blocks())
    && (forall i :: 0 <= i < |writes| ==> writes[i].typ in {NORMAL, DELETED})
    && (forall i, j :: 0 <= i < j < |writes| ==> writes[i].key != writes[j].key)
  }

  lemma {:induction false} OverlayStamp(m: Contents, writes: seq<LogRecord>, id: nat)
    ensures Overlay(m, Stamp(writes, id)) == Overlay(m, writes)
  {
    if writes != [] {
      OverlayStamp(m, Init(writes), id);
      assert Init(Stamp(writes, id)) == Stamp(Init(writes), id);
    }
  }

  // Writes laid over contents that agree at `t` agree at `t`.
  lemma {:induction false} OverlayLive(a: Contents, b: Contents, writes: seq<LogRecord>, t: nat)
    requires Live(a, t) == Live(b, t)
    ensures Live(Overlay(a, writes), t) == Live(Overlay(b, writes), t)
  {
    if writes != [] {
      OverlayLive(a, b, Init(writes), t);
      LiveOfOne(Overlay(a, Init(writes)), Overlay(b, Init(writes)), Last(writes), t);
    }
  }

  lemma LivePut(m: Contents, w: LogRecord, t: nat)
    ensures Live(m[w.key := StoredOf(w)], t)
         == if ExpiredAt(w.expire, t) then Live(m, t) - {w.key} else Live(m, t)[w.key := StoredOf(w)]
  {
  }

  lemma LiveDelete(m: Contents, k: Bytes, t: nat)
    ensures Live(m - {k}, t) == Live(m, t) - {k}
  {
  }

  lemma LiveOfOne(a: Contents, b: Contents, w: LogRecord, t: nat)
    requires Live(a, t) == Live(b, t)
    ensures Live(a[w.key := StoredOf(w)], t) == Live(b[w.key := StoredOf(w)], t)
    ensures Live(a - {w.key}, t) == Live(b - {w.key}, t)
  {
    hide Live;
    LivePut(a, w, t);
    LivePut(b, w, t);
    LiveDelete(a, w.key, t);
    LiveDelete(b, w.key, t);
  }

  lemma BatchBlockOK(id: nat, writes: seq<LogRecord>, w: Wal)
    requires id != 0
    requires forall i :: 0 <= i < |writes| ==> writes[i].typ in {NORMAL, DELETED}
    requires forall i, j :: 0 <= i < j < |writes| ==> writes[i].key != writes[j].key
    ensures var b := BatchBlock(id, writes, w);
            && BlockOK(b) && Records(b.ops) == Stamp(writes, id)
            && Entries(b) == Place(BatchRecords(id, writes), w.active, w.fill)
            && |b.ops| == |writes|
  {
    hide Spaced, Total, Place, Cost;
    var rs := BatchRecords(id, writes);
    var es := Place(rs, w.active, w.fill);
    PlaceOK(rs, w.active, w.fill);
    var b := BatchBlock(id, writes, w);
    assert es == b.ops + [b.end];
    assert forall i :: 0 <= i < |writes| ==> b.ops[i].rec == rs[i] == writes[i].(batchId := id);
    Snoc(b.ops, b.end);
    Snoc(Stamp(writes, id), EndRecord(id));
  }

  /** A commit lays its writes over what the log says, or, if the batch is empty or larger than a
      segment, changes nothing. The invariant holds afterwards. */
  lemma CommitOK(s: Store, id: nat, writes: seq<LogRecord>, now: nat)
    requires Inv(s) && BatchOK(s, id, writes) && now >= s.clock
    ensures var s' := CommitStep(s, id, writes, now);
            && Inv(s')
            && Meaning(Newest(s'.wal.Blocks()))
               == if TooLarge(s.wal.cap, id, writes) then Meaning(Newest(s.wal.Blocks()))
                  else Overlay(Meaning(Newest(s.wal.Blocks())), writes)
  {
    if writes == [] {
    } else if TooLarge(s.wal.cap, id, writes) {
      Ticked(s, now);
      Refused(s, id, writes, now);
      hide Inv, CommitStep, TooLarge, Meaning, Newest, Overlay;
    } else {
      CommitWritten(s, id, writes, now);
      hide Inv, CommitStep, TooLarge, Meaning, Newest, Overlay;
    }
  }

  lemma Refused(s: Store, id: nat, writes: seq<LogRecord>, now: nat)
    requires writes != [] && TooLarge(s.wal.cap, id, writes)
    ensures CommitStep(s, id, writes, now) == s.(clock := now)
  {
  }

  lemma Ticked(s: Store, now: nat)
    requires Inv(s) && now >= s.clock
    ensures Inv(s.(clock := now))
  {
    hide IndexOK, MergeInv, HintsStandFor, AllMerged, Newest;
    IndexOKLater(s.index, Newest(s.wal.Blocks()), s.clock, now);
    ClockKept(s, s.(clock := now));
    StandsLater(HintMap(s.hint), MergedPart(s), ReplayedPart(s), s.clock, now);
    hide LogInv;
  }

  lemma ClockKept(s: Store, s': Store)
    requires Inv(s) && s' == s.(clock := s'.clock) && s'.clock >= s.clock
    ensures MergeInv(s')
  {
    hide MergeOK;
    if !s.merge.NoMerge? {
      var read := ReadOf(s);
      assert Scanned(s', read);
    }
  }

  lemma CommitWritten(s: Store, id: nat, writes: seq<LogRecord>, now: nat)
    requires Inv(s) && BatchOK(s, id, writes) && now >= s.clock
    requires writes != [] && !TooLarge(s.wal.cap, id, writes)
    ensures var s' := CommitStep(s, id, writes, now);
            Inv(s') && Meaning(Newest(s'.wal.Blocks())) == Overlay(Meaning(Newest(s.wal.Blocks())), writes)
  {
    hide CommitStep, BatchOK, WalOK, BlocksOK, MergeInv, HintOK, Meaning, Overlay, Newest, Place, Grown,
      BatchRecords, Total;
    var s', size := CommitStep(s, id, writes, now), Total(BatchRecords(id, writes));
    var b := CommitLog(s, id, writes, now);
    CommitMeaning(Newest(s.wal.Blocks()), id, b.ops);
    OverlayStamp(Meaning(Newest(s.wal.Blocks())), writes, id);
    CommitIndex(s.index, Newest(s.wal.Blocks()), id, b.ops, s.clock, now);
    CommitMoves(s.index, b.ops, now, s.wal.active);
    RestKept(s, s', b, BatchRecords(id, writes), size);
  }

  // What a commit adds to the log.
  lemma CommitLog(s: Store, id: nat, writes: seq<LogRecord>, now: nat) returns (b: Block)
    requires LogInv(s) && BatchOK(s, id, writes) && writes != [] && !TooLarge(s.wal.cap, id, writes)
    ensures var s', rs := CommitStep(s, id, writes, now), BatchRecords(id, writes);
            && LogInv(s') && s'.wal == Grown(s.wal, b, rs, Total(rs)) && s'.wal.Blocks() == s.wal.Blocks() + [b]
            && s' == s.(wal := s'.wal, index := ApplyOps(s.index, b.ops, now), clock := now)
            && Newest(s'.wal.Blocks()) == Newest(s.wal.Blocks()) + OpMap(b.ops)
    ensures b.Done? && OpsOK(id, b.ops) && Records(b.ops) == Stamp(writes, id)
    ensures forall i :: 0 <= i < |b.ops| ==> b.ops[i].pos.seg >= s.wal.active
  {
    var rs := BatchRecords(id, writes);
    var w := s.wal.MakeRoom(Total(rs));
    b := BatchBlock(id, writes, w);
    hide Spaced, Place, Total, Cost, Flat, Cat, WalOK, ApplyOps, OpMap;
    BatchBlockOK(id, writes, w);
    GrownOK(s.wal, b, rs, Total(rs));
    BlocksGrow(s.wal.Blocks(), b);
    NewestGrow(s.wal.Blocks(), b);
    assert forall i :: 0 <= i < |b.ops| ==> b.ops[i] == Entries(b)[i];
  }

  /** The index update of a commit keeps the index correct. */
  lemma CommitIndex(index: Index, newest: map<Bytes, Entry>, id: nat, ops: seq<Entry>, clock: nat, now: nat)
    requires IndexOK(index, newest, clock) && clock <= now && OpsOK(id, ops)
    ensures IndexOK(ApplyOps(index, ops, now), newest + OpMap(ops), now)
  {
    var index', newest' := ApplyOps(index, ops, now), newest + OpMap(ops);
    forall k
      ensures k in index' ==> k in newest' && newest'[k].rec.typ == NORMAL && index'[k] == newest'[k].pos
      ensures k in newest' && newest'[k].rec.typ == NORMAL && k !in index' ==> newest'[k].rec.IsExpired(now)
    {
      ApplyOpsAt(index, ops, now, k);
      NewestOp(id, ops, k);
    }
  }

  lemma CommitMoves(index: Index, ops: seq<Entry>, now: nat, active: nat)
    requires forall i :: 0 <= i < |ops| ==> ops[i].pos.seg >= active
    ensures var index' := ApplyOps(index, ops, now);
            forall k :: k in index' ==> (k in index && index'[k] == index[k]) || index'[k].seg >= active
  {
    var index' := ApplyOps(index, ops, now);
    forall k | k in index' ensures (k in index && index'[k] == index[k]) || index'[k].seg >= active {
      ApplyOpsAt(index, ops, now, k);
    }
  }

  // ---------- Lazy deletion ----------

  /** A lazily deleted key had expired, so nothing that was visible disappears. */
  lemma TouchOK(s: Store, key: Bytes, now: nat)
    requires Inv(s) && now >= s.clock
    ensures Inv(Touch(s, key, now)) && Touch(s, key, now).wal == s.wal
  {
    hide Inv, Newest, Touch;
    TouchIndex(s, key, now);
    IndexShrinks(s, Touch(s, key, now));
  }

  lemma TouchIndex(s: Store, key: Bytes, now: nat)
    requires Inv(s) && now >= s.clock
    ensures var s' := Touch(s, key, now);
            && s' == s.(index := s'.index, clock := s'.clock) && s'.clock >= s.clock
            && IndexOK(s'.index, Newest(s.wal.Blocks()), s'.clock)
            && forall k :: k in s'.index ==> k in s.index && s'.index[k] == s.index[k]
  {
    hide HintOK, MergeInv, Newest, Flat, Cat, Read, Spaced, BlocksOK;
    if key in s.index {
      IndexedRecord(s.index, s.wal.Blocks(), s.clock, key);
    }
  }

  lemma IndexShrinks(s: Store, s': Store)
    requires Inv(s) && s' == s.(index := s'.index, clock := s'.clock) && s'.clock >= s.clock
    requires IndexOK(s'.index, Newest(s.wal.Blocks()), s'.clock)
    requires forall k :: k in s'.index ==> k in s.index && s'.index[k] == s.index[k]
    ensures Inv(s')
  {
    hide WalOK, BlocksOK, MergeOK, Flat, Cat, Newest, HintsStandFor, HintMap;
    StandsLater(HintMap(s.hint), MergedPart(s), ReplayedPart(s), s.clock, s'.clock);
    if !s.merge.NoMerge? {
      var read := ReadOf(s);
      MergeKept(s, s'.index, read);
      assert Scanned(s', read);
    }
  }

  // ---------- Torn writes ----------

  /** Part of a batch in the log, without its end record, changes nothing. */
  lemma TornOK(s: Store, id: nat, writes: seq<LogRecord>, n: nat)
    requires Inv(s) && BatchOK(s, id, writes) && n <= |writes|
    ensures var s' := TornWrite(s, id, writes, n);
            Inv(s') && Newest(s'.wal.Blocks()) == Newest(s.wal.Blocks())
  {
    hide Inv, Newest, Place, Total, TornIds, Cat;
    var s' := TornWrite(s, id, writes, n);
    hide Stamp;
    if !(n == 0 || writes == [] || TooLarge(s.wal.cap, id, writes)) {
      var all := BatchRecords(id, writes);
      var w := s.wal.MakeRoom(Total(all));
      TornBlockOK(id, writes, n, w);
      TornLog(s, s', Torn(id, Place(all[..n], w.active, w.fill)), all[..n], Total(all));
    }
  }

  lemma TornBlockOK(id: nat, writes: seq<LogRecord>, n: nat, w: Wal)
    requires id != 0 && n <= |writes|
    requires forall i :: 0 <= i < |writes| ==> writes[i].typ in {NORMAL, DELETED}
    requires forall i, j :: 0 <= i < j < |writes| ==> writes[i].key != writes[j].key
    ensures BlockOK(Torn(id, Place(BatchRecords(id, writes)[..n], w.active, w.fill)))
    ensures Total(BatchRecords(id, writes)[..n]) <= Total(BatchRecords(id, writes))
  {
    hide Spaced, Place, Total, Cost;
    var all := BatchRecords(id, writes);
    PlacePrefix(all, w.active, w.fill, n);
    PlaceOK(all[..n], w.active, w.fill);
    assert forall i :: 0 <= i < n ==> all[..n][i] == writes[i].(batchId := id);
  }

  lemma TornLog(s: Store, s': Store, b: Block, rs: seq<LogRecord>, size: nat)
    requires Inv(s) && b.Torn? && BlockOK(b) && Total(rs) <= size <= s.wal.cap
    requires Entries(b) == Place(rs, s.wal.MakeRoom(size).active, s.wal.MakeRoom(size).fill)
    requires s' == s.(wal := Grown(s.wal, b, rs, size))
    ensures Inv(s') && Newest(s'.wal.Blocks()) == Newest(s.wal.Blocks())
  {
    hide Spaced, Place, Total, Flat, Cat, WalOK, MergeInv, HintOK, BlockOK;
    GrownOK(s.wal, b, rs, size);
    BlocksGrow(s.wal.Blocks(), b);
    NewestGrow(s.wal.Blocks(), b);
    assert Newest(s.wal.Blocks()) + map[] == Newest(s.wal.Blocks());
    RestKept(s, s', b, rs, size);
  }

  lemma ReopenIgnores(s: Store, s': Store, now: nat)
    requires s' == s.(index := s'.index, clock := s'.clock)
    ensures Reopen(s', now) == Reopen(s, now) && LoadMerge(s').wal == LoadMerge(s).wal
  {
    hide Recover, Cat, Flat, Splice;
  }

  /** A crash after the end record was written is, after the restart, a commit. */
  lemma CompleteWrite(s: Store, id: nat, writes: seq<LogRecord>, now: nat, now': nat)
    ensures var a, b := TornWrite(s, id, writes, |writes| + 1), CommitStep(s, id, writes, now);
            Reopen(a, now') == Reopen(b, now') && LoadMerge(a).wal == LoadMerge(b).wal
  {
    hide Reopen, LoadMerge, Place, Total;
    var all := BatchRecords(id, writes);
    assert all[..|writes| + 1] == all;
    ReopenIgnores(TornWrite(s, id, writes, |writes| + 1), CommitStep(s, id, writes, now), now');
  }
}
