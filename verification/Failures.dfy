/** Where the engine does less than it promises: each failing case on all the states that show it, and on
    one that a legal run reaches. */
module Failures {
  import opened Record
  import opened Seqs
  import opened Log
  import opened Visibility
  import opened Wal
  import opened Store
  import opened Hints
  import opened Recovering
  import opened Committing
  import opened Merging
  import opened Compaction
  import opened Crashing
  import opened Reusing
  import opened Runs
  import Aliasing

  // ---------- A torn record that has expired ----------

  /** A live key is gone after the next opening if a torn record of it has expired. */
  lemma TornErases(s: Store, now: nat, k: Bytes)
    requires Inv(s) && now >= s.clock && s.merge.NoMerge?
    requires k in LiveAt(s.wal.Blocks(), now) && Damaged(s.wal.Blocks(), now, k)
    ensures k in View(s, now) && k !in View(Reopen(s, now), now)
  {
    hide Inv, LiveAt, Damaged, LoadedIndex, Newest, ReplayedPart, Loadable;
    ViewIsLive(s, now);
    LoadOK(s);
    LoadedAt(s, now, k);
    if k !in Newest(ReplayedPart(s)) {
      OnlyMerged(s, now, k);
    }
    assert LoadMerge(s) == s;
  }

  // ---------- A merge loses records with a negative expiry time ----------

  /** Every lost key was visible before the merge was loaded and is not visible afterwards. */
  lemma LostIsLost(s: Store, now: nat, k: Bytes)
    requires Inv(s) && now >= s.clock && Lost(s, k)
    ensures k in View(s, now) && k !in View(Reopen(s, now), now)
  {
    hide LiveAt, LoadMerge, HintsShow, HintsStandFor, Reopen, Loadable;
    var read := ReadOf(s);
    MergedKey(s, read, now, k);
    ViewIsLive(s, now);
    LoadStands(s, now);
    LoadOK(s);
    StandsShow(LoadMerge(s), now);
    hide Inv;
    ReopenedView(s, now);
  }

  // ---------- An interrupted merge after a finished one ----------

  /** A key whose record lies in the merged segments disappears when the hints of an interrupted merge
      replace the HINT file and do not mention it. */
  lemma StrayHintLoses(s: Store, now: nat, k: Bytes)
    requires Inv(s) && s.merge.Scanning? && k in s.index && s.index[k].seg <= s.fin && k !in HintMap(s.merge.hints)
    ensures k !in Reopen(s, now).index && k !in View(Reopen(s, now), now)
  {
    hide Newest, Damaged, HintMap, LoadedIndex, ReplayedPart, Loadable;
    OldKey(s, k);
    LoadOK(s);
    LoadedAt(LoadMerge(s), now, k);
    StrayParts(s);
    hide Inv;
  }

  /** A key that they do mention shows whatever record lies under the hint, be it another key's. */
  lemma StrayHintReads(s: Store, now: nat, k: Bytes, r: LogRecord)
    requires Inv(s) && s.merge.Scanning? && k in HintMap(s.merge.hints)
    requires k !in Newest(ReplayedPart(s)) && !Damaged(ReplayedPart(s), now, k)
    requires Read(Flat(s.wal.Blocks()), HintMap(s.merge.hints)[k]) == Some(r) && r.typ != DELETED && !r.IsExpired(now)
    ensures k in View(Reopen(s, now), now) && View(Reopen(s, now), now)[k] == StoredOf(r)
  {
    hide Inv, Newest, Damaged, HintMap, LoadedIndex, ReplayedPart, Loadable, Read, Flat;
    LoadOK(s);
    LoadedAt(LoadMerge(s), now, k);
    StrayParts(s);
  }

  lemma StrayParts(s: Store)
    requires s.merge.Scanning?
    ensures var l := LoadMerge(s);
            ReplayedPart(l) == ReplayedPart(s) && l.wal == s.wal && l.hint == s.merge.hints
  {
  }

  lemma OldKey(s: Store, k: Bytes)
    requires LogInv(s) && IndexOK(s.index, Newest(s.wal.Blocks()), s.clock) && s.fin < s.wal.active
    requires k in s.index && s.index[k].seg <= s.fin
    ensures k !in Newest(ReplayedPart(s))
  {
    hide WalOK, BlocksOK, Cat, Flat, Newest, MergedPart;
    var rest := ReplayedPart(s);
    LogParts(s);
    NewestAppend(MergedPart(s), rest);
    if k in Newest(rest) {
      NewestIn(rest, k);
      EntriesWithin(s.wal, s.fin + 1, s.wal.active, Newest(rest)[k]);
    }
  }

  /** So a crash right after a later merge has started loses every key that was not written since the
      merge before, although all of them can be read until then. */
  lemma InterruptedMergeLoses(s: Store, now: nat, now': nat, k: Bytes)
    requires Inv(s) && now' >= now >= s.clock && !s.wal.IsEmpty() && !s.merge.Scanning?
    requires k in View(s, now') && s.index[k].seg <= s.fin
    ensures k in View(MergeStart(s, now), now') && k !in View(Reopen(MergeStart(s, now), now'), now')
  {
    hide Inv;
    MergeStartOK(s, now);
    StrayHintLoses(MergeStart(s, now), now', k);
  }

  // ---------- Legal runs ----------

  lemma ReachCommit(cap: nat, s: Store, id: nat, writes: seq<LogRecord>)
    requires Reachable(cap, s) && BatchOK(s, id, writes) && s.clock == 0
    ensures Reachable(cap, CommitStep(s, id, writes, 0))
  {
    hide Reachable, BatchOK, CommitStep;
    ReachStep(cap, s, CommitBatch(id, writes, 0));
  }

  lemma {:induction false} ReachScan(cap: nat, s: Store)
    requires Reachable(cap, s) && s.merge.Scanning?
    ensures Reachable(cap, ScanAll(s))
    decreases |s.merge.todo|
  {
    hide Reachable;
    if s.merge.todo != [] {
      ReachStep(cap, s, ScanRecord);
      ReachScan(cap, MergeStep(s));
    }
  }

  /** A whole merge can be part of a run. */
  lemma ReachMerge(cap: nat, s: Store, now: nat, started: nat)
    requires Reachable(cap, s) && started >= now >= s.clock && !s.wal.IsEmpty() && !s.merge.Scanning?
    ensures Reachable(cap, MergeWhole(s, now, started))
  {
    hide Reachable, Inv, MergeStart, MergeClock, ScanAll, Source, Flat;
    ReachableOK(cap, s);
    StartReads(s, now);
    ReachStep(cap, s, BeginMerge(now));
    var s1 := MergeStart(s, now);
    ReachStep(cap, s1, ReadMergeClock(started));
    var s2 := MergeClock(s1, started);
    assert s2.merge.Scanning? by { ClockScans(s1, started); }
    ReachScan(cap, s2);
    ReachStep(cap, ScanAll(s2), EndMerge);
  }

  lemma ClockScans(s: Store, now: nat)
    requires s.merge.Scanning?
    ensures MergeClock(s, now).merge.Scanning?
  {
  }

  // ---------- One put ----------

  function OnePut(cap: nat, k: Bytes, v: Bytes, expire: int): Store {
    CommitStep(NewStore(cap, 0), 1, [LogRecord(k, v, NORMAL, 0, expire)], 0)
  }

  lemma OnePutOK(cap: nat, k: Bytes, v: Bytes, expire: int)
    requires expire <= 0 && !TooLarge(cap, 1, [LogRecord(k, v, NORMAL, 0, expire)])
    ensures var s := OnePut(cap, k, v, expire);
            && Reachable(cap, s) && Refines(s, map[k := Stored(v, expire)]) && !s.wal.IsEmpty() && s.wal.active == 1
            && s.merge.NoMerge? && s.clock == 0 && s.fin == 0
            && (forall i :: 0 <= i < |s.wal.Blocks()| ==> !s.wal.Blocks()[i].Torn?)
  {
    hide BatchOK, TooLarge, Refines, Reachable, CommitStep, Overlay, Wal.Blocks;
    var ws := [LogRecord(k, v, NORMAL, 0, expire)];
    NewIsEmpty(cap);
    FreshBatch(NewStore(cap, 0), 1, ws);
    OverlayOne(map[], ws);
    FirstCommit(cap, ws);
  }

  lemma OverlayOne(m: Contents, ws: seq<LogRecord>)
    requires |ws| == 1 && ws[0].typ == NORMAL
    ensures Overlay(m, ws) == m[ws[0].key := StoredOf(ws[0])]
  {
    assert Init(ws) == [] && Overlay(m, Init(ws)) == m;
  }

  lemma FreshBatch(s: Store, id: nat, ws: seq<LogRecord>)
    requires forall i :: 0 <= i < |s.wal.Blocks()| ==> !s.wal.Blocks()[i].Torn?
    requires id != 0 && |ws| == 1 && ws[0].typ == NORMAL
    ensures BatchOK(s, id, ws)
  {
  }

  lemma NewIsEmpty(cap: nat)
    ensures NewStore(cap, 0).wal.Blocks() == []
  {
    assert Cat(NewStore(cap, 0).wal.segs, 1, 0) == [];
  }

  lemma OnePutLog(cap: nat, ws: seq<LogRecord>)
    requires ws != [] && !TooLarge(cap, 1, ws)
    ensures var s := CommitStep(NewStore(cap, 0), 1, ws, 0);
            && !s.wal.IsEmpty() && s.wal.active == 1 && s.merge.NoMerge? && s.clock == 0 && s.fin == 0
            && |s.wal.Blocks()| == 1 && s.wal.Blocks()[0].Done?
  {
    hide Cost, Place, ApplyOps;
    var rs, s0 := BatchRecords(1, ws), NewStore(cap, 0);
    assert Total(rs) >= Cost(Last(rs)) && Cost(Last(rs)) > 0 by { Aliasing.CostPositive(Last(rs)); }
    hide BatchBlock;
    GrownFirst(s0.wal, BatchBlock(1, ws, s0.wal), Total(rs));
  }

  lemma GrownFirst(w: Wal, b: Block, size: nat)
    requires w == NewWal(w.cap)
    ensures w.Append(b, size).Blocks() == [b]
  {
    NewIsEmpty(w.cap);
    AppendBlocks(w, b, size);
  }

  /** Put a key, tear a second put of it that carries an expiry time, open: the committed value is there
      until that time, and gone from then on, although the torn batch never happened. */
  lemma TornExpiryIsLost(cap: nat, k: Bytes, v: Bytes, w: Bytes, expire: nat, now: nat)
    requires !TooLarge(cap, 1, [LogRecord(k, v, NORMAL, 0, 0)])
    requires expire > 0 && !TooLarge(cap, 2, [LogRecord(k, w, NORMAL, 0, expire)])
    ensures var s, torn, m := OnePut(cap, k, v, 0), [LogRecord(k, w, NORMAL, 0, expire)], map[k := Stored(v, 0)];
            && Reachable(cap, s) && BatchOK(s, 2, torn) && View(s, now) == m
            && (now < expire ==> View(Crash(s, 2, torn, 1, now), now) == m)
            && (now >= expire ==> k !in View(Crash(s, 2, torn, 1, now), now))
  {
    hide Refines, Reachable, BatchOK, TooLarge, Crash;
    var s, torn := OnePut(cap, k, v, 0), [LogRecord(k, w, NORMAL, 0, expire)];
    OnePutOK(cap, k, v, 0);
    FreshBatch(s, 2, torn);
    hide OnePut;
    TornPut(s, k, v, torn, now);
  }

  lemma TornPut(s: Store, k: Bytes, v: Bytes, torn: seq<LogRecord>, now: nat)
    requires Refines(s, map[k := Stored(v, 0)]) && s.clock == 0 && s.merge.NoMerge?
    requires BatchOK(s, 2, torn) && !TooLarge(s.wal.cap, 2, torn)
    requires forall i :: 0 <= i < |s.wal.Blocks()| ==> !s.wal.Blocks()[i].Torn?
    requires |torn| == 1 && torn[0].key == k && torn[0].typ == NORMAL && torn[0].expire > 0
    ensures View(s, now) == map[k := Stored(v, 0)]
    ensures now < torn[0].expire ==> View(Crash(s, 2, torn, 1, now), now) == map[k := Stored(v, 0)]
    ensures now >= torn[0].expire ==> k !in View(Crash(s, 2, torn, 1, now), now)
  {
    hide LiveAt, Inv, TornWrite, BatchOK, TooLarge, Visible, Reopen, Damaged, Harmless, Wal.Blocks;
    var m := map[k := Stored(v, 0)];
    assert Live(m, now) == m;
    ViewIsLive(s, now);
    assert LiveAt(s.wal.Blocks(), now) == m;
    var t := TornWrite(s, 2, torn, 1);
    hide Live;
    TornOK(s, 2, torn, 1);
    TornLogIs(s, 2, torn);
    SameNewest(s.wal.Blocks(), t.wal.Blocks(), now);
    if now >= torn[0].expire {
      LastTornDamages(s.wal.Blocks(), t.wal.Blocks(), now, k);
      TornErases(t, now, k);
    } else {
      LastTornHarmless(s.wal.Blocks(), t.wal.Blocks(), now);
      OpensUnharmed(t, now);
      ViewIsLive(t, now);
    }
  }

  lemma LastTornHarmless(bs: seq<Block>, bs': seq<Block>, now: nat)
    requires |bs'| == |bs| + 1 && bs'[..|bs|] == bs && forall i :: 0 <= i < |bs| ==> !bs[i].Torn?
    requires Last(bs').Torn? && |Last(bs').ops| == 1 && !Last(bs').ops[0].rec.IsExpired(now)
    ensures Harmless(bs', now)
  {
    forall i, k | 0 <= i < |bs'| ensures !Erases(bs'[i], now, k) {
      if i < |bs| {
        assert bs'[..|bs|][i] == bs'[i];
      }
    }
  }

  // Without a merge and a harmful record, opening changes nothing.
  lemma OpensUnharmed(s: Store, now: nat)
    requires Inv(s) && now >= s.clock && s.merge.NoMerge? && Harmless(s.wal.Blocks(), now)
    ensures View(Reopen(s, now), now) == View(s, now)
  {
    hide Inv, Harmless, View, Reopen, HintsShow;
    ReopenExact(s, now);
  }

  lemma SameNewest(a: seq<Block>, b: seq<Block>, t: int)
    requires Newest(a) == Newest(b)
    ensures LiveAt(a, t) == LiveAt(b, t)
  {
  }

  // One torn record at the end of the log.
  lemma TornLogIs(s: Store, id: nat, ws: seq<LogRecord>)
    requires Inv(s) && |ws| == 1 && !TooLarge(s.wal.cap, id, ws) && BatchOK(s, id, ws)
    ensures var t := TornWrite(s, id, ws, 1);
            && |t.wal.Blocks()| == |s.wal.Blocks()| + 1 && t.wal.Blocks()[..|s.wal.Blocks()|] == s.wal.Blocks()
            && Last(t.wal.Blocks()).Torn? && Last(t.wal.Blocks()).id == id && |Last(t.wal.Blocks()).ops| == 1
            && Last(t.wal.Blocks()).ops[0].rec == ws[0].(batchId := id)
            && t.merge == s.merge && t.clock == s.clock && t.fin == s.fin && t.hint == s.hint && t.index == s.index
  {
    hide Spaced, Place, Total, Cat, WalOK, MergeInv, HintOK, Cost;
    var all := BatchRecords(id, ws);
    var w := s.wal.MakeRoom(Total(all));
    var rs := all[..1];
    TornBlockOK(id, ws, 1, w);
    PlaceOK(rs, w.active, w.fill);
    GrownOK(s.wal, Torn(id, Place(rs, w.active, w.fill)), rs, Total(all));
  }

  lemma LastTornDamages(bs: seq<Block>, bs': seq<Block>, now: nat, k: Bytes)
    requires |bs'| == |bs| + 1 && Last(bs').Torn? && |Last(bs').ops| == 1
    requires Last(bs').ops[0].rec.key == k && Last(bs').ops[0].rec.IsExpired(now)
    ensures Damaged(bs', now, k)
  {
    assert Erases(bs'[|bs|], now, k);
  }

  // ---------- A reused batch id ----------

  /** Tear a put, restart, put another key in a batch of the same id, restart: the torn put has come back to
      life, although its batch never finished. */
  lemma ReusedIdRevives(cap: nat, k: Bytes, v: Bytes, j: Bytes, w: Bytes)
    requires !TooLarge(cap, 1, [LogRecord(k, v, NORMAL, 0, 0)]) && !TooLarge(cap, 1, [LogRecord(j, w, NORMAL, 0, 0)])
    requires k != j
    ensures var s := Crash(NewStore(cap, 0), 1, [LogRecord(k, v, NORMAL, 0, 0)], 1, 0);
            var s' := CommitStep(s, 1, [LogRecord(j, w, NORMAL, 0, 0)], 0);
            && Reachable(cap, s)
            && View(s', 0) == map[j := Stored(w, 0)]
            && View(Reopen(s', 0), 0) == map[j := Stored(w, 0), k := Stored(v, 0)]
  {
    hide Crash, Reachable, TooLarge;
    var torn, ws := [LogRecord(k, v, NORMAL, 0, 0)], [LogRecord(j, w, NORMAL, 0, 0)];
    TornStart(cap, torn);
    var s := Crash(NewStore(cap, 0), 1, torn, 1, 0);
    ReusedCommit(s, ws, torn[0]);
    ReusedViews(CommitStep(s, 1, ws, 0), k, v, j, w);
  }

  /** A new log that holds nothing but one torn put. */
  ghost predicate OnlyTorn(s: Store, r: LogRecord) {
    && Inv(s) && s.index == map[] && s.hint == [] && s.fin == 0 && s.merge.NoMerge? && s.clock == 0
    && |s.wal.Blocks()| == 1 && s.wal.Blocks()[0].Torn? && s.wal.Blocks()[0].id == 1
    && |s.wal.Blocks()[0].ops| == 1 && s.wal.Blocks()[0].ops[0].rec == r.(batchId := 1)
  }

  lemma TornStart(cap: nat, ws: seq<LogRecord>)
    requires |ws| == 1 && ws[0].typ == NORMAL && ws[0].expire == 0 && !TooLarge(cap, 1, ws)
    ensures var s := Crash(NewStore(cap, 0), 1, ws, 1, 0);
            Reachable(cap, s) && OnlyTorn(s, ws[0]) && s.wal.cap == cap
  {
    hide Inv, TornWrite, Reachable, BatchOK, TooLarge, Reopen, Safe, Cat, LiveAt, Newest;
    var s0 := NewStore(cap, 0);
    var t := TornWrite(s0, 1, ws, 1);
    NewIsEmpty(cap);
    FreshBatch(s0, 1, ws);
    StartOK(cap, 0);
    assert s0.hint == [] && s0.fin == 0 && s0.merge.NoMerge?;
    hide NewStore;
    ReachStart(cap, 0);
    TornOK(s0, 1, ws, 1);
    TornLogIs(s0, 1, ws);
    TornOpens(t, ws[0]);
    CrashLegal(cap, s0, ws);
    ReachStep(cap, s0, CrashIn(1, ws, 1, 0));
    ReachableOK(cap, Reopen(t, 0));
  }

  lemma CrashLegal(cap: nat, s: Store, ws: seq<LogRecord>)
    requires BatchOK(s, 1, ws) && |ws| == 1 && s.clock == 0 && Safe(TornWrite(s, 1, ws, 1), 0)
    ensures Enabled(s, CrashIn(1, ws, 1, 0))
  {
    hide BatchOK, Safe, TornWrite;
  }

  lemma TornOpens(t: Store, r: LogRecord)
    requires Inv(t) && t.hint == [] && t.fin == 0 && t.merge.NoMerge? && t.clock == 0
    requires r.expire == 0 && r.typ == NORMAL
    requires |t.wal.Blocks()| == 1 && t.wal.Blocks()[0].Torn? && t.wal.Blocks()[0].id == 1
    requires |t.wal.Blocks()[0].ops| == 1 && t.wal.Blocks()[0].ops[0].rec == r.(batchId := 1)
    ensures Safe(t, 0) && Reopen(t, 0) == t.(index := map[])
    ensures Inv(Reopen(t, 0)) && Reopen(t, 0).wal.Blocks() == t.wal.Blocks()
  {
    hide Inv, LoadedIndex, Harmless, Damaged;
    NoTtlNoHarm(t.wal.Blocks(), 0);
    LoadOK(t);
    LoadedIsReplay(t, 0);
    var bs := t.wal.Blocks();
    assert ReplayedPart(t) == bs;
    assert Init(bs) == [] && Replay(map[], Init(bs), 0) == map[];
    var ops := bs[0].ops;
    assert Init(ops) == [] && DropExpired(map[], Init(ops), 0) == map[];
    hide ReplayedPart;
    SafeExact(t, 0);
  }

  // The log after the batch that reuses the id.
  ghost predicate ReusedLog(s: Store, r: LogRecord, q: LogRecord) {
    var bs := s.wal.Blocks();
    && WalOK(s.wal) && |bs| == 2 && WellFormed(bs) && bs[0].Torn? && bs[1].Done? && bs[0].id == bs[1].id == 1
    && |bs[0].ops| == 1 && bs[0].ops[0].rec == r.(batchId := 1)
    && |bs[1].ops| == 1 && bs[1].ops[0].rec == q.(batchId := 1)
    && s.index == map[q.key := bs[1].ops[0].pos] && s.hint == [] && s.fin == 0 && s.merge.NoMerge?
  }

  lemma ReusedCommit(s: Store, ws: seq<LogRecord>, r: LogRecord)
    requires OnlyTorn(s, r) && |ws| == 1 && ws[0].typ == NORMAL && ws[0].expire == 0 && !TooLarge(s.wal.cap, 1, ws)
    ensures ReusedLog(CommitStep(s, 1, ws, 0), r, ws[0])
  {
    hide Spaced, Place, Total, Cat, Cost, MergeInv, HintOK, IndexOK;
    var rs := BatchRecords(1, ws);
    var w := s.wal.MakeRoom(Total(rs));
    var b := BatchBlock(1, ws, w);
    BatchBlockOK(1, ws, w);
    GrownOK(s.wal, b, rs, Total(rs));
    assert |Records(b.ops)| == 1 by { assert Records(b.ops) == Stamp(ws, 1); }
    assert Init(b.ops) == [];
    assert Records(b.ops) == Records(Init(b.ops)) + [b.ops[0].rec];
    assert Records(b.ops)[0] == b.ops[0].rec;
    Aliasing.ApplyOne(map[], b.ops[0]);
    assert b.ops == [b.ops[0]];
  }

  lemma ReusedViews(s: Store, k: Bytes, v: Bytes, j: Bytes, w: Bytes)
    requires k != j && ReusedLog(s, LogRecord(k, v, NORMAL, 0, 0), LogRecord(j, w, NORMAL, 0, 0))
    ensures View(s, 0) == map[j := Stored(w, 0)]
    ensures View(Reopen(s, 0), 0) == map[j := Stored(w, 0), k := Stored(v, 0)]
  {
    hide WalOK, WellFormed, Flat, Cat, Read, LoadedIndex, LoadMerge;
    var bs := s.wal.Blocks();
    var e, f, end := bs[0].ops[0], bs[1].ops[0], bs[1].end;
    ReusedReads(s, e, f, end);
    ReusedIndex(s, e, f);
    TwoVisible(Flat(bs), e, f);
  }

  lemma TwoVisible(es: seq<Entry>, e: Entry, f: Entry)
    requires Read(es, e.pos) == Some(e.rec) && Read(es, f.pos) == Some(f.rec)
    requires e.rec.typ == f.rec.typ == NORMAL && e.rec.expire == f.rec.expire == 0 && e.rec.key != f.rec.key
    ensures Visible(map[f.rec.key := f.pos], es, 0) == map[f.rec.key := StoredOf(f.rec)]
    ensures Visible(map[e.rec.key := e.pos, f.rec.key := f.pos], es, 0)
         == map[f.rec.key := StoredOf(f.rec), e.rec.key := StoredOf(e.rec)]
  {
    hide Read;
  }

  lemma ReusedReads(s: Store, e: Entry, f: Entry, end: Entry)
    requires var bs := s.wal.Blocks();
             && WalOK(s.wal) && |bs| == 2 && bs[0].Torn? && bs[0].ops == [e]
             && bs[1].Done? && bs[1].ops == [f] && bs[1].end == end
    ensures Read(Flat(s.wal.Blocks()), e.pos) == Some(e.rec) && Read(Flat(s.wal.Blocks()), f.pos) == Some(f.rec)
  {
    hide WalOK, Flat, Spaced, Read;
    var es := Flat(s.wal.Blocks());
    SpacedWal(s.wal);
    FlatReused(s.wal.Blocks(), e, f, end);
    assert e in es && f in es;
    ReadFinds(es, e);
    ReadFinds(es, f);
  }

  lemma ReusedIndex(s: Store, e: Entry, f: Entry)
    requires s.merge.NoMerge? && s.fin == 0 && s.hint == [] && WellFormed(s.wal.Blocks())
    requires var bs := s.wal.Blocks();
             |bs| == 2 && bs[0] == Torn(1, [e]) && bs[1].Done? && bs[1].id == 1 && bs[1].ops == [f]
    requires e.rec.typ == f.rec.typ == NORMAL && e.rec.expire == f.rec.expire == 0 && e.rec.key != f.rec.key
    ensures Reopen(s, 0) == s.(index := map[e.rec.key := e.pos, f.rec.key := f.pos], clock := 0)
  {
    hide Recover, Flat, Cat, Absorbed, Replay, WellFormed, ReplayedPart;
    NothingMerged(s);
    AbsorbReused(s.wal.Blocks(), e, f);
    assert HintMap(s.hint) == map[];
    hide HintMap;
    RecoverIsAbsorbed(s.wal.Blocks(), 0);
  }

  lemma {:induction false} FlatReused(bs: seq<Block>, e: Entry, f: Entry, end: Entry)
    requires |bs| == 2 && bs[0].Torn? && bs[0].ops == [e] && bs[1].Done? && bs[1].ops == [f] && bs[1].end == end
    ensures Flat(bs) == [e, f, end]
  {
    assert Init(bs) == [bs[0]] && Init([bs[0]]) == [];
    assert Flat([bs[0]]) == Flat([]) + [e];
    assert Flat(bs) == Flat([bs[0]]) + ([f] + [end]);
  }

  lemma {:induction false} AbsorbReused(bs: seq<Block>, e: Entry, f: Entry)
    requires |bs| == 2 && bs[0] == Torn(1, [e]) && bs[1].Done? && bs[1].id == 1 && bs[1].ops == [f]
    requires e.rec.typ == f.rec.typ == NORMAL && e.rec.expire == f.rec.expire == 0 && e.rec.key != f.rec.key
    ensures Replay(map[], Absorbed(bs, 0), 0) == map[e.rec.key := e.pos, f.rec.key := f.pos]
  {
    var one := [bs[0]];
    assert Init(bs) == one && Init(one) == [];
    assert Init([e]) == [] && Init([f]) == [];
    assert Unexpired([e], 0) == Unexpired([], 0) + [e] && Unexpired([f], 0) == Unexpired([], 0) + [f];
    assert [] + [e] == [e] && [] + [f] == [f];
    assert Expired([f], 0) == Expired([], 0) == [];
    assert Left(one, 1, 0) == Left([], 1, 0) + [e] == [e];
    assert Absorbed(one, 0) == Absorbed([], 0) + [bs[0]];
    assert [] + [bs[0]] == one && [] + [e] + [f] == [e, f];
    var b := Done(1, [e, f], bs[1].end);
    assert Absorb(bs[1], [e], 0) == b;
    assert Absorbed(bs, 0) == one + [b];
    Snoc(one, b);
    Snoc([], bs[0]);
    assert Replay(map[], one, 0) == ReplayBlock(Replay(map[], Init(one), 0), bs[0], 0);
    assert DropExpired(map[], [e], 0) == DropExpired(map[], Init([e]), 0) == map[];
    Aliasing.ApplyTwo(e, f);
  }

  // ---------- One put and a whole merge ----------

  lemma OnePutMerged(cap: nat, k: Bytes, v: Bytes, expire: int)
    requires expire <= 0 && !TooLarge(cap, 1, [LogRecord(k, v, NORMAL, 0, expire)])
    ensures var s := MergeWhole(OnePut(cap, k, v, expire), 0, 0);
            && MergedAll(cap, s, map[k := Stored(v, expire)]) && s.merge.upTo == 1
  {
    hide OnePut, MergedAll, MergeWhole, TooLarge;
    OnePutOK(cap, k, v, expire);
    MergedOnce(cap, OnePut(cap, k, v, expire), map[k := Stored(v, expire)]);
  }

  /** A finished merge that nobody has written beside, reached by a run. */
  ghost predicate MergedAll(cap: nat, s: Store, m: Contents) {
    && Reachable(cap, s) && Refines(s, m) && s.merge.Finished? && s.clock == 0
    && s.wal.active == s.merge.upTo + 1 && Tail(s) == [] && Harmless(LoadMerge(s).wal.Blocks(), 0)
  }

  lemma MergedOnce(cap: nat, s: Store, m: Contents)
    requires Reachable(cap, s) && Refines(s, m) && s.clock == 0 && !s.wal.IsEmpty() && !s.merge.Scanning?
    ensures MergedAll(cap, MergeWhole(s, 0, 0), m) && MergeWhole(s, 0, 0).merge.upTo == s.wal.active
  {
    hide Reachable, MergeWhole, Inv, LiveAt, Live, LoadMerge, Tail, Harmless;
    MergedPlain(s);
    ReachMerge(cap, s, 0, 0);
    SameLogRefines(s, MergeWhole(s, 0, 0), m);
  }

  lemma MergedPlain(s: Store)
    requires Inv(s) && s.clock == 0 && !s.wal.IsEmpty() && !s.merge.Scanning?
    ensures var s2 := MergeWhole(s, 0, 0);
            && Inv(s2) && s2.merge.Finished? && s2.clock == 0 && s2.merge.upTo == s.wal.active
            && s2.wal.active == s.wal.active + 1 && s2.wal.Blocks() == s.wal.Blocks()
            && Tail(s2) == [] && Harmless(LoadMerge(s2).wal.Blocks(), 0)
  {
    hide Inv, MergeWhole, Cat, BlocksOK;
    hide LogInv, MergeInv, LoadMerge, Harmless;
    var s2 := MergeWhole(s, 0, 0);
    MergeWholeOK(s, 0, 0);
    RotatedOnly(s.wal);
    OpenInv(s2);
    MergedHarmless(s2);
  }

  lemma OpenInv(s: Store)
    requires Inv(s)
    ensures LogInv(s) && MergeInv(s)
  {
  }

  lemma RotatedOnly(w: Wal)
    ensures Cat(w.Rotate().segs, w.active + 1, w.active + 1) == [] && w.Rotate().Blocks() == w.Blocks()
  {
    assert Cat(w.Rotate().segs, w.active + 1, w.active) == [];
    CatFrame(w.segs, w.Rotate().segs, 1, w.active);
  }

  lemma MergedHarmless(s: Store)
    requires LogInv(s) && MergeInv(s) && s.merge.Finished? && Tail(s) == []
    ensures Harmless(LoadMerge(s).wal.Blocks(), 0)
  {
    hide LoadMerge, Scanned, Tail, Harmless, Cat, LogInv;
    SpliceBlocks(s);
    var out := s.merge.out.Blocks();
    var read := ReadOf(s);
    OutputOK(s, read);
    assert out + [] == out;
    NoTtlNoHarm(out, 0);
  }

  /** Put a key with a negative expiry time (a time to live that overflows gives one), merge, reopen:
      the key was readable for ever, and is gone. */
  lemma NegativeExpiryIsLost(cap: nat, k: Bytes, v: Bytes)
    requires !TooLarge(cap, 1, [LogRecord(k, v, NORMAL, 0, -1)])
    ensures var s := MergeWhole(OnePut(cap, k, v, -1), 0, 0);
            Reachable(cap, s) && View(s, 0) == map[k := Stored(v, -1)] && k !in View(Reopen(s, 0), 0)
  {
    OnePutMerged(cap, k, v, -1);
    MergedAway(MergeWhole(OnePut(cap, k, v, -1), 0, 0), k, v);
  }

  lemma MergedAway(s: Store, k: Bytes, v: Bytes)
    requires Refines(s, map[k := Stored(v, -1)]) && s.merge.Finished? && s.clock == 0 && Tail(s) == []
    ensures View(s, 0) == map[k := Stored(v, -1)] && k !in View(Reopen(s, 0), 0)
  {
    var m := map[k := Stored(v, -1)];
    assert Live(m, 0) == m;
    SpliceBlocks(s);
    OldEntry(s, m, k);
    hide Inv, Scanned, LoadMerge, Live, LiveAt, Visible;
    LostIsLost(s, 0, k);
  }

  lemma OldEntry(s: Store, m: Contents, k: Bytes)
    requires Refines(s, m) && s.merge.Finished? && s.clock == 0 && k in Live(m, 0)
    requires s.wal.Blocks() == Source(s) + Tail(s) && Tail(s) == []
    ensures View(s, 0) == Live(m, 0) && k in s.index && s.index[k].seg <= s.merge.upTo
    ensures Read(Flat(s.wal.Blocks()), s.index[k]).Some?
    ensures StoredOf(Read(Flat(s.wal.Blocks()), s.index[k]).value) == m[k]
  {
    ViewIsLive(s, 0);
    assert LiveAt(s.wal.Blocks(), 0) == Live(m, 0);
    assert Source(s) + Tail(s) == Source(s);
    IndexedRecord(s.index, s.wal.Blocks(), s.clock, k);
    NewestIn(s.wal.Blocks(), k);
    EntriesWithin(s.wal, 1, s.merge.upTo, Newest(s.wal.Blocks())[k]);
    assert View(s, 0)[k] == m[k];
  }

  /** Put a key, merge, reopen, start another merge, crash, reopen: the key could be read all the time, and
      is gone. */
  lemma SecondMergeInterrupted(cap: nat, k: Bytes, v: Bytes)
    requires !TooLarge(cap, 1, [LogRecord(k, v, NORMAL, 0, 0)])
    ensures var s := MergeStart(Reopen(MergeWhole(OnePut(cap, k, v, 0), 0, 0), 0), 0);
            Reachable(cap, s) && View(s, 0) == map[k := Stored(v, 0)] && k !in View(Reopen(s, 0), 0)
  {
    OnePutMerged(cap, k, v, 0);
    MergedTwice(cap, MergeWhole(OnePut(cap, k, v, 0), 0, 0), k, v);
  }

  lemma MergedTwice(cap: nat, s: Store, k: Bytes, v: Bytes)
    requires MergedAll(cap, s, map[k := Stored(v, 0)]) && s.merge.upTo == 1
    ensures var s' := MergeStart(Reopen(s, 0), 0);
            Reachable(cap, s') && View(s', 0) == map[k := Stored(v, 0)] && k !in View(Reopen(s', 0), 0)
  {
    hide Safe, LiveAt, Visible, LoadMerge, MergeStart, Reopen, Reachable, Tail;
    var m := map[k := Stored(v, 0)];
    assert Live(m, 0) == m;
    SafelyReopened(s, m);
    ReachTwice(cap, s);
    hide Live;
    ReopenedOnce(s, m, k);
    LostOnReopening(Reopen(s, 0), k);
  }

  lemma SafelyReopened(s: Store, m: Contents)
    requires Refines(s, m) && s.merge.Finished? && s.clock == 0 && forall k :: k in m ==> m[k].expire == 0
    requires Harmless(LoadMerge(s).wal.Blocks(), 0)
    ensures Safe(s, 0) && Refines(Reopen(s, 0), m)
  {
    AllUnexpiring(s, m);
    assert Safe(s, 0) by { hide Refines, Harmless, NoneLost; }
    ReopenRefines(s, m, 0);
    hide *;
  }

  lemma ReachTwice(cap: nat, s: Store)
    requires Reachable(cap, s) && Safe(s, 0) && s.clock == 0 && !s.merge.Scanning?
    ensures Reachable(cap, MergeStart(Reopen(s, 0), 0))
  {
    hide Reachable, Safe, Reopen, MergeStart;
    ReopenClockIs(s, 0);
    ReachStep(cap, s, Restart(0));
    ReachStep(cap, Reopen(s, 0), BeginMerge(0));
  }

  lemma LostOnReopening(s: Store, k: Bytes)
    requires Inv(s) && s.clock == 0 && !s.wal.IsEmpty() && !s.merge.Scanning?
    requires k in View(s, 0) && s.index[k].seg <= s.fin
    ensures View(MergeStart(s, 0), 0) == View(s, 0) && k !in View(Reopen(MergeStart(s, 0), 0), 0)
  {
    hide Inv, MergeStart, Reopen;
    SameView(s, 0);
    InterruptedMergeLoses(s, 0, 0, k);
  }

  lemma ReopenClockIs(s: Store, now: nat)
    ensures Reopen(s, now).clock == now
  {
  }

  lemma SameView(s: Store, now: nat)
    requires Inv(s) && now >= s.clock
    ensures View(MergeStart(s, now), now) == View(s, now)
  {
    hide Inv;
    MergeStartOK(s, now);
  }

  lemma AllUnexpiring(s: Store, m: Contents)
    requires Refines(s, m) && s.clock == 0 && forall k :: k in m ==> m[k].expire == 0
    ensures NoneLost(s)
  {
    ViewIsLive(s, 0);
    assert LiveAt(s.wal.Blocks(), 0) == Live(m, 0);
    forall k | k in s.index ensures !Lost(s, k) {
      IndexedRecord(s.index, s.wal.Blocks(), s.clock, k);
      if !Newest(s.wal.Blocks())[k].rec.IsExpired(0) {
        assert k in LiveAt(s.wal.Blocks(), 0);
        assert LiveAt(s.wal.Blocks(), 0)[k] == m[k];
      }
    }
  }

  lemma ReopenedOnce(s: Store, m: Contents, k: Bytes)
    requires LogInv(s) && MergeInv(s) && s.merge.Finished? && s.merge.upTo == 1 && s.wal.active == 2 && Tail(s) == []
    requires Refines(Reopen(s, 0), m) && k in Live(m, 0)
    ensures var s' := Reopen(s, 0);
            && Inv(s') && s'.clock == 0 && View(s', 0) == Live(m, 0)
            && s'.index[k].seg <= s'.fin && !s'.wal.IsEmpty() && s'.merge.NoMerge?
  {
    hide MergeInv, Tail, LiveAt, Live;
    var s' := Reopen(s, 0);
    ReopenClockIs(s, 0);
    SpliceBlocks(s);
    assert s'.wal.Blocks() == Cat(s'.wal.segs, 1, 1) + [] && s'.wal.active == 2 && s'.fin == 1 && s'.merge.NoMerge? by {
      hide LoadedIndex, Splice, Cat, LogInv, MergeInv;
    }
    hide Reopen;
    ViewIsLive(s', 0);
    assert LiveAt(s'.wal.Blocks(), 0) == Live(m, 0);
    EntryInFirst(s', k);
  }

  lemma EntryInFirst(s: Store, k: Bytes)
    requires Inv(s) && s.wal.Blocks() == Cat(s.wal.segs, 1, 1) + [] && s.wal.active == 2
    requires k in View(s, 0)
    ensures s.index[k].seg <= 1 && !s.wal.IsEmpty()
  {
    assert k in s.index;
    hide Inv, View, Flat;
    var e := IndexedEntry(s, k);
    assert s.wal.Blocks() == Cat(s.wal.segs, 1, 1);
    InFirst(s.wal, e);
  }

  lemma InFirst(w: Wal, e: Entry)
    requires WalOK(w) && w.active == 2 && e in Flat(Cat(w.segs, 1, 1))
    ensures e.pos.seg <= 1 && !w.IsEmpty()
  {
    hide Spaced, Cat, Flat;
    EntriesWithin(w, 1, 1, e);
    var b := FlatElement(Cat(w.segs, 1, 1), e);
    CatElement(w.segs, 1, 1, b);
    assert 1 in w.segs.Keys;
  }

  // ---------- A key that reads another key's record ----------

  /** Put two keys, merge, reopen, put the first one again, start a second merge, crash when the second key
      has been copied, reopen: the second key now reads the first one's old value. */
  lemma AliasedRead(cap: nat, a: Bytes, va: Bytes, b: Bytes, vb: Bytes, wa: Bytes)
    requires a != b && !TooLarge(cap, 1, Aliasing.Two(a, va, b, vb)) && !TooLarge(cap, 2, [Aliasing.PutOf(a, wa, 0)])
    ensures var s := Aliasing.Interrupted(cap, a, va, b, vb, wa);
            && Reachable(cap, s)
            && b in View(s, 0) && View(s, 0)[b] == Stored(vb, 0)
            && b in View(Reopen(s, 0), 0) && View(Reopen(s, 0), 0)[b] == Stored(va, 0)
  {
    hide Aliasing.Interrupted, Reachable, Reopen, Visible, Newest, Damaged, ReplayedPart, HintMap, Read, Flat;
    ReachInterrupted(cap, a, va, b, vb, wa);
    InterruptedReads(cap, a, va, b, vb, wa);
    var s := Aliasing.Interrupted(cap, a, va, b, vb, wa);
    ReachableOK(cap, s);
    InterruptedHints(cap, a, va, b, vb, wa);
    StrayHintReads(s, 0, b, Aliasing.PutOf(a, va, 0));
  }

  lemma ReachInterrupted(cap: nat, a: Bytes, va: Bytes, b: Bytes, vb: Bytes, wa: Bytes)
    requires a != b && !TooLarge(cap, 1, Aliasing.Two(a, va, b, vb)) && !TooLarge(cap, 2, [Aliasing.PutOf(a, wa, 0)])
    ensures Reachable(cap, Aliasing.Interrupted(cap, a, va, b, vb, wa))
  {
    hide Reachable, TooLarge, Cost, MergeStart, MergeStep, Aliasing.Interrupted;
    ReachAgain(cap, a, va, b, vb, wa);
    assert Cost(Aliasing.PutOf(b, vb, 0)) <= cap by {
      Aliasing.BothPutIs(cap, a, va, b, vb);
      Aliasing.MergedCost(b, vb);
    }
    Aliasing.SecondMergeIs(cap, a, va, b, vb, wa);
    var s := Aliasing.Again(cap, a, va, b, vb, wa);
    assert s.clock == 0;
    hide Aliasing.Again;
    ReachCopied(cap, s);
  }

  lemma ReachCopied(cap: nat, s: Store)
    requires Reachable(cap, s) && s.clock == 0 && MergeStart(s, 0).merge.Scanning? && MergeStart(s, 0).merge.todo != []
    requires MergeStep(MergeStart(s, 0)).merge.Scanning? && MergeStep(MergeStart(s, 0)).merge.todo != []
    ensures Reachable(cap, MergeStep(MergeStep(MergeStart(s, 0))))
  {
    hide Reachable, MergeStart, MergeStep;
    ReachStep(cap, s, BeginMerge(0));
    ReachStep(cap, MergeStart(s, 0), ScanRecord);
    ReachStep(cap, MergeStep(MergeStart(s, 0)), ScanRecord);
  }

  lemma ReachAgain(cap: nat, a: Bytes, va: Bytes, b: Bytes, vb: Bytes, wa: Bytes)
    requires a != b && !TooLarge(cap, 1, Aliasing.Two(a, va, b, vb)) && !TooLarge(cap, 2, [Aliasing.PutOf(a, wa, 0)])
    ensures Reachable(cap, Aliasing.Again(cap, a, va, b, vb, wa))
  {
    hide Reachable, TooLarge, CommitStep, BatchOK, Aliasing.Reopened, Aliasing.Again;
    ReachReopened(cap, a, va, b, vb);
    Aliasing.AgainIs(cap, a, va, b, vb, wa);
    var s, ws := Aliasing.Reopened(cap, a, va, b, vb), [Aliasing.PutOf(a, wa, 0)];
    ReopenedBatch(cap, a, va, b, vb, ws);
    assert s.clock == 0 by { ReopenedRest(cap, a, va, b, vb); }
    ReachCommit(cap, s, 2, ws);
  }

  lemma ReopenedRest(cap: nat, a: Bytes, va: Bytes, b: Bytes, vb: Bytes)
    ensures Aliasing.Reopened(cap, a, va, b, vb).clock == 0
  {
  }

  lemma ReopenedBatch(cap: nat, a: Bytes, va: Bytes, b: Bytes, vb: Bytes, ws: seq<LogRecord>)
    requires |ws| == 1 && ws[0].typ == NORMAL
    ensures BatchOK(Aliasing.Reopened(cap, a, va, b, vb), 2, ws)
  {
    var s := Aliasing.Reopened(cap, a, va, b, vb);
    var pair := Aliasing.MergedPair(a, va, b, vb);
    assert Cat(s.wal.segs, 1, 0) == [] && Cat(s.wal.segs, 1, 1) == [] + pair;
    assert s.wal.Blocks() == [] + pair + [];
  }

  lemma ReachReopened(cap: nat, a: Bytes, va: Bytes, b: Bytes, vb: Bytes)
    requires a != b && !TooLarge(cap, 1, Aliasing.Two(a, va, b, vb))
    ensures Reachable(cap, Aliasing.Reopened(cap, a, va, b, vb))
  {
    var s, m := Aliasing.BothPut(cap, a, va, b, vb), map[a := Stored(va, 0), b := Stored(vb, 0)];
    hide Reachable, Refines, TooLarge, MergedAll, MergeWhole, Reopen, Aliasing.BothPut, Aliasing.Reopened;
    BothPutOK(cap, a, va, b, vb);
    Aliasing.ReopenedIs(cap, a, va, b, vb);
    MergedOnce(cap, s, m);
    ReachLoaded(cap, MergeWhole(s, 0, 0), m);
  }

  lemma ReachLoaded(cap: nat, s: Store, m: Contents)
    requires MergedAll(cap, s, m) && forall k :: k in m ==> m[k].expire == 0
    ensures Reachable(cap, Reopen(s, 0))
  {
    hide Reachable, Refines, Harmless, LoadMerge, Reopen, Tail;
    hide Safe;
    SafelyReopened(s, m);
    ReachStep(cap, s, Restart(0));
  }

  lemma BothPutOK(cap: nat, a: Bytes, va: Bytes, b: Bytes, vb: Bytes)
    requires a != b && !TooLarge(cap, 1, Aliasing.Two(a, va, b, vb))
    ensures var s := Aliasing.BothPut(cap, a, va, b, vb);
            && Reachable(cap, s) && Refines(s, map[a := Stored(va, 0), b := Stored(vb, 0)])
            && s.clock == 0 && !s.wal.IsEmpty() && s.merge.NoMerge?
  {
    hide TooLarge;
    var s0, ws := NewStore(cap, 0), Aliasing.Two(a, va, b, vb);
    TwoPut(a, va, b, vb);
    NewIsEmpty(cap);
    assert BatchOK(s0, 1, ws);
    hide BatchOK;
    FirstCommit(cap, ws);
  }

  // The first commit of a new database.
  lemma FirstCommit(cap: nat, ws: seq<LogRecord>)
    requires BatchOK(NewStore(cap, 0), 1, ws) && ws != [] && !TooLarge(cap, 1, ws)
    ensures var s := CommitStep(NewStore(cap, 0), 1, ws, 0);
            && Reachable(cap, s) && Refines(s, Overlay(map[], ws))
            && !s.wal.IsEmpty() && s.wal.active == 1 && s.merge.NoMerge? && s.clock == 0 && s.fin == 0
            && |s.wal.Blocks()| == 1 && s.wal.Blocks()[0].Done?
  {
    hide Refines, Reachable, BatchOK, CommitStep, TooLarge, BatchBlock, Overlay;
    var s0 := NewStore(cap, 0);
    StartOK(cap, 0);
    ReachStart(cap, 0);
    OnePutLog(cap, ws);
    ReachCommit(cap, s0, 1, ws);
    CommitRefines(s0, map[], 1, ws, 0);
  }

  lemma TwoPut(a: Bytes, va: Bytes, b: Bytes, vb: Bytes)
    ensures Overlay(map[], Aliasing.Two(a, va, b, vb)) == map[a := Stored(va, 0), b := Stored(vb, 0)]
  {
    var ws := Aliasing.Two(a, va, b, vb);
    assert Init(ws) == [ws[0]] && Init([ws[0]]) == [];
    assert Overlay(map[], [ws[0]]) == Overlay(map[], [])[a := Stored(va, 0)];
  }

  lemma ReadFour(e: Entry, f: Entry, g: Entry, h: Entry)
    requires e.pos != f.pos && e.pos != g.pos && e.pos != h.pos && f.pos != g.pos && f.pos != h.pos
    ensures Read([e, f, g, h], e.pos) == Some(e.rec) && Read([e, f, g, h], f.pos) == Some(f.rec)
  {
    var es := [e, f, g, h];
    assert Init(es) == [e, f, g] && Init([e, f, g]) == [e, f] && Init([e, f]) == [e];
    assert Read([e, f], e.pos) == Read([e], e.pos) == Some(e.rec);
    assert Read([e, f, g], e.pos) == Read([e, f], e.pos) && Read([e, f, g], f.pos) == Read([e, f], f.pos);
  }

  lemma InterruptedLog(cap: nat, a: Bytes, va: Bytes, b: Bytes, vb: Bytes, wa: Bytes)
    ensures var s := Aliasing.Interrupted(cap, a, va, b, vb, wa);
            && Read(Flat(s.wal.Blocks()), Pos(1, 0)) == Some(Aliasing.PutOf(a, va, 0))
            && Read(Flat(s.wal.Blocks()), Pos(1, Cost(Aliasing.PutOf(a, va, 0)))) == Some(Aliasing.PutOf(b, vb, 0))
  {
    hide Cost, Flat;
    var s := Aliasing.Interrupted(cap, a, va, b, vb, wa);
    Aliasing.LogIs(cap, a, va, b, vb, wa, s.wal.segs);
    assert s.wal.Blocks() == Cat(s.wal.segs, 1, 2) + [] == Cat(s.wal.segs, 1, 2);
    Aliasing.CostPositive(Aliasing.PutOf(a, va, 0));
    var x, z := Aliasing.PutOf(a, va, 0), Aliasing.PutOf(a, wa, 2);
    hide Cat;
    ReadFour(Entry(Pos(1, 0), x), Entry(Pos(1, Cost(x)), Aliasing.PutOf(b, vb, 0)), Entry(Pos(2, 0), z),
             Entry(Pos(2, Cost(z)), EndRecord(2)));
  }

  lemma InterruptedReads(cap: nat, a: Bytes, va: Bytes, b: Bytes, vb: Bytes, wa: Bytes)
    requires a != b
    ensures var s := Aliasing.Interrupted(cap, a, va, b, vb, wa);
            && Read(Flat(s.wal.Blocks()), Pos(1, 0)) == Some(Aliasing.PutOf(a, va, 0))
            && b in View(s, 0) && View(s, 0)[b] == Stored(vb, 0)
  {
    InterruptedLog(cap, a, va, b, vb, wa);
    hide Cost, Flat, Cat, Read;
  }

  lemma InterruptedHints(cap: nat, a: Bytes, va: Bytes, b: Bytes, vb: Bytes, wa: Bytes)
    requires a != b
    ensures var s := Aliasing.Interrupted(cap, a, va, b, vb, wa);
            && s.merge.Scanning? && b in HintMap(s.merge.hints) && HintMap(s.merge.hints)[b] == Pos(1, 0)
            && b !in Newest(ReplayedPart(s)) && !Damaged(ReplayedPart(s), 0, b)
  {
    hide Cost;
    var s := Aliasing.Interrupted(cap, a, va, b, vb, wa);
    var hints, block := s.merge.hints, Aliasing.AgainBlock(a, wa);
    assert Init(hints) == [] && HintMap(hints) == HintMap(Init(hints))[b := Pos(1, 0)];
    assert ReplayedPart(s) == [block] by {
      assert Cat(s.wal.segs, 2, 1) == [] && Cat(s.wal.segs, 2, 2) == [] + [block];
      assert [] + [block] + [] == [block];
    }
    assert Init([block]) == [] && Newest([block]) == Newest(Init([block])) + Committed(block);
    assert Init(block.ops) == [] && OpMap(block.ops) == OpMap(Init(block.ops))[a := block.ops[0]];
    assert [block][0].Done?;
  }
}
