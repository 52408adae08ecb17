/** Opening the database: the merge output is spliced in, the HINT file is loaded, and the tail of
    the log is replayed. */
module Recovering {
  import opened Record
  import opened Seqs
  import opened Log
  import opened Visibility
  import opened Wal
  import opened Store
  import opened Hints

  // ---------- Splicing in a finished merge ----------

  lemma OutputFits(s: Store)
    requires LogInv(s) && MergeInv(s) && !s.merge.NoMerge?
    ensures s.merge.out.active <= s.merge.upTo
  {
    hide MergeOK;
    var read :| Scanned(s, read);
    OutputFitsRead(s, read);
  }

  lemma OutputFitsRead(s: Store, read: seq<Entry>)
    requires LogInv(s) && !s.merge.NoMerge? && s.merge.upTo >= 1 && Scanned(s, read)
    ensures s.merge.out.active <= s.merge.upTo
  {
    hide WalOK, BlocksOK, CopiesOK, NothingMissed, KeysDistinct;
    if read != [] {
      assert Last(read) in Flat(Source(s));
      EntriesWithin(s.wal, 1, s.merge.upTo, Last(read));
    }
  }

  lemma SpliceCat(segs: map<nat, seq<Block>>, out: map<nat, seq<Block>>, outActive: nat, upTo: nat, active: nat)
    requires outActive <= upTo < active && forall id :: id in out ==> 1 <= id <= outActive
    ensures var spliced := Splice(segs, out, upTo);
            && Cat(spliced, 1, upTo) == Cat(out, 1, outActive)
            && Cat(spliced, upTo + 1, active) == Cat(segs, upTo + 1, active)
            && Cat(spliced, 1, active) == Cat(out, 1, outActive) + Cat(segs, upTo + 1, active)
            && Cat(segs, 1, active) == Cat(segs, 1, upTo) + Cat(segs, upTo + 1, active)
  {
    var spliced := Splice(segs, out, upTo);
    forall i | 1 <= i <= upTo ensures Segment(spliced, i) == Segment(out, i) {}
    CatFrame(spliced, out, 1, upTo);
    CatEmpty(out, 1, outActive, upTo);
    forall i | upTo < i <= active ensures Segment(spliced, i) == Segment(segs, i) {}
    CatFrame(spliced, segs, upTo + 1, active);
    CatSplit(spliced, 1, upTo, active);
    CatSplit(segs, 1, upTo, active);
  }

  lemma SpliceBlocks(s: Store)
    requires LogInv(s) && MergeInv(s) && s.merge.Finished?
    ensures var s', m := LoadMerge(s), s.merge;
            && Cat(s'.wal.segs, 1, m.upTo) == m.out.Blocks()
            && Cat(s'.wal.segs, m.upTo + 1, s.wal.active) == Tail(s)
            && s'.wal.Blocks() == m.out.Blocks() + Tail(s)
            && s.wal.Blocks() == Source(s) + Tail(s)
  {
    hide Spaced, BlocksOK, MergeOK, Cat, Splice, Flat, EntryOK;
    OutputFits(s);
    assert WalOK(s.merge.out) by {
      var read :| Scanned(s, read);
      OutputOK(s, read);
    }
    SpliceCat(s.wal.segs, s.merge.out.segs, s.merge.out.active, s.merge.upTo, s.wal.active);
  }

  lemma OutputOK(s: Store, read: seq<Entry>)
    requires !s.merge.NoMerge? && Scanned(s, read)
    ensures WalOK(s.merge.out) && AllMerged(s.merge.out.Blocks())
    ensures HintMap(s.merge.hints) == Replay(map[], s.merge.out.Blocks(), 0)
  {
  }

  lemma SpliceOK(s: Store)
    requires LogInv(s) && MergeInv(s) && s.merge.Finished?
    ensures LogInv(LoadMerge(s)) && HintOK(LoadMerge(s))
  {
    hide Spaced, MergeOK, Cat;
    var m, s' := s.merge, LoadMerge(s);
    SpliceBlocks(s);
    OutputFits(s);
    assert WalOK(m.out) && AllMerged(m.out.Blocks()) && HintMap(m.hints) == Replay(map[], m.out.Blocks(), 0) by {
      var read :| Scanned(s, read);
      OutputOK(s, read);
    }
    PartsOK(Source(s), Tail(s));
    MergedFirst(m.out.Blocks(), Tail(s));
    SplicedEntries(s);
    SplicedSpaced(s);
  }

  lemma SplicedEntries(s: Store)
    requires LogInv(s) && s.merge.Finished? && WalOK(s.merge.out) && s.merge.out.cap == s.wal.cap
    requires s.merge.out.active <= s.merge.upTo < s.wal.active
    ensures var w := LoadMerge(s).wal;
            && w.active in w.segs && (forall id :: id in w.segs ==> 1 <= id <= w.active)
            && (forall id, b, e :: id in w.segs && b in w.segs[id] && e in Entries(b) ==> EntryOK(w, id, e))
  {
    hide Spaced, BlocksOK, Cat, Flat;
    var w := LoadMerge(s).wal;
    forall id, b, e | id in w.segs && b in w.segs[id] && e in Entries(b) ensures EntryOK(w, id, e) {
      if id <= s.merge.upTo {
        assert EntryOK(s.merge.out, id, e);
      } else {
        assert EntryOK(s.wal, id, e);
      }
    }
  }

  lemma SplicedSpaced(s: Store)
    requires LogInv(s) && s.merge.Finished? && WalOK(s.merge.out)
    requires s.merge.out.active <= s.merge.upTo
    requires s.wal.Blocks() == Source(s) + Tail(s)
    ensures Spaced(Flat(s.merge.out.Blocks() + Tail(s)))
  {
    hide Spaced, BlocksOK, Cat, Flat, WalOK;
    var m := s.merge;
    var a, b := Flat(m.out.Blocks()), Flat(Tail(s));
    FlatAppend(m.out.Blocks(), Tail(s));
    FlatAppend(Source(s), Tail(s));
    SpacedWal(s.wal);
    SpacedWal(m.out);
    SpacedParts(Flat(Source(s)), b);
    forall i | 0 <= i < |a| ensures AtMost(End(a[i]), Pos(m.upTo + 1, 0)) {
      EntriesWithin(m.out, 1, m.out.active, a[i]);
    }
    forall i | 0 <= i < |b| ensures AtMost(Pos(m.upTo + 1, 0), b[i].pos) {
      EntriesWithin(s.wal, m.upTo + 1, s.wal.active, b[i]);
    }
    SpacedAppend(a, b, Pos(m.upTo + 1, 0));
  }

  // ---------- What a finished merge keeps ----------

  /** A key that the merge loses: its record lies in the merged segments and has a negative expiry
      time. Such a record never expires (record.go:39), but merge.go:130 does not copy it. */
  ghost predicate Lost(s: Store, k: Bytes) {
    s.merge.Finished? && k in s.index && s.index[k].seg <= s.merge.upTo
    && Read(Flat(s.wal.Blocks()), s.index[k]).Some?
    && Read(Flat(s.wal.Blocks()), s.index[k]).value.expire < 0
  }

  // The same on maps: what the merge knows about one key, and what follows for it.
  lemma KeptKey(src: map<Bytes, Entry>, out: map<Bytes, Entry>, tail: map<Bytes, Entry>, index: Index,
                read: seq<Entry>, upTo: nat, started: nat, clock: nat, t: nat, k: Bytes)
    requires started <= clock <= t && IndexOK(index, src + tail, clock)
    requires k in tail ==> tail[k].pos.seg > upTo
    requires k in src ==> src[k].pos.seg <= upTo && src[k] in read
    requires k in out ==> CopyOK(src, read, out[k].rec, started, k) && out[k].rec.typ == NORMAL
    requires k in index && Wanted(src, read, index, started, k) ==> k in out
    ensures var a, b := Live(Meaning(src + tail), t), Live(Meaning(out + tail), t);
            var lost := k in index && index[k].seg <= upTo && (src + tail)[k].rec.expire < 0;
            if lost then k in a && k !in b else SameAt(a, b, k)
  {
    if k in tail {
      assert (src + tail)[k] == (out + tail)[k] == tail[k];
    } else if k in src {
      assert (src + tail)[k] == src[k];
      if k in out {
        assert (out + tail)[k] == out[k];
        assert StoredOf(src[k].rec) == StoredOf(out[k].rec);
      } else if k in index {
        assert index[k] == src[k].pos && !Mergeable(src[k].rec, started);
      }
    }
  }

  /** Key by key: overwritten or deleted keys take their newer state from the tail, all others come
      from the merged copy, and only lost keys disappear. */
  lemma MergedKey(s: Store, read: seq<Entry>, t: nat, k: Bytes)
    requires Inv(s) && s.merge.Finished? && Scanned(s, read) && t >= s.clock
    ensures var a, b := LiveAt(s.wal.Blocks(), t), LiveAt(LoadMerge(s).wal.Blocks(), t);
            if Lost(s, k) then k in a && k !in b else SameAt(a, b, k)
  {
    hide BlocksOK, Cat, Flat, Live, Meaning, HintOK, LoadMerge, Scanned, Newest, Read, CopyOK, Wanted, SameAt;
    var m := s.merge;
    var src, out, tail := Newest(Source(s)), Newest(m.out.Blocks()), Newest(Tail(s));
    SpliceBlocks(s);
    NewestAppend(Source(s), Tail(s));
    NewestAppend(m.out.Blocks(), Tail(s));
    PartsOK(Source(s), Tail(s));
    SourceAndTail(s, k);
    if k in s.index {
      IndexedRecord(s.index, s.wal.Blocks(), s.clock, k);
    }
    CopiedAll(s, read, k);
    hide WalOK;
    KeptKey(src, out, tail, s.index, read, m.upTo, m.started, s.clock, t, k);
  }

  // What a finished merge knows about one key.
  lemma CopiedAll(s: Store, read: seq<Entry>, k: Bytes)
    requires s.merge.Finished? && Scanned(s, read)
    ensures read == Flat(Source(s))
    ensures var src, out := Newest(Source(s)), Newest(s.merge.out.Blocks());
            && (k in out ==> CopyOK(src, read, out[k].rec, s.merge.started, k) && out[k].rec.typ == NORMAL)
            && (k in s.index && Wanted(src, read, s.index, s.merge.started, k) ==> k in out)
  {
    hide WalOK, Newest, Flat, Cat, CopyOK, Wanted, KeysDistinct, Replay, HintMap;
    assert read + [] == read;
    if k in Newest(s.merge.out.Blocks()) {
      MergedNewest(s.merge.out.Blocks(), k);
    }
  }

  lemma SourceAndTail(s: Store, k: Bytes)
    requires WalOK(s.wal) && !s.merge.NoMerge? && BlocksOK(Source(s)) && BlocksOK(Tail(s))
    ensures k in Newest(Source(s)) ==>
      Newest(Source(s))[k] in Flat(Source(s)) && Newest(Source(s))[k].pos.seg <= s.merge.upTo
    ensures k in Newest(Tail(s)) ==> Newest(Tail(s))[k].pos.seg > s.merge.upTo
  {
    hide Spaced, Cat, Flat, EntryOK, BlocksOK, WalOK;
    if k in Newest(Tail(s)) {
      NewestIn(Tail(s), k);
      EntriesWithin(s.wal, s.merge.upTo + 1, s.wal.active, Newest(Tail(s))[k]);
    }
    if k in Newest(Source(s)) {
      NewestIn(Source(s), k);
      EntriesWithin(s.wal, 1, s.merge.upTo, Newest(Source(s))[k]);
    }
  }

  lemma {:induction false} MergedNewest(bs: seq<Block>, k: Bytes)
    requires AllMerged(bs) && k in Newest(bs)
    ensures Newest(bs)[k].rec.typ == NORMAL
  {
    assert Last(bs).Merged? && BlockOK(Last(bs));
    if k !in Committed(Last(bs)) {
      MergedNewest(Init(bs), k);
    }
  }

  // ---------- Opening, exactly ----------

  ghost predicate NoneLost(s: Store) {
    forall k :: k in s.index ==> !Lost(s, k)
  }

  /** A crash during a merge leaves its hints behind, and the next opening moves them into the data
      directory although there is no MERGEFIN beside them (merge.go:294-295). They must stand for the
      merged segments; all other hints do. */
  ghost predicate StrayOK(s: Store, now: nat) {
    s.merge.Scanning? ==> HintsStandFor(HintMap(s.merge.hints), MergedPart(s), ReplayedPart(s), now)
  }

  /** What the next opening must find: no torn record that erases a live key; after a finished merge, no
      record with a negative expiry time in the merged segments; and after an interrupted one, hints that
      stand. */
  ghost predicate Safe(s: Store, now: nat) {
    Harmless(LoadMerge(s).wal.Blocks(), now) && NoneLost(s) && StrayOK(s, now)
  }

  /** What it must find for readers not to notice: the same, but of the hints of an interrupted merge it is
      enough that the records under them read like those they should stand for. */
  ghost predicate Unnoticed(s: Store, now: nat) {
    Harmless(LoadMerge(s).wal.Blocks(), now) && NoneLost(s) && (s.merge.Scanning? ==> HintsShow(LoadMerge(s), now))
  }

  lemma ReadOf(s: Store) returns (read: seq<Entry>)
    requires MergeInv(s) && !s.merge.NoMerge?
    ensures Scanned(s, read)
  {
    read :| Scanned(s, read);
  }

  lemma MergedContents(s: Store, t: nat)
    requires Inv(s) && t >= s.clock && NoneLost(s)
    ensures LiveAt(s.wal.Blocks(), t) == LiveAt(LoadMerge(s).wal.Blocks(), t)
  {
    hide LogInv, IndexOK, HintOK, MergeInv, Scanned, LiveAt, NoneLost, LoadMerge, SameAt;
    LoadClock(s);
    if s.merge.Finished? {
      var a, b := LiveAt(s.wal.Blocks(), t), LiveAt(LoadMerge(s).wal.Blocks(), t);
      var read := ReadOf(s);
      forall k ensures SameAt(a, b, k) {
        MergedKey(s, read, t, k);
        NotLost(s, k);
      }
      SameEverywhere(a, b);
    }
  }

  lemma NotLost(s: Store, k: Bytes)
    requires NoneLost(s)
    ensures !Lost(s, k)
  {
    if k in s.index {
    }
  }

  // ---------- The hints of an interrupted merge ----------

  /** They stand when no earlier merge completed: each stray hint is for a key that the log has a committed
      record of, and without a MERGEFIN the whole log is replayed. */
  lemma FirstMergeStray(s: Store, now: nat)
    requires Inv(s) && s.fin == 0
    ensures StrayOK(s, now)
  {
    if s.merge.Scanning? {
      NothingMerged(s);
      hide HintOK, LogInv, IndexOK, MergeInv, Newest, HintMap, ReplayedPart, MergedPart, Damaged;
      forall k ensures HintStands(HintMap(s.merge.hints), MergedPart(s), ReplayedPart(s), now, k) {
        if k in HintMap(s.merge.hints) {
          HintIsCommitted(s, k);
        }
      }
    }
  }

  lemma NothingMerged(s: Store)
    requires s.fin == 0
    ensures ReplayedPart(s) == s.wal.Blocks() && Replay(map[], MergedPart(s), 0) == map[]
  {
  }

  lemma HintIsCommitted(s: Store, k: Bytes)
    requires LogInv(s) && MergeInv(s) && s.merge.Scanning? && k in HintMap(s.merge.hints)
    ensures k in Newest(s.wal.Blocks())
  {
    hide Newest, Scanned, HintMap, Cat, LogInv, Flat;
    var read := ReadOf(s);
    CopiedKey(s, read, k);
    CatSplit(s.wal.segs, 1, s.merge.upTo, s.wal.active);
    NewestAppend(Source(s), Tail(s));
  }

  lemma CopiedKey(s: Store, read: seq<Entry>, k: Bytes)
    requires s.merge.Scanning? && Scanned(s, read) && k in HintMap(s.merge.hints)
    ensures k in Newest(Source(s))
  {
    hide WalOK, Newest, KeysDistinct, NothingMissed, Cat, Flat, AllMerged, AtMost, Replay;
    MergedReplay(s.merge.out.Blocks(), 0, 0);
    assert CopyOK(Newest(Source(s)), read, Newest(s.merge.out.Blocks())[k].rec, s.merge.started, k);
  }

  // ---------- The files an opening finds ----------

  lemma LoadOK(s: Store)
    requires Inv(s)
    ensures Loadable(LoadMerge(s)) && LoadMerge(s).merge.NoMerge?
  {
    if s.merge.Finished? {
      SpliceOK(s);
    } else {
      hide LogInv, MergeInv, IndexOK, HintsStandFor, AllMerged, Cat;
    }
  }

  lemma LoadStands(s: Store, now: nat)
    requires Inv(s) && now >= s.clock && StrayOK(s, now)
    ensures var l := LoadMerge(s); HintsStandFor(HintMap(l.hint), MergedPart(l), ReplayedPart(l), now)
  {
    hide Inv, HintsStandFor, HintMap, MergedPart, ReplayedPart, LoadMerge, StrayOK;
    if s.merge.Scanning? {
      StrayHints(s, now);
    } else {
      var l := LoadMerge(s);
      ProperHints(s);
      LoadClock(s);
      StandsLater(HintMap(l.hint), MergedPart(l), ReplayedPart(l), l.clock, now);
    }
  }

  lemma StrayHints(s: Store, now: nat)
    requires StrayOK(s, now) && s.merge.Scanning?
    ensures var l := LoadMerge(s); HintsStandFor(HintMap(l.hint), MergedPart(l), ReplayedPart(l), now)
  {
    hide HintsStandFor, HintMap, Cat;
  }

  lemma ProperHints(s: Store)
    requires Inv(s) && !s.merge.Scanning?
    ensures var l := LoadMerge(s); HintsStandFor(HintMap(l.hint), MergedPart(l), ReplayedPart(l), l.clock)
  {
    hide LogInv, MergeInv, IndexOK, HintsStandFor, HintMap, MergedPart, ReplayedPart, AllMerged;
    if s.merge.Finished? {
      SpliceOK(s);
    }
  }

  lemma LoadClock(s: Store)
    ensures LoadMerge(s).clock == s.clock && (s.merge.NoMerge? ==> LoadMerge(s) == s)
    ensures !s.merge.Finished? ==> LoadMerge(s).wal == s.wal
  {
  }

  /** Hints that stand are read rightly. */
  lemma StandsShow(l: Store, now: nat)
    requires Loadable(l) && HintsStandFor(HintMap(l.hint), MergedPart(l), ReplayedPart(l), now)
    ensures HintsShow(l, now)
  {
    hide Loadable, MergedPart, ReplayedPart, HintShows, HintStands, HintMap;
    forall k ensures HintShows(l, now, k) {
      assert HintStands(HintMap(l.hint), MergedPart(l), ReplayedPart(l), now, k);
      StandShows(l, now, k);
    }
  }

  lemma StandShows(l: Store, now: nat, k: Bytes)
    requires Loadable(l) && HintStands(HintMap(l.hint), MergedPart(l), ReplayedPart(l), now, k)
    ensures HintShows(l, now, k)
  {
    if k !in Newest(ReplayedPart(l)) {
      OnlyMerged(l, now, k);
      if k in Newest(l.wal.Blocks()) {
        MergedReads(l, k);
      }
      hide Loadable, Newest, Damaged, Replay, HintMap, MergedPart, ReplayedPart, Read, Flat;
    }
  }

  lemma MergedReads(l: Store, k: Bytes)
    requires Loadable(l) && k !in Newest(ReplayedPart(l)) && k in Newest(l.wal.Blocks())
    ensures Read(Flat(l.wal.Blocks()), Newest(l.wal.Blocks())[k].pos) == Some(Newest(l.wal.Blocks())[k].rec)
  {
    hide WalOK, Newest, Flat, MergedPart, ReplayedPart, AllMerged;
    SpacedWal(l.wal);
    NewestIn(l.wal.Blocks(), k);
    ReadFinds(Flat(l.wal.Blocks()), Newest(l.wal.Blocks())[k]);
  }

  // ---------- What an opening leads to ----------

  ghost predicate SameFrom(bs: seq<Block>, bs': seq<Block>, now: nat) {
    forall t: nat :: t >= now ==> LiveAt(bs, t) == LiveAt(bs', t)
  }

  /** What can be read from `now` on does not change. */
  ghost predicate ViewsKept(s: Store, s': Store, now: nat) {
    forall t: nat :: t >= now ==> View(s', t) == View(s, t)
  }

  lemma ViewIsLive(s: Store, t: nat)
    requires Inv(s) && t >= s.clock
    ensures View(s, t) == LiveAt(s.wal.Blocks(), t)
  {
    VisibleIsLive(s.index, s.wal.Blocks(), s.clock, t);
  }

  lemma ReopenIs(s: Store, now: nat)
    ensures Reopen(s, now) == LoadMerge(s).(index := LoadedIndex(LoadMerge(s), now), clock := now)
    ensures Reopen(s, now).wal.Blocks() == LoadMerge(s).wal.Blocks()
  {
  }

  lemma ReopenedView(s: Store, now: nat)
    requires Inv(s)
    ensures var l, bs, s' := LoadMerge(s), LoadMerge(s).wal.Blocks(), Reopen(s, now);
            && (View(s', now) == LiveAt(bs, now) <==> Harmless(bs, now) && HintsShow(l, now))
            && (HintsShow(l, now) ==> View(s', now).Keys <= LiveAt(bs, now).Keys)
  {
    hide Inv, LoadMerge, LoadedIndex, Reopen, Harmless, HintShows, Visible, Loadable;
    LoadOK(s);
    ReopenIs(s, now);
    ReadExact(LoadMerge(s), now);
    hide LiveAt;
    forall k | HintsShow(LoadMerge(s), now) && k in View(Reopen(s, now), now)
      ensures k in LiveAt(LoadMerge(s).wal.Blocks(), now)
    {
      assert HintShows(LoadMerge(s), now, k);
      ReadsAt(LoadMerge(s), now, k);
    }
  }

  /** The opened state satisfies the invariant if and only if no torn record is harmful and the hints
      stand. */
  lemma ReopenedInv(s: Store, now: nat)
    requires Inv(s)
    ensures var l := LoadMerge(s);
            Inv(Reopen(s, now)) <==> Harmless(l.wal.Blocks(), now)
                                     && HintsStandFor(HintMap(l.hint), MergedPart(l), ReplayedPart(l), now)
  {
    hide Inv, LoadMerge, LoadedIndex, Harmless, HintsStandFor, Loadable, IndexOK;
    LoadOK(s);
    IndexExact(LoadMerge(s), now);
    LoadedInv(LoadMerge(s), now);
  }

  lemma LoadedInv(l: Store, now: nat)
    requires Loadable(l) && l.merge.NoMerge?
    ensures Inv(l.(index := LoadedIndex(l, now), clock := now)) <==>
            IndexOK(LoadedIndex(l, now), Newest(l.wal.Blocks()), now)
            && HintsStandFor(HintMap(l.hint), MergedPart(l), ReplayedPart(l), now)
  {
    hide LoadedIndex, HintsStandFor, IndexOK, WalOK, BlocksOK, AllMerged, Newest, HintMap;
  }

  // The contents before and after, from the log alone.
  lemma ContentsKept(s: Store, now: nat)
    requires Inv(s) && now >= s.clock
    ensures NoneLost(s) ==> SameFrom(s.wal.Blocks(), LoadMerge(s).wal.Blocks(), now)
    ensures !NoneLost(s) ==> !(LiveAt(s.wal.Blocks(), now).Keys <= LiveAt(LoadMerge(s).wal.Blocks(), now).Keys)
  {
    hide Inv, LiveAt, NoneLost, LoadMerge;
    if NoneLost(s) {
      forall t: nat | t >= now ensures LiveAt(s.wal.Blocks(), t) == LiveAt(LoadMerge(s).wal.Blocks(), t) {
        MergedContents(s, t);
      }
    } else {
      LostKey(s, now);
    }
  }

  lemma NotInterrupted(s: Store)
    requires s.merge.Scanning?
    ensures NoneLost(s) && LoadMerge(s).wal == s.wal
  {
  }

  /** Opening after a crash, a clean close or a merge shows exactly what was visible before, at that moment
      and ever after, if and only if it is unnoticed in the sense above. */
  lemma ReopenExact(s: Store, now: nat)
    requires Inv(s) && now >= s.clock
    ensures Unnoticed(s, now) <==> View(Reopen(s, now), now) == View(s, now)
    ensures Unnoticed(s, now) <==> ViewsKept(s, Reopen(s, now), now)
  {
    hide Inv, LiveAt, View, Harmless, NoneLost, LoadMerge, HintsShow, Reopen;
    ReopenedView(s, now);
    ViewIsLive(s, now);
    ContentsKept(s, now);
    if s.merge.Scanning? {
      NotInterrupted(s);
    } else {
      LoadStands(s, now);
      LoadOK(s);
      StandsShow(LoadMerge(s), now);
    }
    if Unnoticed(s, now) {
      KeptLater(s, now);
    }
    assert ViewsKept(s, Reopen(s, now), now) ==> View(Reopen(s, now), now) == View(s, now);
  }

  lemma KeptLater(s: Store, now: nat)
    requires Inv(s) && now >= s.clock && View(Reopen(s, now), now) == LiveAt(LoadMerge(s).wal.Blocks(), now)
    requires SameFrom(s.wal.Blocks(), LoadMerge(s).wal.Blocks(), now)
    ensures ViewsKept(s, Reopen(s, now), now)
  {
    ReopenIs(s, now);
    hide Inv, LiveAt, Visible, Reopen, LoadMerge, LoadedIndex;
    forall t: nat | t >= now ensures View(Reopen(s, now), t) == View(s, t) {
      ViewIsLive(s, t);
      ReadLater(LoadedIndex(LoadMerge(s), now), Flat(LoadMerge(s).wal.Blocks()), LoadMerge(s).wal.Blocks(), now, t);
      assert LiveAt(s.wal.Blocks(), t) == LiveAt(LoadMerge(s).wal.Blocks(), t);
    }
  }

  /** Opening is safe if and only if it shows what was visible before and leads to a state that satisfies
      the invariant again: every index entry is the newest record of its key, and the hints stand. */
  lemma SafeExact(s: Store, now: nat)
    requires Inv(s) && now >= s.clock
    ensures Safe(s, now) <==> View(Reopen(s, now), now) == View(s, now) && Inv(Reopen(s, now))
    ensures Safe(s, now) ==>
      ViewsKept(s, Reopen(s, now), now) && SameFrom(s.wal.Blocks(), Reopen(s, now).wal.Blocks(), now)
  {
    hide Inv, LiveAt, View, Harmless, NoneLost, LoadMerge, HintsShow, Reopen, HintsStandFor, StrayOK,
      ViewsKept, SameFrom;
    ReopenExact(s, now);
    ReopenedInv(s, now);
    ReopenIs(s, now);
    ContentsKept(s, now);
    if StrayOK(s, now) {
      LoadStands(s, now);
      LoadOK(s);
      StandsShow(LoadMerge(s), now);
    }
    StrayLoads(s, now);
  }

  lemma StrayLoads(s: Store, now: nat)
    ensures var l := LoadMerge(s);
            HintsStandFor(HintMap(l.hint), MergedPart(l), ReplayedPart(l), now) ==> StrayOK(s, now)
  {
    hide HintsStandFor, HintMap;
  }

  lemma LostKey(s: Store, now: nat)
    requires Inv(s) && !NoneLost(s) && now >= s.clock
    ensures !(LiveAt(s.wal.Blocks(), now).Keys <= LiveAt(LoadMerge(s).wal.Blocks(), now).Keys)
  {
    hide Newest, Live, Meaning, Scanned, IndexOK, WalOK, BlocksOK, HintOK, LoadMerge;
    var k :| k in s.index && Lost(s, k);
    var read := ReadOf(s);
    MergedKey(s, read, now, k);
  }
}
