/** The HINT file: what loading it and replaying the rest of the log comes to, exactly. */
module Hints {
  import opened Record
  import opened Seqs
  import opened Log
  import opened Visibility
  import opened Wal
  import opened Store

  // ---------- Parts of a log ----------

  lemma PartsOK(a: seq<Block>, b: seq<Block>)
    requires BlocksOK(a + b)
    ensures BlocksOK(a) && BlocksOK(b)
  {
    var c := a + b;
    assert forall i :: 0 <= i < |a| ==> c[i] == a[i];
    assert forall i :: 0 <= i < |b| ==> c[|a| + i] == b[i];
  }

  lemma MergedFirst(a: seq<Block>, b: seq<Block>)
    requires AllMerged(a) && BlocksOK(b)
    ensures BlocksOK(a + b)
  {
    var c := a + b;
    assert forall i :: 0 <= i < |a| ==> c[i] == a[i];
    assert forall i :: |a| <= i < |c| ==> c[i] == b[i - |a|];
  }

  lemma {:induction false} MergedReplay(bs: seq<Block>, now: int, now': int)
    requires AllMerged(bs)
    ensures Replay(map[], bs, now) == Replay(map[], bs, now')
    ensures Replay(map[], bs, now).Keys == Newest(bs).Keys
  {
    if bs != [] {
      MergedReplay(Init(bs), now, now');
      assert Last(bs).Merged?;
    }
  }

  lemma LogParts(s: Store)
    requires LogInv(s) && s.fin < s.wal.active
    ensures s.wal.Blocks() == MergedPart(s) + ReplayedPart(s)
    ensures BlocksOK(MergedPart(s)) && BlocksOK(ReplayedPart(s))
  {
    hide BlocksOK, WalOK, Cat;
    CatSplit(s.wal.segs, 1, s.fin, s.wal.active);
    PartsOK(MergedPart(s), ReplayedPart(s));
  }

  lemma SpacedWal(w: Wal)
    requires WalOK(w)
    ensures Spaced(Flat(w.Blocks()))
  {
  }

  lemma SpacedParts(a: seq<Entry>, b: seq<Entry>)
    requires Spaced(a + b)
    ensures Spaced(a) && Spaced(b)
  {
    var c := a + b;
    assert forall i :: 0 <= i < |a| ==> c[i] == a[i];
    assert forall i :: 0 <= i < |b| ==> c[|a| + i] == b[i];
  }

  // ---------- Comparing indexes and contents ----------

  lemma SameIndex(a: Index, b: Index)
    requires forall k :: SameEntry(a, b, k)
    ensures a == b
  {
    forall k ensures k in a <==> k in b { assert SameEntry(a, b, k); }
    forall k | k in a ensures a[k] == b[k] { assert SameEntry(a, b, k); }
  }

  function LiveAt(bs: seq<Block>, t: int): Contents {
    Live(Meaning(Newest(bs)), t)
  }

  ghost predicate SameAt(a: Contents, b: Contents, k: Bytes) {
    (k in a <==> k in b) && (k in a ==> a[k] == b[k])
  }

  lemma SameEverywhere(a: Contents, b: Contents)
    requires forall k :: SameAt(a, b, k)
    ensures a == b
  {
    forall k ensures k in a <==> k in b { assert SameAt(a, b, k); }
    forall k | k in a ensures a[k] == b[k] { assert SameAt(a, b, k); }
  }

  lemma {:induction false} MergedIsUndamaged(merged: seq<Block>, rest: seq<Block>, now: int, k: Bytes)
    requires AllMerged(merged)
    ensures Damaged(merged + rest, now, k) <==> Damaged(rest, now, k)
  {
    if rest == [] {
      assert merged + rest == merged;
      assert forall i :: 0 <= i < |merged| ==> merged[i].Merged?;
    } else {
      InitAppend(merged, rest);
      MergedIsUndamaged(merged, Init(rest), now, k);
      hide Damaged, Committed, Erases, AllMerged;
      DamagedStep(rest, now, k);
      DamagedStep(merged + rest, now, k);
    }
  }

  /** Time does not repair: hints that stand go on standing. */
  lemma StandsLater(hints: Index, merged: seq<Block>, rest: seq<Block>, now: int, now': int)
    requires HintsStandFor(hints, merged, rest, now) && now <= now'
    ensures HintsStandFor(hints, merged, rest, now')
  {
    hide Newest, Replay, SameEntry;
    forall k ensures HintStands(hints, merged, rest, now', k) {
      assert HintStands(hints, merged, rest, now, k);
      DamagedLater(rest, now, now', k);
    }
  }

  lemma DamagedLater(bs: seq<Block>, now: int, now': int, k: Bytes)
    requires now <= now'
    ensures Damaged(bs, now, k) ==> Damaged(bs, now', k)
  {
    hide Committed;
    if Damaged(bs, now, k) {
      var i :| 0 <= i < |bs| && Erases(bs[i], now, k) && forall j :: i < j < |bs| ==> k !in Committed(bs[j]);
      assert Erases(bs[i], now', k);
    }
  }

  // Another block at the end of the log leaves hints standing.
  lemma StandsGrown(hints: Index, merged: seq<Block>, rest: seq<Block>, b: Block, now: int)
    requires HintsStandFor(hints, merged, rest, now)
    ensures HintsStandFor(hints, merged, rest + [b], now)
  {
    Snoc(rest, b);
    hide Replay, SameEntry, Damaged, Committed, Erases;
    forall k ensures HintStands(hints, merged, rest + [b], now, k) {
      assert HintStands(hints, merged, rest, now, k);
      DamagedStep(rest + [b], now, k);
    }
  }

  // ---------- What an opening loads ----------

  /** A log and a HINT file that can be loaded, whatever the hints say. */
  ghost predicate Loadable(s: Store) {
    LogInv(s) && s.fin < s.wal.active && AllMerged(MergedPart(s))
  }

  lemma LoadedIsReplay(s: Store, now: nat)
    requires Loadable(s)
    ensures LoadedIndex(s, now) == Replay(HintMap(s.hint), ReplayedPart(s), now)
  {
    hide LogInv, Flat, Replay, Recover, HintMap, ReplayedPart, MergedPart, BlocksOK, AllMerged;
    LogParts(s);
    RecoverIsReplay(HintMap(s.hint), ReplayedPart(s), now);
  }

  lemma ScannedIsReplay(s: Store, now: nat)
    requires Loadable(s)
    ensures Recover(Recovery(map[], map[]), Flat(s.wal.Blocks()), now).index == Replay(map[], s.wal.Blocks(), now)
    ensures Replay(map[], s.wal.Blocks(), now) == Replay(Replay(map[], MergedPart(s), 0), ReplayedPart(s), now)
  {
    hide Flat, Replay, Recover, ReplayedPart, MergedPart, BlocksOK, AllMerged;
    LogParts(s);
    MergedReplay(MergedPart(s), 0, now);
    ReplayAppend(map[], MergedPart(s), ReplayedPart(s), now);
    assert BlocksOK(s.wal.Blocks());
    hide LogInv;
    RecoverIsReplay(map[], s.wal.Blocks(), now);
  }

  lemma ReplaysAgree(a0: Index, b0: Index, bs: seq<Block>, now: nat)
    ensures Replay(a0, bs, now) == Replay(b0, bs, now) <==>
            forall k :: k in Newest(bs) || Damaged(bs, now, k) || SameEntry(a0, b0, k)
  {
    hide Newest, Damaged;
    var a, b := Replay(a0, bs, now), Replay(b0, bs, now);
    forall k ensures SameEntry(a, b, k) <==> k in Newest(bs) || Damaged(bs, now, k) || SameEntry(a0, b0, k) {
      if k in Newest(bs) {
        ReplayFrom(a0, b0, bs, now, k);
      } else {
        ReplayUntouched(a0, bs, now, k);
        ReplayUntouched(b0, bs, now, k);
      }
    }
    if forall k :: SameEntry(a, b, k) {
      SameIndex(a, b);
    }
  }

  /** The hint fast path, exactly: loading HINT and reading only the segments after MERGEFIN builds the
      index that reading every segment from an empty index builds, if and only if the hints say of each
      key what the merged segments say, keys that the rest commits or erases excepted. */
  lemma HintRefinesScan(s: Store, now: nat)
    requires Loadable(s)
    ensures LoadedIndex(s, now) == Recover(Recovery(map[], map[]), Flat(s.wal.Blocks()), now).index <==>
            forall k :: k in Newest(ReplayedPart(s)) || Damaged(ReplayedPart(s), now, k)
                        || SameEntry(HintMap(s.hint), Replay(map[], MergedPart(s), 0), k)
  {
    hide Loadable, Newest, Damaged, Replay, HintMap, LoadedIndex, MergedPart, ReplayedPart, SameEntry, Recover;
    LoadedIsReplay(s, now);
    ScannedIsReplay(s, now);
    ReplaysAgree(HintMap(s.hint), Replay(map[], MergedPart(s), 0), ReplayedPart(s), now);
  }

  /** What the loaded index holds for one key: if the rest of the log commits it, what a full scan finds;
      otherwise the hint, unless a torn record erases it. */
  lemma LoadedAt(s: Store, now: nat, k: Bytes)
    requires Loadable(s)
    ensures var index, hints, bs, rest := LoadedIndex(s, now), HintMap(s.hint), s.wal.Blocks(), ReplayedPart(s);
            if k in Newest(rest) then ReplayedKey(index, bs, now, k)
            else (k in index <==> k in hints && !Damaged(rest, now, k)) && (k in index ==> index[k] == hints[k])
  {
    hide Newest, Damaged, Replay, HintMap, LoadedIndex, MergedPart, ReplayedPart, Recover, BlocksOK;
    LoadedIsReplay(s, now);
    ScannedIsReplay(s, now);
    assert BlocksOK(s.wal.Blocks());
    hide Loadable;
    var hints, merged, rest := HintMap(s.hint), Replay(map[], MergedPart(s), 0), ReplayedPart(s);
    if k in Newest(rest) {
      ReplayFrom(hints, merged, rest, now, k);
      ReplayAt(s.wal.Blocks(), now, k);
    } else {
      ReplayUntouched(hints, rest, now, k);
    }
  }

  // A key that the rest does not commit: its newest record is a merged one.
  lemma OnlyMerged(s: Store, now: nat, k: Bytes)
    requires Loadable(s) && k !in Newest(ReplayedPart(s))
    ensures var newest, merged, proper := Newest(s.wal.Blocks()), Newest(MergedPart(s)), Replay(map[], MergedPart(s), 0);
            && (k in newest <==> k in merged) && (k in merged ==> newest[k] == merged[k] && merged[k].rec.typ == NORMAL)
            && (k in proper <==> k in merged) && (k in merged ==> proper[k] == merged[k].pos)
            && (Damaged(s.wal.Blocks(), now, k) <==> Damaged(ReplayedPart(s), now, k))
  {
    hide Damaged, LogInv;
    LogParts(s);
    NewestAppend(MergedPart(s), ReplayedPart(s));
    MergedIsUndamaged(MergedPart(s), ReplayedPart(s), now, k);
    MergedEntry(MergedPart(s), k);
  }

  lemma {:induction false} MergedEntry(bs: seq<Block>, k: Bytes)
    requires AllMerged(bs)
    ensures k in Replay(map[], bs, 0) <==> k in Newest(bs)
    ensures k in Newest(bs) ==> Replay(map[], bs, 0)[k] == Newest(bs)[k].pos && Newest(bs)[k].rec.typ == NORMAL
  {
    if bs != [] {
      assert Last(bs).Merged? && BlockOK(Last(bs));
      MergedEntry(Init(bs), k);
    }
  }

  // ---------- Exactly when the index is right ----------

  /** IndexOK for one key. */
  ghost predicate EntryRight(index: Index, newest: map<Bytes, Entry>, now: int, k: Bytes) {
    && (k in index ==> k in newest && newest[k].rec.typ == NORMAL && index[k] == newest[k].pos)
    && (k in newest && newest[k].rec.typ == NORMAL && k !in index ==> newest[k].rec.IsExpired(now))
  }

  ghost predicate Unharmed(bs: seq<Block>, now: int, k: Bytes) {
    k in Live(Meaning(Newest(bs)), now) ==> !Damaged(bs, now, k)
  }

  lemma CommittedEntry(index: Index, bs: seq<Block>, now: int, k: Bytes)
    requires ReplayedKey(index, bs, now, k)
    ensures EntryRight(index, Newest(bs), now, k) <==> Unharmed(bs, now, k)
  {
    hide Newest, Damaged;
  }

  lemma HintedEntry(index: Index, hints: Index, bs: seq<Block>, merged: seq<Block>, now: int, k: Bytes)
    requires (k in index <==> k in hints && !Damaged(bs, now, k)) && (k in index ==> index[k] == hints[k])
    requires (k in Newest(bs) <==> k in Newest(merged))
    requires k in Newest(merged) ==> Newest(bs)[k] == Newest(merged)[k] && Newest(merged)[k].rec.typ == NORMAL
    requires (k in Replay(map[], merged, 0) <==> k in Newest(merged))
    requires k in Newest(merged) ==> Replay(map[], merged, 0)[k] == Newest(merged)[k].pos
    ensures EntryRight(index, Newest(bs), now, k) <==>
            Unharmed(bs, now, k) &&
            (Damaged(bs, now, k) || SameEntry(hints, Replay(map[], merged, 0), k)
             || (k !in hints && k in Newest(merged) && Newest(merged)[k].rec.IsExpired(now)))
  {
    hide Newest, Damaged, Replay;
  }

  lemma EntryExact(s: Store, now: nat, k: Bytes)
    requires Loadable(s)
    ensures EntryRight(LoadedIndex(s, now), Newest(s.wal.Blocks()), now, k) <==>
            Unharmed(s.wal.Blocks(), now, k) && HintStands(HintMap(s.hint), MergedPart(s), ReplayedPart(s), now, k)
  {
    hide Loadable, Newest, Damaged, Replay, HintMap, LoadedIndex, MergedPart, ReplayedPart, EntryRight,
      Unharmed, SameEntry;
    LoadedAt(s, now, k);
    if k in Newest(ReplayedPart(s)) {
      CommittedEntry(LoadedIndex(s, now), s.wal.Blocks(), now, k);
    } else {
      OnlyMerged(s, now, k);
      HintedEntry(LoadedIndex(s, now), HintMap(s.hint), s.wal.Blocks(), MergedPart(s), now, k);
    }
  }

  /** After loading, every index entry leads to the newest record of its key, and only expired keys are
      missing, if and only if no torn record is harmful and the hints stand. */
  lemma IndexExact(s: Store, now: nat)
    requires Loadable(s)
    ensures IndexOK(LoadedIndex(s, now), Newest(s.wal.Blocks()), now) <==>
            Harmless(s.wal.Blocks(), now) && HintsStandFor(HintMap(s.hint), MergedPart(s), ReplayedPart(s), now)
  {
    hide Loadable, Newest, Damaged, LoadedIndex, MergedPart, ReplayedPart, HintStands;
    hide HintMap, Live, Meaning;
    var index, bs := LoadedIndex(s, now), s.wal.Blocks();
    forall k ensures EntryRight(index, Newest(bs), now, k) <==>
                     Unharmed(bs, now, k) && HintStands(HintMap(s.hint), MergedPart(s), ReplayedPart(s), now, k) {
      EntryExact(s, now, k);
    }
    AllRight(index, Newest(bs), now);
    AllUnharmed(bs, now);
  }

  lemma AllRight(index: Index, newest: map<Bytes, Entry>, now: int)
    ensures IndexOK(index, newest, now) <==> forall k :: EntryRight(index, newest, now, k)
  {
    if forall k :: EntryRight(index, newest, now, k) {
      forall k | k in index ensures k in newest && newest[k].rec.typ == NORMAL && index[k] == newest[k].pos {
        assert EntryRight(index, newest, now, k);
      }
      forall k | k in newest && newest[k].rec.typ == NORMAL && k !in index ensures newest[k].rec.IsExpired(now) {
        assert EntryRight(index, newest, now, k);
      }
    }
  }

  lemma AllUnharmed(bs: seq<Block>, now: int)
    ensures Harmless(bs, now) <==> forall k :: Unharmed(bs, now, k)
  {
    hide Damaged, Newest;
    if forall k :: Unharmed(bs, now, k) {
      forall k | k in Live(Meaning(Newest(bs)), now) ensures !Damaged(bs, now, k) {
        assert Unharmed(bs, now, k);
      }
    }
  }

  // ---------- Exactly when what is read is right ----------

  /** What a key's hint makes readable. */
  function Under(hints: Index, es: seq<Entry>, now: int, k: Bytes): Option<Stored> {
    if k in hints && Shown(Read(es, hints[k]), now) then Some(StoredOf(Read(es, hints[k]).value)) else None
  }

  function Lookup(m: Contents, k: Bytes): Option<Stored> {
    if k in m then Some(m[k]) else None
  }

  /** For a key that the rest neither commits nor erases, the record under its hint reads like its live
      merged record, or neither can be read. */
  ghost predicate HintShows(s: Store, now: int, k: Bytes) {
    || k in Newest(ReplayedPart(s)) || Damaged(ReplayedPart(s), now, k)
    || Under(HintMap(s.hint), Flat(s.wal.Blocks()), now, k) == Lookup(LiveAt(MergedPart(s), now), k)
  }

  ghost predicate HintsShow(s: Store, now: int) {
    forall k :: HintShows(s, now, k)
  }

  // A key that the rest commits reads right unless a torn record has erased it.
  lemma CommittedReads(index: Index, bs: seq<Block>, now: int, k: Bytes)
    requires ReplayedKey(index, bs, now, k) && k in Newest(bs)
    requires Read(Flat(bs), Newest(bs)[k].pos) == Some(Newest(bs)[k].rec)
    ensures SameAt(Visible(index, Flat(bs), now), LiveAt(bs, now), k) <==> Unharmed(bs, now, k)
  {
    hide Newest, Damaged, Read, Flat;
  }

  // Any other key reads what is under its hint.
  lemma HintedReads(index: Index, hints: Index, bs: seq<Block>, merged: seq<Block>, now: int, k: Bytes)
    requires (k in index <==> k in hints && !Damaged(bs, now, k)) && (k in index ==> index[k] == hints[k])
    requires (k in Newest(bs) <==> k in Newest(merged)) && (k in Newest(merged) ==> Newest(bs)[k] == Newest(merged)[k])
    ensures SameAt(Visible(index, Flat(bs), now), LiveAt(bs, now), k) <==>
            && Unharmed(bs, now, k)
            && (Damaged(bs, now, k) || Under(hints, Flat(bs), now, k) == Lookup(LiveAt(merged, now), k))
  {
    hide Newest, Damaged, Read, Flat;
  }

  lemma ReadsAt(s: Store, now: nat, k: Bytes)
    requires Loadable(s)
    ensures SameAt(Visible(LoadedIndex(s, now), Flat(s.wal.Blocks()), now), LiveAt(s.wal.Blocks(), now), k) <==>
            Unharmed(s.wal.Blocks(), now, k) && HintShows(s, now, k)
  {
    hide Loadable, Newest, Damaged, HintMap, LoadedIndex, MergedPart, ReplayedPart, Flat, Visible, LiveAt,
      Unharmed, Under;
    var bs := s.wal.Blocks();
    LoadedAt(s, now, k);
    if k in Newest(ReplayedPart(s)) {
      CommittedKey(s, k);
      CommittedReads(LoadedIndex(s, now), bs, now, k);
    } else {
      OnlyMerged(s, now, k);
      HintedReads(LoadedIndex(s, now), HintMap(s.hint), bs, MergedPart(s), now, k);
    }
  }

  lemma CommittedKey(s: Store, k: Bytes)
    requires Loadable(s) && k in Newest(ReplayedPart(s))
    ensures k in Newest(s.wal.Blocks())
    ensures Read(Flat(s.wal.Blocks()), Newest(s.wal.Blocks())[k].pos) == Some(Newest(s.wal.Blocks())[k].rec)
  {
    hide WalOK, Newest, Flat, MergedPart, ReplayedPart, AllMerged;
    LogParts(s);
    NewestAppend(MergedPart(s), ReplayedPart(s));
    SpacedWal(s.wal);
    NewestIn(s.wal.Blocks(), k);
    ReadFinds(Flat(s.wal.Blocks()), Newest(s.wal.Blocks())[k]);
  }

  /** After loading, what can be read is what the log says, at `now` and ever after, if and only if no torn
      record is harmful and every hint that matters reads like the record it stands for. */
  lemma ReadExact(s: Store, now: nat)
    requires Loadable(s)
    ensures Visible(LoadedIndex(s, now), Flat(s.wal.Blocks()), now) == LiveAt(s.wal.Blocks(), now) <==>
            Harmless(s.wal.Blocks(), now) && HintsShow(s, now)
  {
    hide Loadable, LoadedIndex, Visible, LiveAt, HintShows, Unharmed, Newest, Damaged, Live, Meaning;
    hide Harmless;
    var bs := s.wal.Blocks();
    var a, b := Visible(LoadedIndex(s, now), Flat(bs), now), LiveAt(bs, now);
    forall k ensures SameAt(a, b, k) <==> Unharmed(bs, now, k) && HintShows(s, now, k) {
      ReadsAt(s, now, k);
    }
    AllUnharmed(bs, now);
    if forall k :: SameAt(a, b, k) {
      SameEverywhere(a, b);
    }
  }

  /** What agrees at `now` agrees ever after. */
  lemma ReadLater(index: Index, es: seq<Entry>, bs: seq<Block>, now: int, t: int)
    requires Visible(index, es, now) == LiveAt(bs, now) && now <= t
    ensures Visible(index, es, t) == LiveAt(bs, t)
  {
    hide Read, Newest, Meaning;
    assert Visible(index, es, t) == Live(Visible(index, es, now), t);
    assert LiveAt(bs, t) == Live(LiveAt(bs, now), t);
  }
}
