/** What a whole merge does when nothing else happens meanwhile. */
module Compaction {
  import opened Record
  import opened Seqs
  import opened Log
  import opened Visibility
  import opened Wal
  import opened Store
  import opened Recovering
  import opened Merging

  // ---------- A merge without concurrent writers ----------

  /** The loop of doMerge run to its end. */
  function ScanAll(s: Store): (r: Store)
    requires s.merge.Scanning?
    ensures r.merge.Scanning? && r.merge.todo == []
    decreases |s.merge.todo|
  {
    if s.merge.todo == [] then s else ScanAll(MergeStep(s))
  }

  lemma {:induction false} ScanAllOK(s: Store)
    requires Inv(s) && s.merge.Scanning?
    ensures var r := ScanAll(s);
            && Inv(r) && r == s.(merge := r.merge)
            && r.merge.upTo == s.merge.upTo && r.merge.started == s.merge.started
    decreases |s.merge.todo|
  {
    if s.merge.todo != [] {
      MergeStepOK(s);
      hide Inv;
      ScanAllOK(MergeStep(s));
    }
  }

  /** A whole merge: rotation at `now`, clock reading at `started`. */
  function MergeWhole(s: Store, now: nat, started: nat): Store
    requires !s.wal.IsEmpty() && !s.merge.Scanning?
  {
    MergeFinish(ScanAll(MergeClock(MergeStart(s, now), started)))
  }

  /** The keys whose record under the index is still to be kept. */
  function KeysToKeep(s: Store, now: nat): set<Bytes> {
    set k | k in s.index && k in Newest(s.wal.Blocks()) && Mergeable(Newest(s.wal.Blocks())[k].rec, now)
  }

  ghost predicate SameValue(copies: map<Bytes, Entry>, latest: map<Bytes, Entry>, k: Bytes)
    requires k in copies
  {
    k in latest && StoredOf(copies[k].rec) == StoredOf(latest[k].rec)
  }

  lemma {:induction false} NoSuchKey(bs: seq<Block>, k: Bytes)
    requires AllMerged(bs) && forall i :: 0 <= i < |bs| ==> bs[i].e.rec.key != k
    ensures k !in Newest(bs)
  {
    if bs != [] {
      NoSuchKey(Init(bs), k);
      assert Last(bs).e.rec.key != k;
    }
  }

  lemma {:induction false} OneRecordPerKey(bs: seq<Block>)
    requires AllMerged(bs) && KeysDistinct(bs)
    ensures |bs| == |Newest(bs).Keys|
  {
    if bs != [] {
      var bs', k := Init(bs), Last(bs).e.rec.key;
      OneRecordPerKey(bs');
      forall i | 0 <= i < |bs'| ensures bs'[i].e.rec.key != k { assert bs'[i] == bs[i]; }
      NoSuchKey(bs', k);
      assert Newest(bs).Keys == Newest(bs').Keys + {k};
    }
  }

  /** Compaction is exact: with no concurrent writers the output holds exactly one record for each key
      whose record is to be kept, with that record's value and expiry time, and nothing else. */
  lemma MergeIsExact(s: Store, now: nat, started: nat)
    requires Inv(s) && started >= now >= s.clock && !s.wal.IsEmpty() && !s.merge.Scanning?
    ensures var out := MergeWhole(s, now, started).merge.out.Blocks();
            && Inv(MergeWhole(s, now, started))
            && Newest(out).Keys == KeysToKeep(s, started) && |out| == |KeysToKeep(s, started)|
            && (forall k :: k in Newest(out) ==> SameValue(Newest(out), Newest(s.wal.Blocks()), k))
  {
    hide LogInv, HintOK, ScanAll, MergeStart, MergeWhole, IndexOK, Scanned;
    var s2 := MergeWhole(s, now, started);
    MergeWholeOK(s, now, started);
    IndexOKLater(s.index, Newest(s.wal.Blocks()), s.clock, started);
    var read := ReadOf(s2);
    MergedExactly(s2, read);
  }

  /** A whole merge keeps the invariant, the index and the contents of the log. */
  lemma MergeWholeOK(s: Store, now: nat, started: nat)
    requires Inv(s) && started >= now >= s.clock && !s.wal.IsEmpty() && !s.merge.Scanning?
    ensures var s2 := MergeWhole(s, now, started);
            && Inv(s2) && s2.merge.Finished? && s2.merge.started == started && s2.clock == started
            && s2.merge.upTo == s.wal.active && s2.wal == s.wal.Rotate() && s2.index == s.index
            && Source(s2) == s.wal.Blocks() && BlocksOK(Source(s2))
  {
    hide Inv, ScanAll, MergeClock, BlocksOK, Cat, Wal.Rotate;
    var s1 := MergeClock(MergeStart(s, now), started);
    BegunOK(s, now, started);
    ScanAllOK(s1);
    LogOK(s);
    hide MergeStart;
    MergeFinishOK(ScanAll(s1));
  }

  lemma BegunOK(s: Store, now: nat, started: nat)
    requires Inv(s) && started >= now >= s.clock && !s.wal.IsEmpty() && !s.merge.Scanning?
    ensures var s1 := MergeClock(MergeStart(s, now), started);
            && Inv(s1) && s1.merge.Scanning? && s1.merge.started == started && s1.clock == started
            && s1.merge.upTo == s.wal.active && s1.wal == s.wal.Rotate() && s1.index == s.index
            && Source(s1) == s.wal.Blocks()
  {
    hide Inv, Flat, Cat;
    MergeStartOK(s, now);
    RotatedAll(s, now);
    MergeClockOK(MergeStart(s, now), started);
  }

  lemma LogOK(s: Store)
    requires Inv(s)
    ensures BlocksOK(s.wal.Blocks())
  {
  }

  lemma MergedExactly(s: Store, read: seq<Entry>)
    requires s.merge.Finished? && Scanned(s, read) && BlocksOK(Source(s))
    requires IndexOK(s.index, Newest(Source(s)), s.merge.started)
    ensures var out, latest := s.merge.out.Blocks(), Newest(Source(s));
            var keep := set k | k in s.index && k in latest && Mergeable(latest[k].rec, s.merge.started);
            && Newest(out).Keys == keep && |out| == |keep|
            && (forall k :: k in Newest(out) ==> SameValue(Newest(out), latest, k))
  {
    hide Newest, Flat, IndexOK, BlocksOK, WalOK, Scanned, Mergeable, AllMerged, KeysDistinct;
    var copies, latest := Newest(s.merge.out.Blocks()), Newest(Source(s));
    AllRead(s, read);
    OneRecordPerKey(s.merge.out.Blocks());
    forall k
      ensures k in copies <==> k in s.index && k in latest && Mergeable(latest[k].rec, s.merge.started)
      ensures k in copies ==> SameValue(copies, latest, k)
    {
      KeptExactly(s, read, k);
    }
  }

  lemma RotatedAll(s: Store, now: nat)
    requires Inv(s) && !s.wal.IsEmpty() && !s.merge.Scanning?
    ensures Source(MergeStart(s, now)) == s.wal.Blocks()
  {
    var s' := MergeStart(s, now);
    forall i | 1 <= i <= s.wal.active ensures Segment(s'.wal.segs, i) == Segment(s.wal.segs, i) {}
    CatFrame(s'.wal.segs, s.wal.segs, 1, s.wal.active);
  }

  lemma StartReads(s: Store, now: nat)
    requires Inv(s) && now >= s.clock && !s.wal.IsEmpty() && !s.merge.Scanning?
    ensures MergeStart(s, now).merge.Scanning? && MergeStart(s, now).clock == now
    ensures MergeStart(s, now).merge.todo == Flat(Source(MergeStart(s, now)))
  {
    RotatedAll(s, now);
  }

  lemma AllRead(s: Store, read: seq<Entry>)
    requires s.merge.Finished? && Scanned(s, read)
    ensures read == Flat(Source(s)) && AllMerged(s.merge.out.Blocks()) && KeysDistinct(s.merge.out.Blocks())
  {
    assert read + [] == read;
  }

  // A key is copied exactly when its record is to be kept, if nothing was written since the start.
  lemma KeptExactly(s: Store, read: seq<Entry>, k: Bytes)
    requires s.merge.Finished? && Scanned(s, read) && read == Flat(Source(s)) && BlocksOK(Source(s))
    requires IndexOK(s.index, Newest(Source(s)), s.merge.started)
    ensures k in Newest(s.merge.out.Blocks()) <==>
            k in s.index && k in Newest(Source(s)) && Mergeable(Newest(Source(s))[k].rec, s.merge.started)
    ensures k in Newest(s.merge.out.Blocks()) ==> SameValue(Newest(s.merge.out.Blocks()), Newest(Source(s)), k)
  {
    var copies, latest := Newest(s.merge.out.Blocks()), Newest(Source(s));
    if k in copies {
      assert CopyOK(latest, read, copies[k].rec, s.merge.started, k);
    }
    if k in s.index && k in latest && Mergeable(latest[k].rec, s.merge.started) {
      NewestIn(Source(s), k);
      assert Wanted(latest, read, s.index, s.merge.started, k);
    }
  }
}
