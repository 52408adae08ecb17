/** Crash atomicity for a log that is cut anywhere, with or without merged segments before it. */
module Crashing {
  import opened Seqs
  import opened Log
  import opened Visibility
  import opened Wal
  import opened Store
  import opened Hints
  import opened Recovering
  import opened Committing

  /** The number of blocks that lie entirely in the first `n` records. */
  function Whole(bs: seq<Block>, n: nat): (w: nat)
    ensures w <= |bs|
  {
    if bs == [] then 0 else if n >= |Flat(bs)| then |bs| else Whole(Init(bs), n)
  }

  function CutBlock(b: Block, n: nat): Block
    requires n < |Entries(b)|
  {
    match b
    case Merged(_) => b
    case Done(id, ops, _) => Torn(id, ops[..n])
    case Torn(id, ops) => Torn(id, ops[..n])
  }

  /** The first `n` records, seen as blocks: a block that is cut short is torn. */
  function CutBlocks(bs: seq<Block>, n: nat): seq<Block> {
    if bs == [] then []
    else if n >= |Flat(bs)| then bs
    else if n > |Flat(Init(bs))| then Init(bs) + [CutBlock(Last(bs), n - |Flat(Init(bs))|)]
    else CutBlocks(Init(bs), n)
  }

  lemma CutBlockOK(b: Block, n: nat)
    requires BlockOK(b) && 0 < n < |Entries(b)|
    ensures var c := CutBlock(b, n);
            BlockOK(c) && c.Torn? && Entries(c) == Entries(b)[..n] && Committed(c) == map[]
  {
  }

  lemma {:induction false} CutOK(bs: seq<Block>, n: nat)
    requires BlocksOK(bs) && n <= |Flat(bs)|
    ensures BlocksOK(CutBlocks(bs, n)) && Flat(CutBlocks(bs, n)) == Flat(bs)[..n]
    ensures Newest(CutBlocks(bs, n)) == Newest(bs[..Whole(bs, n)])
  {
    if bs == [] || n >= |Flat(bs)| {
      assert Flat(bs)[..n] == Flat(bs) && bs[..|bs|] == bs;
    } else {
      var bs', b := Init(bs), Last(bs);
      assert BlocksOK(bs') && BlockOK(b);
      WholeStep(bs, n);
      TakeSplit(Flat(bs'), Entries(b), n);
      assert Flat(bs) == Flat(bs') + Entries(b);
      hide BlocksOK, BlockOK, Newest, CutBlock, CutBlocks, Entries, Whole, Flat, Init;
      if n > |Flat(bs')| {
        CutLast(bs', b, n - |Flat(bs')|);
      } else {
        CutOK(bs', n);
      }
    }
  }

  lemma WholeStep(bs: seq<Block>, n: nat)
    requires bs != [] && n < |Flat(bs)|
    ensures CutBlocks(bs, n) == if n > |Flat(Init(bs))| then Init(bs) + [CutBlock(Last(bs), n - |Flat(Init(bs))|)]
                                else CutBlocks(Init(bs), n)
    ensures bs[..Whole(bs, n)] == if n > |Flat(Init(bs))| then Init(bs) else Init(bs)[..Whole(Init(bs), n)]
  {
    hide Entries;
    var bs' := Init(bs);
    assert bs[..Whole(bs', n)] == bs'[..Whole(bs', n)];
    assert bs'[..|bs'|] == bs';
  }

  lemma TakeSplit<T>(a: seq<T>, b: seq<T>, n: nat)
    requires n <= |a + b|
    ensures (a + b)[..n] == if n > |a| then a + b[..n - |a|] else a[..n]
  {
  }

  lemma CutLast(bs: seq<Block>, b: Block, k: nat)
    requires BlocksOK(bs) && BlockOK(b) && 0 < k < |Entries(b)|
    ensures var c := bs + [CutBlock(b, k)];
            BlocksOK(c) && Flat(c) == Flat(bs) + Entries(b)[..k] && Newest(c) == Newest(bs)
  {
    var t := CutBlock(b, k);
    CutBlockOK(b, k);
    Snoc(bs, t);
    assert Newest(bs) + map[] == Newest(bs);
  }

  /** Cut the log at any record and recover at any time: what is visible is what the batches say whose
      end records survived, if and only if no torn record that is left has expired over a live key. */
  lemma CrashAtomicity(bs: seq<Block>, n: nat, now: nat)
    requires BlocksOK(bs) && Spaced(Flat(bs)) && n <= |Flat(bs)|
    ensures var left := Flat(bs)[..n];
            var index := Recover(Recovery(map[], map[]), left, now).index;
            Visible(index, left, now) == Live(Meaning(Newest(bs[..Whole(bs, n)])), now) <==> Harmless(CutBlocks(bs, n), now)
  {
    CutOK(bs, n);
    RecoverIsReplay(map[], CutBlocks(bs, n), now);
    assert Spaced(Flat(bs)[..n]);
    RecoveryExact(CutBlocks(bs, n), now);
  }

  // ---------- A database directory with merged segments ----------

  /** The cut blocks are whole blocks, and at most one torn one behind them. */
  lemma {:induction false} CutShape(bs: seq<Block>, n: nat) returns (rest: seq<Block>)
    requires BlocksOK(bs) && n <= |Flat(bs)|
    ensures CutBlocks(bs, n) == bs[..Whole(bs, n)] + rest
    ensures rest == [] || (|rest| == 1 && rest[0].Torn? && BlockOK(rest[0]))
  {
    if bs == [] || n >= |Flat(bs)| {
      rest := [];
      assert bs[..|bs|] + [] == bs;
    } else {
      assert BlocksOK(Init(bs)) && BlockOK(Last(bs));
      WholeStep(bs, n);
      assert Flat(bs) == Flat(Init(bs)) + Entries(Last(bs));
      hide CutBlocks, Whole, Flat, Entries, BlocksOK;
      if n > |Flat(Init(bs))| {
        rest := [CutBlock(Last(bs), n - |Flat(Init(bs))|)];
        CutBlockOK(Last(bs), n - |Flat(Init(bs))|);
      } else {
        rest := CutShape(Init(bs), n);
      }
    }
  }

  // Behind other blocks.
  lemma CutTail(a: seq<Block>, b: seq<Block>, n: nat)
    requires BlocksOK(a + b) && n <= |Flat(b)|
    ensures BlocksOK(a + CutBlocks(b, n)) && Flat(a + CutBlocks(b, n)) == Flat(a) + Flat(b)[..n]
    ensures Newest(a + CutBlocks(b, n)) == Newest(a + b[..Whole(b, n)])
  {
    hide BlocksOK, CutBlocks, Whole, Flat, Newest;
    PartsOK(a, b);
    CutOK(b, n);
    FlatAppend(a, CutBlocks(b, n));
    NewestAppend(a, CutBlocks(b, n));
    NewestAppend(a, b[..Whole(b, n)]);
    var whole := b[..Whole(b, n)];
    var rest := CutShape(b, n);
    assert a + b == (a + whole) + b[Whole(b, n)..];
    PartsOK(a + whole, b[Whole(b, n)..]);
    assert a + (whole + rest) == (a + whole) + rest;
    if rest != [] {
      assert rest == [rest[0]];
      BlocksGrow(a + whole, rest[0]);
    } else {
      assert (a + whole) + [] == a + whole;
    }
  }

  function FillOf(bs: seq<Block>): nat {
    if Flat(bs) == [] then 0 else End(Last(Flat(bs))).off
  }

  /** The log cut after the first `n` records of segment `c`. */
  function CutWal(w: Wal, c: nat, n: nat): Wal {
    var last := CutBlocks(Segment(w.segs, c), n);
    Wal(w.cap, map id | id in w.segs && id <= c :: if id == c then last else w.segs[id], c, FillOf(last))
  }

  function CutStore(s: Store, c: nat, n: nat): Store {
    s.(wal := CutWal(s.wal, c, n))
  }

  // What is in front of the cut.
  lemma CutParts(w: Wal, lo: nat, c: nat, n: nat)
    requires 1 <= lo <= c && c in w.segs
    ensures Cat(CutWal(w, c, n).segs, lo, c) == Cat(w.segs, lo, c - 1) + CutBlocks(w.segs[c], n)
  {
    hide CutBlocks;
    CatFrame(CutWal(w, c, n).segs, w.segs, lo, c - 1);
  }

  lemma CutWhole(w: Wal, c: nat)
    requires WalOK(w) && BlocksOK(w.Blocks()) && 1 <= c <= w.active && c in w.segs
    ensures BlocksOK(Cat(w.segs, 1, c - 1) + w.segs[c]) && Spaced(Flat(Cat(w.segs, 1, c - 1) + w.segs[c]))
  {
    hide BlocksOK, Spaced, Flat;
    CatSplit(w.segs, 1, c, w.active);
    assert Cat(w.segs, 1, c) == Cat(w.segs, 1, c - 1) + w.segs[c];
    PartsOK(Cat(w.segs, 1, c), Cat(w.segs, c + 1, w.active));
    FlatAppend(Cat(w.segs, 1, c), Cat(w.segs, c + 1, w.active));
    SpacedParts(Flat(Cat(w.segs, 1, c)), Flat(Cat(w.segs, c + 1, w.active)));
  }

  lemma CutLogOK(w: Wal, c: nat, n: nat)
    requires WalOK(w) && BlocksOK(w.Blocks()) && 1 <= c <= w.active && c in w.segs && n <= |Flat(w.segs[c])|
    ensures WalOK(CutWal(w, c, n)) && BlocksOK(CutWal(w, c, n).Blocks())
  {
    hide BlocksOK, Spaced, Flat, CutBlocks, Cat, EntryOK;
    var a, b := Cat(w.segs, 1, c - 1), w.segs[c];
    CutParts(w, 1, c, n);
    CutWhole(w, c);
    CutTail(a, b, n);
    FlatAppend(a, b);
    PartsOK(a, b);
    CutSpaced(Flat(a), Flat(b), n);
    CutEntries(w, c, n);
    FillFits(w, c, n);
  }

  lemma CutEntries(w: Wal, c: nat, n: nat)
    requires WalOK(w) && c in w.segs && n <= |Flat(w.segs[c])| && BlocksOK(w.segs[c]) && Spaced(Flat(w.segs[c]))
    ensures var w' := CutWal(w, c, n);
            forall id, x, e :: id in w'.segs && x in w'.segs[id] && e in Entries(x) ==> EntryOK(w', id, e)
  {
    hide BlocksOK, Spaced, Flat, CutBlocks, Cat, FillOf, Entries;
    var w' := CutWal(w, c, n);
    forall id, x, e | id in w'.segs && x in w'.segs[id] && e in Entries(x) ensures EntryOK(w', id, e) {
      if id < c {
        assert EntryOK(w, id, e);
      } else {
        CutEntry(w, c, n, x, e);
      }
    }
  }

  lemma CutSpaced(a: seq<Entry>, b: seq<Entry>, n: nat)
    requires Spaced(a + b) && n <= |b|
    ensures Spaced(a + b[..n]) && Spaced(b)
  {
    SpacedParts(a, b);
    assert a + b == (a + b[..n]) + b[n..];
    SpacedParts(a + b[..n], b[n..]);
  }

  lemma {:induction false} InFlat(bs: seq<Block>, b: Block, e: Entry)
    requires b in bs && e in Entries(b)
    ensures e in Flat(bs)
  {
    if b != Last(bs) {
      InFlat(Init(bs), b, e);
    }
  }

  lemma InSegment(w: Wal, c: nat, e: Entry)
    requires WalOK(w) && c in w.segs && e in Flat(w.segs[c])
    ensures EntryOK(w, c, e)
  {
    hide Spaced, Flat, Cat;
    var b := FlatElement(w.segs[c], e);
  }

  // A record in front of the cut ends there at the latest.
  lemma CutEntry(w: Wal, c: nat, n: nat, x: Block, e: Entry)
    requires WalOK(w) && c in w.segs && n <= |Flat(w.segs[c])| && BlocksOK(w.segs[c]) && Spaced(Flat(w.segs[c]))
    requires x in CutBlocks(w.segs[c], n) && e in Entries(x)
    ensures EntryOK(CutWal(w, c, n), c, e)
  {
    hide BlocksOK, Flat, CutBlocks, Cat, WalOK, Spaced, Cost, Entries;
    var last, es := CutBlocks(w.segs[c], n), Flat(w.segs[c]);
    CutOK(w.segs[c], n);
    InFlat(last, x, e);
    InSegment(w, c, e);
    InSegment(w, c, Last(es[..n]));
    LastEnds(es, n, e);
  }

  lemma LastEnds(es: seq<Entry>, n: nat, e: Entry)
    requires Spaced(es) && n <= |es| && e in es[..n] && Last(es[..n]).pos.seg == e.pos.seg
    ensures End(e).off <= End(Last(es[..n])).off
  {
    hide Cost;
    var i :| 0 <= i < n && es[i] == e;
    assert i < n - 1 ==> AtMost(End(es[i]), es[n - 1].pos);
  }

  lemma FillFits(w: Wal, c: nat, n: nat)
    requires WalOK(w) && c in w.segs && n <= |Flat(w.segs[c])| && BlocksOK(w.segs[c])
    ensures FillOf(CutBlocks(w.segs[c], n)) <= w.cap
  {
    hide BlocksOK, Flat, CutBlocks, Cat, WalOK, Spaced;
    CutOK(w.segs[c], n);
    if Flat(CutBlocks(w.segs[c], n)) != [] {
      InSegment(w, c, Last(Flat(w.segs[c])[..n]));
    }
  }

  lemma CutLoadable(s: Store, c: nat, n: nat)
    requires Loadable(s) && s.fin < c <= s.wal.active && c in s.wal.segs && n <= |Flat(s.wal.segs[c])|
    ensures Loadable(CutStore(s, c, n)) && MergedPart(CutStore(s, c, n)) == MergedPart(s)
  {
    hide WalOK, BlocksOK, Flat, CutBlocks, AllMerged;
    CutLogOK(s.wal, c, n);
    CatFrame(CutStore(s, c, n).wal.segs, s.wal.segs, 1, s.fin);
  }

  /** The blocks of which nothing was cut off. */
  function LeftWhole(s: Store, c: nat, n: nat): seq<Block>
    requires c >= 1
  {
    var last := Segment(s.wal.segs, c);
    Cat(s.wal.segs, 1, c - 1) + last[..Whole(last, n)]
  }

  /** Crash atomicity for a whole data directory: behind merged segments, with any HINT file, cut the log
      after any record and open it at any time. What can be read is what the batches say whose end records
      survived, if and only if no torn record that is left is harmful and the hints that matter after the
      cut read right. */
  lemma CrashExact(s: Store, c: nat, n: nat, now: nat)
    requires Loadable(s) && s.fin < c <= s.wal.active && c in s.wal.segs && n <= |Flat(s.wal.segs[c])|
    ensures var s' := CutStore(s, c, n);
            && Flat(s'.wal.Blocks()) == Flat(Cat(s.wal.segs, 1, c - 1)) + Flat(s.wal.segs[c])[..n]
            && (Visible(LoadedIndex(s', now), Flat(s'.wal.Blocks()), now) == LiveAt(LeftWhole(s, c, n), now) <==>
                  Harmless(s'.wal.Blocks(), now) && HintsShow(s', now))
  {
    hide WalOK, BlocksOK, Flat, CutBlocks, AllMerged, LoadedIndex, HintsShow, Newest, Harmless, Whole, Spaced;
    var s' := CutStore(s, c, n);
    CutLoadable(s, c, n);
    CutParts(s.wal, 1, c, n);
    CutWhole(s.wal, c);
    CutTail(Cat(s.wal.segs, 1, c - 1), s.wal.segs[c], n);
    ReadExact(s', now);
  }

  /** Hints that say of every key what the merged segments say do so after any cut. */
  lemma ProperHintsShow(s: Store, c: nat, n: nat, now: nat)
    requires Loadable(s) && s.fin < c <= s.wal.active && c in s.wal.segs && n <= |Flat(s.wal.segs[c])|
    requires HintMap(s.hint) == Replay(map[], MergedPart(s), 0)
    ensures HintsShow(CutStore(s, c, n), now)
  {
    hide Loadable, HintMap, Replay, HintsShow, MergedPart, ReplayedPart, Newest, Damaged;
    CutLoadable(s, c, n);
    assert CutStore(s, c, n).hint == s.hint;
    StandsShow(CutStore(s, c, n), now);
  }

  /** A torn batch without expiry times never does harm. */
  lemma NoTtlNoHarm(bs: seq<Block>, now: nat)
    requires forall i, e :: 0 <= i < |bs| && bs[i].Torn? && e in bs[i].ops ==> e.rec.expire <= 0
    ensures Harmless(bs, now)
  {
    forall i, k | 0 <= i < |bs| ensures !Erases(bs[i], now, k) {
      if bs[i].Torn? {
        forall j | 0 <= j < |bs[i].ops| ensures !bs[i].ops[j].rec.IsExpired(now) {
          assert bs[i].ops[j] in bs[i].ops;
        }
      }
    }
  }
}
