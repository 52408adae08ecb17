/** An iterator's snapshot of the index stays readable while the database goes on. */
module Snapshots {
  import opened Record
  import opened Seqs
  import opened Log
  import opened Visibility
  import opened Wal
  import opened Store
  import opened Hints
  import opened Committing
  import opened Merging
  import opened Runs
  import opened Engine
  import opened Keys
  import opened Traversal

  lemma {:induction false} ReadIn(es: seq<Entry>, p: Pos)
    requires Read(es, p).Some?
    ensures Entry(p, Read(es, p).value) in es
  {
    if Last(es).pos != p {
      ReadIn(Init(es), p);
    }
  }

  // What can be read at a position can still be read there after the log has grown.
  lemma ReadGrows(es: seq<Entry>, more: seq<Entry>, p: Pos)
    requires Spaced(es + more) && Read(es, p).Some?
    ensures Read(es + more, p) == Read(es, p)
  {
    ReadIn(es, p);
    ReadFinds(es + more, Entry(p, Read(es, p).value));
  }

  lemma CommitGrows(s: Store, id: nat, writes: seq<LogRecord>, now: nat) returns (more: seq<Entry>)
    requires Inv(s) && BatchOK(s, id, writes)
    ensures Flat(CommitStep(s, id, writes, now).wal.Blocks()) == Flat(s.wal.Blocks()) + more
  {
    if writes == [] || TooLarge(s.wal.cap, id, writes) {
      more := [];
    } else {
      var rs := BatchRecords(id, writes);
      var w := s.wal.MakeRoom(Total(rs));
      var b := BatchBlock(id, writes, w);
      BatchBlockOK(id, writes, w);
      hide Spaced, Place, Total, Cat, WalOK, BlocksOK;
      GrownOK(s.wal, b, rs, Total(rs));
      FlatAppend(s.wal.Blocks(), [b]);
      more := Flat([b]);
    }
  }

  lemma StepGrows(s: Store, a: Action) returns (more: seq<Entry>)
    requires Inv(s) && Enabled(s, a) && !a.CrashIn? && !a.Restart? && !a.CrashInEnd?
    ensures Flat(Apply(s, a).wal.Blocks()) == Flat(s.wal.Blocks()) + more
  {
    hide Inv, BlocksOK, WalOK, Cat, Flat;
    more := [];
    match a {
      case CommitBatch(id, writes, now) => more := CommitGrows(s, id, writes, now);
      case ReadKey(key, now) => TouchOK(s, key, now);
      case BeginMerge(now) => MergeStartOK(s, now);
      case ReadMergeClock(now) => MergeClockOK(s, now);
      case ScanRecord => MergeStepOK(s);
      case EndMerge => MergeFinishOK(s);
    }
  }

  lemma StepReads(s: Store, a: Action, p: Pos)
    requires Inv(s) && Enabled(s, a) && !a.CrashIn? && !a.Restart? && !a.CrashInEnd?
    requires Inv(Apply(s, a)) && FilesOf(s.wal).ReadAt(p).Some?
    ensures FilesOf(Apply(s, a).wal).ReadAt(p) == FilesOf(s.wal).ReadAt(p)
  {
    hide Inv, Read, Flat, FilesOf, Files.ReadAt, CommitStep, Touch, MergeStart, MergeStep, BatchOK;
    var more := StepGrows(s, a);
    GrownReads(s, Apply(s, a), more, p);
  }

  lemma GrownReads(s: Store, s': Store, more: seq<Entry>, p: Pos)
    requires Inv(s) && Inv(s') && Flat(s'.wal.Blocks()) == Flat(s.wal.Blocks()) + more
    requires FilesOf(s.wal).ReadAt(p).Some?
    ensures FilesOf(s'.wal).ReadAt(p) == FilesOf(s.wal).ReadAt(p)
  {
    hide HintOK, MergeInv, IndexOK, BlocksOK, Read, Flat, Spaced, FilesOf, Cat;
    FilesOfAll(s.wal);
    FilesOfAll(s'.wal);
    SpacedWal(s'.wal);
    ReadGrows(Flat(s.wal.Blocks()), more, p);
  }

  /** Commits, lazy deletions and merge steps never take away what an open iterator still has to read:
      every position of the snapshot goes on returning the record it returned when the iterator was
      created, so a traversal yields the snapshot's contents however the steps are interleaved with it. */
  lemma {:induction false} SnapshotStable(cap: nat, start: nat, before: seq<Action>, during: seq<Action>,
                                          k: Bytes, prefix: Bytes, t: nat)
    requires LegalRun(cap, start, before + during) && LegalRun(cap, start, before)
    requires forall a :: a in during ==> !a.CrashIn? && !a.Restart? && !a.CrashInEnd?
    requires k in Run(cap, start, before).index
    ensures var s, s' := Run(cap, start, before), Run(cap, start, before + during);
            && FilesOf(s.wal).ReadAt(s.index[k]).Some?
            && FilesOf(s'.wal).ReadAt(s.index[k]) == FilesOf(s.wal).ReadAt(s.index[k])
            && Examine(FilesOf(s'.wal), prefix, Item(k, s.index[k]), t)
               == Examine(FilesOf(s.wal), prefix, Item(k, s.index[k]), t)
  {
    var s := Run(cap, start, before);
    if during == [] {
      assert before + during == before;
      EveryIndexEntryIsNewest(cap, start, before, k);
      FilesOfAll(s.wal);
    } else {
      InitAppend(before, during);
      assert Last(during) in during;
      SnapshotStable(cap, start, before, Init(during), k, prefix, t);
      var s1 := Run(cap, start, before + Init(during));
      RunRefines(cap, start, before + Init(during));
      RunRefines(cap, start, before + during);
      hide Inv, FilesOf, Enabled, Apply, Examine, Files.ReadAt;
      StepReads(s1, Last(during), s.index[k]);
      SameExamine(FilesOf(s.wal), FilesOf(Run(cap, start, before + during).wal), prefix, Item(k, s.index[k]), t);
    }
  }

  lemma SameExamine(f: Files, f': Files, prefix: Bytes, x: Item, t: nat)
    requires f.ReadAt(x.pos) == f'.ReadAt(x.pos)
    ensures Examine(f, prefix, x, t) == Examine(f', prefix, x, t)
  {
  }

  // ---------- A traversal while the database goes on ----------

  /** What a traversal hands out if the record of key `k` is examined in the files `at(k)`. */
  ghost function YieldsAcross(rest: seq<Item>, at: Bytes -> Files, prefix: Bytes, go: bool, clock: Clock): seq<Found> {
    if rest == [] then [] else
    match Examine(at(rest[0].key), prefix, rest[0], clock(rest[0].key))
    case Skip => YieldsAcross(rest[1..], at, prefix, go, clock)
    case Unreadable => if go then YieldsAcross(rest[1..], at, prefix, go, clock) else []
    case Take(found) => [found] + YieldsAcross(rest[1..], at, prefix, go, clock)
  }

  lemma {:induction false} AcrossIsThen(rest: seq<Item>, at: Bytes -> Files, files: Files, prefix: Bytes, go: bool,
                                        clock: Clock)
    requires forall i :: 0 <= i < |rest| ==> SameLook(rest[i], at(rest[i].key), files, prefix, clock)
    ensures YieldsAcross(rest, at, prefix, go, clock) == Yields(rest, files, prefix, go, clock)
  {
    hide Examine;
    if rest != [] {
      forall i | 0 <= i < |rest[1..]| ensures SameLook(rest[1..][i], at(rest[1..][i].key), files, prefix, clock) {
        assert rest[1..][i] == rest[i + 1];
      }
      AcrossIsThen(rest[1..], at, files, prefix, go, clock);
      assert SameLook(rest[0], at(rest[0].key), files, prefix, clock);
    }
  }

  ghost predicate SameLook(x: Item, f: Files, f': Files, prefix: Bytes, clock: Clock) {
    Examine(f, prefix, x, clock(x.key)) == Examine(f', prefix, x, clock(x.key))
  }

  /** The files at some moment of the run after `before`. */
  ghost predicate FilesDuring(cap: nat, start: nat, before: seq<Action>, during: seq<Action>, f: Files) {
    exists m :: 0 <= m <= |during| && LegalRun(cap, start, before + during[..m])
                && f == FilesOf(Run(cap, start, before + during[..m]).wal)
  }

  /** An iterator takes its snapshot after `before`, and the run goes on while it is used: commits, lazy
      deletions and merge steps in between change nothing. Whatever the moment at which each record is
      examined, the traversal hands out what it would have handed out without them: each key with the prefix
      that the snapshot's state shows at the time of examination, with its value, in strict order. */
  lemma TraversalAcross(cap: nat, start: nat, before: seq<Action>, during: seq<Action>, at: Bytes -> Files,
                        reverse: bool, prefix: Bytes, go: bool, clock: Clock)
    requires LegalRun(cap, start, before) && (forall a :: a in during ==> !a.CrashIn? && !a.Restart? && !a.CrashInEnd?)
    requires forall k :: FilesDuring(cap, start, before, during, at(k))
    requires forall k :: clock(k) >= Run(cap, start, before).clock
    ensures var s := Run(cap, start, before);
            var ys := YieldsAcross(Walk(s.index, reverse), at, prefix, go, clock);
            && ys == Yields(Walk(s.index, reverse), FilesOf(s.wal), prefix, go, clock)
            && (forall i, j :: 0 <= i < j < |ys| ==>
                  if reverse then Less(ys[j].key, ys[i].key) else Less(ys[i].key, ys[j].key))
            && (forall y :: y in ys <==> prefix <= y.key && y.key in View(s, clock(y.key))
                                         && y.value == View(s, clock(y.key))[y.key].value)
  {
    hide Run, LegalRun, Refines, FilesOf, View, Yields, YieldsAcross, Examine, Ordered, Walk, Less;
    var s := Run(cap, start, before);
    RunRefines(cap, start, before);
    WalkOK(s.index, reverse);
    var items := Walk(s.index, reverse);
    forall i | 0 <= i < |items| ensures SameLook(items[i], at(items[i].key), FilesOf(s.wal), prefix, clock) {
      LookDuring(cap, start, before, during, at(items[i].key), items[i], prefix, clock);
    }
    AcrossIsThen(items, at, FilesOf(s.wal), prefix, go, clock);
    assert Inv(s) by { RefinesInv(s, SpecRun(cap, before)); }
    TraversalExact(s, reverse, prefix, go, clock);
  }

  lemma LookDuring(cap: nat, start: nat, before: seq<Action>, during: seq<Action>, f: Files, x: Item, prefix: Bytes,
                   clock: Clock)
    requires LegalRun(cap, start, before) && (forall a :: a in during ==> !a.CrashIn? && !a.Restart? && !a.CrashInEnd?)
    requires FilesDuring(cap, start, before, during, f)
    requires x.key in Run(cap, start, before).index && x.pos == Run(cap, start, before).index[x.key]
    ensures SameLook(x, f, FilesOf(Run(cap, start, before).wal), prefix, clock)
  {
    hide Run, LegalRun, FilesOf, Examine, Files.ReadAt;
    var m :| 0 <= m <= |during| && LegalRun(cap, start, before + during[..m])
             && f == FilesOf(Run(cap, start, before + during[..m]).wal);
    SnapshotStable(cap, start, before, during[..m], x.key, prefix, clock(x.key));
  }
}
