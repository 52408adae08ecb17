/** Whole runs: every interleaving of the engine's steps, compared with a plain map. */
module Runs {
  import opened Record
  import opened Seqs
  import opened Log
  import opened Visibility
  import opened Wal
  import opened Store
  import opened Hints
  import opened Recovering
  import opened Committing
  import opened Merging

  /** The steps; every one runs under the database lock, except that `ScanRecord` reads segments
      nobody writes any more. `CrashIn` stops a commit after `n` of its chunks and restarts; `CrashInEnd`
      stops a merge while MERGEFIN is being written, and restarts, which succeeds the second time. */
  datatype Action =
    | CommitBatch(id: nat, writes: seq<LogRecord>, now: nat)
    | ReadKey(key: Bytes, now: nat)
    | CrashIn(id: nat, writes: seq<LogRecord>, n: nat, now: nat)
    | Restart(now: nat)
    | BeginMerge(now: nat)
    | ReadMergeClock(now: nat)
    | ScanRecord
    | EndMerge
    | CrashInEnd(now: nat)

  /** When a step can be taken. The clock does not go back, batches are what Batch builds, a clean
      close waits for a running merge (db.go:193-195), and each opening is safe. */
  ghost predicate Enabled(s: Store, a: Action) {
    match a
    case CommitBatch(id, writes, now) => BatchOK(s, id, writes) && now >= s.clock
    case ReadKey(_, now) => now >= s.clock
    case CrashIn(id, writes, n, now) =>
      && BatchOK(s, id, writes) && n <= |writes| + 1 && now >= s.clock
      && Safe(AtCrash(s, id, writes, n, now), now)
    case Restart(now) => now >= s.clock && !s.merge.Scanning? && Safe(s, now)
    case BeginMerge(now) => now >= s.clock
    case ReadMergeClock(now) => s.merge.Scanning? && s.merge.todo == Flat(Source(s)) && now >= s.clock
    case ScanRecord => s.merge.Scanning? && s.merge.todo != []
    case EndMerge => s.merge.Scanning? && s.merge.todo == []
    case CrashInEnd(now) => s.merge.Scanning? && s.merge.todo == [] && now >= s.clock && Safe(AbandonMerge(s), now)
  }

  // What a restart finds: a batch whose end record was written counts as committed.
  function AtCrash(s: Store, id: nat, writes: seq<LogRecord>, n: nat, now: nat): Store
    requires n <= |writes| + 1
  {
    if n == |writes| + 1 then CommitStep(s, id, writes, now) else TornWrite(s, id, writes, n)
  }

  function Apply(s: Store, a: Action): Store
    requires a.CrashIn? ==> a.n <= |a.writes| + 1
    requires a.ReadMergeClock? ==> s.merge.Scanning?
    requires a.ScanRecord? ==> s.merge.Scanning? && s.merge.todo != []
    requires a.EndMerge? ==> s.merge.Scanning? && s.merge.todo == []
  {
    match a
    case CommitBatch(id, writes, now) => CommitStep(s, id, writes, now)
    case ReadKey(key, now) => Touch(s, key, now)
    case CrashIn(id, writes, n, now) => Crash(s, id, writes, n, now)
    case Restart(now) => Reopen(s, now)
    case BeginMerge(now) => MergeStart(s, now)
    case ReadMergeClock(now) => MergeClock(s, now)
    case ScanRecord => MergeStep(s)
    case EndMerge => MergeFinish(s)
    case CrashInEnd(now) => Reopen(AbandonMerge(s), now)
  }

  /** The specification: a map from keys to values that only finished batches change. */
  function SpecStep(m: Contents, cap: nat, a: Action): Contents {
    match a
    case CommitBatch(id, writes, _) => if TooLarge(cap, id, writes) then m else Overlay(m, writes)
    case CrashIn(id, writes, n, _) => if n <= |writes| || TooLarge(cap, id, writes) then m else Overlay(m, writes)
    case _ => m
  }

  ghost predicate LegalRun(cap: nat, start: nat, actions: seq<Action>)
    decreases |actions|, 0
  {
    actions == [] || (LegalRun(cap, start, Init(actions)) && Enabled(Run(cap, start, Init(actions)), Last(actions)))
  }

  ghost function Run(cap: nat, start: nat, actions: seq<Action>): Store
    requires LegalRun(cap, start, actions)
    decreases |actions|, 1
  {
    if actions == [] then NewStore(cap, start) else Apply(Run(cap, start, Init(actions)), Last(actions))
  }

  function SpecRun(cap: nat, actions: seq<Action>): Contents {
    if actions == [] then map[] else SpecStep(SpecRun(cap, Init(actions)), cap, Last(actions))
  }

  // ---------- Refinement ----------

  ghost predicate Refines(s: Store, m: Contents) {
    Inv(s) && forall t: nat :: t >= s.clock ==> LiveAt(s.wal.Blocks(), t) == Live(m, t)
  }

  lemma StartOK(cap: nat, start: nat)
    ensures Refines(NewStore(cap, start), map[])
  {
    hide Spaced, Recover, Replay, IndexOK, HintsStandFor, Live;
    var s := NewStore(cap, start);
    assert s.wal.Blocks() == [] by { assert Cat(s.wal.segs, 1, 0) == []; }
    EmptyStart(s);
  }

  lemma EmptyStart(s: Store)
    requires s == NewStore(s.wal.cap, s.clock) && s.wal.Blocks() == []
    ensures Spaced(Flat(s.wal.Blocks())) && IndexOK(s.index, Newest(s.wal.Blocks()), s.clock)
    ensures HintsStandFor(HintMap(s.hint), MergedPart(s), ReplayedPart(s), s.clock)
  {
    hide Damaged;
  }

  lemma CommitRefines(s: Store, m: Contents, id: nat, writes: seq<LogRecord>, now: nat)
    requires Refines(s, m) && BatchOK(s, id, writes) && now >= s.clock
    ensures Refines(CommitStep(s, id, writes, now), if TooLarge(s.wal.cap, id, writes) then m else Overlay(m, writes))
  {
    hide Inv, Newest, Meaning, Live;
    CommitOK(s, id, writes, now);
    forall t: nat | t >= CommitStep(s, id, writes, now).clock
      ensures LiveAt(CommitStep(s, id, writes, now).wal.Blocks(), t)
           == Live(if TooLarge(s.wal.cap, id, writes) then m else Overlay(m, writes), t)
    {
      assert LiveAt(s.wal.Blocks(), t) == Live(m, t);
      OverlayLive(Meaning(Newest(s.wal.Blocks())), m, writes, t);
    }
  }

  lemma ReopenRefines(s: Store, m: Contents, now: nat)
    requires Refines(s, m) && now >= s.clock && Safe(s, now)
    ensures Refines(Reopen(s, now), m)
  {
    hide Inv, LiveAt, Live, Safe;
    SafeExact(s, now);
    forall t: nat | t >= now ensures LiveAt(Reopen(s, now).wal.Blocks(), t) == Live(m, t) {
      assert LiveAt(s.wal.Blocks(), t) == Live(m, t);
    }
  }

  /** A crash in the middle of a commit: after the restart the batch has happened entirely, if its end
      record reached the log, or not at all. */
  lemma CrashRefines(s: Store, m: Contents, id: nat, writes: seq<LogRecord>, n: nat, now: nat)
    requires Refines(s, m) && Enabled(s, CrashIn(id, writes, n, now))
    ensures Refines(Crash(s, id, writes, n, now), SpecStep(m, s.wal.cap, CrashIn(id, writes, n, now)))
  {
    hide Inv, Safe, Reopen, Overlay;
    if n == |writes| + 1 {
      CommitRefines(s, m, id, writes, now);
      CompleteWrite(s, id, writes, now, now);
      var m' := if TooLarge(s.wal.cap, id, writes) then m else Overlay(m, writes);
      ReopenRefines(CommitStep(s, id, writes, now), m', now);
    } else {
      TornOK(s, id, writes, n);
      ReopenRefines(TornWrite(s, id, writes, n), m, now);
    }
  }

  // A step that leaves the blocks of the log alone leaves the contents alone.
  lemma SameLogRefines(s: Store, s': Store, m: Contents)
    requires Refines(s, m) && Inv(s') && s'.wal.Blocks() == s.wal.Blocks() && s'.clock >= s.clock
    ensures Refines(s', m)
  {
    hide Inv, LiveAt, Live;
  }

  lemma TouchRefines(s: Store, m: Contents, key: Bytes, now: nat)
    requires Refines(s, m) && now >= s.clock
    ensures Refines(Touch(s, key, now), m)
  {
    hide Inv;
    TouchOK(s, key, now);
    hide Refines;
    SameLogRefines(s, Touch(s, key, now), m);
  }

  lemma MergeStartRefines(s: Store, m: Contents, now: nat)
    requires Refines(s, m) && now >= s.clock
    ensures Refines(MergeStart(s, now), m)
  {
    hide Inv;
    MergeStartOK(s, now);
    hide Refines;
    SameLogRefines(s, MergeStart(s, now), m);
  }

  lemma MergeClockRefines(s: Store, m: Contents, now: nat)
    requires Refines(s, m) && s.merge.Scanning? && s.merge.todo == Flat(Source(s)) && now >= s.clock
    ensures Refines(MergeClock(s, now), m)
  {
    hide Inv;
    MergeClockOK(s, now);
    hide Refines;
    SameLogRefines(s, MergeClock(s, now), m);
  }

  lemma MergeStepRefines(s: Store, m: Contents)
    requires Refines(s, m) && s.merge.Scanning? && s.merge.todo != []
    ensures Refines(MergeStep(s), m)
  {
    hide Inv;
    MergeStepOK(s);
    hide Refines;
    SameLogRefines(s, MergeStep(s), m);
  }

  lemma MergeFinishRefines(s: Store, m: Contents)
    requires Refines(s, m) && s.merge.Scanning? && s.merge.todo == []
    ensures Refines(MergeFinish(s), m)
  {
    hide Inv;
    MergeFinishOK(s);
    hide Refines;
    SameLogRefines(s, MergeFinish(s), m);
  }

  /** A crash while MERGEFIN is being written loses nothing but the merge. */
  lemma AbandonRefines(s: Store, m: Contents, now: nat)
    requires Refines(s, m) && now >= s.clock && Safe(AbandonMerge(s), now)
    ensures Refines(Reopen(AbandonMerge(s), now), m)
  {
    hide Inv, Refines, Safe, Reopen;
    assert Inv(s) by { RefinesInv(s, m); }
    AbandonOK(s);
    SameLogRefines(s, AbandonMerge(s), m);
    ReopenRefines(AbandonMerge(s), m, now);
  }

  lemma RefinesInv(s: Store, m: Contents)
    requires Refines(s, m)
    ensures Inv(s)
  {
  }

  lemma SameCap(s: Store, a: Action)
    requires Enabled(s, a)
    ensures Apply(s, a).wal.cap == s.wal.cap
  {
    hide Safe, BatchOK, LoadedIndex, Place, Splice, Flat, Cat, Total, ApplyOps;
  }

  lemma StepRefines(s: Store, m: Contents, a: Action)
    requires Refines(s, m) && Enabled(s, a)
    ensures Refines(Apply(s, a), SpecStep(m, s.wal.cap, a)) && Apply(s, a).wal.cap == s.wal.cap
  {
    hide Refines, Safe, BatchOK, CommitStep, Touch, Crash, Reopen, MergeStart, MergeClock, MergeStep,
      MergeFinish, Overlay;
    SameCap(s, a);
    match a {
      case CommitBatch(id, writes, now) => CommitRefines(s, m, id, writes, now);
      case ReadKey(key, now) => TouchRefines(s, m, key, now);
      case CrashIn(id, writes, n, now) => CrashRefines(s, m, id, writes, n, now);
      case Restart(now) => ReopenRefines(s, m, now);
      case BeginMerge(now) => MergeStartRefines(s, m, now);
      case ReadMergeClock(now) => MergeClockRefines(s, m, now);
      case ScanRecord => MergeStepRefines(s, m);
      case EndMerge => MergeFinishRefines(s, m);
      case CrashInEnd(now) => AbandonRefines(s, m, now);
    }
  }

  lemma {:induction false} RunRefines(cap: nat, start: nat, actions: seq<Action>)
    requires LegalRun(cap, start, actions)
    ensures Refines(Run(cap, start, actions), SpecRun(cap, actions)) && Run(cap, start, actions).wal.cap == cap
  {
    if actions == [] {
      StartOK(cap, start);
    } else {
      RunRefines(cap, start, Init(actions));
      hide Refines, Enabled, SpecStep;
      StepRefines(Run(cap, start, Init(actions)), SpecRun(cap, Init(actions)), Last(actions));
    }
  }

  /** The main result: after any run of commits, reads, crashes, restarts and merge steps, in any order,
      what can be read at any time from then on is what the plain map holds. */
  lemma EveryRunIsAMap(cap: nat, start: nat, actions: seq<Action>, t: nat)
    requires LegalRun(cap, start, actions) && t >= Run(cap, start, actions).clock
    ensures View(Run(cap, start, actions), t) == Live(SpecRun(cap, actions), t)
  {
    RunRefines(cap, start, actions);
    ViewIsLive(Run(cap, start, actions), t);
  }

  /** Runs can go on: after any of them, batches of distinct keys with a fresh id, reads, and the start of a
      merge are possible at any time from the clock on, and so is a restart that is safe. */
  lemma RunsGoOn(cap: nat, start: nat, actions: seq<Action>, id: nat, writes: seq<LogRecord>, k: Bytes, now: nat)
    requires LegalRun(cap, start, actions) && now >= Run(cap, start, actions).clock
    ensures var s := Run(cap, start, actions);
      && LegalRun(cap, start, actions + [ReadKey(k, now)]) && LegalRun(cap, start, actions + [BeginMerge(now)])
      && (Safe(s, now) && !s.merge.Scanning? ==> LegalRun(cap, start, actions + [Restart(now)]))
      && (id != 0 && (forall i :: 0 <= i < |s.wal.Blocks()| && s.wal.Blocks()[i].Torn? ==> s.wal.Blocks()[i].id != id)
          && (forall i :: 0 <= i < |writes| ==> writes[i].typ in {NORMAL, DELETED})
          && (forall i, j :: 0 <= i < j < |writes| ==> writes[i].key != writes[j].key) ==>
            LegalRun(cap, start, actions + [CommitBatch(id, writes, now)])
            && (Safe(s, now) ==> LegalRun(cap, start, actions + [CrashIn(id, writes, 0, now)])))
  {
    hide Run, Safe;
    var s := Run(cap, start, actions);
    Snoc(actions, ReadKey(k, now));
    Snoc(actions, BeginMerge(now));
    Snoc(actions, Restart(now));
    Snoc(actions, CommitBatch(id, writes, now));
    Snoc(actions, CrashIn(id, writes, 0, now));
    assert AtCrash(s, id, writes, 0, now) == s;
  }

  /** And exactly when an opening at the end of such a run, clean or after a crash in the middle of a merge,
      shows the plain map; here the guard of Enabled is not assumed. */
  lemma OpeningIsExact(cap: nat, start: nat, actions: seq<Action>, now: nat)
    requires LegalRun(cap, start, actions) && now >= Run(cap, start, actions).clock
    ensures var s, m := Run(cap, start, actions), SpecRun(cap, actions);
            Unnoticed(s, now) <==> forall t: nat :: t >= now ==> View(Reopen(s, now), t) == Live(m, t)
  {
    hide Run, LegalRun, SpecRun;
    RunRefines(cap, start, actions);
    OpenedExactly(Run(cap, start, actions), SpecRun(cap, actions), now);
  }

  /** The same after a crash in the middle of a commit, before its end record. */
  lemma CrashIsExact(cap: nat, start: nat, actions: seq<Action>, id: nat, writes: seq<LogRecord>, n: nat, now: nat)
    requires LegalRun(cap, start, actions) && now >= Run(cap, start, actions).clock
    requires BatchOK(Run(cap, start, actions), id, writes) && n <= |writes|
    ensures var s, m := Run(cap, start, actions), SpecRun(cap, actions);
            Unnoticed(TornWrite(s, id, writes, n), now) <==>
            forall t: nat :: t >= now ==> View(Crash(s, id, writes, n, now), t) == Live(m, t)
  {
    hide Run, LegalRun, SpecRun, BatchOK, TornWrite, Unnoticed, Refines, View, Reopen;
    RunRefines(cap, start, actions);
    TornRefines(Run(cap, start, actions), SpecRun(cap, actions), id, writes, n);
    OpenedExactly(TornWrite(Run(cap, start, actions), id, writes, n), SpecRun(cap, actions), now);
  }

  lemma TornRefines(s: Store, m: Contents, id: nat, writes: seq<LogRecord>, n: nat)
    requires Refines(s, m) && BatchOK(s, id, writes) && n <= |writes|
    ensures Refines(TornWrite(s, id, writes, n), m) && TornWrite(s, id, writes, n).clock == s.clock
  {
    hide Inv, BatchOK, Newest, Live, Place, Total, Cat;
    TornOK(s, id, writes, n);
  }

  lemma OpenedExactly(s: Store, m: Contents, now: nat)
    requires Refines(s, m) && now >= s.clock
    ensures Unnoticed(s, now) <==> forall t: nat :: t >= now ==> View(Reopen(s, now), t) == Live(m, t)
  {
    hide Inv, LiveAt, Live, Unnoticed, View, Reopen;
    ReopenExact(s, now);
    forall t: nat | t >= now ensures View(s, t) == Live(m, t) {
      ViewIsLive(s, t);
    }
  }

  /** In every reachable state, every index entry leads to a Normal record of its own key, the newest
      committed one; the panic of batch.go:211-213 cannot happen. */
  lemma EveryIndexEntryIsNewest(cap: nat, start: nat, actions: seq<Action>, k: Bytes)
    requires LegalRun(cap, start, actions) && k in Run(cap, start, actions).index
    ensures var s := Run(cap, start, actions);
            && k in Newest(s.wal.Blocks()) && s.index[k] == Newest(s.wal.Blocks())[k].pos
            && Read(Flat(s.wal.Blocks()), s.index[k]) == Some(Newest(s.wal.Blocks())[k].rec)
            && Newest(s.wal.Blocks())[k].rec.typ == NORMAL && Newest(s.wal.Blocks())[k].rec.key == k
  {
    RunRefines(cap, start, actions);
    var s := Run(cap, start, actions);
    IndexedRecord(s.index, s.wal.Blocks(), s.clock, k);
  }

  // ---------- Reachable states ----------

  ghost predicate Reachable(cap: nat, s: Store) {
    exists start, actions :: LegalRun(cap, start, actions) && Run(cap, start, actions) == s
  }

  lemma ReachStart(cap: nat, start: nat)
    ensures Reachable(cap, NewStore(cap, start))
  {
    assert LegalRun(cap, start, []) && Run(cap, start, []) == NewStore(cap, start);
  }

  lemma ReachStep(cap: nat, s: Store, a: Action)
    requires Reachable(cap, s) && Enabled(s, a)
    ensures Reachable(cap, Apply(s, a))
  {
    hide Apply, BatchOK, Safe, AtCrash, Flat, Source;
    var start, actions :| LegalRun(cap, start, actions) && Run(cap, start, actions) == s;
    Snoc(actions, a);
    assert LegalRun(cap, start, actions + [a]) && Run(cap, start, actions + [a]) == Apply(s, a);
  }

  lemma ReachableOK(cap: nat, s: Store)
    requires Reachable(cap, s)
    ensures Inv(s) && s.wal.cap == cap
  {
    hide Inv;
    var start, actions :| LegalRun(cap, start, actions) && Run(cap, start, actions) == s;
    RunRefines(cap, start, actions);
  }
}
