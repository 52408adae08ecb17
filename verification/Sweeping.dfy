/** DeleteExpiredKeys: the sweep over the index, a hundred keys a round. */
module Sweeping {
  import opened Record
  import opened Seqs
  import opened Log
  import opened Store
  import opened Hints
  import opened Recovering
  import opened Committing
  import opened Engine
  import opened Keys

  // The keys of one round (db.go:763).
  const ROUND: nat := 100

  /** The index, and the key that the sweep has come to (db.go:57); no key is empty, so an empty cursor
      stands for nil. */
  datatype Sweep = Sweep(index: Index, cursor: Bytes)

  /** What AscendGreaterOrEqual collects in one round. */
  function Batch(s: Sweep): seq<Item> {
    var ahead := From(Walk(s.index, false), s.cursor, false);
    if |ahead| > ROUND then ahead[..ROUND] else ahead
  }

  function Dropped(index: Index, items: seq<Item>, live: set<Bytes>): Index {
    index - (set x | x in items && x.key !in live :: x.key)
  }

  /** One round: expired entries of the batch go, and the cursor is left at its last key. */
  function Round(s: Sweep, live: set<Bytes>): Sweep
    requires Batch(s) != []
  {
    Sweep(Dropped(s.index, Batch(s), live), Last(Batch(s)).key)
  }

  function Rounds(s: Sweep, live: set<Bytes>, n: nat): Sweep
    decreases n
  {
    if n == 0 || Batch(s) == [] then s else Rounds(Round(s, live), live, n - 1)
  }

  lemma RoundIs(s: Sweep, live: set<Bytes>)
    requires Batch(s) != []
    ensures Round(s, live) == Sweep(Dropped(s.index, Batch(s), live), Last(Batch(s)).key)
  {
  }

  // ---------- One round ----------

  function Ahead(s: Sweep): set<Bytes> {
    set k | k in s.index && !Less(k, s.cursor)
  }

  // The batch is a piece of the walk.
  lemma BatchIsPiece(s: Sweep) returns (n: nat, m: nat)
    ensures var w := Walk(s.index, false);
            && n <= m <= |w| && Batch(s) == w[n..m] && m == (if |w| > n + ROUND then n + ROUND else |w|)
            && Ordered(w, false)
            && (forall i :: 0 <= i < |w| ==> w[i].key in s.index && w[i].pos == s.index[w[i].key])
            && (forall i :: 0 <= i < |w| ==> (w[i].key in Ahead(s) <==> n <= i))
            && (forall k :: k in s.index ==> exists i :: 0 <= i < |w| && w[i].key == k)
  {
    hide Walk, From, Less, Ordered;
    var w := Walk(s.index, false);
    WalkOK(s.index, false);
    n := FromCuts(w, s.cursor, false);
    m := if |w| > n + ROUND then n + ROUND else |w|;
    assert Batch(s) == w[n..m] by {
      hide Walk, From, Less, Ordered;
      assert w[n..m] == if |w[n..]| > ROUND then w[n..][..ROUND] else w[n..];
    }
    hide Batch;
    forall i | 0 <= i < |w| ensures w[i].key in Ahead(s) <==> n <= i {
      assert Before(w[i].key, s.cursor, false) <==> i < n;
    }
  }

  lemma BatchKeys(s: Sweep)
    ensures var b := Batch(s);
            && Ordered(b, false)
            && (forall i :: 0 <= i < |b| ==> b[i].key in Ahead(s) && b[i].pos == s.index[b[i].key])
  {
    var n, m := BatchIsPiece(s);
    hide Walk, From, Less, Ahead, Batch, Before;
    var w, b := Walk(s.index, false), Batch(s);
    forall i | 0 <= i < |b| ensures b[i].key in Ahead(s) && b[i].pos == s.index[b[i].key] {
      assert b[i] == w[n + i];
    }
  }

  // A key that the sweep has not passed is in the batch or behind it.
  lemma BatchCovers(s: Sweep, k: Bytes) returns (i: nat)
    requires k in Ahead(s)
    ensures Batch(s) != []
    ensures i < |Batch(s)| ==> Batch(s)[i].key == k
    ensures i >= |Batch(s)| ==> Less(Last(Batch(s)).key, k) && |Batch(s)| == ROUND
  {
    hide Walk, From, Less, Ahead, Batch, Ordered;
    var n, m := BatchIsPiece(s);
    var j := WalkIndex(s, k);
    i := j - n;
    PieceHas(Walk(s.index, false), n, m, j);
  }

  lemma WalkIndex(s: Sweep, k: Bytes) returns (j: nat)
    requires k in Ahead(s)
    ensures j < |Walk(s.index, false)| && Walk(s.index, false)[j].key == k
  {
    WalkOK(s.index, false);
    hide Walk, Less;
    j :| 0 <= j < |Walk(s.index, false)| && Walk(s.index, false)[j].key == k;
  }

  lemma PieceHas(w: seq<Item>, n: nat, m: nat, j: nat)
    requires n <= m <= |w| && n <= j < |w| && Ordered(w, false)
    ensures j < m ==> w[n..m][j - n] == w[j]
    ensures j >= m && n < m ==> Less(Last(w[n..m]).key, w[j].key)
  {
    if j >= m && n < m {
      assert Last(w[n..m]) == w[m - 1];
      OrderedAt(w, m - 1, j);
    }
  }

  lemma OrderedAt(items: seq<Item>, i: nat, j: nat)
    requires Ordered(items, false) && i < j < |items|
    ensures Less(items[i].key, items[j].key)
  {
  }

  // The keys of the index from one key to another, both included.
  ghost function Between(index: Index, first: Bytes, last: Bytes): set<Bytes> {
    set k | k in index && !Less(k, first) && !Less(last, k)
  }

  function KeysOf(items: seq<Item>): set<Bytes> {
    set x | x in items :: x.key
  }

  lemma {:induction false} KeysCount(items: seq<Item>)
    requires Ordered(items, false)
    ensures |KeysOf(items)| == |items|
  {
    hide Less;
    if items != [] {
      var rest, k := Init(items), Last(items).key;
      assert Ordered(rest, false);
      KeysCount(rest);
      LastIsNew(items);
      hide Ordered, KeysOf;
      KeysOfSnoc(items);
      assert k !in KeysOf(rest);
    }
  }

  lemma KeysOfSnoc(items: seq<Item>)
    requires items != []
    ensures KeysOf(items) == KeysOf(Init(items)) + {Last(items).key}
  {
    Unsnoc(items);
    assert Last(items) in items;
    forall x | x in Init(items) ensures x in items {}
  }

  lemma LastIsNew(items: seq<Item>)
    requires items != [] && Ordered(items, false)
    ensures Last(items).key !in KeysOf(Init(items))
  {
    hide Less;
    LessTotal(Last(items).key, Last(items).key);
    forall x | x in Init(items) ensures x.key != Last(items).key {
      var i :| 0 <= i < |Init(items)| && Init(items)[i] == x;
      OrderedAt(items, i, |items| - 1);
    }
  }

  lemma PassedKeys(s: Sweep, k: Bytes)
    requires Batch(s) != []
    ensures k in KeysOf(Batch(s)) <==> k in s.index && !Less(k, s.cursor) && !Less(Last(Batch(s)).key, k)
    ensures |Batch(s)| < ROUND && k in s.index && !Less(k, s.cursor) ==> k in KeysOf(Batch(s))
  {
    BatchKeys(s);
    var b, last := Batch(s), Last(Batch(s)).key;
    hide Batch, Walk, From, Less, Ordered;
    LessTotal(last, last);
    if k in KeysOf(b) {
      var i :| 0 <= i < |b| && b[i].key == k;
      if i < |b| - 1 {
        OrderedAt(b, i, |b| - 1);
        LessTotal(k, last);
      }
    }
    if k in s.index && !Less(k, s.cursor) {
      var i := BatchCovers(s, k);
      assert i < |b| ==> b[i] in b;
    }
  }

  /** A round, exactly: from the cursor on it passes a hundred keys, or all if there are fewer; of these the
      live ones stay in the index, all others go, and the cursor is left at the last one it has passed. No
      other entry changes. */
  lemma RoundExact(s: Sweep, live: set<Bytes>)
    requires Batch(s) != []
    ensures var r := Round(s, live);
            var passed := Between(s.index, s.cursor, r.cursor);
            && r.cursor in passed && |passed| <= 100
            && (|passed| == 100 || forall k :: k in s.index && !Less(k, s.cursor) ==> k in passed)
            && (forall k :: k in r.index <==> k in s.index && (k in passed ==> k in live))
            && (forall k :: k in r.index ==> r.index[k] == s.index[k])
  {
    hide Batch, Less, Ordered, Ahead, Dropped, KeysOf, Round;
    BatchKeys(s);
    KeysCount(Batch(s));
    BatchShort(s);
    RoundIs(s, live);
    var b, c := Batch(s), Last(Batch(s)).key;
    forall k
      ensures k in KeysOf(b) <==> k in s.index && !Less(k, s.cursor) && !Less(c, k)
      ensures |b| < ROUND && k in s.index && !Less(k, s.cursor) ==> k in KeysOf(b)
    {
      PassedKeys(s, k);
    }
    var r := Round(s, live);
    var passed := Between(s.index, s.cursor, r.cursor);
    assert r.cursor == c && passed == KeysOf(b);
    DroppedIs(s.index, b, live);
    KeysOfSnoc(b);
    assert r.cursor in passed && |passed| == |b| <= 100;
    assert |passed| == 100 || forall k :: k in s.index && !Less(k, s.cursor) ==> k in passed;
    assert forall k :: k in r.index <==> k in s.index && (k in passed ==> k in live);
  }

  lemma DroppedIs(index: Index, items: seq<Item>, live: set<Bytes>)
    ensures var d := Dropped(index, items, live);
            && (forall k :: k in d <==> k in index && (k in KeysOf(items) ==> k in live))
            && (forall k :: k in d ==> d[k] == index[k])
  {
  }

  lemma BatchShort(s: Sweep)
    ensures |Batch(s)| <= ROUND
  {
  }

  /** A sweep is over when no key is left from the cursor on. */
  lemma BatchEmpty(s: Sweep)
    ensures Batch(s) == [] <==> forall k :: k in s.index ==> Less(k, s.cursor)
  {
    BatchKeys(s);
    hide Batch, Less, Ordered;
    if k :| k in s.index && !Less(k, s.cursor) {
      var i := BatchCovers(s, k);
    }
    if Batch(s) != [] {
      assert Batch(s)[0].key in Ahead(s);
    }
  }

  // ---------- What every round keeps ----------

  /** From the start `s0` of a sweep: no live entry has been removed, nothing below the starting cursor
      has been touched, and everything between the two cursors is live. */
  ghost predicate SweptTo(s0: Sweep, s: Sweep, live: set<Bytes>) {
    forall k :: SweptAt(s0, s, live, k)
  }

  ghost predicate SweptAt(s0: Sweep, s: Sweep, live: set<Bytes>, k: Bytes) {
    && (k in s.index ==> k in s0.index && s.index[k] == s0.index[k])
    && (k in s0.index && (k in live || Less(k, s0.cursor)) ==> k in s.index)
    && (k in s.index && !Less(k, s0.cursor) && Less(k, s.cursor) ==> k in live)
    && (Less(k, s0.cursor) ==> Less(k, s.cursor))
  }

  lemma SweepStarts(s: Sweep, live: set<Bytes>)
    ensures SweptTo(s, s, live)
  {
  }

  lemma RoundKeeps(s0: Sweep, s: Sweep, live: set<Bytes>)
    requires SweptTo(s0, s, live) && Batch(s) != []
    ensures SweptTo(s0, Round(s, live), live)
  {
    var s' := Round(s, live);
    BatchKeys(s);
    assert !Less(s'.cursor, s.cursor) by { assert Last(Batch(s)).key in Ahead(s); }
    forall k ensures SweptAt(s0, s', live, k) {
      assert SweptAt(s0, s, live, k);
      InBatch(s, live, k);
      LessTotal(s'.cursor, s.cursor);
      if Less(k, s.cursor) && s'.cursor != s.cursor {
        LessTransitive(k, s.cursor, s'.cursor);
      }
    }
  }

  // What a round does to one key.
  lemma InBatch(s: Sweep, live: set<Bytes>, k: Bytes)
    requires Batch(s) != []
    ensures var s' := Round(s, live);
            && (k in s'.index ==> k in s.index && s'.index[k] == s.index[k])
            && (k in s.index && (k in live || Less(k, s.cursor)) ==> k in s'.index)
            && (k in s.index && !Less(k, s.cursor) && Less(k, s'.cursor) && k !in live ==> k !in s'.index)
            && (k == s'.cursor && k !in live ==> k !in s'.index)
            && (k in s.index && Less(s'.cursor, k) ==> k in s'.index)
  {
    BatchKeys(s);
    hide Batch;
    if k in Ahead(s) {
      var i := BatchCovers(s, k);
      LessTotal(k, Last(Batch(s)).key);
      if i < |Batch(s)| {
        assert Batch(s)[i] in Batch(s);
      }
    }
    assert Last(Batch(s)) in Batch(s);
    assert forall x :: x in Batch(s) ==> x.key in Ahead(s);
  }

  /** When nothing lies ahead, exactly the live entries and those below the starting cursor are left. */
  lemma SweptAll(s0: Sweep, s: Sweep, live: set<Bytes>, k: Bytes)
    requires SweptTo(s0, s, live) && Batch(s) == []
    ensures k in s.index <==> k in s0.index && (k in live || Less(k, s0.cursor))
    ensures k in s.index ==> s.index[k] == s0.index[k]
  {
    assert SweptAt(s0, s, live, k);
    if k in s.index && !Less(k, s.cursor) {
      var i := BatchCovers(s, k);
    }
  }

  // ---------- When a sweep ends ----------

  /** The greatest key of the index. */
  ghost predicate Greatest(index: Index, g: Bytes) {
    g in index && forall k :: k in index ==> k == g || Less(k, g)
  }

  /** The greatest key, if the sweep has not passed it, has expired. */
  ghost predicate TopDead(s: Sweep, live: set<Bytes>) {
    forall g :: Greatest(s.index, g) && !Less(g, s.cursor) ==> g !in live
  }

  // The number of keys ahead goes down with each round, and the condition stays true.
  lemma RoundShrinks(s: Sweep, live: set<Bytes>)
    requires Batch(s) != [] && TopDead(s, live)
    ensures Ahead(Round(s, live)) < Ahead(s) && TopDead(Round(s, live), live)
  {
    hide Batch, Round;
    var s', first, last := Round(s, live), Batch(s)[0].key, Last(Batch(s)).key;
    BatchKeys(s);
    assert s'.cursor == last by { RoundCursor(s, live); }
    forall k ensures k in Ahead(s') ==> k in Ahead(s) {
      InBatch(s, live, k);
      LessTotal(last, s.cursor);
      if Less(k, s.cursor) && last != s.cursor {
        LessTransitive(k, s.cursor, last);
      }
    }
    if |Batch(s)| > 1 {
      OrderedAt(Batch(s), 0, |Batch(s)| - 1);
      assert first !in Ahead(s');
    } else {
      OnlyKey(s, last);
      InBatch(s, live, last);
    }
    forall g | Greatest(s'.index, g) && !Less(g, last) ensures g !in live {
      TopStays(s, s', live, g);
    }
  }

  lemma RoundCursor(s: Sweep, live: set<Bytes>)
    requires Batch(s) != []
    ensures Round(s, live).cursor == Last(Batch(s)).key
  {
  }

  lemma OnlyKey(s: Sweep, k: Bytes)
    requires |Batch(s)| == 1 && k == Batch(s)[0].key
    ensures Greatest(s.index, k)
  {
    BatchKeys(s);
    hide Batch;
    forall j | j in s.index ensures j == k || Less(j, k) {
      if j in Ahead(s) {
        var i := BatchCovers(s, j);
      } else {
        LessTotal(k, s.cursor);
        if k != s.cursor { LessTransitive(j, s.cursor, k); }
      }
    }
  }

  lemma TopStays(s: Sweep, s': Sweep, live: set<Bytes>, g: Bytes)
    requires Batch(s) != [] && s' == Round(s, live) && TopDead(s, live)
    requires Greatest(s'.index, g) && !Less(g, s'.cursor)
    ensures g !in live
  {
    hide Batch, Round, Ordered;
    var last := Last(Batch(s)).key;
    BatchKeys(s);
    assert last in set x | x in Batch(s) :: x.key;
    RoundCursor(s, live);
    InBatch(s, live, g);
    LessTotal(last, s.cursor);
    if Less(g, s.cursor) && last != s.cursor {
      LessTransitive(g, s.cursor, last);
    }
    forall k | k in s.index ensures k == g || Less(k, g) {
      BelowTop(s, live, g, k);
    }
  }

  lemma BelowTop(s: Sweep, live: set<Bytes>, g: Bytes, k: Bytes)
    requires Batch(s) != [] && k in s.index
    requires Greatest(Round(s, live).index, g) && !Less(g, Round(s, live).cursor)
    ensures k == g || Less(k, g)
  {
    hide Batch, Round, Less, Ordered;
    var last := Last(Batch(s)).key;
    BatchKeys(s);
    RoundCursor(s, live);
    InBatch(s, live, k);
    LessTotal(last, g);
    if k !in Round(s, live).index {
      var i := BatchCovers(s, k);
      if i < |Batch(s)| - 1 {
        OrderedAt(Batch(s), i, |Batch(s)| - 1);
        if last != g { LessTransitive(k, last, g); }
      }
    }
  }

  lemma {:induction false} Terminates(s: Sweep, live: set<Bytes>) returns (n: nat)
    requires TopDead(s, live)
    ensures Batch(Rounds(s, live, n)) == []
    decreases |Ahead(s)|
  {
    hide Batch, Round, Ahead, TopDead;
    n := 0;
    if Batch(s) != [] {
      RoundShrinks(s, live);
      Smaller(Ahead(Round(s, live)), Ahead(s));
      n := Terminates(Round(s, live), live);
      n := n + 1;
    }
  }

  lemma Smaller<T>(a: set<T>, b: set<T>)
    requires a < b
    ensures |a| < |b|
  {
    assert b == a + (b - a);
    assert b - a != {};
  }

  // A live greatest key ahead is found again in every round.
  lemma StuckRound(s: Sweep, live: set<Bytes>, g: Bytes)
    requires Greatest(s.index, g) && !Less(g, s.cursor) && g in live
    ensures Batch(s) != [] && Greatest(Round(s, live).index, g) && !Less(g, Round(s, live).cursor)
  {
    hide Batch, Round, Less;
    BatchKeys(s);
    var i := BatchCovers(s, g);
    assert Last(Batch(s)).key in Ahead(s);
    RoundCursor(s, live);
    InBatch(s, live, g);
    LessTotal(g, Round(s, live).cursor);
    forall k | k in Round(s, live).index ensures k == g || Less(k, g) {
      InBatch(s, live, k);
    }
  }

  lemma RoundsStep(s: Sweep, live: set<Bytes>, n: nat)
    requires Batch(s) != []
    ensures Rounds(s, live, n) == if n == 0 then s else Rounds(Round(s, live), live, n - 1)
  {
    hide Batch, Round;
  }

  lemma {:induction false} Stuck(s: Sweep, live: set<Bytes>, g: Bytes, n: nat)
    requires Greatest(s.index, g) && !Less(g, s.cursor) && g in live
    ensures Batch(Rounds(s, live, n)) != []
    decreases n
  {
    hide Batch, Round, Rounds, Less, Greatest;
    StuckRound(s, live, g);
    RoundsStep(s, live, n);
    if n > 0 {
      Stuck(Round(s, live), live, g, n - 1);
    }
  }

  /** The sweep ends exactly if the greatest key of the index has been passed or has expired. Otherwise
      every round finds that key again, and the loop of db.go:758-789 goes on for ever. */
  lemma SweepEnds(s: Sweep, live: set<Bytes>)
    ensures (exists n :: Batch(Rounds(s, live, n)) == []) <==> TopDead(s, live)
  {
    if TopDead(s, live) {
      var n := Terminates(s, live);
    } else {
      var g :| Greatest(s.index, g) && !Less(g, s.cursor) && g in live;
      forall n ensures Batch(Rounds(s, live, n)) != [] {
        Stuck(s, live, g, n);
      }
    }
  }

  // ---------- The procedure ----------

  class Sweeper {
    const db: DB
    var expiredCursorKey: Bytes

    constructor (db: DB)
      ensures this.db == db && expiredCursorKey == []
    {
      this.db, expiredCursorKey := db, [];
    }

    ghost function State(): Sweep
      reads this, db
    {
      Sweep(db.index, expiredCursorKey)
    }

    static method DropIfExpired(disk: Disk, index: Index, pos: Pos, now: nat,
                                ghost key: Bytes, ghost s: Store, ghost live: set<Bytes>)
      returns (index': Index, recordKey: Bytes)
      requires Holds(disk, index, s) && Inv(s) && now >= s.clock && LiveKeys(s, now, live)
      requires key in index && index[key] == pos
      ensures Holds(disk, index', Touch(s, key, now)) && Inv(Touch(s, key, now)) && recordKey == key
      ensures index' == if key in live then index else index - {key}
    {
      hide Inv, Holds, View, Touch, Files.ReadAt;
      Fetching(disk, index, s, key, now);
      var record := disk.files.ReadAt(pos).value;
      index', recordKey := index, record.key;
      if record.IsExpired(now) {
        index' := index - {record.key};
      }
    }

    /** The second half of a round: read each record, and drop its key if it has expired. */
    static method DropExpired(disk: Disk, index: Index, positions: seq<Item>, now: nat,
                              ghost s: Store, ghost live: set<Bytes>)
      returns (index': Index, cursor: Bytes, ghost s': Store)
      requires Holds(disk, index, s) && Inv(s) && now >= s.clock && LiveKeys(s, now, live)
      requires positions != [] && Ordered(positions, false) && PointedAt(positions, index)
      ensures Holds(disk, index', s') && Inv(s') && now >= s'.clock && ViewsKept(s, s', now)
      ensures index' == Dropped(index, positions, live) && cursor == Last(positions).key
    {
      hide Inv, Holds, ViewsKept, Touch, Dropped, Ordered, PointedAt, LiveKeys, Progress, View;
      ProgressStarts(disk, index, positions, now, s, live);
      index', cursor, s' := index, [], s;
      var i := 0;
      while i < |positions|
        invariant 0 <= i <= |positions| && Progress(disk, index, positions, i, now, s, live, index', s')
        invariant i > 0 ==> cursor == positions[i - 1].key
      {
        ProgressPoints(disk, index, positions, i, now, s, live, index', s');
        ghost var before, s1 := index', s';
        index', cursor := DropIfExpired(disk, index', positions[i].pos, now, positions[i].key, s', live);
        s' := Touch(s', positions[i].key, now);
        ProgressStep(disk, index, positions, i, now, s, live, before, s1, index', s');
        i := i + 1;
      }
      ProgressEnds(disk, index, positions, now, s, live, index', s');
    }

    /** One round: collect the positions of up to a hundred keys from the cursor on, and drop what has
        expired; none means that the sweep is over. */
    static method SweepRound(disk: Disk, index: Index, cursor: Bytes, now: nat, ghost s: Store, ghost live: set<Bytes>)
      returns (done: bool, index': Index, cursor': Bytes, ghost s': Store)
      requires Holds(disk, index, s) && Inv(s) && now >= s.clock && LiveKeys(s, now, live)
      ensures Holds(disk, index', s') && Inv(s') && now >= s'.clock && ViewsKept(s, s', now)
      ensures done <==> Batch(Sweep(index, cursor)) == []
      ensures done ==> index' == index && cursor' == []
      ensures !done ==> Sweep(index', cursor') == Round(Sweep(index, cursor), live)
      ensures done <==> forall k :: k in index ==> Less(k, cursor)
      ensures !done ==>
        var passed := Between(index, cursor, cursor');
        && cursor' in passed && |passed| <= 100
        && (|passed| == 100 || forall k :: k in index && !Less(k, cursor) ==> k in passed)
        && (forall k :: k in index' <==> k in index && (k in passed ==> k in live))
    {
      hide Inv, Holds, View, ViewsKept, Batch, Ordered, Round, Less;
      BatchEmpty(Sweep(index, cursor));
      ViewsStart(s, now);
      var positions := Batch(Sweep(index, cursor));
      if positions == [] {
        return true, index, [], s;
      }
      BatchKeys(Sweep(index, cursor));
      RoundExact(Sweep(index, cursor), live);
      RoundIs(Sweep(index, cursor), live);
      done := false;
      index', cursor', s' := DropExpired(disk, index, positions, now, s, live);
    }

    /** The loop of db.go:758-789, or its first `rounds` rounds if it has not ended by then. */
    static method SweepAll(disk: Disk, index: Index, cursor: Bytes, now: nat, rounds: nat,
                           ghost s: Store, ghost live: set<Bytes>)
      returns (done: bool, index': Index, cursor': Bytes, ghost s': Store)
      requires Holds(disk, index, s) && Inv(s) && now >= s.clock && LiveKeys(s, now, live)
      ensures Holds(disk, index', s') && Inv(s') && now >= s'.clock && ViewsKept(s, s', now)
      ensures done ==> Left(Sweep(index, cursor), index', live) && cursor' == []
      ensures !done ==> Sweep(index', cursor') == Rounds(Sweep(index, cursor), live, rounds)
                        && SweptTo(Sweep(index, cursor), Sweep(index', cursor'), live)
      ensures done <==> exists n :: 0 <= n < rounds && Batch(Rounds(Sweep(index, cursor), live, n)) == []
    {
      ghost var start := Sweep(index, cursor);
      ViewsStart(s, now);
      SweepStarts(start, live);
      hide Inv, Holds, View, ViewsKept, Batch, Round, Rounds, SweptTo, Left, LiveKeys;
      done, index', cursor', s' := false, index, cursor, s;
      var n := 0;
      RoundsZero(start, live);
      while !done && n < rounds
        invariant n <= rounds
        invariant Holds(disk, index', s') && Inv(s') && now >= s'.clock && ViewsKept(s, s', now) && LiveKeys(s', now, live)
        invariant !done ==> Sweep(index', cursor') == Rounds(start, live, n) && SweptTo(start, Sweep(index', cursor'), live)
        invariant !done ==> forall i :: 0 <= i < n ==> Batch(Rounds(start, live, i)) != []
        invariant done ==> Left(start, index', live) && cursor' == []
        invariant done ==> exists i :: 0 <= i < rounds && Batch(Rounds(start, live, i)) == []
        decreases rounds - n, if done then 0 else 1
      {
        ghost var before, s1 := Sweep(index', cursor'), s';
        done, index', cursor', s' := SweepRound(disk, index', cursor', now, s1, live);
        KeptOn(s, s1, s', now, live);
        if done {
          SweptLeft(start, before, live);
        } else {
          RoundKeeps(start, before, live);
          RoundsNext(start, live, n);
          n := n + 1;
        }
      }
    }

    /** The sweep, for as many rounds as it is given. If it has ended, exactly the entries that have not
        expired are left from the cursor on; if not, it stands where that many rounds lead, and no live entry
        has been removed. What can be read does not change. It ends, given enough rounds, exactly under the
        condition of SweepEnds. */
    method DeleteExpiredKeys(now: nat, rounds: nat) returns (done: bool)
      requires db.Valid() && now >= db.st.clock
      modifies this, db`index, db`st
      ensures db.Valid() && ViewsKept(old(db.st), db.st, now)
      ensures done ==> Left(old(State()), db.index, old(View(db.st, now)).Keys) && expiredCursorKey == []
      ensures !done ==> State() == Rounds(old(State()), old(View(db.st, now)).Keys, rounds)
                        && SweptTo(old(State()), State(), old(View(db.st, now)).Keys)
      ensures done <==> exists n :: 0 <= n < rounds && Batch(Rounds(old(State()), old(View(db.st, now)).Keys, n)) == []
    {
      hide Inv, Holds, View, ViewsKept, Left, Rounds, Batch, SweptTo;
      var index, cursor;
      ghost var s';
      done, index, cursor, s' := SweepAll(db.disk, db.index, expiredCursorKey, now, rounds, db.st, View(db.st, now).Keys);
      db.index, db.st, expiredCursorKey := index, s', cursor;
    }
  }

  lemma RoundsZero(s: Sweep, live: set<Bytes>)
    ensures Rounds(s, live, 0) == s
  {
  }

  lemma {:induction false} RoundsNext(s: Sweep, live: set<Bytes>, n: nat)
    requires Batch(Rounds(s, live, n)) != []
    ensures Rounds(s, live, n + 1) == Round(Rounds(s, live, n), live)
    ensures forall i :: i == n ==> Batch(Rounds(s, live, i)) != []
    decreases n
  {
    hide Batch, Round;
    if n > 0 && Batch(s) != [] {
      RoundsNext(Round(s, live), live, n - 1);
    }
  }

  lemma KeptOn(s: Store, s1: Store, s2: Store, now: nat, live: set<Bytes>)
    requires ViewsKept(s, s1, now) && ViewsKept(s1, s2, now) && LiveKeys(s1, now, live)
    ensures ViewsKept(s, s2, now) && LiveKeys(s2, now, live)
  {
    ViewsGoOn(s, s1, s2, now);
  }

  ghost predicate PointedAt(items: seq<Item>, index: Index) {
    forall i :: 0 <= i < |items| ==> items[i].key in index && items[i].pos == index[items[i].key]
  }

  lemma NotDropped(index: Index, items: seq<Item>, i: nat, live: set<Bytes>)
    requires i < |items| && Ordered(items, false) && PointedAt(items, index)
    ensures items[i].key in Dropped(index, items[..i], live)
    ensures Dropped(index, items[..i], live)[items[i].key] == items[i].pos
    ensures Dropped(index, items[..i + 1], live)
         == if items[i].key in live then Dropped(index, items[..i], live)
            else Dropped(index, items[..i], live) - {items[i].key}
  {
    forall x | x in items[..i] ensures x.key != items[i].key {
      var j :| 0 <= j < i && items[j] == x;
      OrderedAt(items, j, i);
      LessTotal(x.key, x.key);
    }
    assert items[..i + 1] == items[..i] + [items[i]];
  }

  // After `i` positions.
  ghost predicate Progress(disk: Disk, index: Index, positions: seq<Item>, i: nat, now: nat, s: Store, live: set<Bytes>,
                           index': Index, s': Store)
  {
    && Holds(disk, index', s') && Inv(s') && now >= s'.clock && ViewsKept(s, s', now) && LiveKeys(s', now, live)
    && i <= |positions| && index' == Dropped(index, positions[..i], live)
  }

  lemma ProgressStarts(disk: Disk, index: Index, positions: seq<Item>, now: nat, s: Store, live: set<Bytes>)
    requires Holds(disk, index, s) && Inv(s) && now >= s.clock && LiveKeys(s, now, live)
    ensures Progress(disk, index, positions, 0, now, s, live, index, s)
  {
    hide Inv, Holds, View;
    ViewsStart(s, now);
    assert positions[..0] == [];
  }

  lemma ProgressPoints(disk: Disk, index: Index, positions: seq<Item>, i: nat, now: nat, s: Store, live: set<Bytes>,
                       index': Index, s': Store)
    requires Progress(disk, index, positions, i, now, s, live, index', s') && i < |positions|
    requires Ordered(positions, false) && PointedAt(positions, index)
    ensures Holds(disk, index', s') && Inv(s') && now >= s'.clock && LiveKeys(s', now, live)
    ensures positions[i].key in index' && index'[positions[i].key] == positions[i].pos
  {
    hide Inv, Holds, ViewsKept, Dropped, Ordered, PointedAt, LiveKeys;
    NotDropped(index, positions, i, live);
  }

  lemma ProgressStep(disk: Disk, index: Index, positions: seq<Item>, i: nat, now: nat, s: Store, live: set<Bytes>,
                     before: Index, s1: Store, index': Index, s': Store)
    requires Progress(disk, index, positions, i, now, s, live, before, s1) && i < |positions|
    requires Ordered(positions, false) && PointedAt(positions, index)
    requires s' == Touch(s1, positions[i].key, now) && Holds(disk, index', s') && Inv(s')
    requires index' == if positions[i].key in live then before else before - {positions[i].key}
    ensures Progress(disk, index, positions, i + 1, now, s, live, index', s')
  {
    hide Inv, Holds, ViewsKept, Dropped, Ordered, PointedAt, LiveKeys, Touch;
    NotDropped(index, positions, i, live);
    StepKeepsViews(s, s1, positions[i].key, now, live);
  }

  lemma ProgressEnds(disk: Disk, index: Index, positions: seq<Item>, now: nat, s: Store, live: set<Bytes>,
                     index': Index, s': Store)
    requires Progress(disk, index, positions, |positions|, now, s, live, index', s')
    ensures Holds(disk, index', s') && Inv(s') && now >= s'.clock && ViewsKept(s, s', now)
    ensures index' == Dropped(index, positions, live)
  {
    assert positions[..|positions|] == positions;
  }

  /** What a sweep that has ended leaves. */
  ghost predicate Left(s0: Sweep, index: Index, live: set<Bytes>) {
    && (forall k :: k in index <==> k in s0.index && (k in live || Less(k, s0.cursor)))
    && (forall k :: k in index ==> index[k] == s0.index[k])
  }

  lemma SweptLeft(s0: Sweep, s: Sweep, live: set<Bytes>)
    requires SweptTo(s0, s, live) && Batch(s) == []
    ensures Left(s0, s.index, live)
  {
    hide SweptTo, Batch, Less;
    forall k
      ensures k in s.index <==> k in s0.index && (k in live || Less(k, s0.cursor))
      ensures k in s.index ==> s.index[k] == s0.index[k]
    {
      SweptAll(s0, s, live, k);
    }
  }

  lemma ViewsStart(s: Store, now: nat)
    ensures ViewsKept(s, s, now)
  {
  }

  lemma ViewsGoOn(a: Store, b: Store, c: Store, now: nat)
    requires ViewsKept(a, b, now) && ViewsKept(b, c, now)
    ensures ViewsKept(a, c, now)
    ensures View(b, now) == View(a, now) && View(c, now) == View(a, now)
  {
    hide View;
    assert View(c, now) == View(b, now) == View(a, now);
  }

  /** The keys that can be read at `now`. */
  ghost predicate LiveKeys(s: Store, now: nat, live: set<Bytes>) {
    live == View(s, now).Keys
  }

  lemma StepKeepsViews(s0: Store, s: Store, key: Bytes, now: nat, live: set<Bytes>)
    requires Inv(s) && now >= s.clock && ViewsKept(s0, s, now) && LiveKeys(s, now, live)
    ensures ViewsKept(s0, Touch(s, key, now), now) && Touch(s, key, now).clock == now
    ensures LiveKeys(Touch(s, key, now), now, live)
  {
    TouchKeepsViews(s, key, now);
    ViewsGoOn(s0, s, Touch(s, key, now), now);
  }

  lemma TouchKeepsViews(s: Store, key: Bytes, now: nat)
    requires Inv(s) && now >= s.clock
    ensures ViewsKept(s, Touch(s, key, now), now) && Touch(s, key, now).clock == now
  {
    hide Inv, View, LiveAt;
    TouchOK(s, key, now);
    forall t: nat | t >= now ensures View(Touch(s, key, now), t) == View(s, t) {
      ViewIsLive(s, t);
      TouchClock(s, key, now);
      ViewIsLive(Touch(s, key, now), t);
    }
    TouchClock(s, key, now);
  }

  lemma TouchClock(s: Store, key: Bytes, now: nat)
    ensures Touch(s, key, now).clock == now
  {
  }
}
