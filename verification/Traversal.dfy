/** Iterators: the index iterator over a snapshot of the tree, the database iterator that filters it,
    and what a traversal yields. */
module Traversal {
  import opened Record
  import opened Log
  import opened Visibility
  import opened Store
  import opened Keys
  import opened Engine

  // ---------- The index iterator ----------

  /** memoryBTreeIterator; `tree` is None once the iterator is closed. */
  class TreeIterator {
    const reverse: bool
    var tree: Option<Index>
    var current: Option<Item>
    var valid: bool
    ghost var at: nat

    ghost function All(): seq<Item>
      reads this
    {
      if tree.Some? then Walk(tree.value, reverse) else []
    }

    /** The current element is the one at `at` in the walk. */
    ghost predicate Valid()
      reads this
    {
      at <= |All()| && (valid ==> at < |All()| && current == Some(All()[at]))
    }

    /** The current element and all behind it; nothing once the iterator is exhausted. */
    ghost function Rest(): seq<Item>
      reads this
      requires Valid()
    {
      if valid then All()[at..] else []
    }

    constructor (index: Index, reverse: bool)
      ensures Valid() && tree == Some(index) && this.reverse == reverse && Rest() == Walk(index, reverse)
    {
      this.tree, this.reverse, at := Some(index), reverse, 0;
      var w := Walk(index, reverse);
      valid, current := w != [], if w == [] then None else Some(w[0]);
    }

    lemma CurrentIs()
      requires Valid()
      ensures if valid then Rest() != [] && current == Some(Rest()[0]) else Rest() == []
    {
    }

    method Rewind()
      requires Valid()
      modifies this
      ensures Valid() && tree == old(tree)
      ensures Rest() == All()
    {
      hide Walk;
      if tree.None? {
        return;
      }
      var w := Walk(tree.value, reverse);
      if w != [] {
        current, valid, at := Some(w[0]), true, 0;
      }
    }

    static method FirstFrom(tree: Index, reverse: bool, key: Bytes) returns (first: Option<Item>, ghost n: nat)
      ensures n <= |Walk(tree, reverse)| && From(Walk(tree, reverse), key, reverse) == Walk(tree, reverse)[n..]
      ensures first == if n < |Walk(tree, reverse)| then Some(Walk(tree, reverse)[n]) else None
    {
      hide Walk, From, Before, Ordered;
      WalkOK(tree, reverse);
      n := FromCuts(Walk(tree, reverse), key, reverse);
      var visited := From(Walk(tree, reverse), key, reverse);
      first := if visited == [] then None else Some(visited[0]);
    }

    /** Moves to the first element that does not lie before `key`; an exhausted iterator stays where it is. */
    method Seek(key: Bytes)
      requires Valid()
      modifies this
      ensures Valid() && tree == old(tree)
      ensures Rest() == if old(valid) then From(All(), key, reverse) else []
    {
      hide Walk, From;
      if tree.None? || !valid {
        return;
      }
      var first;
      first, at := FirstFrom(tree.value, reverse, key);
      valid, current := first.Some?, if first.Some? then first else current;
    }

    /** The callback of Next: it lets the tree go on until an element lies behind `key`. */
    static method FirstBehind(visited: seq<Item>, key: Bytes, reverse: bool) returns (next: Option<Item>)
      ensures IsFirstBehind(visited, key, reverse, next)
    {
      var i := 0;
      while i < |visited|
        invariant 0 <= i <= |visited|
        invariant forall j :: 0 <= j < i ==> !Before(key, visited[j].key, reverse)
      {
        if Before(key, visited[i].key, reverse) {
          return Some(visited[i]);
        }
        i := i + 1;
      }
      next := None;
    }

    static method Successor(tree: Index, reverse: bool, key: Bytes, ghost at: nat) returns (next: Option<Item>)
      requires at < |Walk(tree, reverse)| && Walk(tree, reverse)[at].key == key
      ensures next == if at + 1 < |Walk(tree, reverse)| then Some(Walk(tree, reverse)[at + 1]) else None
    {
      hide Walk, From, Before, Ordered;
      hide IsFirstBehind;
      ghost var all := Walk(tree, reverse);
      WalkOK(tree, reverse);
      CurrentFirst(all, at, reverse);
      var visited := From(Walk(tree, reverse), key, reverse);
      TwoAhead(all, at);
      next := FirstBehind(visited, key, reverse);
      SecondIsFirst(visited, key, reverse, next);
    }

    /** Moves to the next element, which the tree visits right after the current one. */
    method Next()
      requires Valid()
      modifies this
      ensures Valid() && tree == old(tree)
      ensures Rest() == if old(Rest()) == [] then [] else old(Rest())[1..]
    {
      hide Walk;
      if tree.None? || !valid {
        return;
      }
      current := Successor(tree.value, reverse, current.value.key, at);
      valid, at := current.Some?, at + 1;
    }

    method Close()
      requires Valid()
      modifies this
      ensures Valid() && tree == None && Rest() == []
    {
      tree, current, valid := None, None, false;
      at := 0;
    }
  }

  /** The first of the visited elements that lies behind `key`, if there is one. */
  ghost predicate IsFirstBehind(visited: seq<Item>, key: Bytes, reverse: bool, next: Option<Item>) {
    match next
    case None => forall i :: 0 <= i < |visited| ==> !Before(key, visited[i].key, reverse)
    case Some(x) =>
      exists i :: 0 <= i < |visited| && visited[i] == x && Before(key, visited[i].key, reverse)
                  && forall j :: 0 <= j < i ==> !Before(key, visited[j].key, reverse)
  }

  lemma SecondIsFirst(visited: seq<Item>, key: Bytes, reverse: bool, next: Option<Item>)
    requires IsFirstBehind(visited, key, reverse, next) && visited != [] && !Before(key, visited[0].key, reverse)
    requires |visited| > 1 ==> Before(key, visited[1].key, reverse)
    ensures next == if |visited| > 1 then Some(visited[1]) else None
  {
    hide Before;
  }

  lemma TwoAhead<T>(s: seq<T>, at: nat)
    requires at < |s|
    ensures s[at..][0] == s[at] && |s[at..]| == |s| - at && (at + 1 < |s| ==> s[at..][1] == s[at + 1])
  {
  }

  // The tree visits the current element first, and then the ones behind it.
  lemma CurrentFirst(items: seq<Item>, at: nat, reverse: bool)
    requires Ordered(items, reverse) && at < |items|
    ensures From(items, items[at].key, reverse) == items[at..]
    ensures !Before(items[at].key, items[at].key, reverse)
    ensures at + 1 < |items| ==> Before(items[at].key, items[at + 1].key, reverse)
  {
    var key := items[at].key;
    LessTotal(key, key);
    var n := FromCuts(items, key, reverse);
    assert n <= at;
    assert !Before(items[n].key, key, reverse);
  }

  // ---------- The database iterator ----------

  /** What an iterator hands out. */
  datatype Found = Found(key: Bytes, value: Bytes)

  predicate HasPrefix(key: Bytes, prefix: Bytes) {
    |prefix| <= |key| && key[..|prefix|] == prefix
  }

  datatype Look = Skip | Unreadable | Take(found: Found)

  /** What skipToNext makes of one element when the clock shows `now`. */
  function Examine(files: Files, prefix: Bytes, x: Item, now: nat): Look {
    if !HasPrefix(x.key, prefix) then Skip else
    match files.ReadAt(x.pos)
    case None => Unreadable
    case Some(r) => if r.typ == DELETED || r.IsExpired(now) then Skip else Take(Found(r.key, r.value))
  }

  /** The clock: the reading that is taken when the record of a key is examined. */
  type Clock = Bytes -> nat

  /** Everything that a traversal of `rest` hands out. */
  function Yields(rest: seq<Item>, files: Files, prefix: Bytes, continueOnError: bool, clock: Clock): seq<Found> {
    if rest == [] then [] else
    match Examine(files, prefix, rest[0], clock(rest[0].key))
    case Skip => Yields(rest[1..], files, prefix, continueOnError, clock)
    case Unreadable => if continueOnError then Yields(rest[1..], files, prefix, continueOnError, clock) else []
    case Take(found) => [found] + Yields(rest[1..], files, prefix, continueOnError, clock)
  }

  lemma YieldsNone(files: Files, prefix: Bytes, go: bool, clock: Clock)
    ensures Yields([], files, prefix, go, clock) == []
  {
  }

  lemma YieldsNext(items: seq<Item>, n: nat, files: Files, prefix: Bytes, go: bool, clock: Clock)
    requires n < |items|
    ensures var look := Examine(files, prefix, items[n], clock(items[n].key));
            var rest := Yields(items[n + 1..], files, prefix, go, clock);
            Yields(items[n..], files, prefix, go, clock)
            == if look.Take? then [look.found] + rest else if look.Unreadable? && !go then [] else rest
    ensures items[n..][1..] == items[n + 1..]
  {
    hide Examine;
    assert items[n..][1..] == items[n + 1..];
  }

  /** One of the first `n` elements has a record that cannot be read. */
  ghost predicate FailsIn(files: Files, prefix: Bytes, clock: Clock, items: seq<Item>, n: nat)
    requires n <= |items|
  {
    exists i :: 0 <= i < n && Examine(files, prefix, items[i], clock(items[i].key)) == Unreadable
  }

  lemma NoneFails(files: Files, prefix: Bytes, clock: Clock, items: seq<Item>)
    ensures !FailsIn(files, prefix, clock, items, 0)
  {
  }

  lemma FailsNext(files: Files, prefix: Bytes, clock: Clock, items: seq<Item>, n: nat)
    requires n < |items|
    ensures FailsIn(files, prefix, clock, items, n + 1) <==>
            FailsIn(files, prefix, clock, items, n) || Examine(files, prefix, items[n], clock(items[n].key)) == Unreadable
    ensures Examine(files, prefix, items[n], clock(items[n].key)) == Unreadable ==>
            FailsIn(files, prefix, clock, items, |items|)
  {
    hide Examine;
  }

  /** Iterator of iterator.go; `open` is false once its two pointers have been cleared. */
  class Iterator {
    const db: DB
    const indexIter: TreeIterator
    const prefix: Bytes
    const continueOnError: bool
    var open: bool
    var failed: bool
    var currentItem: Option<Found>

    /** While the iterator is open, there is an item exactly if the index iterator is at an element. */
    ghost predicate Valid()
      reads this, indexIter
    {
      indexIter.Valid() && (open ==> (indexIter.valid <==> currentItem.Some?))
    }

    /** The current item and all that are still to come. */
    ghost function Remaining(clock: Clock): seq<Found>
      reads this, indexIter, db
      requires Valid()
    {
      if open && currentItem.Some?
      then [currentItem.value] + Yields(indexIter.Rest()[1..], db.disk.files, prefix, continueOnError, clock)
      else []
    }

    ghost function Promised(items: seq<Item>, clock: Clock): seq<Found>
      reads this, db
    {
      Yields(items, db.disk.files, prefix, continueOnError, clock)
    }

    constructor (db: DB, reverse: bool, prefix: Bytes, continueOnError: bool, clock: Clock)
      ensures this.db == db && indexIter.reverse == reverse
      ensures this.prefix == prefix && this.continueOnError == continueOnError
      ensures fresh(indexIter) && (open ==> indexIter.tree == Some(db.index))
      ensures Valid() && Remaining(clock) == Yields(Walk(db.index, reverse), db.disk.files, prefix, continueOnError, clock)
    {
      this.db, this.prefix, this.continueOnError := db, prefix, continueOnError;
      indexIter := new TreeIterator(db.index, reverse);
      open, failed, currentItem := true, false, None;
      new;
      SkipToNext(clock);
    }

    lemma NothingRemains(clock: Clock)
      requires Valid()
      ensures !IsValid() ==> Remaining(clock) == []
    {
    }

    predicate IsValid()
      reads this, indexIter
    {
      open && indexIter.valid
    }

    function Item(): Option<Found>
      reads this
    {
      currentItem
    }

    /** Moves on to the first element that is to be handed out. */
    method SkipToNext(clock: Clock)
      requires indexIter.Valid() && open
      modifies this`open, this`failed, this`currentItem, indexIter
      ensures Valid() && Remaining(clock) == old(Promised(indexIter.Rest(), clock))
      ensures open ==> indexIter.tree == old(indexIter.tree)
      ensures var rest := old(indexIter.Rest());
        && |indexIter.Rest()| <= |rest|
        && (failed <==> old(failed) || FailsIn(db.disk.files, prefix, clock, rest, |rest| - |indexIter.Rest()|))
      ensures open || (failed && !continueOnError)
    {
      hide Examine, Walk, FailsIn, Yields, TreeIterator.Valid, TreeIterator.Rest, TreeIterator.All;
      var files := db.disk.files;
      ghost var rest, n := indexIter.Rest(), 0;
      NoneFails(files, prefix, clock, rest);
      YieldsNone(files, prefix, continueOnError, clock);
      indexIter.CurrentIs();
      currentItem := None;
      while indexIter.valid
        invariant indexIter.Valid() && open && currentItem == None && indexIter.tree == old(indexIter.tree)
        invariant n <= |rest| && indexIter.Rest() == rest[n..] && (!indexIter.valid ==> n == |rest|)
        invariant indexIter.valid ==> n < |rest| && indexIter.current == Some(rest[n])
        invariant Yields(rest[n..], files, prefix, continueOnError, clock) == old(Promised(indexIter.Rest(), clock))
        invariant failed <==> old(failed) || FailsIn(files, prefix, clock, rest, n)
        decreases |rest| - n
      {
        var x := indexIter.current.value;
        FailsNext(files, prefix, clock, rest, n);
        YieldsNext(rest, n, files, prefix, continueOnError, clock);
        match Examine(files, prefix, x, clock(x.key)) {
          case Skip =>
          case Unreadable =>
            failed := true;
            if !continueOnError {
              Close();
              return;
            }
          case Take(found) =>
            currentItem := Some(found);
            return;
        }
        indexIter.Next();
        indexIter.CurrentIs();
        n := n + 1;
      }
    }

    method Rewind(clock: Clock)
      requires Valid()
      modifies this`open, this`failed, this`currentItem, indexIter
      ensures Valid() && (open ==> indexIter.tree == old(indexIter.tree))
      ensures Remaining(clock) == if old(open) then old(Promised(indexIter.All(), clock)) else []
    {
      if open {
        indexIter.Rewind();
        SkipToNext(clock);
      }
    }

    /** What lies before `key` is skipped; an exhausted iterator stays exhausted. */
    method Seek(key: Bytes, clock: Clock)
      requires Valid()
      modifies this`open, this`failed, this`currentItem, indexIter
      ensures Valid() && (open ==> indexIter.tree == old(indexIter.tree))
      ensures Remaining(clock)
           == if old(IsValid()) then old(Promised(From(indexIter.All(), key, indexIter.reverse), clock)) else []
    {
      if open {
        indexIter.Seek(key);
        SkipToNext(clock);
      }
    }

    method Next(clock: Clock)
      requires Valid()
      modifies this`open, this`failed, this`currentItem, indexIter
      ensures Valid() && (open ==> indexIter.tree == old(indexIter.tree))
      ensures Remaining(clock) == if old(Remaining(clock)) == [] then [] else old(Remaining(clock))[1..]
    {
      if open {
        indexIter.Next();
        SkipToNext(clock);
      }
    }

    // Take the item, and move on.
    method ItemAndNext(clock: Clock) returns (item: Found)
      requires Valid() && IsValid()
      modifies this`open, this`failed, this`currentItem, indexIter
      ensures Valid() && [item] + Remaining(clock) == old(Remaining(clock))
    {
      hide Yields, Walk;
      item := Item().value;
      Next(clock);
    }

    method Close()
      requires indexIter.Valid()
      modifies this`open, indexIter
      ensures indexIter.Valid() && !open && (old(open) ==> indexIter.Rest() == [])
    {
      if open {
        indexIter.Close();
        open := false;
      }
    }
  }

  /** The documented loop: rewind, then take the item and move on while the iterator is valid. */
  method Traverse(it: Iterator, clock: Clock) returns (items: seq<Found>)
    requires it.Valid()
    modifies it`open, it`failed, it`currentItem, it.indexIter
    ensures it.Valid() && !it.IsValid()
    ensures items == if old(it.open) then old(it.Promised(it.indexIter.All(), clock)) else []
  {
    hide Iterator.Valid, Iterator.Remaining, Iterator.Promised;
    items := [];
    it.Rewind(clock);
    ghost var promised := it.Remaining(clock);
    it.NothingRemains(clock);
    while it.IsValid()
      invariant it.Valid() && items + it.Remaining(clock) == promised
      invariant !it.IsValid() ==> it.Remaining(clock) == []
      decreases |it.Remaining(clock)|
    {
      var item := it.ItemAndNext(clock);
      it.NothingRemains(clock);
      Regroup(items, item, it.Remaining(clock));
      items := items + [item];
    }
    Regroup(items, Found([], []), []);
  }

  lemma Regroup<T>(a: seq<T>, x: T, rest: seq<T>)
    ensures a + ([x] + rest) == (a + [x]) + rest
    ensures a + [] == a
  {
  }

  // ---------- What a traversal yields ----------

  // One element of the walk, in terms of the visible contents.
  lemma ExamineIs(s: Store, prefix: Bytes, x: Item, now: nat)
    requires Inv(s) && now >= s.clock && x.key in s.index && x.pos == s.index[x.key]
    ensures Examine(FilesOf(s.wal), prefix, x, now)
         == if HasPrefix(x.key, prefix) && x.key in View(s, now) then Take(Found(x.key, View(s, now)[x.key].value)) else Skip
  {
    hide Inv, View, Read, FilesOf;
    FetchedRecord(s, x.key, now);
    FilesOfAll(s.wal);
  }

  // The same without a store: every element is either taken with its value in `want`, or skipped.
  ghost predicate Asked(items: seq<Item>, files: Files, prefix: Bytes, clock: Clock, want: map<Bytes, Bytes>) {
    forall i :: 0 <= i < |items| ==> Examine(files, prefix, items[i], clock(items[i].key)) == AskedFor(want, items[i].key)
  }

  function AskedFor(want: map<Bytes, Bytes>, k: Bytes): Look {
    if k in want then Take(Found(k, want[k])) else Skip
  }

  lemma {:induction false} YieldIsWanted(items: seq<Item>, files: Files, prefix: Bytes, go: bool, clock: Clock,
                                         want: map<Bytes, Bytes>, y: Found) returns (i: nat)
    requires Asked(items, files, prefix, clock, want) && y in Yields(items, files, prefix, go, clock)
    ensures i < |items| && items[i].key == y.key && y.key in want && y.value == want[y.key]
  {
    hide Examine;
    assert Examine(files, prefix, items[0], clock(items[0].key)) == AskedFor(want, items[0].key);
    if items[0].key in want && y == Found(items[0].key, want[items[0].key]) {
      i := 0;
    } else {
      var j := YieldIsWanted(items[1..], files, prefix, go, clock, want, y);
      i := j + 1;
    }
  }

  lemma {:induction false} WantedIsYielded(items: seq<Item>, files: Files, prefix: Bytes, go: bool, clock: Clock,
                                           want: map<Bytes, Bytes>, i: nat)
    requires Asked(items, files, prefix, clock, want) && i < |items| && items[i].key in want
    ensures Found(items[i].key, want[items[i].key]) in Yields(items, files, prefix, go, clock)
  {
    hide Examine;
    assert Examine(files, prefix, items[0], clock(items[0].key)) == AskedFor(want, items[0].key);
    if i == 0 {
      assert Yields(items, files, prefix, go, clock)[0] == Found(items[0].key, want[items[0].key]);
    } else {
      WantedIsYielded(items[1..], files, prefix, go, clock, want, i - 1);
    }
  }

  lemma {:induction false} YieldsOrdered(items: seq<Item>, reverse: bool, files: Files, prefix: Bytes, go: bool,
                                         clock: Clock, want: map<Bytes, Bytes>)
    requires Asked(items, files, prefix, clock, want) && Ordered(items, reverse)
    ensures Sorted(Yields(items, files, prefix, go, clock), reverse)
  {
    hide Examine, Before;
    if items != [] {
      assert Examine(files, prefix, items[0], clock(items[0].key)) == AskedFor(want, items[0].key);
      YieldsOrdered(items[1..], reverse, files, prefix, go, clock, want);
      var rest := Yields(items[1..], files, prefix, go, clock);
      forall y | y in rest ensures Before(items[0].key, y.key, reverse) {
        var i := YieldIsWanted(items[1..], files, prefix, go, clock, want, y);
        assert items[1..][i] == items[i + 1];
      }
    }
  }

  /** Strictly ascending or descending keys, so no key comes twice. */
  ghost predicate Sorted(ys: seq<Found>, reverse: bool) {
    forall i, j :: 0 <= i < j < |ys| ==> Before(ys[i].key, ys[j].key, reverse)
  }

  /** The value of each key that is visible when its record is examined and that has the prefix. */
  ghost function WantedOf(s: Store, prefix: Bytes, clock: Clock): map<Bytes, Bytes> {
    map k | k in s.index && HasPrefix(k, prefix) && k in View(s, clock(k)) :: View(s, clock(k))[k].value
  }

  lemma WalkAsked(s: Store, reverse: bool, prefix: Bytes, clock: Clock)
    requires Inv(s) && forall k :: clock(k) >= s.clock
    ensures Asked(Walk(s.index, reverse), FilesOf(s.wal), prefix, clock, WantedOf(s, prefix, clock))
  {
    WalkOK(s.index, reverse);
    var items, want := Walk(s.index, reverse), WantedOf(s, prefix, clock);
    hide Inv, FilesOf, Walk, Ordered, View, Examine;
    forall i | 0 <= i < |items|
      ensures Examine(FilesOf(s.wal), prefix, items[i], clock(items[i].key)) == AskedFor(want, items[i].key)
    {
      ExamineIs(s, prefix, items[i], clock(items[i].key));
    }
  }

  lemma PrefixIs(key: Bytes, prefix: Bytes)
    ensures HasPrefix(key, prefix) <==> prefix <= key
  {
  }

  /** A whole traversal, from Rewind until the iterator is not valid, yields each visible key with the
      prefix exactly once, in strict order, with its value; and nothing else. */
  lemma TraversalExact(s: Store, reverse: bool, prefix: Bytes, go: bool, clock: Clock)
    requires Inv(s) && forall k :: clock(k) >= s.clock
    ensures var ys := Yields(Walk(s.index, reverse), FilesOf(s.wal), prefix, go, clock);
            && (forall i, j :: 0 <= i < j < |ys| ==>
                  if reverse then Less(ys[j].key, ys[i].key) else Less(ys[i].key, ys[j].key))
            && (forall y :: y in ys <==> prefix <= y.key && y.key in View(s, clock(y.key))
                                         && y.value == View(s, clock(y.key))[y.key].value)
  {
    var items, files, want := Walk(s.index, reverse), FilesOf(s.wal), WantedOf(s, prefix, clock);
    WalkAsked(s, reverse, prefix, clock);
    WalkOK(s.index, reverse);
    var ys := Yields(items, files, prefix, go, clock);
    forall y ensures y in ys <==> prefix <= y.key && y.key in View(s, clock(y.key))
                                  && y.value == View(s, clock(y.key))[y.key].value {
      assert y.key in View(s, clock(y.key)) ==> y.key in s.index;
      PrefixIs(y.key, prefix);
      hide Inv, FilesOf, Walk, Ordered, View, Yields, Asked, HasPrefix;
      if y in ys {
        var i := YieldIsWanted(items, files, prefix, go, clock, want, y);
      }
      if y.key in want && y.value == want[y.key] {
        var i :| 0 <= i < |items| && items[i].key == y.key;
        WantedIsYielded(items, files, prefix, go, clock, want, i);
      }
    }
    YieldsOrdered(items, reverse, files, prefix, go, clock, want);
  }

  /** The first record that cannot be read ends the traversal, unless errors are passed over. */
  lemma {:induction false} ErrorEnds(items: seq<Item>, files: Files, prefix: Bytes, clock: Clock, n: nat)
    requires n < |items| && prefix <= items[n].key && files.ReadAt(items[n].pos).None?
    requires forall i :: 0 <= i < n ==> prefix <= items[i].key ==> files.ReadAt(items[i].pos).Some?
    ensures Yields(items, files, prefix, false, clock) == Yields(items[..n], files, prefix, false, clock)
    ensures Yields(items, files, prefix, true, clock)
         == Yields(items[..n], files, prefix, true, clock) + Yields(items[n + 1..], files, prefix, true, clock)
  {
    hide Files.ReadAt;
    if n > 0 {
      assert items[1..][n - 1] == items[n] && items[1..][..n - 1] == items[..n][1..];
      assert items[1..][n - 1 + 1..] == items[n + 1..];
      forall i | 0 <= i < n - 1 && prefix <= items[1..][i].key ensures files.ReadAt(items[1..][i].pos).Some? {
        assert items[1..][i] == items[i + 1];
      }
      ErrorEnds(items[1..], files, prefix, clock, n - 1);
    }
  }
}
