/** The watch queue: a ring of event slots that forgets the oldest events. */
module Watching {
  import opened Record
  import opened Seqs

  datatype WatchAction = Put | Delete

  datatype Event = Event(action: WatchAction, key: Bytes, value: Bytes, batchId: nat)

  // ---------- The ring ----------

  function Next(i: nat, capacity: nat): (n: nat)
    requires i < capacity
    ensures n == if i + 1 == capacity then 0 else i + 1
  {
    (i + 1) % capacity
  }

  /** `i` slots after `front`. */
  function Slot(front: nat, i: nat, capacity: nat): nat {
    if front + i < capacity then front + i else front + i - capacity
  }

  function Count(front: nat, back: nat, capacity: nat): nat
    requires front < capacity
  {
    if front <= back then back - front else back + capacity - front
  }

  ghost predicate RingOK(slots: seq<Option<Event>>, front: nat, back: nat) {
    && front < |slots| && back < |slots|
    && forall i: nat :: i < Count(front, back, |slots|) ==> slots[Slot(front, i, |slots|)].Some?
  }

  /** The events between the read point and the write point, oldest first. */
  ghost function Ring(slots: seq<Option<Event>>, front: nat, back: nat): (r: seq<Event>)
    requires RingOK(slots, front, back)
    ensures |r| == Count(front, back, |slots|)
  {
    seq(Count(front, back, |slots|), i requires 0 <= i < Count(front, back, |slots|) => slots[Slot(front, i, |slots|)].value)
  }

  lemma RingPush(slots: seq<Option<Event>>, front: nat, back: nat, e: Event)
    requires RingOK(slots, front, back)
    ensures var slots', back' := slots[back := Some(e)], Next(back, |slots|);
            if |slots| == 1 then RingOK(slots', front, back') && Ring(slots', front, back') == []
            else |Ring(slots, front, back)| < |slots| - 1 ==>
              RingOK(slots', front, back') && Ring(slots', front, back') == Ring(slots, front, back) + [e]
  {
    var slots', back' := slots[back := Some(e)], Next(back, |slots|);
    var n := Count(front, back, |slots|);
    if |slots| > 1 && n < |slots| - 1 {
      assert Count(front, back', |slots|) == n + 1;
      forall i: nat | i < n + 1 ensures slots'[Slot(front, i, |slots|)]
                                     == if i < n then slots[Slot(front, i, |slots|)] else Some(e) {
        assert Slot(front, i, |slots|) == back <==> i == n;
      }
      assert Ring(slots', front, back') == Ring(slots, front, back) + [e];
    }
  }

  lemma RingStep(slots: seq<Option<Event>>, front: nat, back: nat)
    requires RingOK(slots, front, back)
    ensures var front' := Next(front, |slots|);
            if |slots| == 1 then RingOK(slots, front', back) && Ring(slots, front', back) == []
            else Ring(slots, front, back) != [] ==>
              RingOK(slots, front', back) && Ring(slots, front', back) == Ring(slots, front, back)[1..]
    ensures Ring(slots, front, back) != [] ==> slots[front] == Some(Ring(slots, front, back)[0])
  {
    var front' := Next(front, |slots|);
    var n := Count(front, back, |slots|);
    if |slots| > 1 && n > 0 {
      assert Slot(front, 0, |slots|) == front;
      assert Count(front', back, |slots|) == n - 1;
      forall i: nat | i < n - 1 ensures Slot(front', i, |slots|) == Slot(front, i + 1, |slots|) {}
      assert Ring(slots, front', back) == Ring(slots, front, back)[1..];
    }
  }

  /** The last `limit` elements. */
  function Newest<T>(s: seq<T>, limit: nat): seq<T> {
    if |s| <= limit then s else s[|s| - limit..]
  }

  /** How many events a queue of `capacity` slots holds: putEvent never leaves it full, and a ring is
      full with one slot free. */
  function Limit(capacity: nat): nat {
    if capacity < 2 then 0 else capacity - 2
  }

  class EventQueue {
    const Capacity: nat
    const Events: array<Option<Event>>
    var Front: nat
    var Back: nat

    ghost predicate Valid()
      reads this, Events
    {
      Capacity >= 1 && Events.Length == Capacity && RingOK(Events[..], Front, Back)
    }

    /** The unread events. */
    ghost function Contents(): seq<Event>
      reads this, Events
      requires Valid()
    {
      Ring(Events[..], Front, Back)
    }

    constructor (capacity: nat)
      requires capacity >= 1
      ensures Valid() && Capacity == capacity && fresh(Events) && Contents() == []
    {
      Capacity, Front, Back := capacity, 0, 0;
      Events := new Option<Event>[capacity](_ => None);
    }

    method Push(e: Event)
      requires Valid() && (Capacity == 1 || |Contents()| < Capacity - 1)
      modifies this`Back, Events
      ensures Valid()
      ensures Contents() == if Capacity == 1 then [] else old(Contents()) + [e]
    {
      hide RingOK, Ring;
      RingPush(Events[..], Front, Back, e);
      Events[Back] := Some(e);
      assert Events[..] == old(Events[..])[Back := Some(e)];
      Back := Next(Back, Capacity);
    }

    method FrontTakeAStep()
      requires Valid() && (Capacity == 1 || Contents() != [])
      modifies this`Front
      ensures Valid() && Contents() == if Capacity == 1 then [] else old(Contents())[1..]
    {
      hide RingOK, Ring;
      RingStep(Events[..], Front, Back);
      Front := Next(Front, Capacity);
    }

    method Pop() returns (e: Event)
      requires Valid() && Contents() != []
      modifies this`Front
      ensures Valid() && [e] + Contents() == old(Contents())
    {
      hide RingOK, Ring;
      RingStep(Events[..], Front, Back);
      assert Capacity > 1;
      e := Events[Front].value;
      FrontTakeAStep();
    }

    predicate IsFull()
      reads this, Events
      requires Valid()
      ensures IsFull() <==> |Contents()| == Capacity - 1
    {
      Next(Back, Capacity) == Front
    }

    predicate IsEmpty()
      reads this, Events
      requires Valid()
      ensures IsEmpty() <==> Contents() == []
    {
      Back == Front
    }
  }

  class Watcher {
    const queue: EventQueue

    ghost predicate Valid()
      reads queue, queue.Events
    {
      queue.Valid() && |queue.Contents()| <= Limit(queue.Capacity)
    }

    constructor (capacity: nat)
      requires capacity >= 1
      ensures Valid() && queue.Capacity == capacity && fresh(queue) && fresh(queue.Events) && queue.Contents() == []
    {
      queue := new EventQueue(capacity);
    }

    /** putEvent: the queue holds the newest events, at most Capacity - 2 of them. */
    method PutEvent(e: Event)
      requires Valid()
      modifies queue, queue.Events
      ensures Valid()
      ensures queue.Contents() == Newest(old(queue.Contents()) + [e], Limit(queue.Capacity))
      ensures queue.Capacity >= 2 ==>
        var all, room := old(queue.Contents()) + [e], queue.Capacity - 2;
        queue.Contents() == if |all| <= room then all else all[|all| - room..]
    {
      hide RingOK, Ring, Count, Slot, Next;
      queue.Push(e);
      if queue.IsFull() {
        queue.FrontTakeAStep();
      }
    }

    /** getEvent: the oldest event that is left, or None. */
    method GetEvent() returns (e: Option<Event>)
      requires Valid()
      modifies queue
      ensures Valid()
      ensures e.None? ==> queue.Contents() == old(queue.Contents()) == []
      ensures e.Some? ==> [e.value] + queue.Contents() == old(queue.Contents())
    {
      if queue.IsEmpty() {
        return None;
      }
      var x := queue.Pop();
      e := Some(x);
    }
  }

  // ---------- Any run of puts and gets ----------

  datatype Op = PutOp(e: Event) | GetOp

  function Unread(ops: seq<Op>, limit: nat): seq<Event> {
    if ops == [] then [] else
    var before := Unread(Init(ops), limit);
    match Last(ops)
    case PutOp(e) => Newest(before + [e], limit)
    case GetOp => if before == [] then [] else before[1..]
  }

  function Popped(ops: seq<Op>, limit: nat): seq<Event> {
    if ops == [] then [] else
    var before := Unread(Init(ops), limit);
    if Last(ops).GetOp? && before != [] then Popped(Init(ops), limit) + [before[0]] else Popped(Init(ops), limit)
  }

  function Pushed(ops: seq<Op>): seq<Event> {
    if ops == [] then [] else
    match Last(ops)
    case PutOp(e) => Pushed(Init(ops)) + [e]
    case GetOp => Pushed(Init(ops))
  }

  /** `r` can be had from `p` by leaving elements out. */
  ghost predicate Subsequence<T>(r: seq<T>, p: seq<T>) {
    r == [] || (p != [] && ((Last(r) == Last(p) && Subsequence(Init(r), Init(p))) || Subsequence(r, Init(p))))
  }

  lemma {:induction false} SubsequenceLonger<T>(r: seq<T>, p: seq<T>, q: seq<T>)
    requires Subsequence(r, p)
    ensures Subsequence(r, p + q)
    decreases |q|
  {
    if q == [] {
      assert p + q == p;
    } else {
      InitAppend(p, q);
      SubsequenceLonger(r, p, Init(q));
    }
  }

  lemma SubsequenceBoth<T>(r: seq<T>, p: seq<T>, x: T)
    requires Subsequence(r, p)
    ensures Subsequence(r + [x], p + [x])
  {
    Snoc(r, x);
    Snoc(p, x);
  }

  /** The queue holds the newest events that were pushed, in order and never more than its limit; what was
      popped came out in the order it went in, and lies before everything still unread. */
  lemma {:induction false} DropOldest(ops: seq<Op>, limit: nat)
    ensures Remembers(Unread(ops, limit), Popped(ops, limit), Pushed(ops), limit)
  {
    if ops != [] {
      DropOldest(Init(ops), limit);
      var unread, popped, pushed := Unread(Init(ops), limit), Popped(Init(ops), limit), Pushed(Init(ops));
      hide Remembers, Newest;
      match Last(ops) {
        case PutOp(e) => RemembersPut(unread, popped, pushed, limit, e);
        case GetOp => if unread != [] { RemembersGet(unread, popped, pushed, limit); }
      }
    }
  }

  ghost predicate Remembers(unread: seq<Event>, popped: seq<Event>, pushed: seq<Event>, limit: nat) {
    && |unread| <= limit && |unread| <= |pushed|
    && unread == pushed[|pushed| - |unread|..]
    && Subsequence(popped, pushed[..|pushed| - |unread|])
  }

  lemma RemembersPut(unread: seq<Event>, popped: seq<Event>, pushed: seq<Event>, limit: nat, e: Event)
    requires Remembers(unread, popped, pushed, limit)
    ensures Remembers(Newest(unread + [e], limit), popped, pushed + [e], limit)
  {
    hide Subsequence;
    var gone, all := pushed[..|pushed| - |unread|], unread + [e];
    var n := |all| - |Newest(all, limit)|;
    assert pushed + [e] == gone + all;
    assert (gone + all)[..|gone| + n] == gone + all[..n];
    SubsequenceLonger(popped, gone, all[..n]);
  }

  lemma RemembersGet(unread: seq<Event>, popped: seq<Event>, pushed: seq<Event>, limit: nat)
    requires Remembers(unread, popped, pushed, limit) && unread != []
    ensures Remembers(unread[1..], popped + [unread[0]], pushed, limit)
  {
    hide Subsequence;
    var gone := pushed[..|pushed| - |unread|];
    assert pushed[..|pushed| - |unread| + 1] == gone + [unread[0]];
    SubsequenceBoth(popped, gone, unread[0]);
  }

  /** Every event was put while there was room for it. */
  ghost predicate KeepsUp(ops: seq<Op>, limit: nat) {
    ops == [] || (KeepsUp(Init(ops), limit) && (Last(ops).PutOp? ==> |Unread(Init(ops), limit)| < limit))
  }

  /** Events are lost exactly when the reader does not keep up. */
  lemma {:induction false} NothingLost(ops: seq<Op>, limit: nat)
    ensures |Popped(ops, limit)| + |Unread(ops, limit)| <= |Pushed(ops)|
    ensures KeepsUp(ops, limit) <==> Popped(ops, limit) + Unread(ops, limit) == Pushed(ops)
  {
    if ops != [] {
      NothingLost(Init(ops), limit);
      DropOldest(Init(ops), limit);
      var before, popped, history := Unread(Init(ops), limit), Popped(Init(ops), limit), Pushed(Init(ops));
      match Last(ops) {
        case PutOp(e) =>
          if |before| < limit {
            assert popped + (before + [e]) == (popped + before) + [e];
            if popped + (before + [e]) == history + [e] {
              Snoc(popped + before, e);
              Snoc(history, e);
            }
          } else {
            assert |Unread(ops, limit)| <= |before|;
          }
        case GetOp =>
          if before != [] {
            assert popped + [before[0]] + before[1..] == popped + before;
          }
      }
    }
  }

  /** A queue of one or two slots never delivers anything. */
  lemma {:induction false} TooSmall(ops: seq<Op>)
    ensures Popped(ops, Limit(1)) == Popped(ops, Limit(2)) == []
  {
    if ops != [] {
      TooSmall(Init(ops));
      DropOldest(Init(ops), 0);
    }
  }
}
