/** The order of keys, and the ordered-map contract of the B-tree behind the index. */
module Keys {
  import opened Record
  import opened Log

  /** bytes.Compare(a, b) < 0. */
  predicate Less(a: Bytes, b: Bytes) {
    b != [] && (a == [] || a[0] < b[0] || (a[0] == b[0] && Less(a[1..], b[1..])))
  }

  // The first byte that differs is less.
  ghost predicate LessAt(a: Bytes, b: Bytes, i: nat) {
    i < |a| && i < |b| && a[..i] == b[..i] && a[i] < b[i]
  }

  lemma LessAtNext(a: Bytes, b: Bytes, i: nat)
    requires a != [] && b != [] && a[0] == b[0]
    ensures LessAt(a, b, i + 1) <==> LessAt(a[1..], b[1..], i)
    ensures !LessAt(a, b, 0)
  {
    if i < |a[1..]| && i < |b[1..]| {
      assert a[..i + 1] == [a[0]] + a[1..][..i] && b[..i + 1] == [b[0]] + b[1..][..i];
      assert a[1..][..i] == a[..i + 1][1..] && b[1..][..i] == b[..i + 1][1..];
    }
  }

  lemma LessAtFirst(a: Bytes, b: Bytes, i: nat)
    ensures LessAt(a, b, i) && i > 0 ==> a[0] == b[0]
    ensures LessAt(a, b, 0) <==> a != [] && b != [] && a[0] < b[0]
  {
    if i > 0 && LessAt(a, b, i) {
      assert a[..i][0] == b[..i][0];
    }
  }

  lemma PrefixNext(a: Bytes, b: Bytes)
    requires a != [] && b != [] && a[0] == b[0]
    ensures (a <= b && a != b) <==> (a[1..] <= b[1..] && a[1..] != b[1..])
  {
    assert a == [a[0]] + a[1..] && b == [b[0]] + b[1..];
  }

  /** The order is that of bytes.Compare: a proper prefix is less, and otherwise the first byte that differs
      decides. */
  lemma {:induction false} LessIs(a: Bytes, b: Bytes)
    ensures Less(a, b) <==> (a <= b && a != b) || exists i: nat :: LessAt(a, b, i)
    ensures forall i: nat :: LessAt(a, b, i) <==> i < |a| && i < |b| && a[..i] == b[..i] && a[i] < b[i]
  {
    if a != [] && b != [] && a[0] == b[0] {
      LessIs(a[1..], b[1..]);
      hide LessAt;
      PrefixNext(a, b);
      LessAtNext(a, b, 0);
      if i: nat :| LessAt(a[1..], b[1..], i) {
        LessAtNext(a, b, i);
      }
      if i: nat :| LessAt(a, b, i) {
        LessAtNext(a, b, i - 1);
      }
    } else {
      forall i: nat ensures LessAt(a, b, i) ==> i == 0 {
        LessAtFirst(a, b, i);
      }
      LessAtFirst(a, b, 0);
    }
  }

  lemma {:induction false} LessTotal(a: Bytes, b: Bytes)
    ensures Less(a, b) || Less(b, a) || a == b
    ensures !(Less(a, b) && Less(b, a))
    ensures !Less(a, a)
  {
    if a != [] {
      LessTotal(a[1..], a[1..]);
      if b != [] {
        LessTotal(a[1..], b[1..]);
        if a[0] == b[0] && a[1..] == b[1..] {
          assert a == [a[0]] + a[1..] == [b[0]] + b[1..] == b;
        }
      }
    }
  }

  lemma {:induction false} LessTransitive(a: Bytes, b: Bytes, c: Bytes)
    requires Less(a, b) && Less(b, c)
    ensures Less(a, c)
  {
    if a != [] && b != [] && c != [] && a[0] == b[0] == c[0] {
      LessTransitive(a[1..], b[1..], c[1..]);
    }
  }

  predicate Ascending(ks: seq<Bytes>) {
    forall i, j :: 0 <= i < j < |ks| ==> Less(ks[i], ks[j])
  }

  lemma AscendingDistinct(ks: seq<Bytes>)
    requires Ascending(ks)
    ensures forall i, j :: 0 <= i < j < |ks| ==> ks[i] != ks[j]
  {
    forall i, j | 0 <= i < j < |ks| ensures ks[i] != ks[j] {
      LessTotal(ks[i], ks[j]);
    }
  }

  predicate Least(k: Bytes, keys: set<Bytes>) {
    k in keys && forall j :: j in keys ==> j == k || Less(k, j)
  }

  lemma {:induction false} LeastExists(keys: set<Bytes>) returns (k: Bytes)
    requires keys != {}
    ensures Least(k, keys)
    decreases |keys|
  {
    var x :| x in keys;
    if keys == {x} {
      return x;
    }
    var rest := keys - {x};
    assert rest != {};
    var y := LeastExists(rest);
    LessTotal(x, y);
    k := if Less(x, y) then x else y;
    forall j | j in keys ensures j == k || Less(k, j) {
      if j != x {
        assert j in rest;
        if Less(x, y) && j != y { LessTransitive(x, y, j); }
      }
    }
  }

  lemma LeastUnique(k: Bytes, k': Bytes, keys: set<Bytes>)
    requires Least(k, keys) && Least(k', keys)
    ensures k == k'
  {
    LessTotal(k, k');
  }

  lemma SomeLeast(keys: set<Bytes>)
    requires keys != {}
    ensures exists k :: Least(k, keys)
    ensures forall k, k' :: Least(k, keys) && Least(k', keys) ==> k == k'
  {
    var k := LeastExists(keys);
    forall k, k' | Least(k, keys) && Least(k', keys) ensures k == k' {
      LeastUnique(k, k', keys);
    }
  }

  /** The keys of the tree, as Ascend visits them. */
  function InOrder(keys: set<Bytes>): (ks: seq<Bytes>)
    ensures Ascending(ks) && (forall k :: k in ks <==> k in keys)
    decreases |keys|
  {
    if keys == {} then [] else
    SomeLeast(keys);
    var k :| k in keys && Least(k, keys);
    var rest := InOrder(keys - {k});
    LeastFirst(k, rest);
    [k] + rest
  }

  lemma LeastFirst(k: Bytes, ks: seq<Bytes>)
    requires Ascending(ks) && forall j :: j in ks ==> Less(k, j)
    ensures Ascending([k] + ks)
  {
    var s := [k] + ks;
    forall i, j | 0 <= i < j < |s| ensures Less(s[i], s[j]) {
      assert s[j] == ks[j - 1] && s[j] in ks;
      if i > 0 {
        assert s[i] == ks[i - 1];
      }
    }
  }

  // ---------- Traversal order ----------

  /** An element of the tree. */
  datatype Item = Item(key: Bytes, pos: Pos)

  function Items(index: Index, ks: seq<Bytes>): (items: seq<Item>)
    requires forall k :: k in ks ==> k in index
    ensures |items| == |ks| && forall i :: 0 <= i < |ks| ==> items[i] == Item(ks[i], index[ks[i]])
  {
    seq(|ks|, i requires 0 <= i < |ks| => assert ks[i] in ks; Item(ks[i], index[ks[i]]))
  }

  function Reversed<T>(s: seq<T>): (r: seq<T>)
    ensures |r| == |s| && forall i :: 0 <= i < |s| ==> r[i] == s[|s| - 1 - i]
  {
    seq(|s|, i requires 0 <= i < |s| => s[|s| - 1 - i])
  }

  /** All elements in the direction of a traversal. */
  function Walk(index: Index, reverse: bool): seq<Item> {
    var up := Items(index, InOrder(index.Keys));
    if reverse then Reversed(up) else up
  }

  predicate Before(a: Bytes, b: Bytes, reverse: bool) {
    if reverse then Less(b, a) else Less(a, b)
  }

  ghost predicate Ordered(items: seq<Item>, reverse: bool) {
    forall i, j :: 0 <= i < j < |items| ==> Before(items[i].key, items[j].key, reverse)
  }

  /** AscendGreaterOrEqual and DescendLessOrEqual: the elements from `key` on. */
  function From(items: seq<Item>, key: Bytes, reverse: bool): seq<Item> {
    if items == [] || !Before(items[0].key, key, reverse) then items else From(items[1..], key, reverse)
  }

  /** Each entry of the index once, in strict order. */
  ghost predicate Visits(w: seq<Item>, index: Index, reverse: bool) {
    && Ordered(w, reverse)
    && (forall i :: 0 <= i < |w| ==> w[i].key in index && w[i].pos == index[w[i].key])
    && (forall k :: k in index ==> exists i :: 0 <= i < |w| && w[i].key == k)
  }

  lemma ReversedVisits(up: seq<Item>, index: Index)
    requires Visits(up, index, false)
    ensures Visits(Reversed(up), index, true)
  {
    var w := Reversed(up);
    hide Reversed, Less;
    forall i, j | 0 <= i < j < |w| ensures Before(w[i].key, w[j].key, true) {
      assert Before(up[|w| - 1 - j].key, up[|w| - 1 - i].key, false);
    }
    forall k | k in index ensures exists i :: 0 <= i < |w| && w[i].key == k {
      var i :| 0 <= i < |up| && up[i].key == k;
      assert w[|up| - 1 - i] == up[i];
    }
  }

  lemma ItemsVisit(index: Index, ks: seq<Bytes>)
    requires Ascending(ks) && forall k :: k in ks <==> k in index
    ensures Visits(Items(index, ks), index, false)
  {
    hide Items, Less;
    assert forall i :: 0 <= i < |ks| ==> ks[i] in ks;
    var w := Items(index, ks);
    forall k | k in index ensures exists i :: 0 <= i < |w| && w[i].key == k {
      var i :| 0 <= i < |ks| && ks[i] == k;
      assert w[i].key == k;
    }
  }

  lemma WalkVisits(index: Index, reverse: bool)
    ensures Visits(Walk(index, reverse), index, reverse)
  {
    hide Visits, InOrder, Items, Reversed;
    ItemsVisit(index, InOrder(index.Keys));
    ReversedVisits(Items(index, InOrder(index.Keys)), index);
  }

  lemma WalkOK(index: Index, reverse: bool)
    ensures var w := Walk(index, reverse);
            && Ordered(w, reverse)
            && (forall i, j :: 0 <= i < j < |w| ==>
                  if reverse then Less(w[j].key, w[i].key) else Less(w[i].key, w[j].key))
            && (forall i :: 0 <= i < |w| ==> w[i].key in index && w[i].pos == index[w[i].key])
            && (forall k :: k in index ==> exists i :: 0 <= i < |w| && w[i].key == k)
  {
    hide Walk, Less;
    WalkVisits(index, reverse);
  }

  /** `From` cuts the walk at the first element that does not lie before `key`. */
  lemma {:induction false} FromCuts(items: seq<Item>, key: Bytes, reverse: bool) returns (n: nat)
    requires Ordered(items, reverse)
    ensures n <= |items| && From(items, key, reverse) == items[n..]
    ensures forall i :: 0 <= i < |items| ==> (Before(items[i].key, key, reverse) <==> i < n)
    ensures forall i :: 0 <= i < |items| ==>
      ((if reverse then Less(key, items[i].key) else Less(items[i].key, key)) <==> i < n)
  {
    if items == [] || !Before(items[0].key, key, reverse) {
      n := 0;
      forall i | 0 <= i < |items| ensures !Before(items[i].key, key, reverse) {
        if 0 < i && Before(items[i].key, key, reverse) {
          BeforeTransitive(items[0].key, items[i].key, key, reverse);
        }
      }
    } else {
      var m := FromCuts(items[1..], key, reverse);
      n := m + 1;
      forall i | 0 <= i < |items| ensures Before(items[i].key, key, reverse) <==> i < n {
        if i > 0 {
          assert items[i] == items[1..][i - 1];
        }
      }
    }
  }

  lemma BeforeTransitive(a: Bytes, b: Bytes, c: Bytes, reverse: bool)
    requires Before(a, b, reverse) && Before(b, c, reverse)
    ensures Before(a, c, reverse)
  {
    if reverse {
      LessTransitive(c, b, a);
    } else {
      LessTransitive(a, b, c);
    }
  }
}
