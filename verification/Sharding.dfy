/** The consistent-hash ring of sharding/consistent_hash.go, for any hash function, collisions included. */
module Sharding {
  import opened Record
  import opened Seqs

  type Node = Bytes

  // ---------- Sorted positions ----------

  predicate Sorted(s: seq<nat>) {
    forall i, j :: 0 <= i < j < |s| ==> s[i] <= s[j]
  }

  /** sort.Ints, one element at a time. */
  function Insert(s: seq<nat>, x: nat): seq<nat> {
    if s == [] || Last(s) <= x then s + [x] else Insert(Init(s), x) + [Last(s)]
  }

  function SortInts(s: seq<nat>): seq<nat> {
    if s == [] then [] else Insert(SortInts(Init(s)), Last(s))
  }

  lemma SnocSorted(s: seq<nat>, x: nat)
    requires Sorted(s) && forall y :: y in s ==> y <= x
    ensures Sorted(s + [x])
  {
    forall i, j | 0 <= i < j < |s + [x]| ensures (s + [x])[i] <= (s + [x])[j] {
      assert s[i] in s;
    }
  }

  lemma {:induction false} InsertOK(s: seq<nat>, x: nat)
    requires Sorted(s)
    ensures Sorted(Insert(s, x)) && multiset(Insert(s, x)) == multiset(s) + multiset{x}
  {
    if s == [] || Last(s) <= x {
      forall y | y in s ensures y <= x {
        var i :| 0 <= i < |s| && s[i] == y;
      }
      SnocSorted(s, x);
    } else {
      InsertOK(Init(s), x);
      InsertInner(s, Insert(Init(s), x), x);
    }
  }

  lemma InsertInner(s: seq<nat>, r: seq<nat>, x: nat)
    requires s != [] && Sorted(s) && Last(s) > x
    requires Sorted(r) && multiset(r) == multiset(Init(s)) + multiset{x}
    ensures Sorted(r + [Last(s)]) && multiset(r + [Last(s)]) == multiset(s) + multiset{x}
  {
    Unsnoc(s);
    hide Sorted;
    forall y | y in r ensures y <= Last(s) {
      assert y in multiset(r);
      InsertedBelow(s, x, y);
    }
    SnocSorted(r, Last(s));
  }

  lemma InsertedBelow(s: seq<nat>, x: nat, y: nat)
    requires Sorted(s) && s != [] && Last(s) > x && y in multiset(Init(s)) + multiset{x}
    ensures y <= Last(s)
  {
    if y != x {
      var i :| 0 <= i < |Init(s)| && Init(s)[i] == y;
      assert s[i] == y;
    }
  }

  lemma {:induction false} SortOK(s: seq<nat>)
    ensures Sorted(SortInts(s)) && Bag(SortInts(s)) == Bag(s)
  {
    if s != [] {
      SortOK(Init(s));
      InsertOK(SortInts(Init(s)), Last(s));
      Unsnoc(s);
    }
  }

  // A sorted sequence is determined by its elements.
  lemma {:induction false} SortedUnique(a: seq<nat>, b: seq<nat>)
    requires Sorted(a) && Sorted(b) && multiset(a) == multiset(b)
    ensures a == b
  {
    assert |a| == |multiset(a)| == |multiset(b)| == |b|;
    if a != [] {
      LastIsGreatest(a, b);
      LastIsGreatest(b, a);
      WithoutLast(a);
      WithoutLast(b);
      hide Sorted;
      SortedUnique(Init(a), Init(b));
    }
  }

  lemma LastIsGreatest(a: seq<nat>, b: seq<nat>)
    requires Sorted(b) && a != [] && b != [] && multiset(a) == multiset(b)
    ensures Last(a) <= Last(b)
  {
    assert Last(a) in multiset(b);
    var i :| 0 <= i < |b| && b[i] == Last(a);
  }

  lemma WithoutLast(s: seq<nat>)
    requires Sorted(s) && s != []
    ensures s == Init(s) + [Last(s)] && Sorted(Init(s)) && multiset(Init(s)) == multiset(s) - multiset{Last(s)}
  {
    Unsnoc(s);
    assert multiset(s) == multiset(Init(s)) + multiset{Last(s)};
  }

  /** sort.SearchInts: the number of elements below `x`. */
  method SearchInts(s: seq<nat>, x: nat) returns (i: nat)
    requires Sorted(s)
    ensures i <= |s|
    ensures forall k :: 0 <= k < i ==> s[k] < x
    ensures forall k :: i <= k < |s| ==> x <= s[k]
  {
    i := 0;
    var j := |s|;
    while i < j
      invariant i <= j <= |s|
      invariant forall k :: 0 <= k < i ==> s[k] < x
      invariant forall k :: j <= k < |s| ==> x <= s[k]
    {
      var h := (i + j) / 2;
      if s[h] < x {
        i := h + 1;
      } else {
        j := h;
      }
    }
  }

  // ---------- Positions with their multiplicity ----------

  ghost function Bag(s: seq<nat>): multiset<nat> {
    multiset(s)
  }

  lemma BagSnoc(s: seq<nat>, x: nat)
    ensures Bag(s + [x]) == Bag(s) + multiset{x}
  {
  }

  lemma BagAssociative(a: multiset<nat>, b: multiset<nat>, c: multiset<nat>)
    ensures (a + b) + c == a + (b + c)
  {
  }

  lemma BagWithout(a: multiset<nat>, b: multiset<nat>, x: nat)
    ensures (a - b) - multiset{x} == a - (b + multiset{x})
  {
  }

  // ---------- Routing ----------

  /** The first position at or after `h`, going round at the end. */
  ghost predicate IsSuccessor(positions: set<nat>, h: nat, p: nat) {
    p in positions &&
    if exists q :: q in positions && q >= h
    then p >= h && forall q :: q in positions && q >= h ==> p <= q
    else forall q :: q in positions ==> p <= q
  }

  lemma SuccessorUnique(positions: set<nat>, h: nat, p: nat, p': nat)
    requires IsSuccessor(positions, h, p) && IsSuccessor(positions, h, p')
    ensures p == p'
  {
  }

  datatype Ring = Ring(keys: seq<nat>, hashMap: map<nat, Node>) {

    ghost function Positions(): set<nat> {
      set k | k in keys
    }

    /** Positions are sorted, and exactly they are mapped. */
    ghost predicate OK() {
      Sorted(keys) && Positions() == hashMap.Keys
    }

    /** The node at a position, or no node if the position is not mapped. */
    function At(p: nat): Node {
      if p in hashMap then hashMap[p] else []
    }
  }

  /** Where keys with hash `h` go: the node at the successor of `h`; no node if the ring is empty. */
  ghost predicate Routes(r: Ring, h: nat, node: Node) {
    if r.keys == [] then node == [] else exists p :: IsSuccessor(r.Positions(), h, p) && node == r.At(p)
  }

  lemma RoutesUnique(r: Ring, h: nat, a: Node, b: Node)
    requires Routes(r, h, a) && Routes(r, h, b)
    ensures a == b
  {
    if r.keys != [] {
      var p :| IsSuccessor(r.Positions(), h, p) && a == r.At(p);
      var q :| IsSuccessor(r.Positions(), h, q) && b == r.At(q);
      SuccessorUnique(r.Positions(), h, p, q);
    }
  }

  lemma {:induction false} SuccessorExists(positions: set<nat>, h: nat) returns (p: nat)
    requires positions != {}
    ensures IsSuccessor(positions, h, p)
    decreases |positions|
  {
    var x :| x in positions;
    var rest := positions - {x};
    if rest == {} {
      p := x;
      assert positions == {x};
    } else {
      var q := SuccessorExists(rest, h);
      if q >= h {
        p := if h <= x < q then x else q;
        assert p in positions && p >= h;
        forall y | y in positions && y >= h ensures p <= y {
          assert y == x || y in rest;
        }
      } else {
        p := if x >= h || x < q then x else q;
        assert p in positions;
        forall y | y in positions ensures y == x || (y < h && q <= y) {
          assert y == x || y in rest;
        }
      }
    }
  }

  lemma RouteExists(r: Ring, h: nat) returns (node: Node)
    ensures Routes(r, h, node)
  {
    if r.keys == [] {
      node := [];
    } else {
      assert r.keys[0] in r.Positions();
      var p := SuccessorExists(r.Positions(), h);
      node := r.At(p);
    }
  }

  lemma OnlyRoute(r: Ring, h: nat, a: Node, b: Node)
    requires Routes(r, h, a) && a != b
    ensures !Routes(r, h, b)
  {
    if Routes(r, h, b) {
      RoutesUnique(r, h, a, b);
    }
  }

  class ConsistentHashRing {
    const hashFunc: Bytes -> nat
    const replicas: nat
    var keys: seq<nat>
    var hashMap: map<nat, Node>

    ghost function State(): Ring
      reads this
    {
      Ring(keys, hashMap)
    }

    constructor (replicas: nat, fn: Bytes -> nat)
      ensures this.replicas == replicas && hashFunc == fn && State() == Ring([], map[]) && State().OK()
    {
      this.replicas, hashFunc := replicas, fn;
      keys, hashMap := [], map[];
    }

    /** The position of a virtual node. */
    function Position(i: nat, node: Node): nat {
      hashFunc(Decimal(i) + node)
    }

    function PositionsOf(node: Node): seq<nat> {
      seq(replicas, i requires 0 <= i < replicas => Position(i, node))
    }

    /** The virtual nodes of one node (consistent_hash.go:42-52). */
    method AddVirtualNodes(before: Ring, node: Node) returns (after: Ring)
      ensures Bag(after.keys) == Bag(before.keys) + Bag(PositionsOf(node))
      ensures after.hashMap == MapTo(before.hashMap, PositionsOf(node), node)
    {
      var k, m := before.keys, before.hashMap;
      ghost var ps := PositionsOf(node);
      var i := 0;
      while i < replicas
        invariant 0 <= i <= replicas
        invariant Bag(k) == Bag(before.keys) + Bag(ps[..i])
        invariant m == MapTo(before.hashMap, ps[..i], node)
      {
        var hash := Position(i, node);
        Snoc(ps[..i], hash);
        assert ps[..i + 1] == ps[..i] + [hash];
        BagSnoc(k, hash);
        BagSnoc(ps[..i], hash);
        k, m := k + [hash], m[hash := node];
        i := i + 1;
      }
      assert ps[..i] == ps;
      after := Ring(k, m);
    }

    /** A position is that of a virtual node: the hash of a number below `replicas` and the node's name. */
    ghost predicate VirtualAt(node: Node, p: nat) {
      exists i: nat :: i < replicas && p == hashFunc(Decimal(i) + node)
    }

    lemma PositionsAre(node: Node, p: nat)
      ensures p in PositionsOf(node) <==> VirtualAt(node, p)
    {
      if p in PositionsOf(node) {
        var i :| 0 <= i < replicas && PositionsOf(node)[i] == p;
        assert p == hashFunc(Decimal(i) + node);
      }
      if VirtualAt(node, p) {
        var i: nat :| i < replicas && p == hashFunc(Decimal(i) + node);
        assert PositionsOf(node)[i] == p;
      }
    }

    lemma OnAnyIs(nodes: seq<Node>, p: nat)
      ensures OnAny(PositionsOf, nodes, p) <==> exists n :: n in nodes && VirtualAt(n, p)
    {
      hide VirtualAt, PositionsOf;
      if OnAny(PositionsOf, nodes, p) {
        var j :| 0 <= j < |nodes| && p in PositionsOf(nodes[j]);
        PositionsAre(nodes[j], p);
      }
      if n :| n in nodes && VirtualAt(n, p) {
        PositionsAre(n, p);
        var j :| 0 <= j < |nodes| && nodes[j] == n;
        assert p in PositionsOf(nodes[j]);
      }
    }

    // What has been added, position by position.
    ghost predicate Joined(r: Ring, r': Ring, nodes: seq<Node>, p: nat) {
      var added := exists n :: n in nodes && VirtualAt(n, p);
      && (p in r'.keys <==> p in r.keys || added) && (p in r'.hashMap <==> p in r.hashMap || added)
      && (p in r'.hashMap ==> if added then r'.hashMap[p] in nodes && VirtualAt(r'.hashMap[p], p)
                              else r'.hashMap[p] == r.hashMap[p])
    }

    lemma AddedIs(r: Ring, r': Ring, nodes: seq<Node>, p: nat)
      requires Added(r, r', PositionsOf, nodes)
      ensures Joined(r, r', nodes, p)
    {
      hide VirtualAt, PositionsOf, MapAll, AllPositions, Sorted;
      OnAnyIs(nodes, p);
      MapAllAt(r.hashMap, PositionsOf, nodes, p);
      InBag(r.keys, p);
      InBag(r'.keys, p);
      if p in r'.hashMap && OnAny(PositionsOf, nodes, p) {
        PositionsAre(r'.hashMap[p], p);
      }
    }

    lemma AddedAll(r: Ring, r': Ring, nodes: seq<Node>)
      requires Added(r, r', PositionsOf, nodes)
      ensures forall p :: Joined(r, r', nodes, p)
    {
      hide Added, Joined;
      forall p ensures Joined(r, r', nodes, p) {
        AddedIs(r, r', nodes, p);
      }
    }

    // Two virtual nodes at one position have the same name.
    lemma SameName(n: Node, m: Node, q: nat)
      requires forall a, b :: hashFunc(a) == hashFunc(b) ==> a == b
      requires (n == [] || !(48 <= n[0] <= 57)) && (m == [] || !(48 <= m[0] <= 57))
      requires VirtualAt(n, q) && VirtualAt(m, q)
      ensures n == m
    {
      hide Decimal;
      var i: nat :| i < replicas && q == hashFunc(Decimal(i) + n);
      var j: nat :| j < replicas && q == hashFunc(Decimal(j) + m);
      DecimalThen(i, j, n, m);
    }

    lemma OwnDistinct(n: Node, q: nat)
      requires forall a, b :: hashFunc(a) == hashFunc(b) ==> a == b
      requires n == [] || !(48 <= n[0] <= 57)
      ensures Bag(PositionsOf(n))[q] <= 1
    {
      hide Decimal;
      var ps := PositionsOf(n);
      forall i, j | 0 <= i < |ps| && 0 <= j < |ps| && ps[i] == ps[j] ensures i == j {
        DecimalThen(i, j, n, n);
      }
      OnceEach(ps, q);
    }

    /** Pairwise different names that do not begin with a digit get pairwise different positions if the hash
        function is injective: `replicas` for each node. */
    lemma {:induction false} AllDistinct(nodes: seq<Node>, q: nat)
      requires forall a, b :: hashFunc(a) == hashFunc(b) ==> a == b
      requires forall n :: n in nodes ==> n == [] || !(48 <= n[0] <= 57)
      requires forall i, j :: 0 <= i < j < |nodes| ==> nodes[i] != nodes[j]
      ensures AllPositions(PositionsOf, nodes)[q] <= 1
      ensures forall n :: n in nodes ==> |PositionsOf(n)| == replicas
    {
      if nodes != [] {
        var rest, n := Init(nodes), Last(nodes);
        assert forall m :: m in rest ==> m in nodes;
        AllDistinct(rest, q);
        OwnDistinct(n, q);
        hide PositionsOf, VirtualAt, Bag, OnAny, MapAll;
        forall m | m in rest && VirtualAt(n, q) && VirtualAt(m, q) ensures n in rest {
          SameName(n, m, q);
        }
        NewLast(nodes);
        PositionsAre(n, q);
        OnAnyIs(rest, q);
        MapAllAt(map[], PositionsOf, rest, q);
        InBag(PositionsOf(n), q);
      }
    }

    method AddAll(before: Ring, nodes: seq<Node>) returns (after: Ring)
      ensures Added(before, after, PositionsOf, nodes)
    {
      hide Bag;
      var r, n := before, 0;
      while n < |nodes|
        invariant 0 <= n <= |nodes|
        invariant Bag(r.keys) == Bag(before.keys) + AllPositions(PositionsOf, nodes[..n])
        invariant r.hashMap == MapAll(before.hashMap, PositionsOf, nodes[..n])
      {
        Snoc(nodes[..n], nodes[n]);
        assert nodes[..n + 1] == nodes[..n] + [nodes[n]];
        BagAssociative(Bag(before.keys), AllPositions(PositionsOf, nodes[..n]), Bag(PositionsOf(nodes[n])));
        r := AddVirtualNodes(r, nodes[n]);
        n := n + 1;
      }
      assert nodes[..n] == nodes;
      SortOK(r.keys);
      after := Ring(SortInts(r.keys), r.hashMap);
    }

    /** AddNode: the virtual nodes of each new node join the ring, at the hashes of their names. */
    method AddNode(nodes: seq<Node>)
      modifies this
      ensures Added(old(State()), State(), PositionsOf, nodes)
      ensures forall p: nat :: p in keys <==> p in old(keys) || exists n :: n in nodes && VirtualAt(n, p)
      ensures forall p: nat ::
        if exists n :: n in nodes && VirtualAt(n, p)
        then p in hashMap && hashMap[p] in nodes && VirtualAt(hashMap[p], p)
        else (p in hashMap <==> p in old(hashMap)) && (p in hashMap ==> hashMap[p] == old(hashMap)[p])
    {
      hide Added, VirtualAt;
      ghost var r0 := State();
      var r := AddAll(Ring(keys, hashMap), nodes);
      keys, hashMap := r.keys, r.hashMap;
      AddedAll(r0, r, nodes);
      forall p: nat
        ensures p in keys <==> p in r0.keys || exists n :: n in nodes && VirtualAt(n, p)
        ensures if exists n :: n in nodes && VirtualAt(n, p)
                then p in hashMap && hashMap[p] in nodes && VirtualAt(hashMap[p], p)
                else (p in hashMap <==> p in r0.hashMap) && (p in hashMap ==> hashMap[p] == r0.hashMap[p])
      {
        assert Joined(r0, r, nodes, p);
      }
    }

    /** The two deletions for one virtual node (consistent_hash.go:66-73). */
    static method RemovePosition(r: Ring, hash: nat) returns (r': Ring)
      requires Sorted(r.keys)
      ensures Sorted(r'.keys) && Bag(r'.keys) == Bag(r.keys) - multiset{hash} && r'.hashMap == r.hashMap - {hash}
    {
      var idx := SearchInts(r.keys, hash);
      RemoveOne(r.keys, idx, hash);
      var keys := r.keys;
      if idx < |keys| && keys[idx] == hash {
        keys := keys[..idx] + keys[idx + 1..];
      }
      r' := Ring(keys, r.hashMap - {hash});
    }

    method RemoveVirtualNodes(before: Ring, node: Node) returns (after: Ring)
      requires Sorted(before.keys)
      ensures Removed(before, after, PositionsOf(node))
    {
      hide Bag, Removed, Sorted;
      ghost var ps := PositionsOf(node);
      RemovedNothing(before);
      after := before;
      var i := 0;
      while i < replicas
        invariant 0 <= i <= replicas && Sorted(after.keys) && Removed(before, after, ps[..i])
      {
        var hash := Position(i, node);
        assert ps[..i + 1] == ps[..i] + [hash];
        ghost var r := after;
        after := RemovePosition(after, hash);
        RemoveStep(before, r, ps[..i], hash, after);
        i := i + 1;
      }
      assert ps[..i] == ps;
    }

    // What has been removed, position by position.
    ghost predicate Parted(r: Ring, r': Ring, node: Node, p: nat) {
      if VirtualAt(node, p) then p !in r'.hashMap && (multiset(r.keys)[p] <= 1 ==> p !in r'.keys)
      else (p in r'.hashMap <==> p in r.hashMap) && (p in r'.hashMap ==> r'.hashMap[p] == r.hashMap[p])
           && multiset(r'.keys)[p] == multiset(r.keys)[p]
    }

    lemma RemovedAll(r: Ring, r': Ring, node: Node)
      requires Removed(r, r', PositionsOf(node))
      ensures forall p :: Parted(r, r', node, p)
    {
      hide VirtualAt, PositionsOf, Sorted;
      forall p ensures Parted(r, r', node, p) {
        PositionsAre(node, p);
        InBag(PositionsOf(node), p);
        InBag(r'.keys, p);
      }
    }

    /** RemoveNode: each virtual node takes its position and the mapping away. A position that other nodes have,
        too, is then unmapped, and stays as often as it was there besides. */
    method RemoveNode(node: Node)
      requires Sorted(keys)
      modifies this
      ensures Removed(old(State()), State(), PositionsOf(node))
      ensures forall p: nat ::
        if VirtualAt(node, p) then p !in hashMap && (multiset(old(keys))[p] <= 1 ==> p !in keys)
        else (p in hashMap <==> p in old(hashMap)) && (p in hashMap ==> hashMap[p] == old(hashMap)[p])
             && multiset(keys)[p] == multiset(old(keys))[p]
    {
      hide Removed, VirtualAt, Sorted;
      ghost var r0 := State();
      var r := RemoveVirtualNodes(Ring(keys, hashMap), node);
      keys, hashMap := r.keys, r.hashMap;
      RemovedAll(r0, r, node);
      forall p: nat
        ensures if VirtualAt(node, p) then p !in hashMap && (multiset(r0.keys)[p] <= 1 ==> p !in keys)
                else (p in hashMap <==> p in r0.hashMap) && (p in hashMap ==> hashMap[p] == r0.hashMap[p])
                     && multiset(keys)[p] == multiset(r0.keys)[p]
      {
        assert Parted(r0, r, node, p);
      }
    }

    /** GetNode: binary search, and back to the first position at the end. */
    method GetNode(key: Bytes) returns (node: Node)
      requires Sorted(keys)
      ensures Routes(State(), hashFunc(key), node)
    {
      if keys == [] {
        return [];
      }
      var hash := hashFunc(key);
      var idx := SearchInts(keys, hash);
      if idx == |keys| {
        idx := 0;
      }
      assert keys[idx] in State().Positions();
      assert forall q :: q in State().Positions() ==> exists i :: 0 <= i < |keys| && keys[i] == q;
      assert IsSuccessor(State().Positions(), hash, keys[idx]);
      node := if keys[idx] in hashMap then hashMap[keys[idx]] else [];
    }
  }

  // ---------- What AddNode and RemoveNode do ----------

  ghost function AllPositions(f: Node -> seq<nat>, nodes: seq<Node>): multiset<nat> {
    if nodes == [] then multiset{} else AllPositions(f, Init(nodes)) + Bag(f(Last(nodes)))
  }

  function MapTo(m: map<nat, Node>, ps: seq<nat>, node: Node): map<nat, Node> {
    if ps == [] then m else MapTo(m, Init(ps), node)[Last(ps) := node]
  }

  function MapAll(m: map<nat, Node>, f: Node -> seq<nat>, nodes: seq<Node>): map<nat, Node> {
    if nodes == [] then m else MapTo(MapAll(m, f, Init(nodes)), f(Last(nodes)), Last(nodes))
  }

  ghost predicate Added(r: Ring, r': Ring, f: Node -> seq<nat>, nodes: seq<Node>) {
    && Sorted(r'.keys) && Bag(r'.keys) == Bag(r.keys) + AllPositions(f, nodes)
    && r'.hashMap == MapAll(r.hashMap, f, nodes)
  }

  /** One occurrence of each position is gone, and all of them are unmapped. */
  ghost predicate Removed(r: Ring, r': Ring, ps: seq<nat>) {
    && Sorted(r'.keys) && Bag(r'.keys) == Bag(r.keys) - Bag(ps)
    && r'.hashMap == r.hashMap - (set p | p in ps)
  }

  lemma RemoveOne(s: seq<nat>, i: nat, x: nat)
    requires Sorted(s) && i <= |s|
    requires forall k :: 0 <= k < i ==> s[k] < x
    requires forall k :: i <= k < |s| ==> x <= s[k]
    ensures var s' := if i < |s| && s[i] == x then s[..i] + s[i + 1..] else s;
            Sorted(s') && Bag(s') == Bag(s) - multiset{x}
  {
    if i < |s| && s[i] == x {
      CutOut(s, i);
    } else {
      assert x !in s;
    }
  }

  lemma CutOut(s: seq<nat>, i: nat)
    requires Sorted(s) && i < |s|
    ensures Sorted(s[..i] + s[i + 1..]) && Bag(s[..i] + s[i + 1..]) == Bag(s) - multiset{s[i]}
  {
    assert s == s[..i] + [s[i]] + s[i + 1..];
  }

  lemma RemovedNothing(r: Ring)
    requires Sorted(r.keys)
    ensures Removed(r, r, [])
  {
  }

  lemma RemoveStep(r: Ring, r1: Ring, ps: seq<nat>, x: nat, r2: Ring)
    requires Removed(r, r1, ps)
    requires Sorted(r2.keys) && Bag(r2.keys) == Bag(r1.keys) - multiset{x} && r2.hashMap == r1.hashMap - {x}
    ensures Removed(r, r2, ps + [x])
  {
    hide Bag, Sorted;
    assert (set p | p in ps + [x]) == (set p | p in ps) + {x};
    BagSnoc(ps, x);
    BagWithout(Bag(r.keys), Bag(ps), x);
  }

  // ---------- Adding nodes ----------

  lemma {:induction false} MapToAt(m: map<nat, Node>, ps: seq<nat>, node: Node, p: nat)
    ensures var m' := MapTo(m, ps, node);
            && (p in m' <==> p in m || p in ps)
            && (p in m' ==> m'[p] == if p in ps then node else m[p])
  {
    if ps != [] {
      MapToAt(m, Init(ps), node, p);
      assert p in ps <==> p in Init(ps) || p == Last(ps);
    }
  }

  ghost predicate OnAny(f: Node -> seq<nat>, nodes: seq<Node>, p: nat) {
    exists i :: 0 <= i < |nodes| && p in f(nodes[i])
  }

  lemma {:induction false} MapAllAt(m: map<nat, Node>, f: Node -> seq<nat>, nodes: seq<Node>, p: nat)
    ensures var m' := MapAll(m, f, nodes);
            && (p in m' <==> p in m || OnAny(f, nodes, p))
            && (p in m' ==> if OnAny(f, nodes, p) then m'[p] in nodes && p in f(m'[p]) else m'[p] == m[p])
    ensures p in AllPositions(f, nodes) <==> OnAny(f, nodes, p)
  {
    if nodes != [] {
      var rest, node := Init(nodes), Last(nodes);
      MapAllAt(m, f, rest, p);
      MapToAt(MapAll(m, f, rest), f(node), node, p);
      OnAnyLast(f, nodes, p);
      assert p in Bag(f(node)) <==> p in f(node);
    }
  }

  lemma OnAnyLast(f: Node -> seq<nat>, nodes: seq<Node>, p: nat)
    requires nodes != []
    ensures OnAny(f, nodes, p) <==> OnAny(f, Init(nodes), p) || p in f(Last(nodes))
    ensures forall n :: n in Init(nodes) ==> n in nodes
  {
    if OnAny(f, nodes, p) {
      var i :| 0 <= i < |nodes| && p in f(nodes[i]);
      if i < |nodes| - 1 {
        assert Init(nodes)[i] == nodes[i];
      }
    }
    if OnAny(f, Init(nodes), p) {
      var i :| 0 <= i < |Init(nodes)| && p in f(Init(nodes)[i]);
      assert nodes[i] == Init(nodes)[i];
    }
    assert nodes[|nodes| - 1] == Last(nodes);
  }

  lemma {:induction false} OnceEach(s: seq<nat>, q: nat)
    requires forall i, j :: 0 <= i < |s| && 0 <= j < |s| && s[i] == s[j] ==> i == j
    ensures Bag(s)[q] <= 1
  {
    if s != [] {
      OnceEach(Init(s), q);
      Unsnoc(s);
      InBag(Init(s), q);
      forall i | 0 <= i < |Init(s)| ensures Init(s)[i] != Last(s) {
        assert Init(s)[i] == s[i];
      }
    }
  }

  lemma NewLast(nodes: seq<Node>)
    requires nodes != [] && forall i, j :: 0 <= i < j < |nodes| ==> nodes[i] != nodes[j]
    ensures Last(nodes) !in Init(nodes)
  {
    forall i | 0 <= i < |Init(nodes)| ensures Init(nodes)[i] != Last(nodes) {
      assert Init(nodes)[i] == nodes[i];
    }
  }

  lemma InBag(s: seq<nat>, p: nat)
    ensures p in Bag(s) <==> p in s
  {
  }

  // The positions after AddNode, and what they are mapped to.
  lemma AddedAt(r: Ring, r': Ring, f: Node -> seq<nat>, nodes: seq<Node>, p: nat)
    requires r.OK() && Added(r, r', f, nodes)
    ensures p in r'.keys <==> p in r.keys || OnAny(f, nodes, p)
    ensures p in r'.keys <==> p in r'.hashMap
    ensures OnAny(f, nodes, p) ==> r'.At(p) in nodes && p in f(r'.At(p))
    ensures !OnAny(f, nodes, p) ==> r'.At(p) == r.At(p)
  {
    MapAllAt(r.hashMap, f, nodes, p);
    InBag(r.keys, p);
    InBag(r'.keys, p);
    assert p in r.Positions() <==> p in r.hashMap;
  }

  lemma AddedOK(r: Ring, r': Ring, f: Node -> seq<nat>, nodes: seq<Node>)
    requires r.OK() && Added(r, r', f, nodes)
    ensures r'.OK()
  {
    forall p: nat ensures p in r'.keys <==> p in r'.hashMap {
      AddedAt(r, r', f, nodes, p);
    }
  }

  /** Monotonicity, for any hash function: after nodes are added every key routes either where it did
      before or to one of the new nodes. */
  lemma AddMoves(r: Ring, r': Ring, f: Node -> seq<nat>, nodes: seq<Node>, h: nat, before: Node, after: Node)
    requires r.OK() && Added(r, r', f, nodes) && Routes(r, h, before) && Routes(r', h, after)
    ensures r'.OK() && (after == before || after in nodes)
  {
    AddedOK(r, r', f, nodes);
    if r'.keys != [] {
      var p' :| IsSuccessor(r'.Positions(), h, p') && after == r'.At(p');
      AddedAt(r, r', f, nodes, p');
      if !OnAny(f, nodes, p') {
        assert p' in r.keys;
        var p :| IsSuccessor(r.Positions(), h, p) && before == r.At(p);
        forall q | q in r.Positions() ensures q in r'.Positions() {
          AddedAt(r, r', f, nodes, q);
        }
        FewerPositions(r'.Positions(), r.Positions(), h, p');
        SuccessorUnique(r.Positions(), h, p, p');
      }
    } else {
      forall q | q in r.keys ensures false {
        AddedAt(r, r', f, nodes, q);
      }
    }
  }

  /** All positions of the node are there and mapped to it. */
  ghost predicate Owns(r: Ring, f: Node -> seq<nat>, node: Node) {
    forall p :: p in f(node) ==> p in r.hashMap && r.hashMap[p] == node
  }

  /** Adding a node again changes no route, if its positions are its own. */
  lemma AddAgain(r: Ring, r': Ring, f: Node -> seq<nat>, node: Node, h: nat, x: Node)
    requires r.OK() && Added(r, r', f, [node]) && Owns(r, f, node)
    ensures Routes(r, h, x) <==> Routes(r', h, x)
  {
    AddedOK(r, r', f, [node]);
    hide Bag, Added, Sorted, MapTo, MapAll, Routes;
    forall p ensures (p in r.Positions() <==> p in r'.Positions()) && r.At(p) == r'.At(p) {
      AddedAt(r, r', f, [node], p);
      OnlyNode(f, node, p);
    }
    SameRoutes(r, r', h, x);
  }

  lemma OnlyNode(f: Node -> seq<nat>, node: Node, p: nat)
    ensures OnAny(f, [node], p) <==> p in f(node)
  {
    OnAnyLast(f, [node], p);
  }

  lemma SameRoutes(r: Ring, r': Ring, h: nat, x: Node)
    requires forall p :: (p in r.Positions() <==> p in r'.Positions()) && r.At(p) == r'.At(p)
    ensures Routes(r, h, x) <==> Routes(r', h, x)
  {
    assert r.Positions() == r'.Positions();
    assert r.keys != [] ==> r.keys[0] in r.Positions();
    assert r'.keys != [] ==> r'.keys[0] in r'.Positions();
  }

  // A successor stays the successor when other positions disappear.
  lemma FewerPositions(positions: set<nat>, fewer: set<nat>, h: nat, p: nat)
    requires IsSuccessor(positions, h, p) && fewer <= positions && p in fewer
    ensures IsSuccessor(fewer, h, p)
  {
  }

  // ---------- Removing a node ----------

  lemma RemovedAt(r: Ring, r': Ring, ps: seq<nat>, p: nat)
    requires r.OK() && Removed(r, r', ps)
    ensures p in r'.keys <==> Bag(r.keys)[p] > Bag(ps)[p]
    ensures p in r'.hashMap <==> p in r.keys && p !in ps
    ensures p in r'.hashMap ==> r'.hashMap[p] == r.hashMap[p]
  {
    InBag(r'.keys, p);
    InBag(r.keys, p);
    assert p in r.Positions() <==> p in r.hashMap;
  }

  /** Removing leaves a proper ring exactly if none of the node's positions is occupied more often than
      the node itself occupies it; otherwise a position stays behind that is mapped to nothing. */
  lemma RemovedOK(r: Ring, r': Ring, ps: seq<nat>)
    requires r.OK() && Removed(r, r', ps)
    ensures r'.OK() <==> forall p :: p in ps ==> Bag(r.keys)[p] <= Bag(ps)[p]
  {
    forall p: nat ensures (p in r'.keys <==> p in r'.hashMap) <==> (p in ps ==> Bag(r.keys)[p] <= Bag(ps)[p]) {
      RemovedAt(r, r', ps, p);
      InBag(ps, p);
      InBag(r.keys, p);
    }
    if r'.OK() {
      forall p | p in ps ensures Bag(r.keys)[p] <= Bag(ps)[p] {
        assert p in r'.Positions() <==> p in r'.hashMap;
      }
    }
  }

  /** Where a key goes after a removal: its position is kept if it survives, and otherwise the next
      surviving position around the ring takes over. */
  lemma RemoveReroutes(r: Ring, r': Ring, ps: seq<nat>, h: nat, p: nat, p': nat)
    requires r.OK() && Removed(r, r', ps) && r'.OK()
    requires IsSuccessor(r.Positions(), h, p) && IsSuccessor(r'.Positions(), h, p')
    ensures IsSuccessor(r'.Positions(), p, p') && r'.At(p') == r.At(p')
    ensures p !in ps ==> p' == p
  {
    forall q | q in r'.Positions() ensures q in r.Positions() && q !in ps {
      RemovedAt(r, r', ps, q);
    }
    if p !in ps {
      RemovedAt(r, r', ps, p);
      FewerPositions(r.Positions(), r'.Positions(), h, p);
      SuccessorUnique(r'.Positions(), h, p, p');
    }
    RemovedAt(r, r', ps, p');
    assert p' in r.Positions();
  }

  /** Only keys of the removed node move, if its positions are its own. */
  lemma RemoveMoves(r: Ring, r': Ring, ps: seq<nat>, node: Node, h: nat, before: Node, after: Node)
    requires r.OK() && Removed(r, r', ps) && r'.OK() && Routes(r, h, before) && Routes(r', h, after)
    requires forall p :: p in ps ==> r.At(p) == node
    ensures before != node ==> after == before
    ensures before != node ==> before == [] || r'.keys != []
  {
    if r.keys != [] {
      var p :| IsSuccessor(r.Positions(), h, p) && before == r.At(p);
      if before != node {
        RemovedAt(r, r', ps, p);
        assert p in r'.Positions();
        var p' :| IsSuccessor(r'.Positions(), h, p') && after == r'.At(p');
        RemoveReroutes(r, r', ps, h, p, p');
      }
    } else {
      forall q | q in r'.keys ensures false {
        RemovedAt(r, r', ps, q);
      }
    }
  }

  lemma KeysRestored(r: Ring, r1: Ring, r2: Ring, f: Node -> seq<nat>, node: Node)
    requires Sorted(r.keys) && Added(r, r1, f, [node]) && Removed(r1, r2, f(node))
    ensures r2.keys == r.keys
  {
    var ps := f(node);
    assert Init([node]) == [] && Last([node]) == node;
    assert AllPositions(f, [node]) == multiset{} + Bag(ps);
    assert (Bag(r.keys) + Bag(ps)) - Bag(ps) == Bag(r.keys);
    assert multiset(r2.keys) == multiset(r.keys);
    hide Bag;
    SortedUnique(r2.keys, r.keys);
  }

  lemma MapRestored(m: map<nat, Node>, ps: seq<nat>, node: Node)
    ensures MapTo(m, ps, node) - (set p | p in ps) == m - (set p | p in ps)
  {
    forall p
      ensures p in MapTo(m, ps, node) <==> p in m || p in ps
      ensures p in m && p !in ps ==> MapTo(m, ps, node)[p] == m[p]
    {
      MapToAt(m, ps, node, p);
    }
  }

  /** Adding a node and removing it again restores the ring exactly if its positions were free. */
  lemma AddThenRemove(r: Ring, r1: Ring, r2: Ring, f: Node -> seq<nat>, node: Node)
    requires r.OK() && Added(r, r1, f, [node]) && Removed(r1, r2, f(node))
    ensures r2 == r <==> forall p :: p in f(node) ==> p !in r.keys
  {
    var ps := f(node);
    KeysRestored(r, r1, r2, f, node);
    OneMapped(r.hashMap, f, node);
    MapRestored(r.hashMap, ps, node);
    assert r2.hashMap == r.hashMap - (set p | p in ps);
    hide Bag, Added, Removed, Sorted, MapTo, MapAll;
    Unmapped(r, ps);
  }

  lemma OneMapped(m: map<nat, Node>, f: Node -> seq<nat>, node: Node)
    ensures MapAll(m, f, [node]) == MapTo(m, f(node), node)
  {
    assert Init([node]) == [] && Last([node]) == node;
    assert MapAll(m, f, []) == m;
  }

  lemma Unmapped(r: Ring, ps: seq<nat>)
    requires r.OK()
    ensures r.hashMap - (set p | p in ps) == r.hashMap <==> forall p :: p in ps ==> p !in r.keys
  {
    assert forall p :: p in r.Positions() <==> p in r.hashMap;
    if p :| p in ps && p in r.keys {
      assert p in r.hashMap && p !in r.hashMap - (set p | p in ps);
    } else {
      assert r.hashMap - (set p | p in ps) == r.hashMap;
    }
  }

  /** Pairwise distinct positions give every node its positions for itself. */
  lemma DistinctPositions(r: Ring, f: Node -> seq<nat>, nodes: seq<Node>, i: nat, p: nat)
    requires Added(Ring([], map[]), r, f, nodes) && i < |nodes| && p in f(nodes[i])
    requires forall q :: AllPositions(f, nodes)[q] <= 1
    ensures r.At(p) == nodes[i] && Bag(r.keys)[p] == 1 == Bag(f(nodes[i]))[p]
  {
    assert Ring([], map[]).OK();
    AddedAt(Ring([], map[]), r, f, nodes, p);
    assert OnAny(f, nodes, p);
    assert Bag([]) == multiset{};
    InBag(f(nodes[i]), p);
    var n := r.At(p);
    var j :| 0 <= j < |nodes| && nodes[j] == n;
    InBag(f(n), p);
    if i != j {
      TwoNodes(f, nodes, i, j, p);
    }
    OneNode(f, nodes, i, p);
  }

  lemma {:induction false} OneNode(f: Node -> seq<nat>, nodes: seq<Node>, i: nat, p: nat)
    requires i < |nodes|
    ensures AllPositions(f, nodes)[p] >= Bag(f(nodes[i]))[p]
  {
    if i < |nodes| - 1 {
      OneNode(f, Init(nodes), i, p);
    }
  }

  lemma {:induction false} TwoNodes(f: Node -> seq<nat>, nodes: seq<Node>, i: nat, j: nat, p: nat)
    requires i < |nodes| && j < |nodes| && i != j
    ensures AllPositions(f, nodes)[p] >= Bag(f(nodes[i]))[p] + Bag(f(nodes[j]))[p]
  {
    if i < |nodes| - 1 && j < |nodes| - 1 {
      TwoNodes(f, Init(nodes), i, j, p);
    } else if i < |nodes| - 1 {
      OneNode(f, Init(nodes), i, p);
    } else {
      OneNode(f, Init(nodes), j, p);
    }
  }
}
