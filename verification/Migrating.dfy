/** The proxy: adding a node to the ring, and moving the keys that the node takes over. The node may already
    be one of the old ones, as when the request is repeated. */
module Migrating {
  import opened Record
  import opened Seqs
  import opened Sharding
  import Keys

  /** What each node stores. */
  type Stores = map<Node, map<Bytes, Bytes>>

  predicate Has(s: Stores, n: Node, k: Bytes) {
    n in s && k in s[n]
  }

  function WithKey(s: Stores, n: Node, k: Bytes, v: Bytes): Stores {
    if n in s then s[n := s[n][k := v]] else s
  }

  function WithoutKey(s: Stores, n: Node, k: Bytes): Stores {
    if n in s then s[n := s[n] - {k}] else s
  }

  // ---------- The nodes behind the network ----------

  /** What a failed request was for: the keys of a node, or one key. */
  datatype Failure = Listing(node: Node) | Moving(key: Bytes)

  /** The storage nodes, reached by requests that may fail. `history` is every state there has been. `failures`
      counts the requests that failed although the node was there, and the key if it has to be; `failed` says
      what they were for. */
  class Cluster {
    const carry: Bytes -> Bytes   // what arrives of a value that is trimmed and put into a form
    var stores: Stores
    ghost var history: seq<Stores>
    ghost var failures: nat
    ghost var failed: set<Failure>

    /** GET /keys. */
    method GetKeys(node: Node) returns (keys: Option<seq<Bytes>>)
      modifies this`failures, this`failed
      ensures keys.Some? ==> node in stores && forall k :: k in keys.value <==> k in stores[node]
      ensures keys.Some? ==> forall i, j :: 0 <= i < j < |keys.value| ==> keys.value[i] != keys.value[j]
      ensures failures == old(failures) + if node in stores && keys.None? then 1 else 0
      ensures failed == old(failed) + if node in stores && keys.None? then {Listing(node)} else {}
    {
      var fails: bool := *;
      if fails || node !in stores {
        if node in stores {
          failures, failed := failures + 1, failed + {Listing(node)};
        }
        return None;
      }
      keys := Some(Keys.InOrder(stores[node].Keys));
      Keys.AscendingDistinct(keys.value);
    }

    /** GET /get: also fails if the key is missing. */
    method Get(node: Node, key: Bytes) returns (value: Option<Bytes>)
      modifies this`failures, this`failed
      ensures value.Some? ==> Has(stores, node, key) && value.value == stores[node][key]
      ensures failures == old(failures) + if Has(stores, node, key) && value.None? then 1 else 0
      ensures failed == old(failed) + if Has(stores, node, key) && value.None? then {Moving(key)} else {}
    {
      var fails: bool := *;
      if fails || node !in stores || key !in stores[node] {
        if node in stores && key in stores[node] {
          failures, failed := failures + 1, failed + {Moving(key)};
        }
        return None;
      }
      value := Some(stores[node][key]);
    }

    /** POST /put: may fail before or after it has taken effect. */
    method Put(node: Node, key: Bytes, value: Bytes) returns (ok: bool)
      modifies this
      ensures stores == old(stores) || stores == WithKey(old(stores), node, key, carry(value))
      ensures ok ==> node in stores && stores == WithKey(old(stores), node, key, carry(value))
      ensures history == old(history) + [stores]
      ensures failures == old(failures) + if node in stores && !ok then 1 else 0
      ensures failed == old(failed) + if node in stores && !ok then {Moving(key)} else {}
    {
      var arrives: bool, answered: bool := *, *;
      if arrives {
        stores := WithKey(stores, node, key, carry(value));
      }
      history := history + [stores];
      ok := arrives && answered && node in stores;
      if node in stores && !ok {
        failures, failed := failures + 1, failed + {Moving(key)};
      }
    }

    /** POST /delete: may fail before or after it has taken effect. */
    method Delete(node: Node, key: Bytes) returns (ok: bool)
      modifies this
      ensures stores == old(stores) || stores == WithoutKey(old(stores), node, key)
      ensures ok ==> stores == WithoutKey(old(stores), node, key)
      ensures history == old(history) + [stores]
      ensures failures == old(failures) + if node in stores && !ok then 1 else 0
      ensures failed == old(failed) + if node in stores && !ok then {Moving(key)} else {}
    {
      var arrives: bool, answered: bool := *, *;
      if arrives {
        stores := WithoutKey(stores, node, key);
      }
      history := history + [stores];
      ok := arrives && answered && node in stores;
      if node in stores && !ok {
        failures, failed := failures + 1, failed + {Moving(key)};
      }
    }
  }

  // ---------- One pass, if nothing fails ----------

  /** The ring after the new node has joined, and how values travel. */
  datatype Move = Move(ring: Ring, hash: Bytes -> nat, newNode: Node, carry: Bytes -> Bytes)

  /** Keys that the ring sends to the new node. */
  ghost predicate Goes(m: Move, k: Bytes) {
    Routes(m.ring, m.hash(k), m.newNode)
  }

  function Copied(m: Move, s: Stores, o: Node, k: Bytes): Stores
    requires Has(s, o, k)
  {
    WithKey(s, m.newNode, k, m.carry(s[o][k]))
  }

  function Moved(m: Move, s: Stores, o: Node, k: Bytes): Stores
    requires Has(s, o, k)
  {
    WithoutKey(Copied(m, s, o, k), o, k)
  }

  /** What one key's requests can leave, whichever of them fail: nothing, a copy, or the key moved. */
  ghost predicate Stage(m: Move, s: Stores, o: Node, k: Bytes, s': Stores) {
    s' == s || (Has(s, o, k) && m.newNode in s && (s' == Copied(m, s, o, k) || s' == Moved(m, s, o, k)))
  }

  ghost function Going(m: Move, s: Stores, o: Node, done: set<Bytes>): set<Bytes>
    requires o in s
  {
    set k | k in s[o] && k in done && Goes(m, k)
  }

  function Carried(from: map<Bytes, Bytes>, keys: set<Bytes>, carry: Bytes -> Bytes): map<Bytes, Bytes> {
    map k | k in from && k in keys :: carry(from[k])
  }

  function MoveKeys(s: Stores, o: Node, newNode: Node, keys: set<Bytes>, carry: Bytes -> Bytes): Stores
    requires o in s && newNode in s
  {
    var t := s[newNode := s[newNode] + Carried(s[o], keys, carry)];
    t[o := t[o] - keys]
  }

  /** The pass over node `o` when it has treated the keys `done`: those that go to the new node are put on it
      and then deleted from `o`, which may be the new node itself. */
  ghost function PassedPart(m: Move, s: Stores, o: Node, done: set<Bytes>): Stores {
    if o in s && m.newNode in s then MoveKeys(s, o, m.newNode, Going(m, s, o, done), m.carry) else s
  }

  ghost function Passed(m: Move, s: Stores, o: Node): Stores {
    PassedPart(m, s, o, if o in s then s[o].Keys else {})
  }

  /** A migration in which no request fails: one pass after the other. */
  ghost function PassAll(m: Move, s: Stores, nodes: seq<Node>): Stores {
    if nodes == [] then s else Passed(m, PassAll(m, s, Init(nodes)), Last(nodes))
  }

  lemma PartNothing(m: Move, s: Stores, o: Node)
    ensures PassedPart(m, s, o, {}) == s
  {
    if o in s && m.newNode in s {
      assert Going(m, s, o, {}) == {};
      assert s[m.newNode] + Carried(s[o], {}, m.carry) == s[m.newNode];
      assert s[o] - {} == s[o];
    }
  }

  // One key more has been moved.
  lemma PartMoved(m: Move, s: Stores, o: Node, done: set<Bytes>, k: Bytes)
    requires Goes(m, k) && Has(PassedPart(m, s, o, done), o, k) && m.newNode in s
    ensures Moved(m, PassedPart(m, s, o, done), o, k) == PassedPart(m, s, o, done + {k})
  {
    hide Going, Goes, MoveKeys;
    assert o in s;
    GoingMore(m, s, o, done, k);
    MoveOneMore(s, o, m.newNode, Going(m, s, o, done), m.carry, k);
  }

  lemma MoveOneMore(s: Stores, o: Node, newNode: Node, keys: set<Bytes>, carry: Bytes -> Bytes, k: Bytes)
    requires o in s && newNode in s && k in s[o] && k !in keys
    ensures var t := MoveKeys(s, o, newNode, keys, carry);
            WithoutKey(WithKey(t, newNode, k, carry(s[o][k])), o, k) == MoveKeys(s, o, newNode, keys + {k}, carry)
  {
    hide Carried;
    var into := s[newNode] + Carried(s[o], keys, carry);
    CarriedMore(s[newNode], s[o], keys, carry, k);
    TakenOut(if o == newNode then into else s[o], keys, k, carry(s[o][k]));
  }

  lemma CarriedMore(into: map<Bytes, Bytes>, from: map<Bytes, Bytes>, keys: set<Bytes>, carry: Bytes -> Bytes, k: Bytes)
    requires k in from && k !in keys
    ensures into + Carried(from, keys + {k}, carry) == (into + Carried(from, keys, carry))[k := carry(from[k])]
  {
  }

  lemma TakenOut(x: map<Bytes, Bytes>, keys: set<Bytes>, k: Bytes, v: Bytes)
    ensures x - keys - {k} == x - (keys + {k})
    ensures (x - keys)[k := v] - {k} == x[k := v] - (keys + {k})
  {
  }

  lemma GoingMore(m: Move, s: Stores, o: Node, done: set<Bytes>, k: Bytes)
    requires Goes(m, k) && Has(PassedPart(m, s, o, done), o, k) && m.newNode in s && o in s
    ensures k !in Going(m, s, o, done) && k in s[o] && PassedPart(m, s, o, done)[o][k] == s[o][k]
    ensures Going(m, s, o, done + {k}) == Going(m, s, o, done) + {k}
  {
    hide Goes;
  }

  lemma PartSkipped(m: Move, s: Stores, o: Node, done: set<Bytes>, k: Bytes)
    requires !Goes(m, k)
    ensures PassedPart(m, s, o, done + {k}) == PassedPart(m, s, o, done)
  {
    hide Goes;
    if o in s {
      assert Going(m, s, o, done + {k}) == Going(m, s, o, done);
    }
  }

  // ---------- What every request keeps ----------

  /** Every key is on one node at most. */
  ghost predicate Unique(s: Stores) {
    forall n, n', k :: Has(s, n, k) && Has(s, n', k) ==> n == n'
  }

  ghost predicate Stays(s0: Stores, s: Stores, n: Node, k: Bytes)
    requires Has(s0, n, k)
  {
    Has(s, n, k) && s[n][k] == s0[n][k]
  }

  ghost predicate Arrived(m: Move, s0: Stores, s: Stores, n: Node, k: Bytes)
    requires Has(s0, n, k)
  {
    Goes(m, k) && Has(s, m.newNode, k) && s[m.newNode][k] == m.carry(s0[n][k])
  }

  /** The new node comes up in the list with `n` or after it. */
  ghost predicate Overtaken(nodes: seq<Node>, n: Node, newNode: Node) {
    exists i, j :: 0 <= i <= j < |nodes| && nodes[i] == n && nodes[j] == newNode
  }

  /** A key that the passes over `nodes` put on the new node and then delete there. */
  ghost predicate Doomed(m: Move, nodes: seq<Node>, n: Node, k: Bytes) {
    Goes(m, k) && Overtaken(nodes, n, m.newNode)
  }

  lemma OvertakenSnoc(nodes: seq<Node>, o: Node, n: Node, newNode: Node)
    ensures Overtaken(nodes + [o], n, newNode) <==> Overtaken(nodes, n, newNode) || (o == newNode && n in nodes + [o])
  {
    var all := nodes + [o];
    if Overtaken(nodes, n, newNode) {
      var i, j :| 0 <= i <= j < |nodes| && nodes[i] == n && nodes[j] == newNode;
      assert all[i] == n && all[j] == newNode;
    }
    if o == newNode && n in all {
      var i :| 0 <= i < |all| && all[i] == n;
      assert all[|nodes|] == newNode;
    }
    if Overtaken(all, n, newNode) {
      var i, j :| 0 <= i <= j < |all| && all[i] == n && all[j] == newNode;
      assert j < |nodes| ==> nodes[i] == n && nodes[j] == newNode;
    }
  }

  /** Where the new node has a key from: it was there before, or a pass over another node has put it there. */
  ghost predicate Origin(m: Move, s0: Stores, s: Stores, nodes: seq<Node>, o: Node, k: Bytes) {
    && Has(s0, o, k) && (o == m.newNode || (o in nodes && Goes(m, k)))
    && (Doomed(m, nodes, o, k) || (Has(s, m.newNode, k)
        && s[m.newNode][k] == if o == m.newNode then s0[o][k] else m.carry(s0[o][k])))
  }

  /** One key of one node, while the nodes of `nodes` are passed: unless it is doomed its value is still
      there, or it has arrived; other nodes only lose keys; and what the new node has, it had, or it has
      come from the node that had it. */
  ghost predicate KeyKept(m: Move, s0: Stores, s: Stores, nodes: seq<Node>, n: Node, k: Bytes) {
    && (Has(s0, n, k) && !Doomed(m, nodes, n, k) ==>
          Stays(s0, s, n, k) || (n in nodes && n != m.newNode && Arrived(m, s0, s, n, k)))
    && (n != m.newNode && Has(s, n, k) ==> Has(s0, n, k) && Stays(s0, s, n, k))
    && (n == m.newNode && Has(s, n, k) ==> exists o :: Origin(m, s0, s, nodes, o, k))
  }

  ghost predicate Conserved(m: Move, s0: Stores, s: Stores, nodes: seq<Node>) {
    s.Keys == s0.Keys && forall n, k :: KeyKept(m, s0, s, nodes, n, k)
  }

  ghost predicate Kept(m: Move, s0: Stores, s: Stores, nodes: seq<Node>) {
    Unique(s0) ==> Conserved(m, s0, s, nodes)
  }

  lemma StartConserved(m: Move, s0: Stores)
    ensures Conserved(m, s0, s0, [])
  {
    hide Goes;
    forall n, k ensures KeyKept(m, s0, s0, [], n, k) {
      if Has(s0, n, k) && n == m.newNode {
        assert Origin(m, s0, s0, [], n, k);
      }
    }
  }

  /** The next pass begins. */
  lemma NextPass(m: Move, s0: Stores, s: Stores, nodes: seq<Node>, o: Node)
    requires Conserved(m, s0, s, nodes)
    ensures Conserved(m, s0, s, nodes + [o])
  {
    hide Goes, Stays, Arrived, Overtaken;
    forall n, k ensures KeyKept(m, s0, s, nodes + [o], n, k) {
      assert KeyKept(m, s0, s, nodes, n, k);
      OvertakenSnoc(nodes, o, n, m.newNode);
      if n == m.newNode && Has(s, n, k) {
        var x :| Origin(m, s0, s, nodes, x, k);
        OvertakenSnoc(nodes, o, x, m.newNode);
        assert Origin(m, s0, s, nodes + [o], x, k);
      }
    }
  }

  // In a pass over the new node itself, every key that goes is doomed.
  lemma DoomedOrigin(m: Move, s0: Stores, s: Stores, nodes: seq<Node>, x: Node, k: Bytes)
    requires nodes != [] && Last(nodes) == m.newNode && Goes(m, k) && Origin(m, s0, s, nodes, x, k)
    ensures Doomed(m, nodes, x, k) && forall s' :: Origin(m, s0, s', nodes, x, k)
  {
    hide Goes;
    assert x in nodes;
    var i :| 0 <= i < |nodes| && nodes[i] == x;
    assert nodes[|nodes| - 1] == m.newNode;
  }

  lemma PutConserves(m: Move, s0: Stores, s: Stores, nodes: seq<Node>, o: Node, k: Bytes)
    requires Unique(s0) && Conserved(m, s0, s, nodes) && nodes != [] && Last(nodes) == o
    requires Has(s, o, k) && Goes(m, k) && m.newNode in s
    ensures Conserved(m, s0, Copied(m, s, o, k), nodes)
    ensures o != m.newNode ==> Has(s0, o, k) && Arrived(m, s0, Copied(m, s, o, k), o, k)
  {
    hide Goes, Overtaken;
    var s' := Copied(m, s, o, k);
    assert KeyKept(m, s0, s, nodes, o, k);
    assert KeyKept(m, s0, s, nodes, m.newNode, k);
    var x: Node;
    if o == m.newNode {
      x :| Origin(m, s0, s, nodes, x, k);
      DoomedOrigin(m, s0, s, nodes, x, k);
    } else {
      x := o;
      assert Origin(m, s0, s', nodes, o, k);
    }
    assert Origin(m, s0, s', nodes, x, k);
    forall n, k' ensures KeyKept(m, s0, s', nodes, n, k') {
      assert KeyKept(m, s0, s, nodes, n, k');
      if k' != k && n == m.newNode && Has(s, n, k') {
        var y :| Origin(m, s0, s, nodes, y, k');
        assert Origin(m, s0, s', nodes, y, k');
      }
    }
  }

  lemma DeleteConserves(m: Move, s0: Stores, s: Stores, nodes: seq<Node>, o: Node, k: Bytes)
    requires Unique(s0) && Conserved(m, s0, s, nodes) && nodes != [] && Last(nodes) == o && Goes(m, k)
    requires o != m.newNode ==> Has(s0, o, k) && Arrived(m, s0, s, o, k)
    ensures Conserved(m, s0, WithoutKey(s, o, k), nodes)
  {
    hide Goes, Overtaken;
    var s' := WithoutKey(s, o, k);
    if o == m.newNode && Has(s, o, k) {
      assert KeyKept(m, s0, s, nodes, o, k);
      var x :| Origin(m, s0, s, nodes, x, k);
      DoomedOrigin(m, s0, s, nodes, x, k);
    }
    forall n, k' ensures KeyKept(m, s0, s', nodes, n, k') {
      assert KeyKept(m, s0, s, nodes, n, k');
      if n == m.newNode && Has(s', n, k') {
        var y :| Origin(m, s0, s, nodes, y, k');
        assert Origin(m, s0, s', nodes, y, k');
      }
    }
  }

  lemma StageKeeps(m: Move, s0: Stores, s: Stores, nodes: seq<Node>, o: Node, k: Bytes, s': Stores)
    requires Kept(m, s0, s, nodes) && nodes != [] && Last(nodes) == o && Goes(m, k) && Stage(m, s, o, k, s')
    ensures Kept(m, s0, s', nodes)
  {
    hide Unique, Conserved, Goes, Arrived;
    if Unique(s0) && s' != s {
      PutConserves(m, s0, s, nodes, o, k);
      DeleteConserves(m, s0, Copied(m, s, o, k), nodes, o, k);
    }
  }

  /** Whatever the stores are: keys that do not go to the new node stay as they are, and no other node gains
      or changes a key. */
  ghost predicate Framed(m: Move, s: Stores, s': Stores) {
    s'.Keys == s.Keys && forall n, k :: FramedAt(m, s, s', n, k)
  }

  ghost predicate FramedAt(m: Move, s: Stores, s': Stores, n: Node, k: Bytes) {
    && (!Goes(m, k) ==> (Has(s', n, k) <==> Has(s, n, k)) && (Has(s, n, k) ==> s'[n][k] == s[n][k]))
    && (n != m.newNode && Has(s', n, k) ==> Has(s, n, k) && s'[n][k] == s[n][k])
  }

  lemma StageFrames(m: Move, s0: Stores, s: Stores, o: Node, k: Bytes, s': Stores)
    requires Framed(m, s0, s) && Goes(m, k) && Stage(m, s, o, k, s')
    ensures Framed(m, s0, s')
  {
    hide Goes, Framed;
    if s' != s {
      PutFrames(m, s0, s, k, m.carry(s[o][k]));
      DeleteFrames(m, s0, Copied(m, s, o, k), o, k);
    }
  }

  lemma PutFrames(m: Move, s0: Stores, s: Stores, k: Bytes, v: Bytes)
    requires Framed(m, s0, s) && Goes(m, k)
    ensures Framed(m, s0, WithKey(s, m.newNode, k, v))
  {
    hide Goes;
    forall n, k' ensures FramedAt(m, s0, WithKey(s, m.newNode, k, v), n, k') {
      assert FramedAt(m, s0, s, n, k');
    }
  }

  lemma DeleteFrames(m: Move, s0: Stores, s: Stores, o: Node, k: Bytes)
    requires Framed(m, s0, s) && Goes(m, k)
    ensures Framed(m, s0, WithoutKey(s, o, k))
  {
    hide Goes;
    forall n, k' ensures FramedAt(m, s0, WithoutKey(s, o, k), n, k') {
      assert FramedAt(m, s0, s, n, k');
    }
  }

  // ---------- Migration (cmd/proxy/main.go:189-247) ----------

  /** One key: read it, put it on the new node, and only then delete it from the old one. */
  method MoveKey(cluster: Cluster, oldNode: Node, newNode: Node, key: Bytes, ghost m: Move) returns (clean: bool)
    requires m.newNode == newNode && m.carry == cluster.carry
    modifies cluster
    ensures Stage(m, old(cluster.stores), oldNode, key, cluster.stores)
    ensures forall s :: s in cluster.history ==> s in old(cluster.history) || Stage(m, old(cluster.stores), oldNode, key, s)
    ensures clean ==> Has(old(cluster.stores), oldNode, key) && newNode in old(cluster.stores)
                      && cluster.stores == Moved(m, old(cluster.stores), oldNode, key)
    ensures cluster.failures >= old(cluster.failures)
    ensures clean <==> cluster.failures == old(cluster.failures)
                       && Has(old(cluster.stores), oldNode, key) && newNode in old(cluster.stores)
    ensures cluster.failed >= old(cluster.failed)
    ensures Has(cluster.stores, oldNode, key) && newNode in old(cluster.stores) ==> Moving(key) in cluster.failed
  {
    var value := cluster.Get(oldNode, key);
    if value.None? {
      return false;
    }
    var put := cluster.Put(newNode, key, value.value);
    if !put {
      return false;
    }
    clean := cluster.Delete(oldNode, key);
  }

  lemma IsGoing(m: Move, k: Bytes, target: Node)
    requires Routes(m.ring, m.hash(k), target)
    ensures Goes(m, k) <==> target == m.newNode
  {
    if target != m.newNode {
      OnlyRoute(m.ring, m.hash(k), target, m.newNode);
    }
  }

  /** What holds in every state of a migration that has begun the passes over `nodes`. */
  ghost predicate Proper(m: Move, s0: Stores, s: Stores, nodes: seq<Node>) {
    Kept(m, s0, s, nodes) && Framed(m, s0, s)
  }

  ghost predicate AllProper(m: Move, s0: Stores, before: seq<Stores>, history: seq<Stores>, nodes: seq<Node>) {
    forall s :: s in history ==> s in before || Proper(m, s0, s, nodes)
  }

  lemma ProperStage(m: Move, s0: Stores, s: Stores, nodes: seq<Node>, o: Node, k: Bytes, s': Stores)
    requires Proper(m, s0, s, nodes) && nodes != [] && Last(nodes) == o && Goes(m, k) && Stage(m, s, o, k, s')
    ensures Proper(m, s0, s', nodes)
  {
    hide Kept, Framed, Goes, Stage;
    StageKeeps(m, s0, s, nodes, o, k, s');
    StageFrames(m, s0, s, o, k, s');
  }

  // One key's requests keep all that holds so far.
  lemma KeyMoved(m: Move, s0: Stores, s: Stores, nodes: seq<Node>, o: Node, k: Bytes, s': Stores,
                 before: seq<Stores>, h: seq<Stores>, h': seq<Stores>)
    requires Proper(m, s0, s, nodes) && nodes != [] && Last(nodes) == o && Goes(m, k) && Stage(m, s, o, k, s')
    requires AllProper(m, s0, before, h, nodes) && forall x :: x in h' ==> x in h || Stage(m, s, o, k, x)
    ensures Proper(m, s0, s', nodes) && AllProper(m, s0, before, h', nodes)
  {
    hide Proper, Goes, Stage;
    ProperStage(m, s0, s, nodes, o, k, s');
    forall x | x in h' && x !in before ensures Proper(m, s0, x, nodes) {
      if x !in h {
        ProperStage(m, s0, s, nodes, o, k, x);
      }
    }
  }

  lemma ProperLater(m: Move, s0: Stores, s: Stores, nodes: seq<Node>, o: Node)
    requires Proper(m, s0, s, nodes)
    ensures Proper(m, s0, s, nodes + [o])
  {
    hide Framed, Conserved, Unique;
    if Unique(s0) {
      NextPass(m, s0, s, nodes, o);
    }
  }

  lemma AllProperLater(m: Move, s0: Stores, before: seq<Stores>, history: seq<Stores>, nodes: seq<Node>, o: Node)
    requires AllProper(m, s0, before, history, nodes)
    ensures AllProper(m, s0, before, history, nodes + [o])
  {
    hide Proper;
    forall s | s in history && s !in before ensures Proper(m, s0, s, nodes + [o]) {
      ProperLater(m, s0, s, nodes, o);
    }
  }

  lemma ProperStart(m: Move, s: Stores)
    ensures Proper(m, s, s, [])
  {
    hide Conserved, Unique, Goes;
    StartConserved(m, s);
  }

  /** All keys of one old node; `clean` says that no request has failed. */
  method MigrateNode(cluster: Cluster, oldNode: Node, newNode: Node, proxy: Proxy, ghost m: Move, ghost s0: Stores,
                     ghost before: seq<Stores>, ghost nodes: seq<Node>) returns (clean: bool)
    requires m == Move(proxy.ring.State(), proxy.ring.hashFunc, newNode, cluster.carry) && Sorted(proxy.ring.keys)
    requires Proper(m, s0, cluster.stores, nodes) && AllProper(m, s0, before, cluster.history, nodes)
    modifies cluster
    ensures Proper(m, s0, cluster.stores, nodes + [oldNode])
    ensures AllProper(m, s0, before, cluster.history, nodes + [oldNode])
    ensures clean ==> cluster.stores == Passed(m, old(cluster.stores), oldNode)
    ensures cluster.failures >= old(cluster.failures) && (clean ==> cluster.failures == old(cluster.failures))
    ensures cluster.failures == old(cluster.failures) ==>
              oldNode in old(cluster.stores) && newNode in old(cluster.stores) ==> clean
    ensures cluster.failed >= old(cluster.failed) && Framed(m, old(cluster.stores), cluster.stores)
    ensures newNode in old(cluster.stores) ==> Done(m, cluster.stores, oldNode, cluster.failed)
  {
    hide Proper, AllProper, PassedPart, Routes, Goes, Stage, Framed, Done, Passing;
    ghost var now, start := nodes + [oldNode], cluster.stores;
    ProperLater(m, s0, start, nodes, oldNode);
    AllProperLater(m, s0, before, cluster.history, nodes, oldNode);
    var keys := cluster.GetKeys(oldNode);
    PassingStarts(m, start, oldNode, if keys.Some? then keys.value else [], cluster.failed);
    if keys.None? {
      return false;
    }
    PartNothing(m, start, oldNode);
    assert Treated(keys.value, 0) == {};
    clean := true;
    var i := 0;
    while i < |keys.value|
      invariant m.ring == proxy.ring.State()
      invariant 0 <= i <= |keys.value|
      invariant Proper(m, s0, cluster.stores, now) && AllProper(m, s0, before, cluster.history, now)
      invariant clean ==> cluster.stores == PassedPart(m, start, oldNode, Treated(keys.value, i))
      invariant cluster.failures >= old(cluster.failures) && (clean ==> cluster.failures == old(cluster.failures))
      invariant cluster.failures == old(cluster.failures) && newNode in start ==> clean
      invariant cluster.failed >= old(cluster.failed)
      invariant Passing(m, start, oldNode, keys.value, i, cluster.stores, cluster.failed)
    {
      var key := keys.value[i];
      ghost var s, h, failed := cluster.stores, cluster.history, cluster.failed;
      var target := proxy.GetNode(key);
      IsGoing(m, key, target);
      TreatedNext(keys.value, i);
      if target == newNode {
        if clean && newNode in start {
          StillThere(m, start, oldNode, keys.value, i);
        }
        var ok := MoveKey(cluster, oldNode, newNode, key, m);
        KeyMoved(m, s0, s, now, oldNode, key, cluster.stores, before, h, cluster.history);
        PassingOn(m, start, oldNode, keys.value, i, s, failed, cluster.stores, cluster.failed);
        if clean && ok {
          PartKeys(m, start, oldNode, Treated(keys.value, i));
          PartMoved(m, start, oldNode, Treated(keys.value, i), key);
        }
        clean := clean && ok;
      } else {
        PartSkipped(m, start, oldNode, Treated(keys.value, i), key);
        PassingBy(m, start, oldNode, keys.value, i, s, failed);
      }
      i := i + 1;
    }
    assert Treated(keys.value, i) == start[oldNode].Keys;
    PassingEnds(m, start, oldNode, keys.value, cluster.stores, cluster.failed);
  }

  // The pass over node `o` has treated the first `i` of its keys.
  ghost predicate Passing(m: Move, s0: Stores, o: Node, keys: seq<Bytes>, i: nat, s: Stores, failed: set<Failure>)
    requires i <= |keys|
  {
    && Framed(m, s0, s) && o in s && o in s0 && s[o].Keys <= s0[o].Keys
    && (m.newNode in s0 ==> forall j :: 0 <= j < i && Goes(m, keys[j]) && Has(s, o, keys[j]) ==> Moving(keys[j]) in failed)
  }

  lemma PassingOn(m: Move, s0: Stores, o: Node, keys: seq<Bytes>, i: nat, s: Stores, failed: set<Failure>,
                  s': Stores, failed': set<Failure>)
    requires i < |keys| && Passing(m, s0, o, keys, i, s, failed) && Goes(m, keys[i]) && Stage(m, s, o, keys[i], s')
    requires failed <= failed' && (Has(s', o, keys[i]) && m.newNode in s ==> Moving(keys[i]) in failed')
    ensures Passing(m, s0, o, keys, i + 1, s', failed')
  {
    StageFrames(m, s0, s, o, keys[i], s');
    hide Goes, Framed;
    assert m.newNode in s0 <==> m.newNode in s by { FramedNodes(m, s0, s); }
    assert o in s' && s'[o].Keys <= s[o].Keys;
  }

  lemma FramedNodes(m: Move, s: Stores, s': Stores)
    requires Framed(m, s, s')
    ensures s'.Keys == s.Keys
  {
  }

  lemma PassingBy(m: Move, s0: Stores, o: Node, keys: seq<Bytes>, i: nat, s: Stores, failed: set<Failure>)
    requires i < |keys| && Passing(m, s0, o, keys, i, s, failed) && !Goes(m, keys[i])
    ensures Passing(m, s0, o, keys, i + 1, s, failed)
  {
    hide Goes, Framed;
  }

  lemma PassingEnds(m: Move, s0: Stores, o: Node, keys: seq<Bytes>, s: Stores, failed: set<Failure>)
    requires Passing(m, s0, o, keys, |keys|, s, failed) && forall k :: k in s0[o] ==> k in keys
    ensures Framed(m, s0, s) && (m.newNode in s0 ==> Done(m, s, o, failed))
  {
    hide Goes, Framed;
  }

  lemma PassingStarts(m: Move, s: Stores, o: Node, keys: seq<Bytes>, failed: set<Failure>)
    ensures Framed(m, s, s) && (o in s ==> Passing(m, s, o, keys, 0, s, failed))
    ensures Listing(o) in failed || o !in s ==> Done(m, s, o, failed)
  {
    hide Goes;
  }

  // A key that has not been treated is still on its node.
  lemma StillThere(m: Move, s: Stores, o: Node, keys: seq<Bytes>, i: nat)
    requires i < |keys| && o in s && m.newNode in s && keys[i] in s[o]
    requires forall j, k :: 0 <= j < k < |keys| ==> keys[j] != keys[k]
    ensures Has(PassedPart(m, s, o, Treated(keys, i)), o, keys[i]) && m.newNode in PassedPart(m, s, o, Treated(keys, i))
  {
    hide Goes;
    assert forall j :: 0 <= j < i ==> keys[j] != keys[i];
  }

  ghost function Treated(keys: seq<Bytes>, i: nat): set<Bytes>
    requires i <= |keys|
  {
    set k | k in keys[..i]
  }

  lemma TreatedNext(keys: seq<Bytes>, i: nat)
    requires i < |keys|
    ensures Treated(keys, i + 1) == Treated(keys, i) + {keys[i]}
  {
    assert keys[..i + 1] == keys[..i] + [keys[i]];
  }

  lemma PartKeys(m: Move, s: Stores, o: Node, done: set<Bytes>)
    ensures PassedPart(m, s, o, done).Keys == s.Keys
  {
    hide Goes;
  }

  /** Whatever goes to the new node has left `n`, unless a request for it has failed, or the one for the keys
      of `n`. */
  ghost predicate Done(m: Move, s: Stores, n: Node, failed: set<Failure>) {
    forall k :: Goes(m, k) && Has(s, n, k) ==> Listing(n) in failed || Moving(k) in failed
  }

  lemma StayDone(m: Move, s: Stores, s': Stores, failed: set<Failure>, failed': set<Failure>)
    requires Framed(m, s, s') && failed <= failed'
    ensures forall n :: n != m.newNode && Done(m, s, n, failed) ==> Done(m, s', n, failed')
  {
    hide Goes;
    forall n, k | n != m.newNode && Done(m, s, n, failed) && Goes(m, k) && Has(s', n, k)
      ensures Listing(n) in failed' || Moving(k) in failed'
    {
      assert FramedAt(m, s, s', n, k);
    }
  }

  lemma ProperNodes(m: Move, s0: Stores, s: Stores, nodes: seq<Node>)
    requires Proper(m, s0, s, nodes)
    ensures s.Keys == s0.Keys
  {
    hide Kept;
  }

  /** migrateData, node after node. In every state on the way, whichever requests fail, the keys are kept; if
      none fails the passes are taken one after the other. */
  method MigrateData(cluster: Cluster, oldNodes: seq<Node>, newNode: Node, proxy: Proxy, ghost m: Move)
    returns (clean: bool)
    requires m == Move(proxy.ring.State(), proxy.ring.hashFunc, newNode, cluster.carry) && Sorted(proxy.ring.keys)
    modifies cluster
    ensures Proper(m, old(cluster.stores), cluster.stores, oldNodes)
    ensures AllProper(m, old(cluster.stores), old(cluster.history), cluster.history, oldNodes)
    ensures clean ==> cluster.stores == PassAll(m, old(cluster.stores), oldNodes)
    ensures cluster.failures >= old(cluster.failures) && (clean ==> cluster.failures == old(cluster.failures))
    ensures cluster.failures == old(cluster.failures) ==> newNode in old(cluster.stores) ==>
              (forall n :: n in oldNodes ==> n in old(cluster.stores)) ==> clean
    ensures newNode in old(cluster.stores) ==>
              forall n :: n in oldNodes && n != newNode ==> Done(m, cluster.stores, n, cluster.failed)
  {
    hide Proper, Passed;
    ghost var s0, before := cluster.stores, cluster.history;
    ProperStart(m, s0);
    clean := true;
    var i := 0;
    while i < |oldNodes|
      invariant 0 <= i <= |oldNodes|
      invariant Proper(m, s0, cluster.stores, oldNodes[..i]) && AllProper(m, s0, before, cluster.history, oldNodes[..i])
      invariant clean ==> cluster.stores == PassAll(m, s0, oldNodes[..i])
      invariant cluster.stores.Keys == s0.Keys
      invariant cluster.failures >= old(cluster.failures) && (clean ==> cluster.failures == old(cluster.failures))
      invariant cluster.failures == old(cluster.failures) ==>
        newNode in s0 && (forall n :: n in oldNodes ==> n in s0) ==> clean
      invariant newNode in s0 ==>
        forall n :: n in oldNodes[..i] && n != newNode ==> Done(m, cluster.stores, n, cluster.failed)
    {
      ghost var s, failed := cluster.stores, cluster.failed;
      Snoc(oldNodes[..i], oldNodes[i]);
      assert oldNodes[..i + 1] == oldNodes[..i] + [oldNodes[i]];
      var ok := MigrateNode(cluster, oldNodes[i], newNode, proxy, m, s0, before, oldNodes[..i]);
      ProperNodes(m, s0, cluster.stores, oldNodes[..i + 1]);
      StayDone(m, s, cluster.stores, failed, cluster.failed);
      clean := clean && ok;
      i := i + 1;
    }
    assert oldNodes[..i] == oldNodes;
  }

  class Proxy {
    const ring: ConsistentHashRing
    var nodes: seq<Node>

    constructor (replicas: nat, fn: Bytes -> nat)
      ensures ring.State() == Ring([], map[]) && ring.State().OK() && nodes == [] && fresh(ring)
    {
      ring := new ConsistentHashRing(replicas, fn);
      nodes := [];
    }

    method AddNode(node: Node)
      modifies this, ring
      ensures Added(old(ring.State()), ring.State(), ring.PositionsOf, [node]) && nodes == old(nodes) + [node]
    {
      ring.AddNode([node]);
      nodes := nodes + [node];
    }

    method GetNode(key: Bytes) returns (node: Node)
      requires Sorted(ring.keys)
      ensures Routes(ring.State(), ring.hashFunc(key), node)
    {
      node := ring.GetNode(key);
    }
  }

  // ---------- Where every key ends ----------

  /** Every key is on the node that the ring sends it to. */
  ghost predicate Placed(r: Ring, hash: Bytes -> nat, s: Stores) {
    forall n, k :: Has(s, n, k) ==> Routes(r, hash(k), n)
  }

  ghost predicate Held(s: Stores, k: Bytes, v: Bytes) {
    exists n :: Has(s, n, k) && s[n][k] == v
  }

  /** The same keys with the same values, wherever they are. */
  ghost predicate SameUnion(s: Stores, s': Stores) {
    forall k, v :: Held(s, k, v) <==> Held(s', k, v)
  }

  /** The value of each key that is not doomed can be had from some node, as it was or as it travelled. */
  ghost predicate NothingGone(m: Move, s0: Stores, s: Stores, nodes: seq<Node>) {
    forall n, k :: Has(s0, n, k) && !Doomed(m, nodes, n, k) ==> Held(s, k, s0[n][k]) || Held(s, k, m.carry(s0[n][k]))
  }

  ghost predicate Unharmed(m: Move, s0: Stores) {
    forall n, k :: Has(s0, n, k) ==> m.carry(s0[n][k]) == s0[n][k]
  }

  /** In every state of a migration nothing is gone but doomed keys; so if the new node is not among the old
      ones and values travel unharmed, the contents are the same throughout. */
  lemma ConservedIsKept(m: Move, s0: Stores, s: Stores, nodes: seq<Node>)
    requires Conserved(m, s0, s, nodes)
    ensures NothingGone(m, s0, s, nodes)
    ensures m.newNode !in nodes && Unharmed(m, s0) ==> SameUnion(s0, s)
  {
    hide Goes, Overtaken;
    forall n, k | Has(s0, n, k) && !Doomed(m, nodes, n, k)
      ensures Held(s, k, s0[n][k]) || Held(s, k, m.carry(s0[n][k]))
    {
      assert KeyKept(m, s0, s, nodes, n, k);
    }
    if m.newNode !in nodes && Unharmed(m, s0) {
      NotOvertaken(nodes, m.newNode);
      hide KeyKept;
      forall k, v ensures Held(s0, k, v) <==> Held(s, k, v) {
        if Held(s, k, v) {
          var n :| Has(s, n, k) && s[n][k] == v;
          HeldBefore(m, s0, s, nodes, n, k);
        }
      }
    }
  }

  // What a node has while nothing is doomed or changed, some node had before.
  lemma HeldBefore(m: Move, s0: Stores, s: Stores, nodes: seq<Node>, n: Node, k: Bytes)
    requires Has(s, n, k) && Conserved(m, s0, s, nodes) && Unharmed(m, s0) && forall x :: !Overtaken(nodes, x, m.newNode)
    ensures Held(s0, k, s[n][k])
  {
    hide Goes, Overtaken;
    assert KeyKept(m, s0, s, nodes, n, k);
    if n == m.newNode {
      var o :| Origin(m, s0, s, nodes, o, k);
      assert Has(s0, o, k) && s0[o][k] == s[n][k];
    }
  }

  lemma NotOvertaken(nodes: seq<Node>, newNode: Node)
    requires newNode !in nodes
    ensures forall n :: !Overtaken(nodes, n, newNode)
  {
  }

  /** Where the key of node `n` is after all passes: on `n`, on the new node, or nowhere. */
  ghost predicate EndsAt(m: Move, s0: Stores, s: Stores, nodes: seq<Node>, n: Node, k: Bytes)
    requires Has(s0, n, k)
  {
    if Doomed(m, nodes, n, k) then forall x :: !Has(s, x, k)
    else if Goes(m, k) && n in nodes then OnlyAt(s, m.newNode, k, m.carry(s0[n][k]))
    else OnlyAt(s, n, k, s0[n][k])
  }

  ghost predicate OnlyAt(s: Stores, n: Node, k: Bytes, v: Bytes) {
    Has(s, n, k) && s[n][k] == v && forall x :: Has(s, x, k) ==> x == n
  }

  // What one pass does to one key.
  lemma PassedAt(m: Move, s: Stores, o: Node, k: Bytes)
    requires m.newNode in s
    ensures var s' := Passed(m, s, o);
            if Goes(m, k) && Has(s, o, k) then
              && (forall x :: Has(s', x, k) <==> x != o && (x == m.newNode || Has(s, x, k)))
              && (o != m.newNode ==> s'[m.newNode][k] == m.carry(s[o][k]))
            else forall x :: (Has(s', x, k) <==> Has(s, x, k)) && (Has(s, x, k) ==> s'[x][k] == s[x][k])
    ensures Passed(m, s, o).Keys == s.Keys
  {
    hide Goes;
    PartKeys(m, s, o, if o in s then s[o].Keys else {});
  }

  /** A migration in which no request fails, exactly: where each key is, and with which value. */
  lemma {:induction false} MigrationExact(m: Move, s0: Stores, nodes: seq<Node>, n: Node, k: Bytes)
    requires Unique(s0) && m.newNode in s0 && Has(s0, n, k)
    ensures EndsAt(m, s0, PassAll(m, s0, nodes), nodes, n, k) && m.newNode in PassAll(m, s0, nodes)
  {
    hide Goes, Overtaken, Passed;
    if nodes == [] {
      assert !Overtaken(nodes, n, m.newNode) by { NotOvertaken(nodes, m.newNode); }
    } else {
      var s, o := PassAll(m, s0, Init(nodes)), Last(nodes);
      MigrationExact(m, s0, Init(nodes), n, k);
      Unsnoc(nodes);
      OvertakenSnoc(Init(nodes), o, n, m.newNode);
      PassedAt(m, s, o, k);
      OvertakenIn(Init(nodes), n, m.newNode);
    }
  }

  lemma OvertakenIn(nodes: seq<Node>, n: Node, newNode: Node)
    ensures Overtaken(nodes, n, newNode) ==> n in nodes
    ensures newNode in nodes ==> Overtaken(nodes, newNode, newNode)
  {
    if newNode in nodes {
      var i :| 0 <= i < |nodes| && nodes[i] == newNode;
    }
  }

  lemma {:induction false} NoNewKeys(m: Move, s0: Stores, nodes: seq<Node>, x: Node, k: Bytes) returns (n: Node)
    requires Has(PassAll(m, s0, nodes), x, k)
    ensures Has(s0, n, k)
  {
    hide Goes;
    if nodes == [] {
      n := x;
    } else {
      var s, o := PassAll(m, s0, Init(nodes)), Last(nodes);
      var y := x;
      if m.newNode in s {
        PassedAt(m, s, o, k);
        hide Passed, PassedPart;
        y := if Goes(m, k) && Has(s, o, k) then o else x;
      }
      n := NoNewKeys(m, s0, Init(nodes), y, k);
    }
  }

  lemma {:induction false} SameNodes(m: Move, s: Stores, nodes: seq<Node>)
    ensures PassAll(m, s, nodes).Keys == s.Keys
  {
    if nodes != [] {
      SameNodes(m, s, Init(nodes));
      var t, o := PassAll(m, s, Init(nodes)), Last(nodes);
      hide PassedPart, Going;
      PartKeys(m, t, o, if o in t then t[o].Keys else {});
    }
  }

  /** The union of all nodes is what it was, exactly if no key that had to move was doomed or was changed on
      the way. */
  lemma CarryExact(m: Move, s0: Stores, nodes: seq<Node>)
    requires Unique(s0) && m.newNode in s0
    ensures SameUnion(s0, PassAll(m, s0, nodes)) <==>
            forall n, k :: Has(s0, n, k) && Goes(m, k) && n in nodes ==>
              !Overtaken(nodes, n, m.newNode) && m.carry(s0[n][k]) == s0[n][k]
  {
    hide Goes, Overtaken, PassAll, Unique;
    var s := PassAll(m, s0, nodes);
    forall n, k | Has(s0, n, k) ensures EndsAt(m, s0, s, nodes, n, k) {
      MigrationExact(m, s0, nodes, n, k);
    }
    if SameUnion(s0, s) {
      forall n, k | Has(s0, n, k) && Goes(m, k) && n in nodes
        ensures !Overtaken(nodes, n, m.newNode) && m.carry(s0[n][k]) == s0[n][k]
      {
        SameKey(m, s0, s, nodes, n, k);
      }
    }
    if forall n, k :: Has(s0, n, k) && Goes(m, k) && n in nodes ==>
         !Overtaken(nodes, n, m.newNode) && m.carry(s0[n][k]) == s0[n][k] {
      forall k, v ensures Held(s0, k, v) <==> Held(s, k, v) {
        if Held(s0, k, v) {
          var n :| Has(s0, n, k) && s0[n][k] == v;
          StillHeld(m, s0, s, nodes, n, k);
        }
        if Held(s, k, v) {
          var x :| Has(s, x, k) && s[x][k] == v;
          var n := NoNewKeys(m, s0, nodes, x, k);
          StillHeld(m, s0, s, nodes, n, k);
          assert Held(s0, k, s0[n][k]);
        }
      }
    }
  }

  lemma SameKey(m: Move, s0: Stores, s: Stores, nodes: seq<Node>, n: Node, k: Bytes)
    requires Unique(s0) && Has(s0, n, k) && EndsAt(m, s0, s, nodes, n, k) && SameUnion(s0, s)
    requires Goes(m, k) && n in nodes
    ensures !Overtaken(nodes, n, m.newNode) && m.carry(s0[n][k]) == s0[n][k]
  {
    hide Goes, Overtaken;
    assert Held(s0, k, s0[n][k]);
    assert Held(s, k, s0[n][k]);
  }

  // A key that is neither doomed nor changed is on one node, with its value.
  lemma StillHeld(m: Move, s0: Stores, s: Stores, nodes: seq<Node>, n: Node, k: Bytes)
    requires Has(s0, n, k) && EndsAt(m, s0, s, nodes, n, k)
    requires Goes(m, k) && n in nodes ==> !Overtaken(nodes, n, m.newNode) && m.carry(s0[n][k]) == s0[n][k]
    ensures Held(s, k, s0[n][k]) && forall x :: Has(s, x, k) ==> s[x][k] == s0[n][k]
  {
    hide Goes, Overtaken;
    OvertakenIn(nodes, n, m.newNode);
  }

  /** After a migration of placed stores in which no request fails, every key is where the new ring sends it. */
  lemma PlacedAfter(r0: Ring, f: Node -> seq<nat>, m: Move, s0: Stores, nodes: seq<Node>)
    requires r0.OK() && Added(r0, m.ring, f, [m.newNode]) && Placed(r0, m.hash, s0) && m.newNode in s0
    requires forall n :: n in s0 && n != m.newNode ==> n in nodes
    ensures Placed(m.ring, m.hash, PassAll(m, s0, nodes))
  {
    hide Added, Routes, PassAll, Overtaken;
    PlacedOnce(r0, m.hash, s0);
    forall x, k | Has(PassAll(m, s0, nodes), x, k) ensures Routes(m.ring, m.hash(k), x) {
      var n := NoNewKeys(m, s0, nodes, x, k);
      MigrationExact(m, s0, nodes, n, k);
      var y := RouteExists(m.ring, m.hash(k));
      AddMoves(r0, m.ring, f, [m.newNode], m.hash(k), n, y);
    }
  }

  lemma PlacedOnce(r: Ring, hash: Bytes -> nat, s: Stores)
    requires Placed(r, hash, s)
    ensures Unique(s)
  {
    hide Routes;
    forall n, n', k | Has(s, n, k) && Has(s, n', k) ensures n == n' {
      RoutesUnique(r, hash(k), n, n');
    }
  }

  /** A node that is added twice: if no request fails, every key of it is put on itself and deleted, and then
      is on no node; all other nodes stay as they are. So the contents survive exactly if it held nothing. */
  lemma AddedTwice(m: Move, s0: Stores, nodes: seq<Node>)
    requires Placed(m.ring, m.hash, s0) && m.newNode in s0 && m.newNode in nodes
    ensures PassAll(m, s0, nodes) == s0[m.newNode := map[]]
    ensures SameUnion(s0, PassAll(m, s0, nodes)) <==> s0[m.newNode] == map[]
  {
    hide Routes, PassAll, Overtaken;
    PlacedOnce(m.ring, m.hash, s0);
    SameNodes(m, s0, nodes);
    OvertakenIn(nodes, m.newNode, m.newNode);
    var s, e := PassAll(m, s0, nodes), s0[m.newNode := map[]];
    forall n, k | Has(s0, n, k) ensures n == m.newNode <==> Goes(m, k) {
      RoutesOnce(m, n, k);
    }
    forall x | x in s ensures s[x] == e[x] {
      forall k ensures (k in s[x] <==> k in e[x]) && (k in s[x] ==> s[x][k] == e[x][k]) {
        if Has(s, x, k) {
          var n := NoNewKeys(m, s0, nodes, x, k);
          MigrationExact(m, s0, nodes, n, k);
        }
        if Has(s0, x, k) {
          MigrationExact(m, s0, nodes, x, k);
        }
      }
    }
    assert s == e;
    CarryExact(m, s0, nodes);
    if s0[m.newNode] != map[] {
      var k :| k in s0[m.newNode];
      assert Has(s0, m.newNode, k);
    }
  }

  lemma RoutesOnce(m: Move, n: Node, k: Bytes)
    requires Routes(m.ring, m.hash(k), n)
    ensures n == m.newNode <==> Goes(m, k)
  {
    if n != m.newNode {
      OnlyRoute(m.ring, m.hash(k), n, m.newNode);
    }
  }

  // Adding the node a second time leaves the keys placed, if its positions are its own.
  lemma PlacedStill(r0: Ring, f: Node -> seq<nat>, m: Move, s0: Stores)
    requires r0.OK() && Added(r0, m.ring, f, [m.newNode]) && Placed(r0, m.hash, s0) && Owns(r0, f, m.newNode)
    ensures Placed(m.ring, m.hash, s0)
  {
    hide Routes, Added, Owns;
    forall n, k | Has(s0, n, k) ensures Routes(m.ring, m.hash(k), n) {
      AddAgain(r0, m.ring, f, m.newNode, m.hash(k), n);
    }
  }

  /** The /add-node request: the node joins the ring, and the keys it takes over are moved to it. In every
      state on the way, whichever requests fail, the value of each key is on some node, unless a pass over the
      new node itself comes after the key was put there; keys that the new node does not take over stay as
      they are. If no request fails every key ends where the new ring sends it; a node that was there already
      loses all it has. */
  method AddAndMigrate(proxy: Proxy, cluster: Cluster, newNode: Node) returns (clean: bool)
    modifies proxy, proxy.ring, cluster
    ensures Added(old(proxy.ring.State()), proxy.ring.State(), proxy.ring.PositionsOf, [newNode])
    ensures proxy.nodes == old(proxy.nodes) + [newNode]
    ensures var m, s0 := Move(proxy.ring.State(), proxy.ring.hashFunc, newNode, cluster.carry), old(cluster.stores);
            var r0, nodes := old(proxy.ring.State()), old(proxy.nodes);
            && Proper(m, s0, cluster.stores, nodes)
            && AllProper(m, s0, old(cluster.history), cluster.history, nodes)
            && (clean ==> cluster.stores == PassAll(m, s0, nodes))
            && (cluster.failures == old(cluster.failures) ==> newNode in s0 && (forall n :: n in nodes ==> n in s0) ==> clean)
            && (newNode in s0 ==> forall n :: n in nodes && n != newNode ==> Done(m, cluster.stores, n, cluster.failed))
            && (clean && newNode in s0 ==> Migrated(r0, proxy.ring.PositionsOf, m, s0, cluster.stores, nodes))
  {
    hide Proper, AllProper, PassAll, Migrated, Added;
    ghost var s0, r0 := cluster.stores, proxy.ring.State();
    var oldNodes := proxy.nodes;
    proxy.AddNode(newNode);
    ghost var m := Move(proxy.ring.State(), proxy.ring.hashFunc, newNode, cluster.carry);
    assert Sorted(proxy.ring.keys) by { SortedAfter(r0, m.ring, proxy.ring.PositionsOf, newNode); }
    clean := MigrateData(cluster, oldNodes, newNode, proxy, m);
    if clean && newNode in s0 {
      MigratedOK(r0, proxy.ring.PositionsOf, m, s0, oldNodes);
    }
  }

  lemma SortedAfter(r: Ring, r': Ring, f: Node -> seq<nat>, node: Node)
    requires Added(r, r', f, [node])
    ensures Sorted(r'.keys)
  {
  }

  /** What a migration in which no request fails achieves. */
  ghost predicate Migrated(r0: Ring, f: Node -> seq<nat>, m: Move, s0: Stores, s: Stores, nodes: seq<Node>) {
    && (Unique(s0) ==> forall n, k :: Has(s0, n, k) ==> EndsAt(m, s0, s, nodes, n, k))
    && (r0.OK() && Placed(r0, m.hash, s0) && (forall n :: n in s0 && n != m.newNode ==> n in nodes) ==>
          Placed(m.ring, m.hash, s))
    && (r0.OK() && Placed(r0, m.hash, s0) && m.newNode in nodes && Owns(r0, f, m.newNode) ==>
          s == s0[m.newNode := map[]])
  }

  lemma MigratedOK(r0: Ring, f: Node -> seq<nat>, m: Move, s0: Stores, nodes: seq<Node>)
    requires Added(r0, m.ring, f, [m.newNode]) && m.newNode in s0
    ensures Migrated(r0, f, m, s0, PassAll(m, s0, nodes), nodes)
  {
    hide Added, Placed, Unique, EndsAt, PassAll, Owns, Ring.OK;
    if Unique(s0) {
      forall n, k | Has(s0, n, k) ensures EndsAt(m, s0, PassAll(m, s0, nodes), nodes, n, k) {
        MigrationExact(m, s0, nodes, n, k);
      }
    }
    if r0.OK() && Placed(r0, m.hash, s0) {
      if forall n :: n in s0 && n != m.newNode ==> n in nodes {
        PlacedAfter(r0, f, m, s0, nodes);
      }
      if m.newNode in nodes && Owns(r0, f, m.newNode) {
        PlacedStill(r0, f, m, s0);
        AddedTwice(m, s0, nodes);
      }
    }
  }

  /** What holds in every state of a migration, in terms of contents. */
  lemma ProperIsKept(m: Move, s0: Stores, s: Stores, nodes: seq<Node>)
    requires Proper(m, s0, s, nodes) && Unique(s0)
    ensures NothingGone(m, s0, s, nodes)
    ensures m.newNode !in nodes && Unharmed(m, s0) ==> SameUnion(s0, s)
  {
    hide Conserved, Unique, Framed;
    ConservedIsKept(m, s0, s, nodes);
  }
}
