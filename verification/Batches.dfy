/** Batches: pending writes with hash buckets for lookup, reads that see them, commit and rollback. */
module Batches {
  import opened Record
  import opened Seqs
  import opened Log
  import opened Wal
  import opened Store
  import opened Committing
  import opened Engine

  datatype Error =
    | Nil | KeyIsEmpty | KeyNotFound | DBClosed | ReadOnlyBatch | BatchCommitted | BatchRollbacked | PendingTooLarge

  // ---------- Pending writes ----------

  datatype Write = Write(typ: Byte, value: Bytes, expire: int)

  function WriteOf(r: LogRecord): Write {
    Write(r.typ, r.value, r.expire)
  }

  function PendingMap(ws: seq<LogRecord>): map<Bytes, Write> {
    if ws == [] then map[] else PendingMap(Init(ws))[Last(ws).key := WriteOf(Last(ws))]
  }

  type Buckets = map<int, seq<nat>>

  function Bucket(b: Buckets, h: int): seq<nat> {
    if h in b then b[h] else []
  }

  /** The indices of the pending writes whose keys hash to `h`, in order. */
  function BucketOf(ws: seq<LogRecord>, hash: Bytes -> int, h: int): seq<nat> {
    if ws == [] then []
    else if hash(Last(ws).key) == h then BucketOf(Init(ws), hash, h) + [|ws| - 1]
    else BucketOf(Init(ws), hash, h)
  }

  /** Keys are distinct, every write is a put or a delete (deletes carry no expiry time), and the
      buckets are exactly the index of the writes by hash, however the hash function collides. */
  ghost predicate PendingOK(ws: seq<LogRecord>, buckets: Buckets, hash: Bytes -> int) {
    && (forall i :: 0 <= i < |ws| ==> WriteOK(ws[i]))
    && (forall i, j :: 0 <= i < j < |ws| ==> ws[i].key != ws[j].key)
    && (forall h :: Bucket(buckets, h) == BucketOf(ws, hash, h))
  }

  ghost predicate WriteOK(w: LogRecord) {
    w.key != [] && (w.typ == NORMAL || (w.typ == DELETED && w.expire == 0))
  }

  lemma {:induction false} InBucket(ws: seq<LogRecord>, hash: Bytes -> int, h: int, i: nat)
    ensures i in BucketOf(ws, hash, h) <==> i < |ws| && hash(ws[i].key) == h
  {
    if ws != [] {
      InBucket(Init(ws), hash, h, i);
    }
  }

  lemma {:induction false} PendingAt(ws: seq<LogRecord>, i: nat)
    requires i < |ws| && forall i, j :: 0 <= i < j < |ws| ==> ws[i].key != ws[j].key
    ensures ws[i].key in PendingMap(ws) && PendingMap(ws)[ws[i].key] == WriteOf(ws[i])
  {
    if i < |ws| - 1 {
      PendingAt(Init(ws), i);
      assert ws[i].key != ws[|ws| - 1].key;
    }
  }

  lemma {:induction false} PendingKey(ws: seq<LogRecord>, k: Bytes)
    ensures k in PendingMap(ws) <==> exists i :: 0 <= i < |ws| && ws[i].key == k
  {
    if ws != [] {
      PendingKey(Init(ws), k);
      if k in PendingMap(ws) && k != Last(ws).key {
        var i :| 0 <= i < |Init(ws)| && Init(ws)[i].key == k;
        assert ws[i].key == k;
      }
      if i :| 0 <= i < |ws| && ws[i].key == k {
        if i < |ws| - 1 { assert Init(ws)[i].key == k; }
      }
    }
  }

  // Changing the write at one index in place.
  lemma {:induction false} PendingUpdate(ws: seq<LogRecord>, i: nat, w: LogRecord)
    requires i < |ws| && ws[i].key == w.key
    requires forall i, j :: 0 <= i < j < |ws| ==> ws[i].key != ws[j].key
    ensures PendingMap(ws[i := w]) == PendingMap(ws)[w.key := WriteOf(w)]
  {
    if i < |ws| - 1 {
      PendingUpdate(Init(ws), i, w);
      assert Init(ws[i := w]) == Init(ws)[i := w];
      assert Last(ws[i := w]) == Last(ws);
      assert ws[i].key != ws[|ws| - 1].key;
    } else {
      assert Init(ws[i := w]) == Init(ws);
    }
  }

  lemma {:induction false} BucketUpdate(ws: seq<LogRecord>, hash: Bytes -> int, h: int, i: nat, w: LogRecord)
    requires i < |ws| && ws[i].key == w.key
    ensures BucketOf(ws[i := w], hash, h) == BucketOf(ws, hash, h)
  {
    if i < |ws| - 1 {
      BucketUpdate(Init(ws), hash, h, i, w);
      assert Init(ws[i := w]) == Init(ws)[i := w];
    } else {
      assert Init(ws[i := w]) == Init(ws);
    }
  }

  // ---------- Reading through the pending writes ----------

  lemma {:induction false} OverlayAt(m: Contents, ws: seq<LogRecord>, k: Bytes)
    ensures var o, p := Overlay(m, ws), PendingMap(ws);
            if k !in p then (k in o <==> k in m) && (k in o ==> o[k] == m[k])
            else if p[k].typ == DELETED then k !in o
            else k in o && o[k] == Stored(p[k].value, p[k].expire)
  {
    if ws != [] {
      OverlayAt(m, Init(ws), k);
    }
  }

  /** One key's answer. */
  lemma AnswerAt(base: Contents, ws: seq<LogRecord>, now: nat, k: Bytes)
    ensures var a, p := Answers(base, ws, now), PendingMap(ws);
            if k in p then
              (k in a <==> p[k].typ != DELETED && !ExpiredAt(p[k].expire, now))
              && (k in a ==> a[k] == Stored(p[k].value, p[k].expire))
            else
              (k in a <==> k in base && !ExpiredAt(base[k].expire, now)) && (k in a ==> a[k] == base[k])
  {
    OverlayAt(base, ws, k);
  }

  // ---------- The batch object ----------

  class Batch {
    const db: DB
    const hash: Bytes -> int
    const readOnly: bool
    var pendingWrites: seq<LogRecord>
    var pendingWritesMap: Buckets
    var committed: bool
    var rollbacked: bool

    ghost predicate Valid()
      reads this, db
    {
      db.Valid() && PendingOK(pendingWrites, pendingWritesMap, hash)
    }

    ghost function Pending(): map<Bytes, Write>
      reads this
    {
      PendingMap(pendingWrites)
    }

    constructor (db: DB, hash: Bytes -> int, readOnly: bool)
      requires db.Valid()
      ensures Valid() && this.db == db && this.hash == hash && this.readOnly == readOnly
      ensures pendingWrites == [] && !committed && !rollbacked
    {
      this.db, this.hash, this.readOnly := db, hash, readOnly;
      pendingWrites, pendingWritesMap, committed, rollbacked := [], map[], false, false;
    }

    /** lookupPendingWrites: the index of the key's record, or -1. */
    method LookupPendingWrites(key: Bytes) returns (r: int)
      requires PendingOK(pendingWrites, pendingWritesMap, hash)
      ensures r == -1 <==> key !in Pending()
      ensures r != -1 ==> 0 <= r < |pendingWrites| && pendingWrites[r].key == key
      ensures r != -1 ==> Pending()[key] == WriteOf(pendingWrites[r])
      ensures r != -1 ==> WriteOK(pendingWrites[r])
      ensures r == -1 ==> forall i :: 0 <= i < |pendingWrites| ==> pendingWrites[i].key != key
    {
      PendingKey(pendingWrites, key);
      var bucket := Bucket(pendingWritesMap, hash(key));
      forall i: nat ensures i in bucket <==> i < |pendingWrites| && hash(pendingWrites[i].key) == hash(key) {
        InBucket(pendingWrites, hash, hash(key), i);
      }
      var n := 0;
      while n < |bucket|
        invariant 0 <= n <= |bucket|
        invariant forall j :: 0 <= j < n ==> bucket[j] < |pendingWrites| && pendingWrites[bucket[j]].key != key
      {
        assert bucket[n] in bucket;
        if pendingWrites[bucket[n]].key == key {
          PendingAt(pendingWrites, bucket[n]);
          return bucket[n];
        }
        n := n + 1;
      }
      forall i | 0 <= i < |pendingWrites| ensures pendingWrites[i].key != key {
        if hash(pendingWrites[i].key) == hash(key) {
          assert i in bucket;
        }
      }
      r := -1;
    }

    /** appendPendingWrites. */
    method AppendPendingWrites(key: Bytes, record: LogRecord)
      requires PendingOK(pendingWrites, pendingWritesMap, hash)
      requires record.key == key && WriteOK(record)
      requires forall i :: 0 <= i < |pendingWrites| ==> pendingWrites[i].key != key
      modifies this`pendingWrites, this`pendingWritesMap
      ensures PendingOK(pendingWrites, pendingWritesMap, hash)
      ensures pendingWrites == old(pendingWrites) + [record]
      ensures Pending() == old(Pending())[key := WriteOf(record)]
    {
      ghost var before := pendingWrites;
      pendingWrites := pendingWrites + [record];
      var hashKey := hash(key);
      pendingWritesMap := pendingWritesMap[hashKey := Bucket(pendingWritesMap, hashKey) + [|pendingWrites| - 1]];
      Snoc(before, record);
      forall h ensures Bucket(pendingWritesMap, h) == BucketOf(pendingWrites, hash, h) {
        assert Bucket(old(pendingWritesMap), h) == BucketOf(before, hash, h);
      }
    }

    // Overwriting the record at index `i`, which the source does through its pointer.
    method UpdatePending(i: nat, record: LogRecord)
      requires PendingOK(pendingWrites, pendingWritesMap, hash)
      requires i < |pendingWrites| && record.key == pendingWrites[i].key && WriteOK(record)
      modifies this`pendingWrites
      ensures PendingOK(pendingWrites, pendingWritesMap, hash)
      ensures pendingWrites == old(pendingWrites)[i := record]
      ensures Pending() == old(Pending())[record.key := WriteOf(record)]
    {
      PendingUpdate(pendingWrites, i, record);
      forall h ensures BucketOf(pendingWrites[i := record], hash, h) == BucketOf(pendingWrites, hash, h) {
        BucketUpdate(pendingWrites, hash, h, i, record);
      }
      ghost var before := pendingWrites;
      pendingWrites := pendingWrites[i := record];
      forall h ensures Bucket(pendingWritesMap, h) == BucketOf(pendingWrites, hash, h) {
        assert Bucket(pendingWritesMap, h) == BucketOf(before, hash, h);
      }
    }

    /** The checks every write operation makes first. */
    function Refusal(key: Bytes): Error
      reads this, db
    {
      if key == [] then KeyIsEmpty else if db.closed then DBClosed else if readOnly then ReadOnlyBatch else Nil
    }

    /** Put and PutWithTTL: `expire` is 0 or the end of the time to live. */
    method Put(key: Bytes, value: Bytes, expire: int) returns (err: Error)
      requires Valid()
      modifies this`pendingWrites, this`pendingWritesMap
      ensures Valid()
      ensures err == if key == [] then KeyIsEmpty else if db.closed then DBClosed
                     else if readOnly then ReadOnlyBatch else Nil
      ensures Pending() == if err == Nil then old(Pending())[key := Write(NORMAL, value, expire)] else old(Pending())
    {
      hide Inv, Holds, PendingMap, PendingOK;
      err := Refusal(key);
      if err != Nil {
        return;
      }
      var i := LookupPendingWrites(key);
      if i == -1 {
        AppendPendingWrites(key, LogRecord(key, value, NORMAL, 0, expire));
      } else {
        UpdatePending(i, pendingWrites[i].(key := key, value := value, typ := NORMAL, expire := expire));
      }
    }

    method Delete(key: Bytes) returns (err: Error)
      requires Valid()
      modifies this`pendingWrites, this`pendingWritesMap
      ensures Valid()
      ensures err == if key == [] then KeyIsEmpty else if db.closed then DBClosed
                     else if readOnly then ReadOnlyBatch else Nil
      ensures Pending() == if err == Nil then old(Pending())[key := Write(DELETED, [], 0)] else old(Pending())
    {
      hide Inv, Holds, PendingMap, PendingOK;
      err := Refusal(key);
      if err != Nil {
        return;
      }
      var i := LookupPendingWrites(key);
      if i == -1 {
        AppendPendingWrites(key, LogRecord(key, [], DELETED, 0, 0));
      } else {
        UpdatePending(i, pendingWrites[i].(typ := DELETED, value := [], expire := 0));
      }
    }

    // ---------- Reading ----------

    /** Whether a read is refused. */
    function ReadRefusal(key: Bytes): Error
      reads db
    {
      if key == [] then KeyIsEmpty else if db.closed then DBClosed else Nil
    }

    /** The contents that this batch shows at `now`. */
    ghost function Seen(now: nat): Contents
      reads this, db
    {
      Answers(View(db.st, now), pendingWrites, now)
    }

    /** Get: the value that the pending writes, laid over the database, give the key. */
    method Get(key: Bytes, now: nat) returns (value: Bytes, err: Error)
      requires Valid() && now >= db.st.clock
      modifies db`index, db`st
      ensures Valid()
      ensures err == if key == [] then KeyIsEmpty else if db.closed then DBClosed
                     else if key in old(Seen(now)) then Nil else KeyNotFound
      ensures value == if err == Nil then old(Seen(now))[key].value else []
      ensures db.st == if key == [] || db.closed || key in Pending() then old(db.st) else Touch(old(db.st), key, now)
    {
      hide Inv, Holds, Answers, PendingMap, PendingOK, View, Touch;
      err, value := ReadRefusal(key), [];
      if err != Nil {
        return;
      }
      AnswerAt(View(db.st, now), pendingWrites, now, key);
      ViewUnexpired(db.st, now, key);
      var i := LookupPendingWrites(key);
      if i != -1 {
        var record := pendingWrites[i];
        if record.typ == DELETED || record.IsExpired(now) {
          err := KeyNotFound;
        } else {
          value := record.value;
        }
        return;
      }
      var r := db.Fetch(key, now);
      match r {
        case None => err := KeyNotFound;
        case Some(record) => value := record.value;
      }
    }

    /** Exist. */
    method Exist(key: Bytes, now: nat) returns (exist: bool, err: Error)
      requires Valid() && now >= db.st.clock
      modifies db`index, db`st
      ensures Valid() && err == if key == [] then KeyIsEmpty else if db.closed then DBClosed else Nil
      ensures exist <==> err == Nil && key in old(Seen(now))
      ensures db.st == if key == [] || db.closed || key in Pending() then old(db.st) else Touch(old(db.st), key, now)
    {
      hide Inv, Holds, Answers, PendingMap, PendingOK, View, Touch;
      err, exist := ReadRefusal(key), false;
      if err != Nil {
        return;
      }
      AnswerAt(View(db.st, now), pendingWrites, now, key);
      ViewUnexpired(db.st, now, key);
      var i := LookupPendingWrites(key);
      if i != -1 {
        exist := pendingWrites[i].typ != DELETED && !pendingWrites[i].IsExpired(now);
        return;
      }
      var r := db.Fetch(key, now);
      exist := r.Some?;
    }

    /** What Expire and Persist begin with: the record that the batch shows for the key, and its index
        among the pending writes, or -1 if it comes from the database (batch.go:309-337). */
    method FindShown(key: Bytes, now: nat) returns (found: Option<LogRecord>, i: int)
      requires Valid() && now >= db.st.clock
      modifies db`index, db`st
      ensures db.Valid() && db.st == if key in Pending() then old(db.st) else Touch(old(db.st), key, now)
      ensures found.Some? <==> key in old(Seen(now))
      ensures found.Some? ==> found.value.key == key && found.value.typ == NORMAL
      ensures found.Some? ==> StoredOf(found.value) == old(Seen(now))[key]
      ensures i == -1 <==> key !in Pending()
      ensures i != -1 ==> 0 <= i < |pendingWrites| && pendingWrites[i].key == key
      ensures i != -1 && found.Some? ==> pendingWrites[i] == found.value
    {
      hide Inv, Holds, Answers, PendingMap, PendingOK, View, Touch;
      AnswerAt(View(db.st, now), pendingWrites, now, key);
      ViewUnexpired(db.st, now, key);
      i := LookupPendingWrites(key);
      if i != -1 {
        var record := pendingWrites[i];
        found := if record.typ == DELETED || record.IsExpired(now) then None else Some(record);
      } else {
        found := db.Fetch(key, now);
      }
    }

    // Puts the record where it belongs among the pending writes.
    method SetPending(i: int, key: Bytes, record: LogRecord)
      requires Valid() && record.key == key && WriteOK(record)
      requires i == -1 <==> key !in Pending()
      requires i != -1 ==> 0 <= i < |pendingWrites| && pendingWrites[i].key == key
      modifies this`pendingWrites, this`pendingWritesMap
      ensures Valid() && Pending() == old(Pending())[key := WriteOf(record)]
    {
      PendingKey(pendingWrites, key);
      hide Inv, Holds, PendingMap, PendingOK;
      if i == -1 {
        AppendPendingWrites(key, record);
      } else {
        UpdatePending(i, record);
      }
    }

    /** Expire: gives a key that the batch shows a new expiry time, and leaves any other key alone. */
    method Expire(key: Bytes, ttl: int, now: nat) returns (err: Error)
      requires Valid() && now >= db.st.clock
      modifies this`pendingWrites, this`pendingWritesMap, db`index, db`st
      ensures Valid()
      ensures err == if key == [] then KeyIsEmpty else if db.closed then DBClosed else if readOnly then ReadOnlyBatch
                     else if key in old(Seen(now)) then Nil else KeyNotFound
      ensures Pending() == if err == Nil then old(Pending())[key := Write(NORMAL, old(Seen(now))[key].value, now + ttl)]
                           else old(Pending())
      ensures db.st == if key == [] || db.closed || readOnly || key in old(Pending()) then old(db.st)
                       else Touch(old(db.st), key, now)
    {
      hide Inv, Holds, PendingMap, PendingOK, Seen, Touch;
      err := Refusal(key);
      if err != Nil {
        return;
      }
      var found, i := FindShown(key, now);
      match found {
        case None => err := KeyNotFound;
        case Some(record) => SetPending(i, key, record.(expire := now + ttl));
      }
    }

    /** Persist: removes the expiry time of a key that the batch shows. */
    method Persist(key: Bytes, now: nat) returns (err: Error)
      requires Valid() && now >= db.st.clock
      modifies this`pendingWrites, this`pendingWritesMap, db`index, db`st
      ensures Valid()
      ensures err == if key == [] then KeyIsEmpty else if db.closed then DBClosed else if readOnly then ReadOnlyBatch
                     else if key in old(Seen(now)) then Nil else KeyNotFound
      ensures Pending() == if err == Nil && (key in old(Pending()) || old(Seen(now))[key].expire != 0)
                           then old(Pending())[key := Write(NORMAL, old(Seen(now))[key].value, 0)] else old(Pending())
      ensures db.st == if key == [] || db.closed || readOnly || key in old(Pending()) then old(db.st)
                       else Touch(old(db.st), key, now)
    {
      hide Inv, Holds, PendingMap, PendingOK, Seen, Touch;
      err := Refusal(key);
      if err != Nil {
        return;
      }
      var found, i := FindShown(key, now);
      match found {
        case None => err := KeyNotFound;
        case Some(record) =>
          if i != -1 || record.expire != 0 {
            SetPending(i, key, record.(expire := 0));
          }
      }
    }

    /** TTL. A missing key is reported except in one case: a key whose deletion is pending has expiry
        time 0, and the test for 0 comes first (batch.go:361-363). */
    method TTL(key: Bytes, now: nat) returns (ttl: int, err: Error)
      requires Valid() && now >= db.st.clock
      modifies db`index, db`st
      ensures Valid()
      ensures err == if key == [] then KeyIsEmpty else if db.closed then DBClosed
                     else if key in old(Seen(now)) || (key in Pending() && Pending()[key].typ == DELETED) then Nil
                     else KeyNotFound
      ensures err != Nil || key !in old(Seen(now)) ==> ttl == -1
      ensures err == Nil && key in old(Seen(now)) ==>
        var expire := old(Seen(now))[key].expire;
        ttl == if expire > 0 || (expire < 0 && key in Pending()) then expire - now else -1
      ensures db.st == if key == [] || db.closed || key in Pending() then old(db.st) else Touch(old(db.st), key, now)
    {
      hide Inv, Holds, Answers, PendingMap, PendingOK, View, Touch;
      err, ttl := ReadRefusal(key), -1;
      if err != Nil {
        return;
      }
      AnswerAt(View(db.st, now), pendingWrites, now, key);
      ViewUnexpired(db.st, now, key);
      var i := LookupPendingWrites(key);
      if i != -1 {
        var record := pendingWrites[i];
        if record.expire == 0 {
          return;
        }
        if record.typ == DELETED || record.IsExpired(now) {
          return -1, KeyNotFound;
        }
        return record.expire - now, Nil;
      }
      var r := db.Fetch(key, now);
      match r {
        case None => err := KeyNotFound;
        case Some(record) =>
          if record.expire > 0 {
            ttl := record.expire - now;
          }
      }
    }

    // ---------- The end of a batch ----------

    /** Why a commit writes nothing. */
    function CommitRefusal(): Error
      reads this, db
    {
      if db.closed then DBClosed else if readOnly || pendingWrites == [] then Nil
      else if committed then BatchCommitted else if rollbacked then BatchRollbacked else Nil
    }

    /** Commit: the pending writes and an end record go to the log in one piece, then into the index. If the
        generated id is fresh the database is in order afterwards, and shows exactly what the batch showed. */
    method Commit(id: nat, now: nat) returns (err: Error)
      requires Valid() && now >= db.st.clock
      modifies this`pendingWrites, this`committed, db`disk, db`index, db`st
      ensures PendingOK(pendingWrites, pendingWritesMap, hash) && Pending() == old(Pending())
      ensures Holds(db.disk, db.index, db.st) && (FreshId(old(db.st), id) ==> db.Valid())
      ensures err == if db.closed then DBClosed else if readOnly || old(pendingWrites) == [] then Nil
                     else if old(committed) then BatchCommitted else if old(rollbacked) then BatchRollbacked
                     else if Total(Stamp(old(pendingWrites), id) + [EndRecord(id)]) > old(db.st).wal.cap
                     then PendingTooLarge else Nil
      ensures var written := !db.closed && !readOnly && old(pendingWrites) != [] && !old(committed) && !old(rollbacked);
        && (committed <==> old(committed) || (written && err == Nil))
        && (!written ==> db.st == old(db.st))
        && (written ==> db.st == CommitStep(old(db.st), id, old(pendingWrites), now)
                        && PendingSound(old(db.st), db.st, id, old(pendingWrites), now))
    {
      hide Inv, Holds, PendingMap, PendingOK, CommitStep, PendingSound, TooLarge, FreshId;
      err := CommitRefusal();
      if err != Nil || readOnly || pendingWrites == [] {
        return;
      }
      var ok := WritePending(id, now);
      committed, err := ok, if ok then Nil else PendingTooLarge;
    }

    /** Everything between the checks of Commit and its last assignment. */
    method WritePending(id: nat, now: nat) returns (ok: bool)
      requires Valid() && now >= db.st.clock && pendingWrites != []
      modifies this`pendingWrites, db`disk, db`index, db`st
      ensures PendingOK(pendingWrites, pendingWritesMap, hash) && Pending() == old(Pending())
      ensures Holds(db.disk, db.index, db.st) && (FreshId(old(db.st), id) ==> Inv(db.st))
      ensures db.st == CommitStep(old(db.st), id, old(pendingWrites), now)
      ensures PendingSound(old(db.st), db.st, id, old(pendingWrites), now)
      ensures ok <==> Total(Stamp(old(pendingWrites), id) + [EndRecord(id)]) <= old(db.st).wal.cap
    {
      hide Inv, Holds, PendingMap, PendingOK, CommitStep, CommitSound, PendingSound, TooLarge, Stamp, FreshId;
      Stamped(pendingWrites, pendingWritesMap, hash, db.st, id, now);
      pendingWrites := StampRecords(pendingWrites, id);
      ok := db.WriteBatch(id, pendingWrites, now);
    }

    /** The first loop of Commit: every pending record gets the batch's id (batch.go:484-490). */
    static method StampRecords(pending: seq<LogRecord>, id: nat) returns (records: seq<LogRecord>)
      ensures records == Stamp(pending, id)
    {
      records := pending;
      var i := 0;
      while i < |records|
        invariant 0 <= i <= |records| == |pending|
        invariant forall j :: 0 <= j < i ==> records[j] == pending[j].(batchId := id)
        invariant forall j :: i <= j < |pending| ==> records[j] == pending[j]
      {
        records := records[i := records[i].(batchId := id)];
        i := i + 1;
      }
    }

    /** Rollback: the pending writes are gone, and the database is as it was. */
    method Rollback() returns (err: Error)
      requires Valid()
      modifies this`pendingWrites, this`pendingWritesMap, this`rollbacked
      ensures Valid()
      ensures err == if db.closed then DBClosed else if committed then BatchCommitted
                     else if old(rollbacked) then BatchRollbacked else Nil
      ensures pendingWrites == if err == Nil && !readOnly then [] else old(pendingWrites)
      ensures rollbacked <==> old(rollbacked) || err == Nil
    {
      if db.closed {
        return DBClosed;
      }
      if committed {
        return BatchCommitted;
      }
      if rollbacked {
        return BatchRollbacked;
      }
      if !readOnly {
        pendingWrites := [];
        pendingWritesMap := map[];
      }
      rollbacked := true;
      err := Nil;
    }
  }

  lemma {:induction false} StampBuckets(ws: seq<LogRecord>, hash: Bytes -> int, h: int, id: nat)
    ensures BucketOf(Stamp(ws, id), hash, h) == BucketOf(ws, hash, h) && PendingMap(Stamp(ws, id)) == PendingMap(ws)
  {
    if ws != [] {
      StampBuckets(Init(ws), hash, h, id);
      assert Init(Stamp(ws, id)) == Stamp(Init(ws), id);
    }
  }

  lemma StampPending(ws: seq<LogRecord>, buckets: Buckets, hash: Bytes -> int, id: nat)
    requires PendingOK(ws, buckets, hash)
    ensures PendingOK(Stamp(ws, id), buckets, hash) && PendingMap(Stamp(ws, id)) == PendingMap(ws)
  {
    forall h ensures Bucket(buckets, h) == BucketOf(Stamp(ws, id), hash, h) {
      StampBuckets(ws, hash, h, id);
    }
    StampBuckets(ws, hash, 0, id);
  }

  /** A generated id is in order if it is not 0 and not that of a torn batch. */
  ghost predicate FreshId(s: Store, id: nat) {
    id != 0 && id !in TornIds(s.wal.Blocks())
  }

  /** What a commit with a fresh id achieves. */
  ghost predicate PendingSound(s: Store, s': Store, id: nat, ws: seq<LogRecord>, now: nat) {
    FreshId(s, id) ==> Inv(s') && (!TooLarge(s.wal.cap, id, ws) ==> CommitShows(s, s', ws, now))
  }

  // Batch ids do not matter to the step.
  lemma StampStep(s: Store, id: nat, ws: seq<LogRecord>, now: nat)
    ensures Stamp(Stamp(ws, id), id) == Stamp(ws, id) && (Stamp(ws, id) == [] <==> ws == [])
    ensures CommitStep(s, id, Stamp(ws, id), now) == CommitStep(s, id, ws, now)
    ensures TooLarge(s.wal.cap, id, Stamp(ws, id)) == TooLarge(s.wal.cap, id, ws)
  {
    hide ApplyOps, Place, Total;
    assert Stamp(Stamp(ws, id), id) == Stamp(ws, id);
  }

  lemma StampShows(s: Store, s': Store, id: nat, ws: seq<LogRecord>, now: nat)
    requires CommitShows(s, s', Stamp(ws, id), now)
    ensures CommitShows(s, s', ws, now)
  {
    hide View;
    forall t: nat | t >= now ensures View(s', t) == Answers(View(s, t), ws, t) {
      OverlayStamp(View(s, t), ws, id);
    }
  }

  lemma BatchReady(ws: seq<LogRecord>, buckets: Buckets, hash: Bytes -> int, s: Store, id: nat)
    requires PendingOK(ws, buckets, hash) && FreshId(s, id)
    ensures BatchOK(s, id, Stamp(ws, id))
  {
    assert forall i :: 0 <= i < |ws| ==> WriteOK(ws[i]);
  }

  // Stamped or not, the pending writes are the same batch.
  lemma Stamped(ws: seq<LogRecord>, buckets: Buckets, hash: Bytes -> int, s: Store, id: nat, now: nat)
    requires PendingOK(ws, buckets, hash) && ws != [] && Inv(s) && now >= s.clock
    ensures PendingOK(Stamp(ws, id), buckets, hash) && PendingMap(Stamp(ws, id)) == PendingMap(ws)
    ensures Stamp(Stamp(ws, id), id) == Stamp(ws, id) && Stamp(ws, id) != []
    ensures CommitStep(s, id, Stamp(ws, id), now) == CommitStep(s, id, ws, now)
    ensures TooLarge(s.wal.cap, id, Stamp(ws, id)) == TooLarge(s.wal.cap, id, ws)
    ensures PendingSound(s, CommitStep(s, id, ws, now), id, ws, now)
    ensures FreshId(s, id) ==> Inv(CommitStep(s, id, ws, now))
  {
    hide Inv, PendingOK, PendingMap, Stamp, CommitStep, TooLarge, CommitShows, BatchOK, FreshId;
    StampPending(ws, buckets, hash, id);
    StampStep(s, id, ws, now);
    CommitIsSound(s, id, Stamp(ws, id), now);
    if FreshId(s, id) {
      BatchReady(ws, buckets, hash, s, id);
      if !TooLarge(s.wal.cap, id, ws) {
        StampShows(s, CommitStep(s, id, ws, now), id, ws, now);
      }
    }
  }

  lemma ViewUnexpired(s: Store, now: nat, k: Bytes)
    ensures k in View(s, now) ==> !ExpiredAt(View(s, now)[k].expire, now)
  {
  }
}
