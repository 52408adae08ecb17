/** The record, hint and MERGEFIN encodings of `record.go`, over the base-128 varints of encoding/binary. */
module Codec {
  import opened Record

  const TWO_32: int := 0x1_0000_0000
  const TWO_63: int := 0x8000_0000_0000_0000
  const TWO_64: int := 0x1_0000_0000_0000_0000

  const MAX_VARINT_LEN_32: nat := 5
  const MAX_VARINT_LEN_64: nat := 10
  const MAX_LOG_RECORD_HEADER_SIZE: nat := MAX_VARINT_LEN_32 * 2 + MAX_VARINT_LEN_64 * 2 + 1

  // ---------- Varints ----------

  function Uvarint(x: nat): Bytes {
    if x < 128 then [x] else [x % 128 + 128] + Uvarint(x / 128)
  }

  function ZigZag(x: int): nat {
    if x < 0 then -2 * x - 1 else 2 * x
  }

  function UnZigZag(u: nat): int {
    if u % 2 == 1 then -(u / 2) - 1 else u / 2
  }

  function Varint(x: int): Bytes {
    Uvarint(ZigZag(x))
  }

  function Pow128(k: nat): nat {
    if k == 0 then 1 else 128 * Pow128(k - 1)
  }

  lemma {:induction false} UvarintLength(x: nat, k: nat)
    requires k > 0 && x < Pow128(k)
    ensures 1 <= |Uvarint(x)| <= k
  {
    if x >= 128 {
      UvarintLength(x / 128, k - 1);
    }
  }

  lemma VarintLengths(x: int)
    ensures 0 <= x < TWO_64 ==> 1 <= |Uvarint(x)| <= MAX_VARINT_LEN_64
    ensures -TWO_63 <= x < TWO_63 ==> 1 <= |Varint(x)| <= MAX_VARINT_LEN_64
    ensures 0 <= x < TWO_32 ==> 1 <= |Uvarint(x)| <= MAX_VARINT_LEN_32 && 1 <= |Varint(x)| <= MAX_VARINT_LEN_32
  {
    Pow128Values();
    if 0 <= x < TWO_64 { UvarintLength(x, 10); }
    if -TWO_63 <= x < TWO_63 { UvarintLength(ZigZag(x), 10); }
    if 0 <= x < TWO_32 { UvarintLength(x, 5); UvarintLength(2 * x, 5); }
  }

  lemma Pow128Values()
    ensures Pow128(5) == 34359738368 && Pow128(10) == 34359738368 * 34359738368
  {
    assert Pow128(1) == 128 && Pow128(2) == 16384 && Pow128(3) == 2097152 && Pow128(4) == 268435456;
    assert Pow128(6) == 128 * Pow128(5) && Pow128(7) == 128 * Pow128(6) && Pow128(8) == 128 * Pow128(7);
    assert Pow128(9) == 128 * Pow128(8) && Pow128(10) == 128 * Pow128(9);
  }

  /** What encoding/binary's Uvarint returns: a value and a byte count, with count 0 for
      a buffer that is too short and a negative count for overflow. */
  datatype Decoded = Decoded(value: nat, n: int)

  // The value of the digits from the `i`-th on, and the number of bytes read in all.
  function ReadFrom(buf: Bytes, at: nat, i: nat): Decoded
    decreases |buf| - at - i
  {
    if at + i >= |buf| then Decoded(0, 0)
    else if i == MAX_VARINT_LEN_64 then Decoded(0, -(i + 1))
    else if buf[at + i] < 128 then
      if i == MAX_VARINT_LEN_64 - 1 && buf[at + i] > 1 then Decoded(0, -(i + 1))
      else Decoded(buf[at + i], i + 1)
    else
      var rest := ReadFrom(buf, at, i + 1);
      if rest.n <= 0 then rest else Decoded(buf[at + i] - 128 + 128 * rest.value, rest.n)
  }

  function ReadUvarint(buf: Bytes, at: nat): Decoded {
    ReadFrom(buf, at, 0)
  }

  /** What is no varint: a slice that ends too early, an eleventh byte, or a tenth above 1. */
  lemma NoUvarint(buf: Bytes, at: nat, m: nat)
    requires m <= 10 && at + m <= |buf| && forall j :: at <= j < at + m ==> buf[j] >= 128
    ensures at + m == |buf| ==> ReadUvarint(buf, at) == Decoded(0, 0)
    ensures at + m < |buf| && m == 10 ==> ReadUvarint(buf, at) == Decoded(0, -11)
    ensures at + m < |buf| && m == 9 && 1 < buf[at + 9] < 128 ==> ReadUvarint(buf, at) == Decoded(0, -10)
  {
    NoUvarintFrom(buf, at, m, 0);
  }

  lemma {:induction false} NoUvarintFrom(buf: Bytes, at: nat, m: nat, i: nat)
    requires i <= m <= 10 && at + m <= |buf| && forall j :: at <= j < at + m ==> buf[j] >= 128
    ensures at + m == |buf| ==> ReadFrom(buf, at, i) == Decoded(0, 0)
    ensures at + m < |buf| && m == 10 ==> ReadFrom(buf, at, i) == Decoded(0, -11)
    ensures at + m < |buf| && m == 9 && 1 < buf[at + 9] < 128 ==> ReadFrom(buf, at, i) == Decoded(0, -10)
    decreases m - i
  {
    if i < m {
      NoUvarintFrom(buf, at, m, i + 1);
    }
  }

  // What is left of 64 bits after `i` digits.
  function Room(i: nat): nat
  {
    if i == 0 then TWO_64 else Room(i - 1) / 128
  }

  lemma RoomStep(i: nat)
    requires i < 9
    ensures Room(i) == 128 * Room(i + 1)
    ensures Room(9) == 2
  {
    assert Room(1) == 0x0200_0000_0000_0000 && Room(2) == 0x0004_0000_0000_0000;
    assert Room(3) == 0x0000_0800_0000_0000 && Room(4) == 0x0000_0010_0000_0000;
    assert Room(5) == 0x2000_0000 && Room(6) == 0x40_0000 && Room(7) == 0x8000;
    assert Room(8) == 0x100 && Room(9) == 2;
  }

  // `part` occurs in `buf` at `at`.
  predicate Holds(buf: Bytes, at: nat, part: Bytes) {
    at + |part| <= |buf| && buf[at..at + |part|] == part
  }

  lemma HoldsMiddle(pre: Bytes, part: Bytes, post: Bytes)
    ensures Holds(pre + part + post, |pre|, part)
  {
    assert (pre + part + post)[|pre|..|pre| + |part|] == part;
  }

  lemma HoldsTail(buf: Bytes, at: nat, b: Byte, tail: Bytes)
    requires Holds(buf, at, [b] + tail)
    ensures buf[at] == b && Holds(buf, at + 1, tail)
  {
    var part := [b] + tail;
    assert buf[at] == buf[at..at + |part|][0];
    assert buf[at + 1..at + 1 + |tail|] == buf[at..at + |part|][1..] == tail;
  }

  lemma {:induction false} ReadBack(buf: Bytes, at: nat, i: nat, y: nat)
    requires i < 10 && y < Room(i)
    requires Holds(buf, at + i, Uvarint(y))
    ensures ReadFrom(buf, at, i) == Decoded(y, i + |Uvarint(y)|)
    decreases y
  {
    if y < 128 {
      RoomStep(8);
      HoldsTail(buf, at + i, y, []);
    } else {
      MoreDigits(i, y);
      HoldsTail(buf, at + i, y % 128 + 128, Uvarint(y / 128));
      hide Room, Holds;
      ReadBack(buf, at, i + 1, y / 128);
    }
  }

  lemma MoreDigits(i: nat, y: nat)
    requires i < 10 && 128 <= y < Room(i)
    ensures i < 9 && y / 128 < Room(i + 1) && y % 128 + 128 * (y / 128) == y
  {
    RoomStep(if i < 9 then i else 8);
  }

  lemma ReadUvarintBack(buf: Bytes, at: nat, x: nat)
    requires x < TWO_64 && Holds(buf, at, Uvarint(x))
    ensures ReadUvarint(buf, at) == Decoded(x, |Uvarint(x)|)
  {
    ReadBack(buf, at, 0, x);
  }

  lemma HoldsParts(buf: Bytes, at: nat, mid: nat, a: Bytes, b: Bytes)
    requires Holds(buf, at, a + b) && mid == at + |a|
    ensures Holds(buf, at, a) && Holds(buf, mid, b)
  {
    assert buf[at..mid] == buf[at..at + |a + b|][..|a|] == a;
    assert buf[mid..mid + |b|] == buf[at..at + |a + b|][|a|..] == b;
  }

  // Four varints in a row, as both record headers have them, read at `at`, `i2`, `i3` and `i4`.
  ghost predicate ReadsFour(buf: Bytes, at: nat, i2: nat, i3: nat, i4: nat, x1: nat, x2: nat, x3: nat, x4: nat) {
    && i2 == at + |Uvarint(x1)| && i3 == i2 + |Uvarint(x2)| && i4 == i3 + |Uvarint(x3)|
    && ReadUvarint(buf, at) == Decoded(x1, |Uvarint(x1)|)
    && ReadUvarint(buf, i2) == Decoded(x2, |Uvarint(x2)|)
    && ReadUvarint(buf, i3) == Decoded(x3, |Uvarint(x3)|)
    && ReadUvarint(buf, i4) == Decoded(x4, |Uvarint(x4)|)
  }

  function FourUvarints(x1: nat, x2: nat, x3: nat, x4: nat): Bytes {
    Uvarint(x1) + (Uvarint(x2) + (Uvarint(x3) + Uvarint(x4)))
  }

  lemma FourVarintsBack(buf: Bytes, at: nat, i2: nat, i3: nat, i4: nat, x1: nat, x2: nat, x3: nat, x4: nat)
    requires x1 < TWO_64 && x2 < TWO_64 && x3 < TWO_64 && x4 < TWO_64
    requires i2 == at + |Uvarint(x1)| && i3 == i2 + |Uvarint(x2)| && i4 == i3 + |Uvarint(x3)|
    requires Holds(buf, at, FourUvarints(x1, x2, x3, x4))
    ensures ReadsFour(buf, at, i2, i3, i4, x1, x2, x3, x4)
    ensures |FourUvarints(x1, x2, x3, x4)| == i4 + |Uvarint(x4)| - at
  {
    hide Uvarint, ReadUvarint, Holds;
    HoldsParts(buf, at, i2, Uvarint(x1), Uvarint(x2) + (Uvarint(x3) + Uvarint(x4)));
    HoldsParts(buf, i2, i3, Uvarint(x2), Uvarint(x3) + Uvarint(x4));
    HoldsParts(buf, i3, i4, Uvarint(x3), Uvarint(x4));
    ReadUvarintBack(buf, at, x1);
    ReadUvarintBack(buf, i2, x2);
    ReadUvarintBack(buf, i3, x3);
    ReadUvarintBack(buf, i4, x4);
  }

  // ---------- Log records ----------

  function Header(r: LogRecord): Bytes {
    [r.typ] + FourUvarints(r.batchId, ZigZag(|r.key|), ZigZag(|r.value|), ZigZag(r.expire))
  }

  function Encode(r: LogRecord): Bytes {
    Header(r) + r.key + r.value
  }

  /** The machine widths of the fields: 64-bit batch id, signed 64-bit expire, and lengths
      that fit the five bytes set aside for them. */
  predicate Machine(r: LogRecord) {
    r.batchId < TWO_64 && -TWO_63 <= r.expire < TWO_63 && |r.key| < TWO_32 && |r.value| < TWO_32
  }

  lemma HeaderFits(r: LogRecord)
    requires Machine(r)
    ensures |Header(r)| <= MAX_LOG_RECORD_HEADER_SIZE == 31
  {
    VarintLengths(r.batchId);
    VarintLengths(|r.key|);
    VarintLengths(|r.value|);
    VarintLengths(r.expire);
  }

  /** Compaction clears the batch id; the rewritten record is never longer (merge.go:137-140). */
  lemma ClearedIdNeverLonger(r: LogRecord)
    ensures |Encode(r.(batchId := 0))| <= |Encode(r)|
  {
    assert |Uvarint(0)| == 1 <= |Uvarint(r.batchId)|;
  }

  /** The layout, byte for byte, on one record of each type: type, batch id, sizes and expiry time as varints
      (the last three zigzag), key, value. */
  lemma Layout()
    ensures Encode(LogRecord([107, 49], [118], NORMAL, 300, -3)) == [0, 172, 2, 4, 2, 5, 107, 49, 118]
    ensures Encode(LogRecord([107], [], DELETED, 1, 0)) == [1, 1, 2, 0, 0, 107]
    ensures Encode(EndRecord(12)) == [2, 0, 4, 0, 0, 49, 50]
  {
    assert Uvarint(300) == [172] + Uvarint(2) == [172, 2];
    assert Decimal(12) == Decimal(1) + [50] == [49, 50];
  }

  // Go's `index += uint32(n)`.
  function Add32(index: nat, n: int): nat {
    (index + n) % 0x1_0000_0000
  }

  /** One varint field and the index after it; None when slicing the buffer there would panic. */
  function Field(buf: Bytes, index: nat): Option<(nat, nat)> {
    var d := ReadUvarint(buf, index);
    var next := Add32(index, d.n);
    if next > |buf| then None else Some((d.value, next))
  }

  /** decodeLogRecord with its 32-bit index; None stands for a run-time panic. `beyond` is what lies between the
      length and the capacity of the slice, which a damaged size can reach. */
  function Decode(buf: Bytes, beyond: Bytes): Option<LogRecord> {
    if |buf| < 1 then None else
    match Field(buf, 1)
    case None => None
    case Some((id, i1)) =>
      match Field(buf, i1)
      case None => None
      case Some((keySize, i2)) =>
        match Field(buf, i2)
        case None => None
        case Some((valueSize, i3)) =>
          match Field(buf, i3)
          case None => None
          case Some((expire, i4)) =>
            Cut(buf, beyond, i4, UnZigZag(keySize), UnZigZag(valueSize), id, UnZigZag(expire))
  }

  // `make([]byte, size)` and then `copy`.
  function Padded(s: Bytes, size: nat): (r: Bytes)
    ensures |r| == size && forall i :: 0 <= i < size ==> r[i] == if i < |s| then s[i] else 0
  {
    if |s| >= size then s[..size] else s + seq(size - |s|, _ => 0)
  }

  // The last part of the decoder, after the header: slice key and value at `i4`.
  // Both may end beyond the length of the slice, but not beyond its capacity.
  function Cut(buf: Bytes, beyond: Bytes, i4: nat, keySize: int, valueSize: int, id: nat, expire: int): Option<LogRecord>
    requires 1 <= |buf|
  {
    var all := buf + beyond;
    if i4 > |buf| then None else
    var i5 := Add32(i4, keySize);
    if keySize < 0 || i5 < i4 || i5 > |all| then None else
    var i6 := Add32(i5, valueSize);
    if valueSize < 0 || i6 < i5 || i6 > |all| then None else
    Some(LogRecord(Padded(all[i4..i5], keySize), Padded(all[i5..i6], valueSize), buf[0], id, expire))
  }

  lemma CutExact(buf: Bytes, beyond: Bytes, h: Bytes, key: Bytes, value: Bytes, id: nat, expire: int)
    requires 1 <= |h| <= 31 && |key| < TWO_32 && |value| < TWO_32 && buf == h + key + value
    ensures Cut(buf, beyond, |h|, |key|, |value|, id, expire)
         == if |buf| < TWO_32 then Some(LogRecord(key, value, h[0], id, expire)) else None
  {
    var k, v, n := |key|, |value|, |h|;
    if |buf| < TWO_32 {
      assert Add32(n, k) == n + k && Add32(n + k, v) == |buf|;
      assert Padded((buf + beyond)[n..n + k], k) == key;
      assert Padded((buf + beyond)[n + k..n + k + v], v) == value;
    } else if n + k < TWO_32 {
      assert Add32(n, k) == n + k && Add32(n + k, v) == |buf| - TWO_32 < n + k;
    } else {
      assert Add32(n, k) == n + k - TWO_32 < n;
    }
  }

  lemma ZigZagBack(x: int)
    ensures UnZigZag(ZigZag(x)) == x
    ensures -TWO_63 <= x < TWO_63 ==> ZigZag(x) < TWO_64
  {
  }

  /** Exactly when an encoded record decodes: its length must stay below 2^32, the range of the
      decoder's index; at or above that the decoder panics. What lies beyond the slice does not matter. */
  lemma DecodeEncode(r: LogRecord, beyond: Bytes)
    requires Machine(r)
    ensures |Encode(r)| < TWO_32 ==> Decode(Encode(r), beyond) == Some(r)
    ensures |Encode(r)| >= TWO_32 ==> Decode(Encode(r), beyond) == None
  {
    hide Uvarint, ReadUvarint, FourUvarints, Cut, Decode, ReadsFour;
    var h, buf := Header(r), Encode(r);
    var x1, x2, x3, x4 := r.batchId, ZigZag(|r.key|), ZigZag(|r.value|), ZigZag(r.expire);
    HeaderFits(r);
    ZigZagBack(|r.key|);
    ZigZagBack(|r.value|);
    ZigZagBack(r.expire);
    var i2 := 1 + |Uvarint(x1)|;
    var i3 := i2 + |Uvarint(x2)|;
    var i4 := i3 + |Uvarint(x3)|;
    assert buf[1..|h|] == FourUvarints(x1, x2, x3, x4);
    FourVarintsBack(buf, 1, i2, i3, i4, x1, x2, x3, x4);
    CutExact(buf, beyond, h, r.key, r.value, r.batchId, r.expire);
    DecodeWith(buf, beyond, i2, i3, i4, |h|, x1, x2, x3, x4);
  }

  lemma FieldBack(buf: Bytes, index: nat, next: nat, x: nat)
    requires ReadUvarint(buf, index) == Decoded(x, |Uvarint(x)|)
    requires next == index + |Uvarint(x)| && next <= |buf| && next < TWO_32
    ensures Field(buf, index) == Some((x, next))
  {
  }

  lemma DecodeWith(buf: Bytes, beyond: Bytes, i2: nat, i3: nat, i4: nat, end: nat, x1: nat, x2: nat, x3: nat, x4: nat)
    requires ReadsFour(buf, 1, i2, i3, i4, x1, x2, x3, x4)
    requires end == i4 + |Uvarint(x4)| && end <= |buf| && end <= 31
    ensures Decode(buf, beyond) == Cut(buf, beyond, end, UnZigZag(x2), UnZigZag(x3), x1, UnZigZag(x4))
  {
    hide ReadUvarint, Uvarint, Cut, UnZigZag, Field;
    FieldBack(buf, 1, i2, x1);
    FieldBack(buf, i2, i3, x2);
    FieldBack(buf, i3, i4, x3);
    FieldBack(buf, i4, end, x4);
  }

  // ---------- Hint records ----------

  /** The position of a chunk as the write-ahead log reports it, with its machine widths. */
  datatype ChunkPosition = ChunkPosition(segmentId: nat, blockNumber: nat, chunkOffset: int, chunkSize: nat) {
    predicate Machine() {
      segmentId < TWO_32 && blockNumber < TWO_32 && -TWO_63 <= chunkOffset < TWO_63 && chunkSize < TWO_32
    }
  }

  // Go's uint64(x) and int64(u).
  function ToUint64(x: int): nat
    requires -TWO_63 <= x < TWO_63
  {
    if x < 0 then x + TWO_64 else x
  }

  function ToInt64(u: nat): int {
    var v := u % TWO_64;
    if v < TWO_63 then v else v - TWO_64
  }

  function HintHeader(p: ChunkPosition): Bytes
    requires p.Machine()
  {
    FourUvarints(p.segmentId, p.blockNumber, ToUint64(p.chunkOffset), p.chunkSize)
  }

  function EncodeHint(key: Bytes, p: ChunkPosition): Bytes
    requires p.Machine()
  {
    HintHeader(p) + key
  }

  /** decodeHintRecord; None stands for a slice panic. */
  function DecodeHint(buf: Bytes): Option<(Bytes, ChunkPosition)> {
    var a := ReadUvarint(buf, 0);
    var i1 := a.n;
    if i1 < 0 then None else
    var b := ReadUvarint(buf, i1);
    var i2 := i1 + b.n;
    if i2 < 0 then None else
    var c := ReadUvarint(buf, i2);
    var i3 := i2 + c.n;
    if i3 < 0 then None else
    var d := ReadUvarint(buf, i3);
    var i4 := i3 + d.n;
    if i4 < 0 || i4 > |buf| then None else
    Some((buf[i4..], ChunkPosition(a.value % TWO_32, b.value % TWO_32, ToInt64(c.value), d.value % TWO_32)))
  }

  /** A hint record reads back exactly, and at most 25 bytes stand before its key. */
  lemma DecodeEncodeHint(key: Bytes, p: ChunkPosition)
    requires p.Machine()
    ensures |HintHeader(p)| <= 25
    ensures DecodeHint(EncodeHint(key, p)) == Some((key, p))
  {
    hide Uvarint, ReadUvarint, Holds, ReadsFour, DecodeHint;
    var buf, u := EncodeHint(key, p), ToUint64(p.chunkOffset);
    VarintLengths(p.segmentId);
    VarintLengths(p.blockNumber);
    VarintLengths(u);
    VarintLengths(p.chunkSize);
    var i2 := |Uvarint(p.segmentId)|;
    var i3 := i2 + |Uvarint(p.blockNumber)|;
    var i4 := i3 + |Uvarint(u)|;
    assert Holds(buf, 0, HintHeader(p)) by { HoldsMiddle([], HintHeader(p), key); assert [] + HintHeader(p) + key == buf; }
    FourVarintsBack(buf, 0, i2, i3, i4, p.segmentId, p.blockNumber, u, p.chunkSize);
    assert buf[|HintHeader(p)|..] == key;
    HintWith(buf, i2, i3, i4, |HintHeader(p)|, p);
  }

  /** The layout of a hint record, byte for byte: four varints, then the key. */
  lemma HintLayout()
    ensures EncodeHint([107], ChunkPosition(1, 2, 300, 4)) == [1, 2, 172, 2, 4, 107]
  {
    assert Uvarint(300) == [172] + Uvarint(2) == [172, 2];
  }

  lemma HintWith(buf: Bytes, i2: nat, i3: nat, i4: nat, end: nat, p: ChunkPosition)
    requires p.Machine()
    requires ReadsFour(buf, 0, i2, i3, i4, p.segmentId, p.blockNumber, ToUint64(p.chunkOffset), p.chunkSize)
    requires end == i4 + |Uvarint(p.chunkSize)| && end <= |buf|
    ensures DecodeHint(buf) == Some((buf[end..], p))
  {
    hide Uvarint, ReadUvarint;
  }

  // ---------- The buffer-filling procedures ----------

  /** binary.PutUvarint into `buf` at `at`; no other byte changes. */
  method PutUvarint(buf: array<Byte>, at: nat, v: nat) returns (n: nat)
    requires at + |Uvarint(v)| <= buf.Length
    modifies buf
    ensures n == |Uvarint(v)| && Holds(buf[..], at, Uvarint(v))
    ensures forall j :: 0 <= j < buf.Length && !(at <= j < at + n) ==> buf[j] == old(buf[j])
  {
    var x, i := v, 0;
    while x >= 128
      invariant |Uvarint(v)| == i + |Uvarint(x)|
      invariant Uvarint(v)[i..] == Uvarint(x)
      invariant forall j :: 0 <= j < i ==> buf[at + j] == Uvarint(v)[j]
      invariant forall j :: 0 <= j < buf.Length && !(at <= j < at + i) ==> buf[j] == old(buf[j])
    {
      assert Uvarint(v)[i] == Uvarint(v)[i..][0] == x % 128 + 128;
      assert Uvarint(v)[i + 1..] == Uvarint(v)[i..][1..] == Uvarint(x / 128);
      buf[at + i] := x % 128 + 128;
      x, i := x / 128, i + 1;
    }
    assert Uvarint(v)[i] == Uvarint(v)[i..][0] == x;
    buf[at + i] := x;
    n := i + 1;
  }

  lemma HoldsJoin(buf: Bytes, at: nat, mid: nat, a: Bytes, b: Bytes)
    requires mid == at + |a| && Holds(buf, at, a) && Holds(buf, mid, b)
    ensures Holds(buf, at, a + b)
  {
    assert buf[at..at + |a + b|] == buf[at..mid] + buf[mid..mid + |b|];
  }

  // What stands before the part that was written stays.
  lemma HoldsKept(before: Bytes, after: Bytes, at: nat, part: Bytes, from: nat)
    requires Holds(before, at, part) && at + |part| <= from
    requires |after| == |before| && forall j :: 0 <= j < |before| && j < from ==> after[j] == before[j]
    ensures Holds(after, at, part)
  {
  }

  /** The four varints of a header, one after the other from `at` on, with a moving index. */
  method PutFour(buf: array<Byte>, at: nat, x1: nat, x2: nat, x3: nat, x4: nat) returns (index: nat)
    requires at + |FourUvarints(x1, x2, x3, x4)| <= buf.Length
    modifies buf
    ensures index == at + |FourUvarints(x1, x2, x3, x4)|
    ensures Holds(buf[..], at, FourUvarints(x1, x2, x3, x4))
    ensures forall j :: 0 <= j < at ==> buf[j] == old(buf[j])
  {
    hide Uvarint, Holds;
    index := at;
    var n := PutUvarint(buf, index, x1);
    ghost var i1, s1 := index, buf[..];
    index := index + n;
    n := PutUvarint(buf, index, x2);
    ghost var i2, s2 := index, buf[..];
    HoldsKept(s1, s2, i1, Uvarint(x1), i2);
    index := index + n;
    n := PutUvarint(buf, index, x3);
    ghost var i3, s3 := index, buf[..];
    HoldsKept(s2, s3, i1, Uvarint(x1), i3);
    HoldsKept(s2, s3, i2, Uvarint(x2), i3);
    index := index + n;
    n := PutUvarint(buf, index, x4);
    ghost var i4, s4 := index, buf[..];
    HoldsKept(s3, s4, i1, Uvarint(x1), i4);
    HoldsKept(s3, s4, i2, Uvarint(x2), i4);
    HoldsKept(s3, s4, i3, Uvarint(x3), i4);
    index := index + n;
    HoldsJoin(s4, i3, i4, Uvarint(x3), Uvarint(x4));
    HoldsJoin(s4, i2, i3, Uvarint(x2), Uvarint(x3) + Uvarint(x4));
    HoldsJoin(s4, i1, i2, Uvarint(x1), Uvarint(x2) + (Uvarint(x3) + Uvarint(x4)));
  }

  /** encodeLogRecord: the header array is filled with a moving index, then header, key and
      value are appended to the output buffer. */
  method EncodeLogRecord(r: LogRecord, header: array<Byte>, buf: Bytes) returns (out: Bytes)
    requires Machine(r) && header.Length >= MAX_LOG_RECORD_HEADER_SIZE
    modifies header
    ensures out == buf + Encode(r)
  {
    hide Uvarint, FourUvarints;
    HeaderFits(r);
    header[0] := r.typ;
    var index := PutFour(header, 1, r.batchId, ZigZag(|r.key|), ZigZag(|r.value|), ZigZag(r.expire));
    assert header[..index] == [header[0]] + header[1..index] == Header(r);
    out := buf + header[..index];
    out := out + r.key;
    out := out + r.value;
    assert out == buf + Encode(r);
  }

  /** binary.Uvarint: the loop over the bytes of a slice from `at` on. */
  method GetUvarint(buf: array<Byte>, len: nat, at: nat) returns (d: Decoded)
    requires at <= len <= buf.Length
    ensures d == ReadUvarint(buf[..len], at)
  {
    var x, w, i := 0, 1, 0;
    while at + i < len
      invariant 0 <= x && 0 < w && at + i <= len
      invariant ReadUvarint(buf[..len], at) == Shifted(x, w, ReadFrom(buf[..len], at, i))
    {
      var b: int := buf[at + i];
      if i == MAX_VARINT_LEN_64 {
        return Decoded(0, -(i + 1));
      }
      if b < 128 {
        if i == MAX_VARINT_LEN_64 - 1 && b > 1 {
          return Decoded(0, -(i + 1));
        }
        return Decoded(x + b * w, i + 1);
      }
      ShiftOne(x, w, b - 128, ReadFrom(buf[..len], at, i + 1));
      x, w, i := x + (b - 128) * w, w * 128, i + 1;
    }
    d := Decoded(0, 0);
  }

  // The digits still to come, placed above what has been read.
  ghost function Shifted(x: nat, w: nat, d: Decoded): Decoded {
    if d.n <= 0 then d else Decoded(x + d.value * w, d.n)
  }

  lemma ShiftOne(x: nat, w: nat, digit: nat, rest: Decoded)
    ensures Shifted(x, w, if rest.n <= 0 then rest else Decoded(digit + 128 * rest.value, rest.n))
         == Shifted(x + digit * w, w * 128, rest)
  {
    var v := rest.value;
    assert (digit + 128 * v) * w == digit * w + (128 * v) * w;
    assert (128 * v) * w == v * (w * 128);
  }

  /** decodeLogRecord: an index steps through the first `len` bytes of `buf`, whose length is the capacity of the
      slice. None is a panic. */
  method DecodeLogRecord(buf: array<Byte>, len: nat) returns (r: Option<LogRecord>)
    requires len <= buf.Length
    ensures r == Decode(buf[..len], buf[len..])
  {
    assert buf[..len] + buf[len..] == buf[..];
    if len < 1 { return None; }
    var recordType := buf[0];
    var index := 1;
    var id := GetUvarint(buf, len, index);
    index := Add32(index, id.n);
    if index > len { return None; }
    var ks := GetUvarint(buf, len, index);
    index := Add32(index, ks.n);
    if index > len { return None; }
    var vs := GetUvarint(buf, len, index);
    index := Add32(index, vs.n);
    if index > len { return None; }
    var ex := GetUvarint(buf, len, index);
    index := Add32(index, ex.n);
    if index > len { return None; }
    var keySize, valueSize := UnZigZag(ks.value), UnZigZag(vs.value);
    var end := Add32(index, keySize);
    if keySize < 0 || end < index || end > buf.Length { return None; }
    var key := Padded(buf[index..end], keySize);
    index := end;
    end := Add32(index, valueSize);
    if valueSize < 0 || end < index || end > buf.Length { return None; }
    var value := Padded(buf[index..end], valueSize);
    r := Some(LogRecord(key, value, recordType, id.value, UnZigZag(ex.value)));
  }

  /** encodeHintRecord: a 25-byte scratch buffer, then a copy of the used part and of the key. */
  method EncodeHintRecord(key: Bytes, p: ChunkPosition) returns (result: Bytes)
    requires p.Machine()
    ensures result == EncodeHint(key, p)
  {
    hide Uvarint, FourUvarints;
    DecodeEncodeHint(key, p);
    var buf := new Byte[25](_ => 0);
    var idx := PutFour(buf, 0, p.segmentId, p.blockNumber, ToUint64(p.chunkOffset), p.chunkSize);
    assert buf[..idx] == buf[0..idx] == HintHeader(p);
    result := buf[..idx];
    result := result + key;
  }

  // ---------- The MERGEFIN record ----------

  function MergeFin(id: nat): Bytes
    requires id < TWO_32
  {
    [id % 256, id / 256 % 256, id / 65536 % 256, id / 16777216]
  }

  function ReadMergeFin(buf: Bytes): nat
    requires |buf| == 4
  {
    var b0: int, b1: int, b2: int, b3: int := buf[0], buf[1], buf[2], buf[3];
    b0 + 256 * b1 + 65536 * b2 + 16777216 * b3
  }

  lemma MergeFinLayout()
    ensures MergeFin(0x01020304) == [4, 3, 2, 1]
  {
  }

  lemma MergeFinRoundTrip(id: nat)
    requires id < TWO_32
    ensures ReadMergeFin(MergeFin(id)) == id
  {
    assert id / 65536 == id / 256 / 256 && id / 16777216 == id / 256 / 256 / 256;
  }
}
