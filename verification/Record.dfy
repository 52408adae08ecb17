/** The log record of `record.go` and the types every other module shares. */
module Record {

  type Byte = x: int | 0 <= x < 256

  type Bytes = seq<Byte>

  // Record types (record.go:13-20).
  const NORMAL: Byte := 0
  const DELETED: Byte := 1
  const BATCH_FINISHED: Byte := 2

  // The batch id that compaction writes (merge.go:20).
  const MERGE_FINISHED_BATCH_ID: nat := 0

  datatype Option<+T> = None | Some(value: T)

  datatype LogRecord = LogRecord(key: Bytes, value: Bytes, typ: Byte, batchId: nat, expire: int) {

    predicate IsExpired(now: int) {
      ExpiredAt(expire, now)
    }
  }

  /** record.go:39: zero means "no expiry" and a negative time never expires. */
  predicate ExpiredAt(expire: int, now: int) {
    expire > 0 && expire <= now
  }

  // The decimal text of a snowflake id, the key of a batch's end record (batch.go:496).
  function Decimal(n: nat): Bytes {
    if n < 10 then [48 + n] else Decimal(n / 10) + [48 + n % 10]
  }

  function ParseDecimal(s: Bytes): nat {
    if s == [] then 0
    else ParseDecimal(s[..|s| - 1]) * 10 + (if 48 <= s[|s| - 1] < 58 then s[|s| - 1] - 48 else 0)
  }

  lemma {:induction false} DecimalRoundTrip(n: nat)
    ensures ParseDecimal(Decimal(n)) == n
  {
    var s := Decimal(n);
    if n < 10 {
      assert s[..|s| - 1] == [];
    } else {
      DecimalRoundTrip(n / 10);
      assert s[..|s| - 1] == Decimal(n / 10);
    }
  }

  /** Decimal is the usual text: a digit stands for itself, and one more digit goes behind the others. */
  lemma DecimalIs(n: nat, d: nat)
    requires d < 10
    ensures Decimal(d) == [48 + d] && (n > 0 ==> Decimal(10 * n + d) == Decimal(n) + [48 + d])
  {
    if n > 0 {
      assert (10 * n + d) / 10 == n && (10 * n + d) % 10 == d;
    }
  }

  lemma {:induction false} DecimalDigits(n: nat)
    ensures Decimal(n) != [] && forall i :: 0 <= i < |Decimal(n)| ==> 48 <= Decimal(n)[i] <= 57
  {
    if n >= 10 {
      DecimalDigits(n / 10);
    }
  }

  lemma FirstBehind(a: Bytes, n: Bytes, b: Bytes, m: Bytes)
    requires a + n == b + m && |a| < |b|
    ensures n != [] && n[0] == b[|a|]
  {
    assert (a + n)[|a|] == (b + m)[|a|];
  }

  lemma SameText(a: Bytes, n: Bytes, b: Bytes, m: Bytes)
    requires a + n == b + m && |a| == |b|
    ensures a == b && n == m
  {
    assert a == (a + n)[..|a|] && b == (b + m)[..|b|];
    assert n == (a + n)[|a|..] && m == (b + m)[|b|..];
  }

  // A number and a name that does not begin with a digit can be told apart when written together.
  lemma DecimalThen(i: nat, j: nat, n: Bytes, m: Bytes)
    requires Decimal(i) + n == Decimal(j) + m
    requires (n == [] || !(48 <= n[0] <= 57)) && (m == [] || !(48 <= m[0] <= 57))
    ensures i == j && n == m
  {
    hide Decimal, ParseDecimal;
    DecimalDigits(i);
    DecimalDigits(j);
    DecimalRoundTrip(i);
    DecimalRoundTrip(j);
    if |Decimal(i)| < |Decimal(j)| {
      FirstBehind(Decimal(i), n, Decimal(j), m);
    } else if |Decimal(j)| < |Decimal(i)| {
      FirstBehind(Decimal(j), m, Decimal(i), n);
    } else {
      SameText(Decimal(i), n, Decimal(j), m);
    }
  }

  /** The record that ends a batch; note that its own batch id stays 0 (batch.go:495-498). */
  function EndRecord(id: nat): LogRecord {
    LogRecord(Decimal(id), [], BATCH_FINISHED, 0, 0)
  }
}
