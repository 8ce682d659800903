/** The part of the postcard wire format the envelopes use: varints, raw bytes,
    length-prefixed byte vectors and strings, and structures as sequences. */
module Postcard {
  import opened Common
  import Utf8

  // ── Codecs and their laws ──────────────────────────────────────────────────

  /** A printer and a parser that returns what it left unread. */
  datatype Codec<!T> = Codec(put: T -> Bytes, take: Bytes -> Option<(T, Bytes)>)

  ghost predicate ReadsBack<T>(c: Codec<T>, x: T, tail: Bytes) { c.take(c.put(x) + tail) == Some((x, tail)) }

  /** What was read does not depend on the bytes after it. */
  ghost predicate ReadsOn<T>(c: Codec<T>, b: Bytes, tail: Bytes) {
    c.take(b).Some? ==> c.take(b + tail) == Some((c.take(b).value.0, c.take(b).value.1 + tail))
  }

  ghost predicate Lawful<T(!new)>(c: Codec<T>) {
    && (forall x, tail :: ReadsBack(c, x, tail))
    && (forall b, tail :: ReadsOn(c, b, tail))
  }

  // ── Varints ────────────────────────────────────────────────────────────────

  function PutVarint(v: nat): (b: Bytes)
    ensures |b| >= 1
  {
    if v < 128 then [v] else [v % 128 + 128] + PutVarint(v / 128)
  }

  /** At most `n` bytes, the last of them at most `last`; longer forms of small values are accepted. */
  function TakeVarint(b: Bytes, n: nat, last: nat): Option<(nat, Bytes)> {
    if n == 0 || b == [] then None
    else if b[0] < 128 then
      if n == 1 && b[0] > last then None else Some((b[0] as nat, b[1..]))
    else
      match TakeVarint(b[1..], n - 1, last)
      case None => None
      case Some(r) => Some((b[0] as nat - 128 + 128 * r.0, r.1))
  }

  /** The values `n` bytes with a bounded last byte can hold. */
  function Span(n: nat, last: nat): nat
    requires n >= 1
  {
    if n == 1 then last + 1 else 128 * Span(n - 1, last)
  }

  lemma {:induction false} SpanMonotone(n: nat, last: nat)
    requires n >= 2 && last >= 1
    ensures Span(n, last) >= 256
  {
    if n > 2 { SpanMonotone(n - 1, last); }
  }

  lemma {:induction false} VarintBack(v: nat, n: nat, last: nat, tail: Bytes)
    requires n >= 1 && 1 <= last < 128 && v < Span(n, last)
    ensures TakeVarint(PutVarint(v) + tail, n, last) == Some((v, tail))
    ensures |PutVarint(v)| <= n
    decreases n
  {
    var b := PutVarint(v) + tail;
    if v < 128 {
      assert b[0] == v && b[1..] == tail;
    } else {
      assert n >= 2 by { assert Span(1, last) <= 128; }
      VarintBack(v / 128, n - 1, last, tail);
      assert b[1..] == PutVarint(v / 128) + tail;
      assert v == v % 128 + 128 * (v / 128);
    }
  }

  lemma {:induction false} VarintOn(b: Bytes, n: nat, last: nat, tail: Bytes)
    requires TakeVarint(b, n, last).Some?
    ensures var r := TakeVarint(b, n, last).value; TakeVarint(b + tail, n, last) == Some((r.0, r.1 + tail))
    decreases n
  {
    assert (b + tail)[0] == b[0] && (b + tail)[1..] == b[1..] + tail;
    if b[0] >= 128 { VarintOn(b[1..], n - 1, last, tail); }
  }

  lemma {:induction false} VarintInRange(b: Bytes, n: nat, last: nat)
    requires n >= 1 && 1 <= last < 128 && TakeVarint(b, n, last).Some?
    ensures TakeVarint(b, n, last).value.0 < Span(n, last)
    decreases n
  {
    if n >= 2 { SpanMonotone(n, last); }
    if b[0] >= 128 { VarintInRange(b[1..], n - 1, last); }
  }

  lemma Spans()
    ensures Span(3, 3) == U16_LIMIT && Span(5, 15) == U32_LIMIT && Span(10, 1) == U64_LIMIT
  {
    assert Span(8, 1) == 128 * Span(7, 1) && Span(7, 1) == 128 * Span(6, 1) && Span(6, 1) == 128 * Span(5, 1);
    assert Span(5, 1) == 128 * Span(4, 1) && Span(4, 1) == 128 * Span(3, 1) && Span(3, 1) == 128 * Span(2, 1);
    assert Span(5, 15) == 128 * Span(4, 15) && Span(4, 15) == 128 * Span(3, 15) && Span(3, 15) == 128 * Span(2, 15);
  }

  function TakeU16(b: Bytes): Option<(u16, Bytes)> {
    match TakeVarint(b, 3, 3)
    case None => None
    case Some(r) => VarintInRange(b, 3, 3); Spans(); Some((r.0, r.1))
  }

  function TakeU32(b: Bytes): Option<(u32, Bytes)> {
    match TakeVarint(b, 5, 15)
    case None => None
    case Some(r) => VarintInRange(b, 5, 15); Spans(); Some((r.0, r.1))
  }

  function TakeU64(b: Bytes): Option<(u64, Bytes)> {
    match TakeVarint(b, 10, 1)
    case None => None
    case Some(r) => VarintInRange(b, 10, 1); Spans(); Some((r.0, r.1))
  }

  function U16Codec(): Codec<u16> { Codec((v: u16) => PutVarint(v), TakeU16) }

  function U32Codec(): Codec<u32> { Codec((v: u32) => PutVarint(v), TakeU32) }

  function U64Codec(): Codec<u64> { Codec((v: u64) => PutVarint(v), TakeU64) }

  lemma U16Lawful()
    ensures Lawful(U16Codec())
  {
    Spans();
    forall x: u16, tail ensures ReadsBack(U16Codec(), x, tail) { VarintBack(x, 3, 3, tail); }
    forall b, tail ensures ReadsOn(U16Codec(), b, tail) { if TakeU16(b).Some? { VarintOn(b, 3, 3, tail); } }
  }

  lemma U32Lawful()
    ensures Lawful(U32Codec())
  {
    Spans();
    forall x: u32, tail ensures ReadsBack(U32Codec(), x, tail) { VarintBack(x, 5, 15, tail); }
    forall b, tail ensures ReadsOn(U32Codec(), b, tail) { if TakeU32(b).Some? { VarintOn(b, 5, 15, tail); } }
  }

  lemma U64Lawful()
    ensures Lawful(U64Codec())
  {
    Spans();
    forall x: u64, tail ensures ReadsBack(U64Codec(), x, tail) { VarintBack(x, 10, 1, tail); }
    forall b, tail ensures ReadsOn(U64Codec(), b, tail) { if TakeU64(b).Some? { VarintOn(b, 10, 1, tail); } }
  }

  // ── Bytes and strings ──────────────────────────────────────────────────────

  type Id16 = b: Bytes | |b| == 16 witness seq(16, _ => 0)

  /** A vector whose length is a `usize`. */
  type Blob = b: Bytes | |b| < U64_LIMIT

  /** A string whose UTF-8 form is such a vector. */
  type Chars = s: string | |Utf8.Encode(s)| < U64_LIMIT witness []

  function TakeRaw(b: Bytes, n: nat): Option<(Bytes, Bytes)> {
    if |b| < n then None else Some((b[..n], b[n..]))
  }

  lemma RawBack(x: Bytes, tail: Bytes)
    ensures TakeRaw(x + tail, |x|) == Some((x, tail))
  {
  }

  lemma RawOn(b: Bytes, n: nat, tail: Bytes)
    requires |b| >= n
    ensures TakeRaw(b + tail, n) == Some((b[..n], b[n..] + tail))
  {
    assert (b + tail)[..n] == b[..n] && (b + tail)[n..] == b[n..] + tail;
  }

  function TakeId(b: Bytes): Option<(Id16, Bytes)> {
    if |b| < 16 then None else Some((b[..16], b[16..]))
  }

  function IdCodec(): Codec<Id16> { Codec((x: Id16) => x, TakeId) }

  lemma IdLawful()
    ensures Lawful(IdCodec())
  {
    forall x: Id16, tail ensures ReadsBack(IdCodec(), x, tail) { RawBack(x, tail); }
    forall b, tail ensures ReadsOn(IdCodec(), b, tail) { if |b| >= 16 { RawOn(b, 16, tail); } }
  }

  function PutBlob(x: Blob): Bytes { PutVarint(|x|) + x }

  function TakeBlob(b: Bytes): Option<(Blob, Bytes)> {
    match TakeU64(b)
    case None => None
    case Some(r) => if |r.1| < r.0 then None else Some((r.1[..r.0], r.1[r.0..]))
  }

  function BlobCodec(): Codec<Blob> { Codec(PutBlob, TakeBlob) }

  lemma BlobBack(x: Blob, tail: Bytes)
    ensures TakeBlob(PutBlob(x) + tail) == Some((x, tail))
  {
    U64Lawful();
    assert ReadsBack(U64Codec(), |x|, x + tail);
    assert PutBlob(x) + tail == PutVarint(|x|) + (x + tail);
    RawBack(x, tail);
  }

  lemma BlobOn(b: Bytes, tail: Bytes)
    requires TakeBlob(b).Some?
    ensures TakeBlob(b + tail) == Some((TakeBlob(b).value.0, TakeBlob(b).value.1 + tail))
  {
    U64Lawful();
    assert ReadsOn(U64Codec(), b, tail);
    var r := TakeU64(b).value;
    RawOn(r.1, r.0, tail);
  }

  lemma BlobLawful()
    ensures Lawful(BlobCodec())
  {
    forall x: Blob, tail ensures ReadsBack(BlobCodec(), x, tail) { BlobBack(x, tail); }
    forall b, tail ensures ReadsOn(BlobCodec(), b, tail) { if TakeBlob(b).Some? { BlobOn(b, tail); } }
  }

  function PutChars(s: Chars): Bytes { PutBlob(Utf8.Encode(s)) }

  function TakeChars(b: Bytes): Option<(Chars, Bytes)> {
    match TakeBlob(b)
    case None => None
    case Some(r) =>
      match Utf8.Decode(r.0)
      case None => None
      case Some(s) => Utf8.Canonical(r.0); Some((s, r.1))
  }

  function CharsCodec(): Codec<Chars> { Codec(PutChars, TakeChars) }

  lemma CharsLawful()
    ensures Lawful(CharsCodec())
  {
    forall s: Chars, tail ensures ReadsBack(CharsCodec(), s, tail) {
      BlobBack(Utf8.Encode(s), tail);
      Utf8.RoundTrip(s);
    }
    forall b, tail ensures ReadsOn(CharsCodec(), b, tail) { if TakeBlob(b).Some? { BlobOn(b, tail); } }
  }

  // ── Sequences of fields ────────────────────────────────────────────────────

  function TakePair<A, B>(c: Codec<A>, d: Codec<B>, b: Bytes): Option<((A, B), Bytes)> {
    match c.take(b)
    case None => None
    case Some(r) =>
      match d.take(r.1)
      case None => None
      case Some(q) => Some(((r.0, q.0), q.1))
  }

  function Pair<A, B>(c: Codec<A>, d: Codec<B>): Codec<(A, B)> {
    Codec((x: (A, B)) => c.put(x.0) + d.put(x.1), b => TakePair(c, d, b))
  }

  lemma PairSize<A, B>(c: Codec<A>, d: Codec<B>, x: (A, B))
    ensures |Pair(c, d).put(x)| == |c.put(x.0)| + |d.put(x.1)|
  {
  }

  lemma PairLawful<A(!new), B(!new)>(c: Codec<A>, d: Codec<B>)
    requires Lawful(c) && Lawful(d)
    ensures Lawful(Pair(c, d))
  {
    forall x: (A, B), tail ensures ReadsBack(Pair(c, d), x, tail) {
      assert ReadsBack(c, x.0, d.put(x.1) + tail) && ReadsBack(d, x.1, tail);
      assert c.put(x.0) + d.put(x.1) + tail == c.put(x.0) + (d.put(x.1) + tail);
    }
    forall b, tail ensures ReadsOn(Pair(c, d), b, tail) {
      if c.take(b).Some? {
        assert ReadsOn(c, b, tail) && ReadsOn(d, c.take(b).value.1, tail);
      }
    }
  }

  /** A varint: seven bits a byte, the lowest first, every byte but the last with
      its top bit set, and no byte more than the value needs. */
  lemma {:induction false} VarintLayout(v: nat)
    ensures forall i | 0 <= i < |PutVarint(v)| :: PutVarint(v)[i] >= 128 <==> i < |PutVarint(v)| - 1
    ensures v > 0 ==> PutVarint(v)[|PutVarint(v)| - 1] != 0
    ensures v == SevenBits(PutVarint(v))
  {
    if v >= 128 {
      VarintLayout(v / 128);
      assert PutVarint(v)[1..] == PutVarint(v / 128);
      assert forall i | 1 <= i < |PutVarint(v)| :: PutVarint(v)[i] == PutVarint(v / 128)[i - 1];
      assert v / 128 > 0;
    } else {
      assert PutVarint(v)[1..] == [];
    }
  }

  /** The number whose base-128 digits, least significant first, are the low seven bits of each byte. */
  function SevenBits(b: Bytes): nat {
    if b == [] then 0 else b[0] as nat % 128 + 128 * SevenBits(b[1..])
  }
}
