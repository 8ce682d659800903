/** UTF-8 as Rust's `String` keeps and checks it (RFC 3629). */
module Utf8 {
  import opened Common

  function EncodeChar(c: char): (b: Bytes)
    ensures 1 <= |b| <= 4
  {
    var n := c as int;
    if n < 0x80 then [n]
    else if n < 0x800 then [0xC0 + n / 0x40, 0x80 + n % 0x40]
    else if n < 0x1_0000 then [0xE0 + n / 0x1000, 0x80 + n / 0x40 % 0x40, 0x80 + n % 0x40]
    else [0xF0 + n / 0x4_0000, 0x80 + n / 0x1000 % 0x40, 0x80 + n / 0x40 % 0x40, 0x80 + n % 0x40]
  }

  predicate Continues(b: byte) { 0x80 <= b < 0xC0 }

  /** A scalar value: no surrogates, at most 0x10FFFF. */
  predicate IsScalar(n: int) { 0 <= n < 0xD800 || 0xE000 <= n < 0x11_0000 }

  /** The first character and the bytes after it; overlong forms, surrogates and stray bytes are refused. */
  function TakeChar(b: Bytes): Option<(char, Bytes)> {
    if b == [] then None
    else if b[0] < 0x80 then Some((b[0] as char, b[1..]))
    else if 0xC2 <= b[0] < 0xE0 && |b| >= 2 && Continues(b[1]) then
      Some((((b[0] - 0xC0) * 0x40 + (b[1] as int - 0x80)) as char, b[2..]))
    else if 0xE0 <= b[0] < 0xF0 && |b| >= 3 && Continues(b[1]) && Continues(b[2]) then
      var n: int := (b[0] as int - 0xE0) * 0x1000 + (b[1] as int - 0x80) * 0x40 + (b[2] as int - 0x80);
      if n >= 0x800 && IsScalar(n) then Some((n as char, b[3..])) else None
    else if 0xF0 <= b[0] < 0xF8 && |b| >= 4 && Continues(b[1]) && Continues(b[2]) && Continues(b[3]) then
      var n: int := (b[0] as int - 0xF0) * 0x4_0000 + (b[1] as int - 0x80) * 0x1000 + (b[2] as int - 0x80) * 0x40 + (b[3] as int - 0x80);
      if n >= 0x1_0000 && IsScalar(n) then Some((n as char, b[4..])) else None
    else None
  }

  function Encode(s: string): (b: Bytes)
    ensures |s| <= |b|
  {
    if s == [] then [] else EncodeChar(s[0]) + Encode(s[1..])
  }

  function Decode(b: Bytes): Option<string>
    decreases |b|
  {
    if b == [] then Some([])
    else
      match TakeChar(b)
      case None => None
      case Some(r) =>
        if |r.1| < |b| then
          match Decode(r.1)
          case None => None
          case Some(s) => Some([r.0] + s)
        else None
  }

  lemma TwoBytes(n: int, rest: Bytes)
    requires 0x80 <= n < 0x800
    ensures TakeChar([0xC0 + n / 0x40, 0x80 + n % 0x40] + rest) == Some((n as char, rest))
  {
    var b: Bytes := [0xC0 + n / 0x40, 0x80 + n % 0x40] + rest;
    assert b[2..] == rest && n == n / 0x40 * 0x40 + n % 0x40;
  }

  lemma ThreeBytes(n: int, rest: Bytes)
    requires 0x800 <= n < 0x1_0000 && IsScalar(n)
    ensures TakeChar([0xE0 + n / 0x1000, 0x80 + n / 0x40 % 0x40, 0x80 + n % 0x40] + rest) == Some((n as char, rest))
  {
    var b: Bytes := [0xE0 + n / 0x1000, 0x80 + n / 0x40 % 0x40, 0x80 + n % 0x40] + rest;
    assert b[3..] == rest && n == n / 0x1000 * 0x1000 + n / 0x40 % 0x40 * 0x40 + n % 0x40;
  }

  lemma Sextets(n: int)
    requires 0x1_0000 <= n < 0x11_0000
    ensures n == n / 0x4_0000 * 0x4_0000 + n / 0x1000 % 0x40 * 0x1000 + n / 0x40 % 0x40 * 0x40 + n % 0x40
    ensures n / 0x4_0000 <= 4
  {
    var m := n / 0x1000;
    assert n == m * 0x1000 + n / 0x40 % 0x40 * 0x40 + n % 0x40;
    assert m == m / 0x40 * 0x40 + m % 0x40;
    assert m / 0x40 == n / 0x4_0000;
  }

  lemma FourSextets(a: int, b: int, c: int, d: int, rest: Bytes)
    requires 0 <= a <= 4 && 0 <= b < 0x40 && 0 <= c < 0x40 && 0 <= d < 0x40
    requires 0x1_0000 <= a * 0x4_0000 + b * 0x1000 + c * 0x40 + d < 0x11_0000
    ensures TakeChar([0xF0 + a, 0x80 + b, 0x80 + c, 0x80 + d] + rest)
         == Some(((a * 0x4_0000 + b * 0x1000 + c * 0x40 + d) as char, rest))
  {
    var s: Bytes := [0xF0 + a, 0x80 + b, 0x80 + c, 0x80 + d] + rest;
    assert s[4..] == rest;
  }

  lemma CharRoundTrip(c: char, rest: Bytes)
    ensures TakeChar(EncodeChar(c) + rest) == Some((c, rest))
  {
    var n := c as int;
    if n < 0x80 {
      assert ([n] + rest)[1..] == rest;
    } else if n < 0x800 {
      TwoBytes(n, rest);
    } else if n < 0x1_0000 {
      ThreeBytes(n, rest);
    } else {
      Sextets(n);
      FourSextets(n / 0x4_0000, n / 0x1000 % 0x40, n / 0x40 % 0x40, n % 0x40, rest);
    }
  }

  /** Decoding inverts encoding for every string. */
  lemma {:induction false} RoundTrip(s: string)
    ensures Decode(Encode(s)) == Some(s)
  {
    if s != [] {
      CharRoundTrip(s[0], Encode(s[1..]));
      RoundTrip(s[1..]);
      assert s == [s[0]] + s[1..];
    }
  }

  /** The last six bits and the others. */
  lemma LastSextet(q: int, r: int)
    requires 0 <= q && 0 <= r < 0x40
    ensures (q * 0x40 + r) / 0x40 == q && (q * 0x40 + r) % 0x40 == r
  {
  }

  lemma TwoSextetsUp(n: int)
    requires 0 <= n
    ensures n / 0x1000 == n / 0x40 / 0x40 && n / 0x4_0000 == n / 0x1000 / 0x40
  {
  }

  lemma ThreeBack(a: int, b: int, c: int)
    requires 0 <= a < 16 && 0 <= b < 0x40 && 0 <= c < 0x40
    ensures var n := a * 0x1000 + b * 0x40 + c; n / 0x1000 == a && n / 0x40 % 0x40 == b && n % 0x40 == c
  {
    var m := a * 0x40 + b;
    LastSextet(a, b);
    LastSextet(m, c);
    TwoSextetsUp(m * 0x40 + c);
    assert m * 0x40 + c == a * 0x1000 + b * 0x40 + c;
  }

  lemma FourBack(a: int, b: int, c: int, d: int)
    requires 0 <= a < 8 && 0 <= b < 0x40 && 0 <= c < 0x40 && 0 <= d < 0x40
    ensures var n := a * 0x4_0000 + b * 0x1000 + c * 0x40 + d;
            n / 0x4_0000 == a && n / 0x1000 % 0x40 == b && n / 0x40 % 0x40 == c && n % 0x40 == d
  {
    var m := a * 0x40 + b;
    var k := m * 0x40 + c;
    LastSextet(a, b);
    LastSextet(m, c);
    LastSextet(k, d);
    TwoSextetsUp(k * 0x40 + d);
    assert k * 0x40 + d == a * 0x4_0000 + b * 0x1000 + c * 0x40 + d;
  }

  lemma FourCanonical(b: Bytes)
    requires TakeChar(b).Some? && b[0] >= 0xF0
    ensures b == EncodeChar(TakeChar(b).value.0) + TakeChar(b).value.1
  {
    FourBack(b[0] as int - 0xF0, b[1] as int - 0x80, b[2] as int - 0x80, b[3] as int - 0x80);
    var c := TakeChar(b).value.0;
    assert c as int >= 0x1_0000;
    assert EncodeChar(c) == b[..4];
  }

  lemma ThreeCanonical(b: Bytes)
    requires TakeChar(b).Some? && 0xE0 <= b[0] < 0xF0
    ensures b == EncodeChar(TakeChar(b).value.0) + TakeChar(b).value.1
  {
    ThreeBack(b[0] as int - 0xE0, b[1] as int - 0x80, b[2] as int - 0x80);
    var c := TakeChar(b).value.0;
    assert 0x800 <= c as int < 0x1_0000;
    assert EncodeChar(c) == b[..3];
  }

  lemma ShortCanonical(b: Bytes)
    requires TakeChar(b).Some? && b[0] < 0xE0
    ensures b == EncodeChar(TakeChar(b).value.0) + TakeChar(b).value.1
  {
    var c := TakeChar(b).value.0;
    assert EncodeChar(c) == if b[0] < 0x80 then b[..1] else b[..2];
  }

  lemma CharCanonical(b: Bytes)
    requires TakeChar(b).Some?
    ensures b == EncodeChar(TakeChar(b).value.0) + TakeChar(b).value.1
  {
    if b[0] >= 0xF0 {
      FourCanonical(b);
    } else if b[0] >= 0xE0 {
      ThreeCanonical(b);
    } else {
      ShortCanonical(b);
    }
  }

  /** Only the encoding of a string decodes to it. */
  lemma {:induction false} Canonical(b: Bytes)
    requires Decode(b).Some?
    ensures Encode(Decode(b).value) == b
    decreases |b|
  {
    if b != [] {
      CharCanonical(b);
      var r := TakeChar(b).value;
      Canonical(r.1);
      var s := Decode(b).value;
      assert s[0] == r.0 && s[1..] == Decode(r.1).value;
    }
  }
}
