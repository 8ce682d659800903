/** Text primitives the components share: splitting on a separator, decimal and hexadecimal notation. */
module Text {
  import opened Common

  // ── Splitting ──────────────────────────────────────────────────────────────

  /** `str::split(sep)`: always at least one piece, empty pieces kept. */
  function Split(s: string, sep: char): (r: seq<string>)
    ensures |r| >= 1
  {
    if s == [] then [[]]
    else
      var rest := Split(s[1..], sep);
      if s[0] == sep then [[]] + rest else [[s[0]] + rest[0]] + rest[1..]
  }

  function Join(parts: seq<string>, sep: char): string
    requires |parts| >= 1
  {
    if |parts| == 1 then parts[0] else parts[0] + [sep] + Join(parts[1..], sep)
  }

  /** Joining the pieces gives the string back, so splitting is injective. */
  lemma {:induction false} JoinSplit(s: string, sep: char)
    ensures Join(Split(s, sep), sep) == s
  {
    if s != [] {
      JoinSplit(s[1..], sep);
      var rest := Split(s[1..], sep);
      if s[0] == sep {
        assert ([[]] + rest)[1..] == rest;
        assert s == [] + [sep] + s[1..];
      } else {
        assert ([[s[0]] + rest[0]] + rest[1..])[1..] == rest[1..];
        assert s == [s[0]] + s[1..];
      }
    }
  }

  lemma {:induction false} SplitInjective(a: string, b: string, sep: char)
    requires Split(a, sep) == Split(b, sep)
    ensures a == b
  {
    JoinSplit(a, sep);
    JoinSplit(b, sep);
  }

  function Prepend(c: char, pieces: seq<string>, sep: char): seq<string>
    requires |pieces| >= 1
  {
    if c == sep then [[]] + pieces else [[c] + pieces[0]] + pieces[1..]
  }

  lemma {:induction false} SplitCons(c: char, s: string, sep: char)
    ensures Split([c] + s, sep) == Prepend(c, Split(s, sep), sep)
  {
    assert ([c] + s)[1..] == s;
  }

  lemma {:induction false} PrependConcat(c: char, p: seq<string>, q: seq<string>, sep: char)
    requires |p| >= 1
    ensures Prepend(c, p + q, sep) == Prepend(c, p, sep) + q
  {
    assert (p + q)[1..] == p[1..] + q;
  }

  /** A separator cuts the piece list in two. */
  lemma {:induction false} SplitConcat(a: string, b: string, sep: char)
    ensures Split(a + [sep] + b, sep) == Split(a, sep) + Split(b, sep)
  {
    if a == [] {
      SplitCons(sep, b, sep);
      assert a + [sep] + b == [sep] + b;
    } else {
      var tail := a[1..] + [sep] + b;
      SplitConcat(a[1..], b, sep);
      SplitCons(a[0], tail, sep);
      SplitCons(a[0], a[1..], sep);
      PrependConcat(a[0], Split(a[1..], sep), Split(b, sep), sep);
      assert a + [sep] + b == [a[0]] + tail;
      assert a == [a[0]] + a[1..];
    }
  }

  lemma {:induction false} SplitWithoutSep(s: string, sep: char)
    requires sep !in s
    ensures Split(s, sep) == [s]
  {
    if s != [] {
      SplitWithoutSep(s[1..], sep);
      assert [s[0]] + s[1..] == s;
    }
  }

  lemma {:induction false} PiecesHaveNoSep(s: string, sep: char)
    ensures forall p | p in Split(s, sep) :: sep !in p
  {
    if s != [] {
      PiecesHaveNoSep(s[1..], sep);
    }
  }

  /** The pieces hold exactly the string's non-separator characters. */
  lemma {:induction false} PiecesCoverString(s: string, sep: char, c: char)
    requires c != sep
    ensures c in s <==> exists i :: 0 <= i < |Split(s, sep)| && c in Split(s, sep)[i]
  {
    if s != [] {
      PiecesCoverString(s[1..], sep, c);
      var rest := Split(s[1..], sep);
      var all := Split(s, sep);
      if s[0] == sep {
        forall i | 0 <= i < |rest| ensures all[i + 1] == rest[i] {}
        assert forall i | 0 <= i < |all| && c in all[i] :: i > 0 && c in rest[i - 1];
      } else {
        forall i | 1 <= i < |rest| ensures all[i] == rest[i] {}
        assert c in all[0] <==> c == s[0] || c in rest[0];
      }
    }
  }

  lemma {:induction false} SplitJoin(parts: seq<string>, sep: char)
    requires |parts| >= 1
    requires forall p | p in parts :: sep !in p
    ensures Split(Join(parts, sep), sep) == parts
  {
    SplitWithoutSep(parts[0], sep);
    if |parts| > 1 {
      SplitJoin(parts[1..], sep);
      SplitConcat(parts[0], Join(parts[1..], sep), sep);
      assert parts == [parts[0]] + parts[1..];
    }
  }

  lemma {:induction false} JoinConcat(a: seq<string>, b: seq<string>, sep: char)
    requires |a| >= 1 && |b| >= 1
    ensures Join(a + b, sep) == Join(a, sep) + [sep] + Join(b, sep)
  {
    if |a| == 1 {
      assert (a + b)[1..] == b;
    } else {
      JoinConcat(a[1..], b, sep);
      assert (a + b)[1..] == a[1..] + b;
    }
  }

  // ── Decimal ────────────────────────────────────────────────────────────────

  predicate IsDigit(c: char) { '0' <= c <= '9' }

  function DigitChar(d: nat): (c: char)
    requires d < 10
    ensures IsDigit(c) && c as int - 48 == d
  {
    (48 + d) as char
  }

  function DigitValue(c: char): nat
    requires IsDigit(c)
  {
    c as int - 48
  }

  predicate AllDigits(s: string) { forall i | 0 <= i < |s| :: IsDigit(s[i]) }

  /** `format!("{n}")` for an unsigned integer. */
  function Digits(n: nat): (s: string)
    ensures |s| >= 1 && AllDigits(s)
  {
    if n < 10 then [DigitChar(n)] else Digits(n / 10) + [DigitChar(n % 10)]
  }

  function DigitsValue(s: string): nat
    requires AllDigits(s)
  {
    if s == [] then 0 else 10 * DigitsValue(s[..|s| - 1]) + DigitValue(s[|s| - 1])
  }

  lemma {:induction false} DigitsRoundTrip(n: nat)
    ensures DigitsValue(Digits(n)) == n
  {
    var s := Digits(n);
    if n < 10 {
      assert s[..|s| - 1] == [];
    } else {
      DigitsRoundTrip(n / 10);
      assert s[..|s| - 1] == Digits(n / 10);
    }
  }

  predicate Canonical(s: string) { |s| >= 1 && AllDigits(s) && (|s| > 1 ==> s[0] != '0') }

  lemma {:induction false} DigitsCanonical(n: nat)
    ensures Canonical(Digits(n)) && (n > 0 ==> Digits(n)[0] != '0')
  {
    if n >= 10 { DigitsCanonical(n / 10); }
  }

  lemma {:induction false} CanonicalPositive(s: string)
    requires AllDigits(s) && |s| >= 1 && s[0] != '0'
    ensures DigitsValue(s) > 0
  {
    if |s| > 1 { CanonicalPositive(s[..|s| - 1]); } else { assert s[..0] == []; }
  }

  /** Printing undoes parsing on numerals without leading zeros. */
  lemma {:induction false} CanonicalRoundTrip(s: string)
    requires Canonical(s)
    ensures Digits(DigitsValue(s)) == s
  {
    if |s| == 1 {
      assert s[..0] == [];
      assert s == [s[0]];
    } else {
      var init, last := s[..|s| - 1], DigitValue(s[|s| - 1]);
      CanonicalRoundTrip(init);
      CanonicalPositive(init);
      var n := DigitsValue(s);
      assert n / 10 == DigitsValue(init) && n % 10 == last;
      assert s == init + [s[|s| - 1]];
    }
  }

  /** `str::parse::<u64>`: an optional `+`, then at least one digit, within range. */
  function ParseU64(s: string): (r: Option<u64>)
  {
    var body := if |s| >= 1 && s[0] == '+' then s[1..] else s;
    if |body| >= 1 && AllDigits(body) && DigitsValue(body) < U64_LIMIT
    then Some(DigitsValue(body)) else None
  }

  /** `str::parse::<i64>`: an optional sign, then at least one digit, within range. */
  function ParseI64(s: string): (r: Option<i64>)
  {
    var negative := |s| >= 1 && s[0] == '-';
    var body := if |s| >= 1 && (s[0] == '+' || s[0] == '-') then s[1..] else s;
    if |body| >= 1 && AllDigits(body) then
      var v: int := if negative then 0 - DigitsValue(body) else DigitsValue(body);
      if -I64_LIMIT <= v < I64_LIMIT then Some(v) else None
    else None
  }

  /** `format!("{n}")` for a signed integer. */
  function ShowInt(n: int): (s: string)
    ensures |s| >= 1
  {
    if n < 0 then "-" + Digits(0 - n) else Digits(n)
  }

  lemma {:induction false} ParseShowU64(n: u64)
    ensures ParseU64(Digits(n)) == Some(n)
  {
    DigitsRoundTrip(n);
    assert IsDigit(Digits(n)[0]);
  }

  lemma {:induction false} ParseShowI64(n: i64)
    ensures ParseI64(ShowInt(n)) == Some(n)
  {
    if n < 0 {
      DigitsRoundTrip(0 - n);
      assert ShowInt(n)[1..] == Digits(0 - n);
    } else {
      DigitsRoundTrip(n);
      assert IsDigit(Digits(n)[0]);
    }
  }

  // ── Hexadecimal ────────────────────────────────────────────────────────────

  function HexChar(d: nat): (c: char)
    requires d < 16
  {
    if d < 10 then (48 + d) as char else (87 + d) as char
  }

  function HexValue(c: char): (r: Option<nat>)
    ensures r.Some? ==> r.value < 16
  {
    if '0' <= c <= '9' then Some(c as int - 48)
    else if 'a' <= c <= 'f' then Some(c as int - 87)
    else if 'A' <= c <= 'F' then Some(c as int - 55)
    else None
  }

  /** `hex::encode`: two lower-case digits a byte. */
  function HexEncode(b: Bytes): (s: string)
    ensures |s| == 2 * |b|
  {
    if b == [] then [] else [HexChar(b[0] / 16), HexChar(b[0] % 16)] + HexEncode(b[1..])
  }

  /** `hex::decode`: even length, digits of either case. */
  function HexDecode(s: string): (r: Option<Bytes>)
    ensures r.Some? ==> |s| == 2 * |r.value|
  {
    if s == [] then Some([])
    else if |s| == 1 then None
    else
      var hi, lo, rest := HexValue(s[0]), HexValue(s[1]), HexDecode(s[2..]);
      if hi.Some? && lo.Some? && rest.Some? then
        var first: byte := 16 * hi.value + lo.value;
        Some([first] + rest.value)
      else None
  }

  lemma {:induction false} HexRoundTrip(b: Bytes)
    ensures HexDecode(HexEncode(b)) == Some(b)
  {
    if b != [] {
      HexRoundTrip(b[1..]);
      assert HexEncode(b)[2..] == HexEncode(b[1..]);
      assert b == [b[0]] + b[1..];
    }
  }

  lemma {:induction false} HexAlphabet(b: Bytes)
    ensures forall i | 0 <= i < |HexEncode(b)| :: IsDigit(HexEncode(b)[i]) || 'a' <= HexEncode(b)[i] <= 'f'
  {
    if b != [] { HexAlphabet(b[1..]); }
  }

  /** The digits of a byte: high half first, `0`-`9` then `a`-`f`. */
  lemma {:induction false} HexDigits(b: Bytes, i: nat)
    requires i < |b|
    ensures HexEncode(b)[2 * i] == "0123456789abcdef"[b[i] / 16] && HexEncode(b)[2 * i + 1] == "0123456789abcdef"[b[i] % 16]
  {
    if i > 0 {
      HexDigits(b[1..], i - 1);
    } else {
      HexTable(b[0] / 16);
      HexTable(b[0] % 16);
    }
  }

  lemma HexTable(d: nat)
    requires d < 16
    ensures HexChar(d) == "0123456789abcdef"[d]
  {
  }

  predicate IsHexDigit(c: char) { '0' <= c <= '9' || 'a' <= c <= 'f' || 'A' <= c <= 'F' }

  function LowerHexChar(c: char): char { if 'A' <= c <= 'F' then (c as int + 32) as char else c }

  /** A text decodes exactly when it is an even number of hex digits of either case. */
  lemma {:induction false} HexDecodes(s: string)
    ensures HexDecode(s).Some? <==> |s| % 2 == 0 && forall i | 0 <= i < |s| :: IsHexDigit(s[i])
  {
    if |s| >= 2 {
      HexDecodes(s[2..]);
      assert forall i | 2 <= i < |s| :: s[i] == s[2..][i - 2];
    }
  }

  lemma HexPair(h: char, l: char)
    requires HexValue(h).Some? && HexValue(l).Some?
    ensures var n := 16 * HexValue(h).value + HexValue(l).value;
            HexChar(n / 16) == LowerHexChar(h) && HexChar(n % 16) == LowerHexChar(l)
  {
  }

  /** Encoding what was decoded gives the text back in lower case. */
  lemma {:induction false} HexDecodesBack(s: string, i: nat)
    requires HexDecode(s).Some? && i < |s|
    ensures HexEncode(HexDecode(s).value)[i] == LowerHexChar(s[i])
  {
    var b := HexDecode(s).value;
    assert b[1..] == HexDecode(s[2..]).value;
    if i >= 2 {
      HexDecodesBack(s[2..], i - 2);
    } else {
      HexPair(s[0], s[1]);
    }
  }

  /** A plus sign is read over, and what does not fit the type is refused. */
  lemma {:induction false} NumberTexts(n: nat)
    ensures ParseU64("+" + Digits(n)) == ParseU64(Digits(n)) && ParseI64("+" + Digits(n)) == ParseI64(Digits(n))
    ensures ParseU64(Digits(n)) == if n < 0x1_0000_0000_0000_0000 then Some(n) else None
    ensures ParseI64(Digits(n)) == if n < 0x8000_0000_0000_0000 then Some(n) else None
  {
    DigitsRoundTrip(n);
    assert IsDigit(Digits(n)[0]);
    assert ("+" + Digits(n))[1..] == Digits(n);
  }
}
