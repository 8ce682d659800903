/** Keys, peer ids, display names and the payload both sides of a pairing sign
    (crates/entangle-pairing/src/envelope.rs, helpers of net.rs). */
module Identity {
  import opened Common
  import opened Text
  import Utf8

  type Key = k: Bytes | |k| == 32 witness seq(32, _ => 0)

  type Nonce = n: Bytes | |n| == 32 witness seq(32, _ => 0)

  type PeerId = p: Bytes | |p| == 16 witness seq(16, _ => 0)

  /** A six-digit pairing code. */
  type Code = c: int | 100_000 <= c <= 999_999 witness 100_000

  /** `decode_key`: 64 hex characters. */
  function DecodeKey(s: string): (r: Option<Key>)
    ensures r.Some? <==> HexDecode(s).Some? && |HexDecode(s).value| == 32
    ensures r.Some? ==> HexDecode(s) == Some(r.value)
  {
    match HexDecode(s)
    case Some(b) => if |b| == 32 then Some(b) else None
    case None => None
  }

  lemma DecodeEncodedKey(k: Key)
    ensures DecodeKey(HexEncode(k)) == Some(k)
  {
    HexRoundTrip(k);
  }

  // ── The signed payload ─────────────────────────────────────────────────────

  function Le32(n: u32): (b: Bytes)
    ensures |b| == 4
  {
    var n1 := n / 256;
    var n2 := n1 / 256;
    var n3 := n2 / 256;
    [n % 256, n1 % 256, n2 % 256, n3 % 256]
  }

  function FromLe32(b: Bytes): int
    requires |b| == 4
  {
    (b[0] as int) + 0x100 * (b[1] as int) + 0x1_0000 * (b[2] as int) + 0x100_0000 * (b[3] as int)
  }

  lemma Le32RoundTrip(n: u32)
    ensures FromLe32(Le32(n)) == n
  {
    var n1 := n / 256;
    var n2 := n1 / 256;
    var n3 := n2 / 256;
    assert n == n1 * 256 + n % 256 && n1 == n2 * 256 + n1 % 256 && n2 == n3 * 256 + n2 % 256;
    assert n3 < 256;
  }

  /** `nonce || code (little endian) || zeros`, 64 bytes. */
  function Payload(code: Code, nonce: Nonce): (b: Bytes)
    ensures |b| == 64
  {
    nonce + Le32(code) + seq(28, _ => 0)
  }

  /** Equal payloads come from the same code and nonce. */
  lemma PayloadInjective(c: Code, n: Nonce, d: Code, m: Nonce)
    requires Payload(c, n) == Payload(d, m)
    ensures c == d && n == m
  {
    assert Payload(c, n)[..32] == n && Payload(d, m)[..32] == m;
    assert Payload(c, n)[32..36] == Le32(c) && Payload(d, m)[32..36] == Le32(d);
    Le32RoundTrip(c);
    Le32RoundTrip(d);
  }

  /** The 64 bytes: the nonce, the code with its least significant byte first, zeros. */
  lemma PayloadLayout(code: Code, nonce: Nonce)
    ensures var b := Payload(code, nonce);
            && b[..32] == nonce && (forall i | 36 <= i < 64 :: b[i] == 0)
            && code == b[32] as int + 256 * b[33] as int + 65536 * b[34] as int + 16777216 * b[35] as int
  {
    var b := Payload(code, nonce);
    assert b[32..36] == Le32(code);
    assert b[32] == b[32..36][0] && b[33] == b[32..36][1] && b[34] == b[32..36][2] && b[35] == b[32..36][3];
    Le32RoundTrip(code);
  }

  /** `signing_payload` fills a zeroed 64-byte buffer by two slice copies. */
  method SigningPayload(code: Code, nonce: Nonce) returns (buf: array<byte>)
    ensures fresh(buf) && buf[..] == Payload(code, nonce)
  {
    buf := new byte[64](_ => 0);
    var le := Le32(code);
    for i := 0 to 32
      invariant forall j | 0 <= j < 64 :: buf[j] == if j < i then nonce[j] else 0
    {
      buf[i] := nonce[i];
    }
    for i := 0 to 4
      invariant forall j | 0 <= j < 64 :: buf[j] == if j < 32 then nonce[j] else if j < 32 + i then le[j - 32] else 0
    {
      buf[32 + i] := le[i];
    }
  }

  // ── Display names ──────────────────────────────────────────────────────────

  const MAX_DISPLAY_NAME_LEN: int := 64

  /** `char::is_control`: Unicode general category Cc. */
  predicate IsControl(c: char) { c as int < 0x20 || 0x7F <= c as int < 0xA0 }

  /** `char::len_utf8`. */
  function CharLen(c: char): (n: nat)
    ensures 1 <= n <= 4
  {
    if c as int < 0x80 then 1 else if c as int < 0x800 then 2 else if c as int < 0x1_0000 then 3 else 4
  }

  function Utf8Len(s: string): nat {
    if s == [] then 0 else Utf8Len(s[..|s| - 1]) + CharLen(s[|s| - 1])
  }

  /** The byte bound counts UTF-8 bytes. */
  lemma {:induction false} Utf8LenIsEncoded(s: string)
    ensures Utf8Len(s) == |Utf8.Encode(s)|
  {
    if s != [] {
      Utf8LenIsEncoded(s[..|s| - 1]);
      assert s == s[..|s| - 1] + [s[|s| - 1]];
      EncodeSnoc(s[..|s| - 1], s[|s| - 1]);
    }
  }

  lemma {:induction false} EncodeSnoc(s: string, c: char)
    ensures |Utf8.Encode(s + [c])| == |Utf8.Encode(s)| + |Utf8.EncodeChar(c)|
  {
    if s == [] {
      assert s + [c] == [c] && [c][1..] == [];
    } else {
      assert (s + [c])[1..] == s[1..] + [c];
      EncodeSnoc(s[1..], c);
    }
  }

  function WithoutControls(s: string): (r: string)
    ensures forall i | 0 <= i < |r| :: !IsControl(r[i])
  {
    if s == [] then []
    else
      var init := WithoutControls(s[..|s| - 1]);
      if IsControl(s[|s| - 1]) then init else init + [s[|s| - 1]]
  }

  /** A prefix of `s` within the byte bound that the next character would overflow. */
  predicate LongestFit(r: string, s: string) {
    && r <= s && Utf8Len(r) <= MAX_DISPLAY_NAME_LEN
    && (|r| < |s| ==> Utf8Len(r) + CharLen(s[|r|]) > MAX_DISPLAY_NAME_LEN)
  }

  function Fit(s: string): (r: string)
    ensures LongestFit(r, s)
  {
    if s == [] then []
    else
      var n := |s| - 1;
      var r := Fit(s[..n]);
      if |r| == n && Utf8Len(r) + CharLen(s[n]) <= MAX_DISPLAY_NAME_LEN then
        assert s[..n + 1] == s && r == s[..n];
        s
      else r
  }

  function Sanitize(s: string): string { Fit(WithoutControls(s)) }

  lemma {:induction false} Utf8LenPrefix(r: string, s: string)
    requires r < s
    ensures Utf8Len(r) + CharLen(s[|r|]) <= Utf8Len(s)
    decreases |s|
  {
    var init := s[..|s| - 1];
    if |r| == |s| - 1 {
      assert r == init;
    } else {
      assert init[|r|] == s[|r|];
      Utf8LenPrefix(r, init);
    }
  }

  /** There is only one longest fit. */
  lemma LongestFitUnique(r: string, q: string, s: string)
    requires LongestFit(r, s) && LongestFit(q, s)
    ensures r == q
  {
    if |r| < |q| {
      assert r < q && q[|r|] == s[|r|];
      Utf8LenPrefix(r, q);
    } else if |q| < |r| {
      assert q < r && r[|q|] == s[|q|];
      Utf8LenPrefix(q, r);
    }
  }

  lemma {:induction false} NoControlsKept(s: string)
    requires forall i | 0 <= i < |s| :: !IsControl(s[i])
    ensures WithoutControls(s) == s
  {
    if s != [] {
      NoControlsKept(s[..|s| - 1]);
      assert s == s[..|s| - 1] + [s[|s| - 1]];
    }
  }

  /** A sanitized name has no control characters, at most 64 bytes, and is left alone by a second pass. */
  lemma SanitizeIdempotent(s: string)
    ensures Utf8Len(Sanitize(s)) <= MAX_DISPLAY_NAME_LEN
    ensures forall i | 0 <= i < |Sanitize(s)| :: !IsControl(Sanitize(s)[i])
    ensures Sanitize(Sanitize(s)) == Sanitize(s)
  {
    var t, u := WithoutControls(s), Sanitize(s);
    assert u <= t;
    assert forall i | 0 <= i < |u| :: u[i] == t[i];
    NoControlsKept(u);
    LongestFitUnique(Fit(u), u, u);
  }

  /** A name is left alone exactly when it has at most 64 bytes and none of
      U+0000 to U+001F and U+007F to U+009F. */
  lemma SanitizeKeeps(s: string)
    ensures Sanitize(s) == s <==>
              |Utf8.Encode(s)| <= 64 && forall i | 0 <= i < |s| :: 0x20 <= s[i] as int < 0x7F || 0xA0 <= s[i] as int
  {
    Utf8LenIsEncoded(s);
    SanitizeIdempotent(s);
    if |Utf8.Encode(s)| <= 64 && forall i | 0 <= i < |s| :: 0x20 <= s[i] as int < 0x7F || 0xA0 <= s[i] as int {
      NoControlsKept(s);
      LongestFitUnique(Fit(s), s, s);
    }
  }

  /** `sanitize_display_name`: skip controls, stop at the first character that does not fit. */
  method SanitizeDisplayName(input: string) returns (out: string)
    ensures out == Sanitize(input)
  {
    out := [];
    var i, stopped := 0, false;
    while i < |input| && !stopped
      invariant 0 <= i <= |input|
      invariant !stopped ==> out == WithoutControls(input[..i]) && Utf8Len(out) <= MAX_DISPLAY_NAME_LEN
      invariant stopped ==> LongestFit(out, WithoutControls(input))
      decreases |input| - i, !stopped
    {
      var c := input[i];
      assert input[..i + 1][..i] == input[..i];
      if !IsControl(c) {
        if Utf8Len(out) + CharLen(c) > MAX_DISPLAY_NAME_LEN {
          stopped := true;
          WithoutControlsPrefix(input, i + 1);
        } else {
          out := out + [c];
        }
      }
      if !stopped { i := i + 1; }
    }
    assert !stopped ==> input[..i] == input;
    LongestFitUnique(out, Sanitize(input), WithoutControls(input));
  }

  lemma {:induction false} WithoutControlsPrefix(s: string, n: nat)
    requires n <= |s|
    ensures WithoutControls(s[..n]) <= WithoutControls(s)
  {
    if n == |s| {
      assert s[..n] == s;
    } else {
      assert s[..|s| - 1][..n] == s[..n];
      WithoutControlsPrefix(s[..|s| - 1], n);
    }
  }
}
