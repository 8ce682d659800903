/** Printing and re-reading one Datalog fact line
    (crates/entangle-biscuits/src/claims.rs, crates/entangle-biscuits/src/verifier.rs). */
module Datalog {
  import opened Common
  import opened Text
  import opened Identity

  // ── Escaping ───────────────────────────────────────────────────────────────

  function EscapeChar(c: char): string { if c == '\\' || c == '"' then ['\\', c] else [c] }

  /** `str::replace` of one character by a string. */
  function ReplaceChar(s: string, c: char, with: string): string {
    if s == [] then [] else (if s[0] == c then with else [s[0]]) + ReplaceChar(s[1..], c, with)
  }

  /** `escape`: double the backslashes, then put one before every quote. */
  function Escape(s: string): string { ReplaceChar(ReplaceChar(s, '\\', ['\\', '\\']), '"', ['\\', '"']) }

  /** The two passes in one. */
  function EscapeEach(s: string): string { if s == [] then [] else EscapeChar(s[0]) + EscapeEach(s[1..]) }

  lemma {:induction false} ReplaceCharConcat(a: string, b: string, c: char, with: string)
    ensures ReplaceChar(a + b, c, with) == ReplaceChar(a, c, with) + ReplaceChar(b, c, with)
  {
    if a == [] {
      assert a + b == b;
    } else {
      assert (a + b)[1..] == a[1..] + b;
      ReplaceCharConcat(a[1..], b, c, with);
    }
  }

  lemma {:induction false} EscapePasses(s: string)
    ensures Escape(s) == EscapeEach(s)
  {
    if s != [] {
      EscapePasses(s[1..]);
      var first, rest := if s[0] == '\\' then ['\\', '\\'] else [s[0]], ReplaceChar(s[1..], '\\', ['\\', '\\']);
      assert ReplaceChar(s, '\\', ['\\', '\\']) == first + rest;
      ReplaceCharConcat(first, rest, '"', ['\\', '"']);
      EscapeOne(s[0]);
    }
  }

  lemma EscapeOne(c: char)
    ensures ReplaceChar(if c == '\\' then ['\\', '\\'] else [c], '"', ['\\', '"']) == EscapeChar(c)
  {
    if c == '\\' {
      var two := ['\\', '\\'];
      assert two[1..] == ['\\'] && two[1..][1..] == [];
      assert ReplaceChar(['\\'], '"', ['\\', '"']) == ['\\'] + ReplaceChar([], '"', ['\\', '"']);
    } else {
      assert [c][1..] == [];
    }
  }

  /** `str::replace` of a two-character pattern by one character, left to right. */
  function Replace(s: string, a: char, b: char, c: char): string {
    if |s| >= 2 && s[0] == a && s[1] == b then [c] + Replace(s[2..], a, b, c)
    else if s == [] then []
    else [s[0]] + Replace(s[1..], a, b, c)
  }

  /** The two passes of `parse_string_term`. */
  function Unescape(s: string): string { Replace(Replace(s, '\\', '"', '"'), '\\', '\\', '\\') }

  function Doubled(s: string): string {
    if s == [] then [] else (if s[0] == '\\' then ['\\', '\\'] else [s[0]]) + Doubled(s[1..])
  }

  lemma ReplacePair(t: string, a: char, b: char, c: char)
    ensures Replace([a, b] + t, a, b, c) == [c] + Replace(t, a, b, c)
  {
    assert ([a, b] + t)[2..] == t;
  }

  lemma ReplaceSkip(x: char, t: string, a: char, b: char, c: char)
    requires x != a || t == [] || t[0] != b
    ensures Replace([x] + t, a, b, c) == [x] + Replace(t, a, b, c)
  {
    assert ([x] + t)[1..] == t;
    if t != [] { assert ([x] + t)[1] == t[0]; }
  }

  lemma {:induction false} EachStartsNoQuote(s: string)
    ensures EscapeEach(s) == [] || EscapeEach(s)[0] != '"'
  {
  }

  lemma {:induction false} FirstPassBackslash(rest: string)
    requires rest == [] || rest[0] != '"'
    ensures Replace(['\\', '\\'] + rest, '\\', '"', '"') == ['\\', '\\'] + Replace(rest, '\\', '"', '"')
  {
    ReplaceSkip('\\', rest, '\\', '"', '"');
    ReplaceSkip('\\', ['\\'] + rest, '\\', '"', '"');
    assert ['\\', '\\'] + rest == ['\\'] + (['\\'] + rest);
  }

  lemma {:induction false} FirstPass(s: string)
    ensures Replace(EscapeEach(s), '\\', '"', '"') == Doubled(s)
  {
    if s != [] {
      var rest := EscapeEach(s[1..]);
      FirstPass(s[1..]);
      EachStartsNoQuote(s[1..]);
      if s[0] == '\\' {
        FirstPassBackslash(rest);
      } else if s[0] == '"' {
        ReplacePair(rest, '\\', '"', '"');
      } else {
        ReplaceSkip(s[0], rest, '\\', '"', '"');
      }
    }
  }

  lemma {:induction false} SecondPass(s: string)
    ensures Replace(Doubled(s), '\\', '\\', '\\') == s
  {
    if s != [] {
      SecondPass(s[1..]);
      assert s == [s[0]] + s[1..];
      if s[0] == '\\' {
        ReplacePair(Doubled(s[1..]), '\\', '\\', '\\');
      } else {
        ReplaceSkip(s[0], Doubled(s[1..]), '\\', '\\', '\\');
      }
    }
  }

  /** The two-pass unescape inverts the escape for every string of backslashes, quotes and anything else. */
  lemma UnescapeEscape(s: string)
    ensures Unescape(Escape(s)) == s
  {
    EscapePasses(s);
    FirstPass(s);
    SecondPass(s);
  }

  predicate Plain(s: string) { '\\' !in s && '"' !in s }

  lemma {:induction false} EachPlain(s: string)
    requires Plain(s)
    ensures EscapeEach(s) == s
  {
    if s != [] {
      EachPlain(s[1..]);
      assert s == [s[0]] + s[1..];
    }
  }

  lemma {:induction false} EachKeeps(s: string, c: char)
    requires c != '\\' && c != '"'
    ensures c in EscapeEach(s) <==> c in s
  {
    if s != [] {
      EachKeeps(s[1..], c);
      assert s == [s[0]] + s[1..];
    }
  }

  lemma EscapePlain(s: string)
    requires Plain(s)
    ensures Escape(s) == s
  {
    EscapePasses(s);
    EachPlain(s);
  }

  lemma EscapeKeeps(s: string, c: char)
    requires c != '\\' && c != '"'
    ensures c in Escape(s) <==> c in s
  {
    EscapePasses(s);
    EachKeeps(s, c);
  }

  lemma {:induction false} ReplaceAddsNothing(s: string, a: char, b: char, c: char, x: char)
    requires x != c && x !in s
    ensures x !in Replace(s, a, b, c)
    decreases |s|
  {
    if |s| >= 2 && s[0] == a && s[1] == b {
      ReplaceAddsNothing(s[2..], a, b, c, x);
    } else if s != [] {
      ReplaceAddsNothing(s[1..], a, b, c, x);
    }
  }

  // ── Trimming ───────────────────────────────────────────────────────────────

  /** `char::is_whitespace`: the Unicode White_Space property. */
  predicate IsSpace(c: char) {
    var n := c as int;
    || 0x09 <= n <= 0x0D || n == 0x20 || n == 0x85 || n == 0xA0 || n == 0x1680
    || 0x2000 <= n <= 0x200A || n == 0x2028 || n == 0x2029 || n == 0x202F || n == 0x205F || n == 0x3000
  }

  /** The 25 code points. */
  lemma SpacesAre(c: char)
    ensures IsSpace(c) <==>
              c as int in {9, 10, 11, 12, 13, 32, 133, 160, 5760, 8192, 8193, 8194, 8195, 8196, 8197, 8198, 8199, 8200, 8201, 8202,
                           8232, 8233, 8239, 8287, 12288}
  {
  }

  function SpaceStart(s: string, i: nat): (r: nat)
    requires i <= |s|
    ensures i <= r <= |s|
    decreases |s| - i
  {
    if i < |s| && IsSpace(s[i]) then SpaceStart(s, i + 1) else i
  }

  function SpaceEnd(s: string, n: nat): (r: nat)
    requires n <= |s|
    ensures r <= n
  {
    if n > 0 && IsSpace(s[n - 1]) then SpaceEnd(s, n - 1) else n
  }

  function TailEnd(s: string, n: nat, c: char): (r: nat)
    requires n <= |s|
    ensures r <= n
  {
    if n > 0 && s[n - 1] == c then TailEnd(s, n - 1, c) else n
  }

  /** `str::trim`. */
  function Trim(s: string): string {
    var a, b := SpaceStart(s, 0), SpaceEnd(s, |s|);
    if a <= b then s[a..b] else []
  }

  /** `trim_end_matches(c)`. */
  function DropTail(s: string, c: char): string { s[..TailEnd(s, |s|, c)] }

  /** A line without surrounding space, trailing commas and then trailing semicolons. */
  function Clean(line: string): string { DropTail(DropTail(Trim(line), ','), ';') }

  lemma TrimTight(s: string)
    requires s != [] && !IsSpace(s[0]) && !IsSpace(s[|s| - 1])
    ensures Trim(s) == s
  {
  }

  lemma DropNone(s: string, c: char)
    requires s != [] && s[|s| - 1] != c
    ensures DropTail(s, c) == s
  {
  }

  lemma DropOne(s: string, c: char)
    requires s != [] && s[|s| - 1] != c
    ensures DropTail(s + [c], c) == s
  {
    assert TailEnd(s + [c], |s| + 1, c) == TailEnd(s + [c], |s|, c);
  }

  lemma CleanPrinted(body: string)
    requires body != [] && !IsSpace(body[0]) && body[|body| - 1] == ')'
    ensures Clean(body + [';']) == body
  {
    TrimTight(body + [';']);
    DropNone(body + [';'], ',');
    DropOne(body, ';');
  }

  lemma {:induction false} SpaceStartIs(s: string, i: nat, k: nat)
    requires i <= k < |s| && !IsSpace(s[k]) && forall j | i <= j < k :: IsSpace(s[j])
    ensures SpaceStart(s, i) == k
    decreases k - i
  {
    if i < k { SpaceStartIs(s, i + 1, k); }
  }

  lemma {:induction false} SpaceEndIs(s: string, n: nat, k: nat)
    requires 0 < k <= n <= |s| && !IsSpace(s[k - 1]) && forall j | k <= j < n :: IsSpace(s[j])
    ensures SpaceEnd(s, n) == k
  {
    if k < n { SpaceEndIs(s, n - 1, k); }
  }

  lemma {:induction false} TailEndIs(s: string, n: nat, k: nat, c: char)
    requires 0 < k <= n <= |s| && s[k - 1] != c && forall j | k <= j < n :: s[j] == c
    ensures TailEnd(s, n, c) == k
  {
    if k < n { TailEndIs(s, n - 1, k, c); }
  }

  predicate AllSpace(s: string) { forall i | 0 <= i < |s| :: IsSpace(s[i]) }

  predicate AllOf(s: string, c: char) { forall i | 0 <= i < |s| :: s[i] == c }

  lemma TrimPadded(a: string, t: string, b: string)
    requires AllSpace(a) && AllSpace(b) && t != [] && !IsSpace(t[0]) && !IsSpace(t[|t| - 1])
    ensures Trim(a + t + b) == t
  {
    var s := a + t + b;
    assert s[|a|] == t[0] && s[|a| + |t| - 1] == t[|t| - 1];
    SpaceStartIs(s, 0, |a|);
    SpaceEndIs(s, |s|, |a| + |t|);
  }

  lemma DropAll(t: string, tail: string, c: char)
    requires t != [] && t[|t| - 1] != c && AllOf(tail, c)
    ensures DropTail(t + tail, c) == t
  {
    TailEndIs(t + tail, |t + tail|, |t|, c);
  }

  /** Space around a fact and any semicolons and then commas after it change nothing. */
  lemma CleanPadded(a: string, body: string, semis: string, commas: string, b: string)
    requires AllSpace(a) && AllSpace(b) && AllOf(semis, ';') && AllOf(commas, ',')
    requires body != [] && !IsSpace(body[0]) && body[|body| - 1] == ')'
    ensures Clean(a + (body + semis + commas) + b) == body
  {
    var t := body + semis + commas;
    TrimPadded(a, t, b);
    DropAll(body + semis, commas, ',');
    DropAll(body, semis, ';');
  }

  lemma CharsOfTrim(s: string, x: char)
    requires x !in s
    ensures x !in Trim(s)
  {
  }

  lemma CharsOfClean(line: string, x: char)
    requires x !in line
    ensures x !in Clean(line)
  {
    CharsOfTrim(line, x);
    assert x !in DropTail(Trim(line), ',');
  }

  // ── Predicates and terms ───────────────────────────────────────────────────

  function Fact(pred: string, inner: string): string { pred + "(" + inner + ")" }

  function StripPredicate(line: string, pred: string): Option<string> {
    var prefix := pred + "(";
    if |prefix| < |line| && prefix <= line && line[|line| - 1] == ')'
    then Some(line[|prefix|..|line| - 1])
    else None
  }

  lemma StripPrinted(pred: string, inner: string)
    ensures StripPredicate(Fact(pred, inner), pred) == Some(inner)
  {
    var prefix, line := pred + "(", Fact(pred, inner);
    assert line == prefix + inner + ")";
    assert line[..|prefix|] == prefix && line[|prefix|..|line| - 1] == inner;
  }

  lemma StripOther(line: string, pred: string)
    requires pred != [] && line != [] && line[0] != pred[0]
    ensures StripPredicate(line, pred) == None
  {
    assert (pred + "(")[0] == pred[0];
  }

  /** `parse_string_term`. */
  function StringTerm(inner: string): Option<string> {
    var t := Trim(inner);
    if |t| >= 2 && t[0] == '"' && t[|t| - 1] == '"' then Some(Unescape(t[1..|t| - 1])) else None
  }

  function Quote(s: string): string { ['"'] + s + ['"'] }

  lemma StringTermQuoted(s: string)
    ensures StringTerm(Quote(s)) == Some(Unescape(s))
  {
    TrimTight(Quote(s));
    assert Quote(s)[1..|Quote(s)| - 1] == s;
  }

  lemma {:induction false} CharsOfTerm(inner: string, x: char)
    requires x != '"' && x != '\\' && x !in inner && StringTerm(inner).Some?
    ensures x !in StringTerm(inner).value
  {
    CharsOfTrim(inner, x);
    var t := Trim(inner);
    var content := t[1..|t| - 1];
    assert forall i | 0 <= i < |content| :: content[i] == t[i + 1];
    ReplaceAddsNothing(content, '\\', '"', '"', x);
    ReplaceAddsNothing(Replace(content, '\\', '"', '"'), '\\', '\\', '\\', x);
  }

  /** `PeerId::from_hex`. */
  function PeerFromHex(s: string): Option<PeerId> {
    match HexDecode(s)
    case Some(b) => if |b| == 16 then Some(b) else None
    case None => None
  }

  lemma HexIsPlain(p: PeerId)
    ensures Plain(HexEncode(p)) && PeerFromHex(HexEncode(p)) == Some(p)
  {
    HexAlphabet(p);
    HexRoundTrip(p);
  }

  lemma StringTermPlain(s: string)
    requires Plain(s)
    ensures StringTerm(Quote(s)) == Some(s)
  {
    StringTermQuoted(s);
    EscapePlain(s);
    UnescapeEscape(s);
  }

  // ── Lines ──────────────────────────────────────────────────────────────────

  function StripCr(p: string): string { if p != [] && p[|p| - 1] == '\r' then p[..|p| - 1] else p }

  /** The lines of the pieces between line feeds. */
  function LinesOf(ps: seq<string>): seq<string>
    requires |ps| >= 1
  {
    if |ps| > 1 then [StripCr(ps[0])] + LinesOf(ps[1..])
    else if ps[0] == [] then []
    else ps
  }

  /** `str::lines`: cut at line feeds, a carriage return before one dropped, no empty last line. */
  function Lines(s: string): seq<string> { LinesOf(Split(s, '\n')) }

  lemma {:induction false} LinesOfHaveNo(ps: seq<string>, x: char)
    requires |ps| >= 1 && forall p | p in ps :: x !in p
    ensures forall l | l in LinesOf(ps) :: x !in l
  {
    if |ps| > 1 {
      LinesOfHaveNo(ps[1..], x);
      assert ps[0] in ps;
    }
  }

  lemma LinesHaveNoFeed(s: string)
    ensures forall l | l in Lines(s) :: '\n' !in l
  {
    PiecesHaveNoSep(s, '\n');
    LinesOfHaveNo(Split(s, '\n'), '\n');
  }

  lemma LinesCons(line: string, rest: string)
    requires '\n' !in line && line != [] && line[|line| - 1] != '\r'
    ensures Lines(line + ['\n'] + rest) == [line] + Lines(rest)
  {
    SplitConcat(line, rest, '\n');
    SplitWithoutSep(line, '\n');
    assert ([line] + Split(rest, '\n'))[1..] == Split(rest, '\n');
  }
}
