/** IPC topics and the subscriber glob matcher (crates/entangle-ipc/src/topic.rs). */
module Topic {
  import opened Common
  import opened Text

  datatype IpcError = InvalidTopic(text: string)

  predicate IsTopicChar(c: char) {
    'a' <= c <= 'z' || IsDigit(c) || c == '.' || c == '-' || c == '_'
  }

  predicate HasEmptySegment(s: string) { [] in Split(s, '.') }

  predicate ValidTopic(s: string) {
    s != [] && !HasEmptySegment(s) && forall i | 0 <= i < |s| :: IsTopicChar(s[i])
  }

  /** `Topic::new`. */
  function NewTopic(s: string): Result<string, IpcError> {
    if ValidTopic(s) then Ok(s) else Err(InvalidTopic(s))
  }

  // ── The segment-list meaning of a pattern ──────────────────────────────────

  predicate SegmentMatches(p: string, t: string) { p == "*" || p == t }

  predicate SegmentsMatch(ps: seq<string>, ts: seq<string>) {
    |ps| <= |ts| && forall i | 0 <= i < |ps| :: SegmentMatches(ps[i], ts[i])
  }

  predicate OpenEnded(ps: seq<string>) { |ps| >= 2 && ps[|ps| - 1] == "**" }

  /** `**` alone matches everything; a trailing `**` absorbs zero or more
      segments; `*` is one segment; every other segment is literal. */
  predicate GlobMatch(topic: string, pattern: string) {
    var ps, ts := Split(pattern, '.'), Split(topic, '.');
    || pattern == "**"
    || if OpenEnded(ps) then SegmentsMatch(ps[..|ps| - 1], ts)
       else |ts| == |ps| && SegmentsMatch(ps, ts)
  }

  // ── The allocation-free matcher ────────────────────────────────────────────

  predicate EndsWith(s: string, suffix: string) {
    |suffix| <= |s| && s[|s| - |suffix|..] == suffix
  }

  predicate StartsWith(s: string, prefix: string) { prefix <= s }

  lemma {:induction false} SuffixSplits(prefix: string)
    ensures Split(prefix + ".**", '.') == Split(prefix, '.') + ["**"]
  {
    SplitConcat(prefix, "**", '.');
    SplitWithoutSep("**", '.');
    assert prefix + ".**" == prefix + ['.'] + "**";
  }

  lemma {:induction false} OpenEndedSuffix(pattern: string)
    requires OpenEnded(Split(pattern, '.'))
    ensures EndsWith(pattern, ".**")
  {
    var ps := Split(pattern, '.');
    var init := ps[..|ps| - 1];
    assert ps == init + ["**"];
    JoinSplit(pattern, '.');
    JoinConcat(init, ["**"], '.');
    var prefix := Join(init, '.');
    assert pattern == prefix + ['.'] + "**";
    assert pattern == prefix + ".**";
  }

  /** A `.**` suffix is exactly a final `**` segment after at least one other. */
  lemma {:induction false} SuffixIsOpenEnded(pattern: string)
    ensures EndsWith(pattern, ".**") <==> OpenEnded(Split(pattern, '.'))
    ensures EndsWith(pattern, ".**") ==>
              Split(pattern, '.') == Split(pattern[..|pattern| - 3], '.') + ["**"]
  {
    if EndsWith(pattern, ".**") {
      var prefix := pattern[..|pattern| - 3];
      SuffixSplits(prefix);
      assert pattern == prefix + ".**";
    } else if OpenEnded(Split(pattern, '.')) {
      OpenEndedSuffix(pattern);
    }
  }

  lemma {:induction false} NoStarPiece(prefix: string)
    requires '*' !in prefix
    ensures forall i | 0 <= i < |Split(prefix, '.')| :: Split(prefix, '.')[i] != "*"
  {
    PiecesCoverString(prefix, '.', '*');
    var star := "*";
    assert star[0] == '*';
  }

  /** Without `*` in the prefix, matching segments is comparing bytes. */
  lemma {:induction false} WildcardFreePrefix(prefix: string, topic: string)
    requires '*' !in prefix
    ensures SegmentsMatch(Split(prefix, '.'), Split(topic, '.')) <==>
              topic == prefix || StartsWith(topic, prefix + ".")
    ensures |Split(topic, '.')| == |Split(prefix, '.')| && SegmentsMatch(Split(prefix, '.'), Split(topic, '.')) <==>
              topic == prefix
  {
    var pp, ts := Split(prefix, '.'), Split(topic, '.');
    NoStarPiece(prefix);
    if SegmentsMatch(pp, ts) {
      assert ts[..|pp|] == pp;
      if |ts| == |pp| {
        assert ts == pp;
        SplitInjective(topic, prefix, '.');
      } else {
        JoinSplit(topic, '.');
        JoinSplit(prefix, '.');
        JoinConcat(pp, ts[|pp|..], '.');
        assert ts == pp + ts[|pp|..];
      }
    }
    if StartsWith(topic, prefix + ".") {
      var rest := topic[|prefix| + 1..];
      assert topic == prefix + ['.'] + rest;
      SplitConcat(prefix, rest, '.');
    }
  }

  /** `Topic::matches`: the suffix strip, the byte fast path and the iterator
      walk decide exactly the segment-list meaning, for every pair of strings. */
  method Matches(topic: string, pattern: string) returns (r: bool)
    ensures r == GlobMatch(topic, pattern)
  {
    if pattern == "**" {
      return true;
    }
    SuffixIsOpenEnded(pattern);
    var prefix, openEnded := pattern, false;
    if EndsWith(pattern, ".**") {
      prefix, openEnded := pattern[..|pattern| - 3], true;
    }
    var ps := Split(prefix, '.');
    assert openEnded ==> Split(pattern, '.')[..|Split(pattern, '.')| - 1] == ps;

    if '*' !in prefix {
      WildcardFreePrefix(prefix, topic);
      if !StartsWith(topic, prefix) {
        return false;
      }
      var rest := topic[|prefix|..];
      assert topic == prefix + rest;
      if rest == "" {
        return true;
      }
      return openEnded && StartsWith(rest, ".");
    }

    var segments, next := Split(topic, '.'), 0;
    for i := 0 to |ps|
      invariant next == i <= |segments|
      invariant forall k | 0 <= k < i :: SegmentMatches(ps[k], segments[k])
    {
      if next == |segments| || !SegmentMatches(ps[i], segments[next]) {
        return false;
      }
      next := next + 1;
    }
    return openEnded || next == |segments|;
  }

  // ── Pattern validation ─────────────────────────────────────────────────────

  function FirstDoubleStar(segs: seq<string>): (r: Option<nat>)
    ensures r.Some? ==> r.value < |segs| && segs[r.value] == "**" && "**" !in segs[..r.value]
    ensures r.None? ==> "**" !in segs
  {
    if segs == [] then None
    else if segs[0] == "**" then Some(0)
    else match FirstDoubleStar(segs[1..])
      case Some(i) => Some(i + 1)
      case None => None
  }

  /** `Topic::validate_pattern` accepts. */
  predicate ValidPattern(pattern: string) {
    var segs := Split(pattern, '.');
    && pattern != []
    && (forall i | 0 <= i < |pattern| :: IsTopicChar(pattern[i]) || pattern[i] == '*')
    && [] !in segs
    && (FirstDoubleStar(segs).Some? ==> FirstDoubleStar(segs).value == |segs| - 1)
  }

  /** Every segment that holds a `*` is a wildcard in its place. */
  predicate WildcardsAreWhole(segs: seq<string>) {
    forall i | 0 <= i < |segs| && '*' in segs[i] ::
      segs[i] == "*" || (segs[i] == "**" && i == |segs| - 1)
  }

  lemma {:induction false} TopicSegments(topic: string)
    requires ValidTopic(topic)
    ensures forall i, c | 0 <= i < |Split(topic, '.')| && c in Split(topic, '.')[i] :: IsTopicChar(c)
    ensures forall i | 0 <= i < |Split(topic, '.')| :: Split(topic, '.')[i] != []
  {
    forall i, c | 0 <= i < |Split(topic, '.')| && c in Split(topic, '.')[i] ensures IsTopicChar(c) {
      if c != '.' { PiecesCoverString(topic, '.', c); }
    }
  }

  predicate TopicSegment(t: string) { t != [] && forall c | c in t :: IsTopicChar(c) }

  predicate SegmentShape(ps: seq<string>, i: nat)
    requires i < |ps|
  {
    ps[i] == "*" || (ps[i] == "**" && i == |ps| - 1) || TopicSegment(ps[i])
  }

  lemma {:induction false} MatchedShape(ps: seq<string>, ts: seq<string>, i: nat)
    requires i < |ps| && forall j | 0 <= j < |ts| :: TopicSegment(ts[j])
    requires if OpenEnded(ps) then SegmentsMatch(ps[..|ps| - 1], ts) else SegmentsMatch(ps, ts)
    ensures SegmentShape(ps, i)
  {
    if OpenEnded(ps) {
      if i < |ps| - 1 { assert SegmentMatches(ps[..|ps| - 1][i], ts[i]); }
    } else {
      assert SegmentMatches(ps[i], ts[i]);
    }
  }

  /** What a pattern that matches some valid topic looks like, segment by segment. */
  lemma {:induction false} MatchingSegment(topic: string, pattern: string, i: nat)
    requires ValidTopic(topic) && GlobMatch(topic, pattern) && i < |Split(pattern, '.')|
    ensures SegmentShape(Split(pattern, '.'), i)
  {
    TopicSegments(topic);
    if pattern == "**" {
      SplitWithoutSep("**", '.');
    } else {
      MatchedShape(Split(pattern, '.'), Split(topic, '.'), i);
    }
  }

  lemma {:induction false} MatchedPatternIsValid(topic: string, pattern: string)
    requires ValidTopic(topic) && GlobMatch(topic, pattern)
    ensures ValidPattern(pattern) && WildcardsAreWhole(Split(pattern, '.'))
  {
    var ps := Split(pattern, '.');
    forall i | 0 <= i < |ps|
      ensures ps[i] != []
      ensures ps[i] == "**" ==> i == |ps| - 1
      ensures '*' in ps[i] ==> ps[i] == "*" || (ps[i] == "**" && i == |ps| - 1)
      ensures forall c | c in ps[i] :: IsTopicChar(c) || c == '*'
    {
      MatchingSegment(topic, pattern, i);
      if ps[i] == "**" { assert ps[i][0] in ps[i]; }
    }
    forall k | 0 <= k < |pattern| ensures IsTopicChar(pattern[k]) || pattern[k] == '*' {
      if pattern[k] != '.' { PiecesCoverString(pattern, '.', pattern[k]); }
    }
  }

  function WitnessSegments(segs: seq<string>): (r: seq<string>)
    ensures |r| == |segs|
    ensures forall i | 0 <= i < |segs| :: r[i] == if '*' in segs[i] then "a" else segs[i]
  {
    seq(|segs|, i requires 0 <= i < |segs| => if '*' in segs[i] then "a" else segs[i])
  }

  predicate PatternSegment(p: string) {
    p != [] && forall k | 0 <= k < |p| :: p[k] != '.' && (IsTopicChar(p[k]) || p[k] == '*')
  }

  lemma {:induction false} WitnessIsValid(ps: seq<string>, topic: string)
    requires |ps| >= 1
    requires forall i | 0 <= i < |ps| :: PatternSegment(ps[i])
    requires topic == Join(WitnessSegments(ps), '.')
    ensures Split(topic, '.') == WitnessSegments(ps) && ValidTopic(topic)
  {
    var ts := WitnessSegments(ps);
    forall p | p in ts ensures '.' !in p && p != [] {
      var i :| 0 <= i < |ts| && ts[i] == p;
      assert PatternSegment(ps[i]);
    }
    SplitJoin(ts, '.');
    forall k | 0 <= k < |topic| ensures IsTopicChar(topic[k]) {
      if topic[k] != '.' {
        PiecesCoverString(topic, '.', topic[k]);
        var i :| 0 <= i < |ts| && topic[k] in ts[i];
        assert PatternSegment(ps[i]);
      }
    }
  }

  lemma {:induction false} PatternSegments(pattern: string)
    requires ValidPattern(pattern)
    ensures forall i | 0 <= i < |Split(pattern, '.')| :: PatternSegment(Split(pattern, '.')[i])
  {
    var ps := Split(pattern, '.');
    PiecesHaveNoSep(pattern, '.');
    forall i | 0 <= i < |ps| ensures PatternSegment(ps[i]) {
      assert ps[i] in ps;
      forall k | 0 <= k < |ps[i]| ensures ps[i][k] in pattern {
        PiecesCoverString(pattern, '.', ps[i][k]);
      }
    }
  }

  /** `GlobMatch` on segment lists. */
  predicate ListsMatch(ps: seq<string>, ts: seq<string>) {
    || ps == ["**"]
    || if OpenEnded(ps) then SegmentsMatch(ps[..|ps| - 1], ts) else |ts| == |ps| && SegmentsMatch(ps, ts)
  }

  lemma {:induction false} WitnessMatches(ps: seq<string>)
    requires |ps| >= 1 && WildcardsAreWhole(ps)
    ensures ListsMatch(ps, WitnessSegments(ps))
  {
  }

  lemma {:induction false} ListsGlob(topic: string, pattern: string, ps: seq<string>, ts: seq<string>)
    requires ps == Split(pattern, '.') && ts == Split(topic, '.') && ListsMatch(ps, ts)
    ensures GlobMatch(topic, pattern)
  {
    if ps == ["**"] { JoinSplit(pattern, '.'); }
  }

  lemma {:induction false} WitnessTopic(pattern: string, ps: seq<string>, topic: string)
    requires ps == Split(pattern, '.') && ValidPattern(pattern) && WildcardsAreWhole(ps)
    requires topic == Join(WitnessSegments(ps), '.')
    ensures ValidTopic(topic) && GlobMatch(topic, pattern)
  {
    PatternSegments(pattern);
    WitnessIsValid(ps, topic);
    WitnessMatches(ps);
    ListsGlob(topic, pattern, ps, WitnessSegments(ps));
  }

  /** A pattern can match some topic `Topic::new` accepts exactly when
      `validate_pattern` accepts it and every segment with a `*` is a wildcard:
      the checked subscription refuses nothing usable, and lets through only
      the dead patterns that embed `*` in a literal segment. */
  lemma {:induction false} UsablePatterns(pattern: string)
    ensures (exists topic :: ValidTopic(topic) && GlobMatch(topic, pattern)) <==>
            ValidPattern(pattern) && WildcardsAreWhole(Split(pattern, '.'))
  {
    forall topic | ValidTopic(topic) && GlobMatch(topic, pattern)
      ensures ValidPattern(pattern) && WildcardsAreWhole(Split(pattern, '.'))
    {
      MatchedPatternIsValid(topic, pattern);
    }
    if ValidPattern(pattern) && WildcardsAreWhole(Split(pattern, '.')) {
      var ps := Split(pattern, '.');
      WitnessTopic(pattern, ps, Join(WitnessSegments(ps), '.'));
    }
  }

  lemma {:induction false} RejectedPatternsMatchNothing(pattern: string, topic: string)
    requires !ValidPattern(pattern) && NewTopic(topic).Ok?
    ensures !GlobMatch(topic, pattern)
  {
    if GlobMatch(topic, pattern) { MatchedPatternIsValid(topic, pattern); }
  }

  /** The first piece is empty exactly when the text starts with the separator or is empty. */
  lemma FirstPiece(s: string)
    ensures Split(s, '.')[0] == [] <==> s == [] || s[0] == '.'
  {
  }

  predicate DoubleDot(s: string) { exists i :: 0 <= i < |s| - 1 && s[i] == '.' && s[i + 1] == '.' }

  lemma DoubleDotCons(s: string)
    requires s != []
    ensures DoubleDot(s) <==> (|s| >= 2 && s[0] == '.' && s[1] == '.') || DoubleDot(s[1..])
  {
    if DoubleDot(s) {
      var i :| 0 <= i < |s| - 1 && s[i] == '.' && s[i + 1] == '.';
      if i > 0 { assert s[1..][i - 1] == '.' && s[1..][i] == '.'; }
    }
    if DoubleDot(s[1..]) {
      var i :| 0 <= i < |s[1..]| - 1 && s[1..][i] == '.' && s[1..][i + 1] == '.';
      assert s[i + 1] == '.' && s[i + 2] == '.';
    }
  }

  /** A piece after the first is empty exactly where a dot ends the text or follows another. */
  lemma {:induction false} LaterPieces(s: string)
    ensures [] in Split(s, '.')[1..] <==> s != [] && (s[|s| - 1] == '.' || DoubleDot(s))
  {
    if s != [] {
      var rest := Split(s[1..], '.');
      LaterPieces(s[1..]);
      FirstPiece(s[1..]);
      DoubleDotCons(s);
      assert rest == [rest[0]] + rest[1..];
      assert Split(s, '.')[1..] == if s[0] == '.' then rest else rest[1..];
    }
  }

  lemma {:induction false} EmptyPiece(s: string)
    ensures [] in Split(s, '.') <==> s == [] || s[0] == '.' || s[|s| - 1] == '.' || DoubleDot(s)
  {
    FirstPiece(s);
    LaterPieces(s);
    assert Split(s, '.') == [Split(s, '.')[0]] + Split(s, '.')[1..];
  }

  /** The texts that are topics: lower-case letters, digits, dots, hyphens and
      underscores, with no dot at either end and no two in a row. */
  lemma {:induction false} TopicsAre(s: string)
    ensures NewTopic(s).Ok? <==>
              && s != [] && s[0] != '.' && s[|s| - 1] != '.'
              && (forall i | 0 <= i < |s| - 1 :: !(s[i] == '.' && s[i + 1] == '.'))
              && (forall i | 0 <= i < |s| :: 'a' <= s[i] <= 'z' || '0' <= s[i] <= '9' || s[i] == '.' || s[i] == '-' || s[i] == '_')
  {
    EmptyPiece(s);
  }

  /** The patterns `validate_pattern` lets through: topic characters and `*`, no
      empty segment, and `**` as a segment only at the end. */
  lemma {:induction false} PatternsAre(s: string)
    ensures ValidPattern(s) <==>
              && s != [] && s[0] != '.' && s[|s| - 1] != '.' && !DoubleDot(s)
              && (forall i | 0 <= i < |s| ::
                    'a' <= s[i] <= 'z' || '0' <= s[i] <= '9' || s[i] == '.' || s[i] == '-' || s[i] == '_' || s[i] == '*')
              && forall i | 0 <= i < |Split(s, '.')| - 1 :: Split(s, '.')[i] != "**"
  {
    EmptyPiece(s);
    var segs := Split(s, '.');
    if FirstDoubleStar(segs).Some? {
      var k := FirstDoubleStar(segs).value;
      assert forall i | 0 <= i < k :: segs[i] in segs[..k];
    }
  }
}
