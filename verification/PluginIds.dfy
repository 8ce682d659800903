/** Plugin identifiers `<publisher>/<name>@<version>` (crates/entangle-types/src/plugin_id.rs).
    The version grammar is items 2, 9 and 10 of Semantic Versioning 2.0.0. */
module PluginIds {
  import opened Common
  import opened Text

  // ── Searching and cutting ──────────────────────────────────────────────────

  function Find(s: string, c: char): (r: Option<nat>)
    ensures r.Some? ==> r.value < |s| && s[r.value] == c && c !in s[..r.value]
    ensures r.None? ==> c !in s
  {
    if s == [] then None
    else if s[0] == c then Some(0)
    else match Find(s[1..], c)
      case Some(i) => Some(i + 1)
      case None => None
  }

  function RFind(s: string, c: char): (r: Option<nat>)
    ensures r.Some? ==> r.value < |s| && s[r.value] == c && forall k | r.value < k < |s| :: s[k] != c
    ensures r.None? ==> c !in s
  {
    if s == [] then None
    else if s[|s| - 1] == c then Some(|s| - 1)
    else RFind(s[..|s| - 1], c)
  }

  lemma {:induction false} FindAt(a: string, c: char, b: string)
    requires c !in a
    ensures Find(a + [c] + b, c) == Some(|a|)
  {
    var s := a + [c] + b;
    assert s[|a|] == c;
    var i := Find(s, c).value;
    assert forall k | 0 <= k < |a| :: s[k] == a[k];
    assert forall k | 0 <= k < i :: s[k] in s[..i];
  }

  lemma {:induction false} RFindAt(a: string, c: char, b: string)
    requires c !in b
    ensures RFind(a + [c] + b, c) == Some(|a|)
  {
    var s := a + [c] + b;
    if b != [] {
      var init := b[..|b| - 1];
      RFindAt(a, c, init);
      assert s[..|s| - 1] == a + [c] + init;
    }
  }

  lemma {:induction false} HalvesAt(a: string, c: char, b: string)
    ensures (a + [c] + b)[..|a|] == a && (a + [c] + b)[|a|..] == [c] + b
    ensures a + [c] + b == a + ([c] + b)
  {
  }

  /** The text before the first `c`, and the text after it if there is one. */
  function Cut(s: string, c: char): (string, Option<string>) {
    match Find(s, c)
    case Some(i) => (s[..i], Some(s[i + 1..]))
    case None => (s, None)
  }

  function Glue(head: string, c: char, tail: string): string {
    if tail == "" then head else head + [c] + tail
  }

  lemma {:induction false} CutGlue(head: string, c: char, tail: string)
    requires c !in head
    ensures Cut(Glue(head, c, tail), c) == (head, if tail == "" then None else Some(tail))
  {
    if tail == "" {
    } else {
      var s := head + [c] + tail;
      FindAt(head, c, tail);
      assert s[..|head|] == head && s[|head| + 1..] == tail;
    }
  }

  lemma {:induction false} GlueCut(s: string, c: char)
    requires Cut(s, c).1 != Some("")
    ensures c !in Cut(s, c).0
    ensures s == Glue(Cut(s, c).0, c, if Cut(s, c).1.Some? then Cut(s, c).1.value else "")
  {
  }

  // ── Versions ───────────────────────────────────────────────────────────────

  /** `semver::Version`: pre-release and build are kept as their text. */
  datatype Version = Version(major: u64, minor: u64, patch: u64, pre: string, build: string)

  predicate IsIdentChar(c: char) {
    'a' <= c <= 'z' || 'A' <= c <= 'Z' || IsDigit(c) || c == '-'
  }

  predicate BuildIdent(id: string) { id != "" && forall i | 0 <= i < |id| :: IsIdentChar(id[i]) }

  predicate PreIdent(id: string) { BuildIdent(id) && (AllDigits(id) ==> Canonical(id)) }

  predicate ValidBuild(s: string) { s == "" || forall id | id in Split(s, '.') :: BuildIdent(id) }

  predicate ValidPre(s: string) { s == "" || forall id | id in Split(s, '.') :: PreIdent(id) }

  predicate ValidVersion(v: Version) { ValidPre(v.pre) && ValidBuild(v.build) }

  function ShowCore(v: Version): string {
    Join([Digits(v.major), Digits(v.minor), Digits(v.patch)], '.')
  }

  /** `Display for semver::Version`. */
  function ShowVersion(v: Version): string {
    Glue(Glue(ShowCore(v), '-', v.pre), '+', v.build)
  }

  predicate ValidNumber(s: string) { Canonical(s) && DigitsValue(s) < U64_LIMIT }

  /** `semver::Version::parse`. */
  function ParseVersion(s: string): Option<Version> {
    var (head, build) := Cut(s, '+');
    var (core, pre) := Cut(head, '-');
    var ns := Split(core, '.');
    if build == Some("") || pre == Some("") then None
    else if |ns| != 3 || !ValidNumber(ns[0]) || !ValidNumber(ns[1]) || !ValidNumber(ns[2]) then None
    else
      var v := Version(DigitsValue(ns[0]), DigitsValue(ns[1]), DigitsValue(ns[2]),
                       if pre.Some? then pre.value else "",
                       if build.Some? then build.value else "");
      if ValidVersion(v) then Some(v) else None
  }

  lemma {:induction false} CoreAlphabet(v: Version)
    ensures forall c | c in ShowCore(v) :: IsDigit(c) || c == '.'
    ensures Split(ShowCore(v), '.') == [Digits(v.major), Digits(v.minor), Digits(v.patch)]
  {
    var ns := [Digits(v.major), Digits(v.minor), Digits(v.patch)];
    assert forall p | p in ns :: AllDigits(p);
    SplitJoin(ns, '.');
    forall c | c in ShowCore(v) ensures IsDigit(c) || c == '.' {
      if c != '.' {
        PiecesCoverString(ShowCore(v), '.', c);
        var i :| 0 <= i < 3 && c in ns[i];
        assert AllDigits(ns[i]);
      }
    }
  }

  lemma {:induction false} IdentsAlphabet(s: string)
    requires s == "" || forall id | id in Split(s, '.') :: BuildIdent(id)
    ensures forall c | c in s :: IsIdentChar(c) || c == '.'
  {
    forall c | c in s ensures IsIdentChar(c) || c == '.' {
      if c != '.' {
        PiecesCoverString(s, '.', c);
        var i :| 0 <= i < |Split(s, '.')| && c in Split(s, '.')[i];
        assert BuildIdent(Split(s, '.')[i]);
      }
    }
  }

  lemma {:induction false} PreAlphabet(s: string)
    requires ValidPre(s)
    ensures forall c | c in s :: IsIdentChar(c) || c == '.'
  {
    assert s == "" || forall id | id in Split(s, '.') :: PreIdent(id) && BuildIdent(id);
    IdentsAlphabet(s);
  }

  predicate IsVersionChar(c: char) { IsIdentChar(c) || c == '.' || c == '+' }

  lemma {:induction false} VersionAlphabet(v: Version)
    requires ValidVersion(v)
    ensures forall c | c in ShowVersion(v) :: IsVersionChar(c)
  {
    CoreAlphabet(v);
    PreAlphabet(v.pre);
    IdentsAlphabet(v.build);
  }

  lemma {:induction false} NumberRoundTrip(n: u64)
    ensures ValidNumber(Digits(n)) && DigitsValue(Digits(n)) == n
  {
    DigitsRoundTrip(n);
    DigitsCanonical(n);
  }

  /** Parsing a printed version gives the version back. */
  lemma {:induction false} VersionRoundTrip(v: Version)
    requires ValidVersion(v)
    ensures ParseVersion(ShowVersion(v)) == Some(v)
  {
    CoreAlphabet(v);
    PreAlphabet(v.pre);
    var head := Glue(ShowCore(v), '-', v.pre);
    assert '+' !in head;
    CutGlue(head, '+', v.build);
    CutGlue(ShowCore(v), '-', v.pre);
    NumberRoundTrip(v.major);
    NumberRoundTrip(v.minor);
    NumberRoundTrip(v.patch);
  }

  /** Printing a parsed version gives the text back: the notation is canonical. */
  lemma {:induction false} VersionCanonical(s: string)
    requires ParseVersion(s).Some?
    ensures ValidVersion(ParseVersion(s).value) && ShowVersion(ParseVersion(s).value) == s
  {
    var (head, build) := Cut(s, '+');
    var (core, pre) := Cut(head, '-');
    var ns := Split(core, '.');
    GlueCut(s, '+');
    GlueCut(head, '-');
    CanonicalRoundTrip(ns[0]);
    CanonicalRoundTrip(ns[1]);
    CanonicalRoundTrip(ns[2]);
    JoinSplit(core, '.');
    assert ns == [ns[0], ns[1], ns[2]];
  }

  // ── Plugin ids ─────────────────────────────────────────────────────────────

  datatype PluginId = PluginId(publisher: string, name: string, version: Version)

  datatype IdError = MissingSlash | MissingAt | BadSemver | BadPublisher | BadName

  predicate IsLowerAlpha(c: char) { 'a' <= c <= 'z' }

  /** `is_valid_name`: `^[a-z][a-z0-9-]{0,62}$`. */
  predicate ValidName(s: string) {
    && 1 <= |s| <= 63
    && IsLowerAlpha(s[0])
    && forall i | 1 <= i < |s| :: IsLowerAlpha(s[i]) || IsDigit(s[i]) || s[i] == '-'
  }

  function LowerChar(c: char): char {
    if 'A' <= c <= 'Z' then (c as int + 32) as char else c
  }

  /** `str::to_ascii_lowercase`. */
  function Lower(s: string): (r: string)
    ensures |r| == |s| && forall i | 0 <= i < |s| :: r[i] == LowerChar(s[i])
  {
    seq(|s|, i requires 0 <= i < |s| => LowerChar(s[i]))
  }

  predicate ValidPublisher(s: string) {
    |s| == 32 && forall i | 0 <= i < |s| :: IsDigit(s[i]) || 'a' <= s[i] <= 'f'
  }

  /** What every constructed `PluginId` satisfies. */
  predicate ValidId(id: PluginId) {
    ValidPublisher(id.publisher) && ValidName(id.name) && ValidVersion(id.version)
  }

  predicate HexText(s: string) {
    |s| == 32 && forall i | 0 <= i < |s| :: HexValue(s[i]).Some?
  }

  /** `PluginId::new`: lower-cases the publisher, then validates. */
  function NewPluginId(publisher: string, name: string, version: Version): Result<PluginId, IdError> {
    var p := Lower(publisher);
    if !HexText(p) then Err(BadPublisher)
    else if !ValidName(name) then Err(BadName)
    else Ok(PluginId(p, name, version))
  }

  /** `Display for PluginId`. */
  function Show(id: PluginId): string {
    id.publisher + ['/'] + (id.name + ['@'] + ShowVersion(id.version))
  }

  /** `FromStr for PluginId`. */
  function Parse(s: string): Result<PluginId, IdError> {
    match Find(s, '/')
    case None => Err(MissingSlash)
    case Some(slash) =>
      var rest := s[slash + 1..];
      match RFind(rest, '@')
      case None => Err(MissingAt)
      case Some(at) =>
        match ParseVersion(rest[at + 1..])
        case None => Err(BadSemver)
        case Some(version) => NewPluginId(s[..slash], rest[..at], version)
  }

  function ParseVersioned(publisher: string, name: string, version: string): Result<PluginId, IdError> {
    match ParseVersion(version)
    case None => Err(BadSemver)
    case Some(v) => NewPluginId(publisher, name, v)
  }

  lemma {:induction false} ParseParts(publisher: string, name: string, version: string)
    requires '/' !in publisher && '@' !in version
    ensures Parse(publisher + ['/'] + (name + ['@'] + version)) == ParseVersioned(publisher, name, version)
  {
    var rest := name + ['@'] + version;
    var s := publisher + ['/'] + rest;
    FindAt(publisher, '/', rest);
    assert s[..|publisher|] == publisher && s[|publisher| + 1..] == rest;
    RFindAt(name, '@', version);
    assert rest[..|name|] == name && rest[|name| + 1..] == version;
  }

  /** Parsing a printed id gives the id back, for every valid id. */
  lemma {:induction false} ParseShow(id: PluginId)
    requires ValidId(id)
    ensures Parse(Show(id)) == Ok(id)
  {
    VersionAlphabet(id.version);
    VersionRoundTrip(id.version);
    ParseParts(id.publisher, id.name, ShowVersion(id.version));
    assert Lower(id.publisher) == id.publisher;
  }

  lemma {:induction false} LowerHexIsPublisher(s: string)
    requires HexText(Lower(s))
    ensures ValidPublisher(Lower(s))
  {
    forall i | 0 <= i < |s| ensures IsDigit(Lower(s)[i]) || 'a' <= Lower(s)[i] <= 'f' {
      assert HexValue(Lower(s)[i]).Some?;
    }
  }

  lemma {:induction false} ShowVersioned(publisher: string, name: string, version: string)
    requires ParseVersioned(publisher, name, version).Ok?
    ensures var id := ParseVersioned(publisher, name, version).value;
            ValidId(id) && Show(id) == Lower(publisher) + ['/'] + (name + ['@'] + version)
  {
    VersionCanonical(version);
    LowerHexIsPublisher(publisher);
  }

  lemma {:induction false} SplitAt(s: string, i: nat) returns (a: string, b: string)
    requires i < |s|
    ensures s == a + [s[i]] + b && a == s[..i] && b == s[i + 1..]
  {
    a, b := s[..i], s[i + 1..];
  }

  lemma {:induction false} Dissect(s: string) returns (publisher: string, name: string, version: string)
    requires Find(s, '/').Some? && RFind(s[Find(s, '/').value + 1..], '@').Some?
    ensures s == publisher + ['/'] + (name + ['@'] + version)
    ensures '/' !in publisher && '@' !in version && Find(s, '/') == Some(|publisher|)
  {
    var rest;
    publisher, rest := SplitAt(s, Find(s, '/').value);
    name, version := SplitAt(rest, RFind(rest, '@').value);
  }

  /** A parsed id is valid and prints as the parsed text with its publisher
      lower-cased: two texts name one id only when they differ in that case. */
  lemma {:induction false} ShowParse(s: string)
    requires Parse(s).Ok?
    ensures ValidId(Parse(s).value)
    ensures var slash := Find(s, '/').value; Show(Parse(s).value) == Lower(s[..slash]) + s[slash..]
  {
    var publisher, name, version := Dissect(s);
    ParseParts(publisher, name, version);
    ShowVersioned(publisher, name, version);
    var rest := name + ['@'] + version;
    HalvesAt(publisher, '/', rest);
    HalvesAt(Lower(publisher), '/', rest);
  }

  /** The texts that are plugin ids: 32 hex digits, a slash, a name of 1 to 63
      characters that starts with a lower-case letter and goes on with letters,
      digits and hyphens, an `@` and a version. */
  ghost predicate IdText(s: string, publisher: string, name: string, version: string) {
    && s == publisher + ['/'] + (name + ['@'] + version)
    && |publisher| == 32 && (forall i | 0 <= i < |publisher| :: IsHexDigit(publisher[i]))
    && 1 <= |name| <= 63 && 'a' <= name[0] <= 'z'
    && (forall i | 0 <= i < |name| :: 'a' <= name[i] <= 'z' || '0' <= name[i] <= '9' || name[i] == '-')
    && ParseVersion(version).Some?
  }

  lemma {:induction false} VersionHasNoAt(version: string)
    requires ParseVersion(version).Some?
    ensures '@' !in version
  {
    VersionCanonical(version);
    VersionAlphabet(ParseVersion(version).value);
  }

  lemma LowerHex(s: string)
    ensures HexText(Lower(s)) <==> |s| == 32 && forall i | 0 <= i < |s| :: IsHexDigit(s[i])
  {
    assert forall i | 0 <= i < |s| :: HexValue(Lower(s)[i]).Some? <==> IsHexDigit(s[i]);
  }

  /** Each of them parses, into its parts. */
  lemma {:induction false} TextParses(s: string, publisher: string, name: string, version: string)
    requires IdText(s, publisher, name, version)
    ensures Parse(s) == Ok(PluginId(Lower(publisher), name, ParseVersion(version).value))
  {
    VersionHasNoAt(version);
    LowerHex(publisher);
    NoSlashInHex(publisher);
    ParseParts(publisher, name, version);
  }

  lemma NoSlashInHex(s: string)
    requires forall i | 0 <= i < |s| :: IsHexDigit(s[i])
    ensures '/' !in s
  {
  }

  lemma {:induction false} PartsAreText(publisher: string, name: string, version: string)
    requires ParseVersioned(publisher, name, version).Ok?
    ensures IdText(publisher + ['/'] + (name + ['@'] + version), publisher, name, version)
  {
    LowerHex(publisher);
    NameChars(name);
  }

  /** And nothing else parses. */
  lemma {:induction false} ParsedText(s: string) returns (publisher: string, name: string, version: string)
    requires Parse(s).Ok?
    ensures IdText(s, publisher, name, version)
  {
    publisher, name, version := Dissect(s);
    ParseParts(publisher, name, version);
    PartsAreText(publisher, name, version);
  }

  lemma NameChars(name: string)
    ensures ValidName(name) <==>
              && 1 <= |name| <= 63 && 'a' <= name[0] <= 'z'
              && forall i | 0 <= i < |name| :: 'a' <= name[i] <= 'z' || '0' <= name[i] <= '9' || name[i] == '-'
  {
  }

  /** Which error a text gets: the first `/`, the last `@` after it, the version,
      the publisher, the name, in this order. */
  lemma {:induction false} RefusedIds(s: string)
    ensures '/' !in s <==> Parse(s) == Err(MissingSlash)
    ensures forall publisher, rest | s == publisher + ['/'] + rest && '/' !in publisher && '@' !in rest :: Parse(s) == Err(MissingAt)
  {
    forall publisher, rest | s == publisher + ['/'] + rest && '/' !in publisher && '@' !in rest ensures Parse(s) == Err(MissingAt) {
      FindAt(publisher, '/', rest);
      assert s[|publisher| + 1..] == rest;
    }
  }

  lemma {:induction false} RefusedParts(publisher: string, name: string, version: string)
    requires '/' !in publisher && '@' !in version
    ensures var r := Parse(publisher + ['/'] + (name + ['@'] + version));
            r.Err? ==>
              r.error == if ParseVersion(version).None? then BadSemver
                         else if !(|publisher| == 32 && forall i | 0 <= i < |publisher| :: IsHexDigit(publisher[i])) then BadPublisher
                         else BadName
  {
    ParseParts(publisher, name, version);
    LowerHex(publisher);
  }

  /** A pre-release identifier: letters, digits and hyphens, and no leading zero when it is a number. */
  lemma PreIdentsAre(id: string)
    ensures PreIdent(id) <==>
              && id != ""
              && (forall i | 0 <= i < |id| :: '0' <= id[i] <= '9' || 'a' <= id[i] <= 'z' || 'A' <= id[i] <= 'Z' || id[i] == '-')
              && !(|id| >= 2 && id[0] == '0' && forall i | 0 <= i < |id| :: '0' <= id[i] <= '9')
  {
  }

  /** The texts that are versions are exactly the printed ones. */
  lemma {:induction false} VersionTexts(s: string, v: Version)
    ensures ParseVersion(s) == Some(v) <==> s == ShowVersion(v) && ValidVersion(v)
  {
    if ParseVersion(s) == Some(v) { VersionCanonical(s); }
    if ValidVersion(v) { VersionRoundTrip(v); }
  }
}
