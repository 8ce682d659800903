/** Scanning what was printed gives back the claims. */
module BiscuitRoundTrip {
  import opened Common
  import opened Text
  import opened Identity
  import opened Datalog
  import opened Biscuit

  // ── The direct meaning of claims ───────────────────────────────────────────

  /** What a claim means in the block with this index, without any text. */
  function Means(index: nat, f: Facts, c: Claim): Result<Facts, BiscuitError> {
    match c
    case IssuedTo(p) => if index == 0 then Ok(f.(issuedTo := Some(p))) else Err(Widens)
    case Capability(surface) => if index == 0 then Ok(f.(capabilities := f.capabilities + [surface])) else Err(Widens)
    case Expires(secs) => Ok(f.(expires := Some(if f.expires.Some? then Min(f.expires.value, secs) else secs)))
    case DestPin(p) => Ok(if f.destPin.Some? then f else f.(destPin := Some(p)))
    case RateLimitBps(n) => Ok(f.(rateLimit := Some(if f.rateLimit.Some? then Min(f.rateLimit.value, n) else n)))
    case TotalBytesCap(n) => Ok(f.(totalBytes := Some(if f.totalBytes.Some? then Min(f.totalBytes.value, n) else n)))
    case BridgeMarker => Ok(f.(bridge := true))
  }

  function Fold(index: nat, f: Facts, cs: seq<Claim>): Result<Facts, BiscuitError>
    decreases |cs|
  {
    if cs == [] then Ok(f)
    else
      match Means(index, f, cs[0])
      case Err(e) => Err(e)
      case Ok(g) => Fold(index, g, cs[1..])
  }

  predicate OneLine(c: Claim) { c.Capability? ==> '\n' !in c.surface }

  // ── One line ───────────────────────────────────────────────────────────────

  lemma PeerLine(inner: string)
    ensures ReadClean(Fact("peer", inner)) == ReadPeer(StringTerm(inner))
  {
    StripPrinted("peer", inner);
  }

  lemma CapabilityLine(inner: string)
    ensures ReadClean(Fact("capability", inner)) == ReadCapability(StringTerm(inner))
  {
    StripOther(Fact("capability", inner), "peer");
    StripPrinted("capability", inner);
  }

  lemma ExpiresLine(inner: string)
    ensures ReadClean(Fact("expires", inner)) == ReadExpires(ParseI64(Trim(inner)))
  {
    StripOther(Fact("expires", inner), "peer");
    StripOther(Fact("expires", inner), "capability");
    StripPrinted("expires", inner);
  }

  lemma DestPinLine(inner: string)
    ensures ReadClean(Fact("dest_pin", inner)) == ReadDestPin(StringTerm(inner))
  {
    StripOther(Fact("dest_pin", inner), "peer");
    StripOther(Fact("dest_pin", inner), "capability");
    StripOther(Fact("dest_pin", inner), "expires");
    StripPrinted("dest_pin", inner);
  }

  lemma RateLimitLine(inner: string)
    ensures ReadClean(Fact("rate_limit_bps", inner)) == ReadRateLimit(ParseU64(Trim(inner)))
  {
    StripOther(Fact("rate_limit_bps", inner), "peer");
    StripOther(Fact("rate_limit_bps", inner), "capability");
    StripOther(Fact("rate_limit_bps", inner), "expires");
    StripOther(Fact("rate_limit_bps", inner), "dest_pin");
    StripPrinted("rate_limit_bps", inner);
  }

  lemma TotalBytesLine(inner: string)
    ensures ReadClean(Fact("total_bytes_cap", inner)) == ReadTotalBytes(ParseU64(Trim(inner)))
  {
    StripOther(Fact("total_bytes_cap", inner), "peer");
    StripOther(Fact("total_bytes_cap", inner), "capability");
    StripOther(Fact("total_bytes_cap", inner), "expires");
    StripOther(Fact("total_bytes_cap", inner), "dest_pin");
    StripOther(Fact("total_bytes_cap", inner), "rate_limit_bps");
    StripPrinted("total_bytes_cap", inner);
  }

  lemma BridgeLine()
    ensures ReadClean("bridge(true)") == ReadBridge
  {
    StripOther("bridge(true)", "peer");
    StripOther("bridge(true)", "capability");
    StripOther("bridge(true)", "expires");
    StripOther("bridge(true)", "dest_pin");
    StripOther("bridge(true)", "rate_limit_bps");
    StripOther("bridge(true)", "total_bytes_cap");
  }

  /** A printed fact has no space at either end, so cleaning its line gives it back. */
  lemma {:induction false} ReadsVia(body: string, r: Read)
    requires body != [] && !IsSpace(body[0]) && body[|body| - 1] == ')' && ReadClean(body) == r
    ensures ReadLine(body + [';']) == r
  {
    CleanPrinted(body);
  }

  lemma NumberTrims(s: string)
    requires s != [] && forall i | 0 <= i < |s| :: IsDigit(s[i]) || s[i] == '-'
    ensures Trim(s) == s
  {
    TrimTight(s);
  }

  lemma PeerTerm(p: PeerId)
    ensures StringTerm(Quote(HexEncode(p))) == Some(HexEncode(p)) && PeerFromHex(HexEncode(p)) == Some(p)
  {
    HexIsPlain(p);
    StringTermPlain(HexEncode(p));
  }

  lemma SignedTerm(secs: i64)
    ensures ParseI64(Trim(ShowInt(secs))) == Some(secs)
  {
    NumberTrims(ShowInt(secs));
    ParseShowI64(secs);
  }

  lemma UnsignedTerm(n: u64)
    ensures ParseU64(Trim(Digits(n))) == Some(n)
  {
    NumberTrims(Digits(n));
    ParseShowU64(n);
  }

  lemma ReadsBridge()
    ensures ReadLine("bridge(true)" + [';']) == ReadBridge
  {
    BridgeLine();
    ReadsVia("bridge(true)", ReadBridge);
  }

  lemma ReadsFact(pred: string, inner: string, r: Read)
    requires pred != [] && !IsSpace(pred[0]) && ReadClean(Fact(pred, inner)) == r
    ensures ReadLine(Fact(pred, inner) + [';']) == r
  {
    ReadsVia(Fact(pred, inner), r);
  }

  lemma ReadsPeer(inner: string, hex: Option<string>)
    requires StringTerm(inner) == hex
    ensures ReadLine(Fact("peer", inner) + [';']) == ReadPeer(hex)
  {
    PeerLine(inner);
    ReadsFact("peer", inner, ReadPeer(hex));
  }

  lemma ReadsCapability(inner: string, text: Option<string>)
    requires StringTerm(inner) == text
    ensures ReadLine(Fact("capability", inner) + [';']) == ReadCapability(text)
  {
    CapabilityLine(inner);
    ReadsFact("capability", inner, ReadCapability(text));
  }

  lemma ReadsExpires(inner: string, secs: Option<i64>)
    requires ParseI64(Trim(inner)) == secs
    ensures ReadLine(Fact("expires", inner) + [';']) == ReadExpires(secs)
  {
    ExpiresLine(inner);
    ReadsFact("expires", inner, ReadExpires(secs));
  }

  lemma ReadsDestPin(inner: string, hex: Option<string>)
    requires StringTerm(inner) == hex
    ensures ReadLine(Fact("dest_pin", inner) + [';']) == ReadDestPin(hex)
  {
    DestPinLine(inner);
    ReadsFact("dest_pin", inner, ReadDestPin(hex));
  }

  lemma ReadsRateLimit(inner: string, n: Option<u64>)
    requires ParseU64(Trim(inner)) == n
    ensures ReadLine(Fact("rate_limit_bps", inner) + [';']) == ReadRateLimit(n)
  {
    RateLimitLine(inner);
    ReadsFact("rate_limit_bps", inner, ReadRateLimit(n));
  }

  lemma ReadsTotalBytes(inner: string, n: Option<u64>)
    requires ParseU64(Trim(inner)) == n
    ensures ReadLine(Fact("total_bytes_cap", inner) + [';']) == ReadTotalBytes(n)
  {
    TotalBytesLine(inner);
    ReadsFact("total_bytes_cap", inner, ReadTotalBytes(n));
  }

  /** What a claim's printed line should be read as. */
  function ReadOf(c: Claim): Read {
    match c
    case IssuedTo(p) => ReadPeer(Some(HexEncode(p)))
    case Capability(surface) => ReadCapability(Some(surface))
    case Expires(secs) => ReadExpires(Some(secs))
    case DestPin(p) => ReadDestPin(Some(HexEncode(p)))
    case RateLimitBps(n) => ReadRateLimit(Some(n))
    case TotalBytesCap(n) => ReadTotalBytes(Some(n))
    case BridgeMarker => ReadBridge
  }

  lemma IssuedToReads(p: PeerId)
    ensures ReadLine(Fact("peer", Quote(HexEncode(p))) + [';']) == ReadPeer(Some(HexEncode(p)))
  {
    PeerTerm(p);
    ReadsPeer(Quote(HexEncode(p)), Some(HexEncode(p)));
  }

  lemma DestPinReads(p: PeerId)
    ensures ReadLine(Fact("dest_pin", Quote(HexEncode(p))) + [';']) == ReadDestPin(Some(HexEncode(p)))
  {
    PeerTerm(p);
    ReadsDestPin(Quote(HexEncode(p)), Some(HexEncode(p)));
  }

  lemma CapabilityReads(surface: string)
    ensures ReadLine(Fact("capability", Quote(Escape(surface))) + [';']) == ReadCapability(Some(surface))
  {
    StringTermQuoted(Escape(surface));
    UnescapeEscape(surface);
    ReadsCapability(Quote(Escape(surface)), Some(surface));
  }

  lemma ExpiresReads(secs: i64)
    ensures ReadLine(Fact("expires", ShowInt(secs)) + [';']) == ReadExpires(Some(secs))
  {
    SignedTerm(secs);
    ReadsExpires(ShowInt(secs), Some(secs));
  }

  lemma RateLimitReads(n: u64)
    ensures ReadLine(Fact("rate_limit_bps", Digits(n)) + [';']) == ReadRateLimit(Some(n))
  {
    UnsignedTerm(n);
    ReadsRateLimit(Digits(n), Some(n));
  }

  lemma TotalBytesReads(n: u64)
    ensures ReadLine(Fact("total_bytes_cap", Digits(n)) + [';']) == ReadTotalBytes(Some(n))
  {
    UnsignedTerm(n);
    ReadsTotalBytes(Digits(n), Some(n));
  }

  lemma ClaimReads(c: Claim)
    ensures ReadLine(AsDatalog(c) + [';']) == ReadOf(c)
  {
    match c
    case IssuedTo(p) => IssuedToReads(p);
    case Capability(surface) => CapabilityReads(surface);
    case Expires(secs) => ExpiresReads(secs);
    case DestPin(p) => DestPinReads(p);
    case RateLimitBps(n) => RateLimitReads(n);
    case TotalBytesCap(n) => TotalBytesReads(n);
    case BridgeMarker => ReadsBridge();
  }

  lemma ReadOfMeans(index: nat, f: Facts, c: Claim)
    ensures Merge(index, f, ReadOf(c)) == Means(index, f, c)
  {
    if c.IssuedTo? || c.DestPin? { HexIsPlain(c.p); }
  }

  // ── A whole block ──────────────────────────────────────────────────────────

  lemma FactFeed(pred: string, inner: string)
    requires '\n' !in pred
    ensures '\n' in Fact(pred, inner) <==> '\n' in inner
  {
    assert Fact(pred, inner) == pred + ['('] + inner + [')'];
  }

  lemma NumberFeed(s: string)
    requires forall i | 0 <= i < |s| :: IsDigit(s[i]) || s[i] == '-'
    ensures '\n' !in s
  {
  }

  lemma QuoteFeed(s: string)
    ensures '\n' in Quote(s) <==> '\n' in s
  {
  }

  lemma HexFeed(p: PeerId)
    ensures '\n' !in Quote(HexEncode(p))
  {
    HexAlphabet(p);
    QuoteFeed(HexEncode(p));
  }

  /** A claim prints on one line unless its surface has a line feed. */
  lemma PrintsOnOneLine(c: Claim)
    ensures '\n' !in AsDatalog(c) <==> OneLine(c)
  {
    match c
    case IssuedTo(p) => HexFeed(p); FactFeed("peer", Quote(HexEncode(p)));
    case Capability(surface) =>
      FactFeed("capability", Quote(Escape(surface)));
      QuoteFeed(Escape(surface));
      EscapeKeeps(surface, '\n');
    case Expires(secs) => NumberFeed(ShowInt(secs)); FactFeed("expires", ShowInt(secs));
    case DestPin(p) => HexFeed(p); FactFeed("dest_pin", Quote(HexEncode(p)));
    case RateLimitBps(n) => NumberFeed(Digits(n)); FactFeed("rate_limit_bps", Digits(n));
    case TotalBytesCap(n) => NumberFeed(Digits(n)); FactFeed("total_bytes_cap", Digits(n));
    case BridgeMarker =>
  }

  lemma {:induction false} ScanCons(read: Reader, index: nat, line: string, rest: seq<string>, f: Facts)
    ensures ScanLines(read, index, [line] + rest, f)
         == match Merge(index, f, read(line))
            case Err(e) => Err(e)
            case Ok(g) => ScanLines(read, index, rest, g)
  {
    assert ([line] + rest)[1..] == rest;
  }

  /** The lines of a printed block are the printed lines of its claims. */
  lemma PrintLines(c: Claim, cs: seq<Claim>)
    requires OneLine(c)
    ensures Lines(Print([c] + cs)) == [AsDatalog(c) + [';']] + Lines(Print(cs))
  {
    PrintsOnOneLine(c);
    var line := AsDatalog(c) + [';'];
    assert ([c] + cs)[1..] == cs;
    LinesCons(line, Print(cs));
  }

  lemma {:induction false} ScanPrinted(read: Reader, index: nat, cs: seq<Claim>, f: Facts)
    requires forall c | c in cs :: OneLine(c) && read(AsDatalog(c) + [';']) == ReadOf(c)
    ensures ScanLines(read, index, Lines(Print(cs)), f) == Fold(index, f, cs)
    decreases |cs|
  {
    if cs != [] {
      var c, rest := cs[0], cs[1..];
      assert cs == [c] + rest;
      PrintLines(c, rest);
      ScanCons(read, index, AsDatalog(c) + [';'], Lines(Print(rest)), f);
      ReadOfMeans(index, f, c);
      if Means(index, f, c).Ok? { ScanPrinted(read, index, rest, Means(index, f, c).value); }
    }
  }

  /** A block printed from one-line claims scans, at any index and from any
      facts, to exactly the direct fold of those claims. */
  lemma PrintedBlockMeans(index: nat, cs: seq<Claim>, f: Facts)
    requires forall c | c in cs :: OneLine(c)
    ensures ScanBlock(index, Print(cs), f) == Fold(index, f, cs)
  {
    forall c | c in cs ensures ReadLine(AsDatalog(c) + [';']) == ReadOf(c) { ClaimReads(c); }
    ScanPrinted(ReadLine, index, cs, f);
  }

  // ── Exactly when printing and scanning an authority block lose nothing ─────

  predicate NoFeed(r: Read) { r.ReadCapability? && r.text.Some? ==> '\n' !in r.text.value }

  lemma {:induction false} CleanLineHasNoFeed(line: string)
    requires '\n' !in line
    ensures NoFeed(ReadClean(line))
  {
    match StripPredicate(line, "capability")
    case None =>
    case Some(inner) =>
      assert forall i | 0 <= i < |inner| :: inner[i] in line;
      if StringTerm(inner).Some? { CharsOfTerm(inner, '\n'); }
  }

  lemma {:induction false} LineHasNoFeed(line: string)
    requires '\n' !in line
    ensures NoFeed(ReadLine(line))
  {
    CharsOfClean(line, '\n');
    CleanLineHasNoFeed(Clean(line));
  }

  predicate CapsHaveNoFeed(f: Facts) { forall c | c in f.capabilities :: '\n' !in c }

  lemma {:induction false} ScannedCapsHaveNoFeed(read: Reader, index: nat, lines: seq<string>, f: Facts)
    requires CapsHaveNoFeed(f) && forall l | l in lines :: NoFeed(read(l))
    ensures ScanLines(read, index, lines, f).Ok? ==> CapsHaveNoFeed(ScanLines(read, index, lines, f).value)
    decreases |lines|
  {
    if lines != [] {
      assert NoFeed(read(lines[0]));
      match Merge(index, f, read(lines[0]))
      case Err(_) =>
      case Ok(g) => ScannedCapsHaveNoFeed(read, index, lines[1..], g);
    }
  }

  lemma {:induction false} FoldKeepsSurface(f: Facts, cs: seq<Claim>, surface: string)
    requires surface in f.capabilities || Capability(surface) in cs
    ensures Fold(0, f, cs).Ok? && surface in Fold(0, f, cs).value.capabilities
    decreases |cs|
  {
    if cs != [] { FoldKeepsSurface(Means(0, f, cs[0]).value, cs[1..], surface); }
  }

  /** Scanning the printed lines of a claim set as the authority block yields
      exactly the direct fold of the claims if and only if no surface has a line feed. */
  lemma PrintScanExact(cs: seq<Claim>)
    ensures ScanBlock(0, Print(cs), NO_FACTS) == Fold(0, NO_FACTS, cs) <==> forall c | c in cs :: OneLine(c)
  {
    if forall c | c in cs :: OneLine(c) {
      PrintedBlockMeans(0, cs, NO_FACTS);
    } else {
      var c :| c in cs && !OneLine(c);
      FoldKeepsSurface(NO_FACTS, cs, c.surface);
      LinesHaveNoFeed(Print(cs));
      forall l | l in Lines(Print(cs)) ensures NoFeed(ReadLine(l)) { LineHasNoFeed(l); }
      ScannedCapsHaveNoFeed(ReadLine, 0, Lines(Print(cs)), NO_FACTS);
    }
  }
}
