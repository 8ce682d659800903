/** Fact extraction from a biscuit's blocks and verification
    (crates/entangle-biscuits/src/claims.rs, crates/entangle-biscuits/src/verifier.rs).
    A token is the sequence of its blocks' printed sources, the authority block first. */
module Biscuit {
  import opened Common
  import opened Text
  import opened Identity
  import opened Datalog

  // ── Claims ─────────────────────────────────────────────────────────────────

  datatype Claim =
    | IssuedTo(p: PeerId)
    | Capability(surface: string)
    | Expires(secs: i64)
    | DestPin(p: PeerId)
    | RateLimitBps(n: u64)
    | TotalBytesCap(n: u64)
    | BridgeMarker

  /** `Claim::as_datalog`. */
  function AsDatalog(c: Claim): string {
    match c
    case IssuedTo(p) => Fact("peer", Quote(HexEncode(p)))
    case Capability(surface) => Fact("capability", Quote(Escape(surface)))
    case Expires(secs) => Fact("expires", ShowInt(secs))
    case DestPin(p) => Fact("dest_pin", Quote(HexEncode(p)))
    case RateLimitBps(n) => Fact("rate_limit_bps", Digits(n))
    case TotalBytesCap(n) => Fact("total_bytes_cap", Digits(n))
    case BridgeMarker => "bridge(true)"
  }

  /** A block's source: one fact a line, each closed by a semicolon. */
  function Print(cs: seq<Claim>): string {
    if cs == [] then [] else AsDatalog(cs[0]) + [';'] + ['\n'] + Print(cs[1..])
  }

  // ── Facts ──────────────────────────────────────────────────────────────────

  datatype Facts = Facts(
    capabilities: seq<string>,
    issuedTo: Option<PeerId>,
    expires: Option<i64>,
    destPin: Option<PeerId>,
    rateLimit: Option<u64>,
    totalBytes: Option<u64>,
    bridge: bool)

  const NO_FACTS: Facts := Facts([], None, None, None, None, None, false)

  datatype BiscuitError = Widens | MalformedDestPin | TokenExpired | WrongPeer | MissingCapability

  /** What one line says. */
  datatype Read =
    | ReadPeer(hex: Option<string>)
    | ReadCapability(text: Option<string>)
    | ReadExpires(secs: Option<i64>)
    | ReadDestPin(hex: Option<string>)
    | ReadRateLimit(n: Option<u64>)
    | ReadTotalBytes(n: Option<u64>)
    | ReadBridge
    | ReadNothing

  function ReadClean(line: string): Read {
    match StripPredicate(line, "peer")
    case Some(inner) => ReadPeer(StringTerm(inner))
    case None =>
    match StripPredicate(line, "capability")
    case Some(inner) => ReadCapability(StringTerm(inner))
    case None =>
    match StripPredicate(line, "expires")
    case Some(inner) => ReadExpires(ParseI64(Trim(inner)))
    case None =>
    match StripPredicate(line, "dest_pin")
    case Some(inner) => ReadDestPin(StringTerm(inner))
    case None =>
    match StripPredicate(line, "rate_limit_bps")
    case Some(inner) => ReadRateLimit(ParseU64(Trim(inner)))
    case None =>
    match StripPredicate(line, "total_bytes_cap")
    case Some(inner) => ReadTotalBytes(ParseU64(Trim(inner)))
    case None => if line == "bridge(true)" then ReadBridge else ReadNothing
  }

  function ReadLine(line: string): Read { ReadClean(Clean(line)) }

  /** The smaller of what was there and what is new. */
  function Tighter(prev: Option<int>, n: int): int { if prev.Some? && prev.value < n then prev.value else n }

  /** What a line does to the facts; only the authority block (index 0) may grant. */
  function Merge(index: nat, f: Facts, r: Read): Result<Facts, BiscuitError> {
    match r
    case ReadPeer(hex) =>
      if index != 0 then Err(Widens)
      else if hex.Some? then Ok(f.(issuedTo := PeerFromHex(hex.value))) else Ok(f)
    case ReadCapability(text) =>
      if index != 0 then Err(Widens)
      else if text.Some? then Ok(f.(capabilities := f.capabilities + [text.value])) else Ok(f)
    case ReadExpires(secs) => Ok(if secs.Some? then f.(expires := Some(Tighter(f.expires, secs.value))) else f)
    case ReadDestPin(hex) =>
      if hex.None? then Ok(f)
      else
        (match PeerFromHex(hex.value)
         case None => Err(MalformedDestPin)
         case Some(p) => Ok(if f.destPin.None? then f.(destPin := Some(p)) else f))
    case ReadRateLimit(n) => Ok(if n.Some? then f.(rateLimit := Some(Tighter(f.rateLimit, n.value))) else f)
    case ReadTotalBytes(n) => Ok(if n.Some? then f.(totalBytes := Some(Tighter(f.totalBytes, n.value))) else f)
    case ReadBridge => Ok(f.(bridge := true))
    case ReadNothing => Ok(f)
  }

  /** How a line is read; `ReadLine` in the program. */
  type Reader = string -> Read

  function ScanLines(read: Reader, index: nat, lines: seq<string>, f: Facts): Result<Facts, BiscuitError> {
    if lines == [] then Ok(f)
    else
      match Merge(index, f, read(lines[0]))
      case Err(e) => Err(e)
      case Ok(g) => ScanLines(read, index, lines[1..], g)
  }

  /** Scan `blocks`, the first of which has the given index. */
  function ScanBlocks(read: Reader, index: nat, blocks: seq<string>, f: Facts): Result<Facts, BiscuitError>
    decreases |blocks|
  {
    if blocks == [] then Ok(f)
    else
      match ScanLines(read, index, Lines(blocks[0]), f)
      case Err(e) => Err(e)
      case Ok(g) => ScanBlocks(read, index + 1, blocks[1..], g)
  }

  /** `scan_block_source`. */
  function ScanBlock(index: nat, source: string, f: Facts): Result<Facts, BiscuitError> {
    ScanLines(ReadLine, index, Lines(source), f)
  }

  /** `extract_facts`. */
  function Extract(blocks: seq<string>): Result<Facts, BiscuitError> { ScanBlocks(ReadLine, 0, blocks, NO_FACTS) }

  method ScanLoop(read: Reader, index: nat, lines: seq<string>, f: Facts) returns (r: Result<Facts, BiscuitError>)
    ensures r == ScanLines(read, index, lines, f)
  {
    var facts := f;
    for i := 0 to |lines|
      invariant ScanLines(read, index, lines[i..], facts) == ScanLines(read, index, lines, f)
    {
      assert lines[i..][0] == lines[i] && lines[i..][1..] == lines[i + 1..];
      match Merge(index, facts, read(lines[i]))
      case Err(e) => return Err(e);
      case Ok(g) => facts := g;
    }
    return Ok(facts);
  }

  method ExtractLoop(read: Reader, blocks: seq<string>) returns (r: Result<Facts, BiscuitError>)
    ensures r == ScanBlocks(read, 0, blocks, NO_FACTS)
  {
    var facts := NO_FACTS;
    for i := 0 to |blocks|
      invariant ScanBlocks(read, i, blocks[i..], facts) == ScanBlocks(read, 0, blocks, NO_FACTS)
    {
      assert blocks[i..][0] == blocks[i] && blocks[i..][1..] == blocks[i + 1..];
      var one := ScanLoop(read, i, Lines(blocks[i]), facts);
      match one
      case Err(e) => return Err(e);
      case Ok(g) => facts := g;
    }
    return Ok(facts);
  }

  method ExtractFacts(blocks: seq<string>) returns (r: Result<Facts, BiscuitError>)
    ensures r == Extract(blocks)
  {
    r := ExtractLoop(ReadLine, blocks);
  }

  // ── Verification ───────────────────────────────────────────────────────────

  datatype Context = Context(now: i64, local: PeerId)

  /** The checks of `verify` on the extracted facts. */
  function Check(f: Facts, ctx: Context, need: string): Result<Facts, BiscuitError> {
    if f.expires.Some? && ctx.now >= f.expires.value then Err(TokenExpired)
    else if f.issuedTo.Some? && f.issuedTo.value != ctx.local then Err(WrongPeer)
    else if need !in f.capabilities then Err(MissingCapability)
    else Ok(f)
  }

  function Verify(blocks: seq<string>, ctx: Context, need: string): Result<Facts, BiscuitError> {
    match Extract(blocks)
    case Err(e) => Err(e)
    case Ok(f) => Check(f, ctx, need)
  }

  /** A token verifies exactly when its blocks are well-formed, it has not
      expired, it names no holder or this peer, and its authority block grants
      what is needed; the first of these that fails is the error. */
  lemma VerifyExactly(blocks: seq<string>, ctx: Context, need: string)
    ensures forall f :: Verify(blocks, ctx, need) == Ok(f) <==>
              && Extract(blocks) == Ok(f) && (f.expires.None? || ctx.now < f.expires.value)
              && (f.issuedTo == None || f.issuedTo == Some(ctx.local)) && need in f.capabilities
    ensures Verify(blocks, ctx, need).Err? ==>
              Verify(blocks, ctx, need).error
              == if Extract(blocks).Err? then Extract(blocks).error
                 else if Extract(blocks).value.expires.Some? && Extract(blocks).value.expires.value <= ctx.now then TokenExpired
                 else if Extract(blocks).value.issuedTo.Some? && Extract(blocks).value.issuedTo != Some(ctx.local) then WrongPeer
                 else MissingCapability
  {
  }

  // ── Attenuation only narrows ───────────────────────────────────────────────

  predicate Shrinks(a: Option<int>, b: Option<int>) { a.Some? ==> b.Some? && b.value <= a.value }

  /** `g` grants the same as `f` under limits at least as tight. */
  predicate Narrows(f: Facts, g: Facts) {
    && g.capabilities == f.capabilities && g.issuedTo == f.issuedTo
    && Shrinks(f.expires, g.expires) && Shrinks(f.rateLimit, g.rateLimit) && Shrinks(f.totalBytes, g.totalBytes)
    && (f.destPin.Some? ==> g.destPin == f.destPin)
    && (f.bridge ==> g.bridge)
  }

  lemma MergeNarrows(index: nat, f: Facts, r: Read)
    requires index > 0 && Merge(index, f, r).Ok?
    ensures Narrows(f, Merge(index, f, r).value)
  {
  }

  lemma NarrowsChain(f: Facts, g: Facts, h: Facts)
    requires Narrows(f, g) && Narrows(g, h)
    ensures Narrows(f, h)
  {
  }

  lemma {:induction false} LinesNarrow(read: Reader, index: nat, lines: seq<string>, f: Facts)
    requires index > 0 && ScanLines(read, index, lines, f).Ok?
    ensures Narrows(f, ScanLines(read, index, lines, f).value)
  {
    if lines != [] {
      var r := read(lines[0]);
      MergeNarrows(index, f, r);
      var g := Merge(index, f, r).value;
      LinesNarrow(read, index, lines[1..], g);
      NarrowsChain(f, g, ScanLines(read, index, lines, f).value);
    }
  }

  lemma {:induction false} BlocksNarrow(read: Reader, index: nat, blocks: seq<string>, f: Facts)
    requires index > 0 && ScanBlocks(read, index, blocks, f).Ok?
    ensures Narrows(f, ScanBlocks(read, index, blocks, f).value)
    decreases |blocks|
  {
    if blocks != [] {
      LinesNarrow(read, index, Lines(blocks[0]), f);
      var g := ScanLines(read, index, Lines(blocks[0]), f).value;
      BlocksNarrow(read, index + 1, blocks[1..], g);
      NarrowsChain(f, g, ScanBlocks(read, index, blocks, f).value);
    }
  }

  lemma {:induction false} ScanConcat(read: Reader, index: nat, a: seq<string>, b: seq<string>, f: Facts)
    ensures ScanBlocks(read, index, a + b, f)
         == match ScanBlocks(read, index, a, f)
            case Err(e) => Err(e)
            case Ok(g) => ScanBlocks(read, index + |a|, b, g)
    decreases |a|
  {
    if a == [] {
      assert a + b == b;
    } else {
      assert (a + b)[0] == a[0] && (a + b)[1..] == a[1..] + b;
      match ScanLines(read, index, Lines(a[0]), f)
      case Ok(g) => ScanConcat(read, index + 1, a[1..], b, g);
      case Err(_) =>
    }
  }

  lemma ScansNarrow(read: Reader, blocks: seq<string>, more: seq<string>)
    requires blocks != [] && ScanBlocks(read, 0, blocks + more, NO_FACTS).Ok?
    ensures ScanBlocks(read, 0, blocks, NO_FACTS).Ok?
    ensures Narrows(ScanBlocks(read, 0, blocks, NO_FACTS).value, ScanBlocks(read, 0, blocks + more, NO_FACTS).value)
  {
    ScanConcat(read, 0, blocks, more, NO_FACTS);
    BlocksNarrow(read, |blocks|, more, ScanBlocks(read, 0, blocks, NO_FACTS).value);
  }

  lemma CheckNarrows(f: Facts, g: Facts, ctx: Context, need: string)
    requires Narrows(f, g) && Check(g, ctx, need).Ok?
    ensures Check(f, ctx, need) == Ok(f) && Check(g, ctx, need) == Ok(g)
  {
  }

  /** For any block texts: a token accepted with blocks appended is accepted
      without them, with the same capabilities and holder and limits no tighter. */
  lemma {:induction false} AttenuationNarrows(blocks: seq<string>, more: seq<string>, ctx: Context, need: string)
    requires blocks != [] && Verify(blocks + more, ctx, need).Ok?
    ensures Verify(blocks, ctx, need).Ok?
    ensures Narrows(Verify(blocks, ctx, need).value, Verify(blocks + more, ctx, need).value)
  {
    ScansNarrow(ReadLine, blocks, more);
    CheckNarrows(Extract(blocks).value, Extract(blocks + more).value, ctx, need);
  }
}
