/** Bridge capabilities: tokens attenuated for relaying (crates/entangle-biscuits/src/bridge.rs). */
module Bridge {
  import opened Common
  import opened Identity
  import opened Biscuit
  import opened BiscuitRoundTrip
  import Datalog

  const BRIDGE_TTL_MAX_SECS: int := 3_600
  const BRIDGE_RATE_LIMIT_MAX_BPS: int := 1_073_741_824
  const BRIDGE_TOTAL_BYTES_MAX: int := 1_099_511_627_776

  datatype BridgeError =
    | AttenuationMissing
    | TtlTooLong(ttl: i64)
    | RateLimitTooHigh(rate: u64)
    | TotalBytesTooLarge(total: u64)
    | DestPinMismatch(got: PeerId)
    | BiscuitRefused(e: BiscuitError)

  datatype BridgeContext = BridgeContext(base: Context, destination: PeerId, need: string)

  datatype BridgeFacts = BridgeFacts(capabilities: seq<string>, destPin: PeerId, rateLimit: u64, totalBytes: u64, expires: i64)

  /** `i64` subtraction without overflow checks. */
  function WrappingSub(a: i64, b: i64): i64 {
    var d := a - b;
    if d >= I64_LIMIT then d - 2 * I64_LIMIT else if d < 0 - I64_LIMIT then d + 2 * I64_LIMIT else d
  }

  /** The bounds `verify_bridge_cap` puts on verified facts, in its order. */
  function CheckBridge(f: Facts, ctx: BridgeContext): Result<BridgeFacts, BridgeError> {
    if !f.bridge then Err(AttenuationMissing)
    else if f.destPin.None? then Err(AttenuationMissing)
    else if f.destPin.value != ctx.destination then Err(DestPinMismatch(f.destPin.value))
    else if f.rateLimit.None? then Err(AttenuationMissing)
    else if f.rateLimit.value > BRIDGE_RATE_LIMIT_MAX_BPS then Err(RateLimitTooHigh(f.rateLimit.value))
    else if f.totalBytes.None? then Err(AttenuationMissing)
    else if f.totalBytes.value > BRIDGE_TOTAL_BYTES_MAX then Err(TotalBytesTooLarge(f.totalBytes.value))
    else if f.expires.None? then Err(AttenuationMissing)
    else
      var ttl := WrappingSub(f.expires.value, ctx.base.now);
      if ttl > BRIDGE_TTL_MAX_SECS then Err(TtlTooLong(ttl))
      else Ok(BridgeFacts(f.capabilities, f.destPin.value, f.rateLimit.value, f.totalBytes.value, f.expires.value))
  }

  function VerifyBridge(blocks: seq<string>, ctx: BridgeContext): Result<BridgeFacts, BridgeError> {
    match Verify(blocks, ctx.base, ctx.need)
    case Err(e) => Err(BiscuitRefused(e))
    case Ok(f) => CheckBridge(f, ctx)
  }

  /** `make_bridge_attenuation`. */
  function BridgeAttenuation(dest: PeerId, rate: u64, total: u64, expires: i64): seq<Claim> {
    [DestPin(dest), RateLimitBps(rate), TotalBytesCap(total), Expires(expires), BridgeMarker]
  }

  /** A bridge cap is accepted exactly when the token verifies, carries the
      marker and all four limits, is pinned to this destination, stays within the
      rate and byte ceilings, and has at most an hour left on the wrapping clock;
      what is returned are the token's own values. */
  lemma {:induction false} AcceptedExactly(blocks: seq<string>, ctx: BridgeContext)
    ensures forall b :: VerifyBridge(blocks, ctx) == Ok(b) <==>
              && Verify(blocks, ctx.base, ctx.need).Ok?
              && var f := Verify(blocks, ctx.base, ctx.need).value;
                 && f.bridge && f.destPin == Some(b.destPin) && b.destPin == ctx.destination
                 && f.rateLimit == Some(b.rateLimit) && b.rateLimit <= 0x4000_0000
                 && f.totalBytes == Some(b.totalBytes) && b.totalBytes <= 0x100_0000_0000
                 && f.expires == Some(b.expires) && WrappingSub(b.expires, ctx.base.now) <= 3600
                 && b.capabilities == f.capabilities
  {
  }

  /** Why a verified token is refused, in order: no marker, no pin, another
      destination, then each limit missing or too large. */
  lemma {:induction false} RefusedBecause(blocks: seq<string>, ctx: BridgeContext)
    requires VerifyBridge(blocks, ctx).Err?
    ensures var e := VerifyBridge(blocks, ctx).error;
            if Verify(blocks, ctx.base, ctx.need).Err? then e == BiscuitRefused(Verify(blocks, ctx.base, ctx.need).error)
            else
              var f := Verify(blocks, ctx.base, ctx.need).value;
              && (!f.bridge || f.destPin.None? ==> e == AttenuationMissing)
              && (f.bridge && f.destPin.Some? && f.destPin.value != ctx.destination ==> e == DestPinMismatch(f.destPin.value))
              && (f.bridge && f.destPin == Some(ctx.destination) ==>
                    && (f.rateLimit.None? ==> e == AttenuationMissing)
                    && (f.rateLimit.Some? && f.rateLimit.value > 0x4000_0000 ==> e == RateLimitTooHigh(f.rateLimit.value))
                    && (f.rateLimit.Some? && f.rateLimit.value <= 0x4000_0000 ==>
                          && (f.totalBytes.None? ==> e == AttenuationMissing)
                          && (f.totalBytes.Some? && f.totalBytes.value > 0x100_0000_0000 ==> e == TotalBytesTooLarge(f.totalBytes.value))
                          && (f.totalBytes.Some? && f.totalBytes.value <= 0x100_0000_0000 ==>
                                if f.expires.None? then e == AttenuationMissing
                                else e == TtlTooLong(WrappingSub(f.expires.value, ctx.base.now)))))
  {
  }

  /** `WrappingSub` is the one `i64` congruent to the difference modulo 2^64. */
  lemma WrappingSubIs(a: i64, b: i64)
    ensures (a - b - WrappingSub(a, b)) % 0x1_0000_0000_0000_0000 == 0
  {
  }

  // ── Theorems ───────────────────────────────────────────────────────────────

  /** An accepted cap is not expired, and it has at most an hour left exactly
      when the subtraction did not wrap. */
  lemma {:induction false} TtlBound(f: Facts, ctx: BridgeContext)
    requires Check(f, ctx.base, ctx.need) == Ok(f) && CheckBridge(f, ctx).Ok?
    ensures var left := CheckBridge(f, ctx).value.expires - ctx.base.now;
            0 < left && (left <= BRIDGE_TTL_MAX_SECS <==> left < I64_LIMIT)
  {
  }

  /** On any clock at or after the Unix epoch the bound always holds. */
  lemma {:induction false} AcceptedCapIsShortLived(blocks: seq<string>, ctx: BridgeContext)
    requires VerifyBridge(blocks, ctx).Ok?
    ensures var left := VerifyBridge(blocks, ctx).value.expires - ctx.base.now;
            0 < left && (left <= BRIDGE_TTL_MAX_SECS <==> left < I64_LIMIT)
    ensures ctx.base.now >= 0 ==> VerifyBridge(blocks, ctx).value.expires - ctx.base.now <= BRIDGE_TTL_MAX_SECS
  {
    var f := Verify(blocks, ctx.base, ctx.need).value;
    assert Check(f, ctx.base, ctx.need) == Ok(f);
    TtlBound(f, ctx);
  }

  /** A bridge cap that was accepted, is attenuated further and accepted again,
      at any other time and place, keeps its destination and capabilities, and
      none of its limits grows. */
  lemma {:induction false} BridgeNarrows(blocks: seq<string>, more: seq<string>, first: BridgeContext, later: BridgeContext)
    requires blocks != [] && VerifyBridge(blocks, first).Ok? && VerifyBridge(blocks + more, later).Ok?
    ensures first.destination == later.destination
    ensures var a, b := VerifyBridge(blocks, first).value, VerifyBridge(blocks + more, later).value;
            && a.destPin == b.destPin == later.destination && b.capabilities == a.capabilities
            && b.rateLimit <= a.rateLimit && b.totalBytes <= a.totalBytes && b.expires <= a.expires
  {
    AttenuationNarrows(blocks, more, later.base, later.need);
  }

  /** What the five mandatory facts make of a token's facts. */
  lemma {:induction false} AttenuationFolds(index: nat, f: Facts, dest: PeerId, rate: u64, total: u64, expires: i64)
    ensures Fold(index, f, BridgeAttenuation(dest, rate, total, expires))
         == Ok(f.(destPin := Some(if f.destPin.Some? then f.destPin.value else dest),
                  rateLimit := Some(if f.rateLimit.Some? then Min(f.rateLimit.value, rate) else rate),
                  totalBytes := Some(if f.totalBytes.Some? then Min(f.totalBytes.value, total) else total),
                  expires := Some(if f.expires.Some? then Min(f.expires.value, expires) else expires),
                  bridge := true))
  {
    var cs := BridgeAttenuation(dest, rate, total, expires);
    var g1 := Means(index, f, cs[0]).value;
    var g2 := Means(index, g1, cs[1]).value;
    var g3 := Means(index, g2, cs[2]).value;
    var g4 := Means(index, g3, cs[3]).value;
    assert cs[1..][0] == cs[1] && cs[1..][1..] == cs[2..] && cs[2..][0] == cs[2] && cs[2..][1..] == cs[3..];
    assert cs[3..][0] == cs[3] && cs[3..][1..] == cs[4..] && cs[4..][0] == cs[4] && cs[4..][1..] == [];
    assert Fold(index, f, cs) == Fold(index, g1, cs[1..]);
    assert Fold(index, g1, cs[1..]) == Fold(index, g2, cs[2..]);
    assert Fold(index, g2, cs[2..]) == Fold(index, g3, cs[3..]);
    assert Fold(index, g3, cs[3..]) == Fold(index, g4, cs[4..]);
    var g5 := Means(index, g4, cs[4]).value;
    assert Fold(index, g4, cs[4..]) == Fold(index, g5, []) && Fold(index, g5, []) == Ok(g5);
  }

  /** A block printed by `make_bridge_attenuation`, appended to any token that
      verifies and pins no destination of its own, gives a bridge cap that is
      accepted for that destination whenever its values are within the bounds. */
  lemma {:induction false} AttenuatedTokenIsBridge(
    blocks: seq<string>, ctx: BridgeContext, rate: u64, total: u64, expires: i64)
    requires blocks != [] && Verify(blocks, ctx.base, ctx.need).Ok? && Extract(blocks).value.destPin.None?
    requires rate <= BRIDGE_RATE_LIMIT_MAX_BPS && total <= BRIDGE_TOTAL_BYTES_MAX
    requires 0 < expires - ctx.base.now <= BRIDGE_TTL_MAX_SECS
    ensures var attenuated := blocks + [Print(BridgeAttenuation(ctx.destination, rate, total, expires))];
            && VerifyBridge(attenuated, ctx).Ok?
            && VerifyBridge(attenuated, ctx).value.capabilities == Verify(blocks, ctx.base, ctx.need).value.capabilities
            && VerifyBridge(attenuated, ctx).value.rateLimit <= rate
            && VerifyBridge(attenuated, ctx).value.totalBytes <= total
            && VerifyBridge(attenuated, ctx).value.expires <= expires
  {
    var cs := BridgeAttenuation(ctx.destination, rate, total, expires);
    var f := Extract(blocks).value;
    OneBlockMore(blocks, cs);
    AttenuationFolds(|blocks|, f, ctx.destination, rate, total, expires);
    var g := Fold(|blocks|, f, cs).value;
    BridgeFactsAccepted(f, g, ctx);
  }

  lemma {:induction false} LastBlockScans(read: Reader, blocks: seq<string>, source: string, f: Facts)
    requires ScanBlocks(read, 0, blocks, NO_FACTS) == Ok(f)
    ensures ScanBlocks(read, 0, blocks + [source], NO_FACTS) == ScanLines(read, |blocks|, Datalog.Lines(source), f)
  {
    ScanConcat(read, 0, blocks, [source], NO_FACTS);
    assert [source][1..] == [];
  }

  /** Appending a printed block of one-line claims continues the scan with their fold. */
  lemma {:induction false} OneBlockMore(blocks: seq<string>, cs: seq<Claim>)
    requires Extract(blocks).Ok? && forall c | c in cs :: OneLine(c)
    ensures Extract(blocks + [Print(cs)]) == Fold(|blocks|, Extract(blocks).value, cs)
  {
    var f, source := Extract(blocks).value, Print(cs);
    LastBlockScans(ReadLine, blocks, source, f);
    PrintedBlockMeans(|blocks|, cs, f);
  }

  lemma {:induction false} BridgeFactsAccepted(f: Facts, g: Facts, ctx: BridgeContext)
    requires Check(f, ctx.base, ctx.need) == Ok(f)
    requires g.capabilities == f.capabilities && g.issuedTo == f.issuedTo && g.bridge && g.destPin == Some(ctx.destination)
    requires g.rateLimit.Some? && g.rateLimit.value <= BRIDGE_RATE_LIMIT_MAX_BPS
    requires g.totalBytes.Some? && g.totalBytes.value <= BRIDGE_TOTAL_BYTES_MAX
    requires g.expires.Some? && 0 < g.expires.value - ctx.base.now <= BRIDGE_TTL_MAX_SECS
    ensures Check(g, ctx.base, ctx.need) == Ok(g) && CheckBridge(g, ctx).Ok?
    ensures CheckBridge(g, ctx).value
         == BridgeFacts(g.capabilities, ctx.destination, g.rateLimit.value, g.totalBytes.value, g.expires.value)
  {
  }

  lemma {:induction false} FoldCons(index: nat, f: Facts, c: Claim, cs: seq<Claim>)
    requires Means(index, f, c).Ok?
    ensures Fold(index, f, [c] + cs) == Fold(index, Means(index, f, c).value, cs)
  {
    assert ([c] + cs)[1..] == cs;
  }

  /** A token that expires at the epoch, seen by a clock 2^63 seconds before it:
      the subtraction wraps and a cap with far more than an hour left is accepted. */
  lemma {:induction false} WrappedTtlAccepted(dest: PeerId, need: string)
    requires '\n' !in need
    ensures var token := [Print([Capability(need)] + BridgeAttenuation(dest, 1, 1, 0))];
            var ctx := BridgeContext(Context(0 - I64_LIMIT, dest), dest, need);
            && VerifyBridge(token, ctx).Ok?
            && VerifyBridge(token, ctx).value.expires - ctx.base.now > BRIDGE_TTL_MAX_SECS
  {
    var att := BridgeAttenuation(dest, 1, 1, 0);
    var cs := [Capability(need)] + att;
    OneBlockMore([], cs);
    assert [] + [Print(cs)] == [Print(cs)];
    FoldCons(0, NO_FACTS, Capability(need), att);
    var f := Means(0, NO_FACTS, Capability(need)).value;
    AttenuationFolds(0, f, dest, 1, 1, 0);
    assert f.capabilities == [need];
  }
}
