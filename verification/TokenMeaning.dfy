/** What a minted and attenuated token says, block by block, and who can use it
    (crates/entangle-biscuits/src/verifier.rs, `grant_with_biscuit` of crates/entangle-broker/src/broker.rs). */
module TokenMeaning {
  import opened Common
  import opened Text
  import opened Identity
  import opened Biscuit
  import opened BiscuitRoundTrip
  import Bridge
  import Datalog
  import Caps = Capability
  import Audit
  import Broker
  import CrossNodeGrant

  // ── The facts of a list of claims, in closed form ──────────────────────────

  predicate Grants(c: Claim) { c.IssuedTo? || c.Capability? }

  /** The capabilities named, in order. */
  function Surfaces(cs: seq<Claim>): seq<string> {
    if cs == [] then []
    else
      var init, c := Surfaces(cs[..|cs| - 1]), cs[|cs| - 1];
      if c.Capability? then init + [c.surface] else init
  }

  /** The holder named last. */
  function Holder(cs: seq<Claim>): Option<PeerId> {
    if cs == [] then None
    else if cs[|cs| - 1].IssuedTo? then Some(cs[|cs| - 1].p)
    else Holder(cs[..|cs| - 1])
  }

  /** The destination pinned first. */
  function Pin(cs: seq<Claim>): Option<PeerId> {
    if cs == [] then None
    else
      var init, c := Pin(cs[..|cs| - 1]), cs[|cs| - 1];
      if init.None? && c.DestPin? then Some(c.p) else init
  }

  function Expiries(cs: seq<Claim>): set<int> { set c | c in cs && c.Expires? :: c.secs }

  function Rates(cs: seq<Claim>): set<int> { set c | c in cs && c.RateLimitBps? :: c.n }

  function Totals(cs: seq<Claim>): set<int> { set c | c in cs && c.TotalBytesCap? :: c.n }

  predicate IsLeast(o: Option<int>, s: set<int>) {
    if o.Some? then o.value in s && forall x | x in s :: o.value <= x else s == {}
  }

  /** The facts of a token: grants come from the authority block alone, every
      limit is the tightest of all blocks, the first pin stands. */
  predicate Summary(f: Facts, authority: seq<Claim>, all: seq<Claim>) {
    && f.capabilities == Surfaces(authority) && f.issuedTo == Holder(authority)
    && IsLeast(f.expires, Expiries(all)) && IsLeast(f.rateLimit, Rates(all)) && IsLeast(f.totalBytes, Totals(all))
    && f.destPin == Pin(all)
    && (f.bridge <==> BridgeMarker in all)
  }

  lemma LimitSets(all: seq<Claim>, c: Claim)
    ensures Expiries(all + [c]) == Expiries(all) + (if c.Expires? then {c.secs} else {})
    ensures Rates(all + [c]) == Rates(all) + (if c.RateLimitBps? then {c.n} else {})
    ensures Totals(all + [c]) == Totals(all) + (if c.TotalBytesCap? then {c.n} else {})
  {
    assert forall d :: d in all + [c] <==> d in all || d == c;
  }

  lemma GrantLists(cs: seq<Claim>, c: Claim)
    ensures Surfaces(cs + [c]) == Surfaces(cs) + (if c.Capability? then [c.surface] else [])
    ensures Holder(cs + [c]) == if c.IssuedTo? then Some(c.p) else Holder(cs)
    ensures Pin(cs + [c]) == if Pin(cs).None? && c.DestPin? then Some(c.p) else Pin(cs)
  {
    assert (cs + [c])[..|cs|] == cs;
  }

  lemma LeastNext(o: Option<int>, s: set<int>, n: int)
    requires IsLeast(o, s)
    ensures IsLeast(Some(if o.Some? then Min(o.value, n) else n), s + {n})
  {
  }

  lemma AppendedMeans(index: nat, f: Facts, authority: seq<Claim>, all: seq<Claim>, c: Claim)
    requires Summary(f, authority, all) && !Grants(c)
    ensures Means(index, f, c).Ok? && Summary(Means(index, f, c).value, authority, all + [c])
  {
    LimitSets(all, c);
    GrantLists(all, c);
    match c
    case Expires(secs) => LeastNext(f.expires, Expiries(all), secs);
    case RateLimitBps(n) => LeastNext(f.rateLimit, Rates(all), n);
    case TotalBytesCap(n) => LeastNext(f.totalBytes, Totals(all), n);
    case _ =>
  }

  lemma GrantMeans(f: Facts, cs: seq<Claim>, c: Claim)
    requires Summary(f, cs, cs) && Grants(c)
    ensures Means(0, f, c).Ok? && Summary(Means(0, f, c).value, cs + [c], cs + [c])
  {
    LimitSets(cs, c);
    GrantLists(cs, c);
  }

  /** A claim that grants nothing leaves the grants of the authority block. */
  lemma NoGrantMore(f: Facts, cs: seq<Claim>, c: Claim)
    requires Summary(f, cs, cs + [c]) && !Grants(c)
    ensures Summary(f, cs + [c], cs + [c])
  {
    GrantLists(cs, c);
  }

  lemma FoldStep(index: nat, f: Facts, cs: seq<Claim>, g: Facts)
    requires cs != [] && Means(index, f, cs[0]) == Ok(g)
    ensures Fold(index, f, cs) == Fold(index, g, cs[1..])
  {
  }

  lemma {:induction false} AuthorityFolds(f: Facts, before: seq<Claim>, cs: seq<Claim>)
    requires Summary(f, before, before)
    ensures Fold(0, f, cs).Ok? && Summary(Fold(0, f, cs).value, before + cs, before + cs)
    decreases |cs|
  {
    if cs == [] {
      assert before + cs == before;
    } else {
      if Grants(cs[0]) { GrantMeans(f, before, cs[0]); }
      else {
        AppendedMeans(0, f, before, before, cs[0]);
        NoGrantMore(Means(0, f, cs[0]).value, before, cs[0]);
      }
      var g := Means(0, f, cs[0]).value;
      FoldStep(0, f, cs, g);
      AuthorityFolds(g, before + [cs[0]], cs[1..]);
      assert (before + [cs[0]]) + cs[1..] == before + cs;
    }
  }

  lemma {:induction false} AppendedFolds(index: nat, f: Facts, authority: seq<Claim>, all: seq<Claim>, cs: seq<Claim>)
    requires Summary(f, authority, all) && forall c | c in cs :: !Grants(c)
    ensures Fold(index, f, cs).Ok? && Summary(Fold(index, f, cs).value, authority, all + cs)
    decreases |cs|
  {
    if cs == [] {
      assert all + cs == all;
    } else {
      AppendedMeans(index, f, authority, all, cs[0]);
      var g := Means(index, f, cs[0]).value;
      FoldStep(index, f, cs, g);
      AppendedFolds(index, g, authority, all + [cs[0]], cs[1..]);
      assert (all + [cs[0]]) + cs[1..] == all + cs;
    }
  }

  lemma {:induction false} FoldWidens(index: nat, f: Facts, cs: seq<Claim>)
    requires index > 0 && exists c :: c in cs && Grants(c)
    ensures Fold(index, f, cs) == Err(Widens)
    decreases |cs|
  {
    if !Grants(cs[0]) {
      assert Means(index, f, cs[0]).Ok?;
      assert cs == [cs[0]] + cs[1..];
      FoldWidens(index, Means(index, f, cs[0]).value, cs[1..]);
    }
  }

  // ── Whole tokens ───────────────────────────────────────────────────────────

  /** The blocks of a token as its issuer and its holders printed them. */
  function Printed(css: seq<seq<Claim>>): (blocks: seq<string>)
    ensures |blocks| == |css|
  {
    seq(|css|, i requires 0 <= i < |css| => Print(css[i]))
  }

  function Flat(css: seq<seq<Claim>>): seq<Claim> {
    if css == [] then [] else Flat(css[..|css| - 1]) + css[|css| - 1]
  }

  predicate AllOneLine(css: seq<seq<Claim>>) { forall i | 0 <= i < |css| :: forall c | c in css[i] :: OneLine(c) }

  /** No appended block grants anything. */
  predicate OnlyAttenuates(css: seq<seq<Claim>>) { forall i | 1 <= i < |css| :: forall c | c in css[i] :: !Grants(c) }

  lemma PrintedSnoc(css: seq<seq<Claim>>)
    requires css != []
    ensures Printed(css) == Printed(css[..|css| - 1]) + [Print(css[|css| - 1])]
  {
  }

  lemma {:induction false} ScanError(read: Reader, blocks: seq<string>, source: string)
    requires ScanBlocks(read, 0, blocks, NO_FACTS).Err?
    ensures ScanBlocks(read, 0, blocks + [source], NO_FACTS) == ScanBlocks(read, 0, blocks, NO_FACTS)
  {
    ScanConcat(read, 0, blocks, [source], NO_FACTS);
  }

  ghost predicate MeansThis(r: Result<Facts, BiscuitError>, css: seq<seq<Claim>>)
    requires css != []
  {
    if OnlyAttenuates(css) then r.Ok? && Summary(r.value, css[0], Flat(css)) else r == Err(Widens)
  }

  lemma {:induction false} AuthorityMeans(cs: seq<Claim>)
    requires forall c | c in cs :: OneLine(c)
    ensures MeansThis(Extract([Print(cs)]), [cs])
  {
    Bridge.OneBlockMore([], cs);
    assert [] + [Print(cs)] == [Print(cs)];
    AuthorityFolds(NO_FACTS, [], cs);
    assert Flat([cs]) == Flat([cs][..0]) + cs && [cs][..0] == [] && [] + cs == cs;
  }

  lemma {:induction false} AppendedBlock(css: seq<seq<Claim>>, blocks: seq<string>, cs: seq<Claim>)
    requires css != [] && MeansThis(Extract(blocks), css) && |blocks| == |css| && forall c | c in cs :: OneLine(c)
    ensures MeansThis(Extract(blocks + [Print(cs)]), css + [cs])
  {
    var more := css + [cs];
    assert more[..|css|] == css && more[|css|] == cs && more[0] == css[0];
    if OnlyAttenuates(css) {
      Bridge.OneBlockMore(blocks, cs);
      var f := Extract(blocks).value;
      if forall c | c in cs :: !Grants(c) {
        AppendedFolds(|blocks|, f, css[0], Flat(css), cs);
      } else {
        FoldWidens(|blocks|, f, cs);
      }
    } else {
      var i :| 1 <= i < |css| && exists c :: c in css[i] && Grants(c);
      assert more[i] == css[i];
      ScanError(ReadLine, blocks, Print(cs));
    }
  }

  /** A token is readable exactly when no appended block grants anything, and
      then its facts are the closed form; otherwise it is refused as widening. */
  lemma {:induction false} TokenMeans(css: seq<seq<Claim>>)
    requires css != [] && AllOneLine(css)
    ensures OnlyAttenuates(css) ==> Extract(Printed(css)).Ok? && Summary(Extract(Printed(css)).value, css[0], Flat(css))
    ensures !OnlyAttenuates(css) ==> Extract(Printed(css)) == Err(Widens)
  {
    MeansEach(css);
  }

  lemma {:induction false} MeansEach(css: seq<seq<Claim>>)
    requires css != [] && AllOneLine(css)
    ensures MeansThis(Extract(Printed(css)), css)
  {
    var n := |css| - 1;
    assert css == css[..n] + [css[n]];
    if n == 0 {
      assert Printed(css) == [Print(css[0])] && css == [css[0]];
      AuthorityMeans(css[0]);
    } else {
      PrintedSnoc(css);
      MeansEach(css[..n]);
      AppendedBlock(css[..n], Printed(css[..n]), css[n]);
    }
  }

  // ── No appended block can grant ────────────────────────────────────────────

  predicate ReadsGrant(r: Read) { r.ReadPeer? || r.ReadCapability? }

  lemma {:induction false} LineRefuses(read: Reader, index: nat, lines: seq<string>, k: nat, f: Facts)
    requires index > 0 && k < |lines| && ReadsGrant(read(lines[k]))
    ensures ScanLines(read, index, lines, f).Err?
  {
    if k > 0 {
      match Merge(index, f, read(lines[0]))
      case Err(_) =>
      case Ok(g) => LineRefuses(read, index, lines[1..], k - 1, g);
    }
  }

  lemma {:induction false} BlockRefuses(read: Reader, index: nat, blocks: seq<string>, i: nat, k: nat, f: Facts)
    requires i < |blocks| && index + i > 0 && k < |Datalog.Lines(blocks[i])| && ReadsGrant(read(Datalog.Lines(blocks[i])[k]))
    ensures ScanBlocks(read, index, blocks, f).Err?
    decreases |blocks|
  {
    if i == 0 {
      LineRefuses(read, index, Datalog.Lines(blocks[0]), k, f);
    } else {
      match ScanLines(read, index, Datalog.Lines(blocks[0]), f)
      case Err(_) =>
      case Ok(g) => BlockRefuses(read, index + 1, blocks[1..], i - 1, k, g);
    }
  }

  /** A `peer(...)` or `capability(...)` fact anywhere in an appended block,
      with whatever space, semicolons and commas around it, refuses the token. */
  lemma {:induction false} AppendedGrantRefused(
    blocks: seq<string>, i: nat, k: nat, pred: string, inner: string, a: string, semis: string, commas: string, b: string,
    ctx: Context, need: string)
    requires 0 < i < |blocks| && k < |Datalog.Lines(blocks[i])| && (pred == "peer" || pred == "capability")
    requires Datalog.AllSpace(a) && Datalog.AllSpace(b) && Datalog.AllOf(semis, ';') && Datalog.AllOf(commas, ',')
    requires Datalog.Lines(blocks[i])[k] == a + (Datalog.Fact(pred, inner) + semis + commas) + b
    ensures Verify(blocks, ctx, need).Err?
  {
    GrantLine(pred, inner, a, semis, commas, b);
    BlockRefuses(ReadLine, 0, blocks, i, k, NO_FACTS);
  }

  lemma {:induction false} GrantLine(pred: string, inner: string, a: string, semis: string, commas: string, b: string)
    requires pred == "peer" || pred == "capability"
    requires Datalog.AllSpace(a) && Datalog.AllSpace(b) && Datalog.AllOf(semis, ';') && Datalog.AllOf(commas, ',')
    ensures ReadsGrant(ReadLine(a + (Datalog.Fact(pred, inner) + semis + commas) + b))
  {
    var body := Datalog.Fact(pred, inner);
    assert body[0] == pred[0] && body[|body| - 1] == ')';
    Datalog.CleanPadded(a, body, semis, commas, b);
    if pred == "peer" { PeerLine(inner); } else { CapabilityLine(inner); }
  }

  // ── A malformed pin is never overlooked ────────────────────────────────────

  lemma {:induction false} PinLineRefuses(read: Reader, index: nat, lines: seq<string>, k: nat, f: Facts)
    requires k < |lines| && read(lines[k]).ReadDestPin? && read(lines[k]).hex.Some? && Datalog.PeerFromHex(read(lines[k]).hex.value).None?
    ensures ScanLines(read, index, lines, f).Err?
  {
    if k > 0 {
      match Merge(index, f, read(lines[0]))
      case Err(_) =>
      case Ok(g) => PinLineRefuses(read, index, lines[1..], k - 1, g);
    }
  }

  lemma {:induction false} PinBlockRefuses(read: Reader, index: nat, blocks: seq<string>, i: nat, k: nat, f: Facts)
    requires i < |blocks| && k < |Datalog.Lines(blocks[i])|
    requires var r := read(Datalog.Lines(blocks[i])[k]); r.ReadDestPin? && r.hex.Some? && Datalog.PeerFromHex(r.hex.value).None?
    ensures ScanBlocks(read, index, blocks, f).Err?
    decreases |blocks|
  {
    if i == 0 {
      PinLineRefuses(read, index, Datalog.Lines(blocks[0]), k, f);
    } else {
      match ScanLines(read, index, Datalog.Lines(blocks[0]), f)
      case Err(_) =>
      case Ok(g) => PinBlockRefuses(read, index + 1, blocks[1..], i - 1, k, g);
    }
  }

  /** A `dest_pin("...")` fact in any block whose text is not the 32 hex digits
      of a peer id refuses the token, even when an earlier pin would stand. */
  lemma {:induction false} MalformedPinRefused(blocks: seq<string>, i: nat, k: nat, text: string, ctx: Context, need: string)
    requires i < |blocks| && k < |Datalog.Lines(blocks[i])|
    requires Datalog.Lines(blocks[i])[k] == Datalog.Fact("dest_pin", Datalog.Quote(Datalog.Escape(text))) + [';']
    requires HexDecode(text).None? || |HexDecode(text).value| != 16
    ensures Verify(blocks, ctx, need).Err?
  {
    PinLine(text);
    PinBlockRefuses(ReadLine, 0, blocks, i, k, NO_FACTS);
  }

  lemma {:induction false} PinLine(text: string)
    ensures ReadLine(Datalog.Fact("dest_pin", Datalog.Quote(Datalog.Escape(text))) + [';']) == ReadDestPin(Some(text))
  {
    var inner := Datalog.Quote(Datalog.Escape(text));
    var body := Datalog.Fact("dest_pin", inner);
    assert body[0] == 'd' && body[|body| - 1] == ')';
    Datalog.CleanPrinted(body);
    DestPinLine(inner);
    Datalog.StringTermQuoted(Datalog.Escape(text));
    Datalog.UnescapeEscape(text);
  }

  // ── Who can use a token ────────────────────────────────────────────────────

  lemma {:induction false} SurfacesAre(cs: seq<Claim>, surface: string)
    ensures surface in Surfaces(cs) <==> Capability(surface) in cs
  {
    if cs != [] {
      var n := |cs| - 1;
      SurfacesAre(cs[..n], surface);
      assert cs == cs[..n] + [cs[n]];
    }
  }

  /** A minted and attenuated token verifies exactly when no appended block
      grants anything, the authority block names the capability, its holder is
      this peer or nobody, and no block's expiry has come. */
  lemma {:induction false} VerifiesExactly(css: seq<seq<Claim>>, ctx: Context, need: string)
    requires css != [] && AllOneLine(css)
    ensures Verify(Printed(css), ctx, need).Ok? <==>
              && OnlyAttenuates(css) && Capability(need) in css[0]
              && (Holder(css[0]) == None || Holder(css[0]) == Some(ctx.local))
              && forall c | c in Flat(css) && c.Expires? :: ctx.now < c.secs
  {
    TokenMeans(css);
    VerifyExactly(Printed(css), ctx, need);
    SurfacesAre(css[0], need);
    if OnlyAttenuates(css) {
      ExpiryOk(Extract(Printed(css)).value.expires, Flat(css), ctx.now);
    }
  }

  lemma ExpiryOk(expires: Option<int>, all: seq<Claim>, now: int)
    requires IsLeast(expires, Expiries(all))
    ensures (expires.None? || now < expires.value) <==> forall c | c in all && c.Expires? :: now < c.secs
  {
    assert forall c | c in all && c.Expires? :: c.secs in Expiries(all);
  }

  /** A token made out to `p` verifies at no other peer, whatever blocks are
      appended to it. */
  lemma {:induction false} HolderOnly(cs: seq<Claim>, more: seq<string>, p: PeerId, ctx: Context, need: string)
    requires (forall c | c in cs :: OneLine(c)) && Holder(cs) == Some(p) && ctx.local != p
    ensures Verify([Print(cs)] + more, ctx, need).Err?
  {
    if Verify([Print(cs)] + more, ctx, need).Ok? {
      AttenuationNarrows([Print(cs)], more, ctx, need);
      assert [Print(cs)] == Printed([cs]);
      VerifiesExactly([cs], ctx, need);
    }
  }

  /** No grant is given on it there: the broker refuses and stays as it is. */
  lemma {:induction false} NotGrantedElsewhere(
    sh: Broker.Shared, plugin: Audit.PluginId, c: Caps.CapabilityKind, parses: seq<Option<seq<string>>>, ctx: Context,
    cs: seq<Claim>, p: PeerId)
    requires sh.log.maxEvents >= 1 && (forall claim | claim in cs :: OneLine(claim)) && Holder(cs) == Some(p) && ctx.local != p
    requires forall i | 0 <= i < |parses| && parses[i].Some? :: [Print(cs)] <= parses[i].value
    ensures CrossNodeGrant.GrantWithBiscuit(sh, plugin, c, parses, ctx) == (sh, Err(CrossNodeGrant.BiscuitRefused))
  {
    var token := CrossNodeGrant.FirstAccepted(parses);
    if token.Some? {
      var i :| 0 <= i < |parses| && parses[i] == token;
      assert token.value == [Print(cs)] + token.value[1..];
      HolderOnly(cs, token.value[1..], p, ctx, Caps.FormatCap(c));
    }
  }
}
