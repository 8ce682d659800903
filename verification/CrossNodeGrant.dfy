/** Grants backed by a biscuit from another node (`grant_with_biscuit`,
    crates/entangle-broker/src/broker.rs). */
module CrossNodeGrant {
  import opened Common
  import opened Capability
  import opened Audit
  import opened Broker
  import opened BrokerService
  import Bis = Biscuit
  import RT = BiscuitRoundTrip

  datatype CrossNodeError = BiscuitRefused | GrantRefused(e: BrokerError)

  /** The token as the first trust root that accepts its signature reads it;
      `parses` has one entry per trust root. */
  function FirstAccepted(parses: seq<Option<seq<string>>>): (r: Option<seq<string>>)
    ensures r.Some? ==> exists i :: 0 <= i < |parses| && parses[i] == r && forall j | 0 <= j < i :: parses[j].None?
    ensures r.None? ==> forall i | 0 <= i < |parses| :: parses[i].None?
  {
    if parses == [] then None
    else if parses[0].Some? then parses[0]
    else FirstAccepted(parses[1..])
  }

  function GrantWithBiscuit(
    sh: Shared, p: PluginId, c: CapabilityKind, parses: seq<Option<seq<string>>>, ctx: Bis.Context)
    : (Shared, Result<GrantId, CrossNodeError>)
    requires sh.log.maxEvents >= 1
  {
    match FirstAccepted(parses)
    case None => (sh, Err(BiscuitRefused))
    case Some(blocks) =>
      match Bis.Verify(blocks, ctx, FormatCap(c))
      case Err(_) => (sh, Err(BiscuitRefused))
      case Ok(_) =>
        var (sh', reply) := GrantResult(sh, p, c);
        match reply
        case Granted(g) => (sh', Ok(g))
        case Failed(e) => (sh', Err(GrantRefused(e)))
        case Done => (sh', Err(BiscuitRefused))
  }

  lemma GrantReplies(sh: Shared, p: PluginId, c: CapabilityKind)
    requires sh.log.maxEvents >= 1
    ensures GrantResult(sh, p, c).1.Granted? || GrantResult(sh, p, c).1.Failed?
    ensures GrantResult(sh, p, c).1.Granted? <==> Declared(sh, p, c)
  {
  }

  /** Both layers deny by default: a grant is given exactly when some trust root
      accepts a token that verifies for this capability and the manifest
      declares it, and a refused token leaves the broker and its log untouched. */
  lemma {:induction false} NeverABypass(
    sh: Shared, p: PluginId, c: CapabilityKind, parses: seq<Option<seq<string>>>, ctx: Bis.Context)
    requires sh.log.maxEvents >= 1
    ensures var r := GrantWithBiscuit(sh, p, c, parses, ctx);
            var token := FirstAccepted(parses);
            && (r.1.Ok? <==> Declared(sh, p, c) && token.Some? && Bis.Verify(token.value, ctx, FormatCap(c)).Ok?)
            && (r.1.Ok? ==> (r.0, Granted(r.1.value)) == GrantResult(sh, p, c))
            && (r.1 == Err(BiscuitRefused) ==> r.0 == sh)
            && (r.1 == Err(BiscuitRefused) <==> token.None? || Bis.Verify(token.value, ctx, FormatCap(c)).Err?)
            && (r.1.Err? && r.1.error.GrantRefused? ==> (r.0, Failed(r.1.error.e)) == GrantResult(sh, p, c))
  {
    GrantReplies(sh, p, c);
  }

  /** Every trust root reads the attenuated token as the original with blocks
      appended, or reads neither. */
  predicate Attenuates(original: seq<Option<seq<string>>>, attenuated: seq<Option<seq<string>>>) {
    && |original| == |attenuated|
    && forall i | 0 <= i < |original| ::
         if original[i].Some? then original[i].value != [] && attenuated[i].Some? && original[i].value <= attenuated[i].value
         else attenuated[i].None?
  }

  lemma {:induction false} FirstAttenuated(original: seq<Option<seq<string>>>, attenuated: seq<Option<seq<string>>>)
    requires Attenuates(original, attenuated)
    ensures Attenuates([FirstAccepted(original)], [FirstAccepted(attenuated)])
  {
    if original != [] {
      if original[0].None? {
        forall i | 0 <= i < |original| - 1
          ensures original[1..][i] == original[i + 1] && attenuated[1..][i] == attenuated[i + 1] {}
        FirstAttenuated(original[1..], attenuated[1..]);
      }
    }
  }

  /** Attenuating a token never enables a grant: whatever blocks are appended
      and whatever the trust roots, a grant given with them is given, the same,
      without them. */
  lemma {:induction false} AttenuationNeverEnables(
    sh: Shared, p: PluginId, c: CapabilityKind,
    original: seq<Option<seq<string>>>, attenuated: seq<Option<seq<string>>>, ctx: Bis.Context)
    requires sh.log.maxEvents >= 1 && Attenuates(original, attenuated)
    requires GrantWithBiscuit(sh, p, c, attenuated, ctx).1.Ok?
    ensures GrantWithBiscuit(sh, p, c, original, ctx) == GrantWithBiscuit(sh, p, c, attenuated, ctx)
  {
    FirstAttenuated(original, attenuated);
    GrantReplies(sh, p, c);
    var short, long := FirstAccepted(original), FirstAccepted(attenuated);
    assert [short][0] == short && [long][0] == long;
    assert long.value == short.value + long.value[|short.value|..];
    Bis.AttenuationNarrows(short.value, long.value[|short.value|..], ctx, FormatCap(c));
  }

  // ── A minted token is good for the capabilities it names and no others ─────

  predicate Names(ds: seq<CapabilityKind>, cs: seq<Bis.Claim>) {
    forall claim | claim in cs && claim.Capability? :: exists d :: d in ds && claim.surface == FormatCap(d)
  }

  lemma {:induction false} FoldedCaps(f: Bis.Facts, cs: seq<Bis.Claim>, surface: string)
    requires RT.Fold(0, f, cs).Ok? && surface in RT.Fold(0, f, cs).value.capabilities
    ensures surface in f.capabilities || Bis.Capability(surface) in cs
    decreases |cs|
  {
    if cs != [] { FoldedCaps(RT.Means(0, f, cs[0]).value, cs[1..], surface); }
  }

  lemma {:induction false} SingleBlock(cs: seq<Bis.Claim>)
    requires forall claim | claim in cs :: RT.OneLine(claim)
    ensures Bis.Extract([Bis.Print(cs)]) == RT.Fold(0, Bis.NO_FACTS, cs)
  {
    RT.PrintedBlockMeans(0, cs, Bis.NO_FACTS);
    SingleBlockScans(Bis.ReadLine, Bis.Print(cs));
  }

  lemma {:induction false} SingleBlockScans(read: Bis.Reader, source: string)
    ensures Bis.ScanBlocks(read, 0, [source], Bis.NO_FACTS) == Bis.ScanLines(read, 0, Bis.Datalog.Lines(source), Bis.NO_FACTS)
  {
    assert [source][1..] == [];
  }

  /** A token printed from claims that name the capabilities `ds` verifies for
      no other capability, because the audit names are injective. */
  lemma {:induction false} TokenGrantsOnlyNamed(
    cs: seq<Bis.Claim>, ds: seq<CapabilityKind>, c: CapabilityKind, ctx: Bis.Context)
    requires (forall claim | claim in cs :: RT.OneLine(claim)) && Names(ds, cs)
    requires Bis.Verify([Bis.Print(cs)], ctx, FormatCap(c)).Ok?
    ensures c in ds
  {
    SingleBlock(cs);
    FoldedCaps(Bis.NO_FACTS, cs, FormatCap(c));
    var d :| d in ds && Bis.Capability(FormatCap(c)).surface == FormatCap(d);
    FormatCapInjective(c, d);
  }
}
