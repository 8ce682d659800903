/** Semantic validation of plugin manifests (crates/entangle-manifest/src/validate.rs). */
module Manifest {
  import opened Common
  import opened Capability
  import PluginIds

  datatype Runtime = Wasm | NativeRuntime

  /** The TOML values a capability entry can carry, as far as validation looks. */
  datatype Toml = TomlString(text: string) | TomlTable(fields: map<string, Toml>) | TomlOther

  /** `[capabilities]` is a `BTreeMap`: `entries` lists it in key order. */
  datatype RawManifest = RawManifest(id: string, tier: nat, runtime: Runtime, entries: seq<(string, Toml)>)

  datatype ValidatedManifest = ValidatedManifest(
    pluginId: PluginIds.PluginId,
    declared: Tier,
    implied: Tier,
    effective: Tier,
    runtime: Runtime,
    capabilities: seq<CapabilityKind>)

  datatype ValidationError =
    | InvalidTier(raw: nat)
    | InvalidPluginId(reason: PluginIds.IdError)
    | UnknownCapability(key: string)
    | TierBelowCapability(declared: Tier, implied: Tier, key: string)
    | RuntimeTierMismatch(runtime: Runtime, tier: Tier)
    | CapabilityArgs(key: string)

  // ── Capability entries ─────────────────────────────────────────────────────

  /** An optional string field of an entry's table; `None` when it is not a string. */
  function StringField(args: Toml, field: string, default: string): Option<string> {
    if args.TomlTable? && field in args.fields then
      if args.fields[field].TomlString? then Some(args.fields[field].text) else None
    else Some(default)
  }

  function ParseScope(key: string, args: Toml): Result<CapabilityKind, ValidationError> {
    match StringField(args, "scope", "plugin")
    case Some("plugin") => Ok(StorageLocal(PluginScope))
    case Some("shared") => Ok(StorageLocal(SharedScope))
    case _ => Err(CapabilityArgs(key))
  }

  function ParseShare(key: string, name: string, args: Toml): Result<CapabilityKind, ValidationError> {
    match StringField(args, "mode", "ro")
    case Some("ro") => Ok(StorageShare(name, Ro))
    case Some("rw") => Ok(StorageShare(name, Rw))
    case Some("rw-scoped") => Ok(StorageShare(name, RwScoped))
    case _ => Err(CapabilityArgs(key))
  }

  /** `parse_capability`. */
  function ParseCapability(key: string, args: Toml): Result<CapabilityKind, ValidationError> {
    if key == "compute.cpu" then Ok(ComputeCpu)
    else if key == "compute.gpu" then Ok(ComputeGpu)
    else if key == "compute.npu" then Ok(ComputeNpu)
    else if key == "storage.local" then ParseScope(key, args)
    else if "storage.share." <= key then ParseShare(key, key[14..], args)
    else if key == "net.lan" then Ok(NetLan)
    else if key == "net.wan" then Ok(NetWan)
    else if key == "mesh.peer" then Ok(MeshPeer)
    else if key == "agent.invoke" then Ok(AgentInvoke)
    else if key == "host.docker-socket" then Ok(HostDockerSocket)
    else if "custom." <= key then Ok(Custom(key))
    else Err(UnknownCapability(key))
  }

  type Parsed = Result<CapabilityKind, ValidationError>

  function ParseEach(entries: seq<(string, Toml)>): (rs: seq<Parsed>)
    ensures |rs| == |entries|
  {
    seq(|entries|, i requires 0 <= i < |entries| => ParseCapability(entries[i].0, entries[i].1))
  }

  /** All entries in order; the first one that does not parse is the error. */
  function Collect(rs: seq<Parsed>): (r: Result<seq<CapabilityKind>, ValidationError>)
    ensures r.Ok? ==> |r.value| == |rs| && forall i | 0 <= i < |rs| :: rs[i] == Ok(r.value[i])
  {
    if rs == [] then Ok([])
    else
      match Collect(rs[..|rs| - 1])
      case Err(e) => Err(e)
      case Ok(caps) =>
        match rs[|rs| - 1]
        case Err(e) => Err(e)
        case Ok(c) => Ok(caps + [c])
  }

  function Higher(a: Tier, b: Tier): Tier { if Rank(a) >= Rank(b) then a else b }

  /** The highest tier a listed capability needs; `Pure` for an empty list. */
  function ImpliedTier(caps: seq<CapabilityKind>): (t: Tier)
    ensures forall c | c in caps :: Rank(MinTier(c)) <= Rank(t)
    ensures t == Pure || exists c :: c in caps && MinTier(c) == t
  {
    if caps == [] then Pure
    else
      var init, last := caps[..|caps| - 1], caps[|caps| - 1];
      assert caps == init + [last];
      Higher(ImpliedTier(init), MinTier(last))
  }

  predicate Offends(r: Parsed, declared: Tier) {
    r.Ok? && Rank(MinTier(r.value)) > Rank(declared)
  }

  function FirstOffending(rs: seq<Parsed>, declared: Tier): (r: Option<nat>)
    ensures r.Some? ==> r.value < |rs| && Offends(rs[r.value], declared) &&
                        forall i | 0 <= i < r.value :: !Offends(rs[i], declared)
    ensures r.None? ==> forall i | 0 <= i < |rs| :: !Offends(rs[i], declared)
  {
    if rs == [] then None
    else if Offends(rs[0], declared) then Some(0)
    else match FirstOffending(rs[1..], declared)
      case Some(i) => Some(i + 1)
      case None =>
        assert forall i | 1 <= i < |rs| :: rs[i] == rs[1..][i - 1];
        None
  }

  /** The `expect` in rule 5 cannot fire: an implied tier above the declared
      one comes from an entry that offends. */
  lemma {:induction false} OffendingExists(rs: seq<Parsed>, declared: Tier)
    requires Collect(rs).Ok? && Rank(declared) < Rank(ImpliedTier(Collect(rs).value))
    ensures FirstOffending(rs, declared).Some?
  {
    var caps := Collect(rs).value;
    var c :| c in caps && MinTier(c) == ImpliedTier(caps);
    var i :| 0 <= i < |caps| && caps[i] == c;
    assert Offends(rs[i], declared);
  }

  // ── Validation ─────────────────────────────────────────────────────────────

  predicate RuntimeMismatch(runtime: Runtime, t: Tier) {
    if runtime.Wasm? then Rank(t) >= Rank(Privileged) else Rank(t) <= Rank(Networked)
  }

  datatype TierVerdict = TierVerdict(implied: Tier, effective: Tier, capabilities: seq<CapabilityKind>)

  datatype TierError = BadEntry(e: ValidationError) | BelowImplied(implied: Tier, entry: nat) | WrongRuntime(effective: Tier)

  /** Rules 3 to 7, on the parsed entries. */
  function CheckTiers(rs: seq<Parsed>, declared: Tier, runtime: Runtime): (r: Result<TierVerdict, TierError>)
    ensures r.Err? && r.error.BelowImplied? ==> r.error.entry < |rs| && Offends(rs[r.error.entry], declared)
    ensures r.Ok? ==>
              && (forall c | c in r.value.capabilities :: Rank(MinTier(c)) <= Rank(r.value.implied))
              && Rank(r.value.implied) <= Rank(r.value.effective)
              && r.value.effective == declared
              && !RuntimeMismatch(runtime, r.value.effective)
  {
    match Collect(rs)
    case Err(e) => Err(BadEntry(e))
    case Ok(caps) =>
      var implied := ImpliedTier(caps);
      if Rank(declared) < Rank(implied) then
        OffendingExists(rs, declared);
        Err(BelowImplied(implied, FirstOffending(rs, declared).value))
      else
        var effective := Higher(declared, implied);
        if RuntimeMismatch(runtime, effective) then Err(WrongRuntime(effective))
        else Ok(TierVerdict(implied, effective, caps))
  }

  function Verdict(m: RawManifest, id: PluginIds.PluginId, declared: Tier, r: Result<TierVerdict, TierError>)
    : Result<ValidatedManifest, ValidationError>
    requires r.Err? && r.error.BelowImplied? ==> r.error.entry < |m.entries|
  {
    match r
    case Ok(v) => Ok(ValidatedManifest(id, declared, v.implied, v.effective, m.runtime, v.capabilities))
    case Err(BadEntry(e)) => Err(e)
    case Err(BelowImplied(implied, entry)) => Err(TierBelowCapability(declared, implied, m.entries[entry].0))
    case Err(WrongRuntime(effective)) => Err(RuntimeTierMismatch(m.runtime, effective))
  }

  type ParsedId = Result<PluginIds.PluginId, PluginIds.IdError>

  function ValidateParsed(m: RawManifest, parsed: ParsedId, rs: seq<Parsed>): Result<ValidatedManifest, ValidationError>
    requires |rs| == |m.entries|
  {
    if !(1 <= m.tier <= 5) then Err(InvalidTier(m.tier))
    else match parsed
      case Err(e) => Err(InvalidPluginId(e))
      case Ok(id) => Verdict(m, id, TierOf(m.tier), CheckTiers(rs, TierOf(m.tier), m.runtime))
  }

  /** The meaning of `validate`. */
  function Validate(m: RawManifest): Result<ValidatedManifest, ValidationError> {
    ValidateParsed(m, PluginIds.Parse(m.id), ParseEach(m.entries))
  }

  /** What every validated manifest guarantees. */
  predicate Sound(v: ValidatedManifest) {
    && (forall c | c in v.capabilities :: Rank(MinTier(c)) <= Rank(v.implied))
    && Rank(v.implied) <= Rank(v.effective)
    && v.effective == v.declared
    && (v.runtime.Wasm? <==> Rank(v.effective) <= Rank(Networked))
  }

  lemma {:induction false} ParsedSound(m: RawManifest, parsed: ParsedId, rs: seq<Parsed>)
    requires |rs| == |m.entries|
    ensures ValidateParsed(m, parsed, rs).Ok? ==>
              Sound(ValidateParsed(m, parsed, rs).value) && parsed == Ok(ValidateParsed(m, parsed, rs).value.pluginId)
  {
  }

  lemma {:induction false} ValidateSound(m: RawManifest)
    requires Validate(m).Ok?
    ensures Sound(Validate(m).value) && PluginIds.ValidId(Validate(m).value.pluginId)
  {
    var parsed := PluginIds.Parse(m.id);
    if parsed.Ok? { PluginIds.ShowParse(m.id); }
    ParsedSound(m, parsed, ParseEach(m.entries));
  }

  lemma {:induction false} CollectAccepts(rs: seq<Parsed>)
    ensures Collect(rs).Ok? <==> forall i | 0 <= i < |rs| :: rs[i].Ok?
  {
    if rs != [] {
      CollectAccepts(rs[..|rs| - 1]);
    }
  }

  predicate Acceptable(r: Parsed, declared: Tier) { r.Ok? && !Offends(r, declared) }

  lemma {:induction false} AllAcceptable(rs: seq<Parsed>, declared: Tier)
    ensures (forall i | 0 <= i < |rs| :: Acceptable(rs[i], declared)) <==>
            Collect(rs).Ok? && Rank(ImpliedTier(Collect(rs).value)) <= Rank(declared)
  {
    CollectAccepts(rs);
    if Collect(rs).Ok? {
      var caps := Collect(rs).value;
      if Rank(declared) < Rank(ImpliedTier(caps)) {
        OffendingExists(rs, declared);
        assert !Acceptable(rs[FirstOffending(rs, declared).value], declared);
      } else {
        forall i | 0 <= i < |rs| ensures Acceptable(rs[i], declared) { assert caps[i] in caps; }
      }
    } else {
      var i :| 0 <= i < |rs| && !rs[i].Ok?;
      assert !Acceptable(rs[i], declared);
    }
  }

  lemma {:induction false} CheckTiersAccepts(rs: seq<Parsed>, declared: Tier, runtime: Runtime)
    ensures CheckTiers(rs, declared, runtime).Ok? <==>
            (forall i | 0 <= i < |rs| :: Acceptable(rs[i], declared)) && !RuntimeMismatch(runtime, declared)
  {
    AllAcceptable(rs, declared);
  }

  predicate Accepts(m: RawManifest, parsed: ParsedId, rs: seq<Parsed>) {
    && 1 <= m.tier <= 5
    && parsed.Ok?
    && (forall i | 0 <= i < |rs| :: Acceptable(rs[i], TierOf(m.tier)))
    && (m.runtime.Wasm? <==> m.tier <= 3)
  }

  lemma {:induction false} ParsedAccepts(m: RawManifest, parsed: ParsedId, rs: seq<Parsed>)
    requires |rs| == |m.entries|
    ensures ValidateParsed(m, parsed, rs).Ok? <==> Accepts(m, parsed, rs)
  {
    if 1 <= m.tier <= 5 {
      var declared := TierOf(m.tier);
      CheckTiersAccepts(rs, declared, m.runtime);
      assert Rank(declared) == m.tier;
    }
  }

  /** A manifest is accepted exactly when its tier is in range, its id and every
      capability entry parse, no capability needs more than the declared tier,
      and the runtime is the one that tier runs under. */
  lemma {:induction false} ValidateAccepts(m: RawManifest)
    ensures Validate(m).Ok? <==> Accepts(m, PluginIds.Parse(m.id), ParseEach(m.entries))
  {
    ParsedAccepts(m, PluginIds.Parse(m.id), ParseEach(m.entries));
  }

  lemma {:induction false} CollectError(rs: seq<Parsed>, i: nat)
    requires i < |rs| && Collect(rs[..i]).Ok? && rs[i].Err?
    ensures Collect(rs) == Err(rs[i].error)
  {
    if i == |rs| - 1 {
    } else {
      var init := rs[..|rs| - 1];
      assert init[..i] == rs[..i];
      CollectError(init, i);
    }
  }

  method CollectLoop(rs: seq<Parsed>) returns (r: Result<seq<CapabilityKind>, ValidationError>)
    ensures r == Collect(rs)
  {
    var capabilities: seq<CapabilityKind> := [];
    for i := 0 to |rs|
      invariant Collect(rs[..i]) == Ok(capabilities)
    {
      if rs[i].Err? {
        CollectError(rs, i);
        return Err(rs[i].error);
      }
      assert rs[..i + 1][..i] == rs[..i];
      capabilities := capabilities + [rs[i].value];
    }
    assert rs[..|rs|] == rs;
    return Ok(capabilities);
  }

  method ImpliedLoop(capabilities: seq<CapabilityKind>) returns (implied: Tier)
    ensures implied == ImpliedTier(capabilities)
  {
    implied := Pure;
    for i := 0 to |capabilities|
      invariant implied == ImpliedTier(capabilities[..i])
    {
      assert capabilities[..i + 1][..i] == capabilities[..i];
      implied := Higher(implied, MinTier(capabilities[i]));
    }
    assert capabilities[..|capabilities|] == capabilities;
  }

  method FindOffending(rs: seq<Parsed>, declared: Tier) returns (k: nat)
    requires FirstOffending(rs, declared).Some?
    ensures k == FirstOffending(rs, declared).value
  {
    k := 0;
    ghost var stop := FirstOffending(rs, declared).value;
    while !Offends(rs[k], declared)
      invariant k <= stop
      decreases stop - k
    {
      k := k + 1;
    }
  }

  /** `validate`'s own order of work: the parsing loop, the implied-tier scan
      and the search whose `expect` must find an entry. */
  method CheckTiersLoop(rs: seq<Parsed>, declared: Tier, runtime: Runtime) returns (r: Result<TierVerdict, TierError>)
    ensures r == CheckTiers(rs, declared, runtime)
  {
    var parsed := CollectLoop(rs);
    if parsed.Err? {
      return Err(BadEntry(parsed.error));
    }
    var implied := ImpliedLoop(parsed.value);
    if Rank(declared) < Rank(implied) {
      OffendingExists(rs, declared);
      var k := FindOffending(rs, declared);
      return Err(BelowImplied(implied, k));
    }
    var effective := Higher(declared, implied);
    if RuntimeMismatch(runtime, effective) {
      return Err(WrongRuntime(effective));
    }
    return Ok(TierVerdict(implied, effective, parsed.value));
  }
}
