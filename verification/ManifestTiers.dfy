/** Which tier each capability entry needs, and exactly what `validate` answers
    (crates/entangle-manifest/src/validate.rs, crates/entangle-types/src/capability.rs). */
module ManifestTiers {
  import opened Common
  import opened Capability
  import opened Manifest
  import PluginIds

  /** The entry's table has no such field. */
  predicate Absent(args: Toml, field: string) { !args.TomlTable? || field !in args.fields }

  /** The entry's table has this field with this text. */
  predicate Says(args: Toml, field: string, text: string) { !Absent(args, field) && args.fields[field] == TomlString(text) }

  /** An entry that a manifest of tier `n` may carry: the tier table by key. */
  predicate EntryFits(key: string, args: Toml, n: nat) {
    if key == "storage.local" then Absent(args, "scope") || Says(args, "scope", "plugin") || (Says(args, "scope", "shared") && n >= 2)
    else if "storage.share." <= key then
      (Absent(args, "mode") || Says(args, "mode", "ro") || Says(args, "mode", "rw") || Says(args, "mode", "rw-scoped")) && n >= 4
    else
      || (key == "compute.cpu" && n >= 2)
      || (key == "compute.gpu" && n >= 3)
      || (key == "compute.npu" && n >= 3)
      || (key == "net.lan" && n >= 3)
      || (key == "net.wan" && n >= 3)
      || (key == "mesh.peer" && n >= 4)
      || (key == "agent.invoke" && n >= 2)
      || (key == "host.docker-socket" && n >= 5)
      || "custom." <= key
  }

  /** Tier numbers are 1 to 5, in order. */
  lemma RankOf(n: nat)
    requires 1 <= n <= 5
    ensures Rank(TierOf(n)) == n
  {
  }

  /** A few characters tell the keys apart. */
  lemma KeyShapes(key: string)
    ensures key == "compute.cpu" ==> |key| == 11 && key[0] == 'c' && key[1] == 'o' && key[8] == 'c'
    ensures key == "compute.gpu" ==> |key| == 11 && key[0] == 'c' && key[1] == 'o' && key[8] == 'g'
    ensures key == "compute.npu" ==> |key| == 11 && key[0] == 'c' && key[1] == 'o' && key[8] == 'n'
    ensures key == "storage.local" ==> |key| == 13 && key[0] == 's'
    ensures key == "net.lan" ==> |key| == 7 && key[0] == 'n' && key[4] == 'l'
    ensures key == "net.wan" ==> |key| == 7 && key[0] == 'n' && key[4] == 'w'
    ensures key == "mesh.peer" ==> |key| == 9 && key[0] == 'm'
    ensures key == "agent.invoke" ==> |key| == 12 && key[0] == 'a'
    ensures key == "host.docker-socket" ==> |key| == 18 && key[0] == 'h'
    ensures "storage.share." <= key ==> |key| >= 14 && key[0] == 's'
    ensures "custom." <= key ==> |key| >= 7 && key[0] == 'c' && key[1] == 'u'
  {
    if "storage.share." <= key { assert key[0] == "storage.share."[0]; }
    if "custom." <= key { assert key[0] == "custom."[0] && key[1] == "custom."[1]; }
  }

  lemma FieldTexts(text: string)
    ensures text == "plugin" ==> text[0] == 'p'
    ensures text == "shared" ==> text[0] == 's'
    ensures text == "ro" ==> |text| == 2 && text[1] == 'o'
    ensures text == "rw" ==> |text| == 2 && text[1] == 'w'
    ensures text == "rw-scoped" ==> |text| == 9
  {
  }

  lemma ScopeEntry(key: string, args: Toml, r: Parsed)
    ensures ParseScope(key, args) == r <==>
              if Absent(args, "scope") || Says(args, "scope", "plugin") then r == Ok(StorageLocal(PluginScope))
              else if Says(args, "scope", "shared") then r == Ok(StorageLocal(SharedScope))
              else r == Err(CapabilityArgs(key))
  {
    if !Absent(args, "scope") && args.fields["scope"].TomlString? { FieldTexts(args.fields["scope"].text); }
  }

  lemma ShareEntry(key: string, name: string, args: Toml, r: Parsed)
    ensures ParseShare(key, name, args) == r <==>
              if Absent(args, "mode") || Says(args, "mode", "ro") then r == Ok(StorageShare(name, Ro))
              else if Says(args, "mode", "rw") then r == Ok(StorageShare(name, Rw))
              else if Says(args, "mode", "rw-scoped") then r == Ok(StorageShare(name, RwScoped))
              else r == Err(CapabilityArgs(key))
  {
    if !Absent(args, "mode") && args.fields["mode"].TomlString? { FieldTexts(args.fields["mode"].text); }
  }

  /** The least tier number a capability may be granted at. */
  lemma CapabilityTiers(c: CapabilityKind)
    ensures c.ComputeCpu? || c.AgentInvoke? || c == StorageLocal(SharedScope) ==> Rank(MinTier(c)) == 2
    ensures c.ComputeGpu? || c.ComputeNpu? || c.NetLan? || c.NetWan? ==> Rank(MinTier(c)) == 3
    ensures c.MeshPeer? || c.StorageShare? ==> Rank(MinTier(c)) == 4
    ensures c.HostDockerSocket? ==> Rank(MinTier(c)) == 5
    ensures c.Custom? || c == StorageLocal(PluginScope) ==> Rank(MinTier(c)) == 1
  {
  }

  lemma OtherEntry(key: string, args: Toml, n: nat)
    requires 1 <= n <= 5 && key != "storage.local" && !("storage.share." <= key)
    ensures Acceptable(ParseCapability(key, args), TierOf(n)) <==> EntryFits(key, args, n)
  {
    RankOf(n);
    KeyShapes(key);
    var r := ParseCapability(key, args);
    if r.Ok? { CapabilityTiers(r.value); }
  }

  /** An entry is accepted at tier `n` exactly when the table says so. */
  lemma EntryAcceptable(key: string, args: Toml, n: nat)
    requires 1 <= n <= 5
    ensures Acceptable(ParseCapability(key, args), TierOf(n)) <==> EntryFits(key, args, n)
  {
    if key == "storage.local" {
      RankOf(n);
      KeyShapes(key);
      ScopeEntry(key, args, ParseScope(key, args));
      assert ParseCapability(key, args) == ParseScope(key, args);
    } else if "storage.share." <= key {
      RankOf(n);
      KeyShapes(key);
      ShareEntry(key, key[14..], args, ParseShare(key, key[14..], args));
      assert ParseCapability(key, args) == ParseShare(key, key[14..], args);
    } else {
      OtherEntry(key, args, n);
    }
  }

  // ── Which capability an entry becomes ──────────────────────────────────────

  predicate Plain(c: CapabilityKind) { !(c.StorageLocal? || c.StorageShare? || c.Custom?) }

  /** A capability without arguments is declared by its audit name and nothing else. */
  lemma PlainKey(key: string, args: Toml, c: CapabilityKind)
    requires Plain(c)
    ensures ParseCapability(key, args) == Ok(c) <==> key == FormatCap(c)
  {
    KeyShapes(key);
    if key == "storage.local" {
      ScopeEntry(key, args, ParseScope(key, args));
    } else if "storage.share." <= key {
      ShareEntry(key, key[14..], args, ParseShare(key, key[14..], args));
    }
  }

  lemma StorageKey(key: string, args: Toml, c: CapabilityKind)
    requires !Plain(c)
    ensures ParseCapability(key, args) == Ok(c) <==>
              match c
              case StorageLocal(PluginScope) => key == "storage.local" && (Absent(args, "scope") || Says(args, "scope", "plugin"))
              case StorageLocal(SharedScope) => key == "storage.local" && Says(args, "scope", "shared")
              case StorageShare(name, Ro) => key == "storage.share." + name && (Absent(args, "mode") || Says(args, "mode", "ro"))
              case StorageShare(name, Rw) => key == "storage.share." + name && Says(args, "mode", "rw")
              case StorageShare(name, RwScoped) => key == "storage.share." + name && Says(args, "mode", "rw-scoped")
              case Custom(text) => text == key && "custom." <= key
              case _ => false
  {
    KeyShapes(key);
    if key == "storage.local" { ScopeEntry(key, args, ParseScope(key, args)); }
    if "storage.share." <= key {
      ShareEntry(key, key[14..], args, ParseShare(key, key[14..], args));
      assert key == "storage.share." + key[14..];
    }
    if c.StorageShare? && key == "storage.share." + c.name { assert key[14..] == c.name; }
  }

  /** What an entry is called in the audit log and in a token: its key, with the
      scope or mode it resolved to; custom keys get the prefix once more. */
  lemma AuditName(key: string, args: Toml)
    requires ParseCapability(key, args).Ok?
    ensures var c := ParseCapability(key, args).value;
            FormatCap(c)
            == if key == "storage.local" then key + (if Says(args, "scope", "shared") then "[Shared]" else "[Plugin]")
               else if "storage.share." <= key
               then key + (if Says(args, "mode", "rw") then "[Rw]" else if Says(args, "mode", "rw-scoped") then "[RwScoped]" else "[Ro]")
               else if "custom." <= key then "custom." + key
               else key
  {
    var c := ParseCapability(key, args).value;
    KeyShapes(key);
    if key == "storage.local" {
      ScopeEntry(key, args, ParseScope(key, args));
      if Says(args, "scope", "shared") { FieldTexts("shared"); }
    } else if "storage.share." <= key {
      ShareEntry(key, key[14..], args, ParseShare(key, key[14..], args));
      assert key == "storage.share." + key[14..];
      if !Absent(args, "mode") && args.fields["mode"].TomlString? { FieldTexts(args.fields["mode"].text); }
    } else if Plain(c) {
      PlainKey(key, args, c);
    }
  }

  /** An entry is unreadable exactly when no tier allows it; a storage key with
      a wrong argument and an unknown key are told apart. */
  lemma UnreadableEntry(key: string, args: Toml)
    ensures ParseCapability(key, args).Err? <==> !EntryFits(key, args, 5)
    ensures ParseCapability(key, args).Err? ==>
              ParseCapability(key, args).error
              == if key == "storage.local" || "storage.share." <= key then CapabilityArgs(key) else UnknownCapability(key)
  {
    EntryAcceptable(key, args, 5);
    KeyShapes(key);
    if key == "storage.local" {
      ScopeEntry(key, args, ParseScope(key, args));
    } else if "storage.share." <= key {
      ShareEntry(key, key[14..], args, ParseShare(key, key[14..], args));
    }
  }

  // ── What `validate` answers ────────────────────────────────────────────────

  predicate AllFit(entries: seq<(string, Toml)>, n: nat) {
    forall i | 0 <= i < |entries| :: EntryFits(entries[i].0, entries[i].1, n)
  }

  lemma AllAcceptableFit(entries: seq<(string, Toml)>, n: nat)
    requires 1 <= n <= 5
    ensures (forall i | 0 <= i < |entries| :: Acceptable(ParseEach(entries)[i], TierOf(n))) <==> AllFit(entries, n)
  {
    forall i | 0 <= i < |entries| ensures Acceptable(ParseEach(entries)[i], TierOf(n)) <==> EntryFits(entries[i].0, entries[i].1, n) {
      EntryAcceptable(entries[i].0, entries[i].1, n);
    }
  }

  /** A manifest is accepted exactly when its tier number is 1 to 5, its id
      parses, wasm is asked for at tiers 1 to 3 and native above, and the table
      allows every entry at that tier. */
  lemma {:induction false} AcceptedExactly(m: RawManifest)
    ensures Validate(m).Ok? <==>
              && 1 <= m.tier <= 5 && PluginIds.Parse(m.id).Ok? && (m.runtime.Wasm? <==> m.tier <= 3)
              && AllFit(m.entries, m.tier)
  {
    ValidateAccepts(m);
    if 1 <= m.tier <= 5 { AllAcceptableFit(m.entries, m.tier); }
  }

  /** A manifest with one entry, key by key. */
  lemma {:induction false} OneEntry(m: RawManifest, key: string, args: Toml)
    requires m.entries == [(key, args)] && 1 <= m.tier <= 5 && PluginIds.Parse(m.id).Ok? && (m.runtime.Wasm? <==> m.tier <= 3)
    ensures key == "compute.cpu" || key == "agent.invoke" ==> (Validate(m).Ok? <==> m.tier >= 2)
    ensures key == "compute.gpu" || key == "compute.npu" ==> (Validate(m).Ok? <==> m.tier >= 3)
    ensures key == "net.lan" || key == "net.wan" ==> (Validate(m).Ok? <==> m.tier >= 3)
    ensures key == "mesh.peer" ==> (Validate(m).Ok? <==> m.tier >= 4)
    ensures key == "host.docker-socket" ==> (Validate(m).Ok? <==> m.tier == 5)
    ensures "custom." <= key ==> Validate(m).Ok?
  {
    AcceptedExactly(m);
    KeyShapes(key);
    assert AllFit(m.entries, m.tier) <==> EntryFits(m.entries[0].0, m.entries[0].1, m.tier);
  }

  /** The implied tier is the least one that allows every entry. */
  predicate LeastFitting(entries: seq<(string, Toml)>, implied: Tier) {
    forall n | 1 <= n <= 5 :: Rank(implied) <= n <==> AllFit(entries, n)
  }

  lemma {:induction false} ImpliedIsLeast(entries: seq<(string, Toml)>)
    requires Collect(ParseEach(entries)).Ok?
    ensures LeastFitting(entries, ImpliedTier(Collect(ParseEach(entries)).value))
  {
    forall n | 1 <= n <= 5
      ensures Rank(ImpliedTier(Collect(ParseEach(entries)).value)) <= n <==> AllFit(entries, n)
    {
      RankOf(n);
      AllAcceptable(ParseEach(entries), TierOf(n));
      AllAcceptableFit(entries, n);
    }
  }

  /** An accepted manifest keeps its id, tier and runtime, and has one
      capability for each entry, in order. */
  lemma {:induction false} AcceptedAs(m: RawManifest)
    requires Validate(m).Ok?
    ensures var v := Validate(m).value;
            && PluginIds.Parse(m.id) == Ok(v.pluginId) && v.runtime == m.runtime
            && Rank(v.declared) == Rank(v.effective) == m.tier && LeastFitting(m.entries, v.implied)
            && |v.capabilities| == |m.entries|
            && forall i | 0 <= i < |m.entries| :: ParseCapability(m.entries[i].0, m.entries[i].1) == Ok(v.capabilities[i])
  {
    ValidateSound(m);
    RankOf(m.tier);
    ImpliedIsLeast(m.entries);
    var rs := ParseEach(m.entries);
    assert forall i | 0 <= i < |rs| :: rs[i] == ParseCapability(m.entries[i].0, m.entries[i].1);
  }

  /** Entry `k` is the first that does not parse. */
  predicate FirstBad(entries: seq<(string, Toml)>, k: nat) {
    && k < |entries| && ParseCapability(entries[k].0, entries[k].1).Err?
    && forall i | 0 <= i < k :: ParseCapability(entries[i].0, entries[i].1).Ok?
  }

  /** Entry `k` is the first that the declared tier does not allow. */
  predicate FirstTooHigh(entries: seq<(string, Toml)>, n: nat, k: nat) {
    && k < |entries| && !EntryFits(entries[k].0, entries[k].1, n)
    && forall i | 0 <= i < k :: EntryFits(entries[i].0, entries[i].1, n)
  }

  /** Which error comes first: the tier's range, the id, the first entry that
      does not parse, the first that needs a higher tier, the runtime. */
  lemma {:induction false} RefusedBecause(m: RawManifest)
    ensures !(1 <= m.tier <= 5) ==> Validate(m) == Err(InvalidTier(m.tier))
    ensures 1 <= m.tier <= 5 && PluginIds.Parse(m.id).Err? ==> Validate(m) == Err(InvalidPluginId(PluginIds.Parse(m.id).error))
  {
  }

  lemma {:induction false} RefusedEntry(m: RawManifest, k: nat)
    requires 1 <= m.tier <= 5 && PluginIds.Parse(m.id).Ok? && FirstBad(m.entries, k)
    ensures Validate(m) == Err(ParseCapability(m.entries[k].0, m.entries[k].1).error)
  {
    var rs := ParseEach(m.entries);
    CollectAccepts(rs[..k]);
    CollectError(rs, k);
  }

  lemma {:induction false} CheckOffence(rs: seq<Parsed>, declared: Tier, runtime: Runtime, k: nat)
    requires Collect(rs).Ok? && k < |rs| && Offends(rs[k], declared) && forall i | 0 <= i < k :: !Offends(rs[i], declared)
    ensures CheckTiers(rs, declared, runtime) == Err(BelowImplied(ImpliedTier(Collect(rs).value), k))
  {
    assert Collect(rs).value[k] in Collect(rs).value;
  }

  lemma {:induction false} OffenceRefused(m: RawManifest, parsed: ParsedId, rs: seq<Parsed>, k: nat)
    requires |rs| == |m.entries| && 1 <= m.tier <= 5 && parsed.Ok? && k < |rs| && Offends(rs[k], TierOf(m.tier))
    requires Collect(rs).Ok? && forall i | 0 <= i < k :: !Offends(rs[i], TierOf(m.tier))
    ensures ValidateParsed(m, parsed, rs)
         == Err(TierBelowCapability(TierOf(m.tier), ImpliedTier(Collect(rs).value), m.entries[k].0))
  {
    CheckOffence(rs, TierOf(m.tier), m.runtime, k);
  }

  lemma {:induction false} RefusedTier(m: RawManifest, k: nat)
    requires 1 <= m.tier <= 5 && PluginIds.Parse(m.id).Ok? && FirstTooHigh(m.entries, m.tier, k)
    requires forall i | 0 <= i < |m.entries| :: ParseCapability(m.entries[i].0, m.entries[i].1).Ok?
    ensures Validate(m).Err? && Validate(m).error.TierBelowCapability?
    ensures var e := Validate(m).error; Rank(e.declared) == m.tier && LeastFitting(m.entries, e.implied) && e.key == m.entries[k].0
  {
    var rs := ParseEach(m.entries);
    forall i | 0 <= i <= k
      ensures rs[i] == ParseCapability(m.entries[i].0, m.entries[i].1)
      ensures Offends(rs[i], TierOf(m.tier)) <==> i == k
    {
      EntryAcceptable(m.entries[i].0, m.entries[i].1, m.tier);
    }
    CollectAccepts(rs);
    OffenceRefused(m, PluginIds.Parse(m.id), rs, k);
    ImpliedIsLeast(m.entries);
    RankOf(m.tier);
  }

  lemma {:induction false} CheckRuntime(rs: seq<Parsed>, declared: Tier, runtime: Runtime)
    requires Collect(rs).Ok? && Rank(ImpliedTier(Collect(rs).value)) <= Rank(declared) && RuntimeMismatch(runtime, declared)
    ensures CheckTiers(rs, declared, runtime) == Err(WrongRuntime(declared))
  {
  }

  lemma {:induction false} RuntimeRefused(m: RawManifest, parsed: ParsedId, rs: seq<Parsed>)
    requires |rs| == |m.entries| && 1 <= m.tier <= 5 && parsed.Ok? && RuntimeMismatch(m.runtime, TierOf(m.tier))
    requires Collect(rs).Ok? && Rank(ImpliedTier(Collect(rs).value)) <= Rank(TierOf(m.tier))
    ensures ValidateParsed(m, parsed, rs) == Err(RuntimeTierMismatch(m.runtime, TierOf(m.tier)))
  {
    CheckRuntime(rs, TierOf(m.tier), m.runtime);
  }

  lemma {:induction false} FittingEntries(entries: seq<(string, Toml)>, n: nat)
    requires 1 <= n <= 5 && AllFit(entries, n)
    ensures Collect(ParseEach(entries)).Ok? && Rank(ImpliedTier(Collect(ParseEach(entries)).value)) <= Rank(TierOf(n))
  {
    AllAcceptableFit(entries, n);
    AllAcceptable(ParseEach(entries), TierOf(n));
  }

  lemma MismatchAt(runtime: Runtime, n: nat)
    requires 1 <= n <= 5
    ensures RuntimeMismatch(runtime, TierOf(n)) <==> !(runtime.Wasm? <==> n <= 3)
  {
  }

  lemma {:induction false} RefusedRuntime(m: RawManifest)
    requires 1 <= m.tier <= 5 && PluginIds.Parse(m.id).Ok? && AllFit(m.entries, m.tier) && !(m.runtime.Wasm? <==> m.tier <= 3)
    ensures Validate(m) == Err(RuntimeTierMismatch(m.runtime, TierOf(m.tier)))
  {
    FittingEntries(m.entries, m.tier);
    MismatchAt(m.runtime, m.tier);
    RuntimeRefused(m, PluginIds.Parse(m.id), ParseEach(m.entries));
  }
}
