/** What every run of the broker keeps: the deny-by-default and tier guarantees,
    the life of each grant id, and the agreement of the audit history with it. */
module BrokerSafety {
  import opened Common
  import opened Capability
  import opened Manifest
  import opened Audit
  import opened Broker

  // ── Registry: declared capabilities and tiers ──────────────────────────────

  predicate RecordOk(sh: Shared, p: PluginId)
    requires p in sh.plugins
  {
    var r := sh.plugins[p];
    && r.manifest.pluginId == p
    && Sound(r.manifest)
    && Rank(r.manifest.effective) <= Rank(sh.ceiling)
    && forall g | g in r.grants :: r.grants[g] in r.manifest.capabilities
  }

  /** What the shared lock protects: the decision stays true until it is used. */
  predicate CallOk(sh: Shared, c: Call) {
    && (c.Registering? ==> Sound(c.m))
    && (c.Deciding? || c.Numbered? ==> Declared(sh, c.p, c.c))
    && (c.ReleaseLocked? ==> c.p in sh.plugins)
  }

  predicate RegistryInv(s: State) {
    && s.sh.log.maxEvents >= 1
    && (forall p | p in s.sh.plugins :: RecordOk(s.sh, p))
    && (forall t | t in s.calls :: CallOk(s.sh, s.calls[t]))
  }

  /** Only thread `t` moved, and the registry did not change. */
  ghost predicate OnlyCall(s: State, t: Tid, s': State) {
    && s'.sh.plugins == s.sh.plugins && s'.sh.ceiling == s.sh.ceiling
    && s'.sh.log.maxEvents == s.sh.log.maxEvents
    && forall u | u != t :: SameCall(s, u, s')
  }

  predicate SameCall(s: State, u: Tid, s': State) {
    (u in s.calls <==> u in s'.calls) && (u in s.calls ==> s.calls[u] == s'.calls[u])
  }

  /** The call holds no grant between a table and its release record. */
  predicate CarriesNone(c: Call) {
    !c.Numbered? && !c.ReleaseAudit? && (c.ReleasingAll? ==> c.pending == map[])
  }

  /** The actions that touch neither the registry nor the ids. */
  predicate Quiet(s: State, a: Action)
    requires Enabled(s, a)
  {
    if a.Step? then
      match s.calls[a.t]
      case Registering(m) => AboveCeiling(s.sh, m) || m.pluginId in s.sh.plugins
      case Unregistering(p) => p !in s.sh.plugins
      case ReleaseLocked(p, g) => p !in s.sh.plugins || g !in s.sh.plugins[p].grants
      case Deciding(_, _) => false
      case Numbered(p, _, _) => p !in s.sh.plugins
      case ReleaseAudit(_, _, _) => false
      case _ => true
    else !a.AuditPending?
  }

  lemma QuietMemory(s: State, a: Action)
    requires Enabled(s, a) && Quiet(s, a)
    ensures var s' := Apply(s, a);
            && OnlyCall(s, a.t, s')
            && s'.ledger == s.ledger && s'.issued == s.issued && s'.sh.nextGrantId == s.sh.nextGrantId
  {
    LogKept(s, a);
  }

  lemma QuietCall(s: State, a: Action)
    requires RegistryInv(s) && Enabled(s, a) && Quiet(s, a)
    ensures var s' := Apply(s, a);
            && (a.t in s.calls ==> CarriesNone(s.calls[a.t]))
            && (a.t in s'.calls ==> CarriesNone(s'.calls[a.t]) && !s'.calls[a.t].GrantAudit? && CallOk(s.sh, s'.calls[a.t]))
  {
    assert a.t in s.calls ==> CallOk(s.sh, s.calls[a.t]);
  }

  lemma RegistryQuiet(s: State, t: Tid, s': State)
    requires RegistryInv(s) && OnlyCall(s, t, s') && (t in s'.calls ==> CallOk(s.sh, s'.calls[t]))
    ensures RegistryInv(s')
  {
    forall p | p in s'.sh.plugins ensures RecordOk(s'.sh, p) { assert RecordOk(s.sh, p); }
    forall u | u in s'.calls ensures CallOk(s'.sh, s'.calls[u]) {
      if u != t {
        assert SameCall(s, u, s');
        assert CallOk(s.sh, s.calls[u]);
      }
    }
  }

  lemma RegistryRegister(s: State, t: Tid, m: ValidatedManifest)
    requires RegistryInv(s) && Sound(m) && !AboveCeiling(s.sh, m) && m.pluginId !in s.sh.plugins
    ensures RegistryInv(StepRegister(s, t, m))
  {
    var s' := StepRegister(s, t, m);
    forall p | p in s'.sh.plugins ensures RecordOk(s'.sh, p) {
      if p != m.pluginId { assert RecordOk(s.sh, p); }
    }
    forall u | u in s'.calls ensures CallOk(s'.sh, s'.calls[u]) {
      if u != t { assert CallOk(s.sh, s.calls[u]); }
    }
  }

  /** Exclusive removal is safe because no decision is pending. */
  lemma RegistryUnregister(s: State, t: Tid, p: PluginId)
    requires RegistryInv(s) && NoReaders(s) && p in s.sh.plugins
    ensures RegistryInv(StepUnregister(s, t, p))
  {
    var s' := StepUnregister(s, t, p);
    forall q | q in s'.sh.plugins ensures RecordOk(s'.sh, q) { assert RecordOk(s.sh, q); }
    forall u | u in s'.calls ensures CallOk(s'.sh, s'.calls[u]) {
      if u != t { assert CallOk(s.sh, s.calls[u]); }
    }
  }

  lemma RegistrySetGrants(s: State, t: Tid, p: PluginId, grants: map<GrantId, CapabilityKind>, s': State)
    requires RegistryInv(s) && p in s.sh.plugins && s'.sh == SetGrants(s.sh, p, grants)
    requires forall g | g in grants :: grants[g] in s.sh.plugins[p].manifest.capabilities
    requires t in s'.calls && s'.calls == s.calls[t := s'.calls[t]]
    requires s'.calls[t].GrantAudit? || s'.calls[t].ReleaseAudit?
    ensures RegistryInv(s')
  {
    forall q | q in s'.sh.plugins ensures RecordOk(s'.sh, q) { assert RecordOk(s.sh, q); }
    forall u | u in s'.calls ensures CallOk(s'.sh, s'.calls[u]) {
      if u != t { assert CallOk(s.sh, s.calls[u]); }
    }
  }

  /** Every step keeps the registry invariant. */
  lemma RegistryStep(s: State, a: Action)
    requires RegistryInv(s) && Enabled(s, a)
    ensures RegistryInv(Apply(s, a))
  {
    var t := a.t;
    if Quiet(s, a) {
      QuietMemory(s, a);
      QuietCall(s, a);
      RegistryQuiet(s, t, Apply(s, a));
    } else if a.AuditPending? || s.calls[t].ReleaseAudit? || s.calls[t].Deciding? {
      RegistryAuditOrNumber(s, a);
    } else {
      assert CallOk(s.sh, s.calls[t]);
      match s.calls[t]
      case Registering(m) => RegistryRegister(s, t, m);
      case Unregistering(p) => RegistryUnregister(s, t, p);
      case Numbered(p, c, g) =>
        assert RecordOk(s.sh, p);
        RegistrySetGrants(s, t, p, s.sh.plugins[p].grants[g := c], StepInsert(s, t, p, c, g));
      case ReleaseLocked(p, g) =>
        assert RecordOk(s.sh, p);
        RegistrySetGrants(s, t, p, s.sh.plugins[p].grants - {g}, StepRelease(s, t, p, g));
    }
  }

  lemma RegistryAuditOrNumber(s: State, a: Action)
    requires RegistryInv(s) && Enabled(s, a)
    requires a.AuditPending? || (a.Step? && (s.calls[a.t].ReleaseAudit? || s.calls[a.t].Deciding?))
    ensures RegistryInv(Apply(s, a))
  {
    LogKept(s, a);
    assert CallOk(s.sh, s.calls[a.t]);
    RegistryQuiet(s, a.t, Apply(s, a));
  }

  /** A step records nothing, or one event at the end of log and history. */
  predicate Records(s: State, s': State, e: AuditEvent) {
    s.sh.log.maxEvents >= 1 && s'.sh.log == Record(s.sh.log, e) && s'.history == s.history + [e]
  }

  lemma LogKept(s: State, a: Action)
    requires Enabled(s, a)
    ensures var s' := Apply(s, a);
            && s'.sh.log.maxEvents == s.sh.log.maxEvents
            && ((s'.sh.log == s.sh.log && s'.history == s.history) || exists e :: Records(s, s', e))
  {
    var s' := Apply(s, a);
    if s'.history != s.history {
      var e := s'.history[|s.history|];
      assert Records(s, s', e);
      RecordKeepsMax(s.sh.log, e);
    }
  }

  // ── Ledger: the life of a grant id ─────────────────────────────────────────

  /** An issued id is in exactly the place the ledger names. */
  predicate PlaceOk(s: State, g: GrantId)
    requires g in s.ledger
  {
    var e := s.ledger[g];
    match e.place
    case Inserting(t) => t == e.granter && t in s.calls && s.calls[t] == Numbered(e.plugin, e.cap, g)
    case Outstanding => e.plugin in s.sh.plugins && g in s.sh.plugins[e.plugin].grants && s.sh.plugins[e.plugin].grants[g] == e.cap
    case Leaving(t) => t in s.calls && Carries(s.calls[t], e.plugin, e.cap, g)
    case Released => true
  }

  /** The call has taken the grant out of its table and not yet audited it. */
  predicate Carries(c: Call, p: PluginId, cap: CapabilityKind, g: GrantId) {
    || c == ReleaseAudit(p, cap, g)
    || (c.ReleasingAll? && c.p == p && g in c.pending && c.pending[g] == cap)
  }

  predicate Listed(s: State, g: GrantId, p: PluginId, cap: CapabilityKind, place: Place) {
    g in s.ledger && s.ledger[g].plugin == p && s.ledger[g].cap == cap && s.ledger[g].place == place
  }

  predicate CallListed(s: State, t: Tid, c: Call) {
    match c
    case Numbered(p, cap, g) => Listed(s, g, p, cap, Inserting(t)) && s.ledger[g].granter == t
    case GrantAudit(p, cap, g) => g in s.ledger && s.ledger[g].granter == t && s.ledger[g].plugin == p && s.ledger[g].cap == cap
    case ReleaseAudit(p, cap, g) => Listed(s, g, p, cap, Leaving(t))
    case ReleasingAll(p, pending) => forall g | g in pending :: Listed(s, g, p, pending[g], Leaving(t))
    case _ => true
  }

  predicate TableListed(s: State, p: PluginId)
    requires p in s.sh.plugins
  {
    forall g | g in s.sh.plugins[p].grants :: Listed(s, g, p, s.sh.plugins[p].grants[g], Outstanding)
  }

  ghost predicate LedgerInv(s: State) {
    && s.sh.nextGrantId == (s.issued + 1) % U64_LIMIT
    && (forall g :: g in s.ledger <==> 1 <= g <= s.issued)
    && (forall g | g in s.ledger :: PlaceOk(s, g))
    && (forall t | t in s.calls :: CallListed(s, t, s.calls[t]))
    && (forall p | p in s.sh.plugins :: TableListed(s, p))
  }

  lemma LedgerQuiet(s: State, t: Tid, s': State)
    requires LedgerInv(s) && OnlyCall(s, t, s')
    requires s'.ledger == s.ledger && s'.issued == s.issued && s'.sh.nextGrantId == s.sh.nextGrantId
    requires t in s.calls ==> CarriesNone(s.calls[t])
    requires t in s'.calls ==> CarriesNone(s'.calls[t]) && !s'.calls[t].GrantAudit?
    ensures LedgerInv(s')
  {
    forall g | g in s'.ledger ensures PlaceOk(s', g) {
      assert PlaceOk(s, g);
      assert forall u | u != t && u in s.calls :: SameCall(s, u, s');
    }
    forall u | u in s'.calls ensures CallListed(s', u, s'.calls[u]) {
      if u != t {
        assert SameCall(s, u, s');
        assert CallListed(s, u, s.calls[u]);
      }
    }
    forall p | p in s'.sh.plugins ensures TableListed(s', p) { assert TableListed(s, p); }
  }

  lemma LedgerRegister(s: State, t: Tid, m: ValidatedManifest)
    requires LedgerInv(s) && t in s.calls && s.calls[t].Registering?
    requires !AboveCeiling(s.sh, m) && m.pluginId !in s.sh.plugins
    ensures LedgerInv(StepRegister(s, t, m))
  {
    var s' := StepRegister(s, t, m);
    forall g | g in s'.ledger ensures PlaceOk(s', g) { assert PlaceOk(s, g); }
    forall u | u in s'.calls ensures CallListed(s', u, s'.calls[u]) {
      if u != t { assert CallListed(s, u, s.calls[u]); }
    }
    forall p | p in s'.sh.plugins ensures TableListed(s', p) {
      if p != m.pluginId { assert TableListed(s, p); }
    }
  }

  lemma LedgerUnregister(s: State, t: Tid, p: PluginId)
    requires LedgerInv(s) && t in s.calls && s.calls[t].Unregistering? && p in s.sh.plugins
    ensures LedgerInv(StepUnregister(s, t, p))
  {
    var s' := StepUnregister(s, t, p);
    assert TableListed(s, p);
    forall g | g in s'.ledger ensures PlaceOk(s', g) { assert PlaceOk(s, g); }
    forall u | u in s'.calls ensures CallListed(s', u, s'.calls[u]) {
      if u != t { assert CallListed(s, u, s.calls[u]); }
    }
    forall q | q in s'.sh.plugins ensures TableListed(s', q) { assert TableListed(s, q); }
  }

  lemma NumberedPlace(s: State, t: Tid, p: PluginId, c: CapabilityKind, g: GrantId)
    requires t in s.calls && s.calls[t].Deciding? && s.sh.nextGrantId !in s.ledger
    requires g in s.ledger ==> PlaceOk(s, g)
    ensures var s' := StepNumber(s, t, p, c); g in s'.ledger ==> PlaceOk(s', g)
  {
  }

  lemma NumberedCall(s: State, t: Tid, p: PluginId, c: CapabilityKind, u: Tid)
    requires t in s.calls && s.calls[t].Deciding? && s.sh.nextGrantId !in s.ledger
    requires u in s.calls && CallListed(s, u, s.calls[u])
    ensures var s' := StepNumber(s, t, p, c); u in s'.calls && CallListed(s', u, s'.calls[u])
  {
  }

  lemma LedgerNumber(s: State, t: Tid, p: PluginId, c: CapabilityKind)
    requires LedgerInv(s) && t in s.calls && s.calls[t].Deciding? && s.issued + 1 < U64_LIMIT
    ensures LedgerInv(StepNumber(s, t, p, c))
  {
    var s' := StepNumber(s, t, p, c);
    assert s.sh.nextGrantId == s.issued + 1;
    forall g | g in s'.ledger ensures PlaceOk(s', g) { NumberedPlace(s, t, p, c, g); }
    forall u | u in s'.calls ensures CallListed(s', u, s'.calls[u]) {
      assert CallListed(s, u, s.calls[u]);
      NumberedCall(s, t, p, c, u);
    }
    forall q | q in s'.sh.plugins ensures TableListed(s', q) { assert TableListed(s, q); }
  }

  lemma InsertedPlace(s: State, t: Tid, p: PluginId, c: CapabilityKind, g: GrantId, h: GrantId)
    requires t in s.calls && s.calls[t] == Numbered(p, c, g) && p in s.sh.plugins && CallListed(s, t, s.calls[t])
    requires h in s.ledger && PlaceOk(s, h)
    ensures h in StepInsert(s, t, p, c, g).ledger && PlaceOk(StepInsert(s, t, p, c, g), h)
  {
  }

  lemma InsertedTable(s: State, t: Tid, p: PluginId, c: CapabilityKind, g: GrantId, q: PluginId)
    requires t in s.calls && s.calls[t] == Numbered(p, c, g) && p in s.sh.plugins && CallListed(s, t, s.calls[t])
    requires q in s.sh.plugins && TableListed(s, q)
    ensures q in StepInsert(s, t, p, c, g).sh.plugins && TableListed(StepInsert(s, t, p, c, g), q)
  {
  }

  lemma LedgerInsert(s: State, t: Tid, p: PluginId, c: CapabilityKind, g: GrantId)
    requires LedgerInv(s) && t in s.calls && s.calls[t] == Numbered(p, c, g) && p in s.sh.plugins
    ensures LedgerInv(StepInsert(s, t, p, c, g))
  {
    var s' := StepInsert(s, t, p, c, g);
    assert CallListed(s, t, s.calls[t]);
    forall h | h in s'.ledger ensures PlaceOk(s', h) {
      assert PlaceOk(s, h);
      InsertedPlace(s, t, p, c, g, h);
    }
    forall u | u in s'.calls ensures CallListed(s', u, s'.calls[u]) {
      if u != t { assert CallListed(s, u, s.calls[u]); }
    }
    forall q | q in s'.sh.plugins ensures TableListed(s', q) {
      assert TableListed(s, q);
      InsertedTable(s, t, p, c, g, q);
    }
  }

  lemma DroppedPlace(s: State, t: Tid, p: PluginId, g: GrantId, h: GrantId)
    requires t in s.calls && s.calls[t].ReleaseLocked? && p in s.sh.plugins && g in s.sh.plugins[p].grants && TableListed(s, p)
    requires h in s.ledger && PlaceOk(s, h)
    ensures h in StepRelease(s, t, p, g).ledger && PlaceOk(StepRelease(s, t, p, g), h)
  {
  }

  lemma DroppedTable(s: State, t: Tid, p: PluginId, g: GrantId, q: PluginId)
    requires t in s.calls && p in s.sh.plugins && g in s.sh.plugins[p].grants && TableListed(s, p)
    requires q in s.sh.plugins && TableListed(s, q)
    ensures q in StepRelease(s, t, p, g).sh.plugins && TableListed(StepRelease(s, t, p, g), q)
  {
  }

  lemma DroppedCall(s: State, t: Tid, p: PluginId, g: GrantId, u: Tid)
    requires t in s.calls && p in s.sh.plugins && g in s.sh.plugins[p].grants && TableListed(s, p)
    requires u in s.calls && (u != t ==> CallListed(s, u, s.calls[u]))
    ensures var s' := StepRelease(s, t, p, g); u in s'.calls && CallListed(s', u, s'.calls[u])
  {
  }

  lemma LedgerRelease(s: State, t: Tid, p: PluginId, g: GrantId)
    requires LedgerInv(s) && t in s.calls && s.calls[t].ReleaseLocked? && p in s.sh.plugins && g in s.sh.plugins[p].grants
    ensures LedgerInv(StepRelease(s, t, p, g))
  {
    var s' := StepRelease(s, t, p, g);
    assert TableListed(s, p);
    forall h | h in s'.ledger ensures PlaceOk(s', h) {
      assert PlaceOk(s, h);
      DroppedPlace(s, t, p, g, h);
    }
    forall u | u in s'.calls ensures CallListed(s', u, s'.calls[u]) {
      assert CallListed(s, u, s.calls[u]);
      DroppedCall(s, t, p, g, u);
    }
    forall q | q in s'.sh.plugins ensures TableListed(s', q) {
      assert TableListed(s, q);
      DroppedTable(s, t, p, g, q);
    }
  }

  /** Only the place of `g` changes, and only `t` carried it. */
  lemma ReleasedPlace(s: State, t: Tid, g: GrantId, rest: Call, s': State, h: GrantId)
    requires g in s.ledger && h in s.ledger && PlaceOk(s, h) && t in s.calls
    requires s'.ledger == Moved(s.ledger, g, Released) && s'.calls == s.calls[t := rest] && s'.sh.plugins == s.sh.plugins
    requires !s.calls[t].Numbered?
    requires if s.calls[t].ReleaseAudit? then s.calls[t].g == g
             else s.calls[t].ReleasingAll? && rest == ReleasingAll(s.calls[t].p, s.calls[t].pending - {g})
    ensures PlaceOk(s', h)
  {
  }

  lemma ReleasedCall(s: State, t: Tid, g: GrantId, rest: Call, s': State, u: Tid)
    requires g in s.ledger && s.ledger[g].place == Leaving(t) && u in s'.calls && t in s.calls
    requires u != t ==> u in s.calls && CallListed(s, u, s.calls[u])
    requires CallListed(s, t, s.calls[t])
    requires s'.ledger == Moved(s.ledger, g, Released) && s'.calls == s.calls[t := rest]
    requires rest == Returned(Done) || (s.calls[t].ReleasingAll? && rest == ReleasingAll(s.calls[t].p, s.calls[t].pending - {g}))
    ensures CallListed(s', u, s'.calls[u])
  {
  }

  /** No table lists an id that is on its way out. */
  lemma ReleasedTable(s: State, t: Tid, g: GrantId, s': State, q: PluginId)
    requires g in s.ledger && s.ledger[g].place == Leaving(t) && q in s.sh.plugins && TableListed(s, q)
    requires s'.ledger == Moved(s.ledger, g, Released) && s'.sh.plugins == s.sh.plugins
    ensures TableListed(s', q)
  {
  }

  /** `rest` is what the releasing call goes on with once `g` is audited. */
  lemma LedgerReleased(s: State, t: Tid, p: PluginId, c: CapabilityKind, g: GrantId, rest: Call)
    requires LedgerInv(s) && s.sh.log.maxEvents >= 1 && t in s.calls && Carries(s.calls[t], p, c, g)
    requires if s.calls[t].ReleaseAudit? then rest == Returned(Done) else rest == ReleasingAll(p, s.calls[t].pending - {g})
    ensures LedgerInv(Goto(StepReleased(s, p, c, g), t, rest))
  {
    var s' := Goto(StepReleased(s, p, c, g), t, rest);
    assert CallListed(s, t, s.calls[t]);
    forall h | h in s'.ledger ensures PlaceOk(s', h) {
      assert PlaceOk(s, h);
      ReleasedPlace(s, t, g, rest, s', h);
    }
    forall u | u in s'.calls ensures CallListed(s', u, s'.calls[u]) {
      if u != t { assert CallListed(s, u, s.calls[u]); }
      ReleasedCall(s, t, g, rest, s', u);
    }
    forall q | q in s'.sh.plugins ensures TableListed(s', q) {
      assert TableListed(s, q);
      ReleasedTable(s, t, g, s', q);
    }
  }

  /** Every step that takes fewer than 2^64 ids in all keeps the ledger invariant. */
  lemma LedgerStep(s: State, a: Action)
    requires RegistryInv(s) && LedgerInv(s) && Enabled(s, a) && Apply(s, a).issued < U64_LIMIT
    ensures LedgerInv(Apply(s, a))
  {
    var t := a.t;
    if Quiet(s, a) {
      QuietMemory(s, a);
      QuietCall(s, a);
      LedgerQuiet(s, t, Apply(s, a));
    } else if a.AuditPending? {
      var c := s.calls[t];
      LedgerReleased(s, t, c.p, c.pending[a.g], a.g, ReleasingAll(c.p, c.pending - {a.g}));
    } else {
      assert CallOk(s.sh, s.calls[t]);
      match s.calls[t]
      case Registering(m) => LedgerRegister(s, t, m);
      case Unregistering(p) => LedgerUnregister(s, t, p);
      case Deciding(p, c) => LedgerNumber(s, t, p, c);
      case Numbered(p, c, g) => LedgerInsert(s, t, p, c, g);
      case ReleaseLocked(p, g) => LedgerRelease(s, t, p, g);
      case ReleaseAudit(p, c, g) => LedgerReleased(s, t, p, c, g, Returned(Done));
    }
  }

  // ── Audit history ──────────────────────────────────────────────────────────

  predicate IsRelease(e: AuditEvent, g: GrantId) { e.CapabilityReleased? && e.grantId == g }

  predicate IsGrant(e: AuditEvent, g: GrantId) { e.CapabilityGranted? && e.grantId == g }

  function CountReleases(h: seq<AuditEvent>, g: GrantId): nat {
    if h == [] then 0
    else CountReleases(h[..|h| - 1], g) + if IsRelease(h[|h| - 1], g) then 1 else 0
  }

  function CountGrants(h: seq<AuditEvent>, g: GrantId): nat {
    if h == [] then 0
    else CountGrants(h[..|h| - 1], g) + if IsGrant(h[|h| - 1], g) then 1 else 0
  }

  lemma {:induction false} CountSnoc(h: seq<AuditEvent>, e: AuditEvent, g: GrantId)
    ensures CountReleases(h + [e], g) == CountReleases(h, g) + if IsRelease(e, g) then 1 else 0
    ensures CountGrants(h + [e], g) == CountGrants(h, g) + if IsGrant(e, g) then 1 else 0
  {
    assert (h + [e])[..|h|] == h;
  }

  /** The granting thread has the id but has not recorded the grant yet. */
  predicate GrantDue(s: State, g: GrantId)
    requires g in s.ledger
  {
    var t := s.ledger[g].granter;
    t in s.calls && (s.calls[t].Numbered? || s.calls[t].GrantAudit?) && s.calls[t].g == g
  }

  predicate GrantCounted(s: State, g: GrantId) {
    CountGrants(s.history, g) == if g in s.ledger && !GrantDue(s, g) then 1 else 0
  }

  predicate ReleaseCounted(s: State, g: GrantId) {
    CountReleases(s.history, g) == if g in s.ledger && s.ledger[g].place.Released? then 1 else 0
  }

  predicate EventListed(s: State, e: AuditEvent) {
    e.CapabilityGranted? || e.CapabilityReleased? ==>
      && e.grantId in s.ledger
      && s.ledger[e.grantId].plugin == e.plugin
      && FormatCap(s.ledger[e.grantId].cap) == e.capability
  }

  ghost predicate HistoryInv(s: State) {
    && (forall g :: GrantCounted(s, g))
    && (forall g :: ReleaseCounted(s, g))
    && (forall i | 0 <= i < |s.history| :: EventListed(s, s.history[i]))
  }

  /** Between `s` and `s'` nothing about `g` changed that the history counts. */
  predicate Unrecorded(s: State, s': State, g: GrantId) {
    if g in s.ledger then
      && g in s'.ledger
      && s.ledger[g].plugin == s'.ledger[g].plugin && s.ledger[g].cap == s'.ledger[g].cap
      && (GrantDue(s, g) <==> GrantDue(s', g))
      && (s.ledger[g].place.Released? <==> s'.ledger[g].place.Released?)
    else
      g in s'.ledger ==> GrantDue(s', g) && !s'.ledger[g].place.Released?
  }

  lemma HistorySilent(s: State, s': State)
    requires HistoryInv(s) && s'.history == s.history
    requires forall g :: Unrecorded(s, s', g)
    ensures HistoryInv(s')
  {
    forall g ensures GrantCounted(s', g) && ReleaseCounted(s', g) {
      assert Unrecorded(s, s', g);
      assert GrantCounted(s, g) && ReleaseCounted(s, g);
    }
    forall i | 0 <= i < |s'.history| ensures EventListed(s', s'.history[i]) {
      var e := s.history[i];
      assert EventListed(s, e);
      if e.CapabilityGranted? || e.CapabilityReleased? { assert Unrecorded(s, s', e.grantId); }
    }
  }

  /** Recording `e` is what changed about `g`, if `e` is about `g` at all. */
  predicate RecordedBy(s: State, s': State, e: AuditEvent, g: GrantId) {
    && (g in s.ledger <==> g in s'.ledger)
    && (g in s.ledger ==>
         && s'.ledger[g].plugin == s.ledger[g].plugin && s'.ledger[g].cap == s.ledger[g].cap
         && (if IsRelease(e, g) then !s.ledger[g].place.Released? && s'.ledger[g].place.Released?
             else s.ledger[g].place.Released? <==> s'.ledger[g].place.Released?)
         && (if IsGrant(e, g) then GrantDue(s, g) && !GrantDue(s', g)
             else GrantDue(s, g) <==> GrantDue(s', g)))
  }

  lemma HistoryRecords(s: State, s': State, e: AuditEvent)
    requires HistoryInv(s) && s'.history == s.history + [e] && EventListed(s, e)
    requires forall g :: RecordedBy(s, s', e, g)
    ensures HistoryInv(s')
  {
    forall g ensures GrantCounted(s', g) && ReleaseCounted(s', g) {
      CountSnoc(s.history, e, g);
      assert RecordedBy(s, s', e, g);
      assert GrantCounted(s, g) && ReleaseCounted(s, g);
    }
    forall i | 0 <= i < |s'.history| ensures EventListed(s', s'.history[i]) {
      var f := s'.history[i];
      if i < |s.history| { assert f == s.history[i]; }
      assert EventListed(s, f);
      if f.CapabilityGranted? || f.CapabilityReleased? { assert RecordedBy(s, s', e, f.grantId); }
    }
  }

  lemma HistoryQuiet(s: State, a: Action)
    requires RegistryInv(s) && LedgerInv(s) && HistoryInv(s) && Enabled(s, a) && Quiet(s, a)
    ensures HistoryInv(Apply(s, a))
  {
    var s', t := Apply(s, a), a.t;
    QuietMemory(s, a);
    QuietCall(s, a);
    if t in s.calls { assert CallListed(s, t, s.calls[t]); }
    assert forall g | g in s.ledger :: s.ledger[g].granter != t ==> SameCall(s, s.ledger[g].granter, s');
    if s'.history == s.history {
      forall g ensures Unrecorded(s, s', g) {}
      HistorySilent(s, s');
    } else {
      LogKept(s, a);
      var e := s'.history[|s.history|];
      forall g ensures RecordedBy(s, s', e, g) {}
      HistoryRecords(s, s', e);
    }
  }

  lemma HistoryReleasedEvent(s: State, t: Tid, g: GrantId, e: AuditEvent, rest: Call, s': State)
    requires HistoryInv(s) && EventListed(s, e) && IsRelease(e, g) && g in s.ledger && !s.ledger[g].place.Released?
    requires s'.history == s.history + [e] && s'.ledger == Moved(s.ledger, g, Released) && s'.calls == s.calls[t := rest]
    requires t in s.calls && !s.calls[t].Numbered? && !s.calls[t].GrantAudit? && !rest.Numbered? && !rest.GrantAudit?
    ensures HistoryInv(s')
  {
    forall h ensures RecordedBy(s, s', e, h) {}
    HistoryRecords(s, s', e);
  }

  lemma HistoryReleased(s: State, t: Tid, p: PluginId, c: CapabilityKind, g: GrantId, rest: Call)
    requires RegistryInv(s) && LedgerInv(s) && HistoryInv(s)
    requires t in s.calls && Carries(s.calls[t], p, c, g) && (rest.Returned? || rest.ReleasingAll?)
    ensures HistoryInv(Goto(StepReleased(s, p, c, g), t, rest))
  {
    assert CallListed(s, t, s.calls[t]);
    var e := CapabilityReleased(p, FormatCap(c), g);
    HistoryReleasedEvent(s, t, g, e, rest, Goto(StepReleased(s, p, c, g), t, rest));
  }

  lemma FreshId(s: State)
    requires LedgerInv(s) && s.issued + 1 < U64_LIMIT
    ensures s.sh.nextGrantId !in s.ledger
  {
  }

  lemma NumberUnrecorded(s: State, t: Tid, p: PluginId, c: CapabilityKind, g: GrantId)
    requires t in s.calls && s.calls[t].Deciding? && s.sh.nextGrantId !in s.ledger
    ensures Unrecorded(s, StepNumber(s, t, p, c), g)
  {
  }

  lemma HistoryNumber(s: State, t: Tid, p: PluginId, c: CapabilityKind)
    requires HistoryInv(s) && t in s.calls && s.calls[t].Deciding? && s.sh.nextGrantId !in s.ledger
    ensures HistoryInv(StepNumber(s, t, p, c))
  {
    var s' := StepNumber(s, t, p, c);
    forall g ensures Unrecorded(s, s', g) { NumberUnrecorded(s, t, p, c, g); }
    HistorySilent(s, s');
  }

  lemma HistoryInsert(s: State, t: Tid, p: PluginId, c: CapabilityKind, g: GrantId)
    requires HistoryInv(s) && t in s.calls && s.calls[t] == Numbered(p, c, g) && p in s.sh.plugins
    requires CallListed(s, t, s.calls[t])
    ensures HistoryInv(StepInsert(s, t, p, c, g))
  {
    var s' := StepInsert(s, t, p, c, g);
    forall h ensures Unrecorded(s, s', h) {}
    HistorySilent(s, s');
  }

  lemma HistoryRelease(s: State, t: Tid, p: PluginId, g: GrantId)
    requires HistoryInv(s) && t in s.calls && s.calls[t].ReleaseLocked? && p in s.sh.plugins && g in s.sh.plugins[p].grants
    requires TableListed(s, p)
    ensures HistoryInv(StepRelease(s, t, p, g))
  {
    var s' := StepRelease(s, t, p, g);
    forall h ensures Unrecorded(s, s', h) {}
    HistorySilent(s, s');
  }

  lemma HistoryRegister(s: State, t: Tid, m: ValidatedManifest)
    requires HistoryInv(s) && t in s.calls && s.calls[t].Registering? && !AboveCeiling(s.sh, m) && m.pluginId !in s.sh.plugins
    ensures HistoryInv(StepRegister(s, t, m))
  {
    var s' := StepRegister(s, t, m);
    forall h ensures Unrecorded(s, s', h) {}
    HistorySilent(s, s');
  }

  lemma UnregisterUnrecorded(s: State, t: Tid, p: PluginId, g: GrantId)
    requires t in s.calls && s.calls[t].Unregistering? && p in s.sh.plugins && TableListed(s, p)
    ensures Unrecorded(s, StepUnregister(s, t, p), g)
  {
  }

  lemma HistoryUnregister(s: State, t: Tid, p: PluginId)
    requires HistoryInv(s) && t in s.calls && s.calls[t].Unregistering? && p in s.sh.plugins && TableListed(s, p)
    ensures HistoryInv(StepUnregister(s, t, p))
  {
    var s' := StepUnregister(s, t, p);
    forall h ensures Unrecorded(s, s', h) { UnregisterUnrecorded(s, t, p, h); }
    HistorySilent(s, s');
  }

  lemma HistoryStep(s: State, a: Action)
    requires RegistryInv(s) && LedgerInv(s) && HistoryInv(s) && Enabled(s, a) && Apply(s, a).issued < U64_LIMIT
    ensures HistoryInv(Apply(s, a))
  {
    var t := a.t;
    if Quiet(s, a) {
      HistoryQuiet(s, a);
    } else if a.AuditPending? {
      var c := s.calls[t];
      HistoryReleased(s, t, c.p, c.pending[a.g], a.g, ReleasingAll(c.p, c.pending - {a.g}));
    } else {
      assert CallOk(s.sh, s.calls[t]);
      match s.calls[t]
      case Registering(m) => HistoryRegister(s, t, m);
      case Unregistering(p) => HistoryUnregister(s, t, p);
      case Deciding(p, c) => FreshId(s); HistoryNumber(s, t, p, c);
      case Numbered(p, c, g) => assert CallListed(s, t, s.calls[t]); HistoryInsert(s, t, p, c, g);
      case ReleaseLocked(p, g) => HistoryRelease(s, t, p, g);
      case ReleaseAudit(p, c, g) => HistoryReleased(s, t, p, c, g, Returned(Done));
    }
  }

  // ── Whole runs ─────────────────────────────────────────────────────────────

  ghost predicate Inv(s: State) {
    && RegistryInv(s)
    && s.sh.log == LogOf(s.sh.log.maxEvents, s.history)
    && (s.issued < U64_LIMIT ==> LedgerInv(s) && HistoryInv(s))
  }

  lemma InitInv(s: State)
    requires Init(s)
    ensures Inv(s)
  {
  }

  lemma IssuedGrows(s: State, a: Action)
    requires Enabled(s, a)
    ensures s.issued <= Apply(s, a).issued
  {
  }

  lemma StepInv(s: State, a: Action)
    requires Inv(s) && Enabled(s, a)
    ensures Inv(Apply(s, a))
  {
    var s' := Apply(s, a);
    RegistryStep(s, a);
    IssuedGrows(s, a);
    if s'.issued < U64_LIMIT {
      LedgerStep(s, a);
      HistoryStep(s, a);
    }
    LogKept(s, a);
    if s'.history != s.history {
      var e :| Records(s, s', e);
      assert s'.history[..|s'.history| - 1] == s.history;
    }
  }

  /** Every state of every run satisfies the invariant. */
  lemma {:induction false} RunInv(states: seq<State>, actions: seq<Action>, i: nat)
    requires IsRun(states, actions) && i < |states|
    ensures Inv(states[i])
  {
    if i == 0 {
      InitInv(states[0]);
    } else {
      RunInv(states, actions, i - 1);
      StepInv(states[i - 1], actions[i - 1]);
    }
  }

  /** Deny by default, in every state of every run: an outstanding grant's
      capability is declared in the registered manifest, and its tier stays
      under the implied, the effective and the daemon's tier. A wasm plugin
      never holds a grant that needs tier 4 or 5. */
  lemma {:induction false} GrantsStayWithinTiers(states: seq<State>, actions: seq<Action>, i: nat, p: PluginId, g: GrantId)
    requires IsRun(states, actions) && i < |states|
    requires p in states[i].sh.plugins && g in states[i].sh.plugins[p].grants
    ensures var s := states[i]; var m := s.sh.plugins[p].manifest; var c := s.sh.plugins[p].grants[g];
            && m.pluginId == p && c in m.capabilities
            && Rank(MinTier(c)) <= Rank(m.implied) <= Rank(m.effective) <= Rank(states[0].sh.ceiling)
            && (m.runtime.Wasm? ==> Rank(MinTier(c)) <= 3)
  {
    RunInv(states, actions, i);
    CeilingIsConstant(states, actions, i);
    assert RecordOk(states[i].sh, p);
  }

  /** In every state of every run, by capability: a wasm plugin holds no share,
      mesh or docker-socket grant, the docker socket is held at tier 5 only, and
      tiers 1 and 2 hold nothing that reaches the network or an accelerator. */
  lemma {:induction false} NobodyHoldsAboveTier(states: seq<State>, actions: seq<Action>, i: nat, p: PluginId, g: GrantId)
    requires IsRun(states, actions) && i < |states|
    requires p in states[i].sh.plugins && g in states[i].sh.plugins[p].grants
    ensures var m := states[i].sh.plugins[p].manifest; var c := states[i].sh.plugins[p].grants[g];
            && (m.runtime.Wasm? ==> !c.StorageShare? && !c.MeshPeer? && !c.HostDockerSocket?)
            && (c.HostDockerSocket? ==> m.effective == Native)
            && (c.StorageShare? || c.MeshPeer? ==> m.effective == Privileged || m.effective == Native)
            && (c.NetLan? || c.NetWan? || c.ComputeGpu? || c.ComputeNpu? ==> m.effective != Pure && m.effective != Sandboxed)
            && (c.ComputeCpu? || c.AgentInvoke? || c == StorageLocal(SharedScope) ==> m.effective != Pure)
  {
    GrantsStayWithinTiers(states, actions, i, p, g);
  }

  lemma CeilingKept(s: State, a: Action)
    requires Enabled(s, a)
    ensures Apply(s, a).sh.ceiling == s.sh.ceiling
  {
  }

  lemma {:induction false} CeilingIsConstant(states: seq<State>, actions: seq<Action>, i: nat)
    requires IsRun(states, actions) && i < |states|
    ensures states[i].sh.ceiling == states[0].sh.ceiling
  {
    if i > 0 {
      CeilingIsConstant(states, actions, i - 1);
      CeilingKept(states[i - 1], actions[i - 1]);
    }
  }

  /** The decision made under the shared lock still holds when the grant is
      inserted, and the record a release or a grant writes to is registered. */
  lemma {:induction false} SharedLockIsAuthoritative(states: seq<State>, actions: seq<Action>, i: nat, t: Tid)
    requires IsRun(states, actions) && i < |states| && t in states[i].calls
    ensures var c := states[i].calls[t];
            && (c.Deciding? || c.Numbered? ==> Declared(states[i].sh, c.p, c.c))
            && (c.ReleaseLocked? ==> c.p in states[i].sh.plugins)
  {
    RunInv(states, actions, i);
    assert CallOk(states[i].sh, states[i].calls[t]);
  }

  /** What is in the history when a call returns: every decision has its event
      by then, and a refused request other than an undeclared one leaves none. */
  predicate Audited(c: Call, before: seq<AuditEvent>, after: seq<AuditEvent>, r: Reply) {
    match r
    case Granted(g) => c.GrantAudit? && c.g == g && after == before + [CapabilityGranted(c.p, FormatCap(c.c), g)]
    case Failed(CapabilityNotDeclared(p, text)) =>
      c.DenyAudit? && c.p == p && FormatCap(c.c) == text && after == before + [CapabilityDenied(p, text, NOT_DECLARED)]
    case Failed(_) => after == before
    case Done =>
      match c
      case RegisterAudit(m) => after == before + [PluginRegistered(m.pluginId, m.declared, m.implied, m.effective)]
      case ReleasingAll(p, pending) => pending == map[] && after == before + [PluginUnregistered(p)]
      case ReleaseAudit(p, cap, g) => after == before + [CapabilityReleased(p, FormatCap(cap), g)]
      case ReleaseLocked(_, _) => after == before
      case _ => false
  }

  lemma ReplyAudited(s: State, t: Tid)
    requires Enabled(s, Step(t)) && Apply(s, Step(t)).calls[t].Returned?
    ensures Audited(s.calls[t], s.history, Apply(s, Step(t)).history, Apply(s, Step(t)).calls[t].reply)
  {
  }

  lemma ReturnsItself(s: State, a: Action, t: Tid)
    requires Enabled(s, a) && t in s.calls && !s.calls[t].Returned?
    requires t in Apply(s, a).calls && Apply(s, a).calls[t].Returned?
    ensures a == Step(t)
  {
  }

  /** In every run, no call returns before its decision is in the audit history. */
  lemma {:induction false} DecisionsAreAudited(states: seq<State>, actions: seq<Action>, i: nat, t: Tid)
    requires IsRun(states, actions) && i < |actions| && t in states[i].calls && !states[i].calls[t].Returned?
    requires t in states[i + 1].calls && states[i + 1].calls[t].Returned?
    ensures Audited(states[i].calls[t], states[i].history, states[i + 1].history, states[i + 1].calls[t].reply)
  {
    ReturnsItself(states[i], actions[i], t);
    ReplyAudited(states[i], t);
  }

  predicate TakesId(s: State, a: Action) { a.Step? && a.t in s.calls && s.calls[a.t].Deciding? }

  lemma {:induction false} IssuedCountsIds(states: seq<State>, actions: seq<Action>, i: nat, j: nat)
    requires IsRun(states, actions) && i < j < |states|
    ensures states[i].issued + (if TakesId(states[i], actions[i]) then 1 else 0) <= states[j].issued
    ensures states[j].sh.nextGrantId == (states[j].issued + 1) % U64_LIMIT
    decreases j
  {
    if j == i + 1 {
      NextIdFollowsIssued(states, actions, i);
      IdStep(states[i], actions[i]);
    } else {
      IssuedCountsIds(states, actions, i, j - 1);
      IdStep(states[j - 1], actions[j - 1]);
    }
  }

  lemma {:induction false} NextIdFollowsIssued(states: seq<State>, actions: seq<Action>, i: nat)
    requires IsRun(states, actions) && i < |states|
    ensures states[i].sh.nextGrantId == (states[i].issued + 1) % U64_LIMIT
  {
    if i > 0 {
      NextIdFollowsIssued(states, actions, i - 1);
      IdStep(states[i - 1], actions[i - 1]);
    }
  }

  lemma IdStep(s: State, a: Action)
    requires Enabled(s, a) && s.sh.nextGrantId == (s.issued + 1) % U64_LIMIT
    ensures Apply(s, a).issued == s.issued + if TakesId(s, a) then 1 else 0
    ensures Apply(s, a).sh.nextGrantId == (Apply(s, a).issued + 1) % U64_LIMIT
  {
    WrapNext(s.issued + 1);
  }

  lemma SameResidue(a: nat, b: nat)
    requires a <= b
    ensures (a + 1) % U64_LIMIT == (b + 1) % U64_LIMIT <==> (b - a) % U64_LIMIT == 0
  {
    var x, y := (a + 1) / U64_LIMIT, (b + 1) / U64_LIMIT;
    assert b - a == U64_LIMIT * (y - x) + ((b + 1) % U64_LIMIT - (a + 1) % U64_LIMIT);
  }

  /** Two grants of one run carry the same id exactly when the number of ids
      taken between them is a multiple of 2^64: the counter wraps there and
      nowhere else. With fewer than 2^64 grants in all no id is reused. */
  lemma {:induction false} GrantIdsReusedOnlyByWrapping(states: seq<State>, actions: seq<Action>, i: nat, j: nat)
    requires IsRun(states, actions) && i < j < |actions|
    requires TakesId(states[i], actions[i]) && TakesId(states[j], actions[j])
    ensures states[i].sh.nextGrantId == states[j].sh.nextGrantId <==>
            (states[j].issued - states[i].issued) % U64_LIMIT == 0
    ensures states[j].issued < U64_LIMIT ==> states[i].sh.nextGrantId != states[j].sh.nextGrantId
  {
    NextIdFollowsIssued(states, actions, i);
    IssuedCountsIds(states, actions, i, j);
    SameResidue(states[i].issued, states[j].issued);
  }

  ghost predicate IsOutstanding(s: State, g: GrantId) {
    exists p :: p in s.sh.plugins && g in s.sh.plugins[p].grants
  }

  predicate Quiescent(s: State) { forall t | t in s.calls :: s.calls[t].Returned? }

  lemma OutstandingIsListed(s: State, g: GrantId)
    requires LedgerInv(s)
    ensures IsOutstanding(s, g) <==> g in s.ledger && s.ledger[g].place.Outstanding?
  {
    if IsOutstanding(s, g) {
      var p :| p in s.sh.plugins && g in s.sh.plugins[p].grants;
      assert TableListed(s, p);
    }
    if g in s.ledger { assert PlaceOk(s, g); }
  }

  /** When no call is in flight the full audit history has one grant record for
      every id issued, and exactly one release record iff the id is no longer
      outstanding; ids never issued have neither. */
  lemma {:induction false} AuditAgreesWithGrants(states: seq<State>, actions: seq<Action>, i: nat, g: GrantId)
    requires IsRun(states, actions) && i < |states| && states[i].issued < U64_LIMIT && Quiescent(states[i])
    ensures var s := states[i];
            if 1 <= g <= s.issued then
              && CountGrants(s.history, g) == 1
              && CountReleases(s.history, g) == (if IsOutstanding(s, g) then 0 else 1)
            else
              CountGrants(s.history, g) == 0 && CountReleases(s.history, g) == 0 && !IsOutstanding(s, g)
  {
    var s := states[i];
    RunInv(states, actions, i);
    OutstandingIsListed(s, g);
    assert GrantCounted(s, g) && ReleaseCounted(s, g);
    if g in s.ledger { assert PlaceOk(s, g); }
  }

  /** In every state, the records of one id name one plugin and one capability. */
  lemma {:induction false} RecordsOfOneIdAgree(states: seq<State>, actions: seq<Action>, i: nat, e: AuditEvent, f: AuditEvent)
    requires IsRun(states, actions) && i < |states| && states[i].issued < U64_LIMIT
    requires e in states[i].history && (e.CapabilityGranted? || e.CapabilityReleased?)
    requires f in states[i].history && (f.CapabilityGranted? || f.CapabilityReleased?)
    requires e.grantId == f.grantId
    ensures e.plugin == f.plugin && e.capability == f.capability
  {
    RunInv(states, actions, i);
    assert EventListed(states[i], e) && EventListed(states[i], f);
  }

  /** In every state, the retained log is the end of the history and the
      dropped counter is the length of the rest. */
  lemma {:induction false} LogIsHistorySuffix(states: seq<State>, actions: seq<Action>, i: nat)
    requires IsRun(states, actions) && i < |states|
    ensures var s := states[i];
            && s.sh.log.retained == LastOf(s.history, s.sh.log.maxEvents)
            && s.sh.log.dropped == (|s.history| - |s.sh.log.retained|) % U64_LIMIT
  {
    RunInv(states, actions, i);
    RetainsLast(states[i].sh.log.maxEvents, states[i].history);
  }

  // ── Progress ───────────────────────────────────────────────────────────────

  ghost predicate CanMove(s: State, t: Tid) {
    Enabled(s, Step(t)) || Enabled(s, End(t)) || exists g :: Enabled(s, AuditPending(t, g))
  }

  /** The call waits for the exclusive registry lock, which this reader holds shared. */
  predicate WaitsFor(s: State, t: Tid, u: Tid) {
    && t in s.calls && (s.calls[t].Registering? || s.calls[t].Unregistering?)
    && u in s.calls && HoldsReadLock(s.calls[u])
  }

  /** The locks never deadlock: a call that cannot move waits for a reader that can. */
  lemma {:induction false} NoDeadlock(states: seq<State>, actions: seq<Action>, i: nat, t: Tid)
    requires IsRun(states, actions) && i < |states| && t in states[i].calls
    ensures var s := states[i];
            CanMove(s, t) || exists u :: WaitsFor(s, t, u) && CanMove(s, u)
  {
    RunInv(states, actions, i);
    MovesOrWaits(states[i], t);
  }

  lemma MovesOrWaits(s: State, t: Tid)
    requires s.sh.log.maxEvents >= 1 && t in s.calls
    ensures CanMove(s, t) || exists u :: WaitsFor(s, t, u) && CanMove(s, u)
  {
    if s.calls[t].ReleasingAll? && s.calls[t].pending != map[] {
      var g :| g in s.calls[t].pending;
      assert Enabled(s, AuditPending(t, g));
    } else if (s.calls[t].Registering? || s.calls[t].Unregistering?) && !NoReaders(s) {
      var u :| u in s.calls && HoldsReadLock(s.calls[u]);
      assert WaitsFor(s, t, u) && Enabled(s, Step(u));
    }
  }
}
