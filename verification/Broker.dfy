/** The capability broker as a machine of lock-sized steps (crates/entangle-broker/src/broker.rs).

    Any number of threads run `register_plugin`, `unregister_plugin`, `grant`
    and `release`. One step is one critical section: the registry's read lock is
    held from `Deciding`/`ReleaseLocked` until the step that leaves it, and the
    exclusive sections of register and unregister wait for every reader. */
module Broker {
  import opened Common
  import opened Capability
  import opened Manifest
  import opened Audit

  type Tid = nat

  datatype PluginRecord = PluginRecord(manifest: ValidatedManifest, grants: map<GrantId, CapabilityKind>)

  datatype BrokerError =
    | TierAboveCeiling(plugin: Tier, ceiling: Tier)
    | AlreadyRegistered(id: PluginId)
    | PluginNotRegistered(id: PluginId)
    | CapabilityNotDeclared(id: PluginId, capability: string)

  // ── Shared memory and the critical sections ────────────────────────────────

  datatype Shared = Shared(
    ceiling: Tier,
    plugins: map<PluginId, PluginRecord>,
    nextGrantId: nat,
    log: Log)

  /** `BrokerPolicy::check_plugin_load` refuses. */
  predicate AboveCeiling(sh: Shared, m: ValidatedManifest) { Rank(m.effective) > Rank(sh.ceiling) }

  function InsertPlugin(sh: Shared, m: ValidatedManifest): Shared {
    sh.(plugins := sh.plugins[m.pluginId := PluginRecord(m, map[])])
  }

  function RemovePlugin(sh: Shared, p: PluginId): Shared { sh.(plugins := sh.plugins - {p}) }

  predicate Declared(sh: Shared, p: PluginId, c: CapabilityKind) {
    p in sh.plugins && c in sh.plugins[p].manifest.capabilities
  }

  /** `next_grant_id.fetch_add(1)` on an `AtomicU64`. */
  function TakeId(sh: Shared): Shared { sh.(nextGrantId := (sh.nextGrantId + 1) % U64_LIMIT) }

  function SetGrants(sh: Shared, p: PluginId, grants: map<GrantId, CapabilityKind>): Shared
    requires p in sh.plugins
  {
    sh.(plugins := sh.plugins[p := sh.plugins[p].(grants := grants)])
  }

  function AddGrant(sh: Shared, p: PluginId, g: GrantId, c: CapabilityKind): Shared
    requires p in sh.plugins
  {
    SetGrants(sh, p, sh.plugins[p].grants[g := c])
  }

  function DropGrant(sh: Shared, p: PluginId, g: GrantId): Shared
    requires p in sh.plugins
  {
    SetGrants(sh, p, sh.plugins[p].grants - {g})
  }

  function Append(sh: Shared, e: AuditEvent): Shared
    requires sh.log.maxEvents >= 1
  {
    sh.(log := Record(sh.log, e))
  }

  function RegisteredEvent(m: ValidatedManifest): AuditEvent {
    PluginRegistered(m.pluginId, m.declared, m.implied, m.effective)
  }

  const NOT_DECLARED: string := "not declared in manifest"

  // ── Threads ────────────────────────────────────────────────────────────────

  datatype Reply = Done | Granted(g: GrantId) | Failed(e: BrokerError)

  datatype Call =
    | Registering(m: ValidatedManifest)
    | RegisterAudit(m: ValidatedManifest)
    | Unregistering(p: PluginId)
    | ReleasingAll(p: PluginId, pending: map<GrantId, CapabilityKind>)
    | Requesting(p: PluginId, c: CapabilityKind)
    | Deciding(p: PluginId, c: CapabilityKind)
    | Numbered(p: PluginId, c: CapabilityKind, g: GrantId)
    | GrantAudit(p: PluginId, c: CapabilityKind, g: GrantId)
    | DenyAudit(p: PluginId, c: CapabilityKind)
    | Releasing(p: PluginId, g: GrantId)
    | ReleaseLocked(p: PluginId, g: GrantId)
    | ReleaseAudit(p: PluginId, c: CapabilityKind, g: GrantId)
    | Returned(reply: Reply)

  predicate Starts(c: Call) {
    || (c.Registering? && Sound(c.m))
    || c.Unregistering? || c.Requesting? || c.Releasing?
  }

  predicate HoldsReadLock(c: Call) { c.Deciding? || c.Numbered? || c.ReleaseLocked? }

  /** Where a grant id is on its way from `fetch_add` to its release record. */
  datatype Place = Inserting(t: Tid) | Outstanding | Leaving(t: Tid) | Released

  datatype Entry = Entry(granter: Tid, plugin: PluginId, cap: CapabilityKind, place: Place)

  /** `history`, `issued` and `ledger` are history variables: every event
      recorded so far (the `tracing` stream), the number of ids taken, and the
      fate of each id. No step reads them to decide anything. */
  datatype State = State(
    sh: Shared,
    calls: map<Tid, Call>,
    history: seq<AuditEvent>,
    issued: nat,
    ledger: map<GrantId, Entry>)

  datatype Action =
    | Begin(t: Tid, call: Call)
    | Step(t: Tid)
    | AuditPending(t: Tid, g: GrantId)
    | End(t: Tid)

  predicate NoReaders(s: State) { forall t | t in s.calls :: !HoldsReadLock(s.calls[t]) }

  predicate Enabled(s: State, a: Action) {
    && s.sh.log.maxEvents >= 1
    && match a
       case Begin(t, call) => t !in s.calls && Starts(call)
       case End(t) => t in s.calls && s.calls[t].Returned?
       case AuditPending(t, g) => t in s.calls && s.calls[t].ReleasingAll? && g in s.calls[t].pending
       case Step(t) =>
         && t in s.calls
         && !s.calls[t].Returned?
         && (s.calls[t].Registering? && !AboveCeiling(s.sh, s.calls[t].m) ==> NoReaders(s))
         && (s.calls[t].Unregistering? ==> NoReaders(s))
         && (s.calls[t].ReleasingAll? ==> s.calls[t].pending == map[])
  }

  function Goto(s: State, t: Tid, c: Call): State { s.(calls := s.calls[t := c]) }

  function Fail(s: State, t: Tid, e: BrokerError): State { Goto(s, t, Returned(Failed(e))) }

  function Recorded(s: State, e: AuditEvent): State
    requires s.sh.log.maxEvents >= 1
  {
    s.(sh := Append(s.sh, e), history := s.history + [e])
  }

  function Moved(ledger: map<GrantId, Entry>, g: GrantId, place: Place): map<GrantId, Entry> {
    if g in ledger then ledger[g := ledger[g].(place := place)] else ledger
  }

  function MovedAll(ledger: map<GrantId, Entry>, gs: set<GrantId>, place: Place): map<GrantId, Entry> {
    map g | g in ledger :: if g in gs then ledger[g].(place := place) else ledger[g]
  }

  function StepRegister(s: State, t: Tid, m: ValidatedManifest): State {
    if AboveCeiling(s.sh, m) then Fail(s, t, TierAboveCeiling(m.effective, s.sh.ceiling))
    else if m.pluginId in s.sh.plugins then Fail(s, t, AlreadyRegistered(m.pluginId))
    else Goto(s.(sh := InsertPlugin(s.sh, m)), t, RegisterAudit(m))
  }

  function StepUnregister(s: State, t: Tid, p: PluginId): State {
    if p !in s.sh.plugins then Fail(s, t, PluginNotRegistered(p))
    else
      var grants := s.sh.plugins[p].grants;
      Goto(s.(sh := RemovePlugin(s.sh, p), ledger := MovedAll(s.ledger, grants.Keys, Leaving(t))),
           t, ReleasingAll(p, grants))
  }

  function StepRequest(s: State, t: Tid, p: PluginId, c: CapabilityKind): State {
    if p !in s.sh.plugins then Fail(s, t, PluginNotRegistered(p))
    else if Declared(s.sh, p, c) then Goto(s, t, Deciding(p, c))
    else Goto(s, t, DenyAudit(p, c))
  }

  function StepNumber(s: State, t: Tid, p: PluginId, c: CapabilityKind): State {
    var g := s.sh.nextGrantId;
    Goto(s.(sh := TakeId(s.sh), issued := s.issued + 1, ledger := s.ledger[g := Entry(t, p, c, Inserting(t))]),
         t, Numbered(p, c, g))
  }

  function StepInsert(s: State, t: Tid, p: PluginId, c: CapabilityKind, g: GrantId): State {
    if p !in s.sh.plugins then Fail(s, t, PluginNotRegistered(p))
    else Goto(s.(sh := AddGrant(s.sh, p, g, c), ledger := Moved(s.ledger, g, Outstanding)), t, GrantAudit(p, c, g))
  }

  function StepRelease(s: State, t: Tid, p: PluginId, g: GrantId): State {
    if p !in s.sh.plugins then Fail(s, t, PluginNotRegistered(p))
    else
      var grants := s.sh.plugins[p].grants;
      if g !in grants then Goto(s, t, Returned(Done))
      else Goto(s.(sh := DropGrant(s.sh, p, g), ledger := Moved(s.ledger, g, Leaving(t))),
                t, ReleaseAudit(p, grants[g], g))
  }

  function StepReleased(s: State, p: PluginId, c: CapabilityKind, g: GrantId): State
    requires s.sh.log.maxEvents >= 1
  {
    Recorded(s, CapabilityReleased(p, FormatCap(c), g)).(ledger := Moved(s.ledger, g, Released))
  }

  function Apply(s: State, a: Action): State
    requires Enabled(s, a)
  {
    match a
    case Begin(t, call) => Goto(s, t, call)
    case End(t) => s.(calls := s.calls - {t})
    case AuditPending(t, g) =>
      var c := s.calls[t];
      Goto(StepReleased(s, c.p, c.pending[g], g), t, ReleasingAll(c.p, c.pending - {g}))
    case Step(t) =>
      match s.calls[t]
      case Registering(m) => StepRegister(s, t, m)
      case RegisterAudit(m) => Goto(Recorded(s, RegisteredEvent(m)), t, Returned(Done))
      case Unregistering(p) => StepUnregister(s, t, p)
      case ReleasingAll(p, _) => Goto(Recorded(s, PluginUnregistered(p)), t, Returned(Done))
      case Requesting(p, c) => StepRequest(s, t, p, c)
      case Deciding(p, c) => StepNumber(s, t, p, c)
      case Numbered(p, c, g) => StepInsert(s, t, p, c, g)
      case GrantAudit(p, c, g) => Goto(Recorded(s, CapabilityGranted(p, FormatCap(c), g)), t, Returned(Granted(g)))
      case DenyAudit(p, c) =>
        Goto(Recorded(s, CapabilityDenied(p, FormatCap(c), NOT_DECLARED)), t, Returned(Failed(CapabilityNotDeclared(p, FormatCap(c)))))
      case Releasing(p, g) =>
        if p !in s.sh.plugins then Fail(s, t, PluginNotRegistered(p)) else Goto(s, t, ReleaseLocked(p, g))
      case ReleaseLocked(p, g) => StepRelease(s, t, p, g)
      case ReleaseAudit(p, c, g) => Goto(StepReleased(s, p, c, g), t, Returned(Done))
  }

  predicate Init(s: State) {
    && s.sh.plugins == map[] && s.sh.nextGrantId == 1
    && s.sh.log.maxEvents >= 1 && s.sh.log == EmptyLog(s.sh.log.maxEvents)
    && s.calls == map[] && s.history == [] && s.issued == 0 && s.ledger == map[]
  }

  /** A run: every state and the action taken in it. */
  ghost predicate IsRun(states: seq<State>, actions: seq<Action>) {
    && |states| == |actions| + 1
    && Init(states[0])
    && forall i | 0 <= i < |actions| :: Enabled(states[i], actions[i]) && states[i + 1] == Apply(states[i], actions[i])
  }
}
