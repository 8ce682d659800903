/** The broker object itself (crates/entangle-broker/src/broker.rs): each call
    run to completion, proved against the critical sections of `Broker`, and
    those calls as runs of one thread of the machine. */
module BrokerService {
  import opened Common
  import opened Capability
  import opened Manifest
  import opened Audit
  import opened Broker

  // ── What a whole call does ─────────────────────────────────────────────────

  function RegisterResult(sh: Shared, m: ValidatedManifest): (Shared, Reply)
    requires sh.log.maxEvents >= 1
  {
    if AboveCeiling(sh, m) then (sh, Failed(TierAboveCeiling(m.effective, sh.ceiling)))
    else if m.pluginId in sh.plugins then (sh, Failed(AlreadyRegistered(m.pluginId)))
    else (Append(InsertPlugin(sh, m), RegisteredEvent(m)), Done)
  }

  function GrantResult(sh: Shared, p: PluginId, c: CapabilityKind): (Shared, Reply)
    requires sh.log.maxEvents >= 1
  {
    if p !in sh.plugins then (sh, Failed(PluginNotRegistered(p)))
    else if !Declared(sh, p, c) then
      (Append(sh, CapabilityDenied(p, FormatCap(c), NOT_DECLARED)), Failed(CapabilityNotDeclared(p, FormatCap(c))))
    else
      var g := sh.nextGrantId;
      (Append(AddGrant(TakeId(sh), p, g, c), CapabilityGranted(p, FormatCap(c), g)), Granted(g))
  }

  function ReleaseResult(sh: Shared, p: PluginId, g: GrantId): (Shared, Reply)
    requires sh.log.maxEvents >= 1
  {
    if p !in sh.plugins then (sh, Failed(PluginNotRegistered(p)))
    else
      var grants := sh.plugins[p].grants;
      if g !in grants then (sh, Done)
      else (Append(DropGrant(sh, p, g), CapabilityReleased(p, FormatCap(grants[g]), g)), Done)
  }

  /** `order` lists every grant id of the table exactly once. */
  predicate Enumerates(order: seq<GrantId>, grants: map<GrantId, CapabilityKind>) {
    && (forall i, j | 0 <= i < j < |order| :: order[i] != order[j])
    && (forall i | 0 <= i < |order| :: order[i] in grants)
    && (forall g | g in grants :: g in order)
  }

  /** The log after one release event per listed id. */
  function ReleaseAll(log: Log, p: PluginId, grants: map<GrantId, CapabilityKind>, order: seq<GrantId>): (l: Log)
    requires log.maxEvents >= 1 && forall i | 0 <= i < |order| :: order[i] in grants
    ensures l.maxEvents == log.maxEvents
  {
    if order == [] then log
    else
      var last := order[|order| - 1];
      var before := ReleaseAll(log, p, grants, order[..|order| - 1]);
      var e := CapabilityReleased(p, FormatCap(grants[last]), last);
      RecordKeepsMax(before, e);
      Record(before, e)
  }

  function Unregistered(sh: Shared, p: PluginId, order: seq<GrantId>): Shared
    requires sh.log.maxEvents >= 1 && p in sh.plugins
    requires forall i | 0 <= i < |order| :: order[i] in sh.plugins[p].grants
  {
    RemovePlugin(sh, p).(log := Record(ReleaseAll(sh.log, p, sh.plugins[p].grants, order), PluginUnregistered(p)))
  }

  // ── The object ─────────────────────────────────────────────────────────────

  class Service {
    const ceiling: Tier
    var plugins: map<PluginId, PluginRecord>
    var nextGrantId: nat
    const audit: AuditLog

    ghost predicate Valid()
      reads this, audit
    {
      audit.Valid()
    }

    function View(): Shared
      reads this, audit
    {
      Shared(ceiling, plugins, nextGrantId, audit.View())
    }

    constructor (maxTier: Tier, capacity: nat)
      ensures Valid() && fresh(audit)
      ensures View() == Shared(maxTier, map[], 1, EmptyLog(capacity))
    {
      ceiling := maxTier;
      plugins := map[];
      nextGrantId := 1;
      audit := new AuditLog(capacity);
    }

    method Register(m: ValidatedManifest) returns (r: Reply)
      requires Valid()
      modifies this, audit
      ensures Valid() && (View(), r) == RegisterResult(old(View()), m)
      ensures r == Done <==> Rank(m.effective) <= Rank(ceiling) && m.pluginId !in old(plugins)
      ensures r == Done ==>
                && plugins == old(plugins)[m.pluginId := PluginRecord(m, map[])] && nextGrantId == old(nextGrantId)
                && audit.View() == Record(old(audit.View()), PluginRegistered(m.pluginId, m.declared, m.implied, m.effective))
      ensures r != Done ==>
                && View() == old(View())
                && r == Failed(if Rank(m.effective) > Rank(ceiling) then TierAboveCeiling(m.effective, ceiling)
                               else AlreadyRegistered(m.pluginId))
    {
      if Rank(m.effective) > Rank(ceiling) { return Failed(TierAboveCeiling(m.effective, ceiling)); }
      if m.pluginId in plugins { return Failed(AlreadyRegistered(m.pluginId)); }
      plugins := plugins[m.pluginId := PluginRecord(m, map[])];
      audit.RecordEvent(RegisteredEvent(m));
      return Done;
    }

    method Grant(p: PluginId, c: CapabilityKind) returns (r: Reply)
      requires Valid()
      modifies this, audit
      ensures Valid() && (View(), r) == GrantResult(old(View()), p, c)
      ensures r.Granted? <==> p in old(plugins) && c in old(plugins)[p].manifest.capabilities
      ensures r.Granted? ==>
                && r.g == old(nextGrantId) && nextGrantId == (old(nextGrantId) + 1) % 0x1_0000_0000_0000_0000
                && plugins.Keys == old(plugins).Keys && (forall q | q in plugins && q != p :: plugins[q] == old(plugins)[q])
                && plugins[p].manifest == old(plugins)[p].manifest && plugins[p].grants == old(plugins)[p].grants[r.g := c]
                && audit.View() == Record(old(audit.View()), CapabilityGranted(p, FormatCap(c), r.g))
      ensures !r.Granted? ==> plugins == old(plugins) && nextGrantId == old(nextGrantId)
      ensures p !in old(plugins) ==> r == Failed(PluginNotRegistered(p)) && audit.View() == old(audit.View())
      ensures p in old(plugins) && !r.Granted? ==>
                && r == Failed(CapabilityNotDeclared(p, FormatCap(c)))
                && audit.View() == Record(old(audit.View()), CapabilityDenied(p, FormatCap(c), NOT_DECLARED))
    {
      if p !in plugins { return Failed(PluginNotRegistered(p)); }
      if c !in plugins[p].manifest.capabilities {
        audit.RecordEvent(CapabilityDenied(p, FormatCap(c), NOT_DECLARED));
        return Failed(CapabilityNotDeclared(p, FormatCap(c)));
      }
      var g := nextGrantId;
      nextGrantId := (nextGrantId + 1) % U64_LIMIT;
      plugins := plugins[p := plugins[p].(grants := plugins[p].grants[g := c])];
      audit.RecordEvent(CapabilityGranted(p, FormatCap(c), g));
      return Granted(g);
    }

    method Release(p: PluginId, g: GrantId) returns (r: Reply)
      requires Valid()
      modifies this, audit
      ensures Valid() && (View(), r) == ReleaseResult(old(View()), p, g)
      ensures nextGrantId == old(nextGrantId)
      ensures p !in old(plugins) ==> r == Failed(PluginNotRegistered(p)) && View() == old(View())
      ensures p in old(plugins) ==>
                && r == Done && plugins.Keys == old(plugins).Keys && (forall q | q in plugins && q != p :: plugins[q] == old(plugins)[q])
                && plugins[p].manifest == old(plugins)[p].manifest && plugins[p].grants == old(plugins)[p].grants - {g}
                && audit.View() == if g in old(plugins)[p].grants
                                   then Record(old(audit.View()), CapabilityReleased(p, FormatCap(old(plugins)[p].grants[g]), g))
                                   else old(audit.View())
    {
      if p !in plugins { return Failed(PluginNotRegistered(p)); }
      var grants: map<GrantId, CapabilityKind> := plugins[p].grants;
      if g in grants {
        var rest: map<GrantId, CapabilityKind> := grants - {g};
        plugins := plugins[p := plugins[p].(grants := rest)];
        audit.RecordEvent(CapabilityReleased(p, FormatCap(grants[g]), g));
      }
      return Done;
    }

    /** `order` is the order in which the hash map yielded the grants. */
    method Unregister(p: PluginId) returns (r: Reply, order: seq<GrantId>)
      requires Valid()
      modifies this, audit
      ensures Valid()
      ensures p !in old(plugins) ==> r == Failed(PluginNotRegistered(p)) && View() == old(View())
      ensures p in old(plugins) ==>
                r == Done && Enumerates(order, old(plugins)[p].grants) && View() == Unregistered(old(View()), p, order)
    {
      order := [];
      if p !in plugins { return Failed(PluginNotRegistered(p)), []; }
      var grants := plugins[p].grants;
      plugins := plugins - {p};
      var left := grants.Keys;
      while left != {}
        invariant audit.Valid() && audit.View().maxEvents == old(audit.View()).maxEvents
        invariant plugins == old(plugins) - {p} && nextGrantId == old(nextGrantId)
        invariant left <= grants.Keys
        invariant forall i, j | 0 <= i < j < |order| :: order[i] != order[j]
        invariant forall i | 0 <= i < |order| :: order[i] in grants && order[i] !in left
        invariant forall g | g in grants && g !in left :: g in order
        invariant audit.View() == ReleaseAll(old(audit.View()), p, grants, order)
        decreases |left|
      {
        var g :| g in left;
        audit.RecordEvent(CapabilityReleased(p, FormatCap(grants[g]), g));
        assert (order + [g])[..|order|] == order;
        order := order + [g];
        left := left - {g};
      }
      audit.RecordEvent(PluginUnregistered(p));
      r := Done;
    }

    /** `snapshot_grants`, as the set of (id, capability) pairs. */
    method SnapshotGrants(p: PluginId) returns (out: set<(GrantId, CapabilityKind)>)
      ensures p !in plugins ==> out == {}
      ensures p in plugins ==> forall g, c :: (g, c) in out <==> g in plugins[p].grants && plugins[p].grants[g] == c
    {
      if p !in plugins { return {}; }
      out := plugins[p].grants.Items;
    }
  }

  // ── A call that runs alone is what the object does ─────────────────────────

  ghost predicate Plays(s: State, actions: seq<Action>, s': State)
    decreases |actions|
  {
    if actions == [] then s == s'
    else Enabled(s, actions[0]) && Plays(Apply(s, actions[0]), actions[1..], s')
  }

  lemma {:induction false} PlaySnoc(s: State, actions: seq<Action>, mid: State, a: Action)
    requires Plays(s, actions, mid) && Enabled(mid, a)
    ensures Plays(s, actions + [a], Apply(mid, a))
    decreases |actions|
  {
    if actions == [] {
      assert Plays(Apply(mid, a), (actions + [a])[1..], Apply(mid, a));
    } else {
      assert (actions + [a])[1..] == actions[1..] + [a];
      PlaySnoc(Apply(s, actions[0]), actions[1..], mid, a);
    }
  }

  /** A step of a thread inside its call changes no other thread's call. */
  predicate OnlyOwn(s: State, t: Tid, s': State) { t in s'.calls && s'.calls == s.calls[t := s'.calls[t]] }

  lemma OwnLifecycle(s: State, t: Tid)
    requires Enabled(s, Step(t))
    requires s.calls[t].Registering? || s.calls[t].RegisterAudit? || s.calls[t].Unregistering? || s.calls[t].ReleasingAll?
    ensures OnlyOwn(s, t, Apply(s, Step(t)))
  {
  }

  lemma OwnRequest(s: State, t: Tid)
    requires Enabled(s, Step(t))
    requires s.calls[t].Requesting? || s.calls[t].Deciding? || s.calls[t].Numbered? || s.calls[t].GrantAudit? || s.calls[t].DenyAudit?
    ensures OnlyOwn(s, t, Apply(s, Step(t)))
  {
  }

  lemma OwnRelease(s: State, t: Tid)
    requires Enabled(s, Step(t)) && (s.calls[t].Releasing? || s.calls[t].ReleaseLocked? || s.calls[t].ReleaseAudit?)
    ensures OnlyOwn(s, t, Apply(s, Step(t)))
  {
  }

  lemma OwnPending(s: State, t: Tid, g: GrantId)
    requires Enabled(s, AuditPending(t, g))
    ensures OnlyOwn(s, t, Apply(s, AuditPending(t, g)))
  {
  }

  lemma OwnCall(s: State, a: Action)
    requires Enabled(s, a) && (a.Step? || a.AuditPending?)
    ensures OnlyOwn(s, a.t, Apply(s, a))
  {
    if a.AuditPending? { OwnPending(s, a.t, a.g); }
    else if s.calls[a.t].Registering? || s.calls[a.t].RegisterAudit? || s.calls[a.t].Unregistering? || s.calls[a.t].ReleasingAll? {
      OwnLifecycle(s, a.t);
    } else if s.calls[a.t].Releasing? || s.calls[a.t].ReleaseLocked? || s.calls[a.t].ReleaseAudit? {
      OwnRelease(s, a.t);
    } else {
      OwnRequest(s, a.t);
    }
  }

  /** Thread `t` plays these actions inside its call, and nobody else moves. */
  ghost predicate Alone(s: State, t: Tid, actions: seq<Action>, s': State) {
    && Plays(s, actions, s')
    && (forall i | 0 <= i < |actions| :: actions[i].t == t && (actions[i].Step? || actions[i].AuditPending?))
    && t in s'.calls && s'.calls == s.calls[t := s'.calls[t]]
  }

  lemma AloneOn(s: State, t: Tid, actions: seq<Action>, mid: State, a: Action)
    requires Alone(s, t, actions, mid) && Enabled(mid, a) && a.t == t && (a.Step? || a.AuditPending?)
    ensures Alone(s, t, actions + [a], Apply(mid, a))
  {
    PlaySnoc(s, actions, mid, a);
    OwnCall(mid, a);
  }

  lemma AloneStart(s: State, t: Tid)
    requires t in s.calls
    ensures Alone(s, t, [], s)
  {
  }

  lemma RegisterAlone(s: State, t: Tid, m: ValidatedManifest)
    returns (actions: seq<Action>, s': State)
    requires t in s.calls && s.calls[t] == Registering(m) && s.sh.log.maxEvents >= 1 && NoReaders(s)
    ensures Alone(s, t, actions, s')
    ensures (s'.sh, s'.calls[t]) == (RegisterResult(s.sh, m).0, Returned(RegisterResult(s.sh, m).1))
  {
    AloneStart(s, t);
    AloneOn(s, t, [], s, Step(t));
    actions, s' := [] + [Step(t)], Apply(s, Step(t));
    if s'.calls[t].RegisterAudit? {
      AloneOn(s, t, actions, s', Step(t));
      actions, s' := actions + [Step(t)], Apply(s', Step(t));
    }
  }

  lemma ReleaseAlone(s: State, t: Tid, p: PluginId, g: GrantId)
    returns (actions: seq<Action>, s': State)
    requires t in s.calls && s.calls[t] == Releasing(p, g) && s.sh.log.maxEvents >= 1
    ensures Alone(s, t, actions, s')
    ensures (s'.sh, s'.calls[t]) == (ReleaseResult(s.sh, p, g).0, Returned(ReleaseResult(s.sh, p, g).1))
  {
    AloneStart(s, t);
    AloneOn(s, t, [], s, Step(t));
    actions, s' := [] + [Step(t)], Apply(s, Step(t));
    if s'.calls[t].ReleaseLocked? {
      AloneOn(s, t, actions, s', Step(t));
      actions, s' := actions + [Step(t)], Apply(s', Step(t));
      if s'.calls[t].ReleaseAudit? {
        AloneOn(s, t, actions, s', Step(t));
        actions, s' := actions + [Step(t)], Apply(s', Step(t));
      }
    }
  }

  lemma GrantAlone(s: State, t: Tid, p: PluginId, c: CapabilityKind)
    returns (actions: seq<Action>, s': State)
    requires t in s.calls && s.calls[t] == Requesting(p, c) && s.sh.log.maxEvents >= 1
    ensures Alone(s, t, actions, s')
    ensures (s'.sh, s'.calls[t]) == (GrantResult(s.sh, p, c).0, Returned(GrantResult(s.sh, p, c).1))
  {
    AloneStart(s, t);
    AloneOn(s, t, [], s, Step(t));
    actions, s' := [] + [Step(t)], Apply(s, Step(t));
    if s'.calls[t].Deciding? {
      AloneOn(s, t, actions, s', Step(t));
      actions, s' := actions + [Step(t)], Apply(s', Step(t));
      AloneOn(s, t, actions, s', Step(t));
      actions, s' := actions + [Step(t)], Apply(s', Step(t));
    }
    if !s'.calls[t].Returned? {
      AloneOn(s, t, actions, s', Step(t));
      actions, s' := actions + [Step(t)], Apply(s', Step(t));
    }
  }

  /** `i` of the removed grants have been audited. */
  predicate Auditing(sh: Shared, t: Tid, p: PluginId, order: seq<GrantId>, i: nat, s': State)
    requires sh.log.maxEvents >= 1 && p in sh.plugins && Enumerates(order, sh.plugins[p].grants)
  {
    var grants := sh.plugins[p].grants;
    && i <= |order| && t in s'.calls && s'.calls[t].ReleasingAll? && s'.calls[t].p == p
    && s'.calls[t].pending == (map g | g in grants && g !in order[..i] :: grants[g])
    && s'.sh == RemovePlugin(sh, p).(log := ReleaseAll(sh.log, p, grants, order[..i]))
  }

  lemma AuditNext(sh: Shared, t: Tid, p: PluginId, order: seq<GrantId>, i: nat, s': State)
    requires sh.log.maxEvents >= 1 && p in sh.plugins && Enumerates(order, sh.plugins[p].grants)
    requires Auditing(sh, t, p, order, i, s') && i < |order|
    ensures Enabled(s', AuditPending(t, order[i]))
    ensures Auditing(sh, t, p, order, i + 1, Apply(s', AuditPending(t, order[i])))
  {
    assert order[i] !in order[..i];
    assert order[..i + 1] == order[..i] + [order[i]] && order[..i + 1][..i] == order[..i];
  }

  lemma UnregisterAlone(s: State, t: Tid, p: PluginId, order: seq<GrantId>)
    returns (actions: seq<Action>, s': State)
    requires t in s.calls && s.calls[t] == Unregistering(p) && s.sh.log.maxEvents >= 1 && NoReaders(s)
    requires p in s.sh.plugins ==> Enumerates(order, s.sh.plugins[p].grants)
    ensures Alone(s, t, actions, s')
    ensures p in s.sh.plugins ==> (s'.sh, s'.calls[t]) == (Unregistered(s.sh, p, order), Returned(Done))
    ensures p !in s.sh.plugins ==> s' == Goto(s, t, Returned(Failed(PluginNotRegistered(p))))
  {
    AloneStart(s, t);
    AloneOn(s, t, [], s, Step(t));
    actions, s' := [] + [Step(t)], Apply(s, Step(t));
    if p !in s.sh.plugins { return; }
    var i := 0;
    while i < |order|
      invariant 0 <= i <= |order|
      invariant Alone(s, t, actions, s') && Auditing(s.sh, t, p, order, i, s')
    {
      AuditNext(s.sh, t, p, order, i, s');
      AloneOn(s, t, actions, s', AuditPending(t, order[i]));
      actions, s' := actions + [AuditPending(t, order[i])], Apply(s', AuditPending(t, order[i]));
      i := i + 1;
    }
    assert order[..|order|] == order && s'.calls[t].pending == map[];
    AloneOn(s, t, actions, s', Step(t));
    actions, s' := actions + [Step(t)], Apply(s', Step(t));
  }
}
