/** A load or an unload that nobody interferes with, as a run of one thread of
    the kernel machine: it answers what the kernel object answers
    (crates/entangle-runtime/src/kernel.rs). */
module KernelAlone {
  import opened Common
  import opened Capability
  import opened Manifest
  import opened Audit
  import B = Broker
  import Service = BrokerService
  import opened Kernel

  ghost predicate Plays(s: State, actions: seq<Action>, s': State)
    decreases |actions|
  {
    if actions == [] then s == s'
    else Enabled(s, actions[0]) && Plays(Apply(s, actions[0]), actions[1..], s')
  }

  lemma {:induction false} PlaysThen(s: State, first: seq<Action>, mid: State, rest: seq<Action>, s': State)
    requires Plays(s, first, mid) && Plays(mid, rest, s')
    ensures Plays(s, first + rest, s')
    decreases |first|
  {
    if first == [] {
      assert first + rest == rest;
    } else {
      assert (first + rest)[1..] == first[1..] + rest;
      PlaysThen(Apply(s, first[0]), first[1..], mid, rest, s');
    }
  }

  lemma PlayOne(s: State, a: Action)
    requires Enabled(s, a)
    ensures Plays(s, [a], Apply(s, a))
  {
    assert [a][1..] == [];
    assert Plays(Apply(s, a), [], Apply(s, a));
  }

  function Lifted(t: Tid, moves: seq<B.Action>): seq<Action> {
    seq(|moves|, i requires 0 <= i < |moves| => InBroker(t, moves[i]))
  }

  lemma LiftedTail(t: Tid, moves: seq<B.Action>)
    requires moves != []
    ensures Lifted(t, moves)[0] == InBroker(t, moves[0]) && Lifted(t, moves)[1..] == Lifted(t, moves[1..])
  {
  }

  /** What a thread does inside the broker it does inside its kernel call. */
  lemma {:induction false} Lift(s: State, t: Tid, moves: seq<B.Action>, b: B.State)
    requires t in s.calls && CallsBroker(s.calls[t]) && Service.Plays(s.broker, moves, b)
    requires forall i | 0 <= i < |moves| :: moves[i].t == t && (moves[i].Step? || moves[i].AuditPending?)
    ensures Plays(s, Lifted(t, moves), s.(broker := b))
    decreases |moves|
  {
    if moves == [] {
      assert Lifted(t, moves) == [];
    } else {
      LiftedTail(t, moves);
      var next := Apply(s, InBroker(t, moves[0]));
      assert next == s.(broker := B.Apply(s.broker, moves[0]));
      Lift(next, t, moves[1..], b);
    }
  }

  // ── Inside the broker ──────────────────────────────────────────────────────

  lemma NoReadersWith(b: B.State, t: Tid, c: B.Call)
    requires B.NoReaders(b) && !B.HoldsReadLock(c)
    ensures B.NoReaders(b.(calls := b.calls[t := c])) && B.NoReaders(b.(calls := b.calls - {t}))
  {
  }

  /** The thread's broker call is over, with this reply and this registry; nobody else moved. */
  predicate Answered(s: State, t: Tid, b: B.State, reply: B.Reply, plugins: map<PluginId, B.PluginRecord>) {
    && b.calls == s.broker.calls[t := B.Returned(reply)] && b.sh.plugins == plugins
    && b.sh.ceiling == s.broker.sh.ceiling && b.sh.log.maxEvents == s.broker.sh.log.maxEvents
  }

  function RegisterReply(sh: B.Shared, m: ValidatedManifest): B.Reply {
    if Rank(m.effective) > Rank(sh.ceiling) then B.Failed(B.TierAboveCeiling(m.effective, sh.ceiling))
    else if m.pluginId in sh.plugins then B.Failed(B.AlreadyRegistered(m.pluginId))
    else B.Done
  }

  lemma InsideRegister(s: State, t: Tid, m: ValidatedManifest)
    returns (actions: seq<Action>, b: B.State)
    requires t in s.calls && CallsBroker(s.calls[t]) && t in s.broker.calls && s.broker.calls[t] == B.Registering(m)
    requires s.broker.sh.log.maxEvents >= 1 && B.NoReaders(s.broker)
    ensures Plays(s, actions, s.(broker := b))
    ensures var reply := RegisterReply(s.broker.sh, m);
            Answered(s, t, b, reply, if reply == B.Done then s.broker.sh.plugins[m.pluginId := B.PluginRecord(m, map[])] else s.broker.sh.plugins)
  {
    var moves;
    moves, b := Service.RegisterAlone(s.broker, t, m);
    Lift(s, t, moves, b);
    actions := Lifted(t, moves);
    RecordKeepsMax(s.broker.sh.log, B.RegisteredEvent(m));
  }

  lemma {:induction false} SomeOrder(grants: map<GrantId, CapabilityKind>) returns (order: seq<GrantId>)
    ensures Service.Enumerates(order, grants)
  {
    order := [];
    var left := grants.Keys;
    while left != {}
      invariant left <= grants.Keys
      invariant forall i, j | 0 <= i < j < |order| :: order[i] != order[j]
      invariant forall i | 0 <= i < |order| :: order[i] in grants && order[i] !in left
      invariant forall g | g in grants && g !in left :: g in order
      decreases |left|
    {
      var g :| g in left;
      left := left - {g};
      order := order + [g];
    }
  }

  lemma InsideUnregister(s: State, t: Tid, p: PluginId)
    returns (actions: seq<Action>, b: B.State)
    requires t in s.calls && CallsBroker(s.calls[t]) && t in s.broker.calls && s.broker.calls[t] == B.Unregistering(p)
    requires s.broker.sh.log.maxEvents >= 1 && B.NoReaders(s.broker) && p in s.broker.sh.plugins
    ensures Plays(s, actions, s.(broker := b)) && Answered(s, t, b, B.Done, s.broker.sh.plugins - {p})
  {
    var order := SomeOrder(s.broker.sh.plugins[p].grants);
    var moves;
    moves, b := Service.UnregisterAlone(s.broker, t, p, order);
    Lift(s, t, moves, b);
    actions := Lifted(t, moves);
    RecordKeepsMax(Service.ReleaseAll(s.broker.sh.log, p, s.broker.sh.plugins[p].grants, order), PluginUnregistered(p));
  }

  // ── A load ─────────────────────────────────────────────────────────────────

  /** Nobody holds the registry's read lock and the thread is not in the broker. */
  predicate Ready(s: State, t: Tid) {
    && t in s.calls && t !in s.broker.calls
    && s.broker.sh.log.maxEvents >= 1 && B.NoReaders(s.broker)
  }

  lemma CheckAndVerify(s: State, t: Tid, m: ValidatedManifest, art: Artifact, signed: bool)
    returns (actions: seq<Action>, s': State)
    requires Ready(s, t) && s.calls[t] == LoadCheck(m, art)
    ensures Plays(s, actions, s')
    ensures s' == if m.pluginId in s.plugins then Finish(s, t, LoadFailed(AlreadyLoaded(m.pluginId)))
                  else if !signed then Finish(s, t, LoadFailed(SignatureRefused))
                  else Enter(s, t, LoadRegister(m, art), B.Registering(m))
  {
    var first := Apply(s, Local(t, true));
    PlayOne(s, Local(t, true));
    if m.pluginId in s.plugins { return [Local(t, true)], first; }
    PlayOne(first, Local(t, signed));
    s' := Apply(first, Local(t, signed));
    PlaysThen(s, [Local(t, true)], first, [Local(t, signed)], s');
    actions := [Local(t, true)] + [Local(t, signed)];
  }

  /** The state after a load or unload of `t`: its reply and both tables. */
  predicate Ends(s: State, s': State, t: Tid, reply: Reply, plugins: map<PluginId, LoadedRecord>, registered: map<PluginId, B.PluginRecord>) {
    && s'.calls == s.calls[t := Finished(reply)] && s'.broker.calls == s.broker.calls
    && s'.plugins == plugins && s'.broker.sh.plugins == registered
  }

  /** From the broker call to the compilation, or to the broker's refusal. */
  lemma RegisterAndReturn(s: State, t: Tid, m: ValidatedManifest, art: Artifact)
    returns (actions: seq<Action>, s': State)
    requires Ready(s, t)
    ensures var reply := RegisterReply(s.broker.sh, m);
            && Plays(Enter(s, t, LoadRegister(m, art), B.Registering(m)), actions, s')
            && s'.calls == s.calls[t := if reply.Failed? then Finished(LoadFailed(BrokerRefused(reply.e))) else LoadCompile(m, art)]
            && s'.plugins == s.plugins && s'.broker.calls == s.broker.calls && Ready(s', t)
            && s'.broker.sh.plugins
               == if reply == B.Done then s.broker.sh.plugins[m.pluginId := B.PluginRecord(m, map[])] else s.broker.sh.plugins
  {
    var entered := Enter(s, t, LoadRegister(m, art), B.Registering(m));
    NoReadersWith(s.broker, t, B.Registering(m));
    var inside, b := InsideRegister(entered, t, m);
    var back := entered.(broker := b);
    PlayOne(back, Local(t, true));
    s' := Apply(back, Local(t, true));
    PlaysThen(entered, inside, back, [Local(t, true)], s');
    actions := inside + [Local(t, true)];
    assert b.calls - {t} == s.broker.calls;
    assert s'.broker.calls == s.broker.calls;
  }

  lemma Unregistration(s: State, t: Tid, p: PluginId, c: Call)
    returns (actions: seq<Action>, s': State)
    requires Ready(s, t) && p in s.broker.sh.plugins && (c.LoadRollback? || c.UnloadUnregister?)
    ensures Plays(Enter(s, t, c, B.Unregistering(p)), actions, s')
    ensures Ends(s, s', t, if c.LoadRollback? then LoadFailed(CompileFailed) else Unloaded, s.plugins, s.broker.sh.plugins - {p})
  {
    var entered := Enter(s, t, c, B.Unregistering(p));
    NoReadersWith(s.broker, t, B.Unregistering(p));
    var inside, b := InsideUnregister(entered, t, p);
    var back := entered.(broker := b);
    PlayOne(back, Local(t, true));
    s' := Apply(back, Local(t, true));
    PlaysThen(entered, inside, back, [Local(t, true)], s');
    actions := inside + [Local(t, true)];
    assert b.calls - {t} == s.broker.calls;
  }

  lemma CompileAndInsert(s: State, t: Tid, m: ValidatedManifest, art: Artifact, compiled: bool)
    returns (actions: seq<Action>, s': State)
    requires Ready(s, t) && s.calls[t] == LoadCompile(m, art) && m.pluginId in s.broker.sh.plugins && m.pluginId !in s.plugins
    ensures Plays(s, actions, s')
    ensures compiled ==>
              Ends(s, s', t, Loaded(m.pluginId), s.plugins[m.pluginId := LoadedRecord(m.effective, art)], s.broker.sh.plugins)
    ensures !compiled ==> Ends(s, s', t, LoadFailed(CompileFailed), s.plugins, s.broker.sh.plugins - {m.pluginId})
  {
    PlayOne(s, Local(t, compiled));
    var mid := Apply(s, Local(t, compiled));
    var rest;
    if compiled {
      PlayOne(mid, Local(t, true));
      rest, s' := [Local(t, true)], Apply(mid, Local(t, true));
    } else {
      rest, s' := Unregistration(s, t, m.pluginId, LoadRollback(m));
    }
    PlaysThen(s, [Local(t, compiled)], mid, rest, s');
    actions := [Local(t, compiled)] + rest;
  }

  function Refusal(s: State, m: ValidatedManifest, signed: bool): LoadError {
    if m.pluginId in s.plugins then AlreadyLoaded(m.pluginId)
    else if !signed then SignatureRefused
    else if Rank(m.effective) > Rank(s.broker.sh.ceiling) then BrokerRefused(B.TierAboveCeiling(m.effective, s.broker.sh.ceiling))
    else CompileFailed
  }

  /** Up to the compilation, or to an earlier refusal. */
  lemma {:induction false} UpToCompile(s: State, t: Tid, m: ValidatedManifest, art: Artifact, signed: bool)
    returns (actions: seq<Action>, s': State)
    requires Ready(s, t) && s.calls[t] == LoadCheck(m, art) && s.plugins.Keys == s.broker.sh.plugins.Keys
    ensures Plays(s, actions, s') && s'.plugins == s.plugins && s'.broker.calls == s.broker.calls
    ensures if m.pluginId !in s.plugins && signed && Rank(m.effective) <= Rank(s.broker.sh.ceiling) then
              && s'.calls == s.calls[t := LoadCompile(m, art)] && Ready(s', t)
              && s'.broker.sh.plugins == s.broker.sh.plugins[m.pluginId := B.PluginRecord(m, map[])]
            else Ends(s, s', t, LoadFailed(Refusal(s, m, signed)), s.plugins, s.broker.sh.plugins)
  {
    assert m.pluginId in s.plugins <==> m.pluginId in s.broker.sh.plugins;
    actions, s' := CheckAndVerify(s, t, m, art, signed);
    if m.pluginId !in s.plugins && signed {
      var more, mid := RegisterAndReturn(s, t, m, art);
      PlaysThen(s, actions, s', more, mid);
      actions, s' := actions + more, mid;
    }
  }

  /** A load that runs alone with the tables in step succeeds exactly when the
      id is new, the signature holds, the tier is allowed and it compiles; a load
      that fails says why and leaves both tables as they were. */
  lemma {:induction false} LoadAlone(s: State, t: Tid, m: ValidatedManifest, art: Artifact, signed: bool, compiled: bool)
    returns (actions: seq<Action>, s': State)
    requires Ready(s, t) && s.calls[t] == LoadCheck(m, art) && s.plugins.Keys == s.broker.sh.plugins.Keys
    ensures Plays(s, actions, s')
    ensures if m.pluginId !in s.plugins && signed && Rank(m.effective) <= Rank(s.broker.sh.ceiling) && compiled then
              Ends(s, s', t, Loaded(m.pluginId), s.plugins[m.pluginId := LoadedRecord(m.effective, art)],
                   s.broker.sh.plugins[m.pluginId := B.PluginRecord(m, map[])])
            else Ends(s, s', t, LoadFailed(Refusal(s, m, signed)), s.plugins, s.broker.sh.plugins)
  {
    var id := m.pluginId;
    assert id in s.plugins <==> id in s.broker.sh.plugins;
    actions, s' := UpToCompile(s, t, m, art, signed);
    if id !in s.plugins && signed && Rank(m.effective) <= Rank(s.broker.sh.ceiling) {
      var mid := s';
      var more, end := CompileAndInsert(mid, t, m, art, compiled);
      PlaysThen(s, actions, mid, more, end);
      actions, s' := actions + more, end;
      assert s.broker.sh.plugins[id := B.PluginRecord(m, map[])] - {id} == s.broker.sh.plugins;
    }
  }

  /** An unload that runs alone takes a loaded id out of both tables, and
      reports one that is not loaded. */
  lemma {:induction false} UnloadAlone(s: State, t: Tid, p: PluginId)
    returns (actions: seq<Action>, s': State)
    requires Ready(s, t) && s.calls[t] == UnloadRemove(p) && s.plugins.Keys == s.broker.sh.plugins.Keys
    ensures Plays(s, actions, s')
    ensures Ends(s, s', t, if p in s.plugins then Unloaded else NotLoaded(p), s.plugins - {p}, s.broker.sh.plugins - {p})
  {
    assert p in s.plugins <==> p in s.broker.sh.plugins;
    PlayOne(s, Local(t, true));
    actions, s' := [Local(t, true)], Apply(s, Local(t, true));
    if p !in s.plugins {
      assert s.plugins - {p} == s.plugins && s.broker.sh.plugins - {p} == s.broker.sh.plugins;
      return;
    }
    var taken := s.(plugins := s.plugins - {p});
    var more, end := Unregistration(taken, t, p, UnloadUnregister(p));
    PlaysThen(s, actions, s', more, end);
    actions, s' := actions + more, end;
  }
}
