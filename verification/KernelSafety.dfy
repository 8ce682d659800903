/** What every interleaving of loads, unloads, invocations and plugin requests
    keeps between the kernel table and the broker registry. */
module KernelSafety {
  import opened Common
  import opened Manifest
  import opened Audit
  import B = Broker
  import BS = BrokerSafety
  import opened Kernel

  // ── Coupling of a kernel thread with its broker call ───────────────────────

  predicate Unregisters(b: B.Call, p: PluginId) {
    b == B.Unregistering(p) || (b.ReleasingAll? && b.p == p) || b == B.Returned(B.Done)
  }

  predicate Fits(c: Call, b: B.Call) {
    match c
    case LoadRegister(m, _) =>
      b == B.Registering(m) || b == B.RegisterAudit(m) || b == B.Returned(B.Done) || (b.Returned? && b.reply.Failed?)
    case LoadRollback(m) => Unregisters(b, m.pluginId)
    case UnloadUnregister(p) => Unregisters(b, p)
    case HostCall => !b.Registering? && !b.RegisterAudit? && !b.Unregistering? && !b.ReleasingAll?
    case _ => false
  }

  predicate Coupled(s: State, t: Tid) {
    && (t in s.broker.calls <==> t in s.calls && CallsBroker(s.calls[t]))
    && (t in s.broker.calls ==> Fits(s.calls[t], s.broker.calls[t]))
    && (t in s.calls && (s.calls[t].LoadCheck? || s.calls[t].LoadVerify?) ==> Sound(s.calls[t].m))
  }

  // ── Ownership of registered ids that are not in the kernel table ───────────

  predicate Owns(s: State, t: Tid, p: PluginId) {
    && t in s.calls
    && match s.calls[t]
       case LoadRegister(m, _) =>
         m.pluginId == p && t in s.broker.calls && (s.broker.calls[t].RegisterAudit? || s.broker.calls[t] == B.Returned(B.Done))
       case LoadCompile(m, _) => m.pluginId == p
       case LoadInsert(m, _) => m.pluginId == p
       case LoadRollback(m) => m.pluginId == p && t in s.broker.calls && s.broker.calls[t].Unregistering?
       case UnloadUnregister(q) => q == p && t in s.broker.calls && s.broker.calls[t].Unregistering?
       case _ => false
  }

  predicate Registered(s: State, p: PluginId) { p in s.broker.sh.plugins }

  /** Every loaded id is registered, every other registered id has exactly one
      owner, and every thread agrees with its broker call. */
  ghost predicate TablesInv(s: State) {
    && (forall t :: Coupled(s, t))
    && (forall p | p in s.plugins :: Registered(s, p))
    && (forall t, p | Owns(s, t, p) :: Registered(s, p) && p !in s.plugins)
    && (forall t, u, p | Owns(s, t, p) && Owns(s, u, p) :: t == u)
    && (forall p | Registered(s, p) && p !in s.plugins :: Owned(s, p))
  }

  ghost predicate Owned(s: State, p: PluginId) { exists t :: Owns(s, t, p) }

  ghost predicate Inv(s: State) { BS.Inv(s.broker) && TablesInv(s) }

  lemma InitInv(s: State)
    requires Init(s)
    ensures Inv(s)
  {
    BS.InitInv(s.broker);
  }

  // ── What a step does to the two tables ─────────────────────────────────────

  /** Only thread `t` moved between `s` and `s'`. */
  ghost predicate OnlyThread(s: State, t: Tid, s': State) {
    forall u | u != t :: SameThread(s, u, s')
  }

  predicate SameThread(s: State, u: Tid, s': State) {
    && (u in s.calls <==> u in s'.calls) && (u in s.calls ==> s.calls[u] == s'.calls[u])
    && (u in s.broker.calls <==> u in s'.broker.calls)
    && (u in s.broker.calls ==> s.broker.calls[u] == s'.broker.calls[u])
  }

  lemma OthersKept(s: State, t: Tid, s': State)
    requires OnlyThread(s, t, s') && TablesInv(s) && Coupled(s', t)
    ensures forall u, p | u != t :: Owns(s', u, p) <==> Owns(s, u, p)
    ensures forall u :: Coupled(s', u)
  {
    forall u, p | u != t ensures Owns(s', u, p) <==> Owns(s, u, p) { assert SameThread(s, u, s'); }
    forall u ensures Coupled(s', u) {
      if u != t { assert SameThread(s, u, s') && Coupled(s, u); }
    }
  }

  /** Both tables and what `t` owns stay as they are. */
  lemma Keeps(s: State, t: Tid, s': State)
    requires TablesInv(s) && OnlyThread(s, t, s') && Coupled(s', t)
    requires s'.plugins == s.plugins && s'.broker.sh.plugins.Keys == s.broker.sh.plugins.Keys
    requires forall p :: Owns(s', t, p) <==> Owns(s, t, p)
    ensures TablesInv(s')
  {
    OthersKept(s, t, s');
    forall p | Registered(s', p) && p !in s'.plugins ensures Owned(s', p) {
      assert Registered(s, p);
      var u :| Owns(s, u, p);
      assert Owns(s', u, p);
    }
  }

  /** Thread `t` gains `p`: registered now, or taken out of the kernel table. */
  lemma Gains(s: State, t: Tid, p: PluginId, s': State)
    requires TablesInv(s) && OnlyThread(s, t, s') && Coupled(s', t)
    requires s'.broker.sh.plugins.Keys == s.broker.sh.plugins.Keys + {p} && s'.plugins.Keys == s.plugins.Keys - {p}
    requires Registered(s, p) ==> p in s.plugins
    requires forall q :: Owns(s', t, q) <==> q == p
    requires forall q :: !Owns(s, t, q)
    ensures TablesInv(s')
  {
    OthersKept(s, t, s');
    forall q | q in s'.plugins ensures Registered(s', q) { assert q in s.plugins; assert Registered(s, q); }
    forall u, q | Owns(s', u, q) ensures Registered(s', q) && q !in s'.plugins && (q == p ==> u == t) {
      if u != t { assert Owns(s, u, q); }
    }
    forall q | Registered(s', q) && q !in s'.plugins ensures Owned(s', q) {
      if q == p { assert Owns(s', t, p); }
      else {
        assert Registered(s, q);
        var u :| Owns(s, u, q);
        assert Owns(s', u, q);
      }
    }
  }

  /** Thread `t` gives up `p`: unregistered, or put into the kernel table. */
  lemma Yields(s: State, t: Tid, p: PluginId, s': State)
    requires TablesInv(s) && OnlyThread(s, t, s') && Coupled(s', t)
    requires Owns(s, t, p) && forall q :: !Owns(s', t, q)
    requires || (s'.plugins == s.plugins && s'.broker.sh.plugins.Keys == s.broker.sh.plugins.Keys - {p})
             || (s'.plugins.Keys == s.plugins.Keys + {p} && s'.broker.sh.plugins.Keys == s.broker.sh.plugins.Keys)
    ensures TablesInv(s')
  {
    OthersKept(s, t, s');
    forall q | q in s'.plugins ensures Registered(s', q) {
      if q in s.plugins { assert Registered(s, q); }
    }
    forall u, q | Owns(s', u, q) ensures Registered(s', q) && q !in s'.plugins {
      assert Owns(s, u, q) && u != t;
      assert q != p;
    }
    forall q | Registered(s', q) && q !in s'.plugins ensures Owned(s', q) {
      assert Registered(s, q);
      var u :| Owns(s, u, q);
      assert Owns(s', u, q);
    }
  }

  // ── Broker steps ───────────────────────────────────────────────────────────

  /** The effect of a broker step of `t` on the registered ids and on the calls. */
  predicate Moves(b: B.State, t: Tid, b': B.State) {
    && t in b.calls && t in b'.calls && b'.calls == b.calls[t := b'.calls[t]]
    && var c, c' := b.calls[t], b'.calls[t];
       if c.Registering? && c'.RegisterAudit? then
         c.m.pluginId !in b.sh.plugins && b'.sh.plugins.Keys == b.sh.plugins.Keys + {c.m.pluginId}
       else if c.Unregistering? && c'.ReleasingAll? then
         c.p in b.sh.plugins && b'.sh.plugins.Keys == b.sh.plugins.Keys - {c.p}
       else b'.sh.plugins.Keys == b.sh.plugins.Keys
  }

  /** How the broker call a kernel thread makes can go on. */
  predicate GoesOn(b: B.State, c: B.Call, c': B.Call) {
    && (c.Registering? ==> c' == B.RegisterAudit(c.m) || (c'.Returned? && c'.reply.Failed?))
    && (c.RegisterAudit? ==> c' == B.Returned(B.Done))
    && (c.Unregistering? ==> if c.p in b.sh.plugins then c'.ReleasingAll? && c'.p == c.p else c'.Returned?)
    && (c.ReleasingAll? ==> (c'.ReleasingAll? && c'.p == c.p) || c' == B.Returned(B.Done))
    && !c.Returned?
    && !c'.Registering? && !c'.Unregistering?
    && (c'.RegisterAudit? ==> c.Registering?)
    && (c'.ReleasingAll? ==> c.Unregistering? || c.ReleasingAll?)
  }

  lemma BrokerMoves(b: B.State, a: B.Action)
    requires B.Enabled(b, a) && (a.Step? || a.AuditPending?)
    ensures Moves(b, a.t, B.Apply(b, a))
  {
  }

  lemma BrokerGoesOn(b: B.State, a: B.Action)
    requires B.Enabled(b, a) && (a.Step? || a.AuditPending?)
    ensures a.t in B.Apply(b, a).calls && GoesOn(b, b.calls[a.t], B.Apply(b, a).calls[a.t])
  {
  }

  lemma MoveTables(s: State, t: Tid, b': B.State)
    requires TablesInv(s) && t in s.calls && CallsBroker(s.calls[t])
    requires Moves(s.broker, t, b') && GoesOn(s.broker, s.broker.calls[t], b'.calls[t])
    ensures TablesInv(s.(broker := b'))
  {
    var s' := s.(broker := b');
    var c, b, d := s.calls[t], s.broker.calls[t], b'.calls[t];
    assert Coupled(s, t);
    assert OnlyThread(s, t, s');
    if b.Unregistering? { assert Owns(s, t, b.p) && Registered(s, b.p); }
    assert Coupled(s', t);
    if b.Registering? && d.RegisterAudit? {
      Gains(s, t, b.m.pluginId, s');
    } else if b.Unregistering? {
      Yields(s, t, b.p, s');
    } else {
      Keeps(s, t, s');
    }
  }

  // ── Kernel steps ───────────────────────────────────────────────────────────

  /** A load's step before the insert keeps both tables and what the thread owns. */
  lemma LoadOwns(s: State, t: Tid, ok: bool)
    requires Coupled(s, t) && Enabled(s, Local(t, ok)) && InLoad(s.calls[t]) && !s.calls[t].LoadInsert?
    ensures var s' := StepLoad(s, t, ok);
            && OnlyThread(s, t, s') && Coupled(s', t)
            && s'.plugins == s.plugins && s'.broker.sh == s.broker.sh
            && forall p :: Owns(s', t, p) <==> Owns(s, t, p)
  {
  }

  lemma LoadTables(s: State, t: Tid, ok: bool)
    requires TablesInv(s) && Enabled(s, Local(t, ok)) && InLoad(s.calls[t])
    ensures TablesInv(StepLoad(s, t, ok))
  {
    assert Coupled(s, t);
    if s.calls[t].LoadInsert? {
      InsertTables(s, t, ok);
    } else {
      LoadOwns(s, t, ok);
      Keeps(s, t, StepLoad(s, t, ok));
    }
  }

  lemma InsertTables(s: State, t: Tid, ok: bool)
    requires TablesInv(s) && Enabled(s, Local(t, ok)) && s.calls[t].LoadInsert?
    ensures TablesInv(StepLoad(s, t, ok))
  {
    var s' := StepLoad(s, t, ok);
    assert Coupled(s, t);
    assert OnlyThread(s, t, s');
    assert Owns(s, t, s.calls[t].m.pluginId);
    Yields(s, t, s.calls[t].m.pluginId, s');
  }

  lemma OtherTables(s: State, t: Tid, ok: bool)
    requires TablesInv(s) && Enabled(s, Local(t, ok)) && !InLoad(s.calls[t])
    ensures TablesInv(StepOther(s, t, ok))
  {
    var s' := StepOther(s, t, ok);
    var c := s.calls[t];
    assert Coupled(s, t);
    assert OnlyThread(s, t, s');
    if c.UnloadRemove? && c.p in s.plugins {
      assert Registered(s, c.p);
      Gains(s, t, c.p, s');
    } else {
      Keeps(s, t, s');
    }
  }

  lemma EdgeTables(s: State, a: Action)
    requires TablesInv(s) && Enabled(s, a) && (a.Start? || a.StartHost? || a.Leave?)
    ensures TablesInv(Apply(s, a))
  {
    var s' := Apply(s, a);
    assert Coupled(s, a.t);
    assert OnlyThread(s, a.t, s');
    Keeps(s, a.t, s');
  }

  lemma TablesStep(s: State, a: Action)
    requires TablesInv(s) && Enabled(s, a)
    ensures TablesInv(Apply(s, a))
  {
    match a
    case InBroker(t, move) =>
      BrokerMoves(s.broker, move);
      BrokerGoesOn(s.broker, move);
      MoveTables(s, t, B.Apply(s.broker, move));
    case Local(t, ok) => if InLoad(s.calls[t]) { LoadTables(s, t, ok); } else { OtherTables(s, t, ok); }
    case _ => EdgeTables(s, a);
  }

  /** What a kernel step is to the broker. */
  function BrokerActions(s: State, a: Action): Option<B.Action>
    requires Enabled(s, a)
  {
    match a
    case Start(_, _) => None
    case StartHost(t, request) => Some(B.Begin(t, request))
    case InBroker(_, move) => Some(move)
    case Leave(_) => None
    case Local(t, ok) =>
      match s.calls[t]
      case LoadVerify(m, _) => if ok then Some(B.Begin(t, B.Registering(m))) else None
      case LoadCompile(m, _) => if ok then None else Some(B.Begin(t, B.Unregistering(m.pluginId)))
      case UnloadRemove(p) => if p in s.plugins then Some(B.Begin(t, B.Unregistering(p))) else None
      case LoadRegister(_, _) => Some(B.End(t))
      case LoadRollback(_) => Some(B.End(t))
      case UnloadUnregister(_) => Some(B.End(t))
      case HostCall => Some(B.End(t))
      case _ => None
  }

  /** Kernel runs contain broker runs: each kernel step is at most one broker step. */
  lemma BrokerStep(s: State, a: Action)
    requires TablesInv(s) && Enabled(s, a)
    ensures match BrokerActions(s, a)
            case None => Apply(s, a).broker == s.broker
            case Some(b) => B.Enabled(s.broker, b) && Apply(s, a).broker == B.Apply(s.broker, b)
  {
    assert Coupled(s, a.t);
  }

  lemma StepInv(s: State, a: Action)
    requires Inv(s) && Enabled(s, a)
    ensures Inv(Apply(s, a)) && Apply(s, a).broker.sh.ceiling == s.broker.sh.ceiling
  {
    TablesStep(s, a);
    BrokerStep(s, a);
    if BrokerActions(s, a).Some? {
      BS.StepInv(s.broker, BrokerActions(s, a).value);
      BS.CeilingKept(s.broker, BrokerActions(s, a).value);
    }
  }

  /** The invariant holds all along, under the ceiling the daemon started with. */
  lemma {:induction false} RunInv(states: seq<State>, actions: seq<Action>, i: nat)
    requires IsRun(states, actions) && i < |states|
    ensures Inv(states[i]) && states[i].broker.sh.ceiling == states[0].broker.sh.ceiling
  {
    if i == 0 {
      InitInv(states[0]);
    } else {
      RunInv(states, actions, i - 1);
      StepInv(states[i - 1], actions[i - 1]);
    }
  }

  // ── Theorems over whole runs ───────────────────────────────────────────────

  /** In every interleaving: a loaded id is registered; every other registered
      id is owned by exactly one load or unload in flight. */
  lemma {:induction false} TablesAgree(states: seq<State>, actions: seq<Action>, i: nat, p: PluginId)
    requires IsRun(states, actions) && i < |states|
    ensures p in states[i].plugins ==> Registered(states[i], p) && !Owned(states[i], p)
    ensures Registered(states[i], p) && p !in states[i].plugins ==>
              exists t :: Owns(states[i], t, p) && forall u | Owns(states[i], u, p) :: u == t
    ensures Owned(states[i], p) ==> Registered(states[i], p)
  {
    RunInv(states, actions, i);
    var s := states[i];
    if Registered(s, p) && p !in s.plugins {
      assert Owned(s, p);
      var t :| Owns(s, t, p);
      assert forall u | Owns(s, u, p) :: u == t;
    }
  }

  /** The `Occupied` arm of the final insert is unreachable: a load that gets
      that far finds its slot vacant and succeeds. */
  lemma {:induction false} SlotIsVacant(states: seq<State>, actions: seq<Action>, i: nat, t: Tid, ok: bool)
    requires IsRun(states, actions) && i < |states|
    requires t in states[i].calls && states[i].calls[t].LoadInsert?
    ensures var id := states[i].calls[t].m.pluginId;
            && id !in states[i].plugins
            && Enabled(states[i], Local(t, ok))
            && Apply(states[i], Local(t, ok)).calls[t] == Finished(Loaded(id))
  {
    RunInv(states, actions, i);
    assert Owns(states[i], t, states[i].calls[t].m.pluginId);
  }

  /** The broker never refuses an unload's or a rollback's unregistration. */
  lemma {:induction false} UnregisterNeverFails(states: seq<State>, actions: seq<Action>, i: nat, t: Tid)
    requires IsRun(states, actions) && i < |states| && t in states[i].calls
    requires states[i].calls[t].UnloadUnregister? || states[i].calls[t].LoadRollback?
    ensures t in states[i].broker.calls
    ensures states[i].broker.calls[t].Returned? ==> states[i].broker.calls[t].reply == B.Done
  {
    RunInv(states, actions, i);
    assert Coupled(states[i], t);
  }

  predicate NoLifecycleCall(s: State) {
    forall t | t in s.calls :: s.calls[t].Finished? || s.calls[t].HostCall? || s.calls[t].InvokeLookup? || s.calls[t].InvokeRunning?
  }

  /** With no load or unload in flight the two key sets are equal. */
  lemma {:induction false} KeySetsEqualWhenIdle(states: seq<State>, actions: seq<Action>, i: nat)
    requires IsRun(states, actions) && i < |states| && NoLifecycleCall(states[i])
    ensures states[i].plugins.Keys == states[i].broker.sh.plugins.Keys
  {
    RunInv(states, actions, i);
    var s := states[i];
    forall p ensures !Owned(s, p) { }
    forall p | p in s.broker.sh.plugins.Keys ensures p in s.plugins { assert Registered(s, p); }
    forall p | p in s.plugins ensures p in s.broker.sh.plugins.Keys { assert Registered(s, p); }
  }

  /** The broker's own guarantees hold in every state of every kernel run. */
  lemma {:induction false} BrokerGuaranteesHold(states: seq<State>, actions: seq<Action>, i: nat)
    requires IsRun(states, actions) && i < |states|
    ensures BS.Inv(states[i].broker)
  {
    RunInv(states, actions, i);
  }

  /** What a call reports is true when it reports it: success only as it puts
      its own record into the vacant slot, `AlreadyLoaded` only of a loaded id,
      `NotLoaded` only of one that is not; a load that fails leaves the kernel
      table alone, and an unload never fails once it found its plugin. */
  predicate ReplyTrue(s: State, s': State, c: Call, r: Reply) {
    match r
    case Loaded(id) => c.LoadInsert? && id == c.m.pluginId && id !in s.plugins && s'.plugins == s.plugins[id := LoadedRecord(c.m.effective, c.art)]
    case LoadFailed(e) =>
      && InLoad(c) && s'.plugins == s.plugins
      && (e.AlreadyLoaded? ==> e.id in s.plugins) && (e.CompileFailed? ==> c.LoadRollback?)
    case Unloaded => c.UnloadUnregister?
    case UnloadFailed(_) => false
    case NotLoaded(p) => p !in s.plugins && s'.plugins == s.plugins
    case Invoked => c.InvokeRunning? && s'.plugins == s.plugins
    case HostDone => c.HostCall? && s'.plugins == s.plugins
  }

  lemma ReplyStep(s: State, t: Tid, ok: bool)
    requires Enabled(s, Local(t, ok)) && Apply(s, Local(t, ok)).calls[t].Finished?
    requires s.calls[t].UnloadUnregister? ==> s.broker.calls[t].reply == B.Done
    ensures ReplyTrue(s, Apply(s, Local(t, ok)), s.calls[t], Apply(s, Local(t, ok)).calls[t].reply)
  {
  }

  lemma FinishesItself(s: State, a: Action, t: Tid)
    requires Enabled(s, a) && t in s.calls && !s.calls[t].Finished?
    requires t in Apply(s, a).calls && Apply(s, a).calls[t].Finished?
    ensures a.Local? && a.t == t
  {
  }

  lemma {:induction false} RepliesAreTrue(states: seq<State>, actions: seq<Action>, i: nat, t: Tid)
    requires IsRun(states, actions) && i < |actions| && t in states[i].calls && !states[i].calls[t].Finished?
    requires t in states[i + 1].calls && states[i + 1].calls[t].Finished?
    ensures ReplyTrue(states[i], states[i + 1], states[i].calls[t], states[i + 1].calls[t].reply)
    ensures states[i + 1].calls[t].reply.Loaded? ==> Registered(states[i + 1], states[i + 1].calls[t].reply.id)
  {
    FinishesItself(states[i], actions[i], t);
    if states[i].calls[t].UnloadUnregister? { UnregisterNeverFails(states, actions, i, t); }
    ReplyStep(states[i], t, actions[i].ok);
    if states[i + 1].calls[t].reply.Loaded? { TablesAgree(states, actions, i + 1, states[i + 1].calls[t].reply.id); }
  }

  // ── Progress ───────────────────────────────────────────────────────────────

  ghost predicate CanMove(s: State, t: Tid) {
    Enabled(s, Leave(t)) || Enabled(s, Local(t, true)) || exists move :: Enabled(s, InBroker(t, move))
  }

  /** The two locks never deadlock: a call that cannot move is registering or
      unregistering in the broker and waits for a reader that can. */
  lemma {:induction false} NoDeadlock(states: seq<State>, actions: seq<Action>, i: nat, t: Tid)
    requires IsRun(states, actions) && i < |states| && t in states[i].calls
    ensures var s := states[i];
            CanMove(s, t) || exists u :: BS.WaitsFor(s.broker, t, u) && CanMove(s, u)
  {
    RunInv(states, actions, i);
    var s := states[i];
    assert Coupled(s, t);
    if t in s.broker.calls {
      BS.MovesOrWaits(s.broker, t);
      if BS.CanMove(s.broker, t) {
        BrokerCallMoves(s, t);
      } else {
        var u :| BS.WaitsFor(s.broker, t, u) && BS.CanMove(s.broker, u);
        assert Coupled(s, u);
        BrokerCallMoves(s, u);
      }
    }
  }

  lemma BrokerCallMoves(s: State, t: Tid)
    requires s.broker.sh.log.maxEvents >= 1 && t in s.calls && Coupled(s, t) && t in s.broker.calls && BS.CanMove(s.broker, t)
    ensures CanMove(s, t)
  {
    if B.Enabled(s.broker, B.Step(t)) {
      assert Enabled(s, InBroker(t, B.Step(t)));
    } else if B.Enabled(s.broker, B.End(t)) {
      assert Enabled(s, Local(t, true));
    } else {
      var g :| B.Enabled(s.broker, B.AuditPending(t, g));
      assert Enabled(s, InBroker(t, B.AuditPending(t, g)));
    }
  }
}
