/** The kernel's plugin lifecycle over the broker (crates/entangle-runtime/src/kernel.rs).

    The kernel table and the broker registry sit behind two locks that are never
    held together. A step of a kernel thread is one critical section on the
    kernel table, one local decision, or one step of its broker call. */
module Kernel {
  import opened Common
  import opened Capability
  import opened Manifest
  import opened Audit
  import B = Broker

  type Tid = B.Tid

  type Artifact = Bytes

  datatype LoadedRecord = LoadedRecord(effective: Tier, artifact: Artifact)

  datatype LoadError =
    | AlreadyLoaded(id: PluginId)
    | SignatureRefused
    | BrokerRefused(e: B.BrokerError)
    | CompileFailed

  datatype Reply =
    | Loaded(id: PluginId)
    | LoadFailed(e: LoadError)
    | Unloaded
    | UnloadFailed(error: B.BrokerError)
    | NotLoaded(id: PluginId)
    | Invoked
    | HostDone

  datatype Call =
    | LoadCheck(m: ValidatedManifest, art: Artifact)
    | LoadVerify(m: ValidatedManifest, art: Artifact)
    | LoadRegister(m: ValidatedManifest, art: Artifact)
    | LoadCompile(m: ValidatedManifest, art: Artifact)
    | LoadRollback(m: ValidatedManifest)
    | LoadInsert(m: ValidatedManifest, art: Artifact)
    | UnloadRemove(p: PluginId)
    | UnloadUnregister(p: PluginId)
    | InvokeLookup(p: PluginId)
    | InvokeRunning(p: PluginId, record: LoadedRecord)
    | HostCall
    | Finished(reply: Reply)

  datatype State = State(plugins: map<PluginId, LoadedRecord>, broker: B.State, calls: map<Tid, Call>)

  /** `ok` is the outcome of the signature and publisher checks, or of compilation. */
  datatype Action =
    | Start(t: Tid, call: Call)
    | StartHost(t: Tid, request: B.Call)
    | Local(t: Tid, ok: bool)
    | InBroker(t: Tid, move: B.Action)
    | Leave(t: Tid)

  predicate Starts(c: Call) {
    || (c.LoadCheck? && Sound(c.m))
    || c.UnloadRemove? || c.InvokeLookup?
  }

  /** The thread is inside a broker call it made. */
  predicate CallsBroker(c: Call) {
    c.LoadRegister? || c.LoadRollback? || c.UnloadUnregister? || c.HostCall?
  }

  predicate BrokerReturned(s: State, t: Tid) { t in s.broker.calls && s.broker.calls[t].Returned? }

  predicate Enabled(s: State, a: Action) {
    && s.broker.sh.log.maxEvents >= 1
    && match a
       case Start(t, call) => t !in s.calls && Starts(call)
       case StartHost(t, request) => t !in s.calls && (request.Requesting? || request.Releasing?)
       case Leave(t) => t in s.calls && s.calls[t].Finished?
       case InBroker(t, move) =>
         && t in s.calls && CallsBroker(s.calls[t])
         && move.t == t && (move.Step? || move.AuditPending?) && B.Enabled(s.broker, move)
       case Local(t, ok) =>
         && t in s.calls && !s.calls[t].Finished?
         && (CallsBroker(s.calls[t]) ==> BrokerReturned(s, t))
  }

  function Goto(s: State, t: Tid, c: Call): State { s.(calls := s.calls[t := c]) }

  function Finish(s: State, t: Tid, r: Reply): State { Goto(s, t, Finished(r)) }

  /** Enter a broker call. */
  function Enter(s: State, t: Tid, c: Call, request: B.Call): State {
    Goto(s.(broker := B.Goto(s.broker, t, request)), t, c)
  }

  /** Come back from a broker call. */
  function Return(s: State, t: Tid, c: Call): State {
    Goto(s.(broker := s.broker.(calls := s.broker.calls - {t})), t, c)
  }

  function StepLoad(s: State, t: Tid, ok: bool): State
    requires Enabled(s, Local(t, ok))
  {
    match s.calls[t]
    case LoadCheck(m, art) =>
      if m.pluginId in s.plugins then Finish(s, t, LoadFailed(AlreadyLoaded(m.pluginId)))
      else Goto(s, t, LoadVerify(m, art))
    case LoadVerify(m, art) =>
      if ok then Enter(s, t, LoadRegister(m, art), B.Registering(m))
      else Finish(s, t, LoadFailed(SignatureRefused))
    case LoadRegister(m, art) =>
      (match s.broker.calls[t].reply
       case Failed(e) => Return(s, t, Finished(LoadFailed(BrokerRefused(e))))
       case _ => Return(s, t, LoadCompile(m, art)))
    case LoadCompile(m, art) =>
      if ok then Goto(s, t, LoadInsert(m, art))
      else Enter(s, t, LoadRollback(m), B.Unregistering(m.pluginId))
    case LoadRollback(m) => Return(s, t, Finished(LoadFailed(CompileFailed)))
    case LoadInsert(m, art) =>
      if m.pluginId in s.plugins then Finish(s, t, LoadFailed(AlreadyLoaded(m.pluginId)))
      else Finish(s.(plugins := s.plugins[m.pluginId := LoadedRecord(m.effective, art)]), t, Loaded(m.pluginId))
    case _ => s
  }

  function StepOther(s: State, t: Tid, ok: bool): State
    requires Enabled(s, Local(t, ok))
  {
    match s.calls[t]
    case UnloadRemove(p) =>
      if p !in s.plugins then Finish(s, t, NotLoaded(p))
      else Enter(s.(plugins := s.plugins - {p}), t, UnloadUnregister(p), B.Unregistering(p))
    case UnloadUnregister(p) =>
      (match s.broker.calls[t].reply
       case Failed(e) => Return(s, t, Finished(UnloadFailed(e)))
       case _ => Return(s, t, Finished(Unloaded)))
    case InvokeLookup(p) =>
      if p !in s.plugins then Finish(s, t, NotLoaded(p)) else Goto(s, t, InvokeRunning(p, s.plugins[p]))
    case InvokeRunning(_, _) => Finish(s, t, Invoked)
    case HostCall => Return(s, t, Finished(HostDone))
    case _ => s
  }

  predicate InLoad(c: Call) {
    c.LoadCheck? || c.LoadVerify? || c.LoadRegister? || c.LoadCompile? || c.LoadRollback? || c.LoadInsert?
  }

  function Apply(s: State, a: Action): State
    requires Enabled(s, a)
  {
    match a
    case Start(t, call) => Goto(s, t, call)
    case StartHost(t, request) => Enter(s, t, HostCall, request)
    case Leave(t) => s.(calls := s.calls - {t})
    case InBroker(t, move) => s.(broker := B.Apply(s.broker, move))
    case Local(t, ok) => if InLoad(s.calls[t]) then StepLoad(s, t, ok) else StepOther(s, t, ok)
  }

  predicate Init(s: State) { s.plugins == map[] && s.calls == map[] && B.Init(s.broker) }

  ghost predicate IsRun(states: seq<State>, actions: seq<Action>) {
    && |states| == |actions| + 1
    && Init(states[0])
    && forall i | 0 <= i < |actions| :: Enabled(states[i], actions[i]) && states[i + 1] == Apply(states[i], actions[i])
  }
}
