/** The kernel object (crates/entangle-runtime/src/kernel.rs): load, unload and
    the integrity policies of an invocation, each run to completion. */
module KernelService {
  import opened Common
  import opened Capability
  import opened Manifest
  import opened Audit
  import opened Broker
  import BrokerService
  import K = Kernel

  type PeerId = Bytes

  // ── Integrity policies (crates/entangle-runtime/src/integrity.rs) ──────────

  datatype IntegrityPolicy =
    | NoPolicy
    | TrustedExecutor(allowlist: seq<PeerId>)
    | Deterministic(replicas: byte)
    | SemanticEquivalent
    | Attested

  datatype InvokeError =
    | NotLoaded(id: PluginId)
    | RunFailed
    | ReplicaHashMismatch(replica: nat)
    | InsufficientReplicas(actual: nat)
    | TrustedExecutorRefused
    | NotImplemented
    | IndexPanic                        // `replicas[0]` of an empty list

  /** What the plugin does when it is run for the n-th time on this input. */
  type Behaviour = nat -> Result<Bytes, InvokeError>

  predicate RunsAgree(hash: Bytes -> Bytes, runs: Behaviour, n: nat) {
    forall i | 0 <= i < n :: runs(i).Ok? && runs(0).Ok? && hash(runs(i).value) == hash(runs(0).value)
  }

  /** The k-th of the n runs is the first that fails. */
  predicate FirstFailure(runs: Behaviour, n: nat, k: nat) {
    k < n && runs(k).Err? && forall i | 0 <= i < k :: runs(i).Ok?
  }

  /** All n runs succeed and the k-th is the first whose output hashes differently. */
  predicate FirstDivergence(hash: Bytes -> Bytes, runs: Behaviour, n: nat, k: nat) {
    && 0 < k < n && (forall i | 0 <= i < n :: runs(i).Ok?)
    && hash(runs(k).value) != hash(runs(0).value)
    && forall i | 0 <= i < k :: hash(runs(i).value) == hash(runs(0).value)
  }

  predicate OutputsAgree(hash: Bytes -> Bytes, outs: seq<Bytes>) {
    forall i | 0 <= i < |outs| :: hash(outs[i]) == hash(outs[0])
  }

  /** The first output from `i` on that hashes differently from output 0. */
  function Diverging(hash: Bytes -> Bytes, outs: seq<Bytes>, i: nat): (r: Option<nat>)
    requires i <= |outs|
    ensures r.None? ==> forall j | i <= j < |outs| :: hash(outs[j]) == hash(outs[0])
    ensures r.Some? ==>
              && i <= r.value < |outs| && hash(outs[r.value]) != hash(outs[0])
              && forall j | i <= j < r.value :: hash(outs[j]) == hash(outs[0])
    decreases |outs| - i
  {
    if i == |outs| then None
    else if hash(outs[i]) != hash(outs[0]) then Some(i)
    else Diverging(hash, outs, i + 1)
  }

  /** `verify_deterministic`: the number of outputs is compared as a `u8`. */
  function DeterministicVerdict(hash: Bytes -> Bytes, outs: seq<Bytes>, required: byte): Result<Bytes, InvokeError> {
    if |outs| % 256 < required then Err(InsufficientReplicas(|outs|))
    else if outs == [] then Err(IndexPanic)
    else
      match Diverging(hash, outs, 1)
      case Some(k) => Err(ReplicaHashMismatch(k))
      case None => Ok(outs[0])
  }

  /** Too few outputs are reported exactly when there are too few, if and only
      if the count fits the `u8` or its low byte is enough. */
  lemma InsufficientExactly(hash: Bytes -> Bytes, outs: seq<Bytes>, required: byte)
    ensures (DeterministicVerdict(hash, outs, required) == Err(InsufficientReplicas(|outs|)) <==> |outs| < required)
       <==> (|outs| < 256 || |outs| % 256 >= required)
  {
  }

  /** 256 equal outputs count as none. */
  lemma TruncatedCount(hash: Bytes -> Bytes, out: Bytes)
    ensures DeterministicVerdict(hash, seq(256, _ => out), 1) == Err(InsufficientReplicas(256))
  {
  }

  /** On every count the `u8` holds, an output is returned exactly when there
      are enough, at least one, and all hash alike; it is the first. */
  lemma VerdictOnFittingCount(hash: Bytes -> Bytes, outs: seq<Bytes>, required: byte)
    requires |outs| < 256
    ensures DeterministicVerdict(hash, outs, required).Ok? <==>
              outs != [] && |outs| >= required && OutputsAgree(hash, outs)
    ensures DeterministicVerdict(hash, outs, required).Ok? ==> DeterministicVerdict(hash, outs, required).value == outs[0]
  {
  }

  class Kernel {
    var plugins: map<PluginId, K.LoadedRecord>
    const broker: BrokerService.Service

    ghost predicate Valid()
      reads this, broker, broker.audit
    {
      broker.Valid() && plugins.Keys == broker.plugins.Keys
    }

    constructor (maxTier: Tier, capacity: nat)
      ensures Valid() && plugins == map[] && fresh(broker) && fresh(broker.audit)
    {
      plugins := map[];
      broker := new BrokerService.Service(maxTier, capacity);
    }

    /** `signed` and `compiled` are the outcomes of the signature and publisher
        checks and of compilation. A load that fails leaves both tables as they were. */
    method Load(m: ValidatedManifest, art: K.Artifact, signed: bool, compiled: bool) returns (r: Result<PluginId, K.LoadError>)
      requires Valid()
      modifies this, broker, broker.audit
      ensures Valid()
      ensures r.Ok? <==>
                && m.pluginId !in old(plugins) && signed && compiled && Rank(m.effective) <= Rank(broker.ceiling)
      ensures r.Ok? ==>
                && r.value == m.pluginId
                && plugins == old(plugins)[m.pluginId := K.LoadedRecord(m.effective, art)]
                && broker.plugins == old(broker.plugins)[m.pluginId := PluginRecord(m, map[])]
      ensures r.Err? ==> plugins == old(plugins) && broker.plugins == old(broker.plugins)
      ensures r.Err? ==>
                r.error == if m.pluginId in old(plugins) then K.AlreadyLoaded(m.pluginId)
                           else if !signed then K.SignatureRefused
                           else if Rank(m.effective) > Rank(broker.ceiling)
                           then K.BrokerRefused(TierAboveCeiling(m.effective, broker.ceiling))
                           else K.CompileFailed
      ensures r.Err? && !r.error.CompileFailed? ==> broker.View() == old(broker.View())
      ensures broker.nextGrantId == old(broker.nextGrantId)
    {
      var id := m.pluginId;
      if id in plugins { return Err(K.AlreadyLoaded(id)); }
      if !signed { return Err(K.SignatureRefused); }
      var reply := broker.Register(m);
      if reply.Failed? { return Err(K.BrokerRefused(reply.e)); }
      if !compiled {
        var _, _ := broker.Unregister(id);
        assert broker.plugins == old(broker.plugins);
        return Err(K.CompileFailed);
      }
      if id in plugins { return Err(K.AlreadyLoaded(id)); }
      plugins := plugins[id := K.LoadedRecord(m.effective, art)];
      return Ok(id);
    }

    method Unload(p: PluginId) returns (r: K.Reply)
      requires Valid()
      modifies this, broker, broker.audit
      ensures Valid()
      ensures p in old(plugins) ==> r == K.Unloaded
      ensures p !in old(plugins) ==> r == K.Reply.NotLoaded(p)
      ensures plugins == old(plugins) - {p} && broker.plugins == old(broker.plugins) - {p}
    {
      if p !in plugins { return K.Reply.NotLoaded(p); }
      plugins := plugins - {p};
      var reply, _ := broker.Unregister(p);
      match reply
      case Failed(e) => return K.UnloadFailed(e);
      case _ => return K.Unloaded;
    }

    /** One run of the plugin; `n` counts the runs made so far. */
    method Invoke(p: PluginId, runs: Behaviour, n: nat) returns (r: Result<Bytes, InvokeError>)
      ensures r == if p in plugins then runs(n) else Err(NotLoaded(p))
    {
      if p !in plugins { return Err(NotLoaded(p)); }
      return runs(n);
    }

    static method VerifyDeterministic(hash: Bytes -> Bytes, outs: seq<Bytes>, required: byte) returns (r: Result<Bytes, InvokeError>)
      ensures r == DeterministicVerdict(hash, outs, required)
    {
      if |outs| % 256 < required { return Err(InsufficientReplicas(|outs|)); }
      if outs == [] { return Err(IndexPanic); }
      var i := 1;
      while i < |outs|
        invariant 1 <= i <= |outs|
        invariant Diverging(hash, outs, i) == Diverging(hash, outs, 1)
      {
        if hash(outs[i]) != hash(outs[0]) { return Err(ReplicaHashMismatch(i)); }
        i := i + 1;
      }
      return Ok(outs[0]);
    }

    /** `invoke_with_integrity`. Under `Deterministic` with `n >= 2` replicas an
        output is returned exactly when all `n` runs succeed and hash alike;
        otherwise the error is that of the first run that fails, or names the
        first that diverges. */
    method InvokeWithIntegrity(hash: Bytes -> Bytes, p: PluginId, policy: IntegrityPolicy, peer: PeerId, runs: Behaviour)
      returns (r: Result<Bytes, InvokeError>)
      ensures r.Ok? ==> p in plugins && r == runs(0)
      ensures policy.SemanticEquivalent? || policy.Attested? ==> r == Err(NotImplemented)
      ensures policy.TrustedExecutor? && peer !in policy.allowlist ==> r == Err(TrustedExecutorRefused)
      ensures policy.NoPolicy? || policy.Deterministic? || (policy.TrustedExecutor? && peer in policy.allowlist) ==>
                p !in plugins ==> r == Err(NotLoaded(p))
      ensures policy.NoPolicy? || (policy.TrustedExecutor? && peer in policy.allowlist) ==>
                p in plugins ==> r == runs(0)
      ensures p in plugins && policy.Deterministic? ==>
                var n := Max(1, policy.replicas);
                && (r.Ok? <==> RunsAgree(hash, runs, n))
                && (forall k | FirstFailure(runs, n, k) :: r == Err(runs(k).error))
                && (forall k | FirstDivergence(hash, runs, n, k) :: r == Err(ReplicaHashMismatch(k)))
    {
      match policy
      case NoPolicy => r := Invoke(p, runs, 0);
      case TrustedExecutor(allowlist) =>
        if peer !in allowlist { return Err(TrustedExecutorRefused); }
        r := Invoke(p, runs, 0);
      case Deterministic(replicas) =>
        if replicas == 0 || replicas == 1 {
          r := Invoke(p, runs, 0);
          return;
        }
        var outs: seq<Bytes> := [];
        var k := 0;
        while k < replicas
          invariant 0 <= k == |outs| <= replicas
          invariant k > 0 ==> p in plugins
          invariant forall i | 0 <= i < k :: runs(i) == Ok(outs[i])
        {
          var one := Invoke(p, runs, k);
          if one.Err? { return Err(one.error); }
          outs := outs + [one.value];
          k := k + 1;
        }
        r := VerifyDeterministic(hash, outs, replicas);
        assert forall i | 0 <= i < replicas :: runs(i).value == outs[i];
      case SemanticEquivalent => return Err(NotImplemented);
      case Attested => return Err(NotImplemented);
    }
  }
}
