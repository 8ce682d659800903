/** Privilege tiers and capability kinds (crates/entangle-types/src/{tier,capability}.rs),
    with their audit-log names (crates/entangle-broker/src/broker.rs). */
module Capability {

  datatype Tier = Pure | Sandboxed | Networked | Privileged | Native

  function Rank(t: Tier): nat {
    match t
    case Pure => 1
    case Sandboxed => 2
    case Networked => 3
    case Privileged => 4
    case Native => 5
  }

  function TierOf(n: nat): Tier
    requires 1 <= n <= 5
  {
    if n == 1 then Pure
    else if n == 2 then Sandboxed
    else if n == 3 then Networked
    else if n == 4 then Privileged
    else Native
  }

  datatype StorageScope = PluginScope | SharedScope

  datatype ShareMode = Ro | Rw | RwScoped

  datatype CapabilityKind =
    | ComputeCpu
    | ComputeGpu
    | ComputeNpu
    | StorageLocal(scope: StorageScope)
    | StorageShare(name: string, mode: ShareMode)
    | NetLan
    | NetWan
    | MeshPeer
    | AgentInvoke
    | HostDockerSocket
    | Custom(text: string)

  /** `CapabilityKind::min_tier`. */
  function MinTier(c: CapabilityKind): Tier {
    match c
    case ComputeCpu => Sandboxed
    case ComputeGpu => Networked
    case ComputeNpu => Networked
    case StorageLocal(scope) => if scope.PluginScope? then Pure else Sandboxed
    case StorageShare(_, _) => Privileged
    case NetLan => Networked
    case NetWan => Networked
    case MeshPeer => Privileged
    case AgentInvoke => Sandboxed
    case HostDockerSocket => Native
    case Custom(_) => Pure
  }

  function ScopeSuffix(s: StorageScope): string {
    if s.PluginScope? then "[Plugin]" else "[Shared]"
  }

  function ModeSuffix(m: ShareMode): string {
    match m
    case Ro => "[Ro]"
    case Rw => "[Rw]"
    case RwScoped => "[RwScoped]"
  }

  /** `format_cap`. */
  function FormatCap(c: CapabilityKind): string {
    match c
    case ComputeCpu => "compute.cpu"
    case ComputeGpu => "compute.gpu"
    case ComputeNpu => "compute.npu"
    case StorageLocal(scope) => "storage.local" + ScopeSuffix(scope)
    case StorageShare(name, mode) => "storage.share." + name + ModeSuffix(mode)
    case NetLan => "net.lan"
    case NetWan => "net.wan"
    case MeshPeer => "mesh.peer"
    case AgentInvoke => "agent.invoke"
    case HostDockerSocket => "host.docker-socket"
    case Custom(s) => "custom." + s
  }

  /** A mode suffix is recognised by its last characters, whatever precedes it. */
  lemma ModeSuffixUnique(a: string, m: ShareMode, b: string, n: ShareMode)
    requires a + ModeSuffix(m) == b + ModeSuffix(n)
    ensures m == n && a == b
  {
    var s := a + ModeSuffix(m);
    var t := b + ModeSuffix(n);
    assert s[|s| - 2] == ModeSuffix(m)[|ModeSuffix(m)| - 2];
    assert t[|t| - 2] == ModeSuffix(n)[|ModeSuffix(n)| - 2];
    assert s[..|s| - |ModeSuffix(m)|] == a;
    assert t[..|t| - |ModeSuffix(n)|] == b;
  }

  /** The first characters of a name tell the parameterised kinds from the rest. */
  lemma NamePrefix(c: CapabilityKind)
    ensures |FormatCap(c)| >= 7
    ensures FormatCap(c)[0] == 'c' && FormatCap(c)[1] == 'u' <==> c.Custom?
    ensures FormatCap(c)[0] == 's' <==> c.StorageLocal? || c.StorageShare?
    ensures c.StorageLocal? || c.StorageShare? ==> (FormatCap(c)[8] == 'l' <==> c.StorageLocal?)
  {
    match c
    case StorageShare(name, mode) =>
      var s := FormatCap(c);
      assert s == "storage.share." + (name + ModeSuffix(mode));
      assert s[0] == 's' && s[8] == 's';
    case StorageLocal(scope) =>
      assert FormatCap(c)[0] == 's' && FormatCap(c)[8] == 'l';
    case Custom(s) =>
      assert FormatCap(c)[0] == 'c' && FormatCap(c)[1] == 'u';
    case _ =>
  }

  /** The audit name determines the capability, so an audit record, and the
      surface a biscuit must grant, identify exactly one capability. */
  lemma FormatCapInjective(c: CapabilityKind, d: CapabilityKind)
    requires FormatCap(c) == FormatCap(d)
    ensures c == d
  {
    NamePrefix(c);
    NamePrefix(d);
    match c
    case Custom(s) =>
      assert FormatCap(c)[7..] == s && FormatCap(d)[7..] == d.text;
    case StorageShare(name, mode) =>
      var x, y := name + ModeSuffix(mode), d.name + ModeSuffix(d.mode);
      assert FormatCap(c) == "storage.share." + x && FormatCap(d) == "storage.share." + y;
      assert FormatCap(c)[14..] == x && FormatCap(d)[14..] == y;
      ModeSuffixUnique(name, mode, d.name, d.mode);
    case StorageLocal(scope) =>
      assert FormatCap(c)[14] == ScopeSuffix(scope)[1] && FormatCap(d)[14] == ScopeSuffix(d.scope)[1];
    case _ =>
      DistinctConstants(c, d);
  }

  lemma DistinctConstants(c: CapabilityKind, d: CapabilityKind)
    requires !(c.Custom? || c.StorageLocal? || c.StorageShare?)
    requires !(d.Custom? || d.StorageLocal? || d.StorageShare?)
    requires FormatCap(c) == FormatCap(d)
    ensures c == d
  {
    var s, t := FormatCap(c), FormatCap(d);
    assert |s| == |t| && s[0] == t[0] && s[4] == t[4];
    if |s| == 11 { assert s[8] == t[8]; }
  }
}
