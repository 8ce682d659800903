/** Greedy placement of a task on a worker (crates/entangle-scheduler/src/placement.rs).
    f32 values are extended reals: rounding and the sign of zero are left out. */
module Placement {
  import opened Common
  import opened Order
  import Identity

  type PeerId = Identity.PeerId

  datatype F32 = NaN | PosInf | NegInf | Fin(r: real)

  datatype GpuBackend = Metal | Cuda | Vulkan | Rocm | AnyBackend

  datatype Gpu = Gpu(vram: u64, backend: GpuBackend)

  /** An NPU by its vendor's name. */
  type Npu = string

  datatype ResourceSpec = ResourceSpec(cpuCores: F32, gpu: Option<Gpu>, npu: Option<Npu>, memory: u64, bandwidth: u64)

  datatype WorkerInfo = WorkerInfo(
    peer: PeerId,
    name: string,
    cpuCores: F32,
    memory: u64,
    gpu: Option<Gpu>,
    npu: Option<Npu>,
    bandwidth: u64,
    rttMs: u32,
    load: F32,
    cost: F32)

  // ── Hard constraints ───────────────────────────────────────────────────────

  /** `partial_cmp` says greater or equal; nothing compares with NaN. */
  predicate AtLeast(a: F32, b: F32) {
    match (a, b)
    case (NaN, _) => false
    case (_, NaN) => false
    case (PosInf, _) => true
    case (_, NegInf) => true
    case (Fin(x), Fin(y)) => x >= y
    case _ => false
  }

  function LowerAscii(c: char): char { if 'A' <= c <= 'Z' then c - 'A' + 'a' else c }

  predicate SameIgnoringCase(a: string, b: string) {
    |a| == |b| && forall i | 0 <= i < |a| :: LowerAscii(a[i]) == LowerAscii(b[i])
  }

  predicate BackendMatches(have: GpuBackend, req: GpuBackend) { req.AnyBackend? || have == req }

  predicate Satisfies(w: WorkerInfo, spec: ResourceSpec) {
    && AtLeast(w.cpuCores, spec.cpuCores)
    && w.memory >= spec.memory
    && (spec.gpu.Some? ==>
          w.gpu.Some? && w.gpu.value.vram >= spec.gpu.value.vram && BackendMatches(w.gpu.value.backend, spec.gpu.value.backend))
    && (spec.npu.Some? ==>
          w.npu.Some? && (spec.npu.value == "" || SameIgnoringCase(spec.npu.value, w.npu.value)))
  }

  // ── Score ──────────────────────────────────────────────────────────────────

  function Locality(rttMs: u32): real {
    if rttMs < 5 then 1.0 else if rttMs >= 200 then 0.0 else 1.0 - (rttMs - 5) as real / 195.0
  }

  function Bandwidth(have: u64, need: u64): real {
    if need == 0 then 1.0
    else
      var ratio := have as real / need as real;
      if ratio < 1.0 then ratio else 1.0
  }

  function Clamp01(x: real): real { if x < 0.0 then 0.0 else if x > 1.0 then 1.0 else x }

  function LoadTerm(load: F32): real { if load.Fin? then Clamp01(1.0 - load.r) else 0.0 }

  /** `cost.max(0.0)`: NaN gives the other operand. */
  function CostTerm(cost: F32): F32 {
    match cost
    case NaN => Fin(0.0)
    case NegInf => Fin(0.0)
    case PosInf => PosInf
    case Fin(x) => Fin(if x < 0.0 then 0.0 else x)
  }

  function Score(w: WorkerInfo, spec: ResourceSpec): F32 {
    var gain := 1.0 + 0.6 * Locality(w.rttMs) + 0.4 * Bandwidth(w.bandwidth, spec.bandwidth) + 0.5 * LoadTerm(w.load);
    match CostTerm(w.cost)
    case Fin(c) => Fin(gain - 0.3 * c)
    case _ => NegInf
  }

  lemma LocalityMonotone(a: u32, b: u32)
    requires a <= b
    ensures 0.0 <= Locality(b) <= Locality(a) <= 1.0
  {
  }

  lemma DivMonotone(x: real, y: real, z: real)
    requires x <= y && z > 0.0
    ensures x / z <= y / z
  {
    var q, r := x / z, y / z;
    assert q * z == x && r * z == y;
    assert (q - r) * z <= 0.0;
  }

  lemma BandwidthMonotone(a: u64, b: u64, need: u64)
    requires a <= b
    ensures 0.0 <= Bandwidth(a, need) <= Bandwidth(b, need) <= 1.0
  {
    if need > 0 {
      DivMonotone(0.0, a as real, need as real);
      DivMonotone(a as real, b as real, need as real);
    }
  }

  lemma ScoreParts(w: WorkerInfo, spec: ResourceSpec)
    requires Score(w, spec).Fin?
    ensures CostTerm(w.cost).Fin?
    ensures Score(w, spec).r
         == 1.0 + 0.6 * Locality(w.rttMs) + 0.4 * Bandwidth(w.bandwidth, spec.bandwidth) + 0.5 * LoadTerm(w.load)
            - 0.3 * CostTerm(w.cost).r
  {
  }

  /** No advert, however poisoned, scores above 2.5: a negative or NaN cost
      earns no bonus and a non-finite load counts as saturated. */
  lemma ScoreBounded(w: WorkerInfo, spec: ResourceSpec)
    requires Score(w, spec).Fin?
    ensures Score(w, spec).r <= 2.5
    ensures w.load.Fin? || Score(w, spec).r <= 2.0
  {
    LocalityMonotone(w.rttMs, w.rttMs);
    BandwidthMonotone(w.bandwidth, w.bandwidth, spec.bandwidth);
  }

  /** A worker that is nearer, faster, less loaded and cheaper never scores lower. */
  lemma ScoreMonotone(w: WorkerInfo, v: WorkerInfo, spec: ResourceSpec)
    requires w.rttMs <= v.rttMs && w.bandwidth >= v.bandwidth && AtLeast(v.load, w.load) && AtLeast(v.cost, w.cost)
    requires w.load.Fin? && Score(v, spec).Fin?
    ensures Score(w, spec).Fin? && Score(w, spec).r >= Score(v, spec).r
  {
    assert Score(w, spec).Fin?;
    ScoreParts(w, spec);
    ScoreParts(v, spec);
    LocalityMonotone(w.rttMs, v.rttMs);
    BandwidthMonotone(v.bandwidth, w.bandwidth, spec.bandwidth);
  }

  /** A sane worker's score in closed form: nearness falls linearly from 5 ms to
      200 ms, bandwidth counts up to what is needed. */
  lemma ScoreExactly(w: WorkerInfo, spec: ResourceSpec)
    requires w.load.Fin? && 0.0 <= w.load.r <= 1.0 && w.cost.Fin? && w.cost.r >= 0.0
    ensures var near := if w.rttMs <= 5 then 1.0 else if w.rttMs >= 200 then 0.0 else (200 - w.rttMs) as real / 195.0;
            var wide := if w.bandwidth >= spec.bandwidth then 1.0 else w.bandwidth as real / spec.bandwidth as real;
            Score(w, spec) == Fin(1.5 + 0.6 * near + 0.4 * wide - 0.5 * w.load.r - 0.3 * w.cost.r)
  {
    BandwidthExactly(w.bandwidth, spec.bandwidth);
  }

  lemma RatioBelowOne(x: real, y: real)
    requires y > 0.0
    ensures x / y < 1.0 <==> x < y
  {
    var q := x / y;
    assert q * y == x;
    assert (1.0 - q) * y == y - x;
    ProductSign(1.0 - q, y);
  }

  lemma ProductSign(a: real, b: real)
    requires b > 0.0
    ensures a * b > 0.0 <==> a > 0.0
  {
  }

  lemma BandwidthExactly(have: u64, need: u64)
    ensures Bandwidth(have, need) == if have >= need then 1.0 else have as real / need as real
  {
    if need > 0 { RatioBelowOne(have as real, need as real); }
  }

  /** A poisoned advert scores as a sane one: load is clamped into [0, 1] and a
      non-finite one counts as full, a negative or NaN cost as free; an infinite
      cost has no finite score. */
  lemma PoisonedScore(w: WorkerInfo, spec: ResourceSpec)
    ensures w.cost == PosInf ==> !Score(w, spec).Fin?
    ensures w.cost != PosInf ==>
              var load := if !w.load.Fin? || w.load.r > 1.0 then 1.0 else if w.load.r < 0.0 then 0.0 else w.load.r;
              var cost := if w.cost.Fin? && w.cost.r >= 0.0 then w.cost.r else 0.0;
              Score(w, spec) == Score(w.(load := Fin(load), cost := Fin(cost)), spec)
  {
  }

  // ── Choice ─────────────────────────────────────────────────────────────────

  datatype Choice = Choice(peer: PeerId, score: real)

  datatype PlacementError = NoWorkers | NoMatch

  predicate Eligible(w: WorkerInfo, spec: ResourceSpec) { Satisfies(w, spec) && Score(w, spec).Fin? }

  function Candidates(ws: seq<WorkerInfo>, spec: ResourceSpec): seq<Choice> {
    if ws == [] then []
    else
      var init, w := Candidates(ws[..|ws| - 1], spec), ws[|ws| - 1];
      if Eligible(w, spec) then init + [Choice(w.peer, Score(w, spec).r)] else init
  }

  /** The comparator says `a` is greater: a higher score, or the same and a smaller peer id. */
  predicate Greater(a: Choice, b: Choice) {
    a.score > b.score || (a.score == b.score && Lex(a.peer, b.peer) && a.peer != b.peer)
  }

  /** `Iterator::max_by`: the later of two that compare equal. */
  function MaxBy(cs: seq<Choice>): Choice
    requires cs != []
  {
    if |cs| == 1 then cs[0]
    else
      var best, last := MaxBy(cs[..|cs| - 1]), cs[|cs| - 1];
      if Greater(best, last) then best else last
  }

  function Choose(ws: seq<WorkerInfo>, spec: ResourceSpec): Result<Choice, PlacementError> {
    if ws == [] then Err(NoWorkers)
    else
      var cs := Candidates(ws, spec);
      if cs == [] then Err(NoMatch) else Ok(MaxBy(cs))
  }

  // ── What the choice is ─────────────────────────────────────────────────────

  /** Of these choices `c` has the highest score and, among equals, the least peer id. */
  predicate Top(c: Choice, d: Choice) { d.score < c.score || (d.score == c.score && Lex(c.peer, d.peer)) }

  lemma {:induction false} MaxByIsTop(cs: seq<Choice>)
    requires cs != []
    ensures MaxBy(cs) in cs
    ensures forall d | d in cs :: Top(MaxBy(cs), d)
  {
    var n := |cs| - 1;
    LexReflexive(cs[n].peer);
    assert cs == cs[..n] + [cs[n]];
    if n > 0 {
      var best := MaxBy(cs[..n]);
      MaxByIsTop(cs[..n]);
      LexTotal(best.peer, cs[n].peer);
      forall d | d in cs ensures Top(MaxBy(cs), d) {
        if d in cs[..n] { TopChain(MaxBy(cs), best, d); }
      }
    }
  }

  lemma TopChain(a: Choice, b: Choice, c: Choice)
    requires Top(a, b) && Top(b, c)
    ensures Top(a, c)
  {
    if a.score == b.score == c.score { LexTransitive(a.peer, b.peer, c.peer); }
  }

  lemma TopUnique(a: Choice, b: Choice)
    requires Top(a, b) && Top(b, a)
    ensures a == b
  {
    LexAntisymmetric(a.peer, b.peer);
  }

  function AsChoice(w: WorkerInfo, spec: ResourceSpec): Choice
    requires Eligible(w, spec)
  {
    Choice(w.peer, Score(w, spec).r)
  }

  predicate Offers(w: WorkerInfo, spec: ResourceSpec, c: Choice) { Eligible(w, spec) && AsChoice(w, spec) == c }

  lemma {:induction false} CandidateOf(ws: seq<WorkerInfo>, spec: ResourceSpec, c: Choice)
    ensures c in Candidates(ws, spec) <==> exists w :: w in ws && Offers(w, spec, c)
  {
    if ws != [] {
      var n := |ws| - 1;
      CandidateOf(ws[..n], spec, c);
      assert ws == ws[..n] + [ws[n]];
      if exists w :: w in ws && Offers(w, spec, c) {
        var w :| w in ws && Offers(w, spec, c);
        assert w in ws[..n] || w == ws[n];
      }
      if Offers(ws[n], spec, c) {
        assert ws[n] in ws;
      } else if c in Candidates(ws[..n], spec) {
        var w :| w in ws[..n] && Offers(w, spec, c);
        assert w in ws;
      }
    }
  }

  /** `c` is offered by a worker that meets every hard constraint with a finite
      score, no such worker scores higher, and none that scores the same has a smaller id. */
  ghost predicate IsBest(ws: seq<WorkerInfo>, spec: ResourceSpec, c: Choice) {
    && (exists w :: w in ws && Offers(w, spec, c))
    && (forall w | w in ws && Eligible(w, spec) :: Top(c, AsChoice(w, spec)))
  }

  /** Exactly what `choose` returns, and when it fails. */
  lemma ChooseIsBest(ws: seq<WorkerInfo>, spec: ResourceSpec)
    ensures forall c :: Choose(ws, spec) == Ok(c) <==> IsBest(ws, spec, c)
    ensures Choose(ws, spec) == Err(NoWorkers) <==> ws == []
    ensures Choose(ws, spec) == Err(NoMatch) <==> ws != [] && forall w | w in ws :: !Eligible(w, spec)
  {
    var cs := Candidates(ws, spec);
    forall c ensures c in cs <==> exists w :: w in ws && Offers(w, spec, c) { CandidateOf(ws, spec, c); }
    forall w | w in ws && Eligible(w, spec) ensures AsChoice(w, spec) in cs { assert Offers(w, spec, AsChoice(w, spec)); }
    if cs != [] {
      MaxByIsTop(cs);
      forall c | IsBest(ws, spec, c) ensures c == MaxBy(cs) {
        var w :| w in ws && Offers(w, spec, MaxBy(cs));
        assert Top(c, AsChoice(w, spec));
        TopUnique(c, MaxBy(cs));
      }
    }
  }

  function Lower(s: string): string { seq(|s|, i requires 0 <= i < |s| => LowerAscii(s[i])) }

  /** The worker lacks something that is asked for. */
  predicate Lacks(w: WorkerInfo, spec: ResourceSpec) {
    || w.cpuCores.NaN? || spec.cpuCores.NaN?
    || (spec.cpuCores.PosInf? && !w.cpuCores.PosInf?) || (w.cpuCores.NegInf? && !spec.cpuCores.NegInf?)
    || (w.cpuCores.Fin? && spec.cpuCores.Fin? && w.cpuCores.r < spec.cpuCores.r)
    || w.memory < spec.memory
    || (spec.gpu.Some? && w.gpu.None?)
    || (spec.gpu.Some? && w.gpu.Some? && w.gpu.value.vram < spec.gpu.value.vram)
    || (spec.gpu.Some? && w.gpu.Some? && spec.gpu.value.backend != AnyBackend && spec.gpu.value.backend != w.gpu.value.backend)
    || (spec.npu.Some? && w.npu.None?)
    || (spec.npu.Some? && w.npu.Some? && spec.npu.value != "" && Lower(spec.npu.value) != Lower(w.npu.value))
  }

  lemma SatisfiesExactly(w: WorkerInfo, spec: ResourceSpec)
    ensures Satisfies(w, spec) <==> !Lacks(w, spec)
  {
    if spec.npu.Some? && w.npu.Some? {
      var a, b := spec.npu.value, w.npu.value;
      assert |a| == |b| ==> forall i | 0 <= i < |a| :: Lower(a)[i] == LowerAscii(a[i]) && Lower(b)[i] == LowerAscii(b[i]);
      assert Lower(a) == Lower(b) <==> SameIgnoringCase(a, b);
    }
  }

  /** A task is placed on a live worker that lacks nothing it asks for, and it
      is turned away exactly when each of them lacks something or has no finite score. */
  lemma PlacedWhereItFits(ws: seq<WorkerInfo>, spec: ResourceSpec)
    ensures Choose(ws, spec).Ok? ==>
              exists w :: w in ws && !Lacks(w, spec) && w.peer == Choose(ws, spec).value.peer
                          && Score(w, spec) == Fin(Choose(ws, spec).value.score)
    ensures Choose(ws, spec) == Err(NoMatch) <==> ws != [] && forall w | w in ws :: Lacks(w, spec) || !Score(w, spec).Fin?
  {
    ChooseIsBest(ws, spec);
    forall w ensures Satisfies(w, spec) <==> !Lacks(w, spec) { SatisfiesExactly(w, spec); }
    if Choose(ws, spec).Ok? {
      var w :| w in ws && Offers(w, spec, Choose(ws, spec).value);
      assert !Lacks(w, spec);
    }
  }

  /** The same workers in any order, however often repeated, give the same choice. */
  lemma OrderIrrelevant(ws: seq<WorkerInfo>, vs: seq<WorkerInfo>, spec: ResourceSpec)
    requires forall w :: w in ws <==> w in vs
    ensures Choose(ws, spec) == Choose(vs, spec)
  {
    ChooseIsBest(ws, spec);
    ChooseIsBest(vs, spec);
    if ws != [] { assert ws[0] in vs; }
    if vs != [] { assert vs[0] in ws; }
    forall c ensures IsBest(ws, spec, c) <==> IsBest(vs, spec, c) { }
    if Choose(ws, spec).Ok? { assert IsBest(vs, spec, Choose(ws, spec).value); }
    if Choose(vs, spec).Ok? { assert IsBest(ws, spec, Choose(vs, spec).value); }
  }

  lemma PermutationIrrelevant(ws: seq<WorkerInfo>, vs: seq<WorkerInfo>, spec: ResourceSpec)
    requires multiset(ws) == multiset(vs)
    ensures Choose(ws, spec) == Choose(vs, spec)
  {
    forall w ensures w in ws <==> w in vs {
      assert w in ws <==> w in multiset(ws);
      assert w in vs <==> w in multiset(vs);
    }
    OrderIrrelevant(ws, vs, spec);
  }

  lemma MembersWithout<T>(ws: seq<T>, i: nat, w: T)
    requires i < |ws|
    ensures w in ws[..i] + ws[i + 1..] ==> w in ws
    ensures w in ws && w != ws[i] ==> w in ws[..i] + ws[i + 1..]
  {
    assert ws == ws[..i] + [ws[i]] + ws[i + 1..];
  }

  /** Removing a worker that was not chosen changes nothing. */
  lemma UnchosenIrrelevant(ws: seq<WorkerInfo>, i: nat, spec: ResourceSpec)
    requires i < |ws| && Choose(ws, spec).Ok? && ws[i].peer != Choose(ws, spec).value.peer
    ensures Choose(ws[..i] + ws[i + 1..], spec) == Choose(ws, spec)
  {
    var vs, c := ws[..i] + ws[i + 1..], Choose(ws, spec).value;
    ChooseIsBest(ws, spec);
    ChooseIsBest(vs, spec);
    forall w ensures (w in vs ==> w in ws) && (w in ws && w != ws[i] ==> w in vs) { MembersWithout(ws, i, w); }
    var w :| w in ws && Offers(w, spec, c);
    assert w in vs;
    assert IsBest(vs, spec, c);
  }
}
