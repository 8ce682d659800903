/** The worker pool with its cap and time-to-live (crates/entangle-scheduler/src/worker.rs). */
module Pool {
  import opened Common
  import opened Placement

  /** A monotone clock in nanoseconds. */
  type Instant = nat

  datatype Slot = Slot(info: WorkerInfo, at: Instant)

  datatype Pool = Pool(max: nat, slots: map<PeerId, Slot>)

  /** `WorkerInfo::validate`. */
  predicate ValidInfo(w: WorkerInfo) {
    && w.cpuCores.Fin? && w.cpuCores.r >= 0.0
    && w.cost.Fin? && w.cost.r >= 0.0
    && w.load.Fin?
  }

  // ── Operations ─────────────────────────────────────────────────────────────

  predicate Admits(p: Pool, w: WorkerInfo) { ValidInfo(w) && (w.peer in p.slots || |p.slots| < p.max) }

  function Upsert(p: Pool, w: WorkerInfo, now: Instant): Pool {
    if Admits(p, w) then p.(slots := p.slots[w.peer := Slot(w, now)]) else p
  }

  function Remove(p: Pool, q: PeerId): Pool { p.(slots := p.slots - {q}) }

  /** `now.duration_since(at)`, zero if `at` is later. */
  function Age(now: Instant, at: Instant): nat { if now < at then 0 else now - at }

  function RemoveStale(p: Pool, ttl: nat, now: Instant): Pool {
    p.(slots := map q | q in p.slots && Age(now, p.slots[q].at) < ttl :: p.slots[q])
  }

  /** The placement view: workers updated within `ttl`. */
  function Live(p: Pool, ttl: nat, now: Instant): set<WorkerInfo> {
    set q | q in p.slots && Age(now, p.slots[q].at) < ttl :: p.slots[q].info
  }

  function LiveKeys(p: Pool, ttl: nat, now: Instant): set<PeerId> {
    set q | q in p.slots && Age(now, p.slots[q].at) < ttl
  }

  /** Every worker sits under its own id. */
  predicate Filed(p: Pool) { forall q | q in p.slots :: p.slots[q].info.peer == q }

  // ── Invariant of every run ─────────────────────────────────────────────────

  predicate PoolInv(p: Pool, now: Instant) {
    && |p.slots| <= p.max
    && forall q | q in p.slots :: p.slots[q].info.peer == q && ValidInfo(p.slots[q].info) && p.slots[q].at <= now
  }

  datatype Action = DoUpsert(w: WorkerInfo) | DoRemove(q: PeerId) | DoRemoveStale(ttl: nat)

  function Apply(p: Pool, a: Action, now: Instant): Pool {
    match a
    case DoUpsert(w) => Upsert(p, w, now)
    case DoRemove(q) => Remove(p, q)
    case DoRemoveStale(ttl) => RemoveStale(p, ttl, now)
  }

  lemma SmallerDomain<K, V>(a: map<K, V>, b: map<K, V>)
    requires a.Keys <= b.Keys
    ensures |a| <= |b|
  {
    assert |b.Keys| == |a.Keys| + |b.Keys - a.Keys|;
  }

  lemma UpsertInv(p: Pool, w: WorkerInfo, now: Instant)
    requires PoolInv(p, now)
    ensures PoolInv(Upsert(p, w, now), now)
  {
    if Admits(p, w) {
      if w.peer in p.slots {
        assert p.slots[w.peer := Slot(w, now)].Keys == p.slots.Keys;
        SmallerDomain(p.slots[w.peer := Slot(w, now)], p.slots);
      }
    }
  }

  lemma StepInv(p: Pool, a: Action, before: Instant, now: Instant)
    requires PoolInv(p, before) && before <= now
    ensures PoolInv(Apply(p, a, now), now)
  {
    match a
    case DoUpsert(w) => UpsertInv(p, w, now);
    case _ => SmallerDomain(Apply(p, a, now).slots, p.slots);
  }

  /** A run from an empty pool: pools, actions and the times they happen at. */
  ghost predicate IsRun(pools: seq<Pool>, actions: seq<Action>, times: seq<Instant>) {
    && |pools| == |actions| + 1 == |times| + 1
    && pools[0].slots == map[]
    && (forall i, j | 0 <= i < j < |times| :: times[i] <= times[j])
    && forall i | 0 <= i < |actions| :: pools[i + 1] == Apply(pools[i], actions[i], times[i])
  }

  /** The time of the last action before step `i`. */
  function LastTime(times: seq<Instant>, i: nat): Instant
    requires i <= |times|
  {
    if i == 0 then 0 else times[i - 1]
  }

  lemma RunStep(pools: seq<Pool>, actions: seq<Action>, times: seq<Instant>, i: nat)
    requires IsRun(pools, actions, times) && i < |actions|
    ensures pools[i + 1] == Apply(pools[i], actions[i], times[i]) && LastTime(times, i) <= times[i]
  {
  }

  /** In every run the pool stays within its cap and holds only validated adverts. */
  lemma {:induction false} RunInv(pools: seq<Pool>, actions: seq<Action>, times: seq<Instant>, i: nat)
    requires IsRun(pools, actions, times) && i < |pools|
    ensures PoolInv(pools[i], LastTime(times, i))
  {
    if i == 0 {
      assert |pools[0].slots| == 0;
    } else {
      RunInv(pools, actions, times, i - 1);
      RunStep(pools, actions, times, i - 1);
      StepInv(pools[i - 1], actions[i - 1], LastTime(times, i - 1), times[i - 1]);
    }
  }

  // ── Where an entry comes from ──────────────────────────────────────────────

  /** What an advert must be to enter the pool: finite and not negative where it counts. */
  predicate Sane(w: WorkerInfo) {
    w.cpuCores.Fin? && w.cost.Fin? && w.load.Fin? && w.cpuCores.r >= 0.0 && w.cost.r >= 0.0
  }

  /** The action replaces or drops an entry of `q` that was put at time `at`. */
  predicate Ends(a: Action, now: Instant, q: PeerId, at: Instant) {
    match a
    case DoUpsert(w) => w.peer == q && Sane(w)
    case DoRemove(r) => r == q
    case DoRemoveStale(ttl) => now - at >= ttl
  }

  /** Action `j` put an entry for `q`, and nothing has ended it before step `i`. */
  ghost predicate PutBy(pools: seq<Pool>, actions: seq<Action>, times: seq<Instant>, i: nat, j: nat, q: PeerId)
    requires |pools| == |actions| + 1 == |times| + 1 && i < |pools|
  {
    && j < i && actions[j].DoUpsert? && actions[j].w.peer == q && Sane(actions[j].w)
    && (q in pools[j].slots || |pools[j].slots| < pools[j].max)
    && forall k | j < k < i :: !Ends(actions[k], times[k], q, times[j])
  }

  lemma TimesGrow(pools: seq<Pool>, actions: seq<Action>, times: seq<Instant>, j: nat, k: nat)
    requires IsRun(pools, actions, times) && j <= k < |times|
    ensures times[j] <= times[k]
  {
  }

  lemma EntryStep(p: Pool, a: Action, now: Instant, q: PeerId)
    requires q in p.slots && p.slots[q].at <= now
    ensures var p' := Apply(p, a, now);
            if !Ends(a, now, q, p.slots[q].at) then q in p'.slots && p'.slots[q] == p.slots[q]
            else if a.DoUpsert? then q in p'.slots && p'.slots[q] == Slot(a.w, now)
            else q !in p'.slots
  {
  }

  lemma NewEntry(p: Pool, a: Action, now: Instant, q: PeerId)
    requires q !in p.slots
    ensures var p' := Apply(p, a, now);
            && (q in p'.slots <==> a.DoUpsert? && a.w.peer == q && Sane(a.w) && |p.slots| < p.max)
            && (q in p'.slots ==> p'.slots[q] == Slot(a.w, now))
  {
  }

  /** An entry that was put and not ended is there as it was put. */
  lemma {:induction false} PutStays(pools: seq<Pool>, actions: seq<Action>, times: seq<Instant>, i: nat, j: nat, q: PeerId)
    requires IsRun(pools, actions, times) && i < |pools| && PutBy(pools, actions, times, i, j, q)
    ensures q in pools[i].slots && pools[i].slots[q] == Slot(actions[j].w, times[j])
  {
    RunInv(pools, actions, times, i - 1);
    RunStep(pools, actions, times, i - 1);
    TimesGrow(pools, actions, times, j, i - 1);
    if j < i - 1 {
      assert PutBy(pools, actions, times, i - 1, j, q);
      PutStays(pools, actions, times, i - 1, j, q);
      assert !Ends(actions[i - 1], times[i - 1], q, times[j]);
    }
    if q in pools[i - 1].slots { EntryStep(pools[i - 1], actions[i - 1], times[i - 1], q); }
    else { NewEntry(pools[i - 1], actions[i - 1], times[i - 1], q); }
  }

  lemma PutOn(pools: seq<Pool>, actions: seq<Action>, times: seq<Instant>, i: nat, j: nat, q: PeerId)
    requires IsRun(pools, actions, times) && i < |actions| && PutBy(pools, actions, times, i, j, q)
    requires !Ends(actions[i], times[i], q, times[j])
    ensures PutBy(pools, actions, times, i + 1, j, q)
  {
  }

  lemma EntryBefore(pools: seq<Pool>, actions: seq<Action>, times: seq<Instant>, i: nat, q: PeerId)
    requires IsRun(pools, actions, times) && i < |actions| && q in pools[i].slots
    ensures pools[i].slots[q].at <= times[i]
  {
    RunInv(pools, actions, times, i);
    RunStep(pools, actions, times, i);
  }

  /** An entry after step `i` was put by it, or was there and is not ended by it. */
  lemma EntryFrom(pools: seq<Pool>, actions: seq<Action>, times: seq<Instant>, i: nat, q: PeerId)
    requires IsRun(pools, actions, times) && i < |actions| && q in pools[i + 1].slots
    ensures || (PutBy(pools, actions, times, i + 1, i, q) && pools[i + 1].slots[q] == Slot(actions[i].w, times[i]))
            || (q in pools[i].slots && pools[i].slots[q] == pools[i + 1].slots[q] && !Ends(actions[i], times[i], q, pools[i].slots[q].at))
  {
    RunStep(pools, actions, times, i);
    if q in pools[i].slots {
      EntryBefore(pools, actions, times, i, q);
      EntryStep(pools[i], actions[i], times[i], q);
    } else {
      NewEntry(pools[i], actions[i], times[i], q);
    }
  }

  /** Every entry was put by an upsert that nothing has ended. */
  lemma {:induction false} EntryWasPut(pools: seq<Pool>, actions: seq<Action>, times: seq<Instant>, i: nat, q: PeerId) returns (j: nat)
    requires IsRun(pools, actions, times) && i < |pools| && q in pools[i].slots
    ensures PutBy(pools, actions, times, i, j, q) && pools[i].slots[q] == Slot(actions[j].w, times[j])
  {
    j := i - 1;
    EntryFrom(pools, actions, times, i - 1, q);
    if !(PutBy(pools, actions, times, i, j, q) && pools[i].slots[q] == Slot(actions[j].w, times[j])) {
      j := EntryWasPut(pools, actions, times, i - 1, q);
      PutOn(pools, actions, times, i - 1, j, q);
    }
  }

  /** The live view, from the history alone: a worker is shown exactly when its
      last admitted advert is that one, was not removed or evicted since, and is
      younger than `ttl`. */
  lemma {:induction false} LiveExactly(
    pools: seq<Pool>, actions: seq<Action>, times: seq<Instant>, i: nat, ttl: nat, now: Instant, w: WorkerInfo)
    requires IsRun(pools, actions, times) && i < |pools| && LastTime(times, i) <= now
    ensures w in Live(pools[i], ttl, now) <==>
              exists j: nat :: PutBy(pools, actions, times, i, j, w.peer) && actions[j].w == w && now - times[j] < ttl
  {
    RunInv(pools, actions, times, i);
    if w in Live(pools[i], ttl, now) {
      var j := EntryWasPut(pools, actions, times, i, w.peer);
      TimesGrow(pools, actions, times, j, i - 1);
    }
    if j: nat :| PutBy(pools, actions, times, i, j, w.peer) && actions[j].w == w && now - times[j] < ttl {
      PutStays(pools, actions, times, i, j, w.peer);
      TimesGrow(pools, actions, times, j, i - 1);
    }
  }

  // ── Placement over the live view ───────────────────────────────────────────

  lemma ValidScoreIsFinite(w: WorkerInfo, spec: ResourceSpec)
    requires ValidInfo(w)
    ensures Score(w, spec).Fin?
  {
  }

  /** However `live` orders its result, placement over it fails with `NoMatch`
      only when no live worker satisfies the spec. */
  lemma {:induction false} NoMatchMeansNone(
    pools: seq<Pool>, actions: seq<Action>, times: seq<Instant>, i: nat, ttl: nat, now: Instant, ws: seq<WorkerInfo>, spec: ResourceSpec)
    requires IsRun(pools, actions, times) && i < |pools|
    requires forall w :: w in ws <==> w in Live(pools[i], ttl, now)
    ensures Choose(ws, spec) == Err(NoMatch) <==> ws != [] && forall w | w in ws :: !Satisfies(w, spec)
    ensures Choose(ws, spec).Ok? <==> exists w :: w in ws && Satisfies(w, spec)
  {
    RunInv(pools, actions, times, i);
    ChooseIsBest(ws, spec);
    forall w | w in ws ensures Eligible(w, spec) <==> Satisfies(w, spec) {
      assert w in Live(pools[i], ttl, now);
      ValidScoreIsFinite(w, spec);
    }
  }

  // ── Eviction ───────────────────────────────────────────────────────────────

  /** An entry still live for `t` that eviction with `ttl` drops. */
  predicate EvictedAlive(p: Pool, ttl: nat, t: nat, now: Instant, q: PeerId)
    requires q in p.slots
  {
    ttl <= Age(now, p.slots[q].at) < t
  }

  /** Evicting at `now` never changes what `live(t)` returns, now or later,
      exactly when no entry is evicted that `live(t)` still shows. */
  lemma EvictionInvisible(p: Pool, ttl: nat, t: nat, now: Instant)
    requires PoolInv(p, now)
    ensures (forall later | later >= now :: Live(RemoveStale(p, ttl, now), t, later) == Live(p, t, later))
       <==> (forall q | q in p.slots :: !EvictedAlive(p, ttl, t, now, q))
  {
    var e := RemoveStale(p, ttl, now);
    if forall q | q in p.slots :: !EvictedAlive(p, ttl, t, now, q) {
      forall later | later >= now ensures Live(e, t, later) == Live(p, t, later) { LiveKept(p, ttl, t, now, later); }
    } else {
      var q :| q in p.slots && EvictedAlive(p, ttl, t, now, q);
      assert p.slots[q].info in Live(p, t, now);
      assert forall r | r in e.slots :: e.slots[r].info.peer == r;
      assert p.slots[q].info !in Live(e, t, now);
    }
  }

  lemma LiveKept(p: Pool, ttl: nat, t: nat, now: Instant, later: Instant)
    requires PoolInv(p, now) && later >= now && forall q | q in p.slots :: !EvictedAlive(p, ttl, t, now, q)
    ensures Live(RemoveStale(p, ttl, now), t, later) == Live(p, t, later)
  {
    var e := RemoveStale(p, ttl, now);
    forall q | q in p.slots && Age(later, p.slots[q].at) < t ensures q in e.slots && e.slots[q] == p.slots[q] { }
    assert forall w :: w in Live(p, t, later) ==> w in Live(e, t, later);
    assert forall w :: w in Live(e, t, later) ==> w in Live(p, t, later);
  }

  /** In particular evicting with a time-to-live of at least `t` is invisible to `live(t)`. */
  lemma LongTtlInvisible(p: Pool, ttl: nat, t: nat, now: Instant, later: Instant)
    requires PoolInv(p, now) && ttl >= t && later >= now
    ensures Live(RemoveStale(p, ttl, now), t, later) == Live(p, t, later)
  {
    LiveKept(p, ttl, t, now, later);
  }

  // ── Listing the live workers ───────────────────────────────────────────────

  /** `order` has each live key that is not left, once. */
  predicate Lists(p: Pool, ttl: nat, now: Instant, order: seq<PeerId>, left: set<PeerId>) {
    && (forall i, j | 0 <= i < j < |order| :: order[i] != order[j])
    && (forall i | 0 <= i < |order| :: order[i] in LiveKeys(p, ttl, now) - left)
    && (forall q | q in LiveKeys(p, ttl, now) - left :: q in order)
  }

  function Infos(p: Pool, order: seq<PeerId>): seq<WorkerInfo>
    requires forall i | 0 <= i < |order| :: order[i] in p.slots
  {
    seq(|order|, i requires 0 <= i < |order| => p.slots[order[i]].info)
  }

  lemma ListNext(p: Pool, ttl: nat, now: Instant, order: seq<PeerId>, left: set<PeerId>, q: PeerId)
    requires Lists(p, ttl, now, order, left) && q in left && left <= p.slots.Keys
    ensures if Age(now, p.slots[q].at) < ttl
            then Lists(p, ttl, now, order + [q], left - {q}) && Infos(p, order + [q]) == Infos(p, order) + [p.slots[q].info]
            else Lists(p, ttl, now, order, left - {q})
  {
    if Age(now, p.slots[q].at) < ttl {
      forall r | r in LiveKeys(p, ttl, now) - (left - {q}) ensures r in order + [q] {
        if r != q { assert r in LiveKeys(p, ttl, now) - left; }
      }
    }
  }

  lemma {:induction false} DistinctSize<T>(order: seq<T>, s: set<T>)
    requires forall i, j | 0 <= i < j < |order| :: order[i] != order[j]
    requires forall x :: x in s <==> x in order
    ensures |order| == |s|
  {
    if order == [] {
      assert s == {};
    } else {
      var n := |order| - 1;
      assert order == order[..n] + [order[n]];
      DistinctSize(order[..n], s - {order[n]});
    }
  }

  lemma ListDone(p: Pool, ttl: nat, now: Instant, order: seq<PeerId>)
    requires Lists(p, ttl, now, order, {})
    ensures forall w :: w in Infos(p, order) <==> w in Live(p, ttl, now)
    ensures |order| == |LiveKeys(p, ttl, now)|
    ensures Filed(p) ==> forall i, j | 0 <= i < j < |order| :: Infos(p, order)[i].peer != Infos(p, order)[j].peer
  {
    var ws := Infos(p, order);
    DistinctSize(order, LiveKeys(p, ttl, now));
    forall w | w in Live(p, ttl, now) ensures w in ws {
      var q :| q in LiveKeys(p, ttl, now) && p.slots[q].info == w;
      assert q in LiveKeys(p, ttl, now) - {};
      var i :| 0 <= i < |order| && order[i] == q;
      assert ws[i] == w;
    }
  }

  // ── The shared object ──────────────────────────────────────────────────────

  class WorkerPool {
    const max: nat
    var slots: map<PeerId, Slot>

    function View(): Pool
      reads this
    {
      Pool(max, slots)
    }

    constructor (maxWorkers: nat)
      ensures View() == Pool(maxWorkers, map[])
    {
      max := maxWorkers;
      slots := map[];
    }

    method UpsertWorker(w: WorkerInfo, now: Instant) returns (updated: bool)
      modifies this
      ensures View() == Upsert(old(View()), w, now) && updated == Admits(old(View()), w)
    {
      if !ValidInfo(w) { return false; }
      if w.peer !in slots && |slots| >= max { return false; }
      slots := slots[w.peer := Slot(w, now)];
      return true;
    }

    method RemoveWorker(q: PeerId) returns (gone: Option<WorkerInfo>)
      modifies this
      ensures View() == Remove(old(View()), q)
      ensures gone == if q in old(slots) then Some(old(slots)[q].info) else None
    {
      gone := if q in slots then Some(slots[q].info) else None;
      slots := slots - {q};
    }

    /** The live workers in whatever order the map yields them, one for each
        live entry; a pool that files workers under their own ids lists nobody twice. */
    method LiveWorkers(ttl: nat, now: Instant) returns (ws: seq<WorkerInfo>)
      ensures forall w :: w in ws <==> w in Live(View(), ttl, now)
      ensures |ws| == |LiveKeys(View(), ttl, now)|
      ensures Filed(View()) ==> forall i, j | 0 <= i < j < |ws| :: ws[i].peer != ws[j].peer
    {
      ws := [];
      ghost var order := [];
      var left := slots.Keys;
      while left != {}
        invariant left <= slots.Keys
        invariant Lists(View(), ttl, now, order, left) && ws == Infos(View(), order)
        decreases |left|
      {
        var q :| q in left;
        ListNext(View(), ttl, now, order, left, q);
        if Age(now, slots[q].at) < ttl {
          ws := ws + [slots[q].info];
          order := order + [q];
        }
        left := left - {q};
      }
      ListDone(View(), ttl, now, order);
    }

    method RemoveStaleWorkers(ttl: nat, now: Instant) returns (count: nat)
      modifies this
      ensures View() == RemoveStale(old(View()), ttl, now) && count == |old(slots)| - |slots|
    {
      var before := |slots|;
      var kept := map q | q in slots && Age(now, slots[q].at) < ttl :: slots[q];
      SmallerDomain(kept, slots);
      slots := kept;
      count := before - |slots|;
    }
  }
}
