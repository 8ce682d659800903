/** Feeding the worker pool from discovery (crates/entangle-bin/src/main.rs). */
module Resync {
  import opened Common
  import opened Placement
  import opened Pool
  import Peers

  datatype Hardware = Hardware(cpuCores: F32, memory: u64, gpuBackend: Option<GpuBackend>, vram: u64, bandwidth: u64)

  datatype PeerSeen = PeerSeen(peer: PeerId, name: string, hardware: Option<Hardware>)

  datatype DiscoveryEvent = Appeared(p: PeerSeen) | Updated(p: PeerSeen) | Disappeared(q: PeerId)

  /** `is_trusted`: in the allowlist and not revoked. */
  predicate IsTrusted(book: Peers.Book, q: PeerId) { q in book && book[q].trust != Peers.Revoked }

  /** `worker_info_from_sighting`. */
  function WorkerFrom(p: PeerSeen): Option<WorkerInfo> {
    match p.hardware
    case None => None
    case Some(hw) =>
      var gpu := if hw.gpuBackend.Some? then Some(Gpu(hw.vram, hw.gpuBackend.value)) else None;
      Some(WorkerInfo(p.peer, p.name, hw.cpuCores, hw.memory, gpu, None, hw.bandwidth, 5, Fin(0.0), Fin(1.0)))
  }

  /** A peer that may be in the pool. */
  predicate MayJoin(book: Peers.Book, local: PeerId, q: PeerId) { q != local && IsTrusted(book, q) }

  function ApplyEvent(p: Pool, evt: DiscoveryEvent, book: Peers.Book, local: PeerId, now: Instant): Pool {
    match evt
    case Disappeared(q) => Remove(p, q)
    case _ =>
      if !MayJoin(book, local, evt.p.peer) then p
      else
        match WorkerFrom(evt.p)
        case None => p
        case Some(w) => Upsert(p, w, now)
  }

  // ── Resync ─────────────────────────────────────────────────────────────────

  /** Sightings of trusted, non-local peers with hardware; the last of several wins. */
  function Desired(snapshot: seq<PeerSeen>, book: Peers.Book, local: PeerId): (d: map<PeerId, WorkerInfo>)
    ensures forall q | q in d :: d[q].peer == q && MayJoin(book, local, q)
  {
    if snapshot == [] then map[]
    else
      var d, p := Desired(snapshot[..|snapshot| - 1], book, local), snapshot[|snapshot| - 1];
      if MayJoin(book, local, p.peer) && WorkerFrom(p).Some? then d[p.peer := WorkerFrom(p).value] else d
  }

  /** Exactly the trusted, non-local, hardware-advertising peers of the snapshot. */
  lemma {:induction false} DesiredKeys(snapshot: seq<PeerSeen>, book: Peers.Book, local: PeerId, q: PeerId)
    ensures q in Desired(snapshot, book, local) <==>
              MayJoin(book, local, q) && exists p :: p in snapshot && p.peer == q && p.hardware.Some?
  {
    if snapshot != [] {
      var n := |snapshot| - 1;
      DesiredKeys(snapshot[..n], book, local, q);
      assert snapshot == snapshot[..n] + [snapshot[n]];
      assert snapshot[n] in snapshot;
    }
  }

  function DropOthers(p: Pool, desired: map<PeerId, WorkerInfo>): Pool {
    p.(slots := map q | q in p.slots && q in desired :: p.slots[q])
  }

  function UpsertAll(p: Pool, desired: map<PeerId, WorkerInfo>, order: seq<PeerId>, now: Instant): Pool
    requires forall i | 0 <= i < |order| :: order[i] in desired
  {
    if order == [] then p
    else Upsert(UpsertAll(p, desired, order[..|order| - 1], now), desired[order[|order| - 1]], now)
  }

  /** `order` is some order in which the map yields its entries. */
  predicate Enumerates(order: seq<PeerId>, desired: map<PeerId, WorkerInfo>) {
    (forall i | 0 <= i < |order| :: order[i] in desired) && (forall q | q in desired :: q in order)
  }

  function Resynced(p: Pool, desired: map<PeerId, WorkerInfo>, order: seq<PeerId>, now: Instant): Pool
    requires Enumerates(order, desired)
  {
    UpsertAll(DropOthers(p, desired), desired, order, now)
  }

  /** Which slot a desired peer ends up with. */
  function SlotAfter(p: Pool, desired: map<PeerId, WorkerInfo>, now: Instant, q: PeerId): Option<Slot>
    requires q in desired
  {
    if ValidInfo(desired[q]) then Some(Slot(desired[q], now)) else if q in p.slots then Some(p.slots[q]) else None
  }

  predicate SlotIs(p: Pool, q: PeerId, s: Option<Slot>) {
    if s.Some? then q in p.slots && p.slots[q] == s.value else q !in p.slots
  }

  lemma RoomForDesired(p: Pool, desired: map<PeerId, WorkerInfo>, q: PeerId)
    requires p.slots.Keys <= desired.Keys && |desired| <= p.max && q in desired && q !in p.slots
    ensures |p.slots| < p.max
  {
    var with := p.slots.Keys + {q};
    assert with <= desired.Keys && |with| == |p.slots.Keys| + 1;
    assert |desired.Keys| == |with| + |desired.Keys - with|;
  }

  lemma {:induction false} UpsertAllSlots(p: Pool, desired: map<PeerId, WorkerInfo>, order: seq<PeerId>, now: Instant, q: PeerId)
    requires p.slots.Keys <= desired.Keys && |desired| <= p.max && q in desired
    requires forall r | r in desired :: desired[r].peer == r
    requires forall i | 0 <= i < |order| :: order[i] in desired
    ensures UpsertAll(p, desired, order, now).max == p.max && UpsertAll(p, desired, order, now).slots.Keys <= desired.Keys
    ensures q in order ==> SlotIs(UpsertAll(p, desired, order, now), q, SlotAfter(p, desired, now, q))
    ensures q !in order ==> SlotIs(UpsertAll(p, desired, order, now), q, if q in p.slots then Some(p.slots[q]) else None)
  {
    if order != [] {
      var n := |order| - 1;
      UpsertAllSlots(p, desired, order[..n], now, q);
      assert order == order[..n] + [order[n]];
      var before := UpsertAll(p, desired, order[..n], now);
      if order[n] == q && q !in before.slots { RoomForDesired(before, desired, q); }
    }
  }

  /** With at most `max_workers` eligible sightings the resynced pool does not
      depend on the order: a desired peer has its new advert if that is valid,
      else its old slot if it had one; nobody else is in the pool. */
  lemma ResyncedSlots(p: Pool, desired: map<PeerId, WorkerInfo>, order: seq<PeerId>, now: Instant)
    requires |desired| <= p.max && Enumerates(order, desired) && forall r | r in desired :: desired[r].peer == r
    ensures forall q | q in desired :: SlotIs(Resynced(p, desired, order, now), q, SlotAfter(p, desired, now, q))
    ensures Resynced(p, desired, order, now).slots.Keys == set q | q in desired && (ValidInfo(desired[q]) || q in p.slots)
  {
    var r := Resynced(p, desired, order, now);
    forall q | q in desired ensures SlotIs(r, q, SlotAfter(p, desired, now, q)) {
      UpsertAllSlots(DropOthers(p, desired), desired, order, now, q);
    }
    if desired == map[] {
      assert order == [];
    } else {
      var q :| q in desired;
      UpsertAllSlots(DropOthers(p, desired), desired, order, now, q);
    }
    assert r.slots.Keys <= desired.Keys;
  }

  /** The pool's members are exactly the desired peers if and only if every
      desired advert is valid or its peer was in the pool before. */
  lemma MembersAreDesired(p: Pool, desired: map<PeerId, WorkerInfo>, order: seq<PeerId>, now: Instant)
    requires |desired| <= p.max && Enumerates(order, desired) && forall r | r in desired :: desired[r].peer == r
    ensures Resynced(p, desired, order, now).slots.Keys == desired.Keys
       <==> forall q | q in desired :: ValidInfo(desired[q]) || q in p.slots
  {
    ResyncedSlots(p, desired, order, now);
    var kept := set q | q in desired && (ValidInfo(desired[q]) || q in p.slots);
    if kept == desired.Keys {
      forall q | q in desired ensures ValidInfo(desired[q]) || q in p.slots { assert q in kept; }
    }
  }

  /** One trusted peer that advertises NaN cores is desired and stays out of an empty pool. */
  lemma InvalidAdvertStaysOut(book: Peers.Book, local: PeerId, q: PeerId, now: Instant)
    requires MayJoin(book, local, q)
    ensures var seen := PeerSeen(q, "", Some(Hardware(NaN, 0, None, 0, 0)));
            var desired := Desired([seen], book, local);
            && q in desired && Enumerates([q], desired)
            && Resynced(Pool(1, map[]), desired, [q], now).slots.Keys != desired.Keys
  {
    var seen := PeerSeen(q, "", Some(Hardware(NaN, 0, None, 0, 0)));
    assert Desired([], book, local) == map[];
    assert [seen][..0] == [];
    var desired := Desired([seen], book, local);
    assert desired == map[q := WorkerFrom(seen).value];
    assert [q][0] == q;
    MembersAreDesired(Pool(1, map[]), desired, [q], now);
  }

  // ── Runs of events, resyncs and evictions ──────────────────────────────────

  datatype Feed =
    | OnEvent(evt: DiscoveryEvent)
    | OnLag(snapshot: seq<PeerSeen>, order: seq<PeerId>)
    | OnMaintenance(ttl: nat)

  predicate Feasible(f: Feed, book: Peers.Book, local: PeerId) {
    f.OnLag? ==> Enumerates(f.order, Desired(f.snapshot, book, local))
  }

  function Fed(p: Pool, f: Feed, book: Peers.Book, local: PeerId, now: Instant): Pool
    requires Feasible(f, book, local)
  {
    match f
    case OnEvent(evt) => ApplyEvent(p, evt, book, local, now)
    case OnLag(snapshot, order) => Resynced(p, Desired(snapshot, book, local), order, now)
    case OnMaintenance(ttl) => RemoveStale(p, ttl, now)
  }

  predicate MembersOk(p: Pool, book: Peers.Book, local: PeerId) {
    forall q | q in p.slots :: MayJoin(book, local, q)
  }

  lemma {:induction false} UpsertAllMembers(p: Pool, desired: map<PeerId, WorkerInfo>, order: seq<PeerId>, now: Instant, book: Peers.Book, local: PeerId)
    requires MembersOk(p, book, local) && forall q | q in desired :: desired[q].peer == q && MayJoin(book, local, q)
    requires forall i | 0 <= i < |order| :: order[i] in desired
    ensures MembersOk(UpsertAll(p, desired, order, now), book, local)
  {
    if order != [] { UpsertAllMembers(p, desired, order[..|order| - 1], now, book, local); }
  }

  ghost predicate IsFeed(pools: seq<Pool>, feeds: seq<Feed>, times: seq<Instant>, book: Peers.Book, local: PeerId) {
    && |pools| == |feeds| + 1 == |times| + 1
    && pools[0].slots == map[]
    && forall i | 0 <= i < |feeds| ::
         Feasible(feeds[i], book, local) && pools[i + 1] == Fed(pools[i], feeds[i], book, local, times[i])
  }

  /** Every mix of events, resyncs and evictions from an empty pool keeps all members trusted and non-local. */
  lemma {:induction false} MembersStayTrusted(
    pools: seq<Pool>, feeds: seq<Feed>, times: seq<Instant>, book: Peers.Book, local: PeerId, i: nat)
    requires IsFeed(pools, feeds, times, book, local) && i < |pools|
    ensures MembersOk(pools[i], book, local)
    ensures forall q | q in pools[i].slots ::
              q != local && q in book && (book[q].trust == Peers.Trusted || book[q].trust == Peers.Observer)
  {
    if i > 0 {
      MembersStayTrusted(pools, feeds, times, book, local, i - 1);
      match feeds[i - 1]
      case OnLag(snapshot, order) =>
        var desired := Desired(snapshot, book, local);
        UpsertAllMembers(DropOthers(pools[i - 1], desired), desired, order, times[i - 1], book, local);
      case _ =>
    }
  }

  // ── Where a member comes from ──────────────────────────────────────────────

  /** The advert is this sighting, field by field; what discovery does not say is fixed. */
  predicate SeenAs(p: PeerSeen, w: WorkerInfo) {
    && p.hardware.Some? && w.peer == p.peer && w.name == p.name
    && w.cpuCores == p.hardware.value.cpuCores && w.memory == p.hardware.value.memory
    && w.bandwidth == p.hardware.value.bandwidth
    && (match p.hardware.value.gpuBackend
        case None => w.gpu == None
        case Some(backend) => w.gpu == Some(Gpu(p.hardware.value.vram, backend)))
    && w.npu == None && w.rttMs == 5 && w.load == Fin(0.0) && w.cost == Fin(1.0)
  }

  function Sightings(f: Feed): seq<PeerSeen> {
    match f
    case OnEvent(Appeared(p)) => [p]
    case OnEvent(Updated(p)) => [p]
    case OnLag(snapshot, _) => snapshot
    case _ => []
  }

  ghost predicate SeenIn(f: Feed, w: WorkerInfo) { exists p :: p in Sightings(f) && SeenAs(p, w) }

  lemma {:induction false} DesiredSeen(snapshot: seq<PeerSeen>, book: Peers.Book, local: PeerId, q: PeerId)
    requires q in Desired(snapshot, book, local)
    ensures exists p :: p in snapshot && SeenAs(p, Desired(snapshot, book, local)[q])
  {
    var n := |snapshot| - 1;
    assert snapshot == snapshot[..n] + [snapshot[n]];
    var p := snapshot[n];
    if p.peer == q && MayJoin(book, local, p.peer) && WorkerFrom(p).Some? {
      assert p in snapshot && SeenAs(p, WorkerFrom(p).value);
    } else {
      DesiredSeen(snapshot[..n], book, local, q);
      var o :| o in snapshot[..n] && SeenAs(o, Desired(snapshot[..n], book, local)[q]);
      assert o in snapshot;
    }
  }

  /** Of several sightings with hardware the last counts. */
  predicate LastSeen(snapshot: seq<PeerSeen>, k: nat) {
    && k < |snapshot| && snapshot[k].hardware.Some?
    && forall j | k < j < |snapshot| && snapshot[j].peer == snapshot[k].peer :: snapshot[j].hardware.None?
  }

  lemma LastSeenInit(snapshot: seq<PeerSeen>, k: nat)
    requires LastSeen(snapshot, k) && k < |snapshot| - 1
    ensures LastSeen(snapshot[..|snapshot| - 1], k)
  {
  }

  lemma DesiredNext(snapshot: seq<PeerSeen>, book: Peers.Book, local: PeerId)
    requires snapshot != []
    ensures var d, p := Desired(snapshot[..|snapshot| - 1], book, local), snapshot[|snapshot| - 1];
            Desired(snapshot, book, local) == if MayJoin(book, local, p.peer) && p.hardware.Some? then d[p.peer := WorkerFrom(p).value] else d
  {
  }

  lemma {:induction false} DesiredIsLast(snapshot: seq<PeerSeen>, book: Peers.Book, local: PeerId, k: nat)
    requires LastSeen(snapshot, k) && MayJoin(book, local, snapshot[k].peer)
    ensures snapshot[k].peer in Desired(snapshot, book, local)
    ensures Desired(snapshot, book, local)[snapshot[k].peer] == WorkerFrom(snapshot[k]).value
    ensures SeenAs(snapshot[k], Desired(snapshot, book, local)[snapshot[k].peer])
  {
    var n := |snapshot| - 1;
    DesiredNext(snapshot, book, local);
    if k < n {
      var init, p := snapshot[..n], snapshot[n];
      LastSeenInit(snapshot, k);
      assert init[k] == snapshot[k] && (p.peer == snapshot[k].peer ==> p.hardware.None?);
      DesiredIsLast(init, book, local, k);
    }
  }

  /** A sighting enters the pool exactly when its peer is not this node, is in
      the allowlist and not revoked, advertises hardware with a sane core count,
      and is a member already or there is room; otherwise nothing changes. */
  lemma SightingTaken(p: Pool, seen: PeerSeen, book: Peers.Book, local: PeerId, now: Instant)
    ensures var q, p' := seen.peer, ApplyEvent(p, Appeared(seen), book, local, now);
            && ApplyEvent(p, Updated(seen), book, local, now) == p'
            && if && q != local && q in book && book[q].trust in {Peers.Trusted, Peers.Observer}
                  && seen.hardware.Some? && seen.hardware.value.cpuCores.Fin? && seen.hardware.value.cpuCores.r >= 0.0
                  && (q in p.slots || |p.slots| < p.max)
               then q in p'.slots && SeenAs(seen, p'.slots[q].info) && p' == p.(slots := p.slots[q := Slot(p'.slots[q].info, now)])
               else p' == p
  {
  }

  /** A peer that disappears is taken out, trusted or not, and nobody else is touched. */
  lemma GoneIsOut(p: Pool, q: PeerId, book: Peers.Book, local: PeerId, now: Instant)
    ensures var p' := ApplyEvent(p, Disappeared(q), book, local, now);
            && p'.max == p.max && p'.slots.Keys == p.slots.Keys - {q}
            && forall r | r in p'.slots :: p'.slots[r] == p.slots[r]
  {
  }

  lemma {:induction false} UpsertAllFrom(p: Pool, desired: map<PeerId, WorkerInfo>, order: seq<PeerId>, now: Instant, q: PeerId)
    requires (forall r | r in desired :: desired[r].peer == r) && forall i | 0 <= i < |order| :: order[i] in desired
    requires q in UpsertAll(p, desired, order, now).slots
    ensures var s := UpsertAll(p, desired, order, now).slots[q];
            (q in p.slots && p.slots[q] == s) || (q in desired && s == Slot(desired[q], now))
  {
    if order != [] {
      var n := |order| - 1;
      if q in UpsertAll(p, desired, order[..n], now).slots { UpsertAllFrom(p, desired, order[..n], now, q); }
    }
  }

  lemma FedFrom(p: Pool, f: Feed, book: Peers.Book, local: PeerId, now: Instant, q: PeerId)
    requires Feasible(f, book, local) && q in Fed(p, f, book, local, now).slots
    ensures var s := Fed(p, f, book, local, now).slots[q];
            (q in p.slots && p.slots[q] == s) || (s.at == now && s.info.peer == q && SeenIn(f, s.info))
  {
    match f
    case OnLag(snapshot, order) =>
      var desired := Desired(snapshot, book, local);
      UpsertAllFrom(DropOthers(p, desired), desired, order, now, q);
      if q in desired { DesiredSeen(snapshot, book, local, q); }
    case OnEvent(evt) =>
      if !evt.Disappeared? && WorkerFrom(evt.p).Some? {
        assert evt.p in Sightings(f) && SeenAs(evt.p, WorkerFrom(evt.p).value);
      }
    case _ =>
  }

  /** Every member's advert is what a trusted sighting of that peer said, at the time it came in. */
  lemma {:induction false} MembersWereSeen(
    pools: seq<Pool>, feeds: seq<Feed>, times: seq<Instant>, book: Peers.Book, local: PeerId, i: nat, q: PeerId)
    requires IsFeed(pools, feeds, times, book, local) && i < |pools| && q in pools[i].slots
    ensures pools[i].slots[q].info.peer == q
    ensures exists j :: 0 <= j < i && pools[i].slots[q].at == times[j] && SeenIn(feeds[j], pools[i].slots[q].info)
  {
    FedFrom(pools[i - 1], feeds[i - 1], book, local, times[i - 1], q);
    if q in pools[i - 1].slots && pools[i - 1].slots[q] == pools[i].slots[q] {
      MembersWereSeen(pools, feeds, times, book, local, i - 1, q);
    }
  }

  // ── The loops ──────────────────────────────────────────────────────────────

  /** `Duration::MAX` in nanoseconds. */
  const DURATION_MAX: nat := 0x1_0000_0000_0000_0000 * 1_000_000_000 - 1

  method CollectDesired(snapshot: seq<PeerSeen>, book: Peers.Book, local: PeerId) returns (d: map<PeerId, WorkerInfo>)
    ensures d == Desired(snapshot, book, local)
  {
    d := map[];
    for i := 0 to |snapshot|
      invariant d == Desired(snapshot[..i], book, local)
    {
      assert snapshot[..i + 1][..i] == snapshot[..i];
      var p := snapshot[i];
      if MayJoin(book, local, p.peer) && WorkerFrom(p).Some? { d := d[p.peer := WorkerFrom(p).value]; }
    }
    assert snapshot[..|snapshot|] == snapshot;
  }

  /** The first `i` existing workers have been looked at. */
  predicate Dropping(was: map<PeerId, Slot>, slots: map<PeerId, Slot>, existing: seq<WorkerInfo>, i: nat, desired: map<PeerId, WorkerInfo>) {
    && i <= |existing|
    && slots.Keys <= was.Keys && (forall q | q in slots :: slots[q] == was[q])
    && (forall q | q in was && q in desired :: q in slots)
    && (forall j | 0 <= j < i :: existing[j].peer in slots ==> existing[j].peer in desired)
  }

  lemma DropNext(was: map<PeerId, Slot>, slots: map<PeerId, Slot>, existing: seq<WorkerInfo>, i: nat, desired: map<PeerId, WorkerInfo>)
    requires Dropping(was, slots, existing, i, desired) && i < |existing|
    ensures Dropping(was, if existing[i].peer in desired then slots else slots - {existing[i].peer}, existing, i + 1, desired)
  {
  }

  lemma DropDone(was: map<PeerId, Slot>, slots: map<PeerId, Slot>, existing: seq<WorkerInfo>, desired: map<PeerId, WorkerInfo>)
    requires Dropping(was, slots, existing, |existing|, desired)
    requires forall q | q in was :: was[q].info.peer == q && was[q].info in existing
    ensures slots == map q | q in was && q in desired :: was[q]
  {
    forall q | q in slots ensures q in desired {
      assert was[q].info in existing && was[q].info.peer == q;
      var j :| 0 <= j < |existing| && existing[j] == was[q].info;
    }
  }

  lemma EveryoneIsLive(p: Pool, now: Instant)
    requires PoolInv(p, now) && now < DURATION_MAX
    ensures forall q | q in p.slots :: p.slots[q].info.peer == q && p.slots[q].info in Live(p, DURATION_MAX, now)
  {
  }

  method DropLoop(pool: WorkerPool, desired: map<PeerId, WorkerInfo>, now: Instant)
    requires PoolInv(pool.View(), now) && now < DURATION_MAX
    modifies pool
    ensures pool.View() == DropOthers(old(pool.View()), desired)
  {
    var existing := pool.LiveWorkers(DURATION_MAX, now);
    ghost var was := pool.slots;
    EveryoneIsLive(pool.View(), now);
    var i := 0;
    while i < |existing|
      invariant Dropping(was, pool.slots, existing, i, desired)
    {
      DropNext(was, pool.slots, existing, i, desired);
      if existing[i].peer !in desired { var _ := pool.RemoveWorker(existing[i].peer); }
      i := i + 1;
    }
    DropDone(was, pool.slots, existing, desired);
  }

  method UpsertLoop(pool: WorkerPool, desired: map<PeerId, WorkerInfo>, now: Instant) returns (order: seq<PeerId>)
    modifies pool
    ensures Enumerates(order, desired)
    ensures pool.View() == UpsertAll(old(pool.View()), desired, order, now)
  {
    order := [];
    var left := desired.Keys;
    while left != {}
      invariant left <= desired.Keys
      invariant forall i | 0 <= i < |order| :: order[i] in desired
      invariant forall q | q in desired :: q in left || q in order
      invariant pool.View() == UpsertAll(old(pool.View()), desired, order, now)
      decreases |left|
    {
      var q :| q in left;
      left := left - {q};
      var _ := pool.UpsertWorker(desired[q], now);
      assert (order + [q])[..|order|] == order;
      order := order + [q];
    }
  }

  /** `resync_pool_from_snapshot`; `order` is the order the desired map was walked in. */
  method ResyncPool(pool: WorkerPool, snapshot: seq<PeerSeen>, book: Peers.Book, local: PeerId, now: Instant) returns (order: seq<PeerId>)
    requires PoolInv(pool.View(), now) && now < DURATION_MAX
    modifies pool
    ensures Enumerates(order, Desired(snapshot, book, local))
    ensures pool.View() == Resynced(old(pool.View()), Desired(snapshot, book, local), order, now)
  {
    var desired := CollectDesired(snapshot, book, local);
    DropLoop(pool, desired, now);
    order := UpsertLoop(pool, desired, now);
  }
}
