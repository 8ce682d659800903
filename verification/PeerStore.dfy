/** The peers file shared by any number of processes (crates/entangle-peers/src/store.rs).

    A mutation takes the advisory lock, reloads the file, changes the map,
    writes a temporary file and renames it over the target; each of these is a
    step, I/O may fail at any of them, and a process may crash between any two. */
module PeerStore {
  import opened Common
  import opened Identity
  import opened Peers

  // ── Operations ─────────────────────────────────────────────────────────────

  datatype Op = Add(p: TrustedPeer) | Remove(q: PeerId) | Revoke(q: PeerId) | Touch(q: PeerId, now: u64)

  datatype StoreError = NotFound(q: PeerId) | Io | Parse

  /** What the operation's closure does to the map. */
  function Mutate(op: Op, m: Book): Result<Book, StoreError>
  {
    match op
    case Add(p) => Ok(m[p.peerId := p])
    case Remove(q) => Ok(m - {q})
    case Revoke(q) => if q in m then Ok(m[q := m[q].(trust := Revoked)]) else Err(NotFound(q))
    case Touch(q, now) => Ok(if q in m then m[q := m[q].(lastSeen := Some(now))] else m)
  }

  /** Only revoking somebody who is not there fails, and every operation touches
      nobody but its own peer. */
  lemma MutateExactly(op: Op, m: Book)
    ensures Mutate(op, m).Err? <==> op.Revoke? && op.q !in m
    ensures Mutate(op, m).Err? ==> Mutate(op, m).error == NotFound(op.q)
    ensures Mutate(op, m).Ok? ==>
              var q := if op.Add? then op.p.peerId else op.q;
              && (Mutate(op, m).value - {q} == m - {q})
              && (op.Add? ==> q in Mutate(op, m).value && Mutate(op, m).value[q] == op.p)
              && (op.Remove? ==> q !in Mutate(op, m).value)
              && (op.Revoke? ==> q in Mutate(op, m).value && Mutate(op, m).value[q] == m[q].(trust := Revoked))
              && (op.Touch? && q in m ==> q in Mutate(op, m).value && Mutate(op, m).value[q] == m[q].(lastSeen := Some(op.now)))
              && (op.Touch? && q !in m ==> q !in Mutate(op, m).value)
  {
  }

  // ── The file ───────────────────────────────────────────────────────────────

  /** `Garbage` is text that is not a peers document; `Torn` a file being written. */
  datatype Content = Absent | Whole(peers: seq<TrustedPeer>) | Garbage | Torn

  function Load(fp: Fp, file: Content): Option<Book> {
    match file
    case Absent => Some(map[])
    case Whole(peers) => Some(LoadPeers(fp, peers))
    case _ => None
  }

  /** One committed mutation: the operation applied to the valid entries of the previous file. */
  ghost function Applied(fp: Fp, file: Content, op: Op): Content {
    match Load(fp, file)
    case None => file
    case Some(m) =>
      match Mutate(op, m)
      case Ok(m') => Whole(Save(m'))
      case Err(_) => file
  }

  // ── The machine ────────────────────────────────────────────────────────────

  type Tid = nat

  type Pid = nat

  datatype Pc =
    | Waiting
    | Locked
    | Loaded
    | Mutated
    | TempOpen
    | TempFull
    | Renamed
    | Failing(e: StoreError)
    | Returned(error: Option<StoreError>)
    | Crashed

  datatype Call = Call(pid: Pid, op: Op, pc: Pc)

  /** One acquisition of the lock; `committed` once its rename happened. */
  datatype Entry = Entry(t: Tid, op: Op, committed: bool)

  /** `initial` and `log` are history: the file at the start and every
      acquisition of the lock, in order. */
  datatype State = State(
    initial: Content,
    file: Content,
    lock: Option<Tid>,
    mem: map<Pid, Book>,
    calls: map<Tid, Call>,
    temps: map<Tid, Content>,
    log: seq<Entry>)

  /** `ok` is whether the step's I/O succeeds. */
  datatype Action =
    | Open(pid: Pid)
    | Begin(t: Tid, pid: Pid, op: Op)
    | Step(t: Tid, ok: bool)
    | Crash(pid: Pid)

  predicate Ended(pc: Pc) { pc.Returned? || pc.Crashed? }

  /** The call holds the file lock. */
  predicate Holding(pc: Pc) { !pc.Waiting? && !Ended(pc) }

  predicate Enabled(fp: Fp, s: State, a: Action) {
    match a
    case Open(pid) => pid !in s.mem && Load(fp, s.file).Some?
    case Begin(t, pid, _) => t !in s.calls && pid in s.mem
    case Step(t, _) =>
      t in s.calls && !Ended(s.calls[t].pc) && s.calls[t].pid in s.mem && (s.calls[t].pc.Waiting? ==> s.lock.None?)
    case Crash(pid) => pid in s.mem
  }

  function Goto(s: State, t: Tid, pc: Pc): State
    requires t in s.calls
  {
    s.(calls := s.calls[t := s.calls[t].(pc := pc)])
  }

  function Release(s: State, t: Tid, error: Option<StoreError>): State
    requires t in s.calls
  {
    Goto(s.(lock := None), t, Returned(error))
  }

  function Remember(s: State, t: Tid, m: Book): State
    requires t in s.calls
  {
    s.(mem := s.mem[s.calls[t].pid := m])
  }

  function Commit(log: seq<Entry>): seq<Entry> {
    if log == [] then [] else log[|log| - 1 := log[|log| - 1].(committed := true)]
  }

  function StepAcquire(s: State, t: Tid, ok: bool): State
    requires t in s.calls
  {
    if ok then Goto(s.(lock := Some(t), log := s.log + [Entry(t, s.calls[t].op, false)]), t, Locked)
    else Goto(s, t, Returned(Some(Io)))
  }

  function StepReload(fp: Fp, s: State, t: Tid, ok: bool): State
    requires t in s.calls
  {
    if !ok then Goto(s, t, Failing(Io))
    else
      match Load(fp, s.file)
      case None => Goto(s, t, Failing(Parse))
      case Some(m) => Goto(Remember(s, t, m), t, Loaded)
  }

  function StepMutate(s: State, t: Tid): State
    requires t in s.calls && s.calls[t].pid in s.mem
  {
    match Mutate(s.calls[t].op, s.mem[s.calls[t].pid])
    case Err(e) => Goto(s, t, Failing(e))
    case Ok(m) => Goto(Remember(s, t, m), t, Mutated)
  }

  ghost function StepFill(s: State, t: Tid, ok: bool): State
    requires t in s.calls && s.calls[t].pid in s.mem
  {
    if ok then Goto(s.(temps := s.temps[t := Whole(Save(s.mem[s.calls[t].pid]))]), t, TempFull)
    else Goto(s.(temps := s.temps - {t}), t, Failing(Io))
  }

  function StepRename(s: State, t: Tid, ok: bool): State
    requires t in s.calls
  {
    if ok && t in s.temps then
      Goto(s.(file := s.temps[t], temps := s.temps - {t}, log := Commit(s.log)), t, Renamed)
    else Goto(s.(temps := s.temps - {t}), t, Failing(Io))
  }

  ghost function StepCall(fp: Fp, s: State, t: Tid, ok: bool): State
    requires Enabled(fp, s, Step(t, ok))
  {
    match s.calls[t].pc
    case Waiting => StepAcquire(s, t, ok)
    case Locked => StepReload(fp, s, t, ok)
    case Loaded => StepMutate(s, t)
    case Mutated => if ok then Goto(s.(temps := s.temps[t := Torn]), t, TempOpen) else Goto(s, t, Failing(Io))
    case TempOpen => StepFill(s, t, ok)
    case TempFull => StepRename(s, t, ok)
    case Renamed => Release(s, t, None)
    case Failing(e) => Release(s, t, Some(e))
    case _ => s
  }

  /** The process is gone: its memory, its lock and its unfinished calls. Temporary files stay behind. */
  function CrashOf(s: State, pid: Pid): State {
    s.(mem := s.mem - {pid},
       lock := if s.lock.Some? && s.lock.value in s.calls && s.calls[s.lock.value].pid == pid then None else s.lock,
       calls := map t | t in s.calls ::
         if s.calls[t].pid == pid && !Ended(s.calls[t].pc) then s.calls[t].(pc := Crashed) else s.calls[t])
  }

  ghost function Apply(fp: Fp, s: State, a: Action): State
    requires Enabled(fp, s, a)
  {
    match a
    case Open(pid) => s.(mem := s.mem[pid := Load(fp, s.file).value])
    case Begin(t, pid, op) => s.(calls := s.calls[t := Call(pid, op, Waiting)])
    case Step(t, ok) => StepCall(fp, s, t, ok)
    case Crash(pid) => CrashOf(s, pid)
  }

  predicate Init(s: State) {
    && s.file == s.initial && s.initial != Torn && s.lock == None
    && s.mem == map[] && s.calls == map[] && s.temps == map[] && s.log == []
  }

  ghost predicate IsRun(fp: Fp, states: seq<State>, actions: seq<Action>) {
    && |states| == |actions| + 1
    && Init(states[0])
    && forall i | 0 <= i < |actions| ::
         Enabled(fp, states[i], actions[i]) && states[i + 1] == Apply(fp, states[i], actions[i])
  }

  // ── The committed mutations in lock order ──────────────────────────────────

  ghost function Replay(fp: Fp, initial: Content, log: seq<Entry>): Content {
    if log == [] then initial
    else
      var prev, e := Replay(fp, initial, log[..|log| - 1]), log[|log| - 1];
      if e.committed then Applied(fp, prev, e.op) else prev
  }

  /** What one operation does to the entry of one peer. */
  function PeerAfter(fp: Fp, op: Op, q: PeerId, cur: Option<TrustedPeer>): Option<TrustedPeer> {
    match op
    case Add(p) => if p.peerId != q then cur else if ValidPeer(fp, p) then Some(p) else None
    case Remove(r) => if r == q then None else cur
    case Revoke(r) => if r == q && cur.Some? then Some(cur.value.(trust := Revoked)) else cur
    case Touch(r, now) => if r == q && cur.Some? then Some(cur.value.(lastSeen := Some(now))) else cur
  }

  function PeerAfterAll(fp: Fp, q: PeerId, cur: Option<TrustedPeer>, log: seq<Entry>): Option<TrustedPeer> {
    if log == [] then cur
    else
      var prev, e := PeerAfterAll(fp, q, cur, log[..|log| - 1]), log[|log| - 1];
      if e.committed then PeerAfter(fp, e.op, q, prev) else prev
  }

  function Lookup(m: Book, q: PeerId): Option<TrustedPeer> { if q in m then Some(m[q]) else None }

  lemma ValidityKept(fp: Fp, p: TrustedPeer, now: u64)
    ensures ValidPeer(fp, p.(trust := Revoked)) == ValidPeer(fp, p)
    ensures ValidPeer(fp, p.(lastSeen := Some(now))) == ValidPeer(fp, p)
  {
  }

  lemma MutatePerPeer(fp: Fp, op: Op, m: Book, q: PeerId)
    requires Mutate(op, m).Ok? && forall r | r in m :: ValidPeer(fp, m[r])
    ensures Lookup(ValidPart(fp, Mutate(op, m).value), q) == PeerAfter(fp, op, q, Lookup(m, q))
  {
    var now := if op.Touch? then op.now else 0;
    if q in m { ValidityKept(fp, m[q], now); }
  }

  lemma AppliedPerPeer(fp: Fp, file: Content, op: Op, q: PeerId)
    requires Load(fp, file).Some?
    ensures Load(fp, Applied(fp, file, op)).Some?
    ensures Lookup(Load(fp, Applied(fp, file, op)).value, q) == PeerAfter(fp, op, q, Lookup(Load(fp, file).value, q))
  {
    var m := Load(fp, file).value;
    if Mutate(op, m).Ok? {
      LoadSave(fp, Mutate(op, m).value);
      MutatePerPeer(fp, op, m, q);
    }
  }

  /** No update is lost: what the file holds for a peer is what all committed
      operations on that peer, in lock order, make of the initial entry. */
  lemma {:induction false} NoUpdateLost(fp: Fp, initial: Content, log: seq<Entry>, q: PeerId)
    requires Load(fp, initial).Some?
    ensures Load(fp, Replay(fp, initial, log)).Some?
    ensures Lookup(Load(fp, Replay(fp, initial, log)).value, q) == PeerAfterAll(fp, q, Lookup(Load(fp, initial).value, q), log)
  {
    if log != [] {
      var init, e := log[..|log| - 1], log[|log| - 1];
      NoUpdateLost(fp, initial, init, q);
      if e.committed { AppliedPerPeer(fp, Replay(fp, initial, init), e.op, q); }
    }
  }

  /** An entry whose key derives to its id, or one a committed `Add` put there as it is. */
  predicate Accounted(fp: Fp, log: seq<Entry>, p: TrustedPeer) {
    DerivesTo(fp, p.keyHex, p.peerId) || exists k :: 0 <= k < |log| && log[k].committed && log[k].op == Add(p)
  }

  predicate AllAccounted(fp: Fp, log: seq<Entry>, peers: seq<TrustedPeer>) { forall p | p in peers :: Accounted(fp, log, p) }

  lemma MutateAccounts(fp: Fp, peers: seq<TrustedPeer>, op: Op, q: PeerId)
    requires Mutate(op, LoadPeers(fp, peers)).Ok? && q in Mutate(op, LoadPeers(fp, peers)).value
    ensures var p := Mutate(op, LoadPeers(fp, peers)).value[q]; DerivesTo(fp, p.keyHex, q) || op == Add(p)
  {
    if q in LoadPeers(fp, peers) { LoadedDerives(fp, peers, q); }
  }

  /** A file that was written by the store holds nobody under a key that is not
      theirs, except as a committed `Add` asked for. */
  lemma {:induction false} WrittenFileIsAccounted(fp: Fp, initial: Content, log: seq<Entry>)
    ensures var file := Replay(fp, initial, log); file == initial || (file.Whole? && AllAccounted(fp, log, file.peers))
  {
    if log != [] {
      var init, e := log[..|log| - 1], log[|log| - 1];
      WrittenFileIsAccounted(fp, initial, init);
      var prev := Replay(fp, initial, init);
      if prev.Whole? { forall p | Accounted(fp, init, p) ensures Accounted(fp, log, p) { AccountedLater(fp, log, p); } }
      if e.committed { AppliedAccounts(fp, prev, log); }
    }
  }

  lemma AccountedLater(fp: Fp, log: seq<Entry>, p: TrustedPeer)
    requires log != [] && Accounted(fp, log[..|log| - 1], p)
    ensures Accounted(fp, log, p)
  {
    var init := log[..|log| - 1];
    if !DerivesTo(fp, p.keyHex, p.peerId) {
      var k :| 0 <= k < |init| && init[k].committed && init[k].op == Add(p);
      assert log[k] == init[k];
    }
  }

  lemma AppliedAccounts(fp: Fp, file: Content, log: seq<Entry>)
    requires log != [] && log[|log| - 1].committed
    ensures var file' := Applied(fp, file, log[|log| - 1].op); file' == file || (file'.Whole? && AllAccounted(fp, log, file'.peers))
  {
    var op := log[|log| - 1].op;
    var file' := Applied(fp, file, op);
    if file' != file {
      var peers := if file.Whole? then file.peers else [];
      var m := Mutate(op, LoadPeers(fp, peers)).value;
      assert file' == Whole(Save(m));
      forall p | p in Save(m) ensures Accounted(fp, log, p) {
        var i :| 0 <= i < |Save(m)| && Save(m)[i] == p;
        MutateAccounts(fp, peers, op, p.peerId);
      }
    }
  }

  // ── What a committed operation leaves behind ───────────────────────────────

  predicate Adds(e: Entry, q: PeerId) { e.committed && e.op.Add? && e.op.p.peerId == q }

  /** No committed `Add` of `q` after position `k`. */
  predicate NotAddedAfter(log: seq<Entry>, k: nat, q: PeerId) { forall j | k < j < |log| :: !Adds(log[j], q) }

  lemma {:induction false} RevokeStands(fp: Fp, q: PeerId, cur: Option<TrustedPeer>, log: seq<Entry>, k: nat)
    requires k < |log| && log[k].committed && log[k].op == Revoke(q) && NotAddedAfter(log, k, q)
    ensures PeerAfterAll(fp, q, cur, log).Some? ==> PeerAfterAll(fp, q, cur, log).value.trust == Revoked
  {
    var n := |log| - 1;
    if k < n {
      assert log[..n][k] == log[k] && forall j | k < j < n :: log[..n][j] == log[j];
      RevokeStands(fp, q, cur, log[..n], k);
      assert !Adds(log[n], q);
    }
  }

  lemma {:induction false} RemoveStands(fp: Fp, q: PeerId, cur: Option<TrustedPeer>, log: seq<Entry>, k: nat)
    requires k < |log| && log[k].committed && log[k].op == Remove(q) && NotAddedAfter(log, k, q)
    ensures PeerAfterAll(fp, q, cur, log).None?
  {
    var n := |log| - 1;
    if k < n {
      assert log[..n][k] == log[k] && forall j | k < j < n :: log[..n][j] == log[j];
      RemoveStands(fp, q, cur, log[..n], k);
      assert !Adds(log[n], q);
    }
  }

  /** Nothing committed after position `k` replaces, drops or revokes `q`. */
  predicate OnlyTouchedAfter(log: seq<Entry>, k: nat, q: PeerId) {
    forall j | k < j < |log| && log[j].committed ::
      log[j].op != Remove(q) && log[j].op != Revoke(q) && !(log[j].op.Add? && log[j].op.p.peerId == q)
  }

  /** The time of the last committed `Touch` of `q` after position `k`. */
  function LastTouch(log: seq<Entry>, k: nat, q: PeerId): Option<u64> {
    if |log| <= k + 1 then None
    else
      var e := log[|log| - 1];
      if e.committed && e.op.Touch? && e.op.q == q then Some(e.op.now) else LastTouch(log[..|log| - 1], k, q)
  }

  lemma {:induction false} AddStands(fp: Fp, q: PeerId, cur: Option<TrustedPeer>, log: seq<Entry>, k: nat)
    requires k < |log| && Adds(log[k], q) && DerivesTo(fp, log[k].op.p.keyHex, q) && OnlyTouchedAfter(log, k, q)
    ensures var p, seen := log[k].op.p, LastTouch(log, k, q);
            PeerAfterAll(fp, q, cur, log) == Some(if seen.Some? then p.(lastSeen := seen) else p)
  {
    var n := |log| - 1;
    if k < n {
      assert log[..n][k] == log[k] && forall j | k < j < n :: log[..n][j] == log[j];
      AddStands(fp, q, cur, log[..n], k);
    }
  }
}
