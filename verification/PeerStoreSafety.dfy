/** What every interleaving of the sharing processes keeps about the peers file. */
module PeerStoreSafety {
  import opened Common
  import opened Identity
  import opened Peers
  import opened PeerStore

  // ── The log ────────────────────────────────────────────────────────────────

  lemma ReplayAcquired(fp: Fp, initial: Content, log: seq<Entry>, e: Entry)
    requires !e.committed
    ensures Replay(fp, initial, log + [e]) == Replay(fp, initial, log)
  {
    assert (log + [e])[..|log|] == log;
  }

  lemma ReplayCommitted(fp: Fp, initial: Content, log: seq<Entry>)
    requires log != [] && !log[|log| - 1].committed
    ensures Replay(fp, initial, Commit(log)) == Applied(fp, Replay(fp, initial, log), log[|log| - 1].op)
  {
    var n := |log| - 1;
    assert Commit(log)[..n] == log[..n];
    assert Replay(fp, initial, log) == Replay(fp, initial, log[..n]);
  }

  /** An entry agrees with the call that made it. */
  predicate EntryOk(s: State, e: Entry) {
    && e.t in s.calls && e.op == s.calls[e.t].op
    && var pc := s.calls[e.t].pc;
       && !pc.Waiting?
       && (e.committed ==> pc.Renamed? || pc.Crashed? || pc == Returned(None))
       && (!e.committed ==> !pc.Renamed? && pc != Returned(None))
  }

  ghost predicate Logged(s: State, t: Tid) { exists i :: 0 <= i < |s.log| && s.log[i].t == t }

  ghost predicate LogInv(s: State) {
    && (forall i | 0 <= i < |s.log| :: EntryOk(s, s.log[i]))
    && (forall i, j | 0 <= i < j < |s.log| :: s.log[i].t != s.log[j].t)
    && (forall t | t in s.calls && Commits(s.calls[t].pc) :: Logged(s, t))
  }

  predicate Commits(pc: Pc) { pc.Renamed? || pc == Returned(None) }

  // ── The lock ───────────────────────────────────────────────────────────────

  predicate LockInv(s: State) {
    && (forall t | t in s.calls && Holding(s.calls[t].pc) :: s.lock == Some(t))
    && (s.lock.Some? ==> s.lock.value in s.calls && Holding(s.calls[s.lock.value].pc))
    && (forall t | t in s.calls && !Ended(s.calls[t].pc) :: s.calls[t].pid in s.mem)
  }

  /** What the lock holder has established. */
  ghost predicate HolderOk(fp: Fp, s: State, t: Tid)
    requires t in s.calls && s.calls[t].pid in s.mem
  {
    var c, m := s.calls[t], s.mem[s.calls[t].pid];
    && s.log != [] && s.log[|s.log| - 1] == Entry(t, c.op, c.pc.Renamed?)
    && (c.pc.Loaded? ==> Load(fp, s.file) == Some(m))
    && (c.pc.Mutated? || c.pc.TempOpen? || c.pc.TempFull? ==> Applied(fp, s.file, c.op) == Whole(Save(m)))
    && (c.pc.TempFull? ==> t in s.temps && s.temps[t] == Whole(Save(m)))
    && (c.pc.Renamed? ==> s.file == Whole(Save(m)))
  }

  ghost predicate FileInv(fp: Fp, s: State) { s.file == Replay(fp, s.initial, s.log) && s.file != Torn }

  ghost predicate Inv(fp: Fp, s: State) {
    && LockInv(s) && LogInv(s) && FileInv(fp, s)
    && (s.lock.Some? ==> HolderOk(fp, s, s.lock.value))
  }

  // ── Lock and log ───────────────────────────────────────────────────────────

  /** What a call's step changes besides the files: its own position, the lock, and its process's memory. */
  predicate Steps(s: State, t: Tid, s': State) {
    && t in s.calls && t in s'.calls
    && s'.calls == s.calls[t := s.calls[t].(pc := s'.calls[t].pc)]
    && s'.mem.Keys == s.mem.Keys
    && s'.lock == (if Holding(s'.calls[t].pc) then Some(t) else None)
  }

  /** The steps up to the change of the map. */
  predicate Early(pc: Pc) { pc.Waiting? || pc.Locked? || pc.Loaded? }

  lemma EarlyShape(fp: Fp, s: State, t: Tid, ok: bool)
    requires LockInv(s) && Enabled(fp, s, Step(t, ok)) && Early(s.calls[t].pc)
    ensures Steps(s, t, StepCall(fp, s, t, ok))
  {
  }

  lemma LateShape(fp: Fp, s: State, t: Tid, ok: bool)
    requires LockInv(s) && Enabled(fp, s, Step(t, ok)) && !Early(s.calls[t].pc)
    ensures Steps(s, t, StepCall(fp, s, t, ok))
  {
  }

  lemma StepShape(fp: Fp, s: State, t: Tid, ok: bool)
    requires LockInv(s) && Enabled(fp, s, Step(t, ok))
    ensures Steps(s, t, Apply(fp, s, Step(t, ok)))
  {
    if Early(s.calls[t].pc) { EarlyShape(fp, s, t, ok); } else { LateShape(fp, s, t, ok); }
  }

  lemma LockStep(fp: Fp, s: State, a: Action)
    requires LockInv(s) && Enabled(fp, s, a)
    ensures LockInv(Apply(fp, s, a))
  {
    if a.Step? {
      StepShape(fp, s, a.t, a.ok);
      LockMoves(s, a.t, Apply(fp, s, a));
    }
  }

  lemma LockMoves(s: State, t: Tid, s': State)
    requires LockInv(s) && Steps(s, t, s') && (s.lock == None || s.lock == Some(t)) && s.calls[t].pid in s.mem
    ensures LockInv(s')
  {
  }

  /** Call `t` moved; its entries still agree, and so do all others. */
  lemma LogKept(s: State, s': State)
    requires LogInv(s) && s'.log == s.log
    requires forall t | t in s.calls :: t in s'.calls && s'.calls[t].op == s.calls[t].op
    requires forall t | t in s.calls :: SameStanding(s.calls[t].pc, s'.calls[t].pc)
    requires forall t | t in s'.calls && t !in s.calls :: s'.calls[t].pc.Waiting?
    ensures LogInv(s')
  {
    forall i | 0 <= i < |s'.log| ensures EntryOk(s', s'.log[i]) { assert EntryOk(s, s.log[i]); }
    forall t | t in s'.calls && Commits(s'.calls[t].pc) ensures Logged(s', t) {
      assert Logged(s, t);
      var i :| 0 <= i < |s.log| && s.log[i].t == t;
      assert s'.log[i].t == t;
    }
  }

  /** The move from one position to another keeps what the log says of the call. */
  predicate SameStanding(pc: Pc, pc': Pc) {
    || pc == pc'
    || (pc'.Crashed? && !Ended(pc) && !pc.Waiting?)
    || (pc.Waiting? && (pc'.Crashed? || (pc'.Returned? && pc'.error.Some?)))
    || (pc.Renamed? && pc' == Returned(None))
    || (Holding(pc) && !pc.Renamed? && (Holding(pc') || (pc'.Returned? && pc'.error.Some?)) && !pc'.Renamed?)
  }

  lemma LogAcquire(s: State, t: Tid)
    requires LogInv(s) && t in s.calls && s.calls[t].pc.Waiting?
    ensures LogInv(StepAcquire(s, t, true))
  {
    var s' := StepAcquire(s, t, true);
    forall i | 0 <= i < |s'.log| ensures EntryOk(s', s'.log[i]) {
      if i < |s.log| { assert EntryOk(s, s.log[i]); }
    }
    forall i, j | 0 <= i < j < |s'.log| ensures s'.log[i].t != s'.log[j].t {
      assert EntryOk(s, s.log[i]);
    }
    forall u | u in s'.calls && Commits(s'.calls[u].pc) ensures Logged(s', u) {
      assert Logged(s, u);
      var i :| 0 <= i < |s.log| && s.log[i].t == u;
      assert s'.log[i].t == u;
    }
  }

  lemma LogRename(s: State, t: Tid)
    requires LogInv(s) && t in s.calls && s.calls[t].pc.TempFull? && t in s.temps
    requires s.log != [] && s.log[|s.log| - 1].t == t
    ensures LogInv(StepRename(s, t, true))
  {
    var s' := StepRename(s, t, true);
    var n := |s.log| - 1;
    forall i | 0 <= i < |s'.log| ensures EntryOk(s', s'.log[i]) {
      assert EntryOk(s, s.log[i]);
      assert i < n ==> s.log[i].t != s.log[n].t;
    }
    assert s'.log[n].t == t;
    forall u | u in s'.calls && Commits(s'.calls[u].pc) && u != t ensures Logged(s', u) {
      assert Logged(s, u);
      var i :| 0 <= i < |s.log| && s.log[i].t == u;
      assert s'.log[i].t == u;
    }
  }

  predicate Acquires(s: State, a: Action) { a.Step? && a.ok && a.t in s.calls && s.calls[a.t].pc.Waiting? }

  predicate Renames(s: State, a: Action) { a.Step? && a.ok && a.t in s.calls && s.calls[a.t].pc.TempFull? && a.t in s.temps }

  /** A call's step that neither acquires nor renames. */
  lemma CallStands(fp: Fp, s: State, t: Tid, ok: bool)
    requires Enabled(fp, s, Step(t, ok)) && !Acquires(s, Step(t, ok)) && !Renames(s, Step(t, ok))
    ensures var s' := Apply(fp, s, Step(t, ok));
            s'.log == s.log && s'.file == s.file && t in s'.calls && SameStanding(s.calls[t].pc, s'.calls[t].pc)
  {
    if Early(s.calls[t].pc) { EarlyStands(fp, s, t, ok); } else { LateStands(fp, s, t, ok); }
  }

  lemma EarlyStands(fp: Fp, s: State, t: Tid, ok: bool)
    requires Enabled(fp, s, Step(t, ok)) && !Acquires(s, Step(t, ok)) && Early(s.calls[t].pc)
    ensures var s' := StepCall(fp, s, t, ok);
            s'.log == s.log && s'.file == s.file && t in s'.calls && SameStanding(s.calls[t].pc, s'.calls[t].pc)
  {
  }

  lemma LateStands(fp: Fp, s: State, t: Tid, ok: bool)
    requires Enabled(fp, s, Step(t, ok)) && !Renames(s, Step(t, ok)) && !Early(s.calls[t].pc)
    ensures var s' := StepCall(fp, s, t, ok);
            s'.log == s.log && s'.file == s.file && t in s'.calls && SameStanding(s.calls[t].pc, s'.calls[t].pc)
  {
  }

  lemma OthersStand(fp: Fp, s: State, a: Action)
    requires Enabled(fp, s, a) && !Acquires(s, a) && !Renames(s, a) && LockInv(s)
    ensures var s' := Apply(fp, s, a);
            && s'.log == s.log && s'.file == s.file
            && (forall t | t in s.calls :: t in s'.calls && s'.calls[t].op == s.calls[t].op)
            && (forall t | t in s.calls :: SameStanding(s.calls[t].pc, s'.calls[t].pc))
            && (forall t | t in s'.calls && t !in s.calls :: s'.calls[t].pc.Waiting?)
  {
    if a.Step? {
      CallStands(fp, s, a.t, a.ok);
      StepShape(fp, s, a.t, a.ok);
    }
  }

  lemma LogStep(fp: Fp, s: State, a: Action)
    requires Inv(fp, s) && Enabled(fp, s, a)
    ensures LogInv(Apply(fp, s, a))
  {
    if Acquires(s, a) {
      LogAcquire(s, a.t);
    } else if Renames(s, a) {
      LogRename(s, a.t);
    } else {
      OthersStand(fp, s, a);
      LogKept(s, Apply(fp, s, a));
    }
  }

  // ── File and holder ────────────────────────────────────────────────────────

  lemma FileStep(fp: Fp, s: State, a: Action)
    requires Inv(fp, s) && Enabled(fp, s, a)
    ensures FileInv(fp, Apply(fp, s, a))
  {
    if Acquires(s, a) {
      ReplayAcquired(fp, s.initial, s.log, Entry(a.t, s.calls[a.t].op, false));
    } else if Renames(s, a) {
      ReplayCommitted(fp, s.initial, s.log);
    } else {
      OthersStand(fp, s, a);
      InitialKept(fp, s, a);
    }
  }

  lemma InitialKept(fp: Fp, s: State, a: Action)
    requires Enabled(fp, s, a)
    ensures Apply(fp, s, a).initial == s.initial
  {
  }

  /** A step of the holder itself. */
  lemma HolderSteps(fp: Fp, s: State, t: Tid, ok: bool)
    requires Enabled(fp, s, Step(t, ok)) && s.lock == Some(t) && Holding(s.calls[t].pc) && HolderOk(fp, s, t)
    ensures var s' := Apply(fp, s, Step(t, ok));
            s'.lock.Some? ==> s'.lock == Some(t) && t in s'.calls && s'.calls[t].pid in s'.mem && HolderOk(fp, s', t)
  {
    if Early(s.calls[t].pc) { HolderEarly(fp, s, t, ok); } else { HolderLate(fp, s, t, ok); }
  }

  lemma HolderEarly(fp: Fp, s: State, t: Tid, ok: bool)
    requires Enabled(fp, s, Step(t, ok)) && s.lock == Some(t) && HolderOk(fp, s, t)
    requires Holding(s.calls[t].pc) && Early(s.calls[t].pc)
    ensures var s' := StepCall(fp, s, t, ok);
            s'.lock == Some(t) && t in s'.calls && s'.calls[t].pid in s'.mem && HolderOk(fp, s', t)
  {
    var c := s.calls[t];
    if c.pc.Loaded? {
      var m := s.mem[c.pid];
      assert Mutate(c.op, m).Ok? ==> Applied(fp, s.file, c.op) == Whole(Save(Mutate(c.op, m).value));
    }
  }

  lemma HolderLate(fp: Fp, s: State, t: Tid, ok: bool)
    requires Enabled(fp, s, Step(t, ok)) && s.lock == Some(t) && HolderOk(fp, s, t)
    requires Holding(s.calls[t].pc) && !Early(s.calls[t].pc)
    ensures var s' := StepCall(fp, s, t, ok);
            s'.lock.Some? ==> s'.lock == Some(t) && t in s'.calls && s'.calls[t].pid in s'.mem && HolderOk(fp, s', t)
  {
  }

  /** Nobody else touches what the holder relies on. */
  lemma HolderUndisturbed(fp: Fp, s: State, a: Action)
    requires Inv(fp, s) && Enabled(fp, s, a) && s.lock.Some? && !(a.Step? && s.lock == Some(a.t))
    requires Apply(fp, s, a).lock.Some?
    ensures var t, s' := s.lock.value, Apply(fp, s, a);
            s'.lock == s.lock && t in s'.calls && s'.calls[t].pid in s'.mem && HolderOk(fp, s', t)
  {
    var t, s' := s.lock.value, Apply(fp, s, a);
    assert HolderOk(fp, s, t);
    assert !a.Step?;
    assert s'.calls[t] == s.calls[t] && s'.mem[s.calls[t].pid] == s.mem[s.calls[t].pid];
  }

  lemma HolderStep(fp: Fp, s: State, a: Action)
    requires Inv(fp, s) && Enabled(fp, s, a) && LockInv(Apply(fp, s, a))
    ensures Apply(fp, s, a).lock.Some? ==> HolderOk(fp, Apply(fp, s, a), Apply(fp, s, a).lock.value)
  {
    if Apply(fp, s, a).lock.Some? {
      if s.lock.None? {
        assert Acquires(s, a);
      } else if a.Step? && s.lock == Some(a.t) {
        HolderSteps(fp, s, a.t, a.ok);
      } else {
        HolderUndisturbed(fp, s, a);
      }
    }
  }

  lemma StepInv(fp: Fp, s: State, a: Action)
    requires Inv(fp, s) && Enabled(fp, s, a)
    ensures Inv(fp, Apply(fp, s, a))
  {
    LockStep(fp, s, a);
    LogStep(fp, s, a);
    FileStep(fp, s, a);
    HolderStep(fp, s, a);
  }

  lemma {:induction false} RunInv(fp: Fp, states: seq<State>, actions: seq<Action>, i: nat)
    requires IsRun(fp, states, actions) && i < |states|
    ensures Inv(fp, states[i]) && states[i].initial == states[0].initial
  {
    if i > 0 {
      RunInv(fp, states, actions, i - 1);
      StepInv(fp, states[i - 1], actions[i - 1]);
      InitialKept(fp, states[i - 1], actions[i - 1]);
    }
  }

  // ── Theorems over whole runs ───────────────────────────────────────────────

  /** The file is always the committed mutations applied to the initial file in
      the order of the lock, each to the valid entries before it, and is never
      partially written. */
  lemma {:induction false} FileIsCommittedMutations(fp: Fp, states: seq<State>, actions: seq<Action>, i: nat)
    requires IsRun(fp, states, actions) && i < |states|
    ensures states[i].file == Replay(fp, states[0].initial, states[i].log)
    ensures states[i].file != Torn
  {
    RunInv(fp, states, actions, i);
  }

  /** Peer by peer, the file holds what every committed operation on that peer made of it. */
  lemma {:induction false} EveryPeerIsUpToDate(fp: Fp, states: seq<State>, actions: seq<Action>, i: nat, q: PeerId)
    requires IsRun(fp, states, actions) && i < |states| && Load(fp, states[0].initial).Some?
    ensures Load(fp, states[i].file).Some?
    ensures Lookup(Load(fp, states[i].file).value, q)
         == PeerAfterAll(fp, q, Lookup(Load(fp, states[0].initial).value, q), states[i].log)
  {
    RunInv(fp, states, actions, i);
    NoUpdateLost(fp, states[0].initial, states[i].log, q);
  }

  /** What committed operations mean to every later reader: a revoked peer stays
      revoked and a removed one stays out until it is added again. */
  lemma {:induction false} RevokedStaysRevoked(fp: Fp, states: seq<State>, actions: seq<Action>, i: nat, k: nat, q: PeerId)
    requires IsRun(fp, states, actions) && i < |states| && Load(fp, states[0].initial).Some?
    requires k < |states[i].log| && states[i].log[k].committed && NotAddedAfter(states[i].log, k, q)
    ensures Load(fp, states[i].file).Some?
    ensures states[i].log[k].op == Revoke(q) && q in Load(fp, states[i].file).value ==> Load(fp, states[i].file).value[q].trust == Revoked
    ensures states[i].log[k].op == Remove(q) ==> q !in Load(fp, states[i].file).value
  {
    EveryPeerIsUpToDate(fp, states, actions, i, q);
    var cur := Lookup(Load(fp, states[0].initial).value, q);
    if states[i].log[k].op == Revoke(q) { RevokeStands(fp, q, cur, states[i].log, k); }
    if states[i].log[k].op == Remove(q) { RemoveStands(fp, q, cur, states[i].log, k); }
  }

  /** A committed `Add` of a peer under its own key is what every later reader
      finds, with the time of the last touch, until the peer is added, revoked or removed. */
  lemma {:induction false} AddedIsFound(fp: Fp, states: seq<State>, actions: seq<Action>, i: nat, k: nat, q: PeerId)
    requires IsRun(fp, states, actions) && i < |states| && Load(fp, states[0].initial).Some?
    requires k < |states[i].log| && Adds(states[i].log[k], q) && OnlyTouchedAfter(states[i].log, k, q)
    requires DerivesTo(fp, states[i].log[k].op.p.keyHex, q)
    ensures Load(fp, states[i].file).Some? && q in Load(fp, states[i].file).value
    ensures var p, seen := states[i].log[k].op.p, LastTouch(states[i].log, k, q);
            Load(fp, states[i].file).value[q] == if seen.Some? then p.(lastSeen := seen) else p
  {
    EveryPeerIsUpToDate(fp, states, actions, i, q);
    AddStands(fp, q, Lookup(Load(fp, states[0].initial).value, q), states[i].log, k);
  }

  /** In every state nobody is read from the file under a key that is not
      theirs, and a file the store wrote holds such an entry only as a committed
      `Add` asked for. */
  lemma {:induction false} KeysMatchIds(fp: Fp, states: seq<State>, actions: seq<Action>, i: nat)
    requires IsRun(fp, states, actions) && i < |states|
    ensures Load(fp, states[i].file).Some? ==>
              forall q | q in Load(fp, states[i].file).value :: DerivesTo(fp, Load(fp, states[i].file).value[q].keyHex, q)
    ensures states[i].file != states[0].initial ==> states[i].file.Whole? && AllAccounted(fp, states[i].log, states[i].file.peers)
  {
    FileIsCommittedMutations(fp, states, actions, i);
    WrittenFileIsAccounted(fp, states[0].initial, states[i].log);
    if states[i].file.Whole? {
      var peers := states[i].file.peers;
      forall q | q in LoadPeers(fp, peers) ensures DerivesTo(fp, LoadPeers(fp, peers)[q].keyHex, q) { LoadedDerives(fp, peers, q); }
    }
  }

  ghost predicate CommittedBy(s: State, t: Tid) {
    exists i :: 0 <= i < |s.log| && s.log[i].t == t && s.log[i].committed
  }

  /** A call that returned was committed exactly if it returned success, and no
      call is committed twice. */
  lemma {:induction false} SuccessIsCommitted(fp: Fp, states: seq<State>, actions: seq<Action>, i: nat, t: Tid)
    requires IsRun(fp, states, actions) && i < |states| && t in states[i].calls && states[i].calls[t].pc.Returned?
    ensures CommittedBy(states[i], t) <==> states[i].calls[t].pc == Returned(None)
    ensures forall j, k | 0 <= j < k < |states[i].log| :: states[i].log[j].t != states[i].log[k].t
  {
    RunInv(fp, states, actions, i);
    var s := states[i];
    if s.calls[t].pc == Returned(None) {
      assert Logged(s, t);
      var j :| 0 <= j < |s.log| && s.log[j].t == t;
      assert EntryOk(s, s.log[j]);
    } else {
      assert forall j | 0 <= j < |s.log| :: EntryOk(s, s.log[j]);
    }
  }

  /** Success is reported only after the rename. */
  lemma SuccessAfterRename(fp: Fp, s: State, t: Tid, ok: bool)
    requires Enabled(fp, s, Step(t, ok)) && t in Apply(fp, s, Step(t, ok)).calls
    requires Apply(fp, s, Step(t, ok)).calls[t].pc == Returned(None)
    ensures s.calls[t].pc.Renamed?
  {
  }

  lemma ReleaseKeeps(fp: Fp, s: State, t: Tid, ok: bool)
    requires Enabled(fp, s, Step(t, ok)) && s.calls[t].pc.Renamed?
    ensures Apply(fp, s, Step(t, ok)) == Release(s, t, None)
  {
  }

  /** What the holder has established right after the rename. */
  lemma RenamedIsOnDisk(fp: Fp, s: State, t: Tid)
    requires Inv(fp, s) && t in s.calls && s.calls[t].pc.Renamed?
    ensures s.calls[t].pid in s.mem && s.file == Whole(Save(s.mem[s.calls[t].pid]))
  {
    assert HolderOk(fp, s, t);
  }

  /** At the step that reports success the file is the writer's memory. */
  lemma {:induction false} SuccessLeavesMemoryOnDisk(fp: Fp, states: seq<State>, actions: seq<Action>, i: nat, t: Tid, ok: bool)
    requires IsRun(fp, states, actions) && i < |actions| && actions[i] == Step(t, ok)
    requires states[i + 1].calls[t].pc == Returned(None)
    ensures var s := states[i + 1]; s.calls[t].pid in s.mem && s.file == Whole(Save(s.mem[s.calls[t].pid]))
    ensures var s := states[i + 1]; Load(fp, s.file) == Some(ValidPart(fp, s.mem[s.calls[t].pid]))
  {
    var s := states[i];
    RunInv(fp, states, actions, i);
    SuccessAfterRename(fp, s, t, ok);
    ReleaseKeeps(fp, s, t, ok);
    RenamedIsOnDisk(fp, s, t);
    LoadSave(fp, s.mem[s.calls[t].pid]);
  }

  /** A step of a call that ends in a failure or returns, and why: only I/O that
      fails is reported as `Io`, only a file that is no peers document as `Parse`,
      and `NotFound` only for revoking a peer the file does not hold; the reason
      is returned as it was found. */
  predicate FailureTrue(fp: Fp, s: State, op: Op, pc: Pc, pc': Pc, ok: bool) {
    && (pc'.Returned? ==>
          || (pc.Renamed? && pc'.error == None)
          || (pc.Failing? && pc'.error == Some(pc.e))
          || (pc.Waiting? && !ok && pc'.error == Some(Io)))
    && (pc'.Failing? ==>
          match pc'.e
          case Io => !ok && (pc.Locked? || pc.Mutated? || pc.TempOpen? || pc.TempFull?)
          case Parse => pc.Locked? && ok && (s.file == Garbage || s.file == Torn)
          case NotFound(q) => pc.Loaded? && op == Revoke(q) && Load(fp, s.file).Some? && q !in Load(fp, s.file).value)
  }

  lemma FailureStep(fp: Fp, s: State, t: Tid, ok: bool)
    requires Enabled(fp, s, Step(t, ok)) && (Holding(s.calls[t].pc) ==> HolderOk(fp, s, t))
    ensures t in Apply(fp, s, Step(t, ok)).calls
    ensures FailureTrue(fp, s, s.calls[t].op, s.calls[t].pc, Apply(fp, s, Step(t, ok)).calls[t].pc, ok)
  {
  }

  lemma {:induction false} FailuresAreTrue(fp: Fp, states: seq<State>, actions: seq<Action>, i: nat, t: Tid, ok: bool)
    requires IsRun(fp, states, actions) && i < |actions| && actions[i] == Step(t, ok)
    ensures t in states[i].calls && t in states[i + 1].calls
    ensures FailureTrue(fp, states[i], states[i].calls[t].op, states[i].calls[t].pc, states[i + 1].calls[t].pc, ok)
    ensures states[i + 1].calls[t].pc == Failing(Parse) ==> states[i].file == Garbage
  {
    RunInv(fp, states, actions, i);
    FileIsCommittedMutations(fp, states, actions, i);
    FailureStep(fp, states[i], t, ok);
  }

  predicate LogGrows(a: seq<Entry>, b: seq<Entry>) {
    |a| <= |b| && forall k | 0 <= k < |a| :: b[k].t == a[k].t && b[k].op == a[k].op && (a[k].committed ==> b[k].committed)
  }

  lemma {:induction false} LogGrowsAlong(logs: seq<seq<Entry>>, i: nat, j: nat)
    requires i <= j < |logs| && forall k | 0 <= k < |logs| - 1 :: LogGrows(logs[k], logs[k + 1])
    ensures LogGrows(logs[i], logs[j])
    decreases j
  {
    if i < j {
      LogGrowsAlong(logs, i, j - 1);
      assert LogGrows(logs[j - 1], logs[j - 1 + 1]);
      LogGrowsOn(logs[i], logs[j - 1], logs[j]);
    }
  }

  /** The log is a history: acquisitions keep their place, and a commit is never taken back. */
  lemma {:induction false} CommitsAreFinal(fp: Fp, states: seq<State>, actions: seq<Action>, i: nat, j: nat)
    requires IsRun(fp, states, actions) && i <= j < |states|
    ensures LogGrows(states[i].log, states[j].log)
  {
    var logs := seq(|states|, k requires 0 <= k < |states| => states[k].log);
    forall k | 0 <= k < |logs| - 1 ensures LogGrows(logs[k], logs[k + 1]) { NextLogGrows(fp, states, actions, k); }
    LogGrowsAlong(logs, i, j);
  }

  lemma {:induction false} NextLogGrows(fp: Fp, states: seq<State>, actions: seq<Action>, i: nat)
    requires IsRun(fp, states, actions) && i < |actions|
    ensures LogGrows(states[i].log, states[i + 1].log)
  {
    RunInv(fp, states, actions, i);
    LogGrowsStep(fp, states[i], actions[i]);
  }

  lemma LogGrowsOn(a: seq<Entry>, b: seq<Entry>, c: seq<Entry>)
    requires LogGrows(a, b) && LogGrows(b, c)
    ensures LogGrows(a, c)
  {
  }

  lemma LogGrowsStep(fp: Fp, s: State, a: Action)
    requires Enabled(fp, s, a) && LockInv(s)
    ensures LogGrows(s.log, Apply(fp, s, a).log)
  {
    if !Acquires(s, a) && !Renames(s, a) { OthersStand(fp, s, a); }
  }

  /** No call waits for nothing: one that cannot move waits for a holder that can. */
  lemma {:induction false} NoDeadlock(fp: Fp, states: seq<State>, actions: seq<Action>, i: nat, t: Tid, ok: bool)
    requires IsRun(fp, states, actions) && i < |states| && t in states[i].calls && !Ended(states[i].calls[t].pc)
    ensures var s := states[i];
            || Enabled(fp, s, Step(t, ok))
            || (s.lock.Some? && s.lock.value in s.calls && Holding(s.calls[s.lock.value].pc) && Enabled(fp, s, Step(s.lock.value, ok)))
  {
    RunInv(fp, states, actions, i);
  }
}
