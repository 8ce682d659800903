/** One host session of the networked pairing (crates/entangle-pairing/src/net.rs).

    Frames are handled by any number of concurrent handlers; a step is one
    critical section of the session mutex or one decision taken outside it. */
module PairingHost {
  import opened Common
  import opened Text
  import opened Identity

  // ── Wire ───────────────────────────────────────────────────────────────────

  /** Signatures as unforgeable terms: who signed what. */
  datatype Sig = Sig(signer: Key, payload: Bytes)

  datatype RejectReason = BadCode | ExpiredSession | TooManyAttempts | AlreadyPaired | Malformed

  datatype Offer = Offer(peerId: PeerId, keyHex: string, name: string, nonce: Nonce)

  /** `sig` is `None` when the text is not a well-formed signature. */
  datatype Accept = Accept(peerId: PeerId, keyHex: string, name: string, sig: Option<Sig>)

  datatype Wire =
    | Hello(version: u16)
    | OfferFrame(offer: Offer)
    | AcceptFrame(accept: Accept)
    | FinalizeFrame(sig: Option<Sig>)
    | Rejected(reason: RejectReason)

  /** A frame on the link: a message, or bytes `PairingWire::decode` refuses. */
  datatype Frame = Message(wire: Wire) | Undecodable

  const PROTOCOL_VERSION: u16 := 1

  datatype PairedPeer = PairedPeer(peerId: PeerId, keyHex: string, name: string)

  // ── Session ────────────────────────────────────────────────────────────────

  datatype SessionEnd = Paired | Expired | AttemptsExhausted

  /** The immutable part; `ttl` in clock units since the session started. */
  datatype Host = Host(key: Key, name: string, code: Code, nonce: Nonce, ttl: nat, maxAttempts: u32)

  predicate ValidHost(h: Host) { h.maxAttempts >= 1 && Sanitize(h.name) == h.name }

  /** Behind the mutex. */
  datatype HostState = HostState(attempts: u32, outcome: Option<PairedPeer>, ended: Option<SessionEnd>)

  function OfferOf(fp: Key -> PeerId, h: Host): Offer { Offer(fp(h.key), HexEncode(h.key), h.name, h.nonce) }

  function FinalizeOf(h: Host): Sig { Sig(h.key, Payload(h.code, h.nonce)) }

  /** The checks of `verify_accept` that precede its critical section. */
  predicate Proves(fp: Key -> PeerId, h: Host, remote: Key, a: Accept) {
    && DecodeKey(a.keyHex) == Some(remote)
    && a.peerId == fp(remote)
    && a.sig == Some(Sig(remote, Payload(h.code, h.nonce)))
  }

  function PairedBy(remote: Key, a: Accept): PairedPeer { PairedPeer(a.peerId, HexEncode(remote), Sanitize(a.name)) }

  // ── Critical sections ──────────────────────────────────────────────────────

  function ExpireLocked(st: HostState): HostState { if st.ended.None? then st.(ended := Some(Expired)) else st }

  function ReasonFor(e: SessionEnd): RejectReason {
    match e
    case Paired => AlreadyPaired
    case Expired => ExpiredSession
    case AttemptsExhausted => TooManyAttempts
  }

  /** `record_failed_attempt`. */
  function FailLocked(h: Host, st: HostState, reason: RejectReason): (HostState, RejectReason) {
    var counted := st.(attempts := if st.attempts == U32_LIMIT - 1 then st.attempts else st.attempts + 1);
    if counted.attempts >= h.maxAttempts && counted.ended.None?
    then (counted.(ended := Some(AttemptsExhausted)), TooManyAttempts)
    else (counted, reason)
  }

  function PairLocked(st: HostState, p: PairedPeer): HostState { st.(outcome := Some(p), ended := Some(Paired)) }

  // ── Handlers ───────────────────────────────────────────────────────────────

  /** Where a handler of one frame stands. */
  datatype Pc =
    | Arrived
    | Due                               // found the session over its time
    | InTime                            // about to read `ended`
    | Checked                           // saw the session live
    | Proven(peer: PairedPeer)
    | Failing(reason: RejectReason)
    | Replied(wire: Wire)

  /** `conn` names the connection the frame came in on; `remote` is the key it authenticated. */
  datatype Handler = Handler(conn: nat, remote: Key, frame: Frame, pc: Pc)

  /** What the handler does with the frame once it saw the session live. */
  function Decide(fp: Key -> PeerId, h: Host, remote: Key, frame: Frame): Pc {
    match frame
    case Undecodable => Replied(Rejected(Malformed))
    case Message(Hello(v)) =>
      if v != PROTOCOL_VERSION then Replied(Rejected(Malformed)) else Replied(OfferFrame(OfferOf(fp, h)))
    case Message(AcceptFrame(a)) =>
      if Proves(fp, h, remote, a) then Proven(PairedBy(remote, a)) else Failing(BadCode)
    case Message(_) => Replied(Rejected(Malformed))
  }

  /** One step of a handler: the new session state and where it stands next. */
  function HandlerStep(fp: Key -> PeerId, h: Host, st: HostState, elapsed: nat, hd: Handler): (HostState, Pc) {
    match hd.pc
    case Arrived => (st, if elapsed <= h.ttl then InTime else Due)
    case Due =>
      var st' := ExpireLocked(st);
      (st', if st'.ended == Some(Expired) then Replied(Rejected(ExpiredSession)) else InTime)
    case InTime => (st, if st.ended.Some? then Replied(Rejected(ReasonFor(st.ended.value))) else Checked)
    case Checked => (st, Decide(fp, h, hd.remote, hd.frame))
    case Proven(p) =>
      if st.ended.Some? then (st, Failing(AlreadyPaired))
      else (PairLocked(st, p), Replied(FinalizeFrame(Some(FinalizeOf(h)))))
    case Failing(reason) =>
      var r := FailLocked(h, st, reason);
      (r.0, Replied(Rejected(r.1)))
    case Replied(_) => (st, hd.pc)
  }

  // ── The machine ────────────────────────────────────────────────────────────

  type Hid = nat

  /** At most `limit` handlers run at a time; the accept loop of mesh.rs has `limit == 1`. */
  datatype State = State(host: Host, st: HostState, elapsed: nat, limit: nat, handlers: map<Hid, Handler>)

  datatype Action =
    | Arrive(hid: Hid, conn: nat, remote: Key, frame: Frame)
    | Run(hid: Hid)
    | Observe                           // `is_finished` finds the session due
    | Tick(d: nat)

  function InFlight(s: State): set<Hid> { set x | x in s.handlers && !s.handlers[x].pc.Replied? }

  predicate Enabled(s: State, a: Action) {
    match a
    case Arrive(hid, _, _, _) => hid !in s.handlers && |InFlight(s)| < s.limit
    case Run(hid) => hid in s.handlers && !s.handlers[hid].pc.Replied?
    case Observe => s.elapsed > s.host.ttl
    case Tick(_) => true
  }

  function Apply(fp: Key -> PeerId, s: State, a: Action): State
    requires Enabled(s, a)
  {
    match a
    case Arrive(hid, conn, remote, frame) => s.(handlers := s.handlers[hid := Handler(conn, remote, frame, Arrived)])
    case Run(hid) =>
      var r := HandlerStep(fp, s.host, s.st, s.elapsed, s.handlers[hid]);
      s.(st := r.0, handlers := s.handlers[hid := s.handlers[hid].(pc := r.1)])
    case Observe => s.(st := ExpireLocked(s.st))
    case Tick(d) => s.(elapsed := s.elapsed + d)
  }

  predicate Init(s: State) {
    ValidHost(s.host) && s.st == HostState(0, None, None) && s.handlers == map[]
  }

  ghost predicate IsRun(fp: Key -> PeerId, states: seq<State>, actions: seq<Action>) {
    && |states| == |actions| + 1
    && Init(states[0])
    && forall i | 0 <= i < |actions| ::
         Enabled(states[i], actions[i]) && states[i + 1] == Apply(fp, states[i], actions[i])
  }

  // ── Invariant ──────────────────────────────────────────────────────────────

  /** Handlers that saw the session live and have not answered. */
  predicate PastCheck(pc: Pc) { pc.Checked? || pc.Proven? || pc.Failing? }

  function Guessing(s: State): set<Hid> { set x | x in s.handlers && PastCheck(s.handlers[x].pc) }

  predicate Finalized(hd: Handler) { hd.pc.Replied? && hd.pc.wire.FinalizeFrame? }

  /** What a handler's position says about its frame and the session. */
  predicate HandlerOk(fp: Key -> PeerId, h: Host, st: HostState, hd: Handler) {
    && (hd.pc.Proven? ==>
          && hd.frame.Message? && hd.frame.wire.AcceptFrame? && Proves(fp, h, hd.remote, hd.frame.wire.accept)
          && hd.pc.peer == PairedBy(hd.remote, hd.frame.wire.accept))
    && (Finalized(hd) ==>
          && hd.frame.Message? && hd.frame.wire.AcceptFrame? && Proves(fp, h, hd.remote, hd.frame.wire.accept)
          && hd.pc.wire.sig == Some(FinalizeOf(h))
          && st.ended == Some(Paired) && st.outcome == Some(PairedBy(hd.remote, hd.frame.wire.accept)))
    && (hd.pc.Replied? && hd.pc.wire.OfferFrame? ==> hd.pc.wire.offer == OfferOf(fp, h))
  }

  /** Every failed attempt was made by a handler that saw the session live, and
      at most `limit` of those were left when it ended. */
  predicate Budget(s: State) {
    && (s.st.ended.None? ==> s.st.attempts < s.host.maxAttempts)
    && |InFlight(s)| <= s.limit
    && s.st.attempts + |Guessing(s)| <= s.host.maxAttempts + s.limit - 1
  }

  ghost predicate SessionOk(fp: Key -> PeerId, s: State) {
    && ValidHost(s.host)
    && (s.st.outcome.Some? <==> s.st.ended == Some(Paired))
    && (forall x | x in s.handlers :: HandlerOk(fp, s.host, s.st, s.handlers[x]))
    && (forall x, y | x in s.handlers && y in s.handlers && Finalized(s.handlers[x]) && Finalized(s.handlers[y]) :: x == y)
    && (s.st.ended == Some(Paired) ==> exists x :: x in s.handlers && Finalized(s.handlers[x]))
  }

  ghost predicate Inv(fp: Key -> PeerId, s: State) { Budget(s) && SessionOk(fp, s) }

  lemma SubsetSize<T>(a: set<T>, b: set<T>)
    requires a <= b
    ensures |a| <= |b|
  {
    assert |b| == |a| + |b - a|;
  }

  lemma BudgetArrive(fp: Key -> PeerId, s: State, a: Action)
    requires Budget(s) && Enabled(s, a) && a.Arrive?
    ensures Budget(Apply(fp, s, a))
  {
    var s' := Apply(fp, s, a);
    assert InFlight(s') == InFlight(s) + {a.hid};
    assert Guessing(s') == Guessing(s);
  }

  /** A handler's step changes only its own membership. */
  lemma BudgetRun(fp: Key -> PeerId, s: State, hid: Hid)
    requires Budget(s) && Enabled(s, Run(hid))
    ensures Budget(Apply(fp, s, Run(hid)))
  {
    var s' := Apply(fp, s, Run(hid));
    var pc, pc' := s.handlers[hid].pc, s'.handlers[hid].pc;
    assert InFlight(s') == if pc'.Replied? then InFlight(s) - {hid} else InFlight(s);
    assert Guessing(s') == if PastCheck(pc') then Guessing(s) + {hid} else Guessing(s) - {hid};
    assert Guessing(s') <= InFlight(s');
    SubsetSize(Guessing(s'), InFlight(s'));
    assert PastCheck(pc) ==> hid in Guessing(s);
  }

  lemma BudgetStep(fp: Key -> PeerId, s: State, a: Action)
    requires Budget(s) && Enabled(s, a)
    ensures Budget(Apply(fp, s, a))
  {
    match a
    case Arrive(_, _, _, _) => BudgetArrive(fp, s, a);
    case Run(hid) => BudgetRun(fp, s, hid);
    case _ =>
      var s' := Apply(fp, s, a);
      assert InFlight(s') == InFlight(s) && Guessing(s') == Guessing(s);
  }

  /** Once ended a session keeps its end and its outcome. */
  predicate Settled(st: HostState, st': HostState) {
    st.ended.Some? ==> st'.ended == st.ended && st'.outcome == st.outcome
  }

  lemma StepSettled(fp: Key -> PeerId, s: State, a: Action)
    requires Enabled(s, a)
    ensures Settled(s.st, Apply(fp, s, a).st) && Apply(fp, s, a).host == s.host && Apply(fp, s, a).limit == s.limit
  {
  }

  lemma HandlerKept(fp: Key -> PeerId, h: Host, st: HostState, st': HostState, hd: Handler)
    requires HandlerOk(fp, h, st, hd) && Settled(st, st')
    ensures HandlerOk(fp, h, st', hd)
  {
  }

  /** A handler's step leaves it in a position its frame and the session justify. */
  lemma HandlerRuns(fp: Key -> PeerId, h: Host, st: HostState, elapsed: nat, hd: Handler)
    requires HandlerOk(fp, h, st, hd) && !hd.pc.Replied?
    ensures var r := HandlerStep(fp, h, st, elapsed, hd);
            && Settled(st, r.0) && HandlerOk(fp, h, r.0, hd.(pc := r.1))
            && (Finalized(hd.(pc := r.1)) ==> st.ended.None?)
            && (r.0.ended == Some(Paired) <==> st.ended == Some(Paired) || Finalized(hd.(pc := r.1)))
            && ((st.outcome.Some? <==> st.ended == Some(Paired)) ==> (r.0.outcome.Some? <==> r.0.ended == Some(Paired)))
  {
  }

  lemma SessionRun(fp: Key -> PeerId, s: State, hid: Hid)
    requires SessionOk(fp, s) && Enabled(s, Run(hid))
    ensures SessionOk(fp, Apply(fp, s, Run(hid)))
  {
    var s' := Apply(fp, s, Run(hid));
    var hd, hd' := s.handlers[hid], s'.handlers[hid];
    HandlerRuns(fp, s.host, s.st, s.elapsed, hd);
    forall x | x in s'.handlers ensures HandlerOk(fp, s'.host, s'.st, s'.handlers[x]) {
      if x != hid { HandlerKept(fp, s.host, s.st, s'.st, s.handlers[x]); }
    }
    forall x | x in s.handlers && x != hid && Finalized(s.handlers[x]) ensures s.st.ended == Some(Paired) {
      assert HandlerOk(fp, s.host, s.st, s.handlers[x]);
    }
    if s.st.ended == Some(Paired) {
      var x :| x in s.handlers && Finalized(s.handlers[x]);
      assert Finalized(s'.handlers[x]);
    }
  }

  lemma SessionStep(fp: Key -> PeerId, s: State, a: Action)
    requires SessionOk(fp, s) && Enabled(s, a)
    ensures SessionOk(fp, Apply(fp, s, a))
  {
    var s' := Apply(fp, s, a);
    StepSettled(fp, s, a);
    if a.Run? { SessionRun(fp, s, a.hid); }
    else {
      forall x | x in s'.handlers ensures HandlerOk(fp, s'.host, s'.st, s'.handlers[x]) {
        if x in s.handlers { HandlerKept(fp, s.host, s.st, s'.st, s.handlers[x]); }
      }
      if s.st.ended == Some(Paired) {
        var x :| x in s.handlers && Finalized(s.handlers[x]);
        assert Finalized(s'.handlers[x]);
      }
    }
  }

  lemma InitInv(fp: Key -> PeerId, s: State)
    requires Init(s)
    ensures Inv(fp, s)
  {
    assert InFlight(s) == {} && Guessing(s) == {};
  }

  lemma StepInv(fp: Key -> PeerId, s: State, a: Action)
    requires Inv(fp, s) && Enabled(s, a)
    ensures Inv(fp, Apply(fp, s, a))
  {
    BudgetStep(fp, s, a);
    SessionStep(fp, s, a);
  }

  lemma {:induction false} RunInv(fp: Key -> PeerId, states: seq<State>, actions: seq<Action>, i: nat)
    requires IsRun(fp, states, actions) && i < |states|
    ensures Inv(fp, states[i])
  {
    if i == 0 {
      InitInv(fp, states[0]);
    } else {
      RunInv(fp, states, actions, i - 1);
      StepInv(fp, states[i - 1], actions[i - 1]);
    }
  }

  // ── Theorems over whole runs ───────────────────────────────────────────────

  /** `ended` and `outcome` are written once: what a state shows once ended, every later state shows. */
  lemma {:induction false} EndedIsWriteOnce(fp: Key -> PeerId, states: seq<State>, actions: seq<Action>, i: nat, j: nat)
    requires IsRun(fp, states, actions) && i <= j < |states| && states[i].st.ended.Some?
    ensures states[j].st.ended == states[i].st.ended && states[j].st.outcome == states[i].st.outcome
    decreases j
  {
    if i < j {
      EndedIsWriteOnce(fp, states, actions, i, j - 1);
      StepSettled(fp, states[j - 1], actions[j - 1]);
    }
  }

  /** A session that is over its time ends as soon as anybody looks: a check
      ends it, and a frame that comes then is answered `Expired` unless the
      session had ended otherwise. */
  lemma {:induction false} OverdueEnds(fp: Key -> PeerId, states: seq<State>, actions: seq<Action>, i: nat, x: Hid)
    requires IsRun(fp, states, actions) && i < |actions|
    ensures actions[i] == Observe ==> states[i].elapsed > states[i].host.ttl && states[i + 1].st.ended.Some?
    ensures actions[i] == Run(x) && states[i].handlers[x].pc == Arrived ==>
              states[i + 1].handlers[x].pc == if states[i].elapsed > states[i].host.ttl then Due else InTime
    ensures actions[i] == Run(x) && states[i].handlers[x].pc == Due ==>
              && states[i + 1].st.ended.Some?
              && (states[i].st.ended.None? ==> states[i + 1].st == states[i].st.(ended := Some(Expired)))
              && (states[i + 1].st.ended == Some(Expired) <==> states[i + 1].handlers[x].pc == Replied(Rejected(ExpiredSession)))
  {
  }

  /** The session has an outcome exactly when it ended `Paired`, exactly then
      one handler answered `Finalize`, and no other ever does. */
  lemma {:induction false} OneFinalize(fp: Key -> PeerId, states: seq<State>, actions: seq<Action>, i: nat)
    requires IsRun(fp, states, actions) && i < |states|
    ensures states[i].st.outcome.Some? <==> states[i].st.ended == Some(Paired)
    ensures states[i].st.ended == Some(Paired) <==> exists x :: x in states[i].handlers && Finalized(states[i].handlers[x])
    ensures forall x, y | x in states[i].handlers && y in states[i].handlers
              && Finalized(states[i].handlers[x]) && Finalized(states[i].handlers[y]) :: x == y
  {
    RunInv(fp, states, actions, i);
  }

  /** With at most `limit` handlers at a time, attempts never exceed
      `max_attempts + limit - 1` (`max_attempts` for the serial accept loop),
      and reaching the cap ends the session. */
  lemma {:induction false} AttemptsAreBounded(fp: Key -> PeerId, states: seq<State>, actions: seq<Action>, i: nat)
    requires IsRun(fp, states, actions) && i < |states|
    ensures states[i].st.attempts <= states[0].host.maxAttempts + states[0].limit - 1
    ensures states[i].st.attempts >= states[0].host.maxAttempts ==> states[i].st.ended.Some?
  {
    RunInv(fp, states, actions, i);
    HostIsConstant(fp, states, actions, i);
  }

  lemma {:induction false} HostIsConstant(fp: Key -> PeerId, states: seq<State>, actions: seq<Action>, i: nat)
    requires IsRun(fp, states, actions) && i < |states|
    ensures states[i].host == states[0].host && states[i].limit == states[0].limit
  {
    if i > 0 {
      HostIsConstant(fp, states, actions, i - 1);
      StepSettled(fp, states[i - 1], actions[i - 1]);
    }
  }

  /** A paired session's outcome is the authenticated key of a connection that
      sent a proof over this session's code and nonce. */
  lemma {:induction false} OutcomeIsProven(fp: Key -> PeerId, states: seq<State>, actions: seq<Action>, i: nat)
    requires IsRun(fp, states, actions) && i < |states| && states[i].st.outcome.Some?
    ensures exists x :: x in states[i].handlers && ProofFor(fp, states[i], states[i].handlers[x])
  {
    RunInv(fp, states, actions, i);
    var x :| x in states[i].handlers && Finalized(states[i].handlers[x]);
    assert HandlerOk(fp, states[i].host, states[i].st, states[i].handlers[x]);
    assert ProofFor(fp, states[i], states[i].handlers[x]);
  }

  predicate ProofFor(fp: Key -> PeerId, s: State, hd: Handler) {
    && hd.frame.Message? && hd.frame.wire.AcceptFrame?
    && hd.frame.wire.accept.sig == Some(Sig(hd.remote, Payload(s.host.code, s.host.nonce)))
    && s.st.outcome == Some(PairedPeer(fp(hd.remote), HexEncode(hd.remote), Sanitize(hd.frame.wire.accept.name)))
  }
}
