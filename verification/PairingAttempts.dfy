/** Every wrong proof a host session looks at is counted: the counter is the
    number of refused `Accept` frames, so the code cannot be guessed for free
    (crates/entangle-pairing/src/net.rs). */
module PairingAttempts {
  import opened Common
  import opened Identity
  import opened PairingHost

  predicate IsAccept(hd: Handler) { hd.frame.Message? && hd.frame.wire.AcceptFrame? }

  predicate Refused(hd: Handler) { hd.pc.Replied? && hd.pc.wire.Rejected? }

  /** The handler that finds the session not ended in this step, if any. */
  function FindsLive(s: State, a: Action): set<Hid> {
    if a.Run? && a.hid in s.handlers && s.handlers[a.hid].pc == InTime && s.st.ended.None? then {a.hid} else {}
  }

  /** The handlers that found the session not ended in the first `n` steps. */
  function SawLive(states: seq<State>, actions: seq<Action>, n: nat): set<Hid>
    requires n <= |actions| < |states|
  {
    if n == 0 then {} else SawLive(states, actions, n - 1) + FindsLive(states[n - 1], actions[n - 1])
  }

  /** Of the handlers that found the session live, those with an `Accept` that were refused. */
  function RefusedGuesses(s: State, saw: set<Hid>): set<Hid> {
    set x | x in s.handlers && x in saw && IsAccept(s.handlers[x]) && Refused(s.handlers[x])
  }

  /** An `Accept` that lacks one of the three parts of a proof: the key the
      connection authenticated, its fingerprint, and its signature over this
      session's code and nonce. */
  predicate WrongProof(fp: Key -> PeerId, h: Host, hd: Handler) {
    && IsAccept(hd)
    && var a := hd.frame.wire.accept;
       !(DecodeKey(a.keyHex) == Some(hd.remote) && a.peerId == fp(hd.remote)
         && a.sig == Some(Sig(hd.remote, Payload(h.code, h.nonce))))
  }

  /** Of the handlers that found the session live, those without a proof. */
  function WrongGuesses(fp: Key -> PeerId, s: State, saw: set<Hid>): set<Hid> {
    set x | x in s.handlers && x in saw && WrongProof(fp, s.host, s.handlers[x])
  }

  // ── One step ───────────────────────────────────────────────────────────────

  /** What a handler's position says about whether it saw the session live. */
  predicate PastOk(fp: Key -> PeerId, h: Host, hd: Handler, saw: bool) {
    && (PastCheck(hd.pc) ==> saw)
    && (saw ==> PastCheck(hd.pc) || hd.pc.Replied?)
    && (hd.pc.Proven? || hd.pc.Failing? ==> IsAccept(hd))
    && (WrongProof(fp, h, hd) && saw ==>
          && !hd.pc.Proven? && (hd.pc.Failing? ==> hd.pc.reason == BadCode)
          && (hd.pc.Replied? ==> hd.pc.wire == Rejected(BadCode) || hd.pc.wire == Rejected(TooManyAttempts)))
  }

  predicate PastsOk(fp: Key -> PeerId, s: State, saw: set<Hid>) {
    saw <= s.handlers.Keys && forall x | x in s.handlers :: PastOk(fp, s.host, s.handlers[x], x in saw)
  }

  lemma HandlerPast(fp: Key -> PeerId, h: Host, st: HostState, elapsed: nat, hd: Handler, saw: bool)
    requires PastOk(fp, h, hd, saw) && !hd.pc.Replied?
    ensures var r := HandlerStep(fp, h, st, elapsed, hd);
            var hd', saw' := hd.(pc := r.1), saw || (hd.pc == InTime && st.ended.None?);
            && PastOk(fp, h, hd', saw')
            && (IsAccept(hd') && Refused(hd') && saw' <==> hd.pc.Failing?)
            && r.0.attempts == if hd.pc.Failing? then Min(st.attempts + 1, U32_LIMIT - 1) else st.attempts
  {
  }

  /** Whether the step answers a failing handler. */
  predicate Answers(s: State, a: Action) { a.Run? && a.hid in s.handlers && s.handlers[a.hid].pc.Failing? }

  lemma RunCounts(fp: Key -> PeerId, s: State, a: Action, saw: set<Hid>)
    requires PastsOk(fp, s, saw) && Enabled(s, a) && a.Run?
    ensures var s', saw' := Apply(fp, s, a), saw + FindsLive(s, a);
            && PastsOk(fp, s', saw')
            && RefusedGuesses(s', saw') == RefusedGuesses(s, saw) + (if Answers(s, a) then {a.hid} else {})
            && a.hid !in RefusedGuesses(s, saw)
            && s'.st.attempts == if Answers(s, a) then Min(s.st.attempts + 1, U32_LIMIT - 1) else s.st.attempts
  {
    HandlerPast(fp, s.host, s.st, s.elapsed, s.handlers[a.hid], a.hid in saw);
  }

  lemma OtherCounts(fp: Key -> PeerId, s: State, a: Action, saw: set<Hid>)
    requires PastsOk(fp, s, saw) && Enabled(s, a) && !a.Run?
    ensures var s' := Apply(fp, s, a);
            PastsOk(fp, s', saw) && RefusedGuesses(s', saw) == RefusedGuesses(s, saw) && s'.st.attempts == s.st.attempts
  {
  }

  /** A step counts exactly the handler it refuses. */
  lemma StepCounts(fp: Key -> PeerId, s: State, a: Action, saw: set<Hid>)
    requires PastsOk(fp, s, saw) && Enabled(s, a)
    ensures var s', saw', more := Apply(fp, s, a), saw + FindsLive(s, a), if Answers(s, a) then 1 else 0;
            && PastsOk(fp, s', saw')
            && |RefusedGuesses(s', saw')| == |RefusedGuesses(s, saw)| + more
            && s'.st.attempts == if more == 1 then Min(s.st.attempts + 1, U32_LIMIT - 1) else s.st.attempts
  {
    if a.Run? {
      RunCounts(fp, s, a, saw);
    } else {
      OtherCounts(fp, s, a, saw);
      assert saw + FindsLive(s, a) == saw;
    }
  }

  /** Refused guesses and handlers that may still become one stay within the budget. */
  predicate Spent(s: State, saw: set<Hid>) {
    |RefusedGuesses(s, saw)| + |Guessing(s)| <= s.host.maxAttempts + s.limit - 1
  }

  lemma GuesserRuns(fp: Key -> PeerId, h: Host, st: HostState, elapsed: nat, hd: Handler)
    ensures var pc' := HandlerStep(fp, h, st, elapsed, hd).1;
            && (hd.pc.Failing? ==> !PastCheck(pc'))
            && (PastCheck(pc') && !PastCheck(hd.pc) ==> st.ended.None?)
  {
  }

  lemma GuessersAfter(fp: Key -> PeerId, s: State, hid: Hid)
    requires Enabled(s, Run(hid))
    ensures var s' := Apply(fp, s, Run(hid));
            && Guessing(s') == (if PastCheck(s'.handlers[hid].pc) then Guessing(s) + {hid} else Guessing(s) - {hid})
            && Guessing(s') <= InFlight(s)
  {
  }

  lemma GuessersMove(fp: Key -> PeerId, s: State, a: Action)
    requires Budget(s) && Enabled(s, a)
    ensures var s' := Apply(fp, s, a);
            && (Answers(s, a) ==> |Guessing(s')| == |Guessing(s)| - 1)
            && (|Guessing(s')| <= |Guessing(s)| || (s.st.ended.None? && |Guessing(s')| <= s.limit))
  {
    var s' := Apply(fp, s, a);
    if a.Run? {
      GuesserRuns(fp, s.host, s.st, s.elapsed, s.handlers[a.hid]);
      GuessersAfter(fp, s, a.hid);
      SubsetSize(Guessing(s'), InFlight(s));
      assert PastCheck(s.handlers[a.hid].pc) <==> a.hid in Guessing(s);
    } else {
      assert Guessing(s') == Guessing(s);
    }
  }

  lemma SpentStep(fp: Key -> PeerId, s: State, a: Action, saw: set<Hid>)
    requires PastsOk(fp, s, saw) && Budget(s) && Enabled(s, a) && Spent(s, saw)
    requires s.st.attempts == Min(|RefusedGuesses(s, saw)|, U32_LIMIT - 1)
    ensures Spent(Apply(fp, s, a), saw + FindsLive(s, a))
  {
    StepCounts(fp, s, a, saw);
    StepSettled(fp, s, a);
    GuessersMove(fp, s, a);
  }

  // ── Theorems over whole runs ───────────────────────────────────────────────

  ghost predicate CountOk(fp: Key -> PeerId, s: State, saw: set<Hid>) {
    PastsOk(fp, s, saw) && Spent(s, saw) && s.st.attempts == Min(|RefusedGuesses(s, saw)|, U32_LIMIT - 1)
  }

  lemma CountInit(fp: Key -> PeerId, s: State)
    requires Init(s)
    ensures CountOk(fp, s, {})
  {
    assert RefusedGuesses(s, {}) == {} && Guessing(s) == {};
  }

  lemma CountStep(fp: Key -> PeerId, s: State, a: Action, saw: set<Hid>)
    requires CountOk(fp, s, saw) && Budget(s) && Enabled(s, a)
    ensures CountOk(fp, Apply(fp, s, a), saw + FindsLive(s, a))
  {
    StepCounts(fp, s, a, saw);
    SpentStep(fp, s, a, saw);
  }

  lemma BudgetAt(fp: Key -> PeerId, states: seq<State>, actions: seq<Action>, n: nat)
    requires IsRun(fp, states, actions) && n < |states|
    ensures Budget(states[n])
  {
    RunInv(fp, states, actions, n);
  }

  lemma {:induction false} CountsUpTo(fp: Key -> PeerId, states: seq<State>, actions: seq<Action>, n: nat)
    requires IsRun(fp, states, actions) && n < |states|
    ensures CountOk(fp, states[n], SawLive(states, actions, n))
  {
    if n == 0 {
      CountInit(fp, states[0]);
    } else {
      CountsUpTo(fp, states, actions, n - 1);
      BudgetAt(fp, states, actions, n - 1);
      CountStep(fp, states[n - 1], actions[n - 1], SawLive(states, actions, n - 1));
    }
  }

  /** The counter is exactly the number of handlers that found the session live
      with an `Accept` frame and were refused, until it saturates. */
  lemma {:induction false} AttemptsAreRefusals(fp: Key -> PeerId, states: seq<State>, actions: seq<Action>, n: nat)
    requires IsRun(fp, states, actions) && n < |states|
    ensures states[n].st.attempts == Min(|RefusedGuesses(states[n], SawLive(states, actions, n))|, U32_LIMIT - 1)
  {
    CountsUpTo(fp, states, actions, n);
  }

  /** A handler that found the session live and carries anything but a proof is
      answered `BadCode` or `TooManyAttempts`, and is one of the counted. */
  lemma {:induction false} WrongProofIsCounted(fp: Key -> PeerId, states: seq<State>, actions: seq<Action>, n: nat, x: Hid)
    requires IsRun(fp, states, actions) && n < |states| && x in SawLive(states, actions, n) && x in states[n].handlers
    requires states[n].handlers[x].pc.Replied? && WrongProof(fp, states[n].host, states[n].handlers[x])
    ensures states[n].handlers[x].pc.wire in {Rejected(BadCode), Rejected(TooManyAttempts)}
    ensures x in RefusedGuesses(states[n], SawLive(states, actions, n))
  {
    CountsUpTo(fp, states, actions, n);
  }

  /** In a whole session at most `max_attempts + limit - 1` handlers find it live
      with anything but a proof, so that is how often its code can be guessed. */
  lemma {:induction false} GuessesAreBounded(fp: Key -> PeerId, states: seq<State>, actions: seq<Action>, n: nat)
    requires IsRun(fp, states, actions) && n < |states|
    ensures |WrongGuesses(fp, states[n], SawLive(states, actions, n))| <= states[0].host.maxAttempts + states[0].limit - 1
  {
    CountsUpTo(fp, states, actions, n);
    HostIsConstant(fp, states, actions, n);
    GuessersFit(fp, states[n], SawLive(states, actions, n));
  }

  lemma GuessersFit(fp: Key -> PeerId, s: State, saw: set<Hid>)
    requires PastsOk(fp, s, saw) && Spent(s, saw)
    ensures |WrongGuesses(fp, s, saw)| <= s.host.maxAttempts + s.limit - 1
  {
    assert WrongGuesses(fp, s, saw) <= RefusedGuesses(s, saw) + Guessing(s);
    SubsetSize(WrongGuesses(fp, s, saw), RefusedGuesses(s, saw) + Guessing(s));
    UnionSize(RefusedGuesses(s, saw), Guessing(s));
  }

  lemma UnionSize<T>(a: set<T>, b: set<T>)
    ensures |a + b| <= |a| + |b|
  {
    assert a + b == a + (b - a);
    SubsetSize(b - a, b);
  }
}
