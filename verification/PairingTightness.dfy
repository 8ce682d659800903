/** The attempt bound of a host session is exact: for every cap and every number
    of concurrent handlers some run reaches it. */
module PairingTightness {
  import opened Common
  import opened Identity
  import opened PairingHost

  ghost predicate EndsAt(fp: Key -> PeerId, states: seq<State>, actions: seq<Action>, s: State) {
    IsRun(fp, states, actions) && states[|actions|] == s
  }

  ghost predicate Reachable(fp: Key -> PeerId, s: State) {
    exists states, actions :: EndsAt(fp, states, actions, s)
  }

  lemma ReachInit(fp: Key -> PeerId, s: State)
    requires Init(s)
    ensures Reachable(fp, s)
  {
    assert EndsAt(fp, [s], [], s);
  }

  lemma RunSnoc(fp: Key -> PeerId, states: seq<State>, actions: seq<Action>, s: State, a: Action)
    requires EndsAt(fp, states, actions, s) && Enabled(s, a)
    ensures EndsAt(fp, states + [Apply(fp, s, a)], actions + [a], Apply(fp, s, a))
  {
  }

  lemma ReachNext(fp: Key -> PeerId, s: State, a: Action)
    requires Reachable(fp, s) && Enabled(s, a)
    ensures Reachable(fp, Apply(fp, s, a))
  {
    var states, actions :| EndsAt(fp, states, actions, s);
    RunSnoc(fp, states, actions, s, a);
  }

  // ── One wrong guess ────────────────────────────────────────────────────────

  /** An `Accept` whose signature text is malformed. */
  function WrongGuess(): Frame { Message(AcceptFrame(Accept(seq(16, _ => 0), "", "", None))) }

  function Guesser(key: Key, pc: Pc): Handler { Handler(0, key, WrongGuess(), pc) }

  predicate Live(s: State) { s.st.ended.None? && s.elapsed <= s.host.ttl }

  function With(s: State, hid: Hid, key: Key, pc: Pc): State { s.(handlers := s.handlers[hid := Guesser(key, pc)]) }

  lemma GuessSteps(fp: Key -> PeerId, s: State, hid: Hid, key: Key)
    requires Live(s)
    ensures Apply(fp, With(s, hid, key, Arrived), Run(hid)) == With(s, hid, key, InTime)
    ensures Apply(fp, With(s, hid, key, InTime), Run(hid)) == With(s, hid, key, Checked)
    ensures Apply(fp, With(s, hid, key, Checked), Run(hid)) == With(s, hid, key, Failing(BadCode))
  {
  }

  /** A live session with a free handler can be brought to the point where a wrong guess is about to be counted. */
  lemma ReachGuess(fp: Key -> PeerId, s: State, hid: Hid, key: Key)
    requires Reachable(fp, s) && Live(s) && hid !in s.handlers && |InFlight(s)| < s.limit
    ensures Reachable(fp, With(s, hid, key, Failing(BadCode)))
  {
    ReachNext(fp, s, Arrive(hid, 0, key, WrongGuess()));
    assert Apply(fp, s, Arrive(hid, 0, key, WrongGuess())) == With(s, hid, key, Arrived);
    GuessSteps(fp, s, hid, key);
    ReachNext(fp, With(s, hid, key, Arrived), Run(hid));
    ReachNext(fp, With(s, hid, key, InTime), Run(hid));
    ReachNext(fp, With(s, hid, key, Checked), Run(hid));
  }

  // ── The run ────────────────────────────────────────────────────────────────

  predicate FailingAt(s: State, x: Hid) { x in s.handlers && s.handlers[x].pc == Failing(BadCode) }

  /** `done` guesses answered, `open` more about to be counted. */
  predicate Stage(s: State, host: Host, limit: nat, done: nat, open: nat) {
    && s.host == host && s.limit == limit && s.elapsed == 0
    && s.st.attempts == done && s.st.outcome.None?
    && (s.st.ended.None? <==> done < host.maxAttempts)
    && (forall x | x in s.handlers :: x < done + open && (x < done ==> s.handlers[x].pc.Replied?))
    && (forall x | done <= x < done + open :: FailingAt(s, x))
  }

  function Range(lo: nat, n: nat): (r: set<nat>)
    ensures forall x :: x in r <==> lo <= x < lo + n
    ensures |r| == n
  {
    if n == 0 then {} else Range(lo, n - 1) + {lo + n - 1}
  }

  lemma InFlightOfStage(s: State, host: Host, limit: nat, done: nat, open: nat)
    requires Stage(s, host, limit, done, open)
    ensures |InFlight(s)| == open
  {
    forall x ensures x in InFlight(s) <==> x in Range(done, open) {
      if done <= x < done + open { assert FailingAt(s, x); }
    }
    assert InFlight(s) == Range(done, open);
  }

  /** One more handler comes up to the point of being counted. */
  lemma OpenOne(fp: Key -> PeerId, s: State, host: Host, limit: nat, done: nat, open: nat, key: Key)
    requires Reachable(fp, s) && Stage(s, host, limit, done, open) && done < host.maxAttempts && open < limit
    ensures Reachable(fp, With(s, done + open, key, Failing(BadCode)))
    ensures Stage(With(s, done + open, key, Failing(BadCode)), host, limit, done, open + 1)
  {
    InFlightOfStage(s, host, limit, done, open);
    ReachGuess(fp, s, done + open, key);
    var s' := With(s, done + open, key, Failing(BadCode));
    forall x | done <= x < done + open + 1 ensures FailingAt(s', x) {
      if x < done + open { assert FailingAt(s, x); }
    }
  }

  /** One handler is counted and answers. */
  lemma CloseStage(fp: Key -> PeerId, s: State, host: Host, limit: nat, done: nat, open: nat)
    requires Stage(s, host, limit, done, open) && open > 0 && done + 1 < U32_LIMIT
    ensures FailingAt(s, done) && Stage(Apply(fp, s, Run(done)), host, limit, done + 1, open - 1)
  {
    assert FailingAt(s, done);
    var s' := Apply(fp, s, Run(done));
    forall x | done + 1 <= x < done + open ensures FailingAt(s', x) { assert FailingAt(s, x); }
  }

  ghost predicate StageReached(fp: Key -> PeerId, host: Host, limit: nat, done: nat, open: nat) {
    exists s :: Reachable(fp, s) && Stage(s, host, limit, done, open)
  }

  lemma OpenReached(fp: Key -> PeerId, host: Host, limit: nat, done: nat, open: nat, key: Key)
    requires StageReached(fp, host, limit, done, open) && done < host.maxAttempts && open < limit
    ensures StageReached(fp, host, limit, done, open + 1)
  {
    var s :| Reachable(fp, s) && Stage(s, host, limit, done, open);
    OpenOne(fp, s, host, limit, done, open, key);
  }

  lemma CloseReached(fp: Key -> PeerId, host: Host, limit: nat, done: nat, open: nat)
    requires StageReached(fp, host, limit, done, open) && open > 0 && done + 1 < U32_LIMIT
    ensures StageReached(fp, host, limit, done + 1, open - 1)
  {
    var s :| Reachable(fp, s) && Stage(s, host, limit, done, open);
    CloseStage(fp, s, host, limit, done, open);
    ReachNext(fp, s, Run(done));
  }

  lemma StartReached(fp: Key -> PeerId, host: Host, limit: nat)
    requires ValidHost(host)
    ensures StageReached(fp, host, limit, 0, 0)
  {
    var s := State(host, HostState(0, None, None), 0, limit, map[]);
    ReachInit(fp, s);
    assert Stage(s, host, limit, 0, 0);
  }

  /** One guess is made and counted. */
  lemma GuessReached(fp: Key -> PeerId, host: Host, limit: nat, done: nat, key: Key)
    requires StageReached(fp, host, limit, done, 0) && limit >= 1 && done < host.maxAttempts && done + 1 < U32_LIMIT
    ensures StageReached(fp, host, limit, done + 1, 0)
  {
    OpenReached(fp, host, limit, done, 0, key);
    CloseReached(fp, host, limit, done, 1);
  }

  /** Guesses one after the other, up to one below the cap. */
  lemma {:induction false} Serial(fp: Key -> PeerId, host: Host, limit: nat, done: nat, key: Key)
    requires ValidHost(host) && limit >= 1 && done < host.maxAttempts
    ensures StageReached(fp, host, limit, done, 0)
  {
    if done == 0 {
      StartReached(fp, host, limit);
    } else {
      Serial(fp, host, limit, done - 1, key);
      GuessReached(fp, host, limit, done - 1, key);
    }
  }

  lemma {:induction false} Opened(fp: Key -> PeerId, host: Host, limit: nat, done: nat, open: nat, key: Key)
    requires ValidHost(host) && 1 <= limit && open <= limit && done < host.maxAttempts
    ensures StageReached(fp, host, limit, done, open)
    decreases open
  {
    if open == 0 {
      Serial(fp, host, limit, done, key);
    } else {
      Opened(fp, host, limit, done, open - 1, key);
      OpenReached(fp, host, limit, done, open - 1, key);
    }
  }

  /** A run of this host with this many handlers that ends with these attempts. */
  ghost predicate EndsWith(fp: Key -> PeerId, host: Host, limit: nat, attempts: nat, states: seq<State>, actions: seq<Action>) {
    && IsRun(fp, states, actions) && states[0].host == host && states[0].limit == limit
    && states[|actions|].st.attempts == attempts
  }

  lemma RunOf(fp: Key -> PeerId, s: State, host: Host, limit: nat, n: nat)
    requires Reachable(fp, s) && Stage(s, host, limit, n, 0)
    ensures exists states, actions :: EndsWith(fp, host, limit, n, states, actions)
  {
    var states, actions :| EndsAt(fp, states, actions, s);
    HostIsConstant(fp, states, actions, |actions|);
    assert EndsWith(fp, host, limit, n, states, actions);
  }

  ghost predicate Attained(fp: Key -> PeerId, host: Host, limit: nat, attempts: nat) {
    exists states, actions :: EndsWith(fp, host, limit, attempts, states, actions)
  }

  lemma StageAttained(fp: Key -> PeerId, host: Host, limit: nat, n: nat)
    requires StageReached(fp, host, limit, n, 0)
    ensures Attained(fp, host, limit, n)
  {
    var s :| Reachable(fp, s) && Stage(s, host, limit, n, 0);
    RunOf(fp, s, host, limit, n);
  }

  /** The open guesses are counted one after the other. */
  lemma {:induction false} Drained(fp: Key -> PeerId, host: Host, limit: nat, done: nat, open: nat, total: nat)
    requires StageReached(fp, host, limit, done, open) && total == done + open < U32_LIMIT
    ensures Attained(fp, host, limit, total)
    decreases open
  {
    if open == 0 {
      StageAttained(fp, host, limit, total);
    } else {
      CloseReached(fp, host, limit, done, open);
      Drained(fp, host, limit, done + 1, open - 1, total);
    }
  }

  lemma {:induction false} OpenedDrains(fp: Key -> PeerId, host: Host, limit: nat, done: nat, key: Key, total: nat)
    requires ValidHost(host) && 1 <= limit && done < host.maxAttempts && total == done + limit < U32_LIMIT
    ensures Attained(fp, host, limit, total)
  {
    Opened(fp, host, limit, done, limit, key);
    Drained(fp, host, limit, done, limit, total);
  }

  /** With `limit` concurrent handlers some run makes exactly
      `max_attempts + limit - 1` failed attempts, so the bound cannot be lowered. */
  lemma BoundIsReached(fp: Key -> PeerId, host: Host, limit: nat, key: Key)
    requires ValidHost(host) && limit >= 1 && host.maxAttempts + limit - 1 < U32_LIMIT
    ensures Attained(fp, host, limit, host.maxAttempts + limit - 1)
  {
    OpenedDrains(fp, host, limit, host.maxAttempts - 1, key, host.maxAttempts + limit - 1);
  }
}
