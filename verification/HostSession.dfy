/** The host session object: one frame handled from start to end, as the serial
    accept loop does (crates/entangle-pairing/src/net.rs). */
module HostSession {
  import opened Common
  import opened Text
  import opened Identity
  import opened PairingHost

  function StepsLeft(pc: Pc): nat {
    match pc
    case Arrived => 6
    case Due => 5
    case InTime => 4
    case Checked => 3
    case Proven(_) => 2
    case Failing(_) => 1
    case Replied(_) => 0
  }

  /** A handler that runs without interference: the machine's steps up to its reply. */
  function RunAlone(fp: Key -> PeerId, h: Host, st: HostState, elapsed: nat, hd: Handler): (HostState, Wire)
    decreases StepsLeft(hd.pc)
  {
    if hd.pc.Replied? then (st, hd.pc.wire)
    else
      var r := HandlerStep(fp, h, st, elapsed, hd);
      RunAlone(fp, h, r.0, elapsed, hd.(pc := r.1))
  }

  lemma AloneFromArrived(fp: Key -> PeerId, h: Host, st: HostState, elapsed: nat, hd: Handler)
    requires hd.pc == Arrived
    ensures RunAlone(fp, h, st, elapsed, hd)
         == if elapsed <= h.ttl then RunAlone(fp, h, st, elapsed, hd.(pc := InTime))
            else if ExpireLocked(st).ended == Some(Expired) then (ExpireLocked(st), Rejected(ExpiredSession))
            else RunAlone(fp, h, ExpireLocked(st), elapsed, hd.(pc := InTime))
  {
    if elapsed > h.ttl {
      var due := hd.(pc := Due);
      assert RunAlone(fp, h, st, elapsed, hd) == RunAlone(fp, h, st, elapsed, due);
      var r := HandlerStep(fp, h, st, elapsed, due);
      assert due.(pc := r.1) == hd.(pc := r.1);
      assert RunAlone(fp, h, st, elapsed, due) == RunAlone(fp, h, r.0, elapsed, hd.(pc := r.1));
    }
  }

  lemma AloneFromInTime(fp: Key -> PeerId, h: Host, st: HostState, elapsed: nat, hd: Handler)
    requires hd.pc == InTime
    ensures RunAlone(fp, h, st, elapsed, hd)
         == if st.ended.Some? then (st, Rejected(ReasonFor(st.ended.value)))
            else RunAlone(fp, h, st, elapsed, hd.(pc := Decide(fp, h, hd.remote, hd.frame)))
  {
    if st.ended.None? {
      var checked := hd.(pc := Checked);
      assert RunAlone(fp, h, st, elapsed, hd) == RunAlone(fp, h, st, elapsed, checked);
      assert checked.(pc := Decide(fp, h, hd.remote, hd.frame)) == hd.(pc := Decide(fp, h, hd.remote, hd.frame));
    }
  }

  class Session {
    const host: Host
    var attempts: u32
    var outcome: Option<PairedPeer>
    var ended: Option<SessionEnd>

    function View(): HostState
      reads this
    {
      HostState(attempts, outcome, ended)
    }

    constructor (config: Host)
      ensures host == config.(name := Sanitize(config.name), maxAttempts := Max(1, config.maxAttempts))
      ensures ValidHost(host) && View() == HostState(0, None, None)
    {
      host := config.(name := Sanitize(config.name), maxAttempts := Max(1, config.maxAttempts));
      attempts, outcome, ended := 0, None, None;
      SanitizeIdempotent(config.name);
    }

    method ExpireIfDue(elapsed: nat) returns (expired: bool)
      modifies this
      ensures View() == if elapsed <= host.ttl then old(View()) else ExpireLocked(old(View()))
      ensures expired <==> elapsed > host.ttl && ended == Some(Expired)
    {
      if elapsed <= host.ttl { return false; }
      if ended.None? { ended := Some(Expired); }
      return ended == Some(Expired);
    }

    method RecordFailedAttempt(reason: RejectReason) returns (r: RejectReason)
      modifies this
      ensures (View(), r) == FailLocked(host, old(View()), reason)
    {
      if attempts < U32_LIMIT - 1 { attempts := attempts + 1; }
      if attempts >= host.maxAttempts && ended.None? {
        ended := Some(AttemptsExhausted);
        return TooManyAttempts;
      }
      return reason;
    }

    method VerifyAccept(fp: Key -> PeerId, remote: Key, a: Accept) returns (r: Result<Sig, RejectReason>)
      modifies this
      ensures Proves(fp, host, remote, a) && old(ended).None? ==>
                r == Ok(FinalizeOf(host)) && View() == PairLocked(old(View()), PairedBy(remote, a))
      ensures Proves(fp, host, remote, a) && old(ended).Some? ==> r == Err(AlreadyPaired) && View() == old(View())
      ensures !Proves(fp, host, remote, a) ==> r == Err(BadCode) && View() == old(View())
    {
      var claimed := DecodeKey(a.keyHex);
      if claimed.None? || claimed.value != remote { return Err(BadCode); }
      if a.peerId != fp(claimed.value) { return Err(BadCode); }
      var payload := Payload(host.code, host.nonce);
      if a.sig.None? || a.sig.value != Sig(claimed.value, payload) { return Err(BadCode); }
      var paired := PairedPeer(a.peerId, HexEncode(claimed.value), Sanitize(a.name));
      if ended.Some? { return Err(AlreadyPaired); }
      outcome := Some(paired);
      ended := Some(Paired);
      return Ok(Sig(host.key, payload));
    }

    /** An ended session refuses everything and stays as it is; one past its
        time expires. A live one offers itself to a `Hello`, pairs with exactly a
        proof, counts any other `Accept`, and is ended by the last one it allows. */
    method HandleInner(fp: Key -> PeerId, elapsed: nat, remote: Key, frame: Frame) returns (r: Result<Wire, RejectReason>)
      modifies this
      ensures old(ended).Some? ==>
                && View() == old(View())
                && r == Err(match old(ended).value
                            case Paired => AlreadyPaired
                            case Expired => ExpiredSession
                            case AttemptsExhausted => TooManyAttempts)
      ensures old(ended).None? && elapsed > host.ttl ==>
                View() == old(View()).(ended := Some(Expired)) && r == Err(ExpiredSession)
      ensures old(ended).None? && elapsed <= host.ttl && frame.Message? && frame.wire.AcceptFrame? ==>
                var a, payload := frame.wire.accept, Payload(host.code, host.nonce);
                if DecodeKey(a.keyHex) == Some(remote) && a.peerId == fp(remote) && a.sig == Some(Sig(remote, payload)) then
                  && r == Ok(FinalizeFrame(Some(Sig(host.key, payload))))
                  && attempts == old(attempts) && ended == Some(Paired)
                  && outcome == Some(PairedPeer(fp(remote), HexEncode(remote), Sanitize(a.name)))
                else
                  && attempts == Min(old(attempts) + 1, U32_LIMIT - 1) && outcome == old(outcome)
                  && (if attempts >= host.maxAttempts
                      then ended == Some(AttemptsExhausted) && r == Err(TooManyAttempts)
                      else ended == None && r == Err(BadCode))
      ensures old(ended).None? && elapsed <= host.ttl && !(frame.Message? && frame.wire.AcceptFrame?) ==>
                && View() == old(View())
                && r == if frame == Message(Hello(1))
                        then Ok(OfferFrame(Offer(fp(host.key), HexEncode(host.key), host.name, host.nonce)))
                        else Err(Malformed)
      ensures (View(), if r.Ok? then r.value else Rejected(r.error))
           == RunAlone(fp, host, old(View()), elapsed, Handler(0, remote, frame, Arrived))
    {
      ghost var hd := Handler(0, remote, frame, Arrived);
      AloneFromArrived(fp, host, View(), elapsed, hd);
      var expired := ExpireIfDue(elapsed);
      AloneFromInTime(fp, host, View(), elapsed, hd.(pc := InTime));
      assert hd.(pc := InTime).(pc := Decide(fp, host, remote, frame)) == hd.(pc := Decide(fp, host, remote, frame));
      if expired { return Err(ExpiredSession); }
      if ended.Some? { return Err(ReasonFor(ended.value)); }
      match frame
      case Undecodable => return Err(Malformed);
      case Message(Hello(v)) =>
        if v != PROTOCOL_VERSION { return Err(Malformed); }
        return Ok(OfferFrame(OfferOf(fp, host)));
      case Message(AcceptFrame(a)) =>
        var v := VerifyAccept(fp, remote, a);
        match v {
          case Ok(sig) => return Ok(FinalizeFrame(Some(sig)));
          case Err(reason) =>
            var counted := RecordFailedAttempt(reason);
            return Err(counted);
        }
      case Message(_) => return Err(Malformed);
    }
  }
}
