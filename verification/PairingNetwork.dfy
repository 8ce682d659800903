/** Pairing over a network with an adversary: any number of host sessions and
    dialers of honest devices, and clients and servers of dishonest keys
    (crates/entangle-pairing/src/net.rs, crates/entangle-pairing/src/mesh.rs).

    Connections are authenticated: each end knows the key of the other, and
    between two honest ends frames may be lost but not altered. Dishonest ends
    may send any frame, except that a signature of an honest key must be one
    that device has already sent to somebody. */
module PairingNetwork {
  import opened Common
  import opened Text
  import opened Identity
  import opened PairingHost

  type Sid = nat

  /** A connection; a dialer makes exactly one. */
  type Cid = nat

  datatype Server = AtSession(sid: Sid) | Rogue(key: Key)

  /** Where a dialer stands; `req` is the handler of its last frame at an honest session. */
  datatype DialPc =
    | Fresh
    | AwaitOffer(req: Option<Hid>)
    | HaveOffer(offer: Offer)
    | AwaitFinal(offer: Offer, req: Option<Hid>)
    | Done(offer: Offer, req: Option<Hid>, peer: PairedPeer)
    | GaveUp

  datatype Dialer = Dialer(key: Key, name: string, code: Code, server: Server, pc: DialPc)

  datatype Net = Net(
    honest: set<Key>,
    sessions: map<Sid, State>,
    dialers: map<Cid, Dialer>,
    rogue: set<Cid>,
    signed: set<Sig>)

  datatype Move =
    | Open(sid: Sid, host: Host, limit: nat)
    | Dial(c: Cid, dialer: Dialer)
    | SendHello(c: Cid, hid: Hid)
    | GetOffer(c: Cid, reply: Frame)
    | SendAccept(c: Cid, hid: Hid)
    | GetFinal(c: Cid, reply: Frame)
    | Drop(c: Cid)
    | RogueRequest(c: Cid, sid: Sid, hid: Hid, key: Key, frame: Frame)
    | Serve(sid: Sid, act: Action)

  // ── Dialer (net.rs) ────────────────────────────────────────────────────────

  function RemoteKey(n: Net, d: Dialer): Key
    requires d.server.AtSession? ==> d.server.sid in n.sessions
  {
    match d.server
    case AtSession(sid) => n.sessions[sid].host.key
    case Rogue(k) => k
  }

  /** `Dialer::check_offer`. */
  predicate CheckOffer(fp: Key -> PeerId, remote: Key, o: Offer) {
    DecodeKey(o.keyHex) == Some(remote) && o.peerId == fp(remote)
  }

  /** `Dialer::accept_for`. */
  function AcceptOf(fp: Key -> PeerId, d: Dialer, o: Offer): Accept {
    Accept(fp(d.key), HexEncode(d.key), d.name, Some(ProofOf(d, o)))
  }

  function ProofOf(d: Dialer, o: Offer): Sig { Sig(d.key, Payload(d.code, o.nonce)) }

  /** `Dialer::finish`. */
  function Finish(fp: Key -> PeerId, d: Dialer, remote: Key, o: Offer, sig: Option<Sig>): Option<PairedPeer> {
    if CheckOffer(fp, remote, o) && sig == Some(Sig(remote, Payload(d.code, o.nonce)))
    then Some(PairedPeer(o.peerId, HexEncode(remote), Sanitize(o.name)))
    else None
  }

  // ── Steps ──────────────────────────────────────────────────────────────────

  function SigsIn(f: Frame): set<Sig> {
    match f
    case Message(AcceptFrame(a)) => if a.sig.Some? then {a.sig.value} else {}
    case Message(FinalizeFrame(sig)) => if sig.Some? then {sig.value} else {}
    case _ => {}
  }

  /** The adversary can compose the frame. */
  predicate Composable(n: Net, f: Frame) { forall g | g in SigsIn(f) :: g in n.signed || g.signer !in n.honest }

  predicate Knows(n: Net, c: Cid) {
    c in n.dialers && (n.dialers[c].server.AtSession? ==> n.dialers[c].server.sid in n.sessions)
  }

  /** What the dialer may read as the reply to the request `req`. */
  predicate ReplyTo(n: Net, d: Dialer, req: Option<Hid>, f: Frame) {
    match d.server
    case Rogue(_) => Composable(n, f)
    case AtSession(sid) =>
      && sid in n.sessions && req.Some? && req.value in n.sessions[sid].handlers
      && n.sessions[sid].handlers[req.value].pc.Replied?
      && f == Message(n.sessions[sid].handlers[req.value].pc.wire)
  }

  function HelloArrives(c: Cid, d: Dialer, hid: Hid): Action { Arrive(hid, c, d.key, Message(Hello(PROTOCOL_VERSION))) }

  function AcceptArrives(fp: Key -> PeerId, c: Cid, d: Dialer, o: Offer, hid: Hid): Action {
    Arrive(hid, c, d.key, Message(AcceptFrame(AcceptOf(fp, d, o))))
  }

  predicate CanSend(n: Net, d: Dialer, a: Action) {
    d.server.AtSession? ==> d.server.sid in n.sessions && PairingHost.Enabled(n.sessions[d.server.sid], a)
  }

  predicate Allowed(fp: Key -> PeerId, n: Net, m: Move) {
    match m
    case Open(sid, host, _) => sid !in n.sessions && ValidHost(host) && host.key in n.honest
    case Dial(c, d) =>
      && c !in n.dialers && c !in n.rogue && d.key in n.honest && d.pc == Fresh && Sanitize(d.name) == d.name
      && (if d.server.AtSession? then d.server.sid in n.sessions else d.server.key !in n.honest)
    case SendHello(c, hid) =>
      Knows(n, c) && n.dialers[c].pc.Fresh? && CanSend(n, n.dialers[c], HelloArrives(c, n.dialers[c], hid))
    case GetOffer(c, reply) =>
      Knows(n, c) && n.dialers[c].pc.AwaitOffer? && ReplyTo(n, n.dialers[c], n.dialers[c].pc.req, reply)
    case SendAccept(c, hid) =>
      && Knows(n, c) && n.dialers[c].pc.HaveOffer?
      && CanSend(n, n.dialers[c], AcceptArrives(fp, c, n.dialers[c], n.dialers[c].pc.offer, hid))
    case GetFinal(c, reply) =>
      Knows(n, c) && n.dialers[c].pc.AwaitFinal? && ReplyTo(n, n.dialers[c], n.dialers[c].pc.req, reply)
    case Drop(c) => c in n.dialers && !n.dialers[c].pc.Done?
    case RogueRequest(c, sid, hid, key, frame) =>
      && c !in n.dialers && key !in n.honest && sid in n.sessions && Composable(n, frame)
      && PairingHost.Enabled(n.sessions[sid], Arrive(hid, c, key, frame))
    case Serve(sid, act) => sid in n.sessions && !act.Arrive? && PairingHost.Enabled(n.sessions[sid], act)
  }

  function Goto(n: Net, c: Cid, pc: DialPc): Net
    requires c in n.dialers
  {
    n.(dialers := n.dialers[c := n.dialers[c].(pc := pc)])
  }

  /** The session's part of a step. */
  function At(fp: Key -> PeerId, n: Net, sid: Sid, a: Action): Net
    requires sid in n.sessions && PairingHost.Enabled(n.sessions[sid], a)
  {
    n.(sessions := n.sessions[sid := PairingHost.Apply(fp, n.sessions[sid], a)])
  }

  /** The dialer sends a frame to whoever answers. */
  function Send(fp: Key -> PeerId, n: Net, d: Dialer, a: Action): Net
    requires CanSend(n, d, a)
  {
    if d.server.AtSession? then At(fp, n, d.server.sid, a) else n
  }

  function Request(d: Dialer, hid: Hid): Option<Hid> { if d.server.AtSession? then Some(hid) else None }

  function OnOffer(fp: Key -> PeerId, remote: Key, reply: Frame): DialPc {
    if reply.Message? && reply.wire.OfferFrame? && CheckOffer(fp, remote, reply.wire.offer)
    then HaveOffer(reply.wire.offer)
    else GaveUp
  }

  function OnFinal(fp: Key -> PeerId, d: Dialer, remote: Key, reply: Frame): DialPc
    requires d.pc.AwaitFinal?
  {
    if reply.Message? && reply.wire.FinalizeFrame? then
      match Finish(fp, d, remote, d.pc.offer, reply.wire.sig)
      case Some(peer) => Done(d.pc.offer, d.pc.req, peer)
      case None => GaveUp
    else GaveUp
  }

  /** What serving a step adds to the signatures in circulation: the counter-signature of a `Finalize`. */
  function Sent(s: State, act: Action, s': State): set<Sig> {
    if act.Run? && act.hid in s'.handlers && Finalized(s'.handlers[act.hid]) then {FinalizeOf(s.host)} else {}
  }

  function Next(fp: Key -> PeerId, n: Net, m: Move): Net
    requires Allowed(fp, n, m)
  {
    match m
    case Open(sid, host, limit) =>
      n.(sessions := n.sessions[sid := State(host, HostState(0, None, None), 0, limit, map[])])
    case Dial(c, d) => n.(dialers := n.dialers[c := d])
    case SendHello(c, hid) =>
      var d := n.dialers[c];
      Goto(Send(fp, n, d, HelloArrives(c, d, hid)), c, AwaitOffer(Request(d, hid)))
    case GetOffer(c, reply) => Goto(n, c, OnOffer(fp, RemoteKey(n, n.dialers[c]), reply))
    case SendAccept(c, hid) =>
      var d := n.dialers[c];
      var n' := Send(fp, n, d, AcceptArrives(fp, c, d, d.pc.offer, hid));
      Goto(n'.(signed := n'.signed + {ProofOf(d, d.pc.offer)}), c, AwaitFinal(d.pc.offer, Request(d, hid)))
    case GetFinal(c, reply) => Goto(n, c, OnFinal(fp, n.dialers[c], RemoteKey(n, n.dialers[c]), reply))
    case Drop(c) => Goto(n, c, GaveUp)
    case RogueRequest(c, sid, hid, key, frame) =>
      At(fp, n, sid, Arrive(hid, c, key, frame)).(rogue := n.rogue + {c})
    case Serve(sid, act) =>
      var n' := At(fp, n, sid, act);
      n'.(signed := n.signed + Sent(n.sessions[sid], act, n'.sessions[sid]))
  }

  predicate Start(n: Net) { n.sessions == map[] && n.dialers == map[] && n.rogue == {} && n.signed == {} }

  ghost predicate IsExecution(fp: Key -> PeerId, nets: seq<Net>, moves: seq<Move>) {
    && |nets| == |moves| + 1
    && Start(nets[0])
    && forall i | 0 <= i < |moves| :: Allowed(fp, nets[i], moves[i]) && nets[i + 1] == Next(fp, nets[i], moves[i])
  }
}
