/** What every execution of the pairing network guarantees to both honest ends. */
module PairingAgreement {
  import opened Common
  import opened Text
  import opened Identity
  import H = PairingHost
  import opened PairingNetwork

  type Fp = Key -> PeerId

  // ── How a session grows ────────────────────────────────────────────────────

  /** Handlers keep their connection, key and frame, and a reply is final. */
  predicate HandlerGrows(s: H.State, s': H.State, x: H.Hid)
    requires x in s.handlers
  {
    && x in s'.handlers
    && var h, h' := s.handlers[x], s'.handlers[x];
       h.conn == h'.conn && h.remote == h'.remote && h.frame == h'.frame && (h.pc.Replied? ==> h'.pc == h.pc)
  }

  predicate SessionGrows(s: H.State, s': H.State) {
    s'.host == s.host && forall x | x in s.handlers :: HandlerGrows(s, s', x)
  }

  lemma StepGrows(fp: Fp, s: H.State, a: H.Action)
    requires H.Enabled(s, a)
    ensures SessionGrows(s, H.Apply(fp, s, a))
    ensures forall x | x in H.Apply(fp, s, a).handlers :: x in s.handlers || (a.Arrive? && x == a.hid)
    ensures a.Arrive? ==> H.Apply(fp, s, a).handlers[a.hid] == H.Handler(a.conn, a.remote, a.frame, H.Arrived)
  {
  }

  // ── Invariant ──────────────────────────────────────────────────────────────

  /** A handler of a dialer's connection carries that dialer's own frame; any
      other carries the frame of a dishonest key. */
  predicate HandlerTied(fp: Fp, n: Net, sid: Sid, x: H.Hid)
    requires sid in n.sessions && x in n.sessions[sid].handlers
  {
    var h := n.sessions[sid].handlers[x];
    if h.conn in n.dialers then
      var d := n.dialers[h.conn];
      && d.server == AtSession(sid) && h.remote == d.key
      && (|| h.frame == H.Message(H.Hello(H.PROTOCOL_VERSION))
          || h.frame == H.Message(H.AcceptFrame(AcceptOf(fp, d, H.OfferOf(fp, n.sessions[sid].host)))))
    else h.conn in n.rogue && h.remote !in n.honest
  }

  predicate SessionTied(fp: Fp, n: Net, sid: Sid)
    requires sid in n.sessions
  {
    n.sessions[sid].host.key in n.honest && forall x | x in n.sessions[sid].handlers :: HandlerTied(fp, n, sid, x)
  }

  /** The dialer's request `req` is at its session, sent on its connection. */
  predicate Pending(n: Net, c: Cid, req: Option<H.Hid>)
    requires Knows(n, c)
  {
    var d := n.dialers[c];
    d.server.AtSession? ==>
      req.Some? && req.value in n.sessions[d.server.sid].handlers && n.sessions[d.server.sid].handlers[req.value].conn == c
  }

  predicate OfferOk(fp: Fp, n: Net, c: Cid, o: H.Offer)
    requires Knows(n, c)
  {
    var d := n.dialers[c];
    && CheckOffer(fp, RemoteKey(n, d), o)
    && (d.server.AtSession? ==> o == H.OfferOf(fp, n.sessions[d.server.sid].host))
  }

  predicate DialerOk(fp: Fp, n: Net, c: Cid)
    requires c in n.dialers
  {
    && Knows(n, c)
    && var d := n.dialers[c];
       && d.key in n.honest && Sanitize(d.name) == d.name
       && (d.server.Rogue? ==> d.server.key !in n.honest)
       && match d.pc
          case Fresh => true
          case GaveUp => true
          case AwaitOffer(req) => Pending(n, c, req)
          case HaveOffer(o) => OfferOk(fp, n, c, o)
          case AwaitFinal(o, req) => Pending(n, c, req) && OfferOk(fp, n, c, o)
          case Done(o, req, peer) =>
            && Pending(n, c, req) && OfferOk(fp, n, c, o)
            && peer == H.PairedPeer(fp(RemoteKey(n, d)), HexEncode(RemoteKey(n, d)), Sanitize(o.name))
            && (d.server.AtSession? ==> H.Finalized(n.sessions[d.server.sid].handlers[req.value]))
  }

  /** Who made an honest signature: a dialer, over the code it was given, or a
      host session, over its own code and nonce. */
  ghost predicate MadeBy(n: Net, g: H.Sig) {
    || (exists c, o :: ByDialer(n, g, c, o))
    || (exists sid :: BySession(n, g, sid))
  }

  predicate ByDialer(n: Net, g: H.Sig, c: Cid, o: H.Offer) { c in n.dialers && g == ProofOf(n.dialers[c], o) }

  predicate BySession(n: Net, g: H.Sig, sid: Sid) { sid in n.sessions && g == H.FinalizeOf(n.sessions[sid].host) }

  ghost predicate SignedOk(n: Net) { forall g | g in n.signed :: MadeBy(n, g) }

  ghost predicate Ties(fp: Fp, n: Net) {
    && (forall c | c in n.dialers :: DialerOk(fp, n, c) && c !in n.rogue)
    && (forall sid | sid in n.sessions :: SessionTied(fp, n, sid))
  }

  ghost predicate Sessions(fp: Fp, n: Net) { forall sid | sid in n.sessions :: H.Inv(fp, n.sessions[sid]) }

  ghost predicate NetInv(fp: Fp, n: Net) { Sessions(fp, n) && Ties(fp, n) && SignedOk(n) }

  // ── Sessions ───────────────────────────────────────────────────────────────

  /** What a move does to a session that was there before. */
  function SessionAct(fp: Fp, n: Net, m: Move, sid: Sid): Option<H.Action>
    requires Allowed(fp, n, m) && sid in n.sessions
  {
    match m
    case SendHello(c, hid) =>
      if n.dialers[c].server == AtSession(sid) then Some(HelloArrives(c, n.dialers[c], hid)) else None
    case SendAccept(c, hid) =>
      if n.dialers[c].server == AtSession(sid) then Some(AcceptArrives(fp, c, n.dialers[c], n.dialers[c].pc.offer, hid)) else None
    case RogueRequest(c, q, hid, key, frame) => if q == sid then Some(H.Arrive(hid, c, key, frame)) else None
    case Serve(q, act) => if q == sid then Some(act) else None
    case _ => None
  }

  lemma SessionMoves(fp: Fp, n: Net, m: Move, sid: Sid)
    requires Allowed(fp, n, m) && sid in n.sessions
    ensures sid in Next(fp, n, m).sessions
    ensures match SessionAct(fp, n, m, sid)
            case None => Next(fp, n, m).sessions[sid] == n.sessions[sid]
            case Some(a) => H.Enabled(n.sessions[sid], a) && Next(fp, n, m).sessions[sid] == H.Apply(fp, n.sessions[sid], a)
  {
  }

  lemma NewSessions(fp: Fp, n: Net, m: Move, sid: Sid)
    requires Allowed(fp, n, m) && sid in Next(fp, n, m).sessions && sid !in n.sessions
    ensures m.Open? && m.sid == sid && H.Init(Next(fp, n, m).sessions[sid])
    ensures Next(fp, n, m).sessions[sid].host == m.host && m.host.key in n.honest
  {
  }

  lemma SessionsStep(fp: Fp, n: Net, m: Move)
    requires Sessions(fp, n) && Allowed(fp, n, m)
    ensures Sessions(fp, Next(fp, n, m))
  {
    var n' := Next(fp, n, m);
    forall sid | sid in n'.sessions ensures H.Inv(fp, n'.sessions[sid]) {
      if sid in n.sessions {
        SessionMoves(fp, n, m, sid);
        match SessionAct(fp, n, m, sid)
        case Some(a) => H.StepInv(fp, n.sessions[sid], a);
        case None =>
      } else {
        NewSessions(fp, n, m, sid);
        H.InitInv(fp, n'.sessions[sid]);
      }
    }
  }

  // ── Ties ───────────────────────────────────────────────────────────────────

  /** Everything in `n` is still in `n'`: sessions have grown, dialers kept their identity. */
  ghost predicate Grows(n: Net, n': Net) {
    && n'.honest == n.honest && n.rogue <= n'.rogue && n.rogue !! n'.dialers.Keys
    && (forall sid | sid in n.sessions :: sid in n'.sessions && SessionGrows(n.sessions[sid], n'.sessions[sid]))
    && (forall c | c in n.dialers :: SameDialer(n, n', c))
  }

  predicate SameDialer(n: Net, n': Net, c: Cid)
    requires c in n.dialers
  {
    c in n'.dialers && n'.dialers[c] == n.dialers[c].(pc := n'.dialers[c].pc)
  }

  lemma MoveGrows(fp: Fp, n: Net, m: Move)
    requires Allowed(fp, n, m) && n.rogue !! n.dialers.Keys
    ensures Grows(n, Next(fp, n, m))
  {
    var n' := Next(fp, n, m);
    forall sid | sid in n.sessions ensures sid in n'.sessions && SessionGrows(n.sessions[sid], n'.sessions[sid]) {
      SessionMoves(fp, n, m, sid);
      match SessionAct(fp, n, m, sid)
      case Some(a) => StepGrows(fp, n.sessions[sid], a);
      case None =>
    }
  }

  lemma DialerKept(fp: Fp, n: Net, n': Net, c: Cid)
    requires Grows(n, n') && c in n.dialers && DialerOk(fp, n, c) && c in n'.dialers && n'.dialers[c] == n.dialers[c]
    ensures DialerOk(fp, n', c)
  {
    var d := n.dialers[c];
    if d.server.AtSession? {
      var s, s' := n.sessions[d.server.sid], n'.sessions[d.server.sid];
      assert SessionGrows(s, s');
      assert forall x | x in s.handlers :: HandlerGrows(s, s', x);
    }
  }

  lemma HandlerKept(fp: Fp, n: Net, n': Net, sid: Sid, x: H.Hid)
    requires Grows(n, n') && Ties(fp, n) && sid in n.sessions && x in n.sessions[sid].handlers
    ensures x in n'.sessions[sid].handlers && HandlerTied(fp, n', sid, x)
  {
    assert SessionTied(fp, n, sid) && HandlerTied(fp, n, sid, x);
    assert SessionGrows(n.sessions[sid], n'.sessions[sid]);
    assert HandlerGrows(n.sessions[sid], n'.sessions[sid], x);
    var c := n.sessions[sid].handlers[x].conn;
    if c in n.dialers { assert SameDialer(n, n', c); }
  }

  /** The handler a move creates. */
  lemma HandlerArrives(fp: Fp, n: Net, m: Move, sid: Sid)
    requires Allowed(fp, n, m) && Ties(fp, n) && sid in n.sessions
    requires SessionAct(fp, n, m, sid).Some? && SessionAct(fp, n, m, sid).value.Arrive?
    ensures var hid := SessionAct(fp, n, m, sid).value.hid;
            hid in Next(fp, n, m).sessions[sid].handlers && HandlerTied(fp, Next(fp, n, m), sid, hid)
  {
    SessionMoves(fp, n, m, sid);
    StepGrows(fp, n.sessions[sid], SessionAct(fp, n, m, sid).value);
    if !m.RogueRequest? { assert DialerOk(fp, n, m.c); }
  }

  lemma SessionTies(fp: Fp, n: Net, m: Move, sid: Sid)
    requires Allowed(fp, n, m) && Ties(fp, n) && Grows(n, Next(fp, n, m)) && sid in Next(fp, n, m).sessions
    ensures SessionTied(fp, Next(fp, n, m), sid)
  {
    var n' := Next(fp, n, m);
    if sid !in n.sessions {
      NewSessions(fp, n, m, sid);
    } else {
      assert SessionTied(fp, n, sid) && SessionGrows(n.sessions[sid], n'.sessions[sid]);
      SessionMoves(fp, n, m, sid);
      var act := SessionAct(fp, n, m, sid);
      if act.Some? { StepGrows(fp, n.sessions[sid], act.value); }
      forall x | x in n'.sessions[sid].handlers ensures HandlerTied(fp, n', sid, x) {
        if x in n.sessions[sid].handlers { HandlerKept(fp, n, n', sid, x); }
        else { HandlerArrives(fp, n, m, sid); }
      }
    }
  }

  /** The dialer whose move it is. */
  predicate Mover(m: Move, c: Cid) {
    (m.Dial? || m.SendHello? || m.GetOffer? || m.SendAccept? || m.GetFinal? || m.Drop?) && m.c == c
  }

  lemma OthersStay(fp: Fp, n: Net, m: Move, c: Cid)
    requires Allowed(fp, n, m) && c in Next(fp, n, m).dialers && !Mover(m, c)
    ensures c in n.dialers && Next(fp, n, m).dialers[c] == n.dialers[c]
  {
  }

  lemma SenderOk(fp: Fp, n: Net, m: Move)
    requires Allowed(fp, n, m) && Ties(fp, n) && (m.SendHello? || m.SendAccept?)
    ensures DialerOk(fp, Next(fp, n, m), m.c)
  {
    assert DialerOk(fp, n, m.c);
    var d := n.dialers[m.c];
    if d.server.AtSession? {
      SessionMoves(fp, n, m, d.server.sid);
      StepGrows(fp, n.sessions[d.server.sid], SessionAct(fp, n, m, d.server.sid).value);
    }
  }

  /** An honest session's reply to the dialer's Hello is its own offer. */
  lemma OfferReceived(fp: Fp, n: Net, c: Cid, reply: H.Frame)
    requires Allowed(fp, n, GetOffer(c, reply)) && DialerOk(fp, n, c)
    requires n.dialers[c].server.AtSession? ==> H.SessionOk(fp, n.sessions[n.dialers[c].server.sid])
    ensures DialerOk(fp, Next(fp, n, GetOffer(c, reply)), c)
  {
    var d := n.dialers[c];
    if d.server.AtSession? {
      var s := n.sessions[d.server.sid];
      assert H.HandlerOk(fp, s.host, s.st, s.handlers[d.pc.req.value]);
    }
  }

  lemma FinalReceived(fp: Fp, n: Net, c: Cid, reply: H.Frame)
    requires Allowed(fp, n, GetFinal(c, reply)) && DialerOk(fp, n, c)
    ensures DialerOk(fp, Next(fp, n, GetFinal(c, reply)), c)
  {
    var d := n.dialers[c];
    var remote := RemoteKey(n, d);
    var pc := OnFinal(fp, d, remote, reply);
    assert pc.Done? ==> CheckOffer(fp, remote, d.pc.offer) && pc.peer == H.PairedPeer(fp(remote), HexEncode(remote), Sanitize(d.pc.offer.name));
    assert Next(fp, n, GetFinal(c, reply)) == Goto(n, c, pc);
  }

  lemma DialerTies(fp: Fp, n: Net, m: Move, c: Cid)
    requires Allowed(fp, n, m) && NetInv(fp, n) && Grows(n, Next(fp, n, m)) && c in Next(fp, n, m).dialers
    ensures DialerOk(fp, Next(fp, n, m), c)
  {
    if Mover(m, c) {
      match m
      case Dial(_, _) =>
      case SendHello(_, _) => SenderOk(fp, n, m);
      case SendAccept(_, _) => SenderOk(fp, n, m);
      case GetOffer(_, reply) =>
        assert DialerOk(fp, n, c);
        if n.dialers[c].server.AtSession? { assert H.Inv(fp, n.sessions[n.dialers[c].server.sid]); }
        OfferReceived(fp, n, c, reply);
      case GetFinal(_, reply) => FinalReceived(fp, n, c, reply);
      case Drop(_) => assert DialerOk(fp, n, c);
    } else {
      OthersStay(fp, n, m, c);
      DialerKept(fp, n, Next(fp, n, m), c);
    }
  }

  lemma TiesStep(fp: Fp, n: Net, m: Move)
    requires Allowed(fp, n, m) && NetInv(fp, n)
    ensures Ties(fp, Next(fp, n, m)) && Grows(n, Next(fp, n, m))
  {
    var n' := Next(fp, n, m);
    MoveGrows(fp, n, m);
    forall c | c in n'.dialers ensures DialerOk(fp, n', c) && c !in n'.rogue {
      DialerTies(fp, n, m, c);
      RogueStays(fp, n, m, c);
    }
    forall sid | sid in n'.sessions ensures SessionTied(fp, n', sid) { SessionTies(fp, n, m, sid); }
  }

  lemma RogueStays(fp: Fp, n: Net, m: Move, c: Cid)
    requires Allowed(fp, n, m) && n.rogue !! n.dialers.Keys && c in Next(fp, n, m).dialers
    ensures c !in Next(fp, n, m).rogue
  {
  }

  // ── Signatures ─────────────────────────────────────────────────────────────

  lemma MakerStays(n: Net, n': Net, g: H.Sig)
    requires Grows(n, n') && MadeBy(n, g)
    ensures MadeBy(n', g)
  {
    if c, o :| ByDialer(n, g, c, o) {
      assert SameDialer(n, n', c);
      assert ByDialer(n', g, c, o);
    } else {
      var sid :| BySession(n, g, sid);
      assert SessionGrows(n.sessions[sid], n'.sessions[sid]);
      assert BySession(n', g, sid);
    }
  }

  lemma NewSignature(fp: Fp, n: Net, m: Move, g: H.Sig)
    requires Allowed(fp, n, m) && g in Next(fp, n, m).signed && g !in n.signed && Grows(n, Next(fp, n, m))
    ensures MadeBy(Next(fp, n, m), g)
  {
    var n' := Next(fp, n, m);
    if m.SendAccept? {
      assert ByDialer(n', g, m.c, n.dialers[m.c].pc.offer);
    } else {
      assert m.Serve?;
      assert SessionGrows(n.sessions[m.sid], n'.sessions[m.sid]);
      assert BySession(n', g, m.sid);
    }
  }

  lemma NetStep(fp: Fp, n: Net, m: Move)
    requires NetInv(fp, n) && Allowed(fp, n, m)
    ensures NetInv(fp, Next(fp, n, m))
  {
    var n' := Next(fp, n, m);
    SessionsStep(fp, n, m);
    TiesStep(fp, n, m);
    forall g | g in n'.signed ensures MadeBy(n', g) {
      if g in n.signed { MakerStays(n, n', g); } else { NewSignature(fp, n, m, g); }
    }
  }

  lemma {:induction false} ExecutionInv(fp: Fp, nets: seq<Net>, moves: seq<Move>, i: nat)
    requires IsExecution(fp, nets, moves) && i < |nets|
    ensures NetInv(fp, nets[i])
  {
    if i > 0 {
      ExecutionInv(fp, nets, moves, i - 1);
      NetStep(fp, nets[i - 1], moves[i - 1]);
    }
  }

  // ── Theorems over whole executions ─────────────────────────────────────────

  predicate FinishedAt(n: Net, c: Cid, sid: Sid) {
    c in n.dialers && n.dialers[c].server == AtSession(sid) && n.dialers[c].pc.Done? && sid in n.sessions
  }

  lemma FinishedHandler(fp: Fp, n: Net, c: Cid, sid: Sid) returns (x: H.Hid)
    requires NetInv(fp, n) && FinishedAt(n, c, sid)
    ensures x in n.sessions[sid].handlers && H.Finalized(n.sessions[sid].handlers[x])
    ensures n.sessions[sid].handlers[x].conn == c && H.HandlerOk(fp, n.sessions[sid].host, n.sessions[sid].st, n.sessions[sid].handlers[x])
    ensures HandlerTied(fp, n, sid, x) && DialerOk(fp, n, c)
  {
    assert DialerOk(fp, n, c);
    x := n.dialers[c].pc.req.value;
    assert SessionTied(fp, n, sid);
    assert H.Inv(fp, n.sessions[sid]);
  }

  /** Agreement: a dialer that finishes against an honest session used that
      session's code and nonce; the session's outcome is exactly that dialer,
      and the dialer's record is exactly that host. */
  lemma {:induction false} Agreement(fp: Fp, nets: seq<Net>, moves: seq<Move>, i: nat, c: Cid, sid: Sid)
    requires IsExecution(fp, nets, moves) && i < |nets| && FinishedAt(nets[i], c, sid)
    ensures var d, h, st := nets[i].dialers[c], nets[i].sessions[sid].host, nets[i].sessions[sid].st;
            && d.code == h.code && d.pc.offer.nonce == h.nonce
            && st.ended == Some(H.Paired)
            && st.outcome == Some(H.PairedPeer(fp(d.key), HexEncode(d.key), d.name))
            && d.pc.peer == H.PairedPeer(fp(h.key), HexEncode(h.key), h.name)
  {
    ExecutionInv(fp, nets, moves, i);
    var x := FinishedHandler(fp, nets[i], c, sid);
    var d, s := nets[i].dialers[c], nets[i].sessions[sid];
    assert H.Inv(fp, s);
    PayloadInjective(d.code, s.host.nonce, s.host.code, s.host.nonce);
  }

  /** No two dialers finish against one session. */
  lemma {:induction false} OneDialerFinishes(fp: Fp, nets: seq<Net>, moves: seq<Move>, i: nat, c: Cid, e: Cid, sid: Sid)
    requires IsExecution(fp, nets, moves) && i < |nets| && FinishedAt(nets[i], c, sid) && FinishedAt(nets[i], e, sid)
    ensures c == e
  {
    ExecutionInv(fp, nets, moves, i);
    var x := FinishedHandler(fp, nets[i], c, sid);
    var y := FinishedHandler(fp, nets[i], e, sid);
    assert H.Inv(fp, nets[i].sessions[sid]);
  }

  predicate ProvedTo(n: Net, c: Cid, sid: Sid, k: Key) {
    && c in n.dialers && sid in n.sessions && n.dialers[c].server == AtSession(sid)
    && n.dialers[c].key == k && n.dialers[c].code == n.sessions[sid].host.code
  }

  /** If a session pairs with the key of an honest device, that device dialled
      this very session with its code: nobody else can pair in its name. */
  lemma {:induction false} OutcomeIsTheDialer(fp: Fp, nets: seq<Net>, moves: seq<Move>, i: nat, sid: Sid, k: Key)
    requires IsExecution(fp, nets, moves) && i < |nets| && sid in nets[i].sessions && k in nets[i].honest
    requires nets[i].sessions[sid].st.outcome.Some? && nets[i].sessions[sid].st.outcome.value.keyHex == HexEncode(k)
    ensures exists c :: ProvedTo(nets[i], c, sid, k)
  {
    ExecutionInv(fp, nets, moves, i);
    var n, s := nets[i], nets[i].sessions[sid];
    assert H.Inv(fp, s);
    var x :| x in s.handlers && H.Finalized(s.handlers[x]);
    assert H.HandlerOk(fp, s.host, s.st, s.handlers[x]) && SessionTied(fp, n, sid) && HandlerTied(fp, n, sid, x);
    var hd := s.handlers[x];
    HexRoundTrip(k);
    HexRoundTrip(hd.remote);
    assert hd.remote == k;
    PayloadInjective(n.dialers[hd.conn].code, s.host.nonce, s.host.code, s.host.nonce);
    assert ProvedTo(n, hd.conn, sid, k);
  }

  /** Every honest signature in circulation was made by a dialer over the code
      typed into it or by a host session over its own code and nonce. */
  lemma {:induction false} SignaturesAreAccountable(fp: Fp, nets: seq<Net>, moves: seq<Move>, i: nat, g: H.Sig)
    requires IsExecution(fp, nets, moves) && i < |nets| && g in nets[i].signed
    ensures MadeBy(nets[i], g)
  {
    ExecutionInv(fp, nets, moves, i);
  }

  /** Whoever a dialer finishes with, honest or not, it records under the key
      that connection authenticated and under that key's own fingerprint: nobody
      is paired in another's name. */
  lemma {:induction false} DialerRecordsTheConnection(fp: Fp, nets: seq<Net>, moves: seq<Move>, i: nat, c: Cid)
    requires IsExecution(fp, nets, moves) && i < |nets| && c in nets[i].dialers && nets[i].dialers[c].pc.Done?
    ensures match nets[i].dialers[c].server
            case Rogue(key) => nets[i].dialers[c].pc.peer.keyHex == HexEncode(key) && nets[i].dialers[c].pc.peer.peerId == fp(key)
            case AtSession(sid) =>
              && sid in nets[i].sessions
              && nets[i].dialers[c].pc.peer.keyHex == HexEncode(nets[i].sessions[sid].host.key)
              && nets[i].dialers[c].pc.peer.peerId == fp(nets[i].sessions[sid].host.key)
  {
    ExecutionInv(fp, nets, moves, i);
    assert DialerOk(fp, nets[i], c);
  }

  /** A dialer finishes only on a counter-signature of the key it is connected
      to over the code typed into it and the nonce it was offered: whoever it
      pairs with, honest or not, has shown that it knows the code. */
  lemma {:induction false} FinishedOnProof(fp: Fp, nets: seq<Net>, moves: seq<Move>, i: nat, c: Cid)
    requires IsExecution(fp, nets, moves) && i < |moves| && c in nets[i].dialers && !nets[i].dialers[c].pc.Done?
    requires c in nets[i + 1].dialers && nets[i + 1].dialers[c].pc.Done?
    ensures var d := nets[i].dialers[c];
            && d.pc.AwaitFinal? && Knows(nets[i], c)
            && nets[i + 1].dialers[c].pc.offer == d.pc.offer
            && moves[i] == GetFinal(c, H.Message(H.FinalizeFrame(Some(H.Sig(RemoteKey(nets[i], d), Payload(d.code, d.pc.offer.nonce))))))
  {
    FinishStep(fp, nets[i], moves[i], c);
  }

  lemma FinishStep(fp: Fp, n: Net, m: Move, c: Cid)
    requires Allowed(fp, n, m) && c in n.dialers && !n.dialers[c].pc.Done?
    requires c in Next(fp, n, m).dialers && Next(fp, n, m).dialers[c].pc.Done?
    ensures var d := n.dialers[c];
            && d.pc.AwaitFinal? && Knows(n, c) && Next(fp, n, m).dialers[c].pc.offer == d.pc.offer
            && m == GetFinal(c, H.Message(H.FinalizeFrame(Some(H.Sig(RemoteKey(n, d), Payload(d.code, d.pc.offer.nonce))))))
  {
  }
}
