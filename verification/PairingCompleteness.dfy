/** The other half of agreement: a dialer with the right code can finish against
    any live session, and its record and the outcome then name each other. */
module PairingCompleteness {
  import opened Common
  import opened Text
  import opened Identity
  import H = PairingHost
  import opened PairingNetwork

  type Fp = Key -> PeerId

  ghost predicate Leads(fp: Fp, n: Net, moves: seq<Move>, n': Net)
    decreases |moves|
  {
    if moves == [] then n == n'
    else Allowed(fp, n, moves[0]) && Leads(fp, Next(fp, n, moves[0]), moves[1..], n')
  }

  lemma {:induction false} LeadSnoc(fp: Fp, n: Net, moves: seq<Move>, mid: Net, m: Move)
    requires Leads(fp, n, moves, mid) && Allowed(fp, mid, m)
    ensures Leads(fp, n, moves + [m], Next(fp, mid, m))
    decreases |moves|
  {
    if moves == [] {
      assert (moves + [m])[1..] == [];
    } else {
      assert (moves + [m])[1..] == moves[1..] + [m];
      LeadSnoc(fp, Next(fp, n, moves[0]), moves[1..], mid, m);
    }
  }

  /** One dialer `c` with the right code at a live session with a free handler. */
  predicate Ready(n: Net, c: Cid, sid: Sid) {
    && c in n.dialers && sid in n.sessions
    && var d, s := n.dialers[c], n.sessions[sid];
       && d.server == AtSession(sid) && d.pc == Fresh && d.code == s.host.code
       && s.st.ended.None? && s.elapsed <= s.host.ttl && |H.InFlight(s)| < s.limit
  }

  /** The dialer stands at `pc` and the session is `s`. */
  predicate Standing(n: Net, c: Cid, sid: Sid, d: Dialer, s: H.State) {
    c in n.dialers && n.dialers[c] == d && sid in n.sessions && n.sessions[sid] == s
  }

  function Served(s: H.State, hid: H.Hid, hd: H.Handler): H.State { s.(handlers := s.handlers[hid := hd]) }

  /** The session runs handler `hid`, which does not touch the shared state. */
  lemma ServeStep(fp: Fp, n: Net, c: Cid, sid: Sid, d: Dialer, s: H.State, hid: H.Hid, hd: H.Handler, pc: H.Pc)
    requires Standing(n, c, sid, d, Served(s, hid, hd)) && !hd.pc.Replied?
    requires H.HandlerStep(fp, s.host, s.st, s.elapsed, hd) == (s.st, pc)
    ensures Allowed(fp, n, Serve(sid, H.Run(hid)))
    ensures Standing(Next(fp, n, Serve(sid, H.Run(hid))), c, sid, d, Served(s, hid, hd.(pc := pc)))
  {
  }

  // ── Hello and offer ────────────────────────────────────────────────────────

  function HelloHandler(c: Cid, d: Dialer, pc: H.Pc): H.Handler {
    H.Handler(c, d.key, H.Message(H.Hello(H.PROTOCOL_VERSION)), pc)
  }

  /** Each phase continues a path from `start` to `n`. */
  lemma HelloPhase(fp: Fp, start: Net, pre: seq<Move>, n: Net, c: Cid, sid: Sid, hid: H.Hid) returns (moves: seq<Move>, n': Net)
    requires Leads(fp, start, pre, n) && Ready(n, c, sid) && hid !in n.sessions[sid].handlers
    ensures Leads(fp, start, moves, n')
    ensures var d, s := n.dialers[c], n.sessions[sid];
            Standing(n', c, sid, d.(pc := AwaitOffer(Some(hid))),
                     Served(s, hid, HelloHandler(c, d, H.Replied(H.OfferFrame(H.OfferOf(fp, s.host))))))
  {
    var d, s := n.dialers[c], n.sessions[sid];
    var waiting := d.(pc := AwaitOffer(Some(hid)));
    var run := Serve(sid, H.Run(hid));
    LeadSnoc(fp, start, pre, n, SendHello(c, hid));
    var n1 := Next(fp, n, SendHello(c, hid));
    assert Standing(n1, c, sid, waiting, Served(s, hid, HelloHandler(c, d, H.Arrived)));
    ServeStep(fp, n1, c, sid, waiting, s, hid, HelloHandler(c, d, H.Arrived), H.InTime);
    LeadSnoc(fp, start, pre + [SendHello(c, hid)], n1, run);
    var n2 := Next(fp, n1, run);
    ServeStep(fp, n2, c, sid, waiting, s, hid, HelloHandler(c, d, H.InTime), H.Checked);
    LeadSnoc(fp, start, pre + [SendHello(c, hid)] + [run], n2, run);
    var n3 := Next(fp, n2, run);
    ServeStep(fp, n3, c, sid, waiting, s, hid, HelloHandler(c, d, H.Checked), H.Replied(H.OfferFrame(H.OfferOf(fp, s.host))));
    LeadSnoc(fp, start, pre + [SendHello(c, hid)] + [run] + [run], n3, run);
    moves, n' := pre + [SendHello(c, hid)] + [run] + [run] + [run], Next(fp, n3, run);
  }

  // ── Accept and finalize ────────────────────────────────────────────────────

  function AcceptHandler(fp: Fp, c: Cid, d: Dialer, o: H.Offer, pc: H.Pc): H.Handler {
    H.Handler(c, d.key, H.Message(H.AcceptFrame(AcceptOf(fp, d, o))), pc)
  }

  /** The session's own offer passes the dialer's checks, and the dialer's proof the session's. */
  lemma ChecksPass(fp: Fp, d: Dialer, h: H.Host)
    requires d.code == h.code
    ensures CheckOffer(fp, h.key, H.OfferOf(fp, h))
    ensures H.Proves(fp, h, d.key, AcceptOf(fp, d, H.OfferOf(fp, h)))
  {
    DecodeEncodedKey(h.key);
    DecodeEncodedKey(d.key);
  }

  lemma TakeOffer(fp: Fp, n: Net, c: Cid, sid: Sid, d: Dialer, s: H.State, hid: H.Hid, o: H.Offer)
    requires Standing(n, c, sid, d, s) && d.server == AtSession(sid) && d.pc == AwaitOffer(Some(hid))
    requires hid in s.handlers && s.handlers[hid].pc == H.Replied(H.OfferFrame(o)) && CheckOffer(fp, s.host.key, o)
    ensures Allowed(fp, n, GetOffer(c, H.Message(H.OfferFrame(o))))
    ensures Standing(Next(fp, n, GetOffer(c, H.Message(H.OfferFrame(o)))), c, sid, d.(pc := HaveOffer(o)), s)
  {
  }

  lemma GiveProof(fp: Fp, n: Net, c: Cid, sid: Sid, d: Dialer, s: H.State, hid: H.Hid, o: H.Offer)
    requires Standing(n, c, sid, d, s) && d.server == AtSession(sid) && d.pc == HaveOffer(o)
    requires hid !in s.handlers && |H.InFlight(s)| < s.limit
    ensures Allowed(fp, n, SendAccept(c, hid))
    ensures Standing(Next(fp, n, SendAccept(c, hid)), c, sid, d.(pc := AwaitFinal(o, Some(hid))),
                     Served(s, hid, AcceptHandler(fp, c, d, o, H.Arrived)))
  {
    assert AcceptOf(fp, d.(pc := HaveOffer(o)), o) == AcceptOf(fp, d, o);
  }

  /** The step that pairs. */
  lemma ServePair(fp: Fp, n: Net, c: Cid, sid: Sid, d: Dialer, s: H.State, hid: H.Hid, hd: H.Handler)
    requires Standing(n, c, sid, d, Served(s, hid, hd)) && hd.pc.Proven? && s.st.ended.None?
    ensures Allowed(fp, n, Serve(sid, H.Run(hid)))
    ensures Standing(Next(fp, n, Serve(sid, H.Run(hid))), c, sid, d,
                     Served(s, hid, hd.(pc := H.Replied(H.FinalizeFrame(Some(H.FinalizeOf(s.host)))))).(st := H.PairLocked(s.st, hd.pc.peer)))
  {
  }

  lemma TakeFinal(fp: Fp, n: Net, c: Cid, sid: Sid, d: Dialer, s: H.State, hid: H.Hid, o: H.Offer)
    requires Standing(n, c, sid, d, s) && d.server == AtSession(sid) && d.pc == AwaitFinal(o, Some(hid))
    requires hid in s.handlers && s.handlers[hid].pc == H.Replied(H.FinalizeFrame(Some(H.FinalizeOf(s.host))))
    requires o == H.OfferOf(fp, s.host) && d.code == s.host.code && CheckOffer(fp, s.host.key, o)
    ensures Allowed(fp, n, GetFinal(c, H.Message(H.FinalizeFrame(Some(H.FinalizeOf(s.host))))))
    ensures Standing(Next(fp, n, GetFinal(c, H.Message(H.FinalizeFrame(Some(H.FinalizeOf(s.host)))))), c, sid,
                     d.(pc := Done(o, Some(hid), H.PairedPeer(fp(s.host.key), HexEncode(s.host.key), Sanitize(s.host.name)))), s)
  {
  }

  /** From the proof's arrival to the pairing: four steps of its handler. */
  lemma ProofPhase(fp: Fp, start: Net, pre: seq<Move>, n: Net, c: Cid, sid: Sid, d: Dialer, s: H.State, hid: H.Hid, o: H.Offer)
    returns (moves: seq<Move>, n': Net)
    requires Leads(fp, start, pre, n)
    requires Standing(n, c, sid, d, Served(s, hid, AcceptHandler(fp, c, d, o, H.Arrived)))
    requires s.st.ended.None? && s.elapsed <= s.host.ttl && H.Proves(fp, s.host, d.key, AcceptOf(fp, d, o))
    ensures Leads(fp, start, moves, n')
    ensures var paired := H.PairLocked(s.st, H.PairedBy(d.key, AcceptOf(fp, d, o)));
            Standing(n', c, sid, d,
                     Served(s, hid, AcceptHandler(fp, c, d, o, H.Replied(H.FinalizeFrame(Some(H.FinalizeOf(s.host)))))).(st := paired))
  {
    var run, proven := Serve(sid, H.Run(hid)), H.Proven(H.PairedBy(d.key, AcceptOf(fp, d, o)));
    ServeStep(fp, n, c, sid, d, s, hid, AcceptHandler(fp, c, d, o, H.Arrived), H.InTime);
    LeadSnoc(fp, start, pre, n, run);
    var n1 := Next(fp, n, run);
    ServeStep(fp, n1, c, sid, d, s, hid, AcceptHandler(fp, c, d, o, H.InTime), H.Checked);
    LeadSnoc(fp, start, pre + [run], n1, run);
    var n2 := Next(fp, n1, run);
    ServeStep(fp, n2, c, sid, d, s, hid, AcceptHandler(fp, c, d, o, H.Checked), proven);
    LeadSnoc(fp, start, pre + [run] + [run], n2, run);
    var n3 := Next(fp, n2, run);
    ServePair(fp, n3, c, sid, d, s, hid, AcceptHandler(fp, c, d, o, proven));
    LeadSnoc(fp, start, pre + [run] + [run] + [run], n3, run);
    moves, n' := pre + [run] + [run] + [run] + [run], Next(fp, n3, run);
  }

  // ── The whole exchange ─────────────────────────────────────────────────────

  lemma RoomAfterReply(s: H.State, hid: H.Hid, hd: H.Handler)
    requires hid !in s.handlers && hd.pc.Replied?
    ensures H.InFlight(Served(s, hid, hd)) == H.InFlight(s)
  {
  }

  /** From the offer's arrival at the dialer to its proof's arrival at the session. */
  lemma OfferPhase(fp: Fp, start: Net, pre: seq<Move>, n: Net, c: Cid, sid: Sid, d: Dialer, s: H.State, h1: H.Hid, h2: H.Hid)
    returns (moves: seq<Move>, n': Net)
    requires Leads(fp, start, pre, n)
    requires Standing(n, c, sid, d, s) && d.server == AtSession(sid) && d.pc == AwaitOffer(Some(h1)) && d.code == s.host.code
    requires h1 in s.handlers && s.handlers[h1].pc == H.Replied(H.OfferFrame(H.OfferOf(fp, s.host)))
    requires h2 !in s.handlers && |H.InFlight(s)| < s.limit
    ensures Leads(fp, start, moves, n')
    ensures var o := H.OfferOf(fp, s.host);
            Standing(n', c, sid, d.(pc := AwaitFinal(o, Some(h2))), Served(s, h2, AcceptHandler(fp, c, d, o, H.Arrived)))
  {
    var o := H.OfferOf(fp, s.host);
    ChecksPass(fp, d, s.host);
    TakeOffer(fp, n, c, sid, d, s, h1, o);
    var get := GetOffer(c, H.Message(H.OfferFrame(o)));
    LeadSnoc(fp, start, pre, n, get);
    var n1 := Next(fp, n, get);
    GiveProof(fp, n1, c, sid, d.(pc := HaveOffer(o)), s, h2, o);
    assert AcceptOf(fp, d.(pc := HaveOffer(o)), o) == AcceptOf(fp, d, o);
    LeadSnoc(fp, start, pre + [get], n1, SendAccept(c, h2));
    moves, n' := pre + [get] + [SendAccept(c, h2)], Next(fp, n1, SendAccept(c, h2));
  }

  lemma FinalPhase(fp: Fp, start: Net, pre: seq<Move>, n: Net, c: Cid, sid: Sid, d: Dialer, s: H.State, hid: H.Hid)
    returns (moves: seq<Move>, n': Net)
    requires Leads(fp, start, pre, n)
    requires Standing(n, c, sid, d, s) && d.server == AtSession(sid) && d.code == s.host.code
    requires d.pc == AwaitFinal(H.OfferOf(fp, s.host), Some(hid))
    requires hid in s.handlers && s.handlers[hid].pc == H.Replied(H.FinalizeFrame(Some(H.FinalizeOf(s.host))))
    ensures Leads(fp, start, moves, n')
    ensures var o := H.OfferOf(fp, s.host);
            Standing(n', c, sid, d.(pc := Done(o, Some(hid), H.PairedPeer(fp(s.host.key), HexEncode(s.host.key), Sanitize(s.host.name)))), s)
  {
    var o := H.OfferOf(fp, s.host);
    ChecksPass(fp, d, s.host);
    TakeFinal(fp, n, c, sid, d, s, hid, o);
    var get := GetFinal(c, H.Message(H.FinalizeFrame(Some(H.FinalizeOf(s.host)))));
    LeadSnoc(fp, start, pre, n, get);
    moves, n' := pre + [get], Next(fp, n, get);
  }

  /** Completeness: from any state in which a dialer with the right code faces a
      live session with a free handler, some moves let it finish; the session's
      outcome is then this dialer and the dialer's record this host. */
  lemma RightCodeCanFinish(fp: Fp, n: Net, c: Cid, sid: Sid, h1: H.Hid, h2: H.Hid) returns (moves: seq<Move>, n': Net)
    requires Ready(n, c, sid) && h1 !in n.sessions[sid].handlers && h2 !in n.sessions[sid].handlers && h1 != h2
    ensures Leads(fp, n, moves, n') && c in n'.dialers && sid in n'.sessions
    ensures var d, h := n.dialers[c], n.sessions[sid].host;
            && n'.dialers[c].pc.Done?
            && n'.dialers[c].pc.peer == H.PairedPeer(fp(h.key), HexEncode(h.key), Sanitize(h.name))
            && n'.sessions[sid].st.outcome == Some(H.PairedPeer(fp(d.key), HexEncode(d.key), Sanitize(d.name)))
  {
    var d, s := n.dialers[c], n.sessions[sid];
    var o := H.OfferOf(fp, s.host);
    var m1, n1 := HelloPhase(fp, n, [], n, c, sid, h1);
    var s1 := n1.sessions[sid];
    RoomAfterReply(s, h1, s1.handlers[h1]);
    var m2, n2 := OfferPhase(fp, n, m1, n1, c, sid, n1.dialers[c], s1, h1, h2);
    ChecksPass(fp, d, s.host);
    var d2 := n2.dialers[c];
    assert AcceptOf(fp, d2, o) == AcceptOf(fp, d, o) && AcceptOf(fp, n1.dialers[c], o) == AcceptOf(fp, d, o);
    var m3, n3 := ProofPhase(fp, n, m2, n2, c, sid, d2, s1, h2, o);
    moves, n' := FinalPhase(fp, n, m3, n3, c, sid, d2, n3.sessions[sid], h2);
  }
}
