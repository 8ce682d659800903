/** Trusted peers and the document they are stored in
    (crates/entangle-peers/src/peer.rs, load and save of store.rs). */
module Peers {
  import opened Common
  import opened Text
  import opened Identity
  import opened Order

  datatype TrustLevel = Trusted | Observer | Revoked

  datatype TrustedPeer = TrustedPeer(
    peerId: PeerId,
    keyHex: string,
    name: string,
    trust: TrustLevel,
    pairedAt: u64,
    lastSeen: Option<u64>,
    note: string)

  type Fp = Key -> PeerId

  /** A map of peers, every entry under its own id. */
  type Book = m: map<PeerId, TrustedPeer> | forall q | q in m :: m[q].peerId == q

  /** `TrustedPeer::validate`. */
  predicate ValidPeer(fp: Fp, p: TrustedPeer) {
    DecodeKey(p.keyHex).Some? && fp(DecodeKey(p.keyHex).value) == p.peerId
  }

  // ── Load ───────────────────────────────────────────────────────────────────

  /** `load_map` on the parsed document: invalid entries skipped, the last of several wins. */
  function LoadPeers(fp: Fp, peers: seq<TrustedPeer>): (m: Book)
    ensures forall q | q in m :: ValidPeer(fp, m[q]) && m[q] in peers
  {
    if peers == [] then map[]
    else
      var m, p := LoadPeers(fp, peers[..|peers| - 1]), peers[|peers| - 1];
      if ValidPeer(fp, p) then m[p.peerId := p] else m
  }

  method LoadLoop(fp: Fp, peers: seq<TrustedPeer>) returns (m: Book)
    ensures m == LoadPeers(fp, peers)
  {
    m := map[];
    for i := 0 to |peers|
      invariant m == LoadPeers(fp, peers[..i])
    {
      assert peers[..i + 1][..i] == peers[..i];
      if !ValidPeer(fp, peers[i]) { continue; }
      m := m[peers[i].peerId := peers[i]];
    }
    assert peers[..|peers|] == peers;
  }

  /** The text is 64 hex characters of a key whose fingerprint is `q`. */
  predicate DerivesTo(fp: Fp, keyHex: string, q: PeerId) {
    HexDecode(keyHex).Some? && |HexDecode(keyHex).value| == 32 && fp(HexDecode(keyHex).value) == q
  }

  /** The last entry of an id among those whose key derives to it. */
  predicate LastDeriving(fp: Fp, peers: seq<TrustedPeer>, i: nat) {
    && i < |peers| && DerivesTo(fp, peers[i].keyHex, peers[i].peerId)
    && forall j | i < j < |peers| && peers[j].peerId == peers[i].peerId :: !DerivesTo(fp, peers[j].keyHex, peers[j].peerId)
  }

  lemma LoadNext(fp: Fp, peers: seq<TrustedPeer>)
    requires peers != []
    ensures var m, p := LoadPeers(fp, peers[..|peers| - 1]), peers[|peers| - 1];
            LoadPeers(fp, peers) == if DerivesTo(fp, p.keyHex, p.peerId) then m[p.peerId := p] else m
  {
  }

  /** Whoever is loaded is the last entry of its id whose key derives to that
      id: an entry under somebody else's key is never trusted. */
  lemma {:induction false} LoadedDerives(fp: Fp, peers: seq<TrustedPeer>, q: PeerId)
    requires q in LoadPeers(fp, peers)
    ensures DerivesTo(fp, LoadPeers(fp, peers)[q].keyHex, q)
    ensures exists i: nat :: LastDeriving(fp, peers, i) && peers[i] == LoadPeers(fp, peers)[q]
  {
    var n := |peers| - 1;
    var init, p := peers[..n], peers[n];
    LoadNext(fp, peers);
    if p.peerId == q && DerivesTo(fp, p.keyHex, q) {
      assert LastDeriving(fp, peers, n);
    } else {
      LoadedDerives(fp, init, q);
      var i: nat :| LastDeriving(fp, init, i) && init[i] == LoadPeers(fp, init)[q];
      assert init[i] == peers[i];
      LastDerivingInit(fp, peers, i);
    }
  }

  /** Conversely the last entry of an id whose key derives to it is loaded. */
  lemma {:induction false} DerivingLoads(fp: Fp, peers: seq<TrustedPeer>, i: nat)
    requires LastDeriving(fp, peers, i)
    ensures peers[i].peerId in LoadPeers(fp, peers) && LoadPeers(fp, peers)[peers[i].peerId] == peers[i]
  {
    var n := |peers| - 1;
    LoadNext(fp, peers);
    if i < n {
      var init, p := peers[..n], peers[n];
      assert init[i] == peers[i] && (p.peerId == peers[i].peerId ==> !DerivesTo(fp, p.keyHex, p.peerId));
      LastDerivingInit(fp, peers, i);
      DerivingLoads(fp, init, i);
    }
  }

  lemma LastDerivingInit(fp: Fp, peers: seq<TrustedPeer>, i: nat)
    requires i < |peers| - 1
    requires peers[|peers| - 1].peerId != peers[i].peerId || !DerivesTo(fp, peers[|peers| - 1].keyHex, peers[|peers| - 1].peerId)
    ensures LastDeriving(fp, peers, i) <==> LastDeriving(fp, peers[..|peers| - 1], i)
  {
  }

  function ValidPart(fp: Fp, m: Book): Book { map q | q in m && ValidPeer(fp, m[q]) :: m[q] }

  // ── Save ───────────────────────────────────────────────────────────────────

  /** The sort key of `save_map`: the hex form of the id. */
  function SortKey(q: PeerId): seq<int> { HexKey(q) }

  function HexKey(b: Bytes): seq<int> {
    var h := HexEncode(b);
    seq(|h|, i requires 0 <= i < |h| => h[i] as int)
  }

  lemma SortKeyInjective(p: PeerId, q: PeerId)
    requires SortKey(p) == SortKey(q)
    ensures p == q
  {
    var g, h := HexEncode(p), HexEncode(q);
    assert forall i | 0 <= i < |g| :: SortKey(p)[i] == g[i] as int && SortKey(q)[i] == h[i] as int;
    assert g == h;
    HexRoundTrip(p);
    HexRoundTrip(q);
  }

  lemma SortKeyTail(p: Bytes)
    requires p != []
    ensures HexKey(p)[0] == HexChar(p[0] / 16) as int && HexKey(p)[1] == HexChar(p[0] % 16) as int && HexKey(p)[2..] == HexKey(p[1..])
  {
    assert HexEncode(p) == [HexChar(p[0] / 16), HexChar(p[0] % 16)] + HexEncode(p[1..]);
  }

  lemma HexCharMonotone(d: nat, e: nat)
    requires d < 16 && e < 16
    ensures HexChar(d) < HexChar(e) <==> d < e
  {
  }

  lemma LexTwo(a: seq<int>, b: seq<int>)
    requires |a| >= 2 && |b| >= 2
    ensures Lex(a, b) <==> a[0] < b[0] || (a[0] == b[0] && (a[1] < b[1] || (a[1] == b[1] && Lex(a[2..], b[2..]))))
  {
    assert a[1..][1..] == a[2..] && b[1..][1..] == b[2..];
  }

  /** Ordering by the hex text is ordering by the bytes. */
  lemma {:induction false} HexOrderIsByteOrder(p: Bytes, q: Bytes)
    ensures Lex(HexKey(p), HexKey(q)) <==> Lex(p, q)
  {
    if p != [] && q != [] {
      SortKeyTail(p);
      SortKeyTail(q);
      HexOrderIsByteOrder(p[1..], q[1..]);
      LexTwo(HexKey(p), HexKey(q));
      HexCharMonotone(p[0] / 16, q[0] / 16);
      HexCharMonotone(q[0] / 16, p[0] / 16);
      HexCharMonotone(p[0] % 16, q[0] % 16);
      HexCharMonotone(q[0] % 16, p[0] % 16);
    }
  }

  predicate Ascending(peers: seq<TrustedPeer>) {
    forall i, j | 0 <= i < j < |peers| ::
      Lex(SortKey(peers[i].peerId), SortKey(peers[j].peerId)) && peers[i].peerId != peers[j].peerId
  }

  /** `peers` are exactly the entries of the map, in the order of their hex ids. */
  predicate IsSave(m: Book, peers: seq<TrustedPeer>) {
    && Ascending(peers)
    && (forall i | 0 <= i < |peers| :: peers[i].peerId in m && m[peers[i].peerId] == peers[i])
    && (forall q | q in m :: m[q] in peers)
  }

  /** Saving is determined by the map: every sorted enumeration is the same. */
  lemma {:induction false} SaveUnique(m: Book, a: seq<TrustedPeer>, b: seq<TrustedPeer>)
    requires IsSave(m, a) && IsSave(m, b)
    ensures a == b
    decreases |a|
  {
    if a == [] {
      SaveEmpty(m, b);
    } else {
      SaveHead(m, a, b);
      SaveTail(m, a);
      SaveTail(m, b);
      SaveUnique(m - {a[0].peerId}, a[1..], b[1..]);
      SameSeq(a, b);
    }
  }

  lemma SameSeq(a: seq<TrustedPeer>, b: seq<TrustedPeer>)
    requires a != [] && b != [] && a[0] == b[0] && a[1..] == b[1..]
    ensures a == b
  {
    assert a == [a[0]] + a[1..] && b == [b[0]] + b[1..];
  }

  lemma SaveEmpty(m: Book, b: seq<TrustedPeer>)
    requires IsSave(m, []) && IsSave(m, b)
    ensures b == []
  {
    assert |b| == 0 || b[0].peerId in m;
    forall q ensures q !in m { }
  }

  lemma SaveHead(m: Book, a: seq<TrustedPeer>, b: seq<TrustedPeer>)
    requires IsSave(m, a) && IsSave(m, b) && a != []
    ensures b != [] && a[0] == b[0]
  {
    var p := m[a[0].peerId];
    assert p in b;
    var i :| 0 <= i < |b| && b[i] == p;
    assert m[b[0].peerId] in a;
    var j :| 0 <= j < |a| && a[j] == b[0];
    if a[0] != b[0] {
      LexAntisymmetric(SortKey(a[0].peerId), SortKey(b[0].peerId));
      SortKeyInjective(a[0].peerId, b[0].peerId);
    }
  }

  lemma SaveTail(m: Book, a: seq<TrustedPeer>)
    requires IsSave(m, a) && a != []
    ensures IsSave(m - {a[0].peerId}, a[1..])
  {
    var q, t := a[0].peerId, a[1..];
    forall i | 0 <= i < |t| ensures t[i].peerId in m - {q} && (m - {q})[t[i].peerId] == t[i] { assert t[i] == a[i + 1]; }
    forall r | r in m - {q} ensures (m - {q})[r] in t {
      assert m[r] in a;
      var i :| 0 <= i < |a| && a[i] == m[r];
      assert i > 0 && t[i - 1] == m[r];
    }
  }

  /** Some sorted enumeration exists. */
  lemma {:induction false} SaveExists(m: Book)
    ensures exists peers :: IsSave(m, peers)
    decreases m.Keys
  {
    if m == map[] {
      assert IsSave(m, []);
    } else {
      var q := LeastExists(m.Keys, SortKey);
      assert q in m.Keys && q !in (m - {q}).Keys;
      SaveExists(m - {q});
      var rest :| IsSave(m - {q}, rest);
      SaveCons(m, q, rest);
    }
  }

  lemma SaveCons(m: Book, q: PeerId, rest: seq<TrustedPeer>)
    requires q in m && (forall r | r in m.Keys :: Lex(SortKey(q), SortKey(r))) && IsSave(m - {q}, rest)
    ensures IsSave(m, [m[q]] + rest)
  {
    var peers := [m[q]] + rest;
    forall i | 0 <= i < |peers| ensures peers[i].peerId in m && m[peers[i].peerId] == peers[i] {
      if i > 0 { assert peers[i] == rest[i - 1]; }
    }
    forall i, j | 0 <= i < j < |peers|
      ensures Lex(SortKey(peers[i].peerId), SortKey(peers[j].peerId)) && peers[i].peerId != peers[j].peerId
    {
      assert peers[j] == rest[j - 1];
      if i > 0 { assert peers[i] == rest[i - 1]; }
    }
    forall r | r in m ensures m[r] in peers {
      if r == q { assert peers[0] == m[r]; }
      else {
        assert (m - {q})[r] in rest;
        var i :| 0 <= i < |rest| && rest[i] == m[r];
        assert peers[i + 1] == m[r];
      }
    }
  }

  /** `save_map`'s document. */
  ghost function Save(m: Book): (peers: seq<TrustedPeer>)
    ensures IsSave(m, peers)
  {
    SaveExists(m);
    var peers :| IsSave(m, peers);
    peers
  }

  /** The saved document lists every entry once, by ascending peer id. */
  lemma SavedInOrder(m: Book)
    ensures forall i, j | 0 <= i < j < |Save(m)| :: Lex(Save(m)[i].peerId, Save(m)[j].peerId) && Save(m)[i].peerId != Save(m)[j].peerId
    ensures forall p :: p in Save(m) <==> p.peerId in m && m[p.peerId] == p
  {
    var peers := Save(m);
    forall i, j | 0 <= i < j < |peers| ensures Lex(peers[i].peerId, peers[j].peerId) {
      HexOrderIsByteOrder(peers[i].peerId, peers[j].peerId);
    }
  }

  // ── Reading back what was written ──────────────────────────────────────────

  predicate DistinctIds(peers: seq<TrustedPeer>) {
    forall i, j | 0 <= i < j < |peers| :: peers[i].peerId != peers[j].peerId
  }

  lemma {:induction false} NotLoaded(fp: Fp, peers: seq<TrustedPeer>, q: PeerId)
    requires forall i | 0 <= i < |peers| :: peers[i].peerId != q
    ensures q !in LoadPeers(fp, peers)
  {
    if peers != [] { NotLoaded(fp, peers[..|peers| - 1], q); }
  }

  lemma {:induction false} LoadsEach(fp: Fp, peers: seq<TrustedPeer>, i: nat)
    requires DistinctIds(peers) && i < |peers|
    ensures peers[i].peerId in LoadPeers(fp, peers) <==> ValidPeer(fp, peers[i])
    ensures ValidPeer(fp, peers[i]) ==> LoadPeers(fp, peers)[peers[i].peerId] == peers[i]
  {
    var n := |peers| - 1;
    if i < n {
      assert peers[..n][i] == peers[i];
      LoadsEach(fp, peers[..n], i);
    } else {
      NotLoaded(fp, peers[..n], peers[n].peerId);
    }
  }

  /** Loading a saved map gives back its valid entries and nothing else. */
  lemma LoadSave(fp: Fp, m: Book)
    ensures LoadPeers(fp, Save(m)) == ValidPart(fp, m)
  {
    var peers := Save(m);
    var got := LoadPeers(fp, peers);
    forall q | q in m ensures (q in got <==> ValidPeer(fp, m[q])) && (q in got ==> got[q] == m[q]) {
      assert m[q] in peers;
      var i :| 0 <= i < |peers| && peers[i] == m[q];
      LoadsEach(fp, peers, i);
    }
    forall q | q in got ensures q in m { assert got[q] in peers; }
  }
}
