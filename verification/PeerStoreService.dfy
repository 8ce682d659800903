/** The store object: one mutation run to completion on the shared file
    (crates/entangle-peers/src/store.rs). */
module PeerStoreService {
  import opened Common
  import opened Identity
  import opened Order
  import opened Peers
  import opened PeerStore

  class Disk {
    var file: Content
  }

  /** Which of the I/O steps of one call succeed. */
  datatype Io = Io(lock: bool, read: bool, write: bool)

  /** `peers` are the entries taken so far, in order; the others are in `left`. */
  predicate Sorting(m: Book, peers: seq<TrustedPeer>, left: set<PeerId>) {
    && left <= m.Keys && Ascending(peers)
    && (forall i | 0 <= i < |peers| :: peers[i].peerId in m && m[peers[i].peerId] == peers[i])
    && (forall q | q in m :: q in left <==> m[q] !in peers)
    && (forall i, q | 0 <= i < |peers| && q in left :: Lex(SortKey(peers[i].peerId), SortKey(q)))
  }

  lemma Push(m: Book, peers: seq<TrustedPeer>, left: set<PeerId>, q: PeerId)
    requires Sorting(m, peers, left) && q in left && forall r | r in left :: Lex(SortKey(q), SortKey(r))
    ensures Sorting(m, peers + [m[q]], left - {q})
  {
    var r := peers + [m[q]];
    forall i, j | 0 <= i < j < |r| ensures Lex(SortKey(r[i].peerId), SortKey(r[j].peerId)) && r[i].peerId != r[j].peerId {
      assert peers[i] in peers;
    }
  }

  lemma Sorted(m: Book, peers: seq<TrustedPeer>)
    requires Sorting(m, peers, {})
    ensures peers == Save(m)
  {
    assert IsSave(m, peers);
    SaveUnique(m, peers, Save(m));
  }

  /** Sort the entries by the hex form of their ids. */
  method SortedPeers(m: Book) returns (peers: seq<TrustedPeer>)
    ensures peers == Save(m)
  {
    peers := [];
    var left := m.Keys;
    while left != {}
      invariant Sorting(m, peers, left)
      decreases |left|
    {
      ghost var least := LeastExists(left, SortKey);
      var q :| q in left && forall r | r in left :: Lex(SortKey(q), SortKey(r));
      Push(m, peers, left, q);
      peers, left := peers + [m[q]], left - {q};
    }
    Sorted(m, peers);
  }

  class Store {
    const disk: Disk
    var book: Book

    constructor (d: Disk)
      ensures disk == d && book == map[]
    {
      disk := d;
      book := map[];
    }

    /** `locked_mutate`: on success the file is the operation applied to the
        valid entries of the old file and equals the map; otherwise the file is untouched. */
    method LockedMutate(fp: Fp, op: Op, io: Io) returns (error: Option<StoreError>)
      modifies this, disk
      ensures error.None? <==>
                && io.lock && io.read && io.write
                && Load(fp, old(disk.file)).Some? && Mutate(op, Load(fp, old(disk.file)).value).Ok?
      ensures error.None? ==>
                && disk.file == Applied(fp, old(disk.file), op) && disk.file == Whole(Save(book))
                && Ok(book) == Mutate(op, Load(fp, old(disk.file)).value)
      ensures error.Some? ==> disk.file == old(disk.file)
      ensures error.Some? ==>
                error.value == if !io.lock || !io.read then StoreError.Io
                               else if Load(fp, old(disk.file)).None? then Parse
                               else if op.Revoke? && op.q !in Load(fp, old(disk.file)).value then NotFound(op.q)
                               else StoreError.Io
      ensures error.Some? && error.value.NotFound? ==> Some(book) == Load(fp, disk.file)
    {
      if !io.lock { return Some(StoreError.Io); }
      if !io.read { return Some(StoreError.Io); }
      match disk.file {
        case Garbage => return Some(Parse);
        case Torn => return Some(Parse);
        case Absent => book := map[];
        case Whole(peers) => book := LoadLoop(fp, peers);
      }
      match Mutate(op, book)
      case Err(e) => return Some(e);
      case Ok(m) =>
        book := m;
        if !io.write { return Some(StoreError.Io); }
        var peers := SortedPeers(book);
        disk.file := Whole(peers);
        return None;
    }
  }
}
