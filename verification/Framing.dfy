/** Length-prefixed frames on a byte stream (crates/entangle-mesh-iroh/src/framing.rs). */
module Framing {
  import opened Common

  const HEADER_BYTES: int := 4

  const READ_CHUNK_BYTES: int := 64 * 1024

  datatype FrameError = FrameTooLarge(declared: nat) | Protocol

  // ── Meaning ────────────────────────────────────────────────────────────────

  function ToBe32(n: u32): (b: Bytes)
    ensures |b| == HEADER_BYTES
  {
    var n1 := n / 256;
    var n2 := n1 / 256;
    var n3 := n2 / 256;
    [n3 % 256, n2 % 256, n1 % 256, n % 256]
  }

  function FromBe32(b: Bytes): (n: nat)
    requires |b| == HEADER_BYTES
    ensures n < U32_LIMIT
  {
    (b[0] as int) * 0x100_0000 + (b[1] as int) * 0x1_0000 + (b[2] as int) * 0x100 + (b[3] as int)
  }

  lemma Be32RoundTrip(n: u32)
    ensures FromBe32(ToBe32(n)) == n
  {
    var n1 := n / 256;
    var n2 := n1 / 256;
    var n3 := n2 / 256;
    assert n == n1 * 256 + n % 256 && n1 == n2 * 256 + n1 % 256 && n2 == n3 * 256 + n2 % 256;
    assert n3 < 256;
  }

  /** The bytes of one frame. */
  function Frame(payload: Bytes): Bytes
    requires |payload| < U32_LIMIT
  {
    ToBe32(|payload|) + payload
  }

  /** What reading one frame yields and what it leaves unread; a stream that
      ends early is read to its end. */
  datatype Parsed = Parsed(result: Result<Bytes, FrameError>, rest: Bytes)

  function Parse(stream: Bytes, max: nat): Parsed {
    if |stream| < HEADER_BYTES then Parsed(Err(Protocol), [])
    else
      var declared, body := FromBe32(stream[..HEADER_BYTES]), stream[HEADER_BYTES..];
      if declared > max then Parsed(Err(FrameTooLarge(declared)), body)
      else if |body| < declared then Parsed(Err(Protocol), [])
      else Parsed(Ok(body[..declared]), body[declared..])
  }

  // ── Streams ────────────────────────────────────────────────────────────────

  class Writer {
    var sent: Bytes

    constructor ()
      ensures sent == []
    {
      sent := [];
    }

    /** An oversize payload is refused without touching the stream. */
    method WriteFrame(payload: Bytes, max: nat) returns (r: Result<(), FrameError>)
      modifies this
      ensures r.Ok? <==> |payload| <= max && |payload| < U32_LIMIT
      ensures r.Ok? ==> sent == old(sent) + Frame(payload)
      ensures r.Err? ==> r.error == FrameTooLarge(|payload|) && sent == old(sent)
    {
      if |payload| > max { return Err(FrameTooLarge(|payload|)); }
      if |payload| >= U32_LIMIT { return Err(FrameTooLarge(|payload|)); }
      sent := sent + ToBe32(|payload|);
      sent := sent + payload;
      assert sent == old(sent) + Frame(payload);
      return Ok(());
    }
  }

  class Reader {
    var data: Bytes

    constructor (stream: Bytes)
      ensures data == stream
    {
      data := stream;
    }

    /** `read_exact` into the first `n` bytes of a buffer; false at the end of the stream. */
    method ReadExact(buf: array<byte>, n: nat) returns (ok: bool)
      requires n <= buf.Length
      modifies this, buf
      ensures ok <==> |old(data)| >= n
      ensures ok ==> buf[..n] == old(data)[..n] && data == old(data)[n..]
      ensures !ok ==> data == []
    {
      var have := if |data| < n then |data| else n;
      for i := 0 to have
        invariant data == old(data)
        invariant forall j | 0 <= j < i :: buf[j] == data[j]
      {
        buf[i] := data[i];
      }
      ok := have == n;
      data := data[have..];
    }

    /** The body is read in chunks of at most 64 KiB: what was delivered so far
        and what remains always add up to the declared length. */
    method ReadFrame(max: nat) returns (r: Result<Bytes, FrameError>)
      modifies this
      ensures Parsed(r, data) == Parse(old(data), max)
    {
      var header := new byte[HEADER_BYTES];
      var ok := ReadExact(header, HEADER_BYTES);
      if !ok { return Err(Protocol); }
      var declared := FromBe32(header[..]);
      assert header[..] == old(data)[..HEADER_BYTES];
      if declared > max { return Err(FrameTooLarge(declared)); }
      ghost var body := data;
      var out: Bytes := [];
      var scratch := new byte[READ_CHUNK_BYTES](_ => 0);
      var remaining: nat := declared;
      while remaining > 0
        invariant |out| + remaining == declared
        invariant |out| <= |body| && out == body[..|out|] && data == body[|out|..]
        invariant fresh(scratch) && scratch.Length == READ_CHUNK_BYTES
        decreases remaining
      {
        var want := if remaining < READ_CHUNK_BYTES then remaining else READ_CHUNK_BYTES;
        ok := ReadExact(scratch, want);
        if !ok { return Err(Protocol); }
        assert scratch[..want] == body[|out|..|out| + want];
        out := out + scratch[..want];
        remaining := remaining - want;
      }
      return Ok(out);
    }
  }

  // ── Theorems ───────────────────────────────────────────────────────────────

  /** Reading what was written gives the payload back and leaves exactly what follows. */
  lemma FrameRoundTrip(payload: Bytes, rest: Bytes, max: nat)
    requires |payload| <= max && |payload| < U32_LIMIT
    ensures Parse(Frame(payload) + rest, max) == Parsed(Ok(payload), rest)
  {
    var stream := Frame(payload) + rest;
    Be32RoundTrip(|payload|);
    assert stream[..HEADER_BYTES] == ToBe32(|payload|);
    assert stream[HEADER_BYTES..] == payload + rest;
    assert (payload + rest)[..|payload|] == payload && (payload + rest)[|payload|..] == rest;
  }

  /** An over-cap header fails having consumed four bytes, whatever follows. */
  lemma OverCapStopsAtHeader(n: u32, rest: Bytes, max: nat)
    requires n > max
    ensures Parse(ToBe32(n) + rest, max) == Parsed(Err(FrameTooLarge(n)), rest)
  {
    var stream := ToBe32(n) + rest;
    Be32RoundTrip(n);
    assert stream[..HEADER_BYTES] == ToBe32(n) && stream[HEADER_BYTES..] == rest;
  }

  /** Every strict prefix of a frame is a protocol error. */
  lemma StrictPrefixRefused(payload: Bytes, n: nat, max: nat)
    requires |payload| <= max && |payload| < U32_LIMIT && n < |Frame(payload)|
    ensures Parse(Frame(payload)[..n], max) == Parsed(Err(Protocol), [])
  {
    var f := Frame(payload);
    if n >= HEADER_BYTES {
      assert f[..n][..HEADER_BYTES] == ToBe32(|payload|);
      Be32RoundTrip(|payload|);
    }
  }

  function Frames(payloads: seq<Bytes>): Bytes
    requires forall i | 0 <= i < |payloads| :: |payloads[i]| < U32_LIMIT
  {
    if payloads == [] then [] else Frame(payloads[0]) + Frames(payloads[1..])
  }

  /** Read `n` frames one after the other. */
  function ParseMany(stream: Bytes, n: nat, max: nat): Result<(seq<Bytes>, Bytes), FrameError> {
    if n == 0 then Ok(([], stream))
    else
      match Parse(stream, max).result
      case Err(e) => Err(e)
      case Ok(first) =>
        match ParseMany(Parse(stream, max).rest, n - 1, max)
        case Err(e) => Err(e)
        case Ok(more) => Ok(([first] + more.0, more.1))
  }

  lemma {:induction false} ParseManyCons(stream: Bytes, n: nat, max: nat, first: Bytes, rest: Bytes, more: seq<Bytes>, tail: Bytes)
    requires Parse(stream, max) == Parsed(Ok(first), rest) && ParseMany(rest, n, max) == Ok((more, tail))
    ensures ParseMany(stream, n + 1, max) == Ok(([first] + more, tail))
  {
  }

  lemma {:induction false} FramesCons(payloads: seq<Bytes>, rest: Bytes)
    requires payloads != [] && forall i | 0 <= i < |payloads| :: |payloads[i]| < U32_LIMIT
    ensures Frames(payloads) + rest == Frame(payloads[0]) + (Frames(payloads[1..]) + rest)
  {
  }

  lemma {:induction false} StreamCons(first: Bytes, more: seq<Bytes>, stream: Bytes, rest: Bytes, max: nat)
    requires |first| < U32_LIMIT && |first| <= max && ParseMany(stream, |more|, max) == Ok((more, rest))
    ensures ParseMany(Frame(first) + stream, |more| + 1, max) == Ok(([first] + more, rest))
  {
    FrameRoundTrip(first, stream, max);
    ParseManyCons(Frame(first) + stream, |more|, max, first, stream, more, rest);
  }

  /** Every payload fits a frame and the reader's cap. */
  predicate AllFit(payloads: seq<Bytes>, max: nat) { forall i | 0 <= i < |payloads| :: |payloads[i]| < U32_LIMIT && |payloads[i]| <= max }

  lemma FitCons(first: Bytes, more: seq<Bytes>, max: nat)
    requires AllFit([first] + more, max)
    ensures AllFit(more, max) && |first| < U32_LIMIT && |first| <= max
  {
    assert ([first] + more)[0] == first;
    assert forall i | 0 <= i < |more| :: more[i] == ([first] + more)[i + 1];
  }

  /** A stream of any number of frames is cut at exactly the frame boundaries. */
  lemma {:induction false} StreamRoundTrip(payloads: seq<Bytes>, rest: Bytes, max: nat)
    requires AllFit(payloads, max)
    ensures ParseMany(Frames(payloads) + rest, |payloads|, max) == Ok((payloads, rest))
  {
    if payloads == [] {
      assert Frames(payloads) + rest == rest;
    } else {
      var first, more := payloads[0], payloads[1..];
      assert payloads == [first] + more;
      FitCons(first, more, max);
      StreamRoundTrip(more, rest, max);
      StreamCons(first, more, Frames(more) + rest, rest, max);
      FramesCons(payloads, rest);
    }
  }

  /** A frame on the wire: the payload's length in four bytes, most significant first, then the payload. */
  lemma FrameLayout(payload: Bytes)
    requires |payload| < U32_LIMIT
    ensures var f := Frame(payload);
            && |f| == 4 + |payload| && f[4..] == payload
            && |payload| == 16777216 * f[0] as int + 65536 * f[1] as int + 256 * f[2] as int + f[3] as int
  {
    Be32RoundTrip(|payload|);
  }
}
