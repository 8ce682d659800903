/** The scheduler's request and response envelopes (crates/entangle-scheduler/src/wire.rs). */
module Wire {
  import opened Common
  import opened Postcard
  import Utf8

  const WIRE_VERSION: u16 := 1

  /** 16 MiB, the default ceiling on a task's input and output. */
  const MAX_PAYLOAD: int := 16 * 1024 * 1024

  /** The transport's hard cap on one frame (crates/entangle-mesh-iroh/src/lib.rs). */
  const MAX_FRAME_BYTES: int := MAX_PAYLOAD + 64 * 1024

  // ── Envelopes ──────────────────────────────────────────────────────────────

  datatype Request = Request(
    v: u16,
    taskId: Id16,
    plugin: Chars,
    input: Blob,
    timeoutMs: u64,
    maxInput: u64,
    maxOutput: u64)

  datatype ErrorCode =
    | NotAuthorized
    | UnsupportedVersionCode
    | MalformedRequest
    | PluginNotLoaded
    | InputTooLargeCode
    | OutputTooLargeCode
    | Execution
    | Internal

  datatype Outcome = Output(output: Blob) | Failure(code: ErrorCode, message: Chars)

  datatype Response = Response(v: u16, outcome: Outcome)

  datatype WireError =
    | UnsupportedVersion(got: u16)
    | Malformed
    | FrameTooLarge(size: nat)
    | InputTooLarge(declared: u64, actual: nat)
    | OutputTooLarge(declared: u64, actual: nat)

  // ── Layout ─────────────────────────────────────────────────────────────────

  type Fields = (u16, (Id16, (Chars, (Blob, (u64, (u64, u64))))))

  function FieldsCodec(): Codec<Fields> {
    Pair(U16Codec(), Pair(IdCodec(), Pair(CharsCodec(), Pair(BlobCodec(), Pair(U64Codec(), Pair(U64Codec(), U64Codec()))))))
  }

  lemma FieldsLawful()
    ensures Lawful(FieldsCodec())
  {
    U16Lawful();
    IdLawful();
    CharsLawful();
    BlobLawful();
    U64Lawful();
    PairLawful(U64Codec(), U64Codec());
    PairLawful(U64Codec(), Pair(U64Codec(), U64Codec()));
    PairLawful(BlobCodec(), Pair(U64Codec(), Pair(U64Codec(), U64Codec())));
    PairLawful(CharsCodec(), Pair(BlobCodec(), Pair(U64Codec(), Pair(U64Codec(), U64Codec()))));
    PairLawful(IdCodec(), Pair(CharsCodec(), Pair(BlobCodec(), Pair(U64Codec(), Pair(U64Codec(), U64Codec())))));
    PairLawful(U16Codec(), Pair(IdCodec(), Pair(CharsCodec(), Pair(BlobCodec(), Pair(U64Codec(), Pair(U64Codec(), U64Codec()))))));
  }

  function FieldsOf(r: Request): Fields {
    (r.v, (r.taskId, (r.plugin, (r.input, (r.timeoutMs, (r.maxInput, r.maxOutput))))))
  }

  function FromFields(f: Fields): Request {
    Request(f.0, f.1.0, f.1.1.0, f.1.1.1.0, f.1.1.1.1.0, f.1.1.1.1.1.0, f.1.1.1.1.1.1)
  }

  function TakeRequest(b: Bytes): Option<(Request, Bytes)> {
    match FieldsCodec().take(b)
    case None => None
    case Some(r) => Some((FromFields(r.0), r.1))
  }

  function RequestCodec(): Codec<Request> { Codec((r: Request) => FieldsCodec().put(FieldsOf(r)), TakeRequest) }

  lemma RequestLawful()
    ensures Lawful(RequestCodec())
  {
    FieldsLawful();
    forall r: Request, tail ensures ReadsBack(RequestCodec(), r, tail) {
      assert ReadsBack(FieldsCodec(), FieldsOf(r), tail);
    }
    forall b, tail ensures ReadsOn(RequestCodec(), b, tail) { assert ReadsOn(FieldsCodec(), b, tail); }
  }

  function CodeIndex(c: ErrorCode): (i: u32)
    ensures i < 8
  {
    match c
    case NotAuthorized => 0
    case UnsupportedVersionCode => 1
    case MalformedRequest => 2
    case PluginNotLoaded => 3
    case InputTooLargeCode => 4
    case OutputTooLargeCode => 5
    case Execution => 6
    case Internal => 7
  }

  function CodeAt(i: u32): Option<ErrorCode> {
    match i
    case 0 => Some(NotAuthorized)
    case 1 => Some(UnsupportedVersionCode)
    case 2 => Some(MalformedRequest)
    case 3 => Some(PluginNotLoaded)
    case 4 => Some(InputTooLargeCode)
    case 5 => Some(OutputTooLargeCode)
    case 6 => Some(Execution)
    case 7 => Some(Internal)
    case _ => None
  }

  function PutOutcome(o: Outcome): Bytes {
    match o
    case Output(output) => PutVarint(0) + PutBlob(output)
    case Failure(code, message) => PutVarint(1) + (PutVarint(CodeIndex(code)) + PutChars(message))
  }

  function TakeOutput(b: Bytes): Option<(Outcome, Bytes)> {
    match TakeBlob(b)
    case None => None
    case Some(r) => Some((Output(r.0), r.1))
  }

  function TakeFailure(b: Bytes): Option<(Outcome, Bytes)> {
    match TakeU32(b)
    case None => None
    case Some(i) =>
      match CodeAt(i.0)
      case None => None
      case Some(code) =>
        match TakeChars(i.1)
        case None => None
        case Some(m) => Some((Failure(code, m.0), m.1))
  }

  function TakeOutcome(b: Bytes): Option<(Outcome, Bytes)> {
    match TakeU32(b)
    case None => None
    case Some(d) => if d.0 == 0 then TakeOutput(d.1) else if d.0 == 1 then TakeFailure(d.1) else None
  }

  function OutcomeCodec(): Codec<Outcome> { Codec(PutOutcome, TakeOutcome) }

  lemma OutcomeBack(o: Outcome, tail: Bytes)
    ensures TakeOutcome(PutOutcome(o) + tail) == Some((o, tail))
  {
    U32Lawful();
    match o
    case Output(output) =>
      assert PutOutcome(o) + tail == PutVarint(0) + (PutBlob(output) + tail);
      assert ReadsBack(U32Codec(), 0, PutBlob(output) + tail);
      BlobBack(output, tail);
    case Failure(code, message) =>
      var i := CodeIndex(code);
      var rest := PutVarint(i) + (PutChars(message) + tail);
      assert PutOutcome(o) + tail == PutVarint(1) + rest;
      assert ReadsBack(U32Codec(), 1, rest) && ReadsBack(U32Codec(), i, PutChars(message) + tail);
      CharsLawful();
      assert ReadsBack(CharsCodec(), message, tail);
  }

  lemma OutcomeOn(b: Bytes, tail: Bytes)
    ensures ReadsOn(OutcomeCodec(), b, tail)
  {
    U32Lawful();
    assert ReadsOn(U32Codec(), b, tail);
    if TakeU32(b).Some? {
      var rest := TakeU32(b).value.1;
      BlobLawful();
      CharsLawful();
      assert ReadsOn(BlobCodec(), rest, tail) && ReadsOn(U32Codec(), rest, tail);
      if TakeU32(rest).Some? { assert ReadsOn(CharsCodec(), TakeU32(rest).value.1, tail); }
    }
  }

  function Answer(o: (u16, Outcome)): Response { Response(o.0, o.1) }

  function TakeResponse(b: Bytes): Option<(Response, Bytes)> {
    match TakePair(U16Codec(), OutcomeCodec(), b)
    case None => None
    case Some(r) => Some((Answer(r.0), r.1))
  }

  function PutResponse(r: Response): Bytes { PutVarint(r.v) + PutOutcome(r.outcome) }

  function ResponseCodec(): Codec<Response> { Codec(PutResponse, TakeResponse) }

  lemma ResponseLawful()
    ensures Lawful(ResponseCodec())
  {
    forall o, tail ensures ReadsBack(OutcomeCodec(), o, tail) { OutcomeBack(o, tail); }
    forall b, tail ensures ReadsOn(OutcomeCodec(), b, tail) { OutcomeOn(b, tail); }
    U16Lawful();
    PairLawful(U16Codec(), OutcomeCodec());
    var pair := Pair(U16Codec(), OutcomeCodec());
    forall r: Response, tail ensures ReadsBack(ResponseCodec(), r, tail) {
      assert ReadsBack(pair, (r.v, r.outcome), tail);
    }
    forall b, tail ensures ReadsOn(ResponseCodec(), b, tail) { assert ReadsOn(pair, b, tail); }
  }

  // ── Encode and decode ──────────────────────────────────────────────────────

  function Encode<T>(c: Codec<T>, x: T): Result<Bytes, WireError> {
    var b := c.put(x);
    if |b| > MAX_FRAME_BYTES then Err(FrameTooLarge(|b|)) else Ok(b)
  }

  /** Cap, then version, then structure with nothing left over. */
  function Decode<T>(c: Codec<T>, b: Bytes): Result<T, WireError> {
    if |b| > MAX_FRAME_BYTES then Err(FrameTooLarge(|b|))
    else
      match TakeU16(b)
      case None => Err(Malformed)
      case Some(v) =>
        if v.0 != WIRE_VERSION then Err(UnsupportedVersion(v.0))
        else
          match c.take(b)
          case None => Err(Malformed)
          case Some(r) => if r.1 != [] then Err(Malformed) else Ok(r.0)
  }

  function EncodeRequest(r: Request): Result<Bytes, WireError> { Encode(RequestCodec(), r) }

  function EncodeResponse(r: Response): Result<Bytes, WireError> { Encode(ResponseCodec(), r) }

  function DecodeRequest(b: Bytes): Result<Request, WireError> {
    match Decode(RequestCodec(), b)
    case Err(e) => Err(e)
    case Ok(r) => if |r.input| > r.maxInput then Err(InputTooLarge(r.maxInput, |r.input|)) else Ok(r)
  }

  function DecodeResponse(b: Bytes, maxOutput: u64): Result<Response, WireError> {
    match Decode(ResponseCodec(), b)
    case Err(e) => Err(e)
    case Ok(r) =>
      if r.outcome.Output? && |r.outcome.output| > maxOutput then Err(OutputTooLarge(maxOutput, |r.outcome.output|))
      else Ok(r)
  }

  // ── Theorems ───────────────────────────────────────────────────────────────

  /** A frame that starts with the printed version `v` is read as version `v`. */
  lemma VersionLeads(v: u16, tail: Bytes)
    ensures TakeU16(PutVarint(v) + tail) == Some((v, tail))
  {
    U16Lawful();
    assert ReadsBack(U16Codec(), v, tail);
  }

  /** Decoding inverts encoding; the one check on top is the request's own input limit. */
  lemma RequestRoundTrip(r: Request)
    requires r.v == WIRE_VERSION && EncodeRequest(r).Ok?
    ensures DecodeRequest(EncodeRequest(r).value)
         == if |r.input| > r.maxInput then Err(InputTooLarge(r.maxInput, |r.input|)) else Ok(r)
  {
    RequestLawful();
    var b := EncodeRequest(r).value;
    assert ReadsBack(RequestCodec(), r, []);
    assert b + [] == b;
    VersionLeads(r.v, Pair(IdCodec(), Pair(CharsCodec(), Pair(BlobCodec(), Pair(U64Codec(), Pair(U64Codec(), U64Codec()))))).put(FieldsOf(r).1));
  }

  lemma ResponseRoundTrip(r: Response, maxOutput: u64)
    requires r.v == WIRE_VERSION && EncodeResponse(r).Ok?
    ensures DecodeResponse(EncodeResponse(r).value, maxOutput)
         == if r.outcome.Output? && |r.outcome.output| > maxOutput
            then Err(OutputTooLarge(maxOutput, |r.outcome.output|)) else Ok(r)
  {
    ResponseLawful();
    var b := EncodeResponse(r).value;
    assert ReadsBack(ResponseCodec(), r, []);
    assert b + [] == b;
    VersionLeads(r.v, PutOutcome(r.outcome));
  }

  /** Accepted envelopes form a prefix-free code: no accepted frame continues
      another, so every truncation of an accepted frame is refused. */
  lemma PrefixFree<T(!new)>(c: Codec<T>, b: Bytes, tail: Bytes)
    requires Lawful(c) && Decode(c, b).Ok? && Decode(c, b + tail).Ok?
    ensures tail == []
  {
    assert ReadsOn(c, b, tail);
    assert [] + tail == tail;
  }

  lemma TruncationRefused(b: Bytes, n: nat, maxOutput: u64)
    requires n < |b|
    ensures DecodeRequest(b).Ok? ==> DecodeRequest(b[..n]).Err?
    ensures DecodeResponse(b, maxOutput).Ok? ==> DecodeResponse(b[..n], maxOutput).Err?
  {
    assert b[..n] + b[n..] == b;
    RequestLawful();
    ResponseLawful();
    if DecodeRequest(b).Ok? && DecodeRequest(b[..n]).Ok? { PrefixFree(RequestCodec(), b[..n], b[n..]); }
    if DecodeResponse(b, maxOutput).Ok? && DecodeResponse(b[..n], maxOutput).Ok? { PrefixFree(ResponseCodec(), b[..n], b[n..]); }
  }

  /** Once the leading varint of a frame reads as another version, that version
      is reported whatever bytes follow, up to the cap. */
  lemma OtherVersionReported(b: Bytes, tail: Bytes, maxOutput: u64)
    requires TakeU16(b).Some? && TakeU16(b).value.0 != WIRE_VERSION && |b + tail| <= MAX_FRAME_BYTES
    ensures DecodeRequest(b + tail) == Err(UnsupportedVersion(TakeU16(b).value.0))
    ensures DecodeResponse(b + tail, maxOutput) == Err(UnsupportedVersion(TakeU16(b).value.0))
  {
    U16Lawful();
    assert ReadsOn(U16Codec(), b, tail);
  }

  /** Every output within the payload ceiling fits one response frame. */
  lemma CappedOutputFits(output: Blob)
    requires |output| <= MAX_PAYLOAD
    ensures EncodeResponse(Response(WIRE_VERSION, Output(output))).Ok?
  {
    Spans();
    VarintBack(|output|, 10, 1, []);
    VarintBack(WIRE_VERSION, 3, 3, []);
  }

  lemma SmallVarint(v: nat)
    requires v < 128
    ensures PutVarint(v) == [v]
  {
  }

  /** The bytes of an answer: version 1, then tag 0 and the output, or tag 1, the
      error's number in the order of the enumeration, and the message. */
  lemma ResponseLayout(o: Outcome)
    ensures PutResponse(Response(1, o))
         == match o
            case Output(output) => [1, 0] + (PutVarint(|output|) + output)
            case Failure(code, message) =>
              var n: byte := match code
                case NotAuthorized => 0
                case UnsupportedVersionCode => 1
                case MalformedRequest => 2
                case PluginNotLoaded => 3
                case InputTooLargeCode => 4
                case OutputTooLargeCode => 5
                case Execution => 6
                case Internal => 7;
              [1, 1, n] + (PutVarint(|Utf8.Encode(message)|) + Utf8.Encode(message))
  {
    SmallVarint(0);
    SmallVarint(1);
    if o.Failure? { SmallVarint(CodeIndex(o.code)); }
  }

  lemma PairPut<A, B>(c: Codec<A>, d: Codec<B>, x: (A, B))
    ensures Pair(c, d).put(x) == c.put(x.0) + d.put(x.1)
  {
  }

  function NumbersCodec(): Codec<(u64, (u64, u64))> { Pair(U64Codec(), Pair(U64Codec(), U64Codec())) }

  lemma NumbersLayout(x: (u64, (u64, u64)))
    ensures NumbersCodec().put(x) == PutVarint(x.0) + (PutVarint(x.1.0) + PutVarint(x.1.1))
  {
    PairPut(U64Codec(), U64Codec(), x.1);
    PairPut(U64Codec(), Pair(U64Codec(), U64Codec()), x);
  }

  lemma BodyLayout(plugin: Chars, input: Blob, x: (u64, (u64, u64)))
    ensures Pair(CharsCodec(), Pair(BlobCodec(), NumbersCodec())).put((plugin, (input, x)))
         == PutChars(plugin) + (PutBlob(input) + NumbersCodec().put(x))
  {
    PairPut(BlobCodec(), NumbersCodec(), (input, x));
    PairPut(CharsCodec(), Pair(BlobCodec(), NumbersCodec()), (plugin, (input, x)));
  }

  lemma FieldsLayout(f: Fields)
    ensures FieldsCodec().put(f) == PutVarint(f.0) + (f.1.0 + Pair(CharsCodec(), Pair(BlobCodec(), NumbersCodec())).put(f.1.1))
  {
    var body := Pair(CharsCodec(), Pair(BlobCodec(), NumbersCodec()));
    PairPut(IdCodec(), body, f.1);
    PairPut(U16Codec(), Pair(IdCodec(), body), f);
  }

  /** The bytes of a request, field by field; strings and byte vectors carry their length. */
  lemma RequestLayout(r: Request)
    ensures RequestCodec().put(r)
         == PutVarint(r.v) + (r.taskId + (PutVarint(|Utf8.Encode(r.plugin)|) + Utf8.Encode(r.plugin)
            + (PutVarint(|r.input|) + r.input
            + (PutVarint(r.timeoutMs) + (PutVarint(r.maxInput) + PutVarint(r.maxOutput))))))
  {
    FieldsLayout(FieldsOf(r));
    BodyLayout(r.plugin, r.input, (r.timeoutMs, (r.maxInput, r.maxOutput)));
    NumbersLayout((r.timeoutMs, (r.maxInput, r.maxOutput)));
  }

  /** Frames over 16 MiB and 64 KiB are neither sent nor looked at. */
  lemma OversizeRefused(r: Request, a: Response, b: Bytes, maxOutput: u64)
    ensures |b| > 16_842_752 ==> DecodeRequest(b) == Err(FrameTooLarge(|b|)) && DecodeResponse(b, maxOutput) == Err(FrameTooLarge(|b|))
    ensures EncodeRequest(r) == (var e := RequestCodec().put(r); if |e| > 16_842_752 then Err(FrameTooLarge(|e|)) else Ok(e))
    ensures EncodeResponse(a) == (var e := PutResponse(a); if |e| > 16_842_752 then Err(FrameTooLarge(|e|)) else Ok(e))
  {
  }
}
