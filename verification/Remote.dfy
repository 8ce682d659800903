/** Cross-node dispatch of one task: client, server and the link between them
    (crates/entangle-scheduler/src/remote.rs over crates/entangle-mesh-iroh/src/framing.rs). */
module Remote {
  import opened Common
  import opened Postcard
  import opened Wire
  import opened Framing
  import Identity
  import PluginIds
  import Utf8

  type PluginId = PluginIds.PluginId

  type PeerId = Identity.PeerId

  datatype Task = Task(id: Id16, plugin: PluginId, input: Blob, maxInput: u64, maxOutput: u64, timeoutMs: u64)

  /** What running a plugin can come to. */
  datatype RunError = NotLoaded | RunFailed(text: Chars)

  /** The server's kernel: the outcome of one run of a plugin on an input within a timeout. */
  type Kernel = (PluginId, Bytes, u64) -> Result<Blob, RunError>

  /** Why a request is turned down; `Say` words it. */
  datatype Refusal =
    | NotTrusted
    | BadEnvelope(e: WireError)
    | OverInput(size: nat)
    | BadPlugin(text: Chars)
    | OverOutput(size: nat)
    | NotLoadedHere(plugin: PluginId)

  type Say = Refusal -> Chars

  // ── Server ─────────────────────────────────────────────────────────────────

  const MAX_REMOTE_TASK_TIMEOUT_MS: u64 := 5 * 60 * 1_000

  /** `tooLargeText` is what the server says when its answer does not fit a frame. */
  datatype Server = Server(trusted: set<PeerId>, maxTimeoutMs: u64, maxInput: u64, maxOutput: u64, tooLargeText: Chars)

  /** The ceilings no configuration can raise. */
  predicate WithinCeilings(s: Server) {
    && s.maxTimeoutMs <= MAX_REMOTE_TASK_TIMEOUT_MS && s.maxInput <= MAX_PAYLOAD && s.maxOutput <= MAX_PAYLOAD
    && |Utf8.Encode(s.tooLargeText)| <= MAX_PAYLOAD
  }

  const TOO_LARGE_TEXT: string := "response too large to transmit as a single frame"

  lemma {:induction false} EncodeBound(s: string)
    ensures |Utf8.Encode(s)| <= 4 * |s|
  {
    if s != [] { EncodeBound(s[1..]); }
  }

  /** The default is the most permissive server within the ceilings. */
  function NewServer(trusted: set<PeerId>): (s: Server)
    ensures WithinCeilings(s) && s.trusted == trusted
    ensures forall o | WithinCeilings(o) ::
              o.maxTimeoutMs <= s.maxTimeoutMs && o.maxInput <= s.maxInput && o.maxOutput <= s.maxOutput
  {
    EncodeBound(TOO_LARGE_TEXT);
    Server(trusted, MAX_REMOTE_TASK_TIMEOUT_MS, MAX_PAYLOAD, MAX_PAYLOAD, TOO_LARGE_TEXT)
  }

  /** Configuration lowers the timeout ceiling to what was asked for and never raises it. */
  function WithMaxTimeout(s: Server, ms: u64): (r: Server)
    ensures WithinCeilings(s) ==> WithinCeilings(r)
    ensures r.maxTimeoutMs <= ms && (ms <= MAX_REMOTE_TASK_TIMEOUT_MS ==> r.maxTimeoutMs == ms)
    ensures r == s.(maxTimeoutMs := r.maxTimeoutMs)
  {
    s.(maxTimeoutMs := Min(ms, MAX_REMOTE_TASK_TIMEOUT_MS))
  }

  function WithMaxBytes(s: Server, input: u64, output: u64): (r: Server)
    ensures WithinCeilings(s) ==> WithinCeilings(r)
    ensures r.maxInput <= input && (input <= MAX_PAYLOAD ==> r.maxInput == input)
    ensures r.maxOutput <= output && (output <= MAX_PAYLOAD ==> r.maxOutput == output)
    ensures r == s.(maxInput := r.maxInput, maxOutput := r.maxOutput)
  {
    s.(maxInput := Min(input, MAX_PAYLOAD), maxOutput := Min(output, MAX_PAYLOAD))
  }

  /** Every server the builders make is within the ceilings. */
  lemma BuiltServers(trusted: set<PeerId>, ms: u64, input: u64, output: u64)
    ensures var s := WithMaxBytes(WithMaxTimeout(NewServer(trusted), ms), input, output);
            && WithinCeilings(s) && s.trusted == trusted
            && s.maxTimeoutMs == Min(ms, 300_000)
            && s.maxInput == Min(input, 16_777_216) && s.maxOutput == Min(output, 16_777_216)
  {
  }

  function EffectiveTimeout(s: Server, requested: u64): u64 {
    if requested < s.maxTimeoutMs then requested else s.maxTimeoutMs
  }

  function EffectiveOutputCap(s: Server, requested: u64): u64 {
    if requested < s.maxOutput then requested else s.maxOutput
  }

  function Refuse(code: ErrorCode, message: Chars): Response { Response(WIRE_VERSION, Failure(code, message)) }

  function EnvelopeCode(e: WireError): ErrorCode {
    match e
    case UnsupportedVersion(_) => UnsupportedVersionCode
    case InputTooLarge(_, _) => InputTooLargeCode
    case FrameTooLarge(_) => InputTooLargeCode
    case Malformed => MalformedRequest
    case OutputTooLarge(_, _) => MalformedRequest
  }

  /** The part of `respond` that runs a one-shot task once its plugin id has been parsed. */
  function Execute(s: Server, kernel: Kernel, say: Say, r: Request, parsed: Option<PluginId>): Response {
    if |r.input| > s.maxInput then Refuse(InputTooLargeCode, say(OverInput(|r.input|)))
    else
      match parsed
      case None => Refuse(MalformedRequest, say(BadPlugin(r.plugin)))
      case Some(plugin) =>
        match kernel(plugin, r.input, EffectiveTimeout(s, r.timeoutMs))
        case Ok(output) =>
          if |output| > EffectiveOutputCap(s, r.maxOutput) then Refuse(OutputTooLargeCode, say(OverOutput(|output|)))
          else Response(WIRE_VERSION, Output(output))
        case Err(NotLoaded) => Refuse(PluginNotLoaded, say(NotLoadedHere(plugin)))
        case Err(RunFailed(text)) => Refuse(Execution, text)
  }

  function ParsedPlugin(text: string): Option<PluginId> {
    match PluginIds.Parse(text)
    case Ok(id) => Some(id)
    case Err(_) => None
  }

  /** `respond`: authorization before decoding. */
  function Respond(s: Server, kernel: Kernel, say: Say, from: PeerId, payload: Bytes): Response {
    if from !in s.trusted then Refuse(NotAuthorized, say(NotTrusted))
    else
      match DecodeRequest(payload)
      case Err(e) => Refuse(EnvelopeCode(e), say(BadEnvelope(e)))
      case Ok(r) => Execute(s, kernel, say, r, ParsedPlugin(r.plugin))
  }

  function Fallback(s: Server): Response { Refuse(OutputTooLargeCode, s.tooLargeText) }

  /** `handle`'s encoding of the answer, with an answer that fits instead of one that does not. */
  function Transmit(s: Server, r: Response): Bytes {
    match EncodeResponse(r)
    case Ok(b) => b
    case Err(_) =>
      match EncodeResponse(Fallback(s))
      case Ok(b) => b
      case Err(_) => []
  }

  function Handle(s: Server, kernel: Kernel, say: Say, from: PeerId, payload: Bytes): Bytes {
    Transmit(s, Respond(s, kernel, say, from, payload))
  }

  /** What the server refuses, and how: strangers before anything is decoded,
      then what does not decode, a longer input than it takes, and a plugin that is no id. */
  lemma RequestRefused(s: Server, kernel: Kernel, say: Say, from: PeerId, payload: Bytes)
    ensures from !in s.trusted ==> Respond(s, kernel, say, from, payload) == Response(1, Failure(NotAuthorized, say(NotTrusted)))
    ensures from in s.trusted && DecodeRequest(payload).Err? ==>
              var e := DecodeRequest(payload).error;
              var code := match e
                          case UnsupportedVersion(_) => UnsupportedVersionCode
                          case FrameTooLarge(_) => InputTooLargeCode
                          case InputTooLarge(_, _) => InputTooLargeCode
                          case _ => MalformedRequest;
              Respond(s, kernel, say, from, payload) == Response(1, Failure(code, say(BadEnvelope(e))))
    ensures from in s.trusted && DecodeRequest(payload).Ok? ==>
              var r := DecodeRequest(payload).value;
              && (|r.input| > s.maxInput ==>
                    Respond(s, kernel, say, from, payload) == Response(1, Failure(InputTooLargeCode, say(OverInput(|r.input|)))))
              && (|r.input| <= s.maxInput && PluginIds.Parse(r.plugin).Err? ==>
                    Respond(s, kernel, say, from, payload) == Response(1, Failure(MalformedRequest, say(BadPlugin(r.plugin)))))
  {
  }

  // ── Client ─────────────────────────────────────────────────────────────────

  datatype DispatchError =
    | NoAddress
    | RequestNotEncodable(e: WireError)
    | TransportFailed
    | BadResponse(error: WireError)
    | OutputSizeExceeded(declared: u64, actual: nat)
    | RemoteRejected(code: ErrorCode, message: Chars)

  /** Every Rust string is shorter than 2^64 bytes. */
  predicate Addressable(t: Task) { PluginIds.ValidId(t.plugin) && |Utf8.Encode(PluginIds.Show(t.plugin))| < U64_LIMIT }

  function RequestFor(t: Task): Request
    requires Addressable(t)
  {
    Request(WIRE_VERSION, t.id, PluginIds.Show(t.plugin), t.input, t.timeoutMs, t.maxInput, t.maxOutput)
  }

  /** What the client makes of the bytes it received. */
  function Receive(raw: Bytes, maxOutput: u64): Result<Bytes, DispatchError> {
    match DecodeResponse(raw, maxOutput)
    case Err(OutputTooLarge(declared, actual)) => Err(OutputSizeExceeded(declared, actual))
    case Err(e) => Err(BadResponse(e))
    case Ok(r) =>
      match r.outcome
      case Output(output) => Ok(output)
      case Failure(code, message) => Err(RemoteRejected(code, message))
  }

  /** `RemoteDispatch::dispatch`; `link` answers `None` on transport failure or timeout. */
  function Dispatch(known: bool, t: Task, link: Bytes -> Option<Bytes>): Result<Bytes, DispatchError>
    requires Addressable(t)
  {
    if !known then Err(NoAddress)
    else
      match EncodeRequest(RequestFor(t))
      case Err(e) => Err(RequestNotEncodable(e))
      case Ok(frame) =>
        match link(frame)
        case None => Err(TransportFailed)
        case Some(raw) => Receive(raw, t.maxOutput)
  }

  /** What the caller gets, whoever answers: an output exactly when the answer
      decodes within its limit to one; every other case has its own error. */
  lemma DispatchExactly(known: bool, t: Task, link: Bytes -> Option<Bytes>)
    requires Addressable(t)
    ensures var r, frame := Dispatch(known, t, link), EncodeRequest(RequestFor(t));
            if !known then r == Err(NoAddress)
            else if frame.Err? then r == Err(RequestNotEncodable(frame.error))
            else if link(frame.value).None? then r == Err(TransportFailed)
            else
              var answer := DecodeResponse(link(frame.value).value, t.maxOutput);
              && (r.Ok? <==> answer.Ok? && answer.value.outcome.Output?)
              && (r.Ok? ==> r.value == answer.value.outcome.output)
              && (r.Err? ==>
                    r.error == if answer.Ok? then RemoteRejected(answer.value.outcome.code, answer.value.outcome.message)
                               else if answer.error.OutputTooLarge? then OutputSizeExceeded(answer.error.declared, answer.error.actual)
                               else BadResponse(answer.error))
  {
  }

  // ── The link ───────────────────────────────────────────────────────────────

  /** One leg: written as a frame under the sender's cap, read under the receiver's. */
  function Leg(payload: Bytes, sendMax: nat, readMax: nat): Option<Bytes> {
    if |payload| > sendMax || |payload| >= U32_LIMIT then None
    else
      match Parse(Frame(payload), readMax).result
      case Ok(got) => Some(got)
      case Err(_) => None
  }

  /** Request there and answer back over the framed stream. */
  function RoundTrip(handler: Bytes -> Bytes, client: nat, server: nat, frame: Bytes): Option<Bytes> {
    match Leg(frame, client, server)
    case None => None
    case Some(got) => Leg(handler(got), server, client)
  }

  /** A leg delivers the payload exactly when both caps admit it. */
  lemma LegDelivers(payload: Bytes, sendMax: nat, readMax: nat)
    ensures Leg(payload, sendMax, readMax)
         == if |payload| <= sendMax && |payload| <= readMax && |payload| < U32_LIMIT then Some(payload) else None
  {
    if |payload| < U32_LIMIT {
      assert Frame(payload) + [] == Frame(payload);
      if |payload| <= readMax {
        FrameRoundTrip(payload, [], readMax);
      } else {
        OverCapStopsAtHeader(|payload|, payload, readMax);
      }
    }
  }

  // ── Reference: running a task at the peer, with no wire in between ───────

  /** What the peer answers to a task. */
  function Verdict(s: Server, kernel: Kernel, say: Say, from: PeerId, t: Task): Response {
    if from !in s.trusted then Refuse(NotAuthorized, say(NotTrusted))
    else if |t.input| > t.maxInput then Refuse(InputTooLargeCode, say(BadEnvelope(InputTooLarge(t.maxInput, |t.input|))))
    else if |t.input| > s.maxInput then Refuse(InputTooLargeCode, say(OverInput(|t.input|)))
    else
      match kernel(t.plugin, t.input, Min(t.timeoutMs, s.maxTimeoutMs))
      case Ok(output) =>
        if |output| > t.maxOutput || |output| > s.maxOutput then Refuse(OutputTooLargeCode, say(OverOutput(|output|)))
        else Response(WIRE_VERSION, Output(output))
      case Err(NotLoaded) => Refuse(PluginNotLoaded, say(NotLoadedHere(t.plugin)))
      case Err(RunFailed(text)) => Refuse(Execution, text)
  }

  /** The answer as the caller sees it: the output itself, or a structured rejection. */
  function Seen(r: Response): Result<Bytes, DispatchError> {
    match r.outcome
    case Output(output) => Ok(output)
    case Failure(code, message) => Err(RemoteRejected(code, message))
  }

  // ── Proof ──────────────────────────────────────────────────────────────────

  lemma VarintShort(v: u64)
    ensures |PutVarint(v)| <= 10
  {
    Spans();
    VarintBack(v, 10, 1, []);
  }

  lemma FailureFits(code: ErrorCode, message: Chars)
    requires |Utf8.Encode(message)| <= MAX_PAYLOAD
    ensures EncodeResponse(Refuse(code, message)).Ok?
  {
    VarintShort(|Utf8.Encode(message)|);
    VarintShort(WIRE_VERSION);
    VarintShort(1);
    VarintShort(CodeIndex(code));
    var r := Refuse(code, message);
    assert PutResponse(r) == PutVarint(WIRE_VERSION) + PutOutcome(r.outcome);
  }

  lemma ReceiveSent(r: Response, maxOutput: u64)
    requires r.v == WIRE_VERSION && EncodeResponse(r).Ok?
    requires r.outcome.Output? ==> |r.outcome.output| <= maxOutput
    ensures Receive(EncodeResponse(r).value, maxOutput) == Seen(r)
  {
    ResponseRoundTrip(r, maxOutput);
  }

  /** What the caller reads is the server's answer, or the fallback when that did not fit. */
  lemma AnswerArrives(s: Server, r: Response, maxOutput: u64)
    requires WithinCeilings(s) && r.v == WIRE_VERSION
    requires r.outcome.Output? ==> |r.outcome.output| <= MAX_PAYLOAD && |r.outcome.output| <= maxOutput
    ensures Receive(Transmit(s, r), maxOutput) == if EncodeResponse(r).Ok? then Seen(r) else Seen(Fallback(s))
    ensures r.outcome.Output? ==> EncodeResponse(r).Ok?
    ensures |Transmit(s, r)| <= MAX_FRAME_BYTES
  {
    if r.outcome.Output? { CappedOutputFits(r.outcome.output); }
    FailureFits(OutputTooLargeCode, s.tooLargeText);
    ReceiveSent(Fallback(s), maxOutput);
    if EncodeResponse(r).Ok? { ReceiveSent(r, maxOutput); }
  }

  lemma PluginSurvives(id: PluginId)
    requires PluginIds.ValidId(id)
    ensures ParsedPlugin(PluginIds.Show(id)) == Some(id)
  {
    PluginIds.ParseShow(id);
  }

  lemma ExecuteIsVerdict(s: Server, kernel: Kernel, say: Say, from: PeerId, t: Task, r: Request)
    requires from in s.trusted && |t.input| <= t.maxInput
    requires r.input == t.input && r.timeoutMs == t.timeoutMs && r.maxOutput == t.maxOutput
    ensures Execute(s, kernel, say, r, Some(t.plugin)) == Verdict(s, kernel, say, from, t)
  {
  }

  lemma RespondTo(s: Server, kernel: Kernel, say: Say, from: PeerId, payload: Bytes, r: Request, plugin: Option<PluginId>)
    requires from in s.trusted && DecodeRequest(payload) == Ok(r) && ParsedPlugin(r.plugin) == plugin
    ensures Respond(s, kernel, say, from, payload) == Execute(s, kernel, say, r, plugin)
  {
  }

  lemma RespondRefuses(s: Server, kernel: Kernel, say: Say, from: PeerId, payload: Bytes, e: WireError)
    requires from in s.trusted ==> DecodeRequest(payload) == Err(e)
    ensures Respond(s, kernel, say, from, payload)
         == if from in s.trusted then Refuse(EnvelopeCode(e), say(BadEnvelope(e))) else Refuse(NotAuthorized, say(NotTrusted))
  {
  }

  /** The server decodes an honest request to its very task. */
  lemma RespondIsVerdict(s: Server, kernel: Kernel, say: Say, from: PeerId, t: Task, frame: Bytes)
    requires Addressable(t) && EncodeRequest(RequestFor(t)) == Ok(frame)
    ensures Respond(s, kernel, say, from, frame) == Verdict(s, kernel, say, from, t)
  {
    var r := RequestFor(t);
    RequestRoundTrip(r);
    if from in s.trusted && |t.input| <= t.maxInput {
      PluginSurvives(t.plugin);
      RespondTo(s, kernel, say, from, frame, r, Some(t.plugin));
      ExecuteIsVerdict(s, kernel, say, from, t, r);
    } else {
      RespondRefuses(s, kernel, say, from, frame, InputTooLarge(t.maxInput, |t.input|));
    }
  }

  lemma DispatchReceives(t: Task, link: Bytes -> Option<Bytes>, frame: Bytes, raw: Bytes)
    requires Addressable(t) && EncodeRequest(RequestFor(t)) == Ok(frame) && link(frame) == Some(raw)
    ensures Dispatch(true, t, link) == Receive(raw, t.maxOutput)
  {
  }

  lemma VerdictWithinCaps(s: Server, kernel: Kernel, say: Say, from: PeerId, t: Task)
    requires WithinCeilings(s)
    ensures var v := Verdict(s, kernel, say, from, t);
            && v.v == WIRE_VERSION
            && (v.outcome.Output? ==> |v.outcome.output| <= MAX_PAYLOAD && |v.outcome.output| <= t.maxOutput)
  {
  }

  /** Lossless: whenever the request can be encoded at all, dispatching over the
      wire to an honest server gives exactly what running it there gives:
      the kernel's output byte for byte, or a structured rejection. */
  lemma DispatchIsVerdict(
    s: Server, kernel: Kernel, say: Say, from: PeerId, t: Task, link: Bytes -> Option<Bytes>, frame: Bytes)
    requires WithinCeilings(s) && Addressable(t) && EncodeRequest(RequestFor(t)) == Ok(frame)
    requires link(frame) == Some(Handle(s, kernel, say, from, frame))
    ensures var v := Verdict(s, kernel, say, from, t);
            Dispatch(true, t, link) == Seen(if EncodeResponse(v).Ok? then v else Fallback(s))
  {
    var v := Verdict(s, kernel, say, from, t);
    RespondIsVerdict(s, kernel, say, from, t, frame);
    VerdictWithinCaps(s, kernel, say, from, t);
    AnswerArrives(s, v, t.maxOutput);
    DispatchReceives(t, link, frame, Transmit(s, v));
  }

  /** The peer's kernel produced an output within both sides' limits. */
  predicate Produced(t: Task, from: PeerId, s: Server, ran: Result<Blob, RunError>) {
    && from in s.trusted && |t.input| <= t.maxInput && |t.input| <= s.maxInput
    && ran.Ok? && |ran.value| <= t.maxOutput && |ran.value| <= s.maxOutput
  }

  function RunAt(s: Server, kernel: Kernel, t: Task): Result<Blob, RunError> {
    kernel(t.plugin, t.input, Min(t.timeoutMs, s.maxTimeoutMs))
  }

  lemma VerdictOutput(s: Server, kernel: Kernel, say: Say, from: PeerId, t: Task)
    ensures Verdict(s, kernel, say, from, t).outcome.Output? <==> Produced(t, from, s, RunAt(s, kernel, t))
    ensures Verdict(s, kernel, say, from, t).outcome.Output? ==>
              Verdict(s, kernel, say, from, t).outcome.output == RunAt(s, kernel, t).value
  {
  }

  lemma SeenOr(v: Response, sent: Response)
    requires if v.outcome.Output? then sent == v else sent.outcome.Failure?
    ensures Seen(sent).Ok? <==> v.outcome.Output?
    ensures Seen(sent).Ok? ==> Seen(sent).value == v.outcome.output
    ensures Seen(sent).Err? ==> Seen(sent).error.RemoteRejected?
  {
  }

  /** So an honest server is never answered with a decode error or a size
      error, and an output arrives exactly when the peer's kernel produced one
      within both sides' limits. */
  lemma OutputOrRejection(
    s: Server, kernel: Kernel, say: Say, from: PeerId, t: Task, link: Bytes -> Option<Bytes>, frame: Bytes)
    requires WithinCeilings(s) && Addressable(t) && EncodeRequest(RequestFor(t)) == Ok(frame)
    requires link(frame) == Some(Handle(s, kernel, say, from, frame))
    ensures Dispatch(true, t, link).Err? ==> Dispatch(true, t, link).error.RemoteRejected?
    ensures Dispatch(true, t, link).Ok? <==> Produced(t, from, s, RunAt(s, kernel, t))
    ensures Dispatch(true, t, link).Ok? ==> Dispatch(true, t, link).value == RunAt(s, kernel, t).value
  {
    DispatchIsVerdict(s, kernel, say, from, t, link, frame);
    VerdictWithinCaps(s, kernel, say, from, t);
    AnswerArrives(s, Verdict(s, kernel, say, from, t), t.maxOutput);
    VerdictOutput(s, kernel, say, from, t);
    var v := Verdict(s, kernel, say, from, t);
    SeenOr(v, if EncodeResponse(v).Ok? then v else Fallback(s));
  }

  /** The framed link in between loses nothing either: with the transport's caps
      at the frame ceiling every encodable request and every answer passes. */
  lemma FramedDispatchIsVerdict(s: Server, kernel: Kernel, say: Say, from: PeerId, t: Task)
    requires WithinCeilings(s) && Addressable(t) && EncodeRequest(RequestFor(t)).Ok?
    ensures var v := Verdict(s, kernel, say, from, t);
            var handler := (b: Bytes) => Handle(s, kernel, say, from, b);
            Dispatch(true, t, (b: Bytes) => RoundTrip(handler, MAX_FRAME_BYTES, MAX_FRAME_BYTES, b))
              == Seen(if EncodeResponse(v).Ok? then v else Fallback(s))
  {
    var handler := (b: Bytes) => Handle(s, kernel, say, from, b);
    var frame := EncodeRequest(RequestFor(t)).value;
    LegDelivers(frame, MAX_FRAME_BYTES, MAX_FRAME_BYTES);
    RespondIsVerdict(s, kernel, say, from, t, frame);
    VerdictWithinCaps(s, kernel, say, from, t);
    AnswerArrives(s, Verdict(s, kernel, say, from, t), t.maxOutput);
    LegDelivers(handler(frame), MAX_FRAME_BYTES, MAX_FRAME_BYTES);
    DispatchIsVerdict(s, kernel, say, from, t, (b: Bytes) => RoundTrip(handler, MAX_FRAME_BYTES, MAX_FRAME_BYTES, b), frame);
  }

  /** Any input up to the payload ceiling can be encoded, with any plugin id of up to 65,000 bytes. */
  lemma CappedInputEncodes(t: Task)
    requires Addressable(t) && |t.input| <= MAX_PAYLOAD && |Utf8.Encode(PluginIds.Show(t.plugin))| <= 65_000
    ensures EncodeRequest(RequestFor(t)).Ok?
  {
    FieldsSize(FieldsOf(RequestFor(t)));
  }

  lemma NumbersSize(x: (u64, (u64, u64)))
    ensures |Pair(U64Codec(), Pair(U64Codec(), U64Codec())).put(x)| <= 30
  {
    VarintShort(x.0);
    VarintShort(x.1.0);
    VarintShort(x.1.1);
    PairSize(U64Codec(), U64Codec(), x.1);
    PairSize(U64Codec(), Pair(U64Codec(), U64Codec()), x);
  }

  lemma PayloadSize(x: (Chars, (Blob, (u64, (u64, u64)))))
    ensures |Pair(CharsCodec(), Pair(BlobCodec(), Pair(U64Codec(), Pair(U64Codec(), U64Codec())))).put(x)|
         <= |Utf8.Encode(x.0)| + |x.1.0| + 50
  {
    VarintShort(|Utf8.Encode(x.0)|);
    VarintShort(|x.1.0|);
    NumbersSize(x.1.1);
    PairSize(BlobCodec(), Pair(U64Codec(), Pair(U64Codec(), U64Codec())), x.1);
    PairSize(CharsCodec(), Pair(BlobCodec(), Pair(U64Codec(), Pair(U64Codec(), U64Codec()))), x);
  }

  lemma FieldsSize(f: Fields)
    ensures |FieldsCodec().put(f)| <= |Utf8.Encode(f.1.1.0)| + |f.1.1.1.0| + 76
  {
    VarintShort(f.0);
    PayloadSize(f.1.1);
    var payload := Pair(CharsCodec(), Pair(BlobCodec(), Pair(U64Codec(), Pair(U64Codec(), U64Codec()))));
    PairSize(IdCodec(), payload, f.1);
    PairSize(U16Codec(), Pair(IdCodec(), payload), f);
  }

  /** A transport with any smaller caps either fails or delivers the handler's very answer. */
  lemma LinkIsFaithful(handler: Bytes -> Bytes, client: nat, server: nat, frame: Bytes)
    ensures RoundTrip(handler, client, server, frame).Some? ==> RoundTrip(handler, client, server, frame) == Some(handler(frame))
  {
    LegDelivers(frame, client, server);
    LegDelivers(handler(frame), server, client);
  }

  /** Whatever the peer answers, an output longer than its task allows is never returned. */
  lemma OutputWithinTask(known: bool, t: Task, link: Bytes -> Option<Bytes>)
    requires Addressable(t)
    ensures Dispatch(known, t, link).Ok? ==> |Dispatch(known, t, link).value| <= t.maxOutput
  {
  }
}
