/** `dispatch_one_shot`: place a one-shot task, run it here or at the chosen peer
    (crates/entangle-scheduler/src/dispatcher.rs). */
module Dispatcher {
  import opened Common
  import opened Placement
  import opened Wire
  import R = Remote

  /** The cross-node client: known addresses and what each peer's link answers. */
  datatype Client = Client(known: PeerId -> bool, link: PeerId -> (Bytes -> Option<Bytes>))

  datatype Dispatcher = Dispatcher(local: PeerId, remote: Option<Client>, strictRemote: bool)

  datatype DispatchFailure =
    | InputSizeExceeded(declared: u64, actual: nat)
    | NotPlaced(e: PlacementError)
    | RemoteFailed(peer: PeerId, cause: R.DispatchError)
    | RemoteNotImplemented(peer: PeerId)
    | LocalFailed(error: R.RunError)
    | OutputSizeExceeded(at: PeerId, size: nat)

  datatype Done = Done(chosen: Choice, output: Bytes)

  predicate NoResources(spec: ResourceSpec) { spec.cpuCores == Fin(0.0) && spec.memory == 0 }

  /** With no workers at all a task without requirements runs here. */
  function Place(d: Dispatcher, live: seq<WorkerInfo>, spec: ResourceSpec): Result<Choice, PlacementError> {
    match Choose(live, spec)
    case Ok(c) => Ok(c)
    case Err(NoWorkers) => if NoResources(spec) then Ok(Choice(d.local, 0.0)) else Err(NoWorkers)
    case Err(NoMatch) => Err(NoMatch)
  }

  function CheckOutput(t: R.Task, chosen: Choice, at: PeerId, output: Bytes): Result<Done, DispatchFailure> {
    if |output| > t.maxOutput then Err(OutputSizeExceeded(at, |output|)) else Ok(Done(chosen, output))
  }

  /** `localRun` is the outcome of `invoke_with_integrity` on this node's kernel. */
  function OneShot(d: Dispatcher, live: seq<WorkerInfo>, spec: ResourceSpec, t: R.Task, localRun: Result<Bytes, R.RunError>)
    : Result<Done, DispatchFailure>
    requires R.Addressable(t)
  {
    if |t.input| > t.maxInput then Err(InputSizeExceeded(t.maxInput, |t.input|))
    else
      match Place(d, live, spec)
      case Err(e) => Err(NotPlaced(e))
      case Ok(chosen) =>
        if chosen.peer != d.local && d.remote.Some? then
          match R.Dispatch(d.remote.value.known(chosen.peer), t, d.remote.value.link(chosen.peer))
          case Err(e) => Err(RemoteFailed(chosen.peer, e))
          case Ok(output) => CheckOutput(t, chosen, chosen.peer, output)
        else if chosen.peer != d.local && d.strictRemote then Err(RemoteNotImplemented(chosen.peer))
        else
          match localRun
          case Err(e) => Err(LocalFailed(e))
          case Ok(output) => CheckOutput(t, chosen, d.local, output)
  }

  /** An output is never longer than its task allows, and the re-check after a
      remote answer never fires: the client has already refused such an answer. */
  lemma OutputWithinLimit(d: Dispatcher, live: seq<WorkerInfo>, spec: ResourceSpec, t: R.Task, localRun: Result<Bytes, R.RunError>)
    requires R.Addressable(t)
    ensures var r := OneShot(d, live, spec, t, localRun);
            && (r.Ok? ==> |r.value.output| <= t.maxOutput)
            && (r.Err? && r.error.OutputSizeExceeded? ==> r.error.at == d.local)
  {
    match Place(d, live, spec)
    case Err(_) =>
    case Ok(chosen) =>
      if chosen.peer != d.local && d.remote.Some? {
        R.OutputWithinTask(d.remote.value.known(chosen.peer), t, d.remote.value.link(chosen.peer));
      }
  }

  /** Where a task is placed: with workers, on the best of them; with none, here,
      exactly when it asks for no cores and no memory. */
  lemma PlacedExactly(d: Dispatcher, live: seq<WorkerInfo>, spec: ResourceSpec)
    ensures live != [] ==> forall c :: Place(d, live, spec) == Ok(c) <==> IsBest(live, spec, c)
    ensures live != [] && Place(d, live, spec).Err? ==> Place(d, live, spec) == Err(NoMatch)
    ensures live == [] && spec.cpuCores == Fin(0.0) && spec.memory == 0 ==> Place(d, live, spec) == Ok(Choice(d.local, 0.0))
    ensures live == [] && !(spec.cpuCores == Fin(0.0) && spec.memory == 0) ==> Place(d, live, spec) == Err(NoWorkers)
  {
    ChooseIsBest(live, spec);
  }

  /** The task runs on this node's kernel: it was placed here, or elsewhere with
      no client to reach it and no insistence on running there. */
  predicate RunsHere(d: Dispatcher, chosen: Choice) { chosen.peer == d.local || (d.remote.None? && !d.strictRemote) }

  /** A task that runs here returns exactly what the kernel produced, for the
      placement that was made, when input and output are within their limits. */
  lemma LocalResult(d: Dispatcher, live: seq<WorkerInfo>, spec: ResourceSpec, t: R.Task, localRun: Result<Bytes, R.RunError>)
    requires R.Addressable(t) && Place(d, live, spec).Ok? && RunsHere(d, Place(d, live, spec).value)
    ensures var r, chosen := OneShot(d, live, spec, t, localRun), Place(d, live, spec).value;
            && (r.Ok? <==> |t.input| <= t.maxInput && localRun.Ok? && |localRun.value| <= t.maxOutput)
            && (r.Ok? ==> r.value.output == localRun.value && r.value.chosen == chosen)
            && (r.Err? ==>
                  r.error == if |t.input| > t.maxInput then InputSizeExceeded(t.maxInput, |t.input|)
                             else if localRun.Err? then LocalFailed(localRun.error)
                             else OutputSizeExceeded(d.local, |localRun.value|))
  {
  }

  /** What does not run here: an oversized input is refused before placement, a
      failed placement is reported, a remote placement without a client is
      refused in strict mode, and otherwise the client's answer is passed on. */
  lemma OtherResult(d: Dispatcher, live: seq<WorkerInfo>, spec: ResourceSpec, t: R.Task, localRun: Result<Bytes, R.RunError>)
    requires R.Addressable(t)
    ensures var r := OneShot(d, live, spec, t, localRun);
            if |t.input| > t.maxInput then r == Err(InputSizeExceeded(t.maxInput, |t.input|))
            else if Place(d, live, spec).Err? then r == Err(NotPlaced(Place(d, live, spec).error))
            else
              var chosen := Place(d, live, spec).value;
              && (chosen.peer != d.local && d.remote.None? && d.strictRemote ==> r == Err(RemoteNotImplemented(chosen.peer)))
              && (chosen.peer != d.local && d.remote.Some? ==>
                    var answer := R.Dispatch(d.remote.value.known(chosen.peer), t, d.remote.value.link(chosen.peer));
                    r == if answer.Ok? then Ok(Done(chosen, answer.value)) else Err(RemoteFailed(chosen.peer, answer.error)))
  {
    if Place(d, live, spec).Ok? && d.remote.Some? {
      var peer := Place(d, live, spec).value.peer;
      R.OutputWithinTask(d.remote.value.known(peer), t, d.remote.value.link(peer));
    }
  }

  /** An honest server behind a peer's link. */
  ghost predicate HonestLink(c: Client, peer: PeerId, s: R.Server, kernel: R.Kernel, say: R.Say, from: PeerId, frame: Bytes) {
    c.known(peer) && c.link(peer)(frame) == Some(R.Handle(s, kernel, say, from, frame))
  }

  /** End to end: when placement picks a peer with an honest server, the result
      is an output exactly when that peer's kernel produced one within both
      sides' limits, it is that very output, and it comes from the worker that
      placement says is best among the live ones. */
  lemma EndToEnd(
    d: Dispatcher, live: seq<WorkerInfo>, spec: ResourceSpec, t: R.Task, localRun: Result<Bytes, R.RunError>,
    peer: PeerId, s: R.Server, kernel: R.Kernel, say: R.Say, frame: Bytes)
    requires R.Addressable(t) && R.WithinCeilings(s) && EncodeRequest(R.RequestFor(t)) == Ok(frame)
    requires Place(d, live, spec).Ok? && Place(d, live, spec).value.peer == peer != d.local && d.remote.Some?
    requires HonestLink(d.remote.value, peer, s, kernel, say, d.local, frame)
    ensures OneShot(d, live, spec, t, localRun).Ok? <==>
              R.Produced(t, d.local, s, R.RunAt(s, kernel, t))
    ensures var r := OneShot(d, live, spec, t, localRun);
            r.Ok? ==>
              && R.RunAt(s, kernel, t).Ok? && r.value.output == R.RunAt(s, kernel, t).value
              && r.value.chosen.peer == peer && IsBest(live, spec, r.value.chosen)
    ensures var r := OneShot(d, live, spec, t, localRun);
            r.Err? && |t.input| <= t.maxInput ==> r.error.RemoteFailed? && r.error.cause.RemoteRejected?
  {
    var link := d.remote.value.link(peer);
    R.OutputOrRejection(s, kernel, say, d.local, t, link, frame);
    ChooseIsBest(live, spec);
  }
}
