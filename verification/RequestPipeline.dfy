// The way of a render request: the host's threads publish it in a shared-memory slot, the bridge
// worker reads and filters it and publishes a private snapshot, and the render thread reads that.
// Both slots are sequence locks, and every access to shared memory is one step.
module RequestPipeline {
  import opened Wrappers
  import opened Seqlock

  // A request is its words. What makes one valid for the session, and two of its fields.
  datatype Session = Session(
    width: nat, valid: Words -> bool, sequence: Words -> nat, frameId: Words -> nat)

  // ---- snapshots: the words of a request, the time of publication, and the valid flag

  function Snapshot(request: Words, now: nat): Words { request + [now, 1] }

  function NoSnapshot(session: Session): Words { seq(session.width + 2, _ => 0) }

  predicate IsValidSnapshot(session: Session, words: Words, now: nat, maxAge: nat) {
    && |words| == session.width + 2 && words[session.width + 1] == 1
    && session.valid(words[..session.width])
    && words[session.width] <= now <= words[session.width] + maxAge
  }

  const Tries: nat := 64

  // One thread of the host, inside PublishRenderRequest.
  datatype HostPc = Out | Wanting(request: Words) | Loaded(request: Words, stable: nat) | Writing

  datatype WorkerPc = Polling | Loading(tries: nat) | Copying(tries: nat, attempt: Attempt) | Publishing | Invalidating | Ended

  datatype RenderPc =
    | Away
    | RLoading(tries: nat)
    | RCopying(tries: nat, attempt: Attempt)
    | Checked(request: Words, from: nat, check: Check)

  // The render thread's clock when it checked a snapshot, and the age it allowed.
  datatype Check = Check(now: nat, maxAge: nat)

  datatype BridgeState = Starting | Running | Stopping | Stopped

  // Kept for the proofs: `sources[i]` is the shared publication behind private snapshot i + 1, and
  // `stamps[i]` the worker's clock when that was published; `shown[i]` is the private publication
  // behind output i, and `checks[i]` how it was checked.
  datatype Pipe = Pipe(
    shared: Lock, hosts: seq<HostPc>, holder: Option<nat>,
    private: Lock, worker: WorkerPc, stop: bool, closing: bool, state: BridgeState,
    lastSequence: nat, lastFrame: nat, stale: nat,
    renderer: RenderPc, outputs: seq<Words>,
    sources: seq<nat>, stamps: seq<nat>, seen: nat, shown: seq<nat>, checks: seq<Check>)

  datatype Step =
    | HostBegin(t: nat, request: Words)
    | HostLoad(t: nat)
    | HostSwap(t: nat)
    | HostCopy(t: nat)
    | HostFinish(t: nat)
    | WorkerPoll
    | WorkerLoad
    | WorkerRead
    | WorkerRecheck(now: nat)
    | PrivateCopy
    | PrivateFinish
    | RenderBegin
    | RenderLoad
    | RenderRead
    | RenderRecheck(now: nat, maxAge: nat)
    | RenderFinish
    | BecomeRunning
    | StopBegin   // the state says Stopping, and
    | SignalStop  // then the worker's stop event is set
    | CloseStart

  predicate Shape(session: Session, p: Pipe) {
    && p.shared.width == session.width == |p.shared.words|
    && p.private.width == session.width + 2 == |p.private.words|
    && (p.shared.hold.Some? ==> |p.shared.hold.value.frame| == session.width)
    && (p.private.hold.Some? ==> |p.private.hold.value.frame| == session.width + 2)
  }

  predicate Possible(session: Session, p: Pipe, step: Step) {
    Shape(session, p) &&
    match step
    case HostBegin(t, request) =>
      t < |p.hosts| && p.hosts[t].Out? && |request| == session.width && session.valid(request)
    case HostLoad(t) => t < |p.hosts| && p.hosts[t].Wanting?
    case HostSwap(t) => t < |p.hosts| && p.hosts[t].Loaded?
    case HostCopy(t) =>
      t < |p.hosts| && p.hosts[t].Writing? && p.shared.hold.Some? && p.shared.hold.value.copied < session.width
    case HostFinish(t) =>
      t < |p.hosts| && p.hosts[t].Writing? && p.shared.hold.Some? && p.shared.hold.value.copied == session.width
    case WorkerPoll => p.worker.Polling?
    case WorkerLoad => p.worker.Loading?
    case WorkerRead => p.worker.Copying? && |p.worker.attempt.copy| < session.width
    case WorkerRecheck(now) => p.worker.Copying? && |p.worker.attempt.copy| == session.width
    case PrivateCopy => p.private.hold.Some? && p.private.hold.value.copied < session.width + 2
    case PrivateFinish => p.private.hold.Some? && p.private.hold.value.copied == session.width + 2
    case RenderBegin => p.renderer.Away? && p.state.Running?
    case RenderLoad => p.renderer.RLoading?
    case RenderRead => p.renderer.RCopying? && |p.renderer.attempt.copy| < session.width + 2
    case RenderRecheck(now, maxAge) => p.renderer.RCopying? && |p.renderer.attempt.copy| == session.width + 2
    case RenderFinish => p.renderer.Checked?
    case BecomeRunning => p.state.Starting?
    case StopBegin => p.state.Running?
    case SignalStop => p.state.Stopping? && !p.stop
    case CloseStart => p.state.Stopping? && p.worker.Ended? && !p.closing && p.private.hold == None
  }

  function SetHost(p: Pipe, t: nat, pc: HostPc): Pipe
    requires t < |p.hosts|
  {
    p.(hosts := p.hosts[t := pc])
  }

  function AfterHost(session: Session, p: Pipe, step: Step): Pipe
    requires Possible(session, p, step)
  {
    match step
    case HostBegin(t, request) => SetHost(p, t, Wanting(request))
    case HostLoad(t) =>
      SetHost(p, t, if Refuses(p.shared.sequence) then Out else Loaded(p.hosts[t].request, p.shared.sequence))
    case HostSwap(t) =>
      if p.shared.sequence != p.hosts[t].stable then SetHost(p, t, Out)
      else SetHost(p, t, Writing).(shared := StartWriting(p.shared, p.hosts[t].request), holder := Some(t))
    case HostCopy(t) => p.(shared := CopyWord(p.shared))
    case HostFinish(t) => SetHost(p, t, Out).(shared := FinishWriting(p.shared), holder := None)
    case _ => p
  }

  function RetryWorker(tries: nat): WorkerPc { if tries + 1 < Tries then Loading(tries + 1) else Polling }

  // The publication that was the newest of n.
  function Before(n: nat): nat { if n == 0 then 0 else n - 1 }

  // The worker's filter, on a request it has read.
  function Filtered(session: Session, p: Pipe, request: Words, from: nat, now: nat): Pipe {
    if session.sequence(request) == p.lastSequence then p.(worker := Polling, seen := from)
    else if session.frameId(request) <= p.lastFrame then
      p.(worker := Polling, seen := from, lastSequence := session.sequence(request), stale := p.stale + 1)
    else
      p.(worker := Publishing, seen := from, lastSequence := session.sequence(request),
         lastFrame := session.frameId(request), sources := p.sources + [Before(from)], stamps := p.stamps + [now],
         private := StartWriting(p.private, Snapshot(request, now)))
  }

  function AfterWorker(session: Session, p: Pipe, step: Step): Pipe
    requires Possible(session, p, step)
  {
    match step
    case WorkerPoll =>
      if p.stop then p.(worker := Invalidating, private := StartWriting(p.private, NoSnapshot(session)))
      else p.(worker := Loading(0))
    case WorkerLoad =>
      if p.shared.sequence == 0 then p.(worker := Polling)
      else if p.shared.sequence % 2 == 1 then p.(worker := RetryWorker(p.worker.tries))
      else p.(worker := Copying(p.worker.tries, Load(p.shared)))
    case WorkerRead => p.(worker := p.worker.(attempt := ReadWord(p.shared, p.worker.attempt)))
    case WorkerRecheck(now) =>
      var attempt := p.worker.attempt;
      if !Accepts(p.shared, attempt) then p.(worker := RetryWorker(p.worker.tries))
      else if !session.valid(attempt.copy) then p.(worker := Polling)
      else Filtered(session, p, attempt.copy, attempt.at, now)
    case PrivateCopy => p.(private := CopyWord(p.private))
    case PrivateFinish =>
      var q := p.(private := FinishWriting(p.private));
      if p.closing then q.(state := Stopped)
      else q.(worker := if p.worker.Invalidating? then Ended else Polling)
    case CloseStart => p.(closing := true, private := StartWriting(p.private, NoSnapshot(session)))
    case _ => p
  }

  function RetryRender(tries: nat): RenderPc { if tries + 1 < Tries then RLoading(tries + 1) else Away }

  function AfterRender(session: Session, p: Pipe, step: Step): Pipe
    requires Possible(session, p, step)
  {
    match step
    case RenderBegin => p.(renderer := RLoading(0))
    case RenderLoad =>
      if p.private.sequence == 0 then p.(renderer := Away)
      else if p.private.sequence % 2 == 1 then p.(renderer := RetryRender(p.renderer.tries))
      else p.(renderer := RCopying(p.renderer.tries, Load(p.private)))
    case RenderRead => p.(renderer := p.renderer.(attempt := ReadWord(p.private, p.renderer.attempt)))
    case RenderRecheck(now, maxAge) =>
      var attempt := p.renderer.attempt;
      if !Accepts(p.private, attempt) then p.(renderer := RetryRender(p.renderer.tries))
      else if !IsValidSnapshot(session, attempt.copy, now, maxAge) then p.(renderer := Away)
      else p.(renderer := Checked(attempt.copy[..session.width], attempt.at, Check(now, maxAge)))
    case RenderFinish =>
      if !p.state.Running? then p.(renderer := Away)
      else
        p.(renderer := Away, outputs := p.outputs + [p.renderer.request], shown := p.shown + [p.renderer.from],
           checks := p.checks + [p.renderer.check])
    case BecomeRunning => p.(state := Running)
    case StopBegin => p.(state := Stopping)
    case SignalStop => p.(stop := true)
    case _ => p
  }

  predicate IsHostStep(step: Step) {
    step.HostBegin? || step.HostLoad? || step.HostSwap? || step.HostCopy? || step.HostFinish?
  }

  predicate IsRenderStep(step: Step) {
    || step.RenderBegin? || step.RenderLoad? || step.RenderRead? || step.RenderRecheck? || step.RenderFinish?
    || step.BecomeRunning? || step.StopBegin? || step.SignalStop?
  }

  function After(session: Session, p: Pipe, step: Step): Pipe
    requires Possible(session, p, step)
  {
    if IsHostStep(step) then AfterHost(session, p, step)
    else if IsRenderStep(step) then AfterRender(session, p, step)
    else AfterWorker(session, p, step)
  }

  ghost predicate Init(session: Session, p: Pipe) {
    && p.shared == Lock(session.width, 0, p.shared.words, [], None) && |p.shared.words| == session.width
    && (forall t :: 0 <= t < |p.hosts| ==> p.hosts[t].Out?) && p.holder == None
    // Bootstrap has invalidated the private snapshot once.
    && p.private == Lock(session.width + 2, 2, NoSnapshot(session), [NoSnapshot(session)], None)
    && p.worker.Polling? && !p.stop && !p.closing && p.state.Starting?
    && p.lastSequence == p.lastFrame == p.stale == p.seen == 0
    && p.renderer.Away? && p.outputs == [] && p.sources == [] && p.stamps == [] && p.shown == [] && p.checks == []
  }

  // The pipe after the given steps, or None if one of them was not possible.
  function Run(session: Session, p: Pipe, steps: seq<Step>): Option<Pipe>
    decreases |steps|
  {
    if steps == [] then Some(p)
    else if Possible(session, p, steps[0]) then Run(session, After(session, p, steps[0]), steps[1..])
    else None
  }
}
