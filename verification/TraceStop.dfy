// The trace session around the ring: the wrapper scopes that feed it, the writer thread that
// drains it, and the stop thread that must not report success before everything is drained.
//
// `camera` is g_hmd_camera_enabled. The bootstrap that also starts the VR bridge raises it once,
// after the trace is already active (`RaiseCamera`), so that store can come after the stop
// thread's clearing of the flag; `raisedLate` remembers that it did.
module TraceStop {
  import opened Wrappers
  import opened TraceRing
  import opened TraceRingInvariant

  // One open TraceScope. `events` counts the double-pass records still to be emitted inside it.
  datatype Status = Entering | Recorded | Skipped | Leaving
  datatype Camera = Off | Sampled | Reporting
  datatype Scope = Scope(status: Status, events: nat, camera: Camera)
  datatype Thread = Thread(scopes: seq<Scope>, depth: nat)

  datatype WriterPc = Draining | Waiting | LastTry | Exited
  datatype StopResult = Ok | ActiveTimeout | WriterTimeout
  datatype StopPc =
    | AwaitRequest
    | AwaitAgain
    | CameraCleared
    | Refusing
    | Polling(restored: bool)
    | Sealed
    | AwaitWriter
    | Done(result: StopResult)

  datatype System = System(
    ring: Ring,
    threads: seq<Thread>,
    active: int,
    accepting: bool,
    camera: bool,
    raisePending: bool,
    raisedLate: bool,
    stopEvent: bool,
    writer: WriterPc,
    stop: StopPc)

  datatype Event =
    // A wrapper running on thread t.
    | Enter(t: nat)
    | SampleAccepting(t: nat, entry: Record)
    | ClaimDoublePass(t: nat)
    | EmitDoublePass(t: nat, record: Record)
    | SampleCamera(t: nat)
    | CameraSucceeded(t: nat)
    | CameraFailed(t: nat)
    | CameraFaulted(t: nat)
    | ReportCamera(t: nat, record: Record)
    | BeginLeave(t: nat, exit: Record)
    | Leave(t: nat)
    // A step of EnqueueRecord after the call, or of the writer's record copy.
    | InRing(a: Action)
    // The writer thread.
    | WriterPolls
    | WriterWaits
    | WriterReleases
    // The stop thread.
    | TraceTimesOut
    | StopRequested
    | RefuseRecords
    | RestoreHooks(restored: bool)
    | ActiveStillSet
    | FinalActiveCheck
    | SignalWriter
    | WriterJoined
    | WriterJoinTimesOut
    // The bootstrap thread.
    | RaiseCamera

  predicate SystemInit(s: System) {
    && TraceRing.Init(s.ring)
    && |s.threads| == |s.ring.producers|
    && (forall t :: 0 <= t < |s.threads| ==> s.threads[t] == Thread([], 0))
    && s.active == 0 && s.accepting && !s.camera && !s.raisedLate && !s.stopEvent
    && s.writer == Draining && s.stop == AwaitRequest
  }

  // The thread is between two calls of EnqueueRecord, and its innermost scope is open.
  predicate AtRest(s: System, t: nat) {
    t < |s.threads| && t < |s.ring.producers| && s.ring.producers[t] == Idle
  }

  predicate InBody(s: System, t: nat) {
    AtRest(s, t) && s.threads[t].scopes != []
    && (Top(s, t).status == Recorded || Top(s, t).status == Skipped)
  }

  function Top(s: System, t: nat): Scope
    requires t < |s.threads| && s.threads[t].scopes != []
  {
    s.threads[t].scopes[|s.threads[t].scopes| - 1]
  }

  predicate Possible(s: System, e: Event) {
    match e
    case Enter(t) => AtRest(s, t) && (s.threads[t].scopes == [] || InBody(s, t))
    case SampleAccepting(t, entry) =>
      && AtRest(s, t) && s.threads[t].scopes != [] && Top(s, t).status == Entering
      && TraceRing.Enabled(s.ring, Call(t, entry))
    case ClaimDoublePass(t) => InBody(s, t) && s.accepting
    case EmitDoublePass(t, record) =>
      InBody(s, t) && Top(s, t).events > 0 && TraceRing.Enabled(s.ring, Call(t, record))
    case SampleCamera(t) => InBody(s, t) && Top(s, t).camera == Off && s.camera
    case CameraSucceeded(t) => InBody(s, t) && Top(s, t).camera == Sampled
    case CameraFailed(t) => InBody(s, t) && Top(s, t).camera == Sampled
    // An exception in the stereo path clears the flag and reports nothing.
    case CameraFaulted(t) => InBody(s, t) && Top(s, t).camera == Sampled
    case ReportCamera(t, record) =>
      InBody(s, t) && Top(s, t).camera == Reporting && TraceRing.Enabled(s.ring, Call(t, record))
    case BeginLeave(t, exit) =>
      && InBody(s, t) && Top(s, t).status == Recorded && Top(s, t).events == 0 && Top(s, t).camera == Off
      && TraceRing.Enabled(s.ring, Call(t, exit))
    case Leave(t) =>
      && AtRest(s, t) && s.threads[t].scopes != []
      && (|| Top(s, t).status == Leaving
          || (Top(s, t).status == Skipped && Top(s, t).events == 0 && Top(s, t).camera == Off))
    case InRing(a) =>
      !a.Call? && !a.LoadHead? && !a.ReleaseSlot? && TraceRing.Enabled(s.ring, a)
    case WriterPolls =>
      (s.writer == Draining || s.writer == LastTry) && TraceRing.Enabled(s.ring, LoadHead)
    case WriterWaits => s.writer == Waiting
    case WriterReleases => TraceRing.Enabled(s.ring, ReleaseSlot)
    case TraceTimesOut => s.stop == AwaitRequest
    case StopRequested => s.stop == AwaitRequest || s.stop == AwaitAgain
    case RefuseRecords => s.stop == CameraCleared
    case RestoreHooks(restored) => s.stop == Refusing
    case ActiveStillSet => s.stop.Polling? && s.active != 0
    case FinalActiveCheck => s.stop.Polling?
    case SignalWriter => s.stop == Sealed
    case WriterJoined => s.stop == AwaitWriter && s.writer == Exited
    case WriterJoinTimesOut => s.stop == AwaitWriter
    case RaiseCamera => s.raisePending
  }

  predicate OfThread(e: Event) {
    || e.Enter? || e.SampleAccepting? || e.ClaimDoublePass? || e.EmitDoublePass? || e.SampleCamera?
    || e.CameraSucceeded? || e.CameraFailed? || e.CameraFaulted? || e.ReportCamera? || e.BeginLeave? || e.Leave?
  }

  // What an event does to the thread it runs on.
  function ThreadAfter(thread: Thread, e: Event, accepting: bool): Thread
    requires OfThread(e) && (thread.scopes != [] || e.Enter?)
  {
    if e.Enter? then
      thread.(scopes := thread.scopes + [Scope(Entering, 0, Off)])
    else
      var n := |thread.scopes| - 1;
      var top := thread.scopes[n];
      if e.Leave? then
        Thread(thread.scopes[..n],
               if top.status == Leaving && thread.depth != 0 then thread.depth - 1 else thread.depth)
      else
        Thread(thread.scopes[n := TopAfter(top, e, accepting || thread.depth != 0)],
               if e.SampleAccepting? && (accepting || thread.depth != 0) then thread.depth + 1 else thread.depth)
  }

  function TopAfter(top: Scope, e: Event, recorded: bool): Scope {
    match e
    case SampleAccepting(_, _) => top.(status := if recorded then Recorded else Skipped)
    case ClaimDoublePass(_) => top.(events := top.events + 3)
    case EmitDoublePass(_, _) => top.(events := if top.events > 0 then top.events - 1 else 0)
    case SampleCamera(_) => top.(camera := Sampled)
    case CameraSucceeded(_) => top.(camera := Off)
    case CameraFailed(_) => top.(camera := Reporting)
    case CameraFaulted(_) => top.(camera := Off)
    case ReportCamera(_, _) => top.(camera := Off)
    case BeginLeave(_, _) => top.(status := Leaving)
    case _ => top
  }

  // The record the event hands to EnqueueRecord, if it makes that call.
  function CallOf(thread: Thread, e: Event, accepting: bool): Option<Record> {
    match e
    case SampleAccepting(_, entry) => if accepting || thread.depth != 0 then Some(entry) else None
    case EmitDoublePass(_, record) => Some(record)
    case ReportCamera(_, record) => Some(record)
    case BeginLeave(_, exit) => Some(exit)
    case _ => None
  }

  function AfterThread(s: System, e: Event): System
    requires Possible(s, e) && OfThread(e)
  {
    var thread := s.threads[e.t];
    var thread' := ThreadAfter(thread, e, s.accepting);
    var call := CallOf(thread, e, s.accepting);
    s.(threads := s.threads[e.t := thread'],
       active := s.active + |thread'.scopes| - |thread.scopes|,
       camera := s.camera && !e.CameraFailed? && !e.CameraFaulted?,
       ring := if call.Some? then TraceRing.Next(s.ring, Call(e.t, call.value)) else s.ring)
  }

  function After(s: System, e: Event): System
    requires Possible(s, e)
  {
    if OfThread(e) then AfterThread(s, e)
    else match e
    case InRing(a) => s.(ring := TraceRing.Next(s.ring, a))
    case WriterPolls =>
      var ring := TraceRing.Next(s.ring, LoadHead);
      if HeadReady(s.ring) then s.(ring := ring)
      else s.(ring := ring, writer := if s.writer == LastTry then Exited else Waiting)
    case WriterWaits => s.(writer := if s.stopEvent then LastTry else Draining)
    case WriterReleases => s.(ring := TraceRing.Next(s.ring, ReleaseSlot), writer := Draining)
    case TraceTimesOut => s.(accepting := false, stop := AwaitAgain)
    case StopRequested => s.(camera := false, stop := CameraCleared)
    case RefuseRecords => s.(accepting := false, stop := Refusing)
    case RestoreHooks(restored) => s.(stop := Polling(restored))
    case ActiveStillSet => s
    case FinalActiveCheck =>
      if !s.stop.restored || s.active != 0 then s.(stop := Done(ActiveTimeout)) else s.(stop := Sealed)
    case SignalWriter => s.(stopEvent := true, stop := AwaitWriter)
    case WriterJoined => s.(stop := Done(Ok))
    case WriterJoinTimesOut => s.(stop := Done(WriterTimeout))
    case RaiseCamera =>
      s.(camera := true, raisePending := false, raisedLate := s.raisedLate || StopBegun(s.stop))
    case _ => s
  }

  predicate StopBegun(stop: StopPc) {
    stop != AwaitRequest && stop != AwaitAgain
  }

  // Past the check that found no wrapper active.
  predicate PastCheck(stop: StopPc) {
    stop == Sealed || stop == AwaitWriter || stop == Done(Ok) || stop == Done(WriterTimeout)
  }

  // ---------------------------------------------------------------------------
  // The inductive invariant.

  function Counted(scope: Scope): nat {
    if scope.status == Recorded || scope.status == Leaving then 1 else 0
  }

  function RecordedCount(scopes: seq<Scope>): nat {
    if scopes == [] then 0
    else RecordedCount(scopes[..|scopes| - 1]) + Counted(scopes[|scopes| - 1])
  }

  function OpenScopes(threads: seq<Thread>): nat {
    if threads == [] then 0 else |threads[0].scopes| + OpenScopes(threads[1..])
  }

  predicate ThreadOk(thread: Thread, p: Producer) {
    && thread.depth == RecordedCount(thread.scopes)
    && (thread.scopes == [] ==> p == Idle)
  }

  // A thread that can put nothing into the ring unless a flag comes up.
  predicate Quiet(thread: Thread, p: Producer) {
    && p == Idle && thread.depth == 0
    && (forall i :: 0 <= i < |thread.scopes| ==>
          var scope := thread.scopes[i];
          (scope.status == Entering || scope.status == Skipped) && scope.events == 0 && scope.camera == Off)
  }

  // A thread that can put something into the ring through the camera path only.
  predicate CameraOnly(thread: Thread) {
    && thread.depth == 0
    && (forall i :: 0 <= i < |thread.scopes| ==>
          var scope := thread.scopes[i];
          (scope.status == Entering || scope.status == Skipped) && scope.events == 0)
  }

  predicate AllCameraOnly(s: System) {
    forall t :: 0 <= t < |s.threads| ==> CameraOnly(s.threads[t])
  }

  predicate AllQuiet(s: System) {
    |s.threads| == |s.ring.producers|
    && forall t :: 0 <= t < |s.threads| ==> Quiet(s.threads[t], s.ring.producers[t])
  }

  predicate SessionInv(s: System) {
    && Inv(s.ring)
    && |s.threads| == |s.ring.producers|
    && s.active == OpenScopes(s.threads)
    && (forall t :: 0 <= t < |s.threads| ==> ThreadOk(s.threads[t], s.ring.producers[t]))
  }

  predicate StopInv(s: System) {
    && (s.ring.reading.Some? ==> s.writer == Draining || s.writer == LastTry)
    && (s.stopEvent <==> s.stop == AwaitWriter || s.stop == Done(Ok) || s.stop == Done(WriterTimeout))
    && (s.writer == LastTry || s.writer == Exited ==> s.stopEvent)
    && (s.stop == Done(Ok) ==> s.writer == Exited)
    && (s.raisedLate ==> !s.raisePending)
    && (StopBegun(s.stop) && s.stop != CameraCleared ==> !s.accepting)
    && (PastCheck(s.stop) ==> AllCameraOnly(s))
    && (!s.raisedLate ==>
          && (StopBegun(s.stop) ==> !s.camera)
          && (PastCheck(s.stop) ==> AllQuiet(s))
          && (s.writer == Exited ==> s.ring.dequeue == s.ring.enqueue && s.ring.reading == None))
  }

  predicate SystemInv(s: System) {
    SessionInv(s) && StopInv(s)
  }
}
