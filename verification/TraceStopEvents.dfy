// What the stop thread's report says about the events of the run.
module TraceStopEvents {
  import opened Wrappers
  import opened TraceRing
  import opened TraceRingInvariant
  import opened TraceStop
  import opened TraceStopProofs

  // The stop thread's own steps; ActiveStillSet only looks.
  predicate OfStop(e: Event) {
    || e.TraceTimesOut? || e.StopRequested? || e.RefuseRecords? || e.RestoreHooks? || e.FinalActiveCheck?
    || e.SignalWriter? || e.WriterJoined? || e.WriterJoinTimesOut?
  }

  function StopSteps(events: seq<Event>): seq<Event> {
    if events == [] then []
    else
      var last := events[|events| - 1];
      StopSteps(events[..|events| - 1]) + if OfStop(last) then [last] else []
  }

  // Wrappers entered and not yet left.
  function Inside(events: seq<Event>): int {
    if events == [] then 0
    else
      var last := events[|events| - 1];
      Inside(events[..|events| - 1]) + if last.Enter? then 1 else if last.Leave? then -1 else 0
  }

  lemma {:induction false} RunLast(s: System, events: seq<Event>)
    requires Run(s, events).Some? && events != []
    ensures var front, last := events[..|events| - 1], events[|events| - 1];
      && Run(s, front).Some? && Possible(Run(s, front).value, last)
      && Run(s, events) == Some(After(Run(s, front).value, last))
    decreases |events|
  {
    hide Possible, After;
    if |events| > 1 {
      assert events[1..][..|events| - 2] == events[..|events| - 1][1..];
      RunLast(After(s, events[0]), events[1..]);
    } else {
      assert Run(After(s, events[0]), []) == Some(After(s, events[0]));
    }
  }

  lemma {:induction false} StepsAmong(events: seq<Event>, e: Event)
    requires OfStop(e)
    ensures e in StopSteps(events) <==> e in events
  {
    if events != [] {
      StepsAmong(events[..|events| - 1], e);
      assert events == events[..|events| - 1] + [events[|events| - 1]];
    }
  }

  // ---- the stop thread's steps, from the run's end

  function Request(timedOut: bool): seq<Event> {
    if timedOut then [TraceTimesOut, StopRequested] else [StopRequested]
  }

  predicate Script(stop: StopPc, steps: seq<Event>, timedOut: bool) {
    match stop
    case AwaitRequest => steps == [] && !timedOut
    case AwaitAgain => steps == [TraceTimesOut] && timedOut
    case CameraCleared => steps == Request(timedOut)
    case Refusing => steps == Request(timedOut) + [RefuseRecords]
    case Polling(restored) => steps == Request(timedOut) + [RefuseRecords, RestoreHooks(restored)]
    case Sealed => steps == Request(timedOut) + [RefuseRecords, RestoreHooks(true), FinalActiveCheck]
    case AwaitWriter => steps == Request(timedOut) + [RefuseRecords, RestoreHooks(true), FinalActiveCheck, SignalWriter]
    case Done(Ok) => steps == Success(timedOut)
    case Done(WriterTimeout) =>
      steps == Request(timedOut) + [RefuseRecords, RestoreHooks(true), FinalActiveCheck, SignalWriter, WriterJoinTimesOut]
    case Done(ActiveTimeout) =>
      || steps == Request(timedOut) + [RefuseRecords, RestoreHooks(true), FinalActiveCheck]
      || steps == Request(timedOut) + [RefuseRecords, RestoreHooks(false), FinalActiveCheck]
  }

  function Success(timedOut: bool): seq<Event> {
    Request(timedOut) + [RefuseRecords, RestoreHooks(true), FinalActiveCheck, SignalWriter, WriterJoined]
  }

  lemma ScriptStep(s: System, e: Event, steps: seq<Event>, timedOut: bool)
    requires Possible(s, e) && Script(s.stop, steps, timedOut)
    ensures Script(After(s, e).stop, steps + if OfStop(e) then [e] else [], timedOut || e.TraceTimesOut?)
  {
    hide Script, AfterThread, TraceRing.Next, TraceRing.Enabled;
    if OfStop(e) {
      StopStep(s, e, steps, timedOut);
    } else {
      assert steps + [] == steps;
      OtherStep(s, e);
    }
  }

  lemma StopStep(s: System, e: Event, steps: seq<Event>, timedOut: bool)
    requires Possible(s, e) && Script(s.stop, steps, timedOut) && OfStop(e)
    ensures Script(After(s, e).stop, steps + [e], timedOut || e.TraceTimesOut?)
  {
    hide AfterThread, TraceRing.Next, TraceRing.Enabled;
    if e.FinalActiveCheck? {
      assert steps + [e] == Request(timedOut) + [RefuseRecords, RestoreHooks(s.stop.restored), FinalActiveCheck];
    } else if e.WriterJoined? {
      assert steps + [e] == Success(timedOut);
    }
  }

  lemma OtherStep(s: System, e: Event)
    requires Possible(s, e) && !OfStop(e)
    ensures After(s, e).stop == s.stop
  {
    hide TraceRing.Next, TraceRing.Enabled, ThreadAfter, CallOf;
  }

  lemma {:induction false} Scripted(s0: System, events: seq<Event>)
    requires SystemInit(s0) && Run(s0, events).Some?
    ensures Script(Run(s0, events).value.stop, StopSteps(events), TraceTimesOut in events)
  {
    hide SystemInit, Possible, After, Script;
    if events == [] {
      NothingYet(s0);
    } else {
      var front, last := events[..|events| - 1], events[|events| - 1];
      RunLast(s0, events);
      Scripted(s0, front);
      ScriptStep(Run(s0, front).value, last, StopSteps(front), TraceTimesOut in front);
      assert events == front + [last];
    }
  }

  lemma NothingYet(s0: System)
    requires SystemInit(s0)
    ensures Script(s0.stop, [], false) && s0.active == 0
  {
  }

  // ---- what the reports mean

  // Ok is reported exactly after these steps in this order: the hooks were restored, and no attempt
  // at that failed.
  lemma SuccessIsOneScript(s0: System, events: seq<Event>, s: System)
    requires SystemInit(s0) && Run(s0, events) == Some(s)
    ensures s.stop == Done(Ok) <==>
      StopSteps(events) == (if TraceTimesOut in events then [TraceTimesOut] else [])
        + [StopRequested, RefuseRecords, RestoreHooks(true), FinalActiveCheck, SignalWriter, WriterJoined]
    ensures s.stop == Done(Ok) ==> RestoreHooks(true) in events && RestoreHooks(false) !in events
  {
    hide SystemInit, StopSteps, Run;
    Scripted(s0, events);
    StepsAmong(events, RestoreHooks(true));
    StepsAmong(events, RestoreHooks(false));
    var steps, timedOut := StopSteps(events), TraceTimesOut in events;
    assert Success(timedOut) == (if timedOut then [TraceTimesOut] else [])
      + [StopRequested, RefuseRecords, RestoreHooks(true), FinalActiveCheck, SignalWriter, WriterJoined];
    OnlySuccess(s.stop, steps, timedOut);
  }

  lemma OnlySuccess(stop: StopPc, steps: seq<Event>, timedOut: bool)
    requires Script(stop, steps, timedOut)
    ensures stop == Done(Ok) <==> steps == Success(timedOut)
    ensures stop == Done(Ok) ==> RestoreHooks(true) in steps && RestoreHooks(false) !in steps
  {
    if steps == Success(timedOut) {
      assert steps[|steps| - 1] == WriterJoined;
    }
    assert Success(timedOut)[|Request(timedOut)| + 1] == RestoreHooks(true);
  }

  lemma {:induction false} ActiveIsInside(s0: System, events: seq<Event>)
    requires SystemInit(s0) && Run(s0, events).Some?
    ensures Run(s0, events).value.active == Inside(events)
  {
    if events == [] {
      NothingYet(s0);
    } else {
      var front, last := events[..|events| - 1], events[|events| - 1];
      RunLast(s0, events);
      ActiveIsInside(s0, front);
      ActiveStep(Run(s0, front).value, last);
    }
  }

  lemma ActiveStep(s: System, e: Event)
    requires Possible(s, e)
    ensures After(s, e).active == s.active + if e.Enter? then 1 else if e.Leave? then -1 else 0
  {
    hide TraceRing.Next, TraceRing.Enabled, CallOf, ThreadAfter;
    if OfThread(e) {
      HasScope(s, e);
      ScopesStep(s.threads[e.t], e, s.accepting);
    }
  }

  lemma HasScope(s: System, e: Event)
    requires Possible(s, e) && OfThread(e)
    ensures e.t < |s.threads| && (s.threads[e.t].scopes != [] || e.Enter?)
  {
    hide TraceRing.Enabled;
  }

  lemma ScopesStep(thread: Thread, e: Event, accepting: bool)
    requires OfThread(e) && (thread.scopes != [] || e.Enter?)
    ensures |ThreadAfter(thread, e, accepting).scopes|
      == |thread.scopes| + if e.Enter? then 1 else if e.Leave? then -1 else 0
  {
    hide TopAfter;
  }

  // The final check came after hooks that could not be restored, or met a wrapper still inside.
  predicate CheckFails(events: seq<Event>, k: nat) {
    k < |events| && events[k] == FinalActiveCheck && (RestoreHooks(false) in events[..k] || Inside(events[..k]) != 0)
  }

  lemma CheckedNow(s0: System, front: seq<Event>)
    requires SystemInit(s0) && Run(s0, front).Some? && Possible(Run(s0, front).value, FinalActiveCheck)
    ensures FinalActiveCheck !in front
    ensures After(Run(s0, front).value, FinalActiveCheck).stop == Done(ActiveTimeout)
      <==> RestoreHooks(false) in front || Inside(front) != 0
  {
    hide SystemInit, StopSteps, Run, Inside;
    Scripted(s0, front);
    ActiveIsInside(s0, front);
    StepsAmong(front, FinalActiveCheck);
    StepsAmong(front, RestoreHooks(false));
  }

  lemma OtherSteps(s: System, e: Event)
    requires Possible(s, e) && !e.FinalActiveCheck?
    ensures After(s, e).stop == Done(ActiveTimeout) <==> s.stop == Done(ActiveTimeout)
  {
    hide TraceRing.Next, TraceRing.Enabled, AfterThread;
    if !OfStop(e) {
      OtherStep(s, e);
    }
  }

  // The stop reports wrappers that would not end exactly when its check failed.
  lemma {:induction false} TimeoutIsFailedCheck(s0: System, events: seq<Event>)
    requires SystemInit(s0) && Run(s0, events).Some?
    ensures Run(s0, events).value.stop == Done(ActiveTimeout) <==> exists k: nat :: CheckFails(events, k)
  {
    hide SystemInit, Possible, After, Inside, Run;
    if events == [] {
      hide *;
      NoTimeoutYet(s0);
    } else {
      var front, last := events[..|events| - 1], events[|events| - 1];
      RunLast(s0, events);
      TimeoutIsFailedCheck(s0, front);
      assert forall k: nat :: k < |front| ==> front[..k] == events[..k] && front[k] == events[k];
      assert forall k: nat :: CheckFails(front, k) ==> CheckFails(events, k);
      assert forall k: nat :: CheckFails(events, k) && k < |front| ==> CheckFails(front, k);
      if last == FinalActiveCheck {
        assert forall k: nat :: k < |front| ==> front[k] in front;
        CheckedNow(s0, front);
        assert CheckFails(events, |front|) <==> RestoreHooks(false) in front || Inside(front) != 0;
      } else {
        OtherSteps(Run(s0, front).value, last);
      }
    }
  }

  lemma NoTimeoutYet(s0: System)
    requires SystemInit(s0)
    ensures Run(s0, []) == Some(s0) && s0.stop != Done(ActiveTimeout)
    ensures forall k: nat :: !CheckFails([], k)
  {
  }

  // ---- the camera flag

  predicate ClearsCamera(e: Event) { e.StopRequested? || e.CameraFailed? || e.CameraFaulted? }

  // The flag was raised at k, and nothing has cleared it since.
  predicate RaisedAt(events: seq<Event>, k: nat) {
    && k < |events| && events[k] == RaiseCamera
    && forall m :: k < m < |events| ==> !ClearsCamera(events[m])
  }

  lemma CameraStep(s: System, e: Event)
    requires Possible(s, e)
    ensures After(s, e).camera <==> e == RaiseCamera || (s.camera && !ClearsCamera(e))
  {
    hide TraceRing.Next, TraceRing.Enabled, ThreadAfter, CallOf;
  }

  // The flag is up exactly when the bootstrap raised it after the last failure, fault and stop.
  lemma {:induction false} CameraIff(s0: System, events: seq<Event>)
    requires SystemInit(s0) && Run(s0, events).Some?
    ensures Run(s0, events).value.camera <==> exists k: nat :: RaisedAt(events, k)
  {
    hide SystemInit, Possible, After, Run, ClearsCamera;
    if events == [] {
      DownAtFirst(s0);
    } else {
      var front, last := events[..|events| - 1], events[|events| - 1];
      RunLast(s0, events);
      CameraIff(s0, front);
      CameraStep(Run(s0, front).value, last);
      assert forall k :: 0 <= k < |front| ==> front[k] == events[k];
      if last == RaiseCamera {
        assert RaisedAt(events, |front|);
      }
      if exists k: nat :: RaisedAt(front, k) {
        var k: nat :| RaisedAt(front, k);
        assert !ClearsCamera(last) ==> RaisedAt(events, k);
      }
      forall k: nat | RaisedAt(events, k) ensures k == |front| || (RaisedAt(front, k) && !ClearsCamera(last)) {
        assert k < |front| ==> !ClearsCamera(events[|front|]);
      }
    }
  }

  lemma DownAtFirst(s0: System)
    requires SystemInit(s0)
    ensures Run(s0, []) == Some(s0) && !s0.camera
  {
  }
}
