// The condition on which a stop is clean, known when it begins. From any state in which the stop
// thread has just cleared the camera flag there is a way to success: every thread leaves its
// wrappers, and the writer drains the ring. Whether every success then drains, and is final,
// depends on the bootstrap's store of the flag alone.
module TraceStopClean {
  import opened Wrappers
  import opened TraceRing
  import opened TraceRingInvariant
  import opened TraceStop
  import opened TraceStopProofs
  import opened TraceStopFinal

  // ---- one thread leaves its wrappers

  function Cost(scope: Scope): nat {
    (match scope.status case Entering => 4 case Recorded => 3 case Skipped => 2 case Leaving => 1)
    + scope.events + if scope.camera == Off then 0 else 1
  }

  function Work(scopes: seq<Scope>): nat {
    if scopes == [] then 0 else Work(scopes[..|scopes| - 1]) + Cost(scopes[|scopes| - 1])
  }

  // The next event of a thread on its way out.
  function WayOut(s: System, t: nat): Event
    requires t < |s.threads| && s.threads[t].scopes != []
  {
    var top, zeros := Top(s, t), seq(s.ring.width, _ => 0);
    if top.status == Entering then SampleAccepting(t, zeros)
    else if top.status == Leaving then Leave(t)
    else if top.events > 0 then EmitDoublePass(t, zeros)
    else if top.camera == Sampled then CameraSucceeded(t)
    else if top.camera == Reporting then ReportCamera(t, zeros)
    else if top.status == Recorded then BeginLeave(t, zeros)
    else Leave(t)
  }

  // What one thread changes on its way out.
  predicate ThreadFrame(s: System, s': System, t: nat) {
    && s' == s.(ring := s'.ring, threads := s'.threads, active := s'.active)
    && RingFrame(s.ring, s'.ring, t)
    && |s'.threads| == |s.threads| && t < |s.threads| && s'.threads == s.threads[t := s'.threads[t]]
  }

  lemma {:induction false} WorkOfUpdate(scopes: seq<Scope>, scope: Scope)
    requires scopes != []
    ensures Work(scopes[|scopes| - 1 := scope]) + Cost(scopes[|scopes| - 1]) == Work(scopes) + Cost(scope)
  {
    assert scopes[|scopes| - 1 := scope][..|scopes| - 1] == scopes[..|scopes| - 1];
  }

  lemma WayOutIsPossible(s: System, t: nat)
    requires !s.accepting && AtRest(s, t) && s.threads[t].scopes != [] && WellFormed(s.ring)
    ensures var e := WayOut(s, t); Possible(s, e) && OfThread(e) && e.t == t && !e.Enter? && !e.CameraFailed? && !e.CameraFaulted?
  {
  }

  lemma WayOutIsOpen(s: System, t: nat)
    requires !s.accepting && AtRest(s, t) && s.threads[t].scopes != [] && WellFormed(s.ring)
    ensures var e := WayOut(s, t);
      && Possible(s, e) && OfThread(e) && e.t == t && !e.Enter?
      && ThreadFrame(s, After(s, e), t)
  {
    hide WayOut, Possible, ThreadAfter, CallOf;
    WayOutIsPossible(s, t);
    CallIsPossible(s, WayOut(s, t));
  }

  lemma CallIsPossible(s: System, e: Event)
    requires Possible(s, e) && OfThread(e)
    ensures var call := CallOf(s.threads[e.t], e, s.accepting);
      call.Some? ==> TraceRing.Enabled(s.ring, Call(e.t, call.value))
  {
    hide TraceRing.Enabled;
  }

  lemma WayOutShortens(s: System, t: nat)
    requires t < |s.threads| && s.threads[t].scopes != [] && !s.accepting
    ensures Work(ThreadAfter(s.threads[t], WayOut(s, t), s.accepting).scopes) < Work(s.threads[t].scopes)
  {
    var e := WayOut(s, t);
    if !e.Leave? {
      WorkOfUpdate(s.threads[t].scopes, TopAfter(Top(s, t), e, s.threads[t].depth != 0));
    }
  }

  lemma WayOutTaken(s: System, t: nat)
    requires SystemInv(s) && !s.accepting && AtRest(s, t) && s.threads[t].scopes != []
    ensures var e := WayOut(s, t);
      && Possible(s, e)
      && var s' := After(s, e);
      && SystemInv(s') && ThreadFrame(s, s', t)
      && Work(s'.threads[t].scopes) < Work(s.threads[t].scopes)
  {
    RingFacts(s);
    hide SystemInv, WayOut, ThreadFrame, ThreadAfter, Work;
    WayOutIsOpen(s, t);
    WayOutShortens(s, t);
    StepSystem(s, WayOut(s, t));
  }

  lemma RingFacts(s: System)
    requires SystemInv(s)
    ensures WellFormed(s.ring) && |s.threads| == |s.ring.producers|
    ensures s.ring.dequeue <= s.ring.enqueue
    ensures s.ring.reading.Some? ==> |s.ring.reading.value| <= s.ring.width && s.ring.dequeue < s.ring.enqueue
    ensures s.ring.reading.Some? ==> s.writer == Draining || s.writer == LastTry
  {
  }

  lemma ThreadFrameTrans(s: System, s': System, s'': System, t: nat)
    requires ThreadFrame(s, s', t) && ThreadFrame(s', s'', t)
    ensures ThreadFrame(s, s'', t)
  {
  }

  lemma {:induction false} LeaveAll(s: System, t: nat) returns (events: seq<Event>, s': System)
    requires SystemInv(s) && !s.accepting && t < |s.threads|
    ensures Run(s, events) == Some(s') && SystemInv(s') && ThreadFrame(s, s', t)
    ensures s'.ring.producers[t] == Idle && s'.threads[t].scopes == []
    decreases Work(s.threads[t].scopes)
  {
    RingFacts(s);
    hide SystemInv, Possible, After;
    var first, s1 := FinishCall(s, t);
    if s1.threads[t].scopes == [] {
      events, s' := first, s1;
    } else {
      var e := WayOut(s1, t);
      WayOutTaken(s1, t);
      var rest;
      rest, s' := LeaveAll(After(s1, e), t);
      ThreadFrameTrans(s1, After(s1, e), s', t);
      ThreadFrameTrans(s, s1, s', t);
      RunStep(s1, e, rest);
      RunAppend(s, first, [e] + rest);
      events := first + ([e] + rest);
    }
  }

  // ---- all threads leave

  predicate Gone(s: System, t: nat) {
    t < |s.threads| && t < |s.ring.producers| && s.threads[t].scopes == [] && s.ring.producers[t] == Idle
  }

  predicate SessionFrame(s: System, s': System) {
    && s' == s.(ring := s'.ring, threads := s'.threads, active := s'.active)
    && s'.ring.out == s.ring.out && s'.ring.reading == s.ring.reading && |s'.threads| == |s.threads|
  }

  lemma {:induction false} LeaveFirst(s: System, n: nat) returns (events: seq<Event>, s': System)
    requires SystemInv(s) && !s.accepting && n <= |s.threads|
    ensures Run(s, events) == Some(s') && SystemInv(s') && SessionFrame(s, s')
    ensures forall t: nat :: t < n ==> Gone(s', t)
  {
    hide SystemInv;
    if n == 0 {
      events, s' := [], s;
    } else {
      var first, s1 := LeaveFirst(s, n - 1);
      var rest;
      rest, s' := LeaveAll(s1, n - 1);
      RingFacts(s1);
      RunAppend(s, first, rest);
      events := first + rest;
      forall t: nat | t < n ensures Gone(s', t) {
        assert t < n - 1 ==> Gone(s1, t);
      }
    }
  }

  lemma AllGone(s: System)
    requires SystemInv(s) && forall t: nat :: t < |s.threads| ==> Gone(s, t)
    ensures s.active == 0
  {
    forall t: nat | t < |s.threads| ensures s.threads[t].scopes == [] {
      assert Gone(s, t);
    }
    NoOpenScopes(s.threads);
  }

  // ---- the writer drains the ring and leaves

  function Phase(writer: WriterPc): nat {
    match writer case Draining => 3 case Waiting => 2 case LastTry => 1 case Exited => 0
  }

  function Unread(r: Ring): nat {
    match r.reading
    case None => r.width + 1
    case Some(words) => if |words| <= r.width then r.width - |words| else 0
  }

  function Undrained(r: Ring): nat { if r.enqueue >= r.dequeue then r.enqueue - r.dequeue else 0 }

  function WriterStep(s: System): Event {
    match s.ring.reading
    case Some(words) => if |words| < s.ring.width then InRing(ReadWord) else WriterReleases
    case None => if s.writer == Waiting then WriterWaits else WriterPolls
  }

  predicate WriterFrame(s: System, s': System) {
    && s' == s.(ring := s'.ring, writer := s'.writer)
    && s'.ring.producers == s.ring.producers && s'.ring.claims == s.ring.claims
  }

  predicate CloserToEnd(s: System, s': System) {
    || Undrained(s'.ring) < Undrained(s.ring)
    || (Undrained(s'.ring) == Undrained(s.ring) && Unread(s'.ring) < Unread(s.ring))
    || (Undrained(s'.ring) == Undrained(s.ring) && Unread(s'.ring) == Unread(s.ring)
        && Phase(s'.writer) < Phase(s.writer))
  }

  lemma ReaderStepMoves(s: System)
    requires WellFormed(s.ring) && s.writer != Exited && s.ring.dequeue < s.ring.enqueue
    requires s.ring.reading.Some? && |s.ring.reading.value| <= s.ring.width
    requires s.writer == Draining || s.writer == LastTry
    ensures Possible(s, WriterStep(s))
    ensures WriterFrame(s, After(s, WriterStep(s))) && CloserToEnd(s, After(s, WriterStep(s)))
  {
  }

  lemma PollMoves(s: System)
    requires WellFormed(s.ring) && s.stopEvent && s.writer != Exited && s.ring.reading == None
    ensures Possible(s, WriterStep(s))
    ensures WriterFrame(s, After(s, WriterStep(s))) && CloserToEnd(s, After(s, WriterStep(s)))
  {
    hide HeadReady;
  }

  lemma WriterStepTaken(s: System)
    requires SystemInv(s) && s.stopEvent && s.writer != Exited
    ensures Possible(s, WriterStep(s))
    ensures var s' := After(s, WriterStep(s)); SystemInv(s') && WriterFrame(s, s') && CloserToEnd(s, s')
  {
    RingFacts(s);
    hide SystemInv, WriterStep, WriterFrame, CloserToEnd, After, Possible;
    if s.ring.reading.Some? {
      ReaderStepMoves(s);
    } else {
      PollMoves(s);
    }
    StepSystem(s, WriterStep(s));
  }

  lemma {:induction false} Drain(s: System) returns (events: seq<Event>, s': System)
    requires SystemInv(s) && s.stopEvent
    ensures Run(s, events) == Some(s') && SystemInv(s') && WriterFrame(s, s') && s'.writer == Exited
    decreases Undrained(s.ring), Unread(s.ring), Phase(s.writer)
  {
    hide SystemInv, Possible, After, Undrained, Unread, WriterStep;
    if s.writer == Exited {
      events, s' := [], s;
    } else {
      WriterStepTaken(s);
      var e := WriterStep(s);
      var rest;
      rest, s' := Drain(After(s, e));
      RunStep(s, e, rest);
      events := [e] + rest;
    }
  }

  // ---- from the beginning of the stop to its last wait

  // The stop thread waits for a writer that has left an empty ring, and the flag stayed down.
  predicate Drained(s: System) {
    s.writer == Exited && s.ring.out == s.ring.claims
  }

  lemma ReachesLastWait(s: System) returns (events: seq<Event>, s': System)
    requires SystemInv(s) && s.stop == CameraCleared && !s.raisedLate
    ensures Run(s, events) == Some(s') && SystemInv(s')
    ensures s'.stop == AwaitWriter && !s'.raisedLate && s'.raisePending == s.raisePending
    ensures Drained(s') && |s'.threads| == |s.threads|
  {
    var s1 := After(s, RefuseRecords);
    StepSystem(s, RefuseRecords);
    var leave, s2 := LeaveFirst(s1, |s1.threads|);
    AllGone(s2);
    var seal, s3 := Seal(s2);
    var drain;
    drain, s' := Drain(s3);
    DrainedRing(s');
    RunAppend(s2, seal, drain);
    RunAppend(s1, leave, seal + drain);
    RunStep(s, RefuseRecords, leave + (seal + drain));
    events := [RefuseRecords] + (leave + (seal + drain));
  }

  lemma Seal(s: System) returns (events: seq<Event>, s': System)
    requires SystemInv(s) && s.stop == Refusing && s.active == 0
    ensures Run(s, events) == Some(s') && SystemInv(s')
    ensures s' == s.(stop := AwaitWriter, stopEvent := true)
  {
    hide SystemInv;
    var s1 := After(s, RestoreHooks(true));
    var s2 := After(s1, FinalActiveCheck);
    s' := After(s2, SignalWriter);
    assert Run(s', []) == Some(s');
    RunStep(s2, SignalWriter, []);
    RunStep(s1, FinalActiveCheck, [SignalWriter] + []);
    RunStep(s, RestoreHooks(true), [FinalActiveCheck] + ([SignalWriter] + []));
    events := [RestoreHooks(true)] + ([FinalActiveCheck] + ([SignalWriter] + []));
    RunSystem(s, events);
  }

  lemma DrainedRing(s: System)
    requires SystemInv(s) && s.writer == Exited && !s.raisedLate
    ensures s.ring.out == s.ring.claims && s.ring.enqueue == s.ring.dequeue
  {
    assert s.ring.claims[..s.ring.dequeue] == s.ring.claims;
  }

  // ---- the theorem

  // Every way on from s that reports Ok has handed every claimed record to the writer.
  ghost predicate AlwaysDrains(s: System) {
    forall events: seq<Event> ::
      Run(s, events).Some? && Run(s, events).value.stop == Done(Ok) ==> Drained(Run(s, events).value)
  }

  // And nothing is claimed after any of them.
  ghost predicate AlwaysFinal(s: System) {
    forall events: seq<Event> ::
      Run(s, events).Some? && Run(s, events).value.stop == Done(Ok) ==> Final(Run(s, events).value)
  }

  lemma {:induction false} FlagStaysDown(s: System, events: seq<Event>)
    requires StopBegun(s.stop) && !s.raisedLate && !s.raisePending && Run(s, events).Some?
    ensures !Run(s, events).value.raisedLate && !Run(s, events).value.raisePending
    decreases |events|
  {
    if events != [] {
      FlagStaysDown(After(s, events[0]), events[1..]);
    }
  }

  lemma JoinEnds(s: System)
    requires s.stop == AwaitWriter && s.writer == Exited
    ensures Run(s, [WriterJoined] + []) == Some(s.(stop := Done(Ok)))
  {
    assert Run(After(s, WriterJoined), []) == Some(s.(stop := Done(Ok)));
    RunStep(s, WriterJoined, []);
  }

  // While the store is to come, a run reports Ok with a record that nobody has read.
  lemma UndrainedSuccess(s: System) returns (events: seq<Event>)
    requires SystemInv(s) && s.stop == CameraCleared && !s.raisedLate && s.raisePending && |s.threads| > 0
    ensures Run(s, events).Some? && Run(s, events).value.stop == Done(Ok) && !Drained(Run(s, events).value)
  {
    var wait, s1 := ReachesLastWait(s);
    DrainedRing(s1);
    var lost := NotSilentSpeaks(s1);
    var s2 := Run(s1, lost).value;
    JoinEnds(s2);
    RunAppend(s1, lost, [WriterJoined] + []);
    RunAppend(s, wait, lost + ([WriterJoined] + []));
    events := wait + (lost + ([WriterJoined] + []));
  }

  // And another one reports Ok, drained, and is not final.
  lemma PassingSuccess(s: System) returns (events: seq<Event>)
    requires SystemInv(s) && s.stop == CameraCleared && !s.raisedLate && s.raisePending && |s.threads| > 0
    ensures Run(s, events).Some? && Run(s, events).value.stop == Done(Ok) && !Final(Run(s, events).value)
  {
    var wait, s1 := ReachesLastWait(s);
    JoinEnds(s1);
    StepSystem(s1, WriterJoined);
    DrainedRing(s1);
    var s2 := s1.(stop := Done(Ok));
    var lost := NotSilentSpeaks(s2);
    LossIsNotFinal(s2, lost);
    RunAppend(s, wait, [WriterJoined] + []);
    events := wait + ([WriterJoined] + []);
  }

  // When the stop thread has cleared the camera flag: every success to come drains the ring, and
  // every success to come is final, exactly when the bootstrap's store of the flag is behind.
  lemma StopIsCleanIff(s0: System, before: seq<Event>, s: System)
    requires SystemInit(s0) && Run(s0, before) == Some(s)
    requires s.stop == CameraCleared && !s.raisedLate && |s.threads| > 0
    ensures AlwaysDrains(s) <==> !s.raisePending
    ensures AlwaysFinal(s) <==> !s.raisePending
  {
    InitSystem(s0);
    RunSystem(s0, before);
    if s.raisePending {
      var lost := UndrainedSuccess(s);
      var passing := PassingSuccess(s);
    } else {
      forall events: seq<Event> | Run(s, events).Some? && Run(s, events).value.stop == Done(Ok)
        ensures Drained(Run(s, events).value) && Final(Run(s, events).value)
      {
        CleanSuccess(s, events);
      }
    }
  }

  lemma CleanSuccess(s: System, events: seq<Event>)
    requires SystemInv(s) && StopBegun(s.stop) && !s.raisedLate && !s.raisePending
    requires Run(s, events).Some? && Run(s, events).value.stop == Done(Ok)
    ensures Drained(Run(s, events).value) && Final(Run(s, events).value)
  {
    var end := Run(s, events).value;
    RunSystem(s, events);
    FlagStaysDown(s, events);
    DrainedRing(end);
    QuietIsSilent(end);
    forall later: seq<Event> | Run(end, later).Some?
      ensures Run(end, later).value.ring.claims == end.ring.claims
    {
      NothingMore(end, later);
    }
  }

  // From every initial session with the store to come: a stop that reports Ok over a lost record.
  lemma StopCanLoseARecord(s0: System) returns (events: seq<Event>)
    requires SystemInit(s0) && s0.raisePending && |s0.threads| > 0
    ensures Run(s0, events).Some? && Run(s0, events).value.stop == Done(Ok) && !Drained(Run(s0, events).value)
  {
    InitSystem(s0);
    StepSystem(s0, StopRequested);
    var rest := UndrainedSuccess(After(s0, StopRequested));
    RunStep(s0, StopRequested, rest);
    events := [StopRequested] + rest;
  }
}
