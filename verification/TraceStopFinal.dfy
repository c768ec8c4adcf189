// When a successful stop is final: which states after it can still put a record into the ring that
// the exited writer never reads.
module TraceStopFinal {
  import opened Wrappers
  import opened TraceRing
  import opened TraceRingInvariant
  import opened TraceStop
  import opened TraceStopProofs

  // No continuation of the run ever claims another ticket.
  ghost predicate Final(s: System) {
    forall later: seq<Event> :: Run(s, later).Some? ==> Run(s, later).value.ring.claims == s.ring.claims
  }

  predicate Full(r: Ring) { r.enqueue == r.dequeue + r.capacity }

  // A call of EnqueueRecord that claims a ticket when it is left alone and the ring is not full:
  // it is about to win a compare-exchange, or has an attempt left after the next reload.
  predicate WillClaim(p: Producer, enqueue: int) {
    match p
    case Idle => false
    case Starting(_) => true
    case Looking(_, attempt, position, _) =>
      attempt < MAX_ATTEMPTS && (position == enqueue || attempt + 1 < MAX_ATTEMPTS)
    case Deciding(_, attempt, position, _, sequence, _) =>
      sequence >= position && ((sequence == position == enqueue) || attempt + 1 < MAX_ATTEMPTS)
    case Copying(_, _, _) => false
  }

  // Nothing is left on the thread that leads to a record.
  predicate SilentThread(thread: Thread, p: Producer, enqueue: int) {
    !WillClaim(p, enqueue) && forall i :: 0 <= i < |thread.scopes| ==> thread.scopes[i].camera == Off
  }

  predicate Silent(s: System) {
    && !s.camera && !s.raisePending && |s.threads| == |s.ring.producers|
    && forall t :: 0 <= t < |s.threads| ==> SilentThread(s.threads[t], s.ring.producers[t], s.ring.enqueue)
  }

  // ---- a full ring, and a silent session, stay as they are

  predicate Stopped(s: System) {
    SystemInv(s) && s.stop == Done(Ok)
  }

  lemma StoppedStep(s: System, e: Event)
    requires Stopped(s) && Possible(s, e)
    ensures Stopped(After(s, e)) && After(s, e).ring.dequeue == s.ring.dequeue
    ensures After(s, e).ring.capacity == s.ring.capacity && After(s, e).ring.out == s.ring.out
  {
    StepSystem(s, e);
  }

  lemma FullStep(s: System, e: Event)
    requires Stopped(s) && Possible(s, e) && Full(s.ring)
    ensures After(s, e).ring.claims == s.ring.claims && After(s, e).ring.enqueue == s.ring.enqueue
  {
    if e.InRing? && e.a.CompareExchange? {
      assert ProducerOk(s.ring, s.ring.producers[e.a.t]);
    }
  }

  lemma SilentRingStep(s: System, a: Action)
    requires Stopped(s) && Possible(s, InRing(a)) && Silent(s)
    ensures Silent(After(s, InRing(a))) && After(s, InRing(a)).ring.claims == s.ring.claims
  {
    var s' := After(s, InRing(a));
    assert SilentThread(s.threads[a.t], s.ring.producers[a.t], s.ring.enqueue);
    assert ProducerOk(s.ring, s.ring.producers[a.t]);
    forall t | 0 <= t < |s'.threads| ensures SilentThread(s'.threads[t], s'.ring.producers[t], s'.ring.enqueue) {
      assert SilentThread(s.threads[t], s.ring.producers[t], s.ring.enqueue);
    }
  }

  lemma SilentThreadStep(s: System, e: Event)
    requires Stopped(s) && Possible(s, e) && OfThread(e) && Silent(s)
    ensures Silent(After(s, e)) && After(s, e).ring == s.ring
  {
    var s' := After(s, e);
    assert SilentThread(s.threads[e.t], s.ring.producers[e.t], s.ring.enqueue) && CameraOnly(s.threads[e.t]);
    forall t | 0 <= t < |s'.threads| ensures SilentThread(s'.threads[t], s'.ring.producers[t], s'.ring.enqueue) {
      assert SilentThread(s.threads[t], s.ring.producers[t], s.ring.enqueue);
    }
  }

  lemma {:induction false} NothingMore(s: System, events: seq<Event>)
    requires Stopped(s) && (Full(s.ring) || Silent(s)) && Run(s, events).Some?
    ensures Run(s, events).value.ring.claims == s.ring.claims
    decreases |events|
  {
    if events != [] {
      var e := events[0];
      StoppedStep(s, e);
      if Full(s.ring) {
        FullStep(s, e);
      } else if e.InRing? {
        SilentRingStep(s, e.a);
      } else if OfThread(e) {
        SilentThreadStep(s, e);
      }
      NothingMore(After(s, e), events[1..]);
    }
  }

  // ---- anything else leads to a record nobody reads

  // The run extends s, claims a ticket, and hands nothing to the writer.
  predicate LosesRecord(s: System, events: seq<Event>) {
    && Run(s, events).Some?
    && var s' := Run(s, events).value;
    && |s'.ring.claims| > |s.ring.claims| && s'.ring.out == s.ring.out
    && s'.stop == s.stop && s'.writer == s.writer
  }

  lemma Prepend(s: System, e: Event, rest: seq<Event>)
    requires Possible(s, e) && After(s, e).ring.claims == s.ring.claims && After(s, e).ring.out == s.ring.out
    requires After(s, e).stop == s.stop && After(s, e).writer == s.writer
    requires LosesRecord(After(s, e), rest)
    ensures LosesRecord(s, [e] + rest)
  {
    RunStep(s, e, rest);
  }

  function Effort(p: Producer, width: nat): nat {
    match p
    case Idle => 0
    case Copying(_, _, copied) => if copied <= width then width - copied + 1 else 0
    case Looking(_, attempt, _, _) => width + 3 + if attempt <= MAX_ATTEMPTS then 2 * (MAX_ATTEMPTS - attempt) else 0
    case Deciding(_, attempt, _, _, _, _) => width + 2 + if attempt < MAX_ATTEMPTS then 2 * (MAX_ATTEMPTS - attempt) else 0
    case Starting(_) => width + 4 + 2 * MAX_ATTEMPTS
  }

  // The next step of a thread inside EnqueueRecord.
  function NextAction(p: Producer, t: nat, width: nat): Action {
    match p
    case Idle => LoadPosition(t)
    case Starting(_) => LoadPosition(t)
    case Looking(_, attempt, _, _) => if attempt < MAX_ATTEMPTS then LoadSequence(t) else DropExhausted(t)
    case Deciding(_, _, position, _, sequence, _) =>
      if sequence == position then CompareExchange(t) else if sequence < position then DropFull(t) else Reload(t)
    case Copying(_, _, copied) => if copied < width then CopyWord(t) else PublishSlot(t)
  }

  // What the steps of one thread inside EnqueueRecord leave alone.
  predicate RingFrame(r: Ring, r': Ring, t: nat) {
    && r'.capacity == r.capacity && r'.width == r.width && r'.dequeue == r.dequeue
    && r'.out == r.out && r'.reading == r.reading && r.claims <= r'.claims
    && |r'.producers| == |r.producers| && t < |r.producers|
    && r'.producers == r.producers[t := r'.producers[t]]
  }

  lemma RingActionTaken(r: Ring, t: nat)
    requires Shape(r) && t < |r.producers| && r.producers[t] != Idle && ProducerOk(r, r.producers[t])
    ensures var a := NextAction(r.producers[t], t, r.width);
      && Enabled(r, a) && !a.Call? && !a.LoadHead? && !a.ReleaseSlot?
      && RingFrame(r, Next(r, a), t)
      && Effort(Next(r, a).producers[t], r.width) < Effort(r.producers[t], r.width)
  {
  }

  lemma ActionTaken(s: System, t: nat)
    requires SystemInv(s) && t < |s.ring.producers| && s.ring.producers[t] != Idle
    ensures var a := NextAction(s.ring.producers[t], t, s.ring.width);
      && Possible(s, InRing(a))
      && var s' := After(s, InRing(a));
      && s' == s.(ring := s'.ring) && RingFrame(s.ring, s'.ring, t) && SystemInv(s')
      && Effort(s'.ring.producers[t], s.ring.width) < Effort(s.ring.producers[t], s.ring.width)
  {
    var a := NextAction(s.ring.producers[t], t, s.ring.width);
    RingFacts(s, t);
    hide SystemInv, Shape, ProducerOk, RingFrame, Effort, NextAction, Enabled, Next;
    RingActionTaken(s.ring, t);
    StepSystem(s, InRing(a));
  }

  lemma RingFacts(s: System, t: nat)
    requires SystemInv(s) && t < |s.ring.producers|
    ensures Shape(s.ring) && ProducerOk(s.ring, s.ring.producers[t])
  {
  }

  lemma FrameTrans(r: Ring, r': Ring, r'': Ring, t: nat)
    requires RingFrame(r, r', t) && RingFrame(r', r'', t)
    ensures RingFrame(r, r'', t)
  {
  }

  // Left alone in a ring that is not full, such a call claims its ticket.
  lemma ActionKeepsClaim(r: Ring, t: nat)
    requires Inv(r) && t < |r.producers| && !Full(r)
    requires WillClaim(r.producers[t], r.enqueue)
    ensures var a := NextAction(r.producers[t], t, r.width);
      && Enabled(r, a)
      && var r' := Next(r, a);
      || |r'.claims| > |r.claims|
      || (r'.claims == r.claims && r'.enqueue == r.enqueue && WillClaim(r'.producers[t], r'.enqueue))
  {
    var p := r.producers[t];
    assert ProducerOk(r, p);
    if p.Looking? {
      LoadKeepsClaim(r, t);
    }
  }

  lemma LoadKeepsClaim(r: Ring, t: nat)
    requires Inv(r) && t < |r.producers| && !Full(r) && r.producers[t].Looking?
    requires WillClaim(r.producers[t], r.enqueue)
    ensures Enabled(r, LoadSequence(t))
    ensures var r' := Next(r, LoadSequence(t));
      r'.claims == r.claims && r'.enqueue == r.enqueue && WillClaim(r'.producers[t], r'.enqueue)
  {
    assert ProducerOk(r, r.producers[t]);
    assert TicketOk(r, r.enqueue);
    StepInv(r, LoadSequence(t));
    var r' := Next(r, LoadSequence(t));
    hide Inv;
    LoadedOk(r', t);
  }

  lemma LoadedOk(r: Ring, t: nat)
    requires Inv(r) && t < |r.producers|
    ensures Shape(r) && ProducerOk(r, r.producers[t])
  {
  }

  lemma {:induction false} ClaimAlone(s: System, t: nat) returns (events: seq<Event>)
    requires SystemInv(s) && t < |s.ring.producers| && !Full(s.ring)
    requires WillClaim(s.ring.producers[t], s.ring.enqueue)
    ensures LosesRecord(s, events)
    decreases Effort(s.ring.producers[t], s.ring.width)
  {
    var e := InRing(NextAction(s.ring.producers[t], t, s.ring.width));
    ActionTaken(s, t);
    ActionKeepsClaim(s.ring, t);
    var s' := After(s, e);
    if |s'.ring.claims| > |s.ring.claims| {
      assert Run(s', []) == Some(s');
      RunStep(s, e, []);
      events := [e] + [];
    } else {
      var rest := ClaimAlone(s', t);
      Prepend(s, e, rest);
      events := [e] + rest;
    }
  }

  // In any case the call comes to an end.
  lemma {:induction false} FinishCall(s: System, t: nat) returns (events: seq<Event>, s': System)
    requires SystemInv(s) && t < |s.ring.producers|
    ensures Run(s, events) == Some(s') && SystemInv(s')
    ensures s' == s.(ring := s'.ring) && RingFrame(s.ring, s'.ring, t) && s'.ring.producers[t] == Idle
    decreases Effort(s.ring.producers[t], s.ring.width)
  {
    hide SystemInv, Possible, After, Effort, NextAction;
    if s.ring.producers[t] == Idle {
      events, s' := [], s;
    } else {
      var e := InRing(NextAction(s.ring.producers[t], t, s.ring.width));
      ActionTaken(s, t);
      var s1 := After(s, e);
      var rest;
      rest, s' := FinishCall(s1, t);
      FrameTrans(s.ring, s1.ring, s'.ring, t);
      RunStep(s, e, rest);
      events := [e] + rest;
    }
  }

  // ---- the camera path of one thread, once records are refused

  // A scope of the thread is on the camera path, or the flag lets the thread on to it.
  predicate MaySpeak(s: System, t: nat)
    requires t < |s.threads|
  {
    s.camera || exists i :: 0 <= i < |s.threads[t].scopes| && s.threads[t].scopes[i].camera != Off
  }

  predicate Ready(s: System, t: nat) {
    && SystemInv(s) && !s.accepting && !Full(s.ring) && AtRest(s, t) && CameraOnly(s.threads[t])
  }

  lemma Report(s: System, t: nat) returns (events: seq<Event>)
    requires Ready(s, t) && InBody(s, t) && Top(s, t).camera == Reporting
    ensures LosesRecord(s, events)
  {
    var e := ReportCamera(t, seq(s.ring.width, _ => 0));
    StepSystem(s, e);
    var rest := ClaimAlone(After(s, e), t);
    Prepend(s, e, rest);
    events := [e] + rest;
  }

  lemma FailCamera(s: System, t: nat) returns (events: seq<Event>)
    requires Ready(s, t) && InBody(s, t) && Top(s, t).camera == Sampled
    ensures LosesRecord(s, events)
  {
    StepSystem(s, CameraFailed(t));
    var rest := Report(After(s, CameraFailed(t)), t);
    Prepend(s, CameraFailed(t), rest);
    events := [CameraFailed(t)] + rest;
  }

  lemma TakeCamera(s: System, t: nat) returns (events: seq<Event>)
    requires Ready(s, t) && InBody(s, t) && Top(s, t).camera == Off && s.camera
    ensures LosesRecord(s, events)
  {
    StepSystem(s, SampleCamera(t));
    var rest := FailCamera(After(s, SampleCamera(t)), t);
    Prepend(s, SampleCamera(t), rest);
    events := [SampleCamera(t)] + rest;
  }

  lemma {:induction false} SpeakFromBody(s: System, t: nat) returns (events: seq<Event>)
    requires Ready(s, t) && InBody(s, t) && MaySpeak(s, t)
    ensures LosesRecord(s, events)
    decreases |s.threads[t].scopes|, 0
  {
    var n := |s.threads[t].scopes| - 1;
    if Top(s, t).camera == Reporting {
      events := Report(s, t);
    } else if Top(s, t).camera == Sampled {
      events := FailCamera(s, t);
    } else if s.camera {
      events := TakeCamera(s, t);
    } else {
      var s' := After(s, Leave(t));
      StepSystem(s, Leave(t));
      assert s'.threads[t].scopes == s.threads[t].scopes[..n];
      var rest := Speak(s', t);
      Prepend(s, Leave(t), rest);
      events := [Leave(t)] + rest;
    }
  }

  lemma {:induction false} Speak(s: System, t: nat) returns (events: seq<Event>)
    requires Ready(s, t) && s.threads[t].scopes != [] && MaySpeak(s, t)
    ensures LosesRecord(s, events)
    decreases |s.threads[t].scopes|, 1
  {
    if Top(s, t).status == Skipped {
      events := SpeakFromBody(s, t);
    } else {
      var e := SampleAccepting(t, seq(s.ring.width, _ => 0));
      var s' := After(s, e);
      StepSystem(s, e);
      KeepsSpeaking(s, s', t);
      var rest := SpeakFromBody(s', t);
      Prepend(s, e, rest);
      events := [e] + rest;
    }
  }

  lemma KeepsSpeaking(s: System, s': System, t: nat)
    requires t < |s.threads| && t < |s'.threads| && MaySpeak(s, t) && s'.camera == s.camera
    requires |s'.threads[t].scopes| == |s.threads[t].scopes|
    requires forall i :: 0 <= i < |s.threads[t].scopes| ==> s'.threads[t].scopes[i].camera == s.threads[t].scopes[i].camera
    ensures MaySpeak(s', t)
  {
  }

  // A thread at rest that may speak does, entering a wrapper first if it is in none.
  lemma SpeakAtRest(s: System, t: nat) returns (events: seq<Event>)
    requires Ready(s, t) && MaySpeak(s, t)
    ensures LosesRecord(s, events)
  {
    if s.threads[t].scopes == [] {
      var s' := After(s, Enter(t));
      StepSystem(s, Enter(t));
      var rest := Speak(s', t);
      Prepend(s, Enter(t), rest);
      events := [Enter(t)] + rest;
    } else {
      events := Speak(s, t);
    }
  }

  // A thread inside EnqueueRecord comes out of it first, unless that already claims a ticket.
  lemma SpeakAnyhow(s: System, t: nat) returns (events: seq<Event>)
    requires SystemInv(s) && PastCheck(s.stop) && !Full(s.ring) && t < |s.threads| && MaySpeak(s, t)
    ensures LosesRecord(s, events)
  {
    var first, s' := FinishCall(s, t);
    if |s'.ring.claims| > |s.ring.claims| {
      events := first;
    } else {
      assert s'.ring.claims == s.ring.claims && s'.ring.enqueue == s.ring.enqueue;
      var rest := SpeakAtRest(s', t);
      RunAppend(s, first, rest);
      events := first + rest;
    }
  }

  lemma NotSilentSpeaks(s: System) returns (events: seq<Event>)
    requires SystemInv(s) && PastCheck(s.stop) && !Full(s.ring) && !Silent(s) && |s.threads| > 0
    ensures LosesRecord(s, events)
  {
    if s.camera {
      events := SpeakAnyhow(s, 0);
    } else if s.raisePending {
      StepSystem(s, RaiseCamera);
      var rest := SpeakAnyhow(After(s, RaiseCamera), 0);
      Prepend(s, RaiseCamera, rest);
      events := [RaiseCamera] + rest;
    } else {
      var t :| 0 <= t < |s.threads| && !SilentThread(s.threads[t], s.ring.producers[t], s.ring.enqueue);
      if WillClaim(s.ring.producers[t], s.ring.enqueue) {
        events := ClaimAlone(s, t);
      } else {
        events := SpeakAnyhow(s, t);
      }
    }
  }

  // After a stop that reported Ok, success is final exactly when the ring is full for good or the
  // session is silent: no thread is on its way to a ticket, none is on the camera path, and the
  // flag neither is nor can come up. When the flag stayed down since the stop began, that is the
  // case exactly when the bootstrap's store of it is no longer to come.
  lemma SuccessIsFinalIff(s0: System, events: seq<Event>, s: System)
    requires SystemInit(s0) && Run(s0, events) == Some(s)
    requires s.stop == Done(Ok) && |s.threads| > 0
    ensures Final(s) <==> Full(s.ring) || Silent(s)
    ensures !s.raisedLate ==> (Final(s) <==> !s.raisePending)
  {
    InitSystem(s0);
    RunSystem(s0, events);
    if Full(s.ring) || Silent(s) {
      forall later: seq<Event> | Run(s, later).Some?
        ensures Run(s, later).value.ring.claims == s.ring.claims
      {
        NothingMore(s, later);
      }
    } else {
      var lost := NotSilentSpeaks(s);
      LossIsNotFinal(s, lost);
    }
    if !s.raisedLate {
      QuietIsSilent(s);
    }
  }

  lemma LossIsNotFinal(s: System, events: seq<Event>)
    requires LosesRecord(s, events)
    ensures !Final(s)
  {
  }

  lemma QuietIsSilent(s: System)
    requires Stopped(s) && !s.raisedLate
    ensures !Full(s.ring) && (Silent(s) <==> !s.raisePending)
  {
    forall t | 0 <= t < |s.threads| ensures SilentThread(s.threads[t], s.ring.producers[t], s.ring.enqueue) {
      assert Quiet(s.threads[t], s.ring.producers[t]);
    }
  }
}
