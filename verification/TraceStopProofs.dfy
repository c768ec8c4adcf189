// When the stop thread reports success, nothing is left behind and nothing follows.
module TraceStopProofs {
  import opened Wrappers
  import opened TraceRing
  import opened TraceRingInvariant
  import opened TraceStop

  lemma {:induction false} OpenScopesUpdate(threads: seq<Thread>, t: nat, thread: Thread)
    requires t < |threads|
    ensures OpenScopes(threads[t := thread]) == OpenScopes(threads) - |threads[t].scopes| + |thread.scopes|
  {
    if t > 0 {
      assert threads[t := thread][1..] == threads[1..][t - 1 := thread];
      OpenScopesUpdate(threads[1..], t - 1, thread);
    } else {
      assert threads[t := thread][1..] == threads[1..];
    }
  }

  lemma {:induction false} ClosedThread(threads: seq<Thread>, t: nat)
    requires t < |threads|
    ensures |threads[t].scopes| <= OpenScopes(threads)
  {
    if t > 0 {
      ClosedThread(threads[1..], t - 1);
    }
  }

  lemma {:induction false} NoOpenScopes(threads: seq<Thread>)
    requires forall t :: 0 <= t < |threads| ==> threads[t].scopes == []
    ensures OpenScopes(threads) == 0
  {
    if threads != [] {
      NoOpenScopes(threads[1..]);
    }
  }

  lemma InitSystem(s: System)
    requires SystemInit(s)
    ensures SystemInv(s)
  {
    InitInv(s.ring);
    NoOpenScopes(s.threads);
  }

  // An event touches one thread; the session invariant only needs that thread checked again.
  lemma SessionFrame(s: System, s': System, t: nat)
    requires SessionInv(s) && t < |s.threads| && |s'.threads| == |s.threads|
    requires |s'.ring.producers| == |s.ring.producers| && Inv(s'.ring)
    requires s'.threads == s.threads[t := s'.threads[t]]
    requires s'.ring.producers == s.ring.producers[t := s'.ring.producers[t]]
    requires s'.active == s.active + |s'.threads[t].scopes| - |s.threads[t].scopes|
    requires ThreadOk(s'.threads[t], s'.ring.producers[t])
    ensures SessionInv(s')
  {
    hide Inv;
    OpenScopesUpdate(s.threads, t, s'.threads[t]);
    forall u | 0 <= u < |s'.threads| ensures ThreadOk(s'.threads[u], s'.ring.producers[u]) {
      assert u != t ==> ThreadOk(s.threads[u], s.ring.producers[u]);
    }
  }

  lemma ThreadEventSession(s: System, e: Event)
    requires SessionInv(s) && Possible(s, e) && OfThread(e)
    ensures SessionInv(After(s, e))
  {
    var t, s' := e.t, After(s, e);
    var call := CallOf(s.threads[t], e, s.accepting);
    assert ThreadOk(s.threads[t], s.ring.producers[t]);
    DepthMatches(s.threads[t], e, s.accepting);
    if call.Some? {
      StepInv(s.ring, Call(t, call.value));
    }
    SessionFrame(s, s', t);
  }

  lemma DepthMatches(thread: Thread, e: Event, accepting: bool)
    requires OfThread(e) && (thread.scopes != [] || e.Enter?)
    requires thread.depth == RecordedCount(thread.scopes)
    requires e.SampleAccepting? ==> thread.scopes[|thread.scopes| - 1].status == Entering
    requires e.BeginLeave? ==> thread.scopes[|thread.scopes| - 1].status == Recorded
    requires e.Leave? ==> thread.scopes[|thread.scopes| - 1].status in {Leaving, Skipped}
    ensures var thread' := ThreadAfter(thread, e, accepting); thread'.depth == RecordedCount(thread'.scopes)
  {
  }

  lemma ThreadEventStop(s: System, e: Event)
    requires SystemInv(s) && Possible(s, e) && OfThread(e)
    ensures StopInv(After(s, e))
  {
    var t, s' := e.t, After(s, e);
    if PastCheck(s.stop) && !s.raisedLate {
      assert Quiet(s.threads[t], s.ring.producers[t]);
      forall u | 0 <= u < |s'.threads| ensures Quiet(s'.threads[u], s'.ring.producers[u]) {
        assert Quiet(s.threads[u], s.ring.producers[u]);
      }
    }
  }

  lemma RingEventInv(s: System, a: Action)
    requires SystemInv(s) && Possible(s, InRing(a))
    ensures SystemInv(After(s, InRing(a)))
  {
    var s' := After(s, InRing(a));
    StepInv(s.ring, a);
    forall t | 0 <= t < |s'.threads| ensures ThreadOk(s'.threads[t], s'.ring.producers[t]) {
      assert ThreadOk(s.threads[t], s.ring.producers[t]);
    }
    if AllQuiet(s) {
      AllIdle(s);
    }
  }

  lemma AllIdle(s: System)
    requires AllQuiet(s)
    ensures forall t :: 0 <= t < |s.ring.producers| ==> s.ring.producers[t] == Idle
  {
  }

  // With every producer idle, an unpublished head slot means an empty ring.
  lemma QuietAndUnpublishedIsEmpty(r: Ring)
    requires Inv(r) && !HeadReady(r)
    requires forall t :: 0 <= t < |r.producers| ==> r.producers[t] == Idle
    ensures r.dequeue == r.enqueue
  {
    assert TicketOk(r, r.dequeue);
  }

  lemma WriterPollsInv(s: System)
    requires SystemInv(s) && Possible(s, WriterPolls)
    ensures SystemInv(After(s, WriterPolls))
  {
    var s' := After(s, WriterPolls);
    StepInv(s.ring, LoadHead);
    assert s'.threads == s.threads && s'.ring.producers == s.ring.producers;
    if s'.writer == Exited && !s.raisedLate {
      AllIdle(s);
      QuietAndUnpublishedIsEmpty(s.ring);
    }
  }

  lemma WriterReleasesInv(s: System)
    requires SystemInv(s) && Possible(s, WriterReleases)
    ensures SystemInv(After(s, WriterReleases))
  {
    var s' := After(s, WriterReleases);
    StepInv(s.ring, ReleaseSlot);
    assert s'.threads == s.threads && s'.ring.producers == s.ring.producers;
  }

  lemma StopEventInv(s: System, e: Event)
    requires SystemInv(s) && Possible(s, e)
    requires !OfThread(e) && !e.InRing? && !e.WriterPolls? && !e.WriterReleases?
    ensures SystemInv(After(s, e))
  {
    var s' := After(s, e);
    if e.FinalActiveCheck? && s'.stop == Sealed {
      forall t | 0 <= t < |s.threads| ensures Quiet(s.threads[t], s.ring.producers[t]) {
        assert ThreadOk(s.threads[t], s.ring.producers[t]);
        ClosedThread(s.threads, t);
      }
    }
  }

  lemma StepSystem(s: System, e: Event)
    requires SystemInv(s) && Possible(s, e)
    ensures SystemInv(After(s, e))
  {
    if OfThread(e) {
      ThreadEventSession(s, e);
      ThreadEventStop(s, e);
    } else if e.InRing? {
      RingEventInv(s, e.a);
    } else if e.WriterPolls? {
      WriterPollsInv(s);
    } else if e.WriterReleases? {
      WriterReleasesInv(s);
    } else {
      StopEventInv(s, e);
    }
  }

  // ---------------------------------------------------------------------------
  // Whole runs.

  function Run(s: System, events: seq<Event>): Option<System>
    decreases |events|
  {
    if events == [] then Some(s)
    else if Possible(s, events[0]) then Run(After(s, events[0]), events[1..])
    else None
  }

  lemma {:induction false} RunSystem(s: System, events: seq<Event>)
    requires SystemInv(s) && Run(s, events).Some?
    ensures SystemInv(Run(s, events).value)
    decreases |events|
  {
    if events != [] {
      StepSystem(s, events[0]);
      RunSystem(After(s, events[0]), events[1..]);
    }
  }

  // When the stop thread reports Ok and the camera flag was not raised after the stop began,
  // every record ever claimed was handed to the writer before it exited, in ticket order.
  lemma StopDrains(s0: System, events: seq<Event>, s: System)
    requires SystemInit(s0) && Run(s0, events) == Some(s)
    requires s.stop == Done(Ok) && !s.raisedLate
    ensures s.writer == Exited
    ensures s.ring.out == s.ring.claims && s.ring.dequeue == s.ring.enqueue
    ensures AllQuiet(s)
  {
    InitSystem(s0);
    RunSystem(s0, events);
    assert s.ring.claims[..s.ring.dequeue] == s.ring.claims;
  }

  // Nothing more is claimed or read once the stop has succeeded and the flag stays down.
  lemma {:induction false} NothingFollows(s: System, events: seq<Event>, s': System)
    requires SystemInv(s) && s.stop == Done(Ok) && !s.raisedLate && !s.raisePending
    requires Run(s, events) == Some(s')
    ensures s'.ring.claims == s.ring.claims && s'.ring.out == s.ring.out
    ensures s'.stop == Done(Ok) && !s'.raisedLate && !s'.raisePending
    decreases |events|
  {
    if events != [] {
      var e := events[0];
      StepSystem(s, e);
      AllIdle(s);
      NothingFollows(After(s, e), events[1..], s');
    }
  }

  lemma RunStep(s: System, e: Event, rest: seq<Event>)
    requires Possible(s, e)
    ensures Run(s, [e] + rest) == Run(After(s, e), rest)
  {
  }

  lemma {:induction false} RunAppend(s: System, first: seq<Event>, second: seq<Event>)
    requires Run(s, first).Some?
    ensures Run(s, first + second) == Run(Run(s, first).value, second)
    decreases |first|
  {
    if first == [] {
      assert first + second == second;
    } else {
      assert (first + second)[1..] == first[1..] + second;
      RunAppend(After(s, first[0]), first[1..], second);
    }
  }
}
