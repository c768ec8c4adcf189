// Which records the wrappers hand to EnqueueRecord, over whole runs.
module TraceScopes {
  import opened Wrappers
  import opened TraceRing
  import opened TraceRingInvariant
  import opened TraceStop
  import opened TraceStopProofs
  import opened TraceStopEvents

  function Count(events: seq<Event>, p: Event -> bool): nat {
    if events == [] then 0
    else Count(events[..|events| - 1], p) + if p(events[|events| - 1]) then 1 else 0
  }

  // ---- sums over the open scopes

  function Over(scopes: seq<Scope>, f: Scope -> int): int {
    if scopes == [] then 0 else Over(scopes[..|scopes| - 1], f) + f(scopes[|scopes| - 1])
  }

  function Sum(threads: seq<Thread>, f: Scope -> int): int {
    if threads == [] then 0 else Over(threads[0].scopes, f) + Sum(threads[1..], f)
  }

  lemma {:induction false} SumUpdate(threads: seq<Thread>, t: nat, thread: Thread, f: Scope -> int)
    requires t < |threads|
    ensures Sum(threads[t := thread], f) == Sum(threads, f) - Over(threads[t].scopes, f) + Over(thread.scopes, f)
  {
    if t > 0 {
      assert threads[t := thread][1..] == threads[1..][t - 1 := thread];
      SumUpdate(threads[1..], t - 1, thread, f);
    } else {
      assert threads[t := thread][1..] == threads[1..];
    }
  }

  lemma {:induction false} NoScopes(threads: seq<Thread>, f: Scope -> int)
    requires forall t :: 0 <= t < |threads| ==> threads[t].scopes == []
    ensures Sum(threads, f) == 0
  {
    if threads != [] {
      NoScopes(threads[1..], f);
    }
  }

  // What an event does to the sum, through the top scope of its thread.
  function Change(thread: Thread, e: Event, accepting: bool, f: Scope -> int): int
    requires OfThread(e) && (thread.scopes != [] || e.Enter?)
  {
    if e.Enter? then f(Scope(Entering, 0, Off))
    else
      var top := thread.scopes[|thread.scopes| - 1];
      if e.Leave? then -f(top) else f(TopAfter(top, e, accepting || thread.depth != 0)) - f(top)
  }

  function Delta(s: System, e: Event, f: Scope -> int): int
    requires Possible(s, e)
  {
    if OfThread(e) then Change(s.threads[e.t], e, s.accepting, f) else 0
  }

  lemma OverStep(thread: Thread, e: Event, accepting: bool, f: Scope -> int)
    requires OfThread(e) && (thread.scopes != [] || e.Enter?)
    ensures Over(ThreadAfter(thread, e, accepting).scopes, f) == Over(thread.scopes, f) + Change(thread, e, accepting, f)
  {
    hide TopAfter;
    var scopes, scopes' := thread.scopes, ThreadAfter(thread, e, accepting).scopes;
    if e.Enter? {
      assert scopes'[..|scopes|] == scopes;
    } else if !e.Leave? {
      assert scopes'[..|scopes| - 1] == scopes[..|scopes| - 1];
    }
  }

  lemma SumStep(s: System, e: Event, f: Scope -> int)
    requires Possible(s, e)
    ensures Sum(After(s, e).threads, f) == Sum(s.threads, f) + Delta(s, e, f)
  {
    hide TraceRing.Next, TraceRing.Enabled, CallOf, ThreadAfter, Change, Sum, Over;
    if OfThread(e) {
      HasScope(s, e);
      SumUpdate(s.threads, e.t, ThreadAfter(s.threads[e.t], e, s.accepting), f);
      OverStep(s.threads[e.t], e, s.accepting, f);
    }
  }

  // Recorded, and not yet on its way out.
  function IsOpen(scope: Scope): int { if scope.status == Recorded then 1 else 0 }

  function Pending(scope: Scope): int { scope.events }

  function IsReporting(scope: Scope): int { if scope.camera == Reporting then 1 else 0 }

  // Nothing is pending in a scope that is not in its body.
  predicate Plain(scope: Scope) {
    scope.status == Entering || scope.status == Leaving ==> scope.events == 0 && scope.camera == Off
  }

  predicate PlainThread(thread: Thread) {
    forall i :: 0 <= i < |thread.scopes| ==> Plain(thread.scopes[i])
  }

  predicate AllPlain(s: System) {
    forall t :: 0 <= t < |s.threads| ==> PlainThread(s.threads[t])
  }

  lemma PlainThreadStep(s: System, e: Event)
    requires Possible(s, e) && OfThread(e) && (s.threads[e.t].scopes != [] || e.Enter?) && PlainThread(s.threads[e.t])
    ensures PlainThread(ThreadAfter(s.threads[e.t], e, s.accepting))
  {
    hide TraceRing.Enabled;
    if !e.Enter? {
      assert Plain(Top(s, e.t));
    }
  }

  lemma PlainStep(s: System, e: Event)
    requires AllPlain(s) && Possible(s, e)
    ensures AllPlain(After(s, e))
  {
    hide TraceRing.Next, TraceRing.Enabled, CallOf, ThreadAfter, PlainThread;
    if OfThread(e) {
      HasScope(s, e);
      PlainThreadStep(s, e);
    }
  }

  // ---- when a wrapper is recorded

  // The trace accepts records, or a wrapper around this one was recorded.
  ghost predicate Heard(s: System, t: nat) {
    t < |s.threads| &&
    (s.accepting || exists i :: 0 <= i < |s.threads[t].scopes| && Counted(s.threads[t].scopes[i]) == 1)
  }

  lemma {:induction false} AnyCounted(scopes: seq<Scope>)
    ensures RecordedCount(scopes) != 0 <==> exists i :: 0 <= i < |scopes| && Counted(scopes[i]) == 1
  {
    if scopes != [] {
      var front := scopes[..|scopes| - 1];
      AnyCounted(front);
      assert forall i :: 0 <= i < |front| ==> front[i] == scopes[i];
    }
  }

  lemma DepthIsHeard(s: System, t: nat)
    requires SystemInv(s) && t < |s.threads|
    ensures Heard(s, t) <==> s.accepting || s.threads[t].depth != 0
  {
    hide Inv;
    assert ThreadOk(s.threads[t], s.ring.producers[t]);
    AnyCounted(s.threads[t].scopes);
  }

  // A wrapper is recorded exactly when it is heard, and then its entry record goes to EnqueueRecord
  // at once; otherwise the ring is left alone.
  lemma EntryIsRecordedIff(s0: System, events: seq<Event>, s: System, t: nat, entry: Record)
    requires SystemInit(s0) && Run(s0, events) == Some(s) && Possible(s, SampleAccepting(t, entry))
    ensures var s' := After(s, SampleAccepting(t, entry));
      && t < |s'.threads| && s'.threads[t].scopes != [] && t < |s'.ring.producers|
      && Top(s', t).status == (if Heard(s, t) then Recorded else Skipped)
      && (if Heard(s, t) then s'.ring.producers[t] == Starting(entry) && s'.ring.calls == s.ring.calls + 1
          else s'.ring == s.ring)
    ensures s.accepting <==> TraceTimesOut !in events && RefuseRecords !in events
  {
    hide SystemInit, SystemInv;
    InitSystem(s0);
    RunSystem(s0, events);
    DepthIsHeard(s, t);
    AcceptingUntil(s0, events);
  }

  lemma {:induction false} AcceptingUntil(s0: System, events: seq<Event>)
    requires SystemInit(s0) && Run(s0, events).Some?
    ensures Run(s0, events).value.accepting <==> TraceTimesOut !in events && RefuseRecords !in events
  {
    hide SystemInit, Possible, After, Run;
    if events == [] {
      AcceptsAtFirst(s0);
    } else {
      var front, last := events[..|events| - 1], events[|events| - 1];
      RunLast(s0, events);
      AcceptingUntil(s0, front);
      AcceptingStep(Run(s0, front).value, last);
      assert events == front + [last];
    }
  }

  lemma AcceptsAtFirst(s0: System)
    requires SystemInit(s0)
    ensures Run(s0, []) == Some(s0) && s0.accepting
  {
  }

  lemma AcceptingStep(s: System, e: Event)
    requires Possible(s, e)
    ensures After(s, e).accepting <==> s.accepting && !e.TraceTimesOut? && !e.RefuseRecords?
  {
    hide TraceRing.Next, TraceRing.Enabled, ThreadAfter, CallOf;
  }

  // ---- the calls of a run

  function IsExit(): Event -> bool { (e: Event) => e.BeginLeave? }
  function IsClaim(): Event -> bool { (e: Event) => e.ClaimDoublePass? }
  function IsEmit(): Event -> bool { (e: Event) => e.EmitDoublePass? }
  function IsFailure(): Event -> bool { (e: Event) => e.CameraFailed? }
  function IsReport(): Event -> bool { (e: Event) => e.ReportCamera? }

  // Wrappers that were recorded on entry.
  ghost function Opened(s0: System, events: seq<Event>): nat {
    if events == [] then 0
    else
      var front, last := events[..|events| - 1], events[|events| - 1];
      Opened(s0, front)
      + if last.SampleAccepting? && Run(s0, front).Some? && Heard(Run(s0, front).value, last.t) then 1 else 0
  }

  ghost predicate Balanced(s0: System, events: seq<Event>, s: System) {
    && s.ring.calls == Opened(s0, events) + Count(events, IsExit()) + Count(events, IsEmit()) + Count(events, IsReport())
    && Opened(s0, events) == Count(events, IsExit()) + Sum(s.threads, IsOpen)
    && 3 * Count(events, IsClaim()) == Count(events, IsEmit()) + Sum(s.threads, Pending)
    && Count(events, IsFailure()) == Count(events, IsReport()) + Sum(s.threads, IsReporting)
  }

  lemma RingCalls(r: Ring, a: Action)
    requires TraceRing.Enabled(r, a)
    ensures TraceRing.Next(r, a).calls == r.calls + if a.Call? then 1 else 0
  {
  }

  lemma CallsStep(s: System, e: Event)
    requires SystemInv(s) && Possible(s, e)
    ensures After(s, e).ring.calls == s.ring.calls
      + if (e.SampleAccepting? && Heard(s, e.t)) || e.BeginLeave? || e.EmitDoublePass? || e.ReportCamera? then 1 else 0
  {
    hide SystemInv, TraceRing.Next, TraceRing.Enabled, Heard, ThreadAfter;
    if OfThread(e) {
      HasScope(s, e);
      DepthIsHeard(s, e.t);
      var call := CallOf(s.threads[e.t], e, s.accepting);
      if call.Some? {
        RingCalls(s.ring, Call(e.t, call.value));
      }
    } else if e.InRing? {
      RingCalls(s.ring, e.a);
    } else if e.WriterPolls? {
      RingCalls(s.ring, LoadHead);
    } else if e.WriterReleases? {
      RingCalls(s.ring, ReleaseSlot);
    }
  }

  lemma OpenStep(s: System, e: Event)
    requires SystemInv(s) && Possible(s, e)
    ensures Delta(s, e, IsOpen)
      == if e.SampleAccepting? && Heard(s, e.t) then 1 else if e.BeginLeave? then -1 else 0
  {
    hide SystemInv, TraceRing.Enabled;
    if e.SampleAccepting? {
      DepthIsHeard(s, e.t);
    }
  }

  lemma PendingStep(s: System, e: Event)
    requires AllPlain(s) && Possible(s, e)
    ensures Delta(s, e, Pending) == if e.ClaimDoublePass? then 3 else if e.EmitDoublePass? then -1 else 0
    ensures Delta(s, e, IsReporting) == if e.CameraFailed? then 1 else if e.ReportCamera? then -1 else 0
  {
    hide TraceRing.Enabled;
    if OfThread(e) && !e.Enter? {
      assert Plain(Top(s, e.t));
    }
  }

  lemma BalancedStep(s0: System, events: seq<Event>, s: System)
    requires events != [] && Run(s0, events[..|events| - 1]) == Some(s) && SystemInv(s) && AllPlain(s)
    requires Balanced(s0, events[..|events| - 1], s) && Possible(s, events[|events| - 1])
    ensures Balanced(s0, events, After(s, events[|events| - 1]))
  {
    hide SystemInv, AllPlain, Possible, After, Delta, Heard, Sum, Run;
    var e := events[|events| - 1];
    CallsStep(s, e);
    OpenStep(s, e);
    PendingStep(s, e);
    SumStep(s, e, IsOpen);
    SumStep(s, e, Pending);
    SumStep(s, e, IsReporting);
  }

  lemma {:induction false} RunBalanced(s0: System, events: seq<Event>)
    requires SystemInit(s0) && Run(s0, events).Some?
    ensures AllPlain(Run(s0, events).value) && Balanced(s0, events, Run(s0, events).value)
  {
    hide SystemInit, SystemInv, Possible, After, Balanced, AllPlain, Run;
    if events == [] {
      BalancedAtFirst(s0);
    } else {
      var front, last := events[..|events| - 1], events[|events| - 1];
      RunLast(s0, events);
      InitSystem(s0);
      RunSystem(s0, front);
      RunBalanced(s0, front);
      BalancedStep(s0, events, Run(s0, front).value);
      PlainStep(Run(s0, front).value, last);
    }
  }

  lemma BalancedAtFirst(s0: System)
    requires SystemInit(s0)
    ensures Run(s0, []) == Some(s0) && AllPlain(s0) && Balanced(s0, [], s0)
  {
    NoScopes(s0.threads, IsOpen);
    NoScopes(s0.threads, Pending);
    NoScopes(s0.threads, IsReporting);
  }

  // Every call of EnqueueRecord is the entry or the exit of a recorded wrapper, one of the three
  // records of a claimed double pass, or the report of a failed camera. Once all wrappers have been
  // left, each recorded one has made exactly one call on entry and one on exit.
  lemma ScopesAreRecordedOnce(s0: System, events: seq<Event>, s: System)
    requires SystemInit(s0) && Run(s0, events) == Some(s)
    ensures s.ring.calls == Opened(s0, events) + Count(events, IsExit()) + Count(events, IsEmit()) + Count(events, IsReport())
    ensures Count(events, IsExit()) <= Opened(s0, events)
    ensures (forall t :: 0 <= t < |s.threads| ==> s.threads[t].scopes == []) ==>
      && Count(events, IsExit()) == Opened(s0, events)
      && Count(events, IsEmit()) == 3 * Count(events, IsClaim())
      && Count(events, IsReport()) == Count(events, IsFailure())
  {
    hide SystemInit, Opened, Count, Run;
    RunBalanced(s0, events);
    OpenNotNegative(s.threads);
    if forall t :: 0 <= t < |s.threads| ==> s.threads[t].scopes == [] {
      NoScopes(s.threads, IsOpen);
      NoScopes(s.threads, Pending);
      NoScopes(s.threads, IsReporting);
    }
  }

  lemma {:induction false} OpenNotNegative(threads: seq<Thread>)
    ensures Sum(threads, IsOpen) >= 0
  {
    if threads != [] {
      OverNotNegative(threads[0].scopes);
      OpenNotNegative(threads[1..]);
    }
  }

  lemma OverNotNegative(scopes: seq<Scope>)
    ensures Over(scopes, IsOpen) >= 0
  {
  }
}
