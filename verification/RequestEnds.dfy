// How old the requests are that the render thread accepts, and what is left when the bridge stops.
module RequestEnds {
  import opened Wrappers
  import opened Seqlock
  import opened RequestPipeline
  import opened RequestProofs

  // ---- age

  // The request was published by the worker as its snapshot k + 1, at a time that the check found
  // neither in the future nor more than the allowed age ago.
  predicate Recent(p: Pipe, i: nat, k: nat) {
    && i < |p.outputs| && i < |p.checks| && k < |p.sources| && k < |p.stamps| && p.sources[k] < |p.shared.log|
    && p.outputs[i] == p.shared.log[p.sources[k]]
    && p.stamps[k] <= p.checks[i].now && p.checks[i].now - p.stamps[k] <= p.checks[i].maxAge
  }

  predicate OutputIsRecent(p: Pipe, i: nat) {
    i < |p.outputs| ==>
      && i < |p.shown|
      && ((p.shown[i] > 1 && Recent(p, i, p.shown[i] - 2)) || Lapped(p, p.shown[i]))
  }

  lemma SeenIsRecent(p: Pipe, i: nat)
    requires i < |p.outputs| && |p.shown| == |p.checks| == |p.outputs|
    requires Seen(p, p.outputs[i], p.shown[i], p.checks[i])
    ensures OutputIsRecent(p, i)
  {
  }

  // The clocks are those of the steps: each check is one RenderRecheck of the run, and each time of
  // publication one WorkerRecheck.
  ghost predicate Clocked(p: Pipe, p': Pipe, steps: seq<Step>) {
    && (forall c <- p'.checks ::
          c in p.checks || RenderRecheck(c.now, c.maxAge) in steps || (p.renderer.Checked? && c == p.renderer.check))
    && (forall t <- p'.stamps :: t in p.stamps || WorkerRecheck(t) in steps)
    && (p'.renderer.Checked? ==>
          || RenderRecheck(p'.renderer.check.now, p'.renderer.check.maxAge) in steps
          || (p.renderer.Checked? && p'.renderer.check == p.renderer.check))
  }

  lemma ClockedStep(session: Session, p: Pipe, step: Step)
    requires Possible(session, p, step)
    ensures Clocked(p, After(session, p, step), [step])
  {
    hide IsValidSnapshot, Accepts, Shape;
  }

  lemma ClockedOn(p: Pipe, p': Pipe, p'': Pipe, step: Step, rest: seq<Step>)
    requires Clocked(p, p', [step]) && Clocked(p', p'', rest)
    ensures Clocked(p, p'', [step] + rest)
  {
  }

  lemma {:induction false} RunClocked(session: Session, p: Pipe, steps: seq<Step>)
    requires Run(session, p, steps).Some?
    ensures Clocked(p, Run(session, p, steps).value, steps)
    decreases |steps|
  {
    hide Possible, After, Clocked;
    if steps == [] {
      NothingClocked(p);
    } else {
      var p' := After(session, p, steps[0]);
      ClockedStep(session, p, steps[0]);
      RunClocked(session, p', steps[1..]);
      ClockedOn(p, p', Run(session, p', steps[1..]).value, steps[0], steps[1..]);
      assert steps == [steps[0]] + steps[1..];
    }
  }

  lemma NothingClocked(p: Pipe)
    ensures Clocked(p, p, [])
  {
  }

  // Every request the render thread accepts was at most as old as it allowed, by the clocks of the
  // step that published it and the step that checked it, unless the attempt was lapped.
  lemma OutputsAreRecent(session: Session, p: Pipe, steps: seq<Step>, i: nat)
    requires Init(session, p) && Run(session, p, steps).Some?
    ensures var end := Run(session, p, steps).value;
      && OutputIsRecent(end, i)
      && (forall c <- end.checks :: RenderRecheck(c.now, c.maxAge) in steps)
      && (forall t <- end.stamps :: WorkerRecheck(t) in steps)
  {
    hide Init, Inv, Run, OutputIsRecent, Clocked, Seen;
    InitInv(session, p);
    RunInv(session, p, steps);
    RunClocked(session, p, steps);
    ClockedFromInit(session, p, steps);
    var end := Run(session, p, steps).value;
    OutputsSeen(session, end);
    if i < |end.outputs| {
      SeenIsRecent(end, i);
    } else {
      NoOutput(end, i);
    }
  }

  lemma ClockedFromInit(session: Session, p: Pipe, steps: seq<Step>)
    requires Init(session, p) && Run(session, p, steps).Some? && Clocked(p, Run(session, p, steps).value, steps)
    ensures var end := Run(session, p, steps).value;
      && (forall c <- end.checks :: RenderRecheck(c.now, c.maxAge) in steps)
      && (forall t <- end.stamps :: WorkerRecheck(t) in steps)
  {
    hide Run;
  }

  lemma OutputsSeen(session: Session, p: Pipe)
    requires Inv(session, p)
    ensures |p.shown| == |p.checks| == |p.outputs|
    ensures forall i :: 0 <= i < |p.outputs| ==> Seen(p, p.outputs[i], p.shown[i], p.checks[i])
  {
    hide Seen;
  }

  lemma NoOutput(p: Pipe, i: nat)
    requires i >= |p.outputs|
    ensures OutputIsRecent(p, i)
  {
  }

  // ---- the end

  predicate Ending(p: Pipe) { p.state.Stopping? || p.state.Stopped? }

  lemma EndingStep(session: Session, p: Pipe, step: Step)
    requires Possible(session, p, step) && Ending(p)
    ensures Ending(After(session, p, step)) && After(session, p, step).outputs == p.outputs
  {
    hide IsValidSnapshot, Accepts, Shape;
  }

  // Once the stop has begun nothing is accepted any more, not even by a call that has its snapshot.
  lemma {:induction false} NothingAfterStop(session: Session, p: Pipe, steps: seq<Step>)
    requires Ending(p) && Run(session, p, steps).Some?
    ensures Ending(Run(session, p, steps).value) && Run(session, p, steps).value.outputs == p.outputs
    decreases |steps|
  {
    hide Possible, After, Ending;
    if steps != [] {
      EndingStep(session, p, steps[0]);
      NothingAfterStop(session, After(session, p, steps[0]), steps[1..]);
    }
  }

  // When the bridge is Stopped the worker has ended, and the private snapshot is the empty one, for good.
  lemma StoppedIsEmpty(session: Session, p: Pipe, steps: seq<Step>)
    requires Init(session, p) && Run(session, p, steps).Some? && Run(session, p, steps).value.state.Stopped?
    ensures var end := Run(session, p, steps).value;
      end.worker.Ended? && end.private.hold == None && end.private.words == seq(session.width + 2, _ => 0)
  {
    hide Init, Inv, Run;
    InitInv(session, p);
    RunInv(session, p, steps);
    StoppedSnapshot(session, Run(session, p, steps).value);
  }

  lemma StoppedSnapshot(session: Session, p: Pipe)
    requires Inv(session, p) && p.state.Stopped?
    ensures p.worker.Ended? && p.private.hold == None && p.private.words == seq(session.width + 2, _ => 0)
  {
    hide SharedOk, RenderOk, OutputsOk, SourcesOk;
    var n := |p.private.log| - 1;
    assert IsEntry(session, p, n, p.private.log[n]);
  }
}
