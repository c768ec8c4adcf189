// The three parties of the request pipeline as program text, one access to shared memory after the
// other, with the other parties running in between.
module RequestBridge {
  import opened Wrappers
  import opened Seqlock
  import opened RequestPipeline
  import opened RequestProofs

  datatype Party = Host(t: nat) | Worker | Render | Control

  function PartyOf(step: Step): Party {
    if IsHostStep(step) then Host(HostOf(step))
    else if step.BecomeRunning? || step.StopBegin? || step.SignalStop? then Control
    else if IsRenderStep(step) then Render
    else Worker
  }

  function HostOf(step: Step): nat { if IsHostStep(step) then step.t else 0 }

  // What the steps of the other parties leave alone.
  predicate Kept(p: Pipe, p': Pipe, me: Party) {
    && |p'.hosts| == |p.hosts| && p.shared.log <= p'.shared.log && p.private.log <= p'.private.log && (p.stop ==> p'.stop)
    && match me
       case Host(t) => t < |p.hosts| && p'.hosts[t] == p.hosts[t] && (p.hosts[t].Writing? ==> p'.shared == p.shared)
       case Worker =>
         && p'.worker == p.worker && p'.private == p.private && p'.sources == p.sources && p'.stamps == p.stamps && p'.seen == p.seen
         && p'.lastSequence == p.lastSequence && p'.lastFrame == p.lastFrame && p'.stale == p.stale
       case Render => p'.renderer == p.renderer && p'.outputs == p.outputs && p'.shown == p.shown && p'.checks == p.checks
       case Control => true
  }

  lemma StepKeeps(session: Session, p: Pipe, step: Step, me: Party)
    requires SharedOk(session, p) && Possible(session, p, step) && PartyOf(step) != me
    requires me.Host? ==> me.t < |p.hosts|
    ensures Kept(p, After(session, p, step), me)
  {
    hide SharedOk, After, Possible, Kept;
    if IsHostStep(step) {
      HostStepKeeps(session, p, step, me);
    } else if IsRenderStep(step) {
      RenderStepKeeps(session, p, step, me);
    } else {
      WorkerStepKeeps(session, p, step, me);
    }
  }

  lemma RenderStepKeeps(session: Session, p: Pipe, step: Step, me: Party)
    requires Possible(session, p, step) && IsRenderStep(step) && PartyOf(step) != me
    requires me.Host? ==> me.t < |p.hosts|
    ensures Kept(p, After(session, p, step), me)
  {
  }

  lemma WorkerStepKeeps(session: Session, p: Pipe, step: Step, me: Party)
    requires Possible(session, p, step) && !IsHostStep(step) && !IsRenderStep(step) && me != Worker
    requires me.Host? ==> me.t < |p.hosts|
    ensures Kept(p, After(session, p, step), me)
  {
  }

  lemma HostStepKeeps(session: Session, p: Pipe, step: Step, me: Party)
    requires SharedOk(session, p) && Possible(session, p, step) && IsHostStep(step) && Host(step.t) != me
    requires me.Host? ==> me.t < |p.hosts|
    ensures Kept(p, After(session, p, step), me)
  {
    HostStepShared(session, p, step);
    if me.Host? && p.hosts[me.t].Writing? {
      WritingAlone(session, p, step, me.t);
    }
    hide SharedOk;
  }

  lemma WritingAlone(session: Session, p: Pipe, step: Step, t: nat)
    requires SharedOk(session, p) && Possible(session, p, step) && IsHostStep(step) && step.t != t
    requires t < |p.hosts| && p.hosts[t].Writing?
    ensures After(session, p, step).shared == p.shared
  {
    assert HostOk(session, p, step.t) && HostOk(session, p, t);
    NumberTells(p.shared);
    hide Ok;
  }

  class Bridge {
    const session: Session
    var p: Pipe

    ghost predicate Valid() reads this { Inv(session, p) }

    // The bootstrap of a bridge, with any number of host threads.
    constructor (session: Session, p: Pipe)
      requires Init(session, p)
      ensures Valid() && this.session == session && this.p == p
    {
      this.session, this.p := session, p;
      new;
      InitInv(session, p);
    }

    method Perform(step: Step)
      requires Valid() && Possible(session, p, step)
      modifies this
      ensures Valid() && p == After(session, old(p), step)
    {
      StepInv(session, p, step);
      p := After(session, p, step);
    }

    // The others run for a while.
    method Others(me: Party)
      requires Valid() && (me.Host? ==> me.t < |p.hosts|)
      modifies this
      ensures Valid() && Kept(old(p), p, me)
    {
      hide Inv, Possible, After, PartyOf;
      SharedShape(session, p);
      var rounds: nat := *;
      while rounds > 0
        invariant Valid() && Kept(old(p), p, me)
      {
        var step: Step := *;
        if PartyOf(step) != me && Possible(session, p, step) {
          SharedShape(session, p);
          StepKeeps(session, p, step, me);
          Perform(step);
        }
        rounds := rounds - 1;
      }
    }

    // SharedMemoryChannel::PublishRenderRequest, for host thread t.
    method PublishRenderRequest(t: nat, request: Words) returns (published: bool)
      requires Valid() && t < |p.hosts| && p.hosts[t].Out? && |request| == session.width
      modifies this
      ensures Valid() && |p.hosts| == |old(p).hosts| && p.hosts[t].Out? && old(p).shared.log <= p.shared.log
      ensures published ==> session.valid(request) && |old(p).shared.log| < |p.shared.log|
                            && p.shared.log[|p.shared.log| - 1] == request
      // A valid request is refused only for another publication, or for want of numbers.
      ensures !published && session.valid(request) ==>
        p.shared.hold.Some? || |p.shared.log| > |old(p).shared.log| || |p.shared.log| == 0x7FFF_FFFE
    {
      hide Inv, Kept;
      if !session.valid(request) {
        return false;
      }
      Enter(t, request);
      if p.hosts[t].Writing? {
        WriteAll(t, request);
        return true;
      }
      return false;
    }

    // Load the number and swap in the odd one after it.
    method Enter(t: nat, request: Words)
      requires Valid() && t < |p.hosts| && p.hosts[t].Out? && |request| == session.width && session.valid(request)
      modifies this
      ensures Valid() && |p.hosts| == |old(p).hosts| && old(p).shared.log <= p.shared.log
      ensures p.hosts[t].Out? || (p.hosts[t].Writing? && p.shared.hold == Some(Hold(request, 0)))
      ensures p.hosts[t].Out? ==>
        p.shared.hold.Some? || |p.shared.log| > |old(p).shared.log| || |p.shared.log| == Period
    {
      hide Inv, Refuses, SequenceOf;
      PipeShape(session, p);
      Perform(HostBegin(t, request));
      Others(Host(t));
      PipeShape(session, p);
      ghost var loaded := p.shared;
      Perform(HostLoad(t));
      SharedNumber(session, p);
      if p.hosts[t].Loaded? {
        Others(Host(t));
        PipeShape(session, p);
        SharedNumber(session, p);
        ghost var found := p.shared;
        Perform(HostSwap(t));
        assert found.sequence == loaded.sequence || found.hold.Some? || |found.log| > |loaded.log|;
      }
    }

    method WriteAll(t: nat, request: Words)
      requires Valid() && t < |p.hosts| && p.hosts[t].Writing? && |request| == session.width
      requires p.shared.hold == Some(Hold(request, 0))
      modifies this
      ensures Valid() && |p.hosts| == |old(p).hosts| && p.hosts[t].Out?
      ensures p.shared.log == old(p).shared.log + [request]
    {
      hide Inv;
      var copied := 0;
      while copied < session.width
        invariant 0 <= copied <= session.width && Valid() && |p.hosts| == |old(p).hosts|
        invariant p.hosts[t].Writing? && p.shared.hold == Some(Hold(request, copied)) && p.shared.log == old(p).shared.log
      {
        Others(Host(t));
        PipeShape(session, p);
        Perform(HostCopy(t));
        copied := copied + 1;
      }
      Others(Host(t));
      PipeShape(session, p);
      Perform(HostFinish(t));
    }

    // TryReadLatestRenderRequest. `seen` is the snapshot that one of the attempts accepted, `now` the
    // clock when it was checked. Until the private numbers have gone all the way round, what the
    // call returns is a publication of the host, no older than allowed, and no earlier a frame than
    // anything it returned before.
    method TryReadLatestRenderRequest(maxAge: nat)
        returns (output: Option<Words>, ghost now: nat, ghost seen: Option<Words>, ghost attempts: nat)
      requires Valid() && p.renderer.Away?
      modifies this
      ensures Valid() && p.renderer.Away?
      ensures output == None ==> p.outputs == old(p).outputs
      ensures output.Some? ==> p.state.Running? && p.outputs == old(p).outputs + [output.value]
      // Nothing is returned without a snapshot, and the search for one ends with the bridge or after
      // 64 attempts.
      ensures seen == None ==> output == None && (attempts == 64 || (attempts == 0 && !p.state.Running?))
      // A snapshot is returned exactly when the bridge still runs and it is marked valid, valid for
      // the session, not from the future, and not too old.
      ensures seen.Some? ==>
        && |seen.value| == session.width + 2 && 0 < attempts <= 64
        && (output.Some? <==>
              && p.state.Running? && seen.value[session.width + 1] == 1 && session.valid(seen.value[..session.width])
              && seen.value[session.width] <= now <= seen.value[session.width] + maxAge)
        && (output.Some? ==> output.value == seen.value[..session.width])
      ensures |p.private.log| <= 0x7FFF_FFFE ==>
        && (seen.Some? ==> seen.value in p.private.log)
        && (output.Some? ==>
              && output.value in p.shared.log && ValidRequest(session, output.value)
              && forall earlier <- old(p).outputs :: session.frameId(earlier) <= session.frameId(output.value))
    {
      hide Inv;
      output, now, seen, attempts := None, 0, None, 0;
      Others(Render);
      if !p.state.Running? {
        return;
      }
      PipeShape(session, p);
      Perform(RenderBegin);
      var tries := 0;
      while tries < Tries && p.renderer.RLoading?
        invariant 0 <= tries <= Tries && Valid() && p.outputs == old(p).outputs
        invariant match p.renderer
                  case Away => seen.Some? || tries == 64
                  case RLoading(k) => k == tries < Tries && seen == None
                  case RCopying(_, _) => false
                  case Checked(_, _, _) => seen.Some?
        invariant seen.Some? ==> tries > 0 && Decided(seen.value, now, maxAge)
        invariant seen.Some? && |p.private.log| <= Period ==> seen.value in p.private.log
      {
        now, seen := TryOnce(maxAge);
        tries := tries + 1;
      }
      attempts := tries;
      if p.renderer.Away? {
        return;
      }
      Others(Render);
      PipeShape(session, p);
      var request, running := p.renderer.request, p.state.Running?;
      Perform(RenderFinish);
      if !running {
        return;
      }
      if |p.private.log| <= Period {
        OutputFacts(session, p);
      }
      assert old(p).outputs == p.outputs[..|p.outputs| - 1];
      output := Some(request);
    }

    // The render thread holds the request of this snapshot exactly when it is one to show.
    predicate Decided(words: Words, now: nat, maxAge: nat) reads this {
      && |words| == session.width + 2
      && (p.renderer.Checked? <==>
            && words[session.width + 1] == 1 && session.valid(words[..session.width])
            && words[session.width] <= now <= words[session.width] + maxAge)
      && (p.renderer.Checked? ==> p.renderer.request == words[..session.width])
    }

    // One turn of the seqlock's loop, and the checks on what it accepts.
    method TryOnce(maxAge: nat) returns (ghost now: nat, ghost seen: Option<Words>)
      requires Valid() && p.renderer.RLoading?
      modifies this
      ensures Valid() && p.outputs == old(p).outputs && !p.renderer.RCopying?
      ensures seen == None ==>
        if old(p).renderer.tries + 1 < 64 then p.renderer == RLoading(old(p).renderer.tries + 1) else p.renderer.Away?
      ensures seen.Some? ==> !p.renderer.RLoading? && Decided(seen.value, now, maxAge)
      ensures seen.Some? && |p.private.log| <= Period ==> seen.value in p.private.log
    {
      hide Inv;
      now, seen := 0, None;
      Others(Render);
      PipeShape(session, p);
      PrivateBounds(session, p);
      Perform(RenderLoad);
      if p.renderer.RCopying? {
        CopySnapshot();
        now, seen := CheckSnapshot(maxAge);
      }
    }

    method CopySnapshot()
      requires Valid() && p.renderer.RCopying? && |p.renderer.attempt.copy| <= session.width + 2
      modifies this
      ensures Valid() && p.outputs == old(p).outputs
      ensures p.renderer.RCopying? && |p.renderer.attempt.copy| == session.width + 2
      ensures p.renderer.tries == old(p).renderer.tries
    {
      hide Inv;
      while |p.renderer.attempt.copy| < session.width + 2
        invariant Valid() && p.outputs == old(p).outputs
        invariant p.renderer.RCopying? && |p.renderer.attempt.copy| <= session.width + 2
        invariant p.renderer.tries == old(p).renderer.tries
        decreases if p.renderer.RCopying? then session.width + 2 - |p.renderer.attempt.copy| else 0
      {
        Others(Render);
        PipeShape(session, p);
        Perform(RenderRead);
      }
    }

    method CheckSnapshot(maxAge: nat) returns (ghost now: nat, ghost seen: Option<Words>)
      requires Valid() && p.renderer.RCopying? && |p.renderer.attempt.copy| == session.width + 2
      modifies this
      ensures Valid() && p.outputs == old(p).outputs && !p.renderer.RCopying?
      ensures seen == None ==>
        if old(p).renderer.tries + 1 < 64 then p.renderer == RLoading(old(p).renderer.tries + 1) else p.renderer.Away?
      ensures seen.Some? ==> !p.renderer.RLoading? && Decided(seen.value, now, maxAge)
      ensures seen.Some? && |p.private.log| <= Period ==> seen.value in p.private.log
    {
      hide Inv, Accepts, Kept;
      now, seen := 0, None;
      LetOthersRender();
      PipeShape(session, p);
      var clock: nat := *;
      if Accepts(p.private, p.renderer.attempt) {
        now, seen := clock, Some(p.renderer.attempt.copy);
        if |p.private.log| <= Period {
          AcceptedSnapshot(session, p);
        }
      }
      Perform(RenderRecheck(clock, maxAge));
    }

    // The others run; the render thread's own part stays.
    method LetOthersRender()
      requires Valid()
      modifies this
      ensures Valid() && p.renderer == old(p).renderer && p.outputs == old(p).outputs
    {
      Others(Render);
    }

    // What the worker keeps of what it has read and published.
    predicate SameBooks(before: Pipe, after: Pipe) {
      && after.sources == before.sources && after.lastSequence == before.lastSequence
      && after.lastFrame == before.lastFrame && after.stale == before.stale
    }

    // The request is what was newest in the shared slot when the turn began, or newer.
    predicate AsNew(before: Pipe, after: Pipe, request: Words) {
      exists k :: |before.shared.log| - 1 <= k < |after.shared.log| && 0 <= k && after.shared.log[k] == request
    }

    // One turn of BridgeWorker's loop, or its end once the stop event is set. `request` is what it
    // read in the shared slot, `now` the clock when it filtered that.
    method WorkerTurn() returns (ended: bool, ghost now: nat, ghost request: Option<Words>, ghost attempts: nat)
      requires Valid() && p.worker.Polling?
      modifies this
      ensures Valid() && (if ended then p.worker.Ended? && p.stop else p.worker.Polling? && !old(p).stop)
      // The end takes the snapshot back.
      ensures ended ==> SameBooks(old(p), p) && p.private.log == old(p).private.log + [seq(session.width + 2, _ => 0)]
      // It reads nothing only from an empty slot, or after 64 contended attempts.
      ensures !ended && request == None ==>
        && SameBooks(old(p), p) && p.private.log == old(p).private.log
        && (attempts == 64 || (p.shared.log == [] && p.shared.hold == None))
      // A repeat of the last sequence number is ignored, a frame that is not later is counted, and
      // any other request is published.
      ensures !ended && request.Some? ==>
        var r := request.value;
        && AsNew(old(p), p, r)
        && if session.sequence(r) == old(p).lastSequence then
             SameBooks(old(p), p) && p.private.log == old(p).private.log
           else
             && p.lastSequence == session.sequence(r)
             && if session.frameId(r) <= old(p).lastFrame then
                  && p.stale == old(p).stale + 1 && p.private.log == old(p).private.log
                  && p.sources == old(p).sources && p.lastFrame == old(p).lastFrame
                else
                  && p.stale == old(p).stale && p.private.log == old(p).private.log + [r + [now, 1]]
                  && |p.sources| == |old(p).sources| + 1 && p.lastFrame == session.frameId(r)
    {
      hide Inv;
      ended, now, request, attempts := false, 0, None, 0;
      Others(Worker);
      PipeShape(session, p);
      Perform(WorkerPoll);
      if p.worker.Invalidating? {
        WritePrivate();
        ended := true;
        return;
      }
      var tries := 0;
      while tries < Tries && p.worker.Loading?
        invariant 0 <= tries <= Tries && Valid() && old(p).shared.log <= p.shared.log
        invariant match p.worker
                  case Polling => request.Some? || tries == 64 || (p.shared.log == [] && p.shared.hold == None)
                  case Loading(k) => k == tries < Tries && request == None
                  case Publishing => request.Some?
                  case _ => false
        invariant if request.Some? then Filed(old(p), p, request.value, now) && AsNew(old(p), p, request.value)
                  else SameBooks(old(p), p) && p.private == old(p).private
      {
        now, request := ReadOnce();
        tries := tries + 1;
      }
      attempts := tries;
      if p.worker.Publishing? {
        WritePrivate();
      }
    }

    // What the filter has made of the request.
    predicate Filed(before: Pipe, after: Pipe, r: Words, now: nat) {
      if session.sequence(r) == before.lastSequence then
        SameBooks(before, after) && after.private == before.private && after.worker.Polling?
      else
        && after.lastSequence == session.sequence(r)
        && if session.frameId(r) <= before.lastFrame then
             && after.stale == before.stale + 1 && after.private == before.private && after.worker.Polling?
             && after.sources == before.sources && after.lastFrame == before.lastFrame
           else
             && after.stale == before.stale && after.private.log == before.private.log && after.worker.Publishing?
             && after.private.hold == Some(Hold(r + [now, 1], 0))
             && |after.sources| == |before.sources| + 1 && after.lastFrame == session.frameId(r)
    }

    // One attempt at the shared slot; an accepted request goes through the filter.
    method ReadOnce() returns (ghost now: nat, ghost request: Option<Words>)
      requires Valid() && p.worker.Loading?
      modifies this
      ensures Valid() && old(p).shared.log <= p.shared.log
      ensures request == None ==> SameBooks(old(p), p) && p.private == old(p).private
      ensures request == None ==>
        || p.worker == (if old(p).worker.tries + 1 < 64 then Loading(old(p).worker.tries + 1) else Polling)
        || (p.worker.Polling? && p.shared.log == [] && p.shared.hold == None)
      ensures request.Some? ==> Filed(old(p), p, request.value, now) && AsNew(old(p), p, request.value)
    {
      hide Inv;
      now, request := 0, None;
      Others(Worker);
      PipeShape(session, p);
      SharedNumber(session, p);
      Perform(WorkerLoad);
      if p.worker.Copying? {
        CopyRequest();
        now, request := FilterRequest();
      }
    }

    method CopyRequest()
      requires Valid() && p.worker.Copying? && |p.worker.attempt.copy| <= session.width
      modifies this
      ensures Valid() && p.worker.Copying? && |p.worker.attempt.copy| == session.width
      ensures p.worker.tries == old(p).worker.tries && SameBooks(old(p), p) && p.private == old(p).private
      ensures old(p).shared.log <= p.shared.log
    {
      hide Inv;
      while |p.worker.attempt.copy| < session.width
        invariant Valid() && p.worker.Copying? && |p.worker.attempt.copy| <= session.width
        invariant p.worker.tries == old(p).worker.tries && SameBooks(old(p), p) && p.private == old(p).private
        invariant old(p).shared.log <= p.shared.log
        decreases if p.worker.Copying? then session.width - |p.worker.attempt.copy| else 0
      {
        Others(Worker);
        PipeShape(session, p);
        Perform(WorkerRead);
      }
    }

    method FilterRequest() returns (ghost now: nat, ghost request: Option<Words>)
      requires Valid() && p.worker.Copying? && |p.worker.attempt.copy| == session.width
      modifies this
      ensures Valid() && old(p).shared.log <= p.shared.log
      ensures request == None ==> SameBooks(old(p), p) && p.private == old(p).private
      ensures request == None ==>
        p.worker == if old(p).worker.tries + 1 < 64 then Loading(old(p).worker.tries + 1) else Polling
      ensures request.Some? ==> Filed(old(p), p, request.value, now) && AsNew(old(p), p, request.value)
    {
      hide Inv, Accepts, Kept;
      now, request := 0, None;
      LetOthersWork();
      PipeShape(session, p);
      AcceptedFacts(session, p);
      var clock: nat := *;
      if Accepts(p.shared, p.worker.attempt) {
        now, request := clock, Some(p.worker.attempt.copy);
        assert p.shared.log[p.worker.attempt.at - 1] == request.value;
      }
      Perform(WorkerRecheck(clock));
    }

    // The others run; the worker's own part stays.
    method LetOthersWork()
      requires Valid()
      modifies this
      ensures Valid() && p.worker == old(p).worker && SameBooks(old(p), p) && p.private == old(p).private
      ensures old(p).shared.log <= p.shared.log
    {
      Others(Worker);
    }

    // Copy the words of the private publication and finish it.
    method WritePrivate()
      requires Valid() && (p.worker.Publishing? || p.worker.Invalidating?)
      modifies this
      ensures Valid() && (if old(p).worker.Invalidating? then p.worker.Ended? else p.worker.Polling?)
      ensures SameBooks(old(p), p) && old(p).shared.log <= p.shared.log
      ensures old(p).private.hold.Some? && p.private.log == old(p).private.log + [old(p).private.hold.value.frame]
      ensures old(p).stop ==> p.stop
    {
      hide Inv;
      PrivateBounds(session, p);
      while p.private.hold.value.copied < session.width + 2
        invariant Valid() && p.worker == old(p).worker && p.private.hold.Some? && p.private.hold.value.copied <= session.width + 2
        invariant SameBooks(old(p), p) && old(p).shared.log <= p.shared.log && (old(p).stop ==> p.stop)
        invariant p.private.log == old(p).private.log && p.private.hold.value.frame == old(p).private.hold.value.frame
        decreases if p.private.hold.Some? then session.width + 2 - p.private.hold.value.copied else 0
      {
        Others(Worker);
        PipeShape(session, p);
        Perform(PrivateCopy);
      }
      Others(Worker);
      PipeShape(session, p);
      PrivateBounds(session, p);
      Perform(PrivateFinish);
    }
  }

  lemma SharedShape(session: Session, p: Pipe)
    requires Inv(session, p)
    ensures SharedOk(session, p)
  {
  }

  lemma PipeShape(session: Session, p: Pipe)
    requires Inv(session, p)
    ensures Shape(session, p)
    ensures forall t :: 0 <= t < |p.hosts| && p.hosts[t].Writing? ==> p.shared.hold.Some?
  {
    forall t | 0 <= t < |p.hosts| && p.hosts[t].Writing? ensures p.shared.hold.Some? {
      assert HostOk(session, p, t);
    }
  }

  lemma PrivateBounds(session: Session, p: Pipe)
    requires Inv(session, p)
    ensures Started(p.private) <= |p.private.log| + 1
    ensures p.private.hold.Some? ==> p.private.hold.value.copied <= session.width + 2
    ensures p.worker.Publishing? || p.worker.Invalidating? ==> p.private.hold.Some? && !p.closing
    ensures p.private.sequence != 0
  {
  }

  lemma SharedNumber(session: Session, p: Pipe)
    requires Inv(session, p)
    ensures |p.shared.log| <= Period
    ensures Refuses(p.shared.sequence) <==> p.shared.hold.Some? || |p.shared.log| == Period
    ensures p.shared.hold == None ==> p.shared.sequence == SequenceOf(|p.shared.log|)
    ensures p.shared.sequence == 0 <==> p.shared.log == [] && p.shared.hold == None
  {
    hide SequenceOf, Refuses;
    NumberTells(p.shared);
  }

  // What the seqlock hands out is a private publication, until the numbers have gone round.
  lemma AcceptedSnapshot(session: Session, p: Pipe)
    requires Inv(session, p) && p.renderer.RCopying? && |p.renderer.attempt.copy| == session.width + 2
    requires Accepts(p.private, p.renderer.attempt) && |p.private.log| <= Period
    ensures p.renderer.attempt.copy in p.private.log
  {
    hide SequenceOf;
    AcceptsIff(p.private, p.renderer.attempt);
    AcceptedIsWhole(p.private, p.renderer.attempt);
  }

  lemma AcceptedFacts(session: Session, p: Pipe)
    requires Inv(session, p) && p.worker.Copying? && |p.worker.attempt.copy| == session.width
    ensures Accepts(p.shared, p.worker.attempt) ==>
      && 0 < p.worker.attempt.at == |p.shared.log|
      && p.worker.attempt.copy == p.shared.log[p.worker.attempt.at - 1]
      && session.valid(p.worker.attempt.copy)
  {
    hide SequenceOf;
    if Accepts(p.shared, p.worker.attempt) {
      AcceptedRequest(session, p);
    }
  }

  lemma OutputFacts(session: Session, p: Pipe)
    requires Inv(session, p) && p.outputs != [] && |p.private.log| <= Period
    ensures p.outputs[|p.outputs| - 1] in p.shared.log && ValidRequest(session, p.outputs[|p.outputs| - 1])
    ensures forall earlier <- p.outputs[..|p.outputs| - 1] ::
      session.frameId(earlier) <= session.frameId(p.outputs[|p.outputs| - 1])
  {
  }
}
