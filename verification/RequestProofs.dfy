// What the request pipeline keeps, and what the render thread can rely on.
module RequestProofs {
  import opened Wrappers
  import opened Division
  import opened Seqlock
  import opened RequestPipeline

  predicate ValidRequest(session: Session, request: Words) {
    |request| == session.width && session.valid(request)
  }

  // The shared slot has one writer at a time, and every publication in it is a valid request.
  predicate SharedOk(session: Session, p: Pipe) {
    && Ok(p.shared) && p.shared.width == session.width && Started(p.shared) <= Period
    && (forall f <- p.shared.log :: ValidRequest(session, f))
    && (p.shared.hold.Some? <==> p.holder.Some?)
    && (p.shared.hold.Some? ==> ValidRequest(session, p.shared.hold.value.frame))
    && (p.holder.Some? ==> p.holder.value < |p.hosts|)
    && forall t :: 0 <= t < |p.hosts| ==> HostOk(session, p, t)
  }

  predicate HostOk(session: Session, p: Pipe, t: nat)
    requires t < |p.hosts|
  {
    match p.hosts[t]
    case Out => p.holder != Some(t)
    case Wanting(request) => p.holder != Some(t) && ValidRequest(session, request)
    case Loaded(request, stable) => p.holder != Some(t) && ValidRequest(session, request) && !Refuses(stable)
    case Writing => p.holder == Some(t)
  }

  // The words private publication i is made of.
  predicate IsEntry(session: Session, p: Pipe, i: nat, words: Words) {
    if 0 < i <= |p.sources| then
      && p.sources[i - 1] < |p.shared.log| && |p.stamps| == |p.sources|
      && |words| == session.width + 2
      && words == Snapshot(p.shared.log[p.sources[i - 1]], p.stamps[i - 1])
    else words == NoSnapshot(session)
  }

  predicate PrivateOk(session: Session, p: Pipe) {
    && Ok(p.private) && p.private.width == session.width + 2
    && |p.private.log| > 0 && |p.stamps| == |p.sources|
    && (forall i :: 0 <= i < |p.private.log| ==> IsEntry(session, p, i, p.private.log[i]))
    && (p.private.hold.Some? ==> IsEntry(session, p, |p.private.log|, p.private.hold.value.frame))
  }

  // Each private snapshot comes from a later shared publication, with a greater frame id.
  predicate SourcesOk(session: Session, p: Pipe) {
    && (forall i :: 0 <= i < |p.sources| ==>
          p.sources[i] < p.seen && p.sources[i] < |p.shared.log|
          && session.frameId(p.shared.log[p.sources[i]]) <= p.lastFrame)
    && (forall i, j :: 0 <= i < j < |p.sources| ==>
          p.sources[i] < p.sources[j] < |p.shared.log|
          && session.frameId(p.shared.log[p.sources[i]]) < session.frameId(p.shared.log[p.sources[j]]))
    && p.seen <= |p.shared.log|
  }

  // Who may hold the private lock, and how its publications count up. There is one worker; after it
  // has ended, only the thread that stops the bridge is left.
  predicate PhaseOk(p: Pipe) {
    && (p.stop ==> p.state.Stopping? || p.state.Stopped?)
    && (p.private.hold.Some? <==> p.worker.Publishing? || p.worker.Invalidating? || (p.closing && p.state.Stopping?))
    && (p.worker.Publishing? || p.worker.Polling? || p.worker.Loading? || p.worker.Copying? ==>
          !p.closing && Started(p.private) == 1 + |p.sources|)
    && (p.worker.Invalidating? ==> !p.closing && p.stop && Started(p.private) == 2 + |p.sources|)
    && (p.worker.Ended? ==> p.stop && Started(p.private) == 2 + |p.sources| + if p.closing then 1 else 0)
    && (p.state.Stopped? ==> p.closing)
    && (p.closing ==> p.worker.Ended? && p.stop)
  }

  predicate WorkerOk(session: Session, p: Pipe) {
    p.worker.Copying? ==> AttemptOk(p.shared, p.worker.attempt) && p.seen <= p.worker.attempt.at
  }

  // `from` names the private publication that a request was read from.
  predicate ReadFrom(p: Pipe, request: Words, from: nat) {
    && 0 < from - 1 <= |p.sources| && p.sources[from - 2] < |p.shared.log|
    && request == p.shared.log[p.sources[from - 2]]
  }

  // The attempt began before the session's first request, and the private numbers went all the way
  // round while it lasted.
  predicate Lapped(p: Pipe, from: nat) { from == 1 && |p.private.log| > Period }

  // The snapshot was no older than allowed when it was checked.
  predicate InTime(p: Pipe, from: nat, check: Check) {
    && 0 < from - 1 <= |p.stamps|
    && p.stamps[from - 2] <= check.now <= p.stamps[from - 2] + check.maxAge
  }

  predicate Seen(p: Pipe, request: Words, from: nat, check: Check) {
    from <= |p.private.log| && ((ReadFrom(p, request, from) && InTime(p, from, check)) || Lapped(p, from))
  }

  predicate LastShown(p: Pipe, from: nat) { p.shown == [] || p.shown[|p.shown| - 1] <= from }

  predicate RenderOk(session: Session, p: Pipe) {
    match p.renderer
    case RCopying(tries, attempt) => AttemptOk(p.private, attempt) && LastShown(p, attempt.at)
    case Checked(request, from, check) => p.stop || (Seen(p, request, from, check) && LastShown(p, from))
    case _ => true
  }

  // Every output is one whole host publication, unless its attempt was lapped, and they come in order.
  predicate OutputsOk(session: Session, p: Pipe) {
    && |p.shown| == |p.checks| == |p.outputs|
    && (forall i :: 0 <= i < |p.outputs| ==> Seen(p, p.outputs[i], p.shown[i], p.checks[i]))
    && forall i, j :: 0 <= i < j < |p.outputs| ==> p.shown[i] <= p.shown[j]
  }

  ghost predicate Inv(session: Session, p: Pipe) {
    && SharedOk(session, p) && PrivateOk(session, p) && SourcesOk(session, p) && PhaseOk(p)
    && WorkerOk(session, p) && RenderOk(session, p) && OutputsOk(session, p)
  }

  lemma InitInv(session: Session, p: Pipe)
    requires Init(session, p)
    ensures Inv(session, p)
  {
  }

  // ---- the host's steps: they add to the shared log, and touch nothing else

  predicate HostMoves(p: Pipe, p': Pipe) {
    && p' == p.(shared := p'.shared, hosts := p'.hosts, holder := p'.holder)
    && Moved(p.shared, p'.shared)
  }

  lemma HostMovesInv(session: Session, p: Pipe, p': Pipe)
    requires Inv(session, p) && HostMoves(p, p') && SharedOk(session, p')
    ensures Inv(session, p')
  {
    hide Moved, Ok, Snapshot, NoSnapshot, AttemptOk;
    LogGrows(p, p');
    PrivateKept(session, p, p');
    SourcesKept(session, p, p');
    OutputsKept(session, p, p');
    if p.worker.Copying? {
      AttemptMoves(p.shared, p'.shared, p.worker.attempt);
    }
  }

  lemma LogGrows(p: Pipe, p': Pipe)
    requires HostMoves(p, p')
    ensures |p.shared.log| <= |p'.shared.log|
    ensures forall k :: 0 <= k < |p.shared.log| ==> p'.shared.log[k] == p.shared.log[k]
  {
  }

  lemma PrivateKept(session: Session, p: Pipe, p': Pipe)
    requires PrivateOk(session, p) && HostMoves(p, p')
    ensures PrivateOk(session, p')
  {
  }

  lemma SourcesKept(session: Session, p: Pipe, p': Pipe)
    requires SourcesOk(session, p) && HostMoves(p, p')
    ensures SourcesOk(session, p')
  {
  }

  lemma OutputsKept(session: Session, p: Pipe, p': Pipe)
    requires OutputsOk(session, p) && RenderOk(session, p) && HostMoves(p, p')
    ensures OutputsOk(session, p') && RenderOk(session, p')
  {
  }

  lemma HostStepShared(session: Session, p: Pipe, step: Step)
    requires SharedOk(session, p) && Possible(session, p, step) && IsHostStep(step)
    ensures SharedOk(session, After(session, p, step)) && HostMoves(p, After(session, p, step))
  {
    match step
    case HostBegin(t, request) => HostEntryShared(session, p, t, step);
    case HostLoad(t) => HostEntryShared(session, p, t, step);
    case HostSwap(t) => HostSwapShared(session, p, t);
    case HostCopy(t) => HostWriteShared(session, p, t, step);
    case HostFinish(t) => HostWriteShared(session, p, t, step);
    case _ =>
  }

  lemma HostEntryShared(session: Session, p: Pipe, t: nat, step: Step)
    requires SharedOk(session, p) && Possible(session, p, step) && (step.HostBegin? || step.HostLoad?) && step.t == t
    ensures SharedOk(session, After(session, p, step)) && HostMoves(p, After(session, p, step))
  {
    var p' := After(session, p, step);
    forall u | 0 <= u < |p'.hosts| ensures HostOk(session, p', u) {
      assert HostOk(session, p, u);
    }
  }

  lemma HostWriteShared(session: Session, p: Pipe, t: nat, step: Step)
    requires SharedOk(session, p) && Possible(session, p, step) && (step.HostCopy? || step.HostFinish?) && step.t == t
    ensures SharedOk(session, After(session, p, step)) && HostMoves(p, After(session, p, step))
  {
    hide Refuses;
    var p' := After(session, p, step);
    assert HostOk(session, p, t);
    WriterMoves(p.shared, []);
    if step.HostCopy? {
      CopyOk(p.shared);
    } else {
      FinishOk(p.shared);
    }
    hide Ok;
    forall u | 0 <= u < |p'.hosts| ensures HostOk(session, p', u) {
      assert HostOk(session, p, u);
    }
  }

  // The compare-and-swap lets in one writer, and never the one that would wrap the number.
  lemma HostSwapShared(session: Session, p: Pipe, t: nat)
    requires SharedOk(session, p) && Possible(session, p, HostSwap(t))
    ensures SharedOk(session, After(session, p, HostSwap(t))) && HostMoves(p, After(session, p, HostSwap(t)))
  {
    assert HostOk(session, p, t);
    if p.shared.sequence == p.hosts[t].stable {
      NumberTells(p.shared);
      NextNumber(|p.shared.log|);
      if |p.shared.log| == Period {
        DivisionUnique(Period, Period, 1, 0);
      }
      StartOk(p.shared, p.hosts[t].request);
      WriterMoves(p.shared, p.hosts[t].request);
    }
    var p' := After(session, p, HostSwap(t));
    forall u | 0 <= u < |p'.hosts| ensures HostOk(session, p', u) {
      assert HostOk(session, p, u);
    }
  }

  // ---- the worker's steps: they add to the private log, and leave the shared slot alone

  predicate WorkerMoves(p: Pipe, p': Pipe) {
    && p'.shared == p.shared && p'.hosts == p.hosts && p'.holder == p.holder
    && p'.renderer == p.renderer && p'.outputs == p.outputs && p'.shown == p.shown && p'.stop == p.stop
    && p'.checks == p.checks && Moved(p.private, p'.private) && p.sources <= p'.sources && p.stamps <= p'.stamps
  }

  lemma WorkerMovesInv(session: Session, p: Pipe, p': Pipe)
    requires Inv(session, p) && WorkerMoves(p, p')
    requires PrivateOk(session, p') && SourcesOk(session, p') && PhaseOk(p') && WorkerOk(session, p')
    ensures Inv(session, p')
  {
    hide PrivateOk, SourcesOk, PhaseOk, WorkerOk;
    SharedKept(session, p, p');
    RenderKept(session, p, p');
  }

  lemma SharedKept(session: Session, p: Pipe, p': Pipe)
    requires SharedOk(session, p) && p'.shared == p.shared && p'.hosts == p.hosts && p'.holder == p.holder
    ensures SharedOk(session, p')
  {
    hide Ok, Refuses;
    forall u | 0 <= u < |p'.hosts| ensures HostOk(session, p', u) {
      assert HostOk(session, p, u);
    }
  }

  lemma RenderKept(session: Session, p: Pipe, p': Pipe)
    requires RenderOk(session, p) && OutputsOk(session, p) && WorkerMoves(p, p')
    ensures RenderOk(session, p') && OutputsOk(session, p')
  {
  }

  // A new private publication begins: the next entry.
  lemma StartPrivate(session: Session, p: Pipe, p': Pipe, frame: Words)
    requires PrivateOk(session, p) && p.private.hold == None && p'.shared == p.shared
    requires p'.private == StartWriting(p.private, frame) && p.sources <= p'.sources
    requires |frame| == session.width + 2 && IsEntry(session, p', |p.private.log|, frame)
    requires p.stamps <= p'.stamps && |p'.stamps| == |p'.sources|
    requires p'.sources == p.sources || |p.private.log| == 1 + |p.sources|
    ensures PrivateOk(session, p') && Moved(p.private, p'.private)
  {
    StartOk(p.private, frame);
    WriterMoves(p.private, frame);
    hide Ok, Moved, Snapshot, NoSnapshot;
    forall i | 0 <= i < |p'.private.log| ensures IsEntry(session, p', i, p'.private.log[i]) {
      assert IsEntry(session, p, i, p.private.log[i]);
    }
  }

  lemma WriteStepOk(l: Lock)
    requires Ok(l) && l.hold.Some?
    ensures |l.words| == l.width && |l.hold.value.frame| == l.width && l.hold.value.copied <= l.width
    ensures l.hold.value.copied < l.width ==>
      Ok(CopyWord(l)) && Moved(l, CopyWord(l)) && CopyWord(l).hold.Some? && Started(CopyWord(l)) == Started(l)
    ensures l.hold.value.copied == l.width ==>
      Ok(FinishWriting(l)) && Moved(l, FinishWriting(l)) && Started(FinishWriting(l)) == Started(l)
  {
  }

  lemma PrivateWriteOk(session: Session, p: Pipe, step: Step)
    requires PrivateOk(session, p) && Possible(session, p, step) && (step.PrivateCopy? || step.PrivateFinish?)
    ensures PrivateOk(session, After(session, p, step)) && Moved(p.private, After(session, p, step).private)
  {
    hide Ok, Moved, Snapshot, NoSnapshot;
    var p' := After(session, p, step);
    WriteStepOk(p.private);
    forall i | 0 <= i < |p'.private.log| ensures IsEntry(session, p', i, p'.private.log[i]) {
      assert i < |p.private.log| ==> IsEntry(session, p, i, p.private.log[i]);
    }
  }

  lemma PrivateWritePhase(session: Session, p: Pipe, step: Step)
    requires PrivateOk(session, p) && PhaseOk(p) && Possible(session, p, step) && (step.PrivateCopy? || step.PrivateFinish?)
    ensures PhaseOk(After(session, p, step))
  {
  }

  lemma PrivateWriteInv(session: Session, p: Pipe, step: Step)
    requires Inv(session, p) && Possible(session, p, step) && (step.PrivateCopy? || step.PrivateFinish?)
    ensures Inv(session, After(session, p, step))
  {
    hide SharedOk, PrivateOk, SourcesOk, PhaseOk, RenderOk, OutputsOk, Moved;
    PrivateWriteOk(session, p, step);
    PrivateWritePhase(session, p, step);
    SourcesSame(session, p, After(session, p, step));
    WorkerMovesInv(session, p, After(session, p, step));
  }

  lemma SourcesSame(session: Session, p: Pipe, p': Pipe)
    requires SourcesOk(session, p) && p'.shared == p.shared && p'.sources == p.sources
    requires p'.seen == p.seen && p'.lastFrame == p.lastFrame
    ensures SourcesOk(session, p')
  {
  }

  lemma InvalidatePrivate(session: Session, p: Pipe, step: Step)
    requires PrivateOk(session, p) && PhaseOk(p) && Possible(session, p, step)
    requires step.CloseStart? || (step.WorkerPoll? && p.stop)
    ensures PrivateOk(session, After(session, p, step)) && Moved(p.private, After(session, p, step).private)
    ensures PhaseOk(After(session, p, step))
  {
    hide Ok, Moved;
    StartPrivate(session, p, After(session, p, step), NoSnapshot(session));
  }

  lemma InvalidateInv(session: Session, p: Pipe, step: Step)
    requires Inv(session, p) && Possible(session, p, step)
    requires step.CloseStart? || (step.WorkerPoll? && p.stop)
    ensures Inv(session, After(session, p, step))
  {
    hide SharedOk, PrivateOk, SourcesOk, PhaseOk, RenderOk, OutputsOk, Moved;
    InvalidatePrivate(session, p, step);
    SourcesSame(session, p, After(session, p, step));
    WorkerMovesInv(session, p, After(session, p, step));
  }

  lemma WorkerReadsInv(session: Session, p: Pipe, step: Step)
    requires Inv(session, p) && Possible(session, p, step)
    requires (step.WorkerPoll? && !p.stop) || step.WorkerLoad? || step.WorkerRead?
    ensures Inv(session, After(session, p, step))
  {
    hide SharedOk, PrivateOk, SourcesOk, WorkerOk, RenderOk, OutputsOk;
    var p' := After(session, p, step);
    WorkerReads(session, p, step);
    PrivateSame(session, p, p');
    SourcesSame(session, p, p');
    WorkerMovesInv(session, p, p');
  }

  lemma WorkerReads(session: Session, p: Pipe, step: Step)
    requires SharedOk(session, p) && SourcesOk(session, p) && WorkerOk(session, p) && Possible(session, p, step)
    requires (step.WorkerPoll? && !p.stop) || step.WorkerLoad? || step.WorkerRead?
    ensures WorkerOk(session, After(session, p, step))
  {
    hide Ok, AttemptOk;
    if step.WorkerLoad? && p.shared.sequence != 0 && p.shared.sequence % 2 == 0 {
      LoadOk(p.shared);
    } else if step.WorkerRead? {
      ReadOk(p.shared, p.worker.attempt);
    }
  }

  lemma PrivateSame(session: Session, p: Pipe, p': Pipe)
    requires PrivateOk(session, p) && p'.private == p.private && p'.shared == p.shared && p'.sources == p.sources
    requires p'.stamps == p.stamps
    ensures PrivateOk(session, p')
  {
  }

  // What the worker accepts is the newest publication of the host, whole.
  lemma AcceptedRequest(session: Session, p: Pipe)
    requires SharedOk(session, p) && WorkerOk(session, p) && p.worker.Copying?
    requires |p.worker.attempt.copy| == session.width && Accepts(p.shared, p.worker.attempt)
    ensures 0 < p.worker.attempt.at == |p.shared.log|
    ensures p.worker.attempt.copy == p.shared.log[p.worker.attempt.at - 1]
    ensures ValidRequest(session, p.worker.attempt.copy)
  {
  }

  lemma RecheckInv(session: Session, p: Pipe, now: nat)
    requires Inv(session, p) && Possible(session, p, WorkerRecheck(now))
    ensures Inv(session, After(session, p, WorkerRecheck(now)))
  {
    hide SharedOk, PrivateOk, RenderOk, OutputsOk;
    var attempt := p.worker.attempt;
    if Accepts(p.shared, attempt) {
      AcceptedRequest(session, p);
      FilterInv(session, p, attempt.copy, attempt.at, now);
    } else {
      var p' := After(session, p, WorkerRecheck(now));
      PrivateSame(session, p, p');
      WorkerMovesInv(session, p, p');
    }
  }

  lemma FilterPrivate(session: Session, p: Pipe, request: Words, from: nat, now: nat)
    requires SharedOk(session, p) && PrivateOk(session, p) && PhaseOk(p) && p.worker.Copying?
    requires 0 < from == |p.shared.log| && request == p.shared.log[from - 1]
    ensures var p' := Filtered(session, p, request, from, now);
      PrivateOk(session, p') && PhaseOk(p') && Moved(p.private, p'.private)
  {
    hide Ok, Moved;
    var p' := Filtered(session, p, request, from, now);
    if p'.worker.Publishing? {
      assert ValidRequest(session, request);
      var frame := Snapshot(request, now);
      assert frame[session.width] == now;
      StartPrivate(session, p, p', frame);
    } else {
      PrivateSame(session, p, p');
      Unmoved(p.private);
    }
  }

  lemma Unmoved(l: Lock)
    ensures Moved(l, l)
  {
  }

  lemma FilterSources(session: Session, p: Pipe, request: Words, from: nat, now: nat)
    requires SourcesOk(session, p) && p.seen <= from
    requires 0 < from == |p.shared.log| && request == p.shared.log[from - 1]
    ensures SourcesOk(session, Filtered(session, p, request, from, now))
  {
    var p' := Filtered(session, p, request, from, now);
    if p'.worker.Publishing? {
      SourceAdded(session, p, p', request, from);
    }
  }

  lemma FilterInv(session: Session, p: Pipe, request: Words, from: nat, now: nat)
    requires Inv(session, p) && p.worker.Copying? && p.seen <= from
    requires 0 < from == |p.shared.log| && request == p.shared.log[from - 1] && ValidRequest(session, request)
    ensures Inv(session, Filtered(session, p, request, from, now))
  {
    hide SharedOk, PrivateOk, SourcesOk, PhaseOk, RenderOk, OutputsOk, Moved;
    FilterPrivate(session, p, request, from, now);
    FilterSources(session, p, request, from, now);
    WorkerMovesInv(session, p, Filtered(session, p, request, from, now));
  }

  // A request that passes the filter was not published before: it is later than every source.
  lemma SourceAdded(session: Session, p: Pipe, p': Pipe, request: Words, from: nat)
    requires SourcesOk(session, p) && p.seen <= from && p'.shared == p.shared
    requires 0 < from == |p.shared.log| && request == p.shared.log[from - 1]
    requires session.frameId(request) > p.lastFrame
    requires p'.sources == p.sources + [from - 1] && p'.seen == from && p'.lastFrame == session.frameId(request)
    ensures SourcesOk(session, p')
  {
  }

  // ---- the render thread

  lemma {:induction false} IncreasingBelow(a: seq<nat>, n: nat)
    requires forall i, j :: 0 <= i < j < |a| ==> a[i] < a[j]
    requires forall i :: 0 <= i < |a| ==> a[i] < n
    ensures |a| <= n
  {
    if a != [] {
      IncreasingBelow(a[..|a| - 1], a[|a| - 1]);
    }
  }

  // While the bridge runs, an attempt that began after the session's first request is not lapped:
  // the host has no more than a period of requests to give.
  lemma NotLapped(session: Session, p: Pipe, at: nat)
    requires SharedOk(session, p) && SourcesOk(session, p) && PhaseOk(p) && !p.stop && at > 1
    ensures Started(p.private) - at < Period
  {
    IncreasingBelow(p.sources, |p.shared.log|);
  }

  // A snapshot the render thread accepts while the bridge runs is a request of the host, whole,
  // unless the attempt was lapped.
  lemma CheckedIsWhole(session: Session, p: Pipe, now: nat, maxAge: nat)
    requires Inv(session, p) && Possible(session, p, RenderRecheck(now, maxAge)) && !p.stop
    requires Accepts(p.private, p.renderer.attempt) && IsValidSnapshot(session, p.renderer.attempt.copy, now, maxAge)
    ensures Seen(p, p.renderer.attempt.copy[..session.width], p.renderer.attempt.at, Check(now, maxAge))
  {
    hide OutputsOk, Accepts, IsEntry, SharedOk, SourcesOk, PhaseOk, Seen, ReadFrom, InTime;
    var attempt := p.renderer.attempt;
    if attempt.at > 1 {
      LateIsWhole(session, p, attempt, now, maxAge);
    } else {
      EarlyIsLapped(session, p, attempt, now, maxAge);
      LappedIsSeen(p, attempt.copy[..session.width], attempt.at, Check(now, maxAge));
    }
  }

  lemma LappedIsSeen(p: Pipe, request: Words, from: nat, check: Check)
    requires from <= |p.private.log| && Lapped(p, from)
    ensures Seen(p, request, from, check)
  {
  }

  lemma LateIsWhole(session: Session, p: Pipe, attempt: Attempt, now: nat, maxAge: nat)
    requires SharedOk(session, p) && SourcesOk(session, p) && PhaseOk(p) && PrivateOk(session, p) && !p.stop
    requires AttemptOk(p.private, attempt) && attempt.at > 1 && |attempt.copy| == p.private.width
    requires Accepts(p.private, attempt) && IsValidSnapshot(session, attempt.copy, now, maxAge)
    ensures Seen(p, attempt.copy[..session.width], attempt.at, Check(now, maxAge))
  {
    hide Accepts, SharedOk, HostOk, PhaseOk;
    NotLapped(session, p, attempt.at);
    AcceptedIsWhole(p.private, attempt);
    assert IsEntry(session, p, attempt.at - 1, attempt.copy);
  }

  // Before the first request there is nothing valid to accept.
  lemma EarlyIsLapped(session: Session, p: Pipe, attempt: Attempt, now: nat, maxAge: nat)
    requires PrivateOk(session, p) && AttemptOk(p.private, attempt) && attempt.at == 1
    requires Accepts(p.private, attempt) && IsValidSnapshot(session, attempt.copy, now, maxAge)
    ensures |p.private.log| > Period
  {
    AcceptsIff(p.private, attempt);
    assert IsEntry(session, p, 0, p.private.log[0]);
    if |p.private.log| == 1 {
      AcceptedIsWhole(p.private, attempt);
    } else if |p.private.log| <= Period {
      DivisionUnique(|p.private.log| - 1, Period, 0, |p.private.log| - 1);
    }
  }

  predicate RenderMoves(p: Pipe, p': Pipe) {
    p' == p.(renderer := p'.renderer, outputs := p'.outputs, shown := p'.shown, checks := p'.checks, state := p'.state, stop := p'.stop)
  }

  lemma RenderMovesInv(session: Session, p: Pipe, p': Pipe)
    requires Inv(session, p) && RenderMoves(p, p') && PhaseOk(p')
    requires RenderOk(session, p') && OutputsOk(session, p')
    ensures Inv(session, p')
  {
    hide PhaseOk, RenderOk, OutputsOk;
    SharedKept(session, p, p');
    PrivateSame(session, p, p');
    SourcesSame(session, p, p');
  }

  lemma RenderAttempt(session: Session, p: Pipe, step: Step)
    requires PrivateOk(session, p) && RenderOk(session, p) && OutputsOk(session, p) && Possible(session, p, step)
    requires step.RenderBegin? || step.RenderLoad? || step.RenderRead?
    ensures RenderOk(session, After(session, p, step))
  {
    hide Ok, AttemptOk;
    if step.RenderLoad? && p.private.sequence != 0 && p.private.sequence % 2 == 0 {
      LoadOk(p.private);
    } else if step.RenderRead? {
      ReadOk(p.private, p.renderer.attempt);
    }
  }

  lemma RenderAttemptInv(session: Session, p: Pipe, step: Step)
    requires Inv(session, p) && Possible(session, p, step)
    requires step.RenderBegin? || step.RenderLoad? || step.RenderRead?
    ensures Inv(session, After(session, p, step))
  {
    hide SharedOk, PrivateOk, SourcesOk, WorkerOk, RenderOk, OutputsOk;
    RenderAttempt(session, p, step);
    OutputsSame(session, p, After(session, p, step));
    RenderMovesInv(session, p, After(session, p, step));
  }

  lemma RenderStepInv(session: Session, p: Pipe, step: Step)
    requires Inv(session, p) && Possible(session, p, step) && IsRenderStep(step)
    ensures Inv(session, After(session, p, step))
  {
    hide Inv, Possible, After;
    match step
    case RenderRecheck(now, maxAge) => RenderRecheckInv(session, p, now, maxAge);
    case RenderFinish => RenderFinishInv(session, p);
    case BecomeRunning => StateInv(session, p, step);
    case StopBegin => StateInv(session, p, step);
    case SignalStop => StateInv(session, p, step);
    case _ => RenderAttemptInv(session, p, step);
  }

  lemma RenderRecheckInv(session: Session, p: Pipe, now: nat, maxAge: nat)
    requires Inv(session, p) && Possible(session, p, RenderRecheck(now, maxAge))
    ensures Inv(session, After(session, p, RenderRecheck(now, maxAge)))
  {
    hide SharedOk, PrivateOk, SourcesOk, WorkerOk, AttemptOk, Seen;
    var p' := After(session, p, RenderRecheck(now, maxAge));
    if p'.renderer.Checked? && !p.stop {
      CheckedIsWhole(session, p, now, maxAge);
      SameSources(p, p', p'.renderer.request, p'.renderer.from, p'.renderer.check);
    }
    OutputsSame(session, p, p');
    RenderMovesInv(session, p, p');
  }

  lemma SameSources(p: Pipe, p': Pipe, request: Words, from: nat, check: Check)
    requires Seen(p, request, from, check) && p'.sources == p.sources && p'.shared == p.shared
    requires p'.private == p.private && p'.stamps == p.stamps
    ensures Seen(p', request, from, check)
  {
  }

  lemma OutputsSame(session: Session, p: Pipe, p': Pipe)
    requires OutputsOk(session, p) && p'.sources == p.sources && p'.shared == p.shared && p'.private == p.private
    requires p'.stamps == p.stamps && p'.outputs == p.outputs && p'.shown == p.shown && p'.checks == p.checks
    ensures OutputsOk(session, p')
  {
  }

  lemma RenderFinishInv(session: Session, p: Pipe)
    requires Inv(session, p) && Possible(session, p, RenderFinish)
    ensures Inv(session, After(session, p, RenderFinish))
  {
    hide SharedOk, PrivateOk, SourcesOk, WorkerOk;
    var p' := After(session, p, RenderFinish);
    forall i | 0 <= i < |p'.outputs| ensures Seen(p', p'.outputs[i], p'.shown[i], p'.checks[i]) {
      if i < |p.outputs| {
        assert Seen(p, p.outputs[i], p.shown[i], p.checks[i]);
      }
    }
    RenderMovesInv(session, p, p');
  }

  lemma StateInv(session: Session, p: Pipe, step: Step)
    requires Inv(session, p) && Possible(session, p, step) && (step.BecomeRunning? || step.StopBegin? || step.SignalStop?)
    ensures Inv(session, After(session, p, step))
  {
    hide SharedOk, PrivateOk, SourcesOk, WorkerOk, AttemptOk;
    var p' := After(session, p, step);
    OutputsSame(session, p, p');
    RenderMovesInv(session, p, p');
  }

  // ---- runs

  lemma StepInv(session: Session, p: Pipe, step: Step)
    requires Inv(session, p) && Possible(session, p, step)
    ensures Inv(session, After(session, p, step))
  {
    if IsHostStep(step) {
      HostStepShared(session, p, step);
      hide SharedOk, PrivateOk, SourcesOk, PhaseOk, WorkerOk, RenderOk, OutputsOk, HostMoves;
      HostMovesInv(session, p, After(session, p, step));
    } else if IsRenderStep(step) {
      RenderStepInv(session, p, step);
    } else {
      match step
      case WorkerPoll => if p.stop { InvalidateInv(session, p, step); } else { WorkerReadsInv(session, p, step); }
      case WorkerRecheck(now) => RecheckInv(session, p, now);
      case PrivateCopy => PrivateWriteInv(session, p, step);
      case PrivateFinish => PrivateWriteInv(session, p, step);
      case CloseStart => InvalidateInv(session, p, step);
      case _ => WorkerReadsInv(session, p, step);
    }
  }

  lemma {:induction false} RunInv(session: Session, p: Pipe, steps: seq<Step>)
    requires Inv(session, p) && Run(session, p, steps).Some?
    ensures Inv(session, Run(session, p, steps).value)
    decreases |steps|
  {
    hide Inv, Possible, After;
    if steps != [] {
      StepInv(session, p, steps[0]);
      RunInv(session, After(session, p, steps[0]), steps[1..]);
    }
  }

  // Everything the render thread accepts is one whole publication of the host, valid for the
  // session, unless its attempt began before the first request and was lapped.
  lemma EveryOutputIsAPublication(session: Session, p: Pipe, steps: seq<Step>, i: nat)
    requires Init(session, p) && Run(session, p, steps).Some?
    ensures IsPublication(session, Run(session, p, steps).value, i)
  {
    hide IsPublication, SharedOk, OutputsOk, Run, Init;
    InitInv(session, p);
    RunInv(session, p, steps);
    OutputIsPublication(session, Run(session, p, steps).value, i);
  }

  predicate IsPublication(session: Session, p: Pipe, i: nat) {
    i < |p.outputs| ==>
      && i < |p.shown|
      && (|| (p.outputs[i] in p.shared.log && ValidRequest(session, p.outputs[i]))
          || Lapped(p, p.shown[i]))
  }

  lemma OutputIsPublication(session: Session, p: Pipe, i: nat)
    requires SharedOk(session, p) && OutputsOk(session, p)
    ensures IsPublication(session, p, i)
  {
    hide Ok;
    assert i < |p.outputs| ==> Seen(p, p.outputs[i], p.shown[i], p.checks[i]);
  }

  // And successive requests it accepts never go back to an earlier frame, with the same exception.
  lemma OutputsInFrameOrder(session: Session, p: Pipe, steps: seq<Step>, i: nat, j: nat)
    requires Init(session, p) && Run(session, p, steps).Some?
    ensures InFrameOrder(session, Run(session, p, steps).value, i, j)
  {
    hide InFrameOrder, SourcesOk, OutputsOk, Run, Init;
    InitInv(session, p);
    RunInv(session, p, steps);
    FramesInOrder(session, Run(session, p, steps).value, i, j);
  }

  predicate InFrameOrder(session: Session, p: Pipe, i: nat, j: nat) {
    i < j < |p.outputs| ==>
      && |p.shown| == |p.outputs|
      && (session.frameId(p.outputs[i]) <= session.frameId(p.outputs[j]) || Lapped(p, p.shown[i]))
  }

  lemma FramesInOrder(session: Session, p: Pipe, i: nat, j: nat)
    requires SourcesOk(session, p) && OutputsOk(session, p)
    ensures InFrameOrder(session, p, i, j)
  {
    if i < j < |p.outputs| {
      assert Seen(p, p.outputs[i], p.shown[i], p.checks[i]) && Seen(p, p.outputs[j], p.shown[j], p.checks[j]);
      assert p.shown[i] <= p.shown[j];
    }
  }

  // One host thread at a time writes to the shared slot, whose number is twice the publications it
  // has had (and one more while one is under way), and never wraps.
  predicate Counted(p: Pipe) {
    && p.shared.sequence == 2 * |p.shared.log| + (if p.shared.hold.Some? then 1 else 0) <= Top
    && forall s, t :: 0 <= s < |p.hosts| && 0 <= t < |p.hosts| && p.hosts[s].Writing? && p.hosts[t].Writing? ==>
         s == t && p.shared.hold.Some?
  }

  lemma SharedCounted(session: Session, p: Pipe)
    requires SharedOk(session, p)
    ensures Counted(p)
  {
    var n := Started(p.shared);
    if n > 0 {
      DivisionUnique(n - 1, Period, 0, n - 1);
    }
    forall s, t | 0 <= s < |p.hosts| && 0 <= t < |p.hosts| && p.hosts[s].Writing? && p.hosts[t].Writing?
      ensures s == t && p.shared.hold.Some?
    {
      assert HostOk(session, p, s) && HostOk(session, p, t);
    }
  }

  lemma SharedSlotCounts(session: Session, p: Pipe, steps: seq<Step>)
    requires Init(session, p) && Run(session, p, steps).Some?
    ensures Counted(Run(session, p, steps).value)
  {
    hide SharedOk, Counted, Run, Init;
    InitInv(session, p);
    RunInv(session, p, steps);
    SharedCounted(session, Run(session, p, steps).value);
  }

  // Of two snapshots the worker publishes, the later one comes from a later publication of the host
  // and shows a later frame.
  predicate Newer(session: Session, p: Pipe, i: nat, j: nat) {
    i < j < |p.sources| && j + 1 < |p.private.log| ==>
      && p.sources[i] < p.sources[j] < |p.shared.log|
      && |p.private.log[i + 1]| == |p.private.log[j + 1]| == session.width + 2
      && p.private.log[i + 1][..session.width] == p.shared.log[p.sources[i]]
      && p.private.log[j + 1][..session.width] == p.shared.log[p.sources[j]]
      && session.frameId(p.shared.log[p.sources[i]]) < session.frameId(p.shared.log[p.sources[j]])
  }

  lemma SnapshotsNewer(session: Session, p: Pipe, i: nat, j: nat)
    requires SharedOk(session, p) && PrivateOk(session, p) && SourcesOk(session, p)
    ensures Newer(session, p, i, j)
  {
  }

  lemma PublishedFramesIncrease(session: Session, p: Pipe, steps: seq<Step>, i: nat, j: nat)
    requires Init(session, p) && Run(session, p, steps).Some?
    ensures Newer(session, Run(session, p, steps).value, i, j)
  {
    hide SharedOk, PrivateOk, SourcesOk, Newer, Run, Init;
    InitInv(session, p);
    RunInv(session, p, steps);
    SnapshotsNewer(session, Run(session, p, steps).value, i, j);
  }
}
