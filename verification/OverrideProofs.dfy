// What survives any number of launchers crashing between any two file operations.
module OverrideProofs {
  import opened Wrappers
  import opened OverrideSession

  // ---------------------------------------------------------------------------
  // The lock, the journal and the launchers agree; edits of the target do not matter here.

  predicate Holds(x: Launcher) {
    x.alive && (x.active || !(x.pc.Idle? || x.pc.Peeked?))
  }

  predicate LockOk(w: World) {
    && (w.lock.Some? ==> w.lock.value < |w.launchers| && Holds(w.launchers[w.lock.value]))
    && (forall l :: 0 <= l < |w.launchers| && Holds(w.launchers[l]) ==> w.lock == Some(l))
  }

  predicate JournalOk(w: World) {
    w.journal.Some? ==>
      var j := w.journal.value;
      && j.nonce in w.backups && Digest(w.backups[j.nonce]) == j.original
      && j.nonce < w.nextNonce && j.owner < |w.launchers|
  }

  predicate Owns(w: World, l: nat, j: Journal) {
    w.journal == Some(j) && j.owner == l
  }

  predicate Dead(w: World, l: nat) {
    l < |w.launchers| && !w.launchers[l].alive
  }

  predicate RestoringOk(w: World, l: nat, stage: Stage, j: Journal, reason: Reason)
    requires l < |w.launchers|
  {
    && (if stage == DeleteBackup then w.journal == None else w.journal == Some(j))
    && (stage.ReadCurrent? ==> Digest(stage.original) == j.original)
    && (w.launchers[l].active <==> reason.Own?)
    && (reason.Own? ==> w.launchers[l].session == j.nonce && j.owner == l)
    && (reason.Rollback? ==> j.owner == l)
    && (reason.Resolve? || reason.Recovery? ==> Dead(w, j.owner))
  }

  predicate LauncherOk(w: World, l: nat)
    requires l < |w.launchers|
  {
    var x := w.launchers[l];
    x.alive ==>
      && (x.active ==> x.pc.Idle? || x.pc.Restoring?)
      && match x.pc
         case Idle => x.active ==> w.journal.Some? && w.journal.value.nonce == x.session && w.journal.value.owner == l
         case Locked(_) => true
         case Found(_, j) => w.journal == Some(j)
         case Reading(_) => w.journal == None
         case Prepared(_, _, _, nonce) => w.journal == None && nonce < w.nextNonce && nonce !in w.backups
         case BackedUp(_, original, _, nonce) =>
           w.journal == None && nonce < w.nextNonce && nonce in w.backups && w.backups[nonce] == original
         case JournalFailed(nonce) => w.journal == None
         case Journaled(j, overridden) => Owns(w, l, j) && j.overridden == Digest(overridden)
         case Restoring(stage, j, reason) => RestoringOk(w, l, stage, j, reason)
         case Peeked(_) => true
         case Relocked(_) => true
         case Verified(j) => w.journal == Some(j)
         case Leaving => true
  }

  predicate Inv(w: World) {
    && LockOk(w)
    && JournalOk(w)
    && (forall nonce :: nonce in w.backups ==> nonce < w.nextNonce)
    && (forall l :: 0 <= l < |w.launchers| ==> LauncherOk(w, l))
  }

  lemma InitInv(w: World)
    requires Init(w)
    ensures Inv(w)
  {
  }

  predicate SameFiles(w: World, w': World) {
    w'.journal == w.journal && w'.backups == w.backups
  }

  // What one launcher's step may do to everything but itself.
  predicate OneMover(w: World, w': World, l: nat) {
    && l < |w.launchers| == |w'.launchers|
    && w'.launchers == w.launchers[l := w'.launchers[l]]
    && (w'.launchers[l].alive ==> w.launchers[l].alive)
    && w.nextNonce <= w'.nextNonce
    && (w.lock != Some(l) ==> SameFiles(w, w') && w'.target == w.target)
    && (w'.lock == w.lock || (w.lock == None && w'.lock == Some(l)) || (w.lock == Some(l) && w'.lock == None))
  }

  lemma StepHasOneMover(rules: Rules, w: World, s: Step)
    requires Inv(w) && Possible(w, s) && !s.Edit?
    ensures OneMover(w, After(rules, w, s), s.l)
  {
    assert LauncherOk(w, s.l);
    assert Holds(w.launchers[s.l]) ==> w.lock == Some(s.l);
  }

  // Every launcher but the mover is either without the lock, and then has nothing to be wrong
  // about, or has it, and then no file has moved.
  lemma BystanderOk(w: World, w': World, l: nat, u: nat)
    requires Inv(w) && OneMover(w, w', l) && u < |w.launchers| && u != l
    ensures LauncherOk(w', u)
  {
    assert LauncherOk(w, u);
    assert Holds(w.launchers[u]) ==> w.lock == Some(u);
  }

  lemma LockStaysOk(w: World, w': World, l: nat)
    requires LockOk(w) && OneMover(w, w', l)
    requires Holds(w'.launchers[l]) <==> w'.lock == Some(l)
    requires w'.lock == w.lock || w'.lock == Some(l) || w.lock == Some(l)
    ensures LockOk(w')
  {
  }

  lemma MoverLock(rules: Rules, w: World, s: Step)
    requires Inv(w) && Possible(w, s) && !s.Edit?
    ensures var w' := After(rules, w, s); Holds(w'.launchers[s.l]) <==> w'.lock == Some(s.l)
  {
    assert LauncherOk(w, s.l);
    assert Holds(w.launchers[s.l]) <==> w.lock == Some(s.l);
  }

  lemma MoverOk(rules: Rules, w: World, s: Step)
    requires Inv(w) && Possible(w, s) && !s.Edit? && !s.RestoreStage?
    ensures LauncherOk(After(rules, w, s), s.l)
  {
    hide AfterStage;
    assert LauncherOk(w, s.l);
    if s.Throw? {
      assert After(rules, w, s) == AfterThrow(w, s.l);
    } else {
      hide AfterThrow;
    }
  }

  lemma RestorerOk(rules: Rules, w: World, s: Step)
    requires Inv(w) && Possible(w, s) && s.RestoreStage?
    ensures LauncherOk(After(rules, w, s), s.l)
  {
    assert LauncherOk(w, s.l);
    assert After(rules, w, s) == AfterStage(rules, w, s.l, s.deleted);
    hide After, Inv;
  }

  lemma JournalStaysOk(rules: Rules, w: World, s: Step)
    requires Inv(w) && Possible(w, s) && !s.Edit?
    ensures JournalOk(After(rules, w, s))
  {
    assert LauncherOk(w, s.l);
    if s.RestoreStage? {
      assert After(rules, w, s) == AfterStage(rules, w, s.l, s.deleted);
      hide After;
    } else {
      hide AfterStage;
    }
  }

  lemma NoncesStayBelow(rules: Rules, w: World, s: Step)
    requires Inv(w) && Possible(w, s) && !s.Edit?
    ensures var w' := After(rules, w, s); forall nonce :: nonce in w'.backups ==> nonce < w'.nextNonce
  {
    assert LauncherOk(w, s.l);
  }

  lemma StepInv(rules: Rules, w: World, s: Step)
    requires Inv(w) && Possible(w, s)
    ensures Inv(After(rules, w, s))
  {
    var w' := After(rules, w, s);
    if s.Edit? {
      forall u | 0 <= u < |w'.launchers| ensures LauncherOk(w', u) {
        assert LauncherOk(w, u);
      }
    } else {
      JournalStaysOk(rules, w, s);
      NoncesStayBelow(rules, w, s);
      StepHasOneMover(rules, w, s);
      MoverLock(rules, w, s);
      if s.RestoreStage? {
        RestorerOk(rules, w, s);
      } else {
        MoverOk(rules, w, s);
      }
      StepInvFrom(w, w', s.l);
    }
  }

  lemma StepInvFrom(w: World, w': World, l: nat)
    requires Inv(w) && OneMover(w, w', l)
    requires Holds(w'.launchers[l]) <==> w'.lock == Some(l)
    requires LauncherOk(w', l) && JournalOk(w')
    requires forall nonce :: nonce in w'.backups ==> nonce < w'.nextNonce
    ensures Inv(w')
  {
    LockStaysOk(w, w', l);
    forall u | 0 <= u < |w'.launchers| ensures LauncherOk(w', u) {
      if u != l {
        BystanderOk(w, w', l, u);
      }
    }
  }

  lemma {:induction false} RunInv(rules: Rules, w: World, steps: seq<Step>)
    requires Inv(w) && Run(rules, w, steps).Some?
    ensures Inv(Run(rules, w, steps).value)
    decreases |steps|
  {
    if steps != [] {
      StepInv(rules, w, steps[0]);
      RunInv(rules, After(rules, w, steps[0]), steps[1..]);
    }
  }

  // ---------------------------------------------------------------------------
  // Without outside edits: the target is the baseline or one of its overrides.

  predicate IsOverride(rules: Rules, baseline: Content, mode: Mode, content: Content) {
    rules.override(mode, baseline) == Some(content)
  }

  predicate TargetOk(rules: Rules, baseline: Content, w: World) {
    && w.target.Some?
    && (w.journal == None ==> w.target == Some(baseline))
    && (w.journal.Some? ==>
          var j := w.journal.value;
          && j.original == Digest(baseline)
          && IsOverride(rules, baseline, j.mode, j.overridden.of)
          && (w.target == Some(baseline) || w.target == Some(j.overridden.of)))
  }

  predicate KnowsBaseline(rules: Rules, baseline: Content, w: World, x: Launcher) {
    x.alive ==>
      match x.pc
      case Prepared(mode, original, overridden, _) =>
        original == baseline && IsOverride(rules, baseline, mode, overridden)
      case BackedUp(mode, original, overridden, _) =>
        original == baseline && IsOverride(rules, baseline, mode, overridden)
      case Restoring(stage, _, _) =>
        && (stage.WriteTarget? ==> stage.content == baseline)
        && (stage.DeleteJournal? ==> w.target == Some(baseline))
      case _ => true
  }

  predicate BaselineInv(rules: Rules, baseline: Content, w: World) {
    && TargetOk(rules, baseline, w)
    && (forall l :: 0 <= l < |w.launchers| ==> KnowsBaseline(rules, baseline, w, w.launchers[l]))
  }

  lemma StepBaseline(rules: Rules, baseline: Content, w: World, s: Step)
    requires Inv(w) && BaselineInv(rules, baseline, w) && Possible(w, s) && !s.Edit?
    ensures BaselineInv(rules, baseline, After(rules, w, s))
  {
    var w' := After(rules, w, s);
    if s.RestoreStage? {
      RestorerBaseline(rules, baseline, w, s);
    } else {
      MoverBaseline(rules, baseline, w, s);
    }
    StepHasOneMover(rules, w, s);
    forall u | 0 <= u < |w'.launchers| ensures KnowsBaseline(rules, baseline, w', w'.launchers[u]) {
      if u != s.l {
        assert KnowsBaseline(rules, baseline, w, w.launchers[u]);
        assert Holds(w.launchers[u]) ==> w.lock == Some(u);
      }
    }
  }

  lemma MoverBaseline(rules: Rules, baseline: Content, w: World, s: Step)
    requires Inv(w) && BaselineInv(rules, baseline, w) && Possible(w, s) && !s.Edit? && !s.RestoreStage?
    ensures var w' := After(rules, w, s);
      TargetOk(rules, baseline, w') && KnowsBaseline(rules, baseline, w', w'.launchers[s.l])
  {
    assert LauncherOk(w, s.l);
    assert KnowsBaseline(rules, baseline, w, w.launchers[s.l]);
  }

  lemma RestorerBaseline(rules: Rules, baseline: Content, w: World, s: Step)
    requires Inv(w) && BaselineInv(rules, baseline, w) && Possible(w, s) && s.RestoreStage?
    ensures var w' := After(rules, w, s);
      TargetOk(rules, baseline, w') && KnowsBaseline(rules, baseline, w', w'.launchers[s.l])
  {
    assert LauncherOk(w, s.l);
    assert KnowsBaseline(rules, baseline, w, w.launchers[s.l]);
  }

  predicate NoEdits(steps: seq<Step>) {
    forall i :: 0 <= i < |steps| ==> !steps[i].Edit?
  }

  lemma {:induction false} RunBaseline(rules: Rules, baseline: Content, w: World, steps: seq<Step>)
    requires Inv(w) && BaselineInv(rules, baseline, w) && NoEdits(steps) && Run(rules, w, steps).Some?
    ensures BaselineInv(rules, baseline, Run(rules, w, steps).value)
    decreases |steps|
  {
    if steps != [] {
      StepInv(rules, w, steps[0]);
      StepBaseline(rules, baseline, w, steps[0]);
      RunBaseline(rules, baseline, After(rules, w, steps[0]), steps[1..]);
    }
  }

  // However many launchers begin, restore, recover, fail and crash, and wherever they crash: the
  // target is the baseline or its override, it is the baseline whenever there is no journal, and
  // a journal always names a backup that holds the baseline.
  lemma CrashSafe(rules: Rules, w0: World, steps: seq<Step>, w: World)
    requires Init(w0) && NoEdits(steps) && Run(rules, w0, steps) == Some(w)
    ensures w.target == w0.target || exists mode :: rules.override(mode, w0.target.value) == w.target
    ensures w.journal == None ==> w.target == w0.target
    ensures w.journal.Some? ==>
              w.journal.value.nonce in w.backups && Some(w.backups[w.journal.value.nonce]) == w0.target
    ensures forall l :: 0 <= l < |w.launchers| && w.launchers[l].alive && w.launchers[l].active && w.launchers[l].pc.Idle? ==>
              w.journal.Some? && w.journal.value.owner == l && w.lock == Some(l)
  {
    InitInv(w0);
    RunInv(rules, w0, steps);
    RunBaseline(rules, w0.target.value, w0, steps);
    if w.journal.Some? {
      assert IsOverride(rules, w0.target.value, w.journal.value.mode, w.journal.value.overridden.of);
    }
    forall l | 0 <= l < |w.launchers| && w.launchers[l].alive && w.launchers[l].active && w.launchers[l].pc.Idle?
      ensures w.journal.Some? && w.journal.value.owner == l && w.lock == Some(l)
    {
      assert LauncherOk(w, l);
      assert Holds(w.launchers[l]);
    }
  }
}
