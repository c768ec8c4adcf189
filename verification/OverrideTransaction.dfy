// Begin, Restore, Dispose and the recovery of one journal as program text. Each file operation is
// one step of the session model; before each of them any other launcher may run, and each of them
// may throw. A crash of this launcher is a prefix of these runs, which `CrashSafe` covers.
module OverrideTransaction {
  import opened Wrappers
  import opened OverrideSession
  import opened OverrideProofs

  // No process comes back from the dead.
  predicate DeadStay(w: World, w': World) {
    && |w'.launchers| == |w.launchers|
    && forall k :: 0 <= k < |w.launchers| && !w.launchers[k].alive ==> !w'.launchers[k].alive
  }

  // What steps of other launchers cannot touch while launcher l holds the lock.
  predicate Kept(w: World, w': World, l: nat) {
    && |w'.launchers| == |w.launchers| && DeadStay(w, w')
    && l < |w.launchers| && w'.launchers[l] == w.launchers[l]
    && (Holds(w.launchers[l]) ==> w'.target == w.target && SameFiles(w, w') && w'.lock == w.lock)
  }

  lemma StepKeeps(rules: Rules, w: World, s: Step, l: nat)
    requires Inv(w) && Possible(w, s) && !s.Edit? && l < |w.launchers| && s.l != l
    ensures Kept(w, After(rules, w, s), l)
  {
    StepHasOneMover(rules, w, s);
  }

  lemma StepStays(rules: Rules, w: World, s: Step, l: nat)
    requires Inv(w) && Possible(w, s) && !s.Edit? && s != Crash(l) && At(w, l)
    ensures At(After(rules, w, s), l) && DeadStay(w, After(rules, w, s))
  {
    StepHasOneMover(rules, w, s);
    hide Inv, After;
    if s.l == l {
      LivesOn(rules, w, s);
    }
  }

  lemma LivesOn(rules: Rules, w: World, s: Step)
    requires Possible(w, s) && !s.Edit? && !s.Crash?
    ensures At(After(rules, w, s), s.l)
  {
    if s.RestoreStage? {
      assert After(rules, w, s) == AfterStage(rules, w, s.l, s.deleted);
    } else {
      hide AfterStage;
    }
  }

  predicate IsOther(s: Step, l: nat) {
    match s
    case Edit(_) => false
    case _ => s.l != l
  }

  // What the invariants say about launcher l.
  lemma Facts(rules: Rules, baseline: Content, w: World, l: nat)
    requires Inv(w) && BaselineInv(rules, baseline, w) && l < |w.launchers|
    ensures LauncherOk(w, l) && KnowsBaseline(rules, baseline, w, w.launchers[l])
    ensures TargetOk(rules, baseline, w) && JournalOk(w)
    ensures Holds(w.launchers[l]) <==> w.lock == Some(l)
  {
  }

  // RestoreJournal is still running, further on, or has ended the way its reason says.
  predicate StageOutcome(baseline: Content, w: World, w': World, l: nat, last: bool) {
    && l < |w.launchers| && l < |w'.launchers| && w.launchers[l].pc.Restoring?
    && var x, x' := w.launchers[l], w'.launchers[l];
    if x'.pc.Restoring? then x'.pc.reason == x.pc.reason && Rank(x'.pc.stage) > Rank(x.pc.stage)
    else RestoreEnded(baseline, w', x', last, x.pc.reason)
  }

  predicate RestoreEnded(baseline: Content, w: World, x: Launcher, done: bool, reason: Reason) {
    && !x.pc.Restoring?
    && (done ==> w.target == Some(baseline) && w.journal == None && !x.active
                 && x.pc == if reason.Resolve? then Reading(reason.mode) else Leaving)
    && (!done ==> w.journal.Some? && if reason.Own? && !reason.disposing then x.pc == Idle && x.active
                                     else x.pc == Leaving && !x.active)
  }

  lemma StageEnds(rules: Rules, baseline: Content, w: World, l: nat, deleted: bool)
    requires l < |w.launchers| && w.launchers[l].alive && w.launchers[l].pc.Restoring?
    requires LauncherOk(w, l) && TargetOk(rules, baseline, w)
    ensures StageOutcome(baseline, w, AfterStage(rules, w, l, deleted), l, w.launchers[l].pc.stage == DeleteBackup)
  {
  }

  // Without an outside edit, no operation of a restore fails unless it throws.
  lemma StageGoesOn(rules: Rules, baseline: Content, w: World, l: nat, deleted: bool)
    requires l < |w.launchers| && w.launchers[l].alive && w.launchers[l].pc.Restoring?
    requires LauncherOk(w, l) && TargetOk(rules, baseline, w) && JournalOk(w)
    ensures AfterStage(rules, w, l, deleted).launchers[l].pc.Restoring? <==> w.launchers[l].pc.stage != DeleteBackup
  {
  }

  lemma ThrowEnds(rules: Rules, baseline: Content, w: World, l: nat)
    requires l < |w.launchers| && w.launchers[l].alive && w.launchers[l].pc.Restoring?
    requires LauncherOk(w, l) && w.launchers[l].pc.stage != DeleteBackup
    ensures StageOutcome(baseline, w, AfterThrow(w, l), l, false)
  {
  }

  // An operation that throws; reading the own journal for a restore is part of StartRestore.
  predicate Fails(s: Step) { s.Throw? || (s.StartRestore? && !s.readable) }

  // An owner that is not known to be dead.
  predicate Doubtful(s: Step) {
    (s.InspectBeforeBegin? || s.InspectOwner?) && s.answer != DefinitelyDead
  }

  class Launch {
    const rules: Rules
    const baseline: Content
    const l: nat
    var w: World
    // How often an operation of this launcher has thrown, and an owner was not found dead.
    ghost var throws: nat
    ghost var doubts: nat

    ghost predicate Valid() reads this {
      Inv(w) && BaselineInv(rules, baseline, w) && At(w, l)
    }

    // Launcher l of a fresh set of files, whose target holds the baseline.
    constructor (rules: Rules, w: World, l: nat)
      requires Init(w) && l < |w.launchers|
      ensures Valid() && this.rules == rules && this.w == w && this.l == l
      ensures Some(baseline) == w.target && Me() == Launcher(true, false, 0, Idle)
    {
      this.rules, this.baseline, this.l, this.w := rules, w.target.value, l, w;
      throws, doubts := 0, 0;
      new;
      InitInv(w);
    }

    function Me(): Launcher
      reads this
      requires l < |w.launchers|
    {
      w.launchers[l]
    }

    method Perform(s: Step)
      requires Valid() && Possible(w, s) && !s.Edit? && s != Crash(l)
      modifies this
      ensures Valid() && w == After(rules, old(w), s) && |w.launchers| == |old(w).launchers|
      ensures DeadStay(old(w), w)
      ensures throws == old(throws) + if s.l == l && Fails(s) then 1 else 0
      ensures doubts == old(doubts) + if s.l == l && Doubtful(s) then 1 else 0
    {
      hide Inv, BaselineInv, After, Possible, Fails, Doubtful;
      throws := throws + if s.l == l && Fails(s) then 1 else 0;
      doubts := doubts + if s.l == l && Doubtful(s) then 1 else 0;
      StepInv(rules, w, s);
      StepBaseline(rules, baseline, w, s);
      StepStays(rules, w, s, l);
      w := After(rules, w, s);
    }

    // Any number of file operations, crashes included, of the other launchers.
    method Others()
      requires Valid()
      modifies this
      ensures Valid() && Kept(old(w), w, l) && throws == old(throws) && doubts == old(doubts)
    {
      var rounds: nat := *;
      while rounds > 0
        invariant Valid() && Kept(old(w), w, l) && throws == old(throws) && doubts == old(doubts)
      {
        var s: Step := *;
        if IsOther(s, l) && Possible(w, s) {
          StepKeeps(rules, w, s, l);
          Perform(s);
        }
        rounds := rounds - 1;
      }
    }

    // True exactly when the session started; then the target is this mode's override of the
    // baseline, under a journal of this launcher's own. It does start unless an operation throws, the
    // death of a journal's owner is not certain, another launcher has the lock, or the mode has no
    // override of the baseline; a dead owner's journal does not stand in its way.
    method Begin(mode: Mode) returns (started: bool)
      requires Valid() && Me().pc.Idle? && !Me().active
      modifies this
      ensures Valid() && Me().pc.Idle? && Me().active == started
      ensures started ==> w.target == rules.override(mode, baseline)
                          && w.lock == Some(l) && w.journal.Some? && w.journal.value.owner == l
                          && w.journal.value.mode == mode
      ensures !started ==> w.lock != Some(l)
      ensures !started ==>
        throws > old(throws) || doubts > old(doubts) || w.lock.Some? || rules.override(mode, baseline) == None
    {
      hide Inv, BaselineInv;
      started := false;
      Others();
      Facts(rules, baseline, w, l);
      if w.target == None || w.lock != None {
        return;
      }
      Perform(BeginLock(l, mode));
      var ready := ResolveExistingJournal(mode);
      if !ready {
        return;
      }
      ready := PrepareOverride(mode);
      if ready {
        started := WriteOverride();
      }
    }

    // The target last; when writing it throws, the journal just written is rolled back.
    method WriteOverride() returns (started: bool)
      requires Valid() && Me().pc.Journaled? && !Me().active
      modifies this
      ensures Valid() && Me().pc.Idle? && Me().active == started
      ensures started ==> w.target == Some(old(Me().pc.overridden)) && w.lock == Some(l)
                          && w.journal == Some(old(Me().pc.j)) && w.journal.value.owner == l
      ensures !started ==> w.lock != Some(l)
      ensures throws >= old(throws) && (!started ==> throws > old(throws))
    {
      hide Inv, BaselineInv;
      Others();
      Facts(rules, baseline, w, l);
      var thrown: bool := *;
      if thrown {
        Perform(Throw(l));
        var rolledBack := RestoreJournal();
        Others();
        Perform(Release(l));
        return false;
      }
      Perform(ApplyOverride(l));
      Facts(rules, baseline, w, l);
      return true;
    }

    method ResolveExistingJournal(mode: Mode) returns (ready: bool)
      requires Valid() && Me().pc == Locked(mode) && !Me().active
      modifies this
      ensures Valid() && !Me().active
      ensures if ready then Me().pc == Reading(mode) else Me().pc.Idle? && w.lock != Some(l)
      ensures throws >= old(throws) && doubts >= old(doubts)
      ensures !ready ==> throws > old(throws) || doubts > old(doubts)
    {
      hide Inv, BaselineInv;
      Others();
      var thrown: bool := *;
      Perform(if thrown then Throw(l) else CheckJournal(l));
      if Me().pc.Found? {
        ResolveFound(mode);
      }
      ready := Me().pc == Reading(mode);
      if !ready {
        Others();
        Perform(Release(l));
      }
    }

    // A journal that was found is restored when its owner is dead.
    method ResolveFound(mode: Mode)
      requires Valid() && Me().pc.Found? && Me().pc.mode == mode && !Me().active
      modifies this
      ensures Valid() && !Me().active && (Me().pc == Reading(mode) || Me().pc == Leaving)
      ensures throws >= old(throws) && doubts >= old(doubts)
      ensures Me().pc == Leaving ==> throws > old(throws) || doubts > old(doubts)
    {
      hide Inv, BaselineInv;
      Others();
      var thrown: bool, answer: Liveness := *, *;
      if !Truthful(w, Me().pc.j.owner, answer) {
        answer := Unknown;
      }
      Perform(if thrown then Throw(l) else InspectBeforeBegin(l, answer));
      if Me().pc.Restoring? {
        var restored := RestoreJournal();
      }
    }

    // Read the target, back it up, and write the journal.
    method PrepareOverride(mode: Mode) returns (ready: bool)
      requires Valid() && Me().pc == Reading(mode) && !Me().active
      modifies this
      ensures Valid() && !Me().active
      ensures if ready then Me().pc.Journaled? && Me().pc.j.mode == mode
                            && rules.override(mode, baseline) == Some(Me().pc.overridden)
              else Me().pc.Idle? && w.lock != Some(l)
      ensures throws >= old(throws) && doubts == old(doubts)
      ensures !ready ==> throws > old(throws) || rules.override(mode, baseline) == None
    {
      hide Inv, BaselineInv;
      Others();
      Facts(rules, baseline, w, l);
      var thrown: bool := *;
      Perform(if thrown then Throw(l) else ReadOriginal(l));
      if Me().pc.Prepared? {
        Facts(rules, baseline, w, l);
        ready := BackUpAndJournal();
        return;
      }
      Others();
      Perform(Release(l));
      ready := false;
    }

    // The backup first, then the journal that names it; a backup left without one is deleted.
    method BackUpAndJournal() returns (ready: bool)
      requires Valid() && Me().pc.Prepared? && !Me().active
      modifies this
      ensures Valid() && !Me().active
      ensures if ready then Me().pc.Journaled? && Me().pc.j.mode == old(Me().pc.mode)
                            && Me().pc.overridden == old(Me().pc.overridden)
              else Me().pc.Idle? && w.lock != Some(l)
      ensures throws >= old(throws) && doubts == old(doubts) && (!ready ==> throws > old(throws))
    {
      hide Inv, BaselineInv;
      Others();
      Facts(rules, baseline, w, l);
      var thrown: bool := *;
      Perform(if thrown then Throw(l) else CreateBackup(l));
      if Me().pc.BackedUp? {
        ready := WriteOwnJournal();
        return;
      }
      Others();
      Perform(Release(l));
      return false;
    }

    method WriteOwnJournal() returns (ready: bool)
      requires Valid() && Me().pc.BackedUp? && !Me().active
      modifies this
      ensures Valid() && !Me().active
      ensures if ready then Me().pc.Journaled? && Me().pc.j.mode == old(Me().pc.mode)
                            && Me().pc.overridden == old(Me().pc.overridden)
              else Me().pc.Idle? && w.lock != Some(l)
      ensures throws >= old(throws) && doubts == old(doubts) && (!ready ==> throws > old(throws))
    {
      hide Inv, BaselineInv;
      Others();
      var thrown: bool, deleted: bool := *, *;
      Perform(if thrown then Throw(l) else WriteJournal(l));
      if Me().pc.Journaled? {
        return true;
      }
      Others();
      Perform(DropBackup(l, deleted));
      Others();
      Perform(Release(l));
      return false;
    }

    // RestoreJournal, one file operation after the other. It succeeds unless one of them throws; then
    // the target is the baseline and the journal is gone, while the lock is still held.
    method RestoreJournal() returns (done: bool)
      requires Valid() && Me().pc.Restoring? && Me().pc.stage == FindBackup
      modifies this
      ensures Valid() && RestoreEnded(baseline, w, Me(), done, old(Me().pc.reason)) && DeadStay(old(w), w)
      ensures throws >= old(throws) && doubts == old(doubts) && (done <==> throws == old(throws))
    {
      hide Inv, BaselineInv;
      ghost var reason := Me().pc.reason;
      done := false;
      while Me().pc.Restoring?
        invariant Valid() && DeadStay(old(w), w)
        invariant throws >= old(throws) && doubts == old(doubts)
        invariant if Me().pc.Restoring? then throws == old(throws) else done <==> throws == old(throws)
        invariant if Me().pc.Restoring? then Me().pc.reason == reason
                  else RestoreEnded(baseline, w, Me(), done, reason)
        decreases if Me().pc.Restoring? then 6 - Rank(Me().pc.stage) else 0
      {
        done := RestoreOperation();
      }
    }

    // One file operation of RestoreJournal; `done` once the last of them has been tried.
    method RestoreOperation() returns (done: bool)
      requires Valid() && Me().pc.Restoring?
      modifies this
      ensures Valid() && DeadStay(old(w), w)
      ensures if Me().pc.Restoring? then Me().pc.reason == old(Me().pc.reason)
                                         && Rank(Me().pc.stage) > old(Rank(Me().pc.stage))
              else RestoreEnded(baseline, w, Me(), done, old(Me().pc.reason))
      ensures throws >= old(throws) && doubts == old(doubts)
      ensures if Me().pc.Restoring? then throws == old(throws) else done <==> throws == old(throws)
    {
      hide Inv, BaselineInv;
      Others();
      Facts(rules, baseline, w, l);
      var thrown: bool, deleted: bool := *, *;
      done := Me().pc.stage == DeleteBackup;
      if thrown && !done {
        ThrowEnds(rules, baseline, w, l);
        Perform(Throw(l));
      } else {
        StageEnds(rules, baseline, w, l, deleted);
        StageGoesOn(rules, baseline, w, l, deleted);
        hide AfterStage;
        Perform(RestoreStage(l, deleted));
      }
    }

    // Restore, and Dispose when `disposing`: disposing lets go of the lock whatever happens. Without
    // an exception it brings the baseline back and removes the journal; when it fails the journal
    // stays for a recovery.
    method Restore(disposing: bool) returns (restored: bool)
      requires Valid() && Me().pc.Idle?
      modifies this
      ensures Valid() && Me().pc.Idle?
      ensures restored ==> old(Me().active) && !Me().active && w.lock != Some(l)
      ensures disposing ==> !Me().active && w.lock != Some(l)
      ensures !restored && !disposing ==> Me().active == old(Me().active)
      ensures restored ==> w.target == Some(baseline) && w.journal == None
      ensures old(Me().active) && !restored ==> throws > old(throws) && w.journal.Some?
    {
      hide Inv, BaselineInv;
      Facts(rules, baseline, w, l);
      restored := false;
      if Me().active {
        Others();
        Facts(rules, baseline, w, l);
        var readable: bool := *;
        Perform(StartRestore(l, disposing, readable));
        if Me().pc.Restoring? {
          restored := RestoreJournal();
        }
        if Me().pc.Leaving? {
          Others();
          Perform(Release(l));
        }
      }
      Facts(rules, baseline, w, l);
    }

    // One turn of the recovery loop. When it is true, a journal that was there had a dead owner,
    // and now the target is the baseline and the journal is gone. A journal whose dead owner was
    // found is still there when it is false. It restores unless an operation throws, the owner's death
    // is not certain, another launcher has the lock, or the journal goes or changes meanwhile.
    method RecoverAbandoned()
        returns (restored: bool, ghost found: Option<Journal>, ghost changed: bool)
      requires Valid() && Me().pc.Idle? && !Me().active
      modifies this
      ensures Valid() && Me().pc.Idle? && !Me().active && w.lock != Some(l)
      ensures restored ==> found.Some? && w.target == Some(baseline) && w.journal == None
      ensures found.Some? ==> Dead(w, found.value.owner) && (!restored ==> throws > old(throws) && w.journal.Some?)
      ensures !restored ==>
        throws > old(throws) || doubts > old(doubts) || changed || w.journal == None || w.lock.Some?
    {
      hide Inv, BaselineInv;
      restored, found, changed := false, None, false;
      Others();
      Facts(rules, baseline, w, l);
      if w.journal == None {
        return;
      }
      Perform(PeekJournal(l));
      Others();
      var thrown: bool := *;
      Perform(if thrown then Throw(l) else RecoverLock(l));
      Facts(rules, baseline, w, l);
      if Me().pc.Relocked? {
        restored, found, changed := RecoverLocked();
      }
    }

    // The rest of that turn, under the lock.
    method RecoverLocked()
        returns (restored: bool, ghost found: Option<Journal>, ghost changed: bool)
      requires Valid() && Me().pc.Relocked? && !Me().active
      modifies this
      ensures Valid() && Me().pc.Idle? && !Me().active && w.lock != Some(l)
      ensures restored ==> found.Some? && w.target == Some(baseline) && w.journal == None
      ensures found.Some? ==> Dead(w, found.value.owner) && (!restored ==> throws > old(throws) && w.journal.Some?)
      ensures throws >= old(throws) && doubts >= old(doubts)
      ensures !restored ==> throws > old(throws) || doubts > old(doubts) || changed
      ensures changed ==> w.journal == None || w.journal.value.nonce != old(Me().pc.j.nonce)
      ensures found.Some? ==> found.value.nonce == old(Me().pc.j.nonce)
    {
      hide Inv, BaselineInv;
      restored, found := false, None;
      ghost var nonce := Me().pc.j.nonce;
      Others();
      var thrown: bool := *;
      Perform(if thrown then Throw(l) else RereadJournal(l));
      changed := !thrown && Me().pc.Leaving?;
      if Me().pc.Verified? {
        restored, found := RecoverVerified();
      }
      Others();
      Perform(Release(l));
    }

    method RecoverVerified() returns (restored: bool, ghost found: Option<Journal>)
      requires Valid() && Me().pc.Verified? && !Me().active
      modifies this
      ensures Valid() && Me().pc.Leaving? && !Me().active
      ensures restored ==> found.Some? && w.target == Some(baseline) && w.journal == None
      ensures found.Some? ==> Dead(w, found.value.owner) && (!restored ==> throws > old(throws) && w.journal.Some?)
      ensures throws >= old(throws) && doubts >= old(doubts)
      ensures !restored ==> throws > old(throws) || doubts > old(doubts)
      ensures found.Some? ==> found.value == old(Me().pc.j)
    {
      hide Inv, BaselineInv;
      restored, found := false, None;
      Others();
      var answer: Liveness, thrown: bool := *, *;
      if !Truthful(w, Me().pc.j.owner, answer) {
        answer := Unknown;
      }
      ghost var journal := Me().pc.j;
      Perform(if thrown then Throw(l) else InspectOwner(l, answer));
      if Me().pc.Restoring? {
        found := Some(journal);
        restored := RestoreJournal();
      }
    }
  }

  function Rank(stage: Stage): nat {
    match stage
    case FindBackup => 0
    case ReadBackup => 1
    case ReadCurrent(_) => 2
    case WriteTarget(_) => 3
    case DeleteJournal => 4
    case DeleteBackup => 5
  }
}
