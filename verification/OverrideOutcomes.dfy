// What a whole recovery makes of a target that anyone may have edited, deleted or left alone.
module OverrideOutcomes {
  import opened Wrappers
  import opened OverrideSession
  import opened OverrideProofs
  import opened OverrideRecovery

  // The lock is free, and launcher l finds the journal j of a dead owner.
  predicate Abandoned(w: World, l: nat, j: Journal) {
    && At(w, l) && w.launchers[l].pc.Idle? && !w.launchers[l].active && w.lock == None
    && w.journal == Some(j) && Dead(w, j.owner)
  }

  // The target holds something, which is neither the original nor the override.
  predicate Edited(w: World, j: Journal) {
    w.target.Some? && Digest(w.target.value) != j.original && Digest(w.target.value) != j.overridden
  }

  lemma Kept(rules: Rules, w0: World, steps: seq<Step>, w: World, l: nat, j: Journal)
    requires Init(w0) && Run(rules, w0, steps) == Some(w) && Abandoned(w, l, j)
    ensures Inv(w) && j.nonce in w.backups && Digest(w.backups[j.nonce]) == j.original
  {
    InitInv(w0);
    RunInv(rules, w0, steps);
  }

  // From the decision on: write `content`, delete the journal and the backup, let go.
  lemma WritesAndFinishes(rules: Rules, w: World, l: nat, j: Journal, content: Content)
    requires At(w, l) && w.launchers[l].pc == Restoring(WriteTarget(content), j, Recovery)
    ensures var stage := RestoreStage(l, true);
      Run(rules, w, [stage] + ([stage] + ([stage] + ([Release(l)] + []))))
        == Some(SetPc(Recovered(w, j, content), l, Idle))
  {
    var stage := RestoreStage(l, true);
    var w' := After(rules, w, stage);
    Finishes(rules, w', l, j);
    RunStep(rules, w, stage, [stage] + ([stage] + ([Release(l)] + [])));
    assert SetPc(Recovered(w', j, content), l, Idle) == SetPc(Recovered(w, j, content), l, Idle);
  }

  function ToDecision(l: nat, rest: seq<Step>): seq<Step> {
    [PeekJournal(l)] + ([RecoverLock(l)] + ([RereadJournal(l)] + ([InspectOwner(l, DefinitelyDead)]
    + ([RestoreStage(l, true)] + ([RestoreStage(l, true)] + rest)))))
  }

  // Before the decision: the backup is read.
  function Deciding(w: World, l: nat, j: Journal): World
    requires l < |w.launchers| && j.nonce in w.backups
  {
    SetPc(w, l, Restoring(ReadCurrent(w.backups[j.nonce]), j, Recovery)).(lock := Some(l))
  }

  lemma Decides(rules: Rules, w: World, l: nat, j: Journal, rest: seq<Step>)
    requires Abandoned(w, l, j) && j.nonce in w.backups && Digest(w.backups[j.nonce]) == j.original
    ensures Run(rules, w, ToDecision(l, rest)) == Run(rules, Deciding(w, l, j), rest)
  {
    hide Run;
    var stage := RestoreStage(l, true);
    Starts(rules, w, l, j, [stage] + ([stage] + rest));
    var w1 := Started(w, l, j);
    var w2 := After(rules, w1, stage);
    assert After(rules, w2, stage) == Deciding(w, l, j);
    RunStep(rules, w2, stage, rest);
    RunStep(rules, w1, stage, [stage] + rest);
  }

  // A target that is missing or still the override is replaced by the original in the backup, an
  // edit that can be merged by its merge. Then the journal, its backup and the lock go, and nothing
  // else is changed.
  lemma RecoveryWrites(rules: Rules, w0: World, steps: seq<Step>, w: World, l: nat, j: Journal, content: Content)
    requires Init(w0) && Run(rules, w0, steps) == Some(w) && Abandoned(w, l, j)
    requires j.nonce in w.backups
    requires w.target.Some? ==> Digest(w.target.value) != j.original
    requires if Edited(w, j) then
               j.mode != LegacyOff && rules.merge(j.mode, w.target.value, w.backups[j.nonce]) == Some(content)
             else content == w.backups[j.nonce]
    ensures var stage := RestoreStage(l, true);
      Run(rules, w, ToDecision(l, [stage] + ([stage] + ([stage] + ([stage] + ([Release(l)] + []))))))
      == Some(w.(target := Some(content), journal := None, backups := w.backups - {j.nonce}))
  {
    hide Run, ToDecision;
    var stage := RestoreStage(l, true);
    var rest := [stage] + ([stage] + ([stage] + ([Release(l)] + [])));
    Kept(rules, w0, steps, w, l, j);
    Decides(rules, w, l, j, [stage] + rest);
    var w1 := Deciding(w, l, j);
    var w2 := After(rules, w1, stage);
    assert w2 == SetPc(w1, l, Restoring(WriteTarget(content), j, Recovery));
    RunStep(rules, w1, stage, rest);
    WritesAndFinishes(rules, w2, l, j, content);
    assert SetPc(Recovered(w2, j, content), l, Idle).launchers == w.launchers;
  }

  // A target that is the original already is left alone; the journal, its backup and the lock go.
  lemma RecoveryFinishes(rules: Rules, w0: World, steps: seq<Step>, w: World, l: nat, j: Journal)
    requires Init(w0) && Run(rules, w0, steps) == Some(w) && Abandoned(w, l, j)
    requires w.target.Some? && Digest(w.target.value) == j.original
    ensures var stage := RestoreStage(l, true);
      Run(rules, w, ToDecision(l, [stage] + ([stage] + ([stage] + ([Release(l)] + [])))))
      == Some(w.(journal := None, backups := w.backups - {j.nonce}))
  {
    hide Run, ToDecision;
    var stage := RestoreStage(l, true);
    var rest := [stage] + ([stage] + ([Release(l)] + []));
    Kept(rules, w0, steps, w, l, j);
    Decides(rules, w, l, j, [stage] + rest);
    var w1 := Deciding(w, l, j);
    var w2 := After(rules, w1, stage);
    assert w2 == SetPc(w1, l, Restoring(DeleteJournal, j, Recovery));
    RunStep(rules, w1, stage, rest);
    Finishes(rules, w2, l, j);
    assert SetPc(Recovered(w2, j, w2.target.value), l, Idle).launchers == w.launchers;
  }

  // An edit that cannot be merged is left alone, with journal and backup; in the plain mode a copy of
  // it is put aside.
  lemma RecoveryGivesUp(rules: Rules, w0: World, steps: seq<Step>, w: World, l: nat, j: Journal)
    requires Init(w0) && Run(rules, w0, steps) == Some(w) && Abandoned(w, l, j) && Edited(w, j)
    requires j.nonce in w.backups
    requires j.mode == LegacyOff || rules.merge(j.mode, w.target.value, w.backups[j.nonce]) == None
    ensures Run(rules, w, ToDecision(l, [RestoreStage(l, true)] + ([Release(l)] + [])))
      == Some(if j.mode == LegacyOff then w.(conflicts := w.conflicts + [w.target.value]) else w)
  {
    hide Run, ToDecision;
    Kept(rules, w0, steps, w, l, j);
    Decides(rules, w, l, j, [RestoreStage(l, true)] + ([Release(l)] + []));
    var w1 := Deciding(w, l, j);
    var w2 := After(rules, w1, RestoreStage(l, true));
    var w3 := After(rules, w2, Release(l));
    assert w3.launchers == w.launchers;
    RunNothing(rules, w3);
    RunStep(rules, w2, Release(l), []);
    RunStep(rules, w1, RestoreStage(l, true), [Release(l)] + []);
  }

  // No restore uses a backup that is missing or not what the journal says: in any world at all, the
  // files stay as they are and the restore ends in failure.
  lemma BackupIsChecked(rules: Rules, w: World, l: nat, deleted: bool)
    requires At(w, l) && w.launchers[l].pc.Restoring? && w.launchers[l].pc.stage.ReadBackup?
    requires var j := w.launchers[l].pc.j; j.nonce !in w.backups || Digest(w.backups[j.nonce]) != j.original
    ensures var w' := AfterStage(rules, w, l, deleted);
      && w'.target == w.target && w'.journal == w.journal && w'.backups == w.backups && w'.conflicts == w.conflicts
      && |w'.launchers| == |w.launchers| && (w'.launchers[l].pc == Leaving || w'.launchers[l].pc == Idle)
  {
  }

  // When the journal cannot be written, Begin takes its backup away again and lets go of the lock: the
  // files are as they were.
  lemma FailedJournalLeavesNoTrace(rules: Rules, w0: World, steps: seq<Step>, w: World, l: nat)
    requires Init(w0) && Run(rules, w0, steps) == Some(w)
    requires At(w, l) && w.launchers[l].pc.Prepared?
    ensures Run(rules, w, [CreateBackup(l)] + ([Throw(l)] + ([DropBackup(l, true)] + ([Release(l)] + []))))
      == Some(SetPc(w, l, Idle).(lock := None))
  {
    InitInv(w0);
    RunInv(rules, w0, steps);
    hide Run, Inv;
    PreparedIsNew(w, l);
    var w1 := After(rules, w, CreateBackup(l));
    var w2 := After(rules, w1, Throw(l));
    var w3 := After(rules, w2, DropBackup(l, true));
    var w4 := After(rules, w3, Release(l));
    assert w3.backups == w.backups;
    assert w4.launchers == SetPc(w, l, Idle).launchers;
    RunNothing(rules, w4);
    RunStep(rules, w3, Release(l), []);
    RunStep(rules, w2, DropBackup(l, true), [Release(l)] + []);
    RunStep(rules, w1, Throw(l), [DropBackup(l, true)] + ([Release(l)] + []));
    RunStep(rules, w, CreateBackup(l), [Throw(l)] + ([DropBackup(l, true)] + ([Release(l)] + [])));
  }

  lemma PreparedIsNew(w: World, l: nat)
    requires Inv(w) && At(w, l) && w.launchers[l].pc.Prepared?
    ensures w.launchers[l].pc.nonce !in w.backups
  {
    assert LauncherOk(w, l);
  }

  lemma RunNothing(rules: Rules, w: World)
    ensures Run(rules, w, []) == Some(w)
  {
  }
}
