// What becomes of an edit of the target that no launcher made.
module OverrideEdits {
  import opened Wrappers
  import opened OverrideSession
  import opened OverrideProofs
  import opened OverrideRecovery

  // The target of a plain session holds something that is neither its original nor its override.
  predicate Foreign(w: World) {
    w.journal.Some? && w.target.Some? &&
    var j := w.journal.value;
    j.mode == LegacyOff && Digest(w.target.value) != j.original && Digest(w.target.value) != j.overridden
  }

  // A launcher has read the target and has yet to write what it decided from that.
  predicate BetweenReadAndWrite(x: Launcher) {
    x.alive &&
    match x.pc
    case Prepared(_, _, _, _) => true
    case BackedUp(_, _, _, _) => true
    case Journaled(_, _) => true
    case Restoring(stage, _, _) => stage.WriteTarget? || stage.DeleteJournal?
    case _ => false
  }

  predicate Untouched(w: World) {
    forall l :: 0 <= l < |w.launchers| ==> !BetweenReadAndWrite(w.launchers[l])
  }

  // The mover leaves the files alone, and does not come between a read and a write.
  predicate LeavesForeign(w: World, w': World, l: nat) {
    && w'.target == w.target && w'.journal == w.journal && l < |w.launchers| && l < |w'.launchers|
    && !BetweenReadAndWrite(w'.launchers[l]) && (w'.launchers[l].active ==> w.launchers[l].active)
  }

  lemma StageLeavesForeign(rules: Rules, w: World, l: nat, deleted: bool)
    requires Foreign(w) && l < |w.launchers| && LauncherOk(w, l) && !BetweenReadAndWrite(w.launchers[l])
    requires Possible(w, RestoreStage(l, deleted))
    ensures LeavesForeign(w, AfterStage(rules, w, l, deleted), l)
  {
  }

  lemma MoverLeavesForeign(rules: Rules, w: World, s: Step)
    requires Possible(w, s) && !s.Edit? && !s.RestoreStage?
    requires Foreign(w) && s.l < |w.launchers| && LauncherOk(w, s.l) && !BetweenReadAndWrite(w.launchers[s.l])
    ensures LeavesForeign(w, After(rules, w, s), s.l)
  {
  }

  lemma StepKeepsForeign(rules: Rules, w: World, s: Step)
    requires Inv(w) && Foreign(w) && Untouched(w) && Possible(w, s) && !s.Edit?
    ensures var w' := After(rules, w, s);
      && w'.target == w.target && w'.journal == w.journal && Foreign(w') && Untouched(w')
      && |w'.launchers| == |w.launchers|
      && (forall u :: 0 <= u < |w.launchers| && u != s.l ==> w'.launchers[u] == w.launchers[u])
      && (w'.launchers[s.l].active ==> w.launchers[s.l].active)
  {
    InRange(w, s);
    assert LauncherOk(w, s.l) && !BetweenReadAndWrite(w.launchers[s.l]);
    StepHasOneMover(rules, w, s);
    if s.RestoreStage? {
      StageLeavesForeign(rules, w, s.l, s.deleted);
      assert After(rules, w, s) == AfterStage(rules, w, s.l, s.deleted);
    } else {
      MoverLeavesForeign(rules, w, s);
    }
    hide Inv, After, Possible, BetweenReadAndWrite;
    var w' := After(rules, w, s);
    forall u | 0 <= u < |w'.launchers| ensures !BetweenReadAndWrite(w'.launchers[u]) {
      assert !BetweenReadAndWrite(w.launchers[u]);
    }
  }

  lemma InRange(w: World, s: Step)
    requires Possible(w, s) && !s.Edit?
    ensures s.l < |w.launchers|
  {
  }

  // An outside edit of a plain session's target, made while no launcher is between reading and
  // writing it, survives everything the launchers do: the target and the journal stay as they
  // are, and no launcher can start another session.
  lemma {:induction false} EditSurvives(rules: Rules, w: World, steps: seq<Step>)
    requires Inv(w) && Foreign(w) && Untouched(w) && NoEdits(steps) && Run(rules, w, steps).Some?
    ensures var w' := Run(rules, w, steps).value;
      && w'.target == w.target && w'.journal == w.journal && |w'.launchers| == |w.launchers|
      && (forall l :: 0 <= l < |w.launchers| && w'.launchers[l].active ==> w.launchers[l].active)
    decreases |steps|
  {
    if steps != [] {
      StepInv(rules, w, steps[0]);
      StepKeepsForeign(rules, w, steps[0]);
      hide Inv, After, Untouched;
      EditSurvives(rules, After(rules, w, steps[0]), steps[1..]);
    }
  }

  lemma OutsideEditSurvives(rules: Rules, w0: World, before: seq<Step>, w: World, content: Content, after: seq<Step>, w': World)
    requires Init(w0) && Run(rules, w0, before) == Some(w) && Untouched(w)
    requires w.journal.Some? && w.journal.value.mode == LegacyOff
    requires Digest(content) != w.journal.value.original && Digest(content) != w.journal.value.overridden
    requires NoEdits(after) && Run(rules, After(rules, w, Edit(Some(content))), after) == Some(w')
    ensures w'.target == Some(content) && w'.journal == w.journal
    ensures forall l :: 0 <= l < |w.launchers| && l < |w'.launchers| && w'.launchers[l].active ==> w.launchers[l].active
  {
    InitInv(w0);
    RunInv(rules, w0, before);
    StepInv(rules, w, Edit(Some(content)));
    EditSurvives(rules, After(rules, w, Edit(Some(content))), after);
  }

  // ---- inside a window

  // Whatever the launchers do from here, target and journal stay as they are.
  ghost predicate Survives(rules: Rules, w: World) {
    forall after: seq<Step> :: NoEdits(after) && Run(rules, w, after).Some? ==>
      Run(rules, w, after).value.target == w.target && Run(rules, w, after).value.journal == w.journal
  }

  // A launcher with something left to write writes it, or deletes the journal.
  lemma WriterDisturbs(rules: Rules, w: World, l: nat)
    requires Inv(w) && Foreign(w) && l < |w.launchers| && BetweenReadAndWrite(w.launchers[l])
    ensures !Survives(rules, w)
  {
    assert LauncherOk(w, l);
    var x := w.launchers[l];
    if x.pc.Journaled? {
      OneStepDisturbs(rules, w, ApplyOverride(l));
    } else if x.pc.stage == DeleteJournal {
      OneStepDisturbs(rules, w, RestoreStage(l, true));
    } else {
      var w1 := After(rules, w, RestoreStage(l, true));
      var w2 := After(rules, w1, RestoreStage(l, true));
      assert Run(rules, w2, []) == Some(w2);
      RunStep(rules, w1, RestoreStage(l, true), []);
      RunStep(rules, w, RestoreStage(l, true), [RestoreStage(l, true)] + []);
      assert NoEdits([RestoreStage(l, true)] + ([RestoreStage(l, true)] + []));
    }
  }

  lemma OneStepDisturbs(rules: Rules, w: World, s: Step)
    requires Possible(w, s) && !s.Edit?
    requires After(rules, w, s).target != w.target || After(rules, w, s).journal != w.journal
    ensures !Survives(rules, w)
  {
    assert Run(rules, After(rules, w, s), []) == Some(After(rules, w, s));
    RunStep(rules, w, s, []);
    assert NoEdits([s] + []);
  }

  // An outside edit of a plain session's target survives exactly when it is made while no launcher
  // is between reading the target and the end of what it decided from that.
  lemma EditSurvivesIff(rules: Rules, w0: World, before: seq<Step>, w: World, content: Content)
    requires Init(w0) && Run(rules, w0, before) == Some(w)
    requires w.journal.Some? && w.journal.value.mode == LegacyOff
    requires Digest(content) != w.journal.value.original && Digest(content) != w.journal.value.overridden
    ensures Survives(rules, After(rules, w, Edit(Some(content)))) <==> Untouched(w)
  {
    InitInv(w0);
    RunInv(rules, w0, before);
    var edited := After(rules, w, Edit(Some(content)));
    StepInv(rules, w, Edit(Some(content)));
    if Untouched(w) {
      forall after: seq<Step> | NoEdits(after) && Run(rules, edited, after).Some?
        ensures Run(rules, edited, after).value.target == edited.target
        ensures Run(rules, edited, after).value.journal == edited.journal
      {
        EditSurvives(rules, edited, after);
      }
    } else {
      var l :| 0 <= l < |w.launchers| && BetweenReadAndWrite(w.launchers[l]);
      WriterDisturbs(rules, edited, l);
    }
  }

  // Begin's window opens at its read, before there is a journal. What Begin still has to do:
  function RestOfBegin(pc: Pc, l: nat): seq<Step> {
    match pc
    case Prepared(_, _, _, _) => [CreateBackup(l)] + ([WriteJournal(l)] + ([ApplyOverride(l)] + []))
    case BackedUp(_, _, _, _) => [WriteJournal(l)] + ([ApplyOverride(l)] + [])
    case _ => [ApplyOverride(l)] + []
  }

  predicate InBeginWindow(x: Launcher) {
    x.alive && (x.pc.Prepared? || x.pc.BackedUp? || x.pc.Journaled?)
  }

  // The target is what the launcher wrote, and no file keeps the edit: nothing was put aside, and
  // a backup made meanwhile holds what Begin had read.
  predicate Replaced(w: World, w': World, written: Content, read: Option<Content>) {
    && w'.target == Some(written) && w'.conflicts == w.conflicts
    && forall nonce :: nonce in w'.backups ==>
         (nonce in w.backups && w.backups[nonce] == w'.backups[nonce]) || Some(w'.backups[nonce]) == read
  }

  function ReadByBegin(pc: Pc): Option<Content> {
    match pc
    case Prepared(_, original, _, _) => Some(original)
    case BackedUp(_, original, _, _) => Some(original)
    case _ => None
  }

  lemma ApplyReplaces(rules: Rules, w: World, l: nat)
    requires At(w, l) && w.launchers[l].pc.Journaled?
    ensures var end := Run(rules, w, [ApplyOverride(l)] + []);
      end.Some? && Replaced(w, end.value, w.launchers[l].pc.overridden, None)
  {
    var w' := After(rules, w, ApplyOverride(l));
    assert Run(rules, w', []) == Some(w');
    RunStep(rules, w, ApplyOverride(l), []);
  }

  lemma JournalThenApply(rules: Rules, w: World, l: nat)
    requires At(w, l) && w.launchers[l].pc.BackedUp?
    ensures var end := Run(rules, w, [WriteJournal(l)] + ([ApplyOverride(l)] + []));
      end.Some? && Replaced(w, end.value, w.launchers[l].pc.overridden, None)
  {
    ApplyReplaces(rules, After(rules, w, WriteJournal(l)), l);
    RunStep(rules, w, WriteJournal(l), [ApplyOverride(l)] + []);
  }

  // An edit in Begin's window is replaced by Begin's write, and no file keeps it.
  lemma BeginReplacesEdit(rules: Rules, w0: World, before: seq<Step>, w: World, l: nat, content: Content)
    requires Init(w0) && Run(rules, w0, before) == Some(w)
    requires l < |w.launchers| && InBeginWindow(w.launchers[l])
    ensures var pc := w.launchers[l].pc;
      var end := Run(rules, After(rules, w, Edit(Some(content))), RestOfBegin(pc, l));
      end.Some? && Replaced(w, end.value, pc.overridden, ReadByBegin(pc))
  {
    InitInv(w0);
    RunInv(rules, w0, before);
    assert LauncherOk(w, l);
    var edited, pc := After(rules, w, Edit(Some(content))), w.launchers[l].pc;
    if pc.Prepared? {
      var backed := After(rules, edited, CreateBackup(l));
      JournalThenApply(rules, backed, l);
      RunStep(rules, edited, CreateBackup(l), [WriteJournal(l)] + ([ApplyOverride(l)] + []));
    } else if pc.BackedUp? {
      JournalThenApply(rules, edited, l);
    } else {
      ApplyReplaces(rules, edited, l);
    }
  }

  // An edit in a restore's window is replaced by the restore's write, and no file keeps it.
  lemma RestoreReplacesEdit(rules: Rules, w: World, l: nat, content: Content)
    requires At(w, l) && w.launchers[l].pc.Restoring? && w.launchers[l].pc.stage.WriteTarget?
    ensures var end := Run(rules, After(rules, w, Edit(Some(content))), [RestoreStage(l, true)] + []);
      end.Some? && Replaced(w, end.value, w.launchers[l].pc.stage.content, None)
  {
    var edited := After(rules, w, Edit(Some(content)));
    var w' := After(rules, edited, RestoreStage(l, true));
    assert Run(rules, w', []) == Some(w');
    RunStep(rules, edited, RestoreStage(l, true), []);
  }

  // ---- the two windows are reached: one launcher, one session

  function OneLauncher(baseline: Content): World {
    World(Some(baseline), None, map[], [], None, [Launcher(true, false, 0, Idle)], 0)
  }

  function BeginSteps(mode: Mode): seq<Step> {
    [BeginLock(0, mode)] + ([CheckJournal(0)] + ([ReadOriginal(0)] + []))
  }

  // After Begin's read, after Begin, and before a restore's write.
  function AfterRead(mode: Mode, baseline: Content, overridden: Content): World {
    World(Some(baseline), None, map[], [], Some(0),
          [Launcher(true, false, 0, Prepared(mode, baseline, overridden, 0))], 1)
  }

  function TheJournal(mode: Mode, baseline: Content, overridden: Content): Journal {
    Journal(0, 0, mode, Digest(baseline), Digest(overridden))
  }

  function InSession(mode: Mode, baseline: Content, overridden: Content, pc: Pc): World {
    World(Some(overridden), Some(TheJournal(mode, baseline, overridden)), map[0 := baseline], [], Some(0),
          [Launcher(true, true, 0, pc)], 1)
  }

  function BeforeWrite(mode: Mode, baseline: Content, overridden: Content): World {
    InSession(mode, baseline, overridden,
              Restoring(WriteTarget(baseline), TheJournal(mode, baseline, overridden), Own(false)))
  }

  lemma BeginWindowIsReached(rules: Rules, mode: Mode, baseline: Content)
    requires rules.override(mode, baseline).Some?
    ensures Init(OneLauncher(baseline))
    ensures Run(rules, OneLauncher(baseline), BeginSteps(mode))
         == Some(AfterRead(mode, baseline, rules.override(mode, baseline).value))
  {
    var w := OneLauncher(baseline);
    var w1 := After(rules, w, BeginLock(0, mode));
    var w2 := After(rules, w1, CheckJournal(0));
    var w3 := After(rules, w2, ReadOriginal(0));
    assert w3.launchers == AfterRead(mode, baseline, rules.override(mode, baseline).value).launchers;
    assert Run(rules, w3, []) == Some(w3);
    RunStep(rules, w2, ReadOriginal(0), []);
    RunStep(rules, w1, CheckJournal(0), [ReadOriginal(0)] + []);
    RunStep(rules, w, BeginLock(0, mode), [CheckJournal(0)] + ([ReadOriginal(0)] + []));
  }

  lemma BeginEnds(rules: Rules, mode: Mode, baseline: Content, overridden: Content)
    ensures Run(rules, AfterRead(mode, baseline, overridden),
                [CreateBackup(0)] + ([WriteJournal(0)] + ([ApplyOverride(0)] + [])))
         == Some(InSession(mode, baseline, overridden, Idle))
  {
    var w := AfterRead(mode, baseline, overridden);
    var w1 := After(rules, w, CreateBackup(0));
    var w2 := After(rules, w1, WriteJournal(0));
    var w3 := After(rules, w2, ApplyOverride(0));
    assert w3 == InSession(mode, baseline, overridden, Idle);
    assert Run(rules, w3, []) == Some(w3);
    RunStep(rules, w2, ApplyOverride(0), []);
    RunStep(rules, w1, WriteJournal(0), [ApplyOverride(0)] + []);
    RunStep(rules, w, CreateBackup(0), [WriteJournal(0)] + ([ApplyOverride(0)] + []));
  }

  // The restore of an untouched session, up to its write.
  function RestoreSoFar(): seq<Step> {
    [StartRestore(0, false, true)]
    + ([RestoreStage(0, true)] + ([RestoreStage(0, true)] + ([RestoreStage(0, true)] + [])))
  }

  lemma RestoreWindowIsReached(rules: Rules, mode: Mode, baseline: Content, overridden: Content)
    requires overridden != baseline
    ensures Run(rules, InSession(mode, baseline, overridden, Idle), RestoreSoFar())
         == Some(BeforeWrite(mode, baseline, overridden))
  {
    var stage, w := RestoreStage(0, true), InSession(mode, baseline, overridden, Idle);
    var w1 := After(rules, w, StartRestore(0, false, true));
    var w2 := After(rules, w1, stage);
    var w3 := After(rules, w2, stage);
    var w4 := After(rules, w3, stage);
    assert w4 == BeforeWrite(mode, baseline, overridden);
    assert Run(rules, w4, []) == Some(w4);
    RunStep(rules, w3, stage, []);
    RunStep(rules, w2, stage, [stage] + []);
    RunStep(rules, w1, stage, [stage] + ([stage] + []));
    RunStep(rules, w, StartRestore(0, false, true), [stage] + ([stage] + ([stage] + [])));
  }

  // The run ends with `written` in the target and the edit in no file.
  predicate LosesEdit(rules: Rules, baseline: Content, steps: seq<Step>, written: Content, content: Content) {
    var end := Run(rules, OneLauncher(baseline), steps);
    && Edit(Some(content)) in steps && end.Some?
    && end.value.target == Some(written) != Some(content) && end.value.conflicts == []
    && forall nonce :: nonce in end.value.backups ==> end.value.backups[nonce] != content
  }

  // From the initial files: Begin reads, the user edits, Begin writes, and the edit is gone.
  lemma BeginLosesAnEdit(rules: Rules, mode: Mode, baseline: Content, content: Content)
    requires rules.override(mode, baseline).Some?
    requires content != baseline && content != rules.override(mode, baseline).value
    ensures LosesEdit(rules, baseline,
      BeginSteps(mode) + ([Edit(Some(content))] + ([CreateBackup(0)] + ([WriteJournal(0)] + ([ApplyOverride(0)] + [])))),
      rules.override(mode, baseline).value, content)
  {
    var overridden := rules.override(mode, baseline).value;
    var w0, w := OneLauncher(baseline), AfterRead(mode, baseline, overridden);
    var rest := RestOfBegin(w.launchers[0].pc, 0);
    BeginWindowIsReached(rules, mode, baseline);
    RunStep(rules, w, Edit(Some(content)), rest);
    BeginReplacesEdit(rules, w0, BeginSteps(mode), w, 0, content);
    RunAppend(rules, w0, BeginSteps(mode), [Edit(Some(content))] + rest);
  }

  // And a restore reads, the user edits, the restore writes, and the edit is gone.
  lemma RestoreLosesAnEdit(rules: Rules, mode: Mode, baseline: Content, content: Content)
    requires rules.override(mode, baseline).Some? && rules.override(mode, baseline).value != baseline
    requires content != baseline
    ensures LosesEdit(rules, baseline,
      (BeginSteps(mode) + ([CreateBackup(0)] + ([WriteJournal(0)] + ([ApplyOverride(0)] + [])))) + RestoreSoFar()
      + ([Edit(Some(content))] + ([RestoreStage(0, true)] + [])),
      baseline, content)
  {
    var overridden := rules.override(mode, baseline).value;
    var w0, w := OneLauncher(baseline), BeforeWrite(mode, baseline, overridden);
    var begin := [CreateBackup(0)] + ([WriteJournal(0)] + ([ApplyOverride(0)] + []));
    var lost := [Edit(Some(content))] + ([RestoreStage(0, true)] + []);
    BeginWindowIsReached(rules, mode, baseline);
    BeginEnds(rules, mode, baseline, overridden);
    RestoreWindowIsReached(rules, mode, baseline, overridden);
    RunAppend(rules, w0, BeginSteps(mode), begin);
    RunAppend(rules, w0, BeginSteps(mode) + begin, RestoreSoFar());
    RestoreReplacesEdit(rules, w, 0, content);
    RunStep(rules, w, Edit(Some(content)), [RestoreStage(0, true)] + []);
    RunAppend(rules, w0, BeginSteps(mode) + begin + RestoreSoFar(), lost);
    assert lost[0] == Edit(Some(content));
  }
}
