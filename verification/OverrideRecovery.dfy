// Recovery completes, recovery is idempotent, recovery keeps its hands off what is not abandoned,
// and edits made by others survive.
module OverrideRecovery {
  import opened Wrappers
  import opened OverrideSession
  import opened OverrideProofs

  lemma RunStep(rules: Rules, w: World, s: Step, rest: seq<Step>)
    requires Possible(w, s)
    ensures Run(rules, w, [s] + rest) == Run(rules, After(rules, w, s), rest)
  {
  }

  lemma {:induction false} RunAppend(rules: Rules, w: World, first: seq<Step>, second: seq<Step>)
    requires Run(rules, w, first).Some?
    ensures Run(rules, w, first + second) == Run(rules, Run(rules, w, first).value, second)
    decreases |first|
  {
    if first == [] {
      assert first + second == second;
    } else {
      assert (first + second)[0] == first[0] && (first + second)[1..] == first[1..] + second;
      RunAppend(rules, After(rules, w, first[0]), first[1..], second);
    }
  }

  lemma {:induction false} RunPrefix(rules: Rules, w: World, steps: seq<Step>, n: nat)
    requires Run(rules, w, steps).Some? && n <= |steps|
    ensures Run(rules, w, steps[..n]).Some?
    decreases |steps|
  {
    if n > 0 {
      assert steps[..n][0] == steps[0] && steps[..n][1..] == steps[1..][..n - 1];
      RunPrefix(rules, After(rules, w, steps[0]), steps[1..], n - 1);
    }
  }

  // ---------------------------------------------------------------------------
  // A complete recovery by launcher l.

  function RestoreSteps(w: World, l: nat, j: Journal): seq<Step> {
    [RestoreStage(l, true)] + ([RestoreStage(l, true)] + ([RestoreStage(l, true)] + FinishSteps(w, l, j)))
  }

  function FinishSteps(w: World, l: nat, j: Journal): seq<Step> {
    var tail := [RestoreStage(l, true)] + ([RestoreStage(l, true)] + ([Release(l)] + []));
    if w.target.Some? && Digest(w.target.value) == j.original then tail else [RestoreStage(l, true)] + tail
  }

  function RecoverySteps(w: World, l: nat): seq<Step>
    requires w.journal.Some?
  {
    [PeekJournal(l)] + ([RecoverLock(l)] + ([RereadJournal(l)] + ([InspectOwner(l, DefinitelyDead)]
    + RestoreSteps(w, l, w.journal.value))))
  }

  // The world with nothing changed but what a finished recovery changes.
  function Recovered(w: World, j: Journal, original: Content): World {
    w.(target := Some(original), journal := None, backups := w.backups - {j.nonce}, lock := None)
  }

  predicate Restorable(w: World, j: Journal) {
    && w.journal == Some(j)
    && j.nonce in w.backups && Digest(w.backups[j.nonce]) == j.original
    && w.target.Some?
    && (Digest(w.target.value) == j.original || Digest(w.target.value) == j.overridden)
  }

  lemma Finishes(rules: Rules, w: World, l: nat, j: Journal)
    requires At(w, l) && w.launchers[l].pc == Restoring(DeleteJournal, j, Recovery) && w.target.Some?
    ensures Run(rules, w, [RestoreStage(l, true)] + ([RestoreStage(l, true)] + ([Release(l)] + [])))
         == Some(SetPc(Recovered(w, j, w.target.value), l, Idle))
  {
    var w1 := After(rules, w, RestoreStage(l, true));
    var w2 := After(rules, w1, RestoreStage(l, true));
    var w3 := After(rules, w2, Release(l));
    assert w3 == SetPc(Recovered(w, j, w.target.value), l, Idle);
    assert Run(rules, w3, []) == Some(w3);
    RunStep(rules, w2, Release(l), []);
    RunStep(rules, w1, RestoreStage(l, true), [Release(l)] + []);
    RunStep(rules, w, RestoreStage(l, true), [RestoreStage(l, true)] + ([Release(l)] + []));
  }

  lemma Restores(rules: Rules, w: World, l: nat, j: Journal)
    requires At(w, l) && w.launchers[l].pc == Restoring(FindBackup, j, Recovery) && Restorable(w, j)
    ensures Run(rules, w, RestoreSteps(w, l, j))
         == Some(SetPc(Recovered(w, j, w.backups[j.nonce]), l, Idle))
  {
    var original := w.backups[j.nonce];
    var stage := RestoreStage(l, true);
    var w1 := After(rules, w, stage);
    var w2 := After(rules, w1, stage);
    var w3 := After(rules, w2, stage);
    var finish := FinishSteps(w, l, j);
    RunStep(rules, w2, stage, finish);
    RunStep(rules, w1, stage, [stage] + finish);
    RunStep(rules, w, stage, [stage] + ([stage] + finish));
    if Digest(w.target.value) == j.original {
      Finishes(rules, w3, l, j);
      assert SetPc(Recovered(w3, j, original), l, Idle) == SetPc(Recovered(w, j, original), l, Idle);
    } else {
      var w4 := After(rules, w3, stage);
      Finishes(rules, w4, l, j);
      RunStep(rules, w3, stage, [stage] + ([stage] + ([Release(l)] + [])));
      assert SetPc(Recovered(w4, j, original), l, Idle) == SetPc(Recovered(w, j, original), l, Idle);
    }
  }

  // The world in which launcher l, having found the owner dead, starts to restore.
  function Started(w: World, l: nat, j: Journal): World
    requires l < |w.launchers|
  {
    SetPc(w, l, Restoring(FindBackup, j, Recovery)).(lock := Some(l))
  }

  lemma Starts(rules: Rules, w: World, l: nat, j: Journal, rest: seq<Step>)
    requires At(w, l) && w.launchers[l].pc.Idle? && !w.launchers[l].active && w.lock == None
    requires w.journal == Some(j) && Dead(w, j.owner)
    ensures Run(rules, w, [PeekJournal(l)] + ([RecoverLock(l)] + ([RereadJournal(l)] + ([InspectOwner(l, DefinitelyDead)] + rest))))
         == Run(rules, Started(w, l, j), rest)
  {
    var w1 := After(rules, w, PeekJournal(l));
    var w2 := After(rules, w1, RecoverLock(l));
    var w3 := After(rules, w2, RereadJournal(l));
    assert After(rules, w3, InspectOwner(l, DefinitelyDead)) == Started(w, l, j);
    RunStep(rules, w3, InspectOwner(l, DefinitelyDead), rest);
    RunStep(rules, w2, RereadJournal(l), [InspectOwner(l, DefinitelyDead)] + rest);
    RunStep(rules, w1, RecoverLock(l), [RereadJournal(l)] + ([InspectOwner(l, DefinitelyDead)] + rest));
    hide After, Possible;
    RunStep(rules, w, PeekJournal(l), [RecoverLock(l)] + ([RereadJournal(l)] + ([InspectOwner(l, DefinitelyDead)] + rest)));
  }

  lemma Recovers(rules: Rules, w: World, l: nat, j: Journal)
    requires At(w, l) && w.launchers[l].pc.Idle? && !w.launchers[l].active && w.lock == None
    requires Restorable(w, j) && Dead(w, j.owner)
    ensures Run(rules, w, RecoverySteps(w, l)) == Some(Recovered(w, j, w.backups[j.nonce]))
  {
    hide Run;
    var started := Started(w, l, j);
    Starts(rules, w, l, j, RestoreSteps(w, l, j));
    assert RestoreSteps(started, l, j) == RestoreSteps(w, l, j);
    Restores(rules, started, l, j);
    assert SetPc(Recovered(started, j, w.backups[j.nonce]), l, Idle).launchers == w.launchers;
  }

  // Wherever the owner crashed, a launcher that finds the lock free recovers the baseline, and
  // leaves no journal, no lock and no trace of itself.
  lemma RecoveryRestoresBaseline(rules: Rules, w0: World, steps: seq<Step>, w: World, l: nat)
    requires Init(w0) && NoEdits(steps) && Run(rules, w0, steps) == Some(w)
    requires w.journal.Some? && Dead(w, w.journal.value.owner) && w.lock == None
    requires At(w, l) && w.launchers[l].pc.Idle?
    ensures Run(rules, w, RecoverySteps(w, l)).Some?
    ensures var w' := Run(rules, w, RecoverySteps(w, l)).value;
      && w'.target == w0.target && w'.journal == None && w'.lock == None && w'.launchers == w.launchers
  {
    InitInv(w0);
    RunInv(rules, w0, steps);
    RunBaseline(rules, w0.target.value, w0, steps);
    assert Holds(w.launchers[l]) ==> w.lock == Some(l);
    Recovers(rules, w, l, w.journal.value);
  }

  predicate InRecovery(s: Step, l: nat) {
    (s.PeekJournal? || s.RecoverLock? || s.RereadJournal? || s.InspectOwner? || s.RestoreStage? || s.Release?)
    && s.l == l
  }

  predicate OnlyOwnRecord(w: World, w': World, l: nat) {
    && |w'.launchers| == |w.launchers|
    && (forall u :: 0 <= u < |w.launchers| && u != l ==> w'.launchers[u] == w.launchers[u])
    && (w'.journal == w.journal || w'.journal == None)
  }

  predicate FreeFor(w: World, l: nat) {
    At(w, l) && (w.lock == None || w.lock == Some(l))
  }

  lemma StageIsLocal(rules: Rules, w: World, l: nat, deleted: bool)
    requires FreeFor(w, l) && w.launchers[l].pc.Restoring?
    ensures OnlyOwnRecord(w, AfterStage(rules, w, l, deleted), l) && FreeFor(AfterStage(rules, w, l, deleted), l)
  {
  }

  lemma RecoveryStepIsLocal(rules: Rules, w: World, s: Step, l: nat)
    requires FreeFor(w, l) && Possible(w, s) && InRecovery(s, l)
    ensures OnlyOwnRecord(w, After(rules, w, s), l) && FreeFor(After(rules, w, s), l)
  {
    if s.RestoreStage? {
      StageIsLocal(rules, w, l, s.deleted);
      hide AfterStage;
    }
  }

  // Part of a recovery by l touches no other launcher and writes no journal.
  lemma {:induction false} PartialRecovery(rules: Rules, w: World, steps: seq<Step>, l: nat)
    requires FreeFor(w, l) && Run(rules, w, steps).Some?
    requires forall i :: 0 <= i < |steps| ==> InRecovery(steps[i], l)
    ensures OnlyOwnRecord(w, Run(rules, w, steps).value, l) && FreeFor(Run(rules, w, steps).value, l)
    decreases |steps|
  {
    if steps != [] {
      RecoveryStepIsLocal(rules, w, steps[0], l);
      hide After;
      PartialRecovery(rules, After(rules, w, steps[0]), steps[1..], l);
    }
  }

  lemma RecoveryStepsAreOwn(w: World, l: nat)
    requires w.journal.Some?
    ensures forall i :: 0 <= i < |RecoverySteps(w, l)| ==> InRecovery(RecoverySteps(w, l)[i], l)
  {
  }

  // The world after n steps of a recovery by l and then its crash.
  function Cut(rules: Rules, w: World, l: nat, n: nat): Option<World>
    requires w.journal.Some? && n <= |RecoverySteps(w, l)|
  {
    Run(rules, w, RecoverySteps(w, l)[..n] + [Crash(l)])
  }

  lemma CutIsReached(rules: Rules, w: World, l: nat, n: nat)
    requires w.journal.Some? && w.lock == None && At(w, l) && n <= |RecoverySteps(w, l)|
    requires Run(rules, w, RecoverySteps(w, l)).Some?
    ensures Cut(rules, w, l, n).Some?
    ensures var cut := Cut(rules, w, l, n).value;
      && |cut.launchers| == |w.launchers| && cut.lock == None
      && (forall u :: 0 <= u < |w.launchers| && u != l ==> cut.launchers[u] == w.launchers[u])
      && (cut.journal == w.journal || cut.journal == None)
  {
    var part := RecoverySteps(w, l)[..n];
    RunPrefix(rules, w, RecoverySteps(w, l), n);
    RecoveryStepsAreOwn(w, l);
    PartialRecovery(rules, w, part, l);
    var w1 := Run(rules, w, part).value;
    RunStep(rules, w1, Crash(l), []);
    assert [Crash(l)] + [] == [Crash(l)];
    assert Run(rules, After(rules, w1, Crash(l)), []) == Some(After(rules, w1, Crash(l)));
    RunAppend(rules, w, part, [Crash(l)]);
  }

  // A recovery that is itself cut short by a crash after any number of its steps has either
  // already restored the baseline, or is completed to the same end by the next launcher's.
  lemma RecoveryIsIdempotent(rules: Rules, w0: World, steps: seq<Step>, w: World, l: nat, n: nat, m: nat)
    requires Init(w0) && NoEdits(steps) && Run(rules, w0, steps) == Some(w)
    requires w.journal.Some? && Dead(w, w.journal.value.owner) && w.lock == None
    requires At(w, l) && w.launchers[l].pc.Idle? && At(w, m) && w.launchers[m].pc.Idle? && l != m
    requires n <= |RecoverySteps(w, l)|
    ensures Cut(rules, w, l, n).Some?
    ensures var cut := Cut(rules, w, l, n).value;
      if cut.journal == None then cut.target == w0.target
      else
        var again := Run(rules, cut, RecoverySteps(cut, m));
        again.Some? && again.value.target == w0.target && again.value.journal == None
  {
    hide RecoverySteps, Run;
    RecoveryRestoresBaseline(rules, w0, steps, w, l);
    CutIsReached(rules, w, l, n);
    var more := RecoverySteps(w, l)[..n] + [Crash(l)];
    RunAppend(rules, w0, steps, more);
    RecoveryStepsAreOwn(w, l);
    FromReached(rules, w0, steps + more, Cut(rules, w, l, n).value, m);
  }

  lemma FromReached(rules: Rules, w0: World, steps: seq<Step>, w: World, m: nat)
    requires Init(w0) && NoEdits(steps) && Run(rules, w0, steps) == Some(w)
    requires At(w, m) && w.launchers[m].pc.Idle? && w.lock == None
    requires w.journal.Some? ==> Dead(w, w.journal.value.owner)
    ensures if w.journal == None then w.target == w0.target
            else
              var again := Run(rules, w, RecoverySteps(w, m));
              again.Some? && again.value.target == w0.target && again.value.journal == None
  {
    if w.journal == None {
      CrashSafe(rules, w0, steps, w);
    } else {
      RecoveryRestoresBaseline(rules, w0, steps, w, m);
    }
  }

  // ---------------------------------------------------------------------------
  // What recovery may not touch.

  // A launcher changes the target or the journal of a session it did not start only while it
  // holds the lock, and only after that session's owner is dead.
  lemma OnlyAbandonedIsTouched(rules: Rules, w0: World, steps: seq<Step>, w: World, s: Step)
    requires Init(w0) && Run(rules, w0, steps) == Some(w)
    requires Possible(w, s) && !s.Edit? && w.journal.Some? && w.journal.value.owner != s.l
    requires After(rules, w, s).target != w.target || After(rules, w, s).journal != w.journal
    ensures w.lock == Some(s.l) && Dead(w, w.journal.value.owner)
  {
    InitInv(w0);
    RunInv(rules, w0, steps);
    assert LauncherOk(w, s.l);
    assert Holds(w.launchers[s.l]) ==> w.lock == Some(s.l);
  }
}
