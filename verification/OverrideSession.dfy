// The crash-safe config override of TcsOverrideTransaction.cs: any number of launcher processes
// sharing one target file, its ownership lock, its journal and its backups.
//
// Every file operation is one step, any launcher may crash between two of them, and any operation
// may throw without having had its effect. Replacing a file is atomic, the lock dies with its
// process, and a process is only ever called dead when it is. One target key is modelled; the
// files of different keys are disjoint.
module OverrideSession {
  import opened Wrappers

  type Content = string

  datatype Mode = LegacyOff | MonitorPreset | MsaaOff

  // The text of the three overrides: what Begin writes for a given original, and what a restore
  // writes over a target that is neither the original nor the override. LegacyOff has no merge.
  datatype Rules = Rules(
    override: (Mode, Content) -> Option<Content>,
    merge: (Mode, Content, Content) -> Option<Content>)

  // SHA-256, taken to be injective.
  datatype Digest = Digest(of: Content)

  // `owner` stands for the process id and start time, which identify one process for ever.
  datatype Journal = Journal(nonce: nat, owner: nat, mode: Mode, original: Digest, overridden: Digest)

  datatype Liveness = Alive | DefinitelyDead | Unknown

  // Why RestoreJournal runs, and so what follows it.
  datatype Reason = Resolve(mode: Mode) | Rollback | Own(disposing: bool) | Recovery

  datatype Stage =
    | FindBackup
    | ReadBackup
    | ReadCurrent(original: Content)
    | WriteTarget(content: Content)
    | DeleteJournal
    | DeleteBackup

  // The next file operation of a launcher.
  datatype Pc =
    | Idle
    // Begin
    | Locked(mode: Mode)
    | Found(mode: Mode, j: Journal)
    | Reading(mode: Mode)
    | Prepared(mode: Mode, original: Content, overridden: Content, nonce: nat)
    | BackedUp(mode: Mode, original: Content, overridden: Content, nonce: nat)
    | JournalFailed(nonce: nat)
    | Journaled(j: Journal, overridden: Content)
    // RestoreJournal
    | Restoring(stage: Stage, j: Journal, reason: Reason)
    // RecoverAbandonedTransactions
    | Peeked(j: Journal)
    | Relocked(j: Journal)
    | Verified(j: Journal)
    // Every way out that still has to let go of the lock
    | Leaving

  // `active` and `session` are _active and _sessionNonce.
  datatype Launcher = Launcher(alive: bool, active: bool, session: nat, pc: Pc)

  datatype World = World(
    target: Option<Content>,
    journal: Option<Journal>,
    backups: map<nat, Content>,
    conflicts: seq<Content>,
    lock: Option<nat>,
    launchers: seq<Launcher>,
    nextNonce: nat)

  datatype Step =
    | BeginLock(l: nat, mode: Mode)
    | CheckJournal(l: nat)
    | InspectBeforeBegin(l: nat, answer: Liveness)
    | ReadOriginal(l: nat)
    | CreateBackup(l: nat)
    | WriteJournal(l: nat)
    | DropBackup(l: nat, deleted: bool)
    | ApplyOverride(l: nat)
    | StartRestore(l: nat, disposing: bool, readable: bool)
    | RestoreStage(l: nat, deleted: bool)
    | PeekJournal(l: nat)
    | RecoverLock(l: nat)
    | RereadJournal(l: nat)
    | InspectOwner(l: nat, answer: Liveness)
    | Throw(l: nat)
    | Release(l: nat)
    | Crash(l: nat)
    | Edit(content: Option<Content>)

  predicate Truthful(w: World, owner: nat, answer: Liveness) {
    && (answer == DefinitelyDead ==> owner < |w.launchers| && !w.launchers[owner].alive)
    && (answer == Alive ==> owner < |w.launchers| && w.launchers[owner].alive)
  }

  predicate At(w: World, l: nat) {
    l < |w.launchers| && w.launchers[l].alive
  }

  predicate Possible(w: World, s: Step) {
    match s
    case BeginLock(l, mode) =>
      At(w, l) && w.launchers[l].pc.Idle? && !w.launchers[l].active && w.target.Some? && w.lock == None
    case CheckJournal(l) => At(w, l) && w.launchers[l].pc.Locked?
    case InspectBeforeBegin(l, answer) =>
      At(w, l) && w.launchers[l].pc.Found? && Truthful(w, w.launchers[l].pc.j.owner, answer)
    case ReadOriginal(l) => At(w, l) && w.launchers[l].pc.Reading?
    case CreateBackup(l) => At(w, l) && w.launchers[l].pc.Prepared? && w.launchers[l].pc.nonce !in w.backups
    case WriteJournal(l) => At(w, l) && w.launchers[l].pc.BackedUp?
    case DropBackup(l, deleted) => At(w, l) && w.launchers[l].pc.JournalFailed?
    case ApplyOverride(l) => At(w, l) && w.launchers[l].pc.Journaled?
    case StartRestore(l, disposing, readable) => At(w, l) && w.launchers[l].pc.Idle? && w.launchers[l].active
    case RestoreStage(l, deleted) => At(w, l) && w.launchers[l].pc.Restoring?
    case PeekJournal(l) =>
      At(w, l) && w.launchers[l].pc.Idle? && !w.launchers[l].active && w.journal.Some?
    case RecoverLock(l) => At(w, l) && w.launchers[l].pc.Peeked?
    case RereadJournal(l) => At(w, l) && w.launchers[l].pc.Relocked?
    case InspectOwner(l, answer) =>
      At(w, l) && w.launchers[l].pc.Verified? && Truthful(w, w.launchers[l].pc.j.owner, answer)
    case Throw(l) => At(w, l) && CanThrow(w.launchers[l].pc)
    case Release(l) => At(w, l) && w.launchers[l].pc.Leaving?
    case Crash(l) => At(w, l)
    case Edit(content) => true
  }

  predicate CanThrow(pc: Pc) {
    match pc
    case Idle => false
    case Leaving => false
    case JournalFailed(_) => false  // TryDelete swallows its errors
    case Restoring(stage, _, _) => stage != DeleteBackup
    case _ => true
  }

  function SetPc(w: World, l: nat, pc: Pc): World
    requires l < |w.launchers|
  {
    w.(launchers := w.launchers[l := w.launchers[l].(pc := pc)])
  }

  // RestoreJournal threw.
  function RestoreFailed(w: World, l: nat): World
    requires l < |w.launchers| && w.launchers[l].pc.Restoring?
  {
    match w.launchers[l].pc.reason
    case Own(disposing) =>
      if disposing then w.(launchers := w.launchers[l := w.launchers[l].(active := false, pc := Leaving)])
      else SetPc(w, l, Idle)
    case _ => SetPc(w, l, Leaving)
  }

  // RestoreJournal returned.
  function RestoreDone(w: World, l: nat): World
    requires l < |w.launchers| && w.launchers[l].pc.Restoring?
  {
    match w.launchers[l].pc.reason
    case Own(_) => w.(launchers := w.launchers[l := w.launchers[l].(active := false, pc := Leaving)])
    case Resolve(mode) => SetPc(w, l, Reading(mode))
    case _ => SetPc(w, l, Leaving)
  }

  function NextStage(w: World, l: nat, stage: Stage): World
    requires l < |w.launchers| && w.launchers[l].pc.Restoring?
  {
    SetPc(w, l, w.launchers[l].pc.(stage := stage))
  }

  // One operation of RestoreJournal. `deleted` is the outcome of the final TryDelete.
  function AfterStage(rules: Rules, w: World, l: nat, deleted: bool): World
    requires l < |w.launchers| && w.launchers[l].pc.Restoring?
  {
    var pc := w.launchers[l].pc;
    match pc.stage
    case FindBackup =>
      if pc.j.nonce in w.backups then NextStage(w, l, ReadBackup) else RestoreFailed(w, l)
    case ReadBackup =>
      if pc.j.nonce !in w.backups || Digest(w.backups[pc.j.nonce]) != pc.j.original then RestoreFailed(w, l)
      else NextStage(w, l, ReadCurrent(w.backups[pc.j.nonce]))
    case ReadCurrent(original) =>
      if w.target == None then NextStage(w, l, WriteTarget(original))
      else
        var current := w.target.value;
        if Digest(current) == pc.j.original then NextStage(w, l, DeleteJournal)
        else if Digest(current) == pc.j.overridden then NextStage(w, l, WriteTarget(original))
        else if pc.j.mode == LegacyOff then
          RestoreFailed(w.(conflicts := w.conflicts + [current]), l)
        else if rules.merge(pc.j.mode, current, original).Some? then
          NextStage(w, l, WriteTarget(rules.merge(pc.j.mode, current, original).value))
        else RestoreFailed(w, l)
    case WriteTarget(content) => NextStage(w.(target := Some(content)), l, DeleteJournal)
    case DeleteJournal => NextStage(w.(journal := None), l, DeleteBackup)
    case DeleteBackup =>
      RestoreDone(if deleted then w.(backups := w.backups - {pc.j.nonce}) else w, l)
  }

  function AfterThrow(w: World, l: nat): World
    requires l < |w.launchers| && CanThrow(w.launchers[l].pc)
  {
    match w.launchers[l].pc
    case BackedUp(_, _, _, nonce) => SetPc(w, l, JournalFailed(nonce))
    case Journaled(j, _) => SetPc(w, l, Restoring(FindBackup, j, Rollback))
    case Restoring(_, _, _) => RestoreFailed(w, l)
    case Peeked(_) => SetPc(w, l, Idle)
    case _ => SetPc(w, l, Leaving)
  }

  function After(rules: Rules, w: World, s: Step): World
    requires Possible(w, s)
  {
    match s
    case BeginLock(l, mode) => SetPc(w, l, Locked(mode)).(lock := Some(l))
    case CheckJournal(l) =>
      var mode := w.launchers[l].pc.mode;
      SetPc(w, l, if w.journal == None then Reading(mode) else Found(mode, w.journal.value))
    case InspectBeforeBegin(l, answer) =>
      var pc := w.launchers[l].pc;
      SetPc(w, l, if answer == DefinitelyDead then Restoring(FindBackup, pc.j, Resolve(pc.mode)) else Leaving)
    case ReadOriginal(l) =>
      var mode := w.launchers[l].pc.mode;
      if w.target == None || rules.override(mode, w.target.value) == None then SetPc(w, l, Leaving)
      else
        SetPc(w, l, Prepared(mode, w.target.value, rules.override(mode, w.target.value).value, w.nextNonce))
        .(nextNonce := w.nextNonce + 1)
    case CreateBackup(l) =>
      var pc := w.launchers[l].pc;
      SetPc(w, l, BackedUp(pc.mode, pc.original, pc.overridden, pc.nonce))
      .(backups := w.backups[pc.nonce := pc.original])
    case WriteJournal(l) =>
      var pc := w.launchers[l].pc;
      var j := Journal(pc.nonce, l, pc.mode, Digest(pc.original), Digest(pc.overridden));
      SetPc(w, l, Journaled(j, pc.overridden)).(journal := Some(j))
    case DropBackup(l, deleted) =>
      var nonce := w.launchers[l].pc.nonce;
      SetPc(if deleted then w.(backups := w.backups - {nonce}) else w, l, Leaving)
    case ApplyOverride(l) =>
      var pc := w.launchers[l].pc;
      w.(target := Some(pc.overridden),
         launchers := w.launchers[l := w.launchers[l].(active := true, session := pc.j.nonce, pc := Idle)])
    case StartRestore(l, disposing, readable) =>
      if readable && w.journal.Some? && w.journal.value.nonce == w.launchers[l].session then
        SetPc(w, l, Restoring(FindBackup, w.journal.value, Own(disposing)))
      else if disposing then
        w.(launchers := w.launchers[l := w.launchers[l].(active := false, pc := Leaving)])
      else w
    case RestoreStage(l, deleted) => AfterStage(rules, w, l, deleted)
    case PeekJournal(l) => SetPc(w, l, Peeked(w.journal.value))
    case RecoverLock(l) =>
      if w.lock == None then SetPc(w, l, Relocked(w.launchers[l].pc.j)).(lock := Some(l))
      else SetPc(w, l, Idle)
    case RereadJournal(l) =>
      var j := w.launchers[l].pc.j;
      SetPc(w, l, if w.journal.Some? && w.journal.value.nonce == j.nonce then Verified(w.journal.value) else Leaving)
    case InspectOwner(l, answer) =>
      SetPc(w, l, if answer == DefinitelyDead then Restoring(FindBackup, w.launchers[l].pc.j, Recovery) else Leaving)
    case Throw(l) => AfterThrow(w, l)
    case Release(l) => SetPc(w, l, Idle).(lock := None)
    case Crash(l) =>
      w.(launchers := w.launchers[l := w.launchers[l].(alive := false)],
         lock := if w.lock == Some(l) then None else w.lock)
    case Edit(content) => w.(target := content)
  }

  predicate Init(w: World) {
    && w.target.Some? && w.journal == None && w.backups == map[] && w.lock == None
    && (forall l :: 0 <= l < |w.launchers| ==> w.launchers[l] == Launcher(true, false, 0, Idle))
  }

  // The world after the given steps, or None if one of them was not possible.
  function Run(rules: Rules, w: World, steps: seq<Step>): Option<World>
    decreases |steps|
  {
    if steps == [] then Some(w)
    else if Possible(w, steps[0]) then Run(rules, After(rules, w, steps[0]), steps[1..])
    else None
  }
}
