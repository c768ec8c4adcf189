// The MSAA mode of the config override: its override text is `Create` and its merge is `Restore`.
module MsaaSession {
  import opened Wrappers
  import opened OverrideSession
  import MsaaDefaults
  import MsaaProofs

  ghost predicate MsaaRules(rules: Rules) {
    && (forall text :: rules.override(MsaaOff, text) == MsaaDefaults.Create(text))
    && (forall current, original :: rules.merge(MsaaOff, current, original) == MsaaDefaults.Restore(current, original))
  }

  // The target holds an edit: neither the original nor the override.
  predicate Edited(w: World, j: Journal, current: Content) {
    && j.mode == MsaaOff && w.target == Some(current)
    && Digest(current) != j.original && Digest(current) != j.overridden
  }

  lemma EditedStage(rules: Rules, w: World, l: nat, original: Content, current: Content, deleted: bool)
    requires At(w, l) && w.launchers[l].pc.Restoring?
    requires w.launchers[l].pc.stage == ReadCurrent(original) && Edited(w, w.launchers[l].pc.j, current)
    ensures var merged := rules.merge(MsaaOff, current, original);
      AfterStage(rules, w, l, deleted)
      == if merged.Some? then NextStage(w, l, WriteTarget(merged.value)) else RestoreFailed(w, l)
  {
  }

  lemma MergedIsClose(rules: Rules, current: Content, original: Content)
    requires MsaaRules(rules) && rules.merge(MsaaOff, current, original).Some?
    ensures MsaaProofs.OnlyTheKey(current, original, rules.merge(MsaaOff, current, original).value)
  {
    hide MsaaDefaults.Restore, MsaaProofs.OnlyTheKey;
    MsaaProofs.RestoreTouchesOnlyTheKey(current, original);
  }

  lemma FailureKeepsFiles(w: World, l: nat)
    requires At(w, l) && w.launchers[l].pc.Restoring?
    ensures var w' := RestoreFailed(w, l);
      && w'.target == w.target && w'.journal == w.journal && |w'.launchers| == |w.launchers|
      && !w'.launchers[l].pc.Restoring?
  {
  }

  // The world after a restore has decided what to do with an edited target: nothing has changed
  // yet, and what it is going to write differs from the edit in the key alone.
  ghost predicate Decided(w: World, w': World, l: nat, current: Content, original: Content) {
    && l < |w'.launchers| && w'.target == w.target && w'.journal == w.journal
    && var pc := w'.launchers[l].pc;
    && (pc.Restoring? ==> pc.stage.WriteTarget? && MsaaProofs.OnlyTheKey(current, original, pc.stage.content))
  }

  lemma EditedTargetKeepsItsEdits(rules: Rules, w: World, l: nat, original: Content, current: Content, deleted: bool)
    requires MsaaRules(rules) && At(w, l) && w.launchers[l].pc.Restoring?
    requires w.launchers[l].pc.stage == ReadCurrent(original) && Edited(w, w.launchers[l].pc.j, current)
    ensures Decided(w, AfterStage(rules, w, l, deleted), l, current, original)
  {
    hide MsaaRules, AfterStage, RestoreFailed, Edited, MsaaProofs.OnlyTheKey;
    EditedStage(rules, w, l, original, current, deleted);
    FailureKeepsFiles(w, l);
    if rules.merge(MsaaOff, current, original).Some? {
      MergedIsClose(rules, current, original);
      WritesMerged(w, l, current, original, rules.merge(MsaaOff, current, original).value);
    }
  }

  lemma WritesMerged(w: World, l: nat, current: Content, original: Content, merged: Content)
    requires At(w, l) && w.launchers[l].pc.Restoring? && MsaaProofs.OnlyTheKey(current, original, merged)
    ensures Decided(w, NextStage(w, l, WriteTarget(merged)), l, current, original)
  {
  }

  // A restore that crashed after writing an edited target back is repeated to the same text.
  lemma RepeatedRestoreWritesTheSame(
      rules: Rules, w: World, l: nat, original: Content, current: Content, restored: Content, deleted: bool)
    requires MsaaRules(rules) && At(w, l) && w.launchers[l].pc.Restoring?
    requires w.launchers[l].pc.stage == ReadCurrent(original) && w.launchers[l].pc.j.mode == MsaaOff
    requires MsaaDefaults.Restore(current, original) == Some(restored) && w.target == Some(restored)
    requires Digest(restored) != w.launchers[l].pc.j.overridden
    ensures var w' := AfterStage(rules, w, l, deleted);
      && w'.target == w.target && w'.launchers[l].pc.Restoring?
      && (w'.launchers[l].pc.stage == WriteTarget(restored) || w'.launchers[l].pc.stage == DeleteJournal)
  {
    hide MsaaDefaults.Create, MsaaDefaults.Restore;
    MsaaProofs.RestoreIsIdempotent(current, original);
  }
}
