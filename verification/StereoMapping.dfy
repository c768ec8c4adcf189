// The game's and the host's halves of the metadata exchange as program text, one access to shared
// memory after the other, with the other half running in between.
module StereoMapping {
  import opened Words
  import opened Wrappers
  import opened GpuRing
  import opened StereoMetadata

  class Mapping {
    const layout: Layout
    var s: State

    ghost predicate Valid() reads this { Inv(layout, s) }

    constructor (layout: Layout)
      ensures Valid() && Init(layout, s) && this.layout == layout
    {
      this.layout := layout;
      s := State(0, [0, 0, 0], 0, 0, seq(SlotCount, _ => Cell(0, seq(layout.width, _ => 0), 0)), Idle, Free, []);
      new;
      InitInv(layout, s);
    }

    method Perform(step: Step)
      requires Valid() && Possible(layout, s, step) && Careful(s, step)
      modifies this
      ensures Valid() && s == After(layout, old(s), step)
    {
      StepInv(layout, s, step);
      s := After(layout, s, step);
    }

    // The host runs for a while: it may read and signal, and never writes to a slot.
    method HostRuns()
      requires Valid()
      modifies this
      ensures Valid() && s == old(s).(consumed := s.consumed, reader := s.reader) && old(s).consumed <= s.consumed
    {
      hide Inv, Possible, AfterReader;
      var rounds: nat := *;
      while rounds > 0
        invariant Valid() && s == old(s).(consumed := s.consumed, reader := s.reader) && old(s).consumed <= s.consumed
      {
        var step: Step := *;
        if !IsWriterStep(step) && Possible(layout, s, step) {
          ReaderFrame(layout, s, step);
          Perform(step);
        }
        rounds := rounds - 1;
      }
    }

    // The game runs for a while, reviving itself only with care: the pairs that the host has not
    // signalled stay as they are.
    method GameRuns()
      requires Valid()
      modifies this
      ensures Valid() && s.consumed == old(s).consumed && s.reader == old(s).reader && PairsStay(old(s), s)
    {
      hide Inv, Possible, AfterWriter, Careful;
      var rounds: nat := *;
      while rounds > 0
        invariant Valid() && s.consumed == old(s).consumed && s.reader == old(s).reader && PairsStay(old(s), s)
      {
        var step: Step := *;
        if IsWriterStep(step) && Possible(layout, s, step) && Careful(s, step) {
          WriterFrame(layout, s, step);
          Perform(step);
        }
        rounds := rounds - 1;
      }
    }

    // BeginNativeStereoPair: the slot of the next value, if the host is done with it.
    method BeginNativeStereoPair() returns (began: bool)
      requires Valid() && s.writer.Idle?
      modifies this
      ensures Valid() && s.last == old(s).last && s.ready == old(s).ready && s.pairs == old(s).pairs
      ensures if began then s.writer == Owned(s.last + 1) else s.writer == Idle
      // Below the last value, it begins exactly when the value lies in the window.
      ensures began ==> s.last + 1 <= s.consumed + SlotCount
      ensures !began ==> s.last >= MaxU64 - 1 || s.last + 1 > old(s).consumed + SlotCount
    {
      HostRuns();
      if s.last >= MaxU64 - 1 {
        return false;
      }
      var slot := SlotFor(s.last + 1);
      PreviousUse(s.last + 1);
      if !CanReuse(s.slotReady[slot], s.consumed) {
        return false;
      }
      Perform(BeginPair);
      return true;
    }

    // StereoFrameMapping::Write, for the pair in progress.
    method Write(frame: Frame) returns (written: bool)
      requires Valid() && s.writer.Owned? && |frame| == layout.width && layout.ready(frame) == s.writer.value
      modifies this
      ensures Valid() && SameBooks(old(s), s) && (written <==> layout.valid(frame))
      ensures s.writer == if written then Written(old(s).writer.value, frame) else old(s).writer
    {
      hide Inv;
      ghost var value := s.writer.value;
      OwnedFacts(layout, s);
      if !IsUsable(s.writer.value) || !layout.valid(frame) {
        return false;
      }
      HostRuns();
      Perform(StartWrite(frame));
      var copied := 0;
      while copied < layout.width
        invariant 0 <= copied <= layout.width && Valid() && s.writer == Copying(value, frame, copied)
        invariant Shape(layout, s) && SameBooks(old(s), s)
      {
        HostRuns();
        Perform(CopyWord);
        InvShape(layout, s);
        copied := copied + 1;
      }
      HostRuns();
      Perform(EndWrite);
      return true;
    }

    // FinishNativeStereoPresent: the words first, then the ready fence, then the books. The driver may
    // report an error and queue the signal all the same; the book then stays behind the fence.
    method FinishNativeStereoPresent(frame: Frame, queued: bool, error: bool) returns (published: bool)
      requires Valid() && s.writer.Owned? && |frame| == layout.width && layout.ready(frame) == s.writer.value
      requires queued || error
      modifies this
      ensures Valid() && (published <==> layout.valid(frame) && !error)
      ensures s.last == old(s).last + if published then 1 else 0
      ensures s.pairs == if layout.valid(frame) && queued then old(s).pairs[..old(s).last] + [frame] else old(s).pairs
      ensures published ==> s.writer.Idle? && s.ready == s.last && s.slotReady[SlotFor(s.last)] == s.last
      ensures !published ==> s.slotReady == old(s).slotReady
      ensures s.writer.Stopped? <==> layout.valid(frame) && error
    {
      OwnedFacts(layout, s);
      var written := Write(frame);
      if !written {
        return false;
      }
      HostRuns();
      WrittenFacts(layout, s);
      Perform(SignalReady(queued, error));
      return !error;
    }

    // StereoFrameMapping::Read, for a value the host has taken. It gives up after four attempts only.
    method Read() returns (answer: Option<Frame>, ghost attempts: nat)
      requires Valid() && s.reader.Asked? && s.reader.attempt == 0
      modifies this
      ensures Valid() && s.reader == Answered(old(s).reader.value, answer)
      ensures |s.cells| == SlotCount && old(s).consumed < old(s).reader.value <= |old(s).pairs|
      ensures var cell := CellOf(s, old(s).reader.value);
        answer == if cell.writes % Lap == 0 then None else Some(old(s).pairs[old(s).reader.value - 1])
      ensures 0 < attempts <= 4 && (answer == None ==> attempts == 4)
    {
      hide Inv, PairsOk, WriterOk, SequencesOk;
      var value := s.reader.value;
      ghost var start := s;
      AskedFacts(layout, s);
      var attempt := 0;
      while attempt < Attempts && s.reader.Asked?
        invariant 0 <= attempt <= Attempts && Valid() && s.consumed == start.consumed && PairsStay(start, s)
        invariant if s.reader.Asked? then s.reader == Asked(value, attempt) && attempt < Attempts
                  else s.reader.Answered? && s.reader.value == value && attempt > 0 && (s.reader.answer == None ==> attempt == 4)
      {
        ReadAttempt(value, attempt);
        attempt := attempt + 1;
      }
      answer, attempts := s.reader.answer, attempt;
      AnsweredFacts(layout, s);
    }

    // One turn of the loop.
    method ReadAttempt(value: u64, attempt: nat)
      requires Valid() && s.reader == Asked(value, attempt) && attempt < Attempts
      modifies this
      ensures Valid() && s.consumed == old(s).consumed && PairsStay(old(s), s)
      ensures if s.reader.Asked? then s.reader == Asked(value, attempt + 1) && attempt + 1 < Attempts
              else s.reader.Answered? && s.reader.value == value && (s.reader.answer == None ==> attempt == 3)
    {
      hide Inv;
      GameRuns();
      InvShape(layout, s);
      Perform(LoadBefore);
      if s.reader.Reading? {
        while |s.reader.copy| < layout.width
          invariant Valid() && s.reader.Reading? && s.reader.value == value && s.reader.attempt == attempt
          invariant |s.reader.copy| <= layout.width && s.consumed == old(s).consumed && PairsStay(old(s), s)
          decreases layout.width - |s.reader.copy|
        {
          GameRuns();
          InvShape(layout, s);
          Perform(ReadWord);
        }
        GameRuns();
        InvShape(layout, s);
        CheckedFacts(layout, s);
        Perform(Recheck);
      }
    }
  }

  // Nothing that the game alone decides has changed.
  predicate SameBooks(a: State, b: State) {
    b.last == a.last && b.slotReady == a.slotReady && b.ready == a.ready && b.pairs == a.pairs
  }

  // The pairs that the host has not signalled are the same.
  predicate PairsStay(a: State, b: State) {
    |a.pairs| <= |b.pairs| && forall k: nat :: a.consumed <= k < |a.pairs| ==> b.pairs[k] == a.pairs[k]
  }

  lemma InvShape(layout: Layout, s: State)
    requires Inv(layout, s)
    ensures Shape(layout, s)
  {
  }

  lemma OwnedFacts(layout: Layout, s: State)
    requires Inv(layout, s) && s.writer.Owned?
    ensures Shape(layout, s) && s.writer.value == s.last + 1 < MaxU64
  {
  }

  lemma WrittenFacts(layout: Layout, s: State)
    requires Inv(layout, s) && s.writer.Written?
    ensures Shape(layout, s) && s.writer.value == s.last + 1 < MaxU64 && s.last <= s.ready == |s.pairs| <= s.last + 1
    ensures s.ready == s.last || s.consumed == s.ready
  {
  }

  lemma AskedFacts(layout: Layout, s: State)
    requires Inv(layout, s) && s.reader.Asked?
    ensures s.consumed < s.reader.value <= |s.pairs|
  {
  }

  lemma CheckedFacts(layout: Layout, s: State)
    requires Inv(layout, s) && Possible(layout, s, Recheck)
    ensures var s' := After(layout, s, Recheck); s'.reader.Answered? && s'.reader.answer.Some?
  {
    ReadFacts(layout, s);
    assert s.reader.copy == s.pairs[s.reader.value - 1];
  }

  lemma AnsweredFacts(layout: Layout, s: State)
    requires Inv(layout, s) && s.reader.Answered?
    ensures |s.cells| == SlotCount && 0 < s.reader.value <= |s.pairs|
    ensures s.reader.answer
      == if CellOf(s, s.reader.value).writes % Lap == 0 then None else Some(s.pairs[s.reader.value - 1])
  {
  }

  lemma ReaderFrame(layout: Layout, s: State, step: Step)
    requires Inv(layout, s) && Possible(layout, s, step) && !IsWriterStep(step)
    ensures var s' := After(layout, s, step);
      s' == s.(consumed := s'.consumed, reader := s'.reader) && s.consumed <= s'.consumed
  {
  }

  lemma WriterFrame(layout: Layout, s: State, step: Step)
    requires Inv(layout, s) && Possible(layout, s, step) && IsWriterStep(step)
    ensures var s' := After(layout, s, step);
      s'.consumed == s.consumed && s'.reader == s.reader && PairsStay(s, s')
  {
  }
}
