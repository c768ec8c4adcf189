// The metadata slots as sequence locks of their own: what a reader accepts is one whole write, however
// the writer behaves, even when it writes to a slot that is being read.
module StereoSeqlock {
  import opened Words
  import opened Wrappers
  import opened GpuRing
  import opened StereoMetadata

  // What the reader has copied is what the cell held when it loaded the number, unless a write has
  // begun since.
  predicate ReadingFrom(layout: Layout, s: State)
    requires Shape(layout, s)
  {
    s.reader.Reading? ==>
      && var cell := CellOf(s, s.reader.value);
      && s.reader.at <= cell.writes && |s.reader.copy| <= layout.width
      && s.reader.before == (2 * s.reader.at) % Wrap
      && (cell.writes == s.reader.at && !Writing(s, SlotFor(s.reader.value)) ==> s.reader.copy == cell.words[..|s.reader.copy|])
  }

  predicate LockOk(layout: Layout, s: State) {
    && Shape(layout, s) && SequencesOk(s) && ReadingFrom(layout, s)
    && (s.writer.Copying? ==> |s.writer.frame| == layout.width && s.writer.copied <= layout.width)
  }

  lemma LockInit(layout: Layout, s: State)
    requires Init(layout, s)
    ensures LockOk(layout, s)
  {
  }

  // The writer's steps, careful or not, keep the numbers; only finished writes are counted.
  lemma WriterKeepsLock(layout: Layout, s: State, step: Step)
    requires LockOk(layout, s) && Possible(layout, s, step) && IsWriterStep(step)
    ensures LockOk(layout, After(layout, s, step))
  {
    if step.StartWrite? || step.EndWrite? {
      BumpOk(CellOf(s, s.writer.value).writes, step.EndWrite?);
    }
  }

  lemma ReaderKeepsLock(layout: Layout, s: State, step: Step)
    requires LockOk(layout, s) && Possible(layout, s, step) && !IsWriterStep(step)
    ensures LockOk(layout, After(layout, s, step))
  {
    hide Acceptable;
    if step.LoadBefore? {
      var i := SlotFor(s.reader.value);
      EvenOrZero(s.cells[i].writes);
      OddWhileWriting(s.cells[i].writes);
    } else if step.ReadWord? {
      var words, copy := CellOf(s, s.reader.value).words, s.reader.copy;
      assert words[..|copy| + 1] == words[..|copy|] + [words[|copy|]];
    }
  }

  lemma OddWhileWriting(writes: nat)
    ensures (2 * writes + 1) % Wrap % 2 == 1
  {
  }

  lemma {:induction false} RunKeepsLock(layout: Layout, s: State, steps: seq<Step>)
    requires LockOk(layout, s) && Run(layout, s, steps).Some?
    ensures LockOk(layout, Run(layout, s, steps).value)
    decreases |steps|
  {
    hide LockOk, Possible, After;
    if steps != [] {
      if IsWriterStep(steps[0]) {
        WriterKeepsLock(layout, s, steps[0]);
      } else {
        ReaderKeepsLock(layout, s, steps[0]);
      }
      RunKeepsLock(layout, After(layout, s, steps[0]), steps[1..]);
    }
  }

  lemma SameNumber(at: nat, writes: nat, odd: bool)
    requires at <= writes < at + 0x8000_0000
    requires (2 * at) % Wrap == (2 * writes + if odd then 1 else 0) % Wrap
    ensures writes == at && !odd
  {
  }

  // In every run, careful or not: when the number is the same again after the last word, and fewer than
  // 2^31 writes to the slot were finished meanwhile, what was copied is what the slot holds. It is
  // answered exactly when it is valid and names the value that was asked for.
  lemma AcceptedIsOneWrite(layout: Layout, s0: State, steps: seq<Step>, s: State)
    requires Init(layout, s0) && Run(layout, s0, steps) == Some(s) && Possible(layout, s, Recheck)
    requires CellOf(s, s.reader.value).writes < s.reader.at + 0x8000_0000
    ensures CellOf(s, s.reader.value).sequence == s.reader.before ==>
      && var value, words := s.reader.value, CellOf(s, s.reader.value).words;
      && s.reader.copy == words && !Writing(s, SlotFor(value))
      && After(layout, s, Recheck).reader
         == Answered(value, if layout.valid(words) && layout.ready(words) == value && value != 0 && value != MaxU64 then Some(words) else None)
    // A number that has changed leads to another attempt, or to no answer after the fourth.
    ensures CellOf(s, s.reader.value).sequence != s.reader.before ==>
      After(layout, s, Recheck).reader
      == if s.reader.attempt < 3 then Asked(s.reader.value, s.reader.attempt + 1) else Answered(s.reader.value, None)
  {
    hide Run, Init;
    LockInit(layout, s0);
    RunKeepsLock(layout, s0, steps);
    var i := SlotFor(s.reader.value);
    if s.cells[i].sequence == s.reader.before {
      SameNumber(s.reader.at, s.cells[i].writes, Writing(s, i));
      assert s.cells[i].words[..layout.width] == s.cells[i].words;
    }
  }
}
