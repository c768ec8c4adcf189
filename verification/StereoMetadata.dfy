// The pair metadata of stereo_stream.cpp beside the image ring of native_stereo.cpp. The game writes
// the words of a pair into the slot of its value and only then signals the value; the host reads
// them and only then signals the value consumed. Every access to shared memory is one step.
module StereoMetadata {
  import opened Words
  import opened Wrappers
  import opened Division
  import opened GpuRing

  type Frame = seq<nat>  // the words of one StereoFrameMetadata

  // What Write and Read check of the words, and the value among them.
  datatype Layout = Layout(width: nat, valid: Frame -> bool, ready: Frame -> u64)

  // A slot's sequence number wraps at 2^32; `writes` counts the finished writes without bound.
  const Wrap: nat := 0x1_0000_0000
  const Lap: nat := 0x8000_0000

  datatype Cell = Cell(sequence: nat, words: Frame, writes: nat)

  datatype Writer =
    | Idle
    | Owned(value: u64)
    | Copying(value: u64, frame: Frame, copied: nat)
    | Written(value: u64, frame: Frame)
    | Stopped

  const Attempts: nat := 4

  // `at` is the number of writes there had been when `before` was loaded.
  datatype Reader =
    | Free
    | Asked(value: u64, attempt: nat)
    | Reading(value: u64, attempt: nat, before: nat, at: nat, copy: Frame)
    | Answered(value: u64, answer: Option<Frame>)

  // `last` and `slotReady` are the game's books, `ready` and `consumed` the two fences. A signal that
  // the driver reports as an error may have been queued; then the ready fence is ahead of the book.
  // `pairs[v - 1]` is the frame that was signalled as value v.
  datatype State = State(
    last: u64, slotReady: seq<u64>, ready: u64, consumed: u64, cells: seq<Cell>,
    writer: Writer, reader: Reader, pairs: seq<Frame>)

  datatype Step =
    | BeginPair
    | AbandonPair
    | StartWrite(frame: Frame)
    | CopyWord
    | EndWrite
    | SignalReady(queued: bool, error: bool)
    | Fail    // a wait refused, or a limit reached
    | Revive  // context recovery clears the failure
    | Take(value: u64)
    | LoadBefore
    | ReadWord
    | Recheck
    | SignalConsumed

  ghost predicate Init(layout: Layout, s: State) {
    s == State(0, [0, 0, 0], 0, 0, seq(SlotCount, _ => Cell(0, seq(layout.width, _ => 0), 0)), Idle, Free, [])
  }

  predicate Shape(layout: Layout, s: State) {
    && |s.slotReady| == |s.cells| == SlotCount && s.last < MaxU64
    && forall i :: 0 <= i < SlotCount ==> |s.cells[i].words| == layout.width
  }

  function CellOf(s: State, value: u64): Cell
    requires |s.cells| == SlotCount
  {
    s.cells[SlotFor(value)]
  }

  function SetCell(s: State, value: u64, cell: Cell): State
    requires |s.cells| == SlotCount
  {
    s.(cells := s.cells[SlotFor(value) := cell])
  }

  function Bumped(sequence: nat): nat { (sequence + 1) % Wrap }

  // Accepted by Write, and what Read asks of the copy.
  predicate Acceptable(layout: Layout, frame: Frame, value: u64) {
    |frame| == layout.width && layout.valid(frame) && layout.ready(frame) == value && IsUsable(value)
  }

  predicate Possible(layout: Layout, s: State, step: Step) {
    Shape(layout, s) &&
    match step
    case BeginPair => s.writer.Idle? && s.last < MaxU64 - 1 && CanReuse(s.slotReady[SlotFor(s.last + 1)], s.consumed)
    case AbandonPair => s.writer.Owned?
    case StartWrite(frame) => s.writer.Owned? && Acceptable(layout, frame, s.writer.value)
    case CopyWord => s.writer.Copying? && s.writer.copied < layout.width && |s.writer.frame| == layout.width
    case EndWrite => s.writer.Copying? && s.writer.copied == layout.width
    case SignalReady(queued, error) =>
      s.writer.Written? && 0 < s.writer.value < MaxU64 && s.writer.value - 1 <= |s.pairs| && (queued || error)
    case Fail => s.writer.Idle?
    case Revive => s.writer.Stopped?
    case Take(value) => s.reader.Free? && s.consumed < value <= s.ready
    case LoadBefore => s.reader.Asked?
    case ReadWord => s.reader.Reading? && |s.reader.copy| < layout.width
    case Recheck => s.reader.Reading? && |s.reader.copy| == layout.width
    case SignalConsumed => s.reader.Answered?
  }

  function Retry(value: u64, attempt: nat): Reader {
    if attempt + 1 < Attempts then Asked(value, attempt + 1) else Answered(value, None)
  }

  function AfterWriter(layout: Layout, s: State, step: Step): State
    requires Possible(layout, s, step)
  {
    match step
    case BeginPair => s.(writer := Owned(s.last + 1))
    case AbandonPair => s.(writer := Idle)
    case StartWrite(frame) =>
      var value := s.writer.value;
      var cell := CellOf(s, value);
      SetCell(s, value, cell.(sequence := Bumped(cell.sequence))).(writer := Copying(value, frame, 0))
    case CopyWord =>
      var Copying(value, frame, copied) := s.writer;
      var cell := CellOf(s, value);
      SetCell(s, value, cell.(words := cell.words[copied := frame[copied]])).(writer := Copying(value, frame, copied + 1))
    case EndWrite =>
      var Copying(value, frame, _) := s.writer;
      var cell := CellOf(s, value);
      SetCell(s, value, cell.(sequence := Bumped(cell.sequence), writes := cell.writes + 1))
      .(writer := Written(value, frame))
    case SignalReady(queued, error) =>
      var Written(value, frame) := s.writer;
      var fenced := if queued then s.(pairs := s.pairs[..value - 1] + [frame], ready := Later(s.ready, value)) else s;
      if error then fenced.(writer := Stopped)
      else fenced.(last := value, slotReady := s.slotReady[SlotFor(value) := value], writer := Idle)
    case Fail => s.(writer := Stopped)
    case Revive => s.(writer := Idle)
    case _ => s
  }

  function AfterReader(layout: Layout, s: State, step: Step): State
    requires Possible(layout, s, step)
  {
    match step
    case Take(value) => s.(reader := Asked(value, 0))
    case LoadBefore =>
      var Cell(before, _, writes) := CellOf(s, s.reader.value);
      s.(reader := if before == 0 || before % 2 == 1 then Retry(s.reader.value, s.reader.attempt)
                   else Reading(s.reader.value, s.reader.attempt, before, writes, []))
    case ReadWord =>
      var copy := s.reader.copy;
      s.(reader := s.reader.(copy := copy + [CellOf(s, s.reader.value).words[|copy|]]))
    case Recheck =>
      var Reading(value, attempt, before, _, copy) := s.reader;
      s.(reader := if before != CellOf(s, value).sequence then Retry(value, attempt)
                   else Answered(value, if Acceptable(layout, copy, value) then Some(copy) else None))
    case SignalConsumed => s.(consumed := s.reader.value, reader := Free)
    case _ => s
  }

  function Later(a: u64, b: u64): u64 { if a < b then b else a }

  predicate IsWriterStep(step: Step) {
    || step.BeginPair? || step.AbandonPair? || step.StartWrite? || step.CopyWord? || step.EndWrite?
    || step.SignalReady? || step.Fail? || step.Revive?
  }

  function After(layout: Layout, s: State, step: Step): State
    requires Possible(layout, s, step)
  {
    if IsWriterStep(step) then AfterWriter(layout, s, step) else AfterReader(layout, s, step)
  }

  // ---- what every step keeps

  predicate Writing(s: State, i: nat) { s.writer.Copying? && SlotFor(s.writer.value) == i }

  // The sequence number is twice the number of writes, and odd while one is under way.
  predicate SequencesOk(s: State)
    requires |s.cells| == SlotCount
  {
    forall i :: 0 <= i < SlotCount ==>
      s.cells[i].sequence == (2 * s.cells[i].writes + if Writing(s, i) then 1 else 0) % Wrap
  }

  // Every value the host has not signalled yet is in its slot, whole.
  predicate PairsOk(layout: Layout, s: State)
    requires |s.cells| == SlotCount
  {
    && |s.pairs| == s.ready
    && (forall k :: 0 <= k < |s.pairs| ==> k + 1 < MaxU64 && Acceptable(layout, s.pairs[k], k + 1))
    && forall v: u64 :: s.consumed < v <= s.ready ==>
         CellOf(s, v).words == s.pairs[v - 1] && CellOf(s, v).writes > 0 && !Writing(s, SlotFor(v))
  }

  // The writer works in a slot whose last value the host is done with.
  predicate WriterOk(layout: Layout, s: State)
    requires |s.cells| == SlotCount
  {
    match s.writer
    case Idle => true
    case Stopped => true
    case Owned(value) => value == s.last + 1 < MaxU64 && value <= s.consumed + SlotCount
    case Copying(value, frame, copied) =>
      && value == s.last + 1 < MaxU64 && value <= s.consumed + SlotCount && Acceptable(layout, frame, value)
      && copied <= layout.width && |CellOf(s, value).words| == layout.width
      && CellOf(s, value).words[..copied] == frame[..copied]
    case Written(value, frame) =>
      && value == s.last + 1 < MaxU64 && value <= s.consumed + SlotCount && Acceptable(layout, frame, value)
      && CellOf(s, value).words == frame && CellOf(s, value).writes > 0
  }

  predicate ReaderOk(s: State)
    requires |s.cells| == SlotCount && |s.pairs| == s.ready
  {
    s.reader.Free? ||
    (s.consumed < s.reader.value <= s.ready
     && var cell, pair := CellOf(s, s.reader.value), s.pairs[s.reader.value - 1];
        match s.reader
        case Free => true
        case Asked(value, attempt) => attempt < Attempts && (attempt > 0 ==> cell.sequence == 0)
        case Reading(value, attempt, before, _, copy) =>
          before == cell.sequence != 0 && |copy| <= |pair| && copy == pair[..|copy|]
        case Answered(value, answer) => answer == if cell.sequence == 0 then None else Some(pair))
  }

  // The fence agrees with the book, or the game has stopped over a signal it does not know of, or
  // the host is done with that one.
  predicate FenceOk(s: State) {
    && s.last <= s.ready <= s.last + 1 && s.ready < MaxU64 && s.consumed <= s.ready <= s.consumed + SlotCount
    && (s.ready == s.last || s.writer.Stopped? || s.consumed == s.ready)
  }

  // The game revives only when the fence has not run ahead of its book, or the host is done with
  // the value that it does not know of.
  predicate Careful(s: State, step: Step) {
    step.Revive? ==> s.ready == s.last || s.consumed == s.ready
  }

  ghost predicate Inv(layout: Layout, s: State) {
    && Shape(layout, s) && UsesAre(s.last, s.slotReady) && FenceOk(s)
    && SequencesOk(s) && PairsOk(layout, s) && WriterOk(layout, s) && ReaderOk(s)
  }

  lemma InitInv(layout: Layout, s: State)
    requires Init(layout, s)
    ensures Inv(layout, s)
  {
  }

  // The slot the writer works in holds none of the values the host may still read.
  lemma WriterIsApart(s: State, value: u64, v: u64)
    requires FenceOk(s) && !s.writer.Stopped?
    requires value == s.last + 1 <= s.consumed + SlotCount && s.consumed < v <= s.ready
    ensures SlotFor(value) != SlotFor(v)
  {
  }

  lemma BumpOk(writes: nat, odd: bool)
    ensures Bumped((2 * writes + if odd then 1 else 0) % Wrap) == (2 * writes + if odd then 2 else 1) % Wrap
  {
  }

  lemma WriterStepInv(layout: Layout, s: State, step: Step)
    requires Inv(layout, s) && Possible(layout, s, step) && IsWriterStep(step) && Careful(s, step)
    ensures Inv(layout, After(layout, s, step))
  {
    match step
    case BeginPair => BeginStepInv(layout, s);
    case AbandonPair =>
    case StartWrite(frame) => CellStepInv(layout, s, step);
    case CopyWord => CellStepInv(layout, s, step);
    case EndWrite => CellStepInv(layout, s, step);
    case SignalReady(queued, error) => SignalStepInv(layout, s, queued, error);
    case _ =>
  }

  lemma BeginStepInv(layout: Layout, s: State)
    requires Inv(layout, s) && Possible(layout, s, BeginPair)
    ensures Inv(layout, After(layout, s, BeginPair))
  {
    PreviousUse(s.last + 1);
  }

  lemma SignalStepInv(layout: Layout, s: State, queued: bool, error: bool)
    requires Inv(layout, s) && Possible(layout, s, SignalReady(queued, error))
    ensures Inv(layout, After(layout, s, SignalReady(queued, error)))
  {
    if !error {
      UsesNext(s.last, s.slotReady);
    }
  }

  // The steps that change the writer's cell leave the reader's alone.
  lemma CellStepInv(layout: Layout, s: State, step: Step)
    requires Inv(layout, s) && Possible(layout, s, step) && (step.StartWrite? || step.CopyWord? || step.EndWrite?)
    ensures Inv(layout, After(layout, s, step))
  {
    forall v: u64 | s.consumed < v <= s.ready ensures SlotFor(v) != SlotFor(s.writer.value) {
      WriterIsApart(s, s.writer.value, v);
    }
    CellStepCounts(layout, s, step);
    CellStepWrites(layout, s, step);
    hide SequencesOk, WriterOk;
  }

  lemma CellStepCounts(layout: Layout, s: State, step: Step)
    requires Inv(layout, s) && Possible(layout, s, step) && (step.StartWrite? || step.CopyWord? || step.EndWrite?)
    ensures SequencesOk(After(layout, s, step))
  {
    BumpOk(CellOf(s, s.writer.value).writes, step.EndWrite?);
  }

  lemma CellStepWrites(layout: Layout, s: State, step: Step)
    requires Inv(layout, s) && Possible(layout, s, step) && (step.StartWrite? || step.CopyWord? || step.EndWrite?)
    ensures WriterOk(layout, After(layout, s, step))
  {
    var s' := After(layout, s, step);
    var cell, cell' := CellOf(s, s.writer.value), CellOf(s', s.writer.value);
    if step.CopyWord? {
      var copied := s.writer.copied;
      assert cell'.words[..copied + 1] == cell.words[..copied] + [s.writer.frame[copied]];
    }
    if step.EndWrite? {
      assert cell.words == cell.words[..layout.width] && s.writer.frame == s.writer.frame[..layout.width];
    }
  }

  lemma ReaderStepInv(layout: Layout, s: State, step: Step)
    requires Inv(layout, s) && Possible(layout, s, step) && !IsWriterStep(step)
    ensures Inv(layout, After(layout, s, step))
  {
    if step.LoadBefore? || step.ReadWord? || step.Recheck? {
      ReadingOk(layout, s, step);
      hide ReaderOk;
    } else {
      hide SequencesOk;
    }
  }

  // While a value is being read, its cell holds its pair under an even number.
  lemma ReadFacts(layout: Layout, s: State)
    requires Inv(layout, s) && (s.reader.Asked? || s.reader.Reading?)
    ensures var v := s.reader.value;
      && 0 < v <= |s.pairs| && CellOf(s, v).words == s.pairs[v - 1] && Acceptable(layout, s.pairs[v - 1], v)
      && CellOf(s, v).sequence % 2 == 0
  {
    EvenOrZero(CellOf(s, s.reader.value).writes);
  }

  lemma ReadingOk(layout: Layout, s: State, step: Step)
    requires Inv(layout, s) && Possible(layout, s, step) && (step.LoadBefore? || step.ReadWord? || step.Recheck?)
    ensures ReaderOk(After(layout, s, step))
  {
    ReadFacts(layout, s);
    hide SequencesOk, PairsOk, WriterOk, Acceptable;
    var v := s.reader.value;
    if step.ReadWord? {
      var copy := s.reader.copy;
      assert s.pairs[v - 1][..|copy| + 1] == s.pairs[v - 1][..|copy|] + [s.pairs[v - 1][|copy|]];
    } else if step.Recheck? {
      assert s.pairs[v - 1][..|s.reader.copy|] == s.pairs[v - 1];
    }
  }

  lemma EvenOrZero(writes: nat)
    ensures (2 * writes) % Wrap % 2 == 0
    ensures (2 * writes) % Wrap == 0 <==> writes % Lap == 0
  {
  }

  lemma StepInv(layout: Layout, s: State, step: Step)
    requires Inv(layout, s) && Possible(layout, s, step) && Careful(s, step)
    ensures Inv(layout, After(layout, s, step))
  {
    if IsWriterStep(step) {
      WriterStepInv(layout, s, step);
    } else {
      ReaderStepInv(layout, s, step);
    }
  }

  // ---- runs

  function Run(layout: Layout, s: State, steps: seq<Step>): Option<State>
    decreases |steps|
  {
    if steps == [] then Some(s)
    else if Possible(layout, s, steps[0]) then Run(layout, After(layout, s, steps[0]), steps[1..])
    else None
  }

  predicate CarefulRun(layout: Layout, s: State, steps: seq<Step>)
    decreases |steps|
  {
    steps == [] ||
    (Possible(layout, s, steps[0]) && Careful(s, steps[0]) && CarefulRun(layout, After(layout, s, steps[0]), steps[1..]))
  }

  lemma {:induction false} RunInv(layout: Layout, s: State, steps: seq<Step>)
    requires Inv(layout, s) && CarefulRun(layout, s, steps)
    ensures Run(layout, s, steps).Some? && Inv(layout, Run(layout, s, steps).value)
    decreases |steps|
  {
    hide Inv, Possible, After, Careful;
    if steps != [] {
      StepInv(layout, s, steps[0]);
      RunInv(layout, After(layout, s, steps[0]), steps[1..]);
    }
  }

  // Every value the host may still read is in its slot, whole, under an even sequence number.
  ghost predicate Holds(layout: Layout, s: State) {
    && |s.cells| == SlotCount && |s.pairs| == s.ready
    && forall v: u64 :: s.consumed < v <= s.ready ==>
         && CellOf(s, v).words == s.pairs[v - 1] && CellOf(s, v).sequence % 2 == 0
         && Acceptable(layout, s.pairs[v - 1], v)
  }

  lemma InvHolds(layout: Layout, s: State)
    requires Inv(layout, s)
    ensures Holds(layout, s)
  {
    forall v: u64 | s.consumed < v <= s.ready
      ensures CellOf(s, v).words == s.pairs[v - 1] && CellOf(s, v).sequence % 2 == 0
      ensures Acceptable(layout, s.pairs[v - 1], v)
    {
      EvenOrZero(CellOf(s, v).writes);
    }
  }

  // From the moment a value is ready until the host signals it, its slot holds exactly the pair
  // written for it, under an even sequence number.
  lemma PairStaysInItsSlot(layout: Layout, s: State, steps: seq<Step>)
    requires Init(layout, s) && CarefulRun(layout, s, steps)
    ensures Run(layout, s, steps).Some? && Holds(layout, Run(layout, s, steps).value)
  {
    InitInv(layout, s);
    RunInv(layout, s, steps);
    InvHolds(layout, Run(layout, s, steps).value);
  }

  // Read(v) answers exactly that pair, however the writer moves meanwhile, unless the number of
  // writes to the slot is a multiple of 2^31: then the sequence number is 0 and it answers nothing.
  lemma ReadAnswersItsPair(layout: Layout, s: State, steps: seq<Step>)
    requires Init(layout, s) && CarefulRun(layout, s, steps)
    ensures Run(layout, s, steps).Some?
    ensures Run(layout, s, steps).value.reader.Answered? ==> RightAnswer(layout, Run(layout, s, steps).value)
  {
    InitInv(layout, s);
    RunInv(layout, s, steps);
    var s' := Run(layout, s, steps).value;
    if s'.reader.Answered? {
      EvenOrZero(CellOf(s', s'.reader.value).writes);
    }
  }

  predicate RightAnswer(layout: Layout, s: State)
    requires s.reader.Answered?
  {
    && |s.cells| == SlotCount && 0 < s.reader.value <= |s.pairs|
    && var writes := CellOf(s, s.reader.value).writes;
    && writes > 0
    && (s.reader.answer == None <==> writes % Lap == 0)
    && (s.reader.answer.Some? ==>
          && s.reader.answer.value == s.pairs[s.reader.value - 1]
          && |s.reader.answer.value| == layout.width && layout.valid(s.reader.answer.value)
          && layout.ready(s.reader.answer.value) == s.reader.value)
    && (writes < Lap ==> s.reader.answer.Some?)
  }

  // ---- reviving over a signal that was queued although it was reported as an error

  lemma RunStep(layout: Layout, s: State, step: Step, rest: seq<Step>)
    requires Possible(layout, s, step) && Careful(s, step)
    ensures Run(layout, s, [step] + rest) == Run(layout, After(layout, s, step), rest)
    ensures CarefulRun(layout, After(layout, s, step), rest) ==> CarefulRun(layout, s, [step] + rest)
  {
    assert ([step] + rest)[1..] == rest;
  }

  // The rest of Write.
  lemma {:induction false} WriteOn(layout: Layout, s: State) returns (steps: seq<Step>)
    requires Shape(layout, s) && s.writer.Copying? && Acceptable(layout, s.writer.frame, s.writer.value)
    requires s.writer.copied <= layout.width
    requires CellOf(s, s.writer.value).words[..s.writer.copied] == s.writer.frame[..s.writer.copied]
    ensures CarefulRun(layout, s, steps) && Run(layout, s, steps).Some?
    ensures var s' := Run(layout, s, steps).value;
      && Shape(layout, s') && CellOf(s', s.writer.value).words == s.writer.frame
      && s' == s.(cells := s'.cells, writer := Written(s.writer.value, s.writer.frame))
    decreases layout.width - s.writer.copied
  {
    var value, frame, copied := s.writer.value, s.writer.frame, s.writer.copied;
    var cell := CellOf(s, value);
    if copied < layout.width {
      var s' := After(layout, s, CopyWord);
      assert CellOf(s', value).words[..copied + 1] == cell.words[..copied] + [frame[copied]];
      assert frame[..copied + 1] == frame[..copied] + [frame[copied]];
      var rest := WriteOn(layout, s');
      RunStep(layout, s, CopyWord, rest);
      steps := [CopyWord] + rest;
    } else {
      assert cell.words == cell.words[..layout.width] && frame == frame[..layout.width];
      var s' := After(layout, s, EndWrite);
      assert Run(layout, s', []) == Some(s') && CarefulRun(layout, s', []);
      RunStep(layout, s, EndWrite, []);
      steps := [EndWrite] + [];
    }
  }

  // The game begins the value again that the host may be reading, with another pair.
  lemma ReviveOverwrites(layout: Layout, s: State, other: Frame) returns (steps: seq<Step>)
    requires Inv(layout, s) && s.writer.Stopped? && s.last < s.ready && s.consumed < s.ready
    requires Acceptable(layout, other, s.ready) && other != s.pairs[s.ready - 1]
    ensures CarefulRun(layout, After(layout, s, Revive), steps)
    ensures var end := Run(layout, After(layout, s, Revive), steps);
      end.Some? && !Holds(layout, end.value)
  {
    var s1 := After(layout, s, Revive);
    PreviousUse(s.ready);
    var s2 := After(layout, s1, BeginPair);
    var s3 := After(layout, s2, StartWrite(other));
    var write := WriteOn(layout, s3);
    RunStep(layout, s2, StartWrite(other), write);
    RunStep(layout, s1, BeginPair, [StartWrite(other)] + write);
    steps := [BeginPair] + ([StartWrite(other)] + write);
  }

  // From the start: the first signal is queued and reported as an error, and the host has not taken
  // its value yet.
  lemma StopsBehindTheFence(layout: Layout, s: State, frame: Frame) returns (steps: seq<Step>, end: State)
    requires Init(layout, s) && Acceptable(layout, frame, 1)
    ensures CarefulRun(layout, s, steps) && Run(layout, s, steps) == Some(end)
    ensures end.writer.Stopped? && end.last == end.consumed == 0 && end.ready == 1 && end.pairs == [frame]
  {
    var s1 := After(layout, s, BeginPair);
    var s2 := After(layout, s1, StartWrite(frame));
    var write := WriteOn(layout, s2);
    var s3 := Run(layout, s2, write).value;
    end := After(layout, s3, SignalReady(true, true));
    var last := [SignalReady(true, true)] + [];
    assert Run(layout, end, []) == Some(end) && CarefulRun(layout, end, []);
    RunStep(layout, s3, SignalReady(true, true), []);
    RunAppend(layout, s2, write, last);
    RunStep(layout, s1, StartWrite(frame), write + last);
    RunStep(layout, s, BeginPair, [StartWrite(frame)] + (write + last));
    steps := [BeginPair] + ([StartWrite(frame)] + (write + last));
  }

  lemma {:induction false} RunAppend(layout: Layout, s: State, steps: seq<Step>, more: seq<Step>)
    requires CarefulRun(layout, s, steps) && Run(layout, s, steps).Some?
    requires CarefulRun(layout, Run(layout, s, steps).value, more)
    ensures CarefulRun(layout, s, steps + more)
    ensures Run(layout, s, steps + more) == Run(layout, Run(layout, s, steps).value, more)
    decreases |steps|
  {
    if steps == [] {
      assert steps + more == more;
    } else {
      RunAppend(layout, After(layout, s, steps[0]), steps[1..], more);
      assert (steps + more)[1..] == steps[1..] + more;
    }
  }

  ghost predicate AlwaysHolds(layout: Layout, s: State) {
    forall steps: seq<Step> :: CarefulRun(layout, s, steps) ==>
      Run(layout, s, steps).Some? && Holds(layout, Run(layout, s, steps).value)
  }

  // When the game has stopped, reviving it keeps every pair in its slot from then on exactly when
  // the ready fence agrees with its book, or the host is done with what it does not know of. The
  // condition can be read off the two fences before the failure is cleared.
  lemma ReviveIsSafeIff(layout: Layout, s0: State, before: seq<Step>, s: State, other: Frame)
    requires Init(layout, s0) && CarefulRun(layout, s0, before) && Run(layout, s0, before) == Some(s)
    requires s.writer.Stopped?
    requires s.last < s.ready ==> Acceptable(layout, other, s.ready) && s.ready <= |s.pairs| && other != s.pairs[s.ready - 1]
    ensures Possible(layout, s, Revive)
    ensures AlwaysHolds(layout, After(layout, s, Revive)) <==> s.ready == s.last || s.consumed == s.ready
  {
    InitInv(layout, s0);
    RunInv(layout, s0, before);
    var revived := After(layout, s, Revive);
    if s.ready == s.last || s.consumed == s.ready {
      StepInv(layout, s, Revive);
      forall steps: seq<Step> | CarefulRun(layout, revived, steps)
        ensures Run(layout, revived, steps).Some? && Holds(layout, Run(layout, revived, steps).value)
      {
        RunInv(layout, revived, steps);
        InvHolds(layout, Run(layout, revived, steps).value);
      }
    } else {
      var steps := ReviveOverwrites(layout, s, other);
    }
  }
}
