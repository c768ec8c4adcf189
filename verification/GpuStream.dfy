// The ring's producer and its consumer together: who may overwrite what, and when.
module GpuStream {
  import opened Words
  import opened GpuRing

  // `images[slot]` is the value whose image the slot holds. The consumer takes the newest ready
  // value, copies its slot in any number of reads, and then signals it.
  datatype Stream = Stream(
    last: u64, uses: seq<u64>, images: seq<u64>, consumed: u64, taken: u64)

  datatype Move =
    | Offer          // one call of the producer
    | Take           // the consumer takes the newest ready value
    | Copy(read: u64)  // it reads one piece of that value's slot, and sees the image it holds
    | Signal         // it signals what it took

  ghost predicate Start(s: Stream) { s == Stream(0, [0, 0, 0], [0, 0, 0], 0, 0) }

  predicate WellFormed(s: Stream) { |s.uses| == |s.images| == SlotCount && s.last < MaxU64 }

  function Offered(s: Stream): Stream
    requires WellFormed(s)
  {
    var slot := SlotFor(s.last + 1);
    match DecideRingFrame(s.last, s.uses[slot], s.consumed)
    case Produce(next) => s.(last := next, uses := s.uses[slot := next], images := s.images[slot := next])
    case _ => s
  }

  predicate Step(s: Stream, move: Move, s': Stream)
    requires WellFormed(s)
  {
    match move
    case Offer => s' == Offered(s)
    case Take => s.taken == 0 && HasNewFrame(s.last, s.consumed) && s' == s.(taken := s.last)
    case Copy(read) => s.taken != 0 && read == s.images[SlotFor(s.taken)] && s' == s
    case Signal => s.taken != 0 && s' == s.(consumed := s.taken, taken := 0)
  }

  ghost predicate Inv(s: Stream) {
    && WellFormed(s) && UsesAre(s.last, s.uses) && s.images == s.uses
    && s.consumed <= s.last <= s.consumed + SlotCount
    && (s.taken != 0 ==> s.consumed < s.taken <= s.last)
  }

  lemma StepInv(s: Stream, move: Move, s': Stream)
    requires Inv(s) && Step(s, move, s')
    ensures Inv(s')
  {
    if move.Offer? {
      DecisionIsWindow(s.last, s.uses, s.consumed);
      if s'.last != s.last {
        UsesNext(s.last, s.uses);
      }
    }
  }

  ghost predicate IsRun(states: seq<Stream>, moves: seq<Move>) {
    && |states| == |moves| + 1 && Start(states[0])
    && forall k :: 0 <= k < |moves| ==> WellFormed(states[k]) && Step(states[k], moves[k], states[k + 1])
  }

  // In every run the producer stays at most three frames ahead of the consumer.
  lemma {:induction false} RunInv(states: seq<Stream>, moves: seq<Move>, k: nat)
    requires IsRun(states, moves) && k <= |moves|
    ensures Inv(states[k])
  {
    if k > 0 {
      RunInv(states, moves, k - 1);
      StepInv(states[k - 1], moves[k - 1], states[k]);
    } else {
      assert forall slot :: LatestIn(0, slot) == 0;
    }
  }

  // Every piece the consumer copies is of the frame it took: its slot is not overwritten meanwhile.
  lemma CopySeesItsFrame(states: seq<Stream>, moves: seq<Move>, k: nat)
    requires IsRun(states, moves) && k < |moves| && moves[k].Copy?
    ensures moves[k].read == states[k].taken
  {
    RunInv(states, moves, k);
    assert Step(states[k], moves[k], states[k + 1]);
    WindowKeepsSlots(states[k].consumed, states[k].taken, states[k].last);
  }
}
