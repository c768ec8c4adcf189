// A sequence lock over a block of words: the shared-memory slots of shared_memory_channel.cpp and the
// private snapshot of vr_bridge.hpp. The two differ in what a writer does when the numbers run out:
// the shared slot refuses, the private one starts over at 2.
module Seqlock {
  import opened Wrappers
  import opened Division

  type Words = seq<nat>

  // The publication that is being copied in, and how far.
  datatype Hold = Hold(frame: Words, copied: nat)

  // `log` holds every finished publication.
  datatype Lock = Lock(width: nat, sequence: nat, words: Words, log: seq<Words>, hold: Option<Hold>)

  const Top: nat := 0xFFFF_FFFC

  // The number of publications after which the private lock's numbers repeat, and the most the
  // shared slot takes.
  const Period: nat := 0x7FFF_FFFE

  // The number after n publications.
  function SequenceOf(n: nat): nat {
    if n == 0 then 0 else 2 + 2 * ((n - 1) % Period)
  }

  function Started(l: Lock): nat { |l.log| + if l.hold.Some? then 1 else 0 }

  predicate Ok(l: Lock) {
    && |l.words| == l.width && (forall f <- l.log :: |f| == l.width)
    && match l.hold
       case None =>
         l.sequence == SequenceOf(|l.log|) && (l.log != [] ==> l.words == l.log[|l.log| - 1])
       case Some(Hold(frame, copied)) =>
         && l.sequence == SequenceOf(|l.log| + 1) - 1 && |frame| == l.width
         && copied <= l.width && l.words[..copied] == frame[..copied]
  }

  // ---- the writer

  // The private lock's next odd number; the shared slot's whenever it does not refuse.
  function NextWriting(stable: nat): nat {
    if stable >= Top then 1 else stable - stable % 2 + 1
  }

  predicate Refuses(stable: nat) { stable % 2 == 1 || stable >= Top }

  function StartWriting(l: Lock, frame: Words): Lock {
    l.(sequence := NextWriting(l.sequence), hold := Some(Hold(frame, 0)))
  }

  function CopyWord(l: Lock): Lock
    requires l.hold.Some? && l.hold.value.copied < |l.words| && l.hold.value.copied < |l.hold.value.frame|
  {
    var Hold(frame, copied) := l.hold.value;
    l.(words := l.words[copied := frame[copied]], hold := Some(Hold(frame, copied + 1)))
  }

  function FinishWriting(l: Lock): Lock
    requires l.hold.Some?
  {
    l.(sequence := l.sequence + 1, log := l.log + [l.hold.value.frame], hold := None)
  }

  lemma NextNumber(n: nat)
    ensures NextWriting(SequenceOf(n)) == SequenceOf(n + 1) - 1
    ensures SequenceOf(n) % 2 == 0 && (SequenceOf(n) == 0 <==> n == 0) && SequenceOf(n) <= Top
    ensures SequenceOf(n) == Top <==> n > 0 && n % Period == 0
  {
  }

  lemma StartOk(l: Lock, frame: Words)
    requires Ok(l) && l.hold == None && |frame| == l.width
    ensures Ok(StartWriting(l, frame))
    ensures !Refuses(l.sequence) ==> NextWriting(l.sequence) == l.sequence + 1
  {
  }

  lemma CopyOk(l: Lock)
    requires Ok(l) && l.hold.Some? && l.hold.value.copied < l.width
    ensures Ok(CopyWord(l))
  {
  }

  lemma FinishOk(l: Lock)
    requires Ok(l) && l.hold.Some? && l.hold.value.copied == l.width
    ensures Ok(FinishWriting(l))
  {
  }

  // What a reader can tell from the number: odd while a publication is under way, 0 before any.
  lemma NumberTells(l: Lock)
    requires Ok(l)
    ensures l.sequence % 2 == 1 <==> l.hold.Some?
    ensures l.sequence == 0 <==> Started(l) == 0
    ensures |l.log| <= Period ==> (Refuses(l.sequence) <==> l.hold.Some? || |l.log| == Period)
  {
  }

  // ---- a reader's attempt

  // `at` is the number of publications there had been when the attempt loaded `before`.
  datatype Attempt = Attempt(before: nat, at: nat, copy: Words)

  function Load(l: Lock): Attempt { Attempt(l.sequence, |l.log|, []) }

  function ReadWord(l: Lock, a: Attempt): Attempt
    requires |a.copy| < |l.words|
  {
    a.(copy := a.copy + [l.words[|a.copy|]])
  }

  predicate AttemptOk(l: Lock, a: Attempt) {
    && 0 < a.at <= |l.log| && a.before == SequenceOf(a.at) && |a.copy| <= l.width
    && (Started(l) == a.at ==> |l.log[a.at - 1]| == l.width && a.copy == l.log[a.at - 1][..|a.copy|])
  }

  predicate Accepts(l: Lock, a: Attempt) { l.sequence == a.before && l.sequence % 2 == 0 }

  lemma LoadOk(l: Lock)
    requires Ok(l) && l.sequence != 0 && l.sequence % 2 == 0
    ensures AttemptOk(l, Load(l))
  {
  }

  lemma ReadOk(l: Lock, a: Attempt)
    requires Ok(l) && AttemptOk(l, a) && |a.copy| < l.width
    ensures AttemptOk(l, ReadWord(l, a))
  {
  }

  // A writer's steps only move an attempt further into the past.
  predicate Moved(l: Lock, l': Lock) {
    && l'.width == l.width && l.log <= l'.log && Started(l) <= Started(l')
    && (Started(l) == Started(l') && l.hold == None ==> l' == l)
  }

  lemma WriterMoves(l: Lock, frame: Words)
    requires Ok(l)
    ensures l.hold == None ==> Moved(l, StartWriting(l, frame))
    ensures l.hold.Some? && l.hold.value.copied < l.width ==> Moved(l, CopyWord(l))
    ensures l.hold.Some? ==> Moved(l, FinishWriting(l))
  {
  }

  lemma AttemptMoves(l: Lock, l': Lock, a: Attempt)
    requires AttemptOk(l, a) && Moved(l, l')
    ensures AttemptOk(l', a)
  {
  }

  // The test passes exactly when a whole number of periods went by and nothing is under way.
  lemma AcceptsIff(l: Lock, a: Attempt)
    requires Ok(l) && AttemptOk(l, a)
    ensures Accepts(l, a) <==> l.hold == None && (|l.log| - a.at) % Period == 0
  {
    NumberTells(l);
    if l.hold == None {
      SameNumber(a.at, |l.log|);
    }
  }

  lemma SameNumber(m: nat, n: nat)
    requires 0 < m <= n
    ensures SequenceOf(m) == SequenceOf(n) <==> (n - m) % Period == 0
  {
  }

  // When fewer than a period of publications start during an attempt, what it accepts is whole: the
  // publication that was there when it began, and still is.
  lemma AcceptedIsWhole(l: Lock, a: Attempt)
    requires Ok(l) && AttemptOk(l, a) && Accepts(l, a) && |a.copy| == l.width
    requires Started(l) - a.at < Period
    ensures a.at == |l.log| && a.copy == l.log[a.at - 1]
  {
    hide SequenceOf;
    AcceptsIff(l, a);
  }

  // The shared slot refuses before its numbers repeat, so there every accepted copy is whole.
  lemma BoundedIsWhole(l: Lock, a: Attempt)
    requires Ok(l) && AttemptOk(l, a) && Accepts(l, a) && |a.copy| == l.width && |l.log| <= Period
    ensures a.at == |l.log| && a.copy == l.log[a.at - 1]
  {
  }

  // ---- a lapped attempt

  // One whole publication, step by step.
  function CopyRest(l: Lock): (l': Lock)
    requires l.hold.Some? && |l.words| == |l.hold.value.frame| && l.hold.value.copied <= |l.words|
    ensures l'.hold.Some?
    decreases |l.words| - l.hold.value.copied
  {
    if l.hold.value.copied < |l.words| then CopyRest(CopyWord(l)) else l
  }

  function Publish(l: Lock, frame: Words): Lock
    requires |l.words| == |frame|
  {
    FinishWriting(CopyRest(StartWriting(l, frame)))
  }

  lemma {:induction false} CopyRestOk(l: Lock)
    requires Ok(l) && l.hold.Some? && |l.words| == |l.hold.value.frame| && l.hold.value.copied <= |l.words|
    ensures var l' := CopyRest(l);
      Ok(l') && l' == l.(words := l.hold.value.frame, hold := Some(Hold(l.hold.value.frame, l.width)))
    decreases |l.words| - l.hold.value.copied
  {
    if l.hold.value.copied < |l.words| {
      CopyOk(l);
      CopyRestOk(CopyWord(l));
    } else {
      assert l.words == l.words[..l.width] && l.hold.value.frame == l.hold.value.frame[..l.width];
    }
  }

  lemma PublishOk(l: Lock, frame: Words)
    requires Ok(l) && l.hold == None && |frame| == l.width
    ensures var l' := Publish(l, frame);
      Ok(l') && l'.hold == None && l'.width == l.width && l'.words == frame && l'.log == l.log + [frame]
  {
    StartOk(l, frame);
    CopyRestOk(StartWriting(l, frame));
    FinishOk(CopyRest(StartWriting(l, frame)));
  }

  // The same frame, published n times.
  function PublishTimes(l: Lock, frame: Words, n: nat): (l': Lock)
    requires |l.words| == |frame| && Ok(l) && l.hold == None && l.width == |frame|
    ensures Ok(l') && l'.hold == None && l'.width == l.width && |l'.log| == |l.log| + n
    ensures n > 0 ==> l'.words == frame
    ensures forall f :: f in l'.log ==> f in l.log || f == frame
    decreases n
  {
    PublishOk(l, frame);
    if n == 0 then l else PublishTimes(Publish(l, frame), frame, n - 1)
  }

  function ReadRest(l: Lock, a: Attempt): (a': Attempt)
    requires |a.copy| <= |l.words|
    ensures a' == a.(copy := a.copy + l.words[|a.copy|..])
    decreases |l.words| - |a.copy|
  {
    if |a.copy| == |l.words| then a else ReadRest(l, ReadWord(l, a))
  }

  // A reader copies the first word of the only publication there is. Then a whole period of
  // publications goes by, and it copies the rest. Its test passes, and what it has is none of the
  // publications.
  lemma LappedAttemptIsTorn(l: Lock, was: Words, frame: Words)
    requires Ok(l) && l.hold == None && l.log == [was] && l.width >= 2 && |frame| == l.width
    requires was[0] != frame[0] && was[1..] != frame[1..]
    ensures var after := PublishTimes(l, frame, Period);
      var a := ReadRest(after, ReadWord(l, Load(l)));
      && Accepts(after, a) && a.copy == [was[0]] + frame[1..] && a.copy !in after.log
  {
    hide PublishTimes, ReadRest, SequenceOf;
    var after := PublishTimes(l, frame, Period);
    var a := ReadRest(after, ReadWord(l, Load(l)));
    DivisionUnique(Period, Period, 1, 0);
    SameNumber(1, 1 + Period);
    NumberTells(after);
    assert a.copy == [was[0]] + frame[1..];
    assert a.copy[0] == was[0] && a.copy[1..] == frame[1..];
  }
}
