// Why the order of acquired pairs needs disciplined producers, on a ring of any size from two slots
// per eye: two runs that acquire the pair for frame 2 and then the pair for frame 1. In the first
// each eye holds two leases at once, in increasing order; in the second each eye holds one lease at
// a time, in decreasing order.
module FrameRingDisorder {
  import opened Words
  import opened Division
  import opened Wrappers
  import opened FrameRing
  import opened FrameRingProofs
  import opened FrameRingRuns
  import opened FrameRingOrder

  function Picture(eye: nat, id: u64): Frame {
    Frame(eye, id, 1, 1, 1, 1, Texture(1, 1, 1, 1), NoTexture, NoTexture, 0)
  }

  function Leased(eye: nat, lease: nat, id: u64): Slot { Slot(ProducerOwned, eye, lease, id, 1, 0, NoFrame(eye)) }

  function Filled(state: State, eye: nat, lease: nat, id: u64): Slot {
    Slot(state, eye, lease, id, 1, 0, Picture(eye, id))
  }

  // The left eye's leases are 1 and 2, the right eye's 3 and 4, in slots 0 and 1.
  function Taken(id: u64, i: nat): Pair {
    Pair(Half(Picture(Left, id), i, i + 1), Half(Picture(Right, id), i, i + 3))
  }

  // One eye after so many grants: slots 0 and 1; the rest of the row is untouched.
  datatype Side = Side(grants: nat, a: Slot, b: Slot) {
    function At(i: nat): Slot { if i == 0 then a else b }
    function With(i: nat, slot: Slot): Side { if i == 0 then this.(a := slot) else this.(b := slot) }
  }

  // Both eyes, and what the ring has counted.
  datatype Sides = Sides(left: Side, right: Side, published: nat, last: u64, pairs: nat) {
    function Of(eye: nat): Side { if eye == Left then left else right }
    function With(eye: nat, side: Side): Sides { if eye == Left then this.(left := side) else this.(right := side) }
    function Grants(): nat { left.grants + right.grants }
  }

  function Row(n: nat, eye: nat, side: Side): (row: seq<Slot>)
    requires n >= 2
    ensures |row| == n && row[0] == side.a && row[1] == side.b
    ensures forall k :: 2 <= k < n ==> row[k].state == Free
  {
    [side.a, side.b] + NewRow(eye, n - 2)
  }

  function RingOf(n: nat, s: Sides): Ring
    requires n >= 2
  {
    Ring([Row(n, Left, s.left), Row(n, Right, s.right)], [s.left.grants % n, s.right.grants % n], s.Grants() + 1,
         if s.Grants() == 0 then 0 else 1, s.last, s.pairs > 0, Stats(s.published, s.pairs, 0, 0, 0, 0), s.Grants(), 0)
  }

  lemma RowSet(n: nat, eye: nat, side: Side, i: nat, slot: Slot)
    requires n >= 2 && i < 2
    ensures Row(n, eye, side)[i := slot] == Row(n, eye, side.With(i, slot))
  {
  }

  // ---- one step from such a ring to the next

  function AfterGrant(s: Sides, eye: nat, id: u64): Sides {
    var side := s.Of(eye);
    s.With(eye, side.With(side.grants, Leased(eye, s.Grants() + 1, id)).(grants := side.grants + 1))
  }

  lemma GrantStep(n: nat, s: Sides, eye: nat, id: u64)
    requires n >= 2 && ValidEye(eye) && id != 0 && s.pairs == 0
    requires s.Of(eye).grants < 2 && s.Of(eye).At(s.Of(eye).grants) == NewSlot(eye)
    ensures Step(RingOf(n, s), Begin(eye, id, 1, Some(Lease(eye, s.Of(eye).grants, s.Grants() + 1))),
                 RingOf(n, AfterGrant(s, eye, id)))
  {
    var r, i := RingOf(n, s), s.Of(eye).grants;
    var row := r.slots[eye];
    DivisionUnique(i, n, 0, i);
    DivisionUnique(i, |row|, 0, i);
    assert Around(row, i, 0) == i && NoneFree(row, i, 0);
    assert FirstFree(row, i, i);
    RowSet(n, eye, s.Of(eye), i, Leased(eye, s.Grants() + 1, id));
    var g := r.(generation := 1);
    assert Granted(g, eye, i, id).slots == RingOf(n, AfterGrant(s, eye, id)).slots;
  }

  function AfterPublish(s: Sides, eye: nat, i: nat): Sides {
    var slot := s.Of(eye).At(i);
    s.With(eye, s.Of(eye).With(i, Filled(Ready, eye, slot.lease, slot.expectedId))).(published := s.published + 1)
  }

  lemma PublishStepAt(n: nat, s: Sides, eye: nat, i: nat, lease: nat, id: u64)
    requires n >= 2 && ValidEye(eye) && i < 2 && s.Of(eye).At(i) == Leased(eye, lease, id) && s.Grants() > 0
    ensures Step(RingOf(n, s), Publish(Lease(eye, i, lease), Picture(eye, id), true), RingOf(n, AfterPublish(s, eye, i)))
  {
    var r, lease' := RingOf(n, s), Lease(eye, i, lease);
    RowSet(n, eye, s.Of(eye), i, Filled(Ready, eye, lease, id));
    assert Open(r, lease') && Expected(r, lease', Picture(eye, id)) && Usable(Picture(eye, id));
    assert Published(r, lease', Picture(eye, id)).slots == RingOf(n, AfterPublish(s, eye, i)).slots;
  }

  function AfterAcquire(s: Sides, i: nat, id: u64): Sides {
    s.(left := s.left.With(i, s.left.At(i).(state := ConsumerOwned)),
       right := s.right.With(i, s.right.At(i).(state := ConsumerOwned)), last := id, pairs := s.pairs + 1)
  }

  lemma AcquireStepAt(n: nat, s: Sides, i: nat, id: u64)
    requires n >= 2 && i < 2 && s.Grants() > 0
    requires s.left.At(i) == Filled(Ready, Left, i + 1, id) && s.right.At(i) == Filled(Ready, Right, i + 3, id)
    requires s.left.At(1 - i).state != Ready && s.right.At(1 - i).state != Ready
    ensures Step(RingOf(n, s), Acquire(Some(Taken(id, i))), RingOf(n, AfterAcquire(s, i, id)))
  {
    var r, r' := RingOf(n, s), RingOf(n, AfterAcquire(s, i, id));
    OneReady(n, Left, s.left, i, id);
    OneReady(n, Right, s.right, i, id);
    RowSet(n, Left, s.left, i, s.left.At(i).(state := ConsumerOwned));
    RowSet(n, Right, s.right, i, s.right.At(i).(state := ConsumerOwned));
    assert Matching(r, i, i);
    OnlyPair(r, i);
    hide Newest, Count, Discarded, Matching;
    assert r'.slots == [Owned(r.slots[Left], i), Owned(r.slots[Right], i)];
  }

  // Once the only ready slot is taken, there is nothing to discard.
  lemma OneReady(n: nat, eye: nat, side: Side, i: nat, id: u64)
    requires n >= 2 && i < 2 && side.At(1 - i).state != Ready
    ensures var row := Owned(Row(n, eye, side), i);
      && row == Row(n, eye, side.With(i, side.At(i).(state := ConsumerOwned)))
      && Discarded(row, 1, id) == row && Count(row, Older(1, id)) == 0
    ensures forall k :: 0 <= k < n && k != i ==> Row(n, eye, side)[k].state != Ready
  {
    var row := Owned(Row(n, eye, side), i);
    RowSet(n, eye, side, i, side.At(i).(state := ConsumerOwned));
    CountNone(row, Older(1, id));
  }

  lemma OnlyPair(r: Ring, i: nat)
    requires WellFormed(r) && Matching(r, i, i)
    requires forall k :: 0 <= k < |r.slots[Left]| && k != i ==>
      r.slots[Left][k].state != Ready && r.slots[Right][k].state != Ready
    ensures Newest(r, i, i)
  {
  }

  // ---- the two runs

  function Empty(): Sides {
    Sides(Side(0, NewSlot(Left), NewSlot(Left)), Side(0, NewSlot(Right), NewSlot(Right)), 0, 0, 0)
  }

  lemma EmptyIsInit(n: nat)
    requires n >= 2
    ensures Init(RingOf(n, Empty()), n)
  {
    assert Row(n, Left, Empty().left) == NewRow(Left, n) && Row(n, Right, Empty().right) == NewRow(Right, n);
  }

  // A pair for an earlier frame is acquired after one for a later frame.
  predicate Backwards(events: seq<Event>, j: nat, k: nat) {
    && j < k < |events| && events[j].Acquire? && events[j].pair.Some? && events[k].Acquire? && events[k].pair.Some?
    && Earlier(events[k].pair.value.left.frame, events[j].pair.value.left.frame)
  }

  function Rings(n: nat, states: seq<Sides>): seq<Ring>
    requires n >= 2
  {
    seq(|states|, k requires 0 <= k < |states| => RingOf(n, states[k]))
  }

  function GrantOf(eye: nat, id: u64, slot: nat, lease: nat): Event { Begin(eye, id, 1, Some(Lease(eye, slot, lease))) }

  function PublishOf(eye: nat, id: u64, slot: nat, lease: nat): Event {
    Publish(Lease(eye, slot, lease), Picture(eye, id), true)
  }

  function TwoLeases(): seq<Event> {
    [ GrantOf(Left, 1, 0, 1), GrantOf(Left, 2, 1, 2), GrantOf(Right, 1, 0, 3), GrantOf(Right, 2, 1, 4),
      PublishOf(Left, 2, 1, 2), PublishOf(Right, 2, 1, 4), Acquire(Some(Taken(2, 1))),
      PublishOf(Left, 1, 0, 1), PublishOf(Right, 1, 0, 3), Acquire(Some(Taken(1, 0))) ]
  }

  function TwoLeasesStates(): seq<Sides> {
    [ Sides(Side(0, NewSlot(Left), NewSlot(Left)), Side(0, NewSlot(Right), NewSlot(Right)), 0, 0, 0),
      Sides(Side(1, Leased(Left, 1, 1), NewSlot(Left)), Side(0, NewSlot(Right), NewSlot(Right)), 0, 0, 0),
      Sides(Side(2, Leased(Left, 1, 1), Leased(Left, 2, 2)), Side(0, NewSlot(Right), NewSlot(Right)), 0, 0, 0),
      Sides(Side(2, Leased(Left, 1, 1), Leased(Left, 2, 2)), Side(1, Leased(Right, 3, 1), NewSlot(Right)), 0, 0, 0),
      Sides(Side(2, Leased(Left, 1, 1), Leased(Left, 2, 2)), Side(2, Leased(Right, 3, 1), Leased(Right, 4, 2)), 0, 0, 0),
      Sides(Side(2, Leased(Left, 1, 1), Filled(Ready, Left, 2, 2)), Side(2, Leased(Right, 3, 1), Leased(Right, 4, 2)), 1, 0, 0),
      Sides(Side(2, Leased(Left, 1, 1), Filled(Ready, Left, 2, 2)), Side(2, Leased(Right, 3, 1), Filled(Ready, Right, 4, 2)), 2, 0, 0),
      Sides(Side(2, Leased(Left, 1, 1), Filled(ConsumerOwned, Left, 2, 2)), Side(2, Leased(Right, 3, 1), Filled(ConsumerOwned, Right, 4, 2)), 2, 2, 1),
      Sides(Side(2, Filled(Ready, Left, 1, 1), Filled(ConsumerOwned, Left, 2, 2)), Side(2, Leased(Right, 3, 1), Filled(ConsumerOwned, Right, 4, 2)), 3, 2, 1),
      Sides(Side(2, Filled(Ready, Left, 1, 1), Filled(ConsumerOwned, Left, 2, 2)), Side(2, Filled(Ready, Right, 3, 1), Filled(ConsumerOwned, Right, 4, 2)), 4, 2, 1),
      Sides(Side(2, Filled(ConsumerOwned, Left, 1, 1), Filled(ConsumerOwned, Left, 2, 2)), Side(2, Filled(ConsumerOwned, Right, 3, 1), Filled(ConsumerOwned, Right, 4, 2)), 4, 1, 2) ]
  }

  function Decreasing(): seq<Event> {
    [ GrantOf(Left, 2, 0, 1), PublishOf(Left, 2, 0, 1), GrantOf(Left, 1, 1, 2),
      GrantOf(Right, 2, 0, 3), PublishOf(Right, 2, 0, 3), GrantOf(Right, 1, 1, 4), Acquire(Some(Taken(2, 0))),
      PublishOf(Left, 1, 1, 2), PublishOf(Right, 1, 1, 4), Acquire(Some(Taken(1, 1))) ]
  }

  function DecreasingStates(): seq<Sides> {
    [ Sides(Side(0, NewSlot(Left), NewSlot(Left)), Side(0, NewSlot(Right), NewSlot(Right)), 0, 0, 0),
      Sides(Side(1, Leased(Left, 1, 2), NewSlot(Left)), Side(0, NewSlot(Right), NewSlot(Right)), 0, 0, 0),
      Sides(Side(1, Filled(Ready, Left, 1, 2), NewSlot(Left)), Side(0, NewSlot(Right), NewSlot(Right)), 1, 0, 0),
      Sides(Side(2, Filled(Ready, Left, 1, 2), Leased(Left, 2, 1)), Side(0, NewSlot(Right), NewSlot(Right)), 1, 0, 0),
      Sides(Side(2, Filled(Ready, Left, 1, 2), Leased(Left, 2, 1)), Side(1, Leased(Right, 3, 2), NewSlot(Right)), 1, 0, 0),
      Sides(Side(2, Filled(Ready, Left, 1, 2), Leased(Left, 2, 1)), Side(1, Filled(Ready, Right, 3, 2), NewSlot(Right)), 2, 0, 0),
      Sides(Side(2, Filled(Ready, Left, 1, 2), Leased(Left, 2, 1)), Side(2, Filled(Ready, Right, 3, 2), Leased(Right, 4, 1)), 2, 0, 0),
      Sides(Side(2, Filled(ConsumerOwned, Left, 1, 2), Leased(Left, 2, 1)), Side(2, Filled(ConsumerOwned, Right, 3, 2), Leased(Right, 4, 1)), 2, 2, 1),
      Sides(Side(2, Filled(ConsumerOwned, Left, 1, 2), Filled(Ready, Left, 2, 1)), Side(2, Filled(ConsumerOwned, Right, 3, 2), Leased(Right, 4, 1)), 3, 2, 1),
      Sides(Side(2, Filled(ConsumerOwned, Left, 1, 2), Filled(Ready, Left, 2, 1)), Side(2, Filled(ConsumerOwned, Right, 3, 2), Filled(Ready, Right, 4, 1)), 4, 2, 1),
      Sides(Side(2, Filled(ConsumerOwned, Left, 1, 2), Filled(ConsumerOwned, Left, 2, 1)), Side(2, Filled(ConsumerOwned, Right, 3, 2), Filled(ConsumerOwned, Right, 4, 1)), 4, 1, 2) ]
  }

  lemma RingsWellFormed(n: nat, states: seq<Sides>)
    requires n >= 2
    ensures forall k :: 0 <= k < |states| ==> WellFormed(RingOf(n, states[k]))
  {
  }

  lemma RunOf(n: nat, states: seq<Sides>, events: seq<Event>)
    requires n >= 2 && |states| == |events| + 1 && states[0] == Empty()
    requires forall k :: 0 <= k < |events| ==> StepOf(n, states, events, k)
    ensures IsRun(Rings(n, states), events)
  {
    hide Step, Init, RingOf, WellFormed;
    EmptyIsInit(n);
    var rings := Rings(n, states);
    assert Init(rings[0], n);
    forall k | 0 <= k < |events| ensures WellFormed(rings[k]) && Step(rings[k], events[k], rings[k + 1]) {
      assert StepOf(n, states, events, k);
    }
  }

  ghost predicate StepOf(n: nat, states: seq<Sides>, events: seq<Event>, k: nat) {
    n >= 2 && k < |events| && k + 1 < |states| && WellFormed(RingOf(n, states[k]))
    && Step(RingOf(n, states[k]), events[k], RingOf(n, states[k + 1]))
  }

  lemma TwoLeasesBegins(n: nat)
    requires n >= 2
    ensures forall k :: 0 <= k < 4 ==> StepOf(n, TwoLeasesStates(), TwoLeases(), k)
  {
    hide Step, RingOf, WellFormed;
    var s := TwoLeasesStates();
    RingsWellFormed(n, s);
    GrantStep(n, s[0], Left, 1);
    assert AfterGrant(s[0], Left, 1) == s[1];
    GrantStep(n, s[1], Left, 2);
    assert AfterGrant(s[1], Left, 2) == s[2];
    GrantStep(n, s[2], Right, 1);
    assert AfterGrant(s[2], Right, 1) == s[3];
    GrantStep(n, s[3], Right, 2);
    assert AfterGrant(s[3], Right, 2) == s[4];
  }

  lemma TwoLeasesGoesOn(n: nat)
    requires n >= 2
    ensures forall k :: 4 <= k < 7 ==> StepOf(n, TwoLeasesStates(), TwoLeases(), k)
  {
    hide Step, RingOf, WellFormed;
    var s := TwoLeasesStates();
    RingsWellFormed(n, s);
    PublishStepAt(n, s[4], Left, 1, 2, 2);
    assert AfterPublish(s[4], Left, 1) == s[5];
    PublishStepAt(n, s[5], Right, 1, 4, 2);
    assert AfterPublish(s[5], Right, 1) == s[6];
    AcquireStepAt(n, s[6], 1, 2);
    assert AfterAcquire(s[6], 1, 2) == s[7];
  }

  lemma TwoLeasesEnds(n: nat)
    requires n >= 2
    ensures forall k :: 7 <= k < 10 ==> StepOf(n, TwoLeasesStates(), TwoLeases(), k)
  {
    hide Step, RingOf, WellFormed;
    var s := TwoLeasesStates();
    RingsWellFormed(n, s);
    PublishStepAt(n, s[7], Left, 0, 1, 1);
    assert AfterPublish(s[7], Left, 0) == s[8];
    PublishStepAt(n, s[8], Right, 0, 3, 1);
    assert AfterPublish(s[8], Right, 0) == s[9];
    AcquireStepAt(n, s[9], 0, 1);
    assert AfterAcquire(s[9], 0, 1) == s[10];
  }

  lemma DecreasingBegins(n: nat)
    requires n >= 2
    ensures forall k :: 0 <= k < 4 ==> StepOf(n, DecreasingStates(), Decreasing(), k)
  {
    hide Step, RingOf, WellFormed;
    var s := DecreasingStates();
    RingsWellFormed(n, s);
    GrantStep(n, s[0], Left, 2);
    assert AfterGrant(s[0], Left, 2) == s[1];
    PublishStepAt(n, s[1], Left, 0, 1, 2);
    assert AfterPublish(s[1], Left, 0) == s[2];
    GrantStep(n, s[2], Left, 1);
    assert AfterGrant(s[2], Left, 1) == s[3];
    GrantStep(n, s[3], Right, 2);
    assert AfterGrant(s[3], Right, 2) == s[4];
  }

  lemma DecreasingGoesOn(n: nat)
    requires n >= 2
    ensures forall k :: 4 <= k < 7 ==> StepOf(n, DecreasingStates(), Decreasing(), k)
  {
    hide Step, RingOf, WellFormed;
    var s := DecreasingStates();
    RingsWellFormed(n, s);
    PublishStepAt(n, s[4], Right, 0, 3, 2);
    assert AfterPublish(s[4], Right, 0) == s[5];
    GrantStep(n, s[5], Right, 1);
    assert AfterGrant(s[5], Right, 1) == s[6];
    AcquireStepAt(n, s[6], 0, 2);
    assert AfterAcquire(s[6], 0, 2) == s[7];
  }

  lemma DecreasingEnds(n: nat)
    requires n >= 2
    ensures forall k :: 7 <= k < 10 ==> StepOf(n, DecreasingStates(), Decreasing(), k)
  {
    hide Step, RingOf, WellFormed;
    var s := DecreasingStates();
    RingsWellFormed(n, s);
    PublishStepAt(n, s[7], Left, 1, 2, 1);
    assert AfterPublish(s[7], Left, 1) == s[8];
    PublishStepAt(n, s[8], Right, 1, 4, 1);
    assert AfterPublish(s[8], Right, 1) == s[9];
    AcquireStepAt(n, s[9], 1, 1);
    assert AfterAcquire(s[9], 1, 1) == s[10];
  }

  // Two leases at once in each eye, with increasing ids.
  lemma TwoLeasesGoBackwards(n: nat)
    requires n >= 2
    ensures IsRun(Rings(n, TwoLeasesStates()), TwoLeases())
    ensures Increasing(TwoLeases()) && Backwards(TwoLeases(), 6, 9)
  {
    TwoLeasesBegins(n);
    TwoLeasesGoesOn(n);
    TwoLeasesEnds(n);
    hide StepOf;
    RunOf(n, TwoLeasesStates(), TwoLeases());
  }

  // One lease at a time in each eye, with decreasing ids.
  lemma DecreasingGoesBackwards(n: nat)
    requires n >= 2
    ensures IsRun(Rings(n, DecreasingStates()), Decreasing())
    ensures OneAtATime(Rings(n, DecreasingStates()), Decreasing()) && Backwards(Decreasing(), 6, 9)
  {
    DecreasingBegins(n);
    DecreasingGoesOn(n);
    DecreasingEnds(n);
    hide StepOf, IsRun, NoneOpen, Row;
    RunOf(n, DecreasingStates(), Decreasing());
    var s, rings, events := DecreasingStates(), Rings(n, DecreasingStates()), Decreasing();
    NoneOpenIn(n, Left, s[0].left);
    NoneOpenIn(n, Left, s[2].left);
    NoneOpenIn(n, Right, s[3].right);
    NoneOpenIn(n, Right, s[5].right);
    forall k, eye: nat | 0 <= k < |events| && ValidEye(eye) && Grants(events[k], eye)
      ensures NoneOpen(rings[k].slots[eye])
    {
      assert rings[k] == RingOf(n, s[k]);
      assert (eye == Left && (k == 0 || k == 2)) || (eye == Right && (k == 3 || k == 5));
    }
  }

  lemma NoneOpenIn(n: nat, eye: nat, side: Side)
    requires n >= 2 && side.a.state != ProducerOwned && side.b.state != ProducerOwned
    ensures NoneOpen(Row(n, eye, side))
  {
  }
}
