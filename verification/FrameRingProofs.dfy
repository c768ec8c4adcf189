// What every call keeps: the books of leases and pairs balance, a lease belongs to one slot, and
// whatever is ready or with the consumer is a usable frame of the current generation.
module FrameRingProofs {
  import opened Words
  import opened Wrappers
  import opened FrameRing

  predicate SlotOk(r: Ring, eye: nat, slot: Slot) {
    && slot.eye == eye && slot.frame.eye == eye && slot.lease < r.nextLease
    && (slot.state != Free ==> slot.lease != 0 && r.generation != 0 && slot.expectedId != 0)
    && (slot.state == ProducerOwned ==> slot.expectedGeneration == r.generation)
    && (slot.state == Ready || slot.state == ConsumerOwned || slot.state == ConsumerPending ==>
          slot.frame.generation == r.generation && slot.frame.id == slot.expectedId && Usable(slot.frame))
  }

  ghost predicate SlotsOk(r: Ring)
    requires WellFormed(r)
  {
    forall eye: nat, i: nat :: ValidEye(eye) && i < |r.slots[eye]| ==> SlotOk(r, eye, r.slots[eye][i])
  }

  // No two slots carry the same lease; 0 is no lease.
  ghost predicate LeasesDistinct(r: Ring)
    requires WellFormed(r)
  {
    forall eye: nat, i: nat, eye': nat, i': nat ::
      (ValidEye(eye) && i < |r.slots[eye]| && ValidEye(eye') && i' < |r.slots[eye']|
       && r.slots[eye][i].lease == r.slots[eye'][i'].lease != 0) ==> eye == eye' && i == i'
  }

  predicate Books(r: Ring)
    requires |r.slots| == 2
  {
    && r.granted == r.stats.published + r.stats.cancelled + Total(r, ProducerOwned)
    && r.stats.published == 2 * r.stats.acquiredPairs + r.stats.dropped + r.wiped + Total(r, Ready)
    && 2 * r.stats.acquiredPairs == r.stats.retired + Total(r, ConsumerOwned) + Total(r, ConsumerPending)
  }

  ghost predicate Inv(r: Ring) {
    && WellFormed(r) && SlotsOk(r) && LeasesDistinct(r) && Books(r)
    && r.nextLease > 0
  }

  lemma InvShape(r: Ring)
    requires Inv(r)
    ensures WellFormed(r) && SlotsOk(r)
  {
  }

  // ---- counting slots

  lemma {:induction false} CountSet(row: seq<Slot>, i: nat, slot: Slot, p: Slot -> bool)
    requires i < |row|
    ensures Count(row[i := slot], p) + (if p(row[i]) then 1 else 0) == Count(row, p) + if p(slot) then 1 else 0
  {
    var n := |row| - 1;
    if i == n {
      assert row[i := slot][..n] == row[..n];
    } else {
      CountSet(row[..n], i, slot, p);
      assert row[i := slot][..n] == row[..n][i := slot];
    }
  }

  // The same for the count of slots in each state.
  lemma CountMoved(row: seq<Slot>, i: nat, slot: Slot)
    requires i < |row|
    ensures forall state ::
      Count(row[i := slot], In(state))
      == Count(row, In(state)) - (if row[i].state == state then 1 else 0) + if slot.state == state then 1 else 0
  {
  }

  lemma {:induction false} CountNone(row: seq<Slot>, p: Slot -> bool)
    requires forall i :: 0 <= i < |row| ==> !p(row[i])
    ensures Count(row, p) == 0
  {
    if row != [] {
      CountNone(row[..|row| - 1], p);
    }
  }

  lemma {:induction false} CountDiscarded(row: seq<Slot>, generation: u64, id: u64, state: State)
    requires state != Free
    ensures Count(Discarded(row, generation, id), In(state))
         == Count(row, In(state)) - if state == Ready then Count(row, Older(generation, id)) else 0
  {
    if row != [] {
      var front := row[..|row| - 1];
      CountDiscarded(front, generation, id, state);
      var kept := Discarded(row, generation, id);
      assert kept[..|row| - 1] == Discarded(front, generation, id);
      assert kept[|row| - 1].state == if Older(generation, id)(row[|row| - 1]) then Free else row[|row| - 1].state;
    }
  }

  lemma {:induction false} CountRetired(row: seq<Slot>, completed: u64, state: State)
    requires state != Free
    ensures Count(RetiredRow(row, completed), In(state))
         == Count(row, In(state)) - if state == ConsumerPending then Count(row, Done(completed)) else 0
  {
    if row != [] {
      var front := row[..|row| - 1];
      CountRetired(front, completed, state);
      var kept := RetiredRow(row, completed);
      assert kept[..|row| - 1] == RetiredRow(front, completed);
      assert kept[|row| - 1].state == if Done(completed)(row[|row| - 1]) then Free else row[|row| - 1].state;
    }
  }

  // ---- the books

  lemma BooksSet(r: Ring, eye: nat, i: nat, slot: Slot)
    requires WellFormed(r) && ValidEye(eye) && i < |r.slots[eye]|
    ensures var was := r.slots[eye][i];
            forall state :: Total(Set(r, eye, i, slot), state) + (if was.state == state then 1 else 0)
                         == Total(r, state) + if slot.state == state then 1 else 0
  {
    CountMoved(r.slots[eye], i, slot);
  }

  lemma BooksBegin(r: Ring, eye: nat, id: u64, generation: u64, granted: Option<Lease>, r': Ring)
    requires WellFormed(r) && Books(r) && BeginStep(r, eye, id, generation, granted, r')
    ensures Books(r')
  {
    if granted.Some? {
      var g := r.(generation := generation);
      var i := granted.value.slot;
      assert g.slots[eye][i].state == Free || g.slots[eye][i].state == Ready;
      BooksSet(g, eye, i, r'.slots[eye][i]);
      forall state ensures Total(r', state) == Total(Set(g, eye, i, r'.slots[eye][i]), state) {
      }
      assert Total(g, Ready) == Total(r, Ready) && Total(g, ProducerOwned) == Total(r, ProducerOwned);
    }
  }

  lemma BooksLease(r: Ring, lease: Lease)
    requires WellFormed(r) && Books(r) && Open(r, lease)
    ensures Books(Abandoned(r, lease))
    ensures forall frame :: Books(Published(r, lease, frame))
  {
    BooksSet(r, lease.eye, lease.slot, Abandoned(r, lease).slots[lease.eye][lease.slot]);
    forall frame: Frame ensures Books(Published(r, lease, frame)) {
      BooksSet(r, lease.eye, lease.slot, r.slots[lease.eye][lease.slot].(frame := frame, state := Ready));
    }
  }

  lemma BooksAcquire(r: Ring, i: nat, j: nat)
    requires WellFormed(r) && Books(r) && Matching(r, i, j)
    ensures Books(Acquired(r, i, j))
  {
    var frame := r.slots[Left][i].frame;
    var lefts, rights := Owned(r.slots[Left], i), Owned(r.slots[Right], j);
    forall state | state != Free
      ensures Total(Acquired(r, i, j), state) ==
        Count(lefts, In(state)) + Count(rights, In(state))
        - if state == Ready then Count(lefts, Older(frame.generation, frame.id))
                                 + Count(rights, Older(frame.generation, frame.id)) else 0
    {
      CountDiscarded(lefts, frame.generation, frame.id, state);
      CountDiscarded(rights, frame.generation, frame.id, state);
    }
    CountMoved(r.slots[Left], i, lefts[i]);
    CountMoved(r.slots[Right], j, rights[j]);
  }

  lemma BooksRelease(r: Ring, held: Pair, fence: u64, r': Ring)
    requires WellFormed(r) && Books(r) && ReleaseStep(r, held, fence, true, r')
    ensures Books(r')
  {
    var lefts, rights := r'.slots[Left], r'.slots[Right];
    CountMoved(r.slots[Left], held.left.slot, lefts[held.left.slot]);
    CountMoved(r.slots[Right], held.right.slot, rights[held.right.slot]);
  }

  lemma BooksRetire(r: Ring, completed: u64)
    requires WellFormed(r) && Books(r)
    ensures Books(Retired(r, completed))
  {
    forall state | state != Free
      ensures Total(Retired(r, completed), state) == Total(r, state)
        - if state == ConsumerPending then Count(r.slots[Left], Done(completed)) + Count(r.slots[Right], Done(completed)) else 0
    {
      CountRetired(r.slots[Left], completed, state);
      CountRetired(r.slots[Right], completed, state);
    }
  }

  lemma BooksReset(r: Ring, renewed: u64, r': Ring)
    requires WellFormed(r) && Books(r) && ResetStep(r, renewed, true, r')
    ensures Books(r')
  {
    forall state | state != Free
      ensures Total(r', state) == 0 && (state != Ready ==> Total(r, state) == 0)
    {
      CountNone(r'.slots[Left], In(state));
      CountNone(r'.slots[Right], In(state));
      if state != Ready {
        CountNone(r.slots[Left], In(state));
        CountNone(r.slots[Right], In(state));
      }
    }
  }

  lemma StepBooks(r: Ring, event: Event, r': Ring)
    requires WellFormed(r) && Books(r) && Step(r, event, r')
    ensures Books(r')
  {
    match event
    case Begin(eye, id, generation, granted) => BooksBegin(r, eye, id, generation, granted, r');
    case Publish(lease, frame, accepted) => if Open(r, lease) { BooksLease(r, lease); }
    case Cancel(lease, accepted) => if accepted { BooksLease(r, lease); }
    case Acquire(pair) => if pair.Some? { BooksAcquire(r, pair.value.left.slot, pair.value.right.slot); }
    case Release(held, fence, accepted) => if accepted { BooksRelease(r, held, fence, r'); }
    case Retire(completed) => BooksRetire(r, completed);
    case Reset(renewed, accepted) => if accepted { BooksReset(r, renewed, r'); }
  }

  // ---- slots and leases

  lemma StepShape(r: Ring, event: Event, r': Ring)
    requires WellFormed(r) && Step(r, event, r')
    ensures WellFormed(r') && |r'.slots[Left]| == |r.slots[Left]|
    ensures r.nextLease <= r'.nextLease && r.generation <= r'.generation
  {
  }

  // A slot keeps its lease, loses it to a reset, or gets the next one.
  lemma StepLease(r: Ring, event: Event, r': Ring, eye: nat, i: nat)
    requires WellFormed(r) && Step(r, event, r') && WellFormed(r')
    requires ValidEye(eye) && i < |r.slots[eye]| && i < |r'.slots[eye]|
    ensures r'.slots[eye][i].lease == r.slots[eye][i].lease
         || r'.slots[eye][i].lease == 0
         || (event.Begin? && event.granted == Some(Lease(eye, i, r.nextLease))
             && r'.slots[eye][i].lease == r.nextLease < r'.nextLease)
  {
  }

  lemma BeginSlot(r: Ring, e: nat, id: u64, generation: u64, granted: Option<Lease>, r': Ring, eye: nat, i: nat)
    requires WellFormed(r) && BeginStep(r, e, id, generation, granted, r') && WellFormed(r') && r.nextLease > 0
    requires ValidEye(eye) && i < |r.slots[eye]| && i < |r'.slots[eye]| && SlotOk(r, eye, r.slots[eye][i])
    ensures SlotOk(r', eye, r'.slots[eye][i])
  {
  }

  lemma AcquireSlot(r: Ring, left: nat, right: nat, eye: nat, i: nat)
    requires WellFormed(r) && Matching(r, left, right)
    requires ValidEye(eye) && i < |r.slots[eye]| && SlotOk(r, eye, r.slots[eye][i])
    ensures |Acquired(r, left, right).slots[eye]| == |r.slots[eye]|
    ensures SlotOk(Acquired(r, left, right), eye, Acquired(r, left, right).slots[eye][i])
  {
  }

  lemma LeaseSlot(r: Ring, lease: Lease, frame: Frame, eye: nat, i: nat)
    requires WellFormed(r) && Open(r, lease)
    requires ValidEye(eye) && i < |r.slots[eye]| && SlotOk(r, eye, r.slots[eye][i])
    ensures SlotOk(r, eye, Abandoned(r, lease).slots[eye][i])
    ensures Expected(r, lease, frame) && Usable(frame) ==> SlotOk(r, eye, Published(r, lease, frame).slots[eye][i])
  {
  }

  lemma LaterSlot(r: Ring, event: Event, r': Ring, eye: nat, i: nat)
    requires WellFormed(r) && Step(r, event, r') && (event.Release? || event.Retire? || event.Reset?)
    requires WellFormed(r') && ValidEye(eye) && i < |r.slots[eye]| && i < |r'.slots[eye]|
    requires SlotOk(r, eye, r.slots[eye][i])
    ensures SlotOk(r', eye, r'.slots[eye][i])
  {
  }

  lemma StepSlot(r: Ring, event: Event, r': Ring, eye: nat, i: nat)
    requires WellFormed(r) && SlotsOk(r) && Step(r, event, r') && r.nextLease > 0
    requires WellFormed(r') && ValidEye(eye) && i < |r.slots[eye]| && i < |r'.slots[eye]|
    ensures SlotOk(r', eye, r'.slots[eye][i])
  {
    var slot := r.slots[eye][i];
    assert SlotOk(r, eye, slot);
    match event
    case Begin(e, id, generation, granted) => BeginSlot(r, e, id, generation, granted, r', eye, i);
    case Acquire(pair) => if pair.Some? { AcquireSlot(r, pair.value.left.slot, pair.value.right.slot, eye, i); }
    case Publish(lease, frame, accepted) => if Open(r, lease) { LeaseSlot(r, lease, frame, eye, i); }
    case Cancel(lease, accepted) => if accepted { LeaseSlot(r, lease, NoFrame(eye), eye, i); }
    case _ => LaterSlot(r, event, r', eye, i);
  }

  lemma StepInv(r: Ring, event: Event, r': Ring)
    requires Inv(r) && Step(r, event, r')
    ensures Inv(r')
  {
    StepShape(r, event, r');
    StepBooks(r, event, r');
    forall eye: nat, i: nat | ValidEye(eye) && i < |r'.slots[eye]| ensures SlotOk(r', eye, r'.slots[eye][i]) {
      StepSlot(r, event, r', eye, i);
    }
    forall eye: nat, i: nat, eye': nat, i': nat |
      && ValidEye(eye) && i < |r'.slots[eye]| && ValidEye(eye') && i' < |r'.slots[eye']|
      && r'.slots[eye][i].lease == r'.slots[eye'][i'].lease != 0
      ensures eye == eye' && i == i'
    {
      hide Step;
      StepLease(r, event, r', eye, i);
      StepLease(r, event, r', eye', i');
      assert SlotOk(r, eye, r.slots[eye][i]) && SlotOk(r, eye', r.slots[eye'][i']);
    }
  }

  lemma InitInv(r: Ring, capacity: nat)
    requires Init(r, capacity)
    ensures Inv(r)
  {
    forall state | state != Free ensures Total(r, state) == 0 {
      CountNone(r.slots[Left], In(state));
      CountNone(r.slots[Right], In(state));
    }
  }
}
