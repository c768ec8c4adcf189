// The order of acquired pairs. `publish` does not compare a frame with the last one acquired, so
// the order depends on how producers take leases.
module FrameRingOrder {
  import opened Words
  import opened Wrappers
  import opened FrameRing
  import opened FrameRingProofs
  import opened FrameRingRuns

  predicate Grants(event: Event, eye: nat) {
    event.Begin? && event.granted.Some? && event.eye == eye
  }

  predicate NoneOpen(row: seq<Slot>) {
    forall i :: 0 <= i < |row| ==> row[i].state != ProducerOwned
  }

  // Each eye holds at most one open lease.
  ghost predicate OneAtATime(rings: seq<Ring>, events: seq<Event>)
    requires IsRun(rings, events)
  {
    forall k, eye: nat :: 0 <= k < |events| && ValidEye(eye) && Grants(events[k], eye) ==>
      NoneOpen(rings[k].slots[eye])
  }

  // Each eye takes its leases with increasing frame ids, within a generation.
  ghost predicate Increasing(events: seq<Event>) {
    forall j, k, eye: nat ::
      (0 <= j < k < |events| && Grants(events[j], eye) && Grants(events[k], eye)
       && events[j].generation == events[k].generation) ==> events[j].id < events[k].id
  }

  predicate InUse(slot: Slot) { slot.state == ProducerOwned || slot.state == Ready }

  // One eye's open and ready slots: all newer than the last acquired frame, no two for the same
  // frame, and the open one the newest.
  predicate RowOrdered(row: seq<Slot>, acquired: bool, last: u64) {
    && (forall i :: 0 <= i < |row| && InUse(row[i]) && acquired ==> last < row[i].expectedId)
    && (forall i, j :: 0 <= i < |row| && 0 <= j < |row| && i != j && InUse(row[i]) && row[j].state == ProducerOwned ==>
          row[i].expectedId < row[j].expectedId)
    && (forall i, j :: 0 <= i < |row| && 0 <= j < |row| && i != j && InUse(row[i]) && InUse(row[j]) ==>
          row[i].expectedId != row[j].expectedId)
  }

  ghost predicate Ordered(r: Ring)
    requires WellFormed(r)
  {
    forall eye: nat :: ValidEye(eye) ==> RowOrdered(r.slots[eye], r.hasAcquired, r.lastAcquired)
  }

  predicate AllBelow(row: seq<Slot>, id: u64) {
    forall i :: 0 <= i < |row| && InUse(row[i]) ==> row[i].expectedId < id
  }

  // Whatever is open or ready was granted in this generation.
  ghost predicate WasGranted(events: seq<Event>, k: nat, eye: nat, id: u64, generation: u64)
    requires k <= |events|
  {
    exists j :: 0 <= j < k && Grants(events[j], eye) && events[j].id == id && events[j].generation == generation
  }

  lemma InUseIsNewOrKept(r: Ring, event: Event, r': Ring, eye: nat, i: nat)
    requires Inv(r) && Step(r, event, r') && Inv(r')
    requires ValidEye(eye) && i < |r.slots[eye]| && i < |r'.slots[eye]| && InUse(r'.slots[eye][i])
    ensures (InUse(r.slots[eye][i]) && r.slots[eye][i].expectedId == r'.slots[eye][i].expectedId
             && r.generation == r'.generation)
         || (Grants(event, eye) && event.id == r'.slots[eye][i].expectedId && event.generation == r'.generation)
  {
    assert SlotOk(r, eye, r.slots[eye][i]);
    match event
    case Begin(e, id, generation, granted) => BeginInUse(r, event, r', eye, i);
    case Acquire(pair) =>
      AcquireShape(r, pair, r');
    case _ =>
      LaterSlotOrdered(r, event, r', eye, i);
  }

  lemma BeginInUse(r: Ring, event: Event, r': Ring, eye: nat, i: nat)
    requires WellFormed(r) && Step(r, event, r') && event.Begin? && WellFormed(r')
    requires ValidEye(eye) && i < |r.slots[eye]| && i < |r'.slots[eye]| && InUse(r'.slots[eye][i])
    requires r.slots[eye][i].state != Free ==> r.generation != 0
    ensures (r'.slots[eye][i] == r.slots[eye][i] && r.generation == r'.generation)
         || (Grants(event, eye) && event.id == r'.slots[eye][i].expectedId && event.generation == r'.generation)
  {
  }

  lemma InitNotInUse(r: Ring, eye: nat, i: nat)
    requires exists capacity: nat :: Init(r, capacity)
    requires ValidEye(eye) && i < |r.slots[eye]|
    ensures !InUse(r.slots[eye][i])
  {
  }

  lemma {:induction false} InUseWasGranted(rings: seq<Ring>, events: seq<Event>, k: nat, eye: nat, i: nat)
    requires IsRun(rings, events) && k <= |events| && WellFormed(rings[k])
    requires ValidEye(eye) && i < |rings[k].slots[eye]| && InUse(rings[k].slots[eye][i])
    ensures WasGranted(events, k, eye, rings[k].slots[eye][i].expectedId, rings[k].generation)
  {
    hide Step, Inv;
    RunInv(rings, events, k);
    if k == 0 {
      InitNotInUse(rings[0], eye, i);
    } else {
      RunInv(rings, events, k - 1);
      var r, r', event := rings[k - 1], rings[k], events[k - 1];
      StepShape(r, event, r');
      InUseIsNewOrKept(r, event, r', eye, i);
      if !(Grants(event, eye) && event.id == r'.slots[eye][i].expectedId && event.generation == r'.generation) {
        InUseWasGranted(rings, events, k - 1, eye, i);
      }
    }
  }

  // A grant keeps an eye ordered when it is the eye's only lease and newer than all it holds.
  lemma GrantOrdered(r: Ring, event: Event, r': Ring, eye: nat)
    requires Inv(r) && Step(r, event, r') && Inv(r') && ValidEye(eye) && event.Begin?
    requires RowOrdered(r.slots[eye], r.hasAcquired, r.lastAcquired)
    requires Grants(event, eye) ==> NoneOpen(r.slots[eye]) && AllBelow(r.slots[eye], event.id)
    ensures RowOrdered(r'.slots[eye], r'.hasAcquired, r'.lastAcquired)
  {
    hide Picks, HasFree, HasStealable;
    if Grants(event, eye) {
      var row, row', i := r.slots[eye], r'.slots[eye], event.granted.value.slot;
      assert row' == row[i := row'[i]] && row'[i].expectedId == event.id;
    } else {
      assert r'.slots[eye] == r.slots[eye];
    }
  }

  lemma AcquireOrdered(r: Ring, i: nat, j: nat, eye: nat)
    requires Inv(r) && Matching(r, i, j) && ValidEye(eye)
    requires RowOrdered(r.slots[eye], r.hasAcquired, r.lastAcquired)
    ensures RowOrdered(Acquired(r, i, j).slots[eye], true, r.slots[Left][i].frame.id)
  {
    var row, row', mine := r.slots[eye], Acquired(r, i, j).slots[eye], if eye == Left then i else j;
    var frame := r.slots[Left][i].frame;
    assert SlotOk(r, Left, r.slots[Left][i]) && SlotOk(r, Right, r.slots[Right][j]);
    assert row[mine].expectedId == frame.id;
    forall k | 0 <= k < |row| && InUse(row'[k]) ensures k != mine && row'[k] == row[k] && frame.id < row[k].expectedId {
      assert SlotOk(r, eye, row[k]);
    }
  }

  // Every other call leaves an eye's open and ready slots as they are, publishes one, or frees some.
  lemma LaterOrdered(r: Ring, event: Event, r': Ring, eye: nat)
    requires Inv(r) && Step(r, event, r') && Inv(r') && ValidEye(eye) && !event.Begin? && !event.Acquire?
    requires RowOrdered(r.slots[eye], r.hasAcquired, r.lastAcquired)
    ensures RowOrdered(r'.slots[eye], r'.hasAcquired, r'.lastAcquired)
  {
    var row, row' := r.slots[eye], r'.slots[eye];
    forall k | 0 <= k < |row'| && InUse(row'[k])
      ensures k < |row| && row'[k].expectedId == row[k].expectedId
      ensures row'[k].state == row[k].state || row'[k].state == Ready
      ensures InUse(row[k]) && r'.hasAcquired == r.hasAcquired && r'.lastAcquired == r.lastAcquired
    {
      LaterSlotOrdered(r, event, r', eye, k);
    }
  }

  lemma LaterSlotOrdered(r: Ring, event: Event, r': Ring, eye: nat, k: nat)
    requires WellFormed(r) && Step(r, event, r') && WellFormed(r') && ValidEye(eye) && !event.Begin? && !event.Acquire?
    requires k < |r'.slots[eye]| && InUse(r'.slots[eye][k])
    ensures k < |r.slots[eye]| && InUse(r.slots[eye][k])
    ensures r'.slots[eye][k].expectedId == r.slots[eye][k].expectedId
    ensures r'.slots[eye][k].state == r.slots[eye][k].state || r'.slots[eye][k].state == Ready
    ensures r'.hasAcquired == r.hasAcquired && r'.lastAcquired == r.lastAcquired && r'.generation == r.generation
  {
  }

  lemma {:induction false} RunOrdered(rings: seq<Ring>, events: seq<Event>, k: nat)
    requires IsRun(rings, events) && OneAtATime(rings, events) && Increasing(events) && k <= |events|
    ensures WellFormed(rings[k]) && Ordered(rings[k])
  {
    hide Step, Inv, RowOrdered;
    RunInv(rings, events, k);
    if k == 0 {
      InitOrdered(rings[0]);
    } else {
      RunOrdered(rings, events, k - 1);
      RunInv(rings, events, k - 1);
      var r, event, r' := rings[k - 1], events[k - 1], rings[k];
      forall eye: nat | ValidEye(eye) ensures RowOrdered(r'.slots[eye], r'.hasAcquired, r'.lastAcquired) {
        match event
        case Begin(_, _, generation, granted) =>
          if Grants(event, eye) {
            GrantIsNewer(rings, events, k - 1, eye);
          }
          GrantOrdered(r, event, r', eye);
        case Acquire(pair) =>
          AcquireShape(r, pair, r');
          if pair.Some? { AcquireOrdered(r, pair.value.left.slot, pair.value.right.slot, eye); }
        case _ => LaterOrdered(r, event, r', eye);
      }
    }
  }

  lemma InitOrdered(r: Ring)
    requires exists capacity: nat :: Init(r, capacity)
    ensures WellFormed(r) && Ordered(r)
  {
  }

  lemma AcquireShape(r: Ring, pair: Option<Pair>, r': Ring)
    requires Inv(r) && Step(r, Acquire(pair), r')
    ensures pair == None ==> r' == r
    ensures pair.Some? ==>
      && Matching(r, pair.value.left.slot, pair.value.right.slot)
      && r' == Acquired(r, pair.value.left.slot, pair.value.right.slot)
      && pair.value.left.frame == r.slots[Left][pair.value.left.slot].frame
      && r'.lastAcquired == pair.value.left.frame.id && r'.hasAcquired && r'.generation == r.generation
      && pair.value.left.frame.generation == r.generation
      && pair.value.left.frame.id == r.slots[Left][pair.value.left.slot].expectedId
  {
  }

  lemma GrantIsNewer(rings: seq<Ring>, events: seq<Event>, k: nat, eye: nat)
    requires IsRun(rings, events) && OneAtATime(rings, events) && Increasing(events) && k < |events|
    requires ValidEye(eye) && Grants(events[k], eye)
    ensures NoneOpen(rings[k].slots[eye])
    ensures AllBelow(rings[k].slots[eye], events[k].id)
  {
    hide Inv;
    RunInv(rings, events, k);
    var r := rings[k];
    forall i | 0 <= i < |r.slots[eye]| && InUse(r.slots[eye][i]) ensures r.slots[eye][i].expectedId < events[k].id {
      InUseGeneration(r, eye, i);
      GrantGeneration(r, events[k], rings[k + 1]);
      hide Step;
      InUseWasGranted(rings, events, k, eye, i);
    }
  }

  lemma InUseGeneration(r: Ring, eye: nat, i: nat)
    requires Inv(r) && ValidEye(eye) && i < |r.slots[eye]| && InUse(r.slots[eye][i])
    ensures r.generation != 0
  {
  }

  lemma GrantGeneration(r: Ring, event: Event, r': Ring)
    requires WellFormed(r) && Step(r, event, r') && event.Begin? && event.granted.Some? && r.generation != 0
    ensures event.generation == r.generation
  {
  }

  // ---- the theorem

  predicate Earlier(a: Frame, b: Frame) {
    a.generation < b.generation || (a.generation == b.generation && a.id < b.id)
  }

  // The ring remembers at least the last pair acquired in its generation.
  predicate Passed(r: Ring, frame: Frame) {
    || frame.generation < r.generation
    || (frame.generation == r.generation && r.hasAcquired && frame.id <= r.lastAcquired)
  }

  lemma StaysPassed(r: Ring, event: Event, r': Ring, frame: Frame)
    requires Inv(r) && Step(r, event, r') && Passed(r, frame)
    requires event.Acquire? && event.pair.Some? && r.hasAcquired ==> r.lastAcquired < event.pair.value.left.frame.id
    ensures Passed(r', frame)
  {
  }

  // With disciplined producers a pair is acquired only when it is newer than the last one.
  lemma AcquiredIsNewer(rings: seq<Ring>, events: seq<Event>, k: nat, pair: Pair)
    requires IsRun(rings, events) && OneAtATime(rings, events) && Increasing(events)
    requires k < |events| && events[k] == Acquire(Some(pair))
    ensures rings[k].hasAcquired ==> rings[k].lastAcquired < pair.left.frame.id
    ensures Passed(rings[k + 1], pair.left.frame)
    ensures pair.left.frame.generation == rings[k].generation
  {
    hide Inv, Step;
    RunInv(rings, events, k);
    RunOrdered(rings, events, k);
    AcquireShape(rings[k], Some(pair), rings[k + 1]);
  }

  lemma {:induction false} PassedLater(rings: seq<Ring>, events: seq<Event>, j: nat, k: nat, pair: Pair)
    requires IsRun(rings, events) && OneAtATime(rings, events) && Increasing(events)
    requires j < k <= |events| && events[j] == Acquire(Some(pair))
    ensures Passed(rings[k], pair.left.frame)
  {
    hide Inv, Step, Ordered;
    if k == j + 1 {
      AcquiredIsNewer(rings, events, j, pair);
    } else {
      PassedLater(rings, events, j, k - 1, pair);
      RunInv(rings, events, k - 1);
      var event := events[k - 1];
      if event.Acquire? && event.pair.Some? {
        AcquiredIsNewer(rings, events, k - 1, event.pair.value);
      }
      StaysPassed(rings[k - 1], event, rings[k], pair.left.frame);
    }
  }

  // Acquired pairs come in strictly increasing order of generation and frame id.
  lemma AcquiredInOrder(rings: seq<Ring>, events: seq<Event>, j: nat, k: nat, first: Pair, second: Pair)
    requires IsRun(rings, events) && OneAtATime(rings, events) && Increasing(events)
    requires j < k < |events| && events[j] == Acquire(Some(first)) && events[k] == Acquire(Some(second))
    ensures Earlier(first.left.frame, second.left.frame)
  {
    hide Inv, Step, Ordered;
    PassedLater(rings, events, j, k, first);
    AcquiredIsNewer(rings, events, k, second);
  }
}
