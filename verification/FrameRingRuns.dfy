// Whole runs of the frame ring: what holds of every sequence of calls, with stale leases and
// stale pairs passed back in at any point.
module FrameRingRuns {
  import opened Words
  import opened Wrappers
  import opened FrameRing
  import opened FrameRingProofs

  // rings[k] is the ring before event k.
  ghost predicate IsRun(rings: seq<Ring>, events: seq<Event>) {
    && |rings| == |events| + 1
    && (exists capacity: nat :: Init(rings[0], capacity))
    && forall k :: 0 <= k < |events| ==> WellFormed(rings[k]) && Step(rings[k], events[k], rings[k + 1])
  }

  lemma {:induction false} RunInv(rings: seq<Ring>, events: seq<Event>, k: nat)
    requires IsRun(rings, events) && k <= |events|
    ensures Inv(rings[k]) && WellFormed(rings[k])
    ensures k < |events| ==> Step(rings[k], events[k], rings[k + 1])
  {
    if k == 0 {
      var capacity: nat :| Init(rings[0], capacity);
      InitInv(rings[0], capacity);
    } else {
      RunInv(rings, events, k - 1);
      StepInv(rings[k - 1], events[k - 1], rings[k]);
    }
  }

  // Every lease handed out ends up published or cancelled or is still out; every published frame is
  // acquired, dropped or wiped or still ready; every acquired frame is retired or still held.
  lemma Conservation(rings: seq<Ring>, events: seq<Event>, k: nat)
    requires IsRun(rings, events) && k <= |events|
    ensures WellFormed(rings[k])
    ensures var r := rings[k];
      && r.granted == r.stats.published + r.stats.cancelled + Total(r, ProducerOwned)
      && r.stats.published == 2 * r.stats.acquiredPairs + r.stats.dropped + r.wiped + Total(r, Ready)
      && 2 * r.stats.acquiredPairs == r.stats.retired + Total(r, ConsumerOwned) + Total(r, ConsumerPending)
  {
    RunInv(rings, events, k);
  }

  // ---- the life of a lease

  function Rank(state: State): nat {
    match state
    case ProducerOwned => 1
    case Ready => 2
    case ConsumerOwned => 3
    case ConsumerPending => 4
    case Free => 5
  }

  ghost predicate Carried(r: Ring, lease: nat, state: State)
    requires WellFormed(r)
  {
    exists eye: nat, i: nat :: ValidEye(eye) && i < |r.slots[eye]|
      && r.slots[eye][i].lease == lease && r.slots[eye][i].state == state
  }

  // 0 before the lease is granted, 5 once its slot is free again.
  ghost function Stage(r: Ring, lease: nat): nat
    requires WellFormed(r)
  {
    if lease >= r.nextLease then 0
    else if Carried(r, lease, ProducerOwned) then 1
    else if Carried(r, lease, Ready) then 2
    else if Carried(r, lease, ConsumerOwned) then 3
    else if Carried(r, lease, ConsumerPending) then 4
    else 5
  }

  lemma StageOfSlot(r: Ring, eye: nat, i: nat)
    requires Inv(r) && ValidEye(eye) && i < |r.slots[eye]| && r.slots[eye][i].lease != 0
    ensures Stage(r, r.slots[eye][i].lease) == Rank(r.slots[eye][i].state)
  {
  }

  // As long as a slot carries the same lease, its state only moves forward.
  lemma SlotAdvances(r: Ring, event: Event, r': Ring, eye: nat, i: nat)
    requires Inv(r) && Step(r, event, r') && WellFormed(r')
    requires ValidEye(eye) && i < |r.slots[eye]| && i < |r'.slots[eye]|
    requires r'.slots[eye][i].lease == r.slots[eye][i].lease != 0
    ensures Rank(r.slots[eye][i].state) <= Rank(r'.slots[eye][i].state)
  {
    hide Usable, FormCompletePair, Count;
    assert SlotOk(r, eye, r.slots[eye][i]);
    match event
    case Begin(e, id, generation, granted) =>
      hide Picks, HasFree, HasStealable;
    case _ =>
  }

  lemma StageAdvances(r: Ring, event: Event, r': Ring, lease: nat)
    requires Inv(r) && Step(r, event, r') && Inv(r') && lease != 0
    ensures Stage(r, lease) <= Stage(r', lease)
  {
    hide Inv, Step, SlotsOk;
    InvShape(r);
    StepShape(r, event, r');
    if lease < r.nextLease && Stage(r', lease) < 5 {
      var eye: nat, i: nat :| ValidEye(eye) && i < |r'.slots[eye]|
        && r'.slots[eye][i].lease == lease && r'.slots[eye][i].state != Free;
      StepLease(r, event, r', eye, i);
      SlotAdvances(r, event, r', eye, i);
      StageOfSlot(r, eye, i);
      StageOfSlot(r', eye, i);
    }
  }

  lemma {:induction false} StageMonotonic(rings: seq<Ring>, events: seq<Event>, j: nat, k: nat, lease: nat)
    requires IsRun(rings, events) && j <= k <= |events| && lease != 0
    ensures WellFormed(rings[j]) && WellFormed(rings[k])
    ensures Stage(rings[j], lease) <= Stage(rings[k], lease)
  {
    hide Inv, Step, WellFormed, Stage;
    RunInv(rings, events, j);
    RunInv(rings, events, k);
    if j < k {
      RunInv(rings, events, k - 1);
      StageMonotonic(rings, events, j, k - 1, lease);
      StageAdvances(rings[k - 1], events[k - 1], rings[k], lease);
    }
  }

  // What an accepted call does to the life of the lease it names.
  predicate Moves(event: Event, lease: nat, stage: nat) {
    match event
    case Publish(l, _, accepted) => stage == 1 && accepted && l.id == lease
    case Cancel(l, accepted) => stage == 1 && accepted && l.id == lease
    case Acquire(pair) =>
      stage == 2 && pair.Some? && (pair.value.left.lease == lease || pair.value.right.lease == lease)
    case Release(held, _, accepted) =>
      stage == 3 && accepted && (held.left.lease == lease || held.right.lease == lease)
    case _ => false
  }

  lemma MoveAdvances(r: Ring, event: Event, r': Ring, lease: nat, stage: nat)
    requires Inv(r) && Step(r, event, r') && Inv(r') && Moves(event, lease, stage)
    ensures lease != 0 && Stage(r, lease) == stage < Stage(r', lease)
  {
    match event
    case Publish(l, frame, _) => MovedSlot(r, event, r', l.eye, l.slot);
    case Cancel(l, _) => MovedSlot(r, event, r', l.eye, l.slot);
    case Acquire(pair) =>
      if pair.value.left.lease == lease { MovedSlot(r, event, r', Left, pair.value.left.slot); }
      else { MovedSlot(r, event, r', Right, pair.value.right.slot); }
    case Release(held, _, _) =>
      if held.left.lease == lease { MovedSlot(r, event, r', Left, held.left.slot); }
      else { MovedSlot(r, event, r', Right, held.right.slot); }
    case _ =>
  }

  lemma MovedSlot(r: Ring, event: Event, r': Ring, eye: nat, i: nat)
    requires Inv(r) && Step(r, event, r') && Inv(r')
    requires ValidEye(eye) && i < |r.slots[eye]| && i < |r'.slots[eye]|
    requires r.slots[eye][i].state != Free && r'.slots[eye][i].lease == r.slots[eye][i].lease
    ensures r.slots[eye][i].lease != 0
    ensures Stage(r, r.slots[eye][i].lease) == Rank(r.slots[eye][i].state)
    ensures Stage(r', r.slots[eye][i].lease) == Rank(r'.slots[eye][i].state)
  {
    hide Step;
    assert SlotOk(r, eye, r.slots[eye][i]);
    StageOfSlot(r, eye, i);
    StageOfSlot(r', eye, i);
  }

  // A lease is published or cancelled at most once, acquired at most once and released at most
  // once, however often it is passed in.
  lemma EachLeaseMovesOnce(rings: seq<Ring>, events: seq<Event>, j: nat, k: nat, lease: nat, stage: nat)
    requires IsRun(rings, events) && j < |events| && k < |events|
    requires Moves(events[j], lease, stage) && Moves(events[k], lease, stage)
    ensures j == k
  {
    hide Inv, Step, WellFormed, Stage, Moves;
    var first, last := if j < k then j else k, if j < k then k else j;
    if first < last {
      RunInv(rings, events, first);
      RunInv(rings, events, first + 1);
      RunInv(rings, events, last);
      RunInv(rings, events, last + 1);
      MoveAdvances(rings[first], events[first], rings[first + 1], lease, stage);
      MoveAdvances(rings[last], events[last], rings[last + 1], lease, stage);
      StageMonotonic(rings, events, first + 1, last, lease);
    }
  }

  // ---- where an acquired frame comes from

  ghost predicate WasPublished(events: seq<Event>, k: nat, eye: nat, half: Half)
    requires k <= |events|
  {
    exists j :: 0 <= j < k && events[j] == Publish(Lease(eye, half.slot, half.lease), half.frame, true)
  }

  lemma ReadyIsNewOrKept(r: Ring, event: Event, r': Ring, eye: nat, i: nat)
    requires WellFormed(r) && Step(r, event, r') && WellFormed(r')
    requires ValidEye(eye) && i < |r.slots[eye]| && i < |r'.slots[eye]| && r'.slots[eye][i].state == Ready
    ensures r.slots[eye][i] == r'.slots[eye][i]
         || event == Publish(Lease(eye, i, r'.slots[eye][i].lease), r'.slots[eye][i].frame, true)
  {
  }

  lemma InitHasNoneReady(r: Ring, eye: nat, i: nat)
    requires exists capacity: nat :: Init(r, capacity)
    requires ValidEye(eye) && i < |r.slots[eye]|
    ensures r.slots[eye][i].state != Ready
  {
  }

  lemma {:induction false} ReadyWasPublished(rings: seq<Ring>, events: seq<Event>, k: nat, eye: nat, i: nat)
    requires IsRun(rings, events) && k <= |events| && WellFormed(rings[k])
    requires ValidEye(eye) && i < |rings[k].slots[eye]| && rings[k].slots[eye][i].state == Ready
    ensures WasPublished(events, k, eye, HalfAt(rings[k], eye, i))
  {
    hide Inv, Step;
    if k == 0 {
      InitHasNoneReady(rings[0], eye, i);
    } else {
      RunInv(rings, events, k - 1);
      var r, r' := rings[k - 1], rings[k];
      StepShape(r, events[k - 1], r');
      ReadyIsNewOrKept(r, events[k - 1], r', eye, i);
      if events[k - 1] == Publish(Lease(eye, i, r'.slots[eye][i].lease), r'.slots[eye][i].frame, true) {
        assert WasPublished(events, k, eye, HalfAt(r', eye, i));
      } else {
        ReadyWasPublished(rings, events, k - 1, eye, i);
        assert HalfAt(r', eye, i) == HalfAt(r, eye, i);
      }
    }
  }

  predicate NothingOlder(row: seq<Slot>, id: u64) {
    forall i :: 0 <= i < |row| && row[i].state == Ready ==> row[i].frame.id >= id
  }

  // Both halves of a pair are frames that were published, unchanged, for this eye under this lease;
  // they match, they belong to the current generation, and nothing older stays ready.
  lemma AcquiredPair(rings: seq<Ring>, events: seq<Event>, k: nat, pair: Pair)
    requires IsRun(rings, events) && k < |events| && events[k] == Acquire(Some(pair))
    ensures WasPublished(events, k, Left, pair.left) && WasPublished(events, k, Right, pair.right)
    ensures FormCompletePair(pair.left.frame, pair.right.frame)
    ensures WellFormed(rings[k + 1]) && pair.left.frame.generation == rings[k + 1].generation
    ensures forall eye: nat :: ValidEye(eye) ==> NothingOlder(rings[k + 1].slots[eye], pair.left.frame.id)
  {
    RunInv(rings, events, k);
    RunInv(rings, events, k + 1);
    ReadyWasPublished(rings, events, k, Left, pair.left.slot);
    ReadyWasPublished(rings, events, k, Right, pair.right.slot);
    var r, r' := rings[k], rings[k + 1];
    forall eye: nat | ValidEye(eye) ensures NothingOlder(r'.slots[eye], pair.left.frame.id) {
      forall i: nat | i < |r'.slots[eye]| && r'.slots[eye][i].state == Ready
        ensures r'.slots[eye][i].frame.id >= pair.left.frame.id
      {
        assert SlotOk(r, eye, r.slots[eye][i]);
      }
    }
  }

  // ---- retirement by fence

  ghost predicate Waiting(r: Ring, eye: nat, i: nat, fence: u64)
    requires WellFormed(r)
  {
    ValidEye(eye) && i < |r.slots[eye]| && r.slots[eye][i].state == ConsumerPending && r.slots[eye][i].consumerFence == fence
  }

  lemma StillWaiting(r: Ring, event: Event, r': Ring, eye: nat, i: nat, fence: u64)
    requires Inv(r) && Step(r, event, r') && WellFormed(r') && Waiting(r, eye, i, fence)
    ensures Waiting(r', eye, i, fence) || (event.Retire? && event.completed >= fence)
  {
    hide Usable, FormCompletePair, Count;
    assert SlotOk(r, eye, r.slots[eye][i]);
    if event.Reset? {
      assert Held(r.slots[eye][i]);
    }
  }

  lemma GrantedWasNotWaiting(r: Ring, event: Event, r': Ring, lease: Lease, fence: u64)
    requires WellFormed(r) && Step(r, event, r') && event.Begin? && event.granted == Some(lease)
    ensures ValidEye(lease.eye) && !Waiting(r, lease.eye, lease.slot, fence)
  {
  }

  lemma StartsWaiting(r: Ring, held: Pair, fence: u64, r': Ring, eye: nat)
    requires WellFormed(r) && Step(r, Release(held, fence, true), r') && WellFormed(r') && ValidEye(eye)
    ensures Waiting(r', eye, held.Of(eye).slot, fence)
  {
  }

  lemma {:induction false} StaysWaiting(
      rings: seq<Ring>, events: seq<Event>, j: nat, k: nat, held: Pair, fence: u64, eye: nat)
    requires IsRun(rings, events) && j < k <= |events| && events[j] == Release(held, fence, true) && ValidEye(eye)
    requires forall m :: j < m < k && events[m].Retire? ==> events[m].completed < fence
    ensures WellFormed(rings[k]) && Waiting(rings[k], eye, held.Of(eye).slot, fence)
  {
    hide Inv, Step, WellFormed, Waiting;
    RunInv(rings, events, k - 1);
    RunInv(rings, events, k);
    if k == j + 1 {
      StartsWaiting(rings[j], held, fence, rings[k], eye);
    } else {
      StaysWaiting(rings, events, j, k - 1, held, fence, eye);
      StillWaiting(rings[k - 1], events[k - 1], rings[k], eye, held.Of(eye).slot, fence);
    }
  }

  // A slot that was released with a fence is not granted again before a retirement reaches that
  // fence; in particular no reset frees it.
  lemma ReleasedSlotWaits(
      rings: seq<Ring>, events: seq<Event>, j: nat, k: nat, held: Pair, fence: u64, lease: Lease)
    requires IsRun(rings, events) && j < k < |events| && events[j] == Release(held, fence, true)
    requires events[k].Begin? && events[k].granted == Some(lease)
    requires lease.slot == held.Of(lease.eye).slot
    ensures exists m :: j < m < k && events[m].Retire? && events[m].completed >= fence
  {
    hide Inv, Step, WellFormed, Waiting;
    RunInv(rings, events, k);
    GrantedWasNotWaiting(rings[k], events[k], rings[k + 1], lease, fence);
    if forall m :: j < m < k && events[m].Retire? ==> events[m].completed < fence {
      StaysWaiting(rings, events, j, k, held, fence, lease.eye);
    }
  }
}
