// What each call of the frame ring does, slot by slot and field by field.
module FrameRingCalls {
  import opened Words
  import opened Wrappers
  import opened FrameRing
  import opened FrameRingProofs
  import opened FrameRingRuns

  function Positions(row: seq<Slot>, p: Slot -> bool): set<nat> {
    set i: nat | i < |row| && p(row[i])
  }

  lemma {:induction false} CountIsSize(row: seq<Slot>, p: Slot -> bool)
    ensures Count(row, p) == |Positions(row, p)|
  {
    if row == [] {
      assert Positions(row, p) == {};
    } else {
      var front, n := row[..|row| - 1], |row| - 1;
      CountIsSize(front, p);
      assert Positions(row, p) == if p(row[n]) then Positions(front, p) + {n} else Positions(front, p);
    }
  }

  predicate IsSlot(r: Ring, eye: nat, i: nat) {
    && ValidEye(eye) && |r.slots| == 2 && i < |r.slots[eye]|
  }

  // All slots but this one are as before, and so are their numbers.
  ghost predicate OthersSame(r: Ring, r': Ring, eye: nat, i: nat) {
    && WellFormed(r) && WellFormed(r')
    && (forall e: nat :: ValidEye(e) ==> |r'.slots[e]| == |r.slots[e]|)
    && forall e: nat, k: nat :: IsSlot(r, e, k) && !(e == eye && k == i) ==> r'.slots[e][k] == r.slots[e][k]
  }

  // ---- retirement

  // Slots waiting for a fence value that has been reached.
  function Reached(row: seq<Slot>, completed: u64): set<nat> {
    set i: nat | i < |row| && row[i].state == ConsumerPending && row[i].consumerFence <= completed
  }

  lemma RetireMeans(r: Ring, completed: u64, r': Ring)
    requires WellFormed(r) && Step(r, Retire(completed), r')
    ensures WellFormed(r') && forall eye: nat :: ValidEye(eye) ==> |r'.slots[eye]| == |r.slots[eye]|
    ensures forall eye: nat, i: nat :: IsSlot(r, eye, i) ==>
      var slot, slot' := r.slots[eye][i], r'.slots[eye][i];
      if slot.state == ConsumerPending && slot.consumerFence <= completed then
        slot'.state == Free && slot' == slot.(state := Free, consumerFence := 0)
      else slot' == slot
    ensures forall eye: nat, i: nat :: IsSlot(r', eye, i) && r'.slots[eye][i].state == ConsumerPending ==>
      r'.slots[eye][i].consumerFence > completed
    ensures r'.stats == r.stats.(retired := r.stats.retired + |Reached(r.slots[Left], completed)|
                                                             + |Reached(r.slots[Right], completed)|)
    ensures r' == r.(slots := r'.slots, stats := r'.stats)
  {
    ReachedCount(r.slots[Left], completed);
    ReachedCount(r.slots[Right], completed);
  }

  lemma ReachedCount(row: seq<Slot>, completed: u64)
    ensures Count(row, Done(completed)) == |Reached(row, completed)|
  {
    CountIsSize(row, Done(completed));
    assert Positions(row, Done(completed)) == Reached(row, completed);
  }

  lemma FreedByRetire(r: Ring, completed: u64, r': Ring, eye: nat, i: nat, fence: u64)
    requires WellFormed(r) && Step(r, Retire(completed), r') && Waiting(r, eye, i, fence) && fence <= completed
    ensures IsSlot(r', eye, i) && r'.slots[eye][i].state == Free
  {
    RetireMeans(r, completed, r');
  }

  // Both slots of a released pair wait until the first retirement that reaches the pair's fence, and
  // that one frees them.
  lemma FirstRetireFreesPair(
      rings: seq<Ring>, events: seq<Event>, j: nat, k: nat, held: Pair, fence: u64, completed: u64, eye: nat)
    requires IsRun(rings, events) && j < k < |events| && events[j] == Release(held, fence, true) && ValidEye(eye)
    requires events[k] == Retire(completed) && completed >= fence
    requires forall m :: j < m < k && events[m].Retire? ==> events[m].completed < fence
    ensures IsSlot(rings[k], eye, held.Of(eye).slot) && IsSlot(rings[k + 1], eye, held.Of(eye).slot)
    ensures rings[k].slots[eye][held.Of(eye).slot].state == ConsumerPending
    ensures rings[k + 1].slots[eye][held.Of(eye).slot].state == Free
  {
    hide Step, Inv;
    StaysWaiting(rings, events, j, k, held, fence, eye);
    FreedByRetire(rings[k], completed, rings[k + 1], eye, held.Of(eye).slot, fence);
  }

  // ---- begin_produce

  // How far a slot is from the one where the search starts, going round.
  function Distance(n: nat, start: nat, i: nat): int { if i >= start then i - start else i + n - start }

  predicate BadArguments(r: Ring, eye: nat, id: u64, generation: u64) {
    || eye > 1 || id == 0 || generation == 0 || (r.generation != 0 && generation != r.generation)
  }

  ghost predicate NoRoom(r: Ring, eye: nat) {
    forall i: nat :: IsSlot(r, eye, i) ==>
      r.slots[eye][i].state != Free && !(r.slots[eye][i].state == Ready && r.slots[eye][i].frame.id < MaxU64)
  }

  // A lease is refused exactly for bad arguments, for a frame no later than the last acquired one,
  // or when every slot is held (or holds a frame of the greatest id); a refusal is counted and moves
  // no slot.
  lemma BeginRefusedIff(r: Ring, eye: nat, id: u64, generation: u64, granted: Option<Lease>, r': Ring)
    requires WellFormed(r) && Step(r, Begin(eye, id, generation, granted), r')
    ensures granted == None <==>
      || BadArguments(r, eye, id, generation) || (r.hasAcquired && id <= r.lastAcquired) || NoRoom(r, eye)
    ensures granted == None ==>
      && r'.generation == (if BadArguments(r, eye, id, generation) then r.generation else generation)
      && r' == r.(generation := r'.generation, stats := r.stats.(rejected := r.stats.rejected + 1))
  {
    if ValidEye(eye) {
      var row := r.slots[eye];
      assert forall i: nat :: i < |row| ==> IsSlot(r, eye, i);
      assert NoRoom(r, eye) <==> !(HasFree(row) || HasStealable(row));
    }
  }

  // The slot of a new lease: the first free one going round, or else the ready one with the oldest frame.
  ghost predicate RightSlot(r: Ring, eye: nat, i: nat) {
    && IsSlot(r, eye, i) && eye < |r.next|
    && if r.slots[eye][i].state == Free then
         forall k: nat :: IsSlot(r, eye, k) && r.slots[eye][k].state == Free ==>
           Distance(|r.slots[eye]|, r.next[eye], i) <= Distance(|r.slots[eye]|, r.next[eye], k)
       else
         && r.slots[eye][i].state == Ready
         && forall k: nat :: IsSlot(r, eye, k) ==>
              && r.slots[eye][k].state != Free
              && (r.slots[eye][k].state == Ready ==> r.slots[eye][i].frame.id <= r.slots[eye][k].frame.id)
  }

  // The slot is the producer's now, empty, and marked with the lease and the frame it was taken for.
  ghost predicate TakenFor(r: Ring, r': Ring, eye: nat, i: nat, id: u64, generation: u64) {
    && IsSlot(r, eye, i) && IsSlot(r', eye, i) && eye < |r.next|
    && var slot, slot' := r.slots[eye][i], r'.slots[eye][i];
    && slot'.state == ProducerOwned && slot'.eye == slot.eye && slot'.lease == r.nextLease && slot'.expectedId == id
    && slot'.expectedGeneration == generation == r'.generation && slot'.consumerFence == 0 && slot'.frame.id == 0
    && r'.stats == r.stats.(dropped := r.stats.dropped + if slot.state == Ready then 1 else 0)
    && r'.nextLease == r.nextLease + 1 && r'.lastAcquired == r.lastAcquired && r'.hasAcquired == r.hasAcquired
    && r'.next == r.next[eye := if i + 1 == |r.slots[eye]| then 0 else i + 1]
  }

  lemma BeginGrants(r: Ring, eye: nat, id: u64, generation: u64, lease: Lease, r': Ring)
    requires WellFormed(r) && Step(r, Begin(eye, id, generation, Some(lease)), r')
    ensures lease.eye == eye && lease.id == r.nextLease
    ensures TakenFor(r, r', eye, lease.slot, id, generation) && OthersSame(r, r', eye, lease.slot)
  {
    hide FirstFree, OldestReady, HasFree, HasStealable, TakenFor, OthersSame, Granted;
    PickedIsSlot(r.(generation := generation), eye, lease.slot);
    GrantedMeans(r, eye, lease.slot, id, generation);
  }

  lemma PickedIsSlot(r: Ring, eye: nat, i: nat)
    requires WellFormed(r) && ValidEye(eye) && Picks(r, eye, i)
    ensures IsSlot(r, eye, i)
  {
  }

  lemma GrantedMeans(r: Ring, eye: nat, i: nat, id: u64, generation: u64)
    requires WellFormed(r) && IsSlot(r, eye, i)
    ensures var r' := Granted(r.(generation := generation), eye, i, id);
      TakenFor(r, r', eye, i, id, generation) && OthersSame(r, r', eye, i)
  {
    NextRound(i, |r.slots[eye]|);
  }

  lemma NextRound(i: nat, n: nat)
    requires i < n
    ensures (i + 1) % n == if i + 1 == n then 0 else i + 1
  {
  }

  lemma BeginTakesRightSlot(r: Ring, eye: nat, id: u64, generation: u64, lease: Lease, r': Ring)
    requires WellFormed(r) && Step(r, Begin(eye, id, generation, Some(lease)), r')
    ensures RightSlot(r, eye, lease.slot)
  {
    hide FirstFree;
    var row, i, start := r.slots[eye], lease.slot, r.next[eye];
    if HasFree(row) {
      FirstIsNearest(row, start, i);
      FirstIsFree(row, start, i);
    }
  }

  lemma FirstIsFree(row: seq<Slot>, start: nat, i: nat)
    requires FirstFree(row, start, i)
    ensures i < |row| && row[i].state == Free
  {
  }

  lemma FirstIsNearest(row: seq<Slot>, start: nat, i: nat)
    requires start < |row| && FirstFree(row, start, i)
    ensures forall k :: 0 <= k < |row| && row[k].state == Free ==> Distance(|row|, start, i) <= Distance(|row|, start, k)
  {
    var n := |row|;
    var offset: nat :| Around(row, start, offset) == i && NoneFree(row, start, offset);
    forall k | 0 <= k < n && row[k].state == Free ensures Distance(n, start, i) <= Distance(n, start, k) {
      AroundDistance(row, start, k);
      AroundDistance(row, start, i);
      assert Distance(n, start, k) >= offset;
      AroundOnce(row, start, offset, i);
    }
  }

  lemma AroundDistance(row: seq<Slot>, start: nat, k: nat)
    requires start < |row| && k < |row|
    ensures 0 <= Distance(|row|, start, k) < |row| && Around(row, start, Distance(|row|, start, k)) == k
  {
  }

  lemma AroundOnce(row: seq<Slot>, start: nat, offset: nat, i: nat)
    requires start < |row| && offset < |row| && Around(row, start, offset) == i
    ensures Distance(|row|, start, i) == offset
  {
  }

  // ---- publish and cancel_produce

  predicate Complete(t: Texture) { t.handle != 0 && t.format != 0 && t.width != 0 && t.height != 0 }

  predicate Absent(t: Texture) { t.handle == 0 && t.format == 0 && t.width == 0 && t.height == 0 }

  predicate FitsColor(t: Texture, color: Texture) {
    Absent(t) || (Complete(t) && t.width == color.width && t.height == color.height)
  }

  // The slot is held by this lease.
  predicate LeaseHolds(r: Ring, lease: Lease) {
    && IsSlot(r, lease.eye, lease.slot)
    && r.slots[lease.eye][lease.slot].state == ProducerOwned && r.slots[lease.eye][lease.slot].lease == lease.id
  }

  predicate Presentable(frame: Frame) {
    && frame.displayTime > 0 && frame.fenceHandle != 0 && frame.fenceValue != 0
    && Complete(frame.color) && FitsColor(frame.depth, frame.color) && FitsColor(frame.motion, frame.color)
  }

  // Publishing succeeds exactly for the lease's own frame with everything a consumer needs. It costs
  // the lease when the frame is wrong, and nothing else when the lease is.
  lemma PublishMeans(r: Ring, lease: Lease, frame: Frame, accepted: bool, r': Ring)
    requires WellFormed(r) && SlotsOk(r) && Step(r, Publish(lease, frame, accepted), r')
    ensures accepted <==>
      && LeaseHolds(r, lease) && frame.eye == lease.eye && Presentable(frame)
      && frame.id == r.slots[lease.eye][lease.slot].expectedId && frame.generation == r.generation
    ensures LeaseHolds(r, lease) ==>
      && OthersSame(r, r', lease.eye, lease.slot)
      && var slot, slot' := r.slots[lease.eye][lease.slot], r'.slots[lease.eye][lease.slot];
         if accepted then
           && slot'.state == Ready && slot'.frame == frame && slot'.lease == lease.id
           && r'.stats == r.stats.(published := r.stats.published + 1)
         else
           && slot'.state == Free && slot'.frame.id == 0
           && r'.stats == r.stats.(cancelled := r.stats.cancelled + 1, rejected := r.stats.rejected + 1)
    ensures !LeaseHolds(r, lease) ==> r' == r.(stats := r.stats.(rejected := r.stats.rejected + 1))
    ensures r' == r.(slots := r'.slots, stats := r'.stats)
  {
    if LeaseHolds(r, lease) {
      assert SlotOk(r, lease.eye, r.slots[lease.eye][lease.slot]);
    }
  }

  lemma CancelMeans(r: Ring, lease: Lease, accepted: bool, r': Ring)
    requires WellFormed(r) && Step(r, Cancel(lease, accepted), r')
    ensures accepted <==> LeaseHolds(r, lease)
    ensures accepted ==>
      && OthersSame(r, r', lease.eye, lease.slot) && r'.slots[lease.eye][lease.slot].state == Free
      && r' == r.(slots := r'.slots, stats := r.stats.(cancelled := r.stats.cancelled + 1))
    ensures !accepted ==> r' == r.(stats := r.stats.(rejected := r.stats.rejected + 1))
  {
  }

  // ---- acquire_latest_complete_pair

  // Both textures are complete and alike, or neither is complete.
  predicate Alike(a: Texture, b: Texture) {
    if Complete(a) then Complete(b) && a.width == b.width && a.height == b.height && a.format == b.format
    else !Complete(b)
  }

  // Slots i and j hold one frame for both eyes.
  predicate IsPair(r: Ring, i: nat, j: nat) {
    && IsSlot(r, Left, i) && IsSlot(r, Right, j)
    && r.slots[Left][i].state == Ready && r.slots[Right][j].state == Ready
    && var a, b := r.slots[Left][i].frame, r.slots[Right][j].frame;
    && a.id == b.id && a.displayTime == b.displayTime
    && Alike(a.color, b.color) && Alike(a.depth, b.depth) && Alike(a.motion, b.motion)
  }

  lemma PairIff(r: Ring, i: nat, j: nat)
    requires WellFormed(r) && SlotsOk(r)
    ensures Matching(r, i, j) <==> IsPair(r, i, j)
  {
    if IsSlot(r, Left, i) && IsSlot(r, Right, j) {
      assert SlotOk(r, Left, r.slots[Left][i]) && SlotOk(r, Right, r.slots[Right][j]);
    }
  }

  predicate IsOlder(slot: Slot, id: u64) { slot.state == Ready && slot.frame.id < id }

  function Olds(row: seq<Slot>, id: u64): set<nat> { set i: nat | i < |row| && IsOlder(row[i], id) }

  // There is a pair to acquire exactly when two ready slots hold one frame, and none of a later one
  // is left out.
  lemma AcquireIff(r: Ring, pair: Option<Pair>, r': Ring)
    requires WellFormed(r) && SlotsOk(r) && Step(r, Acquire(pair), r')
    ensures pair == None ==> r' == r && forall i: nat, j: nat :: !IsPair(r, i, j)
    ensures pair.Some? ==>
      && IsPair(r, pair.value.left.slot, pair.value.right.slot)
      && forall i: nat, j: nat :: IsPair(r, i, j) ==> r.slots[Left][i].frame.id <= pair.value.left.frame.id
  {
    forall i: nat, j: nat ensures Matching(r, i, j) <==> IsPair(r, i, j) {
      PairIff(r, i, j);
    }
  }

  // The two slots go to the consumer with their frames, what is older than them becomes free and is
  // counted, and every other slot stays.
  lemma AcquireMeans(r: Ring, pair: Pair, r': Ring, eye: nat)
    requires WellFormed(r) && SlotsOk(r) && Step(r, Acquire(Some(pair)), r') && ValidEye(eye)
    ensures WellFormed(r') && |r'.slots[eye]| == |r.slots[eye]|
    ensures var i := pair.Of(eye).slot;
      && i < |r.slots[eye]| && pair.Of(eye) == Half(r.slots[eye][i].frame, i, r.slots[eye][i].lease)
      && r'.slots[eye][i] == r.slots[eye][i].(state := ConsumerOwned)
      && forall k: nat :: k < |r.slots[eye]| && k != i ==>
           r'.slots[eye][k] ==
             if IsOlder(r.slots[eye][k], pair.left.frame.id) then r.slots[eye][k].(state := Free) else r.slots[eye][k]
    ensures r'.hasAcquired && r'.lastAcquired == pair.left.frame.id == pair.right.frame.id
    ensures r'.stats == r.stats.(acquiredPairs := r.stats.acquiredPairs + 1,
                                 dropped := r.stats.dropped + |Olds(r.slots[Left], pair.left.frame.id)|
                                                            + |Olds(r.slots[Right], pair.left.frame.id)|)
    ensures r'.generation == r.generation && r'.next == r.next && r'.nextLease == r.nextLease
  {
    var i, j, id := pair.left.slot, pair.right.slot, pair.left.frame.id;
    OldCount(r, Left, i, id);
    OldCount(r, Right, j, id);
    forall k: nat | k < |r.slots[eye]| ensures IsOlder(r.slots[eye][k], id) == Older(r.generation, id)(r.slots[eye][k]) {
      assert SlotOk(r, eye, r.slots[eye][k]);
    }
  }

  lemma OldCount(r: Ring, eye: nat, i: nat, id: u64)
    requires WellFormed(r) && SlotsOk(r) && IsSlot(r, eye, i) && r.slots[eye][i].frame.id == id
    ensures Count(Owned(r.slots[eye], i), Older(r.generation, id)) == |Olds(r.slots[eye], id)|
  {
    var row, owned := r.slots[eye], Owned(r.slots[eye], i);
    CountIsSize(owned, Older(r.generation, id));
    forall k: nat | k < |row| ensures Older(r.generation, id)(owned[k]) <==> IsOlder(row[k], id) {
      assert SlotOk(r, eye, row[k]);
    }
    assert Positions(owned, Older(r.generation, id)) == Olds(row, id);
  }

  // What a consumer gets can be shown: over every run, both halves were published for one frame id
  // and one display time, with all they need.
  lemma AcquiredIsPresentable(rings: seq<Ring>, events: seq<Event>, k: nat, pair: Pair)
    requires IsRun(rings, events) && k < |events| && events[k] == Acquire(Some(pair))
    ensures pair.left.frame.eye == 0 && pair.right.frame.eye == 1
    ensures pair.left.frame.id == pair.right.frame.id != 0
    ensures pair.left.frame.displayTime == pair.right.frame.displayTime
    ensures pair.left.frame.generation == pair.right.frame.generation
    ensures Presentable(pair.left.frame) && Presentable(pair.right.frame)
    ensures Alike(pair.left.frame.color, pair.right.frame.color) && Alike(pair.left.frame.depth, pair.right.frame.depth)
    ensures Alike(pair.left.frame.motion, pair.right.frame.motion)
  {
    RunInv(rings, events, k);
    var r := rings[k];
    assert SlotOk(r, Left, r.slots[Left][pair.left.slot]) && SlotOk(r, Right, r.slots[Right][pair.right.slot]);
  }

  // ---- release_pair and reset

  // The slot is with the consumer, for this very half.
  predicate HalfHolds(r: Ring, eye: nat, half: Half) {
    && IsSlot(r, eye, half.slot)
    && var slot := r.slots[eye][half.slot];
    && slot.state == ConsumerOwned && slot.lease == half.lease
    && slot.frame.id == half.frame.id && slot.frame.generation == half.frame.generation
  }

  lemma ReleaseMeans(r: Ring, held: Pair, fence: u64, accepted: bool, r': Ring, eye: nat)
    requires WellFormed(r) && SlotsOk(r) && Step(r, Release(held, fence, accepted), r') && ValidEye(eye)
    ensures accepted <==> fence != 0 && HalfHolds(r, Left, held.left) && HalfHolds(r, Right, held.right)
    ensures !accepted ==> r' == r.(stats := r.stats.(rejected := r.stats.rejected + 1))
    ensures accepted ==>
      && WellFormed(r') && |r'.slots[eye]| == |r.slots[eye]| && r' == r.(slots := r'.slots)
      && var i := held.Of(eye).slot;
      && r'.slots[eye][i].state == ConsumerPending && r'.slots[eye][i].consumerFence == fence
      && r'.slots[eye][i] == r.slots[eye][i].(state := ConsumerPending, consumerFence := fence)
      && forall k: nat :: k < |r.slots[eye]| && k != i ==> r'.slots[eye][k] == r.slots[eye][k]
  {
    if IsSlot(r, Left, held.left.slot) && IsSlot(r, Right, held.right.slot) {
      assert SlotOk(r, Left, r.slots[Left][held.left.slot]) && SlotOk(r, Right, r.slots[Right][held.right.slot]);
    }
  }

  lemma ResetMeans(r: Ring, renewed: u64, accepted: bool, r': Ring)
    requires WellFormed(r) && Step(r, Reset(renewed, accepted), r')
    ensures accepted <==>
      && renewed != 0 && (r.generation == 0 || renewed > r.generation)
      && forall eye: nat, i: nat :: IsSlot(r, eye, i) ==> r.slots[eye][i].state == Free || r.slots[eye][i].state == Ready
    ensures !accepted ==> r' == r.(stats := r.stats.(rejected := r.stats.rejected + 1))
    ensures accepted ==>
      && WellFormed(r') && r'.generation == renewed && r'.next == [0, 0] && !r'.hasAcquired
      && r'.nextLease == r.nextLease && r'.stats == r.stats
      && (forall eye: nat :: ValidEye(eye) ==> |r'.slots[eye]| == |r.slots[eye]|)
      && (forall eye: nat, i: nat :: IsSlot(r', eye, i) ==> r'.slots[eye][i] == Slot(Free, eye, 0, 0, 0, 0, NoFrame(eye)))
  {
    hide Count;
    if accepted {
      forall eye: nat, i: nat | IsSlot(r', eye, i) ensures r'.slots[eye][i] == NewSlot(eye) {
        NewRowAt(eye, |r.slots[Left]|, i);
        assert r'.slots[eye] == NewRow(eye, |r.slots[Left]|);
      }
    }
  }

  lemma NewRowAt(eye: nat, n: nat, i: nat)
    ensures |NewRow(eye, n)| == n && (i < n ==> NewRow(eye, n)[i] == NewSlot(eye))
  {
  }
}
