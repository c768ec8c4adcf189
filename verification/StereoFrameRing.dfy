// The frame ring as program text. Each method is one call, and performs the step of its name.
module StereoFrameRing {
  import opened Words
  import opened Division
  import opened Wrappers
  import opened FrameRing
  import opened FrameRingProofs

  // Every slot is reached going round from any start.
  lemma NoneFreeAround(row: seq<Slot>, start: nat)
    requires start < |row| && NoneFree(row, start, |row|)
    ensures !HasFree(row)
  {
    forall k | 0 <= k < |row| ensures row[k].state != Free {
      var offset := if k >= start then k - start else k + |row| - start;
      DivisionUnique(start + offset, |row|, if k >= start then 0 else 1, k);
      assert Around(row, start, offset) == k;
    }
  }

  lemma CountPrefix(row: seq<Slot>, i: nat, p: Slot -> bool)
    requires i < |row|
    ensures Count(row[..i + 1], p) == Count(row[..i], p) + if p(row[i]) then 1 else 0
  {
    assert row[..i + 1][..i] == row[..i];
  }

  class StereoFrameRing {
    const left: array<Slot>
    const right: array<Slot>
    var next: seq<nat>
    var nextLease: nat
    var generation: u64
    var lastAcquired: u64
    var hasAcquired: bool
    var stats: Stats
    ghost var granted: nat
    ghost var wiped: nat

    ghost function Abs(): Ring
      reads this, left, right
    {
      Ring([left[..], right[..]], next, nextLease, generation, lastAcquired, hasAcquired, stats, granted, wiped)
    }

    ghost predicate Valid()
      reads this, left, right
    {
      left != right && Inv(Abs())
    }

    function Row(eye: nat): array<Slot> { if eye == Left then left else right }

    constructor (capacity: nat)
      requires capacity > 0
      ensures Valid() && Init(Abs(), capacity)
    {
      left := new Slot[capacity](_ => NewSlot(Left));
      right := new Slot[capacity](_ => NewSlot(Right));
      next := [0, 0];
      nextLease, generation, lastAcquired, hasAcquired := 1, 0, 0, false;
      stats := Stats(0, 0, 0, 0, 0, 0);
      granted, wiped := 0, 0;
      new;
      assert left[..] == NewRow(Left, capacity) && right[..] == NewRow(Right, capacity);
      InitInv(Abs(), capacity);
    }

    method Store(eye: nat, i: nat, slot: Slot)
      requires left != right && ValidEye(eye) && i < Row(eye).Length
      modifies left, right
      ensures Abs() == Set(old(Abs()), eye, i, slot)
      ensures Row(eye)[..] == old(Row(eye)[..])[i := slot] && Row(1 - eye)[..] == old(Row(1 - eye)[..])
    {
      Row(eye)[i] := slot;
      assert Row(eye)[..] == old(Row(eye)[..])[i := slot];
      assert Abs().slots == Set(old(Abs()), eye, i, slot).slots;
    }

    method Reject()
      modifies this`stats
      ensures Abs() == Rejected(old(Abs()))
    {
      stats := stats.(rejected := stats.rejected + 1);
    }

    method FindFree(eye: nat) returns (found: Option<nat>)
      requires WellFormed(Abs()) && ValidEye(eye)
      ensures found.Some? ==> FirstFree(Abs().slots[eye], next[eye], found.value)
      ensures found.Some? <==> HasFree(Abs().slots[eye])
    {
      var slots, start := Row(eye), next[eye];
      ghost var row := Abs().slots[eye];
      var offset := 0;
      while offset < slots.Length
        invariant 0 <= offset <= slots.Length && NoneFree(row, start, offset)
      {
        var index := (start + offset) % slots.Length;
        assert index == Around(row, start, offset);
        if slots[index].state == Free {
          assert row[index].state == Free;
          return Some(index);
        }
        offset := offset + 1;
      }
      NoneFreeAround(row, start);
      return None;
    }

    method FindOldestReady(eye: nat) returns (found: Option<nat>)
      requires WellFormed(Abs()) && ValidEye(eye)
      ensures found.Some? ==> OldestReady(Abs().slots[eye], found.value)
      ensures found.Some? <==> HasStealable(Abs().slots[eye])
    {
      var slots := Row(eye);
      ghost var row := Abs().slots[eye];
      var oldest: u64 := MaxU64;
      found := None;
      var index := 0;
      while index < slots.Length
        invariant 0 <= index <= slots.Length
        invariant found.Some? ==> found.value < index && Stealable(row[found.value]) && row[found.value].frame.id == oldest
        invariant found == None ==> oldest == MaxU64
        invariant forall k :: 0 <= k < index && Stealable(row[k]) ==>
          found.Some? && (oldest < row[k].frame.id || (oldest == row[k].frame.id && found.value <= k))
      {
        if slots[index].state == Ready && slots[index].frame.id < oldest {
          oldest := slots[index].frame.id;
          found := Some(index);
        }
        index := index + 1;
      }
    }

    method BeginProduce(eye: nat, id: u64, newGeneration: u64) returns (lease: Option<Lease>)
      requires Valid()
      modifies this, left, right
      ensures Valid() && Step(old(Abs()), Begin(eye, id, newGeneration, lease), Abs())
    {
      hide Inv;
      ghost var was := Abs();
      InvShape(was);
      lease := TryBegin(eye, id, newGeneration);
      StepInv(was, Begin(eye, id, newGeneration, lease), Abs());
    }

    method TryBegin(eye: nat, id: u64, newGeneration: u64) returns (lease: Option<Lease>)
      requires left != right && WellFormed(Abs()) && SlotsOk(Abs())
      modifies this, left, right
      ensures BeginStep(old(Abs()), eye, id, newGeneration, lease, Abs())
    {
      hide FirstFree, OldestReady, HasFree, HasStealable, SlotsOk;
      if !ValidEye(eye) || id == 0 || newGeneration == 0 || (generation != 0 && newGeneration != generation) {
        Reject();
        return None;
      }
      if generation == 0 {
        generation := newGeneration;
      }
      if hasAcquired && id <= lastAcquired {
        Reject();
        return None;
      }
      var selected := FindFree(eye);
      if selected == None {
        selected := FindOldestReady(eye);
        if selected == None {
          Reject();
          return None;
        }
      }
      lease := Grant(eye, selected.value, id);
    }

    // Hand out the selected slot. A ready frame in it is dropped.
    method Grant(eye: nat, i: nat, id: u64) returns (lease: Option<Lease>)
      requires left != right && WellFormed(Abs()) && ValidEye(eye) && i < Row(eye).Length
      modifies this, left, right
      ensures Abs() == Granted(old(Abs()), eye, i, id)
      ensures lease == Some(Lease(eye, i, old(nextLease)))
    {
      if Row(eye)[i].state == Ready {
        stats := stats.(dropped := stats.dropped + 1);
      }
      Store(eye, i, Slot(ProducerOwned, Row(eye)[i].eye, nextLease, id, generation, 0, NoFrame(eye)));
      lease := Some(Lease(eye, i, nextLease));
      next := next[eye := (i + 1) % Row(eye).Length];
      nextLease := nextLease + 1;
      granted := granted + 1;
    }

    method FindSlot(lease: Lease) returns (found: bool)
      requires WellFormed(Abs())
      ensures found <==> ValidEye(lease.eye) && lease.slot < |Abs().slots[lease.eye]|
                         && Abs().slots[lease.eye][lease.slot].lease == lease.id
    {
      if !ValidEye(lease.eye) || lease.slot >= Row(lease.eye).Length {
        return false;
      }
      return Row(lease.eye)[lease.slot].lease == lease.id;
    }

    method Abandon(lease: Lease)
      requires left != right && WellFormed(Abs()) && Open(Abs(), lease)
      modifies this`stats, left, right
      ensures Abs() == Abandoned(old(Abs()), lease)
    {
      var slot := Row(lease.eye)[lease.slot];
      Store(lease.eye, lease.slot,
            slot.(state := Free, expectedId := 0, expectedGeneration := 0, consumerFence := 0, frame := NoFrame(slot.eye)));
      stats := stats.(cancelled := stats.cancelled + 1);
    }

    method PublishFrame(lease: Lease, frame: Frame) returns (accepted: bool)
      requires Valid()
      modifies this, left, right
      ensures Valid() && Step(old(Abs()), Publish(lease, frame, accepted), Abs())
    {
      hide Inv;
      ghost var was := Abs();
      InvShape(was);
      accepted := TryPublish(lease, frame);
      StepInv(was, Publish(lease, frame, accepted), Abs());
    }

    method TryPublish(lease: Lease, frame: Frame) returns (accepted: bool)
      requires left != right && WellFormed(Abs())
      modifies this, left, right
      ensures PublishStep(old(Abs()), lease, frame, accepted, Abs())
    {
      var found := FindSlot(lease);
      if !found || Row(lease.eye)[lease.slot].state != ProducerOwned {
        Reject();
        return false;
      }
      var slot := Row(lease.eye)[lease.slot];
      if !ValidEye(frame.eye)
        || frame.eye != lease.eye || frame.eye != slot.eye
        || frame.id != slot.expectedId || frame.generation != slot.expectedGeneration
        || frame.generation != generation
        || frame.displayTime <= 0
        || !frame.color.Valid()
        || frame.fenceHandle == 0 || frame.fenceValue == 0
        || (!frame.depth.Valid() && !frame.depth.Empty()) || (!frame.motion.Valid() && !frame.motion.Empty())
        || (frame.depth.Valid() && !frame.depth.SameExtent(frame.color))
        || (frame.motion.Valid() && !frame.motion.SameExtent(frame.color))
      {
        Abandon(lease);
        Reject();
        return false;
      }
      Store(lease.eye, lease.slot, slot.(frame := frame, state := Ready));
      stats := stats.(published := stats.published + 1);
      return true;
    }

    method CancelProduce(lease: Lease) returns (accepted: bool)
      requires Valid()
      modifies this, left, right
      ensures Valid() && Step(old(Abs()), Cancel(lease, accepted), Abs())
    {
      hide Inv;
      ghost var was := Abs();
      InvShape(was);
      accepted := FindSlot(lease);
      if !accepted || Row(lease.eye)[lease.slot].state != ProducerOwned {
        Reject();
        accepted := false;
      } else {
        Abandon(lease);
      }
      StepInv(was, Cancel(lease, accepted), Abs());
    }

    // The nested search: the newest of the pairs seen so far, which come in index order.
    method FindNewest() returns (found: Option<(nat, nat)>)
      requires WellFormed(Abs())
      ensures found.Some? ==> Newest(Abs(), found.value.0, found.value.1)
      ensures found == None ==> forall i: nat, j: nat :: !Matching(Abs(), i, j)
    {
      ghost var r := Abs();
      found := None;
      var i := 0;
      while i < left.Length
        invariant 0 <= i <= left.Length && BestSoFar(r, found, i, 0)
      {
        if left[i].state == Ready {
          var j := 0;
          while j < right.Length
            invariant 0 <= j <= right.Length && BestSoFar(r, found, i, j)
          {
            assert left[i] == r.slots[Left][i] && right[j] == r.slots[Right][j];
            if right[j].state == Ready && FormCompletePair(left[i].frame, right[j].frame)
              && left[i].frame.generation == generation
              && (found == None || left[i].frame.id > left[found.value.0].frame.id)
            {
              assert Matching(r, i, j);
              found := Some((i, j));
            }
            j := j + 1;
          }
        }
        i := i + 1;
      }
    }

    method AcquireLatestCompletePair() returns (pair: Option<Pair>)
      requires Valid()
      modifies this, left, right
      ensures Valid() && Step(old(Abs()), Acquire(pair), Abs())
    {
      hide Inv;
      ghost var was := Abs();
      InvShape(was);
      var found := FindNewest();
      if found == None {
        pair := None;
      } else {
        pair := Take(found.value.0, found.value.1);
      }
      StepInv(was, Acquire(pair), Abs());
    }

    method Take(i: nat, j: nat) returns (pair: Option<Pair>)
      requires left != right && WellFormed(Abs()) && Newest(Abs(), i, j)
      modifies this, left, right
      ensures AcquireStep(old(Abs()), pair, Abs())
    {
      hide FormCompletePair;
      ghost var was := Abs();
      var frame := left[i].frame;
      Store(Left, i, left[i].(state := ConsumerOwned));
      Store(Right, j, right[j].(state := ConsumerOwned));
      pair := Some(Pair(Half(left[i].frame, i, left[i].lease), Half(right[j].frame, j, right[j].lease)));
      lastAcquired := frame.id;
      hasAcquired := true;
      assert left[..] == Owned(was.slots[Left], i) && right[..] == Owned(was.slots[Right], j);
      Discard(left, frame.generation, frame.id);
      Discard(right, frame.generation, frame.id);
      stats := stats.(acquiredPairs := stats.acquiredPairs + 1);
      assert Abs().slots == Acquired(was, i, j).slots;
    }

    method Discard(row: array<Slot>, oldGeneration: u64, id: u64)
      modifies this`stats, row
      ensures row[..] == Discarded(old(row[..]), oldGeneration, id)
      ensures stats == old(stats).(dropped := old(stats).dropped + Count(old(row[..]), Older(oldGeneration, id)))
    {
      ghost var was, older := row[..], Older(oldGeneration, id);
      var i := 0;
      while i < row.Length
        invariant 0 <= i <= row.Length
        invariant forall k :: 0 <= k < row.Length ==>
          row[k] == if k < i && older(was[k]) then was[k].(state := Free) else was[k]
        invariant stats == old(stats).(dropped := old(stats).dropped + Count(was[..i], older))
      {
        CountPrefix(was, i, older);
        if row[i].state == Ready && OlderThan(row[i].frame, oldGeneration, id) {
          row[i] := row[i].(state := Free);
          stats := stats.(dropped := stats.dropped + 1);
        }
        i := i + 1;
      }
      assert was[..i] == was;
    }

    method OwnsHalf(eye: nat, half: Half) returns (owns: bool)
      requires WellFormed(Abs()) && ValidEye(eye)
      ensures owns <==> Owns(Abs(), eye, half)
    {
      if half.slot >= Row(eye).Length {
        return false;
      }
      var slot := Row(eye)[half.slot];
      return !(slot.state != ConsumerOwned || slot.eye != eye || slot.frame.eye != eye || slot.lease != half.lease
               || slot.frame.id != half.frame.id || slot.frame.generation != half.frame.generation);
    }

    method ReleasePair(held: Pair, fence: u64) returns (accepted: bool)
      requires Valid()
      modifies this, left, right
      ensures Valid() && Step(old(Abs()), Release(held, fence, accepted), Abs())
    {
      hide Inv;
      ghost var was := Abs();
      InvShape(was);
      var ownsLeft := OwnsHalf(Left, held.left);
      var ownsRight := OwnsHalf(Right, held.right);
      accepted := fence != 0 && ownsLeft && ownsRight;
      if !accepted {
        Reject();
      } else {
        var i, j := held.left.slot, held.right.slot;
        Store(Left, i, left[i].(consumerFence := fence, state := ConsumerPending));
        Store(Right, j, right[j].(consumerFence := fence, state := ConsumerPending));
        assert Abs().slots == [Pended(was.slots[Left], i, fence), Pended(was.slots[Right], j, fence)];
      }
      StepInv(was, Release(held, fence, accepted), Abs());
    }

    method RetireCompleted(completed: u64)
      requires Valid()
      modifies this, left, right
      ensures Valid() && Step(old(Abs()), Retire(completed), Abs())
    {
      hide Inv;
      ghost var was := Abs();
      RetireRow(left, completed);
      RetireRow(right, completed);
      InvShape(was);
      assert Abs().slots == Retired(was, completed).slots;
      StepInv(was, Retire(completed), Abs());
    }

    method RetireRow(row: array<Slot>, completed: u64)
      modifies this`stats, row
      ensures row[..] == RetiredRow(old(row[..]), completed)
      ensures stats == old(stats).(retired := old(stats).retired + Count(old(row[..]), Done(completed)))
    {
      ghost var was, done := row[..], Done(completed);
      var i := 0;
      while i < row.Length
        invariant 0 <= i <= row.Length
        invariant forall k :: 0 <= k < row.Length ==>
          row[k] == if k < i && done(was[k]) then was[k].(state := Free, consumerFence := 0) else was[k]
        invariant stats == old(stats).(retired := old(stats).retired + Count(was[..i], done))
      {
        CountPrefix(was, i, done);
        if row[i].state == ConsumerPending && row[i].consumerFence <= completed {
          row[i] := row[i].(state := Free, consumerFence := 0);
          stats := stats.(retired := stats.retired + 1);
        }
        i := i + 1;
      }
      assert was[..i] == was;
    }

    method FindHeld() returns (found: bool)
      requires WellFormed(Abs())
      ensures found <==> AnyHeld(Abs())
    {
      ghost var r := Abs();
      var eye: nat := Left;
      while eye <= Right
        invariant eye <= 2
        invariant forall e: nat, k: nat :: e < eye && k < |r.slots[e]| ==> !Held(r.slots[e][k])
      {
        var slots, i := Row(eye), 0;
        while i < slots.Length
          invariant 0 <= i <= slots.Length
          invariant forall k :: 0 <= k < i ==> !Held(r.slots[eye][k])
        {
          assert slots[i] == r.slots[eye][i];
          if slots[i].state == ProducerOwned || slots[i].state == ConsumerOwned || slots[i].state == ConsumerPending {
            return true;
          }
          i := i + 1;
        }
        eye := eye + 1;
      }
      return false;
    }

    method ResetStream(newGeneration: u64) returns (accepted: bool)
      requires Valid()
      modifies this, left, right
      ensures Valid() && Step(old(Abs()), Reset(newGeneration, accepted), Abs())
    {
      hide Inv;
      ghost var was := Abs();
      InvShape(was);
      var held := FindHeld();
      accepted := !(newGeneration == 0 || (generation != 0 && newGeneration <= generation)) && !held;
      if !accepted {
        Reject();
      } else {
        wiped := wiped + Total(was, Ready);
        generation := newGeneration;
        next := [0, 0];
        lastAcquired, hasAcquired := 0, false;
        Wipe(left, Left);
        Wipe(right, Right);
        assert Abs().slots == [NewRow(Left, left.Length), NewRow(Right, right.Length)];
      }
      StepInv(was, Reset(newGeneration, accepted), Abs());
    }

    method Wipe(row: array<Slot>, eye: nat)
      modifies row
      ensures row[..] == NewRow(eye, row.Length)
    {
      var i := 0;
      while i < row.Length
        invariant 0 <= i <= row.Length
        invariant forall k :: 0 <= k < i ==> row[k] == NewSlot(eye)
      {
        row[i] := NewSlot(eye);
        i := i + 1;
      }
    }
  }

  ghost predicate Before(i': nat, j': nat, i: nat, j: nat) { i' < i || (i' == i && j' < j) }

  // `found` is the newest of the matching pairs before (i, j) in index order.
  ghost predicate BestSoFar(r: Ring, found: Option<(nat, nat)>, i: nat, j: nat)
    requires WellFormed(r)
  {
    && (found.Some? ==> Matching(r, found.value.0, found.value.1) && Before(found.value.0, found.value.1, i, j))
    && forall i': nat, j': nat :: Matching(r, i', j') && Before(i', j', i, j) ==>
         found.Some? && (r.slots[Left][i'].frame.id < r.slots[Left][found.value.0].frame.id
                         || (r.slots[Left][i'].frame.id == r.slots[Left][found.value.0].frame.id
                             && !Before(i', j', found.value.0, found.value.1)))
  }
}
