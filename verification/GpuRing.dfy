// The ring decision of gpu_stream_contract.hpp and gpu_stream_producer.hpp: which slot a frame goes
// to, and when it may be overwritten. Frame values start at 1; 0 is no frame.
module GpuRing {
  import opened Words

  const SlotCount: nat := 3

  function SlotFor(sequence: u64): nat {
    if sequence == 0 then 0 else (sequence - 1) % SlotCount
  }

  predicate CanReuse(slotLastUse: u64, consumed: u64) { slotLastUse == 0 || consumed >= slotLastUse }

  predicate IsUsable(value: u64) { value != 0 && value != MaxU64 }

  predicate HasNewFrame(ready: u64, lastConsumed: u64) { IsUsable(ready) && ready > lastConsumed }

  datatype Decision = Produce(next: u64) | DropConsumerBusy | StopDeviceRemoved | StopFenceValueExhausted

  function DecideRingFrame(lastProduced: u64, slotLastUse: u64, consumed: u64): Decision {
    if consumed == MaxU64 then StopDeviceRemoved
    else if lastProduced >= MaxU64 - 1 then StopFenceValueExhausted
    else if !CanReuse(slotLastUse, consumed) then DropConsumerBusy
    else Produce(lastProduced + 1)
  }

  // The newest of the values 1..last that went to the slot, or 0.
  ghost function LatestIn(last: u64, slot: nat): u64 {
    if last == 0 then 0 else if SlotFor(last) == slot then last else LatestIn(last - 1, slot)
  }

  // The producer's book of slot uses, when values 1..last have been produced.
  ghost predicate UsesAre(last: u64, uses: seq<u64>) {
    |uses| == SlotCount && forall slot :: 0 <= slot < SlotCount ==> uses[slot] == LatestIn(last, slot)
  }

  lemma UsesNext(last: u64, uses: seq<u64>)
    requires UsesAre(last, uses) && last < MaxU64
    ensures UsesAre(last + 1, uses[SlotFor(last + 1) := last + 1])
  {
  }

  lemma ThreeApart(candidate: u64)
    requires candidate > 3
    ensures SlotFor(candidate - 3) == SlotFor(candidate)
    ensures SlotFor(candidate - 1) != SlotFor(candidate) && SlotFor(candidate - 2) != SlotFor(candidate)
  {
  }

  // A slot comes round every three values.
  lemma PreviousUse(candidate: u64)
    requires candidate > 0
    ensures LatestIn(candidate - 1, SlotFor(candidate)) == if candidate <= 3 then 0 else candidate - 3
  {
    var slot := SlotFor(candidate);
    if candidate > 3 {
      ThreeApart(candidate);
      assert LatestIn(candidate - 3, slot) == candidate - 3;
      assert LatestIn(candidate - 2, slot) == LatestIn(candidate - 3, slot);
    } else if candidate == 3 {
      assert LatestIn(2, 2) == LatestIn(1, 2) == LatestIn(0, 2);
    } else if candidate == 2 {
      assert LatestIn(1, 1) == LatestIn(0, 1);
    }
  }

  // Below the two limits, the decision is a sliding window of three frames over the consumed value.
  lemma DecisionIsWindow(last: u64, uses: seq<u64>, consumed: u64)
    requires UsesAre(last, uses) && last < MaxU64
    ensures var decision := DecideRingFrame(last, uses[SlotFor(last + 1)], consumed);
      && (decision.StopDeviceRemoved? <==> consumed == MaxU64)
      && (decision.StopFenceValueExhausted? <==> consumed != MaxU64 && last >= MaxU64 - 1)
      && (consumed != MaxU64 && last < MaxU64 - 1 ==>
            decision == if last + 1 <= consumed + 3 then Produce(last + 1) else DropConsumerBusy)
  {
    PreviousUse(last + 1);
  }

  // Inside the window every value still has its slot.
  lemma WindowKeepsSlots(consumed: u64, value: u64, last: u64)
    requires consumed < value <= last <= consumed + 3
    ensures LatestIn(last, SlotFor(value)) == value
  {
  }
}
