// Which call of WaitConsumed is refused, by the history of calls on the stream. A stream that is
// complete and whose context is current refuses a call for its fence values only.
module GlBridgeCalls {
  import opened Words
  import opened Wrappers
  import opened GpuRing
  import opened GlMachine
  import opened GlBridge

  // The calls that succeeded. A wait is for the value last signalled in its slot, as both producers
  // wait; Rebind stands for a context replacement.
  datatype Call = Wait(slot: nat) | Signal(slot: nat, value: u64) | Rebind

  predicate Shaped(s: Native) { |s.slotReady| == |s.slotWaits| == SlotCount }

  predicate Accepted(s: Native, call: Call)
    requires Shaped(s)
  {
    match call
    case Wait(slot) =>
      slot < SlotCount && DecideSemaphoreOperation(true, true, s.slotReady[slot], s.slotWaits[slot]) == Ok
    case Signal(slot, value) =>
      && slot < SlotCount && DecideSemaphoreOperation(true, true, value, s.lastReady) == Ok
      && CanSignalSlot(s.slotReady[slot], s.slotWaits[slot])
    case Rebind => true
  }

  function AfterCall(s: Native, call: Call): (s': Native)
    requires Shaped(s) && Accepted(s, call)
    ensures Shaped(s')
  {
    match call
    case Wait(slot) => Waited(s, slot, s.slotReady[slot])
    case Signal(slot, value) => Signalled(s, slot, value)
    case Rebind => Forgotten(s)
  }

  // The books after the calls, or None if one of them would have been refused.
  function After(s: Native, calls: seq<Call>): (end: Option<Native>)
    requires Shaped(s)
    ensures end.Some? ==> Shaped(end.value)
  {
    if calls == [] then Some(s)
    else
      var before := After(s, calls[..|calls| - 1]);
      if before.Some? && Accepted(before.value, calls[|calls| - 1]) then
        Some(AfterCall(before.value, calls[|calls| - 1]))
      else None
  }

  predicate Signals(call: Call, slot: nat) { call.Signal? && call.slot == slot }

  // Something was signalled in the slot, and no wait for it came after both the last signal in it
  // and the last rebind.
  ghost predicate Reacquirable(calls: seq<Call>, slot: nat) {
    && (exists i :: 0 <= i < |calls| && Signals(calls[i], slot))
    && forall k :: 0 <= k < |calls| && calls[k] == Wait(slot) ==>
         exists m :: k < m < |calls| && (Signals(calls[m], slot) || calls[m] == Rebind)
  }

  lemma ReacquirableNext(calls: seq<Call>, call: Call, slot: nat)
    ensures Reacquirable(calls + [call], slot) <==>
      if call == Wait(slot) then false
      else if Signals(call, slot) then true
      else if call == Rebind then exists i :: 0 <= i < |calls| && Signals(calls[i], slot)
      else Reacquirable(calls, slot)
  {
    var all, n := calls + [call], |calls|;
    assert all[n] == call;
    assert forall i :: 0 <= i < n ==> all[i] == calls[i];
    if Reacquirable(all, slot) && call != Wait(slot) && !Signals(call, slot) && call != Rebind {
      forall k | 0 <= k < n && calls[k] == Wait(slot)
        ensures exists m :: k < m < n && (Signals(calls[m], slot) || calls[m] == Rebind)
      {
        var m :| k < m < |all| && (Signals(all[m], slot) || all[m] == Rebind);
        assert m != n;
      }
    }
    if Reacquirable(calls, slot) && call != Wait(slot) {
      forall k | 0 <= k < |all| && all[k] == Wait(slot)
        ensures exists m :: k < m < |all| && (Signals(all[m], slot) || all[m] == Rebind)
      {
        var m :| k < m < n && (Signals(calls[m], slot) || calls[m] == Rebind);
        assert all[m] == calls[m];
      }
    }
  }

  predicate NoHistory(s: Native) { s.slotReady == s.slotWaits == Zeros && s.lastReady == 0 }

  lemma {:induction false} BooksTell(s: Native, calls: seq<Call>, slot: nat)
    requires NoHistory(s) && After(s, calls).Some? && slot < SlotCount
    ensures var end := After(s, calls).value;
      && end.slotWaits[slot] <= end.slotReady[slot] <= end.lastReady < MaxU64
      && (end.slotReady[slot] != 0 <==> exists i :: 0 <= i < |calls| && Signals(calls[i], slot))
      && IsGreatest(calls, end.lastReady)
      && (end.slotWaits[slot] < end.slotReady[slot] <==> Reacquirable(calls, slot))
  {
    if calls != [] {
      var front, call := calls[..|calls| - 1], calls[|calls| - 1];
      assert calls == front + [call];
      BooksTell(s, front, slot);
      ReacquirableNext(front, call, slot);
      assert (exists i :: 0 <= i < |calls| && Signals(calls[i], slot)) <==>
        Signals(call, slot) || exists i :: 0 <= i < |front| && Signals(front[i], slot) by {
        assert forall i :: 0 <= i < |front| ==> calls[i] == front[i];
      }
      GreatestNext(front, call, After(s, front).value.lastReady, After(s, calls).value.lastReady);
    }
  }

  // The greatest value that was signalled, or 0.
  predicate IsGreatest(calls: seq<Call>, last: u64) {
    && (forall i :: 0 <= i < |calls| && calls[i].Signal? ==> calls[i].value <= last)
    && (last != 0 ==> exists i :: 0 <= i < |calls| && calls[i].Signal? && calls[i].value == last)
  }

  lemma GreatestNext(calls: seq<Call>, call: Call, was: u64, last: u64)
    requires IsGreatest(calls, was)
    requires if call.Signal? then was < call.value == last else last == was
    ensures IsGreatest(calls + [call], last)
  {
    var all := calls + [call];
    assert forall i :: 0 <= i < |calls| ==> all[i] == calls[i];
    assert all[|calls|] == call;
    if last != 0 && !call.Signal? {
      var i :| 0 <= i < |calls| && calls[i].Signal? && calls[i].value == was;
      assert all[i].Signal? && all[i].value == last;
    }
  }

  // After any calls on a new stream, the next wait for a slot is accepted exactly when a signal in
  // that slot, or a rebind behind one, came after its last wait.
  lemma NextWaitIsAcceptedIff(s: Native, calls: seq<Call>, slot: nat)
    requires NoHistory(s) && After(s, calls).Some? && slot < SlotCount
    ensures Accepted(After(s, calls).value, Wait(slot)) <==> Reacquirable(calls, slot)
  {
    BooksTell(s, calls, slot);
  }

  // And the next signal is accepted exactly when its value is greater than all before it and the slot
  // is not waiting to be reacquired.
  lemma NextSignalIsAcceptedIff(s: Native, calls: seq<Call>, slot: nat, value: u64)
    requires NoHistory(s) && After(s, calls).Some? && slot < SlotCount
    ensures Accepted(After(s, calls).value, Signal(slot, value)) <==>
      && 0 < value < MaxU64 && !Reacquirable(calls, slot)
      && forall i :: 0 <= i < |calls| && calls[i].Signal? ==> calls[i].value < value
  {
    hide Reacquirable, After;
    BooksTell(s, calls, slot);
  }

  // The stereo producer waits for a slot when it begins a pair, and may give the pair up. Whatever
  // it does with other slots before it comes back to this one, the next wait is refused.
  lemma GivenUpPairIsRefused(s: Native, calls: seq<Call>, slot: nat, others: seq<Call>)
    requires NoHistory(s) && slot < SlotCount && After(s, calls + [Wait(slot)] + others).Some?
    requires forall i :: 0 <= i < |others| ==> !Signals(others[i], slot) && others[i] != Rebind
    ensures !Accepted(After(s, calls + [Wait(slot)] + others).value, Wait(slot))
  {
    hide After, Accepted, Reacquirable;
    NextWaitIsAcceptedIff(s, calls + [Wait(slot)] + others, slot);
    NothingSince(calls, slot, others);
  }

  lemma NothingSince(calls: seq<Call>, slot: nat, others: seq<Call>)
    requires forall i :: 0 <= i < |others| ==> !Signals(others[i], slot) && others[i] != Rebind
    ensures !Reacquirable(calls + [Wait(slot)] + others, slot)
  {
    var all, k := calls + [Wait(slot)] + others, |calls|;
    assert all[k] == Wait(slot);
    forall m | k < m < |all| ensures !(Signals(all[m], slot) || all[m] == Rebind) {
      assert all[m] == others[m - k - 1];
    }
  }
}
