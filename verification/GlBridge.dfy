// The bridge of gl_ext_d3d12_bridge.cpp: three shared textures and two fences, imported into the GL
// context that owns the stream. The D3D12 side of a stream is one token; what it holds is made and
// released together.
module GlBridge {
  import opened Words
  import opened Wrappers
  import opened GpuRing
  import opened GlMachine

  datatype Status =
    | Ok
    | NotInitialized
    | StreamAlreadyCreated
    | StreamNotCreated
    | InvalidFenceValue
    | NoCurrentGlContext
    | ContextMismatch
    | OpenGlRuntimeUnavailable
    | DriverUnusable          // missing entry point, failed probe, failed adapter query
    | TextureCreationFailure  // the allocation size, or making the D3D12 side
    | GlImportFailure         // creating or importing memory objects, textures, storage, semaphores
    | GlSemaphoreSignalFailure
    | GlSemaphoreWaitFailure
    | CleanupFailure
    | InvalidStreamSlot
    | StreamSlotNotConsumed
    | AdapterMismatch

  // An answer that blames the caller's order of calls rather than the driver or the device.
  predicate IsRefusal(status: Status) {
    || status == NotInitialized || status == StreamNotCreated || status == InvalidFenceValue
    || status == ContextMismatch || status == InvalidStreamSlot || status == StreamSlotNotConsumed
  }

  function DecideSemaphoreOperation(complete: bool, contextMatches: bool, value: u64, previous: u64): Status {
    if !complete then StreamNotCreated
    else if !contextMatches then ContextMismatch
    else if value == 0 || value <= previous || value == MaxU64 then InvalidFenceValue
    else Ok
  }

  predicate CanSignalSlot(slotLastReady: u64, slotLastConsumed: u64) {
    slotLastReady == 0 || slotLastConsumed >= slotLastReady
  }

  // `active` is 0, or the number of slots of the stream; `shared` is its D3D12 side.
  datatype Native = Native(
    ownerHandle: nat, adapter: nat, shared: Option<nat>, active: nat,
    memories: seq<nat>, textures: seq<nat>, readySemaphore: nat, consumedSemaphore: nat,
    slotReady: seq<u64>, slotWaits: seq<u64>, lastReady: u64, lastWait: u64)

  const None3: seq<nat> := [0, 0, 0]
  const Zeros: seq<u64> := [0, 0, 0]

  predicate IsValidSlot(slot: nat, active: nat) { 0 < active <= SlotCount && slot < active }

  predicate HasD3D12Stream(s: Native) { IsValidSlot(0, s.active) && s.shared.Some? }

  predicate HasCompleteStream(s: Native)
    requires |s.memories| == |s.textures| == SlotCount
  {
    && HasD3D12Stream(s) && s.readySemaphore != 0 && s.consumedSemaphore != 0
    && forall slot :: 0 <= slot < s.active ==> s.memories[slot] != 0 && s.textures[slot] != 0
  }

  // The first thing that is wrong decides the answer.
  lemma DecisionIff(complete: bool, contextMatches: bool, value: u64, previous: u64)
    ensures var decision := DecideSemaphoreOperation(complete, contextMatches, value, previous);
      && (decision == StreamNotCreated <==> !complete)
      && (decision == ContextMismatch <==> complete && !contextMatches)
      && (decision == InvalidFenceValue <==> complete && contextMatches && !(previous < value < MaxU64))
      && (decision == Ok <==> complete && contextMatches && previous < value < MaxU64)
  {
  }

  // Nothing is missing: not the D3D12 side, not a name of a slot in use, not a semaphore.
  lemma CompleteIff(s: Native)
    requires |s.memories| == |s.textures| == SlotCount
    ensures HasCompleteStream(s) <==>
      && s.shared.Some? && 1 <= s.active <= 3 && s.readySemaphore != 0 && s.consumedSemaphore != 0
      && s.memories[0] != 0 && s.textures[0] != 0
      && (s.active > 1 ==> s.memories[1] != 0 && s.textures[1] != 0)
      && (s.active > 2 ==> s.memories[2] != 0 && s.textures[2] != 0)
  {
  }

  predicate HasNoNames(s: Native) {
    s.memories == None3 && s.textures == None3 && s.readySemaphore == 0 && s.consumedSemaphore == 0
  }

  // The GL names the state holds, as names of one context.
  function Names(serial: nat, s: Native): set<Owned> {
    NamesOf(serial, Memory, s.memories) + NamesOf(serial, Texture, s.textures)
    + NamesOf(serial, Semaphore, [s.readySemaphore, s.consumedSemaphore])
  }

  predicate ShapeOk(s: Native) {
    && |s.memories| == |s.textures| == |s.slotReady| == |s.slotWaits| == SlotCount
    && Distinct(s.memories) && Distinct(s.textures) && Distinct([s.readySemaphore, s.consumedSemaphore])
    && s.active <= SlotCount && (s.active == 0 <==> s.shared == None)
    && (s.shared == None ==> HasNoNames(s) && s.slotReady == s.slotWaits == Zeros && s.lastReady == s.lastWait == 0)
  }

  // Everything about the stream that a lost context must not take with it.
  predicate SameStream(s: Native, s': Native) {
    && s'.shared == s.shared && s'.active == s.active && s'.adapter == s.adapter
    && s'.slotReady == s.slotReady && s'.lastReady == s.lastReady
  }

  lemma NoNamesOf(serial: nat, s: Native)
    requires HasNoNames(s)
    ensures Names(serial, s) == {}
  {
  }

  // The state after its context is gone: no names, no owner, and no slot reacquired.
  function Forgotten(s: Native): Native {
    s.(memories := None3, textures := None3, readySemaphore := 0, consumedSemaphore := 0,
       ownerHandle := 0, slotWaits := Zeros, lastWait := 0)
  }

  lemma KindsApart(serial: nat, s: Native)
    ensures NamesOf(serial, Texture, s.textures) !! NamesOf(serial, Memory, s.memories)
    ensures NamesOf(serial, Texture, s.textures) + NamesOf(serial, Memory, s.memories)
         !! NamesOf(serial, Semaphore, [s.readySemaphore, s.consumedSemaphore])
  {
  }

  lemma NextName(serial: nat, kind: Kind, numbers: seq<nat>, i: nat)
    requires i < |numbers| && Distinct(numbers)
    ensures NamesOf(serial, kind, numbers[..i + 1])
      == NamesOf(serial, kind, numbers[..i]) + NamesOf(serial, kind, [numbers[i]])
    ensures NamesOf(serial, kind, numbers[..i]) !! NamesOf(serial, kind, [numbers[i]])
    ensures numbers[i] == 0 ==> NamesOf(serial, kind, [numbers[i]]) == {}
  {
    assert numbers[..i + 1] == numbers[..i] + [numbers[i]];
  }

  lemma NoNames()
    ensures Distinct(None3) && Distinct([0, 0])
  {
  }

  class Bridge {
    const machine: Machine
    var state: Option<Native>
    ghost var owner: Context  // the context behind the owner's handle

    ghost predicate Valid() reads this, machine {
      && machine.Valid()
      && (state.Some? ==>
            && var s := state.value;
            && ShapeOk(s)
            && (s.ownerHandle == 0 ==> HasNoNames(s))
            && (s.ownerHandle != 0 ==> s.ownerHandle == owner.handle && owner.serial < machine.nextSerial
                                       && forall c <- machine.alive :: c.serial == owner.serial ==> c == owner)
            && (s.ownerHandle != 0 && owner in machine.alive ==> Names(owner.serial, s) <= machine.names))
    }

    // The owner's handle is current. Once the owner is gone this may be another context's handle.
    predicate ContextMatches()
      reads this, machine
    {
      state.Some? && state.value.ownerHandle != 0 && machine.Handle() == state.value.ownerHandle
    }

    predicate StreamCreated()
      reads this
      requires state.Some? ==> ShapeOk(state.value)
    {
      state.Some? && HasCompleteStream(state.value)
    }

    constructor (machine: Machine)
      requires machine.Valid()
      ensures Valid() && state == None && this.machine == machine
    {
      this.machine := machine;
      state := None;
      owner := Context(0, 0, 0);
    }

    // LoadGlFunctions and QueryGlAdapterLuid: the current context's adapter. A probe makes one memory object and one semaphore
    // and deletes them again.
    method ProbeDriver() returns (adapter: Option<nat>)
      requires machine.Valid() && machine.current.Some?
      modifies machine`names, machine`strays, machine`faults
      ensures machine.Valid() && machine.names == old(machine.names) && machine.strays == old(machine.strays)
      ensures machine.faults >= old(machine.faults) && (adapter == None ==> machine.faults > old(machine.faults))
      ensures adapter.Some? ==> adapter.value == machine.current.value.adapter
    {
      var missing := machine.Call();
      if missing {
        return None;
      }
      var memory, error := machine.CreateNames(Memory, 1);
      machine.DeleteNames(Memory, memory);
      if memory[0] == 0 || error {
        return None;
      }
      var semaphore, error' := machine.CreateNames(Semaphore, 1);
      machine.DeleteNames(Semaphore, semaphore);
      if semaphore[0] == 0 || error' {
        return None;
      }
      var failed := machine.Call();
      if failed {
        return None;
      }
      return Some(machine.current.value.adapter);
    }

    // ReleaseGlStream: every name of the state goes, in the current context.
    method ReleaseGlStream(s: Native) returns (s': Native)
      requires machine.Valid() && machine.current.Some? && ShapeOk(s)
      modifies machine`names, machine`strays
      ensures machine.Valid()
      ensures s' == s.(memories := None3, textures := None3, readySemaphore := 0, consumedSemaphore := 0)
      ensures Swept(old(machine.names), old(machine.strays), machine.names, machine.strays,
                    Names(machine.current.value.serial, s))
    {
      ghost var serial, names, strays := machine.current.value.serial, machine.names, machine.strays;
      var textures := DeleteAll(Texture, s.textures);
      ghost var names', strays' := machine.names, machine.strays;
      var memories := DeleteAll(Memory, s.memories);
      KindsApart(serial, s);
      SweptTwice(names, strays, names', strays', machine.names, machine.strays,
                 NamesOf(serial, Texture, s.textures), NamesOf(serial, Memory, s.memories));
      s' := s.(textures := textures, memories := memories);
      names', strays' := machine.names, machine.strays;
      machine.DeleteNames(Semaphore, [s.readySemaphore, s.consumedSemaphore]);
      s' := s'.(readySemaphore := 0, consumedSemaphore := 0);
      SweptTwice(names, strays, names', strays', machine.names, machine.strays,
                 NamesOf(serial, Texture, s.textures) + NamesOf(serial, Memory, s.memories),
                 NamesOf(serial, Semaphore, [s.readySemaphore, s.consumedSemaphore]));
    }

    // One name after the other, each set to 0.
    method DeleteAll(kind: Kind, numbers: seq<nat>) returns (zeros: seq<nat>)
      requires machine.Valid() && machine.current.Some? && |numbers| == SlotCount && Distinct(numbers)
      modifies machine`names, machine`strays
      ensures machine.Valid()
      ensures zeros == None3
      ensures Swept(old(machine.names), old(machine.strays), machine.names, machine.strays,
                    NamesOf(machine.current.value.serial, kind, numbers))
    {
      ghost var serial := machine.current.value.serial;
      zeros := numbers;
      var slot := 0;
      while slot < SlotCount
        invariant 0 <= slot <= SlotCount && |zeros| == SlotCount && machine.Valid()
        invariant forall i :: 0 <= i < SlotCount ==> zeros[i] == if i < slot then 0 else numbers[i]
        invariant Swept(old(machine.names), old(machine.strays), machine.names, machine.strays,
                        NamesOf(serial, kind, numbers[..slot]))
      {
        NextName(serial, kind, numbers, slot);
        if zeros[slot] != 0 {
          ghost var names, strays := machine.names, machine.strays;
          machine.DeleteNames(kind, [zeros[slot]]);
          SweptTwice(old(machine.names), old(machine.strays), names, strays, machine.names, machine.strays,
                     NamesOf(serial, kind, numbers[..slot]), NamesOf(serial, kind, [numbers[slot]]));
          zeros := zeros[slot := 0];
        }
        slot := slot + 1;
      }
      assert numbers[..SlotCount] == numbers;
    }

    // FailGlImport: only the names of this attempt are in the state, and they go.
    method FailGlImport(s: Native, ghost before: set<Owned>) returns (s': Native)
      requires machine.Valid() && machine.current.Some? && ShapeOk(s)
      requires Made(before, machine.names, machine.current.value.serial, s)
      modifies machine`names, machine`strays
      ensures s' == s.(memories := None3, textures := None3, readySemaphore := 0, consumedSemaphore := 0)
      ensures machine.Valid() && machine.names == before && machine.strays == old(machine.strays)
    {
      s' := ReleaseGlStream(s);
    }

    // ImportD3D12StreamIntoGl, for a state without GL names.
    method Import(s: Native) returns (status: Status, s': Native)
      requires machine.Valid() && machine.current.Some? && ShapeOk(s) && HasNoNames(s) && HasD3D12Stream(s)
      modifies machine`names, machine`strays, machine`faults
      ensures machine.Valid() && ShapeOk(s') && (status == Ok || status == TextureCreationFailure || status == GlImportFailure)
      ensures machine.faults >= old(machine.faults)
      ensures s' == s.(memories := s'.memories, textures := s'.textures,
                       readySemaphore := s'.readySemaphore, consumedSemaphore := s'.consumedSemaphore)
      ensures Made(old(machine.names), machine.names, machine.current.value.serial, s')
      ensures if status == Ok then HasCompleteStream(s')
              else s' == s && machine.names == old(machine.names) && machine.faults > old(machine.faults)
      ensures machine.strays == old(machine.strays)
    {
      hide Distinct, Names;
      ghost var serial, before := machine.current.value.serial, machine.names;
      s' := s;
      NoNamesOf(serial, s);
      var badSize := machine.Call();
      if badSize {
        return TextureCreationFailure, s;
      }
      var imported;
      imported, s' := ImportMemories(s', before);
      if imported {
        imported, s' := ImportTextures(s', before);
      }
      if imported {
        imported, s' := ImportSemaphores(s', before);
      }
      if !imported {
        s' := FailGlImport(s', before);
        NoNamesOf(serial, s');
        return GlImportFailure, s';
      }
      return Ok, s';
    }

    method ImportMemories(s: Native, ghost before: set<Owned>) returns (imported: bool, s': Native)
      requires machine.Valid() && machine.current.Some? && ShapeOk(s) && HasNoNames(s) && HasD3D12Stream(s)
      requires machine.names == before
      modifies machine`names, machine`faults
      ensures s' == s.(memories := s'.memories) && ShapeOk(s') && machine.faults >= old(machine.faults)
      ensures Made(before, machine.names, machine.current.value.serial, s')
      ensures if imported then AllNamed(s'.memories, s.active) else machine.faults > old(machine.faults)
      ensures machine.Valid()
    {
      var numbers, error := machine.CreateNames(Memory, s.active);
      s' := s.(memories := Padded(numbers));
      PaddedNames(machine.current.value.serial, Memory, numbers);
      if 0 in numbers || error {
        return false, s';
      }
      var slot := 0;
      while slot < s.active
        invariant 0 <= slot <= s.active && machine.faults >= old(machine.faults)
        invariant Made(before, machine.names, machine.current.value.serial, s') && machine.Valid()
      {
        error := machine.Call();
        if error {
          return false, s';
        }
        slot := slot + 1;
      }
      return true, s';
    }

    method ImportTextures(s: Native, ghost before: set<Owned>) returns (imported: bool, s': Native)
      requires machine.Valid() && machine.current.Some? && ShapeOk(s) && HasD3D12Stream(s)
      requires s.textures == None3 && s.readySemaphore == 0 && s.consumedSemaphore == 0
      requires Made(before, machine.names, machine.current.value.serial, s)
      modifies machine`names, machine`faults
      ensures s' == s.(textures := s'.textures) && ShapeOk(s') && machine.faults >= old(machine.faults)
      ensures Made(before, machine.names, machine.current.value.serial, s')
      ensures if imported then AllNamed(s'.textures, s.active) else machine.faults > old(machine.faults)
      ensures machine.Valid()
    {
      var numbers, error := machine.CreateNames(Texture, s.active);
      s' := s.(textures := Padded(numbers));
      PaddedNames(machine.current.value.serial, Texture, numbers);
      if 0 in numbers || error {
        return false, s';
      }
      var slot := 0;
      while slot < s.active
        invariant 0 <= slot <= s.active && machine.faults >= old(machine.faults)
        invariant Made(before, machine.names, machine.current.value.serial, s') && machine.Valid()
      {
        error := machine.Call();
        if error {
          return false, s';
        }
        slot := slot + 1;
      }
      error := machine.Call();  // the binding the game had is put back
      return !error, s';
    }

    method ImportSemaphores(s: Native, ghost before: set<Owned>) returns (imported: bool, s': Native)
      requires machine.Valid() && machine.current.Some? && ShapeOk(s) && HasD3D12Stream(s)
      requires s.readySemaphore == 0 && s.consumedSemaphore == 0
      requires Made(before, machine.names, machine.current.value.serial, s)
      modifies machine`names, machine`faults
      ensures s' == s.(readySemaphore := s'.readySemaphore, consumedSemaphore := s'.consumedSemaphore) && ShapeOk(s')
      ensures Made(before, machine.names, machine.current.value.serial, s') && machine.faults >= old(machine.faults)
      ensures if imported then s'.readySemaphore != 0 && s'.consumedSemaphore != 0
              else machine.faults > old(machine.faults)
      ensures machine.Valid()
    {
      var numbers, error := machine.CreateNames(Semaphore, 2);
      s' := s.(readySemaphore := numbers[0], consumedSemaphore := numbers[1]);
      assert numbers == [s'.readySemaphore, s'.consumedSemaphore];
      if s'.readySemaphore == 0 || s'.consumedSemaphore == 0 || error {
        assert error || 0 in numbers;
        return false, s';
      }
      error := machine.Call();
      return !error, s';
    }
  
    method Initialize() returns (status: Status)
      requires Valid()
      modifies this, machine`names, machine`strays, machine`faults
      ensures Valid() && machine.names == old(machine.names) && machine.faults >= old(machine.faults)
      ensures if status == Ok then
                old(state) == None && state.Some? && ContextMatches() && owner in machine.alive
                && Some(owner) == machine.current && state.value.shared == None && state.value.adapter == owner.adapter
              else state == old(state) && owner == old(owner)
      ensures machine.strays == old(machine.strays)
      ensures if old(state).Some? then status == StreamAlreadyCreated
              else if machine.current == None then status == NoCurrentGlContext
              else status == Ok || (status == DriverUnusable && machine.faults > old(machine.faults))
    {
      if state.Some? {
        return StreamAlreadyCreated;
      }
      if machine.current == None {
        return NoCurrentGlContext;
      }
      var adapter := ProbeDriver();
      var failed := machine.Call();  // the runtime's module, and a device on the same adapter
      if adapter == None || failed {
        return DriverUnusable;
      }
      owner := machine.current.value;
      state := Some(Native(machine.Handle(), adapter.value, None, 0, None3, None3, 0, 0, Zeros, Zeros, 0, 0));
      NoNamesOf(owner.serial, state.value);
      return Ok;
    }

    // CreateNamedStreams with three slots, CreateNamedStream with one. A failure leaves nothing.
    method CreateStream(count: nat) returns (status: Status)
      requires Valid()
      modifies this, machine`names, machine`strays, machine`faults, machine`ready, machine`consumed
      ensures Valid() && machine.faults >= old(machine.faults)
      ensures status == Ok ==>
        && StreamCreated() && Some(owner) == machine.current && state.value.active == count
        && old(state).Some? && old(state).value.shared == None
        && state.value.ownerHandle == old(state).value.ownerHandle && old(ContextMatches())
        && state.value.slotReady == state.value.slotWaits == Zeros && state.value.lastReady == 0
        && Made(old(machine.names), machine.names, owner.serial, state.value)
        && machine.ready == machine.consumed == 0
      ensures status != Ok ==> state == old(state) && owner == old(owner) && machine.names == old(machine.names)
      ensures machine.strays == old(machine.strays)
      ensures if old(state) == None then status == NotInitialized
              else if old(state).value.shared.Some? then status == StreamAlreadyCreated
              else if !old(ContextMatches()) then status == ContextMismatch
              else if count == 0 || count > 3 then status == InvalidStreamSlot
              else status == Ok || machine.faults > old(machine.faults)
    {
      hide NamesOf, Distinct;
      if state == None {
        return NotInitialized;
      }
      var s := state.value;
      if HasD3D12Stream(s) {
        return StreamAlreadyCreated;
      }
      if !ContextMatches() {
        return ContextMismatch;
      }
      if !IsValidSlot(0, count) {
        return InvalidStreamSlot;
      }
      status := MakeStream(count);
    }

    // The D3D12 side, and its import into the current context.
    method MakeStream(count: nat) returns (status: Status)
      requires Valid() && state.Some? && state.value.shared == None && ContextMatches() && IsValidSlot(0, count)
      modifies this, machine`names, machine`strays, machine`faults, machine`ready, machine`consumed
      ensures Valid() && machine.faults >= old(machine.faults) && machine.strays == old(machine.strays)
      ensures if status == Ok then
                && state.Some? && var s, s' := old(state).value, state.value;
                && HasCompleteStream(s') && Some(owner) == machine.current
                && s' == s.(shared := s'.shared, active := count, memories := s'.memories, textures := s'.textures,
                            readySemaphore := s'.readySemaphore, consumedSemaphore := s'.consumedSemaphore)
                && Made(old(machine.names), machine.names, owner.serial, s')
                && machine.ready == machine.consumed == 0
              else state == old(state) && owner == old(owner) && machine.names == old(machine.names)
      ensures status != Ok ==> machine.faults > old(machine.faults)
    {
      hide NamesOf, Distinct, Names;
      var failed := machine.Call();
      if failed {
        return TextureCreationFailure;
      }
      var shared: nat := *;
      machine.CreateFences();
      var made;
      status, made := Import(state.value.(shared := Some(shared), active := count));
      if status == Ok {
        owner := machine.current.value;
        state := Some(made);
      }
    }

    // After the owning context was destroyed: forget its names, and import the stream into the
    // context that is current now. The work is done on a copy, which replaces the state at the end.
    method RebindAfterContextReplacement() returns (status: Status)
      requires Valid()
      modifies this, machine`names, machine`strays, machine`faults
      ensures Valid() && machine.faults >= old(machine.faults)
      ensures old(state) == None ==> status == NotInitialized && state == None && machine.names == old(machine.names)
      ensures old(state).Some? ==>
        && state.Some? && SameStream(old(state).value, state.value)
        && state.value.slotWaits == Zeros && state.value.lastWait == 0
      ensures old(state).Some? && status == Ok ==>
        && StreamCreated() && ContextMatches() && Some(owner) == machine.current
        && Made(old(machine.names), machine.names, owner.serial, state.value)
      ensures old(state).Some? && status != Ok ==>
        && !StreamCreated() && HasNoNames(state.value) && state.value.ownerHandle == 0
        && machine.names == old(machine.names)
      ensures machine.strays == old(machine.strays)
      // It fails for the driver's sake, or because the current context is on another adapter.
      ensures old(state).Some? ==>
        if old(state).value.shared == None then status == StreamNotCreated
        else if machine.current == None then status == NoCurrentGlContext
        else if status == Ok then machine.current.value.adapter == old(state).value.adapter
        else if status == AdapterMismatch then machine.current.value.adapter != old(state).value.adapter
        else machine.faults > old(machine.faults)
    {
      if state == None {
        return NotInitialized;
      }
      state := Some(Forgotten(state.value));
      NoNames();
      if !HasD3D12Stream(state.value) {
        return StreamNotCreated;
      }
      if machine.current == None {
        return NoCurrentGlContext;
      }
      status := ImportIntoCurrent();
    }

    method ImportIntoCurrent() returns (status: Status)
      requires Valid() && state.Some? && HasNoNames(state.value) && state.value.ownerHandle == 0
      requires HasD3D12Stream(state.value) && machine.current.Some?
      modifies this, machine`names, machine`strays, machine`faults
      ensures Valid() && machine.faults >= old(machine.faults)
      ensures if status == Ok then
                && StreamCreated() && ContextMatches() && Some(owner) == machine.current
                && SameStream(old(state).value, state.value)
                && state.value.slotWaits == old(state).value.slotWaits && state.value.lastWait == old(state).value.lastWait
                && Made(old(machine.names), machine.names, owner.serial, state.value)
              else state == old(state) && machine.names == old(machine.names)
      ensures machine.strays == old(machine.strays)
      ensures if status == Ok then machine.current.value.adapter == state.value.adapter
              else if status == AdapterMismatch then machine.current.value.adapter != state.value.adapter
              else machine.faults > old(machine.faults)
    {
      hide Names, NamesOf, Distinct;
      var unloaded := machine.Call();
      if unloaded {
        return OpenGlRuntimeUnavailable;
      }
      var adapter := ProbeDriver();
      if adapter == None {
        return DriverUnusable;
      }
      if adapter.value != state.value.adapter {
        return AdapterMismatch;
      }
      var candidate := state.value.(ownerHandle := machine.Handle());
      status, candidate := Import(candidate);
      if status != Ok {
        return status;
      }
      owner := machine.current.value;
      state := Some(candidate);
      assert Names(owner.serial, candidate) <= machine.names;
      return Ok;
    }

    method SignalReady(slot: nat, value: u64) returns (status: Status)
      requires Valid()
      modifies this`state, machine`ready, machine`faults
      ensures Valid() && machine.faults >= old(machine.faults)
      ensures var before := old(state);
        if before == None then status == NotInitialized && state == None
        else if !IsValidSlot(slot, before.value.active) then status == InvalidStreamSlot && state == before
        else
          var s := before.value;
          var decision := DecideSemaphoreOperation(HasCompleteStream(s), old(ContextMatches()), value, s.lastReady);
          if decision != Ok then status == decision && state == before
          else if !CanSignalSlot(s.slotReady[slot], s.slotWaits[slot]) then
            status == StreamSlotNotConsumed && state == before
          else if status != Ok then
            status == GlSemaphoreSignalFailure && state == before && machine.faults > old(machine.faults)
          else
            state == Some(Signalled(s, slot, value)) && machine.ready == Later(old(machine.ready), value)
      ensures IsRefusal(status) ==> machine.ready == old(machine.ready)
    {
      if state == None {
        return NotInitialized;
      }
      var s := state.value;
      if !IsValidSlot(slot, s.active) {
        return InvalidStreamSlot;
      }
      var decision := DecideSemaphoreOperation(HasCompleteStream(s), ContextMatches(), value, s.lastReady);
      if decision != Ok {
        return decision;
      }
      if !CanSignalSlot(s.slotReady[slot], s.slotWaits[slot]) {
        return StreamSlotNotConsumed;
      }
      var error := machine.SignalFence(value);
      if error {
        return GlSemaphoreSignalFailure;
      }
      state := Some(s.(slotReady := s.slotReady[slot := value], lastReady := value));
      return Ok;
    }

    method WaitConsumed(slot: nat, value: u64) returns (status: Status)
      requires Valid()
      modifies this`state, machine`faults
      ensures Valid() && machine.faults >= old(machine.faults)
      ensures var before := old(state);
        if before == None then status == NotInitialized && state == None
        else if !IsValidSlot(slot, before.value.active) then status == InvalidStreamSlot && state == before
        else
          var s := before.value;
          var decision := DecideSemaphoreOperation(
            HasCompleteStream(s), old(ContextMatches()), value, s.slotWaits[slot]);
          if decision != Ok then status == decision && state == before
          else if value != s.slotReady[slot] then status == InvalidFenceValue && state == before
          else if status != Ok then
            && status == GlSemaphoreWaitFailure && state == before
            && (machine.consumed < value || machine.consumed == MaxU64 || machine.faults > old(machine.faults))
          else
            && value <= machine.consumed != MaxU64
            && state == Some(Waited(s, slot, value))
    {
      if state == None {
        return NotInitialized;
      }
      var s := state.value;
      if !IsValidSlot(slot, s.active) {
        return InvalidStreamSlot;
      }
      var decision := DecideSemaphoreOperation(HasCompleteStream(s), ContextMatches(), value, s.slotWaits[slot]);
      if decision != Ok {
        return decision;
      }
      if value != s.slotReady[slot] {
        return InvalidFenceValue;
      }
      var completed := machine.consumed;
      if completed < value || completed == MaxU64 {
        return GlSemaphoreWaitFailure;
      }
      var error := machine.Call();
      if error {
        return GlSemaphoreWaitFailure;
      }
      state := Some(s.(slotWaits := s.slotWaits[slot := value],
                       lastWait := Later(s.lastWait, value)));
      return Ok;
    }

    // The names ReleaseStream and Shutdown delete: the owner is known by its handle alone.
    ghost function NamesDeleted(): set<Owned>
      reads this, machine
    {
      if ContextMatches() then Names(machine.current.value.serial, state.value) else {}
    }

    // When the owner's handle is current, everything that goes under the stream's names goes with
    // it, and the stream is released. A name of another context is a stray.
    method ReleaseStream() returns (status: Status)
      requires Valid()
      modifies this`state, machine`names, machine`strays, machine`faults
      ensures Valid() && machine.faults >= old(machine.faults)
      ensures if old(state) == None then status == NotInitialized
              else if old(state).value.shared == None then status == Ok
              else if !old(ContextMatches()) then status == ContextMismatch
              else status == Ok || status == CleanupFailure
      ensures if old(state).Some? && old(state).value.shared.Some? && old(ContextMatches()) then
                && Swept(old(machine.names), old(machine.strays), machine.names, machine.strays, old(NamesDeleted()))
                && state == Some(Released(old(state).value))
              else state == old(state) && machine.names == old(machine.names) && machine.strays == old(machine.strays)
    {
      if state == None {
        return NotInitialized;
      }
      var s := state.value;
      if s.shared == None {
        return Ok;
      }
      if !ContextMatches() {
        return ContextMismatch;
      }
      s := ReleaseGlStream(s);
      var error := machine.Call();
      s := s.(shared := None, active := 0, slotReady := Zeros, slotWaits := Zeros, lastReady := 0, lastWait := 0);
      NoNamesOf(owner.serial, s);
      state := Some(s);
      return if error then CleanupFailure else Ok;
    }

    method Shutdown() returns (status: Status)
      requires Valid()
      modifies this`state, machine`names, machine`strays, machine`faults
      ensures Valid()
      ensures old(state) == None ==> status == Ok && state == None
      ensures old(state).Some? && !old(ContextMatches()) ==> status == ContextMismatch && state == old(state)
      ensures old(state).Some? && old(ContextMatches()) ==>
        if status == Ok then state == None else status == CleanupFailure && state == Some(Released(old(state).value))
      ensures Swept(old(machine.names), old(machine.strays), machine.names, machine.strays, old(NamesDeleted()))
      ensures machine.faults >= old(machine.faults)
    {
      if state == None {
        return Ok;
      }
      if !ContextMatches() {
        return ContextMismatch;
      }
      if state.value.shared == None {
        NoNamesOf(machine.current.value.serial, state.value);
      }
      status := ReleaseStream();
      if status == Ok {
        state := None;
      }
    }

    // What goes is the stream's own exactly when the owner's handle is not current, or the owner
    // itself lives: otherwise the owner has died without a rebind, and its handle has come back.
    lemma ReleaseIsSafeIff()
      requires Valid() && StreamCreated() && state.value.ownerHandle != 0
      ensures NamesDeleted() <= Names(owner.serial, state.value) <==> !ContextMatches() || owner in machine.alive
      ensures NamesDeleted() <= Names(owner.serial, state.value) && owner in machine.alive ==> NamesDeleted() <= machine.names
    {
      if ContextMatches() && owner !in machine.alive {
        var current, semaphores := machine.current.value, [state.value.readySemaphore, state.value.consumedSemaphore];
        assert state.value.readySemaphore in semaphores;
        assert Owned(current.serial, Semaphore, state.value.readySemaphore) in NamesDeleted();
        assert forall o <- Names(owner.serial, state.value) :: o.serial == owner.serial;
      }
    }

    // The owner dies, the game creates a context under the same handle and makes it current, and
    // before any rebind the bridge is shut down: names of the new context go.
    method ShutdownInRecycledContext() returns (ghost stray: Owned)
      requires Valid() && StreamCreated() && ContextMatches() && owner in machine.alive
      modifies this`state, machine
      ensures Valid() && owner !in machine.alive
      ensures stray.serial == old(machine.nextSerial) && stray in machine.strays
    {
      ghost var s := state.value;
      var dying := machine.current.value;
      machine.Destroy(dying);
      var recycled := machine.CreateContext(dying.handle, dying.adapter);
      machine.MakeCurrent(Some(recycled));
      stray := Owned(recycled.serial, Semaphore, s.readySemaphore);
      assert s.readySemaphore in [s.readySemaphore, s.consumedSemaphore];
      assert stray in Names(recycled.serial, s) && stray !in machine.names;
      var status := Shutdown();
    }
  }

  // The state once its stream is released.
  function Released(s: Native): Native {
    s.(memories := None3, textures := None3, readySemaphore := 0, consumedSemaphore := 0, shared := None, active := 0,
       slotReady := Zeros, slotWaits := Zeros, lastReady := 0, lastWait := 0)
  }

  // The names of the state are what has been made since `before`.
  predicate Made(before: set<Owned>, names: set<Owned>, serial: nat, s: Native) {
    names == before + Names(serial, s) && before !! Names(serial, s)
  }

  predicate AllNamed(numbers: seq<nat>, count: nat) {
    count <= |numbers| && forall i :: 0 <= i < count ==> numbers[i] != 0
  }

  function Padded(numbers: seq<nat>): seq<nat>
    requires |numbers| <= SlotCount
  {
    numbers + seq(SlotCount - |numbers|, _ => 0)
  }

  lemma PaddedNames(serial: nat, kind: Kind, numbers: seq<nat>)
    requires |numbers| <= SlotCount && Distinct(numbers)
    ensures |Padded(numbers)| == SlotCount && Distinct(Padded(numbers))
    ensures NamesOf(serial, kind, Padded(numbers)) == NamesOf(serial, kind, numbers)
  {
  }

  // The books WaitConsumed and SignalReady leave when they succeed.
  function Waited(s: Native, slot: nat, value: u64): Native
    requires slot < |s.slotWaits|
  {
    s.(slotWaits := s.slotWaits[slot := value], lastWait := Later(s.lastWait, value))
  }

  function Signalled(s: Native, slot: nat, value: u64): Native
    requires slot < |s.slotReady|
  {
    s.(slotReady := s.slotReady[slot := value], lastReady := value)
  }
}
