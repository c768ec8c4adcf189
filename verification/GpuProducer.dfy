// The mono producer of gpu_stream_producer.cpp on top of the bridge. Both keep books on the same
// three slots; the producer's invariant says that the books agree.
module GpuProducer {
  import opened Words
  import opened Wrappers
  import opened GpuRing
  import opened GlMachine
  import opened GlBridge

  datatype Lifecycle = Dormant | Starting | Running | Failed

  // A slot's last wait is behind its last signal, unless it has had neither.
  predicate WaitsBehind(s: Native)
    requires |s.slotReady| == |s.slotWaits| == SlotCount
  {
    forall slot :: 0 <= slot < SlotCount ==> s.slotWaits[slot] < s.slotReady[slot] || s.slotWaits[slot] == s.slotReady[slot] == 0
  }

  class Producer {
    const machine: Machine
    const bridge: Bridge
    var lifecycle: Lifecycle
    var ownerHandle: nat
    var contextDeleted: bool
    var imported: bool    // the retry state of gl_context_recovery.hpp
    var nextAttempt: nat
    var outputFbo: nat
    var resolveFbo: nat
    var resolveTexture: nat
    var resolveSize: (nat, nat)
    var lastProduced: u64
    var slotLastUse: seq<u64>
    var droppedFrames: nat

    // The producer's and the bridge's books, and the consumer's place in them.
    ghost predicate BooksOk() reads this, bridge, machine {
      && bridge.state.Some?
      && var s := bridge.state.value;
      && |s.slotReady| == |s.slotWaits| == SlotCount && s.active == SlotCount && s.shared.Some?
      && UsesAre(lastProduced, slotLastUse) && lastProduced < MaxU64
      && slotLastUse == s.slotReady && lastProduced == s.lastReady == machine.ready
      && WaitsBehind(s)
      && (machine.consumed == MaxU64 || machine.consumed <= lastProduced <= machine.consumed + SlotCount)
    }

    // The stream is usable in a living context: the one it started in, or the one it was moved to.
    predicate Live() reads this { !contextDeleted || imported }

    ghost function OwnNames(): set<Owned> reads this, bridge {
      NamesOf(bridge.owner.serial, Framebuffer, [outputFbo, resolveFbo])
      + NamesOf(bridge.owner.serial, Texture, [resolveTexture])
    }

    ghost predicate ContextsOk() reads this, bridge, machine {
      && (bridge.state.Some? ==> ShapeOk(bridge.state.value))
      && if Live() then
           && bridge.StreamCreated() && bridge.owner in machine.alive
           && ownerHandle == bridge.state.value.ownerHandle == bridge.owner.handle
           && OwnNames() <= machine.names && Distinct([outputFbo, resolveFbo])
           && OwnNames() !! Names(bridge.owner.serial, bridge.state.value)
         else outputFbo == resolveFbo == resolveTexture == 0
    }

    ghost predicate Valid() reads this, bridge, machine {
      && bridge.machine == machine && bridge.Valid()
      && (lifecycle == Running ==> BooksOk() && ContextsOk())
    }

    constructor (machine: Machine)
      requires machine.Valid()
      ensures Valid() && lifecycle == Dormant && this.machine == machine && fresh(bridge) && bridge.state == None
      ensures lastProduced == 0 && slotLastUse == Zeros && outputFbo == resolveFbo == resolveTexture == 0
      ensures !contextDeleted
    {
      this.machine := machine;
      bridge := new Bridge(machine);
      lifecycle, ownerHandle, contextDeleted, imported, nextAttempt := Dormant, 0, false, false, 0;
      outputFbo, resolveFbo, resolveTexture, resolveSize := 0, 0, 0, (0, 0);
      lastProduced, slotLastUse, droppedFrames := 0, Zeros, 0;
    }

    method Start() returns (started: bool)
      requires Valid() && lifecycle == Dormant && bridge.state == None
      requires lastProduced == 0 && slotLastUse == Zeros && outputFbo == resolveFbo == resolveTexture == 0
      requires !contextDeleted
      modifies this, bridge, machine`names, machine`strays, machine`faults, machine`ready, machine`consumed
      ensures Valid() && (if started then lifecycle == Running else lifecycle == Failed)
      ensures !started ==> machine.names <= old(machine.names)
      ensures machine.strays == old(machine.strays)
      ensures machine.faults >= old(machine.faults)
      ensures !started ==> machine.current == None || machine.faults > old(machine.faults)
    {
      lifecycle := Failed;
      if machine.current == None {
        return false;
      }
      var missing := machine.Call();
      if missing {
        return false;
      }
      var streaming := StartBridge();
      if !streaming {
        return false;
      }
      started := StartOutput();
    }

    // A stream with nothing in it, in the current context.
    ghost predicate Streaming() reads this, bridge, machine {
      && bridge.machine == machine && bridge.Valid()
      && bridge.StreamCreated() && bridge.ContextMatches() && bridge.owner in machine.alive
      && var s := bridge.state.value;
      && s.active == SlotCount && s.slotReady == s.slotWaits == Zeros && s.lastReady == 0
      && machine.ready == machine.consumed == 0
    }

    method StartBridge() returns (streaming: bool)
      requires Valid() && lifecycle == Failed && bridge.state == None && machine.current.Some?
      modifies bridge, machine`names, machine`strays, machine`faults, machine`ready, machine`consumed
      ensures bridge.Valid()
      ensures !streaming ==> machine.names <= old(machine.names)
      ensures streaming ==> Streaming() && Made(old(machine.names), machine.names, bridge.owner.serial, bridge.state.value)
      ensures machine.strays == old(machine.strays)
      ensures machine.faults >= old(machine.faults) && (!streaming ==> machine.faults > old(machine.faults))
    {
      var status := bridge.Initialize();
      if status != Ok {
        return false;
      }
      NoNamesOf(bridge.owner.serial, bridge.state.value);
      status := bridge.CreateStream(SlotCount);
      if status != Ok {
        var cleanup := bridge.Shutdown();
        return false;
      }
      return true;
    }

    method StartOutput() returns (started: bool)
      requires Streaming() && lifecycle == Failed
      requires lastProduced == 0 && slotLastUse == Zeros && outputFbo == resolveFbo == resolveTexture == 0
      requires !contextDeleted
      modifies this, bridge, machine`names, machine`strays, machine`faults
      ensures Valid() && (if started then lifecycle == Running else lifecycle == Failed)
      ensures !started ==> machine.names == old(machine.names) - old(Names(bridge.owner.serial, bridge.state.value))
      ensures machine.strays == old(machine.strays)
      ensures machine.faults >= old(machine.faults) && (!started ==> machine.faults > old(machine.faults))
    {
      hide Names, NamesOf, UsesAre;
      ghost var streamed, serial := machine.names, bridge.owner.serial;
      var numbers, error := machine.CreateNames(Framebuffer, 1);
      if numbers[0] == 0 || error {
        machine.DeleteNames(Framebuffer, numbers);
        assert machine.names == streamed;
        var cleanup := bridge.Shutdown();
        return false;
      }
      outputFbo := numbers[0];
      ownerHandle := machine.Handle();
      lifecycle := Running;
      NewFbo(serial, numbers);
      NoUses();
      return true;
    }
  
    // The owner's books and the bridge's stream, through the loss of a context.
    twostate predicate SameBooks() reads this, bridge {
      && lastProduced == old(lastProduced) && slotLastUse == old(slotLastUse) && lifecycle == old(lifecycle)
      && (old(bridge.state).Some? ==> bridge.state.Some? && SameStream(old(bridge.state).value, bridge.state.value))
    }

    // The game destroys a context on the render thread, and the hook reports it.
    method DeleteContext(c: Context)
      requires Valid() && c in machine.alive
      modifies this, machine`current, machine`alive, machine`names
      ensures Valid() && SameBooks() && bridge.state == old(bridge.state)
      ensures machine.alive == old(machine.alive) - {c}
      ensures lifecycle == Running && old(Live()) && c == bridge.owner ==> !Live()
    {
      hide Names, NamesOf, UsesAre, ShapeOk, HasCompleteStream;
      NamesBelong(bridge.owner.serial, bridge.state, outputFbo, resolveFbo, resolveTexture);
      machine.Destroy(c);
      NotifyContextDeleted(c.handle);
    }

    // Forget the producer's own names. Anything but the loss of the owner leaves a live stream alone.
    method NotifyContextDeleted(handle: nat)
      requires bridge.machine == machine && bridge.Valid() && (lifecycle == Running ==> BooksOk())
      requires lifecycle == Running && ownerHandle != handle ==> ContextsOk()
      modifies this
      ensures Valid() && SameBooks() && bridge.state == old(bridge.state)
      ensures if ownerHandle == handle then
                contextDeleted && !imported && nextAttempt == 0 && outputFbo == resolveFbo == resolveTexture == 0
              else contextDeleted == old(contextDeleted) && imported == old(imported)
    {
      if ownerHandle != handle {
        return;
      }
      contextDeleted := true;
      imported, nextAttempt := false, 0;
      outputFbo, resolveFbo, resolveTexture := 0, 0, 0;
      resolveSize := (0, 0);
    }

    method BeginAttempt(now: nat) returns (begun: bool)
      requires bridge.state.Some? ==> ShapeOk(bridge.state.value)
      modifies this`nextAttempt
      ensures begun <==> old(nextAttempt) <= now && (imported ==> bridge.ContextMatches())
      ensures nextAttempt == if begun then now + 1000 else old(nextAttempt)
    {
      if now < nextAttempt || (imported && !bridge.ContextMatches()) {
        return false;
      }
      nextAttempt := now + 1000;
      return true;
    }

    // An attempt is made now.
    predicate Trying(now: nat) reads this, bridge, bridge.machine, machine {
      && lifecycle == Running && contextDeleted && machine.current.Some? && nextAttempt <= now
      && (imported ==> bridge.ContextMatches())
    }

    // And the stream may live in the current context.
    predicate MayRecover(now: nat) reads this, bridge, bridge.machine, machine {
      && Trying(now)
      && (imported || (bridge.state.Some? && machine.current.value.adapter == bridge.state.value.adapter))
    }

    // Nothing that a recovery touches has changed.
    twostate predicate Unrecovered() reads this, bridge, machine {
      && contextDeleted == old(contextDeleted) && imported == old(imported) && nextAttempt == old(nextAttempt)
      && bridge.state == old(bridge.state) && machine.names == old(machine.names)
    }

    // Move the stream to the context that is current. Only what one attempt made is ever deleted,
    // and the frame history survives every attempt.
    method RecoverContext(now: nat)
      requires Valid()
      modifies this, bridge, machine`names, machine`strays, machine`faults
      ensures Valid() && SameBooks()
      ensures !imported ==> machine.names == old(machine.names)
      ensures old(contextDeleted) && !contextDeleted ==> lifecycle == Running && bridge.ContextMatches()
      ensures machine.strays == old(machine.strays)
      ensures machine.faults >= old(machine.faults)
      // An attempt that may be made, on the stream's adapter, fails for the driver's sake only.
      ensures old(MayRecover(now)) ==> !contextDeleted || machine.faults > old(machine.faults)
      ensures old(MayRecover(now)) ==> nextAttempt == now + 1000
      ensures old(contextDeleted) && !contextDeleted ==> old(MayRecover(now)) && Some(bridge.owner) == machine.current
      ensures !old(Trying(now)) ==> Unrecovered()
    {
      if lifecycle != Running || !contextDeleted || machine.current == None {
        return;
      }
      var begun := BeginAttempt(now);
      if !begun {
        return;
      }
      if !imported {
        Reimport();
      }
      if !imported {
        return;
      }
      RecoverOutput();
    }
  
    method Reimport()
      requires Valid() && lifecycle == Running && contextDeleted && !imported && machine.current.Some?
      modifies this`imported, this`ownerHandle, bridge, machine`names, machine`strays, machine`faults
      ensures Valid() && SameBooks()
      ensures imported ==> bridge.ContextMatches()
      ensures !imported ==> machine.names == old(machine.names) && (bridge.state != old(bridge.state) ==> !bridge.StreamCreated())
      ensures machine.strays == old(machine.strays)
      ensures machine.faults >= old(machine.faults)
      ensures if imported then
                Some(bridge.owner) == machine.current && machine.current.value.adapter == old(bridge.state).value.adapter
              else
                machine.faults > old(machine.faults) || machine.current.value.adapter != old(bridge.state).value.adapter
    {
      hide Names, NamesOf, UsesAre;
      var missing := machine.Call();
      if missing {
        return;
      }
      var status := bridge.RebindAfterContextReplacement();
      if status == Ok {
        imported := true;
        ownerHandle := machine.Handle();
        NoOwnNames(bridge.owner.serial);
      }
    }

    method RecoverOutput()
      requires Valid() && lifecycle == Running && contextDeleted && imported && bridge.ContextMatches()
      modifies this`outputFbo, this`contextDeleted, machine`names, machine`faults
      ensures Valid() && SameBooks() && bridge.ContextMatches()
      ensures !contextDeleted ==> outputFbo != 0
      ensures machine.faults >= old(machine.faults) && (contextDeleted ==> machine.faults > old(machine.faults))
    {
      hide Names, NamesOf, Distinct, ShapeOk, HasCompleteStream, UsesAre, WaitsBehind;
      var error := machine.Call();
      if outputFbo == 0 {
        var failed := MakeOutputFbo();
        error := error || failed;
      }
      if outputFbo == 0 || error {
        return;
      }
      contextDeleted := false;
    }

    method MakeOutputFbo() returns (error: bool)
      requires bridge.machine == machine && bridge.Valid() && ContextsOk() && Live() && bridge.ContextMatches()
      requires outputFbo == 0
      modifies this`outputFbo, machine`names, machine`faults
      ensures bridge.Valid() && ContextsOk() && machine.faults >= old(machine.faults)
      ensures outputFbo == 0 || error ==> machine.faults > old(machine.faults)
    {
      hide Names, NamesOf, Distinct, ShapeOk, HasCompleteStream;
      ghost var before := machine.names;
      var numbers;
      numbers, error := machine.CreateNames(Framebuffer, 1);
      AddFbo(before, bridge.owner.serial, bridge.state.value, numbers, resolveFbo, resolveTexture);
      outputFbo := numbers[0];
    }

    // The producer may draw: it runs, and the owner of its stream is current.
    ghost predicate Drawing() reads this, bridge, machine {
      && bridge.machine == machine && bridge.Valid() && ContextsOk()
      && lifecycle == Running && !contextDeleted && bridge.ContextMatches()
    }

    method DropResolveTarget()
      requires Drawing()
      modifies this`resolveFbo, this`resolveTexture, this`resolveSize, machine`names, machine`strays
      ensures Drawing() && resolveFbo == resolveTexture == 0
      ensures machine.strays == old(machine.strays)
    {
      DropResolveFbo();
      DropResolveTexture();
      resolveSize := (0, 0);
    }

    method DropResolveFbo()
      requires Drawing()
      modifies this`resolveFbo, machine`names, machine`strays
      ensures Drawing() && resolveFbo == 0 && machine.strays == old(machine.strays)
    {
      hide Names, NamesOf, Distinct, ShapeOk, HasCompleteStream;
      WithoutFbo(machine.names, bridge.owner.serial, bridge.state.value, outputFbo, resolveFbo, resolveTexture);
      if resolveFbo != 0 {
        machine.DeleteNames(Framebuffer, [resolveFbo]);
        resolveFbo := 0;
      }
    }

    method DropResolveTexture()
      requires Drawing()
      modifies this`resolveTexture, machine`names, machine`strays
      ensures Drawing() && resolveTexture == 0 && machine.strays == old(machine.strays)
    {
      hide Names, NamesOf, Distinct, ShapeOk, HasCompleteStream;
      WithoutTexture(machine.names, bridge.owner.serial, bridge.state.value, outputFbo, resolveFbo, resolveTexture);
      if resolveTexture != 0 {
        machine.DeleteNames(Texture, [resolveTexture]);
        resolveTexture := 0;
      }
    }

    method EnsureResolveTarget(size: (nat, nat)) returns (ready: bool)
      requires Drawing()
      modifies this`resolveFbo, this`resolveTexture, this`resolveSize, machine`names, machine`strays, machine`faults
      ensures Drawing() && machine.faults >= old(machine.faults) && (!ready ==> machine.faults > old(machine.faults))
      ensures machine.strays == old(machine.strays)
    {
      if resolveTexture != 0 && resolveFbo != 0 && resolveSize == size {
        return true;
      }
      DropResolveTarget();
      ready := MakeResolveTarget();
      if ready {
        resolveSize := size;
      } else {
        DropResolveTarget();
      }
    }

    method MakeResolveTarget() returns (made: bool)
      requires Drawing() && resolveFbo == resolveTexture == 0
      modifies this`resolveFbo, this`resolveTexture, machine`names, machine`faults
      ensures Drawing() && machine.faults >= old(machine.faults) && (!made ==> machine.faults > old(machine.faults))
    {
      hide UsesAre, Names;
      ghost var serial := bridge.owner.serial;
      SplitFbos(serial, outputFbo, 0);
      NoOwnNames(serial);
      var texture, error := machine.CreateNames(Texture, 1);
      assert texture == [texture[0]];
      resolveTexture := texture[0];
      if resolveTexture == 0 {
        return false;
      }
      var fbo, failed := machine.CreateNames(Framebuffer, 1);
      assert fbo == [fbo[0]];
      SplitFbos(serial, outputFbo, fbo[0]);
      DistinctFbos(serial, outputFbo, fbo[0]);
      resolveFbo := fbo[0];
      if resolveFbo == 0 || error || failed {
        return false;
      }
      var incomplete := machine.Call();
      return !incomplete;
    }

    // BlitBackBuffer: resolve the game's back buffer and draw it into the slot's texture.
    method Blit(slot: nat) returns (drawn: bool)
      requires Drawing() && slot < SlotCount
      modifies this`resolveFbo, this`resolveTexture, this`resolveSize, machine`names, machine`strays, machine`faults
      ensures Drawing() && machine.faults >= old(machine.faults) && (!drawn ==> machine.faults > old(machine.faults))
      ensures machine.strays == old(machine.strays)
    {
      var viewport: (nat, nat) := *;
      var badViewport := machine.Call();
      if badViewport {
        return false;
      }
      var ready := EnsureResolveTarget(viewport);
      if !ready {
        return false;
      }
      var error := machine.Call();
      return !error;
    }

    // One frame after a scene pass. Time may pass at any point.
    method Produce()
      requires Valid()
      modifies this, bridge`state, machine`names, machine`strays, machine`faults, machine`ready, machine`consumed
      ensures Valid()
      ensures !old(Drawing()) ==> lifecycle == old(lifecycle) && lastProduced == old(lastProduced)
                                  && slotLastUse == old(slotLastUse) && bridge.state == old(bridge.state)
      // Only a driver error, the loss of the device or the last value stops the producer.
      ensures old(Drawing()) && lifecycle == Failed ==>
        machine.faults > old(machine.faults) || machine.consumed == MaxU64 || old(lastProduced) >= MaxU64 - 1
      // Otherwise the frame is produced exactly when it lies in the window over the consumed value.
      ensures old(Drawing()) && lifecycle == Running && old(lastProduced + 1 <= machine.consumed + SlotCount) ==>
        && lastProduced == old(lastProduced) + 1 && droppedFrames == old(droppedFrames)
        && slotLastUse == old(slotLastUse)[SlotFor(lastProduced) := lastProduced]
      ensures old(Drawing()) && lifecycle == Running && !old(lastProduced + 1 <= machine.consumed + SlotCount) ==>
        && lastProduced == old(lastProduced) && droppedFrames == old(droppedFrames) + 1
        && slotLastUse == old(slotLastUse) && bridge.state == old(bridge.state)
      ensures machine.strays == old(machine.strays)
      ensures machine.faults >= old(machine.faults)
      ensures lastProduced >= old(lastProduced)
      ensures old(machine.consumed) == MaxU64 ==> machine.consumed == MaxU64
      ensures lifecycle == old(lifecycle) || lifecycle == Failed
    {
      if lifecycle != Running || contextDeleted || !bridge.ContextMatches() {
        return;
      }
      hide Names, NamesOf, Distinct, UsesAre, HasCompleteStream, ShapeOk;
      var consumed := machine.consumed;
      machine.Elapse();
      var slot := SlotFor(lastProduced + 1);
      DecisionIsWindow(lastProduced, slotLastUse, consumed);
      match DecideRingFrame(lastProduced, slotLastUse[slot], consumed)
      case DropConsumerBusy =>
        droppedFrames := droppedFrames + 1;
      case StopDeviceRemoved =>
        lifecycle := Failed;
      case StopFenceValueExhausted =>
        lifecycle := Failed;
      case Produce(next) =>
        ProduceNext(slot, next, consumed);
    }

    method ProduceNext(slot: nat, next: u64, consumed: u64)
      requires Drawing() && BooksOk()
      requires next == lastProduced + 1 < MaxU64 && slot == SlotFor(next)
      requires CanReuse(slotLastUse[slot], consumed) && consumed != MaxU64
      requires machine.consumed == MaxU64 || (consumed <= machine.consumed && next <= consumed + SlotCount)
      modifies this, bridge`state, machine`names, machine`strays, machine`faults, machine`ready, machine`consumed
      ensures Valid() && droppedFrames == old(droppedFrames)
      ensures lifecycle == Running || lifecycle == Failed
      ensures lifecycle == Failed ==> machine.faults > old(machine.faults) || machine.consumed == MaxU64
      ensures lifecycle == Running ==> lastProduced == next && slotLastUse == old(slotLastUse)[slot := next]
      ensures machine.strays == old(machine.strays)
      ensures machine.faults >= old(machine.faults)
      ensures lastProduced >= old(lastProduced)
    {
      hide Names, NamesOf, Distinct, UsesAre, HasCompleteStream, ShapeOk;
      var signalled := ProduceInto(slot, next, consumed);
      if signalled {
        UsesNext(lastProduced, slotLastUse);
        lastProduced := next;
        slotLastUse := slotLastUse[slot := next];
      } else {
        lifecycle := Failed;
      }
    }
  
    // Reacquire the slot, draw, and release it to the host. It fails only for the driver's or the
    // device's sake: neither WaitConsumed nor SignalReady refuses a call.
    method ProduceInto(slot: nat, next: u64, consumed: u64) returns (signalled: bool)
      requires Drawing() && BooksOk()
      requires next == lastProduced + 1 < MaxU64 && slot == SlotFor(next)
      requires CanReuse(slotLastUse[slot], consumed) && consumed != MaxU64
      requires machine.consumed == MaxU64 || (consumed <= machine.consumed && next <= consumed + SlotCount)
      modifies this`resolveFbo, this`resolveTexture, this`resolveSize, bridge`state
      modifies machine`names, machine`strays, machine`faults, machine`ready, machine`consumed
      ensures bridge.Valid() && machine.faults >= old(machine.faults)
      ensures !signalled ==> machine.faults > old(machine.faults) || machine.consumed == MaxU64
      ensures signalled ==> Drawing() && Handed(slot, next)
      ensures machine.strays == old(machine.strays)
    {
      hide Names, NamesOf, Distinct, UsesAre, HasCompleteStream, ShapeOk;
      var waited := Reacquire(slot);
      if !waited {
        return false;
      }
      machine.Elapse();
      var drawn := Blit(slot);
      if !drawn {
        return false;
      }
      signalled := Handover(slot, next);
    }

    // The books once `next` has gone to its slot, the producer's own book still to follow.
    ghost predicate Handed(slot: nat, next: u64) reads this, bridge, machine {
      && bridge.state.Some? && |slotLastUse| == SlotCount && slot < SlotCount
      && var s := bridge.state.value;
      && |s.slotReady| == |s.slotWaits| == SlotCount && s.active == SlotCount && s.shared.Some?
      && s.slotReady == slotLastUse[slot := next] && next == s.lastReady == machine.ready
      && WaitsBehind(s)
      && (machine.consumed == MaxU64 || machine.consumed <= next <= machine.consumed + SlotCount)
    }

    // The books while the slot belongs to GL again.
    ghost predicate Reacquired(slot: nat) reads this, bridge, machine {
      && bridge.state.Some? && slot < SlotCount && |slotLastUse| == SlotCount
      && var s := bridge.state.value;
      && |s.slotReady| == |s.slotWaits| == SlotCount && s.active == SlotCount && s.shared.Some?
      && slotLastUse == s.slotReady && lastProduced == s.lastReady == machine.ready
      && s.slotWaits[slot] == s.slotReady[slot] <= lastProduced
      && forall other :: 0 <= other < SlotCount && other != slot ==>
           s.slotWaits[other] < s.slotReady[other] || s.slotWaits[other] == s.slotReady[other] == 0
    }

    method Reacquire(slot: nat) returns (waited: bool)
      requires Drawing() && BooksOk() && slot < SlotCount
      requires machine.consumed == MaxU64 || CanReuse(slotLastUse[slot], machine.consumed)
      modifies bridge`state, machine`faults
      ensures bridge.Valid() && machine.faults >= old(machine.faults)
      ensures if waited then Drawing() && Reacquired(slot)
              else machine.faults > old(machine.faults) || machine.consumed == MaxU64
    {
      hide NamesOf, Distinct;
      UsesBelow(lastProduced, slotLastUse, slot);
      if slotLastUse[slot] != 0 {
        var status := bridge.WaitConsumed(slot, slotLastUse[slot]);
        assert !IsRefusal(status);
        return status == Ok;
      }
      return true;
    }

    method Handover(slot: nat, next: u64) returns (signalled: bool)
      requires Drawing() && Reacquired(slot) && next == lastProduced + 1 < MaxU64
      requires machine.consumed == MaxU64 || (machine.consumed <= lastProduced && next <= machine.consumed + SlotCount)
      modifies bridge`state, machine`faults, machine`ready
      ensures bridge.Valid() && machine.faults >= old(machine.faults)
      ensures if signalled then Drawing() && Handed(slot, next) else machine.faults > old(machine.faults)
    {
      hide NamesOf, Distinct;
      var status := bridge.SignalReady(slot, next);
      assert !IsRefusal(status);
      return status == Ok;
    }
  
    // ---- whole sessions

    // The game creates a context, or makes one current, or time passes: nothing of the producer's.
    method NewContext(handle: nat, adapter: nat)
      requires Valid() && handle != 0 && forall d <- machine.alive :: d.handle != handle
      modifies machine`alive, machine`nextSerial
      ensures Valid()
    {
      hide Names, NamesOf, UsesAre, ShapeOk, HasCompleteStream;
      var c := machine.CreateContext(handle, adapter);
    }

    method MakeCurrent(c: Option<Context>)
      requires Valid() && (c.Some? ==> c.value in machine.alive)
      modifies machine`current
      ensures Valid()
    {
      hide Names, NamesOf, UsesAre, ShapeOk, HasCompleteStream;
      machine.MakeCurrent(c);
    }

    method Elapse()
      requires Valid()
      modifies machine`consumed
      ensures Valid() && (old(machine.consumed) == MaxU64 ==> machine.consumed == MaxU64)
    {
      hide Names, NamesOf, UsesAre, ShapeOk, HasCompleteStream;
      machine.Elapse();
    }

    predicate CanHappen(act: Act) reads machine {
      match act
      case NewContext(handle, _) => handle != 0 && forall d <- machine.alive :: d.handle != handle
      case MakeCurrent(c) => c.Some? ==> c.value in machine.alive
      case DeleteContext(c) => c in machine.alive
      case _ => true
    }

    // Why the producer may have stopped: not for anything the bridge refused.
    twostate predicate Excused() reads this, machine {
      machine.faults > old(machine.faults) || machine.consumed == MaxU64 || lastProduced >= MaxU64 - 1
    }

    // Any acts of the game, the host and the device, and any calls, in any order.
    method Play(acts: seq<Act>)
      requires Valid() && lifecycle == Running
      modifies this, bridge, machine
      ensures Valid() && (lifecycle == Running || (lifecycle == Failed && Excused()))
      ensures lifecycle == Running ==> BooksAgree()
      ensures lastProduced >= old(lastProduced) && machine.strays == old(machine.strays)
    {
      hide Names, NamesOf, UsesAre, ShapeOk, HasCompleteStream, WaitsBehind;
      var i := 0;
      while i < |acts|
        invariant 0 <= i <= |acts| && Valid() && (lifecycle == Running || (lifecycle == Failed && Excused()))
        invariant lastProduced >= old(lastProduced) && machine.strays == old(machine.strays)
        invariant machine.faults >= old(machine.faults)
      {
        if CanHappen(acts[i]) {
          One(acts[i]);
        }
        i := i + 1;
      }
    }

    // The producer's book of slot uses is the bridge's book of signals, so is the last value, and
    // every slot's wait is behind its signal.
    ghost predicate BooksAgree() reads this, bridge {
      && bridge.state.Some?
      && var s := bridge.state.value;
      && |s.slotReady| == |s.slotWaits| == SlotCount
      && slotLastUse == s.slotReady && lastProduced == s.lastReady && WaitsBehind(s)
    }

    method One(act: Act)
      requires Valid() && CanHappen(act) && (lifecycle == Running || lifecycle == Failed)
      modifies this, bridge, machine
      ensures Valid() && (lifecycle == Running || lifecycle == Failed)
      ensures old(lifecycle) == Failed ==> lifecycle == Failed
      ensures old(lifecycle) == Running && lifecycle == Failed ==> Excused()
      ensures old(machine.consumed) == MaxU64 ==> machine.consumed == MaxU64
      ensures lastProduced >= old(lastProduced) && machine.faults >= old(machine.faults)
      ensures machine.strays == old(machine.strays)
    {
      hide Names, NamesOf, UsesAre, ShapeOk, HasCompleteStream, WaitsBehind;
      match act
      case NewContext(handle, adapter) => NewContext(handle, adapter);
      case MakeCurrent(c) => MakeCurrent(c);
      case DeleteContext(c) => DeleteContext(c);
      case Elapse => Elapse();
      case Frame => Produce();
      case Recover(now) => RecoverContext(now);
    }
  }

  datatype Act =
    | NewContext(handle: nat, adapter: nat)
    | MakeCurrent(context: Option<Context>)
    | DeleteContext(gone: Context)
    | Elapse
    | Frame
    | Recover(now: nat)

  // A session from its start.
  method Session(machine: Machine, acts: seq<Act>) returns (producer: Producer, started: bool)
    requires machine.Valid()
    modifies machine
    ensures fresh(producer) && producer.machine == machine && producer.Valid()
    ensures started ==> producer.lifecycle == Running || producer.lifecycle == Failed
    ensures !started ==> producer.lifecycle == Failed
    ensures started && producer.lifecycle == Running ==> producer.BooksAgree()
    ensures producer.lifecycle == Failed ==>
      machine.faults > old(machine.faults) || old(machine.current) == None
      || machine.consumed == MaxU64 || producer.lastProduced >= MaxU64 - 1
    ensures machine.strays == old(machine.strays)
  {
    producer := new Producer(machine);
    started := producer.Start();
    if started {
      producer.Play(acts);
    }
  }

  // The producer's names and its stream's are there, apart from each other.
  predicate HoldsNames(names: set<Owned>, serial: nat, s: Native, outputFbo: nat, resolveFbo: nat, resolveTexture: nat) {
    var own := NamesOf(serial, Framebuffer, [outputFbo, resolveFbo]) + NamesOf(serial, Texture, [resolveTexture]);
    Names(serial, s) <= names && own <= names && own !! Names(serial, s) && Distinct([outputFbo, resolveFbo])
  }

  lemma WithoutFbo(names: set<Owned>, serial: nat, s: Native, outputFbo: nat, resolveFbo: nat, resolveTexture: nat)
    requires HoldsNames(names, serial, s, outputFbo, resolveFbo, resolveTexture)
    ensures NamesOf(serial, Framebuffer, [resolveFbo]) <= names
    ensures HoldsNames(names - NamesOf(serial, Framebuffer, [resolveFbo]), serial, s, outputFbo, 0, resolveTexture)
  {
    SplitFbos(serial, outputFbo, resolveFbo);
    SplitFbos(serial, outputFbo, 0);
    NoOwnNames(serial);
    assert forall o <- NamesOf(serial, Framebuffer, [resolveFbo]) :: o.kind == Framebuffer;
    assert forall o <- Names(serial, s) :: o.kind != Framebuffer;
    assert forall o <- NamesOf(serial, Texture, [resolveTexture]) :: o.kind == Texture;
  }

  lemma WithoutTexture(names: set<Owned>, serial: nat, s: Native, outputFbo: nat, resolveFbo: nat, resolveTexture: nat)
    requires HoldsNames(names, serial, s, outputFbo, resolveFbo, resolveTexture)
    ensures NamesOf(serial, Texture, [resolveTexture]) <= names
    ensures HoldsNames(names - NamesOf(serial, Texture, [resolveTexture]), serial, s, outputFbo, resolveFbo, 0)
  {
    NoOwnNames(serial);
    assert forall o <- NamesOf(serial, Framebuffer, [outputFbo, resolveFbo]) :: o.kind == Framebuffer;
    assert forall o <- NamesOf(serial, Texture, [resolveTexture]) :: o.kind == Texture;
  }

  lemma NoOwnNames(serial: nat)
    ensures NamesOf(serial, Framebuffer, [0, 0]) == {} && NamesOf(serial, Framebuffer, [0]) == {}
    ensures NamesOf(serial, Texture, [0]) == {}
  {
  }

  lemma AddFbo(names: set<Owned>, serial: nat, s: Native, numbers: seq<nat>, resolveFbo: nat, resolveTexture: nat)
    requires HoldsNames(names, serial, s, 0, resolveFbo, resolveTexture)
    requires |numbers| == 1 && Fresh(names, serial, Framebuffer, numbers, 1)
    ensures HoldsNames(names + NamesOf(serial, Framebuffer, numbers), serial, s, numbers[0], resolveFbo, resolveTexture)
  {
    SplitFbos(serial, 0, resolveFbo);
    SplitFbos(serial, numbers[0], resolveFbo);
    NoOwnNames(serial);
    assert numbers == [numbers[0]];
    DistinctFbos(serial, numbers[0], resolveFbo);
  }

  // A name belongs to the context it was made in.
  lemma NamesBelong(serial: nat, state: Option<Native>, outputFbo: nat, resolveFbo: nat, resolveTexture: nat)
    ensures state.Some? ==> forall o <- Names(serial, state.value) :: o.serial == serial
    ensures forall o <- NamesOf(serial, Framebuffer, [outputFbo, resolveFbo]) :: o.serial == serial
    ensures forall o <- NamesOf(serial, Texture, [resolveTexture]) :: o.serial == serial
  {
  }

  lemma SplitFbos(serial: nat, first: nat, second: nat)
    ensures NamesOf(serial, Framebuffer, [first, second])
      == NamesOf(serial, Framebuffer, [first]) + NamesOf(serial, Framebuffer, [second])
    ensures Distinct([first, second]) ==>
      NamesOf(serial, Framebuffer, [first]) !! NamesOf(serial, Framebuffer, [second])
  {
    assert Distinct([first, second]) ==> [first, second][0] == 0 || [first, second][0] != [first, second][1];
    assert forall o <- NamesOf(serial, Framebuffer, [first]) :: o.number == first != 0;
    assert forall o <- NamesOf(serial, Framebuffer, [second]) :: o.number == second != 0;
  }

  lemma DistinctFbos(serial: nat, first: nat, second: nat)
    requires NamesOf(serial, Framebuffer, [first]) !! NamesOf(serial, Framebuffer, [second])
    ensures Distinct([first, second])
  {
    assert first in [first] && second in [second];
    assert first != 0 ==> Owned(serial, Framebuffer, first) in NamesOf(serial, Framebuffer, [first]);
  }

  lemma UsesBelow(last: u64, uses: seq<u64>, slot: nat)
    requires UsesAre(last, uses) && slot < SlotCount
    ensures uses[slot] <= last
  {
    LatestBelow(last, slot);
  }

  lemma LatestBelow(last: u64, slot: nat)
    ensures LatestIn(last, slot) <= last
  {
  }

  lemma NoUses()
    ensures UsesAre(0, Zeros)
  {
  }

  lemma NewFbo(serial: nat, numbers: seq<nat>)
    requires |numbers| == 1
    ensures NamesOf(serial, Framebuffer, [numbers[0], 0]) == NamesOf(serial, Framebuffer, numbers)
    ensures NamesOf(serial, Texture, [0]) == {}
  {
  }
}
