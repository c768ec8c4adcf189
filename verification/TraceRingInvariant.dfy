// Every step of the record ring keeps the invariant, and what that gives over whole runs.
module TraceRingInvariant {
  import opened Wrappers
  import opened Division
  import opened TraceRing

  lemma InitInv(r: Ring)
    requires Init(r)
    ensures Inv(r)
  {
    forall k | r.dequeue <= k < r.dequeue + r.capacity ensures TicketOk(r, k) {
      DivisionUnique(k, r.capacity, 0, k);
    }
  }

  // A step by which thread t moves between states that own no ticket.
  lemma ScanStep(r: Ring, r': Ring, t: nat)
    requires Inv(r)
    requires t < |r.producers| && |r'.producers| == |r.producers|
    requires r' == r.(producers := r.producers[t := r'.producers[t]], dropped := r'.dropped, calls := r'.calls)
    requires !r.producers[t].Copying? && !r'.producers[t].Copying?
    requires ProducerOk(r, r'.producers[t])
    ensures Inv(r')
  {
    forall k | r'.dequeue <= k < r'.dequeue + r'.capacity ensures TicketOk(r', k) {
      assert TicketOk(r, k);
      if HasWriter(r, k) {
        var u :| 0 <= u < |r.producers| && IsWriter(r.producers[u], k);
        assert IsWriter(r'.producers[u], k);
      }
    }
    forall u | 0 <= u < |r'.producers| ensures ProducerOk(r', r'.producers[u]) {
      assert ProducerOk(r, r'.producers[u]);
    }
  }

  // What a load of a slot's sequence tells about the position it was loaded for.
  lemma SequenceMeaning(r: Ring, position: int)
    requires Inv(r) && 0 <= position <= r.enqueue
    ensures var sequence := r.slots[Index(position, r.capacity)].sequence;
      && (sequence == position ==> position < r.dequeue + r.capacity)
      && (sequence > position ==> position < r.enqueue)
      && (sequence < position ==> r.enqueue - r.dequeue == r.capacity)
  {
    var k := TicketOfSlot(position, r.dequeue, r.capacity);
    assert TicketOk(r, k);
    if position >= r.dequeue + r.capacity {
      IndexNextLap(r.dequeue, r.capacity);
      IndexInjective(k, r.dequeue, r.capacity);
    } else if position >= r.dequeue {
      IndexInjective(k, position, r.capacity);
    }
  }

  lemma ScanStepsInv(r: Ring, a: Action)
    requires Inv(r) && Enabled(r, a)
    requires a.Call? || a.LoadPosition? || a.LoadSequence? || a.DropFull? || a.Reload? || a.DropExhausted?
    ensures Inv(Next(r, a))
  {
    var p := r.producers[a.t];
    assert ProducerOk(r, p);
    if a.LoadSequence? {
      SequenceMeaning(r, p.position);
    }
    ScanStep(r, Next(r, a), a.t);
  }

  lemma CompareExchangeInv(r: Ring, t: nat)
    requires Inv(r) && Enabled(r, CompareExchange(t))
    ensures Inv(Next(r, CompareExchange(t)))
  {
    var p := r.producers[t];
    var r' := Next(r, CompareExchange(t));
    assert ProducerOk(r, p);
    if r.enqueue != p.position {
      ScanStep(r, r', t);
    } else {
      ClaimInv(r, r', t);
    }
  }

  lemma ClaimInv(r: Ring, r': Ring, t: nat)
    requires Inv(r) && Enabled(r, CompareExchange(t)) && r.enqueue == r.producers[t].position
    requires r' == Next(r, CompareExchange(t))
    ensures Inv(r')
  {
    var k0 := r.enqueue;
    assert ProducerOk(r, r.producers[t]);
    assert TicketOk(r, k0);
    assert IsWriter(r'.producers[t], k0);
    assert r'.out == r'.claims[..r'.dequeue];
    assert Shape(r');
    forall k | r'.dequeue <= k < r'.dequeue + r'.capacity ensures TicketOk(r', k) {
      assert TicketOk(r, k);
      if k != k0 && HasWriter(r, k) {
        var u :| 0 <= u < |r.producers| && IsWriter(r.producers[u], k);
        assert IsWriter(r'.producers[u], k);
      }
    }
    forall u | 0 <= u < |r'.producers| ensures ProducerOk(r', r'.producers[u]) {
      assert ProducerOk(r, r.producers[u]);
    }
    assert forall u :: 0 <= u < |r.producers| ==> ProducerOk(r, r.producers[u]);
  }

  // Two owners of tickets, or an owner and the head, work on different slots.
  lemma OwnersApart(r: Ring, t: nat, k: int)
    requires Inv(r) && t < |r.producers| && r.producers[t].Copying?
    requires r.dequeue <= k < r.dequeue + r.capacity && k != r.producers[t].ticket
    ensures Index(k, r.capacity) != Index(r.producers[t].ticket, r.capacity)
  {
    assert ProducerOk(r, r.producers[t]);
    if Index(k, r.capacity) == Index(r.producers[t].ticket, r.capacity) {
      IndexInjective(k, r.producers[t].ticket, r.capacity);
    }
  }

  lemma CopyWordInv(r: Ring, t: nat)
    requires Inv(r) && Enabled(r, CopyWord(t))
    ensures Inv(Next(r, CopyWord(t)))
  {
    var p := r.producers[t];
    var r' := Next(r, CopyWord(t));
    assert ProducerOk(r, p);
    assert IsWriter(r'.producers[t], p.ticket);
    forall k | r'.dequeue <= k < r'.dequeue + r'.capacity ensures TicketOk(r', k) {
      assert TicketOk(r, k);
      if k != p.ticket {
        OwnersApart(r, t, k);
        if HasWriter(r, k) {
          var u :| 0 <= u < |r.producers| && IsWriter(r.producers[u], k);
          assert IsWriter(r'.producers[u], k);
        }
      }
    }
    forall u | 0 <= u < |r'.producers| ensures ProducerOk(r', r'.producers[u]) {
      var q := r.producers[u];
      assert ProducerOk(r, q);
      if u != t && q.Copying? {
        OwnersApart(r, t, q.ticket);
      }
    }
    if r.reading.Some? && p.ticket != r.dequeue {
      OwnersApart(r, t, r.dequeue);
    }
  }

  lemma PublishSlotInv(r: Ring, t: nat)
    requires Inv(r) && Enabled(r, PublishSlot(t))
    ensures Inv(Next(r, PublishSlot(t)))
  {
    var p := r.producers[t];
    var r' := Next(r, PublishSlot(t));
    assert ProducerOk(r, p);
    assert r.slots[Index(p.ticket, r.capacity)].words == p.record;
    forall k | r'.dequeue <= k < r'.dequeue + r'.capacity ensures TicketOk(r', k) {
      assert TicketOk(r, k);
      if k != p.ticket {
        OwnersApart(r, t, k);
        if HasWriter(r, k) {
          var u :| 0 <= u < |r.producers| && IsWriter(r.producers[u], k);
          assert IsWriter(r'.producers[u], k);
        }
      }
    }
    forall u | 0 <= u < |r'.producers| ensures ProducerOk(r', r'.producers[u]) {
      var q := r.producers[u];
      assert ProducerOk(r, q);
      if u != t && q.Copying? {
        OwnersApart(r, t, q.ticket);
      }
    }
    if r.reading.Some? && p.ticket != r.dequeue {
      OwnersApart(r, t, r.dequeue);
    }
  }

  lemma ReadInv(r: Ring, a: Action)
    requires Inv(r) && Enabled(r, a) && (a.LoadHead? || a.ReadWord?)
    ensures Inv(Next(r, a))
  {
    var r' := Next(r, a);
    assert TicketOk(r, r.dequeue);
    forall k | r'.dequeue <= k < r'.dequeue + r'.capacity ensures TicketOk(r', k) {
      assert TicketOk(r, k);
      assert HasWriter(r, k) ==> HasWriter(r', k);
    }
    forall u | 0 <= u < |r'.producers| ensures ProducerOk(r', r'.producers[u]) {
      assert ProducerOk(r, r.producers[u]);
    }
    if a.ReadWord? {
      var n := |r.reading.value|;
      assert r'.reading.value == r.claims[r.dequeue][..n + 1];
    }
  }

  lemma ReleaseSlotInv(r: Ring)
    requires Inv(r) && Enabled(r, ReleaseSlot)
    ensures Inv(Next(r, ReleaseSlot))
  {
    var r' := Next(r, ReleaseSlot);
    var head := r.dequeue;
    assert TicketOk(r, head);
    assert r.reading.value == r.claims[head];
    assert r'.out == r'.claims[..r'.dequeue];
    forall k | r'.dequeue <= k < r'.dequeue + r'.capacity ensures TicketOk(r', k) {
      if k == head + r.capacity {
        IndexNextLap(head, r.capacity);
      } else {
        assert TicketOk(r, k);
        if Index(k, r.capacity) == Index(head, r.capacity) {
          IndexInjective(k, head, r.capacity);
        }
        assert HasWriter(r, k) ==> HasWriter(r', k);
      }
    }
    forall u | 0 <= u < |r'.producers| ensures ProducerOk(r', r'.producers[u]) {
      var q := r.producers[u];
      assert ProducerOk(r, q);
      if q.Copying? && Index(q.ticket, r.capacity) == Index(head, r.capacity) {
        IndexInjective(q.ticket, head, r.capacity);
      }
    }
  }

  lemma StepInv(r: Ring, a: Action)
    requires Inv(r) && Enabled(r, a)
    ensures Inv(Next(r, a))
  {
    match a
    case CompareExchange(t) => CompareExchangeInv(r, t);
    case CopyWord(t) => CopyWordInv(r, t);
    case PublishSlot(t) => PublishSlotInv(r, t);
    case ReleaseSlot => ReleaseSlotInv(r);
    case LoadHead => ReadInv(r, a);
    case ReadWord => ReadInv(r, a);
    case _ => ScanStepsInv(r, a);
  }

  // ---------------------------------------------------------------------------
  // Whole runs.

  // The ring after the given interleaving, or None if some step of it was not possible.
  function Exec(r: Ring, actions: seq<Action>): Option<Ring>
    decreases |actions|
  {
    if actions == [] then Some(r)
    else if Enabled(r, actions[0]) then Exec(Next(r, actions[0]), actions[1..])
    else None
  }

  lemma {:induction false} ExecInv(r: Ring, actions: seq<Action>)
    requires Inv(r) && Exec(r, actions).Some?
    ensures Inv(Exec(r, actions).value)
    decreases |actions|
  {
    if actions != [] {
      StepInv(r, actions[0]);
      ExecInv(Next(r, actions[0]), actions[1..]);
    }
  }

  // For any number of threads, any capacity and any interleaving: the k-th record handed to the
  // writer is the one claimed under ticket k, none missing and none twice; every claimed record
  // not yet handed over is still in its slot or is being copied there by the one thread that owns it.
  lemma RecordsInTicketOrder(r0: Ring, actions: seq<Action>, r: Ring)
    requires Init(r0) && Exec(r0, actions) == Some(r)
    ensures Inv(r)
    ensures 0 <= r.dequeue <= r.enqueue == |r.claims|
    ensures r.out == r.claims[..r.dequeue]
    ensures forall k :: r.dequeue <= k < r.enqueue ==> TicketOk(r, k)
  {
    InitInv(r0);
    ExecInv(r0, actions);
    assert forall k :: r.dequeue <= k < r.enqueue ==> TicketOk(r, k);
  }

  // No slot has two writers, and the slot being read has none.
  lemma SlotsExclusive(r0: Ring, actions: seq<Action>, r: Ring, t: nat, u: nat)
    requires Init(r0) && Exec(r0, actions) == Some(r)
    requires t < |r.producers| && r.producers[t].Copying?
    ensures r.capacity > 0
    ensures t != u && u < |r.producers| && r.producers[u].Copying? ==>
              Index(r.producers[t].ticket, r.capacity) != Index(r.producers[u].ticket, r.capacity)
    ensures r.reading.Some? ==> Index(r.producers[t].ticket, r.capacity) != Index(r.dequeue, r.capacity)
  {
    RecordsInTicketOrder(r0, actions, r);
    assert ProducerOk(r, r.producers[t]);
    if t != u && u < |r.producers| && r.producers[u].Copying? {
      assert ProducerOk(r, r.producers[u]);
      OwnersApart(r, t, r.producers[u].ticket);
    }
    if r.reading.Some? {
      OwnersApart(r, t, r.dequeue);
    }
  }

  // A record is dropped for a slot that looks behind only if the ring was full when that slot
  // was read, and dropped for too many attempts only if eight other tickets were claimed meanwhile.
  lemma DropsAreJustified(r0: Ring, actions: seq<Action>, r: Ring, t: nat)
    requires Init(r0) && Exec(r0, actions) == Some(r)
    requires t < |r.producers|
    ensures Enabled(r, DropFull(t)) ==> r.producers[t].full
    ensures r.producers[t].Looking? ==>
      (Enabled(r, DropExhausted(t)) <==> r.producers[t].attempt == 8) && (Enabled(r, LoadSequence(t)) <==> r.producers[t].attempt < 8)
    ensures Enabled(r, DropExhausted(t)) ==> r.enqueue >= r.producers[t].start + 8
    ensures (Enabled(r, LoadSequence(t)) && Enabled(Next(r, LoadSequence(t)), DropFull(t)))
              ==> r.enqueue - r.dequeue == r.capacity
  {
    RecordsInTicketOrder(r0, actions, r);
    assert ProducerOk(r, r.producers[t]);
    if Enabled(r, LoadSequence(t)) {
      SequenceMeaning(r, r.producers[t].position);
    }
  }

  // Below 2^31 nothing wraps: every stored sequence and position, and so every difference the
  // program takes in 32-bit LONGs, is the unbounded one.
  lemma DifferencesFit32(r0: Ring, actions: seq<Action>, r: Ring, i: nat, t: nat)
    requires Init(r0) && Exec(r0, actions) == Some(r)
    requires r.enqueue + r.capacity < 0x8000_0000
    requires i < r.capacity && t < |r.producers|
    ensures |r.slots| == r.capacity && 0 <= r.slots[i].sequence < 0x8000_0000
    ensures r.producers[t].Deciding? ==> 0 <= r.producers[t].position < 0x8000_0000
    ensures r.producers[t].Copying? ==> 0 <= r.producers[t].ticket + 1 < 0x8000_0000
  {
    RecordsInTicketOrder(r0, actions, r);
    assert ProducerOk(r, r.producers[t]);
    var k := TicketOfSlot(i, r.dequeue, r.capacity);
    assert TicketOk(r, k);
    DivisionUnique(i, r.capacity, 0, i);
  }

  // ---------------------------------------------------------------------------
  // Conservation: every call is a claimed ticket, a counted drop, or still looking for a ticket.

  function Undecided(ps: seq<Producer>): (n: nat)
  {
    if ps == [] then 0
    else (if ps[0].Starting? || ps[0].Looking? || ps[0].Deciding? then 1 else 0) + Undecided(ps[1..])
  }

  lemma {:induction false} UndecidedUpdate(ps: seq<Producer>, t: nat, p: Producer)
    requires t < |ps|
    ensures Undecided(ps[t := p]) == Undecided(ps) - Undecided([ps[t]]) + Undecided([p])
  {
    if t > 0 {
      assert ps[t := p][1..] == ps[1..][t - 1 := p];
      UndecidedUpdate(ps[1..], t - 1, p);
    } else {
      assert ps[t := p][1..] == ps[1..];
    }
  }

  lemma {:induction false} NoneUndecided(ps: seq<Producer>)
    requires forall t :: 0 <= t < |ps| ==> ps[t] == Idle
    ensures Undecided(ps) == 0
  {
    if ps != [] {
      NoneUndecided(ps[1..]);
    }
  }

  predicate Conserved(r: Ring) {
    r.calls == |r.claims| + r.dropped + Undecided(r.producers)
  }

  lemma StepConserves(r: Ring, a: Action)
    requires Inv(r) && Enabled(r, a) && Conserved(r)
    ensures Conserved(Next(r, a))
  {
    if !a.LoadHead? && !a.ReadWord? && !a.ReleaseSlot? {
      UndecidedUpdate(r.producers, a.t, Next(r, a).producers[a.t]);
    }
  }

  lemma {:induction false} ExecConserves(r: Ring, actions: seq<Action>)
    requires Inv(r) && Conserved(r) && Exec(r, actions).Some?
    ensures Conserved(Exec(r, actions).value)
    decreases |actions|
  {
    if actions != [] {
      StepInv(r, actions[0]);
      StepConserves(r, actions[0]);
      ExecConserves(Next(r, actions[0]), actions[1..]);
    }
  }

  lemma EveryCallAccountedFor(r0: Ring, actions: seq<Action>, r: Ring)
    requires Init(r0) && Exec(r0, actions) == Some(r)
    ensures r.calls == |r.claims| + r.dropped + Undecided(r.producers)
  {
    InitInv(r0);
    NoneUndecided(r0.producers);
    ExecConserves(r0, actions);
  }
}
