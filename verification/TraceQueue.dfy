// EnqueueRecord, DequeueRecord and InitializeQueue as program text. Each access to shared memory
// is one step of the ring, and before each of them every other thread may run for as long as it
// likes (`Interfere`). So what these methods promise holds under any interleaving.
module TraceQueue {
  import opened Wrappers
  import opened TraceRing
  import opened TraceRingInvariant

  // Who a step belongs to.
  datatype Actor = Thread(t: nat) | WriterThread

  function ActorOf(a: Action): Actor {
    if a.LoadHead? || a.ReadWord? || a.ReleaseSlot? then WriterThread else Thread(a.t)
  }

  // What the steps of other threads leave alone, and what only grows.
  predicate Progress(r: Ring, r': Ring) {
    && r'.capacity == r.capacity && r'.width == r.width
    && |r'.producers| == |r.producers|
    && r.enqueue <= r'.enqueue && r.dequeue <= r'.dequeue && r.dropped <= r'.dropped
    && r.claims <= r'.claims && r.out <= r'.out
  }

  predicate Private(r: Ring, r': Ring, me: Actor) {
    match me
    case Thread(t) => t < |r.producers| && t < |r'.producers| && r'.producers[t] == r.producers[t]
    case WriterThread => r'.reading == r.reading && r'.out == r.out && r'.dequeue == r.dequeue
  }

  lemma StepProgress(r: Ring, a: Action, me: Actor)
    requires Inv(r) && Enabled(r, a)
    ensures Progress(r, Next(r, a))
    ensures ActorOf(a) != me && (me.Thread? ==> me.t < |r.producers|) ==> Private(r, Next(r, a), me)
  {
  }

  // Of the tickets claimed since, thread t owns this one, or none.
  predicate Claimed(before: seq<nat>, after: seq<nat>, t: nat, ticket: Option<int>) {
    && before <= after
    && forall k :: |before| <= k < |after| ==> (after[k] == t <==> ticket == Some(k))
  }

  // Nothing of t's, and then perhaps one ticket; or one ticket, and then nothing more.
  lemma ClaimedThen(a: seq<nat>, b: seq<nat>, c: seq<nat>, t: nat, ticket: Option<int>)
    requires Claimed(a, b, t, None) && Claimed(b, c, t, ticket) && (ticket.Some? ==> ticket.value >= |b|)
    ensures Claimed(a, c, t, ticket) && |a| <= |b|
  {
  }

  lemma ClaimedBefore(a: seq<nat>, b: seq<nat>, c: seq<nat>, t: nat, ticket: int)
    requires Claimed(a, b, t, Some(ticket)) && Claimed(b, c, t, None) && ticket < |b|
    ensures Claimed(a, c, t, Some(ticket))
  {
  }

  lemma NoneClaimed(a: seq<nat>, t: nat)
    ensures Claimed(a, a, t, None)
  {
  }

  lemma ProgressTrans(a: Ring, b: Ring, c: Ring)
    requires Progress(a, b) && Progress(b, c)
    ensures Progress(a, c) && a.dropped <= b.dropped && a.enqueue <= b.enqueue
  {
  }

  lemma TicketsCounted(r: Ring)
    requires Inv(r)
    ensures |r.claims| == r.enqueue
  {
  }

  lemma PositionKnown(r: Ring, t: nat)
    requires Inv(r) && t < |r.producers| && r.producers[t].Deciding?
    ensures 0 <= r.producers[t].position <= |r.claims| == r.enqueue
  {
    assert ProducerOk(r, r.producers[t]);
  }

  // How one turn of EnqueueRecord's loop ends.
  datatype Turn = Queued | Dropped | Again

  class Queue {
    var ring: Ring
    ghost var owners: seq<nat>  // the thread that claimed each ticket

    ghost predicate Valid() reads this {
      WellFormed(ring) && Inv(ring) && |owners| == |ring.claims|
    }

    constructor (capacity: nat, width: nat, threads: nat)
      requires capacity >= 2
      ensures Valid() && Init(ring)
      ensures ring.capacity == capacity && ring.width == width && |ring.producers| == threads
    {
      var words: Record := seq(width, _ => 0);
      var slots: seq<Slot> := [];
      var index := 0;
      while index < capacity
        invariant 0 <= index <= capacity && |slots| == index
        invariant forall i :: 0 <= i < index ==> slots[i] == Slot(i, words)
      {
        slots := slots + [Slot(index, words)];
        index := index + 1;
      }
      ring := Ring(capacity, width, 0, 0, 0, slots, seq(threads, _ => Idle), None, 0, [], []);
      owners := [];
      new;
      InitInv(ring);
    }

    // One atomic access to shared memory.
    method Perform(a: Action)
      requires Valid() && Enabled(ring, a)
      modifies this
      ensures Valid() && ring == Next(old(ring), a)
      ensures Progress(old(ring), ring)
      ensures owners == if |ring.claims| > |old(ring.claims)| then old(owners) + [a.t] else old(owners)
    {
      StepInv(ring, a);
      StepProgress(ring, a, WriterThread);
      owners := if |Next(ring, a).claims| > |ring.claims| then owners + [a.t] else owners;
      ring := Next(ring, a);
    }

    // Any number of steps of the other threads.
    method Interfere(me: Actor)
      requires Valid() && (me.Thread? ==> me.t < |ring.producers|)
      modifies this
      ensures Valid() && Progress(old(ring), ring) && Private(old(ring), ring, me)
      ensures me.Thread? ==> Claimed(old(owners), owners, me.t, None)
    {
      var rounds: nat := *;
      while rounds > 0
        invariant Valid() && Progress(old(ring), ring) && Private(old(ring), ring, me)
        invariant me.Thread? ==> Claimed(old(owners), owners, me.t, None)
      {
        var a: Action := *;
        if Enabled(ring, a) && ActorOf(a) != me {
          StepProgress(ring, a, me);
          Perform(a);
        }
        rounds := rounds - 1;
      }
    }

    // True exactly when this call claimed a ticket, one only, and published its record under it.
    method EnqueueRecord(t: nat, record: Record) returns (queued: bool, ghost ticket: nat)
      requires Valid() && t < |ring.producers| && ring.producers[t].Idle? && |record| == ring.width
      modifies this
      ensures Valid() && Progress(old(ring), ring)
      ensures t < |ring.producers| && ring.producers[t].Idle?
      ensures queued ==> old(ring.enqueue) <= ticket < |ring.claims| && ring.claims[ticket] == record
      ensures queued ==> ring.slots[Index(ticket, ring.capacity)] == Slot(ticket + 1, record)
      ensures !queued ==> ring.dropped > old(ring.dropped)
      ensures Claimed(old(owners), owners, t, if queued then Some(ticket) else None)
    {
      hide Inv, Claimed, Progress;
      TicketsCounted(ring);
      ticket := 0;
      Perform(Call(t, record));
      NoneClaimed(owners, t);
      ghost var called := ring;
      var position := ReadEnqueuePosition(t);
      ProgressTrans(old(ring), called, ring);
      ghost var start := position;
      var attempt := 0;
      while attempt < MAX_ATTEMPTS
        invariant 0 <= attempt <= MAX_ATTEMPTS && start >= old(ring.enqueue)
        invariant Valid() && Progress(old(ring), ring) && t < |ring.producers|
        invariant ring.producers[t] == Looking(record, attempt, position, start)
        invariant Claimed(old(owners), owners, t, None)
        decreases MAX_ATTEMPTS - attempt
      {
        ghost var before, was := owners, ring;
        var turn;
        turn, position, ticket := OneAttempt(t, record, attempt, position, start);
        ClaimedThen(old(owners), before, owners, t, if turn == Queued then Some(ticket) else None);
        ProgressTrans(old(ring), was, ring);
        if turn != Again {
          return turn == Queued, ticket;
        }
        attempt := attempt + 1;
      }
      ghost var before, was := owners, ring;
      GiveUp(t);
      ClaimedThen(old(owners), before, owners, t, None);
      ProgressTrans(old(ring), was, ring);
      return false, ticket;
    }

    // The attempts are used up: count a drop.
    method GiveUp(t: nat)
      requires Valid() && t < |ring.producers|
      requires ring.producers[t].Looking? && ring.producers[t].attempt == MAX_ATTEMPTS
      modifies this
      ensures Valid() && Progress(old(ring), ring) && t < |ring.producers| && ring.producers[t].Idle?
      ensures ring.dropped > old(ring.dropped) && Claimed(old(owners), owners, t, None)
    {
      hide Inv;
      Interfere(Thread(t));
      Perform(DropExhausted(t));
    }

    // One turn of the loop.
    method OneAttempt(t: nat, record: Record, attempt: nat, position: int, ghost start: int)
        returns (turn: Turn, next: int, ghost ticket: nat)
      requires Valid() && t < |ring.producers| && attempt < MAX_ATTEMPTS
      requires ring.producers[t] == Looking(record, attempt, position, start)
      modifies this
      ensures Valid() && Progress(old(ring), ring) && t < |ring.producers|
      ensures Claimed(old(owners), owners, t, if turn == Queued then Some(ticket) else None)
      ensures turn != Again ==> ring.producers[t].Idle?
      ensures turn == Again ==> ring.producers[t] == Looking(record, attempt + 1, next, start)
      ensures turn == Dropped ==> ring.dropped > old(ring.dropped)
      ensures turn == Queued ==> |old(owners)| <= ticket < |ring.claims| && ring.claims[ticket] == record
      ensures turn == Queued ==> ring.slots[Index(ticket, ring.capacity)] == Slot(ticket + 1, record)
    {
      hide Inv, Claimed;
      next, ticket := position, 0;
      var sequence := ReadSlotSequence(t);
      var difference := sequence - position;
      ghost var read := owners;
      Interfere(Thread(t));
      ClaimedThen(old(owners), read, owners, t, None);
      ghost var before := owners;
      if difference == 0 {
        turn, next, ticket := TryTicket(t, record, attempt, position, start);
        ClaimedThen(old(owners), before, owners, t, if turn == Queued then Some(ticket) else None);
      } else if difference < 0 {
        Perform(DropFull(t));
        turn := Dropped;
      } else {
        next := ring.enqueue;
        Perform(Reload(t));
        turn := Again;
      }
    }

    // The compare-exchange, and what follows when it is won.
    method TryTicket(t: nat, record: Record, attempt: nat, position: int, ghost start: int)
        returns (turn: Turn, next: int, ghost ticket: nat)
      requires Valid() && Enabled(ring, CompareExchange(t)) && ring.producers[t].Deciding?
      requires ring.producers[t].record == record && ring.producers[t].attempt == attempt
      requires ring.producers[t].position == position && ring.producers[t].start == start
      modifies this
      ensures Valid() && Progress(old(ring), ring) && t < |ring.producers| && turn != Dropped
      ensures Claimed(old(owners), owners, t, if turn == Queued then Some(ticket) else None)
      ensures turn == Again ==> ring.producers[t] == Looking(record, attempt + 1, next, start)
      ensures turn == Queued ==> ring.producers[t].Idle?
      ensures turn == Queued ==> |old(owners)| <= ticket < |ring.claims| && ring.claims[ticket] == record
      ensures turn == Queued ==> ring.slots[Index(ticket, ring.capacity)] == Slot(ticket + 1, record)
    {
      hide Claimed;
      PositionKnown(ring, t);
      next, ticket := position, position;
      var observed := CompareExchangeEnqueue(t);
      if observed == position {
        ghost var won := owners;
        CopyAndPublish(t, record, position);
        ClaimedBefore(old(owners), won, owners, t, ticket);
        return Queued, next, ticket;
      }
      return Again, observed, ticket;
    }

    method ReadEnqueuePosition(t: nat) returns (position: int)
      requires Valid() && t < |ring.producers| && ring.producers[t].Starting?
      modifies this
      ensures Valid() && Progress(old(ring), ring) && t < |ring.producers|
      ensures position >= old(ring.enqueue)
      ensures ring.producers[t] == Looking(old(ring.producers[t].record), 0, position, position)
      ensures Claimed(old(owners), owners, t, None)
    {
      Interfere(Thread(t));
      position := ring.enqueue;
      Perform(LoadPosition(t));
    }

    method ReadSlotSequence(t: nat) returns (sequence: int)
      requires Valid() && t < |ring.producers|
      requires ring.producers[t].Looking? && ring.producers[t].attempt < MAX_ATTEMPTS
      modifies this
      ensures Valid() && Progress(old(ring), ring) && t < |ring.producers|
      ensures ring.producers[t].Deciding?
      ensures var p, p' := old(ring.producers[t]), ring.producers[t];
        p' == Deciding(p.record, p.attempt, p.position, p.start, sequence, p'.full)
      ensures Claimed(old(owners), owners, t, None)
    {
      Interfere(Thread(t));
      sequence := ring.slots[Index(ring.producers[t].position, ring.capacity)].sequence;
      Perform(LoadSequence(t));
      assert ProducerOk(ring, ring.producers[t]);
    }

    method CompareExchangeEnqueue(t: nat) returns (observed: int)
      requires Valid() && Enabled(ring, CompareExchange(t))
      modifies this
      ensures Valid() && Progress(old(ring), ring) && t < |ring.producers|
      ensures observed == old(ring.enqueue) >= old(ring.producers[t].position)
      ensures var p := old(ring.producers[t]);
        ring.producers[t] == if observed == p.position then Copying(p.record, p.position, 0)
                             else Looking(p.record, p.attempt + 1, observed, p.start)
      ensures Claimed(old(owners), owners, t, if observed == old(ring.producers[t].position) then Some(observed) else None)
    {
      assert ProducerOk(ring, ring.producers[t]);
      observed := ring.enqueue;
      Perform(CompareExchange(t));
    }

    // The tail of a won compare-exchange: fill the slot, then make it visible.
    method CopyAndPublish(t: nat, record: Record, position: int)
      requires Valid() && t < |ring.producers| && ring.producers[t] == Copying(record, position, 0)
      modifies this
      ensures Valid() && Progress(old(ring), ring)
      ensures t < |ring.producers| && ring.producers[t].Idle?
      ensures 0 <= position < |ring.claims| && ring.claims[position] == record
      ensures ring.slots[Index(position, ring.capacity)] == Slot(position + 1, record)
      ensures Claimed(old(owners), owners, t, None)
    {
      assert ProducerOk(ring, ring.producers[t]);
      var word := 0;
      while word < ring.width
        invariant 0 <= word <= ring.width
        invariant Valid() && Progress(old(ring), ring) && t < |ring.producers|
        invariant ring.producers[t] == Copying(record, position, word)
        invariant Claimed(old(owners), owners, t, None)
      {
        Interfere(Thread(t));
        assert ProducerOk(ring, ring.producers[t]);
        Perform(CopyWord(t));
        word := word + 1;
      }
      Interfere(Thread(t));
      assert ProducerOk(ring, ring.producers[t]);
      Perform(PublishSlot(t));
    }

    // True exactly when the head slot was published; then `output` is the record claimed under the
    // head ticket, whole, and the ring hands out the next ticket from now on.
    method DequeueRecord() returns (taken: bool, output: Record)
      requires Valid() && ring.reading == None
      modifies this
      ensures Valid() && Progress(old(ring), ring) && ring.reading == None
      ensures taken ==> 0 <= old(ring.dequeue) < |ring.claims|
                        && ring.dequeue == old(ring.dequeue) + 1
                        && output == ring.claims[old(ring.dequeue)]
                        && ring.out == old(ring.out) + [output]
      ensures !taken ==> ring.dequeue == old(ring.dequeue) && ring.out == old(ring.out)
      ensures HeadReady(old(ring)) ==> taken
    {
      InterfereBeforeHead();
      var sequence := ring.slots[Index(ring.dequeue, ring.capacity)].sequence;
      Perform(LoadHead);
      if sequence - (ring.dequeue + 1) != 0 {
        return false, [];
      }
      output := [];
      while |output| < ring.width
        invariant |output| <= ring.width && ring.reading == Some(output)
        invariant Valid() && Progress(old(ring), ring)
        invariant ring.dequeue == old(ring.dequeue) && ring.out == old(ring.out)
        decreases ring.width - |output|
      {
        Interfere(WriterThread);
        output := output + [ring.slots[Index(ring.dequeue, ring.capacity)].words[|output|]];
        Perform(ReadWord);
      }
      Interfere(WriterThread);
      assert output == ring.claims[ring.dequeue];
      Perform(ReleaseSlot);
      return true, output;
    }

    // Interference before the head is looked at: a published head stays published.
    method InterfereBeforeHead()
      requires Valid()
      modifies this
      ensures Valid() && Progress(old(ring), ring) && Private(old(ring), ring, WriterThread)
      ensures HeadReady(old(ring)) ==> HeadReady(ring)
    {
      var rounds: nat := *;
      while rounds > 0
        invariant Valid() && Progress(old(ring), ring) && Private(old(ring), ring, WriterThread)
        invariant HeadReady(old(ring)) ==> HeadReady(ring)
      {
        var a: Action := *;
        if Enabled(ring, a) && ActorOf(a) != WriterThread {
          StepProgress(ring, a, WriterThread);
          if HeadReady(ring) {
            HeadStays(ring, a);
          }
          Perform(a);
        }
        rounds := rounds - 1;
      }
    }
  }

  lemma HeadStays(r: Ring, a: Action)
    requires Inv(r) && Enabled(r, a) && ActorOf(a) != WriterThread && HeadReady(r)
    ensures HeadReady(Next(r, a))
  {
    if a.CopyWord? || a.PublishSlot? {
      assert ProducerOk(r, r.producers[a.t]);
      assert TicketOk(r, r.dequeue);
      OwnersApart(r, a.t, r.dequeue);
    }
  }
}
