// The bounded multi-producer/single-consumer record ring of render_trace.cpp.
//
// Every atomic load, compare-exchange and store is one step, and a record is copied word by
// word, so any other thread may run between two words. Positions are unbounded integers;
// `DifferencesFit32` says when that agrees with the program's 32-bit LONGs.
module TraceRing {
  import opened Wrappers
  import opened Division

  // The words of one trace record.
  type Record = seq<int>

  const MAX_ATTEMPTS := 8

  datatype Slot = Slot(sequence: int, words: Record)

  // Where one thread is inside EnqueueRecord. `start` and `full` are history: the enqueue
  // position this call first loaded, and whether the ring was full when `sequence` was loaded.
  datatype Producer =
    | Idle
    | Starting(record: Record)
    | Looking(record: Record, attempt: nat, position: int, start: int)
    | Deciding(record: Record, attempt: nat, position: int, start: int, sequence: int, full: bool)
    | Copying(record: Record, ticket: int, copied: nat)

  // `reading` is the writer thread inside DequeueRecord: the words it has copied out so far.
  // `calls`, `claims` and `out` are history: the calls made so far, the record written under
  // each ticket, and the records handed to the writer, in order.
  datatype Ring = Ring(
    capacity: nat,
    width: nat,
    enqueue: int,
    dequeue: int,
    dropped: nat,
    slots: seq<Slot>,
    producers: seq<Producer>,
    reading: Option<Record>,
    calls: nat,
    claims: seq<Record>,
    out: seq<Record>)

  datatype Action =
    | Call(t: nat, record: Record)
    | LoadPosition(t: nat)
    | LoadSequence(t: nat)
    | CompareExchange(t: nat)
    | DropFull(t: nat)
    | Reload(t: nat)
    | DropExhausted(t: nat)
    | CopyWord(t: nat)
    | PublishSlot(t: nat)
    | LoadHead
    | ReadWord
    | ReleaseSlot

  // `position & kRingMask`, for any capacity.
  function Index(position: int, capacity: nat): (i: nat)
    requires capacity > 0
    ensures i < capacity
  {
    position % capacity
  }

  predicate WellFormed(r: Ring) {
    && r.capacity >= 2
    && |r.slots| == r.capacity
    && (forall i :: 0 <= i < |r.slots| ==> |r.slots[i].words| == r.width)
  }

  // The ring as InitializeQueue leaves it; the record words may hold anything.
  predicate Init(r: Ring) {
    && WellFormed(r)
    && r.enqueue == r.dequeue == 0
    && r.dropped == 0
    && (forall i :: 0 <= i < |r.slots| ==> r.slots[i].sequence == i)
    && (forall t :: 0 <= t < |r.producers| ==> r.producers[t] == Idle)
    && r.reading == None
    && r.calls == 0
    && r.claims == []
    && r.out == []
  }

  predicate Enabled(r: Ring, a: Action) {
    && WellFormed(r)
    && match a
       case Call(t, record) => t < |r.producers| && r.producers[t].Idle? && |record| == r.width
       case LoadPosition(t) => t < |r.producers| && r.producers[t].Starting?
       case LoadSequence(t) => t < |r.producers| && r.producers[t].Looking? && r.producers[t].attempt < MAX_ATTEMPTS
       case CompareExchange(t) =>
         t < |r.producers| && r.producers[t].Deciding? && r.producers[t].sequence - r.producers[t].position == 0
       case DropFull(t) =>
         t < |r.producers| && r.producers[t].Deciding? && r.producers[t].sequence - r.producers[t].position < 0
       case Reload(t) =>
         t < |r.producers| && r.producers[t].Deciding? && r.producers[t].sequence - r.producers[t].position > 0
       case DropExhausted(t) =>
         t < |r.producers| && r.producers[t].Looking? && r.producers[t].attempt == MAX_ATTEMPTS
       case CopyWord(t) =>
         t < |r.producers| && r.producers[t].Copying? && r.producers[t].copied < r.width
         && |r.producers[t].record| == r.width
       case PublishSlot(t) => t < |r.producers| && r.producers[t].Copying? && r.producers[t].copied == r.width
       case LoadHead => r.reading == None
       case ReadWord => r.reading.Some? && |r.reading.value| < r.width
       case ReleaseSlot => r.reading.Some? && |r.reading.value| == r.width
  }

  function SetProducer(r: Ring, t: nat, p: Producer): Ring
    requires t < |r.producers|
  {
    r.(producers := r.producers[t := p])
  }

  function Next(r: Ring, a: Action): Ring
    requires Enabled(r, a)
  {
    match a
    case Call(t, record) =>
      SetProducer(r, t, Starting(record)).(calls := r.calls + 1)
    case LoadPosition(t) =>
      SetProducer(r, t, Looking(r.producers[t].record, 0, r.enqueue, r.enqueue))
    case LoadSequence(t) =>
      var p := r.producers[t];
      SetProducer(r, t, Deciding(p.record, p.attempt, p.position, p.start,
                                 r.slots[Index(p.position, r.capacity)].sequence,
                                 r.enqueue - r.dequeue == r.capacity))
    case CompareExchange(t) =>
      var p := r.producers[t];
      if r.enqueue == p.position then
        SetProducer(r, t, Copying(p.record, p.position, 0))
        .(enqueue := p.position + 1, claims := r.claims + [p.record])
      else
        SetProducer(r, t, Looking(p.record, p.attempt + 1, r.enqueue, p.start))
    case DropFull(t) =>
      SetProducer(r, t, Idle).(dropped := r.dropped + 1)
    case Reload(t) =>
      var p := r.producers[t];
      SetProducer(r, t, Looking(p.record, p.attempt + 1, r.enqueue, p.start))
    case DropExhausted(t) =>
      SetProducer(r, t, Idle).(dropped := r.dropped + 1)
    case CopyWord(t) =>
      var p := r.producers[t];
      var i := Index(p.ticket, r.capacity);
      var slot := r.slots[i];
      SetProducer(r, t, p.(copied := p.copied + 1))
      .(slots := r.slots[i := slot.(words := slot.words[p.copied := p.record[p.copied]])])
    case PublishSlot(t) =>
      var p := r.producers[t];
      var i := Index(p.ticket, r.capacity);
      SetProducer(r, t, Idle).(slots := r.slots[i := r.slots[i].(sequence := p.ticket + 1)])
    case LoadHead =>
      if HeadReady(r) then r.(reading := Some([])) else r
    case ReadWord =>
      var buffer := r.reading.value;
      r.(reading := Some(buffer + [r.slots[Index(r.dequeue, r.capacity)].words[|buffer|]]))
    case ReleaseSlot =>
      var i := Index(r.dequeue, r.capacity);
      r.(slots := r.slots[i := r.slots[i].(sequence := r.dequeue + r.capacity)],
         dequeue := r.dequeue + 1,
         reading := None,
         out := r.out + [r.reading.value])
  }

  // The test DequeueRecord makes before it touches the record.
  predicate HeadReady(r: Ring)
    requires WellFormed(r)
  {
    r.slots[Index(r.dequeue, r.capacity)].sequence - (r.dequeue + 1) == 0
  }

  // ---------------------------------------------------------------------------
  // The inductive invariant.

  predicate Shape(r: Ring) {
    && WellFormed(r)
    && 0 <= r.dequeue <= r.enqueue <= r.dequeue + r.capacity
    && |r.claims| == r.enqueue
    && (forall k :: 0 <= k < |r.claims| ==> |r.claims[k]| == r.width)
    && r.out == r.claims[..r.dequeue]
  }

  predicate IsWriter(p: Producer, k: int) {
    p.Copying? && p.ticket == k
  }

  predicate HasWriter(r: Ring, k: int) {
    exists t :: 0 <= t < |r.producers| && IsWriter(r.producers[t], k)
  }

  // The slot of ticket k, for k in the window [dequeue, dequeue + capacity): free, being
  // written by the thread that owns the ticket, or published with exactly its record.
  predicate TicketOk(r: Ring, k: int)
    requires Shape(r) && r.dequeue <= k < r.dequeue + r.capacity
  {
    var slot := r.slots[Index(k, r.capacity)];
    if k >= r.enqueue then slot.sequence == k
    else
      || (slot.sequence == k + 1 && slot.words == r.claims[k])
      || (slot.sequence == k && HasWriter(r, k))
  }

  predicate ProducerOk(r: Ring, p: Producer)
    requires Shape(r)
  {
    match p
    case Idle => true
    case Starting(record) => |record| == r.width
    case Looking(record, attempt, position, start) =>
      && |record| == r.width
      && attempt <= MAX_ATTEMPTS
      && 0 <= start && start + attempt <= position <= r.enqueue
    case Deciding(record, attempt, position, start, sequence, full) =>
      && |record| == r.width
      && attempt < MAX_ATTEMPTS
      && 0 <= start && start + attempt <= position <= r.enqueue
      && (sequence == position ==> position < r.dequeue + r.capacity)
      && (sequence > position ==> position < r.enqueue)
      && (sequence < position ==> full)
    case Copying(record, ticket, copied) =>
      && r.dequeue <= ticket < r.enqueue
      && record == r.claims[ticket]
      && copied <= r.width
      && var slot := r.slots[Index(ticket, r.capacity)];
      && slot.sequence == ticket
      && slot.words[..copied] == record[..copied]
  }

  predicate ReaderOk(r: Ring)
    requires Shape(r)
  {
    r.reading.Some? ==>
      && r.dequeue < r.enqueue
      && HeadReady(r)
      && |r.reading.value| <= r.width
      && r.reading.value == r.claims[r.dequeue][..|r.reading.value|]
  }

  predicate TicketsUnique(r: Ring) {
    forall t, u :: 0 <= t < u < |r.producers| && r.producers[t].Copying? && r.producers[u].Copying?
      ==> r.producers[t].ticket != r.producers[u].ticket
  }

  predicate Inv(r: Ring) {
    && Shape(r)
    && (forall k :: r.dequeue <= k < r.dequeue + r.capacity ==> TicketOk(r, k))
    && (forall t :: 0 <= t < |r.producers| ==> ProducerOk(r, r.producers[t]))
    && ReaderOk(r)
    && TicketsUnique(r)
  }

  // ---------------------------------------------------------------------------
  // Arithmetic of the window.

  // Two tickets less than one lap apart never share a slot.
  lemma IndexInjective(a: int, b: int, capacity: nat)
    requires capacity > 0
    requires Index(a, capacity) == Index(b, capacity)
    requires a - b < capacity && b - a < capacity
    ensures a == b
  {
    var qa, qb := a / capacity, b / capacity;
    assert a == qa * capacity + a % capacity;
    assert b == qb * capacity + b % capacity;
    assert (qa - qb) * capacity == qa * capacity - qb * capacity;
    if qa != qb {
      MultipleIsFar(qa - qb, capacity);
    }
  }

  lemma IndexNextLap(k: int, capacity: nat)
    requires capacity > 0
    ensures Index(k + capacity, capacity) == Index(k, capacity)
  {
    var q := k / capacity;
    assert k == q * capacity + k % capacity;
    assert (q + 1) * capacity == q * capacity + capacity;
    DivisionUnique(k + capacity, capacity, q + 1, k % capacity);
  }

  // Every slot serves some ticket of the window.
  lemma TicketOfSlot(position: int, dequeue: int, capacity: nat) returns (k: int)
    requires capacity > 0
    ensures dequeue <= k < dequeue + capacity
    ensures Index(k, capacity) == Index(position, capacity)
  {
    var gap := position - dequeue;
    k := dequeue + gap % capacity;
    var laps := gap / capacity;
    var q := position / capacity;
    assert gap == laps * capacity + gap % capacity;
    assert position == q * capacity + position % capacity;
    assert (q - laps) * capacity == q * capacity - laps * capacity;
    DivisionUnique(k, capacity, q - laps, position % capacity);
  }
}
