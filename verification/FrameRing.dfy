// The per-eye frame ring of frame_ring.cpp: what each call on StereoFrameRing may do to the ring.
// The ring has any number of slots per eye; the source has three. The mutex makes a call atomic,
// so a run of the host is a sequence of calls.
module FrameRing {
  import opened Words
  import opened Wrappers

  // An eye is the number behind the enumeration; a caller may pass one that is out of range.
  const Left := 0
  const Right := 1

  predicate ValidEye(eye: nat) { eye == Left || eye == Right }

  datatype Texture = Texture(handle: u64, format: nat, width: nat, height: nat) {
    predicate Valid() { handle != 0 && format != 0 && width != 0 && height != 0 }
    predicate Empty() { handle == 0 && format == 0 && width == 0 && height == 0 }
    predicate SameExtent(other: Texture) { width == other.width && height == other.height }
  }

  const NoTexture := Texture(0, 0, 0, 0)

  // `view` stands for the pose and field of view, which the ring only carries.
  datatype Frame = Frame(
    eye: nat, id: u64, generation: u64, displayTime: int, fenceHandle: u64, fenceValue: u64,
    color: Texture, depth: Texture, motion: Texture, view: nat)

  function NoFrame(eye: nat): Frame {
    Frame(eye, 0, 0, 0, 0, 0, NoTexture, NoTexture, NoTexture, 0)
  }

  datatype State = Free | ProducerOwned | Ready | ConsumerOwned | ConsumerPending

  datatype Slot = Slot(
    state: State, eye: nat, lease: nat, expectedId: u64, expectedGeneration: u64,
    consumerFence: u64, frame: Frame)

  function NewSlot(eye: nat): Slot { Slot(Free, eye, 0, 0, 0, 0, NoFrame(eye)) }

  datatype Lease = Lease(eye: nat, slot: nat, id: nat)

  // One half of a stereo pair: the frame, its slot and the lease it was published under.
  datatype Half = Half(frame: Frame, slot: nat, lease: nat)

  datatype Pair = Pair(left: Half, right: Half) {
    function Of(eye: nat): Half { if eye == Left then left else right }
  }

  datatype Stats = Stats(
    published: nat, acquiredPairs: nat, retired: nat, dropped: nat, cancelled: nat, rejected: nat)

  // `granted` and `wiped` are not kept by the source: leases handed out, and ready frames that a
  // reset threw away. Lease numbers are unbounded here.
  datatype Ring = Ring(
    slots: seq<seq<Slot>>, next: seq<nat>, nextLease: nat, generation: u64,
    lastAcquired: u64, hasAcquired: bool, stats: Stats, granted: nat, wiped: nat)

  datatype Event =
    | Begin(eye: nat, id: u64, generation: u64, granted: Option<Lease>)
    | Publish(lease: Lease, frame: Frame, accepted: bool)
    | Cancel(lease: Lease, accepted: bool)
    | Acquire(pair: Option<Pair>)
    | Release(held: Pair, fence: u64, accepted: bool)
    | Retire(completed: u64)
    | Reset(renewed: u64, accepted: bool)

  ghost predicate WellFormed(r: Ring) {
    && |r.slots| == 2 && |r.slots[Left]| == |r.slots[Right]| > 0
    && |r.next| == 2 && r.next[Left] < |r.slots[Left]| && r.next[Right] < |r.slots[Right]|
  }

  ghost predicate Init(r: Ring, capacity: nat) {
    && capacity > 0
    && r == Ring([NewRow(Left, capacity), NewRow(Right, capacity)], [0, 0], 1, 0, 0, false,
                 Stats(0, 0, 0, 0, 0, 0), 0, 0)
  }

  function NewRow(eye: nat, capacity: nat): seq<Slot> { seq(capacity, _ => NewSlot(eye)) }

  function Set(r: Ring, eye: nat, i: nat, slot: Slot): Ring
    requires eye < |r.slots| && i < |r.slots[eye]|
  {
    r.(slots := r.slots[eye := r.slots[eye][i := slot]])
  }

  function Rejected(r: Ring): Ring { r.(stats := r.stats.(rejected := r.stats.rejected + 1)) }

  function Count(row: seq<Slot>, p: Slot -> bool): nat {
    if row == [] then 0 else Count(row[..|row| - 1], p) + if p(row[|row| - 1]) then 1 else 0
  }

  function In(state: State): Slot -> bool { (slot: Slot) => slot.state == state }

  function Total(r: Ring, state: State): nat
    requires |r.slots| == 2
  {
    Count(r.slots[Left], In(state)) + Count(r.slots[Right], In(state))
  }

  // ---- begin_produce

  predicate Stealable(slot: Slot) { slot.state == Ready && slot.frame.id < MaxU64 }

  ghost predicate HasFree(row: seq<Slot>) { exists i :: 0 <= i < |row| && row[i].state == Free }

  ghost predicate HasStealable(row: seq<Slot>) { exists i :: 0 <= i < |row| && Stealable(row[i]) }

  // The first free slot at or after `start`, going round.
  ghost predicate FirstFree(row: seq<Slot>, start: nat, i: nat) {
    && i < |row| && row[i].state == Free
    && exists offset: nat :: Around(row, start, offset) == i && NoneFree(row, start, offset)
  }

  function Around(row: seq<Slot>, start: nat, offset: nat): nat {
    if |row| == 0 then 0 else (start + offset) % |row|
  }

  ghost predicate NoneFree(row: seq<Slot>, start: nat, offset: nat) {
    forall before: nat :: before < offset && Around(row, start, before) < |row| ==>
      row[Around(row, start, before)].state != Free
  }

  // The ready slot with the oldest frame, the first one of them.
  ghost predicate OldestReady(row: seq<Slot>, i: nat) {
    && i < |row| && Stealable(row[i])
    && forall k :: 0 <= k < |row| && Stealable(row[k]) ==>
         row[i].frame.id < row[k].frame.id || (row[i].frame.id == row[k].frame.id && i <= k)
  }

  ghost predicate Picks(r: Ring, eye: nat, i: nat)
    requires WellFormed(r) && ValidEye(eye)
  {
    if HasFree(r.slots[eye]) then FirstFree(r.slots[eye], r.next[eye], i) else OldestReady(r.slots[eye], i)
  }

  function Granted(r: Ring, eye: nat, i: nat, id: u64): Ring
    requires eye < |r.slots| && i < |r.slots[eye]| && eye < |r.next|
  {
    var stolen := r.slots[eye][i].state == Ready;
    Set(r, eye, i, Slot(ProducerOwned, r.slots[eye][i].eye, r.nextLease, id, r.generation, 0, NoFrame(eye)))
    .(next := r.next[eye := (i + 1) % |r.slots[eye]|],
      nextLease := r.nextLease + 1,
      stats := r.stats.(dropped := r.stats.dropped + if stolen then 1 else 0),
      granted := r.granted + 1)
  }

  ghost predicate BeginStep(r: Ring, eye: nat, id: u64, generation: u64, granted: Option<Lease>, r': Ring)
    requires WellFormed(r)
  {
    if !ValidEye(eye) || id == 0 || generation == 0 || (r.generation != 0 && generation != r.generation) then
      granted == None && r' == Rejected(r)
    else
      // The first call settles the generation, even when it is refused further on.
      var g := r.(generation := generation);
      if (g.hasAcquired && id <= g.lastAcquired) || !(HasFree(g.slots[eye]) || HasStealable(g.slots[eye])) then
        granted == None && r' == Rejected(g)
      else
        && granted.Some? && granted.value == Lease(eye, granted.value.slot, r.nextLease)
        && granted.value.slot < |g.slots[eye]| && Picks(g, eye, granted.value.slot)
        && r' == Granted(g, eye, granted.value.slot, id)
  }

  // ---- publish and cancel_produce

  // The lease still owns its slot.
  predicate Open(r: Ring, lease: Lease)
    requires |r.slots| == 2
  {
    && ValidEye(lease.eye) && lease.slot < |r.slots[lease.eye]|
    && r.slots[lease.eye][lease.slot].lease == lease.id
    && r.slots[lease.eye][lease.slot].state == ProducerOwned
  }

  predicate OptionalTexture(texture: Texture, color: Texture) {
    (texture.Valid() && texture.SameExtent(color)) || texture.Empty()
  }

  // A frame the consumer can use.
  predicate Usable(frame: Frame) {
    && ValidEye(frame.eye) && frame.displayTime > 0 && frame.color.Valid()
    && frame.fenceHandle != 0 && frame.fenceValue != 0
    && OptionalTexture(frame.depth, frame.color) && OptionalTexture(frame.motion, frame.color)
  }

  // The frame is the one the lease was taken for.
  predicate Expected(r: Ring, lease: Lease, frame: Frame)
    requires |r.slots| == 2 && Open(r, lease)
  {
    var slot := r.slots[lease.eye][lease.slot];
    && frame.eye == lease.eye && frame.eye == slot.eye && frame.id == slot.expectedId
    && frame.generation == slot.expectedGeneration && frame.generation == r.generation
  }

  function Published(r: Ring, lease: Lease, frame: Frame): Ring
    requires |r.slots| == 2 && Open(r, lease)
  {
    Set(r, lease.eye, lease.slot, r.slots[lease.eye][lease.slot].(frame := frame, state := Ready))
    .(stats := r.stats.(published := r.stats.published + 1))
  }

  function Abandoned(r: Ring, lease: Lease): Ring
    requires |r.slots| == 2 && Open(r, lease)
  {
    var slot := r.slots[lease.eye][lease.slot];
    Set(r, lease.eye, lease.slot, Slot(Free, slot.eye, slot.lease, 0, 0, 0, NoFrame(slot.eye)))
    .(stats := r.stats.(cancelled := r.stats.cancelled + 1))
  }

  // A frame that is refused costs the producer its lease.
  ghost predicate PublishStep(r: Ring, lease: Lease, frame: Frame, accepted: bool, r': Ring)
    requires WellFormed(r)
  {
    && (accepted <==> Open(r, lease) && Expected(r, lease, frame) && Usable(frame))
    && r' == if accepted then Published(r, lease, frame)
             else if Open(r, lease) then Rejected(Abandoned(r, lease))
             else Rejected(r)
  }

  ghost predicate CancelStep(r: Ring, lease: Lease, accepted: bool, r': Ring)
    requires WellFormed(r)
  {
    && (accepted <==> Open(r, lease))
    && r' == if accepted then Abandoned(r, lease) else Rejected(r)
  }

  // ---- acquire_latest_complete_pair

  predicate SameLayout(left: Texture, right: Texture) {
    (left.Valid() <==> right.Valid()) &&
    (left.Valid() ==> left.SameExtent(right) && left.format == right.format)
  }

  predicate FormCompletePair(left: Frame, right: Frame) {
    && left.eye == Left && right.eye == Right && left.id == right.id
    && left.generation == right.generation && left.displayTime == right.displayTime
    && left.color.Valid() && right.color.Valid() && SameLayout(left.color, right.color)
    && SameLayout(left.depth, right.depth) && SameLayout(left.motion, right.motion)
    && left.fenceHandle != 0 && right.fenceHandle != 0 && left.fenceValue != 0 && right.fenceValue != 0
  }

  predicate Matching(r: Ring, i: nat, j: nat)
    requires |r.slots| == 2
  {
    && i < |r.slots[Left]| && j < |r.slots[Right]|
    && r.slots[Left][i].state == Ready && r.slots[Right][j].state == Ready
    && FormCompletePair(r.slots[Left][i].frame, r.slots[Right][j].frame)
    && r.slots[Left][i].frame.generation == r.generation
  }

  // Slots i and j hold the newest complete pair: the first one when several share the frame id.
  ghost predicate Newest(r: Ring, i: nat, j: nat)
    requires |r.slots| == 2
  {
    && Matching(r, i, j)
    && forall i': nat, j': nat :: Matching(r, i', j') ==>
         r.slots[Left][i'].frame.id < r.slots[Left][i].frame.id
         || (r.slots[Left][i'].frame.id == r.slots[Left][i].frame.id && (i < i' || (i == i' && j <= j')))
  }

  predicate OlderThan(frame: Frame, generation: u64, id: u64) {
    frame.generation < generation || (frame.generation == generation && frame.id < id)
  }

  function Older(generation: u64, id: u64): Slot -> bool {
    (slot: Slot) => slot.state == Ready && OlderThan(slot.frame, generation, id)
  }

  function Discarded(row: seq<Slot>, generation: u64, id: u64): (kept: seq<Slot>) {
    seq(|row|, i requires 0 <= i < |row| =>
      if Older(generation, id)(row[i]) then row[i].(state := Free) else row[i])
  }

  function HalfAt(r: Ring, eye: nat, i: nat): Half
    requires eye < |r.slots| && i < |r.slots[eye]|
  {
    Half(r.slots[eye][i].frame, i, r.slots[eye][i].lease)
  }

  function Owned(row: seq<Slot>, i: nat): seq<Slot>
    requires i < |row|
  {
    row[i := row[i].(state := ConsumerOwned)]
  }

  function Acquired(r: Ring, i: nat, j: nat): Ring
    requires |r.slots| == 2 && Matching(r, i, j)
  {
    var frame := r.slots[Left][i].frame;
    var lefts, rights := Owned(r.slots[Left], i), Owned(r.slots[Right], j);
    var older := Older(frame.generation, frame.id);
    r.(slots := [Discarded(lefts, frame.generation, frame.id), Discarded(rights, frame.generation, frame.id)],
       lastAcquired := frame.id, hasAcquired := true,
       stats := r.stats.(acquiredPairs := r.stats.acquiredPairs + 1,
                         dropped := r.stats.dropped + Count(lefts, older) + Count(rights, older)))
  }

  ghost predicate AcquireStep(r: Ring, pair: Option<Pair>, r': Ring)
    requires WellFormed(r)
  {
    match pair
    case None => r' == r && forall i: nat, j: nat :: !Matching(r, i, j)
    case Some(p) =>
      && Newest(r, p.left.slot, p.right.slot)
      && p == Pair(HalfAt(r, Left, p.left.slot), HalfAt(r, Right, p.right.slot))
      && r' == Acquired(r, p.left.slot, p.right.slot)
  }

  // ---- release_pair, retire_completed and reset

  predicate Owns(r: Ring, eye: nat, half: Half)
    requires |r.slots| == 2 && ValidEye(eye)
  {
    && half.slot < |r.slots[eye]|
    && var slot := r.slots[eye][half.slot];
       && slot.state == ConsumerOwned && slot.eye == eye && slot.frame.eye == eye && slot.lease == half.lease
       && slot.frame.id == half.frame.id && slot.frame.generation == half.frame.generation
  }

  function Pended(row: seq<Slot>, i: nat, fence: u64): seq<Slot>
    requires i < |row|
  {
    row[i := row[i].(consumerFence := fence, state := ConsumerPending)]
  }

  ghost predicate ReleaseStep(r: Ring, held: Pair, fence: u64, accepted: bool, r': Ring)
    requires WellFormed(r)
  {
    && (accepted <==> fence != 0 && Owns(r, Left, held.left) && Owns(r, Right, held.right))
    && r' == if accepted then r.(slots := [Pended(r.slots[Left], held.left.slot, fence),
                                           Pended(r.slots[Right], held.right.slot, fence)])
             else Rejected(r)
  }

  function Done(completed: u64): Slot -> bool {
    (slot: Slot) => slot.state == ConsumerPending && slot.consumerFence <= completed
  }

  function RetiredRow(row: seq<Slot>, completed: u64): (kept: seq<Slot>) {
    seq(|row|, i requires 0 <= i < |row| =>
      if Done(completed)(row[i]) then row[i].(state := Free, consumerFence := 0) else row[i])
  }

  function Retired(r: Ring, completed: u64): Ring
    requires |r.slots| == 2
  {
    r.(slots := [RetiredRow(r.slots[Left], completed), RetiredRow(r.slots[Right], completed)],
       stats := r.stats.(retired := r.stats.retired + Count(r.slots[Left], Done(completed))
                                                    + Count(r.slots[Right], Done(completed))))
  }

  predicate Held(slot: Slot) {
    slot.state == ProducerOwned || slot.state == ConsumerOwned || slot.state == ConsumerPending
  }

  ghost predicate AnyHeld(r: Ring)
    requires WellFormed(r)
  {
    exists eye: nat, i: nat :: ValidEye(eye) && i < |r.slots[eye]| && Held(r.slots[eye][i])
  }

  ghost predicate ResetStep(r: Ring, renewed: u64, accepted: bool, r': Ring)
    requires WellFormed(r)
  {
    && (accepted <==> renewed != 0 && (r.generation == 0 || renewed > r.generation) && !AnyHeld(r))
    && r' == if accepted then
               r.(slots := [NewRow(Left, |r.slots[Left]|), NewRow(Right, |r.slots[Right]|)], next := [0, 0],
                  generation := renewed, lastAcquired := 0, hasAcquired := false,
                  wiped := r.wiped + Total(r, Ready))
             else Rejected(r)
  }

  ghost predicate Step(r: Ring, event: Event, r': Ring)
    requires WellFormed(r)
  {
    match event
    case Begin(eye, id, generation, granted) => BeginStep(r, eye, id, generation, granted, r')
    case Publish(lease, frame, accepted) => PublishStep(r, lease, frame, accepted, r')
    case Cancel(lease, accepted) => CancelStep(r, lease, accepted, r')
    case Acquire(pair) => AcquireStep(r, pair, r')
    case Release(held, fence, accepted) => ReleaseStep(r, held, fence, accepted, r')
    case Retire(completed) => r' == Retired(r, completed)
    case Reset(renewed, accepted) => ResetStep(r, renewed, accepted, r')
  }
}
