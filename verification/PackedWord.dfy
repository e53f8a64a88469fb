/** The control word as the 32-bit number the code computes with.

    The fields lie side by side in the word. The code reads a field by shifting and
    masking, and changes fields by adding, subtracting, setting and clearing bits of
    the whole word, with additions and subtractions modulo 2^32. Each function ending
    in `Bits` repeats one transition of `frame_control.h`; each lemma proves that it
    takes the packed form of a record to the packed form of the record transition in
    `ControlWord`, so that no addition or subtraction carries into or borrows from a
    neighbouring field. */
module PackedWord {
  import opened Arithmetic
  import opened ControlWord
  import opened Types

  // Masks

  const DIRTY: nat := 0x4
  const QUEUED: nat := 0x8
  const ACTIVE: nat := 0x10
  const PREFETCHED: nat := 0x20
  const REDIRTIED: nat := 0x40
  const EXCLUSIVE: nat := 0x80
  const SHARED_ONE: nat := 0x100
  const WAITERS: nat := 0x1_0000
  const PIN_ONE: nat := 0x2_0000

  // Arithmetic of the code on words

  function State(w: nat): nat { w % 4 }

  function SharedHolders(w: nat): nat { w / 0x100 % 0x100 }

  function Pins(w: nat): nat { w / 0x2_0000 % 0x8000 }

  predicate Has(w: nat, flag: nat)
    requires flag > 0
  {
    w / flag % 2 == 1
  }

  function Add(w: int, x: int): int { if w + x < 0x1_0000_0000 then w + x else w + x - 0x1_0000_0000 }

  function Subtract(w: int, x: int): int { if x <= w then w - x else w - x + 0x1_0000_0000 }

  /** `w | flag`. */
  function With(w: nat, flag: nat): nat
    requires flag > 0
  {
    if Has(w, flag) then w else w + flag
  }

  /** `w & ~flag`. */
  function Without(w: nat, flag: nat): nat
    requires flag > 0
  {
    if Has(w, flag) && flag <= w then w - flag else w
  }

  // Transitions

  const FREE: nat := 0
  const LOADING: nat := 1
  const RESIDENT: nat := 2

  predicate WritebackBits(w: nat) { Has(w, QUEUED) || Has(w, ACTIVE) }

  predicate LatchBits(w: nat) { Has(w, EXCLUSIVE) || SharedHolders(w) != 0 }

  /** `UpdateAndWake`: the waiter bit is cleared in the same step when sleepers
      are to be woken. */
  function Woken(w: nat, next: nat, wakes: bool): nat {
    if Has(w, WAITERS) && wakes then Without(next, WAITERS) else next
  }

  function TryPinResidentBits(w: nat): Option<nat> {
    if State(w) != RESIDENT || Pins(w) == 0x7FFF then None else Some(Add(w, PIN_ONE))
  }

  function TryUnpinBits(w: nat): Option<nat> {
    if Pins(w) == 0 then None else Some(Subtract(w, PIN_ONE))
  }

  datatype ReserveBits = ReservedBits(next: nat) | NeedsFlushBits | RejectedBits

  function TryReserveBits(w: nat, poppedFromFreeList: bool): ReserveBits {
    if State(w) == LOADING then RejectedBits
    else if State(w) == FREE && !poppedFromFreeList then RejectedBits
    else if Pins(w) != 0 || LatchBits(w) || WritebackBits(w) then RejectedBits
    else if State(w) == RESIDENT && Has(w, DIRTY) then NeedsFlushBits
    else ReservedBits((if Has(w, WAITERS) then 0x1_0000 else 0) + 0x2_0000 + LOADING)
  }

  function PublishResidentBits(w: nat, releasePin: bool): nat {
    var resident := w - w % 4 + RESIDENT;
    Woken(w, if releasePin then Subtract(resident, PIN_ONE) else resident, true)
  }

  /** Keeps the waiter bit and the two latch fields. */
  function ReleaseToFreeBits(w: nat): nat {
    var latches := (if Has(w, EXCLUSIVE) then EXCLUSIVE else 0) + SharedHolders(w) * 0x100;
    Woken(w, latches + (if Has(w, WAITERS) then 0x1_0000 else 0), true)
  }

  function TryDiscardPinnedBits(w: nat): (DiscardOutcome, nat) {
    if WritebackBits(w) then (Writeback, w)
    else if State(w) != RESIDENT || Pins(w) != 1 then (Busy, w)
    else if LatchBits(w) then (LatchHeld, w)
    else (Discarded, 0)
  }

  function MarkDirtyBits(w: nat): Option<nat> {
    if State(w) != RESIDENT then None
    else Some(if WritebackBits(w) then With(With(w, DIRTY), REDIRTIED) else With(w, DIRTY))
  }

  function TryAcquireSharedBits(w: nat): Option<nat> {
    if !Has(w, EXCLUSIVE) && SharedHolders(w) < 0xFF then Some(Add(w, SHARED_ONE)) else None
  }

  function ReleaseSharedBits(w: nat): nat {
    var next := Subtract(w, SHARED_ONE);
    Woken(w, next, SharedHolders(next) == 0 || SharedHolders(w) == 0xFF)
  }

  function TryAcquireExclusiveBits(w: nat): Option<nat> {
    if LatchBits(w) then None else Some(With(w, EXCLUSIVE))
  }

  function ReleaseExclusiveBits(w: nat): nat {
    var next := Without(w, EXCLUSIVE);
    Woken(w, if WritebackBits(w) then With(next, REDIRTIED) else next, true)
  }

  datatype QueueBits = QueuedBits(next: nat) | NotDirtyBits | PendingBits | PinnedBits

  function TryQueueWritebackBits(w: nat, skipIfPinned: bool): QueueBits {
    if WritebackBits(w) then PendingBits
    else if State(w) != RESIDENT || !Has(w, DIRTY) then NotDirtyBits
    else if skipIfPinned && Pins(w) != 0 then PinnedBits
    else QueuedBits(Without(With(w, QUEUED), REDIRTIED))
  }

  function BeginWritebackBits(w: nat): nat {
    Woken(w, With(Without(w, QUEUED), ACTIVE), false)
  }

  function CancelQueuedWritebackBits(w: nat): nat {
    Woken(w, Without(Without(w, QUEUED), REDIRTIED), true)
  }

  predicate ClearsDirtyBits(w: nat, succeeded: bool) {
    succeeded && State(w) == RESIDENT && Has(w, DIRTY) && !Has(w, REDIRTIED) && !Has(w, EXCLUSIVE)
  }

  function CompleteWritebackBits(w: nat, succeeded: bool): nat {
    var next := Without(Without(Without(w, QUEUED), ACTIVE), REDIRTIED);
    Woken(w, if ClearsDirtyBits(w, succeeded) then Without(next, DIRTY) else next, true)
  }

  function SetWaitersBits(w: nat): nat {
    With(w, WAITERS)
  }

  // The layout of a record

  function StateCode(state: FrameState): nat {
    match state
    case Free => FREE
    case Loading => LOADING
    case Resident => RESIDENT
  }

  function Flag(on: bool, mask: nat): nat { if on then mask else 0 }

  /** The record's fields, each at its place in the word. */
  function Pack(r: Word): nat {
    StateCode(r.state) + Flag(r.dirty, DIRTY) + Flag(r.queued, QUEUED) + Flag(r.active, ACTIVE)
    + Flag(r.prefetched, PREFETCHED) + Flag(r.redirtied, REDIRTIED) + Flag(r.exclusive, EXCLUSIVE)
    + r.shared * 0x100 + Flag(r.waiters, WAITERS) + r.pins * 0x2_0000
  }

  /** A field of `range` values above `unit` values below it. */
  lemma ReadField(w: nat, low: nat, unit: nat, value: nat, range: nat, high: nat)
    requires low < unit && value < range && w == low + unit * (value + range * high)
    ensures w / unit % range == value
  {
    DivisionIsUnique(w / unit, w % unit, value + range * high, low, unit);
    var rest := w / unit;
    DivisionIsUnique(rest / range, rest % range, high, value, range);
  }

  // What lies below each field, and above it

  function BelowExclusive(r: Word): nat {
    StateCode(r.state) + Flag(r.dirty, DIRTY) + Flag(r.queued, QUEUED) + Flag(r.active, ACTIVE)
    + Flag(r.prefetched, PREFETCHED) + Flag(r.redirtied, REDIRTIED)
  }

  lemma Fits(r: Word)
    requires r.InRange()
    ensures Pack(r) < 0x1_0000_0000
  {
  }

  lemma ReadsState(r: Word)
    ensures State(Pack(r)) == StateCode(r.state)
  {
    var rest := Bit(r.dirty) + 2 * (Bit(r.queued) + 2 * (Bit(r.active) + 2 * (Bit(r.prefetched) + 2 * (Bit(r.redirtied)
                + 2 * (Bit(r.exclusive) + 2 * (r.shared + 0x100 * (Bit(r.waiters) + 2 * r.pins)))))));
    DivisionIsUnique(Pack(r) / 4, Pack(r) % 4, rest, StateCode(r.state), 4);
  }

  lemma ReadsPins(r: Word)
    requires r.InRange()
    ensures Pins(Pack(r)) == r.pins
  {
    ReadField(Pack(r), BelowExclusive(r) + Flag(r.exclusive, EXCLUSIVE) + r.shared * 0x100 + Flag(r.waiters, WAITERS),
      0x2_0000, r.pins, 0x8000, 0);
  }

  lemma ReadsLatches(r: Word)
    requires r.InRange()
    ensures SharedHolders(Pack(r)) == r.shared && (Has(Pack(r), EXCLUSIVE) <==> r.exclusive)
  {
    ReadField(Pack(r), BelowExclusive(r) + Flag(r.exclusive, EXCLUSIVE), 0x100, r.shared, 0x100,
      Bit(r.waiters) + 2 * r.pins);
    ReadField(Pack(r), BelowExclusive(r), EXCLUSIVE, Bit(r.exclusive), 2,
      r.shared + 0x100 * (Bit(r.waiters) + 2 * r.pins));
  }

  lemma ReadsWaiters(r: Word)
    requires r.InRange()
    ensures Has(Pack(r), WAITERS) <==> r.waiters
  {
    ReadField(Pack(r), BelowExclusive(r) + Flag(r.exclusive, EXCLUSIVE) + r.shared * 0x100, WAITERS, Bit(r.waiters), 2,
      r.pins);
  }

  /** All that lies above the flags. */
  function Upper(r: Word): nat { Bit(r.exclusive) + 2 * (r.shared + 0x100 * (Bit(r.waiters) + 2 * r.pins)) }

  lemma ReadsDirty(r: Word)
    ensures Has(Pack(r), DIRTY) <==> r.dirty
  {
    var high := Bit(r.queued) + 2 * (Bit(r.active) + 2 * (Bit(r.prefetched) + 2 * (Bit(r.redirtied) + 2 * Upper(r))));
    ReadField(Pack(r), StateCode(r.state), DIRTY, Bit(r.dirty), 2, high);
  }

  lemma ReadsWriteback(r: Word)
    ensures Has(Pack(r), QUEUED) <==> r.queued
    ensures Has(Pack(r), ACTIVE) <==> r.active
  {
    ReadsQueued(r);
    ReadsActive(r);
  }

  lemma ReadsQueued(r: Word)
    ensures Has(Pack(r), QUEUED) <==> r.queued
  {
    var high := Bit(r.active) + 2 * (Bit(r.prefetched) + 2 * (Bit(r.redirtied) + 2 * Upper(r)));
    ReadField(Pack(r), StateCode(r.state) + Flag(r.dirty, DIRTY), QUEUED, Bit(r.queued), 2, high);
  }

  lemma ReadsActive(r: Word)
    ensures Has(Pack(r), ACTIVE) <==> r.active
  {
    var high := Bit(r.prefetched) + 2 * (Bit(r.redirtied) + 2 * Upper(r));
    ReadField(Pack(r), StateCode(r.state) + Flag(r.dirty, DIRTY) + Flag(r.queued, QUEUED), ACTIVE, Bit(r.active), 2,
      high);
  }

  lemma PackSplits(r: Word)
    ensures Pack(r) == BelowExclusive(r) + 0x80 * Upper(r)
  {
  }

  lemma ReadsPrefetched(r: Word)
    ensures Has(Pack(r), PREFETCHED) <==> r.prefetched
  {
    PackSplits(r);
    PrefetchedField(Pack(r),
      StateCode(r.state) + Flag(r.dirty, DIRTY) + Flag(r.queued, QUEUED) + Flag(r.active, ACTIVE),
                    r.prefetched, r.redirtied, Upper(r));
  }

  lemma PrefetchedField(w: nat, low: nat, prefetched: bool, redirtied: bool, upper: nat)
    requires low < PREFETCHED && w == low + Flag(prefetched, PREFETCHED) + Flag(redirtied, REDIRTIED) + 0x80 * upper
    ensures Has(w, PREFETCHED) <==> prefetched
  {
    ReadField(w, low, PREFETCHED, Bit(prefetched), 2, Bit(redirtied) + 2 * upper);
  }

  lemma ReadsRedirtied(r: Word)
    ensures Has(Pack(r), REDIRTIED) <==> r.redirtied
  {
    PackSplits(r);
    RedirtiedField(Pack(r), StateCode(r.state) + Flag(r.dirty, DIRTY) + Flag(r.queued, QUEUED)
                            + Flag(r.active, ACTIVE) + Flag(r.prefetched, PREFETCHED),
                   r.redirtied, Upper(r));
  }

  lemma RedirtiedField(w: nat, low: nat, redirtied: bool, upper: nat)
    requires low < REDIRTIED && w == low + Flag(redirtied, REDIRTIED) + 0x80 * upper
    ensures Has(w, REDIRTIED) <==> redirtied
  {
    ReadField(w, low, REDIRTIED, Bit(redirtied), 2, upper);
  }

  /** Every field of the record can be read back from the packed word. */
  lemma Reads(r: Word)
    requires r.InRange()
    ensures State(Pack(r)) == StateCode(r.state) && Pins(Pack(r)) == r.pins && SharedHolders(Pack(r)) == r.shared
    ensures Has(Pack(r), DIRTY) <==> r.dirty
    ensures Has(Pack(r), QUEUED) <==> r.queued
    ensures Has(Pack(r), ACTIVE) <==> r.active
    ensures Has(Pack(r), PREFETCHED) <==> r.prefetched
    ensures Has(Pack(r), REDIRTIED) <==> r.redirtied
    ensures Has(Pack(r), EXCLUSIVE) <==> r.exclusive
    ensures Has(Pack(r), WAITERS) <==> r.waiters
    ensures Pack(r) < 0x1_0000_0000
  {
    ReadsState(r);
    ReadsPins(r);
    ReadsLatches(r);
    ReadsPrefetched(r);
    ReadsDirty(r);
    ReadsWriteback(r);
    ReadsRedirtied(r);
    ReadsWaiters(r);
    Fits(r);
  }

  /** The packed form keeps records apart. */
  lemma PackIsInjective(r: Word, r': Word)
    requires r.InRange() && r'.InRange() && Pack(r) == Pack(r')
    ensures r == r'
  {
    Reads(r);
    Reads(r');
  }

  // Setting and clearing flags

  lemma DirtyFlag(r: Word)
    ensures With(Pack(r), DIRTY) == Pack(r.(dirty := true)) && Without(Pack(r), DIRTY) == Pack(r.(dirty := false))
  {
    ReadsDirty(r);
  }

  lemma QueuedFlag(r: Word)
    ensures With(Pack(r), QUEUED) == Pack(r.(queued := true)) && Without(Pack(r), QUEUED) == Pack(r.(queued := false))
  {
    ReadsWriteback(r);
  }

  lemma ActiveFlag(r: Word)
    ensures With(Pack(r), ACTIVE) == Pack(r.(active := true)) && Without(Pack(r), ACTIVE) == Pack(r.(active := false))
  {
    ReadsWriteback(r);
  }

  lemma RedirtiedFlag(r: Word)
    ensures With(Pack(r), REDIRTIED) == Pack(r.(redirtied := true))
    ensures Without(Pack(r), REDIRTIED) == Pack(r.(redirtied := false))
  {
    ReadsRedirtied(r);
  }

  lemma ExclusiveFlag(r: Word)
    requires r.InRange()
    ensures With(Pack(r), EXCLUSIVE) == Pack(r.(exclusive := true))
    ensures Without(Pack(r), EXCLUSIVE) == Pack(r.(exclusive := false))
  {
    ReadsLatches(r);
  }

  lemma WaitersFlag(r: Word)
    requires r.InRange()
    ensures With(Pack(r), WAITERS) == Pack(r.(waiters := true))
    ensures Without(Pack(r), WAITERS) == Pack(r.(waiters := false))
  {
    ReadsWaiters(r);
  }

  lemma WokenRefines(r: Word, next: Word, wakes: bool)
    requires r.InRange() && next.InRange() && next.waiters == r.waiters
    ensures Woken(Pack(r), Pack(next), wakes) == Pack(next.(waiters := r.waiters && !wakes))
  {
    ReadsWaiters(r);
    WaitersFlag(next);
  }

  // Each transition

  lemma PinRefines(r: Word)
    requires r.InRange()
    ensures match TryPinResident(r)
            case None => TryPinResidentBits(Pack(r)) == None
            case Some(next) => next.InRange() && TryPinResidentBits(Pack(r)) == Some(Pack(next))
  {
    PinGuard(r);
    if r.state == Resident && r.pins < MAX_PINS { Fits(r.(pins := r.pins + 1)); }
  }

  lemma PinGuard(r: Word)
    requires r.InRange()
    ensures TryPinResidentBits(Pack(r)) ==
      if r.state != Resident || r.pins == MAX_PINS then None else Some(Add(Pack(r), PIN_ONE))
  {
    ReadsState(r);
    ReadsPins(r);
  }

  lemma UnpinRefines(r: Word)
    requires r.InRange()
    ensures match TryUnpin(r)
            case None => TryUnpinBits(Pack(r)) == None
            case Some(next) => next.InRange() && TryUnpinBits(Pack(r)) == Some(Pack(next))
  {
    ReadsPins(r);
  }

  lemma ReserveRefines(r: Word, popped: bool)
    requires r.InRange()
    ensures match TryReserve(r, popped)
            case Rejected => TryReserveBits(Pack(r), popped) == RejectedBits
            case NeedsFlush => TryReserveBits(Pack(r), popped) == NeedsFlushBits
            case Reserved(next) => next.InRange() && TryReserveBits(Pack(r), popped) == ReservedBits(Pack(next))
  {
    Reads(r);
  }

  /** Publishing drops the loader's pin by subtraction, so the caller must hold one. */
  lemma PublishRefines(r: Word, releasePin: bool)
    requires r.InRange() && (releasePin ==> r.pins > 0)
    ensures PublishResident(r, releasePin).InRange()
    ensures PublishResidentBits(Pack(r), releasePin) == Pack(PublishResident(r, releasePin))
  {
    var next := r.(state := Resident, pins := if releasePin then r.pins - 1 else r.pins);
    PublishPacks(r, releasePin);
    WokenRefines(r, next, true);
  }

  lemma PublishPacks(r: Word, releasePin: bool)
    requires r.InRange() && (releasePin ==> r.pins > 0)
    ensures var resident := Pack(r) - Pack(r) % 4 + RESIDENT;
      (if releasePin then Subtract(resident, PIN_ONE) else resident)
      == Pack(r.(state := Resident, pins := if releasePin then r.pins - 1 else r.pins))
  {
    ReadsState(r);
    assert Pack(r) - StateCode(r.state) + RESIDENT == Pack(r.(state := Resident));
  }

  lemma ReleaseToFreeRefines(r: Word)
    requires r.InRange()
    ensures ReleaseToFree(r).InRange()
    ensures ReleaseToFreeBits(Pack(r)) == Pack(ReleaseToFree(r))
  {
    ReadsLatches(r);
    ReadsWaiters(r);
    WokenRefines(r, ReleaseToFree(r).(waiters := r.waiters), true);
  }

  lemma DiscardRefines(r: Word)
    requires r.InRange()
    ensures TryDiscardPinnedBits(Pack(r)).0 == TryDiscardPinned(r)
    ensures TryDiscardPinned(r) == Discarded ==> TryDiscardPinnedBits(Pack(r)).1 == Pack(EMPTY_WORD)
  {
    Reads(r);
  }

  lemma MarkDirtyRefines(r: Word)
    requires r.InRange()
    ensures match MarkDirty(r)
            case None => MarkDirtyBits(Pack(r)) == None
            case Some(next) => next.InRange() && MarkDirtyBits(Pack(r)) == Some(Pack(next))
  {
    ReadsState(r);
    ReadsWriteback(r);
    DirtyFlag(r);
    RedirtiedFlag(r.(dirty := true));
  }

  lemma AcquireSharedRefines(r: Word)
    requires r.InRange()
    ensures match TryAcquireShared(r)
            case None => TryAcquireSharedBits(Pack(r)) == None
            case Some(next) => next.InRange() && TryAcquireSharedBits(Pack(r)) == Some(Pack(next))
  {
    ReadsLatches(r);
    if !r.exclusive && r.shared < MAX_SHARED { Fits(r.(shared := r.shared + 1)); }
  }

  /** Releasing subtracts without a check, so the caller must hold the latch. */
  lemma ReleaseSharedRefines(r: Word)
    requires r.InRange() && r.shared > 0
    ensures ReleaseShared(r).InRange()
    ensures ReleaseSharedBits(Pack(r)) == Pack(ReleaseShared(r))
  {
    var wakes, next := r.shared == 1 || r.shared == MAX_SHARED, r.(shared := r.shared - 1);
    ReleaseWakes(r);
    WokenRefines(r, next, wakes);
    assert next.(waiters := r.waiters && !wakes) == ReleaseShared(r);
  }

  lemma ReleaseWakes(r: Word)
    requires r.InRange() && r.shared > 0
    ensures ReleaseSharedBits(Pack(r)) ==
      Woken(Pack(r), Pack(r.(shared := r.shared - 1)), r.shared == 1 || r.shared == MAX_SHARED)
  {
    ReadsLatches(r);
    ReadsLatches(r.(shared := r.shared - 1));
  }

  lemma AcquireExclusiveRefines(r: Word)
    requires r.InRange()
    ensures match TryAcquireExclusive(r)
            case None => TryAcquireExclusiveBits(Pack(r)) == None
            case Some(next) => next.InRange() && TryAcquireExclusiveBits(Pack(r)) == Some(Pack(next))
  {
    ReadsLatches(r);
    ExclusiveFlag(r);
  }

  lemma ReleaseExclusiveRefines(r: Word)
    requires r.InRange()
    ensures ReleaseExclusive(r).InRange()
    ensures ReleaseExclusiveBits(Pack(r)) == Pack(ReleaseExclusive(r))
  {
    ReadsWriteback(r);
    var next := r.(exclusive := false);
    ExclusiveFlag(r);
    RedirtiedFlag(next);
    WokenRefines(r, ReleaseExclusive(r).(waiters := r.waiters), true);
  }

  lemma QueueRefines(r: Word, skipIfPinned: bool)
    requires r.InRange()
    ensures match TryQueueWriteback(r, skipIfPinned)
            case Pending => TryQueueWritebackBits(Pack(r), skipIfPinned) == PendingBits
            case NotDirty => TryQueueWritebackBits(Pack(r), skipIfPinned) == NotDirtyBits
            case Pinned => TryQueueWritebackBits(Pack(r), skipIfPinned) == PinnedBits
            case Queued(next) =>
              next.InRange() && TryQueueWritebackBits(Pack(r), skipIfPinned) == QueuedBits(Pack(next))
  {
    Reads(r);
    var queued := r.(queued := true);
    QueuedFlag(r);
    RedirtiedFlag(queued);
  }

  lemma BeginRefines(r: Word)
    requires r.InRange()
    ensures BeginWriteback(r).InRange()
    ensures BeginWritebackBits(Pack(r)) == Pack(BeginWriteback(r))
  {
    QueuedFlag(r);
    ActiveFlag(r.(queued := false));
  }

  lemma CancelRefines(r: Word)
    requires r.InRange()
    ensures CancelQueuedWriteback(r).InRange()
    ensures CancelQueuedWritebackBits(Pack(r)) == Pack(CancelQueuedWriteback(r))
  {
    var next := r.(queued := false);
    QueuedFlag(r);
    RedirtiedFlag(next);
    WokenRefines(r, next.(redirtied := false), true);
  }

  lemma ClearsRefines(r: Word, succeeded: bool)
    requires r.InRange()
    ensures ClearsDirtyBits(Pack(r), succeeded) <==> ClearsDirty(r, succeeded)
  {
    Reads(r);
  }

  lemma EndedRefines(r: Word)
    requires r.InRange()
    ensures Without(Without(Without(Pack(r), QUEUED), ACTIVE), REDIRTIED) ==
      Pack(r.(queued := false, active := false, redirtied := false))
  {
    QueuedFlag(r);
    ActiveFlag(r.(queued := false));
    RedirtiedFlag(r.(queued := false, active := false));
  }

  lemma CompleteRefines(r: Word, succeeded: bool)
    requires r.InRange()
    ensures CompleteWriteback(r, succeeded).InRange()
    ensures CompleteWritebackBits(Pack(r), succeeded) == Pack(CompleteWriteback(r, succeeded))
  {
    ClearsRefines(r, succeeded);
    EndedRefines(r);
    DirtyFlag(r.(queued := false, active := false, redirtied := false));
    WokenRefines(r, CompleteWriteback(r, succeeded).(waiters := r.waiters), true);
  }

  lemma SetWaitersRefines(r: Word)
    requires r.InRange()
    ensures SetWaiters(r).InRange()
    ensures SetWaitersBits(Pack(r)) == Pack(SetWaiters(r))
  {
    WaitersFlag(r);
  }
}
