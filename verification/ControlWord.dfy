/** The per-frame control word as a record of its fields, with every transition
    that `frame_control.h` performs in one compare-and-swap.

    A function named `TryX` returns `None` when the code refuses the transition;
    the other transitions are applied whatever the word is, and their
    preconditions state what the word must hold for the subtraction in them not
    to borrow from a neighbouring field. `PackedWord` ties all of them to the
    32-bit arithmetic of the code. */
module ControlWord {
  import opened Types


  const MAX_PINS: nat := 0x7FFF
  const MAX_SHARED: nat := 0xFF

  datatype FrameState = Free | Loading | Resident

  datatype Word = Word(
    state: FrameState,
    dirty: bool,
    queued: bool,
    active: bool,
    prefetched: bool,
    redirtied: bool,
    exclusive: bool,
    shared: nat,
    waiters: bool,
    pins: nat)
  {
    predicate HasWriteback() { queued || active }

    predicate Latched() { exclusive || shared > 0 }

    /** The ranges that the bit layout can hold. */
    predicate InRange() { shared <= MAX_SHARED && pins <= MAX_PINS }
  }

  const EMPTY_WORD := Word(Free, false, false, false, false, false, false, 0, false, 0)

  // Pins

  function TryPinResident(w: Word): Option<Word> {
    if w.state.Resident? && w.pins < MAX_PINS then Some(w.(pins := w.pins + 1)) else None
  }

  function TryUnpin(w: Word): Option<Word> {
    if w.pins == 0 then None else Some(w.(pins := w.pins - 1))
  }

  // Residency

  datatype ReserveOutcome = Reserved(next: Word) | NeedsFlush | Rejected

  function TryReserve(w: Word, poppedFromFreeList: bool): ReserveOutcome {
    if w.state.Loading? then Rejected
    else if w.state.Free? && !poppedFromFreeList then Rejected
    else if w.pins != 0 || w.Latched() || w.HasWriteback() then Rejected
    else if w.state.Resident? && w.dirty then NeedsFlush
    else Reserved(EMPTY_WORD.(state := Loading, waiters := w.waiters, pins := 1))
  }

  function PublishResident(w: Word, releasePin: bool): Word
    requires releasePin ==> w.pins > 0
  {
    w.(state := Resident, pins := if releasePin then w.pins - 1 else w.pins, waiters := false)
  }

  function ReleaseToFree(w: Word): Word {
    EMPTY_WORD.(exclusive := w.exclusive, shared := w.shared)
  }

  datatype DiscardOutcome = Discarded | Writeback | LatchHeld | Busy

  function TryDiscardPinned(w: Word): DiscardOutcome {
    if w.HasWriteback() then Writeback
    else if !w.state.Resident? || w.pins != 1 then Busy
    else if w.Latched() then LatchHeld
    else Discarded
  }

  // Dirty bit

  function MarkDirty(w: Word): Option<Word> {
    if !w.state.Resident? then None
    else Some(w.(dirty := true, redirtied := w.redirtied || w.HasWriteback()))
  }

  // Content latch

  function TryAcquireShared(w: Word): Option<Word> {
    if !w.exclusive && w.shared < MAX_SHARED then Some(w.(shared := w.shared + 1)) else None
  }

  /** Sleepers are woken when the last reader leaves or the reader count drops
      from its maximum. */
  function ReleaseShared(w: Word): Word
    requires w.shared > 0
  {
    w.(shared := w.shared - 1,
       waiters := w.waiters && w.shared != 1 && w.shared != MAX_SHARED)
  }

  function TryAcquireExclusive(w: Word): Option<Word> {
    if w.Latched() then None else Some(w.(exclusive := true))
  }

  function ReleaseExclusive(w: Word): Word {
    w.(exclusive := false, redirtied := w.redirtied || w.HasWriteback(), waiters := false)
  }

  // Writeback

  datatype QueueOutcome = Queued(next: Word) | NotDirty | Pending | Pinned

  function TryQueueWriteback(w: Word, skipIfPinned: bool): QueueOutcome {
    if w.HasWriteback() then Pending
    else if !w.state.Resident? || !w.dirty then NotDirty
    else if skipIfPinned && w.pins != 0 then Pinned
    else Queued(w.(queued := true, redirtied := false))
  }

  function BeginWriteback(w: Word): Word {
    w.(queued := false, active := true)
  }

  function CancelQueuedWriteback(w: Word): Word {
    w.(queued := false, redirtied := false, waiters := false)
  }

  predicate ClearsDirty(w: Word, succeeded: bool) {
    succeeded && w.state.Resident? && w.dirty && !w.redirtied && !w.exclusive
  }

  function CompleteWriteback(w: Word, succeeded: bool): Word {
    w.(queued := false, active := false, redirtied := false,
       dirty := w.dirty && !ClearsDirty(w, succeeded), waiters := false)
  }

  // Waiting

  function SetWaiters(w: Word): Word {
    w.(waiters := true)
  }
}
