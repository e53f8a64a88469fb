/** Cutting a file off. The call drops the cached blocks past the new size frame by frame,
    clears the end of the last block and shrinks the backing file, while writebacks go on.
    What it leaves is a function of the interleaving, and the conditions here are on the
    state before the call, for all interleavings. */
module Truncation {
  import opened Arithmetic
  import opened PageStore
  import opened Types

  // Blocks and sizes

  /** The number of blocks that bytes below `size` need. */
  function BlocksFor(size: nat, blockSize: nat): nat
    requires blockSize > 0
  {
    Wrapped(size + blockSize - 1) / blockSize
  }

  lemma BlocksCover(size: nat, blockSize: nat, b: nat)
    requires 0 < blockSize && size + blockSize - 1 < U64
    ensures b < BlocksFor(size, blockSize) <==> Position(b, 0, blockSize) < size
  {
    var x := size + blockSize - 1;
    Covers(x / blockSize, x % blockSize, size, blockSize, b);
  }

  lemma Covers(q: nat, r: nat, size: nat, n: nat, b: nat)
    requires r < n && size + n - 1 == q * n + r
    ensures b < q <==> Position(b, 0, n) < size
  {
    if b < q {
      Monotone(b + 1, q, n);
      assert (b + 1) * n == b * n + n;
    } else {
      Monotone(q, b, n);
    }
  }

  lemma Monotone(b: nat, c: nat, n: nat)
    requires b <= c
    ensures b * n <= c * n
  {
    assert c * n == b * n + (c - b) * n;
  }

  lemma EndsBelow(c: nat, k: nat, b: nat, n: nat)
    requires c < b && k < n
    ensures Position(c, k, n) < Position(b, 0, n)
  {
    assert b * n == c * n + (b - c) * n;
    Multiple(b - c, n);
  }

  /** `from` is the first block that begins at or past `size`. */
  ghost predicate CutsAt(from: nat, size: nat, blockSize: nat) {
    forall b: nat :: b < from <==> Position(b, 0, blockSize) < size
  }

  lemma BlocksCut(size: nat, blockSize: nat)
    requires 0 < blockSize && size + blockSize - 1 < U64
    ensures CutsAt(BlocksFor(size, blockSize), size, blockSize)
  {
    forall b: nat ensures b < BlocksFor(size, blockSize) <==> Position(b, 0, blockSize) < size {
      BlocksCover(size, blockSize, b);
    }
  }

  lemma NoBlocks(size: nat, blockSize: nat)
    requires 0 < blockSize < U64 && size < U64 && size + blockSize - 1 >= U64
    ensures BlocksFor(size, blockSize) == 0
  {
    var x := Wrapped(size + blockSize - 1);
    DivisionIsUnique(x / blockSize, x % blockSize, 0, x, blockSize);
  }

  lemma BlockFrom(i: nat, b: nat, n: nat)
    requires n > 0 && i >= Position(b, 0, n)
    ensures i / n >= b
  {
    Within(i, n);
    if i / n < b {
      EndsBelow(i / n, i % n, b, n);
    }
  }

  lemma BlockUpTo(i: nat, b: nat, n: nat)
    requires n > 0 && i / n <= b
    ensures i < Position(b, 0, n) + n
  {
    Within(i, n);
    Monotone(i / n, b, n);
  }

  /** The first block past the size, by the place of the size in its block. */
  lemma CutPlace(from: nat, size: nat, b: nat, at: nat, n: nat)
    requires CutsAt(from, size, n) && size == Position(b, at, n) && at < n
    ensures from == if at == 0 then b else b + 1
  {
    assert Position(b + 1, 0, n) == Position(b, 0, n) + n;
    assert b < from <==> Position(b, 0, n) < size;
    assert b + 1 < from <==> Position(b + 1, 0, n) < size;
    if at == 0 && from < b {
      EndsBelow(from, 0, b, n);
    }
  }

  /** No block before `from` begins past the block of the size. */
  ghost predicate EndsBy(from: nat, size: nat, n: nat) {
    forall b: nat, at: nat :: size == Position(b, at, n) && at < n ==> from <= if at == 0 then b else b + 1
  }

  lemma EndsAt(from: nat, size: nat, b: nat, at: nat, n: nat)
    requires EndsBy(from, size, n) && size == Position(b, at, n) && at < n
    ensures from <= if at == 0 then b else b + 1
  {
  }

  lemma CutEndsBy(from: nat, size: nat, n: nat)
    requires CutsAt(from, size, n)
    ensures EndsBy(from, size, n)
  {
    forall b: nat, at: nat | size == Position(b, at, n) && at < n ensures from <= if at == 0 then b else b + 1 {
      CutPlace(from, size, b, at, n);
    }
  }

  lemma KeptBlock(from: nat, size: nat, i: nat, n: nat)
    requires n > 0 && CutsAt(from, size, n) && i < size
    ensures i / n < from
  {
    Within(i, n);
    assert i / n < from <==> Position(i / n, 0, n) < size;
  }

  // The call

  /** One frame that the drop comes to, and what happens before it does. */
  datatype Visit = Visit(before: seq<Event>, block: nat)

  /** What goes on beside a truncation: while it drops blocks, before it clears the last
      block, and before it shrinks the backing file. */
  datatype Interleaving = Interleaving(visits: seq<Visit>, first: seq<Event>, second: seq<Event>)

  /** Waits for the writeback of a page and discards the page. */
  function Discarded(s: Store, b: nat): (s': Store)
    ensures s'.blockSize == s.blockSize && s'.size == s.size
  {
    var settled := Happened(Happened(s, Land(b)), Finish(b));
    settled.(pages := settled.pages - {b})
  }

  function DropAll(s: Store, visits: seq<Visit>): (s': Store)
    ensures s'.blockSize == s.blockSize && s'.size == s.size
    decreases |visits|
  {
    if visits == [] then s
    else DropAll(Discarded(AllHappened(s, visits[0].before), visits[0].block), visits[1..])
  }

  /** Clears the end of a partial last block. */
  function Cleared(s: Store, size: nat): (s': Store)
    requires s.blockSize > 0
    ensures s'.blockSize == s.blockSize && s'.size == s.size && s'.disk == s.disk
  {
    if size % s.blockSize == 0 then s
    else Patch(s, size / s.blockSize, size % s.blockSize, seq(s.blockSize - size % s.blockSize, _ => 0))
  }

  function Shrunk(s: Store, size: nat): Store { s.(disk := SetSize(s.disk, size), size := size) }

  /** What a truncation leaves. */
  function Truncated(s: Store, newSize: nat, run: Interleaving): Store
    requires s.blockSize > 0
  {
    if newSize >= s.size then s.(size := newSize)
    else Shrunk(AllHappened(Cleared(AllHappened(DropAll(s, run.visits), run.first), newSize), run.second), newSize)
  }

  /** Loads only of blocks below `from`. */
  predicate LoadsBelow(events: seq<Event>, from: nat) {
    forall i :: 0 <= i < |events| && events[i].Load? ==> events[i].block < from
  }

  predicate Visited(visits: seq<Visit>, b: nat) { exists i :: 0 <= i < |visits| && visits[i].block == b }

  predicate VisitsFrom(visits: seq<Visit>, from: nat) {
    forall i :: 0 <= i < |visits| ==> visits[i].block >= from && LoadsBelow(visits[i].before, from)
  }

  /** The visits are to blocks from `from` on and come to every cached one. */
  ghost predicate Sweeps(s: Store, visits: seq<Visit>, from: nat) {
    VisitsFrom(visits, from) && forall b :: b in s.pages && b >= from ==> Visited(visits, b)
  }

  /** Beside a truncation only kept blocks are loaded. */
  ghost predicate Allowed(s: Store, newSize: nat, run: Interleaving)
    requires s.blockSize > 0
  {
    var from := BlocksFor(newSize, s.blockSize);
    Sweeps(s, run.visits, from) && LoadsBelow(run.first, from) && LoadsBelow(run.second, from)
  }

  // Dropping

  /** What the backing file holds once the writebacks under way have ended. */
  function SoonByte(s: Store, i: nat): Byte
    requires s.blockSize > 0
  {
    var b := i / s.blockSize;
    if b in s.flights && !s.flights[b].landed && |s.flights[b].bytes| == s.blockSize then
      s.flights[b].bytes[i % s.blockSize]
    else DiskByte(s.disk, i)
  }

  lemma Landed(s: Store, b: nat, i: nat)
    requires WellFormed(s) && b in s.flights
    ensures var s' := Happened(Happened(s, Land(b)), Finish(b));
      SoonByte(s', i) == SoonByte(s, i) && (i / s.blockSize != b ==> DiskByte(s'.disk, i) == DiskByte(s.disk, i))
  {
    assert FlightOk(s, b) && FlightOk(s, i / s.blockSize);
    WrittenByte(s.disk, b, s.flights[b].bytes, i);
  }

  /** The page is gone, so is its writeback, and nothing else has changed. */
  lemma DiscardRemoves(s: Store, b: nat)
    requires WellFormed(s)
    ensures var s' := Discarded(s, b);
      && s'.pages == s.pages - {b} && s'.flights == s.flights - {b}
      && forall i: nat :: i / s.blockSize != b ==> DiskByte(s'.disk, i) == DiskByte(s.disk, i)
  {
    assert FlightOk(s, b);
    if b in s.flights {
      forall i: nat | i / s.blockSize != b ensures DiskByte(Discarded(s, b).disk, i) == DiskByte(s.disk, i) {
        Landed(s, b, i);
      }
    }
  }

  lemma DiscardKeeps(s: Store, b: nat)
    requires WellFormed(s)
    ensures WellFormed(Discarded(s, b))
    ensures forall i: nat :: i / s.blockSize != b ==> ByteAt(Discarded(s, b), i) == ByteAt(s, i)
  {
    HappenedKeeps(s, Land(b));
    var landed := Happened(s, Land(b));
    HappenedKeeps(landed, Finish(b));
    var s', settled := Discarded(s, b), Happened(landed, Finish(b));
    DiscardRemoves(s, b);
    forall c: nat ensures PageOk(s', c) && FlightOk(s', c) {
      assert PageOk(settled, c) && FlightOk(settled, c);
    }
    forall i: nat | i / s.blockSize != b ensures ByteAt(s', i) == ByteAt(s, i) {
      assert ByteAt(settled, i) == ByteAt(s, i);
    }
  }

  /** Blocks that are not loaded do not come back. */
  lemma {:induction false} NoneComes(s: Store, events: seq<Event>, from: nat)
    requires LoadsBelow(events, from)
    ensures forall b :: b in AllHappened(s, events).pages && b >= from ==> b in s.pages
    decreases |events|
  {
    if events != [] {
      NoneComes(Happened(s, events[0]), events[1..], from);
    }
  }

  /** Bytes of the kept blocks stay, and no other block is cached any more. */
  lemma {:induction false} DropAllKeeps(s: Store, visits: seq<Visit>, from: nat)
    requires WellFormed(s) && Sweeps(s, visits, from)
    ensures WellFormed(DropAll(s, visits))
    ensures forall b :: b in DropAll(s, visits).pages ==> b < from
    ensures forall i: nat :: i / s.blockSize < from ==> ByteAt(DropAll(s, visits), i) == ByteAt(s, i)
    decreases |visits|
  {
    if visits != [] {
      var s1, b := AllHappened(s, visits[0].before), visits[0].block;
      HappenedAll(s, visits[0].before);
      DiscardKeeps(s1, b);
      SweepGoesOn(s, visits, from);
      DropAllKeeps(Discarded(s1, b), visits[1..], from);
      forall i: nat | i / s.blockSize < from ensures ByteAt(DropAll(s, visits), i) == ByteAt(s, i) {
        assert ByteAt(Discarded(s1, b), i) == ByteAt(s1, i) == ByteAt(s, i);
      }
    }
  }

  lemma SweepGoesOn(s: Store, visits: seq<Visit>, from: nat)
    requires WellFormed(s) && Sweeps(s, visits, from) && visits != []
    ensures Sweeps(Discarded(AllHappened(s, visits[0].before), visits[0].block), visits[1..], from)
  {
    var s1 := AllHappened(s, visits[0].before);
    HappenedAll(s, visits[0].before);
    NoneComes(s, visits[0].before, from);
    DiscardRemoves(s1, visits[0].block);
    forall b | b in Discarded(s1, visits[0].block).pages && b >= from ensures Visited(visits[1..], b) {
      var i :| 0 <= i < |visits| && visits[i].block == b;
      assert visits[1..][i - 1].block == b;
    }
  }

  // Cutting

  /** A truncation on its way: no block from `from` on is cached, and the bytes below
      `size` are those of `bytes`. */
  ghost predicate Cutting(s: Store, from: nat, size: nat, bytes: seq<Byte>)
    requires |bytes| == size
  {
    WellFormed(s) && (forall b :: b in s.pages ==> b < from) && forall i: nat :: i < size ==> ByteAt(s, i) == bytes[i]
  }

  /** The kept blocks are zero from `size` on. */
  ghost predicate TailZero(s: Store, from: nat, size: nat)
    requires WellFormed(s)
  {
    forall i: nat :: i >= size && i / s.blockSize < from ==> ByteAt(s, i) == 0
  }

  lemma CuttingGoesOn(s: Store, events: seq<Event>, from: nat, size: nat, bytes: seq<Byte>)
    requires |bytes| == size && Cutting(s, from, size, bytes) && LoadsBelow(events, from)
    ensures Cutting(AllHappened(s, events), from, size, bytes)
    ensures TailZero(s, from, size) ==> TailZero(AllHappened(s, events), from, size)
  {
    HappenedAll(s, events);
    NoneComes(s, events, from);
    var s' := AllHappened(s, events);
    forall i: nat | i < size ensures ByteAt(s', i) == bytes[i] {
      assert ByteAt(s', i) == ByteAt(s, i);
    }
  }

  /** The block of the size and its place there say what is cleared. */
  lemma ClearedAt(s: Store, size: nat) returns (b: nat, at: nat)
    requires s.blockSize > 0
    ensures size == Position(b, at, s.blockSize) && at < s.blockSize
    ensures Cleared(s, size) == if at == 0 then s else Patch(s, b, at, seq(s.blockSize - at, _ => 0))
  {
    b, at := size / s.blockSize, size % s.blockSize;
    Within(size, s.blockSize);
  }

  /** The clearing leaves zeros up to the end of the last block. */
  lemma ClearedCuts(s: Store, from: nat, size: nat, bytes: seq<Byte>) returns (upTo: nat)
    requires |bytes| == size && Cutting(s, from, size, bytes) && EndsBy(from, size, s.blockSize)
    ensures upTo >= from && Cutting(Cleared(s, size), upTo, size, bytes) && TailZero(Cleared(s, size), upTo, size)
  {
    var b, at := ClearedAt(s, size);
    EndsAt(from, size, b, at, s.blockSize);
    if at == 0 {
      WholeBlocks(s, from, size, b);
      upTo := from;
    } else {
      TailCleared(s, from, size, bytes, b, at);
      upTo := b + 1;
    }
  }

  /** Clearing the partial block at the end. */
  lemma TailCleared(s: Store, from: nat, size: nat, bytes: seq<Byte>, b: nat, at: nat)
    requires |bytes| == size && Cutting(s, from, size, bytes) && size == Position(b, at, s.blockSize)
    requires 0 < at < s.blockSize && from <= b + 1
    ensures var s' := Patch(s, b, at, seq(s.blockSize - at, _ => 0));
      Cutting(s', b + 1, size, bytes) && TailZero(s', b + 1, size)
  {
    var zeros := seq(s.blockSize - at, _ => 0);
    PatchBytes(s, b, at, zeros);
    var s' := Patch(s, b, at, zeros);
    forall i: nat | i < size ensures ByteAt(s', i) == bytes[i] {
      assert ByteAt(s', i) == ByteAt(s, i);
    }
    forall i: nat | i >= size && i / s.blockSize < b + 1 ensures ByteAt(s', i) == 0 {
      BlockUpTo(i, b, s.blockSize);
      assert size <= i < size + |zeros|;
    }
  }

  /** Without a partial block there is nothing to clear. */
  lemma WholeBlocks(s: Store, from: nat, size: nat, b: nat)
    requires WellFormed(s) && size == Position(b, 0, s.blockSize) && from <= b
    ensures TailZero(s, from, size)
  {
    forall i: nat | i >= size ensures i / s.blockSize >= from {
      BlockFrom(i, b, s.blockSize);
    }
  }

  /** Shrinking the backing file ends the cut. */
  lemma CutEnds(s: Store, upTo: nat, size: nat, bytes: seq<Byte>)
    requires |bytes| == size < U64 && Cutting(s, upTo, size, bytes) && TailZero(s, upTo, size)
    ensures var s' := Shrunk(s, size);
      WellFormed(s') && ZeroFrom(s', size) && File(s') == bytes && BackendZero(s')
  {
    var s' := Shrunk(s, size);
    forall b: nat ensures PageOk(s', b) && FlightOk(s', b) {
      assert PageOk(s, b) && FlightOk(s, b);
      if b in s.pages {
        CutHolds(s, upTo, size, b, s.pages[b].bytes);
      }
    }
    forall i: nat ensures ByteAt(s', i) == if i < size then bytes[i] else 0 {
      CutByte(s, upTo, size, bytes, i);
    }
    FileIs(s', bytes);
  }

  lemma CutByte(s: Store, upTo: nat, size: nat, bytes: seq<Byte>, i: nat)
    requires |bytes| == size && Cutting(s, upTo, size, bytes) && TailZero(s, upTo, size) && WellFormed(Shrunk(s, size))
    ensures ByteAt(Shrunk(s, size), i) == if i < size then bytes[i] else 0
  {
    if i / s.blockSize in s.pages {
      assert ByteAt(Shrunk(s, size), i) == ByteAt(s, i);
      assert i < size ==> ByteAt(s, i) == bytes[i];
      assert i >= size ==> ByteAt(s, i) == 0;
    } else if i < size {
      assert ByteAt(s, i) == bytes[i];
    }
  }

  /** A cached block that the backing file held before the cut is held after it. */
  lemma CutHolds(s: Store, upTo: nat, size: nat, b: nat, bytes: seq<Byte>)
    requires WellFormed(s) && TailZero(s, upTo, size) && b in s.pages && b < upTo && bytes == s.pages[b].bytes
    ensures Holds(s.disk, b, bytes) ==> Holds(SetSize(s.disk, size), b, bytes)
  {
    assert PageOk(s, b);
    forall k | 0 <= k < |bytes| && Position(b, k, s.blockSize) >= size ensures bytes[k] == 0 {
      InBlock(b, k, s.blockSize);
      assert ByteAt(s, Position(b, k, s.blockSize)) == 0;
    }
  }

  // The client's file

  /** The bytes below `size` as the client sees them. */
  ghost function Below(s: Store, size: nat): seq<Byte>
    requires WellFormed(s)
  {
    seq(size, i requires 0 <= i => ByteAt(s, i))
  }

  /** The first block that a truncation drops is that of the size rounded up, or the first
      one of all when the rounding overflows. */
  lemma DropsFrom(newSize: nat, blockSize: nat)
    requires 0 < blockSize < U64 && newSize < U64
    ensures EndsBy(BlocksFor(newSize, blockSize), newSize, blockSize)
    ensures newSize + blockSize - 1 < U64 ==> CutsAt(BlocksFor(newSize, blockSize), newSize, blockSize)
    ensures newSize + blockSize - 1 >= U64 ==> BlocksFor(newSize, blockSize) == 0
  {
    if newSize + blockSize - 1 < U64 {
      BlocksCut(newSize, blockSize);
      CutEndsBy(BlocksFor(newSize, blockSize), newSize, blockSize);
    } else {
      NoBlocks(newSize, blockSize);
    }
  }

  /** Whatever happens beside it, a truncation leaves what the drop left below the size,
      and zeros past it, also in the backing file. */
  lemma TruncatedIs(s: Store, newSize: nat, run: Interleaving)
    requires WellFormed(s) && newSize < s.size && Allowed(s, newSize, run)
    ensures WellFormed(DropAll(s, run.visits))
    ensures var s' := Truncated(s, newSize, run);
      && WellFormed(s') && ZeroFrom(s', newSize) && s'.size == newSize && BackendZero(s')
      && File(s') == Below(DropAll(s, run.visits), newSize)
  {
    var from := BlocksFor(newSize, s.blockSize);
    DropAllKeeps(s, run.visits, from);
    DropsFrom(newSize, s.blockSize);
    var s1 := DropAll(s, run.visits);
    var bytes := Below(s1, newSize);
    CuttingGoesOn(s1, run.first, from, newSize, bytes);
    var upTo := ClearedCuts(AllHappened(s1, run.first), from, newSize, bytes);
    CuttingGoesOn(Cleared(AllHappened(s1, run.first), newSize), run.second, upTo, newSize, bytes);
    CutEnds(AllHappened(Cleared(AllHappened(s1, run.first), newSize), run.second), upTo, newSize, bytes);
  }

  /** The bytes that a drop leaves: those of the client, or, when the rounding overflows,
      those of the backing file. */
  lemma DropLeaves(s: Store, newSize: nat, run: Interleaving, i: nat)
    requires WellFormed(s) && newSize < U64 && Allowed(s, newSize, run) && i < newSize
    ensures WellFormed(DropAll(s, run.visits))
    ensures ByteAt(DropAll(s, run.visits), i) ==
            if newSize + s.blockSize - 1 < U64 then ByteAt(s, i) else DiskByte(DropAll(s, run.visits).disk, i)
  {
    var from := BlocksFor(newSize, s.blockSize);
    DropAllKeeps(s, run.visits, from);
    DropsFrom(newSize, s.blockSize);
    if newSize + s.blockSize - 1 < U64 {
      KeptBlock(from, newSize, i, s.blockSize);
    }
  }

  /** The drop leaves the byte as the client saw it. */
  ghost predicate Survives(s: Store, newSize: nat, run: Interleaving, i: nat)
    requires WellFormed(s)
  {
    newSize + s.blockSize - 1 < U64 || DiskByte(DropAll(s, run.visits).disk, i) == ByteAt(s, i)
  }

  /** The file is cut off as it should be. */
  ghost predicate CutsRight(s: Store, newSize: nat, run: Interleaving)
    requires WellFormed(s)
  {
    WellFormed(Truncated(s, newSize, run)) && File(Truncated(s, newSize, run)) == Resized(File(s), newSize)
  }

  lemma RightIfSurvives(s: Store, newSize: nat, run: Interleaving)
    requires WellFormed(s) && newSize < s.size && Allowed(s, newSize, run)
    ensures CutsRight(s, newSize, run) <==> forall i: nat :: i < newSize ==> Survives(s, newSize, run, i)
  {
    TruncatedIs(s, newSize, run);
    var left, right := Below(DropAll(s, run.visits), newSize), Resized(File(s), newSize);
    forall i: nat | i < newSize ensures left[i] == right[i] <==> Survives(s, newSize, run, i) {
      DropLeaves(s, newSize, run, i);
      assert right[i] == ByteAt(s, i);
    }
    assert left == right <==> forall i: nat :: i < newSize ==> left[i] == right[i];
  }

  // Sweeps without interruption

  predicate Quiet(visits: seq<Visit>) { forall i :: 0 <= i < |visits| ==> visits[i].before == [] }

  /** A sweep over these blocks, in some order. */
  ghost function SweepOver(blocks: set<nat>): (visits: seq<Visit>)
    ensures Quiet(visits) && forall b: nat :: Visited(visits, b) <==> b in blocks
    decreases |blocks|
  {
    if blocks == {} then []
    else
      var b :| b in blocks;
      var rest := SweepOver(blocks - {b});
      assert forall c: nat :: Visited([Visit([], b)] + rest, c) <==> c == b || Visited(rest, c) by {
        VisitedFirst(Visit([], b), rest);
      }
      [Visit([], b)] + rest
  }

  lemma VisitedFirst(visit: Visit, rest: seq<Visit>)
    ensures forall c: nat :: Visited([visit] + rest, c) <==> c == visit.block || Visited(rest, c)
  {
    var visits := [visit] + rest;
    assert visits[0] == visit;
    forall c: nat | Visited(rest, c) ensures Visited(visits, c) {
      var i :| 0 <= i < |rest| && rest[i].block == c;
      assert visits[i + 1].block == c;
    }
    forall c: nat | Visited(visits, c) && c != visit.block ensures Visited(rest, c) {
      var i :| 0 <= i < |visits| && visits[i].block == c;
      assert rest[i - 1].block == c;
    }
  }

  ghost function SweepFrom(s: Store, from: nat): (visits: seq<Visit>)
    ensures Quiet(visits) && Sweeps(s, visits, from)
  {
    var visits := SweepOver(set b | b in s.pages && b >= from);
    assert forall i :: 0 <= i < |visits| ==> Visited(visits, visits[i].block);
    visits
  }

  lemma DiscardSoon(s: Store, b: nat, i: nat)
    requires WellFormed(s)
    ensures SoonByte(Discarded(s, b), i) == SoonByte(s, i)
  {
    assert FlightOk(s, b);
    if b in s.flights {
      Landed(s, b, i);
    }
  }

  /** Without interruption the writebacks that were under way end, and other blocks stay. */
  lemma {:induction false} QuietDrop(s: Store, visits: seq<Visit>)
    requires WellFormed(s) && Quiet(visits)
    ensures WellFormed(DropAll(s, visits))
    ensures forall i: nat :: SoonByte(DropAll(s, visits), i) == SoonByte(s, i)
    ensures forall b: nat :: !Visited(visits, b) ==> SameBlock(s, DropAll(s, visits), b)
    decreases |visits|
  {
    if visits != [] {
      var b, rest := visits[0].block, visits[1..];
      DiscardKeeps(s, b);
      DiscardRemoves(s, b);
      QuietDrop(Discarded(s, b), rest);
      forall i: nat ensures SoonByte(DropAll(s, visits), i) == SoonByte(s, i) {
        DiscardSoon(s, b, i);
      }
      VisitedFirst(visits[0], rest);
      assert visits == [visits[0]] + rest;
    }
  }

  /** The same page and the same writeback of the block. */
  ghost predicate SameBlock(s: Store, s': Store, b: nat) {
    && (b in s'.pages <==> b in s.pages) && (b in s.pages ==> s'.pages[b] == s.pages[b])
    && (b in s'.flights <==> b in s.flights) && (b in s.flights ==> s'.flights[b] == s.flights[b])
  }

  // Sizes whose rounding overflows

  /** The byte is `x` on the disk, in the page and in a copy still to land. */
  ghost predicate Everywhere(s: Store, i: nat, x: Byte)
    requires WellFormed(s)
  {
    DiskByte(s.disk, i) == x && ByteAt(s, i) == x && SoonByte(s, i) == x
  }

  lemma EverywhereStays(s: Store, e: Event, i: nat, x: Byte)
    requires WellFormed(s) && Everywhere(s, i, x)
    ensures WellFormed(Happened(s, e)) && Everywhere(Happened(s, e), i, x)
  {
    HappenedKeeps(s, e);
    assert ByteAt(Happened(s, e), i) == ByteAt(s, i);
    assert FlightOk(s, i / s.blockSize) && PageOk(s, i / s.blockSize);
    if e.Land? && e.block in s.flights && !s.flights[e.block].landed {
      assert FlightOk(s, e.block);
      WrittenByte(s.disk, e.block, s.flights[e.block].bytes, i);
    }
  }

  lemma {:induction false} EverywhereGoesOn(s: Store, events: seq<Event>, i: nat, x: Byte)
    requires WellFormed(s) && Everywhere(s, i, x)
    ensures WellFormed(AllHappened(s, events)) && Everywhere(AllHappened(s, events), i, x)
    decreases |events|
  {
    if events != [] {
      EverywhereStays(s, events[0], i, x);
      EverywhereGoesOn(Happened(s, events[0]), events[1..], i, x);
    }
  }

  lemma EverywhereDiscarded(s: Store, b: nat, i: nat, x: Byte)
    requires WellFormed(s) && Everywhere(s, i, x)
    ensures WellFormed(Discarded(s, b)) && Everywhere(Discarded(s, b), i, x)
  {
    EverywhereStays(s, Land(b), i, x);
    EverywhereStays(Happened(s, Land(b)), Finish(b), i, x);
    DiscardKeeps(s, b);
    DiscardRemoves(s, b);
  }

  lemma {:induction false} EverywhereDropped(s: Store, visits: seq<Visit>, i: nat, x: Byte)
    requires WellFormed(s) && Everywhere(s, i, x)
    ensures DiskByte(DropAll(s, visits).disk, i) == x
    decreases |visits|
  {
    if visits != [] {
      EverywhereGoesOn(s, visits[0].before, i, x);
      EverywhereDiscarded(AllHappened(s, visits[0].before), visits[0].block, i, x);
      EverywhereDropped(Discarded(AllHappened(s, visits[0].before), visits[0].block), visits[1..], i, x);
    }
  }

  /** A sweep in which the writeback of the block fails before its page is discarded. */
  ghost function FailingSweep(s: Store, b: nat): (visits: seq<Visit>)
    ensures Sweeps(s, visits, 0) && |visits| > 0 && visits[0] == Visit([Fail(b)], b) && Quiet(visits[1..])
  {
    var rest := SweepFrom(s, 0);
    var visits := [Visit([Fail(b)], b)] + rest;
    assert Sweeps(s, visits, 0) by {
      VisitedFirst(Visit([Fail(b)], b), rest);
    }
    visits
  }

  /** With all pages dropped the disk has what it soon would have. */
  lemma QuietSurvives(s: Store, visits: seq<Visit>, i: nat)
    requires WellFormed(s) && Quiet(visits) && Sweeps(s, visits, 0)
    ensures DiskByte(DropAll(s, visits).disk, i) == SoonByte(s, i)
  {
    QuietDrop(s, visits);
    DropAllKeeps(s, visits, 0);
    assert FlightOk(DropAll(s, visits), i / s.blockSize);
  }

  lemma FailingSurvives(s: Store, b: nat, i: nat)
    requires WellFormed(s) && i / s.blockSize == b
    ensures DiskByte(DropAll(s, FailingSweep(s, b)).disk, i) == DiskByte(s.disk, i)
  {
    var visits := FailingSweep(s, b);
    var s2 := Discarded(Happened(s, Fail(b)), b);
    FailedFirst(s, b, i);
    QuietDrop(s2, visits[1..]);
    DropAllKeeps(s, visits, 0);
    assert AllHappened(s, [Fail(b)]) == Happened(s, Fail(b));
    assert DropAll(s, visits) == DropAll(s2, visits[1..]);
    assert FlightOk(DropAll(s, visits), b);
  }

  lemma FailedFirst(s: Store, b: nat, i: nat)
    requires WellFormed(s) && i / s.blockSize == b
    ensures var s2 := Discarded(Happened(s, Fail(b)), b);
      WellFormed(s2) && SoonByte(s2, i) == DiskByte(s.disk, i)
  {
    var s1 := Happened(s, Fail(b));
    HappenedKeeps(s, Fail(b));
    DiscardKeeps(s1, b);
    DiscardRemoves(s1, b);
  }

  /** The client's byte is on the disk already, and no copy still to land has another. */
  ghost predicate StoredAnyway(s: Store, i: nat)
    requires WellFormed(s)
  {
    DiskByte(s.disk, i) == ByteAt(s, i) && SoonByte(s, i) == ByteAt(s, i)
  }

  /** A truncation is right whatever happens beside it exactly when rounding the size does
      not overflow or the backing file has the client's bytes already. */
  lemma TruncateIsRight(s: Store, newSize: nat)
    requires WellFormed(s) && newSize < s.size
    ensures (forall run: Interleaving :: Allowed(s, newSize, run) ==> CutsRight(s, newSize, run)) <==>
            newSize + s.blockSize - 1 < U64 || forall i: nat :: i < newSize ==> StoredAnyway(s, i)
  {
    if newSize + s.blockSize - 1 < U64 || forall i: nat :: i < newSize ==> StoredAnyway(s, i) {
      forall run: Interleaving | Allowed(s, newSize, run) ensures CutsRight(s, newSize, run) {
        forall i: nat | i < newSize ensures Survives(s, newSize, run, i) {
          if newSize + s.blockSize - 1 >= U64 {
            assert StoredAnyway(s, i);
            EverywhereDropped(s, run.visits, i, ByteAt(s, i));
          }
        }
        RightIfSurvives(s, newSize, run);
      }
    } else {
      var i: nat :| i < newSize && !StoredAnyway(s, i);
      LosesByte(s, newSize, i);
    }
  }

  lemma LosesByte(s: Store, newSize: nat, i: nat)
    requires WellFormed(s) && newSize < s.size && newSize + s.blockSize - 1 >= U64
    requires i < newSize && !StoredAnyway(s, i)
    ensures exists run: Interleaving :: Allowed(s, newSize, run) && !CutsRight(s, newSize, run)
  {
    DropsFrom(newSize, s.blockSize);
    var visits := if SoonByte(s, i) != ByteAt(s, i) then SweepFrom(s, 0) else FailingSweep(s, i / s.blockSize);
    var run := Interleaving(visits, [], []);
    QuietSurvives(s, SweepFrom(s, 0), i);
    FailingSurvives(s, i / s.blockSize, i);
    assert Allowed(s, newSize, run) && !Survives(s, newSize, run, i);
    RightIfSurvives(s, newSize, run);
  }

  // The backing file past the size

  /** Neither the dirty page nor a copy still to land has a non-zero byte at or past `size`. */
  ghost predicate NothingPast(s: Store, b: nat, size: nat) {
    && (b in s.pages && s.pages[b].dirty ==> ZeroPast(s.pages[b].bytes, b, s.blockSize, size))
    && (b in s.flights && !s.flights[b].landed ==> ZeroPast(s.flights[b].bytes, b, s.blockSize, size))
  }

  /** This for every block that a truncation keeps. */
  ghost predicate NothingKept(s: Store, newSize: nat)
    requires s.blockSize > 0
  {
    forall b: nat :: b < BlocksFor(newSize, s.blockSize) ==> NothingPast(s, b, newSize)
  }

  lemma NothingComes(s: Store, e: Event, b: nat, size: nat)
    requires WellFormed(s) && NothingPast(s, b, size)
    ensures NothingPast(Happened(s, e), b, size)
  {
    assert FlightOk(s, b);
  }

  lemma {:induction false} NothingComesAtAll(s: Store, events: seq<Event>, b: nat, size: nat)
    requires WellFormed(s) && NothingPast(s, b, size)
    ensures NothingPast(AllHappened(s, events), b, size)
    decreases |events|
  {
    if events != [] {
      HappenedKeeps(s, events[0]);
      NothingComes(s, events[0], b, size);
      NothingComesAtAll(Happened(s, events[0]), events[1..], b, size);
    }
  }

  lemma {:induction false} NothingDropped(s: Store, visits: seq<Visit>, b: nat, size: nat)
    requires WellFormed(s) && NothingPast(s, b, size)
    ensures NothingPast(DropAll(s, visits), b, size)
    decreases |visits|
  {
    if visits != [] {
      var s1 := AllHappened(s, visits[0].before);
      HappenedAll(s, visits[0].before);
      NothingComesAtAll(s, visits[0].before, b, size);
      DiscardKeeps(s1, visits[0].block);
      DiscardRemoves(s1, visits[0].block);
      NothingDropped(Discarded(s1, visits[0].block), visits[1..], b, size);
    }
  }

  lemma NothingCleared(s: Store, b: nat, size: nat)
    requires WellFormed(s) && NothingPast(s, b, size)
    ensures NothingPast(Cleared(s, size), b, size)
  {
    var c, at := ClearedAt(s, size);
    if at > 0 && b == c {
      BaseFits(s, c, false);
      forall k | 0 <= k < s.blockSize && Position(c, k, s.blockSize) >= size ensures k >= at {
      }
    }
  }

  /** After the drop every block has the property, also those that were not kept. */
  lemma NothingLeft(s: Store, newSize: nat, run: Interleaving, b: nat)
    requires WellFormed(s) && newSize < s.size && Allowed(s, newSize, run) && NothingKept(s, newSize)
    ensures NothingPast(Truncated(s, newSize, run), b, newSize)
  {
    var s1 := DropAll(s, run.visits);
    DropAllKeeps(s, run.visits, BlocksFor(newSize, s.blockSize));
    assert NothingPast(s1, b, newSize) by {
      if b < BlocksFor(newSize, s.blockSize) {
        NothingDropped(s, run.visits, b, newSize);
      } else {
        assert FlightOk(s1, b);
      }
    }
    HappenedAll(s1, run.first);
    NothingComesAtAll(s1, run.first, b, newSize);
    var s2 := AllHappened(s1, run.first);
    ClearedKeeps(s2, newSize);
    NothingCleared(s2, b, newSize);
    NothingComesAtAll(Cleared(s2, newSize), run.second, b, newSize);
  }

  lemma ClearedKeeps(s: Store, size: nat)
    requires WellFormed(s)
    ensures WellFormed(Cleared(s, size))
  {
    var b, at := ClearedAt(s, size);
    if at > 0 {
      PatchBytes(s, b, at, seq(s.blockSize - at, _ => 0));
    }
  }

  /** A copy of the block with a non-zero byte at or past `size` is still to land. */
  ghost predicate StaleCopy(s: Store, b: nat, size: nat) {
    b in s.flights && !s.flights[b].landed && !ZeroPast(s.flights[b].bytes, b, s.blockSize, size)
  }

  /** A dirty page with such a byte can be copied at any moment. */
  lemma CopyTaken(s: Store, b: nat, size: nat) returns (events: seq<Event>)
    requires WellFormed(s) && !NothingPast(s, b, size)
    ensures LoadsBelow(events, 0) && StaleCopy(AllHappened(s, events), b, size)
  {
    if StaleCopy(s, b, size) {
      events := [];
    } else {
      events := [Fail(b), Snapshot(b)];
      assert events[1..] == [Snapshot(b)];
      assert AllHappened(Happened(s, Fail(b)), [Snapshot(b)]) == Happened(Happened(s, Fail(b)), Snapshot(b));
    }
  }

  lemma StaleCleared(s: Store, b: nat, size: nat)
    requires WellFormed(s) && StaleCopy(s, b, size)
    ensures StaleCopy(Cleared(s, size), b, size)
  {
    var c, at := ClearedAt(s, size);
  }

  /** One bad kept block before the call is enough for a run that ends badly. */
  lemma BadRun(s: Store, newSize: nat, b: nat) returns (run: Interleaving)
    requires WellFormed(s) && newSize < s.size && b < BlocksFor(newSize, s.blockSize) && !NothingPast(s, b, newSize)
    ensures Allowed(s, newSize, run) && StaleCopy(Truncated(s, newSize, run), b, newSize)
  {
    var from := BlocksFor(newSize, s.blockSize);
    var visits := SweepFrom(s, from);
    var s1 := DropAll(s, visits);
    QuietDrop(s, visits);
    assert !Visited(visits, b);
    assert SameBlock(s, s1, b);
    var first := CopyTaken(s1, b, newSize);
    run := Interleaving(visits, first, []);
    HappenedAll(s1, first);
    StaleCleared(AllHappened(s1, first), b, newSize);
  }

  /** After a truncation the backing file stays zero past the size, whatever happens beside
      the call and after it, exactly when before the call no dirty page and no copy of a
      kept block has a non-zero byte there. */
  lemma TruncateStaysZero(s: Store, newSize: nat)
    requires WellFormed(s) && newSize < s.size
    ensures (forall run: Interleaving :: Allowed(s, newSize, run) ==> StaysZero(Truncated(s, newSize, run))) <==>
            NothingKept(s, newSize)
  {
    if NothingKept(s, newSize) {
      forall run: Interleaving | Allowed(s, newSize, run) ensures StaysZero(Truncated(s, newSize, run)) {
        EndsZero(s, newSize, run);
      }
    } else {
      var b: nat :| b < BlocksFor(newSize, s.blockSize) && !NothingPast(s, b, newSize);
      var run := BadRun(s, newSize, b);
      TruncatedIs(s, newSize, run);
      assert !LandsZero(Truncated(s, newSize, run), b);
      StaleLands(Truncated(s, newSize, run), b);
    }
  }

  lemma EndsZero(s: Store, newSize: nat, run: Interleaving)
    requires WellFormed(s) && newSize < s.size && Allowed(s, newSize, run) && NothingKept(s, newSize)
    ensures StaysZero(Truncated(s, newSize, run))
  {
    TruncatedIs(s, newSize, run);
    forall b: nat ensures LandsZero(Truncated(s, newSize, run), b) {
      NothingLeft(s, newSize, run, b);
    }
    BackendStaysZero(Truncated(s, newSize, run));
  }

  // Calls beside which nothing happens

  /** A copy of the kept block that is still to land has nothing but zeros past the size. */
  ghost predicate CopyIsZero(s: Store, b: nat, newSize: nat)
    requires s.blockSize > 0
  {
    b in s.flights && !s.flights[b].landed && b < BlocksFor(newSize, s.blockSize) ==>
      ZeroPast(s.flights[b].bytes, b, s.blockSize, newSize)
  }

  /** The writebacks of the blocks below `from` are still under way with their copies. */
  ghost predicate CopiesKept(s: Store, s': Store, from: nat) {
    && (forall b :: b in s'.flights <==> b in s.flights && b < from)
    && (forall b :: b in s'.flights ==> s'.flights[b] == s.flights[b].(stale := s'.flights[b].stale))
  }

  predicate Undisturbed(run: Interleaving) { Quiet(run.visits) && run.first == [] && run.second == [] }

  lemma QuietCopies(s: Store, newSize: nat, run: Interleaving)
    requires WellFormed(s) && newSize < s.size && Allowed(s, newSize, run) && Undisturbed(run)
    ensures CopiesKept(s, Truncated(s, newSize, run), BlocksFor(newSize, s.blockSize))
  {
    var from := BlocksFor(newSize, s.blockSize);
    var s1 := DropAll(s, run.visits);
    QuietDrop(s, run.visits);
    DropAllKeeps(s, run.visits, from);
    forall b: nat ensures (b in s1.flights <==> b in s.flights && b < from)
      && (b in s1.flights ==> s1.flights[b] == s.flights[b])
    {
      assert FlightOk(s1, b);
      if b < from {
        assert !Visited(run.visits, b);
        assert SameBlock(s, s1, b);
      }
    }
    var c, at := ClearedAt(s1, newSize);
  }

  /** Such a call keeps the backing file zero exactly when no copy of a kept block was in
      flight with a non-zero byte past the size. */
  lemma QuietStaysZero(s: Store, newSize: nat, run: Interleaving)
    requires WellFormed(s) && newSize < s.size && Allowed(s, newSize, run) && Undisturbed(run)
    ensures StaysZero(Truncated(s, newSize, run)) <==> forall b: nat :: CopyIsZero(s, b, newSize)
  {
    var s' := Truncated(s, newSize, run);
    TruncatedIs(s, newSize, run);
    BackendStaysZero(s');
    QuietCopies(s, newSize, run);
    forall b: nat ensures LandsZero(s', b) <==> CopyIsZero(s, b, newSize) {
    }
  }

  /** Such a call saves what the backing file will hold once writebacks have ended. */
  lemma QuietSaves(s: Store, newSize: nat, run: Interleaving)
    requires WellFormed(s) && newSize < s.size && Allowed(s, newSize, run) && Undisturbed(run)
    requires newSize + s.blockSize - 1 >= U64
    ensures CutsRight(s, newSize, run) <==> forall i: nat :: i < newSize ==> SoonByte(s, i) == ByteAt(s, i)
  {
    DropsFrom(newSize, s.blockSize);
    RightIfSurvives(s, newSize, run);
    forall i: nat | i < newSize ensures Survives(s, newSize, run, i) <==> SoonByte(s, i) == ByteAt(s, i) {
      QuietSurvives(s, run.visits, i);
    }
  }

  /** When the rounding overflows, for every such size there is a file that a truncation
      does not cut right when nothing happens beside it. */
  lemma TruncateLosesPages(blockSize: nat, oldSize: nat, newSize: nat) returns (s: Store)
    requires 0 < blockSize < U64 && newSize < oldSize < U64 && newSize + blockSize - 1 >= U64
    ensures WellFormed(s) && ZeroFrom(s, s.size) && s.blockSize == blockSize && s.size == oldSize
    ensures forall run: Interleaving :: Allowed(s, newSize, run) && Undisturbed(run) ==> !CutsRight(s, newSize, run)
  {
    s := Store(blockSize, map[0 := Page([1] + seq(blockSize - 1, _ => 0), true)], map[], [], oldSize);
    assert forall b: nat :: PageOk(s, b) && FlightOk(s, b);
    InBlock(0, 0, blockSize);
    forall i: nat | i >= s.size ensures ByteAt(s, i) == 0 {
      Within(i, blockSize);
    }
    assert SoonByte(s, 0) != ByteAt(s, 0);
    forall run: Interleaving | Allowed(s, newSize, run) && Undisturbed(run) ensures !CutsRight(s, newSize, run) {
      QuietSaves(s, newSize, run);
    }
  }
}
