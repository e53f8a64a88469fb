/** The bytes of a file whose blocks live in an evicting cache over a backing file, while
    blocks are written back, evicted and prefetched at any time. A writeback copies the
    page, writes the copy later without a latch, and then finishes. Offsets and sizes
    are 64-bit numbers that wrap around. */
module PageStore {
  import opened Arithmetic
  import opened Types

  const U64: nat := 0x1_0000_0000_0000_0000

  datatype Page = Page(bytes: seq<Byte>, dirty: bool)

  /** A writeback: its copy, whether the copy has reached the backing file, and
      whether the page was changed since it was taken. */
  datatype Flight = Flight(bytes: seq<Byte>, landed: bool, stale: bool)

  datatype Store =
    Store(blockSize: nat, pages: map<nat, Page>, flights: map<nat, Flight>, disk: seq<Byte>, size: nat)

  // Bytes

  /** Reads past the end of the backing file are zero-filled. */
  function DiskByte(disk: seq<Byte>, i: nat): Byte { if i < |disk| then disk[i] else 0 }

  function Position(b: nat, k: nat, blockSize: nat): nat { b * blockSize + k }

  /** The backing file holds these bytes for the block. */
  ghost predicate Holds(disk: seq<Byte>, b: nat, bytes: seq<Byte>) {
    forall k :: 0 <= k < |bytes| ==> bytes[k] == DiskByte(disk, Position(b, k, |bytes|))
  }

  /** A clean page is what the backing file holds. */
  ghost predicate PageOk(s: Store, b: nat) {
    b in s.pages ==>
      && |s.pages[b].bytes| == s.blockSize
      && (!s.pages[b].dirty ==> Holds(s.disk, b, s.pages[b].bytes))
  }

  /** A page stays dirty and resident during its writeback. Unless it was changed
      meanwhile, the copy is the page. */
  ghost predicate FlightOk(s: Store, b: nat) {
    b in s.flights ==>
      && b in s.pages && s.pages[b].dirty && |s.flights[b].bytes| == s.blockSize
      && (!s.flights[b].stale ==> s.flights[b].bytes == s.pages[b].bytes)
      && (!s.flights[b].stale && s.flights[b].landed ==> Holds(s.disk, b, s.flights[b].bytes))
  }

  ghost predicate WellFormed(s: Store) {
    && 0 < s.blockSize < U64 && s.size < U64
    && (forall b: nat :: PageOk(s, b))
    && (forall b: nat :: FlightOk(s, b))
  }

  /** A sum of two 64-bit numbers. */
  function Wrapped(x: nat): nat { if x < U64 then x else x - U64 }

  /** The byte at an offset: from the cache if its block is there, else from disk. */
  ghost function ByteAt(s: Store, i: nat): Byte
    requires WellFormed(s)
  {
    if i / s.blockSize in s.pages then
      assert PageOk(s, i / s.blockSize);
      s.pages[i / s.blockSize].bytes[i % s.blockSize]
    else DiskByte(s.disk, i)
  }

  lemma InBlock(b: nat, k: nat, blockSize: nat)
    requires k < blockSize
    ensures Position(b, k, blockSize) / blockSize == b && Position(b, k, blockSize) % blockSize == k
  {
    var i := Position(b, k, blockSize);
    DivisionIsUnique(i / blockSize, i % blockSize, b, k, blockSize);
  }

  lemma Within(i: nat, blockSize: nat)
    requires blockSize > 0
    ensures Position(i / blockSize, i % blockSize, blockSize) == i
  {
  }

  /** A byte of a block that the backing file holds. */
  lemma HeldByte(disk: seq<Byte>, b: nat, bytes: seq<Byte>, i: nat)
    requires |bytes| > 0 && i / |bytes| == b && Holds(disk, b, bytes)
    ensures 0 <= i % |bytes| < |bytes| && bytes[i % |bytes|] == DiskByte(disk, i)
  {
    Within(i, |bytes|);
    assert bytes[i % |bytes|] == DiskByte(disk, Position(b, i % |bytes|, |bytes|));
  }

  /** The client's file is zero from `end` on. */
  ghost predicate ZeroFrom(s: Store, end: nat)
    requires WellFormed(s)
  {
    forall i: nat :: i >= end ==> ByteAt(s, i) == 0
  }

  /** The file that the client sees. */
  ghost function File(s: Store): seq<Byte>
    requires WellFormed(s)
  {
    seq(s.size, i requires 0 <= i => ByteAt(s, i))
  }

  ghost predicate SameBytes(s: Store, s': Store)
    requires WellFormed(s) && WellFormed(s')
  {
    forall i: nat :: ByteAt(s', i) == ByteAt(s, i)
  }

  // What happens in the background

  datatype Event =
    | Evict(block: nat) | Load(block: nat)
    | Snapshot(block: nat) | Land(block: nat) | Finish(block: nat) | Fail(block: nat)

  function Block(disk: seq<Byte>, b: nat, blockSize: nat): seq<Byte> {
    seq(blockSize, k requires 0 <= k => DiskByte(disk, Position(b, k, blockSize)))
  }

  /** A write of a block; the backing file grows to hold it. */
  function Written(disk: seq<Byte>, at: nat, bytes: seq<Byte>): seq<Byte> {
    seq(if |disk| < at + |bytes| then at + |bytes| else |disk|,
        i requires 0 <= i => if at <= i < at + |bytes| then bytes[i - at] else DiskByte(disk, i))
  }

  function Happened(s: Store, e: Event): (s': Store)
    ensures s'.blockSize == s.blockSize && s'.size == s.size
  {
    match e
    case Evict(b) => if b in s.pages && !s.pages[b].dirty then s.(pages := s.pages - {b}) else s
    case Load(b) => if b in s.pages then s else s.(pages := s.pages[b := Page(Block(s.disk, b, s.blockSize), false)])
    case Snapshot(b) =>
      if b in s.pages && s.pages[b].dirty && b !in s.flights then
        s.(flights := s.flights[b := Flight(s.pages[b].bytes, false, false)])
      else s
    case Land(b) =>
      if b in s.flights && !s.flights[b].landed then
        s.(flights := s.flights[b := s.flights[b].(landed := true)],
           disk := Written(s.disk, Position(b, 0, s.blockSize), s.flights[b].bytes))
      else s
    case Finish(b) =>
      if b in s.flights && s.flights[b].landed && b in s.pages then
        s.(flights := s.flights - {b}, pages := s.pages[b := s.pages[b].(dirty := s.flights[b].stale)])
      else s
    case Fail(b) => if b in s.flights then s.(flights := s.flights - {b}) else s
  }

  lemma WrittenByte(disk: seq<Byte>, b: nat, bytes: seq<Byte>, i: nat)
    requires |bytes| > 0
    ensures DiskByte(Written(disk, Position(b, 0, |bytes|), bytes), i) ==
            if i / |bytes| == b then bytes[i % |bytes|] else DiskByte(disk, i)
  {
    var n := |bytes|;
    var at := Position(b, 0, n);
    Within(i, n);
    if i / n == b {
      assert i - at == i % n;
    } else if at <= i < at + n {
      InBlock(b, i - at, n);
    }
  }

  /** A write of block `b` holds its bytes, and leaves other blocks alone. */
  lemma WrittenHolds(disk: seq<Byte>, b: nat, bytes: seq<Byte>, c: nat, other: seq<Byte>)
    requires |bytes| == |other| > 0 && (c != b ==> Holds(disk, c, other)) && (c == b ==> other == bytes)
    ensures Holds(Written(disk, Position(b, 0, |bytes|), bytes), c, other)
  {
    forall k | 0 <= k < |other|
      ensures other[k] == DiskByte(Written(disk, Position(b, 0, |bytes|), bytes), Position(c, k, |other|))
    {
      InBlock(c, k, |other|);
      WrittenByte(disk, b, bytes, Position(c, k, |other|));
    }
  }

  lemma LandKeeps(s: Store, b: nat)
    requires WellFormed(s) && b in s.flights && !s.flights[b].landed
    ensures WellFormed(Happened(s, Land(b))) && SameBytes(s, Happened(s, Land(b)))
  {
    var s' := Happened(s, Land(b));
    assert FlightOk(s, b);
    forall c: nat ensures PageOk(s', c) && FlightOk(s', c) {
      assert PageOk(s, c) && FlightOk(s, c);
      if c in s'.pages && !s'.pages[c].dirty {
        WrittenHolds(s.disk, b, s.flights[b].bytes, c, s.pages[c].bytes);
      }
      if c in s'.flights && s'.flights[c].landed && !s'.flights[c].stale {
        WrittenHolds(s.disk, b, s.flights[b].bytes, c, s.flights[c].bytes);
      }
    }
    forall i: nat ensures ByteAt(s', i) == ByteAt(s, i) {
      WrittenByte(s.disk, b, s.flights[b].bytes, i);
    }
  }

  lemma EvictKeeps(s: Store, b: nat)
    requires WellFormed(s)
    ensures WellFormed(Happened(s, Evict(b))) && SameBytes(s, Happened(s, Evict(b)))
  {
    var s' := Happened(s, Evict(b));
    forall c: nat ensures PageOk(s', c) && FlightOk(s', c) {
      assert PageOk(s, c) && FlightOk(s, c);
    }
    if b in s.pages && !s.pages[b].dirty {
      forall i: nat ensures ByteAt(s', i) == ByteAt(s, i) {
        EvictedByte(s, s', b, i);
      }
    }
  }

  lemma EvictedByte(s: Store, s': Store, b: nat, i: nat)
    requires WellFormed(s) && WellFormed(s') && b in s.pages && !s.pages[b].dirty
    requires s' == s.(pages := s.pages - {b})
    ensures ByteAt(s', i) == ByteAt(s, i)
  {
    var c := i / s.blockSize;
    assert PageOk(s, c);
    if c == b {
      HeldByte(s.disk, c, s.pages[c].bytes, i);
    }
  }

  lemma LoadKeeps(s: Store, b: nat)
    requires WellFormed(s)
    ensures WellFormed(Happened(s, Load(b))) && SameBytes(s, Happened(s, Load(b)))
    ensures b in Happened(s, Load(b)).pages
  {
    var s' := Happened(s, Load(b));
    var loaded := Block(s.disk, b, s.blockSize);
    assert Holds(s.disk, b, loaded);
    forall c: nat ensures PageOk(s', c) && FlightOk(s', c) {
      assert PageOk(s, c) && FlightOk(s, c);
    }
    forall i: nat ensures ByteAt(s', i) == ByteAt(s, i) {
      if i / s.blockSize == b && b !in s.pages {
        HeldByte(s.disk, b, loaded, i);
      }
    }
  }

  /** Taking a copy, finishing a writeback and giving it up change no page and no disk. */
  lemma FlightKeeps(s: Store, e: Event)
    requires WellFormed(s) && (e.Snapshot? || e.Finish? || e.Fail?)
    ensures WellFormed(Happened(s, e)) && SameBytes(s, Happened(s, e))
  {
    var s' := Happened(s, e);
    forall c: nat ensures PageOk(s', c) && FlightOk(s', c) {
      assert PageOk(s, c) && FlightOk(s, c) && PageOk(s, e.block) && FlightOk(s, e.block);
    }
  }

  /** Eviction, prefetch and every phase of a writeback are invisible in the bytes of
      the file. */
  lemma HappenedKeeps(s: Store, e: Event)
    requires WellFormed(s)
    ensures WellFormed(Happened(s, e)) && SameBytes(s, Happened(s, e))
  {
    match e {
      case Evict(b) => EvictKeeps(s, b);
      case Load(b) => LoadKeeps(s, b);
      case Land(b) => if b in s.flights && !s.flights[b].landed { LandKeeps(s, b); }
      case _ => FlightKeeps(s, e);
    }
  }

  function AllHappened(s: Store, events: seq<Event>): (s': Store)
    ensures s'.blockSize == s.blockSize && s'.size == s.size
    decreases |events|
  {
    if events == [] then s else AllHappened(Happened(s, events[0]), events[1..])
  }

  lemma {:induction false} HappenedAll(s: Store, events: seq<Event>)
    requires WellFormed(s)
    ensures WellFormed(AllHappened(s, events)) && SameBytes(s, AllHappened(s, events))
    decreases |events|
  {
    if events != [] {
      HappenedKeeps(s, events[0]);
      HappenedAll(Happened(s, events[0]), events[1..]);
    }
  }

  // The backing file past the size

  ghost predicate BackendZero(s: Store) { forall i: nat :: i >= s.size ==> DiskByte(s.disk, i) == 0 }

  /** These bytes of the block are zero at and past `size`. */
  ghost predicate ZeroPast(bytes: seq<Byte>, b: nat, blockSize: nat, size: nat) {
    forall k :: 0 <= k < |bytes| && Position(b, k, blockSize) >= size ==> bytes[k] == 0
  }

  /** The copy, if it is still to land, writes nothing but zeros at or past the size. */
  ghost predicate LandsZero(s: Store, b: nat) {
    b in s.flights && !s.flights[b].landed ==> ZeroPast(s.flights[b].bytes, b, s.blockSize, s.size)
  }

  /** The backing file stays zero past the size, whatever happens in the background. */
  ghost predicate StaysZero(s: Store) { forall events: seq<Event> :: BackendZero(AllHappened(s, events)) }

  lemma SnapshotLandsZero(s: Store, b: nat)
    requires WellFormed(s) && ZeroFrom(s, s.size) && b in s.pages
    ensures ZeroPast(s.pages[b].bytes, b, s.blockSize, s.size)
  {
    assert PageOk(s, b);
    forall k | 0 <= k < s.blockSize && Position(b, k, s.blockSize) >= s.size ensures s.pages[b].bytes[k] == 0 {
      InBlock(b, k, s.blockSize);
      assert ByteAt(s, Position(b, k, s.blockSize)) == 0;
    }
  }

  lemma BackendEvent(s: Store, e: Event)
    requires WellFormed(s) && ZeroFrom(s, s.size) && BackendZero(s) && forall b: nat :: LandsZero(s, b)
    ensures BackendZero(Happened(s, e)) && forall b: nat :: LandsZero(Happened(s, e), b)
  {
    var s' := Happened(s, e);
    forall b: nat ensures LandsZero(s', b) {
      assert LandsZero(s, b);
      if e.Snapshot? && e.block == b && b in s.pages {
        SnapshotLandsZero(s, b);
        assert PageOk(s, b);
      }
    }
    if e.Land? && e.block in s.flights && !s.flights[e.block].landed {
      LandedZero(s, e.block);
    }
  }

  lemma LandedZero(s: Store, b: nat)
    requires WellFormed(s) && BackendZero(s) && LandsZero(s, b) && b in s.flights && !s.flights[b].landed
    ensures BackendZero(Happened(s, Land(b)))
  {
    assert FlightOk(s, b);
    forall i: nat | i >= s.size ensures DiskByte(Happened(s, Land(b)).disk, i) == 0 {
      WrittenByte(s.disk, b, s.flights[b].bytes, i);
      Within(i, s.blockSize);
    }
  }

  lemma {:induction false} BackendEvents(s: Store, events: seq<Event>)
    requires WellFormed(s) && ZeroFrom(s, s.size) && BackendZero(s) && forall b: nat :: LandsZero(s, b)
    ensures BackendZero(AllHappened(s, events))
    decreases |events|
  {
    if events != [] {
      HappenedKeeps(s, events[0]);
      BackendEvent(s, events[0]);
      BackendEvents(Happened(s, events[0]), events[1..]);
    }
  }

  /** A backing file that is zero past the size stays so, whatever happens in the
      background, exactly when no copy in flight has a non-zero byte there. */
  lemma BackendStaysZero(s: Store)
    requires WellFormed(s) && ZeroFrom(s, s.size) && BackendZero(s)
    ensures StaysZero(s) <==> forall b: nat :: LandsZero(s, b)
  {
    if forall b: nat :: LandsZero(s, b) {
      forall events: seq<Event> ensures BackendZero(AllHappened(s, events)) {
        BackendEvents(s, events);
      }
    } else {
      var b: nat :| !LandsZero(s, b);
      StaleLands(s, b);
    }
  }

  lemma StaleLands(s: Store, b: nat)
    requires WellFormed(s) && !LandsZero(s, b)
    ensures !BackendZero(AllHappened(s, [Land(b)]))
  {
    assert FlightOk(s, b);
    var k :| 0 <= k < s.blockSize && Position(b, k, s.blockSize) >= s.size && s.flights[b].bytes[k] != 0;
    var s' := Happened(s, Land(b));
    assert AllHappened(s, [Land(b)]) == s';
    InBlock(b, k, s.blockSize);
    WrittenByte(s.disk, b, s.flights[b].bytes, Position(b, k, s.blockSize));
    assert DiskByte(s'.disk, Position(b, k, s.blockSize)) != 0;
  }

  // What the calls promise

  function Max(a: nat, b: nat): nat { if a < b then b else a }

  function FileByte(file: seq<Byte>, i: nat): Byte { if i < |file| then file[i] else 0 }

  /** The file with `data` at `offset`; a gap before it is zero. */
  function Spliced(file: seq<Byte>, offset: nat, data: seq<Byte>): seq<Byte> {
    if data == [] then file
    else seq(Max(|file|, offset + |data|),
             i requires 0 <= i => if offset <= i < offset + |data| then data[i - offset] else FileByte(file, i))
  }

  /** The file cut off or extended with zeros. */
  function Resized(file: seq<Byte>, size: nat): seq<Byte> {
    seq(size, i requires 0 <= i => FileByte(file, i))
  }

  /** The part of the file that a read covers. */
  function Slice(file: seq<Byte>, offset: nat, length: nat): seq<Byte> {
    if offset >= |file| then [] else file[offset..if |file| < offset + length then |file| else offset + length]
  }

  // One block access

  /** Bytes of a block replaced from `at` on. */
  function Patched(bytes: seq<Byte>, at: nat, data: seq<Byte>): seq<Byte> {
    seq(|bytes|, k requires 0 <= k < |bytes| => if at <= k < at + |data| then data[k - at] else bytes[k])
  }

  /** The block as the writer finds it. A write of a whole block does not read it. */
  function Base(s: Store, b: nat, whole: bool): seq<Byte> {
    if b in s.pages then s.pages[b].bytes
    else if whole then seq(s.blockSize, _ => 0)
    else Block(s.disk, b, s.blockSize)
  }

  /** A writeback of the page that is under way no longer copies it. */
  function Outdated(flights: map<nat, Flight>, b: nat): map<nat, Flight> {
    if b in flights then flights[b := flights[b].(stale := true)] else flights
  }

  function Patch(s: Store, b: nat, at: nat, data: seq<Byte>): Store {
    s.(pages := s.pages[b := Page(Patched(Base(s, b, |data| == s.blockSize), at, data), true)],
       flights := Outdated(s.flights, b))
  }

  lemma BaseFits(s: Store, b: nat, whole: bool)
    requires WellFormed(s)
    ensures |Base(s, b, whole)| == s.blockSize
  {
    assert PageOk(s, b);
  }

  /** A patch changes its own bytes and no others. */
  lemma PatchBytes(s: Store, b: nat, at: nat, data: seq<Byte>)
    requires WellFormed(s) && at + |data| <= s.blockSize
    ensures WellFormed(Patch(s, b, at, data))
    ensures forall i: nat :: var start := Position(b, at, s.blockSize);
      ByteAt(Patch(s, b, at, data), i) == if start <= i < start + |data| then data[i - start] else ByteAt(s, i)
  {
    BaseFits(s, b, |data| == s.blockSize);
    var s', start := Patch(s, b, at, data), Position(b, at, s.blockSize);
    forall c: nat ensures PageOk(s', c) && FlightOk(s', c) {
      assert PageOk(s, c) && FlightOk(s, c);
    }
    forall i: nat ensures ByteAt(s', i) == if start <= i < start + |data| then data[i - start] else ByteAt(s, i) {
      PatchByte(s, b, at, data, i);
    }
  }

  lemma PatchByte(s: Store, b: nat, at: nat, data: seq<Byte>, i: nat)
    requires WellFormed(s) && at + |data| <= s.blockSize && WellFormed(Patch(s, b, at, data))
    ensures var start := Position(b, at, s.blockSize);
      ByteAt(Patch(s, b, at, data), i) == if start <= i < start + |data| then data[i - start] else ByteAt(s, i)
  {
    InPiece(b, at, |data|, s.blockSize, i);
    BaseFits(s, b, |data| == s.blockSize);
    if i / s.blockSize == b && !(at <= i % s.blockSize < at + |data|) {
      BaseByte(s, b, |data| == s.blockSize, i);
    }
  }

  /** The bytes of a piece, by their block and their place in it. */
  lemma InPiece(b: nat, at: nat, length: nat, n: nat, i: nat)
    requires at + length <= n && n > 0
    ensures var start := Position(b, at, n);
      && (start <= i < start + length <==> i / n == b && at <= i % n < at + length)
      && (i / n == b ==> i - start == i % n - at)
  {
    Within(i, n);
    if Position(b, at, n) <= i < Position(b, at, n) + length {
      InBlock(b, at + (i - Position(b, at, n)), n);
    }
  }

  /** A byte that a piece leaves alone; a piece of a whole block leaves none. */
  lemma BaseByte(s: Store, b: nat, whole: bool, i: nat)
    requires WellFormed(s) && i / s.blockSize == b && |Base(s, b, whole)| == s.blockSize && !whole
    ensures Base(s, b, whole)[i % s.blockSize] == ByteAt(s, i)
  {
    if b !in s.pages {
      Within(i, s.blockSize);
    }
  }

  // Whole calls

  /** The first `copied` bytes of `data` have reached the file. */
  ghost predicate Copied(s0: Store, s: Store, offset: nat, data: seq<Byte>, copied: nat)
    requires WellFormed(s0) && WellFormed(s) && copied <= |data|
  {
    forall i: nat :: ByteAt(s, i) == if offset <= i < offset + copied then data[i - offset] else ByteAt(s0, i)
  }

  lemma CopyOn(s0: Store, s: Store, offset: nat, data: seq<Byte>, copied: nat, b: nat, at: nat, chunk: nat)
    requires WellFormed(s0) && WellFormed(s) && copied + chunk <= |data| && Copied(s0, s, offset, data, copied)
    requires s.blockSize == s0.blockSize && at + chunk <= s.blockSize
    requires Position(b, at, s.blockSize) == offset + copied
    ensures WellFormed(Patch(s, b, at, data[copied..copied + chunk]))
    ensures Copied(s0, Patch(s, b, at, data[copied..copied + chunk]), offset, data, copied + chunk)
  {
    var piece := data[copied..copied + chunk];
    PatchBytes(s, b, at, piece);
    var s' := Patch(s, b, at, piece);
    forall i: nat
      ensures ByteAt(s', i) == if offset <= i < offset + copied + chunk then data[i - offset] else ByteAt(s0, i)
    {
      assert ByteAt(s', i) ==
             if offset + copied <= i < offset + copied + chunk then piece[i - offset - copied] else ByteAt(s, i);
      assert ByteAt(s, i) == if offset <= i < offset + copied then data[i - offset] else ByteAt(s0, i);
    }
  }

  lemma BackgroundCopies(s0: Store, s: Store, events: seq<Event>, offset: nat, data: seq<Byte>, copied: nat)
    requires WellFormed(s0) && WellFormed(s) && copied <= |data| && Copied(s0, s, offset, data, copied)
    ensures WellFormed(AllHappened(s, events)) && Copied(s0, AllHappened(s, events), offset, data, copied)
  {
    HappenedAll(s, events);
  }

  lemma FileIs(s: Store, file: seq<Byte>)
    requires WellFormed(s) && |file| == s.size && forall i :: 0 <= i < s.size ==> ByteAt(s, i) == file[i]
    ensures File(s) == file
  {
  }

  lemma ResizeBytes(s: Store, size: nat)
    requires WellFormed(s) && size < U64
    ensures WellFormed(s.(size := size)) && SameBytes(s, s.(size := size))
  {
    var s' := s.(size := size);
    forall b: nat ensures PageOk(s', b) && FlightOk(s', b) {
      assert PageOk(s, b) && FlightOk(s, b);
    }
    assert forall i: nat :: ByteAt(s', i) == ByteAt(s, i);
  }

  lemma SplicedByte(s0: Store, offset: nat, data: seq<Byte>, i: nat)
    requires WellFormed(s0) && ZeroFrom(s0, s0.size) && data != [] && i < Max(s0.size, offset + |data|)
    ensures i < |Spliced(File(s0), offset, data)|
    ensures Spliced(File(s0), offset, data)[i] ==
            if offset <= i < offset + |data| then data[i - offset] else ByteAt(s0, i)
  {
    assert i >= s0.size ==> ByteAt(s0, i) == 0;
  }

  lemma CopiedAll(s0: Store, s: Store, offset: nat, data: seq<Byte>)
    requires WellFormed(s0) && WellFormed(s) && ZeroFrom(s0, s0.size) && Copied(s0, s, offset, data, |data|)
    requires data != [] && offset + |data| < U64
    ensures var s' := s.(size := Max(s0.size, offset + |data|));
      WellFormed(s') && File(s') == Spliced(File(s0), offset, data) && ZeroFrom(s', s'.size)
  {
    var end := Max(s0.size, offset + |data|);
    ResizeBytes(s, end);
    var s' := s.(size := end);
    forall i | 0 <= i < end ensures ByteAt(s', i) == Spliced(File(s0), offset, data)[i] {
      SplicedByte(s0, offset, data, i);
      assert ByteAt(s', i) == ByteAt(s, i);
    }
    forall i: nat | i >= end ensures ByteAt(s', i) == 0 {
      assert ByteAt(s', i) == ByteAt(s, i) == ByteAt(s0, i);
    }
    FileIs(s', Spliced(File(s0), offset, data));
  }

  lemma Extends(s: Store, size: nat)
    requires WellFormed(s) && ZeroFrom(s, s.size) && s.size <= size < U64
    ensures var s' := s.(size := size); WellFormed(s') && ZeroFrom(s', size) && File(s') == Resized(File(s), size)
  {
    ResizeBytes(s, size);
    var s' := s.(size := size);
    forall i: nat ensures ByteAt(s', i) == ByteAt(s, i) && (i >= s.size ==> ByteAt(s, i) == 0) {
    }
    FileIs(s', Resized(File(s), size));
  }

  function SetSize(disk: seq<Byte>, size: nat): seq<Byte> { seq(size, i requires 0 <= i => DiskByte(disk, i)) }

  lemma CleanByte(s: Store, i: nat)
    requires WellFormed(s) && forall b :: b in s.pages ==> !s.pages[b].dirty
    ensures DiskByte(s.disk, i) == ByteAt(s, i)
  {
    EvictKeeps(s, i / s.blockSize);
    assert ByteAt(Happened(s, Evict(i / s.blockSize)), i) == ByteAt(s, i);
  }

  lemma SyncEnds(s0: Store, s: Store)
    requires WellFormed(s0) && WellFormed(s) && SameBytes(s0, s) && s.size == s0.size && ZeroFrom(s0, s.size)
    requires forall b :: b in s.pages ==> !s.pages[b].dirty
    ensures var s' := s.(disk := SetSize(s.disk, s.size));
      WellFormed(s') && ZeroFrom(s', s.size) && File(s') == File(s0) && s'.disk == File(s')
  {
    var s' := s.(disk := SetSize(s.disk, s.size));
    forall i: nat ensures DiskByte(s'.disk, i) == DiskByte(s.disk, i) == ByteAt(s0, i) {
      CleanByte(s, i);
      assert ByteAt(s, i) == ByteAt(s0, i) && (i >= s.size ==> ByteAt(s0, i) == 0);
    }
    SameDisk(s, s'.disk);
    forall i: nat ensures ByteAt(s', i) == ByteAt(s0, i) {
      assert ByteAt(s', i) == ByteAt(s, i) == ByteAt(s0, i);
    }
    FileIs(s', File(s0));
    FileIs(s', s'.disk);
  }

  /** Another backing file with the same bytes. */
  lemma SameDisk(s: Store, disk: seq<Byte>)
    requires WellFormed(s) && forall i: nat :: DiskByte(disk, i) == DiskByte(s.disk, i)
    ensures WellFormed(s.(disk := disk)) && SameBytes(s, s.(disk := disk))
  {
    var s' := s.(disk := disk);
    forall b: nat ensures PageOk(s', b) && FlightOk(s', b) {
      assert PageOk(s, b) && FlightOk(s, b);
    }
  }

  /** Only the client makes pages dirty. */
  lemma {:induction false} NothingDirtied(s: Store, events: seq<Event>, todo: set<nat>)
    requires WellFormed(s) && forall b :: b in s.pages && s.pages[b].dirty ==> b in todo
    ensures forall b :: b in AllHappened(s, events).pages && AllHappened(s, events).pages[b].dirty ==> b in todo
    decreases |events|
  {
    if events != [] {
      HappenedKeeps(s, events[0]);
      var s', e := Happened(s, events[0]), events[0];
      assert FlightOk(s, e.block);
      NothingDirtied(s', events[1..], todo);
    }
  }
}
