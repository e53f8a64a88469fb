/** The page cache as a file of bytes: one client reads, writes, truncates and syncs a
    file, and at any time between its accesses blocks are written back, evicted and
    prefetched. */
module PageCache {
  import opened PageStore
  import opened Truncation
  import opened Types

  class Cache {
    const blockSize: nat
    var pages: map<nat, Page>
    var flights: map<nat, Flight>
    var disk: seq<Byte>
    var size: nat

    ghost function Now(): Store
      reads this
    {
      Store(blockSize, pages, flights, disk, size)
    }

    /** Between calls the client's file is zero at and past its size. */
    ghost predicate Valid()
      reads this
    {
      WellFormed(Now()) && ZeroFrom(Now(), size)
    }

    /** Opens a backing file: its bytes are the file. */
    constructor (blockSize: nat, backing: seq<Byte>)
      requires 0 < blockSize < U64 && |backing| < U64
      ensures Valid() && File(Now()) == backing && disk == backing && this.blockSize == blockSize
      ensures pages == map[] && flights == map[]
    {
      this.blockSize, pages, flights, disk, size := blockSize, map[], map[], backing, |backing|;
      new;
      assert forall b: nat :: PageOk(Now(), b) && FlightOk(Now(), b);
      FileIs(Now(), backing);
    }

    /** What goes on beside the client leaves its file alone. */
    method Background(events: seq<Event>)
      requires WellFormed(Now())
      modifies this
      ensures Now() == AllHappened(old(Now()), events)
      ensures WellFormed(Now()) && SameBytes(old(Now()), Now()) && size == old(size)
    {
      HappenedAll(Now(), events);
      assert events[0..] == events;
      for i := 0 to |events|
        invariant AllHappened(Now(), events[i..]) == AllHappened(old(Now()), events)
      {
        assert events[i..][0] == events[i] && events[i..][1..] == events[i + 1..];
        Perform(events[i]);
      }
      assert events[|events|..] == [];
    }

    method Perform(e: Event)
      modifies this
      ensures Now() == Happened(old(Now()), e)
    {
      match e {
        case Evict(b) =>
          if b in pages && !pages[b].dirty {
            pages := pages - {b};
          }
        case Load(b) =>
          if b !in pages {
            pages := pages[b := Page(Block(disk, b, blockSize), false)];
          }
        case Snapshot(b) =>
          if b in pages && pages[b].dirty && b !in flights {
            flights := flights[b := Flight(pages[b].bytes, false, false)];
          }
        case Land(b) =>
          if b in flights && !flights[b].landed {
            disk := Written(disk, Position(b, 0, blockSize), flights[b].bytes);
            flights := flights[b := flights[b].(landed := true)];
          }
        case Finish(b) =>
          if b in flights && flights[b].landed && b in pages {
            pages := pages[b := pages[b].(dirty := flights[b].stale)];
            flights := flights - {b};
          }
        case Fail(b) =>
          if b in flights {
            flights := flights - {b};
          }
      }
    }

    /** The block of an offset, and the place in it. */
    method Locate(position: nat) returns (block: nat, inBlock: nat)
      requires blockSize > 0
      ensures Position(block, inBlock, blockSize) == position && inBlock < blockSize
    {
      block, inBlock := position / blockSize, position % blockSize;
    }

    /** Copies one piece of data into its block. */
    method WritePiece(block: nat, inBlock: nat, piece: seq<Byte>)
      requires WellFormed(Now()) && inBlock + |piece| <= blockSize
      modifies this
      ensures Now() == Patch(old(Now()), block, inBlock, piece) && WellFormed(Now())
    {
      PatchBytes(Now(), block, inBlock, piece);
      var base := if block in pages then pages[block].bytes
                  else if |piece| == blockSize then seq(blockSize, _ => 0)
                  else Block(disk, block, blockSize);
      pages := pages[block := Page(Patched(base, inBlock, piece), true)];
      if block in flights {
        flights := flights[block := flights[block].(stale := true)];
      }
    }

    /** Writes the data at the offset exactly when the end of the write is an address;
        otherwise the file does not become what the call promises. */
    method Write(offset: nat, data: seq<Byte>, between: nat -> seq<Event>)
      requires Valid() && offset < U64 && |data| < U64
      modifies this
      ensures WellFormed(Now())
      ensures data == [] || offset + |data| < U64 ==> Valid()
      ensures File(Now()) == Spliced(old(File(Now())), offset, data) <==> data == [] || offset + |data| < U64
    {
      if data == [] {
        return;
      }
      ghost var s0 := Now();
      CopyPieces(offset, data, between);
      ghost var s := Now();
      if offset + |data| < U64 {
        CopiedAll(s0, s, offset, data);
      }
      var end := Wrapped(offset + |data|);
      if size < end {
        size := end;
      }
      ResizeBytes(s, size);
    }

    method CopyPieces(offset: nat, data: seq<Byte>, between: nat -> seq<Event>)
      requires Valid() && offset < U64 && |data| < U64
      modifies this
      ensures WellFormed(Now()) && size == old(size)
      ensures offset + |data| < U64 ==> Copied(old(Now()), Now(), offset, data, |data|)
    {
      ghost var s0 := Now();
      var copied, step := 0, 0;
      while copied < |data|
        invariant copied <= |data| && WellFormed(Now()) && size == s0.size
        invariant offset + |data| < U64 ==> Copied(s0, Now(), offset, data, copied)
        decreases |data| - copied
      {
        copied := CopyPiece(offset, data, copied, between(step), s0);
        step := step + 1;
      }
    }

    method BackgroundCopy(offset: nat, data: seq<Byte>, copied: nat, events: seq<Event>, ghost s0: Store)
      requires WellFormed(Now()) && WellFormed(s0) && copied <= |data|
      requires offset + |data| < U64 ==> Copied(s0, Now(), offset, data, copied)
      modifies this
      ensures WellFormed(Now()) && size == old(size)
      ensures offset + |data| < U64 ==> Copied(s0, Now(), offset, data, copied)
    {
      if offset + |data| < U64 {
        BackgroundCopies(s0, Now(), events, offset, data, copied);
      }
      Background(events);
    }

    /** One turn of the loop: what happened since the last one, and one piece. */
    method CopyPiece(offset: nat, data: seq<Byte>, copied: nat, before: seq<Event>, ghost s0: Store) returns (done: nat)
      requires WellFormed(Now()) && WellFormed(s0) && s0.blockSize == blockSize && offset < U64 && copied < |data| < U64
      requires offset + |data| < U64 ==> Copied(s0, Now(), offset, data, copied)
      modifies this
      ensures copied < done <= |data| && WellFormed(Now()) && size == old(size)
      ensures offset + |data| < U64 ==> Copied(s0, Now(), offset, data, done)
    {
      BackgroundCopy(offset, data, copied, before, s0);
      var block, inBlock := Locate(Wrapped(offset + copied));
      var chunk := if blockSize - inBlock < |data| - copied then blockSize - inBlock else |data| - copied;
      ghost var s, piece := Now(), data[copied..copied + chunk];
      WritePiece(block, inBlock, data[copied..copied + chunk]);
      done := copied + chunk;
      if offset + |data| < U64 {
        CopyOn(s0, s, offset, data, copied, block, inBlock, chunk);
        assert Now() == Patch(s, block, inBlock, piece);
      }
    }

    /** Reads one piece from its block. */
    method ReadPiece(position: nat, length: nat, before: seq<Event>, ghost s0: Store) returns (piece: seq<Byte>)
      requires WellFormed(Now()) && WellFormed(s0) && SameBytes(s0, Now()) && length > 0
      modifies this
      ensures WellFormed(Now()) && SameBytes(s0, Now()) && size == old(size) && 0 < |piece| <= length
      ensures forall i :: 0 <= i < |piece| ==> piece[i] == ByteAt(s0, position + i)
    {
      Background(before);
      var block, inBlock := Locate(position);
      LoadKeeps(Now(), block);
      Perform(Load(block));
      assert PageOk(Now(), block);
      var chunk := if blockSize - inBlock < length then blockSize - inBlock else length;
      piece := pages[block].bytes[inBlock..inBlock + chunk];
      forall i | 0 <= i < |piece| ensures piece[i] == ByteAt(s0, position + i) {
        InBlock(block, inBlock + i, blockSize);
        assert ByteAt(Now(), position + i) == ByteAt(s0, position + i);
      }
    }

    /** Returns the part of the file at the offset and changes nothing. */
    method Read(offset: nat, length: nat, between: nat -> seq<Event>) returns (out: seq<Byte>)
      requires Valid() && offset < U64 && length < U64
      modifies this
      ensures Valid() && File(Now()) == old(File(Now())) && out == Slice(old(File(Now())), offset, length)
    {
      out := [];
      if offset >= size || length == 0 {
        return;
      }
      ghost var s0 := Now();
      var total := if length < size - offset then length else size - offset;
      var step := 0;
      while |out| < total
        invariant |out| <= total && WellFormed(Now()) && SameBytes(s0, Now()) && size == s0.size
        invariant forall i :: 0 <= i < |out| ==> out[i] == ByteAt(s0, offset + i)
        decreases total - |out|
      {
        ghost var copied := |out|;
        var piece := ReadPiece(offset + |out|, total - |out|, between(step), s0);
        out := out + piece;
        step := step + 1;
      }
      FileIs(Now(), File(s0));
    }

    /** A writeback lands and finishes. */
    method FinishFlight(b: nat)
      requires WellFormed(Now()) && b in flights
      modifies this
      ensures Now() == Happened(Happened(old(Now()), Land(b)), Finish(b))
      ensures WellFormed(Now()) && SameBytes(old(Now()), Now()) && size == old(size) && flights == old(flights) - {b}
      ensures pages.Keys == old(pages.Keys) && forall c :: c in pages && c != b ==> pages[c] == old(pages)[c]
      ensures b in pages && pages[b].dirty == old(flights)[b].stale
    {
      assert FlightOk(Now(), b);
      HappenedKeeps(Now(), Land(b));
      Perform(Land(b));
      HappenedKeeps(Now(), Finish(b));
      Perform(Finish(b));
    }

    /** Waits for the writeback of a page and discards the page. */
    method Discard(b: nat)
      requires WellFormed(Now())
      modifies this
      ensures Now() == Discarded(old(Now()), b) && WellFormed(Now())
    {
      DiscardKeeps(Now(), b);
      if b in flights {
        FinishFlight(b);
      }
      pages := pages - {b};
    }

    /** Comes to frame after frame and discards the page there. */
    method Drop(visits: seq<Visit>)
      requires WellFormed(Now())
      modifies this
      ensures Now() == DropAll(old(Now()), visits) && WellFormed(Now())
    {
      assert visits[0..] == visits;
      for i := 0 to |visits|
        invariant WellFormed(Now()) && DropAll(Now(), visits[i..]) == DropAll(old(Now()), visits)
      {
        assert visits[i..][0] == visits[i] && visits[i..][1..] == visits[i + 1..];
        Background(visits[i].before);
        Discard(visits[i].block);
      }
      assert visits[|visits|..] == [];
    }

    /** Clears the end of a partial last block. */
    method ClearTail(newSize: nat)
      requires WellFormed(Now())
      modifies this
      ensures Now() == Cleared(old(Now()), newSize) && WellFormed(Now())
    {
      var inBlock := newSize % blockSize;
      if inBlock != 0 {
        WritePiece(newSize / blockSize, inBlock, seq(blockSize - inBlock, _ => 0));
      }
    }

    /** Drops blocks, clears the partial block and shrinks the backing file. */
    method Cut(newSize: nat, run: Interleaving)
      requires WellFormed(Now()) && newSize < size
      modifies this
      ensures Now() == Truncated(old(Now()), newSize, run)
    {
      Drop(run.visits);
      Background(run.first);
      ClearTail(newSize);
      Background(run.second);
      disk := SetSize(disk, newSize);
      size := newSize;
    }

    /** Cuts the file off or extends it with zeros; a smaller size whose rounding up to
        whole blocks overflows drops all pages, so the file is right exactly when the
        backing file has each byte by then. The backing file ends zero past the size. It
        stays so whatever happens when before the call no dirty page and no copy of a kept
        block has a non-zero byte there; of an undisturbed call only the copies matter.
        `TruncateIsRight` and `TruncateStaysZero` have the conditions over all calls. */
    method Truncate(newSize: nat, run: Interleaving)
      requires Valid() && newSize < U64 && (newSize < size ==> Allowed(Now(), newSize, run))
      modifies this
      ensures Now() == Truncated(old(Now()), newSize, run) && Valid() && size == newSize
      ensures File(Now()) == Resized(old(File(Now())), newSize) <==>
        newSize >= old(size) || forall i: nat :: i < newSize ==> Survives(old(Now()), newSize, run, i)
      ensures newSize < old(size) && newSize + blockSize - 1 >= U64 && Undisturbed(run) ==>
        (File(Now()) == Resized(old(File(Now())), newSize) <==>
         forall i: nat :: i < newSize ==> SoonByte(old(Now()), i) == ByteAt(old(Now()), i))
      ensures newSize < old(size) ==> BackendZero(Now())
      ensures newSize < old(size) && NothingKept(old(Now()), newSize) ==> StaysZero(Now())
      ensures newSize < old(size) && Undisturbed(run) ==>
        && CopiesKept(old(Now()), Now(), BlocksFor(newSize, blockSize))
        && (StaysZero(Now()) <==> forall b: nat :: CopyIsZero(old(Now()), b, newSize))
    {
      ghost var s0 := Now();
      if newSize < size {
        Cut(newSize, run);
        TruncatedIs(s0, newSize, run);
        RightIfSurvives(s0, newSize, run);
        if NothingKept(s0, newSize) {
          EndsZero(s0, newSize, run);
        }
        if Undisturbed(run) {
          UndisturbedCut(s0, newSize, run);
        }
      } else {
        Extends(Now(), newSize);
        size := newSize;
      }
    }

    /** Writes one page back, after a writeback of it that is under way. */
    method Flush(b: nat)
      requires WellFormed(Now())
      modifies this
      ensures WellFormed(Now()) && SameBytes(old(Now()), Now()) && size == old(size)
      ensures b in pages ==> !pages[b].dirty
      ensures forall c :: c in pages && c != b ==> c in old(pages) && pages[c] == old(pages)[c]
    {
      if b in flights {
        FinishFlight(b);
      }
      if b in pages && pages[b].dirty {
        HappenedKeeps(Now(), Snapshot(b));
        Perform(Snapshot(b));
        FinishFlight(b);
      }
    }

    /** Writes every dirty page back and gives the backing file the size of the file:
        then it is the file. */
    method Sync(between: nat -> seq<Event>)
      requires Valid()
      modifies this
      ensures Valid() && File(Now()) == old(File(Now())) && disk == File(Now())
      ensures forall b :: b in pages ==> !pages[b].dirty
    {
      ghost var s0 := Now();
      var todo, step := set b | b in pages && pages[b].dirty, 0;
      while todo != {}
        invariant WellFormed(Now()) && SameBytes(s0, Now()) && size == s0.size
        invariant forall b :: b in pages && pages[b].dirty ==> b in todo
        decreases |todo|
      {
        var b :| b in todo;
        NothingDirtied(Now(), between(step), todo);
        Background(between(step));
        Flush(b);
        todo, step := todo - {b}, step + 1;
      }
      assert forall b :: b in pages && pages[b].dirty ==> b in todo;
      SyncEnds(s0, Now());
      disk := SetSize(disk, size);
    }
  }

  lemma UndisturbedCut(s: Store, newSize: nat, run: Interleaving)
    requires WellFormed(s) && newSize < s.size && Allowed(s, newSize, run) && Undisturbed(run)
    ensures newSize + s.blockSize - 1 >= U64 ==>
      (CutsRight(s, newSize, run) <==> forall i: nat :: i < newSize ==> SoonByte(s, i) == ByteAt(s, i))
    ensures CopiesKept(s, Truncated(s, newSize, run), BlocksFor(newSize, s.blockSize))
    ensures StaysZero(Truncated(s, newSize, run)) <==> forall b: nat :: CopyIsZero(s, b, newSize)
  {
    if newSize + s.blockSize - 1 >= U64 {
      QuietSaves(s, newSize, run);
    }
    QuietCopies(s, newSize, run);
    QuietStaysZero(s, newSize, run);
  }

  // Runs in which the backing file does not stay zero

  /** One block of two bytes, both one and not yet written. */
  method DirtyBlock() returns (cache: Cache)
    ensures fresh(cache) && cache.Valid() && cache.size == 2 && cache.blockSize == 2
    ensures cache.pages == map[0 := Page([1, 1], true)] && cache.flights == map[]
  {
    cache := new Cache(2, [0, 0]);
    PatchBytes(cache.Now(), 0, 0, [1, 1]);
    cache.WritePiece(0, 0, [1, 1]);
    assert Patched(seq(2, _ => 0), 0, [1, 1]) == [1, 1];
    assert cache.pages == map[][0 := Page([1, 1], true)];
  }

  lemma TailLands(s: Store)
    requires WellFormed(s) && s.size == 1 && s.blockSize == 2
    requires 0 in s.flights && s.flights[0].bytes == [1, 1] && !s.flights[0].landed
    ensures !BackendZero(AllHappened(s, [Land(0)]))
  {
    assert !LandsZero(s, 0) by {
      assert Position(0, 1, 2) == 1 && s.flights[0].bytes[1] != 0;
    }
    StaleLands(s, 0);
  }

  /** A run in which the backing file does not stay zero past the size: a copy of the
      last block, taken before the cut or, if `late`, during the call, lands after it. The
      client sees nothing. */
  method StaleTail(late: bool) returns (cache: Cache)
    ensures cache.Valid() && cache.size == 1 && !BackendZero(cache.Now())
  {
    cache := DirtyBlock();
    if !late {
      HappenedKeeps(cache.Now(), Snapshot(0));
      cache.Perform(Snapshot(0));
    }
    CutToOne(cache, late);
    TailLands(cache.Now());
    cache.Background([Land(0)]);
  }

  method CutToOne(cache: Cache, late: bool)
    requires cache.Valid() && cache.size == 2 && cache.blockSize == 2
    requires cache.pages == map[0 := Page([1, 1], true)]
    requires cache.flights == if late then map[] else map[0 := Flight([1, 1], false, false)]
    modifies cache
    ensures cache.Valid() && cache.size == 1
    ensures 0 in cache.flights && cache.flights[0].bytes == [1, 1] && !cache.flights[0].landed
  {
    assert BlocksFor(1, 2) == 1;
    var first := if late then [Snapshot(0)] else [];
    ghost var s0 := cache.Now();
    assert AllHappened(s0, first).flights == map[0 := Flight([1, 1], false, false)];
    cache.Truncate(1, Interleaving([], first, []));
  }
}
