/** The chains of the page table stay in order, whatever writers run. */
module PageTableOrder {
  import opened Chains
  import opened PageTableWriters
  import opened Types

  // The table

  /** Every chain is well linked at every moment, also while a writer is in it. */
  ghost predicate ChainOk(t: Table, c: nat)
    requires Sized(t) && c < |t.chains|
  {
    Linked(t.m.heads[c], t.m.next, t.chains[c]) && NoRepeats(t.chains[c])
  }

  /** The frame is in the chain of its home and in no other, under a key of that bucket. */
  ghost predicate HomeOk(t: Table, f: FrameId)
    requires Sized(t)
  {
    && (forall c :: 0 <= c < |t.chains| ==> (f in t.chains[c] <==> f < |t.home| && t.home[f] == Some(c)))
    && (f < |t.home| && t.home[f].Some? ==>
      t.home[f].value < |t.chains| && t.m.bucketFor(Key(t.m, f)) == t.home[f].value)
  }

  ghost predicate TableOk(t: Table) {
    && Sized(t)
    && (forall c :: 0 <= c < |t.chains| ==> ChainOk(t, c))
    && (forall f: FrameId :: HomeOk(t, f))
  }

  // One writer

  /** The mapping that a call leaves its frame with. */
  function Result(b: Writer): Option<Tag>
    requires b.Busy?
  {
    match b.call
    case Remove(_, tag) => if b.was == Some(tag) then None else b.was
    case Replace(_, _, newTag) => Some(newTag)
    case ReplaceUnlessLive(_, _, newTag) => if b.existing.Some? then None else Some(newTag)
  }

  /** The frame is where its bucket says, and as the call found it. */
  predicate Settled(t: Table, b: Writer)
    requires b.Busy? && b.call.f < |t.home| == |t.m.bucketOf| == |t.m.files| == |t.m.blocks|
  {
    t.m.bucketOf[b.call.f] == t.home[b.call.f] && b.was == Mapped(t, b.call.f)
  }

  ghost predicate StripesOk(t: Table, b: Writer)
    requires b.Busy? && Sized(t)
  {
    && (b.bucket.Some? ==> b.bucket.value < |t.m.stripes|)
    && (b.call.Remove? ==> b.bucket.Some?)
    && b.stripes == StripesFor(t.m, b.call, b.bucket)
  }

  /** Of the first `n` frames of the new tag's chain, those with the tag were asked. */
  ghost predicate AskedBelow(t: Table, b: Writer, n: nat)
    requires b.Busy? && Sized(t) && HasNew(b.call)
  {
    var chain := t.chains[t.m.bucketFor(b.call.newTag)];
    && n <= |chain|
    && forall i | 0 <= i < n && chain[i] < |t.m.files| && chain[i] != b.call.f ::
         Key(t.m, chain[i]) == b.call.newTag ==> chain[i] in b.asked
  }

  /** A frame found live has the new tag; without one, every frame with it was asked. */
  ghost predicate Surveyed(t: Table, b: Writer)
    requires b.Busy? && Sized(t)
  {
    if !b.call.ReplaceUnlessLive? then b.existing == None
    else
      var chain := t.chains[t.m.bucketFor(b.call.newTag)];
      if b.existing == None then AskedBelow(t, b, |chain|)
      else
        && b.existing.value in chain && b.existing.value != b.call.f && b.existing.value < |t.m.files|
        && Key(t.m, b.existing.value) == b.call.newTag
  }

  ghost predicate WalkOk(t: Table, b: Writer, walk: WalkPc)
    requires b.Busy? && Sized(t)
  {
    if walk.Decide? then Surveyed(t, b)
    else
      && b.call.ReplaceUnlessLive? && b.existing == None
      && var chain := t.chains[t.m.bucketFor(b.call.newTag)];
         match walk
         case WalkHead => true
         case WalkTest(link, steps) => AskedBelow(t, b, steps) && link == LinkTo(chain, steps)
         case WalkAsk(frame, steps) =>
           && AskedBelow(t, b, steps) && LinkTo(chain, steps) == Some(frame) && frame != b.call.f
           && frame < |t.m.files| && Key(t.m, frame) == b.call.newTag
         case WalkNext(frame, steps) => AskedBelow(t, b, steps + 1) && LinkTo(chain, steps) == Some(frame)
         case Decide => true
  }

  ghost predicate UnlinkOk(t: Table, b: Writer, unlink: UnlinkPc)
    requires b.Busy? && Sized(t) && b.call.f < |t.home|
  {
    var f := b.call.f;
    && b.bucket.Some? && b.bucket.value < |t.chains| && WantsUnlink(t.m, b)
    && b.was == Some(Key(t.m, f)) && t.m.bucketOf[f] == b.bucket
    && t.home[f] == (if unlink.ClearNext? || unlink.ClearBucket? then None else b.bucket)
    && var chain := t.chains[b.bucket.value];
       match unlink
       case LoadHead(after) => after == t.m.next[f]
       case Search(after, current, passed) =>
         after == t.m.next[f] && passed < |chain| && current == Some(chain[passed]) && forall i :: 0 <= i <= passed ==>
           chain[i] != f
       case BypassHead(after) => after == t.m.next[f] && LinkTo(chain, 0) == Some(f)
       case BypassNode(after, previous, passed) =>
         after == t.m.next[f] && LinkTo(chain, passed) == Some(previous) && LinkTo(chain, passed + 1) == Some(f)
       case _ => true
  }

  ghost predicate LinkOk(t: Table, b: Writer, link: LinkPc)
    requires b.Busy? && Sized(t) && b.call.f < |t.home|
  {
    var f := b.call.f;
    && HasNew(b.call) && b.existing == None && t.home[f] == None
    && t.m.bucketOf[f] == (if link.StoreHead? then Some(t.m.bucketFor(b.call.newTag)) else None)
    && (link.StoreBlock? ==> t.m.files[f] == b.call.newTag.file)
    && (link.StoreNext? || link.StoreBucket? || link.StoreHead? ==> Key(t.m, f) == b.call.newTag)
    && (link.StoreBucket? || link.StoreHead? ==> t.m.next[f] == t.m.heads[t.m.bucketFor(b.call.newTag)])
  }

  ghost predicate WriterOk(t: Table, b: Writer)
    requires Sized(t)
  {
    b.Busy? ==>
      && b.call.f < |t.home| && (!(b.pc == Locks(LoadBucket)) ==> StripesOk(t, b))
      && match b.pc
         case Locks(LoadBucket) => Settled(t, b) && b.existing == None
         case Locks(Lock(k)) => Settled(t, b) && b.bucket == t.home[b.call.f] && k < |b.stripes| && b.existing == None
         case Locks(Enter(k)) => Settled(t, b) && b.bucket == t.home[b.call.f] && k < |b.stripes| && b.existing == None
         case Walks(walk) => Settled(t, b) && b.bucket == t.home[b.call.f] && WalkOk(t, b, walk)
         case Unlinks(unlink) => Surveyed(t, b) && UnlinkOk(t, b, unlink)
         case Links(link) => Surveyed(t, b) && LinkOk(t, b, link)
         case Leaves(Leave(k)) =>
           k < |b.stripes| && t.m.bucketOf[b.call.f] == t.home[b.call.f] && Mapped(t, b.call.f) == Result(b)
         case Leaves(Unlock(k)) =>
           k < |b.stripes| && t.m.bucketOf[b.call.f] == t.home[b.call.f] && Mapped(t, b.call.f) == Result(b)
  }

  // The stripes and the frames

  predicate Even(n: nat) { n % 2 == 0 }

  /** A lock names its holder, and a sequence is odd exactly while one has it open. */
  ghost predicate StripeOk(s: State, k: nat)
    requires k < |s.table.m.locks| == |s.table.m.sequence|
  {
    && (forall w: WriterId :: Holds(At(s, w), k) <==> s.table.m.locks[k] == Some(w))
    && (Even(s.table.m.sequence[k]) <==> forall w: WriterId :: !Opens(At(s, w), k))
  }

  /** A frame has at most one writer, and without one its bucket is its home. */
  ghost predicate OwnerOk(s: State, f: FrameId)
    requires f < |s.table.home| == |s.table.m.bucketOf|
  {
    && (forall v: WriterId, w: WriterId :: Moving(At(s, v), f) && Moving(At(s, w), f) ==> v == w)
    && ((forall w: WriterId :: !Moving(At(s, w), f)) ==> s.table.m.bucketOf[f] == s.table.home[f])
  }

  ghost predicate Inv(s: State) {
    && TableOk(s.table)
    && (forall w: WriterId :: WriterOk(s.table, At(s, w)))
    && (forall k :: 0 <= k < |s.table.m.locks| ==> StripeOk(s, k))
    && (forall f :: 0 <= f < |s.table.home| ==> OwnerOk(s, f))
  }

  // What a step leaves alone

  /** A writer `b` changes chains, links and keys only of stripes it has open, and its
      own frame while that is in no chain. */
  ghost predicate Quiet(t: Table, t': Table, b: Writer)
    requires Sized(t) && b.Busy?
  {
    && Sized(t') && |t'.chains| == |t.chains| && |t'.home| == |t.home| && |t'.m.locks| == |t.m.locks|
    && t'.m.bucketFor == t.m.bucketFor && t'.m.stripes == t.m.stripes
    && (forall g :: 0 <= g < |t.home| && g != b.call.f ==>
      t'.m.bucketOf[g] == t.m.bucketOf[g] && t'.home[g] == t.home[g])
    && (forall g :: 0 <= g < |t.home| && (g != b.call.f || t.home[g].Some?) ==> Key(t'.m, g) == Key(t.m, g))
    && (forall c :: 0 <= c < |t.chains| && !Opens(b, t.m.stripes[c]) ==>
      t'.chains[c] == t.chains[c] && t'.m.heads[c] == t.m.heads[c])
    && (forall g :: 0 <= g < |t.home| && Untouched(t, b, g) ==> t'.m.next[g] == t.m.next[g])
  }

  /** The link of the frame is not for the writer to store. */
  predicate Untouched(t: Table, b: Writer, g: FrameId)
    requires b.Busy? && g < |t.home|
  {
    if t.home[g] == None then g != b.call.f
    else t.home[g].value < |t.m.stripes| && !Opens(b, t.m.stripes[t.home[g].value])
  }

  lemma OwnStripes(t: Table, b: Writer)
    requires Sized(t) && b.Busy? && StripesOk(t, b)
    ensures |b.stripes| > 0
    ensures b.bucket.Some? ==> t.m.stripes[b.bucket.value] in b.stripes
    ensures HasNew(b.call) ==> t.m.stripes[t.m.bucketFor(b.call.newTag)] in b.stripes
    ensures forall k :: 0 <= k < |b.stripes| ==> b.stripes[k] < |t.m.locks|
    ensures forall i, j :: 0 <= i < j < |b.stripes| ==> b.stripes[i] != b.stripes[j]
  {
  }

  predicate InBody(b: Writer) { b.Busy? && (b.pc.Walks? || b.pc.Unlinks? || b.pc.Links?) }

  lemma BodyOpens(b: Writer, k: nat)
    requires InBody(b) && k in b.stripes
    ensures Opens(b, k)
  {
  }
}
