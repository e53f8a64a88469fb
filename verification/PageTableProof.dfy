/** Every step of every writer keeps the page table in order. */
module PageTableProof {
  import opened Chains
  import opened PageTableOrder
  import opened PageTableWriters
  import opened Types

  // The chain without a frame

  lemma {:induction false} WithoutIsCut(chain: seq<FrameId>, i: nat)
    requires NoRepeats(chain) && i < |chain|
    ensures Without(chain, chain[i]) == Cut(chain, i)
    decreases i
  {
    if i > 0 {
      WithoutIsCut(chain[1..], i - 1);
      assert [chain[0]] + Cut(chain[1..], i - 1) == Cut(chain, i);
    } else {
      assert Cut(chain, 0) == chain[1..];
    }
  }

  // What a step leaves alone

  /** A step that touches no chain, no link and no key. */
  ghost predicate Aside(t: Table, t': Table) {
    && t' == t.(m := t'.m) && |t'.m.locks| == |t.m.locks| && |t'.m.sequence| == |t.m.sequence|
    && t'.m == t.m.(locks := t'.m.locks, sequence := t'.m.sequence)
  }

  lemma AsideQuiet(t: Table, t': Table, b: Writer)
    requires Sized(t) && Aside(t, t') && b.Busy?
    ensures Quiet(t, t', b)
  {
  }

  lemma StepAside(t: Table, w: WriterId, b: Writer, live: bool, t': Table, b': Writer)
    requires b.Busy? && Local(t, w, b, live) == Some((t', b')) && !b.pc.Unlinks? && !b.pc.Links?
    ensures Aside(t, t')
  {
  }

  /** The frame leaves the bucket by one store to a link of that bucket. */
  lemma LeftQuiet(t: Table, m: Memory, b: Writer, bucket: nat)
    requires Sized(t) && b.Busy? && b.call.f < |t.home| && bucket < |t.chains| && Opens(b, t.m.stripes[bucket])
    requires |m.heads| == |t.m.heads| && |m.next| == |t.m.next| && m == t.m.(heads := m.heads, next := m.next)
    requires forall c :: 0 <= c < |m.heads| && c != bucket ==> m.heads[c] == t.m.heads[c]
    requires forall g :: 0 <= g < |m.next| && t.home[g] != Some(bucket) ==> m.next[g] == t.m.next[g]
    ensures Quiet(t, Left(t, m, bucket, b.call.f), b)
  {
  }

  lemma UnlinkQuiet(t: Table, b: Writer, t': Table, b': Writer)
    requires Sized(t) && InBody(b) && b.pc.Unlinks? && b.call.f < |t.home| && StripesOk(t, b) && |b.stripes| > 0
    requires UnlinkOk(t, b, b.pc.unlink) && UnlinkStep(t, b) == Some((t', b'))
    requires b.pc.unlink.BypassNode? ==> HomeOk(t, b.pc.unlink.previous)
    ensures Quiet(t, t', b)
  {
    var bucket := b.bucket.value;
    OwnStripes(t, b);
    BodyOpens(b, t.m.stripes[bucket]);
    match b.pc.unlink {
      case BypassHead(after) => LeftQuiet(t, t'.m, b, bucket);
      case BypassNode(after, previous, passed) =>
        assert previous in t.chains[bucket];
        LeftQuiet(t, t'.m, b, bucket);
      case _ =>
    }
  }

  lemma LinkQuiet(t: Table, b: Writer, t': Table, b': Writer)
    requires Sized(t) && InBody(b) && b.pc.Links? && b.call.f < |t.home| && StripesOk(t, b) && |b.stripes| > 0
    requires LinkOk(t, b, b.pc.link) && LinkStep(t, b) == (t', b')
    ensures Quiet(t, t', b)
  {
    OwnStripes(t, b);
    BodyOpens(b, t.m.stripes[t.m.bucketFor(b.call.newTag)]);
  }

  lemma StepQuiet(t: Table, w: WriterId, b: Writer, live: bool, t': Table, b': Writer)
    requires TableOk(t) && b.Busy? && WriterOk(t, b) && Local(t, w, b, live) == Some((t', b'))
    ensures Quiet(t, t', b)
  {
    if b.pc.Unlinks? {
      if b.pc.unlink.BypassNode? {
        assert HomeOk(t, b.pc.unlink.previous);
      }
      UnlinkQuiet(t, b, t', b');
    } else if b.pc.Links? {
      LinkQuiet(t, b, t', b');
    } else {
      StepAside(t, w, b, live, t', b');
      AsideQuiet(t, t', b);
    }
  }

  // The table

  /** The same chains, links and homes, and the same keys where there is a home. */
  lemma SameTable(t: Table, t': Table)
    requires TableOk(t) && Sized(t') && t'.chains == t.chains && t'.home == t.home && t'.m.heads == t.m.heads
    requires t'.m.bucketFor == t.m.bucketFor
    requires |t'.m.next| == |t.m.next| && forall f :: 0 <= f < |t.home| && t.home[f].Some? ==>
      t'.m.next[f] == t.m.next[f] && Key(t'.m, f) == Key(t.m, f)
    ensures TableOk(t')
  {
    forall f: FrameId ensures HomeOk(t', f) {
      assert HomeOk(t, f);
    }
    forall c | 0 <= c < |t'.chains| ensures ChainOk(t', c) {
      SameChain(t, t', c);
    }
  }

  lemma SameChain(t: Table, t': Table, c: nat)
    requires TableOk(t) && Sized(t') && t'.chains == t.chains && t'.m.heads == t.m.heads && c < |t.chains|
    requires |t'.m.next| == |t.m.next| && forall f :: 0 <= f < |t.home| && t.home[f].Some? ==>
      t'.m.next[f] == t.m.next[f]
    ensures ChainOk(t', c)
  {
    assert ChainOk(t, c);
    forall i | 0 <= i < |t.chains[c]| ensures t'.m.next[t.chains[c][i]] == LinkTo(t.chains[c], i + 1) {
      assert t.chains[c][i] in t.chains[c] && HomeOk(t, t.chains[c][i]);
      assert t.m.next[t.chains[c][i]] == LinkTo(t.chains[c], i + 1);
    }
  }

  /** The memory after the store that takes node `i` out of chain `b`. */
  ghost predicate Bypassed(m: Memory, m': Memory, chain: seq<FrameId>, b: nat, i: nat) {
    && b < |m.heads| && i < |chain| && (forall k :: 0 <= k < |chain| ==> chain[k] < |m.next|)
    && m' ==
      if i == 0 then m.(heads := m.heads[b := m.next[chain[0]]])
      else m.(next := m.next[chain[i - 1] := m.next[chain[i]]])
  }

  lemma LeftTable(t: Table, t': Table, b: nat, i: nat)
    requires TableOk(t) && b < |t.chains| && ChainOk(t, b) && Bypassed(t.m, t'.m, t.chains[b], b, i)
    requires t' == Left(t, t'.m, b, t.chains[b][i])
    ensures TableOk(t')
  {
    WithoutIsCut(t.chains[b], i);
    assert HomeOk(t, t.chains[b][i]);
    forall f: FrameId ensures HomeOk(t', f) {
      assert HomeOk(t, f);
      InCut(t.chains[b], i, f);
    }
    forall c | 0 <= c < |t'.chains| ensures ChainOk(t', c) {
      LeftChain(t, t', b, i, c);
    }
  }

  lemma LeftChain(t: Table, t': Table, b: nat, i: nat, c: nat)
    requires TableOk(t) && b < |t.chains| && ChainOk(t, b) && c < |t.chains| && Bypassed(t.m, t'.m, t.chains[b], b, i)
    requires Sized(t') && t'.chains == t.chains[b := Cut(t.chains[b], i)]
    ensures ChainOk(t', c)
  {
    assert ChainOk(t, c);
    CutKeeps(t.chains[b], i);
    if c == b && i > 0 {
      CutLinks(t.m.heads[b], t.m.next, t.chains[b], i);
    } else if c != b && i > 0 {
      assert t.chains[b][i - 1] in t.chains[b] && HomeOk(t, t.chains[b][i - 1]);
      StoreElsewhere(t.m.heads[c], t.m.next, t.chains[c], t.chains[b][i - 1], t.m.next[t.chains[b][i]]);
    }
  }

  lemma JoinedTable(t: Table, t': Table, b: nat, f: FrameId)
    requires TableOk(t) && b < |t.chains| && f < |t.home| && t.home[f] == None && t.m.next[f] == t.m.heads[b]
    requires t.m.bucketFor(Key(t.m, f)) == b
    requires t' == Table(t.m.(heads := t.m.heads[b := Some(f)]), t.chains[b := [f] + t.chains[b]], t.home[f := Some(b)])
    ensures TableOk(t')
  {
    assert HomeOk(t, f);
    forall g: FrameId ensures HomeOk(t', g) {
      assert HomeOk(t, g);
    }
    forall c | 0 <= c < |t'.chains| ensures ChainOk(t', c) {
      assert ChainOk(t, c);
      if c == b {
        PushLinks(t.m.heads[b], t.m.next, t.chains[b], f);
        assert t.m.next[f := t.m.heads[b]] == t.m.next;
      }
    }
  }

  lemma UnlinkTable(t: Table, b: Writer, t': Table, b': Writer)
    requires TableOk(t) && InBody(b) && b.pc.Unlinks? && b.call.f < |t.home| && |b.stripes| > 0
    requires UnlinkOk(t, b, b.pc.unlink) && UnlinkStep(t, b) == Some((t', b'))
    ensures TableOk(t')
  {
    var bucket := b.bucket.value;
    assert ChainOk(t, bucket);
    match b.pc.unlink {
      case BypassHead(after) => LeftTable(t, t', bucket, 0);
      case BypassNode(after, previous, passed) => LeftTable(t, t', bucket, passed + 1);
      case _ => SameTable(t, t');
    }
  }

  lemma LinkTable(t: Table, b: Writer, t': Table, b': Writer)
    requires TableOk(t) && InBody(b) && b.pc.Links? && b.call.f < |t.home| && |b.stripes| > 0
    requires LinkOk(t, b, b.pc.link) && LinkStep(t, b) == (t', b')
    ensures TableOk(t')
  {
    if b.pc.link.StoreHead? {
      JoinedTable(t, t', t.m.bucketFor(b.call.newTag), b.call.f);
    } else {
      SameTable(t, t');
    }
  }

  lemma StepTable(t: Table, w: WriterId, b: Writer, live: bool, t': Table, b': Writer)
    requires TableOk(t) && b.Busy? && WriterOk(t, b) && Local(t, w, b, live) == Some((t', b'))
    ensures TableOk(t')
  {
    if b.pc.Unlinks? {
      UnlinkTable(t, b, t', b');
    } else if b.pc.Links? {
      LinkTable(t, b, t', b');
    } else {
      StepAside(t, w, b, live, t', b');
      SameTable(t, t');
    }
  }

  // The writer itself

  lemma LockOwn(t: Table, w: WriterId, b: Writer, m': Memory, b': Writer)
    requires Sized(t) && b.Busy? && b.pc.Locks? && WriterOk(t, b) && HomeOk(t, b.call.f)
    requires LockStep(t.m, w, b) == Some((m', b'))
    ensures WriterOk(t, b')
  {
    if b.pc.locking != LoadBucket {
      OwnStripes(t, b);
    }
  }

  lemma WalkOwn(t: Table, b: Writer, live: bool, b': Writer)
    requires Sized(t) && b.Busy? && b.pc.Walks? && !b.pc.walk.Decide? && b.call.f < |t.home| && |b.stripes| > 0
    requires WalkOk(t, b, b.pc.walk) && WalkStep(t.m, b, live) == Some(b')
    requires var c := t.m.bucketFor(b.call.newTag); ChainOk(t, c) && |t.chains[c]| <= |t.m.next|
    ensures b'.Busy? && b'.pc.Walks? && WalkOk(t, b', b'.pc.walk)
    ensures b' == b.(pc := b'.pc, existing := b'.existing, asked := b'.asked)
  {
  }

  lemma DecideOwn(t: Table, b: Writer, live: bool, b': Writer)
    requires Sized(t) && b.Busy? && b.pc == Walks(Decide) && |b.stripes| > 0 && WriterOk(t, b) && HomeOk(t, b.call.f)
    requires WalkStep(t.m, b, live) == Some(b')
    ensures WriterOk(t, b')
  {
  }

  /** The search along the chain finds the frame. */
  lemma SearchOwn(t: Table, b: Writer, t': Table, b': Writer)
    requires Sized(t) && b.Busy? && b.pc.Unlinks? && b.call.f < |t.home| && |b.stripes| > 0
    requires UnlinkOk(t, b, b.pc.unlink)
    requires UnlinkStep(t, b) == Some((t', b')) && ChainOk(t, b.bucket.value) && HomeOk(t, b.call.f)
    requires b.pc.unlink.LoadAfter? || b.pc.unlink.LoadHead? || b.pc.unlink.Search?
    ensures t' == t && b'.Busy? && b' == b.(pc := b'.pc) && b'.pc.Unlinks? && UnlinkOk(t, b', b'.pc.unlink)
  {
    var chain := t.chains[b.bucket.value];
    assert b.call.f in chain;
    if b.pc.unlink.Search? {
      var passed := b.pc.unlink.passed;
      assert t.m.next[chain[passed]] == LinkTo(chain, passed + 1);
    }
  }

  /** A survey outlives the removal of the writer's own frame. */
  lemma SurveyWithout(t: Table, t': Table, b: Writer)
    requires Sized(t) && Sized(t') && b.Busy? && b.bucket.Some? && b.bucket.value < |t.chains| && Surveyed(t, b)
    requires t'.m.bucketFor == t.m.bucketFor && t'.m.files == t.m.files && t'.m.blocks == t.m.blocks
    requires t'.chains == t.chains[b.bucket.value := Without(t.chains[b.bucket.value], b.call.f)]
    ensures Surveyed(t', b)
  {
    var bucket := b.bucket.value;
    if b.call.ReplaceUnlessLive? && t.m.bucketFor(b.call.newTag) == bucket {
      var chain, left := t.chains[bucket], t'.chains[bucket];
      if b.existing == None {
        forall i | 0 <= i < |left| ensures left[i] in chain {
          WithoutMember(chain, b.call.f, left[i]);
        }
      } else {
        WithoutMember(chain, b.call.f, b.existing.value);
      }
    }
  }

  lemma {:induction false} WithoutMember(chain: seq<FrameId>, f: FrameId, g: FrameId)
    ensures g in Without(chain, f) ==> g in chain
    ensures g != f && g in chain ==> g in Without(chain, f)
  {
    if chain != [] {
      assert chain == [chain[0]] + chain[1..];
      WithoutMember(chain[1..], f, g);
    }
  }

  lemma BypassOwn(t: Table, b: Writer, t': Table, b': Writer)
    requires Sized(t) && b.Busy? && b.pc.Unlinks? && b.call.f < |t.home| && |b.stripes| > 0
    requires UnlinkOk(t, b, b.pc.unlink) && Surveyed(t, b)
    requires UnlinkStep(t, b) == Some((t', b')) && (b.pc.unlink.BypassHead? || b.pc.unlink.BypassNode?)
    ensures Sized(t') && b' == b.(pc := Unlinks(ClearNext)) && UnlinkOk(t', b', ClearNext) && Surveyed(t', b')
  {
    SurveyWithout(t, t', b);
  }

  lemma ClearOwn(t: Table, b: Writer, t': Table, b': Writer)
    requires Sized(t) && b.Busy? && b.pc.Unlinks? && |b.stripes| > 0 && WriterOk(t, b)
    requires UnlinkStep(t, b) == Some((t', b')) && (b.pc.unlink.ClearNext? || b.pc.unlink.ClearBucket?)
    ensures Sized(t') && WriterOk(t', b')
  {
  }

  lemma LinkOwn(t: Table, b: Writer, t': Table, b': Writer)
    requires Sized(t) && b.Busy? && b.pc.Links? && |b.stripes| > 0 && WriterOk(t, b) && HomeOk(t, b.call.f)
    requires LinkStep(t, b) == (t', b')
    ensures Sized(t') && WriterOk(t', b')
  {
  }
}
