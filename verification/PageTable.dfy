/** The page table: chained hash buckets whose nodes are the frames themselves,
    kept in arrays. It refines a map from frame to tag. The stripe locks are left to
    `PageTableWriters`; here one writer changes the table at a time. */
module PageTable {
  import opened Chains
  import opened Types

  // The whole table

  datatype Arrays = Arrays(heads: seq<Link>, next: seq<Link>, bucketOf: seq<Option<nat>>, keys: seq<Tag>)

  ghost predicate Shape(a: Arrays, chains: seq<seq<FrameId>>) {
    |a.heads| == |chains| > 0 && |a.next| == |a.bucketOf| == |a.keys|
  }

  ghost predicate BucketOk(a: Arrays, chains: seq<seq<FrameId>>, b: nat)
    requires Shape(a, chains) && b < |chains|
  {
    Linked(a.heads[b], a.next, chains[b]) && NoRepeats(chains[b])
  }

  ghost predicate FrameOk(a: Arrays, chains: seq<seq<FrameId>>, hash: Tag -> nat, f: FrameId)
    requires Shape(a, chains)
  {
    && (forall b :: 0 <= b < |chains| ==> (f in chains[b] <==> f < |a.bucketOf| && a.bucketOf[f] == Some(b)))
    && (f < |a.bucketOf| && a.bucketOf[f].Some? ==> a.bucketOf[f].value == hash(a.keys[f]) % |chains|)
  }

  /** Chains are well linked and disjoint, and `bucketOf` says who is in which. */
  ghost predicate TableOk(a: Arrays, chains: seq<seq<FrameId>>, hash: Tag -> nat) {
    && Shape(a, chains)
    && (forall b :: 0 <= b < |chains| ==> BucketOk(a, chains, b))
    && (forall f: FrameId :: FrameOk(a, chains, hash, f))
  }

  /** The map that the table stands for. */
  ghost function Mapping(a: Arrays): map<FrameId, Tag>
    requires |a.bucketOf| == |a.keys|
  {
    map f | 0 <= f < |a.bucketOf| && a.bucketOf[f].Some? :: a.keys[f]
  }

  function LinkedTable(a: Arrays, b: nat, tag: Tag, f: FrameId): Arrays
    requires b < |a.heads| && f < |a.next| == |a.bucketOf| == |a.keys|
  {
    Arrays(a.heads[b := Some(f)], a.next[f := a.heads[b]], a.bucketOf[f := Some(b)], a.keys[f := tag])
  }

  lemma LinkKeeps(a: Arrays, chains: seq<seq<FrameId>>, hash: Tag -> nat, tag: Tag, f: FrameId)
    requires TableOk(a, chains, hash) && f < |a.bucketOf| && a.bucketOf[f] == None
    ensures var b := hash(tag) % |chains|;
      && TableOk(LinkedTable(a, b, tag, f), chains[b := [f] + chains[b]], hash)
      && Mapping(LinkedTable(a, b, tag, f)) == Mapping(a)[f := tag]
  {
    var b := hash(tag) % |chains|;
    var a', chains' := LinkedTable(a, b, tag, f), chains[b := [f] + chains[b]];
    assert FrameOk(a, chains, hash, f);
    forall c | 0 <= c < |chains| ensures BucketOk(a', chains', c) {
      assert BucketOk(a, chains, c);
      if c == b {
        PushLinks(a.heads[b], a.next, chains[b], f);
      } else {
        StoreElsewhere(a.heads[c], a.next, chains[c], f, a.heads[b]);
      }
    }
    forall g: FrameId ensures FrameOk(a', chains', hash, g) {
      assert FrameOk(a, chains, hash, g);
    }
  }

  function UnlinkedTable(a: Arrays, b: nat, chain: seq<FrameId>, i: nat): Arrays
    requires i < |chain| && b < |a.heads| && |a.next| == |a.bucketOf| == |a.keys|
    requires forall k :: 0 <= k < |chain| ==> chain[k] < |a.next|
  {
    var f := chain[i];
    var around :=
      if i == 0 then a.(heads := a.heads[b := a.next[f]]) else a.(next := a.next[chain[i - 1] := a.next[f]]);
    around.(next := around.next[f := None], bucketOf := a.bucketOf[f := None])
  }

  lemma UnlinkKeeps(a: Arrays, chains: seq<seq<FrameId>>, hash: Tag -> nat, b: nat, i: nat)
    requires TableOk(a, chains, hash) && b < |chains| && i < |chains[b]| && BucketOk(a, chains, b)
    ensures TableOk(UnlinkedTable(a, b, chains[b], i), chains[b := Cut(chains[b], i)], hash)
    ensures Mapping(UnlinkedTable(a, b, chains[b], i)) == Mapping(a) - {chains[b][i]}
  {
    var f := chains[b][i];
    var a', chains' := UnlinkedTable(a, b, chains[b], i), chains[b := Cut(chains[b], i)];
    assert FrameOk(a, chains, hash, f);
    forall c | 0 <= c < |chains| ensures BucketOk(a', chains', c) {
      UnlinkBucket(a, chains, hash, b, i, c);
    }
    forall g: FrameId ensures FrameOk(a', chains', hash, g) {
      UnlinkFrame(a, chains, hash, b, i, g);
    }
  }

  lemma UnlinkFrame(a: Arrays, chains: seq<seq<FrameId>>, hash: Tag -> nat, b: nat, i: nat, g: FrameId)
    requires Shape(a, chains) && b < |chains| && i < |chains[b]| && BucketOk(a, chains, b)
    requires FrameOk(a, chains, hash, g) && FrameOk(a, chains, hash, chains[b][i])
    ensures Shape(UnlinkedTable(a, b, chains[b], i), chains[b := Cut(chains[b], i)])
    ensures FrameOk(UnlinkedTable(a, b, chains[b], i), chains[b := Cut(chains[b], i)], hash, g)
  {
    InCut(chains[b], i, g);
  }

  lemma UnlinkBucket(a: Arrays, chains: seq<seq<FrameId>>, hash: Tag -> nat, b: nat, i: nat, c: nat)
    requires TableOk(a, chains, hash) && b < |chains| && i < |chains[b]| && c < |chains| && BucketOk(a, chains, b)
    ensures Shape(UnlinkedTable(a, b, chains[b], i), chains[b := Cut(chains[b], i)])
    ensures BucketOk(UnlinkedTable(a, b, chains[b], i), chains[b := Cut(chains[b], i)], c)
  {
    var f := chains[b][i];
    CutKeeps(chains[b], i);
    if i > 0 {
      CutLinks(a.heads[b], a.next, chains[b], i);
    }
    assert BucketOk(a, chains, c) && FrameOk(a, chains, hash, f);
    if c == b {
      var next := if i == 0 then a.next else a.next[chains[b][i - 1] := a.next[f]];
      StoreElsewhere(if i == 0 then a.next[f] else a.heads[b], next, Cut(chains[b], i), f, None);
    } else {
      assert f !in chains[c];
      if i > 0 {
        assert FrameOk(a, chains, hash, chains[b][i - 1]);
        StoreElsewhere(a.heads[c], a.next, chains[c], chains[b][i - 1], a.next[f]);
        StoreElsewhere(a.heads[c], a.next[chains[b][i - 1] := a.next[f]], chains[c], f, None);
      } else {
        StoreElsewhere(a.heads[c], a.next, chains[c], f, None);
      }
    }
  }

  /** The place of a linked frame in its chain. */
  lemma InChain(a: Arrays, chains: seq<seq<FrameId>>, hash: Tag -> nat, f: FrameId)
    requires TableOk(a, chains, hash) && f < |a.bucketOf| && a.bucketOf[f].Some?
    ensures a.bucketOf[f].value < |chains| && f in chains[a.bucketOf[f].value]
  {
    assert FrameOk(a, chains, hash, f);
  }

  /** A frame is mapped under a tag exactly when it is in the tag's chain with the
      tag as its key. */
  lemma MappedInChain(a: Arrays, chains: seq<seq<FrameId>>, hash: Tag -> nat, tag: Tag, f: FrameId)
    requires TableOk(a, chains, hash)
    ensures f in chains[hash(tag) % |chains|] ==> f < |a.keys|
    ensures f in chains[hash(tag) % |chains|] && a.keys[f] == tag <==> f in Mapping(a) && Mapping(a)[f] == tag
  {
    assert FrameOk(a, chains, hash, f);
  }

  class Table {
    const hash: Tag -> nat
    const heads: array<Link>
    const next: array<Link>
    const bucketOf: array<Option<nat>>
    const keys: array<Tag>
    ghost var chains: seq<seq<FrameId>>

    ghost function View(): Arrays
      reads heads, next, bucketOf, keys
    {
      Arrays(heads[..], next[..], bucketOf[..], keys[..])
    }

    ghost predicate Valid()
      reads this, heads, next, bucketOf, keys
    {
      heads != next && heads != bucketOf && next != bucketOf && TableOk(View(), chains, hash)
    }

    /** The mapping of frames to tags. */
    ghost function Map(): map<FrameId, Tag>
      requires Valid()
      reads this, heads, next, bucketOf, keys
    {
      Mapping(View())
    }

    constructor (buckets: nat, capacity: nat, hash: Tag -> nat)
      requires buckets > 0
      ensures Valid() && Map() == map[] && next.Length == capacity && this.hash == hash
      ensures fresh(heads) && fresh(next) && fresh(bucketOf) && fresh(keys)
    {
      this.hash := hash;
      heads := new Link[buckets](_ => None);
      next := new Link[capacity](_ => None);
      bucketOf := new Option<nat>[capacity](_ => None);
      keys := new Tag[capacity](_ => Tag(0, 0));
      chains := seq(buckets, _ => []);
      new;
      assert forall b :: 0 <= b < |chains| ==> BucketOk(View(), chains, b);
      assert forall f: FrameId :: FrameOk(View(), chains, hash, f);
    }

    function BucketFor(tag: Tag): (b: nat)
      requires heads.Length > 0
      ensures b < heads.Length
    {
      hash(tag) % heads.Length
    }

    /** Walks one chain, at most `capacity` steps, to the first frame with the key
        that is wanted; the step bound never cuts the chain short. */
    method Walk(tag: Tag, skip: Option<FrameId>, wanted: FrameId -> bool) returns (found: Link)
      requires Valid()
      ensures found.Some? ==>
        found != skip && found.value in Map() && Map()[found.value] == tag && wanted(found.value)
      ensures found == None ==> forall f :: f in Map() && Map()[f] == tag && Some(f) != skip ==> !wanted(f)
    {
      var bucket := BucketFor(tag);
      var frame := heads[bucket];
      var steps := 0;
      ghost var chain := chains[bucket];
      assert BucketOk(View(), chains, bucket);
      ChainFits(chain, next.Length);
      found := None;
      while frame.Some? && steps < next.Length
        invariant steps <= |chain| && frame == LinkTo(chain, steps)
        invariant forall i :: 0 <= i < steps && keys[chain[i]] == tag && Some(chain[i]) != skip ==> !wanted(chain[i])
        decreases next.Length - steps
      {
        MappedInChain(View(), chains, hash, tag, frame.value);
        if frame != skip && keys[frame.value] == tag && wanted(frame.value) {
          return frame;
        }
        frame := next[frame.value];
        steps := steps + 1;
      }
      forall f | f in Map() && Map()[f] == tag && Some(f) != skip ensures !wanted(f) {
        MappedInChain(View(), chains, hash, tag, f);
      }
    }

    method Lookup(tag: Tag) returns (found: Link)
      requires Valid()
      ensures found.Some? ==> found.value in Map() && Map()[found.value] == tag
      ensures found == None ==> forall f :: f in Map() ==> Map()[f] != tag
    {
      found := Walk(tag, None, _ => true);
      if found == None {
        assert forall f :: f in Map() && Map()[f] == tag && Some(f) != None ==> !((_: FrameId) => true)(f);
      }
    }

    method Link(tag: Tag, f: FrameId)
      requires Valid() && f < bucketOf.Length && bucketOf[f] == None
      modifies this`chains, heads, next, bucketOf, keys
      ensures Valid() && Map() == old(Map())[f := tag]
    {
      var bucket := BucketFor(tag);
      LinkKeeps(View(), chains, hash, tag, f);
      ghost var linked := LinkedTable(View(), bucket, tag, f);
      keys[f] := tag;
      next[f] := heads[bucket];
      bucketOf[f] := Some(bucket);
      heads[bucket] := Some(f);
      chains := chains[bucket := [f] + chains[bucket]];
      assert View() == linked;
    }

    method Unlink(f: FrameId)
      requires Valid() && f < bucketOf.Length && bucketOf[f].Some?
      modifies this`chains, heads, next, bucketOf
      ensures Valid() && Map() == old(Map()) - {f} && bucketOf[f] == None
    {
      InChain(View(), chains, hash, f);
      var bucket := bucketOf[f].value;
      var after := next[f];
      var current := heads[bucket];
      ghost var chain, i := chains[bucket], 0;
      assert BucketOk(View(), chains, bucket);
      if current == Some(f) {
        heads[bucket] := after;
      } else {
        i := 1;
        while current.Some?
          invariant 0 < i <= |chain| && current == LinkTo(chain, i - 1) && f !in chain[..i]
          invariant View() == old(View())
          decreases |chain| - i
        {
          var following := next[current.value];
          if following == Some(f) {
            next[current.value] := after;
            break;
          }
          current := following;
          i := i + 1;
        }
      }
      assert chain[i] == f;
      UnlinkKeeps(old(View()), chains, hash, bucket, i);
      next[f] := None;
      bucketOf[f] := None;
      assert View() == UnlinkedTable(old(View()), bucket, chain, i);
      chains := chains[bucket := Cut(chain, i)];
    }

    /** Unmaps the frame only if it is mapped under the tag. */
    method Remove(tag: Tag, f: FrameId)
      requires Valid() && f < bucketOf.Length
      modifies this`chains, heads, next, bucketOf
      ensures Valid() && Map() == if f in old(Map()) && old(Map())[f] == tag then old(Map()) - {f} else old(Map())
    {
      if bucketOf[f].Some? && keys[f] == tag {
        Unlink(f);
      }
    }

    /** Maps the frame under the new tag, whatever it was mapped under. */
    method Replace(oldTag: Tag, newTag: Tag, f: FrameId)
      requires Valid() && f < bucketOf.Length
      modifies this`chains, heads, next, bucketOf, keys
      ensures Valid() && Map() == old(Map())[f := newTag]
    {
      if bucketOf[f].Some? && (keys[f] == oldTag || keys[f] != newTag) {
        Unlink(f);
      }
      if bucketOf[f] == None {
        Link(newTag, f);
      }
    }

    /** Maps the frame under the new tag exactly when no other frame mapped there is
        live; otherwise reports such a frame. The old mapping goes either way. */
    method ReplaceUnlessLive(oldTag: Option<Tag>, newTag: Tag, f: FrameId, live: FrameId -> bool)
      returns (existing: Link)
      requires Valid() && f < bucketOf.Length
      modifies this`chains, heads, next, bucketOf, keys
      ensures Valid()
      ensures existing.Some? <==> exists g :: g in old(Map()) && old(Map())[g] == newTag && g != f && live(g)
      ensures existing.Some? ==>
        existing.value in old(Map()) && old(Map())[existing.value] == newTag && existing.value != f
          && live(existing.value)
      ensures Map() == if existing.Some? then old(Map()) - {f} else old(Map())[f := newTag]
    {
      existing := Walk(newTag, Some(f), live);
      var linkedUnderNew := bucketOf[f].Some? && keys[f] == newTag;
      if bucketOf[f].Some? && ((oldTag.Some? && keys[f] == oldTag.value) || !linkedUnderNew || existing.Some?) {
        Unlink(f);
      }
      if existing == None && bucketOf[f] == None {
        Link(newTag, f);
      }
    }
  }
}
