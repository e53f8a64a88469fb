/** Chains of frames: the sequences that linked frames spell out. */
module Chains {
  import opened Types

  /** The element at an index, or none past either end. */
  function LinkTo(chain: seq<FrameId>, i: int): Link { if 0 <= i < |chain| then Some(chain[i]) else None }

  ghost predicate NoRepeats(chain: seq<FrameId>) {
    forall i, j :: 0 <= i < j < |chain| ==> chain[i] != chain[j]
  }

  /** The links from `head` spell out the chain. */
  ghost predicate Linked(head: Link, next: seq<Link>, chain: seq<FrameId>) {
    && head == LinkTo(chain, 0)
    && (forall i :: 0 <= i < |chain| ==> chain[i] < |next|)
    && (forall i {:trigger next[chain[i]]} :: 0 <= i < |chain| ==> next[chain[i]] == LinkTo(chain, i + 1))
  }

  lemma PushLinks(head: Link, next: seq<Link>, chain: seq<FrameId>, f: FrameId)
    requires Linked(head, next, chain) && f < |next| && f !in chain
    ensures Linked(Some(f), next[f := head], [f] + chain)
  {
  }

  lemma StoreElsewhere(head: Link, next: seq<Link>, chain: seq<FrameId>, f: FrameId, link: Link)
    requires Linked(head, next, chain) && f < |next| && f !in chain
    ensures Linked(head, next[f := link], chain)
  {
  }

  function Cut(chain: seq<FrameId>, i: nat): seq<FrameId>
    requires i < |chain|
  {
    chain[..i] + chain[i + 1..]
  }

  lemma InCut(chain: seq<FrameId>, i: nat, g: FrameId)
    requires NoRepeats(chain) && i < |chain|
    ensures g in Cut(chain, i) <==> g in chain && g != chain[i]
  {
    if g in chain && g != chain[i] {
      var k :| 0 <= k < |chain| && chain[k] == g;
      assert Cut(chain, i)[if k < i then k else k - 1] == g;
    }
  }

  lemma CutKeeps(chain: seq<FrameId>, i: nat)
    requires NoRepeats(chain) && i < |chain|
    ensures NoRepeats(Cut(chain, i)) && chain[i] !in Cut(chain, i)
    ensures forall k :: 0 <= k < |chain| - 1 ==> Cut(chain, i)[k] == if k < i then chain[k] else chain[k + 1]
  {
    InCut(chain, i, chain[i]);
  }

  /** Going around node `i` of a chain. */
  lemma CutLinks(head: Link, next: seq<Link>, chain: seq<FrameId>, i: nat)
    requires Linked(head, next, chain) && NoRepeats(chain) && 0 < i < |chain|
    ensures Linked(head, next[chain[i - 1] := next[chain[i]]], Cut(chain, i))
  {
    var cut, next' := Cut(chain, i), next[chain[i - 1] := next[chain[i]]];
    CutKeeps(chain, i);
    forall k | 0 <= k < |cut| ensures next'[cut[k]] == LinkTo(cut, k + 1) {
      if k < i - 1 {
        assert cut[k] == chain[k] && LinkTo(cut, k + 1) == Some(chain[k + 1]);
      } else if k == i - 1 {
        assert cut[k] == chain[k] && LinkTo(cut, k + 1) == LinkTo(chain, i + 1);
      } else {
        assert cut[k] == chain[k + 1] && LinkTo(cut, k + 1) == LinkTo(chain, k + 2);
      }
    }
  }

  /** Pigeonhole: a chain without repeats is no longer than the pool. */
  lemma {:induction false} ChainFits(chain: seq<FrameId>, capacity: nat)
    requires NoRepeats(chain) && forall i :: 0 <= i < |chain| ==> chain[i] < capacity
    ensures |chain| <= capacity
    decreases capacity
  {
    if |chain| > 0 {
      assert chain[0] < capacity;
      if i :| 0 <= i < |chain| && chain[i] == capacity - 1 {
        CutKeeps(chain, i);
        ChainFits(Cut(chain, i), capacity - 1);
      } else {
        ChainFits(chain, capacity - 1);
      }
    }
  }
}
