/** Lookups without locks beside any number of writers. A lookup walks a chain by
    single loads and keeps its answer only if the stripe's sequence was even and has
    not moved. */
module PageTableLookup {
  import opened Chains
  import opened PageTableOrder
  import opened PageTableProof
  import opened PageTableRuns
  import opened PageTableWriters
  import opened Types

  datatype Reader =
    | Before
    | LoadHead(before: nat)
    | Test(before: nat, link: Link, steps: nat)
    | TestBlock(before: nat, frame: FrameId, steps: nat)
    | LoadNext(before: nat, frame: FrameId, steps: nat)
    | Validate(before: nat, found: Link)
    | Returned(found: Link)

  /** The stripe of the tag's bucket. */
  function StripeOf(m: Memory, tag: Tag): nat
    requires m.bucketFor(tag) < |m.stripes|
  {
    m.stripes[m.bucketFor(tag)]
  }

  /** One load of `LookupFrameId`. */
  function Reads(m: Memory, tag: Tag, r: Reader): Reader
    requires Shape(m)
  {
    var b, sequence := m.bucketFor(tag), m.sequence[StripeOf(m, tag)];
    match r
    case Before => if Even(sequence) then Reader.LoadHead(sequence) else Before
    case LoadHead(before) => Test(before, m.heads[b], 0)
    case Test(before, frame, steps) =>
      if frame == None || steps >= |m.next| || frame.value >= |m.next| then Validate(before, None)
      else if m.files[frame.value] == tag.file then TestBlock(before, frame.value, steps)
      else LoadNext(before, frame.value, steps)
    case TestBlock(before, frame, steps) =>
      if frame < |m.next| && m.blocks[frame] == tag.block then Validate(before, Some(frame))
      else LoadNext(before, frame, steps)
    case LoadNext(before, frame, steps) =>
      if frame < |m.next| then Test(before, m.next[frame], steps + 1) else Validate(before, None)
    case Validate(before, found) => if sequence == before then Returned(found) else Before
    case Returned(_) => r
  }

  ghost predicate KeyIs(m: Memory, f: FrameId, tag: Tag) {
    f < |m.files| == |m.blocks| && Key(m, f) == tag
  }

  /** The walk is at node `steps` of the chain and has passed no frame with the tag. */
  ghost predicate Walked(t: Table, tag: Tag, frame: Link, steps: nat)
    requires Sized(t)
  {
    var chain := t.chains[t.m.bucketFor(tag)];
    steps <= |chain| && frame == LinkTo(chain, steps) && forall i :: 0 <= i < steps ==> !KeyIs(t.m, chain[i], tag)
  }

  /** The answer that the tag's chain gives right now. */
  ghost predicate Answers(t: Table, tag: Tag, found: Link)
    requires Sized(t)
  {
    var chain := t.chains[t.m.bucketFor(tag)];
    if found.Some? then found.value in chain && KeyIs(t.m, found.value, tag)
    else forall i :: 0 <= i < |chain| ==> !KeyIs(t.m, chain[i], tag)
  }

  predicate Walking(r: Reader) { r.LoadHead? || r.Test? || r.TestBlock? || r.LoadNext? || r.Validate? }

  /** What the walk knows if the chain has not changed since it began. */
  ghost predicate Exact(t: Table, tag: Tag, r: Reader)
    requires Sized(t)
  {
    match r
    case Test(_, frame, steps) => Walked(t, tag, frame, steps)
    case TestBlock(_, frame, steps) =>
      Walked(t, tag, Some(frame), steps) && frame < |t.m.files| && t.m.files[frame] == tag.file
    case LoadNext(_, frame, steps) => Walked(t, tag, Some(frame), steps) && !KeyIs(t.m, frame, tag)
    case Validate(_, found) => Answers(t, tag, found)
    case _ => true
  }

  /** As long as the stripe's sequence is what the reader saw, its walk is exact. */
  ghost predicate ReaderOk(t: Table, tag: Tag, r: Reader)
    requires Sized(t)
  {
    Walking(r) ==>
      var sequence := t.m.sequence[StripeOf(t.m, tag)];
      Even(r.before) && r.before <= sequence && (r.before == sequence ==> Exact(t, tag, r))
  }

  /** While a stripe's sequence is even and a step does not move it, its chains, their
      links and their keys stand still. */
  lemma RestingIsFrozen(s: State, w: WriterId, st: Step, s': State, c: nat)
    requires Inv(s) && Next(s, w, st) == Some(s') && c < |s.table.chains|
    requires Even(s.table.m.sequence[s.table.m.stripes[c]])
    ensures Sized(s'.table) && |s'.table.chains| == |s.table.chains| && |s'.table.home| == |s.table.home|
    ensures s'.table.chains[c] == s.table.chains[c] && s'.table.m.heads[c] == s.table.m.heads[c]
    ensures forall i :: 0 <= i < |s.table.chains[c]| ==>
      var f := s.table.chains[c][i];
      f < |s.table.home| && Key(s'.table.m, f) == Key(s.table.m, f) && s'.table.m.next[f] == s.table.m.next[f]
  {
    var t, b := s.table, At(s, w);
    assert StripeOk(s, t.m.stripes[c]) && WriterOk(t, b) && ChainOk(t, c);
    if st.Advance? {
      assert !Opens(b, t.m.stripes[c]);
      StepQuiet(t, w, b, st.live, s'.table, At(s', w));
      ChainKept(t, s'.table, b, c);
    }
  }

  lemma FrozenReader(t: Table, t': Table, tag: Tag, r: Reader)
    requires Sized(t) && Sized(t') && t'.m.bucketFor == t.m.bucketFor && |t'.m.files| == |t.m.files| && Exact(t, tag, r)
    requires var c := t.m.bucketFor(tag); t'.chains[c] == t.chains[c] && forall i :: 0 <= i < |t.chains[c]| ==>
      t.chains[c][i] < |t.m.files| && Key(t'.m, t.chains[c][i]) == Key(t.m, t.chains[c][i])
    ensures Exact(t', tag, r)
  {
    var chain := t.chains[t.m.bucketFor(tag)];
    assert r.TestBlock? ==> chain[r.steps] == r.frame;
    assert r.LoadNext? ==> chain[r.steps] == r.frame;
  }

  lemma SequenceGrows(s: State, w: WriterId, st: Step, s': State)
    requires Inv(s) && Next(s, w, st) == Some(s')
    ensures s'.table.m.bucketFor == s.table.m.bucketFor && s'.table.m.stripes == s.table.m.stripes
    ensures |s'.table.m.sequence| == |s.table.m.sequence|
    ensures forall k :: 0 <= k < |s.table.m.sequence| ==> s.table.m.sequence[k] <= s'.table.m.sequence[k]
  {
    var t, b := s.table, At(s, w);
    assert WriterOk(t, b);
    if st.Advance? {
      StepQuiet(t, w, b, st.live, s'.table, At(s', w));
      forall k | 0 <= k < |t.m.sequence| ensures t.m.sequence[k] <= s'.table.m.sequence[k] {
        StepClaims(t, w, b, st.live, s'.table, At(s', w), k);
      }
    }
  }

  lemma WriterKeepsReader(s: State, w: WriterId, st: Step, s': State, tag: Tag, r: Reader)
    requires Inv(s) && Inv(s') && Next(s, w, st) == Some(s') && ReaderOk(s.table, tag, r)
    ensures ReaderOk(s'.table, tag, r)
  {
    SequenceGrows(s, w, st, s');
    if Walking(r) && r.before == s'.table.m.sequence[StripeOf(s'.table.m, tag)] {
      RestingIsFrozen(s, w, st, s', s.table.m.bucketFor(tag));
      FrozenReader(s.table, s'.table, tag, r);
    }
  }

  /** The step bound stops the walk only at the end of the chain. */
  lemma ReaderStepKeeps(t: Table, tag: Tag, r: Reader)
    requires Sized(t) && ChainOk(t, t.m.bucketFor(tag)) && ReaderOk(t, tag, r)
    ensures ReaderOk(t, tag, Reads(t.m, tag, r))
    ensures !r.Returned? && Reads(t.m, tag, r).Returned? ==>
      Even(t.m.sequence[StripeOf(t.m, tag)]) && Answers(t, tag, Reads(t.m, tag, r).found)
  {
    ChainFits(t.chains[t.m.bucketFor(tag)], |t.m.next|);
  }

  // Runs of one lookup among any writers

  datatype Turn = Writes(event: Event) | Lookup

  ghost predicate IsRun(run: seq<State>, readers: seq<Reader>, turns: seq<Turn>, tag: Tag) {
    && |run| == |readers| == |turns| + 1 && Init(run[0]) && readers[0] == Before
    && forall i :: 0 <= i < |turns| ==> Moves(run[i], readers[i], turns[i], run[i + 1], readers[i + 1], tag)
  }

  ghost predicate Moves(s: State, r: Reader, turn: Turn, s': State, r': Reader, tag: Tag) {
    match turn
    case Writes(event) => Next(s, event.writer, event.step) == Some(s') && r' == r
    case Lookup => s' == s && Shape(s.table.m) && r' == Reads(s.table.m, tag, r)
  }

  lemma {:induction false} RunOk(run: seq<State>, readers: seq<Reader>, turns: seq<Turn>, tag: Tag, i: nat)
    requires IsRun(run, readers, turns, tag) && i < |run|
    ensures Inv(run[i]) && ReaderOk(run[i].table, tag, readers[i])
  {
    if i == 0 {
      InitInv(run[0]);
    } else {
      var k := i - 1;
      RunOk(run, readers, turns, tag, k);
      assert Moves(run[k], readers[k], turns[k], run[k + 1], readers[k + 1], tag);
      if turns[k].Writes? {
        StepKeeps(run[k], turns[k].event.writer, turns[k].event.step, run[i]);
        WriterKeepsReader(run[k], turns[k].event.writer, turns[k].event.step, run[i], tag, readers[k]);
      } else {
        assert ChainOk(run[k].table, run[k].table.m.bucketFor(tag));
        ReaderStepKeeps(run[k].table, tag, readers[k]);
      }
    }
  }

  lemma AnswerIsMapping(t: Table, tag: Tag, found: Link)
    requires TableOk(t) && Answers(t, tag, found)
    ensures found.Some? ==> found.value < |t.home| && Mapped(t, found.value) == Some(tag)
    ensures found == None ==> forall f :: 0 <= f < |t.home| ==> Mapped(t, f) != Some(tag)
  {
    var c := t.m.bucketFor(tag);
    if found.Some? {
      assert HomeOk(t, found.value);
    } else {
      forall f | 0 <= f < |t.home| ensures Mapped(t, f) != Some(tag) {
        assert HomeOk(t, f);
        if f in t.chains[c] {
          var i :| 0 <= i < |t.chains[c]| && t.chains[c][i] == f;
        }
      }
    }
  }

  /** A lookup that returns agrees with the mapping at a moment during the call, the
      one at which it validates, whatever writers do around it. */
  lemma LookupIsExact(run: seq<State>, readers: seq<Reader>, turns: seq<Turn>, tag: Tag, i: nat)
    requires IsRun(run, readers, turns, tag) && i < |turns| && !readers[i].Returned? && readers[i + 1].Returned?
    ensures Sized(run[i].table)
    ensures var t, found := run[i].table, readers[i + 1].found;
      && (found.Some? ==> found.value < |t.home| && Mapped(t, found.value) == Some(tag))
      && (found == None ==> forall f :: 0 <= f < |t.home| ==> Mapped(t, f) != Some(tag))
  {
    RunOk(run, readers, turns, tag, i);
    assert Moves(run[i], readers[i], turns[i], run[i + 1], readers[i + 1], tag);
    var t := run[i].table;
    assert ChainOk(t, t.m.bucketFor(tag));
    ReaderStepKeeps(t, tag, readers[i]);
    AnswerIsMapping(t, tag, readers[i + 1].found);
  }
}
