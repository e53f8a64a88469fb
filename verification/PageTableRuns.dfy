/** All writers together: the order of the page table over whole runs. */
module PageTableRuns {
  import opened Chains
  import opened PageTableOrder
  import opened PageTableProof
  import opened PageTableWriters
  import opened Types

  // The writer that steps

  lemma UnlinkOwn(t: Table, b: Writer, t': Table, b': Writer)
    requires TableOk(t) && b.Busy? && b.pc.Unlinks? && WriterOk(t, b) && |b.stripes| > 0
    requires UnlinkStep(t, b) == Some((t', b'))
    ensures Sized(t') && WriterOk(t', b')
  {
    assert ChainOk(t, b.bucket.value) && HomeOk(t, b.call.f);
    match b.pc.unlink {
      case ClearNext => ClearOwn(t, b, t', b');
      case ClearBucket => ClearOwn(t, b, t', b');
      case BypassHead(_) => BypassOwn(t, b, t', b');
      case BypassNode(_, _, _) => BypassOwn(t, b, t', b');
      case _ => SearchOwn(t, b, t', b');
    }
  }

  lemma WalksOwn(t: Table, b: Writer, live: bool, b': Writer)
    requires TableOk(t) && b.Busy? && b.pc.Walks? && WriterOk(t, b) && |b.stripes| > 0
    requires (b.pc.walk.Decide? || HasNew(b.call)) && WalkStep(t.m, b, live) == Some(b')
    ensures WriterOk(t, b')
  {
    if b.pc.walk.Decide? {
      assert HomeOk(t, b.call.f);
      DecideOwn(t, b, live, b');
    } else {
      var c := t.m.bucketFor(b.call.newTag);
      assert ChainOk(t, c);
      ChainFits(t.chains[c], |t.m.next|);
      WalkOwn(t, b, live, b');
    }
  }

  /** A condition that speaks of no lock and no sequence outlives a change of them. */
  lemma AsideOwn(t: Table, t': Table, b: Writer)
    requires Sized(t) && Aside(t, t') && WriterOk(t, b)
    ensures Sized(t') && WriterOk(t', b)
  {
    if b.Busy? && (b.pc.Walks? || b.pc.Unlinks? || b.pc.Links?) {
      AsideBody(t, t', b);
    }
  }

  lemma AsideBody(t: Table, t': Table, b: Writer)
    requires Sized(t) && Aside(t, t') && b.Busy? && b.call.f < |t.home|
    ensures Sized(t') && (Surveyed(t, b) ==> Surveyed(t', b))
    ensures b.pc.Walks? && WalkOk(t, b, b.pc.walk) ==> WalkOk(t', b, b.pc.walk)
    ensures b.pc.Unlinks? && UnlinkOk(t, b, b.pc.unlink) ==> UnlinkOk(t', b, b.pc.unlink)
    ensures b.pc.Links? && LinkOk(t, b, b.pc.link) ==> LinkOk(t', b, b.pc.link)
  {
  }

  lemma LeaveOwn(t: Table, b: Writer, m': Memory, b': Writer)
    requires Sized(t) && b.Busy? && b.pc.Leaves? && WriterOk(t, b) && LeaveStep(t.m, b) == Some((m', b'))
    ensures WriterOk(t, b')
  {
  }

  lemma StepOwn(t: Table, w: WriterId, b: Writer, live: bool, t': Table, b': Writer)
    requires TableOk(t) && b.Busy? && WriterOk(t, b) && Local(t, w, b, live) == Some((t', b'))
    ensures Sized(t') && WriterOk(t', b')
  {
    match b.pc {
      case Unlinks(_) => UnlinkOwn(t, b, t', b');
      case Links(_) =>
        assert HomeOk(t, b.call.f);
        LinkOwn(t, b, t', b');
      case Walks(_) => WalksOwn(t, b, live, b');
      case Locks(_) =>
        assert HomeOk(t, b.call.f);
        LockOwn(t, w, b, t'.m, b');
        StepAside(t, w, b, live, t', b');
        AsideOwn(t, t', b');
      case Leaves(_) =>
        LeaveOwn(t, b, t'.m, b');
        StepAside(t, w, b, live, t', b');
        AsideOwn(t, t', b');
    }
  }

  // The other writers

  /** The writers share no frame, and what the one has open the other has not. */
  ghost predicate Apart(b: Writer, v: Writer) {
    b.Busy? && v.Busy? && v.call.f != b.call.f && (InBody(v) ==> forall k :: k in v.stripes ==> !Opens(b, k))
  }

  /** The chain with its keys stays. */
  lemma ChainKept(t: Table, t': Table, b: Writer, c: nat)
    requires TableOk(t) && b.Busy? && Quiet(t, t', b) && c < |t.chains| && !Opens(b, t.m.stripes[c])
    ensures t'.chains[c] == t.chains[c] && t'.m.heads[c] == t.m.heads[c]
    ensures forall i :: 0 <= i < |t.chains[c]| ==>
      t.chains[c][i] < |t.home| && Key(t'.m, t.chains[c][i]) == Key(t.m, t.chains[c][i])
    ensures forall i :: 0 <= i < |t.chains[c]| ==> t'.m.next[t.chains[c][i]] == t.m.next[t.chains[c][i]]
  {
    forall i | 0 <= i < |t.chains[c]| ensures t.chains[c][i] < |t.home| && t.home[t.chains[c][i]] == Some(c) {
      assert t.chains[c][i] in t.chains[c] && HomeOk(t, t.chains[c][i]);
    }
  }

  lemma SurveyKept(t: Table, t': Table, v: Writer)
    requires Sized(t) && Sized(t') && v.Busy? && t'.m.bucketFor == t.m.bucketFor && |t'.m.files| == |t.m.files|
    requires v.call.ReplaceUnlessLive? ==> var c := t.m.bucketFor(v.call.newTag);
      t'.chains[c] == t.chains[c] && forall i :: 0 <= i < |t.chains[c]| ==>
        t.chains[c][i] < |t.m.files| && Key(t'.m, t.chains[c][i]) == Key(t.m, t.chains[c][i])
    ensures Surveyed(t, v) ==> Surveyed(t', v)
    ensures forall walk :: WalkOk(t, v, walk) ==> WalkOk(t', v, walk)
  {
  }

  lemma UnlinkKept(t: Table, t': Table, b: Writer, v: Writer)
    requires Sized(t) && b.Busy? && Quiet(t, t', b) && Apart(b, v) && v.pc.Unlinks? && v.call.f < |t.home|
    requires UnlinkOk(t, v, v.pc.unlink) && !Opens(b, t.m.stripes[v.bucket.value])
    ensures UnlinkOk(t', v, v.pc.unlink)
  {
    assert Untouched(t, b, v.call.f);
  }

  lemma LinkKept(t: Table, t': Table, b: Writer, v: Writer)
    requires Sized(t) && b.Busy? && Quiet(t, t', b) && Apart(b, v) && v.pc.Links? && v.call.f < |t.home|
    requires LinkOk(t, v, v.pc.link) && !Opens(b, t.m.stripes[t.m.bucketFor(v.call.newTag)])
    ensures LinkOk(t', v, v.pc.link)
  {
    assert Untouched(t, b, v.call.f);
  }

  lemma BodyKept(t: Table, t': Table, b: Writer, v: Writer)
    requires TableOk(t) && b.Busy? && Quiet(t, t', b) && Apart(b, v) && InBody(v) && WriterOk(t, v)
    ensures WriterOk(t', v)
  {
    OwnStripes(t, v);
    if HasNew(v.call) {
      ChainKept(t, t', b, t.m.bucketFor(v.call.newTag));
    }
    SurveyKept(t, t', v);
    if v.pc.Unlinks? {
      UnlinkKept(t, t', b, v);
    } else if v.pc.Links? {
      LinkKept(t, t', b, v);
    }
  }

  lemma OtherKept(t: Table, t': Table, b: Writer, v: Writer)
    requires TableOk(t) && b.Busy? && Quiet(t, t', b) && Apart(b, v) && WriterOk(t, v)
    ensures WriterOk(t', v)
  {
    if InBody(v) {
      BodyKept(t, t', b, v);
    }
  }

  // Locks and sequences

  lemma OpensIsHeld(b: Writer, k: nat)
    requires Opens(b, k)
    ensures Holds(b, k)
  {
  }

  /** How a step changes one stripe's lock and sequence, and the writer's claims on it. */
  predicate Claims(m: Memory, m': Memory, w: WriterId, b: Writer, b': Writer, k: nat)
    requires k < |m.locks| == |m'.locks| == |m.sequence| == |m'.sequence|
  {
    && (if Holds(b', k) == Holds(b, k) then m'.locks[k] == m.locks[k]
        else if Holds(b', k) then m.locks[k] == None && m'.locks[k] == Some(w)
        else m'.locks[k] == None)
    && (if Opens(b', k) == Opens(b, k) then m'.sequence[k] == m.sequence[k]
        else Holds(b, k) && Holds(b', k) && m'.sequence[k] == m.sequence[k] + 1)
  }

  /** Among distinct stripes, one more is locked or opened. */
  lemma OneMoreStripe(stripes: seq<nat>, i: nat, k: nat)
    requires i < |stripes| && forall x, y :: 0 <= x < y < |stripes| ==> stripes[x] != stripes[y]
    ensures (exists j :: 0 <= j < i + 1 && j < |stripes| && stripes[j] == k) <==>
      stripes[i] == k || exists j :: 0 <= j < i && j < |stripes| && stripes[j] == k
    ensures stripes[i] == k ==> !exists j :: 0 <= j < i && j < |stripes| && stripes[j] == k
  {
    assert stripes[i] == stripes[i];
  }

  lemma LockOneClaims(m: Memory, w: WriterId, b: Writer, i: nat, k: nat)
    requires b.Busy? && i < |b.stripes| && b.stripes[i] < |m.locks| == |m.sequence| && k < |m.locks|
    requires b.pc == Locks(Lock(i)) && m.locks[b.stripes[i]] == None
    requires forall x, y :: 0 <= x < y < |b.stripes| ==> b.stripes[x] != b.stripes[y]
    ensures Claims(m, m.(locks := m.locks[b.stripes[i] := Some(w)]), w, b, b.(pc := Locks(Enter(i))), k)
  {
    OneMoreStripe(b.stripes, i, k);
  }

  lemma EnterClaims(m: Memory, w: WriterId, b: Writer, i: nat, b': Writer, k: nat)
    requires b.Busy? && i < |b.stripes| && b.stripes[i] < |m.locks| == |m.sequence| && k < |m.locks|
    requires b.pc == Locks(Enter(i))
    requires b'.Busy? && b'.stripes == b.stripes && Locked(b') == Opened(b') == i + 1
    requires forall x, y :: 0 <= x < y < |b.stripes| ==> b.stripes[x] != b.stripes[y]
    ensures Claims(m, m.(sequence := m.sequence[b.stripes[i] := m.sequence[b.stripes[i]] + 1]), w, b, b', k)
  {
    OneMoreStripe(b.stripes, i, k);
  }

  lemma LockClaims(t: Table, w: WriterId, b: Writer, m': Memory, b': Writer, k: nat)
    requires Sized(t) && b.Busy? && b.pc.Locks? && WriterOk(t, b) && LockStep(t.m, w, b) == Some((m', b'))
    requires k < |t.m.locks|
    ensures |m'.locks| == |t.m.locks| && |m'.sequence| == |t.m.sequence| && Claims(t.m, m', w, b, b', k)
  {
    match b.pc.locking {
      case LoadBucket =>
      case Lock(i) =>
        OwnStripes(t, b);
        LockOneClaims(t.m, w, b, i, k);
      case Enter(i) =>
        OwnStripes(t, b);
        EnterClaims(t.m, w, b, i, b', k);
    }
  }

  lemma LeaveClaims(t: Table, w: WriterId, b: Writer, m': Memory, b': Writer, k: nat)
    requires Sized(t) && b.Busy? && b.pc.Leaves? && WriterOk(t, b) && LeaveStep(t.m, b) == Some((m', b'))
    requires k < |t.m.locks|
    ensures |m'.locks| == |t.m.locks| && |m'.sequence| == |t.m.sequence| && Claims(t.m, m', w, b, b', k)
  {
    OwnStripes(t, b);
    OneMoreStripe(b.stripes, b.pc.leave.k, k);
  }

  lemma BodyClaims(t: Table, w: WriterId, b: Writer, live: bool, t': Table, b': Writer, k: nat)
    requires InBody(b) && Local(t, w, b, live) == Some((t', b')) && k < |t.m.locks| == |t.m.sequence|
    ensures |t'.m.locks| == |t.m.locks| && |t'.m.sequence| == |t.m.sequence| && Claims(t.m, t'.m, w, b, b', k)
  {
    assert b'.Busy? && b'.stripes == b.stripes && Locked(b') == Locked(b) == Opened(b') == Opened(b) == |b.stripes|;
  }

  lemma StepClaims(t: Table, w: WriterId, b: Writer, live: bool, t': Table, b': Writer, k: nat)
    requires Sized(t) && b.Busy? && WriterOk(t, b) && Local(t, w, b, live) == Some((t', b')) && k < |t.m.locks|
    ensures |t'.m.locks| == |t.m.locks| && |t'.m.sequence| == |t.m.sequence| && Claims(t.m, t'.m, w, b, b', k)
  {
    match b.pc {
      case Locks(_) => LockClaims(t, w, b, t'.m, b', k);
      case Leaves(_) => LeaveClaims(t, w, b, t'.m, b', k);
      case _ => BodyClaims(t, w, b, live, t', b', k);
    }
  }

  lemma StripeKept(s: State, w: WriterId, s': State, k: nat)
    requires k < |s.table.m.locks| == |s'.table.m.locks| == |s.table.m.sequence| == |s'.table.m.sequence|
    requires StripeOk(s, k)
    requires forall v: WriterId :: v != w ==> At(s', v) == At(s, v)
    requires Claims(s.table.m, s'.table.m, w, At(s, w), At(s', w), k)
    ensures StripeOk(s', k)
  {
    forall v: WriterId ensures Holds(At(s', v), k) <==> s'.table.m.locks[k] == Some(v) {
      assert Holds(At(s, v), k) <==> s.table.m.locks[k] == Some(v);
      assert Holds(At(s, w), k) <==> s.table.m.locks[k] == Some(w);
    }
    SequenceKept(s, w, s', k);
  }

  lemma SequenceKept(s: State, w: WriterId, s': State, k: nat)
    requires k < |s.table.m.locks| == |s'.table.m.locks| == |s.table.m.sequence| == |s'.table.m.sequence|
    requires StripeOk(s, k)
    requires forall v: WriterId :: v != w ==> At(s', v) == At(s, v)
    requires Claims(s.table.m, s'.table.m, w, At(s, w), At(s', w), k)
    ensures Even(s'.table.m.sequence[k]) <==> forall v: WriterId :: !Opens(At(s', v), k)
  {
    if Opens(At(s', w), k) == Opens(At(s, w), k) {
      assert forall v: WriterId :: Opens(At(s', v), k) == Opens(At(s, v), k);
    } else {
      assert Holds(At(s, w), k) <==> s.table.m.locks[k] == Some(w);
      forall v: WriterId | v != w ensures !Opens(At(s, v), k) && !Opens(At(s', v), k) {
        assert Holds(At(s, v), k) <==> s.table.m.locks[k] == Some(v);
        if Opens(At(s, v), k) {
          OpensIsHeld(At(s, v), k);
        }
      }
    }
  }

  // Frames and their writers

  lemma OwnerKept(s: State, w: WriterId, s': State, f: FrameId)
    requires Sized(s.table) && Sized(s'.table) && |s'.table.home| == |s.table.home| && f < |s.table.home|
    requires OwnerOk(s, f)
    requires forall v: WriterId :: v != w ==> At(s', v) == At(s, v)
    requires Moving(At(s', w), f) ==> forall v: WriterId :: v != w ==> !Moving(At(s, v), f)
    requires !Moving(At(s', w), f) ==>
      s'.table.m.bucketOf[f] == s'.table.home[f]
        || (!Moving(At(s, w), f) && s'.table.m.bucketOf[f] == s.table.m.bucketOf[f]
          && s'.table.home[f] == s.table.home[f])
    ensures OwnerOk(s', f)
  {
    if forall v: WriterId :: !Moving(At(s', v), f) {
      assert forall v: WriterId :: v != w ==> !Moving(At(s, v), f) by {
        forall v: WriterId | v != w ensures !Moving(At(s, v), f) {
          assert !Moving(At(s', v), f);
        }
      }
      assert !Moving(At(s', w), f);
    }
  }

  lemma BeginKeeps(s: State, w: WriterId, st: Step, s': State)
    requires Inv(s) && st.Begin? && Next(s, w, st) == Some(s')
    ensures Inv(s')
  {
    assert forall v: WriterId :: v != w ==> At(s', v) == At(s, v);
    assert OwnerOk(s, st.call.f);
    forall v: WriterId ensures WriterOk(s'.table, At(s', v)) {
      assert WriterOk(s.table, At(s, v));
      assert !Moving(At(s, v), st.call.f);
    }
    forall k | 0 <= k < |s'.table.m.locks| ensures StripeOk(s', k) {
      assert StripeOk(s, k);
      assert !Holds(At(s, w), k) && !Holds(At(s', w), k) && !Opens(At(s, w), k) && !Opens(At(s', w), k);
      StripeKept(s, w, s', k);
    }
    forall f | 0 <= f < |s'.table.home| ensures OwnerOk(s', f) {
      assert OwnerOk(s, f);
      OwnerKept(s, w, s', f);
    }
  }

  lemma WritersApart(s: State, w: WriterId, v: WriterId)
    requires Inv(s) && v != w && At(s, w).Busy? && At(s, v).Busy?
    ensures Apart(At(s, w), At(s, v))
  {
    var b, u := At(s, w), At(s, v);
    assert WriterOk(s.table, b) && WriterOk(s.table, u);
    assert OwnerOk(s, u.call.f) && Moving(u, u.call.f);
    if InBody(u) {
      OwnStripes(s.table, u);
      forall k | k in u.stripes ensures !Opens(b, k) {
        BodyOpens(u, k);
        OpensIsHeld(u, k);
        assert StripeOk(s, k);
        if Opens(b, k) {
          OpensIsHeld(b, k);
        }
      }
    }
  }

  lemma OthersKept(s: State, w: WriterId, b: Writer, t': Table, v: WriterId)
    requires Inv(s) && b == At(s, w) && b.Busy? && Quiet(s.table, t', b) && v != w
    ensures WriterOk(t', At(s, v))
  {
    assert WriterOk(s.table, At(s, v));
    if At(s, v).Busy? {
      WritersApart(s, w, v);
      OtherKept(s.table, t', b, At(s, v));
    }
  }

  lemma FrameKept(s: State, w: WriterId, b: Writer, t': Table, b': Writer, s': State, f: FrameId)
    requires Inv(s) && b == At(s, w) && b.Busy? && s' == State(t', s.writers[w := b']) && Quiet(s.table, t', b)
    requires f < |s.table.home|
    requires b'.Busy? ==> b'.call == b.call
    requires b'.Idle? ==> t'.m.bucketOf[b.call.f] == t'.home[b.call.f]
    ensures OwnerOk(s', f)
  {
    assert OwnerOk(s, f) && WriterOk(s.table, b);
    assert forall v: WriterId :: v != w ==> At(s', v) == At(s, v);
    if Moving(b', f) {
      forall v: WriterId | v != w ensures !Moving(At(s, v), f) {
        assert Moving(At(s, w), f);
      }
    }
    OwnerKept(s, w, s', f);
  }

  lemma CallStays(t: Table, w: WriterId, b: Writer, live: bool, t': Table, b': Writer)
    requires Sized(t) && b.Busy? && WriterOk(t, b) && Local(t, w, b, live) == Some((t', b'))
    ensures b'.Busy? ==> b'.call == b.call && b'.was == b.was
    ensures b'.Idle? ==>
      t'.m.bucketOf == t.m.bucketOf && t'.home == t.home && t.m.bucketOf[b.call.f] == t.home[b.call.f]
  {
  }

  lemma AdvanceKeeps(s: State, w: WriterId, live: bool, s': State)
    requires Inv(s) && Next(s, w, Advance(live)) == Some(s')
    ensures Inv(s')
  {
    var t, b, t', b' := s.table, At(s, w), s'.table, At(s', w);
    assert WriterOk(t, b);
    StepQuiet(t, w, b, live, t', b');
    StepTable(t, w, b, live, t', b');
    StepOwn(t, w, b, live, t', b');
    CallStays(t, w, b, live, t', b');
    forall v: WriterId ensures WriterOk(t', At(s', v)) {
      if v != w {
        OthersKept(s, w, b, t', v);
      }
    }
    forall k | 0 <= k < |t'.m.locks| ensures StripeOk(s', k) {
      assert StripeOk(s, k);
      StepClaims(t, w, b, live, t', b', k);
      StripeKept(s, w, s', k);
    }
    forall f | 0 <= f < |t'.home| ensures OwnerOk(s', f) {
      FrameKept(s, w, b, t', b', s', f);
    }
  }

  lemma StepKeeps(s: State, w: WriterId, st: Step, s': State)
    requires Inv(s) && Next(s, w, st) == Some(s')
    ensures Inv(s')
  {
    if st.Begin? {
      BeginKeeps(s, w, st, s');
    } else {
      AdvanceKeeps(s, w, st.live, s');
    }
  }

  lemma InitInv(s: State)
    requires Init(s)
    ensures Inv(s)
  {
    forall c | 0 <= c < |s.table.chains| ensures ChainOk(s.table, c) {
      assert s.table.chains[c] == [];
    }
    assert forall f: FrameId :: HomeOk(s.table, f);
  }

  // Runs

  datatype Event = Event(writer: WriterId, step: Step)

  ghost predicate IsRun(run: seq<State>, events: seq<Event>) {
    && |run| == |events| + 1 && Init(run[0])
    && forall i :: 0 <= i < |events| ==> Next(run[i], events[i].writer, events[i].step) == Some(run[i + 1])
  }

  /** Chains are in order, apart and in the right buckets in every state of every run. */
  lemma {:induction false} RunInv(run: seq<State>, events: seq<Event>, i: nat)
    requires IsRun(run, events) && i < |run|
    ensures Inv(run[i])
  {
    if i == 0 {
      InitInv(run[0]);
    } else {
      RunInv(run, events, i - 1);
      StepKeeps(run[i - 1], events[i - 1].writer, events[i - 1].step, run[i - 1 + 1]);
    }
  }

  /** A step changes the mapping of no frame but its writer's. */
  lemma MappingMovesAlone(run: seq<State>, events: seq<Event>, i: nat, g: FrameId)
    requires IsRun(run, events) && i < |events| && g < |run[i].table.home| && !Moving(At(run[i], events[i].writer), g)
    ensures Sized(run[i].table) && Sized(run[i + 1].table) && g < |run[i + 1].table.home|
    ensures Mapped(run[i + 1].table, g) == Mapped(run[i].table, g)
  {
    RunInv(run, events, i);
    var s, w, st := run[i], events[i].writer, events[i].step;
    assert WriterOk(s.table, At(s, w));
    if st.Advance? {
      StepQuiet(s.table, w, At(s, w), st.live, run[i + 1].table, At(run[i + 1], w));
    }
  }

  /** A call that returns leaves its frame with the mapping it promises. A removal may
      return at once because the frame is in no bucket. */
  lemma CallIsExact(run: seq<State>, events: seq<Event>, i: nat)
    requires IsRun(run, events) && i < |events|
    requires At(run[i], events[i].writer).Busy? && At(run[i + 1], events[i].writer).Idle?
    ensures var b := At(run[i], events[i].writer);
      && Sized(run[i + 1].table) && b.call.f < |run[i + 1].table.home|
      && Mapped(run[i + 1].table, b.call.f) == Result(b)
  {
    RunInv(run, events, i);
    RunInv(run, events, i + 1);
    assert WriterOk(run[i].table, At(run[i], events[i].writer));
    assert HomeOk(run[i].table, At(run[i], events[i].writer).call.f);
  }

  /** When a call links its frame under a tag unless another is live, every other
      frame mapped under the tag at that moment was asked and was not. */
  lemma InstallsAmongTheDead(run: seq<State>, events: seq<Event>, i: nat, w: WriterId, g: FrameId)
    requires IsRun(run, events) && i < |run| && At(run[i], w).Busy? && At(run[i], w).pc == Links(StoreHead)
    requires At(run[i], w).call.ReplaceUnlessLive? && g < |run[i].table.home| && g != At(run[i], w).call.f
    ensures Sized(run[i].table)
    ensures Mapped(run[i].table, g) == Some(At(run[i], w).call.newTag) ==> g in At(run[i], w).asked
  {
    RunInv(run, events, i);
    var t, b := run[i].table, At(run[i], w);
    assert WriterOk(t, b) && HomeOk(t, g);
    if Mapped(t, g) == Some(b.call.newTag) {
      var c := t.m.bucketFor(b.call.newTag);
      assert g in t.chains[c];
      var k :| 0 <= k < |t.chains[c]| && t.chains[c][k] == g;
    }
  }
}
