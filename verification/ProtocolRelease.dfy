/** What the rule for zero-filled pages is worth. `kZeroAndLock` publishes a page of
    zeros clean, so the code relies on its caller to mark the page before releasing it. */
module ProtocolRelease {
  import opened ControlWord
  import opened Protocol
  import opened ProtocolInvariant
  import opened ProtocolLocal
  import opened ProtocolSteps
  import opened ProtocolStored
  import opened ProtocolTheorems
  import opened Types

  /** A page that its holder filled with zeros and did not mark. */
  lemma UnmarkedPage(s: State, a: AgentId)
    requires Inv(s) && HoldsUnmarked(At(s, a))
    ensures var ag := At(s, a);
      && ag.f < |s.frames| && ResidentFor(s.frames[ag.f], ag.tag) && s.frames[ag.f].bytes == Zeros(s.pageSize)
      && !s.frames[ag.f].word.dirty && s.frames[ag.f].word.exclusive && WordOk(s.frames[ag.f].word)
      && s.frames[ag.f].word.pins > 0
  {
    OnKnown(s, a);
  }

  /** Breaking the rule shows at once. */
  lemma UnmarkedReleaseShows(s: State, s': State, a: AgentId, st: Step)
    requires Inv(s) && Apply(s, a, st) == Some(s') && !Heeds(s, a, st)
    ensures !Stored(s')
  {
    UnmarkedPage(s, a);
    var f := At(s, a).f;
    assert !StoredPage(s'.frames[f], Disk(s', s'.frames[f].tag));
  }

  /** Clean pages equal the disk all along a run exactly when every release of a page
      that was filled with zeros comes after a mark, or its block is zero. */
  lemma StoredIffMarked(run: seq<State>, events: seq<Event>)
    requires IsTrace(run, events)
    ensures (forall i :: 0 <= i < |run| ==> Stored(run[i])) <==> Heedful(run, events, |events|)
  {
    if Heedful(run, events, |events|) {
      forall i | 0 <= i < |run| ensures Stored(run[i]) {
        TraceFaithful(run, events, i);
      }
    } else {
      var k :| 0 <= k < |events| && !Heeds(run[k], events[k].agent, events[k].step);
      TraceInv(run, events, k);
      UnmarkedReleaseShows(run[k], run[k + 1], events[k].agent, events[k].step);
    }
  }

  // The block store

  const RELEASE := ByHandle(HandleStep.ReleaseExclusive)
  const UNPIN := ByHandle(Unpin)

  function Evict(tag: Tag): LocalStep { ByLoad(ReserveVictim(tag)) }

  /** The frame and the agent after an unmarked release, an unpin and an eviction. */
  lemma LocalLoss(f: FrameId, fr: Frame, ag: Agent, tag: Tag)
    requires HoldsUnmarked(ag) && WordOk(fr.word) && fr.word.state.Resident? && fr.word.exclusive && !fr.word.dirty
    requires fr.word.pins == 1
    ensures Local(f, fr, ag, RELEASE).Some?
    ensures var r := Local(f, fr, ag, RELEASE).value;
      && r.0 == fr.(word := r.0.word) && r.1.On? && r.1.f == ag.f && Local(f, r.0, r.1, UNPIN).Some?
      && var u := Local(f, r.0, r.1, UNPIN).value;
         && u.0 == fr.(word := u.0.word) && u.1 == Idle && u.0.word.state.Resident?
         && Local(f, u.0, u.1, Evict(tag)).Some?
         && var e := Local(f, u.0, u.1, Evict(tag)).value; e.0 == fr.(word := e.0.word) && e.0.word.state.Loading?
  {
  }

  lemma LossSteps(s: State, a: AgentId, f: FrameId, other: Tag) returns (s1: State, s2: State, s3: State)
    requires HoldsUnmarked(At(s, a)) && At(s, a).f == f < |s.frames| && WordOk(s.frames[f].word)
    requires s.frames[f].word.state.Resident? && s.frames[f].word.exclusive && !s.frames[f].word.dirty
    requires s.frames[f].word.pins == 1
    ensures Apply(s, a, OnFrame(f, RELEASE)) == Some(s1)
    ensures Apply(s1, a, OnFrame(f, UNPIN)) == Some(s2) && At(s2, a).Idle?
    ensures Apply(s2, a, OnFrame(f, Evict(other))) == Some(s3)
    ensures |s2.frames| == |s.frames| && s2.disk == s.disk
    ensures s2.frames == s.frames[f := s.frames[f].(word := s2.frames[f].word)] && s2.frames[f].word.state.Resident?
    ensures |s3.frames| == |s.frames| && s3.disk == s.disk
    ensures s3.frames == s.frames[f := s.frames[f].(word := s3.frames[f].word)] && s3.frames[f].word.state.Loading?
    ensures s2.pageSize == s3.pageSize == s.pageSize
  {
    LocalLoss(f, s.frames[f], At(s, a), other);
    s1 := ApplyLocal(s, a, At(s, a), f, RELEASE).value;
    s2 := ApplyLocal(s1, a, At(s1, a), f, UNPIN).value;
    s3 := ApplyLocal(s2, a, At(s2, a), f, Evict(other)).value;
  }

  /** Breaking the rule loses the zeros: when the holder is the only one on the page,
      it may unpin and the page may be evicted, and the block has its old value again
      although no step put, zeroed or dropped it. */
  lemma UnmarkedReleaseLosesZeros(s: State, a: AgentId, other: Tag) returns (s1: State, s2: State, s3: State)
    requires Inv(s) && HoldsUnmarked(At(s, a)) && At(s, a).f < |s.frames| && s.frames[At(s, a).f].word.pins == 1
    requires Disk(s, At(s, a).tag) != Zeros(s.pageSize)
    ensures Apply(s, a, OnFrame(At(s, a).f, RELEASE)) == Some(s1)
    ensures Apply(s1, a, OnFrame(At(s, a).f, UNPIN)) == Some(s2)
    ensures Apply(s2, a, OnFrame(At(s, a).f, Evict(other))) == Some(s3)
    ensures Value(s, At(s, a).tag) == Value(s2, At(s, a).tag) == Zeros(s.pageSize)
    ensures Value(s3, At(s, a).tag) == Disk(s, At(s, a).tag)
    ensures BlockOpOf(s2, a, OnFrame(At(s, a).f, Evict(other))) == KeepBlocks
    ensures !Performs(s2, s3, KeepBlocks, At(s, a).tag)
  {
    var f, tag := At(s, a).f, At(s, a).tag;
    UnmarkedPage(s, a);
    s1, s2, s3 := LossSteps(s, a, f, other);
    OnlyFrame(s, f, tag);
    OnlyValue(s, f, tag);
    OnlyValue(s2, f, tag);
    AbsentValue(s3, tag);
  }

  lemma OnlyValue(s: State, f: FrameId, tag: Tag)
    requires f < |s.frames| && ResidentFor(s.frames[f], tag)
    requires forall g :: 0 <= g < |s.frames| && g != f ==> !ResidentFor(s.frames[g], tag)
    ensures Value(s, tag) == s.frames[f].bytes
  {
  }

  // A run that breaks the rule

  const TAG := Tag(1, 0)

  /** A pool of one frame with pages of one byte, over a block that holds a one. */
  function Pool(fr: Frame, agents: map<AgentId, Agent>, free: seq<FrameId>): State {
    State([fr], agents, free, map[], map[TAG := [1]], 1, 0, map[], {}, {})
  }

  function Lone(fr: Frame, op: Op): State { Pool(fr, map[0 := On(0, TAG, NoHold, op)], []) }

  const RESERVED := EMPTY_WORD.(state := Loading, pins := 1)
  const INSTALLED := Default().(word := RESERVED, tag := TAG, key := Some(TAG))

  /** A local step of the one agent on the one frame. */
  lemma LoneStep(fr: Frame, ag: Agent, local: LocalStep, fr': Frame, ag': Agent)
    requires ag.On? && ag.f == 0 && Local(0, fr, ag, local) == Some((fr', ag'))
    requires local.ByLoad? && local.load.ZeroFill? ==> local.load.zeros == 1
    ensures Apply(Pool(fr, map[0 := ag], []), 0, OnFrame(0, local)) == Some(Pool(fr', map[0 := ag'], []))
  {
    assert [fr][0 := fr'] == [fr'];
    assert map[0 := ag][0 := ag'] == map[0 := ag'];
  }

  lemma LonePut(fr: Frame, ag: Agent, fr': Frame, ag': Agent)
    ensures PutFrame(Pool(fr, map[0 := ag], []), 0, ag', 0, fr') == Pool(fr', map[0 := ag'], [])
    ensures Put(Pool(fr, map[0 := ag], []), 0, ag') == Pool(fr, map[0 := ag'], [])
  {
    assert [fr][0 := fr'] == [fr'];
    assert map[0 := ag][0 := ag'] == map[0 := ag'];
  }

  lemma PopStep()
    ensures Apply(Pool(Default(), map[], [0]), 0, Pop) ==
      Some(Pool(Default(), map[0 := On(0, NO_TAG, NoHold, Frees(Popped))], []))
  {
    var s := Pool(Default(), map[], [0]);
    assert s.free[1..] == [];
    assert ApplyPop(s, 0, Idle).Some?;
  }

  /** The frame is reserved for the tag. */
  const TAGGED := Default().(word := RESERVED, tag := TAG)
  const LOCKED := Pool(TAGGED, map[0 := On(0, TAG, NoHold, Loads(Installing({})))], []).(locks := map[TAG := 0])

  lemma LockStep()
    ensures Apply(Lone(TAGGED, Loads(Tagged)), 0, LockTags) == Some(LOCKED)
  {
    var s, ag := Lone(TAGGED, Loads(Tagged)), On(0, TAG, NoHold, Loads(Tagged));
    LonePut(TAGGED, ag, TAGGED, ag.(op := Loads(Installing({}))));
    assert LockSet(TAGGED, TAG) == {TAG};
    assert Locked(map[], {TAG}, 0) == map[TAG := 0];
  }

  lemma InstallStep()
    ensures Apply(LOCKED, 0, Install) == Some(Lone(INSTALLED, Loads(Installed)))
  {
    var ag := On(0, TAG, NoHold, Loads(Installing({})));
    assert At(LOCKED, 0) == ag;
    LonePut(TAGGED, ag, INSTALLED, ag.(op := Loads(Installed)));
    assert LockSet(TAGGED, TAG) == {TAG};
    assert LOCKED.locks - {TAG} == map[];
    assert Mapped(LOCKED, 0, ag.(op := Loads(Installed)), Some(TAG)) ==
      Lone(INSTALLED, Loads(Installed)).(locks := map[TAG := 0]) by {
      assert LOCKED.frames[0 := INSTALLED] == [INSTALLED];
      assert LOCKED.agents[0 := ag.(op := Loads(Installed))] == map[0 := ag.(op := Loads(Installed))];
    }
  }

  const ZEROED := INSTALLED.(bytes := Zeros(1))
  const PUBLISHED := ZEROED.(word := RESERVED.(exclusive := true, state := Resident))

  function HeldPool(): State { Pool(PUBLISHED, map[0 := On(0, TAG, ExclusiveHold(false, Some(1)), Ready)], []) }

  lemma ZeroSteps()
    ensures Apply(Lone(INSTALLED, Loads(Installed)), 0, OnFrame(0, ByLoad(ZeroFill(1)))) ==
      Some(Lone(ZEROED, Loads(Zeroed(1))))
    ensures Apply(Lone(ZEROED, Loads(Zeroed(1))), 0, OnFrame(0, ByLoad(ZeroLatch)))
            == Some(Lone(ZEROED.(word := RESERVED.(exclusive := true)), Loads(ZeroLatched(1))))
    ensures Apply(Lone(ZEROED.(word := RESERVED.(exclusive := true)), Loads(ZeroLatched(1))), 0,
      OnFrame(0, ByLoad(ZeroPublish))) == Some(HeldPool())
  {
    var ag := On(0, TAG, NoHold, Loads(Installed));
    LoneStep(INSTALLED, ag, ByLoad(ZeroFill(1)), ZEROED, ag.(op := Loads(Zeroed(1))));
    LoneStep(ZEROED, ag.(op := Loads(Zeroed(1))), ByLoad(ZeroLatch), ZEROED.(word := RESERVED.(exclusive := true)),
      ag.(op := Loads(ZeroLatched(1))));
    LoneStep(ZEROED.(word := RESERVED.(exclusive := true)), ag.(op := Loads(ZeroLatched(1))), ByLoad(ZeroPublish),
             PUBLISHED, On(0, TAG, ExclusiveHold(false, Some(1)), Ready));
  }

  lemma ReserveSteps()
    ensures Apply(Pool(Default(), map[0 := On(0, NO_TAG, NoHold, Frees(Popped))], []), 0,
      OnFrame(0, ByLoad(ReservePopped(TAG))))
            == Some(Lone(Default().(word := RESERVED), Loads(Claimed)))
    ensures Apply(Lone(Default().(word := RESERVED), Loads(Claimed)), 0, OnFrame(0, ByLoad(StoreTag))) ==
      Some(Lone(TAGGED, Loads(Tagged)))
  {
    LoneStep(Default(), On(0, NO_TAG, NoHold, Frees(Popped)), ByLoad(ReservePopped(TAG)),
             Default().(word := RESERVED), On(0, TAG, NoHold, Loads(Claimed)));
    LoneStep(Default().(word := RESERVED), On(0, TAG, NoHold, Loads(Claimed)), ByLoad(StoreTag), TAGGED,
      On(0, TAG, NoHold, Loads(Tagged)));
  }

  lemma Goes(run: seq<State>, events: seq<Event>, a: AgentId, st: Step, s': State)
    requires IsTrace(run, events) && Apply(run[|run| - 1], a, st) == Some(s')
    ensures IsTrace(run + [s'], events + [Event(a, st)])
  {
  }

  /** A run to a zero-filled page over a block that is not zero. */
  lemma HeldRun() returns (run: seq<State>, events: seq<Event>)
    ensures IsTrace(run, events) && run[|run| - 1] == HeldPool()
  {
    run, events := [Pool(Default(), map[], [0])], [];
    PopStep();
    ReserveSteps();
    run, events := Extended(run, events, Pop);
    run, events := Extended(run, events, OnFrame(0, ByLoad(ReservePopped(TAG))));
    run, events := Extended(run, events, OnFrame(0, ByLoad(StoreTag)));
    LockStep();
    InstallStep();
    run, events := Extended(run, events, LockTags);
    run, events := Extended(run, events, Install);
    ZeroSteps();
    run, events := Extended(run, events, OnFrame(0, ByLoad(ZeroFill(1))));
    run, events := Extended(run, events, OnFrame(0, ByLoad(ZeroLatch)));
    run, events := Extended(run, events, OnFrame(0, ByLoad(ZeroPublish)));
  }

  lemma Extended(run: seq<State>, events: seq<Event>, st: Step) returns (run': seq<State>, events': seq<Event>)
    requires IsTrace(run, events) && Apply(run[|run| - 1], 0, st).Some?
    ensures IsTrace(run', events') && run'[|run'| - 1] == Apply(run[|run| - 1], 0, st).value
  {
    var s' := Apply(run[|run| - 1], 0, st).value;
    Goes(run, events, 0, st, s');
    run', events' := run + [s'], events + [Event(0, st)];
  }

  lemma HeldUnmarked()
    ensures var s := HeldPool();
      HoldsUnmarked(At(s, 0)) && At(s, 0).f == 0 && At(s, 0).tag == TAG && s.frames[0].word.pins == 1
    ensures Disk(HeldPool(), TAG) != Zeros(1) && HeldPool().pageSize == 1
  {
    assert At(HeldPool(), 0) == On(0, TAG, ExclusiveHold(false, Some(1)), Ready);
    assert Zeros(1)[0] == 0 && Disk(HeldPool(), TAG)[0] == 1;
  }

  /** The rule is needed: a run of the code in which a clean page differs from the disk,
      and a block changes its value in a step that is no operation of the block store. */
  lemma UnmarkedReleaseFails() returns (run: seq<State>, events: seq<Event>, k: nat)
    ensures IsTrace(run, events) && k + 3 == |run|
    ensures !Stored(run[k])
    ensures var event := events[k + 1];
      BlockOpOf(run[k + 1], event.agent, event.step) == KeepBlocks && !Performs(run[k + 1], run[k + 2], KeepBlocks, TAG)
  {
    run, events := HeldRun();
    var s := HeldPool();
    TraceInv(run, events, |run| - 1);
    HeldUnmarked();
    var s1, s2, s3 := UnmarkedReleaseLosesZeros(s, 0, TAG);
    k := |run|;
    assert !Stored(s1) by {
      UnmarkedReleaseShows(s, s1, 0, OnFrame(0, RELEASE));
    }
    Goes(run, events, 0, OnFrame(0, RELEASE), s1);
    run, events := run + [s1], events + [Event(0, OnFrame(0, RELEASE))];
    Goes(run, events, 0, OnFrame(0, UNPIN), s2);
    run, events := run + [s2], events + [Event(0, OnFrame(0, UNPIN))];
    Goes(run, events, 0, OnFrame(0, Evict(TAG)), s3);
    run, events := run + [s3], events + [Event(0, OnFrame(0, Evict(TAG)))];
  }
}
