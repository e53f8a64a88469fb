/** The lock-free free list: a linked stack of frame ids whose head carries a
    version. One atomic load, store or exchange is one step; threads interleave
    freely. The version is a natural number, so it never wraps. */
module FreeList {
  import opened Chains
  import opened Types

  type ThreadId = nat

  datatype Head = Head(index: Link, version: nat)

  /** Where a thread is. A thread pushes only a frame it owns. */
  datatype Phase =
    | Outside
    | Owns(frame: FrameId)
    | PushLoaded(frame: FrameId, head: Head)
    | PushStored(frame: FrameId, head: Head)
    | PopLoaded(head: Head)
    | PopRead(head: Head, after: Link)

  datatype State = State(head: Head, next: seq<Link>, inUse: set<FrameId>, threads: map<ThreadId, Phase>)

  function At(s: State, t: ThreadId): Phase { if t in s.threads then s.threads[t] else Outside }

  function Goes(s: State, t: ThreadId, phase: Phase): State { s.(threads := s.threads[t := phase]) }

  datatype Step =
    // a frame leaves or enters use: it is freed by its last holder, or reserved
    | FreeFrame(frame: FrameId) | UseFrame
    | PushLoad | PushStore | PushExchange(spurious: bool)
    | PopLoad | PopNext | PopExchange(spurious: bool)

  function Next(s: State, t: ThreadId, st: Step): Option<State> {
    var p := At(s, t);
    match st
    case FreeFrame(f) =>
      if p.Outside? && f in s.inUse && f < |s.next| then Some(Goes(s, t, Owns(f)).(inUse := s.inUse - {f})) else None
    case UseFrame => if p.Owns? then Some(Goes(s, t, Outside).(inUse := s.inUse + {p.frame})) else None
    // Push
    case PushLoad => if p.Owns? then Some(Goes(s, t, PushLoaded(p.frame, s.head))) else None
    case PushStore =>
      if p.PushLoaded? && p.frame < |s.next| then
        Some(Goes(s, t, PushStored(p.frame, p.head)).(next := s.next[p.frame := p.head.index]))
      else None
    case PushExchange(spurious) =>
      if !p.PushStored? then None
      else if s.head == p.head && !spurious then
        Some(Goes(s, t, Outside).(head := Head(Some(p.frame), p.head.version + 1)))
      else Some(Goes(s, t, PushLoaded(p.frame, s.head)))
    // Pop; with an empty list the thread stays outside
    case PopLoad =>
      if p.Outside? then Some(if s.head.index.None? then s else Goes(s, t, PopLoaded(s.head))) else None
    case PopNext =>
      if p.PopLoaded? && p.head.index.Some? && p.head.index.value < |s.next| then
        Some(Goes(s, t, PopRead(p.head, s.next[p.head.index.value])))
      else None
    case PopExchange(spurious) =>
      if !p.PopRead? || p.head.index.None? then None
      else if s.head == p.head && !spurious then
        Some(Goes(s, t, Owns(p.head.index.value)).(head := Head(p.after, p.head.version + 1)))
      else if s.head.index.None? then Some(Goes(s, t, Outside))
      else Some(Goes(s, t, PopLoaded(s.head)))
  }

  // The abstract stack

  predicate Pushed(s: State, t: ThreadId, st: Step) {
    st.PushExchange? && At(s, t).PushStored? && s.head == At(s, t).head && !st.spurious
  }

  predicate Popped(s: State, t: ThreadId, st: Step) {
    st.PopExchange? && At(s, t).PopRead? && s.head == At(s, t).head && !st.spurious
  }

  /** What the step does to the stack: a push or a pop takes effect in the exchange
      that succeeds. */
  function Stacked(s: State, stack: seq<FrameId>, t: ThreadId, st: Step): seq<FrameId> {
    if Pushed(s, t, st) then [At(s, t).frame] + stack
    else if Popped(s, t, st) && stack != [] then stack[1..]
    else stack
  }

  predicate Owner(p: Phase, f: FrameId) { (p.Owns? || p.PushLoaded? || p.PushStored?) && p.frame == f }

  /** The frame is in one place only. */
  ghost predicate OnePlace(s: State, stack: seq<FrameId>, f: FrameId) {
    && (f in stack ==> f !in s.inUse)
    && (forall t :: Owner(At(s, t), f) ==> f !in s.inUse && f !in stack)
    && (forall t, u :: t != u && Owner(At(s, t), f) ==> !Owner(At(s, u), f))
  }

  ghost predicate SomePlace(s: State, stack: seq<FrameId>, f: FrameId) {
    f in s.inUse || f in stack || exists t :: Owner(At(s, t), f)
  }

  /** A frame is in use, on the stack once, or in the hands of one thread. */
  ghost predicate Partition(s: State, stack: seq<FrameId>) {
    && NoRepeats(stack)
    && forall f: FrameId :: OnePlace(s, stack, f) && (f < |s.next| <==> SomePlace(s, stack, f))
  }

  /** What a thread has read is still so as long as the version has not moved. */
  ghost predicate ReadOk(s: State, p: Phase) {
    match p
    case PushLoaded(_, head) => head.version <= s.head.version && (head.version == s.head.version ==> head == s.head)
    case PushStored(f, head) =>
      && head.version <= s.head.version && (head.version == s.head.version ==> head == s.head)
      && f < |s.next| && s.next[f] == head.index
    case PopLoaded(head) =>
      && head.version <= s.head.version && (head.version == s.head.version ==> head == s.head)
      && head.index.Some? && head.index.value < |s.next|
    case PopRead(head, after) =>
      && head.version <= s.head.version && (head.version == s.head.version ==> head == s.head)
      && head.index.Some? && head.index.value < |s.next|
      && (head.version == s.head.version ==> s.next[head.index.value] == after)
    case _ => true
  }

  ghost predicate Inv(s: State, stack: seq<FrameId>) {
    && Linked(s.head.index, s.next, stack) && Partition(s, stack)
    && forall t :: ReadOk(s, At(s, t))
  }

  lemma PushedLinks(head: Link, next: seq<Link>, stack: seq<FrameId>, f: FrameId)
    requires Linked(head, next, stack) && f < |next| && next[f] == head
    ensures Linked(Some(f), next, [f] + stack)
  {
  }

  lemma PopLinks(next: seq<Link>, stack: seq<FrameId>, f: FrameId)
    requires Linked(Some(f), next, stack)
    ensures stack != [] && stack[0] == f && f < |next| && Linked(next[f], next, stack[1..])
  {
  }

  lemma LinksKept(s: State, t: ThreadId, st: Step, s': State, stack: seq<FrameId>)
    requires Linked(s.head.index, s.next, stack) && ReadOk(s, At(s, t)) && Next(s, t, st) == Some(s')
    requires st.PushStore? ==> At(s, t).PushLoaded? && At(s, t).frame !in stack
    ensures Linked(s'.head.index, s'.next, Stacked(s, stack, t, st))
    ensures Popped(s, t, st) ==> stack != [] && At(s', t) == Owns(stack[0])
  {
    if Pushed(s, t, st) {
      PushedLinks(s.head.index, s.next, stack, At(s, t).frame);
    } else if Popped(s, t, st) {
      PopLinks(s.next, stack, s.head.index.value);
    } else if st.PushStore? {
      // The store before a push goes to a frame that is not on the stack.
      StoreElsewhere(s.head.index, s.next, stack, At(s, t).frame, At(s, t).head.index);
    }
  }

  lemma ReadsKept(s: State, t: ThreadId, st: Step, s': State, u: ThreadId)
    requires ReadOk(s, At(s, u)) && ReadOk(s, At(s, t)) && Next(s, t, st) == Some(s')
    requires s.head.index.Some? ==> s.head.index.value < |s.next|
    requires st.PushStore? ==> At(s, t).PushLoaded? && s.head.index != Some(At(s, t).frame)
    requires st.PushStore? && u != t ==> !Owner(At(s, u), At(s, t).frame)
    ensures ReadOk(s', At(s', u))
  {
  }

  /** Where a frame is changes only with the step that moves it. */
  lemma PlaceKept(s: State, t: ThreadId, st: Step, s': State, stack: seq<FrameId>, f: FrameId)
    requires Next(s, t, st) == Some(s') && NoRepeats(stack) && OnePlace(s, stack, f)
    requires Popped(s, t, st) ==> stack != [] && At(s', t) == Owns(stack[0])
    ensures OnePlace(s', Stacked(s, stack, t, st), f)
    ensures SomePlace(s, stack, f) <==> SomePlace(s', Stacked(s, stack, t, st), f)
  {
    var stack' := Stacked(s, stack, t, st);
    assert forall u :: u != t ==> At(s', u) == At(s, u);
    assert f in stack' <==>
      (f in stack && !(Popped(s, t, st) && f == stack[0])) || (Pushed(s, t, st) && f == At(s, t).frame);
    assert Owner(At(s', t), f) || f in stack' || f in s'.inUse <==> Owner(At(s, t), f) || f in stack || f in s.inUse;
    if u :| Owner(At(s, u), f) {
      assert u != t ==> Owner(At(s', u), f);
    }
    if u :| Owner(At(s', u), f) {
      assert u != t ==> Owner(At(s, u), f);
    }
  }

  /** Every step of every thread is a push or a pop of the abstract stack, or leaves
      it alone. */
  lemma StepRefines(s: State, t: ThreadId, st: Step, s': State, stack: seq<FrameId>)
    requires Inv(s, stack) && Next(s, t, st) == Some(s')
    ensures Inv(s', Stacked(s, stack, t, st))
    ensures Popped(s, t, st) ==> stack != [] && At(s', t) == Owns(stack[0])
  {
    assert ReadOk(s, At(s, t));
    if st.PushStore? {
      assert Owner(At(s, t), At(s, t).frame) && OnePlace(s, stack, At(s, t).frame);
    }
    LinksKept(s, t, st, s', stack);
    forall f: FrameId
      ensures OnePlace(s', Stacked(s, stack, t, st), f)
      ensures f < |s'.next| <==> SomePlace(s', Stacked(s, stack, t, st), f)
    {
      assert OnePlace(s, stack, f) && (f < |s.next| <==> SomePlace(s, stack, f));
      PlaceKept(s, t, st, s', stack, f);
    }
    RepeatsKept(s, t, st, stack);
    forall u ensures ReadOk(s', At(s', u)) {
      assert ReadOk(s, At(s, u));
      ReadsKept(s, t, st, s', u);
    }
  }

  lemma RepeatsKept(s: State, t: ThreadId, st: Step, stack: seq<FrameId>)
    requires Partition(s, stack)
    ensures NoRepeats(Stacked(s, stack, t, st))
  {
    if Pushed(s, t, st) {
      assert Owner(At(s, t), At(s, t).frame) && OnePlace(s, stack, At(s, t).frame);
    }
  }

  // Runs

  datatype Event = Event(thread: ThreadId, step: Step)

  ghost predicate IsRun(run: seq<State>, events: seq<Event>) {
    && run != [] && |events| == |run| - 1
    && run[0].head == Head(None, 0) && run[0].threads == map[]
    && (forall f: FrameId :: f in run[0].inUse <==> f < |run[0].next|)
    && forall i :: 0 <= i < |events| ==> Next(run[i], events[i].thread, events[i].step) == Some(run[i + 1])
  }

  lemma InitInv(s: State)
    requires s.head == Head(None, 0) && s.threads == map[] && (forall f: FrameId :: f in s.inUse <==> f < |s.next|)
    ensures Inv(s, [])
  {
    assert forall t :: At(s, t) == Outside;
  }

  /** The stack after `i` steps: the pushes and pops so far, each at the moment of
      its exchange. */
  ghost function StackAt(run: seq<State>, events: seq<Event>, i: nat): seq<FrameId>
    requires i <= |events| && |events| < |run|
  {
    if i == 0 then [] else Stacked(run[i - 1], StackAt(run, events, i - 1), events[i - 1].thread, events[i - 1].step)
  }

  lemma {:induction false} RunInv(run: seq<State>, events: seq<Event>, i: nat)
    requires IsRun(run, events) && i < |run|
    ensures Inv(run[i], StackAt(run, events, i))
  {
    if i > 0 {
      RunInv(run, events, i - 1);
      StepRefines(run[i - 1], events[i - 1].thread, events[i - 1].step, run[i], StackAt(run, events, i - 1));
    } else {
      InitInv(run[0]);
    }
  }

  /** Over every run: a pop that succeeds hands out the frame on top, a pop that
      finds the list empty, at once or after a failed exchange, is right about it, and no frame is ever on the stack and
      in a thread's hands, in two threads' hands, or lost. */
  lemma PopsFromTheTop(run: seq<State>, events: seq<Event>, i: nat)
    requires IsRun(run, events) && i < |events|
    ensures var stack, t, st := StackAt(run, events, i), events[i].thread, events[i].step;
      && (Popped(run[i], t, st) ==>
        stack != [] && At(run[i + 1], t) == Owns(stack[0]) && StackAt(run, events, i + 1) == stack[1..])
      && (Pushed(run[i], t, st) ==> StackAt(run, events, i + 1) == [At(run[i], t).frame] + stack)
      && (st.PopLoad? && At(run[i + 1], t).Outside? ==> stack == [])
      && (st.PopExchange? && At(run[i + 1], t).Outside? ==> stack == [])
      && Partition(run[i], stack)
  {
    RunInv(run, events, i);
    StepRefines(run[i], events[i].thread, events[i].step, run[i + 1], StackAt(run, events, i));
  }
}
