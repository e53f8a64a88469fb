/** The writers of the page table as threads: `Remove`, `Replace` and
    `ReplaceUnlessLive` store by store, each under the locks of one or two stripes
    whose sequences are odd meanwhile. Any number of writers interleave. A step may
    also load what nobody but the writer may store at that moment: a key or bucket of
    its own frame, or what its locks guard. A frame is moved by one writer at a time. */
module PageTableWriters {
  import opened Chains
  import opened Types

  type WriterId = nat

  datatype Call =
    | Remove(f: FrameId, tag: Tag)
    | Replace(f: FrameId, oldTag: Tag, newTag: Tag)
    | ReplaceUnlessLive(f: FrameId, before: Option<Tag>, newTag: Tag)

  datatype LockPc = LoadBucket | Lock(k: nat) | Enter(k: nat)
  /** The search for a live frame under the new tag, and the decision to unlink. */
  datatype WalkPc =
    | WalkHead | WalkTest(link: Link, steps: nat) | WalkAsk(frame: FrameId, steps: nat)
    | WalkNext(frame: FrameId, steps: nat) | Decide
  /** `passed` is the number of nodes before `current`. */
  datatype UnlinkPc =
    | LoadAfter | LoadHead(after: Link) | Search(after: Link, current: Link, passed: nat)
    | BypassHead(after: Link) | BypassNode(after: Link, previous: FrameId, passed: nat)
    | ClearNext | ClearBucket
  datatype LinkPc = StoreFile | StoreBlock | StoreNext | StoreBucket | StoreHead
  datatype LeavePc = Leave(k: nat) | Unlock(k: nat)

  datatype Pc =
    | Locks(locking: LockPc) | Walks(walk: WalkPc) | Unlinks(unlink: UnlinkPc) | Links(link: LinkPc)
    | Leaves(leave: LeavePc)

  /** `bucket` and `stripes` are known once the bucket is loaded. `was` is the mapping
      of the frame when the call began and `asked` are the frames found not to be live;
      both only record history. */
  datatype Writer =
    | Idle
    | Busy(call: Call, bucket: Option<nat>, stripes: seq<nat>, existing: Link, asked: set<FrameId>, was: Option<Tag>,
      pc: Pc)

  datatype Memory = Memory(
    heads: seq<Link>,
    next: seq<Link>,
    bucketOf: seq<Option<nat>>,
    files: seq<nat>,
    blocks: seq<nat>,
    locks: seq<Option<WriterId>>,
    sequence: seq<nat>,
    bucketFor: Tag -> nat,
    /** The stripe that guards each bucket; any assignment will do. */
    stripes: seq<nat>)

  /** `chains` and `home` say which frames are in which bucket; both only record what
      the stores to the links did. */
  datatype Table = Table(m: Memory, chains: seq<seq<FrameId>>, home: seq<Option<nat>>)

  datatype State = State(table: Table, writers: map<WriterId, Writer>)

  function At(s: State, w: WriterId): Writer { if w in s.writers then s.writers[w] else Idle }

  ghost predicate Shape(m: Memory) {
    && |m.stripes| == |m.heads| && |m.locks| == |m.sequence|
    && |m.next| == |m.bucketOf| == |m.files| == |m.blocks|
    && (forall b :: 0 <= b < |m.stripes| ==> m.stripes[b] < |m.sequence|)
    && (forall t: Tag :: m.bucketFor(t) < |m.heads|)
  }

  ghost predicate Sized(t: Table) {
    Shape(t.m) && |t.chains| == |t.m.heads| && |t.home| == |t.m.next|
  }

  function Key(m: Memory, f: FrameId): Tag
    requires f < |m.files| == |m.blocks|
  {
    Tag(m.files[f], m.blocks[f])
  }

  function Mapped(t: Table, f: FrameId): Option<Tag>
    requires f < |t.home| == |t.m.files| == |t.m.blocks|
  {
    if t.home[f].Some? then Some(Key(t.m, f)) else None
  }

  predicate HasNew(call: Call) { !call.Remove? }

  /** The stripes that a call locks, in the order of their addresses. */
  function StripesFor(m: Memory, call: Call, bucket: Option<nat>): seq<nat>
    requires HasNew(call) ==> m.bucketFor(call.newTag) < |m.stripes|
    requires bucket.Some? ==> bucket.value < |m.stripes|
  {
    if call.Remove? then if bucket.Some? then [m.stripes[bucket.value]] else []
    else
      var first := m.stripes[m.bucketFor(call.newTag)];
      if bucket == None || m.stripes[bucket.value] == first then [first]
      else if m.stripes[bucket.value] < first then [m.stripes[bucket.value], first]
      else [first, m.stripes[bucket.value]]
  }

  /** How many of its stripes the writer has locked, from the first on. */
  function Locked(b: Writer): nat
    requires b.Busy?
  {
    match b.pc
    case Locks(LoadBucket) => 0
    case Locks(Lock(k)) => k
    case Locks(Enter(k)) => k + 1
    case Leaves(Leave(k)) => k + 1
    case Leaves(Unlock(k)) => k + 1
    case _ => |b.stripes|
  }

  /** How many of them it has made odd. */
  function Opened(b: Writer): nat
    requires b.Busy?
  {
    match b.pc
    case Locks(LoadBucket) => 0
    case Locks(Lock(k)) => k
    case Locks(Enter(k)) => k
    case Leaves(Leave(k)) => k + 1
    case Leaves(Unlock(k)) => k
    case _ => |b.stripes|
  }

  predicate Holds(b: Writer, stripe: nat) {
    b.Busy? && exists k :: 0 <= k < Locked(b) && k < |b.stripes| && b.stripes[k] == stripe
  }

  predicate Opens(b: Writer, stripe: nat) {
    b.Busy? && exists k :: 0 <= k < Opened(b) && k < |b.stripes| && b.stripes[k] == stripe
  }

  // Steps of one writer

  predicate Moving(b: Writer, f: FrameId) { b.Busy? && b.call.f == f }

  /** The call decides to unlink its frame. */
  predicate WantsUnlink(m: Memory, b: Writer)
    requires b.Busy? && b.call.f < |m.files| == |m.blocks|
  {
    var key := Key(m, b.call.f);
    b.bucket.Some? &&
    match b.call
    case Remove(_, tag) => key == tag
    case Replace(_, oldTag, newTag) => key == oldTag || key != newTag
    case ReplaceUnlessLive(_, before, newTag) => before == Some(key) || key != newTag || b.existing.Some?
  }

  /** Where the call goes on when its frame is unlinked or need not be. */
  function AfterUnlink(m: Memory, b: Writer): Pc
    requires b.Busy? && b.call.f < |m.bucketOf| && |b.stripes| > 0
  {
    if HasNew(b.call) && b.existing == None && m.bucketOf[b.call.f] == None then Links(StoreFile)
    else Leaves(Leave(|b.stripes| - 1))
  }

  function LockStep(m: Memory, w: WriterId, b: Writer): Option<(Memory, Writer)>
    requires b.Busy? && b.pc.Locks?
  {
    var f := b.call.f;
    match b.pc.locking
    case LoadBucket =>
      if f >= |m.bucketOf| || (HasNew(b.call) && m.bucketFor(b.call.newTag) >= |m.stripes|)
         || (m.bucketOf[f].Some? && m.bucketOf[f].value >= |m.stripes|) then None
      else if b.call.Remove? && m.bucketOf[f] == None then Some((m, Idle))
      else Some((m, b.(bucket := m.bucketOf[f], stripes := StripesFor(m, b.call, m.bucketOf[f]), pc := Locks(Lock(0)))))
    case Lock(k) =>
      if k < |b.stripes| && b.stripes[k] < |m.locks| && m.locks[b.stripes[k]] == None then
        Some((m.(locks := m.locks[b.stripes[k] := Some(w)]), b.(pc := Locks(Enter(k)))))
      else None
    case Enter(k) =>
      if k < |b.stripes| && b.stripes[k] < |m.sequence| then
        Some((m.(sequence := m.sequence[b.stripes[k] := m.sequence[b.stripes[k]] + 1]),
              b.(pc := if k + 1 < |b.stripes| then Locks(Lock(k + 1))
                       else if b.call.ReplaceUnlessLive? then Walks(WalkHead) else Walks(Decide))))
      else None
  }

  function WalkStep(m: Memory, b: Writer, live: bool): Option<Writer>
    requires b.Busy? && b.pc.Walks? && Shape(m) && b.call.f < |m.next| && |b.stripes| > 0
    requires b.pc.walk.Decide? || HasNew(b.call)
  {
    match b.pc.walk
    case WalkHead => Some(b.(pc := Walks(WalkTest(m.heads[m.bucketFor(b.call.newTag)], 0))))
    case WalkTest(link, steps) =>
      if link == None || steps >= |m.next| then Some(b.(pc := Walks(Decide)))
      else if link.value >= |m.next| then None
      else if link.value != b.call.f && Key(m, link.value) == b.call.newTag then
        Some(b.(pc := Walks(WalkAsk(link.value, steps))))
      else Some(b.(pc := Walks(WalkNext(link.value, steps))))
    case WalkAsk(frame, steps) =>
      if live then Some(b.(existing := Some(frame), pc := Walks(Decide)))
      else Some(b.(asked := b.asked + {frame}, pc := Walks(WalkNext(frame, steps))))
    case WalkNext(frame, steps) =>
      if frame < |m.next| then Some(b.(pc := Walks(WalkTest(m.next[frame], steps + 1)))) else None
    case Decide => Some(b.(pc := if WantsUnlink(m, b) then Unlinks(LoadAfter) else AfterUnlink(m, b)))
  }

  /** The chain without a frame. */
  function Without(chain: seq<FrameId>, f: FrameId): seq<FrameId> {
    if chain == [] then [] else if chain[0] == f then chain[1..] else [chain[0]] + Without(chain[1..], f)
  }

  /** The table once a store has taken the frame out of its bucket. */
  function Left(t: Table, m: Memory, bucket: nat, f: FrameId): Table
    requires bucket < |t.chains| && f < |t.home|
  {
    Table(m, t.chains[bucket := Without(t.chains[bucket], f)], t.home[f := None])
  }

  function UnlinkStep(t: Table, b: Writer): Option<(Table, Writer)>
    requires b.Busy? && b.pc.Unlinks? && Sized(t) && b.call.f < |t.m.next| && |b.stripes| > 0
    requires b.bucket.Some? && b.bucket.value < |t.m.heads|
  {
    var m, f, bucket := t.m, b.call.f, b.bucket.value;
    match b.pc.unlink
    case LoadAfter => Some((t, b.(pc := Unlinks(LoadHead(m.next[f])))))
    case LoadHead(after) =>
      Some((t, b.(pc :=
        Unlinks(if m.heads[bucket] == Some(f) then BypassHead(after) else Search(after, m.heads[bucket], 0)))))
    case Search(after, current, passed) =>
      if current == None then Some((t, b.(pc := Unlinks(ClearNext))))
      else if current.value >= |m.next| then None
      else if m.next[current.value] == Some(f) then
        Some((t, b.(pc := Unlinks(BypassNode(after, current.value, passed)))))
      else Some((t, b.(pc := Unlinks(Search(after, m.next[current.value], passed + 1)))))
    case BypassHead(after) =>
      Some((Left(t, m.(heads := m.heads[bucket := after]), bucket, f), b.(pc := Unlinks(ClearNext))))
    case BypassNode(after, previous, _) =>
      if previous < |m.next| then
        Some((Left(t, m.(next := m.next[previous := after]), bucket, f), b.(pc := Unlinks(ClearNext))))
      else None
    case ClearNext => Some((t.(m := m.(next := m.next[f := None])), b.(pc := Unlinks(ClearBucket))))
    case ClearBucket =>
      var m' := m.(bucketOf := m.bucketOf[f := None]);
      Some((t.(m := m'), b.(pc := AfterUnlink(m', b))))
  }

  function LinkStep(t: Table, b: Writer): (Table, Writer)
    requires b.Busy? && b.pc.Links? && Sized(t) && b.call.f < |t.m.next| && |b.stripes| > 0 && HasNew(b.call)
  {
    var m, f, tag := t.m, b.call.f, b.call.newTag;
    var bucket := m.bucketFor(tag);
    match b.pc.link
    case StoreFile => (t.(m := m.(files := m.files[f := tag.file])), b.(pc := Links(StoreBlock)))
    case StoreBlock => (t.(m := m.(blocks := m.blocks[f := tag.block])), b.(pc := Links(StoreNext)))
    case StoreNext => (t.(m := m.(next := m.next[f := m.heads[bucket]])), b.(pc := Links(StoreBucket)))
    case StoreBucket => (t.(m := m.(bucketOf := m.bucketOf[f := Some(bucket)])), b.(pc := Links(StoreHead)))
    case StoreHead =>
      (Table(m.(heads := m.heads[bucket := Some(f)]), t.chains[bucket := [f] + t.chains[bucket]],
        t.home[f := Some(bucket)]),
       b.(pc := Leaves(Leave(|b.stripes| - 1))))
  }

  function LeaveStep(m: Memory, b: Writer): Option<(Memory, Writer)>
    requires b.Busy? && b.pc.Leaves?
  {
    match b.pc.leave
    case Leave(k) =>
      if k < |b.stripes| && b.stripes[k] < |m.sequence| then
        Some((m.(sequence := m.sequence[b.stripes[k] := m.sequence[b.stripes[k]] + 1]), b.(pc := Leaves(Unlock(k)))))
      else None
    case Unlock(k) =>
      if k < |b.stripes| && b.stripes[k] < |m.locks| then
        Some((m.(locks := m.locks[b.stripes[k] := None]), if k == 0 then Idle else b.(pc := Leaves(Leave(k - 1)))))
      else None
  }

  function WithMemory(t: Table, r: Option<(Memory, Writer)>): Option<(Table, Writer)> {
    if r == None then None else Some((t.(m := r.value.0), r.value.1))
  }

  /** The next step of a busy writer; `live` answers a question it may ask. */
  ghost function Local(t: Table, w: WriterId, b: Writer, live: bool): Option<(Table, Writer)>
    requires b.Busy?
  {
    if b.pc.Locks? then WithMemory(t, LockStep(t.m, w, b))
    else if b.pc.Leaves? then WithMemory(t, LeaveStep(t.m, b))
    else if !Sized(t) || b.call.f >= |t.m.next| || |b.stripes| == 0 then None
    else if b.pc.Walks? then
      if b.pc.walk.Decide? || HasNew(b.call) then
        var b' := WalkStep(t.m, b, live);
        if b' == None then None else Some((t, b'.value))
      else None
    else if b.pc.Unlinks? then if b.bucket.Some? && b.bucket.value < |t.m.heads| then UnlinkStep(t, b) else None
    else if HasNew(b.call) then Some(LinkStep(t, b)) else None
  }

  // All writers

  datatype Step = Begin(call: Call) | Advance(live: bool)

  ghost function Next(s: State, w: WriterId, st: Step): Option<State> {
    var b, t := At(s, w), s.table;
    match st
    case Begin(call) =>
      if b.Idle? && call.f < |t.home| == |t.m.files| == |t.m.blocks|
         && (forall v: WriterId :: !Moving(At(s, v), call.f)) then
        Some(s.(writers := s.writers[w := Busy(call, None, [], None, {}, Mapped(t, call.f), Locks(LoadBucket))]))
      else None
    case Advance(live) =>
      if b.Idle? || Local(t, w, b, live) == None then None
      else
        var r := Local(t, w, b, live).value;
        Some(State(r.0, s.writers[w := r.1]))
  }

  /** An empty table. */
  ghost predicate Init(s: State) {
    var t := s.table;
    && Sized(t) && s.writers == map[]
    && (forall b :: 0 <= b < |t.chains| ==> t.chains[b] == [] && t.m.heads[b] == None)
    && (forall f :: 0 <= f < |t.home| ==> t.home[f] == None && t.m.bucketOf[f] == None)
    && (forall k :: 0 <= k < |t.m.locks| ==> t.m.locks[k] == None && t.m.sequence[k] == 0)
  }
}
