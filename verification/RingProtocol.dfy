/**
 Any number of threads running `write_slot` and one reader per registered process running
 `read_slot` over one shared region, interleaved one semaphore operation or one critical section
 at a time. `owner`, `log`, `entries`, `calls`, the `call` of a writer, `delivered` and `emptyPosts`
 are history: no guard looks at them.
 */
module RingProtocol {
  import opened Common
  import opened Runs
  import opened Sequences
  import opened SharedRing

  /** A call of `engine_send`: by the process registered at `origin`, with this frame. */
  datatype Call = Call(origin: nat, frame: seq<Byte>)

  /** Where a thread stands inside `write_slot`. */
  datatype WriterPc =
    | Idle
    | WantEmpty(slot: Slot, call: Call)       // before the wait on EMPTY
    | HasToken(slot: Slot, call: Call)        // past EMPTY, before the mutex
    | WriterLocked(slot: Slot, call: Call)    // holds the mutex, has not taken a number
    | Posting(next: nat)                      // in the post loop, about to post pending[next]
  {
    predicate InSection() { WriterLocked? || Posting? }
  }

  /** Where a reader stands inside `read_slot`. */
  datatype ReaderPc =
    | Waiting                     // before the wait on its pending semaphore
    | Notified                    // past it, before the mutex
    | ReaderLocked                // holds the mutex, has not advanced
    | Consumed(post: bool)        // has advanced and copied, still holds the mutex
    | Owing                       // mutex released, has yet to post EMPTY
  {
    predicate InSection() { ReaderLocked? || Consumed? }
  }

  datatype Owner = Nobody | WriterOwns(w: nat) | ReaderOwns(r: nat)

  datatype State = State(
    mem: Shared,
    writers: seq<WriterPc>,
    readers: seq<ReaderPc>,
    owner: Owner,
    log: seq<Slot>,
    entries: seq<Call>,
    calls: multiset<Call>,
    delivered: seq<seq<seq<Byte>>>,
    emptyPosts: nat)

  /** The parameters of a run: slots in the ring, registered readers, writer threads. */
  datatype Config = Config(slotCount: nat, readers: nat, writers: nat)
  {
    ghost predicate Valid() {
      slotCount > 0 && 0 < readers <= MAX_COMPONENTS
    }
  }

  datatype Event =
    | Send(w: nat, origin: nat, frame: seq<Byte>)
    | TakeEmpty(w: nat)
    | LockWriter(w: nat)
    | PublishSlot(w: nat)
    | PostReader(w: nat)
    | UnlockWriter(w: nat)
    | TakePending(r: nat)
    | LockReader(r: nat)
    | ConsumeSlot(r: nat)
    | UnlockReader(r: nat)
    | GiveEmpty(r: nat)

  function Init(c: Config): State
  {
    State(InitShared(c.slotCount, c.readers),
          seq(c.writers, _ => Idle), seq(c.readers, _ => Waiting),
          Nobody, [], [], multiset{}, seq(c.readers, _ => []), 0)
  }

  predicate Shaped(c: Config, s: State)
  {
    && |s.mem.slots| == c.slotCount > 0
    && 0 < c.readers == |s.mem.readSeq| == |s.mem.pending| == |s.readers| == |s.delivered|
    && |s.writers| == c.writers
  }

  /** Whether e can be taken now; a semaphore wait can be taken only while it would not block. */
  predicate Enabled(c: Config, s: State, e: Event)
    requires Shaped(c, s)
  {
    match e
    case Send(w, origin, frame) => w < c.writers && s.writers[w].Idle? && origin < c.readers && frame != []
    case TakeEmpty(w) => w < c.writers && s.writers[w].WantEmpty? && s.mem.empty > 0
    case LockWriter(w) => w < c.writers && s.writers[w].HasToken? && s.mem.mutex > 0
    case PublishSlot(w) =>
      w < c.writers && s.writers[w].WriterLocked? && s.mem.nextWriteSeq < UINT64_MAX
    case PostReader(w) => w < c.writers && s.writers[w].Posting? && s.writers[w].next < c.readers
    case UnlockWriter(w) => w < c.writers && s.writers[w].Posting? && s.writers[w].next >= c.readers
    case TakePending(r) => r < c.readers && s.readers[r].Waiting? && s.mem.pending[r] > 0
    case LockReader(r) => r < c.readers && s.readers[r].Notified? && s.mem.mutex > 0
    case ConsumeSlot(r) => r < c.readers && s.readers[r].ReaderLocked?
    case UnlockReader(r) => r < c.readers && s.readers[r].Consumed?
    case GiveEmpty(r) => r < c.readers && s.readers[r].Owing?
  }

  function SetWriter(s: State, w: nat, pc: WriterPc): State
    requires w < |s.writers|
  {
    s.(writers := s.writers[w := pc])
  }

  function SetReader(s: State, r: nat, pc: ReaderPc): State
    requires r < |s.readers|
  {
    s.(readers := s.readers[r := pc])
  }

  function ApplyWriter(c: Config, s: State, e: Event): State
    requires Shaped(c, s) && Enabled(c, s, e)
    requires e.Send? || e.TakeEmpty? || e.LockWriter? || e.PublishSlot? || e.PostReader? || e.UnlockWriter?
  {
    match e
    case Send(w, origin, frame) =>
      var call := Call(origin, frame);
      SetWriter(s, w, WantEmpty(SlotFrom(origin, frame), call)).(calls := s.calls + multiset{call})
    case TakeEmpty(w) =>
      SetWriter(s, w, HasToken(s.writers[w].slot, s.writers[w].call)).(mem := s.mem.(empty := s.mem.empty - 1))
    case LockWriter(w) =>
      SetWriter(s, w, WriterLocked(s.writers[w].slot, s.writers[w].call))
      .(mem := s.mem.(mutex := s.mem.mutex - 1), owner := WriterOwns(w))
    case PublishSlot(w) =>
      SetWriter(s, w, Posting(0))
      .(mem := Publish(s.mem, s.writers[w].slot), log := s.log + [s.writers[w].slot],
        entries := s.entries + [s.writers[w].call])
    case PostReader(w) =>
      var i := s.writers[w].next;
      SetWriter(s, w, Posting(i + 1))
      .(mem := s.mem.(pending := s.mem.pending[i := s.mem.pending[i] + 1]))
    case UnlockWriter(w) =>
      SetWriter(s, w, Idle).(mem := s.mem.(mutex := s.mem.mutex + 1), owner := Nobody)
  }

  function ApplyReader(c: Config, s: State, e: Event): State
    requires Shaped(c, s) && Enabled(c, s, e)
    requires e.TakePending? || e.LockReader? || e.ConsumeSlot? || e.UnlockReader? || e.GiveEmpty?
  {
    match e
    case TakePending(r) =>
      SetReader(s, r, Notified)
      .(mem := s.mem.(pending := s.mem.pending[r := s.mem.pending[r] - 1]))
    case LockReader(r) =>
      SetReader(s, r, ReaderLocked).(mem := s.mem.(mutex := s.mem.mutex - 1), owner := ReaderOwns(r))
    case ConsumeSlot(r) =>
      var slot := NextSlot(s.mem, r);
      var mem := Advance(s.mem, r);
      var copied := if ShouldRead(r, slot) then [Truncate(slot.frame, FRAME_SIZE)] else [];
      SetReader(s, r, Consumed(PostsEmpty(mem, r)))
      .(mem := mem, delivered := s.delivered[r := s.delivered[r] + copied])
    case UnlockReader(r) =>
      SetReader(s, r, if s.readers[r].post then Owing else Waiting)
      .(mem := s.mem.(mutex := s.mem.mutex + 1), owner := Nobody)
    case GiveEmpty(r) =>
      SetReader(s, r, Waiting)
      .(mem := s.mem.(empty := s.mem.empty + 1), emptyPosts := s.emptyPosts + 1)
  }

  function Apply(c: Config, s: State, e: Event): (s': State)
    requires Shaped(c, s) && Enabled(c, s, e)
    ensures Shaped(c, s')
  {
    if e.TakePending? || e.LockReader? || e.ConsumeSlot? || e.UnlockReader? || e.GiveEmpty?
    then ApplyReader(c, s, e)
    else ApplyWriter(c, s, e)
  }

  ghost predicate Step(c: Config, s: State, e: Event, s': State)
  {
    Shaped(c, s) && Enabled(c, s, e) && s' == Apply(c, s, e)
  }

  ghost function StepOf(c: Config): (State, Event, State) -> bool
  {
    (s, e, s') => Step(c, s, e, s')
  }

  ghost predicate Reachable(c: Config, s: State)
  {
    c.Valid() && exists es :: Run(StepOf(c), Init(c), es, s)
  }

  // ----- The invariant, clause by clause -----

  /** The frames reader `me` must have been handed once it has passed all of `log`. */
  function Received(me: nat, log: seq<Slot>): seq<seq<Byte>>
  {
    if log == [] then []
    else
      var last := log[|log| - 1];
      Received(me, log[..|log| - 1]) + (if ShouldRead(me, last) then [last.frame] else [])
  }

  function WriterToken(pc: WriterPc): nat
  {
    if pc.HasToken? || pc.WriterLocked? then 1 else 0
  }

  function ReaderOwes(pc: ReaderPc): nat
  {
    if pc.Owing? || pc == Consumed(true) then 1 else 0
  }

  function ReaderHolds(pc: ReaderPc): nat
  {
    if pc.Notified? || pc.ReaderLocked? then 1 else 0
  }

  /** 1 while the publishing writer's post loop has not yet reached reader i. */
  function NotYetPosted(s: State, i: nat): nat
  {
    if s.owner.WriterOwns? && s.owner.w < |s.writers| && s.writers[s.owner.w].Posting?
       && s.writers[s.owner.w].next <= i
    then 1 else 0
  }

  ghost predicate MutexInv(c: Config, s: State)
    requires Shaped(c, s)
  {
    && s.mem.mutex == (if s.owner.Nobody? then 1 else 0)
    && (forall w :: 0 <= w < c.writers ==>
          (s.writers[w].InSection() <==> s.owner == WriterOwns(w)))
    && (forall r :: 0 <= r < c.readers ==>
          (s.readers[r].InSection() <==> s.owner == ReaderOwns(r)))
    && (s.owner.WriterOwns? ==> s.owner.w < c.writers)
    && (s.owner.ReaderOwns? ==> s.owner.r < c.readers)
  }

  ghost predicate PendingInv(c: Config, s: State)
    requires Shaped(c, s)
  {
    forall i :: 0 <= i < c.readers ==>
      s.mem.pending[i] + ReaderHolds(s.readers[i]) + NotYetPosted(s, i) + s.mem.readSeq[i] == s.mem.nextWriteSeq
  }

  ghost predicate TokenInv(c: Config, s: State)
    requires Shaped(c, s)
  {
    && s.mem.empty + Total(WriterToken, s.writers) + s.mem.nextWriteSeq == c.slotCount + s.emptyPosts
    && s.emptyPosts + Total(ReaderOwes, s.readers) == Min(s.mem.readSeq)
  }

  ghost predicate SlotInv(c: Config, s: State)
    requires Shaped(c, s)
  {
    && s.mem.nextWriteSeq == |s.log| <= UINT64_MAX
    && (forall q :: 0 <= q < |s.log| && |s.log| <= q + c.slotCount ==>
          s.mem.slots[q % c.slotCount] == s.log[q])
  }

  /** What a slot written by a registered process looks like. */
  predicate Sent(c: Config, slot: Slot)
  {
    && |slot.frame| <= FRAME_SIZE
    && (|| (slot.writer == GATEWAY_WRITER && slot.flags == Flags(true, false))
        || (0 < slot.writer < c.readers && slot.flags == Flags(true, true)))
  }

  ghost predicate FrameInv(c: Config, s: State)
    requires Shaped(c, s)
  {
    && (forall q :: 0 <= q < |s.log| ==> Sent(c, s.log[q]))
    && (forall w :: 0 <= w < c.writers && !s.writers[w].Idle? && !s.writers[w].Posting? ==>
          Sent(c, s.writers[w].slot))
  }

  /** What the ring holds for a call: its frame, cut to a slot's size, its writer's name and who may read it. */
  predicate Wrote(slot: Slot, call: Call)
  {
    && slot.frame == (if |call.frame| <= FRAME_SIZE then call.frame else call.frame[..FRAME_SIZE])
    && slot.writer == (if call.origin == GATEWAY_SLOT then GATEWAY_WRITER else call.origin)
    && slot.flags.toComponents && (slot.flags.toGateway <==> call.origin != GATEWAY_SLOT)
  }

  /** The call of a writer that has not been numbered. */
  function HeldCall(pc: WriterPc): Option<Call>
  {
    if pc.Idle? || pc.Posting? then None else Some(pc.call)
  }

  /** Every entry of the log, and every slot on its way there, is what its call wrote. */
  ghost predicate EntryInv(c: Config, s: State)
  {
    && |s.entries| == |s.log|
    && (forall q :: 0 <= q < |s.log| ==> s.entries[q].origin < c.readers && Wrote(s.log[q], s.entries[q]))
    && (forall w :: 0 <= w < |s.writers| && HeldCall(s.writers[w]).Some? ==>
          s.writers[w].call.origin < c.readers && Wrote(s.writers[w].slot, s.writers[w].call))
  }

  /** The calls that have no number yet. */
  function Unwritten(writers: seq<WriterPc>): multiset<Call>
  {
    Gather(Holding, writers)
  }

  function Holding(pc: WriterPc): multiset<Call>
  {
    if HeldCall(pc).Some? then multiset{HeldCall(pc).value} else multiset{}
  }

  ghost predicate CallInv(c: Config, s: State)
  {
    s.calls == multiset(s.entries) + Unwritten(s.writers)
  }

  ghost predicate DeliveryInv(c: Config, s: State)
    requires Shaped(c, s)
  {
    forall i :: 0 <= i < c.readers ==>
      s.mem.readSeq[i] <= |s.log| && s.delivered[i] == Received(i, s.log[..s.mem.readSeq[i]])
  }

  ghost predicate Inv(c: Config, s: State)
  {
    && c.Valid()
    && Shaped(c, s)
    && MutexInv(c, s)
    && PendingInv(c, s)
    && TokenInv(c, s)
    && SlotInv(c, s)
    && FrameInv(c, s)
    && CallInv(c, s)
    && EntryInv(c, s)
    && DeliveryInv(c, s)
  }

  lemma InitInv(c: Config)
    requires c.Valid()
    ensures Inv(c, Init(c))
  {
    var s := Init(c);
    GatherNothing(Holding, s.writers);
    TotalZero(WriterToken, s.writers);
    TotalZero(ReaderOwes, s.readers);
    assert s.mem.readSeq[0] == 0;
    assert Min(s.mem.readSeq) == 0;
  }

  /** A reader whose next number is not yet posted cannot be past its pending wait. */
  lemma HolderHasUnread(c: Config, s: State, r: nat)
    requires Inv(c, s) && r < c.readers && s.readers[r].ReaderLocked?
    ensures s.mem.readSeq[r] < |s.log| <= s.mem.readSeq[r] + c.slotCount
    ensures NextSlot(s.mem, r) == s.log[s.mem.readSeq[r]]
  {
    assert Min(s.mem.readSeq) <= s.mem.readSeq[r];
  }

  /** The minimum rises, by one, exactly when the advancing reader sees itself at most level with all others. */
  lemma MinAdvance(m: Shared, r: nat)
    requires m.WellFormed() && r < |m.readSeq| && m.readSeq[r] < UINT64_MAX
    ensures Min(Advance(m, r).readSeq) == Min(m.readSeq) + (if PostsEmpty(Advance(m, r), r) then 1 else 0)
  {
    var before, after := m.readSeq, Advance(m, r).readSeq;
    var least := LeastNotMe(after, r, |after|);
    var a, b := Min(before), Min(after);
    var ja :| 0 <= ja < |before| && before[ja] == a;
    var jb :| 0 <= jb < |after| && after[jb] == b;
    assert b <= after[ja] && b <= after[r] && a <= before[jb] && a <= before[r];
    if least != UINT64_MAX {
      var k :| 0 <= k < |after| && k != r && after[k] == least;
      assert a <= before[k] && b <= after[k];
    }
  }

  lemma WriterStepKeepsMutex(c: Config, s: State, e: Event)
    requires Shaped(c, s) && MutexInv(c, s) && Enabled(c, s, e)
    requires e.Send? || e.TakeEmpty? || e.LockWriter? || e.PublishSlot? || e.PostReader? || e.UnlockWriter?
    ensures MutexInv(c, Apply(c, s, e))
  {
  }

  lemma ReaderStepKeepsMutex(c: Config, s: State, e: Event)
    requires Shaped(c, s) && MutexInv(c, s) && Enabled(c, s, e)
    requires e.TakePending? || e.LockReader? || e.ConsumeSlot? || e.UnlockReader? || e.GiveEmpty?
    ensures MutexInv(c, Apply(c, s, e))
  {
  }

  lemma WriterStepKeepsPending(c: Config, s: State, e: Event)
    requires Shaped(c, s) && MutexInv(c, s) && PendingInv(c, s) && Enabled(c, s, e)
    requires e.Send? || e.TakeEmpty? || e.LockWriter? || e.PublishSlot? || e.PostReader? || e.UnlockWriter?
    ensures PendingInv(c, Apply(c, s, e))
  {
    var s' := Apply(c, s, e);
    forall i | 0 <= i < c.readers
      ensures s'.mem.pending[i] + ReaderHolds(s'.readers[i]) + NotYetPosted(s', i) + s'.mem.readSeq[i]
              == s'.mem.nextWriteSeq
    {
      assert s.mem.pending[i] + ReaderHolds(s.readers[i]) + NotYetPosted(s, i) + s.mem.readSeq[i]
             == s.mem.nextWriteSeq;
    }
  }

  lemma ReaderStepKeepsPending(c: Config, s: State, e: Event)
    requires Shaped(c, s) && MutexInv(c, s) && PendingInv(c, s) && Enabled(c, s, e)
    requires e.TakePending? || e.LockReader? || e.ConsumeSlot? || e.UnlockReader? || e.GiveEmpty?
    ensures PendingInv(c, Apply(c, s, e))
  {
    var s' := Apply(c, s, e);
    forall i | 0 <= i < c.readers
      ensures s'.mem.pending[i] + ReaderHolds(s'.readers[i]) + NotYetPosted(s', i) + s'.mem.readSeq[i]
              == s'.mem.nextWriteSeq
    {
      assert s.mem.pending[i] + ReaderHolds(s.readers[i]) + NotYetPosted(s, i) + s.mem.readSeq[i]
             == s.mem.nextWriteSeq;
    }
  }

  lemma WriterStepKeepsTokens(c: Config, s: State, e: Event)
    requires Shaped(c, s) && TokenInv(c, s) && Enabled(c, s, e)
    requires e.Send? || e.TakeEmpty? || e.LockWriter? || e.PublishSlot? || e.PostReader? || e.UnlockWriter?
    ensures TokenInv(c, Apply(c, s, e))
  {
    TotalUpdate(WriterToken, s.writers, e.w, Apply(c, s, e).writers[e.w]);
  }

  lemma ReaderStepKeepsTokens(c: Config, s: State, e: Event)
    requires Shaped(c, s) && TokenInv(c, s) && Enabled(c, s, e)
    requires e.TakePending? || e.LockReader? || e.ConsumeSlot? || e.UnlockReader? || e.GiveEmpty?
    requires e.ConsumeSlot? ==> s.mem.readSeq[e.r] < UINT64_MAX
    ensures TokenInv(c, Apply(c, s, e))
  {
    TotalUpdate(ReaderOwes, s.readers, e.r, Apply(c, s, e).readers[e.r]);
    if e.ConsumeSlot? {
      MinAdvance(s.mem, e.r);
    }
  }

  lemma SendKeepsCalls(c: Config, s: State, w: nat, origin: nat, frame: seq<Byte>)
    requires Shaped(c, s) && CallInv(c, s) && Enabled(c, s, Send(w, origin, frame))
    ensures CallInv(c, Apply(c, s, Send(w, origin, frame)))
  {
    var call := Call(origin, frame);
    var pc := WantEmpty(SlotFrom(origin, frame), call);
    GatherUpdate(Holding, s.writers, w, pc);
    CallAdds(s.calls, multiset(s.entries), Unwritten(s.writers), call, Unwritten(s.writers[w := pc]));
  }

  lemma PublishKeepsCalls(c: Config, s: State, w: nat)
    requires Shaped(c, s) && CallInv(c, s) && Enabled(c, s, PublishSlot(w))
    ensures CallInv(c, Apply(c, s, PublishSlot(w)))
  {
    GatherUpdate(Holding, s.writers, w, Posting(0));
    LogTakesOver(s.calls, s.entries, Unwritten(s.writers), s.writers[w].call, Unwritten(s.writers[w := Posting(0)]));
  }

  /** A writer's step that neither starts a call nor numbers a slot. */
  lemma MoveKeepsCalls(c: Config, s: State, w: nat, s': State)
    requires w < |s.writers| == |s'.writers| && s'.writers == s.writers[w := s'.writers[w]]
    requires HeldCall(s'.writers[w]) == HeldCall(s.writers[w])
    requires s'.calls == s.calls && s'.entries == s.entries && CallInv(c, s)
    ensures CallInv(c, s')
  {
    GatherUpdate(Holding, s.writers, w, s'.writers[w]);
    MultisetCancel(Unwritten(s'.writers), Unwritten(s.writers), Holding(s'.writers[w]));
  }

  lemma LogTakesOver(calls: multiset<Call>, log: seq<Call>, before: multiset<Call>, call: Call, after: multiset<Call>)
    requires calls == multiset(log) + before
    requires after + multiset{call} == before + multiset{}
    ensures calls == multiset(log + [call]) + after
  {
    assert before + multiset{} == before;
    assert multiset(log + [call]) == multiset(log) + multiset{call};
    assert multiset(log) + multiset{call} + after == multiset(log) + (after + multiset{call});
  }

  lemma CallAdds(calls: multiset<Call>, log: multiset<Call>, before: multiset<Call>, call: Call, after: multiset<Call>)
    requires calls == log + before
    requires after + multiset{} == before + multiset{call}
    ensures calls + multiset{call} == log + after
  {
    assert after + multiset{} == after;
    assert log + (before + multiset{call}) == log + before + multiset{call};
  }

  lemma WriterStepKeepsEntries(c: Config, s: State, e: Event)
    requires Shaped(c, s) && EntryInv(c, s) && Enabled(c, s, e)
    requires e.Send? || e.TakeEmpty? || e.LockWriter? || e.PublishSlot? || e.PostReader? || e.UnlockWriter?
    ensures EntryInv(c, Apply(c, s, e))
  {
  }

  lemma PublishKeepsSlots(c: Config, s: State, w: nat)
    requires Shaped(c, s) && SlotInv(c, s) && Enabled(c, s, PublishSlot(w))
    ensures SlotInv(c, Apply(c, s, PublishSlot(w)))
  {
    var s' := Apply(c, s, PublishSlot(w));
    forall q | 0 <= q < |s'.log| && |s'.log| <= q + c.slotCount
      ensures s'.mem.slots[q % c.slotCount] == s'.log[q]
    {
      if q < |s.log| {
        ModSeparates(q, |s.log|, c.slotCount);
      }
    }
  }

  lemma StepKeepsFrames(c: Config, s: State, e: Event)
    requires c.Valid() && Shaped(c, s) && FrameInv(c, s) && Enabled(c, s, e)
    ensures FrameInv(c, Apply(c, s, e))
  {
  }

  lemma PublishKeepsDelivery(c: Config, s: State, w: nat)
    requires Shaped(c, s) && DeliveryInv(c, s) && Enabled(c, s, PublishSlot(w))
    ensures DeliveryInv(c, Apply(c, s, PublishSlot(w)))
  {
    var s' := Apply(c, s, PublishSlot(w));
    forall i | 0 <= i < c.readers
      ensures s'.mem.readSeq[i] <= |s'.log| && s'.delivered[i] == Received(i, s'.log[..s'.mem.readSeq[i]])
    {
      assert s'.log[..s'.mem.readSeq[i]] == s.log[..s.mem.readSeq[i]];
    }
  }

  lemma ConsumeKeepsDelivery(c: Config, s: State, r: nat)
    requires Shaped(c, s) && DeliveryInv(c, s) && Enabled(c, s, ConsumeSlot(r))
    requires s.mem.readSeq[r] < |s.log| && NextSlot(s.mem, r) == s.log[s.mem.readSeq[r]]
    requires |NextSlot(s.mem, r).frame| <= FRAME_SIZE
    ensures DeliveryInv(c, Apply(c, s, ConsumeSlot(r)))
  {
    var at := s.mem.readSeq[r];
    assert s.log[..at + 1][..at] == s.log[..at];
    assert Apply(c, s, ConsumeSlot(r)).delivered[r] == Received(r, s.log[..at + 1]);
  }

  /** What a step leaves alone keeps its clauses. */
  lemma SlotsUntouched(c: Config, s: State, s': State)
    requires Shaped(c, s) && Shaped(c, s') && SlotInv(c, s)
    requires s'.mem.slots == s.mem.slots && s'.mem.nextWriteSeq == s.mem.nextWriteSeq && s'.log == s.log
    ensures SlotInv(c, s')
  {
  }

  lemma DeliveryUntouched(c: Config, s: State, s': State)
    requires Shaped(c, s) && Shaped(c, s') && DeliveryInv(c, s)
    requires s'.mem.readSeq == s.mem.readSeq && s'.delivered == s.delivered && s'.log == s.log
    ensures DeliveryInv(c, s')
  {
  }

  lemma ReaderStepKeepsInv(c: Config, s: State, e: Event)
    requires Inv(c, s) && Enabled(c, s, e)
    requires e.TakePending? || e.LockReader? || e.ConsumeSlot? || e.UnlockReader? || e.GiveEmpty?
    ensures Inv(c, Apply(c, s, e))
  {
    StepKeepsFrames(c, s, e);
    ReaderStepKeepsMutex(c, s, e);
    ReaderStepKeepsPending(c, s, e);
    if e.ConsumeSlot? {
      HolderHasUnread(c, s, e.r);
      ConsumeKeepsDelivery(c, s, e.r);
    } else {
      DeliveryUntouched(c, s, Apply(c, s, e));
    }
    SlotsUntouched(c, s, Apply(c, s, e));
    ReaderStepKeepsTokens(c, s, e);
  }

  lemma PublishKeepsInv(c: Config, s: State, w: nat)
    requires Inv(c, s) && Enabled(c, s, PublishSlot(w))
    ensures Inv(c, Apply(c, s, PublishSlot(w)))
  {
    var e := PublishSlot(w);
    StepKeepsFrames(c, s, e);
    WriterStepKeepsMutex(c, s, e);
    WriterStepKeepsPending(c, s, e);
    WriterStepKeepsTokens(c, s, e);
    WriterStepKeepsEntries(c, s, e);
    PublishKeepsCalls(c, s, w);
    PublishKeepsSlots(c, s, w);
    PublishKeepsDelivery(c, s, w);
  }

  /** A writer's step before or after it numbers its slot changes what no call holds. */
  lemma EntryKeepsCalls(c: Config, s: State, e: Event)
    requires Shaped(c, s) && CallInv(c, s) && Enabled(c, s, e)
    requires e.TakeEmpty? || e.LockWriter? || e.PostReader? || e.UnlockWriter?
    ensures CallInv(c, Apply(c, s, e))
  {
    StepKeepsHolding(c, s, e);
    MoveKeepsCalls(c, s, e.w, Apply(c, s, e));
  }

  lemma StepKeepsHolding(c: Config, s: State, e: Event)
    requires Shaped(c, s) && Enabled(c, s, e)
    requires e.TakeEmpty? || e.LockWriter? || e.PostReader? || e.UnlockWriter?
    ensures
      var s' := Apply(c, s, e);
      && e.w < |s.writers| == |s'.writers| && s'.writers == s.writers[e.w := s'.writers[e.w]]
      && HeldCall(s'.writers[e.w]) == HeldCall(s.writers[e.w])
      && s'.calls == s.calls && s'.entries == s.entries
  {
  }

  /** The steps that neither number a slot nor read one leave the log, the slots and the positions alone. */
  lemma LogUntouched(c: Config, s: State, e: Event)
    requires Shaped(c, s) && SlotInv(c, s) && DeliveryInv(c, s) && Enabled(c, s, e)
    requires e.Send? || e.TakeEmpty? || e.LockWriter? || e.PostReader? || e.UnlockWriter?
    ensures Shaped(c, Apply(c, s, e)) && SlotInv(c, Apply(c, s, e)) && DeliveryInv(c, Apply(c, s, e))
  {
    SlotsUntouched(c, s, Apply(c, s, e));
    DeliveryUntouched(c, s, Apply(c, s, e));
  }

  lemma EntryKeepsInv(c: Config, s: State, e: Event)
    requires Inv(c, s) && Enabled(c, s, e) && (e.TakeEmpty? || e.LockWriter?)
    ensures Inv(c, Apply(c, s, e))
  {
    StepKeepsFrames(c, s, e);
    WriterStepKeepsMutex(c, s, e);
    WriterStepKeepsPending(c, s, e);
    WriterStepKeepsTokens(c, s, e);
    WriterStepKeepsEntries(c, s, e);
    EntryKeepsCalls(c, s, e);
    LogUntouched(c, s, e);
  }

  lemma ExitKeepsInv(c: Config, s: State, e: Event)
    requires Inv(c, s) && Enabled(c, s, e) && (e.PostReader? || e.UnlockWriter?)
    ensures Inv(c, Apply(c, s, e))
  {
    StepKeepsFrames(c, s, e);
    WriterStepKeepsMutex(c, s, e);
    WriterStepKeepsPending(c, s, e);
    WriterStepKeepsTokens(c, s, e);
    WriterStepKeepsEntries(c, s, e);
    EntryKeepsCalls(c, s, e);
    LogUntouched(c, s, e);
  }

  lemma SendKeepsInv(c: Config, s: State, e: Event)
    requires Inv(c, s) && Enabled(c, s, e) && e.Send?
    ensures Inv(c, Apply(c, s, e))
  {
    StepKeepsFrames(c, s, e);
    WriterStepKeepsMutex(c, s, e);
    WriterStepKeepsPending(c, s, e);
    WriterStepKeepsTokens(c, s, e);
    WriterStepKeepsEntries(c, s, e);
    SendKeepsCalls(c, s, e.w, e.origin, e.frame);
    LogUntouched(c, s, e);
  }

  lemma StepKeepsInv(c: Config, s: State, e: Event)
    requires Inv(c, s) && Enabled(c, s, e)
    ensures Inv(c, Apply(c, s, e))
  {
    if e.PublishSlot? {
      PublishKeepsInv(c, s, e.w);
    } else if e.Send? {
      SendKeepsInv(c, s, e);
    } else if e.TakeEmpty? || e.LockWriter? {
      EntryKeepsInv(c, s, e);
    } else if e.PostReader? || e.UnlockWriter? {
      ExitKeepsInv(c, s, e);
    } else {
      ReaderStepKeepsInv(c, s, e);
    }
  }

  lemma ReachableInv(c: Config, s: State)
    requires Reachable(c, s)
    ensures Inv(c, s)
  {
    var es :| Run(StepOf(c), Init(c), es, s);
    InitInv(c);
    var inv := t => Inv(c, t);
    forall t, e, t' | inv(t) && StepOf(c)(t, e, t')
      ensures inv(t')
    {
      StepKeepsInv(c, t, e);
    }
    Keeps(StepOf(c), inv, Init(c), es, s);
  }
}
