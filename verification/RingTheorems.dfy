/** What the ring guarantees in every reachable state, for any number of readers, writers and slots. */
module RingTheorems {
  import opened Common
  import opened Runs
  import opened Sequences
  import opened SharedRing
  import opened RingProtocol

  /** The unbounded log a ring stands for: what was written, and how far each reader has come. */
  datatype Log = Log(entries: seq<Slot>, position: seq<nat>, received: seq<seq<seq<Byte>>>)

  function LogOf(s: State): Log
  {
    Log(s.log, s.mem.readSeq, s.delivered)
  }

  ghost predicate LogAppend(l: Log, l': Log)
  {
    |l'.entries| == |l.entries| + 1 && l'.entries[..|l.entries|] == l.entries
    && l'.position == l.position && l'.received == l.received
  }

  /** Reader r moves over the entry at its position and keeps the frame if it is meant to read it. */
  ghost predicate LogRead(l: Log, l': Log, r: nat)
  {
    && r < |l.position| == |l.received| && l.position[r] < |l.entries|
    && l'.entries == l.entries
    && l'.position == l.position[r := l.position[r] + 1]
    && var entry := l.entries[l.position[r]];
       l'.received == l.received[r := l.received[r] + (if ShouldRead(r, entry) then [entry.frame] else [])]
  }

  lemma ConsumeReadsLog(c: Config, s: State, r: nat)
    requires Shaped(c, s) && Enabled(c, s, ConsumeSlot(r))
    requires s.mem.readSeq[r] < |s.log| && NextSlot(s.mem, r) == s.log[s.mem.readSeq[r]]
    requires |NextSlot(s.mem, r).frame| <= FRAME_SIZE
    ensures LogRead(LogOf(s), LogOf(Apply(c, s, ConsumeSlot(r))), r)
  {
  }

  lemma OtherStepsKeepLog(c: Config, s: State, e: Event)
    requires Shaped(c, s) && Enabled(c, s, e) && !e.ConsumeSlot?
    ensures
      var l, l' := LogOf(s), LogOf(Apply(c, s, e));
      if e.PublishSlot? then LogAppend(l, l') else l' == l
  {
  }

  lemma NextToRead(c: Config, s: State, r: nat)
    requires Inv(c, s) && r < c.readers && s.readers[r].ReaderLocked?
    ensures s.mem.readSeq[r] < |s.log| && NextSlot(s.mem, r) == s.log[s.mem.readSeq[r]]
    ensures |NextSlot(s.mem, r).frame| <= FRAME_SIZE
  {
    HolderHasUnread(c, s, r);
    assert Sent(c, s.log[s.mem.readSeq[r]]);
  }

  /** The ring refines the log: each step appends, reads one entry in place, or changes nothing. */
  lemma RingRefinesLog(c: Config, s: State, e: Event)
    requires Reachable(c, s) && Shaped(c, s) && Enabled(c, s, e)
    ensures
      var l, l' := LogOf(s), LogOf(Apply(c, s, e));
      if e.PublishSlot? then LogAppend(l, l')
      else if e.ConsumeSlot? then LogRead(l, l', e.r)
      else l' == l
  {
    ReachableInv(c, s);
    if e.ConsumeSlot? {
      NextToRead(c, s, e.r);
      ConsumeReadsLog(c, s, e.r);
    } else {
      OtherStepsKeepLog(c, s, e);
    }
  }

  /** The frames of the log that reader i is promised: all of them for the gateway, all but its own for a component. */
  function FramesFor(i: nat, log: seq<Slot>): seq<seq<Byte>>
  {
    if log == [] then []
    else
      (if i == GATEWAY_SLOT || log[0].writer != i then [log[0].frame] else []) + FramesFor(i, log[1..])
  }

  lemma {:induction false} FramesForAppend(i: nat, log: seq<Slot>, slot: Slot)
    ensures FramesFor(i, log + [slot])
            == FramesFor(i, log) + (if i == GATEWAY_SLOT || slot.writer != i then [slot.frame] else [])
  {
    if log == [] {
    } else {
      assert (log + [slot])[1..] == log[1..] + [slot];
      FramesForAppend(i, log[1..], slot);
    }
  }

  lemma {:induction false} ReceivedIsFramesFor(c: Config, i: nat, log: seq<Slot>)
    requires i < c.readers <= MAX_COMPONENTS
    requires forall q :: 0 <= q < |log| ==> Sent(c, log[q])
    ensures Received(i, log) == FramesFor(i, log)
  {
    if log == [] {
    } else {
      var init, last := log[..|log| - 1], log[|log| - 1];
      assert init + [last] == log;
      ReceivedIsFramesFor(c, i, init);
      FramesForAppend(i, init, last);
      assert Sent(c, last);
    }
  }

  /** Every reader has been handed, in log order, exactly the promised frames of the prefix it has passed. */
  lemma DeliversLogPrefix(c: Config, s: State, i: nat)
    requires Reachable(c, s) && i < c.readers
    ensures Shaped(c, s) && s.mem.readSeq[i] <= |s.log|
    ensures s.delivered[i] == FramesFor(i, s.log[..s.mem.readSeq[i]])
  {
    ReachableInv(c, s);
    ReceivedIsFramesFor(c, i, s.log[..s.mem.readSeq[i]]);
  }

  /** No entry that some reader has still to read has been overwritten. */
  lemma UnreadIsIntact(c: Config, s: State, i: nat, q: nat)
    requires Reachable(c, s) && i < c.readers
    requires Shaped(c, s) && s.mem.readSeq[i] <= q < |s.log|
    ensures s.mem.slots[q % c.slotCount] == s.log[q]
  {
    ReachableInv(c, s);
    assert Min(s.mem.readSeq) <= s.mem.readSeq[i];
  }

  /** A writer about to fill a slot finds it passed by every reader. */
  lemma WriterReusesOnlyReadSlots(c: Config, s: State, w: nat, i: nat)
    requires Reachable(c, s) && i < c.readers && w < c.writers
    requires Shaped(c, s) && s.writers[w].WriterLocked?
    ensures |s.log| < s.mem.readSeq[i] + c.slotCount
  {
    ReachableInv(c, s);
    TotalAtLeast(WriterToken, s.writers, w);
    assert Min(s.mem.readSeq) <= s.mem.readSeq[i];
  }

  /** Free-slot tokens are conserved, and each entry all readers have passed has returned exactly one. */
  lemma TokensConserved(c: Config, s: State)
    requires Reachable(c, s)
    ensures Shaped(c, s)
    ensures s.mem.empty + Total(WriterToken, s.writers) + Total(ReaderOwes, s.readers)
            + (|s.log| - Min(s.mem.readSeq)) == c.slotCount
    ensures s.emptyPosts + Total(ReaderOwes, s.readers) == Min(s.mem.readSeq)
  {
    ReachableInv(c, s);
  }

  /** Each reader's pending semaphore counts the entries it has not started on; no reader passes the last write. */
  lemma PendingCountsUnread(c: Config, s: State, i: nat)
    requires Reachable(c, s) && i < c.readers
    ensures Shaped(c, s)
    ensures s.mem.pending[i] + ReaderHolds(s.readers[i]) == |s.log| - s.mem.readSeq[i] - NotYetPosted(s, i)
    ensures s.readers[i].ReaderLocked? ==> s.mem.readSeq[i] < |s.log|
  {
    ReachableInv(c, s);
  }

  /** At most one thread is between the mutex's wait and its post. */
  lemma MutualExclusion(c: Config, s: State)
    requires Reachable(c, s)
    ensures Shaped(c, s)
    ensures forall v, w :: 0 <= v < c.writers && 0 <= w < c.writers ==>
              (s.writers[v].InSection() && s.writers[w].InSection() ==> v == w)
    ensures forall q, r :: 0 <= q < c.readers && 0 <= r < c.readers ==>
              (s.readers[q].InSection() && s.readers[r].InSection() ==> q == r)
    ensures forall w, r :: 0 <= w < c.writers && 0 <= r < c.readers ==>
              !(s.writers[w].InSection() && s.readers[r].InSection())
  {
    ReachableInv(c, s);
  }

  // ----- Progress -----

  /** Every call to `write_slot` has returned and every reader has passed the whole log. */
  ghost predicate Quiescent(c: Config, s: State)
    requires Shaped(c, s)
  {
    && (forall w :: 0 <= w < c.writers ==> s.writers[w].Idle?)
    && (forall i :: 0 <= i < c.readers ==> s.mem.readSeq[i] == |s.log|)
  }

  /** Nobody is past a wait: writers are idle or want a free slot, readers wait for something to read in vain. */
  ghost predicate NobodyReady(c: Config, s: State)
    requires Shaped(c, s)
  {
    && (forall w :: 0 <= w < c.writers ==> s.writers[w].Idle? || s.writers[w].WantEmpty?)
    && (forall r :: 0 <= r < c.readers ==> s.readers[r].Waiting? && s.mem.pending[r] == 0)
  }

  /** Where readers wait in vain, there is nothing left to read. */
  lemma AllIsRead(c: Config, s: State)
    requires Inv(c, s) && s.owner.Nobody? && NobodyReady(c, s)
    ensures forall i :: 0 <= i < c.readers ==> s.mem.readSeq[i] == |s.log|
  {
  }

  /** And where nobody holds a token or owes a post then, every slot is free. */
  lemma SlotsAreFree(c: Config, s: State)
    requires c.Valid() && Shaped(c, s) && TokenInv(c, s) && NobodyReady(c, s)
    requires forall i :: 0 <= i < c.readers ==> s.mem.readSeq[i] == s.mem.nextWriteSeq
    ensures s.mem.empty == c.slotCount
  {
    TotalZero(WriterToken, s.writers);
    TotalZero(ReaderOwes, s.readers);
  }

  /** While nobody holds the mutex, no thread stands inside a section. */
  lemma OutsideSections(c: Config, s: State)
    requires Shaped(c, s) && MutexInv(c, s) && s.owner.Nobody?
    ensures s.mem.mutex == 1 && Outside(c, s)
  {
  }

  ghost predicate Outside(c: Config, s: State)
    requires Shaped(c, s)
  {
    && (forall w :: 0 <= w < c.writers ==> !s.writers[w].InSection())
    && (forall r :: 0 <= r < c.readers ==> !s.readers[r].InSection())
  }

  /** A thread that holds the mutex can go on. */
  lemma OwnerSteps(c: Config, s: State) returns (e: Event)
    requires Inv(c, s) && !s.owner.Nobody? && |s.log| < UINT64_MAX
    ensures Enabled(c, s, e) && !e.Send?
  {
    if s.owner.WriterOwns? {
      var w := s.owner.w;
      return if s.writers[w].WriterLocked? then PublishSlot(w)
             else if s.writers[w].next < c.readers then PostReader(w) else UnlockWriter(w);
    }
    var r := s.owner.r;
    return if s.readers[r].ReaderLocked? then ConsumeSlot(r) else UnlockReader(r);
  }

  /** While nobody holds it, one that is past a wait can go on, or a writer can take a free slot. */
  lemma OthersStep(c: Config, s: State) returns (e: Event)
    requires Shaped(c, s) && s.mem.mutex == 1 && Outside(c, s) && !Quiescent(c, s)
    requires NobodyReady(c, s) ==>
               s.mem.empty > 0 && forall i :: 0 <= i < c.readers ==> s.mem.readSeq[i] == |s.log|
    ensures Enabled(c, s, e) && !e.Send?
  {
    if w :| 0 <= w < c.writers && s.writers[w].HasToken? {
      return LockWriter(w);
    }
    if r :| 0 <= r < c.readers && s.readers[r].Notified? {
      return LockReader(r);
    }
    if r :| 0 <= r < c.readers && s.readers[r].Owing? {
      return GiveEmpty(r);
    }
    if r :| 0 <= r < c.readers && s.readers[r].Waiting? && s.mem.pending[r] > 0 {
      return TakePending(r);
    }
    assert NobodyReady(c, s);
    var w :| 0 <= w < c.writers && !s.writers[w].Idle?;
    return TakeEmpty(w);
  }

  /** Unless the sequence number is exhausted, a state that is not quiescent has a step other than a new call. */
  lemma NeverDeadlocks(c: Config, s: State) returns (e: Event)
    requires Reachable(c, s) && Shaped(c, s) && !Quiescent(c, s) && |s.log| < UINT64_MAX
    ensures Enabled(c, s, e) && !e.Send?
  {
    ReachableInv(c, s);
    if s.owner.Nobody? {
      OutsideSections(c, s);
      if NobodyReady(c, s) {
        AllIsRead(c, s);
        SlotsAreFree(c, s);
      }
      e := OthersStep(c, s);
    } else {
      e := OwnerSteps(c, s);
    }
  }

  /** Steps writer w has left, each weighed to outweigh the reading its publication causes. */
  function WriterWork(readers: nat): WriterPc -> nat
  {
    (pc: WriterPc) => match pc
      case Idle => 0
      case WantEmpty(_, _) => 6 * readers + 4
      case HasToken(_, _) => 6 * readers + 3
      case WriterLocked(_, _) => 6 * readers + 2
      case Posting(k) => if k <= readers then 6 * (readers - k) + 1 else 1
  }

  function ReaderWork(pc: ReaderPc): nat
  {
    match pc
    case Waiting => 0
    case Notified => 4
    case ReaderLocked => 3
    case Consumed(_) => 2
    case Owing => 1
  }

  /** An upper bound on the steps left before the ring is quiescent, if no further call is made. */
  function Work(c: Config, s: State): int
    requires Shaped(c, s)
  {
    Total(WriterWork(c.readers), s.writers) + Total(ReaderWork, s.readers) + 5 * Total(Id, s.mem.pending)
  }

  function Id(n: nat): nat { n }

  /** Every step but a new call uses up work, so no schedule can postpone delivery for ever. */
  lemma WorkDecreases(c: Config, s: State, e: Event)
    requires Shaped(c, s) && Enabled(c, s, e) && !e.Send?
    ensures 0 <= Work(c, Apply(c, s, e)) < Work(c, s)
  {
    if e.TakePending? || e.LockReader? || e.ConsumeSlot? || e.UnlockReader? || e.GiveEmpty? {
      ReaderWorkDecreases(c, s, e);
    } else {
      WriterWorkDecreases(c, s, e);
    }
  }

  lemma ReaderWorkDecreases(c: Config, s: State, e: Event)
    requires Shaped(c, s) && Enabled(c, s, e)
    requires e.TakePending? || e.LockReader? || e.ConsumeSlot? || e.UnlockReader? || e.GiveEmpty?
    ensures Work(c, Apply(c, s, e)) < Work(c, s)
  {
    var s' := Apply(c, s, e);
    TotalUpdate(ReaderWork, s.readers, e.r, s'.readers[e.r]);
    if e.TakePending? {
      TotalUpdate(Id, s.mem.pending, e.r, s'.mem.pending[e.r]);
    }
  }

  lemma WriterWorkDecreases(c: Config, s: State, e: Event)
    requires Shaped(c, s) && Enabled(c, s, e)
    requires e.TakeEmpty? || e.LockWriter? || e.PublishSlot? || e.PostReader? || e.UnlockWriter?
    ensures Work(c, Apply(c, s, e)) < Work(c, s)
  {
    var s' := Apply(c, s, e);
    TotalUpdate(WriterWork(c.readers), s.writers, e.w, s'.writers[e.w]);
    if e.PostReader? {
      var i := s.writers[e.w].next;
      TotalUpdate(Id, s.mem.pending, i, s'.mem.pending[i]);
    }
  }

  lemma ReachableByMore(c: Config, s: State, es: seq<Event>, s': State)
    requires Reachable(c, s) && Run(StepOf(c), s, es, s')
    ensures Reachable(c, s')
  {
    var before :| Run(StepOf(c), Init(c), before, s);
    Join(StepOf(c), Init(c), before, s, es, s');
  }

  lemma {:induction false} RunUsesWork(c: Config, s: State, es: seq<Event>, s': State)
    requires Shaped(c, s) && Run(StepOf(c), s, es, s')
    requires forall k :: 0 <= k < |es| ==> !es[k].Send?
    ensures Shaped(c, s') && |es| <= Work(c, s) - Work(c, s')
    decreases |es|
  {
    if es != [] {
      var t :| StepOf(c)(s, es[0], t) && Run(StepOf(c), t, es[1..], s');
      WorkDecreases(c, s, es[0]);
      RunUsesWork(c, t, es[1..], s');
    }
  }

  // ----- What was sent -----

  /**
   What a process registered at `me` is to be given of the calls, in their order: the gateway of all of
   them, a component of all but its own.
   */
  function SentTo(me: nat, calls: seq<Call>): seq<seq<Byte>>
  {
    if calls == [] then []
    else
      var call := calls[0];
      (if me == 0 || call.origin != me
       then [if |call.frame| <= 1514 then call.frame else call.frame[..1514]]
       else [])
      + SentTo(me, calls[1..])
  }

  lemma {:induction false} FramesAreSent(me: nat, log: seq<Slot>, calls: seq<Call>)
    requires me < MAX_COMPONENTS && |log| == |calls|
    requires forall q :: 0 <= q < |log| ==> calls[q].origin < MAX_COMPONENTS && Wrote(log[q], calls[q])
    ensures FramesFor(me, log) == SentTo(me, calls)
  {
    if log != [] {
      assert Wrote(log[0], calls[0]);
      FramesAreSent(me, log[1..], calls[1..]);
    }
  }

  /** Each entry of the log was written by one call, and holds what that call sent. */
  lemma LogHoldsWhatWasSent(c: Config, s: State, q: nat)
    requires Reachable(c, s) && q < |s.log|
    ensures |s.entries| == |s.log| && s.entries[q] in s.calls
    ensures
      var call, slot := s.entries[q], s.log[q];
      && call.origin < c.readers
      && slot.frame == (if |call.frame| <= 1514 then call.frame else call.frame[..1514])
      && slot.writer == (if call.origin == 0 then 0xFFFE else call.origin)
      && slot.flags == Flags(true, call.origin != 0)
  {
    ReachableInv(c, s);
    assert Wrote(s.log[q], s.entries[q]);
    assert s.entries[q] in multiset(s.entries);
  }

  /** Every reader has been handed, in order, what the calls it has passed sent to it. */
  lemma DeliversWhatWasSent(c: Config, s: State, i: nat)
    requires Reachable(c, s) && i < c.readers
    ensures Shaped(c, s) && s.mem.readSeq[i] <= |s.entries|
    ensures s.delivered[i] == SentTo(i, s.entries[..s.mem.readSeq[i]])
  {
    ReachableInv(c, s);
    DeliversLogPrefix(c, s, i);
    FramesAreSent(i, s.log[..s.mem.readSeq[i]], s.entries[..s.mem.readSeq[i]]);
  }

  /** The calls that a run makes. */
  function SendsOf(es: seq<Event>): multiset<Call>
  {
    if es == [] then multiset{} else CallOf(es[0]) + SendsOf(es[1..])
  }

  function CallOf(e: Event): multiset<Call>
  {
    if e.Send? then multiset{Call(e.origin, e.frame)} else multiset{}
  }

  lemma {:induction false} CallsAreSends(c: Config, s: State, es: seq<Event>, s': State)
    requires Run(StepOf(c), s, es, s')
    ensures s'.calls == s.calls + SendsOf(es)
    decreases |es|
  {
    if es != [] {
      var t :| StepOf(c)(s, es[0], t) && Run(StepOf(c), t, es[1..], s');
      StepMakesCall(c, s, es[0]);
      CallsAreSends(c, t, es[1..], s');
      Assoc(s.calls, CallOf(es[0]), SendsOf(es[1..]));
    }
  }

  lemma StepMakesCall(c: Config, s: State, e: Event)
    requires Shaped(c, s) && Enabled(c, s, e)
    ensures Apply(c, s, e).calls == s.calls + CallOf(e)
  {
  }

  lemma Assoc(a: multiset<Call>, b: multiset<Call>, c: multiset<Call>)
    ensures (a + b) + c == a + (b + c)
  {
  }

  /**
   Liveness with no fairness assumption: once no new call is made, every schedule stops within `Work`
   steps, and where it can no longer step every call made has one entry in the log, and every reader
   has been handed what all of them sent to it.
   */
  lemma EveryScheduleDrains(c: Config, before: seq<Event>, s: State, es: seq<Event>, s': State)
    requires c.Valid() && Run(StepOf(c), Init(c), before, s) && Run(StepOf(c), s, es, s')
    requires forall k :: 0 <= k < |es| ==> !es[k].Send?
    ensures Shaped(c, s) && Shaped(c, s') && |es| <= Work(c, s)
    ensures |s'.log| < UINT64_MAX && (forall e :: Enabled(c, s', e) ==> e.Send?) ==>
              && |s'.log| == |s'.entries| && multiset(s'.entries) == SendsOf(before)
              && forall i :: 0 <= i < c.readers ==> s'.delivered[i] == SentTo(i, s'.entries)
  {
    ReachableInv(c, s);
    RunUsesWork(c, s, es, s');
    ReachableByMore(c, s, es, s');
    if |s'.log| < UINT64_MAX && forall e :: Enabled(c, s', e) ==> e.Send? {
      if !Quiescent(c, s') {
        var e := NeverDeadlocks(c, s');
        assert false;
      }
      QuiescentIsComplete(c, s');
      CallsAreSends(c, Init(c), before, s);
      CallsAreSends(c, s, es, s');
      NoSends(es);
    }
  }

  lemma {:induction false} NoSends(es: seq<Event>)
    requires forall k :: 0 <= k < |es| ==> !es[k].Send?
    ensures SendsOf(es) == multiset{}
  {
    if es != [] {
      assert !es[0].Send?;
      NoSends(es[1..]);
    }
  }

  lemma QuiescentIsComplete(c: Config, s: State)
    requires Reachable(c, s) && Shaped(c, s) && Quiescent(c, s)
    ensures |s.log| == |s.entries| && multiset(s.entries) == s.calls
    ensures forall i :: 0 <= i < c.readers ==> s.delivered[i] == SentTo(i, s.entries)
  {
    ReachableInv(c, s);
    GatherNothing(Holding, s.writers);
    forall i | 0 <= i < c.readers
      ensures s.delivered[i] == SentTo(i, s.entries)
    {
      DeliversWhatWasSent(c, s, i);
      assert s.entries[..s.mem.readSeq[i]] == s.entries;
    }
  }
}
