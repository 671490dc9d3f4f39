/**
 The semaphore-guarded queue of an observer, under any number of producers in `update` and consumers
 in `updated`, one lock, queue or semaphore operation at a time.
 */
module ObserverQueue {
  import opened Common
  import opened Runs
  import opened Sequences

  /** The observer when no call is under way: what each call does as a whole. */
  class Observer<D> {
    var data: seq<D>
    var semaphore: nat

    ghost predicate Valid()
      reads this
    {
      |data| == semaphore
    }

    constructor ()
      ensures Valid() && data == []
    {
      data, semaphore := [], 0;
    }

    method Update(d: D)
      requires Valid()
      modifies this
      ensures Valid() && data == old(data) + [d]
    {
      data := data + [d];
      semaphore := semaphore + 1;
    }

    /** `updated`: a wait that times out gives nothing, one that succeeds gives the oldest element. */
    method Updated() returns (o: Option<D>)
      requires Valid()
      modifies this
      ensures Valid()
      ensures if old(data) == [] then o == None && data == [] else o == Some(old(data)[0]) && data == old(data)[1..]
    {
      if semaphore == 0 {
        return None;
      }
      semaphore := semaphore - 1;
      if data == [] {
        return None;
      }
      o := Some(data[0]);
      data := data[1..];
    }
  }

  // ----- Interleaved calls -----

  datatype Pc =
    | Idle
    | Entering(d: nat)     // update: before the lock
    | Pushing(d: nat)      // holds the lock, has not pushed
    | Posting              // has pushed, has not posted the semaphore
    | Leaving              // has posted, still holds the lock
    | Asking               // updated: before the semaphore
    | Admitted             // past the semaphore, before the lock
    | Popping              // holds the lock, has not looked at the queue
    | Fronted(d: nat)      // has read the front, has not removed it
    | Returning(o: Option<nat>)  // has popped or found nothing, still holds the lock
  {
    predicate Locked() { Pushing? || Posting? || Leaving? || Popping? || Fronted? || Returning? }
  }

  datatype Owner = Nobody | Thread(t: nat)

  /** Elements are numbers; `owner`, `pushed` and `popped` are history. */
  datatype State = State(locked: bool, semaphore: nat, queue: seq<nat>, threads: seq<Pc>,
                         owner: Owner, pushed: seq<nat>, popped: seq<nat>)

  datatype Event =
    | CallUpdate(t: nat, d: nat)
    | CallUpdated(t: nat)
    | TimeOut(t: nat)
    | Pass(t: nat)         // the semaphore wait succeeds
    | Lock(t: nat)
    | Push(t: nat)
    | Post(t: nat)
    | Front(t: nat)
    | Pop(t: nat)          // removes whatever is in front
    | Unlock(t: nat)

  function Init(threads: nat): State
  {
    State(false, 0, [], seq(threads, _ => Idle), Nobody, [], [])
  }

  predicate Enabled(s: State, e: Event)
  {
    e.t < |s.threads|
    && match e
       case CallUpdate(t, _) => s.threads[t].Idle?
       case CallUpdated(t) => s.threads[t].Idle?
       case TimeOut(t) => s.threads[t].Asking?
       case Pass(t) => s.threads[t].Asking? && s.semaphore > 0
       case Lock(t) => (s.threads[t].Entering? || s.threads[t].Admitted?) && !s.locked
       case Push(t) => s.threads[t].Pushing?
       case Post(t) => s.threads[t].Posting?
       case Front(t) => s.threads[t].Popping?
       case Pop(t) => s.threads[t].Fronted?
       case Unlock(t) => s.threads[t].Leaving? || s.threads[t].Returning?
  }

  function Move(s: State, t: nat, pc: Pc): State
    requires t < |s.threads|
  {
    s.(threads := s.threads[t := pc])
  }

  function Apply(s: State, e: Event): State
    requires Enabled(s, e)
  {
    match e
    case CallUpdate(t, d) => Move(s, t, Entering(d))
    case CallUpdated(t) => Move(s, t, Asking)
    case TimeOut(t) => Move(s, t, Idle)
    case Pass(t) => Move(s, t, Admitted).(semaphore := s.semaphore - 1)
    case Lock(t) =>
      var pc := if s.threads[t].Entering? then Pushing(s.threads[t].d) else Popping;
      Move(s, t, pc).(locked := true, owner := Thread(t))
    case Push(t) =>
      var d := s.threads[t].d;
      Move(s, t, Posting).(queue := s.queue + [d], pushed := s.pushed + [d])
    case Post(t) => Move(s, t, Leaving).(semaphore := s.semaphore + 1)
    case Front(t) => Move(s, t, if s.queue == [] then Returning(None) else Fronted(s.queue[0]))
    case Pop(t) =>
      var d := s.threads[t].d;
      Move(s, t, Returning(Some(d))).(queue := if s.queue == [] then [] else s.queue[1..], popped := s.popped + [d])
    case Unlock(t) => Move(s, t, Idle).(locked := false, owner := Nobody)
  }

  ghost predicate Step(s: State, e: Event, s': State)
  {
    Enabled(s, e) && s' == Apply(s, e)
  }

  ghost predicate Reachable(threads: nat, s: State)
  {
    exists es :: Run(Step, Init(threads), es, s)
  }

  /** A consumer that is past the wait and has yet to take its element. */
  function Claims(pc: Pc): nat
  {
    if pc.Admitted? || pc.Popping? || pc.Fronted? then 1 else 0
  }

  /** A producer whose element is in the queue but not yet counted by the semaphore. */
  function Uncounted(pc: Pc): nat
  {
    if pc.Posting? then 1 else 0
  }

  ghost predicate LockInv(s: State)
  {
    && s.locked == s.owner.Thread?
    && (forall t :: 0 <= t < |s.threads| ==> (s.threads[t].Locked() <==> s.owner == Thread(t)))
  }

  ghost predicate LengthAgrees(s: State)
  {
    |s.queue| == s.semaphore + Total(Claims, s.threads) + Total(Uncounted, s.threads)
  }

  ghost predicate CountInv(s: State)
  {
    && LengthAgrees(s)
    && s.pushed == s.popped + s.queue
  }

  /** What a consumer has read is still in front: nobody else has removed it. */
  ghost predicate FrontInv(s: State)
  {
    forall t :: 0 <= t < |s.threads| && s.threads[t].Fronted? ==> s.queue != [] && s.queue[0] == s.threads[t].d
  }

  ghost predicate Inv(s: State)
  {
    LockInv(s) && CountInv(s) && FrontInv(s) && forall t :: 0 <= t < |s.threads| ==> s.threads[t] != Returning(None)
  }

  lemma StepKeepsLock(s: State, e: Event)
    requires LockInv(s) && Enabled(s, e)
    ensures LockInv(Apply(s, e))
  {
  }

  lemma PopperFindsAnElement(s: State, t: nat)
    requires CountInv(s) && t < |s.threads| && s.threads[t].Popping?
    ensures s.queue != []
  {
    TotalAtLeast(Claims, s.threads, t);
  }

  lemma StepKeepsLength(s: State, e: Event)
    requires CountInv(s) && FrontInv(s) && Enabled(s, e)
    ensures LengthAgrees(Apply(s, e))
  {
    var s' := Apply(s, e);
    TotalUpdate(Claims, s.threads, e.t, s'.threads[e.t]);
    TotalUpdate(Uncounted, s.threads, e.t, s'.threads[e.t]);
    if e.Front? {
      PopperFindsAnElement(s, e.t);
    }
  }

  /** The lock lets nobody remove what another consumer has read. */
  lemma StepKeepsFront(s: State, e: Event)
    requires LockInv(s) && FrontInv(s) && Enabled(s, e)
    ensures FrontInv(Apply(s, e))
  {
  }

  lemma StepKeepsOrder(s: State, e: Event)
    requires s.pushed == s.popped + s.queue && FrontInv(s) && Enabled(s, e)
    ensures Apply(s, e).pushed == Apply(s, e).popped + Apply(s, e).queue
  {
    if e.Pop? {
      assert s.queue == [s.queue[0]] + s.queue[1..];
    }
  }

  lemma StepKeepsInv(s: State, e: Event)
    requires Inv(s) && Enabled(s, e)
    ensures Inv(Apply(s, e))
  {
    StepKeepsLock(s, e);
    StepKeepsLength(s, e);
    StepKeepsOrder(s, e);
    StepKeepsFront(s, e);
    if e.Front? {
      PopperFindsAnElement(s, e.t);
    }
  }

  lemma InitInv(threads: nat)
    ensures Inv(Init(threads))
  {
    TotalZero(Claims, Init(threads).threads);
    TotalZero(Uncounted, Init(threads).threads);
  }

  lemma ReachableInv(threads: nat, s: State)
    requires Reachable(threads, s)
    ensures Inv(s)
  {
    var es :| Run(Step, Init(threads), es, s);
    InitInv(threads);
    var inv := v => Inv(v);
    forall v, e, v' | inv(v) && Step(v, e, v')
      ensures inv(v')
    {
      StepKeepsInv(v, e);
    }
    Keeps(Step, inv, Init(threads), es, s);
  }

  lemma AtMostOneUncounted(s: State)
    requires LockInv(s)
    ensures Total(Uncounted, s.threads) <= 1
  {
    if s.owner.Thread? && s.owner.t < |s.threads| {
      var others := s.threads[s.owner.t := Idle];
      TotalUpdate(Uncounted, s.threads, s.owner.t, Idle);
      TotalZero(Uncounted, others);
    } else {
      TotalZero(Uncounted, s.threads);
    }
  }

  /** The queue's length is the semaphore plus the elements claimed, plus the one push not yet posted, if any. */
  lemma LengthIsAccounted(threads: nat, s: State)
    requires Reachable(threads, s)
    ensures |s.queue| == s.semaphore + Total(Claims, s.threads) + Total(Uncounted, s.threads)
    ensures Total(Uncounted, s.threads) <= 1
  {
    ReachableInv(threads, s);
    AtMostOneUncounted(s);
  }

  /** Of the threads in the two calls at most one is between the lock and its release. */
  lemma MutualExclusion(threads: nat, s: State, t: nat, u: nat)
    requires Reachable(threads, s) && t < |s.threads| && u < |s.threads|
    requires s.threads[t].Locked() && s.threads[u].Locked()
    ensures t == u
  {
    ReachableInv(threads, s);
  }

  /** After a wait that succeeded the queue is never found empty. */
  lemma EmptyBranchIsUnreachable(threads: nat, s: State, t: nat)
    requires Reachable(threads, s) && t < |s.threads|
    ensures s.threads[t].Popping? ==> s.queue != []
    ensures s.threads[t] != Returning(None)
  {
    ReachableInv(threads, s);
    if s.threads[t].Popping? {
      PopperFindsAnElement(s, t);
    }
  }

  /** What has been taken is, in order, a prefix of what was put, and the queue is the rest: each element once. */
  lemma FirstInFirstOut(threads: nat, s: State)
    requires Reachable(threads, s)
    ensures s.popped <= s.pushed && s.queue == s.pushed[|s.popped|..]
  {
    ReachableInv(threads, s);
  }

  /** While an element waits uncounted or unclaimed, a consumer that asks is served or another thread can move. */
  lemma ConsumersAreServed(threads: nat, s: State, t: nat) returns (e: Event)
    requires Reachable(threads, s) && t < |s.threads| && s.threads[t].Asking?
    requires |s.queue| > Total(Claims, s.threads)
    ensures Enabled(s, e) && !e.TimeOut? && !e.CallUpdate? && !e.CallUpdated?
  {
    ReachableInv(threads, s);
    if s.semaphore > 0 {
      return Pass(t);
    }
    if forall i :: 0 <= i < |s.threads| ==> Uncounted(s.threads[i]) == 0 {
      TotalZero(Uncounted, s.threads);
      assert false;
    }
    var i :| 0 <= i < |s.threads| && Uncounted(s.threads[i]) != 0;
    return Post(i);
  }
}
