/** In every interleaving, what `send` is asked to send is handed to an engine once, unless it is refused a buffer. */
module BufferRequests {
  import opened Common
  import opened Runs
  import opened Sequences
  import opened NetworkInterface
  import opened BufferRuns

  /** Call c is to send r, or is sending it. */
  predicate IsSending(c: Call, r: Request)
  {
    match c
    case Sending(q) => q == r
    case Handing(_, _, _, origin) => origin == Ours(r)
    case Engaging(_, _, _, origin) => origin == Ours(r)
    case _ => false
  }

  function SendingOne(r: Request): Call -> nat
  {
    (c: Call) => One(IsSending(c, r))
  }

  function IsSent(r: Request): Sent -> nat
  {
    (z: Sent) => One(z.origin == Ours(r))
  }

  function SentTimes(s: State, r: Request): nat { Total(IsSent(r), s.sent) }

  /** Each time r was asked for it is being sent, or was, or was refused. */
  ghost predicate Accounted(s: State, r: Request)
  {
    s.asked[r] == InThreads(SendingOne(r), s.threads) + SentTimes(s, r) + s.refused[r]
  }

  function SendingIn(o: Option<Call>, r: Request): nat
  {
    One(o.Some? && IsSending(o.value, r))
  }

  /** A step of c that leaves out in its place sends or refuses what it no longer has to send. */
  ghost predicate Balanced(p: Process, s: State, c: Call, i: Input, out: Outcome, r: Request)
  {
    SendingIn(out.callee, r) + SendingIn(out.self, r) + One(c.Engaging? && c.origin == Ours(r)) + RefusedBy(p, s, c)[r]
    == One(IsSending(c, r)) + AskedBy(s, c, i)[r]
  }

  lemma ForwardingBalanced(p: Process, s: State, c: Call, i: Input, r: Request)
    requires c.Outward? || c.Inward?
    ensures Balanced(p, s, c, i, Next(p, s, c, i), r)
  {
  }

  lemma SendingBalanced(p: Process, s: State, c: Call, i: Input, r: Request)
    requires c.Sending?
    ensures Balanced(p, s, c, i, Next(p, s, c, i), r)
  {
  }

  lemma HandingBalanced(p: Process, s: State, c: Call, i: Input, r: Request)
    requires c.Handing? || c.Engaging?
    ensures Balanced(p, s, c, i, Next(p, s, c, i), r)
  {
  }

  lemma OthersBalanced(p: Process, s: State, c: Call, i: Input, r: Request)
    requires !Relaying(c) && (c.Awaiting? ==> s.queue != [])
    ensures Balanced(p, s, c, i, Next(p, s, c, i), r)
  {
  }

  lemma StepBalanced(p: Process, s: State, c: Call, i: Input, r: Request)
    requires c.Awaiting? ==> s.queue != []
    ensures Balanced(p, s, c, i, Next(p, s, c, i), r)
  {
    if c.Outward? || c.Inward? {
      ForwardingBalanced(p, s, c, i, r);
    } else if c.Sending? {
      SendingBalanced(p, s, c, i, r);
    } else if c.Handing? || c.Engaging? {
      HandingBalanced(p, s, c, i, r);
    } else {
      OthersBalanced(p, s, c, i, r);
    }
  }

  lemma SentAfter(s: State, c: Call, r: Request)
    ensures Total(IsSent(r), s.sent + SentBy(s, c)) == SentTimes(s, r) + One(c.Engaging? && c.origin == Ours(r))
  {
    TotalAppend(IsSent(r), s.sent, SentBy(s, c));
  }

  lemma AdvanceHistory(p: Process, s: State, t: nat, i: Input)
    requires Enabled(p, s, Advance(t, i))
    ensures
      var s', c := Apply(p, s, Advance(t, i)), s.threads[t][0];
      && s'.sent == s.sent + SentBy(s, c) && s'.asked == s.asked + AskedBy(s, c, i)
      && s'.refused == s.refused + RefusedBy(p, s, c)
  {
  }

  /** The calls of s' are those of s, but for out in the place of c. */
  ghost predicate SendingMoves(s: State, s': State, c: Call, out: Outcome, r: Request)
  {
    InThreads(SendingOne(r), s'.threads)
    == InThreads(SendingOne(r), s.threads) - One(IsSending(c, r)) + SendingIn(out.callee, r) + SendingIn(out.self, r)
  }

  lemma AdvanceMovesSending(p: Process, s: State, t: nat, i: Input, r: Request)
    requires Enabled(p, s, Advance(t, i))
    ensures SendingMoves(s, Apply(p, s, Advance(t, i)), s.threads[t][0], Next(p, s, s.threads[t][0], i), r)
  {
    SumChanges(SendingOne(r), p, s, t, i);
  }

  lemma Settle(p: Process, s: State, s': State, c: Call, i: Input, out: Outcome, r: Request)
    requires Accounted(s, r) && Balanced(p, s, c, i, out, r) && SendingMoves(s, s', c, out, r)
    requires s'.sent == s.sent + SentBy(s, c) && s'.asked == s.asked + AskedBy(s, c, i)
    requires s'.refused == s.refused + RefusedBy(p, s, c)
    ensures Accounted(s', r)
  {
    SentAfter(s, c, r);
  }

  lemma AdvanceKeepsAccount(p: Process, s: State, t: nat, i: Input, r: Request)
    requires Enabled(p, s, Advance(t, i)) && Accounted(s, r)
    ensures Accounted(Apply(p, s, Advance(t, i)), r)
  {
    var c := s.threads[t][0];
    AdvanceHistory(p, s, t, i);
    AdvanceMovesSending(p, s, t, i, r);
    StepBalanced(p, s, c, i, r);
    Settle(p, s, Apply(p, s, Advance(t, i)), c, i, Next(p, s, c, i), r);
  }

  lemma EnterKeepsAccount(p: Process, s: State, t: nat, c: Call, r: Request)
    requires Enabled(p, s, Enter(t, c)) && Accounted(s, r)
    ensures Accounted(Apply(p, s, Enter(t, c)), r)
  {
    TotalUpdate(InStack(SendingOne(r)), s.threads, t, [c]);
    TotalOne(SendingOne(r), c);
  }

  lemma StepKeepsAccounts(p: Process, s: State, e: Event)
    requires Enabled(p, s, e) && forall r :: Accounted(s, r)
    ensures forall r :: Accounted(Apply(p, s, e), r)
  {
    forall r
      ensures Accounted(Apply(p, s, e), r)
    {
      assert Accounted(s, r);
      match e
      case Enter(t, c) => EnterKeepsAccount(p, s, t, c, r);
      case Advance(t, i) => AdvanceKeepsAccount(p, s, t, i, r);
    }
  }

  lemma InitAccounts(p: Process, threads: nat, r: Request)
    ensures Accounted(Init(p, threads), r)
  {
    TotalZero(InStack(SendingOne(r)), Init(p, threads).threads);
  }

  /**
   A request is handed to an engine as often as it was made, but for the times it was refused and those
   still on the way: each once, none twice. It is refused only if it is too long or no buffer is free.
   */
  lemma EachRequestIsSentOnce(p: Process, threads: nat, s: State, r: Request)
    requires Reachable(p, threads, s)
    ensures SentTimes(s, r) + s.refused[r] <= s.asked[r]
    ensures (forall t, k :: 0 <= t < |s.threads| && 0 <= k < |s.threads[t]| ==> !IsSending(s.threads[t][k], r)) ==>
              SentTimes(s, r) + s.refused[r] == s.asked[r]
  {
    AccountOf(p, threads, s, r);
    if forall t, k :: 0 <= t < |s.threads| && 0 <= k < |s.threads[t]| ==> !IsSending(s.threads[t][k], r) {
      NobodySends(s, r);
    }
  }

  lemma AccountOf(p: Process, threads: nat, s: State, r: Request)
    requires Reachable(p, threads, s)
    ensures Accounted(s, r)
  {
    var es :| Run(StepOf(p), Init(p, threads), es, s);
    var inv := v => forall q :: Accounted(v, q);
    forall q {
      InitAccounts(p, threads, q);
    }
    forall v, e, v' | inv(v) && StepOf(p)(v, e, v')
      ensures inv(v')
    {
      StepKeepsAccounts(p, v, e);
    }
    Keeps(StepOf(p), inv, Init(p, threads), es, s);
  }

  lemma NobodySends(s: State, r: Request)
    requires forall t, k :: 0 <= t < |s.threads| && 0 <= k < |s.threads[t]| ==> !IsSending(s.threads[t][k], r)
    ensures InThreads(SendingOne(r), s.threads) == 0
  {
    forall t | 0 <= t < |s.threads|
      ensures InStack(SendingOne(r))(s.threads[t]) == 0
    {
      TotalZero(SendingOne(r), s.threads[t]);
    }
    TotalZero(InStack(SendingOne(r)), s.threads);
  }

  // ----- When a change of quadrant asks for a request -----

  /** The last quadrant among the stamps that was known. */
  function LastKnown(stamps: seq<nat>): nat
  {
    if stamps == [] then 0xff
    else if stamps[|stamps| - 1] != 0xff then stamps[|stamps| - 1]
    else LastKnown(stamps[..|stamps| - 1])
  }

  lemma StepStamps(p: Process, s: State, e: Event)
    requires Enabled(p, s, e)
    ensures
      var s' := Apply(p, s, e);
      || (s'.stamps == s.stamps && s'.lastQuadrant == s.lastQuadrant)
      || (e.Advance? && s'.stamps == s.stamps + [e.input.quadrant]
          && s'.lastQuadrant == if e.input.quadrant != QUADRANT_NONE then e.input.quadrant else s.lastQuadrant)
  {
  }

  lemma KnownAfter(stamps: seq<nat>, q: nat)
    ensures LastKnown(stamps + [q]) == if q != 0xff then q else LastKnown(stamps)
  {
    assert (stamps + [q])[..|stamps|] == stamps;
  }

  lemma StepKeepsQuadrant(p: Process, s: State, e: Event)
    requires Enabled(p, s, e) && s.lastQuadrant == LastKnown(s.stamps)
    ensures Apply(p, s, e).lastQuadrant == LastKnown(Apply(p, s, e).stamps)
  {
    StepStamps(p, s, e);
    if e.Advance? {
      KnownAfter(s.stamps, e.input.quadrant);
    }
  }

  lemma QuadrantIsLastKnown(p: Process, threads: nat, s: State)
    requires Reachable(p, threads, s)
    ensures s.lastQuadrant == LastKnown(s.stamps)
  {
    var es :| Run(StepOf(p), Init(p, threads), es, s);
    var inv := (v: State) => v.lastQuadrant == LastKnown(v.stamps);
    forall v, e, v' | inv(v) && StepOf(p)(v, e, v')
      ensures inv(v')
    {
      StepKeepsQuadrant(p, v, e);
    }
    Keeps(StepOf(p), inv, Init(p, threads), es, s);
  }

  /** Handing a frame to the wire asks for a request just where a known quadrant follows another, known one. */
  lemma ChangeAsks(p: Process, threads: nat, s: State, t: nat, i: Input)
    requires Reachable(p, threads, s) && Enabled(p, s, Advance(t, i))
    requires s.threads[t][0].Handing? && s.threads[t][0].wire
    ensures Next(p, s, s.threads[t][0], i).callee ==
              if i.request.Some? && i.quadrant != 0xff && LastKnown(s.stamps) != 0xff
                 && i.quadrant != LastKnown(s.stamps)
              then Some(Sending(i.request.value)) else None
  {
    QuadrantIsLastKnown(p, threads, s);
  }
}
