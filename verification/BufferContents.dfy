/**
 What the threads of `BufferRuns` make of the frames. Because a buffer has one holder, each call finds
 in its buffer what it left there; and so, in every interleaving, each frame passed up to `update` is
 forwarded and delivered as the functions that specify `update` say, exactly once.
 */
module BufferContents {
  import opened Common
  import opened Runs
  import opened Sequences
  import opened NetworkInterface
  import opened Gateway
  import opened BufferRuns

  /** What the specification of `update` makes of an arrival, there being room to forward it. */
  function Specified(p: Process, a: Arrival, quadrant: nat): Effects
  {
    if a.wire then FromWire(p.watch, a.x, true)
    else FromRing(p.watch, a.x, if p.gateway then Some(p.address) else None, quadrant)
  }

  /** A frame handed to an engine is the request's it was made for, or what the arrival it came from specifies. */
  ghost predicate SentRight(p: Process, heard: seq<Arrival>, z: Sent)
  {
    match z.origin
    case Ours(r) =>
      && z.wire == (p.gateway && r.dst != INTERNAL)
      && z.frame == Frame(r.dst, if z.wire then p.address else INTERNAL, PROTO,
                          r.packet.(quadrant := z.frame.packet.quadrant))
    case Forwarded(n) =>
      && n < |heard| && z.wire == !heard[n].wire
      && var fx := Specified(p, heard[n], z.frame.packet.quadrant);
         [z.frame] == if z.wire then fx.toWire else fx.toRing
  }

  /** A message handed to observers is what the arrival it came from specifies. */
  ghost predicate DeliveredRight(p: Process, heard: seq<Arrival>, d: Delivery)
  {
    d.n < |heard| && Specified(p, heard[d.n], QUADRANT_NONE).messages == [d.message]
  }

  /** A message the application reads is what it has room for of a frame received for its queue. */
  ghost predicate ReadRight(p: Process, heard: seq<Arrival>, d: ReadOut)
  {
    && d.n < |heard| && Queued(p.watch, heard[d.n].wire, heard[d.n].x)
    && d.message == Unmarshalled(heard[d.n].x, d.capacity)
  }

  /** A frame handed to the clock protocol is the clock packet received. */
  ghost predicate HandedRight(p: Process, heard: seq<Arrival>, h: Handed)
  {
    h.n < |heard| && Specified(p, heard[h.n], QUADRANT_NONE).control == [h.frame]
  }

  /** A queued buffer holds a frame received for the queue. */
  ghost predicate WaitingRight(p: Process, heard: seq<Arrival>, x: Buffer, n: nat)
  {
    n < |heard| && heard[n].x == x && Queued(p.watch, heard[n].wire, x)
  }

  // ----- What a call knows -----

  /** x is what the n-th arrival brought, in a buffer of the interface it came by. */
  ghost predicate IsArrival(p: Process, heard: seq<Arrival>, b: int, x: Buffer, n: nat)
  {
    n < |heard| && heard[n] == Arrival(p.Owns(true, b), x) && x.size <= MTU
  }

  /** A buffer composed for an interface, before its quadrant is stamped. */
  ghost predicate Composed(p: Process, heard: seq<Arrival>, wire: bool, x: Buffer, origin: Origin)
  {
    match origin
    case Ours(r) => wire == ByWire(p, r) && x == OwnFrame(p, r, x)
    case Forwarded(n) =>
      && n < |heard| && wire == !heard[n].wire
      && var y := heard[n].x;
         && y.size >= PACKET_HEADER
         && if wire then p.gateway && Forwards(y.frame) && x == Outgoing(p, y) else !IsControl(y.frame) && x == y
  }

  ghost predicate Right(p: Process, heard: seq<Arrival>, c: Call)
  {
    match c
    case Updating(b, x, n) => IsArrival(p, heard, b, x, n)
    case Outward(b, x, n) =>
      IsArrival(p, heard, b, x, n) && x.size >= PACKET_HEADER && p.gateway && !p.Owns(true, b) && Forwards(x.frame)
    case Inner(b, x, n) => IsArrival(p, heard, b, x, n) && x.size >= PACKET_HEADER
    case Controlled(b, x, n) =>
      IsArrival(p, heard, b, x, n) && x.size >= PACKET_HEADER && p.Owns(true, b) && IsControl(x.frame)
    case Inward(b, x, n) =>
      IsArrival(p, heard, b, x, n) && x.size >= PACKET_HEADER && p.Owns(true, b) && !IsControl(x.frame)
    case Notifying(b, x, n) => Deliverable(p, heard, b, x, n)
    case Unmarshalling(b, x, n) => Deliverable(p, heard, b, x, n) && WatchOf(p, x) == Some(Unmarshals)
    case Reading(_, x, n) => WaitingRight(p, heard, x, n)
    case Handing(wire, _, x, origin) => Composed(p, heard, wire, x, origin)
    case Engaging(wire, _, x, origin) => SentRight(p, heard, Sent(wire, x.frame, origin))
    case _ => true
  }

  ghost predicate Deliverable(p: Process, heard: seq<Arrival>, b: int, x: Buffer, n: nat)
  {
    IsArrival(p, heard, b, x, n) && x.size >= PACKET_HEADER && (p.Owns(true, b) ==> !IsControl(x.frame))
  }

  /** The calls that know what their buffer holds. */
  predicate Knows(c: Call)
  {
    !c.Handler? && !c.Taken? && !c.Dropping? && !c.CallingBack? && !c.Awaiting? && !c.Sending?
  }

  ghost predicate CallTrue(p: Process, s: State, c: Call)
  {
    Right(p, s.heard, c) && (Knows(c) ==> Load(s.mem, c.b) == c.x)
  }

  ghost predicate HistoryRight(p: Process, s: State)
  {
    && (forall z :: z in s.sent ==> SentRight(p, s.heard, z))
    && (forall d :: d in s.delivered ==> DeliveredRight(p, s.heard, d))
    && (forall d :: d in s.read ==> ReadRight(p, s.heard, d))
    && (forall h :: h in s.controlled ==> HandedRight(p, s.heard, h))
    && (forall w :: w in s.arrived ==> WaitingRight(p, s.heard, w.x, w.n))
  }

  ghost predicate ContentsInv(p: Process, s: State)
  {
    && HistoryRight(p, s)
    && (forall t, k :: 0 <= t < |s.threads| && 0 <= k < |s.threads[t]| ==> CallTrue(p, s, s.threads[t][k]))
  }

  // ----- What is still to be done about an arrival -----

  /** What there is to do about an arrival. */
  datatype Duty = Forward | Deliver | Control | Queue

  /** How often the duty is to be done, 0 or 1. */
  function Specifies(p: Process, duty: Duty, a: Arrival): nat
  {
    var fx := Specified(p, a, QUADRANT_NONE);
    match duty
    case Forward => |fx.toWire| + |fx.toRing|
    case Deliver => |fx.messages|
    case Control => |fx.control|
    case Queue => One(Queued(p.watch, a.wire, a.x))
  }

  lemma SpecifiedOnce(p: Process, duty: Duty, a: Arrival)
    ensures Specifies(p, duty, a) <= 1
  {
  }

  /** The call has the duty before it. */
  predicate Before(p: Process, duty: Duty, c: Call)
  {
    match c
    case Updating(_, _, _) => true
    case Outward(_, _, _) => true
    case Inner(b, _, _) => duty.Forward? ==> p.Owns(true, b)
    case Controlled(_, _, _) => duty.Control?
    case Inward(_, _, _) => true
    case Notifying(_, _, _) => duty.Deliver? || duty.Queue?
    case Unmarshalling(_, _, _) => duty.Deliver?
    case _ => false
  }

  /** How often call c will yet do the duty for arrival n. */
  function Due(p: Process, duty: Duty, n: nat, c: Call): nat
  {
    if Before(p, duty, c) then
      if c.n == n then Specifies(p, duty, Arrival(p.Owns(true, c.b), c.x)) else 0
    else if c.Handing? || c.Engaging? then One(duty.Forward? && c.origin == Forwarded(n))
    else One(c.Reading? && duty.Queue? && c.n == n)
  }

  function DueOf(p: Process, duty: Duty, n: nat): Call -> nat
  {
    (c: Call) => Due(p, duty, n, c)
  }

  function IsForwarded(n: nat): Sent -> nat { (z: Sent) => One(z.origin == Forwarded(n)) }

  function IsDelivered(n: nat): Delivery -> nat { (d: Delivery) => One(d.n == n) }

  function IsHanded(n: nat): Handed -> nat { (h: Handed) => One(h.n == n) }

  function IsRead(n: nat): ReadOut -> nat { (d: ReadOut) => One(d.n == n) }

  function IsWaiting(n: nat): Waiting -> nat { (d: Waiting) => One(d.n == n) }

  /** How often the duty has been done for arrival n. */
  function Done(s: State, duty: Duty, n: nat): nat
  {
    match duty
    case Forward => Total(IsForwarded(n), s.sent)
    case Deliver => Total(IsDelivered(n), s.delivered)
    case Control => Total(IsHanded(n), s.controlled)
    case Queue => Total(IsRead(n), s.read)
  }

  /** It waits in the queue to be read, or could not be forwarded for want of a buffer. */
  function Pending(s: State, duty: Duty, n: nat): nat
  {
    match duty
    case Forward => One(n in s.full)
    case Queue => Total(IsWaiting(n), s.arrived)
    case _ => 0
  }

  function Owed(p: Process, duty: Duty, heard: seq<Arrival>, n: nat): nat
  {
    if n < |heard| then Specifies(p, duty, heard[n]) else 0
  }

  /** What is specified for an arrival is still due, or done, or waits, or was for want of a buffer not done. */
  ghost predicate Accounted(p: Process, s: State, duty: Duty, n: nat)
  {
    InThreads(DueOf(p, duty, n), s.threads) + Done(s, duty, n) + Pending(s, duty, n) == Owed(p, duty, s.heard, n)
  }

  // ----- Contents are kept -----

  lemma StillRight(p: Process, heard: seq<Arrival>, more: seq<Arrival>, c: Call)
    requires Right(p, heard, c) && heard <= more
    ensures Right(p, more, c)
  {
  }

  /** The next step of a call whose buffer holds what the call knows: the calls after it are right. */
  lemma ArrivingRight(p: Process, s: State, c: Call, i: Input, d: Call)
    requires Arriving(c) && CallTrue(p, s, c) && Typed(p, c)
    requires d in Next(p, s, c, i).Calls()
    ensures Right(p, s.heard + Heard(p, c, i), d)
  {
    InOutcomeCalls(Next(p, s, c, i), d);
  }

  lemma RelayingRight(p: Process, s: State, c: Call, i: Input, d: Call)
    requires Relaying(c) && CallTrue(p, s, c) && Typed(p, c)
    requires d in Next(p, s, c, i).Calls()
    ensures Right(p, s.heard, d)
  {
    InOutcomeCalls(Next(p, s, c, i), d);
  }

  lemma EndingRight(p: Process, s: State, c: Call, i: Input, d: Call)
    requires !Arriving(c) && !Relaying(c) && CallTrue(p, s, c) && Typed(p, c)
    requires c.Awaiting? ==> s.queue != [] && WaitingRight(p, s.heard, NextWaiting(s).x, NextWaiting(s).n)
    requires d in Next(p, s, c, i).Calls()
    ensures Right(p, s.heard, d)
  {
    InOutcomeCalls(Next(p, s, c, i), d);
  }

  lemma NextRight(p: Process, s: State, t: nat, i: Input, d: Call)
    requires Inv(p, s) && ContentsInv(p, s) && Enabled(p, s, Advance(t, i))
    requires CallTrue(p, s, s.threads[t][0]) && Typed(p, s.threads[t][0])
    requires d in Next(p, s, s.threads[t][0], i).Calls()
    ensures Right(p, s.heard + Heard(p, s.threads[t][0], i), d)
  {
    var c := s.threads[t][0];
    if Arriving(c) {
      ArrivingRight(p, s, c, i, d);
    } else {
      if Relaying(c) {
        RelayingRight(p, s, c, i, d);
      } else {
        assert c.Awaiting? ==> s.arrived[0] in s.arrived;
        EndingRight(p, s, c, i, d);
      }
      StillRight(p, s.heard, s.heard + Heard(p, c, i), d);
    }
  }

  lemma InOutcomeCalls(out: Outcome, d: Call)
    requires d in out.Calls()
    ensures out.callee == Some(d) || out.self == Some(d)
  {
  }

  /** A buffer just taken is one that the call does not have already. */
  lemma GotIsNew(p: Process, s: State, t: nat, op: Op)
    requires Inv(p, s) && t < |s.threads| && s.threads[t] != [] && Got(p, s, op).Some?
    ensures !Has(s.threads[t][0], Got(p, s, op).value)
    ensures p.Owns(op.wire, Got(p, s, op).value) && Got(p, s, op).value < |s.mem|
  {
    var b := Got(p, s, op).value;
    GotTyped(p, s, op);
    GotIsFree(p, s, op);
    assert CountsAgree(p, s, b);
    if Has(s.threads[t][0], b) {
      HolderIsCounted(s, t, 0, b);
    }
  }

  /** And their buffers hold what they know. */
  lemma ArrivingKnows(p: Process, s: State, c: Call, i: Input, d: Call)
    requires SharedTyped(p, s) && Arriving(c) && CallTrue(p, s, c) && Typed(p, c)
    requires d in Next(p, s, c, i).Calls() && Knows(d)
    ensures Load(Written(p, s, c, i), d.b) == d.x
  {
    InOutcomeCalls(Next(p, s, c, i), d);
  }

  lemma RelayingKnows(p: Process, s: State, c: Call, i: Input, d: Call)
    requires SharedTyped(p, s) && Relaying(c) && CallTrue(p, s, c) && Typed(p, c)
    requires
      var got := Got(p, s, OpOf(p, s, c));
      got.Some? ==> 0 <= got.value < |s.mem| && !Has(c, got.value)
    requires d in Next(p, s, c, i).Calls() && Knows(d)
    ensures Load(Written(p, s, c, i), d.b) == d.x
  {
    InOutcomeCalls(Next(p, s, c, i), d);
  }

  lemma EndingKnows(p: Process, s: State, c: Call, i: Input, d: Call)
    requires SharedTyped(p, s) && QueueIntact(s) && !Arriving(c) && !Relaying(c) && CallTrue(p, s, c) && Typed(p, c)
    requires c.Awaiting? ==> s.queue != []
    requires d in Next(p, s, c, i).Calls() && Knows(d)
    ensures Load(Written(p, s, c, i), d.b) == d.x
  {
    InOutcomeCalls(Next(p, s, c, i), d);
  }

  lemma NextKnows(p: Process, s: State, t: nat, i: Input, d: Call)
    requires Inv(p, s) && Enabled(p, s, Advance(t, i)) && CallTrue(p, s, s.threads[t][0])
    requires Typed(p, s.threads[t][0])
    requires d in Next(p, s, s.threads[t][0], i).Calls() && Knows(d)
    ensures Load(Written(p, s, s.threads[t][0], i), d.b) == d.x
  {
    var c := s.threads[t][0];
    if Arriving(c) {
      ArrivingKnows(p, s, c, i, d);
    } else if Relaying(c) {
      if Got(p, s, OpOf(p, s, c)).Some? {
        GotIsNew(p, s, t, OpOf(p, s, c));
      }
      RelayingKnows(p, s, c, i, d);
    } else {
      EndingKnows(p, s, c, i, d);
    }
  }

  lemma AdvanceKeepsCalls(p: Process, s: State, t: nat, i: Input, u: nat, k: nat)
    requires Inv(p, s) && ContentsInv(p, s) && Enabled(p, s, Advance(t, i))
    requires u < |s.threads| && k < |Apply(p, s, Advance(t, i)).threads[u]|
    ensures CallTrue(p, Apply(p, s, Advance(t, i)), Apply(p, s, Advance(t, i)).threads[u][k])
  {
    var c, s' := s.threads[t][0], Apply(p, s, Advance(t, i));
    var calls := Next(p, s, c, i).Calls();
    var d := s'.threads[u][k];
    assert CallTrue(p, s, c);
    if u == t && k < |calls| {
      assert StackTyped(p, s.threads[t]) && c in s.threads[t] && d in calls;
      NextRight(p, s, t, i, d);
      if Knows(d) {
        NextKnows(p, s, t, i, d);
      }
    } else {
      var was := if u == t then k - |calls| + 1 else k;
      assert d == s.threads[u][was] && CallTrue(p, s, d);
      StillRight(p, s.heard, s'.heard, d);
      if Knows(d) {
        StepSparesOthers(p, s, t, i, u, was, d.b);
      }
    }
  }

  lemma HistoryGrows(p: Process, s: State, more: seq<Arrival>)
    requires HistoryRight(p, s) && s.heard <= more
    ensures HistoryRight(p, s.(heard := more))
  {
  }

  /** What a step adds to the history is right. */
  lemma EntriesRight(p: Process, s: State, c: Call, i: Input)
    requires CallTrue(p, s, c)
    ensures forall z :: z in SentBy(s, c) ==> SentRight(p, s.heard, z)
    ensures forall d :: d in DeliveredBy(s, c) ==> DeliveredRight(p, s.heard, d)
    ensures forall d :: d in ReadBy(s, c, i) ==> ReadRight(p, s.heard, d)
    ensures forall h :: h in ControlledBy(s, c) ==> HandedRight(p, s.heard, h)
    ensures OpOf(p, s, c).Put? ==> WaitingRight(p, s.heard, Load(s.mem, c.b), OpOf(p, s, c).n)
  {
  }

  /** What waits after a step waited before, or is what the step queued. */
  lemma WaitingAfter(p: Process, s: State, op: Op, w: Waiting)
    requires op.Get? ==> s.queue != []
    requires w in Perform(p, s, op).arrived
    ensures w in s.arrived || (op.Put? && w == Waiting(Load(s.mem, op.b), op.n))
  {
  }

  lemma AdvanceKeepsWaiting(p: Process, s: State, t: nat, i: Input)
    requires HistoryRight(p, s) && Enabled(p, s, Advance(t, i)) && CallTrue(p, s, s.threads[t][0])
    ensures forall w :: w in Apply(p, s, Advance(t, i)).arrived ==> WaitingRight(p, s.heard, w.x, w.n)
  {
    var c := s.threads[t][0];
    var op := OpOf(p, s, c);
    EntriesRight(p, s, c, i);
    forall w | w in Perform(p, s, op).arrived
      ensures WaitingRight(p, s.heard, w.x, w.n)
    {
      WaitingAfter(p, s, op, w);
    }
    assert Apply(p, s, Advance(t, i)).arrived == Perform(p, s, op).arrived;
  }

  lemma AdvanceKeepsHistory(p: Process, s: State, t: nat, i: Input)
    requires HistoryRight(p, s) && Enabled(p, s, Advance(t, i)) && CallTrue(p, s, s.threads[t][0])
    ensures HistoryRight(p, Apply(p, s, Advance(t, i)))
  {
    var c, s' := s.threads[t][0], Apply(p, s, Advance(t, i));
    EntriesRight(p, s, c, i);
    AdvanceKeepsWaiting(p, s, t, i);
    var known := State(s.mem, s.ringFree, s.wireFree, s.lastQuadrant, s.queue, s.threads, s.taken, s.given,
                       s'.arrived, s.heard, s'.sent, s'.delivered, s'.read, s'.controlled, s.full, s.asked, s.refused,
                       s.stamps);
    HistoryGrows(p, known, s'.heard);
  }

  lemma StepKeepsContents(p: Process, s: State, e: Event)
    requires Inv(p, s) && ContentsInv(p, s) && Enabled(p, s, e)
    ensures ContentsInv(p, Apply(p, s, e))
  {
    match e
    case Enter(t, c) =>
    case Advance(t, i) =>
      assert CallTrue(p, s, s.threads[t][0]);
      AdvanceKeepsHistory(p, s, t, i);
      var s' := Apply(p, s, e);
      forall u, k | 0 <= u < |s'.threads| && 0 <= k < |s'.threads[u]|
        ensures CallTrue(p, s', s'.threads[u][k])
      {
        AdvanceKeepsCalls(p, s, t, i, u, k);
      }
  }

  // ----- The account of each arrival is kept -----

  function DueIn(p: Process, duty: Duty, n: nat, o: Option<Call>): nat
  {
    if o.Some? then Due(p, duty, n, o.value) else 0
  }

  /** What the step of c adds to what is done or pending, and what it takes from the queue to read. */
  function Adds(p: Process, s: State, c: Call, i: Input, duty: Duty, n: nat): nat
  {
    match duty
    case Forward => One(c.Engaging? && c.origin == Forwarded(n)) + One(n in FullFor(p, s, c))
    case Deliver => One(DeliveredBy(s, c) != [] && c.n == n)
    case Control => One(c.Controlled? && c.n == n)
    case Queue => One(ReadBy(s, c, i) != [] && c.n == n) + One(OpOf(p, s, c).Put? && OpOf(p, s, c).n == n)
  }

  function Fetches(s: State, c: Call, duty: Duty, n: nat): nat
  {
    One(duty.Queue? && c.Awaiting? && NextWaiting(s).n == n)
  }

  /** An arrival that this step hears, if its number is n. */
  function NewlyOwed(p: Process, s: State, c: Call, i: Input, duty: Duty, n: nat): nat
  {
    if Heard(p, c, i) != [] && n == |s.heard| then Specifies(p, duty, Heard(p, c, i)[0]) else 0
  }

  /** A call's step does what is due, or cannot, or passes it on; a frame that comes makes more due. */
  ghost predicate Settles(p: Process, s: State, c: Call, i: Input, duty: Duty, n: nat)
    requires c.Awaiting? ==> s.queue != []
  {
    var out := Next(p, s, c, i);
    DueIn(p, duty, n, out.callee) + DueIn(p, duty, n, out.self) + Adds(p, s, c, i, duty, n)
    == Due(p, duty, n, c) + Fetches(s, c, duty, n) + NewlyOwed(p, s, c, i, duty, n)
  }

  lemma TakenSettles(p: Process, s: State, c: Call, i: Input, duty: Duty, n: nat)
    requires c.Taken? && Typed(p, c)
    ensures Settles(p, s, c, i, duty, n)
  {
  }

  lemma UpdatingSettles(p: Process, s: State, c: Call, i: Input, duty: Duty, n: nat)
    requires c.Updating? && CallTrue(p, s, c) && Typed(p, c)
    ensures Settles(p, s, c, i, duty, n)
  {
  }

  lemma ArrivingSettles(p: Process, s: State, c: Call, i: Input, duty: Duty, n: nat)
    requires (c.Handler? || c.Dropping? || c.Inner?) && CallTrue(p, s, c) && Typed(p, c)
    ensures Settles(p, s, c, i, duty, n)
  {
  }

  lemma ForwardingSettles(p: Process, s: State, c: Call, i: Input, duty: Duty, n: nat)
    requires (c.Outward? || c.Inward?) && CallTrue(p, s, c) && Typed(p, c)
    ensures Settles(p, s, c, i, duty, n)
  {
  }

  lemma SendingSettles(p: Process, s: State, c: Call, i: Input, duty: Duty, n: nat)
    requires (c.Sending? || c.Handing? || c.Engaging?) && CallTrue(p, s, c) && Typed(p, c)
    ensures Settles(p, s, c, i, duty, n)
  {
  }

  lemma NotifyingSettles(p: Process, s: State, c: Call, i: Input, duty: Duty, n: nat)
    requires c.Notifying? && CallTrue(p, s, c) && Typed(p, c)
    ensures Settles(p, s, c, i, duty, n)
  {
  }

  lemma HandingOverSettles(p: Process, s: State, c: Call, i: Input, duty: Duty, n: nat)
    requires (c.Controlled? || c.Unmarshalling?) && CallTrue(p, s, c) && Typed(p, c)
    ensures Settles(p, s, c, i, duty, n)
  {
  }

  lemma EndingSettles(p: Process, s: State, c: Call, i: Input, duty: Duty, n: nat)
    requires c.Releasing? || c.CallingBack? || c.Awaiting? || c.Reading?
    requires CallTrue(p, s, c) && Typed(p, c) && (c.Awaiting? ==> s.queue != [])
    ensures Settles(p, s, c, i, duty, n)
  {
  }

  lemma StepSettles(p: Process, s: State, c: Call, i: Input, duty: Duty, n: nat)
    requires CallTrue(p, s, c) && Typed(p, c) && (c.Awaiting? ==> s.queue != [])
    ensures Settles(p, s, c, i, duty, n)
  {
    if c.Taken? {
      TakenSettles(p, s, c, i, duty, n);
    } else if c.Updating? {
      UpdatingSettles(p, s, c, i, duty, n);
    } else if c.Handler? || c.Dropping? || c.Inner? {
      ArrivingSettles(p, s, c, i, duty, n);
    } else if c.Outward? || c.Inward? {
      ForwardingSettles(p, s, c, i, duty, n);
    } else if c.Sending? || c.Handing? || c.Engaging? {
      SendingSettles(p, s, c, i, duty, n);
    } else if c.Notifying? {
      NotifyingSettles(p, s, c, i, duty, n);
    } else if c.Controlled? || c.Unmarshalling? {
      HandingOverSettles(p, s, c, i, duty, n);
    } else {
      EndingSettles(p, s, c, i, duty, n);
    }
  }

  /** An arrival is forwarded once at most: what is due of it is not counted as lost already. */
  lemma DueIsNotFull(p: Process, s: State, t: nat, n: nat)
    requires Accounted(p, s, Forward, n)
    requires t < |s.threads| && s.threads[t] != [] && Due(p, Forward, n, s.threads[t][0]) >= 1
    ensures n !in s.full
  {
    ThreadsAtLeast(DueOf(p, Forward, n), s.threads, t);
    if n < |s.heard| {
      SpecifiedOnce(p, Forward, s.heard[n]);
    }
  }

  lemma ThreadsAtLeast(f: Call -> nat, threads: seq<seq<Call>>, t: nat)
    requires t < |threads| && threads[t] != []
    ensures f(threads[t][0]) <= InThreads(f, threads)
  {
    TotalAtLeast(f, threads[t], 0);
    TotalAtLeast(InStack(f), threads, t);
  }

  /** How the step of c changes what is done and pending. */
  ghost predicate Progress(p: Process, s: State, s': State, c: Call, i: Input, duty: Duty, n: nat)
  {
    Done(s', duty, n) + Pending(s', duty, n) + Fetches(s, c, duty, n)
    == Done(s, duty, n) + Pending(s, duty, n) + Adds(p, s, c, i, duty, n)
  }

  lemma ForwardProgress(p: Process, s: State, t: nat, i: Input, n: nat)
    requires Enabled(p, s, Advance(t, i)) && (n in FullFor(p, s, s.threads[t][0]) ==> n !in s.full)
    ensures Progress(p, s, Apply(p, s, Advance(t, i)), s.threads[t][0], i, Forward, n)
  {
    TotalAppend(IsForwarded(n), s.sent, SentBy(s, s.threads[t][0]));
  }

  lemma DeliverProgress(p: Process, s: State, t: nat, i: Input, n: nat)
    requires Enabled(p, s, Advance(t, i))
    ensures Progress(p, s, Apply(p, s, Advance(t, i)), s.threads[t][0], i, Deliver, n)
  {
    TotalAppend(IsDelivered(n), s.delivered, DeliveredBy(s, s.threads[t][0]));
  }

  lemma ControlProgress(p: Process, s: State, t: nat, i: Input, n: nat)
    requires Enabled(p, s, Advance(t, i))
    ensures Progress(p, s, Apply(p, s, Advance(t, i)), s.threads[t][0], i, Control, n)
  {
    TotalAppend(IsHanded(n), s.controlled, ControlledBy(s, s.threads[t][0]));
  }

  /** The queue gains and loses what its operation says. */
  lemma WaitingChanges(p: Process, s: State, op: Op, n: nat)
    requires QueueIntact(s) && (op.Get? ==> s.queue != [])
    ensures Total(IsWaiting(n), Perform(p, s, op).arrived) + One(op.Get? && NextWaiting(s).n == n)
            == Total(IsWaiting(n), s.arrived) + One(op.Put? && op.n == n)
  {
    if op.Put? {
      TotalAppend(IsWaiting(n), s.arrived, [Waiting(Load(s.mem, op.b), op.n)]);
    } else if op.Get? {
      TotalTail(IsWaiting(n), s.arrived);
    }
  }

  lemma OnlyAwaitingGets(p: Process, s: State, c: Call)
    ensures OpOf(p, s, c).Get? <==> c.Awaiting?
  {
  }

  lemma AdvanceReads(p: Process, s: State, t: nat, i: Input)
    requires Enabled(p, s, Advance(t, i))
    ensures Apply(p, s, Advance(t, i)).read == s.read + ReadBy(s, s.threads[t][0], i)
    ensures Apply(p, s, Advance(t, i)).arrived == Perform(p, s, OpOf(p, s, s.threads[t][0])).arrived
  {
  }

  lemma QueueBalance(p: Process, s: State, s': State, c: Call, i: Input, n: nat)
    requires QueueIntact(s) && (c.Awaiting? ==> s.queue != []) && (OpOf(p, s, c).Get? <==> c.Awaiting?)
    requires s'.read == s.read + ReadBy(s, c, i) && s'.arrived == Perform(p, s, OpOf(p, s, c)).arrived
    ensures Progress(p, s, s', c, i, Queue, n)
  {
    TotalAppend(IsRead(n), s.read, ReadBy(s, c, i));
    WaitingChanges(p, s, OpOf(p, s, c), n);
  }

  lemma QueueProgress(p: Process, s: State, t: nat, i: Input, n: nat)
    requires QueueIntact(s) && Enabled(p, s, Advance(t, i))
    ensures Progress(p, s, Apply(p, s, Advance(t, i)), s.threads[t][0], i, Queue, n)
  {
    OnlyAwaitingGets(p, s, s.threads[t][0]);
    AdvanceReads(p, s, t, i);
    QueueBalance(p, s, Apply(p, s, Advance(t, i)), s.threads[t][0], i, n);
  }

  lemma OwedGrows(p: Process, s: State, t: nat, i: Input, duty: Duty, n: nat)
    requires Enabled(p, s, Advance(t, i))
    ensures Owed(p, duty, Apply(p, s, Advance(t, i)).heard, n)
            == Owed(p, duty, s.heard, n) + NewlyOwed(p, s, s.threads[t][0], i, duty, n)
  {
  }

  lemma AdvanceProgress(p: Process, s: State, t: nat, i: Input, duty: Duty, n: nat)
    requires QueueIntact(s) && Enabled(p, s, Advance(t, i)) && Accounted(p, s, duty, n)
    requires CallTrue(p, s, s.threads[t][0]) && Typed(p, s.threads[t][0])
    requires Settles(p, s, s.threads[t][0], i, duty, n)
    ensures Progress(p, s, Apply(p, s, Advance(t, i)), s.threads[t][0], i, duty, n)
  {
    match duty
    case Forward =>
      if n in FullFor(p, s, s.threads[t][0]) {
        DueIsNotFull(p, s, t, n);
      }
      ForwardProgress(p, s, t, i, n);
    case Deliver => DeliverProgress(p, s, t, i, n);
    case Control => ControlProgress(p, s, t, i, n);
    case Queue => QueueProgress(p, s, t, i, n);
  }

  /** The sum of what is due changes by what the step makes of one call. */
  ghost predicate DueMoves(p: Process, s: State, s': State, c: Call, out: Outcome, duty: Duty, n: nat)
  {
    InThreads(DueOf(p, duty, n), s'.threads)
    == InThreads(DueOf(p, duty, n), s.threads) - Due(p, duty, n, c)
       + DueIn(p, duty, n, out.callee) + DueIn(p, duty, n, out.self)
  }

  lemma AdvanceMovesDue(p: Process, s: State, t: nat, i: Input, duty: Duty, n: nat)
    requires Enabled(p, s, Advance(t, i))
    ensures DueMoves(p, s, Apply(p, s, Advance(t, i)), s.threads[t][0], Next(p, s, s.threads[t][0], i), duty, n)
  {
    SumChanges(DueOf(p, duty, n), p, s, t, i);
  }

  lemma AdvanceKeepsAccount(p: Process, s: State, t: nat, i: Input, duty: Duty, n: nat)
    requires Inv(p, s) && ContentsInv(p, s) && Enabled(p, s, Advance(t, i)) && Accounted(p, s, duty, n)
    ensures Accounted(p, Apply(p, s, Advance(t, i)), duty, n)
  {
    var c := s.threads[t][0];
    assert StackTyped(p, s.threads[t]) && c in s.threads[t] && CallTrue(p, s, c);
    StepSettles(p, s, c, i, duty, n);
    AdvanceProgress(p, s, t, i, duty, n);
    AdvanceMovesDue(p, s, t, i, duty, n);
    OwedGrows(p, s, t, i, duty, n);
  }

  lemma SameAccount(p: Process, s: State, s': State, duty: Duty, n: nat)
    requires Accounted(p, s, duty, n)
    requires InThreads(DueOf(p, duty, n), s'.threads) == InThreads(DueOf(p, duty, n), s.threads)
    requires s'.heard == s.heard && s'.sent == s.sent && s'.delivered == s.delivered && s'.read == s.read
    requires s'.controlled == s.controlled && s'.arrived == s.arrived && s'.full == s.full
    ensures Accounted(p, s', duty, n)
  {
  }

  lemma EnterKeepsAccount(p: Process, s: State, t: nat, c: Call, duty: Duty, n: nat)
    requires Enabled(p, s, Enter(t, c)) && Accounted(p, s, duty, n)
    ensures Accounted(p, Apply(p, s, Enter(t, c)), duty, n)
  {
    SumAfterEnter(DueOf(p, duty, n), s, t, c);
    SameAccount(p, s, Apply(p, s, Enter(t, c)), duty, n);
  }

  ghost predicate FullInv(p: Process, s: State)
  {
    Inv(p, s) && ContentsInv(p, s) && forall duty, n: nat :: Accounted(p, s, duty, n)
  }

  lemma StepKeepsFullInv(p: Process, s: State, e: Event)
    requires FullInv(p, s) && Enabled(p, s, e)
    ensures FullInv(p, Apply(p, s, e))
  {
    StepKeepsInv(p, s, e);
    StepKeepsContents(p, s, e);
    forall duty, n: nat
      ensures Accounted(p, Apply(p, s, e), duty, n)
    {
      assert Accounted(p, s, duty, n);
      match e
      case Enter(t, c) => EnterKeepsAccount(p, s, t, c, duty, n);
      case Advance(t, i) => AdvanceKeepsAccount(p, s, t, i, duty, n);
    }
  }

  lemma InitFullInv(p: Process, threads: nat)
    ensures FullInv(p, Init(p, threads))
  {
    InitInv(p, threads);
    forall duty, n: nat
      ensures Accounted(p, Init(p, threads), duty, n)
    {
      TotalZero(InStack(DueOf(p, duty, n)), Init(p, threads).threads);
    }
  }

  lemma ReachableFullInv(p: Process, threads: nat, s: State)
    requires Reachable(p, threads, s)
    ensures FullInv(p, s)
  {
    var es :| Run(StepOf(p), Init(p, threads), es, s);
    InitFullInv(p, threads);
    var inv := v => FullInv(p, v);
    forall v, e, v' | inv(v) && StepOf(p)(v, e, v')
      ensures inv(v')
    {
      StepKeepsFullInv(p, v, e);
    }
    Keeps(StepOf(p), inv, Init(p, threads), es, s);
  }

  // ----- Main results -----

  /** In every interleaving, a call finds in its buffer what it left there. */
  lemma CallsKnowTheirBuffers(p: Process, threads: nat, s: State, t: nat, k: nat)
    requires Reachable(p, threads, s) && t < |s.threads| && k < |s.threads[t]| && Knows(s.threads[t][k])
    ensures Load(s.mem, s.threads[t][k].b) == s.threads[t][k].x
  {
    ReachableFullInv(p, threads, s);
    assert CallTrue(p, s, s.threads[t][k]);
  }

  /**
   Every frame handed to an engine is one that `send` was asked for, by the interface it was asked
   for, or what is specified for a frame received by the other interface.
   */
  lemma SentAsSpecified(p: Process, threads: nat, s: State, z: Sent)
    requires Reachable(p, threads, s) && z in s.sent
    ensures SentRight(p, s.heard, z)
    ensures z.origin.Forwarded? ==>
              var f := s.heard[z.origin.n].x.frame;
              if z.wire then
                && f.src == INTERNAL && f.dst == BROADCAST
                && z.frame == Frame(f.dst, p.address, PROTO, f.packet.(quadrant := z.frame.packet.quadrant))
              else f.packet.kind.Data? && z.frame == f
  {
    ReachableFullInv(p, threads, s);
  }

  /** Every message handed to observers, or read by the application, is the one specified for a frame received. */
  lemma DeliveredAsSpecified(p: Process, threads: nat, s: State)
    requires Reachable(p, threads, s)
    ensures forall d :: d in s.delivered ==> DeliveredRight(p, s.heard, d)
    ensures forall d :: d in s.read ==> ReadRight(p, s.heard, d)
  {
    ReachableFullInv(p, threads, s);
  }

  /** Every frame handed to the clock protocol is a clock packet received from the wire. */
  lemma HandedAsSpecified(p: Process, threads: nat, s: State, h: Handed)
    requires Reachable(p, threads, s) && h in s.controlled
    ensures h.n < |s.heard| && s.heard[h.n].wire
    ensures h.frame == s.heard[h.n].x.frame && !h.frame.packet.kind.Data?
  {
    ReachableFullInv(p, threads, s);
  }

  /** Call c is about arrival n: it handles it, sends what was forwarded of it, or is reading it out. */
  predicate Concerns(c: Call, n: nat)
  {
    match c
    case Updating(_, _, m) => m == n
    case Outward(_, _, m) => m == n
    case Inner(_, _, m) => m == n
    case Controlled(_, _, m) => m == n
    case Inward(_, _, m) => m == n
    case Notifying(_, _, m) => m == n
    case Unmarshalling(_, _, m) => m == n
    case Reading(_, _, m) => m == n
    case Handing(_, _, _, origin) => origin == Forwarded(n)
    case Engaging(_, _, _, origin) => origin == Forwarded(n)
    case _ => false
  }

  ghost predicate NoCallConcerns(s: State, n: nat)
  {
    forall t, k :: 0 <= t < |s.threads| && 0 <= k < |s.threads[t]| ==> !Concerns(s.threads[t][k], n)
  }

  lemma OnlyConcernedIsDue(p: Process, duty: Duty, n: nat, c: Call)
    ensures !Concerns(c, n) ==> Due(p, duty, n, c) == 0
  {
  }

  lemma NothingDue(p: Process, s: State, duty: Duty, n: nat)
    requires NoCallConcerns(s, n)
    ensures InThreads(DueOf(p, duty, n), s.threads) == 0
  {
    forall t | 0 <= t < |s.threads|
      ensures InStack(DueOf(p, duty, n))(s.threads[t]) == 0
    {
      forall k | 0 <= k < |s.threads[t]|
        ensures DueOf(p, duty, n)(s.threads[t][k]) == 0
      {
        OnlyConcernedIsDue(p, duty, n, s.threads[t][k]);
      }
      TotalZero(DueOf(p, duty, n), s.threads[t]);
    }
    TotalZero(InStack(DueOf(p, duty, n)), s.threads);
  }

  lemma AccountOf(p: Process, threads: nat, s: State, duty: Duty, n: nat)
    requires Reachable(p, threads, s)
    ensures Accounted(p, s, duty, n)
  {
    ReachableFullInv(p, threads, s);
  }

  /**
   Nothing is lost and nothing done twice: what is specified for a frame received, to forward it, to
   deliver it, to hand it to the clock protocol or to have the application read it, is never done more
   often than specified; and once no call is about the frame any more it has been done exactly as often,
   but for a forwarding whose turn came when the other interface's pool was empty, and for what still
   waits in the queue.
   */
  lemma EachArrivalIsHandledOnce(p: Process, threads: nat, s: State, duty: Duty, n: nat)
    requires Reachable(p, threads, s) && n < |s.heard|
    ensures Done(s, duty, n) <= Specifies(p, duty, s.heard[n]) <= 1
    ensures NoCallConcerns(s, n) ==> Done(s, duty, n) + Pending(s, duty, n) == Specifies(p, duty, s.heard[n])
  {
    AccountOf(p, threads, s, duty, n);
    SpecifiedOnce(p, duty, s.heard[n]);
    if NoCallConcerns(s, n) {
      NothingDue(p, s, duty, n);
    }
  }
}
