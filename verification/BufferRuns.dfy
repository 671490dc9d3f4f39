/**
 Any number of threads in one process, each running the receive handlers, `update`, `send` and the
 two ways of receiving, interleaved one access to a pool or to the communicator's queue at a time.
 A thread is its stack of calls, innermost first, and each call says where it stands and which
 buffer it has. Nothing checks what a thread frees: `NIC::free` pushes whatever index it computes.
 */
module BufferRuns {
  import opened Addresses
  import opened Common
  import opened Runs
  import opened Sequences
  import opened NetworkInterface
  import opened Gateway

  /** The sizes of the two pools, whether there is a wire interface, its address, and who watches a port. */
  datatype Process = Process(ringSize: nat, wireSize: nat, gateway: bool, address: Mac, watch: map<nat, Watch>)
  {
    function Size(wire: bool): nat { if !wire then ringSize else if gateway then wireSize else 0 }

    /** Both pools are arrays in one memory: the address of a pool's first buffer. */
    function Base(wire: bool): nat { if wire then ringSize else 0 }

    function Memory(): nat { Size(false) + Size(true) }

    predicate Owns(wire: bool, b: int) { Base(wire) <= b < Base(wire) + Size(wire) }
  }

  /** What `send` is asked to send. */
  datatype Request = Request(dst: Mac, size: nat, packet: Packet)

  /** Where a frame handed to an engine came from: a request of ours, or the n-th frame passed up to `update`. */
  datatype Origin = Ours(r: Request) | Forwarded(n: nat)

  /**
   `x`, `n` and `origin` are history: what the call knows its buffer to hold, the number of the frame it
   is about, and where a frame being sent came from. No step looks at them.
   */
  datatype Call =
    | Handler(wire: bool)                                       // a frame has come, no buffer taken yet
    | Taken(wire: bool, b: int)                                 // the frame not yet copied into the buffer
    | Dropping(wire: bool, b: int)                              // at the handler's own `free`
    | Updating(b: int, x: Buffer, n: nat)                       // at the start of `update`
    | Outward(b: int, x: Buffer, n: nat)                        // about to ask the wire's pool for a buffer
    | Inner(b: int, x: Buffer, n: nat)                          // past the forwarding to the wire
    | Controlled(b: int, x: Buffer, n: nat)                     // about to call the clock protocol
    | Inward(b: int, x: Buffer, n: nat)                         // about to ask the ring's pool for a buffer
    | Notifying(b: int, x: Buffer, n: nat)                      // about to notify the port
    | Releasing(b: int, x: Buffer, n: nat)                      // at the `free_buffer` that ends `update`
    | Unmarshalling(b: int, x: Buffer, n: nat)                  // in `receive`, for the observers of a port
    | CallingBack                                               // the observers run, and may send
    | Awaiting                                                  // in the application's `receive`
    | Reading(b: int, x: Buffer, n: nat)                        // in `receive`, for the application
    | Sending(request: Request)                                 // in `send`, no buffer taken yet
    | Handing(wire: bool, b: int, x: Buffer, origin: Origin)    // in `NIC::send`, before the quadrant
    | Engaging(wire: bool, b: int, x: Buffer, origin: Origin)   // at the engine's send and the `free` after it

  /** Call c has buffer b. */
  predicate Has(c: Call, b: int)
  {
    match c
    case Handler(_) => false
    case CallingBack => false
    case Awaiting => false
    case Sending(_) => false
    case _ => c.b == b
  }

  datatype Sent = Sent(wire: bool, frame: Frame, origin: Origin)

  datatype Delivery = Delivery(message: Message, n: nat)

  datatype ReadOut = ReadOut(message: Message, capacity: nat, n: nat)

  /** A clock packet handed to the clock protocol. */
  datatype Handed = Handed(frame: Frame, n: nat)

  /** What a queued buffer held when it was queued. */
  datatype Waiting = Waiting(x: Buffer, n: nat)

  /** A buffer passed up to `update` by an interface. */
  datatype Arrival = Arrival(wire: bool, x: Buffer)

  /**
   History: `taken` and `given`; `arrived`, what each queued buffer held when it was queued; `heard`,
   the buffers passed up to `update`; `sent`, the frames handed to an engine; `delivered`, the messages
   handed to observers; `read`, those the application has read; `controlled`, the clock packets handed
   on; `full`, the numbers of the frames that were to be forwarded while the other interface's pool was
   empty; `asked`, the requests made to `send`; `refused`, those too long or made while the pool was empty;
   `stamps`, the quadrants stamped on frames for the wire.
   */
  datatype State = State(
    mem: seq<Buffer>,
    ringFree: seq<int>,
    wireFree: seq<int>,
    lastQuadrant: nat,
    queue: seq<int>,
    threads: seq<seq<Call>>,
    taken: multiset<int>,
    given: multiset<int>,
    arrived: seq<Waiting>,
    heard: seq<Arrival>,
    sent: seq<Sent>,
    delivered: seq<Delivery>,
    read: seq<ReadOut>,
    controlled: seq<Handed>,
    full: set<nat>,
    asked: multiset<Request>,
    refused: multiset<Request>,
    stamps: seq<nat>)
  {
    function Free(wire: bool): seq<int> { if wire then wireFree else ringFree }

    function WithFree(wire: bool, indices: seq<int>): State
    {
      if wire then this.(wireFree := indices) else this.(ringFree := indices)
    }
  }

  const BLANK_BUFFER := Buffer(0, Frame(INTERNAL, INTERNAL, 0, BLANK_PACKET))

  function Load(mem: seq<Buffer>, b: int): Buffer
  {
    if 0 <= b < |mem| then mem[b] else BLANK_BUFFER
  }

  function Store(mem: seq<Buffer>, b: int, x: Buffer): seq<Buffer>
  {
    if 0 <= b < |mem| then mem[b := x] else mem
  }

  /**
   What a step finds outside: the frame come in, the quadrant read, the room the application has for a
   message, a message some callee decides to send.
   */
  datatype Input = Input(frame: Frame, bytes: nat, quadrant: nat, capacity: nat, request: Option<Request>)

  datatype Event =
    | Enter(t: nat, call: Call)
    | Advance(t: nat, input: Input)

  /** The one access to shared state that a call's next step makes. */
  datatype Op = Nothing | Take(wire: bool) | Give(wire: bool, index: int) | Put(b: int, n: nat) | Get

  /** `free_buffer`: the owner's `free`, which computes an index from the address; no owner, no free. */
  function FreeBuffer(p: Process, b: int): Op
  {
    if p.Owns(false, b) then Give(false, b - p.Base(false))
    else if p.Owns(true, b) then Give(true, b - p.Base(true))
    else Nothing
  }

  function AllocOp(size: nat, wire: bool): Op
  {
    if size > MTU then Nothing else Take(wire)
  }

  predicate ByWire(p: Process, r: Request)
  {
    p.gateway && r.dst != INTERNAL
  }

  function WatchOf(p: Process, x: Buffer): Option<Watch>
  {
    var port := x.frame.packet.dstPort;
    if port in p.watch then Some(p.watch[port]) else None
  }

  function OpOf(p: Process, s: State, c: Call): Op
  {
    match c
    case Handler(wire) => Take(wire)
    case Dropping(wire, b) => Give(wire, b - p.Base(wire))
    case Outward(b, _, _) => AllocOp(Load(s.mem, b).size, true)
    case Inward(b, _, _) => AllocOp(Load(s.mem, b).size, false)
    case Sending(r) => AllocOp(r.size, ByWire(p, r))
    case Notifying(b, _, n) => if WatchOf(p, Load(s.mem, b)) == Some(Queues) then Put(b, n) else Nothing
    case Awaiting => Get
    case Releasing(b, _, _) => FreeBuffer(p, b)
    case Unmarshalling(b, _, _) => FreeBuffer(p, b)
    case Reading(b, _, _) => FreeBuffer(p, b)
    case Engaging(wire, b, _, _) => Give(wire, b - p.Base(wire))
    case _ => Nothing
  }

  /** The address of the buffer that a taking gets, if the pool has one. */
  function Got(p: Process, s: State, op: Op): Option<int>
  {
    if op.Take? && s.Free(op.wire) != []
    then Some(p.Base(op.wire) + s.Free(op.wire)[|s.Free(op.wire)| - 1])
    else None
  }

  /** After a step: the call it made, if any, and where the call itself then stands, unless it has returned. */
  datatype Outcome = Outcome(callee: Option<Call>, self: Option<Call>)
  {
    function Calls(): seq<Call> { AsSeq(callee) + AsSeq(self) }
  }

  const RETURNS := Outcome(None, None)

  function GoesTo(c: Call): Outcome
  {
    Outcome(None, Some(c))
  }

  function AsSeq(o: Option<Call>): seq<Call>
  {
    if o.Some? then [o.value] else []
  }

  function Requested(i: Input): Option<Call>
  {
    if i.request.Some? then Some(Sending(i.request.value)) else None
  }

  /** The frame a forwarding to the wire composes in the wire's buffer. */
  function Outgoing(p: Process, x: Buffer): Buffer
  {
    Buffer(x.size, Frame(x.frame.dst, p.address, PROTO, x.frame.packet))
  }

  /** The frame `send` composes; the quadrant field keeps what the buffer held. */
  function OwnFrame(p: Process, r: Request, before: Buffer): Buffer
  {
    Buffer(r.size, Frame(r.dst, if ByWire(p, r) then p.address else INTERNAL, PROTO,
                         r.packet.(quadrant := before.frame.packet.quadrant)))
  }

  /** What the interface's stamping of the quadrant makes of a buffer; the ring's interface stamps none. */
  function Quadranted(wire: bool, x: Buffer, quadrant: nat): Buffer
  {
    if wire then x.(frame := Stamped(x.frame, Some(quadrant))) else x
  }

  function NextWaiting(s: State): Waiting
  {
    if s.arrived == [] then Waiting(BLANK_BUFFER, 0) else s.arrived[0]
  }

  /** The next step of call c. */
  function Next(p: Process, s: State, c: Call, i: Input): Outcome
    requires c.Awaiting? ==> s.queue != []
  {
    var got := Got(p, s, OpOf(p, s, c));
    match c
    case Handler(wire) => if got.Some? then GoesTo(Taken(wire, got.value)) else RETURNS
    case Taken(wire, b) =>
      var up := Accepted(wire, i.frame, i.bytes, p.address, i.quadrant);
      GoesTo(if up.None? then Dropping(wire, b) else Updating(b, up.value, |s.heard|))
    case Dropping(_, _) => RETURNS
    case Updating(b, x, n) =>
      GoesTo(if Load(s.mem, b).size < PACKET_HEADER then Releasing(b, x, n)
             else if p.gateway && p.Owns(false, b) && Forwards(Load(s.mem, b).frame) then Outward(b, x, n)
             else Inner(b, x, n))
    case Outward(b, x, n) =>
      Outcome(if got.Some? then Some(Handing(true, got.value, Outgoing(p, x), Forwarded(n))) else None,
              Some(Inner(b, x, n)))
    case Inner(b, x, n) =>
      GoesTo(if !(p.gateway && p.Owns(true, b)) then Notifying(b, x, n)
             else if IsControl(Load(s.mem, b).frame) then Controlled(b, x, n)
             else Inward(b, x, n))
    case Controlled(b, x, n) => Outcome(Requested(i), Some(Releasing(b, x, n)))
    case Inward(b, x, n) =>
      Outcome(if got.Some? then Some(Handing(false, got.value, x, Forwarded(n))) else None, Some(Notifying(b, x, n)))
    case Notifying(b, x, n) =>
      (match WatchOf(p, Load(s.mem, b))
       case None => GoesTo(Releasing(b, x, n))
       case Some(Queues) => RETURNS
       case Some(Unmarshals) => GoesTo(Unmarshalling(b, x, n)))
    case Releasing(_, _, _) => RETURNS
    case Unmarshalling(b, _, _) => if Load(s.mem, b).size > PACKET_HEADER then GoesTo(CallingBack) else RETURNS
    case CallingBack => if i.request.Some? then Outcome(Requested(i), Some(CallingBack)) else RETURNS
    case Awaiting => GoesTo(Reading(s.queue[0], NextWaiting(s).x, NextWaiting(s).n))
    case Reading(_, _, _) => RETURNS
    case Sending(r) =>
      if got.None? then RETURNS
      else GoesTo(Handing(ByWire(p, r), got.value, OwnFrame(p, r, Load(s.mem, got.value)), Ours(r)))
    case Handing(wire, b, x, origin) =>
      Outcome(if wire && QuadrantChanges(s.lastQuadrant, i.quadrant) then Requested(i) else None,
              Some(Engaging(wire, b, Quadranted(wire, x, i.quadrant), origin)))
    case Engaging(_, _, _, _) => RETURNS
  }

  /** The memory after c's next step. */
  function Written(p: Process, s: State, c: Call, i: Input): seq<Buffer>
  {
    var got := Got(p, s, OpOf(p, s, c));
    match c
    case Taken(wire, b) =>
      var up := Accepted(wire, i.frame, i.bytes, p.address, i.quadrant);
      Store(s.mem, b, if up.Some? then up.value else Buffer(Load(s.mem, b).size, i.frame))
    case Outward(b, _, _) => if got.Some? then Store(s.mem, got.value, Outgoing(p, Load(s.mem, b))) else s.mem
    case Inward(b, _, _) => if got.Some? then Store(s.mem, got.value, Load(s.mem, b)) else s.mem
    case Sending(r) =>
      if got.Some? then Store(s.mem, got.value, OwnFrame(p, r, Load(s.mem, got.value))) else s.mem
    case Handing(wire, b, _, _) => Store(s.mem, b, Quadranted(wire, Load(s.mem, b), i.quadrant))
    case _ => s.mem
  }

  /** What c's next step adds to the history. */
  function Heard(p: Process, c: Call, i: Input): seq<Arrival>
  {
    if !c.Taken? then []
    else
      var up := Accepted(c.wire, i.frame, i.bytes, p.address, i.quadrant);
      if up.Some? then [Arrival(c.wire, up.value)] else []
  }

  function ReadBy(s: State, c: Call, i: Input): seq<ReadOut>
  {
    if c.Reading? && Load(s.mem, c.b).size >= PACKET_HEADER
    then [ReadOut(Unmarshalled(Load(s.mem, c.b), i.capacity), i.capacity, c.n)]
    else []
  }

  function ControlledBy(s: State, c: Call): seq<Handed>
  {
    if c.Controlled? then [Handed(Load(s.mem, c.b).frame, c.n)] else []
  }

  /** What the clock protocol, the observers, or a change of quadrant ask to have sent. */
  function AskedBy(s: State, c: Call, i: Input): multiset<Request>
  {
    if i.request.Some?
       && (|| c.Controlled? || c.CallingBack?
           || (c.Handing? && c.wire && i.quadrant != QUADRANT_NONE && s.lastQuadrant != QUADRANT_NONE
               && i.quadrant != s.lastQuadrant))
    then multiset{i.request.value}
    else multiset{}
  }

  function RefusedBy(p: Process, s: State, c: Call): multiset<Request>
  {
    if c.Sending? && (|| c.request.size > MTU
                      || (if p.gateway && c.request.dst != INTERNAL then s.wireFree else s.ringFree) == [])
    then multiset{c.request}
    else multiset{}
  }

  function FullFor(p: Process, s: State, c: Call): set<nat>
  {
    if (c.Outward? && s.wireFree == []) || (c.Inward? && s.ringFree == []) then {c.n} else {}
  }

  function SentBy(s: State, c: Call): seq<Sent>
  {
    if c.Engaging? then [Sent(c.wire, Load(s.mem, c.b).frame, c.origin)] else []
  }

  function DeliveredBy(s: State, c: Call): seq<Delivery>
  {
    if c.Unmarshalling? && Load(s.mem, c.b).size > PACKET_HEADER
    then [Delivery(Unmarshalled(Load(s.mem, c.b), MESSAGE_MAX), c.n)]
    else []
  }

  function Perform(p: Process, s: State, op: Op): State
    requires op.Get? ==> s.queue != []
  {
    match op
    case Nothing => s
    case Take(wire) =>
      var got := Got(p, s, op);
      if got.None? then s
      else s.WithFree(wire, s.Free(wire)[..|s.Free(wire)| - 1]).(taken := s.taken + multiset{got.value})
    case Give(wire, index) =>
      s.WithFree(wire, s.Free(wire) + [index]).(given := s.given + multiset{p.Base(wire) + index})
    case Put(b, n) => s.(queue := s.queue + [b], arrived := s.arrived + [Waiting(Load(s.mem, b), n)])
    case Get => s.(queue := s.queue[1..], arrived := if s.arrived == [] then [] else s.arrived[1..])
  }

  /** A thread outside every call begins one: a handler, a send or a receive of the application. */
  predicate Begins(p: Process, c: Call)
  {
    (c.Handler? && (c.wire ==> p.gateway)) || c.Sending? || c.Awaiting?
  }

  predicate Enabled(p: Process, s: State, e: Event)
  {
    e.t < |s.threads|
    && match e
       case Enter(t, c) => s.threads[t] == [] && Begins(p, c)
       case Advance(t, _) =>
         s.threads[t] != [] && (s.threads[t][0].Awaiting? ==> s.queue != [])
  }

  function Apply(p: Process, s: State, e: Event): State
    requires Enabled(p, s, e)
  {
    match e
    case Enter(t, c) =>
      s.(threads := s.threads[t := [c]],
         asked := s.asked + if c.Sending? then multiset{c.request} else multiset{})
    case Advance(t, i) =>
      var c := s.threads[t][0];
      Perform(p, s, OpOf(p, s, c)).(
        mem := Written(p, s, c, i),
        heard := s.heard + Heard(p, c, i),
        sent := s.sent + SentBy(s, c),
        delivered := s.delivered + DeliveredBy(s, c),
        read := s.read + ReadBy(s, c, i),
        controlled := s.controlled + ControlledBy(s, c),
        full := s.full + FullFor(p, s, c),
        asked := s.asked + AskedBy(s, c, i),
        refused := s.refused + RefusedBy(p, s, c),
        stamps := if c.Handing? && c.wire then s.stamps + [i.quadrant] else s.stamps,
        lastQuadrant := if c.Handing? && c.wire && i.quadrant != QUADRANT_NONE then i.quadrant else s.lastQuadrant,
        threads := s.threads[t := Next(p, s, c, i).Calls() + s.threads[t][1..]])
  }

  function Init(p: Process, threads: nat): State
  {
    State(seq(p.Memory(), _ => BLANK_BUFFER), seq(p.Size(false), i => i), seq(p.Size(true), i => i), QUADRANT_NONE,
          [], seq(threads, _ => []), multiset{}, multiset{}, [], [], [], [], [], [], {}, multiset{}, multiset{}, [])
  }

  ghost function StepOf(p: Process): (State, Event, State) -> bool
  {
    (s, e, s') => Enabled(p, s, e) && s' == Apply(p, s, e)
  }

  ghost predicate Reachable(p: Process, threads: nat, s: State)
  {
    exists es :: Run(StepOf(p), Init(p, threads), es, s)
  }

  // ----- The invariant -----

  function One(yes: bool): nat { if yes then 1 else 0 }

  function HasOne(b: int): Call -> nat
  {
    c => One(Has(c, b))
  }

  /** The sum of f over a stack's calls. */
  function InStack(f: Call -> nat): seq<Call> -> nat
  {
    stack => Total(f, stack)
  }

  /** The sum of f over all calls of the process. */
  function InThreads(f: Call -> nat, threads: seq<seq<Call>>): nat
  {
    Total(InStack(f), threads)
  }

  /** How many calls of the process have b. */
  function Held(s: State, b: int): nat
  {
    InThreads(HasOne(b), s.threads)
  }

  /** How often b is on a pool's free list, how often in the queue. */
  function FreeTimes(p: Process, s: State, wire: bool, b: int): nat
  {
    multiset(s.Free(wire))[b - p.Base(wire)]
  }

  function QueuedTimes(s: State, b: int): nat
  {
    multiset(s.queue)[b]
  }

  /** Buffer b, if there is one, is in one place, and each taking of it has been matched by a return or is out. */
  ghost predicate CountsAgree(p: Process, s: State, b: int)
  {
    && FreeTimes(p, s, false, b) + FreeTimes(p, s, true, b) + QueuedTimes(s, b) + Held(s, b)
       == One(0 <= b < p.Memory())
    && s.taken[b] == s.given[b] + QueuedTimes(s, b) + Held(s, b)
  }

  /** A call of an interface has a buffer of its pool; the others' is of one or the other. */
  predicate Typed(p: Process, c: Call)
  {
    match c
    case Handler(wire) => wire ==> p.gateway
    case CallingBack => true
    case Awaiting => true
    case Sending(_) => true
    case Taken(wire, b) => p.Owns(wire, b)
    case Dropping(wire, b) => p.Owns(wire, b)
    case Handing(wire, b, _, _) => p.Owns(wire, b)
    case Engaging(wire, b, _, _) => p.Owns(wire, b)
    case _ => 0 <= c.b < p.Memory()
  }

  ghost predicate InRange(indices: seq<int>, size: nat)
  {
    forall k :: k in indices ==> 0 <= k < size
  }

  ghost predicate StackTyped(p: Process, stack: seq<Call>)
  {
    forall c :: c in stack ==> Typed(p, c)
  }

  ghost predicate SharedTyped(p: Process, s: State)
  {
    && InRange(s.ringFree, p.Size(false)) && InRange(s.wireFree, p.Size(true)) && InRange(s.queue, p.Memory())
    && |s.mem| == p.Memory()
  }

  ghost predicate AllTyped(p: Process, s: State)
  {
    SharedTyped(p, s) && forall t :: 0 <= t < |s.threads| ==> StackTyped(p, s.threads[t])
  }

  ghost predicate QueueIntact(s: State)
  {
    |s.arrived| == |s.queue| && forall k :: 0 <= k < |s.queue| ==> Load(s.mem, s.queue[k]) == s.arrived[k].x
  }

  ghost predicate Inv(p: Process, s: State)
  {
    AllTyped(p, s) && QueueIntact(s) && forall b :: CountsAgree(p, s, b)
  }

  // ----- What one step does to the buffers -----

  function InOption(f: Call -> nat, o: Option<Call>): nat
  {
    if o.Some? then f(o.value) else 0
  }

  /** The sum of f over what stands in the place of a call after a step. */
  function InOutcome(f: Call -> nat, out: Outcome): nat
  {
    InOption(f, out.callee) + InOption(f, out.self)
  }

  function HasIn(o: Option<Call>, b: int): nat
  {
    One(o.Some? && Has(o.value, b))
  }

  /** What leaves the hands of c goes to a pool or the queue, and what comes into them was there. */
  ghost predicate Moves(p: Process, s: State, op: Op, c: Call, out: Outcome, b: int)
    requires op.Get? ==> s.queue != []
  {
    HasIn(out.callee, b) + HasIn(out.self, b)
    + One(op.Give? && b == p.Base(op.wire) + op.index) + One(op.Put? && b == op.b)
    == One(Has(c, b)) + One(op.Take? && Got(p, s, op) == Some(b)) + One(op.Get? && b == s.queue[0])
  }

  /** The calls up to the first decisions about a frame, and those that forward one or send. */
  predicate Arriving(c: Call)
  {
    c.Handler? || c.Taken? || c.Dropping? || c.Updating? || c.Inner?
  }

  predicate Relaying(c: Call)
  {
    c.Outward? || c.Inward? || c.Sending? || c.Handing? || c.Engaging?
  }

  lemma ArrivingMoves(p: Process, s: State, c: Call, i: Input, b: int)
    requires Typed(p, c) && Arriving(c)
    ensures Moves(p, s, OpOf(p, s, c), c, Next(p, s, c, i), b)
  {
  }

  lemma RelayingMoves(p: Process, s: State, c: Call, i: Input, b: int)
    requires Typed(p, c) && Relaying(c)
    ensures Moves(p, s, OpOf(p, s, c), c, Next(p, s, c, i), b)
  {
  }

  lemma EndingMoves(p: Process, s: State, c: Call, i: Input, b: int)
    requires Typed(p, c) && !Arriving(c) && !Relaying(c) && (c.Awaiting? ==> s.queue != [])
    ensures Moves(p, s, OpOf(p, s, c), c, Next(p, s, c, i), b)
  {
  }

  lemma InNewStack(f: Call -> nat, out: Outcome, rest: seq<Call>)
    ensures Total(f, out.Calls() + rest) == InOutcome(f, out) + Total(f, rest)
  {
    if out.callee.Some? {
      TotalOne(f, out.callee.value);
    }
    if out.self.Some? {
      TotalOne(f, out.self.value);
    }
    TotalConcat(f, AsSeq(out.callee), AsSeq(out.self));
    TotalConcat(f, out.Calls(), rest);
  }

  /** A sum over all calls changes by what the step makes of the one that it moves. */
  lemma SumChanges(f: Call -> nat, p: Process, s: State, t: nat, i: Input)
    requires Enabled(p, s, Advance(t, i))
    ensures
      var c := s.threads[t][0];
      InThreads(f, Apply(p, s, Advance(t, i)).threads)
      == InThreads(f, s.threads) - f(c) + InOutcome(f, Next(p, s, c, i))
  {
    var c, rest := s.threads[t][0], s.threads[t][1..];
    var out := Next(p, s, c, i);
    TotalUpdate(InStack(f), s.threads, t, out.Calls() + rest);
    InNewStack(f, out, rest);
  }

  lemma PopTimes(s: seq<int>, x: int)
    requires s != []
    ensures multiset(s)[x] == multiset(s[..|s| - 1])[x] + One(x == s[|s| - 1])
    ensures multiset(s)[x] == multiset(s[1..])[x] + One(x == s[0])
  {
    assert s == s[..|s| - 1] + [s[|s| - 1]] && s == [s[0]] + s[1..];
  }

  lemma TakeLeaves(p: Process, s: State, wire: bool)
    requires s.Free(wire) != []
    ensures
      var s' := Perform(p, s, Take(wire));
      s'.Free(wire) == s.Free(wire)[..|s.Free(wire)| - 1] && s'.Free(!wire) == s.Free(!wire)
  {
  }

  lemma TakeGets(p: Process, s: State, wire: bool, b: int)
    requires s.Free(wire) != []
    ensures Got(p, s, Take(wire)) == Some(b) <==> b - p.Base(wire) == s.Free(wire)[|s.Free(wire)| - 1]
  {
  }

  lemma TakeMoves(p: Process, s: State, wire: bool, b: int)
    requires s.Free(wire) != []
    ensures
      var s', took := Perform(p, s, Take(wire)), One(Got(p, s, Take(wire)) == Some(b));
      FreeTimes(p, s', wire, b) + took == FreeTimes(p, s, wire, b) && s'.Free(!wire) == s.Free(!wire)
  {
    TakeLeaves(p, s, wire);
    TakeGets(p, s, wire, b);
    PopTimes(s.Free(wire), b - p.Base(wire));
  }

  lemma TakeIsCounted(p: Process, s: State, wire: bool, b: int)
    requires s.Free(wire) != []
    ensures
      var s', took := Perform(p, s, Take(wire)), One(Got(p, s, Take(wire)) == Some(b));
      s'.taken[b] == s.taken[b] + took && s'.given == s.given
  {
  }

  lemma FreeAfter(s: State, wire: bool, indices: seq<int>)
    ensures s.WithFree(wire, indices).Free(wire) == indices
    ensures s.WithFree(wire, indices).Free(!wire) == s.Free(!wire)
  {
  }

  lemma GiveMoves(p: Process, s: State, wire: bool, index: int, b: int)
    ensures
      var s', gave := Perform(p, s, Give(wire, index)), One(b == p.Base(wire) + index);
      && FreeTimes(p, s', wire, b) == FreeTimes(p, s, wire, b) + gave && s'.Free(!wire) == s.Free(!wire)
      && s'.taken == s.taken && s'.given[b] == s.given[b] + gave
  {
    FreeAfter(s, wire, s.Free(wire) + [index]);
  }

  /** The pools lose or gain b exactly as the operation says. */
  lemma PerformMovesFree(p: Process, s: State, op: Op, b: int)
    requires op.Get? ==> s.queue != []
    ensures
      var s' := Perform(p, s, op);
      var took, gave := One(op.Take? && Got(p, s, op) == Some(b)), One(op.Give? && b == p.Base(op.wire) + op.index);
      && FreeTimes(p, s', false, b) + FreeTimes(p, s', true, b) + took
         == FreeTimes(p, s, false, b) + FreeTimes(p, s, true, b) + gave
      && s'.taken[b] == s.taken[b] + took && s'.given[b] == s.given[b] + gave
  {
    if op.Take? && s.Free(op.wire) != [] {
      TakeMoves(p, s, op.wire, b);
      TakeIsCounted(p, s, op.wire, b);
    } else if op.Give? {
      GiveMoves(p, s, op.wire, op.index, b);
    }
  }

  /** So does the queue. */
  lemma PerformMovesQueue(p: Process, s: State, op: Op, b: int)
    requires op.Get? ==> s.queue != []
    ensures
      QueuedTimes(Perform(p, s, op), b) + One(op.Get? && b == s.queue[0])
      == QueuedTimes(s, b) + One(op.Put? && b == op.b)
  {
    if op.Get? {
      PopTimes(s.queue, b);
    }
  }

  lemma SumAfterEnter(f: Call -> nat, s: State, t: nat, c: Call)
    requires t < |s.threads| && s.threads[t] == [] && f(c) == 0
    ensures InThreads(f, s.threads[t := [c]]) == InThreads(f, s.threads)
  {
    TotalUpdate(InStack(f), s.threads, t, [c]);
    TotalOne(f, c);
  }

  ghost predicate SameShared(s: State, v: State)
  {
    && s.ringFree == v.ringFree && s.wireFree == v.wireFree && s.queue == v.queue
    && s.taken == v.taken && s.given == v.given
  }

  lemma SameCounts(p: Process, s: State, s': State, b: int)
    requires SameShared(s, s') && Held(s, b) == Held(s', b) && CountsAgree(p, s, b)
    ensures CountsAgree(p, s', b)
  {
  }

  lemma EnterKeepsCounts(p: Process, s: State, t: nat, c: Call, b: int)
    requires Enabled(p, s, Enter(t, c)) && CountsAgree(p, s, b)
    ensures CountsAgree(p, Apply(p, s, Enter(t, c)), b)
  {
    SumAfterEnter(HasOne(b), s, t, c);
    SameCounts(p, s, Apply(p, s, Enter(t, c)), b);
  }

  lemma AdvancePerforms(p: Process, s: State, t: nat, i: Input)
    requires Enabled(p, s, Advance(t, i))
    ensures SameShared(Apply(p, s, Advance(t, i)), Perform(p, s, OpOf(p, s, s.threads[t][0])))
  {
  }

  /** The calls of s' are those of s, but for out in the place of c. */
  ghost predicate HeldMoves(s: State, s': State, c: Call, out: Outcome, b: int)
  {
    Held(s', b) == Held(s, b) - One(Has(c, b)) + HasIn(out.callee, b) + HasIn(out.self, b)
  }

  lemma AdvanceMovesHeld(p: Process, s: State, t: nat, i: Input, b: int)
    requires Enabled(p, s, Advance(t, i))
    ensures HeldMoves(s, Apply(p, s, Advance(t, i)), s.threads[t][0], Next(p, s, s.threads[t][0], i), b)
  {
    SumChanges(HasOne(b), p, s, t, i);
  }

  /** What a call moves to a pool or the queue it no longer has; what it takes it has. */
  lemma Balance(p: Process, s: State, s': State, op: Op, c: Call, out: Outcome, b: int)
    requires op.Get? ==> s.queue != []
    requires SameShared(s', Perform(p, s, op)) && HeldMoves(s, s', c, out, b) && Moves(p, s, op, c, out, b)
    requires CountsAgree(p, s, b)
    ensures CountsAgree(p, s', b)
  {
    PerformMovesFree(p, s, op, b);
    PerformMovesQueue(p, s, op, b);
  }

  lemma StepMoves(p: Process, s: State, c: Call, i: Input, b: int)
    requires Typed(p, c) && (c.Awaiting? ==> s.queue != [])
    ensures Moves(p, s, OpOf(p, s, c), c, Next(p, s, c, i), b)
  {
    if Arriving(c) {
      ArrivingMoves(p, s, c, i, b);
    } else if Relaying(c) {
      RelayingMoves(p, s, c, i, b);
    } else {
      EndingMoves(p, s, c, i, b);
    }
  }

  lemma AdvanceKeepsCounts(p: Process, s: State, t: nat, i: Input, b: int)
    requires AllTyped(p, s) && Enabled(p, s, Advance(t, i)) && CountsAgree(p, s, b)
    ensures CountsAgree(p, Apply(p, s, Advance(t, i)), b)
  {
    var c := s.threads[t][0];
    assert StackTyped(p, s.threads[t]) && c in s.threads[t];
    AdvancePerforms(p, s, t, i);
    AdvanceMovesHeld(p, s, t, i, b);
    StepMoves(p, s, c, i, b);
    Balance(p, s, Apply(p, s, Advance(t, i)), OpOf(p, s, c), c, Next(p, s, c, i), b);
  }

  // ----- Types, and the queue's contents -----

  /** What an operation puts somewhere is fit to be there. */
  predicate OpTyped(p: Process, op: Op)
  {
    match op
    case Give(wire, index) => 0 <= index < p.Size(wire)
    case Put(b, _) => 0 <= b < p.Memory()
    case _ => true
  }

  lemma CallOpTyped(p: Process, s: State, c: Call)
    requires Typed(p, c)
    ensures OpTyped(p, OpOf(p, s, c))
  {
  }

  lemma PerformTyped(p: Process, s: State, op: Op)
    requires SharedTyped(p, s) && OpTyped(p, op) && (op.Get? ==> s.queue != [])
    ensures SharedTyped(p, Perform(p, s, op))
  {
    match op
    case Take(wire) =>
      if s.Free(wire) != [] {
        PoolInRange(p, s, wire);
        PartInRange(s.Free(wire), 0, |s.Free(wire)| - 1, p.Size(wire));
      }
    case Give(wire, index) =>
      PoolInRange(p, s, wire);
      assert InRange(s.Free(wire) + [index], p.Size(wire));
    case Get =>
      PartInRange(s.queue, 1, |s.queue|, p.Memory());
      assert s.queue[1..|s.queue|] == s.queue[1..];
    case _ =>
  }

  lemma PartInRange(indices: seq<int>, lo: nat, hi: nat, size: nat)
    requires lo <= hi <= |indices| && InRange(indices, size)
    ensures InRange(indices[lo..hi], size)
  {
    forall k | k in indices[lo..hi]
      ensures 0 <= k < size
    {
      var n :| 0 <= n < hi - lo && indices[lo..hi][n] == k;
      assert indices[lo + n] in indices;
    }
  }

  lemma PoolInRange(p: Process, s: State, wire: bool)
    requires SharedTyped(p, s)
    ensures InRange(s.Free(wire), p.Size(wire))
  {
  }

  lemma GotTyped(p: Process, s: State, op: Op)
    requires SharedTyped(p, s) && Got(p, s, op).Some?
    ensures p.Owns(op.wire, Got(p, s, op).value)
  {
    PoolInRange(p, s, op.wire);
    assert s.Free(op.wire)[|s.Free(op.wire)| - 1] in s.Free(op.wire);
  }

  lemma NextTyped(p: Process, s: State, c: Call, i: Input, d: Call)
    requires SharedTyped(p, s) && Typed(p, c) && (c.Awaiting? ==> s.queue != [])
    requires d in Next(p, s, c, i).Calls()
    ensures Typed(p, d)
  {
    var op, out := OpOf(p, s, c), Next(p, s, c, i);
    if Got(p, s, op).Some? {
      GotTyped(p, s, op);
    }
    assert out.callee == Some(d) || out.self == Some(d);
    assert c.Awaiting? ==> s.queue[0] in s.queue;
  }

  lemma AdvanceKeepsTypes(p: Process, s: State, t: nat, i: Input)
    requires AllTyped(p, s) && Enabled(p, s, Advance(t, i))
    ensures AllTyped(p, Apply(p, s, Advance(t, i)))
  {
    var c, rest := s.threads[t][0], s.threads[t][1..];
    assert StackTyped(p, s.threads[t]) && c in s.threads[t];
    var s', calls := Apply(p, s, Advance(t, i)), Next(p, s, c, i).Calls();
    CallOpTyped(p, s, c);
    PerformTyped(p, s, OpOf(p, s, c));
    forall d | d in s'.threads[t]
      ensures Typed(p, d)
    {
      if d in calls {
        NextTyped(p, s, c, i, d);
      } else {
        assert d in rest;
      }
    }
  }

  lemma EnterKeepsTypes(p: Process, s: State, t: nat, c: Call)
    requires AllTyped(p, s) && Enabled(p, s, Enter(t, c))
    ensures AllTyped(p, Apply(p, s, Enter(t, c)))
  {
  }

  // ----- Who writes a buffer -----

  lemma WritesOwn(p: Process, s: State, c: Call, i: Input, b: int)
    requires c.Awaiting? ==> s.queue != []
    requires Load(Written(p, s, c, i), b) != Load(s.mem, b)
    ensures Has(c, b) || Got(p, s, OpOf(p, s, c)) == Some(b)
    ensures !OpOf(p, s, c).Put?
  {
  }

  lemma HolderIsCounted(s: State, t: nat, k: nat, b: int)
    requires t < |s.threads| && k < |s.threads[t]| && Has(s.threads[t][k], b)
    ensures Held(s, b) >= 1
  {
    TotalAtLeast(HasOne(b), s.threads[t], k);
    TotalAtLeast(InStack(HasOne(b)), s.threads, t);
  }

  lemma TwoHoldersAreCounted(s: State, t: nat, j: nat, u: nat, k: nat, b: int)
    requires t < |s.threads| && j < |s.threads[t]| && Has(s.threads[t][j], b)
    requires u < |s.threads| && k < |s.threads[u]| && Has(s.threads[u][k], b)
    requires t != u || j != k
    ensures Held(s, b) >= 2
  {
    TotalAtLeast(HasOne(b), s.threads[t], j);
    TotalAtLeast(HasOne(b), s.threads[u], k);
    if t == u {
      TotalAtLeastTwo(HasOne(b), s.threads[t], if j < k then j else k, if j < k then k else j);
      TotalAtLeast(InStack(HasOne(b)), s.threads, t);
    } else {
      TotalAtLeastTwo(InStack(HasOne(b)), s.threads, if t < u then t else u, if t < u then u else t);
    }
  }

  lemma GotIsFree(p: Process, s: State, op: Op)
    requires Got(p, s, op).Some?
    ensures FreeTimes(p, s, op.wire, Got(p, s, op).value) >= 1
  {
    assert s.Free(op.wire)[|s.Free(op.wire)| - 1] in s.Free(op.wire);
  }

  /** A step leaves what other calls have as it is. */
  lemma StepSparesOthers(p: Process, s: State, t: nat, i: Input, u: nat, k: nat, b: int)
    requires Inv(p, s) && Enabled(p, s, Advance(t, i))
    requires u < |s.threads| && k < |s.threads[u]| && Has(s.threads[u][k], b) && (u != t || k != 0)
    ensures Load(Apply(p, s, Advance(t, i)).mem, b) == Load(s.mem, b)
  {
    var c := s.threads[t][0];
    if Load(Written(p, s, c, i), b) != Load(s.mem, b) {
      assert CountsAgree(p, s, b);
      WritesOwn(p, s, c, i, b);
      HolderIsCounted(s, u, k, b);
      if Has(c, b) {
        TwoHoldersAreCounted(s, t, 0, u, k, b);
      } else {
        GotIsFree(p, s, OpOf(p, s, c));
      }
    }
  }

  /** A step leaves what is queued as it is. */
  lemma StepSparesQueue(p: Process, s: State, t: nat, i: Input, b: int)
    requires Inv(p, s) && Enabled(p, s, Advance(t, i)) && b in s.queue
    ensures Load(Apply(p, s, Advance(t, i)).mem, b) == Load(s.mem, b)
  {
    var c := s.threads[t][0];
    if Load(Written(p, s, c, i), b) != Load(s.mem, b) {
      assert CountsAgree(p, s, b);
      WritesOwn(p, s, c, i, b);
      if Has(c, b) {
        HolderIsCounted(s, t, 0, b);
      } else {
        GotIsFree(p, s, OpOf(p, s, c));
      }
    }
  }

  lemma PerformKeepsQueue(p: Process, s: State, op: Op)
    requires QueueIntact(s) && (op.Get? ==> s.queue != [])
    ensures QueueIntact(Perform(p, s, op))
    ensures !op.Put? ==> forall b :: b in Perform(p, s, op).queue ==> b in s.queue
    ensures Perform(p, s, op).mem == s.mem
  {
  }

  lemma AdvanceQueues(p: Process, s: State, t: nat, i: Input)
    requires Enabled(p, s, Advance(t, i))
    ensures
      var s', c := Apply(p, s, Advance(t, i)), s.threads[t][0];
      var v := Perform(p, s, OpOf(p, s, c));
      s'.queue == v.queue && s'.arrived == v.arrived && s'.mem == Written(p, s, c, i)
  {
  }

  lemma PutWritesNothing(p: Process, s: State, c: Call, i: Input)
    ensures OpOf(p, s, c).Put? ==> Written(p, s, c, i) == s.mem
  {
  }

  lemma SameContents(s: State, v: State, s': State)
    requires QueueIntact(v) && v.mem == s.mem && s'.queue == v.queue && s'.arrived == v.arrived
    requires forall b :: b in v.queue ==> Load(s'.mem, b) == Load(s.mem, b)
    ensures QueueIntact(s')
  {
  }

  lemma AdvanceKeepsQueue(p: Process, s: State, t: nat, i: Input)
    requires Inv(p, s) && Enabled(p, s, Advance(t, i))
    ensures QueueIntact(Apply(p, s, Advance(t, i)))
  {
    var c := s.threads[t][0];
    var s', v := Apply(p, s, Advance(t, i)), Perform(p, s, OpOf(p, s, c));
    AdvanceQueues(p, s, t, i);
    PerformKeepsQueue(p, s, OpOf(p, s, c));
    forall b | b in v.queue
      ensures Load(s'.mem, b) == Load(s.mem, b)
    {
      if OpOf(p, s, c).Put? {
        PutWritesNothing(p, s, c, i);
      } else {
        StepSparesQueue(p, s, t, i, b);
      }
    }
    SameContents(s, v, s');
  }

  lemma EnterKeepsInv(p: Process, s: State, t: nat, c: Call)
    requires Inv(p, s) && Enabled(p, s, Enter(t, c))
    ensures Inv(p, Apply(p, s, Enter(t, c)))
  {
    EnterKeepsTypes(p, s, t, c);
    forall b
      ensures CountsAgree(p, Apply(p, s, Enter(t, c)), b)
    {
      assert CountsAgree(p, s, b);
      EnterKeepsCounts(p, s, t, c, b);
    }
  }

  lemma AdvanceKeepsInv(p: Process, s: State, t: nat, i: Input)
    requires Inv(p, s) && Enabled(p, s, Advance(t, i))
    ensures Inv(p, Apply(p, s, Advance(t, i)))
  {
    AdvanceKeepsTypes(p, s, t, i);
    AdvanceKeepsQueue(p, s, t, i);
    forall b
      ensures CountsAgree(p, Apply(p, s, Advance(t, i)), b)
    {
      assert CountsAgree(p, s, b);
      AdvanceKeepsCounts(p, s, t, i, b);
    }
  }

  lemma StepKeepsInv(p: Process, s: State, e: Event)
    requires Inv(p, s) && Enabled(p, s, e)
    ensures Inv(p, Apply(p, s, e))
  {
    match e
    case Enter(t, c) => EnterKeepsInv(p, s, t, c);
    case Advance(t, i) => AdvanceKeepsInv(p, s, t, i);
  }

  lemma {:induction false} FullPool(size: nat, x: int)
    ensures multiset(seq(size, i => i))[x] == One(0 <= x < size)
  {
    if size > 0 {
      assert seq(size, i => i) == seq(size - 1, i => i) + [size - 1];
      FullPool(size - 1, x);
    }
  }

  lemma NothingHeld(s: State, b: int)
    requires forall t :: 0 <= t < |s.threads| ==> s.threads[t] == []
    ensures Held(s, b) == 0
  {
    TotalZero(InStack(HasOne(b)), s.threads);
  }

  lemma InitFree(p: Process, threads: nat, wire: bool, b: int)
    ensures FreeTimes(p, Init(p, threads), wire, b) == One(p.Owns(wire, b))
  {
    assert Init(p, threads).Free(wire) == seq(p.Size(wire), i => i);
    FullPool(p.Size(wire), b - p.Base(wire));
  }

  lemma InitCounts(p: Process, threads: nat, b: int)
    ensures CountsAgree(p, Init(p, threads), b)
  {
    InitFree(p, threads, false, b);
    InitFree(p, threads, true, b);
    NothingHeld(Init(p, threads), b);
  }

  lemma InitInv(p: Process, threads: nat)
    ensures Inv(p, Init(p, threads))
  {
    forall b
      ensures CountsAgree(p, Init(p, threads), b)
    {
      InitCounts(p, threads, b);
    }
  }

  lemma ReachableInv(p: Process, threads: nat, s: State)
    requires Reachable(p, threads, s)
    ensures Inv(p, s)
  {
    var es :| Run(StepOf(p), Init(p, threads), es, s);
    InitInv(p, threads);
    var inv := v => Inv(p, v);
    forall v, e, v' | inv(v) && StepOf(p)(v, e, v')
      ensures inv(v')
    {
      StepKeepsInv(p, v, e);
    }
    Keeps(StepOf(p), inv, Init(p, threads), es, s);
  }

  // ----- Main results -----

  /** Each buffer of the two pools is in exactly one place: on its free list, in the queue, or one call has it. */
  lemma EachBufferIsInOnePlace(p: Process, threads: nat, s: State, b: int)
    requires Reachable(p, threads, s)
    ensures FreeTimes(p, s, false, b) + FreeTimes(p, s, true, b) + QueuedTimes(s, b) + Held(s, b)
            == if 0 <= b < p.Memory() then 1 else 0
  {
    ReachableInv(p, threads, s);
    assert CountsAgree(p, s, b);
  }

  /** Each taking of a buffer is matched by one giving back, but for the last while the buffer is still out. */
  lemma EachTakingIsReturnedOnce(p: Process, threads: nat, s: State, b: int)
    requires Reachable(p, threads, s)
    ensures s.taken[b] == s.given[b] + QueuedTimes(s, b) + Held(s, b)
    ensures s.given[b] <= s.taken[b] <= s.given[b] + 1
  {
    ReachableInv(p, threads, s);
    assert CountsAgree(p, s, b);
  }

  predicate Frees(c: Call)
  {
    c.Releasing? || c.Unmarshalling? || c.Reading? || c.Dropping? || c.Engaging?
  }

  /** A buffer that a call has is neither free nor queued, and no other call of any thread has it. */
  lemma EachBufferHasOneHolder(p: Process, threads: nat, s: State, t: nat, j: nat, u: nat, k: nat, b: int)
    requires Reachable(p, threads, s)
    requires t < |s.threads| && j < |s.threads[t]| && Has(s.threads[t][j], b)
    ensures FreeTimes(p, s, false, b) == FreeTimes(p, s, true, b) == QueuedTimes(s, b) == 0
    ensures u < |s.threads| && k < |s.threads[u]| && Has(s.threads[u][k], b) ==> t == u && j == k
  {
    ReachableInv(p, threads, s);
    assert CountsAgree(p, s, b);
    HolderIsCounted(s, t, j, b);
    if u < |s.threads| && k < |s.threads[u]| && Has(s.threads[u][k], b) && (t != u || j != k) {
      TwoHoldersAreCounted(s, t, j, u, k, b);
    }
  }

  /** Where a path frees its buffer, it pushes an index, to a pool that has such a buffer. */
  lemma FreeReachesPool(p: Process, s: State, c: Call)
    requires Typed(p, c) && Frees(c)
    ensures
      var op := OpOf(p, s, c);
      op.Give? && 0 <= op.index < p.Size(op.wire) && c.b == p.Base(op.wire) + op.index
  {
  }

  /**
   Wherever any path frees a buffer, the index it pushes is one of that pool, is not on the free
   list, and its buffer is not queued: there is no leak and no double free.
   */
  lemma FreesAreSound(p: Process, threads: nat, s: State, t: nat)
    requires Reachable(p, threads, s)
    requires t < |s.threads| && s.threads[t] != [] && Frees(s.threads[t][0])
    ensures
      var op := OpOf(p, s, s.threads[t][0]);
      && op.Give? && 0 <= op.index < p.Size(op.wire)
      && op.index !in s.Free(op.wire) && p.Base(op.wire) + op.index !in s.queue
      && s.threads[t][0].b == p.Base(op.wire) + op.index
  {
    var c := s.threads[t][0];
    TopIsTyped(p, threads, s, t);
    FreeReachesPool(p, s, c);
    EachBufferHasOneHolder(p, threads, s, t, 0, t, 0, c.b);
    NowhereElse(p, s, OpOf(p, s, c), c.b);
  }

  lemma TopIsTyped(p: Process, threads: nat, s: State, t: nat)
    requires Reachable(p, threads, s) && t < |s.threads| && s.threads[t] != []
    ensures Typed(p, s.threads[t][0])
  {
    ReachableInv(p, threads, s);
    assert StackTyped(p, s.threads[t]) && s.threads[t][0] in s.threads[t];
  }

  lemma NowhereElse(p: Process, s: State, op: Op, b: int)
    requires op.Give? && b == p.Base(op.wire) + op.index
    requires FreeTimes(p, s, false, b) == FreeTimes(p, s, true, b) == QueuedTimes(s, b) == 0
    ensures op.index !in s.Free(op.wire) && b !in s.queue
  {
  }

  lemma AtRestIsFree(p: Process, s: State, wire: bool, x: nat)
    requires Inv(p, s) && x < p.Size(wire)
    requires s.queue == [] && forall t :: 0 <= t < |s.threads| ==> s.threads[t] == []
    ensures multiset(s.Free(wire))[x] == 1
  {
    var b := p.Base(wire) + x;
    NothingHeld(s, b);
    assert CountsAgree(p, s, b);
    PoolInRange(p, s, !wire);
    assert b - p.Base(!wire) !in s.Free(!wire);
  }

  /** With no call under way and nothing queued, each free list is its whole pool. */
  lemma AtRestThePoolsAreFull(p: Process, threads: nat, s: State, wire: bool)
    requires Reachable(p, threads, s)
    requires s.queue == [] && forall t :: 0 <= t < |s.threads| ==> s.threads[t] == []
    ensures multiset(s.Free(wire)) == multiset(seq(p.Size(wire), i => i))
  {
    ReachableInv(p, threads, s);
    forall x: int
      ensures multiset(s.Free(wire))[x] == multiset(seq(p.Size(wire), i => i))[x]
    {
      FullPool(p.Size(wire), x);
      if 0 <= x < p.Size(wire) {
        AtRestIsFree(p, s, wire, x);
      } else {
        PoolInRange(p, s, wire);
        assert x !in s.Free(wire);
      }
    }
  }

  /** While a call has a buffer, no step of any other call, in its own thread or another, changes what is in it. */
  lemma OnlyTheHolderWrites(p: Process, threads: nat, s: State, t: nat, i: Input, u: nat, k: nat, b: int)
    requires Reachable(p, threads, s) && Enabled(p, s, Advance(t, i))
    requires u < |s.threads| && k < |s.threads[u]| && Has(s.threads[u][k], b) && (u != t || k != 0)
    ensures Load(Apply(p, s, Advance(t, i)).mem, b) == Load(s.mem, b)
  {
    ReachableInv(p, threads, s);
    StepSparesOthers(p, s, t, i, u, k, b);
  }

  /** A queued buffer still holds what it held when it was queued, however long it waits. */
  lemma QueueKeepsFrames(p: Process, threads: nat, s: State, k: nat)
    requires Reachable(p, threads, s) && k < |s.queue|
    ensures |s.arrived| == |s.queue| && 0 <= s.queue[k] < |s.mem| && s.mem[s.queue[k]] == s.arrived[k].x
  {
    ReachableInv(p, threads, s);
    assert s.queue[k] in s.queue;
  }
}
