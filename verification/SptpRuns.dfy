/**
 One master, one slave and a network that may lose, delay, reorder and duplicate. The master's
 clock reads the true time `now`; the slave's reads `now + theta`, where theta jumps when the slave
 sets its clock and drifts as time passes, by at most rho parts in a thousand million. Sending a
 request and receiving a packet are each one step.
 */
module SptpRuns {
  import opened Common
  import opened Runs
  import opened Sptp

  /** The true time a request was sent, theta then, and the number of clock jumps before it. */
  datatype Request = Request(sentAt: int, theta: int, epoch: nat, onWire: bool)

  /** A SYNC on the network: the request it answers, the master's two time stamps. */
  datatype Reply = Reply(seqId: nat, t2Prime: int, t1: int)

  /** The times of a measured exchange, and theta at either end of it on the slave. */
  datatype Trip = Trip(sentAt: int, gotAt: int, repliedAt: int, receivedAt: int, sentTheta: int, theta: int)
  {
    function Request(): int { gotAt - sentAt }
    function Reply(): int { receivedAt - repliedAt }
  }

  /**
   An accepted exchange: its four true times, both epochs, what was measured, theta when the request
   was sent, and theta when the reply came, before and after the correction.
   */
  datatype Exchange = Exchange(
    seqId: nat, latest: nat,
    sentAt: int, gotAt: int, repliedAt: int, receivedAt: int,
    sendEpoch: nat, receiveEpoch: nat,
    rawOffset: int, sentTheta: int, before: int, after: int, steady: int)
  {
    function Asymmetry(): nat { Abs((receivedAt - repliedAt) - (gotAt - sentAt)) }
    function RoundTrip(): int { receivedAt - sentAt }
  }

  /**
   `requests` and `replies` are the network's content, which it may deliver late, often or never; request
   number k is requests[k - 1]. `epoch`, `measured`, `exchanges`, `samples`, `trips` and the fields of a
   request other than `onWire` are history; `measured` lists the numbers of the requests whose reply was
   evaluated, outlier or not, `samples` the delays that entered the filter and `trips` where each is from.
   */
  datatype World = World(
    now: nat,
    theta: int,
    slave: Slave,
    replies: set<Reply>,
    epoch: nat,
    requests: seq<Request>,
    measured: seq<nat>,
    exchanges: seq<Exchange>,
    samples: seq<int>,
    trips: seq<Trip>)

  datatype Event =
    | Wait(dt: nat, slip: int)                          // slip: what theta drifts meanwhile
    | SendRequest(gap: nat, slip: int, sent: bool)      // gap: from the early reading to the one at the NIC
    | MasterGets(seqId: nat, gap: nat, slip: int)       // gap: from the arrival to the reply's departure
    | SlaveGets(reply: Reply, steady: int)

  ghost predicate Init(w: World)
  {
    w.slave == FRESH && w.replies == {} && w.requests == [] && w.measured == [] && w.exchanges == [] && w.samples == []
    && w.trips == []
    && w.epoch == 0
  }

  predicate Enabled(rho: nat, w: World, e: Event)
  {
    match e
    case Wait(dt, slip) => WithinDrift(rho, dt, slip)
    case SendRequest(gap, slip, _) => w.now + w.theta > 0 && WithinDrift(rho, gap, slip)
    case MasterGets(seqId, gap, slip) =>
      1 <= seqId <= |w.requests| && w.requests[seqId - 1].onWire && WithinDrift(rho, gap, slip)
    case SlaveGets(reply, _) => reply in w.replies
  }

  function Pass(w: World, dt: nat, slip: int): World
  {
    w.(now := w.now + dt, theta := w.theta + slip)
  }

  function Ask(w: World, gap: nat, slip: int, sent: bool): World
  {
    var early := w.now + w.theta;
    var v := Pass(w, gap, slip);
    v.(slave := AfterRequest(w.slave, early, if sent then v.now + v.theta else 0),
       requests := w.requests + [Request(v.now, v.theta, w.epoch, sent)])
  }

  function Answer(w: World, seqId: nat, gap: nat, slip: int): World
  {
    var p := MasterReply(SptpRequestSync, Payload(REQUEST_PAYLOAD_SIZE, seqId, 0), w.now);
    if p.None? then w
    else
      var v := Pass(w, gap, slip);
      v.(replies := w.replies + {Reply(p.value.seqId, p.value.t2Prime, v.now)})
  }

  function SyncPayload(reply: Reply): Payload
  {
    Payload(SYNC_PAYLOAD_SIZE, reply.seqId, reply.t2Prime)
  }

  function Receive(w: World, reply: Reply, steady: int): World
  {
    var v, p, reading := w.slave, SyncPayload(reply), w.now + w.theta;
    if !Matches(v, SptpSync, p) then w
    else
      var slave := AfterReceive(v, SptpSync, reply.t1, p, reading, steady);
      var jump := JumpAsked(v, SptpSync, reply.t1, p, reading);
      var theta := if jump.Some? then Jumped(reading, jump.value) - w.now else w.theta;
      var rawDelay := RawDelay(v.pendingT2, reply.t2Prime, reply.t1, reading);
      var rawOffset := RawOffset(v.pendingT2, reply.t2Prime, reply.t1, reading);
      var request := if 1 <= reply.seqId <= |w.requests| then w.requests[reply.seqId - 1] else Request(0, 0, 0, false);
      var trip := Trip(request.sentAt, reply.t2Prime, reply.t1, w.now, request.theta, w.theta);
      var after := w.(slave := slave, theta := theta, measured := w.measured + [reply.seqId],
                      epoch := if jump.Some? then w.epoch + 1 else w.epoch,
                      samples := if rawDelay > 0 then w.samples + [rawDelay] else w.samples,
                      trips := if rawDelay > 0 then w.trips + [trip] else w.trips);
      if Outlier(rawOffset) then after
      else
        after.(exchanges := w.exchanges
          + [Exchange(reply.seqId, |w.requests|, request.sentAt, reply.t2Prime, reply.t1, w.now,
                      request.epoch, w.epoch, rawOffset, request.theta, w.theta, theta, steady)])
  }

  function Apply(w: World, e: Event): World
  {
    match e
    case Wait(dt, slip) => Pass(w, dt, slip)
    case SendRequest(gap, slip, sent) => Ask(w, gap, slip, sent)
    case MasterGets(seqId, gap, slip) => Answer(w, seqId, gap, slip)
    case SlaveGets(reply, steady) => Receive(w, reply, steady)
  }

  ghost function StepOf(rho: nat): (World, Event, World) -> bool
  {
    (w, e, w') => Enabled(rho, w, e) && w' == Apply(w, e)
  }

  /** Reachable with a slave's clock that drifts by at most rho, and in any case never runs backwards. */
  ghost predicate Reachable(rho: nat, w: World)
  {
    rho <= PPB && exists start, es :: Init(start) && Run(StepOf(rho), start, es, w)
  }

  // ----- The invariant -----

  /** Everything claimed of one accepted exchange. */
  ghost predicate Sound(rho: nat, x: Exchange)
  {
    && 0 <= x.sentAt <= x.gotAt <= x.repliedAt <= x.receivedAt
    && x.sendEpoch == x.receiveEpoch
    && x.seqId == x.latest
    && WithinDrift(rho, x.RoundTrip(), x.before - x.sentTheta)
    && x.rawOffset == RawOffset(x.sentAt + x.sentTheta, x.gotAt, x.repliedAt, x.receivedAt + x.before)
    && Abs(x.rawOffset) < 1_000_000_000
    && x.after == if Abs(x.rawOffset) > 100_000 then x.before - x.rawOffset else x.before
  }

  ghost predicate Numbered(w: World)
  {
    && w.slave.nextSeq == |w.requests| + 1
    && (w.slave.pendingT2 != 0 ==> w.slave.pendingSeq == |w.requests| >= 1)
    && (forall k :: 0 <= k < |w.requests| ==> 0 <= w.requests[k].sentAt <= w.now)
    && (forall i :: 0 <= i < |w.exchanges| ==>
          1 <= w.exchanges[i].seqId <= |w.requests|
          && (w.slave.pendingT2 != 0 ==> w.exchanges[i].seqId < |w.requests|))
    && (forall i, j :: 0 <= i < j < |w.exchanges| ==> w.exchanges[i].seqId < w.exchanges[j].seqId)
    && (forall i :: 0 <= i < |w.measured| ==>
          w.measured[i] <= |w.requests| && (w.slave.pendingT2 != 0 ==> w.measured[i] < |w.requests|))
    && (forall i, j :: 0 <= i < j < |w.measured| ==> w.measured[i] < w.measured[j])
  }

  ghost predicate PendingIsCurrent(rho: nat, w: World)
  {
    w.slave.pendingT2 != 0 && w.requests != [] ==>
      var r := w.requests[|w.requests| - 1];
      && r.epoch == w.epoch && (r.onWire ==> w.slave.pendingT2 == r.sentAt + r.theta)
      && r.sentAt <= w.now && WithinDrift(rho, w.now - r.sentAt, w.theta - r.theta)
  }

  ghost predicate RepliesAnswer(w: World)
  {
    forall r :: r in w.replies ==>
      && 1 <= r.seqId <= |w.requests|
      && w.requests[r.seqId - 1].onWire
      && w.requests[r.seqId - 1].sentAt <= r.t2Prime <= r.t1 <= w.now
  }

  ghost predicate ExchangesSound(rho: nat, w: World)
  {
    && (forall i :: 0 <= i < |w.exchanges| ==> Sound(rho, w.exchanges[i]))
    && w.slave.syncCount == |w.exchanges| && (w.slave.firstSyncDone <==> w.exchanges != [])
    && (w.exchanges != [] ==>
          var last := w.exchanges[|w.exchanges| - 1];
          w.slave.offset == last.rawOffset && w.slave.lastSync == last.steady)
    && (w.exchanges != [] ==>
          var last := w.exchanges[|w.exchanges| - 1];
          last.receivedAt <= w.now && WithinDrift(rho, w.now - last.receivedAt, w.theta - last.after))
  }

  ghost predicate Inv(rho: nat, w: World)
  {
    Numbered(w) && PendingIsCurrent(rho, w) && RepliesAnswer(w) && ExchangesSound(rho, w)
    && w.slave.delay == Smooth(INITIAL_DELAY_NS, w.samples)
    && (forall k :: 0 <= k < |w.samples| ==> w.samples[k] > 0)
    && TripsTrue(rho, w)
  }

  /** Each sample is the measured delay of a genuine exchange. */
  ghost predicate TripsTrue(rho: nat, w: World)
  {
    |w.trips| == |w.samples| && forall k :: 0 <= k < |w.trips| ==> TripTrue(rho, w.trips[k], w.samples[k])
  }

  ghost predicate TripTrue(rho: nat, x: Trip, sample: int)
  {
    && 0 <= x.sentAt <= x.gotAt <= x.repliedAt <= x.receivedAt
    && WithinDrift(rho, x.receivedAt - x.sentAt, x.theta - x.sentTheta)
    && Abs(sample - (x.Request() + x.Reply()) / 2) <= HalfUp(Abs(x.theta - x.sentTheta))
  }

  /** A jump that the slave asks for is never refused by the kernel. */
  lemma JumpTakesEffect(w: World, reply: Reply, a: int, sentTheta: int)
    requires 0 <= a <= reply.t2Prime <= reply.t1 <= w.now
    requires Abs(w.theta - sentTheta) <= w.now - a
    ensures w.now + w.theta - RawOffset(a + sentTheta, reply.t2Prime, reply.t1, w.now + w.theta) >= 0
  {
    OffsetError(sentTheta, w.theta, a, reply.t2Prime, reply.t1, w.now);
  }

  /** What a matching reply tells the slave. */
  lemma MatchIsLatest(rho: nat, w: World, reply: Reply)
    requires Inv(rho, w) && reply in w.replies && Matches(w.slave, SptpSync, SyncPayload(reply))
    ensures reply.seqId == |w.requests| >= 1
    ensures AnswersLatest(rho, w, reply)
  {
  }

  ghost predicate AnswersLatest(rho: nat, w: World, reply: Reply)
  {
    && reply.seqId == |w.requests| >= 1
    && var r := w.requests[reply.seqId - 1];
       && 0 <= r.sentAt <= reply.t2Prime <= reply.t1 <= w.now
       && r.epoch == w.epoch && w.slave.pendingT2 == r.sentAt + r.theta
       && WithinDrift(rho, w.now - r.sentAt, w.theta - r.theta)
  }

  lemma ReceiveKeepsNumbers(w: World, reply: Reply, steady: int)
    requires Numbered(w) && reply in w.replies
    requires Matches(w.slave, SptpSync, SyncPayload(reply)) && reply.seqId == |w.requests| >= 1
    ensures Numbered(Receive(w, reply, steady))
  {
  }

  /** Between w and w' one sound exchange was accepted, or none. */
  ghost predicate Extends(rho: nat, w: World, w': World)
  {
    && w'.now == w.now
    && if w'.exchanges == w.exchanges then
         && w'.theta == w.theta && w'.slave.syncCount == w.slave.syncCount
         && w'.slave.firstSyncDone == w.slave.firstSyncDone && w'.slave.offset == w.slave.offset
         && w'.slave.lastSync == w.slave.lastSync
       else
         && w'.slave.syncCount == w.slave.syncCount + 1 && |w'.exchanges| == |w.exchanges| + 1
         && w'.exchanges[..|w.exchanges|] == w.exchanges && w'.slave.firstSyncDone
         && var x := w'.exchanges[|w.exchanges|];
            && Sound(rho, x) && x.receivedAt == w'.now && x.after == w'.theta
            && w'.slave.offset == x.rawOffset && w'.slave.lastSync == x.steady
  }

  lemma NewExchange(rho: nat, w: World, reply: Reply, steady: int)
    requires Matches(w.slave, SptpSync, SyncPayload(reply)) && AnswersLatest(rho, w, reply)
    requires Abs(w.theta - w.requests[reply.seqId - 1].theta) <= w.now - w.requests[reply.seqId - 1].sentAt
    ensures Extends(rho, w, Receive(w, reply, steady))
  {
    JumpTakesEffect(w, reply, w.requests[reply.seqId - 1].sentAt, w.requests[reply.seqId - 1].theta);
  }

  lemma ExtensionKeepsSoundness(rho: nat, w: World, w': World)
    requires ExchangesSound(rho, w) && Extends(rho, w, w')
    ensures ExchangesSound(rho, w')
  {
    forall i | 0 <= i < |w.exchanges|
      ensures w'.exchanges[i] == w.exchanges[i]
    {
      if w'.exchanges != w.exchanges {
        assert w'.exchanges[..|w.exchanges|][i] == w.exchanges[i];
      }
    }
  }

  lemma ReceiveKeepsSoundness(rho: nat, w: World, reply: Reply, steady: int)
    requires rho <= PPB && ExchangesSound(rho, w)
    requires Matches(w.slave, SptpSync, SyncPayload(reply)) && AnswersLatest(rho, w, reply)
    ensures ExchangesSound(rho, Receive(w, reply, steady))
  {
    var r := w.requests[reply.seqId - 1];
    DriftIsSlower(rho, w.now - r.sentAt, w.theta - r.theta);
    NewExchange(rho, w, reply, steady);
    ExtensionKeepsSoundness(rho, w, Receive(w, reply, steady));
  }

  lemma ReceiveKeepsDelay(w: World, reply: Reply, steady: int)
    requires w.slave.delay == Smooth(INITIAL_DELAY_NS, w.samples)
    requires Matches(w.slave, SptpSync, SyncPayload(reply))
    requires forall k :: 0 <= k < |w.samples| ==> w.samples[k] > 0
    ensures
      var w' := Receive(w, reply, steady);
      && w'.slave.delay == Smooth(INITIAL_DELAY_NS, w'.samples)
      && (forall k :: 0 <= k < |w'.samples| ==> w'.samples[k] > 0)
  {
    var w' := Receive(w, reply, steady);
    if w'.samples != w.samples {
      assert w'.samples[..|w'.samples| - 1] == w.samples;
    }
  }

  lemma ReceiveKeepsTrips(rho: nat, w: World, reply: Reply, steady: int)
    requires TripsTrue(rho, w)
    requires Matches(w.slave, SptpSync, SyncPayload(reply)) && AnswersLatest(rho, w, reply)
    ensures TripsTrue(rho, Receive(w, reply, steady))
  {
    var w', r := Receive(w, reply, steady), w.requests[reply.seqId - 1];
    DelayError(r.theta, w.theta, r.sentAt, reply.t2Prime, reply.t1, w.now);
    NewTrip(rho, w, reply, steady);
    forall k | 0 <= k < |w.trips|
      ensures TripTrue(rho, w'.trips[k], w'.samples[k])
    {
      assert TripTrue(rho, w.trips[k], w.samples[k]) && w'.trips[k] == w.trips[k] && w'.samples[k] == w.samples[k];
    }
  }

  lemma NewTrip(rho: nat, w: World, reply: Reply, steady: int)
    requires Matches(w.slave, SptpSync, SyncPayload(reply)) && AnswersLatest(rho, w, reply)
    ensures
      var w', r := Receive(w, reply, steady), w.requests[reply.seqId - 1];
      var rawDelay := RawDelay(r.sentAt + r.theta, reply.t2Prime, reply.t1, w.now + w.theta);
      if rawDelay > 0 then
        && w'.samples == w.samples + [rawDelay]
        && w'.trips == w.trips + [Trip(r.sentAt, reply.t2Prime, reply.t1, w.now, r.theta, w.theta)]
      else w'.samples == w.samples && w'.trips == w.trips
  {
  }

  lemma ReceiveKeepsReplies(rho: nat, w: World, reply: Reply, steady: int)
    requires RepliesAnswer(w) && Matches(w.slave, SptpSync, SyncPayload(reply))
    ensures RepliesAnswer(Receive(w, reply, steady)) && PendingIsCurrent(rho, Receive(w, reply, steady))
  {
    var w' := Receive(w, reply, steady);
    assert w'.replies == w.replies && w'.requests == w.requests && w'.now == w.now && w'.slave.pendingT2 == 0;
  }

  lemma ReceiveKeepsInv(rho: nat, w: World, reply: Reply, steady: int)
    requires rho <= PPB && Inv(rho, w) && reply in w.replies
    ensures Inv(rho, Receive(w, reply, steady))
  {
    if Matches(w.slave, SptpSync, SyncPayload(reply)) {
      MatchIsLatest(rho, w, reply);
      ReceiveKeepsNumbers(w, reply, steady);
      ReceiveKeepsSoundness(rho, w, reply, steady);
      ReceiveKeepsDelay(w, reply, steady);
      ReceiveKeepsTrips(rho, w, reply, steady);
      ReceiveKeepsReplies(rho, w, reply, steady);
    }
  }

  lemma PassKeepsInv(rho: nat, w: World, dt: nat, slip: int)
    requires Inv(rho, w) && WithinDrift(rho, dt, slip)
    ensures Inv(rho, Pass(w, dt, slip))
  {
    if w.slave.pendingT2 != 0 && w.requests != [] {
      var r := w.requests[|w.requests| - 1];
      DriftAdds(rho, w.now - r.sentAt, dt, w.theta - r.theta, slip);
    }
    if w.exchanges != [] {
      var last := w.exchanges[|w.exchanges| - 1];
      DriftAdds(rho, w.now - last.receivedAt, dt, w.theta - last.after, slip);
    }
  }

  lemma RequestKeepsInv(rho: nat, w: World, gap: nat, slip: int, sent: bool)
    requires rho <= PPB && Inv(rho, w) && Enabled(rho, w, SendRequest(gap, slip, sent))
    ensures Inv(rho, Ask(w, gap, slip, sent))
  {
    var v := Pass(w, gap, slip);
    PassKeepsInv(rho, w, gap, slip);
    DriftIsSlower(rho, gap, slip);
    NewRequestKeepsInv(rho, v, w.now + w.theta, if sent then v.now + v.theta else 0, sent);
  }

  lemma NewRequestKeepsInv(rho: nat, w: World, early: int, tx: int, sent: bool)
    requires Inv(rho, w) && early != 0 && tx == if sent then w.now + w.theta else 0
    requires sent ==> tx != 0
    ensures Inv(rho, w.(slave := AfterRequest(w.slave, early, tx),
                        requests := w.requests + [Request(w.now, w.theta, w.epoch, sent)]))
  {
    assert WithinDrift(rho, 0, 0);
  }

  lemma ReplyKeepsInv(rho: nat, w: World, reply: Reply)
    requires Inv(rho, w) && 1 <= reply.seqId <= |w.requests| && w.requests[reply.seqId - 1].onWire
    requires w.requests[reply.seqId - 1].sentAt <= reply.t2Prime <= reply.t1 <= w.now
    ensures Inv(rho, w.(replies := w.replies + {reply}))
  {
  }

  lemma AnswerKeepsInv(rho: nat, w: World, seqId: nat, gap: nat, slip: int)
    requires Inv(rho, w) && Enabled(rho, w, MasterGets(seqId, gap, slip))
    ensures Inv(rho, Answer(w, seqId, gap, slip))
  {
    var v := Pass(w, gap, slip);
    PassKeepsInv(rho, w, gap, slip);
    ReplyKeepsInv(rho, v, Reply(seqId, w.now, v.now));
  }

  lemma StepKeepsInv(rho: nat, w: World, e: Event)
    requires rho <= PPB && Inv(rho, w) && Enabled(rho, w, e)
    ensures Inv(rho, Apply(w, e))
  {
    match e
    case Wait(dt, slip) => PassKeepsInv(rho, w, dt, slip);
    case SendRequest(gap, slip, sent) => RequestKeepsInv(rho, w, gap, slip, sent);
    case MasterGets(seqId, gap, slip) => AnswerKeepsInv(rho, w, seqId, gap, slip);
    case SlaveGets(reply, steady) => ReceiveKeepsInv(rho, w, reply, steady);
  }

  lemma ReachableInv(rho: nat, w: World)
    requires Reachable(rho, w)
    ensures Inv(rho, w)
  {
    var start, es :| Init(start) && Run(StepOf(rho), start, es, w);
    var inv := v => Inv(rho, v);
    forall v, e, v' | inv(v) && StepOf(rho)(v, e, v')
      ensures inv(v')
    {
      StepKeepsInv(rho, v, e);
    }
    Keeps(StepOf(rho), inv, start, es, w);
  }

  // ----- Main results -----

  /** The request's and the reply's slave time stamps come from one clock epoch and the latest request. */
  lemma NoExchangeStraddlesAJump(rho: nat, w: World, i: nat)
    requires Reachable(rho, w) && i < |w.exchanges|
    ensures w.exchanges[i].sendEpoch == w.exchanges[i].receiveEpoch
    ensures w.exchanges[i].seqId == w.exchanges[i].latest
  {
    ReachableInv(rho, w);
    assert Sound(rho, w.exchanges[i]);
  }

  /** However often a reply is duplicated, its request is accepted at most once. */
  lemma EachRequestAcceptedOnce(rho: nat, w: World, i: nat, j: nat)
    requires Reachable(rho, w) && i < |w.exchanges| && j < |w.exchanges|
    requires w.exchanges[i].seqId == w.exchanges[j].seqId
    ensures i == j
  {
    ReachableInv(rho, w);
  }

  /** Nor is it measured again once a reply to it was evaluated, even where that reply was an outlier. */
  lemma EachRequestMeasuredOnce(rho: nat, w: World, i: nat, j: nat)
    requires Reachable(rho, w) && i < |w.measured| && j < |w.measured|
    requires w.measured[i] == w.measured[j]
    ensures i == j
  {
    ReachableInv(rho, w);
  }

  /** What an accepted exchange leaves of the slave's error. */
  lemma ResidualBound(rho: nat, w: World, i: nat)
    requires Reachable(rho, w) && i < |w.exchanges|
    ensures w.exchanges[i].RoundTrip() >= 0
    ensures
      var x := w.exchanges[i];
      var missed := HalfUp(x.Asymmetry() + Slip(rho, x.RoundTrip()));
      if Abs(x.rawOffset) > 100_000 then Abs(x.after) <= missed
      else x.after == x.before && Abs(x.after) <= 100_000 + missed
  {
    ReachableInv(rho, w);
    var x := w.exchanges[i];
    assert Sound(rho, x);
    WithinSlip(rho, x.RoundTrip(), x.RoundTrip(), x.before - x.sentTheta);
    ExchangeBound(x, Slip(rho, x.RoundTrip()));
  }

  lemma ExchangeBound(x: Exchange, slip: nat)
    requires x.sentAt <= x.gotAt <= x.repliedAt <= x.receivedAt && Abs(x.before - x.sentTheta) <= slip
    requires x.rawOffset == RawOffset(x.sentAt + x.sentTheta, x.gotAt, x.repliedAt, x.receivedAt + x.before)
    requires x.after == if Abs(x.rawOffset) > 100_000 then x.before - x.rawOffset else x.before
    ensures
      var missed := HalfUp(x.Asymmetry() + slip);
      if Abs(x.rawOffset) > 100_000 then Abs(x.after) <= missed
      else x.after == x.before && Abs(x.after) <= 100_000 + missed
  {
    OffsetError(x.sentTheta, x.before, x.sentAt, x.gotAt, x.repliedAt, x.receivedAt);
  }

  /**
   From the first accepted exchange on: on a network whose delays differ by at most `spread` and
   whose round trips last at most `roundTrip`, the slave's clock is within the dead band, half of the
   spread and a round trip's drift, and the drift of the `silence` since the last acceptance.
   */
  lemma StaysSynchronized(rho: nat, w: World, spread: nat, roundTrip: nat, silence: nat)
    requires Reachable(rho, w) && w.exchanges != []
    requires forall i :: 0 <= i < |w.exchanges| ==>
               w.exchanges[i].Asymmetry() <= spread && w.exchanges[i].RoundTrip() <= roundTrip
    requires w.now - w.exchanges[|w.exchanges| - 1].receivedAt <= silence
    ensures Abs(w.theta) <= 100_000 + HalfUp(spread + Slip(rho, roundTrip)) + Slip(rho, silence)
  {
    ReachableInv(rho, w);
    var last := w.exchanges[|w.exchanges| - 1];
    ResidualBound(rho, w, |w.exchanges| - 1);
    SlipMonotone(rho, last.RoundTrip(), roundTrip);
    WithinSlip(rho, w.now - last.receivedAt, silence, w.theta - last.after);
    AddBounds(w.theta, last.after, last.Asymmetry() + Slip(rho, last.RoundTrip()), spread + Slip(rho, roundTrip),
              Slip(rho, silence));
  }

  lemma AddBounds(theta: int, after: int, missed: nat, most: nat, slip: nat)
    requires Abs(after) <= 100_000 + HalfUp(missed) && missed <= most && Abs(theta - after) <= slip
    ensures Abs(theta) <= 100_000 + HalfUp(most) + slip
  {
  }

  /** A clock that does not drift needs no further exchange. */
  lemma SynchronizedForEver(w: World, spread: nat)
    requires Reachable(0, w) && w.slave.syncCount > 0
    requires forall i :: 0 <= i < |w.exchanges| ==> w.exchanges[i].Asymmetry() <= spread
    ensures Abs(w.theta) <= 100_000 + HalfUp(spread)
  {
    ReachableInv(0, w);
    var last := w.exchanges[|w.exchanges| - 1];
    ResidualBound(0, w, |w.exchanges| - 1);
    WithinSlip(0, w.now - last.receivedAt, w.now - last.receivedAt, w.theta - last.after);
  }

  /** The delay estimate stays within its first value and the positive samples, in every run. */
  lemma DelayInRange(rho: nat, w: World, lo: int, hi: int)
    requires Reachable(rho, w) && lo <= INITIAL_DELAY_NS <= hi
    requires forall k :: 0 <= k < |w.samples| ==> lo <= w.samples[k] <= hi
    ensures lo <= w.slave.delay <= hi
  {
    ReachableInv(rho, w);
    SmoothStaysInRange(INITIAL_DELAY_NS, w.samples, lo, hi);
  }

  /**
   On a network whose delays are all between lo and hi and whose round trips last at most `roundTrip`,
   the estimate stays between them, or between them and its first value, but for half of a round trip's drift.
   */
  lemma DelayTracksNetwork(rho: nat, w: World, lo: nat, hi: nat, roundTrip: nat)
    requires Reachable(rho, w)
    requires forall k :: 0 <= k < |w.trips| ==>
               && lo <= w.trips[k].Request() <= hi && lo <= w.trips[k].Reply() <= hi
               && w.trips[k].receivedAt - w.trips[k].sentAt <= roundTrip
    ensures
      var slack := HalfUp(Slip(rho, roundTrip));
      && w.slave.delay >= (if lo <= INITIAL_DELAY_NS then lo else INITIAL_DELAY_NS) - slack
      && w.slave.delay <= (if hi >= INITIAL_DELAY_NS then hi else INITIAL_DELAY_NS) + slack
  {
    ReachableInv(rho, w);
    var slack := HalfUp(Slip(rho, roundTrip));
    forall k | 0 <= k < |w.samples|
      ensures lo - slack <= w.samples[k] <= hi + slack
    {
      var x := w.trips[k];
      assert TripTrue(rho, x, w.samples[k]);
      WithinSlip(rho, x.receivedAt - x.sentAt, roundTrip, x.theta - x.sentTheta);
    }
    SmoothStaysInRange(INITIAL_DELAY_NS, w.samples, (if lo <= INITIAL_DELAY_NS then lo else INITIAL_DELAY_NS) - slack,
                       (if hi >= INITIAL_DELAY_NS then hi else INITIAL_DELAY_NS) + slack);
  }

  // ----- Exchanges do happen -----

  /** A reply that is not to the latest request, or comes when none is pending, changes nothing. */
  lemma StaleReplyIsIgnored(rho: nat, w: World, reply: Reply, steady: int)
    requires Reachable(rho, w) && reply in w.replies
    requires reply.seqId != |w.requests| || w.slave.pendingT2 == 0
    ensures Receive(w, reply, steady) == w
  {
    ReachableInv(rho, w);
  }

  lemma MatchIsMeasured(w: World, reply: Reply, steady: int)
    requires Matches(w.slave, SptpSync, SyncPayload(reply))
    ensures
      var w' := Receive(w, reply, steady);
      && w'.measured == w.measured + [reply.seqId] && w'.slave.pendingT2 == 0
      && (Abs(RawOffset(w.slave.pendingT2, reply.t2Prime, reply.t1, w.now + w.theta)) < 1_000_000_000 ==>
            |w'.exchanges| == |w.exchanges| + 1 && w'.slave.firstSyncDone && w'.slave.lastSync == steady)
      && (RawDelay(w.slave.pendingT2, reply.t2Prime, reply.t1, w.now + w.theta) > 0 ==>
            |w'.samples| == |w.samples| + 1)
  {
  }

  lemma SmallOffset(sentTheta: int, theta: int, a: int, b: int, c: int, d: int, slip: nat)
    requires a <= b <= c <= d && Abs(theta - sentTheta) <= slip
    ensures Abs(theta) + HalfUp(Abs((d - c) - (b - a)) + slip) < 1_000_000_000 ==>
              Abs(RawOffset(a + sentTheta, b, c, d + theta)) < 1_000_000_000
  {
    OffsetError(sentTheta, theta, a, b, c, d);
  }

  /** How far apart the two delays of a reply to the latest request are. */
  function AsymmetryOf(w: World, reply: Reply): nat
    requires 1 <= reply.seqId <= |w.requests|
  {
    Abs((w.now - reply.t1) - (reply.t2Prime - w.requests[reply.seqId - 1].sentAt))
  }

  /** What a reply to the latest request, while that is pending, tells. */
  lemma LatestReply(rho: nat, w: World, reply: Reply)
    requires Reachable(rho, w) && reply in w.replies && reply.seqId == |w.requests| && w.slave.pendingT2 != 0
    ensures AnswersLatest(rho, w, reply) && Matches(w.slave, SptpSync, SyncPayload(reply))
    ensures
      var r := w.requests[reply.seqId - 1];
      Abs(w.theta - r.theta) <= Slip(rho, w.now - r.sentAt)
  {
    ReachableInv(rho, w);
    MatchIsLatest(rho, w, reply);
    WithinSlip(rho, w.now - w.requests[reply.seqId - 1].sentAt, w.now - w.requests[reply.seqId - 1].sentAt,
               w.theta - w.requests[reply.seqId - 1].theta);
  }

  /**
   Such a reply is measured; and unless the clocks are a second apart, give or take half of asymmetry
   and drift, the exchange is accepted and the slave synchronized.
   */
  lemma LatestReplyIsAccepted(rho: nat, w: World, reply: Reply, steady: int)
    requires Reachable(rho, w) && reply in w.replies && reply.seqId == |w.requests| && w.slave.pendingT2 != 0
    ensures 1 <= reply.seqId <= |w.requests| && w.requests[reply.seqId - 1].sentAt <= w.now
    ensures
      var w' := Receive(w, reply, steady);
      && w'.measured == w.measured + [reply.seqId] && w'.slave.pendingT2 == 0
      && var roundTrip := w.now - w.requests[reply.seqId - 1].sentAt;
         Abs(w.theta) + HalfUp(AsymmetryOf(w, reply) + Slip(rho, roundTrip)) < 1_000_000_000 ==>
           |w'.exchanges| == |w.exchanges| + 1 && w'.slave.firstSyncDone && w'.slave.lastSync == steady
  {
    LatestReply(rho, w, reply);
    AnswerIsAccepted(w, reply, steady, Slip(rho, w.now - w.requests[reply.seqId - 1].sentAt));
  }

  lemma AnswerIsAccepted(w: World, reply: Reply, steady: int, slip: nat)
    requires Matches(w.slave, SptpSync, SyncPayload(reply)) && 1 <= reply.seqId <= |w.requests|
    requires
      var r := w.requests[reply.seqId - 1];
      r.sentAt <= reply.t2Prime <= reply.t1 <= w.now && w.slave.pendingT2 == r.sentAt + r.theta
    requires Abs(w.theta - w.requests[reply.seqId - 1].theta) <= slip
    ensures
      var w' := Receive(w, reply, steady);
      && w'.measured == w.measured + [reply.seqId] && w'.slave.pendingT2 == 0
      && (Abs(w.theta) + HalfUp(AsymmetryOf(w, reply) + slip) < 1_000_000_000 ==>
            |w'.exchanges| == |w.exchanges| + 1 && w'.slave.firstSyncDone && w'.slave.lastSync == steady)
  {
    MatchIsMeasured(w, reply, steady);
    var r := w.requests[reply.seqId - 1];
    SmallOffset(r.theta, w.theta, r.sentAt, reply.t2Prime, reply.t1, w.now, slip);
  }

  /** And where its delays outweigh the drift, its measured delay enters the filter. */
  lemma LatestReplyIsSampled(rho: nat, w: World, reply: Reply, steady: int)
    requires Reachable(rho, w) && reply in w.replies && reply.seqId == |w.requests| && w.slave.pendingT2 != 0
    ensures 1 <= reply.seqId <= |w.requests| && w.requests[reply.seqId - 1].sentAt <= w.now
    ensures
      var r := w.requests[reply.seqId - 1];
      ((reply.t2Prime - r.sentAt) + (w.now - reply.t1)) / 2 > HalfUp(Slip(rho, w.now - r.sentAt)) ==>
        |Receive(w, reply, steady).samples| == |w.samples| + 1
  {
    LatestReply(rho, w, reply);
    MatchIsMeasured(w, reply, steady);
    var r := w.requests[reply.seqId - 1];
    DelayError(r.theta, w.theta, r.sentAt, reply.t2Prime, reply.t1, w.now);
  }

  /** A request leaves its number pending, and an answer to it is a reply with that number and the master's times. */
  lemma RequestsAreAnswered(rho: nat, w: World, gap: nat, slip: int, sent: bool, seqId: nat, stay: nat, slide: int)
    requires Reachable(rho, w)
    ensures Enabled(rho, w, SendRequest(gap, slip, sent)) ==>
              var w' := Ask(w, gap, slip, sent);
              && |w'.requests| == |w.requests| + 1 && w'.requests[|w.requests|].onWire == sent
              && w'.slave.pendingT2 != 0 && w'.slave.pendingSeq == |w'.requests|
    ensures Enabled(rho, w, MasterGets(seqId, stay, slide)) ==>
              Reply(seqId, w.now, w.now + stay) in Answer(w, seqId, stay, slide).replies
  {
    ReachableInv(rho, w);
    if Enabled(rho, w, SendRequest(gap, slip, sent)) {
      DriftIsSlower(rho, gap, slip);
    }
  }
}
