/**
 How often a gateway's own observers are given a message. `update` notifies them of a frame from the
 wire, injects it into the ring, reads it back, as the ring does not spare its writer, and notifies
 them again: a road-side unit's observers get most broadcasts twice, a vehicle's components each once.
 */
module GatewayObservers {
  import opened Addresses
  import opened Common
  import opened Runs
  import SharedRing
  import opened NetworkInterface
  import opened Gateway
  import opened Forwarding

  /** Who watches which port in each gateway. */
  type Watches = seq<map<nat, Watch>>

  /**
   `told[v]` lists the messages that v's gateway has given to a port's observers or queue. `missed`
   and `dropped` are history and record causes: ring positions read and wire frames heard while the
   interface found no buffer for them, or, from the wire, that must be kept out.
   */
  datatype Told = Told(net: Net, told: seq<seq<Id>>, missed: set<(nat, nat)>, dropped: set<(nat, nat)>)

  function Init(n: nat): Told
  {
    Told(Forwarding.Init(n), seq(n, _ => []), {}, {})
  }

  /** Somebody takes messages for this port, or a communicator takes its buffers. */
  predicate Listens(watch: map<nat, Watch>, f: Frame)
  {
    && f.packet.dstPort in watch
    && (watch[f.packet.dstPort].Queues? || f.packet.data != [])
  }

  /** What the specification of `update` gives the observers or the queue of a buffer. */
  predicate Notifies(watch: map<nat, Watch>, onWire: bool, b: Buffer)
  {
    || Queued(watch, onWire, b)
    || (if onWire then FromWire(watch, b, true) else FromRing(watch, b, None, QUADRANT_NONE)).messages != []
  }

  ghost predicate Enabled(macs: seq<Mac>, watches: Watches, o: Told, e: Event)
  {
    Shaped(macs, o.net) && |watches| == |o.told| == |macs| && Forwarding.Enabled(macs, o.net, e)
  }

  function Apply(macs: seq<Mac>, watches: Watches, o: Told, e: Event): Told
    requires Enabled(macs, watches, o, e)
  {
    var next := o.(net := Forwarding.Apply(macs, o.net, e));
    match e
    case GatewayReads(v, _, found, _) =>
      var item := o.net.rings[v][o.net.position[v]];
      var notified := found && SharedRing.ShouldRead(SharedRing.GATEWAY_SLOT, SlotOf(item))
                      && Notifies(watches[v], false, AsBuffer(item.frame));
      next.(told := if notified then o.told[v := o.told[v] + [item.id]] else o.told,
            missed := if found then o.missed else o.missed + {(v, o.net.position[v])})
    case GatewayHears(v, k, quadrant, found, _) =>
      var item := o.net.wire[k];
      var up := PassedUp(macs, v, item.frame, quadrant, found);
      var notified := up.Some? && Notifies(watches[v], true, up.value);
      next.(told := if notified then o.told[v := o.told[v] + [item.id]] else o.told,
            dropped := if found && !KeptOut(item.frame, macs[v], quadrant) then o.dropped else o.dropped + {(v, k)})
    case _ => next
  }

  ghost function StepOf(macs: seq<Mac>, watches: Watches): (Told, Event, Told) -> bool
  {
    (o, e, o') => Enabled(macs, watches, o, e) && o' == Apply(macs, watches, o, e)
  }

  ghost predicate Reachable(macs: seq<Mac>, watches: Watches, o: Told)
  {
    ValidMacs(macs) && |watches| == |macs| && exists es :: Run(StepOf(macs, watches), Init(|macs|), es, o)
  }

  // ----- The invariant -----

  /** v's gateway has read from its ring, with a buffer, a message that somebody listens for. */
  ghost predicate ReadHere(watches: Watches, o: Told, v: nat, id: Id)
    requires v < |watches| && v < |o.net.rings| == |o.net.position|
  {
    exists p: nat :: p < o.net.position[v] && ReadAs(watches, o, v, p, id)
  }

  predicate ReadAs(watches: Watches, o: Told, v: nat, p: nat, id: Id)
    requires v < |watches| && v < |o.net.rings|
  {
    && p < |o.net.rings[v]| && o.net.rings[v][p].id == id && (v, p) !in o.missed
    && Listens(watches[v], o.net.rings[v][p].frame)
  }

  /** v's gateway has heard from the wire, and not dropped, a message that somebody listens for. */
  ghost predicate HeardHere(watches: Watches, o: Told, v: nat, id: Id)
    requires v < |watches|
  {
    exists k: nat :: HeardAs(watches, o, v, k, id)
  }

  predicate HeardAs(watches: Watches, o: Told, v: nat, k: nat, id: Id)
    requires v < |watches|
  {
    && k < |o.net.wire| && (v, k) in o.net.heard && (v, k) !in o.dropped
    && o.net.wire[k].id == id && Listens(watches[v], o.net.wire[k].frame)
  }

  ghost function One(yes: bool): nat { if yes then 1 else 0 }

  ghost predicate ToldAgrees(watches: Watches, o: Told, v: nat, id: Id)
    requires v < |watches| == |o.told| == |o.net.rings| == |o.net.position|
  {
    multiset(o.told[v])[id] == One(ReadHere(watches, o, v, id)) + One(HeardHere(watches, o, v, id))
  }

  ghost predicate CausesInv(macs: seq<Mac>, o: Told)
    requires Shaped(macs, o.net)
  {
    && (forall v, p :: (v, p) in o.missed ==> v < |macs| && p < o.net.position[v])
    && (forall v, k :: (v, k) in o.dropped ==> (v, k) in o.net.heard)
    && (forall v, k :: (v, k) in o.net.heard && (v, k) !in o.dropped ==>
          v < |macs| && k < |o.net.wire| && o.net.wire[k].frame.src != macs[v])
    && (forall v, k :: (v, k) in o.net.refused ==> (v, k) in o.net.heard && v < |macs| && !InTheRing(o.net, v, k))
  }

  ghost predicate Inv(macs: seq<Mac>, watches: Watches, o: Told)
  {
    && ValidMacs(macs) && Forwarding.Inv(macs, o.net) && |watches| == |o.told| == |macs| && CausesInv(macs, o)
    && forall v, id :: 0 <= v < |macs| ==> ToldAgrees(watches, o, v, id)
  }

  /** For a frame passed up, or read whole, the observers are notified exactly if somebody listens. */
  lemma NotifiesListeners(watch: map<nat, Watch>, f: Frame)
    ensures Notifies(watch, false, AsBuffer(f)) <==> Listens(watch, f)
  {
  }

  lemma NotifiesUnlessDropped(macs: seq<Mac>, watch: map<nat, Watch>, v: nat, f: Frame, quadrant: nat, found: bool)
    requires v < |macs| && f.proto == PROTO
    ensures
      var up := PassedUp(macs, v, f, quadrant, found);
      (up.Some? && Notifies(watch, true, up.value))
      <==> found && !KeptOut(f, macs[v], quadrant) && Listens(watch, f)
  {
  }

  /** The steps that only add: nothing is read or heard. */
  lemma SendKeepsTold(macs: seq<Mac>, watches: Watches, o: Told, e: Event, v: nat, id: Id)
    requires Inv(macs, watches, o) && Enabled(macs, watches, o, e) && v < |macs|
    requires e.ComponentSends? || e.GatewaySends?
    ensures ToldAgrees(watches, Apply(macs, watches, o, e), v, id)
  {
    var o' := Apply(macs, watches, o, e);
    assert ToldAgrees(watches, o, v, id);
    SameRead(macs, watches, o, o', v, id);
    SameHeard(macs, watches, o, o', v, id);
  }

  lemma SameRead(macs: seq<Mac>, watches: Watches, o: Told, o': Told, v: nat, id: Id)
    requires v < |watches| && v < |o.net.rings| == |o.net.position| == |o'.net.rings| == |o'.net.position|
    requires o'.net.position[v] == o.net.position[v] <= |o.net.rings[v]| && o.net.rings[v] <= o'.net.rings[v]
    requires forall p :: p < o.net.position[v] ==> ((v, p) in o'.missed <==> (v, p) in o.missed)
    ensures ReadHere(watches, o', v, id) <==> ReadHere(watches, o, v, id)
  {
    forall p: nat | p < o.net.position[v]
      ensures ReadAs(watches, o', v, p, id) <==> ReadAs(watches, o, v, p, id)
    {
      assert o'.net.rings[v][p] == o.net.rings[v][p];
    }
  }

  lemma SameHeard(macs: seq<Mac>, watches: Watches, o: Told, o': Told, v: nat, id: Id)
    requires v < |watches| && o.net.wire <= o'.net.wire
    requires forall k :: (v, k) in o.net.heard ==> k < |o.net.wire|
    requires forall k :: (v, k) in o'.net.heard <==> (v, k) in o.net.heard
    requires forall k :: (v, k) in o.net.heard ==> ((v, k) in o'.dropped <==> (v, k) in o.dropped)
    ensures HeardHere(watches, o', v, id) <==> HeardHere(watches, o, v, id)
  {
    forall k: nat
      ensures HeardAs(watches, o', v, k, id) <==> HeardAs(watches, o, v, k, id)
    {
      if (v, k) in o.net.heard {
        assert o'.net.wire[k] == o.net.wire[k];
      }
    }
  }

  /** Reading one more ring position is reading its message, if somebody listens and a buffer was found. */
  lemma ReadOne(macs: seq<Mac>, watches: Watches, o: Told, e: Event, id: Id)
    requires Inv(macs, watches, o) && Enabled(macs, watches, o, e) && e.GatewayReads?
    ensures
      var item := o.net.rings[e.v][o.net.position[e.v]];
      var now := e.found && item.id == id && Listens(watches[e.v], item.frame);
      && (ReadHere(watches, Apply(macs, watches, o, e), e.v, id) <==> ReadHere(watches, o, e.v, id) || now)
      && !(ReadHere(watches, o, e.v, id) && now)
  {
    var o', at := Apply(macs, watches, o, e), o.net.position[e.v];
    forall p: nat | p <= at
      ensures ReadAs(watches, o', e.v, p, id) <==>
                if p < at then ReadAs(watches, o, e.v, p, id)
                else e.found && o.net.rings[e.v][at].id == id && Listens(watches[e.v], o.net.rings[e.v][at].frame)
    {
      assert (e.v, at) !in o.missed;
    }
    if ReadHere(watches, o, e.v, id) {
      var p: nat :| p < at && ReadAs(watches, o, e.v, p, id);
      if o.net.rings[e.v][at].id == id {
        RingIdsUnique(macs, o.net, e.v, p, at);
      }
    }
    assert ReadAs(watches, o', e.v, at, id) ==> ReadHere(watches, o', e.v, id);
  }

  lemma ReadKeepsTold(macs: seq<Mac>, watches: Watches, o: Told, e: Event, v: nat, id: Id)
    requires Inv(macs, watches, o) && Enabled(macs, watches, o, e) && e.GatewayReads? && v < |macs|
    ensures ToldAgrees(watches, Apply(macs, watches, o, e), v, id)
  {
    var o', item := Apply(macs, watches, o, e), o.net.rings[e.v][o.net.position[e.v]];
    assert ToldAgrees(watches, o, v, id);
    SameHeard(macs, watches, o, o', v, id);
    if v == e.v {
      NotifiesListeners(watches[v], item.frame);
      ReadOne(macs, watches, o, e, id);
    } else {
      SameRead(macs, watches, o, o', v, id);
    }
  }

  /** Hearing one more wire frame is hearing its message, if somebody listens and it is not dropped. */
  lemma HearOne(macs: seq<Mac>, watches: Watches, o: Told, e: Event, id: Id)
    requires Inv(macs, watches, o) && Enabled(macs, watches, o, e) && e.GatewayHears?
    ensures
      var item := o.net.wire[e.k];
      var now := e.found && !KeptOut(item.frame, macs[e.v], e.quadrant) && item.id == id
                 && Listens(watches[e.v], item.frame);
      && (HeardHere(watches, Apply(macs, watches, o, e), e.v, id) <==> HeardHere(watches, o, e.v, id) || now)
      && !(HeardHere(watches, o, e.v, id) && now)
  {
    var o', item := Apply(macs, watches, o, e), o.net.wire[e.k];
    forall k: nat
      ensures HeardAs(watches, o', e.v, k, id) <==>
                if k != e.k then HeardAs(watches, o, e.v, k, id)
                else e.found && !KeptOut(item.frame, macs[e.v], e.quadrant) && item.id == id
                     && Listens(watches[e.v], item.frame)
    {
      assert (e.v, e.k) !in o.dropped;
    }
    if HeardHere(watches, o, e.v, id) {
      var k: nat :| HeardAs(watches, o, e.v, k, id);
      assert HeardAs(watches, o', e.v, k, id);
    }
    assert HeardAs(watches, o', e.v, e.k, id) ==> HeardHere(watches, o', e.v, id);
  }

  lemma HearKeepsTold(macs: seq<Mac>, watches: Watches, o: Told, e: Event, v: nat, id: Id)
    requires Inv(macs, watches, o) && Enabled(macs, watches, o, e) && e.GatewayHears? && v < |macs|
    ensures ToldAgrees(watches, Apply(macs, watches, o, e), v, id)
  {
    var o', item := Apply(macs, watches, o, e), o.net.wire[e.k];
    assert ToldAgrees(watches, o, v, id);
    SameRead(macs, watches, o, o', v, id);
    if v == e.v {
      assert WireItemTrue(macs, o.net, item);
      NotifiesUnlessDropped(macs, watches[v], v, item.frame, e.quadrant, e.found);
      HearOne(macs, watches, o, e, id);
    } else {
      SameHeard(macs, watches, o, o', v, id);
    }
  }

  lemma StepKeepsMissed(macs: seq<Mac>, watches: Watches, o: Told, e: Event, v: nat, p: nat)
    requires Inv(macs, watches, o) && Enabled(macs, watches, o, e)
    requires (v, p) in Apply(macs, watches, o, e).missed
    ensures
      var at := Apply(macs, watches, o, e).net.position;
      v < |macs| && v < |at| && p < at[v]
  {
  }

  lemma StepKeepsHeard(macs: seq<Mac>, watches: Watches, o: Told, e: Event, v: nat, k: nat)
    requires Inv(macs, watches, o) && Enabled(macs, watches, o, e)
    ensures
      var o' := Apply(macs, watches, o, e);
      && ((v, k) in o'.dropped ==> (v, k) in o'.net.heard)
      && ((v, k) in o'.net.heard && (v, k) !in o'.dropped ==>
            v < |macs| && k < |o'.net.wire| && o'.net.wire[k].frame.src != macs[v])
  {
    StepGrows(macs, o.net, e);
    var o' := Apply(macs, watches, o, e);
    if (v, k) in o.net.heard {
      assert o'.net.wire[k] == o.net.wire[k];
    }
  }

  lemma StepKeepsCauses(macs: seq<Mac>, watches: Watches, o: Told, e: Event)
    requires Inv(macs, watches, o) && Enabled(macs, watches, o, e)
    ensures Shaped(macs, Apply(macs, watches, o, e).net) && CausesInv(macs, Apply(macs, watches, o, e))
  {
    StepGrows(macs, o.net, e);
    var o' := Apply(macs, watches, o, e);
    forall v, p | (v, p) in o'.missed
      ensures v < |macs| && p < o'.net.position[v]
    {
      StepKeepsMissed(macs, watches, o, e, v, p);
    }
    forall v: nat, k: nat
      ensures (v, k) in o'.dropped ==> (v, k) in o'.net.heard
      ensures (v, k) in o'.net.heard && (v, k) !in o'.dropped ==>
                v < |macs| && k < |o'.net.wire| && o'.net.wire[k].frame.src != macs[v]
    {
      StepKeepsHeard(macs, watches, o, e, v, k);
    }
    forall v, k | (v, k) in o'.net.refused
      ensures (v, k) in o'.net.heard && v < |macs| && !InTheRing(o'.net, v, k)
    {
      StepKeepsRefused(macs, watches, o, e, v, k);
    }
  }

  /** What was refused does not get into the ring by this step either. */
  lemma StepKeepsRefused(macs: seq<Mac>, watches: Watches, o: Told, e: Event, v: nat, k: nat)
    requires Inv(macs, watches, o) && Enabled(macs, watches, o, e)
    requires (v, k) in Apply(macs, watches, o, e).net.refused
    ensures
      var s' := Apply(macs, watches, o, e).net;
      (v, k) in s'.heard && v < |macs| && v < |s'.rings| && !InTheRing(s', v, k)
  {
    var s, s' := o.net, Apply(macs, watches, o, e).net;
    StepGrows(macs, s, e);
    forall p | 0 <= p < |s'.rings[v]|
      ensures !s'.rings[v][p].writer.Of(k)
    {
      if p < |s.rings[v]| {
        assert s'.rings[v][p] == s.rings[v][p];
        assert LocalItem(s, v, s.rings[v][p]) || InjectedItem(macs, s, v, s.rings[v][p]);
      }
    }
  }

  lemma StepKeepsInv(macs: seq<Mac>, watches: Watches, o: Told, e: Event)
    requires Inv(macs, watches, o) && Enabled(macs, watches, o, e)
    ensures Inv(macs, watches, Apply(macs, watches, o, e))
  {
    Forwarding.StepKeepsInv(macs, o.net, e);
    StepKeepsCauses(macs, watches, o, e);
    forall v, id | 0 <= v < |macs|
      ensures ToldAgrees(watches, Apply(macs, watches, o, e), v, id)
    {
      if e.GatewayReads? {
        ReadKeepsTold(macs, watches, o, e, v, id);
      } else if e.GatewayHears? {
        HearKeepsTold(macs, watches, o, e, v, id);
      } else {
        SendKeepsTold(macs, watches, o, e, v, id);
      }
    }
  }

  lemma InitInv(macs: seq<Mac>, watches: Watches)
    requires ValidMacs(macs) && |watches| == |macs|
    ensures Inv(macs, watches, Init(|macs|))
  {
    Forwarding.InitInv(macs);
    forall v, id | 0 <= v < |macs|
      ensures ToldAgrees(watches, Init(|macs|), v, id)
    {
      assert Init(|macs|).told[v] == [];
    }
  }

  lemma ReachableInv(macs: seq<Mac>, watches: Watches, o: Told)
    requires Reachable(macs, watches, o)
    ensures Inv(macs, watches, o)
  {
    var es :| Run(StepOf(macs, watches), Init(|macs|), es, o);
    InitInv(macs, watches);
    var inv := t => Inv(macs, watches, t);
    forall t, e, t' | inv(t) && StepOf(macs, watches)(t, e, t')
      ensures inv(t')
    {
      StepKeepsInv(macs, watches, t, e);
    }
    Keeps(StepOf(macs, watches), inv, Init(|macs|), es, o);
  }

  // ----- Main results -----

  /** The gateway has read back, with a buffer, what it injected for wire frame k. */
  ghost predicate ReadBack(o: Told, v: nat, k: nat)
    requires v < |o.net.rings| == |o.net.position|
  {
    exists p: nat ::
      p < o.net.position[v] && p < |o.net.rings[v]| && o.net.rings[v][p].writer.Of(k) && (v, p) !in o.missed
  }

  /** A message heard from the wire is read here just if it is read back. */
  lemma ReadMeansReadBack(macs: seq<Mac>, watches: Watches, o: Told, v: nat, k: nat)
    requires Inv(macs, watches, o) && v < |macs| && k < |o.net.wire|
    requires (v, k) in o.net.heard && (v, k) !in o.dropped && Listens(watches[v], o.net.wire[k].frame)
    ensures ReadHere(watches, o, v, o.net.wire[k].id) <==> ReadBack(o, v, k)
  {
    var w := o.net.wire[k];
    assert WireItemTrue(macs, o.net, w);
    forall p: nat | p < o.net.position[v]
      ensures ReadAs(watches, o, v, p, w.id)
              <==> p < |o.net.rings[v]| && o.net.rings[v][p].writer.Of(k) && (v, p) !in o.missed
    {
      var item := o.net.rings[v][p];
      assert LocalItem(o.net, v, item) || InjectedItem(macs, o.net, v, item);
    }
  }

  /**
   A gateway's observers are given a message that it heard from the wire and did not drop, and for
   which somebody listens, once for the wire's buffer, and once more when the gateway has read back
   what it injected: that it did inject just if the ring's pool had room.
   */
  lemma WireMessagesAreToldTwice(macs: seq<Mac>, watches: Watches, o: Told, v: nat, k: nat)
    requires Reachable(macs, watches, o) && v < |macs| && k < |o.net.wire|
    requires (v, k) in o.net.heard && (v, k) !in o.dropped && Listens(watches[v], o.net.wire[k].frame)
    ensures v < |o.told| && v < |o.net.rings| == |o.net.position|
    ensures multiset(o.told[v])[o.net.wire[k].id] == if ReadBack(o, v, k) then 2 else 1
    ensures InTheRing(o.net, v, k) <==> (v, k) !in o.net.refused
  {
    ReachableInv(macs, watches, o);
    var id := o.net.wire[k].id;
    assert ToldAgrees(watches, o, v, id);
    assert HeardAs(watches, o, v, k, id);
    ReadMeansReadBack(macs, watches, o, v, k);
  }

  /** What a gateway hears and does not drop was not made in its vehicle. */
  lemma HeardIsForeign(macs: seq<Mac>, watches: Watches, o: Told, v: nat, id: Id)
    requires Inv(macs, watches, o) && v < |macs|
    ensures HeardHere(watches, o, v, id) ==> id.vehicle != v
  {
    forall k: nat | HeardAs(watches, o, v, k, id)
      ensures id.vehicle != v
    {
      assert WireItemTrue(macs, o.net, o.net.wire[k]);
    }
  }

  /** A message of the vehicle's own components, read with a buffer, is given to them once. */
  lemma LocalMessagesAreToldOnce(macs: seq<Mac>, watches: Watches, o: Told, v: nat, p: nat)
    requires Reachable(macs, watches, o) && v < |macs| && v < |o.net.rings| == |o.net.position|
    requires p < o.net.position[v] && p < |o.net.rings[v]| && o.net.rings[v][p].writer.Local?
    requires (v, p) !in o.missed && Listens(watches[v], o.net.rings[v][p].frame)
    ensures v < |o.told| && multiset(o.told[v])[o.net.rings[v][p].id] == 1
  {
    ReachableInv(macs, watches, o);
    var id := o.net.rings[v][p].id;
    assert LocalItem(o.net, v, o.net.rings[v][p]) || InjectedItem(macs, o.net, v, o.net.rings[v][p]);
    assert ToldAgrees(watches, o, v, id) && ReadAs(watches, o, v, p, id);
    HeardIsForeign(macs, watches, o, v, id);
  }

  /** No message is ever given to them more than twice. */
  lemma ToldAtMostTwice(macs: seq<Mac>, watches: Watches, o: Told, v: nat, id: Id)
    requires Reachable(macs, watches, o) && v < |macs|
    ensures v < |o.told| && multiset(o.told[v])[id] <= 2
  {
    ReachableInv(macs, watches, o);
    assert ToldAgrees(watches, o, v, id);
  }
}
