/**
 Many vehicles on one Ethernet segment. Each vehicle's ring is the log the ring protocol delivers;
 its gateway reads the ring, forwards to the wire, and injects what it hears from the wire. The wire
 may lose frames for any receiver, but hands each frame to a receiver at most once.
 */
module Forwarding {
  import opened Addresses
  import opened Common
  import opened Runs
  import SharedRing
  import opened NetworkInterface
  import opened Gateway

  /** A message's identity: the vehicle it was made in and its number there. */
  datatype Id = Id(vehicle: nat, number: nat)

  /** A frame in a ring: who wrote it, and for an injected one the wire frame it came from and the quadrant then. */
  datatype Writer = Local(slot: nat) | Injected(heard: nat, quadrant: nat)
  {
    predicate Of(k: nat) { Injected? && heard == k }
  }

  datatype RingItem = RingItem(frame: Frame, id: Id, writer: Writer)

  /** A frame on the wire: forwarded from a position of a ring, in some quadrant, or sent by the gateway itself. */
  datatype Source = Forwarded(position: nat, quadrant: nat) | Own

  datatype WireItem = WireItem(frame: Frame, id: Id, vehicle: nat, source: Source)

  /**
   `position[v]` is how far v's gateway has read; `made[v]` counts the messages made in v.
   `heard` pairs a vehicle with a wire frame its gateway has taken from the wire. `unsent` and
   `refused` are history and record causes, not outcomes: ring positions read while one of the pools
   was empty, and wire frames heard while one was empty or that must be kept out.
   */
  datatype Net = Net(
    rings: seq<seq<RingItem>>,
    position: seq<nat>,
    made: seq<nat>,
    wire: seq<WireItem>,
    heard: set<(nat, nat)>,
    unsent: set<(nat, nat)>,
    refused: set<(nat, nat)>)

  /**
   When a gateway takes a frame, `found` says whether its interface found a buffer for it, and `room`
   whether the other interface's pool had one to forward it in.
   */
  datatype Event =
    | ComponentSends(v: nat, slot: nat, dst: Mac, packet: Packet)
    | GatewaySends(v: nat, dst: Mac, packet: Packet)
    | GatewayReads(v: nat, quadrant: nat, found: bool, room: bool)
    | GatewayHears(v: nat, k: nat, quadrant: nat, found: bool, room: bool)

  /** The wire address of each vehicle: none zero, no two equal. */
  ghost predicate ValidMacs(macs: seq<Mac>)
  {
    && (forall v :: 0 <= v < |macs| ==> macs[v] != INTERNAL)
    && (forall v, w :: 0 <= v < w < |macs| ==> macs[v] != macs[w])
  }

  function Init(n: nat): Net
  {
    Net(seq(n, _ => []), seq(n, _ => 0), seq(n, _ => 0), [], {}, {}, {})
  }

  ghost predicate Shaped(macs: seq<Mac>, s: Net)
  {
    |macs| == |s.rings| == |s.position| == |s.made|
  }

  /** Components send application data; only the gateway's clock protocol sends control packets. */
  ghost predicate Enabled(macs: seq<Mac>, s: Net, e: Event)
    requires Shaped(macs, s)
  {
    e.v < |macs|
    && match e
       case ComponentSends(_, slot, _, packet) =>
         0 < slot < SharedRing.MAX_COMPONENTS && packet.kind.Data? && Fits(packet)
       case GatewaySends(_, dst, packet) => dst != INTERNAL && Fits(packet)
       case GatewayReads(v, _, _, _) => s.position[v] < |s.rings[v]|
       case GatewayHears(v, k, _, _, _) => k < |s.wire| && (v, k) !in s.heard
  }

  /** Longer ones are refused a buffer. */
  predicate Fits(packet: Packet)
  {
    PACKET_HEADER + |packet.data| <= MTU
  }

  /** The buffer of a frame that came whole. */
  function AsBuffer(f: Frame): Buffer
  {
    Buffer(PACKET_HEADER + |f.packet.data|, f)
  }

  function ComponentSend(s: Net, v: nat, slot: nat, dst: Mac, packet: Packet): Net
    requires v < |s.rings| == |s.made|
  {
    var item := RingItem(Frame(dst, INTERNAL, PROTO, packet), Id(v, s.made[v]), Local(slot));
    s.(rings := s.rings[v := s.rings[v] + [item]], made := s.made[v := s.made[v] + 1])
  }

  function GatewaySend(macs: seq<Mac>, s: Net, v: nat, dst: Mac, packet: Packet): Net
    requires v < |macs| && v < |s.made|
  {
    s.(wire := s.wire + [WireItem(Frame(dst, macs[v], PROTO, packet), Id(v, s.made[v]), v, Own)],
       made := s.made[v := s.made[v] + 1])
  }

  /** The slot a ring item occupies, as far as a reader's test looks at it. */
  function SlotOf(item: RingItem): SharedRing.Slot
  {
    SharedRing.SlotFrom(if item.writer.Local? then item.writer.slot else SharedRing.GATEWAY_SLOT, [])
  }

  function GatewayRead(macs: seq<Mac>, s: Net, v: nat, quadrant: nat, found: bool, room: bool): Net
    requires v < |macs| && v < |s.rings| == |s.position| && s.position[v] < |s.rings[v]|
  {
    var at := s.position[v];
    var item := s.rings[v][at];
    var next := s.(position := s.position[v := at + 1],
                   unsent := if found && room then s.unsent else s.unsent + {(v, at)});
    if !found || !SharedRing.ShouldRead(SharedRing.GATEWAY_SLOT, SlotOf(item)) then next
    else
      var fx := FromRing(map[], AsBuffer(item.frame), if room then Some(macs[v]) else None, quadrant);
      if fx.toWire == [] then next
      else next.(wire := s.wire + [WireItem(fx.toWire[0], item.id, v, Forwarded(at, quadrant))])
  }

  /** The frames a gateway is to keep out of its ring: its own, those of another quadrant, and clock packets. */
  predicate KeptOut(f: Frame, own: Mac, quadrant: nat)
  {
    || f.src == own || !f.packet.kind.Data?
    || (quadrant != QUADRANT_NONE && f.packet.quadrant != QUADRANT_NONE && quadrant != f.packet.quadrant)
  }

  /** The buffer that the wire's receive handler passes up, if it does. */
  function PassedUp(macs: seq<Mac>, v: nat, f: Frame, quadrant: nat, found: bool): Option<Buffer>
    requires v < |macs|
  {
    if found then Accepted(true, f, ETHERNET_HEADER + AsBuffer(f).size, macs[v], quadrant) else None
  }

  function GatewayHear(macs: seq<Mac>, s: Net, v: nat, k: nat, quadrant: nat, found: bool, room: bool): Net
    requires v < |macs| && v < |s.rings| && k < |s.wire|
  {
    var item := s.wire[k];
    var up := PassedUp(macs, v, item.frame, quadrant, found);
    var fx := if up.None? then NOTHING else FromWire(map[], up.value, room);
    var next := s.(heard := s.heard + {(v, k)},
                   refused := if found && room && !KeptOut(item.frame, macs[v], quadrant) then s.refused
                              else s.refused + {(v, k)});
    if fx.toRing == [] then next
    else next.(rings := s.rings[v := s.rings[v] + [RingItem(fx.toRing[0], item.id, Injected(k, quadrant))]])
  }

  function Apply(macs: seq<Mac>, s: Net, e: Event): Net
    requires Shaped(macs, s) && Enabled(macs, s, e)
  {
    match e
    case ComponentSends(v, slot, dst, packet) => ComponentSend(s, v, slot, dst, packet)
    case GatewaySends(v, dst, packet) => GatewaySend(macs, s, v, dst, packet)
    case GatewayReads(v, quadrant, found, room) => GatewayRead(macs, s, v, quadrant, found, room)
    case GatewayHears(v, k, quadrant, found, room) => GatewayHear(macs, s, v, k, quadrant, found, room)
  }

  ghost function StepOf(macs: seq<Mac>): (Net, Event, Net) -> bool
  {
    (s, e, s') => Shaped(macs, s) && Enabled(macs, s, e) && s' == Apply(macs, s, e)
  }

  ghost predicate Reachable(macs: seq<Mac>, s: Net)
  {
    ValidMacs(macs) && exists es :: Run(StepOf(macs), Init(|macs|), es, s)
  }

  // ----- The invariant -----

  ghost predicate LocalItem(s: Net, v: nat, item: RingItem)
    requires v < |s.made|
  {
    && item.writer.Local? && item.writer.slot > 0
    && item.frame.src == INTERNAL && item.frame.packet.kind.Data?
    && item.id.vehicle == v && item.id.number < s.made[v]
  }

  ghost predicate InjectedItem(macs: seq<Mac>, s: Net, v: nat, item: RingItem)
    requires v < |macs|
  {
    && item.writer.Injected? && item.writer.heard < |s.wire|
    && var w := s.wire[item.writer.heard];
       && (v, item.writer.heard) in s.heard
       && item.frame == w.frame && item.id == w.id && !KeptOut(w.frame, macs[v], item.writer.quadrant)
  }

  ghost predicate RingInv(macs: seq<Mac>, s: Net)
    requires Shaped(macs, s)
  {
    && (forall v, p :: 0 <= v < |macs| && 0 <= p < |s.rings[v]| ==>
          LocalItem(s, v, s.rings[v][p]) || InjectedItem(macs, s, v, s.rings[v][p]))
    && (forall v, p, q :: 0 <= v < |macs| && 0 <= p < q < |s.rings[v]| ==>
          (s.rings[v][p].writer.Local? && s.rings[v][q].writer.Local? ==> s.rings[v][p].id != s.rings[v][q].id))
    && (forall v, p, q :: 0 <= v < |macs| && 0 <= p < q < |s.rings[v]| ==>
          (s.rings[v][p].writer.Injected? ==> !s.rings[v][q].writer.Of(s.rings[v][p].writer.heard)))
    && (forall v :: 0 <= v < |macs| ==> s.position[v] <= |s.rings[v]|)
  }

  /** A wire frame comes from its vehicle, with that vehicle's address and a message made there. */
  ghost predicate WireItemTrue(macs: seq<Mac>, s: Net, w: WireItem)
    requires Shaped(macs, s)
  {
    && w.vehicle < |macs| && w.frame.src == macs[w.vehicle] && w.frame.proto == PROTO
    && w.id.vehicle == w.vehicle && w.id.number < s.made[w.vehicle]
    && (w.source.Forwarded? ==>
          && w.source.position < s.position[w.vehicle] <= |s.rings[w.vehicle]|
          && var item := s.rings[w.vehicle][w.source.position];
             item.writer.Local? && item.id == w.id
             && w.frame == Frame(item.frame.dst, macs[w.vehicle], PROTO,
                                 item.frame.packet.(quadrant := w.source.quadrant)))
  }

  ghost predicate WireInv(macs: seq<Mac>, s: Net)
    requires Shaped(macs, s)
  {
    && (forall k :: 0 <= k < |s.wire| ==> WireItemTrue(macs, s, s.wire[k]))
    && (forall j, k :: 0 <= j < k < |s.wire| ==> s.wire[j].id != s.wire[k].id)
    && (forall k, v, p :: 0 <= k < |s.wire| && 0 <= v < |macs| && 0 <= p < |s.rings[v]| ==>
          (s.rings[v][p].writer.Local? && (s.wire[k].source.Own? || s.position[v] <= p) ==>
             s.wire[k].id != s.rings[v][p].id))
    && (forall vk :: vk in s.heard ==> vk.1 < |s.wire|)
  }

  /** Every local broadcast read with a buffer to send it in is on the wire; likewise inwards. */
  ghost predicate CompleteInv(macs: seq<Mac>, s: Net)
    requires Shaped(macs, s)
  {
    && (forall v, p :: 0 <= v < |macs| && 0 <= p < s.position[v] && p < |s.rings[v]| ==>
          (Broadcasts(s.rings[v][p]) ==> (v, p) in s.unsent || OnTheWire(s, s.rings[v][p].id)))
    && (forall v, k :: (v, k) in s.heard ==> v < |macs| && ((v, k) in s.refused || InTheRing(s, v, k)))
  }

  predicate Broadcasts(item: RingItem)
  {
    item.writer.Local? && item.frame.dst == BROADCAST
  }

  ghost predicate OnTheWire(s: Net, id: Id)
  {
    exists k :: 0 <= k < |s.wire| && s.wire[k].id == id
  }

  ghost predicate InTheRing(s: Net, v: nat, k: nat)
    requires v < |s.rings|
  {
    exists p :: 0 <= p < |s.rings[v]| && s.rings[v][p].writer.Of(k)
  }

  ghost predicate Inv(macs: seq<Mac>, s: Net)
  {
    Shaped(macs, s) && RingInv(macs, s) && WireInv(macs, s) && CompleteInv(macs, s)
  }

  lemma ComponentSendKeepsRings(macs: seq<Mac>, s: Net, v: nat, slot: nat, dst: Mac, packet: Packet)
    requires Shaped(macs, s) && RingInv(macs, s)
    requires Enabled(macs, s, ComponentSends(v, slot, dst, packet))
    ensures RingInv(macs, ComponentSend(s, v, slot, dst, packet))
  {
  }

  /** What is on the wire stays true, and the new message's number is none of theirs. */
  lemma ComponentSendKeepsWire(macs: seq<Mac>, s: Net, v: nat, slot: nat, dst: Mac, packet: Packet)
    requires Shaped(macs, s) && WireInv(macs, s)
    requires Enabled(macs, s, ComponentSends(v, slot, dst, packet))
    ensures WireInv(macs, ComponentSend(s, v, slot, dst, packet))
  {
    var s' := ComponentSend(s, v, slot, dst, packet);
    forall k | 0 <= k < |s.wire|
      ensures WireItemTrue(macs, s', s.wire[k]) && s.wire[k].id != Id(v, s.made[v])
    {
      assert WireItemTrue(macs, s, s.wire[k]);
    }
  }

  lemma GatewaySendKeepsRings(macs: seq<Mac>, s: Net, v: nat, dst: Mac, packet: Packet)
    requires Shaped(macs, s) && RingInv(macs, s)
    requires Enabled(macs, s, GatewaySends(v, dst, packet))
    ensures RingInv(macs, GatewaySend(macs, s, v, dst, packet))
  {
  }

  lemma GatewaySendKeepsWire(macs: seq<Mac>, s: Net, v: nat, dst: Mac, packet: Packet)
    requires Shaped(macs, s) && RingInv(macs, s) && WireInv(macs, s)
    requires Enabled(macs, s, GatewaySends(v, dst, packet))
    ensures WireInv(macs, GatewaySend(macs, s, v, dst, packet))
  {
    var s' := GatewaySend(macs, s, v, dst, packet);
    forall k | 0 <= k < |s.wire|
      ensures WireItemTrue(macs, s', s.wire[k]) && s.wire[k].id != Id(v, s.made[v])
    {
      assert WireItemTrue(macs, s, s.wire[k]);
    }
    forall x, p | 0 <= x < |macs| && 0 <= p < |s.rings[x]| && s.rings[x][p].writer.Local?
      ensures s.rings[x][p].id != Id(v, s.made[v])
    {
      assert LocalItem(s, x, s.rings[x][p]) || InjectedItem(macs, s, x, s.rings[x][p]);
    }
  }

  lemma GatewayReadKeepsRings(macs: seq<Mac>, s: Net, v: nat, quadrant: nat, found: bool, room: bool)
    requires Shaped(macs, s) && RingInv(macs, s)
    requires Enabled(macs, s, GatewayReads(v, quadrant, found, room))
    ensures RingInv(macs, GatewayRead(macs, s, v, quadrant, found, room))
  {
  }

  /** Putting a local item on the wire, as its position is passed. */
  lemma ForwardKeepsWire(macs: seq<Mac>, s: Net, v: nat, w: WireItem)
    requires ValidMacs(macs) && Shaped(macs, s) && RingInv(macs, s) && WireInv(macs, s)
    requires v < |macs| && s.position[v] < |s.rings[v]| && s.rings[v][s.position[v]].writer.Local?
    requires w.id == s.rings[v][s.position[v]].id && w.vehicle == v
    requires w.source.Forwarded? && w.source.position == s.position[v]
    requires
      var f := s.rings[v][s.position[v]].frame;
      w.frame == Frame(f.dst, macs[v], PROTO, f.packet.(quadrant := w.source.quadrant))
    ensures WireInv(macs, s.(position := s.position[v := s.position[v] + 1], wire := s.wire + [w]))
  {
    var s' := s.(position := s.position[v := s.position[v] + 1], wire := s.wire + [w]);
    var item := s.rings[v][s.position[v]];
    assert LocalItem(s, v, item) || InjectedItem(macs, s, v, item);
    assert WireItemTrue(macs, s', w);
    forall k | 0 <= k < |s.wire|
      ensures WireItemTrue(macs, s', s'.wire[k]) && s'.wire[k].id != item.id
    {
      assert WireItemTrue(macs, s, s.wire[k]);
    }
  }

  lemma PassKeepsWire(macs: seq<Mac>, s: Net, v: nat, unsent: set<(nat, nat)>)
    requires Shaped(macs, s) && WireInv(macs, s)
    requires v < |macs| && s.position[v] < |s.rings[v]|
    ensures WireInv(macs, s.(position := s.position[v := s.position[v] + 1], unsent := unsent))
  {
    var s' := s.(position := s.position[v := s.position[v] + 1], unsent := unsent);
    forall k | 0 <= k < |s.wire|
      ensures WireItemTrue(macs, s', s'.wire[k])
    {
      assert WireItemTrue(macs, s, s.wire[k]);
    }
  }

  lemma GatewayReadKeepsWire(macs: seq<Mac>, s: Net, v: nat, quadrant: nat, found: bool, room: bool)
    requires ValidMacs(macs) && Shaped(macs, s) && RingInv(macs, s) && WireInv(macs, s)
    requires Enabled(macs, s, GatewayReads(v, quadrant, found, room))
    ensures WireInv(macs, GatewayRead(macs, s, v, quadrant, found, room))
  {
    var s' := GatewayRead(macs, s, v, quadrant, found, room);
    OnlyLocalIsForwarded(macs, s, v, s.position[v]);
    if s'.wire == s.wire {
      PassKeepsWire(macs, s, v, s'.unsent);
    } else {
      ForwardKeepsWire(macs, s, v, s'.wire[|s.wire|]);
    }
  }

  /** The source address tells a gateway its own components' frames from the ones it injected itself. */
  lemma OnlyLocalIsForwarded(macs: seq<Mac>, s: Net, v: nat, p: nat)
    requires ValidMacs(macs) && Shaped(macs, s) && RingInv(macs, s) && WireInv(macs, s)
    requires v < |macs| && p < |s.rings[v]|
    ensures Forwards(s.rings[v][p].frame) <==> Broadcasts(s.rings[v][p])
    ensures s.rings[v][p].writer.Injected? ==> s.rings[v][p].frame.src != INTERNAL
  {
    var item := s.rings[v][p];
    assert LocalItem(s, v, item) || InjectedItem(macs, s, v, item);
    if item.writer.Injected? {
      assert WireItemTrue(macs, s, s.wire[item.writer.heard]);
    }
  }

  lemma GatewayHearKeepsRings(macs: seq<Mac>, s: Net, v: nat, k: nat, quadrant: nat, found: bool, room: bool)
    requires ValidMacs(macs) && Shaped(macs, s) && RingInv(macs, s)
    requires Enabled(macs, s, GatewayHears(v, k, quadrant, found, room))
    ensures RingInv(macs, GatewayHear(macs, s, v, k, quadrant, found, room))
  {
  }

  lemma GatewayHearKeepsWire(macs: seq<Mac>, s: Net, v: nat, k: nat, quadrant: nat, found: bool, room: bool)
    requires ValidMacs(macs) && Shaped(macs, s) && WireInv(macs, s)
    requires Enabled(macs, s, GatewayHears(v, k, quadrant, found, room))
    requires s.position[v] <= |s.rings[v]|
    ensures WireInv(macs, GatewayHear(macs, s, v, k, quadrant, found, room))
  {
  }

  /** What is on the wire, in a ring, unsent or refused stays so. */
  ghost predicate Grows(s: Net, s': Net)
  {
    && |s'.rings| == |s.rings| && s.wire <= s'.wire && s.unsent <= s'.unsent && s.refused <= s'.refused
    && (forall v :: 0 <= v < |s.rings| ==> s.rings[v] <= s'.rings[v])
  }

  lemma StillThere(s: Net, s': Net, id: Id, v: nat, k: nat)
    requires Grows(s, s') && v < |s.rings|
    ensures OnTheWire(s, id) ==> OnTheWire(s', id)
    ensures InTheRing(s, v, k) ==> InTheRing(s', v, k)
  {
    if OnTheWire(s, id) {
      var j :| 0 <= j < |s.wire| && s.wire[j].id == id;
      assert s'.wire[j] == s.wire[j];
    }
    if InTheRing(s, v, k) {
      var p :| 0 <= p < |s.rings[v]| && s.rings[v][p].writer.Of(k);
      assert s'.rings[v][p] == s.rings[v][p];
    }
  }

  lemma StepGrows(macs: seq<Mac>, s: Net, e: Event)
    requires Shaped(macs, s) && Enabled(macs, s, e)
    ensures Grows(s, Apply(macs, s, e)) && Shaped(macs, Apply(macs, s, e))
  {
  }

  lemma StepKeepsComplete(macs: seq<Mac>, s: Net, e: Event)
    requires ValidMacs(macs) && Inv(macs, s) && Enabled(macs, s, e)
    ensures CompleteInv(macs, Apply(macs, s, e))
  {
    var s' := Apply(macs, s, e);
    StepGrows(macs, s, e);
    forall v, p | 0 <= v < |macs| && 0 <= p < s'.position[v] && p < |s'.rings[v]| && Broadcasts(s'.rings[v][p])
      ensures (v, p) in s'.unsent || OnTheWire(s', s'.rings[v][p].id)
    {
      if p < s.position[v] {
        assert s'.rings[v][p] == s.rings[v][p];
        StillThere(s, s', s.rings[v][p].id, v, 0);
      } else {
        NewlyRead(macs, s, e, v, p);
      }
    }
    forall v, k | (v, k) in s'.heard
      ensures v < |macs| && ((v, k) in s'.refused || InTheRing(s', v, k))
    {
      if (v, k) in s.heard {
        StillThere(s, s', Id(0, 0), v, k);
      } else {
        NewlyHeard(macs, s, e, v, k);
      }
    }
  }

  lemma NewlyRead(macs: seq<Mac>, s: Net, e: Event, v: nat, p: nat)
    requires ValidMacs(macs) && Inv(macs, s) && Enabled(macs, s, e) && v < |macs|
    requires s.position[v] <= p < Apply(macs, s, e).position[v] && p < |s.rings[v]| && Broadcasts(s.rings[v][p])
    ensures (v, p) in Apply(macs, s, e).unsent || OnTheWire(Apply(macs, s, e), s.rings[v][p].id)
  {
    var s' := Apply(macs, s, e);
    assert e.GatewayReads? && e.v == v && p == s.position[v];
    var item := s.rings[v][p];
    assert LocalItem(s, v, item) || InjectedItem(macs, s, v, item);
    if |s'.wire| > |s.wire| {
      assert s'.wire[|s.wire|].id == item.id;
    }
  }

  lemma NewlyHeard(macs: seq<Mac>, s: Net, e: Event, v: nat, k: nat)
    requires Inv(macs, s) && Enabled(macs, s, e)
    requires (v, k) in Apply(macs, s, e).heard && (v, k) !in s.heard
    ensures v < |macs| && ((v, k) in Apply(macs, s, e).refused || InTheRing(Apply(macs, s, e), v, k))
  {
    var s' := Apply(macs, s, e);
    assert e.GatewayHears? && e.v == v && e.k == k;
    if |s'.rings[v]| > |s.rings[v]| {
      assert s'.rings[v][|s.rings[v]|].writer.Of(k);
    }
  }

  lemma StepKeepsInv(macs: seq<Mac>, s: Net, e: Event)
    requires ValidMacs(macs) && Inv(macs, s) && Enabled(macs, s, e)
    ensures Inv(macs, Apply(macs, s, e))
  {
    StepKeepsComplete(macs, s, e);
    match e
    case ComponentSends(v, slot, dst, packet) =>
      ComponentSendKeepsRings(macs, s, v, slot, dst, packet);
      ComponentSendKeepsWire(macs, s, v, slot, dst, packet);
    case GatewaySends(v, dst, packet) =>
      GatewaySendKeepsRings(macs, s, v, dst, packet);
      GatewaySendKeepsWire(macs, s, v, dst, packet);
    case GatewayReads(v, quadrant, found, room) =>
      GatewayReadKeepsRings(macs, s, v, quadrant, found, room);
      GatewayReadKeepsWire(macs, s, v, quadrant, found, room);
    case GatewayHears(v, k, quadrant, found, room) =>
      GatewayHearKeepsRings(macs, s, v, k, quadrant, found, room);
      GatewayHearKeepsWire(macs, s, v, k, quadrant, found, room);
  }

  lemma InitInv(macs: seq<Mac>)
    ensures Inv(macs, Init(|macs|))
  {
  }

  lemma ReachableInv(macs: seq<Mac>, s: Net)
    requires Reachable(macs, s)
    ensures Inv(macs, s)
  {
    var es :| Run(StepOf(macs), Init(|macs|), es, s);
    InitInv(macs);
    var inv := t => Inv(macs, t);
    forall t, e, t' | inv(t) && StepOf(macs)(t, e, t')
      ensures inv(t')
    {
      StepKeepsInv(macs, t, e);
    }
    Keeps(StepOf(macs), inv, Init(|macs|), es, s);
  }

  // ----- Main results -----

  /** No message is ever on the wire twice. */
  lemma OnTheWireAtMostOnce(macs: seq<Mac>, s: Net, j: nat, k: nat)
    requires Reachable(macs, s) && j < |s.wire| && k < |s.wire| && s.wire[j].id == s.wire[k].id
    ensures j == k
  {
    ReachableInv(macs, s);
  }

  /** No message is ever in one vehicle's ring twice. */
  lemma InEachRingAtMostOnce(macs: seq<Mac>, s: Net, v: nat, p: nat, q: nat)
    requires Reachable(macs, s) && v < |macs| && Shaped(macs, s)
    requires p < |s.rings[v]| && q < |s.rings[v]| && s.rings[v][p].id == s.rings[v][q].id
    ensures p == q
  {
    ReachableInv(macs, s);
    RingIdsUnique(macs, s, v, p, q);
  }

  lemma RingIdsUnique(macs: seq<Mac>, s: Net, v: nat, p: nat, q: nat)
    requires Inv(macs, s) && v < |macs|
    requires p < |s.rings[v]| && q < |s.rings[v]| && s.rings[v][p].id == s.rings[v][q].id
    ensures p == q
  {
    var x, y := s.rings[v][p], s.rings[v][q];
    assert LocalItem(s, v, x) || InjectedItem(macs, s, v, x);
    assert LocalItem(s, v, y) || InjectedItem(macs, s, v, y);
    if x.writer.Injected? {
      assert WireItemTrue(macs, s, s.wire[x.writer.heard]);
    }
    if y.writer.Injected? {
      assert WireItemTrue(macs, s, s.wire[y.writer.heard]);
    }
  }

  /** Clock packets never get from the wire into a ring. */
  lemma ControlStaysOffTheRings(macs: seq<Mac>, s: Net, v: nat, p: nat)
    requires Reachable(macs, s) && Shaped(macs, s) && v < |macs| && p < |s.rings[v]|
    ensures s.rings[v][p].frame.packet.kind.Data?
  {
    ReachableInv(macs, s);
    var item := s.rings[v][p];
    assert LocalItem(s, v, item) || InjectedItem(macs, s, v, item);
  }

  /** What a gateway injected came from another vehicle, of its own quadrant then, unless one was unknown. */
  lemma InjectedFromThisQuadrant(macs: seq<Mac>, s: Net, v: nat, p: nat)
    requires Reachable(macs, s) && Shaped(macs, s) && v < |macs| && p < |s.rings[v]|
    requires s.rings[v][p].writer.Injected?
    ensures
      var f, here := s.rings[v][p].frame, s.rings[v][p].writer.quadrant;
      && f.src != macs[v]
      && (here == QUADRANT_NONE || f.packet.quadrant == QUADRANT_NONE || here == f.packet.quadrant)
  {
    ReachableInv(macs, s);
    assert LocalItem(s, v, s.rings[v][p]) || InjectedItem(macs, s, v, s.rings[v][p]);
  }

  /** A gateway reads back the frames it injected, yet none goes on the wire: the source address alone sees to it. */
  lemma InjectedFramesStayOffTheWire(macs: seq<Mac>, s: Net, v: nat, quadrant: nat, found: bool, room: bool)
    requires Reachable(macs, s) && Shaped(macs, s) && v < |macs| && s.position[v] < |s.rings[v]|
    requires s.rings[v][s.position[v]].writer.Injected?
    ensures SharedRing.ShouldRead(SharedRing.GATEWAY_SLOT, SlotOf(s.rings[v][s.position[v]]))
    ensures GatewayRead(macs, s, v, quadrant, found, room).wire == s.wire
  {
    ReachableInv(macs, s);
    OnlyLocalIsForwarded(macs, s, v, s.position[v]);
  }

  /** What component `slot` of a vehicle has read when it has passed the whole ring: all but its own frames. */
  function ReadBy(slot: nat, ring: seq<RingItem>): seq<Id>
  {
    if ring == [] then []
    else
      var last := ring[|ring| - 1];
      ReadBy(slot, ring[..|ring| - 1]) + (if SharedRing.ShouldRead(slot, SlotOf(last)) then [last.id] else [])
  }

  ghost predicate DistinctIds(ring: seq<RingItem>)
  {
    forall p, q :: 0 <= p < q < |ring| ==> ring[p].id != ring[q].id
  }

  predicate ReadsAt(slot: nat, ring: seq<RingItem>, p: nat, id: Id)
  {
    p < |ring| && ring[p].id == id && SharedRing.ShouldRead(slot, SlotOf(ring[p]))
  }

  /** A component reads exactly the messages of the ring that are not its own. */
  lemma {:induction false} ReadExactly(slot: nat, ring: seq<RingItem>, id: Id)
    ensures id in ReadBy(slot, ring) <==> exists p: nat :: ReadsAt(slot, ring, p, id)
  {
    if ring != [] {
      var init, last := ring[..|ring| - 1], |ring| - 1;
      ReadExactly(slot, init, id);
      forall p: nat
        ensures ReadsAt(slot, ring, p, id)
                <==> ReadsAt(slot, init, p, id) || (p == last && ReadsAt(slot, ring, last, id))
      {
        assert p < last ==> init[p] == ring[p];
      }
      assert id in ReadBy(slot, ring) <==> id in ReadBy(slot, init) || ReadsAt(slot, ring, last, id);
    }
  }

  lemma {:induction false} ReadDistinct(slot: nat, ring: seq<RingItem>)
    requires DistinctIds(ring)
    ensures forall a, b :: 0 <= a < b < |ReadBy(slot, ring)| ==> ReadBy(slot, ring)[a] != ReadBy(slot, ring)[b]
  {
    if ring != [] {
      var init, last := ring[..|ring| - 1], ring[|ring| - 1];
      ReadDistinct(slot, init);
      ReadExactly(slot, init, last.id);
      assert last.id !in ReadBy(slot, init);
    }
  }

  lemma RingIdsDistinct(macs: seq<Mac>, s: Net, v: nat)
    requires Reachable(macs, s) && Shaped(macs, s) && v < |macs|
    ensures DistinctIds(s.rings[v])
  {
    forall p, q | 0 <= p < q < |s.rings[v]|
      ensures s.rings[v][p].id != s.rings[v][q].id
    {
      if s.rings[v][p].id == s.rings[v][q].id {
        InEachRingAtMostOnce(macs, s, v, p, q);
      }
    }
  }

  /** No component anywhere is handed a message twice. */
  lemma ReadAtMostOnce(macs: seq<Mac>, s: Net, v: nat, slot: nat, a: nat, b: nat)
    requires Reachable(macs, s) && Shaped(macs, s) && v < |macs|
    requires a < |ReadBy(slot, s.rings[v])| && b < |ReadBy(slot, s.rings[v])|
    requires ReadBy(slot, s.rings[v])[a] == ReadBy(slot, s.rings[v])[b]
    ensures a == b
  {
    RingIdsDistinct(macs, s, v);
    ReadDistinct(slot, s.rings[v]);
  }

  /** Within a vehicle, every component but the writer reads a message of the ring. */
  lemma EveryOtherComponentReads(macs: seq<Mac>, s: Net, v: nat, p: nat, slot: nat)
    requires Reachable(macs, s) && Shaped(macs, s) && v < |macs| && p < |s.rings[v]|
    requires 0 < slot < SharedRing.MAX_COMPONENTS
    ensures s.rings[v][p].id in ReadBy(slot, s.rings[v]) <==> s.rings[v][p].writer != Local(slot)
  {
    ReachableInv(macs, s);
    RingIdsDistinct(macs, s, v);
    ReadExactly(slot, s.rings[v], s.rings[v][p].id);
    var item := s.rings[v][p];
    assert LocalItem(s, v, item) || InjectedItem(macs, s, v, item);
    assert item.writer != Local(slot) ==> ReadsAt(slot, s.rings[v], p, item.id);
    if item.id in ReadBy(slot, s.rings[v]) {
      var q: nat :| ReadsAt(slot, s.rings[v], q, item.id);
      assert q == p;
    }
  }

  /**
   Nor is it lost but where a pool was full, the wire lost it or a filter took it: a broadcast its
   gateway has read with room to send is on the wire, and a vehicle that heard it with room, and was
   not to keep it out, has it in its ring, its packet unchanged but for the quadrant stamp, for all
   components to read.
   */
  lemma BroadcastArrivesOnce(macs: seq<Mac>, s: Net, v: nat, p: nat, x: nat) returns (k: nat)
    requires Reachable(macs, s) && Shaped(macs, s) && v < |macs| && x < |macs|
    requires p < s.position[v] && p < |s.rings[v]| && Broadcasts(s.rings[v][p]) && (v, p) !in s.unsent
    ensures k < |s.wire| && s.wire[k].id == s.rings[v][p].id
    ensures (x, k) in s.heard && (x, k) !in s.refused ==>
              exists q :: 0 <= q < |s.rings[x]| && s.rings[x][q].id == s.rings[v][p].id
                          && SameMessage(macs, v, s.rings[v][p].frame, s.rings[x][q].frame)
    ensures (x, k) in s.heard && (x, k) !in s.refused ==>
              forall slot :: 0 < slot < SharedRing.MAX_COMPONENTS ==> s.rings[v][p].id in ReadBy(slot, s.rings[x])
  {
    ReachableInv(macs, s);
    var item := s.rings[v][p];
    assert OnTheWire(s, item.id);
    k :| 0 <= k < |s.wire| && s.wire[k].id == item.id;
    if (x, k) in s.heard && (x, k) !in s.refused {
      assert InTheRing(s, x, k);
      var q :| 0 <= q < |s.rings[x]| && s.rings[x][q].writer.Of(k);
      assert InjectedItem(macs, s, x, s.rings[x][q]);
      ForwardedFaithfully(macs, s, v, p, k);
      forall slot | 0 < slot < SharedRing.MAX_COMPONENTS
        ensures item.id in ReadBy(slot, s.rings[x])
      {
        EveryOtherComponentReads(macs, s, x, q, slot);
      }
    }
  }

  /** g carries what component frame f of vehicle v carries, under the vehicle's address and a quadrant. */
  predicate SameMessage(macs: seq<Mac>, v: nat, f: Frame, g: Frame)
    requires v < |macs|
  {
    && g.src == macs[v] && g.dst == f.dst && g.proto == PROTO
    && g.packet == Packet(f.packet.timestamp, f.packet.srcPort, f.packet.dstPort, g.packet.quadrant, f.packet.kind,
                          f.packet.data)
  }

  lemma ForwardedFaithfully(macs: seq<Mac>, s: Net, v: nat, p: nat, k: nat)
    requires Inv(macs, s) && v < |macs| && p < |s.rings[v]| && s.rings[v][p].writer.Local?
    requires k < |s.wire| && s.wire[k].id == s.rings[v][p].id
    ensures SameMessage(macs, v, s.rings[v][p].frame, s.wire[k].frame)
    ensures s.wire[k].source.Forwarded? && s.wire[k].frame.packet.quadrant == s.wire[k].source.quadrant
  {
    assert WireItemTrue(macs, s, s.wire[k]);
    assert LocalItem(s, v, s.rings[v][p]) || InjectedItem(macs, s, v, s.rings[v][p]);
  }

  /** A frame forwarded from a ring carries the quadrant its vehicle was in when it was forwarded. */
  lemma ForwardedCarriesItsQuadrant(macs: seq<Mac>, s: Net, k: nat)
    requires Reachable(macs, s) && k < |s.wire| && s.wire[k].source.Forwarded?
    ensures s.wire[k].frame.packet.quadrant == s.wire[k].source.quadrant
  {
    ReachableInv(macs, s);
    assert WireItemTrue(macs, s, s.wire[k]);
  }

  /**
   From one application to another: of a message that reached another vehicle's ring, the observers of
   its port there get the sender's data, time stamp and port, under the sending vehicle's address.
   */
  lemma MessageArrives(macs: seq<Mac>, s: Net, v: nat, p: nat, x: nat, q: nat, watch: map<nat, Watch>)
    requires Reachable(macs, s) && Shaped(macs, s) && v < |macs| && x < |macs|
    requires p < |s.rings[v]| && s.rings[v][p].writer.Local?
    requires q < |s.rings[x]| && s.rings[x][q].writer.Injected? && s.rings[x][q].id == s.rings[v][p].id
    requires 0 < |s.rings[v][p].frame.packet.data| <= 1400
    requires
      var port := s.rings[v][p].frame.packet.dstPort;
      port in watch && watch[port].Unmarshals?
    ensures
      var sent, got := s.rings[v][p].frame.packet, s.rings[x][q].frame;
      FromRing(watch, AsBuffer(got), None, QUADRANT_NONE).messages
      == [Message(Address(macs[v], sent.srcPort), sent.timestamp, got.packet.quadrant, sent.data)]
  {
    ReachableInv(macs, s);
    assert LocalItem(s, x, s.rings[x][q]) || InjectedItem(macs, s, x, s.rings[x][q]);
    ForwardedFaithfully(macs, s, v, p, s.rings[x][q].writer.heard);
  }
}
