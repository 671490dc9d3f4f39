/**
 One process's stack: the ring interface, in a gateway process also the wire interface, the
 protocol that routes between them, and the communicator's queue. Which buffer is whose after
 every path, and what each path sends where.
 */
module Gateway {
  import opened Common
  import opened Addresses
  import opened NetworkInterface

  const FRAME_BYTES: nat := ETHERNET_HEADER + MTU
  const MESSAGE_MAX: nat := 1400

  /** A buffer named by the pool it belongs to. */
  datatype BufRef = BufRef(onWire: bool, index: nat)

  /** How the one communicator on a port takes a buffer: as it is, or as a message for its observers. */
  datatype Watch = Queues | Unmarshals

  datatype Message = Message(from: Address, timestamp: int, quadrant: nat, data: seq<Byte>)

  /** What handling one frame put on the wire, into the ring, to the clock protocol, and to the application. */
  datatype Effects = Effects(toWire: seq<Frame>, toRing: seq<Frame>, control: seq<Frame>, messages: seq<Message>)

  const NOTHING := Effects([], [], [], [])

  predicate IsControl(f: Frame)
  {
    f.packet.kind.SptpSync? || f.packet.kind.SptpRequestSync?
  }

  /** The wire engine's filter: our own frames, and frames of another quadrant. */
  predicate ShouldDrop(f: Frame, own: Mac, quadrant: nat)
  {
    || f.src == own
    || (quadrant != QUADRANT_NONE && f.packet.quadrant != QUADRANT_NONE && quadrant != f.packet.quadrant)
  }

  /** The gateway's test on a frame read from the ring. */
  predicate Forwards(f: Frame)
  {
    f.src == INTERNAL && f.dst == BROADCAST
  }

  /** A ring frame as it goes on the wire. */
  function OnWire(f: Frame, own: Mac, quadrant: nat): Frame
  {
    Frame(f.dst, own, PROTO, f.packet.(quadrant := quadrant))
  }

  function Prefix(s: seq<Byte>, n: nat): seq<Byte>
  {
    if |s| <= n then s else s[..n]
  }

  /** The message in a buffer, its data cut to the receiver's capacity. */
  function Unmarshalled(b: Buffer, capacity: nat): Message
    requires b.size >= PACKET_HEADER
  {
    var n := b.size - PACKET_HEADER;
    Message(Address(b.frame.src, b.frame.packet.srcPort), b.frame.packet.timestamp, b.frame.packet.quadrant,
            Prefix(b.frame.packet.data, if n > capacity then capacity else n))
  }

  /** What the observers of a port get of a buffer, if they take messages: an empty message is discarded. */
  function Notified(watch: map<nat, Watch>, b: Buffer): seq<Message>
    requires b.size >= PACKET_HEADER
  {
    var port := b.frame.packet.dstPort;
    if port in watch && watch[port].Unmarshals? && b.size > PACKET_HEADER then [Unmarshalled(b, MESSAGE_MAX)] else []
  }

  /** What `update` does with a buffer from the wire, given whether the ring's pool has room. */
  function FromWire(watch: map<nat, Watch>, b: Buffer, room: bool): Effects
  {
    if b.size < PACKET_HEADER then NOTHING
    else if IsControl(b.frame) then NOTHING.(control := [b.frame])
    else Effects([], if room then [b.frame] else [], [], Notified(watch, b))
  }

  /** What `update` does with a buffer from the ring; `out` is the wire's address if its pool has room. */
  function FromRing(watch: map<nat, Watch>, b: Buffer, out: Option<Mac>, quadrant: nat): Effects
  {
    if b.size < PACKET_HEADER then NOTHING
    else Effects(if out.Some? && Forwards(b.frame) then [OnWire(b.frame, out.value, quadrant)] else [],
                 [], [], Notified(watch, b))
  }

  /**
   The observers of a frame's destination port, if they take messages, get what the frame's sender sent,
   under its address and port, cut to the longest message; an empty message they do not get.
   */
  lemma ObserversGetWhatWasSent(watch: map<nat, Watch>, f: Frame)
    ensures
      var b, sent := Buffer(PACKET_HEADER + |f.packet.data|, f), f.packet;
      Notified(watch, b) ==
      if sent.dstPort in watch && watch[sent.dstPort].Unmarshals? && sent.data != []
      then [Message(Address(f.src, sent.srcPort), sent.timestamp, sent.quadrant,
                    if |sent.data| <= 1400 then sent.data else sent.data[..1400])]
      else []
  {
  }

  /** What is read out of a buffer: the fields of its frame, and no more data than either side has room for. */
  lemma ReadOutOfBuffer(b: Buffer, capacity: nat)
    requires b.size >= PACKET_HEADER
    ensures
      var m, f := Unmarshalled(b, capacity), b.frame;
      && m.from == Address(f.src, f.packet.srcPort) && m.timestamp == f.packet.timestamp
      && m.quadrant == f.packet.quadrant && m.data <= f.packet.data
      && |m.data| <= capacity && |m.data| <= b.size - PACKET_HEADER
      && (m.data == f.packet.data || |m.data| == capacity || |m.data| == b.size - PACKET_HEADER)
  {
  }

  /**
   Which frames the receive handler passes up: whole headers of our protocol, and from the wire only
   another's, of our quadrant unless one of the two is unknown. It passes up the frame itself.
   */
  lemma PassesUp(onWire: bool, f: Frame, bytes: nat, own: Mac, quadrant: nat)
    ensures Accepted(onWire, f, bytes, own, quadrant).Some? <==>
              && bytes >= 14 && f.proto == 0x8888
              && (onWire ==>
                    f.src != own && (quadrant == 0xff || f.packet.quadrant == 0xff || quadrant == f.packet.quadrant))
    ensures
      var up := Accepted(onWire, f, bytes, own, quadrant);
      up.Some? ==> up.value.frame == f && up.value.size == (if bytes <= 1514 then bytes - 14 else 1500)
  {
  }

  /** The port's communicator takes buffers as they are. */
  predicate TakenAsIs(watch: map<nat, Watch>, b: Buffer)
  {
    b.frame.packet.dstPort in watch && watch[b.frame.packet.dstPort].Queues?
  }

  /** The buffer outlives `update`, in the queue of a communicator that takes buffers as they are. */
  predicate Queued(watch: map<nat, Watch>, onWire: bool, b: Buffer)
  {
    b.size >= PACKET_HEADER && !(onWire && IsControl(b.frame)) && TakenAsIs(watch, b)
  }

  /** What the receive handler makes of a frame of that many bytes: the buffer it passes up, if it does. */
  function Accepted(onWire: bool, f: Frame, bytes: nat, own: Mac, quadrant: nat): Option<Buffer>
  {
    if bytes < ETHERNET_HEADER || (onWire && ShouldDrop(f, own, quadrant)) || f.proto != PROTO then None
    else Some(Buffer((if bytes > FRAME_BYTES then FRAME_BYTES else bytes) - ETHERNET_HEADER, f))
  }

  class Protocol {
    const ring: Nic
    const wire: Nic?
    const watch: map<nat, Watch>
    var queue: seq<BufRef>

    ghost function Footprint(): set<object>
      reads this
    {
      {this, ring, ring.buffers} + if wire == null then {} else {wire, wire.buffers}
    }

    ghost predicate Valid()
      reads this, Footprint()
    {
      && ring.Valid() && ring.address == INTERNAL
      && (wire != null ==> wire.Valid() && wire != ring && wire.buffers != ring.buffers)
      && (forall b :: b in queue ==> b in AllOut())
      && (forall i, j :: 0 <= i < j < |queue| ==> queue[i] != queue[j])
    }

    /** Every buffer of either pool that is not on a free list. */
    ghost function AllOut(): set<BufRef>
      reads this, ring, wire
    {
      (set i | i in ring.Out() :: BufRef(false, i)) + WireOut()
    }

    ghost function WireOut(): set<BufRef>
      reads this, wire
    {
      if wire == null then {} else set i | i in wire.Out() :: BufRef(true, i)
    }

    /** The buffers in some thread's hands: neither free nor queued. */
    ghost function Hands(): set<BufRef>
      reads this, ring, wire
    {
      set b | b in AllOut() && b !in queue
    }

    ghost function At(b: BufRef): Buffer
      reads Footprint()
      requires Valid() && b in AllOut()
    {
      if b.onWire then wire.buffers[b.index] else ring.buffers[b.index]
    }

    /** A vehicle's component process has no wire; its gateway process has one. */
    constructor (ring: Nic, wire: Nic?, watch: map<nat, Watch>)
      requires ring.Valid() && ring.address == INTERNAL && ring.Out() == {}
      requires wire != null ==> wire.Valid() && wire != ring && wire.buffers != ring.buffers && wire.Out() == {}
      ensures Valid() && this.ring == ring && this.wire == wire && this.watch == watch
      ensures queue == [] && Hands() == {}
    {
      this.ring, this.wire, this.watch := ring, wire, watch;
      queue := [];
    }

    /** Each buffer goes back to the pool it came from. */
    method FreeBuffer(b: BufRef)
      requires Valid() && b in Hands()
      modifies ring`freeList, if wire == null then {} else {wire}
      ensures Valid() && queue == old(queue)
      ensures Hands() == old(Hands()) - {b}
    {
      if b.onWire {
        wire.Free(b.index);
      } else {
        ring.Free(b.index);
      }
    }

    /** `receive`: a message out of a buffer, which is freed on every path. */
    method Receive(b: BufRef, capacity: nat) returns (o: Option<Message>)
      requires Valid() && b in Hands()
      modifies ring`freeList, if wire == null then {} else {wire}
      ensures Valid() && queue == old(queue) && Hands() == old(Hands()) - {b}
      ensures o == if old(At(b)).size < PACKET_HEADER then None else Some(Unmarshalled(old(At(b)), capacity))
    {
      var buffer := if b.onWire then wire.buffers[b.index] else ring.buffers[b.index];
      o := if buffer.size < PACKET_HEADER then None else Some(Unmarshalled(buffer, capacity));
      FreeBuffer(b);
    }

    /** The notification of a port: false leaves the buffer in the caller's hands, true takes it from them. */
    method Notify(b: BufRef) returns (notified: bool, messages: seq<Message>)
      requires Valid() && b in Hands() && At(b).size >= PACKET_HEADER
      modifies this`queue, ring`freeList, if wire == null then {} else {wire}
      ensures Valid()
      ensures notified == (old(At(b)).frame.packet.dstPort in watch)
      ensures Hands() == if notified then old(Hands()) - {b} else old(Hands())
      ensures messages == Notified(watch, old(At(b)))
      ensures queue == if TakenAsIs(watch, old(At(b))) then old(queue) + [b] else old(queue)
    {
      var buffer := if b.onWire then wire.buffers[b.index] else ring.buffers[b.index];
      var port := buffer.frame.packet.dstPort;
      if port !in watch {
        return false, [];
      }
      notified := true;
      match watch[port]
      case Queues =>
        queue := queue + [b];
        messages := [];
      case Unmarshals =>
        var m := Receive(b, MESSAGE_MAX);
        messages := if buffer.size > PACKET_HEADER then [m.value] else [];
    }

    /** The legacy consumer: the oldest queued buffer, freed whatever it holds. */
    method AppReceive(capacity: nat) returns (o: Option<Message>)
      requires Valid() && queue != []
      modifies this`queue, ring`freeList, if wire == null then {} else {wire}
      ensures Valid() && queue == old(queue)[1..] && Hands() == old(Hands())
      ensures o == if old(At(queue[0])).size < PACKET_HEADER then None
                   else Some(Unmarshalled(old(At(queue[0])), capacity))
    {
      var b := queue[0];
      queue := queue[1..];
      assert old(queue) == [b] + queue;
      assert Hands() == old(Hands()) + {b};
      o := Receive(b, capacity);
    }

    /** The forwarding of a ring frame to the wire: the ring's buffer stays in hand, the wire's does not. */
    method ForwardToWire(b: BufRef, quadrant: nat, engine: int) returns (sent: seq<Frame>)
      requires Valid() && wire != null && b in Hands() && !b.onWire
      modifies wire, wire.buffers
      ensures Valid() && Hands() == old(Hands()) && ring.buffers[..] == old(ring.buffers[..])
      ensures sent == if old(wire.freeList) != [] && At(b).size <= MTU && Forwards(At(b).frame)
                      then [OnWire(At(b).frame, wire.address, quadrant)] else []
    {
      sent := [];
      var buffer := ring.buffers[b.index];
      if buffer.frame.src == ring.address && buffer.frame.dst == BROADCAST {
        var o := wire.Alloc(buffer.frame.dst, PROTO, buffer.size);
        if o.Some? {
          var i := o.value;
          wire.buffers[i] := wire.buffers[i].(frame := wire.buffers[i].frame.(packet := buffer.frame.packet));
          var f, _, _ := wire.Send(i, Some(quadrant), engine);
          sent := [f];
        }
      }
    }

    /** The forwarding of a wire frame to the ring: the whole frame, source address included. */
    method ForwardToRing(b: BufRef, engine: int) returns (sent: seq<Frame>)
      requires Valid() && b in Hands() && b.onWire
      modifies ring, ring.buffers
      ensures Valid() && Hands() == old(Hands()) && wire.buffers[..] == old(wire.buffers[..])
      ensures sent == if old(ring.freeList) != [] && At(b).size <= MTU then [At(b).frame] else []
    {
      sent := [];
      var buffer := wire.buffers[b.index];
      var o := ring.Alloc(buffer.frame.dst, PROTO, buffer.size);
      if o.Some? {
        var i := o.value;
        ring.buffers[i] := ring.buffers[i].(frame := buffer.frame);
        var f, _, _ := ring.Send(i, None, engine);
        sent := [f];
      }
    }

    /**
     `update`: whatever is in the buffer, it leaves the caller's hands, into the queue or back to its
     own pool, and no other buffer changes hands.
     */
    method Update(b: BufRef, quadrant: nat, engine: int) returns (fx: Effects)
      requires Valid() && b in Hands() && At(b).size <= MTU
      modifies Footprint()
      ensures Valid() && Hands() == old(Hands()) - {b}
      ensures fx == if b.onWire then FromWire(watch, old(At(b)), old(ring.freeList) != [])
                    else FromRing(watch, old(At(b)),
                                  if wire != null && old(wire.freeList) != [] then Some(wire.address) else None,
                                  quadrant)
      ensures queue == old(queue) + if Queued(watch, b.onWire, old(At(b))) then [b] else []
    {
      var buffer := if b.onWire then wire.buffers[b.index] else ring.buffers[b.index];
      fx := NOTHING;
      if buffer.size < PACKET_HEADER {
        FreeBuffer(b);
        return;
      }
      if wire != null && !b.onWire {
        var sent := ForwardToWire(b, quadrant, engine);
        fx := fx.(toWire := sent);
      }
      if b.onWire {
        if IsControl(buffer.frame) {
          fx := fx.(control := [buffer.frame]);
          FreeBuffer(b);
          return;
        }
        var sent := ForwardToRing(b, engine);
        fx := fx.(toRing := sent);
      }
      assert At(b) == buffer;
      var notified, messages := Notify(b);
      fx := fx.(messages := messages);
      if !notified {
        FreeBuffer(b);
      }
    }

    /**
     The receive handler of either interface, and all it leads to: on every path, a full pool, a short
     frame, a dropped one, a foreign protocol, a control frame, a forwarded, unobserved, queued or
     unmarshalled one, what this thread took out of a pool it has put back or queued, once.
     */
    method OnFrame(onWire: bool, f: Frame, bytes: nat, quadrant: nat, engine: int) returns (fx: Effects)
      requires Valid() && (onWire ==> wire != null)
      modifies Footprint()
      ensures Valid() && Hands() == old(Hands())
      ensures
        var own: Mac := if wire == null then INTERNAL else wire.address;
        var full := old(if onWire then wire.freeList == [] else ring.freeList == []);
        var up := if full then None else Accepted(onWire, f, bytes, own, quadrant);
        && fx == (if up.None? then NOTHING
                  else if onWire then FromWire(watch, up.value, old(ring.freeList) != [])
                  else FromRing(watch, up.value,
                                if wire != null && old(wire.freeList) != [] then Some(own) else None, quadrant))
        && |queue| == |old(queue)| + (if up.Some? && Queued(watch, onWire, up.value) then 1 else 0)
        && old(queue) <= queue
    {
      fx := NOTHING;
      var nic := if onWire then wire else ring;
      var o := nic.AllocBuf();
      if o.None? {
        return;
      }
      var b := BufRef(onWire, o.value);
      assert Hands() == old(Hands()) + {b};
      nic.buffers[o.value] := Buffer(nic.buffers[o.value].size, f);
      if bytes < ETHERNET_HEADER || (onWire && ShouldDrop(f, wire.address, quadrant)) || f.proto != PROTO {
        FreeBuffer(b);
        return;
      }
      nic.buffers[o.value] := Buffer((if bytes > FRAME_BYTES then FRAME_BYTES else bytes) - ETHERNET_HEADER, f);
      fx := Update(b, quadrant, engine);
    }

    /**
     `send`: by wire when there is one and the destination is not internal, else by ring. The ring's
     interface stamps no quadrant: the field keeps whatever the buffer held before.
     */
    method Send(srcPort: nat, to: Address, data: seq<Byte>, ts: int, kind: PacketKind,
                now: int, quadrant: nat, engine: int)
      returns (sent: Option<Frame>, bytes: int)
      requires Valid()
      modifies Footprint()
      ensures Valid() && Hands() == old(Hands()) && queue == old(queue)
      ensures bytes == if sent.Some? then engine else -1
      ensures
        var byWire := wire != null && to.mac != INTERNAL;
        var room := old(if byWire then wire.freeList != [] else ring.freeList != []);
        && sent.Some? == (PACKET_HEADER + |data| <= MTU && room)
        && (sent.Some? ==>
              sent.value == Frame(to.mac, if byWire then wire.address else INTERNAL, PROTO,
                                  Packet(if ts != 0 then ts else now, srcPort, to.port,
                                         if byWire then quadrant else sent.value.packet.quadrant, kind, data)))
    {
      var byWire := wire != null && to.mac != INTERNAL;
      var nic := if byWire then wire else ring;
      var o := nic.Alloc(to.mac, PROTO, PACKET_HEADER + |data|);
      if o.None? {
        return None, -1;
      }
      var b := BufRef(byWire, o.value);
      assert Hands() == old(Hands()) + {b};
      var leftOver := nic.buffers[o.value].frame.packet.quadrant;
      var packet := Packet(SendStamp(ts, now), srcPort, to.port, leftOver, kind, data);
      nic.buffers[o.value] := nic.buffers[o.value].(frame := nic.buffers[o.value].frame.(packet := packet));
      var f, _, result := nic.Send(o.value, if byWire then Some(quadrant) else None, engine);
      sent, bytes := Some(f), result;
    }
  }

  /** The time stamp of a packet sent: the caller's, unless that is 0. */
  function SendStamp(ts: int, now: int): int
  {
    if ts != 0 then ts else now
  }
}
