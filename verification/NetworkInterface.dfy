/** Frames, and a network interface's pool of buffers: a stack of free indices over a fixed array. */
module NetworkInterface {
  import opened Common
  import opened Addresses

  const PROTO: nat := 0x8888
  const MTU: nat := 1500
  const ETHERNET_HEADER: nat := 14
  /** `sizeof(Header)` of the protocol. */
  const PACKET_HEADER: nat := 16
  const BROADCAST: Mac := [255, 255, 255, 255, 255, 255]
  const INTERNAL: Mac := [0, 0, 0, 0, 0, 0]

  datatype Packet = Packet(timestamp: int, srcPort: nat, dstPort: nat, quadrant: nat, kind: PacketKind, data: seq<Byte>)

  const BLANK_PACKET := Packet(0, 0, 0, 0, Data, [])

  datatype Frame = Frame(dst: Mac, src: Mac, proto: nat, packet: Packet)

  /** A pool buffer: how many bytes of the frame's payload are in use, and the frame. */
  datatype Buffer = Buffer(size: nat, frame: Frame)

  ghost predicate Distinct(s: seq<nat>)
  {
    forall i, j :: 0 <= i < j < |s| ==> s[i] != s[j]
  }

  class Nic {
    const address: Mac
    const buffers: array<Buffer>
    var freeList: seq<nat>
    var lastQuadrant: nat
    var txPackets: nat
    var txBytes: int

    ghost predicate Valid()
      reads this
    {
      Distinct(freeList) && forall i :: i in freeList ==> i < buffers.Length
    }

    /** The buffers that are not free: queued somewhere or in some thread's hands. */
    ghost function Out(): set<nat>
      reads this
    {
      set i: nat | i < buffers.Length && i !in freeList
    }

    constructor (address: Mac, size: nat)
      ensures Valid() && fresh(buffers) && this.address == address
      ensures buffers.Length == size && Out() == {}
      ensures lastQuadrant == QUADRANT_NONE && txPackets == 0 && txBytes == 0
    {
      this.address := address;
      buffers := new Buffer[size](_ => Buffer(0, Frame(INTERNAL, INTERNAL, 0, BLANK_PACKET)));
      freeList := [];
      lastQuadrant, txPackets, txBytes := QUADRANT_NONE, 0, 0;
      new;
      for i := 0 to size
        invariant lastQuadrant == QUADRANT_NONE && txPackets == 0 && txBytes == 0
        invariant |freeList| == i && forall k :: 0 <= k < i ==> freeList[k] == k
      {
        freeList := freeList + [i];
      }
      forall k: nat | k < size
        ensures k in freeList
      {
        assert freeList[k] == k;
      }
    }

    /** Pop a free index, if there is one. */
    method AllocBuf() returns (o: Option<nat>)
      requires Valid()
      modifies this`freeList
      ensures Valid()
      ensures if old(freeList) == [] then o.None? && Out() == old(Out())
              else o.Some? && o.value < buffers.Length && o.value !in old(Out()) && Out() == old(Out()) + {o.value}
    {
      if freeList == [] {
        return None;
      }
      var top := freeList[|freeList| - 1];
      ghost var before := freeList;
      freeList := freeList[..|freeList| - 1];
      assert before == freeList + [top] && top in before;
      assert forall i :: i in before <==> i in freeList || i == top;
      return Some(top);
    }

    /** Allocate for sending: the Ethernet header is filled in, the payload is left as it was. */
    method Alloc(dst: Mac, proto: nat, size: nat) returns (o: Option<nat>)
      requires Valid()
      modifies this`freeList, buffers
      ensures Valid()
      ensures if size > MTU || old(freeList) == [] then o.None? && Out() == old(Out())
              else o.Some? && o.value < buffers.Length && o.value !in old(Out()) && Out() == old(Out()) + {o.value}
      ensures o.Some? ==> buffers[o.value] == Buffer(size, Frame(dst, address, proto, buffers[o.value].frame.packet))
      ensures forall i :: 0 <= i < buffers.Length && !(o.Some? && i == o.value) ==> buffers[i] == old(buffers[i])
    {
      if size > MTU {
        return None;
      }
      o := AllocBuf();
      if o.Some? {
        buffers[o.value] := Buffer(size, Frame(dst, address, proto, buffers[o.value].frame.packet));
      }
    }

    /** Push an index back; the caller must be the one who holds it. */
    method Free(i: nat)
      requires Valid() && i in Out()
      modifies this`freeList
      ensures Valid() && Out() == old(Out()) - {i}
    {
      freeList := freeList + [i];
      assert forall k :: k in freeList <==> k in old(freeList) || k == i;
    }

    /**
     Hand the frame to the engine, its quadrant stamped if this interface stamps one, and free the
     buffer, whatever the engine answers; `changed` asks for a resynchronisation of the clock.
     */
    method Send(i: nat, stamp: Option<nat>, engine: int) returns (sent: Frame, changed: bool, bytes: int)
      requires Valid() && i in Out()
      modifies this, buffers
      ensures Valid() && Out() == old(Out()) - {i}
      ensures bytes == engine && sent == if stamp.None? then old(buffers[i].frame)
                                         else old(buffers[i].frame).(
                                              packet := old(buffers[i].frame.packet).(quadrant := stamp.value))
      ensures changed == (stamp.Some? && stamp.value != QUADRANT_NONE && old(lastQuadrant) != QUADRANT_NONE
                          && stamp.value != old(lastQuadrant))
      ensures lastQuadrant == if stamp.Some? && stamp.value != QUADRANT_NONE then stamp.value else old(lastQuadrant)
      ensures txPackets == old(txPackets) + (if engine > 0 then 1 else 0)
      ensures txBytes == old(txBytes) + (if engine > 0 then engine else 0)
      ensures forall k :: 0 <= k < buffers.Length && k != i ==> buffers[k] == old(buffers[k])
    {
      changed := false;
      if stamp.Some? {
        var b := buffers[i];
        buffers[i] := b.(frame := b.frame.(packet := b.frame.packet.(quadrant := stamp.value)));
        changed := DetectQuadrantChange(stamp.value);
      }
      sent, bytes := buffers[i].frame, engine;
      if bytes > 0 {
        txPackets, txBytes := txPackets + 1, txBytes + bytes;
      }
      Free(i);
    }

    method DetectQuadrantChange(q: nat) returns (changed: bool)
      modifies this`lastQuadrant
      ensures changed == (q != QUADRANT_NONE && old(lastQuadrant) != QUADRANT_NONE && q != old(lastQuadrant))
      ensures lastQuadrant == if q != QUADRANT_NONE then q else old(lastQuadrant)
    {
      if q == QUADRANT_NONE {
        return false;
      }
      changed := lastQuadrant != QUADRANT_NONE && lastQuadrant != q;
      lastQuadrant := q;
    }
  }

  /** Both quadrants are known, and they differ. */
  predicate QuadrantChanges(last: nat, q: nat)
  {
    q != QUADRANT_NONE && last != QUADRANT_NONE && last != q
  }

  function Stamped(f: Frame, stamp: Option<nat>): Frame
  {
    if stamp.Some? then f.(packet := f.packet.(quadrant := stamp.value)) else f
  }
}
