/**
 The shared-memory region of one vehicle: the broadcast ring, each reader's position in it, and
 the System V semaphores. `Shared` is its value; `Region` is the object the processes update in
 place, each of whose methods is one semaphore operation or one critical section of
 `write_slot` and `read_slot`.
 */
module SharedRing {
  import opened Common

  const GATEWAY_SLOT: nat := 0
  const GATEWAY_WRITER: nat := 0xFFFE
  const MAX_COMPONENTS: nat := 100
  const FRAME_SIZE: nat := 1514
  const UINT64_MAX: nat := 0xFFFF_FFFF_FFFF_FFFF

  /** One field for each bit of the slot's flag word. */
  datatype Flags = Flags(toComponents: bool, toGateway: bool)

  datatype Slot = Slot(writer: nat, flags: Flags, frame: seq<Byte>)

  /** The zero-filled slot of a fresh region. */
  const BLANK := Slot(0, Flags(false, false), [])

  datatype Shared = Shared(
    nextWriteSeq: nat,
    slots: seq<Slot>,
    readSeq: seq<nat>,
    mutex: nat,
    empty: nat,
    pending: seq<nat>)
  {
    ghost predicate WellFormed() {
      |slots| > 0 && |readSeq| > 0 && |pending| == |readSeq|
    }
  }

  function Truncate(frame: seq<Byte>, size: nat): seq<Byte>
  {
    if |frame| <= size then frame else frame[..size]
  }

  /** What `engine_send` hands to `write_slot` for the process registered at `origin`. */
  function SlotFrom(origin: nat, frame: seq<Byte>): Slot
  {
    if origin == GATEWAY_SLOT then
      Slot(GATEWAY_WRITER, Flags(true, false), Truncate(frame, FRAME_SIZE))
    else
      Slot(origin, Flags(true, true), Truncate(frame, FRAME_SIZE))
  }

  /** The reader's test on a slot. */
  predicate ShouldRead(me: nat, slot: Slot)
  {
    || (me == GATEWAY_SLOT && slot.flags.toGateway)
    || (slot.flags.toComponents && slot.writer != me)
  }

  /**
   Who reads what: a component reads every frame but its own; the gateway reads every frame,
   the ones it injected itself included.
   */
  lemma WhoReads(me: nat, origin: nat, frame: seq<Byte>)
    requires me < MAX_COMPONENTS
    ensures ShouldRead(me, SlotFrom(origin, frame)) <==> me == GATEWAY_SLOT || me != origin
  {
  }

  /** The scan of `least_read_seq_not_me` over the first n readers. */
  function LeastNotMe(readSeq: seq<nat>, me: nat, n: nat): (least: nat)
    requires n <= |readSeq|
    ensures least <= UINT64_MAX
    ensures forall i :: 0 <= i < n && i != me ==> least <= readSeq[i]
    ensures least == UINT64_MAX || exists i :: 0 <= i < n && i != me && readSeq[i] == least
  {
    if n == 0 then UINT64_MAX
    else
      var least := LeastNotMe(readSeq, me, n - 1);
      if n - 1 != me && readSeq[n - 1] < least then readSeq[n - 1] else least
  }

  /** The writer's critical section: take the next number, fill its slot. */
  function Publish(m: Shared, slot: Slot): Shared
    requires m.WellFormed()
  {
    m.(nextWriteSeq := m.nextWriteSeq + 1, slots := m.slots[m.nextWriteSeq % |m.slots| := slot])
  }

  /** The slot the reader's next number lands on. */
  function NextSlot(m: Shared, me: nat): Slot
    requires m.WellFormed() && me < |m.readSeq|
  {
    m.slots[m.readSeq[me] % |m.slots|]
  }

  function Advance(m: Shared, me: nat): Shared
    requires me < |m.readSeq|
  {
    m.(readSeq := m.readSeq[me := m.readSeq[me] + 1])
  }

  /** Whether the reader, having advanced, owes the free-slot semaphore a post. */
  predicate PostsEmpty(m: Shared, me: nat)
    requires me < |m.readSeq|
  {
    m.readSeq[me] <= LeastNotMe(m.readSeq, me, |m.readSeq|)
  }

  function InitShared(slotCount: nat, readers: nat): Shared
  {
    Shared(0, seq(slotCount, _ => BLANK), seq(readers, _ => 0), 1, slotCount, seq(readers, _ => 0))
  }

  class Region {
    var nextWriteSeq: nat
    const slots: array<Slot>
    const readSeq: array<nat>
    var mutex: nat
    var empty: nat
    const pending: array<nat>

    ghost predicate Valid()
      reads this, slots, readSeq, pending
    {
      slots.Length > 0 && readSeq.Length > 0 && pending.Length == readSeq.Length && readSeq != pending
    }

    ghost function View(): (m: Shared)
      reads this, slots, readSeq, pending
      requires Valid()
      ensures m.WellFormed()
    {
      Shared(nextWriteSeq, slots[..], readSeq[..], mutex, empty, pending[..])
    }

    /** `create`: a zeroed region, the mutex free, every slot free, nothing pending. */
    constructor (slotCount: nat, readers: nat)
      requires slotCount > 0 && readers > 0
      ensures Valid() && fresh(slots) && fresh(readSeq) && fresh(pending)
      ensures View() == InitShared(slotCount, readers)
    {
      nextWriteSeq := 0;
      slots := new Slot[slotCount](_ => BLANK);
      readSeq := new nat[readers](_ => 0);
      pending := new nat[readers](_ => 0);
      mutex, empty := 1, slotCount;
      new;
      assert slots[..] == seq(slotCount, _ => BLANK);
      assert readSeq[..] == seq(readers, _ => 0);
      assert pending[..] == seq(readers, _ => 0);
    }

    method WaitEmpty()
      requires Valid() && empty > 0
      modifies this`empty
      ensures Valid() && View() == old(View()).(empty := old(empty) - 1)
    {
      empty := empty - 1;
    }

    method PostEmpty()
      requires Valid()
      modifies this`empty
      ensures Valid() && View() == old(View()).(empty := old(empty) + 1)
    {
      empty := empty + 1;
    }

    method WaitMutex()
      requires Valid() && mutex > 0
      modifies this`mutex
      ensures Valid() && View() == old(View()).(mutex := old(mutex) - 1)
    {
      mutex := mutex - 1;
    }

    method PostMutex()
      requires Valid()
      modifies this`mutex
      ensures Valid() && View() == old(View()).(mutex := old(mutex) + 1)
    {
      mutex := mutex + 1;
    }

    method WaitPending(i: nat)
      requires Valid() && i < pending.Length && pending[i] > 0
      modifies pending
      ensures Valid()
      ensures View() == old(View()).(pending := old(pending[..])[i := old(pending[i]) - 1])
    {
      pending[i] := pending[i] - 1;
    }

    method PostPending(i: nat)
      requires Valid() && i < pending.Length
      modifies pending
      ensures Valid()
      ensures View() == old(View()).(pending := old(pending[..])[i := old(pending[i]) + 1])
    {
      pending[i] := pending[i] + 1;
    }

    /** The post loop of `write_slot`, as it acts while no reader gets in between. */
    method PostAllPending()
      requires Valid()
      modifies pending
      ensures Valid()
      ensures View() == old(View()).(
                pending := seq(pending.Length, i requires 0 <= i < pending.Length => old(pending[i]) + 1))
    {
      for i := 0 to pending.Length
        invariant forall k :: 0 <= k < pending.Length ==> pending[k] == old(pending[k]) + (if k < i then 1 else 0)
      {
        PostPending(i);
      }
      assert pending[..] == seq(pending.Length, i requires 0 <= i < pending.Length => old(pending[i]) + 1);
    }

    /** The statements of `write_slot` between the mutex wait and the post loop. */
    method WriteSlotBody(frame: seq<Byte>, writer: nat, flags: Flags) returns (written: nat)
      requires Valid()
      modifies this`nextWriteSeq, slots
      ensures Valid()
      ensures View() == Publish(old(View()), Slot(writer, flags, Truncate(frame, FRAME_SIZE)))
      ensures written == if |frame| <= FRAME_SIZE then |frame| else FRAME_SIZE
    {
      var at := nextWriteSeq;
      nextWriteSeq := nextWriteSeq + 1;
      var kept := if |frame| <= FRAME_SIZE then frame else frame[..FRAME_SIZE];
      slots[at % slots.Length] := Slot(writer, flags, kept);
      written := |kept|;
    }

    method LeastReadSeqNotMe(me: nat) returns (least: nat)
      requires Valid()
      ensures least == LeastNotMe(readSeq[..], me, readSeq.Length)
    {
      least := UINT64_MAX;
      var i := 0;
      while i < readSeq.Length
        invariant 0 <= i <= readSeq.Length
        invariant least == LeastNotMe(readSeq[..], me, i)
      {
        if i != me && readSeq[i] < least {
          least := readSeq[i];
        }
        i := i + 1;
      }
    }

    /** The statements of `read_slot` under the mutex; `frame` is what is copied out. */
    method ReadSlotBody(me: nat, size: nat) returns (shouldRead: bool, frame: seq<Byte>, postEmpty: bool)
      requires Valid() && me < readSeq.Length
      modifies readSeq
      ensures Valid() && View() == Advance(old(View()), me)
      ensures shouldRead == ShouldRead(me, NextSlot(old(View()), me))
      ensures frame == if shouldRead then Truncate(NextSlot(old(View()), me).frame, size) else []
      ensures postEmpty == PostsEmpty(View(), me)
    {
      var at := readSeq[me];
      readSeq[me] := readSeq[me] + 1;
      var slot := slots[at % slots.Length];
      shouldRead := (me == GATEWAY_SLOT && slot.flags.toGateway)
                    || (slot.flags.toComponents && slot.writer != me);
      frame := [];
      if shouldRead {
        frame := if |slot.frame| <= size then slot.frame else slot.frame[..size];
      }
      var least := LeastReadSeqNotMe(me);
      postEmpty := readSeq[me] <= least;
    }
  }
}
