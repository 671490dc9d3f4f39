/**
 The four-timestamp clock synchronisation: the slave's state and arithmetic, the master's answer,
 and the correction of the system clock. All times are nanoseconds.
 */
module Sptp {
  import opened Common

  const MIN_OFFSET_NS: int := 100_000
  const MAX_OFFSET_NS: int := 1_000_000_000
  const INITIAL_DELAY_NS: int := 100_000
  const NS_PER_S: int := 1_000_000_000
  const PPB: nat := 1_000_000_000
  const REQUEST_PAYLOAD_SIZE: nat := 4
  const SYNC_PAYLOAD_SIZE: nat := 12

  /** A packet's payload: its length and, as far as it is long enough, its fields. */
  datatype Payload = Payload(size: nat, seqId: nat, t2Prime: int)

  /** The slave's fields; `pendingT2 == 0` means no request is pending. */
  datatype Slave = Slave(
    pendingT2: int,
    pendingSeq: nat,
    nextSeq: nat,
    delay: int,
    offset: int,
    firstSyncDone: bool,
    syncCount: nat,
    lastSync: int)

  const FRESH := Slave(0, 0, 1, INITIAL_DELAY_NS, 0, false, 0, 0)

  /** Division by two as C++ does it: towards zero. */
  function Half(x: int): int
  {
    if x >= 0 then x / 2 else -((-x) / 2)
  }

  function Abs(x: int): nat
  {
    if x >= 0 then x else -x
  }

  /** Half of x, rounded up. */
  function HalfUp(x: nat): nat
  {
    (x + 1) / 2
  }

  function RawOffset(t2: int, t2Prime: int, t1: int, t1Prime: int): int
  {
    Half((t1Prime - t1) - (t2Prime - t2))
  }

  function RawDelay(t2: int, t2Prime: int, t1: int, t1Prime: int): int
  {
    Half((t1Prime - t1) + (t2Prime - t2))
  }

  /** One eighth of the sample, seven of the old value: exact in doubles at these magnitudes. */
  function Ewma(current: int, sample: int): int
  {
    (7 * current + sample) / 8
  }

  /** The slave answers this packet; otherwise it leaves its state alone. */
  predicate Matches(v: Slave, kind: PacketKind, p: Payload)
  {
    kind.SptpSync? && p.size >= SYNC_PAYLOAD_SIZE && v.pendingT2 != 0 && p.seqId == v.pendingSeq
  }

  predicate Outlier(rawOffset: int)
  {
    Abs(rawOffset) >= MAX_OFFSET_NS
  }

  /** The slave's state after a packet received at clock reading `now`. */
  function AfterReceive(v: Slave, kind: PacketKind, headerTs: int, p: Payload, now: int, steady: int): Slave
  {
    if !Matches(v, kind, p) then v
    else
      var rawOffset := RawOffset(v.pendingT2, p.t2Prime, headerTs, now);
      var rawDelay := RawDelay(v.pendingT2, p.t2Prime, headerTs, now);
      var measured := if rawDelay > 0 then v.(delay := Ewma(v.delay, rawDelay)) else v;
      if Outlier(rawOffset) then measured.(pendingT2 := 0)
      else measured.(pendingT2 := 0, lastSync := steady, firstSyncDone := true,
                     offset := rawOffset, syncCount := v.syncCount + 1)
  }

  /** The jump the slave asks of the system clock, if any. */
  function JumpAsked(v: Slave, kind: PacketKind, headerTs: int, p: Payload, now: int): Option<int>
  {
    if !Matches(v, kind, p) then None
    else
      var rawOffset := RawOffset(v.pendingT2, p.t2Prime, headerTs, now);
      if MIN_OFFSET_NS < Abs(rawOffset) < MAX_OFFSET_NS then Some(-rawOffset) else None
  }

  /** The slave's state after a request; tx is the reading taken at the NIC, 0 if the frame was not sent. */
  function AfterRequest(v: Slave, early: int, tx: int): Slave
  {
    v.(nextSeq := v.nextSeq + 1, pendingSeq := v.nextSeq, pendingT2 := if tx != 0 then tx else early)
  }

  /** The system clock after `adjust_clock_jump` asks for a jump of delta. */
  function Jumped(reading: int, delta: int): int
  {
    if reading + delta >= 0 then reading + delta else reading
  }

  class SptpSlave {
    var pendingT2: int
    var pendingSeq: nat
    var nextSeq: nat
    var delay: int
    var offset: int
    var firstSyncDone: bool
    var syncCount: nat
    var lastSync: int

    ghost function View(): Slave
      reads this
    {
      Slave(pendingT2, pendingSeq, nextSeq, delay, offset, firstSyncDone, syncCount, lastSync)
    }

    constructor ()
      ensures View() == FRESH
    {
      pendingT2, pendingSeq, nextSeq := 0, 0, 1;
      delay, offset := INITIAL_DELAY_NS, 0;
      firstSyncDone, syncCount, lastSync := false, 0, 0;
    }

    /** The two stores of `send_sync_request`, and the number the request carries. */
    method SendSyncRequest(early: int, tx: int) returns (seqId: nat)
      modifies this
      ensures seqId == old(nextSeq) && View() == AfterRequest(old(View()), early, tx)
      ensures pendingSeq == seqId && nextSeq == seqId + 1 && pendingT2 == if tx != 0 then tx else early
    {
      seqId := nextSeq;
      nextSeq := nextSeq + 1;
      pendingT2 := early;
      pendingSeq := seqId;
      if tx != 0 {
        pendingT2 := tx;
      }
    }

    /** The slave's branch of `on_receive`; `jump` is the argument it passes to `adjust_clock_jump`. */
    method OnReceive(kind: PacketKind, headerTs: int, p: Payload, now: int, steady: int)
      returns (jump: Option<int>)
      modifies this
      ensures View() == AfterReceive(old(View()), kind, headerTs, p, now, steady)
      ensures jump == JumpAsked(old(View()), kind, headerTs, p, now)
    {
      jump := None;
      if !kind.SptpSync? || p.size < SYNC_PAYLOAD_SIZE {
        return;
      }
      var t2 := pendingT2;
      if t2 == 0 || p.seqId != pendingSeq {
        return;
      }
      var rawOffset := Half((now - headerTs) - (p.t2Prime - t2));
      var rawDelay := Half((now - headerTs) + (p.t2Prime - t2));
      if rawDelay > 0 {
        delay := Ewma(delay, rawDelay);
      }
      if Abs(rawOffset) >= MAX_OFFSET_NS {
        pendingT2 := 0;
        return;
      }
      lastSync := steady;
      firstSyncDone := true;
      if Abs(rawOffset) > MIN_OFFSET_NS {
        jump := Some(-rawOffset);
      }
      offset := rawOffset;
      syncCount := syncCount + 1;
      pendingT2 := 0;
    }
  }

  /** The master's branch of `on_receive`: the payload of the SYNC it sends back. */
  function MasterReply(kind: PacketKind, p: Payload, now: int): Option<Payload>
  {
    if kind.SptpRequestSync? && p.size >= REQUEST_PAYLOAD_SIZE
    then Some(Payload(SYNC_PAYLOAD_SIZE, p.seqId, now))
    else None
  }

  /** CLOCK_REALTIME: seconds and nanoseconds, as the kernel keeps them. */
  class SystemClock {
    var sec: int
    var nsec: int

    ghost predicate Valid()
      reads this
    {
      sec >= 0 && 0 <= nsec < NS_PER_S
    }

    ghost function Reading(): int
      reads this
    {
      sec * NS_PER_S + nsec
    }

    /** The kernel refuses a time before the epoch and a nanosecond field out of range. */
    method SetTime(s: int, ns: int) returns (ok: bool)
      modifies this
      ensures ok == (s >= 0 && 0 <= ns < NS_PER_S)
      ensures if ok then sec == s && nsec == ns else sec == old(sec) && nsec == old(nsec)
    {
      ok := s >= 0 && 0 <= ns < NS_PER_S;
      if ok {
        sec, nsec := s, ns;
      }
    }

    /** `adjust_clock_jump`, with C++'s division and remainder on a possibly negative total. */
    method AdjustClockJump(delta: int)
      requires Valid()
      modifies this
      ensures Valid() && Reading() == Jumped(old(Reading()), delta)
      ensures Reading() == if old(Reading()) + delta >= 0 then old(Reading()) + delta else old(Reading())
    {
      var total := sec * NS_PER_S + nsec + delta;
      var s := if total >= 0 then total / NS_PER_S else -((-total) / NS_PER_S);
      var ns := total - s * NS_PER_S;
      var ok := SetTime(s, ns);
    }
  }

  // ----- The arithmetic of one exchange -----

  /**
   With the slave's clock sentTheta ahead when the request left and theta ahead when the reply came,
   request delay b - a and reply delay d - c, the measured offset misses theta by at most half of the
   asymmetry and the drift together, rounded up.
   */
  lemma OffsetError(sentTheta: int, theta: int, a: int, b: int, c: int, d: int)
    requires a <= b <= c <= d
    ensures
      var request, reply := b - a, d - c;
      Abs(theta - RawOffset(a + sentTheta, b, c, d + theta)) <= HalfUp(Abs(reply - request) + Abs(theta - sentTheta))
  {
    var asymmetry := (d - c) - (b - a);
    assert (d + theta - c) - (b - (a + sentTheta)) == 2 * theta + asymmetry - (theta - sentTheta);
  }

  /**
   And the measured delay misses the mean of the two delays by at most half of the drift, rounded up:
   neither how far the clocks are apart nor the asymmetry matters to it.
   */
  lemma DelayError(sentTheta: int, theta: int, a: int, b: int, c: int, d: int)
    requires a <= b <= c <= d
    ensures Abs(RawDelay(a + sentTheta, b, c, d + theta) - ((b - a) + (d - c)) / 2) <= HalfUp(Abs(theta - sentTheta))
  {
    assert (d + theta - c) + (b - (a + sentTheta)) == (b - a) + (d - c) + (theta - sentTheta);
  }

  /** Division by two drops the half on either side of zero. */
  lemma HalfDropsTheHalf(x: int)
    ensures Half(-x) == -Half(x)
    ensures x >= 0 ==> 2 * Half(x) <= x <= 2 * Half(x) + 1
  {
  }

  // ----- A clock that drifts -----

  /** The most a clock gains or loses in t nanoseconds at a drift of rho parts in a thousand million. */
  function Slip(rho: nat, t: nat): nat
  {
    rho * t / PPB
  }

  /** x is within what a clock drifts in t. */
  predicate WithinDrift(rho: nat, t: nat, x: int)
  {
    Abs(x) * PPB <= rho * t
  }

  lemma WithinSlip(rho: nat, t: nat, most: nat, x: int)
    requires WithinDrift(rho, t, x) && t <= most
    ensures Abs(x) <= Slip(rho, most)
  {
    assert rho * t <= rho * most;
  }

  lemma SlipMonotone(rho: nat, t: nat, most: nat)
    requires t <= most
    ensures Slip(rho, t) <= Slip(rho, most)
  {
    assert rho * t <= rho * most;
  }

  lemma DriftAdds(rho: nat, s: nat, t: nat, x: int, y: int)
    requires WithinDrift(rho, s, x) && WithinDrift(rho, t, y)
    ensures WithinDrift(rho, s + t, x + y)
  {
    assert rho * (s + t) == rho * s + rho * t;
  }

  /** A clock that drifts by less than its own rate never goes back. */
  lemma DriftIsSlower(rho: nat, t: nat, x: int)
    requires rho <= PPB && WithinDrift(rho, t, x)
    ensures Abs(x) <= t
  {
    assert rho * t <= PPB * t;
  }

  // ----- The delay filter -----

  /** The delay after a sequence of samples. */
  function Smooth(start: int, samples: seq<int>): int
  {
    if samples == [] then start else Ewma(Smooth(start, samples[..|samples| - 1]), samples[|samples| - 1])
  }

  /** The delay never leaves the range of its first value and the samples. */
  lemma {:induction false} SmoothStaysInRange(start: int, samples: seq<int>, lo: int, hi: int)
    requires lo <= start <= hi
    requires forall k :: 0 <= k < |samples| ==> lo <= samples[k] <= hi
    ensures lo <= Smooth(start, samples) <= hi
  {
    if samples != [] {
      SmoothStaysInRange(start, samples[..|samples| - 1], lo, hi);
    }
  }

  /**
   Under a constant sample d the filter goes to the nearest end of [d - 7, d] and stops there: it
   is there after as many samples as it was nanoseconds away, and it never crosses d.
   */
  lemma {:induction false} SmoothSettles(start: int, d: int, n: nat)
    ensures
      var settled := Smooth(start, seq(n, _ => d));
      && (start > d ==> d <= settled <= start)
      && (start < d ==> start <= settled < d)
      && (start == d ==> settled == d)
      && (n >= Abs(start - d) ==> settled == if start > d then d else if start < d - 7 then d - 7 else start)
  {
    SettlingBound(start, d, n);
  }

  lemma {:induction false} SettlingBound(start: int, d: int, n: nat)
    ensures
      var settled := Smooth(start, seq(n, _ => d));
      && (start > d ==> d <= settled <= start && settled <= (if start - n > d then start - n else d))
      && (d - 7 <= start <= d ==> settled == start)
      && (start < d - 7 ==> start <= settled <= d - 7 && settled >= (if start + n < d - 7 then start + n else d - 7))
  {
    var samples := seq(n, _ => d);
    if n > 0 {
      assert samples[..n - 1] == seq(n - 1, _ => d);
      SettlingBound(start, d, n - 1);
    }
  }
}
