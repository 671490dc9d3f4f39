/** Unique increasing time stamps from a clock that may stand still or go back, by compare-and-exchange. */
module MonotonicStamp {
  import opened Runs
  import opened NetworkInterface
  import opened Addresses
  import opened Common
  import Gateway

  /** What one call tries to store over `prev`. */
  function Candidate(now: int, prev: int): int
  {
    if now > prev then now else prev + 1
  }

  class Stamper {
    var last: int

    constructor ()
      ensures last == 0
    {
      last := 0;
    }

    /** Store `desired` if the last stamp is still `expected`, unless the exchange fails for no reason. */
    method CompareExchangeWeak(expected: int, desired: int, spurious: bool) returns (ok: bool, seen: int)
      modifies this
      ensures ok == (old(last) == expected && !spurious)
      ensures seen == old(last) && last == if ok then desired else old(last)
    {
      ok := last == expected && !spurious;
      seen := last;
      if ok {
        last := desired;
      }
    }

    /** One undisturbed call, whose first `failures` exchanges fail spuriously. */
    method MonotonicStamp(now: int, failures: nat) returns (ts: int)
      modifies this
      ensures ts == last == if now >= old(last) + 1 then now else old(last) + 1
    {
      var prev := last;
      var left := failures;
      var done := false;
      ts := 0;
      while !done
        invariant done ==> ts == last == Candidate(now, old(last))
        invariant !done ==> prev == last == old(last)
        decreases !done, left
      {
        ts := if now > prev then now else prev + 1;
        done, prev := CompareExchangeWeak(prev, ts, left > 0);
        left := if left > 0 then left - 1 else 0;
      }
    }
  }

  const BROADCAST_PORT: nat := 0xffff

  /** `Communicator::send`: the frame carries the stamp the message was given, later than every stamp before. */
  method SendStamped(stamper: Stamper, channel: Gateway.Protocol, port: nat, data: seq<Byte>,
                     now: int, failures: nat, later: int, quadrant: nat, engine: int)
    returns (ok: bool, sent: Option<Frame>)
    requires stamper.last >= 0 && channel.Valid()
    modifies stamper, channel.Footprint()
    ensures channel.Valid() && channel.Hands() == old(channel.Hands())
    ensures stamper.last > old(stamper.last) && stamper.last >= now
    ensures sent.Some? ==> sent.value.packet.timestamp == stamper.last
    ensures ok == (sent.Some? && engine > 0)
  {
    var ts := stamper.MonotonicStamp(now, failures);
    var bytes;
    sent, bytes := channel.Send(port, Address(BROADCAST, BROADCAST_PORT), data, ts, Data, later, quadrant, engine);
    ok := bytes > 0;
  }

  // ----- Any number of threads -----

  datatype Pc =
    | Idle
    | Started(now: int)
    | Trying(now: int, prev: int)

  /** A stamp, the reading it was asked with, and the highest reading any call had made by then. */
  datatype Stamp = Stamp(now: int, ts: int, peak: int)

  /** `stamps`, in the order they were stored, and `peak` (at least 0) are history. */
  datatype State = State(last: int, threads: seq<Pc>, stamps: seq<Stamp>, peak: int)

  datatype Event =
    | ReadClock(t: nat, now: int)
    | LoadLast(t: nat)
    | ExchangeStores(t: nat)
    | ExchangeFails(t: nat)

  function Init(threads: nat): State
  {
    State(0, seq(threads, _ => Idle), [], 0)
  }

  predicate Enabled(s: State, e: Event)
  {
    e.t < |s.threads|
    && match e
       case ReadClock(t, _) => s.threads[t].Idle?
       case LoadLast(t) => s.threads[t].Started?
       case ExchangeStores(t) => s.threads[t].Trying? && s.threads[t].prev == s.last
       case ExchangeFails(t) => s.threads[t].Trying?
  }

  function Apply(s: State, e: Event): State
    requires Enabled(s, e)
  {
    var pc := s.threads[e.t];
    match e
    case ReadClock(t, now) =>
      s.(threads := s.threads[t := Started(now)], peak := if now > s.peak then now else s.peak)
    case LoadLast(t) => s.(threads := s.threads[t := Trying(pc.now, s.last)])
    case ExchangeStores(t) =>
      var ts := Candidate(pc.now, pc.prev);
      s.(last := ts, threads := s.threads[t := Idle], stamps := s.stamps + [Stamp(pc.now, ts, s.peak)])
    case ExchangeFails(t) => s.(threads := s.threads[t := Trying(pc.now, s.last)])
  }

  ghost predicate Step(s: State, e: Event, s': State)
  {
    Enabled(s, e) && s' == Apply(s, e)
  }

  ghost predicate Reachable(threads: nat, s: State)
  {
    exists es :: Run(Step, Init(threads), es, s)
  }

  /** The stamp before number i. */
  function Before(stamps: seq<Stamp>, i: nat): int
    requires i <= |stamps|
  {
    if i == 0 then 0 else stamps[i - 1].ts
  }

  /** Stamp number i is what a call made alone would have got after the stamps before it. */
  ghost predicate StampTrue(stamps: seq<Stamp>, i: nat)
    requires i < |stamps|
  {
    var x := stamps[i];
    && x.ts == Candidate(x.now, Before(stamps, i))
    && x.now <= x.peak && 0 <= x.peak && 1 <= x.ts <= x.peak + i + 1
  }

  ghost predicate StampsInv(stamps: seq<Stamp>)
  {
    && (forall i :: 0 <= i < |stamps| ==> StampTrue(stamps, i))
    && (forall i, j :: 0 <= i < j < |stamps| ==> stamps[i].ts < stamps[j].ts)
  }

  ghost predicate ThreadsInv(s: State)
  {
    && s.last == Before(s.stamps, |s.stamps|)
    && 0 <= s.last <= s.peak + |s.stamps| && 0 <= s.peak
    && (forall i :: 0 <= i < |s.threads| ==> s.threads[i].Idle? || s.threads[i].now <= s.peak)
  }

  ghost predicate Inv(s: State)
  {
    ThreadsInv(s) && StampsInv(s.stamps)
  }

  lemma AppendStamp(stamps: seq<Stamp>, x: Stamp)
    requires StampsInv(stamps) && Before(stamps, |stamps|) <= x.peak + |stamps|
    requires x.ts == Candidate(x.now, Before(stamps, |stamps|)) && x.now <= x.peak && 0 <= x.peak
    ensures StampsInv(stamps + [x])
  {
    var more := stamps + [x];
    if stamps != [] {
      assert StampTrue(stamps, |stamps| - 1);
    }
    forall i | 0 <= i < |more|
      ensures StampTrue(more, i)
    {
      if i < |stamps| {
        assert StampTrue(stamps, i) && Before(more, i) == Before(stamps, i);
      }
    }
  }

  lemma StepKeepsThreads(s: State, e: Event)
    requires ThreadsInv(s) && Enabled(s, e)
    ensures ThreadsInv(Apply(s, e))
  {
  }

  lemma StepKeepsInv(s: State, e: Event)
    requires Inv(s) && Enabled(s, e)
    ensures Inv(Apply(s, e))
  {
    StepKeepsThreads(s, e);
    if e.ExchangeStores? {
      var now := s.threads[e.t].now;
      AppendStamp(s.stamps, Stamp(now, Candidate(now, s.last), s.peak));
    }
  }

  lemma ReachableInv(threads: nat, s: State)
    requires Reachable(threads, s)
    ensures Inv(s)
  {
    var es :| Run(Step, Init(threads), es, s);
    var inv := v => Inv(v);
    forall v, e, v' | inv(v) && Step(v, e, v')
      ensures inv(v')
    {
      StepKeepsInv(v, e);
    }
    Keeps(Step, inv, Init(threads), es, s);
  }

  /**
   Linearizability: in the order they were stored the stamps are those of calls made one after the
   other, each the greater of its reading and one more than the stamp before.
   */
  lemma StampsAreSequential(threads: nat, s: State, i: nat)
    requires Reachable(threads, s) && i < |s.stamps|
    ensures
      var before := Before(s.stamps, i);
      s.stamps[i].ts == if s.stamps[i].now >= before + 1 then s.stamps[i].now else before + 1
  {
    ReachableInv(threads, s);
    assert StampTrue(s.stamps, i);
  }

  /** Stamps increase in the order they are stored, and so are unique. */
  lemma StampsIncrease(threads: nat, s: State, i: nat, j: nat)
    requires Reachable(threads, s) && i < j < |s.stamps|
    ensures s.stamps[i].ts < s.stamps[j].ts
  {
    ReachableInv(threads, s);
  }

  /**
   Each stamp is at least its call's reading and at least 1, and exceeds the highest reading made by
   then by no more than the number of stamps issued.
   */
  lemma StampsAreBounded(threads: nat, s: State, i: nat)
    requires Reachable(threads, s) && i < |s.stamps|
    ensures 1 <= s.stamps[i].ts && s.stamps[i].now <= s.stamps[i].ts <= s.stamps[i].peak + i + 1
  {
    ReachableInv(threads, s);
    assert StampTrue(s.stamps, i);
  }

  /** A stamp is never taken for the value 0 that asks the protocol to stamp the frame itself. */
  lemma ApplicationStampIsKept(threads: nat, s: State, i: nat, now: int)
    requires Reachable(threads, s) && i < |s.stamps|
    ensures Gateway.SendStamp(s.stamps[i].ts, now) == s.stamps[i].ts != 0
  {
    StampsAreBounded(threads, s, i);
  }

  /** A thread that started after a stamp was stored gets a later one, whatever its clock read. */
  lemma LaterCallsGetLaterStamps(threads: nat, s: State, es: seq<Event>, s': State, i: nat, j: nat)
    requires Reachable(threads, s) && Run(Step, s, es, s')
    requires i < |s.stamps| <= j < |s'.stamps|
    ensures s'.stamps[i] == s.stamps[i] && s'.stamps[i].ts < s'.stamps[j].ts
  {
    var before :| Run(Step, Init(threads), before, s);
    Join(Step, Init(threads), before, s, es, s');
    StampsAreKept(s, es, s');
    ReachableInv(threads, s');
  }

  lemma {:induction false} StampsAreKept(s: State, es: seq<Event>, s': State)
    requires Run(Step, s, es, s')
    ensures s.stamps <= s'.stamps
    decreases |es|
  {
    if es != [] {
      var t :| Step(s, es[0], t) && Run(Step, t, es[1..], s');
      StampsAreKept(t, es[1..], s');
    }
  }
}
