/**
 Vehicles, one broker and one producer on a network that may lose, duplicate and delay messages by
 at most `delay`, all on one clock: how long a producer can go on serving a unit after the last
 interested vehicle was seen.
 */
module StopBound {
  import opened Addresses
  import opened Runs
  import opened Sequences
  import opened Broker
  import BrokerTrace
  import opened Bindings

  /** The unit watched, the network delay, a bound on periods, the broker's own address. */
  datatype Net = Net(unit: Unit, delay: nat, maxPeriod: nat, rsu: Address)
  {
    ghost predicate Valid() { maxPeriod >= 1 }

    /** Lease of presence, network delay and lease of a binding, one after the other. */
    function Bound(): int
    {
      4_000_000_000 + delay + if 4 * maxPeriod >= 3_500_000 then 4000 * maxPeriod else 3_500_000_000
    }
  }

  datatype Packet = Packet(m: Message, sentAt: int, fromBroker: bool)

  /**
   `seen` and `lastPass` are history: the last time a vehicle interested in the unit asked, or was
   sighted by the broker, and the time of the last reaper pass.
   */
  datatype System = System(
    now: int,
    tracker: Tracker,
    cache: Cache,
    quad: nat,
    packets: set<Packet>,
    seen: int,
    lastPass: int)

  datatype Event =
    | Wait(dt: nat)
    | VehicleSends(m: Message)
    | BrokerHears(p: Packet)
    | BrokerSights(from: Address)
    | BrokerTicks(quadrant: nat)   // what the broker's interface stamps meanwhile
    | ProducerHears(p: Packet)
    | ReaperPasses

  ghost predicate Init(s: System)
  {
    s.tracker == EMPTY && s.cache == NO_BINDINGS && s.packets == {} && -TWO_63 <= s.lastPass <= s.seen <= s.now
  }

  ghost predicate Enabled(n: Net, s: System, e: Event)
  {
    match e
    case VehicleSends(m) => m.period <= n.maxPeriod
    case BrokerHears(p) => p in s.packets && !p.fromBroker && s.now <= p.sentAt + n.delay
    case ProducerHears(p) => p in s.packets && s.now <= p.sentAt + n.delay
    case _ => true
  }

  /** A whole interest message that is no disinterest. */
  predicate Asks(m: Message)
  {
    m.kind.Interest? && m.size >= 14 && !m.disinterest
  }

  predicate AsksForUnit(n: Net, m: Message)
  {
    Asks(m) && m.unit == n.unit
  }

  /** The broker lists the vehicle as interested in the unit. */
  predicate Interested(n: Net, t: Tracker, mac: Mac)
  {
    exists e :: e in t.interests && e.unit == n.unit && e.address.mac == mac
  }

  function AnnouncementMessage(n: Net, x: Announcement, quadrant: nat): Message
  {
    match x
    case Repeat(u, period) => Message(INTEREST_SIZE, Interest, u, n.rsu, quadrant, period, false)
    case Stop(u) => Message(INTEREST_SIZE, Interest, u, n.rsu, quadrant, 0, true)
  }

  ghost function Apply(n: Net, s: System, e: Event): System
  {
    match e
    case Wait(dt) => s.(now := s.now + dt)
    case VehicleSends(m) =>
      s.(packets := s.packets + {Packet(m, s.now, false)},
         seen := if AsksForUnit(n, m) then s.now else s.seen)
    case BrokerHears(p) =>
      var concerned := p.m.unit == n.unit || Interested(n, s.tracker, p.m.from.mac);
      var sighted := Asks(p.m) && concerned;
      s.(tracker := AfterMessage(s.tracker, p.m, s.now), seen := if sighted then s.now else s.seen)
    case BrokerSights(from) =>
      s.(tracker := AfterPresence(s.tracker, from, s.now),
         seen := if Interested(n, s.tracker, from.mac) then s.now else s.seen)
    case BrokerTicks(quadrant) =>
      s.(tracker := AfterTick(s.tracker, s.now),
         packets := s.packets
           + set x | x in Announced(s.tracker, s.now) :: Packet(AnnouncementMessage(n, x, quadrant), s.now, true))
    case ProducerHears(p) =>
      s.(cache := ProducerCache(SMART_CONFIG, n.unit, s.quad, s.cache, p.m, s.now),
         quad := ProducerQuadrant(n.unit, s.quad, p.m))
    case ReaperPasses => s.(cache := ReapedCache(s.cache, s.now), lastPass := s.now)
  }

  ghost function StepOf(n: Net): (System, Event, System) -> bool
  {
    (s, e, s') => Enabled(n, s, e) && s' == Apply(n, s, e)
  }

  ghost predicate Reachable(n: Net, s: System)
  {
    n.Valid() && exists start, es :: Init(start) && Run(StepOf(n), start, es, s)
  }

  // ----- The invariant -----

  ghost predicate PacketsInv(n: Net, s: System)
  {
    forall p :: p in s.packets && AsksForUnit(n, p.m) ==>
      p.sentAt <= s.seen + PRESENCE_LEASE_NS && p.m.period <= n.maxPeriod
  }

  /** A message's period is bounded whatever its unit, as the broker lists all units. */
  ghost predicate VehiclePacketsInv(n: Net, s: System)
  {
    forall p :: p in s.packets && !p.fromBroker ==> p.m.period <= n.maxPeriod
  }

  ghost predicate TrackerInv(n: Net, s: System)
  {
    forall e :: e in s.tracker.interests && e.unit == n.unit ==>
      e.Key() in s.tracker.presence && s.tracker.presence[e.Key()] <= s.seen && e.period <= n.maxPeriod
  }

  ghost predicate BindingsInv(n: Net, s: System)
  {
    forall b :: b in s.cache.bindings && b.unit == n.unit ==>
      b.expiry <= s.seen + n.Bound() && s.lastPass <= s.seen + n.Bound()
  }

  ghost predicate CacheInv(s: System)
  {
    Clamped(s.cache.bindings) && ThreadsAgree(s.cache.bindings, s.cache.threads)
  }

  ghost predicate Inv(n: Net, s: System)
  {
    n.Valid() && -TWO_63 <= s.seen <= s.now && s.lastPass <= s.now && CacheInv(s)
    && PacketsInv(n, s) && VehiclePacketsInv(n, s) && TrackerInv(n, s) && BindingsInv(n, s)
  }

  lemma LeaseMonotone(p: nat, q: nat)
    requires p <= q
    ensures Lease(SMART_CONFIG, p) <= Lease(SMART_CONFIG, q)
  {
  }

  lemma SightingKeepsTracker(n: Net, s: System, from: Address)
    requires TrackerInv(n, s) && s.seen <= s.now
    ensures TrackerInv(n, Apply(n, s, BrokerSights(from)))
  {
    var s' := Apply(n, s, BrokerSights(from));
    forall e | e in s'.tracker.interests && e.unit == n.unit
      ensures e.Key() in s'.tracker.presence && s'.tracker.presence[e.Key()] <= s'.seen && e.period <= n.maxPeriod
    {
      if e.Key() == MacKey(from.mac) {
        MacKeyInjective(e.address.mac, from.mac);
        assert Interested(n, s.tracker, from.mac);
      }
    }
  }

  /** Every entry after an interest is listed was there before, under its key, or is the new one. */
  lemma ListedFrom(s: seq<Entry>, u: Unit, a: Address, period: nat, e: Entry)
    requires e in Listed(s, u, a, period)
    ensures e in s || e == Entry(u, a, period)
  {
    var i := First(s, (x: Entry) => x.Is(u, a));
    var k :| 0 <= k < |Listed(s, u, a, period)| && Listed(s, u, a, period)[k] == e;
    if k != i {
      assert e == s[k];
    }
  }

  lemma HearingKeepsTracker(n: Net, s: System, p: Packet)
    requires TrackerInv(n, s) && s.seen <= s.now && p.m.period <= n.maxPeriod
    ensures TrackerInv(n, Apply(n, s, BrokerHears(p)))
  {
    var s' := Apply(n, s, BrokerHears(p));
    var m := p.m;
    if IsInterest(m) && !m.disinterest {
      forall e | e in s'.tracker.interests && e.unit == n.unit
        ensures e.Key() in s'.tracker.presence && s'.tracker.presence[e.Key()] <= s'.seen && e.period <= n.maxPeriod
      {
        ListedFrom(s.tracker.interests, m.unit, m.from, m.period, e);
        if e in s.tracker.interests && e.Key() == MacKey(m.from.mac) {
          MacKeyInjective(e.address.mac, m.from.mac);
          assert Interested(n, s.tracker, m.from.mac);
        }
      }
    }
  }

  /** What a tick says about the unit it says within the presence lease. */
  lemma TickRepeatsInTime(n: Net, s: System, x: Announcement)
    requires TrackerInv(n, s) && x in Announced(s.tracker, s.now) && x.Repeat? && x.unit == n.unit
    ensures s.now <= s.seen + PRESENCE_LEASE_NS && x.period <= n.maxPeriod
  {
    BrokerTrace.TickAbout(s.tracker, s.now, n.unit);
    assert x in BrokerTrace.About(Announced(s.tracker, s.now), n.unit);
    assert x in BrokerTrace.Says(s.tracker, s.now, n.unit);
    var left := Surviving(s.tracker, s.now);
    ActiveIsLeast(left, n.unit);
    var e :| e in left && e.unit == n.unit && e.period == x.period;
  }

  lemma TickKeepsInv(n: Net, s: System, quadrant: nat)
    requires Inv(n, s)
    ensures Inv(n, Apply(n, s, BrokerTicks(quadrant)))
  {
    var s' := Apply(n, s, BrokerTicks(quadrant));
    forall p | p in s'.packets && AsksForUnit(n, p.m)
      ensures p.sentAt <= s'.seen + PRESENCE_LEASE_NS && p.m.period <= n.maxPeriod
    {
      if p !in s.packets {
        var x :| x in Announced(s.tracker, s.now) && p == Packet(AnnouncementMessage(n, x, quadrant), s.now, true);
        TickRepeatsInTime(n, s, x);
      }
    }
  }

  lemma BoundFrom(s: seq<Binding>, b: Binding, x: Binding)
    requires x in Bound(s, b)
    ensures x in s || x == b
  {
    var i := First(s, (x: Binding) => x.Is(b.unit, b.address));
    var k :| 0 <= k < |Bound(s, b)| && Bound(s, b)[k] == x;
    if k != i {
      assert x == s[k];
    }
  }

  lemma HearingKeepsBindings(n: Net, s: System, p: Packet)
    requires Inv(n, s) && Enabled(n, s, ProducerHears(p))
    ensures BindingsInv(n, Apply(n, s, ProducerHears(p)))
  {
    var s' := Apply(n, s, ProducerHears(p));
    var m := p.m;
    if AsksForUnit(n, m) {
      var kept := if s.quad != m.quadrant then [] else s.cache.bindings;
      var made := Binding(n.unit, m.from, Clamp(m.period), ExpiryFor(SMART_CONFIG, Clamp(m.period), s.now));
      LeaseFits(SMART_CONFIG, Clamp(m.period), s.now);
      LeaseMonotone(Clamp(m.period), n.maxPeriod);
      forall b | b in s'.cache.bindings && b.unit == n.unit
        ensures b.expiry <= s'.seen + n.Bound() && s'.lastPass <= s'.seen + n.Bound()
      {
        BoundFrom(kept, made, b);
      }
    }
  }

  lemma HearingKeepsCache(n: Net, s: System, p: Packet)
    requires CacheInv(s)
    ensures CacheInv(Apply(n, s, ProducerHears(p)))
  {
    if Heeds(n.unit, p.m) {
      ResyncedAgrees(Apply(n, s, ProducerHears(p)).cache.bindings,
                     if s.quad != p.m.quadrant then map[] else s.cache.threads);
    }
  }

  lemma StepKeepsInv(n: Net, s: System, e: Event)
    requires Inv(n, s) && Enabled(n, s, e)
    ensures Inv(n, Apply(n, s, e))
  {
    match e
    case Wait(_) =>
    case VehicleSends(_) =>
    case BrokerHears(p) => HearingKeepsTracker(n, s, p);
    case BrokerSights(from) => SightingKeepsTracker(n, s, from);
    case BrokerTicks(quadrant) => TickKeepsInv(n, s, quadrant);
    case ProducerHears(p) =>
      HearingKeepsBindings(n, s, p);
      HearingKeepsCache(n, s, p);
    case ReaperPasses => ResyncedAgrees(AfterReap(s.cache.bindings, s.now), s.cache.threads);
  }

  lemma ReachableInv(n: Net, s: System)
    requires Reachable(n, s)
    ensures Inv(n, s)
  {
    var start, es :| Init(start) && Run(StepOf(n), start, es, s);
    var inv := t => Inv(n, t);
    forall t, e, t' | inv(t) && StepOf(n)(t, e, t')
      ensures inv(t')
    {
      StepKeepsInv(n, t, e);
    }
    Keeps(StepOf(n), inv, start, es, s);
  }

  /**
   However many stop messages are lost: once a reaper pass has run later than the bound after an
   interested vehicle was last seen, there is no binding for the unit and no worker thread, and
   there will be none until such a vehicle is seen again.
   */
  lemma StopsInTime(n: Net, s: System)
    requires Reachable(n, s) && s.lastPass > s.seen + n.Bound()
    ensures forall b :: b in s.cache.bindings ==> b.unit != n.unit
    ensures n.unit !in s.cache.threads
  {
    ReachableInv(n, s);
  }

  /** In particular a pass that runs that late ends the unit's thread itself. */
  lemma LatePassStops(n: Net, s: System)
    requires Reachable(n, s) && s.now > s.seen + n.Bound()
    ensures n.unit !in Apply(n, s, ReaperPasses).cache.threads
  {
    ReachableInv(n, s);
    StepKeepsInv(n, s, ReaperPasses);
  }

  /**
   A repeat that reaches the producer binds the unit, for the broker, at the repeated period, and the
   unit's thread runs no slower; a stop that reaches it ends the broker's binding.
   */
  lemma AnnouncementIsHeeded(n: Net, s: System, p: Packet, x: Announcement, quadrant: nat)
    requires Reachable(n, s) && Enabled(n, s, ProducerHears(p))
    requires p.m == AnnouncementMessage(n, x, quadrant) && x.unit == n.unit
    ensures
      var cache := Apply(n, s, ProducerHears(p)).cache;
      if x.Repeat? then
        && (exists b :: b in cache.bindings && b.unit == n.unit && b.address == n.rsu
                        && b.period == if x.period >= 1 then x.period else 1)
        && n.unit in cache.threads && cache.threads[n.unit] <= if x.period >= 1 then x.period else 1
      else forall b :: b in cache.bindings ==> b.unit != n.unit || b.address != n.rsu
  {
    ReachableInv(n, s);
    HearingKeepsCache(n, s, p);
    var s' := Apply(n, s, ProducerHears(p));
    var kept := if s.quad != p.m.quadrant then [] else s.cache.bindings;
    if x.Repeat? {
      BoundHolds(kept, Binding(n.unit, n.rsu, Clamp(x.period), ExpiryFor(SMART_CONFIG, Clamp(x.period), s.now)));
      ThreadsRunAtLeast(s'.cache.bindings, s'.cache.threads);
    }
  }

  /** From a lease and a delay after the last sighting, no message can bind the unit again. */
  lemma NoLateBinding(n: Net, s: System, p: Packet, b: Binding)
    requires Reachable(n, s) && s.now > s.seen + PRESENCE_LEASE_NS + n.delay
    requires Enabled(n, s, ProducerHears(p))
    requires b in Apply(n, s, ProducerHears(p)).cache.bindings && b.unit == n.unit
    ensures b in s.cache.bindings
  {
    ReachableInv(n, s);
  }
}
