/**
 A producer's table of interested consumers: a lease for each (unit, address) and one worker
 thread for each unit that has one, at the shortest period asked for. A worker thread is
 represented by its period. `Cache` is the table's value; `BindingCache` is the object.
 */
module Bindings {
  import opened Addresses
  import opened Common
  import opened Sequences
  import opened Broker

  datatype Binding = Binding(unit: Unit, address: Address, period: nat, expiry: int)
  {
    predicate Is(u: Unit, a: Address) { unit == u && address == a }
  }

  /** Constructor arguments: the least lease in microseconds, and how many periods a lease lasts. */
  datatype Config = Config(lifetimeMin: nat, lifetimeFactor: nat)

  const LIFETIME_MIN_US: nat := 3_500_000
  const LIFETIME_FACTOR: nat := 4
  const SMART_CONFIG := Config(LIFETIME_MIN_US, LIFETIME_FACTOR)

  datatype Cache = Cache(bindings: seq<Binding>, threads: map<Unit, nat>)

  const NO_BINDINGS := Cache([], map[])

  const TWO_63: int := 0x8000_0000_0000_0000
  const TWO_64: int := 0x1_0000_0000_0000_0000

  /** The length of a lease, in nanoseconds. */
  function Lease(c: Config, period: nat): nat
  {
    (if c.lifetimeFactor * period < c.lifetimeMin then c.lifetimeMin else c.lifetimeFactor * period) * 1000
  }

  /** x cut to a 64-bit word and read as a signed one. */
  function Signed(x: int): int
  {
    if x % TWO_64 < TWO_63 then x % TWO_64 else x % TWO_64 - TWO_64
  }

  /** `expiry_for` in the machine's words: unsigned up to the cast, signed in the product and the sum. */
  function ExpiryFor(c: Config, period: nat, now: int): int
  {
    var product := c.lifetimeFactor * period % TWO_64;
    var life := if product < c.lifetimeMin then c.lifetimeMin else product;
    Signed(now + Signed(life) * 1000)
  }

  function Clamp(period: nat): nat
  {
    if period == 0 then 1 else period
  }

  /** The shortest period bound for u in s, 0 if there is none. */
  function Shortest(s: seq<Binding>, u: Unit): nat
  {
    if s == [] then 0
    else
      var best, last := Shortest(s[..|s| - 1], u), s[|s| - 1];
      if last.unit == u && (best == 0 || last.period < best) then last.period else best
  }

  ghost predicate Clamped(s: seq<Binding>)
  {
    forall b :: b in s ==> b.period >= 1
  }

  /** Since periods are at least 1, 0 does mean that nobody is bound; otherwise the result is the least period. */
  lemma {:induction false} ShortestIsLeast(s: seq<Binding>, u: Unit)
    requires Clamped(s)
    ensures Shortest(s, u) == 0 <==> forall b :: b in s ==> b.unit != u
    ensures Shortest(s, u) != 0 ==> exists b :: b in s && b.unit == u && b.period == Shortest(s, u)
    ensures forall b :: b in s && b.unit == u ==> Shortest(s, u) <= b.period
  {
    if s != [] {
      var rest, last := s[..|s| - 1], s[|s| - 1];
      assert forall b :: b in s <==> b in rest || b == last;
      ShortestIsLeast(rest, u);
    }
  }

  /** What the thread map must be. */
  ghost predicate ThreadsAgree(s: seq<Binding>, threads: map<Unit, nat>)
  {
    && (forall u :: u in threads <==> exists b :: b in s && b.unit == u)
    && (forall u :: u in threads ==> threads[u] == Shortest(s, u))
  }

  ghost function Units(s: seq<Binding>): set<Unit>
  {
    set b | b in s :: b.unit
  }

  /** The thread map after the first loop of `resync_threads`: a thread, at the shortest period, for each unit bound. */
  ghost function Started(s: seq<Binding>, threads: map<Unit, nat>): map<Unit, nat>
  {
    map u | u in threads.Keys + Units(s) :: if u in Units(s) then Shortest(s, u) else threads[u]
  }

  /** After the second: threads of units nobody is bound to have ended. */
  ghost function Resynced(s: seq<Binding>, threads: map<Unit, nat>): map<Unit, nat>
  {
    map u | u in Started(s, threads) && Shortest(s, u) != 0 :: Started(s, threads)[u]
  }

  /** Whatever the threads were, they end up agreeing with the bindings. */
  lemma ResyncedAgrees(s: seq<Binding>, threads: map<Unit, nat>)
    requires Clamped(s)
    ensures ThreadsAgree(s, Resynced(s, threads))
  {
    forall u {
      ShortestIsLeast(s, u);
    }
  }

  function Bound(s: seq<Binding>, b: Binding): seq<Binding>
  {
    var i := First(s, (x: Binding) => x.Is(b.unit, b.address));
    if i < |s| then s[i := b] else s + [b]
  }

  function AfterInterest(c: Config, s: seq<Binding>, u: Unit, a: Address, period: nat, now: int): seq<Binding>
  {
    Bound(s, Binding(u, a, Clamp(period), ExpiryFor(c, Clamp(period), now)))
  }

  function AfterDisinterest(s: seq<Binding>, u: Unit, a: Address): seq<Binding>
  {
    Keep(s, (b: Binding) => !b.Is(u, a))
  }

  function AfterReap(s: seq<Binding>, now: int): seq<Binding>
  {
    Keep(s, (b: Binding) => now <= b.expiry)
  }

  /** Binding b leaves all periods at least 1, is there afterwards, and every other consumer's binding stays. */
  lemma BoundHolds(s: seq<Binding>, b: Binding)
    requires Clamped(s) && b.period >= 1
    ensures Clamped(Bound(s, b)) && b in Bound(s, b)
    ensures forall x: Binding :: x.unit != b.unit || x.address != b.address ==> (x in Bound(s, b) <==> x in s)
  {
    var r, i := Bound(s, b), First(s, (x: Binding) => x.Is(b.unit, b.address));
    assert r[i] == b;
    forall x: Binding | x.unit != b.unit || x.address != b.address
      ensures x in r <==> x in s
    {
      if x in s {
        var k :| 0 <= k < |s| && s[k] == x;
        assert r[k] == x;
      }
    }
  }

  /** No thread is slower than a binding of its unit asks for. */
  lemma ThreadsRunAtLeast(s: seq<Binding>, threads: map<Unit, nat>)
    requires Clamped(s) && ThreadsAgree(s, threads)
    ensures forall b :: b in s ==> b.unit in threads && threads[b.unit] <= b.period
  {
    forall b | b in s
      ensures b.unit in threads && threads[b.unit] <= b.period
    {
      ShortestIsLeast(s, b.unit);
    }
  }

  class BindingCache {
    const config: Config
    var bindings: seq<Binding>
    var threads: map<Unit, nat>

    ghost predicate Valid()
      reads this
    {
      Clamped(bindings) && ThreadsAgree(bindings, threads)
    }

    ghost function View(): Cache
      reads this
    {
      Cache(bindings, threads)
    }

    constructor (config: Config)
      ensures Valid() && this.config == config && View() == NO_BINDINGS
    {
      this.config := config;
      bindings, threads := [], map[];
    }

    method ShortestLocked(u: Unit) returns (best: nat)
      ensures best == Shortest(bindings, u)
    {
      best := 0;
      for i := 0 to |bindings|
        invariant best == Shortest(bindings[..i], u)
      {
        assert bindings[..i + 1][..i] == bindings[..i];
        if bindings[i].unit == u && (best == 0 || bindings[i].period < best) {
          best := bindings[i].period;
        }
      }
      assert bindings[..|bindings|] == bindings;
    }

    /** The first loop of `resync_threads`. */
    method StartThreads()
      modifies this`threads
      ensures threads == Started(bindings, old(threads))
    {
      for i := 0 to |bindings|
        invariant threads.Keys == old(threads).Keys + Units(bindings[..i])
        invariant forall u :: u in threads ==>
                    threads[u] == if u in Units(bindings[..i]) then Shortest(bindings, u) else old(threads)[u]
      {
        assert bindings[..i + 1] == bindings[..i] + [bindings[i]];
        assert Units(bindings[..i + 1]) == Units(bindings[..i]) + {bindings[i].unit};
        var sp := ShortestLocked(bindings[i].unit);
        threads := threads[bindings[i].unit := sp];
      }
      assert bindings[..|bindings|] == bindings;
    }

    /** The second loop, over the threads in any order: those of units nobody is bound to end. */
    method EndThreads()
      modifies this`threads
      ensures forall u :: u in threads <==> u in old(threads) && Shortest(bindings, u) != 0
      ensures forall u :: u in threads ==> threads[u] == old(threads)[u]
    {
      var todo := threads.Keys;
      while todo != {}
        invariant todo <= threads.Keys
        invariant forall u :: u in threads <==> u in old(threads) && (u in todo || Shortest(bindings, u) != 0)
        invariant forall u :: u in threads ==> threads[u] == old(threads)[u]
      {
        var u :| u in todo;
        todo := todo - {u};
        var sp := ShortestLocked(u);
        if sp == 0 {
          threads := threads - {u};
        }
      }
    }

    /** Whatever the threads were, they end up agreeing with the bindings. */
    method ResyncThreads()
      requires Clamped(bindings)
      modifies this`threads
      ensures threads == Resynced(bindings, old(threads)) && ThreadsAgree(bindings, threads)
    {
      StartThreads();
      EndThreads();
      ResyncedAgrees(bindings, old(threads));
    }

    method OnInterest(u: Unit, a: Address, requested: nat, now: int)
      requires Valid()
      modifies this
      ensures Valid()
      ensures bindings == AfterInterest(config, old(bindings), u, a, requested, now)
      ensures threads == Resynced(bindings, old(threads))
      ensures exists b :: b in bindings && b.unit == u && b.address == a
                          && b.period == if requested >= 1 then requested else 1
      ensures forall b: Binding :: b.unit != u || b.address != a ==> (b in bindings <==> b in old(bindings))
      ensures u in threads && threads[u] <= if requested >= 1 then requested else 1
      ensures forall b :: b in bindings ==> b.unit in threads && threads[b.unit] <= b.period
    {
      var period := requested;
      if period == 0 {
        period := 1;
      }
      var i := First(bindings, (x: Binding) => x.Is(u, a));
      if i < |bindings| {
        bindings := bindings[i := bindings[i].(period := period, expiry := ExpiryFor(config, period, now))];
      } else {
        bindings := bindings + [Binding(u, a, period, ExpiryFor(config, period, now))];
      }
      BoundHolds(old(bindings), Binding(u, a, period, ExpiryFor(config, period, now)));
      ResyncThreads();
      ThreadsRunAtLeast(bindings, threads);
    }

    method OnDisinterest(u: Unit, a: Address)
      requires Valid()
      modifies this
      ensures Valid()
      ensures bindings == AfterDisinterest(old(bindings), u, a)
      ensures threads == Resynced(bindings, old(threads))
      ensures forall b :: b in bindings <==> b in old(bindings) && (b.unit != u || b.address != a)
    {
      bindings := Keep(bindings, (b: Binding) => !b.Is(u, a));
      ResyncThreads();
    }

    method Clear()
      requires Valid()
      modifies this
      ensures Valid()
      ensures View() == NO_BINDINGS
    {
      bindings := [];
      threads := map[];
    }

    /** One pass of the reaper. */
    method ReapPass(now: int)
      requires Valid()
      modifies this
      ensures Valid()
      ensures bindings == AfterReap(old(bindings), now)
      ensures threads == Resynced(bindings, old(threads))
      ensures forall b :: b in bindings <==> b in old(bindings) && now <= b.expiry
    {
      bindings := Keep(bindings, (b: Binding) => !(now > b.expiry));
      KeepSame(old(bindings), (b: Binding) => !(now > b.expiry), (b: Binding) => now <= b.expiry);
      ResyncThreads();
    }
  }

  /** A producer of one unit: the cache and the quadrant of the last interest message heard. */
  class Producer {
    const unit: Unit
    const cache: BindingCache
    var lastSeenQuad: nat

    ghost predicate Valid()
      reads this, cache
    {
      cache.Valid()
    }

    constructor (unit: Unit)
      ensures Valid() && fresh(cache) && this.unit == unit
      ensures cache.config == SMART_CONFIG && cache.View() == NO_BINDINGS && lastSeenQuad == QUADRANT_NONE
    {
      this.unit := unit;
      cache := new BindingCache(SMART_CONFIG);
      lastSeenQuad := QUADRANT_NONE;
    }

    /** The producer's branch of `SmartData::update`. */
    method Update(m: Message, now: int)
      requires Valid()
      modifies this, cache
      ensures Valid()
      ensures cache.View() == ProducerCache(cache.config, unit, old(lastSeenQuad), old(cache.View()), m, now)
      ensures lastSeenQuad == ProducerQuadrant(unit, old(lastSeenQuad), m)
    {
      if m.size < HEADER_SIZE || m.unit != unit {
        return;
      }
      if m.kind.Interest? {
        if m.size >= INTEREST_SIZE {
          var last := lastSeenQuad;
          lastSeenQuad := m.quadrant;
          if last != m.quadrant {
            cache.Clear();
          }
          if m.disinterest {
            cache.OnDisinterest(unit, m.from);
          } else {
            cache.OnInterest(unit, m.from, m.period, now);
          }
        }
      }
    }
  }

  /** The message is one a producer of this unit acts on. */
  predicate Heeds(unit: Unit, m: Message)
  {
    IsInterest(m) && m.unit == unit
  }

  function ProducerQuadrant(unit: Unit, quad: nat, m: Message): nat
  {
    if Heeds(unit, m) then m.quadrant else quad
  }

  function ProducerBindings(c: Config, unit: Unit, quad: nat, s: seq<Binding>, m: Message, now: int): seq<Binding>
  {
    if !Heeds(unit, m) then s
    else
      var kept := if quad != m.quadrant then [] else s;
      if m.disinterest then AfterDisinterest(kept, unit, m.from)
      else AfterInterest(c, kept, unit, m.from, m.period, now)
  }

  /** The whole cache after the same message; a change of quadrant ends every thread before new ones start. */
  ghost function ProducerCache(c: Config, unit: Unit, quad: nat, cache: Cache, m: Message, now: int): Cache
  {
    if !Heeds(unit, m) then cache
    else
      var s := ProducerBindings(c, unit, quad, cache.bindings, m, now);
      Cache(s, Resynced(s, if quad != m.quadrant then map[] else cache.threads))
  }

  ghost function ReapedCache(cache: Cache, now: int): Cache
  {
    var s := AfterReap(cache.bindings, now);
    Cache(s, Resynced(s, cache.threads))
  }

  /**
   The words give the intended end of a lease exactly while it fits a signed word, and never a later
   one: a larger request ends sooner than asked for, or at once.
   */
  lemma LeaseFits(c: Config, period: nat, now: int)
    requires -TWO_63 <= now
    ensures ExpiryFor(c, period, now) == now + Lease(c, period) <==> now + Lease(c, period) < TWO_63
    ensures ExpiryFor(c, period, now) <= now + Lease(c, period)
    ensures
      var asked, least := 1000 * (c.lifetimeFactor * period), 1000 * c.lifetimeMin;
      Lease(c, period) == if asked >= least then asked else least
  {
    var asked, end := c.lifetimeFactor * period, now + Lease(c, period);
    var life := if asked % TWO_64 < c.lifetimeMin then c.lifetimeMin else asked % TWO_64;
    SignedRange(now + Signed(life) * 1000);
    if end < TWO_63 {
      SmallWord(asked);
      SignedSame(life);
      SignedSame(end);
    }
  }

  lemma SmallWord(x: nat)
    requires x < TWO_64
    ensures x % TWO_64 == x
  {
  }

  lemma SignedRange(x: int)
    ensures -TWO_63 <= Signed(x) < TWO_63
  {
  }

  lemma SignedSame(x: int)
    requires -TWO_63 <= x < TWO_63
    ensures Signed(x) == x
  {
    assert x < 0 ==> x % TWO_64 == x + TWO_64;
  }

  /**
   Asked at time 0: the longest period that gets its lease, the first that does not and is over
   before it starts, and two that wrap to an empty and to the shortest lease.
   */
  lemma LostLeases()
    ensures ExpiryFor(SMART_CONFIG, 2_305_843_009_213_693, 0) == Lease(SMART_CONFIG, 2_305_843_009_213_693)
    ensures ExpiryFor(SMART_CONFIG, 2_305_843_009_213_694, 0) < 0
    ensures ExpiryFor(SMART_CONFIG, 0x1000_0000_0000_0000, 0) == 0
    ensures ExpiryFor(SMART_CONFIG, 0x4000_0000_0000_0000, 0) == 3_500_000_000
  {
  }
}
