/** The binding cache over a whole log: it is the last-writer map with leases, and it forgets at a quadrant change. */
module BindingRuns {
  import opened Addresses
  import opened Common
  import opened Sequences
  import opened Broker
  import opened Bindings

  datatype Event =
    | Bind(unit: Unit, address: Address, period: nat, now: int)
    | Release(unit: Unit, address: Address)
    | ClearAll
    | Reap(now: int)

  function Apply(c: Config, s: seq<Binding>, e: Event): seq<Binding>
  {
    match e
    case Bind(u, a, period, now) => AfterInterest(c, s, u, a, period, now)
    case Release(u, a) => AfterDisinterest(s, u, a)
    case ClearAll => []
    case Reap(now) => AfterReap(s, now)
  }

  function After(c: Config, log: seq<Event>): seq<Binding>
  {
    if log == [] then [] else Apply(c, After(c, log[..|log| - 1]), log[|log| - 1])
  }

  /** The binding an interest makes: at the period asked for, which cannot be shorter than 1. */
  function Made(c: Config, e: Event): Binding
    requires e.Bind?
  {
    var period := if e.period >= 1 then e.period else 1;
    Binding(e.unit, e.address, period, ExpiryFor(c, period, e.now))
  }

  /** Event e ends binding b, or replaces it. */
  predicate Ends(e: Event, b: Binding)
  {
    match e
    case Bind(u, a, _, _) => b.unit == u && b.address == a
    case Release(u, a) => b.unit == u && b.address == a
    case ClearAll => true
    case Reap(now) => now > b.expiry
  }

  ghost predicate StandsAt(c: Config, log: seq<Event>, i: nat, b: Binding)
  {
    && i < |log| && log[i].Bind? && Made(c, log[i]) == b
    && forall j :: i < j < |log| ==> !Ends(log[j], b)
  }

  ghost predicate Unique(s: seq<Binding>)
  {
    DistinctBy(s, (b: Binding) => (b.unit, b.address))
  }

  lemma BoundMembers(s: seq<Binding>, b: Binding)
    requires Unique(s)
    ensures Unique(Bound(s, b))
    ensures forall x :: x in Bound(s, b) <==> if x.unit == b.unit && x.address == b.address then x == b else x in s
  {
    var r, i := Bound(s, b), First(s, (y: Binding) => y.Is(b.unit, b.address));
    forall x
      ensures x in r <==> if x.Is(b.unit, b.address) then x == b else x in s
    {
      if i < |s| {
        assert r[i] == b;
        if x in s && !x.Is(b.unit, b.address) {
          var k :| 0 <= k < |s| && s[k] == x;
          assert r[k] == x;
        }
      } else {
        assert forall k :: 0 <= k < |s| ==> !s[k].Is(b.unit, b.address);
        assert r[|s|] == b;
      }
    }
  }

  lemma StepMembers(c: Config, s: seq<Binding>, e: Event, x: Binding)
    requires Unique(s)
    ensures Unique(Apply(c, s, e))
    ensures x in Apply(c, s, e) <==> (e.Bind? && x == Made(c, e)) || (x in s && !Ends(e, x))
  {
    match e
    case Bind(_, _, _, _) => BoundMembers(s, Made(c, e));
    case Release(u, a) => KeepDistinct(s, (b: Binding) => !b.Is(u, a), (k: Binding) => (k.unit, k.address));
    case ClearAll =>
    case Reap(now) => KeepDistinct(s, (b: Binding) => now <= b.expiry, (k: Binding) => (k.unit, k.address));
  }

  lemma {:induction false} AfterUnique(c: Config, log: seq<Event>)
    ensures Unique(After(c, log))
  {
    if log != [] {
      AfterUnique(c, log[..|log| - 1]);
      StepMembers(c, After(c, log[..|log| - 1]), log[|log| - 1], Binding(0, Address([0, 0, 0, 0, 0, 0], 0), 0, 0));
    }
  }

  lemma StandsStep(c: Config, log: seq<Event>, e: Event, i: nat, b: Binding)
    ensures StandsAt(c, log + [e], i, b) <==>
              if i == |log| then e.Bind? && b == Made(c, e) else StandsAt(c, log, i, b) && !Ends(e, b)
  {
    var more := log + [e];
    assert forall j :: 0 <= j < |log| ==> more[j] == log[j];
    if StandsAt(c, more, i, b) && i < |log| {
      assert !Ends(more[|log|], b);
      assert forall j :: i < j < |log| ==> !Ends(more[j], b);
    }
  }

  /**
   A binding is in the table iff some interest made it, at the period and until the time that
   interest set, and nothing since has replaced it, released it, cleared the table or outlived it.
   */
  lemma {:induction false} TableIsReplay(c: Config, log: seq<Event>, b: Binding)
    ensures b in After(c, log) <==> exists i: nat :: StandsAt(c, log, i, b)
  {
    if log != [] {
      var init, last := log[..|log| - 1], log[|log| - 1];
      assert init + [last] == log;
      AfterUnique(c, init);
      TableIsReplay(c, init, b);
      StepMembers(c, After(c, init), last, b);
      forall i: nat
        ensures StandsAt(c, log, i, b) <==>
                  if i == |init| then last.Bind? && b == Made(c, last)
                  else StandsAt(c, init, i, b) && !Ends(last, b)
      {
        StandsStep(c, init, last, i, b);
      }
      if last.Bind? && b == Made(c, last) {
        assert StandsAt(c, log, |init|, b);
      } else if b in After(c, log) {
        var i: nat :| StandsAt(c, init, i, b);
        assert StandsAt(c, log, i, b);
      }
    }
  }

  /** One consumer's disinterest, or its refresh, leaves every other consumer's binding as it was. */
  lemma OthersUnaffected(c: Config, log: seq<Event>, e: Event, b: Binding)
    requires e.Bind? || e.Release?
    requires b.unit != e.unit || b.address != e.address
    ensures b in After(c, log + [e]) <==> b in After(c, log)
  {
    assert (log + [e])[..|log|] == log;
    AfterUnique(c, log);
    StepMembers(c, After(c, log), e, b);
  }

  /**
   An interest's binding that nothing has released, replaced or cleared survives every reaper pass
   up to the end of its lease, and no pass after it.
   */
  lemma LeaseIsExact(c: Config, log: seq<Event>, i: nat)
    requires i < |log| && log[i].Bind? && -TWO_63 <= log[i].now
    requires forall j :: i < j < |log| ==> log[j].Reap? || !Ends(log[j], Made(c, log[i]))
    ensures Made(c, log[i]) in After(c, log)
            <==> forall j :: i < j < |log| && log[j].Reap? ==> log[j].now <= Made(c, log[i]).expiry
    ensures
      var end := log[i].now + Lease(c, Made(c, log[i]).period);
      && Made(c, log[i]).expiry <= end
      && (Made(c, log[i]).expiry == end <==> end < TWO_63)
  {
    var b := Made(c, log[i]);
    LeaseFits(c, b.period, log[i].now);
    TableIsReplay(c, log, b);
    if forall j :: i < j < |log| && log[j].Reap? ==> log[j].now <= b.expiry {
      assert StandsAt(c, log, i, b);
    } else {
      var j :| i < j < |log| && log[j].Reap? && log[j].now > b.expiry;
      forall k: nat
        ensures !StandsAt(c, log, k, b)
      {
        if k <= i {
          assert Ends(log[j], b);
        } else if k < |log| {
          assert log[k].Reap? || !Ends(log[k], b);
        }
      }
    }
  }

  // ----- The producer that drives the cache -----

  datatype Heard =
    | Received(m: Message, now: int)
    | Pass(now: int)

  datatype ProducerState = ProducerState(bindings: seq<Binding>, quad: nat)

  function Produce(c: Config, unit: Unit, p: ProducerState, h: Heard): ProducerState
  {
    match h
    case Received(m, now) =>
      ProducerState(ProducerBindings(c, unit, p.quad, p.bindings, m, now), ProducerQuadrant(unit, p.quad, m))
    case Pass(now) => p.(bindings := AfterReap(p.bindings, now))
  }

  function ProducerAfter(c: Config, unit: Unit, log: seq<Heard>): ProducerState
  {
    if log == [] then ProducerState([], QUADRANT_NONE)
    else Produce(c, unit, ProducerAfter(c, unit, log[..|log| - 1]), log[|log| - 1])
  }

  /** A whole interest message about the producer's unit, disinterest or not. */
  predicate Concerns(unit: Unit, h: Heard)
  {
    h.Received? && h.m.kind.Interest? && h.m.size >= 14 && h.m.unit == unit
  }

  /** The binding that such a message makes. */
  function MadeBy(c: Config, unit: Unit, h: Heard): Binding
    requires h.Received?
  {
    Made(c, Bind(unit, h.m.from, h.m.period, h.now))
  }

  /** For a binding made in quadrant q: a later event that ends it. */
  predicate EndsFor(unit: Unit, q: nat, h: Heard, b: Binding)
  {
    || (Concerns(unit, h) && (h.m.quadrant != q || h.m.from == b.address))
    || (h.Pass? && h.now > b.expiry)
  }

  /**
   Event i is an interest that made b, and no event since has named another quadrant, come from the same
   consumer, or outlived it.
   */
  ghost predicate HeldSince(c: Config, unit: Unit, log: seq<Heard>, i: nat, b: Binding)
  {
    && i < |log| && Concerns(unit, log[i]) && !log[i].m.disinterest && b == MadeBy(c, unit, log[i])
    && forall j :: i < j < |log| ==> !EndsFor(unit, log[i].m.quadrant, log[j], b)
  }

  lemma ProduceMember(c: Config, unit: Unit, p: ProducerState, h: Heard, b: Binding)
    requires Unique(p.bindings)
    ensures Unique(Produce(c, unit, p, h).bindings)
    ensures b in Produce(c, unit, p, h).bindings <==>
              || (Concerns(unit, h) && !h.m.disinterest && b == MadeBy(c, unit, h))
              || (b in p.bindings && b.unit == unit && !EndsFor(unit, p.quad, h, b))
              || (b in p.bindings && b.unit != unit && !(Concerns(unit, h) && h.m.quadrant != p.quad)
                  && !(h.Pass? && h.now > b.expiry))
  {
    match h
    case Received(m, now) =>
      if Concerns(unit, h) {
        var kept := if p.quad != m.quadrant then [] else p.bindings;
        if m.disinterest {
          StepMembers(c, kept, Release(unit, m.from), b);
        } else {
          StepMembers(c, kept, Bind(unit, m.from, m.period, now), b);
        }
      }
    case Pass(now) => StepMembers(c, p.bindings, Reap(now), b);
  }

  /** A producer binds its own unit only; its quadrant is that of the last message about the unit. */
  lemma {:induction false} ProducerInv(c: Config, unit: Unit, log: seq<Heard>)
    ensures Unique(ProducerAfter(c, unit, log).bindings)
    ensures forall b :: b in ProducerAfter(c, unit, log).bindings ==> b.unit == unit
  {
    if log != [] {
      var init, last := log[..|log| - 1], log[|log| - 1];
      ProducerInv(c, unit, init);
      forall b
        ensures Unique(ProducerAfter(c, unit, log).bindings)
        ensures b in ProducerAfter(c, unit, log).bindings ==> b.unit == unit
      {
        ProduceMember(c, unit, ProducerAfter(c, unit, init), last, b);
      }
      ProduceMember(c, unit, ProducerAfter(c, unit, init), last, Binding(0, Address([0, 0, 0, 0, 0, 0], 0), 0, 0));
    }
  }

  /** While a binding is held, the producer's quadrant is the one it was made in. */
  lemma {:induction false} HeldInQuadrant(c: Config, unit: Unit, log: seq<Heard>, i: nat, b: Binding)
    requires HeldSince(c, unit, log, i, b)
    ensures ProducerAfter(c, unit, log).quad == log[i].m.quadrant
  {
    var init, last := log[..|log| - 1], log[|log| - 1];
    if i < |init| {
      assert HeldSince(c, unit, init, i, b) && !EndsFor(unit, log[i].m.quadrant, last, b);
      HeldInQuadrant(c, unit, init, i, b);
    }
  }

  lemma HeldStep(c: Config, unit: Unit, log: seq<Heard>, h: Heard, i: nat, b: Binding)
    ensures HeldSince(c, unit, log + [h], i, b) <==>
              if i == |log| then Concerns(unit, h) && !h.m.disinterest && b == MadeBy(c, unit, h)
              else HeldSince(c, unit, log, i, b) && !EndsFor(unit, log[i].m.quadrant, h, b)
  {
    var more := log + [h];
    assert forall j :: 0 <= j < |log| ==> more[j] == log[j];
    if HeldSince(c, unit, more, i, b) && i < |log| {
      assert !EndsFor(unit, log[i].m.quadrant, more[|log|], b);
      assert forall j :: i < j < |log| ==> !EndsFor(unit, log[i].m.quadrant, more[j], b);
    }
  }

  /**
   A producer's bindings are a replay of what it heard: b is one of them iff some interest made it and
   since then no message about the unit has come from another quadrant or from that consumer, and no
   reaper pass was later than its end.
   */
  lemma {:induction false} ProducerIsReplay(c: Config, unit: Unit, log: seq<Heard>, b: Binding)
    ensures b in ProducerAfter(c, unit, log).bindings <==> exists i: nat :: HeldSince(c, unit, log, i, b)
  {
    if log != [] {
      var init, last := log[..|log| - 1], log[|log| - 1];
      assert init + [last] == log;
      var p := ProducerAfter(c, unit, init);
      ProducerInv(c, unit, init);
      ProducerIsReplay(c, unit, init, b);
      ProduceMember(c, unit, p, last, b);
      forall i: nat
        ensures HeldSince(c, unit, log, i, b) <==>
                  if i == |init| then Concerns(unit, last) && !last.m.disinterest && b == MadeBy(c, unit, last)
                  else HeldSince(c, unit, init, i, b) && !EndsFor(unit, p.quad, last, b)
      {
        HeldStep(c, unit, init, last, i, b);
        if HeldSince(c, unit, init, i, b) {
          HeldInQuadrant(c, unit, init, i, b);
        }
      }
      if Concerns(unit, last) && !last.m.disinterest && b == MadeBy(c, unit, last) {
        assert HeldSince(c, unit, log, |init|, b);
      } else if b in ProducerAfter(c, unit, log).bindings {
        var i: nat :| HeldSince(c, unit, init, i, b);
        assert HeldSince(c, unit, log, i, b);
      }
    }
  }

  /** Every binding a producer holds was asked for since it last heard the quadrant change. */
  lemma SurvivorsAreFromThisQuadrant(c: Config, unit: Unit, log: seq<Heard>, b: Binding) returns (i: nat)
    requires b in ProducerAfter(c, unit, log).bindings
    ensures i < |log| && Concerns(unit, log[i]) && !log[i].m.disinterest && log[i].m.from == b.address
    ensures forall j :: i <= j < |log| && Concerns(unit, log[j]) ==> log[j].m.quadrant == log[i].m.quadrant
  {
    ProducerIsReplay(c, unit, log, b);
    i :| HeldSince(c, unit, log, i, b);
    forall j | i <= j < |log| && Concerns(unit, log[j])
      ensures log[j].m.quadrant == log[i].m.quadrant
    {
      assert j > i ==> !EndsFor(unit, log[i].m.quadrant, log[j], b);
    }
  }

  /**
   The unit has a thread iff some interest is held, and the thread runs at the least period that a
   held interest asks for, though never below 1.
   */
  lemma ServedAtLeastPeriod(c: Config, unit: Unit, log: seq<Heard>, threads: map<Unit, nat>)
    requires ThreadsAgree(ProducerAfter(c, unit, log).bindings, threads)
    ensures unit in threads <==> exists i: nat, b :: HeldSince(c, unit, log, i, b)
    ensures forall i: nat, b :: HeldSince(c, unit, log, i, b) ==>
              unit in threads && threads[unit] <= if log[i].m.period >= 1 then log[i].m.period else 1
    ensures unit in threads ==>
              exists i: nat, b :: HeldSince(c, unit, log, i, b)
                                  && threads[unit] == if log[i].m.period >= 1 then log[i].m.period else 1
  {
    var s := ProducerAfter(c, unit, log).bindings;
    ProducerInv(c, unit, log);
    ProducerClamped(c, unit, log);
    ShortestIsLeast(s, unit);
    forall i: nat, b | HeldSince(c, unit, log, i, b)
      ensures unit in threads && threads[unit] <= b.period
    {
      ProducerIsReplay(c, unit, log, b);
    }
    if unit in threads {
      var b :| b in s && b.unit == unit && b.period == threads[unit];
      ProducerIsReplay(c, unit, log, b);
      var i: nat :| HeldSince(c, unit, log, i, b);
    }
  }

  lemma ProducerClamped(c: Config, unit: Unit, log: seq<Heard>)
    ensures Clamped(ProducerAfter(c, unit, log).bindings)
  {
    forall b | b in ProducerAfter(c, unit, log).bindings
      ensures b.period >= 1
    {
      ProducerIsReplay(c, unit, log, b);
    }
  }

  /** One consumer's interest, in the quadrant the producer is in, costs no other its binding. */
  lemma OthersAreStillServed(c: Config, unit: Unit, log: seq<Heard>, m: Message, now: int, b: Binding)
    requires b in ProducerAfter(c, unit, log).bindings && m.from != b.address
    requires m.quadrant == ProducerAfter(c, unit, log).quad
    ensures b in ProducerAfter(c, unit, log + [Received(m, now)]).bindings
  {
    assert (log + [Received(m, now)])[..|log|] == log;
    ProducerInv(c, unit, log);
    ProduceMember(c, unit, ProducerAfter(c, unit, log), Received(m, now), b);
  }
}
