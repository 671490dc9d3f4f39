/** The broker over a whole log of events: its list is a replay of the log, and what it sends is a regular language. */
module BrokerRuns {
  import opened Addresses
  import opened Sequences
  import opened Broker

  datatype Event =
    | Heard(m: Message, now: int)
    | Present(from: Address, now: int)
    | Tick(now: int)

  function Apply(t: Tracker, e: Event): Tracker
  {
    match e
    case Heard(m, now) => AfterMessage(t, m, now)
    case Present(from, now) => AfterPresence(t, from, now)
    case Tick(now) => AfterTick(t, now)
  }

  /** The broker after the whole log. */
  function After(log: seq<Event>): Tracker
  {
    if log == [] then EMPTY else Apply(After(log[..|log| - 1]), log[|log| - 1])
  }

  /** A whole interest message. */
  predicate InterestHeard(e: Event)
  {
    e.Heard? && e.m.kind.Interest? && e.m.size >= 14
  }

  predicate Asks(e: Event, u: Unit, a: Address)
  {
    InterestHeard(e) && !e.m.disinterest && e.m.unit == u && e.m.from == a
  }

  predicate Withdraws(e: Event, u: Unit, a: Address)
  {
    InterestHeard(e) && e.m.disinterest && e.m.unit == u && e.m.from == a
  }

  /** The event shows that the vehicle with this address is there. */
  predicate Sights(e: Event, mac: Mac)
  {
    (e.Present? && e.from.mac == mac) || (InterestHeard(e) && !e.m.disinterest && e.m.from.mac == mac)
  }

  datatype Time = Never | At(t: int)

  function LastSeen(log: seq<Event>, mac: Mac): Time
  {
    if log == [] then Never
    else
      var last := log[|log| - 1];
      if Sights(last, mac) then At(last.now) else LastSeen(log[..|log| - 1], mac)
  }

  /** At event j the vehicle's presence lease has run out. */
  predicate ExpiresAt(log: seq<Event>, j: nat, mac: Mac)
    requires j < |log|
  {
    log[j].Tick? && var seen := LastSeen(log[..j], mac); seen.At? && log[j].now - seen.t > 4_000_000_000
  }

  /** Event j settles anew whether (u, a) is wanted. */
  predicate Overtakes(log: seq<Event>, j: nat, u: Unit, a: Address)
    requires j < |log|
  {
    Asks(log[j], u, a) || Withdraws(log[j], u, a) || ExpiresAt(log, j, a.mac)
  }

  /** Event i is an interest in (u, a) that no later interest, disinterest or expiry has overtaken. */
  ghost predicate StandsAt(log: seq<Event>, i: nat, u: Unit, a: Address)
  {
    && i < |log| && Asks(log[i], u, a)
    && forall j :: i < j < |log| ==> !Overtakes(log, j, u, a)
  }

  // ----- The state's invariant along the log -----

  ghost predicate Unique(s: seq<Entry>)
  {
    DistinctBy(s, (e: Entry) => (e.unit, e.address))
  }

  ghost predicate PresenceTrue(t: Tracker, log: seq<Event>)
  {
    && (forall e :: e in t.interests ==> e.Key() in t.presence)
    && (forall mac: Mac :: MacKey(mac) in t.presence ==> LastSeen(log, mac) == At(t.presence[MacKey(mac)]))
  }

  lemma ListedMembers(s: seq<Entry>, u: Unit, a: Address, period: nat)
    requires Unique(s)
    ensures Unique(Listed(s, u, a, period))
    ensures forall e :: e in Listed(s, u, a, period) <==>
              if e.Is(u, a) then e.period == period else e in s
  {
    var r := Listed(s, u, a, period);
    var i := First(s, (x: Entry) => x.Is(u, a));
    if i < |s| {
      assert r[i] == Entry(u, a, period);
      forall e
        ensures e in r <==> if e.Is(u, a) then e.period == period else e in s
      {
        if e in s && !e.Is(u, a) {
          var k :| 0 <= k < |s| && s[k] == e;
          assert r[k] == e;
        }
        if e.Is(u, a) && e.period == period {
          assert r[i] == e;
        }
      }
    } else {
      assert forall k :: 0 <= k < |s| ==> !s[k].Is(u, a);
      assert r[|s|] == Entry(u, a, period);
      forall e
        ensures e in r <==> if e.Is(u, a) then e.period == period else e in s
      {
        if e.Is(u, a) && e.period == period {
          assert e == r[|s|];
        }
      }
    }
  }

  lemma StepKeepsUnique(t: Tracker, e: Event)
    requires Unique(t.interests)
    ensures Unique(Apply(t, e).interests)
  {
    match e
    case Heard(m, _) =>
      if IsInterest(m) {
        if m.disinterest {
          KeepDistinct(t.interests, (x: Entry) => !x.Is(m.unit, m.from), (k: Entry) => (k.unit, k.address));
        } else {
          ListedMembers(t.interests, m.unit, m.from, m.period);
        }
      }
    case Present(_, _) =>
    case Tick(now) =>
      KeepDistinct(t.interests, (x: Entry) => !Expired(t.presence, now, x.Key()), (k: Entry) => (k.unit, k.address));
  }

  lemma SightingKeepsPresence(t: Tracker, log: seq<Event>, from: Address, e: Event)
    requires forall mac: Mac :: MacKey(mac) in t.presence ==> LastSeen(log, mac) == At(t.presence[MacKey(mac)])
    requires forall mac: Mac :: Sights(e, mac) <==> mac == from.mac
    ensures
      var presence := t.presence[MacKey(from.mac) := e.now];
      forall mac: Mac :: MacKey(mac) in presence ==> LastSeen(log + [e], mac) == At(presence[MacKey(mac)])
  {
    var presence := t.presence[MacKey(from.mac) := e.now];
    assert (log + [e])[..|log|] == log;
    forall mac: Mac | MacKey(mac) in presence
      ensures LastSeen(log + [e], mac) == At(presence[MacKey(mac)])
    {
      if MacKey(mac) == MacKey(from.mac) {
        MacKeyInjective(mac, from.mac);
      }
    }
  }

  lemma StepKeepsPresence(t: Tracker, log: seq<Event>, e: Event)
    requires Unique(t.interests) && PresenceTrue(t, log)
    ensures PresenceTrue(Apply(t, e), log + [e])
  {
    assert (log + [e])[..|log|] == log;
    match e
    case Heard(m, now) =>
      if IsInterest(m) && !m.disinterest {
        SightingKeepsPresence(t, log, m.from, e);
        ListedMembers(t.interests, m.unit, m.from, m.period);
      }
    case Present(from, now) => SightingKeepsPresence(t, log, from, e);
    case Tick(now) =>
  }

  lemma {:induction false} AfterKeepsOrder(log: seq<Event>)
    ensures Unique(After(log).interests) && PresenceTrue(After(log), log)
  {
    if log != [] {
      var init, last := log[..|log| - 1], log[|log| - 1];
      assert init + [last] == log;
      AfterKeepsOrder(init);
      StepKeepsUnique(After(init), last);
      StepKeepsPresence(After(init), init, last);
    }
  }

  // ----- The list is a replay of the log -----

  lemma StandsStep(log: seq<Event>, e: Event, i: nat, u: Unit, a: Address)
    ensures StandsAt(log + [e], i, u, a) <==>
              if i == |log| then Asks(e, u, a)
              else StandsAt(log, i, u, a) && !Overtakes(log + [e], |log|, u, a)
  {
    var more := log + [e];
    forall j | 0 <= j < |log|
      ensures Overtakes(more, j, u, a) <==> Overtakes(log, j, u, a)
    {
      assert more[j] == log[j] && more[..j] == log[..j];
    }
    if i < |log| {
      assert more[i] == log[i];
      if StandsAt(more, i, u, a) {
        assert forall j :: i < j < |log| ==> !Overtakes(log, j, u, a);
      }
    }
  }

  /** What one event does to the entry for (u, a). */
  lemma StepMembers(t: Tracker, log: seq<Event>, e: Event, x: Entry)
    requires Unique(t.interests) && PresenceTrue(t, log)
    ensures x in Apply(t, e).interests <==>
              if Asks(e, x.unit, x.address) then x.period == e.m.period
              else x in t.interests && !Overtakes(log + [e], |log|, x.unit, x.address)
  {
    assert (log + [e])[..|log|] == log;
    if e.Heard? && IsInterest(e.m) && !e.m.disinterest {
      ListedMembers(t.interests, e.m.unit, e.m.from, e.m.period);
    }
  }

  /**
   (u, a) is listed, at period p, iff the last event among interests, disinterests and lease
   expiries that concern it is an interest, asking for period p.
   */
  lemma {:induction false} ListIsReplay(log: seq<Event>, x: Entry)
    ensures x in After(log).interests <==>
              exists i: nat :: StandsAt(log, i, x.unit, x.address) && log[i].m.period == x.period
  {
    if log != [] {
      var init, last := log[..|log| - 1], log[|log| - 1];
      assert init + [last] == log;
      AfterKeepsOrder(init);
      ListIsReplay(init, x);
      StepMembers(After(init), init, last, x);
      forall i: nat
        ensures StandsAt(log, i, x.unit, x.address) <==>
                  if i == |init| then Asks(last, x.unit, x.address)
                  else StandsAt(init, i, x.unit, x.address) && !Overtakes(log, |init|, x.unit, x.address)
      {
        StandsStep(init, last, i, x.unit, x.address);
      }
      if Asks(last, x.unit, x.address) {
        assert StandsAt(log, |init|, x.unit, x.address);
      } else if x in After(log).interests {
        var i: nat :| StandsAt(init, i, x.unit, x.address) && init[i].m.period == x.period;
        assert StandsAt(log, i, x.unit, x.address);
      }
    }
  }

  /**
   A whole interest that is not a disinterest is listed right away, at the period it asks for, and the
   vehicle counts as seen; a shorter message, or a response, changes nothing at all.
   */
  lemma InterestIsListed(log: seq<Event>, m: Message, now: int)
    ensures m.kind.Interest? && m.size >= 14 && !m.disinterest ==>
              var after := After(log + [Heard(m, now)]);
              && Entry(m.unit, m.from, m.period) in after.interests
              && MacKey(m.from.mac) in after.presence && after.presence[MacKey(m.from.mac)] == now
    ensures m.kind.Response? || m.size < 14 ==> After(log + [Heard(m, now)]) == After(log)
  {
    assert (log + [Heard(m, now)])[..|log|] == log;
    AfterKeepsOrder(log);
    StepMembers(After(log), log, Heard(m, now), Entry(m.unit, m.from, m.period));
  }

  /** Entries are unique, and every listed vehicle is in the presence map. */
  lemma ListedAreUniqueAndPresent(log: seq<Event>)
    ensures Unique(After(log).interests)
    ensures forall e :: e in After(log).interests ==> e.Key() in After(log).presence
  {
    AfterKeepsOrder(log);
  }

  /** A tick leaves exactly the entries of vehicles seen within the lease. */
  lemma TickKeepsExactlyTheSeen(log: seq<Event>, now: int, e: Entry)
    ensures e in After(log + [Tick(now)]).interests <==>
              e in After(log).interests
              && var seen := LastSeen(log, e.address.mac); seen.At? && now - seen.t <= 4_000_000_000
  {
    AfterKeepsOrder(log);
    var more := log + [Tick(now)];
    assert more[..|more| - 1] == log;
    StepMembers(After(log), log, Tick(now), e);
  }
}
