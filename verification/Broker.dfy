/**
 The interest broker of a road-side unit: which vehicle wants which unit, who has been seen lately,
 and the periodic tick that forgets absent vehicles, repeats live interests and stops dead ones.
 `Tracker` is the broker's value; `InterestTracker` is the object whose methods update it.
 */
module Broker {
  import opened Addresses
  import opened Sequences

  type Unit = nat

  const PRESENCE_LEASE_NS: int := 4_000_000_000
  /** The packed sizes of `SmartHeader` and `InterestMessage`. */
  const HEADER_SIZE: nat := 5
  const INTEREST_SIZE: nat := 14

  datatype Kind = Interest | Response

  /** A received message; the last three fields are meaningful only for an interest. */
  datatype Message = Message(size: nat, kind: Kind, unit: Unit, from: Address, quadrant: nat,
                             period: nat, disinterest: bool)

  datatype Entry = Entry(unit: Unit, address: Address, period: nat)
  {
    function Key(): nat { MacKey(address.mac) }
    predicate Is(u: Unit, a: Address) { unit == u && address == a }
  }

  datatype Announcement = Repeat(unit: Unit, period: nat) | Stop(unit: Unit)

  datatype Tracker = Tracker(interests: seq<Entry>, presence: map<nat, int>, active: set<Unit>, stops: nat)

  const EMPTY := Tracker([], map[], {}, 0)

  function Listed(s: seq<Entry>, u: Unit, a: Address, period: nat): seq<Entry>
  {
    var i := First(s, (e: Entry) => e.Is(u, a));
    if i < |s| then s[i := s[i].(period := period)] else s + [Entry(u, a, period)]
  }

  function Unlisted(s: seq<Entry>, u: Unit, a: Address): seq<Entry>
  {
    Keep(s, (e: Entry) => !e.Is(u, a))
  }

  predicate IsInterest(m: Message)
  {
    m.size >= INTEREST_SIZE && m.kind.Interest?
  }

  function AfterPresence(t: Tracker, from: Address, now: int): Tracker
  {
    t.(presence := t.presence[MacKey(from.mac) := now])
  }

  function AfterMessage(t: Tracker, m: Message, now: int): Tracker
  {
    if !IsInterest(m) then t
    else if m.disinterest then t.(interests := Unlisted(t.interests, m.unit, m.from))
    else AfterPresence(t, m.from, now).(interests := Listed(t.interests, m.unit, m.from, m.period))
  }

  predicate Expired(presence: map<nat, int>, now: int, key: nat)
  {
    key in presence && now - presence[key] > PRESENCE_LEASE_NS
  }

  function Surviving(t: Tracker, now: int): seq<Entry>
  {
    Keep(t.interests, (e: Entry) => !Expired(t.presence, now, e.Key()))
  }

  /** Each unit that has an entry, with the least period asked for. */
  function Active(s: seq<Entry>): map<Unit, nat>
  {
    if s == [] then map[]
    else
      var rest, last := Active(s[..|s| - 1]), s[|s| - 1];
      if last.unit !in rest || last.period < rest[last.unit] then rest[last.unit := last.period] else rest
  }

  /** `Active` is what its name says: a unit is active iff some entry asks for it, at the least period asked. */
  lemma {:induction false} ActiveIsLeast(s: seq<Entry>, u: Unit)
    ensures u in Active(s) <==> exists e :: e in s && e.unit == u
    ensures u in Active(s) ==> exists e :: e in s && e.unit == u && e.period == Active(s)[u]
    ensures forall e :: e in s && e.unit == u ==> u in Active(s) && Active(s)[u] <= e.period
  {
    if s != [] {
      var rest, last := s[..|s| - 1], s[|s| - 1];
      ActiveIsLeast(rest, u);
      assert forall e :: e in s <==> e in rest || e == last;
    }
  }

  function Stops(units: seq<Unit>, active: map<Unit, nat>): seq<Announcement>
  {
    if units == [] then []
    else
      var last := units[|units| - 1];
      Stops(units[..|units| - 1], active) + (if last in active then [] else [Stop(last)])
  }

  function Repeats(units: seq<Unit>, active: map<Unit, nat>): seq<Announcement>
  {
    if units == [] then []
    else
      var last := units[|units| - 1];
      Repeats(units[..|units| - 1], active) + (if last in active then [Repeat(last, active[last])] else [])
  }

  /** What a tick sends: first the stops, then the repeats, each in unit order. */
  function Announced(t: Tracker, now: int): seq<Announcement>
  {
    var active := Active(Surviving(t, now));
    Stops(Ascending(t.active), active) + Repeats(Ascending(active.Keys), active)
  }

  function AfterTick(t: Tracker, now: int): Tracker
  {
    var interests := Surviving(t, now);
    var active := Active(interests);
    Tracker(interests,
            map k | k in t.presence && !Expired(t.presence, now, k) :: t.presence[k],
            active.Keys,
            t.stops + |Stops(Ascending(t.active), active)|)
  }

  class InterestTracker {
    var interests: seq<Entry>
    var presence: map<nat, int>
    var activeUnits: set<Unit>
    var disinterestsSent: nat

    ghost function View(): Tracker
      reads this
    {
      Tracker(interests, presence, activeUnits, disinterestsSent)
    }

    constructor ()
      ensures View() == EMPTY
    {
      interests, presence, activeUnits, disinterestsSent := [], map[], {}, 0;
    }

    method OnPresence(from: Address, now: int)
      modifies this
      ensures View() == AfterPresence(old(View()), from, now)
      ensures presence == old(presence)[MacKey(from.mac) := now] && interests == old(interests)
    {
      presence := presence[MacKey(from.mac) := now];
    }

    method Update(m: Message, now: int)
      modifies this
      ensures View() == AfterMessage(old(View()), m, now)
    {
      if m.size >= INTEREST_SIZE {
        if m.kind.Interest? {
          if m.disinterest {
            interests := Keep(interests, (e: Entry) => !e.Is(m.unit, m.from));
          } else {
            presence := presence[MacKey(m.from.mac) := now];
            var found := false;
            var i := 0;
            while i < |interests| && !found
              invariant 0 <= i <= |interests|
              invariant !found ==>
                          i <= First(old(interests), (e: Entry) => e.Is(m.unit, m.from)) && interests == old(interests)
              invariant found ==> First(old(interests), (e: Entry) => e.Is(m.unit, m.from)) < |old(interests)|
                                  && interests == Listed(old(interests), m.unit, m.from, m.period)
              invariant presence == AfterPresence(old(View()), m.from, now).presence
              invariant activeUnits == old(activeUnits) && disinterestsSent == old(disinterestsSent)
              decreases |interests| - i, !found
            {
              if interests[i].Is(m.unit, m.from) {
                interests := interests[i := interests[i].(period := m.period)];
                found := true;
              } else {
                i := i + 1;
              }
            }
            if !found {
              interests := interests + [Entry(m.unit, m.from, m.period)];
            }
          }
        }
      }
    }

    /** The first loop of `broker_tick`: the keys of vehicles not seen within the lease. */
    method CollectDead(now: int) returns (dead: seq<nat>)
      ensures forall k :: k in dead <==> Expired(presence, now, k)
    {
      var keys := Ascending(presence.Keys);
      dead := [];
      for i := 0 to |keys|
        invariant forall k :: k in dead <==> k in keys[..i] && Expired(presence, now, k)
      {
        assert keys[..i + 1] == keys[..i] + [keys[i]];
        assert keys[i] in presence.Keys;
        if now - presence[keys[i]] > PRESENCE_LEASE_NS {
          dead := dead + [keys[i]];
        }
      }
      assert keys[..|keys|] == keys;
    }

    /** The second loop: each dead vehicle's presence and interests go. */
    method Forget(dead: seq<nat>)
      modifies this`interests, this`presence
      ensures interests == Keep(old(interests), (e: Entry) => e.Key() !in dead)
      ensures presence == old(presence) - (set k | k in dead)
    {
      KeepAll(interests, (e: Entry) => e.Key() !in dead[..0]);
      for i := 0 to |dead|
        invariant presence == old(presence) - (set k | k in dead[..i])
        invariant interests == Keep(old(interests), (e: Entry) => e.Key() !in dead[..i])
      {
        var mac := dead[i];
        assert dead[..i + 1] == dead[..i] + [mac];
        presence := presence - {mac};
        interests := Keep(interests, (e: Entry) => e.Key() != mac);
        KeepTwice(old(interests), (e: Entry) => e.Key() !in dead[..i], (e: Entry) => e.Key() != mac,
                  (e: Entry) => e.Key() !in dead[..i + 1]);
      }
      assert dead[..|dead|] == dead;
    }

    /** Both loops together: forget vehicles not seen within the lease, and their interests. */
    method DropAbsent(now: int)
      modifies this`interests, this`presence
      ensures interests == Surviving(old(View()), now)
      ensures presence == AfterTick(old(View()), now).presence
    {
      var dead := CollectDead(now);
      Forget(dead);
      KeepSame(old(interests), (e: Entry) => e.Key() !in dead, (e: Entry) => !Expired(old(presence), now, e.Key()));
    }

    /** The third loop: the active units and the shortest period asked for each. */
    method ActivePeriods() returns (active: map<Unit, nat>)
      ensures active == Active(interests)
    {
      active := map[];
      for i := 0 to |interests|
        invariant active == Active(interests[..i])
      {
        assert interests[..i + 1][..i] == interests[..i];
        var e := interests[i];
        if e.unit !in active || e.period < active[e.unit] {
          active := active[e.unit := e.period];
        }
      }
      assert interests[..|interests|] == interests;
    }

    /** The fourth loop: a stop for each unit announced at the last tick that has no entry now. */
    method CollectStops(active: map<Unit, nat>) returns (toStop: seq<Announcement>)
      ensures toStop == Stops(Ascending(activeUnits), active)
    {
      var units := Ascending(activeUnits);
      toStop := [];
      for i := 0 to |units|
        invariant toStop == Stops(units[..i], active)
      {
        assert units[..i + 1][..i] == units[..i];
        if units[i] !in active {
          toStop := toStop + [Stop(units[i])];
        }
      }
      assert units[..|units|] == units;
    }

    /** The fifth loop: a repeat for each active unit. */
    method CollectRepeats(active: map<Unit, nat>) returns (toRepeat: seq<Announcement>)
      ensures toRepeat == Repeats(Ascending(active.Keys), active)
    {
      var units := Ascending(active.Keys);
      toRepeat := [];
      for i := 0 to |units|
        invariant toRepeat == Repeats(units[..i], active)
      {
        assert units[..i + 1][..i] == units[..i];
        assert units[i] in active.Keys;
        toRepeat := toRepeat + [Repeat(units[i], active[units[i]])];
      }
      assert units[..|units|] == units;
    }

    /** The tick: what it sends, and the whole new state. */
    method BrokerTick(now: int) returns (sent: seq<Announcement>)
      modifies this
      ensures View() == AfterTick(old(View()), now)
      ensures sent == Announced(old(View()), now)
      ensures forall k :: k in presence <==>
                k in old(presence) && now - old(presence)[k] <= PRESENCE_LEASE_NS
      ensures forall k :: k in presence ==> presence[k] == old(presence)[k]
    {
      DropAbsent(now);
      var active := ActivePeriods();
      var toStop := CollectStops(active);
      var toRepeat := CollectRepeats(active);
      activeUnits := active.Keys;
      disinterestsSent := disinterestsSent + |toStop|;
      sent := toStop + toRepeat;
    }
  }
}
