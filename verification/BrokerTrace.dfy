/** The language of what a broker sends about each unit, over every log. */
module BrokerTrace {
  import opened Sequences
  import opened Broker
  import opened BrokerRuns

  /** Everything sent along the log, in order. */
  function Sent(log: seq<Event>): seq<Announcement>
  {
    if log == [] then []
    else
      var init, last := log[..|log| - 1], log[|log| - 1];
      Sent(init) + (if last.Tick? then Announced(After(init), last.now) else [])
  }

  function About(sent: seq<Announcement>, u: Unit): seq<Announcement>
  {
    Keep(sent, (x: Announcement) => x.unit == u)
  }

  function StopCount(sent: seq<Announcement>): nat
  {
    |Keep(sent, (x: Announcement) => x.Stop?)|
  }

  /** (repeat+ stop)* repeat*: each stop comes directly after a repeat. */
  ghost predicate InLanguage(trace: seq<Announcement>)
  {
    forall i :: 0 <= i < |trace| && trace[i].Stop? ==> i > 0 && trace[i - 1].Repeat?
  }

  ghost predicate Increasing(units: seq<Unit>)
  {
    forall i, j :: 0 <= i < j < |units| ==> units[i] < units[j]
  }

  lemma LastIsNew(units: seq<Unit>)
    requires Increasing(units) && units != []
    ensures Increasing(units[..|units| - 1])
    ensures units[|units| - 1] !in units[..|units| - 1]
    ensures forall u :: u in units <==> u in units[..|units| - 1] || u == units[|units| - 1]
  {
    assert units == units[..|units| - 1] + [units[|units| - 1]];
  }

  lemma {:induction false} StopsAbout(units: seq<Unit>, active: map<Unit, nat>, u: Unit)
    requires Increasing(units)
    ensures About(Stops(units, active), u) == if u in units && u !in active then [Stop(u)] else []
  {
    if units != [] {
      var init, last := units[..|units| - 1], units[|units| - 1];
      var tail: seq<Announcement> := if last in active then [] else [Stop(last)];
      LastIsNew(units);
      StopsAbout(init, active, u);
      KeepConcat(Stops(init, active), tail, (x: Announcement) => x.unit == u);
      assert About(tail, u) == if last == u && u !in active then [Stop(u)] else [];
    }
  }

  lemma {:induction false} StopsAreStops(units: seq<Unit>, active: map<Unit, nat>)
    ensures StopCount(Stops(units, active)) == |Stops(units, active)|
  {
    if units != [] {
      var init, last := units[..|units| - 1], units[|units| - 1];
      var tail: seq<Announcement> := if last in active then [] else [Stop(last)];
      StopsAreStops(init, active);
      KeepConcat(Stops(init, active), tail, (x: Announcement) => x.Stop?);
    }
  }

  lemma {:induction false} RepeatsAbout(units: seq<Unit>, active: map<Unit, nat>, u: Unit)
    requires Increasing(units)
    ensures About(Repeats(units, active), u) == if u in units && u in active then [Repeat(u, active[u])] else []
  {
    if units != [] {
      var init, last := units[..|units| - 1], units[|units| - 1];
      var tail: seq<Announcement> := if last in active then [Repeat(last, active[last])] else [];
      LastIsNew(units);
      RepeatsAbout(init, active, u);
      KeepConcat(Repeats(init, active), tail, (x: Announcement) => x.unit == u);
      assert About(tail, u) == if last == u && u in active then [Repeat(u, active[u])] else [];
    }
  }

  lemma {:induction false} RepeatsAreNoStops(units: seq<Unit>, active: map<Unit, nat>)
    ensures StopCount(Repeats(units, active)) == 0
  {
    if units != [] {
      var init, last := units[..|units| - 1], units[|units| - 1];
      var tail: seq<Announcement> := if last in active then [Repeat(last, active[last])] else [];
      RepeatsAreNoStops(init, active);
      KeepConcat(Repeats(init, active), tail, (x: Announcement) => x.Stop?);
    }
  }

  /** What the next tick says about u: a repeat if u has an entry, a stop if it only had one at the last tick. */
  function Says(t: Tracker, now: int, u: Unit): seq<Announcement>
  {
    var active := Active(Surviving(t, now));
    if u in active then [Repeat(u, active[u])] else if u in t.active then [Stop(u)] else []
  }

  lemma TickAbout(t: Tracker, now: int, u: Unit)
    ensures About(Announced(t, now), u) == Says(t, now, u)
  {
    var active := Active(Surviving(t, now));
    StopsAbout(Ascending(t.active), active, u);
    RepeatsAbout(Ascending(active.Keys), active, u);
    KeepConcat(Stops(Ascending(t.active), active), Repeats(Ascending(active.Keys), active),
               (x: Announcement) => x.unit == u);
  }

  lemma TraceStep(log: seq<Event>, now: int, u: Unit)
    ensures About(Sent(log + [Tick(now)]), u) == About(Sent(log), u) + Says(After(log), now, u)
    ensures StopCount(Sent(log + [Tick(now)])) - StopCount(Sent(log))
            == |Stops(Ascending(After(log).active), Active(Surviving(After(log), now)))|
  {
    assert (log + [Tick(now)])[..|log|] == log;
    var t := After(log);
    var active := Active(Surviving(t, now));
    var stops, repeats := Stops(Ascending(t.active), active), Repeats(Ascending(active.Keys), active);
    TickAbout(t, now, u);
    KeepConcat(Sent(log), Announced(t, now), (x: Announcement) => x.unit == u);
    KeepConcat(Sent(log), Announced(t, now), (x: Announcement) => x.Stop?);
    KeepConcat(stops, repeats, (x: Announcement) => x.Stop?);
    StopsAreStops(Ascending(t.active), active);
    RepeatsAreNoStops(Ascending(active.Keys), active);
  }

  /** The last thing said about u was a repeat. */
  predicate Open(trace: seq<Announcement>)
  {
    trace != [] && trace[|trace| - 1].Repeat?
  }

  lemma ExtendTrace(trace: seq<Announcement>, x: Announcement)
    requires InLanguage(trace) && (x.Stop? ==> Open(trace))
    ensures InLanguage(trace + [x])
    ensures Open(trace + [x]) <==> x.Repeat?
  {
  }

  /** Saying what a tick says keeps the language, and leaves the trace open iff u is active afterwards. */
  lemma SayingKeepsLanguage(t: Tracker, now: int, u: Unit, trace: seq<Announcement>)
    requires InLanguage(trace) && (u in t.active <==> Open(trace))
    ensures InLanguage(trace + Says(t, now, u))
    ensures u in AfterTick(t, now).active <==> Open(trace + Says(t, now, u))
  {
    var says := Says(t, now, u);
    if says == [] {
      assert trace + says == trace;
    } else {
      ExtendTrace(trace, says[0]);
    }
  }

  lemma {:induction false} TraceInv(log: seq<Event>, u: Unit)
    ensures InLanguage(About(Sent(log), u))
    ensures u in After(log).active <==> Open(About(Sent(log), u))
  {
    if log != [] {
      var init, last := log[..|log| - 1], log[|log| - 1];
      TraceInv(init, u);
      if last.Tick? {
        assert init + [Tick(last.now)] == log;
        TraceStep(init, last.now, u);
        SayingKeepsLanguage(After(init), last.now, u, About(Sent(init), u));
      } else {
        assert Sent(log) == Sent(init);
      }
    }
  }

  lemma {:induction false} OnlyStops(units: seq<Unit>, active: map<Unit, nat>)
    ensures forall x :: x in Stops(units, active) ==> x.Stop?
    ensures forall x :: x in Repeats(units, active) ==> x.Repeat?
  {
    if units != [] {
      OnlyStops(units[..|units| - 1], active);
    }
  }

  /** A tick sends all its stops before its repeats. */
  lemma StopsComeFirst(t: Tracker, now: int, i: nat, j: nat)
    requires i < j < |Announced(t, now)| && Announced(t, now)[j].Stop?
    ensures Announced(t, now)[i].Stop?
  {
    var active := Active(Surviving(t, now));
    var stops, repeats := Stops(Ascending(t.active), active), Repeats(Ascending(active.Keys), active);
    OnlyStops(Ascending(t.active), active);
    OnlyStops(Ascending(active.Keys), active);
    assert forall k :: |stops| <= k < |stops| + |repeats| ==> Announced(t, now)[k] in repeats;
    assert Announced(t, now)[i] == stops[i] && stops[i] in stops;
  }

  /** For each unit the broker only ever sends (repeat+ stop)* repeat*. */
  lemma TraceIsInLanguage(log: seq<Event>, u: Unit)
    ensures InLanguage(About(Sent(log), u))
  {
    TraceInv(log, u);
  }

  /** The counter of disinterests is the number of stops sent: by the language, of blocks finished. */
  lemma {:induction false} CounterCountsStops(log: seq<Event>)
    ensures After(log).stops == StopCount(Sent(log))
  {
    if log != [] {
      var init, last := log[..|log| - 1], log[|log| - 1];
      CounterCountsStops(init);
      if last.Tick? {
        assert init + [Tick(last.now)] == log;
        TraceStep(init, last.now, 0);
      } else {
        assert Sent(log) == Sent(init);
      }
    }
  }

  lemma SaysDecision(t: Tracker, now: int, u: Unit)
    ensures
      var left := Surviving(t, now);
      var wanted := exists e :: e in left && e.unit == u;
      && (Says(t, now, u) == [Stop(u)] <==> u in t.active && !wanted)
      && (Says(t, now, u) == [] <==> u !in t.active && !wanted)
  {
    ActiveIsLeast(Surviving(t, now), u);
  }

  lemma SaysLeast(t: Tracker, now: int, u: Unit, p: nat)
    ensures
      var left := Surviving(t, now);
      Says(t, now, u) == [Repeat(u, p)] <==>
        (exists e :: e in left && e.unit == u && e.period == p)
        && forall e :: e in left && e.unit == u ==> p <= e.period
  {
    ActiveIsLeast(Surviving(t, now), u);
  }

  /** A tick sends a stop for u iff the last thing said about u was a repeat and no entry asks for u any more. */
  lemma StopDecision(log: seq<Event>, now: int, u: Unit)
    ensures
      var said := About(Announced(After(log), now), u);
      var wanted := exists e :: e in After(log + [Tick(now)]).interests && e.unit == u;
      && (said == [Stop(u)] <==> Open(About(Sent(log), u)) && !wanted)
      && (said == [] <==> !Open(About(Sent(log), u)) && !wanted)
  {
    assert (log + [Tick(now)])[..|log|] == log;
    TraceInv(log, u);
    TickAbout(After(log), now, u);
    SaysDecision(After(log), now, u);
  }

  /** A tick repeats u iff some entry asks for it, and then at the least period any entry asks for. */
  lemma RepeatDecision(log: seq<Event>, now: int, u: Unit, p: nat)
    ensures
      var left := After(log + [Tick(now)]).interests;
      About(Announced(After(log), now), u) == [Repeat(u, p)] <==>
        (exists e :: e in left && e.unit == u && e.period == p)
        && forall e :: e in left && e.unit == u ==> p <= e.period
  {
    assert (log + [Tick(now)])[..|log|] == log;
    TickAbout(After(log), now, u);
    SaysLeast(After(log), now, u, p);
  }
}
