/** The absolute-deadline scheduler: under any job durations and period changes, what its deadlines are. */
module PeriodicThread {

  /** One round of the loop: when the job started, the clock after it, the period then in force (microseconds). */
  datatype Round = Round(start: int, now: int, periodUs: nat)
  {
    function Period(): nat { periodUs * 1000 }
  }

  /** The deadline a round sets, given its own. */
  function Next(deadline: int, r: Round): int
  {
    if deadline + r.Period() < r.now then r.now + r.Period() else deadline + r.Period()
  }

  /** The deadline before round k; round 0's is the time the loop began. */
  function Deadline(t0: int, rounds: seq<Round>, k: nat): int
    requires k <= |rounds|
  {
    if k == 0 then t0 else Next(Deadline(t0, rounds, k - 1), rounds[k - 1])
  }

  /** Time passes: no job starts before its deadline, and none has finished before it started. */
  ghost predicate Timely(t0: int, rounds: seq<Round>)
  {
    forall k :: 0 <= k < |rounds| ==> Deadline(t0, rounds, k) <= rounds[k].start <= rounds[k].now
  }

  predicate Overruns(t0: int, rounds: seq<Round>, k: nat)
    requires k < |rounds|
  {
    Deadline(t0, rounds, k) + rounds[k].Period() < rounds[k].now
  }

  function PeriodSum(rounds: seq<Round>, k: nat): nat
    requires k <= |rounds|
  {
    if k == 0 then 0 else PeriodSum(rounds, k - 1) + rounds[k - 1].Period()
  }

  class Thread {
    var periodUs: nat
    var next: int

    constructor (periodUs: nat)
      ensures this.periodUs == periodUs
    {
      this.periodUs := periodUs;
      next := 0;
    }

    method SetPeriod(periodUs: nat)
      modifies this`periodUs
      ensures this.periodUs == periodUs
    {
      this.periodUs := periodUs;
    }

    /** The loop, fed with what the clock and `set_period` did in each round; it records each deadline it waits for. */
    method Loop(t0: int, rounds: seq<Round>) returns (deadlines: seq<int>)
      modifies this
      ensures |deadlines| == |rounds|
      ensures forall k :: 0 <= k < |rounds| ==> deadlines[k] == Deadline(t0, rounds, k + 1)
      ensures next == Deadline(t0, rounds, |rounds|)
    {
      next := t0;
      deadlines := [];
      for k := 0 to |rounds|
        invariant next == Deadline(t0, rounds, k)
        invariant |deadlines| == k && forall i :: 0 <= i < k ==> deadlines[i] == Deadline(t0, rounds, i + 1)
      {
        assert Deadline(t0, rounds, k + 1) == Next(Deadline(t0, rounds, k), rounds[k]);
        periodUs := rounds[k].periodUs;
        var period := periodUs * 1000;
        next := next + period;
        var now := rounds[k].now;
        if next < now {
          next := now + period;
        }
        deadlines := deadlines + [next];
      }
    }
  }

  /**
   A round that ends by its next deadline, a period after its own, keeps to it; one that overruns it
   starts anew, a period after it ended.
   */
  lemma OverrunStartsAnew(t0: int, rounds: seq<Round>, k: nat)
    requires k < |rounds|
    ensures
      var due := Deadline(t0, rounds, k) + 1000 * rounds[k].periodUs;
      Deadline(t0, rounds, k + 1) == if rounds[k].now <= due then due else rounds[k].now + 1000 * rounds[k].periodUs
  {
  }

  /** Deadlines never bunch: each is at least one period, the one in force, after the one before. */
  lemma {:induction false} DeadlinesNeverBunch(t0: int, rounds: seq<Round>, j: nat, k: nat)
    requires j <= k <= |rounds|
    ensures Deadline(t0, rounds, k) - Deadline(t0, rounds, j) >= PeriodSum(rounds, k) - PeriodSum(rounds, j)
    decreases k - j
  {
    if j < k {
      DeadlinesNeverBunch(t0, rounds, j, k - 1);
    }
  }

  /** Deadlines do not drift: the k-th is exactly the start plus the periods used iff no job before it overran. */
  lemma {:induction false} NoOverrunNoDrift(t0: int, rounds: seq<Round>, k: nat)
    requires k <= |rounds|
    ensures Deadline(t0, rounds, k) == t0 + PeriodSum(rounds, k)
            <==> forall i :: 0 <= i < k ==> !Overruns(t0, rounds, i)
    ensures Deadline(t0, rounds, k) >= t0 + PeriodSum(rounds, k)
  {
    if k > 0 {
      NoOverrunNoDrift(t0, rounds, k - 1);
      assert (forall i :: 0 <= i < k ==> !Overruns(t0, rounds, i))
        <==> !Overruns(t0, rounds, k - 1) && forall i :: 0 <= i < k - 1 ==> !Overruns(t0, rounds, i);
    }
  }

  lemma {:induction false} SumAtLeast(rounds: seq<Round>, k: nat, least: nat)
    requires k <= |rounds| && forall i :: 0 <= i < |rounds| ==> rounds[i].Period() >= least
    ensures PeriodSum(rounds, k) >= k * least
  {
    if k > 0 {
      SumAtLeast(rounds, k - 1, least);
      assert k * least == (k - 1) * least + least;
    }
  }

  /** With every period at least `least`, at most floor((t - t0) / least) + 1 jobs have started by time t. */
  lemma RateIsBounded(t0: int, rounds: seq<Round>, least: nat, t: int)
    requires Timely(t0, rounds) && least >= 1 && rounds != []
    requires forall i :: 0 <= i < |rounds| ==> rounds[i].Period() >= least && rounds[i].start <= t
    ensures t >= t0 && |rounds| <= (t - t0) / least + 1
  {
    var last := |rounds| - 1;
    DeadlinesNeverBunch(t0, rounds, 0, last);
    SumAtLeast(rounds, last, least);
    assert Deadline(t0, rounds, last) <= rounds[last].start <= t;
    assert last * least <= t - t0;
    QuotientAtLeast(last, least, t - t0);
  }

  lemma QuotientAtLeast(q: nat, d: nat, n: nat)
    requires d >= 1 && q * d <= n
    ensures q <= n / d
  {
    var whole, rest := n / d, n % d;
    assert n == whole * d + rest;
    assert (whole + 1) * d == whole * d + d;
    MultipleMonotone(whole + 1, q, d);
  }

  lemma MultipleMonotone(a: nat, b: nat, d: nat)
    ensures a <= b ==> a * d <= b * d
  {
  }
}
