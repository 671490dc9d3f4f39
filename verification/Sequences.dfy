/** Sums, minima and filters over sequences, with the laws for updating one position. */
module Sequences {

  /** The sum of f over the elements of s. */
  function Total<T>(f: T -> nat, s: seq<T>): nat
  {
    if s == [] then 0 else f(s[0]) + Total(f, s[1..])
  }

  lemma {:induction false} TotalUpdate<T>(f: T -> nat, s: seq<T>, i: nat, x: T)
    requires i < |s|
    ensures Total(f, s[i := x]) == Total(f, s) - f(s[i]) + f(x)
  {
    if i == 0 {
      assert s[i := x][1..] == s[1..];
    } else {
      assert s[i := x][1..] == s[1..][i - 1 := x];
      TotalUpdate(f, s[1..], i - 1, x);
    }
  }

  lemma TotalOne<T>(f: T -> nat, x: T)
    ensures Total(f, [x]) == f(x)
  {
    assert [x][1..] == [];
  }

  lemma {:induction false} TotalConcat<T>(f: T -> nat, a: seq<T>, b: seq<T>)
    ensures Total(f, a + b) == Total(f, a) + Total(f, b)
  {
    if a == [] {
      assert a + b == b;
    } else {
      assert (a + b)[1..] == a[1..] + b;
      TotalConcat(f, a[1..], b);
    }
  }

  lemma TotalAppend<T>(f: T -> nat, s: seq<T>, more: seq<T>)
    requires |more| <= 1
    ensures Total(f, s + more) == Total(f, s) + if more == [] then 0 else f(more[0])
  {
    TotalConcat(f, s, more);
    if more != [] {
      TotalOne(f, more[0]);
    }
  }

  lemma TotalTail<T>(f: T -> nat, s: seq<T>)
    requires s != []
    ensures Total(f, s) == f(s[0]) + Total(f, s[1..])
  {
  }

  /** An element's share is at most the total. */
  lemma {:induction false} TotalAtLeast<T>(f: T -> nat, s: seq<T>, i: nat)
    requires i < |s|
    ensures f(s[i]) <= Total(f, s)
  {
    if i > 0 {
      TotalAtLeast(f, s[1..], i - 1);
    }
  }

  /** So are two elements' shares together. */
  lemma {:induction false} TotalAtLeastTwo<T>(f: T -> nat, s: seq<T>, i: nat, j: nat)
    requires i < j < |s|
    ensures f(s[i]) + f(s[j]) <= Total(f, s)
  {
    if i == 0 {
      TotalAtLeast(f, s[1..], j - 1);
    } else {
      TotalAtLeastTwo(f, s[1..], i - 1, j - 1);
    }
  }

  lemma {:induction false} TotalZero<T>(f: T -> nat, s: seq<T>)
    requires forall i :: 0 <= i < |s| ==> f(s[i]) == 0
    ensures Total(f, s) == 0
  {
    if s != [] {
      assert f(s[0]) == 0;
      TotalZero(f, s[1..]);
    }
  }

  /** The multiset sum of f over the elements of s. */
  function Gather<T, U>(f: T -> multiset<U>, s: seq<T>): multiset<U>
  {
    if s == [] then multiset{} else f(s[0]) + Gather(f, s[1..])
  }

  lemma {:induction false} GatherNothing<T, U>(f: T -> multiset<U>, s: seq<T>)
    requires forall i :: 0 <= i < |s| ==> f(s[i]) == multiset{}
    ensures Gather(f, s) == multiset{}
  {
    if s != [] {
      assert f(s[0]) == multiset{};
      GatherNothing(f, s[1..]);
    }
  }

  lemma {:induction false} GatherUpdate<T, U>(f: T -> multiset<U>, s: seq<T>, i: nat, x: T)
    requires i < |s|
    ensures Gather(f, s[i := x]) + f(s[i]) == Gather(f, s) + f(x)
  {
    var changed, rest := s[i := x], s[1..];
    if i == 0 {
      assert changed[1..] == rest;
      Swap(f(x), Gather(f, rest), f(s[0]));
    } else {
      assert changed[1..] == rest[i - 1 := x] && changed[0] == s[0] && rest[i - 1] == s[i];
      GatherUpdate(f, rest, i - 1, x);
      Regroup(f(s[0]), Gather(f, changed[1..]), f(s[i]), Gather(f, rest), f(x));
    }
  }

  lemma MultisetCancel<T>(a: multiset<T>, b: multiset<T>, shared: multiset<T>)
    requires a + shared == b + shared
    ensures a == b
  {
    assert (a + shared) - shared == a && (b + shared) - shared == b;
  }

  lemma Regroup<T>(a: multiset<T>, b: multiset<T>, c: multiset<T>, d: multiset<T>, e: multiset<T>)
    requires b + c == d + e
    ensures (a + b) + c == (a + d) + e
  {
    assert (a + b) + c == a + (b + c);
    assert (a + d) + e == a + (d + e);
  }

  lemma Swap<T>(a: multiset<T>, b: multiset<T>, c: multiset<T>)
    ensures (a + b) + c == (c + b) + a
  {
  }

  /** m is the least element of s. */
  ghost predicate IsMin(s: seq<nat>, m: nat)
  {
    && (exists j :: 0 <= j < |s| && s[j] == m)
    && (forall j :: 0 <= j < |s| ==> m <= s[j])
  }

  function Min(s: seq<nat>): (m: nat)
    requires s != []
    ensures IsMin(s, m)
  {
    if |s| == 1 then
      assert s[0] == s[0]; s[0]
    else
      var rest := Min(s[1..]);
      assert forall j :: 1 <= j < |s| ==> s[j] == s[1..][j - 1];
      if s[0] < rest then s[0] else rest
  }

  /** The elements of s that satisfy keep, in order: what `erase(remove_if(...))` leaves, keep negated. */
  function Keep<T(!new)>(s: seq<T>, keep: T -> bool): (r: seq<T>)
    ensures forall x :: x in r <==> x in s && keep(x)
  {
    if s == [] then []
    else
      var rest := Keep(s[1..], keep);
      assert forall x :: x in s <==> x == s[0] || x in s[1..];
      if keep(s[0]) then [s[0]] + rest else rest
  }

  lemma {:induction false} KeepTwice<T(!new)>(s: seq<T>, p: T -> bool, q: T -> bool, both: T -> bool)
    requires forall x :: x in s ==> both(x) == (p(x) && q(x))
    ensures Keep(Keep(s, p), q) == Keep(s, both)
  {
    if s != [] {
      assert s[0] in s;
      KeepTwice(s[1..], p, q, both);
      if p(s[0]) {
        assert Keep(s, p)[1..] == Keep(s[1..], p);
      }
    }
  }

  lemma {:induction false} KeepSame<T(!new)>(s: seq<T>, p: T -> bool, q: T -> bool)
    requires forall x :: x in s ==> p(x) == q(x)
    ensures Keep(s, p) == Keep(s, q)
  {
    if s != [] {
      assert s[0] in s;
      KeepSame(s[1..], p, q);
    }
  }

  lemma {:induction false} KeepConcat<T(!new)>(a: seq<T>, b: seq<T>, keep: T -> bool)
    ensures Keep(a + b, keep) == Keep(a, keep) + Keep(b, keep)
  {
    if a == [] {
      assert a + b == b;
    } else {
      assert (a + b)[1..] == a[1..] + b;
      KeepConcat(a[1..], b, keep);
    }
  }

  lemma {:induction false} KeepAll<T(!new)>(s: seq<T>, keep: T -> bool)
    requires forall x :: x in s ==> keep(x)
    ensures Keep(s, keep) == s
  {
    if s != [] {
      assert s[0] in s;
      KeepAll(s[1..], keep);
    }
  }

  /** The index of the first element that satisfies p, or |s|. */
  function First<T>(s: seq<T>, p: T -> bool): (i: nat)
    ensures i <= |s|
    ensures i < |s| ==> p(s[i])
    ensures forall j :: 0 <= j < i ==> !p(s[j])
  {
    if s == [] || p(s[0]) then 0 else 1 + First(s[1..], p)
  }

  /** No two elements of s agree on f. */
  ghost predicate DistinctBy<T, K>(s: seq<T>, f: T -> K)
  {
    forall i, j :: 0 <= i < j < |s| ==> f(s[i]) != f(s[j])
  }

  lemma {:induction false} KeepDistinct<T(!new), K>(s: seq<T>, keep: T -> bool, f: T -> K)
    requires DistinctBy(s, f)
    ensures DistinctBy(Keep(s, keep), f)
  {
    if s != [] {
      var rest := Keep(s[1..], keep);
      KeepDistinct(s[1..], keep, f);
      forall j | 0 <= j < |rest|
        ensures f(rest[j]) != f(s[0])
      {
        assert rest[j] in s[1..];
        var k :| 0 <= k < |s[1..]| && s[1..][k] == rest[j];
        assert s[k + 1] == rest[j];
      }
    }
  }

  lemma {:induction false} HasLeast(s: set<nat>) returns (m: nat)
    requires s != {}
    ensures m in s && forall x :: x in s ==> m <= x
    decreases s
  {
    var x :| x in s;
    m := x;
    if y :| y in s && y < x {
      var below := set z | z in s && z < x;
      assert y in below && x !in below;
      m := HasLeast(below);
      forall z | z in s
        ensures m <= z
      {
        assert z < x ==> z in below;
      }
    } else {
      assert forall z :: z in s ==> !(z in s && z < x);
    }
  }

  function Least(s: set<nat>): (m: nat)
    requires s != {}
    ensures m in s && forall x :: x in s ==> m <= x
  {
    assert exists m :: m in s && forall x :: x in s ==> m <= x by {
      var m := HasLeast(s);
    }
    var m :| m in s && forall x :: x in s ==> m <= x;
    m
  }

  /** A set of numbers in the order `std::set` and `std::map` are iterated. */
  function Ascending(s: set<nat>): (r: seq<nat>)
    ensures forall x :: x in r <==> x in s
    ensures forall i, j :: 0 <= i < j < |r| ==> r[i] < r[j]
  {
    if s == {} then []
    else
      var m := Least(s);
      var rest := Ascending(s - {m});
      assert forall i :: 0 <= i < |rest| ==> rest[i] in s - {m};
      [m] + rest
  }

  lemma DivisionAlgorithm(n: nat, k: nat)
    requires k > 0
    ensures n == (n / k) * k + n % k
  {
  }

  lemma Multiple(q: int, k: nat)
    ensures q >= 1 ==> q * k >= k
    ensures q <= 0 ==> q * k <= 0
  {
  }

  /** Two numbers less than k apart never share a residue modulo k. */
  lemma ModSeparates(a: nat, b: nat, k: nat)
    requires a < b < a + k
    ensures a % k != b % k
  {
    DivisionAlgorithm(a, k);
    DivisionAlgorithm(b, k);
    if a % k == b % k {
      var qa, qb := a / k, b / k;
      assert (qb - qa) * k == qb * k - qa * k;
      Multiple(qb - qa, k);
    }
  }
}
