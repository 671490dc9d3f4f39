/** Runs of a transition system given by its labelled step relation, and the induction rule for them. */
module Runs {

  /** s' is reached from s by the events es, in that order. */
  ghost predicate Run<S(!new), E(!new)>(step: (S, E, S) -> bool, s: S, es: seq<E>, s': S)
    decreases |es|
  {
    if es == [] then s == s'
    else exists t :: step(s, es[0], t) && Run(step, t, es[1..], s')
  }

  /** A property that every step keeps holds at the end of every run that starts with it. */
  lemma {:induction false} Keeps<S(!new), E(!new)>(step: (S, E, S) -> bool, p: S -> bool, s: S, es: seq<E>, s': S)
    requires Run(step, s, es, s') && p(s)
    requires forall t, e, t' :: p(t) && step(t, e, t') ==> p(t')
    ensures p(s')
    decreases |es|
  {
    if es != [] {
      var t :| step(s, es[0], t) && Run(step, t, es[1..], s');
      Keeps(step, p, t, es[1..], s');
    }
  }

  /** Two runs that meet join. */
  lemma {:induction false} Join<S(!new), E(!new)>(step: (S, E, S) -> bool, s: S, es: seq<E>, t: S, fs: seq<E>, s': S)
    requires Run(step, s, es, t) && Run(step, t, fs, s')
    ensures Run(step, s, es + fs, s')
    decreases |es|
  {
    if es == [] {
      assert es + fs == fs;
    } else {
      var u :| step(s, es[0], u) && Run(step, u, es[1..], t);
      Join(step, u, es[1..], t, fs, s');
      assert (es + fs)[1..] == es[1..] + fs;
    }
  }
}
