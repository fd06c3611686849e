/** Runs of a labelled transition system, and the induction every component's
    safety theorem rests on. */
module Runs {

  /** `ss` is a run of the system (init, next) whose steps carry the labels `es`. */
  ghost predicate Run<S(!new), E(!new)>(init: S -> bool, next: (S, E, S) -> bool, ss: seq<S>, es: seq<E>)
  {
    && |ss| == |es| + 1
    && init(ss[0])
    && forall i | 0 <= i < |es| :: next(ss[i], es[i], ss[i + 1])
  }

  /** A predicate that holds initially and that every step keeps holds throughout every run. */
  lemma {:induction false} Invariance<S(!new), E(!new)>(
      init: S -> bool, next: (S, E, S) -> bool, inv: S -> bool, ss: seq<S>, es: seq<E>, k: nat)
    requires Run(init, next, ss, es) && k < |ss|
    requires forall s :: init(s) ==> inv(s)
    requires forall s, e, s' :: inv(s) && next(s, e, s') ==> inv(s')
    ensures inv(ss[k])
  {
    if k > 0 {
      Invariance(init, next, inv, ss, es, k - 1);
      assert next(ss[k - 1], es[k - 1], ss[k - 1 + 1]);
    }
  }

  /** What holds at some instant and is kept by every step from there on holds at every later instant. */
  lemma {:induction false} FromThenOn<S(!new)>(keeps: S -> bool, ss: seq<S>, j: nat, k: nat)
    requires j <= k < |ss| && keeps(ss[j])
    requires forall i | j <= i < k && keeps(ss[i]) :: keeps(ss[i + 1])
    ensures keeps(ss[k])
  {
    if j < k {
      FromThenOn(keeps, ss, j, k - 1);
      assert keeps(ss[k - 1 + 1]);
    }
  }

  /** A run extended by one more step is a run. */
  lemma Extend<S(!new), E(!new)>(init: S -> bool, next: (S, E, S) -> bool, ss: seq<S>, es: seq<E>, e: E, s': S)
    requires Run(init, next, ss, es) && next(ss[|ss| - 1], e, s')
    ensures Run(init, next, ss + [s'], es + [e])
  {
  }
}
