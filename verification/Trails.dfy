/** Finite continuations of a run: the states that follow on a state by steps of one kind. */
module Trails {

  /** The states of `trail` follow on s, each by one step. */
  ghost predicate Trail<S(!new)>(step: (S, S) -> bool, s: S, trail: seq<S>)
    decreases |trail|
  {
    trail == [] || (step(s, trail[0]) && Trail(step, trail[0], trail[1..]))
  }

  /** Where the trail leads. */
  function Last<S>(s: S, trail: seq<S>): S {
    if trail == [] then s else trail[|trail| - 1]
  }

  /** All neighbours in the run are related. */
  ghost predicate Connected<S(!new)>(next: (S, S) -> bool, run: seq<S>) {
    forall n :: 0 <= n < |run| - 1 ==> next(run[n], run[n + 1])
  }

  lemma One<S(!new)>(step: (S, S) -> bool, s: S, s': S)
    requires step(s, s')
    ensures Trail(step, s, [s']) && Last(s, [s']) == s'
  {
    assert [s'][1..] == [];
  }

  lemma {:induction false} Join<S(!new)>(step: (S, S) -> bool, s: S, one: seq<S>, two: seq<S>)
    requires Trail(step, s, one) && Trail(step, Last(s, one), two)
    ensures Trail(step, s, one + two) && Last(s, one + two) == Last(Last(s, one), two)
    decreases |one|
  {
    if one == [] {
      assert one + two == two;
    } else {
      assert (one + two)[1..] == one[1..] + two;
      Join(step, one[0], one[1..], two);
    }
  }

  lemma {:induction false} Append<S(!new)>(next: (S, S) -> bool, step: (S, S) -> bool, run: seq<S>, trail: seq<S>)
    requires |run| > 0 && Connected(next, run) && Trail(step, run[|run| - 1], trail)
    requires forall a, b :: step(a, b) ==> next(a, b)
    ensures Connected(next, run + trail)
    decreases |trail|
  {
    if trail == [] {
      assert run + trail == run;
    } else {
      var longer := run + [trail[0]];
      assert Connected(next, longer);
      Append(next, step, longer, trail[1..]);
      assert longer + trail[1..] == run + trail;
    }
  }

  /** A run may be cut off anywhere and go on with a trail. */
  lemma GoesOn<S(!new)>(next: (S, S) -> bool, step: (S, S) -> bool, run: seq<S>, n: nat, trail: seq<S>)
    requires n < |run| && Connected(next, run) && Trail(step, run[n], trail)
    requires forall a, b :: step(a, b) ==> next(a, b)
    ensures Connected(next, run[..n + 1] + trail)
  {
    assert Connected(next, run[..n + 1]);
    Append(next, step, run[..n + 1], trail);
  }
}
