/** Runs of a step relation, and what holds along them. */
module Runs {

  /** A run: the states passed through, each one step after the one before. */
  ghost predicate Run<S(!new)>(init: S, next: (S, S) -> bool, states: seq<S>) {
    states != [] && states[0] == init && forall i: nat :: i + 1 < |states| ==> StepAt(next, states, i)
  }

  ghost predicate StepAt<S(!new)>(next: (S, S) -> bool, states: seq<S>, i: nat)
    requires i + 1 < |states|
  {
    next(states[i], states[i + 1])
  }

  ghost predicate Reachable<S(!new)>(init: S, next: (S, S) -> bool, s: S) {
    exists states :: Run(init, next, states) && states[|states| - 1] == s
  }

  ghost predicate Preserved<S(!new)>(next: (S, S) -> bool, inv: S -> bool) {
    forall s, t :: inv(s) && next(s, t) ==> inv(t)
  }

  /** What holds at the start and is kept by every step holds throughout every run. */
  lemma {:induction false} InvariantHolds<S(!new)>(init: S, next: (S, S) -> bool, inv: S -> bool, states: seq<S>, i: nat)
    requires Run(init, next, states) && i < |states|
    requires inv(init) && Preserved(next, inv)
    ensures inv(states[i])
  {
    if i == 0 {
    } else {
      InvariantHolds(init, next, inv, states, i - 1);
      assert StepAt(next, states, i - 1);
    }
  }

  lemma ReachableKeeps<S(!new)>(init: S, next: (S, S) -> bool, inv: S -> bool, s: S)
    requires Reachable(init, next, s) && inv(init) && Preserved(next, inv)
    ensures inv(s)
  {
    var states :| Run(init, next, states) && states[|states| - 1] == s;
    InvariantHolds(init, next, inv, states, |states| - 1);
  }

  /** A relation between a state and the states after it, given an invariant: if no step
      breaks it, it holds between any two states of a run. */
  lemma {:induction false} RelationHolds<S(!new)>(init: S, next: (S, S) -> bool, inv: S -> bool, rel: (S, S) -> bool,
                                                  states: seq<S>, i: nat, j: nat)
    requires Run(init, next, states) && i <= j < |states|
    requires inv(init) && Preserved(next, inv)
    requires forall s :: rel(s, s)
    requires forall s, t, u :: rel(s, t) && inv(t) && next(t, u) ==> rel(s, u)
    ensures rel(states[i], states[j])
    decreases j - i
  {
    if i == j {
    } else {
      RelationHolds(init, next, inv, rel, states, i, j - 1);
      InvariantHolds(init, next, inv, states, j - 1);
      assert StepAt(next, states, j - 1);
    }
  }

  lemma StartIsReachable<S(!new)>(init: S, next: (S, S) -> bool)
    ensures Reachable(init, next, init)
  {
    assert Run(init, next, [init]) && [init][0] == init;
  }

  lemma StepIsReachable<S(!new)>(init: S, next: (S, S) -> bool, s: S, t: S)
    requires Reachable(init, next, s) && next(s, t)
    ensures Reachable(init, next, t)
  {
    var states :| Run(init, next, states) && states[|states| - 1] == s;
    var more := states + [t];
    forall i: nat | i + 1 < |more| ensures StepAt(next, more, i) {
      if i + 1 < |states| {
        assert StepAt(next, states, i);
      }
    }
    assert Run(init, next, more) && more[|more| - 1] == t;
  }
}
