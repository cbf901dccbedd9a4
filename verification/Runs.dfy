/** Runs of a state machine, given by its first state and its steps. */
module Runs {

  ghost predicate StepAt<S(!new), E(!new)>(step: (S, E, S) -> bool, states: seq<S>, events: seq<E>, i: nat)
    requires i < |events| && |states| == |events| + 1
  {
    step(states[i], events[i], states[i + 1])
  }

  ghost predicate IsRun<S(!new), E(!new)>(init: S, step: (S, E, S) -> bool, states: seq<S>, events: seq<E>) {
    |states| == |events| + 1 && states[0] == init &&
    forall i {:trigger StepAt(step, states, events, i)} :: 0 <= i < |events| ==> StepAt(step, states, events, i)
  }

  /** What holds first and is kept by every step holds in every state of a run. */
  lemma {:induction false} Always<S(!new), E(!new)>(
    init: S, step: (S, E, S) -> bool, inv: S -> bool, states: seq<S>, events: seq<E>, i: nat)
    requires IsRun(init, step, states, events) && i < |states|
    requires inv(init) && forall s, e, t :: inv(s) && step(s, e, t) ==> inv(t)
    ensures inv(states[i])
  {
    if i == 0 {
    } else {
      Always(init, step, inv, states, events, i - 1);
      assert StepAt(step, states, events, i - 1);
      assert step(states[i - 1], events[i - 1], states[i]);
    }
  }

  /** The last state of some run. */
  ghost predicate Reaches<S(!new), E(!new)>(init: S, step: (S, E, S) -> bool, s: S) {
    exists states: seq<S>, events: seq<E> :: IsRun(init, step, states, events) && states[|events|] == s
  }

  lemma ReachesInit<S(!new), E(!new)>(init: S, step: (S, E, S) -> bool)
    ensures Reaches(init, step, init)
  {
    var states: seq<S>, events: seq<E> := [init], [];
    assert IsRun(init, step, states, events) && states[|events|] == init;
  }

  lemma ReachesNext<S(!new), E(!new)>(init: S, step: (S, E, S) -> bool, s: S, e: E, t: S)
    requires Reaches(init, step, s) && step(s, e, t)
    ensures Reaches(init, step, t)
  {
    var states: seq<S>, events: seq<E> :| IsRun(init, step, states, events) && states[|events|] == s;
    var longer, more := states + [t], events + [e];
    forall i | 0 <= i < |more|
      ensures StepAt(step, longer, more, i)
    {
      if i < |events| {
        assert StepAt(step, states, events, i);
      }
    }
    assert IsRun(init, step, longer, more) && longer[|more|] == t;
  }
}
