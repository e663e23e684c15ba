/** Runs of a state machine whose events are not always possible. */
module Runs {
  import opened CText

  /** The state after `es`, if every event of it can happen in its turn. */
  function RunFrom<S, E>(step: (S, E) -> Maybe<S>, s: S, es: seq<E>): Maybe<S> {
    if es == [] then Some(s) else
      var t :- RunFrom(step, s, es[..|es| - 1]);
      step(t, es[|es| - 1])
  }

  /** A run may be extended by an event that is possible. */
  lemma {:induction false} Extend<S, E>(step: (S, E) -> Maybe<S>, s: S, es: seq<E>, t: S, e: E, u: S)
    returns (more: seq<E>)
    requires RunFrom(step, s, es) == Some(t) && step(t, e) == Some(u)
    ensures more == es + [e] && RunFrom(step, s, more) == Some(u)
  {
    more := es + [e];
    assert more[..|more| - 1] == es;
  }
}
