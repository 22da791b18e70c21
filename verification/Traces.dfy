/** A run written down: the states it went through and the actions between them. */
module Traces {

  datatype Trace<S, A> = Trace(states: seq<S>, actions: seq<A>)

  function Final<S, A>(t: Trace<S, A>): S
    requires |t.states| > 0
  {
    t.states[|t.states| - 1]
  }

  /** One step longer. */
  function Longer<S, A>(t: Trace<S, A>, a: A, s: S): (r: Trace<S, A>)
    ensures |r.states| > 0 && Final(r) == s
  {
    Trace(t.states + [s], t.actions + [a])
  }
}
