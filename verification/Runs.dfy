// Runs of a transition system, given by its step function, and the states they reach.
module Runs {
  ghost function Run<S, E>(next: (S, E) -> S, s: S, events: seq<E>): S
    decreases |events|
  {
    if events == [] then s else Run(next, next(s, events[0]), events[1..])
  }

  lemma {:induction false} RunSnoc<S, E>(next: (S, E) -> S, s: S, events: seq<E>, e: E)
    ensures Run(next, s, events + [e]) == next(Run(next, s, events), e)
    decreases |events|
  {
    if events == [] {
      assert (events + [e])[1..] == [];
    } else {
      assert (events + [e])[1..] == events[1..] + [e];
      RunSnoc(next, next(s, events[0]), events[1..], e);
    }
  }

  ghost predicate Reachable<S, E(!new)>(next: (S, E) -> S, init: S, s: S) {
    exists events :: Run(next, init, events) == s
  }

  ghost function Reached<S(!new), E(!new)>(next: (S, E) -> S, init: S): iset<S> {
    iset s | Reachable(next, init, s)
  }

  // No step leaves this set of states.
  ghost predicate Closed<S(!new), E(!new)>(next: (S, E) -> S, reach: iset<S>) {
    forall s, e :: s in reach ==> next(s, e) in reach
  }

  lemma ReachedIsClosed<S(!new), E(!new)>(next: (S, E) -> S, init: S)
    ensures Closed(next, Reached(next, init)) && init in Reached(next, init)
  {
    assert Run(next, init, []) == init;
    forall s, e | s in Reached(next, init) ensures next(s, e) in Reached(next, init) {
      var events :| Run(next, init, events) == s;
      RunSnoc(next, init, events, e);
    }
  }

  lemma Steps<S(!new), E(!new)>(next: (S, E) -> S, reach: iset<S>, s: S, e: E, t: S)
    requires Closed(next, reach) && s in reach && next(s, e) == t
    ensures t in reach
  {
  }
}
