/**
 Runs of a state machine given by a partial step function, and the interleaving of any number
 of copies of one machine, one copy per thread id.
 */
module Runs {
  import opened Options

  /** The state after performing the actions in order, or None when one of them was not enabled. */
  function After<S, A>(step: (S, A) -> Option<S>, start: S, actions: seq<A>): Option<S> {
    if actions == [] then Some(start)
    else
      var before := After(step, start, actions[..|actions| - 1]);
      if before.None? then None else step(before.value, actions[|actions| - 1])
  }

  /** One more action at the end of a run. */
  lemma Extend<S, A>(step: (S, A) -> Option<S>, start: S, actions: seq<A>, a: A)
    ensures After(step, start, actions + [a])
         == if After(step, start, actions).None? then None else step(After(step, start, actions).value, a)
  {
    assert (actions + [a])[..|actions|] == actions;
  }

  ghost predicate Inductive<S(!new), A(!new)>(step: (S, A) -> Option<S>, start: S, inv: S -> bool) {
    && inv(start)
    && forall s, a :: inv(s) && step(s, a).Some? ==> inv(step(s, a).value)
  }

  lemma {:induction false} InvariantHolds<S(!new), A(!new)>(step: (S, A) -> Option<S>, start: S, inv: S -> bool,
                                                            actions: seq<A>)
    requires Inductive(step, start, inv)
    requires After(step, start, actions).Some?
    ensures inv(After(step, start, actions).value)
  {
    if actions == [] {
    } else {
      InvariantHolds(step, start, inv, actions[..|actions| - 1]);
    }
  }

  /** Every prefix of a run is a run. */
  lemma {:induction false} PrefixIsRun<S, A>(step: (S, A) -> Option<S>, start: S, actions: seq<A>, n: nat)
    requires n <= |actions| && After(step, start, actions).Some?
    ensures After(step, start, actions[..n]).Some?
  {
    if n == |actions| {
      assert actions[..n] == actions;
    } else {
      assert actions[..|actions| - 1][..n] == actions[..n];
      PrefixIsRun(step, start, actions[..|actions| - 1], n);
    }
  }

  /** What holds at the end of a run and not at its start came about at one of its steps. */
  lemma {:induction false} CameAbout<S, A>(step: (S, A) -> Option<S>, start: S, actions: seq<A>, p: S -> bool)
    returns (i: nat)
    requires After(step, start, actions).Some? && p(After(step, start, actions).value) && !p(start)
    ensures i < |actions|
    ensures After(step, start, actions[..i]).Some? && !p(After(step, start, actions[..i]).value)
    ensures step(After(step, start, actions[..i]).value, actions[i]).Some?
    ensures p(step(After(step, start, actions[..i]).value, actions[i]).value)
  {
    var n := |actions| - 1;
    if p(After(step, start, actions[..n]).value) {
      i := CameAbout(step, start, actions[..n], p);
      assert actions[..n][..i] == actions[..i];
    } else {
      i := n;
    }
  }

  /** A set of states with the start and closed under steps; the reachable states are one. */
  ghost predicate Closed<S(!new), A(!new)>(step: (S, A) -> Option<S>, start: S, reach: S -> bool) {
    reach(start) && forall s, a :: reach(s) && step(s, a).Some? ==> reach(step(s, a).value)
  }

  /** Writing a run down: one action after another. */
  lemma Do<S(!new), A(!new)>(step: (S, A) -> Option<S>, start: S, reach: S -> bool, s: S, a: A) returns (s': S)
    requires Closed(step, start, reach) && reach(s) && step(s, a).Some?
    ensures s' == step(s, a).value && reach(s')
  {
    s' := step(s, a).value;
  }

  ghost predicate Reachable<S, A(!new)>(step: (S, A) -> Option<S>, start: S, s: S) {
    exists actions: seq<A> :: After(step, start, actions) == Some(s)
  }

  lemma ReachableIsClosed<S(!new), A(!new)>(step: (S, A) -> Option<S>, start: S)
    ensures Closed(step, start, s => Reachable(step, start, s))
  {
    var none: seq<A> := [];
    assert After(step, start, none) == Some(start);
    forall s, a | Reachable(step, start, s) && step(s, a).Some? ensures Reachable(step, start, step(s, a).value) {
      var actions: seq<A> :| After(step, start, actions) == Some(s);
      Extend(step, start, actions, a);
    }
  }

  // ---------------------------------------------------------------------------
  // Any number of threads
  // ---------------------------------------------------------------------------

  function At<S>(states: map<string, S>, start: S, t: string): S {
    if t in states then states[t] else start
  }

  /** One action of one thread; the others stand still. */
  function StepOne<S, A>(step: (S, A) -> Option<S>, start: S): (map<string, S>, (string, A)) -> Option<map<string, S>> {
    (states: map<string, S>, a: (string, A)) =>
      var next := step(At(states, start, a.0), a.1);
      if next.None? then None else Some(states[a.0 := next.value])
  }

  function ActionsOf<A>(actions: seq<(string, A)>, t: string): seq<A> {
    if actions == [] then []
    else
      var last := actions[|actions| - 1];
      var before := ActionsOf(actions[..|actions| - 1], t);
      if last.0 == t then before + [last.1] else before
  }

  /** However the threads are interleaved, each of them goes through a run of its own. */
  lemma {:induction false} Projection<S, A>(step: (S, A) -> Option<S>, start: S, actions: seq<(string, A)>, t: string)
    requires After(StepOne(step, start), map[], actions).Some?
    ensures After(step, start, ActionsOf(actions, t))
         == Some(At(After(StepOne(step, start), map[], actions).value, start, t))
  {
    if actions == [] {
    } else {
      var before, last := actions[..|actions| - 1], actions[|actions| - 1];
      Projection(step, start, before, t);
      if last.0 == t {
        var mine := ActionsOf(before, t);
        assert (mine + [last.1])[..|mine|] == mine;
      }
    }
  }
}
