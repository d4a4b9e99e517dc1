/** Runs of a state machine: the states one after another, each step taken by one action. */
module Runs {
  ghost predicate Follows<S, A>(step: (S, A, S) -> bool, states: seq<S>, actions: seq<A>) {
    && |states| == |actions| + 1
    && forall i {:trigger actions[i]} :: 0 <= i < |actions| ==> step(states[i], actions[i], states[i + 1])
  }

  ghost predicate Leads<S(!new), A>(step: (S, A, S) -> bool, s: S, actions: seq<A>, t: S) {
    exists states: seq<S> :: Follows(step, states, actions) && states[0] == s && states[|actions|] == t
  }

  lemma NoSteps<S(!new), A>(step: (S, A, S) -> bool, s: S, actions: seq<A>, t: S)
    requires Leads(step, s, actions, t) && actions == []
    ensures s == t
  {
  }

  lemma LastStep<S(!new), A>(step: (S, A, S) -> bool, s: S, actions: seq<A>, t: S) returns (m: S)
    requires Leads(step, s, actions, t) && actions != []
    ensures Leads(step, s, actions[..|actions| - 1], m) && step(m, actions[|actions| - 1], t)
  {
    var n := |actions| - 1;
    var states: seq<S> :| Follows(step, states, actions) && states[0] == s && states[|actions|] == t;
    m := states[n];
    forall i | 0 <= i < n ensures step(states[..n + 1][i], actions[..n][i], states[..n + 1][i + 1]) {
      assert actions[i] == actions[..n][i];
    }
    assert Follows(step, states[..n + 1], actions[..n]);
    assert actions[n] == actions[|actions| - 1];
  }

  lemma NoStepsYet<S(!new), A>(step: (S, A, S) -> bool, s: S)
    ensures Leads(step, s, [], s)
  {
    var none: seq<A> := [];
    assert Follows(step, [s], none);
  }

  lemma OneMore<S(!new), A>(step: (S, A, S) -> bool, s: S, actions: seq<A>, m: S, a: A, t: S)
    requires Leads(step, s, actions, m) && step(m, a, t)
    ensures Leads(step, s, actions + [a], t)
  {
    var states: seq<S> :| Follows(step, states, actions) && states[0] == s && states[|actions|] == m;
    var longer := states + [t];
    forall i {:trigger (actions + [a])[i]} | 0 <= i < |actions + [a]| ensures step(longer[i], (actions + [a])[i], longer[i + 1]) {
      if i < |actions| {
        assert (actions + [a])[i] == actions[i];
      }
    }
    assert Follows(step, longer, actions + [a]);
  }
}
