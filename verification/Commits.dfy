/** Git as far as delivery needs it: commits with parents, ancestry, and what a push by somebody else may do. */
module Commits {
  import opened Events

  // A commit either records one journal event or carries somebody else's change.
  datatype Change = Recorded(event: Event) | Foreign(id: nat)

  datatype Commit = Commit(parents: seq<Commit>, change: Change)

  // A branch; None is unborn.
  type Head = Option<Commit>

  // The commit itself and everything reachable from it.
  function Ancestors(c: Commit): (s: set<Commit>)
    ensures c in s
  {
    {c} + set i, a | 0 <= i < |c.parents| && a in Ancestors(c.parents[i]) :: a
  }

  predicate Reachable(a: Head, b: Head) {
    a.None? || (b.Some? && a.value in Ancestors(b.value))
  }

  function History(h: Head): set<Commit> {
    if h.Some? then Ancestors(h.value) else {}
  }

  // git rev-list --count base..head
  function CommitCount(base: Head, head: Head): nat {
    |History(head) - History(base)|
  }

  lemma {:induction false} AncestorsClosed(a: Commit, b: Commit)
    requires a in Ancestors(b)
    ensures Ancestors(a) <= Ancestors(b)
  {
    if a != b {
      var i :| 0 <= i < |b.parents| && a in Ancestors(b.parents[i]);
      AncestorsClosed(a, b.parents[i]);
    }
  }

  // Deeper than every parent.
  function Depth(c: Commit): nat {
    1 + DepthOf(c.parents)
  }

  function DepthOf(parents: seq<Commit>): nat {
    if parents == [] then 0 else Depth(parents[0]) + DepthOf(parents[1..])
  }

  lemma {:induction false} ParentDepth(parents: seq<Commit>, i: nat)
    requires i < |parents|
    ensures Depth(parents[i]) <= DepthOf(parents)
  {
    if i > 0 {
      ParentDepth(parents[1..], i - 1);
    }
  }

  lemma {:induction false} AncestorDepth(a: Commit, b: Commit)
    requires a in Ancestors(b)
    ensures a == b || Depth(a) < Depth(b)
  {
    if a != b {
      var i :| 0 <= i < |b.parents| && a in Ancestors(b.parents[i]);
      AncestorDepth(a, b.parents[i]);
      ParentDepth(b.parents, i);
    }
  }

  lemma ReachableSelf(h: Head)
    ensures Reachable(h, h)
  {
  }

  lemma ReachableTrans(a: Head, b: Head, c: Head)
    requires Reachable(a, b) && Reachable(b, c)
    ensures Reachable(a, c)
  {
    if a.Some? {
      AncestorsClosed(b.value, c.value);
    }
  }

  lemma ReachableAntisymmetric(a: Head, b: Head)
    requires Reachable(a, b) && Reachable(b, a)
    ensures a == b
  {
    if a.Some? && b.Some? {
      AncestorDepth(a.value, b.value);
      AncestorDepth(b.value, a.value);
    }
  }

  lemma HistoryGrows(a: Head, b: Head)
    requires Reachable(a, b)
    ensures History(a) <= History(b)
  {
    if a.Some? {
      AncestorsClosed(a.value, b.value);
    }
  }

  // The one commit an append makes on top of a base.
  function Own(base: Head, e: Event): Commit {
    Commit(if base.Some? then [base.value] else [], Recorded(e))
  }

  lemma OwnHistory(base: Head, e: Event)
    ensures History(Some(Own(base, e))) == History(base) + {Own(base, e)}
    ensures Reachable(base, Some(Own(base, e))) && Own(base, e) !in History(base)
    ensures CommitCount(base, Some(Own(base, e))) == 1
  {
    var own := Own(base, e);
    if base.Some? {
      assert own.parents[0] == base.value;
      ParentDepth(own.parents, 0);
      if own in Ancestors(base.value) {
        AncestorDepth(own, base.value);
      }
    }
    assert History(Some(own)) - History(base) == {own};
  }

  // A push by somebody else: the branch moves to a descendant, and nothing new on it is one of ours.
  predicate ForeignPush(before: Head, after: Head) {
    Reachable(before, after) && forall c :: c in History(after) && c !in History(before) ==> c.change.Foreign?
  }

  predicate Holds(h: Head, e: Event) {
    exists c :: c in History(h) && c.change == Recorded(e)
  }
}
