/** Closing a batcher: what is answered once Close has committed its own window, and what is not. */
module Closing {
  import opened Events
  import opened Batching
  import Runs

  predicate AllAnswered(b: Batcher) {
    forall t :: 0 <= t < |b.accepted| ==> t in b.results
  }

  // No window is drained empty, and only the one Close call is ever between marking closed and flushing.
  predicate Orderly(b: Batcher) {
    && (forall g :: 0 <= g < |b.drains| ==> b.drains[g] != [])
    && b.closers <= 1 && (b.closers > 0 ==> b.closed)
  }

  lemma StepKeepsOrderly(b: Batcher, a: Action)
    requires Orderly(b) && Enabled(b, a)
    ensures Orderly(Apply(b, a)) && (b.closed && b.closers == 0 ==> Apply(b, a).closed && Apply(b, a).closers == 0)
  {
    hide CommitAndNotify;
    if a.Commit? {
      CommitShape(b, a.generation, a.fails);
    }
  }

  lemma {:induction false} RunKeeps(b: Batcher, actions: seq<Action>, c: Batcher)
    requires Inv(b) && Orderly(b) && Reaches(b, actions, c)
    ensures Inv(c) && Orderly(c) && (b.closed && b.closers == 0 ==> c.closed && c.closers == 0)
  {
    hide Inv, Orderly, Enabled, Apply, Reaches;
    if actions == [] {
      Unmoved(b, actions, c);
    } else {
      var n := |actions| - 1;
      var m := LastStep(b, actions, c);
      RunKeeps(b, actions[..n], m);
      StepKeepsInv(m, actions[n]);
      StepKeepsOrderly(m, actions[n]);
    }
  }

  // After the flush of Close nothing is pending, and an append is unanswered exactly if some drained window is uncommitted.
  lemma ClosedAnswers(b: Batcher)
    requires Inv(b) && Orderly(b) && b.closed && b.closers == 0
    ensures b.pending == [] && (AllAnswered(b) <==> b.uncommitted == {})
  {
    if b.uncommitted == {} {
      forall t | 0 <= t < |b.accepted| ensures t in b.results {
        WhereIs(b, t);
      }
    } else {
      var g :| g in b.uncommitted;
      var item := b.drains[g][0];
      TicketIsPlace(b, g, item);
      assert item in b.drains[g];
    }
  }

  // When Close has committed the window it drained itself, every accepted append is answered exactly if no other drained
  // window was waiting for its commit: Close awaits nobody else's.
  lemma CloseExact(b0: Batcher, actions: seq<Action>, m: Batcher, late: bool, more: seq<Action>, n: Batcher, fails: bool)
    requires Fresh(b0) && Reaches(b0, actions, m) && Enabled(m, CloseFlush(late)) && m.pending != []
    requires Reaches(Apply(m, CloseFlush(late)), more, n) && Enabled(n, Commit(m.generation, fails))
    ensures AllAnswered(Apply(n, Commit(m.generation, fails))) <==> n.uncommitted == {m.generation}
  {
    hide Inv, Orderly, Reaches, AllAnswered, CommitAndNotify;
    FreshInv(b0);
    FreshIsOrderly(b0);
    RunKeeps(b0, actions, m);
    StepKeepsInv(m, CloseFlush(late));
    StepKeepsOrderly(m, CloseFlush(late));
    OnlyCloser(m, late);
    RunKeeps(Apply(m, CloseFlush(late)), more, n);
    StepKeepsInv(n, Commit(m.generation, fails));
    StepKeepsOrderly(n, Commit(m.generation, fails));
    CommitShape(n, m.generation, fails);
    ClosedAnswers(Apply(n, Commit(m.generation, fails)));
    assert n.uncommitted - {m.generation} == {} <==> n.uncommitted == {m.generation};
  }

  lemma FreshIsOrderly(b: Batcher)
    requires Fresh(b)
    ensures Orderly(b)
  {
  }

  lemma OnlyCloser(b: Batcher, late: bool)
    requires Orderly(b) && Enabled(b, CloseFlush(late))
    ensures Apply(b, CloseFlush(late)).closed && Apply(b, CloseFlush(late)).closers == 0
  {
  }

  // ------------------------------------------------------------ such a run

  // The timer drains the first append's window; Close drains and commits the second's before the timer's commit runs.
  function Overtaking(first: Event, second: Event): seq<Action> {
    [Enqueue(first), TimerFires(0, false), Enqueue(second), CloseBegins(false), CloseFlush(false), Commit(1, false)]
  }

  predicate OneDrained(b: Batcher, first: Event) {
    && b.pending == [] && b.generation == 1 && !b.closed && b.closers == 0 && b.uncommitted == {0}
    && b.accepted == [Item(0, first)] && b.drains == [[Item(0, first)]] && b.results == map[]
  }

  lemma FirstWindow(b: Batcher, first: Event)
    requires Fresh(b) && b.settings.maxDelay > 0
    ensures var accepted := Apply(b, Enqueue(first));
      Enabled(accepted, TimerFires(0, false)) && OneDrained(Apply(accepted, TimerFires(0, false)), first)
  {
    assert [] + [Item(0, first)] == [Item(0, first)] && [] + [[Item(0, first)]] == [[Item(0, first)]];
  }

  predicate BothDrained(b: Batcher, first: Event, second: Event) {
    && b.closed && b.closers == 0 && b.uncommitted == {0, 1} && b.accepted == [Item(0, first), Item(1, second)]
    && b.drains == [[Item(0, first)], [Item(1, second)]] && b.results == map[]
  }

  lemma SecondWindow(b: Batcher, first: Event, second: Event)
    requires OneDrained(b, first)
    ensures var accepted := Apply(b, Enqueue(second));
      && Enabled(accepted, CloseBegins(false))
      && var closing := Apply(accepted, CloseBegins(false));
         Enabled(closing, CloseFlush(false)) && BothDrained(Apply(closing, CloseFlush(false)), first, second)
  {
    assert [] + [Item(1, second)] == [Item(1, second)];
    assert [Item(0, first)] + [Item(1, second)] == [Item(0, first), Item(1, second)];
    assert [[Item(0, first)]] + [[Item(1, second)]] == [[Item(0, first)], [Item(1, second)]];
  }

  // From any fresh batcher with a time window, with any two events: Close has returned, its own window is answered, and the
  // append accepted first is not.
  lemma CloseRun(b: Batcher, first: Event, second: Event) returns (c: Batcher)
    requires Fresh(b) && b.settings.maxDelay > 0
    ensures Reaches(b, Overtaking(first, second), c)
    ensures c.closed && c.closers == 0 && |c.accepted| == 2 && c.accepted[0].event == first
    ensures c.uncommitted == {0} && 0 !in c.results && 1 in c.results
  {
    hide Reaches, CommitAndNotify, Accept, Drain, StopTimer, Apply, Fresh;
    var actions := Overtaking(first, second);
    FirstWindow(b, first);
    var b1 := Apply(b, actions[0]);
    var b2 := Apply(b1, actions[1]);
    SecondWindow(b2, first, second);
    var b3 := Apply(b2, actions[2]);
    var b4 := Apply(b3, actions[3]);
    var b5 := Apply(b4, actions[4]);
    c := Apply(b5, actions[5]);
    NoStepYet(b);
    OneMoreStep(b, actions, 0, b);
    OneMoreStep(b, actions, 1, b1);
    OneMoreStep(b, actions, 2, b2);
    OneMoreStep(b, actions, 3, b3);
    OneMoreStep(b, actions, 4, b4);
    OneMoreStep(b, actions, 5, b5);
    assert actions[..6] == actions;
    LastCommit(b5, first, second);
  }

  lemma LastCommit(b: Batcher, first: Event, second: Event)
    requires BothDrained(b, first, second)
    ensures var c := Apply(b, Commit(1, false));
      && c.closed && c.closers == 0 && c.accepted == b.accepted && c.uncommitted == {0} && 0 !in c.results && 1 in c.results
  {
    hide CommitAndNotify;
    CommitShape(b, 1, false);
    CommitAnswers(b, 1, false, 0);
    CommitAnswers(b, 1, false, 1);
    assert Item(1, second) in b.drains[1];
  }
}
