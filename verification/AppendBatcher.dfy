/** The batcher itself: fields updated in place under its lock, commits made after the lock is released. */
module AppendBatchers {
  import opened Events
  import opened Batching
  import C = Chain
  import E = Endpoints
  import M = MemoryJournals
  import S = Sorting

  datatype Ticket = Ticket(id: nat, flushNow: bool, generation: nat)

  class AppendBatcher {
    const settings: Settings
    const journal: M.MemoryJournal
    var pending: seq<Item>
    var timer: Option<nat>
    var generation: nat
    var closed: bool
    var tickets: nat
    var results: map<nat, Option<Error>> // what each waiter's channel received

    // What is running around the batcher, and what it did so far.
    ghost var callbacks: set<nat>
    ghost var thresholds: set<Threshold>
    ghost var closers: nat
    ghost var uncommitted: set<nat>
    ghost var accepted: seq<Item>
    ghost var drains: seq<seq<Item>>

    ghost predicate Consistent()
      reads this, journal
    {
      journal.Consistent() && tickets == |accepted| && |drains| == generation
    }

    ghost function State(): Batcher
      reads this, journal
    {
      Batcher(settings, pending, timer, generation, closed, journal.State(),
              callbacks, thresholds, closers, uncommitted, accepted, drains, results)
    }

    constructor (settings: Settings, journal: M.MemoryJournal)
      requires journal.Consistent()
      ensures this.settings == settings && this.journal == journal
      ensures Consistent() && Fresh(State())
    {
      this.settings, this.journal := settings, journal;
      pending, timer, generation, closed, tickets, results := [], None, 0, false, 0, map[];
      callbacks, thresholds, closers, uncommitted, accepted, drains := {}, {}, 0, {}, [], [];
    }

    method Enqueue(event: Event) returns (r: Result<Ticket>)
      requires Consistent()
      modifies this
      ensures Consistent() && State() == Accept(old(State()), event)
      ensures if old(closed) then r == Err(JournalClosed) else r.Ok?
      ensures r.Ok? ==> r.value.id < |accepted| && accepted[r.value.id] == Item(r.value.id, event) && r.value.generation == generation
      ensures r.Ok? ==> r.value.id == |old(accepted)| && (r.value.flushNow <==> settings.maxItems > 0 && |old(pending)| + 1 >= settings.maxItems)
      ensures r.Ok? && r.value.flushNow ==> Threshold(r.value.id, r.value.generation) in thresholds
    {
      hide C.Valid, C.Head, C.HeadHash, M.Indexed, M.MemoryJournal.State;
      if closed {
        return Err(JournalClosed);
      }
      var item := Item(tickets, event);
      tickets := tickets + 1;
      pending := pending + [item];
      accepted := accepted + [item];
      if |pending| == 1 && settings.maxDelay > 0 {
        timer := Some(generation);
        callbacks := callbacks + {generation};
      }
      var flushNow := settings.maxItems > 0 && |pending| >= settings.maxItems;
      if flushNow {
        thresholds := thresholds + {Threshold(item.ticket, generation)};
      }
      r := Ok(Ticket(item.ticket, flushNow, generation));
    }

    // `late` tells whether the timer had fired before it could be stopped.
    method Stop(ghost late: bool)
      modifies this`timer, this`callbacks
      ensures timer.None?
      ensures callbacks == if old(timer).Some? && !late then old(callbacks) - {old(timer).value} else old(callbacks)
    {
      if timer.Some? {
        if !late {
          callbacks := callbacks - {timer.value};
        }
        timer := None;
      }
    }

    // flush, up to where it releases the lock.
    method DrainWindow(captured: Option<nat>, ghost late: bool) returns (items: seq<Item>)
      requires Consistent()
      modifies this
      ensures Consistent() && State() == Drain(old(State()), captured, late)
      ensures items == [] ==> State() == old(State())
      ensures items != [] ==> drains == old(drains) + [items] && old(generation) in uncommitted
    {
      hide C.Valid, C.Head, C.HeadHash, M.Indexed, M.MemoryJournal.State;
      if pending == [] {
        return [];
      }
      if captured.Some? && captured.value != generation {
        return [];
      }
      items := pending;
      pending := [];
      drains := drains + [items];
      uncommitted := uncommitted + {generation};
      generation := generation + 1;
      Stop(late);
    }

    // One transaction for the whole window; a failure or a panic inside it leaves the journal as it was.
    method CallCommit(events: seq<Event>, fails: bool) returns (answers: seq<Option<Error>>, failure: Option<Error>)
      requires journal.Consistent()
      modifies journal
      ensures journal.Consistent() && |answers| == |events|
      ensures (journal.State(), answers) == if fails then (old(journal.State()), AllFailed(|events|)) else E.CommitWindow(old(journal.State()), events)
      ensures failure.Some? <==> fails
    {
      if fails {
        return AllFailed(|events|), Some(StorageFailure);
      }
      answers := journal.CommitBatch(events);
      failure := None;
    }

    method CommitItems(items: seq<Item>, fails: bool, ghost g: nat) returns (failure: Option<Error>)
      requires Consistent() && g < |drains| && drains[g] == items
      modifies this, journal
      ensures Consistent() && State() == CommitAndNotify(old(State()), g, fails)
      ensures failure.Some? <==> fails
      ensures Placed(old(State())) ==> forall item :: item in items ==> Answers(item.ticket, item.event, fails)
    {
      hide Placed, AnsweredTruly, CommitAndNotify;
      WindowAnswered(State(), g, fails);
      failure := CommitSorted(items, fails, g);
    }

    method CommitSorted(items: seq<Item>, fails: bool, ghost g: nat) returns (failure: Option<Error>)
      requires Consistent() && g < |drains| && drains[g] == items
      modifies this, journal
      ensures Consistent() && State() == CommitAndNotify(old(State()), g, fails)
      ensures failure.Some? <==> fails
    {
      hide E.CommitWindow, Deliver, S.Sort, C.Valid, C.Head, C.HeadHash, M.Indexed;
      S.SortFacts(items, ItemCursor);
      var sorted := S.Sort(items, ItemCursor);
      assert sorted == Sorted(items);
      var events := [];
      for i := 0 to |sorted|
        invariant events == EventsOf(sorted[..i])
      {
        events := events + [sorted[i].event];
      }
      assert sorted[..|sorted|] == sorted;
      var answers;
      answers, failure := CallCommit(events, fails);
      Notify(sorted, answers);
      uncommitted := uncommitted - {g};
    }

    // The waiter was told the shared failure, or else nil exactly if its event is in the log.
    ghost predicate Answers(ticket: nat, event: Event, fails: bool)
      reads this, journal
    {
      AnsweredTruly(State(), ticket, event, fails)
    }

    method Notify(items: seq<Item>, answers: seq<Option<Error>>)
      requires |items| == |answers|
      modifies this`results
      ensures results == Deliver(old(results), items, answers)
    {
      for i := 0 to |items|
        invariant results == Deliver(old(results), items[..i], answers[..i])
      {
        assert items[..i + 1][..i] == items[..i] && answers[..i + 1][..i] == answers[..i];
        results := results[items[i].ticket := answers[i]];
      }
      assert items[..|items|] == items && answers[..|items|] == answers;
    }

    // The whole of flush, when nobody else gets in between its halves.
    method Flush(captured: Option<nat>, ghost late: bool, fails: bool) returns (failure: Option<Error>)
      requires Consistent()
      modifies this, journal
      ensures Consistent()
      ensures var drained := Drain(old(State()), captured, late);
        && (drained == old(State()) ==> State() == old(State()) && failure.None?)
        && (drained != old(State()) ==> State() == CommitAndNotify(drained, old(generation), fails) && (failure.Some? <==> fails))
    {
      hide Drain, CommitAndNotify;
      ghost var g := generation;
      var items := DrainWindow(captured, late);
      if items == [] {
        return None;
      }
      failure := CommitItems(items, fails, g);
    }

    // Append with batching: the role check and the enqueue, then the threshold's flush if this append crossed it. Without a
    // flush of its own the answer comes with a later one.
    method Append(event: Event, ghost late: bool, fails: bool) returns (answer: Option<Option<Error>>)
      requires Consistent() && Inv(State())
      modifies this, journal
      ensures Consistent() && Inv(State())
      ensures var refused := !old(journal.role).Active? || event.Cursor().epoch != old(journal.epoch);
        var crossed := settings.maxItems > 0 && |old(pending)| + 1 >= settings.maxItems;
        if refused || old(closed) then State() == old(State()) && answer == Some(Some(if refused then RoleFenced else JournalClosed))
        else if crossed then
          && State() == Flushed(old(State()), event, late, fails)
          && answer.Some? && answer.value == results[|old(accepted)|] && Answers(|old(accepted)|, event, fails)
          && (fails ==> journal.State() == old(journal.State()))
        else State() == Accept(old(State()), event) && answer.None?
    {
      hide Inv, Accept, Drain, CommitAndNotify, Batching.Apply, C.Valid, M.Indexed;
      if !journal.role.Active? || event.Cursor().epoch != journal.epoch {
        return Some(Some(RoleFenced));
      }
      AcceptKeeps(State(), event);
      AcceptShape(State(), event);
      ghost var before := State();
      var r := Enqueue(event);
      if r.Err? {
        return Some(Some(r.error));
      }
      var ticket := r.value;
      if !ticket.flushNow {
        return None;
      }
      FlushShape(before, event, late, fails);
      thresholds := thresholds - {Threshold(ticket.id, ticket.generation)};
      var failure := Flush(Some(ticket.generation), late, fails);
      answer := Some(results[ticket.id]);
    }

    method OnTimerFired(g: nat, ghost late: bool, fails: bool)
      requires Consistent() && g in callbacks
      modifies this, journal
      ensures Consistent()
      ensures old(generation) != g ==> State() == old(State()).(callbacks := old(callbacks) - {g})
      ensures old(generation) == g ==> pending == [] && forall item :: item in old(pending) ==> item.ticket in results
    {
      callbacks := callbacks - {g};
      label started:
      var failure := Flush(Some(g), late, fails);
      ghost var drained := Drain(old@started(State()), Some(g), late);
      if old(generation) == g && old(pending) != [] {
        forall item | item in old(pending) ensures item.ticket in results {
          CommitAnswers(drained, g, fails, item.ticket);
        }
      }
    }

    // Close returns the failure of its own flush; closing again does nothing.
    method Close(ghost late: bool, fails: bool) returns (failure: Option<Error>)
      requires Consistent()
      modifies this, journal
      ensures Consistent() && closed
      ensures old(closed) ==> State() == old(State()) && failure.None?
      ensures !old(closed) ==> pending == [] && timer.None?
      ensures !old(closed) ==> forall item :: item in old(pending) ==> item.ticket in results
      ensures !old(closed) && Inv(old(State())) ==> forall item :: item in old(pending) ==> Answers(item.ticket, item.event, fails)
      ensures failure.Some? <==> !old(closed) && old(pending) != [] && fails
    {
      if closed {
        return None;
      }
      hide Inv, Placed, Answered, Durable, AnsweredTruly, CommitAndNotify, E.CommitWindow, C.Valid, M.Indexed;
      ghost var was := State();
      closed := true;
      Stop(late);
      ghost var before := State();
      if Inv(was) {
        ClosingPlaces(was, before);
      }
      if before.pending != [] {
        FlushAnswers(before, late, fails);
      }
      failure := Flush(None, late, fails);
    }
  }

  // Accepting an append that crosses the threshold, draining its window and committing it.
  function Flushed(b: Batcher, event: Event, late: bool, fails: bool): Batcher
    requires !b.closed && |b.drains| == b.generation
  {
    CommitAndNotify(Drain(Crossed(b, event), Some(b.generation), late), b.generation, fails)
  }

  function Crossed(b: Batcher, event: Event): Batcher {
    var accepted := Accept(b, event);
    accepted.(thresholds := accepted.thresholds - {Threshold(|b.accepted|, b.generation)})
  }

  predicate AnsweredTruly(b: Batcher, ticket: nat, event: Event, fails: bool) {
    ticket in b.results && (if fails then b.results[ticket] == Some(StorageFailure) else b.results[ticket].None? <==> event in b.journal.log)
  }

  lemma AnsweredAfterCommit(b: Batcher, g: nat, fails: bool, x: Item)
    requires E.Sound(b.journal) && Placed(b) && g < |b.drains| && x in b.drains[g]
    ensures AnsweredTruly(CommitAndNotify(b, g, fails), x.ticket, x.event, fails)
    ensures fails ==> CommitAndNotify(b, g, fails).journal == b.journal
  {
    hide CommitAndNotify, Placed, Sorted;
    var k := SortedHas(b.drains[g], x);
    OwnVerdict(b, g, fails, k);
    AnsweredExactly(b, g, x);
  }

  lemma WindowAnswered(b: Batcher, g: nat, fails: bool)
    requires E.Sound(b.journal) && g < |b.drains|
    ensures Placed(b) ==> forall item :: item in b.drains[g] ==> AnsweredTruly(CommitAndNotify(b, g, fails), item.ticket, item.event, fails)
  {
    hide CommitAndNotify, Placed, AnsweredTruly;
    if Placed(b) {
      forall item | item in b.drains[g] ensures AnsweredTruly(CommitAndNotify(b, g, fails), item.ticket, item.event, fails) {
        AnsweredAfterCommit(b, g, fails, item);
      }
    }
  }

  // Everything pending is answered by a flush that drains regardless.
  lemma FlushAnswers(b: Batcher, late: bool, fails: bool)
    requires E.Sound(b.journal) && b.pending != [] && |b.drains| == b.generation
    ensures var c := CommitAndNotify(Drain(b, None, late), b.generation, fails);
      && (forall item :: item in b.pending ==> item.ticket in c.results)
      && (Placed(b) && Answered(b) && Durable(b) ==> forall item :: item in b.pending ==> AnsweredTruly(c, item.ticket, item.event, fails))
  {
    hide CommitAndNotify, AnsweredTruly, Answered, Durable;
    var drained := Drain(b, None, late);
    forall item | item in b.pending ensures item.ticket in CommitAndNotify(drained, b.generation, fails).results {
      CommitAnswers(drained, b.generation, fails, item.ticket);
    }
    if Placed(b) && Answered(b) && Durable(b) {
      DrainKeepsPlaces(b, None, late);
    }
    WindowAnswered(drained, b.generation, fails);
  }

  lemma ClosingPlaces(b: Batcher, c: Batcher)
    requires Inv(b) && c == b.(closed := c.closed, timer := c.timer, callbacks := c.callbacks, closers := c.closers)
    ensures Placed(c) && Answered(c) && Durable(c)
  {
  }

  lemma AcceptShape(b: Batcher, event: Event)
    ensures b.closed ==> Accept(b, event) == b
    ensures !b.closed ==> Accept(b, event).generation == b.generation && |Accept(b, event).accepted| == |b.accepted| + 1
  {
  }

  lemma FlushShape(b: Batcher, event: Event, late: bool, fails: bool)
    requires Inv(b) && !b.closed && b.settings.maxItems > 0 && |b.pending| + 1 >= b.settings.maxItems
    ensures |b.drains| == b.generation && Drain(Crossed(b, event), Some(b.generation), late) != Crossed(b, event)
    ensures var c := Flushed(b, event, late, fails);
      && Inv(c) && AnsweredTruly(c, |b.accepted|, event, fails) && (fails ==> c.journal == b.journal)
  {
    var accepted, trigger := Accept(b, event), Threshold(|b.accepted|, b.generation);
    AcceptKeeps(b, event);
    hide CommitAndNotify, Answered, Durable;
    ThresholdKeeps(accepted, trigger, late);
    var drained := Drain(Crossed(b, event), Some(b.generation), late);
    assert drained == Apply(accepted, ThresholdFlush(trigger, late));
    CommitKeeps(drained, b.generation, fails);
    assert drained.drains[b.generation] == b.pending + [Item(|b.accepted|, event)];
    AnsweredAfterCommit(drained, b.generation, fails, Item(|b.accepted|, event));
  }
}
